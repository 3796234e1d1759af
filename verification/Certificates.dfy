/** Certificate selection by longest configured suffix (src/tls_utils.rs). */
module Certificates {
  import opened Wrappers
  import opened DnsNames
  import Rewriter

  type Cert = nat

  /** The configured key that decides for `domain`: the name itself, or its longest configured parent. */
  ghost predicate Decides(certs: map<string, Cert>, domain: string, key: string) {
    && key in certs
    && if domain in certs then key == domain
       else
         && IsParent(domain, key)
         && forall k :: k in certs && IsParent(domain, k) ==> |k| <= |key|
  }

  /** At most one key decides: parents of one name with equal length are equal. */
  lemma DecidingKeyUnique(certs: map<string, Cert>, domain: string, a: string, b: string)
    requires Decides(certs, domain, a) && Decides(certs, domain, b)
    ensures a == b
  {
    if domain !in certs {
      assert |a| == |b|;
      assert a == domain[|domain| - |a|..] == b;
    }
  }

  /** The outcome for a normalised domain; None stands for NotConfigured. */
  ghost predicate IsCertFor(certs: map<string, Cert>, fallback: Option<Cert>, domain: string, result: Option<Cert>) {
    if exists key :: Decides(certs, domain, key)
    then exists key :: Decides(certs, domain, key) && result == Some(certs[key])
    else result == fallback
  }

  /** The outcome does not depend on the order in which the map is visited. */
  lemma LookupIsDeterministic(
    certs: map<string, Cert>, fallback: Option<Cert>, domain: string, r: Option<Cert>, t: Option<Cert>)
    requires IsCertFor(certs, fallback, domain, r) && IsCertFor(certs, fallback, domain, t)
    ensures r == t
  {
    if exists key :: Decides(certs, domain, key) {
      var a :| Decides(certs, domain, a) && r == Some(certs[a]);
      var b :| Decides(certs, domain, b) && t == Some(certs[b]);
      DecidingKeyUnique(certs, domain, a, b);
    }
  }

  /** A key decides unless neither the name nor any parent of it is configured. */
  lemma {:induction false} LongestParentExists(certs: map<string, Cert>, domain: string, k: string) returns (key: string)
    requires k in certs && domain !in certs && IsParent(domain, k)
    ensures Decides(certs, domain, key) && |key| >= |k|
    decreases |domain| - |k|
  {
    if longer :| longer in certs && IsParent(domain, longer) && |longer| > |k| {
      key := LongestParentExists(certs, domain, longer);
    } else {
      key := k;
    }
  }

  lemma FallbackIffNothingConfigured(certs: map<string, Cert>, domain: string)
    ensures (exists key :: Decides(certs, domain, key))
            <==> domain in certs || exists k :: k in certs && IsParent(domain, k)
  {
    if domain in certs {
      assert Decides(certs, domain, domain);
    } else if k :| k in certs && IsParent(domain, k) {
      var key := LongestParentExists(certs, domain, k);
    }
  }

  /**
   What the lookup gives: the certificate of the very name if there is one; else that of a configured
   parent that no other configured parent exceeds in length; else the default.
   */
  lemma LookupResult(certs: map<string, Cert>, fallback: Option<Cert>, domain: string, r: Option<Cert>, k: string)
    requires IsCertFor(certs, fallback, domain, r)
    ensures domain in certs ==> r == Some(certs[domain])
    ensures && domain !in certs
            && k in certs && (exists p :: domain == p + "." + k)
            && (forall l :: l in certs && (exists p :: domain == p + "." + l) ==> |l| <= |k|)
            ==> r == Some(certs[k])
    ensures domain !in certs && (forall l :: l in certs ==> !exists p :: domain == p + "." + l) ==> r == fallback
  {
    FallbackIffNothingConfigured(certs, domain);
    forall l ensures IsParent(domain, l) <==> exists p :: domain == p + "." + l {
      ParentMeaning(domain, l);
    }
    hide IsParent;
    if domain in certs {
      assert Decides(certs, domain, domain);
      LookupIsDeterministic(certs, fallback, domain, r, Some(certs[domain]));
    } else if k in certs && IsParent(domain, k) && forall l :: l in certs && IsParent(domain, l) ==> |l| <= |k| {
      assert Decides(certs, domain, k);
      LookupIsDeterministic(certs, fallback, domain, r, Some(certs[k]));
    }
  }

  /** However a name is spelled, its letters' case and trailing dots aside, it has one certificate. */
  lemma SpellingsShareCertificate(
    certs: map<string, Cert>, fallback: Option<Cert>, s: string, n: string, r: Option<Cert>, t: Option<Cert>)
    requires |s| == |n| && (n != "" ==> n[|n| - 1] != '.')
    requires forall i :: 0 <= i < |n| ==> !('A' <= n[i] <= 'Z')
    requires forall i :: 0 <= i < |s| ==> s[i] == n[i] || ('A' <= s[i] <= 'Z' && s[i] as int + 32 == n[i] as int)
    requires IsCertFor(certs, fallback, Normalize(s), r) && IsCertFor(certs, fallback, n, t)
    ensures r == t
  {
    SpellingsNormalize(s, n);
    LookupIsDeterministic(certs, fallback, n, r, t);
  }

  /** get_cert_for_domain, visiting the map in any order. */
  method GetCertForDomain(certs: map<string, Cert>, fallback: Option<Cert>, name: string) returns (result: Option<Cert>)
    ensures IsCertFor(certs, fallback, Normalize(name), result)
  {
    var domain := Normalize(name);
    hide Normalize, IsParent;
    FallbackIffNothingConfigured(certs, domain);
    if domain in certs {
      assert Decides(certs, domain, domain);
      return Some(certs[domain]);
    }
    var best: Option<string> := None;
    var todo := certs.Keys;
    while todo != {}
      invariant todo <= certs.Keys
      invariant best.Some? ==> best.value in certs && IsParent(domain, best.value)
      invariant forall k :: k in certs.Keys - todo && IsParent(domain, k) ==> best.Some? && |k| <= |best.value|
      decreases todo
    {
      var k :| k in todo;
      todo := todo - {k};
      if IsParent(domain, k) && (best.None? || |k| >= |best.value|) {
        best := Some(k);
      }
    }
    if best.Some? {
      assert Decides(certs, domain, best.value);
      return Some(certs[best.value]);
    }
    result := fallback;
  }

  // ----- agreement with the rewriter -----

  /**
   A name that was rewritten under a base with a certificate of its own is served by a certificate for
   the very name, or for a parent at least as long as that base.
   */
  lemma RewrittenNamesAreCovered(
    c: Rewriter.Config, certs: map<string, Cert>, fallback: Option<Cert>, sni: string, i: nat, result: Option<Cert>)
    requires Rewriter.Rewrite(c, sni).Some?
    requires Rewriter.IsFirstMatch(c.baseDomains, Normalize(sni), i, Rewriter.Rewrite(c, sni).value.prefix)
    requires c.baseDomains[i] in certs
    requires IsCertFor(certs, fallback, Normalize(sni), result)
    ensures exists key :: Decides(certs, Normalize(sni), key) && result == Some(certs[key])
                          && |key| >= |c.baseDomains[i]|
  {
    var name, base := Normalize(sni), c.baseDomains[i];
    var prefix := Rewriter.Rewrite(c, sni).value.prefix;
    hide Normalize, Rewriter.Rewrite;
    assert name[|name| - |base|..] == base && name[|prefix|] == '.';
    assert IsParent(name, base);
    if name in certs {
      assert Decides(certs, name, name);
    } else {
      var key := LongestParentExists(certs, name, base);
    }
    var key :| Decides(certs, name, key) && result == Some(certs[key]);
    assert |key| >= |base|;
  }

  /** A key that ends with a dot, or an empty one, never decides: looked-up names end without one. */
  lemma DottedKeysAreDead(certs: map<string, Cert>, name: string, key: string)
    requires key in certs && (key == "" || key[|key| - 1] == '.')
    requires Normalize(name) != ""
    ensures !Decides(certs, Normalize(name), key)
  {
    NormalizeShape(name);
    var domain := Normalize(name);
    assert |domain| > |key| > 0 ==> domain[|domain| - |key|..][|key| - 1] == domain[|domain| - 1];
  }

  // ----- loading the map -----

  /** What loading a certificate's files gives; None if they do not load. */
  type Loaded = Option<Cert>

  ghost predicate AllLoad(configured: map<string, Loaded>, visits: seq<string>) {
    forall k :: k in visits ==> k in configured && configured[k].Some?
  }

  ghost predicate EveryLoads(configured: map<string, Loaded>) {
    forall k :: k in configured ==> configured[k].Some?
  }

  /** Insert every configured certificate under its lower-case name, in the order of `visits`. */
  ghost function Load(configured: map<string, Loaded>, visits: seq<string>): map<string, Cert>
    requires AllLoad(configured, visits)
  {
    if visits == [] then map[]
    else
      var last := visits[|visits| - 1];
      Load(configured, visits[..|visits| - 1])[Lower(last) := configured[last].value]
  }

  lemma LoadOneMore(configured: map<string, Loaded>, visits: seq<string>, k: string)
    requires AllLoad(configured, visits) && k in configured && configured[k].Some?
    ensures AllLoad(configured, visits + [k])
    ensures Load(configured, visits + [k]) == Load(configured, visits)[Lower(k) := configured[k].value]
  {
    assert (visits + [k])[..|visits|] == visits;
    hide Lower;
  }

  /** `visits` is an order in which an iteration over the map may go. */
  ghost predicate IsOrder(configured: map<string, Loaded>, visits: seq<string>) {
    && (forall k :: k in visits <==> k in configured)
    && (forall i, j :: 0 <= i < j < |visits| ==> visits[i] != visits[j])
  }

  ghost predicate Consistent(configured: map<string, Loaded>) {
    forall a, b :: a in configured && b in configured && Lower(a) == Lower(b) ==> configured[a] == configured[b]
  }

  lemma {:induction false} LoadedKey(configured: map<string, Loaded>, visits: seq<string>, key: string)
    requires AllLoad(configured, visits)
    ensures key in Load(configured, visits) <==> exists k :: k in visits && Lower(k) == key
    ensures key in Load(configured, visits) ==>
              exists k :: k in visits && Lower(k) == key && Load(configured, visits)[key] == configured[k].value
    decreases |visits|
  {
    if visits != [] {
      var front, last := visits[..|visits| - 1], visits[|visits| - 1];
      assert visits == front + [last] && last in visits;
      assert forall k :: k in visits <==> k in front || k == last;
      LoadedKey(configured, front, key);
    }
  }

  lemma ConsistentLoads(configured: map<string, Loaded>, v: seq<string>, w: seq<string>)
    requires EveryLoads(configured) && Consistent(configured) && IsOrder(configured, v) && IsOrder(configured, w)
    ensures Load(configured, v) == Load(configured, w)
  {
    var x, y := Load(configured, v), Load(configured, w);
    forall key ensures (key in x <==> key in y) && (key in x ==> x[key] == y[key]) {
      LoadedKey(configured, v, key);
      LoadedKey(configured, w, key);
      hide Load, Lower;
    }
  }

  lemma OrderMore(configured: map<string, Loaded>, last: string, front: seq<string>)
    requires last in configured && IsOrder(configured - {last}, front)
    ensures IsOrder(configured, front + [last])
  {
    assert forall k :: k in configured <==> k == last || k in configured - {last};
    assert forall k :: k in front + [last] <==> k in front || k == last;
  }

  /** Some iteration order visits `last` last. */
  lemma {:induction false} OrderEndingWith(configured: map<string, Loaded>, last: string) returns (visits: seq<string>)
    requires last in configured
    ensures IsOrder(configured, visits) && |visits| > 0 && visits[|visits| - 1] == last
    decreases |configured|
  {
    var rest := configured - {last};
    var front: seq<string> := [];
    if other :| other in rest {
      assert rest.Keys == configured.Keys - {last};
      front := OrderEndingWith(rest, other);
    }
    OrderMore(configured, last, front);
    visits := front + [last];
  }

  /**
   The loaded map is independent of the iteration order exactly if no two configured names that differ
   only in case have different certificates.
   */
  lemma LoadingIsDeterministicIffConsistent(configured: map<string, Loaded>)
    requires EveryLoads(configured)
    ensures Consistent(configured)
            <==> forall v, w :: IsOrder(configured, v) && IsOrder(configured, w)
                                ==> Load(configured, v) == Load(configured, w)
  {
    if Consistent(configured) {
      forall v, w | IsOrder(configured, v) && IsOrder(configured, w)
        ensures Load(configured, v) == Load(configured, w)
      {
        ConsistentLoads(configured, v, w);
      }
    } else {
      var a, b :| a in configured && b in configured && Lower(a) == Lower(b) && configured[a] != configured[b];
      var v := OrderEndingWith(configured, a);
      var w := OrderEndingWith(configured, b);
      assert Load(configured, v)[Lower(a)] == configured[a].value;
      assert Load(configured, w)[Lower(b)] == configured[b].value;
    }
  }

  /** `certs` is what some iteration over the configured certificates loads. */
  ghost predicate IsLoaded(configured: map<string, Loaded>, certs: map<string, Cert>) {
    exists visits :: IsOrder(configured, visits) && AllLoad(configured, visits) && certs == Load(configured, visits)
  }

  class CertificateResolver {
    var certs: map<string, Cert>
    var fallback: Option<Cert>

    constructor (certs: map<string, Cert>, fallback: Option<Cert>)
      ensures this.certs == certs && this.fallback == fallback
    {
      this.certs, this.fallback := certs, fallback;
    }

    /**
     `new` loads the default and then the others, in whatever order the configuration's map is visited.
     It fails exactly if some certificate does not load, and otherwise stores each under its lower-case
     name.
     */
    static method New(configured: map<string, Loaded>, default: Option<Loaded>)
      returns (resolver: Option<CertificateResolver>)
      ensures resolver.None? <==> default == Some(None) || exists k :: k in configured && configured[k].None?
      ensures resolver.Some? ==>
                && fresh(resolver.value)
                && resolver.value.fallback == (if default.Some? then default.value else None)
                && IsLoaded(configured, resolver.value.certs)
    {
      if default == Some(None) {
        return None;
      }
      var certs, failed := LoadAll(configured);
      if failed {
        return None;
      }
      var r := new CertificateResolver(certs, if default.Some? then default.value else None);
      resolver := Some(r);
    }

    /** The loop of `new`. */
    static method LoadAll(configured: map<string, Loaded>) returns (certs: map<string, Cert>, failed: bool)
      ensures failed <==> exists k :: k in configured && configured[k].None?
      ensures !failed ==> IsLoaded(configured, certs)
    {
      certs := map[];
      ghost var visits: seq<string> := [];
      var todo := configured.Keys;
      assert Load(configured, visits) == map[];
      hide Load, Lower;
      while todo != {}
        invariant todo <= configured.Keys
        invariant forall k :: k in visits <==> k in configured && k !in todo
        invariant forall i, j :: 0 <= i < j < |visits| ==> visits[i] != visits[j]
        invariant AllLoad(configured, visits) && certs == Load(configured, visits)
        decreases todo
      {
        var k :| k in todo;
        if configured[k].None? {
          return certs, true;
        }
        LoadOneMore(configured, visits, k);
        todo := todo - {k};
        certs := certs[Lower(k) := configured[k].value];
        visits := visits + [k];
      }
      assert IsOrder(configured, visits);
      failed := false;
    }

    method Resolve(name: string) returns (result: Option<Cert>)
      ensures IsCertFor(certs, fallback, Normalize(name), result)
    {
      result := GetCertForDomain(certs, fallback, name);
    }
  }
}
