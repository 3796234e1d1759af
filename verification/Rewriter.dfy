/** The SNI rewriter (src/rewriters/base.rs). */
module Rewriter {
  import opened Wrappers
  import opened DnsNames

  datatype Config = Config(baseDomains: seq<string>, targetSuffix: string)

  datatype RewriteResult = RewriteResult(original: string, prefix: string, targetHostname: string)

  /** What validate_structure requires of the rewrite section. */
  ghost predicate IsValidConfig(c: Config) {
    && c.baseDomains != []
    && (forall i :: 0 <= i < |c.baseDomains| ==> IsDnsName(c.baseDomains[i]))
    && IsDnsSuffix(c.targetSuffix)
  }

  function NormalizeAll(names: seq<string>): (r: seq<string>)
    ensures |r| == |names| && forall i :: 0 <= i < |r| ==> r[i] == Normalize(names[i])
  {
    seq(|names|, i requires 0 <= i < |names| => Normalize(names[i]))
  }

  /** The configuration as BaseSniRewriter::new stores it. */
  function Stored(c: Config): Config {
    Config(NormalizeAll(c.baseDomains), Lower(c.targetSuffix))
  }

  /** `name` is `prefix` in front of `base`. */
  predicate IsUnder(name: string, prefix: string, base: string) {
    prefix != "" && name == prefix + "." + base
  }

  ghost predicate Matches(name: string, base: string) {
    exists prefix :: IsUnder(name, prefix, base)
  }

  lemma PrefixUnique(name: string, p: string, q: string, base: string)
    requires IsUnder(name, p, base) && IsUnder(name, q, base)
    ensures p == q
  {
    assert p == name[..|name| - |base| - 1] == q;
  }

  /** strip_suffix, and the dot that must remain. */
  function PrefixUnder(name: string, base: string): Option<string> {
    if |name| > |base| + 1 && name[|name| - |base|..] == base && name[|name| - |base| - 1] == '.'
    then Some(name[..|name| - |base| - 1]) else None
  }

  lemma PrefixUnderIsExact(name: string, base: string)
    ensures PrefixUnder(name, base).None? <==> !Matches(name, base)
    ensures PrefixUnder(name, base).Some? ==> IsUnder(name, PrefixUnder(name, base).value, base)
  {
    if prefix :| IsUnder(name, prefix, base) {
      assert name[|name| - |base|..] == base;
      assert name[|prefix|] == '.';
    }
    if PrefixUnder(name, base).Some? {
      var k := |name| - |base| - 1;
      assert [name[k]] == "." && name[k + 1..] == base;
      assert name == name[..k] + [name[k]] + name[k + 1..];
      assert IsUnder(name, name[..k], base);
    }
  }

  /** The prefix under the first base that matches. */
  ghost predicate IsFirstMatch(bases: seq<string>, name: string, i: nat, prefix: string) {
    && i < |bases| && IsUnder(name, prefix, bases[i])
    && forall j :: 0 <= j < i ==> !Matches(name, bases[j])
  }

  function FirstPrefix(bases: seq<string>, name: string): Option<string> {
    if bases == [] then None
    else if PrefixUnder(name, bases[0]).Some? then PrefixUnder(name, bases[0])
    else FirstPrefix(bases[1..], name)
  }

  lemma {:induction false} FirstPrefixIsFirstMatch(bases: seq<string>, name: string)
    ensures FirstPrefix(bases, name).None? <==> forall i :: 0 <= i < |bases| ==> !Matches(name, bases[i])
    ensures forall prefix :: FirstPrefix(bases, name) == Some(prefix) <==>
              exists i: nat :: IsFirstMatch(bases, name, i, prefix)
  {
    if bases != [] {
      PrefixUnderIsExact(name, bases[0]);
      FirstPrefixIsFirstMatch(bases[1..], name);
      if PrefixUnder(name, bases[0]).Some? {
        var p := PrefixUnder(name, bases[0]).value;
        assert IsFirstMatch(bases, name, 0, p);
        assert Matches(name, bases[0]);
        forall prefix, i: nat | IsFirstMatch(bases, name, i, prefix) ensures prefix == p {
          PrefixUnique(name, prefix, p, bases[0]);
        }
      } else {
        forall prefix, i: nat | IsFirstMatch(bases, name, i, prefix)
          ensures i > 0 && IsFirstMatch(bases[1..], name, i - 1, prefix)
        {
          assert Matches(name, bases[i]);
        }
        forall prefix, i: nat | IsFirstMatch(bases[1..], name, i, prefix)
          ensures IsFirstMatch(bases, name, i + 1, prefix)
        {
        }
      }
    }
  }

  /** `rewrite` on a stored configuration. */
  function Rewrite(c: Config, sni: string): Option<RewriteResult> {
    var name := Normalize(sni);
    if sni == "" || c.baseDomains == [] || |c.targetSuffix| == 0 || c.targetSuffix[0] != '.' then None
    else if exists i :: 0 <= i < |name| && !HostChar(name[i]) then None
    else
      match FirstPrefix(c.baseDomains, name)
      case None => None
      case Some(prefix) => Some(RewriteResult(name, prefix, prefix + c.targetSuffix))
  }

  // ----- what rewriting means -----

  ghost predicate Acceptable(c: Config, sni: string) {
    && |c.targetSuffix| > 0 && c.targetSuffix[0] == '.'
    && forall i :: 0 <= i < |Normalize(sni)| ==> HostChar(Normalize(sni)[i])
  }

  /** A name is rewritten exactly if it is acceptable and is a nonempty prefix in front of some base. */
  lemma RewriteIffUnderABase(c: Config, sni: string)
    ensures Rewrite(c, sni).Some?
            <==> Acceptable(c, sni) && exists i :: 0 <= i < |c.baseDomains| && Matches(Normalize(sni), c.baseDomains[i])
  {
    assert sni == "" ==> Normalize(sni) == "";
    hide Normalize;
    FirstPrefixIsFirstMatch(c.baseDomains, Normalize(sni));
    assert forall base :: !Matches("", base);
    hide FirstPrefix, Matches;
  }

  /** The same, letter by letter. */
  lemma RewriteIffPrefixDotBase(c: Config, sni: string)
    ensures Rewrite(c, sni).Some?
            <==> && |c.targetSuffix| > 0 && c.targetSuffix[0] == '.'
                 && (forall i :: 0 <= i < |Normalize(sni)| ==>
                       || 'a' <= Normalize(sni)[i] <= 'z' || '0' <= Normalize(sni)[i] <= '9'
                       || Normalize(sni)[i] == '.' || Normalize(sni)[i] == '-')
                 && exists i, prefix :: 0 <= i < |c.baseDomains| && prefix != ""
                                        && Normalize(sni) == prefix + "." + c.baseDomains[i]
  {
    RewriteIffUnderABase(c, sni);
    var name := Normalize(sni);
    hide Rewrite, Normalize;
    if i, prefix :| 0 <= i < |c.baseDomains| && prefix != "" && name == prefix + "." + c.baseDomains[i] {
      assert IsUnder(name, prefix, c.baseDomains[i]);
      assert Matches(name, c.baseDomains[i]);
    }
    if i :| 0 <= i < |c.baseDomains| && Matches(name, c.baseDomains[i]) {
      var prefix :| IsUnder(name, prefix, c.baseDomains[i]);
      assert prefix != "" && name == prefix + "." + c.baseDomains[i];
    }
  }

  /** The prefix is the one in front of the first base that matches; the target is prefix and suffix. */
  lemma RewriteUsesFirstBase(c: Config, sni: string)
    requires Rewrite(c, sni).Some?
    ensures var r := Rewrite(c, sni).value;
            && r.original == Normalize(sni) && r.targetHostname == r.prefix + c.targetSuffix
            && exists i: nat :: IsFirstMatch(c.baseDomains, r.original, i, r.prefix)
  {
    hide Normalize;
    FirstPrefixIsFirstMatch(c.baseDomains, Normalize(sni));
    hide FirstPrefix, IsFirstMatch;
  }

  /** Two names have the same target exactly if they have the same prefix; under one base they are then equal. */
  lemma RewriteIsInjectivePerBase(c: Config, a: string, b: string, i: nat, j: nat)
    requires Rewrite(c, a).Some? && Rewrite(c, b).Some?
    requires IsFirstMatch(c.baseDomains, Normalize(a), i, Rewrite(c, a).value.prefix)
    requires IsFirstMatch(c.baseDomains, Normalize(b), j, Rewrite(c, b).value.prefix)
    ensures Rewrite(c, a).value.targetHostname == Rewrite(c, b).value.targetHostname
            <==> Rewrite(c, a).value.prefix == Rewrite(c, b).value.prefix
    ensures c.baseDomains[i] == c.baseDomains[j] ==>
              (Rewrite(c, a).value.targetHostname == Rewrite(c, b).value.targetHostname <==> Normalize(a) == Normalize(b))
  {
    var p, q := Rewrite(c, a).value.prefix, Rewrite(c, b).value.prefix;
    if p + c.targetSuffix == q + c.targetSuffix {
      assert |p| == |q|;
      assert p == (p + c.targetSuffix)[..|p|] == q;
    }
    if Normalize(a) == Normalize(b) && c.baseDomains[i] == c.baseDomains[j] {
      PrefixUnique(Normalize(a), p, q, c.baseDomains[i]);
    }
  }

  /** However a name is spelled, its letters' case aside, it is rewritten alike. */
  lemma SpellingsRewriteAlike(c: Config, s: string, n: string)
    requires |s| == |n| && (n != "" ==> n[|n| - 1] != '.')
    requires forall i :: 0 <= i < |n| ==> !('A' <= n[i] <= 'Z')
    requires forall i :: 0 <= i < |s| ==> s[i] == n[i] || ('A' <= s[i] <= 'Z' && s[i] as int + 32 == n[i] as int)
    ensures Rewrite(c, s) == Rewrite(c, n)
  {
    SpellingsNormalize(s, n);
    SpellingsNormalize(n, n);
    hide Normalize, FirstPrefix;
  }

  /** A valid configuration is stored as it is. */
  lemma ValidConfigIsStoredUnchanged(c: Config)
    requires IsValidConfig(c)
    ensures Stored(c) == c
  {
    forall i | 0 <= i < |c.baseDomains| ensures Normalize(c.baseDomains[i]) == c.baseDomains[i] {
      NormalizeKeepsNames(c.baseDomains[i]);
    }
    NormalizeKeepsNames(c.targetSuffix[1..]);
    assert c.targetSuffix == ["."[0]] + c.targetSuffix[1..];
    assert Lower(c.targetSuffix) == ["."[0]] + Lower(c.targetSuffix[1..]);
  }

  /**
   With a valid configuration the target of a valid name is a valid name exactly if it is at most 253
   bytes long.
   */
  lemma ValidNamesStayValid(c: Config, sni: string)
    requires IsValidConfig(c) && Rewrite(Stored(c), sni).Some? && IsDnsName(Normalize(sni))
    ensures IsDnsName(Rewrite(Stored(c), sni).value.targetHostname)
            <==> |Rewrite(Stored(c), sni).value.targetHostname| <= MAX_NAME
  {
    ValidConfigIsStoredUnchanged(c);
    RewriteUsesFirstBase(c, sni);
    var r := Rewrite(c, sni).value;
    var i: nat :| IsFirstMatch(c.baseDomains, r.original, i, r.prefix);
    hide Rewrite;
    TargetIsValid(r.prefix, c.baseDomains[i], c.targetSuffix);
  }

  // ----- claims that do not hold -----

  lemma NormalUnderName(base: string, prefix: string)
    requires IsDnsName(base) && forall i :: 0 <= i < |prefix| ==> HostChar(prefix[i])
    ensures var name := prefix + "." + base;
            Normalize(name) == name && forall i :: 0 <= i < |name| ==> HostChar(name[i])
  {
    NameChars(base);
    hide Split, AllLabels;
    var name := prefix + "." + base;
    assert name[|name| - 1] == base[|base| - 1];
    LowerIsIdentity(name);
    assert TrimDots(name) == name;
  }

  lemma OneBasePrefix(base: string, prefix: string)
    requires prefix != ""
    ensures FirstPrefix([base], prefix + "." + base) == Some(prefix)
  {
    var name := prefix + "." + base;
    PrefixUnderIsExact(name, base);
    assert IsUnder(name, prefix, base);
    PrefixUnique(name, prefix, PrefixUnder(name, base).value, base);
  }

  /** Any prefix of host characters is rewritten: its labels are not looked at. */
  lemma AnyPrefixGoesThrough(base: string, suffix: string, prefix: string)
    requires IsDnsName(base) && IsDnsSuffix(suffix)
    requires prefix != "" && forall i :: 0 <= i < |prefix| ==> HostChar(prefix[i])
    ensures Rewrite(Config([base], suffix), prefix + "." + base)
            == Some(RewriteResult(prefix + "." + base, prefix, prefix + suffix))
    ensures IsDnsName(prefix + suffix) <==> AllLabels(Split(prefix)) && |prefix + suffix| <= MAX_NAME
  {
    TargetIsValidIff(prefix, suffix);
    NormalUnderName(base, prefix);
    OneBasePrefix(base, prefix);
    hide Split, AllLabels, Normalize, FirstPrefix;
  }

  /** So an empty label in the source makes a target that is no DNS name, whatever the configuration. */
  lemma EmptyLabelsGoThrough(base: string, suffix: string)
    requires IsDnsName(base) && IsDnsSuffix(suffix)
    ensures Rewrite(Config([base], suffix), "www." + "." + base).Some?
    ensures Rewrite(Config([base], suffix), "www." + "." + base).value.targetHostname == "www." + suffix
    ensures !IsDnsName("www." + suffix)
  {
    AnyPrefixGoesThrough(base, suffix, "www.");
    SplitAtDot("www", "");
    assert "www" + "." + "" == "www.";
    assert (Split("www") + [""])[|Split("www")|] == "";
  }

  // ----- the rewriter as an object -----

  class BaseSniRewriter {
    var baseDomains: seq<string>
    var targetSuffix: string

    ghost function Configuration(): Config
      reads this
    {
      Config(baseDomains, targetSuffix)
    }

    /** Normalises every base domain in place. */
    constructor (config: Config)
      ensures Configuration() == Stored(config)
      ensures targetSuffix == Lower(config.targetSuffix) && |baseDomains| == |config.baseDomains|
      ensures forall i :: 0 <= i < |baseDomains| ==> baseDomains[i] == Normalize(config.baseDomains[i])
    {
      baseDomains := config.baseDomains;
      targetSuffix := Lower(config.targetSuffix);
      new;
      for i := 0 to |baseDomains|
        invariant |baseDomains| == |config.baseDomains| && targetSuffix == Lower(config.targetSuffix)
        invariant forall j :: 0 <= j < i ==> baseDomains[j] == Normalize(config.baseDomains[j])
        invariant forall j :: i <= j < |baseDomains| ==> baseDomains[j] == config.baseDomains[j]
      {
        baseDomains := baseDomains[i := Normalize(baseDomains[i])];
      }
      assert baseDomains == NormalizeAll(config.baseDomains);
    }

    method ExtractPrefix(name: string) returns (prefix: Option<string>)
      ensures prefix == FirstPrefix(baseDomains, name)
    {
      var i := 0;
      assert baseDomains[0..] == baseDomains;
      while i < |baseDomains|
        invariant 0 <= i <= |baseDomains|
        invariant FirstPrefix(baseDomains, name) == FirstPrefix(baseDomains[i..], name)
      {
        var base := baseDomains[i];
        if |name| >= |base| && name[|name| - |base|..] == base {
          var rest := name[..|name| - |base|];
          if rest != "" && rest[|rest| - 1] == '.' {
            if rest[..|rest| - 1] != "" {
              assert rest[..|rest| - 1] == name[..|name| - |base| - 1];
              return Some(rest[..|rest| - 1]);
            }
          }
        }
        assert baseDomains[i..][1..] == baseDomains[i + 1..];
        i := i + 1;
      }
      prefix := None;
    }

    method RewriteSni(sni: string) returns (result: Option<RewriteResult>)
      ensures result == Rewrite(Configuration(), sni)
    {
      if sni == "" || baseDomains == [] || |targetSuffix| == 0 || targetSuffix[0] != '.' {
        return None;
      }
      var name := Normalize(sni);
      for i := 0 to |name|
        invariant forall j :: 0 <= j < i ==> HostChar(name[j])
      {
        if !HostChar(name[i]) {
          return None;
        }
      }
      var prefix := ExtractPrefix(name);
      if prefix.None? {
        return None;
      }
      result := Some(RewriteResult(name, prefix.value, prefix.value + targetSuffix));
    }
  }
}
