/**
 What the order of the configured bases decides: the rewriter takes the first
 base that matches, which need not be the longest, and names under different
 bases can share a target.
 */
module BaseOrder {
  import opened Wrappers
  import opened DnsNames
  import opened Rewriter

  // ----- which bases match -----

  lemma MatchesSuffix(name: string, base: string)
    ensures Matches(name, base) <==> |name| > |base| + 1 && IsParent(name, base)
  {
    PrefixUnderIsExact(name, base);
  }

  /** Under a prefix of one letter a name matches its own base and the parents of that base, and no other. */
  lemma MatchesOneLetter(base: string, other: string)
    ensures Matches("x." + base, other) <==> other == base || IsParent(base, other)
  {
    var name := "x." + base;
    MatchesSuffix(name, other);
    assert name[2..] == base && name[1] == '.';
    if |base| >= |other| {
      assert name[|name| - |other|..] == base[|base| - |other|..];
    }
    if |base| == |other| {
      assert base[0..] == base;
    }
  }

  /** A name that matches a base matches every parent of the base. */
  lemma MatchesParents(name: string, base: string, parent: string)
    requires Matches(name, base) && IsParent(base, parent)
    ensures Matches(name, parent)
  {
    MatchesSuffix(name, base);
    ParentTransitive(name, base, parent);
    MatchesSuffix(name, parent);
  }

  /** Of two bases that match one name the longer is the other or under it. */
  lemma LongerIsUnder(name: string, a: string, b: string)
    requires Matches(name, a) && Matches(name, b) && |a| <= |b|
    ensures a == b || IsParent(b, a)
  {
    MatchesSuffix(name, a);
    MatchesSuffix(name, b);
    assert name[|name| - |a|..] == name[|name| - |b|..][|b| - |a|..];
    if |a| < |b| {
      assert name[|name| - |a| - 1] == name[|name| - |b|..][|b| - |a| - 1];
    }
  }

  lemma FirstMatchExists(bases: seq<string>, name: string, j: nat) returns (i: nat, prefix: string)
    requires j < |bases| && Matches(name, bases[j])
    ensures i <= j && IsFirstMatch(bases, name, i, prefix)
    decreases j
  {
    if k: nat :| k < j && Matches(name, bases[k]) {
      i, prefix := FirstMatchExists(bases, name, k);
    } else {
      i := j;
      prefix :| IsUnder(name, prefix, bases[j]);
    }
  }

  /** The prefix is the one in front of the first base in the list that has a nonempty one. */
  lemma FirstBaseWins(c: Config, sni: string, i: nat, prefix: string)
    requires Rewrite(c, sni).Some? && i < |c.baseDomains|
    requires prefix != "" && Normalize(sni) == prefix + "." + c.baseDomains[i]
    requires forall j, q :: 0 <= j < i && q != "" ==> Normalize(sni) != q + "." + c.baseDomains[j]
    ensures Rewrite(c, sni).value.prefix == prefix
    ensures Rewrite(c, sni).value.targetHostname == prefix + c.targetSuffix
    ensures Rewrite(c, sni).value.original == Normalize(sni)
  {
    RewriteUsesFirstBase(c, sni);
    var name := Normalize(sni);
    hide Rewrite, Normalize;
    forall j | 0 <= j < i ensures !Matches(name, c.baseDomains[j]) {
    }
    assert IsFirstMatch(c.baseDomains, name, i, prefix);
    FirstMatchUnique(c.baseDomains, name, i, prefix);
  }

  // ----- when the longest base wins -----

  /** For every name the first base that matches is a longest one that matches. */
  ghost predicate LongestWins(bases: seq<string>) {
    forall name, i: nat, prefix, j: nat ::
      IsFirstMatch(bases, name, i, prefix) && j < |bases| && Matches(name, bases[j]) ==> |bases[j]| <= |bases[i]|
  }

  /** `bases[j]` is a subdomain of the earlier `bases[i]` and does not occur before it. */
  ghost predicate IsShadowed(bases: seq<string>, i: nat, j: nat) {
    i < j < |bases| && IsParent(bases[j], bases[i]) && bases[j] !in bases[..i]
  }

  lemma InPrefix(bases: seq<string>, i: nat, k: nat)
    requires k < i <= |bases|
    ensures bases[k] in bases[..i]
  {
    assert bases[..i][k] == bases[k];
  }

  lemma FirstIsLongest(bases: seq<string>, name: string, i: nat, prefix: string, j: nat)
    requires IsFirstMatch(bases, name, i, prefix) && j < |bases| && Matches(name, bases[j])
    requires !IsShadowed(bases, i, j)
    ensures |bases[j]| <= |bases[i]|
  {
    assert Matches(name, bases[i]);
    if |bases[j]| > |bases[i]| {
      LongerIsUnder(name, bases[i], bases[j]);
    }
  }

  lemma ShadowedLoses(bases: seq<string>, i: nat, j: nat)
    requires IsShadowed(bases, i, j)
    ensures !LongestWins(bases)
  {
    var name := "x." + bases[j];
    MatchesOneLetter(bases[j], bases[j]);
    MatchesOneLetter(bases[j], bases[i]);
    var f, prefix := FirstMatchExists(bases, name, i);
    MatchesOneLetter(bases[j], bases[f]);
    if f < i {
      InPrefix(bases, i, f);
    }
    assert |bases[f]| < |bases[j]|;
  }

  /** The longest base wins for every name exactly if no base first occurs after one of its parents. */
  lemma LongestWinsIff(bases: seq<string>)
    ensures LongestWins(bases) <==> forall i: nat, j: nat :: !IsShadowed(bases, i, j)
  {
    if i: nat, j: nat :| IsShadowed(bases, i, j) {
      ShadowedLoses(bases, i, j);
    } else {
      forall name, i: nat, prefix, j: nat
        | IsFirstMatch(bases, name, i, prefix) && j < |bases| && Matches(name, bases[j])
        ensures |bases[j]| <= |bases[i]|
      {
        FirstIsLongest(bases, name, i, prefix, j);
      }
    }
  }

  // ----- when different names have different targets -----

  /** Names that are rewritten to one target are one name. */
  ghost predicate IsInjective(c: Config) {
    forall a, b :: Rewrite(c, a).Some? && Rewrite(c, b).Some?
                   && Rewrite(c, a).value.targetHostname == Rewrite(c, b).value.targetHostname
                   ==> Normalize(a) == Normalize(b)
  }

  /** Every base is the first one or lies under it: the others never decide. */
  ghost predicate OneBaseDecides(bases: seq<string>) {
    forall i :: 0 <= i < |bases| ==> bases[i] == bases[0] || IsParent(bases[i], bases[0])
  }

  lemma FirstBaseDecides(c: Config, sni: string)
    requires OneBaseDecides(c.baseDomains) && Rewrite(c, sni).Some?
    ensures c.baseDomains != [] && IsFirstMatch(c.baseDomains, Normalize(sni), 0, Rewrite(c, sni).value.prefix)
  {
    RewriteUsesFirstBase(c, sni);
    var r := Rewrite(c, sni).value;
    hide Rewrite, Normalize;
    var i: nat :| IsFirstMatch(c.baseDomains, r.original, i, r.prefix);
    assert Matches(r.original, c.baseDomains[i]);
    if c.baseDomains[i] != c.baseDomains[0] {
      MatchesParents(r.original, c.baseDomains[i], c.baseDomains[0]);
    }
  }

  lemma FirstMatchUnique(bases: seq<string>, name: string, i: nat, prefix: string)
    requires IsFirstMatch(bases, name, i, prefix)
    ensures Matches(name, bases[i])
    ensures forall j: nat, other :: IsFirstMatch(bases, name, j, other) ==> other == prefix
  {
    assert Matches(name, bases[i]);
    forall j: nat, other | IsFirstMatch(bases, name, j, other) ensures other == prefix {
      assert Matches(name, bases[j]);
      PrefixUnique(name, other, prefix, bases[i]);
    }
  }

  /** No earlier base is `bases[i]` or a parent of it. */
  ghost predicate IsEffective(bases: seq<string>, i: nat) {
    i < |bases| && forall k :: 0 <= k < i ==> bases[k] != bases[i] && !IsParent(bases[i], bases[k])
  }

  lemma OneLetterFirst(bases: seq<string>, i: nat)
    requires IsEffective(bases, i)
    ensures IsFirstMatch(bases, "x." + bases[i], i, "x")
  {
    var name := "x." + bases[i];
    forall k | 0 <= k < i ensures !Matches(name, bases[k]) {
      MatchesOneLetter(bases[i], bases[k]);
    }
    assert name == "x" + "." + bases[i];
  }

  lemma OneLetterAcceptable(c: Config, i: nat)
    requires IsValidConfig(c) && i < |c.baseDomains|
    ensures var name := "x." + c.baseDomains[i]; Normalize(name) == name && Acceptable(c, name)
  {
    NormalUnderName(c.baseDomains[i], "x");
    assert "x." + c.baseDomains[i] == "x" + "." + c.baseDomains[i];
    hide Normalize;
  }

  /** An effective base rewrites its names of one letter more. */
  lemma OneLetterRewrites(c: Config, i: nat)
    requires IsValidConfig(c) && IsEffective(c.baseDomains, i)
    ensures var name := "x." + c.baseDomains[i];
            && Normalize(name) == name && Rewrite(c, name).Some?
            && Rewrite(c, name).value.targetHostname == "x" + c.targetSuffix
  {
    assert i < |c.baseDomains|;
    hide *;
    var name := "x." + c.baseDomains[i];
    OneLetterFirst(c.baseDomains, i);
    OneLetterAcceptable(c, i);
    FirstMatchUnique(c.baseDomains, name, i, "x");
    RewriteIffUnderABase(c, name);
    RewriteUsesFirstBase(c, name);
  }

  /** The least index at which a base neither is the first one nor lies under it. */
  lemma {:induction false} FirstStranger(bases: seq<string>, j: nat) returns (i: nat)
    requires j < |bases| && bases[j] != bases[0] && !IsParent(bases[j], bases[0])
    ensures i <= j && bases[i] != bases[0] && !IsParent(bases[i], bases[0])
    ensures IsEffective(bases, i)
    decreases j
  {
    if k: nat :| k < j && bases[k] != bases[0] && !IsParent(bases[k], bases[0]) {
      i := FirstStranger(bases, k);
    } else {
      i := j;
      forall k | 0 <= k < j && bases[k] != bases[0] ensures !IsParent(bases[j], bases[k]) {
        if IsParent(bases[j], bases[k]) {
          ParentTransitive(bases[j], bases[k], bases[0]);
        }
      }
    }
  }

  lemma OneBaseIsInjective(c: Config)
    requires OneBaseDecides(c.baseDomains)
    ensures IsInjective(c)
  {
    hide Rewrite, Normalize, OneBaseDecides, IsFirstMatch;
    forall a, b | Rewrite(c, a).Some? && Rewrite(c, b).Some?
                  && Rewrite(c, a).value.targetHostname == Rewrite(c, b).value.targetHostname
      ensures Normalize(a) == Normalize(b)
    {
      FirstBaseDecides(c, a);
      FirstBaseDecides(c, b);
      RewriteIsInjectivePerBase(c, a, b, 0, 0);
    }
  }

  lemma TwoEffectiveBases(c: Config, i: nat)
    requires IsValidConfig(c) && IsEffective(c.baseDomains, 0) && IsEffective(c.baseDomains, i)
    requires c.baseDomains[0] != c.baseDomains[i]
    ensures !IsInjective(c)
  {
    var a, b := "x." + c.baseDomains[0], "x." + c.baseDomains[i];
    assert a[2..] == c.baseDomains[0] && b[2..] == c.baseDomains[i];
    OneLetterRewrites(c, 0);
    OneLetterRewrites(c, i);
    hide Rewrite, Normalize, IsEffective, IsValidConfig;
  }

  /** Different names have different targets exactly if every base is the first one or lies under it. */
  lemma RewriteIsInjectiveIff(c: Config)
    requires IsValidConfig(c)
    ensures IsInjective(c) <==> OneBaseDecides(c.baseDomains)
  {
    if OneBaseDecides(c.baseDomains) {
      OneBaseIsInjective(c);
    } else {
      var j: nat :| j < |c.baseDomains| && c.baseDomains[j] != c.baseDomains[0]
                    && !IsParent(c.baseDomains[j], c.baseDomains[0]);
      var i := FirstStranger(c.baseDomains, j);
      TwoEffectiveBases(c, i);
    }
  }
}
