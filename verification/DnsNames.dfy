/**
 DNS names as the configuration check sees them (src/config.rs), following
 section 2.3.4 of RFC 1035 and section 2.1 of RFC 1123.  A Rust `str` is
 modelled by its UTF-8 bytes, one `char` a byte.
 */
module DnsNames {
  const MAX_NAME: nat := 253
  const MAX_LABEL: nat := 63

  // ----- labels -----

  /** The labels of `[c] + s`, from those of `s`. */
  function Prepend(c: char, labels: seq<string>): (r: seq<string>)
    requires |labels| > 0
    ensures |r| > 0
  {
    if c == '.' then [""] + labels else [[c] + labels[0]] + labels[1..]
  }

  /** `split('.')`. */
  function Split(s: string): (labels: seq<string>)
    ensures |labels| > 0
  {
    if s == "" then [""] else Prepend(s[0], Split(s[1..]))
  }

  function Join(labels: seq<string>): string
    requires |labels| > 0
  {
    if |labels| == 1 then labels[0] else labels[0] + "." + Join(labels[1..])
  }

  lemma JoinStep(first: string, rest: seq<string>)
    ensures Join([first] + rest) == if rest == [] then first else first + "." + Join(rest)
  {
    assert ([first] + rest)[1..] == rest;
  }

  lemma JoinEmptyFirst(labels: seq<string>)
    requires |labels| > 0
    ensures Join([""] + labels) == "." + Join(labels)
  {
    JoinStep("", labels);
    hide *;
  }

  lemma JoinLongerFirst(c: char, first: string, rest: seq<string>)
    ensures Join([[c] + first] + rest) == [c] + Join([first] + rest)
  {
    JoinStep(first, rest);
    JoinStep([c] + first, rest);
    hide *;
    if rest != [] {
      Regroup(c, first, Join(rest));
    }
  }

  lemma JoinPrepend(c: char, labels: seq<string>)
    requires |labels| > 0
    ensures Join(Prepend(c, labels)) == [c] + Join(labels)
  {
    hide Join;
    if c == '.' {
      JoinEmptyFirst(labels);
    } else {
      JoinLongerFirst(c, labels[0], labels[1..]);
      assert labels == [labels[0]] + labels[1..];
    }
  }

  predicate NoDots(labels: seq<string>) {
    forall i :: 0 <= i < |labels| ==> '.' !in labels[i]
  }

  /** Splitting loses nothing and leaves no dot inside a label. */
  lemma {:induction false} SplitIsExact(s: string)
    ensures Join(Split(s)) == s && NoDots(Split(s))
  {
    if s != "" {
      SplitIsExact(s[1..]);
      JoinPrepend(s[0], Split(s[1..]));
      hide Split, Join;
      assert Split(s) == Prepend(s[0], Split(s[1..])) by { SplitStep(s[0], s[1..]); assert [s[0]] + s[1..] == s; }
      assert s == [s[0]] + s[1..];
    }
  }

  /** One more character in front: a new empty label, or a longer first one. */
  lemma SplitStep(c: char, s: string)
    ensures Split([c] + s) == Prepend(c, Split(s))
  {
    assert ([c] + s)[0] == c && ([c] + s)[1..] == s;
  }

  lemma PrependAppend(c: char, x: seq<string>, y: seq<string>)
    requires |x| > 0
    ensures Prepend(c, x + y) == Prepend(c, x) + y
  {
    assert (x + y)[1..] == x[1..] + y;
  }

  /** The labels of a name are those of its parts around any of its dots. */
  lemma {:induction false} SplitAtDot(a: string, b: string)
    ensures Split(a + "." + b) == Split(a) + Split(b)
  {
    if a == "" {
      assert a + "." + b == ['.'] + b;
      SplitStep('.', b);
      assert Split(a) == [""];
    } else {
      hide *;
      SplitAtDot(a[1..], b);
      SplitStep(a[0], a[1..]);
      SplitStep(a[0], a[1..] + "." + b);
      PrependAppend(a[0], Split(a[1..]), Split(b));
      assert [a[0]] + a[1..] == a;
      Regroup(a[0], a[1..], b);
    }
  }

  lemma Regroup(c: char, s: string, b: string)
    ensures ([c] + s) + "." + b == [c] + (s + "." + b)
  {
  }

  // ----- validity -----

  predicate IsLower(c: char) {
    'a' <= c <= 'z'
  }

  predicate IsUpper(c: char) {
    'A' <= c <= 'Z'
  }

  predicate IsDigit(c: char) {
    '0' <= c <= '9'
  }

  predicate IsAlphanumeric(c: char) {
    IsLower(c) || IsUpper(c) || IsDigit(c)
  }

  predicate IsLabel(l: string) {
    && l != "" && |l| <= MAX_LABEL
    && IsAlphanumeric(l[0]) && IsAlphanumeric(l[|l| - 1])
    && forall i :: 0 <= i < |l| ==> IsLower(l[i]) || IsDigit(l[i]) || l[i] == '-'
  }

  predicate AllLabels(labels: seq<string>) {
    forall i :: 0 <= i < |labels| ==> IsLabel(labels[i])
  }

  /** is_ascii_dns_name. */
  predicate IsDnsName(name: string) {
    name != "" && |name| <= MAX_NAME && AllLabels(Split(name))
  }

  /** is_ascii_dns_suffix. */
  predicate IsDnsSuffix(suffix: string) {
    |suffix| > 0 && suffix[0] == '.' && IsDnsName(suffix[1..])
  }

  lemma LabelsOfParts(a: string, b: string)
    ensures AllLabels(Split(a + "." + b)) <==> AllLabels(Split(a)) && AllLabels(Split(b))
  {
    SplitAtDot(a, b);
    var x, y := Split(a), Split(b);
    if AllLabels(x + y) {
      assert forall i :: 0 <= i < |x| ==> (x + y)[i] == x[i];
      assert forall i :: 0 <= i < |y| ==> (x + y)[|x| + i] == y[i];
    }
  }

  // ----- normalisation -----

  function LowerChar(c: char): char {
    if IsUpper(c) then c - 'A' + 'a' else c
  }

  /** `to_ascii_lowercase`. */
  function Lower(s: string): (t: string)
    ensures |t| == |s| && forall i :: 0 <= i < |s| ==> t[i] == LowerChar(s[i])
  {
    if s == "" then "" else [LowerChar(s[0])] + Lower(s[1..])
  }

  /** `trim_end_matches('.')`. */
  function TrimDots(s: string): (t: string)
    ensures t <= s && (t == "" || t[|t| - 1] != '.')
    ensures forall i :: |t| <= i < |s| ==> s[i] == '.'
  {
    if s != "" && s[|s| - 1] == '.' then TrimDots(s[..|s| - 1]) else s
  }

  function Normalize(s: string): string {
    Lower(TrimDots(s))
  }

  predicate HostChar(c: char) {
    IsLower(c) || IsDigit(c) || c == '.' || c == '-'
  }

  lemma {:induction false} JoinChars(labels: seq<string>)
    requires |labels| > 0 && AllLabels(labels)
    ensures forall i :: 0 <= i < |Join(labels)| ==> HostChar(Join(labels)[i])
    ensures Join(labels) != "" && Join(labels)[|Join(labels)| - 1] != '.'
  {
    assert IsLabel(labels[0]);
    if |labels| > 1 {
      JoinChars(labels[1..]);
    }
  }

  /** A valid name consists of host characters and does not end with a dot. */
  lemma NameChars(name: string)
    requires AllLabels(Split(name))
    ensures forall i :: 0 <= i < |name| ==> HostChar(name[i])
    ensures name != "" && name[|name| - 1] != '.'
  {
    hide Split, Join, AllLabels;
    SplitIsExact(name);
    JoinChars(Split(name));
  }

  lemma {:induction false} LowerIsIdentity(s: string)
    requires forall i :: 0 <= i < |s| ==> HostChar(s[i])
    ensures Lower(s) == s
  {
    assert forall i :: 0 <= i < |s| ==> Lower(s)[i] == s[i];
  }

  /** Normalising a valid name changes nothing. */
  lemma NormalizeKeepsNames(name: string)
    requires IsDnsName(name)
    ensures Normalize(name) == name && Lower(name) == name
  {
    NameChars(name);
    LowerIsIdentity(name);
  }

  lemma LowerSpells(c: char, d: char)
    requires (c == d && !('A' <= d <= 'Z')) || ('A' <= c <= 'Z' && c as int + 32 == d as int)
    ensures LowerChar(c) == d
  {
  }

  lemma TrimNone(s: string)
    requires s != "" ==> s[|s| - 1] != '.'
    ensures TrimDots(s) == s
  {
  }

  /**
   Names are compared without regard to the case of ASCII letters: `s` spells `n`, some of its letters in
   upper case, 32 below the lower-case ones.
   */
  lemma SpellingsNormalize(s: string, n: string)
    requires |s| == |n| && (n != "" ==> n[|n| - 1] != '.')
    requires forall i :: 0 <= i < |n| ==> !('A' <= n[i] <= 'Z')
    requires forall i :: 0 <= i < |s| ==> s[i] == n[i] || ('A' <= s[i] <= 'Z' && s[i] as int + 32 == n[i] as int)
    ensures Normalize(s) == n && Lower(s) == n
  {
    TrimNone(s);
    hide TrimDots, LowerChar;
    forall i | 0 <= i < |s| ensures Lower(s)[i] == n[i] {
      LowerSpells(s[i], n[i]);
    }
  }

  /** Trailing dots make no difference. */
  lemma {:induction false} DotsAreTrimmed(s: string, k: nat)
    ensures Normalize(s + seq(k, i => '.')) == Normalize(s)
  {
    if k == 0 {
      assert s + seq(0, i => '.') == s;
    } else {
      DotsAreTrimmed(s, k - 1);
      var dotted := s + seq(k, i => '.');
      assert dotted[..|dotted| - 1] == s + seq(k - 1, i => '.');
    }
  }

  lemma NormalizeShape(s: string)
    ensures Normalize(s) == "" || Normalize(s)[|Normalize(s)| - 1] != '.'
    ensures forall i :: 0 <= i < |Normalize(s)| ==> !IsUpper(Normalize(s)[i])
  {
  }

  // ----- parents -----

  /** `base` names a parent domain of `domain`. */
  predicate IsParent(domain: string, base: string) {
    && |domain| > |base|
    && domain[|domain| - |base|..] == base
    && domain[|domain| - |base| - 1] == '.'
  }

  /** A parent is what is left after the first labels and their dot. */
  lemma ParentMeaning(domain: string, base: string)
    ensures IsParent(domain, base) <==> exists p :: domain == p + "." + base
  {
    if IsParent(domain, base) {
      var k := |domain| - |base| - 1;
      assert domain[k + 1..] == base && [domain[k]] == ".";
      assert domain == domain[..k] + [domain[k]] + domain[k + 1..];
    }
    if p :| domain == p + "." + base {
      assert domain[|p|] == '.' && domain[|p| + 1..] == base;
    }
  }

  lemma ParentTransitive(a: string, b: string, c: string)
    requires IsParent(a, b) && IsParent(b, c)
    ensures IsParent(a, c)
  {
    assert a[|a| - |c|..] == b[|b| - |c|..];
    assert a[|a| - |c| - 1] == a[|a| - |b|..][|b| - |c| - 1];
  }

  // ----- exchanging the last labels of a name -----

  lemma SuffixInParts(prefix: string, suffix: string)
    requires IsDnsSuffix(suffix)
    ensures prefix + suffix == prefix + "." + suffix[1..] && AllLabels(Split(suffix[1..]))
  {
    assert suffix == "." + suffix[1..];
  }

  lemma NameInParts(prefix: string, base: string)
    ensures IsDnsName(prefix + "." + base)
            <==> AllLabels(Split(prefix)) && AllLabels(Split(base)) && |prefix + "." + base| <= MAX_NAME
  {
    LabelsOfParts(prefix, base);
    hide Split, AllLabels;
  }

  /**
   Replacing a base by a suffix keeps a valid name valid, as long as the result is short enough:
   the labels of the prefix and those of the suffix are the labels of the target.
   */
  lemma TargetIsValid(prefix: string, base: string, suffix: string)
    requires IsDnsName(prefix + "." + base) && IsDnsSuffix(suffix)
    ensures IsDnsName(prefix + suffix) <==> |prefix + suffix| <= MAX_NAME
  {
    hide *;
    NameInParts(prefix, base);
    TargetIsValidIff(prefix, suffix);
  }

  /** Without a valid source the target is valid exactly if the prefix is made of labels and it fits. */
  lemma TargetIsValidIff(prefix: string, suffix: string)
    requires IsDnsSuffix(suffix)
    ensures IsDnsName(prefix + suffix) <==> AllLabels(Split(prefix)) && |prefix + suffix| <= MAX_NAME
  {
    SuffixInParts(prefix, suffix);
    hide *;
    NameInParts(prefix, suffix[1..]);
  }
}
