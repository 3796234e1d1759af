/**
 Valid DNS names character by character, without splitting them: section 2.3.4
 of RFC 1035 and section 2.1 of RFC 1123, as src/config.rs checks them.
 */
module NameText {
  import opened DnsNames

  predicate IsLetterOrDigit(c: char) {
    'a' <= c <= 'z' || '0' <= c <= '9'
  }

  predicate IsAllowed(c: char) {
    'a' <= c <= 'z' || '0' <= c <= '9' || c == '-' || c == '.'
  }

  /** The character begins or ends the name, or stands beside a dot. */
  predicate IsBorder(name: string, i: nat)
    requires i < |name|
  {
    i == 0 || name[i - 1] == '.' || i == |name| - 1 || name[i + 1] == '.'
  }

  ghost predicate Allowed(name: string) {
    forall i :: 0 <= i < |name| ==> IsAllowed(name[i])
  }

  ghost predicate Bordered(name: string) {
    name != "" && forall i :: 0 <= i < |name| && IsBorder(name, i) ==> IsLetterOrDigit(name[i])
  }

  /** No piece without a dot is longer than 63 characters. */
  ghost predicate Dotted(name: string) {
    forall i, j :: 0 <= i <= j <= |name| && '.' !in name[i..j] ==> j - i <= 63
  }

  ghost predicate IsText(name: string) {
    Allowed(name) && Bordered(name) && Dotted(name)
  }

  // ----- around a dot -----

  function At(a: string, b: string): (name: string)
    ensures |name| == |a| + 1 + |b| && name[|a|] == '.'
    ensures forall i :: 0 <= i < |a| ==> name[i] == a[i]
    ensures forall i :: |a| < i < |name| ==> name[i] == b[i - |a| - 1]
  {
    a + "." + b
  }

  lemma AtRight(a: string, b: string, i: nat)
    requires i < |b|
    ensures At(a, b)[|a| + 1 + i] == b[i]
  {
  }

  lemma AllowedAt(a: string, b: string)
    ensures Allowed(At(a, b)) <==> Allowed(a) && Allowed(b)
  {
    var name := At(a, b);
    assert IsAllowed('.');
    hide At, IsAllowed;
    if Allowed(name) {
      forall i | 0 <= i < |a| ensures IsAllowed(a[i]) {
        assert IsAllowed(name[i]);
      }
      forall i | 0 <= i < |b| ensures IsAllowed(b[i]) {
        AtRight(a, b, i);
        assert IsAllowed(name[|a| + 1 + i]);
      }
    }
  }

  lemma LeftBorder(a: string, b: string, i: nat)
    requires i < |a|
    ensures IsBorder(At(a, b), i) <==> IsBorder(a, i)
  {
  }

  lemma RightBorder(a: string, b: string, i: nat)
    requires i < |b|
    ensures IsBorder(At(a, b), |a| + 1 + i) <==> IsBorder(b, i)
  {
    var name, k := At(a, b), |a| + 1 + i;
    hide At;
    assert k == 0 <==> false;
    assert i > 0 ==> name[k - 1] == b[i - 1];
    assert i + 1 < |b| ==> name[k + 1] == b[i + 1];
  }

  /** The dot between the two parts stands at a border only if a part is empty or has a dot beside it. */
  lemma MiddleBorder(a: string, b: string)
    ensures a == "" || b == "" ==> IsBorder(At(a, b), |a|)
    ensures a != "" && b != "" && IsBorder(At(a, b), |a|) ==> a[|a| - 1] == '.' || b[0] == '.'
  {
    if b != "" {
      AtRight(a, b, 0);
    }
  }

  lemma EndsAreBorders(a: string)
    requires a != ""
    ensures IsBorder(a, 0) && IsBorder(a, |a| - 1)
  {
  }

  lemma PartsBordered(a: string, b: string)
    requires Bordered(At(a, b))
    ensures Bordered(a) && Bordered(b)
  {
    var name := At(a, b);
    MiddleBorder(a, b);
    assert !IsLetterOrDigit('.');
    hide At, IsBorder, IsLetterOrDigit;
    forall i | 0 <= i < |a| && IsBorder(a, i) ensures IsLetterOrDigit(a[i]) {
      LeftBorder(a, b, i);
      assert IsLetterOrDigit(name[i]);
    }
    forall i | 0 <= i < |b| && IsBorder(b, i) ensures IsLetterOrDigit(b[i]) {
      RightBorder(a, b, i);
      AtRight(a, b, i);
      assert IsLetterOrDigit(name[|a| + 1 + i]);
    }
  }

  lemma WholeBordered(a: string, b: string)
    requires Bordered(a) && Bordered(b)
    ensures Bordered(At(a, b))
  {
    var name := At(a, b);
    MiddleBorder(a, b);
    EndsAreBorders(a);
    EndsAreBorders(b);
    assert !IsLetterOrDigit('.');
    hide At, IsBorder, IsLetterOrDigit;
    forall i | 0 <= i < |name| && IsBorder(name, i) ensures IsLetterOrDigit(name[i]) {
      if i < |a| {
        LeftBorder(a, b, i);
      } else if i > |a| {
        RightBorder(a, b, i - |a| - 1);
      }
    }
  }

  lemma BorderedAt(a: string, b: string)
    ensures Bordered(At(a, b)) <==> Bordered(a) && Bordered(b)
  {
    if Bordered(At(a, b)) {
      PartsBordered(a, b);
    }
    if Bordered(a) && Bordered(b) {
      WholeBordered(a, b);
    }
    hide *;
  }

  lemma AllInPiece(name: string, i: nat, j: nat)
    requires i <= j <= |name|
    ensures forall k :: i <= k < j ==> name[k] in name[i..j]
  {
    forall k | i <= k < j ensures name[k] in name[i..j] {
      assert name[i..j][k - i] == name[k];
    }
  }

  lemma DottedAt(a: string, b: string)
    ensures Dotted(At(a, b)) <==> Dotted(a) && Dotted(b)
  {
    var name, n := At(a, b), |a| + 1;
    assert name[..|a|] == a && name[n..] == b;
    hide At;
    if Dotted(name) {
      forall i, j | 0 <= i <= j <= |a| && '.' !in a[i..j] ensures j - i <= 63 {
        assert name[i..j] == a[i..j];
      }
      forall i, j | 0 <= i <= j <= |b| && '.' !in b[i..j] ensures j - i <= 63 {
        assert name[n + i..n + j] == b[i..j];
      }
    }
    if Dotted(a) && Dotted(b) {
      forall i, j | 0 <= i <= j <= |name| && '.' !in name[i..j] ensures j - i <= 63 {
        AllInPiece(name, i, j);
        if j <= |a| {
          assert name[i..j] == a[i..j];
        } else if i > |a| {
          assert name[i..j] == b[i - n..j - n];
        }
      }
    }
  }

  // ----- labels -----

  lemma {:induction false} OneLabel(l: string)
    requires '.' !in l
    ensures Split(l) == [l]
  {
    if l != "" {
      assert l == [l[0]] + l[1..] && l[0] in l;
      OneLabel(l[1..]);
    }
  }

  lemma LabelIsText(l: string)
    requires '.' !in l
    ensures IsLabel(l) <==> IsText(l)
  {
    if IsLabel(l) {
      assert Allowed(l);
      assert Dotted(l);
      forall i | 0 <= i < |l| && IsBorder(l, i) ensures IsLetterOrDigit(l[i]) {
        assert i == 0 || i == |l| - 1;
      }
    }
    if IsText(l) {
      EndsAreBorders(l);
      assert l[0..|l|] == l;
      assert forall i :: 0 <= i < |l| ==> IsAllowed(l[i]) && l[i] in l;
    }
  }

  lemma {:induction false} FirstDot(name: string) returns (d: nat)
    requires '.' in name
    ensures d < |name| && name[d] == '.' && '.' !in name[..d]
    decreases |name|
  {
    if name[0] == '.' {
      d := 0;
    } else {
      assert name == [name[0]] + name[1..];
      d := FirstDot(name[1..]);
      assert name[..d + 1] == [name[0]] + name[1..][..d];
      d := d + 1;
    }
  }

  lemma CutAtDot(name: string, d: nat)
    requires d < |name| && name[d] == '.'
    ensures name == name[..d] + "." + name[d + 1..] == At(name[..d], name[d + 1..])
  {
    assert [name[d]] == ".";
    assert name == name[..d] + [name[d]] + name[d + 1..];
  }

  lemma {:induction false} LabelsAreText(name: string)
    ensures AllLabels(Split(name)) <==> IsText(name)
    decreases |name|
  {
    if '.' in name {
      var d := FirstDot(name);
      CutAtDot(name, d);
      hide *;
      LabelsOfParts(name[..d], name[d + 1..]);
      LabelsAreText(name[..d]);
      LabelsAreText(name[d + 1..]);
      TextAt(name[..d], name[d + 1..]);
    } else {
      OneLabel(name);
      LabelIsText(name);
      hide IsText, IsLabel, Split;
      assert [name][0] == name;
    }
  }

  lemma TextAt(a: string, b: string)
    ensures IsText(At(a, b)) <==> IsText(a) && IsText(b)
  {
    AllowedAt(a, b);
    BorderedAt(a, b);
    DottedAt(a, b);
    hide At, Allowed, Bordered, Dotted;
  }

  ghost predicate DotsBetween(name: string) {
    forall i :: 0 <= i < |name| && name[i] == '.' ==>
      0 < i < |name| - 1 && IsLetterOrDigit(name[i - 1]) && IsLetterOrDigit(name[i + 1])
  }

  lemma BorderedText(name: string)
    ensures Bordered(name)
            <==> && name != "" && IsLetterOrDigit(name[0]) && IsLetterOrDigit(name[|name| - 1])
                 && DotsBetween(name)
  {
    assert !IsLetterOrDigit('.');
    if Bordered(name) {
      EndsAreBorders(name);
      hide IsLetterOrDigit;
      forall i | 0 <= i < |name| && name[i] == '.'
        ensures 0 < i < |name| - 1 && IsLetterOrDigit(name[i - 1]) && IsLetterOrDigit(name[i + 1])
      {
        assert 0 < i < |name| - 1;
        assert IsBorder(name, i - 1) && IsBorder(name, i + 1);
      }
    }
    if name != "" && IsLetterOrDigit(name[0]) && IsLetterOrDigit(name[|name| - 1]) && DotsBetween(name) {
      forall i | 0 <= i < |name| && IsBorder(name, i) ensures IsLetterOrDigit(name[i]) {
        BorderIsLetter(name, i);
      }
    }
  }

  lemma BorderIsLetter(name: string, i: nat)
    requires i < |name| && IsBorder(name, i) && DotsBetween(name)
    requires IsLetterOrDigit(name[0]) && IsLetterOrDigit(name[|name| - 1])
    ensures IsLetterOrDigit(name[i])
  {
    if i > 0 && name[i - 1] == '.' {
      DotAt(name, i - 1);
    }
    if i + 1 < |name| && name[i + 1] == '.' {
      DotAt(name, i + 1);
    }
  }

  lemma DotAt(name: string, i: nat)
    requires i < |name| && name[i] == '.' && DotsBetween(name)
    ensures 0 < i < |name| - 1 && IsLetterOrDigit(name[i - 1]) && IsLetterOrDigit(name[i + 1])
  {
  }

  /**
   A name is valid exactly if it has 1 to 253 characters, all of them lower-case letters, digits, hyphens
   or dots; a letter or digit at both ends of it and on both sides of every dot; and no piece of more than
   63 characters without a dot.
   */
  lemma NameIsText(name: string)
    ensures IsDnsName(name)
            <==> && 1 <= |name| <= 253
                 && (forall i :: 0 <= i < |name| ==>
                       'a' <= name[i] <= 'z' || '0' <= name[i] <= '9' || name[i] == '-' || name[i] == '.')
                 && ('a' <= name[0] <= 'z' || '0' <= name[0] <= '9')
                 && ('a' <= name[|name| - 1] <= 'z' || '0' <= name[|name| - 1] <= '9')
                 && (forall i :: 0 <= i < |name| && name[i] == '.' ==>
                       && 0 < i < |name| - 1
                       && ('a' <= name[i - 1] <= 'z' || '0' <= name[i - 1] <= '9')
                       && ('a' <= name[i + 1] <= 'z' || '0' <= name[i + 1] <= '9'))
                 && (forall i, j :: 0 <= i <= j <= |name| && '.' !in name[i..j] ==> j - i <= 63)
  {
    LabelsAreText(name);
    BorderedText(name);
    hide Split, AllLabels, Bordered;
  }
}
