/**
  The .NET string rules the model relies on: nullable strings, ordinal case-insensitive
  comparison (string.Compare with StringComparison.OrdinalIgnoreCase) and ordinal
  case-insensitive search (string.IndexOf with StringComparison.OrdinalIgnoreCase).
  Upper-casing is the ASCII fold, which is the path .NET takes for ASCII text.
*/
module Text {
  import opened Wrappers

  /** A .NET string reference: either null or a sequence of UTF-16 code units. */
  datatype NString = Null | Str(value: string)

  /** string.IsNullOrEmpty */
  predicate IsNullOrEmpty(s: NString) {
    s.Null? || s.value == ""
  }

  /** The text a null string contributes to an interpolation ($"{s}"): nothing. */
  function OrEmpty(s: NString): string {
    if s.Null? then "" else s.value
  }

  /** Ordinal upper-casing of one code unit: 'a'..'z' become 'A'..'Z', all else is kept. */
  function Upper(c: char): (u: char)
    ensures 'a' <= c <= 'z' ==> u as int == c as int - 32
    ensures !('a' <= c <= 'z') ==> u == c
  {
    if 'a' <= c <= 'z' then (c as int - 32) as char else c
  }

  /** Two strings are equal when case is ignored (the reference meaning of a 0 comparison). */
  ghost predicate EqualIgnoreCase(a: string, b: string) {
    |a| == |b| && forall i :: 0 <= i < |a| ==> Upper(a[i]) == Upper(b[i])
  }

  /**
    Ordinal case-insensitive comparison of two non-null strings: the difference of the first
    pair of code units that differ after upper-casing, or else the difference of the lengths.
  */
  function CompareFolded(a: string, b: string): int
  {
    if a == [] || b == [] then |a| - |b|
    else if Upper(a[0]) != Upper(b[0]) then Upper(a[0]) as int - Upper(b[0]) as int
    else CompareFolded(a[1..], b[1..])
  }

  /** string.Compare(a, b, StringComparison.OrdinalIgnoreCase): null sorts first, two nulls are equal. */
  function CompareIgnoreCase(a: NString, b: NString): (r: int)
    ensures a.Null? && b.Null? ==> r == 0
    ensures a.Null? && b.Str? ==> r < 0
    ensures a.Str? && b.Null? ==> r > 0
  {
    match (a, b)
    case (Null, Null) => 0
    case (Null, Str(_)) => -1
    case (Str(_), Null) => 1
    case (Str(x), Str(y)) => CompareFolded(x, y)
  }

  lemma {:induction false} CompareFoldedAntisymmetric(a: string, b: string)
    ensures CompareFolded(a, b) == -CompareFolded(b, a)
  {
    if a != [] && b != [] && Upper(a[0]) == Upper(b[0]) {
      CompareFoldedAntisymmetric(a[1..], b[1..]);
    }
  }

  lemma {:induction false} CompareFoldedZeroIff(a: string, b: string)
    ensures CompareFolded(a, b) == 0 <==> EqualIgnoreCase(a, b)
  {
    if a != [] && b != [] && Upper(a[0]) == Upper(b[0]) {
      CompareFoldedZeroIff(a[1..], b[1..]);
      if EqualIgnoreCase(a[1..], b[1..]) {
        forall i | 0 <= i < |a| ensures Upper(a[i]) == Upper(b[i]) {
          if i > 0 { assert a[i] == a[1..][i - 1] && b[i] == b[1..][i - 1]; }
        }
      }
      if EqualIgnoreCase(a, b) {
        forall i | 0 <= i < |a| - 1 ensures Upper(a[1..][i]) == Upper(b[1..][i]) {
          assert a[1..][i] == a[i + 1] && b[1..][i] == b[i + 1];
        }
      }
    } else if a != [] && b != [] {
      assert !EqualIgnoreCase(a, b) by { assert Upper(a[0]) != Upper(b[0]); }
    }
  }

  /**
    Transitivity of the ordering, with its strict part: a zero result at the ends forces a
    zero result at both links.
  */
  lemma {:induction false} CompareFoldedTransitive(a: string, b: string, c: string)
    requires CompareFolded(a, b) <= 0 && CompareFolded(b, c) <= 0
    ensures CompareFolded(a, c) <= 0
    ensures CompareFolded(a, c) == 0 ==> CompareFolded(a, b) == 0 && CompareFolded(b, c) == 0
  {
    if a != [] && b != [] && c != [] {
      if Upper(a[0]) == Upper(b[0]) && Upper(b[0]) == Upper(c[0]) {
        CompareFoldedTransitive(a[1..], b[1..], c[1..]);
      }
    }
  }

  /**
    The sign of a comparison is the lexicographic order of the upper-cased strings: a sorts
    before b at position k when the first k code units agree after upper-casing and then
    either a ends while b goes on, or a's code unit at k is the smaller one.
  */
  ghost predicate PrecedesAt(a: string, b: string, k: int) {
    0 <= k <= |a| && k <= |b| &&
    (forall i :: 0 <= i < k ==> Upper(a[i]) == Upper(b[i])) &&
    ((k == |a| && |a| < |b|) || (k < |a| && k < |b| && Upper(a[k]) < Upper(b[k])))
  }

  lemma {:induction false} PrecedesAtCompares(a: string, b: string, k: int)
    requires PrecedesAt(a, b, k)
    ensures CompareFolded(a, b) < 0
  {
    if k > 0 {
      assert Upper(a[0]) == Upper(b[0]);
      forall i | 0 <= i < k - 1 ensures Upper(a[1..][i]) == Upper(b[1..][i]) {
        assert a[1..][i] == a[i + 1] && b[1..][i] == b[i + 1];
      }
      PrecedesAtCompares(a[1..], b[1..], k - 1);
    }
  }

  lemma {:induction false} ComparesPrecedesAt(a: string, b: string) returns (k: int)
    requires CompareFolded(a, b) < 0
    ensures PrecedesAt(a, b, k)
  {
    if a == [] || b == [] || Upper(a[0]) != Upper(b[0]) {
      k := 0;
    } else {
      var k' := ComparesPrecedesAt(a[1..], b[1..]);
      k := k' + 1;
      forall i | 0 <= i < k ensures Upper(a[i]) == Upper(b[i]) {
        if i > 0 { assert a[i] == a[1..][i - 1] && b[i] == b[1..][i - 1]; }
      }
      assert k < |a| ==> a[k] == a[1..][k'] && b[k] == b[1..][k'];
    }
  }

  /** A negative comparison means exactly that a precedes b in the case-folded lexicographic order. */
  lemma CompareFoldedNegativeIff(a: string, b: string)
    ensures CompareFolded(a, b) < 0 <==> exists k :: PrecedesAt(a, b, k)
  {
    if CompareFolded(a, b) < 0 {
      var k := ComparesPrecedesAt(a, b);
    }
    if exists k :: PrecedesAt(a, b, k) {
      var k :| PrecedesAt(a, b, k);
      PrecedesAtCompares(a, b, k);
    }
  }

  lemma CompareIgnoreCaseAntisymmetric(a: NString, b: NString)
    ensures CompareIgnoreCase(a, b) == -CompareIgnoreCase(b, a)
  {
    if a.Str? && b.Str? { CompareFoldedAntisymmetric(a.value, b.value); }
  }

  lemma CompareIgnoreCaseZeroIff(a: NString, b: NString)
    ensures CompareIgnoreCase(a, b) == 0 <==> SameIgnoringCase(a, b)
  {
    if a.Str? && b.Str? { CompareFoldedZeroIff(a.value, b.value); }
  }

  lemma CompareIgnoreCaseTransitive(a: NString, b: NString, c: NString)
    requires CompareIgnoreCase(a, b) <= 0 && CompareIgnoreCase(b, c) <= 0
    ensures CompareIgnoreCase(a, c) <= 0
    ensures CompareIgnoreCase(a, c) == 0 ==> CompareIgnoreCase(a, b) == 0 && CompareIgnoreCase(b, c) == 0
  {
    if a.Str? && b.Str? && c.Str? { CompareFoldedTransitive(a.value, b.value, c.value); }
  }

  /** Equality of nullable strings up to case: both null, or both non-null and equal ignoring case. */
  ghost predicate SameIgnoringCase(a: NString, b: NString) {
    (a.Null? && b.Null?) || (a.Str? && b.Str? && EqualIgnoreCase(a.value, b.value))
  }

  /** The pattern occurs at index i of s when case is ignored. */
  predicate MatchesAt(s: string, p: string, i: int) {
    0 <= i && i + |p| <= |s| && forall k :: 0 <= k < |p| ==> Upper(s[i + k]) == Upper(p[k])
  }

  /** The first index at or after `from` where p occurs ignoring case, or -1. */
  function IndexOfFrom(s: string, p: string, from: nat): (r: int)
    requires from <= |s|
    decreases |s| - from
    ensures r == -1 || (from <= r && MatchesAt(s, p, r))
    ensures r == -1 ==> forall j :: from <= j <= |s| ==> !MatchesAt(s, p, j)
    ensures r != -1 ==> forall j :: from <= j < r ==> !MatchesAt(s, p, j)
  {
    if from + |p| > |s| then -1
    else if MatchesAt(s, p, from) then from
    else IndexOfFrom(s, p, from + 1)
  }

  /** string.IndexOf(p, StringComparison.OrdinalIgnoreCase) on a non-null s. */
  function IndexOfIgnoreCase(s: string, p: string): (r: int)
    ensures -1 <= r <= |s|
    ensures r >= 0 ==> MatchesAt(s, p, r) && forall j :: 0 <= j < r ==> !MatchesAt(s, p, j)
    ensures r == -1 <==> forall j :: 0 <= j <= |s| ==> !MatchesAt(s, p, j)
  {
    IndexOfFrom(s, p, 0)
  }

  /** The first index of c in s, or -1 (string.IndexOf(char), List<T>.IndexOf). */
  function FirstIndexOf<T(==)>(s: seq<T>, c: T): (r: int)
    ensures -1 <= r < |s|
    ensures r == -1 <==> c !in s
    ensures r >= 0 ==> s[r] == c && c !in s[..r]
  {
    if s == [] then -1
    else if s[0] == c then 0
    else
      var k := FirstIndexOf(s[1..], c);
      if k == -1 then -1
      else
        assert s[..k + 1] == [s[0]] + s[1..][..k];
        k + 1
  }

  lemma FirstIndexOfSplit<T>(a: seq<T>, c: T, b: seq<T>)
    requires c !in a
    ensures FirstIndexOf(a + [c] + b, c) == |a|
  {
    var s := a + [c] + b;
    assert s[|a|] == c && s[..|a|] == a;
    assert forall r :: |a| < r <= |s| ==> s[..r][|a|] == c;
  }

  /** Splits s at the first occurrence of c into the parts before and after it, or None when c does not occur. */
  function SplitAtFirst<T(==)>(s: seq<T>, c: T): (r: Option<(seq<T>, seq<T>)>)
    ensures r.None? <==> c !in s
    ensures r.Some? ==> s == r.value.0 + [c] + r.value.1 && c !in r.value.0
  {
    var i := FirstIndexOf(s, c);
    if i < 0 then None
    else
      assert s == s[..i] + [c] + s[i + 1..];
      Some((s[..i], s[i + 1..]))
  }

  /** Splitting a + [c] + b at c gives a and b back when c does not occur in a. */
  lemma SplitAtFirstOf<T>(a: seq<T>, c: T, b: seq<T>)
    requires c !in a
    ensures SplitAtFirst(a + [c] + b, c) == Some((a, b))
  {
    var s := a + [c] + b;
    FirstIndexOfSplit(a, c, b);
    assert s[..|a|] == a && s[|a| + 1..] == b;
  }
}
