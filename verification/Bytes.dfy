/** Byte strings, their lexicographic order (Go's `bytes.Compare` and `<` on strings),
    the one-value option used throughout, lists without repetition and the size of subsets. */
module Bytes {

  datatype Option<+T> = None | Some(value: T)

  ghost predicate Distinct<T>(s: seq<T>) {
    forall i, j :: 0 <= i < j < |s| ==> s[i] != s[j]
  }

  lemma SubsetCount<T>(a: set<T>, b: set<T>)
    requires a <= b
    ensures |a| <= |b|
  {
    assert b == a + (b - a);
  }

  type Byte = b: nat | b < 256

  /** Keys, values and version names are all byte strings. */
  type Str = seq<Byte>

  /** `bytes.Compare(a, b) < 0`. */
  predicate Less(a: Str, b: Str)
  {
    b != [] && (a == [] || a[0] < b[0] || (a[0] == b[0] && Less(a[1..], b[1..])))
  }

  lemma {:induction false} Irreflexive(a: Str)
    ensures !Less(a, a)
  {
    if a != [] {
      Irreflexive(a[1..]);
    }
  }

  lemma {:induction false} Transitive(a: Str, b: Str, c: Str)
    requires Less(a, b) && Less(b, c)
    ensures Less(a, c)
  {
    if a != [] && a[0] == b[0] == c[0] {
      Transitive(a[1..], b[1..], c[1..]);
    }
  }

  lemma {:induction false} Total(a: Str, b: Str)
    ensures a == b || Less(a, b) || Less(b, a)
  {
    if a != [] && b != [] && a[0] == b[0] {
      Total(a[1..], b[1..]);
      assert a == [a[0]] + a[1..] && b == [b[0]] + b[1..];
    }
  }

  lemma Asymmetric(a: Str, b: Str)
    requires Less(a, b)
    ensures !Less(b, a) && a != b
  {
    Irreflexive(a);
    if Less(b, a) {
      Transitive(a, b, a);
    }
  }

  lemma LessThenAtMost(a: Str, b: Str, c: Str)
    requires Less(a, b) && !Less(c, b)
    ensures Less(a, c)
  {
    Total(b, c);
    if Less(b, c) {
      Transitive(a, b, c);
    }
  }

  /** Position `i` is the first at which the strings differ, and the byte of `a` is smaller there. */
  predicate SmallerAt(a: Str, b: Str, i: nat) {
    i < |a| && i < |b| && (forall j :: 0 <= j < i ==> a[j] == b[j]) && a[i] < b[i]
  }

  /** The order is that of a dictionary: a proper prefix comes first, and otherwise the first difference
      decides. */
  lemma {:induction false} LessIff(a: Str, b: Str)
    ensures Less(a, b) <==> a < b || exists i: nat :: SmallerAt(a, b, i)
  {
    if b != [] && a != [] && a[0] == b[0] {
      var x, y := a[1..], b[1..];
      LessIff(x, y);
      assert a == [a[0]] + x && b == [b[0]] + y;
      if i: nat :| SmallerAt(x, y, i) {
        assert SmallerAt(a, b, i + 1);
      }
      if i: nat :| SmallerAt(a, b, i) {
        assert SmallerAt(x, y, i - 1);
      }
    } else if a != [] && b != [] && a[0] < b[0] {
      assert SmallerAt(a, b, 0);
    }
  }
}
