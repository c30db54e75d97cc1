/**
 * Python's ordering of strings, and what `list.sort()` does to an already
 * sorted list after one `append`: the items are compared only through the
 * element type's `__lt__`, and the sort is stable.
 */
module Ordering {

  /** Python's `a < b` on strings: lexicographic by code point. */
  predicate StrLess(a: string, b: string)
  {
    if |a| == 0 then |b| > 0
    else if |b| == 0 then false
    else if a[0] != b[0] then a[0] < b[0]
    else StrLess(a[1..], b[1..])
  }

  lemma {:induction false} StrLessIrreflexive(a: string)
    ensures !StrLess(a, a)
  {
    if |a| > 0 {
      StrLessIrreflexive(a[1..]);
    }
  }

  lemma {:induction false} StrLessTransitive(a: string, b: string, c: string)
    requires StrLess(a, b) && StrLess(b, c)
    ensures StrLess(a, c)
  {
    if |a| > 0 && |b| > 0 && |c| > 0 && a[0] == b[0] && b[0] == c[0] {
      StrLessTransitive(a[1..], b[1..], c[1..]);
    }
  }

  /** `less` is irreflexive and transitive on the elements of `s`, as every item class's `__lt__` is. */
  predicate StrictOrderOn<T>(s: seq<T>, less: (T, T) -> bool)
  {
    && (forall i :: 0 <= i < |s| ==> !less(s[i], s[i]))
    && (forall i, j, k :: 0 <= i < |s| && 0 <= j < |s| && 0 <= k < |s| && less(s[i], s[j]) && less(s[j], s[k]) ==> less(s[i], s[k]))
  }

  /** Sorted under `less`: no element is smaller than one before it. */
  predicate Sorted<T>(s: seq<T>, less: (T, T) -> bool)
  {
    forall i, j :: 0 <= i < j < |s| ==> !less(s[j], s[i])
  }

  /** The index at which a stable sort places `x` appended to sorted `s`. */
  function InsertPos<T>(s: seq<T>, x: T, less: (T, T) -> bool): (k: nat)
    ensures k <= |s|
    ensures forall i :: 0 <= i < k ==> !less(x, s[i])
    ensures k < |s| ==> less(x, s[k])
  {
    if |s| == 0 then 0
    else if less(x, s[0]) then 0
    else 1 + InsertPos(s[1..], x, less)
  }

  /** `s.append(x); s.sort()` for an already sorted `s`. */
  function Insert<T>(s: seq<T>, x: T, less: (T, T) -> bool): seq<T>
  {
    var k := InsertPos(s, x, less);
    s[..k] + [x] + s[k..]
  }

  /**
   * Inserting keeps the list sorted, adds exactly `x`, keeps the existing
   * elements in their order, and puts `x` after every element not greater
   * than it (the stability of the sort).
   */
  lemma InsertSorted<T>(s: seq<T>, x: T, less: (T, T) -> bool)
    requires StrictOrderOn(s + [x], less) && Sorted(s, less)
    ensures var r := Insert(s, x, less);
      && Sorted(r, less)
      && multiset(r) == multiset(s) + multiset{x}
      && |r| == |s| + 1
      && (exists k :: 0 <= k <= |s| && r == s[..k] + [x] + s[k..]
           && (forall i :: 0 <= i < k ==> !less(x, s[i]))
           && (k < |s| ==> less(x, s[k])))
  {
    var k := InsertPos(s, x, less);
    var r := s[..k] + [x] + s[k..];
    assert s == s[..k] + s[k..];
    assert multiset(r) == multiset(s[..k]) + multiset{x} + multiset(s[k..]);
    InsertKeepsOrder(s, x, less);
  }

  lemma InsertKeepsOrder<T>(s: seq<T>, x: T, less: (T, T) -> bool)
    requires StrictOrderOn(s + [x], less) && Sorted(s, less)
    ensures Sorted(Insert(s, x, less), less)
  {
    var k := InsertPos(s, x, less);
    var r := s[..k] + [x] + s[k..];
    assert forall i :: 0 <= i < k ==> r[i] == s[i];
    assert r[k] == x;
    assert forall i :: k < i < |r| ==> r[i] == s[i - 1];
    forall i, j | 0 <= i < j < |r|
      ensures !less(r[j], r[i])
    {
      if i == k && j > k {
        var t := s + [x];
        assert less(x, s[k]);
        assert t[|s|] == x && t[k] == s[k] && t[j - 1] == s[j - 1];
      }
    }
  }

  /** Removing one element keeps a list sorted. */
  lemma RemoveSorted<T>(s: seq<T>, i: nat, less: (T, T) -> bool)
    requires Sorted(s, less) && i < |s|
    ensures Sorted(s[..i] + s[i + 1..], less)
  {
    var r := s[..i] + s[i + 1..];
    forall a, b | 0 <= a < b < |r|
      ensures !less(r[b], r[a])
    {
      var a' := if a < i then a else a + 1;
      var b' := if b < i then b else b + 1;
      assert r[a] == s[a'] && r[b] == s[b'];
    }
  }
}
