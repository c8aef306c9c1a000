/** Facts about sequences shared by the style-usage count and the file-list scan. */
module Seqs {

  ghost predicate Distinct<T>(s: seq<T>) {
    forall i, j :: 0 <= i < j < |s| ==> s[i] != s[j]
  }

  /** Position of the first occurrence of x in s. */
  function FirstIndex<T(==)>(s: seq<T>, x: T): (i: nat)
    requires x in s
    ensures i < |s| && s[i] == x && x !in s[..i]
  {
    if s[0] == x then 0
    else
      var i := FirstIndex(s[1..], x);
      assert s[..i + 1] == [s[0]] + s[1..][..i];
      i + 1
  }

  /** The first occurrence is the only position holding x with no x before it. */
  lemma FirstIndexUnique<T>(s: seq<T>, x: T, k: nat)
    requires k < |s| && s[k] == x && x !in s[..k]
    ensures FirstIndex(s, x) == k
  {
    var i := FirstIndex(s, x);
    assert forall m :: 0 <= m < k ==> s[..k][m] == s[m];
    assert forall m :: 0 <= m < i ==> s[..i][m] == s[m];
  }

  /** Appending an element does not move the first occurrence of an element already present. */
  lemma FirstIndexAppend<T>(s: seq<T>, y: T, x: T)
    requires x in s
    ensures x in s + [y] && FirstIndex(s + [y], x) == FirstIndex(s, x)
  {
    var i := FirstIndex(s, x);
    assert (s + [y])[..i] == s[..i];
    FirstIndexUnique(s + [y], x, i);
  }

  /** Number of occurrences of x in s, counted left to right. */
  function Count<T(==)>(s: seq<T>, x: T): (n: nat)
    ensures n <= |s|
    ensures n > 0 <==> x in s
  {
    if |s| == 0 then 0
    else
      assert s == s[..|s| - 1] + [s[|s| - 1]];
      Count(s[..|s| - 1], x) + (if s[|s| - 1] == x then 1 else 0)
  }

  /** The elements of s that pass keep, each once, in order of first appearance: what a left-to-right
      scan produces when it appends each element that passes keep and has not been appended yet. */
  function FirstOccurrences<T(==)>(s: seq<T>, keep: T -> bool): (r: seq<T>)
    ensures forall x :: x in r ==> x in s && keep(x)
    ensures forall x :: x in s && keep(x) ==> x in r
    ensures Distinct(r)
  {
    if |s| == 0 then []
    else
      assert s == s[..|s| - 1] + [s[|s| - 1]];
      var prev := FirstOccurrences(s[..|s| - 1], keep);
      var x := s[|s| - 1];
      if keep(x) && x !in prev then prev + [x] else prev
  }

  /** The scan keeps the order of first appearance in s. */
  lemma {:induction false} FirstOccurrencesOrder<T>(s: seq<T>, keep: T -> bool, i: nat, j: nat)
    requires i < j < |FirstOccurrences(s, keep)|
    ensures var r := FirstOccurrences(s, keep);
      r[i] in s && r[j] in s && FirstIndex(s, r[i]) < FirstIndex(s, r[j])
  {
    var r := FirstOccurrences(s, keep);
    assert r[i] in r && r[j] in r;
    var init, x := s[..|s| - 1], s[|s| - 1];
    assert s == init + [x];
    var prev := FirstOccurrences(init, keep);
    if j < |prev| {
      assert r[i] == prev[i] && r[j] == prev[j];
      FirstOccurrencesOrder(init, keep, i, j);
      FirstIndexAppend(init, x, prev[i]);
      FirstIndexAppend(init, x, prev[j]);
    } else {
      // r[j] is x, appended by the last step because it passes keep and was not kept before
      assert r == prev + [x] && r[j] == x && r[i] == prev[i];
      assert x !in init;
      FirstIndexUnique(s, x, |init|);
      FirstIndexAppend(init, x, prev[i]);
    }
  }

  /** Every pair of kept elements is in the order of their first appearance in s. */
  lemma FirstOccurrencesKeepOrder<T>(s: seq<T>, keep: T -> bool, r: seq<T>)
    requires r == FirstOccurrences(s, keep)
    ensures forall i, j :: 0 <= i < j < |r| ==> r[i] in s && r[j] in s && FirstIndex(s, r[i]) < FirstIndex(s, r[j])
  {
    forall i, j | 0 <= i < j < |r|
      ensures r[i] in s && r[j] in s && FirstIndex(s, r[i]) < FirstIndex(s, r[j])
    {
      FirstOccurrencesOrder(s, keep, i, j);
    }
  }

  /** s without its element at position i (`del s[i]`). */
  function RemoveAt<T>(s: seq<T>, i: nat): seq<T>
    requires i < |s|
  {
    s[..i] + s[i + 1..]
  }

  /** Removing one position shortens s by one, keeps the other elements in their order, and
      takes exactly that one element out of the multiset. */
  lemma RemoveAtShape<T>(s: seq<T>, i: nat)
    requires i < |s|
    ensures |RemoveAt(s, i)| == |s| - 1
    ensures forall j :: 0 <= j < |s| - 1 ==> RemoveAt(s, i)[j] == if j < i then s[j] else s[j + 1]
    ensures multiset(RemoveAt(s, i)) == multiset(s) - multiset{s[i]}
  {
    assert s == s[..i] + [s[i]] + s[i + 1..];
  }

  /** Removing a position from a sequence without repetitions leaves one without repetitions. */
  lemma RemoveAtDistinct<T>(s: seq<T>, i: nat)
    requires i < |s| && Distinct(s)
    ensures Distinct(RemoveAt(s, i))
  {
    var r := RemoveAt(s, i);
    forall p, q | 0 <= p < q < |r| ensures r[p] != r[q] {
      var p', q' := if p < i then p else p + 1, if q < i then q else q + 1;
      assert r[p] == s[p'] && r[q] == s[q'];
    }
  }

  /** A sequence without repetitions has as many elements as its set. */
  lemma {:induction false} DistinctSetSize<T>(s: seq<T>)
    requires Distinct(s)
    ensures |set x | x in s| == |s|
  {
    if |s| > 0 {
      var init := s[..|s| - 1];
      assert s == init + [s[|s| - 1]];
      DistinctSetSize(init);
      assert (set x | x in s) == (set x | x in init) + {s[|s| - 1]};
    }
  }

  /** One more step of the count. */
  lemma CountAppend<T>(s: seq<T>, y: T, x: T)
    ensures Count(s + [y], x) == Count(s, x) + (if y == x then 1 else 0)
  {
    assert (s + [y])[..|s|] == s;
  }

  /** One more step of the count, for every element at once. */
  lemma CountAppendAll<T>(s: seq<T>, y: T)
    ensures forall x :: Count(s + [y], x) == Count(s, x) + (if y == x then 1 else 0)
  {
    forall x ensures Count(s + [y], x) == Count(s, x) + (if y == x then 1 else 0) {
      CountAppend(s, y, x);
    }
  }

  /** One more step of the scan. */
  lemma FirstOccurrencesAppend<T>(s: seq<T>, y: T, keep: T -> bool)
    ensures FirstOccurrences(s + [y], keep) ==
      var prev := FirstOccurrences(s, keep);
      if keep(y) && y !in prev then prev + [y] else prev
  {
    assert (s + [y])[..|s|] == s;
  }
}
