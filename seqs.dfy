/** The two in-place edits every collection of the document goes through. */
module Seqs {
  import opened Wrappers

  /**
   * `s.splice(i, 1)`: element `i` is removed and the later ones move down by
   * one; an index past the end removes nothing.
   */
  function Splice<T>(s: seq<T>, i: nat): (r: seq<T>)
    ensures i < |s| ==> |r| == |s| - 1
    ensures i < |s| ==> forall j :: 0 <= j < i ==> r[j] == s[j]
    ensures i < |s| ==> forall j :: i <= j < |r| ==> r[j] == s[j + 1]
    ensures i >= |s| ==> r == s
  {
    if i < |s| then s[..i] + s[i + 1..] else s
  }

  /** A deletion removes exactly one occurrence of the deleted element and nothing else. */
  lemma SpliceMultiset<T>(s: seq<T>, i: nat)
    requires i < |s|
    ensures multiset(Splice(s, i)) + multiset{s[i]} == multiset(s)
  {
    assert s == s[..i] + [s[i]] + s[i + 1..];
  }

  /** Deleting index 1 of three items keeps the first and the third, in order. */
  lemma SpliceMiddleOfThree<T>(a: T, b: T, c: T)
    ensures Splice([a, b, c], 1) == [a, c]
  {
  }

  /** The slot an editor save writes: `idx`, or one past the end when it appends. */
  function Slot<T>(s: seq<T>, idx: Option<nat>): nat {
    idx.GetOr(|s|)
  }

  /**
   * `if (idx == null) s.push(x) else s[idx] = x`: append, or replace slot `idx`
   * wholesale; every other element stays where it was.
   */
  function Upsert<T>(s: seq<T>, idx: Option<nat>, x: T): (r: seq<T>)
    requires idx.Some? ==> idx.value < |s|
    ensures |r| == if idx.None? then |s| + 1 else |s|
    ensures Slot(s, idx) < |r| && r[Slot(s, idx)] == x
    ensures forall j :: 0 <= j < |s| && j != Slot(s, idx) ==> r[j] == s[j]
  {
    if idx.None? then s + [x] else s[idx.value := x]
  }

  /** Appending one element and then the rest is appending both at once. */
  lemma AppendOne<T>(a: seq<T>, x: T, b: seq<T>)
    ensures a + ([x] + b) == (a + [x]) + b
  {
  }
}
