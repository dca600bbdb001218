/** Generic facts about sequences and sets the models share: regrouping,
    taking an element out and putting one in, and how positions and
    multisets change when they do. */
module Seqs {

  /** Concatenation regrouped. */
  lemma Regroup<T>(a: seq<T>, b: seq<T>, c: seq<T>)
    ensures a + (b + c) == (a + b) + c
  {
  }

  /** The sequence without its element at `i`. */
  function Without<T>(s: seq<T>, i: nat): (r: seq<T>)
    requires i < |s|
    ensures |r| == |s| - 1
  {
    s[..i] + s[i + 1..]
  }

  /** The sequence with `x` inserted at `i`. */
  function Insert<T>(s: seq<T>, i: nat, x: T): (r: seq<T>)
    requires i <= |s|
    ensures |r| == |s| + 1 && r[i] == x
  {
    s[..i] + [x] + s[i..]
  }

  /** Each position after putting `x` in at `i`. */
  lemma InsertedAt<T>(s: seq<T>, i: nat, x: T, k: nat)
    requires i <= |s| && k <= |s|
    ensures Insert(s, i, x)[k] == if k < i then s[k] else if k == i then x else s[k - 1]
  {
  }

  /** Taking out what was just put in gives the sequence back. */
  lemma WithoutInsert<T>(s: seq<T>, i: nat, x: T)
    requires i <= |s|
    ensures Without(Insert(s, i, x), i) == s
  {
    assert Insert(s, i, x)[..i] == s[..i];
    assert Insert(s, i, x)[i + 1..] == s[i..];
  }

  /** Inserting an element adds it to the multiset. */
  lemma InsertMultiset<T>(s: seq<T>, i: nat, x: T)
    requires i <= |s|
    ensures multiset(Insert(s, i, x)) == multiset(s) + multiset{x}
  {
    assert s == s[..i] + s[i..];
  }

  /** Removing an element takes it out of the multiset. */
  lemma WithoutMultiset<T>(s: seq<T>, i: nat)
    requires i < |s|
    ensures multiset(Without(s, i)) + multiset{s[i]} == multiset(s)
  {
    assert s == s[..i] + [s[i]] + s[i + 1..];
  }

  /** Where the element at `k` after a move from `from` to `target` came
      from, when it is not the moved element. */
  function Source(from: nat, target: nat, k: nat): nat
    requires k != target
  {
    var j := if k < target then k else k - 1;
    if j < from then j else j + 1
  }

  /** Each position after taking the element at `from` out and putting `x` in
      at `target`. */
  lemma MovedAt<T>(s: seq<T>, from: nat, target: nat, x: T, k: nat)
    requires from < |s| && target < |s| && k < |s|
    ensures Insert(Without(s, from), target, x)[k] == if k == target then x else s[Source(from, target, k)]
  {
  }

  /** Taking the element at `from` out and putting `x` in at `target` shifts
      the elements between the two positions by one, towards `from`, and
      leaves the others where they are. */
  lemma MoveShifts<T>(s: seq<T>, from: nat, target: nat, x: T)
    requires from < |s| && target < |s|
    ensures var moved := Insert(Without(s, from), target, x);
      && |moved| == |s|
      && moved[target] == x
      && (forall k :: from <= k < target ==> moved[k] == s[k + 1])
      && (forall k :: target < k <= from ==> moved[k] == s[k - 1])
      && (forall k :: 0 <= k < |s| && k < from && k < target ==> moved[k] == s[k])
      && (forall k :: 0 <= k < |s| && k > from && k > target ==> moved[k] == s[k])
  {
    var moved := Insert(Without(s, from), target, x);
    forall k | 0 <= k < |s|
      ensures moved[k] == if k == target then x else s[Source(from, target, k)]
    {
      MovedAt(s, from, target, x, k);
    }
  }

  /** A subset of a set has no more elements. */
  lemma SubsetCard<T>(a: set<T>, b: set<T>)
    requires a <= b
    ensures |a| <= |b|
  {
    assert b == a + (b - a);
  }
}
