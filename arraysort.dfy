/** `Array.prototype.sort` as an in-place algorithm: an insertion sort on the array, which
    produces exactly the `InsertionSort` of the array's contents. */
module ArraySort {
  import opened Seqs

  lemma InsertFront<T>(x: T, t: seq<T>, cmp: (T, T) -> int)
    requires t == [] || cmp(x, t[0]) <= 0
    ensures Insert(x, t, cmp) == [x] + t
  {
  }

  /** `x` compares above each of the first `p` elements of `t`. */
  predicate PassesFirst<T>(x: T, t: seq<T>, p: nat, cmp: (T, T) -> int) {
    p <= |t| && forall q :: 0 <= q < p ==> cmp(x, t[q]) > 0
  }

  lemma PassesTail<T>(x: T, t: seq<T>, p: nat, cmp: (T, T) -> int)
    requires 0 < p && PassesFirst(x, t, p, cmp)
    ensures cmp(x, t[0]) > 0 && PassesFirst(x, t[1..], p - 1, cmp)
  {
    assert forall q :: 0 <= q < p - 1 ==> t[1..][q] == t[q + 1];
  }

  lemma ConsSplit<T>(t: seq<T>, p: nat, x: T)
    requires 0 < p <= |t|
    ensures [t[0]] + (t[1..][..p - 1] + [x] + t[1..][p - 1..]) == t[..p] + [x] + t[p..]
  {
    assert [t[0]] + t[1..][..p - 1] == t[..p];
    assert t[1..][p - 1..] == t[p..];
  }

  /** `Insert` places `x` just before the first element it does not compare above. */
  lemma {:induction false} InsertAt<T>(x: T, t: seq<T>, p: nat, cmp: (T, T) -> int)
    requires PassesFirst(x, t, p, cmp)
    requires p == |t| || cmp(x, t[p]) <= 0
    ensures Insert(x, t, cmp) == t[..p] + [x] + t[p..]
  {
    if p == 0 {
      InsertFront(x, t, cmp);
      assert t[..0] + [x] + t[0..] == [x] + t;
    } else {
      PassesTail(x, t, p, cmp);
      assert p - 1 == |t[1..]| || cmp(x, t[1..][p - 1]) <= 0;
      InsertAt(x, t[1..], p - 1, cmp);
      InsertPast(x, t, cmp);
      ConsSplit(t, p, x);
    }
  }

  /** Sorting a suffix inserts its first element into the sorted rest. */
  lemma SortStep<T>(s: seq<T>, i: nat, cmp: (T, T) -> int)
    requires i < |s|
    ensures InsertionSort(s[i..], cmp) == Insert(s[i], InsertionSort(s[i + 1..], cmp), cmp)
  {
    assert s[i..][1..] == s[i + 1..];
  }

  /** Moves `a[i]` into the run `a[i + 1..]`, shifting left each element it compares above,
      and reports (as `p`) how many it passed. */
  method InsertInto<T>(a: array<T>, i: nat, cmp: (T, T) -> int) returns (ghost p: nat)
    requires i < a.Length
    modifies a
    ensures p <= a.Length - i - 1
    ensures a[..i] == old(a[..i])
    ensures a[i..] == old(a[i + 1..])[..p] + [old(a[i])] + old(a[i + 1..])[p..]
    ensures PassesFirst(old(a[i]), old(a[i + 1..]), p, cmp)
    ensures p == a.Length - i - 1 || cmp(old(a[i]), old(a[i + 1..])[p]) <= 0
  {
    var x := a[i];
    ghost var t := a[i + 1..];
    var j := i;
    while j + 1 < a.Length && cmp(x, a[j + 1]) > 0
      invariant i <= j < a.Length
      invariant a[..i] == old(a[..i])
      invariant a[i..j] == t[..j - i]
      invariant a[j + 1..] == t[j - i..]
      invariant forall q :: 0 <= q < j - i ==> cmp(x, t[q]) > 0
    {
      assert a[j + 1] == t[j - i];
      a[j] := a[j + 1];
      j := j + 1;
    }
    a[j] := x;
    p := j - i;
    assert a[i..] == a[i..j] + [x] + a[j + 1..];
  }

  /** One round of the outer loop keeps its invariant: after inserting `before[i]` into the
      sorted suffix, the suffix from `i` is the sorted suffix of the input from `i`. */
  lemma StepKeepsSorted<T>(s: seq<T>, before: seq<T>, after: seq<T>, i: nat, p: nat, cmp: (T, T) -> int)
    requires i < |s| == |before| == |after|
    requires before[..i + 1] == s[..i + 1]
    requires before[i + 1..] == InsertionSort(s[i + 1..], cmp)
    requires after[..i] == before[..i]
    requires PassesFirst(before[i], before[i + 1..], p, cmp)
    requires after[i..] == before[i + 1..][..p] + [before[i]] + before[i + 1..][p..]
    requires p == |before| - i - 1 || cmp(before[i], before[i + 1..][p]) <= 0
    ensures after[..i] == s[..i]
    ensures after[i..] == InsertionSort(s[i..], cmp)
  {
    assert before[i] == s[i] by { assert before[..i + 1][i] == s[..i + 1][i]; }
    assert before[..i] == s[..i] by { assert before[..i] == before[..i + 1][..i]; assert s[..i] == s[..i + 1][..i]; }
    SortStep(s, i, cmp);
    InsertAt(before[i], before[i + 1..], p, cmp);
  }

  /** `array.sort(comparator)` in place: insertion from the right into the sorted suffix. */
  method SortInPlace<T>(a: array<T>, cmp: (T, T) -> int)
    modifies a
    ensures a[..] == InsertionSort(old(a[..]), cmp)
  {
    ghost var s := a[..];
    var i := a.Length;
    while i > 0
      invariant 0 <= i <= a.Length
      invariant a[..i] == s[..i]
      invariant a[i..] == InsertionSort(s[i..], cmp)
    {
      i := i - 1;
      ghost var before := a[..];
      assert before[..i + 1] == s[..i + 1];
      ghost var p := InsertInto(a, i, cmp);
      StepKeepsSorted(s, before, a[..], i, p, cmp);
    }
    assert a[0..] == a[..];
    assert s[0..] == s;
  }
}
