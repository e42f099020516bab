/**
 Stable sorting and merging, relative to a total preorder `le`.

 `le(x, y)` reads "x may stand before y". `Sort` is what a stable library sort returns;
 `Merge` is the two-way merge that takes from the left sequence on ties.
 */
module Sorting {

  ghost predicate TotalPreorder<T(!new)>(le: (T, T) -> bool) {
    && (forall x, y :: le(x, y) || le(y, x))
    && (forall x, y, z :: le(x, y) && le(y, z) ==> le(x, z))
  }

  ghost predicate Sorted<T>(s: seq<T>, le: (T, T) -> bool) {
    forall i, j | 0 <= i < j < |s| :: le(s[i], s[j])
  }

  /** Puts `x` before the first element it may stand before. */
  function Insert<T>(x: T, s: seq<T>, le: (T, T) -> bool): seq<T> {
    if s == [] || le(x, s[0]) then [x] + s else [s[0]] + Insert(x, s[1..], le)
  }

  function Sort<T>(s: seq<T>, le: (T, T) -> bool): seq<T> {
    if s == [] then [] else Insert(s[0], Sort(s[1..], le), le)
  }

  function Merge<T>(a: seq<T>, b: seq<T>, le: (T, T) -> bool): seq<T>
    decreases |a| + |b|
  {
    if a == [] then b
    else if b == [] then a
    else if le(a[0], b[0]) then [a[0]] + Merge(a[1..], b, le)
    else [b[0]] + Merge(a, b[1..], le)
  }

  function Take<T>(s: seq<T>, n: nat): seq<T> {
    if n <= |s| then s[..n] else s
  }

  function Drop<T>(s: seq<T>, n: nat): seq<T> {
    if n <= |s| then s[n..] else []
  }

  lemma {:induction false} InsertHolds<T>(x: T, s: seq<T>, le: (T, T) -> bool, t: T)
    ensures t in Insert(x, s, le) <==> t == x || t in s
  {
    if s != [] && !le(x, s[0]) {
      InsertHolds(x, s[1..], le, t);
    }
  }

  lemma {:induction false} InsertKeeps<T(!new)>(x: T, s: seq<T>, le: (T, T) -> bool)
    requires TotalPreorder(le) && Sorted(s, le)
    ensures Sorted(Insert(x, s, le), le)
    ensures multiset(Insert(x, s, le)) == multiset{x} + multiset(s)
  {
    if s != [] {
      assert s == [s[0]] + s[1..];
      if !le(x, s[0]) {
        InsertKeeps(x, s[1..], le);
        var t := Insert(x, s[1..], le);
        forall j | 0 <= j < |t| ensures le(s[0], t[j]) {
          InsertHolds(x, s[1..], le, t[j]);
        }
      }
    }
  }

  lemma {:induction false} SortKeeps<T(!new)>(s: seq<T>, le: (T, T) -> bool)
    requires TotalPreorder(le)
    ensures Sorted(Sort(s, le), le)
    ensures multiset(Sort(s, le)) == multiset(s)
  {
    if s != [] {
      SortKeeps(s[1..], le);
      InsertKeeps(s[0], Sort(s[1..], le), le);
      assert s == [s[0]] + s[1..];
    }
  }

  /** Inserting an element that may stand before all of `a` into a merge of `a`. */
  lemma {:induction false} InsertIntoMerge<T(!new)>(x: T, a: seq<T>, b: seq<T>, le: (T, T) -> bool)
    requires TotalPreorder(le) && Sorted([x] + a, le) && Sorted(b, le)
    ensures Insert(x, Merge(a, b, le), le) == Merge([x] + a, b, le)
    decreases |b|
  {
    assert ([x] + a)[1..] == a;
    if a != [] { assert le(([x] + a)[0], ([x] + a)[1]); }
    if b == [] || le(x, b[0]) {
      var m := Merge(a, b, le);
      assert m == [] || m[0] in a || m[0] in b;
    } else {
      InsertIntoMerge(x, a, b[1..], le);
      assert Merge(a, b, le) == [b[0]] + Merge(a, b[1..], le) by {
        if a == [] { assert b == [b[0]] + b[1..]; }
      }
    }
  }

  lemma SortCons<T>(x: T, s: seq<T>, le: (T, T) -> bool)
    ensures Sort([x] + s, le) == Insert(x, Sort(s, le), le)
  {
    assert ([x] + s)[1..] == s;
  }

  /** As good as `c` to the order. */
  function Ties<T(!new)>(le: (T, T) -> bool, c: T): T -> bool {
    (t: T) => le(t, c) && le(c, t)
  }

  lemma {:induction false} InsertIsStable<T(!new)>(x: T, s: seq<T>, le: (T, T) -> bool, c: T)
    requires TotalPreorder(le)
    ensures Filter(Insert(x, s, le), Ties(le, c)) == Filter([x] + s, Ties(le, c))
  {
    var keep := Ties(le, c);
    if s != [] && !le(x, s[0]) {
      var rest := Insert(x, s[1..], le);
      InsertIsStable(x, s[1..], le, c);
      assert !(keep(x) && keep(s[0]));
      assert s == [s[0]] + s[1..];
      FilterAppend([s[0]], rest, keep);
      FilterAppend([x], s, keep);
      FilterAppend([s[0]], s[1..], keep);
      FilterAppend([x], s[1..], keep);
      assert [x][1..] == [] && [s[0]][1..] == [];
    }
  }

  /** What ties stays in the order it came in. */
  lemma {:induction false} SortIsStable<T(!new)>(s: seq<T>, le: (T, T) -> bool, c: T)
    requires TotalPreorder(le)
    ensures Filter(Sort(s, le), Ties(le, c)) == Filter(s, Ties(le, c))
  {
    if s != [] {
      SortIsStable(s[1..], le, c);
      InsertIsStable(s[0], Sort(s[1..], le), le, c);
      assert s == [s[0]] + s[1..];
      FilterAppend([s[0]], Sort(s[1..], le), Ties(le, c));
      FilterAppend([s[0]], s[1..], Ties(le, c));
    }
  }

  lemma {:induction false} SortOfRun<T>(s: seq<T>, le: (T, T) -> bool)
    requires Sorted(s, le)
    ensures Sort(s, le) == s
  {
    if s != [] {
      SortOfRun(s[1..], le);
      assert s == [s[0]] + s[1..];
      assert |s| > 1 ==> le(s[0], s[1]);
    }
  }

  /** Stably sorting two sorted runs laid end to end is merging them. */
  lemma {:induction false} SortOfTwoRuns<T(!new)>(a: seq<T>, b: seq<T>, le: (T, T) -> bool)
    requires TotalPreorder(le) && Sorted(a, le) && Sorted(b, le)
    ensures Sort(a + b, le) == Merge(a, b, le)
    decreases |a|
  {
    if a == [] {
      assert a + b == b;
      SortOfRun(b, le);
    } else {
      var x, left := a[0], a[1..];
      assert a == [x] + left && a + b == [x] + (left + b);
      SortOfTwoRuns(left, b, le);
      SortCons(x, left + b, le);
      InsertIntoMerge(x, left, b, le);
    }
  }

  lemma {:induction false} MergeKeeps<T(!new)>(a: seq<T>, b: seq<T>, le: (T, T) -> bool)
    ensures multiset(Merge(a, b, le)) == multiset(a) + multiset(b)
    ensures |Merge(a, b, le)| == |a| + |b|
    decreases |a| + |b|
  {
    if a != [] && b != [] {
      if le(a[0], b[0]) {
        assert a == [a[0]] + a[1..];
        MergeKeeps(a[1..], b, le);
      } else {
        assert b == [b[0]] + b[1..];
        MergeKeeps(a, b[1..], le);
      }
    }
  }

  lemma TakeMergeLeft<T>(x: T, a: seq<T>, b: seq<T>, p: nat, q: nat, n: nat, le: (T, T) -> bool)
    requires 1 <= n <= p && n <= q && b != [] && le(x, b[0])
    requires Take(Merge(Take(a, p - 1), Take(b, q), le), n - 1) == Take(Merge(a, b, le), n - 1)
    ensures Take(Merge(Take([x] + a, p), Take(b, q), le), n) == Take(Merge([x] + a, b, le), n)
  {
    TakeCons(x, a, p);
    MergeTakesLeft(x, a, b, le);
    MergeTakesLeft(x, Take(a, p - 1), Take(b, q), le);
    TakeCons(x, Merge(a, b, le), n);
    TakeCons(x, Merge(Take(a, p - 1), Take(b, q), le), n);
  }

  lemma TakeMergeRight<T>(a: seq<T>, y: T, b: seq<T>, p: nat, q: nat, n: nat, le: (T, T) -> bool)
    requires 1 <= n <= p && n <= q && a != [] && !le(a[0], y)
    requires Take(Merge(Take(a, p), Take(b, q - 1), le), n - 1) == Take(Merge(a, b, le), n - 1)
    ensures Take(Merge(Take(a, p), Take([y] + b, q), le), n) == Take(Merge(a, [y] + b, le), n)
  {
    TakeCons(y, b, q);
    MergeTakesRight(a, y, b, le);
    MergeTakesRight(Take(a, p), y, Take(b, q - 1), le);
    TakeCons(y, Merge(a, b, le), n);
    TakeCons(y, Merge(Take(a, p), Take(b, q - 1), le), n);
  }

  /** The first `n` of a merge need only the first `n` of each side. */
  lemma {:induction false} TakeMerge<T>(a: seq<T>, b: seq<T>, p: nat, q: nat, n: nat, le: (T, T) -> bool)
    requires n <= p && n <= q
    ensures Take(Merge(Take(a, p), Take(b, q), le), n) == Take(Merge(a, b, le), n)
    decreases |a| + |b|
  {
    if n == 0 {
    } else if a == [] {
      TakeTake(b, q, n);
    } else if b == [] {
      TakeTake(a, p, n);
    } else if le(a[0], b[0]) {
      assert a == [a[0]] + a[1..];
      TakeMerge(a[1..], b, p - 1, q, n - 1, le);
      TakeMergeLeft(a[0], a[1..], b, p, q, n, le);
    } else {
      assert b == [b[0]] + b[1..];
      TakeMerge(a, b[1..], p, q - 1, n - 1, le);
      TakeMergeRight(a, b[0], b[1..], p, q, n, le);
    }
  }

  lemma TakeTake<T>(s: seq<T>, p: nat, n: nat)
    requires n <= p
    ensures Take(Take(s, p), n) == Take(s, n)
  {
  }

  lemma TakeCons<T>(x: T, s: seq<T>, n: nat)
    requires n > 0
    ensures Take([x] + s, n) == [x] + Take(s, n - 1)
  {
  }

  /** Strictly earlier newcomers on both sides are merged first, among themselves. */
  lemma {:induction false} MergeOfNewcomers<T>(na: seq<T>, a: seq<T>, nb: seq<T>, b: seq<T>, le: (T, T) -> bool)
    requires forall x, y | x in na && y in b :: le(x, y)
    requires forall x, y | x in nb && y in a :: !le(y, x)
    ensures Merge(na + a, nb + b, le) == Merge(na, nb, le) + Merge(a, b, le)
    decreases |na| + |nb|
  {
    if na == [] && nb == [] {
      assert na + a == a && nb + b == b;
    } else if nb == [] || (na != [] && le(na[0], nb[0])) {
      var x, left := na[0], na[1..];
      assert na == [x] + left && na + a == [x] + (left + a) && (nb + b == [] || le(x, (nb + b)[0]));
      MergeOfNewcomers(left, a, nb, b, le);
      MergeTakesLeft(x, left + a, nb + b, le);
      MergeTakesLeft(x, left, nb, le);
      Regroup([x], Merge(left, nb, le), Merge(a, b, le));
    } else {
      var y, left := nb[0], nb[1..];
      assert nb == [y] + left && nb + b == [y] + (left + b) && (na + a == [] || !le((na + a)[0], y));
      MergeOfNewcomers(na, a, left, b, le);
      MergeTakesRight(na + a, y, left + b, le);
      MergeTakesRight(na, y, left, le);
      Regroup([y], Merge(na, left, le), Merge(a, b, le));
    }
  }

  lemma Regroup<T>(s: seq<T>, t: seq<T>, u: seq<T>)
    ensures s + (t + u) == (s + t) + u
  {
  }

  lemma MergeTakesLeft<T>(x: T, a: seq<T>, b: seq<T>, le: (T, T) -> bool)
    requires b == [] || le(x, b[0])
    ensures Merge([x] + a, b, le) == [x] + Merge(a, b, le)
  {
    assert ([x] + a)[1..] == a;
    if a == [] && b == [] { assert [x] + a == [x]; }
  }

  lemma MergeTakesRight<T>(a: seq<T>, y: T, b: seq<T>, le: (T, T) -> bool)
    requires a == [] || !le(a[0], y)
    ensures Merge(a, [y] + b, le) == [y] + Merge(a, b, le)
  {
    assert ([y] + b)[1..] == b;
  }

  function Filter<T>(s: seq<T>, keep: T -> bool): seq<T> {
    if s == [] then []
    else if keep(s[0]) then [s[0]] + Filter(s[1..], keep)
    else Filter(s[1..], keep)
  }

  lemma {:induction false} FilterAppend<T>(s: seq<T>, t: seq<T>, keep: T -> bool)
    ensures Filter(s + t, keep) == Filter(s, keep) + Filter(t, keep)
  {
    if s == [] {
      assert s + t == t;
    } else {
      assert (s + t)[1..] == s[1..] + t;
      FilterAppend(s[1..], t, keep);
    }
  }

  lemma {:induction false} FilterHolds<T>(s: seq<T>, keep: T -> bool, x: T)
    ensures x in Filter(s, keep) <==> x in s && keep(x)
  {
    if s != [] {
      FilterHolds(s[1..], keep, x);
      assert s == [s[0]] + s[1..];
    }
  }

  lemma {:induction false} FilterAll<T>(s: seq<T>, keep: T -> bool)
    ensures (forall x | x in s :: keep(x)) ==> Filter(s, keep) == s
    ensures (forall x | x in s :: !keep(x)) ==> Filter(s, keep) == []
  {
    if s != [] {
      FilterAll(s[1..], keep);
      assert s == [s[0]] + s[1..];
    }
  }

  /** A merge contains each side in its own order: what is kept is one side, whole. */
  lemma {:induction false} MergeProjects<T>(a: seq<T>, b: seq<T>, le: (T, T) -> bool, keep: T -> bool)
    ensures (forall x | x in a :: keep(x)) && (forall x | x in b :: !keep(x)) ==> Filter(Merge(a, b, le), keep) == a
    ensures (forall x | x in a :: !keep(x)) && (forall x | x in b :: keep(x)) ==> Filter(Merge(a, b, le), keep) == b
    decreases |a| + |b|
  {
    if a == [] {
      FilterAll(b, keep);
    } else if b == [] {
      FilterAll(a, keep);
    } else if le(a[0], b[0]) {
      MergeProjects(a[1..], b, le, keep);
      assert a == [a[0]] + a[1..];
    } else {
      MergeProjects(a, b[1..], le, keep);
      assert b == [b[0]] + b[1..];
    }
  }

  // Subsequences

  /** `s` is `t` with some elements left out. */
  predicate Subseq<T(==)>(s: seq<T>, t: seq<T>) {
    s == [] || (t != [] && ((s[0] == t[0] && Subseq(s[1..], t[1..])) || Subseq(s, t[1..])))
  }

  ghost predicate NoRepeats<T>(s: seq<T>) {
    forall i, j | 0 <= i < j < |s| :: s[i] != s[j]
  }

  lemma TogetherNoRepeats<T>(s: seq<T>, t: seq<T>)
    ensures NoRepeats(s + t) <==> NoRepeats(s) && NoRepeats(t) && forall x | x in s :: x !in t
  {
    var u := s + t;
    if NoRepeats(u) {
      forall i, j | 0 <= i < j < |s| ensures s[i] != s[j] { assert u[i] != u[j]; }
      forall i, j | 0 <= i < j < |t| ensures t[i] != t[j] { assert u[|s| + i] != u[|s| + j]; }
      forall x | x in s ensures x !in t {
        var i :| 0 <= i < |s| && s[i] == x;
        forall j | 0 <= j < |t| ensures t[j] != x { assert u[i] != u[|s| + j]; }
      }
    }
    if NoRepeats(s) && NoRepeats(t) && forall x | x in s :: x !in t {
      forall i, j | 0 <= i < j < |u| ensures u[i] != u[j] {
        if i < |s| <= j {
          assert s[i] in s && t[j - |s|] in t;
        } else if |s| <= i {
          assert u[i] == t[i - |s|] && u[j] == t[j - |s|];
        }
      }
    }
  }

  lemma {:induction false} CountsSayRepeats<T(!new)>(s: seq<T>)
    ensures NoRepeats(s) <==> forall x: T :: multiset(s)[x] <= 1
  {
    if s != [] {
      var t := s[1..];
      CountsSayRepeats(t);
      TogetherNoRepeats([s[0]], t);
      assert s == [s[0]] + t;
      assert forall x: T :: multiset(s)[x] == multiset(t)[x] + if x == s[0] then 1 else 0;
      assert s[0] in t <==> multiset(t)[s[0]] > 0;
    }
  }

  lemma {:induction false} SubseqRefl<T>(s: seq<T>)
    ensures Subseq(s, s)
  {
    if s != [] {
      SubseqRefl(s[1..]);
    }
  }

  lemma {:induction false} SubseqTail<T>(s: seq<T>, t: seq<T>)
    requires s != [] && Subseq(s, t)
    ensures Subseq(s[1..], t)
  {
    if s[0] == t[0] && Subseq(s[1..], t[1..]) {
    } else {
      SubseqTail(s, t[1..]);
    }
  }

  lemma {:induction false} SubseqTrans<T>(s: seq<T>, t: seq<T>, u: seq<T>)
    requires Subseq(s, t) && Subseq(t, u)
    ensures Subseq(s, u)
    decreases |u|
  {
    if s != [] {
      if t[0] == u[0] && Subseq(t[1..], u[1..]) {
        if s[0] == t[0] && Subseq(s[1..], t[1..]) {
          SubseqTrans(s[1..], t[1..], u[1..]);
        } else {
          SubseqTrans(s, t[1..], u[1..]);
        }
      } else {
        SubseqTrans(s, t, u[1..]);
      }
    }
  }

  lemma {:induction false} SubseqIn<T>(s: seq<T>, t: seq<T>, x: T)
    requires Subseq(s, t) && x in s
    ensures x in t
  {
    if s[0] == t[0] && Subseq(s[1..], t[1..]) {
      if x != s[0] {
        assert x in s[1..];
        SubseqIn(s[1..], t[1..], x);
      }
    } else {
      SubseqIn(s, t[1..], x);
    }
  }

  lemma PrefixTail<T>(x: T, head: T, tail: seq<T>, n: nat)
    requires x in Take([head] + tail, n) && x != head
    ensures n > 0 && x in Take(tail, n - 1)
  {
    TakeCons(head, tail, n);
  }

  lemma PrefixMore<T>(x: T, s: seq<T>, head: T, n: nat)
    requires n > 0 && x in Take(s, n - 1)
    ensures x in Take([head] + s, n) && x in Take(s, n)
  {
    TakeCons(head, s, n);
    var i :| 0 <= i < |Take(s, n - 1)| && Take(s, n - 1)[i] == x;
    assert Take(s, n)[i] == x;
  }

  /** What is added in front of an element, or anywhere, only moves it back. */
  lemma {:induction false} SubseqPrefix<T>(s: seq<T>, t: seq<T>, x: T, n: nat)
    requires Subseq(s, t) && NoRepeats(t) && x in s && x in Take(t, n)
    ensures x in Take(s, n)
    decreases |t|
  {
    var head, tail := t[0], t[1..];
    assert n > 0 && t == [head] + tail;
    TogetherNoRepeats([head], tail);
    if s[0] == head && Subseq(s[1..], tail) {
      assert s == [head] + s[1..];
      TakeCons(head, s[1..], n);
      if x != head {
        PrefixTail(x, head, tail, n);
        SubseqPrefix(s[1..], tail, x, n - 1);
      }
    } else {
      SubseqIn(s, tail, x);
      PrefixTail(x, head, tail, n);
      SubseqPrefix(s, tail, x, n - 1);
      PrefixMore(x, s, head, n);
    }
  }

  /** If the front of the longer one was all there before, it was the front. */
  lemma {:induction false} SameFront<T>(s: seq<T>, t: seq<T>, n: nat)
    requires Subseq(s, t) && NoRepeats(t) && forall x | x in Take(t, n) :: x in s
    ensures Take(t, n) == Take(s, n)
    decreases |t|
  {
    if n > 0 && t != [] {
      var t' := t[1..];
      assert t == [t[0]] + t';
      TakeCons(t[0], t', n);
      assert NoRepeats(t') by { forall i, j | 0 <= i < j < |t'| ensures t'[i] != t'[j] { assert t[i + 1] != t[j + 1]; } }
      HeadMatters(s, t);
      assert s == [s[0]] + s[1..];
      TakeCons(s[0], s[1..], n);
      forall x | x in Take(t', n - 1) ensures x in s[1..] {
        var i :| 0 <= i < |Take(t', n - 1)| && Take(t', n - 1)[i] == x;
        assert t[0] != t[i + 1] == x;
        assert x in [t[0]] + Take(t', n - 1);
      }
      SameFront(s[1..], t', n - 1);
    }
  }

  lemma HeadMatters<T>(s: seq<T>, t: seq<T>)
    requires t != [] && NoRepeats(t) && t[0] in s
    ensures !Subseq(s, t[1..])
  {
    assert t[0] !in t[1..] by {
      forall i | 0 <= i < |t[1..]| ensures t[1..][i] != t[0] { assert t[0] != t[i + 1]; }
    }
    if Subseq(s, t[1..]) {
      SubseqIn(s, t[1..], t[0]);
    }
  }

  /** Merging what is left out of is leaving out of the merge. */
  lemma {:induction false} SubseqOfMerge<T(!new)>(a: seq<T>, b: seq<T>, c: seq<T>, d: seq<T>, le: (T, T) -> bool)
    requires TotalPreorder(le) && Sorted(c, le) && Sorted(d, le) && Subseq(a, c) && Subseq(b, d)
    ensures Subseq(Merge(a, b, le), Merge(c, d, le))
    decreases |c| + |d|
  {
    if c == [] || d == [] {
    } else if le(c[0], d[0]) {
      MergeStepLeft(a, b, c, d, le);
    } else {
      MergeStepRight(a, b, c, d, le);
    }
  }

  lemma {:induction false} MergeStepLeft<T(!new)>(a: seq<T>, b: seq<T>, c: seq<T>, d: seq<T>, le: (T, T) -> bool)
    requires TotalPreorder(le) && Sorted(c, le) && Sorted(d, le) && Subseq(a, c) && Subseq(b, d)
    requires c != [] && d != [] && le(c[0], d[0])
    ensures Subseq(Merge(a, b, le), Merge(c, d, le))
    decreases |c| + |d|, 0
  {
    var x, left := c[0], c[1..];
    assert c == [x] + left;
    MergeTakesLeft(x, left, d, le);
    if Subseq(a, left) {
      SubseqOfMerge(a, b, left, d, le);
      SubseqCons(Merge(a, b, le), x, Merge(left, d, le));
    } else {
      assert a == [x] + a[1..];
      SubseqOfMerge(a[1..], b, left, d, le);
      if b != [] {
        SubseqIn(b, d, b[0]);
        HeadFirst(d, b[0], le);
      }
      MergeTakesLeft(x, a[1..], b, le);
      SubseqBoth(x, Merge(a[1..], b, le), Merge(left, d, le));
    }
  }

  lemma {:induction false} MergeStepRight<T(!new)>(a: seq<T>, b: seq<T>, c: seq<T>, d: seq<T>, le: (T, T) -> bool)
    requires TotalPreorder(le) && Sorted(c, le) && Sorted(d, le) && Subseq(a, c) && Subseq(b, d)
    requires c != [] && d != [] && !le(c[0], d[0])
    ensures Subseq(Merge(a, b, le), Merge(c, d, le))
    decreases |c| + |d|, 0
  {
    var y, left := d[0], d[1..];
    assert d == [y] + left;
    MergeTakesRight(c, y, left, le);
    if Subseq(b, left) {
      SubseqOfMerge(a, b, c, left, le);
      SubseqCons(Merge(a, b, le), y, Merge(c, left, le));
    } else {
      assert b == [y] + b[1..];
      SubseqOfMerge(a, b[1..], c, left, le);
      if a != [] {
        SubseqIn(a, c, a[0]);
        HeadFirst(c, a[0], le);
      }
      MergeTakesRight(a, y, b[1..], le);
      SubseqBoth(y, Merge(a, b[1..], le), Merge(c, left, le));
    }
  }

  lemma HeadFirst<T(!new)>(s: seq<T>, x: T, le: (T, T) -> bool)
    requires TotalPreorder(le) && Sorted(s, le) && x in s
    ensures le(s[0], x)
  {
    var i :| 0 <= i < |s| && s[i] == x;
    assert i > 0 ==> le(s[0], s[i]);
  }

  lemma SubseqCons<T>(s: seq<T>, x: T, t: seq<T>)
    requires Subseq(s, t)
    ensures Subseq(s, [x] + t)
  {
    assert ([x] + t)[1..] == t;
  }

  lemma SubseqBoth<T>(x: T, s: seq<T>, t: seq<T>)
    requires Subseq(s, t)
    ensures Subseq([x] + s, [x] + t)
  {
    assert ([x] + t)[1..] == t && ([x] + s)[1..] == s;
  }

  lemma {:induction false} SubseqSnoc<T>(s: seq<T>, t: seq<T>)
    requires t != [] && Subseq(s, t)
    ensures
      || Subseq(s, t[..|t| - 1])
      || (s != [] && s[|s| - 1] == t[|t| - 1] && Subseq(s[..|s| - 1], t[..|t| - 1]))
    decreases |t|
  {
    if s != [] && |t| > 1 {
      var u := t[1..];
      assert t[..|t| - 1] == [t[0]] + u[..|u| - 1];
      if s[0] == t[0] && Subseq(s[1..], u) {
        SubseqSnoc(s[1..], u);
        assert s == [s[0]] + s[1..];
        if Subseq(s[1..], u[..|u| - 1]) {
          SubseqBoth(t[0], s[1..], u[..|u| - 1]);
        } else {
          assert s[..|s| - 1] == [s[0]] + s[1..][..|s| - 2];
          SubseqBoth(t[0], s[1..][..|s| - 2], u[..|u| - 1]);
        }
      } else {
        SubseqSnoc(s, u);
        if Subseq(s, u[..|u| - 1]) {
          SubseqCons(s, t[0], u[..|u| - 1]);
        } else {
          SubseqCons(s[..|s| - 1], t[0], u[..|u| - 1]);
        }
      }
    }
  }

  lemma {:induction false} SubseqInsertRight<T>(x: T, t: seq<T>, le: (T, T) -> bool)
    ensures Subseq(t, Insert(x, t, le))
  {
    SubseqRefl(t);
    if t == [] || le(x, t[0]) {
      SubseqCons(t, x, t);
    } else {
      SubseqInsertRight(x, t[1..], le);
      assert t == [t[0]] + t[1..];
      SubseqBoth(t[0], t[1..], Insert(x, t[1..], le));
    }
  }

  lemma {:induction false} SubseqInsertBoth<T(!new)>(x: T, s: seq<T>, t: seq<T>, le: (T, T) -> bool)
    requires TotalPreorder(le) && Sorted(t, le) && Subseq(s, t)
    ensures Subseq(Insert(x, s, le), Insert(x, t, le))
    decreases |t|
  {
    if t == [] {
      SubseqRefl([x]);
      assert Insert(x, s, le) == [x] && Insert(x, t, le) == [x];
    } else if le(x, t[0]) {
      if s != [] {
        SubseqIn(s, t, s[0]);
        HeadFirst(t, s[0], le);
      }
      SubseqBoth(x, s, t);
    } else if Subseq(s, t[1..]) {
      SubseqInsertBoth(x, s, t[1..], le);
      SubseqCons(Insert(x, s, le), t[0], Insert(x, t[1..], le));
    } else {
      SubseqInsertBoth(x, s[1..], t[1..], le);
      SubseqBoth(t[0], Insert(x, s[1..], le), Insert(x, t[1..], le));
    }
  }

  /** Filtering after an insertion is inserting into what was filtered. */
  lemma {:induction false} FilterInsert<T(!new)>(x: T, s: seq<T>, le: (T, T) -> bool, keep: T -> bool)
    requires TotalPreorder(le) && Sorted(s, le)
    ensures Filter(Insert(x, s, le), keep) == if keep(x) then Insert(x, Filter(s, keep), le) else Filter(s, keep)
  {
    if s == [] || le(x, s[0]) {
      assert ([x] + s)[1..] == s;
      if Filter(s, keep) != [] {
        FilterHolds(s, keep, Filter(s, keep)[0]);
        HeadFirst(s, Filter(s, keep)[0], le);
      }
    } else {
      FilterInsert(x, s[1..], le, keep);
      assert ([s[0]] + Insert(x, s[1..], le))[1..] == Insert(x, s[1..], le);
      assert keep(s[0]) ==> ([s[0]] + Filter(s[1..], keep))[1..] == Filter(s[1..], keep);
    }
  }
}
