/**
 What a finished reading amounts to, task by task and in number: the tasks that last and were there
 when it began, those that have come to last since, and those handed out before they lasted.
 */
module Accounts {
  import opened Arrivals
  import opened Paging
  import opened Places
  import opened Repeats
  import opened Sorting
  import opened Tasks

  ghost predicate Initial(x: Boxes, t: Task) {
    t in x.a || t in x.b
  }

  // Which tasks

  /** Of the tasks that last, each as often as it was in the two mailboxes. */
  ghost predicate Exactly(handed: seq<Task>, x: Boxes, keep: Task -> bool) {
    forall t: Task | keep(t) :: multiset(handed)[t] == multiset(x.a)[t] + multiset(x.b)[t]
  }

  /** Of the tasks that last, request `k` fetches none but those there at the start, and perhaps some that it skips. */
  ghost predicate TakesInitial(r: Reader, h: History, keep: Task -> bool, k: nat) {
    forall t | t in BatchAt(r, h, k) && keep(t) ::
      Initial(h(0), t) || (PlaceAt(r, h, k).value.half && t in Take(BatchAt(r, h, k), r.p))
  }

  lemma OnceInBoxes(h: History, keep: Task -> bool, t: Task)
    requires LastsAt(h, keep, 0) && KeptApartAt(h, keep, 0) && keep(t)
    ensures multiset(h(0).a)[t] + multiset(h(0).b)[t] == if Initial(h(0), t) then 1 else 0
  {
    var a, b := h(0).a, h(0).b;
    UniqueHasNoRepeats(a);
    UniqueHasNoRepeats(b);
    CountsSayRepeats(a);
    CountsSayRepeats(b);
    assert t in a <==> multiset(a)[t] > 0;
    assert t in b <==> multiset(b)[t] > 0;
  }

  lemma FetchedIsDue(r: Reader, h: History, k: nat, t: Task)
    requires ServedAt(r, h, k) && t in BatchAt(r, h, k)
    requires PlaceAt(r, h, k).value.half ==> t !in Take(BatchAt(r, h, k), r.p)
    ensures Due(r, h, k, t)
  {
    var place := PlaceAt(r, h, k).value;
    var sa, sb := Unread(h(k).a, place.a).value, Unread(h(k).b, place.b).value;
    BatchHolds(r, sa, sb, t);
    InTakeOrDrop(sa, r.p, t);
    InTakeOrDrop(sb, r.p, t);
  }

  lemma FetchedIsHanded(r: Reader, h: History, keep: Task -> bool, k: nat, n: nat, t: Task)
    requires Lasting(h, keep) && KeptApart(h, keep) && Finished(r, h, n) && k < n && keep(t)
    requires t in BatchAt(r, h, k) && (PlaceAt(r, h, k).value.half ==> t !in Take(BatchAt(r, h, k), r.p))
    ensures t in Handed(r, h, 0, n)
  {
    ServedBefore(r, h, k, n);
    FetchedIsDue(r, h, k, t);
    DueIsHanded(r, h, keep, k, n, t);
    JoinedSplits(Windows(r, h), 0, k, n);
  }

  lemma HandedIsInitial(r: Reader, h: History, keep: Task -> bool, n: nat, t: Task)
    requires Lasting(h, keep) && KeptApart(h, keep) && Finished(r, h, n) && keep(t) && t in Handed(r, h, 0, n)
    requires forall k | 0 <= k < n :: TakesInitial(r, h, keep, k)
    ensures Initial(h(0), t)
  {
    var i := JoinedFrom(Windows(r, h), 0, n, t);
    ServedBefore(r, h, i, n);
    assert LastsAt(h, keep, i) && KeptApartAt(h, keep, i) && TakesInitial(r, h, keep, i);
    WindowIsPart(r, h, keep, i);
  }

  lemma CleanIsExact(r: Reader, h: History, keep: Task -> bool, n: nat, t: Task)
    requires Lasting(h, keep) && KeptApart(h, keep) && Finished(r, h, n) && keep(t)
    requires Once(Handed(r, h, 0, n), keep) && forall k | 0 <= k < n :: TakesInitial(r, h, keep, k)
    ensures multiset(Handed(r, h, 0, n))[t] == multiset(h(0).a)[t] + multiset(h(0).b)[t]
  {
    assert LastsAt(h, keep, 0) && KeptApartAt(h, keep, 0);
    OnceInBoxes(h, keep, t);
    var handed := Handed(r, h, 0, n);
    assert t in handed <==> multiset(handed)[t] > 0;
    if Initial(h(0), t) {
      AtLeastOnce(r, h, keep, n, t);
    } else if t in handed {
      HandedIsInitial(r, h, keep, n, t);
    }
  }

  lemma ExactIsOnce(h: History, keep: Task -> bool, handed: seq<Task>)
    requires LastsAt(h, keep, 0) && KeptApartAt(h, keep, 0) && Exactly(handed, h(0), keep)
    ensures Once(handed, keep)
    ensures forall t | t in handed && keep(t) :: Initial(h(0), t)
  {
    forall t: Task | keep(t) ensures multiset(handed)[t] <= 1 && (t in handed ==> Initial(h(0), t)) {
      OnceInBoxes(h, keep, t);
      assert t in handed <==> multiset(handed)[t] > 0;
    }
  }

  lemma ExactTakesInitial(r: Reader, h: History, keep: Task -> bool, n: nat, k: nat)
    requires Lasting(h, keep) && KeptApart(h, keep) && Finished(r, h, n) && k < n
    requires forall t | t in Handed(r, h, 0, n) && keep(t) :: Initial(h(0), t)
    ensures TakesInitial(r, h, keep, k)
  {
    forall t | t in BatchAt(r, h, k) && keep(t)
      ensures Initial(h(0), t) || (PlaceAt(r, h, k).value.half && t in Take(BatchAt(r, h, k), r.p))
    {
      if !(PlaceAt(r, h, k).value.half && t in Take(BatchAt(r, h, k), r.p)) {
        FetchedIsHanded(r, h, keep, k, n, t);
      }
    }
  }

  /**
   The tasks that last are handed out exactly as they were at the start if and only if nothing makes one
   come twice and no request fetches, but to skip it, one that was not there.
   */
  lemma ExactIff(r: Reader, h: History, keep: Task -> bool, n: nat)
    requires Lasting(h, keep) && KeptApart(h, keep) && Finished(r, h, n)
    ensures Exactly(Handed(r, h, 0, n), h(0), keep) <==>
              CleanUpTo(r, h, keep, n) && forall k | 0 <= k < n :: TakesInitial(r, h, keep, k)
  {
    OnceIff(r, h, keep, n);
    if CleanUpTo(r, h, keep, n) && forall k | 0 <= k < n :: TakesInitial(r, h, keep, k) {
      forall t: Task | keep(t)
        ensures multiset(Handed(r, h, 0, n))[t] == multiset(h(0).a)[t] + multiset(h(0).b)[t]
      {
        CleanIsExact(r, h, keep, n, t);
      }
    }
    if Exactly(Handed(r, h, 0, n), h(0), keep) {
      assert LastsAt(h, keep, 0) && KeptApartAt(h, keep, 0);
      ExactIsOnce(h, keep, Handed(r, h, 0, n));
      forall k | 0 <= k < n ensures TakesInitial(r, h, keep, k) {
        ExactTakesInitial(r, h, keep, n, k);
      }
    }
  }

  // How many

  function LastingIn(x: Boxes, keep: Task -> bool): seq<Task> {
    Filter(x.a, keep) + Filter(x.b, keep)
  }

  function OpenIn(x: Boxes, keep: Task -> bool): seq<Task> {
    Filter(x.a, Opens(keep)) + Filter(x.b, Opens(keep))
  }

  /** Lasting, and there when the reading began. */
  function There(x: Boxes, keep: Task -> bool): Task -> bool {
    (t: Task) => keep(t) && (t in x.a || t in x.b)
  }

  /** Lasting now, and not there when the reading began: settled or arrived since. */
  function Since(x: Boxes, keep: Task -> bool): Task -> bool {
    (t: Task) => keep(t) && t !in x.a && t !in x.b
  }

  lemma {:induction false} ThreeParts(s: seq<Task>, x: Boxes, keep: Task -> bool)
    ensures |s| == |Filter(s, There(x, keep))| + |Filter(s, Since(x, keep))| + |Filter(s, Opens(keep))|
  {
    if s != [] {
      ThreeParts(s[1..], x, keep);
    }
  }

  lemma LastingInHolds(x: Boxes, keep: Task -> bool, t: Task)
    ensures t in LastingIn(x, keep) <==> There(x, keep)(t)
  {
    FilterHolds(x.a, keep, t);
    FilterHolds(x.b, keep, t);
  }

  lemma LastingInOnce(h: History, keep: Task -> bool)
    requires LastsAt(h, keep, 0) && KeptApartAt(h, keep, 0)
    ensures NoRepeats(LastingIn(h(0), keep))
  {
    var a, b := Filter(h(0).a, keep), Filter(h(0).b, keep);
    FilterUnique(h(0).a, keep);
    FilterUnique(h(0).b, keep);
    UniqueHasNoRepeats(a);
    UniqueHasNoRepeats(b);
    forall t | t in a ensures t !in b {
      FilterHolds(h(0).a, keep, t);
      FilterHolds(h(0).b, keep, t);
    }
    TogetherNoRepeats(a, b);
  }

  lemma MultisetsMeet(a: multiset<Task>, b: multiset<Task>)
    requires a <= b
    ensures |a| <= |b|
    ensures |a| >= |b| ==> a == b
  {
    assert b == a + (b - a);
    assert |b| == |a| + |b - a|;
  }

  /** Covering `first` takes as many, and only as many if nothing comes twice. */
  lemma CoverSize(first: seq<Task>, s: seq<Task>)
    requires NoRepeats(first) && forall t :: t in s <==> t in first
    ensures |s| >= |first| && (|s| == |first| <==> NoRepeats(s))
    ensures NoRepeats(s) <==> multiset(s) == multiset(first)
  {
    CountsSayRepeats(first);
    CountsSayRepeats(s);
    assert multiset(first) <= multiset(s) by {
      forall t: Task ensures multiset(first)[t] <= multiset(s)[t] {
        assert (t in s <==> multiset(s)[t] > 0) && (t in first <==> multiset(first)[t] > 0);
      }
    }
    MultisetsMeet(multiset(first), multiset(s));
    assert |multiset(s)| == |s| && |multiset(first)| == |first|;
    if NoRepeats(s) {
      forall t: Task ensures multiset(s)[t] == multiset(first)[t] {
        assert (t in s <==> multiset(s)[t] > 0) && (t in first <==> multiset(first)[t] > 0);
      }
      assert multiset(s) == multiset(first);
    }
  }

  /** The lasting tasks of the start are all handed out; so more hand-outs of them than tasks are repeats. */
  lemma ThereIsCovered(r: Reader, h: History, keep: Task -> bool, n: nat)
    requires Lasting(h, keep) && KeptApart(h, keep) && Finished(r, h, n)
    ensures var again, first := Filter(Handed(r, h, 0, n), There(h(0), keep)), LastingIn(h(0), keep);
            && |again| >= |first| && (|again| == |first| <==> NoRepeats(again))
            && (NoRepeats(again) <==> multiset(again) == multiset(first))
  {
    var handed, first := Handed(r, h, 0, n), LastingIn(h(0), keep);
    assert LastsAt(h, keep, 0) && KeptApartAt(h, keep, 0);
    LastingInOnce(h, keep);
    forall t ensures t in Filter(handed, There(h(0), keep)) <==> t in first {
      FilterHolds(handed, There(h(0), keep), t);
      LastingInHolds(h(0), keep, t);
      if There(h(0), keep)(t) {
        AtLeastOnce(r, h, keep, n, t);
      }
    }
    CoverSize(first, Filter(handed, There(h(0), keep)));
  }

  lemma FilterNone(s: seq<Task>, keep: Task -> bool)
    requires Filter(s, Opens(keep)) == []
    ensures Filter(s, keep) == s
  {
    forall t | t in s ensures keep(t) {
      FilterHolds(s, Opens(keep), t);
    }
    FilterAll(s, keep);
  }

  lemma {:induction false} FilterIsWhole(s: seq<Task>, keep: Task -> bool)
    requires |Filter(s, keep)| == |s|
    ensures Filter(s, keep) == s
  {
    if s != [] {
      FilterShrinks(s[1..], keep);
      FilterIsWhole(s[1..], keep);
      assert s == [s[0]] + s[1..];
    }
  }

  lemma {:induction false} FilterShrinks(s: seq<Task>, keep: Task -> bool)
    ensures |Filter(s, keep)| <= |s|
  {
    if s != [] {
      FilterShrinks(s[1..], keep);
    }
  }

  /** If everything lasted at the start, the count is never short, and it is right exactly if the tasks are. */
  lemma CountIsRight(r: Reader, h: History, keep: Task -> bool, n: nat)
    requires Lasting(h, keep) && KeptApart(h, keep) && Finished(r, h, n) && OpenIn(h(0), keep) == []
    ensures |Handed(r, h, 0, n)| >= |h(0).a| + |h(0).b|
    ensures |Handed(r, h, 0, n)| == |h(0).a| + |h(0).b| <==>
              multiset(Handed(r, h, 0, n)) == multiset(h(0).a) + multiset(h(0).b)
  {
    var handed := Handed(r, h, 0, n);
    FilterNone(h(0).a, keep);
    FilterNone(h(0).b, keep);
    assert multiset(LastingIn(h(0), keep)) == multiset(h(0).a) + multiset(h(0).b);
    ThereIsCovered(r, h, keep, n);
    ThreeParts(handed, h(0), keep);
    if |handed| == |h(0).a| + |h(0).b| {
      FilterIsWhole(handed, There(h(0), keep));
    }
    if multiset(handed) == multiset(h(0).a) + multiset(h(0).b) {
      assert |multiset(handed)| == |handed| && |multiset(h(0).a) + multiset(h(0).b)| == |h(0).a| + |h(0).b|;
    }
  }

  /** A reading that never sees a task that does not last goes on from lasting ones only. */
  lemma NoneOpenIsSure(r: Reader, h: History, keep: Task -> bool, n: nat)
    requires forall k | 0 <= k < n :: OpenIn(h(k), keep) == []
    ensures Sure(r, h, keep, n)
  {
    forall k: nat | k + 1 < n ensures SureAt(r, h, keep, k) {
      assert OpenIn(h(k), keep) == [];
      NoneOpenIsSureMark(h(k).a, keep);
      NoneOpenIsSureMark(h(k).b, keep);
    }
  }

  lemma NoneOpenIsSureMark(box: seq<Task>, keep: Task -> bool)
    requires Filter(box, Opens(keep)) == []
    ensures forall mark: Mark :: SureMark(box, mark, keep)
  {
    forall mark: Mark ensures SureMark(box, mark, keep) {
      if mark.At? && From(box, mark.id).Some? {
        var u := From(box, mark.id).value;
        FromSuffix(box, mark.id);
        SuffixMeans(u, box);
        assert u[0] in box;
        FilterHolds(box, Opens(keep), u[0]);
      }
    }
  }
}
