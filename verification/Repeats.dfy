/**
 What a reader hands out twice. Some tasks last, as in a mailbox those that are delivered or rejected;
 others come, change and go behind them, and may come to last. A task that lasts is handed out again
 in two cases only: a page fetched again for its second half has lost it, or the reader goes on from a
 task that has come to last in front of it.
 */
module Repeats {
  import opened Arrivals
  import opened Client
  import opened Paging
  import opened Places
  import opened Sorting
  import opened Tasks
  import opened Wrappers

  // Behind the reader

  function Side(x: Boxes, left: bool): seq<Task> {
    if left then x.a else x.b
  }

  function MarkOn(place: Place, left: bool): Mark {
    if left then place.a else place.b
  }

  /** In the mailbox, and behind the mark. */
  ghost predicate Passed(box: seq<Task>, mark: Mark, t: Task) {
    t in box && Unread(box, mark).Some? && t !in Unread(box, mark).value
  }

  lemma {:induction false} StaysBehind(s: seq<Task>, t: seq<Task>, id: string, x: Task)
    requires Subseq(s, t) && UniqueIds(t) && From(s, id).Some? && x in s && x !in From(s, id).value
    ensures From(t, id).Some? && x !in From(t, id).value
    decreases |t|
  {
    if s[0] == t[0] && Subseq(s[1..], t[1..]) {
      assert s[0].id != id;
      SubseqFrom(s[1..], t[1..], id);
      if x == s[0] {
        NotFurtherOn(t, id);
      } else {
        assert s == [s[0]] + s[1..];
        StaysBehind(s[1..], t[1..], id, x);
      }
    } else {
      FromSuffix(s, id);
      SuffixMeans(From(s, id).value, s);
      var y := From(s, id).value[0];
      SubseqIn(s, t[1..], y);
      var i :| 0 <= i < |t[1..]| && t[1..][i] == y;
      assert t[0].id != t[i + 1].id;
      StaysBehind(s, t[1..], id, x);
    }
  }

  lemma NotFurtherOn(t: seq<Task>, id: string)
    requires t != [] && UniqueIds(t) && t[0].id != id && From(t[1..], id).Some?
    ensures t[0] !in From(t, id).value
  {
    var v := From(t[1..], id).value;
    FromSuffix(t[1..], id);
    SuffixMeans(v, t[1..]);
    var n := |t[1..]| - |v|;
    forall i | 0 <= i < |v| ensures v[i] != t[0] {
      assert t[1..][n..][i] == t[n + i + 1];
      assert t[0].id != t[n + i + 1].id;
    }
  }

  lemma TakenIsNotLeft(u: seq<Task>, p: nat, x: Task)
    requires UniqueIds(u) && x in Take(u, p)
    ensures x !in Drop(u, p)
  {
    UniqueHasNoRepeats(u);
    var taken, left := Take(u, p), Drop(u, p);
    assert u == taken + left;
    TogetherNoRepeats(taken, left);
  }

  lemma SuffixIsUnique(u: seq<Task>, box: seq<Task>)
    requires UniqueIds(box) && IsSuffix(u, box)
    ensures UniqueIds(u) && forall x | x in u :: x in box
  {
    SuffixMeans(u, box);
    var n := |box| - |u|;
    forall i, j | 0 <= i < j < |u| ensures u[i].id != u[j].id {
      assert u[i] == box[n + i] && u[j] == box[n + j];
    }
    forall x | x in u ensures x in box {
      var i :| 0 <= i < |u| && u[i] == x;
      assert box[n + i] == x;
    }
  }

  /** Going on past `p` unread tasks passes them, and keeps passed what was. */
  lemma PassedOn(box: seq<Task>, mark: Mark, p: nat, x: Task)
    requires UniqueIds(box) && Unread(box, mark).Some?
    requires Passed(box, mark, x) || x in Take(Unread(box, mark).value, p)
    ensures Passed(box, MarkOf(Drop(Unread(box, mark).value, p)), x)
  {
    var u := Unread(box, mark).value;
    MarkFinds(box, mark, p);
    UnreadIsSuffix(box, mark);
    SuffixIsUnique(u, box);
    InTakeOrDrop(u, p, x);
    if x in Take(u, p) {
      TakenIsNotLeft(u, p, x);
    }
  }

  lemma PassedIsNotMark(box: seq<Task>, mark: Mark, x: Task)
    requires UniqueIds(box) && Passed(box, mark, x)
    ensures mark != At(x.id)
  {
    if mark == At(x.id) {
      FromFinds(box, x);
    }
  }

  /** The task of the mark did not last yet when it was left there, and does now. */
  ghost predicate MarkSettles(s: seq<Task>, t: seq<Task>, mark: Mark, keep: Task -> bool) {
    && mark.At?
    && From(s, mark.id).Some? && !keep(From(s, mark.id).value[0])
    && From(t, mark.id).Some? && keep(From(t, mark.id).value[0])
  }

  lemma KeptMarkStays(s: seq<Task>, t: seq<Task>, id: string, keep: Task -> bool)
    requires UniqueIds(t) && Subseq(Filter(s, keep), Filter(t, keep))
    requires From(s, id).Some? && keep(From(s, id).value[0])
    ensures From(t, id).Some? && From(t, id).value[0] == From(s, id).value[0]
    ensures From(Filter(t, keep), id) == Some(Filter(From(t, id).value, keep))
  {
    var y := From(s, id).value[0];
    FromSuffix(s, id);
    SuffixMeans(From(s, id).value, s);
    assert y in s;
    FilterHolds(s, keep, y);
    SubseqIn(Filter(s, keep), Filter(t, keep), y);
    FilterHolds(t, keep, y);
    FromFinds(t, y);
    FromFilter(t, keep, id);
  }

  /** A task that lasts and is behind a mark stays behind it, unless the mark's task comes to last. */
  lemma PassedLasts(s: seq<Task>, t: seq<Task>, mark: Mark, keep: Task -> bool, x: Task)
    requires UniqueIds(t) && KeptFirst(s, keep) && KeptFirst(t, keep) && Subseq(Filter(s, keep), Filter(t, keep))
    requires keep(x) && Passed(s, mark, x) && Unread(t, mark).Some?
    ensures x in t
    ensures Passed(t, mark, x) || MarkSettles(s, t, mark, keep)
  {
    FilterHolds(s, keep, x);
    SubseqIn(Filter(s, keep), Filter(t, keep), x);
    FilterHolds(t, keep, x);
    if mark.At? {
      if keep(From(s, mark.id).value[0]) {
        BehindKeptMark(s, t, mark.id, keep, x);
      } else if !keep(From(t, mark.id).value[0]) {
        AllOpen(t, mark.id, keep);
        FilterHolds(From(t, mark.id).value, keep, x);
      }
    }
  }

  lemma BehindKeptMark(s: seq<Task>, t: seq<Task>, id: string, keep: Task -> bool, x: Task)
    requires UniqueIds(t) && Subseq(Filter(s, keep), Filter(t, keep)) && keep(x) && x in s
    requires From(s, id).Some? && keep(From(s, id).value[0]) && x !in From(s, id).value
    ensures From(t, id).Some? && x !in From(t, id).value
  {
    KeptMarkStays(s, t, id, keep);
    FromFilter(s, keep, id);
    FilterUnique(t, keep);
    FilterHolds(s, keep, x);
    FilterHolds(From(s, id).value, keep, x);
    StaysBehind(Filter(s, keep), Filter(t, keep), id, x);
    FilterHolds(From(t, id).value, keep, x);
  }

  /** The marks a turn leaves are found in the mailboxes it read. */
  lemma MarksFound(r: Reader, h: History, k: nat)
    requires BoxedAt(h, k) && ServedAt(r, h, k) && PlaceAt(r, h, k + 1).Some?
    ensures var q := PlaceAt(r, h, k + 1).value; Unread(h(k).a, q.a).Some? && Unread(h(k).b, q.b).Some?
  {
    var place := PlaceAt(r, h, k).value;
    MarkFinds(h(k).a, place.a, r.p);
    MarkFinds(h(k).b, place.b, r.p);
  }

  ghost predicate PassedAt(r: Reader, h: History, k: nat, left: bool, t: Task) {
    PlaceAt(r, h, k).Some? && Passed(Side(h(k), left), MarkOn(PlaceAt(r, h, k).value, left), t)
  }

  ghost predicate Behind(x: Boxes, place: Place, t: Task) {
    Passed(x.a, place.a, t) || Passed(x.b, place.b, t)
  }

  /** The turn at `k` goes on to a new batch. */
  predicate GoesForward(r: Reader, h: History, k: nat) {
    ServedAt(r, h, k) && PlaceAt(r, h, k + 1).Some? && !PlaceAt(r, h, k + 1).value.half
  }

  lemma HalfComesFromSplit(r: Reader, h: History, j: nat)
    requires PlaceAt(r, h, j + 1).Some? && PlaceAt(r, h, j + 1).value.half
    ensures ServedAt(r, h, j)
    ensures var p, q := PlaceAt(r, h, j).value, PlaceAt(r, h, j + 1).value; p.a == q.a && p.b == q.b && !p.half
    ensures |BatchAt(r, h, j)| > r.p && WindowAt(r, h, j) == Take(BatchAt(r, h, j), r.p)
  {
  }

  lemma UnreadIsOfBox(box: seq<Task>, mark: Mark)
    requires Unread(box, mark).Some?
    ensures forall t | t in Unread(box, mark).value :: t in box
  {
    var u := Unread(box, mark).value;
    UnreadIsSuffix(box, mark);
    SuffixMeans(u, box);
    var n := |box| - |u|;
    forall t | t in u ensures t in box {
      var i :| 0 <= i < |u| && u[i] == t;
      assert box[n + i] == t;
    }
  }

  lemma SideLasts(h: History, keep: Task -> bool, k: nat, left: bool)
    requires LastsAt(h, keep, k)
    ensures var s, t := Side(h(k), left), Side(h(k + 1), left);
            && UniqueIds(s) && UniqueIds(t) && KeptFirst(s, keep) && KeptFirst(t, keep)
            && Subseq(Filter(s, keep), Filter(t, keep))
  {
    KeptAreFirst(h(k), keep);
    KeptAreFirst(h(k + 1), keep);
  }

  /** Where a turn leaves a mailbox, with what it leaves behind there. */
  lemma TurnLeaves(r: Reader, h: History, k: nat, left: bool, t: Task)
    requires BoxedAt(h, k) && ServedAt(r, h, k) && PlaceAt(r, h, k + 1).Some?
    requires
      || PassedAt(r, h, k, left, t)
      || (GoesForward(r, h, k) && t in Take(Unread(Side(h(k), left), MarkOn(PlaceAt(r, h, k).value, left)).value, r.p))
    ensures Passed(Side(h(k), left), MarkOn(PlaceAt(r, h, k + 1).value, left), t)
  {
    if GoesForward(r, h, k) {
      PassedOn(Side(h(k), left), MarkOn(PlaceAt(r, h, k).value, left), r.p, t);
    } else {
      HalfComesFromSplit(r, h, k);
    }
  }

  /** The reader goes on in a mailbox from a task that has come to last since the request before. */
  ghost predicate GoesOnFromSettled(r: Reader, h: History, keep: Task -> bool, k: nat, left: bool) {
    PlaceAt(r, h, k + 1).Some?
    && MarkSettles(Side(h(k), left), Side(h(k + 1), left), MarkOn(PlaceAt(r, h, k + 1).value, left), keep)
  }

  ghost predicate AheadOn(r: Reader, h: History, k: nat, left: bool, t: Task) {
    PlaceAt(r, h, k).Some? && AheadIn(Side(h(k), left), MarkOn(PlaceAt(r, h, k).value, left), t)
  }

  /** What a turn leaves behind is behind at the next request, unless that goes on from a task that has come to last. */
  lemma BehindOrSettled(r: Reader, h: History, keep: Task -> bool, k: nat, left: bool, t: Task)
    requires LastsAt(h, keep, k) && keep(t) && ServedAt(r, h, k) && ServedAt(r, h, k + 1)
    requires
      || PassedAt(r, h, k, left, t)
      || (GoesForward(r, h, k) && t in Take(Unread(Side(h(k), left), MarkOn(PlaceAt(r, h, k).value, left)).value, r.p))
    ensures PassedAt(r, h, k + 1, left, t) || (AheadOn(r, h, k + 1, left, t) && GoesOnFromSettled(r, h, keep, k, left))
  {
    TurnLeaves(r, h, k, left, t);
    SideLasts(h, keep, k, left);
    PassedLasts(Side(h(k), left), Side(h(k + 1), left), MarkOn(PlaceAt(r, h, k + 1).value, left), keep, t);
  }

  // Once

  /** No task that lasts is in it twice. */
  ghost predicate Once(s: seq<Task>, keep: Task -> bool) {
    forall t: Task | keep(t) :: multiset(s)[t] <= 1
  }

  lemma OnceTogether(s: seq<Task>, t: seq<Task>, keep: Task -> bool)
    ensures Once(s + t, keep) <==> Once(s, keep) && Once(t, keep) && forall x | x in s && keep(x) :: x !in t
  {
    assert multiset(s + t) == multiset(s) + multiset(t);
    assert forall x :: x in s <==> multiset(s)[x] > 0;
    assert forall x :: x in t <==> multiset(t)[x] > 0;
  }

  lemma BatchOnce(r: Reader, h: History, keep: Task -> bool, k: nat)
    requires LastsAt(h, keep, k) && KeptApartAt(h, keep, k) && ServedAt(r, h, k)
    ensures Once(BatchAt(r, h, k), keep)
  {
    var place := PlaceAt(r, h, k).value;
    var sa, sb := Unread(h(k).a, place.a).value, Unread(h(k).b, place.b).value;
    UnreadParts(h, keep, k, place);
    TakeNoRepeats(sa, r.p);
    TakeNoRepeats(sb, r.p);
    MergeOnce(Take(sa, r.p), Take(sb, r.p), keep);
  }

  lemma TakeNoRepeats(s: seq<Task>, n: nat)
    requires NoRepeats(s)
    ensures NoRepeats(Take(s, n)) && forall x | x in Take(s, n) :: x in s
  {
    assert s == Take(s, n) + Drop(s, n);
    TogetherNoRepeats(Take(s, n), Drop(s, n));
  }

  lemma MergeOnce(a: seq<Task>, b: seq<Task>, keep: Task -> bool)
    requires NoRepeats(a) && NoRepeats(b) && forall x | x in a && keep(x) :: x !in b
    ensures Once(Merge(a, b, NotOlder), keep)
  {
    MergeKeeps(a, b, NotOlder);
    CountsSayRepeats(a);
    CountsSayRepeats(b);
    assert forall x :: x in a <==> multiset(a)[x] > 0;
    assert forall x :: x in b <==> multiset(b)[x] > 0;
  }

  /** A window is a part of its batch, and of a half batch the part that is left. */
  lemma WindowIsPart(r: Reader, h: History, keep: Task -> bool, k: nat)
    requires LastsAt(h, keep, k) && KeptApartAt(h, keep, k) && ServedAt(r, h, k)
    ensures Once(WindowAt(r, h, k), keep)
    ensures forall t | t in WindowAt(r, h, k) :: t in BatchAt(r, h, k)
    ensures PlaceAt(r, h, k).value.half ==>
              forall t | t in WindowAt(r, h, k) && keep(t) :: t !in Take(BatchAt(r, h, k), r.p)
  {
    BatchOnce(r, h, keep, k);
    PartsOnce(BatchAt(r, h, k), r.p, keep);
  }

  lemma PartsOnce(m: seq<Task>, p: nat, keep: Task -> bool)
    requires Once(m, keep)
    ensures Once(Take(m, p), keep) && Once(Drop(m, p), keep)
    ensures forall t | t in Take(m, p) || t in Drop(m, p) :: t in m
    ensures forall t | t in Drop(m, p) && keep(t) :: t !in Take(m, p)
  {
    assert m == Take(m, p) + Drop(m, p);
    OnceTogether(Take(m, p), Drop(m, p), keep);
  }

  // The two cases

  /** The page handed out with request `k` has lost a lasting task when it is fetched again. */
  ghost predicate LosesPage(r: Reader, h: History, keep: Task -> bool, k: nat) {
    && PlaceAt(r, h, k + 1).Some? && PlaceAt(r, h, k + 1).value.half
    && exists t | t in Take(BatchAt(r, h, k), r.p) :: keep(t) && t !in Take(BatchAt(r, h, k + 1), r.p)
  }

  /** `t` stands in the mailbox at the named task or behind it. */
  ghost predicate StandsBehind(box: seq<Task>, id: string, t: Task) {
    From(box, id).Some? && t in From(box, id).value
  }

  /** Request `k` is for the second half of a batch, and skips `t` with the first. */
  ghost predicate Skips(r: Reader, h: History, k: nat, t: Task) {
    PlaceAt(r, h, k).Some? && PlaceAt(r, h, k).value.half && t in Take(BatchAt(r, h, k), r.p)
  }

  /**
   After request `k` the reader goes on from a task that has come to last in front of a lasting one
   already handed out, in the same mailbox; one skipped with the first half of a batch aside.
   */
  ghost predicate StartsOver(r: Reader, h: History, keep: Task -> bool, k: nat) {
    exists left: bool, t: Task | t in Handed(r, h, 0, k + 1) && keep(t) ::
      && GoesOnFromSettled(r, h, keep, k, left)
      && StandsBehind(Side(h(k + 1), left), MarkOn(PlaceAt(r, h, k + 1).value, left).id, t)
      && !Skips(r, h, k + 1, t)
  }

  ghost predicate DoneWith(handed: seq<Task>, x: Boxes, place: Place, skipped: seq<Task>, keep: Task -> bool) {
    forall t | t in handed && keep(t) :: Behind(x, place, t) || (place.half && t in skipped)
  }

  /** At request `k`: no lasting task twice so far, and each behind, or in the half batch about to be skipped. */
  ghost predicate CleanAt(r: Reader, h: History, keep: Task -> bool, k: nat) {
    && PlaceAt(r, h, k).Some?
    && Once(Handed(r, h, 0, k), keep)
    && DoneWith(Handed(r, h, 0, k), h(k), PlaceAt(r, h, k).value, Take(BatchAt(r, h, k), r.p), keep)
  }

  /** What is behind is not fetched. */
  lemma BehindIsNotFetched(r: Reader, h: History, keep: Task -> bool, k: nat, t: Task)
    requires LastsAt(h, keep, k) && KeptApartAt(h, keep, k) && ServedAt(r, h, k)
    requires keep(t) && Behind(h(k), PlaceAt(r, h, k).value, t)
    ensures t !in BatchAt(r, h, k)
  {
    var place := PlaceAt(r, h, k).value;
    var sa, sb := Unread(h(k).a, place.a).value, Unread(h(k).b, place.b).value;
    BatchHolds(r, sa, sb, t);
    InTakeOrDrop(sa, r.p, t);
    InTakeOrDrop(sb, r.p, t);
    UnreadIsOfBox(h(k).a, place.a);
    UnreadIsOfBox(h(k).b, place.b);
  }

  lemma WindowIsNew(r: Reader, h: History, keep: Task -> bool, k: nat)
    requires LastsAt(h, keep, k) && KeptApartAt(h, keep, k) && ServedAt(r, h, k) && CleanAt(r, h, keep, k)
    ensures Once(Handed(r, h, 0, k + 1), keep)
  {
    WindowIsPart(r, h, keep, k);
    forall t | t in Handed(r, h, 0, k) && keep(t) ensures t !in WindowAt(r, h, k) {
      if Behind(h(k), PlaceAt(r, h, k).value, t) {
        BehindIsNotFetched(r, h, keep, k, t);
      }
    }
    OnceTogether(Handed(r, h, 0, k), WindowAt(r, h, k), keep);
  }

  /** If a batch has been handed out whole, each task of it is left behind. */
  lemma FetchedIsPassed(r: Reader, h: History, keep: Task -> bool, k: nat, t: Task) returns (left: bool)
    requires LastsAt(h, keep, k) && keep(t) && ServedAt(r, h, k)
    requires Behind(h(k), PlaceAt(r, h, k).value, t) || (GoesForward(r, h, k) && t in BatchAt(r, h, k))
    ensures
      || PassedAt(r, h, k, left, t)
      || (GoesForward(r, h, k) && t in Take(Unread(Side(h(k), left), MarkOn(PlaceAt(r, h, k).value, left)).value, r.p))
  {
    var place := PlaceAt(r, h, k).value;
    var sa, sb := Unread(h(k).a, place.a).value, Unread(h(k).b, place.b).value;
    BatchHolds(r, sa, sb, t);
    left := Passed(h(k).a, place.a, t) || (!Passed(h(k).b, place.b, t) && t in Take(sa, r.p));
  }

  lemma DoneStaysDone(r: Reader, h: History, keep: Task -> bool, k: nat, t: Task)
    requires LastsAt(h, keep, k) && keep(t) && ServedAt(r, h, k) && ServedAt(r, h, k + 1)
    requires t in Handed(r, h, 0, k + 1) && !StartsOver(r, h, keep, k)
    requires Behind(h(k), PlaceAt(r, h, k).value, t) || (GoesForward(r, h, k) && t in BatchAt(r, h, k))
    ensures var next := PlaceAt(r, h, k + 1).value;
            Behind(h(k + 1), next, t) || (next.half && t in Take(BatchAt(r, h, k + 1), r.p))
  {
    var left := FetchedIsPassed(r, h, keep, k, t);
    BehindOrSettled(r, h, keep, k, left, t);
    if !PassedAt(r, h, k + 1, left, t) {
      assert StandsBehind(Side(h(k + 1), left), MarkOn(PlaceAt(r, h, k + 1).value, left).id, t);
      assert Skips(r, h, k + 1, t);
    }
  }

  lemma CleanStep(r: Reader, h: History, keep: Task -> bool, k: nat)
    requires LastsAt(h, keep, k) && KeptApartAt(h, keep, k) && ServedAt(r, h, k) && ServedAt(r, h, k + 1)
    requires CleanAt(r, h, keep, k) && !LosesPage(r, h, keep, k) && !StartsOver(r, h, keep, k)
    ensures CleanAt(r, h, keep, k + 1)
  {
    var next := PlaceAt(r, h, k + 1).value;
    WindowIsNew(r, h, keep, k);
    WindowIsPart(r, h, keep, k);
    var handed := Handed(r, h, 0, k + 1);
    forall t | t in handed && keep(t)
      ensures Behind(h(k + 1), next, t) || (next.half && t in Take(BatchAt(r, h, k + 1), r.p))
    {
      assert t in Handed(r, h, 0, k) || t in WindowAt(r, h, k);
      if Behind(h(k), PlaceAt(r, h, k).value, t) || (GoesForward(r, h, k) && t in BatchAt(r, h, k)) {
        DoneStaysDone(r, h, keep, k, t);
      } else {
        HalfComesFromSplit(r, h, k);
      }
    }
  }

  ghost predicate CleanTurn(r: Reader, h: History, keep: Task -> bool, k: nat) {
    !LosesPage(r, h, keep, k) && !StartsOver(r, h, keep, k)
  }

  ghost predicate CleanUpTo(r: Reader, h: History, keep: Task -> bool, n: nat) {
    forall k: nat | k + 1 < n :: CleanTurn(r, h, keep, k)
  }

  lemma ServedTwice(r: Reader, h: History, k: nat, n: nat)
    requires Finished(r, h, n) && k + 1 < n
    ensures ServedAt(r, h, k) && ServedAt(r, h, k + 1)
  {
    ServedBefore(r, h, k, n);
    ServedBefore(r, h, k + 1, n);
  }

  lemma LastsHere(h: History, keep: Task -> bool, k: nat)
    requires Lasting(h, keep) && KeptApart(h, keep)
    ensures LastsAt(h, keep, k) && KeptApartAt(h, keep, k)
  {
  }

  lemma CleanOn(r: Reader, h: History, keep: Task -> bool, k: nat, n: nat)
    requires Lasting(h, keep) && KeptApart(h, keep) && Finished(r, h, n) && k + 1 < n
    requires CleanUpTo(r, h, keep, n) && CleanAt(r, h, keep, k)
    ensures CleanAt(r, h, keep, k + 1)
  {
    ServedTwice(r, h, k, n);
    LastsHere(h, keep, k);
    assert CleanTurn(r, h, keep, k);
    CleanStep(r, h, keep, k);
  }

  lemma {:induction false} CleanAlong(r: Reader, h: History, keep: Task -> bool, j: nat, k: nat, n: nat)
    requires Lasting(h, keep) && KeptApart(h, keep) && Finished(r, h, n) && j <= k < n
    requires CleanUpTo(r, h, keep, n) && CleanAt(r, h, keep, j)
    ensures CleanAt(r, h, keep, k)
    decreases k - j
  {
    if j < k {
      CleanOn(r, h, keep, j, n);
      CleanAlong(r, h, keep, j + 1, k, n);
    }
  }

  lemma {:induction false} JoinedSplits(windows: nat -> seq<Task>, j: nat, i: nat, k: nat)
    requires j <= i <= k
    ensures Joined(windows, j, k) == Joined(windows, j, i) + Joined(windows, i, k)
    decreases k
  {
    if i < k {
      JoinedSplits(windows, j, i, k - 1);
      Regroup(Joined(windows, j, i), Joined(windows, i, k - 1), windows(k - 1));
    }
  }

  /** A task handed out that is due again comes again. */
  lemma DueAgain(r: Reader, h: History, keep: Task -> bool, k: nat, n: nat, t: Task)
    requires Lasting(h, keep) && KeptApart(h, keep) && Finished(r, h, n) && k < n
    requires keep(t) && t in Handed(r, h, 0, k) && Due(r, h, k, t)
    ensures !Once(Handed(r, h, 0, n), keep)
  {
    DueIsHanded(r, h, keep, k, n, t);
    JoinedSplits(Windows(r, h), 0, k, n);
    OnceTogether(Handed(r, h, 0, k), Handed(r, h, k, n), keep);
  }

  lemma LostIsDue(r: Reader, h: History, keep: Task -> bool, k: nat) returns (t: Task)
    requires LastsAt(h, keep, k) && LosesPage(r, h, keep, k)
    ensures keep(t) && t in Handed(r, h, 0, k + 1) && Due(r, h, k + 1, t)
  {
    t :| t in Take(BatchAt(r, h, k), r.p) && keep(t) && t !in Take(BatchAt(r, h, k + 1), r.p);
    HalfComesFromSplit(r, h, k);
    WindowIsHanded(r, h, 0, k, k + 1, t);
    var place := PlaceAt(r, h, k).value;
    var sa, sb := Unread(h(k).a, place.a).value, Unread(h(k).b, place.b).value;
    InTakeOrDrop(BatchAt(r, h, k), r.p, t);
    BatchHolds(r, sa, sb, t);
    InTakeOrDrop(sa, r.p, t);
    InTakeOrDrop(sb, r.p, t);
    AheadLastsAt(h, keep, k, place, t);
  }

  lemma CleanIsOnce(r: Reader, h: History, keep: Task -> bool, n: nat)
    requires Lasting(h, keep) && KeptApart(h, keep) && Finished(r, h, n) && CleanUpTo(r, h, keep, n)
    ensures Once(Handed(r, h, 0, n), keep)
  {
    var last: nat := n - 1;
    assert CleanAt(r, h, keep, 0);
    CleanAlong(r, h, keep, 0, last, n);
    assert LastsAt(h, keep, last) && KeptApartAt(h, keep, last);
    WindowIsNew(r, h, keep, last);
  }

  lemma NotCleanIsDue(r: Reader, h: History, keep: Task -> bool, k: nat) returns (t: Task)
    requires LastsAt(h, keep, k) && !CleanTurn(r, h, keep, k)
    ensures keep(t) && t in Handed(r, h, 0, k + 1) && Due(r, h, k + 1, t)
  {
    if LosesPage(r, h, keep, k) {
      t := LostIsDue(r, h, keep, k);
    } else {
      var left: bool, u: Task :|
        && u in Handed(r, h, 0, k + 1) && keep(u) && GoesOnFromSettled(r, h, keep, k, left)
        && StandsBehind(Side(h(k + 1), left), MarkOn(PlaceAt(r, h, k + 1).value, left).id, u)
        && !Skips(r, h, k + 1, u);
      assert AheadOn(r, h, k + 1, left, u);
      t := u;
    }
  }

  lemma NotCleanIsTwice(r: Reader, h: History, keep: Task -> bool, k: nat, n: nat)
    requires Lasting(h, keep) && KeptApart(h, keep) && Finished(r, h, n) && k + 1 < n && !CleanTurn(r, h, keep, k)
    ensures !Once(Handed(r, h, 0, n), keep)
  {
    assert LastsAt(h, keep, k);
    var t := NotCleanIsDue(r, h, keep, k);
    DueAgain(r, h, keep, k + 1, n, t);
  }

  /**
   No lasting task is handed out twice if and only if no page fetched again has lost one, and no
   request goes on from a task that has come to last in front of one already handed out.
   */
  lemma OnceIff(r: Reader, h: History, keep: Task -> bool, n: nat)
    requires Lasting(h, keep) && KeptApart(h, keep) && Finished(r, h, n)
    ensures Once(Handed(r, h, 0, n), keep) <==> CleanUpTo(r, h, keep, n)
  {
    if CleanUpTo(r, h, keep, n) {
      CleanIsOnce(r, h, keep, n);
    } else {
      var k: nat :| k + 1 < n && !CleanTurn(r, h, keep, k);
      NotCleanIsTwice(r, h, keep, k, n);
    }
  }

  // Readings that go on from lasting tasks only

  ghost predicate SureMark(box: seq<Task>, mark: Mark, keep: Task -> bool) {
    mark.At? && From(box, mark.id).Some? ==> keep(From(box, mark.id).value[0])
  }

  /** Where request `k` leaves the reader names no task that does not last yet. */
  ghost predicate SureAt(r: Reader, h: History, keep: Task -> bool, k: nat) {
    PlaceAt(r, h, k + 1).Some? ==>
      SureMark(h(k).a, PlaceAt(r, h, k + 1).value.a, keep) && SureMark(h(k).b, PlaceAt(r, h, k + 1).value.b, keep)
  }

  ghost predicate Sure(r: Reader, h: History, keep: Task -> bool, n: nat) {
    forall k: nat | k + 1 < n :: SureAt(r, h, keep, k)
  }

  lemma SureMarkLasts(s: seq<Task>, t: seq<Task>, mark: Mark, keep: Task -> bool)
    requires UniqueIds(t) && Subseq(Filter(s, keep), Filter(t, keep)) && Unread(s, mark).Some? && SureMark(s, mark, keep)
    ensures Unread(t, mark).Some? && SureMark(t, mark, keep) && !MarkSettles(s, t, mark, keep)
  {
    if mark.At? {
      KeptMarkStays(s, t, mark.id, keep);
    }
  }

  /** A request that goes on from lasting tasks is served. */
  lemma SureIsServed(r: Reader, h: History, keep: Task -> bool, k: nat)
    requires LastsAt(h, keep, k) && PlaceAt(r, h, k + 1).Some? && SureAt(r, h, keep, k)
    ensures ServedAt(r, h, k + 1) && !GoesOnFromSettled(r, h, keep, k, true) && !GoesOnFromSettled(r, h, keep, k, false)
    ensures var q := PlaceAt(r, h, k + 1).value; SureMark(h(k + 1).a, q.a, keep) && SureMark(h(k + 1).b, q.b, keep)
  {
    PlacesBefore(r, h, k, k + 1);
    MarksFound(r, h, k);
    SureMarksLast(h, keep, k, PlaceAt(r, h, k + 1).value);
  }

  lemma SureMarksLast(h: History, keep: Task -> bool, k: nat, q: Place)
    requires LastsAt(h, keep, k) && Unread(h(k).a, q.a).Some? && Unread(h(k).b, q.b).Some?
    requires SureMark(h(k).a, q.a, keep) && SureMark(h(k).b, q.b, keep)
    ensures Unread(h(k + 1).a, q.a).Some? && Unread(h(k + 1).b, q.b).Some?
    ensures SureMark(h(k + 1).a, q.a, keep) && SureMark(h(k + 1).b, q.b, keep)
    ensures !MarkSettles(h(k).a, h(k + 1).a, q.a, keep) && !MarkSettles(h(k).b, h(k + 1).b, q.b, keep)
  {
    SureMarkLasts(h(k).a, h(k + 1).a, q.a, keep);
    SureMarkLasts(h(k).b, h(k + 1).b, q.b, keep);
  }

  lemma SureStaysOn(r: Reader, h: History, keep: Task -> bool, k: nat)
    requires LastsAt(h, keep, k) && SureAt(r, h, keep, k)
    ensures !StartsOver(r, h, keep, k)
  {
    if PlaceAt(r, h, k + 1).Some? {
      SureIsServed(r, h, keep, k);
    }
  }

  /** Then nothing that lasts comes twice, unless a page fetched again has lost some of it. */
  lemma SureOnceIff(r: Reader, h: History, keep: Task -> bool, n: nat)
    requires Lasting(h, keep) && KeptApart(h, keep) && Finished(r, h, n) && Sure(r, h, keep, n)
    ensures Once(Handed(r, h, 0, n), keep) <==> forall k: nat | k + 1 < n :: !LosesPage(r, h, keep, k)
  {
    OnceIff(r, h, keep, n);
    forall k: nat | k + 1 < n ensures CleanTurn(r, h, keep, k) <==> !LosesPage(r, h, keep, k) {
      assert LastsAt(h, keep, k) && SureAt(r, h, keep, k);
      SureStaysOn(r, h, keep, k);
    }
  }

  lemma SurePasses(r: Reader, h: History, keep: Task -> bool, k: nat, left: bool, t: Task)
    requires LastsAt(h, keep, k) && keep(t) && ServedAt(r, h, k) && PlaceAt(r, h, k + 1).Some? && SureAt(r, h, keep, k)
    requires
      || PassedAt(r, h, k, left, t)
      || (GoesForward(r, h, k) && t in Take(Unread(Side(h(k), left), MarkOn(PlaceAt(r, h, k).value, left)).value, r.p))
    ensures PassedAt(r, h, k + 1, left, t)
  {
    SureIsServed(r, h, keep, k);
    BehindOrSettled(r, h, keep, k, left, t);
  }

  lemma OnBefore(r: Reader, h: History, j: nat, k: nat)
    requires j < k && PlaceAt(r, h, k).Some?
    ensures ServedAt(r, h, j) && PlaceAt(r, h, j + 1).Some?
  {
    PlacesBefore(r, h, j, k);
    PlacesBefore(r, h, j + 1, k);
  }

  lemma SureBefore(r: Reader, h: History, keep: Task -> bool, j: nat, k: nat)
    requires Lasting(h, keep) && Sure(r, h, keep, k + 1) && j < k
    ensures LastsAt(h, keep, j) && SureAt(r, h, keep, j)
  {
  }

  lemma PassedOneMore(r: Reader, h: History, keep: Task -> bool, j: nat, k: nat, left: bool, t: Task)
    requires Lasting(h, keep) && Sure(r, h, keep, k + 1) && keep(t)
    requires j < k && PlaceAt(r, h, k).Some? && PassedAt(r, h, j, left, t)
    ensures PassedAt(r, h, j + 1, left, t)
  {
    OnBefore(r, h, j, k);
    SureBefore(r, h, keep, j, k);
    SurePasses(r, h, keep, j, left, t);
  }

  lemma {:induction false} PassedForGood(r: Reader, h: History, keep: Task -> bool, j: nat, k: nat, left: bool, t: Task)
    requires Lasting(h, keep) && Sure(r, h, keep, k + 1) && keep(t)
    requires j <= k && PlaceAt(r, h, k).Some? && PassedAt(r, h, j, left, t)
    ensures PassedAt(r, h, k, left, t)
    decreases k - j
  {
    if j < k {
      PassedOneMore(r, h, keep, j, k, left, t);
      PassedForGood(r, h, keep, j + 1, k, left, t);
    }
  }

  // No place comes twice

  lemma StaysStarted(r: Reader, h: History, k: nat)
    requires ServedAt(r, h, k) && !PlaceAt(r, h, k).value.a.Start? && PlaceAt(r, h, k + 1).Some?
    ensures !PlaceAt(r, h, k + 1).value.a.Start?
  {
  }

  lemma {:induction false} NeverStartsAgain(r: Reader, h: History, j: nat, k: nat)
    requires j <= k && PlaceAt(r, h, j).Some? && !PlaceAt(r, h, j).value.a.Start? && PlaceAt(r, h, k).Some?
    ensures !PlaceAt(r, h, k).value.a.Start?
    decreases k - j
  {
    if j < k {
      PlacesBefore(r, h, j, k);
      PlacesBefore(r, h, j + 1, k);
      StaysStarted(r, h, j);
      NeverStartsAgain(r, h, j + 1, k);
    }
  }

  /** The task a turn begins with is behind once the turn goes forward. */
  lemma FirstIsPassed(r: Reader, h: History, keep: Task -> bool, i: nat, left: bool)
    requires LastsAt(h, keep, i) && GoesForward(r, h, i) && SureAt(r, h, keep, i)
    requires MarkOn(PlaceAt(r, h, i).value, left).At?
    requires SureMark(Side(h(i), left), MarkOn(PlaceAt(r, h, i).value, left), keep)
    ensures var u := Unread(Side(h(i), left), MarkOn(PlaceAt(r, h, i).value, left));
            u.Some? && u.value != [] && keep(u.value[0]) && PassedAt(r, h, i + 1, left, u.value[0])
            && MarkOn(PlaceAt(r, h, i).value, left) == At(u.value[0].id)
  {
    var u := Unread(Side(h(i), left), MarkOn(PlaceAt(r, h, i).value, left)).value;
    assert Take(u, r.p)[0] == u[0];
    SurePasses(r, h, keep, i, left, u[0]);
  }

  /** Once a turn goes forward, no later place has both its marks again. */
  lemma MarksAreBehind(r: Reader, h: History, keep: Task -> bool, i: nat, k: nat)
    requires Lasting(h, keep) && Sure(r, h, keep, k + 1) && GoesForward(r, h, i) && i < k && PlaceAt(r, h, k).Some?
    ensures var p, q := PlaceAt(r, h, i).value, PlaceAt(r, h, k).value; p.a != q.a || p.b != q.b
  {
    var p := PlaceAt(r, h, i).value;
    PlacesAreProper(r, h, i);
    if p.a.Start? {
      NeverStartsAgain(r, h, i + 1, k);
    } else {
      MarkIsBehind(r, h, keep, i, k, p.a.At?);
    }
  }

  lemma MarkIsBehind(r: Reader, h: History, keep: Task -> bool, i: nat, k: nat, left: bool)
    requires Lasting(h, keep) && Sure(r, h, keep, k + 1) && GoesForward(r, h, i) && 0 < i < k && PlaceAt(r, h, k).Some?
    requires MarkOn(PlaceAt(r, h, i).value, left).At?
    ensures MarkOn(PlaceAt(r, h, k).value, left) != MarkOn(PlaceAt(r, h, i).value, left)
  {
    var j: nat := i - 1;
    assert LastsAt(h, keep, j) && LastsAt(h, keep, i) && LastsAt(h, keep, k);
    assert SureAt(r, h, keep, j) && SureAt(r, h, keep, i);
    SureIsServed(r, h, keep, j);
    FirstIsPassed(r, h, keep, i, left);
    var t := Unread(Side(h(i), left), MarkOn(PlaceAt(r, h, i).value, left)).value[0];
    PassedForGood(r, h, keep, i + 1, k, left, t);
    PassedIsNotMark(Side(h(k), left), MarkOn(PlaceAt(r, h, k).value, left), t);
  }

  /** A turn that does not go forward is followed by one that does, from the same marks. */
  lemma HalfGoesForward(r: Reader, h: History, j: nat)
    requires ServedAt(r, h, j) && !GoesForward(r, h, j) && PlaceAt(r, h, j + 1).Some? && PlaceAt(r, h, j + 2).Some?
    ensures GoesForward(r, h, j + 1)
    ensures var p, q := PlaceAt(r, h, j).value, PlaceAt(r, h, j + 1).value; p.a == q.a && p.b == q.b && !p.half && q.half
  {
    PlacesBefore(r, h, j + 1, j + 2);
  }

  lemma HalfIsNext(r: Reader, h: History, j: nat)
    requires PlaceAt(r, h, j).Some? && PlaceAt(r, h, j + 1).Some? && !GoesForward(r, h, j)
    ensures PlaceAt(r, h, j) != PlaceAt(r, h, j + 1)
  {
    PlacesBefore(r, h, j, j + 1);
    HalfComesFromSplit(r, h, j);
  }

  /** The places of a reading that goes on from lasting tasks are all different. */
  lemma PlacesAreFresh(r: Reader, h: History, keep: Task -> bool, j: nat, k: nat)
    requires Lasting(h, keep) && Sure(r, h, keep, k + 1) && j < k && PlaceAt(r, h, j).Some? && PlaceAt(r, h, k).Some?
    ensures PlaceAt(r, h, j) != PlaceAt(r, h, k)
  {
    if GoesForward(r, h, j) {
      MarksAreBehind(r, h, keep, j, k);
    } else if j + 1 < k {
      HalfIsFresh(r, h, keep, j, k);
    } else {
      HalfIsNext(r, h, j);
    }
  }

  lemma HalfIsFresh(r: Reader, h: History, keep: Task -> bool, j: nat, k: nat)
    requires Lasting(h, keep) && Sure(r, h, keep, k + 1) && j + 1 < k && PlaceAt(r, h, j).Some? && PlaceAt(r, h, k).Some?
    requires !GoesForward(r, h, j)
    ensures PlaceAt(r, h, j) != PlaceAt(r, h, k)
  {
    assert ServedAt(r, h, j) && PlaceAt(r, h, j + 1).Some? && PlaceAt(r, h, j + 2).Some? by {
      PlacesBefore(r, h, j, k);
      PlacesBefore(r, h, j + 1, k);
      PlacesBefore(r, h, j + 2, k);
    }
    HalfGoesForward(r, h, j);
    MarksAreBehind(r, h, keep, j + 1, k);
  }

  /** Then no token is empty before the end or handed out twice: the client's repeat guard never fires. */
  lemma TokensAreFresh(r: Reader, h: History, keep: Task -> bool, n: nat)
    requires r.Valid() && Lasting(h, keep) && Sure(r, h, keep, n) && forall k | 0 <= k < n :: PlaceAt(r, h, k).Some?
    ensures FreshTokens(ServerOf(r, h), n)
  {
    LastingIsBoxed(h, keep);
    forall k | 0 < k < n
      ensures TokenAt(ServerOf(r, h), k) != ""
      ensures forall j | 0 < j < k :: TokenAt(ServerOf(r, h), j) != TokenAt(ServerOf(r, h), k)
    {
      TokenOfPlace(r, h, k);
      forall j | 0 < j < k ensures TokenAt(ServerOf(r, h), j) != TokenAt(ServerOf(r, h), k) {
        TokensTellPlaces(r, h, j, k);
        SureOfFewer(r, h, keep, k + 1, n);
        PlacesAreFresh(r, h, keep, j, k);
      }
    }
  }

  lemma SureOfFewer(r: Reader, h: History, keep: Task -> bool, m: nat, n: nat)
    requires m <= n && Sure(r, h, keep, n)
    ensures Sure(r, h, keep, m)
  {
    forall k: nat | k + 1 < m ensures SureAt(r, h, keep, k) {
      assert k + 1 < n;
    }
  }
}
