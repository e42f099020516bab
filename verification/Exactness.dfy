/**
 Reading while tasks only arrive, anywhere in either mailbox: no request is refused, and exactly when
 something is handed out twice or is not what was there at the beginning.
 */
module Exactness {
  import opened Accounts
  import opened Arrivals
  import opened Paging
  import opened Places
  import opened Repeats
  import opened Sorting
  import opened Tasks

  function Every(): Task -> bool {
    (t: Task) => true
  }

  /** Nothing leaves and nothing changes its order; tasks may arrive anywhere. */
  ghost predicate GainsAt(h: History, k: nat) {
    && BoxedAt(h, k) && BoxedAt(h, k + 1)
    && Subseq(h(k).a, h(k + 1).a) && Subseq(h(k).b, h(k + 1).b)
  }

  ghost predicate Gaining(h: History) {
    forall k: nat :: GainsAt(h, k)
  }

  ghost predicate ApartAt(h: History, k: nat) {
    forall s, t | s in h(k).a && t in h(k).b :: s.id != t.id
  }

  /** No task is in both mailboxes at once. */
  ghost predicate Apart(h: History) {
    forall k: nat :: ApartAt(h, k)
  }

  lemma ApartKeeps(h: History)
    requires Apart(h)
    ensures KeptApart(h, Every())
  {
    forall k: nat ensures KeptApartAt(h, Every(), k) {
      assert ApartAt(h, k);
    }
  }

  lemma AllKept(s: seq<Task>)
    ensures Filter(s, Every()) == s
  {
    FilterAll(s, Every());
  }

  lemma GainingLasts(h: History)
    requires Gaining(h)
    ensures Lasting(h, Every()) && Boxed(h)
  {
    forall k: nat ensures LastsAt(h, Every(), k) {
      assert GainsAt(h, k) && GainsAt(h, k + 1);
      AllKept(h(k).a);
      AllKept(h(k).b);
      AllKept(h(k + 1).a);
      AllKept(h(k + 1).b);
    }
    LastingIsBoxed(h, Every());
  }

  // One mailbox

  lemma UnreadGains(s: seq<Task>, t: seq<Task>, mark: Mark)
    requires UniqueIds(t) && Subseq(s, t) && Unread(s, mark).Some?
    ensures Unread(t, mark).Some? && Subseq(Unread(s, mark).value, Unread(t, mark).value)
  {
    if mark.At? {
      SubseqFrom(s, t, mark.id);
    }
  }

  lemma PassedStays(s: seq<Task>, t: seq<Task>, mark: Mark, x: Task)
    requires Subseq(s, t) && UniqueIds(t) && Passed(s, mark, x)
    ensures Passed(t, mark, x)
  {
    SubseqIn(s, t, x);
    if mark.At? {
      StaysBehind(s, t, mark.id, x);
    }
  }

  // On from what is there

  lemma GainingIsSure(r: Reader, h: History, n: nat)
    requires Gaining(h)
    ensures Sure(r, h, Every(), n)
  {
  }

  /** While tasks only arrive no request is refused. */
  lemma NeverRefused(r: Reader, h: History, k: nat)
    requires Gaining(h) && PlaceAt(r, h, k).Some?
    ensures var place := PlaceAt(r, h, k).value;
            Unread(h(k).a, place.a).Some? && Unread(h(k).b, place.b).Some?
    ensures ServedAt(r, h, k)
  {
    if k > 0 {
      var j: nat := k - 1;
      GainingLasts(h);
      assert LastsAt(h, Every(), j);
      SureIsServed(r, h, Every(), j);
    }
  }

  // What is handed out twice

  /** The half batch a refetch skips is the one that was handed out. */
  ghost predicate Undisturbed(r: Reader, h: History, k: nat) {
    PlaceAt(r, h, k).Some? && PlaceAt(r, h, k).value.half ==>
      k > 0 && Take(BatchAt(r, h, k), r.p) == Take(BatchAt(r, h, k - 1), r.p)
  }

  /** A fetched batch holds no task twice and none that is behind the reader. */
  lemma BatchIsFresh(r: Reader, h: History, k: nat)
    requires Gaining(h) && Apart(h) && PlaceAt(r, h, k).Some?
    ensures NoRepeats(BatchAt(r, h, k))
    ensures forall t | t in BatchAt(r, h, k) :: AheadAt(h(k), PlaceAt(r, h, k).value, t)
    ensures forall t | Behind(h(k), PlaceAt(r, h, k).value, t) :: t !in BatchAt(r, h, k)
  {
    var place := PlaceAt(r, h, k).value;
    NeverRefused(r, h, k);
    GainingLasts(h);
    assert LastsAt(h, Every(), k) && ApartAt(h, k);
    UnreadParts(h, Every(), k, place);
    var sa, sb := Unread(h(k).a, place.a).value, Unread(h(k).b, place.b).value;
    UnreadIsOfBox(h(k).a, place.a);
    UnreadIsOfBox(h(k).b, place.b);
    MergeNoRepeats(Take(sa, r.p), Take(sb, r.p));
    forall t: Task ensures t in BatchAt(r, h, k) <==> t in Take(sa, r.p) || t in Take(sb, r.p) {
      BatchHolds(r, sa, sb, t);
    }
  }

  ghost predicate UndisturbedUpTo(r: Reader, h: History, n: nat) {
    forall k | 0 <= k < n :: Undisturbed(r, h, k)
  }

  lemma SameSize(s: seq<Task>, t: seq<Task>)
    requires NoRepeats(s) && NoRepeats(t) && |s| >= |t| && forall x | x in s :: x in t
    ensures forall x | x in t :: x in s
  {
    CountsSayRepeats(s);
    CountsSayRepeats(t);
    assert forall x: Task :: multiset(s)[x] <= multiset(t)[x] by {
      forall x: Task ensures multiset(s)[x] <= multiset(t)[x] {
        if x in s { assert x in multiset(t); } else { assert x !in multiset(s); }
      }
    }
    MultisetsMeet(multiset(s), multiset(t));
    assert |multiset(s)| == |s| && |multiset(t)| == |t|;
    forall x | x in t ensures x in s {
      assert x in multiset(t);
    }
  }

  lemma SamePage(m0: seq<Task>, m1: seq<Task>, p: nat)
    requires NoRepeats(m0) && NoRepeats(m1) && |m0| > p && forall x | x in Take(m0, p) :: x in Take(m1, p)
    ensures forall x | x in Take(m1, p) :: x in Take(m0, p)
  {
    assert m0 == Take(m0, p) + Drop(m0, p) && m1 == Take(m1, p) + Drop(m1, p);
    TogetherNoRepeats(Take(m0, p), Drop(m0, p));
    TogetherNoRepeats(Take(m1, p), Drop(m1, p));
    SameSize(Take(m0, p), Take(m1, p));
  }

  ghost predicate Within(s: seq<Task>, t: seq<Task>) {
    forall x | x in s :: x in t
  }

  lemma PageKept(r: Reader, h: History, j: nat)
    requires Gaining(h) && Apart(h) && PlaceAt(r, h, j + 1).Some? && PlaceAt(r, h, j + 1).value.half
    requires Within(Take(BatchAt(r, h, j), r.p), Take(BatchAt(r, h, j + 1), r.p))
    ensures Undisturbed(r, h, j + 1)
  {
    var m0, m1, p, q := BatchAt(r, h, j), BatchAt(r, h, j + 1), PlaceAt(r, h, j).value, PlaceAt(r, h, j + 1).value;
    HalfComesFromSplit(r, h, j);
    BatchIsFresh(r, h, j);
    BatchIsFresh(r, h, j + 1);
    SamePage(m0, m1, r.p);
    forall x | x in Take(m1, r.p) ensures AheadAt(h(j), q, x) {
      assert x in Take(m0, r.p);
      assert x in m0;
      assert AheadAt(h(j), p, x);
    }
    assert AllAhead(Take(m1, r.p), h(j), q);
    FrontsAgree(r, h, j);
  }

  lemma FrontsOfMerges(u: seq<Task>, w: seq<Task>, u': seq<Task>, w': seq<Task>, p: nat)
    requires Subseq(u, u') && Subseq(w, w') && Sorted(u', NotOlder) && Sorted(w', NotOlder)
    requires NoRepeats(u') && NoRepeats(w') && forall x | x in u' :: x !in w'
    requires forall x | x in Take(Merge(u', w', NotOlder), p) :: x in u || x in w
    ensures Take(Merge(u', w', NotOlder), p) == Take(Merge(u, w, NotOlder), p)
  {
    NotOlderOrders();
    SubseqOfMerge(u, w, u', w', NotOlder);
    MergeNoRepeats(u', w');
    forall x | x in Take(Merge(u', w', NotOlder), p) ensures x in Merge(u, w, NotOlder) {
      MergeHolds(u, w, x);
    }
    SameFront(Merge(u, w, NotOlder), Merge(u', w', NotOlder), p);
  }

  ghost predicate AllAhead(s: seq<Task>, x: Boxes, place: Place) {
    forall t | t in s :: AheadAt(x, place, t)
  }

  lemma FrontsOfBatches(r: Reader, h: History, j: nat, place: Place)
    requires GainsAt(h, j) && GainsAt(h, j + 1) && ApartAt(h, j + 1)
    requires Unread(h(j).a, place.a).Some? && Unread(h(j).b, place.b).Some?
    requires Unread(h(j + 1).a, place.a).Some? && Unread(h(j + 1).b, place.b).Some?
    requires var m := Batch(r, Unread(h(j + 1).a, place.a).value, Unread(h(j + 1).b, place.b).value);
             AllAhead(Take(m, r.p), h(j), place)
    ensures Take(Batch(r, Unread(h(j + 1).a, place.a).value, Unread(h(j + 1).b, place.b).value), r.p)
              == Take(Batch(r, Unread(h(j).a, place.a).value, Unread(h(j).b, place.b).value), r.p)
  {
    var u, w := Unread(h(j).a, place.a).value, Unread(h(j).b, place.b).value;
    var u', w' := Unread(h(j + 1).a, place.a).value, Unread(h(j + 1).b, place.b).value;
    UnreadGains(h(j).a, h(j + 1).a, place.a);
    UnreadGains(h(j).b, h(j + 1).b, place.b);
    UnreadParts(h, Every(), j + 1, place);
    TakeMerge(u, w, r.p, r.p, r.p, NotOlder);
    TakeMerge(u', w', r.p, r.p, r.p, NotOlder);
    forall x | x in Take(Merge(u', w', NotOlder), r.p) ensures x in u || x in w {
      assert x in Take(Batch(r, u', w'), r.p);
      assert AheadAt(h(j), place, x);
    }
    FrontsOfMerges(u, w, u', w', r.p);
  }

  /** If all of a refetched first page had been fetched before, it is the same page. */
  lemma FrontsAgree(r: Reader, h: History, j: nat)
    requires Gaining(h) && Apart(h) && PlaceAt(r, h, j + 1).Some? && PlaceAt(r, h, j + 1).value.half
    requires AllAhead(Take(BatchAt(r, h, j + 1), r.p), h(j), PlaceAt(r, h, j + 1).value)
    ensures Undisturbed(r, h, j + 1)
  {
    var place := PlaceAt(r, h, j + 1).value;
    HalfComesFromSplit(r, h, j);
    assert Unread(h(j).a, place.a).Some? && Unread(h(j).b, place.b).Some? by { NeverRefused(r, h, j); }
    assert Unread(h(j + 1).a, place.a).Some? && Unread(h(j + 1).b, place.b).Some? by { NeverRefused(r, h, j + 1); }
    assert GainsAt(h, j) && GainsAt(h, j + 1) && ApartAt(h, j + 1);
    FrontsOfBatches(r, h, j, place);
  }

  lemma OnceIsNoRepeats(s: seq<Task>)
    ensures Once(s, Every()) <==> NoRepeats(s)
  {
    CountsSayRepeats(s);
    if Once(s, Every()) {
      forall t: Task ensures multiset(s)[t] <= 1 {
        assert Every()(t);
      }
    }
  }

  /** A page fetched again has lost a task exactly if it is another page. */
  lemma LosesIffDisturbed(r: Reader, h: History, k: nat)
    requires Gaining(h) && Apart(h)
    ensures LosesPage(r, h, Every(), k) <==> !Undisturbed(r, h, k + 1)
  {
    if PlaceAt(r, h, k + 1).Some? && PlaceAt(r, h, k + 1).value.half && !LosesPage(r, h, Every(), k) {
      forall t | t in Take(BatchAt(r, h, k), r.p) ensures t in Take(BatchAt(r, h, k + 1), r.p) {
        assert Every()(t);
      }
      PageKept(r, h, k);
    }
  }

  lemma UndisturbedIffNoneLost(r: Reader, h: History, n: nat)
    requires Gaining(h) && Apart(h)
    ensures UndisturbedUpTo(r, h, n) <==> forall k: nat | k + 1 < n :: !LosesPage(r, h, Every(), k)
  {
    forall k: nat ensures LosesPage(r, h, Every(), k) <==> !Undisturbed(r, h, k + 1) {
      LosesIffDisturbed(r, h, k);
    }
    assert Undisturbed(r, h, 0);
    if forall k: nat | k + 1 < n :: !LosesPage(r, h, Every(), k) {
      forall k | 0 <= k < n ensures Undisturbed(r, h, k) {
        if k > 0 {
          var j: nat := k - 1;
          assert !LosesPage(r, h, Every(), j);
        }
      }
    }
  }

  /** Nothing is handed out twice if and only if no refetched first page is other than the one handed out. */
  lemma NoRepeatsIff(r: Reader, h: History, n: nat)
    requires Gaining(h) && Apart(h) && Finished(r, h, n)
    ensures NoRepeats(Handed(r, h, 0, n)) <==> UndisturbedUpTo(r, h, n)
  {
    GainingLasts(h);
    GainingIsSure(r, h, n);
    ApartKeeps(h);
    SureOnceIff(r, h, Every(), n);
    OnceIsNoRepeats(Handed(r, h, 0, n));
    UndisturbedIffNoneLost(r, h, n);
  }

  // What is handed out besides what was there

  /** Request `k` fetches nothing that was not there when the reading began. */
  ghost predicate FetchesInitial(r: Reader, h: History, k: nat) {
    forall t | t in BatchAt(r, h, k) :: Initial(h(0), t)
  }

  lemma {:induction false} BoxesOnlyGain(h: History, k: nat, t: Task)
    requires Gaining(h) && Apart(h)
    ensures t in h(0).a ==> t in h(k).a
    ensures t in h(0).b ==> t in h(k).b
  {
    if k > 0 {
      BoxesOnlyGain(h, k - 1, t);
      assert GainsAt(h, k - 1);
      if t in h(0).a { SubseqIn(h(k - 1).a, h(k).a, t); }
      if t in h(0).b { SubseqIn(h(k - 1).b, h(k).b, t); }
    }
  }

  /** An initial task that is unread now was unread at the request before. */
  lemma InitialWasAhead(h: History, j: nat, place: Place, t: Task)
    requires Gaining(h) && Apart(h) && Initial(h(0), t) && AheadAt(h(j + 1), place, t)
    requires Unread(h(j).a, place.a).Some? && Unread(h(j).b, place.b).Some?
    ensures AheadAt(h(j), place, t)
  {
    assert GainsAt(h, j) && GainsAt(h, j + 1) && ApartAt(h, j + 1);
    BoxesOnlyGain(h, j, t);
    BoxesOnlyGain(h, j + 1, t);
    if AheadIn(h(j + 1).a, place.a, t) {
      UnreadIsOfBox(h(j + 1).a, place.a);
      if Passed(h(j).a, place.a, t) { PassedStays(h(j).a, h(j + 1).a, place.a, t); }
    } else {
      UnreadIsOfBox(h(j + 1).b, place.b);
      if Passed(h(j).b, place.b, t) { PassedStays(h(j).b, h(j + 1).b, place.b, t); }
    }
  }

  lemma InitialIsUndisturbed(r: Reader, h: History, k: nat)
    requires Gaining(h) && Apart(h) && FetchesInitial(r, h, k)
    ensures Undisturbed(r, h, k)
  {
    if PlaceAt(r, h, k).Some? && PlaceAt(r, h, k).value.half {
      PlacesAreProper(r, h, k);
      var j: nat, place := k - 1, PlaceAt(r, h, k).value;
      HalfComesFromSplit(r, h, j);
      NeverRefused(r, h, j);
      BatchIsFresh(r, h, k);
      var front := Take(BatchAt(r, h, k), r.p);
      forall t | t in front ensures AheadAt(h(j), place, t) {
        assert t in BatchAt(r, h, k);
        InitialWasAhead(h, j, place, t);
      }
      assert AllAhead(front, h(j), place);
      FrontsAgree(r, h, j);
    }
  }

  lemma SkippedWasHanded(r: Reader, h: History, j: nat, n: nat, t: Task)
    requires PlaceAt(r, h, j + 1).Some? && PlaceAt(r, h, j + 1).value.half && Undisturbed(r, h, j + 1) && j < n
    requires t in Take(BatchAt(r, h, j + 1), r.p)
    ensures t in Handed(r, h, 0, n)
  {
    HalfComesFromSplit(r, h, j);
    WindowIsHanded(r, h, 0, j, n, t);
  }

  /** What was there is fetched again, and what else is fetched is handed out. */
  lemma ExactFetchesInitial(r: Reader, h: History, n: nat, k: nat)
    requires Gaining(h) && Apart(h) && Finished(r, h, n) && k < n && UndisturbedUpTo(r, h, n)
    requires TakesInitial(r, h, Every(), k) && forall t | t in Handed(r, h, 0, n) :: Initial(h(0), t)
    ensures FetchesInitial(r, h, k)
  {
    ServedBefore(r, h, k, n);
    forall t | t in BatchAt(r, h, k) ensures Initial(h(0), t) {
      assert Every()(t);
      if PlaceAt(r, h, k).value.half && t in Take(BatchAt(r, h, k), r.p) {
        assert Undisturbed(r, h, k);
        SkippedWasHanded(r, h, k - 1, n, t);
      }
    }
  }

  lemma ExactlyEvery(handed: seq<Task>, x: Boxes)
    ensures Exactly(handed, x, Every()) <==> multiset(handed) == multiset(x.a) + multiset(x.b)
  {
    if Exactly(handed, x, Every()) {
      forall t: Task ensures multiset(handed)[t] == (multiset(x.a) + multiset(x.b))[t] {
        assert Every()(t);
      }
    }
  }

  lemma CleanIffUndisturbed(r: Reader, h: History, n: nat)
    requires Gaining(h) && Apart(h)
    ensures CleanUpTo(r, h, Every(), n) <==> UndisturbedUpTo(r, h, n)
  {
    UndisturbedIffNoneLost(r, h, n);
    GainingLasts(h);
    forall k: nat ensures CleanTurn(r, h, Every(), k) <==> !LosesPage(r, h, Every(), k) {
      assert LastsAt(h, Every(), k) && SureAt(r, h, Every(), k);
      SureStaysOn(r, h, Every(), k);
    }
  }

  lemma InitialIsClean(r: Reader, h: History, n: nat)
    requires Gaining(h) && Apart(h) && forall k | 0 <= k < n :: FetchesInitial(r, h, k)
    ensures CleanUpTo(r, h, Every(), n) && forall k | 0 <= k < n :: TakesInitial(r, h, Every(), k)
  {
    forall k | 0 <= k < n ensures Undisturbed(r, h, k) && TakesInitial(r, h, Every(), k) {
      assert FetchesInitial(r, h, k);
      InitialIsUndisturbed(r, h, k);
    }
    CleanIffUndisturbed(r, h, n);
  }

  lemma ExactIsInitial(r: Reader, h: History, n: nat)
    requires Gaining(h) && Apart(h) && Finished(r, h, n) && Exactly(Handed(r, h, 0, n), h(0), Every())
    ensures forall k | 0 <= k < n :: FetchesInitial(r, h, k)
  {
    GainingLasts(h);
    ApartKeeps(h);
    ExactIff(r, h, Every(), n);
    CleanIffUndisturbed(r, h, n);
    assert LastsAt(h, Every(), 0) && KeptApartAt(h, Every(), 0);
    ExactIsOnce(h, Every(), Handed(r, h, 0, n));
    forall t | t in Handed(r, h, 0, n) ensures Initial(h(0), t) {
      assert Every()(t);
    }
    forall k | 0 <= k < n ensures FetchesInitial(r, h, k) {
      ExactFetchesInitial(r, h, n, k);
    }
  }

  /** Exactly once, and nothing else: if and only if no request fetched a task that was not there when it began. */
  lemma ExactlyOnceIff(r: Reader, h: History, n: nat)
    requires Gaining(h) && Apart(h) && Finished(r, h, n)
    ensures multiset(Handed(r, h, 0, n)) == multiset(h(0).a) + multiset(h(0).b) <==>
              forall k | 0 <= k < n :: FetchesInitial(r, h, k)
  {
    ExactlyEvery(Handed(r, h, 0, n), h(0));
    if forall k | 0 <= k < n :: FetchesInitial(r, h, k) {
      InitialIsClean(r, h, n);
      GainingLasts(h);
      ApartKeeps(h);
      ExactIff(r, h, Every(), n);
    }
    if Exactly(Handed(r, h, 0, n), h(0), Every()) {
      ExactIsInitial(r, h, n);
    }
  }

  /** A reading of only arriving tasks never hands out fewer than were there; as many, only if exactly those. */
  lemma CountSaysExact(r: Reader, h: History, n: nat)
    requires Gaining(h) && Apart(h) && Finished(r, h, n)
    ensures |Handed(r, h, 0, n)| >= |h(0).a| + |h(0).b|
    ensures |Handed(r, h, 0, n)| == |h(0).a| + |h(0).b| <==>
              multiset(Handed(r, h, 0, n)) == multiset(h(0).a) + multiset(h(0).b)
  {
    GainingLasts(h);
    ApartKeeps(h);
    FilterAll(h(0).a, Opens(Every()));
    FilterAll(h(0).b, Opens(Every()));
    CountIsRight(r, h, Every(), n);
  }
}
