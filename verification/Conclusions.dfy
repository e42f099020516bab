/** Client and server composed: when a read is complete, what it says about itself, and how far the defaults reach. */
module Conclusions {
  import opened Accounts
  import opened Arithmetic
  import opened Arrivals
  import opened Client
  import opened Exactness
  import opened Paging
  import opened Places
  import opened Reading
  import opened Sorting
  import opened Tasks
  import opened Walks
  import opened Wrappers

  /**
   Nothing delivered meanwhile: the read is cut short exactly when the drain needs more pages
   than the cap, and then it is short of the total; otherwise it is both mailboxes, each task once.
   */
  lemma QuiescentRead(r: Reader, x: Boxes, maxPages: int, requests: nat, o: Outcome)
    requires r.Valid() && IsBox(x.a) && IsBox(x.b) && maxPages >= 1
    requires Walk(ServerOf(r, Still(x)), maxPages, requests, o)
    ensures var needed := PageCount(|x.a|, |x.b|, r.p);
            && requests == Min(needed, maxPages)
            && o.Listed? && o.listing.total == |x.a| + |x.b|
            && (o.listing.incomplete <==> needed > maxPages)
            && (o.listing.incomplete ==> |o.listing.tasks| < o.listing.total)
            && (!o.listing.incomplete ==> |o.listing.tasks| == o.listing.total)
            && (!o.listing.incomplete ==> multiset(o.listing.tasks) == multiset(x.a) + multiset(x.b))
  {
    var legs := DrainLegs(r, Still(x));
    StillGrows(x);
    WalkOverLegs(r, Still(x), maxPages, requests, o);
    DrainLength(r, Still(x));
    ExactlyOnce(r, x);
    if requests == |legs| {
      assert legs[..requests] == legs;
    } else if x.a != [] || x.b != [] {
      DrainNotEmpty(r, Still(x));
      ShortReadIsShorter(legs, requests);
    }
  }

  /**
   While tasks arrive, anywhere in either mailbox: the read is never refused, and it is cut short
   exactly when the cap comes before the end.
   */
  lemma GrowingWalk(r: Reader, h: History, maxPages: int, requests: nat, o: Outcome)
    requires r.Valid() && Gaining(h) && maxPages >= 1
    requires Walk(ServerOf(r, h), maxPages, requests, o)
    ensures o.Listed? && requests <= maxPages
    ensures o.listing.tasks == Handed(r, h, 0, requests) && o.listing.total == |h(0).a| + |h(0).b|
    ensures o.listing.incomplete <==> PlaceAt(r, h, maxPages).Some?
    ensures !o.listing.incomplete ==> Finished(r, h, requests)
  {
    GainingLasts(h);
    GainingIsSure(r, h, requests + 1);
    SureWalk(r, h, Every(), maxPages, requests, o);
  }

  /** The whole answer of a read that the cap does not reach. */
  lemma CompleteListing(r: Reader, h: History, maxPages: int, requests: nat, o: Outcome)
    requires r.Valid() && Gaining(h) && maxPages >= 1 && PlaceAt(r, h, maxPages) == None
    requires Walk(ServerOf(r, h), maxPages, requests, o)
    ensures o == Listed(Listing(Handed(r, h, 0, requests), |h(0).a| + |h(0).b|, requests, false))
    ensures Finished(r, h, requests)
  {
    GrowingWalk(r, h, maxPages, requests, o);
    WalkIsBounded(ServerOf(r, h), maxPages, requests, o);
  }

  /** While tasks arrive, a read that is not cut short has every task that was there when it began. */
  lemma GrowingRead(r: Reader, h: History, maxPages: int, requests: nat, o: Outcome, t: Task)
    requires r.Valid() && Gaining(h) && Apart(h) && maxPages >= 1 && Initial(h(0), t)
    requires Walk(ServerOf(r, h), maxPages, requests, o)
    ensures o.Listed?
    ensures !o.listing.incomplete ==> t in o.listing.tasks
  {
    GrowingWalk(r, h, maxPages, requests, o);
    if !o.listing.incomplete {
      GainingLasts(h);
      ApartKeeps(h);
      AtLeastOnce(r, h, Every(), requests, t);
    }
  }

  /**
   The count check on a finished read compares against the total it began with. It passes exactly
   when no request fetched a task that was not there then; otherwise the read has more, not fewer.
   */
  lemma CountCheckIff(r: Reader, h: History, maxPages: int, requests: nat, o: Outcome)
    requires r.Valid() && Gaining(h) && Apart(h) && maxPages >= 1
    requires Walk(ServerOf(r, h), maxPages, requests, o) && o.Listed? && !o.listing.incomplete
    ensures |o.listing.tasks| >= o.listing.total
    ensures |o.listing.tasks| == o.listing.total <==> forall k | 0 <= k < requests :: FetchesInitial(r, h, k)
    ensures NoRepeats(o.listing.tasks) <==> UndisturbedUpTo(r, h, requests)
  {
    GrowingWalk(r, h, maxPages, requests, o);
    CountSaysExact(r, h, requests);
    ExactlyOnceIff(r, h, requests);
    NoRepeatsIff(r, h, requests);
  }

  /**
   If tasks arrive in front only, the count check fails exactly when one arrived before the second page
   of a split first batch.
   */
  lemma CountCheckInFrontIff(r: Reader, h: History, maxPages: int, requests: nat, o: Outcome)
    requires r.Valid() && Growing(h) && maxPages >= 1
    requires Walk(ServerOf(r, h), maxPages, requests, o) && o.Listed? && !o.listing.incomplete
    ensures |o.listing.tasks| == o.listing.total <==> BatchPages(|h(0).a|, |h(0).b|, r.p) == 1 || h(1) == h(0)
  {
    var legs, x, y := DrainLegs(r, h), h(0), h(1);
    WalkOverLegs(r, h, maxPages, requests, o);
    assert legs[..requests] == legs;
    HandedOut(r, h);
    BatchSize(r, x.a, x.b);
    assert GrowsAt(h, 0);
    SuffixMeans(x.a, y.a);
    SuffixMeans(x.b, y.b);
  }

  /** A batch is newest first: it is the stable sort of its two SDK pages. */
  lemma BatchIsNewestFirst(r: Reader, x: Boxes, sa: seq<Task>, sb: seq<Task>)
    requires IsBox(x.a) && IsBox(x.b) && IsSuffix(sa, x.a) && IsSuffix(sb, x.b)
    ensures Sorted(Batch(r, sa, sb), NotOlder)
    ensures Batch(r, sa, sb) == Sort(Take(sa, r.p) + Take(sb, r.p), NotOlder)
    ensures (forall t | t in sa || t in sb :: Timely(t)) ==> NewestFirst(Batch(r, sa, sb))
  {
    var fetched := Take(sa, r.p) + Take(sb, r.p);
    NotOlderOrders();
    BatchIsSort(r, x, NameOf(r.sdk, sa), sa, NameOf(r.sdk, sb), sb);
    SortKeeps(fetched, NotOlder);
    if forall t | t in sa || t in sb :: Timely(t) {
      forall t | t in Sort(fetched, NotOlder) ensures Timely(t) {
        assert t in multiset(fetched);
      }
      SortedIsNewestFirst(Sort(fetched, NotOlder));
    }
  }

  // How many pages, exactly

  /** One page per batch of the longer mailbox, one more per full page of the shorter, and one for the overlap. */
  function PagesNeeded(short: nat, long: nat, p: nat): nat
    requires p >= 1 && short <= long
  {
    CeilDiv(long, p) + short / p + if short % p + Min(long - (short - short % p), p) > p then 1 else 0
  }

  lemma {:induction false} LaterCountExactly(short: nat, long: nat, p: nat)
    requires p >= 1 && short <= long
    ensures LaterCount(short, long, p) == PagesNeeded(short, long, p)
    decreases short + long
  {
    if short >= p {
      LaterCountExactly(short - p, long - p, p);
      DivStep(short, p);
      DivStep(long, p);
    } else if long >= p {
      LaterCountExactly(0, long - p, p);
      DivStep(long, p);
      DivSmall(short, p);
      DivSmall(0, p);
    } else {
      DivSmall(short, p);
      DivSmall(long, p);
    }
  }

  lemma {:induction false} LaterCountSymmetric(x: nat, y: nat, p: nat)
    requires p >= 1
    ensures LaterCount(x, y, p) == LaterCount(y, x, p)
    decreases x + y
  {
    if x != 0 || y != 0 {
      LaterCountSymmetric(Monus(x, p), Monus(y, p), p);
    }
  }

  /** The pages of a drain in closed form; two empty mailboxes still take one. */
  lemma PageCountExactly(x: nat, y: nat, p: nat)
    requires p >= 1
    ensures PageCount(x, y, p) ==
              if x == 0 && y == 0 then 1 else if x <= y then PagesNeeded(x, y, p) else PagesNeeded(y, x, p)
  {
    if x <= y {
      LaterCountExactly(x, y, p);
    } else {
      LaterCountExactly(y, x, p);
      LaterCountSymmetric(x, y, p);
    }
  }

  /** The client's defaults read any two mailboxes of up to 5000 tasks to the end. */
  lemma DefaultsSuffice(r: Reader, x: Boxes, requests: nat, o: Outcome)
    requires r.Valid() && IsBox(x.a) && IsBox(x.b) && r.requested == DEFAULT_CLIENT_PAGE_SIZE
    requires |x.a| <= 5000 && |x.b| <= 5000
    requires Walk(ServerOf(r, Still(x)), DEFAULT_MAX_PAGES, requests, o)
    ensures o.Listed? && !o.listing.incomplete
    ensures multiset(o.listing.tasks) == multiset(x.a) + multiset(x.b)
  {
    QuiescentRead(r, x, DEFAULT_MAX_PAGES, requests, o);
    PageCountBound(|x.a|, |x.b|, r.p, 50);
  }

  lemma OverTheDefaults(short: nat, long: nat)
    requires 5000 < short <= long
    ensures PagesNeeded(short, long, 100) > 100
  {
    assert short / 100 >= 50;
    assert CeilDiv(long, 100) >= 51;
  }

  /** 5000 is the most that can be promised: one task more on each side and the read is cut short. */
  lemma DefaultsAreTight(r: Reader, x: Boxes, requests: nat, o: Outcome)
    requires r.Valid() && IsBox(x.a) && IsBox(x.b) && r.requested == DEFAULT_CLIENT_PAGE_SIZE
    requires |x.a| > 5000 && |x.b| > 5000
    requires Walk(ServerOf(r, Still(x)), DEFAULT_MAX_PAGES, requests, o)
    ensures o.Listed? && o.listing.incomplete && |o.listing.tasks| < o.listing.total
  {
    QuiescentRead(r, x, DEFAULT_MAX_PAGES, requests, o);
    PageCountExactly(|x.a|, |x.b|, r.p);
    if |x.a| <= |x.b| {
      OverTheDefaults(|x.a|, |x.b|);
    } else {
      OverTheDefaults(|x.b|, |x.a|);
    }
  }
}
