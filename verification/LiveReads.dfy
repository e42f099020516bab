/**
 What a session's read amounts to when sends are in flight: what comes twice, whether it is what was
 there, what the count check says, and why it may call itself incomplete.
 */
module LiveReads {
  import opened Accounts
  import opened Arrivals
  import opened Client
  import opened Counting
  import opened Delivery
  import opened Executor
  import opened Identity
  import opened Live
  import opened LiveMisses
  import opened Mailboxes
  import opened Misses
  import opened Paging
  import opened Places
  import opened Repeats
  import opened Store
  import opened Tasks
  import opened Walks
  import opened Wrappers

  /** The reader's two mailboxes, fetch by fetch, along the schedule. */
  function SessionBoxes(sends: seq<Send>, known: Option<set<string>>, rows: Rows, schedule: Schedule, user: string)
    : History
  {
    HistoryOf(LogOf(Takeoff(sends, known, rows), schedule), user, PrincipalOf(user))
  }

  /** A session's walk over a hub in the middle of these sends. */
  ghost predicate LiveWalk(sends: seq<Send>, known: Option<set<string>>, rows: Rows, schedule: Schedule, r: Reader,
                           maxPages: int, requests: nat, o: Client.Outcome) {
    && Starts(sends, rows) && r.sdk.Valid() && Session(r.ida) && r.idb == PrincipalOf(r.ida)
    && var log := LogOf(Takeoff(sends, known, rows), schedule);
       Walk(HubServer(r.sdk, r.foreign, log, r.ida, r.requested), maxPages, requests, o)
  }

  lemma BoxesLast(sends: seq<Send>, known: Option<set<string>>, rows: Rows, schedule: Schedule, user: string)
    requires Starts(sends, rows) && Session(user)
    ensures Lasting(SessionBoxes(sends, known, rows, schedule, user), SettledTask())
    ensures KeptApart(SessionBoxes(sends, known, rows, schedule, user), SettledTask())
    ensures Boxed(SessionBoxes(sends, known, rows, schedule, user)) && user != PrincipalOf(user)
  {
    SessionReads(user);
    DeliveriesLast(sends, known, rows, schedule);
    LogIsLasting(LogOf(Takeoff(sends, known, rows), schedule), user, PrincipalOf(user));
    LastingIsBoxed(SessionBoxes(sends, known, rows, schedule, user), SettledTask());
  }

  lemma LiveWalkIsWalk(sends: seq<Send>, known: Option<set<string>>, rows: Rows, schedule: Schedule, r: Reader,
                       maxPages: int, requests: nat, o: Client.Outcome)
    requires LiveWalk(sends, known, rows, schedule, r, maxPages, requests, o)
    ensures r.Valid() && Walk(ServerOf(r, SessionBoxes(sends, known, rows, schedule, r.ida)), maxPages, requests, o)
  {
    var log := LogOf(Takeoff(sends, known, rows), schedule);
    SessionReads(r.ida);
    SessionServer(r.sdk, r.foreign, log, r.ida, r.requested);
    SameWalk(HubServer(r.sdk, r.foreign, log, r.ida, r.requested),
             ServerOf(r, SessionBoxes(sends, known, rows, schedule, r.ida)), maxPages, requests, o);
  }

  lemma LiveWalkEnds(sends: seq<Send>, known: Option<set<string>>, rows: Rows, schedule: Schedule, r: Reader,
                     maxPages: int, requests: nat, o: Client.Outcome)
    requires LiveWalk(sends, known, rows, schedule, r, maxPages, requests, o) && o.Listed? && !o.listing.incomplete
    ensures var h := SessionBoxes(sends, known, rows, schedule, r.ida);
            && Finished(r, h, requests) && o.listing.tasks == Handed(r, h, 0, requests)
            && o.listing.total == |h(0).a| + |h(0).b|
  {
    var h := SessionBoxes(sends, known, rows, schedule, r.ida);
    BoxesLast(sends, known, rows, schedule, r.ida);
    LiveWalkIsWalk(sends, known, rows, schedule, r, maxPages, requests, o);
    WalkOverPlaces(r, h, maxPages, requests, o);
    EndSays(r, h, requests - 1, o);
  }

  /**
   While sends are in flight: a complete read has no delivered or rejected task twice if and only if no
   page fetched again has lost one, and no request went on from a task that has settled in front of one
   already handed out.
   */
  lemma SettledOnceIff(sends: seq<Send>, known: Option<set<string>>, rows: Rows, schedule: Schedule, r: Reader,
                       maxPages: int, requests: nat, o: Client.Outcome)
    requires LiveWalk(sends, known, rows, schedule, r, maxPages, requests, o) && o.Listed? && !o.listing.incomplete
    ensures Once(o.listing.tasks, SettledTask()) <==>
              CleanUpTo(r, SessionBoxes(sends, known, rows, schedule, r.ida), SettledTask(), requests)
  {
    LiveWalkEnds(sends, known, rows, schedule, r, maxPages, requests, o);
    BoxesLast(sends, known, rows, schedule, r.ida);
    OnceIff(r, SessionBoxes(sends, known, rows, schedule, r.ida), SettledTask(), requests);
  }

  /** It has exactly the settled tasks of the start if and only if, besides, no request fetched another but to skip it. */
  lemma SettledExactIff(sends: seq<Send>, known: Option<set<string>>, rows: Rows, schedule: Schedule, r: Reader,
                        maxPages: int, requests: nat, o: Client.Outcome)
    requires LiveWalk(sends, known, rows, schedule, r, maxPages, requests, o) && o.Listed? && !o.listing.incomplete
    ensures var h := SessionBoxes(sends, known, rows, schedule, r.ida);
            Exactly(o.listing.tasks, h(0), SettledTask()) <==>
              && CleanUpTo(r, h, SettledTask(), requests)
              && forall k | 0 <= k < requests :: TakesInitial(r, h, SettledTask(), k)
  {
    LiveWalkEnds(sends, known, rows, schedule, r, maxPages, requests, o);
    BoxesLast(sends, known, rows, schedule, r.ida);
    ExactIff(r, SessionBoxes(sends, known, rows, schedule, r.ida), SettledTask(), requests);
  }

  /** In delivery when the reading began. */
  ghost predicate InDelivery(x: Boxes, id: string) {
    exists t | t in x.a || t in x.b :: t.id == id && !Settled(t)
  }

  lemma StartHasId(x: Boxes, id: string)
    ensures id in StartIds(x) <==> HasId(x.a, id) || HasId(x.b, id)
    ensures id in InBoth(x) <==> HasId(x.a, id) && HasId(x.b, id)
  {
    IdsHold(x.a, id);
    IdsHold(x.b, id);
  }

  /** What was there at the first request and came in no form was then in delivery, and was lost in one of three ways. */
  lemma MissedIff(sends: seq<Send>, known: Option<set<string>>, rows: Rows, schedule: Schedule, r: Reader, maxPages: int,
                  requests: nat, o: Client.Outcome, id: string)
    requires LiveWalk(sends, known, rows, schedule, r, maxPages, requests, o) && o.Listed? && !o.listing.incomplete
    requires id in StartIds(SessionBoxes(sends, known, rows, schedule, r.ida)(0))
    ensures !HasId(o.listing.tasks, id) <==>
              IsLost(sends, known, Takeoff(sends, known, rows), schedule, r,
                     SessionBoxes(sends, known, rows, schedule, r.ida), requests, id)
    ensures !HasId(o.listing.tasks, id) ==> InDelivery(SessionBoxes(sends, known, rows, schedule, r.ida)(0), id)
  {
    var h := SessionBoxes(sends, known, rows, schedule, r.ida);
    StartHasId(h(0), id);
    LiveWalkEnds(sends, known, rows, schedule, r, maxPages, requests, o);
    LostIff(sends, known, rows, schedule, r, h, requests, id);
    BoxesLast(sends, known, rows, schedule, r.ida);
    if !HasId(o.listing.tasks, id) {
      var t :| (t in h(0).a || t in h(0).b) && t.id == id;
      MissedDidNotLast(r, h, SettledTask(), requests, t);
    }
  }

  /** A send of the reader's own to its agent, moved there between the two fetches of the first request. */
  ghost predicate MovedBetween(sends: seq<Send>, known: Option<set<string>>, start: World, schedule: Schedule, user: string,
                               id: string) {
    MovedHome(FirstWorld(start, schedule, 0).rows, SecondWorld(start, schedule, 0).rows, sends, known, user, id)
  }

  /** Counted in both mailboxes is what a send of the reader's own to its agent had moved between the two fetches. */
  lemma CountedTwiceIff(sends: seq<Send>, known: Option<set<string>>, rows: Rows, schedule: Schedule, user: string,
                        id: string)
    requires Starts(sends, rows) && Session(user)
    ensures id in InBoth(SessionBoxes(sends, known, rows, schedule, user)(0)) <==>
              MovedBetween(sends, known, Takeoff(sends, known, rows), schedule, user, id)
  {
    var start := Takeoff(sends, known, rows);
    SessionReads(user);
    FetchesInStep(sends, known, rows, schedule, 0);
    WorldBoxes(start, schedule, user, PrincipalOf(user), 0);
    StartHasId(SessionBoxes(sends, known, rows, schedule, user)(0), id);
    InBothIff(sends, known, rows, FirstWorld(start, schedule, 0), SecondWorld(start, schedule, 0), user, id);
  }

  /**
   The count check on a complete read, by ids: more come when one comes again or was not there at the
   first request; fewer, when one that was there is lost, or was counted in both mailboxes. Which these
   are: lost is what was in delivery then and left, settled behind the reader or was skipped; counted
   twice is what moved from the one mailbox to the other between the two fetches.
   */
  lemma CountCheckIff(sends: seq<Send>, known: Option<set<string>>, rows: Rows, schedule: Schedule, r: Reader,
                      maxPages: int, requests: nat, o: Client.Outcome)
    requires LiveWalk(sends, known, rows, schedule, r, maxPages, requests, o) && o.Listed? && !o.listing.incomplete
    ensures var h, start := SessionBoxes(sends, known, rows, schedule, r.ida), Takeoff(sends, known, rows);
            var ids, first := Ids(o.listing.tasks), StartIds(h(0));
            && |o.listing.tasks| + |Missed(ids, first)| + |InBoth(h(0))|
                 == o.listing.total + Again(ids, first) + Others(ids, first)
            && (forall id | id in first ::
                  id in Missed(ids, first) <==> IsLost(sends, known, start, schedule, r, h, requests, id))
            && (forall id | id in Missed(ids, first) :: InDelivery(h(0), id))
            && (forall id :: id in InBoth(h(0)) <==> MovedBetween(sends, known, start, schedule, r.ida, id))
  {
    var h, start := SessionBoxes(sends, known, rows, schedule, r.ida), Takeoff(sends, known, rows);
    var ids, first := Ids(o.listing.tasks), StartIds(h(0));
    LiveWalkEnds(sends, known, rows, schedule, r, maxPages, requests, o);
    BoxesLast(sends, known, rows, schedule, r.ida);
    assert BoxedAt(h, 0);
    CountByIds(o.listing.tasks, h(0));
    forall id | id in first
      ensures id in Missed(ids, first) <==> IsLost(sends, known, start, schedule, r, h, requests, id)
      ensures id in Missed(ids, first) ==> InDelivery(h(0), id)
    {
      IdsHold(o.listing.tasks, id);
      MissedIff(sends, known, rows, schedule, r, maxPages, requests, o, id);
    }
    forall id
      ensures id in InBoth(h(0)) <==> MovedBetween(sends, known, start, schedule, r.ida, id)
    {
      CountedTwiceIff(sends, known, rows, schedule, r.ida, id);
    }
  }

  /** A complete read is short of its total only if one in delivery at the first request is lost, or was counted twice. */
  lemma ShortOnlyIf(sends: seq<Send>, known: Option<set<string>>, rows: Rows, schedule: Schedule, r: Reader,
                    maxPages: int, requests: nat, o: Client.Outcome)
    requires LiveWalk(sends, known, rows, schedule, r, maxPages, requests, o) && o.Listed? && !o.listing.incomplete
    requires |o.listing.tasks| < o.listing.total
    ensures var h, start := SessionBoxes(sends, known, rows, schedule, r.ida), Takeoff(sends, known, rows);
            exists id ::
              || (InDelivery(h(0), id) && !HasId(o.listing.tasks, id))
              || MovedBetween(sends, known, start, schedule, r.ida, id)
  {
    var h := SessionBoxes(sends, known, rows, schedule, r.ida);
    var ids, first := Ids(o.listing.tasks), StartIds(h(0));
    CountCheckIff(sends, known, rows, schedule, r, maxPages, requests, o);
    if Missed(ids, first) == {} {
      assert InBoth(h(0)) != {};
      var id :| id in InBoth(h(0));
    } else {
      var id :| id in Missed(ids, first);
      IdsHold(o.listing.tasks, id);
      assert InDelivery(h(0), id);
    }
  }

  /** With nothing in delivery at the first request the count is never short, and right exactly if the tasks are. */
  lemma CountCheckIsRight(sends: seq<Send>, known: Option<set<string>>, rows: Rows, schedule: Schedule, r: Reader,
                          maxPages: int, requests: nat, o: Client.Outcome)
    requires LiveWalk(sends, known, rows, schedule, r, maxPages, requests, o) && o.Listed? && !o.listing.incomplete
    requires OpenIn(SessionBoxes(sends, known, rows, schedule, r.ida)(0), SettledTask()) == []
    ensures var x := SessionBoxes(sends, known, rows, schedule, r.ida)(0);
            && |o.listing.tasks| >= o.listing.total
            && (|o.listing.tasks| == o.listing.total <==> multiset(o.listing.tasks) == multiset(x.a) + multiset(x.b))
  {
    LiveWalkEnds(sends, known, rows, schedule, r, maxPages, requests, o);
    BoxesLast(sends, known, rows, schedule, r.ida);
    CountIsRight(r, SessionBoxes(sends, known, rows, schedule, r.ida), SettledTask(), requests);
  }

  /** A read calls itself incomplete for the cap, or because the repeat guard met a place seen before. */
  lemma IncompleteIff(sends: seq<Send>, known: Option<set<string>>, rows: Rows, schedule: Schedule, r: Reader,
                      maxPages: int, requests: nat, o: Client.Outcome)
    requires LiveWalk(sends, known, rows, schedule, r, maxPages, requests, o) && maxPages >= 1
    ensures var h := SessionBoxes(sends, known, rows, schedule, r.ida);
            && requests <= maxPages && StopsNowhere(r, h, requests, maxPages)
            && (o.Listed? ==>
                  if o.listing.incomplete then
                    Seen(r, h, requests) || (PlaceAt(r, h, requests).Some? && requests == maxPages)
                  else Finished(r, h, requests))
  {
    LiveWalkIsWalk(sends, known, rows, schedule, r, maxPages, requests, o);
    BoxesLast(sends, known, rows, schedule, r.ida);
    WalkEnds(r, SessionBoxes(sends, known, rows, schedule, r.ida), maxPages, requests, o);
  }

  /**
   If no token named a task in delivery when it was handed out: the read is never refused, the repeat
   guard never stops it, and in a complete one a settled task comes twice only if a page fetched again
   has lost one.
   */
  lemma SureRead(sends: seq<Send>, known: Option<set<string>>, rows: Rows, schedule: Schedule, r: Reader,
                 maxPages: int, requests: nat, o: Client.Outcome)
    requires LiveWalk(sends, known, rows, schedule, r, maxPages, requests, o) && maxPages >= 1
    requires Sure(r, SessionBoxes(sends, known, rows, schedule, r.ida), SettledTask(), requests + 1)
    ensures var h := SessionBoxes(sends, known, rows, schedule, r.ida);
            && o.Listed? && (o.listing.incomplete <==> PlaceAt(r, h, maxPages).Some?)
            && (!o.listing.incomplete ==>
                  (Once(o.listing.tasks, SettledTask()) <==>
                     forall k: nat | k + 1 < requests :: !LosesPage(r, h, SettledTask(), k)))
  {
    var h := SessionBoxes(sends, known, rows, schedule, r.ida);
    LiveWalkIsWalk(sends, known, rows, schedule, r, maxPages, requests, o);
    BoxesLast(sends, known, rows, schedule, r.ida);
    SureWalk(r, h, SettledTask(), maxPages, requests, o);
    if !o.listing.incomplete {
      SureOfFewer(r, h, SettledTask(), requests, requests + 1);
      SureOnceIff(r, h, SettledTask(), requests);
    }
  }
}
