/**
 How the client's walk ends, for every history of the mailboxes: it goes on from place to place until
 nothing is left, a request is refused, the cap is reached, or it is handed a token it had before.
 */
module Walks {
  import opened Arrivals
  import opened Client
  import opened Paging
  import opened Places
  import opened Repeats
  import opened Tasks
  import opened Wrappers

  /** The reader was at the place of request `k` before, after its first request. */
  ghost predicate Seen(r: Reader, h: History, k: nat) {
    PlaceAt(r, h, k).Some? && exists j | 0 < j < k :: PlaceAt(r, h, j) == PlaceAt(r, h, k)
  }

  ghost predicate TokenSeen(server: Server, k: nat) {
    exists j | 0 < j < k :: TokenAt(server, j) == TokenAt(server, k)
  }

  /** The repeat guard sees a token again exactly when the reader is at a place again. */
  lemma SeenByToken(r: Reader, h: History, k: nat)
    requires r.Valid() && Boxed(h) && k > 0 && PlaceAt(r, h, k).Some?
    ensures TokenSeen(ServerOf(r, h), k) <==> Seen(r, h, k)
  {
    forall j | 0 < j < k
      ensures TokenAt(ServerOf(r, h), j) == TokenAt(ServerOf(r, h), k) <==> PlaceAt(r, h, j) == PlaceAt(r, h, k)
    {
      PlacesBefore(r, h, j, k);
      TokensTellPlaces(r, h, j, k);
    }
  }

  ghost predicate StopsAt(r: Reader, h: History, k: nat, maxPages: int) {
    PlaceAt(r, h, k) == None || Seen(r, h, k) || k >= maxPages
  }

  lemma StopsByToken(server: Server, k: nat, maxPages: int)
    ensures MustStop(server, k, maxPages) <==> TokenAt(server, k) == "" || TokenSeen(server, k) || k >= maxPages
  {
  }

  lemma StopsIff(r: Reader, h: History, k: nat, maxPages: int)
    requires r.Valid() && Boxed(h) && k > 0 && ServedAt(r, h, k - 1)
    ensures MustStop(ServerOf(r, h), k, maxPages) <==> StopsAt(r, h, k, maxPages)
  {
    StopsByToken(ServerOf(r, h), k, maxPages);
    TokenIsLast(r, h, k);
    if PlaceAt(r, h, k).Some? {
      SeenByToken(r, h, k);
    }
  }

  lemma ListedIsServed(r: Reader, h: History, requests: nat, o: Outcome)
    requires EndsAtPlaces(r, h, requests, o) && o.Listed?
    ensures requests > 0 && ServedAt(r, h, requests - 1)
  {
    EndSays(r, h, requests - 1, o);
  }

  lemma StoppedAt(r: Reader, h: History, maxPages: int, requests: nat, o: Outcome)
    requires r.Valid() && Boxed(h) && Walk(ServerOf(r, h), maxPages, requests, o) && o.Listed?
    ensures EndsAtPlaces(r, h, requests, o) && StopsAt(r, h, requests, maxPages)
  {
    assert EndsAtPlaces(r, h, requests, o) by { WalkOverPlaces(r, h, maxPages, requests, o); }
    assert MustStop(ServerOf(r, h), requests, maxPages) by { WalkStops(ServerOf(r, h), maxPages, requests, o); }
    ListedIsServed(r, h, requests, o);
    StopsIff(r, h, requests, maxPages);
  }

  lemma ServedOnWay(r: Reader, h: History, requests: nat, o: Outcome, k: nat)
    requires EndsAtPlaces(r, h, requests, o) && 0 < k < requests
    ensures ServedAt(r, h, k - 1)
  {
    EndSays(r, h, requests - 1, o);
    PlacesBefore(r, h, k - 1, requests - 1);
  }

  lemma WalkWentOn(server: Server, maxPages: int, requests: nat, o: Outcome, k: nat)
    requires Walk(server, maxPages, requests, o) && 0 < k < requests
    ensures !MustStop(server, k, maxPages)
  {
    assert GoesOn(server, k, maxPages);
  }

  lemma WentOnAt(r: Reader, h: History, maxPages: int, requests: nat, o: Outcome, k: nat)
    requires r.Valid() && Boxed(h) && Walk(ServerOf(r, h), maxPages, requests, o) && 0 < k < requests
    ensures !StopsAt(r, h, k, maxPages)
  {
    assert EndsAtPlaces(r, h, requests, o) by { WalkOverPlaces(r, h, maxPages, requests, o); }
    assert !MustStop(ServerOf(r, h), k, maxPages) by { WalkWentOn(ServerOf(r, h), maxPages, requests, o, k); }
    ServedOnWay(r, h, requests, o, k);
    StopsIff(r, h, k, maxPages);
  }

  /** No reason to stop before request `n`. */
  ghost predicate StopsNowhere(r: Reader, h: History, n: nat, maxPages: int) {
    forall k | 0 < k < n :: !StopsAt(r, h, k, maxPages)
  }

  lemma WentOn(r: Reader, h: History, maxPages: int, requests: nat, o: Outcome)
    requires r.Valid() && Boxed(h) && Walk(ServerOf(r, h), maxPages, requests, o)
    ensures StopsNowhere(r, h, requests, maxPages)
  {
    forall k | 0 < k < requests ensures !StopsAt(r, h, k, maxPages) {
      WentOnAt(r, h, maxPages, requests, o, k);
    }
  }

  lemma ListedSays(r: Reader, h: History, maxPages: int, requests: nat, o: Outcome)
    requires EndsAtPlaces(r, h, requests, o) && StopsAt(r, h, requests, maxPages) && requests <= maxPages && o.Listed?
    ensures if o.listing.incomplete then Seen(r, h, requests) || (PlaceAt(r, h, requests).Some? && requests == maxPages)
            else Finished(r, h, requests)
  {
    EndSays(r, h, requests - 1, o);
  }

  /**
   Whatever happens to the mailboxes: the walk goes on while something is left, at a place not seen
   before, below the cap. A read calls itself incomplete exactly when something was left, which is
   for the repeat guard, at a place seen before, or for the cap.
   */
  lemma WalkEnds(r: Reader, h: History, maxPages: int, requests: nat, o: Outcome)
    requires r.Valid() && Boxed(h) && maxPages >= 1 && Walk(ServerOf(r, h), maxPages, requests, o)
    ensures requests <= maxPages && StopsNowhere(r, h, requests, maxPages)
    ensures o.Listed? ==>
              if o.listing.incomplete then Seen(r, h, requests) || (PlaceAt(r, h, requests).Some? && requests == maxPages)
              else Finished(r, h, requests)
  {
    WalkIsCapped(ServerOf(r, h), maxPages, requests, o);
    WentOn(r, h, maxPages, requests, o);
    if o.Listed? {
      StoppedAt(r, h, maxPages, requests, o);
      ListedSays(r, h, maxPages, requests, o);
    }
  }

  /** A walk that is at no place twice ends for the cap, if not at the end. */
  lemma EndsByCap(r: Reader, h: History, maxPages: int, requests: nat, o: Outcome)
    requires r.Valid() && Boxed(h) && maxPages >= 1 && Walk(ServerOf(r, h), maxPages, requests, o)
    requires !Seen(r, h, requests)
    ensures EndsAtPlaces(r, h, requests, o) && requests <= maxPages
    ensures o.Listed? && PlaceAt(r, h, requests).Some? ==> requests == maxPages
  {
    WalkOverPlaces(r, h, maxPages, requests, o);
    WalkIsCapped(ServerOf(r, h), maxPages, requests, o);
    if o.Listed? {
      StoppedAt(r, h, maxPages, requests, o);
    }
  }

  // A walk of two pages, and of three

  lemma FewPlaces(r: Reader, h: History, n: nat)
    requires PlaceAt(r, h, 2) == None
    ensures !Seen(r, h, n)
  {
    if PlaceAt(r, h, n).Some? && n > 1 {
      PlacesBefore(r, h, 2, n);
    }
  }

  lemma StopsAtSecond(r: Reader, h: History, maxPages: int, requests: nat, o: Outcome)
    requires PlaceAt(r, h, 1).Some? && PlaceAt(r, h, 2) == None && maxPages >= 2
    requires EndsAtPlaces(r, h, requests, o)
    requires o.Listed? && PlaceAt(r, h, requests).Some? ==> requests == maxPages
    ensures requests == 2 && (o.Raised? <==> !ServedAt(r, h, 1))
  {
    EndSays(r, h, requests - 1, o);
    PlacesBefore(r, h, 0, 1);
    if requests > 2 {
      PlacesBefore(r, h, 2, requests - 1);
    }
  }

  lemma NoFourthPlace(r: Reader, h: History, n: nat)
    requires PlaceAt(r, h, 1) != PlaceAt(r, h, 2) && PlaceAt(r, h, 3) == None
    ensures !Seen(r, h, n)
  {
    if Seen(r, h, n) && n > 2 {
      PlacesBefore(r, h, 3, n);
    }
  }

  lemma StopsAtThird(r: Reader, h: History, maxPages: int, requests: nat, o: Outcome)
    requires ServedAt(r, h, 2) && PlaceAt(r, h, 3) == None && maxPages >= 3
    requires EndsAtPlaces(r, h, requests, o)
    requires o.Listed? && PlaceAt(r, h, requests).Some? ==> requests == maxPages
    ensures requests == 3 && o.Listed?
  {
    EndSays(r, h, requests - 1, o);
    PlacesBefore(r, h, 0, 2);
    PlacesBefore(r, h, 1, 2);
    if requests > 3 {
      PlacesBefore(r, h, 3, requests - 1);
    }
  }

  // On from lasting tasks only

  lemma SureIsUnseen(r: Reader, h: History, keep: Task -> bool, k: nat)
    requires Lasting(h, keep) && Sure(r, h, keep, k + 1)
    ensures !Seen(r, h, k)
  {
    if PlaceAt(r, h, k).Some? {
      forall j | 0 < j < k ensures PlaceAt(r, h, j) != PlaceAt(r, h, k) {
        PlacesBefore(r, h, j, k);
        PlacesAreFresh(r, h, keep, j, k);
      }
    }
  }

  lemma LastIsOnWay(r: Reader, h: History, requests: nat, o: Outcome)
    requires EndsAtPlaces(r, h, requests, o)
    ensures requests > 0 && PlaceAt(r, h, requests - 1).Some?
    ensures ServedAt(r, h, requests - 1) ==> o.Listed?
  {
    EndSays(r, h, requests - 1, o);
  }

  lemma SureServes(r: Reader, h: History, keep: Task -> bool, k: nat)
    requires Lasting(h, keep) && Sure(r, h, keep, k + 2) && PlaceAt(r, h, k).Some?
    ensures ServedAt(r, h, k)
  {
    if k > 0 {
      var j: nat := k - 1;
      assert LastsAt(h, keep, j) && SureAt(r, h, keep, j);
      SureIsServed(r, h, keep, j);
    }
  }

  lemma SureIsListed(r: Reader, h: History, keep: Task -> bool, requests: nat, o: Outcome)
    requires Lasting(h, keep) && Sure(r, h, keep, requests + 1) && EndsAtPlaces(r, h, requests, o)
    ensures o.Listed? && ServedAt(r, h, requests - 1)
  {
    LastIsOnWay(r, h, requests, o);
    SureServes(r, h, keep, requests - 1);
  }

  /**
   If no token names a task that does not last yet, the read is never refused, the repeat guard never
   stops it, and it is incomplete exactly when the cap comes before the end.
   */
  lemma SureWalk(r: Reader, h: History, keep: Task -> bool, maxPages: int, requests: nat, o: Outcome)
    requires r.Valid() && Lasting(h, keep) && maxPages >= 1 && Walk(ServerOf(r, h), maxPages, requests, o)
    requires Sure(r, h, keep, requests + 1)
    ensures o.Listed? && requests <= maxPages
    ensures o.listing.tasks == Handed(r, h, 0, requests) && o.listing.total == |h(0).a| + |h(0).b|
    ensures o.listing.incomplete <==> PlaceAt(r, h, maxPages).Some?
    ensures !o.listing.incomplete ==> Finished(r, h, requests)
  {
    LastingIsBoxed(h, keep);
    SureIsUnseen(r, h, keep, requests);
    EndsByCap(r, h, maxPages, requests, o);
    SureIsListed(r, h, keep, requests, o);
    if PlaceAt(r, h, maxPages).Some? {
      PlacesBefore(r, h, requests, maxPages);
    }
  }
}
