/**
 What a cursor means. A reader of two mailboxes is at a place: for each mailbox the task it goes on
 from, or its beginning or its end, and whether the current batch is half handed out. This module
 proves that cursors and tokens are such places for every history of the mailboxes, whatever
 arrives, moves or leaves.
 */
module Places {
  import opened Client
  import opened Cursors
  import opened Drain
  import opened Paging
  import opened Sorting
  import opened Store
  import opened Tasks
  import opened Wrappers

  datatype Mark = Start | At(id: string) | End

  datatype Place = Place(a: Mark, b: Mark, half: bool)

  const BEGINNING := Place(Start, Start, false)

  function From(box: seq<Task>, id: string): (s: Option<seq<Task>>)
    ensures s.Some? ==> s.value != [] && s.value[0].id == id
  {
    if box == [] then None else if box[0].id == id then Some(box) else From(box[1..], id)
  }

  /** What is left of a mailbox from a mark on; nothing at all if the marked task is not there. */
  function Unread(box: seq<Task>, mark: Mark): Option<seq<Task>> {
    match mark
    case Start => Some(box)
    case At(id) => From(box, id)
    case End => Some([])
  }

  function MarkOf(rest: seq<Task>): Mark {
    if rest == [] then End else At(rest[0].id)
  }

  /** One request: refused, or a window and where to go on, if anywhere. */
  datatype Turn = Refused | Turned(window: seq<Task>, next: Option<Place>)

  function PlaceAfter(sa: seq<Task>, sb: seq<Task>): Option<Place> {
    if sa == [] && sb == [] then None else Some(Place(MarkOf(sa), MarkOf(sb), false))
  }

  function TurnOn(r: Reader, place: Place, sa: seq<Task>, sb: seq<Task>): Turn {
    var m := Batch(r, sa, sb);
    if !place.half && |m| > r.p then Turned(Take(m, r.p), Some(place.(half := true)))
    else Turned(if place.half then Drop(m, r.p) else m, PlaceAfter(Drop(sa, r.p), Drop(sb, r.p)))
  }

  function TurnAt(r: Reader, x: Boxes, place: Place): Turn {
    match Unread(x.a, place.a)
    case None => Refused
    case Some(sa) =>
      match Unread(x.b, place.b)
      case None => Refused
      case Some(sb) => TurnOn(r, place, sa, sb)
  }

  /** The place of the k-th request; `None` once nothing is left, or after a refusal. */
  function PlaceAt(r: Reader, h: History, k: nat): Option<Place>
    decreases k, 0
  {
    if k == 0 then Some(BEGINNING)
    else match TurnOf(r, h, k - 1)
      case Some(Turned(_, next)) => next
      case _ => None
  }

  function TurnOf(r: Reader, h: History, k: nat): Option<Turn>
    decreases k, 1
  {
    match PlaceAt(r, h, k)
    case None => None
    case Some(place) => Some(TurnAt(r, h(k), place))
  }

  predicate ServedAt(r: Reader, h: History, k: nat) {
    TurnOf(r, h, k).Some? && TurnOf(r, h, k).value.Turned?
  }

  function WindowAt(r: Reader, h: History, k: nat): seq<Task> {
    match TurnOf(r, h, k)
    case Some(Turned(window, _)) => window
    case _ => []
  }

  function Joined(windows: nat -> seq<Task>, j: nat, k: nat): seq<Task>
    decreases k
  {
    if k <= j then [] else Joined(windows, j, k - 1) + windows(k - 1)
  }

  function Windows(r: Reader, h: History): nat -> seq<Task> {
    (k: nat) => WindowAt(r, h, k)
  }

  /** What the requests from `j` up to `k` hand out. */
  function Handed(r: Reader, h: History, j: nat, k: nat): seq<Task> {
    Joined(Windows(r, h), j, k)
  }

  lemma {:induction false} InJoined(windows: nat -> seq<Task>, j: nat, i: nat, k: nat, t: Task)
    requires j <= i < k && t in windows(i)
    ensures t in Joined(windows, j, k)
    decreases k
  {
    if i + 1 < k {
      InJoined(windows, j, i, k - 1, t);
    }
  }

  lemma {:induction false} JoinedFrom(windows: nat -> seq<Task>, j: nat, k: nat, t: Task) returns (i: nat)
    requires t in Joined(windows, j, k)
    ensures j <= i < k && t in windows(i)
    decreases k
  {
    if t in windows(k - 1) {
      i := k - 1;
    } else {
      i := JoinedFrom(windows, j, k - 1, t);
    }
  }

  /** The reading ended with request `n - 1`: it was served and nothing was left. */
  predicate Finished(r: Reader, h: History, n: nat) {
    n > 0 && ServedAt(r, h, n - 1) && PlaceAt(r, h, n) == None
  }

  ghost predicate Boxed(h: History) {
    forall k: nat :: BoxedAt(h, k)
  }

  ghost predicate BoxedAt(h: History, k: nat) {
    IsBox(h(k).a) && IsBox(h(k).b)
  }

  lemma {:induction false} PlacesBefore(r: Reader, h: History, j: nat, k: nat)
    requires j <= k && PlaceAt(r, h, k).Some?
    ensures PlaceAt(r, h, j).Some?
    ensures j < k ==> ServedAt(r, h, j)
  {
    if j < k {
      PlacesBefore(r, h, j, k - 1);
    }
  }

  // Marks and tokens

  lemma {:induction false} FromSuffix(box: seq<Task>, id: string)
    ensures From(box, id).Some? ==> var s := From(box, id).value; s != [] && s[0].id == id && IsSuffix(s, box)
    ensures From(box, id).None? <==> forall t | t in box :: t.id != id
  {
    if box != [] {
      FromSuffix(box[1..], id);
      assert box == [box[0]] + box[1..];
    }
  }

  function NameOfMark(sdk: Sdk, mark: Mark): string {
    match mark
    case Start => ""
    case At(id) => sdk.tokenOf(id)
    case End => EXHAUSTED
  }

  /** A reader is at the start of both mailboxes or of neither, and never at the end of both. */
  predicate Proper(place: Place) {
    (place.a.Start? <==> place.b.Start?) && !(place.a.End? && place.b.End?)
  }

  /** The cursor of a place. */
  function CursorFor(r: Reader, place: Place, totals: map<string, int>): Cursor {
    if place == BEGINNING then START
    else
      Cursor(if place.a.Start? then map[] else map[r.ida := NameOfMark(r.sdk, place.a), r.idb := NameOfMark(r.sdk, place.b)],
             if place.half then r.p else 0, totals)
  }

  lemma TokenOfMark(r: Reader, place: Place, totals: map<string, int>)
    requires r.Valid() && Proper(place)
    ensures TokenFor(CursorFor(r, place, totals), r.ida) == NameOfMark(r.sdk, place.a)
    ensures TokenFor(CursorFor(r, place, totals), r.idb) == NameOfMark(r.sdk, place.b)
  {
  }

  lemma MarkReads(sdk: Sdk, box: seq<Task>, mark: Mark)
    requires Unread(box, mark).Some?
    ensures Reads(sdk, box, NameOfMark(sdk, mark), Unread(box, mark).value)
  {
    match mark
    case Start =>
    case At(id) => FromSuffix(box, id);
    case End => SuffixMeans([], box);
  }

  lemma MarkIsGone(sdk: Sdk, box: seq<Task>, mark: Mark, p: nat)
    requires sdk.Valid() && Unread(box, mark).None?
    ensures Fetch(sdk, box, NameOfMark(sdk, mark), p) == Err(InvalidPageToken)
  {
    FromSuffix(box, mark.id);
    var i := Position(sdk, box, sdk.tokenOf(mark.id));
    if i < |box| {
      TokensDiffer(sdk, box[i].id, mark.id);
    }
  }

  lemma AfterIsPlace(r: Reader, sa: seq<Task>, sb: seq<Task>, totals: map<string, int>)
    ensures CursorAfter(r, sa, sb, totals) ==
              match PlaceAfter(sa, sb) case None => None case Some(place) => Some(CursorFor(r, place, totals))
  {
  }

  /** One page for the cursor of a place is one turn at that place. */
  lemma PageIsTurn(r: Reader, x: Boxes, place: Place, totals: map<string, int>)
    requires r.Valid() && IsBox(x.a) && IsBox(x.b) && Proper(place)
    requires totals.Keys == {r.ida, r.idb} && (place == BEGINNING ==> totals == Totals(r, x))
    ensures var page := PageOf(r.sdk, CursorFor(r, place, totals), r.p, r.ida, x.a, r.idb, x.b);
            match TurnAt(r, x, place)
            case Refused => page.Err?
            case Turned(window, next) =>
              page == Ok(HubPage(window, Sum(r, totals),
                                 match next case None => None case Some(q) => Some(CursorFor(r, q, totals))))
  {
    var c := CursorFor(r, place, totals);
    TokenOfMark(r, place, totals);
    if Unread(x.a, place.a).None? {
      MarkIsGone(r.sdk, x.a, place.a, r.p);
    } else if Unread(x.b, place.b).None? {
      MarkIsGone(r.sdk, x.b, place.b, r.p);
    } else {
      TurnIsServed(r, x, place, totals, Unread(x.a, place.a).value, Unread(x.b, place.b).value);
    }
  }

  lemma TurnIsServed(r: Reader, x: Boxes, place: Place, totals: map<string, int>, sa: seq<Task>, sb: seq<Task>)
    requires r.Valid() && IsBox(x.a) && IsBox(x.b) && Proper(place)
    requires totals.Keys == {r.ida, r.idb} && (place == BEGINNING ==> totals == Totals(r, x))
    requires Unread(x.a, place.a) == Some(sa) && Unread(x.b, place.b) == Some(sb)
    ensures var turn := TurnOn(r, place, sa, sb);
            PageOf(r.sdk, CursorFor(r, place, totals), r.p, r.ida, x.a, r.idb, x.b) ==
              Ok(HubPage(turn.window, Sum(r, totals),
                         match turn.next case None => None case Some(q) => Some(CursorFor(r, q, totals))))
  {
    var c, m := CursorFor(r, place, totals), Batch(r, sa, sb);
    TokenOfMark(r, place, totals);
    MarkReads(r.sdk, x.a, place.a);
    MarkReads(r.sdk, x.b, place.b);
    PageReads(r, c, x, sa, sb);
    assert TotalsAfter(r, c, x) == totals;
    BatchSize(r, sa, sb);
    if !place.half && |m| > r.p {
      HalfPage(r, c, x, sa, sb);
      assert Take(m, r.p) == m[..r.p];
    } else {
      LastPage(r, c, x, sa, sb);
      AfterIsPlace(r, Drop(sa, r.p), Drop(sb, r.p), totals);
      assert Drop(m, 0) == m;
    }
  }

  function CursorOfPlace(r: Reader, place: Option<Place>, totals: map<string, int>): Option<Cursor> {
    match place case None => None case Some(q) => Some(CursorFor(r, q, totals))
  }

  lemma {:induction false} PlacesAreProper(r: Reader, h: History, k: nat)
    ensures PlaceAt(r, h, k).Some? ==> Proper(PlaceAt(r, h, k).value) && (k > 0 ==> PlaceAt(r, h, k).value != BEGINNING)
  {
    if k > 0 {
      PlacesAreProper(r, h, k - 1);
    }
  }

  function PageOfTurn(r: Reader, turn: Option<Turn>, totals: map<string, int>): Option<HubPage>
    requires r.ida in totals && r.idb in totals
  {
    match turn
    case Some(Turned(window, next)) => Some(HubPage(window, Sum(r, totals), CursorOfPlace(r, next, totals)))
    case _ => None
  }

  lemma PageTraceIsTurn(r: Reader, h: History, k: nat, totals: map<string, int>)
    requires r.Valid() && BoxedAt(h, k) && totals == Totals(r, h(0))
    requires PlaceAt(r, h, k).Some? && Proper(PlaceAt(r, h, k).value)
    requires k > 0 ==> PlaceAt(r, h, k).value != BEGINNING
    requires CursorTrace(r, h, k) == CursorOfPlace(r, PlaceAt(r, h, k), totals)
    ensures PageTrace(r, h, k) == PageOfTurn(r, TurnOf(r, h, k), totals)
  {
    PageIsTurn(r, h(k), PlaceAt(r, h, k).value, totals);
  }

  /** Following the cursors is moving through the places, for every history. */
  lemma {:induction false} CursorsArePlaces(r: Reader, h: History, k: nat)
    requires r.Valid() && Boxed(h)
    ensures CursorTrace(r, h, k) == CursorOfPlace(r, PlaceAt(r, h, k), Totals(r, h(0)))
    ensures PageTrace(r, h, k) == PageOfTurn(r, TurnOf(r, h, k), Totals(r, h(0)))
  {
    var totals := Totals(r, h(0));
    if k > 0 {
      var j: nat := k - 1;
      CursorsArePlaces(r, h, j);
      assert CursorTrace(r, h, j + 1) == CursorOfPlace(r, PlaceAt(r, h, j + 1), totals);
    }
    assert BoxedAt(h, k);
    if PlaceAt(r, h, k).Some? {
      PlacesAreProper(r, h, k);
      PageTraceIsTurn(r, h, k, Totals(r, h(0)));
    }
  }

  // The client at a place

  /** What the hub answers to the k-th request of a walk. */
  lemma ServedFromToken(r: Reader, h: History, k: nat)
    requires r.Valid() && Boxed(h) && ServedAt(r, h, k)
    requires TokenAt(ServerOf(r, h), k) == TraceToken(CursorTrace(r, h, k))
    ensures ReplyAt(ServerOf(r, h), k) ==
              Served(Page(WindowAt(r, h, k), |h(0).a| + |h(0).b|, TokenAt(ServerOf(r, h), k + 1)))
    ensures TokenAt(ServerOf(r, h), k + 1) == TraceToken(CursorTrace(r, h, k + 1))
  {
    CursorsArePlaces(r, h, k);
    PageIsOpaque(r, h, k);
  }

  lemma {:induction false} TokenAtPlace(r: Reader, h: History, k: nat)
    requires r.Valid() && Boxed(h) && PlaceAt(r, h, k).Some?
    ensures TokenAt(ServerOf(r, h), k) == TraceToken(CursorTrace(r, h, k))
  {
    if k > 0 {
      var j: nat := k - 1;
      assert PlaceAt(r, h, j).Some? && ServedAt(r, h, j) by { PlacesBefore(r, h, j, k); }
      assert TokenAt(ServerOf(r, h), j + 1) == TraceToken(CursorTrace(r, h, j + 1)) by {
        TokenAtPlace(r, h, j);
        ServedFromToken(r, h, j);
      }
    }
  }

  lemma ServedAtPlace(r: Reader, h: History, k: nat)
    requires r.Valid() && Boxed(h) && ServedAt(r, h, k)
    ensures ReplyAt(ServerOf(r, h), k) ==
              Served(Page(WindowAt(r, h, k), |h(0).a| + |h(0).b|, TokenAt(ServerOf(r, h), k + 1)))
    ensures TokenAt(ServerOf(r, h), k + 1) == TraceToken(CursorTrace(r, h, k + 1))
    ensures TasksAt(ServerOf(r, h), k) == WindowAt(r, h, k)
  {
    TokenAtPlace(r, h, k);
    ServedFromToken(r, h, k);
  }

  lemma GatheredStep(r: Reader, h: History, k: nat)
    requires r.Valid() && Boxed(h) && ServedAt(r, h, k) && Gathered(ServerOf(r, h), k) == Handed(r, h, 0, k)
    ensures Gathered(ServerOf(r, h), k + 1) == Handed(r, h, 0, k + 1)
  {
    ServedAtPlace(r, h, k);
  }

  lemma {:induction false} GatheredAtPlaces(r: Reader, h: History, k: nat)
    requires r.Valid() && Boxed(h) && (k > 0 ==> ServedAt(r, h, k - 1))
    ensures Gathered(ServerOf(r, h), k) == Handed(r, h, 0, k)
  {
    if k > 0 {
      var j: nat := k - 1;
      if j > 0 {
        PlacesBefore(r, h, j - 1, j);
      }
      GatheredAtPlaces(r, h, j);
      GatheredStep(r, h, j);
    }
  }

  lemma RefusedIsFault(r: Reader, h: History, k: nat)
    requires r.Valid() && Boxed(h) && TurnOf(r, h, k) == Some(Refused)
    ensures ReplyAt(ServerOf(r, h), k) == Fault("Invalid page token")
  {
    TokenAtPlace(r, h, k);
    var place, totals := PlaceAt(r, h, k).value, Totals(r, h(0));
    CursorsArePlaces(r, h, k);
    PlacesAreProper(r, h, k);
    assert BoxedAt(h, k);
    PageIsTurn(r, h(k), place, totals);
    TokenDecodes(r.foreign, CursorFor(r, place, totals));
  }

  lemma TokenIsLast(r: Reader, h: History, k: nat)
    requires r.Valid() && Boxed(h) && k > 0 && ServedAt(r, h, k - 1)
    ensures TokenAt(ServerOf(r, h), k) == "" <==> PlaceAt(r, h, k) == None
  {
    ServedAtPlace(r, h, k - 1);
    CursorsArePlaces(r, h, k);
    if PlaceAt(r, h, k).Some? {
      PlacesAreProper(r, h, k);
      DecodeEncode(r.foreign, CursorFor(r, PlaceAt(r, h, k).value, Totals(r, h(0))));
    }
  }

  lemma ReplyTells(r: Reader, h: History, k: nat)
    requires r.Valid() && Boxed(h) && PlaceAt(r, h, k).Some?
    ensures ReplyAt(ServerOf(r, h), k).Served? <==> ServedAt(r, h, k)
  {
    if ServedAt(r, h, k) {
      ServedAtPlace(r, h, k);
    } else {
      RefusedIsFault(r, h, k);
    }
  }

  /** Every page of a read reports the total the read began with. */
  lemma TotalIsFrozen(r: Reader, h: History, k: nat)
    requires r.Valid() && Boxed(h) && ServedAt(r, h, k)
    ensures ReplyAt(ServerOf(r, h), k).Served? && ReplyAt(ServerOf(r, h), k).page.total == |h(0).a| + |h(0).b|
  {
    ServedAtPlace(r, h, k);
  }

  lemma LastServed(r: Reader, h: History, k: nat)
    requires r.Valid() && Boxed(h) && ServedAt(r, h, k)
    ensures ReplyAt(ServerOf(r, h), k).Served? && ReplyAt(ServerOf(r, h), k).page.total == |h(0).a| + |h(0).b|
    ensures Gathered(ServerOf(r, h), k + 1) == Handed(r, h, 0, k + 1)
    ensures TokenAt(ServerOf(r, h), k + 1) == "" <==> PlaceAt(r, h, k + 1) == None
  {
    TotalIsFrozen(r, h, k);
    GatheredAtPlaces(r, h, k + 1);
    TokenIsLast(r, h, k + 1);
  }

  /** At request `k` the server does what a reading that is still `on` says. */
  ghost predicate FollowsAt(server: Server, on: nat -> bool, served: nat -> bool, handed: nat -> seq<Task>, first: Boxes,
                            k: nat) {
    on(k) ==>
      && (ReplyAt(server, k).Served? <==> served(k))
      && (served(k) ==>
            && ReplyAt(server, k).page.total == |first.a| + |first.b|
            && Gathered(server, k + 1) == handed(k + 1)
            && (TokenAt(server, k + 1) == "" <==> !on(k + 1)))
  }

  ghost predicate Follows(server: Server, on: nat -> bool, served: nat -> bool, handed: nat -> seq<Task>, first: Boxes) {
    on(0) && forall k: nat :: FollowsAt(server, on, served, handed, first, k)
  }

  lemma {:induction false} WalkStaysOn(server: Server, on: nat -> bool, served: nat -> bool, handed: nat -> seq<Task>,
                                       first: Boxes, maxPages: int, requests: nat, k: nat)
    requires Follows(server, on, served, handed, first) && GoneOn(server, requests, maxPages) && k < requests
    ensures on(k)
  {
    if k > 0 {
      WalkStaysOn(server, on, served, handed, first, maxPages, requests, k - 1);
      WalkGoesOn(server, maxPages, requests, k);
      assert FollowsAt(server, on, served, handed, first, k - 1);
    }
  }

  /** What a walk over a reading ends with. */
  ghost predicate EndsLike(on: nat -> bool, served: nat -> bool, handed: nat -> seq<Task>, first: Boxes, requests: nat,
                           o: Outcome) {
    && requests > 0 && on(requests - 1)
    && (o.Raised? <==> !served(requests - 1))
    && (o.Listed? ==>
          && o.listing.tasks == handed(requests)
          && o.listing.total == |first.a| + |first.b|
          && (!o.listing.incomplete <==> !on(requests)))
  }

  lemma WalkOfReading(server: Server, on: nat -> bool, served: nat -> bool, handed: nat -> seq<Task>, first: Boxes)
    requires Follows(server, on, served, handed, first)
    ensures forall maxPages: int, requests: nat, o: Outcome | Walk(server, maxPages, requests, o) ::
              EndsLike(on, served, handed, first, requests, o)
  {
    forall maxPages: int, requests: nat, o: Outcome | Walk(server, maxPages, requests, o)
      ensures EndsLike(on, served, handed, first, requests, o)
    {
      WalkStaysOn(server, on, served, handed, first, maxPages, requests, requests - 1);
      WalkSays(server, maxPages, requests, o);
      assert FollowsAt(server, on, served, handed, first, requests - 1);
    }
  }

  function OnWay(r: Reader, h: History): nat -> bool {
    (k: nat) => PlaceAt(r, h, k).Some?
  }

  function ServedWay(r: Reader, h: History): nat -> bool {
    (k: nat) => ServedAt(r, h, k)
  }

  function HandedWay(r: Reader, h: History): nat -> seq<Task> {
    (k: nat) => Handed(r, h, 0, k)
  }

  lemma ServerFollows(r: Reader, h: History)
    requires r.Valid() && Boxed(h)
    ensures Follows(ServerOf(r, h), OnWay(r, h), ServedWay(r, h), HandedWay(r, h), h(0))
  {
    forall k: nat ensures FollowsAt(ServerOf(r, h), OnWay(r, h), ServedWay(r, h), HandedWay(r, h), h(0), k) {
      if PlaceAt(r, h, k).Some? {
        ReplyTells(r, h, k);
        if ServedAt(r, h, k) {
          LastServed(r, h, k);
        }
      }
    }
  }

  /** A reading that ended as a walk over these places does. */
  ghost predicate EndsAtPlaces(r: Reader, h: History, requests: nat, o: Outcome) {
    && requests > 0 && PlaceAt(r, h, requests - 1).Some?
    && (o.Raised? <==> !ServedAt(r, h, requests - 1))
    && (o.Listed? ==>
          && o.listing.tasks == Handed(r, h, 0, requests)
          && o.listing.total == |h(0).a| + |h(0).b|
          && (!o.listing.incomplete <==> PlaceAt(r, h, requests) == None))
  }

  lemma WayIsPlaces(r: Reader, h: History, requests: nat, o: Outcome)
    requires EndsLike(OnWay(r, h), ServedWay(r, h), HandedWay(r, h), h(0), requests, o)
    ensures EndsAtPlaces(r, h, requests, o)
  {
  }

  /**
   Every walk, whatever happens to the mailboxes meanwhile: it raises exactly when its last request
   is refused, and otherwise has what the places handed out, the total it began with, and calls
   itself complete exactly when nothing was left.
   */
  lemma WalkOverPlaces(r: Reader, h: History, maxPages: int, requests: nat, o: Outcome)
    requires r.Valid() && Boxed(h) && Walk(ServerOf(r, h), maxPages, requests, o)
    ensures EndsAtPlaces(r, h, requests, o)
  {
    ServerFollows(r, h);
    WalkOfReading(ServerOf(r, h), OnWay(r, h), ServedWay(r, h), HandedWay(r, h), h(0));
    WayIsPlaces(r, h, requests, o);
  }

  lemma EndSays(r: Reader, h: History, last: nat, o: Outcome)
    requires EndsAtPlaces(r, h, last + 1, o)
    ensures PlaceAt(r, h, last).Some?
    ensures o.Raised? <==> !ServedAt(r, h, last)
  {
  }

  // Tokens tell places apart

  lemma NamesTellMarks(sdk: Sdk, m: Mark, n: Mark)
    requires sdk.Valid() && NameOfMark(sdk, m) == NameOfMark(sdk, n)
    ensures m == n
  {
    if m.At? {
      assert sdk.idOf(sdk.tokenOf(m.id)) == m.id;
    }
    if n.At? {
      assert sdk.idOf(sdk.tokenOf(n.id)) == n.id;
    }
  }

  lemma CursorsTellPlaces(r: Reader, p: Place, q: Place, totals: map<string, int>)
    requires r.Valid() && Proper(p) && Proper(q) && totals.Keys == {r.ida, r.idb}
    requires CursorFor(r, p, totals) == CursorFor(r, q, totals)
    ensures p == q
  {
    var c, d := CursorFor(r, p, totals), CursorFor(r, q, totals);
    assert r.ida in totals;
    TokenOfMark(r, p, totals);
    TokenOfMark(r, q, totals);
    NamesTellMarks(r.sdk, p.a, q.a);
    NamesTellMarks(r.sdk, p.b, q.b);
  }

  /** No token of the walk's first `n` is empty or repeats an earlier one. */
  ghost predicate FreshTokens(server: Server, n: nat) {
    forall k | 0 < k < n :: TokenAt(server, k) != "" && forall j | 0 < j < k :: TokenAt(server, j) != TokenAt(server, k)
  }

  lemma TokenOfPlace(r: Reader, h: History, k: nat)
    requires r.Valid() && Boxed(h) && 0 < k && PlaceAt(r, h, k).Some?
    ensures TokenAt(ServerOf(r, h), k) == Encode(CursorFor(r, PlaceAt(r, h, k).value, Totals(r, h(0))))
    ensures TokenAt(ServerOf(r, h), k) != ""
  {
    var c := CursorFor(r, PlaceAt(r, h, k).value, Totals(r, h(0)));
    TokenAtPlace(r, h, k);
    CursorsArePlaces(r, h, k);
    PlacesAreProper(r, h, k);
    assert r.ida in Totals(r, h(0));
    DecodeEncode(r.foreign, c);
  }

  /** At different places different tokens, and at the same place the same, for every history. */
  lemma TokensTellPlaces(r: Reader, h: History, j: nat, k: nat)
    requires r.Valid() && Boxed(h) && 0 < j && 0 < k && PlaceAt(r, h, j).Some? && PlaceAt(r, h, k).Some?
    ensures TokenAt(ServerOf(r, h), j) == TokenAt(ServerOf(r, h), k) <==> PlaceAt(r, h, j) == PlaceAt(r, h, k)
  {
    var p, q, totals := PlaceAt(r, h, j).value, PlaceAt(r, h, k).value, Totals(r, h(0));
    TokenOfPlace(r, h, j);
    TokenOfPlace(r, h, k);
    PlacesAreProper(r, h, j);
    PlacesAreProper(r, h, k);
    if TokenAt(ServerOf(r, h), j) == TokenAt(ServerOf(r, h), k) {
      EncodeInjective(CursorFor(r, p, totals), CursorFor(r, q, totals));
      CursorsTellPlaces(r, p, q, totals);
    }
  }
}
