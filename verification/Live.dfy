/**
 A session reads its mailboxes while sends are in flight: any number of them, their steps and the
 saves of their events falling anywhere between the fetches of the read. A send that has not
 begun is one that is to begin later, so sends may start at any time.
 */
module Live {
  import opened Arrivals
  import opened Client
  import opened Cursors
  import opened Delivery
  import opened Executor
  import opened Identity
  import opened Mailboxes
  import opened Paging
  import opened Places
  import opened Repeats
  import opened Sorting
  import opened Store
  import opened Tables
  import opened Tasks
  import opened Wrappers
  import Drain
  import Text

  /** What happens before each fetch of the read, of which a request makes two. */
  type Schedule = nat -> seq<Move>

  /** Makes the moves that are possible when their turn comes. */
  function RunOn(w: World, moves: seq<Move>): World
    decreases moves
  {
    if moves == [] then w else RunOn(if Enabled(w, moves[0]) then Next(w, moves[0]) else w, moves[1..])
  }

  function WorldAt(start: World, schedule: Schedule, k: nat): World {
    RunOn(if k == 0 then start else WorldAt(start, schedule, k - 1), schedule(k))
  }

  /** The world at the first fetch of the k-th request. */
  function FirstWorld(start: World, schedule: Schedule, k: nat): World {
    WorldAt(start, schedule, 2 * k)
  }

  /** The world at its second fetch. */
  function SecondWorld(start: World, schedule: Schedule, k: nat): World {
    WorldAt(start, schedule, 2 * k + 1)
  }

  function LogOf(start: World, schedule: Schedule): Log {
    (k: nat) => WorldAt(start, schedule, k).rows
  }

  /** New sends by sessions, under new ids, ending after the epoch, over rows in order. */
  ghost predicate Starts(sends: seq<Send>, rows: Rows) {
    && DistinctSends(sends)
    && (forall i | 0 <= i < |sends| ::
          && sends[i].current == None && Lookup(rows, sends[i].taskId) == None
          && sends[i].seconds > 0 && Session(sends[i].user))
    && Consistent(rows) && WellDated(rows)
  }

  // What a send saves

  lemma SavedTask(send: Send, known: Option<set<string>>, n: nat)
    requires send.current == None && send.seconds > 0 && 0 < n <= |EventsIn(Program(send, known))|
    ensures TaskAfter(send, known, n).Some?
    ensures var task := TaskAfter(send, known, n).value;
            && task.id == send.taskId && Dated(task)
            && (Settled(task) <==> n == |EventsIn(Program(send, known))|)
  {
    EventsOfProgram(send, known);
    var events := EventsIn(Program(send, known));
    assert events[0] == NewTask(send.taskId);
    assert TaskAfter(send, known, 1) == Some(Bare(send.taskId));
    if n == |events| {
      OutcomeIsLast(send, known);
    } else if n == 2 {
      assert events[1].AddArtifact?;
    }
  }

  /** A row replaced before it settles: the settled rows stay. */
  lemma {:induction false} PutLasts(rows: Rows, key: string, stored: Stored)
    requires forall e | e in rows && e.key == key :: !Settled(e.value.task)
    ensures RowsLast(rows, Put(rows, key, stored))
  {
    if rows != [] {
      var first, rest := rows[0], rows[1..];
      assert rows == [first] + rest;
      if first.key == key {
        SubseqRefl(Filter(rest, SettledRow()));
        assert ([Entry(key, stored)] + rest)[1..] == rest;
        SubseqCons(Filter(rest, SettledRow()), Entry(key, stored), Filter(rest, SettledRow()));
      } else {
        PutLasts(rest, key, stored);
        assert ([first] + Put(rest, key, stored))[1..] == Put(rest, key, stored);
        SubseqBoth(first, Filter(rest, SettledRow()), Filter(Put(rest, key, stored), SettledRow()));
      }
    }
  }

  /** A row's owner changes, if ever, from the sender to the destination. */
  ghost predicate OwnerMoves(was: Option<Stored>, now: Option<Stored>, send: Send, known: Option<set<string>>) {
    was.Some? ==>
      && now.Some?
      && (|| now.value.owner == was.value.owner
          || (was.value.owner == send.user && now.value.owner == Destination(send, known)))
  }

  ghost predicate OwnersMove(rows: Rows, later: Rows, sends: seq<Send>, known: Option<set<string>>) {
    forall i | 0 <= i < |sends| ::
      OwnerMoves(Lookup(rows, sends[i].taskId), Lookup(later, sends[i].taskId), sends[i], known)
  }

  ghost predicate Onward(rows: Rows, later: Rows, sends: seq<Send>, known: Option<set<string>>) {
    RowsLast(rows, later) && OwnersMove(rows, later, sends, known)
  }

  /** What every world keeps. */
  ghost predicate InOrder(w: World, sends: seq<Send>, known: Option<set<string>>, before: Rows) {
    Steady(w, sends, known, before) && Consistent(w.rows) && WellDated(w.rows)
  }

  lemma HandledIsMidway(f: Flight, known: Option<set<string>>)
    requires OnCourse(f, known) && f.queue != []
    ensures Handled(f, known) < |EventsIn(Program(f.send, known))|
  {
    TodoIsEnding(f, known);
  }

  lemma SavedIsFit(f: Flight, known: Option<set<string>>)
    requires OnCourse(f, known) && f.queue != [] && f.send.current == None && f.send.seconds > 0
    ensures var task := Saved(Consume(f)).task; task.id == f.send.taskId && Dated(task)
  {
    HandledIsMidway(f, known);
    ConsumeKeeps(f, known);
    SavedTask(f.send, known, Handled(f, known) + 1);
  }

  lemma OverwrittenIsOpen(f: Flight, known: Option<set<string>>, row: Option<Stored>)
    requires OnCourse(f, known) && f.queue != [] && f.send.current == None && f.send.seconds > 0
    requires RowOnCourse(f, known, None, row)
    ensures row.Some? ==> !Settled(row.value.task)
    ensures OwnerMoves(row, Some(Saved(Consume(f))), f.send, known)
  {
    HandledIsMidway(f, known);
    if row.Some? {
      SavedTask(f.send, known, Handled(f, known));
    }
  }

  /** The row a send is about to save over, and what it saves. */
  lemma NextSave(w: World, i: nat, sends: seq<Send>, known: Option<set<string>>, before: Rows)
    requires Starts(sends, before) && InOrder(w, sends, known, before) && Enabled(w, Handle(i))
    ensures var f := w.flights[i];
            var was, stored := Lookup(w.rows, f.send.taskId), Saved(Consume(f));
            && f.send == sends[i]
            && (was.Some? ==> !Settled(was.value.task))
            && stored.task.id == f.send.taskId && Dated(stored.task)
            && OwnerMoves(was, Some(stored), f.send, known)
  {
    var f := w.flights[i];
    assert FlightOk(w, i, sends, known, before);
    SavedIsFit(f, known);
    OverwrittenIsOpen(f, known, Lookup(w.rows, f.send.taskId));
  }

  lemma SaveIsOnward(w: World, i: nat, sends: seq<Send>, known: Option<set<string>>, before: Rows)
    requires Starts(sends, before) && InOrder(w, sends, known, before) && Enabled(w, Handle(i))
    ensures var v := Next(w, Handle(i)); Consistent(v.rows) && WellDated(v.rows) && Onward(w.rows, v.rows, sends, known)
  {
    var f, stored := w.flights[i], Saved(Consume(w.flights[i]));
    var id, was := f.send.taskId, Lookup(w.rows, f.send.taskId);
    NextSave(w, i, sends, known, before);
    PutKeeps(w.rows, id, stored);
    forall e | e in w.rows && e.key == id ensures !Settled(e.value.task) {
      LookupIsMembership(w.rows, id, e.value);
    }
    PutLasts(w.rows, id, stored);
    forall j | 0 <= j < |sends|
      ensures OwnerMoves(Lookup(w.rows, sends[j].taskId), Lookup(Put(w.rows, id, stored), sends[j].taskId), sends[j], known)
    {
      LookupPut(w.rows, id, stored, sends[j].taskId);
      assert j != i ==> sends[j].taskId != sends[i].taskId;
    }
  }

  lemma RowsLastRefl(rows: Rows, sends: seq<Send>, known: Option<set<string>>)
    ensures Onward(rows, rows, sends, known)
  {
    SubseqRefl(Filter(rows, SettledRow()));
  }

  lemma OnwardTrans(a: Rows, b: Rows, c: Rows, sends: seq<Send>, known: Option<set<string>>)
    requires Onward(a, b, sends, known) && Onward(b, c, sends, known)
    ensures Onward(a, c, sends, known)
  {
    SubseqTrans(Filter(a, SettledRow()), Filter(b, SettledRow()), Filter(c, SettledRow()));
    forall i | 0 <= i < |sends|
      ensures OwnerMoves(Lookup(a, sends[i].taskId), Lookup(c, sends[i].taskId), sends[i], known)
    {
      assert OwnerMoves(Lookup(a, sends[i].taskId), Lookup(b, sends[i].taskId), sends[i], known);
      assert OwnerMoves(Lookup(b, sends[i].taskId), Lookup(c, sends[i].taskId), sends[i], known);
    }
  }

  lemma MoveIsOnward(w: World, m: Move, sends: seq<Send>, known: Option<set<string>>, before: Rows)
    requires Starts(sends, before) && InOrder(w, sends, known, before) && Enabled(w, m)
    ensures InOrder(Next(w, m), sends, known, before) && Onward(w.rows, Next(w, m).rows, sends, known)
  {
    StepKeeps(w, m, sends, known, before);
    match m
    case Advance(_) => RowsLastRefl(w.rows, sends, known);
    case Handle(i) => SaveIsOnward(w, i, sends, known, before);
  }

  lemma {:induction false} RunIsOnward(w: World, moves: seq<Move>, sends: seq<Send>, known: Option<set<string>>,
                                       before: Rows)
    requires Starts(sends, before) && InOrder(w, sends, known, before)
    ensures InOrder(RunOn(w, moves), sends, known, before) && Onward(w.rows, RunOn(w, moves).rows, sends, known)
    decreases moves
  {
    if moves == [] {
      RowsLastRefl(w.rows, sends, known);
    } else {
      var v := if Enabled(w, moves[0]) then Next(w, moves[0]) else w;
      if Enabled(w, moves[0]) {
        MoveIsOnward(w, moves[0], sends, known, before);
      } else {
        RowsLastRefl(w.rows, sends, known);
      }
      RunIsOnward(v, moves[1..], sends, known, before);
      OnwardTrans(w.rows, v.rows, RunOn(v, moves[1..]).rows, sends, known);
    }
  }

  lemma {:induction false} WorldsAreInOrder(sends: seq<Send>, known: Option<set<string>>, rows: Rows, schedule: Schedule,
                                            k: nat)
    requires Starts(sends, rows)
    ensures InOrder(WorldAt(Takeoff(sends, known, rows), schedule, k), sends, known, rows)
  {
    var start := Takeoff(sends, known, rows);
    if k == 0 {
      TakeoffIsSteady(sends, known, rows);
      RunIsOnward(start, schedule(0), sends, known, rows);
    } else {
      WorldsAreInOrder(sends, known, rows, schedule, k - 1);
      RunIsOnward(WorldAt(start, schedule, k - 1), schedule(k), sends, known, rows);
    }
  }

  lemma WorldsGoOn(sends: seq<Send>, known: Option<set<string>>, rows: Rows, schedule: Schedule, k: nat)
    requires Starts(sends, rows)
    ensures var start := Takeoff(sends, known, rows);
            Onward(WorldAt(start, schedule, k).rows, WorldAt(start, schedule, k + 1).rows, sends, known)
  {
    var start := Takeoff(sends, known, rows);
    WorldsAreInOrder(sends, known, rows, schedule, k);
    RunIsOnward(WorldAt(start, schedule, k), schedule(k + 1), sends, known, rows);
  }

  /** Whatever is delivered meanwhile, in whatever order it is saved, settled rows last. */
  lemma DeliveriesLast(sends: seq<Send>, known: Option<set<string>>, rows: Rows, schedule: Schedule)
    requires Starts(sends, rows)
    ensures LogLasts(LogOf(Takeoff(sends, known, rows), schedule))
  {
    var log := LogOf(Takeoff(sends, known, rows), schedule);
    forall k: nat ensures LogLastsAt(log, k) {
      WorldsAreInOrder(sends, known, rows, schedule, k);
      WorldsAreInOrder(sends, known, rows, schedule, k + 1);
      WorldsGoOn(sends, known, rows, schedule, k);
    }
  }

  /**
   A read while sends are in flight: unless it is refused or calls itself incomplete, it holds every
   delivered or rejected task its two mailboxes had when it began.
   */
  lemma ReadWhileDelivering(sends: seq<Send>, known: Option<set<string>>, rows: Rows, schedule: Schedule, sdk: Sdk,
                            foreign: Foreign, user: string, requested: nat, maxPages: int, requests: nat,
                            o: Client.Outcome, e: Entry<string, Stored>)
    requires Starts(sends, rows) && sdk.Valid() && Session(user)
    requires var log := LogOf(Takeoff(sends, known, rows), schedule);
             && Walk(HubServer(sdk, foreign, log, user, requested), maxPages, requests, o)
             && e in log(0)
    requires Settled(e.value.task) && e.value.owner in [user, PrincipalOf(user)]
    ensures o.Listed? && !o.listing.incomplete ==> e.value.task in o.listing.tasks
  {
    DeliveriesLast(sends, known, rows, schedule);
    if o.Listed? {
      NothingIsMissed(sdk, foreign, LogOf(Takeoff(sends, known, rows), schedule), user, requested, maxPages, requests, o, e);
    }
  }

  // When a request is refused

  ghost predicate Holds(rows: Rows, owner: string, id: string) {
    HasId(Mailbox(rows, owner), id)
  }

  lemma HoldsByRow(rows: Rows, owner: string, id: string)
    requires Consistent(rows)
    ensures Holds(rows, owner, id) <==> Lookup(rows, id).Some? && Lookup(rows, id).value.owner == owner
  {
    if t :| t in Mailbox(rows, owner) && t.id == id {
      GetReads(rows, owner, id, t);
    }
    if Lookup(rows, id).Some? && Lookup(rows, id).value.owner == owner {
      GetReads(rows, owner, id, Lookup(rows, id).value.task);
    }
  }

  lemma SettledRowStays(rows: Rows, later: Rows, id: string)
    requires Consistent(rows) && Consistent(later) && RowsLast(rows, later)
    requires Lookup(rows, id).Some? && Settled(Lookup(rows, id).value.task)
    ensures Lookup(later, id) == Lookup(rows, id)
  {
    var stored := Lookup(rows, id).value;
    var e := Entry(id, stored);
    LookupIsMembership(rows, id, stored);
    FilterHolds(rows, SettledRow(), e);
    SubseqIn(Filter(rows, SettledRow()), Filter(later, SettledRow()), e);
    FilterHolds(later, SettledRow(), e);
    LookupIsMembership(later, id, stored);
  }

  /** The announcement of the i-th send has gone from `owner`'s mailbox to where the send is routed. */
  ghost predicate MovedAway(rows: Rows, later: Rows, owner: string, send: Send, known: Option<set<string>>) {
    var was, now := Lookup(rows, send.taskId), Lookup(later, send.taskId);
    && send.user == owner != Destination(send, known)
    && was.Some? && was.value.owner == owner && !Settled(was.value.task)
    && now.Some? && now.value.owner == Destination(send, known)
  }

  /** A task leaves a mailbox only as the announcement of a send by the mailbox's owner to someone else. */
  lemma OnlyAnnouncementsLeave(w: World, v: World, sends: seq<Send>, known: Option<set<string>>, before: Rows,
                               owner: string, id: string) returns (i: nat)
    requires Starts(sends, before) && InOrder(w, sends, known, before) && InOrder(v, sends, known, before)
    requires Onward(w.rows, v.rows, sends, known)
    requires Holds(w.rows, owner, id) && !Holds(v.rows, owner, id)
    ensures i < |sends| && sends[i].taskId == id && MovedAway(w.rows, v.rows, owner, sends[i], known)
  {
    HoldsByRow(w.rows, owner, id);
    HoldsByRow(v.rows, owner, id);
    assert !Untouched(id, sends);
    i :| 0 <= i < |sends| && sends[i].taskId == id;
    assert OwnerMoves(Lookup(w.rows, id), Lookup(v.rows, id), sends[i], known);
    if Settled(Lookup(w.rows, id).value.task) {
      SettledRowStays(w.rows, v.rows, id);
    }
  }

  lemma UnreadNeedsTask(box: seq<Task>, mark: Mark)
    ensures Unread(box, mark).None? <==> mark.At? && forall t | t in box :: t.id != mark.id
  {
    if mark.At? {
      FromSuffix(box, mark.id);
    }
  }

  lemma MarkWasHeld(r: Reader, h: History, k: nat)
    requires Boxed(h) && k > 0 && PlaceAt(r, h, k).Some?
    ensures var q := PlaceAt(r, h, k).value;
            && Unread(h(k - 1).a, q.a).Some? && Unread(h(k - 1).b, q.b).Some?
  {
    var j: nat := k - 1;
    assert BoxedAt(h, j);
    PlacesBefore(r, h, j, k);
    MarksFound(r, h, j);
  }

  /** The place names the announcement of a send by the reader that has just moved away. */
  ghost predicate NamesMoved(rows: Rows, later: Rows, sends: seq<Send>, known: Option<set<string>>, user: string,
                             place: Place) {
    exists i | 0 <= i < |sends| :: place.a == At(sends[i].taskId) && MovedAway(rows, later, user, sends[i], known)
  }

  lemma SessionIsNoPrincipal(user: string, other: string)
    requires Session(user)
    ensures PrincipalOf(other) != user
  {
    Text.PartitionSplits(other, SEPARATOR);
  }

  ghost predicate InStep(w: World, v: World, sends: seq<Send>, known: Option<set<string>>, rows: Rows) {
    InOrder(w, sends, known, rows) && InOrder(v, sends, known, rows) && Onward(w.rows, v.rows, sends, known)
  }

  /** Nothing ever leaves an agent's own mailbox: its sessions send, not the agent. */
  lemma PrincipalKeepsAll(sends: seq<Send>, known: Option<set<string>>, rows: Rows, w: World, v: World, user: string,
                          mark: Mark)
    requires Starts(sends, rows) && InStep(w, v, sends, known, rows)
    requires Unread(Mailbox(w.rows, PrincipalOf(user)), mark).Some?
    ensures Unread(Mailbox(v.rows, PrincipalOf(user)), mark).Some?
  {
    UnreadNeedsTask(Mailbox(w.rows, PrincipalOf(user)), mark);
    UnreadNeedsTask(Mailbox(v.rows, PrincipalOf(user)), mark);
    if Unread(Mailbox(v.rows, PrincipalOf(user)), mark).None? {
      var i := OnlyAnnouncementsLeave(w, v, sends, known, rows, PrincipalOf(user), mark.id);
      SessionIsNoPrincipal(sends[i].user, user);
      assert false;
    }
  }

  /** A mark is lost exactly if it names an announcement that has moved away. */
  lemma MarkIsLost(sends: seq<Send>, known: Option<set<string>>, rows: Rows, w: World, v: World, user: string, place: Place)
    requires Starts(sends, rows) && InStep(w, v, sends, known, rows)
    requires Unread(Mailbox(w.rows, user), place.a).Some?
    ensures Unread(Mailbox(v.rows, user), place.a).None? <==> NamesMoved(w.rows, v.rows, sends, known, user, place)
  {
    UnreadNeedsTask(Mailbox(w.rows, user), place.a);
    UnreadNeedsTask(Mailbox(v.rows, user), place.a);
    if Unread(Mailbox(v.rows, user), place.a).None? {
      var i := OnlyAnnouncementsLeave(w, v, sends, known, rows, user, place.a.id);
    }
    if i :| 0 <= i < |sends| && place.a == At(sends[i].taskId) && MovedAway(w.rows, v.rows, user, sends[i], known) {
      HoldsByRow(v.rows, user, sends[i].taskId);
    }
  }

  lemma WorldBoxes(start: World, schedule: Schedule, ida: string, idb: string, k: nat)
    ensures HistoryOf(LogOf(start, schedule), ida, idb)(k) ==
              Boxes(Mailbox(FirstWorld(start, schedule, k).rows, ida), Mailbox(SecondWorld(start, schedule, k).rows, idb))
  {
  }

  lemma LiveIsBoxed(sends: seq<Send>, known: Option<set<string>>, rows: Rows, schedule: Schedule, user: string)
    requires Starts(sends, rows) && Session(user)
    ensures Boxed(HistoryOf(LogOf(Takeoff(sends, known, rows), schedule), user, PrincipalOf(user)))
  {
    SessionReads(user);
    DeliveriesLast(sends, known, rows, schedule);
    LogIsLasting(LogOf(Takeoff(sends, known, rows), schedule), user, PrincipalOf(user));
    LastingIsBoxed(HistoryOf(LogOf(Takeoff(sends, known, rows), schedule), user, PrincipalOf(user)), SettledTask());
  }

  lemma WorldsInStep(sends: seq<Send>, known: Option<set<string>>, rows: Rows, schedule: Schedule, j: nat)
    requires Starts(sends, rows)
    ensures var start := Takeoff(sends, known, rows);
            InStep(WorldAt(start, schedule, j), WorldAt(start, schedule, j + 1), sends, known, rows)
  {
    WorldsAreInOrder(sends, known, rows, schedule, j);
    WorldsAreInOrder(sends, known, rows, schedule, j + 1);
    WorldsGoOn(sends, known, rows, schedule, j);
  }

  /** From a fetch of a mailbox to the next one of the same mailbox. */
  lemma WorldsInTwo(sends: seq<Send>, known: Option<set<string>>, rows: Rows, schedule: Schedule, j: nat)
    requires Starts(sends, rows)
    ensures var start := Takeoff(sends, known, rows);
            InStep(WorldAt(start, schedule, j), WorldAt(start, schedule, j + 2), sends, known, rows)
  {
    var start := Takeoff(sends, known, rows);
    WorldsInStep(sends, known, rows, schedule, j);
    WorldsInStep(sends, known, rows, schedule, j + 1);
    OnwardTrans(WorldAt(start, schedule, j).rows, WorldAt(start, schedule, j + 1).rows, WorldAt(start, schedule, j + 2).rows,
                sends, known);
  }

  lemma RequestsInStep(sends: seq<Send>, known: Option<set<string>>, rows: Rows, schedule: Schedule, j: nat)
    requires Starts(sends, rows)
    ensures var start := Takeoff(sends, known, rows);
            && InStep(FirstWorld(start, schedule, j), FirstWorld(start, schedule, j + 1), sends, known, rows)
            && InStep(SecondWorld(start, schedule, j), SecondWorld(start, schedule, j + 1), sends, known, rows)
  {
    WorldsInTwo(sends, known, rows, schedule, 2 * j);
    WorldsInTwo(sends, known, rows, schedule, 2 * j + 1);
  }

  lemma UnservedIff(r: Reader, h: History, k: nat)
    requires PlaceAt(r, h, k).Some?
    ensures var place := PlaceAt(r, h, k).value;
            !ServedAt(r, h, k) <==> Unread(h(k).a, place.a).None? || Unread(h(k).b, place.b).None?
  {
  }

  lemma RefusedBetween(sends: seq<Send>, known: Option<set<string>>, rows: Rows, w: World, v: World, y: World, z: World,
                       r: Reader, h: History, j: nat)
    requires Starts(sends, rows) && Session(r.ida) && r.idb == PrincipalOf(r.ida)
    requires InStep(w, v, sends, known, rows) && InStep(y, z, sends, known, rows)
    requires Boxed(h) && PlaceAt(r, h, j + 1).Some?
    requires h(j) == Boxes(Mailbox(w.rows, r.ida), Mailbox(y.rows, r.idb))
    requires h(j + 1) == Boxes(Mailbox(v.rows, r.ida), Mailbox(z.rows, r.idb))
    ensures !ServedAt(r, h, j + 1) <==> NamesMoved(w.rows, v.rows, sends, known, r.ida, PlaceAt(r, h, j + 1).value)
  {
    var place := PlaceAt(r, h, j + 1).value;
    MarkWasHeld(r, h, j + 1);
    UnservedIff(r, h, j + 1);
    MarkIsLost(sends, known, rows, w, v, r.ida, place);
    PrincipalKeepsAll(sends, known, rows, y, z, r.ida, place.b);
  }

  /**
   A request is refused if and only if its token names the announcement of a send by the reader
   that was in the reader's mailbox at the request before and has since gone to its recipient.
   */
  lemma RefusedIff(sends: seq<Send>, known: Option<set<string>>, rows: Rows, schedule: Schedule, r: Reader, h: History,
                   j: nat)
    requires Starts(sends, rows) && Session(r.ida) && r.idb == PrincipalOf(r.ida)
    requires h == HistoryOf(LogOf(Takeoff(sends, known, rows), schedule), r.ida, r.idb)
    requires PlaceAt(r, h, j + 1).Some?
    ensures var start := Takeoff(sends, known, rows);
            !ServedAt(r, h, j + 1) <==>
              NamesMoved(FirstWorld(start, schedule, j).rows, FirstWorld(start, schedule, j + 1).rows, sends, known, r.ida,
                         PlaceAt(r, h, j + 1).value)
  {
    var start := Takeoff(sends, known, rows);
    LiveIsBoxed(sends, known, rows, schedule, r.ida);
    RequestsInStep(sends, known, rows, schedule, j);
    WorldBoxes(start, schedule, r.ida, r.idb, j);
    WorldBoxes(start, schedule, r.ida, r.idb, j + 1);
    RefusedBetween(sends, known, rows, FirstWorld(start, schedule, j), FirstWorld(start, schedule, j + 1),
                   SecondWorld(start, schedule, j), SecondWorld(start, schedule, j + 1), r, h, j);
  }

  // The client's side of a refusal

  /** A token, opaque as it is, names the announcement of a send by the reader that has just moved away. */
  ghost predicate TokenNamesMoved(sdk: Sdk, foreign: Foreign, token: string, rows: Rows, later: Rows, sends: seq<Send>,
                                  known: Option<set<string>>, user: string) {
    exists i | 0 <= i < |sends| ::
      && TokenFor(Decode(foreign, token), user) == sdk.tokenOf(sends[i].taskId)
      && MovedAway(rows, later, user, sends[i], known)
  }

  /** The token of a request names what its place is at. */
  lemma TokenNamesPlace(r: Reader, h: History, k: nat)
    requires r.Valid() && Boxed(h) && PlaceAt(r, h, k).Some?
    ensures TokenFor(Decode(r.foreign, TokenAt(ServerOf(r, h), k)), r.ida) == NameOfMark(r.sdk, PlaceAt(r, h, k).value.a)
  {
    var c := CursorFor(r, PlaceAt(r, h, k).value, Totals(r, h(0)));
    TokenAtPlace(r, h, k);
    CursorsArePlaces(r, h, k);
    PlacesAreProper(r, h, k);
    Drain.TokenDecodes(r.foreign, c);
    TokenOfMark(r, PlaceAt(r, h, k).value, Totals(r, h(0)));
  }

  lemma MarkNamesTask(sdk: Sdk, mark: Mark, id: string)
    requires sdk.Valid()
    ensures mark == At(id) <==> NameOfMark(sdk, mark) == sdk.tokenOf(id)
  {
    if mark.At? {
      assert sdk.idOf(sdk.tokenOf(mark.id)) == mark.id && sdk.idOf(sdk.tokenOf(id)) == id;
    }
  }

  lemma NamesMovedByToken(r: Reader, mark: Mark, token: string, rows: Rows, later: Rows, sends: seq<Send>,
                          known: Option<set<string>>, place: Place)
    requires r.Valid() && mark == place.a && TokenFor(Decode(r.foreign, token), r.ida) == NameOfMark(r.sdk, mark)
    ensures NamesMoved(rows, later, sends, known, r.ida, place) <==>
              TokenNamesMoved(r.sdk, r.foreign, token, rows, later, sends, known, r.ida)
  {
    forall i | 0 <= i < |sends|
      ensures place.a == At(sends[i].taskId) <==> NameOfMark(r.sdk, mark) == r.sdk.tokenOf(sends[i].taskId)
    {
      MarkNamesTask(r.sdk, mark, sends[i].taskId);
    }
  }

  lemma FirstIsListed(r: Reader, h: History, o: Client.Outcome)
    requires EndsAtPlaces(r, h, 1, o)
    ensures o.Listed?
  {
    EndSays(r, h, 0, o);
  }

  lemma RaisedLater(sends: seq<Send>, known: Option<set<string>>, rows: Rows, schedule: Schedule, r: Reader, h: History,
                    j: nat, o: Client.Outcome)
    requires Starts(sends, rows) && Session(r.ida) && r.idb == PrincipalOf(r.ida)
    requires h == HistoryOf(LogOf(Takeoff(sends, known, rows), schedule), r.ida, r.idb)
    requires EndsAtPlaces(r, h, j + 2, o)
    ensures PlaceAt(r, h, j + 1).Some?
    ensures var start := Takeoff(sends, known, rows);
            o.Raised? <==>
              NamesMoved(FirstWorld(start, schedule, j).rows, FirstWorld(start, schedule, j + 1).rows, sends, known, r.ida,
                         PlaceAt(r, h, j + 1).value)
  {
    EndSays(r, h, j + 1, o);
    RefusedIff(sends, known, rows, schedule, r, h, j);
  }

  /** The token of request `j + 1` names the announcement of a send of the reader's that has just left its mailbox. */
  ghost predicate StaleAt(sends: seq<Send>, known: Option<set<string>>, start: World, schedule: Schedule, sdk: Sdk,
                          foreign: Foreign, user: string, server: Server, j: nat) {
    TokenNamesMoved(sdk, foreign, TokenAt(server, j + 1), FirstWorld(start, schedule, j).rows,
                    FirstWorld(start, schedule, j + 1).rows, sends, known, user)
  }

  lemma RaisedByToken(sends: seq<Send>, known: Option<set<string>>, rows: Rows, schedule: Schedule, r: Reader, h: History,
                      server: Server, j: nat, o: Client.Outcome)
    requires Starts(sends, rows) && r.Valid() && Session(r.ida) && r.idb == PrincipalOf(r.ida)
    requires h == HistoryOf(LogOf(Takeoff(sends, known, rows), schedule), r.ida, r.idb)
    requires EndsAtPlaces(r, h, j + 2, o) && SameServer(server, ServerOf(r, h))
    ensures o.Raised? <==>
              StaleAt(sends, known, Takeoff(sends, known, rows), schedule, r.sdk, r.foreign, r.ida, server, j)
  {
    var start := Takeoff(sends, known, rows);
    RaisedLater(sends, known, rows, schedule, r, h, j, o);
    LiveIsBoxed(sends, known, rows, schedule, r.ida);
    SameTokens(server, ServerOf(r, h), j + 1);
    TokenNamesPlace(r, h, j + 1);
    var place := PlaceAt(r, h, j + 1).value;
    NamesMovedByToken(r, place.a, TokenAt(server, j + 1), FirstWorld(start, schedule, j).rows,
                      FirstWorld(start, schedule, j + 1).rows, sends, known, place);
  }

  /** What a walk of a session ends like, with its server's tokens. */
  lemma SessionEnds(sends: seq<Send>, known: Option<set<string>>, rows: Rows, schedule: Schedule, r: Reader, h: History,
                    server: Server, maxPages: int, requests: nat, o: Client.Outcome)
    requires Starts(sends, rows) && r.sdk.Valid() && Session(r.ida) && r.idb == PrincipalOf(r.ida)
    requires h == HistoryOf(LogOf(Takeoff(sends, known, rows), schedule), r.ida, r.idb)
    requires server == HubServer(r.sdk, r.foreign, LogOf(Takeoff(sends, known, rows), schedule), r.ida, r.requested)
    requires Walk(server, maxPages, requests, o)
    ensures r.Valid() && SameServer(server, ServerOf(r, h)) && EndsAtPlaces(r, h, requests, o)
  {
    SessionReads(r.ida);
    DeliveriesLast(sends, known, rows, schedule);
    SessionWalk(r.sdk, r.foreign, LogOf(Takeoff(sends, known, rows), schedule), r.ida, r.requested, maxPages, requests, o);
    SessionServer(r.sdk, r.foreign, LogOf(Takeoff(sends, known, rows), schedule), r.ida, r.requested);
  }

  ghost function Stale(sends: seq<Send>, known: Option<set<string>>, start: World, schedule: Schedule, sdk: Sdk,
                       foreign: Foreign, user: string, server: Server): nat -> bool {
    (j: nat) => StaleAt(sends, known, start, schedule, sdk, foreign, user, server, j)
  }

  /** The token of the last of these requests names such an announcement; the first request has none. */
  ghost predicate LastIsStale(stale: nat -> bool, requests: nat) {
    requests >= 2 && stale(requests - 2)
  }

  lemma LastIsStaleAt(stale: nat -> bool, j: nat, requests: nat)
    requires requests == j + 2
    ensures LastIsStale(stale, requests) <==> stale(j)
  {
  }

  lemma EndsInTwo(r: Reader, h: History, j: nat, requests: nat, o: Client.Outcome)
    requires EndsAtPlaces(r, h, requests, o) && requests == j + 2
    ensures EndsAtPlaces(r, h, j + 2, o)
  {
  }

  lemma RaisedAtLast(sends: seq<Send>, known: Option<set<string>>, rows: Rows, schedule: Schedule, r: Reader, h: History,
                     server: Server, j: nat, requests: nat, o: Client.Outcome)
    requires Starts(sends, rows) && r.Valid() && Session(r.ida) && r.idb == PrincipalOf(r.ida)
    requires h == HistoryOf(LogOf(Takeoff(sends, known, rows), schedule), r.ida, r.idb)
    requires EndsAtPlaces(r, h, requests, o) && SameServer(server, ServerOf(r, h)) && requests == j + 2
    ensures var stale := Stale(sends, known, Takeoff(sends, known, rows), schedule, r.sdk, r.foreign, r.ida, server);
            o.Raised? <==> LastIsStale(stale, requests)
  {
    EndsInTwo(r, h, j, requests, o);
    RaisedByToken(sends, known, rows, schedule, r, h, server, j, o);
    LastIsStaleAt(Stale(sends, known, Takeoff(sends, known, rows), schedule, r.sdk, r.foreign, r.ida, server), j, requests);
  }

  lemma EndsRaisedIff(sends: seq<Send>, known: Option<set<string>>, rows: Rows, schedule: Schedule, r: Reader, h: History,
                      server: Server, requests: nat, o: Client.Outcome)
    requires Starts(sends, rows) && r.Valid() && Session(r.ida) && r.idb == PrincipalOf(r.ida)
    requires h == HistoryOf(LogOf(Takeoff(sends, known, rows), schedule), r.ida, r.idb)
    requires EndsAtPlaces(r, h, requests, o) && SameServer(server, ServerOf(r, h))
    ensures var stale := Stale(sends, known, Takeoff(sends, known, rows), schedule, r.sdk, r.foreign, r.ida, server);
            o.Raised? <==> LastIsStale(stale, requests)
  {
    if requests == 1 {
      FirstIsListed(r, h, o);
    } else {
      RaisedAtLast(sends, known, rows, schedule, r, h, server, requests - 2, requests, o);
    }
  }

  /**
   The client's read raises if and only if the token it sent last names the announcement of a send
   of its own that was in its mailbox at the request before and has since gone to its recipient.
   Its first request is never refused.
   */
  lemma RaisedIff(sends: seq<Send>, known: Option<set<string>>, rows: Rows, schedule: Schedule, r: Reader, server: Server,
                  maxPages: int, requests: nat, o: Client.Outcome)
    requires Starts(sends, rows) && r.sdk.Valid() && Session(r.ida) && r.idb == PrincipalOf(r.ida)
    requires server == HubServer(r.sdk, r.foreign, LogOf(Takeoff(sends, known, rows), schedule), r.ida, r.requested)
    requires Walk(server, maxPages, requests, o)
    ensures var stale := Stale(sends, known, Takeoff(sends, known, rows), schedule, r.sdk, r.foreign, r.ida, server);
            o.Raised? <==> LastIsStale(stale, requests)
  {
    var h := HistoryOf(LogOf(Takeoff(sends, known, rows), schedule), r.ida, r.idb);
    SessionEnds(sends, known, rows, schedule, r, h, server, maxPages, requests, o);
    EndsRaisedIff(sends, known, rows, schedule, r, h, server, requests, o);
  }

  /** No send of the reader's to somebody else is under way. */
  ghost predicate NoneInFlight(w: World, sends: seq<Send>, known: Option<set<string>>, user: string) {
    forall i | 0 <= i < |sends| && sends[i].user == user && Destination(sends[i], known) != user ::
      i < |w.flights| && Landed(w.flights[i])
  }

  lemma {:induction false} SettledForGood(sends: seq<Send>, known: Option<set<string>>, rows: Rows, schedule: Schedule,
                                          k: nat, id: string)
    requires Starts(sends, rows)
    requires var row := Lookup(WorldAt(Takeoff(sends, known, rows), schedule, 0).rows, id);
             row.Some? && Settled(row.value.task)
    ensures Lookup(WorldAt(Takeoff(sends, known, rows), schedule, k).rows, id)
              == Lookup(WorldAt(Takeoff(sends, known, rows), schedule, 0).rows, id)
  {
    if k > 0 {
      SettledForGood(sends, known, rows, schedule, k - 1, id);
      WorldsInStep(sends, known, rows, schedule, k - 1);
      var start := Takeoff(sends, known, rows);
      SettledRowStays(WorldAt(start, schedule, k - 1).rows, WorldAt(start, schedule, k).rows, id);
    }
  }

  lemma LandedHasSettled(sends: seq<Send>, known: Option<set<string>>, rows: Rows, w: World, i: nat)
    requires Starts(sends, rows) && InOrder(w, sends, known, rows) && i < |sends| && Landed(w.flights[i])
    ensures Lookup(w.rows, sends[i].taskId).Some? && Settled(Lookup(w.rows, sends[i].taskId).value.task)
  {
    assert FlightOk(w, i, sends, known, rows);
    LandedIsDecided(w.flights[i], known, None, Lookup(w.rows, sends[i].taskId));
  }

  lemma NoneMovesAway(sends: seq<Send>, known: Option<set<string>>, rows: Rows, schedule: Schedule, user: string, j: nat,
                      later: Rows, i: nat)
    requires Starts(sends, rows) && i < |sends|
    requires NoneInFlight(WorldAt(Takeoff(sends, known, rows), schedule, 0), sends, known, user)
    ensures !MovedAway(FirstWorld(Takeoff(sends, known, rows), schedule, j).rows, later, user, sends[i], known)
  {
    var start := Takeoff(sends, known, rows);
    if sends[i].user == user && Destination(sends[i], known) != user {
      WorldsAreInOrder(sends, known, rows, schedule, 0);
      LandedHasSettled(sends, known, rows, WorldAt(start, schedule, 0), i);
      SettledForGood(sends, known, rows, schedule, 2 * j, sends[i].taskId);
    }
  }

  lemma NothingIsNamed(sends: seq<Send>, known: Option<set<string>>, rows: Rows, schedule: Schedule, user: string, j: nat,
                       later: Rows, place: Place)
    requires Starts(sends, rows)
    requires NoneInFlight(WorldAt(Takeoff(sends, known, rows), schedule, 0), sends, known, user)
    ensures !NamesMoved(FirstWorld(Takeoff(sends, known, rows), schedule, j).rows, later, sends, known, user, place)
  {
    forall i | 0 <= i < |sends|
      ensures !MovedAway(FirstWorld(Takeoff(sends, known, rows), schedule, j).rows, later, user, sends[i], known)
    {
      NoneMovesAway(sends, known, rows, schedule, user, j, later, i);
    }
  }

  lemma ListedAtPlace(sends: seq<Send>, known: Option<set<string>>, rows: Rows, schedule: Schedule, r: Reader, h: History,
                      requests: nat, o: Client.Outcome)
    requires Starts(sends, rows) && Session(r.ida) && r.idb == PrincipalOf(r.ida)
    requires h == HistoryOf(LogOf(Takeoff(sends, known, rows), schedule), r.ida, r.idb)
    requires EndsAtPlaces(r, h, requests, o)
    requires NoneInFlight(WorldAt(Takeoff(sends, known, rows), schedule, 0), sends, known, r.ida)
    ensures o.Listed?
  {
    if requests == 1 {
      FirstIsListed(r, h, o);
    } else {
      var j: nat := requests - 2;
      RaisedLater(sends, known, rows, schedule, r, h, j, o);
      NothingIsNamed(sends, known, rows, schedule, r.ida, j, FirstWorld(Takeoff(sends, known, rows), schedule, j + 1).rows,
                     PlaceAt(r, h, j + 1).value);
    }
  }

  /** A session that sends nothing to others while it reads is never refused. */
  lemma NotRefused(sends: seq<Send>, known: Option<set<string>>, rows: Rows, schedule: Schedule, sdk: Sdk, foreign: Foreign,
                   user: string, requested: nat, maxPages: int, requests: nat, o: Client.Outcome)
    requires Starts(sends, rows) && sdk.Valid() && Session(user)
    requires var log := LogOf(Takeoff(sends, known, rows), schedule);
             Walk(HubServer(sdk, foreign, log, user, requested), maxPages, requests, o)
    requires NoneInFlight(WorldAt(Takeoff(sends, known, rows), schedule, 0), sends, known, user)
    ensures o.Listed?
  {
    var log := LogOf(Takeoff(sends, known, rows), schedule);
    var r, h := Reader(sdk, foreign, user, PrincipalOf(user), requested), HistoryOf(log, user, PrincipalOf(user));
    DeliveriesLast(sends, known, rows, schedule);
    SessionWalk(sdk, foreign, log, user, requested, maxPages, requests, o);
    ListedAtPlace(sends, known, rows, schedule, r, h, requests, o);
  }
}
