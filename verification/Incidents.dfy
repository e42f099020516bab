/**
 What a session can meet when it reads in the middle of a delivery, one task to a page: a refusal, a
 mailbox that starts over, a count that is short, a delivery that is missed. Each with the moves of one
 send between its requests.
 */
module Incidents {
  import opened Client
  import opened Delivery
  import opened Executor
  import opened Identity
  import opened Mailboxes
  import opened Paging
  import opened Places
  import opened Sorting
  import opened Store
  import opened Tables
  import opened Tasks
  import opened Text
  import opened Wrappers
  import Counterexamples
  import Cursors
  import Live
  import Walks

  /** One send, and its moves before the first request and before the second. */
  datatype Scene = Scene(rows: Rows, send: Send, known: Option<set<string>>, first: seq<Move>, next: seq<Move>) {
    function Schedule(): Live.Schedule {
      var first, next := first, next;
      (k: nat) => if k == 0 then first else if k == 2 then next else []
    }

    function Log(): Log {
      Live.LogOf(Takeoff([send], known, rows), Schedule())
    }

    /** The send is new, and the reader's own mailbox holds these settled tasks, its agent's none. */
    ghost predicate Valid(reader: string, box: seq<Task>) {
      && Live.Starts([send], rows) && Session(reader)
      && Mailbox(rows, reader) == box && Mailbox(rows, PrincipalOf(reader)) == []
      && forall t | t in box :: Settled(t) && t.seconds > 0
    }
  }

  // What the moves do

  lemma TwoMoves(w: World, m: Move, n: Move)
    requires Enabled(w, m) && Enabled(Next(w, m), n)
    ensures Live.RunOn(w, [m, n]) == Next(Next(w, m), n)
  {
    assert [m, n][1..] == [n] && [n][1..] == [];
    assert Live.RunOn(Next(w, m), [n]) == Live.RunOn(Next(Next(w, m), n), []);
  }

  lemma ThreeMoves(w: World, m: Move, n: Move, o: Move)
    requires Enabled(w, m) && Enabled(Next(w, m), n) && Enabled(Next(Next(w, m), n), o)
    ensures Live.RunOn(w, [m, n, o]) == Next(Next(Next(w, m), n), o)
  {
    assert [m, n, o][1..] == [n, o];
    TwoMoves(Next(w, m), n, o);
  }

  lemma {:induction false} PutLast(rows: Rows, key: string, stored: Stored, later: Stored)
    requires Lookup(rows, key) == None
    ensures Put(rows, key, stored) == rows + [Entry(key, stored)]
    ensures Put(rows + [Entry(key, stored)], key, later) == rows + [Entry(key, later)]
  {
    if rows != [] {
      PutLast(rows[1..], key, stored, later);
      assert rows == [rows[0]] + rows[1..];
      assert (rows + [Entry(key, stored)])[1..] == rows[1..] + [Entry(key, stored)];
    } else {
      assert [Entry(key, stored)][1..] == [];
    }
  }

  /** The rows with the send's task stored under `owner`. */
  function With(c: Scene, owner: string, task: Task): Rows {
    c.rows + [Entry(c.send.taskId, Stored(owner, task))]
  }

  lemma FirstPut(c: Scene, owner: string, task: Task, other: string, later: Task)
    requires Live.Starts([c.send], c.rows)
    ensures Put(c.rows, c.send.taskId, Stored(owner, task)) == With(c, owner, task)
    ensures Put(With(c, owner, task), c.send.taskId, Stored(other, later)) == With(c, other, later)
  {
    assert [c.send][0] == c.send;
    PutLast(c.rows, c.send.taskId, Stored(owner, task), Stored(other, later));
  }

  lemma ProgramIsLong(send: Send, known: Option<set<string>>)
    requires send.current == None
    ensures Program(send, known) == [Emit(NewTask(send.taskId))] + Ending(send, known)
    ensures Program(send, known)[0] == Emit(NewTask(send.taskId)) && Program(send, known)[1..] == Ending(send, known)
  {
  }

  const ANNOUNCING := [Advance(0), Handle(0)]
  const DELIVERING := [Advance(0), Advance(0), Handle(0)]
  const REFUSING := [Advance(0), Handle(0)]
  const PINNING := [Advance(0), Advance(0), Handle(0)]
  const COMPLETING := [Advance(0), Handle(0), Advance(0), Handle(0)]

  /** Announced in the sender's mailbox. */
  function Announced(c: Scene): World {
    World([Flight(c.send, Ending(c.send, c.known), None, [], Some(Bare(c.send.taskId)))],
          With(c, c.send.user, Bare(c.send.taskId)))
  }

  lemma AnnouncedFirst(c: Scene)
    requires Live.Starts([c.send], c.rows)
    ensures Live.RunOn(Takeoff([c.send], c.known, c.rows), ANNOUNCING) == Announced(c)
  {
    var w, event, id := Takeoff([c.send], c.known, c.rows), NewTask(c.send.taskId), c.send.taskId;
    assert w.flights == [Launch(c.send, c.known)] && [c.send][0] == c.send;
    ProgramIsLong(c.send, c.known);
    assert [] + [event] == [event] && [event][1..] == [];
    var v := Next(w, Advance(0));
    assert v.flights == [Flight(c.send, Ending(c.send, c.known), None, [event], None)];
    FirstPut(c, c.send.user, Bare(id), c.send.user, Bare(id));
    assert Next(v, Handle(0)).flights == Announced(c).flights;
    TwoMoves(w, Advance(0), Handle(0));
  }

  lemma RoutedNext(c: Scene, r: string) returns (x: Task)
    requires Live.Starts([c.send], c.rows) && Judge(c.send, c.known) == Routed(r)
    ensures x.id == c.send.taskId && Live.RunOn(Announced(c), DELIVERING).rows == With(c, r, x)
  {
    var w, stamp := Announced(c), StampOf(c.send.user, r, c.send.message.value.id);
    var f := w.flights[0];
    assert r != "";
    var v := Next(w, Advance(0));
    assert v.flights == [f.(todo := f.todo[1..], override := Some(r))];
    var u := Next(v, Advance(0));
    assert u.flights[0].queue == [AddArtifact(stamp)] && u.flights[0].override == Some(r);
    x := Bare(c.send.taskId).(artifacts := [stamp]);
    assert Saved(Consume(u.flights[0])) == Stored(r, x);
    FirstPut(c, c.send.user, Bare(c.send.taskId), r, x);
    ThreeMoves(w, Advance(0), Advance(0), Handle(0));
  }

  lemma RefusedNext(c: Scene)
    requires Live.Starts([c.send], c.rows) && Judge(c.send, c.known).Refused?
    ensures Live.RunOn(Announced(c), REFUSING).rows == With(c, c.send.user, Delivery.Outcome(c.send, c.known))
  {
    var w, x := Announced(c), Delivery.Outcome(c.send, c.known);
    assert [c.send][0] == c.send;
    var v := Next(w, Advance(0));
    assert v.flights[0].queue == [SetStatus(Rejected, c.send.seconds, c.send.nanos)];
    assert Saved(Consume(v.flights[0])) == Stored(c.send.user, x);
    FirstPut(c, c.send.user, Bare(c.send.taskId), c.send.user, x);
    TwoMoves(w, Advance(0), Handle(0));
  }

  /** Announced when the recipient is already pinned. */
  function Pinned(c: Scene, r: string): World {
    var stamp := if c.send.message.Some? then StampOf(c.send.user, r, c.send.message.value.id) else Artifact(map[]);
    World([Flight(c.send, [Emit(AddArtifact(stamp)), Emit(SetStatus(Completed, c.send.seconds, c.send.nanos))], Some(r), [],
                  Some(Bare(c.send.taskId)))],
          With(c, r, Bare(c.send.taskId)))
  }

  lemma PinnedFirst(c: Scene, r: string)
    requires Live.Starts([c.send], c.rows) && Judge(c.send, c.known) == Routed(r)
    ensures Live.RunOn(Takeoff([c.send], c.known, c.rows), PINNING) == Pinned(c, r)
  {
    var w, event, id := Takeoff([c.send], c.known, c.rows), NewTask(c.send.taskId), c.send.taskId;
    assert w.flights == [Launch(c.send, c.known)] && [c.send][0] == c.send;
    ProgramIsLong(c.send, c.known);
    assert [] + [event] == [event] && [event][1..] == [] && r != "";
    var v := Next(w, Advance(0));
    assert v.flights == [Flight(c.send, Ending(c.send, c.known), None, [event], None)];
    var u := Next(v, Advance(0));
    assert u.flights == [Flight(c.send, Ending(c.send, c.known)[1..], Some(r), [event], None)];
    FirstPut(c, r, Bare(id), r, Bare(id));
    assert Next(u, Handle(0)).flights == Pinned(c, r).flights;
    ThreeMoves(w, Advance(0), Advance(0), Handle(0));
  }

  lemma FourMoves(w: World, m: Move, n: Move, o: Move, p: Move)
    requires Enabled(w, m) && Enabled(Next(w, m), n)
    requires Enabled(Next(Next(w, m), n), o) && Enabled(Next(Next(Next(w, m), n), o), p)
    ensures Live.RunOn(w, [m, n, o, p]) == Next(Next(Next(Next(w, m), n), o), p)
  {
    assert [m, n, o, p][1..] == [n, o, p];
    ThreeMoves(Next(w, m), n, o, p);
  }

  function Half(c: Scene, r: string): Task {
    var stamps := if c.send.message.Some? then [StampOf(c.send.user, r, c.send.message.value.id)] else [];
    Bare(c.send.taskId).(artifacts := stamps)
  }

  /** Stamped, and not yet completed. */
  function Stamped(c: Scene, r: string): World {
    World([Flight(c.send, [Emit(SetStatus(Completed, c.send.seconds, c.send.nanos))], Some(r), [], Some(Half(c, r)))],
          With(c, r, Half(c, r)))
  }

  lemma StampedNext(c: Scene, r: string)
    requires Live.Starts([c.send], c.rows) && Judge(c.send, c.known) == Routed(r)
    ensures var w := Pinned(c, r);
            && Enabled(w, Advance(0)) && Enabled(Next(w, Advance(0)), Handle(0))
            && Next(Next(w, Advance(0)), Handle(0)) == Stamped(c, r)
  {
    var w, id, stamp := Pinned(c, r), c.send.taskId, StampOf(c.send.user, r, c.send.message.value.id);
    var status := SetStatus(Completed, c.send.seconds, c.send.nanos);
    assert r != "" && [Emit(AddArtifact(stamp)), Emit(status)][1..] == [Emit(status)];
    assert [] + [AddArtifact(stamp)] == [AddArtifact(stamp)] && [AddArtifact(stamp)][1..] == [] && [] + [stamp] == [stamp];
    var v := Next(w, Advance(0));
    assert v.flights == [Flight(c.send, [Emit(status)], Some(r), [AddArtifact(stamp)], Some(Bare(id)))];
    FirstPut(c, r, Bare(id), r, Half(c, r));
    assert Next(v, Handle(0)).flights == Stamped(c, r).flights;
  }

  lemma OutcomeOfHalf(c: Scene, r: string)
    requires c.send.current == None && Judge(c.send, c.known) == Routed(r)
    ensures Delivery.Outcome(c.send, c.known) ==
              Half(c, r).(state := Completed, seconds := c.send.seconds, nanos := c.send.nanos)
  {
    assert Half(c, r).artifacts == [] + Half(c, r).artifacts;
  }

  lemma StatusNext(c: Scene, r: string, x: Task)
    requires Live.Starts([c.send], c.rows) && r != ""
    requires x == Half(c, r).(state := Completed, seconds := c.send.seconds, nanos := c.send.nanos)
    ensures var u := Stamped(c, r);
            && Enabled(u, Advance(0)) && Enabled(Next(u, Advance(0)), Handle(0))
            && Next(Next(u, Advance(0)), Handle(0)).rows == With(c, r, x)
  {
    var u, status := Stamped(c, r), SetStatus(Completed, c.send.seconds, c.send.nanos);
    assert [Emit(status)][1..] == [] && [] + [status] == [status];
    var y := Next(u, Advance(0));
    assert y.flights == [Flight(c.send, [], Some(r), [status], Some(Half(c, r)))];
    assert Saved(Consume(y.flights[0])) == Stored(r, x);
    FirstPut(c, r, Half(c, r), r, x);
  }

  lemma CompletedNext(c: Scene, r: string)
    requires Live.Starts([c.send], c.rows) && Judge(c.send, c.known) == Routed(r)
    ensures Live.RunOn(Pinned(c, r), COMPLETING).rows == With(c, r, Delivery.Outcome(c.send, c.known))
  {
    assert [c.send][0] == c.send;
    StampedNext(c, r);
    OutcomeOfHalf(c, r);
    StatusNext(c, r, Delivery.Outcome(c.send, c.known));
    FourMoves(Pinned(c, r), Advance(0), Handle(0), Advance(0), Handle(0));
  }

  // What the reader's mailboxes hold meanwhile

  lemma {:induction false} StaysPut(c: Scene, w: World, k: nat)
    requires Live.RunOn(Takeoff([c.send], c.known, c.rows), c.first) == w
    ensures c.Log()(k) == (if k < 2 then w else Live.RunOn(w, c.next)).rows
    ensures Live.WorldAt(Takeoff([c.send], c.known, c.rows), c.Schedule(), k) == if k < 2 then w else Live.RunOn(w, c.next)
  {
    if k > 0 {
      StaysPut(c, w, k - 1);
    }
  }

  lemma {:induction false} InsertOpen(x: Task, box: seq<Task>)
    requires !Settled(x) && Dated(x) && forall t | t in box :: Settled(t) && t.seconds > 0
    ensures Insert(x, box, NotOlder) == box + [x]
  {
    if box != [] {
      assert box[0] in box;
      InsertOpen(x, box[1..]);
      assert box == [box[0]] + box[1..];
    }
  }

  lemma BoxWith(c: Scene, reader: string, box: seq<Task>, owner: string, x: Task)
    requires c.Valid(reader, box)
    ensures Mailbox(With(c, owner, x), reader) == if owner == reader then Insert(x, box, NotOlder) else box
    ensures owner == reader ==> Mailbox(With(c, owner, x), PrincipalOf(reader)) == []
  {
    SessionReads(reader);
    MailboxSnoc(c.rows, Entry(c.send.taskId, Stored(owner, x)), reader);
    MailboxSnoc(c.rows, Entry(c.send.taskId, Stored(owner, x)), PrincipalOf(reader));
  }

  function ReaderOf(sdk: Sdk, foreign: Cursors.Foreign, reader: string): Reader {
    Reader(sdk, foreign, reader, PrincipalOf(reader), 1)
  }

  function Seen(c: Scene, reader: string): History {
    HistoryOf(c.Log(), reader, PrincipalOf(reader))
  }

  /** The announcement lies undated behind what was there, and after the first request what follows replaces it. */
  lemma SceneBoxes(c: Scene, reader: string, box: seq<Task>, w: World, owner: string, x: Task)
    requires c.Valid(reader, box) && Live.RunOn(Takeoff([c.send], c.known, c.rows), c.first) == w
    requires w.rows == With(c, reader, Bare(c.send.taskId)) && Live.RunOn(w, c.next).rows == With(c, owner, x)
    ensures Seen(c, reader)(0) == Boxes(box + [Bare(c.send.taskId)], [])
    ensures forall k: nat | k > 0 :: Seen(c, reader)(k).a == if owner == reader then Insert(x, box, NotOlder) else box
    ensures owner == reader ==> forall k: nat | k > 0 :: Seen(c, reader)(k).b == []
  {
    BoxWith(c, reader, box, reader, Bare(c.send.taskId));
    InsertOpen(Bare(c.send.taskId), box);
    BoxWith(c, reader, box, owner, x);
    forall k: nat ensures c.Log()(k) == (if k < 2 then w else Live.RunOn(w, c.next)).rows {
      StaysPut(c, w, k);
    }
  }

  lemma SceneWalk(c: Scene, reader: string, box: seq<Task>, sdk: Sdk, foreign: Cursors.Foreign, maxPages: int,
                  requests: nat, o: Client.Outcome)
    requires c.Valid(reader, box) && sdk.Valid() && maxPages >= 1
    requires Walk(HubServer(sdk, foreign, c.Log(), reader, 1), maxPages, requests, o)
    requires !Walks.Seen(ReaderOf(sdk, foreign, reader), Seen(c, reader), requests)
    ensures EndsAtPlaces(ReaderOf(sdk, foreign, reader), Seen(c, reader), requests, o) && requests <= maxPages
    ensures o.Listed? && PlaceAt(ReaderOf(sdk, foreign, reader), Seen(c, reader), requests).Some? ==> requests == maxPages
  {
    var r, h := ReaderOf(sdk, foreign, reader), Seen(c, reader);
    SessionReads(reader);
    Live.LiveIsBoxed([c.send], c.known, c.rows, c.Schedule(), reader);
    SessionServer(sdk, foreign, c.Log(), reader, 1);
    SameWalk(HubServer(sdk, foreign, c.Log(), reader, 1), ServerOf(r, h), maxPages, requests, o);
    Walks.EndsByCap(r, h, maxPages, requests, o);
  }

  // A page is refused

  /** After the first page the reader is at the announcement; then that is gone. */
  lemma LosesItsPlace(r: Reader, h: History, t: Task, x: Task)
    requires r.p == 1 && t.id != x.id
    requires h(0) == Boxes([t, x], []) && h(1).a == [t]
    ensures PlaceAt(r, h, 1) == Some(Place(At(x.id), End, false))
    ensures !ServedAt(r, h, 1) && PlaceAt(r, h, 2) == None
  {
    assert Take([t, x], 1) == [t] && Drop([t, x], 1) == [x];
    assert Batch(r, [t, x], []) == [t];
    assert TurnOf(r, h, 0) == Some(Turned([t], Some(Place(At(x.id), End, false))));
    assert [t][1..] == [];
    assert From([t], x.id) == None;
    assert TurnOf(r, h, 1) == Some(Turn.Refused);
  }

  lemma NewIsOther(c: Scene, reader: string, box: seq<Task>, t: Task)
    requires c.Valid(reader, box) && t in box
    ensures t.id != c.send.taskId
  {
    MailboxHolds(c.rows, reader, t);
    var e :| e in c.rows && e.value == Stored(reader, t);
    assert [c.send][0] == c.send;
    LookupIsMembership(c.rows, c.send.taskId, Stored(reader, t));
  }

  /** The announcement lies last in the sender's mailbox at the first request, and has left it at the second. */
  lemma LeavingBoxes(c: Scene, box: seq<Task>)
    requires c.Valid(c.send.user, box) && c.first == ANNOUNCING && c.next == DELIVERING
    requires Judge(c.send, c.known).Routed? && Judge(c.send, c.known).recipient != c.send.user
    ensures Seen(c, c.send.user)(0) == Boxes(box + [Bare(c.send.taskId)], []) && Seen(c, c.send.user)(1).a == box
  {
    AnnouncedFirst(c);
    var x := RoutedNext(c, Judge(c.send, c.known).recipient);
    SceneBoxes(c, c.send.user, box, Announced(c), Judge(c.send, c.known).recipient, x);
  }

  lemma RefusedReading(c: Scene, t: Task, r: Reader)
    requires c.Valid(c.send.user, [t]) && c.first == ANNOUNCING && c.next == DELIVERING && r.p == 1
    requires Judge(c.send, c.known).Routed? && Judge(c.send, c.known).recipient != c.send.user
    ensures var h := Seen(c, c.send.user);
            PlaceAt(r, h, 1).Some? && !ServedAt(r, h, 1) && PlaceAt(r, h, 2) == None
  {
    LeavingBoxes(c, [t]);
    assert [t] + [Bare(c.send.taskId)] == [t, Bare(c.send.taskId)];
    NewIsOther(c, c.send.user, [t], t);
    LosesItsPlace(r, Seen(c, c.send.user), t, Bare(c.send.taskId));
  }

  /**
   A session that reads while a send of its own to somebody else is under way: if its first page ends
   before the announcement and the send is delivered next, every read of more than a page is refused.
   */
  lemma ReadIsRefused(c: Scene, t: Task, sdk: Sdk, foreign: Cursors.Foreign, maxPages: int, requests: nat, o: Client.Outcome)
    requires c.Valid(c.send.user, [t]) && c.first == ANNOUNCING && c.next == DELIVERING
    requires Judge(c.send, c.known).Routed? && Judge(c.send, c.known).recipient != c.send.user
    requires sdk.Valid() && maxPages >= 2 && Walk(HubServer(sdk, foreign, c.Log(), c.send.user, 1), maxPages, requests, o)
    ensures requests == 2 && o.Raised?
  {
    var r, h := ReaderOf(sdk, foreign, c.send.user), Seen(c, c.send.user);
    RefusedReading(c, t, r);
    Walks.FewPlaces(r, h, requests);
    SceneWalk(c, c.send.user, [t], sdk, foreign, maxPages, requests, o);
    Walks.StopsAtSecond(r, h, maxPages, requests, o);
  }

  // The count is short

  lemma LosesOne(r: Reader, h: History, t: Task, u: Task, x: Task)
    requires r.p == 1 && t.id != u.id
    requires h(0) == Boxes([t, u, x], []) && h(1).a == [t, u]
    ensures PlaceAt(r, h, 1) == Some(Place(At(u.id), End, false)) && PlaceAt(r, h, 2) == None && ServedAt(r, h, 1)
    ensures WindowAt(r, h, 0) == [t] && WindowAt(r, h, 1) == [u]
  {
    assert Take([t, u, x], 1) == [t] && Drop([t, u, x], 1) == [u, x] && Take([u], 1) == [u] && Drop([u], 1) == [];
    assert Batch(r, [t, u, x], []) == [t] && Batch(r, [u], []) == [u];
    assert TurnOf(r, h, 0) == Some(Turned([t], Some(Place(At(u.id), End, false))));
    assert [t, u][1..] == [u];
    assert From([t, u], u.id) == Some([u]);
    assert TurnOf(r, h, 1) == Some(Turned([u], None));
  }

  lemma TwoApart(c: Scene, reader: string, t: Task, u: Task)
    requires c.Valid(reader, [t, u])
    ensures t.id != u.id
  {
    MailboxIsBox(c.rows, reader);
    assert [t, u][0].id != [t, u][1].id;
  }

  lemma ShortReading(c: Scene, t: Task, u: Task, r: Reader)
    requires c.Valid(c.send.user, [t, u]) && c.first == ANNOUNCING && c.next == DELIVERING && r.p == 1
    requires Judge(c.send, c.known).Routed? && Judge(c.send, c.known).recipient != c.send.user
    ensures var h := Seen(c, c.send.user);
            && PlaceAt(r, h, 1).Some? && PlaceAt(r, h, 2) == None && ServedAt(r, h, 1)
            && |h(0).a| + |h(0).b| == 3 && Handed(r, h, 0, 2) == [t, u]
  {
    LeavingBoxes(c, [t, u]);
    assert [t, u] + [Bare(c.send.taskId)] == [t, u, Bare(c.send.taskId)];
    TwoApart(c, c.send.user, t, u);
    LosesOne(r, Seen(c, c.send.user), t, u, Bare(c.send.taskId));
    Counterexamples.HandedTwice(r, Seen(c, c.send.user), t, u);
  }

  /**
   The same with two tasks before the announcement: it is counted at the first request and gone before
   its page. The read is complete, has all there is, and fewer tasks than its total.
   */
  lemma CountIsShort(c: Scene, t: Task, u: Task, sdk: Sdk, foreign: Cursors.Foreign, maxPages: int, requests: nat,
                     o: Client.Outcome)
    requires c.Valid(c.send.user, [t, u]) && c.first == ANNOUNCING && c.next == DELIVERING
    requires Judge(c.send, c.known).Routed? && Judge(c.send, c.known).recipient != c.send.user
    requires sdk.Valid() && maxPages >= 3 && Walk(HubServer(sdk, foreign, c.Log(), c.send.user, 1), maxPages, requests, o)
    ensures o.Listed? && !o.listing.incomplete && o.listing.tasks == [t, u] && o.listing.total == 3
  {
    var r, h := ReaderOf(sdk, foreign, c.send.user), Seen(c, c.send.user);
    ShortReading(c, t, u, r);
    Walks.FewPlaces(r, h, requests);
    SceneWalk(c, c.send.user, [t, u], sdk, foreign, maxPages, requests, o);
    Walks.StopsAtSecond(r, h, maxPages, requests, o);
  }

  // A delivery is missed

  lemma DeliveredBoxes(c: Scene, reader: string, t: Task, u: Task, x: Task, w: World)
    requires c.Valid(reader, [t, u]) && Live.RunOn(Takeoff([c.send], c.known, c.rows), c.first) == w
    requires w.rows == With(c, reader, Bare(c.send.taskId)) && Live.RunOn(w, c.next).rows == With(c, reader, x)
    requires x.seconds > t.seconds
    ensures Seen(c, reader)(0) == Boxes([t, u, Bare(c.send.taskId)], []) && Seen(c, reader)(1) == Boxes([x, t, u], [])
  {
    SceneBoxes(c, reader, [t, u], w, reader, x);
    assert [t, u] + [Bare(c.send.taskId)] == [t, u, Bare(c.send.taskId)] && [x] + [t, u] == [x, t, u];
  }

  /** It settles in front of where the reader goes on from. */
  lemma SettlesBehind(r: Reader, h: History, t: Task, u: Task, bare: Task, x: Task)
    requires r.p == 1 && t.id != u.id && x.id != u.id
    requires h(0) == Boxes([t, u, bare], []) && h(1) == Boxes([x, t, u], [])
    ensures PlaceAt(r, h, 1) == Some(Place(At(u.id), End, false)) && PlaceAt(r, h, 2) == None && ServedAt(r, h, 1)
    ensures WindowAt(r, h, 0) == [t] && WindowAt(r, h, 1) == [u]
  {
    assert Take([t, u, bare], 1) == [t] && Drop([t, u, bare], 1) == [u, bare] && Take([u], 1) == [u] && Drop([u], 1) == [];
    assert Batch(r, [t, u, bare], []) == [t] && Batch(r, [u], []) == [u];
    assert TurnOf(r, h, 0) == Some(Turned([t], Some(Place(At(u.id), End, false))));
    assert [x, t, u][1..] == [t, u] && [t, u][1..] == [u];
    assert From([t, u], u.id) == Some([u]);
    assert TurnOf(r, h, 1) == Some(Turned([u], None));
  }

  lemma MissingReading(c: Scene, reader: string, t: Task, u: Task, x: Task, w: World, r: Reader)
    requires c.Valid(reader, [t, u]) && Live.RunOn(Takeoff([c.send], c.known, c.rows), c.first) == w && r.p == 1
    requires w.rows == With(c, reader, Bare(c.send.taskId)) && Live.RunOn(w, c.next).rows == With(c, reader, x)
    requires x.id == c.send.taskId && x.seconds > t.seconds
    ensures var h := Seen(c, reader);
            && PlaceAt(r, h, 1).Some? && PlaceAt(r, h, 2) == None && ServedAt(r, h, 1)
            && |h(0).a| + |h(0).b| == 3 && Handed(r, h, 0, 2) == [t, u]
  {
    DeliveredBoxes(c, reader, t, u, x, w);
    TwoApart(c, reader, t, u);
    NewIsOther(c, reader, [t, u], u);
    SettlesBehind(r, Seen(c, reader), t, u, Bare(c.send.taskId), x);
    Counterexamples.HandedTwice(r, Seen(c, reader), t, u);
  }

  lemma OthersOnly(c: Scene, reader: string, t: Task, u: Task)
    requires c.Valid(reader, [t, u])
    ensures !HasId([t, u], c.send.taskId)
  {
    NewIsOther(c, reader, [t, u], t);
    NewIsOther(c, reader, [t, u], u);
  }

  /**
   An ordinary delivery to the reader, counted undated at the first request and completed before its page
   is fetched: it settles behind the reader. The read is complete, has the delivery in no form, and is
   short of its total.
   */
  lemma DeliveryIsMissed(c: Scene, reader: string, t: Task, u: Task, sdk: Sdk, foreign: Cursors.Foreign, maxPages: int,
                         requests: nat, o: Client.Outcome)
    requires c.Valid(reader, [t, u]) && c.first == PINNING && c.next == COMPLETING
    requires Judge(c.send, c.known) == Routed(reader) && c.send.seconds > t.seconds
    requires sdk.Valid() && maxPages >= 3 && Walk(HubServer(sdk, foreign, c.Log(), reader, 1), maxPages, requests, o)
    ensures o.Listed? && !o.listing.incomplete && o.listing.tasks == [t, u] && o.listing.total == 3
    ensures !HasId(o.listing.tasks, c.send.taskId)
  {
    var r, h := ReaderOf(sdk, foreign, reader), Seen(c, reader);
    PinnedFirst(c, reader);
    CompletedNext(c, reader);
    assert [c.send][0] == c.send;
    MissingReading(c, reader, t, u, Delivery.Outcome(c.send, c.known), Pinned(c, reader), r);
    Walks.FewPlaces(r, h, requests);
    SceneWalk(c, reader, [t, u], sdk, foreign, maxPages, requests, o);
    Walks.StopsAtSecond(r, h, maxPages, requests, o);
    OthersOnly(c, reader, t, u);
  }

  // A mailbox is read from the beginning again

  /** The task the reader was to go on from is now the first of its mailbox. */
  lemma StartsOver(r: Reader, h: History, t: Task, bare: Task, x: Task)
    requires r.p == 1 && bare.id == x.id != t.id
    requires h(0) == Boxes([t, bare], []) && h(1) == Boxes([x, t], []) && h(2) == Boxes([x, t], [])
    ensures WindowAt(r, h, 0) == [t] && WindowAt(r, h, 1) == [x] && WindowAt(r, h, 2) == [t]
    ensures PlaceAt(r, h, 1) == Some(Place(At(x.id), End, false)) && PlaceAt(r, h, 2) == Some(Place(At(t.id), End, false))
    ensures ServedAt(r, h, 2) && PlaceAt(r, h, 3) == None
  {
    assert Take([t, bare], 1) == [t] && Drop([t, bare], 1) == [bare];
    assert Take([x, t], 1) == [x] && Drop([x, t], 1) == [t] && Drop([t], 1) == [];
    assert Batch(r, [t, bare], []) == [t] && Batch(r, [x, t], []) == [x] && Batch(r, [t], []) == [t];
    assert [x, t][1..] == [t];
    assert From([x, t], x.id) == Some([x, t]) && From([x, t], t.id) == Some([t]);
    assert TurnOf(r, h, 0) == Some(Turned([t], Some(Place(At(x.id), End, false))));
    assert TurnOf(r, h, 1) == Some(Turned([x], Some(Place(At(t.id), End, false))));
    assert TurnOf(r, h, 2) == Some(Turned([t], None));
  }

  lemma SettledBoxes(c: Scene, reader: string, t: Task, x: Task, w: World)
    requires c.Valid(reader, [t]) && Live.RunOn(Takeoff([c.send], c.known, c.rows), c.first) == w
    requires w.rows == With(c, reader, Bare(c.send.taskId)) && Live.RunOn(w, c.next).rows == With(c, reader, x)
    requires x.id == c.send.taskId && x.seconds > t.seconds
    ensures x.id != t.id && Seen(c, reader)(0) == Boxes([t, Bare(c.send.taskId)], [])
    ensures Seen(c, reader)(1) == Boxes([x, t], []) && Seen(c, reader)(2) == Boxes([x, t], [])
  {
    SceneBoxes(c, reader, [t], w, reader, x);
    assert [t] + [Bare(c.send.taskId)] == [t, Bare(c.send.taskId)] && [x] + [t] == [x, t];
    NewIsOther(c, reader, [t], t);
  }

  lemma SettledReading(c: Scene, reader: string, t: Task, x: Task, w: World, r: Reader)
    requires c.Valid(reader, [t]) && Live.RunOn(Takeoff([c.send], c.known, c.rows), c.first) == w && r.p == 1
    requires w.rows == With(c, reader, Bare(c.send.taskId)) && Live.RunOn(w, c.next).rows == With(c, reader, x)
    requires x.id == c.send.taskId && x.seconds > t.seconds
    ensures var h := Seen(c, reader);
            && PlaceAt(r, h, 1) != PlaceAt(r, h, 2) && ServedAt(r, h, 2) && PlaceAt(r, h, 3) == None
            && |h(0).a| + |h(0).b| == 2 && Handed(r, h, 0, 3) == [t, x, t]
  {
    SettledBoxes(c, reader, t, x, w);
    StartsOver(r, Seen(c, reader), t, Bare(c.send.taskId), x);
    Counterexamples.HandedThrice(r, Seen(c, reader), t, x, t);
  }

  /** Wherever a task was seen in delivery and then settles in front: the read is complete and has a task twice. */
  lemma SettlesInFront(c: Scene, reader: string, t: Task, x: Task, w: World, sdk: Sdk, foreign: Cursors.Foreign,
                       maxPages: int, requests: nat, o: Client.Outcome)
    requires c.Valid(reader, [t]) && Live.RunOn(Takeoff([c.send], c.known, c.rows), c.first) == w
    requires w.rows == With(c, reader, Bare(c.send.taskId)) && Live.RunOn(w, c.next).rows == With(c, reader, x)
    requires x.id == c.send.taskId && x.seconds > t.seconds
    requires sdk.Valid() && maxPages >= 3 && Walk(HubServer(sdk, foreign, c.Log(), reader, 1), maxPages, requests, o)
    ensures o.Listed? && !o.listing.incomplete && o.listing.tasks == [t, x, t] && o.listing.total == 2
  {
    SettledReading(c, reader, t, x, w, ReaderOf(sdk, foreign, reader));
    Walks.NoFourthPlace(ReaderOf(sdk, foreign, reader), Seen(c, reader), requests);
    SceneWalk(c, reader, [t], sdk, foreign, maxPages, requests, o);
    Walks.StopsAtThird(ReaderOf(sdk, foreign, reader), Seen(c, reader), maxPages, requests, o);
  }

  /**
   An ordinary delivery to the reader, saved undated before its first request and completed before the
   second: the token that names it starts the mailbox over. The reader sends nothing, nothing is
   refused, no batch is split, and yet the first task comes twice in a complete read.
   */
  lemma DeliveryStartsOver(c: Scene, reader: string, t: Task, sdk: Sdk, foreign: Cursors.Foreign, maxPages: int,
                           requests: nat, o: Client.Outcome)
    requires c.Valid(reader, [t]) && c.first == PINNING && c.next == COMPLETING
    requires Judge(c.send, c.known) == Routed(reader) && c.send.seconds > t.seconds
    requires sdk.Valid() && maxPages >= 3 && Walk(HubServer(sdk, foreign, c.Log(), reader, 1), maxPages, requests, o)
    ensures o.Listed? && !o.listing.incomplete && o.listing.total == 2
    ensures o.listing.tasks == [t, Delivery.Outcome(c.send, c.known), t]
  {
    PinnedFirst(c, reader);
    CompletedNext(c, reader);
    assert [c.send][0] == c.send;
    SettlesInFront(c, reader, t, Delivery.Outcome(c.send, c.known), Pinned(c, reader), sdk, foreign, maxPages, requests, o);
  }

  /** The same happens to a sender whose own send is refused between its requests. */
  lemma RefusalStartsOver(c: Scene, t: Task, sdk: Sdk, foreign: Cursors.Foreign, maxPages: int, requests: nat,
                          o: Client.Outcome)
    requires c.Valid(c.send.user, [t]) && c.first == ANNOUNCING && c.next == REFUSING
    requires Judge(c.send, c.known).Refused? && c.send.seconds > t.seconds
    requires sdk.Valid() && maxPages >= 3 && Walk(HubServer(sdk, foreign, c.Log(), c.send.user, 1), maxPages, requests, o)
    ensures o.Listed? && !o.listing.incomplete && o.listing.total == 2
    ensures o.listing.tasks == [t, Delivery.Outcome(c.send, c.known), t]
  {
    AnnouncedFirst(c);
    RefusedNext(c);
    assert [c.send][0] == c.send;
    SettlesInFront(c, c.send.user, t, Delivery.Outcome(c.send, c.known), Announced(c), sdk, foreign, maxPages, requests, o);
  }

  // There are such scenes

  const RECEIVED := Task("t", Completed, 1, 0, [])
  const RECENT := Task("u", Completed, 2, 0, [])
  const ONE: Rows := [Entry("t", Stored("p/s", RECEIVED))]
  const TWO: Rows := ONE + [Entry("u", Stored("p/s", RECENT))]
  const AGENTS: Option<set<string>> := Some({"p", "q"})

  function SendTo(user: string, recipient: string): Send {
    Send("x", user, None, Some(Message("m", map[RECIPIENT := Word(recipient)])), map[], 3, 0)
  }

  function SceneOf(rows: Rows, user: string, recipient: string, first: seq<Move>, next: seq<Move>): Scene {
    Scene(rows, SendTo(user, recipient), AGENTS, first, next)
  }

  lemma NamesOfScenes()
    ensures PrincipalOf("p/s") == "p" && PrincipalOf("q/z") == "q" && Session("p/s") && Session("q/z")
    ensures IsValidIdentity("p/s", AGENTS) && IsValidIdentity("q", AGENTS)
    ensures Strip("p/s") == "p/s" && Strip("q") == "q" && Strip("") == ""
  {
    assert "p" + [SEPARATOR] + "s" == "p/s" && "q" + [SEPARATOR] + "z" == "q/z";
    PartitionOfJoin("p", SEPARATOR, "s");
    PartitionOfJoin("q", SEPARATOR, "z");
    PartitionOfPlain("q", SEPARATOR);
    StripTrims("p/s");
    StripTrims("q");
  }

  lemma VerdictOf(user: string, recipient: string)
    requires Strip(recipient) == recipient && (recipient != "" ==> IsValidIdentity(recipient, AGENTS))
    ensures Judge(SendTo(user, recipient), AGENTS) ==
              if recipient == "" then Verdict.Refused(NoRecipient) else Routed(recipient)
  {
    var send := SendTo(user, recipient);
    var named, none: map<string, Meta> := map[RECIPIENT := Word(recipient)], map[];
    var sources := [named, none];
    assert [send.message.value.metadata, send.metadata] == sources;
    assert sources[1..] == [none] && [none][1..] == [];
    assert ExtractRecipient([none]) == ExtractRecipient([]);
    assert named[RECIPIENT] == Word(recipient);
    assert ExtractRecipient(sources) == if recipient == "" then None else Some(recipient);
  }

  lemma MailboxesOfScenes()
    ensures Mailbox(ONE, "p/s") == [RECEIVED] && Mailbox(ONE, "p") == []
    ensures Mailbox(TWO, "p/s") == [RECENT, RECEIVED] && Mailbox(TWO, "p") == []
  {
    var none: Rows := [];
    assert ONE == none + ONE;
    MailboxSnoc(none, Entry("t", Stored("p/s", RECEIVED)), "p/s");
    MailboxSnoc(none, Entry("t", Stored("p/s", RECEIVED)), "p");
    MailboxSnoc(ONE, Entry("u", Stored("p/s", RECENT)), "p/s");
    MailboxSnoc(ONE, Entry("u", Stored("p/s", RECENT)), "p");
    assert [RECENT] + [RECEIVED] == [RECENT, RECEIVED];
  }

  lemma StartsOfScenes(user: string, recipient: string, rows: Rows)
    requires Session(user) && rows in [ONE, TWO]
    ensures Live.Starts([SendTo(user, recipient)], rows)
  {
    assert ONE[1..] == [] && TWO[1..] == [TWO[1]] && TWO[1..][1..] == [];
    assert "t"[0] != "u"[0] && "t"[0] != "x"[0] && "u"[0] != "x"[0];
    assert Lookup(ONE, "x") == None;
    assert Lookup(TWO, "x") == Lookup(TWO[1..], "x") == None;
    forall e | e in rows ensures e == ONE[0] || e == TWO[1] {
    }
    assert Consistent(rows);
    assert WellDated(rows);
    assert DistinctSends([SendTo(user, recipient)]);
  }

  /** There are such sends: to another agent, to nobody, and from another agent to the reader. */
  lemma ScenesExist()
    ensures SceneOf(ONE, "p/s", "q", ANNOUNCING, DELIVERING).Valid("p/s", [RECEIVED])
    ensures SceneOf(TWO, "p/s", "q", ANNOUNCING, DELIVERING).Valid("p/s", [RECENT, RECEIVED])
    ensures SceneOf(ONE, "p/s", "", ANNOUNCING, REFUSING).Valid("p/s", [RECEIVED])
    ensures SceneOf(ONE, "q/z", "p/s", PINNING, COMPLETING).Valid("p/s", [RECEIVED])
    ensures SceneOf(TWO, "q/z", "p/s", PINNING, COMPLETING).Valid("p/s", [RECENT, RECEIVED])
    ensures Judge(SendTo("p/s", "q"), AGENTS) == Routed("q") && Judge(SendTo("p/s", ""), AGENTS).Refused?
    ensures Judge(SendTo("q/z", "p/s"), AGENTS) == Routed("p/s") && "q" != "p/s"
    ensures SendTo("q/z", "p/s").seconds > RECENT.seconds > RECEIVED.seconds
  {
    NamesOfScenes();
    VerdictOf("p/s", "q");
    VerdictOf("p/s", "");
    VerdictOf("q/z", "p/s");
    MailboxesOfScenes();
    StartsOfScenes("p/s", "q", ONE);
    StartsOfScenes("p/s", "q", TWO);
    StartsOfScenes("p/s", "", ONE);
    StartsOfScenes("q/z", "p/s", ONE);
    StartsOfScenes("q/z", "p/s", TWO);
  }
}
