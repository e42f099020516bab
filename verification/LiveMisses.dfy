/**
 What a session's read misses when sends are in flight. Tasks in delivery stand in a mailbox in the order
 of their rows, and rows stay where they are; so what falls behind a reader has settled.
 */
module LiveMisses {
  import opened Arrivals
  import opened Delivery
  import opened Executor
  import opened Identity
  import opened Live
  import opened Mailboxes
  import opened Misses
  import opened Paging
  import opened Places
  import opened Repeats
  import opened Sorting
  import opened Store
  import opened Tables
  import opened Tasks
  import opened Wrappers

  // Rows stay where they are

  ghost predicate KeysStay(rows: Rows, later: Rows) {
    |rows| <= |later| && forall i | 0 <= i < |rows| :: later[i].key == rows[i].key
  }

  lemma {:induction false} PutKeepsKeys(rows: Rows, key: string, stored: Stored)
    ensures KeysStay(rows, Put(rows, key, stored))
  {
    if rows != [] && rows[0].key != key {
      var rest := Put(rows[1..], key, stored);
      PutKeepsKeys(rows[1..], key, stored);
      forall i | 0 <= i < |rows| ensures ([rows[0]] + rest)[i].key == rows[i].key {
        if i > 0 {
          assert rest[i - 1].key == rows[1..][i - 1].key;
        }
      }
    }
  }

  lemma MoveKeepsKeys(w: World, m: Move)
    requires Enabled(w, m)
    ensures KeysStay(w.rows, Next(w, m).rows)
  {
    match m
    case Advance(_) =>
    case Handle(i) => PutKeepsKeys(w.rows, w.flights[i].send.taskId, Saved(Consume(w.flights[i])));
  }

  lemma {:induction false} RunKeepsKeys(w: World, moves: seq<Move>)
    ensures KeysStay(w.rows, RunOn(w, moves).rows)
    decreases moves
  {
    if moves != [] {
      if Enabled(w, moves[0]) {
        MoveKeepsKeys(w, moves[0]);
      }
      RunKeepsKeys(if Enabled(w, moves[0]) then Next(w, moves[0]) else w, moves[1..]);
    }
  }

  lemma WorldsKeepKeys(start: World, schedule: Schedule, j: nat)
    ensures KeysStay(WorldAt(start, schedule, j).rows, WorldAt(start, schedule, j + 2).rows)
  {
    RunKeepsKeys(WorldAt(start, schedule, j), schedule(j + 1));
    RunKeepsKeys(WorldAt(start, schedule, j + 1), schedule(j + 2));
  }

  // Tasks in delivery stand in the order of their rows, the last first

  lemma {:induction false} InsertStandsFirst(x: Task, s: seq<Task>, t: Task)
    requires t in s && NotOlder(x, t) && Sorted(s, NotOlder) && forall u | u in s :: u.id != x.id
    ensures StandsBehind(Insert(x, s, NotOlder), x.id, t)
  {
    if !NotOlder(x, s[0]) {
      assert s == [s[0]] + s[1..] && t != s[0];
      InsertStandsFirst(x, s[1..], t);
    }
  }

  lemma {:induction false} InsertIsFound(x: Task, s: seq<Task>)
    requires forall u | u in s :: u.id != x.id
    ensures StandsBehind(Insert(x, s, NotOlder), x.id, x)
  {
    if s != [] && !NotOlder(x, s[0]) {
      InsertIsFound(x, s[1..]);
    }
  }

  lemma {:induction false} InsertKeepsBehind(x: Task, s: seq<Task>, id: string, t: Task)
    requires StandsBehind(s, id, t) && x.id != id
    ensures StandsBehind(Insert(x, s, NotOlder), id, t)
  {
    if NotOlder(x, s[0]) {
      assert ([x] + s)[1..] == s;
    } else if s[0].id == id {
      InsertHolds(x, s, NotOlder, t);
    } else {
      InsertKeepsBehind(x, s[1..], id, t);
      assert ([s[0]] + Insert(x, s[1..], NotOlder))[1..] == Insert(x, s[1..], NotOlder);
    }
  }

  /** Row `i` holds a task in delivery of this owner's. */
  ghost predicate OpenRow(rows: Rows, owner: string, i: nat) {
    i < |rows| && rows[i].value.owner == owner && !Settled(rows[i].value.task)
  }

  lemma NewestIsOther(earlier: Rows, last: Entry<string, Stored>, owner: string)
    requires Consistent(earlier + [last])
    ensures Consistent(earlier)
    ensures forall u | u in Mailbox(earlier, owner) :: u.id != last.value.task.id
  {
    var rows := earlier + [last];
    assert last in rows && forall e | e in earlier :: e in rows;
    forall i, j | 0 <= i < j < |earlier| ensures earlier[i].key != earlier[j].key {
      assert rows[i].key != rows[j].key;
    }
    forall u | u in Mailbox(earlier, owner) ensures u.id != last.value.task.id {
      MailboxHolds(earlier, owner, u);
      var i :| 0 <= i < |earlier| && earlier[i].value == Stored(owner, u);
      assert rows[i].key != rows[|earlier|].key && earlier[i] in rows;
    }
  }

  lemma {:induction false} StandsInRowOrder(rows: Rows, owner: string, i: nat, j: nat)
    requires Consistent(rows) && WellDated(rows) && OpenRow(rows, owner, i) && OpenRow(rows, owner, j) && i <= j
    ensures StandsBehind(Mailbox(rows, owner), rows[j].value.task.id, rows[i].value.task)
  {
    var last, earlier := rows[|rows| - 1], rows[..|rows| - 1];
    assert rows == earlier + [last];
    NewestIsOther(earlier, last, owner);
    if j < |earlier| {
      StandsInRowOrder(earlier, owner, i, j);
      assert rows[j].key != last.key && rows[j] in rows && last in rows;
      if last.value.owner == owner {
        InsertKeepsBehind(last.value.task, Mailbox(earlier, owner), rows[j].value.task.id, rows[i].value.task);
      }
    } else if i < j {
      MailboxHolds(earlier, owner, rows[i].value.task);
      assert earlier[i] in earlier && rows[i] in rows && last in rows;
      MailboxSorted(earlier, owner);
      InsertStandsFirst(last.value.task, Mailbox(earlier, owner), rows[i].value.task);
    } else {
      InsertIsFound(last.value.task, Mailbox(earlier, owner));
    }
  }

  lemma {:induction false} EachBehindOther(s: seq<Task>, x: Task, y: Task)
    requires UniqueIds(s) && x in s && y in s && StandsBehind(s, x.id, y) && StandsBehind(s, y.id, x)
    ensures x == y
  {
    if s[0].id == x.id {
      FromFinds(s, x);
      if s[0].id == y.id {
        FromFinds(s, y);
      } else {
        NotFurtherOn(s, y.id);
      }
    } else if s[0].id == y.id {
      FromFinds(s, y);
      NotFurtherOn(s, x.id);
    } else {
      assert s == [s[0]] + s[1..];
      EachBehindOther(s[1..], x, y);
    }
  }

  lemma RowOf(rows: Rows, owner: string, t: Task) returns (i: nat)
    requires Consistent(rows) && t in Mailbox(rows, owner)
    ensures i < |rows| && rows[i].key == t.id && rows[i].value == Stored(owner, t)
  {
    MailboxHolds(rows, owner, t);
    i :| 0 <= i < |rows| && rows[i].value == Stored(owner, t);
    assert rows[i] in rows;
  }

  lemma RowsStandAsTasks(rows: Rows, owner: string, x: Task, y: Task, i: nat, j: nat)
    requires Consistent(rows) && WellDated(rows) && OpenRow(rows, owner, i) && OpenRow(rows, owner, j)
    requires rows[i].key == x.id && rows[j].key == y.id && rows[i].value.task == x && rows[j].value.task == y
    requires x in Mailbox(rows, owner) && y in Mailbox(rows, owner)
    requires StandsBehind(Mailbox(rows, owner), y.id, x)
    ensures i <= j
  {
    if j < i {
      StandsInRowOrder(rows, owner, j, i);
      MailboxIsBox(rows, owner);
      EachBehindOther(Mailbox(rows, owner), x, y);
    }
  }

  lemma SameRow(rows: Rows, later: Rows, owner: string, i: nat, v: Task)
    requires Consistent(rows) && Consistent(later) && KeysStay(rows, later) && v in Mailbox(later, owner)
    requires i < |rows| && rows[i].key == v.id
    ensures later[i].value == Stored(owner, v)
  {
    var m := RowOf(later, owner, v);
    assert later[i].key == later[m].key;
  }

  lemma PairKeepsOrder(rows: Rows, later: Rows, owner: string, x: Task, y: Task, v: Task, w: Task)
    requires Consistent(rows) && WellDated(rows) && Consistent(later) && WellDated(later) && KeysStay(rows, later)
    ensures InOrderOf(Mailbox(rows, owner), Mailbox(later, owner), SettledTask(), x, y, v, w)
  {
    var s, t := Mailbox(rows, owner), Mailbox(later, owner);
    if x in s && y in s && v in t && w in t && v.id == x.id && w.id == y.id && !Settled(x) && !Settled(y)
       && !Settled(v) && !Settled(w) && StandsBehind(s, y.id, x) {
      var i := RowOf(rows, owner, x);
      var j := RowOf(rows, owner, y);
      RowsStandAsTasks(rows, owner, x, y, i, j);
      SameRow(rows, later, owner, i, v);
      SameRow(rows, later, owner, j, w);
      StandsInRowOrder(later, owner, i, j);
    }
  }

  lemma MailboxKeepsOrder(rows: Rows, later: Rows, owner: string)
    requires Consistent(rows) && WellDated(rows) && Consistent(later) && WellDated(later) && KeysStay(rows, later)
    ensures Orderly(Mailbox(rows, owner), Mailbox(later, owner), SettledTask())
  {
    forall x, y, v, w ensures InOrderOf(Mailbox(rows, owner), Mailbox(later, owner), SettledTask(), x, y, v, w) {
      PairKeepsOrder(rows, later, owner, x, y, v, w);
    }
  }

  lemma WorldsKeepOrder(sends: seq<Send>, known: Option<set<string>>, rows: Rows, schedule: Schedule, owner: string, j: nat)
    requires Starts(sends, rows)
    ensures var start := Takeoff(sends, known, rows);
            Orderly(Mailbox(WorldAt(start, schedule, j).rows, owner), Mailbox(WorldAt(start, schedule, j + 2).rows, owner),
                    SettledTask())
  {
    var start := Takeoff(sends, known, rows);
    WorldsInTwo(sends, known, rows, schedule, j);
    WorldsKeepKeys(start, schedule, j);
    MailboxKeepsOrder(WorldAt(start, schedule, j).rows, WorldAt(start, schedule, j + 2).rows, owner);
  }

  lemma RequestKeepsOrder(sends: seq<Send>, known: Option<set<string>>, rows: Rows, schedule: Schedule, ida: string,
                          idb: string, h: History, k: nat)
    requires Starts(sends, rows)
    requires h(k) == HistoryOf(LogOf(Takeoff(sends, known, rows), schedule), ida, idb)(k)
    requires h(k + 1) == HistoryOf(LogOf(Takeoff(sends, known, rows), schedule), ida, idb)(k + 1)
    ensures OrderlyAt(h, SettledTask(), k)
  {
    var start := Takeoff(sends, known, rows);
    var i, j: nat := 2 * k, 2 * k + 1;
    WorldsKeepOrder(sends, known, rows, schedule, ida, i);
    WorldsKeepOrder(sends, known, rows, schedule, idb, j);
    WorldBoxes(start, schedule, ida, idb, k);
    WorldBoxes(start, schedule, ida, idb, k + 1);
    assert 2 * (k + 1) == i + 2 && 2 * (k + 1) + 1 == j + 2;
  }

  /** Whatever is delivered meanwhile, tasks in delivery keep their order among themselves. */
  lemma DeliveriesKeepOrder(sends: seq<Send>, known: Option<set<string>>, rows: Rows, schedule: Schedule, ida: string,
                            idb: string)
    requires Starts(sends, rows)
    ensures KeepsOrder(HistoryOf(LogOf(Takeoff(sends, known, rows), schedule), ida, idb), SettledTask())
  {
    var h := HistoryOf(LogOf(Takeoff(sends, known, rows), schedule), ida, idb);
    forall k: nat ensures OrderlyAt(h, SettledTask(), k) {
      RequestKeepsOrder(sends, known, rows, schedule, ida, idb, h, k);
    }
  }

  // What a reader misses

  /** The announcement of a send of this owner's, of this id, has gone to where the send is routed. */
  ghost predicate HasMoved(rows: Rows, later: Rows, sends: seq<Send>, known: Option<set<string>>, owner: string,
                           id: string) {
    exists i | 0 <= i < |sends| :: sends[i].taskId == id && MovedAway(rows, later, owner, sends[i], known)
  }

  lemma GoneIsMoved(sends: seq<Send>, known: Option<set<string>>, rows: Rows, w: World, v: World, owner: string, id: string)
    requires Starts(sends, rows) && Live.InStep(w, v, sends, known, rows) && HasId(Mailbox(w.rows, owner), id)
    ensures IsGone(Mailbox(v.rows, owner), id) <==> HasMoved(w.rows, v.rows, sends, known, owner, id)
  {
    if IsGone(Mailbox(v.rows, owner), id) {
      var i := OnlyAnnouncementsLeave(w, v, sends, known, rows, owner, id);
    }
    if i :| 0 <= i < |sends| && sends[i].taskId == id && MovedAway(w.rows, v.rows, owner, sends[i], known) {
      HoldsByRow(v.rows, owner, id);
    }
  }

  lemma PrincipalsNeverMove(sends: seq<Send>, known: Option<set<string>>, rows: Rows, w: World, v: World, user: string,
                            id: string)
    requires Starts(sends, rows)
    ensures !HasMoved(w.rows, v.rows, sends, known, PrincipalOf(user), id)
  {
    forall i | 0 <= i < |sends| ensures sends[i].user != PrincipalOf(user) {
      SessionIsNoPrincipal(sends[i].user, user);
    }
  }

  lemma LeftAheadIsHeld(r: Reader, h: History, k: nat, left: bool, id: string)
    requires LeftAhead(r, h, k, left, id)
    ensures HasId(Side(h(k), left), id)
  {
    var t :| Leaves(r, h, k, left, t) && t.id == id;
    AheadIsOfBox(Side(h(k), left), MarkOn(PlaceAt(r, h, k + 1).value, left), t);
  }

  /**
   Ahead of the reader after request `k`, and then: it is an announcement of the reader's own that has
   gone to its recipient, it has settled behind the reader, or it is skipped with the first half of a batch.
   */
  ghost predicate Escapes(sends: seq<Send>, known: Option<set<string>>, start: World, schedule: Schedule, r: Reader,
                          h: History, k: nat, left: bool, id: string) {
    && LeftAhead(r, h, k, left, id)
    && (|| (left && HasMoved(FirstWorld(start, schedule, k).rows, FirstWorld(start, schedule, k + 1).rows, sends, known,
                             r.ida, id))
        || SettledBehind(Side(h(k), left), Side(h(k + 1), left), MarkOn(PlaceAt(r, h, k + 1).value, left), SettledTask(), id)
        || IsSkipped(r, h, k + 1, id))
  }

  lemma EscapesAlike(sends: seq<Send>, known: Option<set<string>>, rows: Rows, schedule: Schedule, r: Reader, h: History,
                     k: nat, left: bool, id: string)
    requires Starts(sends, rows) && Session(r.ida) && r.idb == PrincipalOf(r.ida)
    requires h == HistoryOf(LogOf(Takeoff(sends, known, rows), schedule), r.ida, r.idb)
    ensures SlipsBy(r, h, SettledTask(), k, left, id) <==>
              Escapes(sends, known, Takeoff(sends, known, rows), schedule, r, h, k, left, id)
  {
    var start := Takeoff(sends, known, rows);
    if LeftAhead(r, h, k, left, id) {
      LeftAheadIsHeld(r, h, k, left, id);
      RequestsInStep(sends, known, rows, schedule, k);
      WorldBoxes(start, schedule, r.ida, r.idb, k);
      WorldBoxes(start, schedule, r.ida, r.idb, k + 1);
      if left {
        GoneIsMoved(sends, known, rows, FirstWorld(start, schedule, k), FirstWorld(start, schedule, k + 1), r.ida, id);
      } else {
        var w, v := SecondWorld(start, schedule, k), SecondWorld(start, schedule, k + 1);
        GoneIsMoved(sends, known, rows, w, v, r.idb, id);
        PrincipalsNeverMove(sends, known, rows, w, v, r.ida, id);
      }
    }
  }

  /** It had not been handed out after request `k`, escapes the reader there, and never comes up again. */
  ghost predicate LostAfter(sends: seq<Send>, known: Option<set<string>>, start: World, schedule: Schedule, r: Reader,
                            h: History, k: nat, n: nat, id: string) {
    && NotBefore(r, h, k + 1, id)
    && (|| Escapes(sends, known, start, schedule, r, h, k, true, id)
        || Escapes(sends, known, start, schedule, r, h, k, false, id))
    && NotAfter(r, h, k, n, id)
  }

  ghost predicate IsLost(sends: seq<Send>, known: Option<set<string>>, start: World, schedule: Schedule, r: Reader,
                         h: History, n: nat, id: string) {
    exists k: nat | k + 1 < n :: LostAfter(sends, known, start, schedule, r, h, k, n, id)
  }

  lemma LostAlike(sends: seq<Send>, known: Option<set<string>>, rows: Rows, schedule: Schedule, r: Reader, h: History,
                  k: nat, n: nat, id: string)
    requires Starts(sends, rows) && Session(r.ida) && r.idb == PrincipalOf(r.ida)
    requires h == HistoryOf(LogOf(Takeoff(sends, known, rows), schedule), r.ida, r.idb)
    ensures MissedBy(r, h, SettledTask(), k, n, id) <==>
              LostAfter(sends, known, Takeoff(sends, known, rows), schedule, r, h, k, n, id)
  {
    EscapesAlike(sends, known, rows, schedule, r, h, k, true, id);
    EscapesAlike(sends, known, rows, schedule, r, h, k, false, id);
  }

  /** Exactly when a task that was there at the first request comes in no form. */
  lemma LostIff(sends: seq<Send>, known: Option<set<string>>, rows: Rows, schedule: Schedule, r: Reader, h: History, n: nat,
                id: string)
    requires Starts(sends, rows) && Session(r.ida) && r.idb == PrincipalOf(r.ida)
    requires h == HistoryOf(LogOf(Takeoff(sends, known, rows), schedule), r.ida, r.idb)
    requires Finished(r, h, n) && (HasId(h(0).a, id) || HasId(h(0).b, id))
    ensures !HasId(Handed(r, h, 0, n), id) <==>
              IsLost(sends, known, Takeoff(sends, known, rows), schedule, r, h, n, id)
  {
    SessionReads(r.ida);
    DeliveriesLast(sends, known, rows, schedule);
    LogIsLasting(LogOf(Takeoff(sends, known, rows), schedule), r.ida, r.idb);
    DeliveriesKeepOrder(sends, known, rows, schedule, r.ida, r.idb);
    InitialMissedIff(r, h, SettledTask(), n, id);
    forall k: nat
      ensures MissedBy(r, h, SettledTask(), k, n, id) <==>
                LostAfter(sends, known, Takeoff(sends, known, rows), schedule, r, h, k, n, id)
    {
      LostAlike(sends, known, rows, schedule, r, h, k, n, id);
    }
  }

  // Counted twice

  /** It was fetched from the one mailbox, and then moved to the other before that was fetched. */
  ghost predicate MovedHome(rows: Rows, later: Rows, sends: seq<Send>, known: Option<set<string>>, user: string,
                            id: string) {
    exists i | 0 <= i < |sends| ::
      sends[i].taskId == id && Destination(sends[i], known) == PrincipalOf(user)
      && MovedAway(rows, later, user, sends[i], known)
  }

  lemma InBothIff(sends: seq<Send>, known: Option<set<string>>, rows: Rows, w: World, v: World, user: string, id: string)
    requires Starts(sends, rows) && Live.InStep(w, v, sends, known, rows) && user != PrincipalOf(user)
    ensures HasId(Mailbox(w.rows, user), id) && HasId(Mailbox(v.rows, PrincipalOf(user)), id) <==>
              MovedHome(w.rows, v.rows, sends, known, user, id)
  {
    HoldsByRow(w.rows, user, id);
    HoldsByRow(v.rows, user, id);
    HoldsByRow(v.rows, PrincipalOf(user), id);
    if HasId(Mailbox(w.rows, user), id) && HasId(Mailbox(v.rows, PrincipalOf(user)), id) {
      var i := OnlyAnnouncementsLeave(w, v, sends, known, rows, user, id);
    }
  }

  /** From the first fetch of a request to its second. */
  lemma FetchesInStep(sends: seq<Send>, known: Option<set<string>>, rows: Rows, schedule: Schedule, j: nat)
    requires Starts(sends, rows)
    ensures var start := Takeoff(sends, known, rows);
            Live.InStep(FirstWorld(start, schedule, j), SecondWorld(start, schedule, j), sends, known, rows)
  {
    WorldsInStep(sends, known, rows, schedule, 2 * j);
  }
}
