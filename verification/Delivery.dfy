/**
 Any number of sends in flight at once, each a producer and a consumer of its own queue, all
 writing the same rows: whatever the interleaving, where each task ends is already decided.
 */
module Delivery {
  import opened Executor
  import opened Identity
  import opened Store
  import opened Tables
  import opened Tasks
  import opened Wrappers

  /** What is left to do, the owner pinned so far, the events not yet consumed, the task so far. */
  datatype Flight = Flight(send: Send, todo: seq<Step>, override: Option<string>, queue: seq<Event>, current: Option<Task>)

  datatype World = World(flights: seq<Flight>, rows: Rows)

  function Bare(id: string): Task {
    Task(id, Submitted, 0, 0, [])
  }

  function Apply(id: string, current: Option<Task>, event: Event): Task {
    var task := if current.Some? then current.value else Bare(id);
    match event
    case NewTask(_) => Bare(id)
    case AddArtifact(artifact) => task.(artifacts := task.artifacts + [artifact])
    case SetStatus(state, seconds, nanos) => task.(state := state, seconds := seconds, nanos := nanos)
  }

  function Produce(f: Flight): Flight
    requires f.todo != []
  {
    match f.todo[0]
    case Emit(event) => f.(todo := f.todo[1..], queue := f.queue + [event])
    case Pin(owner) => f.(todo := f.todo[1..], override := Some(owner))
  }

  function Consume(f: Flight): Flight
    requires f.queue != []
  {
    f.(queue := f.queue[1..], current := Some(Apply(f.send.taskId, f.current, f.queue[0])))
  }

  /** What the consumer saves: the task under the owner its context resolves to now. */
  function Saved(f: Flight): Stored
    requires f.current.Some?
  {
    Stored(OwnerResolver(Context(f.send.user, f.override)), f.current.value)
  }

  datatype Move = Advance(i: nat) | Handle(i: nat)

  predicate Enabled(w: World, m: Move) {
    m.i < |w.flights| && if m.Advance? then w.flights[m.i].todo != [] else w.flights[m.i].queue != []
  }

  function Next(w: World, m: Move): World
    requires Enabled(w, m)
  {
    var f := w.flights[m.i];
    if m.Advance? then w.(flights := w.flights[m.i := Produce(f)])
    else
      var g := Consume(f);
      World(w.flights[m.i := g], Put(w.rows, f.send.taskId, Saved(g)))
  }

  /** The consumer of one send's queue: the next event makes the task, which is saved under the owner resolved now. */
  method HandleNext(f: Flight, store: HubTaskStore) returns (g: Flight)
    requires f.queue != [] && (f.current.Some? ==> f.current.value.id == f.send.taskId)
    modifies store
    ensures g == Consume(f)
    ensures World([g], store.rows) == Next(World([f], old(store.rows)), Handle(0))
  {
    g := Consume(f);
    store.Save(g.current.value, Context(f.send.user, f.override));
  }

  ghost predicate Possible(w: World, moves: seq<Move>)
    decreases moves
  {
    moves == [] || (Enabled(w, moves[0]) && Possible(Next(w, moves[0]), moves[1..]))
  }

  function After(w: World, moves: seq<Move>): World
    requires Possible(w, moves)
    decreases moves
  {
    if moves == [] then w else After(Next(w, moves[0]), moves[1..])
  }

  function Launch(send: Send, known: Option<set<string>>): Flight {
    Flight(send, Program(send, known), None, [], send.current)
  }

  predicate Landed(f: Flight) {
    f.todo == [] && f.queue == []
  }

  // Where one flight is

  /** The task after its first `n` events. */
  function TaskAfter(send: Send, known: Option<set<string>>, n: nat): Option<Task>
    requires n <= |EventsIn(Program(send, known))|
  {
    if n == 0 then send.current
    else Some(Apply(send.taskId, TaskAfter(send, known, n - 1), EventsIn(Program(send, known))[n - 1]))
  }

  function Destination(send: Send, known: Option<set<string>>): string {
    match Judge(send, known) case Routed(r) => r case Refused(_) => send.user
  }

  /** The task a send ends as: delivered with its stamp, or rejected with what it had. */
  function Outcome(send: Send, known: Option<set<string>>): Task {
    var start := if send.current.Some? then send.current.value else Bare(send.taskId);
    match Judge(send, known)
    case Refused(_) => start.(state := Rejected, seconds := send.seconds, nanos := send.nanos)
    case Routed(r) =>
      start.(state := Completed, seconds := send.seconds, nanos := send.nanos,
             artifacts := start.artifacts + [StampOf(send.user, r, send.message.value.id)])
  }

  lemma JudgedByAddress(send: Send, agents: set<string>, r: string)
    requires ProperAgents(agents)
    ensures Judge(send, Some(agents)) == Routed(r) <==> Addresses(send, r) && Readable(r, agents)
  {
    RoutedIffReadable(send, agents, r);
    if send.message.Some? {
      ExtractedIsAddressed(send, r);
    }
  }

  /**
   What a new send ends as, from what it says: completed in the mailbox it names, if some session can read
   that, with one artifact that has sender, recipient and source message; otherwise rejected in its
   sender's, with none. Its time is that of its end.
   */
  lemma OutcomeExactly(send: Send, agents: set<string>)
    requires ProperAgents(agents) && send.current == None
    ensures var task, owner := Outcome(send, Some(agents)), Destination(send, Some(agents));
            && task.id == send.taskId && task.seconds == send.seconds && task.nanos == send.nanos
            && (forall r | Addresses(send, r) && Readable(r, agents) ::
                  && owner == r && task.state == Completed
                  && task.artifacts == [Artifact(map["sender" := Word(send.user), "recipient" := Word(r),
                                                     "source_message_id" := Word(send.message.value.id)])])
            && ((forall r :: !(Addresses(send, r) && Readable(r, agents))) ==>
                  owner == send.user && task.state == Rejected && task.artifacts == [])
  {
    forall r ensures Judge(send, Some(agents)) == Routed(r) <==> Addresses(send, r) && Readable(r, agents) {
      JudgedByAddress(send, agents, r);
    }
    if Judge(send, Some(agents)).Routed? {
      var r := Judge(send, Some(agents)).recipient;
      assert [] + [StampOf(send.user, r, send.message.value.id)] == [StampOf(send.user, r, send.message.value.id)];
    }
  }

  /** How many events have been consumed. */
  function Handled(f: Flight, known: Option<set<string>>): int {
    |EventsIn(Program(f.send, known))| - |EventsIn(f.todo)| - |f.queue|
  }

  ghost predicate InStep(program: seq<Step>, todo: seq<Step>) {
    |todo| <= |program| && todo == program[|program| - |todo|..]
  }

  ghost predicate InOrder(events: seq<Event>, queue: seq<Event>, n: int) {
    0 <= n && n + |queue| <= |events| && queue == events[n..n + |queue|]
  }

  function PinnedAfter(send: Send, known: Option<set<string>>, left: nat): Option<string> {
    match Judge(send, known) case Routed(r) => if left < 3 then Some(r) else None case Refused(_) => None
  }

  /** The events come out in order, and the owner is pinned once and before any artifact is emitted. */
  ghost predicate OnCourse(f: Flight, known: Option<set<string>>) {
    var program, n := Program(f.send, known), Handled(f, known);
    && InStep(program, f.todo)
    && InOrder(EventsIn(program), f.queue, n)
    && f.current == TaskAfter(f.send, known, n)
    && f.override == PinnedAfter(f.send, known, |f.todo|)
  }

  /** What the row of a flight's task says, given what it said before the flight. */
  ghost predicate RowOnCourse(f: Flight, known: Option<set<string>>, before: Option<Stored>, row: Option<Stored>)
    requires OnCourse(f, known)
  {
    var n := Handled(f, known);
    if n == 0 then row == before
    else
      && row.Some? && f.current == Some(row.value.task)
      && (row.value.owner == Destination(f.send, known) || (row.value.owner == f.send.user && n <= |Announce(f.send)|))
      && (f.override == None ==> row.value.owner == f.send.user)
  }

  lemma TodoIsEnding(f: Flight, known: Option<set<string>>)
    requires OnCourse(f, known)
    ensures var program, events := Program(f.send, known), EventsIn(Program(f.send, known));
            events == EventsIn(program[..|program| - |f.todo|]) + EventsIn(f.todo)
  {
    var program := Program(f.send, known);
    var k := |program| - |f.todo|;
    assert program == program[..k] + f.todo;
    EventsInAppend(program[..k], f.todo);
  }

  lemma NextStep(program: seq<Step>, todo: seq<Step>)
    requires InStep(program, todo) && todo != []
    ensures todo[0] == program[|program| - |todo|] && InStep(program, todo[1..])
    ensures todo == [todo[0]] + todo[1..]
  {
  }

  /** Of a program's steps only the third from the end pins the owner. */
  lemma PinPlace(send: Send, known: Option<set<string>>, left: nat)
    requires 1 <= left <= |Program(send, known)|
    ensures var step := Program(send, known)[|Program(send, known)| - left];
            && (step.Pin? <==> Judge(send, known).Routed? && left == 3)
            && (step.Pin? ==> step.owner == Destination(send, known))
  {
    var ending := Ending(send, known);
    if left <= |ending| {
      assert Program(send, known)[|Program(send, known)| - left] == ending[|ending| - left];
    }
  }

  lemma QueueGrows(events: seq<Event>, emitted: seq<Event>, left: seq<Event>, queue: seq<Event>, n: nat)
    requires events == emitted + left && left != [] && n + |queue| == |emitted| && InOrder(events, queue, n)
    ensures InOrder(events, queue + [left[0]], n)
  {
    assert events[n + |queue|] == left[0];
  }

  lemma EmitKeeps(f: Flight, known: Option<set<string>>)
    requires OnCourse(f, known) && f.todo != [] && f.todo[0].Emit?
    ensures OnCourse(Produce(f), known) && Handled(Produce(f), known) == Handled(f, known)
  {
    var program := Program(f.send, known);
    NextStep(program, f.todo);
    PinPlace(f.send, known, |f.todo|);
    TodoIsEnding(f, known);
    QueueGrows(EventsIn(program), EventsIn(program[..|program| - |f.todo|]), EventsIn(f.todo), f.queue, Handled(f, known));
  }

  lemma AdvanceKeeps(f: Flight, known: Option<set<string>>)
    requires OnCourse(f, known) && f.todo != []
    ensures OnCourse(Produce(f), known) && Handled(Produce(f), known) == Handled(f, known)
  {
    if f.todo[0].Emit? {
      EmitKeeps(f, known);
    } else {
      NextStep(Program(f.send, known), f.todo);
      PinPlace(f.send, known, |f.todo|);
    }
  }

  lemma ConsumeKeeps(f: Flight, known: Option<set<string>>)
    requires OnCourse(f, known) && f.queue != []
    ensures OnCourse(Consume(f), known) && Handled(Consume(f), known) == Handled(f, known) + 1
  {
    TodoIsEnding(f, known);
    assert f.queue[0] == EventsIn(Program(f.send, known))[Handled(f, known)];
  }

  /** Before the owner is pinned only the announcement can have been consumed. */
  lemma UnpinnedIsAnnounced(f: Flight, known: Option<set<string>>)
    requires OnCourse(f, known) && Judge(f.send, known).Routed? && f.override == None
    ensures Handled(f, known) <= |Announce(f.send)|
  {
    var program := Program(f.send, known);
    EventsOfProgram(f.send, known);
    TodoIsEnding(f, known);
    var k := |program| - |f.todo|;
    assert k <= |Announce(f.send)|;
    assert |EventsIn(program[..k])| <= k by { EventsAreFewer(program[..k]); }
  }

  lemma {:induction false} EventsAreFewer(steps: seq<Step>)
    ensures |EventsIn(steps)| <= |steps|
  {
    if steps != [] {
      EventsAreFewer(steps[1..]);
    }
  }

  lemma SavedIsOnCourse(f: Flight, known: Option<set<string>>, before: Option<Stored>)
    requires OnCourse(f, known) && f.queue != []
    ensures OnCourse(Consume(f), known)
    ensures RowOnCourse(Consume(f), known, before, Some(Saved(Consume(f))))
  {
    ConsumeKeeps(f, known);
    var g := Consume(f);
    if Judge(f.send, known).Routed? && g.override == None {
      UnpinnedIsAnnounced(g, known);
    }
  }

  lemma LandedIsDecided(f: Flight, known: Option<set<string>>, before: Option<Stored>, row: Option<Stored>)
    requires OnCourse(f, known) && RowOnCourse(f, known, before, row) && Landed(f)
    ensures row == Some(Stored(Destination(f.send, known), Outcome(f.send, known)))
  {
    EventsOfProgram(f.send, known);
    var events := EventsIn(Program(f.send, known));
    assert Handled(f, known) == |events|;
    assert TaskAfter(f.send, known, |events|) == Some(Outcome(f.send, known)) by {
      OutcomeIsLast(f.send, known);
    }
  }

  lemma OutcomeIsLast(send: Send, known: Option<set<string>>)
    ensures TaskAfter(send, known, |EventsIn(Program(send, known))|) == Some(Outcome(send, known))
  {
    EventsOfProgram(send, known);
    var events, start := EventsIn(Program(send, known)), |Announce(send)|;
    var task := if send.current.Some? then send.current.value else Bare(send.taskId);
    assert start == 0 || (start == 1 && events[0] == NewTask(send.taskId));
    assert TaskAfter(send, known, start) == if start == 0 then send.current else Some(task) by {
      assert TaskAfter(send, known, 0) == send.current;
    }
    if Judge(send, known).Routed? {
      var stamp := StampOf(send.user, Judge(send, known).recipient, send.message.value.id);
      assert events[start] == AddArtifact(stamp);
      assert TaskAfter(send, known, start + 1) == Some(task.(artifacts := task.artifacts + [stamp]));
    }
  }

  // All flights together

  ghost predicate DistinctSends(sends: seq<Send>) {
    && (forall i, j | 0 <= i < j < |sends| :: sends[i].taskId != sends[j].taskId)
    && (forall i | 0 <= i < |sends| :: sends[i].current.Some? ==> sends[i].current.value.id == sends[i].taskId)
  }

  ghost predicate FlightOk(w: World, i: nat, sends: seq<Send>, known: Option<set<string>>, before: Rows)
    requires i < |w.flights| == |sends|
  {
    var f := w.flights[i];
    && f.send == sends[i]
    && OnCourse(f, known)
    && RowOnCourse(f, known, Lookup(before, f.send.taskId), Lookup(w.rows, f.send.taskId))
  }

  ghost predicate Untouched(key: string, sends: seq<Send>) {
    forall i | 0 <= i < |sends| :: sends[i].taskId != key
  }

  /** What every reachable world keeps. */
  ghost predicate Steady(w: World, sends: seq<Send>, known: Option<set<string>>, before: Rows) {
    && |w.flights| == |sends|
    && (forall i | 0 <= i < |sends| :: FlightOk(w, i, sends, known, before))
    && (forall key | Untouched(key, sends) :: Lookup(w.rows, key) == Lookup(before, key))
  }

  /** Producing a step changes neither the task so far nor how much was handled, so its row stays right. */
  lemma AdvanceRow(f: Flight, known: Option<set<string>>, before: Option<Stored>, row: Option<Stored>)
    requires OnCourse(f, known) && f.todo != [] && RowOnCourse(f, known, before, row)
    ensures OnCourse(Produce(f), known) && RowOnCourse(Produce(f), known, before, row)
  {
    AdvanceKeeps(f, known);
  }

  lemma AdvanceStep(w: World, i: nat, sends: seq<Send>, known: Option<set<string>>, before: Rows)
    requires Steady(w, sends, known, before) && DistinctSends(sends) && Enabled(w, Advance(i))
    ensures Steady(Next(w, Advance(i)), sends, known, before)
  {
    var v, f := Next(w, Advance(i)), w.flights[i];
    assert FlightOk(w, i, sends, known, before);
    AdvanceRow(f, known, Lookup(before, f.send.taskId), Lookup(w.rows, f.send.taskId));
    forall j | 0 <= j < |sends| ensures FlightOk(v, j, sends, known, before) {
      assert FlightOk(w, j, sends, known, before);
      if j != i {
        assert v.flights[j] == w.flights[j];
      }
    }
  }

  lemma HandleStep(w: World, i: nat, sends: seq<Send>, known: Option<set<string>>, before: Rows)
    requires Steady(w, sends, known, before) && DistinctSends(sends) && Enabled(w, Handle(i))
    ensures Steady(Next(w, Handle(i)), sends, known, before)
  {
    var v, f := Next(w, Handle(i)), w.flights[i];
    assert FlightOk(w, i, sends, known, before);
    SavedIsOnCourse(f, known, Lookup(before, f.send.taskId));
    forall j | 0 <= j < |sends| ensures FlightOk(v, j, sends, known, before) {
      assert FlightOk(w, j, sends, known, before);
      LookupPut(w.rows, f.send.taskId, Saved(Consume(f)), sends[j].taskId);
    }
    forall key | Untouched(key, sends) ensures Lookup(v.rows, key) == Lookup(before, key) {
      LookupPut(w.rows, f.send.taskId, Saved(Consume(f)), key);
    }
  }

  lemma StepKeeps(w: World, m: Move, sends: seq<Send>, known: Option<set<string>>, before: Rows)
    requires Steady(w, sends, known, before) && DistinctSends(sends) && Enabled(w, m)
    ensures Steady(Next(w, m), sends, known, before)
  {
    match m
    case Advance(i) => AdvanceStep(w, i, sends, known, before);
    case Handle(i) => HandleStep(w, i, sends, known, before);
  }

  lemma {:induction false} RunKeeps(w: World, moves: seq<Move>, sends: seq<Send>, known: Option<set<string>>, before: Rows)
    requires Steady(w, sends, known, before) && DistinctSends(sends) && Possible(w, moves)
    ensures Steady(After(w, moves), sends, known, before)
    decreases moves
  {
    if moves != [] {
      StepKeeps(w, moves[0], sends, known, before);
      RunKeeps(Next(w, moves[0]), moves[1..], sends, known, before);
    }
  }

  function Takeoff(sends: seq<Send>, known: Option<set<string>>, rows: Rows): World {
    World(seq(|sends|, i requires 0 <= i < |sends| => Launch(sends[i], known)), rows)
  }

  lemma TakeoffIsSteady(sends: seq<Send>, known: Option<set<string>>, rows: Rows)
    ensures Steady(Takeoff(sends, known, rows), sends, known, rows)
  {
  }

  /**
   Under every interleaving: once a send's events are consumed its task is COMPLETED in the
   recipient's mailbox or REJECTED in the sender's, and no other row has changed.
   */
  lemma DeliveredUnderEveryInterleaving(sends: seq<Send>, known: Option<set<string>>, rows: Rows, moves: seq<Move>, i: nat)
    requires DistinctSends(sends) && Possible(Takeoff(sends, known, rows), moves) && i < |sends|
    ensures var w := After(Takeoff(sends, known, rows), moves);
            && |w.flights| == |sends|
            && (Landed(w.flights[i]) ==>
                  Lookup(w.rows, sends[i].taskId) == Some(Stored(Destination(sends[i], known), Outcome(sends[i], known))))
            && (forall key | Untouched(key, sends) :: Lookup(w.rows, key) == Lookup(rows, key))
  {
    var w := After(Takeoff(sends, known, rows), moves);
    TakeoffIsSteady(sends, known, rows);
    RunKeeps(Takeoff(sends, known, rows), moves, sends, known, rows);
    assert FlightOk(w, i, sends, known, rows);
    if Landed(w.flights[i]) {
      LandedIsDecided(w.flights[i], known, Lookup(rows, sends[i].taskId), Lookup(w.rows, sends[i].taskId));
    }
  }

  /** At every moment: what a send has stored beyond its announcement lies where it will end; never with a third party. */
  lemma NeverAstray(sends: seq<Send>, known: Option<set<string>>, rows: Rows, moves: seq<Move>, i: nat)
    requires DistinctSends(sends) && Possible(Takeoff(sends, known, rows), moves) && i < |sends|
    requires sends[i].current == None && Lookup(rows, sends[i].taskId) == None
    ensures var w := After(Takeoff(sends, known, rows), moves);
            var row := Lookup(w.rows, sends[i].taskId);
            row.Some? ==>
              && row.value.owner in {sends[i].user, Destination(sends[i], known)}
              && (row.value.task != Bare(sends[i].taskId) ==> row.value.owner == Destination(sends[i], known))
  {
    var w := After(Takeoff(sends, known, rows), moves);
    TakeoffIsSteady(sends, known, rows);
    RunKeeps(Takeoff(sends, known, rows), moves, sends, known, rows);
    assert FlightOk(w, i, sends, known, rows);
    var n := Handled(w.flights[i], known);
    EventsOfProgram(sends[i], known);
    if n == 1 {
      assert TaskAfter(sends[i], known, 1) == Some(Bare(sends[i].taskId));
    }
  }

  // Every schedule finishes, and all of them agree

  function Work(flights: seq<Flight>): nat {
    if flights == [] then 0 else 2 * |flights[0].todo| + |flights[0].queue| + Work(flights[1..])
  }

  lemma {:induction false} WorkAt(flights: seq<Flight>, i: nat, f: Flight)
    requires i < |flights|
    ensures Work(flights[i := f]) ==
              Work(flights) - 2 * |flights[i].todo| - |flights[i].queue| + 2 * |f.todo| + |f.queue|
  {
    if i > 0 {
      WorkAt(flights[1..], i - 1, f);
      assert flights[i := f][1..] == flights[1..][i - 1 := f];
    } else {
      assert flights[0 := f][1..] == flights[1..];
    }
  }

  /** A schedule is never longer than the work there was. */
  lemma {:induction false} RunIsBounded(w: World, moves: seq<Move>)
    requires Possible(w, moves)
    ensures |moves| <= Work(w.flights)
    decreases moves
  {
    if moves != [] {
      var f := w.flights[moves[0].i];
      WorkAt(w.flights, moves[0].i, if moves[0].Advance? then Produce(f) else Consume(f));
      RunIsBounded(Next(w, moves[0]), moves[1..]);
    }
  }

  ghost predicate AllLanded(w: World) {
    forall i | 0 <= i < |w.flights| :: Landed(w.flights[i])
  }

  /** A schedule that cannot go on has landed every send. */
  lemma StuckIffLanded(w: World)
    ensures AllLanded(w) <==> forall m :: !Enabled(w, m)
  {
    if i :| 0 <= i < |w.flights| && !Landed(w.flights[i]) {
      assert Enabled(w, Advance(i)) || Enabled(w, Handle(i));
    }
  }

  lemma SchedulesAgree(sends: seq<Send>, known: Option<set<string>>, rows: Rows, one: seq<Move>, other: seq<Move>,
                       key: string)
    requires DistinctSends(sends)
    requires Possible(Takeoff(sends, known, rows), one) && AllLanded(After(Takeoff(sends, known, rows), one))
    requires Possible(Takeoff(sends, known, rows), other) && AllLanded(After(Takeoff(sends, known, rows), other))
    ensures Lookup(After(Takeoff(sends, known, rows), one).rows, key)
              == Lookup(After(Takeoff(sends, known, rows), other).rows, key)
  {
    if i :| 0 <= i < |sends| && sends[i].taskId == key {
      DeliveredUnderEveryInterleaving(sends, known, rows, one, i);
      DeliveredUnderEveryInterleaving(sends, known, rows, other, i);
    } else {
      TakeoffIsSteady(sends, known, rows);
      RunKeeps(Takeoff(sends, known, rows), one, sends, known, rows);
      RunKeeps(Takeoff(sends, known, rows), other, sends, known, rows);
      assert Untouched(key, sends);
    }
  }
}
