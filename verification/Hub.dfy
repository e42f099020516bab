/**
 The hub as a state machine: deliveries and marks, and what is read between them. The mark
 routes (`routes_marks.py`) ask the store "is it mine" before writing and "may I read it"
 before reading.
 */
module Hub {
  import opened Delivery
  import opened Executor
  import opened Identity
  import opened Mailboxes
  import opened Marks
  import opened Store
  import opened Tables
  import opened Tasks
  import opened Text
  import opened Wrappers
  import Cursors
  import Sorting

  // The mark routes

  function SenderText(task: Task): string {
    match SenderOf(task) case Some(s) => s case None => ""
  }

  lemma SenderIsFirst(task: Task)
    ensures (forall i | 0 <= i < |task.artifacts| :: Silent(task.artifacts[i], "sender")) ==> SenderText(task) == ""
    ensures forall i, text | 0 <= i < |task.artifacts| && Says(task.artifacts[i], "sender", text)
                             && (forall j | 0 <= j < i :: Silent(task.artifacts[j], "sender")) ::
              SenderText(task) == text
  {
    var artifacts := task.artifacts;
    StampIsFirst(artifacts, SENDER);
    forall i, text | 0 <= i < |artifacts| && Says(artifacts[i], "sender", text)
                     && (forall j | 0 <= j < i :: Silent(artifacts[j], "sender"))
      ensures SenderText(task) == text
    {
      assert Says(artifacts[i], SENDER, text) && forall j | 0 <= j < i :: Silent(artifacts[j], SENDER);
      assert Stamp(artifacts, SENDER) == Some(text);
    }
    if forall i | 0 <= i < |artifacts| :: Silent(artifacts[i], "sender") {
      assert forall i | 0 <= i < |artifacts| :: Silent(artifacts[i], SENDER);
    }
  }

  /** The sender on the delivered message, or nothing. */
  method RecordedSender(task: Task) returns (sender: string)
    ensures sender == SenderText(task)
    ensures (forall i | 0 <= i < |task.artifacts| :: Silent(task.artifacts[i], "sender")) ==> sender == ""
    ensures forall i, text | 0 <= i < |task.artifacts| && Says(task.artifacts[i], "sender", text)
                             && (forall j | 0 <= j < i :: Silent(task.artifacts[j], "sender")) ::
              sender == text
  {
    SenderIsFirst(task);
    for i := 0 to |task.artifacts|
      invariant Stamp(task.artifacts[i..], SENDER) == Stamp(task.artifacts, SENDER)
    {
      var metadata := task.artifacts[i].metadata;
      assert task.artifacts[i..][1..] == task.artifacts[i + 1..];
      if SENDER in metadata && metadata[SENDER].Word? && metadata[SENDER].text != "" {
        return metadata[SENDER].text;
      }
    }
    return "";
  }

  datatype MarkRefusal = InvalidMark(error: MarkError) | NotInYourMailbox

  function Caller(user: string): Context {
    Context(user, None)
  }

  /** The mark a request asks for, with the sender its message names; or why not. */
  function Marking(rows: Rows, user: string, task: string, state: string, detail: string)
    : Result<(Mark, string), MarkRefusal>
  {
    match CleanMark(state, detail)
    case Err(e) => Err(InvalidMark(e))
    case Ok(mark) =>
      match Mine(rows, Caller(user), task)
      case None => Err(NotInYourMailbox)
      case Some(t) => Ok((mark, SenderText(t)))
  }

  function TableAfter(rows: Rows, table: MarkTable, user: string, task: string, state: string, detail: string, now: int)
    : MarkTable
  {
    match Marking(rows, user, task, state, detail)
    case Err(_) => table
    case Ok((mark, sender)) => Put(table, MarkKey(task, user), MarkRow(mark.state, mark.detail, sender, now))
  }

  method SetMarkRoute(store: HubTaskStore, marks: MessageMarks, user: string, task: string, state: string, detail: string,
                      now: int)
    returns (r: Result<Mark, MarkRefusal>)
    modifies marks
    ensures marks.table == TableAfter(store.rows, old(marks.table), user, task, state, detail, now)
    ensures match Marking(store.rows, user, task, state, detail)
            case Err(e) => r == Err(e)
            case Ok((mark, _)) => r == Ok(mark)
    ensures store.rows == old(store.rows)
  {
    var mark := CleanMark(state, detail);
    if mark.Err? {
      return Err(InvalidMark(mark.error));
    }
    var received := store.GetFromMailbox(task, Caller(user));
    if received.None? {
      return Err(NotInYourMailbox);
    }
    var sender := RecordedSender(received.value);
    marks.SetMark(task, user, mark.value, sender, now);
    return Ok(mark.value);
  }

  /** The marks on a message: all of them for who may read it, else those naming the caller as sender. */
  function MarksRead(rows: Rows, table: MarkTable, user: string, task: string): Option<MarkTable> {
    var entries := MarksOn(table, task);
    if MayRead(rows, Caller(user), task).Some? then Some(entries)
    else
      var own := Sorting.Filter(entries, (e: MarkEntry) => e.value.sender == user);
      if own != [] then Some(own) else None
  }

  /** The tasks a caller has closed. */
  function ClosedBy(table: MarkTable, user: string): set<string> {
    var marked := MarkedBy(table, user);
    set t | t in marked && Closed(marked[t])
  }

  /** Marked and not merely parked: the caller's current mark is processed or discarded. */
  lemma ClosedExactly(table: MarkTable, user: string, task: string)
    requires UniqueKeys(table)
    ensures task in ClosedBy(table, user) <==>
              exists row ::
                Lookup(table, MarkKey(task, user)) == Some(row) && (row.state == Processed || row.state == Discarded)
  {
    MarkedByExactly(table, user, task);
    if task in ClosedBy(table, user) {
      var row := Lookup(table, MarkKey(task, user)).value;
      assert Lookup(table, MarkKey(task, user)) == Some(row);
    }
  }

  // The state machine

  datatype State = State(rows: Rows, table: MarkTable)

  datatype Op =
    | Deliver(send: Send)
    | SetMark(user: string, task: string, state: string, detail: string, now: int)

  /** Callers are authenticated sessions; a send starts a task under an id not seen before. */
  ghost predicate Admissible(s: State, op: Op) {
    match op
    case Deliver(send) => Session(send.user) && send.current == None && Lookup(s.rows, send.taskId) == None
    case SetMark(user, _, _, _, _) => Session(user)
  }

  function Delivered(send: Send, agents: set<string>): Stored {
    Stored(Destination(send, Some(agents)), Outcome(send, Some(agents)))
  }

  function Act(s: State, op: Op, agents: set<string>): State {
    match op
    case Deliver(send) => s.(rows := Put(s.rows, send.taskId, Delivered(send, agents)))
    case SetMark(user, task, state, detail, now) => s.(table := TableAfter(s.rows, s.table, user, task, state, detail, now))
  }

  ghost predicate Valid(s: State, ops: seq<Op>, agents: set<string>)
    decreases ops
  {
    ops == [] || (Admissible(s, ops[0]) && Valid(Act(s, ops[0], agents), ops[1..], agents))
  }

  function Run(s: State, ops: seq<Op>, agents: set<string>): State
    decreases ops
  {
    if ops == [] then s else Run(Act(s, ops[0], agents), ops[1..], agents)
  }

  const EMPTY := State([], [])

  /** A stored task is a delivery with its stamp in its recipient's mailbox, or a bare rejection in its sender's. */
  ghost predicate RowFits(e: Entry<string, Stored>, agents: set<string>) {
    var task, owner := e.value.task, e.value.owner;
    && e.key == task.id
    && match task.state
       case Submitted => false
       case Rejected => task.artifacts == [] && Session(owner)
       case Completed =>
         && Readable(owner, agents)
         && exists sender, source :: Session(sender) && task.artifacts == [StampOf(sender, owner, source)]
  }

  /** A mark was written by someone who reads the message's mailbox, and names the message's sender. */
  ghost predicate MarkFits(rows: Rows, e: MarkEntry) {
    match Lookup(rows, e.key.task)
    case None => false
    case Some(stored) =>
      && Session(e.key.identity)
      && stored.owner in MailboxesOf(e.key.identity)
      && e.value.sender == SenderText(stored.task)
  }

  ghost predicate Sound(s: State, agents: set<string>) {
    && UniqueKeys(s.rows) && (forall e | e in s.rows :: RowFits(e, agents))
    && UniqueKeys(s.table) && (forall e | e in s.table :: MarkFits(s.rows, e))
  }

  /** One delivery step for each send, in this order. */
  function StepsFor(sends: seq<Send>): seq<Op> {
    if sends == [] then [] else [Deliver(sends[0])] + StepsFor(sends[1..])
  }

  /** New sends by sessions, under new ids. */
  ghost predicate NewSends(sends: seq<Send>, rows: Rows) {
    && DistinctSends(sends)
    && forall i | 0 <= i < |sends| ::
         Session(sends[i].user) && sends[i].current == None && Lookup(rows, sends[i].taskId) == None
  }

  lemma NewAfterFirst(s: State, sends: seq<Send>, agents: set<string>)
    requires NewSends(sends, s.rows) && sends != []
    ensures NewSends(sends[1..], Act(s, Deliver(sends[0]), agents).rows)
  {
    forall i | 0 <= i < |sends[1..]|
      ensures Lookup(Act(s, Deliver(sends[0]), agents).rows, sends[1..][i].taskId) == None
    {
      LookupPut(s.rows, sends[0].taskId, Delivered(sends[0], agents), sends[i + 1].taskId);
    }
  }

  lemma {:induction false} StepsDeliver(s: State, sends: seq<Send>, agents: set<string>)
    requires NewSends(sends, s.rows)
    ensures Valid(s, StepsFor(sends), agents)
    ensures forall i | 0 <= i < |sends| ::
              Lookup(Run(s, StepsFor(sends), agents).rows, sends[i].taskId) == Some(Delivered(sends[i], agents))
    ensures forall key | Untouched(key, sends) :: Lookup(Run(s, StepsFor(sends), agents).rows, key) == Lookup(s.rows, key)
    decreases sends
  {
    if sends != [] {
      var first, rest := sends[0], sends[1..];
      var next := Act(s, Deliver(first), agents);
      assert ([Deliver(first)] + StepsFor(rest))[1..] == StepsFor(rest);
      NewAfterFirst(s, sends, agents);
      StepsDeliver(next, rest, agents);
      assert Untouched(first.taskId, rest);
      LookupPut(s.rows, first.taskId, Delivered(first, agents), first.taskId);
      forall i | 0 <= i < |sends|
        ensures Lookup(Run(s, StepsFor(sends), agents).rows, sends[i].taskId) == Some(Delivered(sends[i], agents))
      {
        assert i > 0 ==> sends[i] == rest[i - 1];
      }
      forall key | Untouched(key, sends)
        ensures Lookup(Run(s, StepsFor(sends), agents).rows, key) == Lookup(s.rows, key)
      {
        assert key != first.taskId && forall j | 0 <= j < |rest| :: rest[j] == sends[j + 1];
        assert Untouched(key, rest);
        LookupPut(s.rows, first.taskId, Delivered(first, agents), key);
      }
    }
  }

  /**
   Any number of sends, their steps and the saves of their events in any interleaving: once all are
   consumed, every row is what one step of the machine for each send leaves, taken one after the other.
   */
  lemma SendsAreAtomic(sends: seq<Send>, agents: set<string>, s: State, moves: seq<Move>, key: string)
    requires NewSends(sends, s.rows)
    requires Possible(Takeoff(sends, Some(agents), s.rows), moves)
    requires AllLanded(After(Takeoff(sends, Some(agents), s.rows), moves))
    ensures Valid(s, StepsFor(sends), agents)
    ensures Lookup(After(Takeoff(sends, Some(agents), s.rows), moves).rows, key)
              == Lookup(Run(s, StepsFor(sends), agents).rows, key)
  {
    StepsDeliver(s, sends, agents);
    TakeoffIsSteady(sends, Some(agents), s.rows);
    RunKeeps(Takeoff(sends, Some(agents), s.rows), moves, sends, Some(agents), s.rows);
    if i :| 0 <= i < |sends| && sends[i].taskId == key {
      DeliveredUnderEveryInterleaving(sends, Some(agents), s.rows, moves, i);
    } else {
      assert Untouched(key, sends);
    }
  }

  lemma DeliveryFits(send: Send, agents: set<string>)
    requires ProperAgents(agents) && Session(send.user) && send.current == None
    ensures RowFits(Entry(send.taskId, Delivered(send, agents)), agents)
  {
    var known := Some(agents);
    if Judge(send, known).Routed? {
      var r, source := Judge(send, known).recipient, send.message.value.id;
      RoutedIffReadable(send, agents, r);
      assert Outcome(send, known).artifacts == [StampOf(send.user, r, source)];
    }
  }

  lemma DeliverKeeps(s: State, send: Send, agents: set<string>)
    requires ProperAgents(agents) && Sound(s, agents) && Admissible(s, Deliver(send))
    ensures Sound(Act(s, Deliver(send), agents), agents)
  {
    var row := Delivered(send, agents);
    DeliveryFits(send, agents);
    PutKeeps(s.rows, send.taskId, row);
    forall e | e in s.table ensures MarkFits(Put(s.rows, send.taskId, row), e) {
      assert MarkFits(s.rows, e);
      LookupPut(s.rows, send.taskId, row, e.key.task);
    }
  }

  lemma MineIsOwned(rows: Rows, user: string, id: string)
    requires Session(user)
    ensures Mine(rows, Caller(user), id) ==
              match Lookup(rows, id)
              case None => None
              case Some(stored) => if stored.owner in MailboxesOf(user) then Some(stored.task) else None
  {
    SessionReads(user);
    ReadsOwnMailboxes(Caller(user), user);
    ReadsOwnMailboxes(Caller(user), PrincipalOf(user));
  }

  lemma MarkKeeps(s: State, op: Op, agents: set<string>)
    requires Sound(s, agents) && op.SetMark? && Admissible(s, op)
    ensures Sound(Act(s, op, agents), agents)
  {
    var marking := Marking(s.rows, op.user, op.task, op.state, op.detail);
    MineIsOwned(s.rows, op.user, op.task);
    if marking.Ok? {
      var (mark, sender) := marking.value;
      var key, row := MarkKey(op.task, op.user), MarkRow(mark.state, mark.detail, sender, op.now);
      PutKeeps(s.table, key, row);
      assert MarkFits(s.rows, Entry(key, row));
    }
  }

  /** Soundness over every run. */
  lemma {:induction false} RunIsSound(s: State, ops: seq<Op>, agents: set<string>)
    requires ProperAgents(agents) && Sound(s, agents) && Valid(s, ops, agents)
    ensures Sound(Run(s, ops, agents), agents)
    decreases ops
  {
    if ops != [] {
      if ops[0].Deliver? {
        DeliverKeeps(s, ops[0].send, agents);
      } else {
        MarkKeeps(s, ops[0], agents);
      }
      RunIsSound(Act(s, ops[0], agents), ops[1..], agents);
    }
  }

  // What the rows are, whatever was marked

  function DeliveriesIn(ops: seq<Op>, agents: set<string>): Rows {
    if ops == [] then []
    else (if ops[0].Deliver? then [Entry(ops[0].send.taskId, Delivered(ops[0].send, agents))] else [])
         + DeliveriesIn(ops[1..], agents)
  }

  /** The rows are the deliveries in order: nothing is removed or changed, and marking leaves no trace in them. */
  lemma {:induction false} RowsAreDeliveries(s: State, ops: seq<Op>, agents: set<string>)
    requires UniqueKeys(s.rows) && Valid(s, ops, agents)
    ensures Run(s, ops, agents).rows == s.rows + DeliveriesIn(ops, agents)
    ensures UniqueKeys(Run(s, ops, agents).rows)
    decreases ops
  {
    if ops != [] {
      var next := Act(s, ops[0], agents);
      if ops[0].Deliver? {
        var send := ops[0].send;
        LookupIsMembership(s.rows, send.taskId, Delivered(send, agents));
        PutFresh(s.rows, send.taskId, Delivered(send, agents));
        PutKeeps(s.rows, send.taskId, Delivered(send, agents));
      }
      RowsAreDeliveries(next, ops[1..], agents);
    }
  }

  /** No marks change any listing or any get: runs with the same deliveries answer every read alike. */
  lemma MarksHideNothing(one: seq<Op>, other: seq<Op>, agents: set<string>, sdk: Sdk, foreign: Cursors.Foreign,
                         context: Context, token: string, pageSize: nat, id: string)
    requires Valid(EMPTY, one, agents) && Valid(EMPTY, other, agents)
    requires DeliveriesIn(one, agents) == DeliveriesIn(other, agents)
    ensures var r, s := Run(EMPTY, one, agents).rows, Run(EMPTY, other, agents).rows;
            && ListPage(sdk, foreign, r, context, token, pageSize) == ListPage(sdk, foreign, s, context, token, pageSize)
            && Mine(r, context, id) == Mine(s, context, id)
            && MayRead(r, context, id) == MayRead(s, context, id)
  {
    RowsAreDeliveries(EMPTY, one, agents);
    RowsAreDeliveries(EMPTY, other, agents);
  }

  // What every reachable state promises its readers

  lemma SoundIsConsistent(s: State, agents: set<string>)
    requires Sound(s, agents)
    ensures Consistent(s.rows)
  {
    forall e | e in s.rows ensures e.key == e.value.task.id {
      assert RowFits(e, agents);
    }
  }

  /** The sender's own path to marks never answers what "may I read it" would not. */
  lemma FallbackAddsNothing(s: State, agents: set<string>, user: string, task: string)
    requires Sound(s, agents) && Session(user)
    ensures MarksRead(s.rows, s.table, user, task) ==
              if MayRead(s.rows, Caller(user), task).Some? then Some(MarksOn(s.table, task)) else None
  {
    SoundIsConsistent(s, agents);
    MayReadExactly(s.rows, user, task);
    var mine := (e: MarkEntry) => e.value.sender == user;
    var entries := MarksOn(s.table, task);
    if MayRead(s.rows, Caller(user), task).None? && Sorting.Filter(entries, mine) != [] {
      var e := Sorting.Filter(entries, mine)[0];
      Sorting.FilterHolds(entries, mine, e);
      MarksOnExactly(s.table, task, e);
      assert false;
    }
  }

  /** What became of what I sent: exactly the marks on messages stamped with me. */
  lemma SentByExactly(s: State, agents: set<string>, user: string, e: MarkEntry)
    requires Sound(s, agents) && user != ""
    ensures e in MarksOfSender(s.table, user) <==>
              && e in s.table
              && Lookup(s.rows, e.key.task).Some?
              && SenderOf(Lookup(s.rows, e.key.task).value.task) == Some(user)
  {
    MarksOfSenderExactly(s.table, user, e);
    if e in s.table {
      assert MarkFits(s.rows, e);
      StampIsText(Lookup(s.rows, e.key.task).value.task.artifacts);
    }
  }

  lemma {:induction false} StampIsText(artifacts: seq<Artifact>)
    ensures Stamp(artifacts, SENDER) != Some("")
  {
    if artifacts != [] {
      StampIsText(artifacts[1..]);
    }
  }

  /** Only who received a message has ever marked it. */
  lemma OnlyRecipientsMark(s: State, agents: set<string>, e: MarkEntry)
    requires Sound(s, agents) && e in s.table
    ensures Mine(s.rows, Caller(e.key.identity), e.key.task).Some?
  {
    assert MarkFits(s.rows, e);
    MineIsOwned(s.rows, e.key.identity, e.key.task);
  }

  /** A mark takes effect on its own message and marker only; parking a message takes it out of the closed ones. */
  lemma MarkTakesEffect(s: State, op: Op, agents: set<string>, user: string, task: string)
    requires Sound(s, agents) && op.SetMark? && Admissible(s, op)
    ensures var marking := Marking(s.rows, op.user, op.task, op.state, op.detail);
            var after := Act(s, op, agents).table;
            task in ClosedBy(after, user) <==>
              if marking.Ok? && user == op.user && task == op.task then marking.value.0.state in {Processed, Discarded}
              else task in ClosedBy(s.table, user)
  {
    var marking := Marking(s.rows, op.user, op.task, op.state, op.detail);
    MarkKeeps(s, op, agents);
    ClosedExactly(s.table, user, task);
    ClosedExactly(Act(s, op, agents).table, user, task);
    if marking.Ok? {
      var (mark, sender) := marking.value;
      var row := MarkRow(mark.state, mark.detail, sender, op.now);
      LookupPut(s.table, MarkKey(op.task, op.user), row, MarkKey(task, user));
    }
  }

  // What a mark request does, from what it says

  /** The request spells a state and gives a detail long enough, on a message in one of the caller's mailboxes. */
  ghost predicate AsksFor(rows: Rows, user: string, task: string, state: string, detail: string, s: MarkState) {
    && Spells(state, s) && |Strip(detail)| >= 8
    && Lookup(rows, task).Some? && Lookup(rows, task).value.owner in [user, PrincipalOf(user)]
  }

  /** The row an accepted request asks for. */
  function MarkAsked(rows: Rows, task: string, detail: string, now: int, s: MarkState): MarkRow
    requires Lookup(rows, task).Some?
  {
    MarkRow(s, Sorting.Take(Strip(detail), 2000), SenderText(Lookup(rows, task).value.task), now)
  }

  lemma SpellsOne(word: string, s: MarkState, t: MarkState)
    requires Spells(word, s) && Spells(word, t)
    ensures s == t
  {
    StateSpelled(word, s);
    StateSpelled(word, t);
  }

  lemma CleanAsSpelled(state: string, detail: string, s: MarkState)
    requires Spells(state, s)
    ensures CleanMark(state, detail) == if |Strip(detail)| >= 8 then Ok(Mark(s, Sorting.Take(Strip(detail), 2000)))
                                        else Err(DetailTooShort(|Strip(detail)|))
  {
    CleanMarkExactly(state, detail);
  }

  lemma NotSpelled(state: string, detail: string)
    requires forall s :: !Spells(state, s)
    ensures CleanMark(state, detail) == Err(UnknownState(Lower(Strip(state))))
  {
    CleanMarkExactly(state, detail);
  }

  lemma MineOfSession(rows: Rows, user: string, task: string)
    requires Session(user)
    ensures Mine(rows, Caller(user), task) ==
              if Lookup(rows, task).Some? && Lookup(rows, task).value.owner in [user, PrincipalOf(user)]
              then Some(Lookup(rows, task).value.task) else None
  {
    MineIsOwned(rows, user, task);
    SessionReads(user);
    assert MailboxesOf(user) == [user, PrincipalOf(user)];
  }

  /** Which requests are accepted and as what; and of the others, which are invalid and which not the caller's to make. */
  lemma MarkingExactly(rows: Rows, user: string, task: string, state: string, detail: string)
    requires Session(user)
    ensures var marking := Marking(rows, user, task, state, detail);
            && (forall s | AsksFor(rows, user, task, state, detail, s) ::
                  marking == Ok((Mark(s, Sorting.Take(Strip(detail), 2000)), SenderText(Lookup(rows, task).value.task))))
            && (marking.Ok? <==> exists s :: AsksFor(rows, user, task, state, detail, s))
            && (marking == Err(NotInYourMailbox) <==>
                  (exists s :: Spells(state, s)) && |Strip(detail)| >= 8
                  && (Lookup(rows, task).Some? ==> Lookup(rows, task).value.owner !in [user, PrincipalOf(user)]))
  {
    MineOfSession(rows, user, task);
    if s :| Spells(state, s) {
      CleanAsSpelled(state, detail, s);
      forall t | Spells(state, t) ensures t == s {
        SpellsOne(state, s, t);
      }
      assert Marking(rows, user, task, state, detail).Ok? <==> AsksFor(rows, user, task, state, detail, s);
    } else {
      NotSpelled(state, detail);
    }
  }

  /**
   An accepted mark is stored as it was asked for: the state that is spelled, the first 2000 characters
   of the detail between its blanks, the message's sender, and the time. No other row changes, and a
   refused request changes none.
   */
  lemma MarkIsStored(rows: Rows, table: MarkTable, user: string, task: string, state: string, detail: string, now: int,
                     key: MarkKey)
    requires Session(user)
    ensures var after := TableAfter(rows, table, user, task, state, detail, now);
            && (forall s | AsksFor(rows, user, task, state, detail, s) ::
                  Lookup(after, MarkKey(task, user)) == Some(MarkAsked(rows, task, detail, now, s)))
            && (key != MarkKey(task, user) ==> Lookup(after, key) == Lookup(table, key))
            && ((forall s :: !AsksFor(rows, user, task, state, detail, s)) ==> after == table)
  {
    MarkingExactly(rows, user, task, state, detail);
    var marking := Marking(rows, user, task, state, detail);
    if marking.Ok? {
      var (mark, sender) := marking.value;
      LookupPut(table, MarkKey(task, user), MarkRow(mark.state, mark.detail, sender, now), key);
      LookupPut(table, MarkKey(task, user), MarkRow(mark.state, mark.detail, sender, now), MarkKey(task, user));
    }
  }

  /** The one row of this message and marker that a list of marks shows. */
  ghost predicate Shows(marks: MarkTable, key: MarkKey, row: MarkRow) {
    Entry(key, row) in marks && forall e | e in marks && e.key == key :: e.value == row
  }

  lemma RowIsShown(table: MarkTable, key: MarkKey, row: MarkRow)
    requires UniqueKeys(table) && Lookup(table, key) == Some(row)
    ensures Shows(MarksOn(table, key.task), key, row)
    ensures row.sender != "" ==> Shows(MarksOfSender(table, row.sender), key, row)
  {
    LookupIsMembership(table, key, row);
    MarksOnExactly(table, key.task, Entry(key, row));
    forall e | e in MarksOn(table, key.task) && e.key == key ensures e.value == row {
      MarksOnExactly(table, key.task, e);
      LookupIsMembership(table, key, e.value);
    }
    MarksOfSenderExactly(table, row.sender, Entry(key, row));
    forall e | e in MarksOfSender(table, row.sender) && e.key == key ensures e.value == row {
      MarksOfSenderExactly(table, row.sender, e);
      LookupIsMembership(table, key, e.value);
    }
  }

  ghost predicate LeavesAlone(op: Op, user: string, task: string) {
    op.SetMark? ==> op.user != user || op.task != task
  }

  lemma StepLeavesMark(s: State, op: Op, agents: set<string>, user: string, task: string)
    requires Admissible(s, op) && LeavesAlone(op, user, task)
    ensures Lookup(Act(s, op, agents).table, MarkKey(task, user)) == Lookup(s.table, MarkKey(task, user))
  {
    if op.SetMark? {
      MarkIsStored(s.rows, s.table, op.user, op.task, op.state, op.detail, op.now, MarkKey(task, user));
    }
  }

  ghost predicate AllLeaveAlone(ops: seq<Op>, user: string, task: string) {
    forall i | 0 <= i < |ops| :: LeavesAlone(ops[i], user, task)
  }

  lemma {:induction false} MarkStays(s: State, ops: seq<Op>, agents: set<string>, user: string, task: string)
    requires Valid(s, ops, agents) && AllLeaveAlone(ops, user, task)
    ensures Lookup(Run(s, ops, agents).table, MarkKey(task, user)) == Lookup(s.table, MarkKey(task, user))
    decreases ops
  {
    if ops != [] {
      StepLeavesMark(s, ops[0], agents, user, task);
      MarkStays(Act(s, ops[0], agents), ops[1..], agents, user, task);
    }
  }

  /** The row stored for an accepted mark, whatever others do afterwards. */
  lemma MarkIsKept(s: State, op: Op, later: seq<Op>, agents: set<string>, state: MarkState)
    requires Sound(s, agents) && ProperAgents(agents) && op.SetMark? && Valid(s, [op] + later, agents)
    requires AsksFor(s.rows, op.user, op.task, op.state, op.detail, state)
    requires AllLeaveAlone(later, op.user, op.task)
    ensures var end := Run(s, [op] + later, agents);
            && Sound(end, agents)
            && Lookup(end.table, MarkKey(op.task, op.user)) == Some(MarkAsked(s.rows, op.task, op.detail, op.now, state))
  {
    var ops := [op] + later;
    assert ops[0] == op && ops[1..] == later;
    MarkIsStored(s.rows, s.table, op.user, op.task, op.state, op.detail, op.now, MarkKey(op.task, op.user));
    MarkStays(Act(s, op, agents), later, agents, op.user, op.task);
    RunIsSound(s, ops, agents);
  }

  /**
   What the readers get of an accepted mark, whatever others do until they ask: everybody who may read the
   message sees the state that was spelled, the detail, the sender and the time, once; so does its sender
   among the marks on what it sent; and the marker's own list holds that state.
   */
  lemma MarkIsRead(s: State, op: Op, later: seq<Op>, agents: set<string>, state: MarkState, reader: string)
    requires Sound(s, agents) && ProperAgents(agents) && op.SetMark? && Valid(s, [op] + later, agents)
    requires AsksFor(s.rows, op.user, op.task, op.state, op.detail, state)
    requires AllLeaveAlone(later, op.user, op.task)
    ensures var end, row := Run(s, [op] + later, agents), MarkAsked(s.rows, op.task, op.detail, op.now, state);
            var key, read := MarkKey(op.task, op.user), MarksRead(end.rows, end.table, reader, op.task);
            && (MayRead(end.rows, Caller(reader), op.task).Some? ==> read.Some? && Shows(read.value, key, row))
            && (row.sender != "" ==> Shows(MarksOfSender(end.table, row.sender), key, row))
            && op.task in MarkedBy(end.table, op.user) && MarkedBy(end.table, op.user)[op.task] == state
  {
    MarkIsKept(s, op, later, agents, state);
    var end, row := Run(s, [op] + later, agents), MarkAsked(s.rows, op.task, op.detail, op.now, state);
    RowIsShown(end.table, MarkKey(op.task, op.user), row);
    MarkedByExactly(end.table, op.user, op.task);
  }

  /** Acting on a message or dismissing it closes it; a question that waits for a decision opens it again. */
  lemma MarkCloses(s: State, op: Op, agents: set<string>, state: MarkState)
    requires Sound(s, agents) && op.SetMark? && Admissible(s, op)
    requires AsksFor(s.rows, op.user, op.task, op.state, op.detail, state)
    ensures state == Processed || state == Discarded ==> op.task in ClosedBy(Act(s, op, agents).table, op.user)
    ensures state == Awaiting ==> op.task !in ClosedBy(Act(s, op, agents).table, op.user)
  {
    MarkKeeps(s, op, agents);
    MarkIsStored(s.rows, s.table, op.user, op.task, op.state, op.detail, op.now, MarkKey(op.task, op.user));
    ClosedExactly(Act(s, op, agents).table, op.user, op.task);
    assert Lookup(Act(s, op, agents).table, MarkKey(op.task, op.user))
        == Some(MarkAsked(s.rows, op.task, op.detail, op.now, state));
  }

  lemma {:induction false} DeliveryIsIn(ops: seq<Op>, agents: set<string>, send: Send)
    requires Deliver(send) in ops
    ensures Entry(send.taskId, Delivered(send, agents)) in DeliveriesIn(ops, agents)
  {
    if ops[0] != Deliver(send) {
      assert ops == [ops[0]] + ops[1..];
      DeliveryIsIn(ops[1..], agents, send);
    }
  }

  lemma {:induction false} DeliverWasAdmissible(s: State, ops: seq<Op>, agents: set<string>, send: Send)
    requires Valid(s, ops, agents) && Deliver(send) in ops
    ensures Session(send.user) && send.current == None
    decreases ops
  {
    if ops[0] != Deliver(send) {
      assert ops == [ops[0]] + ops[1..];
      DeliverWasAdmissible(Act(s, ops[0], agents), ops[1..], agents, send);
    }
  }

  /** A delivered task's stamp names its sender, its recipient and the message it came from. */
  lemma StampNames(send: Send, agents: set<string>)
    requires Session(send.user) && send.current == None && Judge(send, Some(agents)).Routed?
    ensures var task, r := Outcome(send, Some(agents)), Judge(send, Some(agents)).recipient;
            && SenderOf(task) == Some(send.user)
            && Stamp(task.artifacts, RECIPIENT) == Some(r)
            && (send.message.value.id != "" ==> Stamp(task.artifacts, SOURCE) == Some(send.message.value.id))
  {
    SessionReads(send.user);
    var r := Judge(send, Some(agents)).recipient;
    assert Outcome(send, Some(agents)).artifacts == [StampOf(send.user, r, send.message.value.id)];
  }

  lemma SenderMayRead(rows: Rows, send: Send, agents: set<string>)
    requires Session(send.user) && send.current == None
    requires Lookup(rows, send.taskId) == Some(Delivered(send, agents))
    ensures MayRead(rows, Caller(send.user), send.taskId) == Some(Outcome(send, Some(agents)))
  {
    MineIsOwned(rows, send.user, send.taskId);
    if Judge(send, Some(agents)).Routed? {
      StampNames(send, agents);
    } else {
      SessionReads(send.user);
    }
  }

  /**
   The receipt is good for ever: whatever happened since, the sender of a message reads it back
   under the id the send answered with, and every session of its recipient finds it its own.
   */
  lemma ReceiptIsReadable(ops: seq<Op>, agents: set<string>, send: Send, reader: string)
    requires Valid(EMPTY, ops, agents) && Deliver(send) in ops
    ensures var rows := Run(EMPTY, ops, agents).rows;
            var task := Outcome(send, Some(agents));
            && MayRead(rows, Caller(send.user), send.taskId) == Some(task)
            && (Session(reader) && Destination(send, Some(agents)) in MailboxesOf(reader) ==>
                  Mine(rows, Caller(reader), send.taskId) == Some(task))
  {
    var rows := Run(EMPTY, ops, agents).rows;
    DeliveryIsIn(ops, agents, send);
    DeliverWasAdmissible(EMPTY, ops, agents, send);
    RowsAreDeliveries(EMPTY, ops, agents);
    LookupIsMembership(rows, send.taskId, Delivered(send, agents));
    SenderMayRead(rows, send, agents);
    if Session(reader) {
      MineIsOwned(rows, reader, send.taskId);
    }
  }
}
