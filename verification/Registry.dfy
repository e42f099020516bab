/**
 The agent register (`registry.py`): one row per identity, written on declarations and, at most
 once a minute, on being seen. Times are microseconds; `lastWrite` is the in-memory cache that
 suppresses writes to the table.
 */
module Registry {
  import opened Sorting
  import opened Tables
  import opened Text
  import opened Wrappers

  const SECOND: int := 1000000
  const TOUCH_INTERVAL: int := 60 * SECOND
  const REUSE_WINDOW_SECONDS: int := 900
  const MANAGER_WINDOW_SECONDS: int := 3600
  const MAX_FIELD: nat := 200
  const MANAGER := "manager"

  datatype Declaration = Declaration(role: string, host: string, projects: seq<string>, status: string)

  datatype Row = Row(said: Declaration, declaredAt: Option<int>, lastSeen: Option<int>, retiredAt: Option<int>)
  type Registrations = seq<Entry<string, Row>>

  datatype Register = Register(table: Registrations, lastWrite: map<string, int>)

  const SILENT := Declaration("", "", [], "")
  const EMPTY := Register([], map[])

  function Trim(s: string): string {
    Take(Strip(s), MAX_FIELD)
  }

  /** Whole seconds, cut toward zero. */
  function AgeSeconds(value: Option<int>, now: int): Option<int> {
    if value.None? then None
    else
      var d := now - value.value;
      Some(if d >= 0 then d / SECOND else -(-d / SECOND))
  }

  /** A row seen now; an identity not known before gets one that says nothing. */
  function SeenAt(row: Option<Row>, now: int): Row {
    if row.Some? then row.value.(lastSeen := Some(now)) else Row(SILENT, None, Some(now), None)
  }

  /** A row with a new status and the times that go with saying it. */
  function Restated(row: Row, status: string, now: int): Row {
    row.(said := row.said.(status := Trim(status)), declaredAt := Some(now), lastSeen := Some(now))
  }

  // What each request does to the register

  function Touched(r: Register, identity: string, now: int): Register {
    if identity in r.lastWrite && now - r.lastWrite[identity] < TOUCH_INTERVAL then r
    else
      Register(Put(r.table, identity, SeenAt(Lookup(r.table, identity), now)), r.lastWrite[identity := now])
  }

  function Declared(r: Register, identity: string, said: Declaration, now: int): Register {
    r.(table := Put(r.table, identity, Row(said, Some(now), Some(now), None)))
  }

  predicate Retirable(r: Register, identity: string) {
    match Lookup(r.table, identity) case Some(row) => row.retiredAt == None case None => false
  }

  function Retired(r: Register, identity: string, now: int): Register {
    if Retirable(r, identity) then
      r.(table := Put(r.table, identity, Lookup(r.table, identity).value.(retiredAt := Some(now))))
    else r
  }

  predicate Introduced(r: Register, identity: string) {
    match Lookup(r.table, identity) case Some(row) => row.declaredAt.Some? case None => false
  }

  function Updated(r: Register, identity: string, status: string, now: int): Register {
    if Introduced(r, identity) then
      r.(table := Put(r.table, identity, Restated(Lookup(r.table, identity).value, status, now)))
    else r
  }

  // Warnings

  datatype Warning =
    | SharedSession(age: int, role: string, projects: seq<string>)
    | OtherManager(identity: string, age: int)

  /** What one unretired row gives rise to. */
  function WarningFrom(e: Entry<string, Row>, identity: string, said: Declaration, now: int): seq<Warning> {
    var row := e.value;
    if e.key == identity then
      var age := AgeSeconds(row.declaredAt, now);
      if (row.said.role != said.role || row.said.projects != said.projects) && age.Some? && age.value < REUSE_WINDOW_SECONDS
      then [SharedSession(age.value, row.said.role, row.said.projects)]
      else []
    else if said.role == MANAGER && row.said.role == MANAGER then
      var age := AgeSeconds(row.lastSeen, now);
      if age.Some? && age.value < MANAGER_WINDOW_SECONDS then [OtherManager(e.key, age.value)] else []
    else []
  }

  function Unretired(): Entry<string, Row> -> bool {
    (e: Entry<string, Row>) => e.value.retiredAt == None
  }

  function WarningsFor(rows: Registrations, identity: string, said: Declaration, now: int): seq<Warning> {
    if rows == [] then [] else WarningFrom(rows[0], identity, said, now) + WarningsFor(rows[1..], identity, said, now)
  }

  // The listing

  datatype Agent = Agent(identity: string, said: Declaration, declared: bool, declaredAt: Option<int>, lastSeen: Option<int>,
                         lastSeenSeconds: Option<int>, retiredAt: Option<int>)

  /** Most recently seen first; never seen last. */
  predicate SeenNoEarlier(x: Entry<string, Row>, y: Entry<string, Row>) {
    y.value.lastSeen.None? || (x.value.lastSeen.Some? && x.value.lastSeen.value >= y.value.lastSeen.value)
  }

  function Selected(table: Registrations, includeRetired: bool): Registrations {
    Sort(if includeRetired then table else Filter(table, Unretired()), SeenNoEarlier)
  }

  predicate TooRecent(e: Entry<string, Row>, quietFor: Option<int>, now: int) {
    var age := AgeSeconds(e.value.lastSeen, now);
    quietFor.Some? && age.Some? && age.value < quietFor.value
  }

  function AgentOf(e: Entry<string, Row>, now: int): Agent {
    Agent(e.key, e.value.said, e.value.declaredAt.Some?, e.value.declaredAt, e.value.lastSeen,
          AgeSeconds(e.value.lastSeen, now), e.value.retiredAt)
  }

  function AgentsOf(rows: Registrations, quietFor: Option<int>, now: int): seq<Agent> {
    if rows == [] then []
    else (if TooRecent(rows[0], quietFor, now) then [] else [AgentOf(rows[0], now)]) + AgentsOf(rows[1..], quietFor, now)
  }

  lemma {:induction false} AgentsSnoc(rows: Registrations, e: Entry<string, Row>, quietFor: Option<int>, now: int)
    ensures AgentsOf(rows + [e], quietFor, now) ==
              AgentsOf(rows, quietFor, now) + if TooRecent(e, quietFor, now) then [] else [AgentOf(e, now)]
  {
    if rows == [] {
      assert rows + [e] == [e] && [e][1..] == [];
    } else {
      assert (rows + [e])[1..] == rows[1..] + [e];
      AgentsSnoc(rows[1..], e, quietFor, now);
      Regroup(if TooRecent(rows[0], quietFor, now) then [] else [AgentOf(rows[0], now)], AgentsOf(rows[1..], quietFor, now),
              if TooRecent(e, quietFor, now) then [] else [AgentOf(e, now)]);
    }
  }

  lemma {:induction false} WarningsSnoc(rows: Registrations, e: Entry<string, Row>, identity: string, said: Declaration,
                                        now: int)
    ensures WarningsFor(rows + [e], identity, said, now) ==
              WarningsFor(rows, identity, said, now) + WarningFrom(e, identity, said, now)
  {
    if rows == [] {
      assert rows + [e] == [e] && [e][1..] == [];
    } else {
      assert (rows + [e])[1..] == rows[1..] + [e];
      WarningsSnoc(rows[1..], e, identity, said, now);
      Regroup(WarningFrom(rows[0], identity, said, now), WarningsFor(rows[1..], identity, said, now),
              WarningFrom(e, identity, said, now));
    }
  }

  datatype StatusError = NotRegistered

  class AgentRegistry {
    var table: Registrations
    var lastWrite: map<string, int>

    function State(): Register
      reads this
    {
      Register(table, lastWrite)
    }

    constructor ()
      ensures State() == EMPTY
    {
      table := [];
      lastWrite := map[];
    }

    method Touch(identity: string, now: int)
      modifies this
      ensures State() == Touched(old(State()), identity, now)
    {
      if identity in lastWrite && now - lastWrite[identity] < TOUCH_INTERVAL {
        return;
      }
      var row := Lookup(table, identity);
      table := Put(table, identity,
                   if row.Some? then row.value.(lastSeen := Some(now)) else Row(SILENT, None, Some(now), None));
      lastWrite := lastWrite[identity := now];
    }

    /** Stores what an identity says it is; the warnings are about the register as it was. */
    method Declare(identity: string, said: Declaration, now: int) returns (warnings: seq<Warning>)
      modifies this
      ensures State() == Declared(old(State()), identity, said, now)
      ensures warnings == WarningsFor(Filter(old(table), Unretired()), identity, said, now)
    {
      warnings := Warn(identity, said, now);
      table := Put(table, identity, Row(said, Some(now), Some(now), None));
    }

    method Warn(identity: string, said: Declaration, now: int) returns (warnings: seq<Warning>)
      ensures warnings == WarningsFor(Filter(table, Unretired()), identity, said, now)
    {
      warnings := [];
      var rows := Filter(table, Unretired());
      for i := 0 to |rows|
        invariant warnings == WarningsFor(rows[..i], identity, said, now)
      {
        assert rows[..i + 1] == rows[..i] + [rows[i]];
        WarningsSnoc(rows[..i], rows[i], identity, said, now);
        var row := rows[i].value;
        if rows[i].key == identity {
          var age := AgeSeconds(row.declaredAt, now);
          var changed := row.said.role != said.role || row.said.projects != said.projects;
          if changed && age.Some? && age.value < REUSE_WINDOW_SECONDS {
            warnings := warnings + [SharedSession(age.value, row.said.role, row.said.projects)];
          }
          continue;
        }
        if said.role == MANAGER && row.said.role == MANAGER {
          var age := AgeSeconds(row.lastSeen, now);
          if age.Some? && age.value < MANAGER_WINDOW_SECONDS {
            warnings := warnings + [OtherManager(rows[i].key, age.value)];
          }
        }
      }
      assert rows[..|rows|] == rows;
    }

    method Retire(identity: string, now: int) returns (withdrawn: bool)
      modifies this
      ensures State() == Retired(old(State()), identity, now)
      ensures withdrawn == Retirable(old(State()), identity)
    {
      var row := Lookup(table, identity);
      withdrawn := row.Some? && row.value.retiredAt.None?;
      if withdrawn {
        table := Put(table, identity, row.value.(retiredAt := Some(now)));
      }
    }

    method UpdateStatus(identity: string, status: string, now: int) returns (r: Result<string, StatusError>)
      modifies this
      ensures State() == Updated(old(State()), identity, status, now)
      ensures r == if Introduced(old(State()), identity) then Ok(Trim(status)) else Err(NotRegistered)
    {
      var text, row := Trim(status), Lookup(table, identity);
      if row.None? || row.value.declaredAt.None? {
        return Err(NotRegistered);
      }
      table := Put(table, identity,
                   row.value.(said := row.value.said.(status := text), declaredAt := Some(now), lastSeen := Some(now)));
      return Ok(text);
    }

    method ListAgents(includeRetired: bool, quietFor: Option<int>, now: int) returns (agents: seq<Agent>)
      ensures agents == AgentsOf(Selected(table, includeRetired), quietFor, now)
    {
      var rows := Selected(table, includeRetired);
      agents := [];
      for i := 0 to |rows|
        invariant agents == AgentsOf(rows[..i], quietFor, now)
      {
        assert rows[..i + 1] == rows[..i] + [rows[i]];
        AgentsSnoc(rows[..i], rows[i], quietFor, now);
        var age := AgeSeconds(rows[i].value.lastSeen, now);
        if quietFor.Some? && age.Some? && age.value < quietFor.value {
          continue;
        }
        agents := agents + [AgentOf(rows[i], now)];
      }
      assert rows[..|rows|] == rows;
    }
  }

  // Histories

  datatype Request =
    | Touch(identity: string)
    | Declare(identity: string, said: Declaration)
    | Retire(identity: string)
    | UpdateStatus(identity: string, status: string)
    | Restart

  datatype Call = Call(at: int, request: Request)

  function Answer(r: Register, call: Call): Register {
    match call.request
    case Touch(i) => Touched(r, i, call.at)
    case Declare(i, said) => Declared(r, i, said, call.at)
    case Retire(i) => Retired(r, i, call.at)
    case UpdateStatus(i, status) => Updated(r, i, status, call.at)
    case Restart => r.(lastWrite := map[])
  }

  function RegisterAfter(history: seq<Call>): Register {
    if history == [] then EMPTY else Answer(RegisterAfter(history[..|history| - 1]), history[|history| - 1])
  }

  ghost predicate Ordered(history: seq<Call>) {
    forall j, k | 0 <= j < k < |history| :: history[j].at <= history[k].at
  }

  /** The request is the identity's own declaration, or a status update that is accepted because it spoke before. */
  predicate Speaks(request: Request, i: string, before: Option<int>) {
    (request.Declare? && request.identity == i) || (request.UpdateStatus? && request.identity == i && before.Some?)
  }

  /** What an identity last said, over all declarations and accepted status updates. */
  function LastSaid(history: seq<Call>, i: string): Declaration {
    if history == [] then Declaration("", "", [], "")
    else
      var before, last := history[..|history| - 1], history[|history| - 1].request;
      if !Speaks(last, i, SaidAt(before, i)) then LastSaid(before, i)
      else if last.Declare? then last.said
      else LastSaid(before, i).(status := Take(Strip(last.status), 200))
  }

  /** When it last said it. */
  function SaidAt(history: seq<Call>, i: string): Option<int> {
    if history == [] then None
    else
      var before, call := history[..|history| - 1], history[|history| - 1];
      if Speaks(call.request, i, SaidAt(before, i)) then Some(call.at) else SaidAt(before, i)
  }

  /** When it was last heard from: a request of its own, a declaration or an accepted update. */
  function HeardAt(history: seq<Call>, i: string): Option<int> {
    if history == [] then None
    else
      var before, call := history[..|history| - 1], history[|history| - 1];
      if (call.request.Touch? && call.request.identity == i) || Speaks(call.request, i, SaidAt(before, i)) then Some(call.at)
      else HeardAt(before, i)
  }

  /** The first retirement that took effect since its latest declaration, if any. */
  function WithdrawnAt(history: seq<Call>, i: string): Option<int> {
    if history == [] then None
    else
      var before, call := history[..|history| - 1], history[|history| - 1];
      if call.request == Retire(i) && HeardAt(before, i).Some? && WithdrawnAt(before, i).None? then Some(call.at)
      else if call.request.Declare? && call.request.identity == i then None
      else WithdrawnAt(before, i)
  }

  /** Its latest declaration or effective retirement is a retirement. */
  predicate Withdrawn(history: seq<Call>, i: string) {
    WithdrawnAt(history, i).Some?
  }

  /** The row an identity must have, its last-seen aside. */
  ghost predicate RowIsFold(r: Register, history: seq<Call>, i: string) {
    match Lookup(r.table, i)
    case None =>
      && HeardAt(history, i) == None && SaidAt(history, i) == None && LastSaid(history, i) == SILENT
      && !Withdrawn(history, i) && i !in r.lastWrite
    case Some(row) =>
      && row.said == LastSaid(history, i)
      && row.declaredAt == SaidAt(history, i)
      && row.retiredAt == WithdrawnAt(history, i)
      && HeardAt(history, i).Some?
  }

  /** The stored last-seen trails what was heard by less than a minute, and the cache trails the table. */
  ghost predicate Present(r: Register, history: seq<Call>, i: string) {
    match Lookup(r.table, i)
    case None => i !in r.lastWrite
    case Some(row) =>
      && row.lastSeen.Some? && HeardAt(history, i).Some?
      && row.lastSeen.value <= HeardAt(history, i).value < row.lastSeen.value + 60000000
      && (i in r.lastWrite ==> r.lastWrite[i] <= row.lastSeen.value)
  }

  lemma {:induction false} FoldOfHistory(history: seq<Call>, i: string)
    ensures RowIsFold(RegisterAfter(history), history, i)
  {
    if history != [] {
      var before, call := history[..|history| - 1], history[|history| - 1];
      FoldOfHistory(before, i);
      FoldStep(RegisterAfter(before), before, call, i);
      assert history == before + [call];
    }
  }

  /** A row after a request, from the row before: only its own identity's requests change it. */
  lemma RowAfter(r: Register, call: Call, i: string)
    ensures var row, next := Lookup(r.table, i), Lookup(Answer(r, call).table, i);
            match call.request
            case Touch(k) =>
              next == if k != i || (i in r.lastWrite && call.at - r.lastWrite[i] < TOUCH_INTERVAL) then row
                      else Some(SeenAt(row, call.at))
            case Declare(k, said) => next == if k != i then row else Some(Row(said, Some(call.at), Some(call.at), None))
            case Retire(k) =>
              next == if k == i && row.Some? && row.value.retiredAt.None?
                      then Some(row.value.(retiredAt := Some(call.at))) else row
            case UpdateStatus(k, status) =>
              next == if k == i && row.Some? && row.value.declaredAt.Some?
                      then Some(Restated(row.value, status, call.at)) else row
            case Restart => next == row
  {
    match call.request
    case Touch(k) =>
      LookupPut(r.table, k, SeenAt(Lookup(r.table, k), call.at), i);
    case Declare(k, said) =>
      LookupPut(r.table, k, Row(said, Some(call.at), Some(call.at), None), i);
    case Retire(k) =>
      if Retirable(r, k) {
        LookupPut(r.table, k, Lookup(r.table, k).value.(retiredAt := Some(call.at)), i);
      }
    case UpdateStatus(k, status) =>
      if Introduced(r, k) {
        LookupPut(r.table, k, Restated(Lookup(r.table, k).value, status, call.at), i);
      }
    case Restart =>
  }

  lemma FoldStep(r: Register, before: seq<Call>, call: Call, i: string)
    requires RowIsFold(r, before, i)
    ensures RowIsFold(Answer(r, call), before + [call], i)
  {
    var history := before + [call];
    assert history[..|history| - 1] == before;
    RowAfter(r, call, i);
  }

  // Presence

  lemma {:induction false} HeardBefore(history: seq<Call>, i: string, now: int)
    requires Ordered(history) && forall k | 0 <= k < |history| :: history[k].at <= now
    ensures HeardAt(history, i).Some? ==> HeardAt(history, i).value <= now
  {
    if history != [] {
      HeardBefore(history[..|history| - 1], i, now);
    }
  }

  lemma PresenceStep(r: Register, before: seq<Call>, call: Call, i: string)
    requires RowIsFold(r, before, i) && Present(r, before, i)
    requires Ordered(before) && forall k | 0 <= k < |before| :: before[k].at <= call.at
    ensures Present(Answer(r, call), before + [call], i)
  {
    var history := before + [call];
    assert history[..|history| - 1] == before;
    RowAfter(r, call, i);
    HeardBefore(before, i, call.at);
  }

  /** The point of the cache: no request within the minute of the last write changes the register; the next one does. */
  lemma TouchIsDebounced(r: Register, i: string, now: int, later: int)
    requires i in r.lastWrite ==> r.lastWrite[i] <= now
    ensures var once := Touched(r, i, now);
            && i in once.lastWrite
            && once.lastWrite[i] <= now < once.lastWrite[i] + 60000000
            && (later < once.lastWrite[i] + 60000000 ==> Touched(once, i, later) == once)
            && (later >= once.lastWrite[i] + 60000000 ==>
                  && Touched(once, i, later).lastWrite == once.lastWrite[i := later]
                  && Lookup(Touched(once, i, later).table, i).Some?
                  && Lookup(Touched(once, i, later).table, i).value.lastSeen == Some(later))
  {
    var once := Touched(r, i, now);
    LookupPut(once.table, i, SeenAt(Lookup(once.table, i), later), i);
  }

  /** The presence bound, for every history on a clock that does not go back, restarts included. */
  lemma {:induction false} PresenceBound(history: seq<Call>, i: string)
    requires Ordered(history)
    ensures Present(RegisterAfter(history), history, i)
  {
    if history != [] {
      var before, call := history[..|history| - 1], history[|history| - 1];
      PresenceBound(before, i);
      FoldOfHistory(before, i);
      PresenceStep(RegisterAfter(before), before, call, i);
      assert history == before + [call];
    }
  }

  /** A stored last-seen never goes back. */
  lemma LastSeenAdvances(history: seq<Call>, call: Call, i: string)
    requires Ordered(history + [call])
    ensures var row, next := Lookup(RegisterAfter(history).table, i), Lookup(RegisterAfter(history + [call]).table, i);
            row.Some? ==> next.Some? && row.value.lastSeen.Some? && next.value.lastSeen.Some?
                          && row.value.lastSeen.value <= next.value.lastSeen.value
  {
    var whole := history + [call];
    assert whole[..|whole| - 1] == history;
    forall j, k | 0 <= j < k < |history| ensures history[j].at <= history[k].at {
      assert whole[j].at <= whole[k].at;
    }
    forall k | 0 <= k < |history| ensures history[k].at <= call.at {
      assert whole[k].at <= whole[|history|].at;
    }
    PresenceBound(history, i);
    HeardBefore(history, i, call.at);
    RowAfter(RegisterAfter(history), call, i);
  }

  // Who is listed

  ghost predicate ListsIdentity(agents: seq<Agent>, i: string) {
    exists a | a in agents :: a.identity == i
  }

  lemma {:induction false} AgentsHold(rows: Registrations, quietFor: Option<int>, now: int, a: Agent)
    ensures a in AgentsOf(rows, quietFor, now) <==>
              exists e :: e in rows && a == AgentOf(e, now) && !TooRecent(e, quietFor, now)
  {
    if rows != [] {
      AgentsHold(rows[1..], quietFor, now, a);
      assert rows == [rows[0]] + rows[1..];
    }
  }

  ghost predicate AgentNoEarlier(x: Agent, y: Agent) {
    y.lastSeen.None? || (x.lastSeen.Some? && x.lastSeen.value >= y.lastSeen.value)
  }

  /** The listing keeps the order of the rows it was made from. */
  lemma {:induction false} ListedInOrder(rows: Registrations, quietFor: Option<int>, now: int)
    requires Sorted(rows, SeenNoEarlier)
    ensures forall j, k | 0 <= j < k < |AgentsOf(rows, quietFor, now)| ::
              AgentNoEarlier(AgentsOf(rows, quietFor, now)[j], AgentsOf(rows, quietFor, now)[k])
  {
    if rows != [] {
      var rest := AgentsOf(rows[1..], quietFor, now);
      ListedInOrder(rows[1..], quietFor, now);
      forall k | 0 <= k < |rest| ensures AgentNoEarlier(AgentOf(rows[0], now), rest[k]) {
        AgentsHold(rows[1..], quietFor, now, rest[k]);
        var e :| e in rows[1..] && rest[k] == AgentOf(e, now);
        var m :| 0 <= m < |rows[1..]| && rows[1..][m] == e;
        assert SeenNoEarlier(rows[0], rows[m + 1]);
      }
    }
  }

  lemma SelectedHolds(table: Registrations, e: Entry<string, Row>)
    ensures e in Selected(table, true) <==> e in table
    ensures e in Selected(table, false) <==> e in table && e.value.retiredAt.None?
  {
    SortHolds(table, e);
    SortHolds(Filter(table, Unretired()), e);
    FilterHolds(table, Unretired(), e);
  }

  lemma SortHolds(rows: Registrations, e: Entry<string, Row>)
    ensures e in Sort(rows, SeenNoEarlier) <==> e in rows
    ensures Sorted(Sort(rows, SeenNoEarlier), SeenNoEarlier)
  {
    SortKeeps(rows, SeenNoEarlier);
    assert e in Sort(rows, SeenNoEarlier) <==> e in multiset(Sort(rows, SeenNoEarlier));
  }

  lemma {:induction false} KeysAreUnique(history: seq<Call>)
    ensures UniqueKeys(RegisterAfter(history).table)
  {
    if history != [] {
      var before, call := history[..|history| - 1], history[|history| - 1];
      var r := RegisterAfter(before);
      KeysAreUnique(before);
      if !call.request.Restart? {
        var next := Lookup(Answer(r, call).table, call.request.identity);
        RowAfter(r, call, call.request.identity);
        if next.Some? {
          PutKeeps(r.table, call.request.identity, next.value);
        }
      }
    }
  }

  /** A number of seconds, cut toward zero, is below a bound. */
  lemma AgeBelow(value: int, now: int, bound: int)
    ensures AgeSeconds(Some(value), now).Some?
    ensures AgeSeconds(Some(value), now).value < bound <==>
              now - value < (if bound >= 1 then bound * 1000000 else (bound - 1) * 1000000 + 1)
  {
    var d := now - value;
    if d >= 0 {
      Whole(d, bound);
    } else {
      Whole(-d, -bound + 1);
    }
  }

  lemma Whole(d: int, bound: int)
    requires d >= 0
    ensures d / SECOND < bound <==> d < bound * 1000000
  {
    var n := d / SECOND;
    assert n * 1000000 <= d < (n + 1) * 1000000;
    if n < bound {
      assert (n + 1) * 1000000 <= bound * 1000000;
    } else {
      assert bound * 1000000 <= n * 1000000;
    }
  }

  /** Asked for nobody in particular, or not seen for that many whole seconds, or never. */
  predicate QuietEnough(lastSeen: Option<int>, quietFor: Option<int>, now: int) {
    match (quietFor, lastSeen)
    case (Some(q), Some(t)) => now - t >= if q >= 1 then q * 1000000 else (q - 1) * 1000000 + 1
    case _ => true
  }

  lemma QuietExactly(e: Entry<string, Row>, quietFor: Option<int>, now: int)
    ensures TooRecent(e, quietFor, now) <==> !QuietEnough(e.value.lastSeen, quietFor, now)
  {
    if quietFor.Some? && e.value.lastSeen.Some? {
      AgeBelow(e.value.lastSeen.value, now, quietFor.value);
    }
  }

  /** An agent is listed from its own row. */
  lemma ListedFromRow(history: seq<Call>, includeRetired: bool, quietFor: Option<int>, now: int, a: Agent)
    ensures var r := RegisterAfter(history);
            var row := Lookup(r.table, a.identity);
            a in AgentsOf(Selected(r.table, includeRetired), quietFor, now) <==>
              && row.Some? && a == AgentOf(Entry(a.identity, row.value), now)
              && (includeRetired || row.value.retiredAt.None?)
              && !TooRecent(Entry(a.identity, row.value), quietFor, now)
  {
    var r := RegisterAfter(history);
    var rows, row := Selected(r.table, includeRetired), Lookup(r.table, a.identity);
    KeysAreUnique(history);
    AgentsHold(rows, quietFor, now, a);
    if row.Some? {
      LookupIsMembership(r.table, a.identity, row.value);
      SelectedHolds(r.table, Entry(a.identity, row.value));
    }
    forall e | e in rows && e.key == a.identity ensures row == Some(e.value) {
      SelectedHolds(r.table, e);
      LookupIsMembership(r.table, a.identity, e.value);
    }
  }

  /** The listing in terms of the history: who was heard, not withdrawn unless asked for, and not heard too recently. */
  lemma ListedExactly(history: seq<Call>, includeRetired: bool, quietFor: Option<int>, now: int, i: string)
    ensures var r := RegisterAfter(history);
            var row := Lookup(r.table, i);
            && (ListsIdentity(AgentsOf(Selected(r.table, includeRetired), quietFor, now), i) <==>
                  row.Some? && (includeRetired || !Withdrawn(history, i)) && QuietEnough(row.value.lastSeen, quietFor, now))
            && (row.Some? <==> HeardAt(history, i).Some?)
  {
    var r := RegisterAfter(history);
    var agents, row := AgentsOf(Selected(r.table, includeRetired), quietFor, now), Lookup(r.table, i);
    FoldOfHistory(history, i);
    if row.Some? {
      ListedFromRow(history, includeRetired, quietFor, now, AgentOf(Entry(i, row.value), now));
      QuietExactly(Entry(i, row.value), quietFor, now);
    }
    if a :| a in agents && a.identity == i {
      ListedFromRow(history, includeRetired, quietFor, now, a);
    }
  }

  /** What a listed agent is said to be is what it last said, and it counts as declared if and only if it ever spoke. */
  lemma ListedAsSaid(history: seq<Call>, includeRetired: bool, quietFor: Option<int>, now: int, a: Agent)
    requires a in AgentsOf(Selected(RegisterAfter(history).table, includeRetired), quietFor, now)
    ensures a.said == LastSaid(history, a.identity)
    ensures a.declaredAt == SaidAt(history, a.identity)
    ensures a.declared <==> exists c | c in history :: c.request.Declare? && c.request.identity == a.identity
    ensures a.retiredAt == WithdrawnAt(history, a.identity)
  {
    ListedFromRow(history, includeRetired, quietFor, now, a);
    FoldOfHistory(history, a.identity);
    SaidOnceDeclared(history, a.identity);
  }

  /** These are the whole seconds from `from` to `to`. */
  predicate WholeSeconds(from: int, to: int, n: int) {
    n * 1000000 <= to - from < (n + 1) * 1000000
  }

  lemma AgeIsWhole(value: int, now: int)
    requires value <= now
    ensures AgeSeconds(Some(value), now).Some? && WholeSeconds(value, now, AgeSeconds(Some(value), now).value)
  {
  }

  /** The identity was heard at that time. */
  ghost predicate WasHeard(history: seq<Call>, i: string, t: int) {
    exists c | c in history :: c.at == t && !c.request.Restart? && c.request.identity == i
  }

  /** A stored last-seen is a time at which the identity was heard. */
  lemma {:induction false} SeenWasHeard(history: seq<Call>, i: string)
    ensures var row := Lookup(RegisterAfter(history).table, i);
            row.Some? && row.value.lastSeen.Some? ==> WasHeard(history, i, row.value.lastSeen.value)
  {
    if history != [] {
      var before, call := history[..|history| - 1], history[|history| - 1];
      SeenWasHeard(before, i);
      RowAfter(RegisterAfter(before), call, i);
      assert history == before + [call] && call in history;
      var row := Lookup(RegisterAfter(before).table, i);
      if row.Some? && row.value.lastSeen.Some? {
        var c :| c in before && c.at == row.value.lastSeen.value && !c.request.Restart? && c.request.identity == i;
        assert c in history;
      }
    }
  }

  /**
   When a listed agent was last seen, for every history on a clock that does not go back: at a time it was
   heard, less than a minute before it was last heard; its age is the whole seconds from then to now.
   */
  lemma ListedAsSeen(history: seq<Call>, includeRetired: bool, quietFor: Option<int>, now: int, a: Agent)
    requires Ordered(history) && forall k | 0 <= k < |history| :: history[k].at <= now
    requires a in AgentsOf(Selected(RegisterAfter(history).table, includeRetired), quietFor, now)
    ensures a.lastSeen.Some? && HeardAt(history, a.identity).Some? && a.lastSeenSeconds.Some?
    ensures var t, heard := a.lastSeen.value, HeardAt(history, a.identity).value;
            && WasHeard(history, a.identity, t)
            && t <= heard < t + 60000000
            && WholeSeconds(t, now, a.lastSeenSeconds.value)
  {
    ListedFromRow(history, includeRetired, quietFor, now, a);
    PresenceBound(history, a.identity);
    HeardBefore(history, a.identity, now);
    SeenWasHeard(history, a.identity);
    AgeIsWhole(a.lastSeen.value, now);
  }

  /** What `HeardAt` says: the time of the last request that was heard of it. */
  ghost predicate Heard(history: seq<Call>, k: nat, i: string) {
    k < |history|
    && (|| history[k].request == Touch(i)
        || (history[k].request.Declare? && history[k].request.identity == i)
        || (history[k].request.UpdateStatus? && history[k].request.identity == i
            && exists j | 0 <= j < k :: history[j].request.Declare? && history[j].request.identity == i))
  }

  lemma HeardEarlier(before: seq<Call>, call: Call, k: nat, i: string)
    requires k < |before|
    ensures Heard(before, k, i) <==> Heard(before + [call], k, i)
  {
    var history := before + [call];
    assert forall j | 0 <= j < |before| :: history[j] == before[j];
  }

  lemma {:induction false} HeardExactly(history: seq<Call>, i: string)
    ensures HeardAt(history, i) == None <==> forall k: nat :: !Heard(history, k, i)
    ensures forall k: nat | Heard(history, k, i) && (forall m: nat | k < m :: !Heard(history, m, i)) ::
              HeardAt(history, i) == Some(history[k].at)
  {
    if history != [] {
      var before, call := history[..|history| - 1], history[|history| - 1];
      var last := |history| - 1;
      HeardExactly(before, i);
      SaidOnceDeclared(before, i);
      assert history == before + [call];
      forall k: nat | k < last ensures Heard(before, k, i) <==> Heard(history, k, i) {
        HeardEarlier(before, call, k, i);
      }
      HeardLast(before, call, i);
    }
  }

  lemma HeardLast(before: seq<Call>, call: Call, i: string)
    ensures Heard(before + [call], |before|, i) <==>
              (call.request.Touch? && call.request.identity == i) || Speaks(call.request, i, SaidAt(before, i))
  {
    var history := before + [call];
    SaidOnceDeclared(before, i);
    if c :| c in before && c.request.Declare? && c.request.identity == i {
      var j :| 0 <= j < |before| && before[j] == c;
      assert history[j].request.Declare? && history[j].request.identity == i;
    }
    if Heard(history, |before|, i) && call.request.UpdateStatus? {
      var j :| 0 <= j < |before| && history[j].request.Declare? && history[j].request.identity == i;
      assert before[j] in before;
    }
  }

  /** The call that withdrew an identity: a retirement of its own once it was heard, and no declaration since. */
  ghost predicate Withdrew(history: seq<Call>, k: nat, i: string) {
    && k < |history| && history[k].request == Retire(i) && HeardAt(history[..k], i).Some?
    && !Withdrawn(history[..k], i)
    && forall j | k < j < |history| :: !(history[j].request.Declare? && history[j].request.identity == i)
  }

  lemma {:induction false} WithdrewSince(history: seq<Call>, k: nat, i: string)
    requires Withdrew(history, k, i)
    ensures WithdrawnAt(history, i) == Some(history[k].at)
    decreases |history|
  {
    var before := history[..|history| - 1];
    if k < |history| - 1 {
      assert before[..k] == history[..k] && forall j | 0 <= j < |before| :: history[j] == before[j];
      WithdrewSince(before, k, i);
    } else {
      assert history[..k] == before;
    }
  }

  lemma WithdrewLater(before: seq<Call>, call: Call, k: nat, i: string)
    requires Withdrew(before, k, i) && !(call.request.Declare? && call.request.identity == i)
    ensures Withdrew(before + [call], k, i)
  {
    var history := before + [call];
    assert history[..k] == before[..k] && forall j | 0 <= j < |before| :: history[j] == before[j];
  }

  lemma {:induction false} WithdrawnByCall(history: seq<Call>, i: string) returns (k: nat)
    requires Withdrawn(history, i)
    ensures Withdrew(history, k, i) && WithdrawnAt(history, i) == Some(history[k].at)
  {
    var before, call := history[..|history| - 1], history[|history| - 1];
    assert history == before + [call];
    if Withdrawn(before, i) {
      k := WithdrawnByCall(before, i);
      WithdrewLater(before, call, k, i);
    } else {
      k := |before|;
      assert history[..k] == before;
    }
  }

  /** The time of a withdrawal is that of the retirement in force. */
  lemma WithdrawnExactly(history: seq<Call>, i: string, t: int)
    ensures WithdrawnAt(history, i) == Some(t) <==> exists k: nat :: Withdrew(history, k, i) && history[k].at == t
  {
    if k: nat :| Withdrew(history, k, i) && history[k].at == t {
      WithdrewSince(history, k, i);
    }
    if WithdrawnAt(history, i) == Some(t) {
      var k := WithdrawnByCall(history, i);
    }
  }

  /** No identity is listed twice. */
  lemma ListedOnce(history: seq<Call>, includeRetired: bool, quietFor: Option<int>, now: int)
    ensures var agents := AgentsOf(Selected(RegisterAfter(history).table, includeRetired), quietFor, now);
            forall j, k | 0 <= j < k < |agents| :: agents[j].identity != agents[k].identity
  {
    var table := RegisterAfter(history).table;
    KeysAreUnique(history);
    KeptKeysAreUnique(table, Unretired());
    SortedKeysAreUnique(if includeRetired then table else Filter(table, Unretired()));
    AgentsKeepKeys(Selected(table, includeRetired), quietFor, now);
  }

  lemma {:induction false} KeptKeysAreUnique(rows: Registrations, keep: Entry<string, Row> -> bool)
    requires UniqueKeys(rows)
    ensures UniqueKeys(Filter(rows, keep))
  {
    if rows != [] {
      var rest := Filter(rows[1..], keep);
      KeptKeysAreUnique(rows[1..], keep);
      forall j | 0 <= j < |rest| ensures rest[j].key != rows[0].key {
        FilterHolds(rows[1..], keep, rest[j]);
        var m :| 0 <= m < |rows[1..]| && rows[1..][m] == rest[j];
        assert rows[0].key != rows[m + 1].key;
      }
    }
  }

  lemma {:induction false} InsertKeepsKeys(e: Entry<string, Row>, rows: Registrations)
    requires UniqueKeys(rows) && forall x | x in rows :: x.key != e.key
    ensures UniqueKeys(Insert(e, rows, SeenNoEarlier))
  {
    if rows != [] && !SeenNoEarlier(e, rows[0]) {
      InsertKeepsKeys(e, rows[1..]);
      var rest := Insert(e, rows[1..], SeenNoEarlier);
      forall j | 0 <= j < |rest| ensures rest[j].key != rows[0].key {
        InsertHolds(e, rows[1..], SeenNoEarlier, rest[j]);
        if rest[j] != e {
          var m :| 0 <= m < |rows[1..]| && rows[1..][m] == rest[j];
          assert rows[0].key != rows[m + 1].key;
        }
      }
    }
  }

  lemma {:induction false} SortedKeysAreUnique(rows: Registrations)
    requires UniqueKeys(rows)
    ensures UniqueKeys(Sort(rows, SeenNoEarlier))
  {
    if rows != [] {
      SortedKeysAreUnique(rows[1..]);
      forall x | x in Sort(rows[1..], SeenNoEarlier) ensures x.key != rows[0].key {
        SortHolds(rows[1..], x);
        var m :| 0 <= m < |rows[1..]| && rows[1..][m] == x;
        assert rows[0].key != rows[m + 1].key;
      }
      InsertKeepsKeys(rows[0], Sort(rows[1..], SeenNoEarlier));
    }
  }

  lemma {:induction false} AgentsKeepKeys(rows: Registrations, quietFor: Option<int>, now: int)
    requires UniqueKeys(rows)
    ensures var agents := AgentsOf(rows, quietFor, now);
            forall j, k | 0 <= j < k < |agents| :: agents[j].identity != agents[k].identity
  {
    if rows != [] {
      var rest := AgentsOf(rows[1..], quietFor, now);
      AgentsKeepKeys(rows[1..], quietFor, now);
      forall k | 0 <= k < |rest| ensures rest[k].identity != rows[0].key {
        AgentsHold(rows[1..], quietFor, now, rest[k]);
        var e :| e in rows[1..] && rest[k] == AgentOf(e, now) && !TooRecent(e, quietFor, now);
        var m :| 0 <= m < |rows[1..]| && rows[1..][m] == e;
        assert rows[0].key != rows[m + 1].key;
      }
    }
  }

  lemma {:induction false} SaidOnceDeclared(history: seq<Call>, i: string)
    ensures SaidAt(history, i).Some? <==> exists c | c in history :: c.request.Declare? && c.request.identity == i
  {
    if history != [] {
      var before, last := history[..|history| - 1], history[|history| - 1];
      assert history == before + [last];
      SaidOnceDeclared(before, i);
      assert last in history;
    }
  }

  /** Asked who has been quiet for `q` seconds: everyone silent that long, and nobody heard within `q - 60`. */
  lemma QuietListing(history: seq<Call>, q: int, now: int, i: string)
    requires Ordered(history) && forall k | 0 <= k < |history| :: history[k].at <= now
    requires HeardAt(history, i).Some? && !Withdrawn(history, i)
    ensures var listed := ListsIdentity(AgentsOf(Selected(RegisterAfter(history).table, false), Some(q), now), i);
            && (now - HeardAt(history, i).value >= q * 1000000 ==> listed)
            && (now - HeardAt(history, i).value < q * 1000000 - 60000000 ==> !listed)
  {
    ListedExactly(history, false, Some(q), now, i);
    PresenceBound(history, i);
    HeardBefore(history, i, now);
  }

  // Retirement

  lemma {:induction false} StaysWithdrawn(history: seq<Call>, mid: seq<Call>, i: string)
    requires Withdrawn(history, i)
    requires forall c | c in mid :: !(c.request.Declare? && c.request.identity == i)
    ensures Withdrawn(history + mid, i)
  {
    if mid == [] {
      assert history + mid == history;
    } else {
      var before := mid[..|mid| - 1];
      StaysWithdrawn(history, before, i);
      assert (history + mid)[..|history + mid| - 1] == history + before;
      assert mid[|mid| - 1] in mid;
    }
  }

  /** Between two retirements that both took effect there is a declaration. */
  lemma RetiredTwice(history: seq<Call>, first: Call, mid: seq<Call>, i: string)
    requires first.request == Retire(i)
    requires Retirable(RegisterAfter(history), i)
    requires Retirable(RegisterAfter(history + [first] + mid), i)
    ensures exists c :: c in mid && c.request.Declare? && c.request.identity == i
  {
    var once := history + [first];
    assert once[..|once| - 1] == history;
    FoldOfHistory(history, i);
    FoldOfHistory(once + mid, i);
    assert Withdrawn(once, i);
    if forall c | c in mid :: !(c.request.Declare? && c.request.identity == i) {
      StaysWithdrawn(once, mid, i);
    }
  }

  // Warnings against the history

  lemma {:induction false} WarningsHold(rows: Registrations, identity: string, said: Declaration, now: int, w: Warning)
    ensures w in WarningsFor(rows, identity, said, now) <==>
              exists e :: e in rows && w in WarningFrom(e, identity, said, now)
  {
    if rows != [] {
      WarningsHold(rows[1..], identity, said, now, w);
      assert rows == [rows[0]] + rows[1..];
    }
  }

  /** The warnings a declaration draws after a history. */
  function Warnings(history: seq<Call>, identity: string, said: Declaration, now: int): seq<Warning> {
    WarningsFor(Filter(RegisterAfter(history).table, Unretired()), identity, said, now)
  }

  /** A warning comes from the unretired row of one identity. */
  lemma WarnedBy(history: seq<Call>, identity: string, said: Declaration, now: int, w: Warning)
    returns (e: Entry<string, Row>)
    requires w in Warnings(history, identity, said, now)
    ensures w in WarningFrom(e, identity, said, now)
    ensures Lookup(RegisterAfter(history).table, e.key) == Some(e.value) && e.value.retiredAt.None?
  {
    var table := RegisterAfter(history).table;
    WarningsHold(Filter(table, Unretired()), identity, said, now, w);
    e :| e in Filter(table, Unretired()) && w in WarningFrom(e, identity, said, now);
    FilterHolds(table, Unretired(), e);
    KeysAreUnique(history);
    LookupIsMembership(table, e.key, e.value);
  }

  lemma WarnsAbout(history: seq<Call>, identity: string, said: Declaration, now: int, i: string, w: Warning)
    requires var row := Lookup(RegisterAfter(history).table, i);
             row.Some? && row.value.retiredAt.None? && w in WarningFrom(Entry(i, row.value), identity, said, now)
    ensures w in Warnings(history, identity, said, now)
  {
    var table := RegisterAfter(history).table;
    var e := Entry(i, Lookup(table, i).value);
    KeysAreUnique(history);
    LookupIsMembership(table, i, e.value);
    FilterHolds(table, Unretired(), e);
    WarningsHold(Filter(table, Unretired()), identity, said, now, w);
  }

  /** A shared session is reported exactly when the identity last spoke under 15 minutes ago, of another role or projects. */
  lemma SharingWarnedIff(history: seq<Call>, identity: string, said: Declaration, now: int)
    ensures (exists w | w in Warnings(history, identity, said, now) :: w.SharedSession?) <==>
              && !Withdrawn(history, identity)
              && SaidAt(history, identity).Some?
              && now - SaidAt(history, identity).value < 900 * 1000000
              && (LastSaid(history, identity).role != said.role || LastSaid(history, identity).projects != said.projects)
  {
    FoldOfHistory(history, identity);
    var row := Lookup(RegisterAfter(history).table, identity);
    if w :| w in Warnings(history, identity, said, now) && w.SharedSession? {
      var e := WarnedBy(history, identity, said, now, w);
    }
    if row.Some? && row.value.retiredAt.None? && WarningFrom(Entry(identity, row.value), identity, said, now) != [] {
      WarnsAbout(history, identity, said, now, identity, WarningFrom(Entry(identity, row.value), identity, said, now)[0]);
    }
  }

  /** What a warning of a shared session says: how many seconds ago the identity spoke, and what of. */
  lemma {:induction false} SharingSays(history: seq<Call>, identity: string, said: Declaration, now: int, w: Warning)
    requires w in Warnings(history, identity, said, now) && w.SharedSession? && SaidAt(history, identity).Some?
    requires SaidAt(history, identity).value <= now
    ensures w.role == LastSaid(history, identity).role && w.projects == LastSaid(history, identity).projects
    ensures WholeSeconds(SaidAt(history, identity).value, now, w.age)
  {
    FoldOfHistory(history, identity);
    var e := WarnedBy(history, identity, said, now, w);
    AgeIsWhole(SaidAt(history, identity).value, now);
  }

  /** What a warning of a second manager says: who, and how many seconds ago it was last seen. */
  lemma {:induction false} ManagerSays(history: seq<Call>, identity: string, said: Declaration, now: int, w: Warning)
    requires Ordered(history) && forall k | 0 <= k < |history| :: history[k].at <= now
    requires w in Warnings(history, identity, said, now) && w.OtherManager?
    ensures HeardAt(history, w.identity).Some?
    ensures exists t :: WholeSeconds(t, now, w.age) && t <= HeardAt(history, w.identity).value < t + 60000000
  {
    var e := WarnedBy(history, identity, said, now, w);
    PresenceBound(history, w.identity);
    HeardBefore(history, w.identity, now);
    AgeIsWhole(e.value.lastSeen.value, now);
  }

  ghost predicate WarnsOfManager(warnings: seq<Warning>, other: string) {
    exists w | w in warnings :: w.OtherManager? && w.identity == other
  }

  ghost predicate RivalManager(history: seq<Call>, identity: string, said: Declaration, other: string) {
    && other != identity && said.role == "manager"
    && HeardAt(history, other).Some? && !Withdrawn(history, other) && LastSaid(history, other).role == "manager"
  }

  /** A second manager is reported only if heard within the hour, and always if heard within 59 minutes. */
  lemma {:induction false} ManagerWarned(history: seq<Call>, identity: string, said: Declaration, now: int, other: string)
    requires Ordered(history) && forall k | 0 <= k < |history| :: history[k].at <= now
    ensures WarnsOfManager(Warnings(history, identity, said, now), other) ==>
              RivalManager(history, identity, said, other)
              && now - HeardAt(history, other).value < 3600 * 1000000
    ensures RivalManager(history, identity, said, other) ==>
              now - HeardAt(history, other).value <= 3540 * 1000000 ==>
                WarnsOfManager(Warnings(history, identity, said, now), other)
  {
    FoldOfHistory(history, other);
    PresenceBound(history, other);
    HeardBefore(history, other, now);
    var row := Lookup(RegisterAfter(history).table, other);
    if w :| w in Warnings(history, identity, said, now) && w.OtherManager? && w.identity == other {
      var e := WarnedBy(history, identity, said, now, w);
    }
    if RivalManager(history, identity, said, other) && WarningFrom(Entry(other, row.value), identity, said, now) != [] {
      WarnsAbout(history, identity, said, now, other, WarningFrom(Entry(other, row.value), identity, said, now)[0]);
    }
  }
}
