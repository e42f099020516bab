/**
 What the client shows of a mailbox (`client.py`): which mailbox each task came to, whether the
 whole of it was read, and which tasks still call for something.
 */
module Inbox {
  import opened Client
  import opened Executor
  import opened Hub
  import opened Identity
  import opened Mailboxes
  import opened Marks
  import opened Sorting
  import opened Store
  import opened Tables
  import opened Tasks
  import opened Timestamps
  import opened Wrappers
  import Conclusions
  import Cursors
  import Paging
  import Reading
  import Text

  // Which mailbox

  predicate Truthy(value: Meta) {
    match value case Word(text) => text != "" case Other(truthy) => truthy
  }

  function Recipient(artifact: Artifact): Option<Meta> {
    if RECIPIENT in artifact.metadata then Some(artifact.metadata[RECIPIENT]) else None
  }

  /** The first recipient that counts as one; without any, whatever the last artifact says. */
  function Addressee(artifacts: seq<Artifact>, seen: Option<Meta>): Option<Meta> {
    if artifacts == [] then seen
    else
      var value := Recipient(artifacts[0]);
      if value.Some? && Truthy(value.value) then value else Addressee(artifacts[1..], value)
  }

  /** This artifact names a recipient that counts. */
  predicate Addressed(artifact: Artifact) {
    RECIPIENT in artifact.metadata && artifact.metadata[RECIPIENT] !in {Word(""), Other(false)}
  }

  lemma {:induction false} AddresseeIsFirst(artifacts: seq<Artifact>, seen: Option<Meta>)
    ensures forall i | 0 <= i < |artifacts| && Addressed(artifacts[i])
                       && (forall j | 0 <= j < i :: !Addressed(artifacts[j])) ::
              Addressee(artifacts, seen) == Some(artifacts[i].metadata[RECIPIENT])
    ensures artifacts != [] && (forall i | 0 <= i < |artifacts| :: !Addressed(artifacts[i])) ==>
              var last := artifacts[|artifacts| - 1].metadata;
              Addressee(artifacts, seen) == if RECIPIENT in last then Some(last[RECIPIENT]) else None
  {
    if artifacts != [] {
      var rest := artifacts[1..];
      AddresseeIsFirst(rest, Recipient(artifacts[0]));
      assert forall i | 0 <= i < |rest| :: rest[i] == artifacts[i + 1];
    }
  }

  datatype Bucket = Direct | Broadcast | Unclassified

  function BucketOf(task: Task, identity: string, principal: string): Bucket {
    var recipient := Addressee(task.artifacts, None);
    if recipient == Some(Word(identity)) then Direct
    else if recipient == Some(Word(principal)) then Broadcast
    else Unclassified
  }

  function In(bucket: Bucket, identity: string, principal: string): Task -> bool {
    (t: Task) => BucketOf(t, identity, principal) == bucket
  }

  function Count(tasks: seq<Task>, keep: Task -> bool): nat {
    |Filter(tasks, keep)|
  }

  datatype Split = Split(session: nat, broadcast: nat, unclassified: nat)

  function SplitOf(tasks: seq<Task>, identity: string, principal: string): Split {
    Split(Count(tasks, In(Direct, identity, principal)), Count(tasks, In(Broadcast, identity, principal)),
          Count(tasks, In(Unclassified, identity, principal)))
  }

  lemma CountSnoc(tasks: seq<Task>, t: Task, keep: Task -> bool)
    ensures Count(tasks + [t], keep) == Count(tasks, keep) + if keep(t) then 1 else 0
  {
    FilterAppend(tasks, [t], keep);
    assert [t][1..] == [];
  }

  method FindAddressee(task: Task) returns (recipient: Option<Meta>)
    ensures recipient == Addressee(task.artifacts, None)
  {
    recipient := None;
    for i := 0 to |task.artifacts|
      invariant Addressee(task.artifacts[i..], recipient) == Addressee(task.artifacts, None)
    {
      assert task.artifacts[i..][1..] == task.artifacts[i + 1..];
      recipient := Recipient(task.artifacts[i]);
      if recipient.Some? && Truthy(recipient.value) {
        return;
      }
    }
  }

  method SplitByMailbox(tasks: seq<Task>, identity: string, principal: string) returns (counts: Split)
    ensures counts == SplitOf(tasks, identity, principal)
    ensures counts.session + counts.broadcast + counts.unclassified == |tasks|
  {
    counts := Split(0, 0, 0);
    for i := 0 to |tasks|
      invariant counts == SplitOf(tasks[..i], identity, principal)
      invariant counts.session + counts.broadcast + counts.unclassified == i
    {
      assert tasks[..i + 1] == tasks[..i] + [tasks[i]];
      CountSnoc(tasks[..i], tasks[i], In(Direct, identity, principal));
      CountSnoc(tasks[..i], tasks[i], In(Broadcast, identity, principal));
      CountSnoc(tasks[..i], tasks[i], In(Unclassified, identity, principal));
      var recipient := FindAddressee(tasks[i]);
      if recipient == Some(Word(identity)) {
        counts := counts.(session := counts.session + 1);
      } else if recipient == Some(Word(principal)) {
        counts := counts.(broadcast := counts.broadcast + 1);
      } else {
        counts := counts.(unclassified := counts.unclassified + 1);
      }
    }
    assert tasks[..|tasks|] == tasks;
  }

  // The split against the store

  lemma {:induction false} FilterMultiplicity(s: seq<Task>, keep: Task -> bool, x: Task)
    ensures multiset(Filter(s, keep))[x] == if keep(x) then multiset(s)[x] else 0
  {
    if s != [] {
      FilterMultiplicity(s[1..], keep, x);
      assert s == [s[0]] + s[1..];
    }
  }

  /** Counting does not depend on the order. */
  lemma CountOfUnion(s: seq<Task>, a: seq<Task>, b: seq<Task>, keep: Task -> bool)
    requires multiset(s) == multiset(a) + multiset(b)
    ensures Count(s, keep) == Count(a, keep) + Count(b, keep)
  {
    forall x: Task ensures multiset(Filter(s, keep))[x] == multiset(Filter(a, keep))[x] + multiset(Filter(b, keep))[x] {
      FilterMultiplicity(s, keep, x);
      FilterMultiplicity(a, keep, x);
      FilterMultiplicity(b, keep, x);
    }
    assert multiset(Filter(s, keep)) == multiset(Filter(a, keep)) + multiset(Filter(b, keep));
    assert |multiset(Filter(s, keep))| == |Filter(s, keep)|;
  }

  /** A stored task falls in the bucket of the mailbox it lies in: the executor stamped the owner it routed to. */
  lemma StoredBucket(s: State, agents: set<string>, user: string, owner: string, t: Task)
    requires Sound(s, agents) && Session(user) && owner in [user, PrincipalOf(user)]
    requires t in Mailbox(s.rows, owner)
    ensures BucketOf(t, user, PrincipalOf(user)) ==
              if owner == PrincipalOf(user) then Broadcast else if t.state.Completed? then Direct else Unclassified
  {
    SessionReads(user);
    Text.PartitionSplits(user, SEPARATOR);
    MailboxHolds(s.rows, owner, t);
    var e :| e in s.rows && e.value == Stored(owner, t);
    assert RowFits(e, agents);
    if t.state.Completed? {
      var sender, source :| Session(sender) && t.artifacts == [StampOf(sender, owner, source)];
      assert Recipient(t.artifacts[0]) == Some(Word(owner));
    }
  }

  /**
   After a whole read at rest the split says what the store holds: broadcasts are the agent-wide
   mailbox, the rest is the session's own, where only the session's rejected sends are unclassified.
   */
  lemma SplitAgreesWithStore(s: State, agents: set<string>, user: string, tasks: seq<Task>)
    requires Sound(s, agents) && Session(user)
    requires multiset(tasks) == multiset(Mailbox(s.rows, user)) + multiset(Mailbox(s.rows, PrincipalOf(user)))
    ensures var split := SplitOf(tasks, user, PrincipalOf(user));
            && split.broadcast == |Mailbox(s.rows, PrincipalOf(user))|
            && split.session + split.unclassified == |Mailbox(s.rows, user)|
            && split.session == Count(Mailbox(s.rows, user), (t: Task) => t.state.Completed?)
  {
    var principal, own, shared := PrincipalOf(user), Mailbox(s.rows, user), Mailbox(s.rows, PrincipalOf(user));
    var direct, broadcast := In(Direct, user, principal), In(Broadcast, user, principal);
    var neither := In(Unclassified, user, principal);
    SessionReads(user);
    forall t | t in own ensures BucketOf(t, user, principal) == if t.state.Completed? then Direct else Unclassified {
      StoredBucket(s, agents, user, user, t);
    }
    forall t | t in shared ensures BucketOf(t, user, principal) == Broadcast {
      StoredBucket(s, agents, user, principal, t);
    }
    CountOfUnion(tasks, own, shared, direct);
    CountOfUnion(tasks, own, shared, broadcast);
    CountOfUnion(tasks, own, shared, neither);
    FilterAll(shared, direct);
    FilterAll(shared, broadcast);
    FilterAll(shared, neither);
    FilterAll(own, broadcast);
    SameFilter(own, direct, (t: Task) => t.state.Completed?);
    CountBoth(own, direct, neither);
  }

  lemma {:induction false} SameFilter(s: seq<Task>, p: Task -> bool, q: Task -> bool)
    requires forall t | t in s :: p(t) == q(t)
    ensures Filter(s, p) == Filter(s, q)
  {
    if s != [] {
      SameFilter(s[1..], p, q);
    }
  }

  lemma {:induction false} CountBoth(s: seq<Task>, p: Task -> bool, q: Task -> bool)
    requires forall t | t in s :: p(t) != q(t)
    ensures Count(s, p) + Count(s, q) == |s|
  {
    if s != [] {
      CountBoth(s[1..], p, q);
    }
  }

  // Whether it was all read

  /** The check that decides whether anything may be concluded from an absence. */
  predicate Complete(listing: Listing) {
    !listing.incomplete && |listing.tasks| == listing.total
  }

  /** At rest the check passes exactly when the whole of both mailboxes was read, which is when the cap allowed it. */
  lemma CompleteMeansWhole(sdk: Sdk, foreign: Cursors.Foreign, rows: Rows, user: string, requested: nat, maxPages: int,
                           requests: nat, o: Outcome)
    requires sdk.Valid() && Consistent(rows) && Session(user) && maxPages >= 1
    requires Walk(HubServer(sdk, foreign, (k: nat) => rows, user, requested), maxPages, requests, o)
    ensures var own, shared := Mailbox(rows, user), Mailbox(rows, PrincipalOf(user));
            && o.Listed?
            && (Complete(o.listing) <==> multiset(o.listing.tasks) == multiset(own) + multiset(shared))
            && (Complete(o.listing) <==> Reading.PageCount(|own|, |shared|, EffectiveSize(requested)) <= maxPages)
  {
    var principal := PrincipalOf(user);
    var r := Paging.Reader(sdk, foreign, user, principal, requested);
    var x := Paging.Boxes(Mailbox(rows, user), Mailbox(rows, principal));
    SessionReads(user);
    SessionServer(sdk, foreign, (k: nat) => rows, user, requested);
    SameWalk(HubServer(sdk, foreign, (k: nat) => rows, user, requested), Paging.ServerOf(r, Reading.Still(x)), maxPages,
             requests, o);
    MailboxIsBox(rows, user);
    MailboxIsBox(rows, principal);
    Conclusions.QuiescentRead(r, x, maxPages, requests, o);
    if multiset(o.listing.tasks) == multiset(x.a) + multiset(x.b) {
      Reading.MultisetSize(o.listing.tasks, x);
    }
  }

  /** Against any server: the check passes exactly if the last page said nothing is left, and as many came as it counted. */
  lemma CompleteExactly(server: Server, maxPages: int, requests: nat, o: Outcome)
    requires Walk(server, maxPages, requests, o) && o.Listed?
    ensures Complete(o.listing) <==>
              && ReplyAt(server, requests - 1).Served? && ReplyAt(server, requests - 1).page.next == ""
              && |Gathered(server, requests)| == ReplyAt(server, requests - 1).page.total
  {
    WalkSays(server, maxPages, requests, o);
  }

  // What still calls for something

  /** What the filter looks at: the task's id and its timestamp as text, empty when unset. */
  datatype Item = Item(id: string, timestamp: string)

  datatype Fate = HiddenClosed | HiddenPreCutoff | Kept

  function FateOf(item: Item, closed: set<string>): Fate {
    if item.id in closed then HiddenClosed
    else if item.timestamp != "" && Text.Less(item.timestamp, MARKS_AVAILABLE_SINCE) then HiddenPreCutoff
    else Kept
  }

  function With(fate: Fate, closed: set<string>): Item -> bool {
    (item: Item) => FateOf(item, closed) == fate
  }

  method Unprocessed(items: seq<Item>, closed: set<string>)
    returns (kept: seq<Item>, hiddenClosed: nat, hiddenPreCutoff: nat)
    ensures kept == Filter(items, With(Kept, closed))
    ensures hiddenClosed == |Filter(items, With(HiddenClosed, closed))|
    ensures hiddenPreCutoff == |Filter(items, With(HiddenPreCutoff, closed))|
    ensures |kept| + hiddenClosed + hiddenPreCutoff == |items|
  {
    kept, hiddenClosed, hiddenPreCutoff := [], 0, 0;
    for i := 0 to |items|
      invariant kept == Filter(items[..i], With(Kept, closed))
      invariant hiddenClosed == |Filter(items[..i], With(HiddenClosed, closed))|
      invariant hiddenPreCutoff == |Filter(items[..i], With(HiddenPreCutoff, closed))|
      invariant |kept| + hiddenClosed + hiddenPreCutoff == i
    {
      var item := items[i];
      assert items[..i + 1] == items[..i] + [item];
      FilterSnoc(items[..i], item, With(Kept, closed));
      FilterSnoc(items[..i], item, With(HiddenClosed, closed));
      FilterSnoc(items[..i], item, With(HiddenPreCutoff, closed));
      if item.id in closed {
        hiddenClosed := hiddenClosed + 1;
        continue;
      }
      if item.timestamp != "" && Text.Less(item.timestamp, MARKS_AVAILABLE_SINCE) {
        hiddenPreCutoff := hiddenPreCutoff + 1;
        continue;
      }
      kept := kept + [item];
    }
    assert items[..|items|] == items;
  }

  lemma FilterSnoc(items: seq<Item>, item: Item, keep: Item -> bool)
    ensures Filter(items + [item], keep) == Filter(items, keep) + if keep(item) then [item] else []
  {
    FilterAppend(items, [item], keep);
    assert [item][1..] == [];
  }

  /** The three parts are a partition: each task of the mailbox is in exactly one, as often as it came. */
  lemma {:induction false} FatesPartition(items: seq<Item>, closed: set<string>)
    ensures multiset(items) == multiset(Filter(items, With(Kept, closed)))
                               + multiset(Filter(items, With(HiddenClosed, closed)))
                               + multiset(Filter(items, With(HiddenPreCutoff, closed)))
  {
    if items != [] {
      FatesPartition(items[1..], closed);
      assert items == [items[0]] + items[1..];
    }
  }

  /**
   Against the hub's marks: a task is hidden as closed exactly when the caller's current mark on
   it is processed or discarded; otherwise it is hidden only for its time, where the text test
   errs inside the cutoff's own second.
   */
  lemma FateExactly(s: State, agents: set<string>, user: string, id: string, c: Civil, nanos: nat)
    requires Sound(s, agents) && ValidCivil(c)
    ensures var mark := Lookup(s.table, MarkKey(id, user));
            var fate := FateOf(Item(id, Render(c, nanos)), ClosedBy(s.table, user));
            var closed := mark.Some? && (mark.value.state == Processed || mark.value.state == Discarded);
            && (fate == HiddenClosed <==> closed)
            && (fate == HiddenPreCutoff <==>
                  !closed
                  && (Seconds(c) < CUTOFF_SECONDS || (Seconds(c) == CUTOFF_SECONDS && nanos != 0)))
  {
    TextTestExactly(c, nanos);
    ClosedExactly(s.table, user, id);
    if Lookup(s.table, MarkKey(id, user)).Some? {
      var row := Lookup(s.table, MarkKey(id, user)).value;
      assert Lookup(s.table, MarkKey(id, user)) == Some(row);
    }
  }

  /** Closing a task hides it from its marker only; moving it to awaiting shows it again. */
  lemma MarkMovesTask(s: State, agents: set<string>, op: Op, item: Item, user: string)
    requires Sound(s, agents) && op.SetMark? && Admissible(s, op)
    requires Marking(s.rows, op.user, op.task, op.state, op.detail).Ok?
    ensures var mark := Marking(s.rows, op.user, op.task, op.state, op.detail).value.0;
            var before := FateOf(item, ClosedBy(s.table, user));
            var after := FateOf(item, ClosedBy(Act(s, op, agents).table, user));
            if item.id == op.task && user == op.user then
              after == HiddenClosed <==> mark.state == Processed || mark.state == Discarded
            else after == before
  {
    MarkTakesEffect(s, op, agents, user, item.id);
  }

  /** A task without a timestamp is hidden only if it is closed. */
  lemma UntimedIsShown(s: State, agents: set<string>, user: string, id: string)
    requires Sound(s, agents)
    ensures var fate := FateOf(Item(id, ""), ClosedBy(s.table, user));
            fate == (if IsClosed(s.table, user, id) then HiddenClosed else Kept)
  {
    ClosedExactly(s.table, user, id);
    if IsClosed(s.table, user, id) {
      assert Lookup(s.table, MarkKey(id, user)) == Some(Lookup(s.table, MarkKey(id, user)).value);
    }
  }

  // All of it together, for every run of the hub

  ghost predicate Tells(t: Task, text: string) {
    t.nanos >= 0 && exists c | ValidCivil(c) && Seconds(c) == t.seconds :: text == Render(c, t.nanos)
  }

  /** The filter's view of a listing: each task's id, and its moment as text. */
  ghost predicate Renders(tasks: seq<Task>, items: seq<Item>) {
    |items| == |tasks| && forall i | 0 <= i < |tasks| :: items[i].id == tasks[i].id && Tells(tasks[i], items[i].timestamp)
  }

  ghost predicate Shown(items: seq<Item>, closed: set<string>, id: string) {
    exists item | item in Filter(items, With(Kept, closed)) :: item.id == id
  }

  /** Not before the cutoff, nor inside its second. */
  predicate Late(t: Task) {
    t.seconds > CUTOFF_SECONDS || (t.seconds == CUTOFF_SECONDS && t.nanos == 0)
  }

  /** The caller's current mark closes the message. */
  predicate IsClosed(table: MarkTable, user: string, id: string) {
    var mark := Lookup(table, MarkKey(id, user));
    mark.Some? && (mark.value.state == Processed || mark.value.state == Discarded)
  }

  lemma FateOfTask(s: State, agents: set<string>, user: string, t: Task, text: string)
    requires Sound(s, agents) && Tells(t, text)
    ensures FateOf(Item(t.id, text), ClosedBy(s.table, user)) == Kept <==> !IsClosed(s.table, user, t.id) && Late(t)
  {
    var c :| ValidCivil(c) && Seconds(c) == t.seconds && text == Render(c, t.nanos);
    FateExactly(s, agents, user, t.id, c, t.nanos);
  }

  /**
   A mark that is accepted decides what its marker sees next: acting on a message or dismissing it hides
   it; a question that waits for a decision keeps it shown, or shows it again, if it is late enough.
   */
  lemma MarkedIsShown(s: State, agents: set<string>, op: Op, state: MarkState, text: string)
    requires Sound(s, agents) && op.SetMark? && Admissible(s, op)
    requires AsksFor(s.rows, op.user, op.task, op.state, op.detail, state)
    requires Tells(Lookup(s.rows, op.task).value.task, text)
    ensures var after, t := Act(s, op, agents).table, Lookup(s.rows, op.task).value.task;
            var fate := FateOf(Item(op.task, text), ClosedBy(after, op.user));
            && (state == Processed || state == Discarded ==> fate == HiddenClosed)
            && (state == Awaiting ==> fate == if Late(t) then Kept else HiddenPreCutoff)
  {
    var t := Lookup(s.rows, op.task).value.task;
    MarkKeeps(s, op, agents);
    MarkCloses(s, op, agents, state);
    var c :| ValidCivil(c) && Seconds(c) == t.seconds && text == Render(c, t.nanos);
    TextTestExactly(c, t.nanos);
    assert text != "";
  }

  lemma ShownExactly(s: State, agents: set<string>, user: string, tasks: seq<Task>, items: seq<Item>, id: string)
    requires Sound(s, agents) && Renders(tasks, items)
    ensures Shown(items, ClosedBy(s.table, user), id) <==>
              exists t | t in tasks :: t.id == id && !IsClosed(s.table, user, id) && Late(t)
  {
    var closed := ClosedBy(s.table, user);
    forall i | 0 <= i < |tasks|
      ensures With(Kept, closed)(items[i]) <==> !IsClosed(s.table, user, items[i].id) && Late(tasks[i])
    {
      FateOfTask(s, agents, user, tasks[i], items[i].timestamp);
    }
    forall item ensures item in Filter(items, With(Kept, closed)) <==> item in items && With(Kept, closed)(item) {
      FilterHolds(items, With(Kept, closed), item);
    }
    if item :| item in Filter(items, With(Kept, closed)) && item.id == id {
      var i :| 0 <= i < |items| && items[i] == item;
      assert tasks[i] in tasks;
    }
    if t :| t in tasks && t.id == id && !IsClosed(s.table, user, id) && Late(t) {
      var i :| 0 <= i < |tasks| && tasks[i] == t;
      assert items[i] in items;
    }
  }

  /** What a complete read, its split and the filter say, against the rows and the marks. */
  ghost predicate SaysWhatIs(s: State, user: string, tasks: seq<Task>, items: seq<Item>, id: string) {
    var own, shared := Mailbox(s.rows, user), Mailbox(s.rows, PrincipalOf(user));
    var split, mine := SplitOf(tasks, user, PrincipalOf(user)), Mine(s.rows, Caller(user), id);
    && split.broadcast == |shared|
    && split.session + split.unclassified == |own|
    && split.session == Count(own, (t: Task) => t.state.Completed?)
    && (Shown(items, ClosedBy(s.table, user), id) <==> mine.Some? && !IsClosed(s.table, user, id) && Late(mine.value))
  }

  lemma WholeSaysWhatIs(s: State, agents: set<string>, user: string, tasks: seq<Task>, items: seq<Item>, id: string)
    requires Sound(s, agents) && Session(user) && Renders(tasks, items)
    requires multiset(tasks) == multiset(Mailbox(s.rows, user)) + multiset(Mailbox(s.rows, PrincipalOf(user)))
    ensures SaysWhatIs(s, user, tasks, items, id)
  {
    var own, shared := Mailbox(s.rows, user), Mailbox(s.rows, PrincipalOf(user));
    SplitAgreesWithStore(s, agents, user, tasks);
    ShownExactly(s, agents, user, tasks, items, id);
    SoundIsConsistent(s, agents);
    forall t ensures t in tasks && t.id == id <==> Mine(s.rows, Caller(user), id) == Some(t) {
      MineIsListed(s.rows, user, id, t);
      assert t in tasks <==> t in multiset(tasks);
      assert t in multiset(own) + multiset(shared) <==> t in own || t in shared;
    }
  }

  /**
   Whatever was delivered and marked before: a read of a session passes its completeness check exactly
   if the cap allows the pages its mailboxes need, and then the split counts what the store holds and
   the filter shows exactly the messages that are the caller's, not closed by it, and not too old.
   */
  lemma ViewOfARun(ops: seq<Op>, agents: set<string>, sdk: Sdk, foreign: Cursors.Foreign, user: string, requested: nat,
                   maxPages: int, requests: nat, o: Outcome, items: seq<Item>, id: string)
    requires ProperAgents(agents) && Valid(EMPTY, ops, agents) && Session(user) && sdk.Valid() && maxPages >= 1
    requires Walk(HubServer(sdk, foreign, (k: nat) => Run(EMPTY, ops, agents).rows, user, requested), maxPages, requests, o)
    requires o.Listed? ==> Renders(o.listing.tasks, items)
    ensures var s := Run(EMPTY, ops, agents);
            var own, shared := Mailbox(s.rows, user), Mailbox(s.rows, PrincipalOf(user));
            && o.Listed?
            && (Complete(o.listing) <==> Reading.PageCount(|own|, |shared|, EffectiveSize(requested)) <= maxPages)
            && (Complete(o.listing) ==> SaysWhatIs(s, user, o.listing.tasks, items, id))
  {
    var s := Run(EMPTY, ops, agents);
    RunIsSound(EMPTY, ops, agents);
    SoundIsConsistent(s, agents);
    CompleteMeansWhole(sdk, foreign, s.rows, user, requested, maxPages, requests, o);
    if Complete(o.listing) {
      WholeSaysWhatIs(s, agents, user, o.listing.tasks, items, id);
    }
  }
}
