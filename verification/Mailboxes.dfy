/**
 From rows to mailboxes: who sees what, for every token, and the paged reads of a live store.
 */
module Mailboxes {
  import opened Arrivals
  import opened Client
  import opened Cursors
  import opened Identity
  import opened Paging
  import opened Places
  import opened Reading
  import opened Sorting
  import opened Store
  import opened Tables
  import opened Tasks
  import opened Wrappers
  import Conclusions
  import Text

  /** One row per task, under its own id. */
  ghost predicate Consistent(rows: Rows) {
    UniqueKeys(rows) && forall e | e in rows :: e.key == e.value.task.id
  }

  /** A mailbox is exactly the rows its owner has. */
  lemma {:induction false} MailboxHolds(rows: Rows, owner: string, t: Task)
    ensures t in Mailbox(rows, owner) <==> exists e :: e in rows && e.value == Stored(owner, t)
  {
    if rows != [] {
      var last, earlier := rows[|rows| - 1], rows[..|rows| - 1];
      assert rows == earlier + [last];
      MailboxHolds(earlier, owner, t);
      InsertHolds(last.value.task, Mailbox(earlier, owner), NotOlder, t);
      if last.value == Stored(owner, t) {
        assert last in rows;
      }
    }
  }

  lemma {:induction false} InsertUnique(x: Task, s: seq<Task>)
    requires UniqueIds(s) && forall t | t in s :: t.id != x.id
    ensures UniqueIds(Insert(x, s, NotOlder))
  {
    if s != [] && !NotOlder(x, s[0]) {
      InsertUnique(x, s[1..]);
      var rest := Insert(x, s[1..], NotOlder);
      forall j | 0 <= j < |rest| ensures rest[j].id != s[0].id {
        InsertHolds(x, s[1..], NotOlder, rest[j]);
      }
    }
  }

  /** Every mailbox of consistent rows is what the SDK is assumed to list: newest first, one task per id. */
  lemma {:induction false} MailboxIsBox(rows: Rows, owner: string)
    requires Consistent(rows)
    ensures IsBox(Mailbox(rows, owner))
  {
    if rows != [] {
      var last, earlier := rows[|rows| - 1], rows[..|rows| - 1];
      assert rows == earlier + [last];
      assert last in rows && forall e | e in earlier :: e in rows;
      MailboxIsBox(earlier, owner);
      NotOlderOrders();
      InsertKeeps(last.value.task, Mailbox(earlier, owner), NotOlder);
      forall t | t in Mailbox(earlier, owner) ensures t.id != last.value.task.id {
        MailboxHolds(earlier, owner, t);
        var i :| 0 <= i < |earlier| && earlier[i].value == Stored(owner, t);
        assert rows[i].key != rows[|rows| - 1].key && earlier[i] in rows;
      }
      InsertUnique(last.value.task, Mailbox(earlier, owner));
    }
  }

  // Isolation

  /** The owner a read really reaches is one of the caller's. */
  lemma ReadsOwnMailboxes(context: Context, owner: string)
    requires owner in ReadOwners(context)
    ensures OwnerResolver(ContextFor(context, owner)) in ReadOwners(context)
    ensures owner != "" ==> OwnerResolver(ContextFor(context, owner)) == owner
  {
  }

  ghost predicate OwnedBy(rows: Rows, t: Task, owners: seq<string>) {
    exists e | e in rows :: e.value.task == t && e.value.owner in owners
  }

  lemma FetchIsOwn(sdk: Sdk, rows: Rows, context: Context, owner: string, token: string, p: nat, t: Task)
    requires owner in ReadOwners(context)
    requires var page := Fetch(sdk, BoxOf(rows, context, owner), token, p); page.Ok? && t in page.value.tasks
    ensures OwnedBy(rows, t, ReadOwners(context))
  {
    var actual := OwnerResolver(ContextFor(context, owner));
    ReadsOwnMailboxes(context, owner);
    MailboxHolds(rows, actual, t);
    var e :| e in rows && e.value == Stored(actual, t);
    assert e.value.task == t && e.value.owner in ReadOwners(context);
  }

  lemma MergedHolds(cursor: Cursor, p: nat, ida: string, ra: SdkPage, idb: string, rb: SdkPage, t: Task)
    requires cursor.skip >= 0 && t in MergedPage(cursor, p, ida, ra, idb, rb).tasks
    ensures t in ra.tasks || t in rb.tasks
  {
    var tasks := Sort(ra.tasks + rb.tasks, NotOlder);
    NotOlderOrders();
    SortKeeps(ra.tasks + rb.tasks, NotOlder);
    assert t in Drop(tasks, cursor.skip);
    assert t in tasks;
    assert t in multiset(ra.tasks + rb.tasks);
  }

  lemma SinglePageIsOwn(sdk: Sdk, rows: Rows, context: Context, token: string, pageSize: nat, t: Task)
    requires var page := SdkList(sdk, BoxOf(rows, context, ReadOwners(context)[0]), token, pageSize);
             page.Ok? && t in page.value.tasks
    ensures OwnedBy(rows, t, ReadOwners(context))
  {
    var actual := OwnerResolver(ContextFor(context, ReadOwners(context)[0]));
    ReadsOwnMailboxes(context, ReadOwners(context)[0]);
    MailboxHolds(rows, actual, t);
    var e :| e in rows && e.value == Stored(actual, t);
    assert e.value.task == t && e.value.owner in ReadOwners(context);
  }

  /**
   For every token, genuine or made up, and whatever is delivered between the two fetches: a page holds
   only tasks of the caller's own mailboxes.
   */
  lemma PageIsOwn(sdk: Sdk, foreign: Foreign, rows: Rows, later: Rows, context: Context, token: string, pageSize: nat,
                  t: Task)
    requires var page := ListBetween(sdk, foreign, rows, later, context, token, pageSize);
             page.Ok? && t in page.value.tasks
    ensures OwnedBy(rows, t, ReadOwners(context)) || OwnedBy(later, t, ReadOwners(context))
  {
    var owners := ReadOwners(context);
    if |owners| == 1 {
      SinglePageIsOwn(sdk, rows, context, token, pageSize, t);
    } else {
      var p, cursor := EffectiveSize(pageSize), Decode(foreign, token);
      var ra := Fetch(sdk, BoxOf(rows, context, owners[0]), TokenFor(cursor, owners[0]), p).value;
      var rb := Fetch(sdk, BoxOf(later, context, owners[1]), TokenFor(cursor, owners[1]), p).value;
      MergedHolds(cursor, p, owners[0], ra, owners[1], rb, t);
      if t in ra.tasks {
        FetchIsOwn(sdk, rows, context, owners[0], TokenFor(cursor, owners[0]), p, t);
      } else {
        FetchIsOwn(sdk, later, context, owners[1], TokenFor(cursor, owners[1]), p, t);
      }
    }
  }

  // What the SDK is taken to do

  predicate IsPageFrom(sdk: Sdk, box: seq<Task>, i: nat, pageSize: nat, page: SdkPage)
    requires i <= |box|
  {
    var end := i + if pageSize == 0 then 50 else pageSize;
    && page.total == |box|
    && page.tasks == (if end < |box| then box[i..end] else box[i..])
    && page.next == (if end < |box| then sdk.tokenOf(box[end].id) else "")
  }

  lemma PositionIs(sdk: Sdk, box: seq<Task>, i: nat)
    requires sdk.Valid() && UniqueIds(box) && i < |box|
    ensures Position(sdk, box, sdk.tokenOf(box[i].id)) == i
  {
    var j := Position(sdk, box, sdk.tokenOf(box[i].id));
    assert box[i] in box;
    assert sdk.idOf(sdk.tokenOf(box[i].id)) == box[i].id && sdk.idOf(sdk.tokenOf(box[j].id)) == box[j].id;
  }

  lemma SdkPageAt(sdk: Sdk, box: seq<Task>, i: nat, pageSize: nat)
    requires sdk.Valid() && UniqueIds(box) && i < |box|
    ensures var r := SdkList(sdk, box, sdk.tokenOf(box[i].id), pageSize);
            r.Ok? && IsPageFrom(sdk, box, i, pageSize, r.value)
  {
    PositionIs(sdk, box, i);
  }

  /** What is assumed of the SDK: where a page begins, what it holds, the whole size, and the token of the next. */
  lemma SdkPageIs(sdk: Sdk, box: seq<Task>, token: string, pageSize: nat)
    requires sdk.Valid() && UniqueIds(box)
    ensures var r := SdkList(sdk, box, token, pageSize);
            && (token == "" ==> r.Ok? && IsPageFrom(sdk, box, 0, pageSize, r.value))
            && (forall i | 0 <= i < |box| && token == sdk.tokenOf(box[i].id) ::
                  r.Ok? && IsPageFrom(sdk, box, i, pageSize, r.value))
            && (token != "" && (forall t | t in box :: token != sdk.tokenOf(t.id)) ==> r == Err(InvalidPageToken))
  {
    forall i | 0 <= i < |box| && token == sdk.tokenOf(box[i].id)
      ensures SdkList(sdk, box, token, pageSize).Ok?
      ensures IsPageFrom(sdk, box, i, pageSize, SdkList(sdk, box, token, pageSize).value)
    {
      SdkPageAt(sdk, box, i, pageSize);
    }
    NoSuchPage(sdk, box, token, pageSize);
  }

  lemma NoSuchPage(sdk: Sdk, box: seq<Task>, token: string, pageSize: nat)
    ensures token != "" && (forall t | t in box :: token != sdk.tokenOf(t.id)) ==>
              SdkList(sdk, box, token, pageSize) == Err(InvalidPageToken)
  {
    if Position(sdk, box, token) < |box| {
      assert box[Position(sdk, box, token)] in box;
    }
  }

  // What a page is, for every token

  ghost predicate TimelyRows(rows: Rows) {
    forall e | e in rows :: Timely(e.value.task)
  }

  lemma MailboxIsTimely(rows: Rows, owner: string, t: Task)
    requires TimelyRows(rows) && t in Mailbox(rows, owner)
    ensures Timely(t)
  {
    MailboxHolds(rows, owner, t);
  }

  /** In every mailbox an earlier entry's instant is no earlier than a later one's. */
  lemma MailboxIsNewestFirst(rows: Rows, owner: string)
    requires TimelyRows(rows)
    ensures NewestFirst(Mailbox(rows, owner))
  {
    MailboxSorted(rows, owner);
    forall t | t in Mailbox(rows, owner) ensures Timely(t) {
      MailboxIsTimely(rows, owner, t);
    }
    SortedIsNewestFirst(Mailbox(rows, owner));
  }

  lemma WindowIsNewestFirst(tasks: seq<Task>, skip: nat, p: nat)
    requires NewestFirst(tasks)
    ensures NewestFirst(Window(tasks, skip, p))
  {
  }

  lemma SortIsNewestFirst(tasks: seq<Task>)
    requires forall t | t in tasks :: Timely(t)
    ensures NewestFirst(Sort(tasks, NotOlder))
  {
    NotOlderOrders();
    SortKeeps(tasks, NotOlder);
    forall t | t in Sort(tasks, NotOlder) ensures Timely(t) {
      assert t in multiset(tasks);
    }
    SortedIsNewestFirst(Sort(tasks, NotOlder));
  }

  lemma FetchIsTimely(sdk: Sdk, rows: Rows, owner: string, token: string, p: nat)
    requires TimelyRows(rows)
    ensures var page := Fetch(sdk, Mailbox(rows, owner), token, p);
            page.Ok? ==> NewestFirst(page.value.tasks) && forall t | t in page.value.tasks :: Timely(t)
  {
    var page := Fetch(sdk, Mailbox(rows, owner), token, p);
    MailboxIsNewestFirst(rows, owner);
    if page.Ok? {
      forall t | t in page.value.tasks ensures Timely(t) {
        MailboxIsTimely(rows, owner, t);
      }
    }
  }

  /** For every token, genuine or made up, and whatever happens between the two fetches: a page is newest first. */
  lemma PageIsNewestFirst(sdk: Sdk, foreign: Foreign, rows: Rows, later: Rows, context: Context, token: string,
                          pageSize: nat)
    requires TimelyRows(rows) && TimelyRows(later)
    ensures var page := ListBetween(sdk, foreign, rows, later, context, token, pageSize);
            page.Ok? ==> NewestFirst(page.value.tasks)
  {
    var owners := ReadOwners(context);
    var first := OwnerResolver(ContextFor(context, owners[0]));
    if |owners| == 1 {
      MailboxIsNewestFirst(rows, first);
    } else {
      var p, cursor := EffectiveSize(pageSize), Decode(foreign, token);
      var second := OwnerResolver(ContextFor(context, owners[1]));
      FetchIsTimely(sdk, rows, first, TokenFor(cursor, owners[0]), p);
      FetchIsTimely(sdk, later, second, TokenFor(cursor, owners[1]), p);
      var ra := Fetch(sdk, Mailbox(rows, first), TokenFor(cursor, owners[0]), p);
      var rb := Fetch(sdk, Mailbox(later, second), TokenFor(cursor, owners[1]), p);
      if ra.Ok? && rb.Ok? {
        SortIsNewestFirst(ra.value.tasks + rb.value.tasks);
        WindowIsNewestFirst(Sort(ra.value.tasks + rb.value.tasks, NotOlder), cursor.skip, p);
      }
    }
  }

  /** An unreadable token restarts the listing: its page is the page of no token. */
  lemma UnreadableRestarts(sdk: Sdk, foreign: Foreign, rows: Rows, later: Rows, context: Context, token: string,
                           pageSize: nat)
    requires Unreadable(foreign, token) && |ReadOwners(context)| == 2
    ensures ListBetween(sdk, foreign, rows, later, context, token, pageSize) ==
              ListBetween(sdk, foreign, rows, later, context, "", pageSize)
  {
    DecodeExactly(foreign, token);
    DecodeExactly(foreign, "");
  }

  /** Without a page size a page has up to 50. */
  lemma UnsetSizeIsFifty(sdk: Sdk, foreign: Foreign, rows: Rows, later: Rows, context: Context, token: string)
    ensures ListBetween(sdk, foreign, rows, later, context, token, 0) ==
              ListBetween(sdk, foreign, rows, later, context, token, 50)
  {
  }

  /** The rest of a mailbox once the first page is taken. */
  lemma FirstFetch(sdk: Sdk, box: seq<Task>, p: nat)
    requires p >= 1
    ensures Fetch(sdk, box, "", p).Ok? && Fetch(sdk, box, "", p).value.tasks == Take(box, p)
    ensures Fetch(sdk, box, "", p).value.total == |box|
  {
    assert box[0..] == box;
  }

  lemma FirstPageIsMerge(sdk: Sdk, foreign: Foreign, rows: Rows, later: Rows, user: string, requested: nat)
    requires Session(user)
    ensures var page := ListBetween(sdk, foreign, rows, later, Context(user, NO_OVERRIDE), "", requested);
            var own, shared := Mailbox(rows, user), Mailbox(later, PrincipalOf(user));
            && page.Ok? && page.value.total == |own| + |shared|
            && page.value.tasks == Take(Merge(own, shared, NotOlder), EffectiveSize(requested))
  {
    var own, shared, p := Mailbox(rows, user), Mailbox(later, PrincipalOf(user)), EffectiveSize(requested);
    SessionPage(sdk, foreign, rows, later, user, "", requested);
    SessionReads(user);
    FirstFetch(sdk, own, p);
    FirstFetch(sdk, shared, p);
    MailboxSorted(rows, user);
    MailboxSorted(later, PrincipalOf(user));
    NotOlderOrders();
    SortOfTwoRuns(Take(own, p), Take(shared, p), NotOlder);
    TakeMerge(own, shared, p, p, p, NotOlder);
    var sorted := Sort(Take(own, p) + Take(shared, p), NotOlder);
    assert Drop(sorted, 0) == sorted;
  }

  lemma MergeIsNewestFirst(own: seq<Task>, shared: seq<Task>)
    requires Sorted(own, NotOlder) && Sorted(shared, NotOlder) && forall t | t in own || t in shared :: Timely(t)
    ensures NewestFirst(Merge(own, shared, NotOlder))
  {
    NotOlderOrders();
    SortOfTwoRuns(own, shared, NotOlder);
    SortIsNewestFirst(own + shared);
  }

  /**
   The first page of a session is the newest of its two mailboxes together: as many as fit, and none
   that is left out is later than one that is in.
   */
  lemma FirstPageIsLatest(sdk: Sdk, foreign: Foreign, rows: Rows, later: Rows, user: string, requested: nat,
                          t: Task, u: Task)
    requires Session(user) && TimelyRows(rows) && TimelyRows(later)
    ensures var page := ListBetween(sdk, foreign, rows, later, Context(user, NO_OVERRIDE), "", requested);
            var own, shared := Mailbox(rows, user), Mailbox(later, PrincipalOf(user));
            var left := multiset(own) + multiset(shared) - multiset(page.value.tasks);
            && page.Ok? && page.value.total == |own| + |shared|
            && multiset(page.value.tasks) <= multiset(own) + multiset(shared)
            && |page.value.tasks| ==
                 (var p := if requested == 0 then 50 else requested;
                  if |own| + |shared| <= p then |own| + |shared| else p)
            && (t in page.value.tasks && u in left ==> Instant(t) >= Instant(u))
  {
    var own, shared, p := Mailbox(rows, user), Mailbox(later, PrincipalOf(user)), EffectiveSize(requested);
    FirstPageIsMerge(sdk, foreign, rows, later, user, requested);
    MailboxSorted(rows, user);
    MailboxSorted(later, PrincipalOf(user));
    forall x | x in own || x in shared ensures Timely(x) {
      if x in own {
        MailboxIsTimely(rows, user, x);
      } else {
        MailboxIsTimely(later, PrincipalOf(user), x);
      }
    }
    MergeIsNewestFirst(own, shared);
    MergeKeeps(own, shared, NotOlder);
    FrontIsLatest(Merge(own, shared, NotOlder), p, t, u);
  }

  lemma FrontIsLatest(s: seq<Task>, p: nat, t: Task, u: Task)
    requires NewestFirst(s)
    ensures multiset(Take(s, p)) <= multiset(s)
    ensures t in Take(s, p) && u in multiset(s) - multiset(Take(s, p)) ==> Instant(t) >= Instant(u)
  {
    var front, rest := Take(s, p), Drop(s, p);
    assert s == front + rest;
    if t in front && u in multiset(s) - multiset(front) {
      assert u in multiset(rest);
      FrontThenRest(front, rest, t, u);
    }
  }

  lemma FrontThenRest(front: seq<Task>, rest: seq<Task>, t: Task, u: Task)
    requires NewestFirst(front + rest) && t in front && u in rest
    ensures Instant(t) >= Instant(u)
  {
    var i :| 0 <= i < |front| && front[i] == t;
    var j :| 0 <= j < |rest| && rest[j] == u;
    assert (front + rest)[i] == t && (front + rest)[|front| + j] == u;
  }

  /** A pin that is empty pins nothing. */
  lemma EmptyPinIsNone(sdk: Sdk, foreign: Foreign, rows: Rows, later: Rows, user: string, token: string, pageSize: nat,
                       id: string)
    ensures var unpinned, empty := Context(user, None), Context(user, Some(""));
            && OwnerResolver(empty) == user
            && Mine(rows, empty, id) == Mine(rows, unpinned, id)
            && MayRead(rows, empty, id) == MayRead(rows, unpinned, id)
            && ListBetween(sdk, foreign, rows, later, empty, token, pageSize) ==
                 ListBetween(sdk, foreign, rows, later, unpinned, token, pageSize)
  {
    forall owner ensures ContextFor(Context(user, None), owner) == ContextFor(Context(user, Some("")), owner) {
    }
  }

  // List and get

  /** A caller outside any delivery, as the middleware admits it. */
  predicate Session(user: string) {
    SEPARATOR in user && PrincipalOf(user) != ""
  }

  const NO_OVERRIDE: Option<string> := None

  lemma SessionReads(user: string)
    requires Session(user)
    ensures ReadOwners(Context(user, NO_OVERRIDE)) == [user, PrincipalOf(user)]
    ensures user != PrincipalOf(user)
  {
    Text.PartitionSplits(user, SEPARATOR);
  }


  lemma GetReads(rows: Rows, owner: string, id: string, t: Task)
    requires Consistent(rows)
    ensures SdkGet(rows, id, owner) == Some(t) <==> t.id == id && t in Mailbox(rows, owner)
  {
    MailboxHolds(rows, owner, t);
    LookupIsMembership(rows, id, Stored(owner, t));
    if t.id == id && t in Mailbox(rows, owner) {
      var e :| e in rows && e.value == Stored(owner, t);
      assert e == Entry(id, Stored(owner, t));
    }
    if SdkGet(rows, id, owner) == Some(t) {
      assert Entry(id, Stored(owner, t)) in rows;
    }
  }

  /** "Is it mine" answers for exactly the tasks the listing covers. */
  lemma MineIsListed(rows: Rows, user: string, id: string, t: Task)
    requires Consistent(rows) && Session(user)
    ensures Mine(rows, Context(user, NO_OVERRIDE), id) == Some(t) <==>
              t.id == id && (t in Mailbox(rows, user) || t in Mailbox(rows, PrincipalOf(user)))
  {
    var context := Context(user, NO_OVERRIDE);
    SessionReads(user);
    ReadsOwnMailboxes(context, user);
    ReadsOwnMailboxes(context, PrincipalOf(user));
    GetReads(rows, user, id, t);
    GetReads(rows, PrincipalOf(user), id, t);
  }

  /** "May I read it" adds the tasks stamped with the caller as sender, and nothing else. */
  lemma MayReadExactly(rows: Rows, user: string, id: string)
    requires Consistent(rows) && Session(user)
    ensures MayRead(rows, Context(user, NO_OVERRIDE), id) ==
              match Lookup(rows, id)
              case None => None
              case Some(st) =>
                if st.owner == user || st.owner == PrincipalOf(user) || SenderOf(st.task) == Some(user) then Some(st.task)
                else None
  {
    var context := Context(user, NO_OVERRIDE);
    SessionReads(user);
    ReadsOwnMailboxes(context, user);
    ReadsOwnMailboxes(context, PrincipalOf(user));
  }

  /** While a delivery pins its owner, every read reaches that one mailbox and the sender fallback is off. */
  lemma PinnedReadsOne(rows: Rows, user: string, pinned: string, id: string)
    requires pinned != ""
    ensures var context := Context(user, Some(pinned));
            && ReadOwners(context) == [pinned]
            && MayRead(rows, context, id) == Mine(rows, context, id)
            && Mine(rows, context, id) ==
                 match Lookup(rows, id)
                 case None => None
                 case Some(stored) => if stored.owner == pinned then Some(stored.task) else None
  {
    ReadsOwnMailboxes(Context(user, Some(pinned)), pinned);
  }

  // A live store

  /** The rows each fetch of a read sees: two fetches to a request, with whatever happens between them. */
  type Log = nat -> Rows

  /** The rows the k-th request finds for the first mailbox. */
  function FirstRows(log: Log, k: nat): Rows {
    log(2 * k)
  }

  /** The rows the k-th request finds for the second mailbox. */
  function SecondRows(log: Log, k: nat): Rows {
    log(2 * k + 1)
  }

  function HistoryOf(log: Log, ida: string, idb: string): History {
    (k: nat) => Boxes(Mailbox(FirstRows(log, k), ida), Mailbox(SecondRows(log, k), idb))
  }

  function SettledTask(): Task -> bool {
    (t: Task) => Settled(t)
  }

  function SettledRow(): Entry<string, Stored> -> bool {
    (e: Entry<string, Stored>) => Settled(e.value.task)
  }

  /** A settled task has its time; one still in delivery has none, and so is listed last. */
  predicate Dated(t: Task) {
    if Settled(t) then t.seconds > 0 else t.seconds == 0 && t.nanos == 0
  }

  ghost predicate WellDated(rows: Rows) {
    forall e | e in rows :: Dated(e.value.task)
  }

  /** Settled rows stay as they are; others may come, change their owner and settle. */
  ghost predicate RowsLast(rows: Rows, later: Rows) {
    Subseq(Filter(rows, SettledRow()), Filter(later, SettledRow()))
  }

  ghost predicate LogLastsAt(log: Log, k: nat) {
    && Consistent(log(k)) && Consistent(log(k + 1)) && WellDated(log(k)) && WellDated(log(k + 1))
    && RowsLast(log(k), log(k + 1))
  }

  ghost predicate LogLasts(log: Log) {
    forall k: nat :: LogLastsAt(log, k)
  }

  lemma {:induction false} MailboxSorted(rows: Rows, owner: string)
    ensures Sorted(Mailbox(rows, owner), NotOlder)
  {
    if rows != [] {
      MailboxSorted(rows[..|rows| - 1], owner);
      NotOlderOrders();
      InsertKeeps(rows[|rows| - 1].value.task, Mailbox(rows[..|rows| - 1], owner), NotOlder);
    }
  }

  lemma MailboxSnoc(rows: Rows, e: Entry<string, Stored>, owner: string)
    ensures Mailbox(rows + [e], owner) ==
              if e.value.owner == owner then Insert(e.value.task, Mailbox(rows, owner), NotOlder) else Mailbox(rows, owner)
  {
    assert (rows + [e])[..|rows + [e]| - 1] == rows;
  }

  lemma FilterOne(rows: Rows, e: Entry<string, Stored>)
    ensures Filter(rows + [e], SettledRow()) ==
              if Settled(e.value.task) then Filter(rows, SettledRow()) + [e] else Filter(rows, SettledRow())
  {
    FilterAppend(rows, [e], SettledRow());
    assert [e][1..] == [];
  }

  /** The settled tasks of a mailbox are the mailbox of the settled rows. */
  lemma {:induction false} SettledMailbox(rows: Rows, owner: string)
    ensures Filter(Mailbox(rows, owner), SettledTask()) == Mailbox(Filter(rows, SettledRow()), owner)
  {
    if rows != [] {
      var last, earlier := rows[|rows| - 1], rows[..|rows| - 1];
      SettledMailbox(earlier, owner);
      assert rows == earlier + [last];
      FilterOne(earlier, last);
      MailboxSnoc(earlier, last, owner);
      MailboxSnoc(Filter(earlier, SettledRow()), last, owner);
      NotOlderOrders();
      MailboxSorted(earlier, owner);
      FilterInsert(last.value.task, Mailbox(earlier, owner), NotOlder, SettledTask());
    }
  }

  lemma {:induction false} SubseqMailbox(rows: Rows, later: Rows, owner: string)
    requires Subseq(rows, later)
    ensures Subseq(Mailbox(rows, owner), Mailbox(later, owner))
    decreases |later|
  {
    if later != [] {
      var last, earlier := later[|later| - 1], later[..|later| - 1];
      SubseqSnoc(rows, later);
      NotOlderOrders();
      MailboxSorted(earlier, owner);
      if Subseq(rows, earlier) {
        SubseqMailbox(rows, earlier, owner);
        SubseqInsertRight(last.value.task, Mailbox(earlier, owner), NotOlder);
        if last.value.owner == owner {
          SubseqTrans(Mailbox(rows, owner), Mailbox(earlier, owner), Mailbox(later, owner));
        }
      } else {
        SubseqMailbox(rows[..|rows| - 1], earlier, owner);
        SubseqInsertBoth(last.value.task, Mailbox(rows[..|rows| - 1], owner), Mailbox(earlier, owner), NotOlder);
      }
    }
  }

  lemma BoxesAreDated(rows: Rows, later: Rows, ida: string, idb: string)
    requires WellDated(rows) && WellDated(later)
    ensures OpenLast(Boxes(Mailbox(rows, ida), Mailbox(later, idb)), SettledTask())
  {
    var x := Boxes(Mailbox(rows, ida), Mailbox(later, idb));
    forall t | t in x.a + x.b ensures Dated(t) {
      MailboxHolds(rows, ida, t);
      MailboxHolds(later, idb, t);
    }
  }

  lemma OwnersApart(rows: Rows, ida: string, idb: string, t: Task)
    requires Consistent(rows) && ida != idb && t in Mailbox(rows, ida)
    ensures t !in Mailbox(rows, idb)
  {
    MailboxHolds(rows, ida, t);
    MailboxHolds(rows, idb, t);
    var e :| e in rows && e.value == Stored(ida, t);
    var i :| 0 <= i < |rows| && rows[i] == e;
    forall j | 0 <= j < |rows| ensures rows[j].value != Stored(idb, t) {
      assert rows[j] in rows;
      assert i < j ==> rows[i].key != rows[j].key;
      assert j < i ==> rows[j].key != rows[i].key;
    }
  }

  lemma LogLastsInStep(log: Log, k: nat, owner: string)
    requires LogLastsAt(log, k)
    ensures IsBox(Mailbox(log(k), owner)) && IsBox(Mailbox(log(k + 1), owner))
    ensures Subseq(Filter(Mailbox(log(k), owner), SettledTask()), Filter(Mailbox(log(k + 1), owner), SettledTask()))
  {
    MailboxIsBox(log(k), owner);
    MailboxIsBox(log(k + 1), owner);
    SettledMailbox(log(k), owner);
    SettledMailbox(log(k + 1), owner);
    SubseqMailbox(Filter(log(k), SettledRow()), Filter(log(k + 1), SettledRow()), owner);
  }

  /** From a fetch of a mailbox to the next one of the same mailbox. */
  lemma LogLastsInTwo(log: Log, k: nat, owner: string)
    requires LogLastsAt(log, k) && LogLastsAt(log, k + 1)
    ensures IsBox(Mailbox(log(k), owner)) && IsBox(Mailbox(log(k + 2), owner))
    ensures Subseq(Filter(Mailbox(log(k), owner), SettledTask()), Filter(Mailbox(log(k + 2), owner), SettledTask()))
  {
    LogLastsInStep(log, k, owner);
    LogLastsInStep(log, k + 1, owner);
    SubseqTrans(Filter(Mailbox(log(k), owner), SettledTask()), Filter(Mailbox(log(k + 1), owner), SettledTask()),
                Filter(Mailbox(log(k + 2), owner), SettledTask()));
  }

  /** A settled task of one mailbox is still there at the second fetch, and so not in the other. */
  lemma SettledApart(log: Log, k: nat, ida: string, idb: string, t: Task)
    requires LogLastsAt(log, k) && ida != idb && t in Mailbox(log(k), ida) && Settled(t)
    ensures t !in Mailbox(log(k + 1), idb)
  {
    LogLastsInStep(log, k, ida);
    FilterHolds(Mailbox(log(k), ida), SettledTask(), t);
    SubseqIn(Filter(Mailbox(log(k), ida), SettledTask()), Filter(Mailbox(log(k + 1), ida), SettledTask()), t);
    FilterHolds(Mailbox(log(k + 1), ida), SettledTask(), t);
    OwnersApart(log(k + 1), ida, idb, t);
  }

  lemma RequestLasts(log: Log, k: nat, ida: string, idb: string)
    requires LogLasts(log) && ida != idb
    ensures LastsAt(HistoryOf(log, ida, idb), SettledTask(), k)
  {
    var j: nat := 2 * k;
    assert LogLastsAt(log, j) && LogLastsAt(log, j + 1) && LogLastsAt(log, j + 2);
    LogLastsInTwo(log, j, ida);
    LogLastsInTwo(log, j + 1, idb);
    BoxesAreDated(log(j), log(j + 1), ida, idb);
    BoxesAreDated(log(j + 2), log(j + 3), ida, idb);
  }

  /** What a live store does to two mailboxes while they are read is what the readings tolerate. */
  lemma LogIsLasting(log: Log, ida: string, idb: string)
    requires LogLasts(log) && ida != idb
    ensures Lasting(HistoryOf(log, ida, idb), SettledTask()) && KeptApart(HistoryOf(log, ida, idb), SettledTask())
  {
    var h := HistoryOf(log, ida, idb);
    forall k: nat ensures LastsAt(h, SettledTask(), k) && KeptApartAt(h, SettledTask(), k) {
      RequestLasts(log, k, ida, idb);
      assert LogLastsAt(log, 2 * k);
      forall t | t in h(k).a && Settled(t) ensures t !in h(k).b {
        SettledApart(log, 2 * k, ida, idb, t);
      }
    }
  }

  /** The hub as a caller's client reaches it, answering the k-th request from the rows of its two fetches. */
  function HubServer(sdk: Sdk, foreign: Foreign, log: Log, user: string, requested: nat): Server {
    (k: nat, token: string) =>
      ReplyTo(ListBetween(sdk, foreign, FirstRows(log, k), SecondRows(log, k), Context(user, NO_OVERRIDE), token, requested))
  }

  ghost predicate SameServer(s: Server, t: Server) {
    forall k: nat, token: string :: s(k, token) == t(k, token)
  }

  lemma {:induction false} SameTokens(s: Server, t: Server, k: nat)
    requires SameServer(s, t)
    ensures TokenAt(s, k) == TokenAt(t, k) && ReplyAt(s, k) == ReplyAt(t, k) && Gathered(s, k) == Gathered(t, k)
  {
    if k > 0 {
      SameTokens(s, t, k - 1);
    }
  }

  lemma SameStop(s: Server, t: Server, n: nat, maxPages: int)
    requires SameServer(s, t)
    ensures MustStop(s, n, maxPages) == MustStop(t, n, maxPages)
  {
    forall j: nat ensures TokenAt(s, j) == TokenAt(t, j) {
      SameTokens(s, t, j);
    }
  }

  lemma SameWalk(s: Server, t: Server, maxPages: int, requests: nat, o: Outcome)
    requires SameServer(s, t) && Walk(s, maxPages, requests, o)
    ensures Walk(t, maxPages, requests, o)
  {
    forall k | 1 <= k < requests ensures GoesOn(t, k, maxPages) {
      assert GoesOn(s, k, maxPages);
      SameTokens(s, t, k - 1);
      SameStop(s, t, k, maxPages);
    }
    SameTokens(s, t, requests - 1);
    SameTokens(s, t, requests);
    SameStop(s, t, requests, maxPages);
  }

  lemma SessionPage(sdk: Sdk, foreign: Foreign, rows: Rows, later: Rows, user: string, token: string, requested: nat)
    requires Session(user)
    ensures ListBetween(sdk, foreign, rows, later, Context(user, NO_OVERRIDE), token, requested) ==
              TwoMailboxPage(sdk, foreign, token, requested, user, Mailbox(rows, user),
                             PrincipalOf(user), Mailbox(later, PrincipalOf(user)))
  {
    SessionReads(user);
    ReadsOwnMailboxes(Context(user, NO_OVERRIDE), user);
    ReadsOwnMailboxes(Context(user, NO_OVERRIDE), PrincipalOf(user));
  }

  lemma HubReply(sdk: Sdk, foreign: Foreign, log: Log, user: string, requested: nat, k: nat, token: string)
    ensures HubServer(sdk, foreign, log, user, requested)(k, token) ==
              ReplyTo(ListBetween(sdk, foreign, FirstRows(log, k), SecondRows(log, k), Context(user, NO_OVERRIDE), token,
                                  requested))
  {
  }

  lemma ReaderReply(r: Reader, log: Log, k: nat, token: string)
    ensures ServerOf(r, HistoryOf(log, r.ida, r.idb))(k, token) ==
              ReplyTo(TwoMailboxPage(r.sdk, r.foreign, token, r.requested, r.ida, Mailbox(FirstRows(log, k), r.ida),
                                     r.idb, Mailbox(SecondRows(log, k), r.idb)))
  {
  }

  lemma SessionReply(r: Reader, log: Log, k: nat, token: string)
    requires Session(r.ida) && r.idb == PrincipalOf(r.ida)
    ensures HubServer(r.sdk, r.foreign, log, r.ida, r.requested)(k, token) ==
              ServerOf(r, HistoryOf(log, r.ida, r.idb))(k, token)
  {
    HubReply(r.sdk, r.foreign, log, r.ida, r.requested, k, token);
    ReaderReply(r, log, k, token);
    SessionPage(r.sdk, r.foreign, FirstRows(log, k), SecondRows(log, k), r.ida, token, r.requested);
  }

  lemma SessionServer(sdk: Sdk, foreign: Foreign, log: Log, user: string, requested: nat)
    requires Session(user)
    ensures var r := Reader(sdk, foreign, user, PrincipalOf(user), requested);
            SameServer(HubServer(sdk, foreign, log, user, requested), ServerOf(r, HistoryOf(log, user, PrincipalOf(user))))
  {
    var r := Reader(sdk, foreign, user, PrincipalOf(user), requested);
    var server, other := HubServer(sdk, foreign, log, user, requested), ServerOf(r, HistoryOf(log, user, PrincipalOf(user)));
    forall k: nat, token: string ensures server(k, token) == other(k, token) {
      SessionReply(r, log, k, token);
    }
  }

  /** Every walk of a session over a live store, in terms of the places of its reading. */
  lemma SessionWalk(sdk: Sdk, foreign: Foreign, log: Log, user: string, requested: nat, maxPages: int, requests: nat,
                    o: Outcome)
    requires sdk.Valid() && LogLasts(log) && Session(user)
    requires Walk(HubServer(sdk, foreign, log, user, requested), maxPages, requests, o)
    ensures var r := Reader(sdk, foreign, user, PrincipalOf(user), requested);
            EndsAtPlaces(r, HistoryOf(log, user, PrincipalOf(user)), requests, o)
  {
    var r, h := Reader(sdk, foreign, user, PrincipalOf(user), requested), HistoryOf(log, user, PrincipalOf(user));
    SessionReads(user);
    SessionServer(sdk, foreign, log, user, requested);
    SameWalk(HubServer(sdk, foreign, log, user, requested), ServerOf(r, h), maxPages, requests, o);
    LogIsLasting(log, user, PrincipalOf(user));
    LastingIsBoxed(h, SettledTask());
    WalkOverPlaces(r, h, maxPages, requests, o);
  }

  lemma SettledAtFirst(log: Log, user: string, e: Entry<string, Stored>)
    requires LogLasts(log) && e in log(0) && Settled(e.value.task) && e.value.owner in [user, PrincipalOf(user)]
    ensures var x := HistoryOf(log, user, PrincipalOf(user))(0); e.value.task in x.a || e.value.task in x.b
  {
    assert LogLastsAt(log, 0);
    FilterHolds(log(0), SettledRow(), e);
    SubseqIn(Filter(log(0), SettledRow()), Filter(log(1), SettledRow()), e);
    FilterHolds(log(1), SettledRow(), e);
    MailboxHolds(log(0), e.value.owner, e.value.task);
    MailboxHolds(log(1), e.value.owner, e.value.task);
  }

  /**
   End to end, over a live store: a read that is not marked incomplete holds every settled task
   that was in either mailbox when it began.
   */
  lemma NothingIsMissed(sdk: Sdk, foreign: Foreign, log: Log, user: string, requested: nat, maxPages: int,
                        requests: nat, o: Outcome, e: Entry<string, Stored>)
    requires sdk.Valid() && LogLasts(log) && Session(user)
    requires Walk(HubServer(sdk, foreign, log, user, requested), maxPages, requests, o) && o.Listed?
    requires e in log(0) && Settled(e.value.task) && e.value.owner in [user, PrincipalOf(user)]
    ensures o.listing.total == |Mailbox(log(0), user)| + |Mailbox(log(1), PrincipalOf(user))|
    ensures !o.listing.incomplete ==> e.value.task in o.listing.tasks
  {
    var r, h := Reader(sdk, foreign, user, PrincipalOf(user), requested), HistoryOf(log, user, PrincipalOf(user));
    SessionReads(user);
    SessionWalk(sdk, foreign, log, user, requested, maxPages, requests, o);
    LogIsLasting(log, user, PrincipalOf(user));
    SettledAtFirst(log, user, e);
    if !o.listing.incomplete {
      AtLeastOnce(r, h, SettledTask(), requests, e.value.task);
    }
  }

  /**
   End to end, at rest: a finished read holds exactly the tasks for which "is it mine" answers,
   as many as the mailboxes hold together.
   */
  lemma ReadIsMine(sdk: Sdk, foreign: Foreign, rows: Rows, user: string, requested: nat, maxPages: int,
                   requests: nat, o: Outcome, t: Task)
    requires sdk.Valid() && Consistent(rows) && Session(user) && maxPages >= 1
    requires Walk(HubServer(sdk, foreign, (k: nat) => rows, user, requested), maxPages, requests, o)
    ensures o.Listed?
    ensures !o.listing.incomplete ==>
              && (t in o.listing.tasks <==> Mine(rows, Context(user, NO_OVERRIDE), t.id) == Some(t))
              && multiset(o.listing.tasks) == multiset(Mailbox(rows, user)) + multiset(Mailbox(rows, PrincipalOf(user)))
  {
    var principal := PrincipalOf(user);
    var r, x := Reader(sdk, foreign, user, principal, requested), Boxes(Mailbox(rows, user), Mailbox(rows, principal));
    var log: Log := (k: nat) => rows;
    SessionReads(user);
    SessionServer(sdk, foreign, log, user, requested);
    SameWalk(HubServer(sdk, foreign, log, user, requested), ServerOf(r, Still(x)), maxPages, requests, o);
    MailboxIsBox(rows, user);
    MailboxIsBox(rows, principal);
    Conclusions.QuiescentRead(r, x, maxPages, requests, o);
    MineIsListed(rows, user, t.id, t);
    assert t in o.listing.tasks <==> t in multiset(o.listing.tasks);
    assert t in multiset(x.a) + multiset(x.b) <==> t in x.a || t in x.b;
  }
}
