/**
 The task store (`store.py`): the SDK's single-mailbox store, and on top of it the hub's
 two-mailbox reads with their merged, paginated listing.
 */
module Store {
  import opened Cursors
  import opened Identity
  import opened Sorting
  import opened Tables
  import opened Tasks
  import opened Wrappers

  /** The caller, and the owner a delivery in progress has pinned. */
  datatype Context = Context(user: string, override: Option<string>)

  predicate Pinned(context: Context) {
    context.override.Some? && context.override.value != ""
  }

  /** The owner the SDK saves under and reads. */
  function OwnerResolver(context: Context): string {
    if Pinned(context) then context.override.value else context.user
  }

  function ReadOwners(context: Context): seq<string> {
    if Pinned(context) then [context.override.value] else MailboxesOf(context.user)
  }

  function ContextFor(context: Context, owner: string): Context {
    context.(override := Some(owner))
  }

  datatype Stored = Stored(owner: string, task: Task)
  type Rows = seq<Entry<string, Stored>>

  // The SDK's own store, one owner at a time. Its token for a task id is not visible here: it
  // is a parameter that can be read back, is never empty and never the exhausted marker.

  const EXHAUSTED := "-"
  const DEFAULT_PAGE_SIZE: nat := 50

  /** `page_size or DEFAULT`. */
  function EffectiveSize(requested: nat): (p: nat)
    ensures p >= 1
  {
    if requested == 0 then DEFAULT_PAGE_SIZE else requested
  }

  datatype Sdk = Sdk(tokenOf: string -> string, idOf: string -> string) {
    ghost predicate Valid() {
      forall id :: tokenOf(id) != "" && tokenOf(id) != EXHAUSTED && idOf(tokenOf(id)) == id
    }
  }

  datatype ListError = InvalidPageToken

  datatype SdkPage = SdkPage(tasks: seq<Task>, total: int, next: string)

  /** One owner's tasks, newest first. */
  function Mailbox(rows: Rows, owner: string): seq<Task> {
    if rows == [] then []
    else
      var last := rows[|rows| - 1].value;
      var earlier := Mailbox(rows[..|rows| - 1], owner);
      if last.owner == owner then Insert(last.task, earlier, NotOlder) else earlier
  }

  function Position(sdk: Sdk, box: seq<Task>, token: string): (i: nat)
    ensures i <= |box|
    ensures i < |box| ==> sdk.tokenOf(box[i].id) == token
    ensures i == |box| ==> forall t | t in box :: sdk.tokenOf(t.id) != token
  {
    if box == [] then 0
    else if sdk.tokenOf(box[0].id) == token then 0
    else 1 + Position(sdk, box[1..], token)
  }

  /** The SDK's page: a token names the first task of the page it stands for. */
  function SdkList(sdk: Sdk, box: seq<Task>, token: string, pageSize: nat): Result<SdkPage, ListError> {
    var p := EffectiveSize(pageSize);
    var start := if token == "" then 0 else Position(sdk, box, token);
    if token != "" && start == |box| then Err(InvalidPageToken)
    else
      var rest := box[start..];
      Ok(SdkPage(Take(rest, p), |box|, if p < |rest| then sdk.tokenOf(rest[p].id) else ""))
  }

  function SdkGet(rows: Rows, taskId: string, owner: string): Option<Task> {
    match Lookup(rows, taskId)
    case Some(stored) => if stored.owner == owner then Some(stored.task) else None
    case None => None
  }

  // The merged listing, as a function of the two mailboxes.

  datatype Page = Page(tasks: seq<Task>, total: int, next: string)

  /** A merged page before its cursor is made opaque; `None` means nothing is left. */
  datatype HubPage = HubPage(tasks: seq<Task>, total: int, next: Option<Cursor>)

  function Fetch(sdk: Sdk, box: seq<Task>, token: string, p: nat): Result<SdkPage, ListError> {
    if token == EXHAUSTED then Ok(SdkPage([], 0, "")) else SdkList(sdk, box, token, p)
  }

  function TokenFor(cursor: Cursor, owner: string): string {
    if owner in cursor.tokens then cursor.tokens[owner] else ""
  }

  function TotalFor(cursor: Cursor, owner: string, response: SdkPage): int {
    if owner in cursor.totals then cursor.totals[owner] else response.total
  }

  function Forward(response: SdkPage): string {
    if response.next == "" then EXHAUSTED else response.next
  }

  function Window(tasks: seq<Task>, skip: nat, p: nat): seq<Task> {
    Take(Drop(tasks, skip), p)
  }

  /** Where the listing goes after a window of a batch of `size` tasks: on in it, past it, or nowhere. */
  function NextCursor(cursor: Cursor, p: nat, size: nat, ida: string, fa: string, idb: string, fb: string,
                      totals: map<string, int>): Option<Cursor>
  {
    if cursor.skip + p < size then Some(Cursor(cursor.tokens, cursor.skip + p, totals))
    else if fa == EXHAUSTED && fb == EXHAUSTED then None
    else Some(Cursor(map[ida := fa, idb := fb], 0, totals))
  }

  function MergedPage(cursor: Cursor, p: nat, ida: string, ra: SdkPage, idb: string, rb: SdkPage): HubPage
    requires cursor.skip >= 0
  {
    var tasks := Sort(ra.tasks + rb.tasks, NotOlder);
    var totals := map[ida := TotalFor(cursor, ida, ra), idb := TotalFor(cursor, idb, rb)];
    HubPage(Window(tasks, cursor.skip, p), totals[ida] + totals[idb],
            NextCursor(cursor, p, |tasks|, ida, Forward(ra), idb, Forward(rb), totals))
  }

  function PageOf(sdk: Sdk, cursor: Cursor, p: nat, ida: string, a: seq<Task>, idb: string, b: seq<Task>)
    : Result<HubPage, ListError>
    requires cursor.skip >= 0
  {
    match Fetch(sdk, a, TokenFor(cursor, ida), p)
    case Err(e) => Err(e)
    case Ok(ra) =>
      match Fetch(sdk, b, TokenFor(cursor, idb), p)
      case Err(e) => Err(e)
      case Ok(rb) => Ok(MergedPage(cursor, p, ida, ra, idb, rb))
  }

  function Opaque(page: HubPage): Page {
    Page(page.tasks, page.total, if page.next.None? then "" else Encode(page.next.value))
  }

  /** One page of the two mailboxes `ida` and `idb`, whose contents are `a` and `b`. */
  function TwoMailboxPage(sdk: Sdk, foreign: Foreign, token: string, pageSize: nat,
                          ida: string, a: seq<Task>, idb: string, b: seq<Task>): Result<Page, ListError>
  {
    var p := EffectiveSize(pageSize);
    match PageOf(sdk, Decode(foreign, token), p, ida, a, idb, b)
    case Err(e) => Err(e)
    case Ok(page) => Ok(Opaque(page))
  }

  /** The mailbox a read for `owner` really reaches. */
  function BoxOf(rows: Rows, context: Context, owner: string): seq<Task> {
    Mailbox(rows, OwnerResolver(ContextFor(context, owner)))
  }

  /** One call of the listing, from the rows its first fetch finds and those its second does. */
  function ListBetween(sdk: Sdk, foreign: Foreign, rows: Rows, later: Rows, context: Context, token: string, pageSize: nat)
    : Result<Page, ListError>
  {
    var owners := ReadOwners(context);
    var a := BoxOf(rows, context, owners[0]);
    if |owners| == 1 then
      match SdkList(sdk, a, token, pageSize)
      case Err(e) => Err(e)
      case Ok(r) => Ok(Page(r.tasks, r.total, r.next))
    else
      TwoMailboxPage(sdk, foreign, token, pageSize, owners[0], a, owners[1], BoxOf(later, context, owners[1]))
  }

  function ListPage(sdk: Sdk, foreign: Foreign, rows: Rows, context: Context, token: string, pageSize: nat)
    : Result<Page, ListError>
  {
    ListBetween(sdk, foreign, rows, rows, context, token, pageSize)
  }

  /** "Is it mine": the task, if one of the caller's mailboxes holds it. */
  function Mine(rows: Rows, context: Context, taskId: string): Option<Task> {
    var owners := ReadOwners(context);
    match SdkGet(rows, taskId, OwnerResolver(ContextFor(context, owners[0])))
    case Some(t) => Some(t)
    case None => if |owners| == 1 then None else SdkGet(rows, taskId, OwnerResolver(ContextFor(context, owners[1])))
  }

  /** The sender fallback, which never answers while a delivery is in progress. */
  function AsSender(rows: Rows, context: Context, taskId: string): Option<Task> {
    if Pinned(context) then None
    else match Lookup(rows, taskId)
      case None => None
      case Some(stored) => if SenderOf(stored.task) == Some(context.user) then Some(stored.task) else None
  }

  /** "May I read it": mine, or sent by me. */
  function MayRead(rows: Rows, context: Context, taskId: string): Option<Task> {
    var task := Mine(rows, context, taskId);
    if task.Some? then task else AsSender(rows, context, taskId)
  }

  /** The store itself. */
  class HubTaskStore {
    const sdk: Sdk
    const foreign: Foreign
    var rows: Rows

    constructor (sdk: Sdk, foreign: Foreign)
      ensures this.sdk == sdk && this.foreign == foreign && rows == []
    {
      this.sdk := sdk;
      this.foreign := foreign;
      this.rows := [];
    }

    /** Saves under the owner resolved now; a task saved before moves with its row. */
    method Save(task: Task, context: Context)
      modifies this
      ensures rows == Put(old(rows), task.id, Stored(OwnerResolver(context), task))
    {
      rows := Put(rows, task.id, Stored(OwnerResolver(context), task));
    }

    method GetFromMailbox(taskId: string, context: Context) returns (r: Option<Task>)
      ensures r == Mine(rows, context, taskId)
    {
      var owners := ReadOwners(context);
      for i := 0 to |owners|
        invariant forall j | 0 <= j < i :: SdkGet(rows, taskId, OwnerResolver(ContextFor(context, owners[j]))) == None
      {
        var task := SdkGet(rows, taskId, OwnerResolver(ContextFor(context, owners[i])));
        if task.Some? {
          return task;
        }
      }
      return None;
    }

    method GetAsSender(taskId: string, context: Context) returns (r: Option<Task>)
      ensures r == AsSender(rows, context, taskId)
    {
      if Pinned(context) {
        return None;
      }
      var row := Lookup(rows, taskId);
      if row.None? {
        return None;
      }
      return if SenderOf(row.value.task) == Some(context.user) then Some(row.value.task) else None;
    }

    method Get(taskId: string, context: Context) returns (r: Option<Task>)
      ensures r == MayRead(rows, context, taskId)
    {
      r := GetFromMailbox(taskId, context);
      if r.None? {
        r := GetAsSender(taskId, context);
      }
    }

    method List(token: string, requested: nat, context: Context) returns (r: Result<Page, ListError>)
      ensures r == ListPage(sdk, foreign, rows, context, token, requested)
    {
      var owners := ReadOwners(context);
      if |owners| == 1 {
        var single := SdkList(sdk, BoxOf(rows, context, owners[0]), token, requested);
        if single.Err? {
          return Err(single.error);
        }
        return Ok(Page(single.value.tasks, single.value.total, single.value.next));
      }

      var pageSize := EffectiveSize(requested);
      var cursor := Decode(foreign, token);
      var fetched := FetchAll(owners, cursor, pageSize, context);
      if fetched.Err? {
        return Err(fetched.error);
      }
      var page := MergeResponses(owners, fetched.value, cursor, pageSize);
      return Ok(page);
    }

    /** One SDK page per mailbox, except for those already read to the end. */
    method FetchAll(owners: seq<string>, cursor: Cursor, pageSize: nat, context: Context)
      returns (r: Result<map<string, SdkPage>, ListError>)
      requires |owners| == 2 && owners[0] != owners[1]
      ensures var ra := Fetch(sdk, BoxOf(rows, context, owners[0]), TokenFor(cursor, owners[0]), pageSize);
              var rb := Fetch(sdk, BoxOf(rows, context, owners[1]), TokenFor(cursor, owners[1]), pageSize);
              r == if ra.Err? then Err(ra.error) else if rb.Err? then Err(rb.error)
                   else Ok(map[owners[0] := ra.value, owners[1] := rb.value])
    {
      ghost var ra := Fetch(sdk, BoxOf(rows, context, owners[0]), TokenFor(cursor, owners[0]), pageSize);
      ghost var rb := Fetch(sdk, BoxOf(rows, context, owners[1]), TokenFor(cursor, owners[1]), pageSize);
      var responses: map<string, SdkPage> := map[];
      for i := 0 to |owners|
        invariant i > 0 ==> ra.Ok?
        invariant i > 1 ==> rb.Ok?
        invariant responses == if i == 0 then map[] else if i == 1 then map[owners[0] := ra.value]
                               else map[owners[0] := ra.value, owners[1] := rb.value]
      {
        var fetched := FetchOne(owners[i], cursor, pageSize, context);
        if fetched.Err? {
          return Err(fetched.error);
        }
        responses := responses[owners[i] := fetched.value];
      }
      return Ok(responses);
    }

    method FetchOne(owner: string, cursor: Cursor, pageSize: nat, context: Context) returns (r: Result<SdkPage, ListError>)
      ensures r == Fetch(sdk, BoxOf(rows, context, owner), TokenFor(cursor, owner), pageSize)
    {
      var token := TokenFor(cursor, owner);
      if token == EXHAUSTED {
        return Ok(SdkPage([], 0, ""));
      }
      r := SdkList(sdk, BoxOf(rows, context, owner), token, pageSize);
    }

    /** Sorts what was fetched, hands out this page's window and steps the cursor. */
    method MergeResponses(owners: seq<string>, responses: map<string, SdkPage>, cursor: Cursor, pageSize: nat)
      returns (page: Page)
      requires |owners| == 2 && owners[0] != owners[1] && cursor.skip >= 0
      requires responses.Keys == {owners[0], owners[1]}
      ensures page == Opaque(MergedPage(cursor, pageSize, owners[0], responses[owners[0]], owners[1], responses[owners[1]]))
    {
      ghost var ra, rb := responses[owners[0]], responses[owners[1]];
      ghost var na, nb := TotalFor(cursor, owners[0], ra), TotalFor(cursor, owners[1], rb);
      var tasks: seq<Task>, total, totals, forward := [], 0, map[], map[];
      var more := false;
      for i := 0 to 2
        invariant tasks == if i == 0 then [] else if i == 1 then ra.tasks else ra.tasks + rb.tasks
        invariant totals == if i == 0 then map[] else if i == 1 then map[owners[0] := na]
                            else map[owners[0] := na, owners[1] := nb]
        invariant forward == if i == 0 then map[] else if i == 1 then map[owners[0] := Forward(ra)]
                             else map[owners[0] := Forward(ra), owners[1] := Forward(rb)]
        invariant total == if i == 0 then 0 else if i == 1 then na else na + nb
        invariant more <==> (i > 0 && Forward(ra) != EXHAUSTED) || (i == 2 && Forward(rb) != EXHAUSTED)
      {
        var owner := owners[i];
        tasks := tasks + responses[owner].tasks;
        totals := totals[owner := TotalFor(cursor, owner, responses[owner])];
        total := total + totals[owner];
        forward := forward[owner := Forward(responses[owner])];
        more := more || forward[owner] != EXHAUSTED;
      }
      tasks := Sort(tasks, NotOlder);

      var next := "";
      if cursor.skip + pageSize < |tasks| {
        next := Encode(Cursor(cursor.tokens, cursor.skip + pageSize, totals));
      } else if more {
        next := Encode(Cursor(forward, 0, totals));
      }
      return Page(Window(tasks, cursor.skip, pageSize), total, next);
    }
  }
}
