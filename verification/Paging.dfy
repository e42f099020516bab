/**
 A drain of two mailboxes in closed form, and the proof that following the opaque tokens is
 that drain. A `Leg` is one page with the cursor that asks for it.

 The mailboxes may grow while they are read: `history(k)` is what the k-th request sees. New
 tasks arrive in front, so what is left to read is always a suffix of each mailbox.
 */
module Paging {
  import opened Client
  import opened Cursors
  import opened Sorting
  import opened Store
  import opened Tasks
  import opened Wrappers

  datatype Boxes = Boxes(a: seq<Task>, b: seq<Task>)

  type History = nat -> Boxes

  /** Who reads what: the SDK, the two owners and the page size asked for. */
  datatype Reader = Reader(sdk: Sdk, foreign: Foreign, ida: string, idb: string, requested: nat) {
    const p: nat := EffectiveSize(requested)

    ghost predicate Valid() {
      sdk.Valid() && ida != idb
    }
  }

  function ServerOf(r: Reader, h: History): Server {
    (k: nat, token: string) =>
      ReplyTo(TwoMailboxPage(r.sdk, r.foreign, token, r.requested, r.ida, h(k).a, r.idb, h(k).b))
  }

  predicate IsSuffix<T(==)>(s: seq<T>, t: seq<T>) {
    s == t || (t != [] && IsSuffix(s, t[1..]))
  }

  lemma {:induction false} SuffixMeans<T>(s: seq<T>, t: seq<T>)
    ensures IsSuffix(s, t) <==> |s| <= |t| && t[|t| - |s|..] == s
  {
    if s == t {
    } else if t != [] {
      SuffixMeans(s, t[1..]);
      if |s| < |t| {
        assert t[1..][|t| - 1 - |s|..] == t[|t| - |s|..];
      }
    }
  }

  lemma {:induction false} SuffixOfSuffix<T>(s: seq<T>, t: seq<T>, u: seq<T>)
    requires IsSuffix(s, t) && IsSuffix(t, u)
    ensures IsSuffix(s, u)
  {
    if t != u {
      SuffixOfSuffix(s, t, u[1..]);
    }
  }

  lemma DropIsSuffix<T>(s: seq<T>, n: nat)
    ensures IsSuffix(Drop(s, n), s)
  {
    SuffixMeans(Drop(s, n), s);
  }

  ghost predicate GrowsAt(h: History, k: nat) {
    && IsBox(h(k).a) && IsBox(h(k).b)
    && IsSuffix(h(k).a, h(k + 1).a) && IsSuffix(h(k).b, h(k + 1).b)
  }

  ghost predicate Growing(h: History) {
    forall k: nat :: GrowsAt(h, k)
  }

  /** The token that stands for an unread suffix. */
  function NameOf(sdk: Sdk, s: seq<Task>): string {
    if s == [] then EXHAUSTED else sdk.tokenOf(s[0].id)
  }

  function TokenOf(c: Cursor): string {
    if c == START then "" else Encode(c)
  }

  function CursorAt(r: Reader, sa: seq<Task>, sb: seq<Task>, skip: int, totals: map<string, int>): Cursor {
    Cursor(map[r.ida := NameOf(r.sdk, sa), r.idb := NameOf(r.sdk, sb)], skip, totals)
  }

  function Batch(r: Reader, sa: seq<Task>, sb: seq<Task>): seq<Task> {
    Merge(Take(sa, r.p), Take(sb, r.p), NotOlder)
  }

  datatype Leg = Leg(cursor: Cursor, window: seq<Task>)

  function LaterLegs(r: Reader, sa: seq<Task>, sb: seq<Task>, totals: map<string, int>): seq<Leg>
    decreases |sa| + |sb|
  {
    if sa == [] && sb == [] then []
    else
      var m := Batch(r, sa, sb);
      var rest := LaterLegs(r, Drop(sa, r.p), Drop(sb, r.p), totals);
      if |m| <= r.p then [Leg(CursorAt(r, sa, sb, 0, totals), m)] + rest
      else [Leg(CursorAt(r, sa, sb, 0, totals), m[..r.p])] + ([Leg(CursorAt(r, sa, sb, r.p, totals), m[r.p..])] + rest)
  }

  function Sum(r: Reader, totals: map<string, int>): int
    requires r.ida in totals && r.idb in totals
  {
    totals[r.ida] + totals[r.idb]
  }

  function Totals(r: Reader, x: Boxes): map<string, int> {
    map[r.ida := |x.a|, r.idb := |x.b|]
  }

  /**
   The whole drain. The second page of the first batch is cut from a batch fetched again, from
   mailboxes that may have grown since.
   */
  function DrainLegs(r: Reader, h: History): seq<Leg> {
    var x, y, totals := h(0), h(1), Totals(r, h(0));
    var m := Batch(r, x.a, x.b);
    if |m| <= r.p then
      [Leg(START, m)] + LaterLegs(r, Drop(x.a, r.p), Drop(x.b, r.p), totals)
    else
      [Leg(START, m[..r.p])]
      + ([Leg(Cursor(map[], r.p, totals), Drop(Batch(r, y.a, y.b), r.p))]
         + LaterLegs(r, Drop(y.a, r.p), Drop(y.b, r.p), totals))
  }

  function Flatten(legs: seq<Leg>): seq<Task> {
    if legs == [] then [] else legs[0].window + Flatten(legs[1..])
  }

  /** The cursor behind the token of the k-th request of a drain; `None` once nothing is left. */
  function CursorTrace(r: Reader, h: History, k: nat): Option<Cursor>
    decreases k, 0
  {
    if k == 0 then Some(START)
    else match PageTrace(r, h, k - 1)
      case Some(page) => page.next
      case None => None
  }

  function PageTrace(r: Reader, h: History, k: nat): Option<HubPage>
    decreases k, 1
  {
    match CursorTrace(r, h, k)
    case None => None
    case Some(c) =>
      if c.skip < 0 then None
      else match PageOf(r.sdk, c, r.p, r.ida, h(k).a, r.idb, h(k).b)
        case Ok(page) => Some(page)
        case Err(_) => None
  }

  /** The k-th request asks for this leg and gets it, with the cursor of the next request. */
  ghost predicate ServesLeg(r: Reader, h: History, k: nat, leg: Leg, total: int) {
    && CursorTrace(r, h, k) == Some(leg.cursor)
    && PageTrace(r, h, k) == Some(HubPage(leg.window, total, CursorTrace(r, h, k + 1)))
  }

  /** From request `k` on, the hub serves exactly these legs and then says nothing is left. */
  ghost predicate Serves(r: Reader, h: History, k: nat, legs: seq<Leg>, total: int)
    decreases legs
  {
    if legs == [] then CursorTrace(r, h, k) == None
    else ServesLeg(r, h, k, legs[0], total) && Serves(r, h, k + 1, legs[1..], total)
  }

  // One request

  /** `token` makes the SDK read `s` out of `box`. */
  ghost predicate Reads(sdk: Sdk, box: seq<Task>, token: string, s: seq<Task>) {
    (token == "" && s == box) || (token == NameOf(sdk, s) && IsSuffix(s, box))
  }

  lemma FetchReads(sdk: Sdk, box: seq<Task>, token: string, s: seq<Task>, p: nat)
    requires sdk.Valid() && IsBox(box) && p >= 1 && Reads(sdk, box, token, s)
    ensures var page := Fetch(sdk, box, token, p);
            && page.Ok?
            && page.value.tasks == Take(s, p)
            && Forward(page.value) == NameOf(sdk, Drop(s, p))
            && (token == "" ==> page.value.total == |box|)
  {
    if token != "" && s != [] {
      SuffixMeans(s, box);
      var i := |box| - |s|;
      assert box[i] == s[0];
      assert sdk.tokenOf(box[i].id) == token;
      var j := Position(sdk, box, token);
      assert box[i] in box;
      assert box[j].id == box[i].id;
    }
  }

  function TotalsAfter(r: Reader, c: Cursor, x: Boxes): map<string, int> {
    map[r.ida := if r.ida in c.totals then c.totals[r.ida] else |x.a|,
        r.idb := if r.idb in c.totals then c.totals[r.idb] else |x.b|]
  }

  function PageFor(r: Reader, c: Cursor, x: Boxes, sa: seq<Task>, sb: seq<Task>): HubPage
    requires c.skip >= 0
  {
    var m, totals := Batch(r, sa, sb), TotalsAfter(r, c, x);
    HubPage(Window(m, c.skip, r.p), Sum(r, totals),
            NextCursor(c, r.p, |m|, r.ida, NameOf(r.sdk, Drop(sa, r.p)), r.idb, NameOf(r.sdk, Drop(sb, r.p)), totals))
  }

  /** The page for a cursor that reads `sa` and `sb`: a window of their merge. */
  lemma PageReads(r: Reader, c: Cursor, x: Boxes, sa: seq<Task>, sb: seq<Task>)
    requires r.Valid() && IsBox(x.a) && IsBox(x.b) && c.skip >= 0
    requires Reads(r.sdk, x.a, TokenFor(c, r.ida), sa) && Reads(r.sdk, x.b, TokenFor(c, r.idb), sb)
    requires r.ida in c.totals || TokenFor(c, r.ida) == ""
    requires r.idb in c.totals || TokenFor(c, r.idb) == ""
    ensures PageOf(r.sdk, c, r.p, r.ida, x.a, r.idb, x.b) == Ok(PageFor(r, c, x, sa, sb))
  {
    FetchReads(r.sdk, x.a, TokenFor(c, r.ida), sa, r.p);
    FetchReads(r.sdk, x.b, TokenFor(c, r.idb), sb, r.p);
    BatchIsSort(r, x, TokenFor(c, r.ida), sa, TokenFor(c, r.idb), sb);
    var ra := Fetch(r.sdk, x.a, TokenFor(c, r.ida), r.p).value;
    var rb := Fetch(r.sdk, x.b, TokenFor(c, r.idb), r.p).value;
    assert map[r.ida := TotalFor(c, r.ida, ra), r.idb := TotalFor(c, r.idb, rb)] == TotalsAfter(r, c, x);
  }

  lemma BatchIsSort(r: Reader, x: Boxes, ta: string, sa: seq<Task>, tb: string, sb: seq<Task>)
    requires IsBox(x.a) && IsBox(x.b) && Reads(r.sdk, x.a, ta, sa) && Reads(r.sdk, x.b, tb, sb)
    ensures Sort(Take(sa, r.p) + Take(sb, r.p), NotOlder) == Batch(r, sa, sb)
  {
    NotOlderOrders();
    SuffixSorted(x.a, sa);
    SuffixSorted(x.b, sb);
    SortedTake(sa, r.p);
    SortedTake(sb, r.p);
    SortOfTwoRuns(Take(sa, r.p), Take(sb, r.p), NotOlder);
  }

  lemma {:induction false} SuffixSorted(box: seq<Task>, s: seq<Task>)
    requires Sorted(box, NotOlder) && IsSuffix(s, box)
    ensures Sorted(s, NotOlder)
  {
    if s != box {
      assert forall i | 0 <= i < |box[1..]| :: box[1..][i] == box[i + 1];
      SuffixSorted(box[1..], s);
    }
  }

  lemma SortedTake(s: seq<Task>, p: nat)
    requires Sorted(s, NotOlder)
    ensures Sorted(Take(s, p), NotOlder)
  {
  }

  lemma NameIsExhausted(sdk: Sdk, s: seq<Task>)
    requires sdk.Valid()
    ensures NameOf(sdk, s) == EXHAUSTED <==> s == []
    ensures NameOf(sdk, s) != ""
  {
  }

  // From one request to the next

  /** The cursor handed out when a batch is finished and `sa`, `sb` are left. */
  function CursorAfter(r: Reader, sa: seq<Task>, sb: seq<Task>, totals: map<string, int>): Option<Cursor> {
    if sa == [] && sb == [] then None else Some(CursorAt(r, sa, sb, 0, totals))
  }

  lemma BatchSize(r: Reader, sa: seq<Task>, sb: seq<Task>)
    ensures |Batch(r, sa, sb)| == |Take(sa, r.p)| + |Take(sb, r.p)| <= 2 * r.p
  {
    MergeKeeps(Take(sa, r.p), Take(sb, r.p), NotOlder);
  }

  lemma LeftToRead(h: History, k: nat, sa: seq<Task>, sb: seq<Task>, p: nat)
    requires Growing(h) && IsSuffix(sa, h(k).a) && IsSuffix(sb, h(k).b)
    ensures IsSuffix(sa, h(k + 1).a) && IsSuffix(sb, h(k + 1).b)
    ensures IsSuffix(Drop(sa, p), h(k + 1).a) && IsSuffix(Drop(sb, p), h(k + 1).b)
  {
    assert GrowsAt(h, k);
    SuffixOfSuffix(sa, h(k).a, h(k + 1).a);
    SuffixOfSuffix(sb, h(k).b, h(k + 1).b);
    DropIsSuffix(sa, p);
    DropIsSuffix(sb, p);
    SuffixOfSuffix(Drop(sa, p), sa, h(k + 1).a);
    SuffixOfSuffix(Drop(sb, p), sb, h(k + 1).b);
  }

  lemma HalfPage(r: Reader, c: Cursor, x: Boxes, sa: seq<Task>, sb: seq<Task>)
    requires c.skip == 0 && |Batch(r, sa, sb)| > r.p
    ensures var totals := TotalsAfter(r, c, x);
            PageFor(r, c, x, sa, sb) ==
              HubPage(Batch(r, sa, sb)[..r.p], Sum(r, totals), Some(Cursor(c.tokens, r.p, totals)))
  {
    assert Window(Batch(r, sa, sb), 0, r.p) == Batch(r, sa, sb)[..r.p];
  }

  lemma LastPage(r: Reader, c: Cursor, x: Boxes, sa: seq<Task>, sb: seq<Task>)
    requires r.Valid() && c.skip >= 0 && |Batch(r, sa, sb)| <= c.skip + r.p
    ensures var totals := TotalsAfter(r, c, x);
            PageFor(r, c, x, sa, sb) ==
              HubPage(Drop(Batch(r, sa, sb), c.skip), Sum(r, totals), CursorAfter(r, Drop(sa, r.p), Drop(sb, r.p), totals))
  {
    assert Window(Batch(r, sa, sb), c.skip, r.p) == Drop(Batch(r, sa, sb), c.skip);
    NameIsExhausted(r.sdk, Drop(sa, r.p));
    NameIsExhausted(r.sdk, Drop(sb, r.p));
  }

  lemma PageServed(r: Reader, h: History, k: nat, c: Cursor, sa: seq<Task>, sb: seq<Task>)
    requires r.Valid() && Growing(h) && c.skip >= 0
    requires CursorTrace(r, h, k) == Some(c)
    requires Reads(r.sdk, h(k).a, TokenFor(c, r.ida), sa) && Reads(r.sdk, h(k).b, TokenFor(c, r.idb), sb)
    requires r.ida in c.totals || TokenFor(c, r.ida) == ""
    requires r.idb in c.totals || TokenFor(c, r.idb) == ""
    ensures PageTrace(r, h, k) == Some(PageFor(r, c, h(k), sa, sb))
    ensures CursorTrace(r, h, k + 1) == PageFor(r, c, h(k), sa, sb).next
  {
    assert GrowsAt(h, k);
    PageReads(r, c, h(k), sa, sb);
  }

  /** A page inside a batch: its cursor asks for the rest of the same batch. */
  lemma FirstHalfServed(r: Reader, h: History, k: nat, c: Cursor, sa: seq<Task>, sb: seq<Task>, totals: map<string, int>)
    requires r.Valid() && Growing(h) && c.skip == 0
    requires CursorTrace(r, h, k) == Some(c)
    requires Reads(r.sdk, h(k).a, TokenFor(c, r.ida), sa) && Reads(r.sdk, h(k).b, TokenFor(c, r.idb), sb)
    requires r.ida in c.totals || TokenFor(c, r.ida) == ""
    requires r.idb in c.totals || TokenFor(c, r.idb) == ""
    requires TotalsAfter(r, c, h(k)) == totals && |Batch(r, sa, sb)| > r.p
    ensures CursorTrace(r, h, k + 1) == Some(Cursor(c.tokens, r.p, totals))
    ensures PageTrace(r, h, k) ==
              Some(HubPage(Batch(r, sa, sb)[..r.p], Sum(r, totals), CursorTrace(r, h, k + 1)))
  {
    PageServed(r, h, k, c, sa, sb);
    HalfPage(r, c, h(k), sa, sb);
  }

  /** The last page of a batch: its cursor carries both mailboxes forward. */
  lemma BatchServed(r: Reader, h: History, k: nat, c: Cursor, sa: seq<Task>, sb: seq<Task>, totals: map<string, int>)
    requires r.Valid() && Growing(h) && 0 <= c.skip <= r.p
    requires CursorTrace(r, h, k) == Some(c)
    requires Reads(r.sdk, h(k).a, TokenFor(c, r.ida), sa) && Reads(r.sdk, h(k).b, TokenFor(c, r.idb), sb)
    requires r.ida in c.totals || TokenFor(c, r.ida) == ""
    requires r.idb in c.totals || TokenFor(c, r.idb) == ""
    requires TotalsAfter(r, c, h(k)) == totals && |Batch(r, sa, sb)| <= c.skip + r.p
    ensures CursorTrace(r, h, k + 1) == CursorAfter(r, Drop(sa, r.p), Drop(sb, r.p), totals)
    ensures PageTrace(r, h, k) ==
              Some(HubPage(Drop(Batch(r, sa, sb), c.skip), Sum(r, totals), CursorTrace(r, h, k + 1)))
  {
    PageServed(r, h, k, c, sa, sb);
    LastPage(r, c, h(k), sa, sb);
  }

  lemma LaterReads(r: Reader, x: Boxes, sa: seq<Task>, sb: seq<Task>, skip: int, totals: map<string, int>)
    requires r.Valid() && totals.Keys == {r.ida, r.idb}
    requires IsSuffix(sa, x.a) && IsSuffix(sb, x.b)
    ensures var c := CursorAt(r, sa, sb, skip, totals);
            && Reads(r.sdk, x.a, TokenFor(c, r.ida), sa) && Reads(r.sdk, x.b, TokenFor(c, r.idb), sb)
            && TotalsAfter(r, c, x) == totals
  {
  }

  /** Past the first batch: what one batch's requests see and leave, in one page or in two. */
  lemma LaterWhole(r: Reader, h: History, k: nat, sa: seq<Task>, sb: seq<Task>, totals: map<string, int>)
    requires r.Valid() && Growing(h) && totals.Keys == {r.ida, r.idb}
    requires IsSuffix(sa, h(k).a) && IsSuffix(sb, h(k).b) && |Batch(r, sa, sb)| <= r.p
    requires CursorTrace(r, h, k) == Some(CursorAt(r, sa, sb, 0, totals))
    ensures ServesLeg(r, h, k, Leg(CursorAt(r, sa, sb, 0, totals), Batch(r, sa, sb)), Sum(r, totals))
    ensures CursorTrace(r, h, k + 1) == CursorAfter(r, Drop(sa, r.p), Drop(sb, r.p), totals)
    ensures IsSuffix(Drop(sa, r.p), h(k + 1).a) && IsSuffix(Drop(sb, r.p), h(k + 1).b)
  {
    LeftToRead(h, k, sa, sb, r.p);
    LaterReads(r, h(k), sa, sb, 0, totals);
    BatchServed(r, h, k, CursorAt(r, sa, sb, 0, totals), sa, sb, totals);
    assert Drop(Batch(r, sa, sb), 0) == Batch(r, sa, sb);
  }

  lemma LaterFirst(r: Reader, h: History, k: nat, sa: seq<Task>, sb: seq<Task>, totals: map<string, int>)
    requires r.Valid() && Growing(h) && totals.Keys == {r.ida, r.idb}
    requires IsSuffix(sa, h(k).a) && IsSuffix(sb, h(k).b) && |Batch(r, sa, sb)| > r.p
    requires CursorTrace(r, h, k) == Some(CursorAt(r, sa, sb, 0, totals))
    ensures ServesLeg(r, h, k, Leg(CursorAt(r, sa, sb, 0, totals), Batch(r, sa, sb)[..r.p]), Sum(r, totals))
    ensures CursorTrace(r, h, k + 1) == Some(CursorAt(r, sa, sb, r.p, totals))
    ensures IsSuffix(sa, h(k + 1).a) && IsSuffix(sb, h(k + 1).b)
  {
    LeftToRead(h, k, sa, sb, r.p);
    LaterReads(r, h(k), sa, sb, 0, totals);
    FirstHalfServed(r, h, k, CursorAt(r, sa, sb, 0, totals), sa, sb, totals);
  }

  lemma LaterSecond(r: Reader, h: History, k: nat, sa: seq<Task>, sb: seq<Task>, totals: map<string, int>)
    requires r.Valid() && Growing(h) && totals.Keys == {r.ida, r.idb}
    requires IsSuffix(sa, h(k).a) && IsSuffix(sb, h(k).b) && |Batch(r, sa, sb)| > r.p
    requires CursorTrace(r, h, k) == Some(CursorAt(r, sa, sb, r.p, totals))
    ensures ServesLeg(r, h, k, Leg(CursorAt(r, sa, sb, r.p, totals), Batch(r, sa, sb)[r.p..]), Sum(r, totals))
    ensures CursorTrace(r, h, k + 1) == CursorAfter(r, Drop(sa, r.p), Drop(sb, r.p), totals)
    ensures IsSuffix(Drop(sa, r.p), h(k + 1).a) && IsSuffix(Drop(sb, r.p), h(k + 1).b)
  {
    BatchSize(r, sa, sb);
    LeftToRead(h, k, sa, sb, r.p);
    LaterReads(r, h(k), sa, sb, r.p, totals);
    BatchServed(r, h, k, CursorAt(r, sa, sb, r.p, totals), sa, sb, totals);
  }

  lemma ServesWhole(r: Reader, h: History, k: nat, leg: Leg, legs: seq<Leg>, total: int)
    requires ServesLeg(r, h, k, leg, total) && Serves(r, h, k + 1, legs, total)
    ensures Serves(r, h, k, [leg] + legs, total)
  {
    assert ([leg] + legs)[1..] == legs;
  }

  lemma DropsShrink(sa: seq<Task>, sb: seq<Task>, p: nat)
    requires p >= 1 && (sa != [] || sb != [])
    ensures |Drop(sa, p)| + |Drop(sb, p)| < |sa| + |sb|
  {
  }

  /** Past the first batch, keyed tokens make the drain blind to deliveries. */
  lemma {:induction false} FollowLater(r: Reader, h: History, k: nat, sa: seq<Task>, sb: seq<Task>, totals: map<string, int>)
    requires r.Valid() && Growing(h) && totals.Keys == {r.ida, r.idb}
    requires IsSuffix(sa, h(k).a) && IsSuffix(sb, h(k).b)
    requires CursorTrace(r, h, k) == CursorAfter(r, sa, sb, totals)
    ensures Serves(r, h, k, LaterLegs(r, sa, sb, totals), Sum(r, totals))
    decreases |sa| + |sb|, 1
  {
    if sa != [] || sb != [] {
      DropsShrink(sa, sb, r.p);
      if |Batch(r, sa, sb)| <= r.p {
        LaterWhole(r, h, k, sa, sb, totals);
        FollowWhole(r, h, k, Leg(CursorAt(r, sa, sb, 0, totals), Batch(r, sa, sb)), Drop(sa, r.p), Drop(sb, r.p), totals);
      } else {
        FollowSplit(r, h, k, sa, sb, totals);
      }
    }
  }

  lemma {:induction false} FollowSplit(r: Reader, h: History, k: nat, sa: seq<Task>, sb: seq<Task>, totals: map<string, int>)
    requires r.Valid() && Growing(h) && totals.Keys == {r.ida, r.idb}
    requires IsSuffix(sa, h(k).a) && IsSuffix(sb, h(k).b) && |Batch(r, sa, sb)| > r.p
    requires CursorTrace(r, h, k) == Some(CursorAt(r, sa, sb, 0, totals))
    requires |Drop(sa, r.p)| + |Drop(sb, r.p)| < |sa| + |sb|
    ensures Serves(r, h, k, LaterLegs(r, sa, sb, totals), Sum(r, totals))
    decreases |sa| + |sb|, 0
  {
    LaterFirst(r, h, k, sa, sb, totals);
    LaterSecond(r, h, k + 1, sa, sb, totals);
    FollowHalves(r, h, k, Leg(CursorAt(r, sa, sb, 0, totals), Batch(r, sa, sb)[..r.p]),
                 Leg(CursorAt(r, sa, sb, r.p, totals), Batch(r, sa, sb)[r.p..]), Drop(sa, r.p), Drop(sb, r.p), totals);
  }

  lemma {:induction false} FollowWhole(r: Reader, h: History, k: nat, leg: Leg, sa: seq<Task>, sb: seq<Task>,
                                       totals: map<string, int>)
    requires r.Valid() && Growing(h) && totals.Keys == {r.ida, r.idb}
    requires ServesLeg(r, h, k, leg, Sum(r, totals))
    requires CursorTrace(r, h, k + 1) == CursorAfter(r, sa, sb, totals)
    requires IsSuffix(sa, h(k + 1).a) && IsSuffix(sb, h(k + 1).b)
    ensures Serves(r, h, k, [leg] + LaterLegs(r, sa, sb, totals), Sum(r, totals))
    decreases |sa| + |sb|, 2
  {
    FollowLater(r, h, k + 1, sa, sb, totals);
    ServesWhole(r, h, k, leg, LaterLegs(r, sa, sb, totals), Sum(r, totals));
  }

  lemma {:induction false} FollowHalves(r: Reader, h: History, k: nat, first: Leg, second: Leg,
                                        sa: seq<Task>, sb: seq<Task>, totals: map<string, int>)
    requires r.Valid() && Growing(h) && totals.Keys == {r.ida, r.idb}
    requires ServesLeg(r, h, k, first, Sum(r, totals)) && ServesLeg(r, h, k + 1, second, Sum(r, totals))
    requires CursorTrace(r, h, k + 2) == CursorAfter(r, sa, sb, totals)
    requires IsSuffix(sa, h(k + 2).a) && IsSuffix(sb, h(k + 2).b)
    ensures Serves(r, h, k, [first] + ([second] + LaterLegs(r, sa, sb, totals)), Sum(r, totals))
    decreases |sa| + |sb|, 3
  {
    FollowWhole(r, h, k + 1, second, sa, sb, totals);
    ServesWhole(r, h, k, first, [second] + LaterLegs(r, sa, sb, totals), Sum(r, totals));
  }

  /** The first batch when one page holds it. */
  lemma FirstWhole(r: Reader, h: History, x: Boxes, totals: map<string, int>)
    requires r.Valid() && Growing(h) && x == h(0) && totals == Totals(r, x) && |Batch(r, x.a, x.b)| <= r.p
    ensures ServesLeg(r, h, 0, Leg(START, Batch(r, x.a, x.b)), Sum(r, totals))
    ensures CursorTrace(r, h, 1) == CursorAfter(r, Drop(x.a, r.p), Drop(x.b, r.p), totals)
    ensures IsSuffix(Drop(x.a, r.p), h(1).a) && IsSuffix(Drop(x.b, r.p), h(1).b)
  {
    LeftToRead(h, 0, x.a, x.b, r.p);
    assert TotalsAfter(r, START, x) == totals;
    BatchServed(r, h, 0, START, x.a, x.b, totals);
    assert Drop(Batch(r, x.a, x.b), 0) == Batch(r, x.a, x.b);
  }

  /** The first batch's first page when two are needed. */
  lemma FirstHalf(r: Reader, h: History, x: Boxes, totals: map<string, int>)
    requires r.Valid() && Growing(h) && x == h(0) && totals == Totals(r, x) && |Batch(r, x.a, x.b)| > r.p
    ensures ServesLeg(r, h, 0, Leg(START, Batch(r, x.a, x.b)[..r.p]), Sum(r, totals))
    ensures CursorTrace(r, h, 1) == Some(Cursor(map[], r.p, totals))
  {
    assert TotalsAfter(r, START, x) == totals;
    FirstHalfServed(r, h, 0, START, x.a, x.b, totals);
  }

  /** Half through the first batch both mailboxes are read from their beginning, with the totals already fixed. */
  lemma HalfReads(r: Reader, y: Boxes, totals: map<string, int>)
    requires totals.Keys == {r.ida, r.idb}
    ensures var half := Cursor(map[], r.p, totals);
            && Reads(r.sdk, y.a, TokenFor(half, r.ida), y.a) && Reads(r.sdk, y.b, TokenFor(half, r.idb), y.b)
            && TotalsAfter(r, half, y) == totals && r.ida in half.totals && r.idb in half.totals
  {
    assert r.ida in totals && r.idb in totals;
  }

  /** The second page of the first batch: fetched again from the front of mailboxes that may have grown. */
  lemma FirstAgain(r: Reader, h: History, y: Boxes, totals: map<string, int>)
    requires r.Valid() && Growing(h) && y == h(1) && totals.Keys == {r.ida, r.idb}
    requires CursorTrace(r, h, 1) == Some(Cursor(map[], r.p, totals))
    ensures ServesLeg(r, h, 1, Leg(Cursor(map[], r.p, totals), Drop(Batch(r, y.a, y.b), r.p)), Sum(r, totals))
    ensures CursorTrace(r, h, 2) == CursorAfter(r, Drop(y.a, r.p), Drop(y.b, r.p), totals)
    ensures IsSuffix(Drop(y.a, r.p), h(2).a) && IsSuffix(Drop(y.b, r.p), h(2).b)
  {
    BatchSize(r, y.a, y.b);
    LeftToRead(h, 1, y.a, y.b, r.p);
    HalfReads(r, y, totals);
    BatchServed(r, h, 1, Cursor(map[], r.p, totals), y.a, y.b, totals);
  }

  /** Following the tokens from the empty one is the drain in closed form, whatever is delivered meanwhile. */
  lemma DrainFollowsLegs(r: Reader, h: History)
    requires r.Valid() && Growing(h)
    ensures Serves(r, h, 0, DrainLegs(r, h), Sum(r, Totals(r, h(0))))
  {
    var x, y, totals := h(0), h(1), Totals(r, h(0));
    if |Batch(r, x.a, x.b)| <= r.p {
      FirstWhole(r, h, x, totals);
      FollowWhole(r, h, 0, Leg(START, Batch(r, x.a, x.b)), Drop(x.a, r.p), Drop(x.b, r.p), totals);
    } else {
      DrainSplit(r, h, x, y, totals);
    }
  }

  lemma SplitIsServed(r: Reader, h: History, y: Boxes, totals: map<string, int>, first: Leg, second: Leg)
    requires r.Valid() && Growing(h) && y == h(1) && totals.Keys == {r.ida, r.idb}
    requires CursorTrace(r, h, 1) == Some(Cursor(map[], r.p, totals)) && ServesLeg(r, h, 0, first, Sum(r, totals))
    requires second == Leg(Cursor(map[], r.p, totals), Drop(Batch(r, y.a, y.b), r.p))
    ensures Serves(r, h, 0, [first] + ([second] + LaterLegs(r, Drop(y.a, r.p), Drop(y.b, r.p), totals)), Sum(r, totals))
  {
    FirstAgain(r, h, y, totals);
    FollowHalves(r, h, 0, first, second, Drop(y.a, r.p), Drop(y.b, r.p), totals);
  }

  lemma DrainSplit(r: Reader, h: History, x: Boxes, y: Boxes, totals: map<string, int>)
    requires r.Valid() && Growing(h) && x == h(0) && y == h(1) && totals == Totals(r, x) && |Batch(r, x.a, x.b)| > r.p
    ensures Serves(r, h, 0, DrainLegs(r, h), Sum(r, totals))
  {
    FirstHalf(r, h, x, totals);
    SplitIsServed(r, h, y, totals, Leg(START, Batch(r, x.a, x.b)[..r.p]),
                  Leg(Cursor(map[], r.p, totals), Drop(Batch(r, y.a, y.b), r.p)));
  }
}
