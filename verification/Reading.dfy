/** Reading two mailboxes to the end: what is handed out, in how many pages, and what the client may conclude. */
module Reading {
  import opened Client
  import opened Cursors
  import opened Drain
  import opened Exactness
  import opened Paging
  import opened Places
  import opened Repeats
  import opened Sorting
  import opened Tasks

  /** Nothing is delivered while the mailboxes are read. */
  function Still(x: Boxes): History {
    (k: nat) => x
  }

  lemma StillGrows(x: Boxes)
    requires IsBox(x.a) && IsBox(x.b)
    ensures Growing(Still(x))
  {
    forall k: nat ensures GrowsAt(Still(x), k) {
    }
  }

  // How many pages

  function Monus(x: nat, p: nat): nat {
    if x <= p then 0 else x - p
  }

  function Min(x: int, y: int): int {
    if x <= y then x else y
  }

  /** Pages of one batch: two exactly when the two SDK pages together exceed one page. */
  function BatchPages(x: nat, y: nat, p: nat): nat {
    if Min(x, p) + Min(y, p) > p then 2 else 1
  }

  function LaterCount(x: nat, y: nat, p: nat): nat
    requires p >= 1
    decreases x + y
  {
    if x == 0 && y == 0 then 0 else BatchPages(x, y, p) + LaterCount(Monus(x, p), Monus(y, p), p)
  }

  /** Pages of a whole drain of `x` and `y` tasks, `p` to a page. */
  function PageCount(x: nat, y: nat, p: nat): nat
    requires p >= 1
  {
    BatchPages(x, y, p) + LaterCount(Monus(x, p), Monus(y, p), p)
  }

  lemma {:induction false} LaterLength(r: Reader, sa: seq<Task>, sb: seq<Task>, totals: map<string, int>)
    ensures |LaterLegs(r, sa, sb, totals)| == LaterCount(|sa|, |sb|, r.p)
    decreases |sa| + |sb|
  {
    if sa != [] || sb != [] {
      DropsShrink(sa, sb, r.p);
      BatchSize(r, sa, sb);
      LaterLength(r, Drop(sa, r.p), Drop(sb, r.p), totals);
    }
  }

  /** The page count is the sum over batches of 1 or 2. */
  lemma DrainLength(r: Reader, h: History)
    ensures var x, y := h(0), h(1);
            |DrainLegs(r, h)| ==
              if BatchPages(|x.a|, |x.b|, r.p) == 1 then PageCount(|x.a|, |x.b|, r.p)
              else 2 + LaterCount(Monus(|y.a|, r.p), Monus(|y.b|, r.p), r.p)
  {
    var x, y, totals := h(0), h(1), Totals(r, h(0));
    BatchSize(r, x.a, x.b);
    if |Batch(r, x.a, x.b)| <= r.p {
      LaterLength(r, Drop(x.a, r.p), Drop(x.b, r.p), totals);
    } else {
      LaterLength(r, Drop(y.a, r.p), Drop(y.b, r.p), totals);
    }
  }

  lemma {:induction false} LaterCountBound(x: nat, y: nat, p: nat, q: nat)
    requires p >= 1 && x <= q * p && y <= q * p
    ensures LaterCount(x, y, p) <= 2 * q
    decreases x + y
  {
    if x != 0 || y != 0 {
      assert q >= 1;
      assert (q - 1) * p == q * p - p;
      LaterCountBound(Monus(x, p), Monus(y, p), p, q - 1);
    }
  }

  /** If `q` pages would hold either mailbox, `2 * q` pages drain both. */
  lemma PageCountBound(x: nat, y: nat, p: nat, q: nat)
    requires p >= 1 && q >= 1 && x <= q * p && y <= q * p
    ensures 1 <= PageCount(x, y, p) <= 2 * q
  {
    assert (q - 1) * p == q * p - p;
    LaterCountBound(Monus(x, p), Monus(y, p), p, q - 1);
  }

  // What is handed out

  ghost predicate NoEmptyWindow(legs: seq<Leg>) {
    forall leg | leg in legs :: leg.window != []
  }

  lemma {:induction false} LaterNotEmpty(r: Reader, sa: seq<Task>, sb: seq<Task>, totals: map<string, int>)
    ensures NoEmptyWindow(LaterLegs(r, sa, sb, totals))
    decreases |sa| + |sb|
  {
    if sa != [] || sb != [] {
      DropsShrink(sa, sb, r.p);
      BatchSize(r, sa, sb);
      LaterNotEmpty(r, Drop(sa, r.p), Drop(sb, r.p), totals);
    }
  }

  /** No page is empty unless both mailboxes are. */
  lemma DrainNotEmpty(r: Reader, h: History)
    requires Growing(h) && (h(0).a != [] || h(0).b != [])
    ensures NoEmptyWindow(DrainLegs(r, h))
  {
    var x, y, totals := h(0), h(1), Totals(r, h(0));
    BatchSize(r, x.a, x.b);
    if |Batch(r, x.a, x.b)| <= r.p {
      LaterNotEmpty(r, Drop(x.a, r.p), Drop(x.b, r.p), totals);
    } else {
      assert GrowsAt(h, 0);
      SuffixMeans(x.a, y.a);
      SuffixMeans(x.b, y.b);
      BatchSize(r, y.a, y.b);
      LaterNotEmpty(r, Drop(y.a, r.p), Drop(y.b, r.p), totals);
    }
  }

  lemma {:induction false} ShortReadIsShorter(legs: seq<Leg>, n: nat)
    requires NoEmptyWindow(legs) && n < |legs|
    ensures |Flatten(legs[..n])| < |Flatten(legs)|
  {
    assert legs[0] in legs;
    if n > 0 {
      ShortReadIsShorter(legs[1..], n - 1);
      assert legs[..n][1..] == legs[1..][..n - 1];
    }
  }

  /** The batch's two pages when the second is cut from a batch fetched again. */
  lemma SplitFlattens(r: Reader, h: History)
    requires |Batch(r, h(0).a, h(0).b)| > r.p
    ensures var x, y, totals := h(0), h(1), Totals(r, h(0));
            Flatten(DrainLegs(r, h)) ==
              Take(Batch(r, x.a, x.b), r.p)
              + (Drop(Batch(r, y.a, y.b), r.p) + Flatten(LaterLegs(r, Drop(y.a, r.p), Drop(y.b, r.p), totals)))
  {
    var x, y, totals := h(0), h(1), Totals(r, h(0));
    var second := Leg(Cursor(map[], r.p, totals), Drop(Batch(r, y.a, y.b), r.p));
    var legs := LaterLegs(r, Drop(y.a, r.p), Drop(y.b, r.p), totals);
    FlattenCons(second, legs);
    FlattenCons(Leg(START, Batch(r, x.a, x.b)[..r.p]), [second] + legs);
  }

  /** What a whole first batch and the rest hold. */
  lemma RestContent(r: Reader, x: Boxes, totals: map<string, int>)
    ensures multiset(Batch(r, x.a, x.b) + Flatten(LaterLegs(r, Drop(x.a, r.p), Drop(x.b, r.p), totals)))
              == multiset(x.a) + multiset(x.b)
  {
    LaterContent(r, Drop(x.a, r.p), Drop(x.b, r.p), totals);
    MergeKeeps(Take(x.a, r.p), Take(x.b, r.p), NotOlder);
    TakeDrop(x.a, r.p);
    TakeDrop(x.b, r.p);
  }

  /** Quiescent, the drain is the first batch and then the rest, however it is cut. */
  lemma StillFlattens(r: Reader, x: Boxes)
    ensures Flatten(DrainLegs(r, Still(x))) ==
              Batch(r, x.a, x.b) + Flatten(LaterLegs(r, Drop(x.a, r.p), Drop(x.b, r.p), Totals(r, x)))
  {
    if |Batch(r, x.a, x.b)| <= r.p {
      WholeFlattens(r, Still(x));
    } else {
      SplitFlattens(r, Still(x));
      Rejoin(Batch(r, x.a, x.b), r.p, Flatten(LaterLegs(r, Drop(x.a, r.p), Drop(x.b, r.p), Totals(r, x))));
    }
  }

  lemma Rejoin(m: seq<Task>, p: nat, rest: seq<Task>)
    ensures Take(m, p) + (Drop(m, p) + rest) == m + rest
  {
    TakeDrop(m, p);
    assert Take(m, p) + (Drop(m, p) + rest) == (Take(m, p) + Drop(m, p)) + rest;
  }

  /** Exactly once: nothing lost, nothing twice, and each mailbox in its own order. */
  lemma ExactlyOnce(r: Reader, x: Boxes)
    ensures multiset(Flatten(DrainLegs(r, Still(x)))) == multiset(x.a) + multiset(x.b)
    ensures |Flatten(DrainLegs(r, Still(x)))| == |x.a| + |x.b|
  {
    StillFlattens(r, x);
    RestContent(r, x, Totals(r, x));
    MultisetSize(Flatten(DrainLegs(r, Still(x))), x);
  }

  lemma MultisetSize(s: seq<Task>, x: Boxes)
    requires multiset(s) == multiset(x.a) + multiset(x.b)
    ensures |s| == |x.a| + |x.b|
  {
    assert |multiset(s)| == |s|;
  }

  lemma OrderKept(r: Reader, x: Boxes, keep: Task -> bool)
    ensures Selects(keep, x.a, x.b) ==> Filter(Flatten(DrainLegs(r, Still(x))), keep) == x.a
    ensures Selects(keep, x.b, x.a) ==> Filter(Flatten(DrainLegs(r, Still(x))), keep) == x.b
  {
    var da, db := Drop(x.a, r.p), Drop(x.b, r.p);
    var rest := Flatten(LaterLegs(r, da, db, Totals(r, x)));
    StillFlattens(r, x);
    LaterOrder(r, da, db, Totals(r, x), keep);
    MergeProjects(Take(x.a, r.p), Take(x.b, r.p), NotOlder, keep);
    FilterAppend(Batch(r, x.a, x.b), rest, keep);
    TakeDrop(x.a, r.p);
    TakeDrop(x.b, r.p);
    if Selects(keep, x.a, x.b) {
      assert Selects(keep, Take(x.a, r.p), Take(x.b, r.p)) && Selects(keep, da, db);
    }
    if Selects(keep, x.b, x.a) {
      assert Selects(keep, Take(x.b, r.p), Take(x.a, r.p)) && Selects(keep, db, da);
    }
  }

  /** The first page is the newest page of both mailboxes together, not of a batch only. */
  lemma FirstPageIsNewest(r: Reader, h: History)
    ensures DrainLegs(r, h)[0].window == Take(Merge(h(0).a, h(0).b, NotOlder), r.p)
  {
    var x := h(0);
    TakeMerge(x.a, x.b, r.p, r.p, r.p, NotOlder);
    BatchSize(r, x.a, x.b);
  }

  // Delivery while reading

  lemma WholeFlattens(r: Reader, h: History)
    requires |Batch(r, h(0).a, h(0).b)| <= r.p
    ensures var x := h(0);
            Flatten(DrainLegs(r, h)) ==
              Batch(r, x.a, x.b) + Flatten(LaterLegs(r, Drop(x.a, r.p), Drop(x.b, r.p), Totals(r, x)))
  {
    var x := h(0);
    FlattenCons(Leg(START, Batch(r, x.a, x.b)), LaterLegs(r, Drop(x.a, r.p), Drop(x.b, r.p), Totals(r, x)));
  }

  /** The boxes that decide how much a drain hands out: those of its first batch's last request. */
  function Decisive(r: Reader, h: History): Boxes {
    if |Batch(r, h(0).a, h(0).b)| <= r.p then h(0) else h(1)
  }

  lemma Recut(m0: seq<Task>, m1: seq<Task>, p: nat, rest: seq<Task>)
    requires |m0| >= p && |m1| >= p
    ensures |Take(m0, p) + (Drop(m1, p) + rest)| == |m1 + rest|
  {
  }

  /** Each task that arrives before a re-fetched first batch adds one to what is handed out. */
  lemma HandedOut(r: Reader, h: History)
    requires Growing(h)
    ensures |Flatten(DrainLegs(r, h))| == |Decisive(r, h).a| + |Decisive(r, h).b|
  {
    var x, y, totals := h(0), h(1), Totals(r, h(0));
    if |Batch(r, x.a, x.b)| <= r.p {
      WholeFlattens(r, h);
      RestContent(r, x, totals);
      MultisetSize(Flatten(DrainLegs(r, h)), x);
    } else {
      var rest := Flatten(LaterLegs(r, Drop(y.a, r.p), Drop(y.b, r.p), totals));
      RefetchIsLarger(r, h);
      SplitFlattens(r, h);
      RestContent(r, y, totals);
      MultisetSize(Batch(r, y.a, y.b) + rest, y);
      Recut(Batch(r, x.a, x.b), Batch(r, y.a, y.b), r.p, rest);
    }
  }

  lemma RefetchIsLarger(r: Reader, h: History)
    requires Growing(h)
    ensures |Batch(r, h(0).a, h(0).b)| <= |Batch(r, h(1).a, h(1).b)|
  {
    assert GrowsAt(h, 0);
    SuffixMeans(h(0).a, h(1).a);
    SuffixMeans(h(0).b, h(1).b);
    BatchSize(r, h(0).a, h(0).b);
    BatchSize(r, h(1).a, h(1).b);
  }

  /**
   When tasks arrive in front only, exactly once is lost precisely if one arrives between the two pages
   of a split first batch.
   */
  lemma ExactlyOnceInFrontIff(r: Reader, h: History)
    requires Growing(h)
    ensures multiset(Flatten(DrainLegs(r, h))) == multiset(h(0).a) + multiset(h(0).b) <==> Decisive(r, h) == h(0)
  {
    var x, y := h(0), h(1);
    assert GrowsAt(h, 0);
    SuffixMeans(x.a, y.a);
    SuffixMeans(x.b, y.b);
    HandedOut(r, h);
    if Decisive(r, h) == x {
      assert DrainLegs(r, h) == DrainLegs(r, Still(x));
      ExactlyOnce(r, x);
    } else if multiset(Flatten(DrainLegs(r, h))) == multiset(x.a) + multiset(x.b) {
      MultisetSize(Flatten(DrainLegs(r, h)), x);
    }
  }

  // The client

  lemma LegAnswered(server: Server, legs: seq<Leg>, total: int, k: nat)
    requires Answers(server, 0, legs, total) && k < |legs|
    ensures AnswersLeg(server, k, legs[k], total)
  {
    AnswersAt(server, legs, total, k);
    assert legs[k..][0] == legs[k];
  }

  lemma LegsEnd(server: Server, legs: seq<Leg>, total: int)
    requires Answers(server, 0, legs, total)
    ensures TokenAt(server, |legs|) == ""
  {
    AnswersAt(server, legs, total, |legs|);
  }

  lemma WalkEnds(server: Server, legs: seq<Leg>, total: int, maxPages: int, requests: nat, o: Outcome)
    requires Answers(server, 0, legs, total) && legs != [] && FreshTokens(server, |legs|) && maxPages >= 1
    requires Walk(server, maxPages, requests, o)
    ensures requests == Min(|legs|, maxPages)
  {
    WalkIsBounded(server, maxPages, requests, o);
    LegsEnd(server, legs, total);
    if requests > |legs| {
      WalkGoesOn(server, maxPages, requests, |legs|);
    } else {
      LegAnswered(server, legs, total, requests - 1);
      assert MustStop(server, requests, maxPages);
    }
  }

  lemma WalkResult(server: Server, legs: seq<Leg>, total: int, maxPages: int, requests: nat, o: Outcome)
    requires Answers(server, 0, legs, total) && legs != [] && FreshTokens(server, |legs|) && maxPages >= 1
    requires Walk(server, maxPages, requests, o)
    ensures requests == Min(|legs|, maxPages)
    ensures o == Listed(Listing(Flatten(legs[..requests]), total, requests, |legs| > maxPages))
  {
    WalkEnds(server, legs, total, maxPages, requests, o);
    LegAnswered(server, legs, total, requests - 1);
    LegsEnd(server, legs, total);
    AnswersAt(server, legs, total, requests);
  }

  lemma DrainIsAnswered(r: Reader, h: History, legs: seq<Leg>, total: int)
    requires r.Valid() && Growing(h) && legs == DrainLegs(r, h) && total == Sum(r, Totals(r, h(0)))
    ensures Answers(ServerOf(r, h), 0, legs, total)
  {
    DrainFollowsLegs(r, h);
    ClientFollows(r, h, 0, legs, total);
  }

  /** Every walk over these mailboxes, for any cap, in terms of the drain's legs. */
  lemma WalkOverLegs(r: Reader, h: History, maxPages: int, requests: nat, o: Outcome)
    requires r.Valid() && Growing(h) && maxPages >= 1
    requires Walk(ServerOf(r, h), maxPages, requests, o)
    ensures var n := |DrainLegs(r, h)|;
            && requests == Min(n, maxPages)
            && o == Listed(Listing(Flatten(DrainLegs(r, h)[..requests]), |h(0).a| + |h(0).b|, requests, n > maxPages))
  {
    var legs, total := DrainLegs(r, h), Sum(r, Totals(r, h(0)));
    DrainIsAnswered(r, h, legs, total);
    DrainIsFresh(r, h);
    WalkResult(ServerOf(r, h), legs, total, maxPages, requests, o);
  }

  /** Arriving in front is arriving. */
  lemma FrontGains(h: History)
    requires Growing(h)
    ensures Gaining(h)
  {
    forall k: nat ensures GainsAt(h, k) {
      assert GrowsAt(h, k) && GrowsAt(h, k + 1);
      SuffixIsSubseq(h(k).a, h(k + 1).a);
      SuffixIsSubseq(h(k).b, h(k + 1).b);
    }
  }

  lemma {:induction false} SuffixIsSubseq(s: seq<Task>, t: seq<Task>)
    requires IsSuffix(s, t)
    ensures Subseq(s, t)
  {
    if s == t {
      SubseqRefl(s);
    } else {
      SuffixIsSubseq(s, t[1..]);
    }
  }

  /** What is served from request `k` on puts the reader at a place there, and is served on from `k + 1`. */
  ghost predicate Onwards(served: (nat, seq<Leg>) -> bool, on: nat -> bool, k: nat, legs: seq<Leg>) {
    served(k, legs) && legs != [] ==> on(k) && served(k + 1, legs[1..])
  }

  lemma {:induction false} OnAlong(served: (nat, seq<Leg>) -> bool, on: nat -> bool, legs: seq<Leg>, j: nat, k: nat)
    requires forall i: nat, some: seq<Leg> :: Onwards(served, on, i, some)
    requires served(j, legs) && j <= k < j + |legs|
    ensures on(k)
    decreases legs
  {
    assert Onwards(served, on, j, legs);
    if j < k {
      OnAlong(served, on, legs[1..], j + 1, k);
    }
  }

  function HasCursor(r: Reader, h: History): nat -> bool {
    (k: nat) => CursorTrace(r, h, k).Some?
  }

  lemma ServedHasCursor(r: Reader, h: History, k: nat, legs: seq<Leg>, total: int)
    requires Serves(r, h, k, legs, total) && legs != []
    ensures HasCursor(r, h)(k) && Serves(r, h, k + 1, legs[1..], total)
  {
  }

  lemma LegsHaveCursors(r: Reader, h: History, legs: seq<Leg>, total: int, k: nat)
    requires Serves(r, h, 0, legs, total) && k < |legs|
    ensures HasCursor(r, h)(k)
  {
    var served := (i: nat, some: seq<Leg>) => Serves(r, h, i, some, total);
    forall i: nat, some: seq<Leg> ensures Onwards(served, HasCursor(r, h), i, some) {
      if Serves(r, h, i, some, total) && some != [] {
        ServedHasCursor(r, h, i, some, total);
      }
    }
    OnAlong(served, HasCursor(r, h), legs, 0, k);
  }

  lemma LegsAreOnWay(r: Reader, h: History, legs: seq<Leg>, total: int, k: nat)
    requires r.Valid() && Boxed(h) && Serves(r, h, 0, legs, total) && k < |legs|
    ensures PlaceAt(r, h, k).Some?
  {
    LegsHaveCursors(r, h, legs, total, k);
    CursorsArePlaces(r, h, k);
  }

  lemma DrainIsFresh(r: Reader, h: History)
    requires r.Valid() && Growing(h)
    ensures FreshTokens(ServerOf(r, h), |DrainLegs(r, h)|)
  {
    var legs, total := DrainLegs(r, h), Sum(r, Totals(r, h(0)));
    FrontGains(h);
    GainingLasts(h);
    DrainFollowsLegs(r, h);
    forall k | 0 <= k < |legs| ensures PlaceAt(r, h, k).Some? {
      LegsAreOnWay(r, h, legs, total, k);
    }
    GainingIsSure(r, h, |legs|);
    TokensAreFresh(r, h, Every(), |legs|);
  }
}
