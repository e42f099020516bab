/** What a drain hands out, and what the client that performs it can therefore conclude. */
module Drain {
  import opened Client
  import opened Cursors
  import opened Paging
  import opened Sorting
  import opened Store
  import opened Tasks
  import opened Wrappers

  // The client's tokens

  ghost predicate AnswersLeg(server: Server, k: nat, leg: Leg, total: int) {
    && TokenAt(server, k) == TokenOf(leg.cursor)
    && ReplyAt(server, k) == Served(Page(leg.window, total, TokenAt(server, k + 1)))
  }

  /** From request `k` on, the walk gets exactly these legs, and then the empty token. */
  ghost predicate Answers(server: Server, k: nat, legs: seq<Leg>, total: int)
    decreases legs
  {
    if legs == [] then TokenAt(server, k) == ""
    else AnswersLeg(server, k, legs[0], total) && Answers(server, k + 1, legs[1..], total)
  }

  function TraceToken(c: Option<Cursor>): string {
    if c.None? then "" else TokenOf(c.value)
  }

  lemma TokenDecodes(foreign: Foreign, c: Cursor)
    requires c.skip >= 0
    ensures Decode(foreign, TokenOf(c)) == c
  {
    if c != START {
      DecodeEncode(foreign, c);
    }
  }

  /** No cursor handed out is the starting one: it always carries the totals. */
  lemma NextIsNotStart(r: Reader, h: History, k: nat)
    requires PageTrace(r, h, k).Some?
    ensures PageTrace(r, h, k).value.next != Some(START)
  {
    var c := CursorTrace(r, h, k).value;
    var ra := Fetch(r.sdk, h(k).a, TokenFor(c, r.ida), r.p).value;
    var rb := Fetch(r.sdk, h(k).b, TokenFor(c, r.idb), r.p).value;
    var totals := map[r.ida := TotalFor(c, r.ida, ra), r.idb := TotalFor(c, r.idb, rb)];
    assert r.ida in totals;
  }

  lemma PageIsOpaque(r: Reader, h: History, k: nat)
    requires PageTrace(r, h, k).Some?
    requires TokenAt(ServerOf(r, h), k) == TraceToken(CursorTrace(r, h, k))
    ensures var page := PageTrace(r, h, k).value;
            && ReplyAt(ServerOf(r, h), k) == Served(Page(page.tasks, page.total, TraceToken(page.next)))
            && TokenAt(ServerOf(r, h), k + 1) == TraceToken(CursorTrace(r, h, k + 1))
  {
    TokenDecodes(r.foreign, CursorTrace(r, h, k).value);
    NextIsNotStart(r, h, k);
  }

  lemma LegIsAnswered(r: Reader, h: History, k: nat, leg: Leg, total: int)
    requires ServesLeg(r, h, k, leg, total)
    requires TokenAt(ServerOf(r, h), k) == TraceToken(CursorTrace(r, h, k))
    ensures AnswersLeg(ServerOf(r, h), k, leg, total)
    ensures TokenAt(ServerOf(r, h), k + 1) == TraceToken(CursorTrace(r, h, k + 1))
  {
    PageIsOpaque(r, h, k);
  }

  lemma {:induction false} ClientFollows(r: Reader, h: History, k: nat, legs: seq<Leg>, total: int)
    requires Serves(r, h, k, legs, total)
    requires TokenAt(ServerOf(r, h), k) == TraceToken(CursorTrace(r, h, k))
    ensures Answers(ServerOf(r, h), k, legs, total)
    decreases legs
  {
    if legs != [] {
      LegIsAnswered(r, h, k, legs[0], total);
      ClientFollows(r, h, k + 1, legs[1..], total);
    }
  }

  lemma AnswersStep(server: Server, k: nat, legs: seq<Leg>, total: int)
    requires Answers(server, k, legs, total) && legs != []
    ensures Answers(server, k + 1, legs[1..], total)
    ensures Gathered(server, k + 1) == Gathered(server, k) + legs[0].window
  {
    assert AnswersLeg(server, k, legs[0], total);
  }

  lemma {:induction false} AnswersFrom(server: Server, legs: seq<Leg>, total: int, j: nat)
    requires Answers(server, 0, legs, total) && j <= |legs|
    ensures Answers(server, j, legs[j..], total)
  {
    if j == 0 {
      assert legs[0..] == legs;
    } else {
      AnswersFrom(server, legs, total, j - 1);
      AnswersStep(server, j - 1, legs[j - 1..], total);
      assert legs[j - 1..][1..] == legs[j..];
    }
  }

  lemma LegGathered(server: Server, legs: seq<Leg>, total: int, k: nat)
    requires Answers(server, 0, legs, total) && k < |legs|
    ensures Gathered(server, k + 1) == Gathered(server, k) + legs[k].window
  {
    AnswersFrom(server, legs, total, k);
    AnswersStep(server, k, legs[k..], total);
  }

  lemma LastOfPrefix(legs: seq<Leg>, j: nat)
    requires 0 < j <= |legs|
    ensures legs[..j] == legs[..j - 1] + [legs[j - 1]]
  {
  }

  lemma {:induction false} GatheredAt(server: Server, legs: seq<Leg>, total: int, j: nat)
    requires Answers(server, 0, legs, total) && j <= |legs|
    ensures Gathered(server, j) == Flatten(legs[..j])
  {
    if j == 0 {
      assert legs[..0] == [];
    } else {
      GatheredAt(server, legs, total, j - 1);
      LegGathered(server, legs, total, j - 1);
      LastOfPrefix(legs, j);
      FlattenSnoc(legs[..j - 1], legs[j - 1]);
    }
  }

  /** The walk's state before its j-th request of a drain that has these legs. */
  lemma AnswersAt(server: Server, legs: seq<Leg>, total: int, j: nat)
    requires Answers(server, 0, legs, total) && j <= |legs|
    ensures Answers(server, j, legs[j..], total)
    ensures Gathered(server, j) == Flatten(legs[..j])
  {
    AnswersFrom(server, legs, total, j);
    GatheredAt(server, legs, total, j);
  }

  lemma {:induction false} FlattenSnoc(legs: seq<Leg>, leg: Leg)
    ensures Flatten(legs + [leg]) == Flatten(legs) + leg.window
  {
    if legs == [] {
      assert Flatten([leg]) == leg.window + Flatten([]);
      assert legs + [leg] == [leg];
    } else {
      FlattenSnoc(legs[1..], leg);
      assert (legs + [leg])[1..] == legs[1..] + [leg];
      assert legs[0].window + (Flatten(legs[1..]) + leg.window) == legs[0].window + Flatten(legs[1..]) + leg.window;
    }
  }

  // What the legs hold

  lemma FlattenCons(leg: Leg, legs: seq<Leg>)
    ensures Flatten([leg] + legs) == leg.window + Flatten(legs)
  {
    assert ([leg] + legs)[1..] == legs;
  }

  lemma FlattenHalves(first: Cursor, second: Cursor, m: seq<Task>, p: nat, legs: seq<Leg>)
    requires p <= |m|
    ensures Flatten([Leg(first, m[..p])] + ([Leg(second, m[p..])] + legs)) == m + Flatten(legs)
  {
    FlattenCons(Leg(second, m[p..]), legs);
    FlattenCons(Leg(first, m[..p]), [Leg(second, m[p..])] + legs);
    assert m[..p] + (m[p..] + Flatten(legs)) == m + Flatten(legs);
  }

  /** A batch's pages, joined, are the batch. */
  lemma BatchFlattens(r: Reader, sa: seq<Task>, sb: seq<Task>, totals: map<string, int>)
    requires sa != [] || sb != []
    ensures Flatten(LaterLegs(r, sa, sb, totals))
              == Batch(r, sa, sb) + Flatten(LaterLegs(r, Drop(sa, r.p), Drop(sb, r.p), totals))
  {
    var rest := LaterLegs(r, Drop(sa, r.p), Drop(sb, r.p), totals);
    if |Batch(r, sa, sb)| <= r.p {
      FlattenCons(Leg(CursorAt(r, sa, sb, 0, totals), Batch(r, sa, sb)), rest);
    } else {
      FlattenHalves(CursorAt(r, sa, sb, 0, totals), CursorAt(r, sa, sb, r.p, totals), Batch(r, sa, sb), r.p, rest);
    }
  }

  lemma TakeDrop<T>(s: seq<T>, n: nat)
    ensures Take(s, n) + Drop(s, n) == s
    ensures multiset(Take(s, n)) + multiset(Drop(s, n)) == multiset(s)
  {
    assert Take(s, n) + Drop(s, n) == s;
  }

  lemma {:induction false} LaterContent(r: Reader, sa: seq<Task>, sb: seq<Task>, totals: map<string, int>)
    ensures multiset(Flatten(LaterLegs(r, sa, sb, totals))) == multiset(sa) + multiset(sb)
    decreases |sa| + |sb|
  {
    if sa != [] || sb != [] {
      DropsShrink(sa, sb, r.p);
      LaterContent(r, Drop(sa, r.p), Drop(sb, r.p), totals);
      BatchFlattens(r, sa, sb, totals);
      MergeKeeps(Take(sa, r.p), Take(sb, r.p), NotOlder);
      TakeDrop(sa, r.p);
      TakeDrop(sb, r.p);
    }
  }

  /** One side of two mailboxes, as a selection of tasks. */
  ghost predicate Selects(keep: Task -> bool, chosen: seq<Task>, other: seq<Task>) {
    (forall x | x in chosen :: keep(x)) && (forall x | x in other :: !keep(x))
  }

  /** Each mailbox comes out in its own order. */
  lemma {:induction false} LaterOrder(r: Reader, sa: seq<Task>, sb: seq<Task>, totals: map<string, int>, keep: Task -> bool)
    ensures Selects(keep, sa, sb) ==> Filter(Flatten(LaterLegs(r, sa, sb, totals)), keep) == sa
    ensures Selects(keep, sb, sa) ==> Filter(Flatten(LaterLegs(r, sa, sb, totals)), keep) == sb
    decreases |sa| + |sb|
  {
    if sa != [] || sb != [] {
      var da, db := Drop(sa, r.p), Drop(sb, r.p);
      var rest := Flatten(LaterLegs(r, da, db, totals));
      DropsShrink(sa, sb, r.p);
      LaterOrder(r, da, db, totals, keep);
      BatchFlattens(r, sa, sb, totals);
      MergeProjects(Take(sa, r.p), Take(sb, r.p), NotOlder, keep);
      FilterAppend(Batch(r, sa, sb), rest, keep);
      TakeDrop(sa, r.p);
      TakeDrop(sb, r.p);
      if Selects(keep, sa, sb) {
        assert Selects(keep, Take(sa, r.p), Take(sb, r.p)) && Selects(keep, da, db);
      }
      if Selects(keep, sb, sa) {
        assert Selects(keep, Take(sb, r.p), Take(sa, r.p)) && Selects(keep, db, da);
      }
    }
  }

  /** The SDK's tokens tell task ids apart. */
  lemma TokensDiffer(sdk: Sdk, i: string, j: string)
    requires sdk.Valid() && i != j
    ensures sdk.tokenOf(i) != sdk.tokenOf(j)
  {
    assert sdk.idOf(sdk.tokenOf(i)) == i && sdk.idOf(sdk.tokenOf(j)) == j;
  }
}
