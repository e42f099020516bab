/**
 Inputs at which the hub or its client does not do what one would expect of it, one for each such
 property stated elsewhere with its exact condition. Those in the middle of a delivery are in `Incidents`.
 */
module Counterexamples {
  import opened Arrivals
  import opened Client
  import opened Delivery
  import opened Exactness
  import opened Identity
  import opened Mailboxes
  import opened Marks
  import opened Misses
  import opened Paging
  import opened Places
  import opened Sorting
  import opened Tasks
  import opened Text
  import opened Wrappers
  import Conclusions
  import Walks

  // Identities and marks

  /** A known agent's session with a final newline is a valid identity, and nobody's mailbox. */
  lemma NewlineIsValidButUnreadable()
    ensures IsValidIdentity("p/s\n", Some({"p"})) && !Readable("p/s\n", {"p"})
  {
    assert "p" + "/" + "s\n" == "p/s\n";
    PartitionOfJoin("p", SEPARATOR, "s\n");
    assert "s\n"[..1] == "s";
    assert SessionName("s");
    assert IsSpace('\n');
    assert ProperAgents({"p"});
    AddressableIffReadable("p/s\n", {"p"});
  }

  function Blanks(n: nat): string {
    seq(n, i => ' ')
  }

  lemma CutEndsInBlank(detail: string)
    requires |detail| == 2001 && detail[0] == 'a' && detail[2000] == 'z' && detail[1999] == ' '
    ensures CleanMark("processed", detail).Ok? && !Trimmed(CleanMark("processed", detail).value.detail)
  {
    assert Trimmed(detail) && Strip(detail) == detail by { StripTrims(detail); }
    assert CleanMark(WordFor(Processed), detail) == Ok(Mark(Processed, Take(detail, MAX_DETAIL))) by {
      WordIsClean(Processed);
    }
    assert Take(detail, MAX_DETAIL)[1999] == ' ';
  }

  /** A detail one character too long whose cut ends in blanks: the stored mark, sent again, is not taken as it is. */
  lemma CutDetailIsNotTakenAgain()
    ensures var detail := "abcdefgh" + Blanks(1992) + "z";
            && CleanMark("processed", detail).Ok?
            && var mark := CleanMark("processed", detail).value;
               CleanMark(WordFor(mark.state), mark.detail) != Ok(mark)
  {
    var detail := "abcdefgh" + Blanks(1992) + "z";
    assert |detail| == 2001 && detail[0] == 'a' && detail[2000] == 'z' && detail[1999] == ' ';
    CutEndsInBlank(detail);
    CleanedAgain("processed", detail);
  }

  // Reading while tasks arrive

  const OLD := Task("old", Completed, 1, 0, [])
  const MIDDLE := Task("middle", Completed, 2, 0, [])
  const RECENT := Task("recent", Completed, 3, 0, [])

  /** One task in each mailbox; a newer one arrives in the first after the first request. */
  function OneArrives(): History {
    (k: nat) => Boxes(if k == 0 then [MIDDLE] else [RECENT, MIDDLE], [OLD])
  }

  lemma OneArrivesGains()
    ensures Gaining(OneArrives()) && Apart(OneArrives())
  {
    var h := OneArrives();
    SubseqRefl([MIDDLE]);
    SubseqRefl([RECENT, MIDDLE]);
    SubseqRefl([OLD]);
    SubseqCons([MIDDLE], RECENT, [MIDDLE]);
    assert [RECENT] + [MIDDLE] == [RECENT, MIDDLE];
    forall k: nat ensures GainsAt(h, k) && ApartAt(h, k) {
    }
  }

  lemma OneArrivesTurns(r: Reader)
    requires r.p == 1
    ensures TurnOf(r, OneArrives(), 0) == Some(Turned([MIDDLE], Some(Place(Start, Start, true))))
    ensures TurnOf(r, OneArrives(), 1) == Some(Turned([OLD], Some(Place(At("middle"), End, false))))
    ensures TurnOf(r, OneArrives(), 2) == Some(Turned([MIDDLE], None))
  {
    var h := OneArrives();
    assert Batch(r, [MIDDLE], [OLD]) == [MIDDLE, OLD] by {
      assert Take([MIDDLE], 1) == [MIDDLE] && Take([OLD], 1) == [OLD];
      MergeTakesLeft(MIDDLE, [], [OLD], NotOlder);
      assert [MIDDLE] + [] == [MIDDLE];
    }
    assert Batch(r, [RECENT, MIDDLE], [OLD]) == [RECENT, OLD] by {
      assert Take([RECENT, MIDDLE], 1) == [RECENT] && Take([OLD], 1) == [OLD];
      MergeTakesLeft(RECENT, [], [OLD], NotOlder);
      assert [RECENT] + [] == [RECENT];
    }
    assert Batch(r, [MIDDLE], []) == [MIDDLE];
    assert Drop([RECENT, MIDDLE], 1) == [MIDDLE] && Drop([OLD], 1) == [];
    assert TurnOf(r, h, 0) == Some(Turned([MIDDLE], Some(Place(Start, Start, true))));
    assert PlaceAt(r, h, 1) == Some(Place(Start, Start, true));
    assert TurnOf(r, h, 1) == Some(Turned([OLD], Some(Place(At("middle"), End, false))));
    assert PlaceAt(r, h, 2) == Some(Place(At("middle"), End, false));
    assert From([RECENT, MIDDLE], "middle") == Some([MIDDLE]) by {
      assert [RECENT, MIDDLE][1..] == [MIDDLE];
    }
  }

  lemma {:induction false} HandedTwice(r: Reader, h: History, x: Task, y: Task)
    requires WindowAt(r, h, 0) == [x] && WindowAt(r, h, 1) == [y]
    ensures Handed(r, h, 0, 2) == [x, y]
  {
    var w := Windows(r, h);
    assert Joined(w, 0, 1) == Joined(w, 0, 0) + w(0);
    assert Joined(w, 0, 2) == Joined(w, 0, 1) + w(1);
  }

  lemma {:induction false} HandedThrice(r: Reader, h: History, x: Task, y: Task, z: Task)
    requires WindowAt(r, h, 0) == [x] && WindowAt(r, h, 1) == [y] && WindowAt(r, h, 2) == [z]
    ensures Handed(r, h, 0, 3) == [x, y, z]
  {
    var w := Windows(r, h);
    assert Joined(w, 0, 1) == Joined(w, 0, 0) + w(0);
    assert Joined(w, 0, 2) == Joined(w, 0, 1) + w(1);
    assert Joined(w, 0, 3) == Joined(w, 0, 2) + w(2);
  }

  lemma OneArrivesEnds(r: Reader, k: nat)
    requires r.p == 1
    ensures PlaceAt(r, OneArrives(), k) == None <==> k >= 3
  {
    var h := OneArrives();
    OneArrivesTurns(r);
    assert PlaceAt(r, h, 1).Some? && PlaceAt(r, h, 2).Some? && PlaceAt(r, h, 3) == None;
    if k >= 3 && PlaceAt(r, h, k).Some? {
      PlacesBefore(r, h, 3, k);
    }
  }

  lemma OneArrivesHands(r: Reader)
    requires r.p == 1
    ensures Handed(r, OneArrives(), 0, 3) == [MIDDLE, OLD, MIDDLE]
  {
    OneArrivesTurns(r);
    HandedThrice(r, OneArrives(), MIDDLE, OLD, MIDDLE);
  }

  lemma OneArrivesThrice(r: Reader, requests: nat)
    requires r.p == 1 && Finished(r, OneArrives(), requests)
    ensures requests == 3
  {
    OneArrivesEnds(r, requests);
    OneArrivesEnds(r, requests - 1);
  }

  lemma OneArrivesAnswer(r: Reader, requests: nat, o: Client.Outcome)
    requires r.p == 1 && Finished(r, OneArrives(), requests)
    requires var x := OneArrives()(0);
             o == Listed(Listing(Handed(r, OneArrives(), 0, requests), |x.a| + |x.b|, requests, false))
    ensures o == Listed(Listing([MIDDLE, OLD, MIDDLE], 2, 3, false))
  {
    OneArrivesThrice(r, requests);
    OneArrivesHands(r);
  }

  /** With one task to a page, such a read is complete, has every task, and more of them than its total. */
  lemma CountCheckFails(r: Reader, maxPages: int, requests: nat, o: Client.Outcome)
    requires r.Valid() && r.requested == 1 && maxPages >= 3
    requires Walk(ServerOf(r, OneArrives()), maxPages, requests, o)
    ensures o == Listed(Listing([MIDDLE, OLD, MIDDLE], 2, 3, false))
  {
    OneArrivesGains();
    OneArrivesEnds(r, maxPages);
    Conclusions.CompleteListing(r, OneArrives(), maxPages, requests, o);
    OneArrivesAnswer(r, requests, o);
  }

  // The repeat guard

  const FIRST := Task("t", Completed, 1, 0, [])
  const SECOND := Task("x", Completed, 2, 0, [])
  const THIRD := Task("y", Completed, 3, 0, [])

  /** Two tasks that are delivered one after the other, each seen in delivery before it is dated. */
  function TwoDelivered(): History {
    (k: nat) =>
      Boxes(if k == 0 then [FIRST, Bare("x")] else if k < 3 then [SECOND, FIRST, Bare("y")] else [THIRD, SECOND, FIRST], [])
  }

  lemma SettledOf(a: Task, b: Task, c: Task)
    requires Settled(a) && Settled(b)
    ensures Filter([a, b, c], SettledTask()) == if Settled(c) then [a, b, c] else [a, b]
    ensures Filter([a, c], SettledTask()) == if Settled(c) then [a, c] else [a]
  {
    assert [a, b, c][1..] == [b, c] && [b, c][1..] == [c] && [c][1..] == [] && [a, c][1..] == [c];
    assert [a] + ([b] + [c]) == [a, b, c] && [a] + [b] == [a, b] && [b] + [c] == [b, c];
    assert Filter([c], SettledTask()) == if Settled(c) then [c] else [];
    assert Filter([b, c], SettledTask()) == if Settled(c) then [b, c] else [b];
  }

  ghost predicate FitBox(box: seq<Task>) {
    IsBox(box) && OpenLast(Boxes(box, []), SettledTask())
  }

  lemma FitBoxes()
    ensures FitBox([FIRST, Bare("x")]) && FitBox([SECOND, FIRST, Bare("y")]) && FitBox([THIRD, SECOND, FIRST])
  {
    assert "t"[0] != "x"[0] && "t"[0] != "y"[0] && "x"[0] != "y"[0];
  }

  lemma OneSided(h: History, k: nat, s: seq<Task>, t: seq<Task>)
    requires h(k) == Boxes(s, []) && h(k + 1) == Boxes(t, []) && FitBox(s) && FitBox(t)
    requires Subseq(Filter(s, SettledTask()), Filter(t, SettledTask()))
    ensures LastsAt(h, SettledTask(), k) && KeptApartAt(h, SettledTask(), k)
  {
  }

  lemma TwoDeliveredStep(k: nat)
    ensures LastsAt(TwoDelivered(), SettledTask(), k) && KeptApartAt(TwoDelivered(), SettledTask(), k)
  {
    var h := TwoDelivered();
    FitBoxes();
    SettledOf(FIRST, FIRST, Bare("x"));
    SettledOf(SECOND, FIRST, Bare("y"));
    SettledOf(THIRD, SECOND, FIRST);
    SubseqRefl(Filter(h(k).a, SettledTask()));
    if k == 0 {
      SubseqRefl([FIRST]);
      SubseqCons([FIRST], SECOND, [FIRST]);
      assert [SECOND] + [FIRST] == [SECOND, FIRST];
    } else if k == 2 {
      SubseqRefl([SECOND, FIRST]);
      SubseqCons([SECOND, FIRST], THIRD, [SECOND, FIRST]);
      assert [THIRD] + [SECOND, FIRST] == [THIRD, SECOND, FIRST];
    }
    OneSided(h, k, h(k).a, h(k + 1).a);
  }

  /** What lasts in it stays as it is: it is a history of the kind a live store makes. */
  lemma TwoDeliveredLasts()
    ensures Lasting(TwoDelivered(), SettledTask()) && KeptApart(TwoDelivered(), SettledTask())
  {
    forall k: nat ensures LastsAt(TwoDelivered(), SettledTask(), k) && KeptApartAt(TwoDelivered(), SettledTask(), k) {
      TwoDeliveredStep(k);
    }
  }

  lemma TwoDeliveredTurns(r: Reader)
    requires r.p == 1
    ensures var h := TwoDelivered();
            && WindowAt(r, h, 0) == [FIRST] && PlaceAt(r, h, 1) == Some(Place(At("x"), End, false))
            && WindowAt(r, h, 1) == [SECOND] && PlaceAt(r, h, 2) == Some(Place(At("t"), End, false))
            && WindowAt(r, h, 2) == [FIRST] && PlaceAt(r, h, 3) == Some(Place(At("y"), End, false))
            && WindowAt(r, h, 3) == [THIRD] && PlaceAt(r, h, 4) == PlaceAt(r, h, 1)
  {
    var h := TwoDelivered();
    assert "t"[0] != "x"[0] && "t"[0] != "y"[0] && "x"[0] != "y"[0];
    assert Take([FIRST, Bare("x")], 1) == [FIRST] && Drop([FIRST, Bare("x")], 1) == [Bare("x")];
    assert Take([SECOND, FIRST, Bare("y")], 1) == [SECOND] && Drop([SECOND, FIRST, Bare("y")], 1) == [FIRST, Bare("y")];
    assert Take([FIRST, Bare("y")], 1) == [FIRST] && Drop([FIRST, Bare("y")], 1) == [Bare("y")];
    assert Take([THIRD, SECOND, FIRST], 1) == [THIRD] && Drop([THIRD, SECOND, FIRST], 1) == [SECOND, FIRST];
    assert [SECOND, FIRST, Bare("y")][1..] == [FIRST, Bare("y")];
    assert From([SECOND, FIRST, Bare("y")], "t") == Some([FIRST, Bare("y")]);
    assert TurnOf(r, h, 0) == Some(Turned([FIRST], Some(Place(At("x"), End, false))));
    assert TurnOf(r, h, 1) == Some(Turned([SECOND], Some(Place(At("t"), End, false))));
    assert TurnOf(r, h, 2) == Some(Turned([FIRST], Some(Place(At("y"), End, false))));
    assert TurnOf(r, h, 3) == Some(Turned([THIRD], Some(Place(At("x"), End, false))));
  }

  lemma TwoDeliveredHands(r: Reader)
    requires r.p == 1
    ensures Handed(r, TwoDelivered(), 0, 4) == [FIRST, SECOND, FIRST, THIRD]
  {
    var h := TwoDelivered();
    TwoDeliveredTurns(r);
    HandedThrice(r, h, FIRST, SECOND, FIRST);
    assert Handed(r, h, 0, 4) == Handed(r, h, 0, 3) + WindowAt(r, h, 3);
  }

  ghost predicate FreshBefore(r: Reader, h: History, n: nat) {
    forall j, k | 0 < j < k < n :: PlaceAt(r, h, j) != PlaceAt(r, h, k)
  }

  lemma TwoDeliveredFresh(r: Reader)
    requires r.p == 1
    ensures FreshBefore(r, TwoDelivered(), 4)
  {
    TwoDeliveredTurns(r);
    forall j, k | 0 < j < k < 4 ensures PlaceAt(r, TwoDelivered(), j) != PlaceAt(r, TwoDelivered(), k) {
      assert (j == 1 && k == 2) || (j == 1 && k == 3) || (j == 2 && k == 3);
    }
  }

  lemma StopsAtFourth(r: Reader, h: History, maxPages: int, requests: nat, o: Client.Outcome)
    requires maxPages >= 5 && EndsAtPlaces(r, h, requests, o) && Walks.StopsNowhere(r, h, requests, maxPages)
    requires o.Listed? ==> (if o.listing.incomplete then Walks.Seen(r, h, requests) || requests == maxPages
                            else PlaceAt(r, h, requests) == None)
    requires PlaceAt(r, h, 4).Some? && PlaceAt(r, h, 4) == PlaceAt(r, h, 1)
    requires FreshBefore(r, h, 4)
    ensures requests == 4 && o.Listed? && o.listing.incomplete
  {
    OnWayToFourth(r, h);
    assert Walks.StopsAt(r, h, 4, maxPages);
    assert requests <= 4;
    assert ServedAt(r, h, requests - 1) && PlaceAt(r, h, requests).Some?;
    EndSays(r, h, requests - 1, o);
    if requests < 4 {
      UnseenBefore(r, h, requests);
    }
  }

  lemma UnseenBefore(r: Reader, h: History, k: nat)
    requires FreshBefore(r, h, 4)
    requires k < 4
    ensures !Walks.Seen(r, h, k)
  {
  }

  lemma OnWayToFourth(r: Reader, h: History)
    requires PlaceAt(r, h, 4).Some? && PlaceAt(r, h, 4) == PlaceAt(r, h, 1)
    ensures forall k | 0 <= k < 4 :: ServedAt(r, h, k) && PlaceAt(r, h, k).Some?
    ensures Walks.Seen(r, h, 4)
  {
    forall k | 0 <= k < 4 ensures ServedAt(r, h, k) && PlaceAt(r, h, k).Some? {
      PlacesBefore(r, h, k, 4);
    }
  }

  /**
   Over such mailboxes the repeat guard stops the client of an honest hub: the read has every task, and
   is called incomplete.
   */
  lemma GuardFires(r: Reader, maxPages: int, requests: nat, o: Client.Outcome)
    requires r.Valid() && r.requested == 1 && maxPages >= 5
    requires Walk(ServerOf(r, TwoDelivered()), maxPages, requests, o)
    ensures requests == 4 && o.Listed? && o.listing.incomplete && o.listing.tasks == [FIRST, SECOND, FIRST, THIRD]
  {
    var h := TwoDelivered();
    TwoDeliveredLasts();
    LastingIsBoxed(h, SettledTask());
    WalkOverPlaces(r, h, maxPages, requests, o);
    Walks.WalkEnds(r, h, maxPages, requests, o);
    TwoDeliveredTurns(r);
    TwoDeliveredFresh(r);
    StopsAtFourth(r, h, maxPages, requests, o);
    TwoDeliveredHands(r);
  }

  // What is missed, and the count check

  /** At most one task of it does not last: so none has changed its order. */
  lemma OneOpenInOrder(s: seq<Task>, t: seq<Task>, keep: Task -> bool)
    requires UniqueIds(t) && forall v, w | v in t && w in t && !keep(v) && !keep(w) :: v == w
    ensures Orderly(s, t, keep)
  {
    forall x, y, v, w ensures InOrderOf(s, t, keep, x, y, v, w) {
      if v in t && w in t && !keep(v) && !keep(w) {
        FromFinds(t, w);
      }
    }
  }

  /** Two deliveries again: the first settles in front of the reader, the second then behind it. */
  function OneLost(): History {
    (k: nat) =>
      Boxes(if k == 0 then [FIRST, Bare("x"), Bare("y")] else if k == 1 then [SECOND, FIRST, Bare("y")]
            else [THIRD, SECOND, FIRST], [])
  }

  lemma OneLostBoxes()
    ensures FitBox([FIRST, Bare("x"), Bare("y")])
  {
    assert "t"[0] != "x"[0] && "t"[0] != "y"[0] && "x"[0] != "y"[0];
  }

  lemma OneLostSettled()
    ensures Filter([FIRST, Bare("x"), Bare("y")], SettledTask()) == [FIRST]
  {
    assert [FIRST, Bare("x"), Bare("y")] == [FIRST] + [Bare("x"), Bare("y")];
    FilterAppend([FIRST], [Bare("x"), Bare("y")], SettledTask());
    FilterAll([FIRST], SettledTask());
    FilterAll([Bare("x"), Bare("y")], SettledTask());
  }

  lemma OneLostStep(k: nat)
    ensures LastsAt(OneLost(), SettledTask(), k) && KeptApartAt(OneLost(), SettledTask(), k)
    ensures OrderlyAt(OneLost(), SettledTask(), k)
  {
    var h := OneLost();
    FitBoxes();
    OneLostBoxes();
    OneLostSettled();
    SettledOf(SECOND, FIRST, Bare("y"));
    SettledOf(THIRD, SECOND, FIRST);
    SubseqRefl(Filter(h(k).a, SettledTask()));
    if k == 0 {
      SubseqRefl([FIRST]);
      SubseqCons([FIRST], SECOND, [FIRST]);
      assert [SECOND] + [FIRST] == [SECOND, FIRST];
    } else if k == 1 {
      SubseqRefl([SECOND, FIRST]);
      SubseqCons([SECOND, FIRST], THIRD, [SECOND, FIRST]);
      assert [THIRD] + [SECOND, FIRST] == [THIRD, SECOND, FIRST];
    }
    OneSided(h, k, h(k).a, h(k + 1).a);
    OneOpenInOrder(h(k).a, h(k + 1).a, SettledTask());
    OneOpenInOrder(h(k).b, h(k + 1).b, SettledTask());
  }

  /** It is a history of the kind deliveries make. */
  lemma OneLostLasts()
    ensures Lasting(OneLost(), SettledTask()) && KeptApart(OneLost(), SettledTask()) && KeepsOrder(OneLost(), SettledTask())
  {
    forall k: nat
      ensures LastsAt(OneLost(), SettledTask(), k) && KeptApartAt(OneLost(), SettledTask(), k)
      ensures OrderlyAt(OneLost(), SettledTask(), k)
    {
      OneLostStep(k);
    }
  }

  lemma OneLostTurns(r: Reader)
    requires r.p == 1
    ensures var h := OneLost();
            && WindowAt(r, h, 0) == [FIRST] && PlaceAt(r, h, 1) == Some(Place(At("x"), End, false))
            && WindowAt(r, h, 1) == [SECOND] && PlaceAt(r, h, 2) == Some(Place(At("t"), End, false))
            && WindowAt(r, h, 2) == [FIRST] && ServedAt(r, h, 2) && PlaceAt(r, h, 3) == None
  {
    var h := OneLost();
    assert "t"[0] != "x"[0] && "t"[0] != "y"[0] && "x"[0] != "y"[0];
    assert Take([FIRST, Bare("x"), Bare("y")], 1) == [FIRST];
    assert Drop([FIRST, Bare("x"), Bare("y")], 1) == [Bare("x"), Bare("y")];
    assert Take([SECOND, FIRST, Bare("y")], 1) == [SECOND] && Drop([SECOND, FIRST, Bare("y")], 1) == [FIRST, Bare("y")];
    assert Take([FIRST], 1) == [FIRST] && Drop([FIRST], 1) == [];
    assert [THIRD, SECOND, FIRST][1..] == [SECOND, FIRST] && [SECOND, FIRST][1..] == [FIRST];
    assert From([SECOND, FIRST], "t") == Some([FIRST]);
    assert From([THIRD, SECOND, FIRST], "t") == Some([FIRST]);
    assert TurnOf(r, h, 0) == Some(Turned([FIRST], Some(Place(At("x"), End, false))));
    assert TurnOf(r, h, 1) == Some(Turned([SECOND], Some(Place(At("t"), End, false))));
    assert TurnOf(r, h, 2) == Some(Turned([FIRST], None));
  }

  /**
   The count check passes by mistake: a complete read of as many tasks as its total has one of them twice,
   and one that was in delivery at the first request in no form, although it has been delivered since.
   */
  lemma FalsePass(r: Reader, maxPages: int, requests: nat, o: Client.Outcome)
    requires r.Valid() && r.requested == 1 && maxPages >= 3
    requires Walk(ServerOf(r, OneLost()), maxPages, requests, o)
    ensures o.Listed? && !o.listing.incomplete
    ensures o.listing.tasks == [FIRST, SECOND, FIRST] && o.listing.total == 3
    ensures HasId(OneLost()(0).a, "y") && THIRD in OneLost()(2).a && !HasId(o.listing.tasks, "y")
  {
    var h := OneLost();
    OneLostLasts();
    LastingIsBoxed(h, SettledTask());
    OneLostTurns(r);
    HandedThrice(r, h, FIRST, SECOND, FIRST);
    EndsAtThird(r, h, maxPages, requests, o);
    assert Bare("y") in h(0).a && THIRD.id == "y";
    assert "t"[0] != "y"[0] && "x"[0] != "y"[0];
  }

  lemma EndsAtThird(r: Reader, h: History, maxPages: int, requests: nat, o: Client.Outcome)
    requires r.Valid() && Boxed(h) && maxPages >= 3 && Walk(ServerOf(r, h), maxPages, requests, o)
    requires PlaceAt(r, h, 1) != PlaceAt(r, h, 2) && ServedAt(r, h, 2) && PlaceAt(r, h, 3) == None
    ensures o.Listed? && !o.listing.incomplete
    ensures o.listing.tasks == Handed(r, h, 0, 3) && o.listing.total == |h(0).a| + |h(0).b|
  {
    Walks.NoFourthPlace(r, h, requests);
    Walks.EndsByCap(r, h, maxPages, requests, o);
    Walks.StopsAtThird(r, h, maxPages, requests, o);
  }

  /** An announcement leaves the one mailbox; in the other a task is in delivery all the time. */
  function OneSkipped(): History {
    (k: nat) => Boxes(if k == 0 then [FIRST, Bare("x")] else [FIRST], [Bare("y")])
  }

  lemma OneSkippedBoxes()
    ensures IsBox([FIRST, Bare("x")]) && OpenLast(Boxes([FIRST, Bare("x")], [Bare("y")]), SettledTask())
    ensures IsBox([FIRST]) && OpenLast(Boxes([FIRST], [Bare("y")]), SettledTask())
    ensures FIRST != Bare("y")
  {
    assert "t"[0] != "x"[0] && "t"[0] != "y"[0];
  }

  lemma OneSkippedStep(k: nat)
    ensures LastsAt(OneSkipped(), SettledTask(), k) && KeptApartAt(OneSkipped(), SettledTask(), k)
    ensures OrderlyAt(OneSkipped(), SettledTask(), k)
  {
    var h := OneSkipped();
    OneSkippedBoxes();
    SettledOf(FIRST, FIRST, Bare("x"));
    FilterAll([FIRST], SettledTask());
    SubseqRefl([FIRST]);
    SubseqRefl(Filter([Bare("y")], SettledTask()));
    OneOpenInOrder(h(k).a, h(k + 1).a, SettledTask());
    OneOpenInOrder(h(k).b, h(k + 1).b, SettledTask());
  }

  lemma OneSkippedLasts()
    ensures Lasting(OneSkipped(), SettledTask()) && KeptApart(OneSkipped(), SettledTask())
    ensures KeepsOrder(OneSkipped(), SettledTask())
  {
    forall k: nat
      ensures LastsAt(OneSkipped(), SettledTask(), k) && KeptApartAt(OneSkipped(), SettledTask(), k)
      ensures OrderlyAt(OneSkipped(), SettledTask(), k)
    {
      OneSkippedStep(k);
    }
  }

  lemma OneSkippedTurns(r: Reader)
    requires r.p == 2
    ensures var h := OneSkipped();
            && WindowAt(r, h, 0) == [FIRST, Bare("x")] && PlaceAt(r, h, 1) == Some(Place(Start, Start, true))
            && WindowAt(r, h, 1) == [] && ServedAt(r, h, 1) && PlaceAt(r, h, 2) == None
  {
    var h, x, y := OneSkipped(), Bare("x"), Bare("y");
    assert Take([FIRST, x], 2) == [FIRST, x] && Take([FIRST], 2) == [FIRST] && Take([y], 2) == [y];
    assert Batch(r, [FIRST, x], [y]) == [FIRST, x, y] by {
      MergeTakesLeft(FIRST, [x], [y], NotOlder);
      MergeTakesLeft(x, [], [y], NotOlder);
      assert [FIRST] + [x] == [FIRST, x] && [x] + [] == [x] && [x] + [y] == [x, y] && [FIRST] + [x, y] == [FIRST, x, y];
    }
    assert Batch(r, [FIRST], [y]) == [FIRST, y] by {
      MergeTakesLeft(FIRST, [], [y], NotOlder);
      assert [FIRST] + [] == [FIRST] && [FIRST] + [y] == [FIRST, y];
    }
    assert Take([FIRST, x, y], 2) == [FIRST, x] && Drop([FIRST, y], 2) == [] && Drop([FIRST], 2) == [] && Drop([y], 2) == [];
    assert TurnOf(r, h, 0) == Some(Turned([FIRST, x], Some(Place(Start, Start, true))));
    assert TurnOf(r, h, 1) == Some(Turned([], None));
  }

  /**
   The third way to be missed: a task in delivery, always in its mailbox and never settled, is skipped
   with the first half of a batch when another has left that. The read is complete and short of its total.
   */
  lemma SkippedUnseen(r: Reader, maxPages: int, requests: nat, o: Client.Outcome)
    requires r.Valid() && r.requested == 2 && maxPages >= 2
    requires Walk(ServerOf(r, OneSkipped()), maxPages, requests, o)
    ensures o.Listed? && !o.listing.incomplete
    ensures o.listing.tasks == [FIRST, Bare("x")] && o.listing.total == 3
    ensures (forall k: nat :: Bare("y") in OneSkipped()(k).b) && !HasId(o.listing.tasks, "y")
  {
    var h := OneSkipped();
    OneSkippedLasts();
    LastingIsBoxed(h, SettledTask());
    OneSkippedTurns(r);
    OneSkippedHands(r);
    EndsAtSecond(r, h, maxPages, requests, o);
    assert "t"[0] != "y"[0] && "x"[0] != "y"[0];
  }

  lemma OneSkippedHands(r: Reader)
    requires r.p == 2
    ensures Handed(r, OneSkipped(), 0, 2) == [FIRST, Bare("x")]
  {
    OneSkippedTurns(r);
    var w := Windows(r, OneSkipped());
    assert Joined(w, 0, 1) == Joined(w, 0, 0) + w(0);
    assert Joined(w, 0, 2) == Joined(w, 0, 1) + w(1);
  }

  lemma EndsAtSecond(r: Reader, h: History, maxPages: int, requests: nat, o: Client.Outcome)
    requires r.Valid() && Boxed(h) && maxPages >= 2 && Walk(ServerOf(r, h), maxPages, requests, o)
    requires PlaceAt(r, h, 1).Some? && ServedAt(r, h, 1) && PlaceAt(r, h, 2) == None
    ensures o.Listed? && !o.listing.incomplete
    ensures o.listing.tasks == Handed(r, h, 0, 2) && o.listing.total == |h(0).a| + |h(0).b|
  {
    Walks.FewPlaces(r, h, requests);
    Walks.EndsByCap(r, h, maxPages, requests, o);
    Walks.StopsAtSecond(r, h, maxPages, requests, o);
  }
}
