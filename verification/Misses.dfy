/**
 What a reading hands out in no form. For every history of the mailboxes: a task that was to come is
 missed exactly if, after some request, it has left its mailbox, is behind the mark, or is skipped with
 the first half of a batch, and never comes up again.
 */
module Misses {
  import opened Arrivals
  import opened Paging
  import opened Places
  import opened Repeats
  import opened Sorting
  import opened Tasks
  import opened Wrappers

  /** What request `k` has before it: all that is unread, less the half batch it skips. */
  function ToCome(r: Reader, h: History, k: nat): multiset<Task> {
    match PlaceAt(r, h, k)
    case None => multiset{}
    case Some(place) =>
      match Unread(h(k).a, place.a)
      case None => multiset{}
      case Some(sa) =>
        match Unread(h(k).b, place.b)
        case None => multiset{}
        case Some(sb) => Unskipped(r, place, sa, sb)
  }

  function Unskipped(r: Reader, place: Place, sa: seq<Task>, sb: seq<Task>): multiset<Task> {
    multiset(sa) + multiset(sb) - if place.half then multiset(Take(Batch(r, sa, sb), r.p)) else multiset{}
  }

  ghost predicate Comes(r: Reader, h: History, k: nat, id: string) {
    exists t | t in ToCome(r, h, k) :: t.id == id
  }

  lemma TakenAndLeft(s: seq<Task>, n: nat)
    ensures multiset(s) == multiset(Take(s, n)) + multiset(Drop(s, n))
  {
    assert s == Take(s, n) + Drop(s, n);
  }

  lemma TurnWindow(r: Reader, place: Place, sa: seq<Task>, sb: seq<Task>)
    ensures var m := Batch(r, sa, sb);
            TurnOn(r, place, sa, sb).window ==
              if place.half then Drop(m, r.p) else if |m| > r.p then Take(m, r.p) else m
  {
  }

  lemma BatchParts(r: Reader, sa: seq<Task>, sb: seq<Task>)
    ensures multiset(sa) + multiset(sb) == multiset(Batch(r, sa, sb)) + multiset(Drop(sa, r.p)) + multiset(Drop(sb, r.p))
  {
    MergeKeeps(Take(sa, r.p), Take(sb, r.p), NotOlder);
    TakenAndLeft(sa, r.p);
    TakenAndLeft(sb, r.p);
  }

  lemma LastTurn(r: Reader, place: Place, sa: seq<Task>, sb: seq<Task>)
    requires TurnOn(r, place, sa, sb).next == None
    ensures place.half || |Batch(r, sa, sb)| <= r.p
    ensures Drop(sa, r.p) == [] && Drop(sb, r.p) == []
  {
  }

  lemma TurnTakes(r: Reader, place: Place, sa: seq<Task>, sb: seq<Task>)
    ensures multiset(TurnOn(r, place, sa, sb).window) <= Unskipped(r, place, sa, sb)
    ensures TurnOn(r, place, sa, sb).next == None ==>
              multiset(TurnOn(r, place, sa, sb).window) == Unskipped(r, place, sa, sb)
    ensures !(!place.half && |Batch(r, sa, sb)| > r.p) ==>
              Unskipped(r, place, sa, sb) == multiset(TurnOn(r, place, sa, sb).window)
                                             + multiset(Drop(sa, r.p)) + multiset(Drop(sb, r.p))
  {
    BatchParts(r, sa, sb);
    TakenAndLeft(Batch(r, sa, sb), r.p);
    TurnWindow(r, place, sa, sb);
    if TurnOn(r, place, sa, sb).next == None {
      LastTurn(r, place, sa, sb);
    }
  }

  lemma WindowComes(r: Reader, h: History, k: nat, id: string)
    requires ServedAt(r, h, k) && HasId(WindowAt(r, h, k), id)
    ensures Comes(r, h, k, id)
  {
    var place := PlaceAt(r, h, k).value;
    TurnTakes(r, place, Unread(h(k).a, place.a).value, Unread(h(k).b, place.b).value);
    var t :| t in WindowAt(r, h, k) && t.id == id;
    assert t in multiset(WindowAt(r, h, k));
  }

  lemma LastTakesAll(r: Reader, h: History, k: nat, id: string)
    requires ServedAt(r, h, k) && PlaceAt(r, h, k + 1) == None && Comes(r, h, k, id)
    ensures HasId(WindowAt(r, h, k), id)
  {
    var place := PlaceAt(r, h, k).value;
    TurnTakes(r, place, Unread(h(k).a, place.a).value, Unread(h(k).b, place.b).value);
    var t :| t in ToCome(r, h, k) && t.id == id;
    assert t in multiset(WindowAt(r, h, k));
  }

  /** Ahead of where request `k` leaves the reader in this mailbox, as it was then. */
  ghost predicate Leaves(r: Reader, h: History, k: nat, left: bool, t: Task) {
    PlaceAt(r, h, k + 1).Some? && AheadIn(Side(h(k), left), MarkOn(PlaceAt(r, h, k + 1).value, left), t)
  }

  ghost predicate LeftAhead(r: Reader, h: History, k: nat, left: bool, id: string) {
    exists t :: Leaves(r, h, k, left, t) && t.id == id
  }

  /** The first half of a batch leaves everything ahead. */
  lemma SplitLeaves(r: Reader, h: History, k: nat, t: Task)
    requires PlaceAt(r, h, k + 1).Some? && PlaceAt(r, h, k + 1).value.half && t in ToCome(r, h, k)
    ensures Leaves(r, h, k, true, t) || Leaves(r, h, k, false, t)
  {
    HalfComesFromSplit(r, h, k);
    var place := PlaceAt(r, h, k).value;
    assert t in multiset(Unread(h(k).a, place.a).value) || t in multiset(Unread(h(k).b, place.b).value);
  }

  lemma MarksAfter(r: Reader, h: History, k: nat)
    requires GoesForward(r, h, k)
    ensures var p, q := PlaceAt(r, h, k).value, PlaceAt(r, h, k + 1).value;
            && Unread(h(k).a, p.a).Some? && Unread(h(k).b, p.b).Some?
            && q.a == MarkOf(Drop(Unread(h(k).a, p.a).value, r.p)) && q.b == MarkOf(Drop(Unread(h(k).b, p.b).value, r.p))
  {
  }

  /** A batch handed out leaves the rest of the two mailboxes ahead. */
  lemma BatchLeaves(r: Reader, h: History, k: nat, t: Task)
    requires BoxedAt(h, k) && GoesForward(r, h, k)
    requires var p := PlaceAt(r, h, k).value;
             Unread(h(k).a, p.a).Some? && Unread(h(k).b, p.b).Some?
             && (t in Drop(Unread(h(k).a, p.a).value, r.p) || t in Drop(Unread(h(k).b, p.b).value, r.p))
    ensures Leaves(r, h, k, true, t) || Leaves(r, h, k, false, t)
  {
    MarksAfter(r, h, k);
    MarkFinds(h(k).a, PlaceAt(r, h, k).value.a, r.p);
    MarkFinds(h(k).b, PlaceAt(r, h, k).value.b, r.p);
  }

  lemma ComesOrIsLeft(r: Reader, h: History, k: nat, t: Task)
    requires GoesForward(r, h, k) && t in ToCome(r, h, k)
    ensures var p := PlaceAt(r, h, k).value;
            && Unread(h(k).a, p.a).Some? && Unread(h(k).b, p.b).Some?
            && (|| t in WindowAt(r, h, k)
                || t in Drop(Unread(h(k).a, p.a).value, r.p) || t in Drop(Unread(h(k).b, p.b).value, r.p))
  {
    var place := PlaceAt(r, h, k).value;
    var sa, sb := Unread(h(k).a, place.a).value, Unread(h(k).b, place.b).value;
    TurnTakes(r, place, sa, sb);
    assert t in multiset(WindowAt(r, h, k)) || t in multiset(Drop(sa, r.p)) || t in multiset(Drop(sb, r.p));
  }

  lemma RestIsLeftAhead(r: Reader, h: History, k: nat, id: string)
    requires BoxedAt(h, k) && ServedAt(r, h, k) && PlaceAt(r, h, k + 1).Some?
    requires Comes(r, h, k, id) && !HasId(WindowAt(r, h, k), id)
    ensures LeftAhead(r, h, k, true, id) || LeftAhead(r, h, k, false, id)
  {
    var t :| t in ToCome(r, h, k) && t.id == id;
    if GoesForward(r, h, k) {
      ComesOrIsLeft(r, h, k, t);
      BatchLeaves(r, h, k, t);
    } else {
      SplitLeaves(r, h, k, t);
    }
  }

  // Three ways to slip away

  ghost predicate IsGone(box: seq<Task>, id: string) {
    !HasId(box, id)
  }

  ghost predicate IsBehind(box: seq<Task>, mark: Mark, id: string) {
    exists t | Passed(box, mark, t) :: t.id == id
  }

  /** Request `k` skips a task of this id with the first half of a batch. */
  ghost predicate IsSkipped(r: Reader, h: History, k: nat, id: string) {
    exists t | Skips(r, h, k, t) :: t.id == id
  }

  ghost predicate SlipsAway(r: Reader, h: History, k: nat, left: bool, id: string) {
    && LeftAhead(r, h, k, left, id)
    && (|| IsGone(Side(h(k + 1), left), id)
        || IsBehind(Side(h(k + 1), left), MarkOn(PlaceAt(r, h, k + 1).value, left), id)
        || IsSkipped(r, h, k + 1, id))
  }

  lemma AheadComes(r: Reader, h: History, k: nat, left: bool, t: Task)
    requires ServedAt(r, h, k) && AheadOn(r, h, k, left, t)
    ensures Comes(r, h, k, t.id) || Skips(r, h, k, t)
  {
    var place := PlaceAt(r, h, k).value;
    var sa, sb := Unread(h(k).a, place.a).value, Unread(h(k).b, place.b).value;
    assert t in multiset(sa) + multiset(sb);
    if !Skips(r, h, k, t) {
      assert t in ToCome(r, h, k);
    }
  }

  lemma SlipsHow(r: Reader, h: History, k: nat, left: bool, id: string)
    requires ServedAt(r, h, k + 1) && LeftAhead(r, h, k, left, id) && !Comes(r, h, k + 1, id)
    ensures SlipsAway(r, h, k, left, id)
  {
    var box, mark := Side(h(k + 1), left), MarkOn(PlaceAt(r, h, k + 1).value, left);
    if t :| t in box && t.id == id {
      if AheadIn(box, mark, t) {
        AheadComes(r, h, k + 1, left, t);
      } else {
        assert Passed(box, mark, t);
      }
    }
  }

  ghost predicate NotAfter(r: Reader, h: History, k: nat, n: nat, id: string) {
    forall j | k < j < n :: !Comes(r, h, j, id)
  }

  ghost predicate NotBefore(r: Reader, h: History, n: nat, id: string) {
    forall j | 0 <= j < n :: !HasId(WindowAt(r, h, j), id)
  }

  /** Not handed out so far, gone from the reader's path after request `k`, and never on it again. */
  ghost predicate MissedAfter(r: Reader, h: History, k: nat, n: nat, id: string) {
    && NotBefore(r, h, k + 1, id)
    && (SlipsAway(r, h, k, true, id) || SlipsAway(r, h, k, false, id))
    && NotAfter(r, h, k, n, id)
  }

  lemma {:induction false} LastComing(r: Reader, h: History, j: nat, n: nat, id: string) returns (k: nat)
    requires j < n && Comes(r, h, j, id)
    ensures j <= k < n && Comes(r, h, k, id) && NotAfter(r, h, k, n, id)
    decreases n - j
  {
    if i :| j < i < n && Comes(r, h, i, id) {
      k := LastComing(r, h, i, n, id);
    } else {
      k := j;
    }
  }

  lemma HandedById(r: Reader, h: History, n: nat, id: string)
    ensures HasId(Handed(r, h, 0, n), id) <==> !NotBefore(r, h, n, id)
  {
    if t :| t in Handed(r, h, 0, n) && t.id == id {
      var k := JoinedFrom(Windows(r, h), 0, n, t);
      assert HasId(WindowAt(r, h, k), id);
    }
    if k :| 0 <= k < n && HasId(WindowAt(r, h, k), id) {
      var t :| t in WindowAt(r, h, k) && t.id == id;
      WindowIsHanded(r, h, 0, k, n, t);
    }
  }

  lemma ServedNext(r: Reader, h: History, k: nat, n: nat)
    requires Finished(r, h, n) && k < n
    ensures ServedAt(r, h, k)
    ensures if k + 1 < n then ServedAt(r, h, k + 1) && PlaceAt(r, h, k + 1).Some? else PlaceAt(r, h, k + 1) == None
  {
    ServedBefore(r, h, k, n);
    if k + 1 < n {
      ServedBefore(r, h, k + 1, n);
    }
  }

  /** What comes and is not handed out is not at the last request, and is left ahead. */
  lemma LastIsLeft(r: Reader, h: History, k: nat, n: nat, id: string)
    requires BoxedAt(h, k) && Finished(r, h, n) && k < n && !HasId(WindowAt(r, h, k), id) && Comes(r, h, k, id)
    ensures k + 1 < n && ServedAt(r, h, k + 1)
    ensures LeftAhead(r, h, k, true, id) || LeftAhead(r, h, k, false, id)
  {
    ServedNext(r, h, k, n);
    if k + 1 < n {
      RestIsLeftAhead(r, h, k, id);
    } else {
      LastTakesAll(r, h, k, id);
    }
  }

  lemma SlipsOnOneSide(r: Reader, h: History, k: nat, id: string)
    requires ServedAt(r, h, k + 1) && !Comes(r, h, k + 1, id)
    requires LeftAhead(r, h, k, true, id) || LeftAhead(r, h, k, false, id)
    ensures SlipsAway(r, h, k, true, id) || SlipsAway(r, h, k, false, id)
  {
    if LeftAhead(r, h, k, true, id) {
      SlipsHow(r, h, k, true, id);
    } else {
      SlipsHow(r, h, k, false, id);
    }
  }

  lemma NotNext(r: Reader, h: History, k: nat, n: nat, id: string)
    requires NotAfter(r, h, k, n, id) && k + 1 < n
    ensures !Comes(r, h, k + 1, id)
  {
  }

  lemma LastSlips(r: Reader, h: History, k: nat, n: nat, id: string)
    requires BoxedAt(h, k) && Finished(r, h, n) && k < n && !HasId(WindowAt(r, h, k), id)
    requires Comes(r, h, k, id) && NotAfter(r, h, k, n, id)
    ensures k + 1 < n && (SlipsAway(r, h, k, true, id) || SlipsAway(r, h, k, false, id))
  {
    LastIsLeft(r, h, k, n, id);
    NotNext(r, h, k, n, id);
    SlipsOnOneSide(r, h, k, id);
  }

  lemma LastIsMissed(r: Reader, h: History, k: nat, n: nat, id: string)
    requires BoxedAt(h, k) && Finished(r, h, n) && k < n && NotBefore(r, h, n, id)
    requires Comes(r, h, k, id) && NotAfter(r, h, k, n, id)
    ensures k + 1 < n && MissedAfter(r, h, k, n, id)
  {
    assert !HasId(WindowAt(r, h, k), id);
    LastSlips(r, h, k, n, id);
  }

  lemma LaterComes(r: Reader, h: History, k: nat, j: nat, n: nat, id: string)
    requires Finished(r, h, n) && k < j < n && HasId(WindowAt(r, h, j), id)
    ensures !NotAfter(r, h, k, n, id)
  {
    ServedBefore(r, h, j, n);
    WindowComes(r, h, j, id);
  }

  lemma MissedIsNotHanded(r: Reader, h: History, k: nat, n: nat, id: string)
    requires Finished(r, h, n) && k + 1 < n && MissedAfter(r, h, k, n, id)
    ensures NotBefore(r, h, n, id)
  {
    forall j | 0 <= j < n ensures !HasId(WindowAt(r, h, j), id) {
      if j > k && HasId(WindowAt(r, h, j), id) {
        LaterComes(r, h, k, j, n, id);
      }
    }
  }

  /** Exactly when a task that was to come is handed out in no form. */
  lemma MissedIff(r: Reader, h: History, n: nat, id: string)
    requires Boxed(h) && Finished(r, h, n) && Comes(r, h, 0, id)
    ensures !HasId(Handed(r, h, 0, n), id) <==> exists k: nat | k + 1 < n :: MissedAfter(r, h, k, n, id)
  {
    HandedById(r, h, n, id);
    if NotBefore(r, h, n, id) {
      var k := LastComing(r, h, 0, n, id);
      assert BoxedAt(h, k);
      LastIsMissed(r, h, k, n, id);
    }
    if k: nat :| k + 1 < n && MissedAfter(r, h, k, n, id) {
      MissedIsNotHanded(r, h, k, n, id);
    }
  }

  lemma InitialComes(r: Reader, h: History, id: string)
    ensures Comes(r, h, 0, id) <==> HasId(h(0).a, id) || HasId(h(0).b, id)
  {
    assert ToCome(r, h, 0) == multiset(h(0).a) + multiset(h(0).b);
    if t :| t in ToCome(r, h, 0) && t.id == id {
      assert t in multiset(h(0).a) || t in multiset(h(0).b);
    }
    if t :| t in h(0).a && t.id == id {
      assert t in multiset(h(0).a);
    }
    if t :| t in h(0).b && t.id == id {
      assert t in multiset(h(0).b);
    }
  }

  /** What lasted at the start is never among the missed. */
  lemma MissedDidNotLast(r: Reader, h: History, keep: Task -> bool, n: nat, t: Task)
    requires Lasting(h, keep) && KeptApart(h, keep) && Finished(r, h, n)
    requires (t in h(0).a || t in h(0).b) && !HasId(Handed(r, h, 0, n), t.id)
    ensures !keep(t)
  {
    if keep(t) {
      AtLeastOnce(r, h, keep, n, t);
    }
  }

  // Tasks that do not last keep their order too

  /** Two tasks that last neither before nor after stand in the order they stood in. */
  ghost predicate InOrderOf(s: seq<Task>, t: seq<Task>, keep: Task -> bool, x: Task, y: Task, v: Task, w: Task) {
    (&& x in s && y in s && v in t && w in t && v.id == x.id && w.id == y.id
     && !keep(x) && !keep(y) && !keep(v) && !keep(w)
     && StandsBehind(s, y.id, x)) ==>
      StandsBehind(t, w.id, v)
  }

  ghost predicate Orderly(s: seq<Task>, t: seq<Task>, keep: Task -> bool) {
    forall x, y, v, w :: InOrderOf(s, t, keep, x, y, v, w)
  }

  ghost predicate OrderlyAt(h: History, keep: Task -> bool, k: nat) {
    Orderly(h(k).a, h(k + 1).a, keep) && Orderly(h(k).b, h(k + 1).b, keep)
  }

  ghost predicate KeepsOrder(h: History, keep: Task -> bool) {
    forall k: nat :: OrderlyAt(h, keep, k)
  }

  /** Behind the mark in the later mailbox, as a task that lasts and was not in the earlier one. */
  ghost predicate SettledBehind(s: seq<Task>, t: seq<Task>, mark: Mark, keep: Task -> bool, id: string) {
    exists v | Passed(t, mark, v) :: v.id == id && keep(v) && v !in s
  }

  lemma AheadIsOfBox(box: seq<Task>, mark: Mark, x: Task)
    requires AheadIn(box, mark, x)
    ensures x in box
  {
    UnreadIsOfBox(box, mark);
  }

  /** What was ahead and is behind has come to last. */
  lemma AheadThenBehind(s: seq<Task>, t: seq<Task>, mark: Mark, keep: Task -> bool, x: Task, v: Task)
    requires UniqueIds(s) && UniqueIds(t) && KeptFirst(s, keep) && KeptFirst(t, keep)
    requires Subseq(Filter(s, keep), Filter(t, keep)) && Orderly(s, t, keep)
    requires AheadIn(s, mark, x) && Passed(t, mark, v) && v.id == x.id
    ensures keep(v) && v !in s
  {
    AheadIsOfBox(s, mark, x);
    if keep(x) {
      AheadLasts(s, t, mark, keep, x);
      AheadIsOfBox(t, mark, x);
      SameById(t, v, x);
      assert false;
    }
    if v in s {
      SameById(s, v, x);
    }
    if !keep(v) {
      OpenStaysAhead(s, t, mark, keep, x, v);
      assert false;
    }
  }

  lemma SameById(s: seq<Task>, x: Task, y: Task)
    requires UniqueIds(s) && x in s && y in s && x.id == y.id
    ensures x == y
  {
  }

  /** Before a task that lasts stand only such. */
  lemma BehindKept(t: seq<Task>, id: string, keep: Task -> bool, v: Task)
    requires KeptFirst(t, keep) && v in t && !keep(v) && From(t, id).Some? && keep(From(t, id).value[0])
    ensures v in From(t, id).value
  {
    var u := From(t, id).value;
    FromSuffix(t, id);
    SuffixMeans(u, t);
    var n := |t| - |u|;
    assert t[n] == u[0];
    var i :| 0 <= i < |t| && t[i] == v;
    assert i >= n;
    assert u[i - n] == v;
  }

  lemma OpenStaysAhead(s: seq<Task>, t: seq<Task>, mark: Mark, keep: Task -> bool, x: Task, v: Task)
    requires UniqueIds(t) && KeptFirst(s, keep) && KeptFirst(t, keep)
    requires Subseq(Filter(s, keep), Filter(t, keep)) && Orderly(s, t, keep)
    requires AheadIn(s, mark, x) && x in s && v in t && v.id == x.id && !keep(x) && !keep(v) && Unread(t, mark).Some?
    ensures v in Unread(t, mark).value
  {
    if mark.At? {
      var y, w := From(s, mark.id).value[0], From(t, mark.id).value[0];
      if keep(w) {
        BehindKept(t, mark.id, keep, v);
      } else if keep(y) {
        KeptMarkStays(s, t, mark.id, keep);
        assert false;
      } else {
        UnreadIsOfBox(s, mark);
        UnreadIsOfBox(t, mark);
        assert InOrderOf(s, t, keep, x, y, v, w);
      }
    }
  }

  /** What slips away from a reader of mailboxes in which everything keeps its order. */
  ghost predicate SlipsBy(r: Reader, h: History, keep: Task -> bool, k: nat, left: bool, id: string) {
    && LeftAhead(r, h, k, left, id)
    && (|| IsGone(Side(h(k + 1), left), id)
        || SettledBehind(Side(h(k), left), Side(h(k + 1), left), MarkOn(PlaceAt(r, h, k + 1).value, left), keep, id)
        || IsSkipped(r, h, k + 1, id))
  }

  lemma BehindIsSettled(r: Reader, h: History, keep: Task -> bool, k: nat, left: bool, id: string)
    requires LastsAt(h, keep, k) && OrderlyAt(h, keep, k) && LeftAhead(r, h, k, left, id)
    requires IsBehind(Side(h(k + 1), left), MarkOn(PlaceAt(r, h, k + 1).value, left), id)
    ensures SettledBehind(Side(h(k), left), Side(h(k + 1), left), MarkOn(PlaceAt(r, h, k + 1).value, left), keep, id)
  {
    var s, t, mark := Side(h(k), left), Side(h(k + 1), left), MarkOn(PlaceAt(r, h, k + 1).value, left);
    SideLasts(h, keep, k, left);
    var x :| Leaves(r, h, k, left, x) && x.id == id;
    var v :| Passed(t, mark, v) && v.id == id;
    assert Orderly(s, t, keep);
    AheadThenBehind(s, t, mark, keep, x, v);
  }

  lemma SlipsAlike(r: Reader, h: History, keep: Task -> bool, k: nat, left: bool, id: string)
    requires LastsAt(h, keep, k) && OrderlyAt(h, keep, k)
    ensures SlipsAway(r, h, k, left, id) <==> SlipsBy(r, h, keep, k, left, id)
  {
    if SlipsAway(r, h, k, left, id) {
      var box, mark := Side(h(k + 1), left), MarkOn(PlaceAt(r, h, k + 1).value, left);
      if IsBehind(box, mark, id) {
        BehindIsSettled(r, h, keep, k, left, id);
      }
    }
  }

  /** Not handed out so far; then gone, settled behind the reader or skipped; and never on its path again. */
  ghost predicate MissedBy(r: Reader, h: History, keep: Task -> bool, k: nat, n: nat, id: string) {
    && NotBefore(r, h, k + 1, id)
    && (SlipsBy(r, h, keep, k, true, id) || SlipsBy(r, h, keep, k, false, id))
    && NotAfter(r, h, k, n, id)
  }

  lemma MissedAlike(r: Reader, h: History, keep: Task -> bool, k: nat, n: nat, id: string)
    requires LastsAt(h, keep, k) && OrderlyAt(h, keep, k)
    ensures MissedAfter(r, h, k, n, id) <==> MissedBy(r, h, keep, k, n, id)
  {
    SlipsAlike(r, h, keep, k, true, id);
    SlipsAlike(r, h, keep, k, false, id);
  }

  /**
   Exactly when a task of the start is handed out in no form, where what does not last keeps its order
   as well: it leaves, comes to last behind the reader, or is skipped, and does not come up again.
   */
  lemma InitialMissedIff(r: Reader, h: History, keep: Task -> bool, n: nat, id: string)
    requires Lasting(h, keep) && KeepsOrder(h, keep) && Finished(r, h, n)
    requires HasId(h(0).a, id) || HasId(h(0).b, id)
    ensures !HasId(Handed(r, h, 0, n), id) <==> exists k: nat | k + 1 < n :: MissedBy(r, h, keep, k, n, id)
  {
    LastingIsBoxed(h, keep);
    InitialComes(r, h, id);
    MissedIff(r, h, n, id);
    forall k: nat ensures MissedAfter(r, h, k, n, id) <==> MissedBy(r, h, keep, k, n, id) {
      assert LastsAt(h, keep, k) && OrderlyAt(h, keep, k);
      MissedAlike(r, h, keep, k, n, id);
    }
  }
}
