/**
 Reading while the mailboxes change. Some tasks last: they stay where they are and keep their order,
 while others may come, change and go, as long as those come last in a mailbox. Whatever arrives
 between, before or behind them, a finished read has every task that lasts.
 */
module Arrivals {
  import opened Paging
  import opened Places
  import opened Sorting
  import opened Tasks
  import opened Wrappers

  /** A task that does not last is older than every one that does. */
  ghost predicate OpenLast(x: Boxes, keep: Task -> bool) {
    forall t, e | t in x.a + x.b && e in x.a + x.b && keep(t) && !keep(e) :: !NotOlder(e, t)
  }

  ghost predicate LastsAt(h: History, keep: Task -> bool, k: nat) {
    && BoxedAt(h, k) && BoxedAt(h, k + 1) && OpenLast(h(k), keep) && OpenLast(h(k + 1), keep)
    && Subseq(Filter(h(k).a, keep), Filter(h(k + 1).a, keep))
    && Subseq(Filter(h(k).b, keep), Filter(h(k + 1).b, keep))
  }

  /** From request to request the tasks that last stay and keep their order; new ones arrive anywhere. */
  ghost predicate Lasting(h: History, keep: Task -> bool) {
    forall k: nat :: LastsAt(h, keep, k)
  }

  ghost predicate KeptApartAt(h: History, keep: Task -> bool, k: nat) {
    forall t | t in h(k).a && keep(t) :: t !in h(k).b
  }

  /** No task that lasts is in both mailboxes. */
  ghost predicate KeptApart(h: History, keep: Task -> bool) {
    forall k: nat :: KeptApartAt(h, keep, k)
  }

  lemma LastingIsBoxed(h: History, keep: Task -> bool)
    requires Lasting(h, keep)
    ensures Boxed(h)
  {
    forall k: nat ensures BoxedAt(h, k) {
      assert LastsAt(h, keep, k);
    }
  }

  // One mailbox

  ghost predicate KeptFirst(s: seq<Task>, keep: Task -> bool) {
    forall i, j | 0 <= i < j < |s| && keep(s[j]) :: keep(s[i])
  }

  function Opens(keep: Task -> bool): Task -> bool {
    (t: Task) => !keep(t)
  }

  lemma KeptAreFirst(x: Boxes, keep: Task -> bool)
    requires IsBox(x.a) && IsBox(x.b) && OpenLast(x, keep)
    ensures KeptFirst(x.a, keep) && KeptFirst(x.b, keep)
  {
    forall i, j | 0 <= i < j < |x.a| && keep(x.a[j]) ensures keep(x.a[i]) {
      assert x.a[i] in x.a + x.b && x.a[j] in x.a + x.b && NotOlder(x.a[i], x.a[j]);
    }
    forall i, j | 0 <= i < j < |x.b| && keep(x.b[j]) ensures keep(x.b[i]) {
      assert x.b[i] in x.a + x.b && x.b[j] in x.a + x.b && NotOlder(x.b[i], x.b[j]);
    }
  }

  lemma {:induction false} KeptSplit(s: seq<Task>, keep: Task -> bool)
    requires KeptFirst(s, keep)
    ensures s == Filter(s, keep) + Filter(s, Opens(keep))
  {
    if s != [] {
      if keep(s[0]) {
        KeptSplit(s[1..], keep);
        assert s == [s[0]] + s[1..];
        Regroup([s[0]], Filter(s[1..], keep), Filter(s[1..], Opens(keep)));
      } else {
        forall x | x in s ensures !keep(x) {
          var i :| 0 <= i < |s| && s[i] == x;
        }
        FilterAll(s, keep);
        FilterAll(s, Opens(keep));
      }
    }
  }

  lemma {:induction false} FilterUnique(s: seq<Task>, keep: Task -> bool)
    requires UniqueIds(s)
    ensures UniqueIds(Filter(s, keep))
  {
    if s != [] {
      FilterUnique(s[1..], keep);
      if keep(s[0]) {
        var rest := Filter(s[1..], keep);
        forall j | 0 <= j < |rest| ensures rest[j].id != s[0].id {
          FilterHolds(s[1..], keep, rest[j]);
          var m :| 0 <= m < |s[1..]| && s[1..][m] == rest[j];
          assert s[0].id != s[m + 1].id;
        }
      }
    }
  }

  lemma {:induction false} FromFilter(s: seq<Task>, keep: Task -> bool, id: string)
    requires From(s, id).Some? && keep(From(s, id).value[0])
    ensures From(Filter(s, keep), id) == Some(Filter(From(s, id).value, keep))
  {
    if s[0].id != id {
      FromFilter(s[1..], keep, id);
      assert ([s[0]] + Filter(s[1..], keep))[1..] == Filter(s[1..], keep);
    }
  }

  lemma {:induction false} FromFinds(s: seq<Task>, t: Task)
    requires UniqueIds(s) && t in s
    ensures From(s, t.id).Some? && From(s, t.id).value[0] == t
  {
    if s[0].id == t.id {
      var i :| 0 <= i < |s| && s[i] == t;
      assert i == 0;
    } else {
      assert s == [s[0]] + s[1..];
      FromFinds(s[1..], t);
    }
  }

  lemma {:induction false} SubseqFrom(s: seq<Task>, t: seq<Task>, id: string)
    requires Subseq(s, t) && UniqueIds(t) && From(s, id).Some?
    ensures From(t, id).Some? && Subseq(From(s, id).value, From(t, id).value)
    decreases |t|
  {
    if s[0] == t[0] && Subseq(s[1..], t[1..]) {
      if s[0].id != id {
        SubseqFrom(s[1..], t[1..], id);
      }
    } else {
      FromSuffix(s, id);
      SuffixMeans(From(s, id).value, s);
      var x := From(s, id).value[0];
      assert x in s;
      SubseqIn(s, t[1..], x);
      var i :| 0 <= i < |t[1..]| && t[1..][i] == x;
      assert t[0].id != t[i + 1].id;
      SubseqFrom(s, t[1..], id);
    }
  }

  lemma AllOpen(s: seq<Task>, id: string, keep: Task -> bool)
    requires KeptFirst(s, keep) && From(s, id).Some? && !keep(From(s, id).value[0])
    ensures Filter(From(s, id).value, keep) == []
  {
    var u := From(s, id).value;
    FromSuffix(s, id);
    SuffixMeans(u, s);
    forall x | x in u ensures !keep(x) {
      var i :| 0 <= i < |u| && u[i] == x;
      assert s[|s| - |u|] == u[0] && s[|s| - |u| + i] == x;
    }
    FilterAll(u, keep);
  }

  /** What lasts of the unread part of a mailbox stays unread, in its order; its mark stays if anything of it lasts. */
  lemma UnreadLasts(s: seq<Task>, t: seq<Task>, mark: Mark, keep: Task -> bool)
    requires UniqueIds(t) && KeptFirst(s, keep) && Subseq(Filter(s, keep), Filter(t, keep)) && Unread(s, mark).Some?
    ensures Filter(Unread(s, mark).value, keep) != [] ==> Unread(t, mark).Some?
    ensures Unread(t, mark).Some? ==> Subseq(Filter(Unread(s, mark).value, keep), Filter(Unread(t, mark).value, keep))
  {
    if mark.At? {
      var u := Unread(s, mark).value;
      FromSuffix(s, mark.id);
      if keep(u[0]) {
        MarkLasts(s, t, mark.id, keep);
      } else {
        AllOpen(s, mark.id, keep);
      }
    }
  }

  lemma MarkLasts(s: seq<Task>, t: seq<Task>, id: string, keep: Task -> bool)
    requires UniqueIds(t) && Subseq(Filter(s, keep), Filter(t, keep))
    requires From(s, id).Some? && keep(From(s, id).value[0])
    ensures From(t, id).Some? && Subseq(Filter(From(s, id).value, keep), Filter(From(t, id).value, keep))
  {
    FromFilter(s, keep, id);
    FilterUnique(t, keep);
    SubseqFrom(Filter(s, keep), Filter(t, keep), id);
    FromSuffix(Filter(t, keep), id);
    var v := From(Filter(t, keep), id).value;
    SuffixMeans(v, Filter(t, keep));
    assert v[0] in Filter(t, keep);
    FilterHolds(t, keep, v[0]);
    FromFinds(t, v[0]);
    FromFilter(t, keep, id);
  }

  // Two mailboxes

  lemma UniqueHasNoRepeats(s: seq<Task>)
    requires UniqueIds(s)
    ensures NoRepeats(s)
  {
  }

  lemma MergeNoRepeats(a: seq<Task>, b: seq<Task>)
    requires NoRepeats(a) && NoRepeats(b) && forall x | x in a :: x !in b
    ensures NoRepeats(Merge(a, b, NotOlder))
  {
    MergeKeeps(a, b, NotOlder);
    CountsSayRepeats(a);
    CountsSayRepeats(b);
    forall x: Task ensures multiset(Merge(a, b, NotOlder))[x] <= 1 {
      assert x in a ==> x !in multiset(b);
      assert x !in a ==> x !in multiset(a);
    }
    CountsSayRepeats(Merge(a, b, NotOlder));
  }

  lemma MergeHolds(a: seq<Task>, b: seq<Task>, x: Task)
    ensures x in Merge(a, b, NotOlder) <==> x in a || x in b
  {
    MergeKeeps(a, b, NotOlder);
    assert x in Merge(a, b, NotOlder) <==> x in multiset(Merge(a, b, NotOlder));
    assert x in multiset(a) + multiset(b) <==> x in a || x in b;
  }

  ghost predicate OlderThanKept(u: seq<Task>, w: seq<Task>, keep: Task -> bool) {
    forall t, e | t in u + w && e in u + w && keep(t) && !keep(e) :: !NotOlder(e, t)
  }

  /** In a merge the tasks that last come first, as in their own merge. */
  lemma KeptMerge(u: seq<Task>, w: seq<Task>, keep: Task -> bool)
    requires KeptFirst(u, keep) && KeptFirst(w, keep) && OlderThanKept(u, w, keep)
    ensures Merge(u, w, NotOlder) ==
              Merge(Filter(u, keep), Filter(w, keep), NotOlder)
              + Merge(Filter(u, Opens(keep)), Filter(w, Opens(keep)), NotOlder)
  {
    KeptSplit(u, keep);
    KeptSplit(w, keep);
    forall x, y | x in Filter(u, keep) && y in Filter(w, Opens(keep)) ensures NotOlder(x, y) {
      FilterHolds(u, keep, x);
      FilterHolds(w, Opens(keep), y);
      assert x in u + w && y in u + w;
    }
    forall x, y | x in Filter(w, keep) && y in Filter(u, Opens(keep)) ensures !NotOlder(y, x) {
      FilterHolds(w, keep, x);
      FilterHolds(u, Opens(keep), y);
      assert x in u + w && y in u + w;
    }
    MergeOfNewcomers(Filter(u, keep), Filter(u, Opens(keep)), Filter(w, keep), Filter(w, Opens(keep)), NotOlder);
  }

  lemma KeptPrefix(u: seq<Task>, w: seq<Task>, keep: Task -> bool, t: Task, n: nat)
    requires KeptFirst(u, keep) && KeptFirst(w, keep) && OlderThanKept(u, w, keep) && keep(t)
    ensures t in Take(Merge(u, w, NotOlder), n) <==> t in Take(Merge(Filter(u, keep), Filter(w, keep), NotOlder), n)
  {
    var kept := Merge(Filter(u, keep), Filter(w, keep), NotOlder);
    var open := Merge(Filter(u, Opens(keep)), Filter(w, Opens(keep)), NotOlder);
    KeptMerge(u, w, keep);
    MergeHolds(Filter(u, Opens(keep)), Filter(w, Opens(keep)), t);
    FilterHolds(u, Opens(keep), t);
    FilterHolds(w, Opens(keep), t);
    PrefixOfFirst(kept, open, t, n);
  }

  lemma PrefixOfFirst(s: seq<Task>, rest: seq<Task>, t: Task, n: nat)
    requires t !in rest
    ensures t in Take(s + rest, n) <==> t in Take(s, n)
  {
    if t in Take(s + rest, n) {
      var i :| 0 <= i < |Take(s + rest, n)| && Take(s + rest, n)[i] == t;
      assert (s + rest)[i] == t;
      assert i >= |s| ==> rest[i - |s|] == t;
      assert Take(s, n)[i] == t;
    }
    if t in Take(s, n) {
      var i :| 0 <= i < |Take(s, n)| && Take(s, n)[i] == t;
      assert Take(s + rest, n)[i] == t;
    }
  }

  /** Arrivals only move a task that lasts back: in the front of the later merge, it was in the front of the earlier. */
  lemma OnlyMovesBack(u: seq<Task>, w: seq<Task>, u': seq<Task>, w': seq<Task>, keep: Task -> bool, t: Task, n: nat)
    requires KeptFirst(u, keep) && KeptFirst(w, keep) && OlderThanKept(u, w, keep)
    requires KeptFirst(u', keep) && KeptFirst(w', keep) && OlderThanKept(u', w', keep)
    requires Sorted(u', NotOlder) && Sorted(w', NotOlder) && NoRepeats(u') && NoRepeats(w')
    requires forall x | x in u' && keep(x) :: x !in w'
    requires Subseq(Filter(u, keep), Filter(u', keep)) && Subseq(Filter(w, keep), Filter(w', keep))
    requires keep(t) && (t in u || t in w) && t in Take(Merge(u', w', NotOlder), n)
    ensures t in Take(Merge(u, w, NotOlder), n)
  {
    var a, b, c, d := Filter(u, keep), Filter(w, keep), Filter(u', keep), Filter(w', keep);
    KeptPrefix(u, w, keep, t, n);
    KeptPrefix(u', w', keep, t, n);
    NotOlderOrders();
    FilterInOrder(u', keep);
    FilterInOrder(w', keep);
    SubseqOfMerge(a, b, c, d, NotOlder);
    forall x | x in c ensures x !in d {
      FilterHolds(u', keep, x);
      FilterHolds(w', keep, x);
    }
    MergeNoRepeats(c, d);
    FilterHolds(u, keep, t);
    FilterHolds(w, keep, t);
    MergeHolds(a, b, t);
    SubseqPrefix(Merge(a, b, NotOlder), Merge(c, d, NotOlder), t, n);
  }

  lemma {:induction false} FilterInOrder(s: seq<Task>, keep: Task -> bool)
    requires Sorted(s, NotOlder) && NoRepeats(s)
    ensures Sorted(Filter(s, keep), NotOlder) && NoRepeats(Filter(s, keep))
  {
    if s != [] {
      var t, rest := s[1..], Filter(s[1..], keep);
      assert forall i, j | 0 <= i < j < |t| :: NotOlder(t[i], t[j]) && t[i] != t[j] by {
        forall i, j | 0 <= i < j < |t| ensures NotOlder(t[i], t[j]) && t[i] != t[j] {
          assert NotOlder(s[i + 1], s[j + 1]) && s[i + 1] != s[j + 1];
        }
      }
      FilterInOrder(t, keep);
      forall j | 0 <= j < |rest| ensures NotOlder(s[0], rest[j]) && s[0] != rest[j] {
        FilterHolds(t, keep, rest[j]);
        var m :| 0 <= m < |t| && t[m] == rest[j];
        assert NotOlder(s[0], s[m + 1]) && s[0] != s[m + 1];
      }
    }
  }

  // The reader

  /** The batch the k-th request fetches. */
  function BatchAt(r: Reader, h: History, k: nat): seq<Task> {
    match PlaceAt(r, h, k)
    case None => []
    case Some(place) =>
      match Unread(h(k).a, place.a)
      case None => []
      case Some(sa) =>
        match Unread(h(k).b, place.b)
        case None => []
        case Some(sb) => Batch(r, sa, sb)
  }

  ghost predicate AheadIn(box: seq<Task>, mark: Mark, t: Task) {
    Unread(box, mark).Some? && t in Unread(box, mark).value
  }

  ghost predicate AheadAt(x: Boxes, place: Place, t: Task) {
    AheadIn(x.a, place.a, t) || AheadIn(x.b, place.b, t)
  }

  /** The reader has yet to hand `t` out: it is ahead, and not in the half batch that a refetch skips. */
  ghost predicate Due(r: Reader, h: History, k: nat, t: Task) {
    && PlaceAt(r, h, k).Some?
    && AheadAt(h(k), PlaceAt(r, h, k).value, t)
    && (PlaceAt(r, h, k).value.half ==> t !in Take(BatchAt(r, h, k), r.p))
  }

  lemma AheadLasts(s: seq<Task>, t: seq<Task>, mark: Mark, keep: Task -> bool, x: Task)
    requires UniqueIds(t) && KeptFirst(s, keep) && Subseq(Filter(s, keep), Filter(t, keep))
    requires keep(x) && AheadIn(s, mark, x)
    ensures AheadIn(t, mark, x)
  {
    var u := Unread(s, mark).value;
    FilterHolds(u, keep, x);
    UnreadLasts(s, t, mark, keep);
    SubseqIn(Filter(u, keep), Filter(Unread(t, mark).value, keep), x);
    FilterHolds(Unread(t, mark).value, keep, x);
  }

  lemma AheadLastsAt(h: History, keep: Task -> bool, k: nat, place: Place, t: Task)
    requires LastsAt(h, keep, k) && keep(t) && AheadAt(h(k), place, t)
    ensures AheadAt(h(k + 1), place, t)
  {
    KeptAreFirst(h(k), keep);
    if AheadIn(h(k).a, place.a, t) {
      AheadLasts(h(k).a, h(k + 1).a, place.a, keep, t);
    } else {
      AheadLasts(h(k).b, h(k + 1).b, place.b, keep, t);
    }
  }

  /** An unread part is a run of its mailbox to the end. */
  lemma UnreadIsSuffix(box: seq<Task>, mark: Mark)
    requires Unread(box, mark).Some?
    ensures IsSuffix(Unread(box, mark).value, box)
  {
    match mark
    case Start =>
    case At(id) => FromSuffix(box, id);
    case End => SuffixMeans([], box);
  }

  lemma {:induction false} SuffixKeeps(s: seq<Task>, box: seq<Task>, keep: Task -> bool)
    requires IsSuffix(s, box) && UniqueIds(box) && Sorted(box, NotOlder) && KeptFirst(box, keep)
    ensures UniqueIds(s) && Sorted(s, NotOlder) && KeptFirst(s, keep) && NoRepeats(s)
    ensures forall t | t in s :: t in box
  {
    if s != box {
      var t := box[1..];
      assert forall i | 0 <= i < |t| :: t[i] == box[i + 1];
      SuffixKeeps(s, t, keep);
    }
  }

  lemma {:induction false} SuffixIsFrom(s: seq<Task>, box: seq<Task>)
    requires IsSuffix(s, box) && UniqueIds(box) && s != []
    ensures From(box, s[0].id) == Some(s)
  {
    if s != box {
      SuffixMeans(s, box);
      assert s[0] == box[|box| - |s|] && box[0].id != box[|box| - |s|].id;
      SuffixIsFrom(s, box[1..]);
    }
  }

  /** Where a turn leaves a mailbox is where the next request will find it, had nothing changed. */
  lemma MarkFinds(box: seq<Task>, mark: Mark, p: nat)
    requires UniqueIds(box) && Unread(box, mark).Some?
    ensures Unread(box, MarkOf(Drop(Unread(box, mark).value, p))) == Some(Drop(Unread(box, mark).value, p))
  {
    var u := Unread(box, mark).value;
    UnreadIsSuffix(box, mark);
    DropIsSuffix(u, p);
    SuffixOfSuffix(Drop(u, p), u, box);
    if Drop(u, p) != [] {
      SuffixIsFrom(Drop(u, p), box);
    }
  }

  /** The unread parts at a request, with what the reader knows of them. */
  lemma UnreadParts(h: History, keep: Task -> bool, k: nat, place: Place)
    requires BoxedAt(h, k) && OpenLast(h(k), keep) && KeptApartAt(h, keep, k)
    requires Unread(h(k).a, place.a).Some? && Unread(h(k).b, place.b).Some?
    ensures var u, w := Unread(h(k).a, place.a).value, Unread(h(k).b, place.b).value;
            && KeptFirst(u, keep) && KeptFirst(w, keep) && OlderThanKept(u, w, keep)
            && Sorted(u, NotOlder) && Sorted(w, NotOlder) && NoRepeats(u) && NoRepeats(w)
            && (forall x | x in u && keep(x) :: x !in w)
  {
    KeptAreFirst(h(k), keep);
    UnreadIsSuffix(h(k).a, place.a);
    UnreadIsSuffix(h(k).b, place.b);
    SuffixKeeps(Unread(h(k).a, place.a).value, h(k).a, keep);
    SuffixKeeps(Unread(h(k).b, place.b).value, h(k).b, keep);
  }

  /** A task that lasts and is fetched again among the first page was among the first page before. */
  lemma FrontOnlyMovesBack(r: Reader, h: History, keep: Task -> bool, k: nat, place: Place, t: Task)
    requires LastsAt(h, keep, k) && KeptApartAt(h, keep, k) && KeptApartAt(h, keep, k + 1)
    requires keep(t) && AheadAt(h(k), place, t)
    requires Unread(h(k).a, place.a).Some? && Unread(h(k).b, place.b).Some?
    requires Unread(h(k + 1).a, place.a).Some? && Unread(h(k + 1).b, place.b).Some?
    requires t in Take(Batch(r, Unread(h(k + 1).a, place.a).value, Unread(h(k + 1).b, place.b).value), r.p)
    ensures t in Take(Batch(r, Unread(h(k).a, place.a).value, Unread(h(k).b, place.b).value), r.p)
  {
    var u, w := Unread(h(k).a, place.a).value, Unread(h(k).b, place.b).value;
    var u', w' := Unread(h(k + 1).a, place.a).value, Unread(h(k + 1).b, place.b).value;
    UnreadParts(h, keep, k, place);
    UnreadParts(h, keep, k + 1, place);
    KeptAreFirst(h(k), keep);
    UnreadLasts(h(k).a, h(k + 1).a, place.a, keep);
    UnreadLasts(h(k).b, h(k + 1).b, place.b, keep);
    TakeMerge(u, w, r.p, r.p, r.p, NotOlder);
    TakeMerge(u', w', r.p, r.p, r.p, NotOlder);
    OnlyMovesBack(u, w, u', w', keep, t, r.p);
  }

  lemma BatchHolds(r: Reader, sa: seq<Task>, sb: seq<Task>, t: Task)
    ensures t in Batch(r, sa, sb) <==> t in Take(sa, r.p) || t in Take(sb, r.p)
  {
    MergeHolds(Take(sa, r.p), Take(sb, r.p), t);
  }

  lemma InTakeOrDrop(s: seq<Task>, n: nat, t: Task)
    ensures t in s <==> t in Take(s, n) || t in Drop(s, n)
  {
    assert s == Take(s, n) + Drop(s, n);
  }

  /** One served turn hands a due task out, or leaves it due. */
  lemma TurnKeepsDue(r: Reader, h: History, keep: Task -> bool, k: nat, t: Task)
    requires LastsAt(h, keep, k) && KeptApartAt(h, keep, k) && KeptApartAt(h, keep, k + 1)
    requires keep(t) && Due(r, h, k, t) && ServedAt(r, h, k)
    ensures t in WindowAt(r, h, k) || Due(r, h, k + 1, t)
  {
    var place := PlaceAt(r, h, k).value;
    var sa, sb := Unread(h(k).a, place.a).value, Unread(h(k).b, place.b).value;
    var m := Batch(r, sa, sb);
    if !place.half && |m| > r.p {
      AheadLastsAt(h, keep, k, place, t);
      if t in Take(BatchAt(r, h, k + 1), r.p) {
        FrontOnlyMovesBack(r, h, keep, k, place, t);
      }
    } else {
      BatchHolds(r, sa, sb, t);
      InTakeOrDrop(m, r.p, t);
      if t !in WindowAt(r, h, k) {
        RestIsAhead(r, h, keep, k, place, t);
      }
    }
  }

  lemma RestIsAhead(r: Reader, h: History, keep: Task -> bool, k: nat, place: Place, t: Task)
    requires LastsAt(h, keep, k) && keep(t)
    requires Unread(h(k).a, place.a).Some? && Unread(h(k).b, place.b).Some? && AheadAt(h(k), place, t)
    requires t !in Take(Unread(h(k).a, place.a).value, r.p) && t !in Take(Unread(h(k).b, place.b).value, r.p)
    ensures var da, db := Drop(Unread(h(k).a, place.a).value, r.p), Drop(Unread(h(k).b, place.b).value, r.p);
            && PlaceAfter(da, db).Some?
            && AheadAt(h(k + 1), PlaceAfter(da, db).value, t)
  {
    var sa, sb := Unread(h(k).a, place.a).value, Unread(h(k).b, place.b).value;
    InTakeOrDrop(sa, r.p, t);
    InTakeOrDrop(sb, r.p, t);
    MarkFinds(h(k).a, place.a, r.p);
    MarkFinds(h(k).b, place.b, r.p);
    AheadLastsAt(h, keep, k, PlaceAfter(Drop(sa, r.p), Drop(sb, r.p)).value, t);
  }

  lemma WindowIsHanded(r: Reader, h: History, j: nat, i: nat, k: nat, t: Task)
    requires j <= i < k && t in WindowAt(r, h, i)
    ensures t in Handed(r, h, j, k)
  {
    InJoined(Windows(r, h), j, i, k, t);
  }

  lemma HandedFromEarlier(r: Reader, h: History, j: nat, k: nat, t: Task)
    requires t in Handed(r, h, j + 1, k)
    ensures t in Handed(r, h, j, k)
  {
    var i := JoinedFrom(Windows(r, h), j + 1, k, t);
    InJoined(Windows(r, h), j, i, k, t);
  }

  lemma ServedBefore(r: Reader, h: History, j: nat, k: nat)
    requires j < k && (PlaceAt(r, h, k).Some? || Finished(r, h, k))
    ensures ServedAt(r, h, j)
  {
    if PlaceAt(r, h, k).Some? {
      PlacesBefore(r, h, j, k);
    } else {
      PlacesBefore(r, h, j, k - 1);
    }
  }

  /** A due task is handed out, or still due; by the time the reading ends it is handed out. */
  lemma {:induction false} DueIsHanded(r: Reader, h: History, keep: Task -> bool, j: nat, k: nat, t: Task)
    requires Lasting(h, keep) && KeptApart(h, keep) && keep(t) && Due(r, h, j, t) && j <= k
    requires PlaceAt(r, h, k).Some? || Finished(r, h, k)
    ensures t in Handed(r, h, j, k) || Due(r, h, k, t)
    decreases k - j
  {
    if j < k {
      ServedBefore(r, h, j, k);
      assert LastsAt(h, keep, j) && KeptApartAt(h, keep, j) && KeptApartAt(h, keep, j + 1);
      TurnKeepsDue(r, h, keep, j, t);
      if t in WindowAt(r, h, j) {
        WindowIsHanded(r, h, j, j, k, t);
      } else {
        DueIsHanded(r, h, keep, j + 1, k, t);
        if t in Handed(r, h, j + 1, k) {
          HandedFromEarlier(r, h, j, k, t);
        }
      }
    }
  }

  /** At least once: whatever comes and goes meanwhile, a finished reading has handed out every task that lasts. */
  lemma AtLeastOnce(r: Reader, h: History, keep: Task -> bool, n: nat, t: Task)
    requires Lasting(h, keep) && KeptApart(h, keep) && Finished(r, h, n)
    requires keep(t) && (t in h(0).a || t in h(0).b)
    ensures t in Handed(r, h, 0, n)
  {
    assert Due(r, h, 0, t);
    DueIsHanded(r, h, keep, 0, n, t);
  }
}
