/**
 Counting hand-outs by task id: a task in delivery changes as it is stamped and dated, and keeps its id.
 What is handed out differs in number from what there was by what came again, what was not there, what
 came in no form, and what was counted in both mailboxes.
 */
module Counting {
  import opened Paging
  import opened Tasks

  function Ids(s: seq<Task>): seq<string> {
    seq(|s|, i requires 0 <= i < |s| => s[i].id)
  }

  lemma IdsHold(s: seq<Task>, id: string)
    ensures id in Ids(s) <==> HasId(s, id)
  {
    if id in Ids(s) {
      var i :| 0 <= i < |Ids(s)| && Ids(s)[i] == id;
      assert s[i] in s;
    }
    if t :| t in s && t.id == id {
      var i :| 0 <= i < |s| && s[i] == t;
      assert Ids(s)[i] == id;
    }
  }

  function Distinct(ids: seq<string>): set<string> {
    set id | id in ids
  }

  /** How often an id of `start` comes after its first time. */
  function Again(ids: seq<string>, start: set<string>): nat {
    if ids == [] then 0
    else
      var last, before := ids[|ids| - 1], ids[..|ids| - 1];
      Again(before, start) + if last in start && last in before then 1 else 0
  }

  /** How often an id comes that is not of `start`. */
  function Others(ids: seq<string>, start: set<string>): nat {
    if ids == [] then 0
    else Others(ids[..|ids| - 1], start) + if ids[|ids| - 1] in start then 0 else 1
  }

  /** The ids of `start` that come in no form. */
  function Missed(ids: seq<string>, start: set<string>): set<string> {
    start - Distinct(ids)
  }

  function StartIds(x: Boxes): set<string> {
    Distinct(Ids(x.a)) + Distinct(Ids(x.b))
  }

  /** Counted in both mailboxes: seen in the one at its fetch, and in the other at the other's. */
  function InBoth(x: Boxes): set<string> {
    Distinct(Ids(x.a)) * Distinct(Ids(x.b))
  }

  lemma OneMore(seen: set<string>, id: string, start: set<string>)
    ensures |(seen + {id}) * start| == |seen * start| + if id in start && id !in seen then 1 else 0
  {
    if id in start && id !in seen {
      assert (seen + {id}) * start == seen * start + {id};
    } else {
      assert (seen + {id}) * start == seen * start;
    }
  }

  lemma {:induction false} ComeByIds(ids: seq<string>, start: set<string>)
    ensures |ids| == |Distinct(ids) * start| + Again(ids, start) + Others(ids, start)
  {
    if ids == [] {
      assert Distinct(ids) * start == {};
    } else {
      var last, before := ids[|ids| - 1], ids[..|ids| - 1];
      ComeByIds(before, start);
      assert ids == before + [last];
      assert Distinct(ids) == Distinct(before) + {last};
      OneMore(Distinct(before), last, start);
    }
  }

  lemma {:induction false} DistinctSize(s: seq<Task>)
    requires UniqueIds(s)
    ensures |Distinct(Ids(s))| == |s|
  {
    if s == [] {
      assert Distinct(Ids(s)) == {};
    } else {
      var last, before := s[|s| - 1], s[..|s| - 1];
      DistinctSize(before);
      assert Ids(s) == Ids(before) + [last.id];
      assert Distinct(Ids(s)) == Distinct(Ids(before)) + {last.id};
      forall i | 0 <= i < |before| ensures Ids(before)[i] != last.id {
        assert s[i].id != s[|s| - 1].id;
      }
    }
  }

  lemma SplitSize(a: set<string>, b: set<string>)
    ensures |a| == |a * b| + |a - b| && |a + b| + |a * b| == |a| + |b|
  {
    assert a == (a * b) + (a - b);
    assert a + b == (a - b) + b;
  }

  /** The difference in number, by ids. */
  lemma CountByIds(handed: seq<Task>, x: Boxes)
    requires UniqueIds(x.a) && UniqueIds(x.b)
    ensures var ids, start := Ids(handed), StartIds(x);
            |handed| + |Missed(ids, start)| + |InBoth(x)| == |x.a| + |x.b| + Again(ids, start) + Others(ids, start)
  {
    var ids, start := Ids(handed), StartIds(x);
    ComeByIds(ids, start);
    DistinctSize(x.a);
    DistinctSize(x.b);
    SplitSize(Distinct(Ids(x.a)), Distinct(Ids(x.b)));
    SplitSize(start, Distinct(ids));
    assert start * Distinct(ids) == Distinct(ids) * start;
  }
}
