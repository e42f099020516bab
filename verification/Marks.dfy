/** What a recipient did with a message (`marks.py`): validation, and one row per message and marker. */
module Marks {
  import opened Sorting
  import opened Tables
  import opened Text
  import opened Wrappers

  datatype MarkState = Processed | Discarded | Awaiting

  datatype Mark = Mark(state: MarkState, detail: string)

  datatype MarkError = UnknownState(word: string) | DetailTooShort(length: nat)

  const MIN_DETAIL: nat := 8
  const MAX_DETAIL: nat := 2000

  predicate Closed(state: MarkState) {
    state.Processed? || state.Discarded?
  }

  function WordFor(state: MarkState): string {
    match state
    case Processed => "processed"
    case Discarded => "discarded"
    case Awaiting => "awaiting"
  }

  function StateNamed(word: string): Option<MarkState> {
    if word == "processed" then Some(Processed)
    else if word == "discarded" then Some(Discarded)
    else if word == "awaiting" then Some(Awaiting)
    else None
  }

  /** `state` and `detail` are the payload's values as text, empty when absent. */
  function CleanMark(state: string, detail: string): (r: Result<Mark, MarkError>)
    ensures r.Ok? ==> MIN_DETAIL <= |r.value.detail| <= MAX_DETAIL
  {
    var word := Lower(Strip(state));
    match StateNamed(word)
    case None => Err(UnknownState(word))
    case Some(s) =>
      var text := Strip(detail);
      if |text| < MIN_DETAIL then Err(DetailTooShort(|text|)) else Ok(Mark(s, Take(text, MAX_DETAIL)))
  }

  /** `word` is the name of that state, in any case and between any blanks. */
  ghost predicate Spells(word: string, state: MarkState) {
    exists core :: Padded(word, core) && SameLetters(core, Spelling(state))
  }

  /** The three words a request may use. */
  function Spelling(state: MarkState): string {
    if state == Processed then "processed" else if state == Discarded then "discarded" else "awaiting"
  }

  lemma StateSpelled(word: string, state: MarkState)
    ensures StateNamed(Lower(Strip(word))) == Some(state) <==> Spells(word, state)
  {
    WordIsLetters(state);
    WordIsNamed(state);
    LowerIsSameLetters(Strip(word), WordFor(state));
    if SameLetters(Strip(word), Spelling(state)) {
      StripIsCore(word, Strip(word));
    }
    if core :| Padded(word, core) && SameLetters(core, Spelling(state)) {
      LettersAreTrimmed(core, Spelling(state));
      StripIsCore(word, core);
    }
  }

  lemma LettersAreTrimmed(core: string, name: string)
    requires SameLetters(core, name) && LowerLetters(name) && name != ""
    ensures core != "" && Trimmed(core)
  {
    assert SameLetter(core[0], name[0]) && SameLetter(core[|core| - 1], name[|name| - 1]);
  }

  /** Which marks are accepted and as what, and why any other is refused. */
  lemma CleanMarkExactly(state: string, detail: string)
    ensures forall s | Spells(state, s) ::
              CleanMark(state, detail) ==
                if |Strip(detail)| >= 8 then Ok(Mark(s, Take(Strip(detail), 2000)))
                else Err(DetailTooShort(|Strip(detail)|))
    ensures (forall s :: !Spells(state, s)) <==> CleanMark(state, detail) == Err(UnknownState(Lower(Strip(state))))
  {
    forall s ensures StateNamed(Lower(Strip(state))) == Some(s) <==> Spells(state, s) {
      StateSpelled(state, s);
    }
  }

  /** A stored mark, sent again, is accepted unchanged exactly when the cut left no blank at its end. */
  lemma CleanedAgain(state: string, detail: string)
    requires CleanMark(state, detail).Ok?
    ensures var mark := CleanMark(state, detail).value;
            CleanMark(WordFor(mark.state), mark.detail) == Ok(mark) <==> Trimmed(mark.detail)
  {
    var mark := CleanMark(state, detail).value;
    WordIsClean(mark.state);
    StripTrims(mark.detail);
    assert Take(Strip(mark.detail), MAX_DETAIL) == Strip(mark.detail);
  }

  lemma WordIsClean(state: MarkState)
    ensures Lower(Strip(WordFor(state))) == WordFor(state) && StateNamed(WordFor(state)) == Some(state)
  {
    var word := WordFor(state);
    WordIsLetters(state);
    assert !IsSpace(word[0]) && !IsSpace(word[|word| - 1]);
    StripTrims(word);
    LowerKeeps(word);
    WordIsNamed(state);
  }

  lemma WordIsLetters(state: MarkState)
    ensures |WordFor(state)| >= 8
    ensures LowerLetters(WordFor(state))
  {
  }

  lemma WordIsNamed(state: MarkState)
    ensures StateNamed(WordFor(state)) == Some(state)
  {
    assert WordFor(Processed)[0] != WordFor(Discarded)[0] && WordFor(Processed)[0] != WordFor(Awaiting)[0];
    assert WordFor(Discarded)[0] != WordFor(Awaiting)[0];
  }

  // The table

  datatype MarkKey = MarkKey(task: string, identity: string)
  datatype MarkRow = MarkRow(state: MarkState, detail: string, sender: string, markedAt: int)
  type MarkEntry = Entry<MarkKey, MarkRow>
  type MarkTable = seq<MarkEntry>

  predicate NotLater(x: MarkEntry, y: MarkEntry) {
    x.value.markedAt <= y.value.markedAt
  }

  predicate NotEarlier(x: MarkEntry, y: MarkEntry) {
    x.value.markedAt >= y.value.markedAt
  }

  function MarksOn(table: MarkTable, task: string): MarkTable {
    Sort(Filter(table, (e: MarkEntry) => e.key.task == task), NotLater)
  }

  function MarksOfSender(table: MarkTable, sender: string): MarkTable {
    Sort(Filter(table, (e: MarkEntry) => e.value.sender == sender && e.value.sender != ""), NotEarlier)
  }

  /** What an identity has marked, as the dictionary its rows make. */
  function MarkedBy(table: MarkTable, identity: string): map<string, MarkState> {
    if table == [] then map[]
    else
      var last, earlier := table[|table| - 1], MarkedBy(table[..|table| - 1], identity);
      if last.key.identity == identity then earlier[last.key.task := last.value.state] else earlier
  }

  class MessageMarks {
    var table: MarkTable

    constructor ()
      ensures table == []
    {
      table := [];
    }

    /** Writes or replaces this identity's mark, and no other row. */
    method SetMark(task: string, identity: string, mark: Mark, sender: string, now: int)
      modifies this
      ensures table == Put(old(table), MarkKey(task, identity), MarkRow(mark.state, mark.detail, sender, now))
    {
      table := Put(table, MarkKey(task, identity), MarkRow(mark.state, mark.detail, sender, now));
    }
  }

  /** A write changes the row of one message and one marker, and leaves every other as it was. */
  lemma WriteIsLocal(table: MarkTable, key: MarkKey, row: MarkRow, other: MarkKey)
    requires UniqueKeys(table)
    ensures UniqueKeys(Put(table, key, row))
    ensures Lookup(Put(table, key, row), other) == if other == key then Some(row) else Lookup(table, other)
  {
    PutKeeps(table, key, row);
    LookupPut(table, key, row, other);
  }

  lemma {:induction false} FilterKeepsKeys(table: MarkTable, keep: MarkEntry -> bool)
    requires UniqueKeys(table)
    ensures NoRepeats(Filter(table, keep))
  {
    if table != [] {
      var rest := table[1..];
      FilterKeepsKeys(rest, keep);
      forall e | e in Filter(rest, keep) ensures e != table[0] {
        FilterHolds(rest, keep, e);
        var j :| 0 <= j < |rest| && rest[j] == e;
        assert table[0].key != table[j + 1].key;
      }
      TogetherNoRepeats([table[0]], Filter(rest, keep));
    }
  }

  lemma SortedOnce(rows: MarkTable, le: (MarkEntry, MarkEntry) -> bool)
    requires NoRepeats(rows) && TotalPreorder(le)
    ensures |Sort(rows, le)| == |rows| && NoRepeats(Sort(rows, le)) && Sorted(Sort(rows, le), le)
  {
    SortKeeps(rows, le);
    CountsSayRepeats(rows);
    CountsSayRepeats(Sort(rows, le));
    assert |multiset(Sort(rows, le))| == |Sort(rows, le)| && |multiset(rows)| == |rows|;
  }

  /** Each mark on a message is listed once, by the time it was made. */
  lemma MarksOnInOrder(table: MarkTable, task: string)
    requires UniqueKeys(table)
    ensures var marks := MarksOn(table, task);
            NoRepeats(marks) && forall i, j | 0 <= i < j < |marks| :: marks[i].value.markedAt <= marks[j].value.markedAt
  {
    var keep := (e: MarkEntry) => e.key.task == task;
    FilterKeepsKeys(table, keep);
    SortedOnce(Filter(table, keep), NotLater);
    var marks := MarksOn(table, task);
    forall i, j | 0 <= i < j < |marks| ensures marks[i].value.markedAt <= marks[j].value.markedAt {
      assert NotLater(marks[i], marks[j]);
    }
  }

  /** Each mark that names a sender is listed once, the latest first. */
  lemma MarksOfSenderInOrder(table: MarkTable, sender: string)
    requires UniqueKeys(table)
    ensures var marks := MarksOfSender(table, sender);
            NoRepeats(marks) && forall i, j | 0 <= i < j < |marks| :: marks[i].value.markedAt >= marks[j].value.markedAt
  {
    var keep := (e: MarkEntry) => e.value.sender == sender && e.value.sender != "";
    FilterKeepsKeys(table, keep);
    SortedOnce(Filter(table, keep), NotEarlier);
    var marks := MarksOfSender(table, sender);
    forall i, j | 0 <= i < j < |marks| ensures marks[i].value.markedAt >= marks[j].value.markedAt {
      assert NotEarlier(marks[i], marks[j]);
    }
  }

  /** All marks on a message and no others, oldest first. */
  lemma MarksOnExactly(table: MarkTable, task: string, e: MarkEntry)
    ensures Sorted(MarksOn(table, task), NotLater)
    ensures e in MarksOn(table, task) <==> e in table && e.key.task == task
  {
    var keep := (x: MarkEntry) => x.key.task == task;
    FilterHolds(table, keep, e);
    SortKeeps(Filter(table, keep), NotLater);
    assert e in MarksOn(table, task) <==> e in multiset(MarksOn(table, task));
  }

  /** All marks that name a sender and no others, newest first. */
  lemma MarksOfSenderExactly(table: MarkTable, sender: string, e: MarkEntry)
    ensures Sorted(MarksOfSender(table, sender), NotEarlier)
    ensures e in MarksOfSender(table, sender) <==> e in table && e.value.sender == sender && sender != ""
  {
    var keep := (x: MarkEntry) => x.value.sender == sender && x.value.sender != "";
    FilterHolds(table, keep, e);
    SortKeeps(Filter(table, keep), NotEarlier);
    assert e in MarksOfSender(table, sender) <==> e in multiset(MarksOfSender(table, sender));
  }

  /** The dictionary holds a message under a state exactly when that is this identity's current mark on it. */
  lemma {:induction false} MarkedByExactly(table: MarkTable, identity: string, task: string)
    requires UniqueKeys(table)
    ensures match Lookup(table, MarkKey(task, identity))
            case None => task !in MarkedBy(table, identity)
            case Some(row) => task in MarkedBy(table, identity) && MarkedBy(table, identity)[task] == row.state
  {
    if table != [] {
      var last, earlier := table[|table| - 1], table[..|table| - 1];
      assert table == earlier + [last];
      MarkedByExactly(earlier, identity, task);
      LookupSnoc(earlier, last, MarkKey(task, identity));
    }
  }

  lemma {:induction false} LookupSnoc(earlier: MarkTable, last: MarkEntry, key: MarkKey)
    requires UniqueKeys(earlier + [last])
    ensures Lookup(earlier + [last], key) == if last.key == key then Some(last.value) else Lookup(earlier, key)
  {
    if earlier != [] {
      assert (earlier + [last])[1..] == earlier[1..] + [last];
      assert forall i, j | 0 <= i < j < |earlier[1..] + [last]| ::
          (earlier[1..] + [last])[i] == (earlier + [last])[i + 1] && (earlier[1..] + [last])[j] == (earlier + [last])[j + 1];
      assert (earlier + [last])[0].key != (earlier + [last])[|earlier|].key;
      LookupSnoc(earlier[1..], last, key);
    }
  }
}
