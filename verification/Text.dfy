/** The few string operations the hub relies on, with their library meaning. */
module Text {

  /** Code points that Python's `str.strip` removes. */
  predicate IsSpace(c: char) {
    var n := c as int;
    || 0x09 <= n <= 0x0d || 0x1c <= n <= 0x20 || n == 0x85 || n == 0xa0 || n == 0x1680
    || 0x2000 <= n <= 0x200a || n == 0x2028 || n == 0x2029 || n == 0x202f || n == 0x205f || n == 0x3000
  }

  /** Those of Unicode's white space and information separators, 29 in all. */
  lemma SpacesAre(c: char)
    ensures IsSpace(c) <==> c as int in {9, 10, 11, 12, 13, 28, 29, 30, 31, 32, 133, 160, 5760, 8192, 8193, 8194, 8195, 8196,
                                         8197, 8198, 8199, 8200, 8201, 8202, 8232, 8233, 8239, 8287, 12288}
  {
  }

  function StripLeft(s: string): string {
    if s != "" && IsSpace(s[0]) then StripLeft(s[1..]) else s
  }

  function StripRight(s: string): string {
    if s != "" && IsSpace(s[|s| - 1]) then StripRight(s[..|s| - 1]) else s
  }

  function Strip(s: string): string {
    StripRight(StripLeft(s))
  }

  predicate Trimmed(s: string) {
    s == "" || (!IsSpace(s[0]) && !IsSpace(s[|s| - 1]))
  }

  lemma {:induction false} StripLeftTrims(s: string)
    ensures StripLeft(s) == "" || !IsSpace(StripLeft(s)[0])
    ensures |StripLeft(s)| <= |s|
  {
    if s != "" && IsSpace(s[0]) {
      StripLeftTrims(s[1..]);
    }
  }

  lemma {:induction false} StripRightTrims(s: string)
    ensures StripRight(s) <= s
    ensures StripRight(s) == "" || !IsSpace(StripRight(s)[|StripRight(s)| - 1])
  {
    if s != "" && IsSpace(s[|s| - 1]) {
      StripRightTrims(s[..|s| - 1]);
    }
  }

  lemma StripTrims(s: string)
    ensures Trimmed(Strip(s)) && |Strip(s)| <= |s|
    ensures Trimmed(s) <==> Strip(s) == s
  {
    StripLeftTrims(s);
    StripRightTrims(StripLeft(s));
  }

  predicate Blank(s: string) {
    forall i | 0 <= i < |s| :: IsSpace(s[i])
  }

  /** `s` is `core` between blanks. */
  ghost predicate Padded(s: string, core: string) {
    exists left, right :: Blank(left) && Blank(right) && s == left + core + right
  }

  lemma {:induction false} StripLeftSplits(s: string) returns (left: string)
    ensures Blank(left) && s == left + StripLeft(s)
  {
    if s != "" && IsSpace(s[0]) {
      var more := StripLeftSplits(s[1..]);
      left := [s[0]] + more;
      assert s == [s[0]] + s[1..];
    } else {
      left := "";
    }
  }

  lemma {:induction false} StripRightSplits(s: string) returns (right: string)
    ensures Blank(right) && s == StripRight(s) + right
  {
    if s != "" && IsSpace(s[|s| - 1]) {
      var more := StripRightSplits(s[..|s| - 1]);
      right := more + [s[|s| - 1]];
      assert s == s[..|s| - 1] + [s[|s| - 1]];
    } else {
      right := "";
    }
  }

  lemma {:induction false} StripLeftOfPadded(left: string, core: string)
    requires Blank(left) && core != "" && !IsSpace(core[0])
    ensures StripLeft(left + core) == core
  {
    if left == "" {
      assert left + core == core;
    } else {
      assert (left + core)[1..] == left[1..] + core && (left + core)[0] == left[0];
      StripLeftOfPadded(left[1..], core);
    }
  }

  lemma {:induction false} StripRightOfPadded(core: string, right: string)
    requires Blank(right) && core != "" && !IsSpace(core[|core| - 1])
    ensures StripRight(core + right) == core
  {
    if right == "" {
      assert core + right == core;
    } else {
      var s := core + right;
      assert s[..|s| - 1] == core + right[..|right| - 1] && s[|s| - 1] == right[|right| - 1];
      StripRightOfPadded(core, right[..|right| - 1]);
    }
  }

  /** What is left of a text is what lies between its outer blanks. */
  lemma StripIsCore(s: string, core: string)
    requires core != ""
    ensures Strip(s) == core <==> Trimmed(core) && Padded(s, core)
  {
    if Strip(s) == core {
      StripIsPadded(s);
      StripTrims(s);
    }
    if Trimmed(core) && Padded(s, core) {
      StripOfPadded(s, core);
    }
  }

  lemma StripIsPadded(s: string)
    ensures Padded(s, Strip(s))
  {
    var left := StripLeftSplits(s);
    var right := StripRightSplits(StripLeft(s));
    assert s == left + Strip(s) + right;
  }

  lemma StripOfPadded(s: string, core: string)
    requires core != "" && Trimmed(core) && Padded(s, core)
    ensures Strip(s) == core
  {
    var left, right :| Blank(left) && Blank(right) && s == left + core + right;
    assert s == left + (core + right);
    StripLeftOfPadded(left, core + right);
    StripRightOfPadded(core, right);
  }

  lemma {:induction false} StripLeftOfBlank(s: string)
    requires Blank(s)
    ensures StripLeft(s) == ""
  {
    if s != "" {
      StripLeftOfBlank(s[1..]);
    }
  }

  /** Nothing is left exactly of blanks. */
  lemma StripOfBlank(s: string)
    ensures Strip(s) == "" <==> Blank(s)
  {
    if Blank(s) {
      StripLeftOfBlank(s);
    }
    if Strip(s) == "" {
      var left := StripLeftSplits(s);
      var right := StripRightSplits(StripLeft(s));
      assert s == left + right;
    }
  }

  function LowerChar(c: char): char {
    if 'A' <= c <= 'Z' then (c as int + 32) as char else c
  }

  /** Lower case as far as ASCII letters go. */
  function Lower(s: string): string {
    if s == "" then "" else [LowerChar(s[0])] + Lower(s[1..])
  }

  /** The same but for the case of an ASCII letter. */
  predicate SameLetter(c: char, d: char) {
    || c == d
    || ('A' <= c <= 'Z' && d as int == c as int + 32)
    || ('A' <= d <= 'Z' && c as int == d as int + 32)
  }

  predicate SameLetters(s: string, t: string) {
    |s| == |t| && forall i | 0 <= i < |s| :: SameLetter(s[i], t[i])
  }

  predicate LowerLetters(s: string) {
    forall i | 0 <= i < |s| :: 'a' <= s[i] <= 'z'
  }

  lemma {:induction false} LowerIsSameLetters(s: string, t: string)
    requires LowerLetters(t)
    ensures Lower(s) == t <==> SameLetters(s, t)
  {
    if s != "" && t != "" {
      LowerIsSameLetters(s[1..], t[1..]);
      assert s == [s[0]] + s[1..] && t == [t[0]] + t[1..];
      if SameLetters(s[1..], t[1..]) && LowerChar(s[0]) == t[0] {
        forall i | 0 <= i < |s| ensures SameLetter(s[i], t[i]) {
          assert i > 0 ==> SameLetter(s[1..][i - 1], t[1..][i - 1]);
        }
      }
      if SameLetters(s, t) {
        assert SameLetter(s[0], t[0]);
        assert forall i | 0 <= i < |s[1..]| :: s[1..][i] == s[i + 1] && t[1..][i] == t[i + 1];
      }
    }
  }

  lemma {:induction false} LowerKeeps(s: string)
    requires LowerLetters(s)
    ensures Lower(s) == s
  {
    if s != "" {
      LowerKeeps(s[1..]);
      assert s == [s[0]] + s[1..];
    }
  }

  /** Text before the first `sep`, whether there was one, and the text after it. */
  function Partition(s: string, sep: char): (string, bool, string) {
    if s == "" then ("", false, "")
    else if s[0] == sep then ("", true, s[1..])
    else var (head, found, tail) := Partition(s[1..], sep); ([s[0]] + head, found, tail)
  }

  lemma {:induction false} PartitionSplits(s: string, sep: char)
    ensures var (head, found, tail) := Partition(s, sep);
            && sep !in head
            && (if found then s == head + [sep] + tail else s == head && tail == "")
  {
    if s != "" && s[0] != sep {
      PartitionSplits(s[1..], sep);
      assert s == [s[0]] + s[1..];
    }
  }

  lemma {:induction false} PartitionOfJoin(head: string, sep: char, tail: string)
    requires sep !in head
    ensures Partition(head + [sep] + tail, sep) == (head, true, tail)
  {
    var s := head + [sep] + tail;
    if head != "" {
      assert s[1..] == head[1..] + [sep] + tail;
      PartitionOfJoin(head[1..], sep, tail);
      assert [head[0]] + head[1..] == head;
    } else {
      assert s[1..] == tail;
    }
  }

  lemma PartitionOfPlain(s: string, sep: char)
    requires sep !in s
    ensures Partition(s, sep) == (s, false, "")
  {
    PartitionSplits(s, sep);
    var (head, found, tail) := Partition(s, sep);
    assert found ==> sep in head + [sep] + tail;
  }

  /** Lexicographic order on code points. */
  predicate Le(s: string, t: string) {
    s == "" || (t != "" && (s[0] < t[0] || (s[0] == t[0] && Le(s[1..], t[1..]))))
  }

  predicate Less(s: string, t: string) {
    !Le(t, s)
  }

  lemma {:induction false} LeTotal(s: string, t: string)
    ensures Le(s, t) || Le(t, s)
    ensures Le(s, t) && Le(t, s) ==> s == t
  {
    if s != "" && t != "" && s[0] == t[0] {
      LeTotal(s[1..], t[1..]);
      assert s == [s[0]] + s[1..] && t == [t[0]] + t[1..];
    }
  }

  lemma {:induction false} LeTransitive(s: string, t: string, u: string)
    requires Le(s, t) && Le(t, u)
    ensures Le(s, u)
  {
    if s != "" && s[0] == t[0] == u[0] {
      LeTransitive(s[1..], t[1..], u[1..]);
    }
  }

  lemma {:induction false} LeastExists(keys: set<string>)
    requires keys != {}
    ensures exists k :: k in keys && forall x | x in keys :: Le(k, x)
  {
    var k :| k in keys;
    LeTotal(k, k);
    var rest := keys - {k};
    assert forall x | x in keys :: x == k || x in rest;
    if rest != {} {
      LeastExists(rest);
      var m :| m in rest && forall x | x in rest :: Le(m, x);
      LeTotal(k, m);
      var least := if Le(k, m) then k else m;
      forall x | x in keys ensures Le(least, x) {
        if Le(k, m) && x != k { LeTransitive(k, m, x); }
      }
      assert least in keys;
    }
  }

  /** The least key, which a sorted dump writes first. */
  function Least(keys: set<string>): (k: string)
    requires keys != {}
    ensures k in keys
    ensures forall x | x in keys :: Le(k, x)
  {
    LeastExists(keys);
    assert forall p, q | p in keys && q in keys && Le(p, q) && Le(q, p) :: p == q by {
      forall p, q | p in keys && q in keys && Le(p, q) && Le(q, p) ensures p == q {
        LeTotal(p, q);
      }
    }
    var k :| k in keys && forall x | x in keys :: Le(k, x);
    k
  }
}
