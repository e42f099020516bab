/**
 The JSON text the cursor is dumped as: flat objects of strings and integers, keys sorted,
 everything outside printable ASCII escaped. Each renderer writes in front of a `tail`; each
 parser returns what it read and the text after it.
 */
module Json {
  import opened Text
  import opened Wrappers

  datatype Scalar = Str(s: string) | Int(n: int)

  /** An object's members, in the order they are written. */
  type Members = seq<(string, Scalar)>

  predicate Ascii(s: string) {
    forall c | c in s :: c as int < 128
  }

  // Strings

  function HexDigit(d: int): (c: char)
    requires 0 <= d < 16
    ensures c as int < 128
  {
    if d < 10 then ('0' as int + d) as char else ('a' as int + d - 10) as char
  }

  function HexValue(c: char): (r: Option<int>)
    ensures r.Some? ==> 0 <= r.value < 16
  {
    if '0' <= c <= '9' then Some(c as int - '0' as int)
    else if 'a' <= c <= 'f' then Some(c as int - 'a' as int + 10)
    else if 'A' <= c <= 'F' then Some(c as int - 'A' as int + 10)
    else None
  }

  function Hex4(n: int): (s: string)
    requires 0 <= n < 0x10000
    ensures |s| == 4 && Ascii(s)
  {
    [HexDigit(n / 4096), HexDigit(n / 256 % 16), HexDigit(n / 16 % 16), HexDigit(n % 16)]
  }

  function ParseHex4(t: string): (r: Option<int>)
    ensures r.Some? ==> |t| >= 4 && 0 <= r.value < 0x10000
  {
    if |t| < 4 then None
    else
      var a, b, c, d := HexValue(t[0]), HexValue(t[1]), HexValue(t[2]), HexValue(t[3]);
      if a.Some? && b.Some? && c.Some? && d.Some?
      then Some(a.value * 4096 + b.value * 256 + c.value * 16 + d.value)
      else None
  }

  function Escape(c: char): (s: string)
    ensures s != "" && s[0] != '"' && Ascii(s)
  {
    var n := c as int;
    if c == '"' then "\\\""
    else if c == '\\' then "\\\\"
    else if c == '\n' then "\\n"
    else if c == '\r' then "\\r"
    else if c == '\t' then "\\t"
    else if n == 8 then "\\b"
    else if n == 12 then "\\f"
    else if ' ' <= c <= '~' then [c]
    else if n < 0x10000 then "\\u" + Hex4(n)
    else "\\u" + Hex4(0xd800 + (n - 0x10000) / 0x400) + "\\u" + Hex4(0xdc00 + (n - 0x10000) % 0x400)
  }

  /** Printable ASCII but for the quote and the backslash is written as it is; all else is escaped, in ASCII. */
  lemma EscapedExactly(c: char)
    ensures Escape(c) == [c] <==> 0x20 <= c as int <= 0x7e && c != '"' && c != '\\'
    ensures Escape(c) != [c] ==> Escape(c)[0] == '\\' && |Escape(c)| in {2, 6, 12}
    ensures Ascii(Escape(c))
  {
  }

  /** One character of a string body, escaped or not. Lone surrogates are not characters. */
  function ParseChar(t: string): (r: Option<(char, string)>)
    ensures r.Some? ==> |r.value.1| < |t|
  {
    if t == "" || t[0] < ' ' then None
    else if t[0] != '\\' then Some((t[0], t[1..]))
    else if |t| == 1 then None
    else if t[1] == 'n' then Some(('\n', t[2..]))
    else if t[1] == 'r' then Some(('\r', t[2..]))
    else if t[1] == 't' then Some(('\t', t[2..]))
    else if t[1] == 'b' then Some((8 as char, t[2..]))
    else if t[1] == 'f' then Some((12 as char, t[2..]))
    else if t[1] == '"' || t[1] == '\\' || t[1] == '/' then Some((t[1], t[2..]))
    else if t[1] == 'u' then ParseUnicode(t[2..])
    else None
  }

  function ParseUnicode(t: string): (r: Option<(char, string)>)
    ensures r.Some? ==> |r.value.1| < |t|
  {
    match ParseHex4(t)
    case None => None
    case Some(n) =>
      if n < 0xd800 || n >= 0xe000 then Some((n as char, t[4..]))
      else if n < 0xdc00 && |t| >= 6 && t[4] == '\\' && t[5] == 'u' then
        match ParseHex4(t[6..])
        case None => None
        case Some(low) =>
          if 0xdc00 <= low < 0xe000
          then Some(((0x10000 + (n - 0xd800) * 0x400 + (low - 0xdc00)) as char, t[10..]))
          else None
      else None
  }

  function BodyThen(s: string, tail: string): (r: string)
    ensures Ascii(tail) ==> Ascii(r)
  {
    if s == "" then ['"'] + tail else Escape(s[0]) + BodyThen(s[1..], tail)
  }

  function ParseBody(t: string): (r: Option<(string, string)>)
    ensures r.Some? ==> |r.value.1| < |t|
    decreases |t|
  {
    if t != "" && t[0] == '"' then Some(("", t[1..]))
    else match ParseChar(t)
      case None => None
      case Some((c, rest)) =>
        match ParseBody(rest)
        case None => None
        case Some((s, after)) => Some(([c] + s, after))
  }

  lemma Hex4Parses(n: int, tail: string)
    requires 0 <= n < 0x10000
    ensures ParseHex4(Hex4(n) + tail) == Some(n) && (Hex4(n) + tail)[4..] == tail
  {
    HexDigitValue(n / 4096);
    HexDigitValue(n / 256 % 16);
    HexDigitValue(n / 16 % 16);
    HexDigitValue(n % 16);
    HexPlaces(n);
    assert (Hex4(n) + tail)[4..] == tail;
  }

  lemma HexDigitValue(d: int)
    requires 0 <= d < 16
    ensures HexValue(HexDigit(d)) == Some(d)
  {
  }

  lemma HexPlaces(n: int)
    requires 0 <= n < 0x10000
    ensures n / 4096 * 4096 + n / 256 % 16 * 256 + n / 16 % 16 * 16 + n % 16 == n
  {
    var m := n / 16;
    assert n / 256 == m / 16;
    assert n / 4096 == m / 256;
  }

  /** A surrogate pair is one character. */
  lemma PairParses(hi: int, lo: int, tail: string)
    requires 0xd800 <= hi < 0xdc00 <= lo < 0xe000
    ensures ParseUnicode(Hex4(hi) + ("\\u" + (Hex4(lo) + tail)))
              == Some(((0x10000 + (hi - 0xd800) * 0x400 + (lo - 0xdc00)) as char, tail))
  {
    var rest := "\\u" + (Hex4(lo) + tail);
    Hex4Parses(hi, rest);
    Hex4Parses(lo, tail);
    assert rest[2..] == Hex4(lo) + tail;
    assert (Hex4(hi) + rest)[6..] == rest[2..];
    assert (Hex4(hi) + rest)[10..] == tail;
  }

  lemma PairOf(n: int) returns (hi: int, lo: int)
    requires 0x10000 <= n < 0x110000
    ensures hi == 0xd800 + (n - 0x10000) / 0x400 && lo == 0xdc00 + (n - 0x10000) % 0x400
    ensures 0xd800 <= hi < 0xdc00 <= lo < 0xe000 && 0x10000 + (hi - 0xd800) * 0x400 + (lo - 0xdc00) == n
  {
    hi, lo := 0xd800 + (n - 0x10000) / 0x400, 0xdc00 + (n - 0x10000) % 0x400;
  }

  lemma UnicodeParses(t: string, rest: string)
    requires t == "\\u" + rest
    ensures ParseChar(t) == ParseUnicode(rest)
  {
    assert t[2..] == rest;
  }

  lemma EscapedPair(c: char, hi: int, lo: int)
    requires c as int >= 0x10000 && 0 <= hi < 0x10000 && 0 <= lo < 0x10000
    requires hi == 0xd800 + (c as int - 0x10000) / 0x400 && lo == 0xdc00 + (c as int - 0x10000) % 0x400
    ensures Escape(c) == "\\u" + Hex4(hi) + "\\u" + Hex4(lo)
  {
  }

  lemma Nested(u: string, a: string, b: string, tail: string)
    ensures u + a + u + b + tail == u + (a + (u + (b + tail)))
  {
  }

  lemma PairEscapeParses(c: char, tail: string)
    requires c as int >= 0x10000
    ensures ParseChar(Escape(c) + tail) == Some((c, tail))
  {
    var hi, lo := PairOf(c as int);
    var rest := Hex4(hi) + ("\\u" + (Hex4(lo) + tail));
    PairParses(hi, lo, tail);
    EscapedPair(c, hi, lo);
    Nested("\\u", Hex4(hi), Hex4(lo), tail);
    UnicodeParses(Escape(c) + tail, rest);
  }

  lemma EscapeParses(c: char, tail: string)
    ensures ParseChar(Escape(c) + tail) == Some((c, tail))
  {
    var n := c as int;
    var t := Escape(c) + tail;
    if n >= 0x10000 {
      PairEscapeParses(c, tail);
    } else if |Escape(c)| == 6 {
      assert t[2..] == Hex4(n) + tail;
      Hex4Parses(n, tail);
    } else {
      assert t[|Escape(c)|..] == tail;
    }
  }

  lemma {:induction false} BodyParses(s: string, tail: string)
    ensures ParseBody(BodyThen(s, tail)) == Some((s, tail))
  {
    if s != "" {
      BodyParses(s[1..], tail);
      EscapeParses(s[0], BodyThen(s[1..], tail));
      assert s == [s[0]] + s[1..];
    }
  }

  // Integers

  function DigitsThen(n: nat, tail: string): (r: string)
    ensures Ascii(tail) ==> Ascii(r)
    ensures r != "" && '0' <= r[0] <= '9'
  {
    var last := [('0' as int + n % 10) as char] + tail;
    if n < 10 then last else DigitsThen(n / 10, last)
  }

  function IntThen(n: int, tail: string): (r: string)
    ensures Ascii(tail) ==> Ascii(r)
  {
    if n < 0 then ['-'] + DigitsThen(-n, tail) else DigitsThen(n, tail)
  }

  function ParseDigits(t: string, acc: nat): (nat, string) {
    if t != "" && '0' <= t[0] <= '9' then ParseDigits(t[1..], acc * 10 + (t[0] as int - '0' as int)) else (acc, t)
  }

  function ParseInt(t: string): (int, string) {
    if t != "" && t[0] == '-' then
      var digits := ParseDigits(t[1..], 0);
      (-(digits.0 as int), digits.1)
    else
      ParseDigits(t, 0)
  }

  lemma {:induction false} DigitsParse(n: nat, tail: string)
    ensures ParseDigits(DigitsThen(n, tail), 0) == ParseDigits(tail, n)
  {
    var last := [('0' as int + n % 10) as char] + tail;
    assert last[1..] == tail;
    if n >= 10 {
      DigitsParse(n / 10, last);
    }
  }

  lemma IntParses(n: int, tail: string)
    requires tail != "" && !('0' <= tail[0] <= '9')
    ensures ParseInt(IntThen(n, tail)) == (n, tail)
  {
    DigitsParse(if n < 0 then -n else n, tail);
    if n < 0 {
      assert IntThen(n, tail)[1..] == DigitsThen(-n, tail);
    }
  }

  lemma {:induction false} ParseDigitsShrinks(t: string, acc: nat)
    ensures |ParseDigits(t, acc).1| <= |t|
  {
    if t != "" && '0' <= t[0] <= '9' {
      ParseDigitsShrinks(t[1..], acc * 10 + (t[0] as int - '0' as int));
    }
  }

  // Objects

  function ScalarThen(v: Scalar, tail: string): (r: string)
    ensures Ascii(tail) ==> Ascii(r)
  {
    match v
    case Str(s) => ['"'] + BodyThen(s, tail)
    case Int(n) => IntThen(n, tail)
  }

  function ParseScalar(t: string): (r: Option<(Scalar, string)>)
    ensures r.Some? ==> |r.value.1| <= |t|
  {
    if t != "" && t[0] == '"' then
      match ParseBody(t[1..])
      case None => None
      case Some((s, rest)) => Some((Str(s), rest))
    else
      var (n, rest) := ParseInt(t);
      ParseDigitsShrinks(if t != "" && t[0] == '-' then t[1..] else t, 0);
      Some((Int(n), rest))
  }

  lemma ScalarParses(v: Scalar, tail: string)
    requires tail != "" && !('0' <= tail[0] <= '9')
    ensures ParseScalar(ScalarThen(v, tail)) == Some((v, tail))
  {
    match v
    case Str(s) =>
      BodyParses(s, tail);
      assert ScalarThen(v, tail)[1..] == BodyThen(s, tail);
    case Int(n) =>
      IntParses(n, tail);
  }

  function MemberThen(k: string, v: Scalar, tail: string): (r: string)
  {
    ['"'] + BodyThen(k, ": " + ScalarThen(v, tail))
  }

  function MembersThen(l: Members, tail: string): string {
    if l == [] then ['}'] + tail
    else if |l| == 1 then MemberThen(l[0].0, l[0].1, ['}'] + tail)
    else MemberThen(l[0].0, l[0].1, ", " + MembersThen(l[1..], tail))
  }

  function ObjectThen(l: Members, tail: string): string {
    ['{'] + MembersThen(l, tail)
  }

  function ParseMember(t: string): (r: Option<(string, Scalar, string)>)
    ensures r.Some? ==> |r.value.2| < |t|
  {
    if t == "" || t[0] != '"' then None
    else match ParseBody(t[1..])
      case None => None
      case Some((k, rest)) =>
        if !(": " <= rest) then None
        else match ParseScalar(rest[2..])
          case None => None
          case Some((v, after)) => Some((k, v, after))
  }

  /** Members up to the closing brace. */
  function ParseMembers(t: string): Option<(Members, string)>
    decreases |t|
  {
    match ParseMember(t)
    case None => None
    case Some((k, v, rest)) =>
      if "}" <= rest then Some(([(k, v)], rest[1..]))
      else if !(", " <= rest) then None
      else match ParseMembers(rest[2..])
        case None => None
        case Some((l, after)) => Some(([(k, v)] + l, after))
  }

  function ParseObject(t: string): Option<(Members, string)> {
    if "{}" <= t then Some(([], t[2..]))
    else if "{" <= t then ParseMembers(t[1..])
    else None
  }

  lemma MemberParses(k: string, v: Scalar, tail: string)
    requires tail != "" && !('0' <= tail[0] <= '9')
    ensures ParseMember(MemberThen(k, v, tail)) == Some((k, v, tail))
  {
    var rest := ": " + ScalarThen(v, tail);
    assert MemberThen(k, v, tail)[1..] == BodyThen(k, rest);
    BodyParses(k, rest);
    assert rest[2..] == ScalarThen(v, tail);
    ScalarParses(v, tail);
  }

  lemma LastMemberParses(k: string, v: Scalar, tail: string)
    ensures ParseMembers(MemberThen(k, v, ['}'] + tail)) == Some(([(k, v)], tail))
  {
    MemberParses(k, v, ['}'] + tail);
    assert (['}'] + tail)[1..] == tail;
  }

  lemma NextMemberParses(k: string, v: Scalar, t: string, l: Members, tail: string)
    requires ParseMembers(t) == Some((l, tail))
    ensures ParseMembers(MemberThen(k, v, ", " + t)) == Some(([(k, v)] + l, tail))
  {
    MemberParses(k, v, ", " + t);
    assert (", " + t)[2..] == t;
  }

  lemma {:induction false} MembersParse(l: Members, tail: string)
    requires l != []
    ensures ParseMembers(MembersThen(l, tail)) == Some((l, tail))
  {
    var (k, v) := l[0];
    if |l| == 1 {
      LastMemberParses(k, v, tail);
      assert l == [(k, v)];
    } else {
      MembersParse(l[1..], tail);
      NextMemberParses(k, v, MembersThen(l[1..], tail), l[1..], tail);
      assert l == [(k, v)] + l[1..];
    }
  }

  lemma ObjectParses(l: Members, tail: string)
    ensures ParseObject(ObjectThen(l, tail)) == Some((l, tail))
  {
    assert ObjectThen(l, tail)[1..] == MembersThen(l, tail);
    if l == [] {
      assert ObjectThen(l, tail) == "{}" + tail;
    } else {
      assert MembersThen(l, tail)[0] == '"';
      MembersParse(l, tail);
    }
  }

  lemma {:induction false} MembersAscii(l: Members, tail: string)
    requires Ascii(tail)
    ensures Ascii(MembersThen(l, tail))
  {
    if l != [] {
      var more := if |l| == 1 then ['}'] + tail else ", " + MembersThen(l[1..], tail);
      if |l| > 1 {
        MembersAscii(l[1..], tail);
      }
      assert Ascii(more);
      assert Ascii(": " + ScalarThen(l[0].1, more));
      assert MembersThen(l, tail) == ['"'] + BodyThen(l[0].0, ": " + ScalarThen(l[0].1, more));
    }
  }

  // Dictionaries

  /** A dictionary's items, sorted by key. */
  function Items<V>(m: map<string, V>): seq<(string, V)>
    decreases |m|
  {
    if m == map[] then []
    else
      var k := Least(m.Keys);
      RemovalShrinks(m, k);
      [(k, m[k])] + Items(m - {k})
  }

  lemma ItemsBegin<V>(m: map<string, V>) returns (k: string, rest: map<string, V>)
    requires m != map[]
    ensures k in m && k !in rest && |rest| < |m| && (forall x | x in m :: Le(k, x)) && forall x | x in rest :: x in m
    ensures Items(m) == [(k, m[k])] + Items(rest)
  {
    k := Least(m.Keys);
    RemovalShrinks(m, k);
    rest := m - {k};
  }

  lemma {:induction false} ItemKeys<V>(m: map<string, V>, i: nat)
    requires i < |Items(m)|
    ensures Items(m)[i].0 in m
    decreases |m|
  {
    var k, rest := ItemsBegin(m);
    if i > 0 {
      ItemKeys(rest, i - 1);
      assert Items(m)[i] == Items(rest)[i - 1];
    }
  }

  /** A dump writes the keys of a dictionary in the order of their text. */
  lemma {:induction false} ItemsAreSorted<V>(m: map<string, V>, i: nat, j: nat)
    requires i < j < |Items(m)|
    ensures Less(Items(m)[i].0, Items(m)[j].0)
    decreases |m|
  {
    var k, rest := ItemsBegin(m);
    var x, y := Items(m)[i].0, Items(m)[j].0;
    assert Items(m)[j] == Items(rest)[j - 1];
    if i == 0 {
      ItemKeys(rest, j - 1);
      LeTotal(k, y);
    } else {
      assert Items(m)[i] == Items(rest)[i - 1];
      ItemsAreSorted(rest, i - 1, j - 1);
    }
  }

  /** The dictionary of some items; a repeated key keeps its last value. */
  function Dict<V>(l: seq<(string, V)>): map<string, V> {
    if l == [] then map[] else map[l[0].0 := l[0].1] + Dict(l[1..])
  }

  lemma RemovalShrinks<V>(m: map<string, V>, k: string)
    requires k in m
    ensures |m - {k}| < |m|
    ensures m == map[k := m[k]] + (m - {k})
  {
    var r := m - {k};
    assert m.Keys == r.Keys + {k} && k !in r.Keys;
    assert |m.Keys| == |r.Keys| + 1;
  }

  lemma {:induction false} DictOfItems<V>(m: map<string, V>)
    ensures Dict(Items(m)) == m
    decreases |m|
  {
    if m != map[] {
      var k := Least(m.Keys);
      RemovalShrinks(m, k);
      DictOfItems(m - {k});
      assert Items(m)[1..] == Items(m - {k});
    }
  }

  function OfInts(l: seq<(string, int)>): Members {
    if l == [] then [] else [(l[0].0, Int(l[0].1))] + OfInts(l[1..])
  }

  function OfStrings(l: seq<(string, string)>): Members {
    if l == [] then [] else [(l[0].0, Str(l[0].1))] + OfStrings(l[1..])
  }

  function AsInts(l: Members): Option<seq<(string, int)>> {
    if l == [] then Some([])
    else if !l[0].1.Int? then None
    else match AsInts(l[1..])
      case None => None
      case Some(rest) => Some([(l[0].0, l[0].1.n)] + rest)
  }

  function AsStrings(l: Members): Option<seq<(string, string)>> {
    if l == [] then Some([])
    else if !l[0].1.Str? then None
    else match AsStrings(l[1..])
      case None => None
      case Some(rest) => Some([(l[0].0, l[0].1.s)] + rest)
  }

  lemma {:induction false} IntsRoundTrip(l: seq<(string, int)>)
    ensures AsInts(OfInts(l)) == Some(l)
  {
    if l != [] {
      var rest := l[1..];
      IntsRoundTrip(rest);
      assert OfInts(l)[1..] == OfInts(rest);
      assert l == [l[0]] + rest;
    }
  }

  lemma {:induction false} StringsRoundTrip(l: seq<(string, string)>)
    ensures AsStrings(OfStrings(l)) == Some(l)
  {
    if l != [] {
      StringsRoundTrip(l[1..]);
      assert OfStrings(l)[1..] == OfStrings(l[1..]);
      assert l == [(l[0].0, l[0].1)] + l[1..];
    }
  }
}
