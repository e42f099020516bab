/**
 Base64 with the URL-safe alphabet (section 5 of RFC 4648), as the cursor uses it: encoding
 with padding, and the library's lenient decoding.
 */
module Base64 {
  import opened Wrappers

  type Byte = x: int | 0 <= x < 256
  type Sextet = x: int | 0 <= x < 64

  const PAD := '='

  function Letter(v: Sextet): char {
    if v < 26 then ('A' as int + v) as char
    else if v < 52 then ('a' as int + v - 26) as char
    else if v < 62 then ('0' as int + v - 52) as char
    else if v == 62 then '-'
    else '_'
  }

  /** The decoder first maps `-` and `_` to `+` and `/`, and so accepts either pair. */
  function Value(c: char): Option<Sextet> {
    if 'A' <= c <= 'Z' then Some(c as int - 'A' as int)
    else if 'a' <= c <= 'z' then Some(c as int - 'a' as int + 26)
    else if '0' <= c <= '9' then Some(c as int - '0' as int + 52)
    else if c == '-' || c == '+' then Some(62)
    else if c == '_' || c == '/' then Some(63)
    else None
  }

  function Encode(b: seq<Byte>): string {
    if b == [] then ""
    else if |b| == 1 then [Letter(b[0] / 4), Letter(b[0] % 4 * 16), PAD, PAD]
    else if |b| == 2 then [Letter(b[0] / 4), Letter(b[0] % 4 * 16 + b[1] / 16), Letter(b[1] % 16 * 4), PAD]
    else
      [Letter(b[0] / 4), Letter(b[0] % 4 * 16 + b[1] / 16),
       Letter(b[1] % 16 * 4 + b[2] / 64), Letter(b[2] % 64)] + Encode(b[3..])
  }

  /** Where the decoder is: position in the current quad, its pending bits, pads seen in a row. */
  datatype Scan = Scan(quad: nat, left: Sextet, pads: nat)

  /** The byte a letter of value `v` completes, if any, and where the decoder is after it. */
  function Feed(st: Scan, v: Sextet): (Option<Byte>, Scan)
    requires st.quad < 4
  {
    match st.quad
    case 0 => (None, Scan(1, v, 0))
    case 1 => (Some((st.left * 4 + v / 16) % 256), Scan(2, v % 16, 0))
    case 2 => (Some((st.left * 16 + v / 4) % 256), Scan(3, v % 4, 0))
    case _ => (Some((st.left * 64 + v) % 256), Scan(0, 0, 0))
  }

  function Prepend(x: Byte, rest: Option<seq<Byte>>): Option<seq<Byte>> {
    if rest.None? then None else Some([x] + rest.value)
  }

  /** Characters outside the alphabet are skipped; a full set of pads ends the data. */
  function DecodeFrom(s: string, st: Scan): Option<seq<Byte>>
    requires st.quad < 4
  {
    if s == "" then (if st.quad == 0 then Some([]) else None)
    else if s[0] == PAD then
      if st.quad >= 2 && st.quad + st.pads + 1 >= 4 then Some([])
      else DecodeFrom(s[1..], if st.quad >= 2 then st.(pads := st.pads + 1) else st)
    else match Value(s[0])
      case None => DecodeFrom(s[1..], st)
      case Some(v) =>
        var (out, after) := Feed(st, v);
        if out.None? then DecodeFrom(s[1..], after) else Prepend(out.value, DecodeFrom(s[1..], after))
  }

  function Decode(s: string): Option<seq<Byte>> {
    DecodeFrom(s, Scan(0, 0, 0))
  }

  /** The URL-safe alphabet, table 2 of RFC 4648. */
  function Alphabet(): string {
    "ABCDEFGHIJKLMNOPQRSTUVWXYZ" + "abcdefghijklmnopqrstuvwxyz" + "0123456789" + "-_"
  }

  lemma LetterIsInTable(v: Sextet)
    ensures |Alphabet()| == 64 && Letter(v) == Alphabet()[v]
  {
    if v < 26 {
      assert Alphabet()[v] == "ABCDEFGHIJKLMNOPQRSTUVWXYZ"[v];
    } else if v < 52 {
      assert Alphabet()[v] == "abcdefghijklmnopqrstuvwxyz"[v - 26];
    } else if v < 62 {
      assert Alphabet()[v] == "0123456789"[v - 52];
    } else {
      assert Alphabet()[v] == "-_"[v - 62];
    }
  }

  /** The decoder reads the alphabet of section 5 and that of section 4. */
  lemma ValueIsPosition(c: char, v: Sextet)
    ensures Value(c) == Some(v) <==> c == Letter(v) || (c == '+' && v == 62) || (c == '/' && v == 63)
  {
  }

  predicate Means(c: char, v: int) {
    Value(c).Some? && Value(c).value == v
  }

  /** Four letters stand for these 24 bits. */
  ghost predicate Spell(letters: string, bits: int) {
    |letters| == 4
    && exists v1, v2, v3, v4 ::
         && Means(letters[0], v1) && Means(letters[1], v2) && Means(letters[2], v3) && Means(letters[3], v4)
         && bits == v1 * 262144 + v2 * 4096 + v3 * 64 + v4
  }

  lemma LettersSpell(v1: Sextet, v2: Sextet, v3: Sextet, v4: Sextet)
    ensures Spell([Letter(v1), Letter(v2), Letter(v3), Letter(v4)], v1 * 262144 + v2 * 4096 + v3 * 64 + v4)
  {
    var s := [Letter(v1), Letter(v2), Letter(v3), Letter(v4)];
    assert Means(s[0], v1) && Means(s[1], v2) && Means(s[2], v3) && Means(s[3], v4);
  }

  lemma BitsOfThree(x: Byte, y: Byte, z: Byte)
    ensures x / 4 * 262144 + (x % 4 * 16 + y / 16) * 4096 + (y % 16 * 4 + z / 64) * 64 + z % 64 == x * 65536 + y * 256 + z
  {
  }

  /** Three bytes, the high one first, are four letters of the same 24 bits. */
  lemma EncodeIsBits(x: Byte, y: Byte, z: Byte, rest: seq<Byte>)
    ensures |Encode([x, y, z] + rest)| >= 4
    ensures Spell(Encode([x, y, z] + rest)[..4], x * 65536 + y * 256 + z) && Encode([x, y, z] + rest)[4..] == Encode(rest)
  {
    var v1, v2, v3, v4 := x / 4, x % 4 * 16 + y / 16, y % 16 * 4 + z / 64, z % 64;
    assert ([x, y, z] + rest)[3..] == rest;
    LettersSpell(v1, v2, v3, v4);
    BitsOfThree(x, y, z);
    assert Encode([x, y, z] + rest) == [Letter(v1), Letter(v2), Letter(v3), Letter(v4)] + Encode(rest);
    assert Encode([x, y, z] + rest)[..4] == [Letter(v1), Letter(v2), Letter(v3), Letter(v4)];
  }

  /** One or two bytes at the end are the letters they share with zero bits, and pads. */
  lemma EncodeEnds(x: Byte, y: Byte)
    ensures Encode([x]) == Encode([x, 0, 0])[..2] + "=="
    ensures Encode([x, y]) == Encode([x, y, 0])[..3] + "="
  {
    assert [x, 0, 0][3..] == [] && [x, y, 0][3..] == [];
  }

  // What cannot be decoded

  predicate InAlphabet(c: char) {
    'A' <= c <= 'Z' || 'a' <= c <= 'z' || '0' <= c <= '9' || c == '-' || c == '_' || c == '+' || c == '/'
  }

  /** How many letters of the two alphabets a text has. */
  function Letters(s: string): nat {
    if s == "" then 0 else Letters(s[1..]) + if InAlphabet(s[0]) then 1 else 0
  }

  lemma NextQuad(quad: nat, more: nat)
    requires quad < 4
    ensures (quad + (more + 1)) % 4 == ((if quad == 3 then 0 else quad + 1) + more) % 4
  {
  }

  lemma {:induction false} DecodeFromFails(s: string, st: Scan)
    requires st.quad < 4 && PAD !in s
    ensures DecodeFrom(s, st).None? <==> (st.quad + Letters(s)) % 4 != 0
    decreases |s|
  {
    if s != "" {
      NextQuad(st.quad, Letters(s[1..]));
      match Value(s[0]) {
        case None => DecodeFromFails(s[1..], st);
        case Some(v) => DecodeFromFails(s[1..], Feed(st, v).1);
      }
    }
  }

  /** A text without pads is refused exactly if its letters do not make full quads; what is no letter is skipped. */
  lemma DecodeFails(s: string)
    requires '=' !in s
    ensures Decode(s).None? <==> Letters(s) % 4 != 0
  {
    DecodeFromFails(s, Scan(0, 0, 0));
  }

  lemma {:induction false} AllLetters(s: string)
    requires forall i | 0 <= i < |s| :: InAlphabet(s[i])
    ensures Letters(s) == |s| && '=' !in s
  {
    if s != "" {
      AllLetters(s[1..]);
    }
  }

  /** One letter of the encoding, consumed. */
  lemma DecodeLetter(v: Sextet, s: string, st: Scan)
    requires st.quad < 4
    ensures var (out, after) := Feed(st, v);
            DecodeFrom([Letter(v)] + s, st) ==
              if out.None? then DecodeFrom(s, after) else Prepend(out.value, DecodeFrom(s, after))
  {
    assert Value(Letter(v)) == Some(v);
    assert ([Letter(v)] + s)[1..] == s;
  }

  lemma {:induction false} RoundTrip(b: seq<Byte>)
    ensures Decode(Encode(b)) == Some(b)
  {
    if b == [] {
    } else if |b| == 1 {
      RoundTripOne(b[0]);
      assert b == [b[0]];
    } else if |b| == 2 {
      RoundTripTwo(b[0], b[1]);
      assert b == [b[0], b[1]];
    } else {
      RoundTrip(b[3..]);
      RoundTripThree(b[0], b[1], b[2], Encode(b[3..]));
      assert b == [b[0]] + ([b[1]] + ([b[2]] + b[3..]));
    }
  }

  lemma RoundTripOne(x: Byte)
    ensures Decode([Letter(x / 4), Letter(x % 4 * 16), PAD, PAD]) == Some([x])
  {
    QuadOfTwo(x / 4, x % 4 * 16, [PAD, PAD]);
    assert [Letter(x / 4), Letter(x % 4 * 16)] + [PAD, PAD] == [Letter(x / 4), Letter(x % 4 * 16), PAD, PAD];
    DecodePads(x % 4 * 16 % 16);
    Regroup(x, 0, 0);
    assert [x] + [] == [x];
  }

  lemma RoundTripTwo(x: Byte, y: Byte)
    ensures Decode([Letter(x / 4), Letter(x % 4 * 16 + y / 16), Letter(y % 16 * 4), PAD]) == Some([x, y])
  {
    var v1, v2, v3 := x / 4, x % 4 * 16 + y / 16, y % 16 * 4;
    var l1, l2, l3 := Letter(v1), Letter(v2), Letter(v3);
    QuadOfTwo(v1, v2, [l3] + [PAD]);
    assert [l1, l2] + ([l3] + [PAD]) == [l1, l2, l3, PAD];
    DecodeLetter(v3, [PAD], Scan(2, v2 % 16, 0));
    Regroup(x, y, 0);
    assert [x] + ([y] + []) == [x, y];
  }

  lemma QuadOfFour(v1: Sextet, v2: Sextet, v3: Sextet, v4: Sextet, s: string)
    ensures Decode([Letter(v1), Letter(v2), Letter(v3), Letter(v4)] + s)
              == Prepend((v1 * 4 + v2 / 16) % 256,
                         Prepend((v2 % 16 * 16 + v3 / 4) % 256, Prepend((v3 % 4 * 64 + v4) % 256, Decode(s))))
  {
    var l1, l2, l3, l4 := Letter(v1), Letter(v2), Letter(v3), Letter(v4);
    QuadOfTwo(v1, v2, [l3] + ([l4] + s));
    assert [l1, l2] + ([l3] + ([l4] + s)) == [l1, l2, l3, l4] + s;
    DecodeLetter(v3, [l4] + s, Scan(2, v2 % 16, 0));
    DecodeLetter(v4, s, Scan(3, v3 % 4, 0));
  }

  lemma RoundTripThree(x: Byte, y: Byte, z: Byte, s: string)
    ensures Decode([Letter(x / 4), Letter(x % 4 * 16 + y / 16), Letter(y % 16 * 4 + z / 64), Letter(z % 64)] + s)
              == Prepend(x, Prepend(y, Prepend(z, Decode(s))))
  {
    QuadOfFour(x / 4, x % 4 * 16 + y / 16, y % 16 * 4 + z / 64, z % 64, s);
    Regroup(x, y, z);
  }

  lemma QuadOfTwo(v1: Sextet, v2: Sextet, s: string)
    ensures Decode([Letter(v1), Letter(v2)] + s) == Prepend((v1 * 4 + v2 / 16) % 256, DecodeFrom(s, Scan(2, v2 % 16, 0)))
  {
    assert [Letter(v1), Letter(v2)] + s == [Letter(v1)] + ([Letter(v2)] + s);
    DecodeLetter(v1, [Letter(v2)] + s, Scan(0, 0, 0));
    DecodeLetter(v2, s, Scan(1, v1, 0));
  }

  lemma DecodePads(left: Sextet)
    ensures DecodeFrom([PAD, PAD], Scan(2, left, 0)) == Some([])
  {
    assert [PAD, PAD][1..] == [PAD];
    assert DecodeFrom([PAD], Scan(2, left, 1)) == Some([]);
  }

  /** Splitting three bytes into four sextets and joining them again. */
  lemma Regroup(x: Byte, y: Byte, z: Byte)
    ensures (x / 4 * 4 + (x % 4 * 16 + y / 16) / 16) % 256 == x
    ensures ((x % 4 * 16 + y / 16) % 16 * 16 + (y % 16 * 4 + z / 64) / 4) % 256 == y
    ensures ((y % 16 * 4 + z / 64) % 4 * 64 + z % 64) % 256 == z
  {
  }
}
