/**
 The opaque page token of a merged listing (`_Cursor`, `_encode_cursor`, `_decode_cursor` in
 `store.py`): JSON with sorted keys, inside URL-safe base64.
 */
module Cursors {
  import B = Base64
  import J = Json
  import opened Wrappers

  /** Each mailbox's own token, how far into the merged batch, and the totals of the first page. */
  datatype Cursor = Cursor(tokens: map<string, string>, skip: int, totals: map<string, int>)

  const START := Cursor(map[], 0, map[])

  /**
   What the JSON library and the conversions after it make of a text that the encoder never
   writes; `None` when any of it raises. Nothing is assumed about it.
   */
  type Foreign = seq<B.Byte> -> Option<Cursor>

  function Render(c: Cursor): string {
    var totals, tokens := J.OfInts(J.Items(c.totals)), J.OfStrings(J.Items(c.tokens));
    "{\"n\": " + J.ObjectThen(totals, ", \"s\": " + J.IntThen(c.skip, ", \"t\": " + J.ObjectThen(tokens, "}")))
  }

  function After(prefix: string, t: string): Option<string> {
    if prefix <= t then Some(t[|prefix|..]) else None
  }

  function Parse(t: string): Option<Cursor> {
    match After("{\"n\": ", t) case None => None case Some(t1) =>
    match J.ParseObject(t1) case None => None case Some((n, t2)) =>
    match After(", \"s\": ", t2) case None => None case Some(t3) =>
    var (s, t4) := J.ParseInt(t3);
    match After(", \"t\": ", t4) case None => None case Some(t5) =>
    match J.ParseObject(t5) case None => None case Some((t, t6)) =>
    match (J.AsInts(n), J.AsStrings(t))
    case (Some(totals), Some(tokens)) => if t6 == "}" then Some(Cursor(J.Dict(tokens), s, J.Dict(totals))) else None
    case _ => None
  }

  function ByteOf(c: char): B.Byte
    requires c as int < 128
  {
    c as int
  }

  function Bytes(t: string): (b: seq<B.Byte>)
    requires J.Ascii(t)
  {
    seq(|t|, i requires 0 <= i < |t| => assert t[i] in t; ByteOf(t[i]))
  }

  function TextOf(b: seq<B.Byte>): Option<string> {
    if forall x | x in b :: x < 128
    then Some(seq(|b|, i requires 0 <= i < |b| => assert b[i] in b; b[i] as char))
    else None
  }

  /** The cursor a text dumps, if the text is exactly a dump. */
  function Recognise(b: seq<B.Byte>): Option<Cursor> {
    match TextOf(b)
    case None => None
    case Some(t) =>
      match Parse(t)
      case None => None
      case Some(c) => if Render(c) == t then Some(c) else None
  }

  function Encode(c: Cursor): string {
    RenderAscii(c);
    B.Encode(Bytes(Render(c)))
  }

  function Clamp(c: Cursor): (r: Cursor)
    ensures r.skip >= 0
  {
    c.(skip := if c.skip < 0 then 0 else c.skip)
  }

  /** Anything unreadable means "start from the beginning". */
  function Decode(foreign: Foreign, token: string): (c: Cursor)
    ensures c.skip >= 0
  {
    if token == "" then START
    else match B.Decode(token)
      case None => START
      case Some(b) =>
        match Recognise(b)
        case Some(c) => Clamp(c)
        case None => match foreign(b) case None => START case Some(c) => Clamp(c)
  }

  lemma RenderAscii(c: Cursor)
    ensures J.Ascii(Render(c))
  {
    var totals, tokens := J.OfInts(J.Items(c.totals)), J.OfStrings(J.Items(c.tokens));
    J.MembersAscii(tokens, "}");
    var t5 := ", \"t\": " + J.ObjectThen(tokens, "}");
    assert J.Ascii(t5);
    var t3 := ", \"s\": " + J.IntThen(c.skip, t5);
    assert J.Ascii(t3);
    J.MembersAscii(totals, t3);
  }

  lemma ParseRender(c: Cursor)
    ensures Parse(Render(c)) == Some(c)
  {
    var totals, tokens := J.OfInts(J.Items(c.totals)), J.OfStrings(J.Items(c.tokens));
    var t6 := "}";
    var t5 := J.ObjectThen(tokens, t6);
    var t4 := ", \"t\": " + t5;
    var t3 := J.IntThen(c.skip, t4);
    var t2 := ", \"s\": " + t3;
    var t1 := J.ObjectThen(totals, t2);
    J.ObjectParses(totals, t2);
    J.IntParses(c.skip, t4);
    J.ObjectParses(tokens, t6);
    AfterPrefix("{\"n\": ", t1);
    AfterPrefix(", \"s\": ", t3);
    AfterPrefix(", \"t\": ", t5);
    J.IntsRoundTrip(J.Items(c.totals));
    J.DictOfItems(c.totals);
    J.StringsRoundTrip(J.Items(c.tokens));
    J.DictOfItems(c.tokens);
  }

  lemma AfterPrefix(prefix: string, t: string)
    ensures After(prefix, prefix + t) == Some(t)
  {
    assert (prefix + t)[|prefix|..] == t;
  }

  lemma TextOfBytes(t: string)
    requires J.Ascii(t)
    ensures TextOf(Bytes(t)) == Some(t)
  {
    var b := Bytes(t);
    forall x | x in b ensures x < 128 {
      var i :| 0 <= i < |b| && b[i] == x;
      assert t[i] in t;
    }
    assert TextOf(b).value == t;
  }

  /** Decoding an encoded cursor gives it back, with a negative skip raised to 0. */
  lemma DecodeEncode(foreign: Foreign, c: Cursor)
    ensures Encode(c) != ""
    ensures Decode(foreign, Encode(c)) == Cursor(c.tokens, if c.skip < 0 then 0 else c.skip, c.totals)
    ensures c.skip >= 0 ==> Decode(foreign, Encode(c)) == c
  {
    RenderAscii(c);
    ParseRender(c);
    TextOfBytes(Render(c));
    B.RoundTrip(Bytes(Render(c)));
    assert |Render(c)| > 0;
  }

  /** What is recognised is a dump, and nothing else. */
  lemma RecogniseExactly(b: seq<B.Byte>, c: Cursor)
    ensures J.Ascii(Render(c))
    ensures Recognise(b) == Some(c) <==> b == Bytes(Render(c))
  {
    RenderAscii(c);
    if Recognise(b) == Some(c) {
      assert Bytes(Render(c)) == b;
    }
    if b == Bytes(Render(c)) {
      TextOfBytes(Render(c));
      ParseRender(c);
    }
  }

  /** Not base64; or not the bytes of a dump, and the JSON library or what follows it raises. */
  ghost predicate Unreadable(foreign: Foreign, token: string) {
    match B.Decode(token)
    case None => true
    case Some(b) => foreign(b) == None && forall c: Cursor :: !Dumps(b, c)
  }

  ghost predicate Dumps(b: seq<B.Byte>, c: Cursor) {
    RenderAscii(c);
    b == Bytes(Render(c))
  }

  lemma RecognisedDumps(b: seq<B.Byte>)
    ensures Recognise(b) == None <==> forall c: Cursor :: !Dumps(b, c)
    ensures Recognise(b).Some? ==> Dumps(b, Recognise(b).value)
  {
    forall c: Cursor ensures Recognise(b) == Some(c) <==> Dumps(b, c) {
      RecogniseExactly(b, c);
    }
    if Recognise(b).Some? {
      assert Dumps(b, Recognise(b).value);
    }
  }

  /** The cursor a token stands for: the one it dumps, or what the JSON library and what follows make of it. */
  ghost predicate StandsFor(foreign: Foreign, token: string, c: Cursor) {
    match B.Decode(token)
    case None => false
    case Some(b) => Dumps(b, c) || ((forall d: Cursor :: !Dumps(b, d)) && foreign(b) == Some(c))
  }

  /** What every token means: an unreadable one the same as none, any other its cursor with no negative skip. */
  lemma DecodeExactly(foreign: Foreign, token: string)
    ensures Unreadable(foreign, token) || token == "" ==> Decode(foreign, token) == Cursor(map[], 0, map[])
    ensures forall c: Cursor | StandsFor(foreign, token, c) && token != "" ::
              Decode(foreign, token) == Cursor(c.tokens, if c.skip < 0 then 0 else c.skip, c.totals)
    ensures Unreadable(foreign, token) <==> forall c: Cursor :: !StandsFor(foreign, token, c)
  {
    match B.Decode(token) {
      case None =>
      case Some(b) =>
        RecognisedDumps(b);
        forall c: Cursor | Dumps(b, c) ensures Recognise(b) == Some(c) {
          RecogniseExactly(b, c);
        }
        if Recognise(b).Some? {
          assert StandsFor(foreign, token, Recognise(b).value);
        } else if foreign(b).Some? {
          assert StandsFor(foreign, token, foreign(b).value);
        }
    }
  }

  /** Letters that do not make full quads are unreadable. */
  lemma NoQuadsIsUnreadable(foreign: Foreign, token: string)
    requires '=' !in token && B.Letters(token) % 4 != 0
    ensures Unreadable(foreign, token)
  {
    B.DecodeFails(token);
  }

  lemma ElevenLetters(token: string)
    requires token == "not-a-token"
    ensures '=' !in token && B.Letters(token) == 11
  {
    forall i | 0 <= i < |token| ensures B.InAlphabet(token[i]) {
    }
    B.AllLetters(token);
  }

  /** A page token that never was one. */
  lemma NotATokenIsUnreadable(foreign: Foreign, token: string)
    requires token == "not-a-token"
    ensures Unreadable(foreign, token)
  {
    ElevenLetters(token);
    NoQuadsIsUnreadable(foreign, token);
  }

  lemma EncodeInjective(c: Cursor, d: Cursor)
    requires Encode(c) == Encode(d)
    ensures c == d
  {
    RenderAscii(c);
    RenderAscii(d);
    B.RoundTrip(Bytes(Render(c)));
    B.RoundTrip(Bytes(Render(d)));
    TextOfBytes(Render(c));
    TextOfBytes(Render(d));
    ParseRender(c);
    ParseRender(d);
  }
}
