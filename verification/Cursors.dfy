// Cursors: _encode_cursor and _decode_cursor, and the cursor of a row with a time and an identifier.

module Cursors {
  import opened Base
  import Base64
  import JsonText

  // ----- The cursor -----

  /** Two quoted strings with text before, between and behind them. */
  function PairText(open: string, middle: string, close: string, value: string, id: string): string {
    open + JsonText.Quote(value) + middle + JsonText.Quote(id) + close
  }

  /** The compact JSON object with the value and the identifier. */
  function CursorText(value: string, id: string): string {
    PairText("{\"value\":", ",\"id\":", "}", value, id)
  }

  lemma QuotesJoin(q: string, open: string, v: string, middle: string, i: string, close: string)
    ensures open + (q + v + q) + middle + (q + i + q) + close == (open + q) + v + (q + middle + q) + i + (q + close)
  {
    assert open + (q + v + q) == (open + q) + v + q;
    var head := (open + q) + v;
    assert head + q + middle + (q + i + q) == head + (q + middle + q) + i + q;
    var front := head + (q + middle + q) + i;
    assert front + q + close == front + (q + close);
  }

  /** The text of a cursor, part by part. */
  lemma CursorTextIs(value: string, id: string)
    ensures CursorText(value, id) ==
            "{\"value\":\"" + JsonText.EscapeAll(value) + "\",\"id\":\"" + JsonText.EscapeAll(id) + "\"}"
  {
    QuotesJoin("\"", "{\"value\":", JsonText.EscapeAll(value), ",\"id\":", JsonText.EscapeAll(id), "}");
    LiteralsJoin();
  }

  lemma LiteralsJoin()
    ensures "{\"value\":" + "\"" == "{\"value\":\"" && "\"" + "}" == "\"}"
    ensures "\"" + ",\"id\":" + "\"" == "\",\"id\":\""
  {
  }

  predicate IsAscii(t: string) {
    forall i :: 0 <= i < |t| ==> JsonText.Code(t[i]) < 128
  }

  function Bytes(t: string): seq<Base64.Byte>
    requires IsAscii(t)
    ensures |Bytes(t)| == |t|
  {
    if t == "" then [] else [JsonText.Code(t[0])] + Bytes(t[1..])
  }

  /** The text of bytes; None beyond ASCII. */
  function Text(b: seq<Base64.Byte>): Option<string> {
    if b == [] then Some("")
    else if b[0] >= 128 || Text(b[1..]).None? then None
    else Some([b[0] as char] + Text(b[1..]).value)
  }

  lemma {:induction false} BytesReturn(t: string)
    requires IsAscii(t)
    ensures Text(Bytes(t)) == Some(t)
  {
    if t != "" {
      BytesReturn(t[1..]);
      assert Bytes(t)[1..] == Bytes(t[1..]) && t == [t[0]] + t[1..];
    }
  }

  lemma CursorTextIsAscii(value: string, id: string)
    ensures IsAscii(CursorText(value, id))
  {
    JsonText.EscapeAllIsAscii(value);
    JsonText.EscapeAllIsAscii(id);
  }

  function EncodeCursor(value: string, id: string): string {
    CursorTextIsAscii(value, id);
    Base64.StripPadding(Base64.Encode(Bytes(CursorText(value, id))))
  }

  function After(t: string, prefix: string): Option<string> {
    if prefix <= t then Some(t[|prefix|..]) else None
  }

  lemma AfterReturns(prefix: string, rest: string)
    ensures After(prefix + rest, prefix) == Some(rest)
  {
    assert (prefix + rest)[|prefix|..] == rest;
  }

  function ReadQuoted(t: string): Option<(string, string)> {
    var inside := After(t, "\"");
    if inside.None? then None else JsonText.ReadString(inside.value)
  }

  function ReadPair(open: string, middle: string, close: string, t: string): Option<(string, string)> {
    var first := After(t, open);
    var value := if first.None? then None else ReadQuoted(first.value);
    var second := if value.None? then None else After(value.value.1, middle);
    var id := if second.None? then None else ReadQuoted(second.value);
    if id.None? || id.value.1 != close then None else Some((value.value.0, id.value.0))
  }

  function ReadCursorText(t: string): Option<(string, string)> {
    ReadPair("{\"value\":", ",\"id\":", "}", t)
  }

  lemma QuotedReturns(s: string, rest: string)
    ensures ReadQuoted(JsonText.Quote(s) + rest) == Some((s, rest))
  {
    var inside := JsonText.EscapeAll(s) + "\"" + rest;
    assert JsonText.Quote(s) + rest == "\"" + inside;
    AfterReturns("\"", inside);
    JsonText.QuoteReturns(s, rest);
  }

  lemma PairAssociates(a: string, b: string, c: string, d: string, e: string)
    ensures a + b + c + d + e == a + (b + (c + (d + e)))
  {
  }

  lemma PairReturns(open: string, middle: string, close: string, value: string, id: string)
    ensures ReadPair(open, middle, close, PairText(open, middle, close, value, id)) == Some((value, id))
  {
    var tail := middle + (JsonText.Quote(id) + close);
    AfterReturns(open, JsonText.Quote(value) + tail);
    QuotedReturns(value, tail);
    AfterReturns(middle, JsonText.Quote(id) + close);
    QuotedReturns(id, close);
    PairAssociates(open, JsonText.Quote(value), middle, JsonText.Quote(id), close);
  }

  /** The value and the identifier of a cursor, if there is one; isTime is datetime.fromisoformat. */
  function DecodeCursor(cursor: string, isTime: string -> bool): Result<Option<(string, string)>, string> {
    if cursor == "" then Ok(None)
    else
      var bytes := Base64.Decode(Base64.Pad(cursor));
      var text := if bytes.None? then None else Text(bytes.value);
      var pair := if text.None? then None else ReadCursorText(text.value);
      if pair.None? || !isTime(pair.value.0) then Err("VALIDATION_ERROR") else Ok(pair)
  }

  /** A cursor decodes to exactly what it was made of if its value is a time, and is refused otherwise. */
  lemma CursorReturns(value: string, id: string, isTime: string -> bool)
    ensures EncodeCursor(value, id) != ""
    ensures DecodeCursor(EncodeCursor(value, id), isTime) == if isTime(value) then Ok(Some((value, id)))
              else Err("VALIDATION_ERROR")
  {
    CursorTextIsAscii(value, id);
    var t := CursorText(value, id);
    Base64.PadRestores(Bytes(t));
    Base64.DecodeEncode(Bytes(t));
    BytesReturn(t);
    PairReturns("{\"value\":", ",\"id\":", "}", value, id);
    NotEmpty(Bytes(t));
  }

  lemma NotEmpty(b: seq<Base64.Byte>)
    requires Base64.Encode(b) != ""
    ensures Base64.StripPadding(Base64.Encode(b)) != ""
  {
    var k := Base64.EncodePadding(b);
    Base64.StripRemoves(Base64.Encode(b), k);
  }

  // ----- The cursor of a row -----

  /** The text of a time and back. */
  datatype TimeFormat = TimeFormat(iso: int -> string, parse: string -> Option<int>)

  ghost predicate IsFormat(f: TimeFormat) {
    forall t {:trigger f.iso(t)} :: f.parse(f.iso(t)) == Some(t)
  }

  /** The cursor of a row, and the time and identifier that a request gets from one. */
  datatype Codec = Codec(encode: (int, string) -> string, decode: string -> Result<Option<(int, string)>, string>)

  ghost predicate IsCodec(c: Codec) {
    && c.decode("") == Ok(None)
    && forall t, id {:trigger c.encode(t, id)} :: c.decode(c.encode(t, id)) == Ok(Some((t, id)))
  }

  function DecodeRow(cursor: string, f: TimeFormat): Result<Option<(int, string)>, string> {
    match DecodeCursor(cursor, (s: string) => f.parse(s).Some?)
    case Err(e) => Err(e)
    case Ok(None) => Ok(None)
    case Ok(Some((value, id))) => if f.parse(value).None? then Err("VALIDATION_ERROR")
        else Ok(Some((f.parse(value).value, id)))
  }

  function RowCodec(f: TimeFormat): Codec {
    Codec((t: int, id: string) => EncodeCursor(f.iso(t), id), (c: string) => DecodeRow(c, f))
  }

  /** Decoding the cursor of a row returns its time and identifier. */
  lemma RowCursorReturns(f: TimeFormat, t: int, id: string)
    requires f.parse(f.iso(t)) == Some(t)
    ensures DecodeRow(EncodeCursor(f.iso(t), id), f) == Ok(Some((t, id)))
  {
    CursorReturns(f.iso(t), id, (s: string) => f.parse(s).Some?);
  }

  lemma RowCodecIsCodec(f: TimeFormat)
    requires IsFormat(f)
    ensures IsCodec(RowCodec(f))
  {
    var c := RowCodec(f);
    forall t, id {:trigger c.encode(t, id)} ensures c.decode(c.encode(t, id)) == Ok(Some((t, id))) {
      assert f.parse(f.iso(t)) == Some(t);
      RowCursorReturns(f, t, id);
    }
  }
}
