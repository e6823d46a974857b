/**
 The printer of RMI requests and replies (src/airo_fanuc/testing/wire.py): the text of
 `json.dumps`, escaped to ASCII as in section 7 of RFC 8259, and the line terminator.
 */
module RmiWire {
  import opened Options
  import opened RmiFraming

  type CodePoint = c: int | 0 <= c < 0x110000

  datatype Field = Field(key: seq<CodePoint>, value: Json)

  /** `Float` carries the text Python prints for it, which is printable ASCII. */
  datatype Json = Null | Bool(b: bool) | Int(i: int) | Float(text: Bytes) | Str(s: seq<CodePoint>) | Obj(fields: seq<Field>)

  predicate Printable(s: Bytes) { forall b :: b in s ==> 0x20 <= b < 0x7F }

  predicate FloatsPrintable(v: Json) {
    match v
    case Float(text) => Printable(text)
    case Obj(fields) => forall f :: f in fields ==> FloatsPrintable(f.value)
    case _ => true
  }

  function Hex(d: int): (b: Byte)
    requires 0 <= d < 16
    ensures 0x30 <= b <= 0x39 || 0x61 <= b <= 0x66
  {
    if d < 10 then (0x30 + d) as Byte else (0x57 + d) as Byte
  }

  function UnicodeEscape(unit: int): (r: Bytes)
    requires 0 <= unit < 0x10000
    ensures Printable(r)
  {
    [0x5C, 0x75, Hex(unit / 0x1000), Hex(unit / 0x100 % 16), Hex(unit / 16 % 16), Hex(unit % 16)]
  }

  function Escape(c: CodePoint): (r: Bytes)
    ensures Printable(r)
  {
    if c == 0x22 then [0x5C, 0x22]
    else if c == 0x5C then [0x5C, 0x5C]
    else if c == 0x0A then [0x5C, 0x6E]
    else if c == 0x0D then [0x5C, 0x72]
    else if c == 0x09 then [0x5C, 0x74]
    else if c == 0x0C then [0x5C, 0x66]
    else if c == 0x08 then [0x5C, 0x62]
    else if 0x20 <= c < 0x7F then [c as Byte]
    else if c < 0x10000 then UnicodeEscape(c)
    else UnicodeEscape(0xD800 + (c - 0x10000) / 0x400) + UnicodeEscape(0xDC00 + (c - 0x10000) % 0x400)
  }

  function EscapeAll(s: seq<CodePoint>): (r: Bytes)
    ensures Printable(r)
  {
    if s == [] then [] else Escape(s[0]) + EscapeAll(s[1..])
  }

  function Quoted(s: seq<CodePoint>): (r: Bytes)
    ensures Printable(r)
  {
    [0x22] + EscapeAll(s) + [0x22]
  }

  function Decimal(n: nat): (r: Bytes)
    ensures Printable(r)
  {
    (if n < 10 then [] else Decimal(n / 10)) + [(0x30 + n % 10) as Byte]
  }

  function Dumps(v: Json): Bytes
    decreases v, 1
  {
    match v
    case Null => [0x6E, 0x75, 0x6C, 0x6C]
    case Bool(b) => if b then [0x74, 0x72, 0x75, 0x65] else [0x66, 0x61, 0x6C, 0x73, 0x65]
    case Int(i) => if i < 0 then [0x2D] + Decimal(-i) else Decimal(i)
    case Float(text) => text
    case Str(s) => Quoted(s)
    case Obj(fields) => [0x7B] + DumpFields(fields) + [0x7D]
  }

  /** The fields in insertion order, with ", " and ": " between them. */
  function DumpFields(fields: seq<Field>): Bytes
    decreases fields, 0
  {
    if fields == [] then []
    else
      (if |fields| == 1 then [] else DumpFields(fields[..|fields| - 1]) + [0x2C, 0x20])
      + Quoted(fields[|fields| - 1].key) + [0x3A, 0x20] + Dumps(fields[|fields| - 1].value)
  }

  function WireBytes(v: Json): Bytes { Dumps(v) + [CR, LF] }

  function WireAll(vs: seq<Json>): Bytes {
    if vs == [] then [] else WireBytes(vs[0]) + WireAll(vs[1..])
  }

  lemma {:induction false} DumpsPrintable(v: Json)
    requires FloatsPrintable(v)
    ensures Printable(Dumps(v))
    decreases v, 1
  {
    if v.Obj? { DumpFieldsPrintable(v.fields); }
  }

  lemma {:induction false} DumpFieldsPrintable(fields: seq<Field>)
    requires forall f :: f in fields ==> FloatsPrintable(f.value)
    ensures Printable(DumpFields(fields))
    decreases fields, 0
  {
    if fields != [] {
      var n := |fields| - 1;
      assert fields[n] in fields;
      DumpFieldsPrintable(fields[..n]);
      DumpsPrintable(fields[n].value);
    }
  }

  /** Whatever its strings hold, a printed value is one line: the only newline is its terminator. */
  lemma {:induction false} OneLineEach(v: Json)
    requires FloatsPrintable(v)
    ensures LF !in Dumps(v) && CR !in Dumps(v)
    ensures StripCr(Dumps(v) + [CR]) == Dumps(v)
  {
    DumpsPrintable(v);
  }

  function Texts(vs: seq<Json>): seq<Bytes> { seq(|vs|, i requires 0 <= i < |vs| => Dumps(vs[i])) }

  function WithCr(lines: seq<Bytes>): seq<Bytes> { seq(|lines|, i requires 0 <= i < |lines| => lines[i] + [CR]) }

  lemma {:induction false} WireLines(vs: seq<Json>)
    requires forall v :: v in vs ==> FloatsPrintable(v)
    ensures RawLines(WireAll(vs)) == WithCr(Texts(vs)) && Tail(WireAll(vs)) == []
  {
    hide RawLines, Tail, Dumps, FloatsPrintable, FirstLf;
    if vs == [] {
      NoLine([]);
    } else {
      var line, rest := Dumps(vs[0]) + [CR], WireAll(vs[1..]);
      OneLineEach(vs[0]);
      assert WireAll(vs) == line + [LF] + rest;
      LineFirst(line, rest);
      WireLines(vs[1..]);
      assert WithCr(Texts(vs)) == [line] + WithCr(Texts(vs[1..]));
    }
  }

  /** The values that `parse` makes of the printed texts, in order. */
  function ParsedTexts<J>(texts: seq<Bytes>, parse: Bytes -> Option<J>): seq<J> {
    if texts == [] then []
    else
      var p := parse(texts[0]);
      (if p.Some? then [p.value] else []) + ParsedTexts(texts[1..], parse)
  }

  lemma {:induction false} DecodedTexts<J>(vs: seq<Json>, parse: Bytes -> Option<J>)
    requires forall v :: v in vs ==> FloatsPrintable(v)
    ensures Decoded(WithCr(Texts(vs)), parse) == ParsedTexts(Texts(vs), parse)
  {
    if vs != [] {
      OneLineEach(vs[0]);
      DecodedTexts(vs[1..], parse);
      assert WithCr(Texts(vs))[1..] == WithCr(Texts(vs[1..])) && Texts(vs)[1..] == Texts(vs[1..]);
    }
  }

  /**
   The framing round trip: any concatenation of printed values, each of at most 64 KiB with
   its CR, cut into chunks anywhere and with timeouts in between, is read back as exactly
   those texts, in order, with nothing left over.
   */
  lemma {:induction false} FramingRoundTrip<J>(vs: seq<Json>, events: seq<Recv>, parse: Bytes -> Option<J>)
    requires forall v :: v in vs ==> FloatsPrintable(v) && |Dumps(v)| < MAX_RXBUF
    requires Open(events) && Stream(events) == WireAll(vs)
    ensures Bounded(Stream(events))
    ensures Decoded(RawLines(Stream(events)), parse) == ParsedTexts(Texts(vs), parse) && Tail(Stream(events)) == []
  {
    WireLines(vs);
    DecodedTexts(vs, parse);
    BoundedIff(WireAll(vs));
    forall line | line in RawLines(WireAll(vs)) ensures |line| <= MAX_RXBUF {
      var i :| 0 <= i < |vs| && line == WithCr(Texts(vs))[i];
      assert vs[i] in vs;
    }
  }

  // ---- the controller's reader -------------------------------------------------

  /** The controller's end of the wire drops every trailing CR, not one. */
  function StripAllCrs(line: Bytes): Bytes {
    if line != [] && line[|line| - 1] == CR then StripAllCrs(line[..|line| - 1]) else line
  }

  /** Both ends read a line alike if and only if it does not end in two CRs. */
  lemma {:induction false} BothEndsAgreeIff(line: Bytes)
    ensures StripAllCrs(line) == StripCr(line) <==> !(|line| >= 2 && line[|line| - 1] == line[|line| - 2] == CR)
  {
    if |line| >= 2 && line[|line| - 1] == CR && line[|line| - 2] == CR {
      StripShortens(line[..|line| - 2]);
      assert StripAllCrs(line) == StripAllCrs(line[..|line| - 1]);
      assert line[..|line| - 1][..|line| - 2] == line[..|line| - 2];
    }
  }

  lemma {:induction false} StripShortens(line: Bytes)
    ensures |StripAllCrs(line)| <= |line|
  {
    if line != [] && line[|line| - 1] == CR { StripShortens(line[..|line| - 1]); }
  }
}
