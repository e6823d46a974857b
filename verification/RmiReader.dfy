/**
 Reading back what the RMI printer prints (src/airo_fanuc/testing/wire.py,
 src/airo_fanuc/rmi_client.py): a decoder of exactly the printer's spacing, which joins a
 high and a low surrogate escape as section 7 of RFC 8259 has it.
 */
module RmiReader {
  import opened Options
  import opened RmiFraming
  import opened RmiWire

  // ---- strings -----------------------------------------------------------------

  type CodeUnit = u: int | 0 <= u < 0x10000

  predicate High(u: int) { 0xD800 <= u < 0xDC00 }

  predicate Low(u: int) { 0xDC00 <= u < 0xE000 }

  function HexValue(b: Byte): Option<int> {
    if 0x30 <= b <= 0x39 then Some(b as int - 0x30)
    else if 0x61 <= b <= 0x66 then Some(b as int - 0x57)
    else None
  }

  function HexUnit(b: Bytes): (u: Option<CodeUnit>)
    requires |b| == 4
  {
    var d0, d1, d2, d3 := HexValue(b[0]), HexValue(b[1]), HexValue(b[2]), HexValue(b[3]);
    if d0.Some? && d1.Some? && d2.Some? && d3.Some? && 0 <= d0.value < 16 && 0 <= d1.value < 16 && 0 <= d2.value < 16 && 0 <= d3.value < 16
    then Some(d0.value * 0x1000 + d1.value * 0x100 + d2.value * 16 + d3.value)
    else None
  }

  /** The character that a one-letter escape stands for. */
  function Unescape(letter: Byte): Option<CodeUnit> {
    if letter == 0x22 || letter == 0x5C || letter == 0x2F then Some(letter as int)
    else if letter == 0x6E then Some(0x0A)
    else if letter == 0x72 then Some(0x0D)
    else if letter == 0x74 then Some(0x09)
    else if letter == 0x66 then Some(0x0C)
    else if letter == 0x62 then Some(0x08)
    else None
  }

  datatype Scanned = Scanned(units: seq<CodeUnit>, rest: Bytes)

  /** The code units up to the closing quote, and what follows it. */
  function ReadUnits(b: Bytes): (r: Option<Scanned>)
    ensures r.Some? ==> |r.value.rest| < |b|
    decreases |b|
  {
    if b == [] then None
    else if b[0] == 0x22 then Some(Scanned([], b[1..]))
    else if b[0] != 0x5C then Prepend(b[0] as int, ReadUnits(b[1..]))
    else if |b| >= 6 && b[1] == 0x75 then
      var u := HexUnit(b[2..6]);
      if u.None? then None else Prepend(u.value, ReadUnits(b[6..]))
    else if |b| >= 2 && Unescape(b[1]).Some? then Prepend(Unescape(b[1]).value, ReadUnits(b[2..]))
    else None
  }

  function Prepend(u: int, r: Option<Scanned>): (p: Option<Scanned>)
    ensures p.Some? ==> r.Some? && p.value.rest == r.value.rest
  {
    if r.None? || u < 0 || u >= 0x10000 then None else Some(Scanned([u] + r.value.units, r.value.rest))
  }

  /** A high unit followed by a low one is one code point. */
  function Joined(units: seq<CodeUnit>): seq<CodePoint> {
    if units == [] then []
    else if |units| >= 2 && High(units[0]) && Low(units[1]) then
      [0x10000 + (units[0] - 0xD800) * 0x400 + (units[1] - 0xDC00)] + Joined(units[2..])
    else [units[0]] + Joined(units[1..])
  }

  function Utf16(c: CodePoint): seq<CodeUnit> {
    if c < 0x10000 then [c] else [0xD800 + (c - 0x10000) / 0x400, 0xDC00 + (c - 0x10000) % 0x400]
  }

  function Utf16All(s: seq<CodePoint>): seq<CodeUnit> {
    if s == [] then [] else Utf16(s[0]) + Utf16All(s[1..])
  }

  lemma HexRoundTrip(d: int)
    requires 0 <= d < 16
    ensures HexValue(Hex(d)) == Some(d)
  {
  }

  lemma UnitRoundTrip(unit: int)
    requires 0 <= unit < 0x10000
    ensures var e := UnicodeEscape(unit);
            |e| == 6 && e[0] == 0x5C && e[1] == 0x75 && HexUnit(e[2..6]) == Some(unit)
  {
    var e := UnicodeEscape(unit);
    var d0, d1, d2, d3 := unit / 0x1000, unit / 0x100 % 16, unit / 16 % 16, unit % 16;
    Nibbles(unit);
    assert e == [0x5C, 0x75, Hex(d0), Hex(d1), Hex(d2), Hex(d3)];
    hide Hex, HexValue, UnicodeEscape;
    HexRoundTrip(d0);
    HexRoundTrip(d1);
    HexRoundTrip(d2);
    HexRoundTrip(d3);
    assert e[2..6] == [Hex(d0), Hex(d1), Hex(d2), Hex(d3)];
  }

  lemma Nibbles(unit: int)
    requires 0 <= unit < 0x10000
    ensures var d0, d1, d2, d3 := unit / 0x1000, unit / 0x100 % 16, unit / 16 % 16, unit % 16;
            0 <= d0 < 16 && unit == d0 * 0x1000 + d1 * 0x100 + d2 * 16 + d3
  {
    var x, y := unit / 16, unit / 0x100;
    assert x / 16 == y && y / 16 == unit / 0x1000;
    assert unit == 16 * x + unit % 16 && x == 16 * y + x % 16 && y == 16 * (y / 16) + y % 16;
  }

  lemma ReadEscapedUnit(unit: int, tail: Bytes)
    requires 0 <= unit < 0x10000
    ensures ReadUnits(UnicodeEscape(unit) + tail) == Prepend(unit, ReadUnits(tail))
  {
    UnitRoundTrip(unit);
    var b := UnicodeEscape(unit) + tail;
    assert b[2..6] == UnicodeEscape(unit)[2..6] && b[6..] == tail;
    hide UnicodeEscape, HexUnit;
  }

  function PrependAll(units: seq<CodeUnit>, r: Option<Scanned>): Option<Scanned> {
    if r.None? then None else Some(Scanned(units + r.value.units, r.value.rest))
  }

  lemma ReadPlain(b: Byte, tail: Bytes)
    requires b != 0x22 && b != 0x5C
    ensures ReadUnits([b] + tail) == Prepend(b as int, ReadUnits(tail))
  {
    assert ([b] + tail)[1..] == tail;
  }

  lemma ReadLetter(letter: Byte, tail: Bytes)
    requires letter != 0x75 && Unescape(letter).Some?
    ensures ReadUnits([0x5C, letter] + tail) == Prepend(Unescape(letter).value, ReadUnits(tail))
  {
    assert ([0x5C, letter] + tail)[2..] == tail;
    hide Unescape;
  }

  lemma ReadPair(hi: int, lo: int, tail: Bytes)
    requires 0 <= hi < 0x10000 && 0 <= lo < 0x10000
    ensures ReadUnits(UnicodeEscape(hi) + UnicodeEscape(lo) + tail) == Prepend(hi, Prepend(lo, ReadUnits(tail)))
  {
    ReadEscapedUnit(hi, UnicodeEscape(lo) + tail);
    ReadEscapedUnit(lo, tail);
    hide UnicodeEscape, ReadUnits;
    assert UnicodeEscape(hi) + UnicodeEscape(lo) + tail == UnicodeEscape(hi) + (UnicodeEscape(lo) + tail);
  }

  /** Whatever escape the printer chose for a code point, its code units are read back. */
  lemma ReadEscape(c: CodePoint, tail: Bytes)
    ensures ReadUnits(Escape(c) + tail) == PrependAll(Utf16(c), ReadUnits(tail))
  {
    hide ReadUnits, UnicodeEscape;
    if c >= 0x10000 {
      var hi, lo := 0xD800 + (c - 0x10000) / 0x400, 0xDC00 + (c - 0x10000) % 0x400;
      assert Escape(c) == UnicodeEscape(hi) + UnicodeEscape(lo);
      ReadPair(hi, lo, tail);
      assert forall units: seq<CodeUnit> :: [hi] + ([lo] + units) == [hi, lo] + units;
    } else if 0x20 <= c < 0x7F && c != 0x22 && c != 0x5C {
      ReadPlain(c as Byte, tail);
    } else if c == 0x22 || c == 0x5C {
      ReadLetter(c as Byte, tail);
    } else if c == 0x0A {
      ReadLetter(0x6E, tail);
    } else if c == 0x0D {
      ReadLetter(0x72, tail);
    } else if c == 0x09 {
      ReadLetter(0x74, tail);
    } else if c == 0x0C {
      ReadLetter(0x66, tail);
    } else if c == 0x08 {
      ReadLetter(0x62, tail);
    } else {
      ReadEscapedUnit(c, tail);
    }
  }

  lemma {:induction false} ReadEscapedString(s: seq<CodePoint>, rest: Bytes)
    ensures ReadUnits(EscapeAll(s) + [0x22] + rest) == Some(Scanned(Utf16All(s), rest))
    decreases |s|
  {
    hide Escape, Utf16;
    if s == [] {
      assert EscapeAll(s) + [0x22] + rest == [0x22] + rest;
    } else {
      ReadEscapedString(s[1..], rest);
      ReadEscape(s[0], EscapeAll(s[1..]) + [0x22] + rest);
      assert EscapeAll(s) + [0x22] + rest == Escape(s[0]) + (EscapeAll(s[1..]) + [0x22] + rest);
    }
  }

  /** A high surrogate right before a low one, as two code points. */
  predicate SplitPair(s: seq<CodePoint>) {
    exists i :: 0 <= i < |s| - 1 && High(s[i]) && Low(s[i + 1])
  }

  /** A string is read back as it was if and only if it has no surrogate pair split into two code points. */
  lemma {:induction false} StringRoundTripIff(s: seq<CodePoint>)
    ensures Joined(Utf16All(s)) == s <==> !SplitPair(s)
    decreases |s|
  {
    if s != [] {
      var rest := s[1..];
      StringRoundTripIff(rest);
      SplitUnfold(s);
      hide SplitPair;
      JoinedUnfold(s);
      hide Joined, Utf16All;
      assert s == [s[0]] + rest;
    }
  }

  /** What joining makes of the first code point. */
  lemma JoinedUnfold(s: seq<CodePoint>)
    requires s != []
    ensures var j := Joined(Utf16All(s));
            if |s| >= 2 && High(s[0]) && Low(s[1]) then j != [] && j[0] >= 0x10000 else j == [s[0]] + Joined(Utf16All(s[1..]))
  {
    var rest := s[1..];
    var tail := Utf16All(rest);
    assert Utf16All(s) == Utf16(s[0]) + tail;
    if rest != [] { FirstUnit(rest); } else { assert tail == []; }
    assert s[0] < 0x10000 ==> Utf16(s[0]) == [s[0]];
    hide Utf16All, Joined;
    if s[0] >= 0x10000 { JoinPair(s[0], tail); } else { JoinOne(s[0], tail); }
  }

  lemma FirstUnit(s: seq<CodePoint>)
    requires s != []
    ensures Utf16All(s) != [] && (Low(Utf16All(s)[0]) <==> Low(s[0]))
  {
    assert Utf16All(s)[0] == Utf16(s[0])[0];
  }

  lemma JoinPair(c: CodePoint, tail: seq<CodeUnit>)
    requires c >= 0x10000
    ensures Joined(Utf16(c) + tail) == [c] + Joined(tail)
  {
    var x := c - 0x10000;
    assert x == x / 0x400 * 0x400 + x % 0x400;
    assert (Utf16(c) + tail)[2..] == tail;
  }

  lemma JoinOne(c: CodeUnit, tail: seq<CodeUnit>)
    ensures var j := Joined([c] + tail);
            if High(c) && tail != [] && Low(tail[0]) then j != [] && j[0] >= 0x10000 else j == [c] + Joined(tail)
  {
    assert ([c] + tail)[1..] == tail;
  }

  lemma SplitUnfold(s: seq<CodePoint>)
    requires s != []
    ensures SplitPair(s) <==> (|s| >= 2 && High(s[0]) && Low(s[1])) || SplitPair(s[1..])
  {
    var rest := s[1..];
    if i :| 0 <= i < |rest| - 1 && High(rest[i]) && Low(rest[i + 1]) { assert High(s[i + 1]) && Low(s[i + 1 + 1]); }
    if i :| 0 <= i < |s| - 1 && High(s[i]) && Low(s[i + 1]) {
      if i > 0 { assert High(rest[i - 1]) && Low(rest[i - 1 + 1]); }
    }
  }

  // ---- numbers and words -------------------------------------------------------

  predicate Digits(b: Bytes) { b != [] && forall i :: 0 <= i < |b| ==> 0x30 <= b[i] <= 0x39 }

  function Value(digits: Bytes): nat
    requires Digits(digits)
  {
    var n := |digits| - 1;
    (if n == 0 then 0 else 10 * Value(digits[..n])) + (digits[n] as int - 0x30)
  }

  lemma {:induction false} DecimalRoundTrip(n: nat)
    ensures Digits(Decimal(n)) && Value(Decimal(n)) == n
  {
    if n >= 10 {
      DecimalRoundTrip(n / 10);
      assert Decimal(n)[..|Decimal(n)| - 1] == Decimal(n / 10);
    }
  }

  predicate Whole(token: Bytes) { Digits(token) || (token != [] && token[0] == 0x2D && Digits(token[1..])) }

  const NULL: Bytes := [0x6E, 0x75, 0x6C, 0x6C]
  const TRUE: Bytes := [0x74, 0x72, 0x75, 0x65]
  const FALSE: Bytes := [0x66, 0x61, 0x6C, 0x73, 0x65]

  /** A word or a number; what is not a whole number is kept as its text. */
  function Scalar(token: Bytes): Json {
    if token == NULL then Null
    else if token == TRUE then Bool(true)
    else if token == FALSE then Bool(false)
    else if Digits(token) then Int(Value(token))
    else if Whole(token) then Int(0 - Value(token[1..]))
    else Float(token)
  }

  /** A token ends at a comma, a closing brace or the end of the text. */
  predicate Ends(b: Bytes) { b == [] || b[0] == 0x2C || b[0] == 0x7D }

  function TokenLength(b: Bytes): (n: nat)
    ensures n <= |b|
  {
    if Ends(b) then 0 else 1 + TokenLength(b[1..])
  }

  predicate NoEnd(token: Bytes) { forall i :: 0 <= i < |token| ==> token[i] != 0x2C && token[i] != 0x7D }

  lemma {:induction false} TokenOf(token: Bytes, rest: Bytes)
    requires NoEnd(token) && Ends(rest)
    ensures TokenLength(token + rest) == |token|
  {
    if token == [] {
      assert token + rest == rest;
    } else {
      TokenOf(token[1..], rest);
      assert (token + rest)[1..] == token[1..] + rest;
    }
  }

  // ---- values ------------------------------------------------------------------

  datatype Parsed = Parsed(value: Json, rest: Bytes)

  datatype ParsedFields = ParsedFields(fields: seq<Field>, rest: Bytes)

  function ReadValue(b: Bytes): (r: Option<Parsed>)
    ensures r.Some? ==> |r.value.rest| < |b|
    decreases |b|, 0
  {
    if b == [] then None
    else if b[0] == 0x22 then
      var r := ReadUnits(b[1..]);
      if r.None? then None else Some(Parsed(Str(Joined(r.value.units)), r.value.rest))
    else if b[0] == 0x7B then
      if |b| >= 2 && b[1] == 0x7D then Some(Parsed(Obj([]), b[2..]))
      else
        var r := ReadFields(b[1..]);
        if r.None? then None else Some(Parsed(Obj(r.value.fields), r.value.rest))
    else
      var n := TokenLength(b);
      if n == 0 then None else Some(Parsed(Scalar(b[..n]), b[n..]))
  }

  /** The fields of an object, up to and with its closing brace. */
  function ReadFields(b: Bytes): (r: Option<ParsedFields>)
    ensures r.Some? ==> |r.value.rest| < |b|
    decreases |b|, 1
  {
    if b == [] || b[0] != 0x22 then None
    else
      var key := ReadUnits(b[1..]);
      if key.None? || |key.value.rest| < 2 || key.value.rest[..2] != [0x3A, 0x20] then None
      else
        var v := ReadValue(key.value.rest[2..]);
        if v.None? || v.value.rest == [] then None
        else
          var field, after := Field(Joined(key.value.units), v.value.value), v.value.rest;
          if after[0] == 0x7D then Some(ParsedFields([field], after[1..]))
          else if |after| >= 2 && after[..2] == [0x2C, 0x20] then
            var more := ReadFields(after[2..]);
            if more.None? then None else Some(ParsedFields([field] + more.value.fields, more.value.rest))
          else None
  }

  /** The value of a whole text. */
  function Loads(text: Bytes): Option<Json> {
    var r := ReadValue(text);
    if r.Some? && r.value.rest == [] then Some(r.value.value) else None
  }

  /** What a float is printed as: one token that is neither a whole number nor a word. */
  predicate FloatToken(text: Bytes) {
    text != [] && NoEnd(text) && text[0] != 0x22 && text[0] != 0x7B && !Whole(text) && text != NULL && text != TRUE && text != FALSE
  }

  predicate FloatsAreTokens(v: Json) {
    match v
    case Float(text) => FloatToken(text)
    case Obj(fields) => forall f :: f in fields ==> FloatsAreTokens(f.value)
    case _ => true
  }

  /** The value with its split surrogate pairs joined. */
  function Paired(v: Json): Json
    decreases v, 1
  {
    match v
    case Str(s) => Str(Joined(Utf16All(s)))
    case Obj(fields) => Obj(PairedFields(fields))
    case _ => v
  }

  function PairedFields(fields: seq<Field>): (r: seq<Field>)
    ensures |r| == |fields|
    decreases fields, 0
  {
    if fields == [] then []
    else [Field(Joined(Utf16All(fields[0].key)), Paired(fields[0].value))] + PairedFields(fields[1..])
  }

  lemma {:induction false} FieldsFront(fields: seq<Field>)
    requires fields != []
    ensures DumpFields(fields)
            == Quoted(fields[0].key) + [0x3A, 0x20] + Dumps(fields[0].value)
               + (if |fields| == 1 then [] else [0x2C, 0x20] + DumpFields(fields[1..]))
    decreases |fields|
  {
    hide Quoted, Dumps;
    if |fields| > 1 {
      var n := |fields| - 1;
      FieldsFront(fields[..n]);
      var first, key, v := Quoted(fields[0].key) + [0x3A, 0x20] + Dumps(fields[0].value), Quoted(fields[n].key), Dumps(fields[n].value);
      var front, middle, back := DumpFields(fields[..n]), DumpFields(fields[1..n]), DumpFields(fields[1..]);
      FieldsBack(fields);
      FieldsBack(fields[1..]);
      Sliced(fields, n);
      hide DumpFields;
      MoveFirst(first, [0x2C, 0x20], middle, key, [0x3A, 0x20], v);
      assert [] + key == key;
    }
  }

  lemma FieldsBack(fields: seq<Field>)
    requires fields != []
    ensures var n := |fields| - 1;
            DumpFields(fields)
            == (if n == 0 then [] else DumpFields(fields[..n]) + [0x2C, 0x20]) + Quoted(fields[n].key) + [0x3A, 0x20] + Dumps(fields[n].value)
  {
    hide Quoted, Dumps;
  }

  lemma Sliced(fields: seq<Field>, n: nat)
    requires n + 1 == |fields| > 1
    ensures fields[..n][0] == fields[0] && fields[1..][n - 1] == fields[n]
    ensures fields[1..][..n - 1] == fields[1..n] && fields[..n][1..] == fields[1..n]
  {
  }

  lemma MoveFirst(first: Bytes, comma: Bytes, middle: Bytes, key: Bytes, colon: Bytes, v: Bytes)
    ensures first + (comma + middle) + comma + key + colon + v == first + (comma + (middle + comma + key + colon + v))
    ensures first + comma + key + colon + v == first + (comma + (key + colon + v))
  {
    assert comma + (middle + comma + key + colon + v) == comma + middle + comma + key + colon + v;
    assert comma + (key + colon + v) == comma + key + colon + v;
  }

  lemma ReadString(s: seq<CodePoint>, rest: Bytes)
    ensures Quoted(s) != [] && Quoted(s)[0] == 0x22
    ensures ReadUnits((Quoted(s) + rest)[1..]) == Some(Scanned(Utf16All(s), rest))
  {
    ReadEscapedString(s, rest);
    hide EscapeAll, ReadUnits, Utf16All;
    assert Quoted(s) + rest == [0x22] + (EscapeAll(s) + [0x22] + rest);
    assert ([0x22] + (EscapeAll(s) + [0x22] + rest))[1..] == EscapeAll(s) + [0x22] + rest;
  }

  lemma ReadToken(token: Bytes, rest: Bytes)
    requires token != [] && NoEnd(token) && Ends(rest) && token[0] != 0x22 && token[0] != 0x7B
    ensures ReadValue(token + rest) == Some(Parsed(Scalar(token), rest))
  {
    TokenOf(token, rest);
    var b := token + rest;
    assert b[..|token|] == token && b[|token|..] == rest;
    hide Scalar, TokenLength;
  }

  lemma WholeToken(token: Bytes)
    requires Whole(token)
    ensures NoEnd(token) && token[0] != 0x22 && token[0] != 0x7B && token != NULL && token != TRUE && token != FALSE
  {
  }

  lemma ReadInt(i: int, rest: Bytes)
    requires Ends(rest)
    ensures ReadValue(Dumps(Int(i)) + rest) == Some(Parsed(Int(i), rest))
  {
    var token := Dumps(Int(i));
    DecimalRoundTrip(if i < 0 then -i else i);
    if i < 0 { assert token[1..] == Decimal(-i); }
    WholeToken(token);
    assert Scalar(token) == Int(i);
    ReadToken(token, rest);
  }

  /** Only a negative number has a sign, and the rest is digits. */
  lemma IntText(i: int)
    ensures var text := Dumps(Int(i));
            (text[0] == 0x2D <==> i < 0) && Digits(if i < 0 then text[1..] else text)
  {
    DecimalRoundTrip(if i < 0 then -i else i);
    if i < 0 { assert Dumps(Int(i))[1..] == Decimal(-i); }
  }

  /** Whatever value is printed, it is what is read back, with its split surrogate pairs joined. */
  lemma {:induction false} ReadDumped(v: Json, rest: Bytes)
    requires FloatsAreTokens(v) && Ends(rest)
    ensures ReadValue(Dumps(v) + rest) == Some(Parsed(Paired(v), rest))
    decreases v, 1
  {
    match v {
      case Null => ReadToken(NULL, rest);
      case Bool(b) => ReadToken(if b then TRUE else FALSE, rest);
      case Int(i) => ReadInt(i, rest);
      case Float(text) => ReadToken(text, rest);
      case Str(s) => ReadString(s, rest);
      case Obj(fields) => ReadObject(fields, rest);
    }
  }

  lemma {:induction false} ReadObject(fields: seq<Field>, rest: Bytes)
    requires forall f :: f in fields ==> FloatsAreTokens(f.value)
    ensures ReadValue(Dumps(Obj(fields)) + rest) == Some(Parsed(Obj(PairedFields(fields)), rest))
    decreases fields, 1
  {
    if fields == [] {
      var b := [0x7B, 0x7D] + rest;
      assert Dumps(Obj(fields)) + rest == b && b[2..] == rest;
    } else {
      ReadDumpedFields(fields, rest);
      FieldsFront(fields);
      var inner := DumpFields(fields) + [0x7D] + rest;
      assert DumpFields(fields)[0] == 0x22;
      assert Dumps(Obj(fields)) + rest == [0x7B] + inner;
      hide Dumps, DumpFields, ReadFields, FloatsAreTokens;
      ReadBraced(inner);
    }
  }

  lemma ReadBraced(inner: Bytes)
    requires inner != [] && inner[0] != 0x7D
    ensures var r := ReadFields(inner);
            ReadValue([0x7B] + inner) == if r.None? then None else Some(Parsed(Obj(r.value.fields), r.value.rest))
  {
    assert ([0x7B] + inner)[1..] == inner;
    hide ReadFields;
  }

  lemma {:induction false} ReadDumpedFields(fields: seq<Field>, rest: Bytes)
    requires fields != [] && forall f :: f in fields ==> FloatsAreTokens(f.value)
    ensures ReadFields(DumpFields(fields) + [0x7D] + rest) == Some(ParsedFields(PairedFields(fields), rest))
    decreases fields, 0
  {
    assert fields[0] in fields;
    ReadDumped(fields[0].value, AfterFirst(fields, rest));
    if |fields| > 1 { ReadDumpedFields(fields[1..], rest); }
    hide *;
    FieldsFollow(fields, rest);
  }

  lemma FieldsFollow(fields: seq<Field>, rest: Bytes)
    requires fields != []
    requires var v, after := fields[0].value, AfterFirst(fields, rest); ReadValue(Dumps(v) + after) == Some(Parsed(Paired(v), after))
    requires |fields| > 1 ==> ReadFields(DumpFields(fields[1..]) + [0x7D] + rest) == Some(ParsedFields(PairedFields(fields[1..]), rest))
    ensures ReadFields(DumpFields(fields) + [0x7D] + rest) == Some(ParsedFields(PairedFields(fields), rest))
  {
    FieldsText(fields, rest);
    PairedFirst(fields);
    hide *;
    ReadField(fields[0].key, Dumps(fields[0].value), AfterFirst(fields, rest), Paired(fields[0].value));
  }

  lemma PairedFirst(fields: seq<Field>)
    requires fields != []
    ensures var first := Field(Joined(Utf16All(fields[0].key)), Paired(fields[0].value));
            PairedFields(fields) == if |fields| == 1 then [first] else [first] + PairedFields(fields[1..])
  {
    hide Joined, Utf16All, Paired;
  }

  /** What follows the first field of an object. */
  function AfterFirst(fields: seq<Field>, rest: Bytes): (after: Bytes)
    requires fields != []
    ensures after != [] && Ends(after)
    ensures |fields| == 1 ==> after[0] == 0x7D && after[1..] == rest
    ensures |fields| > 1 ==> |after| >= 2 && after[0] == 0x2C && after[..2] == [0x2C, 0x20] && after[2..] == DumpFields(fields[1..]) + [0x7D] + rest
  {
    if |fields| == 1 then [0x7D] + rest else [0x2C, 0x20] + (DumpFields(fields[1..]) + [0x7D] + rest)
  }

  lemma FieldsText(fields: seq<Field>, rest: Bytes)
    requires fields != []
    ensures DumpFields(fields) + [0x7D] + rest
            == Quoted(fields[0].key) + ([0x3A, 0x20] + (Dumps(fields[0].value) + AfterFirst(fields, rest)))
  {
    FieldsFront(fields);
    var key, v, text := Quoted(fields[0].key), Dumps(fields[0].value), DumpFields(fields);
    if |fields| == 1 {
      assert text == key + [0x3A, 0x20] + v + [];
      hide *;
      Regroup(key, [0x3A, 0x20], v, [], [0x7D], rest);
      assert AfterFirst(fields, rest) == [] + [0x7D] + rest by { OneField(fields, rest); }
    } else {
      var more := DumpFields(fields[1..]);
      assert text == key + [0x3A, 0x20] + v + ([0x2C, 0x20] + more);
      hide *;
      Regroup(key, [0x3A, 0x20], v, [0x2C, 0x20] + more, [0x7D], rest);
      assert AfterFirst(fields, rest) == [0x2C, 0x20] + more + [0x7D] + rest by { MoreFields(fields, rest); }
    }
  }

  lemma OneField(fields: seq<Field>, rest: Bytes)
    requires |fields| == 1
    ensures AfterFirst(fields, rest) == [] + [0x7D] + rest
  {
  }

  lemma MoreFields(fields: seq<Field>, rest: Bytes)
    requires |fields| > 1
    ensures AfterFirst(fields, rest) == [0x2C, 0x20] + DumpFields(fields[1..]) + [0x7D] + rest
  {
    var more := DumpFields(fields[1..]);
    hide DumpFields;
    assert [0x2C, 0x20] + (more + [0x7D] + rest) == [0x2C, 0x20] + more + [0x7D] + rest;
  }

  lemma Regroup(a: Bytes, b: Bytes, c: Bytes, d: Bytes, e: Bytes, f: Bytes)
    ensures a + b + c + d + e + f == a + (b + (c + (d + e + f)))
  {
    assert a + b + c + d + e + f == a + b + c + (d + e + f);
    assert a + b + c + (d + e + f) == a + b + (c + (d + e + f));
    assert a + b + (c + (d + e + f)) == a + (b + (c + (d + e + f)));
  }

  /** One field, and what its reader makes of the text after it. */
  lemma ReadField(key: seq<CodePoint>, text: Bytes, after: Bytes, v: Json)
    requires ReadValue(text + after) == Some(Parsed(v, after)) && after != []
    ensures var field := Field(Joined(Utf16All(key)), v);
            ReadFields(Quoted(key) + ([0x3A, 0x20] + (text + after))) ==
            if after[0] == 0x7D then Some(ParsedFields([field], after[1..]))
            else if |after| >= 2 && after[..2] == [0x2C, 0x20] then
              var more := ReadFields(after[2..]);
              if more.None? then None else Some(ParsedFields([field] + more.value.fields, more.value.rest))
            else None
  {
    var tail := [0x3A, 0x20] + (text + after);
    ReadString(key, tail);
    assert tail[..2] == [0x3A, 0x20] && tail[2..] == text + after;
    var b := Quoted(key) + tail;
    assert b[0] == 0x22;
    hide Quoted, ReadUnits, ReadValue, Joined, Utf16All;
  }

  /** No string of the value, and no key, has a surrogate pair split into two code points. */
  predicate NoSplitPairs(v: Json)
    decreases v
  {
    match v
    case Str(s) => !SplitPair(s)
    case Obj(fields) => forall f :: f in fields ==> !SplitPair(f.key) && NoSplitPairs(f.value)
    case _ => true
  }

  lemma {:induction false} PairedIff(v: Json)
    ensures Paired(v) == v <==> NoSplitPairs(v)
    decreases v, 1
  {
    match v {
      case Str(s) => StringRoundTripIff(s);
      case Obj(fields) => PairedFieldsIff(fields);
      case _ =>
    }
  }

  lemma {:induction false} PairedFieldsIff(fields: seq<Field>)
    ensures PairedFields(fields) == fields <==> forall f :: f in fields ==> !SplitPair(f.key) && NoSplitPairs(f.value)
    decreases fields, 0
  {
    if fields != [] {
      var rest := fields[1..];
      StringRoundTripIff(fields[0].key);
      PairedIff(fields[0].value);
      PairedFieldsIff(rest);
      assert fields == [fields[0]] + rest;
      assert PairedFields(fields)[1..] == PairedFields(rest);
      hide SplitPair, NoSplitPairs, Joined, Utf16All;
    }
  }

  /** The round trip: a printed value is read back as itself if and only if none of its strings has a split surrogate pair. */
  lemma LoadsDumpsIff(v: Json)
    requires FloatsAreTokens(v)
    ensures Loads(Dumps(v)) == Some(Paired(v))
    ensures Loads(Dumps(v)) == Some(v) <==> NoSplitPairs(v)
  {
    ReadDumped(v, []);
    PairedIff(v);
    assert Dumps(v) + [] == Dumps(v);
  }

  lemma {:induction false} AllLoaded(vs: seq<Json>)
    requires forall v :: v in vs ==> FloatsAreTokens(v) && NoSplitPairs(v)
    ensures ParsedTexts(Texts(vs), Loads) == vs
  {
    hide Loads, FloatsAreTokens, NoSplitPairs, Dumps, Paired;
    if vs != [] {
      LoadsDumpsIff(vs[0]);
      AllLoaded(vs[1..]);
      assert Texts(vs)[0] == Dumps(vs[0]) && Texts(vs)[1..] == Texts(vs[1..]);
      hide Texts;
      assert vs == [vs[0]] + vs[1..];
    }
  }

  /** Any requests sent one after the other arrive as those requests, in order, however the network cuts the bytes up. */
  lemma RequestsArrive(vs: seq<Json>, events: seq<Recv>)
    requires forall v :: v in vs ==> FloatsPrintable(v) && FloatsAreTokens(v) && NoSplitPairs(v) && |Dumps(v)| < MAX_RXBUF
    requires Open(events) && Stream(events) == WireAll(vs)
    ensures Bounded(Stream(events)) && Decoded(RawLines(Stream(events)), Loads) == vs && Tail(Stream(events)) == []
  {
    FramingRoundTrip(vs, events, Loads);
    AllLoaded(vs);
  }
}
