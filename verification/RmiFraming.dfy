/**
 The line framing of the RMI session (src/airo_fanuc/rmi_client.py,
 src/airo_fanuc/testing/fake_crx_rmi.py): bytes arrive in chunks of any size with
 timeouts in between, and the reader cuts them into newline-terminated lines.
 Decoding a line as JSON is a parameter, `None` standing for the error it raises.
 */
module RmiFraming {
  import opened Options

  newtype Byte = x: int | 0 <= x < 256

  const LF: Byte := 10
  const CR: Byte := 13
  const MAX_RXBUF := 65536

  type Bytes = seq<Byte>

  /** What one `recv` of a session's socket gives. */
  datatype Recv = Chunk(bytes: Bytes) | Timeout | Closed

  datatype Outcome<+J> = Packet(value: J) | Malformed | TimedOut | Dead

  // ---- the meaning of a byte stream --------------------------------------------

  /** Position of the first newline, or the length when there is none. */
  function FirstLf(s: Bytes): (n: nat)
    ensures n <= |s| && (n < |s| ==> s[n] == LF) && forall i :: 0 <= i < n ==> s[i] != LF
  {
    if s == [] || s[0] == LF then 0 else 1 + FirstLf(s[1..])
  }

  function StripCr(line: Bytes): Bytes {
    if line != [] && line[|line| - 1] == CR then line[..|line| - 1] else line
  }

  /** The complete lines of a stream, newline removed. */
  function RawLines(s: Bytes): seq<Bytes>
    decreases |s|
  {
    var n := FirstLf(s);
    if n == |s| then [] else [s[..n]] + RawLines(s[n + 1..])
  }

  /** What follows the last newline. */
  function Tail(s: Bytes): (t: Bytes)
    ensures |t| <= |s| && LF !in t
    decreases |s|
  {
    var n := FirstLf(s);
    if n == |s| then s else Tail(s[n + 1..])
  }

  /** The packets in a list of raw lines, in order; a line that does not decode gives none. */
  function Decoded<J>(lines: seq<Bytes>, parse: Bytes -> Option<J>): seq<J> {
    if lines == [] then []
    else
      var p := parse(StripCr(lines[0]));
      (if p.Some? then [p.value] else []) + Decoded(lines[1..], parse)
  }

  function Stream(events: seq<Recv>): Bytes {
    if events == [] then []
    else Stream(events[..|events| - 1]) + (if events[|events| - 1].Chunk? then events[|events| - 1].bytes else [])
  }

  lemma NoLine(s: Bytes)
    requires FirstLf(s) == |s|
    ensures RawLines(s) == [] && Tail(s) == s
  {
    hide FirstLf;
  }

  lemma FirstLine(s: Bytes)
    requires FirstLf(s) < |s|
    ensures var n := FirstLf(s);
            RawLines(s) == [s[..n]] + RawLines(s[n + 1..]) && Tail(s) == Tail(s[n + 1..])
  {
    hide FirstLf;
  }

  lemma FirstLfIs(s: Bytes, n: nat)
    requires n < |s| && s[n] == LF && forall i :: 0 <= i < n ==> s[i] != LF
    ensures FirstLf(s) == n
  {
    hide FirstLf;
    var m := FirstLf(s);
  }

  /** A stream that starts with a whole line. */
  lemma LineFirst(line: Bytes, rest: Bytes)
    requires LF !in line
    ensures RawLines(line + [LF] + rest) == [line] + RawLines(rest)
    ensures Tail(line + [LF] + rest) == Tail(rest)
  {
    hide RawLines, Tail, FirstLf;
    var s := line + [LF] + rest;
    FirstLfIs(s, |line|);
    FirstLine(s);
    assert s[..|line|] == line && s[|line| + 1..] == rest;
  }

  /** Cutting at any point: the lines of the first part, then those of its tail with the second part. */
  lemma {:induction false} CutAnywhere(a: Bytes, b: Bytes)
    ensures RawLines(a + b) == RawLines(a) + RawLines(Tail(a) + b)
    ensures Tail(a + b) == Tail(Tail(a) + b)
    decreases |a|
  {
    hide RawLines, Tail, FirstLf;
    var n := FirstLf(a);
    if n == |a| {
      NoLine(a);
    } else {
      var line, rest := a[..n], a[n + 1..];
      FirstLine(a);
      assert a + b == line + [LF] + (rest + b);
      LineFirst(line, rest + b);
      CutAnywhere(rest, b);
      assert RawLines(a + b) == [line] + (RawLines(rest) + RawLines(Tail(rest) + b));
    }
  }

  lemma {:induction false} DecodedConcat<J>(a: seq<Bytes>, b: seq<Bytes>, parse: Bytes -> Option<J>)
    ensures Decoded(a + b, parse) == Decoded(a, parse) + Decoded(b, parse)
  {
    hide StripCr;
    if a == [] {
      assert a + b == b;
    } else {
      DecodedConcat(a[1..], b, parse);
      assert (a + b)[1..] == a[1..] + b && (a + b)[0] == a[0];
    }
  }

  lemma DecodedNext<J>(lines: seq<Bytes>, line: Bytes, parse: Bytes -> Option<J>)
    ensures var p := parse(StripCr(line));
            Decoded(lines + [line], parse) == Decoded(lines, parse) + (if p.Some? then [p.value] else [])
  {
    DecodedConcat(lines, [line], parse);
    assert [line][1..] == [];
    assert Decoded([], parse) == [];
  }

  lemma StreamNext(events: seq<Recv>, k: nat)
    requires k < |events|
    ensures Stream(events[..k + 1]) == Stream(events[..k]) + (if events[k].Chunk? then events[k].bytes else [])
  {
    assert events[..k + 1][..k] == events[..k];
  }

  /** The session dies at event `k`: the peer closes, or an unfinished line has outgrown the buffer. */
  predicate DiesAt(events: seq<Recv>, k: nat)
    requires k <= |events|
  {
    || |Tail(Stream(events[..k]))| > MAX_RXBUF
    || (k < |events| && (events[k].Closed? || events[k] == Chunk([])))
  }

  /** Every unfinished line on the way stays within the buffer. */
  predicate Bounded(s: Bytes) { forall k :: 0 <= k <= |s| ==> |Tail(s[..k])| <= MAX_RXBUF }

  /** The socket delivers bytes and timeouts only. */
  predicate Open(events: seq<Recv>) { forall e :: e in events ==> !e.Closed? && e != Chunk([]) }

  lemma {:induction false} StreamPrefix(events: seq<Recv>, k: nat)
    requires k <= |events|
    ensures Stream(events[..k]) <= Stream(events)
  {
    if k == |events| {
      assert events[..k] == events;
    } else {
      var n := |events| - 1;
      StreamPrefix(events[..n], k);
      assert events[..n][..k] == events[..k];
    }
  }

  predicate Survives(events: seq<Recv>) { forall k :: 0 <= k <= |events| ==> !DiesAt(events, k) }

  /** While every unfinished line fits, no chunking of the stream kills the session. */
  lemma BoundedSurvives(events: seq<Recv>)
    requires Open(events) && Bounded(Stream(events))
    ensures Survives(events)
  {
    forall k | 0 <= k <= |events| ensures !DiesAt(events, k) {
      StreamPrefix(events, k);
      assert Stream(events[..k]) == Stream(events)[..|Stream(events[..k])|];
      if k < |events| { assert events[k] in events; }
    }
  }

  /** One byte per recv. */
  function OneByOne(s: Bytes): seq<Recv> { seq(|s|, i requires 0 <= i < |s| => Chunk([s[i]])) }

  lemma {:induction false} OneByOneStream(s: Bytes, k: nat)
    requires k <= |s|
    ensures Stream(OneByOne(s)[..k]) == s[..k]
  {
    if k > 0 {
      OneByOneStream(s, k - 1);
      StreamNext(OneByOne(s), k - 1);
    }
  }

  /** The bound is exact: a stream is safe in every chunking if and only if it is bounded. */
  lemma SafeInEveryChunkingIff(s: Bytes)
    ensures Bounded(s) <==> forall events :: Open(events) && Stream(events) == s ==> Survives(events)
  {
    if Bounded(s) {
      forall events | Open(events) && Stream(events) == s ensures Survives(events) { BoundedSurvives(events); }
    } else {
      SlowDeliveryDies(s);
    }
  }

  lemma SlowDeliveryDies(s: Bytes)
    requires !Bounded(s)
    ensures Open(OneByOne(s)) && Stream(OneByOne(s)) == s && !Survives(OneByOne(s))
  {
    hide Stream, Tail;
    var k :| 0 <= k <= |s| && |Tail(s[..k])| > MAX_RXBUF;
    var events := OneByOne(s);
    OneByOneStream(s, k);
    OneByOneStream(s, |s|);
    assert events[..|s|] == events && s[..|s|] == s;
    assert DiesAt(events, k);
  }

  lemma TailOfLine(line: Bytes)
    requires LF !in line
    ensures Tail(line) == line && RawLines(line) == []
  {
  }

  /** A stream is bounded when its lines and its unfinished tail are. */
  lemma {:induction false} BoundedIff(s: Bytes)
    ensures Bounded(s) <==> (forall line :: line in RawLines(s) ==> |line| <= MAX_RXBUF) && |Tail(s)| <= MAX_RXBUF
    decreases |s|
  {
    hide RawLines, Tail, FirstLf;
    var n := FirstLf(s);
    if n == |s| {
      NoLine(s);
      forall k | 0 <= k <= |s| ensures Tail(s[..k]) == s[..k] { TailOfLine(s[..k]); }
      assert s[..|s|] == s;
    } else {
      var line, rest := s[..n], s[n + 1..];
      FirstLine(s);
      BoundedIff(rest);
      forall k | 0 <= k <= |s| ensures Tail(s[..k]) == if k <= n then s[..k] else Tail(rest[..k - n - 1]) {
        if k <= n {
          TailOfLine(s[..k]);
        } else {
          assert s[..k] == line + [LF] + rest[..k - n - 1];
          LineFirst(line, rest[..k - n - 1]);
        }
      }
      BoundedSplit(s, rest, n);
    }
  }

  lemma BoundedSplit(s: Bytes, rest: Bytes, n: nat)
    requires n < |s| && rest == s[n + 1..]
    requires forall k :: 0 <= k <= |s| ==> Tail(s[..k]) == if k <= n then s[..k] else Tail(rest[..k - n - 1])
    ensures Bounded(s) <==> n <= MAX_RXBUF && Bounded(rest)
  {
    hide Tail;
    if Bounded(s) {
      assert Tail(s[..n]) == s[..n];
      forall j | 0 <= j <= |rest| ensures |Tail(rest[..j])| <= MAX_RXBUF {
        assert Tail(s[..n + 1 + j]) == Tail(rest[..n + 1 + j - n - 1]);
      }
    }
  }

  // ---- the reader --------------------------------------------------------------

  class Session<J(0)> {
    var rxbuf: Bytes
    var incoming: seq<Recv>  // what the socket will still deliver
    var packets: seq<J>      // what the reader has dispatched
    ghost var delivered: seq<Recv>
    ghost var taken: seq<Bytes>

    /** The lines taken and those still buffered are the lines delivered. */
    ghost predicate Valid()
      reads this
    {
      && taken + RawLines(rxbuf) == RawLines(Stream(delivered))
      && Tail(rxbuf) == Tail(Stream(delivered))
    }

    constructor (events: seq<Recv>)
      ensures Valid() && incoming == events && packets == [] && delivered == [] && taken == []
    {
      rxbuf, incoming, packets, delivered, taken := [], events, [], [], [];
    }

    /** One line out of the buffer, if it holds one. */
    method TakeLine() returns (line: Option<Bytes>)
      requires Valid()
      modifies this`rxbuf, this`taken
      ensures Valid()
      ensures line.Some? ==> taken == old(taken) + [line.value] && |rxbuf| < |old(rxbuf)|
      ensures line.None? ==> taken == old(taken) && rxbuf == old(rxbuf) && RawLines(rxbuf) == [] && rxbuf == Tail(rxbuf)
    {
      hide RawLines, Tail, FirstLf, Stream;
      var nl := FirstLf(rxbuf);
      if nl == |rxbuf| {
        NoLine(rxbuf);
        return None;
      }
      FirstLine(rxbuf);
      var raw := rxbuf[..nl];
      rxbuf := rxbuf[nl + 1..];
      taken := taken + [raw];
      return Some(raw);
    }

    /** One recv that delivers bytes or times out. */
    method Receive()
      requires Valid() && RawLines(rxbuf) == [] && rxbuf == Tail(rxbuf)
      requires incoming != [] && !incoming[0].Closed?
      modifies this`rxbuf, this`incoming, this`delivered
      ensures Valid() && delivered == old(delivered) + [old(incoming)[0]] && incoming == old(incoming)[1..]
      ensures old(incoming)[0].Timeout? ==> rxbuf == old(rxbuf)
    {
      hide RawLines, Tail, FirstLf;
      var next := incoming[0];
      incoming, delivered := incoming[1..], delivered + [next];
      assert delivered[..|delivered| - 1] == old(delivered);
      if next.Chunk? {
        CutAnywhere(Stream(old(delivered)), next.bytes);
        rxbuf := rxbuf + next.bytes;
      } else {
        assert Stream(delivered) == Stream(old(delivered));
      }
    }

    /** _read_one_json: take one line from the buffer, or receive until there is one. */
    method ReadOneJson(parse: Bytes -> Option<J>) returns (out: Outcome<J>)
      requires Valid()
      modifies this`rxbuf, this`incoming, this`delivered, this`taken
      ensures Valid() && delivered + incoming == old(delivered) + old(incoming) && |delivered| >= |old(delivered)|
      ensures out.Packet? || out.Malformed? ==>
                && |taken| == |old(taken)| + 1 && taken[..|old(taken)|] == old(taken)
                && parse(StripCr(taken[|old(taken)|])) == (if out.Packet? then Some(out.value) else None)
                && (|incoming| < |old(incoming)| || (incoming == old(incoming) && |rxbuf| < |old(rxbuf)|))
      ensures out.TimedOut? || out.Dead? ==>
                taken == old(taken) && RawLines(rxbuf) == [] && rxbuf == Tail(Stream(delivered))
      ensures out.Dead? ==> DiesAt(delivered + incoming, |delivered|)
      ensures out.TimedOut? ==> |incoming| < |old(incoming)| || incoming == []
      ensures out.TimedOut? && delivered == old(delivered) ==> !DiesAt(delivered + incoming, |delivered|)
      ensures forall k :: |old(delivered)| <= k < |delivered| ==> !DiesAt(delivered + incoming, k)
    {
      hide RawLines, Tail, FirstLf, Stream, StripCr;
      ghost var all := delivered + incoming;
      while true
        invariant Valid() && delivered + incoming == all && |delivered| >= |old(delivered)|
        invariant taken == old(taken)
        invariant |incoming| < |old(incoming)| || (incoming == old(incoming) && rxbuf == old(rxbuf) && delivered == old(delivered))
        invariant forall k :: |old(delivered)| <= k < |delivered| ==> !DiesAt(all, k)
        decreases |incoming|
      {
        var line := TakeLine();
        if line.Some? {
          var value := parse(StripCr(line.value));
          out := if value.Some? then Packet(value.value) else Malformed;
          return;
        }
        assert all[..|delivered|] == delivered;
        if |rxbuf| > MAX_RXBUF { return Dead; }
        if incoming == [] { return TimedOut; }
        var next := incoming[0];
        assert all[|delivered|] == next;
        if next.Closed? || next == Chunk([]) { return Dead; }
        Receive();
        if next.Timeout? { return TimedOut; }
      }
    }

    /** _rx_loop on one socket: until it dies, or has nothing more to deliver. */
    method RxLoop(parse: Bytes -> Option<J>) returns (dead: bool)
      requires Valid() && delivered == [] && taken == [] && packets == []
      modifies this
      ensures delivered + incoming == old(incoming)
      ensures packets == Decoded(RawLines(Stream(delivered)), parse) && rxbuf == Tail(Stream(delivered))
      ensures forall k :: 0 <= k < |delivered| ==> !DiesAt(old(incoming), k)
      ensures if dead then DiesAt(old(incoming), |delivered|) else incoming == [] && !DiesAt(old(incoming), |delivered|)
      ensures Open(old(incoming)) && Bounded(Stream(old(incoming))) ==>
                && !dead && incoming == []
                && packets == Decoded(RawLines(Stream(old(incoming))), parse) && rxbuf == Tail(Stream(old(incoming)))
    {
      hide RawLines, Tail, FirstLf, Stream, StripCr, DiesAt, Open, Bounded;
      if Open(incoming) && Bounded(Stream(incoming)) { BoundedSurvives(incoming); }
      while true
        invariant Valid() && delivered + incoming == old(incoming)
        invariant packets == Decoded(taken, parse)
        invariant forall k :: 0 <= k < |delivered| ==> !DiesAt(old(incoming), k)
        decreases |incoming|, |rxbuf|
      {
        ghost var had := |taken|;
        var idle := incoming == [];
        var out := ReadOneJson(parse);
        assert taken + [] == taken && delivered + [] == delivered;
        if out.TimedOut? {
          if idle { return false; }
        } else if out.Dead? {
          return true;
        } else {
          assert taken == taken[..had] + [taken[had]];
          DecodedNext(taken[..had], taken[had], parse);
          if out.Packet? { packets := packets + [out.value]; }
        }
      }
    }
  }
}
