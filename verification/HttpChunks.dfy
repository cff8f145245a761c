/**
 The chunked transfer coding (section 3.6.1 of RFC 2616): encoding a body in chunks and feeding the result to the
 parser delivers exactly the body and one end of message.
 */
module HttpChunks {
  import opened Bytes
  import opened Common
  import opened HttpSwitch
  import opened HttpMachine
  import opened HttpParser
  import opened HttpValues

  function Digit(d: nat): (c: Byte)
    requires d < 16
    ensures Unhex(c) == d
  {
    if d < 10 then (d + '0' as int) as char else (d - 10 + 'a' as int) as char
  }

  function Hex(n: nat): seq<Byte> { (if n < 16 then [] else Hex(n / 16)) + [Digit(n % 16)] }


  function Chunk(c: seq<Byte>): seq<Byte> { Hex(|c|) + CRLF + c + CRLF }

  /** The chunks, then the empty last chunk and an empty trailer. */
  function Encode(chunks: seq<seq<Byte>>): seq<Byte>
    decreases |chunks|
  {
    if chunks == [] then Hex(0) + CRLF + CRLF else Chunk(chunks[0]) + Encode(chunks[1..])
  }

  lemma NothingTold()
    ensures var none: seq<Event> := []; none + none == none && none + none + none == none
  {
  }

  /** Two bytes, of which the first reports nothing. */
  lemma RunTwo(p: Parser, d: seq<Byte>, q: Parser, events: seq<Event>, r: Parser, s: Parser, notes: seq<Event>, a: Byte,
      b: Byte)
    requires Run(p, d) == Running(q, events) && Step(q, a) == Running(r, []) && Step(r, b) == Running(s, notes)
    ensures Run(p, d + [a, b]) == Running(s, events + notes)
  {
    hide Run, Step;
    RunSnoc(p, d, a);
    assert events + [] == events;
    RunSnoc(p, d + [a], b);
    assert d + [a, b] == d + [a] + [b];
  }

  function Pow16(k: nat): nat { if k == 0 then 1 else 16 * Pow16(k - 1) }

  lemma {:induction false} HexLength(n: nat, k: nat)
    requires 1 <= k && n < Pow16(k)
    ensures 1 <= |Hex(n)| <= k
    decreases k
  {
    if n >= 16 {
      assert k >= 2 by { assert Pow16(1) == 16; }
      HexLength(n / 16, k - 1);
    }
  }

  lemma HexIsShort(n: nat)
    requires n <= ULLONG_MAX
    ensures 1 <= |Hex(n)| <= 16
  {
    assert Pow16(4) == 0x10000;
    assert Pow16(8) == 0x1_0000_0000;
    assert Pow16(12) == 0x1_0000_0000_0000;
    assert Pow16(16) == TWO_64;
    HexLength(n, 16);
  }

  /** Between two chunks. */
  ghost predicate AtChunk(p: Parser) {
    p.state.ChunkSizeStart? && p.nread == 0 && p.flags.chunked && Inv(p, false)
  }

  function InSize(p: Parser, n: nat, digits: nat): Parser {
    p.(state := ChunkSize, contentLength := n, nread := digits)
  }

  lemma FirstDigit(p: Parser, d: nat)
    requires AtChunk(p) && d < 16
    ensures Step(p, Digit(d)) == Running(InSize(p, d, 1), [])
  {
    var q := p.(nread := 1);
    assert SwitchChunk(q, Digit(d)) == Plain(q.(contentLength := d, state := ChunkSize));
    NothingTold();
  }

  lemma NextDigit(p: Parser, n: nat, digits: nat, d: nat)
    requires p.flags.chunked && d < 16 && 16 * n + 16 <= ULLONG_MAX && digits < MAX_HEADER_SIZE
    ensures Step(InSize(p, n, digits), Digit(d)) == Running(InSize(p, 16 * n + d, digits + 1), [])
  {
    LengthIsExact(n, 16, d);
    var q := InSize(p, n, digits + 1);
    assert Digit(d) != CR;
    assert SwitchChunk(q, Digit(d)) == Plain(q.(contentLength := 16 * n + d));
    NothingTold();
  }

  lemma RunOneDigit(p: Parser, n: nat)
    requires AtChunk(p) && n < 16
    ensures Run(p, Hex(n)) == Running(InSize(p, n, |Hex(n)|), [])
  {
    NothingTold();
    FirstDigit(p, n);
    RunSnoc(p, [], Digit(n));
    assert Hex(n) == [] + [Digit(n)];
  }

  lemma HexSplit(n: nat) returns (m: nat, d: nat)
    requires 16 <= n <= ULLONG_MAX - 16
    ensures m < n && d < 16 && 16 * m + d == n && 16 * m + 16 <= ULLONG_MAX
    ensures Hex(n) == Hex(m) + [Digit(d)] && |Hex(m)| <= 16
  {
    m, d := n / 16, n % 16;
    HexIsShort(m);
  }

  /** Reading the size of a chunk. */
  lemma {:induction false} RunHex(p: Parser, n: nat)
    requires AtChunk(p) && n <= ULLONG_MAX - 16
    ensures Run(p, Hex(n)) == Running(InSize(p, n, |Hex(n)|), [])
    decreases n
  {
    if n < 16 {
      RunOneDigit(p, n);
    } else {
      var m, d := HexSplit(n);
      RunHex(p, m);
      RunNextDigit(p, Hex(m), m, |Hex(m)|, d);
    }
  }

  lemma RunNextDigit(p: Parser, read: seq<Byte>, n: nat, digits: nat, d: nat)
    requires p.flags.chunked && d < 16 && 16 * n + 16 <= ULLONG_MAX && digits < MAX_HEADER_SIZE
    requires Run(p, read) == Running(InSize(p, n, digits), [])
    ensures Run(p, read + [Digit(d)]) == Running(InSize(p, 16 * n + d, digits + 1), [])
  {
    NothingTold();
    NextDigit(p, n, digits, d);
    RunSnoc(p, read, Digit(d));
  }

  lemma SizeLineEnds(p: Parser, n: nat, digits: nat)
    requires p.flags.chunked && digits + 2 <= MAX_HEADER_SIZE && n < ULLONG_MAX
    ensures var q := InSize(p, n, digits);
            Step(q, CR) == Running(q.(state := ChunkSizeAlmostDone, nread := digits + 1), [])
    ensures var r := InSize(p, n, digits + 1).(state := ChunkSizeAlmostDone);
            Step(r, LF) == Running(if n == 0
              then r.(nread := 0, flags := r.flags.(trailing := true), state := HeaderFieldStart)
                                   else r.(nread := 0, state := ChunkData), [])
  {
    var q := InSize(p, n, digits + 1);
    assert SwitchChunk(q, CR) == To(q, ChunkSizeAlmostDone);
    var r := InSize(p, n, digits + 2).(state := ChunkSizeAlmostDone);
    assert SwitchChunk(r, LF).Go?;
    NothingTold();
  }

  lemma ChunkEnds(p: Parser)
    requires p.state.ChunkDataAlmostDone? && p.flags.chunked && p.contentLength == 0
    ensures Step(p, CR) == Running(p.(state := ChunkDataDone), [])
    ensures Step(p.(state := ChunkDataDone), LF) == Running(p.(nread := 0, state := ChunkSizeStart), [])
  {
    assert SwitchChunk(p, CR) == Go(p.(state := ChunkDataDone), None, Some(BODY), [], false);
    ChunkEndsAfter(p.(state := ChunkDataDone));
    NothingTold();
  }

  lemma ChunkEndsAfter(p: Parser)
    requires p.state.ChunkDataDone? && p.flags.chunked
    ensures Step(p, LF) == Running(p.(nread := 0, state := ChunkSizeStart), [])
  {
    assert SwitchChunk(p, LF) == Plain(p.(nread := 0, state := ChunkSizeStart));
    NothingTold();
  }

  lemma RunSizeLine(p: Parser, n: nat)
    requires AtChunk(p) && 0 < n <= ULLONG_MAX - 16
    ensures Run(p, Hex(n) + CRLF) == Running(p.(contentLength := n, nread := 0, state := ChunkData), [])
  {
    NothingTold();
    HexIsShort(n);
    RunHex(p, n);
    SizeLineEnds(p, n, |Hex(n)|);
    var q := InSize(p, n, |Hex(n)|);
    RunTwo(p, Hex(n), q, [], q.(state := ChunkSizeAlmostDone, nread := |Hex(n)| + 1),
           p.(contentLength := n, nread := 0, state := ChunkData), [], CR, LF);
  }

  /** One chunk is delivered whole and leads back to where it began. */
  lemma RunChunk(p: Parser, c: seq<Byte>)
    requires AtChunk(p) && 0 < |c| <= ULLONG_MAX - 16
    ensures Run(p, Chunk(c)) == Running(p.(contentLength := 0), Tagged(BODY, c))
  {
    var d := p.(contentLength := |c|, nread := 0, state := ChunkData);
    var e := p.(contentLength := 0, nread := 0, state := ChunkDataAlmostDone);
    RunSizeLine(p, |c|);
    RunWholeBody(d, c);
    RunConcat(p, Hex(|c|) + CRLF, c);
    Assoc([], Tagged(BODY, c), []);
    assert Run(p, Hex(|c|) + CRLF + c) == Running(e, Tagged(BODY, c));
    ChunkEnds(e);
    RunTwo(p, Hex(|c|) + CRLF + c, e, Tagged(BODY, c), e.(state := ChunkDataDone), p.(contentLength := 0), [], CR, LF);
  }

  /** The parser after the last chunk and an empty trailer. */
  function AfterLast(p: Parser): Parser {
    p.(contentLength := 0, nread := 2, flags := p.flags.(trailing := true), state := NewMessage(p))
  }

  lemma TrailerEnds(p: Parser)
    requires p.state.HeaderFieldStart? && p.nread == 0 && p.flags.trailing
    ensures Step(p, CR) == Running(p.(state := HeadersAlmostDone, nread := 1), [])
    ensures Step(p.(state := HeadersAlmostDone, nread := 1), LF) ==
        Running(p.(state := NewMessage(p), nread := 2), [MessageComplete])
  {
    NothingTold();
    assert [] + [MessageComplete] + [] == [MessageComplete];
  }

  lemma RunLastSize(p: Parser)
    requires AtChunk(p)
    ensures Run(p, Hex(0) + CRLF) == Running(InTrailer(p), [])
  {
    RunHex(p, 0);
    SizeLineEnds(p, 0, 1);
    var q := InSize(p, 0, 1);
    RunTwo(p, Hex(0), q, [], q.(state := ChunkSizeAlmostDone, nread := 2), InTrailer(p), [], CR, LF);
  }

  /** The parser after the size line of the last chunk. */
  function InTrailer(p: Parser): Parser {
    p.(contentLength := 0, nread := 0, flags := p.flags.(trailing := true), state := HeaderFieldStart)
  }

  lemma RunLast(p: Parser)
    requires AtChunk(p)
    ensures Run(p, Hex(0) + CRLF + CRLF) == Running(AfterLast(p), [MessageComplete])
  {
    var t := InTrailer(p);
    RunLastSize(p);
    TrailerEnds(t);
    RunTwo(p, Hex(0) + CRLF, t, [], t.(state := HeadersAlmostDone, nread := 1), t.(state := NewMessage(t), nread := 2),
                [MessageComplete], CR, LF);
    assert [] + [MessageComplete] == [MessageComplete];
  }

  /** Any list of non-empty chunks: exactly their concatenation, then one end of message. */
  lemma {:induction false} ChunkedBodyDelivered(p: Parser, chunks: seq<seq<Byte>>)
    requires AtChunk(p) && forall k :: 0 <= k < |chunks| ==> 0 < |chunks[k]| <= ULLONG_MAX - 16
    ensures Run(p, Encode(chunks)) == Running(AfterLast(p), Tagged(BODY, Concat(chunks)) + [MessageComplete])
    decreases |chunks|
  {
    if chunks == [] {
      RunLast(p);
      assert Tagged(BODY, Concat(chunks)) + [MessageComplete] == [MessageComplete];
    } else {
      var c, rest := chunks[0], chunks[1..];
      RunChunk(p, c);
      ChunkedBodyDelivered(p.(contentLength := 0), rest);
      RunConcat(p, Chunk(c), Encode(rest));
      TaggedConcat(c, Concat(rest));
      Assoc(Tagged(BODY, c), Tagged(BODY, Concat(rest)), [MessageComplete]);
    }
  }

  lemma TaggedConcat(a: seq<Byte>, b: seq<Byte>)
    ensures Tagged(BODY, a + b) == Tagged(BODY, a) + Tagged(BODY, b)
  {
  }

  /** The same through http_parser_execute, with the encoded stream cut up in any way. */
  method FeedChunked(parser: RequestParser, chunks: seq<seq<Byte>>, pieces: seq<seq<Byte>>) returns (ok: bool)
    requires AtChunk(parser.st) && parser.errno == None
    requires forall k :: 0 <= k < |chunks| ==> 0 < |chunks[k]| <= ULLONG_MAX - 16
    requires (forall k :: 0 <= k < |pieces| ==> pieces[k] != []) && Concat(pieces) == Encode(chunks)
    modifies parser
    ensures ok && parser.st == AfterLast(old(parser.st))
    ensures Expand(parser.calls) == Expand(old(parser.calls)) + (Tagged(BODY, Concat(chunks)) + [MessageComplete])
  {
    ChunkedBodyDelivered(parser.st, chunks);
    ok := parser.Feed(pieces);
  }
}
