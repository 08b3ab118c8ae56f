/** The chunked coding of section 4.1 of RFC 7230 read back: any size lines in hexadecimal digits, and the ones
    uwsgi_buffer_append_chunked (core/buffer.c) prints. */
module ChunkedCoding {

  import opened Basics
  import opened ChunkedModel
  import opened ChunkedRuns

  const TWO_32 := 0x1_0000_0000
  const CRLF: seq<byte> := [CR, LF]

  // ---- size lines --------------------------------------------------------------------------------

  predicate AllHex(s: seq<byte>) {
    forall i :: 0 <= i < |s| ==> IsHex(s[i])
  }

  /** A size line without extensions: hexadecimal digits, of either case, worth `n`. */
  predicate SizeLine(s: seq<byte>, n: nat) {
    s != [] && AllHex(s) && Number(s, 0) == n
  }

  lemma {:induction false} StopAfter(s: seq<byte>, i: nat, t: seq<byte>)
    requires i <= |s| && AllHex(s) && t != [] && !IsAlnum(t[0])
    ensures Stop(s + t, i) == |s|
    decreases |s| - i
  {
    if i < |s| {
      assert (s + t)[i] == s[i];
      StopAfter(s, i + 1, t);
    }
  }

  /** A size line is read as its number, and exactly the line is used. */
  lemma SizeLineRead(s: seq<byte>, n: nat, t: seq<byte>)
    requires SizeLine(s, n) && n < TWO_64
    ensures LineOf(s + CRLF + t) == Size(n, |s| + 2) && (s + CRLF + t)[|s| + 2..] == t
  {
    hide Number, Stop;
    var d := s + CRLF + t;
    assert d == s + (CRLF + t);
    StopAfter(s, 0, CRLF + t);
    assert d[..|s|] == s;
    assert Strtoul(s) == n by { assert IsHex(s[0]) && (|s| >= 2 ==> IsHex(s[1])); }
  }

  // ---- the printer ----------------------------------------------------------------------------------

  function HexChar(v: nat): (b: byte)
    requires v < 16
    ensures IsHex(b) && Digit(b) == v
  {
    if v < 10 then 48 + v else 55 + v
  }

  /** The digits %X prints. */
  function Hex(n: nat): (s: seq<byte>)
    ensures s != []
  {
    if n < 16 then [HexChar(n)] else Hex(n / 16) + [HexChar(n % 16)]
  }

  /** The line uwsgi_buffer_append_chunked appends: the length goes through an unsigned int. */
  function Header(n: nat): seq<byte> {
    Hex(n % TWO_32) + CRLF
  }

  lemma {:induction false} NumberSnoc(s: seq<byte>, b: byte, acc: nat)
    requires AllHex(s) && IsHex(b)
    ensures Number(s + [b], acc) == Number(s, acc) * 16 + Digit(b)
    decreases |s|
  {
    if s != [] {
      assert (s + [b])[1..] == s[1..] + [b];
      NumberSnoc(s[1..], b, acc * 16 + Digit(s[0]));
    } else {
      assert ([b])[1..] == [] && [] + [b] == [b];
    }
  }

  lemma {:induction false} HexNumber(n: nat)
    ensures SizeLine(Hex(n), n)
  {
    if n >= 16 {
      HexNumber(n / 16);
      NumberSnoc(Hex(n / 16), HexChar(n % 16), 0);
    } else {
      var s := [HexChar(n)];
      assert s[1..] == [];
    }
  }

  /** Printing a length and reading the line back gives the length and leaves the bytes that follow, exactly
      when the length is below 2^32. */
  lemma HeaderRoundTrip(n: nat, t: seq<byte>)
    ensures LineOf(Header(n) + t) == Size(n, |Header(n)|) <==> n < TWO_32
    ensures LineOf(Header(n) + t) == Size(n % TWO_32, |Header(n)|) && (Header(n) + t)[|Header(n)|..] == t
  {
    hide Hex, LineOf;
    HexNumber(n % TWO_32);
    SizeLineRead(Hex(n % TWO_32), n % TWO_32, t);
  }

  // ---- whole bodies ------------------------------------------------------------------------------------

  /** A chunk as sent: its size line and its data. */
  datatype Wire = Wire(line: seq<byte>, data: seq<byte>)

  predicate Proper(w: Wire) {
    0 < |w.data| < TWO_63 && SizeLine(w.line, |w.data|)
  }

  function Encode(cs: seq<Wire>): seq<byte> {
    if cs == [] then [] else cs[0].line + CRLF + cs[0].data + CRLF + Encode(cs[1..])
  }

  function Data(cs: seq<Wire>): seq<seq<byte>> {
    seq(|cs|, i requires 0 <= i < |cs| => cs[i].data)
  }

  /** A chunk, then whatever follows. */
  lemma ChunkRead(w: Wire, t: seq<byte>)
    requires Proper(w)
    ensures var d := w.line + CRLF + w.data + CRLF + t;
            (Decode(d) == Cons(w.data, Decode(t)) && (Steady(t) ==> Steady(d)))
  {
    hide LineOf, SizeLine;
    var n, body := |w.data|, w.data + CRLF + t;
    var d := w.line + CRLF + w.data + CRLF + t;
    assert d == w.line + CRLF + body;
    SizeLineRead(w.line, n, body);
    assert body[..n] == w.data && body[n + 2..] == t;
  }

  lemma LastRead(last: seq<byte>, trailer: seq<byte>)
    requires SizeLine(last, 0)
    ensures Decode(last + CRLF + trailer) == Decoded([], true) && Steady(last + CRLF + trailer)
  {
    hide LineOf;
    SizeLineRead(last, 0, trailer);
  }

  lemma EncodeFirst(cs: seq<Wire>, t: seq<byte>)
    requires cs != []
    ensures Encode(cs) + t == cs[0].line + CRLF + cs[0].data + CRLF + (Encode(cs[1..]) + t)
  {
    Regroup(cs[0].line + CRLF + cs[0].data + CRLF, Encode(cs[1..]), t);
  }

  lemma Regroup(a: seq<byte>, b: seq<byte>, c: seq<byte>)
    ensures (a + b) + c == a + (b + c)
  {
  }

  /** A body in the chunked coding decodes to its chunks, whatever trails the last-chunk. */
  lemma {:induction false} DecodeEncode(cs: seq<Wire>, last: seq<byte>, trailer: seq<byte>)
    requires (forall i :: 0 <= i < |cs| ==> Proper(cs[i])) && SizeLine(last, 0)
    ensures var d := Encode(cs) + (last + CRLF + trailer); Decode(d) == Decoded(Data(cs), true) && Steady(d)
  {
    hide Decode, Steady, SizeLine, LineOf, Number;
    var t := last + CRLF + trailer;
    if cs == [] {
      LastRead(last, trailer);
      assert Encode(cs) + t == t;
    } else {
      var w, rest := cs[0], Encode(cs[1..]) + t;
      DecodeEncode(cs[1..], last, trailer);
      ChunkRead(w, rest);
      EncodeFirst(cs, t);
      hide Encode;
      assert Data(cs) == [w.data] + Data(cs[1..]);
    }
  }

  /** The contract of the reader: for every list of non-empty chunks, every way their coding arrives and whatever lies in
      memory, the results are exactly the chunks in order and then empty forever; and once all bytes have arrived,
      every read has a result. */
  lemma ChunksComeThrough(cs: seq<Wire>, last: seq<byte>, trailer: seq<byte>, calls: seq<Call>)
    requires (forall i :: 0 <= i < |cs| ==> Proper(cs[i])) && SizeLine(last, 0)
    ensures var d := Encode(cs) + (last + CRLF + trailer); var rs := Reads(START, d, calls).results;
            ((forall i :: 0 <= i < |rs| ==> rs[i] == if i < |cs| then cs[i].data else []) && !RanDry(START, d, calls))
  {
    hide Decode, Steady, SizeLine, Encode, Reads, Read, Orderly;
    var d := Encode(cs) + (last + CRLF + trailer);
    DecodeEncode(cs, last, trailer);
    SteadyOrderly(d);
    FewerOrderly(d, 0, 3);
    ReadsInOrder(d, calls);
    var rs := Reads(START, d, calls).results;
    forall i | 0 <= i < |rs|
      ensures rs[i] == if i < |cs| then cs[i].data else []
    {
      assert InOrderAt(rs, Decode(d), i);
    }
    if RanDry(START, d, calls) { AllDelivered(d, calls); }
  }

  /** A body as this server's own printer writes it. */
  function Printed(datas: seq<seq<byte>>): seq<byte> {
    if datas == [] then [] else Header(|datas[0]|) + datas[0] + CRLF + Printed(datas[1..])
  }

  function Wires(datas: seq<seq<byte>>): seq<Wire> {
    seq(|datas|, i requires 0 <= i < |datas| => Wire(Hex(|datas[i]| % TWO_32), datas[i]))
  }

  lemma {:induction false} PrintedIsEncoded(datas: seq<seq<byte>>)
    ensures Printed(datas) == Encode(Wires(datas))
  {
    hide Hex;
    if datas != [] {
      PrintedIsEncoded(datas[1..]);
      assert Wires(datas)[1..] == Wires(datas[1..]);
    }
  }

  /** What the printer writes, the reader gives back. */
  lemma PrintedComesThrough(datas: seq<seq<byte>>, calls: seq<Call>)
    requires forall i :: 0 <= i < |datas| ==> 0 < |datas[i]| < TWO_32
    ensures var d := Printed(datas) + (Hex(0) + CRLF + CRLF); var rs := Reads(START, d, calls).results;
            ((forall i :: 0 <= i < |rs| ==> rs[i] == if i < |datas| then datas[i] else []) && !RanDry(START, d, calls))
  {
    hide Reads, Read, SizeLine, Hex, Printed, Encode;
    var cs := Wires(datas);
    PrintedIsEncoded(datas);
    forall i | 0 <= i < |cs|
      ensures Proper(cs[i])
    {
      HexNumber(|datas[i]|);
    }
    HexNumber(0);
    ChunksComeThrough(cs, Hex(0), CRLF, calls);
  }

  // ---- the limits ----------------------------------------------------------------------------------

  lemma PrintedForm(data: seq<byte>)
    requires |data| < TWO_32
    ensures Printed([data]) == Hex(|data|) + CRLF + data + CRLF + []
  {
    HeaderForm(|data|);
    hide Hex, Header;
    var ds := [data];
    assert ds[1..] == [] && Printed(ds) == Header(|ds[0]|) + ds[0] + CRLF + Printed(ds[1..]);
  }

  lemma HeaderForm(n: nat)
    requires n < TWO_32
    ensures Header(n) == Hex(n) + CRLF
  {
    hide Hex;
  }

  lemma PrintedOne(data: seq<byte>)
    requires 0 < |data| < TWO_32
    ensures var w := Wire(Hex(|data|), data);
            Proper(w) && Printed([data]) == w.line + CRLF + w.data + CRLF + [] && Decode(Printed([data])) != NOTHING
  {
    hide Hex, Decode, SizeLine, Steady;
    var w := Wire(Hex(|data|), data);
    HexNumber(|data|);
    ChunkRead(w, []);
    PrintedForm(data);
    assert Cons(data, Decode([])).chunks[0] == data;
  }

  /** A size line of 2^63 or more is dropped; a reader that got everything at once has no result, whatever readable
      follows, while there are ways of feeding it that do. */
  lemma DroppedLineStalls(line: seq<byte>, n: nat, t: seq<byte>) returns (calls: seq<Call>, others: seq<Call>)
    requires SizeLine(line, n) && TWO_63 <= n < TWO_64 && Decode(t) != NOTHING
    ensures var d := line + CRLF + t;
            (Decode(d) == Decode(t) && RanDry(START, d, calls) && Reads(START, d, calls).results == [] &&
             Reads(START, d, others).results != [])
  {
    hide LineOf, SizeLine, Read;
    var d := line + CRLF + t;
    SizeLineRead(line, n, t);
    DropsDry(START, d);
    calls := [Call([], [Feed(|d|, [])])];
    others := Reach(START, d);
  }

  /** "FFFFFFFFFFFFFFFE" - which the code takes for "no line yet" - and then the chunk "A". */
  const STALLING: seq<byte> := Hex(TWO_64 - 2) + CRLF + Printed([[65]])

  lemma StallExample() returns (calls: seq<Call>, others: seq<Call>)
    ensures RanDry(START, STALLING, calls) && Reads(START, STALLING, calls).results == [] && Reads(START, STALLING, others).results != []
  {
    hide Hex, Printed, SizeLine, Decode, Reads, RanDry;
    HexNumber(TWO_64 - 2);
    PrintedOne([65]);
    calls, others := DroppedLineStalls(Hex(TWO_64 - 2), TWO_64 - 2, Printed([[65]]));
  }

  /** An empty size line before a chunk: received alone it ends the body; received with the chunk, strtoul takes its
      number from the chunk's own size line, and the result is the first bytes of that line and what follows it. */
  lemma EmptyLineMisread(data: seq<byte>)
    requires 0 < |data| < TWO_32
    ensures var t := Printed([data]); var d := CRLF + t;
            (|data| <= |t| && Read(START, d, Call([], [Feed(2, [])])).result == Some([]) &&
             Read(START, d, Call([], [Feed(|d|, [])])).result == Some(t[..|data|]))
  {
    hide Printed, LineOf, Strtoul, Read;
    var t := Printed([data]);
    EmptyFirst(t);
    EmptyEnds(START, CRLF + t);
    MisreadNumber(data);
    AtOnce(t, |data|);
  }

  lemma MisreadNumber(data: seq<byte>)
    requires 0 < |data| < TWO_32
    ensures var t := Printed([data]); Strtoul(CRLF + t + []) == |data| && |data| + 2 <= |t|
  {
    hide Hex, Printed, Decode, SizeLine, LineOf, Number;
    var t, n := Printed([data]), |data|;
    PrintedOne(data);
    SizeLineRead(Hex(n), n, data + CRLF);
    assert t == Hex(n) + CRLF + (data + CRLF);
    StrtoulStops(t, []);
    assert t + [] == t && CRLF + t + [] == CRLF + t;
    SkipsCrLf(t);
  }

  lemma EmptyFirst(t: seq<byte>)
    ensures LineOf(CRLF + t).Empty?
  {
    assert Stop(CRLF + t, 0) == 0;
  }

  /** The whole of a stream that starts with an empty line, in one receive. */
  lemma AtOnce(t: seq<byte>, n: nat)
    requires Strtoul(CRLF + t + []) == n && 0 < n < TWO_63 && n + 2 <= |t|
    ensures Read(START, CRLF + t, Call([], [Feed(|CRLF + t|, [])])).result == Some(t[..n])
  {
    EmptyFirst(t);
    hide LineOf, Strtoul;
    var d := CRLF + t;
    var got := [Feed(|d|, [])];
    var v := START.(buf := d);
    assert START.buf[0..] == [] && [] + d[..|d|] == d && d[|d|..] == [] && got[1..] == [] && d[2..] == t;
    assert Read(START, d, Call([], got)) == Loop(START, d, [], got);
    assert Loop(START, d, [], got) == Parse(v, [], [], []);
    assert Parse(v, [], [], []) == Sized(v.(buf := t), [], [], n);
  }

  /** "\r\n5\r\nhello\r\n". */
  const MISREAD: seq<byte> := CRLF + Printed([[104, 101, 108, 108, 111]])

  lemma MisreadExample()
    ensures !Agree(MISREAD)
  {
    hide Printed, Reads, Agree;
    var data: seq<byte> := [104, 101, 108, 108, 111];
    PrintedOne(data);
    EmptyFirst(Printed([data]));
    AgreeIffOrderly(MISREAD);
  }
}
