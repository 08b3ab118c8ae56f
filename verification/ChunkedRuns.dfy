/** Sequences of reads of a chunked body: results in order, nothing lost, and for exactly which streams this holds
    however the bytes arrive and whatever lies in memory behind them. */
module ChunkedRuns {

  import opened Basics
  import opened ChunkedModel

  /** The non-NULL results of a sequence of reads, and what they leave. */
  datatype Run = Run(results: seq<seq<byte>>, st: St, pending: seq<byte>)

  function Reads(st: St, pending: seq<byte>, calls: seq<Call>): (r: Run)
    requires Wf(st)
    ensures Wf(r.st)
    decreases |calls|
  {
    if calls == [] then Run([], st, pending)
    else
      var o := Read(st, pending, calls[0]);
      var r := Reads(o.st, o.pending, calls[1..]);
      if o.result.None? then r else r.(results := [o.result.value] + r.results)
  }

  /** The last of the reads has no result although all bytes have arrived. */
  predicate RanDry(st: St, pending: seq<byte>, calls: seq<Call>)
    requires Wf(st)
    decreases |calls|
  {
    calls != [] &&
    var o := Read(st, pending, calls[0]);
    if |calls| == 1 then o.result.None? && o.pending == [] else RanDry(o.st, o.pending, calls[1..])
  }

  /** Two ways of feeding the stream have the same results, as far as both have got. */
  ghost predicate Agree(stream: seq<byte>) {
    forall calls, others, i ::
      0 <= i < |Reads(START, stream, calls).results| && i < |Reads(START, stream, others).results| ==>
        Reads(START, stream, calls).results[i] == Reads(START, stream, others).results[i]
  }

  /** When a way of feeding has run dry, no other gets further. */
  ghost predicate NeverBehind(stream: seq<byte>) {
    forall calls, others :: RanDry(START, stream, calls) ==>
      |Reads(START, stream, others).results| <= |Reads(START, stream, calls).results|
  }

  /** The results are the chunks in order and then, after an end mark, empty forever. */
  ghost predicate InOrder(results: seq<seq<byte>>, d: Decoded) {
    forall i :: 0 <= i < |results| ==> InOrderAt(results, d, i)
  }

  predicate InOrderAt(results: seq<seq<byte>>, d: Decoded, i: nat)
    requires i < |results|
  {
    if i < |d.chunks| then results[i] == d.chunks[i] else d.ended && results[i] == []
  }

  lemma InOrderCons(c: seq<byte>, rs: seq<seq<byte>>, d: Decoded)
    requires InOrder(rs, d)
    ensures InOrder([c] + rs, Cons(c, d))
  {
    var qs, e := [c] + rs, Cons(c, d);
    forall i | 0 <= i < |qs|
      ensures InOrderAt(qs, e, i)
    {
      if i > 0 { assert InOrderAt(rs, d, i - 1); }
    }
  }

  lemma {:induction false} ReadsDeliver(st: St, pending: seq<byte>, calls: seq<Call>, k: nat)
    requires Wf(st) && k <= 3 && InOrderFrom(st, pending, k)
    ensures InOrder(Reads(st, pending, calls).results, Rest(st, pending))
    decreases |calls|
  {
    if calls != [] {
      hide Rest, InOrder, InOrderFrom, Read;
      var o := Read(st, pending, calls[0]);
      ReadDelivers(st, pending, calls[0], k);
      ReadsDeliver(o.st, o.pending, calls[1..], k);
      var rs := Reads(o.st, o.pending, calls[1..]).results;
      if o.result.Some? { EndOrChunk(st, pending, o, rs, k); } else if rs != [] { NothingComes(rs); }
    } else {
      assert Reads(st, pending, calls).results == [];
    }
  }

  lemma NothingComes(rs: seq<seq<byte>>)
    requires rs != []
    ensures !InOrder(rs, NOTHING)
  {
    assert !InOrderAt(rs, NOTHING, 0);
  }

  lemma EndOrChunk(st: St, pending: seq<byte>, o: Out, rs: seq<seq<byte>>, k: nat)
    requires Wf(st) && Wf(o.st) && o.result.Some? && Delivers(k, Rest(st, pending), o) && InOrder(rs, Rest(o.st, o.pending))
    ensures InOrder([o.result.value] + rs, Rest(st, pending))
  {
    if o.result.value != [] {
      hide Rest, InOrder, InOrderFrom;
      InOrderCons(o.result.value, rs, Rest(o.st, o.pending));
    } else {
      hide Decode, DecodeBody, InOrderFrom;
      assert InOrder([[]] + rs, Decoded([], true)) by {
        assert forall i :: 0 <= i < |rs| ==> InOrderAt(rs, Decoded([], true), i) && ([[]] + rs)[i + 1] == rs[i];
      }
    }
  }

  /** The results of reads, however they are fed, are the chunks of the whole stream in order and then, past the
      end mark, empty. */
  lemma ReadsInOrder(stream: seq<byte>, calls: seq<Call>)
    requires Orderly(stream, 3)
    ensures InOrder(Reads(START, stream, calls).results, Decode(stream))
  {
    assert START.buf[0..] + stream == stream;
    ReadsDeliver(START, stream, calls, 3);
  }

  lemma SplitIndependent(stream: seq<byte>, calls: seq<Call>, others: seq<Call>, i: nat)
    requires Orderly(stream, 3)
    requires i < |Reads(START, stream, calls).results| && i < |Reads(START, stream, others).results|
    ensures Reads(START, stream, calls).results[i] == Reads(START, stream, others).results[i]
  {
    ReadsInOrder(stream, calls);
    ReadsInOrder(stream, others);
    hide Reads, Decode, Orderly;
    assert InOrderAt(Reads(START, stream, calls).results, Decode(stream), i);
    assert InOrderAt(Reads(START, stream, others).results, Decode(stream), i);
  }

  // ---- nothing is left when the bytes have run out ----------------------------------------------------

  lemma {:induction false} NothingSteady(d: seq<byte>)
    requires Decode(d) == NOTHING
    ensures Steady(d)
  {
    hide DecodeBody;
    if LineOf(d).Size? {
      var n, rest := LineOf(d).n, d[LineOf(d).used..];
      if n != 0 && Signed(n) >= 0 { assert |rest| < n + 2 by { BodyNothing(n, rest); } }
    }
  }

  lemma BodyNothing(n: nat, d: seq<byte>)
    ensures DecodeBody(n, d) == NOTHING <==> |d| < n + 2
  {
    if |d| >= n + 2 { assert DecodeBody(n, d).chunks[0] == d[..n]; }
  }

  /** Where a read stands that has taken all it was given: what it waits for is really missing. */
  ghost predicate Firm(st: St, pending: seq<byte>)
    requires Wf(st)
  {
    var d := st.buf[st.decapitate..] + pending;
    st.complete ||
    (&& (if st.body then SteadyBody(st.chunkLen, d) else Steady(d))
     && (st.decapitate > 0 ==> st.need == 0)
     && (st.need > 0 ==> Waits(st, d)))
  }

  predicate Waits(st: St, d: seq<byte>) {
    if st.body then st.need == st.chunkLen + 2 - |st.buf|
    else st.need == 1 && (LineOf(st.buf).Incomplete? || Decode(d) == NOTHING)
  }

  /** No result and no more bytes only when nothing is left. */
  ghost predicate Exhausts(o: Out)
    requires Wf(o.st)
  {
    Firm(o.st, o.pending) && (o.result.None? && o.pending == [] ==> Rest(o.st, o.pending) == NOTHING)
  }

  lemma {:induction false} LoopExhausts(st: St, pending: seq<byte>, stale: seq<byte>, got: seq<Feed>)
    requires Wf(st) && st.decapitate == 0 && !st.complete && Firm(st, pending)
    ensures Exhausts(Loop(st, pending, stale, got))
    decreases |pending|, if st.need > 0 || st.buf == [] then 0 else 4
  {
    hide Decode, DecodeBody, LineOf, Exhausts, Steady, SteadyBody, Rest, Firm, Waits;
    if st.need > 0 || st.buf == [] {
      var k := if got == [] then 0 else Min(got[0].n, |pending|);
      if k == 0 {
        Starved(st, pending);
      } else {
        var u := Received(st, pending[..k]);
        ReceivedFirm(st, pending, k);
        if k >= st.need {
          ParseExhausts(u, pending[k..], got[0].stale, got[1..]);
        } else {
          LoopExhausts(u, pending[k..], got[0].stale, got[1..]);
        }
      }
    } else {
      ParseExhausts(st, pending, stale, got);
    }
  }

  lemma Starved(st: St, pending: seq<byte>)
    requires Wf(st) && st.decapitate == 0 && !st.complete && Firm(st, pending) && (st.need > 0 || st.buf == [])
    ensures Exhausts(Out(None, st, pending))
  {
    if pending == [] {
      assert st.buf[0..] + pending == st.buf;
      hide Steady, SteadyBody;
    }
  }

  lemma ReceivedFirm(st: St, pending: seq<byte>, k: nat)
    requires Wf(st) && st.decapitate == 0 && !st.complete && Firm(st, pending) && 0 < k <= |pending|
    ensures Firm(Received(st, pending[..k]), pending[k..])
  {
    hide Decode, DecodeBody, LineOf, Steady, SteadyBody;
    assert st.buf[0..] + pending == (st.buf + pending[..k])[0..] + pending[k..];
  }

  lemma {:induction false} ParseExhausts(st: St, pending: seq<byte>, stale: seq<byte>, got: seq<Feed>)
    requires Wf(st) && st.need == 0 && st.decapitate == 0 && !st.complete && Firm(st, pending)
    ensures Exhausts(Parse(st, pending, stale, got))
    decreases |pending|, 3
  {
    hide DecodeBody, Decode, Steady, SteadyBody, Exhausts, Firm, Rest, Waits, LineOf;
    if st.body {
      FirmBody(st, pending);
      BodyExhausts(st, pending, got);
    } else {
      FirmNotEmpty(st, pending);
      match LineOf(st.buf)
      case Incomplete =>
        IncompleteFirm(st, pending);
        LoopExhausts(st.(need := 1, chunkLen := -2), pending, stale, got);
      case Bad => BadExhausts(st, pending);
      case Size(n, used) =>
        var u := st.(buf := st.buf[used..], chunkLen := Signed(n));
        SizeFirm(st, pending);
        if Signed(n) == -2 {
          LoopExhausts(u.(need := 1), pending, [], got);
        } else if Signed(n) < 0 {
        } else if n == 0 {
          CompleteExhausts(u.(complete := true), pending);
        } else {
          BodyExhausts(u, pending, got);
        }
    }
  }

  lemma CompleteExhausts(st: St, pending: seq<byte>)
    requires Wf(st) && st.complete
    ensures Exhausts(Out(Some([]), st, pending))
  {
  }

  lemma FirmBody(st: St, pending: seq<byte>)
    requires Wf(st) && st.body && !st.complete && Firm(st, pending)
    ensures SteadyBody(st.chunkLen, st.buf + pending)
  {
    hide SteadyBody;
    assert st.buf[0..] == st.buf;
  }

  lemma FirmNotEmpty(st: St, pending: seq<byte>)
    requires Wf(st) && !st.body && !st.complete && st.decapitate == 0 && Firm(st, pending)
    ensures !LineOf(st.buf).Empty?
  {
    hide LineOf;
    assert st.buf[0..] == st.buf;
    if LineOf(st.buf).Empty? { LineStable(st.buf, pending); }
  }

  lemma IncompleteFirm(st: St, pending: seq<byte>)
    requires Wf(st) && !st.body && st.decapitate == 0 && Firm(st, pending) && LineOf(st.buf).Incomplete?
    ensures Firm(st.(need := 1, chunkLen := -2), pending)
  {
    hide Steady, Decode, LineOf;
  }

  lemma BadExhausts(st: St, pending: seq<byte>)
    requires Wf(st) && !st.body && !st.complete && st.decapitate == 0 && st.need == 0 && Firm(st, pending) && LineOf(st.buf).Bad?
    ensures Exhausts(Out(None, st.(chunkLen := -1), pending))
  {
    LineStable(st.buf, pending);
    assert st.buf[0..] == st.buf;
    hide Steady, SteadyBody, LineOf;
  }

  /** After a size line: a dropped one leaves nothing to read, the chunk of another is followed by a steady stream. */
  lemma SizeFirm(st: St, pending: seq<byte>)
    requires Wf(st) && !st.body && !st.complete && st.decapitate == 0 && st.need == 0 && Firm(st, pending) && LineOf(st.buf).Size?
    ensures var n, u := LineOf(st.buf).n, st.(buf := st.buf[LineOf(st.buf).used..], chunkLen := Signed(LineOf(st.buf).n));
            ((Signed(n) < 0 ==> Firm(u.(need := 1), pending) && Exhausts(Out(None, u, pending))) &&
             (Signed(n) > 0 ==> SteadyBody(n, u.buf + pending)))
  {
    var n, used := LineOf(st.buf).n, LineOf(st.buf).used;
    var u := st.(buf := st.buf[used..], chunkLen := Signed(n));
    LineStable(st.buf, pending);
    Split(st.buf, pending, used);
    assert st.buf[0..] == st.buf && u.buf[0..] == u.buf;
    assert Steady(st.buf + pending);
    hide SteadyBody, LineOf, Decode;
    if Signed(n) < 0 {
      assert Decode(u.buf + pending) == NOTHING;
      NothingSteady(u.buf + pending);
    }
  }

  lemma {:induction false} BodyExhausts(st: St, pending: seq<byte>, got: seq<Feed>)
    requires st.chunkLen > 0 && st.need == 0 && st.decapitate == 0 && !st.complete && SteadyBody(st.chunkLen, st.buf + pending)
    ensures Exhausts(Body(st, pending, got))
    decreases |pending|, 1
  {
    var n := st.chunkLen;
    assert st.buf[0..] == st.buf;
    hide Decode, LineOf, Rest, Steady;
    if n + 2 > |st.buf| {
      hide SteadyBody, Exhausts;
      LoopExhausts(st.(need := n + 2 - |st.buf|, body := true), pending, [], got);
    } else {
      Split(st.buf, pending, n + 2);
    }
  }

  lemma ReadExhausts(st: St, pending: seq<byte>, call: Call)
    requires Wf(st) && Firm(st, pending)
    ensures Exhausts(Read(st, pending, call))
  {
    hide Steady, SteadyBody, Decode, DecodeBody, LineOf, Loop;
    if !st.complete {
      var u := st.(buf := st.buf[st.decapitate..], decapitate := 0);
      assert u.buf[0..] == u.buf;
      LoopExhausts(u, pending, call.stale, call.got);
    }
  }

  lemma {:induction false} SteadyOrderly(d: seq<byte>)
    requires Steady(d)
    ensures Orderly(d, 0)
    decreases |d|
  {
    if LineOf(d).Size? {
      var n, rest := LineOf(d).n, d[LineOf(d).used..];
      hide LineOf, Decode;
      if n != 0 && Signed(n) < 0 {
        NothingSteady(rest);
        SteadyOrderly(rest);
      } else if n != 0 && |rest| >= n + 2 {
        assert SteadyBody(n, rest);
        SteadyOrderly(rest[n + 2..]);
      }
    }
  }

  lemma {:induction false} FewerOrderly(d: seq<byte>, k: nat, m: nat)
    requires Orderly(d, k) && k <= m
    ensures Orderly(d, m)
    decreases |d|
  {
    if LineOf(d).Size? {
      var n, rest := LineOf(d).n, d[LineOf(d).used..];
      hide LineOf;
      if n != 0 && Signed(n) < 0 {
        FewerOrderly(rest, k, m);
      } else if n != 0 && |rest| >= n + 2 {
        assert OrderlyBody(n, rest, k);
        FewerOrderly(rest[n + 2..], k, m);
      }
    }
  }

  lemma FirmOrderly(st: St, pending: seq<byte>)
    requires Wf(st) && Firm(st, pending)
    ensures InOrderFrom(st, pending, 0)
  {
    var d := st.buf[st.decapitate..] + pending;
    if !st.complete {
      if st.body {
        if |d| >= st.chunkLen + 2 { SteadyOrderly(d[st.chunkLen + 2..]); }
      } else {
        SteadyOrderly(d);
      }
    }
    hide Decode, LineOf;
  }

  /** Once every byte of a steady stream has arrived, a read without a result means that every chunk has been delivered. */
  lemma AllDelivered(stream: seq<byte>, calls: seq<Call>)
    requires Steady(stream) && RanDry(START, stream, calls)
    ensures Reads(START, stream, calls).results == Decode(stream).chunks && !Decode(stream).ended
  {
    assert START.buf[0..] + stream == stream;
    assert Firm(START, stream) by { hide Steady; }
    hide Steady, Decode, Read;
    DeliveredSoFar(START, stream, calls);
  }

  lemma {:induction false} DeliveredSoFar(st: St, pending: seq<byte>, calls: seq<Call>)
    requires Wf(st) && Firm(st, pending) && RanDry(st, pending, calls)
    ensures Decoded(Reads(st, pending, calls).results, false) == Rest(st, pending)
    decreases |calls|
  {
    hide Firm, Rest, Read, InOrderFrom;
    var o := Read(st, pending, calls[0]);
    FirmOrderly(st, pending);
    ReadDelivers(st, pending, calls[0], 0);
    ReadExhausts(st, pending, calls[0]);
    if |calls| > 1 {
      DeliveredSoFar(o.st, o.pending, calls[1..]);
      if o.result == Some([]) { CompleteRest(o.st, o.pending); }
    } else {
      assert calls[1..] == [];
    }
  }

  lemma CompleteRest(st: St, pending: seq<byte>)
    requires Wf(st) && st.complete
    ensures Rest(st, pending).ended
  {
  }

  // ---- where it fails --------------------------------------------------------------------------------

  /** Nothing is in the buffer and a size line is due. */
  predicate Fresh(st: St) {
    !st.complete && !st.body && st.need <= 1 && st.decapitate == |st.buf| && (st.decapitate > 0 ==> st.need == 0)
  }

  lemma {:induction false} StopPrefix(d: seq<byte>, i: nat, m: nat)
    requires i <= m <= |d| && Stop(d, i) < m
    ensures Stop(d[..m], i) == Stop(d, i)
    decreases m - i
  {
    if IsAlnum(d[i]) { StopPrefix(d, i + 1, m); }
  }

  predicate LineIs(d: seq<byte>, m: nat) {
    match LineOf(d)
    case Incomplete => false
    case Bad => false
    case Empty => m == 2
    case Size(_, used) => m == used
  }

  /** A size line alone. */
  lemma LineAlone(d: seq<byte>, m: nat)
    requires LineIs(d, m)
    ensures m <= |d| && LineOf(d[..m]) == LineOf(d)
  {
    StopPrefix(d, 0, m);
    assert d[..m][..Stop(d, 0)] == d[..Stop(d, 0)];
  }

  /** The first receive brings exactly the size line. */
  lemma LineFirst(st: St, d: seq<byte>, m: nat, x: seq<byte>, more: seq<Feed>)
    requires Fresh(st) && LineIs(d, m)
    ensures m <= |d|
    ensures var u := st.(buf := [], decapitate := 0, need := 0);
            Read(st, d, Call([], [Feed(m, x)] + more)) ==
            Sized(u, d[m..], more, if LineOf(d).Empty? then Strtoul([CR, LF] + x) else LineOf(d).n)
  {
    LineAlone(d, m);
    ReceivesFirst(st, d, m, x, more);
    hide LineOf, Strtoul, Sized, Read;
    var w := st.(buf := d[..m], decapitate := 0, need := 0);
    assert w.buf[m..] == [];
    if LineOf(d).Empty? { EmptyIs(d); }
  }

  lemma ReceivesFirst(st: St, d: seq<byte>, m: nat, x: seq<byte>, more: seq<Feed>)
    requires Fresh(st) && 2 <= m <= |d|
    ensures Read(st, d, Call([], [Feed(m, x)] + more)) == Parse(st.(buf := d[..m], decapitate := 0, need := 0), d[m..], x, more)
  {
    hide Parse;
    var v := st.(buf := [], decapitate := 0);
    var got := [Feed(m, x)] + more;
    assert st.buf[st.decapitate..] == [] && got[1..] == more && [] + d[..m] == d[..m];
    assert Read(st, d, Call([], got)) == Loop(v, d, [], got);
  }

  lemma EmptyIs(d: seq<byte>)
    requires LineOf(d).Empty?
    ensures d[..2] == [CR, LF]
  {
  }

  /** A chunk, received apart from its size line. */
  lemma ChunkNext(st: St, d: seq<byte>, n: nat, x: seq<byte>)
    requires Fresh(st) && st.buf == [] && st.need == 0 && 0 < n < TWO_63 && n + 2 <= |d|
    ensures var o := Sized(st, d, [Feed(n + 2, x)], n);
            o.result == Some(d[..n]) && o.pending == d[n + 2..] && Fresh(o.st)
  {
    var u := st.(chunkLen := n);
    var v := u.(need := n + 2, body := true);
    var w := Received(v, d[..n + 2]);
    assert [] + d[..n + 2] == d[..n + 2] && d[..n + 2][..n] == d[..n];
    assert [Feed(n + 2, x)][1..] == [];
    assert Sized(st, d, [Feed(n + 2, x)], n) == Body(u, d, [Feed(n + 2, x)]);
    assert Body(u, d, [Feed(n + 2, x)]) == Loop(v, d, [], [Feed(n + 2, x)]);
    assert Loop(v, d, [], [Feed(n + 2, x)]) == Parse(w, d[n + 2..], x, []);
    assert Parse(w, d[n + 2..], x, []) == Body(w, d[n + 2..], []);
  }

  /** A dropped size line, received alone. */
  lemma LineDropped(st: St, d: seq<byte>)
    requires Fresh(st) && LineOf(d).Size? && Signed(LineOf(d).n) < 0
    ensures var o := Read(st, d, Call([], [Feed(LineOf(d).used, [])]));
            o.result.None? && o.pending == d[LineOf(d).used..] && Fresh(o.st)
  {
    hide LineOf;
    var n, rest := LineOf(d).n, d[LineOf(d).used..];
    LineFirst(st, d, LineOf(d).used, [], []);
    assert [Feed(LineOf(d).used, [])] + [] == [Feed(LineOf(d).used, [])];
    hide Read;
    var u := st.(buf := [], decapitate := 0, need := 0, chunkLen := Signed(n));
    if Signed(n) == -2 { assert Loop(u.(need := 1), rest, [], []) == Out(None, u.(need := 1), rest); }
  }

  /** A size line and its chunk, each received alone. */
  lemma WholeChunk(st: St, d: seq<byte>) returns (call: Call)
    requires Fresh(st) && LineOf(d).Size? && Signed(LineOf(d).n) > 0 && |d| - LineOf(d).used >= LineOf(d).n + 2
    ensures var o, rest := Read(st, d, call), d[LineOf(d).used..];
            o.result == Some(rest[..LineOf(d).n]) && o.pending == rest[LineOf(d).n + 2..] && Fresh(o.st)
  {
    hide LineOf, Sized;
    var n, used := LineOf(d).n, LineOf(d).used;
    call := Call([], [Feed(used, [])] + [Feed(n + 2, [])]);
    LineFirst(st, d, used, [], [Feed(n + 2, [])]);
    hide Read;
    ChunkNext(st.(buf := [], decapitate := 0, need := 0), d[used..], n, []);
  }

  lemma SkipsCrLf(x: seq<byte>)
    ensures SkipSpace([CR, LF] + x) == SkipSpace(x)
  {
    var s := [CR, LF] + x;
    assert s[1..] == [LF] + x && ([LF] + x)[1..] == x;
  }

  /** An empty size line with nothing behind it is the end mark. */
  lemma EmptyEnds(st: St, d: seq<byte>)
    requires Fresh(st) && LineOf(d).Empty?
    ensures Read(st, d, Call([], [Feed(2, [])])).result == Some([])
  {
    hide LineOf;
    LineFirst(st, d, 2, [], []);
    assert [Feed(2, [])] + [] == [Feed(2, [])] && [CR, LF] + [] == [CR, LF];
    hide Read;
    SkipsCrLf([]);
  }

  lemma EndsHere(st: St, d: seq<byte>)
    requires Fresh(st) && LineOf(d).Size? && LineOf(d).n == 0
    ensures Read(st, d, Call([], [Feed(LineOf(d).used, [])])).result == Some([])
  {
    hide LineOf;
    LineFirst(st, d, LineOf(d).used, [], []);
    assert [Feed(LineOf(d).used, [])] + [] == [Feed(LineOf(d).used, [])];
    hide Read;
  }

  /** With a digit 1 left in memory behind it, the same line announces a chunk of one byte. */
  lemma EmptyAnnounces(st: St, d: seq<byte>, m: nat)
    requires Fresh(st) && LineOf(d).Empty?
    ensures var u := st.(buf := [], decapitate := 0, need := 0);
            Read(st, d, Call([], [Feed(2, [49])] + [Feed(m, [])])) == Sized(u, d[2..], [Feed(m, [])], 1)
  {
    hide LineOf, Sized;
    LineFirst(st, d, 2, [49], [Feed(m, [])]);
    hide Read;
    SkipsCrLf([49]);
    assert [49][1..] == [] && Number([49], 0) == Number([], 1);
  }

  /** An empty size line with three bytes behind it: two ways of feeding the stream that differ. */
  lemma {:induction false} Disagree(st: St, d: seq<byte>) returns (calls: seq<Call>, others: seq<Call>, i: nat)
    requires Fresh(st) && !Orderly(d, 3)
    ensures i < |Reads(st, d, calls).results| && i < |Reads(st, d, others).results|
    ensures Reads(st, d, calls).results[i] != Reads(st, d, others).results[i]
    decreases |d|
  {
    hide LineOf, Read;
    var call;
    if LineOf(d).Empty? {
      EmptyEnds(st, d);
      EmptyAnnounces(st, d, 3);
      ChunkNext(st.(buf := [], decapitate := 0, need := 0), d[2..], 1, []);
      calls, others, i := [Call([], [Feed(2, [])])], [Call([], [Feed(2, [49])] + [Feed(3, [])])], 0;
      return;
    }
    var n, rest := LineOf(d).n, d[LineOf(d).used..];
    if Signed(n) < 0 {
      LineDropped(st, d);
      call := Call([], [Feed(LineOf(d).used, [])]);
      calls, others, i := Disagree(Read(st, d, call).st, rest);
    } else {
      assert !OrderlyBody(n, rest, 3);
      call := WholeChunk(st, d);
      calls, others, i := Disagree(Read(st, d, call).st, rest[n + 2..]);
      i := i + 1;
    }
    assert ([call] + calls)[1..] == calls && ([call] + others)[1..] == others;
    calls, others := [call] + calls, [call] + others;
  }

  /** Some way of feeding a stream that means something gets a result. */
  lemma {:induction false} Reach(st: St, d: seq<byte>) returns (calls: seq<Call>)
    requires Fresh(st) && Decode(d) != NOTHING
    ensures |Reads(st, d, calls).results| > 0
    decreases |d|
  {
    hide LineOf, Read;
    if LineOf(d).Empty? {
      EmptyEnds(st, d);
      calls := [Call([], [Feed(2, [])])];
    } else if LineOf(d).n == 0 {
      EndsHere(st, d);
      calls := [Call([], [Feed(LineOf(d).used, [])])];
    } else if Signed(LineOf(d).n) < 0 {
      var call := Call([], [Feed(LineOf(d).used, [])]);
      LineDropped(st, d);
      var more := Reach(Read(st, d, call).st, d[LineOf(d).used..]);
      calls := [call] + more;
      assert calls[1..] == more;
    } else {
      BodyNothing(LineOf(d).n, d[LineOf(d).used..]);
      var call := WholeChunk(st, d);
      calls := [call];
    }
  }

  /** Everything received at once: a dropped line leaves the reader dry. */
  lemma DropsDry(st: St, d: seq<byte>)
    requires Fresh(st) && LineOf(d).Size? && Signed(LineOf(d).n) < 0
    ensures var o := Read(st, d, Call([], [Feed(|d|, [])])); o.result.None? && o.pending == []
  {
    var n, used := LineOf(d).n, LineOf(d).used;
    var v := st.(buf := [], decapitate := 0);
    var w := Received(v, d[..|d|]);
    assert st.buf[st.decapitate..] == [] && [] + d[..|d|] == d && d[|d|..] == [] && [Feed(|d|, [])][1..] == [];
    hide LineOf;
    assert Read(st, d, Call([], [Feed(|d|, [])])) == Loop(v, d, [], [Feed(|d|, [])]);
    assert Loop(v, d, [], [Feed(|d|, [])]) == Parse(w, [], [], []);
    assert Parse(w, [], [], []) == Sized(w.(buf := w.buf[used..]), [], [], n);
    if Signed(n) == -2 {
      var u := w.(buf := w.buf[used..], chunkLen := -2, need := 1);
      assert Loop(u, [], [], []) == Out(None, u, []);
    }
  }

  /** The announced byte and the two after it never come. */
  lemma AnnouncedDry(st: St, d: seq<byte>)
    requires Fresh(st) && st.buf == [] && st.need == 0 && |d| < 3
    ensures var o := Sized(st, d, [Feed(|d|, [])], 1); o.result.None? && o.pending == []
  {
    var u, got := st.(chunkLen := 1), [Feed(|d|, [])];
    var v := u.(need := 3, body := true);
    assert Sized(st, d, got, 1) == Body(u, d, got) && Body(u, d, got) == Loop(v, d, [], got);
    if d != [] {
      var w := Received(v, d[..|d|]);
      assert Loop(v, d, [], got) == Loop(w, d[|d|..], [], got[1..]);
    }
  }

  /** A stream that is not steady: one way of feeding it runs dry while another gets further. */
  lemma {:induction false} Behind(st: St, d: seq<byte>) returns (calls: seq<Call>, others: seq<Call>)
    requires Fresh(st) && !Steady(d) && Orderly(d, 3)
    ensures RanDry(st, d, calls) && |Reads(st, d, others).results| > |Reads(st, d, calls).results|
    decreases |d|
  {
    hide LineOf, Read, Decode;
    if LineOf(d).Empty? {
      EmptyEnds(st, d);
      EmptyAnnounces(st, d, |d| - 2);
      AnnouncedDry(st.(buf := [], decapitate := 0, need := 0), d[2..]);
      calls, others := [Call([], [Feed(2, [49])] + [Feed(|d| - 2, [])])], [Call([], [Feed(2, [])])];
      return;
    }
    var n, rest := LineOf(d).n, d[LineOf(d).used..];
    if Signed(n) < 0 {
      DropsDry(st, d);
      LineDropped(st, d);
      var call := Call([], [Feed(LineOf(d).used, [])]);
      var more := Reach(Read(st, d, call).st, rest);
      calls, others := [Call([], [Feed(|d|, [])])], [call] + more;
      assert others[1..] == more;
    } else {
      assert !SteadyBody(n, rest) && OrderlyBody(n, rest, 3);
      var call := WholeChunk(st, d);
      calls, others := Behind(Read(st, d, call).st, rest[n + 2..]);
      assert ([call] + calls)[1..] == calls && ([call] + others)[1..] == others;
      calls, others := [call] + calls, [call] + others;
    }
  }

  /** The exact condition for all ways of feeding a stream to agree, whatever lies in memory: where a size line is due
      there is no empty one with three bytes behind it, the least that could be taken for a chunk. */
  lemma AgreeIffOrderly(stream: seq<byte>)
    ensures Agree(stream) <==> Orderly(stream, 3)
  {
    hide Orderly, Reads;
    if Orderly(stream, 3) {
      forall calls, others, i | 0 <= i < |Reads(START, stream, calls).results| && i < |Reads(START, stream, others).results|
        ensures Reads(START, stream, calls).results[i] == Reads(START, stream, others).results[i]
      {
        SplitIndependent(stream, calls, others, i);
      }
    } else {
      var calls, others, i := Disagree(START, stream);
      assert !(Reads(START, stream, calls).results[i] == Reads(START, stream, others).results[i]);
    }
  }

  /** The exact condition for the reader's whole promise - all ways of feeding a stream agree, and one that has run dry
      has everything any other gets: no empty size line stands where one is due, and nothing readable follows a
      size line of 2^63 or more. */
  lemma ReliableIffSteady(stream: seq<byte>)
    ensures Agree(stream) && NeverBehind(stream) <==> Steady(stream)
  {
    hide Orderly, Reads, Steady, Agree;
    AgreeIffOrderly(stream);
    if Steady(stream) {
      SteadyOrderly(stream);
      FewerOrderly(stream, 0, 3);
      forall calls, others | RanDry(START, stream, calls)
        ensures |Reads(START, stream, others).results| <= |Reads(START, stream, calls).results|
      {
        AllDelivered(stream, calls);
        ReadsInOrder(stream, others);
        NoFurther(Reads(START, stream, others).results, Decode(stream));
      }
    } else if Orderly(stream, 3) {
      var calls, others := Behind(START, stream);
      assert !NeverBehind(stream);
    }
  }

  lemma NoFurther(rs: seq<seq<byte>>, d: Decoded)
    requires InOrder(rs, d) && !d.ended
    ensures |rs| <= |d.chunks|
  {
    assert |rs| > |d.chunks| ==> InOrderAt(rs, d, |d.chunks|);
  }
}
