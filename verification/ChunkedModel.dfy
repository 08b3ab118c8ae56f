/** The chunked body reader (core/chunked.c) on values: size lines, the incremental reader, and what a whole
    stream decodes to, whatever the reads that deliver it. */
module ChunkedModel {

  import opened Basics

  const CR: byte := 13
  const LF: byte := 10
  const TWO_63 := 0x8000_0000_0000_0000
  const TWO_64 := 0x1_0000_0000_0000_0000

  // ---- size lines ------------------------------------------------------------------------------

  predicate IsAlnum(b: byte) {
    48 <= b <= 57 || 97 <= b <= 122 || 65 <= b <= 90
  }

  predicate IsHex(b: byte) {
    48 <= b <= 57 || 97 <= b <= 102 || 65 <= b <= 70
  }

  predicate IsSpace(b: byte) {
    b == 32 || 9 <= b <= 13
  }

  function Digit(b: byte): (v: nat)
    requires IsHex(b)
    ensures v < 16
  {
    if b <= 57 then b - 48 else if b >= 97 then b - 87 else b - 55
  }

  /** The number the leading hexadecimal digits of `s` write, after digits worth `acc`. */
  function Number(s: seq<byte>, acc: nat): nat
    decreases |s|
  {
    if s == [] || !IsHex(s[0]) then acc else Number(s[1..], acc * 16 + Digit(s[0]))
  }

  function Min(a: nat, b: nat): nat {
    if a < b then a else b
  }

  function SkipSpace(s: seq<byte>): seq<byte>
    decreases |s|
  {
    if s == [] || !IsSpace(s[0]) then s else SkipSpace(s[1..])
  }

  function SkipPrefix(s: seq<byte>): seq<byte> {
    if |s| >= 2 && s[0] == 48 && (s[1] == 120 || s[1] == 88) then s[2..] else s
  }

  /** strtoul in base 16: white space - CR and LF included - a sign and an 0x prefix are skipped; the value stops
      at 2^64 - 1, and a minus sign negates it modulo 2^64. */
  function Strtoul(s: seq<byte>): (n: nat)
    ensures n < TWO_64
  {
    var t := SkipSpace(s);
    var v := Number(SkipPrefix(if t != [] && (t[0] == 45 || t[0] == 43) then t[1..] else t), 0);
    if v >= TWO_64 then TWO_64 - 1 else if v > 0 && t[0] == 45 then TWO_64 - v else v
  }

  /** The first position from `i` on that is no letter or digit. */
  function Stop(d: seq<byte>, i: nat): (e: nat)
    requires i <= |d|
    ensures i <= e <= |d| && (forall k :: i <= k < e ==> IsAlnum(d[k])) && (e < |d| ==> !IsAlnum(d[e]))
    decreases |d| - i
  {
    if i == |d| || !IsAlnum(d[i]) then i else Stop(d, i + 1)
  }

  datatype Line = Incomplete | Bad | Empty | Size(n: nat, used: nat)

  /** The size line at the start of `d`.  An empty one has no number of its own: strtoul passes over it and takes
      one from whatever lies behind. */
  function LineOf(d: seq<byte>): (l: Line)
    ensures l.Size? ==> 3 <= l.used <= |d| && l.n < TWO_64
    ensures l.Empty? ==> |d| >= 2
  {
    var e := Stop(d, 0);
    if e == |d| then Incomplete
    else if d[e] != CR then Bad
    else if e + 1 == |d| then Incomplete
    else if d[e + 1] != LF then Bad
    else if e == 0 then Empty
    else Size(Strtoul(d[..e]), e + 2)
  }

  lemma {:induction false} NumberStops(s: seq<byte>, t: seq<byte>, acc: nat)
    requires t != [] && !IsHex(t[0])
    ensures Number(s + t, acc) == Number(s, acc)
    decreases |s|
  {
    if s == [] {
      assert s + t == t;
    } else if IsHex(s[0]) {
      assert (s + t)[1..] == s[1..] + t;
      NumberStops(s[1..], t, acc * 16 + Digit(s[0]));
    }
  }

  /** strtoul gets the whole buffer and what lies behind it; on a size line that is not empty it stops at the CR. */
  lemma StrtoulStops(d: seq<byte>, behind: seq<byte>)
    requires LineOf(d).Size?
    ensures Strtoul(d + behind) == LineOf(d).n
  {
    var e := Stop(d, 0);
    var s, t := d[..e], d[e..] + behind;
    assert d + behind == s + t;
    if |s| >= 2 && s[0] == 48 && (s[1] == 120 || s[1] == 88) {
      assert (s + t)[2..] == s[2..] + t;
      NumberStops(s[2..], t, 0);
    } else {
      NumberStops(s, t, 0);
    }
    hide Number;
  }

  /** A 64-bit number as a signed one. */
  function Signed(n: nat): int {
    if n < TWO_63 then n else n - TWO_64
  }

  // ---- what a whole stream means ------------------------------------------------------------------

  /** The chunks of a stream, and whether its end mark follows. */
  datatype Decoded = Decoded(chunks: seq<seq<byte>>, ended: bool)

  const NOTHING := Decoded([], false)

  function Cons(c: seq<byte>, d: Decoded): Decoded {
    Decoded([c] + d.chunks, d.ended)
  }

  /** Decoding a whole stream.  A size line of 2^63 or more is dropped, as the code does: it is negative there.
      An empty size line is taken for the end mark, which is what the code takes it for when nothing follows it yet. */
  function Decode(d: seq<byte>): Decoded
    decreases |d|
  {
    match LineOf(d)
    case Incomplete => NOTHING
    case Bad => NOTHING
    case Empty => Decoded([], true)
    case Size(n, used) =>
      if n == 0 then Decoded([], true)
      else if Signed(n) < 0 then Decode(d[used..])
      else DecodeBody(n, d[used..])
  }

  /** The same from inside a chunk of `n` bytes, which two more follow. */
  function DecodeBody(n: nat, d: seq<byte>): Decoded
    decreases |d|
  {
    if |d| < n + 2 then NOTHING else Cons(d[..n], Decode(d[n + 2..]))
  }

  /** Where a size line is due stands no empty one with `k` or more bytes behind it; with `k` = 0, none at all. */
  ghost predicate Orderly(d: seq<byte>, k: nat)
    decreases |d|
  {
    match LineOf(d)
    case Incomplete => true
    case Bad => true
    case Empty => |d| - 2 < k
    case Size(n, used) =>
      if n == 0 then true
      else if Signed(n) < 0 then Orderly(d[used..], k)
      else OrderlyBody(n, d[used..], k)
  }

  ghost predicate OrderlyBody(n: nat, d: seq<byte>, k: nat)
    decreases |d|
  {
    |d| >= n + 2 ==> Orderly(d[n + 2..], k)
  }

  /** No empty size line, and nothing to read after a dropped one. */
  ghost predicate Steady(d: seq<byte>)
    decreases |d|
  {
    match LineOf(d)
    case Incomplete => true
    case Bad => true
    case Empty => false
    case Size(n, used) =>
      if n == 0 then true
      else if Signed(n) < 0 then Decode(d[used..]) == NOTHING
      else SteadyBody(n, d[used..])
  }

  ghost predicate SteadyBody(n: nat, d: seq<byte>)
    decreases |d|
  {
    |d| >= n + 2 ==> Steady(d[n + 2..])
  }

  // ---- the reader -----------------------------------------------------------------------------------

  /** The buffer and the fields of the request that a read keeps for the next one. */
  datatype St = St(buf: seq<byte>, need: nat, body: bool, chunkLen: int, complete: bool, decapitate: nat)

  const START := St([], 0, false, 0, false, 0)

  datatype Out = Out(result: Option<seq<byte>>, st: St, pending: seq<byte>)

  /** A receive: how many bytes it takes, and what then lies in memory behind them. */
  datatype Feed = Feed(n: nat, stale: seq<byte>)

  /** What a read meets: the memory behind the buffer's contents, and its receives.  A receive of 0 bytes, or none
      left, is one that would block, times out or fails. */
  datatype Call = Call(stale: seq<byte>, got: seq<Feed>)

  /** Between reads: nothing larger than the buffer is to be dropped, and inside a chunk its length is known. */
  predicate Wf(st: St) {
    st.decapitate <= |st.buf| && (st.body ==> st.chunkLen > 0 && st.decapitate == 0)
  }

  /** One read.  `pending` is what the peer has still to deliver. */
  function Read(st: St, pending: seq<byte>, call: Call): (o: Out)
    requires Wf(st)
    ensures Wf(o.st)
  {
    if st.complete then Out(Some([]), st, pending)
    else Loop(st.(buf := st.buf[st.decapitate..], decapitate := 0), pending, call.stale, call.got)
  }

  function Received(st: St, d: seq<byte>): St {
    st.(buf := st.buf + d, need := if |d| > st.need then 0 else st.need - |d|)
  }

  function Loop(st: St, pending: seq<byte>, stale: seq<byte>, got: seq<Feed>): (o: Out)
    requires Wf(st) && st.decapitate == 0
    ensures Wf(o.st)
    decreases |pending|, if st.need > 0 || st.buf == [] then 0 else 4
  {
    if st.need > 0 || st.buf == [] then
      var k := if got == [] then 0 else Min(got[0].n, |pending|);
      if k == 0 then Out(None, st, pending)
      else if k >= st.need then Parse(Received(st, pending[..k]), pending[k..], got[0].stale, got[1..])
      else Loop(Received(st, pending[..k]), pending[k..], got[0].stale, got[1..])
    else Parse(st, pending, stale, got)
  }

  function Parse(st: St, pending: seq<byte>, stale: seq<byte>, got: seq<Feed>): (o: Out)
    requires Wf(st) && st.need == 0 && st.decapitate == 0
    ensures Wf(o.st)
    decreases |pending|, 3
  {
    if st.body then Body(st, pending, got)
    else
      match LineOf(st.buf)
      case Incomplete => Loop(st.(need := 1, chunkLen := -2), pending, stale, got)
      case Bad => Out(None, st.(chunkLen := -1), pending)
      case Empty => Sized(st.(buf := st.buf[2..]), pending, got, Strtoul(st.buf + stale))
      case Size(n, used) => Sized(st.(buf := st.buf[used..]), pending, got, n)
  }

  /** The size line has been dropped from the buffer and its number is `n`. */
  function Sized(st: St, pending: seq<byte>, got: seq<Feed>, n: nat): (o: Out)
    requires Wf(st) && st.need == 0 && st.decapitate == 0 && !st.body && n < TWO_64
    ensures Wf(o.st)
    decreases |pending|, 2
  {
    var u := st.(chunkLen := Signed(n));
    if Signed(n) == -2 then Loop(u.(need := 1), pending, [], got)
    else if Signed(n) < 0 then Out(None, u, pending)
    else if n == 0 then Out(Some([]), u.(complete := true), pending)
    else Body(u, pending, got)
  }

  /** The chunk, when the buffer holds it and the two bytes after it. */
  function Body(st: St, pending: seq<byte>, got: seq<Feed>): (o: Out)
    requires st.chunkLen > 0 && st.need == 0 && st.decapitate == 0
    ensures Wf(o.st)
    decreases |pending|, 1
  {
    if st.chunkLen + 2 > |st.buf| then Loop(st.(need := st.chunkLen + 2 - |st.buf|, body := true), pending, [], got)
    else Out(Some(st.buf[..st.chunkLen]), st.(decapitate := st.chunkLen + 2, body := false), pending)
  }

  // ---- every read delivers the next part of what the stream means ---------------------------------

  /** What is still to be delivered. */
  function Rest(st: St, pending: seq<byte>): Decoded
    requires Wf(st)
  {
    var d := st.buf[st.decapitate..] + pending;
    if st.complete then Decoded([], true) else if st.body then DecodeBody(st.chunkLen, d) else Decode(d)
  }

  /** No empty size line with `k` or more bytes behind it is still to come. */
  ghost predicate InOrderFrom(st: St, pending: seq<byte>, k: nat)
    requires Wf(st)
  {
    var d := st.buf[st.decapitate..] + pending;
    st.complete || if st.body then OrderlyBody(st.chunkLen, d, k) else Orderly(d, k)
  }

  /** `before` is the result followed by what is still to be delivered; nothing after the end mark.  Where empty size
      lines are about (`k` > 0), an end mark may be lost. */
  ghost predicate Delivers(k: nat, before: Decoded, o: Out)
    requires Wf(o.st)
  {
    && InOrderFrom(o.st, o.pending, k)
    && match o.result
       case None => Rest(o.st, o.pending) == before || (k > 0 && Rest(o.st, o.pending) == NOTHING)
       case Some(c) =>
         if c == [] then before == Decoded([], true) && o.st.complete
         else before == Cons(c, Rest(o.st, o.pending))
  }

  lemma {:induction false} StopStable(d: seq<byte>, i: nat, more: seq<byte>)
    requires i <= |d| && Stop(d, i) < |d|
    ensures Stop(d + more, i) == Stop(d, i)
    decreases |d| - i
  {
    if IsAlnum(d[i]) { StopStable(d, i + 1, more); }
  }

  /** Bytes after a size line, or after a bad byte, do not change it. */
  lemma LineStable(d: seq<byte>, more: seq<byte>)
    requires !LineOf(d).Incomplete?
    ensures LineOf(d + more) == LineOf(d)
  {
    StopStable(d, 0, more);
    var e := Stop(d, 0);
    assert (d + more)[..e] == d[..e];
  }

  lemma Split(d: seq<byte>, more: seq<byte>, i: nat)
    requires i <= |d|
    ensures (d + more)[i..] == d[i..] + more && (d + more)[..i] == d[..i]
  {
  }

  /** In fewer than three bytes nothing can be read but an end mark. */
  lemma Short(d: seq<byte>)
    requires |d| < 3
    ensures Orderly(d, 3) && (Decode(d) == NOTHING || Decode(d) == Decoded([], true))
  {
  }

  lemma {:induction false} LoopDelivers(st: St, pending: seq<byte>, stale: seq<byte>, got: seq<Feed>, k: nat)
    requires Wf(st) && st.decapitate == 0 && !st.complete && k <= 3 && InOrderFrom(st, pending, k)
    ensures Delivers(k, Rest(st, pending), Loop(st, pending, stale, got))
    decreases |pending|, if st.need > 0 || st.buf == [] then 0 else 4
  {
    hide Decode, DecodeBody, LineOf, Delivers, InOrderFrom, Strtoul;
    if st.need > 0 || st.buf == [] {
      var n := if got == [] then 0 else Min(got[0].n, |pending|);
      if n == 0 {
        Blocked(st, pending, k);
      } else {
        var u := Received(st, pending[..n]);
        SameRest(st, pending, n, k);
        if n >= st.need {
          ParseDelivers(u, pending[n..], got[0].stale, got[1..], k);
        } else {
          LoopDelivers(u, pending[n..], got[0].stale, got[1..], k);
        }
      }
    } else {
      ParseDelivers(st, pending, stale, got, k);
    }
  }

  lemma Blocked(st: St, pending: seq<byte>, k: nat)
    requires Wf(st) && InOrderFrom(st, pending, k)
    ensures Delivers(k, Rest(st, pending), Out(None, st, pending))
  {
  }

  lemma SameRest(st: St, pending: seq<byte>, n: nat, k: nat)
    requires Wf(st) && st.decapitate == 0 && n <= |pending|
    ensures Rest(Received(st, pending[..n]), pending[n..]) == Rest(st, pending)
    ensures InOrderFrom(Received(st, pending[..n]), pending[n..], k) == InOrderFrom(st, pending, k)
  {
    hide Decode, DecodeBody, Orderly, OrderlyBody;
    assert st.buf[0..] + pending == (st.buf + pending[..n])[0..] + pending[n..];
  }

  lemma {:induction false} ParseDelivers(st: St, pending: seq<byte>, stale: seq<byte>, got: seq<Feed>, k: nat)
    requires Wf(st) && st.need == 0 && st.decapitate == 0 && !st.complete && k <= 3 && InOrderFrom(st, pending, k)
    ensures Delivers(k, Rest(st, pending), Parse(st, pending, stale, got))
    decreases |pending|, 3
  {
    hide DecodeBody, LineOf, Delivers, Decode, Orderly, OrderlyBody, Strtoul;
    assert st.buf[0..] == st.buf;
    if st.body {
      BodyDelivers(st, pending, got, k);
    } else {
      match LineOf(st.buf)
      case Incomplete => LoopDelivers(st.(need := 1, chunkLen := -2), pending, stale, got, k);
      case Bad => Blocked(st.(chunkLen := -1), pending, k);
      case Empty =>
        AfterEmpty(st, pending, k);
        EmptyDelivers(st.(buf := st.buf[2..]), pending, got, Strtoul(st.buf + stale), k);
      case Size(n, used) =>
        AfterSize(st, pending, k);
        SizedDelivers(st.(buf := st.buf[used..]), pending, got, n, k);
    }
  }

  /** What the number of a size line leaves to be delivered. */
  function AfterNumber(n: nat, d: seq<byte>): Decoded {
    if n == 0 then Decoded([], true) else if Signed(n) < 0 then Decode(d) else DecodeBody(n, d)
  }

  ghost predicate OrderlyAfter(n: nat, d: seq<byte>, k: nat) {
    n == 0 || if Signed(n) < 0 then Orderly(d, k) else OrderlyBody(n, d, k)
  }

  lemma AfterSize(st: St, pending: seq<byte>, k: nat)
    requires LineOf(st.buf).Size?
    ensures var n, d := LineOf(st.buf).n, st.buf[LineOf(st.buf).used..] + pending;
            Decode(st.buf + pending) == AfterNumber(n, d) && (Orderly(st.buf + pending, k) <==> OrderlyAfter(n, d, k))
  {
    hide DecodeBody, LineOf, OrderlyBody;
    LineStable(st.buf, pending);
    Split(st.buf, pending, LineOf(st.buf).used);
  }

  lemma AfterEmpty(st: St, pending: seq<byte>, k: nat)
    requires LineOf(st.buf).Empty?
    ensures Decode(st.buf + pending) == Decoded([], true)
    ensures Orderly(st.buf + pending, k) <==> |st.buf[2..] + pending| < k
  {
    hide LineOf;
    LineStable(st.buf, pending);
  }

  lemma {:induction false} SizedDelivers(st: St, pending: seq<byte>, got: seq<Feed>, n: nat, k: nat)
    requires Wf(st) && st.need == 0 && st.decapitate == 0 && !st.body && n < TWO_64 && !st.complete && k <= 3
    requires OrderlyAfter(n, st.buf + pending, k)
    ensures Delivers(k, AfterNumber(n, st.buf + pending), Sized(st, pending, got, n))
    decreases |pending|, 2, 0
  {
    hide DecodeBody, LineOf, Delivers, Decode, Orderly, OrderlyBody;
    var u := st.(chunkLen := Signed(n));
    assert u.buf[0..] == u.buf;
    if Signed(n) == -2 {
      LoopDelivers(u.(need := 1), pending, [], got, k);
    } else if Signed(n) < 0 {
      Blocked(u, pending, k);
    } else if n == 0 {
      EndDelivers(u, pending, k);
    } else {
      BodyDelivers(u, pending, got, k);
    }
  }

  /** Whatever number an empty size line gets: with less than three bytes behind it no chunk comes of it. */
  lemma {:induction false} EmptyDelivers(st: St, pending: seq<byte>, got: seq<Feed>, n: nat, k: nat)
    requires Wf(st) && st.need == 0 && st.decapitate == 0 && !st.body && n < TWO_64 && !st.complete
    requires |st.buf + pending| < k <= 3
    ensures Delivers(k, Decoded([], true), Sized(st, pending, got, n))
    decreases |pending|, 2, 1
  {
    Short(st.buf + pending);
    hide Sized, Decode;
    OrderlyShort(st.buf + pending, n, k);
    SizedDelivers(st, pending, got, n, k);
    Weaken(k, AfterNumber(n, st.buf + pending), Sized(st, pending, got, n));
  }

  lemma OrderlyShort(d: seq<byte>, n: nat, k: nat)
    requires |d| < k <= 3 && n < TWO_64
    ensures OrderlyAfter(n, d, k) && (AfterNumber(n, d) == NOTHING || AfterNumber(n, d) == Decoded([], true))
  {
    Short(d);
  }

  lemma Weaken(k: nat, before: Decoded, o: Out)
    requires Wf(o.st) && k > 0 && Delivers(k, before, o) && (before == NOTHING || before == Decoded([], true))
    ensures Delivers(k, Decoded([], true), o)
  {
    hide Rest, InOrderFrom;
    if o.result.Some? && o.result.value != [] { assert Cons(o.result.value, Rest(o.st, o.pending)).chunks != []; }
  }

  lemma EndDelivers(u: St, pending: seq<byte>, k: nat)
    requires Wf(u)
    ensures Delivers(k, Decoded([], true), Out(Some([]), u.(complete := true), pending))
  {
  }

  lemma {:induction false} BodyDelivers(st: St, pending: seq<byte>, got: seq<Feed>, k: nat)
    requires st.chunkLen > 0 && st.need == 0 && st.decapitate == 0 && !st.complete && k <= 3
    requires OrderlyBody(st.chunkLen, st.buf + pending, k)
    ensures Delivers(k, DecodeBody(st.chunkLen, st.buf + pending), Body(st, pending, got))
    decreases |pending|, 1
  {
    hide Decode, LineOf, Orderly;
    var n := st.chunkLen;
    assert st.buf[0..] == st.buf;
    if n + 2 > |st.buf| {
      hide Delivers, DecodeBody, OrderlyBody;
      LoopDelivers(st.(need := n + 2 - |st.buf|, body := true), pending, [], got, k);
    } else {
      Split(st.buf, pending, n);
      Split(st.buf, pending, n + 2);
    }
  }

  /** However a read is fed and whatever lies in memory: a chunk is the next one of the stream, an empty result is its
      end mark and stays, and no result changes nothing of what is to come - unless an empty size line is due (then,
      with fewer than three bytes behind it, only the end mark can be lost). */
  lemma ReadDelivers(st: St, pending: seq<byte>, call: Call, k: nat)
    requires Wf(st) && k <= 3 && InOrderFrom(st, pending, k)
    ensures Delivers(k, Rest(st, pending), Read(st, pending, call))
  {
    if !st.complete {
      hide Decode, DecodeBody, Loop, Delivers, Orderly, OrderlyBody;
      var u := st.(buf := st.buf[st.decapitate..], decapitate := 0);
      assert u.buf[0..] == u.buf;
      LoopDelivers(u, pending, call.stale, call.got, k);
    }
  }
}
