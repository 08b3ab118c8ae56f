/** The growable buffer (core/buffer.c, without a limit) and the chunked body reader over it (core/chunked.c). */
module ChunkedInput {

  import opened Basics
  import opened ChunkedModel
  import ChunkedCoding

  class Buffer {
    var data: array<byte>
    var pos: nat

    /** How often there was no memory. */
    ghost var refusals: nat

    ghost predicate Valid()
      reads this
    {
      pos <= data.Length
    }

    ghost function Contents(): seq<byte>
      requires Valid()
      reads this, data
    {
      data[..pos]
    }

    constructor (len: nat)
      ensures Valid() && Contents() == [] && fresh(data) && data.Length == len && refusals == 0
    {
      data := new byte[len];
      pos, refusals := 0, 0;
    }

    /** realloc: the bytes up to `pos` stay; it may fail. */
    method Grow(len: nat) returns (ok: bool)
      requires Valid() && data.Length <= len
      modifies this
      ensures Valid() && pos == old(pos) && Contents() == old(Contents())
      ensures if ok then data.Length == len && fresh(data) else data == old(data)
      ensures refusals == old(refusals) + if ok then 0 else 1
    {
      ok := *;
      if !ok {
        refusals := refusals + 1;
        return;
      }
      var bigger := new byte[len];
      for i := 0 to pos
        invariant i <= pos && unchanged(this) && unchanged(data)
        invariant bigger[..i] == data[..i]
      {
        bigger[i] := data[i];
      }
      data := bigger;
    }

    /** Room for `len` more bytes. */
    method Ensure(len: nat) returns (ok: bool)
      requires Valid()
      modifies this
      ensures Valid() && pos == old(pos) && Contents() == old(Contents())
      ensures ok ==> data.Length - pos >= len
      ensures refusals == old(refusals) + if ok then 0 else 1
      ensures data == old(data) || fresh(data)
    {
      var remains := data.Length - pos;
      ok := true;
      if remains < len {
        ok := Grow(data.Length + (len - remains));
      }
    }

    /** Drops the first `len` bytes; -1, and nothing changes, when there are fewer. */
    method Decapitate(len: nat) returns (r: int)
      requires Valid()
      modifies this`pos, data
      ensures Valid() && data == old(data)
      ensures r == if len > old(pos) then -1 else 0
      ensures Contents() == if len > old(pos) then old(Contents()) else old(Contents())[len..]
    {
      if len > pos { return -1; }
      ghost var was := data[..];
      for i := 0 to pos - len
        invariant i <= pos - len && unchanged(this)
        invariant data[..i] == was[len..len + i]
        invariant forall j :: i <= j < data.Length ==> data[j] == was[j]
      {
        data[i] := data[len + i];
      }
      pos := pos - len;
      assert data[..pos] == was[..pos + len][len..];
      return 0;
    }

    /** Appends bytes; -1, and nothing changes, when no room can be made. */
    method Append(bytes: seq<byte>, pageSize: nat) returns (r: int)
      requires Valid()
      modifies this, data
      ensures Valid() && r in {0, -1} && (data == old(data) || fresh(data))
      ensures Contents() == if r == 0 then old(Contents()) + bytes else old(Contents())
      ensures r == 0 <==> refusals == old(refusals)
    {
      var remains := data.Length - pos;
      if |bytes| > remains {
        var chunk := if |bytes| > pageSize then |bytes| else pageSize;
        var ok := Grow(data.Length + chunk);
        if !ok { return -1; }
      }
      ghost var was := data[..pos];
      for i := 0 to |bytes|
        invariant i <= |bytes| && pos == old(pos) && refusals == old(refusals) && pos + |bytes| <= data.Length && (data == old(data) || fresh(data))
        invariant data[..pos + i] == was + bytes[..i]
      {
        data[pos + i] := bytes[i];
      }
      pos := pos + |bytes|;
      return 0;
    }

    /** Appends the size line of a chunk of `len` bytes, as %X prints it as an unsigned int. */
    method AppendChunked(len: nat, pageSize: nat) returns (r: int)
      requires Valid()
      modifies this, data
      ensures Valid() && r in {0, -1} && (data == old(data) || fresh(data))
      ensures Contents() == if r == 0 then old(Contents()) + ChunkedCoding.Header(len) else old(Contents())
      ensures r == 0 <==> refusals == old(refusals)
    {
      r := Append(ChunkedCoding.Hex(len % ChunkedCoding.TWO_32) + [CR, LF], pageSize);
    }

    /** The size line at the start: -2 when it is not complete, -1 when it is none; otherwise it is dropped and its
        number returned as a signed one.  strtoul is given all of the memory: `stale` is what lies behind the contents,
        first the rest of the buffer and then anything. */
    method Readline() returns (r: int, ghost stale: seq<byte>)
      requires Valid()
      modifies this`pos, data
      ensures Valid() && data == old(data) && old(data[pos..]) <= stale
      ensures match LineOf(old(Contents()))
              case Incomplete => r == -2 && Contents() == old(Contents())
              case Bad => r == -1 && Contents() == old(Contents())
              case Empty => r == Signed(Strtoul(old(Contents()) + stale)) && Contents() == old(Contents())[2..]
              case Size(n, used) => r == Signed(n) && Contents() == old(Contents())[used..]
    {
      hide Strtoul;
      ghost var d := Contents();
      var beyond: seq<byte> := *;
      stale := data[pos..] + beyond;
      var found := false;
      for i := 0 to pos
        invariant i <= pos && unchanged(this) && unchanged(data) && d == data[..pos]
        invariant if found then 0 < i && Stop(d, 0) == i - 1 && d[i - 1] == CR else Stop(d, 0) == Stop(d, i)
      {
        if found {
          if data[i] == LF {
            var num := Strtoul(data[..] + beyond);
            assert data[..] + beyond == d + stale;
            if LineOf(d).Size? { StrtoulStops(d, stale); }
            var cut := Decapitate(i + 1);
            return Signed(num), stale;
          }
          return -1, stale;
        }
        if !IsAlnum(data[i]) {
          if data[i] == CR {
            found := true;
          } else {
            return -1, stale;
          }
        }
      }
      return -2, stale;
    }
  }

  /** The fields of a request the reader uses, and the bytes its peer has still to deliver. */
  class Request {
    const pageSize: nat
    var buf: Buffer
    var need: nat
    var parserStatus: int
    var chunkLen: int
    var complete: bool
    var decapitate: nat
    var pending: seq<byte>

    /** What every receive so far has brought: a number of bytes, or 0 for none, whatever the reason. */
    ghost var answers: seq<nat>

    ghost function Repr(): set<object>
      reads this, buf
    {
      {this, buf, buf.data}
    }

    ghost predicate Valid()
      reads this, buf
    {
      pageSize > 0 && parserStatus in {0, 1} && buf.Valid() && decapitate <= buf.pos &&
      (parserStatus == 1 ==> chunkLen > 0 && decapitate == 0)
    }

    ghost function State(): (st: St)
      requires Valid()
      reads this, buf, buf.data
      ensures Wf(st)
    {
      St(buf.Contents(), need, parserStatus == 1, chunkLen, complete, decapitate)
    }

    constructor (pageSize: nat, body: seq<byte>)
      requires pageSize > 0
      ensures Valid() && State() == START && pending == body && answers == [] && fresh(Repr())
    {
      this.pageSize := pageSize;
      buf := new Buffer(pageSize);
      need, parserStatus, chunkLen, complete, decapitate, pending, answers := 0, 0, 0, false, 0, body, [];
    }

    /** Some of the pending bytes go into the free part of the buffer; -1 when none do. */
    method Recv() returns (rlen: int)
      requires Valid()
      modifies this`pending, this`answers, buf.data
      ensures answers == old(answers) + [if rlen < 0 then 0 else rlen]
      ensures Valid() && (rlen == -1 || (0 < rlen <= |old(pending)| && rlen <= buf.data.Length - buf.pos))
      ensures rlen == -1 ==> pending == old(pending) && buf.data[..] == old(buf.data[..])
      ensures rlen > 0 ==> pending == old(pending)[rlen..] && buf.Contents() == old(buf.Contents()) &&
                           buf.data[buf.pos..buf.pos + rlen] == old(pending)[..rlen]
    {
      var n := *;
      if n > buf.data.Length - buf.pos { n := buf.data.Length - buf.pos; }
      if n > |pending| { n := |pending|; }
      if n <= 0 {
        answers := answers + [0];
        return -1;
      }
      ghost var was := buf.data[..buf.pos];
      for i := 0 to n
        invariant buf.data[..buf.pos] == was && i <= n && pending == old(pending) && answers == old(answers)
        invariant buf.data[buf.pos..buf.pos + i] == pending[..i]
      {
        buf.data[buf.pos + i] := pending[i];
      }
      pending := pending[n..];
      answers := answers + [n];
      return n;
    }

    /** Room for what is needed, and a receive. */
    method Receive() returns (ok: bool, ghost k: nat)
      requires Valid() && decapitate == 0 && (need > 0 || buf.pos == 0)
      modifies Repr()
      ensures Valid() && buf == old(buf) && fresh(Repr() - old(Repr()))
      ensures if ok then 0 < k <= |old(pending)| && pending == old(pending)[k..] &&
                         State() == Received(old(State()), old(pending)[..k])
              else pending == old(pending) && State() == old(State())
      ensures if ok then answers == old(answers) + [k] && buf.refusals == old(buf.refusals)
              else (answers == old(answers) + [0] && buf.refusals == old(buf.refusals)) ||
                   (answers == old(answers) && buf.refusals == old(buf.refusals) + 1)
    {
      k := 0;
      ok := buf.Ensure(if pageSize > need then pageSize else need);
      if !ok { return; }
      var rlen := Recv();
      if rlen <= 0 { return false, 0; }
      k := rlen;
      ghost var was := buf.Contents();
      buf.pos := buf.pos + rlen;
      assert buf.Contents() == was + old(pending)[..k];
      if need > 0 {
        if rlen > need { need := 0; } else { need := need - rlen; }
      }
      ok := true;
    }

    /** The parser on a non-empty buffer: an answer, or how many bytes it needs.  `stale` lies behind the contents. */
    method ParseFrame() returns (done: bool, ok: bool, len: nat, ghost stale: seq<byte>)
      requires Valid() && need == 0 && buf.pos > 0 && decapitate == 0 && !complete
      modifies Repr()
      ensures Valid() && buf == old(buf) && buf.data == old(buf.data) && pending == old(pending) && !complete == !(done && ok && len == 0)
      ensures done && ok ==> len <= buf.data.Length
      ensures answers == old(answers) && buf.refusals == old(buf.refusals)
      ensures done && !ok ==> chunkLen < 0 && chunkLen != -2
      ensures done ==> forall more :: Parse(old(State()), pending, stale, more) ==
                                      Out(if ok then Some(buf.data[..len]) else None, State(), pending)
      ensures !done ==> need > 0 && decapitate == 0
      ensures !done ==> forall more :: Parse(old(State()), pending, stale, more) == Loop(State(), pending, [], more)
    {
      hide LineOf, Loop, Strtoul, Parse;
      done, ok, len, stale := false, false, 0, [];
      ghost var s0 := State();
      if parserStatus == 0 {
        chunkLen, stale := buf.Readline();
        if chunkLen == -2 {
          need := need + 1;
          NeedsMore(s0, State(), pending, stale);
          return;
        }
        if chunkLen < 0 {
          Refused(s0, State(), pending, stale);
          return true, false, 0, stale;
        }
        if chunkLen == 0 {
          Ends(s0, State(), pending, stale);
          complete := true;
          return true, true, 0, stale;
        }
      }
      ToBody(s0, State(), pending, stale);
      if chunkLen + 2 > buf.pos {
        need := chunkLen + 2 - buf.pos;
        parserStatus := 1;
        return;
      }
      decapitate := chunkLen + 2;
      parserStatus := 0;
      assert buf.Contents()[..chunkLen] == buf.data[..chunkLen];
      return true, true, chunkLen, stale;
    }

    /** One read: with a result, the chunk is the first `len` bytes of the buffer; `call` is what its receives took and
        what lay in memory.  There is no result only if a receive brings nothing, there is no memory, or the size line is none
        or too large a number. */
    method Read() returns (ok: bool, len: nat, ghost call: Call)
      requires Valid()
      modifies Repr()
      ensures Valid() && fresh(Repr() - old(Repr()))
      ensures ok ==> len <= buf.data.Length
      ensures Out(if ok then Some(buf.data[..len]) else None, State(), pending) ==
              ChunkedModel.Read(old(State()), old(pending), call)
      ensures ok ==> Tally(old(answers), answers, call.got, [])
      ensures !ok ==>
        (Tally(old(answers), answers, call.got, [0]) && (need > 0 || buf.pos == 0)) ||
        (Tally(old(answers), answers, call.got, []) && (buf.refusals == old(buf.refusals) + 1 || (chunkLen < 0 && chunkLen != -2)))
    {
      hide Parse, Loop, LineOf, Linked, Parsing, Strtoul, Extended, Tally;
      ok, len, call := false, 0, Call([], []);
      NoneReceived(answers);
      if complete {
        return true, 0, call;
      }
      if decapitate > 0 {
        var cut := buf.Decapitate(decapitate);
        decapitate := 0;
      }
      ghost var st, rest := State(), pending;
      Unlinked(st, rest);
      while true
        invariant Valid() && fresh(Repr() - old(Repr())) && decapitate == 0 && !complete
        invariant buf == old(buf) && buf.refusals == old(buf.refusals) && Tally(old(answers), answers, call.got, [])
        invariant if need > 0 || buf.pos == 0 then Linked(st, rest, call, State(), pending)
                  else State() == st && pending == rest && call == Call([], [])
        decreases |pending|, need == 0 && buf.pos > 0
      {
        ghost var s1, p1, a1 := State(), pending, answers;
        ghost var k := 0;
        if need > 0 || buf.pos == 0 {
          var received;
          received, k := Receive();
          if !received {
            NoMore(st, rest, call, s1, p1);
            NothingReceived(old(answers), a1, call.got);
            return false, 0, call;
          }
        }
        ghost var s2 := State();
        if need == 0 {
          var done; ghost var stale;
          done, ok, len, stale := ParseFrame();
          Onward(st, rest, call, s1, p1, k, stale, s2, pending);
          OneReceived(old(answers), a1, call, k, stale);
          call := Extended(call, k, stale);
          if done {
            Answered(st, rest, call, s2, pending, stale, Out(if ok then Some(buf.data[..len]) else None, State(), pending));
            return;
          }
          ParsedOn(st, rest, call, s2, pending, stale, State(), pending);
        } else {
          WaitsOn(st, rest, call, s1, p1, k);
          OneReceived(old(answers), a1, call, k, []);
          call := Extended(call, k, []);
        }
      }
    }
  }

  /** The numbers of bytes received. */
  function Sizes(got: seq<Feed>): seq<nat> {
    seq(|got|, i requires 0 <= i < |got| => got[i].n)
  }

  /** Since `before` the receives have brought `got` and then `rest`. */
  predicate Tally(before: seq<nat>, after: seq<nat>, got: seq<Feed>, rest: seq<nat>) {
    after == before + Sizes(got) + rest
  }

  lemma NoneReceived(before: seq<nat>)
    ensures Tally(before, before, [], [])
  {
  }

  lemma OneReceived(before: seq<nat>, after: seq<nat>, call: Call, k: nat, stale: seq<byte>)
    requires Tally(before, after, call.got, [])
    ensures Tally(before, if k > 0 then after + [k] else after, Extended(call, k, stale).got, [])
  {
    assert Sizes(Extended(call, k, stale).got) == Sizes(call.got) + if k > 0 then [k] else [];
  }

  lemma NothingReceived(before: seq<nat>, after: seq<nat>, got: seq<Feed>)
    requires Tally(before, after, got, [])
    ensures Tally(before, after + [0], got, [0])
  {
  }

  /** `s1` is `s0` with its size line dropped and the line's number noted. */
  ghost predicate Numbered(s0: St, s1: St, stale: seq<byte>) {
    match LineOf(s0.buf)
    case Incomplete => false
    case Bad => false
    case Empty => s1 == s0.(buf := s0.buf[2..], chunkLen := Signed(Strtoul(s0.buf + stale)))
    case Size(n, used) => s1 == s0.(buf := s0.buf[used..], chunkLen := Signed(n))
  }

  lemma NeedsMore(s0: St, s1: St, pending: seq<byte>, stale: seq<byte>)
    requires Wf(s0) && s0.need == 0 && s0.decapitate == 0 && !s0.body && s1.need == 1 && s1.chunkLen == -2
    requires (LineOf(s0.buf).Incomplete? && s1 == s0.(need := 1, chunkLen := -2)) || Numbered(s0, s1.(need := 0), stale)
    ensures Wf(s1) && forall more :: Parse(s0, pending, stale, more) == Loop(s1, pending, [], more)
  {
    hide LineOf, Strtoul;
    forall more: seq<Feed>
      ensures Loop(s1, pending, stale, more) == Loop(s1, pending, [], more)
    {
      hide Parse;
    }
    hide Loop;
  }

  lemma Refused(s0: St, s1: St, pending: seq<byte>, stale: seq<byte>)
    requires Wf(s0) && s0.need == 0 && s0.decapitate == 0 && !s0.body && s1.chunkLen < 0 && s1.chunkLen != -2
    requires (LineOf(s0.buf).Bad? && s1 == s0.(chunkLen := -1)) || Numbered(s0, s1, stale)
    ensures forall more :: Parse(s0, pending, stale, more) == Out(None, s1, pending)
  {
    hide LineOf, Strtoul, Loop;
  }

  lemma Ends(s0: St, s1: St, pending: seq<byte>, stale: seq<byte>)
    requires Wf(s0) && s0.need == 0 && s0.decapitate == 0 && !s0.body && s1.chunkLen == 0 && Numbered(s0, s1, stale)
    ensures forall more :: Parse(s0, pending, stale, more) == Out(Some([]), s1.(complete := true), pending)
  {
    hide LineOf, Strtoul, Loop;
  }

  lemma ToBody(s0: St, s1: St, pending: seq<byte>, stale: seq<byte>)
    requires Wf(s0) && s0.need == 0 && s0.decapitate == 0 && s1.chunkLen > 0
    requires if s0.body then s1 == s0 else Numbered(s0, s1, stale)
    ensures s1.need == 0 && s1.decapitate == 0 && forall more :: Parse(s0, pending, stale, more) == Body(s1, pending, more)
  {
    hide LineOf, Strtoul, Loop, Body;
  }

  /** What a read has met, one more step of it: a receive, or - before any - the first parse. */
  ghost function Extended(call: Call, k: nat, stale: seq<byte>): Call {
    if k > 0 then Call(call.stale, call.got + [Feed(k, stale)]) else Call(stale, call.got)
  }

  /** From `st` the reader has got to `s1`, where it has to receive, by meeting `call`; whatever it receives next. */
  ghost predicate Linked(st: St, rest: seq<byte>, call: Call, s1: St, p1: seq<byte>)
    requires Wf(st) && st.decapitate == 0 && Wf(s1) && s1.decapitate == 0
  {
    forall more :: Loop(st, rest, call.stale, call.got + more) == Loop(s1, p1, [], more)
  }

  /** ... or to `s1`, which it parses next with `stale` behind its contents. */
  ghost predicate Parsing(st: St, rest: seq<byte>, call: Call, s1: St, p1: seq<byte>, stale: seq<byte>)
    requires Wf(st) && st.decapitate == 0 && Wf(s1) && s1.decapitate == 0 && s1.need == 0
  {
    forall more :: Loop(st, rest, call.stale, call.got + more) == Parse(s1, p1, stale, more)
  }

  lemma Unlinked(st: St, rest: seq<byte>)
    requires Wf(st) && st.decapitate == 0
    ensures Linked(st, rest, Call([], []), st, rest)
  {
    hide Loop;
    assert forall more: seq<Feed> :: [] + more == more;
  }

  lemma Onward(st: St, rest: seq<byte>, call: Call, s1: St, p1: seq<byte>, k: nat, stale: seq<byte>, s2: St, p2: seq<byte>)
    requires Wf(st) && st.decapitate == 0 && Wf(s1) && s1.decapitate == 0 && Wf(s2) && s2.decapitate == 0 && s2.need == 0 && s2.buf != []
    requires if s1.need > 0 || s1.buf == []
             then Linked(st, rest, call, s1, p1) && 0 < k <= |p1| && s2 == Received(s1, p1[..k]) && p2 == p1[k..]
             else s1 == st && p1 == rest && call == Call([], []) && k == 0 && s2 == s1 && p2 == p1
    ensures Parsing(st, rest, Extended(call, k, stale), s2, p2, stale)
  {
    var c := Extended(call, k, stale);
    forall more: seq<Feed>
      ensures Loop(st, rest, c.stale, c.got + more) == Parse(s2, p2, stale, more)
    {
      hide Parse;
      if k > 0 {
        assert c.got + more == call.got + ([Feed(k, stale)] + more);
        assert ([Feed(k, stale)] + more)[1..] == more;
      } else {
        assert c.got + more == more;
      }
    }
  }

  lemma WaitsOn(st: St, rest: seq<byte>, call: Call, s1: St, p1: seq<byte>, k: nat)
    requires Wf(st) && st.decapitate == 0 && Wf(s1) && s1.decapitate == 0 && s1.need > k && 0 < k <= |p1|
    requires Linked(st, rest, call, s1, p1)
    ensures Linked(st, rest, Extended(call, k, []), Received(s1, p1[..k]), p1[k..])
  {
    var c := Extended(call, k, []);
    forall more: seq<Feed>
      ensures Loop(st, rest, c.stale, c.got + more) == Loop(Received(s1, p1[..k]), p1[k..], [], more)
    {
      assert c.got + more == call.got + ([Feed(k, [])] + more);
      assert ([Feed(k, [])] + more)[1..] == more;
      hide Parse;
    }
  }

  lemma ParsedOn(st: St, rest: seq<byte>, call: Call, s1: St, p1: seq<byte>, stale: seq<byte>, s2: St, p2: seq<byte>)
    requires Wf(st) && st.decapitate == 0 && Wf(s1) && s1.decapitate == 0 && s1.need == 0 && Wf(s2) && s2.decapitate == 0
    requires Parsing(st, rest, call, s1, p1, stale) && forall more :: Parse(s1, p1, stale, more) == Loop(s2, p2, [], more)
    ensures Linked(st, rest, call, s2, p2)
  {
    hide Parse, Loop;
  }

  lemma Answered(st: St, rest: seq<byte>, call: Call, s1: St, p1: seq<byte>, stale: seq<byte>, o: Out)
    requires Wf(st) && st.decapitate == 0 && Wf(s1) && s1.decapitate == 0 && s1.need == 0
    requires Parsing(st, rest, call, s1, p1, stale) && forall more :: Parse(s1, p1, stale, more) == o
    ensures Loop(st, rest, call.stale, call.got) == o
  {
    hide Parse, Loop;
    assert call.got + [] == call.got;
    assert Loop(st, rest, call.stale, call.got + []) == Parse(s1, p1, stale, []);
  }

  lemma NoMore(st: St, rest: seq<byte>, call: Call, s1: St, p1: seq<byte>)
    requires Wf(st) && st.decapitate == 0 && Wf(s1) && s1.decapitate == 0
    requires Linked(st, rest, call, s1, p1) && (s1.need > 0 || s1.buf == [])
    ensures Loop(st, rest, call.stale, call.got) == Out(None, s1, p1)
  {
    hide Parse;
    assert call.got + [] == call.got;
    assert Loop(st, rest, call.stale, call.got + []) == Loop(s1, p1, [], []);
    hide Linked;
  }
}
