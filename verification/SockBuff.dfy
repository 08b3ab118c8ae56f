/** The buffered socket writer of the Apache module (apache2/mod_Ruwsgi.c: sendall, bflush, bwrite). */
module SockBuff {

  import opened Basics

  const BUFFER_SIZE := 8000

  /** What has gone out and what is still held back. */
  datatype Out = Out(sent: seq<byte>, held: seq<byte>)

  /** A successful write: it fits with room to spare, or all that was held and every full block go out. */
  function Written(o: Out, data: seq<byte>): Out {
    if |data| < BUFFER_SIZE - |o.held| then Out(o.sent, o.held + data)
    else Out(o.sent + o.held + data[..Blocks(|data|)], data[Blocks(|data|)..])
  }

  /** The bytes of the full blocks among `n`. */
  function Blocks(n: nat): (b: nat)
    ensures b <= n < b + BUFFER_SIZE
  {
    if n < BUFFER_SIZE then 0 else BUFFER_SIZE + Blocks(n - BUFFER_SIZE)
  }

  function Flushed(o: Out): Out {
    Out(o.sent + o.held, [])
  }

  datatype Op = Write(data: seq<byte>) | Flush

  function Run(o: Out, ops: seq<Op>): Out {
    if ops == [] then o
    else
      var b := Run(o, ops[..|ops| - 1]);
      match ops[|ops| - 1]
      case Write(data) => Written(b, data)
      case Flush => Flushed(b)
  }

  /** Everything the operations write, in order. */
  function Stream(ops: seq<Op>): seq<byte> {
    if ops == [] then []
    else Stream(ops[..|ops| - 1]) + if ops[|ops| - 1].Write? then ops[|ops| - 1].data else []
  }

  /** Buffering refines writing directly: after any successful operations, what has gone out followed by what is held
      is all that was written, in order, and the buffer is never full. */
  lemma {:induction false} RefinesDirectWriting(ops: seq<Op>)
    ensures var o := Run(Out([], []), ops); o.sent + o.held == Stream(ops) && |o.held| < BUFFER_SIZE
  {
    if ops != [] {
      RefinesDirectWriting(ops[..|ops| - 1]);
      hide Blocks;
    }
  }

  lemma {:induction false} BlocksAre(n: nat)
    ensures Blocks(n) == n - n % BUFFER_SIZE
  {
    if n >= BUFFER_SIZE { BlocksAre(n - BUFFER_SIZE); }
  }

  /** When anything goes out: a write that leaves the buffer short of full sends nothing and is held whole; any other one
      sends what was held and as many full blocks as there are, and holds the rest; a flush holds nothing back. */
  lemma WriteHolds(o: Out, data: seq<byte>)
    requires |o.held| < BUFFER_SIZE
    ensures var w := Written(o, data);
            if |o.held| + |data| < BUFFER_SIZE then w.sent == o.sent && w.held == o.held + data
            else |w.held| == |data| % BUFFER_SIZE && data[|data| - |w.held|..] == w.held &&
                 w.sent + w.held == o.sent + o.held + data && |w.sent| == |o.sent| + |o.held| + |data| - |data| % BUFFER_SIZE
    ensures Flushed(o).held == [] && Flushed(o).sent == o.sent + o.held
  {
    BlocksAre(|data|);
    hide Blocks;
  }

  /** `rv` is the first answer of the socket since `before` that is an error, after which nothing more is sent; 0 means that
      there was none. */
  ghost predicate Reports(before: seq<int>, after: seq<int>, rv: int) {
    && |before| <= |after| && after[..|before|] == before
    && (forall i :: |before| <= i < |after| - 1 ==> after[i] == 0)
    && (rv != 0 ==> |before| < |after|) && (|before| < |after| ==> after[|after| - 1] == rv)
  }

  class Buffer {
    /** What the socket has been given. */
    var sent: seq<byte>
    const buf: array<byte>
    var used: nat

    /** What the socket has answered to each send. */
    ghost var answers: seq<int>

    ghost predicate Valid()
      reads this
    {
      buf.Length == BUFFER_SIZE && used <= BUFFER_SIZE
    }

    ghost function State(): Out
      requires Valid()
      reads this, buf
    {
      Out(sent, buf[..used])
    }

    /** binit. */
    constructor ()
      ensures Valid() && State() == Out([], []) && answers == [] && fresh(buf)
    {
      buf := new byte[BUFFER_SIZE];
      used, sent, answers := 0, [], [];
    }

    /** apr_socket_send: without an error it takes at least one byte and perhaps not all; with one - any number but 0 - a
        part, or nothing. */
    method Send(data: seq<byte>) returns (rv: int, n: nat)
      requires |data| > 0
      modifies this`sent, this`answers
      ensures n <= |data| && (rv == 0 ==> n > 0) && sent == old(sent) + data[..n] && answers == old(answers) + [rv]
    {
      rv, n := *, *;
      if n > |data| { n := |data|; }
      if n == 0 && rv == 0 { n := 1; }
      sent, answers := sent + data[..n], answers + [rv];
    }

    /** sendall. */
    method SendAll(data: seq<byte>) returns (rv: int)
      modifies this`sent, this`answers
      ensures Reports(old(answers), answers, rv)
      ensures rv == 0 ==> sent == old(sent) + data
      ensures rv != 0 ==> old(sent) <= sent <= old(sent) + data
    {
      var rest := data;
      while |rest| > 0
        invariant |rest| <= |data| && rest == data[|data| - |rest|..]
        invariant sent == old(sent) + data[..|data| - |rest|]
        invariant Reports(old(answers), answers, 0)
        decreases |rest|
      {
        var n;
        ghost var from := |data| - |rest|;
        rv, n := Send(rest);
        assert rest[..n] == data[from..from + n];
        assert data[..from] + rest[..n] == data[..from + n];
        if rv != 0 { return; }
        rest := rest[n..];
      }
      return 0;
    }

    /** bflush. */
    method BFlush() returns (rv: int)
      requires Valid()
      modifies this
      ensures Valid() && buf[..] == old(buf[..]) && Reports(old(answers), answers, rv)
      ensures rv == 0 ==> State() == Flushed(old(State())) && used == 0
      ensures rv != 0 ==> used == old(used) && old(sent) <= sent <= old(sent) + buf[..used]
    {
      if used != 0 {
        rv := SendAll(buf[..used]);
        if rv != 0 { return; }
        used := 0;
      }
      return 0;
    }

    /** Writes `data`; after an error what has gone out is a prefix of what should have. */
    method BWrite(data: seq<byte>) returns (rv: int)
      requires Valid()
      modifies this, buf
      ensures Valid() && Reports(old(answers), answers, rv)
      ensures rv == 0 ==> State() == Written(old(State()), data) && used < BUFFER_SIZE
      ensures rv != 0 ==> old(sent) <= sent <= old(sent) + old(buf[..used]) + data
    {
      hide Blocks;
      var rest := data;
      if |data| >= BUFFER_SIZE - used {
        rv := BFlush();
        if rv != 0 {
          PrefixOfLonger(sent, old(sent) + old(buf[..used]), data);
          return;
        }
        rv, rest := SendBlocks(data);
        if rv != 0 { return; }
      }
      if |rest| > 0 {
        assert |rest| < BUFFER_SIZE - used;
        Hold(rest);
      }
      return 0;
    }

    /** All full blocks of `data` go out directly. */
    method SendBlocks(data: seq<byte>) returns (rv: int, rest: seq<byte>)
      modifies this`sent, this`answers
      ensures Reports(old(answers), answers, rv)
      ensures rv == 0 ==> sent == old(sent) + data[..Blocks(|data|)] && rest == data[Blocks(|data|)..]
      ensures rv != 0 ==> old(sent) <= sent <= old(sent) + data
    {
      rest := data;
      while |rest| >= BUFFER_SIZE
        invariant |rest| <= |data| && rest == data[|data| - |rest|..]
        invariant sent == old(sent) + data[..|data| - |rest|]
        invariant Reports(old(answers), answers, 0)
        invariant Blocks(|data|) == |data| - |rest| + Blocks(|rest|)
      {
        ghost var from := |data| - |rest|;
        ghost var before := sent;
        rv := SendAll(rest[..BUFFER_SIZE]);
        assert data[..from] + rest[..BUFFER_SIZE] == data[..from + BUFFER_SIZE];
        if rv != 0 {
          PartSent(old(sent), data, from, before, rest[..BUFFER_SIZE], sent);
          return;
        }
        rest := rest[BUFFER_SIZE..];
      }
      rv := 0;
    }

    /** Fewer bytes than the room left are copied behind those held. */
    method Hold(rest: seq<byte>)
      requires Valid() && |rest| < BUFFER_SIZE - used
      modifies this`used, buf
      ensures Valid() && buf[..used] == old(buf[..used]) + rest && used == old(used) + |rest|
    {
      ghost var was := buf[..used];
      for i := 0 to |rest|
        invariant i <= |rest| && buf[..used + i] == was + rest[..i]
        modifies buf
      {
        buf[used + i] := rest[i];
      }
      used := used + |rest|;
    }
  }

  lemma PrefixOfLonger(a: seq<byte>, b: seq<byte>, c: seq<byte>)
    requires a <= b
    ensures a <= b + c
  {
  }

  lemma PartSent(flushed: seq<byte>, data: seq<byte>, from: nat, before: seq<byte>, block: seq<byte>, sent: seq<byte>)
    requires from + |block| <= |data| && block == data[from..from + |block|] && before == flushed + data[..from]
    requires before <= sent <= before + block
    ensures flushed <= sent <= flushed + data
  {
    assert before + block == flushed + data[..from + |block|];
  }
}
