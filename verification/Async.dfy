/** The async hub (core/async.c) in memory: the run queue is a doubly linked list of nodes, requests and the
    descriptor table are arrays, the timer tree is its list of timers in order. */
module AsyncLoop {

  import opened AsyncModel

  /** An entry of the run queue. */
  class Node {
    const core: nat
    var prev: Node?
    var next: Node?

    constructor (core: nat)
      ensures this.core == core && prev == null && next == null
    {
      this.core := core;
      prev, next := null, null;
    }
  }

  function At(ns: seq<Node>, k: int): Node? {
    if 0 <= k < |ns| then ns[k] else null
  }

  /** The requests of a list of nodes. */
  function Cores(ns: seq<Node>): (q: seq<nat>)
    ensures |q| == |ns| && forall k :: 0 <= k < |q| ==> q[k] == ns[k].core
  {
    seq(|ns|, k requires 0 <= k < |ns| => ns[k].core)
  }

  /** The links are those of the list, which visits no node twice. */
  ghost predicate Chain(ns: seq<Node>)
    reads ns
  {
    Distinct(ns) && forall k :: 0 <= k < |ns| ==> LinkedAt(ns, k)
  }

  ghost predicate LinkedAt(ns: seq<Node>, k: nat)
    requires k < |ns|
    reads ns[k]
  {
    ns[k].prev == At(ns, k - 1) && ns[k].next == At(ns, k + 1)
  }

  ghost predicate Distinct(ns: seq<Node>) {
    forall j, k :: 0 <= j < k < |ns| ==> ns[j] != ns[k]
  }

  lemma Shorter(ns: seq<Node>, k: nat)
    requires k < |ns| && Distinct(ns)
    ensures var ms := ns[..k] + ns[k + 1..];
            Distinct(ms) && Cores(ms) == Cores(ns)[..k] + Cores(ns)[k + 1..]
  {
  }

  lemma Ends(ns: seq<Node>, k: nat)
    requires k < |ns| && Distinct(ns)
    ensures (ns[k] == At(ns, 0) <==> k == 0) && (ns[k] == At(ns, |ns| - 1) <==> k == |ns| - 1)
  {
  }

  /** The neighbours in the list without the `k`-th node. */
  lemma Neighbours(ns: seq<Node>, k: nat, j: nat)
    requires k < |ns| && j < |ns| - 1 && Distinct(ns)
    ensures var ms, i := ns[..k] + ns[k + 1..], if j < k then j else j + 1;
            (ms[j] == ns[i] && (ns[i] == At(ns, k - 1) <==> i == k - 1) && (ns[i] == At(ns, k + 1) <==> i == k + 1) &&
             At(ms, j - 1) == (if i == k + 1 then At(ns, k - 1) else At(ns, i - 1)) &&
             At(ms, j + 1) == (if i == k - 1 then At(ns, k + 1) else At(ns, i + 1)))
  {
  }

  class Loop {
    const reqs: array<Req>
    const table: array<int>
    var timers: seq<Timer>
    var first: Node?
    var last: Node?
    /** The nodes from `first` to `last`. */
    ghost var nodes: seq<Node>

    ghost function Repr(): set<object>
      reads this
    {
      {this, reqs, table} + set n | n in nodes
    }

    ghost predicate Linked()
      reads this, nodes
    {
      first == At(nodes, 0) && last == At(nodes, |nodes| - 1) && Chain(nodes)
    }

    ghost function State(): Hub
      reads this, reqs, table
    {
      Hub(reqs[..], timers, table[..], Cores(nodes))
    }

    ghost predicate Valid()
      reads this, reqs, table, nodes
    {
      Linked() && Inv(State())
    }

    /** No requests under way. */
    constructor (cores: nat, maxFd: nat)
      ensures Valid() && fresh(Repr())
      ensures State() == Hub(seq(cores, i => Req(false, false, [], false, 0, false)), [], seq(maxFd, i => -1), [])
    {
      reqs := new Req[cores](_ => Req(false, false, [], false, 0, false));
      table := new int[maxFd](_ => -1);
      timers, first, last, nodes := [], null, null, [];
    }

    /** runqueue_push: walks the queue, and appends the request when it is not there. */
    method Push(i: nat)
      requires Linked()
      modifies this`first, this`last, this`nodes, nodes
      ensures Linked() && Cores(nodes) == if i in Cores(old(nodes)) then Cores(old(nodes)) else Cores(old(nodes)) + [i]
      ensures fresh(Repr() - old(Repr()))
    {
      var uar := first;
      ghost var k := 0;
      while uar != null
        invariant 0 <= k <= |nodes| && uar == At(nodes, k)
        invariant forall j :: 0 <= j < k ==> nodes[j].core != i
        modifies {}
        decreases |nodes| - k
      {
        if uar.core == i {
          assert Cores(nodes)[k] == i;
          return;
        }
        assert LinkedAt(nodes, k);
        uar := uar.next;
        k := k + 1;
      }
      Append(i);
    }

    /** A new node at the end. */
    method Append(i: nat)
      requires Linked()
      modifies this`first, this`last, this`nodes, nodes
      ensures Linked() && Cores(nodes) == Cores(old(nodes)) + [i] && fresh(Repr() - old(Repr()))
    {
      ghost var ns := nodes;
      var uar := new Node(i);
      assert uar !in ns && (ns != [] ==> LinkedAt(ns, |ns| - 1));
      if first == null {
        first := uar;
      } else {
        uar.prev := last;
      }
      if last != null {
        last.next := uar;
      }
      last := uar;
      nodes := ns + [uar];
      forall j | 0 <= j < |nodes|
        ensures LinkedAt(nodes, j)
      {
        if j < |ns| { assert old(LinkedAt(ns, j)); }
      }
    }

    /** runqueue_remove of the `k`-th node. */
    method Remove(node: Node, ghost k: nat)
      requires Linked() && k < |nodes| && node == nodes[k]
      modifies this`first, this`last, this`nodes, nodes
      ensures Linked() && nodes == old(nodes)[..k] + old(nodes)[k + 1..]
      ensures Cores(nodes) == Cores(old(nodes))[..k] + Cores(old(nodes))[k + 1..]
    {
      hide Cores, Distinct;
      var parent, child := node.prev, node.next;
      ghost var ns := nodes;
      assert LinkedAt(ns, k);
      Ends(ns, k);
      if parent != null { parent.next := child; }
      if child != null { child.prev := parent; }
      if node == first { first := child; }
      if node == last { last := parent; }
      nodes := ns[..k] + ns[k + 1..];
      Shorter(ns, k);
      hide At;
      forall j | 0 <= j < |nodes|
        ensures LinkedAt(nodes, j)
      {
        Neighbours(ns, k, j);
        assert old(LinkedAt(ns, if j < k then j else j + 1));
      }
    }

    /** async_add_timeout. */
    method SetTimeout(i: nat, timeout: int, now: nat)
      requires i < reqs.Length
      modifies reqs, this`timers
      ensures State() == AsyncModel.AddTimeout(old(State()), i, timeout, now)
    {
      hide Cores, Insert;
      ghost var h := State();
      reqs[i] := reqs[i].(readyFd := false);
      if timeout > 0 && !reqs[i].timer {
        timers := Insert(timers, Timer(now + timeout, i));
        reqs[i] := reqs[i].(timer := true);
      }
      assert reqs[..] == AsyncModel.AddTimeout(h, i, timeout, now).reqs;
    }

    /** async_reset_request: the timer is deleted, then the descriptors one by one. */
    method Reset(i: nat)
      requires i < reqs.Length && forall fd :: fd in reqs[i].waiting ==> fd < table.Length
      modifies reqs, table, this`timers
      ensures reqs[..] == AsyncModel.Reset(old(State()), i).reqs && table[..] == AsyncModel.Reset(old(State()), i).table
      ensures timers == AsyncModel.Reset(old(State()), i).timers
    {
      hide AsyncModel.Remove;
      if reqs[i].timer {
        timers := AsyncModel.Remove(timers, i);
        reqs[i] := reqs[i].(timer := false);
      }
      ClearAll(reqs[i].waiting);
      reqs[i] := reqs[i].(waiting := []);
    }

    /** The entries of a list of descriptors, one by one. */
    method ClearAll(fds: seq<nat>)
      requires forall fd :: fd in fds ==> fd < table.Length
      modifies table
      ensures table[..] == Cleared(old(table[..]), fds)
    {
      var n := 0;
      while n < |fds|
        invariant 0 <= n <= |fds|
        invariant forall fd :: 0 <= fd < table.Length ==> table[fd] == if fd in fds[..n] then -1 else old(table[fd])
      {
        assert fds[n] in fds && fds[..n + 1] == fds[..n] + [fds[n]];
        table[fds[n]] := -1;
        n := n + 1;
      }
      assert fds[..n] == fds;
    }

    /** async_expire_timeouts. */
    method Expire(now: nat)
      requires Valid()
      modifies Repr()
      ensures Valid() && State() == AsyncModel.Expire(old(State()), now) && fresh(Repr() - old(Repr()))
    {
      hide AsyncModel.Expire, Inv, Fire, Chain, Cores;
      while true
        invariant Valid() && fresh(Repr() - old(Repr()))
        invariant AsyncModel.Expire(State(), now) == AsyncModel.Expire(old(State()), now)
        decreases |timers|
      {
        if timers == [] || timers[0].value > now {
          ExpireStops(State(), now);
          return;
        }
        FireInv(State());
        ExpireGoesOn(State(), now);
        FireFirst();
      }
    }

    /** The first timer fires: the request is flagged, reset and queued. */
    method FireFirst()
      requires Valid() && timers != [] && timers[0].core < reqs.Length
      modifies Repr()
      ensures Linked() && State() == Fire(old(State())) && fresh(Repr() - old(Repr()))
    {
      hide Chain, Cores, AsyncModel.Remove;
      ghost var h := State();
      var i := timers[0].core;
      WaitsInTable(h, i);
      reqs[i] := reqs[i].(timedOut := true);
      assert reqs[..] == TimedOut(h, i).reqs;
      Reset(i);
      Push(i);
    }

    /** async_add_fd_read and async_add_fd_write: -1 for a negative descriptor; otherwise what the event queue answers. */
    method AddFd(i: nat, fd: int, timeout: int, now: nat) returns (r: int)
      requires Valid() && i < reqs.Length && fd < table.Length && FreeFor(State(), fd, i)
      modifies reqs, table, this`timers
      ensures Valid() && State() == AsyncModel.AddFd(old(State()), i, fd, timeout, now) && (fd < 0 ==> r == -1)
    {
      hide Chain, Cores, Inv, AsyncModel.AddTimeout;
      if fd < 0 { return -1; }
      AddFdInvIff(State(), i, fd, timeout, now);
      ghost var h := State();
      reqs[i] := reqs[i].(waiting := reqs[i].waiting + [fd]);
      ghost var a := h.(reqs := h.reqs[i := h.reqs[i].(waiting := h.reqs[i].waiting + [fd])]);
      assert State() == a;
      if timeout > 0 {
        SetTimeout(i, timeout, now);
      }
      ghost var b := State();
      table[fd] := i;
      reqs[i] := reqs[i].(forceAgain := true);
      assert State() == b.(table := b.table[fd := i as int], reqs := b.reqs[i := b.reqs[i].(forceAgain := true)]);
      r := *;
    }

    /** The event loop on a descriptor that a request waits on: an unknown one is only closed. */
    method Ready(fd: nat) returns (known: bool)
      requires Valid() && fd < table.Length
      modifies Repr()
      ensures Valid() && fresh(Repr() - old(Repr())) && known == (old(table[fd]) >= 0)
      ensures known ==> old(table[fd]) < reqs.Length && State() == AsyncModel.Ready(old(State()), fd)
      ensures !known ==> State() == old(State())
    {
      hide Chain, Cores, AsyncModel.Remove, Inv;
      if table[fd] < 0 { return false; }
      ghost var h := State();
      ReadyInv(h, fd);
      var i := table[fd];
      WaitsInTable(h, i);
      Reset(i);
      reqs[i] := reqs[i].(readyFd := true, lastFd := fd);
      assert reqs[..] == AsyncModel.Ready(h, fd).reqs;
      Push(i);
      return true;
    }
  }

  lemma ExpireStops(h: Hub, now: nat)
    requires Inv(h) && (h.timers == [] || h.timers[0].value > now)
    ensures AsyncModel.Expire(h, now) == h
  {
  }

  lemma ExpireGoesOn(h: Hub, now: nat)
    requires Inv(h) && h.timers != [] && h.timers[0].value <= now
    ensures h.timers[0].core < |h.reqs| && Inv(Fire(h)) && AsyncModel.Expire(h, now) == AsyncModel.Expire(Fire(h), now)
  {
    FireInv(h);
  }

  lemma WaitsInTable(h: Hub, i: nat)
    requires Inv(h) && i < |h.reqs|
    ensures forall fd :: fd in h.reqs[i].waiting ==> fd < |h.table|
  {
    forall fd | fd in h.reqs[i].waiting
      ensures fd < |h.table|
    {
      assert Waits(h, i, fd);
    }
  }
}
