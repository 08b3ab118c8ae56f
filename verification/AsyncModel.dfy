/** The async hub (core/async.c) on values: requests with their timers and the descriptors they wait on, the
    descriptor table and the run queue. */
module AsyncModel {

  /** The fields of a request the hub uses: flagged as timed out, has a timer, descriptors it waits on. */
  datatype Req = Req(timedOut: bool, timer: bool, waiting: seq<nat>, readyFd: bool, lastFd: int, forceAgain: bool)

  datatype Timer = Timer(value: nat, core: nat)

  /** `timers` in the order of the timer tree, least value first, equal values as they were added;
      `table` maps a descriptor to the core waiting on it, or -1; `queue` is the run queue. */
  datatype Hub = Hub(reqs: seq<Req>, timers: seq<Timer>, table: seq<int>, queue: seq<nat>)

  // ---- the operations ------------------------------------------------------------------------

  function Insert(ts: seq<Timer>, t: Timer): seq<Timer> {
    if ts == [] || t.value < ts[0].value then [t] + ts else [ts[0]] + Insert(ts[1..], t)
  }

  /** The timers without the first one of `core`. */
  function Remove(ts: seq<Timer>, core: nat): seq<Timer> {
    if ts == [] then [] else if ts[0].core == core then ts[1..] else [ts[0]] + Remove(ts[1..], core)
  }

  /** The table with the entries of the descriptors `fds` cleared. */
  function Cleared(table: seq<int>, fds: seq<nat>): (r: seq<int>)
    ensures |r| == |table|
    ensures forall fd :: 0 <= fd < |table| ==> r[fd] == if fd in fds then -1 else table[fd]
    decreases |fds|
  {
    if fds == [] then table
    else Cleared(if fds[0] < |table| then table[fds[0] := -1] else table, fds[1..])
  }

  /** async_reset_request: no timer, no descriptors. */
  function Reset(h: Hub, i: nat): Hub
    requires i < |h.reqs|
  {
    Hub(h.reqs[i := h.reqs[i].(timer := false, waiting := [])],
        if h.reqs[i].timer then Remove(h.timers, i) else h.timers,
        Cleared(h.table, h.reqs[i].waiting), h.queue)
  }

  /** runqueue_push. */
  function Push(h: Hub, i: nat): Hub {
    if i in h.queue then h else h.(queue := h.queue + [i])
  }

  function TimedOut(h: Hub, i: nat): Hub
    requires i < |h.reqs|
  {
    h.(reqs := h.reqs[i := h.reqs[i].(timedOut := true)])
  }

  /** The first timer fires. */
  function Fire(h: Hub): Hub
    requires h.timers != [] && h.timers[0].core < |h.reqs|
  {
    var i := h.timers[0].core;
    Push(Reset(TimedOut(h, i), i), i)
  }

  /** async_expire_timeouts: timers fire while the first one is due. */
  function Expire(h: Hub, now: nat): (u: Hub)
    requires Inv(h)
    ensures |u.reqs| == |h.reqs| && |u.table| == |h.table|
    decreases |h.timers|
  {
    if h.timers == [] || h.timers[0].value > now then h
    else
      FireInv(h);
      Expire(Fire(h), now)
  }

  function AddTimeout(h: Hub, i: nat, timeout: int, now: nat): Hub
    requires i < |h.reqs|
  {
    var r := h.reqs[i].(readyFd := false);
    if timeout > 0 && !r.timer then
      h.(reqs := h.reqs[i := r.(timer := true)], timers := Insert(h.timers, Timer(now + timeout, i)))
    else h.(reqs := h.reqs[i := r])
  }

  /** async_add_fd_read and async_add_fd_write; a negative descriptor is refused. */
  function AddFd(h: Hub, i: nat, fd: int, timeout: int, now: nat): Hub
    requires i < |h.reqs| && fd < |h.table|
  {
    if fd < 0 then h
    else
      var a := h.(reqs := h.reqs[i := h.reqs[i].(waiting := h.reqs[i].waiting + [fd])]);
      var b := if timeout > 0 then AddTimeout(a, i, timeout, now) else a;
      b.(table := b.table[fd := i], reqs := b.reqs[i := b.reqs[i].(forceAgain := true)])
  }

  /** A descriptor some request waits on is ready: all its monitors go, and it is queued. */
  function Ready(h: Hub, fd: nat): Hub
    requires fd < |h.table| && 0 <= h.table[fd] < |h.reqs|
  {
    var i := h.table[fd];
    var u := Reset(h, i);
    Push(u.(reqs := u.reqs[i := u.reqs[i].(readyFd := true, lastFd := fd)]), i)
  }

  /** runqueue_remove of the `k`-th entry. */
  function Dequeue(h: Hub, k: nat): Hub
    requires k < |h.queue|
  {
    h.(queue := h.queue[..k] + h.queue[k + 1..])
  }

  // ---- the invariant ----------------------------------------------------------------------------

  predicate Sorted(ts: seq<Timer>) {
    forall a, b :: 0 <= a < b < |ts| ==> ts[a].value <= ts[b].value && ts[a].core != ts[b].core
  }

  predicate HasTimer(ts: seq<Timer>, i: nat) {
    exists t :: t in ts && t.core == i
  }

  /** The timers are in order, one for each request that has one. */
  ghost predicate TimersOk(h: Hub) {
    && Sorted(h.timers)
    && (forall t :: t in h.timers ==> t.core < |h.reqs| && h.reqs[t.core].timer)
    && (forall i :: 0 <= i < |h.reqs| && h.reqs[i].timer ==> HasTimer(h.timers, i))
  }

  predicate Waits(h: Hub, i: int, fd: int) {
    0 <= i < |h.reqs| && fd in h.reqs[i].waiting
  }

  /** No request but `i` is entered for the descriptor. */
  predicate FreeFor(h: Hub, fd: int, i: int) {
    0 <= fd < |h.table| ==> h.table[fd] == -1 || h.table[fd] == i
  }

  /** A descriptor's entry names the one request that waits on it. */
  ghost predicate TableOk(h: Hub) {
    && (forall fd :: 0 <= fd < |h.table| ==> -1 <= h.table[fd] < |h.reqs|)
    && (forall fd :: 0 <= fd < |h.table| && h.table[fd] >= 0 ==> Waits(h, h.table[fd], fd))
    && (forall i, fd :: Waits(h, i, fd) ==> 0 <= fd < |h.table| && h.table[fd] == i)
  }

  /** No request is queued twice. */
  ghost predicate QueueOk(h: Hub) {
    && (forall i :: i in h.queue ==> i < |h.reqs|)
    && (forall a, b :: 0 <= a < b < |h.queue| ==> h.queue[a] != h.queue[b])
  }

  ghost predicate Inv(h: Hub) {
    TimersOk(h) && TableOk(h) && QueueOk(h)
  }

  // ---- every operation keeps it -------------------------------------------------------------------

  lemma {:induction false} RemoveFirst(ts: seq<Timer>, i: nat)
    ensures |Remove(ts, i)| <= |ts| && (HasTimer(ts, i) ==> |Remove(ts, i)| < |ts|)
    ensures forall t :: t in Remove(ts, i) ==> t in ts
    ensures forall t :: t in ts && t.core != i ==> t in Remove(ts, i)
  {
    if ts != [] {
      assert ts == [ts[0]] + ts[1..];
      if ts[0].core != i {
        RemoveFirst(ts[1..], i);
        assert HasTimer(ts, i) ==> HasTimer(ts[1..], i);
      }
    }
  }

  lemma {:induction false} RemoveSorted(ts: seq<Timer>, i: nat)
    requires Sorted(ts)
    ensures Sorted(Remove(ts, i)) && !HasTimer(Remove(ts, i), i)
  {
    if ts != [] {
      assert Sorted(ts[1..]);
      if ts[0].core != i {
        RemoveSorted(ts[1..], i);
        RemoveFirst(ts[1..], i);
        SortedCons(ts[0], Remove(ts[1..], i));
      }
    }
  }

  lemma SortedCons(t: Timer, ts: seq<Timer>)
    requires Sorted(ts) && forall u :: u in ts ==> t.value <= u.value && t.core != u.core
    ensures Sorted([t] + ts)
  {
  }

  lemma {:induction false} InsertSorted(ts: seq<Timer>, t: Timer)
    requires Sorted(ts) && !HasTimer(ts, t.core)
    ensures Sorted(Insert(ts, t))
    ensures forall u :: u in Insert(ts, t) <==> u in ts || u == t
  {
    if ts == [] || t.value < ts[0].value {
      SortedCons(t, ts);
    } else {
      assert ts == [ts[0]] + ts[1..];
      assert Sorted(ts[1..]);
      InsertSorted(ts[1..], t);
      SortedCons(ts[0], Insert(ts[1..], t));
    }
  }

  lemma ResetTimers(h: Hub, i: nat)
    requires i < |h.reqs| && TimersOk(h)
    ensures TimersOk(Reset(h, i)) && (h.reqs[i].timer ==> |Reset(h, i).timers| < |h.timers|)
  {
    RemoveFirst(h.timers, i);
    RemoveSorted(h.timers, i);
    var u := Reset(h, i);
    forall j | 0 <= j < |u.reqs| && u.reqs[j].timer
      ensures HasTimer(u.timers, j)
    {
      assert j != i;
      var t :| t in h.timers && t.core == j;
      assert t in u.timers;
    }
  }

  lemma ResetTable(h: Hub, i: nat)
    requires i < |h.reqs| && TableOk(h)
    ensures TableOk(Reset(h, i))
    ensures forall fd :: 0 <= fd < |h.table| ==> Reset(h, i).table[fd] == if h.table[fd] == i then -1 else h.table[fd]
  {
    var u := Reset(h, i);
    forall j, fd | Waits(u, j, fd)
      ensures 0 <= fd < |u.table| && u.table[fd] == j
    {
      assert j != i && Waits(h, j, fd);
      assert !Waits(h, i, fd);
    }
    forall fd | 0 <= fd < |h.table|
      ensures u.table[fd] == if h.table[fd] == i then -1 else h.table[fd]
    {
      if fd in h.reqs[i].waiting { assert Waits(h, i, fd); }
    }
  }

  lemma ResetInv(h: Hub, i: nat)
    requires i < |h.reqs| && Inv(h)
    ensures Inv(Reset(h, i)) && (h.reqs[i].timer ==> |Reset(h, i).timers| < |h.timers|)
  {
    hide TimersOk, TableOk;
    ResetTimers(h, i);
    ResetTable(h, i);
  }

  /** A change of fields of a request that the invariant does not speak of. */
  lemma FieldsInv(h: Hub, i: nat, r: Req)
    requires i < |h.reqs| && Inv(h) && r.timer == h.reqs[i].timer && r.waiting == h.reqs[i].waiting
    ensures Inv(h.(reqs := h.reqs[i := r]))
  {
    var u := h.(reqs := h.reqs[i := r]);
    assert forall j, fd :: Waits(u, j, fd) <==> Waits(h, j, fd);
  }

  lemma SameTable(h: Hub, u: Hub)
    requires TableOk(h) && u.table == h.table && u.reqs == h.reqs
    ensures TableOk(u)
  {
    assert forall j, fd :: Waits(u, j, fd) <==> Waits(h, j, fd);
  }

  lemma PushInv(h: Hub, i: nat)
    requires i < |h.reqs| && Inv(h)
    ensures Inv(Push(h, i))
  {
    SameTable(h, Push(h, i));
    hide TableOk;
  }

  lemma FireInv(h: Hub)
    requires Inv(h) && h.timers != []
    ensures h.timers[0].core < |h.reqs| && Inv(Fire(h)) && |Fire(h).timers| < |h.timers|
  {
    var i := h.timers[0].core;
    assert h.timers[0] in h.timers;
    hide Inv;
    assert Inv(TimedOut(h, i)) by { FieldsInv(h, i, h.reqs[i].(timedOut := true)); }
    ResetInv(TimedOut(h, i), i);
    PushInv(Reset(TimedOut(h, i), i), i);
  }

  lemma AddTimeoutInv(h: Hub, i: nat, timeout: int, now: nat)
    requires i < |h.reqs| && Inv(h)
    ensures Inv(AddTimeout(h, i, timeout, now))
  {
    var r, u := h.reqs[i].(readyFd := false), AddTimeout(h, i, timeout, now);
    if timeout > 0 && !r.timer {
      var t := Timer(now + timeout, i);
      InsertSorted(h.timers, t);
      assert t in u.timers;
      assert forall j, fd :: Waits(u, j, fd) <==> Waits(h, j, fd);
      forall j | 0 <= j < |u.reqs| && u.reqs[j].timer
        ensures HasTimer(u.timers, j)
      {
        if j != i {
          var v :| v in h.timers && v.core == j;
          assert v in u.timers;
        }
      }
    } else {
      FieldsInv(h, i, r);
    }
  }

  /** A request that starts to wait on a descriptor keeps the invariant exactly when no other request waits on it. */
  lemma AddFdInvIff(h: Hub, i: nat, fd: nat, timeout: int, now: nat)
    requires i < |h.reqs| && fd < |h.table| && Inv(h)
    ensures Inv(AddFd(h, i, fd, timeout, now)) <==> FreeFor(h, fd, i)
  {
    var b := if timeout > 0 then AddTimeout(h, i, timeout, now) else h;
    if timeout > 0 { AddTimeoutInv(h, i, timeout, now); }
    var u, r := AddFd(h, i, fd, timeout, now), b.reqs[i];
    assert u == b.(table := b.table[fd := i], reqs := b.reqs[i := r.(waiting := r.waiting + [fd], forceAgain := true)]);
    MonitorIff(b, i, fd);
  }

  function Monitor(h: Hub, i: nat, fd: nat): Hub
    requires i < |h.reqs| && fd < |h.table|
  {
    var r := h.reqs[i];
    h.(table := h.table[fd := i], reqs := h.reqs[i := r.(waiting := r.waiting + [fd], forceAgain := true)])
  }

  lemma MonitorIff(h: Hub, i: nat, fd: nat)
    requires i < |h.reqs| && fd < |h.table| && Inv(h)
    ensures Inv(Monitor(h, i, fd)) <==> FreeFor(h, fd, i)
  {
    var u, o := Monitor(h, i, fd), h.table[fd];
    assert forall j, f :: Waits(u, j, f) <==> Waits(h, j, f) || (j == i && f == fd);
    if o != -1 && o != i {
      assert Waits(h, o, fd) && Waits(u, o, fd);
      assert u.table[fd] != o;
    } else {
      hide QueueOk;
      assert TimersOk(u);
    }
  }

  lemma ReadyInv(h: Hub, fd: nat)
    requires Inv(h) && fd < |h.table| && h.table[fd] >= 0
    ensures h.table[fd] < |h.reqs| && Inv(Ready(h, fd))
  {
    var i := h.table[fd];
    ResetInv(h, i);
    hide Inv;
    var u := Reset(h, i);
    FieldsInv(u, i, u.reqs[i].(readyFd := true, lastFd := fd));
    PushInv(u.(reqs := u.reqs[i := u.reqs[i].(readyFd := true, lastFd := fd)]), i);
  }

  lemma DequeueInv(h: Hub, k: nat)
    requires Inv(h) && k < |h.queue|
    ensures Inv(Dequeue(h, k)) && forall i :: i in Dequeue(h, k).queue <==> i in h.queue && i != h.queue[k]
  {
    SameTable(h, Dequeue(h, k));
    assert TimersOk(Dequeue(h, k));
    hide TimersOk, TableOk;
    QueueWithout(h.queue, k);
  }

  lemma QueueWithout(q: seq<nat>, k: nat)
    requires k < |q| && forall a, b :: 0 <= a < b < |q| ==> q[a] != q[b]
    ensures var r := q[..k] + q[k + 1..];
            ((forall a, b :: 0 <= a < b < |r| ==> r[a] != r[b]) && (forall i :: i in r <==> i in q && i != q[k]))
  {
    var r := q[..k] + q[k + 1..];
    assert forall a :: 0 <= a < |r| ==> r[a] == q[if a < k then a else a + 1];
    assert q == q[..k] + [q[k]] + q[k + 1..];
  }

  // ---- what expiry does, all at once ---------------------------------------------------------------

  /** A timer of the request is due. */
  predicate Due(h: Hub, now: nat, i: int) {
    exists t :: t in h.timers && t.core == i && t.value <= now
  }

  function Woken(r: Req): Req {
    r.(timedOut := true, timer := false, waiting := [])
  }

  /** The timers later than `now`. */
  function Later(ts: seq<Timer>, now: nat): seq<Timer> {
    if ts == [] then [] else (if ts[0].value > now then [ts[0]] else []) + Later(ts[1..], now)
  }

  /** The requests of the timers that are due and not in `queue`, in the order of their timers. */
  function Joining(ts: seq<Timer>, now: nat, queue: seq<nat>): seq<nat> {
    if ts == [] then []
    else (if ts[0].value <= now && ts[0].core !in queue then [ts[0].core] else []) + Joining(ts[1..], now, queue)
  }

  /** Every request with a due timer is flagged, waits on nothing and is in the queue; nothing else changes. */
  ghost predicate Expired(h: Hub, now: nat, u: Hub) {
    && |u.reqs| == |h.reqs| && |u.table| == |h.table|
    && (forall i :: 0 <= i < |h.reqs| ==> u.reqs[i] == if Due(h, now, i) then Woken(h.reqs[i]) else h.reqs[i])
    && (forall fd :: 0 <= fd < |h.table| ==> u.table[fd] == if Due(h, now, h.table[fd]) then -1 else h.table[fd])
    && u.timers == Later(h.timers, now)
    && u.queue == h.queue + Joining(h.timers, now, h.queue)
  }

  lemma {:induction false} NoneLater(ts: seq<Timer>, now: nat, queue: seq<nat>)
    requires Sorted(ts) && (ts != [] ==> ts[0].value > now)
    ensures Later(ts, now) == ts && Joining(ts, now, queue) == []
  {
    if ts != [] {
      assert Sorted(ts[1..]);
      NoneLater(ts[1..], now, queue);
    }
  }

  /** What one firing does. */
  lemma FireEffect(h: Hub)
    requires Inv(h) && h.timers != []
    ensures var t := h.timers[0]; var i, u := t.core, Fire(h);
            (i < |h.reqs| && u.reqs == h.reqs[i := Woken(h.reqs[i])] && u.timers == h.timers[1..] && |u.table| == |h.table| &&
             (forall fd :: 0 <= fd < |h.table| ==> u.table[fd] == if h.table[fd] == i then -1 else h.table[fd]) &&
             u.queue == if i in h.queue then h.queue else h.queue + [i])
  {
    var i := h.timers[0].core;
    assert h.timers[0] in h.timers;
    var m := TimedOut(h, i);
    FieldsInv(h, i, h.reqs[i].(timedOut := true));
    ResetTable(m, i);
  }

  lemma DueAfterFire(h: Hub, now: nat, j: int)
    requires Sorted(h.timers) && h.timers != [] && h.timers[0].value <= now
    ensures var u := h.(timers := h.timers[1..]); Due(h, now, j) <==> Due(u, now, j) || j == h.timers[0].core
    ensures var u := h.(timers := h.timers[1..]); !Due(u, now, h.timers[0].core)
  {
    var ts := h.timers;
    assert ts == [ts[0]] + ts[1..];
    assert forall t :: t in ts <==> t == ts[0] || t in ts[1..];
    assert ts[0] in ts;
  }

  lemma {:induction false} JoiningMore(ts: seq<Timer>, now: nat, queue: seq<nat>, i: nat)
    requires !HasTimer(ts, i)
    ensures Joining(ts, now, queue + [i]) == Joining(ts, now, queue)
  {
    if ts != [] {
      assert ts[0] in ts && forall t :: t in ts[1..] ==> t in ts;
      JoiningMore(ts[1..], now, queue, i);
    }
  }

  /** Expiry ends, keeps the invariant and does exactly what `Expired` says: with `ExpiredMeans` this is the
      whole effect of the loop. */
  lemma {:induction false} ExpireDoes(h: Hub, now: nat)
    requires Inv(h)
    ensures Inv(Expire(h, now)) && Expired(h, now, Expire(h, now))
    decreases |h.timers|
  {
    hide Inv, Fire, Due;
    if h.timers == [] || h.timers[0].value > now {
      NothingDue(h, now);
    } else {
      FireInv(h);
      ExpireDoes(Fire(h), now);
      ExpiredOn(h, now, Expire(Fire(h), now));
    }
  }

  lemma NothingDue(h: Hub, now: nat)
    requires Inv(h) && (h.timers == [] || h.timers[0].value > now)
    ensures Expired(h, now, h)
  {
    NoneLater(h.timers, now, h.queue);
    assert forall i :: !Due(h, now, i);
  }

  /** The due requests: the first one and those due after it has fired. */
  lemma DueOn(h: Hub, now: nat)
    requires Inv(h) && h.timers != [] && h.timers[0].value <= now
    ensures !Due(Fire(h), now, h.timers[0].core)
    ensures forall j :: Due(h, now, j) <==> Due(Fire(h), now, j) || j == h.timers[0].core
  {
    var i, f := h.timers[0].core, Fire(h);
    FireEffect(h);
    assert forall j :: Due(h.(timers := h.timers[1..]), now, j) <==> Due(f, now, j);
    assert Sorted(h.timers);
    hide Inv, Fire;
    forall j
      ensures Due(h, now, j) <==> Due(f, now, j) || j == i
    {
      DueAfterFire(h, now, j);
    }
    DueAfterFire(h, now, i);
  }

  /** One firing, then the rest. */
  lemma ExpiredOn(h: Hub, now: nat, u: Hub)
    requires Inv(h) && h.timers != [] && h.timers[0].value <= now && Expired(Fire(h), now, u)
    ensures Expired(h, now, u)
  {
    hide Inv, Fire, Due, Woken;
    ExpiredReqs(h, now, u);
    ExpiredQueue(h, now, u);
  }

  lemma ExpiredQueue(h: Hub, now: nat, u: Hub)
    requires Inv(h) && h.timers != [] && h.timers[0].value <= now && Expired(Fire(h), now, u)
    ensures u.timers == Later(h.timers, now) && u.queue == h.queue + Joining(h.timers, now, h.queue)
  {
    FireEffect(h);
    FirstGone(h.timers);
    JoinOne(h.timers, now, h.queue);
    hide Inv, Fire, Due, Woken, HasTimer, Joining;
  }

  lemma JoinOne(ts: seq<Timer>, now: nat, queue: seq<nat>)
    requires ts != [] && ts[0].value <= now && !HasTimer(ts[1..], ts[0].core)
    ensures var q := if ts[0].core in queue then queue else queue + [ts[0].core];
            q + Joining(ts[1..], now, q) == queue + Joining(ts, now, queue)
  {
    var i, js := ts[0].core, Joining(ts[1..], now, queue);
    if i !in queue {
      JoiningMore(ts[1..], now, queue, i);
      assert Joining(ts, now, queue) == [i] + js;
      assert (queue + [i]) + js == queue + ([i] + js);
    } else {
      assert Joining(ts, now, queue) == js;
    }
  }

  lemma ExpiredReqs(h: Hub, now: nat, u: Hub)
    requires Inv(h) && h.timers != [] && h.timers[0].value <= now && Expired(Fire(h), now, u)
    ensures |u.reqs| == |h.reqs| && forall i :: 0 <= i < |h.reqs| ==> u.reqs[i] == if Due(h, now, i) then Woken(h.reqs[i]) else h.reqs[i]
    ensures |u.table| == |h.table| && forall fd :: 0 <= fd < |h.table| ==> u.table[fd] == if Due(h, now, h.table[fd]) then -1 else h.table[fd]
  {
    FireEffect(h);
    DueOn(h, now);
    MinusOne(h, now);
    hide Inv, Fire, Due, Later, Joining;
  }

  lemma MinusOne(h: Hub, now: nat)
    ensures !Due(h, now, -1) && (Inv(h) && h.timers != [] ==> !Due(Fire(h), now, -1))
  {
  }

  lemma FirstGone(ts: seq<Timer>)
    requires ts != [] && Sorted(ts)
    ensures !HasTimer(ts[1..], ts[0].core)
  {
  }

  /** After expiry: no timer is due; every request whose timer fired is flagged as timed out, waits on no descriptor,
      is in no entry of the table and exactly once in the queue; every other request has kept its fields, its table
      entries and its place in the queue or out of it. */
  lemma ExpiredMeans(h: Hub, now: nat, i: nat)
    requires Inv(h) && i < |h.reqs|
    ensures var u := Expire(h, now);
            ((forall t :: t in u.timers ==> t.value > now) &&
             if Due(h, now, i) then
               u.reqs[i].timedOut && !u.reqs[i].timer && u.reqs[i].waiting == [] && i !in u.table &&
               multiset(u.queue)[i] == 1
             else
               u.reqs[i] == h.reqs[i] && (forall fd :: 0 <= fd < |h.table| ==> (u.table[fd] == i <==> h.table[fd] == i)) &&
               multiset(u.queue)[i] == multiset(h.queue)[i])
  {
    hide Expire, TimersOk, TableOk;
    var u := Expire(h, now);
    ExpireDoes(h, now);
    LaterOnly(h.timers, now);
    JoiningHas(h.timers, now, h.queue, i);
    OnceOrNot(u, i);
    OnceOrNot(h, i);
    assert Due(h, now, i) <==> exists t :: t in h.timers && t.core == i && t.value <= now;
    hide Due;
  }

  lemma OnceOrNot(h: Hub, i: nat)
    requires QueueOk(h)
    ensures multiset(h.queue)[i] == if i in h.queue then 1 else 0
  {
    CountOnce(h.queue, i);
  }

  lemma {:induction false} CountOnce(q: seq<nat>, i: nat)
    requires forall a, b :: 0 <= a < b < |q| ==> q[a] != q[b]
    ensures multiset(q)[i] == if i in q then 1 else 0
  {
    if q != [] {
      CountOnce(q[1..], i);
      assert q == [q[0]] + q[1..];
    }
  }

  lemma {:induction false} LaterOnly(ts: seq<Timer>, now: nat)
    ensures forall t :: t in Later(ts, now) ==> t.value > now
  {
    if ts != [] { LaterOnly(ts[1..], now); }
  }

  lemma {:induction false} JoiningHas(ts: seq<Timer>, now: nat, queue: seq<nat>, i: nat)
    ensures i in Joining(ts, now, queue) <==> i !in queue && exists t :: t in ts && t.core == i && t.value <= now
  {
    if ts != [] {
      JoiningHas(ts[1..], now, queue, i);
      assert ts == [ts[0]] + ts[1..];
      assert ts[0] in ts;
    }
  }

  // ---- when a request is woken ------------------------------------------------------------------------

  /** A new timer goes behind all timers that are not later, and before all later ones. */
  lemma {:induction false} InsertPlace(ts: seq<Timer>, t: Timer) returns (k: nat)
    requires Sorted(ts)
    ensures k <= |ts| && Insert(ts, t) == ts[..k] + [t] + ts[k..]
    ensures (forall j :: 0 <= j < k ==> ts[j].value <= t.value) && (forall j :: k <= j < |ts| ==> ts[j].value > t.value)
  {
    if ts == [] || t.value < ts[0].value {
      k := 0;
    } else {
      assert Sorted(ts[1..]);
      var m := InsertPlace(ts[1..], t);
      k := m + 1;
      assert ts[..k] == [ts[0]] + ts[1..][..m] && ts[k..] == ts[1..][m..];
    }
  }

  /** Expiry at `now` makes `u` of request `j`: woken or as it was. */
  predicate WokenIf(h: Hub, now: nat, j: nat, due: bool)
    requires Inv(h) && j < |h.reqs|
  {
    var u := Expire(h, now);
    if due then u.reqs[j] == h.reqs[j].(timedOut := true, timer := false, waiting := []) && j in u.queue
    else u.reqs[j] == h.reqs[j] && (j in u.queue <==> j in h.queue)
  }

  lemma ExpireWakes(h: Hub, now: nat, j: nat)
    requires Inv(h) && j < |h.reqs|
    ensures WokenIf(h, now, j, Due(h, now, j))
  {
    hide Expire, Inv, Due;
    ExpireDoes(h, now);
    DueJoins(h, now, j);
  }

  lemma DueJoins(h: Hub, now: nat, j: nat)
    ensures j in h.queue + Joining(h.timers, now, h.queue) <==> j in h.queue || Due(h, now, j)
  {
    JoiningHas(h.timers, now, h.queue, j);
  }

  /** A request with no timer is not due, whatever the time. */
  lemma NoTimerNotDue(h: Hub, now: nat, j: nat)
    requires Inv(h) && j < |h.reqs| && !h.reqs[j].timer
    ensures !Due(h, now, j)
  {
  }

  /** Timers after a new one for `i`. */
  lemma DueAfterInsert(h: Hub, u: Hub, i: nat, value: nat, t: nat, j: int)
    requires Sorted(h.timers) && !HasTimer(h.timers, i) && u.timers == Insert(h.timers, Timer(value, i))
    ensures Due(u, t, j) <==> if j == i then t >= value else Due(h, t, j)
  {
    InsertSorted(h.timers, Timer(value, i));
    assert Timer(value, i) in u.timers;
  }

  /** A timeout makes the request, if it had no timer, be woken by every expiry from `timeout` seconds on and by none before; one
      that had a timer is woken as it would have been, and so is everybody else. */
  lemma TimeoutWakes(h: Hub, i: nat, timeout: int, now: nat, t: nat, j: nat)
    requires Inv(h) && i < |h.reqs| && j < |h.reqs|
    ensures var u := AddTimeout(h, i, timeout, now);
            (Inv(u) && |u.reqs| == |h.reqs| && u.table == h.table && u.queue == h.queue &&
             (j != i ==> u.reqs[j] == h.reqs[j]) &&
             u.reqs[i] == h.reqs[i].(readyFd := false, timer := h.reqs[i].timer || timeout > 0) &&
             WokenIf(u, t, j, if j == i && timeout > 0 && !h.reqs[i].timer then t >= now + timeout else Due(h, t, j)))
  {
    hide Inv, Expire, Insert, WokenIf, Due;
    AddTimeoutInv(h, i, timeout, now);
    var u := AddTimeout(h, i, timeout, now);
    ExpireWakes(u, t, j);
    NewTimerDue(h, u, i, timeout, now, t, j);
  }

  lemma NoTimerListed(h: Hub, i: nat)
    requires Inv(h) && i < |h.reqs| && !h.reqs[i].timer
    ensures Sorted(h.timers) && !HasTimer(h.timers, i)
  {
  }

  /** The same for a wait on a descriptor, which is entered for the request; it has the descriptor last in its list. */
  lemma WaitWakes(h: Hub, i: nat, fd: nat, timeout: int, now: nat, t: nat, j: nat)
    requires Inv(h) && i < |h.reqs| && j < |h.reqs| && fd < |h.table| && FreeFor(h, fd, i)
    ensures var u := AddFd(h, i, fd, timeout, now);
            (Inv(u) && |u.reqs| == |h.reqs| && u.table == h.table[fd := i as int] && u.queue == h.queue &&
             (j != i ==> u.reqs[j] == h.reqs[j]) &&
             u.reqs[i].waiting == h.reqs[i].waiting + [fd] && u.reqs[i].forceAgain && (u.reqs[i].timer <==> h.reqs[i].timer || timeout > 0) &&
             WokenIf(u, t, j, if j == i && timeout > 0 && !h.reqs[i].timer then t >= now + timeout else Due(h, t, j)))
  {
    hide Inv, Expire, Insert, WokenIf, Due;
    AddFdInvIff(h, i, fd, timeout, now);
    WaitTimers(h, i, fd, timeout, now);
    var u := AddFd(h, i, fd, timeout, now);
    ExpireWakes(u, t, j);
    NewTimerDue(h, u, i, timeout, now, t, j);
  }

  /** The timers after a timeout for `i`. */
  function Timed(h: Hub, i: nat, timeout: int, now: nat): seq<Timer>
    requires i < |h.reqs|
  {
    if timeout > 0 && !h.reqs[i].timer then Insert(h.timers, Timer(now + timeout, i)) else h.timers
  }

  lemma WaitTimers(h: Hub, i: nat, fd: nat, timeout: int, now: nat)
    requires i < |h.reqs| && fd < |h.table|
    ensures AddFd(h, i, fd, timeout, now).timers == Timed(h, i, timeout, now)
  {
  }

  lemma NewTimerDue(h: Hub, u: Hub, i: nat, timeout: int, now: nat, t: nat, j: nat)
    requires Inv(h) && i < |h.reqs| && u.timers == Timed(h, i, timeout, now)
    ensures Due(u, t, j) <==> if j == i && timeout > 0 && !h.reqs[i].timer then t >= now + timeout else Due(h, t, j)
  {
    if timeout > 0 && !h.reqs[i].timer {
      NoTimerListed(h, i);
      DueAfterInsert(h, u, i, now + timeout, t, j);
    }
    hide Inv, Insert;
  }

  /** A ready descriptor: the request that waits on it is told which one it is, waits on nothing more, has no timer, and is
      queued once - behind the others if it was not queued before; all other requests, their timers and their descriptors
      are as before. */
  lemma ReadyMeans(h: Hub, fd: nat, t: nat, j: nat)
    requires Inv(h) && fd < |h.table| && h.table[fd] >= 0 && j < |h.reqs|
    ensures h.table[fd] < |h.reqs|
    ensures var i, u := h.table[fd], Ready(h, fd);
            (Inv(u) && u.reqs[i] == h.reqs[i].(timer := false, waiting := [], readyFd := true, lastFd := fd) && !Due(u, t, i) &&
             u.queue == (if i in h.queue then h.queue else h.queue + [i as nat]) && multiset(u.queue)[i as nat] == 1)
    ensures var i, u := h.table[fd], Ready(h, fd);
            (|u.reqs| == |h.reqs| && (j != i ==> u.reqs[j] == h.reqs[j] && (Due(u, t, j) <==> Due(h, t, j))))
    ensures var i, u := h.table[fd], Ready(h, fd);
            (|u.table| == |h.table| && forall f :: 0 <= f < |h.table| ==> u.table[f] == if h.table[f] == i then -1 else h.table[f])
  {
    ReadyInv(h, fd);
    var i, u := h.table[fd], Ready(h, fd);
    ResetTable(h, i);
    OnceOrNot(u, i);
    NoTimerNotDue(u, t, i);
    if j != i { ReadyDue(h, i, u, t, j); }
    hide Inv, Due, Remove;
  }

  lemma ReadyDue(h: Hub, i: nat, u: Hub, t: nat, j: nat)
    requires i < |h.reqs| && u.timers == Reset(h, i).timers && j != i
    ensures Due(u, t, j) <==> Due(h, t, j)
  {
    RemoveFirst(h.timers, i);
  }

  // ---- runs ---------------------------------------------------------------------------------------

  datatype Op =
    | Wait(core: nat, fd: int, timeout: int, now: nat)
    | Sleep(core: nat, timeout: int, now: nat)
    | Event(ready: nat)
    | Tick(now: nat)
    | Queue(core: nat)
    | Run(k: nat)
    | End(core: nat)

  /** The operation can be asked for: existing requests and descriptors, and no descriptor that another request waits on. */
  predicate Allowed(h: Hub, op: Op) {
    match op
    case Wait(i, fd, _, _) => i < |h.reqs| && fd < |h.table| && FreeFor(h, fd, i)
    case Sleep(i, _, _) => i < |h.reqs|
    case Event(fd) => fd < |h.table| && 0 <= h.table[fd] < |h.reqs|
    case Tick(_) => true
    case Queue(i) => i < |h.reqs|
    case Run(k) => k < |h.queue|
    case End(i) => i < |h.reqs|
  }

  function Step(h: Hub, op: Op): Hub
    requires Inv(h) && Allowed(h, op)
  {
    match op
    case Wait(i, fd, timeout, now) => AddFd(h, i, fd, timeout, now)
    case Sleep(i, timeout, now) => AddTimeout(h, i, timeout, now)
    case Event(fd) => Ready(h, fd)
    case Tick(now) => Expire(h, now)
    case Queue(i) => Push(h, i)
    case Run(k) => Dequeue(h, k)
    case End(i) => Reset(h, i)
  }

  lemma StepInv(h: Hub, op: Op)
    requires Inv(h) && Allowed(h, op)
    ensures Inv(Step(h, op))
  {
    hide Inv;
    match op
    case Wait(i, fd, timeout, now) => if fd >= 0 { AddFdInvIff(h, i, fd, timeout, now); }
    case Sleep(i, timeout, now) => AddTimeoutInv(h, i, timeout, now);
    case Event(fd) => ReadyInv(h, fd);
    case Tick(now) => ExpireDoes(h, now);
    case Queue(i) => PushInv(h, i);
    case Run(k) => DequeueInv(h, k);
    case End(i) => ResetInv(h, i);
  }

  /** Any sequence of operations, those that cannot be asked for left out: the invariant holds all along, so every
      expiry in it does what `ExpiredMeans` says. */
  function RunAll(h: Hub, ops: seq<Op>): (u: Hub)
    requires Inv(h)
    ensures Inv(u)
  {
    if ops == [] then h
    else
      var b := RunAll(h, ops[..|ops| - 1]);
      var op := ops[|ops| - 1];
      if Allowed(b, op) then
        StepInv(b, op);
        Step(b, op)
      else b
  }

  /** The shared descriptor: when another request waits on one of the descriptors of `i`, resetting `i` takes away
      that request's entry; exactly then. */
  lemma SharedFdLost(h: Hub, i: nat)
    requires i < |h.reqs| && forall fd :: fd in h.reqs[i].waiting ==> fd < |h.table|
    ensures (forall fd :: 0 <= fd < |h.table| && h.table[fd] != i ==> Reset(h, i).table[fd] == h.table[fd]) <==>
            (forall fd :: fd in h.reqs[i].waiting ==> FreeFor(h, fd, i))
  {
    var u := Reset(h, i);
    if fd :| fd in h.reqs[i].waiting && !FreeFor(h, fd, i) {
      assert u.table[fd] == -1;
    }
  }

  // ---- the lost wake-up ---------------------------------------------------------------------------

  function Idle(cores: nat, maxFd: nat): Hub {
    Hub(seq(cores, _ => Req(false, false, [], false, 0, false)), [], seq(maxFd, _ => -1), [])
  }

  /** `j` waits on a descriptor, but nothing in the hub leads to it any more. */
  predicate Forgotten(h: Hub, j: nat, fd: nat) {
    Waits(h, j, fd) && j !in h.table && j !in h.queue && !h.reqs[j].timer && !HasTimer(h.timers, j)
  }

  /** It is reached: `i` and then `j` wait on the same descriptor, and `i` is reset. */
  lemma SharedFdForgets(cores: nat, maxFd: nat, i: nat, j: nat, fd: nat, now: nat)
    requires i < cores && j < cores && i != j && fd < maxFd
    ensures var a := AddFd(Idle(cores, maxFd), i, fd, 0, now);
            Allowed(Idle(cores, maxFd), Wait(i, fd, 0, now)) && !FreeFor(a, fd, j) && Forgotten(Reset(AddFd(a, j, fd, 0, now), i), j, fd)
  {
    var a := AddFd(Idle(cores, maxFd), i, fd, 0, now);
    var b := AddFd(a, j, fd, 0, now);
    var u := Reset(b, i);
    assert b.reqs[i].waiting == [fd] && b.reqs[j].waiting == [fd];
    assert forall f :: 0 <= f < maxFd ==> u.table[f] == -1;
  }

  /** What can happen without `j` asking for anything: events, firings of due timers, and the other requests' own operations. */
  predicate Elsewhere(h: Hub, op: Op, j: nat) {
    match op
    case Wait(i, fd, _, _) => i < |h.reqs| && fd < |h.table| && i != j
    case Sleep(i, _, _) => i < |h.reqs| && i != j
    case Event(fd) => fd < |h.table| && 0 <= h.table[fd] < |h.reqs|
    case Tick(now) => h.timers != [] && h.timers[0].value <= now && h.timers[0].core < |h.reqs|
    case Queue(i) => i < |h.reqs| && i != j
    case Run(k) => k < |h.queue|
    case End(i) => i < |h.reqs| && i != j
  }

  /** One of these, whatever state the hub is in; of an expiry, one firing. */
  function Bare(h: Hub, op: Op, j: nat): Hub
    requires Elsewhere(h, op, j)
  {
    match op
    case Wait(i, fd, timeout, now) => AddFd(h, i, fd, timeout, now)
    case Sleep(i, timeout, now) => AddTimeout(h, i, timeout, now)
    case Event(fd) => Ready(h, fd)
    case Tick(now) => Fire(h)
    case Queue(i) => Push(h, i)
    case Run(k) => Dequeue(h, k)
    case End(i) => Reset(h, i)
  }

  function BareRun(h: Hub, ops: seq<Op>, j: nat): Hub {
    if ops == [] then h
    else
      var b := BareRun(h, ops[..|ops| - 1], j);
      if Elsewhere(b, ops[|ops| - 1], j) then Bare(b, ops[|ops| - 1], j) else b
  }

  lemma {:induction false} InsertHas(ts: seq<Timer>, t: Timer, j: nat)
    ensures HasTimer(Insert(ts, t), j) ==> t.core == j || HasTimer(ts, j)
  {
    if ts != [] && t.value >= ts[0].value {
      InsertHas(ts[1..], t, j);
      assert ts == [ts[0]] + ts[1..];
      assert forall u :: u in ts[1..] ==> u in ts;
      assert ts[0] in ts;
    } else {
      assert forall u :: u in [t] + ts ==> u == t || u in ts;
    }
  }

  lemma ResetForgotten(h: Hub, i: nat, j: nat, fd: nat)
    requires Forgotten(h, j, fd) && i < |h.reqs| && i != j
    ensures Forgotten(Reset(h, i), j, fd)
  {
    RemoveFirst(h.timers, i);
  }

  lemma AddTimeoutForgotten(h: Hub, i: nat, timeout: int, now: nat, j: nat, fd: nat)
    requires Forgotten(h, j, fd) && i < |h.reqs| && i != j
    ensures Forgotten(AddTimeout(h, i, timeout, now), j, fd)
  {
    InsertHas(h.timers, Timer(now + if timeout > 0 then timeout else 0, i), j);
  }

  lemma BareForgotten(h: Hub, op: Op, j: nat, fd: nat)
    requires Forgotten(h, j, fd) && Elsewhere(h, op, j)
    ensures Forgotten(Bare(h, op, j), j, fd)
  {
    match op
    case Wait(i, f, timeout, now) =>
      if f >= 0 {
        var a := h.(reqs := h.reqs[i := h.reqs[i].(waiting := h.reqs[i].waiting + [f])]);
        assert Forgotten(a, j, fd);
        if timeout > 0 { AddTimeoutForgotten(a, i, timeout, now, j, fd); }
        hide AddTimeout, HasTimer;
      }
    case Sleep(i, timeout, now) => AddTimeoutForgotten(h, i, timeout, now, j, fd);
    case Event(f) => ResetForgotten(h, h.table[f], j, fd); hide Reset, HasTimer;
    case Tick(now) =>
      var i := h.timers[0].core;
      assert h.timers[0] in h.timers;
      assert i != j && Forgotten(TimedOut(h, i), j, fd);
      ResetForgotten(TimedOut(h, i), i, j, fd);
      hide Reset, HasTimer;
    case Queue(i) =>
    case Run(k) => hide HasTimer;
    case End(i) => ResetForgotten(h, i, j, fd);
  }

  /** No event, no expiry and nothing any other request does ever wakes it. */
  lemma {:induction false} NeverWoken(h: Hub, ops: seq<Op>, j: nat, fd: nat)
    requires Forgotten(h, j, fd)
    ensures Forgotten(BareRun(h, ops, j), j, fd)
  {
    hide Forgotten, Bare, Elsewhere;
    if ops != [] {
      var b, op := BareRun(h, ops[..|ops| - 1], j), ops[|ops| - 1];
      NeverWoken(h, ops[..|ops| - 1], j, fd);
      if Elsewhere(b, op, j) { BareForgotten(b, op, j, fd); }
    }
  }
}
