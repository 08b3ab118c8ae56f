/** Atomicity of order commits: a commit that is answered with an error leaves stock, sales, orders,
    order lines and every other commit exactly as if it had never begun. */
module OrderAtomic {

  import opened OrderModel

  function Who(e: Event): nat {
    e.p
  }

  /** The events of everyone but `p`. */
  function Others(es: seq<Event>, p: nat): seq<Event> {
    if es == [] then []
    else Others(es[..|es| - 1], p) + if Who(es[|es| - 1]) == p then [] else [es[|es| - 1]]
  }

  /** The shop as if `p` had not begun: its writes undone, its locks and its own state gone. */
  function Erased(s: Sys, p: nat): Sys {
    var u := Undone(s, p);
    u.(txns := s.txns - {p})
  }

  predicate Committed(s: Sys, p: nat) {
    p in s.txns && s.txns[p].phase == Answered(5)
  }

  lemma ErasedWith(s: Sys, p: nat, t: Txn)
    ensures Erased(With(s, p, t), p) == Erased(s, p)
  {
    var u := With(s, p, t);
    assert u.txns - {p} == s.txns - {p};
    assert Held(u, p) == Held(s, p);
    SameErased(s, u, p);
  }

  /** Equality of two erased shops, piece by piece. */
  lemma SameErased(s: Sys, u: Sys, p: nat)
    requires s.rows.Keys == u.rows.Keys && s.committed == u.committed && s.past == u.past
    requires s.orders == u.orders && s.lines == u.lines && s.txns - {p} == u.txns - {p}
    requires s.locks - Held(s, p) == u.locks - Held(u, p)
    requires forall k :: k in s.rows ==> Erased(s, p).rows[k] == Erased(u, p).rows[k]
    ensures Erased(s, p) == Erased(u, p)
  {
    assert Erased(s, p).rows == Erased(u, p).rows;
  }

  lemma ErasedUndone(s: Sys, p: nat)
    ensures Erased(Undone(s, p), p) == Erased(s, p)
  {
    var u := Undone(s, p);
    assert Held(u, p) == {};
    assert u.locks - {} == u.locks;
    SameErased(s, u, p);
  }

  lemma ErasedAbort(s: Sys, p: nat, code: int)
    requires p in s.txns
    ensures Erased(Abort(s, p, code), p) == Erased(s, p)
  {
    hide Erased, Undone;
    ErasedWith(Undone(s, p), p, s.txns[p].(phase := Answered(code), lines := []));
    ErasedUndone(s, p);
  }

  lemma RowOf(start: map<Sku, Row>, s: Sys, k: Sku)
    requires RowsOk(start, s) && k in s.rows
    ensures k in s.committed && (k !in s.locks ==> s.rows[k] == s.committed[k])
  {
    hide Balanced, AllBalanced;
    assert RowOk(start, s, k);
  }

  lemma OwnWrite(s: Sys, p: nat, k: Sku, row: Row)
    requires k in s.rows && k in s.committed && if k in s.locks then s.locks[k] == p else s.rows[k] == s.committed[k]
    ensures Erased(s.(rows := s.rows[k := row], locks := s.locks[k := p]), p) == Erased(s, p)
  {
    var v := s.(rows := s.rows[k := row], locks := s.locks[k := p]);
    assert Held(v, p) == Held(s, p) + {k};
    assert v.locks - Held(v, p) == s.locks - Held(s, p);
    SameErased(s, v, p);
  }

  lemma ErasedSwap(start: map<Sku, Row>, s: Sys, p: nat)
    requires RowsOk(start, s) && Enabled(s, Swap(p))
    ensures Erased(SwapRow(s, p), p) == Erased(s, p)
  {
    hide Erased, RowsOk;
    var t := s.txns[p];
    var k, r, c := t.skus[t.pos], t.phase.row, t.phase.count;
    if s.rows[k].stock == r.stock {
      var row := s.rows[k].(stock := r.stock - c, sales := r.sales + c);
      RowOf(start, s, k);
      OwnWrite(s, p, k, row);
      ErasedWith(s.(rows := s.rows[k := row], locks := s.locks[k := p]), p, t.(phase := Swapped(r, c)));
    } else if t.attempt == 0 {
      ErasedWith(s, p, t.(phase := Looping, attempt := 1));
    } else {
      ErasedWith(s, p, t.(phase := Looping, attempt := 0, pos := t.pos + 1));
    }
  }

  /** Nothing `p` does shows in the shop without it, until it commits. */
  lemma OwnStep(start: map<Sku, Row>, s: Sys, e: Event)
    requires RowsOk(start, s) && Enabled(s, e) && !Committed(React(s, e), Who(e))
    ensures Erased(React(s, e), Who(e)) == Erased(s, Who(e))
  {
    hide Erased, Undone, RowsOk, SwapRow, Recorded;
    match e
    case Begin(p, o, ks) => ErasedWith(s, p, Txn(o, ks, Starting, 0, 0, 0, 0, []));
    case Create(p) =>
      if s.txns[p].order in s.orders { ErasedAbort(s, p, 7); } else { ErasedWith(s, p, s.txns[p].(phase := Looping)); }
    case Read(p, r, c) =>
      if c > r.stock { ErasedAbort(s, p, 6); } else { ErasedWith(s, p, s.txns[p].(phase := HaveRow(r, c))); }
    case Missing(p) => ErasedAbort(s, p, 4);
    case Swap(p) => ErasedSwap(start, s, p);
    case Record(p) => ErasedWith(s, p, Recorded(s.txns[p]));
    case Finish(p) =>
    case Fail(p) => ErasedAbort(s, p, 7);
  }

  // ---- the steps of others --------------------------------------------------------------------

  lemma StillEnabled(s: Sys, p: nat, e: Event)
    requires Enabled(s, e) && Who(e) != p
    ensures Enabled(Erased(s, p), e)
  {
    var u := Erased(s, p);
    assert forall q :: Created(u, q) ==> Created(s, q) && u.txns[q] == s.txns[q];
  }

  lemma OtherWith(s: Sys, p: nat, q: nat, t: Txn)
    requires p != q
    ensures Erased(With(s, q, t), p) == With(Erased(s, p), q, t)
  {
    var u := With(s, q, t);
    assert Held(u, p) == Held(s, p);
    assert u.txns - {p} == (s.txns - {p})[q := t];
    assert Erased(u, p).rows == Erased(s, p).rows;
  }

  lemma HeldErased(s: Sys, p: nat, q: nat)
    requires p != q
    ensures Held(Erased(s, p), q) == Held(s, q)
  {
  }

  lemma OtherUndone(s: Sys, p: nat, q: nat)
    requires p != q
    ensures Erased(Undone(s, q), p) == Undone(Erased(s, p), q)
  {
    HeldErased(s, p, q);
    var a, b := Undone(s, q), Erased(s, p);
    assert Held(a, p) == Held(s, p);
    assert a.locks - Held(a, p) == b.locks - Held(b, q);
    assert Erased(a, p).rows == Undone(b, q).rows;
  }

  lemma OtherAbort(s: Sys, p: nat, q: nat, code: int)
    requires p != q && q in s.txns
    ensures Erased(Abort(s, q, code), p) == Abort(Erased(s, p), q, code)
  {
    var t := s.txns[q].(phase := Answered(code), lines := []);
    OtherUndone(s, p, q);
    OtherWith(Undone(s, q), p, q, t);
    assert Erased(s, p).txns[q] == s.txns[q];
    hide Undone;
  }

  lemma OtherSwap(s: Sys, p: nat, q: nat)
    requires p != q && Enabled(s, Swap(q))
    ensures Enabled(Erased(s, p), Swap(q))
    ensures Erased(SwapRow(s, q), p) == SwapRow(Erased(s, p), q)
  {
    hide Erased, With;
    var t := s.txns[q];
    StillEnabled(s, p, Swap(q));
    UntouchedRow(s, p, q, t.skus[t.pos]);
    if s.rows[t.skus[t.pos]].stock == t.phase.row.stock {
      OtherHit(s, p, q);
    } else if t.attempt == 0 {
      OtherWith(s, p, q, t.(phase := Looping, attempt := 1));
    } else {
      OtherWith(s, p, q, t.(phase := Looping, attempt := 0, pos := t.pos + 1));
    }
  }

  lemma OtherHit(s: Sys, p: nat, q: nat)
    requires p != q && Hits(s, q) && Enabled(Erased(s, p), Swap(q))
    ensures Erased(SwapRow(s, q), p) == SwapRow(Erased(s, p), q)
  {
    hide Erased, With;
    var t, b := s.txns[q], Erased(s, p);
    var k, r, c := t.skus[t.pos], t.phase.row, t.phase.count;
    var row, u := s.rows[k].(stock := r.stock - c, sales := r.sales + c), t.(phase := Swapped(r, c));
    UntouchedRow(s, p, q, k);
    OtherWrite(s, p, q, k, row);
    OtherWith(s.(rows := s.rows[k := row], locks := s.locks[k := q]), p, q, u);
  }

  lemma UntouchedRow(s: Sys, p: nat, q: nat, k: Sku)
    requires p != q && k in s.rows && (k in s.locks ==> s.locks[k] == q)
    ensures var b := Erased(s, p); k in b.rows && b.rows[k] == s.rows[k] && (q in s.txns ==> q in b.txns && b.txns[q] == s.txns[q])
  {
  }

  lemma OtherWrite(s: Sys, p: nat, q: nat, k: Sku, row: Row)
    requires p != q && k in s.rows && (k in s.locks ==> s.locks[k] == q)
    ensures var b := Erased(s, p);
            (Erased(s.(rows := s.rows[k := row], locks := s.locks[k := q]), p) ==
             b.(rows := b.rows[k := row], locks := b.locks[k := q]))
  {
    var a := s.(rows := s.rows[k := row], locks := s.locks[k := q]);
    WriteHeld(s, p, q, k, row);
    hide Held;
    assert a.locks - Held(s, p) == (s.locks - Held(s, p))[k := q];
    assert Erased(a, p).rows == Erased(s, p).rows[k := row];
  }

  lemma WriteHeld(s: Sys, p: nat, q: nat, k: Sku, row: Row)
    requires p != q && (k in s.locks ==> s.locks[k] == q)
    ensures Held(s.(rows := s.rows[k := row], locks := s.locks[k := q]), p) == Held(s, p) && k !in Held(s, p)
  {
  }

  lemma OtherCommit(s: Sys, p: nat, q: nat)
    requires p != q && q in s.txns
    ensures Erased(Commit(s, q), p) == Commit(Erased(s, p), q)
  {
    HeldErased(s, p, q);
    CommittedAlike(s, p, q);
    CommitHeld(s, p, q);
    hide Held;
    var a, c := Commit(s, q), Commit(Erased(s, p), q);
    assert (s.locks - Held(s, q)) - Held(s, p) == (s.locks - Held(s, p)) - Held(s, q);
    assert a.txns - {p} == c.txns;
    assert Erased(a, p).rows == c.rows;
  }

  lemma CommitHeld(s: Sys, p: nat, q: nat)
    requires p != q && q in s.txns
    ensures Held(Commit(s, q), p) == Held(s, p) && Held(s, p) * Held(s, q) == {}
  {
  }

  lemma CommittedAlike(s: Sys, p: nat, q: nat)
    requires p != q && q in s.txns
    ensures var b := Erased(s, p);
            (q in b.txns && Commit(s, q).committed == Commit(b, q).committed && Commit(s, q).past == Commit(b, q).past)
  {
    HeldErased(s, p, q);
    var a, c := Commit(s, q), Commit(Erased(s, p), q);
    assert a.committed == c.committed;
    assert a.past == c.past;
  }

  /** Everyone else does the same in the shop without `p`. */
  lemma OtherStep(s: Sys, p: nat, e: Event)
    requires Enabled(s, e) && Who(e) != p
    ensures Enabled(Erased(s, p), e) && React(Erased(s, p), e) == Erased(React(s, e), p)
  {
    StillEnabled(s, p, e);
    var b := Erased(s, p);
    assert b.orders == s.orders && forall q :: q != p && q in s.txns ==> q in b.txns && b.txns[q] == s.txns[q];
    hide Erased, Undone, SwapRow, Recorded, Abort, Commit, Contended;
    match e
    case Begin(q, o, ks) => OtherWith(s, p, q, Txn(o, ks, Starting, 0, 0, 0, 0, []));
    case Create(q) =>
      if s.txns[q].order in s.orders { OtherAbort(s, p, q, 7); } else { OtherWith(s, p, q, s.txns[q].(phase := Looping)); }
    case Read(q, r, c) =>
      if c > r.stock { OtherAbort(s, p, q, 6); } else { OtherWith(s, p, q, s.txns[q].(phase := HaveRow(r, c))); }
    case Missing(q) => OtherAbort(s, p, q, 4);
    case Swap(q) => OtherSwap(s, p, q);
    case Record(q) => OtherWith(s, p, q, Recorded(s.txns[q]));
    case Finish(q) => OtherCommit(s, p, q);
    case Fail(q) => OtherAbort(s, p, q, 7);
  }

  /** An answer is final. */
  lemma StaysCommitted(s: Sys, p: nat, e: Event)
    requires Enabled(s, e) && Committed(s, p)
    ensures Committed(React(s, e), p)
  {
  }

  // ---- over whole runs --------------------------------------------------------------------------

  lemma {:induction false} RunErased(s: Sys, es: seq<Event>, p: nat)
    requires Quiet(s) && Possible(s, es) && !Committed(Run(s, es), p)
    ensures Possible(s, Others(es, p)) && Run(s, Others(es, p)) == Erased(Run(s, es), p)
  {
    hide Enabled, React, Erased, Quiet, Committed, Inv;
    if es == [] {
      NothingToErase(s, p);
    } else {
      var bs, e := es[..|es| - 1], es[|es| - 1];
      var b := Run(s, bs);
      if Committed(b, p) { StaysCommitted(b, p, e); }
      RunErased(s, bs, p);
      RunInv(s, bs);
      if Who(e) == p {
        InvRows(Origin(s), b);
        OwnStep(Origin(s), b, e);
        assert Others(es, p) == Others(bs, p);
      } else {
        OtherStep(b, p, e);
        var fs := Others(es, p);
        assert fs[..|fs| - 1] == Others(bs, p) && fs[|fs| - 1] == e;
      }
    }
  }

  lemma InvRows(start: map<Sku, Row>, s: Sys)
    requires Inv(start, s)
    ensures RowsOk(start, s)
  {
  }

  lemma NothingToErase(s: Sys, p: nat)
    requires Quiet(s)
    ensures Erased(s, p) == s
  {
    assert Held(s, p) == {};
    assert Erased(s, p).rows == s.rows;
  }

  /** A commit that was answered with an error - product missing, stock short, order id taken, any failure -
      leaves everything as in the run in which it never took part: every row, order, line and other commit. */
  lemma AbortedLeavesNoTrace(s: Sys, es: seq<Event>, p: nat)
    requires Quiet(s) && Possible(s, es)
    requires var u := Run(s, es); p in u.txns && u.txns[p].phase.Answered? && u.txns[p].phase.code != 5
    ensures var u, v := Run(s, es), Run(s, Others(es, p));
            (Possible(s, Others(es, p)) && v.txns == u.txns - {p} && v.rows == u.rows && v.committed == u.committed &&
             v.past == u.past && v.locks == u.locks && v.orders == u.orders && v.lines == u.lines)
  {
    hide Run, Quiet, Possible, Others, Inv;
    RunErased(s, es, p);
    RunInv(s, es);
    var u := Run(s, es);
    AnsweredHoldsNothing(Origin(s), u, p);
    ErasedIdle(u, p);
  }

  lemma ErasedIdle(s: Sys, p: nat)
    requires forall k :: !Holds(s, p, k)
    ensures Erased(s, p) == s.(txns := s.txns - {p})
  {
    assert Held(s, p) == {};
    assert s.locks - {} == s.locks;
    assert Erased(s, p).rows == s.rows;
  }

  lemma AnsweredHoldsNothing(start: map<Sku, Row>, s: Sys, p: nat)
    requires Inv(start, s) && !Active(s, p)
    ensures forall k :: !Holds(s, p, k)
  {
    hide SalesOk, OrdersOk, TxnOk, Balanced;
    forall k
      ensures !Holds(s, p, k)
    {
      if k in s.locks { assert RowOk(start, s, k); }
    }
  }
}
