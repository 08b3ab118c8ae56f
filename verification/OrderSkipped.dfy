/** What became of the requested items: each one has a line or lost its conditional update twice.  The branch that
    would abort after a third loss is never reached, so a commit can succeed with items missing. */
module OrderSkipped {

  import opened OrderModel

  /** A second lost conditional update of `p`: the item is given up. */
  predicate GivesUp(s: Sys, e: Event, p: nat) {
    e == Swap(p) && Enabled(s, e) && s.txns[p].attempt > 0 &&
    s.rows[s.txns[p].skus[s.txns[p].pos]].stock != s.txns[p].phase.row.stock
  }

  /** The positions of the items `p` has given up in a run. */
  ghost function GivenUp(s: Sys, es: seq<Event>, p: nat): set<nat> {
    if es == [] then {}
    else
      var b, e := Run(s, es[..|es| - 1]), es[|es| - 1];
      GivenUp(s, es[..|es| - 1], p) + if GivesUp(b, e, p) then {b.txns[p].pos} else {}
  }

  /** The first `n` items without the given-up positions. */
  function Picked(skus: seq<Sku>, n: nat, g: set<nat>): seq<Sku>
    requires n <= |skus|
  {
    if n == 0 then [] else Picked(skus, n - 1, g) + if n - 1 in g then [] else [skus[n - 1]]
  }

  function Skus(lines: seq<Line>): seq<Sku> {
    seq(|lines|, i requires 0 <= i < |lines| => lines[i].sku)
  }

  /** The lines of one order. */
  function LinesOf(lines: seq<Line>, o: OrderId): seq<Line> {
    if lines == [] then []
    else LinesOf(lines[..|lines| - 1], o) + if lines[|lines| - 1].order == o then [lines[|lines| - 1]] else []
  }

  lemma {:induction false} PickedSame(skus: seq<Sku>, n: nat, g: set<nat>, h: set<nat>)
    requires n <= |skus| && forall i :: 0 <= i < n ==> (i in g <==> i in h)
    ensures Picked(skus, n, g) == Picked(skus, n, h)
  {
    if n > 0 { PickedSame(skus, n - 1, g, h); }
  }

  /** All items are picked exactly if none is given up. */
  lemma {:induction false} PickedAll(skus: seq<Sku>, n: nat, g: set<nat>)
    requires n <= |skus|
    ensures |Picked(skus, n, g)| <= n
    ensures Picked(skus, n, g) == skus[..n] <==> forall i :: 0 <= i < n ==> i !in g
  {
    if n > 0 {
      PickedAll(skus, n - 1, g);
      assert skus[..n] == skus[..n - 1] + [skus[n - 1]];
      if n - 1 !in g { assert Picked(skus, n, g)[..|Picked(skus, n, g)| - 1] == Picked(skus, n - 1, g); }
    }
  }

  /** The lines are for the items passed and not given up, in their order; a committed order has passed them all. */
  ghost predicate Accounted(t: Txn, g: set<nat>) {
    (t.phase.Answered? ==> t.phase.code == 5) ==>
      && t.pos <= |t.skus| && Skus(t.lines) == Picked(t.skus, t.pos, g)
      && (forall i :: i in g ==> i < t.pos)
      && (t.phase.Answered? ==> t.pos == |t.skus|)
      && (t.phase.HaveRow? || t.phase.Swapped? ==> t.pos < |t.skus|)
  }

  /** A transaction before and after one event. */
  ghost predicate Advances(t: Txn, u: Txn, givesUp: bool) {
    u.skus == t.skus &&
    if u.phase.Answered? && u.phase.code != 5 then true
    else if givesUp then t.phase.HaveRow? && u.phase.Looping? && u.pos == t.pos + 1 && u.lines == t.lines
    else if t.phase.Swapped? && !u.phase.Swapped? then
      t.pos < |t.skus| && u.phase.Looping? && u.pos == t.pos + 1 && u.lines == t.lines + [NewLine(t)]
    else
      && u.pos == t.pos && u.lines == t.lines && (t.phase.Answered? ==> u.phase == t.phase)
      && (u.phase.HaveRow? || u.phase.Swapped? ==> t.pos < |t.skus| || t.phase == u.phase)
      && (u.phase.Answered? && !t.phase.Answered? ==> t.phase.Looping? && t.pos >= |t.skus|)
  }

  lemma StepAdvances(s: Sys, e: Event, p: nat)
    requires Enabled(s, e) && p in s.txns
    ensures p in React(s, e).txns && Advances(s.txns[p], React(s, e).txns[p], GivesUp(s, e, p))
  {
    hide Contended, React;
    StepTxns(s, e);
  }

  lemma AdvanceAccounted(t: Txn, u: Txn, givesUp: bool, g: set<nat>)
    requires Advances(t, u, givesUp) && Accounted(t, g) && (t.phase.Answered? && t.phase.code != 5 ==> u.phase == t.phase)
    ensures Accounted(u, if givesUp then g + {t.pos} else g)
  {
    if !(t.phase.Answered? && t.phase.code != 5) && !(u.phase.Answered? && u.phase.code != 5) {
      if givesUp {
        PickedSame(t.skus, t.pos, g, g + {t.pos});
      } else if t.phase.Swapped? && !u.phase.Swapped? {
        assert Skus(u.lines) == Skus(t.lines) + [t.skus[t.pos]];
      }
    }
  }

  /** A transaction that begins has given nothing up. */
  lemma BeginAccounted(s: Sys, e: Event, p: nat)
    requires Enabled(s, e) && p !in s.txns && p in React(s, e).txns
    ensures Accounted(React(s, e).txns[p], {}) && !GivesUp(s, e, p)
  {
    hide Contended, React;
    StepTxns(s, e);
  }

  lemma AnswersStay(s: Sys, e: Event, p: nat)
    requires Enabled(s, e) && p in s.txns && s.txns[p].phase.Answered?
    ensures p in React(s, e).txns && React(s, e).txns[p] == s.txns[p]
  {
    hide Contended, React, NextTxn;
    StepTxns(s, e);
  }

  /** In every run the lines of a commit are for the items it has passed and not given up, in order. */
  lemma {:induction false} RunAccounted(s: Sys, es: seq<Event>, p: nat)
    requires Quiet(s)
    ensures var u := Run(s, es);
            if p in u.txns then Accounted(u.txns[p], GivenUp(s, es, p)) else GivenUp(s, es, p) == {}
  {
    hide React, Enabled, Accounted, Advances;
    if es == [] {
    } else {
      var bs, e := es[..|es| - 1], es[|es| - 1];
      var b := Run(s, bs);
      RunAccounted(s, bs, p);
      assert GivenUp(s, bs, p) + {} == GivenUp(s, bs, p);
      if !Enabled(b, e) {
        assert !GivesUp(b, e, p);
      } else if p in b.txns {
        StepAdvances(b, e, p);
        if b.txns[p].phase.Answered? { AnswersStay(b, e, p); }
        AdvanceAccounted(b.txns[p], React(b, e).txns[p], GivesUp(b, e, p), GivenUp(s, bs, p));
      } else if p in React(b, e).txns {
        BeginAccounted(b, e, p);
      } else {
        NotThere(b, e, p);
      }
    }
  }

  lemma NotThere(s: Sys, e: Event, p: nat)
    requires p !in s.txns
    ensures !GivesUp(s, e, p)
  {
  }

  // ---- the lines in the shop ---------------------------------------------------------------------------

  lemma {:induction false} LinesOfConcat(a: seq<Line>, b: seq<Line>, o: OrderId)
    ensures LinesOf(a + b, o) == LinesOf(a, o) + LinesOf(b, o)
  {
    if b == [] {
      assert a + b == a;
    } else {
      LinesOfConcat(a, b[..|b| - 1], o);
      assert (a + b)[..|a + b| - 1] == a + b[..|b| - 1];
    }
  }

  lemma {:induction false} AllOrNone(a: seq<Line>, o: OrderId)
    ensures (forall i :: 0 <= i < |a| ==> a[i].order == o) ==> LinesOf(a, o) == a
    ensures (forall i :: 0 <= i < |a| ==> a[i].order != o) ==> LinesOf(a, o) == []
  {
    if a != [] { AllOrNone(a[..|a| - 1], o); }
  }

  /** The lines of a committed order are those its commit recorded. */
  ghost predicate Kept(s: Sys, p: nat) {
    p in s.txns && s.txns[p].phase == Answered(5) ==>
      s.txns[p].order in s.orders && LinesOf(s.lines, s.txns[p].order) == s.txns[p].lines
  }

  /** No commit but the one that finishes becomes a committed one. */
  lemma OnlyFinish(s: Sys, e: Event, p: nat)
    requires Enabled(s, e) && p in React(s, e).txns && React(s, e).txns[p].phase == Answered(5)
    ensures e == Finish(p) || (p in s.txns && React(s, e).txns[p] == s.txns[p])
  {
    hide Contended, React;
    StepTxns(s, e);
  }

  /** What is known of a commit about to finish. */
  lemma Finishing(start: map<Sku, Row>, s: Sys, p: nat)
    requires Inv(start, s) && Enabled(s, Finish(p))
    ensures var t := s.txns[p];
            (t.order !in s.orders && (forall i :: 0 <= i < |t.lines| ==> t.lines[i].order == t.order) &&
             forall i :: 0 <= i < |s.lines| ==> s.lines[i].order in s.orders)
  {
    hide RowsOk, SalesOk, CountOf, PriceOf, Holds, Balanced;
    assert TxnOk(start, s, p);
  }

  lemma StepKept(start: map<Sku, Row>, s: Sys, e: Event, p: nat)
    requires Inv(start, s) && Enabled(s, e) && Kept(s, p)
    ensures Kept(React(s, e), p)
  {
    hide Inv, Enabled, React;
    var u := React(s, e);
    StepBooks(s, e);
    if p in u.txns && u.txns[p].phase == Answered(5) {
      OnlyFinish(s, e, p);
      var o := u.txns[p].order;
      if e.Finish? {
        Finishing(start, s, e.p);
        LinesOfConcat(s.lines, s.txns[e.p].lines, o);
        AllOrNone(s.txns[e.p].lines, o);
        AllOrNone(s.lines, o);
      }
    }
  }

  lemma NobodyKept(s: Sys, p: nat)
    requires s.txns == map[]
    ensures Kept(s, p)
  {
  }

  lemma {:induction false} RunKept(s: Sys, es: seq<Event>, p: nat)
    requires Quiet(s)
    ensures Kept(Run(s, es), p)
  {
    hide React, Enabled, Kept, Inv;
    if es == [] {
      NobodyKept(s, p);
    } else {
      var b, e := Run(s, es[..|es| - 1]), es[|es| - 1];
      RunKept(s, es[..|es| - 1], p);
      RunInv(s, es[..|es| - 1]);
      if Enabled(b, e) { StepKept(Origin(s), b, e, p); }
    }
  }

  /** The lines in the shop of a committed order are, in order, for the requested items that were not given up; so every
      requested item has its line exactly if none was. */
  lemma CompleteIffNothingGivenUp(s: Sys, es: seq<Event>, p: nat)
    requires Quiet(s)
    requires var u := Run(s, es); p in u.txns && u.txns[p].phase == Answered(5)
    ensures var u := Run(s, es); var t, g := u.txns[p], GivenUp(s, es, p); var skus := Skus(LinesOf(u.lines, t.order));
            (skus == Picked(t.skus, |t.skus|, g) && (skus == t.skus <==> g == {}))
  {
    hide Run, Quiet, LinesOf, Picked;
    RunAccounted(s, es, p);
    RunKept(s, es, p);
    var t, g := Run(s, es).txns[p], GivenUp(s, es, p);
    PickedAll(t.skus, |t.skus|, g);
    assert t.skus[..|t.skus|] == t.skus;
    assert (forall i :: 0 <= i < |t.skus| ==> i !in g) <==> g == {};
  }

  // ---- where a line comes from --------------------------------------------------------------------------

  /** The `i`-th event of the run is `p` reading row `r` for item `k`: a version readable at that moment, with at
      least the `count` pieces then found in the cart in stock. */
  ghost predicate ReadAt(s: Sys, es: seq<Event>, p: nat, i: int, k: Sku, r: Row, count: int) {
    && 0 <= i < |es| && es[i] == Read(p, r, count) && count <= r.stock
    && var b := Run(s, es[..i]); AtItem(b, p) && b.txns[p].skus[b.txns[p].pos] == k && Readable(b, p, k, r)
  }

  /** Row `r` was read for item `k` some time in the run. */
  ghost predicate Looked(s: Sys, es: seq<Event>, p: nat, k: Sku, r: Row, count: int) {
    exists i :: ReadAt(s, es, p, i, k, r, count)
  }

  /** The line has the price of a row that was read for it, and the count that was compared with that row's stock. */
  ghost predicate Sourced(s: Sys, es: seq<Event>, p: nat, l: Line) {
    exists r: Row :: Looked(s, es, p, l.sku, r, l.count) && l.price == r.price
  }

  ghost predicate AllSourced(s: Sys, es: seq<Event>, p: nat, lines: seq<Line>) {
    forall i :: 0 <= i < |lines| ==> Sourced(s, es, p, lines[i])
  }

  /** So it is with all lines of a transaction, and with the one it is about to record. */
  ghost predicate Founded(s: Sys, es: seq<Event>, p: nat, t: Txn) {
    && AllSourced(s, es, p, t.lines)
    && (t.phase.HaveRow? || t.phase.Swapped? ==> t.pos < |t.skus| && Looked(s, es, p, t.skus[t.pos], t.phase.row, t.phase.count))
  }

  lemma LookedLater(s: Sys, es: seq<Event>, p: nat, k: Sku, r: Row, count: int)
    requires es != [] && Looked(s, es[..|es| - 1], p, k, r, count)
    ensures Looked(s, es, p, k, r, count)
  {
    hide Run;
    var i :| ReadAt(s, es[..|es| - 1], p, i, k, r, count);
    assert es[..|es| - 1][..i] == es[..i];
    assert ReadAt(s, es, p, i, k, r, count);
  }

  lemma SourcedLater(s: Sys, es: seq<Event>, p: nat, lines: seq<Line>)
    requires es != [] && AllSourced(s, es[..|es| - 1], p, lines)
    ensures AllSourced(s, es, p, lines)
  {
    hide Looked;
    forall i | 0 <= i < |lines|
      ensures Sourced(s, es, p, lines[i])
    {
      var l := lines[i];
      var r :| Looked(s, es[..|es| - 1], p, l.sku, r, l.count) && l.price == r.price;
      LookedLater(s, es, p, l.sku, r, l.count);
    }
  }

  lemma FoundedLater(s: Sys, es: seq<Event>, p: nat, t: Txn)
    requires es != [] && Founded(s, es[..|es| - 1], p, t)
    ensures Founded(s, es, p, t)
  {
    hide Looked, AllSourced;
    SourcedLater(s, es, p, t.lines);
    if t.phase.HaveRow? || t.phase.Swapped? { LookedLater(s, es, p, t.skus[t.pos], t.phase.row, t.phase.count); }
  }

  lemma ReadFounded(s: Sys, es: seq<Event>, p: nat)
    requires es != []
    requires var b, e := Run(s, es[..|es| - 1]), es[|es| - 1]; e.Read? && e.p == p && Enabled(b, e) && Founded(s, es, p, b.txns[p])
    ensures var b, e := Run(s, es[..|es| - 1]), es[|es| - 1]; Founded(s, es, p, NextTxn(b, e))
  {
    hide Run, Sourced;
    var b, e := Run(s, es[..|es| - 1]), es[|es| - 1];
    if e.count <= e.row.stock {
      assert ReadAt(s, es, p, |es| - 1, b.txns[p].skus[b.txns[p].pos], e.row, e.count);
    }
  }

  lemma RecordFounded(s: Sys, es: seq<Event>, p: nat, t: Txn)
    requires Founded(s, es, p, t) && t.phase.Swapped? && t.pos < |t.skus|
    ensures Founded(s, es, p, Recorded(t))
  {
    hide Looked;
    assert Sourced(s, es, p, NewLine(t));
  }

  /** Any other event of `p` leaves it at that. */
  lemma NextFounded(s: Sys, es: seq<Event>, p: nat, b: Sys, e: Event)
    requires Enabled(b, e) && e.p == p && (p in b.txns ==> Founded(s, es, p, b.txns[p])) && !e.Read? && !e.Record?
    ensures Founded(s, es, p, NextTxn(b, e))
  {
    hide Looked, Sourced, Contended;
  }

  lemma NextIsRecorded(b: Sys, e: Event)
    requires Enabled(b, e) && e.Record?
    ensures NextTxn(b, e) == Recorded(b.txns[e.p])
  {
  }

  /** In every run the lines of a commit come from rows it has read. */
  lemma {:induction false} RunFounded(s: Sys, es: seq<Event>, p: nat)
    requires s.txns == map[]
    ensures var u := Run(s, es); p in u.txns ==> Founded(s, es, p, u.txns[p])
  {
    if es != [] {
      var b, e := Run(s, es[..|es| - 1]), es[|es| - 1];
      RunFounded(s, es[..|es| - 1], p);
      if p in b.txns { FoundedLater(s, es, p, b.txns[p]); }
      if Enabled(b, e) {
        StepFounded(s, es, p, b, e);
      }
    }
  }

  lemma StepFounded(s: Sys, es: seq<Event>, p: nat, b: Sys, e: Event)
    requires es != [] && b == Run(s, es[..|es| - 1]) && e == es[|es| - 1] && Enabled(b, e)
    requires p in b.txns ==> Founded(s, es, p, b.txns[p])
    ensures p in React(b, e).txns ==> Founded(s, es, p, React(b, e).txns[p])
  {
    hide Run, React, Founded, Contended, NextTxn;
    StepTxns(b, e);
    if e.p == p {
      if e.Read? {
        ReadFounded(s, es, p);
      } else if e.Record? {
        RecordFounded(s, es, p, b.txns[p]);
        NextIsRecorded(b, e);
      } else {
        NextFounded(s, es, p, b, e);
      }
    }
  }

  /** Every line in the shop of a committed order is for one of its items, at the price of a version of that product which
      could be read, with the count that was compared with the stock of that version. */
  lemma LinesComeFromReads(s: Sys, es: seq<Event>, p: nat)
    requires Quiet(s)
    requires var u := Run(s, es); p in u.txns && u.txns[p].phase == Answered(5)
    ensures AllSourced(s, es, p, LinesOf(Run(s, es).lines, Run(s, es).txns[p].order))
  {
    hide Run, LinesOf, AllSourced;
    RunFounded(s, es, p);
    RunKept(s, es, p);
  }

  // ---- what an answer means -----------------------------------------------------------------------------

  /** An event of the run with which `p` may have got the answer `code`. */
  ghost predicate Because(s: Sys, es: seq<Event>, p: nat, code: int, i: int) {
    && 0 <= i < |es| && es[i].p == p
    && var b := Run(s, es[..i]);
       Active(b, p) &&
       match es[i]
       case Missing(_) => code == 4
       case Finish(_) => code == 5 && b.txns[p].phase.Looping? && b.txns[p].pos >= |b.txns[p].skus|
       case Read(_, r, count) => code == 6 && AtItem(b, p) && Readable(b, p, b.txns[p].skus[b.txns[p].pos], r) && count > r.stock
       case Create(_) => code == 7 && b.txns[p].order in b.orders
       case Fail(_) => code == 7
       case _ => false
  }

  lemma BecauseNow(s: Sys, es: seq<Event>, p: nat, code: int)
    requires es != []
    requires var b, e := Run(s, es[..|es| - 1]), es[|es| - 1];
             Enabled(b, e) && e.p == p && (p in b.txns ==> Active(b, p)) && NextTxn(b, e).phase == Answered(code)
    ensures Because(s, es, p, code, |es| - 1)
  {
    hide Run, Contended;
  }

  /** Every answer has its reason in the run: 4 a product that could not be read, 5 that all items were passed, 6 a row read
      with less stock than the cart's count, 7 an order id that was taken, or a failure. */
  lemma {:induction false} AnswerMeans(s: Sys, es: seq<Event>, p: nat, code: int)
    requires Quiet(s)
    requires var u := Run(s, es); p in u.txns && u.txns[p].phase == Answered(code)
    ensures exists i :: Because(s, es, p, code, i)
  {
    hide Because;
    var b, e := Run(s, es[..|es| - 1]), es[|es| - 1];
    hide Run, NextTxn, React, Contended;
    if Enabled(b, e) {
      StepTxns(b, e);
      if e.p == p && (p in b.txns ==> Active(b, p)) {
        BecauseNow(s, es, p, code);
        return;
      }
    }
    AnswerMeans(s, es[..|es| - 1], p, code);
    var i :| Because(s, es[..|es| - 1], p, code, i);
    BecauseLater(s, es, p, code, i);
  }

  lemma BecauseLater(s: Sys, es: seq<Event>, p: nat, code: int, i: int)
    requires es != [] && Because(s, es[..|es| - 1], p, code, i)
    ensures Because(s, es, p, code, i)
  {
    hide Run;
    assert es[..|es| - 1][..i] == es[..i];
  }

  // ---- it happens: two other orders in between ---------------------------------------------------------

  lemma {:induction false} RunConcat(s: Sys, a: seq<Event>, b: seq<Event>)
    ensures Run(s, a + b) == Run(Run(s, a), b)
    ensures Possible(s, a) && Possible(Run(s, a), b) ==> Possible(s, a + b)
  {
    hide Enabled, React;
    if b == [] {
      assert a + b == a;
    } else {
      assert (a + b)[..|a + b| - 1] == a + b[..|b| - 1];
      RunConcat(s, a, b[..|b| - 1]);
    }
  }

  /** The events `es` lead from `s` to `u`, each of them possible. */
  ghost predicate Leads(s: Sys, es: seq<Event>, u: Sys) {
    Possible(s, es) && Run(s, es) == u
  }

  lemma One(s: Sys, e: Event)
    requires Enabled(s, e)
    ensures Leads(s, [e], React(s, e))
  {
    hide Enabled, React;
    assert [e][..|[e]| - 1] == [];
    assert Possible(s, []) && Run(s, []) == s;
  }

  lemma Joined(s: Sys, a: seq<Event>, t: Sys, b: seq<Event>, u: Sys)
    requires Leads(s, a, t) && Leads(t, b, u)
    ensures Leads(s, a + b, u)
  {
    RunConcat(s, a, b);
    hide Run, Possible;
  }

  /** A shop with product 0 only. */
  const SHOP: Sys := var r := map[0 := Row(10, 0, 1)]; Sys(r, r, map[0 := {Row(10, 0, 1)}], map[], map[], [], map[])

  /** `q` buys one piece of product 0 from beginning to end. */
  function Buy(q: nat, row: Row): seq<Event> {
    [Begin(q, q, [0]), Create(q), Read(q, row, 1), Swap(q), Record(q), Finish(q)]
  }

  /** Nobody holds product 0 and `q` is new. */
  predicate Open(s: Sys, q: nat) {
    && 0 in s.rows && 0 in s.committed && 0 in s.past && 0 !in s.locks && s.rows[0].stock >= 1 && s.rows[0] in s.past[0]
    && q !in s.txns && q !in s.orders && forall p :: p in s.txns ==> s.txns[p].order != q
  }

  /** After it there is one piece less, and everybody else is where they were. */
  predicate Bought(s: Sys, q: nat, u: Sys) {
    && 0 in s.rows && 0 in u.rows && 0 in u.past && 0 in u.committed && 0 !in u.locks && u.rows[0] in u.past[0]
    && u.rows[0].stock == s.rows[0].stock - 1 && u.txns.Keys == s.txns.Keys + {q} && u.orders.Keys == s.orders.Keys + {q}
    && u.txns[q].order == q && forall p :: p in s.txns && p != q ==> u.txns[p] == s.txns[p]
  }

  /** The first half: up to the row read. */
  lemma BuyReads(s: Sys, q: nat)
    requires Open(s, q)
    ensures var r := s.rows[0];
            Leads(s, [Begin(q, q, [0]), Create(q), Read(q, r, 1)], With(s, q, Txn(q, [0], HaveRow(r, 1), 0, 0, 0, 0, [])))
  {
    var r := s.rows[0];
    var s1 := With(s, q, Txn(q, [0], Starting, 0, 0, 0, 0, []));
    var s2 := With(s, q, Txn(q, [0], Looping, 0, 0, 0, 0, []));
    var s3 := With(s, q, Txn(q, [0], HaveRow(r, 1), 0, 0, 0, 0, []));
    assert !Contended(s1, q);
    assert React(s, Begin(q, q, [0])) == s1 && React(s1, Create(q)) == s2 && React(s2, Read(q, r, 1)) == s3;
    One(s, Begin(q, q, [0]));
    One(s1, Create(q));
    One(s2, Read(q, r, 1));
    hide Leads, React, Enabled;
    assert [Begin(q, q, [0])] + [Create(q)] == [Begin(q, q, [0]), Create(q)];
    assert [Begin(q, q, [0]), Create(q)] + [Read(q, r, 1)] == [Begin(q, q, [0]), Create(q), Read(q, r, 1)];
    Joined(s, [Begin(q, q, [0])], s1, [Create(q)], s2);
    Joined(s, [Begin(q, q, [0]), Create(q)], s2, [Read(q, r, 1)], s3);
  }

  /** The second half: the row is still the one read. */
  lemma BuyEnds(s: Sys, q: nat, u: Sys) returns (v: Sys)
    requires Open(s, q) && u == With(s, q, Txn(q, [0], HaveRow(s.rows[0], 1), 0, 0, 0, 0, []))
    ensures Leads(u, [Swap(q), Record(q), Finish(q)], v) && Bought(s, q, v)
  {
    var u1, u2 := BuyTakes(s, q, u);
    v := Commit(u2, q);
    BoughtBy(s, q, u2);
    assert React(u2, Finish(q)) == v;
    One(u2, Finish(q));
    hide Leads, React, Enabled, Bought;
    Joined(u, [Swap(q), Record(q)], u2, [Finish(q)], v);
    assert [Swap(q), Record(q)] + [Finish(q)] == [Swap(q), Record(q), Finish(q)];
  }

  lemma BuyTakes(s: Sys, q: nat, u: Sys) returns (u1: Sys, u2: Sys)
    requires Open(s, q) && u == With(s, q, Txn(q, [0], HaveRow(s.rows[0], 1), 0, 0, 0, 0, []))
    ensures Leads(u, [Swap(q), Record(q)], u2) && Enabled(u2, Finish(q))
    ensures q in u2.txns && u2.txns[q].order == q && u2.txns == s.txns[q := u2.txns[q]]
    ensures u2.committed == s.committed && u2.past == s.past && u2.locks == s.locks[0 := q] && u2.orders == s.orders
    ensures 0 in u2.rows && u2.rows[0].stock == s.rows[0].stock - 1
  {
    u1 := SwapRow(u, q);
    assert u1.txns[q] == Txn(q, [0], Swapped(s.rows[0], 1), 0, 0, 0, 0, []);
    u2 := With(u1, q, Recorded(u1.txns[q]));
    One(u, Swap(q));
    One(u1, Record(q));
    hide Leads;
    Joined(u, [Swap(q)], u1, [Record(q)], u2);
    assert [Swap(q)] + [Record(q)] == [Swap(q), Record(q)];
  }

  lemma BoughtBy(s: Sys, q: nat, u2: Sys)
    requires Open(s, q) && q in u2.txns && u2.txns[q].order == q && u2.txns == s.txns[q := u2.txns[q]]
    requires u2.committed == s.committed && u2.past == s.past && u2.locks == s.locks[0 := q] && u2.orders == s.orders
    requires 0 in u2.rows && u2.rows[0].stock == s.rows[0].stock - 1
    ensures Bought(s, q, Commit(u2, q))
  {
    assert 0 in Held(u2, q);
  }

  lemma BuyWorks(s: Sys, q: nat) returns (v: Sys)
    requires Open(s, q)
    ensures Leads(s, Buy(q, s.rows[0]), v) && Bought(s, q, v)
  {
    var r := s.rows[0];
    var u := With(s, q, Txn(q, [0], HaveRow(r, 1), 0, 0, 0, 0, []));
    BuyReads(s, q);
    v := BuyEnds(s, q, u);
    hide Leads, Bought, Open;
    Joined(s, [Begin(q, q, [0]), Create(q), Read(q, r, 1)], u, [Swap(q), Record(q), Finish(q)], v);
    assert Buy(q, r) == [Begin(q, q, [0]), Create(q), Read(q, r, 1)] + [Swap(q), Record(q), Finish(q)];
  }

  /** A conditional update of `p` that another order has overtaken, for the first or the second time. */
  lemma Overtaken(s: Sys, p: nat, q: nat) returns (v: Sys, u: Sys)
    requires Open(s, q) && p in s.txns && s.txns[p].phase == HaveRow(s.rows[0], 1) && s.txns[p].skus == [0] && s.txns[p].pos == 0
    ensures Leads(s, Buy(q, s.rows[0]) + [Swap(p)], u) && Bought(s, q, v) && Enabled(v, Swap(p)) && u == SwapRow(v, p)
    ensures u == With(v, p, if s.txns[p].attempt == 0 then s.txns[p].(phase := Looping, attempt := 1)
                            else s.txns[p].(phase := Looping, attempt := 0, pos := 1))
  {
    v := BuyWorks(s, q);
    u := SwapRow(v, p);
    One(v, Swap(p));
    hide Leads;
    Joined(s, Buy(q, s.rows[0]), v, [Swap(p)], u);
  }

  /** The first loss, and the row read again. */
  lemma FirstLoss(s: Sys) returns (es: seq<Event>, d: Sys)
    requires s == With(SHOP, 0, Txn(0, [0], HaveRow(SHOP.rows[0], 1), 0, 0, 0, 0, []))
    ensures Leads(s, es, d) && Open(d, 2) && d.orders.Keys == {1} && 0 in d.txns
    ensures d.txns[0] == Txn(0, [0], HaveRow(d.rows[0], 1), 0, 1, 0, 0, [])
  {
    var v, c;
    v, c := Overtaken(s, 0, 1);
    var r := c.rows[0];
    d := React(c, Read(0, r, 1));
    One(c, Read(0, r, 1));
    hide Leads;
    es := Buy(1, s.rows[0]) + [Swap(0)] + [Read(0, r, 1)];
    Joined(s, Buy(1, s.rows[0]) + [Swap(0)], c, [Read(0, r, 1)], d);
  }

  /** The second loss: the item is given up and the commit succeeds without it. */
  lemma SecondLoss(d: Sys) returns (es: seq<Event>, u: Sys)
    requires Open(d, 2) && 0 in d.txns && d.txns[0] == Txn(0, [0], HaveRow(d.rows[0], 1), 0, 1, 0, 0, [])
    ensures Leads(d, es, u) && 0 in u.txns && u.txns[0].phase == Answered(5) && u.txns[0].lines == [] && u.txns[0].skus == [0]
  {
    var v, e;
    v, e := Overtaken(d, 0, 2);
    u := React(e, Finish(0));
    One(e, Finish(0));
    hide Leads;
    es := Buy(2, d.rows[0]) + [Swap(0)] + [Finish(0)];
    Joined(d, Buy(2, d.rows[0]) + [Swap(0)], e, [Finish(0)], u);
  }

  /** A commit answered with success although its only item is not in the order: two other customers were faster, twice. */
  lemma ItemMissing() returns (es: seq<Event>)
    ensures Quiet(SHOP) && Possible(SHOP, es)
    ensures var u := Run(SHOP, es);
            0 in u.txns && u.txns[0].phase == Answered(5) && u.txns[0].skus == [0] && LinesOf(u.lines, u.txns[0].order) == []
  {
    var s := With(SHOP, 0, Txn(0, [0], HaveRow(SHOP.rows[0], 1), 0, 0, 0, 0, []));
    BuyReads(SHOP, 0);
    var bs, d, cs, u;
    bs, d := FirstLoss(s);
    cs, u := SecondLoss(d);
    Joined(SHOP, [Begin(0, 0, [0]), Create(0), Read(0, SHOP.rows[0], 1)], s, bs, d);
    Joined(SHOP, [Begin(0, 0, [0]), Create(0), Read(0, SHOP.rows[0], 1)] + bs, d, cs, u);
    es := [Begin(0, 0, [0]), Create(0), Read(0, SHOP.rows[0], 1)] + bs + cs;
    hide Run, Possible;
    RunKept(SHOP, es, 0);
  }
}
