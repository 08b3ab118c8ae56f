/** OrderCommitView.post (apps/order/views.py) as a method over a shared database, with arbitrary steps of
    other commits between any two of its own. */
module OrderView {

  import opened OrderModel
  import opened OrderAtomic
  import opened OrderSkipped

  predicate Answers(s: Sys, p: nat, code: int) {
    p in s.txns && s.txns[p].phase == Answered(code)
  }

  /** The order is there and its totals are those of its lines. */
  ghost predicate Standing(s: Sys, o: OrderId) {
    o in s.orders && s.orders[o] == OrderModel.Order(CountOf(s.lines, o), PriceOf(s.lines, o))
  }

  /** `u` is `v` but for the answer given to `p`. */
  ghost predicate NoTrace(u: Sys, v: Sys, p: nat) {
    v == u.(txns := u.txns - {p})
  }

  lemma StandingOrder(start: Sys, es: seq<Event>, o: OrderId)
    requires Quiet(start) && o in Run(start, es).orders
    ensures Standing(Run(start, es), o)
  {
    TotalsMatchLines(start, es, o);
  }

  lemma LeftNoTrace(start: Sys, es: seq<Event>, p: nat, code: int)
    requires Quiet(start) && Possible(start, es) && Answers(Run(start, es), p, code) && code != 5
    ensures NoTrace(Run(start, es), Run(start, OrderAtomic.Others(es, p)), p)
  {
    hide Run, Possible, Quiet, OrderAtomic.Others;
    AbortedLeavesNoTrace(start, es, p);
  }

  /** The transaction of `p` is left alone by the events of others. */
  lemma LeavesAlone(s: Sys, e: Event, p: nat)
    requires Enabled(s, e) && Active(s, p) && Who(e) != p
    ensures Active(React(s, e), p) && React(s, e).txns[p] == s.txns[p]
  {
  }

  /** One more item taken, or one more attempt lost; the second lost attempt gives the item up. */
  predicate Next(t: Txn, u: Txn, done: bool, count: int, price: int) {
    && t.pos < |t.skus| && u.phase.Looping? && u.skus == t.skus && u.order == t.order
    && if done then
         u.pos == t.pos + 1 && u.attempt == 0 && u.lines == t.lines + [Line(t.order, t.skus[t.pos], count, price)] &&
         u.totalCount == t.totalCount + count && u.totalPrice == t.totalPrice + price * count
       else
         u.lines == t.lines && u.totalCount == t.totalCount && u.totalPrice == t.totalPrice &&
         if t.attempt == 0 then u.pos == t.pos && u.attempt == 1 else u.pos == t.pos + 1 && u.attempt == 0
  }

  /** No row comes or goes, and every one has a committed version. */
  lemma SameSkus(start: Sys, es: seq<Event>)
    requires Quiet(start)
    ensures var u := Run(start, es);
            (u.rows.Keys == start.rows.Keys && u.past.Keys == start.rows.Keys && u.locks.Keys <= start.rows.Keys &&
             forall k :: k in u.past ==> u.past[k] != {})
  {
    hide Quiet, Run, SalesOk, OrdersOk, TxnOk, Balanced, AllBalanced;
    RunInv(start, es);
  }

  /** The commit of `p` for `skus` stands: the lines of its order are, in order, for the items that did not lose
      their conditional update twice, each at the price of a version of its product that was read, with the
      count that was compared with that version's stock. */
  ghost predicate Delivered(start: Sys, es: seq<Event>, s: Sys, p: nat, order: OrderId, skus: seq<Sku>) {
    && p in s.txns && s.txns[p].skus == skus && s.txns[p].order == order
    && Skus(LinesOf(s.lines, order)) == Picked(skus, |skus|, GivenUp(start, es, p))
    && AllSourced(start, es, p, LinesOf(s.lines, order))
  }

  lemma IsDelivered(start: Sys, es: seq<Event>, p: nat)
    requires Quiet(start) && Answers(Run(start, es), p, 5)
    ensures var u := Run(start, es); Delivered(start, es, u, p, u.txns[p].order, u.txns[p].skus)
  {
    hide Quiet, Run, AllSourced, LinesOf, Picked;
    CompleteIffNothingGivenUp(start, es, p);
    LinesComeFromReads(start, es, p);
  }

  /** The order id of a commit that could not be created is in the shop. */
  lemma TakenStays(s: Sys, p: nat)
    requires Enabled(s, OrderModel.Event.Create(p)) && s.txns[p].order in s.orders
    ensures s.txns[p].order in React(s, OrderModel.Event.Create(p)).orders
  {
    StepBooks(s, OrderModel.Event.Create(p));
  }

  class Database {
    var s: Sys
    ghost const start: Sys
    ghost var trace: seq<Event>

    /** How often the outside world has failed a commit: a lost connection, a wait for a lock or for another order
        with the same id that was given up, a count in the cart that is no number. */
    ghost var faults: nat

    /** The state is that of a possible run of commits on the shop as it was opened. */
    ghost predicate Valid()
      reads this
    {
      Quiet(start) && Possible(start, trace) && s == Run(start, trace)
    }

    constructor (shop: Sys)
      requires Quiet(shop)
      ensures Valid() && s == shop && start == shop && trace == [] && faults == 0
    {
      s, start, trace, faults := shop, shop, [], 0;
    }

    /** One more event. */
    method Step(e: Event)
      requires Valid() && Enabled(s, e)
      modifies this`s, this`trace
      ensures Valid() && s == React(old(s), e) && trace == old(trace) + [e]
    {
      hide Quiet, Enabled, React, Possible, Run;
      Become(React(s, e), e);
    }

    /** The database is now `u`, as the event `e` of a run has it. */
    method Become(u: Sys, ghost e: Event)
      requires Valid() && Enabled(s, e) && u == React(s, e)
      modifies this`s, this`trace
      ensures Valid() && s == u && trace == old(trace) + [e]
    {
      hide Quiet, Enabled, React;
      s := u;
      trace := trace + [e];
      assert trace[..|trace| - 1] == old(trace);
    }

    /** Any number of steps of other commits; then the connection may have failed. */
    method Others(p: nat) returns (ok: bool)
      requires Valid() && Active(s, p)
      modifies this
      ensures Valid() && Active(s, p) && s.txns[p] == old(s.txns[p])
      ensures faults == old(faults) + if ok then 0 else 1
    {
      hide Quiet, Possible, Run, Enabled;
      var n: nat := *;
      while n > 0
        invariant Valid() && Active(s, p) && s.txns[p] == old(s.txns[p])
        invariant faults == old(faults)
      {
        var e: Event := *;
        if Who(e) != p && Enabled(s, e) {
          LeavesAlone(s, e, p);
          Step(e);
        }
        n := n - 1;
      }
      ok := *;
      if !ok { faults := faults + 1; }
    }

    /** Back to the savepoint. */
    method Rollback(p: nat, code: int)
      requires Valid() && Active(s, p) && (code == 7 || (code == 4 && AtItem(s, p)))
      modifies this`s, this`trace
      ensures Valid() && Answers(s, p, code)
    {
      hide Quiet, Possible, Run;
      Step(if code == 7 then Fail(p) else Missing(p));
    }

    /** OrderInfo.objects.create: fails when the order id is taken, or still being written elsewhere. */
    method Create(p: nat) returns (ok: bool)
      requires Valid() && Active(s, p) && s.txns[p].phase.Starting?
      modifies this
      ensures Valid()
      ensures if ok then Active(s, p) && s.txns[p] == old(s.txns[p]).(phase := Looping) else Answers(s, p, 7)
      ensures faults >= old(faults) && (ok ==> faults == old(faults))
      ensures !ok && faults == old(faults) ==> old(s.txns[p]).order in s.orders
    {
      hide Quiet, Possible, Run;
      if Contended(s, p) {
        Step(Fail(p));
        faults := faults + 1;
        return false;
      }
      ok := s.txns[p].order !in s.orders;
      if !ok { TakenStays(s, p); }
      Step(OrderModel.Event.Create(p));
    }

    /** GoodsSKU.objects.get: a committed version of the row, or the own write; none when the row is missing. */
    method Get(p: nat, k: Sku) returns (found: bool, r: Row)
      requires Valid() && AtItem(s, p) && k == s.txns[p].skus[s.txns[p].pos]
      ensures found <==> k in start.rows
      ensures found ==> Readable(s, p, k, r)
    {
      hide Quiet, Possible, Run;
      SameSkus(start, trace);
      r := Row(0, 0, 0);
      if k in s.past && s.past[k] != {} {
        r :| r in s.past[k];
        found := true;
      } else {
        found := false;
      }
      var own: bool := *;
      if Holds(s, p, k) && k in s.rows && own {
        found, r := true, s.rows[k];
      }
    }

    /** The count in the cart, which the user may change at any time; none when it is no number. */
    method CartCount() returns (ok: bool, count: int)
      modifies this`faults
      ensures faults == old(faults) + if ok then 0 else 1
    {
      ok, count := *, *;
      if !ok { faults := faults + 1; }
    }

    /** The stock is compared with the count; too little rolls back. */
    method Check(p: nat, r: Row, count: int)
      requires Valid() && AtItem(s, p) && Readable(s, p, s.txns[p].skus[s.txns[p].pos], r)
      modifies this`s, this`trace
      ensures Valid()
      ensures if count > r.stock then Answers(s, p, 6)
              else Active(s, p) && s.txns[p] == old(s.txns[p]).(phase := HaveRow(r, count))
    {
      hide Quiet, Possible, Run;
      Step(Read(p, r, count));
    }

    /** Another commit still holds the row when the wait for it is over. */
    method Locked(p: nat, k: Sku) returns (locked: bool)
      requires Valid()
      modifies this`faults
      ensures locked <==> k in s.locks && s.locks[k] != p
      ensures faults == old(faults) + if locked then 1 else 0
    {
      locked := k in s.locks && s.locks[k] != p;
      if locked { faults := faults + 1; }
    }

    /** The conditional update: how many rows had the expected stock, after which the row is locked. */
    method Update(p: nat, k: Sku, expected: int, stock: int, sales: int) returns (n: int)
      requires Valid() && Active(s, p) && s.txns[p].phase.HaveRow? && s.txns[p].pos < |s.txns[p].skus|
      requires k in s.rows && (k in s.locks ==> s.locks[k] == p)
      requires k == s.txns[p].skus[s.txns[p].pos] && expected == s.txns[p].phase.row.stock
      requires stock == expected - s.txns[p].phase.count && sales == s.txns[p].phase.row.sales + s.txns[p].phase.count
      modifies this`s, this`trace
      ensures Valid() && p in old(s).txns && Active(s, p)
      ensures n == if old(s).rows[k].stock == expected then 1 else 0
      ensures n == 1 ==> s.rows == old(s).rows[k := old(s).rows[k].(stock := stock, sales := sales)] &&
                         s.txns[p] == old(s.txns[p]).(phase := Swapped(old(s.txns[p]).phase.row, old(s.txns[p]).phase.count))
      ensures n == 0 ==> s.rows == old(s).rows &&
                         s.txns[p] == if old(s.txns[p]).attempt == 0 then old(s.txns[p]).(phase := Looping, attempt := 1)
                                      else old(s.txns[p]).(phase := Looping, attempt := 0, pos := old(s.txns[p]).pos + 1)
    {
      hide Quiet, Possible, Run;
      var t, u := s.txns[p], s;
      if s.rows[k].stock == expected {
        n := 1;
        u := u.(rows := u.rows[k := u.rows[k].(stock := stock, sales := sales)], locks := u.locks[k := p]);
        t := t.(phase := Swapped(t.phase.row, t.phase.count));
      } else {
        n := 0;
        t := if t.attempt == 0 then t.(phase := Looping, attempt := 1) else t.(phase := Looping, attempt := 0, pos := t.pos + 1);
      }
      Become(With(u, p, t), Swap(p));
    }

    /** OrderGoods.objects.create and the additions to the totals. */
    method AddLine(p: nat, k: Sku, count: int, price: int)
      requires Valid() && Active(s, p) && s.txns[p].phase.Swapped? && s.txns[p].pos < |s.txns[p].skus|
      requires k == s.txns[p].skus[s.txns[p].pos] && count == s.txns[p].phase.count && price == s.txns[p].phase.row.price
      modifies this`s, this`trace
      ensures Valid() && Active(s, p) && s.txns[p] == Recorded(old(s.txns[p]))
    {
      hide Quiet, Possible, Run;
      var t := s.txns[p];
      var l := Line(t.order, k, count, price);
      t := t.(lines := t.lines + [l], totalCount := t.totalCount + count, totalPrice := t.totalPrice + price * count);
      Become(With(s, p, t.(phase := Looping, attempt := 0, pos := t.pos + 1)), Record(p));
    }

    /** The totals written into the order, and the transaction committed. */
    method Save(p: nat, totalCount: int, totalPrice: int)
      requires Valid() && Active(s, p) && s.txns[p].phase.Looping? && s.txns[p].pos >= |s.txns[p].skus|
      requires totalCount == s.txns[p].totalCount && totalPrice == s.txns[p].totalPrice
      modifies this`s, this`trace
      ensures Valid() && Answers(s, p, 5)
      ensures s.orders == old(s).orders[old(s.txns[p]).order := Order(totalCount, totalPrice)]
      ensures s.lines == old(s).lines + old(s.txns[p]).lines
      ensures s.txns[p] == old(s.txns[p]).(phase := Answered(5))
    {
      hide Quiet, Possible, Run;
      var order := s.txns[p].order;
      var u := Commit(s, p);
      Become(u.(orders := s.orders[order := OrderModel.Order(totalCount, totalPrice)]), Finish(p));
    }

    /** The commit.  The answer is 0 to 3 when the request is not accepted, 5 when the order stands - its lines being
        those of the requested items, its totals those of its lines - and otherwise nothing has changed but what
        others did.  If nothing failed on the way, 4 means that some product does not exist and 7 that the order id was
        taken; 6 means that the cart asked for more than a version of the product had in stock. */
    method Post(p: nat, user: bool, complete: bool, payMethod: bool, address: bool, order: OrderId, skus: seq<Sku>)
      returns (res: int)
      requires Valid() && p !in s.txns
      modifies this
      ensures Valid()
      ensures !user || !complete || !payMethod || !address ==>
                s == old(s) && res == if !user then 0 else if !complete then 1 else if !payMethod then 2 else 3
      ensures user && complete && payMethod && address ==> Answers(s, p, res) && res in {4, 5, 6, 7}
      ensures res == 5 ==> p in s.txns && s.txns[p].skus == skus && s.txns[p].order == order && Standing(s, order)
      ensures res == 5 ==> Skus(LinesOf(s.lines, order)) == Picked(skus, |skus|, GivenUp(start, trace, p))
      ensures res == 5 ==> AllSourced(start, trace, p, LinesOf(s.lines, order))
      ensures res in {4, 6, 7} ==> NoTrace(s, Run(start, OrderAtomic.Others(trace, p)), p)
      ensures res in {4, 5, 6, 7} ==> exists i :: Because(start, trace, p, res, i)
      ensures res == 4 && faults == old(faults) ==> exists i :: 0 <= i < |skus| && skus[i] !in start.rows
      ensures res == 7 && faults == old(faults) ==> order in s.orders
    {
      hide Quiet, Possible, Run, Erased, SwapRow, Commit, Abort, OrderAtomic.Others, Standing, NoTrace, Enabled, React;
      hide LinesOf, Picked, GivenUp, AllSourced, Because;
      if !user { return 0; }
      if !complete { return 1; }
      if !payMethod { return 2; }
      if !address { return 3; }
      Open(p, order, skus);
      res := Business(p);
      AnswerMeans(start, trace, p, res);
      if res == 5 {
        StandingOrder(start, trace, order);
        IsDelivered(start, trace, p);
      } else {
        LeftNoTrace(start, trace, p, res);
      }
    }

    /** The transaction begins. */
    method Open(p: nat, order: OrderId, skus: seq<Sku>)
      requires Valid() && p !in s.txns
      modifies this`s, this`trace
      ensures Valid() && Active(s, p) && s.txns[p] == Txn(order, skus, Starting, 0, 0, 0, 0, [])
    {
      hide Quiet, Possible, Run;
      Step(Begin(p, order, skus));
    }

    /** One attempt at an item: 0 and whether it was taken, or the answer. */
    method Try(p: nat, k: Sku) returns (res: int, done: bool, count: int, price: int)
      requires Valid() && AtItem(s, p) && k == s.txns[p].skus[s.txns[p].pos] && s.txns[p].attempt < 2
      modifies this
      ensures Valid() && res in {0, 4, 6, 7}
      ensures res != 0 ==> Answers(s, p, res)
      ensures res == 0 ==> Active(s, p) && Next(old(s.txns[p]), s.txns[p], done, count, price)
      ensures faults >= old(faults) && (res == 7 ==> faults > old(faults))
      ensures res == 4 && faults == old(faults) ==> k !in start.rows
    {
      hide Quiet, Possible, Run, React, Enabled;
      ghost var t0 := s.txns[p];
      count, price, done := 0, 0, false;
      var ok := Others(p);
      if !ok {
        Rollback(p, 4);
        return 4, false, 0, 0;
      }
      var found, sku := Get(p, k);
      if !found {
        Rollback(p, 4);
        return 4, false, 0, 0;
      }
      ok, count := CartCount();
      if !ok {
        Rollback(p, 7);
        return 7, false, 0, 0;
      }
      Check(p, sku, count);
      if count > sku.stock { return 6, false, 0, 0; }
      ok := Others(p);
      var locked := Locked(p, k);
      if !ok || locked {
        Rollback(p, 7);
        return 7, false, 0, 0;
      }
      SameSkus(start, trace);
      var n := Update(p, k, sku.stock, sku.stock - count, sku.sales + count);
      if n == 0 { return 0, false, 0, 0; }
      ok := Others(p);
      if !ok {
        Rollback(p, 7);
        return 7, false, 0, 0;
      }
      AddLine(p, k, count, sku.price);
      return 0, true, count, sku.price;
    }

    /** From the savepoint to the answer. */
    method Business(p: nat) returns (res: int)
      requires Valid() && Active(s, p) && s.txns[p].phase.Starting? && s.txns[p].pos == 0 && s.txns[p].attempt == 0
      requires s.txns[p].totalCount == 0 && s.txns[p].totalPrice == 0
      modifies this
      ensures Valid() && Answers(s, p, res) && res in {4, 5, 6, 7}
      ensures res == 5 ==> old(s.txns[p]).order in s.orders
      ensures res == 5 ==> s.txns[p].order == old(s.txns[p]).order && s.txns[p].skus == old(s.txns[p]).skus
      ensures faults >= old(faults) && (res == 7 && faults == old(faults) ==> old(s.txns[p]).order in s.orders)
      ensures res == 4 && faults == old(faults) ==> exists i :: 0 <= i < |old(s.txns[p]).skus| && old(s.txns[p]).skus[i] !in start.rows
    {
      hide Quiet, Possible, Run, Enabled, React;
      var skus := s.txns[p].skus;
      var ok := Others(p);
      if !ok {
        Rollback(p, 7);
        return 7;
      }
      ok := Create(p);
      if !ok { return 7; }
      var totalCount, totalPrice, n := 0, 0, 0;
      while n < |skus|
        invariant 0 <= n <= |skus|
        invariant Valid() && Active(s, p) && s.txns[p].phase.Looping? && s.txns[p].skus == skus
        invariant s.txns[p].order == old(s.txns[p]).order && faults >= old(faults)
        invariant s.txns[p].pos == n && s.txns[p].attempt == 0
        invariant s.txns[p].totalCount == totalCount && s.txns[p].totalPrice == totalPrice
      {
        var i, done := 0, false;
        while i < 2 && !done
          invariant 0 <= i <= 2
          invariant Valid() && Active(s, p) && s.txns[p].phase.Looping? && s.txns[p].skus == skus
          invariant s.txns[p].order == old(s.txns[p]).order && faults >= old(faults)
          invariant !done && i < 2 ==> s.txns[p].pos == n && s.txns[p].attempt == i
          invariant done || i == 2 ==> s.txns[p].pos == n + 1 && s.txns[p].attempt == 0
          invariant s.txns[p].totalCount == totalCount && s.txns[p].totalPrice == totalPrice
          decreases 2 - i, !done
        {
          var count, price;
          res, done, count, price := Try(p, skus[n]);
          if res != 0 { return res; }
          if done {
            totalCount := totalCount + count;
            totalPrice := totalPrice + price * count;
          } else {
            i := i + 1;
          }
        }
        n := n + 1;
      }
      ok := Others(p);
      if !ok {
        Rollback(p, 7);
        return 7;
      }
      Save(p, totalCount, totalPrice);
      res := 5;
    }
  }
}
