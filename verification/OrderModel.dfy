/** Order commits of the shop (apps/order/views.py) as concurrent transactions over shared SKU
    rows.  The database is assumed to work as follows: a read returns a row as it was at some
    committed moment, or the transaction's own write; the conditional update tests the current row
    and waits while another transaction has written it; a written row stays locked until its
    transaction ends; a rollback undoes exactly the transaction's own writes. */
module OrderModel {

  type Sku = nat
  type OrderId = nat

  /** The part of a GoodsSKU row that orders read or write; prices in cents. */
  datatype Row = Row(stock: int, sales: int, price: int)

  /** An OrderGoods row. */
  datatype Line = Line(order: OrderId, sku: Sku, count: int, price: int)

  /** The totals of an OrderInfo row. */
  datatype Order = Order(totalCount: int, totalPrice: int)

  /** Where a commit stands: before creating its order, at the head of the retry loop, after reading a
      row, after a successful conditional update, or answered. */
  datatype Phase = Starting | Looping | HaveRow(row: Row, count: int) | Swapped(row: Row, count: int) | Answered(code: int)

  /** One OrderCommitView.post: item `pos` of `skus`, retry `attempt`, its own totals and lines. */
  datatype Txn = Txn(order: OrderId, skus: seq<Sku>, phase: Phase, pos: nat, attempt: nat,
                     totalCount: int, totalPrice: int, lines: seq<Line>)

  /** `rows` is what updates test and change, `committed` what a rollback returns to, `past` every
      committed version, `locks` who has written a row that is not committed. */
  datatype Sys = Sys(rows: map<Sku, Row>, committed: map<Sku, Row>, past: map<Sku, set<Row>>, locks: map<Sku, nat>,
                     orders: map<OrderId, Order>, lines: seq<Line>, txns: map<nat, Txn>)

  datatype Event =
    | Begin(p: nat, order: OrderId, skus: seq<Sku>)
    | Create(p: nat)
    | Read(p: nat, row: Row, count: int)
    | Missing(p: nat)
    | Swap(p: nat)
    | Record(p: nat)
    | Finish(p: nat)
    | Fail(p: nat)

  predicate Active(s: Sys, p: nat) {
    p in s.txns && !s.txns[p].phase.Answered?
  }

  /** At the head of the loop body for an item. */
  predicate AtItem(s: Sys, p: nat) {
    Active(s, p) && s.txns[p].phase.Looping? && s.txns[p].pos < |s.txns[p].skus|
  }

  predicate Readable(s: Sys, p: nat, k: Sku, r: Row) {
    (k in s.past && r in s.past[k]) || (k in s.locks && s.locks[k] == p && k in s.rows && r == s.rows[k])
  }

  /** Under way with its order created. */
  predicate Created(s: Sys, p: nat) {
    Active(s, p) && !s.txns[p].phase.Starting?
  }

  /** Another transaction under way has created the same order id. */
  predicate Contended(s: Sys, p: nat) {
    exists q | q in s.txns :: Created(s, q) && q != p && p in s.txns && s.txns[q].order == s.txns[p].order
  }

  /** The event can happen now; a conditional update of a row locked by another transaction has to wait.
      `Missing` is any failure to read the product, which the code takes for a product that does not exist. */
  predicate Enabled(s: Sys, e: Event) {
    match e
    case Begin(p, o, ks) => p !in s.txns
    case Create(p) => Active(s, p) && s.txns[p].phase.Starting? && !Contended(s, p)
    case Read(p, r, c) => AtItem(s, p) && Readable(s, p, s.txns[p].skus[s.txns[p].pos], r)
    case Missing(p) => AtItem(s, p)
    case Swap(p) => Active(s, p) && s.txns[p].phase.HaveRow? && s.txns[p].pos < |s.txns[p].skus| &&
                    var k := s.txns[p].skus[s.txns[p].pos]; k in s.rows && (k in s.locks ==> s.locks[k] == p)
    case Record(p) => Active(s, p) && s.txns[p].phase.Swapped? && s.txns[p].pos < |s.txns[p].skus|
    case Finish(p) => Active(s, p) && s.txns[p].phase.Looping? && s.txns[p].pos >= |s.txns[p].skus|
    case Fail(p) => Active(s, p)
  }

  function With(s: Sys, p: nat, t: Txn): Sys {
    s.(txns := s.txns[p := t])
  }

  /** `p` has written row `k`. */
  predicate Holds(s: Sys, p: nat, k: Sku) {
    k in s.locks && s.locks[k] == p
  }

  /** The rows `p` has written. */
  function Held(s: Sys, p: nat): set<Sku> {
    set k | k in s.locks && Holds(s, p, k)
  }

  /** The writes of `p` undone and its locks released. */
  function Undone(s: Sys, p: nat): Sys {
    s.(rows := map k | k in s.rows :: if k in Held(s, p) && k in s.committed then s.committed[k] else s.rows[k],
       locks := s.locks - Held(s, p))
  }

  /** Rollback to the savepoint and answer. */
  function Abort(s: Sys, p: nat, code: int): Sys
    requires p in s.txns
  {
    With(Undone(s, p), p, s.txns[p].(phase := Answered(code), lines := []))
  }

  /** The conditional update on the current row. */
  function SwapRow(s: Sys, p: nat): Sys
    requires p in s.txns && s.txns[p].phase.HaveRow? && s.txns[p].pos < |s.txns[p].skus|
    requires s.txns[p].skus[s.txns[p].pos] in s.rows
  {
    var t := s.txns[p];
    var k, r, c := t.skus[t.pos], t.phase.row, t.phase.count;
    if s.rows[k].stock == r.stock then
      With(s.(rows := s.rows[k := s.rows[k].(stock := r.stock - c, sales := r.sales + c)], locks := s.locks[k := p]),
           p, t.(phase := Swapped(r, c)))
    else if t.attempt == 0 then With(s, p, t.(phase := Looping, attempt := 1))
    else With(s, p, t.(phase := Looping, attempt := 0, pos := t.pos + 1))
  }

  /** The line of the item just taken. */
  function NewLine(t: Txn): Line
    requires t.phase.Swapped? && t.pos < |t.skus|
  {
    Line(t.order, t.skus[t.pos], t.phase.count, t.phase.row.price)
  }

  function Recorded(t: Txn): Txn
    requires t.phase.Swapped? && t.pos < |t.skus|
  {
    var l := NewLine(t);
    t.(lines := t.lines + [l], totalCount := t.totalCount + l.count, totalPrice := t.totalPrice + l.price * l.count,
       phase := Looping, attempt := 0, pos := t.pos + 1)
  }

  /** Totals saved, transaction committed. */
  function Commit(s: Sys, p: nat): Sys
    requires p in s.txns
  {
    var t := s.txns[p];
    var h := Held(s, p);
    With(s.(committed := map k | k in s.committed :: if k in h && k in s.rows then s.rows[k] else s.committed[k],
            past := map k | k in s.past :: if k in h && k in s.rows then s.past[k] + {s.rows[k]} else s.past[k],
            locks := s.locks - h,
            orders := s.orders[t.order := Order(t.totalCount, t.totalPrice)],
            lines := s.lines + t.lines),
         p, t.(phase := Answered(5)))
  }

  /** What an enabled event does. */
  function React(s: Sys, e: Event): Sys
    requires Enabled(s, e)
  {
    match e
    case Begin(p, o, ks) => With(s, p, Txn(o, ks, Starting, 0, 0, 0, 0, []))
    case Create(p) => if s.txns[p].order in s.orders then Abort(s, p, 7) else With(s, p, s.txns[p].(phase := Looping))
    case Read(p, r, c) => if c > r.stock then Abort(s, p, 6) else With(s, p, s.txns[p].(phase := HaveRow(r, c)))
    case Missing(p) => Abort(s, p, 4)
    case Swap(p) => SwapRow(s, p)
    case Record(p) => With(s, p, Recorded(s.txns[p]))
    case Finish(p) => Commit(s, p)
    case Fail(p) => Abort(s, p, 7)
  }

  /** A run in which every event was possible when it happened. */
  ghost predicate Possible(s: Sys, es: seq<Event>) {
    es == [] || (Possible(s, es[..|es| - 1]) && Enabled(Run(s, es[..|es| - 1]), es[|es| - 1]))
  }

  function Run(s: Sys, es: seq<Event>): Sys
  {
    if es == [] then s
    else
      var b := Run(s, es[..|es| - 1]);
      if Enabled(b, es[|es| - 1]) then React(b, es[|es| - 1]) else b
  }

  /** A shop with no order under way; earlier orders have totals that fit their lines. */
  ghost predicate Quiet(s: Sys) {
    && s.locks == map[] && s.txns == map[]
    && s.committed == s.rows && s.past.Keys == s.rows.Keys
    && (forall k :: k in s.rows ==> s.past[k] == {s.rows[k]} && s.rows[k].stock >= 0)
    && (forall i :: 0 <= i < |s.lines| ==> s.lines[i].order in s.orders)
    && forall o :: o in s.orders ==> s.orders[o] == Order(CountOf(s.lines, o), PriceOf(s.lines, o))
  }

  /** The rows as if the lines of earlier orders had not been sold. */
  function Origin(s: Sys): map<Sku, Row> {
    map k | k in s.rows :: s.rows[k].(stock := s.rows[k].stock + Sold(s.lines, k), sales := s.rows[k].sales - Sold(s.lines, k))
  }

  // ---- sums over order lines ---------------------------------------------------------------

  /** How many pieces of `k` the lines sell. */
  function Sold(lines: seq<Line>, k: Sku): int {
    if lines == [] then 0
    else Sold(lines[..|lines| - 1], k) + if lines[|lines| - 1].sku == k then lines[|lines| - 1].count else 0
  }

  function CountOf(lines: seq<Line>, o: OrderId): int {
    if lines == [] then 0
    else CountOf(lines[..|lines| - 1], o) + if lines[|lines| - 1].order == o then lines[|lines| - 1].count else 0
  }

  function PriceOf(lines: seq<Line>, o: OrderId): int {
    if lines == [] then 0
    else
      var l := lines[|lines| - 1];
      PriceOf(lines[..|lines| - 1], o) + if l.order == o then l.price * l.count else 0
  }

  lemma {:induction false} SumsConcat(a: seq<Line>, b: seq<Line>, k: Sku, o: OrderId)
    ensures Sold(a + b, k) == Sold(a, k) + Sold(b, k)
    ensures CountOf(a + b, o) == CountOf(a, o) + CountOf(b, o)
    ensures PriceOf(a + b, o) == PriceOf(a, o) + PriceOf(b, o)
  {
    if b == [] {
      assert a + b == a;
    } else {
      SumsConcat(a, b[..|b| - 1], k, o);
      assert (a + b)[..|a + b| - 1] == a + b[..|b| - 1];
    }
  }

  lemma {:induction false} NoSuchOrder(a: seq<Line>, o: OrderId)
    requires forall i :: 0 <= i < |a| ==> a[i].order != o
    ensures CountOf(a, o) == 0 && PriceOf(a, o) == 0
  {
    if a != [] { NoSuchOrder(a[..|a| - 1], o); }
  }

  lemma {:induction false} NoSuchSku(a: seq<Line>, k: Sku)
    requires forall i :: 0 <= i < |a| ==> a[i].sku != k
    ensures Sold(a, k) == 0
  {
    if a != [] { NoSuchSku(a[..|a| - 1], k); }
  }

  // ---- the invariant --------------------------------------------------------------------------

  /** A row that any committed history of the SKU could show: stock + sales is `start`'s. */
  predicate Balanced(start: map<Sku, Row>, k: Sku, r: Row) {
    k in start && r.stock + r.sales == start[k].stock + start[k].sales && r.stock >= 0
  }

  ghost predicate AllBalanced(start: map<Sku, Row>, k: Sku, rs: set<Row>) {
    forall r :: r in rs ==> Balanced(start, k, r)
  }

  /** What a transaction has sold of `k`, recorded or about to be. */
  function Taking(t: Txn, k: Sku): int {
    Sold(t.lines, k) + if t.phase.Swapped? && t.pos < |t.skus| && t.skus[t.pos] == k then t.phase.count else 0
  }

  /** One SKU: all versions balance, the committed one is among the past ones, and an unlocked row is the committed one. */
  ghost predicate RowOk(start: map<Sku, Row>, s: Sys, k: Sku) {
    && k in s.rows && k in s.committed && k in s.past
    && Balanced(start, k, s.rows[k]) && s.committed[k] in s.past[k] && AllBalanced(start, k, s.past[k])
    && if k in s.locks then Active(s, s.locks[k]) else s.rows[k] == s.committed[k]
  }

  ghost predicate RowsOk(start: map<Sku, Row>, s: Sys) {
    && s.rows.Keys == start.Keys && s.committed.Keys == start.Keys && s.past.Keys == start.Keys && s.locks.Keys <= start.Keys
    && forall k :: k in start ==> RowOk(start, s, k)
  }

  /** Sales growth is the sum of the order lines, committed ones and those of the row's writer. */
  ghost predicate SalesOk(start: map<Sku, Row>, s: Sys) {
    && (forall k :: k in start && k in s.committed ==> s.committed[k].sales == start[k].sales + Sold(s.lines, k))
    && (forall k :: k in s.locks && k in s.rows && k in s.committed && s.locks[k] in s.txns ==>
          s.rows[k].sales == s.committed[k].sales + Taking(s.txns[s.locks[k]], k))
  }

  /** One transaction: its totals are the sums over its lines, all of rows it has written. */
  ghost predicate TxnOk(start: map<Sku, Row>, s: Sys, p: nat)
    requires p in s.txns
  {
    var t := s.txns[p];
    Active(s, p) ==>
      && (forall i :: 0 <= i < |t.lines| ==> t.lines[i].order == t.order && Holds(s, p, t.lines[i].sku))
      && t.totalCount == CountOf(t.lines, t.order) && t.totalPrice == PriceOf(t.lines, t.order)
      && (t.phase.Starting? ==> t.lines == [])
      && (!t.phase.Starting? ==> t.order !in s.orders)
      && (t.phase.HaveRow? || t.phase.Swapped? ==>
            t.pos < |t.skus| && Balanced(start, t.skus[t.pos], t.phase.row) && t.phase.count <= t.phase.row.stock)
      && (t.phase.Swapped? ==> Holds(s, p, t.skus[t.pos]))
  }

  /** Every order's totals are the sums over its own lines; no line without its order. */
  ghost predicate OrdersOk(s: Sys) {
    && (forall i :: 0 <= i < |s.lines| ==> s.lines[i].order in s.orders)
    && (forall o :: o in s.orders ==> s.orders[o] == Order(CountOf(s.lines, o), PriceOf(s.lines, o)))
    && (forall p, q :: Created(s, p) && Created(s, q) && p != q ==> s.txns[p].order != s.txns[q].order)
  }

  ghost predicate Inv(start: map<Sku, Row>, s: Sys) {
    && RowsOk(start, s) && SalesOk(start, s) && OrdersOk(s)
    && forall p :: p in s.txns ==> TxnOk(start, s, p)
  }

  lemma QuietInv(s: Sys)
    requires Quiet(s)
    ensures Inv(Origin(s), s)
  {
    assert Origin(s).Keys == s.rows.Keys;
    hide Sold, CountOf, PriceOf;
  }

  /** A change of transaction `p` alone that keeps its part of the invariant. */
  ghost predicate Tame(start: map<Sku, Row>, s: Sys, p: nat, t: Txn) {
    && !t.phase.Answered? && TxnOk(start, With(s, p, t), p)
    && (p in s.txns ==> Active(s, p) && forall k :: Holds(s, p, k) ==> Taking(t, k) == Taking(s.txns[p], k))
    && (p !in s.txns ==> forall k :: !Holds(s, p, k))
    && (!t.phase.Starting? ==> forall q :: Created(s, q) && q != p ==> s.txns[q].order != t.order)
  }

  lemma TameRows(start: map<Sku, Row>, s: Sys, p: nat, t: Txn)
    requires RowsOk(start, s) && !t.phase.Answered?
    ensures RowsOk(start, With(s, p, t))
  {
    hide Balanced;
  }

  lemma TameSales(start: map<Sku, Row>, s: Sys, p: nat, t: Txn)
    requires RowsOk(start, s) && SalesOk(start, s) && Tame(start, s, p, t)
    ensures SalesOk(start, With(s, p, t))
  {
    hide Taking, Sold, Balanced, TxnOk;
    var u := With(s, p, t);
    forall k | k in u.locks && k in u.rows && k in u.committed && u.locks[k] in u.txns
      ensures u.rows[k].sales == u.committed[k].sales + Taking(u.txns[u.locks[k]], k)
    {
      if u.locks[k] == p { assert Holds(s, p, k); }
    }
  }

  lemma TameOrders(start: map<Sku, Row>, s: Sys, p: nat, t: Txn)
    requires OrdersOk(s) && Tame(start, s, p, t)
    ensures OrdersOk(With(s, p, t))
  {
    hide Taking, CountOf, PriceOf, TxnOk, Held;
    assert forall q :: Created(With(s, p, t), q) && q != p ==> Created(s, q);
  }

  /** A transaction's own part of the invariant does not see what others hold or do. */
  lemma OtherTxn(start: map<Sku, Row>, s: Sys, u: Sys, q: nat)
    requires q in s.txns && q in u.txns && u.txns[q] == s.txns[q] && TxnOk(start, s, q)
    requires forall k :: Holds(s, q, k) ==> Holds(u, q, k)
    requires Created(s, q) && s.txns[q].order in u.orders ==> s.txns[q].order in s.orders
    ensures TxnOk(start, u, q)
  {
    hide CountOf, PriceOf, Balanced;
  }

  /** Only transaction `p` changes, from `s.txns[p]` (if any) to `t`; rows, locks and orders stay. */
  lemma TxnChange(start: map<Sku, Row>, s: Sys, p: nat, t: Txn)
    requires Inv(start, s) && Tame(start, s, p, t)
    ensures Inv(start, With(s, p, t))
  {
    hide RowsOk, SalesOk, OrdersOk, TxnOk;
    var u := With(s, p, t);
    TameRows(start, s, p, t);
    TameSales(start, s, p, t);
    TameOrders(start, s, p, t);
    forall q | q in u.txns
      ensures TxnOk(start, u, q)
    {
      if q != p { OtherTxn(start, s, u, q); }
    }
  }

  lemma NothingHeld(start: map<Sku, Row>, s: Sys, p: nat)
    requires Inv(start, s) && p !in s.txns
    ensures forall k :: !Holds(s, p, k)
  {
    hide TxnOk, SalesOk, OrdersOk, Balanced;
  }

  /** The effect of a rollback, row by row. */
  ghost predicate RolledBack(s: Sys, p: nat, u: Sys) {
    && p in s.txns && u.committed == s.committed && u.past == s.past && u.orders == s.orders && u.lines == s.lines
    && u.rows.Keys == s.rows.Keys
    && (forall k :: k in s.rows ==> u.rows[k] == if Holds(s, p, k) && k in s.committed then s.committed[k] else s.rows[k])
    && (forall k :: k in u.locks <==> k in s.locks && !Holds(s, p, k))
    && (forall k :: k in u.locks ==> u.locks[k] == s.locks[k])
    && p in u.txns && u.txns == s.txns[p := u.txns[p]] && u.txns[p].phase.Answered?
  }

  lemma AbortEffect(s: Sys, p: nat, code: int)
    requires p in s.txns
    ensures RolledBack(s, p, Abort(s, p, code))
  {
    var u := Abort(s, p, code);
    assert u.rows.Keys == s.rows.Keys;
  }

  lemma AbortRows(start: map<Sku, Row>, s: Sys, p: nat, u: Sys)
    requires RowsOk(start, s) && RolledBack(s, p, u)
    ensures RowsOk(start, u)
  {
    forall k | k in start
      ensures RowOk(start, u, k)
    {
      AbortRow(start, s, p, u, k);
    }
    hide RowOk;
  }

  lemma AbortRow(start: map<Sku, Row>, s: Sys, p: nat, u: Sys, k: Sku)
    requires k in start && RowOk(start, s, k) && RolledBack(s, p, u)
    ensures RowOk(start, u, k)
  {
    hide Balanced;
    assert Balanced(start, k, s.committed[k]);
  }

  lemma AbortSales(start: map<Sku, Row>, s: Sys, p: nat, u: Sys)
    requires RowsOk(start, s) && SalesOk(start, s) && RolledBack(s, p, u)
    ensures SalesOk(start, u)
  {
    hide Taking, Sold, Balanced;
  }

  lemma AbortOrders(s: Sys, p: nat, u: Sys)
    requires OrdersOk(s) && RolledBack(s, p, u)
    ensures OrdersOk(u)
  {
    hide CountOf, PriceOf, Holds;
    assert forall q :: Created(u, q) ==> Created(s, q) && q != p;
  }

  /** Rollback. */
  lemma AbortInv(start: map<Sku, Row>, s: Sys, p: nat, code: int)
    requires Inv(start, s) && Active(s, p)
    ensures Inv(start, Abort(s, p, code))
  {
    hide RowsOk, SalesOk, OrdersOk, TxnOk, Abort;
    var u := Abort(s, p, code);
    AbortEffect(s, p, code);
    AbortRows(start, s, p, u);
    AbortSales(start, s, p, u);
    AbortOrders(s, p, u);
    forall q | q in u.txns
      ensures TxnOk(start, u, q)
    {
      if q != p {
        OtherTxn(start, s, u, q);
      } else {
        EndedTxn(start, u, p);
      }
    }
  }

  lemma EndedTxn(start: map<Sku, Row>, s: Sys, p: nat)
    requires p in s.txns && !Active(s, p)
    ensures TxnOk(start, s, p)
  {
  }

  /** The current row is the one read, when the stock is: both rows balance. */
  lemma SameRow(start: map<Sku, Row>, s: Sys, p: nat)
    requires Inv(start, s) && Hits(s, p)
    ensures var t := s.txns[p]; var k := t.skus[t.pos];
            (k in start && s.rows[k].sales == t.phase.row.sales && t.phase.count <= s.rows[k].stock &&
             (k in s.locks ==> Holds(s, p, k)) && Balanced(start, k, s.rows[k]))
  {
    hide SalesOk, OrdersOk, CountOf, PriceOf;
    assert TxnOk(start, s, p);
  }

  /** A conditional update that meets the stock it has read. */
  ghost predicate Hits(s: Sys, p: nat) {
    Enabled(s, Swap(p)) && var t := s.txns[p]; s.rows[t.skus[t.pos]].stock == t.phase.row.stock
  }

  /** The effect of a successful conditional update by `p` on row `k`. */
  ghost predicate Moved(s: Sys, p: nat, k: Sku, c: int, u: Sys) {
    && k in s.rows && (k in s.locks ==> s.locks[k] == p) && p in s.txns && p in u.txns
    && u == s.(rows := u.rows, locks := s.locks[k := p], txns := s.txns[p := u.txns[p]])
    && u.rows == s.rows[k := s.rows[k].(stock := s.rows[k].stock - c, sales := s.rows[k].sales + c)]
    && c <= s.rows[k].stock
    && s.txns[p].phase.HaveRow? && s.txns[p].pos < |s.txns[p].skus| && s.txns[p].skus[s.txns[p].pos] == k
    && u.txns[p] == s.txns[p].(phase := Swapped(s.txns[p].phase.row, c)) && s.txns[p].phase.count == c
  }

  lemma SwapEffect(start: map<Sku, Row>, s: Sys, p: nat)
    requires Inv(start, s) && Hits(s, p)
    ensures var t := s.txns[p]; Moved(s, p, t.skus[t.pos], t.phase.count, SwapRow(s, p)) && t.skus[t.pos] in start
  {
    SameRow(start, s, p);
    hide Inv, Balanced;
  }

  lemma SwapRows(start: map<Sku, Row>, s: Sys, p: nat, k: Sku, c: int, u: Sys)
    requires RowsOk(start, s) && k in start && Moved(s, p, k, c, u)
    ensures RowsOk(start, u)
  {
    assert Balanced(start, k, u.rows[k]);
    hide Balanced;
  }

  /** The row sells as much more as the transaction has now taken. */
  lemma SwapSales(start: map<Sku, Row>, s: Sys, p: nat, k: Sku, c: int, u: Sys)
    requires Moved(s, p, k, c, u) && RowsOk(start, s) && SalesOk(start, s) && TxnOk(start, s, p)
    ensures SalesOk(start, u)
  {
    hide Sold, RowOk, TxnOk, Taking;
    forall j | j in u.locks && u.locks[j] in u.txns && j in u.rows && j in u.committed
      ensures u.rows[j].sales == u.committed[j].sales + Taking(u.txns[u.locks[j]], j)
    {
      if j == k { SwapSale(start, s, p, k, c, u); } else { OtherTaking(s, p, k, c, u, j); }
    }
  }

  /** The row moved. */
  lemma SwapSale(start: map<Sku, Row>, s: Sys, p: nat, k: Sku, c: int, u: Sys)
    requires Moved(s, p, k, c, u) && RowsOk(start, s) && SalesOk(start, s) && TxnOk(start, s, p) && k in s.committed
    ensures u.rows[k].sales == u.committed[k].sales + Taking(u.txns[p], k)
  {
    hide Sold, CountOf, PriceOf, Balanced;
    if k !in s.locks {
      NoSuchSku(s.txns[p].lines, k);
      assert RowOk(start, s, k);
    }
  }

  /** What anybody has taken of another row. */
  lemma OtherTaking(s: Sys, p: nat, k: Sku, c: int, u: Sys, j: Sku)
    requires Moved(s, p, k, c, u) && j != k
    ensures forall q :: q in s.txns ==> Taking(u.txns[q], j) == Taking(s.txns[q], j)
  {
    hide Sold;
  }

  lemma SwapOrders(s: Sys, p: nat, k: Sku, c: int, u: Sys)
    requires OrdersOk(s) && Moved(s, p, k, c, u)
    ensures OrdersOk(u)
  {
    hide CountOf, PriceOf;
    assert forall q :: Created(u, q) ==> Created(s, q);
  }

  lemma SwappedTxn(start: map<Sku, Row>, s: Sys, p: nat, k: Sku, c: int, u: Sys)
    requires Moved(s, p, k, c, u) && TxnOk(start, s, p)
    ensures TxnOk(start, u, p)
  {
    hide CountOf, PriceOf, Balanced;
    assert forall j :: Holds(s, p, j) ==> Holds(u, p, j);
  }

  /** A successful conditional update. */
  lemma SwapInv(start: map<Sku, Row>, s: Sys, p: nat)
    requires Inv(start, s) && Hits(s, p)
    ensures Inv(start, SwapRow(s, p))
  {
    hide RowsOk, SalesOk, OrdersOk, TxnOk, SwapRow;
    var t, u := s.txns[p], SwapRow(s, p);
    var k, c := t.skus[t.pos], t.phase.count;
    SwapEffect(start, s, p);
    SwapRows(start, s, p, k, c, u);
    SwapSales(start, s, p, k, c, u);
    SwapOrders(s, p, k, c, u);
    forall q | q in u.txns
      ensures TxnOk(start, u, q)
    {
      assert TxnOk(start, s, q);
      if q != p {
        OtherTxn(start, s, u, q);
      } else {
        SwappedTxn(start, s, p, k, c, u);
      }
    }
  }

  /** The effect of a commit, row by row. */
  ghost predicate Saved(s: Sys, p: nat, u: Sys) {
    && p in s.txns && u.rows == s.rows
    && u.committed.Keys == s.committed.Keys && u.past.Keys == s.past.Keys
    && (forall k :: k in s.committed ==> u.committed[k] == if Holds(s, p, k) && k in s.rows then s.rows[k] else s.committed[k])
    && (forall k :: k in s.past ==> u.past[k] == if Holds(s, p, k) && k in s.rows then s.past[k] + {s.rows[k]} else s.past[k])
    && (forall k :: k in u.locks <==> k in s.locks && !Holds(s, p, k))
    && (forall k :: k in u.locks ==> u.locks[k] == s.locks[k])
    && u.orders == s.orders[s.txns[p].order := Order(s.txns[p].totalCount, s.txns[p].totalPrice)]
    && u.lines == s.lines + s.txns[p].lines
    && p in u.txns && u.txns == s.txns[p := u.txns[p]] && u.txns[p].phase.Answered?
    && Created(s, p) && s.txns[p].phase.Looping?
  }

  lemma CommitEffect(s: Sys, p: nat)
    requires Enabled(s, Finish(p))
    ensures Saved(s, p, Commit(s, p))
  {
    var u := Commit(s, p);
    assert u.committed.Keys == s.committed.Keys && u.past.Keys == s.past.Keys;
  }

  lemma CommitRows(start: map<Sku, Row>, s: Sys, p: nat, u: Sys)
    requires RowsOk(start, s) && Saved(s, p, u)
    ensures RowsOk(start, u)
  {
    forall k | k in start
      ensures RowOk(start, u, k)
    {
      CommitRow(start, s, p, u, k);
    }
    hide RowOk;
  }

  lemma CommitRow(start: map<Sku, Row>, s: Sys, p: nat, u: Sys, k: Sku)
    requires k in start && RowOk(start, s, k) && Saved(s, p, u)
    ensures RowOk(start, u, k)
  {
    hide Balanced, AllBalanced;
    OneMoreBalanced(start, k, s.past[k], s.rows[k]);
  }

  lemma OneMoreBalanced(start: map<Sku, Row>, k: Sku, rs: set<Row>, r: Row)
    requires AllBalanced(start, k, rs) && Balanced(start, k, r)
    ensures AllBalanced(start, k, rs + {r})
  {
  }

  lemma CommitSales(start: map<Sku, Row>, s: Sys, p: nat, u: Sys)
    requires Saved(s, p, u) && RowsOk(start, s) && SalesOk(start, s) && TxnOk(start, s, p)
    ensures SalesOk(start, u)
  {
    hide Sold, CountOf, PriceOf, Balanced, TxnOk, RowOk;
    forall k | k in start && k in u.committed
      ensures u.committed[k].sales == start[k].sales + Sold(u.lines, k)
    {
      CommitSale(start, s, p, u, k);
    }
    hide Taking;
  }

  lemma CommitSale(start: map<Sku, Row>, s: Sys, p: nat, u: Sys, k: Sku)
    requires Saved(s, p, u) && SalesOk(start, s) && TxnOk(start, s, p) && k in start && k in u.committed && RowOk(start, s, k)
    ensures u.committed[k].sales == start[k].sales + Sold(u.lines, k)
  {
    hide Sold, CountOf, PriceOf, Balanced, AllBalanced;
    SumsConcat(s.lines, s.txns[p].lines, k, 0);
    if !Holds(s, p, k) { NoSuchSku(s.txns[p].lines, k); }
  }

  lemma CommitOrders(start: map<Sku, Row>, s: Sys, p: nat, u: Sys)
    requires Saved(s, p, u) && OrdersOk(s) && TxnOk(start, s, p)
    ensures OrdersOk(u)
  {
    hide Sold, CountOf, PriceOf, Balanced, Holds;
    var t := s.txns[p];
    forall o | o in u.orders
      ensures u.orders[o] == Order(CountOf(u.lines, o), PriceOf(u.lines, o))
    {
      SumsConcat(s.lines, t.lines, 0, o);
      if o == t.order { NoSuchOrder(s.lines, o); } else { NoSuchOrder(t.lines, o); }
    }
    assert forall q :: Created(u, q) ==> Created(s, q) && q != p;
  }

  /** Commit. */
  lemma CommitInv(start: map<Sku, Row>, s: Sys, p: nat)
    requires Inv(start, s) && Enabled(s, Finish(p))
    ensures Inv(start, Commit(s, p))
  {
    hide RowsOk, SalesOk, TxnOk, OrdersOk, Commit;
    var u := Commit(s, p);
    CommitEffect(s, p);
    CommitRows(start, s, p, u);
    CommitSales(start, s, p, u);
    CommitOrders(start, s, p, u);
    forall q | q in u.txns
      ensures TxnOk(start, u, q)
    {
      if q != p {
        DistinctOrders(s, p, q);
        OtherTxn(start, s, u, q);
      } else {
        EndedTxn(start, u, p);
      }
    }
  }

  lemma DistinctOrders(s: Sys, p: nat, q: nat)
    requires OrdersOk(s) && p != q && Created(s, p)
    ensures Created(s, q) ==> s.txns[p].order != s.txns[q].order
  {
  }

  /** Every enabled event keeps the invariant. */
  lemma StepInv(start: map<Sku, Row>, s: Sys, e: Event)
    requires Inv(start, s) && Enabled(s, e)
    ensures Inv(start, React(s, e))
  {
    hide Inv, Abort, Commit, SwapRow, Recorded, Contended, Readable;
    match e
    case Begin(p, o, ks) =>
      NothingHeld(start, s, p);
      BeginInv(start, s, p, o, ks);
    case Create(p) => if s.txns[p].order in s.orders { AbortInv(start, s, p, 7); } else { CreateInv(start, s, p); }
    case Read(p, r, c) => if c > r.stock { AbortInv(start, s, p, 6); } else { ReadInv(start, s, p, r, c); }
    case Missing(p) => AbortInv(start, s, p, 4);
    case Swap(p) => if Hits(s, p) { SwapInv(start, s, p); } else { LostInv(start, s, p); }
    case Record(p) => RecordInv(start, s, p);
    case Finish(p) => CommitInv(start, s, p);
    case Fail(p) => AbortInv(start, s, p, 7);
  }

  lemma BeginInv(start: map<Sku, Row>, s: Sys, p: nat, o: OrderId, ks: seq<Sku>)
    requires Inv(start, s) && p !in s.txns && forall k :: !Holds(s, p, k)
    ensures Inv(start, With(s, p, Txn(o, ks, Starting, 0, 0, 0, 0, [])))
  {
    hide RowsOk, SalesOk, OrdersOk;
    TxnChange(start, s, p, Txn(o, ks, Starting, 0, 0, 0, 0, []));
  }

  lemma CreateInv(start: map<Sku, Row>, s: Sys, p: nat)
    requires Inv(start, s) && Enabled(s, Create(p)) && s.txns[p].order !in s.orders
    ensures Inv(start, With(s, p, s.txns[p].(phase := Looping)))
  {
    hide RowsOk, SalesOk, OrdersOk, Sold, CountOf, PriceOf, Balanced;
    assert TxnOk(start, s, p);
    TxnChange(start, s, p, s.txns[p].(phase := Looping));
  }

  lemma ReadInv(start: map<Sku, Row>, s: Sys, p: nat, r: Row, c: int)
    requires Inv(start, s) && Enabled(s, Read(p, r, c)) && c <= r.stock
    ensures Inv(start, With(s, p, s.txns[p].(phase := HaveRow(r, c))))
  {
    hide SalesOk, Sold, CountOf, PriceOf;
    assert TxnOk(start, s, p) && Created(s, p);
    TxnChange(start, s, p, s.txns[p].(phase := HaveRow(r, c)));
  }

  lemma LostInv(start: map<Sku, Row>, s: Sys, p: nat)
    requires Inv(start, s) && Enabled(s, Swap(p))
    requires s.rows[s.txns[p].skus[s.txns[p].pos]].stock != s.txns[p].phase.row.stock
    ensures Inv(start, SwapRow(s, p))
  {
    var t := s.txns[p];
    var u := if t.attempt == 0 then t.(phase := Looping, attempt := 1) else t.(phase := Looping, attempt := 0, pos := t.pos + 1);
    assert SwapRow(s, p) == With(s, p, u);
    hide RowsOk, SalesOk, OrdersOk, Sold, CountOf, PriceOf, Balanced, SwapRow;
    GaveUpTame(start, s, p, u);
    TxnChange(start, s, p, u);
  }

  /** Back to the head of the loop without a row. */
  lemma GaveUpTame(start: map<Sku, Row>, s: Sys, p: nat, u: Txn)
    requires p in s.txns && TxnOk(start, s, p) && OrdersOk(s) && Active(s, p) && s.txns[p].phase.HaveRow?
    requires u == s.txns[p].(phase := Looping, attempt := u.attempt, pos := u.pos)
    ensures Tame(start, s, p, u)
  {
    hide Sold, CountOf, PriceOf, Balanced;
    assert Created(s, p);
  }

  lemma RecordInv(start: map<Sku, Row>, s: Sys, p: nat)
    requires Inv(start, s) && Enabled(s, Record(p))
    ensures Inv(start, With(s, p, Recorded(s.txns[p])))
  {
    hide SalesOk, RowsOk, OrdersOk, TxnOk, Recorded;
    assert TxnOk(start, s, p);
    RecordTame(start, s, p);
    TxnChange(start, s, p, Recorded(s.txns[p]));
  }

  /** The piece about to be recorded becomes a line. */
  lemma RecordTame(start: map<Sku, Row>, s: Sys, p: nat)
    requires Enabled(s, Record(p)) && TxnOk(start, s, p) && OrdersOk(s)
    ensures Tame(start, s, p, Recorded(s.txns[p]))
  {
    hide Balanced, Sold, CountOf, PriceOf;
    var t := s.txns[p];
    assert Created(s, p);
    forall k
      ensures Taking(Recorded(t), k) == Taking(t, k)
    {
      RecordedSums(t, k);
    }
    RecordedSums(t, 0);
  }

  lemma RecordedSums(t: Txn, k: Sku)
    requires t.phase.Swapped? && t.pos < |t.skus|
    ensures var u, l := Recorded(t), NewLine(t);
            (Sold(u.lines, k) == Sold(t.lines, k) + (if l.sku == k then l.count else 0) &&
             CountOf(u.lines, t.order) == CountOf(t.lines, t.order) + l.count &&
             PriceOf(u.lines, t.order) == PriceOf(t.lines, t.order) + l.price * l.count)
  {
    var u := Recorded(t);
    assert u.lines[..|u.lines| - 1] == t.lines;
  }

  lemma {:induction false} RunInv(s: Sys, es: seq<Event>)
    requires Quiet(s)
    ensures Inv(Origin(s), Run(s, es))
  {
    hide Inv, React, Enabled, Quiet;
    if es == [] {
      QuietInv(s);
    } else {
      var b, e := Run(s, es[..|es| - 1]), es[|es| - 1];
      RunInv(s, es[..|es| - 1]);
      if Enabled(b, e) { StepInv(Origin(s), b, e); }
    }
  }

  // ---- what holds in every run ------------------------------------------------------------------

  /** What an event makes of orders and lines. */
  ghost predicate Books(s: Sys, e: Event, u: Sys) {
    if e.Finish? then
      && e.p in s.txns && e.p in u.txns && u.txns[e.p] == s.txns[e.p].(phase := Answered(5))
      && u.lines == s.lines + s.txns[e.p].lines && s.txns[e.p].order in u.orders && forall o :: o in s.orders ==> o in u.orders
    else u.lines == s.lines && u.orders == s.orders
  }

  lemma AbortBooks(s: Sys, p: nat, code: int)
    requires p in s.txns
    ensures Abort(s, p, code).orders == s.orders && Abort(s, p, code).lines == s.lines
    ensures Abort(s, p, code).txns == s.txns[p := s.txns[p].(phase := Answered(code), lines := [])]
  {
  }

  lemma CommitBooks(s: Sys, p: nat)
    requires p in s.txns
    ensures Commit(s, p).lines == s.lines + s.txns[p].lines
    ensures Commit(s, p).orders == s.orders[s.txns[p].order := Order(s.txns[p].totalCount, s.txns[p].totalPrice)]
    ensures Commit(s, p).txns == s.txns[p := s.txns[p].(phase := Answered(5))]
  {
  }

  /** The transaction an event belongs to, after it. */
  function NextTxn(s: Sys, e: Event): Txn
    requires Enabled(s, e)
  {
    match e
    case Begin(p, o, ks) => Txn(o, ks, Starting, 0, 0, 0, 0, [])
    case Create(p) => if s.txns[p].order in s.orders then s.txns[p].(phase := Answered(7), lines := []) else s.txns[p].(phase := Looping)
    case Read(p, r, c) => if c > r.stock then s.txns[p].(phase := Answered(6), lines := []) else s.txns[p].(phase := HaveRow(r, c))
    case Missing(p) => s.txns[p].(phase := Answered(4), lines := [])
    case Swap(p) =>
      var t := s.txns[p];
      if s.rows[t.skus[t.pos]].stock == t.phase.row.stock then t.(phase := Swapped(t.phase.row, t.phase.count))
      else if t.attempt == 0 then t.(phase := Looping, attempt := 1) else t.(phase := Looping, attempt := 0, pos := t.pos + 1)
    case Record(p) => Recorded(s.txns[p])
    case Finish(p) => s.txns[p].(phase := Answered(5))
    case Fail(p) => s.txns[p].(phase := Answered(7), lines := [])
  }

  /** An event changes no other transaction. */
  lemma StepTxns(s: Sys, e: Event)
    requires Enabled(s, e)
    ensures React(s, e).txns == s.txns[e.p := NextTxn(s, e)]
  {
    hide Contended, Commit, Abort, Recorded;
    match e
    case Swap(q) =>
    case Finish(q) => CommitBooks(s, q);
    case Begin(q, o, ks) =>
    case Create(q) => AbortBooks(s, q, 7);
    case Read(q, r, c) => AbortBooks(s, q, 6);
    case Missing(q) => AbortBooks(s, q, 4);
    case Record(q) =>
    case Fail(q) => AbortBooks(s, q, 7);
  }

  lemma StepBooks(s: Sys, e: Event)
    requires Enabled(s, e)
    ensures Books(s, e, React(s, e))
  {
    hide Contended, Commit, Abort, Recorded;
    match e
    case Swap(q) =>
    case Finish(q) => CommitBooks(s, q);
    case Begin(q, o, ks) =>
    case Create(q) => AbortBooks(s, q, 7);
    case Read(q, r, c) => AbortBooks(s, q, 6);
    case Missing(q) => AbortBooks(s, q, 4);
    case Record(q) =>
    case Fail(q) => AbortBooks(s, q, 7);
  }

  lemma {:induction false} LinesStay(s: Sys, es: seq<Event>)
    ensures |s.lines| <= |Run(s, es).lines| && Run(s, es).lines[..|s.lines|] == s.lines
  {
    if es != [] {
      hide Enabled, React;
      var b, e := Run(s, es[..|es| - 1]), es[|es| - 1];
      LinesStay(s, es[..|es| - 1]);
      if Enabled(b, e) {
        StepBooks(b, e);
        assert e.Finish? ==> React(b, e).lines[..|b.lines|] == b.lines;
      }
      assert Run(s, es).lines[..|b.lines|] == b.lines;
      assert Run(s, es).lines[..|s.lines|] == Run(s, es).lines[..|b.lines|][..|s.lines|];
    }
  }

  /** The lines of the orders committed in a run. */
  function Added(s: Sys, u: Sys): seq<Line>
    requires |s.lines| <= |u.lines|
  {
    u.lines[|s.lines|..]
  }

  /** Over every interleaving of order commits, at every moment, for every SKU: stock + sales is what it was
      at the start, stock is not negative, and committed sales have grown by the pieces on the order lines added
      since; so have the current ones once no commit is under way. */
  lemma Conservation(s: Sys, es: seq<Event>, k: Sku)
    requires Quiet(s) && k in s.rows
    ensures var u := Run(s, es);
            (k in u.rows && k in u.committed && |s.lines| <= |u.lines| && u.lines == s.lines + Added(s, u) &&
             u.rows[k].stock + u.rows[k].sales == s.rows[k].stock + s.rows[k].sales && u.rows[k].stock >= 0 &&
             u.committed[k].stock + u.committed[k].sales == s.rows[k].stock + s.rows[k].sales && u.committed[k].stock >= 0 &&
             u.committed[k].sales == s.rows[k].sales + Sold(Added(s, u), k) &&
             ((forall p :: !Active(u, p)) ==> u.rows[k] == u.committed[k]))
  {
    hide Sold, Quiet, Run, TxnOk, OrdersOk;
    RunInv(s, es);
    LinesStay(s, es);
    var u := Run(s, es);
    assert u.lines == s.lines + Added(s, u);
    SumsConcat(s.lines, Added(s, u), k, 0);
    assert u.committed[k] in u.past[k];
  }

  /** Every surviving order has totals that are the sums over its own lines, whatever items were skipped. */
  lemma TotalsMatchLines(s: Sys, es: seq<Event>, o: OrderId)
    requires Quiet(s) && o in Run(s, es).orders
    ensures var u := Run(s, es); u.orders[o] == Order(CountOf(u.lines, o), PriceOf(u.lines, o))
  {
    RunInv(s, es);
    hide Quiet, Run, RowsOk, SalesOk, TxnOk, CountOf, PriceOf;
  }

  /** Why comparing only the stock is enough: whenever a conditional update meets the stock it has
      read - however long ago - the sales are those it has read, too. */
  lemma EqualStockMeansEqualSales(s: Sys, es: seq<Event>, p: nat)
    requires Quiet(s) && Enabled(Run(s, es), Swap(p))
    requires var u := Run(s, es); var t := u.txns[p]; u.rows[t.skus[t.pos]].stock == t.phase.row.stock
    ensures var u := Run(s, es); var t := u.txns[p]; u.rows[t.skus[t.pos]].sales == t.phase.row.sales
  {
    RunInv(s, es);
    hide Quiet, Run, SalesOk, OrdersOk, CountOf, PriceOf;
    assert TxnOk(Origin(s), Run(s, es), p);
  }
}
