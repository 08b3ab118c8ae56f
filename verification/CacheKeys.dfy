/** Walking over all items of a cache with uwsgi_cache_keys: bucket after bucket,
    chain element after chain element. */
module CacheKeys {
  import opened Basics
  import opened CacheModel
  import opened CacheLayout

  /** The element of `c` behind `x`, 0 if `x` is last or absent. */
  function After(c: seq<nat>, x: nat): nat {
    if c == [] then 0 else if c[0] == x then At(c, 1) else After(c[1..], x)
  }

  /** The first item at or behind bucket `p`. */
  function FirstFrom(chains: seq<seq<nat>>, p: nat): (nat, nat)
    decreases |chains| - p
  {
    if p >= |chains| then (|chains| + 1, 0)
    else if First(chains[p]) != 0 then (p, First(chains[p]))
    else FirstFrom(chains, p + 1)
  }

  /** One call: from bucket `pos` and last item `cur` (0 for none) to the next pair. */
  function NextKey(chains: seq<seq<nat>>, pos: nat, cur: nat): (nat, nat) {
    if pos >= |chains| then (pos, 0)
    else
      var s := if cur != 0 then After(chains[pos], cur) else First(chains[pos]);
      if s != 0 then (pos, s) else FirstFrom(chains, pos + 1)
  }

  /** The position, the caller's last item and the last result after `k` calls from position 0 and a null item.  A call
      that returns null leaves the item as it is. */
  function AfterCalls(chains: seq<seq<nat>>, k: nat): (nat, nat, nat) {
    if k == 0 then (0, 0, 0)
    else
      var (pos, cur, _) := AfterCalls(chains, k - 1);
      var (q, s) := NextKey(chains, pos, cur);
      (q, if s != 0 then s else cur, s)
  }

  /** Where the iteration stands: the last item is one of the bucket, as long as there are buckets. */
  predicate AtItem(chains: seq<seq<nat>>, pos: nat, cur: nat) {
    cur != 0 && pos < |chains| ==> cur in chains[pos]
  }

  /** All chains from bucket `p` on, one behind the other. */
  function Flat(chains: seq<seq<nat>>, p: nat): seq<nat>
    decreases |chains| - p
  {
    if p >= |chains| then [] else chains[p] + Flat(chains, p + 1)
  }

  /** The part of `c` behind `x`. */
  function Behind(c: seq<nat>, x: nat): seq<nat> {
    if c == [] then [] else if c[0] == x then c[1..] else Behind(c[1..], x)
  }

  /** What is still to come at a position. */
  function Rest(chains: seq<seq<nat>>, pos: nat, cur: nat): seq<nat> {
    if pos >= |chains| then []
    else (if cur != 0 then Behind(chains[pos], cur) else chains[pos]) + Flat(chains, pos + 1)
  }

  /** Chains without the slot number 0. */
  ghost predicate Slots(chains: seq<seq<nat>>) {
    forall b, k :: 0 <= b < |chains| && 0 <= k < |chains[b]| ==> chains[b][k] > 0
  }

  lemma {:induction false} AfterIsBehind(c: seq<nat>, x: nat)
    requires Distinct(c)
    ensures After(c, x) == First(Behind(c, x))
    ensures Behind(c, x) != [] ==> Behind(c, First(Behind(c, x))) == Behind(c, x)[1..]
    ensures forall y :: y in Behind(c, x) ==> y in c
  {
    if c != [] {
      if c[0] == x {
        if |c| > 1 { DistinctAt(c, 0, 1); }
      } else {
        DistinctTail(c);
        AfterIsBehind(c[1..], x);
        var d := Behind(c[1..], x);
        if d != [] {
          assert d[0] in d && d[0] in c[1..];
          HeadNotInTail(c, d[0]);
        }
      }
    }
  }

  lemma HeadNotInTail(c: seq<nat>, y: nat)
    requires Distinct(c) && c != [] && y in c[1..]
    ensures c[0] != y
  {
    var k :| 0 <= k < |c[1..]| && c[1..][k] == y;
    DistinctAt(c, 0, k + 1);
  }

  lemma {:induction false} FirstFromIsHead(chains: seq<seq<nat>>, p: nat)
    requires Slots(chains)
    ensures var (q, s) := FirstFrom(chains, p); var f := Flat(chains, p);
            (s == First(f) && (f == [] ==> q >= |chains|) && (f != [] ==> p <= q < |chains| && Rest(chains, q, s) == f[1..]))
    decreases |chains| - p
  {
    if p < |chains| {
      var c := chains[p];
      if c != [] {
        assert c[0] > 0;
        assert Behind(c, c[0]) == c[1..];
        assert Flat(chains, p)[1..] == c[1..] + Flat(chains, p + 1);
      } else {
        FirstFromIsHead(chains, p + 1);
        assert Flat(chains, p) == Flat(chains, p + 1);
      }
    }
  }

  /** One call hands out the first item still to come and leaves the others to come. */
  lemma NextIsHead(chains: seq<seq<nat>>, pos: nat, cur: nat)
    requires Slots(chains) && forall b :: 0 <= b < |chains| ==> Distinct(chains[b])
    ensures var (q, s) := NextKey(chains, pos, cur); var r := Rest(chains, pos, cur);
            (s == First(r) && Rest(chains, q, s) == (if r == [] then [] else r[1..]) && (r != [] ==> r[0] > 0) &&
             (r == [] ==> q >= |chains|))
  {
    if pos < |chains| {
      var c := chains[pos];
      AfterIsBehind(c, cur);
      FirstFromIsHead(chains, pos + 1);
      FlatSlots(chains, pos + 1);
      if (if cur != 0 then Behind(c, cur) else c) != [] {
        NextInBucket(chains, pos, cur);
      } else {
        hide Flat, Behind, After, FirstFrom;
        assert Rest(chains, pos, cur) == Flat(chains, pos + 1);
      }
    }
  }

  lemma NextInBucket(chains: seq<seq<nat>>, pos: nat, cur: nat)
    requires Slots(chains) && pos < |chains| && Distinct(chains[pos])
    requires (if cur != 0 then Behind(chains[pos], cur) else chains[pos]) != []
    ensures var (q, s) := NextKey(chains, pos, cur); var r := Rest(chains, pos, cur);
            (r != [] && s == r[0] > 0 && Rest(chains, q, s) == r[1..])
  {
    hide Flat, FirstFrom, Behind, After, Distinct, Slots;
    var c := chains[pos];
    var d := if cur != 0 then Behind(c, cur) else c;
    BucketNext(c, cur);
    SlotPositive(chains, pos, d[0]);
    TailFirst(d, Flat(chains, pos + 1));
  }

  lemma SlotPositive(chains: seq<seq<nat>>, pos: nat, x: nat)
    requires Slots(chains) && pos < |chains| && x in chains[pos]
    ensures x > 0
  {
    var k :| 0 <= k < |chains[pos]| && chains[pos][k] == x;
  }

  lemma TailFirst(d: seq<nat>, f: seq<nat>)
    requires d != []
    ensures (d + f)[0] == d[0] && (d + f)[1..] == d[1..] + f
  {
  }

  /** The next item of a bucket, and what is behind it. */
  lemma BucketNext(c: seq<nat>, cur: nat)
    requires Distinct(c)
    requires (if cur != 0 then Behind(c, cur) else c) != []
    ensures var d := if cur != 0 then Behind(c, cur) else c; var s := if cur != 0 then After(c, cur) else First(c);
            s == d[0] && d[0] in c && Behind(c, s) == d[1..]
  {
    AfterIsBehind(c, cur);
    hide Distinct;
    if cur != 0 {
      var d := Behind(c, cur);
      assert d[0] in d;
    }
  }

  lemma {:induction false} FlatSlots(chains: seq<seq<nat>>, p: nat)
    requires Slots(chains)
    ensures forall k :: 0 <= k < |Flat(chains, p)| ==> Flat(chains, p)[k] > 0
    decreases |chains| - p
  {
    if p < |chains| {
      FlatSlots(chains, p + 1);
    }
  }

  lemma RestAtStart(chains: seq<seq<nat>>)
    ensures Rest(chains, 0, 0) == Flat(chains, 0)[0..]
  {
  }

  lemma {:induction false} RestAfterCalls(chains: seq<seq<nat>>, k: nat)
    requires Slots(chains) && forall b :: 0 <= b < |chains| ==> Distinct(chains[b])
    ensures var (q, cur, _) := AfterCalls(chains, k); var f := Flat(chains, 0);
            Rest(chains, q, cur) == if k <= |f| then f[k..] else []
  {
    hide NextKey, Rest, Flat, Slots, Distinct;
    var f := Flat(chains, 0);
    if k == 0 {
      RestAtStart(chains);
    } else {
      RestAfterCalls(chains, k - 1);
      var (pos, cur, _) := AfterCalls(chains, k - 1);
      NextIsHead(chains, pos, cur);
      NothingBehind(chains, NextKey(chains, pos, cur).0, cur);
      if k <= |f| { assert f[k - 1..][1..] == f[k..]; }
    }
  }

  lemma NothingBehind(chains: seq<seq<nat>>, pos: nat, cur: nat)
    ensures pos >= |chains| ==> Rest(chains, pos, cur) == []
  {
  }

  lemma {:induction false} FirstFromIsItem(chains: seq<seq<nat>>, p: nat)
    ensures var (q, s) := FirstFrom(chains, p); if s != 0 then q < |chains| && s in chains[q] else q >= |chains|
    decreases |chains| - p
  {
    if p < |chains| && First(chains[p]) == 0 { FirstFromIsItem(chains, p + 1); }
  }

  lemma {:induction false} AfterIsItem(c: seq<nat>, x: nat)
    ensures After(c, x) != 0 ==> After(c, x) in c
  {
    if c != [] && c[0] != x { AfterIsItem(c[1..], x); }
  }

  /** The calls of an iteration are all within their precondition, those after the end included. */
  lemma {:induction false} CallsAtItem(chains: seq<seq<nat>>, k: nat)
    ensures var (pos, cur, _) := AfterCalls(chains, k); AtItem(chains, pos, cur)
  {
    if k > 0 {
      CallsAtItem(chains, k - 1);
      var (pos, cur, _) := AfterCalls(chains, k - 1);
      FirstFromIsItem(chains, pos + 1);
      if pos < |chains| { AfterIsItem(chains[pos], cur); }
    }
  }

  /** Call number k+1 returns item number k of the concatenated chains, and null behind their end. */
  lemma CallReturns(chains: seq<seq<nat>>, k: nat)
    requires Slots(chains) && forall b :: 0 <= b < |chains| ==> Distinct(chains[b])
    ensures AfterCalls(chains, k + 1).2 == At(Flat(chains, 0), k)
  {
    RestAfterCalls(chains, k);
    var (pos, cur, _) := AfterCalls(chains, k);
    NextIsHead(chains, pos, cur);
    hide NextKey, Rest, Flat;
  }

  /** The concatenated chains hold exactly the live slots of buckets `p` and up, each once. */
  lemma {:induction false} FlatIsLive(hashSize: nat, items: seq<Item>, table: seq<nat>, live: set<nat>, chains: seq<seq<nat>>, p: nat)
    requires ChainsOk(hashSize, items, table, live, chains)
    ensures Distinct(Flat(chains, p))
    ensures forall i :: i in Flat(chains, p) <==> i in live && 0 < i < |items| && items[i].hash % hashSize >= p
    decreases hashSize - p
  {
    if p < hashSize {
      FlatIsLive(hashSize, items, table, live, chains, p + 1);
      assert BucketOk(hashSize, items, table[p], live, chains[p], p);
      var f := Flat(chains, p + 1);
      hide ChainsOk, Linked;
      assert forall i :: i in Flat(chains, p) <==> i in chains[p] || i in f;
      DistinctConcat(chains[p], f);
    }
  }

  lemma DistinctConcat(c: seq<nat>, f: seq<nat>)
    requires Distinct(c) && Distinct(f) && forall x :: x in c ==> x !in f
    ensures Distinct(c + f)
  {
    forall i, j | 0 <= i < j < |c + f|
      ensures (c + f)[i] != (c + f)[j]
    {
      if i < |c| <= j {
        assert c[i] in c && f[j - |c|] in f;
      }
    }
  }

  /** Over an unchanged cache: the calls return distinct live slots, every live slot is
      returned by one of the first `n` calls, and every later call returns null. */
  lemma KeysVisitsAll(cfg: Config, m: Mem, a: Abs, chains: seq<seq<nat>>, owner: seq<nat>)
    requires MemOk(cfg, m, a, chains, owner)
    ensures var f := Flat(chains, 0);
            (Distinct(f) && (forall i :: i in f <==> i in a.recs) &&
             forall k: nat :: AfterCalls(chains, k + 1).2 == At(f, k))
  {
    MemLists(cfg, m, a, chains, owner);
    FlatIsLive(cfg.hashSize, m.items, m.table, a.recs.Keys, chains, 0);
    assert forall i :: i in a.recs ==> 0 < i < |m.items| by { LiveRange(cfg, m, a, chains, owner); }
    forall b, k | 0 <= b < |chains| && 0 <= k < |chains[b]|
      ensures chains[b][k] > 0
    {
      assert BucketOk(cfg.hashSize, m.items, m.table[b], a.recs.Keys, chains[b], b);
    }
    forall b | 0 <= b < |chains|
      ensures Distinct(chains[b])
    {
      assert BucketOk(cfg.hashSize, m.items, m.table[b], a.recs.Keys, chains[b], b);
    }
    hide MemOk, ChainsOk, Distinct, Flat, AfterCalls, Inv;
    forall k: nat
      ensures AfterCalls(chains, k + 1).2 == At(Flat(chains, 0), k)
    {
      CallReturns(chains, k);
    }
  }

  lemma LiveRange(cfg: Config, m: Mem, a: Abs, chains: seq<seq<nat>>, owner: seq<nat>)
    requires MemOk(cfg, m, a, chains, owner)
    ensures forall i :: i in a.recs ==> 0 < i < |m.items|
  {
    hide Inv, ChainsOk, StackOk, LruMemOk, SpaceOk, Holds;
  }

  lemma {:induction false} AfterAt(c: seq<nat>, k: nat)
    requires Distinct(c) && k < |c|
    ensures After(c, c[k]) == At(c, k + 1)
  {
    if k > 0 {
      DistinctAt(c, 0, k);
      DistinctTail(c);
      AfterAt(c[1..], k - 1);
    }
  }

  /** The next link of an item names the element behind it in its chain. */
  lemma NextInChain(cfg: Config, m: Mem, a: Abs, chains: seq<seq<nat>>, owner: seq<nat>, b: nat, cur: nat)
    requires MemOk(cfg, m, a, chains, owner) && |chains| == cfg.hashSize && b < cfg.hashSize && cur in chains[b]
    ensures cur < |m.items| && m.items[cur].next == After(chains[b], cur)
  {
    MemLists(cfg, m, a, chains, owner);
    var c := chains[b];
    assert BucketOk(cfg.hashSize, m.items, m.table[b], a.recs.Keys, c, b);
    hide MemOk, ChainsOk, After, Distinct;
    var k :| 0 <= k < |c| && c[k] == cur;
    assert LinkAt(m.items, c, k);
    AfterAt(c, k);
  }
}
