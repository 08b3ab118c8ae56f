/** Rebuilding bucket table, free stack, item count and scan time from the item array alone
    (uwsgi_cache_fix), as is done for a cache recovered from a store file. */
module CacheRebuild {
  import opened Basics
  import opened CacheModel
  import opened CacheLayout
  import opened CacheSweep

  /** The slots below `n` that hold nothing, in order. */
  function FreeSlots(recs: map<nat, Rec>, n: nat): seq<nat> {
    if n <= 1 then [] else FreeSlots(recs, n - 1) + if n - 1 in recs then [] else [n - 1]
  }

  ghost function LiveBelow(recs: map<nat, Rec>, n: nat): set<nat> {
    set i | i in recs && i < n
  }

  lemma {:induction false} FreeSlotsOk(recs: map<nat, Rec>, n: nat)
    requires n >= 1 && forall i :: i in recs ==> i >= 1
    ensures Distinct(FreeSlots(recs, n))
    ensures forall i :: i in FreeSlots(recs, n) <==> 1 <= i < n && i !in recs
    ensures |LiveBelow(recs, n)| + |FreeSlots(recs, n)| == n - 1
  {
    if n == 1 {
      assert LiveBelow(recs, 1) == {};
    } else {
      FreeSlotsOk(recs, n - 1);
      LiveBelowStep(recs, n - 1);
    }
  }

  lemma LiveBelowStep(recs: map<nat, Rec>, n: nat)
    ensures |LiveBelow(recs, n + 1)| == |LiveBelow(recs, n)| + if n in recs then 1 else 0
  {
    if n in recs {
      assert LiveBelow(recs, n + 1) == LiveBelow(recs, n) + {n};
    } else {
      assert LiveBelow(recs, n + 1) == LiveBelow(recs, n);
    }
  }

  /** The buckets whose chain starts below slot `n` are filled in. */
  ghost predicate TableOk(chains: seq<seq<nat>>, n: nat, table: seq<nat>) {
    |table| == |chains| && forall b :: 0 <= b < |table| ==> table[b] == if First(chains[b]) < n then First(chains[b]) else 0
  }

  /** `scan` is the least expiry among the live slots below `n`. */
  ghost predicate ScanOk(a: Abs, n: nat, scan: nat) {
    Covers(a.(nextScan := scan), n) && Tight(a.(nextScan := scan), n)
  }

  /** Progress of the rebuilding loop before slot `n`. */
  ghost predicate Rebuilt(cfg: Config, a: Abs, chains: seq<seq<nat>>, n: nat,
                          table: seq<nat>, stack: seq<nat>, sp: nat, scan: nat, restored: nat)
  {
    && |stack| == cfg.maxItems && TableOk(chains, n, table) && ScanOk(a, n, scan)
    && StackOk(stack, sp, FreeSlots(a.recs, n)) && restored == |LiveBelow(a.recs, n)|
  }

  /** A live item heads its bucket's chain exactly when it has no previous link. */
  lemma HeadHasNoPrev(cfg: Config, m: Mem, a: Abs, chains: seq<seq<nat>>, owner: seq<nat>, i: nat)
    requires MemOk(cfg, m, a, chains, owner) && i in a.recs
    ensures LiveFacts(cfg, m, a, i) && cfg.hashSize > 0 && |chains| == cfg.hashSize
    ensures m.items[i].prev == 0 <==> First(chains[m.items[i].hash % cfg.hashSize]) == i
    ensures forall b :: 0 <= b < |chains| && First(chains[b]) == i ==> b == m.items[i].hash % cfg.hashSize
  {
    LiveItem(cfg, m, a, chains, owner, i);
    MemLists(cfg, m, a, chains, owner);
    HeadInChain(cfg.hashSize, m.items, m.table, a.recs.Keys, chains, i);
  }

  lemma HeadInChain(hashSize: nat, items: seq<Item>, table: seq<nat>, live: set<nat>, chains: seq<seq<nat>>, i: nat)
    requires ChainsOk(hashSize, items, table, live, chains) && i in live && 0 < i < |items|
    ensures items[i].prev == 0 <==> First(chains[items[i].hash % hashSize]) == i
    ensures forall b :: 0 <= b < |chains| && First(chains[b]) == i ==> b == items[i].hash % hashSize
  {
    var n := items[i].hash % hashSize;
    var c := chains[n];
    assert BucketOk(hashSize, items, table[n], live, c, n);
    var k :| 0 <= k < |c| && c[k] == i;
    assert LinkAt(items, c, k);
    DistinctAt(c, 0, k);
    forall b | 0 <= b < |chains| && First(chains[b]) == i
      ensures b == n
    {
      assert BucketOk(hashSize, items, table[b], live, chains[b], b);
      assert chains[b] != [] ==> chains[b][0] in chains[b];
    }
  }

  /** Every chain head is a live slot. */
  lemma HeadsLive(cfg: Config, m: Mem, a: Abs, chains: seq<seq<nat>>, owner: seq<nat>)
    requires MemOk(cfg, m, a, chains, owner)
    ensures |m.table| == |chains| == cfg.hashSize
    ensures forall b :: 0 <= b < |chains| ==> m.table[b] == First(chains[b]) < cfg.maxItems && (First(chains[b]) == 0 || First(chains[b]) in a.recs)
  {
    MemLists(cfg, m, a, chains, owner);
    forall b | 0 <= b < |chains|
      ensures m.table[b] == First(chains[b]) < cfg.maxItems && (First(chains[b]) == 0 || First(chains[b]) in a.recs)
    {
      assert BucketOk(cfg.hashSize, m.items, m.table[b], a.recs.Keys, chains[b], b);
      assert chains[b] != [] ==> chains[b][0] in chains[b];
    }
  }

  /** The loop step for a live slot. */
  lemma LiveStep(cfg: Config, m0: Mem, a: Abs, chains: seq<seq<nat>>, owner: seq<nat>, n: nat,
                 table: seq<nat>, stack: seq<nat>, sp: nat, scan: nat, restored: nat)
    requires MemOk(cfg, m0, a, chains, owner) && n in a.recs && cfg.hashSize > 0
    requires Rebuilt(cfg, a, chains, n, table, stack, sp, scan, restored) && |table| == cfg.hashSize
    ensures n < |m0.items|
    ensures var it := m0.items[n];
            Rebuilt(cfg, a, chains, n + 1,
                    if it.prev == 0 then table[it.hash % cfg.hashSize := n] else table, stack, sp,
                    if it.expires != 0 && (scan == 0 || scan > it.expires) then it.expires else scan, restored + 1)
  {
    hide MemOk, StackOk, LiveBelow, ScanOk, TableOk;
    HeadHasNoPrev(cfg, m0, a, chains, owner, n);
    LiveBelowStep(a.recs, n);
    assert FreeSlots(a.recs, n + 1) == FreeSlots(a.recs, n);
    var it := m0.items[n];
    TableStep(chains, n, table, it.hash % cfg.hashSize, it.prev == 0);
    ScanStep(a, n, scan, if it.expires != 0 && (scan == 0 || scan > it.expires) then it.expires else scan);
  }

  lemma TableStep(chains: seq<seq<nat>>, n: nat, table: seq<nat>, b: nat, head: bool)
    requires TableOk(chains, n, table) && b < |table| && (head <==> First(chains[b]) == n)
    requires forall k :: 0 <= k < |chains| && First(chains[k]) == n ==> k == b
    ensures TableOk(chains, n + 1, if head then table[b := n] else table)
  {
  }

  lemma ScanStep(a: Abs, n: nat, scan: nat, scan': nat)
    requires ScanOk(a, n, scan) && n in a.recs
    requires var e := a.recs[n].expires; scan' == if e != 0 && (scan == 0 || scan > e) then e else scan
    ensures ScanOk(a, n + 1, scan')
  {
    if scan' != 0 {
      if scan' == scan {
        var i :| i in a.recs && i < n && a.recs[i].expires == scan;
        assert i < n + 1;
      } else {
        assert a.recs[n].expires == scan';
      }
    }
  }

  lemma ScanSkip(a: Abs, n: nat, scan: nat)
    requires ScanOk(a, n, scan) && n !in a.recs
    ensures ScanOk(a, n + 1, scan)
  {
    if scan != 0 {
      var i :| i in a.recs && i < n && a.recs[i].expires == scan;
      assert i < n + 1;
    }
  }

  /** The loop step for a slot that is not live. */
  lemma FreeStep(cfg: Config, m0: Mem, a: Abs, chains: seq<seq<nat>>, owner: seq<nat>, n: nat,
                 table: seq<nat>, stack: seq<nat>, sp: nat, scan: nat, restored: nat)
    requires MemOk(cfg, m0, a, chains, owner) && 1 <= n < cfg.maxItems && n !in a.recs
    requires Rebuilt(cfg, a, chains, n, table, stack, sp, scan, restored)
    ensures sp + 1 < |stack|
    ensures Rebuilt(cfg, a, chains, n + 1, table, stack[sp + 1 := n], sp + 1, scan, restored)
  {
    hide MemOk, LiveBelow, StackOk, ScanOk, TableOk;
    HeadsLive(cfg, m0, a, chains, owner);
    FreeLength(cfg, m0, a, chains, owner, n);
    StackSize(stack, sp, FreeSlots(a.recs, n));
    LiveBelowStep(a.recs, n);
    PushStack(stack, sp, FreeSlots(a.recs, n), n);
    TableSkip(chains, n, table);
    ScanSkip(a, n, scan);
  }

  lemma StackSize(stack: seq<nat>, sp: nat, free: seq<nat>)
    requires StackOk(stack, sp, free)
    ensures sp == |free|
  {
  }

  lemma TableSkip(chains: seq<seq<nat>>, n: nat, table: seq<nat>)
    requires TableOk(chains, n, table) && forall b :: 0 <= b < |chains| ==> First(chains[b]) != n
    ensures TableOk(chains, n + 1, table)
  {
  }

  lemma FreeLength(cfg: Config, m: Mem, a: Abs, chains: seq<seq<nat>>, owner: seq<nat>, n: nat)
    requires MemOk(cfg, m, a, chains, owner) && 1 <= n
    ensures |FreeSlots(a.recs, n)| < n
    ensures Distinct(FreeSlots(a.recs, n))
    ensures forall i :: i in FreeSlots(a.recs, n) <==> 1 <= i < n && i !in a.recs
    ensures |LiveBelow(a.recs, n)| + |FreeSlots(a.recs, n)| == n - 1
    ensures n == cfg.maxItems ==> |LiveBelow(a.recs, n)| == |a.recs|
  {
    RecsAtLeastOne(cfg, m, a, chains, owner);
    hide MemOk;
    FreeSlotsOk(a.recs, n);
    if n == cfg.maxItems { assert LiveBelow(a.recs, n) == a.recs.Keys; }
  }

  lemma RecsAtLeastOne(cfg: Config, m: Mem, a: Abs, chains: seq<seq<nat>>, owner: seq<nat>)
    requires MemOk(cfg, m, a, chains, owner)
    ensures forall i :: i in a.recs ==> 1 <= i < cfg.maxItems
  {
    hide ChainsOk, SpaceOk, RecordsOk, StackOk, LruMemOk, FreeOk, LruOk;
  }

  /** The rebuilt memory is that of the same cache with its free slots restacked. */
  lemma RebuiltOk(cfg: Config, m0: Mem, a: Abs, chains: seq<seq<nat>>, owner: seq<nat>,
                  table: seq<nat>, stack: seq<nat>, sp: nat, scan: nat, restored: nat, m: Mem)
    requires MemOk(cfg, m0, a, chains, owner) && !cfg.purgeLru && !cfg.useBitmap
    requires Rebuilt(cfg, a, chains, cfg.maxItems, table, stack, sp, scan, restored)
    requires m.items == m0.items && m.data == m0.data && m.bitmap == m0.bitmap && m.pos == m0.pos
    requires m.table == table && m.stack == stack && m.sp == sp && m.nextScan == scan && m.nItems == restored
    ensures table == m0.table
    ensures MemOk(cfg, m, a.(free := FreeSlots(a.recs, cfg.maxItems), nextScan := scan), chains, owner)
    ensures forall i :: i in FreeSlots(a.recs, cfg.maxItems) <==> i in a.free
  {
    MemLists(cfg, m0, a, chains, owner);
    HeadsLive(cfg, m0, a, chains, owner);
    assert cfg.maxItems >= 1 by { InvConfig(cfg, a); }
    FreeLength(cfg, m0, a, chains, owner, cfg.maxItems);
    hide RecordsOk, SpaceOk, ChainsOk, StackOk, RecsOk, Distinct, FreeSlots, LiveBelow, Covers, Tight;
    assert table == m0.table;
  }

  lemma StartRebuild(cfg: Config, m0: Mem, a: Abs, chains: seq<seq<nat>>, owner: seq<nat>, table: seq<nat>, stack: seq<nat>)
    requires MemOk(cfg, m0, a, chains, owner)
    requires |table| == cfg.hashSize && |stack| == cfg.maxItems && forall b :: 0 <= b < |table| ==> table[b] == 0
    ensures |chains| == cfg.hashSize && cfg.maxItems >= 1
    ensures Rebuilt(cfg, a, chains, 1, table, stack, 0, 0, 0)
  {
    hide MemOk;
    HeadsLive(cfg, m0, a, chains, owner);
    RecsAtLeastOne(cfg, m0, a, chains, owner);
    OwnerLength(cfg, m0, a, chains, owner);
    assert LiveBelow(a.recs, 1) == {};
  }

  lemma RebuiltScan(cfg: Config, a: Abs, chains: seq<seq<nat>>, table: seq<nat>, stack: seq<nat>, sp: nat, scan: nat, restored: nat)
    requires Rebuilt(cfg, a, chains, cfg.maxItems, table, stack, sp, scan, restored)
    ensures var b := a.(free := FreeSlots(a.recs, cfg.maxItems), nextScan := scan);
            Covers(b, cfg.maxItems) && Tight(b, cfg.maxItems)
  {
    hide StackOk, TableOk;
    var b := a.(nextScan := scan);
    assert Covers(b, cfg.maxItems) && Tight(b, cfg.maxItems);
  }
}
