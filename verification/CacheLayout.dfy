/** How a cache is laid out in memory (core/cache.c): an array of items threaded by hash-chain
    and LRU links, a bucket table, a free-slot stack, and a bitmap over the data blocks. */
module CacheLayout {
  import opened Basics
  import opened CacheModel
  import Bitmap

  /** struct uwsgi_cache_item; keysize 0 marks a free slot, link 0 the end of a list. */
  datatype Item = Item(flags: Flags, keysize: nat, hash: nat, valsize: nat, firstBlock: nat, expires: nat,
                       prev: nat, next: nat, lruPrev: nat, lruNext: nat, key: Key)

  const NO_FLAGS := Flags(false, false, false, false)
  const CLEARED := Item(NO_FLAGS, 0, 0, 0, 0, 0, 0, 0, 0, 0, [])

  function First(c: seq<nat>): nat { if c == [] then 0 else c[0] }
  function Last(c: seq<nat>): nat { if c == [] then 0 else c[|c| - 1] }
  function At(c: seq<nat>, k: int): nat { if 0 <= k < |c| then c[k] else 0 }

  ghost predicate InRange(items: seq<Item>, c: seq<nat>) {
    forall k :: 0 <= k < |c| ==> 0 < c[k] < |items|
  }

  // ---- lists through prev/next --------------------------------------------------

  /** The hash links of element `k` of the list `c`. */
  ghost predicate LinkAt(items: seq<Item>, c: seq<nat>, k: nat)
    requires k < |c|
  {
    c[k] < |items| && items[c[k]].prev == At(c, k - 1) && items[c[k]].next == At(c, k + 1)
  }

  ghost predicate LruLinkAt(items: seq<Item>, c: seq<nat>, k: nat)
    requires k < |c|
  {
    c[k] < |items| && items[c[k]].lruPrev == At(c, k - 1) && items[c[k]].lruNext == At(c, k + 1)
  }

  /** The hash links thread the slots of `c` in that order. */
  ghost predicate Linked(items: seq<Item>, c: seq<nat>) {
    InRange(items, c) && forall k :: 0 <= k < |c| ==> LinkAt(items, c, k)
  }

  ghost predicate LruLinked(items: seq<Item>, c: seq<nat>) {
    InRange(items, c) && forall k :: 0 <= k < |c| ==> LruLinkAt(items, c, k)
  }

  ghost predicate LruList(items: seq<Item>, head: nat, tail: nat, c: seq<nat>) {
    LruLinked(items, c) && head == First(c) && tail == Last(c)
  }

  /** Same items but for the hash links; but for the LRU links. */
  ghost predicate SameButChain(a: seq<Item>, b: seq<Item>) {
    && |a| == |b|
    && forall j :: 0 <= j < |a| ==> b[j] == a[j].(prev := b[j].prev, next := b[j].next)
  }

  ghost predicate SameButLru(a: seq<Item>, b: seq<Item>) {
    && |a| == |b|
    && forall j :: 0 <= j < |a| ==> b[j] == a[j].(lruPrev := b[j].lruPrev, lruNext := b[j].lruNext)
  }

  /** `r` is `c` without element `p`. */
  ghost predicate Dropped(c: seq<nat>, p: nat, r: seq<nat>) {
    p < |c| && |r| == |c| - 1 && forall k :: 0 <= k < |r| ==> r[k] == c[if k < p then k else k + 1]
  }

  lemma DistinctAt(c: seq<nat>, i: nat, j: nat)
    requires Distinct(c) && i < |c| && j < |c|
    ensures c[i] == c[j] <==> i == j
  {
  }

  lemma {:induction false} DropAt(c: seq<nat>, p: nat)
    requires p < |c| && Distinct(c)
    ensures Dropped(c, p, Without(c, c[p]))
  {
    if p > 0 {
      DistinctAt(c, 0, p);
      DistinctTail(c);
      hide Distinct;
      DropAt(c[1..], p - 1);
    }
  }

  lemma DistinctTail(c: seq<nat>)
    requires Distinct(c) && c != []
    ensures Distinct(c[1..])
  {
  }

  /** The neighbours of element `p` of `c` linked to each other. */
  ghost predicate ChainBridged(a: seq<Item>, b: seq<Item>, c: seq<nat>, p: nat) {
    && |a| == |b|
    && forall j :: 0 < j < |a| ==>
         b[j].prev == (if j == At(c, p + 1) then At(c, p - 1) else a[j].prev) &&
         b[j].next == (if j == At(c, p - 1) then At(c, p + 1) else a[j].next)
  }

  lemma BridgeAt(a: seq<Item>, b: seq<Item>, c: seq<nat>, p: nat, r: seq<nat>, k: nat)
    requires Linked(a, c) && Distinct(c) && ChainBridged(a, b, c, p) && Dropped(c, p, r) && k < |r|
    ensures 0 < r[k] < |b| && LinkAt(b, r, k)
  {
    var m := if k < p then k else k + 1;
    assert LinkAt(a, c, m);
    if p > 0 { DistinctAt(c, m, p - 1); }
    if p + 1 < |c| { DistinctAt(c, m, p + 1); }
    hide Distinct, Linked;
  }

  lemma Bridge(a: seq<Item>, b: seq<Item>, c: seq<nat>, p: nat, r: seq<nat>)
    requires Linked(a, c) && Distinct(c) && ChainBridged(a, b, c, p) && Dropped(c, p, r)
    ensures Linked(b, r)
  {
    hide Distinct, ChainBridged, Dropped, LinkAt;
    forall k | 0 <= k < |r|
      ensures 0 < r[k] < |b| && LinkAt(b, r, k)
    {
      BridgeAt(a, b, c, p, r, k);
    }
  }

  /** `i` linked behind the last element of `c`. */
  ghost predicate ChainExtended(a: seq<Item>, b: seq<Item>, c: seq<nat>, i: nat) {
    && |a| == |b| && 0 < i < |a|
    && (forall j :: 0 < j < |a| && j != i ==>
         b[j].prev == a[j].prev && b[j].next == (if j == Last(c) then i else a[j].next))
    && b[i].prev == Last(c) && b[i].next == 0
  }

  lemma AppendLinked(a: seq<Item>, b: seq<Item>, c: seq<nat>, i: nat)
    requires Linked(a, c) && Distinct(c) && i !in c && ChainExtended(a, b, c, i)
    ensures Linked(b, c + [i])
  {
    forall k | 0 <= k < |c|
      ensures LinkAt(b, c + [i], k)
    {
      assert LinkAt(a, c, k) && c[k] in c;
      DistinctAt(c, k, |c| - 1);
      hide Distinct, Linked;
    }
    hide Distinct;
    assert LinkAt(b, c + [i], |c|);
  }

  lemma LinkedSame(a: seq<Item>, b: seq<Item>, c: seq<nat>)
    requires Linked(a, c) && |a| == |b|
    requires forall j :: j in c ==> b[j].prev == a[j].prev && b[j].next == a[j].next
    ensures Linked(b, c)
  {
    forall k | 0 <= k < |c|
      ensures LinkAt(b, c, k)
    {
      assert LinkAt(a, c, k) && c[k] in c;
    }
  }

  /** The neighbours of element `p` of `c` linked to each other. */
  ghost predicate LruBridged(a: seq<Item>, b: seq<Item>, c: seq<nat>, p: nat) {
    && |a| == |b|
    && forall j :: 0 < j < |a| ==>
         b[j].lruPrev == (if j == At(c, p + 1) then At(c, p - 1) else a[j].lruPrev) &&
         b[j].lruNext == (if j == At(c, p - 1) then At(c, p + 1) else a[j].lruNext)
  }

  /** The items with their LRU links in place of their chain links: what holds of chains holds of the LRU list. */
  function LruView(a: seq<Item>): (v: seq<Item>)
    ensures |v| == |a| && forall j :: 0 <= j < |a| ==> v[j].prev == a[j].lruPrev && v[j].next == a[j].lruNext
  {
    seq(|a|, j requires 0 <= j < |a| => a[j].(prev := a[j].lruPrev, next := a[j].lruNext))
  }

  lemma LruIsChain(a: seq<Item>, c: seq<nat>)
    ensures LruLinked(a, c) <==> Linked(LruView(a), c)
  {
    var v := LruView(a);
    if LruLinked(a, c) {
      forall k | 0 <= k < |c|
        ensures 0 < c[k] < |v| && LinkAt(v, c, k)
      {
        assert LruLinkAt(a, c, k);
      }
    }
    if Linked(v, c) {
      forall k | 0 <= k < |c|
        ensures 0 < c[k] < |a| && LruLinkAt(a, c, k)
      {
        assert LinkAt(v, c, k);
      }
    }
  }

  lemma LruBridge(a: seq<Item>, b: seq<Item>, c: seq<nat>, p: nat, r: seq<nat>)
    requires LruLinked(a, c) && Distinct(c) && LruBridged(a, b, c, p) && Dropped(c, p, r)
    ensures LruLinked(b, r)
  {
    assert ChainBridged(LruView(a), LruView(b), c, p);
    hide *;
    LruIsChain(a, c);
    LruIsChain(b, r);
    Bridge(LruView(a), LruView(b), c, p, r);
  }

  /** `i` linked behind the last element of `c`. */
  ghost predicate LruExtended(a: seq<Item>, b: seq<Item>, c: seq<nat>, i: nat) {
    && |a| == |b| && 0 < i < |a|
    && (forall j :: 0 < j < |a| && j != i ==>
         b[j].lruPrev == a[j].lruPrev && b[j].lruNext == (if j == Last(c) then i else a[j].lruNext))
    && b[i].lruPrev == Last(c) && b[i].lruNext == 0
  }

  lemma LruAppendLinked(a: seq<Item>, b: seq<Item>, c: seq<nat>, i: nat)
    requires LruLinked(a, c) && Distinct(c) && i !in c && LruExtended(a, b, c, i)
    ensures LruLinked(b, c + [i])
  {
    assert ChainExtended(LruView(a), LruView(b), c, i);
    hide *;
    LruIsChain(a, c);
    LruIsChain(b, c + [i]);
    AppendLinked(LruView(a), LruView(b), c, i);
  }

  lemma LruSame(a: seq<Item>, b: seq<Item>, c: seq<nat>)
    requires LruLinked(a, c) && |a| == |b|
    requires forall j :: j in c ==> b[j].lruPrev == a[j].lruPrev && b[j].lruNext == a[j].lruNext
    ensures LruLinked(b, c)
  {
    LruIsChain(a, c);
    LruIsChain(b, c);
    assert forall j :: j in c ==> 0 < j < |a|;
    LinkedSame(LruView(a), LruView(b), c);
  }

  lemma DroppedEnds(c: seq<nat>, p: nat, r: seq<nat>)
    requires Dropped(c, p, r)
    ensures First(r) == if p == 0 then At(c, 1) else First(c)
    ensures Last(r) == if p == |c| - 1 then At(c, p - 1) else Last(c)
  {
  }

  // ---- hash buckets -----------------------------------------------------------------

  /** Bucket `b` of the table: the chain `c` holds exactly the live slots hashed there. */
  ghost predicate BucketOk(hashSize: nat, items: seq<Item>, head: nat, live: set<nat>, c: seq<nat>, b: nat)
    requires hashSize > 0
  {
    && head == First(c) && Distinct(c) && Linked(items, c)
    && (forall i :: i in c <==> i in live && 0 < i < |items| && items[i].hash % hashSize == b)
  }

  ghost predicate ChainsOk(hashSize: nat, items: seq<Item>, table: seq<nat>, live: set<nat>, chains: seq<seq<nat>>) {
    && hashSize > 0 && |table| == hashSize && |chains| == hashSize
    && forall b :: 0 <= b < hashSize ==> BucketOk(hashSize, items, table[b], live, chains[b], b)
  }

  /** A bucket that the changed slots are not part of. */
  lemma OtherBucket(hashSize: nat, a: seq<Item>, b: seq<Item>, head: nat, live: set<nat>, live': set<nat>, c: seq<nat>, n: nat)
    requires hashSize > 0 && BucketOk(hashSize, a, head, live, c, n) && |a| == |b|
    requires forall j :: j in c ==> b[j].prev == a[j].prev && b[j].next == a[j].next
    requires forall j :: 0 < j < |a| ==>
      ((j in live' && b[j].hash % hashSize == n) <==> (j in live && a[j].hash % hashSize == n))
    ensures BucketOk(hashSize, b, head, live', c, n)
  {
    LinkedSame(a, b, c);
  }

  /** Items changed only in fields other than hash and hash links, or in slots that are not live. */
  lemma ChainsSame(hashSize: nat, a: seq<Item>, b: seq<Item>, table: seq<nat>, live: set<nat>, chains: seq<seq<nat>>)
    requires ChainsOk(hashSize, a, table, live, chains) && |a| == |b|
    requires forall j :: 0 <= j < |a| && j in live ==>
      b[j].prev == a[j].prev && b[j].next == a[j].next && b[j].hash == a[j].hash
    ensures ChainsOk(hashSize, b, table, live, chains)
  {
    forall n | 0 <= n < hashSize
      ensures BucketOk(hashSize, b, table[n], live, chains[n], n)
    {
      OtherBucket(hashSize, a, b, table[n], live, live, chains[n], n);
    }
  }

  /** Slots of different buckets differ. */
  lemma BucketsApart(hashSize: nat, items: seq<Item>, table: seq<nat>, live: set<nat>, chains: seq<seq<nat>>, m: nat, n: nat)
    requires ChainsOk(hashSize, items, table, live, chains) && m < hashSize && n < hashSize && m != n
    ensures forall j :: j in chains[m] ==> j !in chains[n]
  {
    assert BucketOk(hashSize, items, table[m], live, chains[m], m);
    assert BucketOk(hashSize, items, table[n], live, chains[n], n);
  }

  lemma UnlinkOutside(a: seq<Item>, b: seq<Item>, c: seq<nat>, p: nat)
    requires ChainBridged(a, b, c, p) && p < |c|
    ensures forall j :: 0 < j < |a| && j !in c ==> b[j].prev == a[j].prev && b[j].next == a[j].next
  {
    assert p > 0 ==> c[p - 1] in c;
    assert p + 1 < |c| ==> c[p + 1] in c;
  }

  lemma AppendOutside(a: seq<Item>, b: seq<Item>, c: seq<nat>, i: nat)
    requires ChainExtended(a, b, c, i)
    ensures forall j :: 0 < j < |a| && j !in c && j != i ==> b[j].prev == a[j].prev && b[j].next == a[j].next
  {
    assert c != [] ==> Last(c) in c;
  }

  lemma BucketRange(hashSize: nat, items: seq<Item>, head: nat, live: set<nat>, c: seq<nat>, n: nat)
    requires hashSize > 0 && BucketOk(hashSize, items, head, live, c, n)
    ensures forall j :: j in c ==> 0 < j < |items| && j in live
  {
  }

  /** Chain `n` loses its element `p`. */
  lemma ChainsUnlink(hashSize: nat, a: seq<Item>, b: seq<Item>, t: seq<nat>, u: seq<nat>, live: set<nat>,
                     chains: seq<seq<nat>>, n: nat, p: nat)
    requires ChainsOk(hashSize, a, t, live, chains) && SameButChain(a, b)
    requires n < hashSize && p < |chains[n]| && ChainBridged(a, b, chains[n], p)
    requires u == t[n := if p == 0 then At(chains[n], 1) else t[n]]
    ensures ChainsOk(hashSize, b, u, live - {chains[n][p]}, chains[n := Without(chains[n], chains[n][p])])
  {
    var c := chains[n];
    var i := c[p];
    hide BucketOk, ChainBridged, Without;
    forall m | 0 <= m < hashSize
      ensures BucketOk(hashSize, b, u[m], live - {i}, chains[n := Without(c, i)][m], m)
    {
      assert BucketOk(hashSize, a, t[m], live, chains[m], m);
      if m == n {
        UnlinkBucket(hashSize, a, b, t[n], live, c, n, p);
      } else {
        BucketsApart(hashSize, a, t, live, chains, m, n);
        UnlinkOutside(a, b, c, p);
        BucketRange(hashSize, a, t[m], live, chains[m], m);
        assert BucketOk(hashSize, a, t[n], live, chains[n], n);
        ChangedBucketElement(hashSize, a, t[n], live, c, n, p);
        OtherBucket(hashSize, a, b, t[m], live, live - {i}, chains[m], m);
      }
    }
  }

  lemma ChangedBucketElement(hashSize: nat, a: seq<Item>, head: nat, live: set<nat>, c: seq<nat>, n: nat, p: nat)
    requires hashSize > 0 && BucketOk(hashSize, a, head, live, c, n) && p < |c|
    ensures 0 < c[p] < |a| && a[c[p]].hash % hashSize == n && c[p] in live
  {
    assert c[p] in c;
  }

  lemma UnlinkBucket(hashSize: nat, a: seq<Item>, b: seq<Item>, head: nat, live: set<nat>, c: seq<nat>, n: nat, p: nat)
    requires hashSize > 0 && BucketOk(hashSize, a, head, live, c, n) && SameButChain(a, b)
    requires p < |c| && ChainBridged(a, b, c, p)
    ensures BucketOk(hashSize, b, if p == 0 then At(c, 1) else head, live - {c[p]}, Without(c, c[p]), n)
  {
    DropAt(c, p);
    Bridge(a, b, c, p, Without(c, c[p]));
    DroppedEnds(c, p, Without(c, c[p]));
    WithoutElements(c, c[p]);
    hide Without, Linked, Distinct, ChainBridged, Dropped;
  }

  /** Slot `i` goes to the end of its chain. */
  lemma ChainsAppend(hashSize: nat, a: seq<Item>, b: seq<Item>, t: seq<nat>, u: seq<nat>, live: set<nat>,
                     chains: seq<seq<nat>>, i: nat, n: nat)
    requires ChainsOk(hashSize, a, t, live, chains) && SameButChain(a, b)
    requires 0 < i < |a| && i !in live && n == a[i].hash % hashSize && ChainExtended(a, b, chains[n], i)
    requires u == t[n := if chains[n] == [] then i else t[n]]
    ensures ChainsOk(hashSize, b, u, live + {i}, chains[n := chains[n] + [i]])
  {
    var c := chains[n];
    hide BucketOk, ChainExtended;
    forall m | 0 <= m < hashSize
      ensures BucketOk(hashSize, b, u[m], live + {i}, chains[n := c + [i]][m], m)
    {
      assert BucketOk(hashSize, a, t[m], live, chains[m], m);
      BucketRange(hashSize, a, t[m], live, chains[m], m);
      if m == n {
        AppendBucket(hashSize, a, b, t[n], live, c, n, i);
      } else {
        BucketsApart(hashSize, a, t, live, chains, m, n);
        AppendOutside(a, b, c, i);
        OtherBucket(hashSize, a, b, t[m], live, live + {i}, chains[m], m);
      }
    }
  }

  lemma AppendBucket(hashSize: nat, a: seq<Item>, b: seq<Item>, head: nat, live: set<nat>, c: seq<nat>, n: nat, i: nat)
    requires hashSize > 0 && BucketOk(hashSize, a, head, live, c, n) && SameButChain(a, b)
    requires 0 < i < |a| && i !in live && n == a[i].hash % hashSize && ChainExtended(a, b, c, i)
    ensures BucketOk(hashSize, b, if c == [] then i else head, live + {i}, c + [i], n)
  {
    AppendLinked(a, b, c, i);
    DistinctAppend(c, i);
    hide Linked, Distinct, ChainExtended;
  }

  lemma DistinctAppend(c: seq<nat>, i: nat)
    requires Distinct(c) && i !in c
    ensures Distinct(c + [i])
  {
  }

  /** A list of distinct slots other than 0 is shorter than the item array. */
  lemma {:induction false} ListShort(c: seq<nat>, n: nat)
    requires Distinct(c) && n > 0 && forall k :: 0 <= k < |c| ==> 0 < c[k] < n
    ensures |c| < n
    decreases n
  {
    if n == 1 {
      assert First(c) == 0;
    } else if n - 1 in c {
      var p :| 0 <= p < |c| && c[p] == n - 1;
      DropAt(c, p);
      WithoutElements(c, n - 1);
      var r := Without(c, n - 1);
      hide Without;
      forall k | 0 <= k < |r|
        ensures 0 < r[k] < n - 1
      {
        DistinctAt(c, p, if k < p then k else k + 1);
      }
      ListShort(r, n - 1);
    } else {
      assert forall k :: 0 <= k < |c| ==> c[k] in c;
      ListShort(c, n - 1);
    }
  }

  // ---- records and their bytes -------------------------------------------------------

  /** Number of blocks of a stored value. */
  function ItemBlocks(cfg: Config, it: Item): nat
    requires cfg.blockSize > 0
  {
    Bitmap.NeededBlocks(it.valsize, cfg.blockSize)
  }

  /** Where a value starts in the data area. */
  function ItemStart(cfg: Config, it: Item): nat {
    it.firstBlock * cfg.blockSize
  }

  /** The item stores exactly the record `r`, its value in the data area. */
  ghost predicate Holds(cfg: Config, it: Item, data: seq<byte>, r: Rec) {
    && it.keysize == |r.key| && it.key == r.key && it.hash == cfg.Hash(r.key)
    && it.expires == r.expires && it.flags == r.flags && it.valsize == |r.value|
    && var s := ItemStart(cfg, it);
       s + |r.value| <= |data| && data[s..s + |r.value|] == r.value
  }

  ghost predicate RecordsOk(cfg: Config, items: seq<Item>, data: seq<byte>, recs: map<nat, Rec>) {
    && |items| == cfg.maxItems
    && (forall i :: i in recs ==> 0 < i < |items| && Holds(cfg, items[i], data, recs[i]))
    && (forall i :: 0 <= i < |items| && i !in recs ==> items[i].keysize == 0 && items[i].expires == 0)
  }

  /** Block `k` is one of the item's. */
  predicate InBlocks(cfg: Config, it: Item, k: nat)
    requires cfg.blockSize > 0
  {
    it.firstBlock <= k < it.firstBlock + ItemBlocks(cfg, it)
  }

  /** All blocks of the item in slot `i` exist and belong to that slot. */
  ghost predicate Owns(cfg: Config, it: Item, owner: seq<nat>, i: nat)
    requires cfg.blockSize > 0
  {
    && it.firstBlock + ItemBlocks(cfg, it) <= |owner|
    && forall k :: 0 <= k < |owner| && InBlocks(cfg, it, k) ==> owner[k] == i
  }

  ghost predicate OwnersOk(cfg: Config, items: seq<Item>, live: set<nat>, owner: seq<nat>)
    requires cfg.blockSize > 0
  {
    |owner| == cfg.blocks && forall i :: i in live ==> 0 < i < |items| && Owns(cfg, items[i], owner, i)
  }

  /** A bit is set exactly for the blocks that belong to a live slot and for the padding. */
  ghost predicate BitsOk(bm: seq<bv8>, owner: seq<nat>) {
    && |owner| <= 8 * |bm|
    && forall k :: 0 <= k < 8 * |bm| ==> (Bitmap.Used(bm, k) <==> k >= |owner| || owner[k] != 0)
  }

  ghost predicate SpaceOk(cfg: Config, items: seq<Item>, live: set<nat>, owner: seq<nat>, bm: seq<bv8>, pos: nat)
    requires cfg.blockSize > 0
  {
    && OwnersOk(cfg, items, live, owner)
    && if cfg.useBitmap then
         && |bm| == (cfg.blocks + 7) / 8 && pos < cfg.blocks && BitsOk(bm, owner)
         && forall k :: 0 <= k < |owner| && owner[k] != 0 ==>
              owner[k] in live && owner[k] < |items| && InBlocks(cfg, items[owner[k]], k)
       else
         (forall i :: i in live ==> items[i].firstBlock == i) && (forall k :: 0 <= k < |owner| ==> owner[k] == k)
  }

  /** Blocks [fb, fb+n) given to slot `i` (0: given back). */
  ghost function Assign(owner: seq<nat>, fb: nat, n: nat, i: nat): (r: seq<nat>)
    ensures |r| == |owner|
    ensures forall k :: 0 <= k < |owner| ==> r[k] == if fb <= k < fb + n then i else owner[k]
  {
    seq(|owner|, k requires 0 <= k < |owner| => if fb <= k < fb + n then i else owner[k])
  }

  /** The value's bytes fit its blocks; blocks apart are bytes apart. */
  lemma BytesApart(bs: nat, fb1: nat, n1: nat, len1: nat, fb2: nat)
    requires bs > 0 && n1 == Bitmap.NeededBlocks(len1, bs) && fb1 + n1 <= fb2
    ensures fb1 * bs + len1 <= fb2 * bs
  {
    Bitmap.NeededBlocksTight(len1, bs);
    assert (fb1 + n1) * bs <= fb2 * bs by { MulMono(fb1 + n1, fb2, bs); }
    assert (fb1 + n1) * bs == fb1 * bs + n1 * bs;
  }

  lemma MulMono(a: nat, b: nat, c: nat)
    requires a <= b
    ensures a * c <= b * c
  {
  }

  /** Two slots' blocks do not overlap. */
  lemma BlocksApart(cfg: Config, it: Item, jt: Item, owner: seq<nat>, i: nat, j: nat)
    requires cfg.blockSize > 0 && Owns(cfg, it, owner, i) && Owns(cfg, jt, owner, j) && i != j
    requires it.valsize > 0 && jt.valsize > 0
    ensures it.firstBlock + ItemBlocks(cfg, it) <= jt.firstBlock || jt.firstBlock + ItemBlocks(cfg, jt) <= it.firstBlock
  {
    var k := if it.firstBlock <= jt.firstBlock then jt.firstBlock else it.firstBlock;
    assert InBlocks(cfg, it, k) ==> k < |owner| && owner[k] == i;
    assert InBlocks(cfg, jt, k) ==> k < |owner| && owner[k] == j;
  }

  ghost predicate SameOutside(a: seq<byte>, b: seq<byte>, s: nat, len: nat) {
    |a| == |b| && forall k :: 0 <= k < |a| && (k < s || k >= s + len) ==> b[k] == a[k]
  }

  /** Writing one slot's bytes leaves another slot's record alone. */
  lemma WriteKeeps(cfg: Config, it: Item, i: nat, jt: Item, j: nat, owner: seq<nat>, a: seq<byte>, b: seq<byte>, r: Rec)
    requires cfg.blockSize > 0 && Owns(cfg, it, owner, i) && Owns(cfg, jt, owner, j) && i != j
    requires it.valsize > 0 && |r.value| > 0 && Holds(cfg, jt, a, r)
    requires SameOutside(a, b, ItemStart(cfg, it), it.valsize)
    ensures Holds(cfg, jt, b, r)
  {
    BlocksApart(cfg, it, jt, owner, i, j);
    if it.firstBlock + ItemBlocks(cfg, it) <= jt.firstBlock {
      BytesApart(cfg.blockSize, it.firstBlock, ItemBlocks(cfg, it), it.valsize, jt.firstBlock);
    } else {
      BytesApart(cfg.blockSize, jt.firstBlock, ItemBlocks(cfg, jt), jt.valsize, it.firstBlock);
    }
    hide Owns, ItemBlocks;
    var s := ItemStart(cfg, jt);
    assert b[s..s + |r.value|] == a[s..s + |r.value|];
  }

  /** Items changed only in their links hold the same records. */
  lemma HoldsSame(cfg: Config, a: Item, b: Item, data: seq<byte>, r: Rec)
    requires Holds(cfg, a, data, r)
    requires b == a.(prev := b.prev, next := b.next, lruPrev := b.lruPrev, lruNext := b.lruNext)
    ensures Holds(cfg, b, data, r)
  {
  }

  /** Same items but for all links. */
  ghost predicate SameButLinks(a: seq<Item>, b: seq<Item>) {
    && |a| == |b|
    && forall j :: 0 <= j < |a| ==>
         b[j] == a[j].(prev := b[j].prev, next := b[j].next, lruPrev := b[j].lruPrev, lruNext := b[j].lruNext)
  }

  lemma RecordsSame(cfg: Config, a: seq<Item>, b: seq<Item>, data: seq<byte>, recs: map<nat, Rec>)
    requires RecordsOk(cfg, a, data, recs) && SameButLinks(a, b)
    ensures RecordsOk(cfg, b, data, recs)
  {
    hide Holds;
    forall i | i in recs
      ensures Holds(cfg, b[i], data, recs[i])
    {
      HoldsSame(cfg, a[i], b[i], data, recs[i]);
    }
  }

  lemma SpaceSame(cfg: Config, a: seq<Item>, b: seq<Item>, live: set<nat>, owner: seq<nat>, bm: seq<bv8>, pos: nat)
    requires cfg.blockSize > 0 && SpaceOk(cfg, a, live, owner, bm, pos) && SameButLinks(a, b)
    ensures SpaceOk(cfg, b, live, owner, bm, pos)
  {
    hide BitsOk;
    forall i | i in live
      ensures Owns(cfg, b[i], owner, i)
    {
      assert Owns(cfg, a[i], owner, i);
      OwnsSame(cfg, a[i], b[i], owner, i);
    }
  }

  lemma OwnsSame(cfg: Config, a: Item, b: Item, owner: seq<nat>, i: nat)
    requires cfg.blockSize > 0 && Owns(cfg, a, owner, i) && b.firstBlock == a.firstBlock && b.valsize == a.valsize
    ensures Owns(cfg, b, owner, i)
  {
    assert forall k :: InBlocks(cfg, b, k) <==> InBlocks(cfg, a, k);
  }

  /** Slot `i` cleared. */
  lemma RecordsDelete(cfg: Config, a: seq<Item>, data: seq<byte>, recs: map<nat, Rec>, i: nat, it: Item)
    requires RecordsOk(cfg, a, data, recs) && i < |a| && it.keysize == 0 && it.expires == 0
    ensures RecordsOk(cfg, a[i := it], data, recs - {i})
  {
    hide Holds;
  }

  /** Slot `i` deleted: its blocks are given back, in bitmap mode their bits cleared. */
  lemma SpaceDelete(cfg: Config, a: seq<Item>, live: set<nat>, owner: seq<nat>, bm: seq<bv8>, bm': seq<bv8>, pos: nat, i: nat, it: Item)
    requires cfg.blockSize > 0 && SpaceOk(cfg, a, live, owner, bm, pos) && i in live
    requires cfg.useBitmap ==> Bitmap.Unmarked(bm, bm', a[i].firstBlock, ItemBlocks(cfg, a[i]))
    requires !cfg.useBitmap ==> bm' == bm
    ensures SpaceOk(cfg, a[i := it], live - {i},
                    if cfg.useBitmap then Assign(owner, a[i].firstBlock, ItemBlocks(cfg, a[i]), 0) else owner, bm', pos)
  {
    var fb, n := a[i].firstBlock, ItemBlocks(cfg, a[i]);
    assert Owns(cfg, a[i], owner, i);
    var owner' := if cfg.useBitmap then Assign(owner, fb, n, 0) else owner;
    var b := a[i := it];
    forall j | j in live - {i}
      ensures Owns(cfg, b[j], owner', j)
    {
      assert Owns(cfg, a[j], owner, j);
      OwnsElsewhere(cfg, a[j], owner, j, fb, n, 0);
    }
    if cfg.useBitmap {
      hide Owns, ItemBlocks;
      ReleaseBits(bm, bm', owner, fb, n);
      hide BitsOk;
    }
  }

  /** Reassigning blocks that slot `j` does not own keeps what it owns. */
  lemma OwnsElsewhere(cfg: Config, jt: Item, owner: seq<nat>, j: nat, fb: nat, n: nat, x: nat)
    requires cfg.blockSize > 0 && Owns(cfg, jt, owner, j)
    requires forall k :: fb <= k < fb + n ==> k < |owner| && owner[k] != j
    ensures Owns(cfg, jt, Assign(owner, fb, n, x), j)
  {
  }

  lemma ReleaseBits(bm: seq<bv8>, bm': seq<bv8>, owner: seq<nat>, fb: nat, n: nat)
    requires BitsOk(bm, owner) && Bitmap.Unmarked(bm, bm', fb, n) && fb + n <= |owner|
    ensures BitsOk(bm', Assign(owner, fb, n, 0))
  {
    hide Bitmap.Used;
  }

  lemma ClaimBits(bm: seq<bv8>, bm': seq<bv8>, owner: seq<nat>, fb: nat, n: nat, i: nat)
    requires BitsOk(bm, owner) && Bitmap.Marked(bm, bm', fb, n) && fb + n <= |owner| && i != 0
    ensures BitsOk(bm', Assign(owner, fb, n, i))
  {
    hide Bitmap.Used;
  }

  ghost predicate OthersOwn(cfg: Config, items: seq<Item>, live: set<nat>, owner: seq<nat>, i: nat)
    requires cfg.blockSize > 0
  {
    forall j :: j in live && j != i ==> j < |items| && Owns(cfg, items[j], owner, j)
  }

  /** Slot `i` (new, or rewritten) holds record `r` after its bytes were written. */
  lemma RecordsStore(cfg: Config, a: seq<Item>, data: seq<byte>, data': seq<byte>, recs: map<nat, Rec>, owner: seq<nat>,
                     i: nat, it: Item, r: Rec)
    requires cfg.blockSize > 0 && RecordsOk(cfg, a, data, recs) && 0 < i < |a| && it.valsize > 0
    requires forall j :: j in recs ==> |recs[j].value| > 0
    requires OthersOwn(cfg, a, recs.Keys, owner, i)
    requires Owns(cfg, it, owner, i) && Holds(cfg, it, data', r)
    requires SameOutside(data, data', ItemStart(cfg, it), it.valsize)
    ensures RecordsOk(cfg, a[i := it], data', recs[i := r])
  {
    forall j | j in recs && j != i
      ensures Holds(cfg, a[j], data', recs[j])
    {
      hide Holds, Owns, SameOutside;
      assert Holds(cfg, a[j], data, recs[j]);
      WriteKeeps(cfg, it, i, a[j], j, owner, data, data', recs[j]);
    }
    hide Holds, Owns, SameOutside;
  }

  /** A run of free blocks lies before the padding and belongs to nobody. */
  lemma FreeUnowned(bm: seq<bv8>, owner: seq<nat>, fb: nat, n: nat)
    requires BitsOk(bm, owner) && fb + n <= 8 * |bm| && Bitmap.Free(bm, fb, n) && n > 0
    ensures fb + n <= |owner| && forall k :: fb <= k < fb + n ==> owner[k] == 0
  {
    hide Bitmap.Used;
    assert !Bitmap.Used(bm, fb + n - 1);
    assert forall k :: fb <= k < fb + n ==> !Bitmap.Used(bm, k);
  }

  /** A new slot `i` takes the free blocks found for it. */
  lemma SpaceInsert(cfg: Config, a: seq<Item>, live: set<nat>, owner: seq<nat>, bm: seq<bv8>, bm': seq<bv8>, pos: nat, pos': nat,
                    i: nat, it: Item)
    requires cfg.blockSize > 0 && cfg.useBitmap && SpaceOk(cfg, a, live, owner, bm, pos) && i !in live && 0 < i < |a|
    requires it.valsize > 0 && pos' < cfg.blocks
    requires it.firstBlock + ItemBlocks(cfg, it) <= 8 * |bm| && Bitmap.Free(bm, it.firstBlock, ItemBlocks(cfg, it))
    requires Bitmap.Marked(bm, bm', it.firstBlock, ItemBlocks(cfg, it))
    ensures SpaceOk(cfg, a[i := it], live + {i}, Assign(owner, it.firstBlock, ItemBlocks(cfg, it), i), bm', pos')
  {
    var fb, n := it.firstBlock, ItemBlocks(cfg, it);
    FreeUnowned(bm, owner, fb, n);
    ClaimBits(bm, bm', owner, fb, n, i);
    var owner' := Assign(owner, fb, n, i);
    forall j | j in live
      ensures Owns(cfg, a[j], owner', j)
    {
      assert Owns(cfg, a[j], owner, j);
      OwnsElsewhere(cfg, a[j], owner, j, fb, n, i);
    }
    assert Owns(cfg, it, owner', i);
    hide BitsOk, Owns, ItemBlocks;
  }

  /** Outside bitmap mode slot `i` has block `i`. */
  lemma SpaceInsertPlain(cfg: Config, a: seq<Item>, live: set<nat>, owner: seq<nat>, bm: seq<bv8>, pos: nat, i: nat, it: Item)
    requires cfg.blockSize > 0 && !cfg.useBitmap && SpaceOk(cfg, a, live, owner, bm, pos) && 0 < i < |a| <= cfg.blocks
    requires 0 < it.valsize <= cfg.blockSize && it.firstBlock == i
    ensures SpaceOk(cfg, a[i := it], live + {i}, owner, bm, pos)
  {
    OneBlock(cfg, it);
    assert Owns(cfg, it, owner, i);
    hide Owns, ItemBlocks;
  }

  lemma OneBlock(cfg: Config, it: Item)
    requires 0 < it.valsize <= cfg.blockSize
    ensures ItemBlocks(cfg, it) == 1
  {
    if it.valsize == cfg.blockSize {
      assert it.valsize / cfg.blockSize == 1 && it.valsize % cfg.blockSize == 0;
    } else {
      assert it.valsize / cfg.blockSize == 0 && it.valsize % cfg.blockSize == it.valsize;
    }
  }

  /** Slot `i` moves to the free blocks found for its new value, then its old blocks are given back. */
  lemma SpaceMove(cfg: Config, a: seq<Item>, live: set<nat>, owner: seq<nat>, bm: seq<bv8>, bm': seq<bv8>, bm'': seq<bv8>,
                  pos: nat, pos': nat, i: nat, it: Item)
    requires cfg.blockSize > 0 && cfg.useBitmap && SpaceOk(cfg, a, live, owner, bm, pos) && i in live
    requires it.valsize > 0 && pos' < cfg.blocks
    requires it.firstBlock + ItemBlocks(cfg, it) <= 8 * |bm| && Bitmap.Free(bm, it.firstBlock, ItemBlocks(cfg, it))
    requires Bitmap.Marked(bm, bm', it.firstBlock, ItemBlocks(cfg, it))
    requires Bitmap.Unmarked(bm', bm'', a[i].firstBlock, ItemBlocks(cfg, a[i]))
    ensures SpaceOk(cfg, a[i := it], live,
                    Assign(Assign(owner, it.firstBlock, ItemBlocks(cfg, it), i), a[i].firstBlock, ItemBlocks(cfg, a[i]), 0), bm'', pos')
  {
    var fb, n, ofb, on := it.firstBlock, ItemBlocks(cfg, it), a[i].firstBlock, ItemBlocks(cfg, a[i]);
    assert Owns(cfg, a[i], owner, i);
    FreeUnowned(bm, owner, fb, n);
    var mid := Assign(owner, fb, n, i);
    var end := Assign(mid, ofb, on, 0);
    ClaimBits(bm, bm', owner, fb, n, i);
    ReleaseBits(bm', bm'', mid, ofb, on);
    forall j | j in live && j != i
      ensures Owns(cfg, a[j], end, j)
    {
      assert Owns(cfg, a[j], owner, j);
      OwnsElsewhere(cfg, a[j], owner, j, fb, n, i);
      OwnsElsewhere(cfg, a[j], mid, j, ofb, on, 0);
    }
    assert Owns(cfg, it, end, i) by {
      assert forall k :: 0 <= k < |owner| && InBlocks(cfg, it, k) ==> !InBlocks(cfg, a[i], k);
    }
    hide BitsOk, Owns, ItemBlocks;
  }

  // ---- the whole memory ------------------------------------------------------------------

  /** Everything a cache keeps in shared memory. */
  datatype Mem = Mem(items: seq<Item>, table: seq<nat>, stack: seq<nat>, sp: nat, bitmap: seq<bv8>, pos: nat,
                     data: seq<byte>, nItems: nat, nextScan: nat, lruHead: nat, lruTail: nat)

  /** The free stack occupies stack[1..sp]. */
  ghost predicate StackOk(stack: seq<nat>, sp: nat, free: seq<nat>) {
    sp == |free| && sp < |stack| && stack[1..sp + 1] == free
  }

  ghost predicate LruMemOk(cfg: Config, items: seq<Item>, head: nat, tail: nat, lru: seq<nat>) {
    cfg.purgeLru ==> LruList(items, head, tail, lru)
  }

  /** The memory `m` stores the abstract cache `a`; `chains` are the hash chains and
      `owner` names the slot each block belongs to. */
  ghost predicate MemOk(cfg: Config, m: Mem, a: Abs, chains: seq<seq<nat>>, owner: seq<nat>) {
    && Inv(cfg, a)
    && |m.stack| == cfg.maxItems && |m.data| == cfg.blocks * cfg.blockSize
    && m.nItems == |a.recs| && m.nextScan == a.nextScan
    && RecordsOk(cfg, m.items, m.data, a.recs)
    && ChainsOk(cfg.hashSize, m.items, m.table, a.recs.Keys, chains)
    && StackOk(m.stack, m.sp, a.free)
    && LruMemOk(cfg, m.items, m.lruHead, m.lruTail, a.lru)
    && SpaceOk(cfg, m.items, a.recs.Keys, owner, m.bitmap, m.pos)
  }

  /** The memory `m` stores `a`. */
  ghost predicate Stores(cfg: Config, m: Mem, a: Abs) {
    exists chains, owner :: MemOk(cfg, m, a, chains, owner)
  }

  /** The block search for `len` bytes from the cursor `pos` on gives `fb`. */
  ghost predicate Searched(cfg: Config, bitmap: seq<bv8>, pos: nat, len: nat, fb: nat) {
    cfg.blockSize > 0 && len > 0 && pos < 8 * |bitmap| &&
    Bitmap.FirstFit(bitmap, pos, Bitmap.NeededBlocks(len, cfg.blockSize), fb)
  }

  /** The cursor of the search after `n` blocks have been taken at `fb`. */
  function Cursor(cfg: Config, fb: nat, n: nat): nat {
    if fb + n >= cfg.blocks then 0 else fb + n
  }

  /** The header fields cleared by a delete. */
  function Wipe(it: Item): Item {
    it.(keysize := 0, valsize := 0, hash := 0, prev := 0, next := 0, expires := 0)
  }

  lemma LruWipe(cfg: Config, items: seq<Item>, head: nat, tail: nat, lru: seq<nat>, i: nat, it: Item)
    requires LruMemOk(cfg, items, head, tail, lru) && i < |items|
    requires it.lruPrev == items[i].lruPrev && it.lruNext == items[i].lruNext
    ensures LruMemOk(cfg, items[i := it], head, tail, lru)
  {
    if cfg.purgeLru { LruSame(items, items[i := it], lru); }
  }

  /** A slot that is not live may change freely, as long as it stays marked as free. */
  lemma DeadOk(cfg: Config, m: Mem, a: Abs, chains: seq<seq<nat>>, owner: seq<nat>, i: nat, it: Item)
    requires MemOk(cfg, m, a, chains, owner) && i < |m.items| && i !in a.recs
    requires it.keysize == 0 && it.expires == 0
    requires it.lruPrev == m.items[i].lruPrev && it.lruNext == m.items[i].lruNext
    ensures MemOk(cfg, m.(items := m.items[i := it]), a, chains, owner)
  {
    assert cfg.Valid();
    hide Inv, RecordsOk, ChainsOk, StackOk, LruMemOk, SpaceOk;
    RecordsDelete(cfg, m.items, m.data, a.recs, i, it);
    assert a.recs - {i} == a.recs;
    ChainsSame(cfg.hashSize, m.items, m.items[i := it], m.table, a.recs.Keys, chains);
    LruWipe(cfg, m.items, m.lruHead, m.lruTail, a.lru, i, it);
    SpaceDead(cfg, m.items, a.recs.Keys, owner, m.bitmap, m.pos, i, it);
  }

  lemma SpaceDead(cfg: Config, items: seq<Item>, live: set<nat>, owner: seq<nat>, bm: seq<bv8>, pos: nat, i: nat, it: Item)
    requires cfg.blockSize > 0 && SpaceOk(cfg, items, live, owner, bm, pos) && i < |items| && i !in live
    ensures SpaceOk(cfg, items[i := it], live, owner, bm, pos)
  {
    hide BitsOk, Owns;
  }

  /** Slot `i` taken out of every list and its blocks given back; the item not yet wiped. */
  ghost predicate Unthreaded(cfg: Config, m: Mem, m': Mem, a: Abs, chains': seq<seq<nat>>, i: nat)
    requires cfg.blockSize > 0 && i < |m.items|
  {
    && SameButLinks(m.items, m'.items)
    && m'.data == m.data && m'.nextScan == m.nextScan && m'.pos == m.pos && m'.nItems == m.nItems - 1
    && |m'.stack| == |m.stack| && StackOk(m'.stack, m'.sp, a.free + [i])
    && ChainsOk(cfg.hashSize, m'.items, m'.table, a.recs.Keys - {i}, chains')
    && LruMemOk(cfg, m'.items, m'.lruHead, m'.lruTail, DelSlot(cfg, a, i).lru)
    && if cfg.useBitmap then Bitmap.Unmarked(m.bitmap, m'.bitmap, m.items[i].firstBlock, ItemBlocks(cfg, m.items[i]))
       else m'.bitmap == m.bitmap
  }

  /** Wiping completes a delete. */
  lemma DeletedOk(cfg: Config, m: Mem, m': Mem, a: Abs, chains: seq<seq<nat>>, chains': seq<seq<nat>>, owner: seq<nat>, i: nat)
    requires MemOk(cfg, m, a, chains, owner) && i in a.recs && i < |m.items|
    requires Unthreaded(cfg, m, m', a, chains', i)
    ensures MemOk(cfg, m'.(items := m'.items[i := Wipe(m'.items[i])]), DelSlot(cfg, a, i), chains',
                  if cfg.useBitmap then Assign(owner, m.items[i].firstBlock, ItemBlocks(cfg, m.items[i]), 0) else owner)
  {
    hide RecordsOk, ChainsOk, StackOk, LruMemOk, SpaceOk, Bitmap.Unmarked, SameButLinks;
    DelSlotInv(cfg, a, i);
    var b := m'.items;
    RecordsSame(cfg, m.items, b, m.data, a.recs);
    SpaceSame(cfg, m.items, b, a.recs.Keys, owner, m.bitmap, m.pos);
    SameFields(m.items, b, i);
    var it := Wipe(b[i]);
    RecordsDelete(cfg, b, m.data, a.recs, i, it);
    ChainsSame(cfg.hashSize, b, b[i := it], m'.table, a.recs.Keys - {i}, chains');
    LruWipe(cfg, b, m'.lruHead, m'.lruTail, DelSlot(cfg, a, i).lru, i, it);
    SpaceDelete(cfg, b, a.recs.Keys, owner, m.bitmap, m'.bitmap, m.pos, i, it);
    assert (a.recs - {i}).Keys == a.recs.Keys - {i};
    assert |a.recs - {i}| == |a.recs| - 1;
    hide Inv;
  }

  lemma SameFields(a: seq<Item>, b: seq<Item>, i: nat)
    requires SameButLinks(a, b) && i < |a|
    ensures |b| == |a| && b[i].firstBlock == a[i].firstBlock && b[i].valsize == a[i].valsize && b[i].keysize == a[i].keysize
  {
  }

  // ---- facts the operations need ------------------------------------------------------------

  lemma LruSlot(cfg: Config, m: Mem, a: Abs, chains: seq<seq<nat>>, owner: seq<nat>, i: nat)
    requires MemOk(cfg, m, a, chains, owner) && i in a.recs
    ensures cfg.purgeLru ==> Distinct(a.lru) && i in a.lru && LruList(m.items, m.lruHead, m.lruTail, a.lru)
    ensures DelSlot(cfg, a, i).lru == if cfg.purgeLru then Without(a.lru, i) else a.lru
  {
    hide ChainsOk, RecordsOk, SpaceOk, FreeOk, RecsOk;
  }

  lemma LruAfterChain(cfg: Config, a: seq<Item>, b: seq<Item>, head: nat, tail: nat, lru: seq<nat>)
    requires LruMemOk(cfg, a, head, tail, lru) && SameButChain(a, b)
    ensures LruMemOk(cfg, b, head, tail, lru)
  {
    if cfg.purgeLru { LruSame(a, b, lru); }
  }

  lemma ChainsAfterLru(hashSize: nat, a: seq<Item>, b: seq<Item>, table: seq<nat>, live: set<nat>, chains: seq<seq<nat>>)
    requires ChainsOk(hashSize, a, table, live, chains) && SameButLru(a, b)
    ensures ChainsOk(hashSize, b, table, live, chains)
  {
    ChainsSame(hashSize, a, b, table, live, chains);
    hide ChainsOk;
  }

  lemma SameLru(a: seq<Item>)
    ensures SameButLru(a, a)
  {
  }

  lemma LinksOnly(a: seq<Item>, b: seq<Item>, c: seq<Item>)
    requires SameButChain(a, b) && SameButLru(b, c)
    ensures SameButLinks(a, c)
  {
  }

  /** What an item in use guarantees. */
  ghost predicate LiveFacts(cfg: Config, m: Mem, a: Abs, i: nat) {
    && cfg.blockSize > 0 && i in a.recs && 0 < i < |m.items| == cfg.maxItems
    && m.items[i].keysize == |m.items[i].key| > 0
    && m.items[i].key == a.recs[i].key && m.items[i].hash == cfg.Hash(a.recs[i].key)
    && m.items[i].valsize == |a.recs[i].value| > 0
    && m.items[i].flags == a.recs[i].flags && m.items[i].expires == a.recs[i].expires
    && (cfg.useBitmap ==> m.items[i].firstBlock + ItemBlocks(cfg, m.items[i]) <= 8 * |m.bitmap|)
    && m.sp + 1 < |m.stack| && m.nItems > 0
    && DelSlot(cfg, a, i).free == a.free + [i]
    && var s := ItemStart(cfg, m.items[i]);
       s + m.items[i].valsize <= |m.data| && m.data[s..s + m.items[i].valsize] == a.recs[i].value
  }

  lemma LiveItem(cfg: Config, m: Mem, a: Abs, chains: seq<seq<nat>>, owner: seq<nat>, i: nat)
    requires MemOk(cfg, m, a, chains, owner) && i in a.recs
    ensures LiveFacts(cfg, m, a, i)
  {
    hide ChainsOk, LruMemOk, Distinct, BitsOk, ItemBlocks;
    assert Holds(cfg, m.items[i], m.data, a.recs[i]);
    assert Owns(cfg, m.items[i], owner, i);
    assert |a.recs| > 0;
    if cfg.useBitmap { BitsLength(m.bitmap, owner); }
    hide Inv, SpaceOk, RecordsOk, Owns;
  }

  /** In every well-formed memory the block ranges of live items lie inside the data area and are pairwise disjoint. */
  lemma RangesDisjoint(cfg: Config, m: Mem, a: Abs, chains: seq<seq<nat>>, owner: seq<nat>, i: nat, j: nat)
    requires cfg.Valid() && MemOk(cfg, m, a, chains, owner) && i in a.recs && j in a.recs && i != j
    ensures i < |m.items| && j < |m.items|
    ensures var it, jt := m.items[i], m.items[j];
            (it.firstBlock + ItemBlocks(cfg, it) <= cfg.blocks &&
             (it.firstBlock + ItemBlocks(cfg, it) <= jt.firstBlock || jt.firstBlock + ItemBlocks(cfg, jt) <= it.firstBlock))
  {
    hide ChainsOk, LruMemOk, Distinct, BitsOk, ItemBlocks;
    assert Holds(cfg, m.items[i], m.data, a.recs[i]) && Holds(cfg, m.items[j], m.data, a.recs[j]);
    assert Owns(cfg, m.items[i], owner, i) && Owns(cfg, m.items[j], owner, j);
    BlocksApart(cfg, m.items[i], m.items[j], owner, i, j);
  }

  /** In every well-formed memory of bitmap mode a bit is set exactly for a block of a live item or a padding bit. */
  lemma BitIffLive(cfg: Config, m: Mem, a: Abs, chains: seq<seq<nat>>, owner: seq<nat>, k: nat)
    requires cfg.Valid() && MemOk(cfg, m, a, chains, owner) && cfg.useBitmap && k < 8 * |m.bitmap|
    ensures Bitmap.Used(m.bitmap, k) <==>
            k >= cfg.blocks || exists i :: i in a.recs && i < |m.items| && InBlocks(cfg, m.items[i], k)
  {
    hide ChainsOk, LruMemOk, Inv, RecordsOk;
    if i :| i in a.recs && i < |m.items| && InBlocks(cfg, m.items[i], k) {
      assert Owns(cfg, m.items[i], owner, i);
    }
    hide InBlocks;
  }

  /** keysize tells live slots from free ones. */
  lemma SlotState(cfg: Config, m: Mem, a: Abs, chains: seq<seq<nat>>, owner: seq<nat>, i: nat)
    requires MemOk(cfg, m, a, chains, owner) && i < |m.items|
    ensures m.items[i].keysize > 0 <==> i in a.recs
    ensures i !in a.recs ==> DelSlot(cfg, a, i) == a && m.items[i].expires == 0
    ensures |m.items| == cfg.maxItems
  {
    if i in a.recs { LiveItem(cfg, m, a, chains, owner, i); }
    hide Inv, ChainsOk, LruMemOk, StackOk, SpaceOk, Holds;
  }

  lemma MemLists(cfg: Config, m: Mem, a: Abs, chains: seq<seq<nat>>, owner: seq<nat>)
    requires MemOk(cfg, m, a, chains, owner)
    ensures ChainsOk(cfg.hashSize, m.items, m.table, a.recs.Keys, chains)
    ensures StackOk(m.stack, m.sp, a.free)
    ensures LruMemOk(cfg, m.items, m.lruHead, m.lruTail, a.lru)
    ensures cfg.purgeLru ==> Distinct(a.lru) && forall i :: i in a.lru <==> i in a.recs
    ensures Inv(cfg, a)
    ensures m.sp == |a.free| && m.nItems == |a.recs| && m.nextScan == a.nextScan && |m.items| == cfg.maxItems
    ensures |m.data| == cfg.blocks * cfg.blockSize && |chains| == cfg.hashSize > 0
  {
    hide SpaceOk, FreeOk, RecsOk, Distinct, LruMemOk, BucketOk, Holds;
  }

  lemma BitsLength(bm: seq<bv8>, owner: seq<nat>)
    requires BitsOk(bm, owner)
    ensures |owner| <= 8 * |bm|
  {
    hide Bitmap.Used;
  }

  lemma PushStack(stack: seq<nat>, sp: nat, free: seq<nat>, i: nat)
    requires StackOk(stack, sp, free) && sp + 1 < |stack|
    ensures StackOk(stack[sp + 1 := i], sp + 1, free + [i])
  {
  }

  /** The bucket a key belongs to: short, and the key's slot is in it if there is one. */
  lemma BucketFacts(cfg: Config, m: Mem, a: Abs, chains: seq<seq<nat>>, owner: seq<nat>, key: Key)
    requires MemOk(cfg, m, a, chains, owner)
    ensures cfg.hashSize > 0 && |m.table| == |chains| == cfg.hashSize
    ensures var b := cfg.Hash(key) % cfg.hashSize; var c := chains[b];
            (|c| < cfg.maxItems && m.table[b] == First(c) && (First(c) == 0 <==> c == []))
    ensures key in a.index ==> a.index[key] in chains[cfg.Hash(key) % cfg.hashSize] && a.index[key] in a.recs
    ensures forall i :: i in a.recs ==> (a.recs[i].key == key <==> key in a.index && a.index[key] == i)
  {
    MemLists(cfg, m, a, chains, owner);
    var b := cfg.Hash(key) % cfg.hashSize;
    var c := chains[b];
    assert BucketOk(cfg.hashSize, m.items, m.table[b], a.recs.Keys, c, b);
    ListShort(c, |m.items|);
    if key in a.index { LiveItem(cfg, m, a, chains, owner, a.index[key]); }
    hide SpaceOk, StackOk, LruMemOk, RecordsOk, FreeOk, LruOk, LinkAt, Distinct, Holds;
  }

  /** Element `p` of that bucket. */
  ghost predicate ElementFacts(cfg: Config, m: Mem, a: Abs, c: seq<nat>, key: Key, p: nat)
    requires cfg.hashSize > 0
  {
    && p < |c| && c[p] in a.recs && c[p] < |m.items|
    && m.items[c[p]].hash % cfg.hashSize == cfg.Hash(key) % cfg.hashSize
    && m.items[c[p]].next == At(c, p + 1) && (p + 1 < |c| ==> c[p + 1] > 0)
    && var it := m.items[c[p]];
       (it.hash == cfg.Hash(key) && it.keysize == |key| && it.key == key <==> a.recs[c[p]].key == key)
  }

  lemma BucketElement(cfg: Config, m: Mem, a: Abs, chains: seq<seq<nat>>, owner: seq<nat>, key: Key, p: nat)
    requires MemOk(cfg, m, a, chains, owner) && |chains| == cfg.hashSize > 0
    requires p < |chains[cfg.Hash(key) % cfg.hashSize]|
    ensures ElementFacts(cfg, m, a, chains[cfg.Hash(key) % cfg.hashSize], key, p)
  {
    var b := cfg.Hash(key) % cfg.hashSize;
    var c := chains[b];
    MemLists(cfg, m, a, chains, owner);
    assert BucketOk(cfg.hashSize, m.items, m.table[b], a.recs.Keys, c, b);
    assert c[p] in c && LinkAt(m.items, c, p);
    LiveItem(cfg, m, a, chains, owner, c[p]);
    hide MemOk, Distinct, ChainsOk;
  }

  lemma SameLruTrans(a: seq<Item>, b: seq<Item>, c: seq<Item>)
    requires SameButLru(a, b) && SameButLru(b, c)
    ensures SameButLru(a, c)
  {
  }

  lemma LruIsLinks(a: seq<Item>, b: seq<Item>)
    requires SameButLru(a, b)
    ensures SameButLinks(a, b)
  {
  }

  /** Only LRU links and list ends changed, to the touched list. */
  lemma TouchedOk(cfg: Config, m: Mem, m': Mem, a: Abs, chains: seq<seq<nat>>, owner: seq<nat>, i: nat)
    requires MemOk(cfg, m, a, chains, owner) && i in a.recs && cfg.purgeLru && SameButLru(m.items, m'.items)
    requires m' == m.(items := m'.items, lruHead := m'.lruHead, lruTail := m'.lruTail)
    requires LruList(m'.items, m'.lruHead, m'.lruTail, Without(a.lru, i) + [i])
    ensures MemOk(cfg, m', Touch(cfg, a, i), chains, owner)
  {
    assert cfg.Valid();
    hide Inv, RecordsOk, SpaceOk, ChainsOk, StackOk, LruList, Without, SameButLinks, SameButLru;
    LruIsLinks(m.items, m'.items);
    TouchInv(cfg, a, i);
    RecordsSame(cfg, m.items, m'.items, m.data, a.recs);
    SpaceSame(cfg, m.items, m'.items, a.recs.Keys, owner, m.bitmap, m.pos);
    ChainsAfterLru(cfg.hashSize, m.items, m'.items, m.table, a.recs.Keys, chains);
  }

  lemma HeadFacts(cfg: Config, m: Mem, a: Abs, chains: seq<seq<nat>>, owner: seq<nat>)
    requires MemOk(cfg, m, a, chains, owner)
    ensures cfg.purgeLru ==> (m.lruHead != 0 <==> a.lru != []) &&
                             (a.lru != [] ==> m.lruHead == a.lru[0] && 0 < m.lruHead < cfg.maxItems)
    ensures m.nextScan == a.nextScan && |m.items| == cfg.maxItems
  {
    MemLists(cfg, m, a, chains, owner);
    hide MemOk, ChainsOk, LruLinkAt, Inv, Distinct;
  }

  lemma SetScan(cfg: Config, m: Mem, a: Abs, chains: seq<seq<nat>>, owner: seq<nat>, t: nat)
    requires MemOk(cfg, m, a, chains, owner)
    ensures MemOk(cfg, m.(nextScan := t), a.(nextScan := t), chains, owner)
  {
    ScanTimeInv(cfg, a, t);
    hide Inv, RecordsOk, SpaceOk, ChainsOk, StackOk, LruMemOk;
  }

  lemma DelSlotCount(cfg: Config, a: Abs, i: nat)
    requires i in a.recs
    ensures |DelSlot(cfg, a, i).recs| == |a.recs| - 1
  {
    assert (a.recs - {i}).Keys == a.recs.Keys - {i};
  }

  // ---- storing ---------------------------------------------------------------------------------

  /** The item's header fields for record `r`. */
  ghost predicate Describes(cfg: Config, it: Item, r: Rec) {
    && it.keysize == |r.key| && it.key == r.key && it.hash == cfg.Hash(r.key)
    && it.expires == r.expires && it.flags == r.flags && it.valsize == |r.value|
  }

  /** `b` is `a` with `val` written at `s`. */
  ghost predicate Written(a: seq<byte>, b: seq<byte>, s: nat, val: seq<byte>) {
    SameOutside(a, b, s, |val|) && s + |val| <= |b| && b[s..s + |val|] == val
  }

  /** Blocks for `it` taken from the free ones: marked in bitmap mode, block `i` itself otherwise. */
  ghost predicate Placed(cfg: Config, m: Mem, m': Mem, it: Item, i: nat)
    requires cfg.blockSize > 0
  {
    if cfg.useBitmap then
      && it.firstBlock + ItemBlocks(cfg, it) <= 8 * |m.bitmap| && Bitmap.Free(m.bitmap, it.firstBlock, ItemBlocks(cfg, it))
      && Bitmap.Marked(m.bitmap, m'.bitmap, it.firstBlock, ItemBlocks(cfg, it)) && m'.pos < cfg.blocks
    else it.firstBlock == i && m'.bitmap == m.bitmap && m'.pos == m.pos
  }

  ghost function OwnerAfterInsert(cfg: Config, owner: seq<nat>, it: Item, i: nat): seq<nat>
    requires cfg.blockSize > 0
  {
    if cfg.useBitmap then Assign(owner, it.firstBlock, ItemBlocks(cfg, it), i) else owner
  }

  /** Everything a successful insert has done to the memory; `b` is the new abstract state. */
  ghost predicate Inserted(cfg: Config, m: Mem, m': Mem, a: Abs, b: Abs, chains': seq<seq<nat>>, i: nat, it: Item, r: Rec)
    requires cfg.blockSize > 0 && i < |m.items|
  {
    && Describes(cfg, it, r) && SameButLinks(m.items[i := it], m'.items)
    && Written(m.data, m'.data, ItemStart(cfg, it), r.value)
    && m'.stack == m.stack && m'.sp == m.sp - 1 && m'.nItems == m.nItems + 1 && m'.nextScan == b.nextScan
    && Placed(cfg, m, m', it, i)
    && ChainsOk(cfg.hashSize, m'.items, m'.table, a.recs.Keys + {i}, chains')
    && LruMemOk(cfg, m'.items, m'.lruHead, m'.lruTail, b.lru)
  }

  lemma InsertedSpace(cfg: Config, m: Mem, m': Mem, a: Abs, chains: seq<seq<nat>>, owner: seq<nat>, i: nat, it: Item)
    requires MemOk(cfg, m, a, chains, owner) && i !in a.recs && 0 < i < |m.items|
    requires 0 < it.valsize <= cfg.MaxItemSize() && Placed(cfg, m, m', it, i)
    ensures SpaceOk(cfg, m.items[i := it], a.recs.Keys + {i}, OwnerAfterInsert(cfg, owner, it, i), m'.bitmap, m'.pos)
    ensures Owns(cfg, it, OwnerAfterInsert(cfg, owner, it, i), i)
    ensures OthersOwn(cfg, m.items, a.recs.Keys, OwnerAfterInsert(cfg, owner, it, i), i)
  {
    hide Inv, ChainsOk, RecordsOk, StackOk, LruMemOk, Owns, BitsOk, Bitmap.Marked, Bitmap.Free, ItemBlocks;
    assert |m.items| == cfg.maxItems && cfg.Valid() by { MemLists(cfg, m, a, chains, owner); InvConfig(cfg, a); }
    if cfg.useBitmap {
      SpaceInsert(cfg, m.items, a.recs.Keys, owner, m.bitmap, m'.bitmap, m.pos, m'.pos, i, it);
    } else {
      SpaceInsertPlain(cfg, m.items, a.recs.Keys, owner, m.bitmap, m.pos, i, it);
    }
    var items' := m.items[i := it];
    assert forall j :: j in a.recs.Keys + {i} ==> Owns(cfg, items'[j], OwnerAfterInsert(cfg, owner, it, i), j);
  }

  lemma InvConfig(cfg: Config, a: Abs)
    requires Inv(cfg, a)
    ensures cfg.Valid()
    ensures forall j :: j in a.recs ==> |a.recs[j].value| > 0
  {
    hide FreeOk, LruOk;
  }

  /** The record and the space of a newly stored item. */
  lemma StoredOk(cfg: Config, m: Mem, m': Mem, a: Abs, chains: seq<seq<nat>>, owner: seq<nat>, i: nat, it: Item, r: Rec)
    requires MemOk(cfg, m, a, chains, owner) && i !in a.recs && 0 < i < |m.items|
    requires 0 < |r.value| <= cfg.MaxItemSize() && Describes(cfg, it, r) && Placed(cfg, m, m', it, i)
    requires SameButLinks(m.items[i := it], m'.items) && Written(m.data, m'.data, ItemStart(cfg, it), r.value)
    ensures RecordsOk(cfg, m'.items, m'.data, a.recs[i := r])
    ensures SpaceOk(cfg, m'.items, a.recs.Keys + {i}, OwnerAfterInsert(cfg, owner, it, i), m'.bitmap, m'.pos)
  {
    var owner' := OwnerAfterInsert(cfg, owner, it, i);
    InvConfig(cfg, a);
    InsertedSpace(cfg, m, m', a, chains, owner, i, it);
    hide Inv, ChainsOk, RecordsOk, SpaceOk, LruMemOk, SameButLinks, Owns, OthersOwn, SameOutside, Placed, OwnerAfterInsert;
    RecordsStore(cfg, m.items, m.data, m'.data, a.recs, owner', i, it, r);
    RecordsSame(cfg, m.items[i := it], m'.items, m'.data, a.recs[i := r]);
    SpaceSame(cfg, m.items[i := it], m'.items, a.recs.Keys + {i}, owner', m'.bitmap, m'.pos);
  }

  /** The slot, record and stack of an insert. */
  ghost predicate InsertFacts(cfg: Config, a: Abs, b: Abs, i: nat, r: Rec) {
    && cfg.Valid() && a.free != [] && i == a.free[|a.free| - 1] && i !in a.recs && 0 < i < cfg.maxItems
    && b.recs == a.recs[i := r] && b.recs.Keys == a.recs.Keys + {i} && |b.recs| == |a.recs| + 1
    && b.free == a.free[..|a.free| - 1] && b.lru == (if cfg.purgeLru then a.lru + [i] else a.lru) && Inv(cfg, b)
    && 0 < |r.value| <= cfg.MaxItemSize() && (cfg.purgeLru ==> i !in a.lru)
  }

  lemma InsertAbs(cfg: Config, a: Abs, key: Key, val: seq<byte>, expires: nat, flags: Flags, now: nat)
    requires Inv(cfg, a) && a.free != [] && key !in a.index && !Rejected(cfg, key, val)
    ensures InsertFacts(cfg, a, Insert(cfg, a, key, val, expires, flags, now), a.free[|a.free| - 1],
                        Rec(key, val, Deadline(cfg, a.nextScan, expires, flags, now).0, flags))
    ensures Insert(cfg, a, key, val, expires, flags, now).nextScan == Deadline(cfg, a.nextScan, expires, flags, now).1
  {
    hide Deadline, Inv;
    InsertInv(cfg, a, key, val, expires, flags, now);
    InsertSlot(cfg, a);
    OneRecMore(a.recs, a.free[|a.free| - 1], Rec(key, val, Deadline(cfg, a.nextScan, expires, flags, now).0, flags));
  }

  lemma OneRecMore(recs: map<nat, Rec>, i: nat, r: Rec)
    requires i !in recs
    ensures recs[i := r].Keys == recs.Keys + {i} && |recs[i := r]| == |recs| + 1
  {
    assert recs[i := r].Keys == recs.Keys + {i};
    assert |recs[i := r]| == |recs[i := r].Keys| && |recs| == |recs.Keys|;
  }

  /** The slot on top of the free stack. */
  lemma InsertSlot(cfg: Config, a: Abs)
    requires Inv(cfg, a) && a.free != []
    ensures var i := a.free[|a.free| - 1]; cfg.Valid() && i !in a.recs && 0 < i < cfg.maxItems && (cfg.purgeLru ==> i !in a.lru)
  {
    FreePop(cfg.maxItems, a.recs.Keys, a.free);
    hide RecsOk, FreeOk, Distinct;
  }

  lemma InsertedOk(cfg: Config, m: Mem, m': Mem, a: Abs, b: Abs, chains: seq<seq<nat>>, chains': seq<seq<nat>>, owner: seq<nat>,
                   i: nat, it: Item, r: Rec)
    requires MemOk(cfg, m, a, chains, owner) && InsertFacts(cfg, a, b, i, r) && i < |m.items|
    requires Inserted(cfg, m, m', a, b, chains', i, it, r)
    ensures MemOk(cfg, m', b, chains', OwnerAfterInsert(cfg, owner, it, i))
  {
    hide Inv, ChainsOk, RecordsOk, SpaceOk, LruMemOk, SameButLinks, Placed, OwnerAfterInsert, Written, Describes, StackOk, ItemStart;
    StoredOk(cfg, m, m', a, chains, owner, i, it, r);
    PopStack(m.stack, m.sp, a.free);
    WrittenSize(m.data, m'.data, ItemStart(cfg, it), r.value);
  }

  lemma PopStack(stack: seq<nat>, sp: nat, free: seq<nat>)
    requires StackOk(stack, sp, free) && free != []
    ensures sp > 0 && StackOk(stack, sp - 1, free[..|free| - 1])
  {
    assert stack[1..sp] == stack[1..sp + 1][..sp - 1];
  }

  /** Hash chains of the live slots do not see a slot being filled in. */
  lemma FillKeepsChains(hashSize: nat, a: seq<Item>, b: seq<Item>, table: seq<nat>, live: set<nat>, chains: seq<seq<nat>>, i: nat, x: Item, it: Item)
    requires ChainsOk(hashSize, a, table, live, chains) && i < |a| && i !in live && SameButLru(a[i := x], b)
    ensures ChainsOk(hashSize, b[i := it], table, live, chains)
  {
    ChainsSame(hashSize, a, b[i := it], table, live, chains);
    hide ChainsOk;
  }

  lemma FillLinks(a: seq<Item>, b: seq<Item>, c: seq<Item>, i: nat, x: Item, it: Item)
    requires i < |a| && SameButLru(a[i := x], b) && c == b[i := it]
    ensures SameButLinks(a[i := it], c)
  {
  }

  lemma LinksTrans(a: seq<Item>, b: seq<Item>, c: seq<Item>)
    requires SameButLinks(a, b) && SameButChain(b, c)
    ensures SameButLinks(a, c)
  {
  }

  lemma SameLruAt(a: seq<Item>, b: seq<Item>, i: nat)
    requires SameButLru(a, b) && i < |a|
    ensures |b| == |a| && b[i].firstBlock == a[i].firstBlock
  {
  }

  /** What a search for blocks may rely on. */
  lemma SearchReady(cfg: Config, m: Mem, a: Abs, chains: seq<seq<nat>>, owner: seq<nat>)
    requires MemOk(cfg, m, a, chains, owner) && cfg.useBitmap
    ensures m.pos < cfg.blocks <= 8 * |m.bitmap| <= Bitmap.NOT_FOUND
  {
    hide Inv, ChainsOk, RecordsOk, StackOk, LruMemOk, OwnersOk, BitsOk;
    InvConfig(cfg, a);
  }

  /** The bytes of a placed value lie inside the data area. */
  lemma PlaceFits(cfg: Config, m: Mem, m': Mem, a: Abs, chains: seq<seq<nat>>, owner: seq<nat>, it: Item, i: nat)
    requires MemOk(cfg, m, a, chains, owner) && i !in a.recs && 0 < i < |m.items|
    requires 0 < it.valsize <= cfg.MaxItemSize() && Placed(cfg, m, m', it, i)
    ensures ItemStart(cfg, it) + it.valsize <= |m.data|
  {
    InvConfig(cfg, a);
    InsertedSpace(cfg, m, m', a, chains, owner, i, it);
    MemLists(cfg, m, a, chains, owner);
    assert |owner| == cfg.blocks by { OwnerLength(cfg, m, a, chains, owner); }
    hide MemOk, Placed, OthersOwn, SpaceOk, ItemBlocks, Inv;
    OwnsFits(cfg, it, OwnerAfterInsert(cfg, owner, it, i), i);
  }

  lemma OwnerLength(cfg: Config, m: Mem, a: Abs, chains: seq<seq<nat>>, owner: seq<nat>)
    requires MemOk(cfg, m, a, chains, owner)
    ensures |owner| == cfg.blocks && cfg.Valid()
  {
    InvConfig(cfg, a);
    hide Inv, ChainsOk, RecordsOk, StackOk, LruMemOk, BitsOk, Owns;
  }

  lemma OwnsFits(cfg: Config, it: Item, owner: seq<nat>, i: nat)
    requires cfg.blockSize > 0 && Owns(cfg, it, owner, i)
    ensures ItemStart(cfg, it) + it.valsize <= |owner| * cfg.blockSize
  {
    BytesApart(cfg.blockSize, it.firstBlock, ItemBlocks(cfg, it), it.valsize, |owner|);
  }

  lemma PlacedSame(cfg: Config, m: Mem, m': Mem, m'': Mem, x: Item, it: Item, i: nat)
    requires cfg.blockSize > 0 && Placed(cfg, m, m', x, i)
    requires x.firstBlock == it.firstBlock && x.valsize == it.valsize && m''.bitmap == m'.bitmap && m''.pos == m'.pos
    ensures Placed(cfg, m, m'', it, i)
  {
    hide Bitmap.Free, Bitmap.Marked;
  }

  lemma DelUpToStep(cfg: Config, a: Abs, i: nat, all: bool, now: nat)
    requires i >= 1
    ensures DelUpTo(cfg, a, 1, all, now) == a
    ensures var b := DelUpTo(cfg, a, i, all, now);
            DelUpTo(cfg, a, i + 1, all, now) ==
              if i in b.recs && (all || Overdue(b.recs[i].expires, now)) then DelSlot(cfg, b, i) else b
  {
  }

  /** A live item with a new expiry, under a new scan time. */
  lemma ExpireOk(cfg: Config, m: Mem, a: Abs, chains: seq<seq<nat>>, owner: seq<nat>, i: nat, e: nat, scan: nat)
    requires MemOk(cfg, m, a, chains, owner) && i in a.recs && i < |m.items|
    ensures MemOk(cfg, m.(items := m.items[i := m.items[i].(expires := e)], nextScan := scan),
                  a.(recs := a.recs[i := a.recs[i].(expires := e)], nextScan := scan), chains, owner)
  {
    hide Inv, RecordsOk, ChainsOk, StackOk, LruMemOk, SpaceOk;
    var it, r := m.items[i].(expires := e), a.recs[i].(expires := e);
    OwnerLength(cfg, m, a, chains, owner);
    InvRec(cfg, a, i, r);
    ScanTimeInv(cfg, a.(recs := a.recs[i := r]), scan);
    HoldsExpire(cfg, m.items, m.data, a.recs, i, e);
    ChainsSame(cfg.hashSize, m.items, m.items[i := it], m.table, a.recs.Keys, chains);
    LruWipe(cfg, m.items, m.lruHead, m.lruTail, a.lru, i, it);
    SpaceExpire(cfg, m.items, a.recs.Keys, owner, m.bitmap, m.pos, i, it);
  }

  lemma InvRec(cfg: Config, a: Abs, i: nat, r: Rec)
    requires Inv(cfg, a) && i in a.recs && r.key == a.recs[i].key
    requires 0 < |r.value| <= cfg.MaxItemSize() || r.value == a.recs[i].value
    ensures Inv(cfg, a.(recs := a.recs[i := r]))
    ensures a.recs[i := r].Keys == a.recs.Keys && |a.recs[i := r]| == |a.recs|
  {
    NewRecInv(cfg, a, i, r);
    assert a.recs[i := r].Keys == a.recs.Keys;
    hide Inv;
  }

  lemma HoldsExpire(cfg: Config, items: seq<Item>, data: seq<byte>, recs: map<nat, Rec>, i: nat, e: nat)
    requires RecordsOk(cfg, items, data, recs) && i in recs && i < |items|
    ensures RecordsOk(cfg, items[i := items[i].(expires := e)], data, recs[i := recs[i].(expires := e)])
  {
    assert Holds(cfg, items[i].(expires := e), data, recs[i].(expires := e));
    hide Holds;
  }

  lemma SpaceExpire(cfg: Config, items: seq<Item>, live: set<nat>, owner: seq<nat>, bm: seq<bv8>, pos: nat, i: nat, it: Item)
    requires cfg.blockSize > 0 && SpaceOk(cfg, items, live, owner, bm, pos) && i < |items|
    requires it.firstBlock == items[i].firstBlock && it.valsize == items[i].valsize
    ensures SpaceOk(cfg, items[i := it], live, owner, bm, pos)
  {
    hide BitsOk;
    if i in live { OwnsSame(cfg, items[i], it, owner, i); }
    hide Owns, ItemBlocks;
  }

  /** Space for a rewritten value of slot `i`: new blocks marked, giving `mid`, then the old ones unmarked. */
  ghost predicate Moved(cfg: Config, m: Mem, mid: seq<bv8>, m': Mem, it: Item, i: nat)
    requires cfg.blockSize > 0 && i < |m.items|
  {
    if cfg.useBitmap then
      && it.firstBlock + ItemBlocks(cfg, it) <= 8 * |m.bitmap| && Bitmap.Free(m.bitmap, it.firstBlock, ItemBlocks(cfg, it))
      && Bitmap.Marked(m.bitmap, mid, it.firstBlock, ItemBlocks(cfg, it)) && m'.pos < cfg.blocks
      && Bitmap.Unmarked(mid, m'.bitmap, m.items[i].firstBlock, ItemBlocks(cfg, m.items[i]))
    else it.firstBlock == m.items[i].firstBlock && m'.bitmap == m.bitmap && m'.pos == m.pos
  }

  ghost function OwnerAfterMove(cfg: Config, owner: seq<nat>, old': Item, it: Item, i: nat): seq<nat>
    requires cfg.blockSize > 0
  {
    if cfg.useBitmap
    then Assign(Assign(owner, it.firstBlock, ItemBlocks(cfg, it), i), old'.firstBlock, ItemBlocks(cfg, old'), 0)
    else owner
  }

  lemma MovedSpace(cfg: Config, m: Mem, mid: seq<bv8>, m': Mem, a: Abs, chains: seq<seq<nat>>, owner: seq<nat>, i: nat, it: Item)
    requires MemOk(cfg, m, a, chains, owner) && i in a.recs && i < |m.items|
    requires 0 < it.valsize <= cfg.MaxItemSize() && Moved(cfg, m, mid, m', it, i)
    ensures SpaceOk(cfg, m.items[i := it], a.recs.Keys, OwnerAfterMove(cfg, owner, m.items[i], it, i), m'.bitmap, m'.pos)
    ensures Owns(cfg, it, OwnerAfterMove(cfg, owner, m.items[i], it, i), i)
    ensures OthersOwn(cfg, m.items, a.recs.Keys, OwnerAfterMove(cfg, owner, m.items[i], it, i), i)
    ensures ItemStart(cfg, it) + it.valsize <= |m.data|
  {
    hide Inv, ChainsOk, RecordsOk, StackOk, LruMemOk, Owns, BitsOk, Bitmap.Marked, Bitmap.Unmarked, Bitmap.Free, ItemBlocks;
    OwnerLength(cfg, m, a, chains, owner);
    MemLists(cfg, m, a, chains, owner);
    LiveItem(cfg, m, a, chains, owner, i);
    if cfg.useBitmap {
      SpaceMove(cfg, m.items, a.recs.Keys, owner, m.bitmap, mid, m'.bitmap, m.pos, m'.pos, i, it);
    } else {
      assert a.recs.Keys + {i} == a.recs.Keys;
      SpaceInsertPlain(cfg, m.items, a.recs.Keys, owner, m.bitmap, m.pos, i, it);
    }
    var items' := m.items[i := it];
    assert forall j :: j in a.recs.Keys ==> Owns(cfg, items'[j], OwnerAfterMove(cfg, owner, m.items[i], it, i), j);
    OwnsFits(cfg, it, OwnerAfterMove(cfg, owner, m.items[i], it, i), i);
  }

  lemma MovedRecord(cfg: Config, m: Mem, mid: seq<bv8>, m': Mem, a: Abs, chains: seq<seq<nat>>, owner: seq<nat>, i: nat, it: Item, val: seq<byte>)
    requires MemOk(cfg, m, a, chains, owner) && i in a.recs && i < |m.items|
    requires it == m.items[i].(firstBlock := it.firstBlock, valsize := |val|) && 0 < |val| <= cfg.MaxItemSize()
    requires cfg.blockSize > 0 && Moved(cfg, m, mid, m', it, i) && Written(m.data, m'.data, ItemStart(cfg, it), val)
    ensures RecordsOk(cfg, m.items[i := it], m'.data, a.recs[i := a.recs[i].(value := val)])
  {
    InvConfig(cfg, a);
    LiveItem(cfg, m, a, chains, owner, i);
    MovedSpace(cfg, m, mid, m', a, chains, owner, i, it);
    hide Inv, SpaceOk, ChainsOk, LruMemOk, StackOk, RecordsOk, Owns, OthersOwn, SameOutside, OwnerAfterMove, Moved;
    RecordsStore(cfg, m.items, m.data, m'.data, a.recs, OwnerAfterMove(cfg, owner, m.items[i], it, i), i, it, a.recs[i].(value := val));
  }

  lemma WrittenSize(a: seq<byte>, b: seq<byte>, s: nat, val: seq<byte>)
    requires Written(a, b, s, val)
    ensures |b| == |a|
  {
  }

  /** An update assembled from its parts. */
  lemma UpdatedOk(cfg: Config, m: Mem, mid: seq<bv8>, m': Mem, a: Abs, chains: seq<seq<nat>>, owner: seq<nat>, i: nat, it: Item, val: seq<byte>)
    requires MemOk(cfg, m, a, chains, owner) && i in a.recs && i < |m.items|
    requires it == m.items[i].(firstBlock := it.firstBlock, valsize := |val|) && 0 < |val| <= cfg.MaxItemSize()
    requires cfg.blockSize > 0 && Moved(cfg, m, mid, m', it, i) && Written(m.data, m'.data, ItemStart(cfg, it), val)
    requires m' == m.(items := m.items[i := it], bitmap := m'.bitmap, pos := m'.pos, data := m'.data)
    ensures MemOk(cfg, m', a.(recs := a.recs[i := a.recs[i].(value := val)]), chains, OwnerAfterMove(cfg, owner, m.items[i], it, i))
  {
    hide Inv, SpaceOk, ChainsOk, LruMemOk, RecordsOk, StackOk, Owns, OthersOwn, OwnerAfterMove, Moved, Written, ItemStart, ItemBlocks;
    WrittenSize(m.data, m'.data, ItemStart(cfg, it), val);
    OwnerLength(cfg, m, a, chains, owner);
    InvRec(cfg, a, i, a.recs[i].(value := val));
    MovedRecord(cfg, m, mid, m', a, chains, owner, i, it, val);
    MovedSpace(cfg, m, mid, m', a, chains, owner, i, it);
    ChainsSame(cfg.hashSize, m.items, m'.items, m.table, a.recs.Keys, chains);
    LruWipe(cfg, m.items, m.lruHead, m.lruTail, a.lru, i, it);
  }

  /** The top of the free stack. */
  lemma StackTop(cfg: Config, m: Mem, a: Abs, chains: seq<seq<nat>>, owner: seq<nat>)
    requires MemOk(cfg, m, a, chains, owner)
    ensures |m.items| == |m.stack| == cfg.maxItems && m.sp < |m.stack|
    ensures m.sp == 0 <==> a.free == []
    ensures m.sp > 0 ==> m.stack[m.sp] == a.free[|a.free| - 1] && 0 < m.stack[m.sp] < cfg.maxItems && m.stack[m.sp] !in a.recs &&
                         m.items[m.stack[m.sp]].keysize == 0 && m.items[m.stack[m.sp]].expires == 0
  {
    MemLists(cfg, m, a, chains, owner);
    if a.free != [] {
      FreePop(cfg.maxItems, a.recs.Keys, a.free);
      assert m.stack[1..m.sp + 1][m.sp - 1] == m.stack[m.sp];
      SlotState(cfg, m, a, chains, owner, m.stack[m.sp]);
    }
    hide Inv, ChainsOk, LruMemOk, RecordsOk, SpaceOk, FreeOk;
  }

  // ---- a fresh cache -----------------------------------------------------------------------------

  ghost function FreshOwner(cfg: Config): seq<nat> {
    seq(cfg.blocks, k => if cfg.useBitmap then 0 else k)
  }

  /** The last byte of a fresh bitmap has its bits behind the last block set. */
  function PaddingByte(cfg: Config, size: nat, k: nat): bv8 {
    if k == size - 1 && cfg.blocks % 8 > 0 then Bitmap.FromBit(cfg.blocks % 8) else 0
  }

  /** Memory as left by initialisation. */
  ghost predicate Fresh(cfg: Config, m: Mem)
    requires cfg.Valid()
  {
    && |m.items| == cfg.maxItems && (forall k :: 0 <= k < |m.items| ==> m.items[k] == CLEARED)
    && |m.table| == cfg.hashSize && (forall k :: 0 <= k < |m.table| ==> m.table[k] == 0)
    && |m.stack| == cfg.maxItems && (forall k :: 1 <= k < |m.stack| ==> m.stack[k] == k)
    && |m.bitmap| == (if cfg.useBitmap then (cfg.blocks + 7) / 8 else 0)
    && (forall k :: 0 <= k < |m.bitmap| ==> m.bitmap[k] == PaddingByte(cfg, |m.bitmap|, k))
    && |m.data| == cfg.blocks * cfg.blockSize
    && m.sp == cfg.maxItems - 1 && m.pos == 0 && m.nItems == 0 && m.nextScan == 0 && m.lruHead == 0 && m.lruTail == 0
  }

  lemma FreshMemory(cfg: Config, m: Mem)
    requires cfg.Valid() && Fresh(cfg, m) && Inv(cfg, Empty(cfg))
    ensures MemOk(cfg, m, Empty(cfg), seq(cfg.hashSize, _ => []), FreshOwner(cfg))
  {
    hide Inv, BitsOk;
    var a := Empty(cfg);
    assert m.stack[1..m.sp + 1] == a.free;
    var chains := seq(cfg.hashSize, _ => []);
    forall b | 0 <= b < cfg.hashSize
      ensures BucketOk(cfg.hashSize, m.items, m.table[b], {}, chains[b], b)
    {
    }
    assert a.recs.Keys == {};
    if cfg.useBitmap { FreshBits(cfg, m); }
  }

  /** Exactly the padding bits are set. */
  lemma FreshBits(cfg: Config, m: Mem)
    requires cfg.Valid() && Fresh(cfg, m) && cfg.useBitmap
    ensures BitsOk(m.bitmap, FreshOwner(cfg))
  {
    hide Bitmap.Used, PaddingByte;
    forall k | 0 <= k < 8 * |m.bitmap|
      ensures Bitmap.Used(m.bitmap, k) <==> k >= cfg.blocks
    {
      PaddingBit(cfg, m.bitmap, k);
    }
  }

  lemma PaddingBit(cfg: Config, bm: seq<bv8>, k: nat)
    requires |bm| == (cfg.blocks + 7) / 8 && k < 8 * |bm| && bm[k / 8] == PaddingByte(cfg, |bm|, k / 8)
    ensures Bitmap.Used(bm, k) <==> k >= cfg.blocks
  {
    hide Bitmap.Bit, Bitmap.FromBit;
    Bitmap.ShiftedMasks(cfg.blocks % 8, 0, k % 8);
  }

  lemma BucketHead(cfg: Config, m: Mem, a: Abs, chains: seq<seq<nat>>, owner: seq<nat>, b: nat)
    requires MemOk(cfg, m, a, chains, owner) && b < cfg.hashSize
    ensures |m.table| == |chains| == cfg.hashSize && m.table[b] == First(chains[b])
  {
    MemLists(cfg, m, a, chains, owner);
    assert BucketOk(cfg.hashSize, m.items, m.table[b], a.recs.Keys, chains[b], b);
  }

}
