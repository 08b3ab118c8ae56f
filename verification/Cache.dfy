/** The cache itself (core/cache.c): items, bucket table, free stack, block bitmap and data area
    updated in place.  Every operation is proved to do to the memory what CacheModel says. */
module CacheMemory {
  import opened Basics
  import opened CacheModel
  import opened CacheLayout
  import Bitmap
  import CacheKeys
  import CacheSweep
  import CacheRebuild
  import opened CacheRuns

  class Cache {
    const cfg: Config
    const items: array<Item>
    const table: array<nat>
    const stack: array<nat>
    const bitmap: array<bv8>
    const data: array<byte>
    var sp: nat
    var pos: nat
    var nItems: nat
    var nextScan: nat
    var lruHead: nat
    var lruTail: nat

    /** What the memory stands for. */
    ghost var abs: Abs
    ghost var chains: seq<seq<nat>>
    ghost var owner: seq<nat>

    ghost predicate Shape() {
      && cfg.Valid()
      && items.Length == cfg.maxItems && table.Length == cfg.hashSize && stack.Length == cfg.maxItems
      && bitmap.Length == (if cfg.useBitmap then (cfg.blocks + 7) / 8 else 0)
      && data.Length == cfg.blocks * cfg.blockSize
      && table != stack
      && items as object != table && items as object != stack && items as object != bitmap && items as object != data
      && bitmap as object != table && bitmap as object != stack && bitmap as object != data
      && data as object != table && data as object != stack
    }

    ghost function Memory(): Mem
      reads this, items, table, stack, bitmap, data
    {
      Mem(items[..], table[..], stack[..], sp, bitmap[..], pos, data[..], nItems, nextScan, lruHead, lruTail)
    }

    ghost predicate Valid()
      reads this, items, table, stack, bitmap, data
    {
      Shape() && MemOk(cfg, Memory(), abs, chains, owner)
    }

    /** uwsgi_cache_init: all slots on the free stack, all buckets empty, only the padding bits set. */
    constructor (cfg: Config)
      requires cfg.Valid()
      ensures Valid() && this.cfg == cfg && abs == Empty(cfg)
      ensures fresh(items) && fresh(table) && fresh(stack) && fresh(bitmap) && fresh(data)
    {
      this.cfg := cfg;
      items := new Item[cfg.maxItems](_ => CLEARED);
      table := new nat[cfg.hashSize](_ => 0);
      stack := new nat[cfg.maxItems](_ => 0);
      bitmap := new bv8[if cfg.useBitmap then (cfg.blocks + 7) / 8 else 0](_ => 0);
      data := new byte[cfg.blocks * cfg.blockSize](_ => 0);
      sp, pos, nItems, nextScan, lruHead, lruTail := 0, 0, 0, 0, 0, 0;
      abs := Empty(cfg);
      chains := seq(cfg.hashSize, _ => []);
      owner := FreshOwner(cfg);
      new;
      FreeAllSlots();
      MarkPadding();
      EmptyInv(cfg);
      hide Inv, MemOk, PaddingByte, FreshOwner, Empty;
      FreshMemory(cfg, Memory());
    }

    /** uwsgi_cache_init: slots 1 to maxItems-1 pushed in turn. */
    method FreeAllSlots()
      requires stack.Length == cfg.maxItems > 0 && sp == 0
      modifies `sp, stack
      ensures sp == cfg.maxItems - 1 && forall k :: 1 <= k < stack.Length ==> stack[k] == k
    {
      var i := 1;
      while i < cfg.maxItems
        invariant 1 <= i <= cfg.maxItems && sp == i - 1
        invariant forall k :: 1 <= k < i ==> stack[k] == k
      {
        sp := sp + 1;
        stack[sp] := i;
        i := i + 1;
      }
    }

    /** uwsgi_cache_init: the bits behind the last block. */
    method MarkPadding()
      requires bitmap.Length == (if cfg.useBitmap then (cfg.blocks + 7) / 8 else 0)
      requires forall k :: 0 <= k < bitmap.Length ==> bitmap[k] == 0
      modifies bitmap
      ensures forall k :: 0 <= k < bitmap.Length ==> bitmap[k] == PaddingByte(cfg, bitmap.Length, k)
    {
      var m := cfg.blocks % 8;
      if cfg.useBitmap && m > 0 {
        bitmap[bitmap.Length - 1] := Bitmap.FromBit(m);
      }
    }

    // ---- the LRU list ----------------------------------------------------------------

    /** lru_remove_item. */
    method LruRemove(index: nat, ghost c: seq<nat>)
      requires Shape() && LruList(items[..], lruHead, lruTail, c) && Distinct(c) && index in c
      modifies items, `lruHead, `lruTail
      ensures SameButLru(old(items[..]), items[..])
      ensures LruList(items[..], lruHead, lruTail, Without(c, index))
    {
      hide Distinct, Without;
      ghost var p :| 0 <= p < |c| && c[p] == index;
      assert LruLinkAt(items[..], c, p);
      var curr := items[index];
      if p > 0 { assert 0 < c[p - 1] < |items[..]|; }
      if p + 1 < |c| { assert 0 < c[p + 1] < |items[..]|; }
      if curr.lruNext != 0 {
        items[curr.lruNext] := items[curr.lruNext].(lruPrev := curr.lruPrev);
      } else {
        lruTail := curr.lruPrev;
      }
      if curr.lruPrev != 0 {
        items[curr.lruPrev] := items[curr.lruPrev].(lruNext := curr.lruNext);
      } else {
        lruHead := curr.lruNext;
      }
      assert LruBridged(old(items[..]), items[..], c, p);
      hide LruBridged, LruLinkAt;
      DropAt(c, p);
      LruBridge(old(items[..]), items[..], c, p, Without(c, index));
      DroppedEnds(c, p, Without(c, index));
    }

    /** lru_add_item. */
    method LruAdd(index: nat, ghost c: seq<nat>)
      requires Shape() && LruList(items[..], lruHead, lruTail, c) && Distinct(c) && index !in c && 0 < index < items.Length
      modifies items, `lruHead, `lruTail
      ensures SameButLru(old(items[..]), items[..])
      ensures LruList(items[..], lruHead, lruTail, c + [index])
    {
      hide Distinct;
      if c != [] { assert 0 < c[|c| - 1] < |items[..]| && c[|c| - 1] in c && 0 < c[0]; }
      if lruTail != 0 {
        items[lruTail] := items[lruTail].(lruNext := index);
      } else {
        lruHead := index;
      }
      items[index] := items[index].(lruNext := 0, lruPrev := lruTail);
      lruTail := index;
      assert LruExtended(old(items[..]), items[..], c, index);
      hide LruExtended, LruLinkAt;
      LruAppendLinked(old(items[..]), items[..], c, index);
    }

    // ---- the hash chains ----------------------------------------------------------------

    /** The unlinking part of uwsgi_cache_del2. */
    method ChainUnlink(index: nat, ghost live: set<nat>)
      requires Shape() && ChainsOk(cfg.hashSize, items[..], table[..], live, chains)
      requires 0 < index < items.Length && index in live
      modifies items, table
      ensures SameButChain(old(items[..]), items[..])
      ensures var n := old(items[index]).hash % cfg.hashSize;
              ChainsOk(cfg.hashSize, items[..], table[..], live - {index}, chains[n := Without(chains[n], index)])
    {
      hide Distinct, Without;
      var it := items[index];
      var n := it.hash % cfg.hashSize;
      ghost var c := chains[n];
      assert BucketOk(cfg.hashSize, items[..], table[..][n], live, c, n);
      ghost var p :| 0 <= p < |c| && c[p] == index;
      assert LinkAt(items[..], c, p);
      if p > 0 { assert 0 < c[p - 1] < |items[..]|; }
      if p + 1 < |c| { assert 0 < c[p + 1] < |items[..]|; }
      if it.prev != 0 {
        items[it.prev] := items[it.prev].(next := it.next);
      } else {
        table[n] := it.next;
      }
      if it.next != 0 {
        items[it.next] := items[it.next].(prev := it.prev);
      }
      if it.prev == 0 && it.next == 0 {
        table[n] := 0;
      }
      assert ChainBridged(old(items[..]), items[..], c, p);
      assert table[..] == old(table[..])[n := if p == 0 then At(c, 1) else old(table[..])[n]];
      hide ChainBridged, LinkAt, BucketOk;
      ChainsUnlink(cfg.hashSize, old(items[..]), items[..], old(table[..]), table[..], live, chains, n, p);
    }

    /** The last part of a new set: the slot goes to the end of its bucket's chain. */
    method ChainAppend(index: nat, ghost live: set<nat>)
      requires Shape() && ChainsOk(cfg.hashSize, items[..], table[..], live, chains)
      requires 0 < index < items.Length && index !in live
      modifies items, table
      ensures SameButChain(old(items[..]), items[..])
      ensures var n := old(items[index]).hash % cfg.hashSize;
              ChainsOk(cfg.hashSize, items[..], table[..], live + {index}, chains[n := chains[n] + [index]])
    {
      hide Distinct;
      var slot := items[index].hash % cfg.hashSize;
      ghost var c := chains[slot];
      ghost var a := items[..];
      assert BucketOk(cfg.hashSize, a, table[..][slot], live, c, slot);
      assert forall k :: 0 <= k < |c| ==> c[k] in c && c[k] != index;
      items[index] := items[index].(prev := 0, next := 0);
      var last := table[slot];
      if last == 0 {
        table[slot] := index;
      } else {
        ghost var p := 0;
        while items[last].next != 0
          invariant p < |c| && last == c[p] && 0 < last < items.Length
          invariant items[..] == a[index := a[index].(prev := 0, next := 0)]
          decreases |c| - p
        {
          assert LinkAt(a, c, p);
          assert items[last] == a[last];
          last := items[last].next;
          p := p + 1;
        }
        assert LinkAt(a, c, p);
        assert p == |c| - 1;
        items[last] := items[last].(next := index);
        items[index] := items[index].(prev := last);
      }
      assert ChainExtended(a, items[..], c, index);
      assert table[..] == old(table[..])[slot := if c == [] then index else old(table[..])[slot]];
      hide ChainExtended, LinkAt, BucketOk;
      ChainsAppend(cfg.hashSize, a, items[..], old(table[..]), table[..], live, chains, index, slot);
    }

    // ---- deleting ---------------------------------------------------------------------------

    /** The part of uwsgi_cache_del2 that runs for a live slot only. */
    method Unthread(index: nat)
      requires Valid() && 0 < index < items.Length && index in abs.recs
      modifies this`sp, this`nItems, this`lruHead, this`lruTail, items, table, stack, bitmap
      ensures var n := old(items[index]).hash % cfg.hashSize;
              Unthreaded(cfg, old(Memory()), Memory(), abs, chains[n := Without(chains[n], index)], index)
    {
      ghost var m := Memory();
      hide MemOk, Inv, RecordsOk, ChainsOk, SpaceOk, LruList, StackOk, Distinct, Without, Bitmap.Unmarked,
           SameButLru, SameButChain, SameButLinks, CacheModel.DelSlot, Bitmap.NeededBlocks;
      LiveItem(cfg, m, abs, chains, owner, index);
      LruSlot(cfg, m, abs, chains, owner, index);
      MemLists(cfg, m, abs, chains, owner);
      if cfg.useBitmap {
        Bitmap.UnmarkBlocks(bitmap, cfg.blockSize, items[index].firstBlock, items[index].valsize);
      }
      PushStack(stack[..], sp, abs.free, index);
      sp := sp + 1;
      stack[sp] := index;
      assert stack[..] == m.stack[sp := index];
      ChainUnlink(index, abs.recs.Keys);
      ghost var b := items[..];
      LruAfterChain(cfg, m.items, b, lruHead, lruTail, abs.lru);
      SameLru(b);
      if cfg.purgeLru {
        LruRemove(index, abs.lru);
      }
      nItems := nItems - 1;
      LinksOnly(m.items, b, items[..]);
      ghost var n := m.items[index].hash % cfg.hashSize;
      ChainsAfterLru(cfg.hashSize, b, items[..], table[..], abs.recs.Keys - {index}, chains[n := Without(chains[n], index)]);
    }

    /** uwsgi_cache_del2 with a slot number. */
    method DelSlot(index: nat)
      requires Valid() && 0 < index < items.Length
      modifies this, items, table, stack, bitmap
      ensures Valid() && abs == CacheModel.DelSlot(cfg, old(abs), index)
    {
      ghost var m := Memory();
      hide MemOk, Unthreaded, CacheModel.DelSlot, Without, Inv, ChainsOk, StackOk, LruMemOk, Distinct;
      SlotState(cfg, m, abs, chains, owner, index);
      MemLists(cfg, m, abs, chains, owner);
      if items[index].keysize > 0 {
        Unthread(index);
        ghost var m' := Memory();
        items[index] := Wipe(items[index]);
        assert Memory() == m'.(items := m'.items[index := Wipe(m'.items[index])]);
        ghost var n := m.items[index].hash % cfg.hashSize;
        chains := chains[n := Without(chains[n], index)];
        DeletedOk(cfg, m, m', abs, old(chains), chains, owner, index);
        if cfg.useBitmap {
          owner := Assign(owner, m.items[index].firstBlock, ItemBlocks(cfg, m.items[index]), 0);
        }
      } else {
        items[index] := Wipe(items[index]);
        DeadOk(cfg, m, abs, chains, owner, index, Wipe(m.items[index]));
        assert Memory() == m.(items := m.items[index := Wipe(m.items[index])]);
      }
      abs := CacheModel.DelSlot(cfg, abs, index);
    }

    // ---- looking up ---------------------------------------------------------------------------

    /** check_lazy. */
    method CheckLazy(slot: nat, now: nat) returns (r: nat)
      requires Valid() && slot in abs.recs
      modifies this, items, table, stack, bitmap
      ensures Valid()
      ensures (abs, r) == if cfg.lazyExpire && Overdue(old(abs).recs[slot].expires, now)
                          then (CacheModel.DelSlot(cfg, old(abs), slot), 0) else (old(abs), slot)
      ensures r == slot && slot != 0 ==> Memory() == old(Memory())
    {
      hide MemOk, CacheModel.DelSlot;
      LiveItem(cfg, Memory(), abs, chains, owner, slot);
      if items[slot].expires == 0 || !cfg.lazyExpire {
        return slot;
      }
      if items[slot].expires <= now {
        DelSlot(slot);
        return 0;
      }
      return slot;
    }

    /** The chain walk of uwsgi_cache_get_index; the cache-loop alarm never goes off. */
    method FindSlot(key: Key) returns (slot: nat)
      requires Valid()
      ensures slot == if key in abs.index then abs.index[key] else 0
      ensures key in abs.index ==> slot > 0 && slot in abs.recs
    {
      hide MemOk, Linked, LinkAt, Distinct;
      var hash := cfg.Hash(key);
      var hashKey := hash % cfg.hashSize;
      ghost var m := Memory();
      BucketFacts(cfg, m, abs, chains, owner, key);
      ghost var c: seq<nat> := chains[hashKey];
      slot := table[hashKey];
      if slot == 0 {
        return;
      }
      ghost var p := 0;
      BucketElement(cfg, m, abs, chains, owner, key, p);
      var it := items[slot];
      var rounds := 0;
      if it.hash % cfg.hashSize != hashKey {
        assert false; // the bucket holds only its own slots
      }
      if it.hash == hash && it.keysize == |key| && it.key == key {
        return;
      }
      while it.next != 0
        invariant p < |c| && slot == c[p] < items.Length && it == items[slot] && rounds == p
        invariant ElementFacts(cfg, m, abs, c, key, p)
        invariant forall k :: 0 <= k <= p ==> c[k] in abs.recs && abs.recs[c[k]].key != key
        decreases |c| - p
      {
        slot := it.next;
        p := p + 1;
        BucketElement(cfg, m, abs, chains, owner, key, p);
        it := items[slot];
        rounds := rounds + 1;
        if rounds > cfg.maxItems {
          assert false; // the cache-loop alarm
        }
        if it.hash == hash && it.keysize == |key| && it.key == key {
          return;
        }
      }
      slot := 0;
    }

    /** uwsgi_cache_get_index. */
    method GetIndex(key: Key, now: nat) returns (slot: nat)
      requires Valid()
      modifies this, items, table, stack, bitmap
      ensures Valid() && (abs, slot) == Find(cfg, old(abs), key, now)
      ensures slot != 0 || key !in old(abs).index ==> Memory() == old(Memory())
    {
      hide MemOk, CacheModel.DelSlot;
      slot := FindSlot(key);
      if slot != 0 {
        slot := CheckLazy(slot, now);
      }
    }

    /** uwsgi_cache_exists2. */
    method Exists(key: Key, now: nat) returns (r: nat)
      requires Valid()
      modifies this, items, table, stack, bitmap
      ensures Valid() && (abs, r) == CacheModel.Exists(cfg, old(abs), key, now)
    {
      var slot := GetIndex(key, now);
      r := slot % TWO_32;
    }

    /** A get or update moves the slot to the recent end of the LRU list. */
    method Touch(index: nat)
      requires Valid() && index in abs.recs && cfg.purgeLru
      modifies this, items
      ensures Valid() && abs == CacheModel.Touch(cfg, old(abs), index)
      ensures SameButLru(old(items[..]), items[..])
      ensures chains == old(chains) && owner == old(owner)
      ensures Memory() == old(Memory()).(items := items[..], lruHead := lruHead, lruTail := lruTail)
    {
      hide MemOk, LruList, Distinct, Without, SameButLru;
      ghost var m := Memory();
      LiveItem(cfg, m, abs, chains, owner, index);
      MemLists(cfg, m, abs, chains, owner);
      WithoutElements(abs.lru, index);
      LruRemove(index, abs.lru);
      ghost var b := items[..];
      LruAdd(index, Without(abs.lru, index));
      SameLruTrans(m.items, b, items[..]);
      TouchedOk(cfg, m, Memory(), abs, chains, owner, index);
      abs := CacheModel.Touch(cfg, abs, index);
    }

    /** uwsgi_cache_get2 / get3. */
    method Get(key: Key, now: nat) returns (v: Option<(seq<byte>, nat)>)
      requires Valid()
      modifies this, items, table, stack, bitmap
      ensures Valid() && (abs, v) == CacheModel.Get(cfg, old(abs), key, now)
    {
      hide MemOk, Find, Without;
      MemLists(cfg, Memory(), abs, chains, owner);
      FindInv(cfg, abs, key, now);
      var index := GetIndex(key, now);
      if index == 0 {
        return None;
      }
      LiveItem(cfg, Memory(), abs, chains, owner, index);
      if items[index].flags.ungettable {
        return None;
      }
      ghost var b := abs;
      if cfg.purgeLru {
        Touch(index);
      }
      LiveItem(cfg, Memory(), abs, chains, owner, index);
      var s := ItemStart(cfg, items[index]);
      v := Some((data[s..s + items[index].valsize], items[index].expires));
    }

    /** uwsgi_cache_del2 by key. */
    method Del(key: Key, now: nat) returns (r: int)
      requires Valid()
      modifies this, items, table, stack, bitmap
      ensures Valid() && (abs, r) == CacheModel.Del(cfg, old(abs), key, now)
    {
      hide MemOk, Find, CacheModel.DelSlot;
      MemLists(cfg, Memory(), abs, chains, owner);
      FindInv(cfg, abs, key, now);
      var index := GetIndex(key, now);
      if index == 0 {
        return -1;
      }
      LiveItem(cfg, Memory(), abs, chains, owner, index);
      DelSlot(index);
      return 0;
    }

    /** The clear loop: uwsgi_cache_del2 on every slot. */
    method Clear()
      requires Valid()
      modifies this, items, table, stack, bitmap
      ensures Valid() && abs == CacheModel.Clear(cfg, old(abs))
    {
      hide MemOk, CacheModel.DelSlot;
      var i := 1;
      while i < cfg.maxItems
        invariant 1 <= i <= cfg.maxItems
        invariant Valid() && abs == DelUpTo(cfg, old(abs), i, true, 0)
      {
        SlotState(cfg, Memory(), abs, chains, owner, i);
        DelSlot(i);
        i := i + 1;
      }
    }

    /** cache_full. */
    method Full(now: nat)
      requires Valid()
      modifies this, items, table, stack, bitmap
      ensures Valid() && abs == CacheModel.Full(cfg, old(abs), now)
    {
      hide MemOk, CacheModel.DelSlot, DelUpTo;
      var clearCache := cfg.clearOnFull;
      HeadFacts(cfg, Memory(), abs, chains, owner);
      if cfg.purgeLru && lruHead != 0 {
        DelSlot(lruHead);
      }
      ghost var b := abs;
      assert b == PurgeOldest(cfg, old(abs));
      if cfg.sweepOnFull > 0 {
        var removed := SweepWhenFull(now);
        if removed > 0 {
          clearCache := false;
        }
      }
      assert abs == CacheModel.SweepWhenFull(cfg, b, now);
      if clearCache {
        Clear();
      }
    }

    /** The sweep_on_full part of cache_full. */
    method SweepWhenFull(now: nat) returns (removed: nat)
      requires Valid() && cfg.sweepOnFull > 0
      modifies this, items, table, stack, bitmap
      ensures Valid() && abs == CacheModel.SweepWhenFull(cfg, old(abs), now)
      ensures removed == |old(abs).recs| - |abs.recs|
    {
      hide MemOk, CacheModel.DelSlot, DelUpTo, Inv;
      removed := 0;
      MemLists(cfg, Memory(), abs, chains, owner);
      if nextScan <= now {
        SetScan(cfg, Memory(), abs, chains, owner, (now + cfg.sweepOnFull) % TWO_64);
        nextScan := (now + cfg.sweepOnFull) % TWO_64;
        abs := abs.(nextScan := nextScan);
        ghost var a := abs;
        var i := 1;
        DelUpToStep(cfg, a, 1, false, now);
        while i < cfg.maxItems
          invariant 1 <= i <= cfg.maxItems
          invariant Valid() && abs == DelUpTo(cfg, a, i, false, now)
          invariant removed == |a.recs| - |abs.recs|
        {
          DelUpToStep(cfg, a, i, false, now);
          SlotState(cfg, Memory(), abs, chains, owner, i);
          if i in abs.recs { LiveItem(cfg, Memory(), abs, chains, owner, i); }
          if items[i].expires > 0 && items[i].expires <= now {
            DelSlotCount(cfg, abs, i);
            DelSlot(i);
            removed := removed + 1;
          }
          i := i + 1;
        }
      }
    }

    // ---- storing --------------------------------------------------------------------------------

    /** Bitmap mode: find free blocks for `len` bytes from the cursor on, mark them, move the cursor behind them. */
    method PlaceBlocks(len: nat) returns (fb: nat)
      requires Shape() && cfg.useBitmap && len > 0 && pos < cfg.blocks <= 8 * bitmap.Length <= Bitmap.NOT_FOUND
      modifies bitmap, `pos
      ensures Bitmap.FirstFit(old(bitmap[..]), old(pos), Bitmap.NeededBlocks(len, cfg.blockSize), fb)
      ensures Searched(cfg, old(bitmap[..]), old(pos), len, fb) && pos < cfg.blocks
      ensures fb == Bitmap.NOT_FOUND ==> bitmap[..] == old(bitmap[..]) && pos == old(pos)
      ensures fb != Bitmap.NOT_FOUND ==>
        Bitmap.Marked(old(bitmap[..]), bitmap[..], fb, Bitmap.NeededBlocks(len, cfg.blockSize)) &&
        pos == Cursor(cfg, fb, Bitmap.NeededBlocks(len, cfg.blockSize))
    {
      hide Bitmap.Free, Bitmap.NoRun, Bitmap.Marked, Bitmap.NeededBlocks;
      fb := Bitmap.FindFreeBlocks(bitmap, cfg.blockSize, pos, len);
      if fb != Bitmap.NOT_FOUND {
        var needed := Bitmap.MarkBlocks(bitmap, cfg.blockSize, fb, len);
        pos := if fb + needed >= cfg.blocks then 0 else fb + needed;
      }
    }

    /** memcpy of a value into the data area. */
    method WriteData(s: nat, val: seq<byte>)
      requires s + |val| <= data.Length
      modifies data
      ensures Written(old(data[..]), data[..], s, val)
    {
      var k := 0;
      while k < |val|
        invariant 0 <= k <= |val|
        invariant SameOutside(old(data[..]), data[..], s, k) && data[s..s + k] == val[..k]
      {
        data[s + k] := val[k];
        k := k + 1;
      }
    }

    /** The expiry to store; a relative one becomes absolute and pulls the next scan forward. */
    method NewDeadline(expires: nat, flags: Flags, now: nat) returns (e: nat)
      modifies `nextScan
      ensures (e, nextScan) == Deadline(cfg, old(nextScan), expires, flags, now)
    {
      e := expires;
      if !cfg.purgeLru && expires != 0 && !flags.absExpire {
        e := (expires + now) % TWO_64;
        if nextScan == 0 || nextScan > e {
          nextScan := e;
        }
      }
    }

    /** The item of a new key is filled in; it is not on its hash chain yet. */
    method FillItem(index: nat, fb: nat, key: Key, val: seq<byte>, expires: nat, flags: Flags, now: nat) returns (e: nat)
      requires Shape() && 0 < index < items.Length && index !in abs.recs.Keys
      requires ChainsOk(cfg.hashSize, items[..], table[..], abs.recs.Keys, chains)
      requires LruMemOk(cfg, items[..], lruHead, lruTail, abs.lru)
      requires cfg.purgeLru ==> Distinct(abs.lru) && index !in abs.lru
      requires fb * cfg.blockSize + |val| <= data.Length
      modifies `nextScan, `lruHead, `lruTail, items, data
      ensures (e, nextScan) == Deadline(cfg, old(nextScan), expires, flags, now)
      ensures Describes(cfg, items[index], Rec(key, val, e, flags)) && items[index].firstBlock == fb
      ensures SameButLinks(old(items[..])[index := items[index]], items[..])
      ensures Written(old(data[..]), data[..], ItemStart(cfg, items[index]), val)
      ensures ChainsOk(cfg.hashSize, items[..], table[..], abs.recs.Keys, chains)
      ensures LruMemOk(cfg, items[..], lruHead, lruTail, if cfg.purgeLru then abs.lru + [index] else abs.lru)
    {
      hide Deadline, ChainsOk, LruList, Distinct, SameButLru, SameButLinks, Written;
      ghost var items0 := items[..];
      items[index] := items[index].(firstBlock := fb);
      ghost var x := items[index];
      LruWipe(cfg, items0, lruHead, lruTail, abs.lru, index, x);
      SameLru(items[..]);
      if cfg.purgeLru {
        LruAdd(index, abs.lru);
      }
      ghost var items2 := items[..];
      SameLruAt(items0[index := x], items2, index);
      e := NewDeadline(expires, flags, now);
      items[index] := items[index].(expires := e, hash := cfg.Hash(key), flags := flags, key := key,
                                    valsize := |val|, keysize := |key|);
      ghost var it := items[index];
      WriteData(ItemStart(cfg, items[index]), val);
      LruWipe(cfg, items2, lruHead, lruTail, if cfg.purgeLru then abs.lru + [index] else abs.lru, index, it);
      FillKeepsChains(cfg.hashSize, items0, items2, table[..], abs.recs.Keys, chains, index, x, it);
      FillLinks(items0, items2, items[..], index, x, it);
    }

    /** uwsgi_cache_set2, the new-key branch once a free slot is on top of the stack and `fb` is its place. */
    method Fill(index: nat, fb: nat, key: Key, val: seq<byte>, expires: nat, flags: Flags, now: nat, ghost m: Mem)
      requires Shape() && MemOk(cfg, m, abs, chains, owner)
      requires abs.free != [] && index == abs.free[|abs.free| - 1] && key !in abs.index && !Rejected(cfg, key, val)
      requires Memory() == m.(sp := m.sp - 1, bitmap := bitmap[..], pos := pos) && m.sp > 0
      requires Placed(cfg, m, Memory(), CLEARED.(firstBlock := fb, valsize := |val|), index)
      modifies this, items, table, data
      ensures Valid() && abs == Insert(cfg, old(abs), key, val, expires, flags, now) && pos == old(pos)
    {
      hide MemOk, Inv, Insert, Deadline, ChainsOk, LruMemOk, LruList, Distinct, SameButChain, SameButLinks, Written, Placed;
      MemLists(cfg, m, abs, chains, owner);
      InsertAbs(cfg, abs, key, val, expires, flags, now);
      ghost var b := Insert(cfg, abs, key, val, expires, flags, now);
      PlaceFits(cfg, m, Memory(), abs, chains, owner, CLEARED.(firstBlock := fb, valsize := |val|), index);
      hide Rejected;
      var e := FillItem(index, fb, key, val, expires, flags, now);
      ghost var it := items[index];
      ghost var items3 := items[..];
      ghost var n := it.hash % cfg.hashSize;
      ChainAppend(index, abs.recs.Keys);
      nItems := nItems + 1;
      LruAfterChain(cfg, items3, items[..], lruHead, lruTail, b.lru);
      LinksTrans(m.items[index := it], items3, items[..]);
      ghost var chains' := chains[n := chains[n] + [index]];
      PlacedSame(cfg, m, old(Memory()), Memory(), CLEARED.(firstBlock := fb, valsize := |val|), it, index);
      InsertedOk(cfg, m, Memory(), abs, b, chains, chains', owner, index, it, Rec(key, val, e, flags));
      chains := chains';
      owner := OwnerAfterInsert(cfg, owner, it, index);
      abs := b;
    }

    /** The slot on top of the stack, taken from memory `m`, is put back; its item keeps the mark that no blocks were found. */
    method PutBack(index: nat, block: nat, ghost m: Mem)
      requires Shape() && MemOk(cfg, m, abs, chains, owner) && m.sp > 0 && index == m.stack[m.sp] && Memory() == m.(sp := m.sp - 1)
      requires index < |m.items| && index !in abs.recs && m.items[index].keysize == 0 && m.items[index].expires == 0
      modifies `sp, items
      ensures Valid()
    {
      hide MemOk;
      items[index] := items[index].(firstBlock := block);
      sp := sp + 1;
      DeadOk(cfg, m, abs, chains, owner, index, items[index]);
      assert Memory() == m.(items := m.items[index := items[index]]);
    }

    /** uwsgi_cache_set2 on a key that is not there.  In bitmap mode `seen` is the memory the block search ran on and
        `fb` what it found; there is room exactly if it found something. */
    method Store(key: Key, val: seq<byte>, expires: nat, flags: Flags, now: nat)
      returns (ret: int, ghost room: bool, ghost seen: Mem, ghost fb: nat)
      requires Valid() && key !in abs.index && !Rejected(cfg, key, val)
      modifies this, items, table, stack, bitmap, data
      ensures Valid() && (abs, ret) == CacheModel.Store(cfg, old(abs), key, val, expires, flags, now, room)
      ensures ret == 0 <==> HasSlot(cfg, Contents(old(abs)), old(abs).nextScan, now) && room
      ensures !room ==> cfg.useBitmap
      ensures cfg.useBitmap && Ready(cfg, old(abs), now).free != [] ==>
                Stores(cfg, seen, Ready(cfg, old(abs), now)) && Searched(cfg, seen.bitmap, seen.pos, |val|, fb) && room == (fb != Bitmap.NOT_FOUND)
      ensures old(abs).free != [] ==> seen == old(Memory())
      ensures cfg.useBitmap && ret == 0 ==>
                Bitmap.Marked(seen.bitmap, bitmap[..], fb, Bitmap.NeededBlocks(|val|, cfg.blockSize)) &&
                pos == Cursor(cfg, fb, Bitmap.NeededBlocks(|val|, cfg.blockSize))
    {
      hide MemOk, Inv, CacheModel.Full, Insert, ChainsOk, LruMemOk, Bitmap.Marked, Bitmap.Free, Bitmap.NoRun, StackOk, Searched, Cursor, HasSlot;
      assert Ready(cfg, abs, now).free != [] <==> HasSlot(cfg, Contents(abs), abs.nextScan, now) by {
        MemLists(cfg, Memory(), abs, chains, owner);
        ReadyIff(cfg, abs, now);
      }
      room, seen, fb := true, Memory(), 0;
      StackTop(cfg, Memory(), abs, chains, owner);
      if sp == 0 {
        MemLists(cfg, Memory(), abs, chains, owner);
        FullShrinks(cfg, abs, now);
        Full(now);
        StackTop(cfg, Memory(), abs, chains, owner);
        if sp == 0 {
          return -1, true, seen, 0;
        }
      }
      var index := stack[sp];
      ghost var m := Memory();
      seen := m;
      assert Stores(cfg, seen, abs);
      sp := sp - 1;
      var block := index;
      if cfg.useBitmap {
        SearchReady(cfg, m, abs, chains, owner);
        block := PlaceBlocks(|val|);
        if block == Bitmap.NOT_FOUND {
          PutBack(index, block, m);
          Full(now);
          return -1, false, seen, block;
        }
      }
      assert Placed(cfg, m, Memory(), CLEARED.(firstBlock := block, valsize := |val|), index);
      Fill(index, block, key, val, expires, flags, now, m);
      ret, fb := 0, block;
    }

    /** The first part of an update: recency and expiry. */
    method Refresh(index: nat, expires: nat, flags: Flags, now: nat)
      requires Valid() && index in abs.recs
      modifies this, items
      ensures Valid() && abs == CacheModel.Refresh(cfg, old(abs), index, expires, flags, now) && pos == old(pos)
    {
      hide MemOk, Inv, Deadline, Without, SameButLru;
      if !flags.fixExpire {
        if cfg.purgeLru {
          Touch(index);
        }
        MemLists(cfg, Memory(), abs, chains, owner);
        LiveItem(cfg, Memory(), abs, chains, owner, index);
        ghost var m := Memory();
        var e := NewDeadline(expires, flags, now);
        items[index] := items[index].(expires := e);
        ExpireOk(cfg, m, abs, chains, owner, index, e, nextScan);
        assert Memory() == m.(items := m.items[index := m.items[index].(expires := e)], nextScan := nextScan);
        abs := abs.(recs := abs.recs[index := abs.recs[index].(expires := e)], nextScan := nextScan);
      }
    }

    /** uwsgi_cache_set2 with UPDATE on a live slot; new blocks are marked before the old ones are unmarked. */
    method Update(index: nat, val: seq<byte>, expires: nat, flags: Flags, now: nat)
      returns (ret: int, ghost room: bool, ghost seen: Mem, ghost fb: nat)
      requires Valid() && index in abs.recs && 0 < |val| <= cfg.MaxItemSize()
      modifies this, items, table, stack, bitmap, data
      ensures Valid() && (abs, ret) == CacheModel.Update(cfg, old(abs), index, val, expires, flags, now, room)
      ensures !room ==> cfg.useBitmap
      ensures seen.bitmap == old(bitmap[..]) && seen.pos == old(pos)
      ensures cfg.useBitmap ==> Searched(cfg, seen.bitmap, seen.pos, |val|, fb) && room == (fb != Bitmap.NOT_FOUND)
      ensures cfg.useBitmap && ret == 0 ==>
                items[index].firstBlock == fb && pos == Cursor(cfg, fb, Bitmap.NeededBlocks(|val|, cfg.blockSize))
    {
      hide MemOk, Inv, CacheModel.Full, CacheModel.Refresh, Bitmap.Marked, Bitmap.Unmarked, Bitmap.Free, Bitmap.NoRun, Bitmap.NeededBlocks, Written,
           Searched, Cursor;
      room := true;
      assert index in CacheModel.Refresh(cfg, abs, index, expires, flags, now).recs by {
        MemLists(cfg, Memory(), abs, chains, owner);
        RefreshInv(cfg, abs, index, expires, flags, now);
      }
      Refresh(index, expires, flags, now);
      ghost var m := Memory();
      LiveItem(cfg, m, abs, chains, owner, index);
      var block := items[index].firstBlock;
      ghost var mid := bitmap[..];
      seen := m;
      if cfg.useBitmap {
        SearchReady(cfg, m, abs, chains, owner);
        block := PlaceBlocks(|val|);
        if block == Bitmap.NOT_FOUND {
          assert Memory() == m;
          Full(now);
          return -1, false, seen, block;
        }
        mid := bitmap[..];
        Bitmap.UnmarkBlocks(bitmap, cfg.blockSize, items[index].firstBlock, items[index].valsize);
      }
      fb := block;
      ghost var it := items[index].(firstBlock := fb, valsize := |val|);
      assert Moved(cfg, m, mid, Memory(), it, index);
      MovedSpace(cfg, m, mid, Memory(), abs, chains, owner, index, it);
      items[index] := items[index].(firstBlock := block);
      WriteData(ItemStart(cfg, items[index]), val);
      items[index] := items[index].(valsize := |val|);
      assert items[..] == m.items[index := it];
      UpdatedOk(cfg, m, mid, Memory(), abs, chains, owner, index, it, val);
      owner := OwnerAfterMove(cfg, owner, m.items[index], it, index);
      abs := abs.(recs := abs.recs[index := abs.recs[index].(value := val)]);
      ret := 0;
    }

    /** uwsgi_cache_set2.  When it comes to a block search, `room` says what the search found in the memory `seen`:
        the memory at entry unless a key was dropped as overdue or cache_full ran before. */
    method Set(key: Key, val: seq<byte>, expires: nat, flags: Flags, now: nat)
      returns (ret: int, ghost room: bool, ghost seen: Mem, ghost fb: nat)
      requires Valid()
      modifies this, items, table, stack, bitmap, data
      ensures Valid() && (abs, ret) == CacheModel.Set(cfg, old(abs), key, val, expires, flags, now, room)
      ensures ret == 0 <==> Accepts(cfg, old(abs), key, val, flags, now) && room
      ensures !room ==> cfg.useBitmap
      ensures cfg.useBitmap && Accepts(cfg, old(abs), key, val, flags, now) ==>
                Searched(cfg, seen.bitmap, seen.pos, |val|, fb) && room == (fb != Bitmap.NOT_FOUND) &&
                (AtOnce(cfg, old(abs), key, now) ==> seen.bitmap == old(bitmap[..]) && seen.pos == old(pos))
      ensures cfg.useBitmap && ret == 0 ==> pos == Cursor(cfg, fb, Bitmap.NeededBlocks(|val|, cfg.blockSize))
    {
      hide MemOk, Inv, CacheModel.Store, CacheModel.Update, Find, Searched, Stores, Bitmap.Marked, Cursor, CacheModel.Full, Accepts, AtOnce;
      MemLists(cfg, Memory(), abs, chains, owner);
      SetIff(cfg, abs, key, val, expires, flags, now);
      ret, room, seen, fb := -1, true, Memory(), 0;
      if |key| == 0 || |val| == 0 {
        return;
      }
      if |key| > cfg.keySize {
        return;
      }
      if |val| > cfg.MaxItemSize() {
        return;
      }
      MemLists(cfg, Memory(), abs, chains, owner);
      FindInv(cfg, abs, key, now);
      var index := GetIndex(key, now);
      if index == 0 {
        ret, room, seen, fb := Store(key, val, expires, flags, now);
      } else if flags.update {
        ret, room, seen, fb := Update(index, val, expires, flags, now);
      }
    }

    // ---- the sweeper ---------------------------------------------------------------------------------

    /** One locked step of cache_sweeper_free_items. */
    method SweepSlot(i: nat, now: nat) returns (freed: nat)
      requires Valid() && 0 < i < cfg.maxItems
      modifies this, items, table, stack, bitmap
      ensures Valid() && abs == CacheSweep.SweepSlot(cfg, old(abs), i, now)
      ensures freed == |old(abs).recs| - |abs.recs|
    {
      hide MemOk, CacheModel.DelSlot, Inv;
      freed := 0;
      MemLists(cfg, Memory(), abs, chains, owner);
      if i == 1 {
        SetScan(cfg, Memory(), abs, chains, owner, 0);
        nextScan := 0;
        abs := abs.(nextScan := 0);
      }
      MemLists(cfg, Memory(), abs, chains, owner);
      SlotState(cfg, Memory(), abs, chains, owner, i);
      if i in abs.recs { LiveItem(cfg, Memory(), abs, chains, owner, i); }
      var e := items[i].expires;
      if e != 0 {
        if e <= now {
          DelSlotCount(cfg, abs, i);
          DelSlot(i);
          freed := 1;
        } else if nextScan == 0 || nextScan > e {
          SetScan(cfg, Memory(), abs, chains, owner, e);
          nextScan := e;
          abs := abs.(nextScan := e);
        }
      }
    }

    /** cache_sweeper_free_items, undisturbed. */
    method Sweep(now: nat) returns (freed: nat)
      requires Valid()
      modifies this, items, table, stack, bitmap
      ensures Valid() && abs == CacheSweep.Sweep(cfg, old(abs), now)
      ensures freed == |old(abs).recs| - |abs.recs|
    {
      hide MemOk, CacheSweep.SweepSlot, Inv;
      freed := 0;
      if cfg.noExpire || cfg.purgeLru || cfg.lazyExpire {
        return;
      }
      MemLists(cfg, Memory(), abs, chains, owner);
      if nextScan == 0 || nextScan > now {
        return;
      }
      var i := 1;
      while i < cfg.maxItems
        invariant 1 <= i <= cfg.maxItems
        invariant Valid() && abs == CacheSweep.SweepUpTo(cfg, old(abs), i, now)
        invariant freed == |old(abs).recs| - |abs.recs|
      {
        var f := SweepSlot(i, now);
        freed := freed + f;
        i := i + 1;
      }
    }

    // ---- walking over all items -------------------------------------------------------------------------

    /** uwsgi_cache_keys; `cur` is the slot of the last item, 0 for a null item. */
    method NextKey(pos0: nat, cur: nat) returns (p: nat, slot: nat)
      requires Valid()
      requires CacheKeys.AtItem(chains, pos0, cur)
      ensures (p, slot) == CacheKeys.NextKey(chains, pos0, cur)
    {
      hide MemOk, ChainsOk, CacheKeys.After;
      MemLists(cfg, Memory(), abs, chains, owner);
      p := pos0;
      if p >= cfg.hashSize {
        return p, 0;
      }
      while p < cfg.hashSize
        invariant pos0 <= p <= cfg.hashSize
        invariant p > pos0 ==> CacheKeys.NextKey(chains, pos0, cur) == CacheKeys.FirstFrom(chains, p)
      {
        BucketHead(cfg, Memory(), abs, chains, owner, p);
        slot := table[p];
        if p == pos0 && cur != 0 {
          CacheKeys.NextInChain(cfg, Memory(), abs, chains, owner, p, cur);
          slot := items[cur].next;
        }
        if slot != 0 {
          return p, slot;
        }
        p := p + 1;
      }
      p, slot := p + 1, 0;
    }

    // ---- rebuilding ----------------------------------------------------------------------------------------

    /** The loop of uwsgi_cache_fix. */
    method Rebuild(ghost m0: Mem) returns (scan: nat, restored: nat)
      requires Shape() && MemOk(cfg, m0, abs, chains, owner) && items[..] == m0.items
      requires forall b :: 0 <= b < table.Length ==> table[b] == 0
      modifies `sp, table, stack
      ensures CacheRebuild.Rebuilt(cfg, abs, chains, cfg.maxItems, table[..], stack[..], sp, scan, restored)
    {
      hide MemOk;
      CacheRebuild.StartRebuild(cfg, m0, abs, chains, owner, table[..], stack[..]);
      hide CacheRebuild.Rebuilt;
      scan, restored, sp := 0, 0, 0;
      var i := 1;
      while i < cfg.maxItems
        invariant 1 <= i <= cfg.maxItems
        invariant CacheRebuild.Rebuilt(cfg, abs, chains, i, table[..], stack[..], sp, scan, restored)
      {
        SlotState(cfg, m0, abs, chains, owner, i);
        var it := items[i];
        assert it == m0.items[i];
        if it.keysize != 0 {
          CacheRebuild.LiveStep(cfg, m0, abs, chains, owner, i, table[..], stack[..], sp, scan, restored);
          if it.prev == 0 {
            table[it.hash % cfg.hashSize] := i;
          }
          if it.expires != 0 && (scan == 0 || scan > it.expires) {
            scan := it.expires;
          }
          restored := restored + 1;
        } else {
          CacheRebuild.FreeStep(cfg, m0, abs, chains, owner, i, table[..], stack[..], sp, scan, restored);
          sp := sp + 1;
          stack[sp] := i;
        }
        i := i + 1;
      }
    }

    /** uwsgi_cache_fix: only items and data have survived (from a cache in state `m0`), the bucket
        table is zero, the stack holds anything. */
    method Fix(ghost m0: Mem)
      requires Shape() && !cfg.purgeLru && !cfg.useBitmap
      requires MemOk(cfg, m0, abs, chains, owner)
      requires items[..] == m0.items && data[..] == m0.data && bitmap[..] == m0.bitmap && pos == m0.pos
      requires forall b :: 0 <= b < table.Length ==> table[b] == 0
      modifies this, table, stack
      ensures Valid() && table[..] == m0.table && chains == old(chains)
      ensures abs.recs == old(abs).recs && abs.index == old(abs).index
      ensures forall i :: i in abs.free <==> i in old(abs).free
      ensures CacheSweep.Covers(abs, cfg.maxItems) && CacheSweep.Tight(abs, cfg.maxItems)
    {
      hide MemOk, CacheRebuild.Rebuilt, CacheRebuild.FreeSlots, CacheSweep.Covers, CacheSweep.Tight;
      nextScan, nItems := Rebuild(m0);
      CacheRebuild.RebuiltOk(cfg, m0, abs, chains, owner, table[..], stack[..], sp, nextScan, nItems, Memory());
      CacheRebuild.RebuiltScan(cfg, abs, chains, table[..], stack[..], sp, nextScan, nItems);
      abs := abs.(free := CacheRebuild.FreeSlots(abs.recs, cfg.maxItems), nextScan := nextScan);
    }
  }
}
