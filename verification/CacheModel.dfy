/** What a cache (core/cache.c) holds and what each operation does to it, without
    the links, bitmap and bytes that store it.  Class Cache refines these
    functions; the lemmas here are about every state and every run. */
module CacheModel {

  import opened Basics

  type Key = seq<byte>

  const TWO_64: nat := 0x1_0000_0000_0000_0000
  const TWO_32: nat := 0x1_0000_0000

  /** The fixed settings of a cache; `hash` is the configured hash function. */
  datatype Config = Config(maxItems: nat, hashSize: nat, keySize: nat,
                           blocks: nat, blockSize: nat, useBitmap: bool,
                           purgeLru: bool, lazyExpire: bool, noExpire: bool, sweepOnFull: nat, clearOnFull: bool,
                           hash: Key -> nat)
  {
    predicate Valid() {
      && 0 < maxItems <= blocks && 0 < hashSize && 0 < blockSize && 0 < keySize
      && 8 * (blocks / 8 + 1) < TWO_64
    }

    /** Largest value that fits. */
    function MaxItemSize(): nat {
      if useBitmap then blockSize * blocks else blockSize
    }

    /** The hash as stored: 32 bits. */
    function Hash(key: Key): nat {
      hash(key) % TWO_32
    }
  }

  /** The flag bits of a set that matter here. */
  datatype Flags = Flags(ungettable: bool, update: bool, absExpire: bool, fixExpire: bool)

  datatype Rec = Rec(key: Key, value: seq<byte>, expires: nat, flags: Flags)

  /** `recs`: live slots; `index`: key to slot; `lru`: slots, least recently
      touched first (unused without purge_lru); `free`: the free-slot stack, top last. */
  datatype Abs = Abs(recs: map<nat, Rec>, index: map<Key, nat>, lru: seq<nat>, free: seq<nat>, nextScan: nat)

  // ---- well-formed states -----------------------------------------------

  ghost predicate Distinct(s: seq<nat>) {
    forall i, j :: 0 <= i < j < |s| ==> s[i] != s[j]
  }

  /** `index` is the inverse of the records' keys. */
  ghost predicate RecsOk(cfg: Config, recs: map<nat, Rec>, index: map<Key, nat>) {
    && (forall i :: i in recs ==> 1 <= i < cfg.maxItems)
    && (forall i :: i in recs ==> 0 < |recs[i].key| <= cfg.keySize && 0 < |recs[i].value| <= cfg.MaxItemSize())
    && (forall i :: i in recs ==> recs[i].key in index && index[recs[i].key] == i)
    && (forall k :: k in index ==> index[k] in recs && recs[index[k]].key == k)
  }

  /** Every slot but 0 is live or on the free stack, and there exactly once. */
  ghost predicate FreeOk(maxItems: nat, live: set<nat>, free: seq<nat>) {
    && Distinct(free)
    && (forall i :: i in free <==> 1 <= i < maxItems && i !in live)
    && |live| + |free| == maxItems - 1
  }

  ghost predicate LruOk(purgeLru: bool, live: set<nat>, lru: seq<nat>) {
    if purgeLru then Distinct(lru) && forall i :: i in lru <==> i in live
    else lru == []
  }

  ghost predicate Inv(cfg: Config, a: Abs) {
    && cfg.Valid()
    && RecsOk(cfg, a.recs, a.index)
    && FreeOk(cfg.maxItems, a.recs.Keys, a.free)
    && LruOk(cfg.purgeLru, a.recs.Keys, a.lru)
  }

  /** A fresh cache: the free stack holds slot maxItems-1 on top. */
  function Empty(cfg: Config): Abs
    requires cfg.Valid()
  {
    Abs(map[], map[], [], seq(cfg.maxItems - 1, i => i + 1), 0)
  }

  // ---- the operations ----------------------------------------------------

  /** `s` without `x`. */
  function Without(s: seq<nat>, x: nat): (r: seq<nat>)
  {
    if s == [] then [] else if s[0] == x then s[1..] else [s[0]] + Without(s[1..], x)
  }

  /** uwsgi_cache_del2 on a slot; a slot that is not live is left alone. */
  function DelSlot(cfg: Config, a: Abs, i: nat): Abs {
    if i !in a.recs then a
    else Abs(a.recs - {i}, a.index - {a.recs[i].key},
             if cfg.purgeLru then Without(a.lru, i) else a.lru, a.free + [i], a.nextScan)
  }

  /** Expiry time `e` has been reached; 0 never is. */
  predicate Overdue(e: nat, now: nat) {
    0 < e <= now
  }

  /** uwsgi_cache_get_index with check_lazy: the live slot of a key, or 0. */
  function Find(cfg: Config, a: Abs, key: Key, now: nat): (Abs, nat)
  {
    if key !in a.index || a.index[key] !in a.recs then (a, 0)
    else var i := a.index[key];
         if cfg.lazyExpire && Overdue(a.recs[i].expires, now) then (DelSlot(cfg, a, i), 0)
         else (a, i)
  }

  /** Move a slot to the most recently used end. */
  function Touch(cfg: Config, a: Abs, i: nat): Abs {
    if cfg.purgeLru then a.(lru := Without(a.lru, i) + [i]) else a
  }

  /** uwsgi_cache_get2 / get3: value and expiry. */
  function Get(cfg: Config, a: Abs, key: Key, now: nat): (Abs, Option<(seq<byte>, nat)>)
  {
    var (b, i) := Find(cfg, a, key, now);
    if i !in b.recs || b.recs[i].flags.ungettable then (b, None)
    else (Touch(cfg, b, i), Some((b.recs[i].value, b.recs[i].expires)))
  }

  /** uwsgi_cache_exists2: the slot number cut to 32 bits. */
  function Exists(cfg: Config, a: Abs, key: Key, now: nat): (Abs, nat)
  {
    var (b, i) := Find(cfg, a, key, now);
    (b, i % TWO_32)
  }

  /** uwsgi_cache_del2 by key. */
  function Del(cfg: Config, a: Abs, key: Key, now: nat): (Abs, int)
  {
    var (b, i) := Find(cfg, a, key, now);
    if i == 0 then (b, -1) else (DelSlot(cfg, b, i), 0)
  }

  /** Slots 1 to n-1 deleted in turn: all of them, or the overdue ones only. */
  function DelUpTo(cfg: Config, a: Abs, n: nat, all: bool, now: nat): Abs
  {
    if n <= 1 then a
    else var b := DelUpTo(cfg, a, n - 1, all, now);
         if n - 1 in b.recs && (all || Overdue(b.recs[n - 1].expires, now)) then DelSlot(cfg, b, n - 1) else b
  }

  function Clear(cfg: Config, a: Abs): Abs {
    DelUpTo(cfg, a, cfg.maxItems, true, 0)
  }

  /** cache_full, first stage: with purge_lru the least recently touched slot goes. */
  function PurgeOldest(cfg: Config, a: Abs): Abs {
    if cfg.purgeLru && a.lru != [] then DelSlot(cfg, a, a.lru[0]) else a
  }

  /** cache_full, second stage: sweep_on_full, when the scan time has come. */
  function SweepWhenFull(cfg: Config, a: Abs, now: nat): Abs {
    if cfg.sweepOnFull > 0 && a.nextScan <= now
    then DelUpTo(cfg, a.(nextScan := (now + cfg.sweepOnFull) % TWO_64), cfg.maxItems, false, now)
    else a
  }

  /** cache_full; clear_on_full only when the sweep freed nothing. */
  function Full(cfg: Config, a: Abs, now: nat): Abs
  {
    var b := PurgeOldest(cfg, a);
    var c := SweepWhenFull(cfg, b, now);
    if cfg.clearOnFull && !(|c.recs| < |b.recs|) then Clear(cfg, c) else c
  }

  /** The expiry to store and the new scan time: relative expiries become absolute
      (in 64 bits) unless purge_lru is on, and pull the next scan forward. */
  function Deadline(cfg: Config, nextScan: nat, expires: nat, flags: Flags, now: nat): (nat, nat)
  {
    if cfg.purgeLru || expires == 0 || flags.absExpire then (expires, nextScan)
    else var e := (expires + now) % TWO_64;
         (e, if nextScan == 0 || nextScan > e then e else nextScan)
  }

  /** A set that is refused before the cache is looked at. */
  predicate Rejected(cfg: Config, key: Key, val: seq<byte>) {
    key == [] || val == [] || |key| > cfg.keySize || |val| > cfg.MaxItemSize()
  }

  function Insert(cfg: Config, a: Abs, key: Key, val: seq<byte>, expires: nat, flags: Flags, now: nat): Abs
    requires a.free != []
  {
    var i := a.free[|a.free| - 1];
    var (e, scan) := Deadline(cfg, a.nextScan, expires, flags, now);
    Abs(a.recs[i := Rec(key, val, e, flags)], a.index[key := i],
        if cfg.purgeLru then a.lru + [i] else a.lru, a.free[..|a.free| - 1], scan)
  }

  /** The part of an update that happens before space for the new value is looked for. */
  function Refresh(cfg: Config, a: Abs, i: nat, expires: nat, flags: Flags, now: nat): Abs
    requires i in a.recs
  {
    if flags.fixExpire then a
    else var (e, scan) := Deadline(cfg, a.nextScan, expires, flags, now);
         Touch(cfg, a, i).(recs := a.recs[i := a.recs[i].(expires := e)], nextScan := scan)
  }

  /** Before a new key is stored: cache_full when there is no free slot. */
  function Ready(cfg: Config, a: Abs, now: nat): Abs {
    if a.free == [] then Full(cfg, a, now) else a
  }

  /** uwsgi_cache_set2 on a key that is not there.  `room`: the block search of bitmap
      mode succeeded. */
  function Store(cfg: Config, a: Abs, key: Key, val: seq<byte>, expires: nat, flags: Flags, now: nat, room: bool): (Abs, int)
  {
    var c := Ready(cfg, a, now);
    if c.free == [] then (c, -1)
    else if !room then (Full(cfg, c, now), -1)
    else (Insert(cfg, c, key, val, expires, flags, now), 0)
  }

  /** uwsgi_cache_set2 with UPDATE on the live slot `i`. */
  function Update(cfg: Config, a: Abs, i: nat, val: seq<byte>, expires: nat, flags: Flags, now: nat, room: bool): (Abs, int)
    requires i in a.recs
  {
    var c := Refresh(cfg, a, i, expires, flags, now);
    if !room then (Full(cfg, c, now), -1)
    else (c.(recs := c.recs[i := c.recs[i].(value := val)]), 0)
  }

  /** uwsgi_cache_set2 without MATH flags. */
  function Set(cfg: Config, a: Abs, key: Key, val: seq<byte>, expires: nat, flags: Flags, now: nat, room: bool): (Abs, int)
  {
    if Rejected(cfg, key, val) then (a, -1)
    else
      var (b, i) := Find(cfg, a, key, now);
      if i !in b.recs then Store(cfg, b, key, val, expires, flags, now, room)
      else if flags.update then Update(cfg, b, i, val, expires, flags, now, room)
      else (b, -1)
  }

  // ---- every operation keeps the invariant ---------------------------------

  lemma {:induction false} WithoutElements(s: seq<nat>, x: nat)
    requires Distinct(s)
    ensures Distinct(Without(s, x))
    ensures forall y :: y in Without(s, x) <==> y in s && y != x
    ensures |Without(s, x)| == if x in s then |s| - 1 else |s|
  {
    if s != [] {
      assert s == [s[0]] + s[1..];
      if s[0] != x {
        WithoutElements(s[1..], x);
        forall y | y in s[1..]
          ensures y != s[0]
        {
          var j :| 0 <= j < |s[1..]| && s[1..][j] == y;
          assert s[j + 1] == y;
        }
        forall j | 0 < j < |Without(s, x)|
          ensures Without(s, x)[j] != s[0]
        {
          assert Without(s, x)[j] == Without(s[1..], x)[j - 1];
          assert Without(s, x)[j] in Without(s[1..], x);
        }
      }
    }
  }

  lemma EmptyInv(cfg: Config)
    requires cfg.Valid()
    ensures Inv(cfg, Empty(cfg))
  {
    var f := Empty(cfg).free;
    forall i | 1 <= i < cfg.maxItems
      ensures i in f
    {
      assert f[i - 1] == i;
    }
  }

  lemma FreePush(maxItems: nat, live: set<nat>, free: seq<nat>, i: nat)
    requires FreeOk(maxItems, live, free) && i in live && 1 <= i < maxItems
    ensures FreeOk(maxItems, live - {i}, free + [i])
  {
    assert i !in free;
    assert |live - {i}| == |live| - 1;
  }

  lemma FreePop(maxItems: nat, live: set<nat>, free: seq<nat>)
    requires FreeOk(maxItems, live, free) && free != []
    ensures var i := free[|free| - 1];
            (i !in live && 1 <= i < maxItems && FreeOk(maxItems, live + {i}, free[..|free| - 1]))
  {
    var i, f := free[|free| - 1], free[..|free| - 1];
    assert i in free && free == f + [i];
    assert |live + {i}| == |live| + 1;
    forall j
      ensures j in f <==> 1 <= j < maxItems && j !in live + {i}
    {
      assert j in free <==> j in f || j == i;
      if j in f { var k :| 0 <= k < |f| && f[k] == j; assert free[k] != i; }
    }
  }

  lemma LruDrop(purgeLru: bool, live: set<nat>, lru: seq<nat>, i: nat)
    requires LruOk(purgeLru, live, lru)
    ensures LruOk(purgeLru, live - {i}, if purgeLru then Without(lru, i) else lru)
  {
    if purgeLru { WithoutElements(lru, i); }
  }

  lemma LruAppend(purgeLru: bool, live: set<nat>, lru: seq<nat>, i: nat)
    requires LruOk(purgeLru, live, lru) && i !in live
    ensures LruOk(purgeLru, live + {i}, if purgeLru then lru + [i] else lru)
  {
    assert i !in live;
    assert forall j :: 0 <= j < |lru| ==> lru[j] in lru;
  }

  lemma DelSlotInv(cfg: Config, a: Abs, i: nat)
    requires Inv(cfg, a)
    ensures Inv(cfg, DelSlot(cfg, a, i))
  {
    hide FreeOk, LruOk;
    if i in a.recs {
      FreePush(cfg.maxItems, a.recs.Keys, a.free, i);
      LruDrop(cfg.purgeLru, a.recs.Keys, a.lru, i);
      assert (a.recs - {i}).Keys == a.recs.Keys - {i};
    }
  }

  lemma FindInv(cfg: Config, a: Abs, key: Key, now: nat)
    requires Inv(cfg, a)
    ensures var (b, i) := Find(cfg, a, key, now);
            (Inv(cfg, b) && (i == 0 <==> i !in b.recs) &&
             (i == 0 <==> key !in b.index) && (i != 0 ==> b == a && a.index[key] == i))
  {
    if key in a.index {
      DelSlotInv(cfg, a, a.index[key]);
    }
  }

  lemma TouchInv(cfg: Config, a: Abs, i: nat)
    requires Inv(cfg, a) && i in a.recs
    ensures Inv(cfg, Touch(cfg, a, i))
  {
    hide FreeOk, RecsOk, LruOk;
    LruDrop(cfg.purgeLru, a.recs.Keys, a.lru, i);
    LruAppend(cfg.purgeLru, a.recs.Keys - {i}, if cfg.purgeLru then Without(a.lru, i) else a.lru, i);
    assert a.recs.Keys - {i} + {i} == a.recs.Keys;
  }

  lemma {:induction false} DelUpToInv(cfg: Config, a: Abs, n: nat, all: bool, now: nat)
    requires Inv(cfg, a)
    ensures Inv(cfg, DelUpTo(cfg, a, n, all, now))
  {
    if n > 1 {
      DelUpToInv(cfg, a, n - 1, all, now);
      DelSlotInv(cfg, DelUpTo(cfg, a, n - 1, all, now), n - 1);
    }
  }

  lemma FullInv(cfg: Config, a: Abs, now: nat)
    requires Inv(cfg, a)
    ensures Inv(cfg, PurgeOldest(cfg, a))
    ensures Inv(cfg, SweepWhenFull(cfg, a, now))
    ensures Inv(cfg, Full(cfg, a, now))
  {
    hide DelSlot, RecsOk, FreeOk, DelUpTo;
    if a.lru != [] { DelSlotInv(cfg, a, a.lru[0]); }
    var b := PurgeOldest(cfg, a);
    SweepInv(cfg, a, now);
    SweepInv(cfg, b, now);
    DelUpToInv(cfg, SweepWhenFull(cfg, b, now), cfg.maxItems, true, 0);
  }

  lemma SweepInv(cfg: Config, a: Abs, now: nat)
    requires Inv(cfg, a)
    ensures Inv(cfg, SweepWhenFull(cfg, a, now))
  {
    hide DelUpTo, RecsOk, FreeOk;
    var t := (now + cfg.sweepOnFull) % TWO_64;
    ScanTimeInv(cfg, a, t);
    DelUpToInv(cfg, a.(nextScan := t), cfg.maxItems, false, now);
  }

  lemma ScanTimeInv(cfg: Config, a: Abs, t: nat)
    requires Inv(cfg, a)
    ensures Inv(cfg, a.(nextScan := t))
  {
  }

  lemma InsertInv(cfg: Config, a: Abs, key: Key, val: seq<byte>, expires: nat, flags: Flags, now: nat)
    requires Inv(cfg, a) && a.free != [] && key !in a.index && !Rejected(cfg, key, val)
    ensures Inv(cfg, Insert(cfg, a, key, val, expires, flags, now))
  {
    hide Deadline, FreeOk, LruOk;
    var i := a.free[|a.free| - 1];
    FreePop(cfg.maxItems, a.recs.Keys, a.free);
    LruAppend(cfg.purgeLru, a.recs.Keys, a.lru, i);
    assert Insert(cfg, a, key, val, expires, flags, now).recs.Keys == a.recs.Keys + {i};
  }

  lemma RefreshInv(cfg: Config, a: Abs, i: nat, expires: nat, flags: Flags, now: nat)
    requires Inv(cfg, a) && i in a.recs
    ensures Inv(cfg, Refresh(cfg, a, i, expires, flags, now))
    ensures var c := Refresh(cfg, a, i, expires, flags, now);
            (c.index == a.index && c.recs.Keys == a.recs.Keys && c.free == a.free)
  {
    hide Deadline, Inv, Touch;
    var (e, scan) := Deadline(cfg, a.nextScan, expires, flags, now);
    var b, r := Touch(cfg, a, i), a.recs[i].(expires := e);
    TouchInv(cfg, a, i);
    TouchKeeps(cfg, a, i);
    RecSizes(cfg, a, i);
    NewRecInv(cfg, b, i, r);
    ScanTimeInv(cfg, b.(recs := b.recs[i := r]), scan);
  }

  lemma TouchKeeps(cfg: Config, a: Abs, i: nat)
    ensures var b := Touch(cfg, a, i); b.recs == a.recs && b.index == a.index && b.free == a.free && b.nextScan == a.nextScan
  {
  }

  lemma RecSizes(cfg: Config, a: Abs, i: nat)
    requires Inv(cfg, a) && i in a.recs
    ensures 0 < |a.recs[i].value| <= cfg.MaxItemSize()
  {
    hide FreeOk, LruOk;
  }

  /** Replacing the record of a live slot, same key, by one that fits. */
  lemma NewRecInv(cfg: Config, a: Abs, i: nat, r: Rec)
    requires Inv(cfg, a) && i in a.recs && r.key == a.recs[i].key && 0 < |r.value| <= cfg.MaxItemSize()
    ensures Inv(cfg, a.(recs := a.recs[i := r]))
    ensures a.recs[i := r].Keys == a.recs.Keys
  {
    hide FreeOk, LruOk;
    assert a.recs[i := r].Keys == a.recs.Keys;
  }

  // ---- what the deletions remove -------------------------------------------

  /** The finite map a cache stands for. */
  datatype Entry = Entry(value: seq<byte>, expires: nat, flags: Flags)

  ghost function Contents(a: Abs): map<Key, Entry> {
    map k | k in a.index && a.index[k] in a.recs ::
      var r := a.recs[a.index[k]]; Entry(r.value, r.expires, r.flags)
  }

  /** The slots a pass of DelUpTo removes. */
  ghost function Doomed(a: Abs, n: nat, all: bool, now: nat): set<nat> {
    set i | i in a.recs && i < n && (all || Overdue(a.recs[i].expires, now))
  }

  ghost function KeysOf(a: Abs, slots: set<nat>): set<Key>
    requires slots <= a.recs.Keys
  {
    set i | i in slots :: a.recs[i].key
  }

  lemma {:induction false} DelUpToRecs(cfg: Config, a: Abs, n: nat, all: bool, now: nat)
    requires forall i :: i in a.recs ==> i >= 1
    ensures DelUpTo(cfg, a, n, all, now).recs == a.recs - Doomed(a, n, all, now)
    ensures DelUpTo(cfg, a, n, all, now).nextScan == a.nextScan
  {
    hide DelSlot, Doomed;
    if n > 1 {
      var b, x := DelUpTo(cfg, a, n - 1, all, now), n - 1;
      DelUpToRecs(cfg, a, n - 1, all, now);
      DoomedStep(a, n, all, now);
      DelSlotRecs(cfg, b, x);
      MinusTwice(a.recs, Doomed(a, n - 1, all, now), if x in a.recs && (all || Overdue(a.recs[x].expires, now)) then {x} else {});
    } else {
      NoneDoomed(a, n, all, now);
      assert a.recs - {} == a.recs;
    }
  }

  lemma NoneDoomed(a: Abs, n: nat, all: bool, now: nat)
    requires n <= 1 && forall i :: i in a.recs ==> i >= 1
    ensures Doomed(a, n, all, now) == {}
  {
  }

  /** One slot more. */
  lemma DoomedStep(a: Abs, n: nat, all: bool, now: nat)
    requires n > 0
    ensures Doomed(a, n, all, now) ==
            Doomed(a, n - 1, all, now) + (if n - 1 in a.recs && (all || Overdue(a.recs[n - 1].expires, now)) then {n - 1} else {})
    ensures n - 1 !in Doomed(a, n - 1, all, now)
  {
  }

  lemma DelSlotRecs(cfg: Config, a: Abs, i: nat)
    ensures DelSlot(cfg, a, i).recs == a.recs - {i} && DelSlot(cfg, a, i).nextScan == a.nextScan
  {
  }

  lemma MinusTwice(recs: map<nat, Rec>, a: set<nat>, b: set<nat>)
    ensures recs - (a + b) == (recs - a) - b
    ensures (recs - a) - {} == recs - a
  {
  }

  /** Well-formed states that differ by the records of some slots differ by their keys. */
  lemma ContentsWithout(cfg: Config, a: Abs, b: Abs, slots: set<nat>)
    requires Inv(cfg, a) && Inv(cfg, b)
    requires slots <= a.recs.Keys && b.recs == a.recs - slots
    ensures Contents(b) == Contents(a) - KeysOf(a, slots)
  {
    hide FreeOk, LruOk;
    forall i, j | i in slots && j in b.recs
      ensures b.recs[j].key != a.recs[i].key
    {
      assert a.recs[j] == b.recs[j];
    }
    forall k | k in a.index && k !in KeysOf(a, slots)
      ensures k in b.index && b.index[k] == a.index[k]
    {
      var i := a.index[k];
      assert a.recs[i].key == k && i !in slots;
      assert i in b.recs;
    }
    forall k | k in b.index
      ensures k in a.index && k !in KeysOf(a, slots)
    {
      var i := b.index[k];
      assert b.recs[i] == a.recs[i];
    }
  }

  lemma Fewer(recs: map<nat, Rec>, slots: set<nat>)
    requires slots <= recs.Keys
    ensures |recs - slots| < |recs| <==> slots != {}
  {
    assert (recs - slots).Keys == recs.Keys - slots;
    assert |recs.Keys - slots| == |recs.Keys| - |slots|;
  }

  /** The slots sweep_on_full removes. */
  ghost function Due(cfg: Config, a: Abs, now: nat): set<nat> {
    if cfg.sweepOnFull > 0 && a.nextScan <= now then Doomed(a, cfg.maxItems, false, now) else {}
  }

  /** The slot purge_lru gives up. */
  ghost function Oldest(cfg: Config, a: Abs): set<nat> {
    if cfg.purgeLru && a.lru != [] then {a.lru[0]} else {}
  }

  /** The slots cache_full throws out: the least recently touched one (purge_lru), the
      overdue ones if a sweep is due (sweep_on_full), and every one if clear_on_full is
      set and no sweep freed a slot. */
  ghost function Evicted(cfg: Config, a: Abs, now: nat): set<nat> {
    var first := Oldest(cfg, a);
    var due := Due(cfg, a, now) - first;
    if cfg.clearOnFull && due == {} then a.recs.Keys else first + due
  }

  lemma SweepRecs(cfg: Config, a: Abs, now: nat)
    requires Inv(cfg, a)
    ensures SweepWhenFull(cfg, a, now).recs == a.recs - Due(cfg, a, now)
    ensures SweepWhenFull(cfg, a, now).nextScan ==
      if cfg.sweepOnFull > 0 && a.nextScan <= now then (now + cfg.sweepOnFull) % TWO_64 else a.nextScan
    ensures Due(cfg, a, now) <= a.recs.Keys
  {
    hide Inv, DelUpTo, Doomed;
    var later := (now + cfg.sweepOnFull) % TWO_64;
    SlotsFromOne(cfg, a);
    DelUpToRecs(cfg, a.(nextScan := later), cfg.maxItems, false, now);
    SameDoomed(a, later, cfg.maxItems, false, now);
    assert a.recs - {} == a.recs;
  }

  lemma SweepFewer(cfg: Config, a: Abs, now: nat)
    requires Inv(cfg, a)
    ensures |SweepWhenFull(cfg, a, now).recs| < |a.recs| <==> Due(cfg, a, now) != {}
  {
    hide Inv, SweepWhenFull, Due;
    SweepRecs(cfg, a, now);
    Fewer(a.recs, Due(cfg, a, now));
  }

  lemma SlotsFromOne(cfg: Config, a: Abs)
    requires Inv(cfg, a)
    ensures forall i :: i in a.recs ==> i >= 1
  {
    hide FreeOk, LruOk;
  }

  lemma SameDoomed(a: Abs, scan: nat, n: nat, all: bool, now: nat)
    ensures Doomed(a.(nextScan := scan), n, all, now) == Doomed(a, n, all, now) && Doomed(a, n, all, now) <= a.recs.Keys
  {
  }

  lemma PurgeRecs(cfg: Config, a: Abs, now: nat)
    requires Inv(cfg, a)
    ensures Oldest(cfg, a) <= a.recs.Keys
    ensures PurgeOldest(cfg, a).recs == a.recs - Oldest(cfg, a)
    ensures PurgeOldest(cfg, a).nextScan == a.nextScan
    ensures Due(cfg, PurgeOldest(cfg, a), now) == Due(cfg, a, now) - Oldest(cfg, a)
  {
    hide FreeOk, RecsOk, Distinct;
    if a.lru != [] { assert a.lru[0] in a.lru; }
  }

  lemma ClearRecs(cfg: Config, a: Abs)
    requires Inv(cfg, a)
    ensures Clear(cfg, a).recs == map[] && Clear(cfg, a).nextScan == a.nextScan
  {
    hide FreeOk, LruOk, DelUpTo;
    DelUpToRecs(cfg, a, cfg.maxItems, true, 0);
    assert Doomed(a, cfg.maxItems, true, 0) == a.recs.Keys;
  }

  lemma FullRecs(cfg: Config, a: Abs, now: nat)
    requires Inv(cfg, a)
    ensures Evicted(cfg, a, now) <= a.recs.Keys
    ensures Full(cfg, a, now).recs == a.recs - Evicted(cfg, a, now)
    ensures Full(cfg, a, now).nextScan ==
      if cfg.sweepOnFull > 0 && a.nextScan <= now then (now + cfg.sweepOnFull) % TWO_64 else a.nextScan
  {
    hide Inv, PurgeOldest, SweepWhenFull, Clear, Oldest;
    FullInv(cfg, a, now);
    PurgeRecs(cfg, a, now);
    var b := PurgeOldest(cfg, a);
    FullInv(cfg, b, now);
    SweepRecs(cfg, b, now);
    SweepFewer(cfg, b, now);
    var c := SweepWhenFull(cfg, b, now);
    ClearRecs(cfg, c);
    assert Due(cfg, a, now) <= a.recs.Keys;
  }

  /** cache_full removes exactly the evicted slots' keys; every other entry stays as it is. */
  lemma FullContents(cfg: Config, a: Abs, now: nat)
    requires Inv(cfg, a)
    ensures Inv(cfg, Full(cfg, a, now))
    ensures Evicted(cfg, a, now) <= a.recs.Keys
    ensures Contents(Full(cfg, a, now)) == Contents(a) - KeysOf(a, Evicted(cfg, a, now))
  {
    FullInv(cfg, a, now);
    FullRecs(cfg, a, now);
    ContentsWithout(cfg, a, Full(cfg, a, now), Evicted(cfg, a, now));
  }

  lemma FullShrinks(cfg: Config, a: Abs, now: nat)
    requires Inv(cfg, a)
    ensures Full(cfg, a, now).index.Keys <= a.index.Keys
  {
    hide Full, Evicted;
    FullContents(cfg, a, now);
    assert Contents(a).Keys == a.index.Keys;
    assert Contents(Full(cfg, a, now)).Keys == Full(cfg, a, now).index.Keys;
  }

  lemma StoreInv(cfg: Config, a: Abs, key: Key, val: seq<byte>, expires: nat, flags: Flags, now: nat, room: bool)
    requires Inv(cfg, a) && key !in a.index && !Rejected(cfg, key, val)
    ensures Inv(cfg, Store(cfg, a, key, val, expires, flags, now, room).0)
  {
    hide Inv, Full, Insert;
    var c := if a.free == [] then Full(cfg, a, now) else a;
    FullInv(cfg, a, now);
    FullShrinks(cfg, a, now);
    FullInv(cfg, c, now);
    if c.free != [] { InsertInv(cfg, c, key, val, expires, flags, now); }
  }

  lemma UpdateInv(cfg: Config, a: Abs, i: nat, val: seq<byte>, expires: nat, flags: Flags, now: nat, room: bool)
    requires Inv(cfg, a) && i in a.recs && 0 < |val| <= cfg.MaxItemSize()
    ensures Inv(cfg, Update(cfg, a, i, val, expires, flags, now, room).0)
  {
    hide Inv, Full, Refresh;
    RefreshInv(cfg, a, i, expires, flags, now);
    var c := Refresh(cfg, a, i, expires, flags, now);
    FullInv(cfg, c, now);
    NewRecInv(cfg, c, i, c.recs[i].(value := val));
  }

  lemma SetInv(cfg: Config, a: Abs, key: Key, val: seq<byte>, expires: nat, flags: Flags, now: nat, room: bool)
    requires Inv(cfg, a)
    ensures Inv(cfg, Set(cfg, a, key, val, expires, flags, now, room).0)
  {
    hide Inv, Store, Update;
    if !Rejected(cfg, key, val) {
      FindInv(cfg, a, key, now);
      var (b, i) := Find(cfg, a, key, now);
      if i !in b.recs {
        StoreInv(cfg, b, key, val, expires, flags, now, room);
      } else if flags.update {
        UpdateInv(cfg, b, i, val, expires, flags, now, room);
      }
    }
  }
}
