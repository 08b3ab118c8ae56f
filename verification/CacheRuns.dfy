/** Single operations and whole runs of cache operations against a plain finite map. */
module CacheRuns {
  import opened Basics
  import opened CacheModel

  datatype Op =
    | GetOp(key: Key)
    | ExistsOp(key: Key)
    | SetOp(key: Key, val: seq<byte>, expires: nat, flags: Flags, room: bool)
    | DelOp(key: Key)
    | ClearOp

  /** An operation and the clock when it is made. */
  datatype Call = Call(op: Op, now: nat)

  datatype Result = Found(v: Option<(seq<byte>, nat)>) | Code(c: int)

  function Step(cfg: Config, a: Abs, call: Call): (Abs, Result) {
    match call.op
    case GetOp(k) => var (b, v) := Get(cfg, a, k, call.now); (b, Found(v))
    case ExistsOp(k) => var (b, c) := Exists(cfg, a, k, call.now); (b, Code(c))
    case SetOp(k, val, e, f, room) => var (b, c) := Set(cfg, a, k, val, e, f, call.now, room); (b, Code(c))
    case DelOp(k) => var (b, c) := Del(cfg, a, k, call.now); (b, Code(c))
    case ClearOp => (Clear(cfg, a), Code(0))
  }

  /** The state after a run from the fresh cache. */
  function Run(cfg: Config, calls: seq<Call>): Abs
    requires cfg.Valid()
  {
    if calls == [] then Empty(cfg)
    else Step(cfg, Run(cfg, calls[..|calls| - 1]), calls[|calls| - 1]).0
  }

  lemma StepInv(cfg: Config, a: Abs, call: Call)
    requires Inv(cfg, a)
    ensures Inv(cfg, Step(cfg, a, call).0)
  {
    hide Inv, Set, DelSlot, DelUpTo, Touch, Find;
    match call.op
    case GetOp(k) =>
      FindInv(cfg, a, k, call.now);
      var (b, i) := Find(cfg, a, k, call.now);
      if i in b.recs { TouchInv(cfg, b, i); }
    case ExistsOp(k) => FindInv(cfg, a, k, call.now);
    case SetOp(k, val, e, f, room) => SetInv(cfg, a, k, val, e, f, call.now, room);
    case DelOp(k) =>
      FindInv(cfg, a, k, call.now);
      var (b, i) := Find(cfg, a, k, call.now);
      DelSlotInv(cfg, b, i);
    case ClearOp => DelUpToInv(cfg, a, cfg.maxItems, true, 0);
  }

  lemma {:induction false} RunInv(cfg: Config, calls: seq<Call>)
    requires cfg.Valid()
    ensures Inv(cfg, Run(cfg, calls))
  {
    hide Inv, Step;
    if calls == [] {
      EmptyInv(cfg);
    } else {
      RunInv(cfg, calls[..|calls| - 1]);
      StepInv(cfg, Run(cfg, calls[..|calls| - 1]), calls[|calls| - 1]);
    }
  }

  // ---- single operations on the finite map ------------------------------------

  /** Does the lookup of `key` find it overdue and drop it? */
  ghost predicate LazyLoss(cfg: Config, a: Abs, key: Key, now: nat) {
    cfg.lazyExpire && key in Contents(a) && Overdue(Contents(a)[key].expires, now)
  }

  lemma FindContents(cfg: Config, a: Abs, key: Key, now: nat)
    requires Inv(cfg, a)
    ensures var (b, i) := Find(cfg, a, key, now);
            (Contents(b) == (if LazyLoss(cfg, a, key, now) then Contents(a) - {key} else Contents(a)) &&
             Inv(cfg, b) && (i in b.recs <==> key in Contents(b)) && (i in b.recs <==> i != 0) &&
             (i in b.recs ==> b == a && b.recs[i].key == key &&
                              Contents(b)[key] == Entry(b.recs[i].value, b.recs[i].expires, b.recs[i].flags)))
  {
    hide FreeOk, LruOk;
    FindInv(cfg, a, key, now);
    var (b, i) := Find(cfg, a, key, now);
    if LazyLoss(cfg, a, key, now) {
      assert b.recs == a.recs - {a.index[key]};
      ContentsWithout(cfg, a, b, {a.index[key]});
    }
  }

  /** A get returns the stored value and expiry, unless the key is absent, overdue under
      lazy expiry, or flagged ungettable; apart from dropping the overdue key it changes nothing. */
  lemma GetContents(cfg: Config, a: Abs, key: Key, now: nat)
    requires Inv(cfg, a)
    ensures var (b, v) := Get(cfg, a, key, now);
            (Contents(b) == (if LazyLoss(cfg, a, key, now) then Contents(a) - {key} else Contents(a)) &&
             v == (if key in Contents(a) && !LazyLoss(cfg, a, key, now) && !Contents(a)[key].flags.ungettable
                   then Some((Contents(a)[key].value, Contents(a)[key].expires)) else None))
  {
    FindContents(cfg, a, key, now);
    hide Inv, Find;
  }

  /** A delete by key removes the key and nothing else; -1 means it was not there any more. */
  lemma DelContents(cfg: Config, a: Abs, key: Key, now: nat)
    requires Inv(cfg, a)
    ensures Contents(Del(cfg, a, key, now).0) == Contents(a) - {key}
    ensures Del(cfg, a, key, now).1 ==
            (if key in Contents(a) && !LazyLoss(cfg, a, key, now) then 0 else -1)
  {
    hide FreeOk, LruOk, Contents;
    FindContents(cfg, a, key, now);
    var (b, i) := Find(cfg, a, key, now);
    if i != 0 {
      DelSlotInv(cfg, b, i);
      ContentsWithout(cfg, b, DelSlot(cfg, b, i), {i});
      assert KeysOf(b, {i}) == {key};
    }
  }

  /** The existence test answers through a slot number cut to 32 bits: it is right about a
      present key exactly when that slot number is not a multiple of 2^32. */
  lemma ExistsContents(cfg: Config, a: Abs, key: Key, now: nat)
    requires Inv(cfg, a)
    ensures var present := key in Contents(a) && !LazyLoss(cfg, a, key, now);
            (Exists(cfg, a, key, now).1 != 0) <==> present && a.index[key] % TWO_32 != 0
    ensures cfg.maxItems <= TWO_32 ==>
            ((Exists(cfg, a, key, now).1 != 0) <==> key in Contents(a) && !LazyLoss(cfg, a, key, now))
  {
    hide Contents, Find, FreeOk, LruOk;
    FindContents(cfg, a, key, now);
    FindInv(cfg, a, key, now);
    ContentsKeys(cfg, a);
    var (b, i) := Find(cfg, a, key, now);
    assert Exists(cfg, a, key, now).1 == i % TWO_32;
    if i != 0 {
      assert i in a.recs && i == a.index[key] && 0 < i < cfg.maxItems;
    }
  }

  lemma RunOne(cfg: Config, call: Call)
    requires cfg.Valid()
    ensures Run(cfg, [call]) == Step(cfg, Empty(cfg), call).0
  {
    hide Step, Empty;
    var calls := [call];
    assert calls[..|calls| - 1] == [] && Run(cfg, []) == Empty(cfg);
  }

  /** Such a slot number is reached: with 2^32 + 1 slots the first key stored in a fresh cache gets slot 2^32, and the
      existence test denies it. */
  lemma ExistsDeniesPresent(cfg: Config, key: Key, val: seq<byte>, flags: Flags, now: nat)
    requires cfg.Valid() && cfg.maxItems == TWO_32 + 1 && !Rejected(cfg, key, val)
    ensures var a := Run(cfg, [Call(SetOp(key, val, 0, flags, true), now)]);
            key in Contents(a) && !LazyLoss(cfg, a, key, now) && Exists(cfg, a, key, now).1 == 0
  {
    var call := Call(SetOp(key, val, 0, flags, true), now);
    var a := Run(cfg, [call]);
    RunOne(cfg, call);
    assert a == Insert(cfg, Empty(cfg), key, val, 0, flags, now);
    assert a.index[key] == TWO_32;
    RunInv(cfg, [call]);
    hide Inv, Run, Insert, Contents;
    ContentsKeys(cfg, a);
    SlotEntry(cfg, a, TWO_32);
    ExistsContents(cfg, a, key, now);
  }

  /** A set without UPDATE on a key that is there (and not dropped as overdue) changes nothing. */
  lemma SetPresent(cfg: Config, a: Abs, key: Key, val: seq<byte>, expires: nat, flags: Flags, now: nat, room: bool)
    requires Inv(cfg, a) && key in Contents(a) && !LazyLoss(cfg, a, key, now) && !flags.update
    ensures Set(cfg, a, key, val, expires, flags, now, room) == (a, -1)
  {
    FindContents(cfg, a, key, now);
    hide Inv, Find, Contents;
  }

  /** The expiry a new or refreshed item gets. */
  function ExpiryOf(cfg: Config, expires: nat, flags: Flags, now: nat): nat {
    if cfg.purgeLru || expires == 0 || flags.absExpire then expires else (expires + now) % TWO_64
  }

  /** The expiry an update leaves. */
  function Refreshed(cfg: Config, old': nat, expires: nat, flags: Flags, now: nat): nat {
    if flags.fixExpire then old' else ExpiryOf(cfg, expires, flags, now)
  }

  /** What is stored under a key. */
  ghost function Held(a: Abs, k: Key): Option<Entry> {
    if k in Contents(a) then Some(Contents(a)[k]) else None
  }

  /** A record under its key is what is held there; nothing else is. */
  lemma HeldIs(cfg: Config, a: Abs, k: Key)
    requires Inv(cfg, a)
    ensures Held(a, k) == if k in a.index then Some(EntryOf(a, k)) else None
  {
    hide FreeOk, LruOk;
  }

  function EntryOf(a: Abs, k: Key): Entry {
    if k in a.index && a.index[k] in a.recs
    then Entry(a.recs[a.index[k]].value, a.recs[a.index[k]].expires, a.recs[a.index[k]].flags)
    else Entry([], 0, Flags(false, false, false, false))
  }

  lemma InsertHeld(cfg: Config, a: Abs, key: Key, val: seq<byte>, expires: nat, flags: Flags, now: nat, k: Key)
    requires Inv(cfg, a) && a.free != [] && key !in a.index && !Rejected(cfg, key, val)
    ensures Held(Insert(cfg, a, key, val, expires, flags, now), k) ==
            if k == key then Some(Entry(val, ExpiryOf(cfg, expires, flags, now), flags)) else Held(a, k)
  {
    hide Held, FreeOk, LruOk, Rejected, Contents;
    var b := Insert(cfg, a, key, val, expires, flags, now);
    InsertInv(cfg, a, key, val, expires, flags, now);
    HeldIs(cfg, a, k);
    HeldIs(cfg, b, k);
    TopIsFree(cfg, a);
    hide Inv;
  }

  lemma TopIsFree(cfg: Config, a: Abs)
    requires Inv(cfg, a) && a.free != []
    ensures a.free[|a.free| - 1] !in a.recs && forall k :: k in a.index ==> a.index[k] in a.recs
  {
    hide LruOk, FreeOk;
    FreePop(cfg.maxItems, a.recs.Keys, a.free);
  }

  /** Replacing a record by one with the same key replaces one entry. */
  lemma NewRecHeld(cfg: Config, a: Abs, b: Abs, i: nat, k: Key)
    requires Inv(cfg, a) && Inv(cfg, b) && i in a.recs && i in b.recs && b.recs[i].key == a.recs[i].key
    requires b.recs == a.recs[i := b.recs[i]] && b.index == a.index
    ensures Held(b, k) == if k == a.recs[i].key then Some(Entry(b.recs[i].value, b.recs[i].expires, b.recs[i].flags)) else Held(a, k)
    ensures Held(a, a.recs[i].key) == Some(Entry(a.recs[i].value, a.recs[i].expires, a.recs[i].flags))
  {
    hide Held, FreeOk, LruOk, Contents;
    HeldIs(cfg, a, k);
    HeldIs(cfg, b, k);
    HeldIs(cfg, a, a.recs[i].key);
  }

  lemma RefreshHeld(cfg: Config, a: Abs, i: nat, expires: nat, flags: Flags, now: nat, k: Key)
    requires Inv(cfg, a) && i in a.recs
    ensures var c, r := Refresh(cfg, a, i, expires, flags, now), a.recs[i];
            (Inv(cfg, c) && i in c.recs && c.recs[i] == r.(expires := Refreshed(cfg, r.expires, expires, flags, now)) &&
             Held(a, r.key) == Some(Entry(r.value, r.expires, r.flags)) &&
             Held(c, k) == if k == r.key then Some(Entry(r.value, c.recs[i].expires, r.flags)) else Held(a, k))
  {
    RefreshInv(cfg, a, i, expires, flags, now);
    var c := Refresh(cfg, a, i, expires, flags, now);
    hide Inv, Without, Held;
    NewRecHeld(cfg, a, c, i, k);
  }

  /** The keys cache_full takes away while storing a new key: on finding no free slot, and
      again on finding no room for the value. */
  ghost function LostToStore(cfg: Config, a: Abs, now: nat, room: bool): set<Key>
    requires Inv(cfg, a)
  {
    FullContents(cfg, a, now);
    var c := if a.free == [] then Full(cfg, a, now) else a;
    FullContents(cfg, c, now);
    (if a.free == [] then KeysOf(a, Evicted(cfg, a, now)) else {}) +
    (if c.free != [] && !room then KeysOf(c, Evicted(cfg, c, now)) else {})
  }

  /** ... and while updating a live slot, on finding no room. */
  ghost function LostToUpdate(cfg: Config, a: Abs, i: nat, expires: nat, flags: Flags, now: nat, room: bool): set<Key>
    requires Inv(cfg, a) && i in a.recs
  {
    RefreshInv(cfg, a, i, expires, flags, now);
    var c := Refresh(cfg, a, i, expires, flags, now);
    FullContents(cfg, c, now);
    if room then {} else KeysOf(c, Evicted(cfg, c, now))
  }

  /** The keys cache_full takes away during a set. */
  ghost function LostToFull(cfg: Config, a: Abs, key: Key, val: seq<byte>, expires: nat, flags: Flags, now: nat, room: bool): set<Key>
    requires Inv(cfg, a)
  {
    if Rejected(cfg, key, val) then {}
    else
      FindInv(cfg, a, key, now);
      var (b, i) := Find(cfg, a, key, now);
      if i !in b.recs then LostToStore(cfg, b, now, room)
      else if flags.update then LostToUpdate(cfg, b, i, expires, flags, now, room)
      else {}
  }

  /** The update of a key that is there. */
  ghost predicate Updates(cfg: Config, a: Abs, key: Key, val: seq<byte>, flags: Flags, now: nat) {
    !Rejected(cfg, key, val) && flags.update && key in Contents(a) && !LazyLoss(cfg, a, key, now)
  }

  /** Set, seen on the finite map: success stores exactly the given value under the key - a new entry with the call's flags,
      an updated one with those it had - and its expiry; an update that finds no room leaves the value but not the expiry;
      otherwise nothing changes, and keys are lost only to lazy expiry and cache_full. */
  lemma SetContents(cfg: Config, a: Abs, key: Key, val: seq<byte>, expires: nat, flags: Flags, now: nat, room: bool, k: Key)
    requires Inv(cfg, a)
    ensures var (b, ret) := Set(cfg, a, key, val, expires, flags, now, room);
            Held(b, k) == AfterSet(cfg, Held(a, k), ret == 0, k in LostToFull(cfg, a, key, val, expires, flags, now, room),
                                   key, val, expires, flags, now, k)
  {
    hide Inv, Store, Update, LostToStore, LostToUpdate, Find, Contents, ExpiryOf;
    if !Rejected(cfg, key, val) {
      FindInv(cfg, a, key, now);
      FindContents(cfg, a, key, now);
      var (b, i) := Find(cfg, a, key, now);
      if i !in b.recs {
        StoreContents(cfg, b, key, val, expires, flags, now, room, k);
      } else if flags.update {
        UpdateContents(cfg, b, i, val, expires, flags, now, room, k);
      }
    }
  }

  /** What a set of `key` makes of what is held under `k`, given whether it succeeded and whether cache_full took `k`. */
  ghost function AfterSet(cfg: Config, h: Option<Entry>, success: bool, lost: bool, key: Key, val: seq<byte>, expires: nat, flags: Flags,
                          now: nat, k: Key): Option<Entry>
  {
    var kept := if k == key && !Rejected(cfg, key, val) then Lookup(cfg, h, now) else h;
    if success && k == key then
      if kept.Some? then Some(Entry(val, Refreshed(cfg, kept.value.expires, expires, flags, now), kept.value.flags))
      else Some(Entry(val, ExpiryOf(cfg, expires, flags, now), flags))
    else if lost then None
    else if k == key && !Rejected(cfg, key, val) && flags.update && kept.Some? then
      Some(kept.value.(expires := Refreshed(cfg, kept.value.expires, expires, flags, now)))
    else kept
  }

  /** What a lookup leaves of an entry: nothing if it is overdue under lazy expiry. */
  function Lookup(cfg: Config, h: Option<Entry>, now: nat): Option<Entry> {
    if cfg.lazyExpire && h.Some? && Overdue(h.value.expires, now) then None else h
  }

  lemma StoreContents(cfg: Config, a: Abs, key: Key, val: seq<byte>, expires: nat, flags: Flags, now: nat, room: bool, k: Key)
    requires Inv(cfg, a) && key !in a.index && !Rejected(cfg, key, val)
    ensures var (b, ret) := Store(cfg, a, key, val, expires, flags, now, room);
            (Held(b, k) == (if ret == 0 && k == key then Some(Entry(val, ExpiryOf(cfg, expires, flags, now), flags))
                            else if k in LostToStore(cfg, a, now, room) then None
                            else Held(a, k)))
  {
    hide Inv, Full, Insert, Evicted, KeysOf, Contents, ExpiryOf;
    FullContents(cfg, a, now);
    FullShrinks(cfg, a, now);
    var c := if a.free == [] then Full(cfg, a, now) else a;
    FullContents(cfg, c, now);
    if c.free != [] && room { InsertHeld(cfg, c, key, val, expires, flags, now, k); }
  }

  lemma UpdateContents(cfg: Config, a: Abs, i: nat, val: seq<byte>, expires: nat, flags: Flags, now: nat, room: bool, k: Key)
    requires Inv(cfg, a) && i in a.recs && 0 < |val| <= cfg.MaxItemSize()
    ensures var (b, ret) := Update(cfg, a, i, val, expires, flags, now, room); var r := a.recs[i];
            var e := Refreshed(cfg, r.expires, expires, flags, now);
            (Held(a, r.key) == Some(Entry(r.value, r.expires, r.flags)) &&
             Held(b, k) == (if ret == 0 && k == r.key then Some(Entry(val, e, r.flags))
                            else if k in LostToUpdate(cfg, a, i, expires, flags, now, room) then None
                            else if k == r.key then Some(Entry(r.value, e, r.flags))
                            else Held(a, k)))
  {
    hide Full, Refresh, Evicted, KeysOf, Inv, Contents, Refreshed;
    var c := Refresh(cfg, a, i, expires, flags, now);
    RefreshHeld(cfg, a, i, expires, flags, now, k);
    FullContents(cfg, c, now);
    if room {
      NewRecInv(cfg, c, i, c.recs[i].(value := val));
      hide Held;
      NewRecHeld(cfg, c, c.(recs := c.recs[i := c.recs[i].(value := val)]), i, k);
    }
  }

  lemma SlotEntry(cfg: Config, a: Abs, i: nat)
    requires Inv(cfg, a) && i in a.recs
    ensures var r := a.recs[i]; r.key in Contents(a) && Contents(a)[r.key] == Entry(r.value, r.expires, r.flags)
  {
    hide FreeOk, LruOk;
  }

  lemma ContentsKeys(cfg: Config, a: Abs)
    requires Inv(cfg, a)
    ensures Contents(a).Keys == a.index.Keys
  {
    hide FreeOk, LruOk;
  }

  lemma ClearContents(cfg: Config, a: Abs)
    requires Inv(cfg, a)
    ensures Contents(Clear(cfg, a)) == map[]
  {
    ClearRecs(cfg, a);
    hide DelUpTo, Inv;
  }

  // ---- when a set succeeds --------------------------------------------------------

  /** What a lookup of `key` leaves in the cache. */
  ghost function AfterLookup(cfg: Config, a: Abs, key: Key, now: nat): map<Key, Entry> {
    if LazyLoss(cfg, a, key, now) then Contents(a) - {key} else Contents(a)
  }

  /** There is a slot for one more key: one is left, or cache_full gives up a key. */
  ghost predicate HasSlot(cfg: Config, held: map<Key, Entry>, scan: nat, now: nat) {
    || |held| < cfg.maxItems - 1
    || (held != map[] &&
        (cfg.purgeLru || cfg.clearOnFull ||
         (cfg.sweepOnFull > 0 && scan <= now && exists k :: k in held && Overdue(held[k].expires, now))))
  }

  /** A set that succeeds if there is room for its value: sizes within the limits, and the key either there and to be updated,
      or not there with a slot for it. */
  ghost predicate Accepts(cfg: Config, a: Abs, key: Key, val: seq<byte>, flags: Flags, now: nat) {
    && 0 < |key| <= cfg.keySize && 0 < |val| <= (if cfg.useBitmap then cfg.blockSize * cfg.blocks else cfg.blockSize)
    && var held := AfterLookup(cfg, a, key, now);
       if key in held then flags.update else HasSlot(cfg, held, a.nextScan, now)
  }

  /** An injective map has as many keys as values. */
  lemma {:induction false} OneToOne(m: map<Key, nat>, image: set<nat>)
    requires forall k :: k in m ==> m[k] in image
    requires forall j, k :: j in m && k in m && j != k ==> m[j] != m[k]
    requires forall i :: i in image ==> exists k :: k in m && m[k] == i
    ensures |m| == |image|
  {
    if m == map[] {
      assert image == {};
    } else {
      var k :| k in m;
      forall i | i in image - {m[k]}
        ensures exists j :: j in m - {k} && (m - {k})[j] == i
      {
        var j :| j in m && m[j] == i;
        assert j in m - {k};
      }
      OneToOne(m - {k}, image - {m[k]});
      assert (m - {k}).Keys == m.Keys - {k};
    }
  }

  /** As many keys are held as slots are live. */
  lemma HeldCount(cfg: Config, a: Abs)
    requires Inv(cfg, a)
    ensures |Contents(a)| == |a.recs|
  {
    hide FreeOk, LruOk;
    OneToOne(a.index, a.recs.Keys);
    assert Contents(a).Keys == a.index.Keys;
  }

  /** Some live slot is overdue exactly if some key is. */
  lemma OverdueSlots(cfg: Config, a: Abs, now: nat)
    requires Inv(cfg, a)
    ensures Doomed(a, cfg.maxItems, false, now) != {} <==> exists k :: k in Contents(a) && Overdue(Contents(a)[k].expires, now)
  {
    hide FreeOk, LruOk;
    if k :| k in Contents(a) && Overdue(Contents(a)[k].expires, now) {
      assert a.index[k] in Doomed(a, cfg.maxItems, false, now);
    }
    if i :| i in Doomed(a, cfg.maxItems, false, now) {
      assert a.recs[i].key in Contents(a);
    }
  }

  /** cache_full removes something exactly if there is something and some option says what. */
  lemma EvictsIff(cfg: Config, a: Abs, now: nat)
    requires Inv(cfg, a)
    ensures Evicted(cfg, a, now) != {} <==>
            a.recs != map[] &&
            (cfg.purgeLru || cfg.clearOnFull || (cfg.sweepOnFull > 0 && a.nextScan <= now && Doomed(a, cfg.maxItems, false, now) != {}))
  {
    hide RecsOk, FreeOk, Doomed, Distinct;
    SameDoomed(a, 0, cfg.maxItems, false, now);
    if a.lru != [] { assert a.lru[0] in a.lru; }
    if cfg.purgeLru && a.recs != map[] {
      var i :| i in a.recs;
      assert i in a.lru;
      assert a.lru[0] in Oldest(cfg, a);
    }
  }

  lemma FreeCount(cfg: Config, a: Abs)
    requires Inv(cfg, a)
    ensures |a.recs| + |a.free| == cfg.maxItems - 1
  {
    hide RecsOk, LruOk;
    assert |a.recs| == |a.recs.Keys|;
  }

  /** Before a new key is stored there is a free slot, in the end, exactly if there is a slot for it. */
  lemma ReadyIff(cfg: Config, a: Abs, now: nat)
    requires Inv(cfg, a)
    ensures Ready(cfg, a, now).free != [] <==> HasSlot(cfg, Contents(a), a.nextScan, now)
  {
    hide Inv, Full, Contents, Evicted, Doomed;
    HeldCount(cfg, a);
    FreeCount(cfg, a);
    OverdueSlots(cfg, a, now);
    EvictsIff(cfg, a, now);
    FullInv(cfg, a, now);
    FullRecs(cfg, a, now);
    FreeCount(cfg, Full(cfg, a, now));
    Fewer(a.recs, Evicted(cfg, a, now));
    assert a.recs != map[] <==> |a.recs| > 0;
    assert Contents(a) != map[] <==> |Contents(a)| > 0;
  }

  /** In every configuration a set succeeds exactly if it is acceptable and there is room for the value, which in a cache
      without bitmap is never wanting. */
  lemma SetSucceedsIff(cfg: Config, a: Abs, key: Key, val: seq<byte>, expires: nat, flags: Flags, now: nat, room: bool)
    requires Inv(cfg, a)
    ensures Set(cfg, a, key, val, expires, flags, now, room).1 == 0 <==> Accepts(cfg, a, key, val, flags, now) && room
  {
    hide Inv, Full, Find, Insert, CacheModel.Refresh, Accepts, Ready, Rejected;
    AcceptsMeans(cfg, a, key, val, flags, now);
  }

  /** No key is deleted before a set comes to look for room. */
  ghost predicate AtOnce(cfg: Config, a: Abs, key: Key, now: nat) {
    !LazyLoss(cfg, a, key, now) && (key in Contents(a) || |Contents(a)| < cfg.maxItems - 1)
  }

  /** That is: the lookup leaves the cache alone, and the key is there or a slot is free. */
  lemma AtOnceMeans(cfg: Config, a: Abs, key: Key, now: nat)
    requires Inv(cfg, a) && AtOnce(cfg, a, key, now)
    ensures Find(cfg, a, key, now).0 == a && (Find(cfg, a, key, now).1 in a.recs || a.free != [])
  {
    FindContents(cfg, a, key, now);
    HeldCount(cfg, a);
    FreeCount(cfg, a);
    hide FreeOk, LruOk;
  }

  /** When a set succeeds, and when it comes to look for room. */
  lemma SetIff(cfg: Config, a: Abs, key: Key, val: seq<byte>, expires: nat, flags: Flags, now: nat)
    requires Inv(cfg, a)
    ensures forall room :: Set(cfg, a, key, val, expires, flags, now, room).1 == 0 <==> Accepts(cfg, a, key, val, flags, now) && room
    ensures var (b, i) := Find(cfg, a, key, now);
            (Accepts(cfg, a, key, val, flags, now) <==>
             !Rejected(cfg, key, val) && if i in b.recs then flags.update else Ready(cfg, b, now).free != [])
    ensures AtOnce(cfg, a, key, now) ==> Find(cfg, a, key, now).0 == a && (Find(cfg, a, key, now).1 in a.recs || a.free != [])
  {
    hide Inv, Accepts, Ready, AtOnce, Set, Find, Rejected;
    forall room | true
      ensures Set(cfg, a, key, val, expires, flags, now, room).1 == 0 <==> Accepts(cfg, a, key, val, flags, now) && room
    {
      SetSucceedsIff(cfg, a, key, val, expires, flags, now, room);
    }
    AcceptsMeans(cfg, a, key, val, flags, now);
    if AtOnce(cfg, a, key, now) { AtOnceMeans(cfg, a, key, now); }
  }

  /** The same in terms of the set: it gets past its tests, and there is a slot for a new key. */
  lemma AcceptsMeans(cfg: Config, a: Abs, key: Key, val: seq<byte>, flags: Flags, now: nat)
    requires Inv(cfg, a)
    ensures var (b, i) := Find(cfg, a, key, now);
            Accepts(cfg, a, key, val, flags, now) <==>
            !Rejected(cfg, key, val) && if i in b.recs then flags.update else Ready(cfg, b, now).free != []
  {
    hide Inv, Full, Contents, Evicted, HasSlot, Find, Ready;
    FindContents(cfg, a, key, now);
    FindScan(cfg, a, key, now);
    ReadyIff(cfg, Find(cfg, a, key, now).0, now);
  }

  /** How long a new item lasts under lazy expiry: one stored at `now` with a relative expiry is found up to that many
      seconds later, one with an absolute expiry up to that time, one without always.  With purge_lru every expiry is taken
      as absolute. */
  lemma StoredUntil(cfg: Config, a: Abs, key: Key, val: seq<byte>, expires: nat, flags: Flags, now: nat, t: nat)
    requires Inv(cfg, a) && cfg.lazyExpire && key !in Contents(a) && Accepts(cfg, a, key, val, flags, now)
    requires !flags.ungettable && now + expires < TWO_64
    ensures var last := if cfg.purgeLru || flags.absExpire then expires else now + expires;
            Get(cfg, Set(cfg, a, key, val, expires, flags, now, true).0, key, t).1 ==
            if expires == 0 || t < last then Some((val, if expires == 0 then 0 else last)) else None
  {
    hide Inv, Contents, Get, Set, LostToFull, Accepts;
    var b := Set(cfg, a, key, val, expires, flags, now, true).0;
    SetInv(cfg, a, key, val, expires, flags, now, true);
    SetSucceedsIff(cfg, a, key, val, expires, flags, now, true);
    SetContents(cfg, a, key, val, expires, flags, now, true, key);
    GetContents(cfg, b, key, t);
  }

  lemma FindScan(cfg: Config, a: Abs, key: Key, now: nat)
    ensures Find(cfg, a, key, now).0.nextScan == a.nextScan
  {
  }

  // ---- whole runs ---------------------------------------------------------------

  /** The history of one key on a plain map: the last value stored under it, with the expiry and flags it has got since;
      gone when it is deleted, cleared, dropped as overdue by a lookup of it, or taken by cache_full.  The run itself is asked
      only whether a set succeeded and whom cache_full took. */
  ghost function Fate(cfg: Config, calls: seq<Call>, k: Key): Option<Entry>
    requires cfg.Valid()
  {
    if calls == [] then None
    else
      var before, call := calls[..|calls| - 1], calls[|calls| - 1];
      var a := Run(cfg, before);
      RunInv(cfg, before);
      var h := Fate(cfg, before, k);
      match call.op
      case ClearOp => None
      case DelOp(key) => if key == k then None else h
      case GetOp(key) => if key == k then Lookup(cfg, h, call.now) else h
      case ExistsOp(key) => if key == k then Lookup(cfg, h, call.now) else h
      case SetOp(key, val, e, f, room) =>
        AfterSet(cfg, h, Step(cfg, a, call).1 == Code(0), k in LostToFull(cfg, a, key, val, e, f, call.now, room), key, val, e, f, call.now, k)
  }

  /** After any run, what is stored under each key - value, expiry and flags - is what its history says. */
  lemma {:induction false} RunAgrees(cfg: Config, calls: seq<Call>, k: Key)
    requires cfg.Valid()
    ensures Held(Run(cfg, calls), k) == Fate(cfg, calls, k)
  {
    hide Inv, Contents, LostToFull, Get, Set, Del, Exists, Clear, AfterSet;
    if calls == [] {
      assert Held(Empty(cfg), k) == None by { EmptyContents(cfg); }
    } else {
      var before, call := calls[..|calls| - 1], calls[|calls| - 1];
      var a := Run(cfg, before);
      RunInv(cfg, before);
      RunAgrees(cfg, before, k);
      match call.op
      case GetOp(key) => GetContents(cfg, a, key, call.now);
      case ExistsOp(key) =>
        FindContents(cfg, a, key, call.now);
        assert Exists(cfg, a, key, call.now).0 == Find(cfg, a, key, call.now).0 by { ExistsState(cfg, a, key, call.now); }
      case SetOp(key, val, e, f, room) => SetContents(cfg, a, key, val, e, f, call.now, room, k);
      case DelOp(key) => DelContents(cfg, a, key, call.now);
      case ClearOp => ClearContents(cfg, a);
    }
  }

  lemma EmptyContents(cfg: Config)
    requires cfg.Valid()
    ensures Contents(Empty(cfg)) == map[]
  {
  }

  lemma ExistsState(cfg: Config, a: Abs, key: Key, now: nat)
    ensures Exists(cfg, a, key, now).0 == Find(cfg, a, key, now).0
  {
  }

  /** A get at the end of any run returns the last value stored under the key and its expiry, or nothing; and nothing
      exactly if they are gone, overdue under lazy expiry, or flagged ungettable. */
  lemma GetReturnsLastStored(cfg: Config, calls: seq<Call>, key: Key, now: nat)
    requires cfg.Valid()
    ensures var h := Lookup(cfg, Fate(cfg, calls, key), now);
            Get(cfg, Run(cfg, calls), key, now).1 ==
            if h.Some? && !h.value.flags.ungettable then Some((h.value.value, h.value.expires)) else None
  {
    hide Inv, Contents, Get, Fate, Run;
    RunInv(cfg, calls);
    RunAgrees(cfg, calls, key);
    GetContents(cfg, Run(cfg, calls), key, now);
  }
}
