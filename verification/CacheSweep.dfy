/** The expiry sweeper (cache_sweeper_free_items): one pass takes the lock once per slot,
    so other operations run between its steps.  `nextScan` lets it skip passes. */
module CacheSweep {
  import opened Basics
  import opened CacheModel
  import opened CacheRuns

  /** One locked step of a pass. */
  function SweepSlot(cfg: Config, a: Abs, i: nat, now: nat): Abs {
    var b := if i == 1 then a.(nextScan := 0) else a;
    if i !in b.recs || b.recs[i].expires == 0 then b
    else
      var e := b.recs[i].expires;
      if e <= now then DelSlot(cfg, b, i)
      else if b.nextScan == 0 || b.nextScan > e then b.(nextScan := e) else b
  }

  /** The steps for slots 1 to n-1, undisturbed. */
  function SweepUpTo(cfg: Config, a: Abs, n: nat, now: nat): Abs {
    if n <= 1 then a else SweepSlot(cfg, SweepUpTo(cfg, a, n - 1, now), n - 1, now)
  }

  /** The test made before a pass: is there anything to scan for yet? */
  predicate ScanDue(a: Abs, now: nat) {
    0 < a.nextScan <= now
  }

  /** Caches the sweeper leaves alone altogether. */
  predicate Unswept(cfg: Config) {
    cfg.noExpire || cfg.purgeLru || cfg.lazyExpire
  }

  /** A whole undisturbed visit of the sweeper. */
  function Sweep(cfg: Config, a: Abs, now: nat): Abs {
    if !Unswept(cfg) && ScanDue(a, now) then SweepUpTo(cfg, a, cfg.maxItems, now) else a
  }

  /** The sweeper among other operations: `pc` is the slot its pass takes next, 0 between passes. */
  datatype Machine = Machine(cache: Abs, pc: nat)

  datatype Event = Client(call: Call) | StartPass(now: nat) | NextSlot(now: nat)

  function React(cfg: Config, m: Machine, e: Event): Machine {
    match e
    case Client(call) => m.(cache := Step(cfg, m.cache, call).0)
    case StartPass(now) =>
      if !Unswept(cfg) && m.pc == 0 && ScanDue(m.cache, now) && cfg.maxItems > 1 then m.(pc := 1) else m
    case NextSlot(now) =>
      if m.pc == 0 then m
      else Machine(SweepSlot(cfg, m.cache, m.pc, now), if m.pc + 1 < cfg.maxItems then m.pc + 1 else 0)
  }

  function Play(cfg: Config, events: seq<Event>): Machine
    requires cfg.Valid()
  {
    if events == [] then Machine(Empty(cfg), 0)
    else React(cfg, Play(cfg, events[..|events| - 1]), events[|events| - 1])
  }

  /** The scan time is a lower bound for the expiries of the live slots below `n`. */
  ghost predicate Covers(a: Abs, n: nat) {
    forall i :: i in a.recs && i < n && a.recs[i].expires > 0 ==> 0 < a.nextScan <= a.recs[i].expires
  }

  /** The settings under which the sweeper is meant to be reliable. */
  predicate SweepConfig(cfg: Config) {
    cfg.Valid() && !cfg.purgeLru && cfg.sweepOnFull == 0
  }

  /** Relative expiry times only, and none that overflows to exactly 0. */
  predicate RelativeExpiry(call: Call) {
    call.op.SetOp? && call.op.expires != 0 ==>
      !call.op.flags.absExpire && (call.op.expires + call.now) % TWO_64 != 0
  }

  ghost predicate AllRelative(events: seq<Event>) {
    forall i :: 0 <= i < |events| && events[i].Client? ==> RelativeExpiry(events[i].call)
  }

  // ---- operations keep the bound ---------------------------------------------

  /** Fewer records under the same scan time. */
  lemma FewerCovers(a: Abs, b: Abs, n: nat)
    requires Covers(a, n) && b.nextScan == a.nextScan
    requires forall i :: i in b.recs ==> i in a.recs && b.recs[i].expires == a.recs[i].expires
    ensures Covers(b, n)
  {
  }

  lemma FullCovers(cfg: Config, a: Abs, now: nat, n: nat)
    requires SweepConfig(cfg) && Inv(cfg, a) && Covers(a, n)
    ensures Covers(Full(cfg, a, now), n)
  {
    FullRecs(cfg, a, now);
    hide Full, Inv;
    FewerCovers(a, Full(cfg, a, now), n);
  }

  /** A new deadline keeps the bound for the others and covers itself. */
  lemma DeadlineCovers(cfg: Config, a: Abs, expires: nat, flags: Flags, now: nat, n: nat)
    requires SweepConfig(cfg) && Covers(a, n)
    requires expires != 0 ==> !flags.absExpire && (expires + now) % TWO_64 != 0
    ensures var (e, scan) := Deadline(cfg, a.nextScan, expires, flags, now);
            (Covers(a.(nextScan := scan), n) && (e > 0 ==> 0 < scan <= e))
  {
  }

  lemma StoreCovers(cfg: Config, a: Abs, key: Key, val: seq<byte>, expires: nat, flags: Flags, now: nat, room: bool, n: nat)
    requires SweepConfig(cfg) && Inv(cfg, a) && Covers(a, n)
    requires expires != 0 ==> !flags.absExpire && (expires + now) % TWO_64 != 0
    ensures Covers(Store(cfg, a, key, val, expires, flags, now, room).0, n)
  {
    FullInv(cfg, a, now);
    var c := if a.free == [] then Full(cfg, a, now) else a;
    FullCovers(cfg, a, now, n);
    FullCovers(cfg, c, now, n);
    DeadlineCovers(cfg, c, expires, flags, now, n);
    hide Inv, Full, Deadline;
  }

  lemma UpdateCovers(cfg: Config, a: Abs, i: nat, val: seq<byte>, expires: nat, flags: Flags, now: nat, room: bool, n: nat)
    requires SweepConfig(cfg) && Inv(cfg, a) && Covers(a, n) && i in a.recs
    requires expires != 0 ==> !flags.absExpire && (expires + now) % TWO_64 != 0
    ensures Covers(Update(cfg, a, i, val, expires, flags, now, room).0, n)
  {
    hide Inv, Full, Deadline;
    DeadlineCovers(cfg, a, expires, flags, now, n);
    var c := Refresh(cfg, a, i, expires, flags, now);
    RefreshInv(cfg, a, i, expires, flags, now);
    assert Covers(c, n);
    FullCovers(cfg, c, now, n);
    FewerCovers(c, c.(recs := c.recs[i := c.recs[i].(value := val)]), n);
  }

  lemma StepCovers(cfg: Config, a: Abs, call: Call, n: nat)
    requires SweepConfig(cfg) && Inv(cfg, a) && Covers(a, n) && RelativeExpiry(call)
    ensures Covers(Step(cfg, a, call).0, n)
  {
    hide Inv, Covers, Store, Update, DelUpTo, Without;
    match call.op
    case SetOp(key, val, e, f, room) =>
      FindInv(cfg, a, key, call.now);
      var (b, i) := Find(cfg, a, key, call.now);
      FewerCovers(a, b, n);
      if !Rejected(cfg, key, val) {
        if i !in b.recs {
          StoreCovers(cfg, b, key, val, e, f, call.now, room, n);
        } else if f.update {
          UpdateCovers(cfg, b, i, val, e, f, call.now, room, n);
        }
      }
    case GetOp(key) => FewerCovers(a, Step(cfg, a, call).0, n);
    case ExistsOp(key) => FewerCovers(a, Step(cfg, a, call).0, n);
    case DelOp(key) => FewerCovers(a, Step(cfg, a, call).0, n);
    case ClearOp =>
      ClearRecs(cfg, a);
      FewerCovers(a, Clear(cfg, a), n);
  }

  lemma SweepSlotInv(cfg: Config, a: Abs, i: nat, now: nat)
    requires Inv(cfg, a)
    ensures Inv(cfg, SweepSlot(cfg, a, i, now))
  {
    hide RecsOk, FreeOk, DelSlot;
    ScanTimeInv(cfg, a, 0);
    var b := if i == 1 then a.(nextScan := 0) else a;
    DelSlotInv(cfg, b, i);
    if i in b.recs { ScanTimeInv(cfg, b, b.recs[i].expires); }
  }

  /** A pass extends the bound by one slot per step. */
  lemma SweepSlotCovers(cfg: Config, a: Abs, i: nat, now: nat)
    requires Inv(cfg, a) && 1 <= i && Covers(a, i)
    ensures Covers(SweepSlot(cfg, a, i, now), i + 1)
  {
    hide FreeOk, LruOk, Without;
  }

  /** In every run of clients interleaved with sweeper steps, the scan time bounds the expiries
      of all live items between passes, and of the slots already visited during a pass. */
  lemma {:induction false} PlayCovers(cfg: Config, events: seq<Event>)
    requires SweepConfig(cfg) && AllRelative(events)
    ensures var m := Play(cfg, events);
            (Inv(cfg, m.cache) && (m.pc == 0 ==> Covers(m.cache, cfg.maxItems)) &&
             (m.pc != 0 ==> m.pc < cfg.maxItems && Covers(m.cache, m.pc)))
  {
    hide Inv, Covers, Step, SweepSlot;
    if events == [] {
      EmptyInv(cfg);
      assert Covers(Empty(cfg), cfg.maxItems) by { EmptyCovers(cfg); }
    } else {
      var before, e := events[..|events| - 1], events[|events| - 1];
      PlayCovers(cfg, before);
      var m := Play(cfg, before);
      match e
      case Client(call) =>
        assert RelativeExpiry(call) by { assert events[|events| - 1].Client?; }
        StepInv(cfg, m.cache, call);
        StepCovers(cfg, m.cache, call, if m.pc == 0 then cfg.maxItems else m.pc);
      case StartPass(now) => FirstCovers(cfg, m.cache);
      case NextSlot(now) =>
        if m.pc != 0 {
          SweepSlotInv(cfg, m.cache, m.pc, now);
          SweepSlotCovers(cfg, m.cache, m.pc, now);
        }
    }
  }

  lemma EmptyCovers(cfg: Config)
    requires cfg.Valid()
    ensures Covers(Empty(cfg), cfg.maxItems)
  {
  }

  lemma FirstCovers(cfg: Config, a: Abs)
    requires Inv(cfg, a)
    ensures Covers(a, 1)
  {
  }

  /** Skipping a pass is sound: whenever no pass is under way and none is due, no live item is overdue. */
  lemma SkippedPassIsSound(cfg: Config, events: seq<Event>, now: nat)
    requires SweepConfig(cfg) && AllRelative(events)
    requires Play(cfg, events).pc == 0 && !ScanDue(Play(cfg, events).cache, now)
    ensures forall k :: k in Contents(Play(cfg, events).cache) ==> !Overdue(Contents(Play(cfg, events).cache)[k].expires, now)
  {
    PlayCovers(cfg, events);
    hide Play, FreeOk, LruOk;
  }

  // ---- an undisturbed visit -----------------------------------------------------

  /** The scan time, if set, is the expiry of a live slot below `n`. */
  ghost predicate Tight(a: Abs, n: nat) {
    a.nextScan != 0 ==> exists i :: i in a.recs && i < n && a.recs[i].expires == a.nextScan
  }

  lemma SweepSlotTight(cfg: Config, a: Abs, i: nat, now: nat)
    requires Inv(cfg, a) && 1 <= i && (i == 1 || (Tight(a, i) && forall j :: j in a.recs && j < i ==> !Overdue(a.recs[j].expires, now)))
    ensures Tight(SweepSlot(cfg, a, i, now), i + 1)
    ensures SweepSlot(cfg, a, i, now).recs ==
            a.recs - (if i in a.recs && Overdue(a.recs[i].expires, now) then {i} else {})
  {
    hide FreeOk, LruOk, Without;
    var b := SweepSlot(cfg, a, i, now);
    if b.nextScan != 0 {
      if i > 1 && b.nextScan == a.nextScan {
        var j :| j in a.recs && j < i && a.recs[j].expires == a.nextScan;
        assert j in b.recs;
      } else {
        assert i in b.recs;
      }
    }
  }

  lemma {:induction false} SweepUpToRecs(cfg: Config, a: Abs, n: nat, now: nat)
    requires Inv(cfg, a) && 1 <= n <= cfg.maxItems
    ensures var b := SweepUpTo(cfg, a, n, now);
            (Inv(cfg, b) && b.recs == a.recs - Doomed(a, n, false, now) &&
             (n > 1 ==> Covers(b, n) && Tight(b, n)))
  {
    hide Inv, Covers, Tight, SweepSlot, Doomed;
    SlotsFromOne(cfg, a);
    if n > 1 {
      var p, x := SweepUpTo(cfg, a, n - 1, now), n - 1;
      SweepUpToRecs(cfg, a, n - 1, now);
      if n == 2 { FirstCovers(cfg, p); }
      SweepSlotInv(cfg, p, x, now);
      SweepSlotCovers(cfg, p, x, now);
      NoneLeft(a, p, x, now);
      SweepSlotTight(cfg, p, x, now);
      DoomedStep(a, n, false, now);
      MinusTwice(a.recs, Doomed(a, x, false, now), if x in a.recs && Overdue(a.recs[x].expires, now) then {x} else {});
    } else {
      NoneDoomed(a, n, false, now);
      assert a.recs - {} == a.recs;
    }
  }

  lemma NoneLeft(a: Abs, p: Abs, n: nat, now: nat)
    requires p.recs == a.recs - Doomed(a, n, false, now)
    ensures forall j :: j in p.recs && j < n ==> !Overdue(p.recs[j].expires, now)
  {
  }

  /** An undisturbed visit to a cache whose scan time is a lower bound leaves exactly the items
      that are not overdue; if it scanned, the scan time becomes the least remaining expiry
      (0 if nothing is left to expire). */
  lemma SweepRemovesOverdue(cfg: Config, a: Abs, now: nat)
    requires Inv(cfg, a) && !Unswept(cfg) && cfg.maxItems > 1 && Covers(a, cfg.maxItems)
    ensures var b := Sweep(cfg, a, now);
            (Inv(cfg, b) && Covers(b, cfg.maxItems) &&
             b.recs == a.recs - Doomed(a, cfg.maxItems, false, now) &&
             (ScanDue(a, now) ==> Tight(b, cfg.maxItems)))
  {
    hide FreeOk, LruOk, SweepUpTo;
    if ScanDue(a, now) {
      SweepUpToRecs(cfg, a, cfg.maxItems, now);
    } else {
      assert Doomed(a, cfg.maxItems, false, now) == {};
    }
  }

  // ---- where the bound breaks ------------------------------------------------------

  /** The slots other than `i` are bounded by a scan time. */
  ghost predicate OthersBound(a: Abs, i: nat, scan: nat) {
    forall j :: j in a.recs && j != i ==> Bound(scan, a.recs[j].expires)
  }

  predicate Bound(scan: nat, expires: nat) {
    expires == 0 || 0 < scan <= expires
  }

  /** One slot is new or has a new expiry. */
  lemma OneSlotCovers(cfg: Config, a: Abs, b: Abs, i: nat)
    requires Inv(cfg, a) && i < cfg.maxItems && i in b.recs && b.recs == a.recs[i := b.recs[i]]
    ensures Covers(b, cfg.maxItems) <==> Bound(b.nextScan, b.recs[i].expires) && OthersBound(a, i, b.nextScan)
  {
    hide FreeOk, LruOk;
    assert forall j :: j in a.recs && j != i ==> j in b.recs && b.recs[j] == a.recs[j] && j < cfg.maxItems;
  }

  /** What storing an expiry makes of the bound. */
  lemma DeadlineBounds(cfg: Config, a: Abs, i: nat, expires: nat, flags: Flags, now: nat)
    requires SweepConfig(cfg) && OthersBound(a, i, a.nextScan) && (i in a.recs ==> Bound(a.nextScan, a.recs[i].expires))
    ensures var (e, scan) := Deadline(cfg, a.nextScan, expires, flags, now);
            (Bound(scan, e) && OthersBound(a, i, scan) <==>
             expires == 0 ||
             if flags.absExpire then 0 < a.nextScan <= expires
             else (expires + now) % TWO_64 != 0 || forall j :: j in a.recs && j != i ==> a.recs[j].expires == 0)
  {
  }

  lemma CoversBounds(cfg: Config, a: Abs, i: nat)
    requires Inv(cfg, a) && Covers(a, cfg.maxItems)
    ensures OthersBound(a, i, a.nextScan) && (i in a.recs ==> Bound(a.nextScan, a.recs[i].expires))
  {
    hide FreeOk, LruOk;
  }

  /** Storing a new item keeps the scan time a lower bound exactly when: it never expires; or
      its absolute expiry is not before the scan time already set; or its relative
      expiry does not overflow to 0 (or nothing else is waiting to expire). */
  lemma InsertCoversIff(cfg: Config, a: Abs, key: Key, val: seq<byte>, expires: nat, flags: Flags, now: nat)
    requires SweepConfig(cfg) && Inv(cfg, a) && Covers(a, cfg.maxItems)
    requires a.free != [] && key !in a.index && !Rejected(cfg, key, val)
    ensures Covers(Insert(cfg, a, key, val, expires, flags, now), cfg.maxItems) <==>
            (expires == 0 ||
             (if flags.absExpire then 0 < a.nextScan <= expires
              else (expires + now) % TWO_64 != 0 || forall j :: j in a.recs ==> a.recs[j].expires == 0))
  {
    hide Covers, OthersBound, Deadline;
    var i := a.free[|a.free| - 1];
    TopSlot(cfg, a);
    CoversBounds(cfg, a, i);
    hide Inv;
    OneSlotCovers(cfg, a, Insert(cfg, a, key, val, expires, flags, now), i);
    DeadlineBounds(cfg, a, i, expires, flags, now);
  }

  lemma TopSlot(cfg: Config, a: Abs)
    requires Inv(cfg, a) && a.free != []
    ensures a.free[|a.free| - 1] !in a.recs && a.free[|a.free| - 1] < cfg.maxItems
  {
    hide LruOk;
    FreePop(cfg.maxItems, a.recs.Keys, a.free);
  }

  /** The same for the update of a live item: exactly the same conditions, unless FIXEXPIRE leaves its expiry alone. */
  lemma RefreshCoversIff(cfg: Config, a: Abs, i: nat, expires: nat, flags: Flags, now: nat)
    requires SweepConfig(cfg) && Inv(cfg, a) && Covers(a, cfg.maxItems) && i in a.recs
    ensures Covers(Refresh(cfg, a, i, expires, flags, now), cfg.maxItems) <==>
            (flags.fixExpire || expires == 0 ||
             (if flags.absExpire then 0 < a.nextScan <= expires
              else (expires + now) % TWO_64 != 0 || forall j :: j in a.recs && j != i ==> a.recs[j].expires == 0))
  {
    hide Covers, OthersBound, Deadline, FreeOk, LruOk;
    CoversBounds(cfg, a, i);
    OneSlotCovers(cfg, a, Refresh(cfg, a, i, expires, flags, now), i);
    DeadlineBounds(cfg, a, i, expires, flags, now);
  }

  /** With an absolute expiry a fresh cache never schedules a scan, so the item outlives its time. */
  lemma AbsoluteExpiryIsMissed(cfg: Config, key: Key, val: seq<byte>, e: nat)
    requires SweepConfig(cfg) && cfg.maxItems > 1 && !Rejected(cfg, key, val) && e > 0
    ensures var call := Call(SetOp(key, val, e, Flags(false, false, true, false), true), 0);
            var a := Run(cfg, [call]);
            key in Contents(a) && forall now :: Sweep(cfg, a, now) == a
  {
    var call := Call(SetOp(key, val, e, Flags(false, false, true, false), true), 0);
    RunOne(cfg, call);
  }

  // ---- caches without a sweeper ------------------------------------------------------

  /** The calls made by clients. */
  function Calls(events: seq<Event>): seq<Call> {
    if events == [] then []
    else Calls(events[..|events| - 1]) + if events[|events| - 1].Client? then [events[|events| - 1].call] else []
  }

  /** A cache with no_expire, purge_lru or lazy_expire is never swept: whatever the sweeper does, its state is that of the
      clients' calls alone. */
  lemma {:induction false} NeverSwept(cfg: Config, events: seq<Event>)
    requires cfg.Valid() && (cfg.noExpire || cfg.purgeLru || cfg.lazyExpire)
    ensures Play(cfg, events) == Machine(Run(cfg, Calls(events)), 0)
  {
    hide Step, Empty;
    if events != [] {
      var before, e := events[..|events| - 1], events[|events| - 1];
      NeverSwept(cfg, before);
      if e.Client? {
        assert Calls(events) == Calls(before) + [e.call];
        assert Calls(events)[..|Calls(events)| - 1] == Calls(before);
      } else {
        assert Calls(events) == Calls(before);
      }
    }
  }

  /** Any other cache is: the sweeper's visit at time 1 removes an item stored at time 0 for one second exactly if none
      of the three options is set. */
  lemma SweptIff(cfg: Config, key: Key, val: seq<byte>)
    requires cfg.Valid() && cfg.maxItems > 1 && !Rejected(cfg, key, val)
    ensures var a := Run(cfg, [Call(SetOp(key, val, 1, NO_FLAGS, true), 0)]);
            key in Contents(a) &&
            (key in Contents(Sweep(cfg, a, 1)) <==> cfg.noExpire || cfg.purgeLru || cfg.lazyExpire)
  {
    hide Run, Sweep, Contents, Rejected;
    var a := Run(cfg, [Call(SetOp(key, val, 1, NO_FLAGS, true), 0)]);
    FirstStored(cfg, key, val);
    RunInv(cfg, [Call(SetOp(key, val, 1, NO_FLAGS, true), 0)]);
    if cfg.noExpire || cfg.purgeLru || cfg.lazyExpire {
      assert Sweep(cfg, a, 1) == a by { LeftAlone(cfg, a, 1); }
      SlotEntry(cfg, a, cfg.maxItems - 1);
    } else {
      SweptAway(cfg, a, cfg.maxItems - 1, key);
    }
  }

  /** None of the flags: the expiry is relative. */
  const NO_FLAGS := Flags(false, false, false, false)

  lemma LeftAlone(cfg: Config, a: Abs, now: nat)
    requires cfg.noExpire || cfg.purgeLru || cfg.lazyExpire
    ensures Sweep(cfg, a, now) == a
  {
  }

  lemma FirstStored(cfg: Config, key: Key, val: seq<byte>)
    requires cfg.Valid() && cfg.maxItems > 1 && !Rejected(cfg, key, val)
    ensures var a := Run(cfg, [Call(SetOp(key, val, 1, NO_FLAGS, true), 0)]);
            a.recs == map[cfg.maxItems - 1 := Rec(key, val, 1, NO_FLAGS)] && a.index == map[key := cfg.maxItems - 1] &&
            (!cfg.purgeLru ==> a.nextScan == 1)
  {
    var call := Call(SetOp(key, val, 1, NO_FLAGS, true), 0);
    RunOne(cfg, call);
    hide Run;
    var a := Run(cfg, [call]);
    assert a == Insert(cfg, Empty(cfg), key, val, 1, NO_FLAGS, 0);
  }

  lemma SweptAway(cfg: Config, a: Abs, i: nat, key: Key)
    requires Inv(cfg, a) && !Unswept(cfg) && cfg.maxItems > 1 && i < cfg.maxItems
    requires i in a.recs && a.recs[i].key == key && a.recs[i].expires == 1 && a.index == map[key := i] && a.nextScan == 1
    ensures key in Contents(a) && key !in Contents(Sweep(cfg, a, 1))
  {
    SweepUpToRecs(cfg, a, cfg.maxItems, 1);
    hide SweepUpTo, Covers, Tight, Inv;
    SweptKey(cfg, a, Sweep(cfg, a, 1), key, 1);
  }

  /** In a cache whose scan time is a lower bound, an item stored at `now` with a relative expiry is removed by the
      sweeper's next visit, at `t`, exactly if those seconds have passed. */
  lemma SweepExpires(cfg: Config, a: Abs, key: Key, val: seq<byte>, expires: nat, flags: Flags, now: nat, t: nat)
    requires SweepConfig(cfg) && !Unswept(cfg) && Inv(cfg, a) && Covers(a, cfg.maxItems) && cfg.maxItems > 1
    requires a.free != [] && key !in Contents(a) && !Rejected(cfg, key, val)
    requires expires > 0 && !flags.absExpire && now + expires < TWO_64
    ensures var b := Set(cfg, a, key, val, expires, flags, now, true).0;
            key in Contents(b) && (key in Contents(Sweep(cfg, b, t)) <==> t < now + expires)
  {
    hide Inv, Find, Covers, Sweep, Doomed, Contents;
    var b := Set(cfg, a, key, val, expires, flags, now, true).0;
    FindContents(cfg, a, key, now);
    FindUnseen(cfg, a, key, now);
    SetInv(cfg, a, key, val, expires, flags, now, true);
    InsertCoversIff(cfg, a, key, val, expires, flags, now);
    SweepRemovesOverdue(cfg, b, t);
    SweptKey(cfg, b, Sweep(cfg, b, t), key, t);
  }

  lemma FindUnseen(cfg: Config, a: Abs, key: Key, now: nat)
    requires Inv(cfg, a) && key !in Contents(a)
    ensures Find(cfg, a, key, now) == (a, 0) && key !in a.index
  {
    ContentsKeys(cfg, a);
  }

  /** A key of `b` is gone from what the sweep left exactly if it was overdue. */
  lemma SweptKey(cfg: Config, b: Abs, c: Abs, key: Key, t: nat)
    requires Inv(cfg, b) && Inv(cfg, c) && c.recs == b.recs - Doomed(b, cfg.maxItems, false, t) && key in b.index
    ensures key in Contents(b)
    ensures key in Contents(c) <==> !Overdue(b.recs[b.index[key]].expires, t)
  {
    hide FreeOk, LruOk;
    var i := b.index[key];
    if i in c.recs { assert c.recs[i].key == key; }
    if key in Contents(c) { assert b.recs[c.index[key]].key == key; }
  }
}
