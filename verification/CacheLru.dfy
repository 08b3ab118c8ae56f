/** purge_lru: the list is always in order of last qualifying touch, a full cache
    gives up exactly the least recently touched item, and when an insert succeeds. */
module CacheLru {
  import opened Basics
  import opened CacheModel
  import opened CacheRuns

  /** The key an operation counts as touching: one returned by a get, one newly stored, or a
      live one updated without FIXEXPIRE (also when no room is found for its new value). */
  ghost function Touched(cfg: Config, a: Abs, call: Call): Option<Key> {
    match call.op
    case GetOp(k) => if Get(cfg, a, k, call.now).1.Some? then Some(k) else None
    case SetOp(k, val, e, f, room) =>
      if Rejected(cfg, k, val) then None
      else
        var (b, i) := Find(cfg, a, k, call.now);
        if i in b.recs then if f.update && !f.fixExpire then Some(k) else None
        else if Store(cfg, b, k, val, e, f, call.now, room).1 == 0 then Some(k) else None
    case _ => None
  }

  /** When (counting calls from 1) a key was last touched; 0 for never. */
  ghost function TouchTime(cfg: Config, calls: seq<Call>, k: Key): (t: nat)
    requires cfg.Valid()
    ensures t <= |calls|
  {
    if calls == [] then 0
    else
      var before, call := calls[..|calls| - 1], calls[|calls| - 1];
      if Touched(cfg, Run(cfg, before), call) == Some(k) then |calls| else TouchTime(cfg, before, k)
  }

  /** The time `t` of the key in slot `i`. */
  ghost function SlotTime(a: Abs, t: Key -> nat, i: nat): nat {
    if i in a.recs then t(a.recs[i].key) else 0
  }

  /** The LRU list goes from the least to the most recently touched. */
  ghost predicate Ordered(a: Abs, t: Key -> nat) {
    forall i, j :: 0 <= i < j < |a.lru| ==> SlotTime(a, t, a.lru[i]) < SlotTime(a, t, a.lru[j])
  }

  ghost predicate Increasing(s: seq<nat>, f: nat -> nat) {
    forall i, j :: 0 <= i < j < |s| ==> f(s[i]) < f(s[j])
  }

  /** `t` with `k`, if any, touched at time `n`. */
  ghost function Bump(t: Key -> nat, k: Option<Key>, n: nat): Key -> nat {
    key => if k == Some(key) then n else t(key)
  }

  lemma {:induction false} WithoutSplit(s: seq<nat>, x: nat) returns (p: nat)
    requires x in s
    ensures p < |s| && s[p] == x && Without(s, x) == s[..p] + s[p + 1..]
  {
    if s[0] == x {
      p := 0;
    } else {
      var q := WithoutSplit(s[1..], x);
      p := q + 1;
      assert s == [s[0]] + s[1..];
    }
  }

  lemma IncreasingDropAt(s: seq<nat>, p: nat, f: nat -> nat)
    requires p < |s| && Increasing(s, f)
    ensures Increasing(s[..p] + s[p + 1..], f)
  {
    var r := s[..p] + s[p + 1..];
    assert forall i :: 0 <= i < |r| ==> r[i] == s[if i < p then i else i + 1];
  }

  lemma SameIncreasing(s: seq<nat>, f: nat -> nat, g: nat -> nat)
    requires Increasing(s, f) && forall y :: y in s ==> g(y) == f(y)
    ensures Increasing(s, g)
  {
    assert forall i :: 0 <= i < |s| ==> s[i] in s;
  }

  /** Dropping an element keeps the order. */
  lemma IncreasingDrop(s: seq<nat>, x: nat, f: nat -> nat, g: nat -> nat)
    requires Distinct(s) && Increasing(s, f) && forall y :: y in s && y != x ==> g(y) == f(y)
    ensures Increasing(Without(s, x), g)
  {
    hide Without, Distinct, Increasing;
    WithoutElements(s, x);
    if x in s {
      var p := WithoutSplit(s, x);
      IncreasingDropAt(s, p, f);
    } else {
      WithoutAbsent(s, x);
    }
    SameIncreasing(Without(s, x), f, g);
  }

  lemma {:induction false} WithoutAbsent(s: seq<nat>, x: nat)
    requires x !in s
    ensures Without(s, x) == s
  {
    if s != [] { WithoutAbsent(s[1..], x); }
  }

  /** Appending an element later than all keeps the order. */
  lemma IncreasingAppend(s: seq<nat>, x: nat, f: nat -> nat)
    requires Increasing(s, f) && forall y :: y in s ==> f(y) < f(x)
    ensures Increasing(s + [x], f)
  {
    assert forall i :: 0 <= i < |s| ==> s[i] in s;
  }

  lemma DelSlotOrdered(cfg: Config, a: Abs, i: nat, t: Key -> nat)
    requires Inv(cfg, a) && Ordered(a, t)
    ensures Ordered(DelSlot(cfg, a, i), t)
  {
    hide RecsOk, FreeOk, Without;
    if i in a.recs {
      IncreasingDrop(a.lru, i, (j: nat) => SlotTime(a, t, j), (j: nat) => SlotTime(DelSlot(cfg, a, i), t, j));
    }
  }

  lemma {:induction false} DelUpToOrdered(cfg: Config, a: Abs, n: nat, all: bool, now: nat, t: Key -> nat)
    requires Inv(cfg, a) && Ordered(a, t)
    ensures Ordered(DelUpTo(cfg, a, n, all, now), t)
  {
    hide Inv, DelSlot, Ordered;
    if n > 1 {
      DelUpToOrdered(cfg, a, n - 1, all, now, t);
      DelUpToInv(cfg, a, n - 1, all, now);
      DelSlotOrdered(cfg, DelUpTo(cfg, a, n - 1, all, now), n - 1, t);
    }
  }

  lemma ScanTimeOrdered(a: Abs, t: Key -> nat, scan: nat)
    requires Ordered(a, t)
    ensures Ordered(a.(nextScan := scan), t)
  {
    assert forall i :: SlotTime(a.(nextScan := scan), t, i) == SlotTime(a, t, i);
  }

  lemma FullOrdered(cfg: Config, a: Abs, now: nat, t: Key -> nat)
    requires Inv(cfg, a) && Ordered(a, t)
    ensures Ordered(Full(cfg, a, now), t)
  {
    hide Inv, DelSlot, DelUpTo, Ordered;
    if a.lru != [] { DelSlotOrdered(cfg, a, a.lru[0], t); }
    FullInv(cfg, a, now);
    var b := PurgeOldest(cfg, a);
    FullInv(cfg, b, now);
    var b' := b.(nextScan := (now + cfg.sweepOnFull) % TWO_64);
    ScanTimeInv(cfg, b, b'.nextScan);
    ScanTimeOrdered(b, t, b'.nextScan);
    DelUpToOrdered(cfg, b', cfg.maxItems, false, now, t);
    DelUpToOrdered(cfg, SweepWhenFull(cfg, b, now), cfg.maxItems, true, 0, t);
  }

  lemma TouchOrdered(cfg: Config, a: Abs, i: nat, t: Key -> nat, n: nat)
    requires Inv(cfg, a) && i in a.recs && Ordered(a, t) && forall k :: t(k) < n
    ensures Ordered(Touch(cfg, a, i), if cfg.purgeLru then Bump(t, Some(a.recs[i].key), n) else t)
  {
    hide FreeOk, Without;
    if cfg.purgeLru {
      var t' := Bump(t, Some(a.recs[i].key), n);
      var b := Touch(cfg, a, i);
      var g := (j: nat) => SlotTime(b, t', j);
      forall j | j in a.lru && j != i
        ensures g(j) == SlotTime(a, t, j) < n
      {
        assert a.recs[j].key != a.recs[i].key;
      }
      IncreasingDrop(a.lru, i, (j: nat) => SlotTime(a, t, j), g);
      WithoutElements(a.lru, i);
      IncreasingAppend(Without(a.lru, i), i, g);
    }
  }

  lemma RefreshOrdered(cfg: Config, a: Abs, i: nat, expires: nat, flags: Flags, now: nat, t: Key -> nat, n: nat)
    requires cfg.purgeLru && Inv(cfg, a) && i in a.recs && Ordered(a, t) && forall k :: t(k) < n
    ensures Ordered(Refresh(cfg, a, i, expires, flags, now),
                    Bump(t, if flags.fixExpire then None else Some(a.recs[i].key), n))
  {
    hide Inv, Deadline, Without;
    var b := Refresh(cfg, a, i, expires, flags, now);
    var t' := Bump(t, if flags.fixExpire then None else Some(a.recs[i].key), n);
    if flags.fixExpire {
      assert forall j :: SlotTime(b, t', j) == SlotTime(a, t, j);
    } else {
      TouchOrdered(cfg, a, i, t, n);
      assert forall j :: SlotTime(b, t', j) == SlotTime(Touch(cfg, a, i), t', j);
    }
  }

  lemma NewValueOrdered(a: Abs, i: nat, val: seq<byte>, t: Key -> nat)
    requires i in a.recs && Ordered(a, t)
    ensures Ordered(a.(recs := a.recs[i := a.recs[i].(value := val)]), t)
  {
    var b := a.(recs := a.recs[i := a.recs[i].(value := val)]);
    assert forall j :: SlotTime(b, t, j) == SlotTime(a, t, j);
  }

  lemma InsertOrdered(cfg: Config, a: Abs, key: Key, val: seq<byte>, expires: nat, flags: Flags, now: nat, t: Key -> nat, n: nat)
    requires cfg.purgeLru && Inv(cfg, a) && a.free != [] && key !in a.index && !Rejected(cfg, key, val)
    requires Ordered(a, t) && forall k :: t(k) < n
    ensures Ordered(Insert(cfg, a, key, val, expires, flags, now), Bump(t, Some(key), n))
  {
    hide Deadline, Bump, SlotTime, FreeOk, RecsOk;
    FreePop(cfg.maxItems, a.recs.Keys, a.free);
    var b := Insert(cfg, a, key, val, expires, flags, now);
    var i := a.free[|a.free| - 1];
    var g := (j: nat) => SlotTime(b, Bump(t, Some(key), n), j);
    KeyAbsent(cfg, a, key);
    NewSlotTimes(a, b, i, t, n);
    assert b.lru == a.lru + [i];
    IncreasingAppend(a.lru, i, g);
  }

  lemma KeyAbsent(cfg: Config, a: Abs, key: Key)
    requires Inv(cfg, a) && key !in a.index
    ensures forall j :: j in a.recs ==> a.recs[j].key != key
  {
    hide FreeOk, LruOk;
  }

  lemma NewSlotTimes(a: Abs, b: Abs, i: nat, t: Key -> nat, n: nat)
    requires i in b.recs && b.recs == a.recs[i := b.recs[i]] && i !in a.recs
    requires forall j :: j in a.recs ==> a.recs[j].key != b.recs[i].key
    requires forall k :: t(k) < n
    ensures forall j :: j in a.recs ==> SlotTime(b, Bump(t, Some(b.recs[i].key), n), j) == SlotTime(a, t, j) < n
    ensures SlotTime(b, Bump(t, Some(b.recs[i].key), n), i) == n
  {
  }

  lemma SameTimes(a: Abs, t: Key -> nat, u: Key -> nat)
    requires Ordered(a, t) && forall k :: t(k) == u(k)
    ensures Ordered(a, u)
  {
    assert forall j :: SlotTime(a, t, j) == SlotTime(a, u, j);
  }

  lemma SetOrdered(cfg: Config, a: Abs, call: Call, t: Key -> nat, n: nat)
    requires cfg.purgeLru && Inv(cfg, a) && Ordered(a, t) && (forall k :: t(k) < n) && call.op.SetOp?
    ensures Ordered(Step(cfg, a, call).0, Bump(t, Touched(cfg, a, call), n))
  {
    hide Inv, Ordered, Full, Refresh, Insert, DelSlot, Find;
    var SetOp(key, val, e, f, room) := call.op;
    var t' := Bump(t, Touched(cfg, a, call), n);
    if Rejected(cfg, key, val) {
      SameTimes(a, t, t');
    } else {
      FindInv(cfg, a, key, call.now);
      FindOrdered(cfg, a, key, call.now, t);
      var (b, i) := Find(cfg, a, key, call.now);
      if i !in b.recs {
        var c := if b.free == [] then Full(cfg, b, call.now) else b;
        FullInv(cfg, b, call.now);
        FullShrinks(cfg, b, call.now);
        FullOrdered(cfg, b, call.now, t);
        FullOrdered(cfg, c, call.now, t);
        if c.free == [] {
          SameTimes(c, t, t');
        } else if !room {
          SameTimes(Full(cfg, c, call.now), t, t');
        } else {
          InsertOrdered(cfg, c, key, val, e, f, call.now, t, n);
        }
      } else if f.update {
        RefreshInv(cfg, b, i, e, f, call.now);
        RefreshOrdered(cfg, b, i, e, f, call.now, t, n);
        assert b.recs[i].key == key by { FoundKey(cfg, a, key, call.now); }
        var c := Refresh(cfg, b, i, e, f, call.now);
        FullOrdered(cfg, c, call.now, t');
        NewValueOrdered(c, i, val, t');
      } else {
        SameTimes(b, t, t');
      }
    }
  }

  lemma FoundKey(cfg: Config, a: Abs, key: Key, now: nat)
    requires Inv(cfg, a)
    ensures var (b, i) := Find(cfg, a, key, now); i in b.recs ==> b.recs[i].key == key
  {
    FindContents(cfg, a, key, now);
  }

  lemma FindOrdered(cfg: Config, a: Abs, key: Key, now: nat, t: Key -> nat)
    requires Inv(cfg, a) && Ordered(a, t)
    ensures Ordered(Find(cfg, a, key, now).0, t)
  {
    hide Inv, Ordered, DelSlot;
    if key in a.index { DelSlotOrdered(cfg, a, a.index[key], t); }
  }

  lemma StepOrdered(cfg: Config, a: Abs, call: Call, t: Key -> nat, n: nat)
    requires cfg.purgeLru && Inv(cfg, a) && Ordered(a, t) && forall k :: t(k) < n
    ensures Ordered(Step(cfg, a, call).0, Bump(t, Touched(cfg, a, call), n))
  {
    hide Inv, Ordered, Set, DelSlot, DelUpTo, Find;
    var t' := Bump(t, Touched(cfg, a, call), n);
    match call.op
    case SetOp(_, _, _, _, _) => SetOrdered(cfg, a, call, t, n);
    case GetOp(key) =>
      FindInv(cfg, a, key, call.now);
      FindOrdered(cfg, a, key, call.now, t);
      FoundKey(cfg, a, key, call.now);
      var (b, i) := Find(cfg, a, key, call.now);
      if i !in b.recs || b.recs[i].flags.ungettable {
        SameTimes(b, t, t');
      } else {
        TouchOrdered(cfg, b, i, t, n);
      }
    case ExistsOp(key) =>
      FindOrdered(cfg, a, key, call.now, t);
      SameTimes(Find(cfg, a, key, call.now).0, t, t');
    case DelOp(key) =>
      FindInv(cfg, a, key, call.now);
      FindOrdered(cfg, a, key, call.now, t);
      var (b, i) := Find(cfg, a, key, call.now);
      DelSlotOrdered(cfg, b, i, t);
      SameTimes(Step(cfg, a, call).0, t, t');
    case ClearOp =>
      DelUpToOrdered(cfg, a, cfg.maxItems, true, 0, t);
      SameTimes(Step(cfg, a, call).0, t, t');
  }

  /** In every run the LRU list holds exactly the live slots, in order of last touch. */
  lemma {:induction false} RunOrdered(cfg: Config, calls: seq<Call>)
    requires cfg.Valid() && cfg.purgeLru
    ensures Ordered(Run(cfg, calls), k => TouchTime(cfg, calls, k))
    ensures forall i :: i in Run(cfg, calls).lru <==> i in Run(cfg, calls).recs
    ensures Distinct(Run(cfg, calls).lru)
  {
    RunInv(cfg, calls);
    hide Step, RecsOk, FreeOk;
    if calls != [] {
      var before, call := calls[..|calls| - 1], calls[|calls| - 1];
      RunOrdered(cfg, before);
      RunInv(cfg, before);
      var t := k => TouchTime(cfg, before, k);
      StepOrdered(cfg, Run(cfg, before), call, t, |calls|);
      SameTimes(Run(cfg, calls), Bump(t, Touched(cfg, Run(cfg, before), call), |calls|), k => TouchTime(cfg, calls, k));
    }
  }

  /** After any run, the slot that a full cache would give up was touched strictly before
      every other live slot. */
  lemma VictimIsLeastRecentlyTouched(cfg: Config, calls: seq<Call>, i: nat)
    requires cfg.Valid() && cfg.purgeLru
    requires var a := Run(cfg, calls); a.lru != [] && i in a.recs && i != a.lru[0]
    ensures var a := Run(cfg, calls);
            a.lru[0] in a.recs && TouchTime(cfg, calls, a.recs[a.lru[0]].key) < TouchTime(cfg, calls, a.recs[i].key)
    ensures !cfg.clearOnFull && cfg.sweepOnFull == 0 ==>
            forall now :: Evicted(cfg, Run(cfg, calls), now) == {Run(cfg, calls).lru[0]}
  {
    RunOrdered(cfg, calls);
    var a := Run(cfg, calls);
    hide Run, TouchTime;
    assert a.lru[0] in a.lru && i in a.lru;
    var t := k => TouchTime(cfg, calls, k);
    assert SlotTime(a, t, a.lru[0]) < SlotTime(a, t, i);
  }

  /** With purge_lru outside bitmap mode (where room is never wanting), a set of an absent key
      with acceptable sizes succeeds if and only if the cache has a slot at all. */
  lemma LruInsertSucceeds(cfg: Config, a: Abs, key: Key, val: seq<byte>, expires: nat, flags: Flags, now: nat)
    requires Inv(cfg, a) && cfg.purgeLru && key !in Contents(a) && !Rejected(cfg, key, val)
    ensures Set(cfg, a, key, val, expires, flags, now, true).1 == 0 <==> cfg.maxItems >= 2
  {
    FindInv(cfg, a, key, now);
    ContentsKeys(cfg, a);
    hide Contents, Insert;
    assert Find(cfg, a, key, now) == (a, 0);
    if a.free == [] {
      FullFrees(cfg, a, now);
    }
    assert cfg.maxItems == 1 ==> |a.recs| + |a.free| == 0;
  }

  /** cache_full on a full purge_lru cache leaves a free slot, if there is a slot to free. */
  lemma FullFrees(cfg: Config, a: Abs, now: nat)
    requires Inv(cfg, a) && cfg.purgeLru && a.free == []
    ensures Full(cfg, a, now).free != [] <==> cfg.maxItems >= 2
  {
    FullInv(cfg, a, now);
    FullRecs(cfg, a, now);
    var b := Full(cfg, a, now);
    hide Full;
    Fewer(a.recs, Evicted(cfg, a, now));
    if cfg.maxItems >= 2 {
      assert |a.recs| > 0;
      LruNonEmpty(cfg, a);
    }
  }

  lemma LruNonEmpty(cfg: Config, a: Abs)
    requires Inv(cfg, a) && cfg.purgeLru && |a.recs| > 0
    ensures a.lru != [] && a.lru[0] in a.recs
  {
    var i :| i in a.recs.Keys;
    assert i in a.lru;
    assert a.lru[0] in a.lru;
  }
}
