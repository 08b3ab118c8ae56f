/** The block bitmap of a cache (core/cache.c): one bit per data block, most
    significant bit of byte 0 first; a set bit is a used block. */
module Bitmap {

  /** All-ones 64-bit word: "no free blocks". */
  const NOT_FOUND: nat := 0xffff_ffff_ffff_ffff

  /** Number of blocks that hold `len` bytes. */
  function NeededBlocks(len: nat, blocksize: nat): (n: nat)
    requires blocksize > 0
    ensures len > 0 ==> n > 0
  {
    len / blocksize + if len % blocksize > 0 then 1 else 0
  }

  /** The needed blocks are just enough. */
  lemma NeededBlocksTight(len: nat, blocksize: nat)
    requires blocksize > 0
    ensures len <= NeededBlocks(len, blocksize) * blocksize < len + blocksize
  {
    assert len == len / blocksize * blocksize + len % blocksize;
  }

  /** Bit `j` of a byte, counted from the most significant one. */
  predicate Bit(byte: bv8, j: nat)
    requires j < 8
  {
    byte & ((1 as bv8) << (7 - j)) != 0
  }

  /** Is block `k` used? */
  predicate Used(bm: seq<bv8>, k: nat)
    requires k < 8 * |bm|
  {
    Bit(bm[k / 8], k % 8)
  }

  /** Blocks `s`, `s+1`, ..., `s+n-1` are all free. */
  ghost predicate Free(bm: seq<bv8>, s: nat, n: nat)
    requires s + n <= 8 * |bm|
  {
    forall k :: s <= k < s + n ==> !Used(bm, k)
  }

  /** `b` is `a` with exactly the blocks of [index, index+n) additionally used. */
  ghost predicate Marked(a: seq<bv8>, b: seq<bv8>, index: nat, n: nat) {
    && |a| == |b|
    && forall k :: 0 <= k < 8 * |a| ==> (Used(b, k) <==> Used(a, k) || index <= k < index + n)
  }

  /** `b` is `a` with exactly the blocks of [index, index+n) no longer used. */
  ghost predicate Unmarked(a: seq<bv8>, b: seq<bv8>, index: nat, n: nat) {
    && |a| == |b|
    && forall k :: 0 <= k < 8 * |a| ==> (Used(b, k) <==> Used(a, k) && !(index <= k < index + n))
  }

  /** No run of `n` free blocks lies inside [lo, hi). */
  ghost predicate NoRun(bm: seq<bv8>, lo: nat, hi: int, n: nat)
    requires hi <= 8 * |bm|
  {
    forall s: nat :: lo <= s && s + n <= hi ==> !Free(bm, s, n)
  }

  // ---- byte masks -------------------------------------------------------

  /** Bits `f` to 7, bits 0 to `l`, and bits `f` to `l` of a byte, by shifting. */
  function FromBit(f: nat): bv8 requires f < 8 { 0xff >> f }
  function ToBit(l: nat): bv8 requires l < 8 { 0xff << (7 - l) }
  function FromToBit(f: nat, l: nat): bv8 requires f < 8 && l < 8 { (((0xff as bv8) >> f) >> (7 - l)) << (7 - l) }

  lemma ShiftedMasks(f: nat, l: nat, j: nat)
    requires f < 8 && l < 8 && j < 8
    ensures Bit(FromBit(f), j) <==> f <= j
    ensures Bit(ToBit(l), j) <==> j <= l
    ensures Bit(FromToBit(f, l), j) <==> f <= j <= l
    ensures Bit(0xff, j) && !Bit(0, j)
  {
  }

  lemma SetBit(a: bv8, m: bv8, j: nat)
    requires j < 8
    ensures Bit(SetBits(a, m), j) <==> Bit(a, j) || Bit(m, j)
  {
    var one := (1 as bv8) << (7 - j);
    assert (a | m) & one == (a & one) | (m & one);
  }

  lemma ClearBit(a: bv8, m: bv8, j: nat)
    requires j < 8
    ensures Bit(ClearBits(a, m), j) <==> Bit(a, j) && !Bit(m, j)
  {
  }

  /** The mask that selects bit `j`; no bit at all once `j` has left the byte. */
  function Probe(j: nat): bv8 {
    if j < 8 then (1 as bv8) << (7 - j) else 0
  }

  lemma ProbeShift(byte: bv8, j: nat)
    requires j <= 8
    ensures Probe(j) > 0 <==> j < 8
    ensures j < 8 ==> Probe(j) >> 1 == Probe(j + 1)
    ensures j < 8 ==> (byte & Probe(j) != 0 <==> Bit(byte, j))
  {
  }

  /** The byte `x` with the selected bits set, respectively cleared. */
  function SetBits(x: bv8, mask: bv8): bv8 { x | mask }
  function ClearBits(x: bv8, mask: bv8): bv8 { x & !mask }

  /** Bit `j` of byte `b` lies in the block interval [index, index+n). */
  predicate InInterval(index: nat, n: nat, b: nat, j: nat) {
    index <= 8 * b + j < index + n
  }

  /** The bits of byte `b` that a mark or unmark of [index, index+n) selects. */
  function ByteMask(index: nat, n: nat, b: nat): bv8
    requires n > 0
  {
    var last := index + n - 1;
    if b < index / 8 || b > last / 8 then 0
    else if index / 8 == last / 8 then FromToBit(index % 8, last % 8)
    else if b == index / 8 then FromBit(index % 8)
    else if b == last / 8 then ToBit(last % 8)
    else 0xff
  }

  lemma ByteMaskBits(index: nat, n: nat, b: nat, j: nat)
    requires n > 0 && j < 8
    ensures Bit(ByteMask(index, n, b), j) <==> InInterval(index, n, b, j)
  {
    hide Bit, FromBit, ToBit, FromToBit;
    ShiftedMasks(index % 8, (index + n - 1) % 8, j);
  }

  /** `b` is `a` with bytes before `first` and after `last` kept, bytes strictly
      between set to `fill`. */
  ghost predicate EdgesApart(a: seq<bv8>, b: seq<bv8>, first: nat, last: nat, fill: bv8) {
    && |a| == |b| && first <= last < |a|
    && (forall i :: 0 <= i < |a| && (i < first || i > last) ==> b[i] == a[i])
    && (forall i :: first < i < last ==> b[i] == fill)
  }

  lemma MarkedByte(x: bv8, y: bv8, index: nat, n: nat, b: nat, j: nat)
    requires n > 0 && j < 8
    requires if b < index / 8 || b > (index + n - 1) / 8 then y == x
             else (y == 0xff && index / 8 < b < (index + n - 1) / 8) || y == SetBits(x, ByteMask(index, n, b))
    ensures Bit(y, j) <==> Bit(x, j) || InInterval(index, n, b, j)
  {
    hide Bit, ByteMask, SetBits, ClearBits;
    ByteMaskBits(index, n, b, j);
    ShiftedMasks(0, 0, j);
    SetBit(x, ByteMask(index, n, b), j);
  }

  lemma MarkedBytes(a: seq<bv8>, b: seq<bv8>, index: nat, n: nat)
    requires n > 0
    requires EdgesApart(a, b, index / 8, (index + n - 1) / 8, 0xff)
    requires forall i :: i == index / 8 || i == (index + n - 1) / 8 ==> b[i] == SetBits(a[i], ByteMask(index, n, i))
    ensures Marked(a, b, index, n)
  {
    hide Bit, ByteMask, SetBits, ClearBits;
    forall k | 0 <= k < 8 * |a|
      ensures Used(b, k) <==> Used(a, k) || (index <= k < index + n)
    {
      MarkedByte(a[k / 8], b[k / 8], index, n, k / 8, k % 8);
    }
  }

  lemma UnmarkedByte(x: bv8, y: bv8, index: nat, n: nat, b: nat, j: nat)
    requires n > 0 && j < 8
    requires if b < index / 8 || b > (index + n - 1) / 8 then y == x
             else (y == 0 && index / 8 < b < (index + n - 1) / 8) || y == ClearBits(x, ByteMask(index, n, b))
    ensures Bit(y, j) <==> Bit(x, j) && !InInterval(index, n, b, j)
  {
    hide Bit, ByteMask, SetBits, ClearBits;
    ByteMaskBits(index, n, b, j);
    ShiftedMasks(0, 0, j);
    ClearBit(x, ByteMask(index, n, b), j);
  }

  lemma UnmarkedBytes(a: seq<bv8>, b: seq<bv8>, index: nat, n: nat)
    requires n > 0
    requires EdgesApart(a, b, index / 8, (index + n - 1) / 8, 0)
    requires forall i :: i == index / 8 || i == (index + n - 1) / 8 ==> b[i] == ClearBits(a[i], ByteMask(index, n, i))
    ensures Unmarked(a, b, index, n)
  {
    hide Bit, ByteMask, SetBits, ClearBits;
    forall k | 0 <= k < 8 * |a|
      ensures Used(b, k) <==> Used(a, k) && !(index <= k < index + n)
    {
      UnmarkedByte(a[k / 8], b[k / 8], index, n, k / 8, k % 8);
    }
  }

  /** The masks for the first and the last byte, computed by shifting. */
  method EdgeMasks(index: nat, needed: nat) returns (head: bv8, tail: bv8)
    requires needed > 0
    ensures head == ByteMask(index, needed, index / 8)
    ensures tail == ByteMask(index, needed, (index + needed - 1) / 8)
  {
    var firstBit, lastBit := index % 8, (index + needed - 1) % 8;
    head := 0xff >> firstBit;
    if index / 8 == (index + needed - 1) / 8 {
      head := head >> (7 - lastBit);
      head := head << (7 - lastBit);
      tail := head;
    } else {
      tail := 0xff << (7 - lastBit);
    }
  }

  // ---- the three bitmap routines ---------------------------------------

  /** cache_mark_blocks: afterwards exactly the interval's blocks are additionally used. */
  method MarkBlocks(bm: array<bv8>, blocksize: nat, index: nat, len: nat) returns (needed: nat)
    requires blocksize > 0 && len > 0
    requires index + NeededBlocks(len, blocksize) <= 8 * bm.Length
    modifies bm
    ensures needed == NeededBlocks(len, blocksize)
    ensures Marked(old(bm[..]), bm[..], index, needed)
  {
    hide Bit, ByteMask, SetBits, ClearBits, Marked, Unmarked, NeededBlocks;
    needed := NeededBlocks(len, blocksize);
    var first, last := index / 8, (index + needed - 1) / 8;
    var head, tail := EdgeMasks(index, needed);
    bm[first] := SetBits(bm[first], head);
    if last > first {
      bm[last] := SetBits(bm[last], tail);
    }
    forall b | first < b < last { bm[b] := 0xff; }
    MarkedBytes(old(bm[..]), bm[..], index, needed);
  }

  /** cache_unmark_blocks: afterwards exactly the interval's blocks are no longer used. */
  method UnmarkBlocks(bm: array<bv8>, blocksize: nat, index: nat, len: nat)
    requires blocksize > 0 && len > 0
    requires index + NeededBlocks(len, blocksize) <= 8 * bm.Length
    modifies bm
    ensures Unmarked(old(bm[..]), bm[..], index, NeededBlocks(len, blocksize))
  {
    hide Bit, ByteMask, SetBits, ClearBits, Marked, Unmarked, NeededBlocks;
    var needed := NeededBlocks(len, blocksize);
    var first, last := index / 8, (index + needed - 1) / 8;
    var head, tail := EdgeMasks(index, needed);
    bm[first] := ClearBits(bm[first], head);
    if last > first {
      bm[last] := ClearBits(bm[last], tail);
    }
    forall b | first < b < last { bm[b] := 0; }
    UnmarkedBytes(old(bm[..]), bm[..], index, needed);
  }

  /** Where the second pass of the search stops: the cursor's byte boundary,
      one byte later when the cursor is inside a byte. */
  function SecondPassEnd(cursor: nat): nat {
    8 * (cursor / 8) + if cursor % 8 > 0 then 8 else 0
  }

  /** What a search result means: first fit from the cursor on, else first fit
      from block 0 to the end of the second pass, else nothing. */
  ghost predicate FirstFit(bm: seq<bv8>, cursor: nat, n: nat, r: nat)
    requires n > 0 && cursor < 8 * |bm|
  {
    if r == NOT_FOUND then
      NoRun(bm, cursor, 8 * |bm|, n) && NoRun(bm, 0, SecondPassEnd(cursor), n)
    else
      r + n <= 8 * |bm| && Free(bm, r, n) &&
      ((cursor <= r && NoRun(bm, cursor, r + n - 1, n)) ||
       (NoRun(bm, cursor, 8 * |bm|, n) && r + n <= SecondPassEnd(cursor) && NoRun(bm, 0, r + n - 1, n)))
  }

  /** Loop state of the search: `found` free blocks end at `cur`, and no long
      enough run ends at or before `cur` in the current pass, which began at `lo`. */
  ghost predicate Scanned(bm: seq<bv8>, lo: nat, cur: nat, found: nat, n: nat) {
    && lo + found <= cur <= 8 * |bm| && found < n
    && Free(bm, cur - found, found)
    && (lo + found == cur || Used(bm, cur - found - 1))
    && NoRun(bm, lo, cur, n)
  }

  lemma ScanNone(bm: seq<bv8>, lo: nat, cur: nat, found: nat, n: nat)
    requires Scanned(bm, lo, cur, found, n)
    ensures cur <= 8 * |bm| && NoRun(bm, lo, cur, n)
  {
  }

  lemma UsedBit(bm: seq<bv8>, j: nat, b: nat)
    requires j < |bm| && b < 8
    ensures Used(bm, 8 * j + b) <==> Bit(bm[j], b)
  {
  }

  lemma ScanStart(bm: seq<bv8>, lo: nat, n: nat)
    requires lo <= 8 * |bm| && n > 0
    ensures Scanned(bm, lo, lo, 0, n)
    ensures NoRun(bm, lo, lo, n)
  {
  }

  lemma ScanUsed(bm: seq<bv8>, lo: nat, cur: nat, found: nat, n: nat)
    requires Scanned(bm, lo, cur, found, n) && cur < 8 * |bm| && Used(bm, cur)
    ensures Scanned(bm, lo, cur + 1, 0, n)
  {
  }

  lemma ScanFree(bm: seq<bv8>, lo: nat, cur: nat, found: nat, n: nat)
    requires Scanned(bm, lo, cur, found, n) && cur < 8 * |bm| && !Used(bm, cur)
    ensures Free(bm, cur - found, found + 1)
    ensures NoRun(bm, lo, cur, n) && lo + found <= cur && found < n
    ensures found + 1 < n ==> Scanned(bm, lo, cur + 1, found + 1, n)
  {
    if found + 1 < n {
      forall s: nat | lo <= s && s + n <= cur + 1
        ensures !Free(bm, s, n)
      {
        if s + n == cur + 1 {
          assert s <= cur - found - 1 < s + n;
        }
      }
    }
  }

  lemma ProbeLive(j: nat)
    requires j <= 8
    ensures Probe(j) > 0 <==> j < 8
  {
    ProbeShift(0, j);
  }

  /** The bit that the moving mask `i` selects. */
  method IsSet(num: bv8, i: bv8, ghost j: nat) returns (set': bool)
    requires j < 8 && i == Probe(j)
    ensures set' <==> Bit(num, j)
  {
    ProbeShift(num, j);
    hide *;
    set' := num & i != 0;
  }

  /** The mask one bit further. */
  method Shifted(i: bv8, ghost j: nat) returns (k: bv8)
    requires j < 8 && i == Probe(j)
    ensures k == Probe(j + 1)
  {
    ProbeShift(0, j);
    hide *;
    k := i >> 1;
  }

  /** The inner loop of the search: the bits of byte `j` from `startBit` on. */
  method ScanByte(num: bv8, j: nat, startBit: nat, found0: nat, base0: nat, baseBit0: nat, needed: nat,
                  ghost s: seq<bv8>, ghost lo: nat)
    returns (hit: bool, found: nat, base: nat, baseBit: nat)
    requires j < |s| && num == s[j] && startBit < 8 && 8 * |s| <= NOT_FOUND
    requires base0 == NOT_FOUND <==> found0 == 0
    requires found0 > 0 ==> 8 * base0 + baseBit0 == 8 * j + startBit - found0
    requires Scanned(s, lo, 8 * j + startBit, found0, needed)
    ensures hit ==> lo <= 8 * base + baseBit && 8 * base + baseBit + needed <= 8 * (j + 1)
    ensures hit ==> Free(s, 8 * base + baseBit, needed) && NoRun(s, lo, 8 * base + baseBit + needed - 1, needed)
    ensures !hit ==> (base == NOT_FOUND <==> found == 0)
    ensures !hit && found > 0 ==> 8 * base + baseBit == 8 * (j + 1) - found
    ensures !hit ==> Scanned(s, lo, 8 * (j + 1), found, needed) && NoRun(s, lo, 8 * (j + 1), needed)
  {
    hide *;
    found, base, baseBit := found0, base0, baseBit0;
    var i, bitPos := Probe(startBit), startBit;
    while i > 0
      invariant startBit <= bitPos <= 8
      invariant i == Probe(bitPos)
      invariant base == NOT_FOUND <==> found == 0
      invariant Scanned(s, lo, 8 * j + bitPos, found, needed)
      invariant found > 0 ==> 8 * base + baseBit == 8 * j + bitPos - found
      decreases 8 - bitPos
    {
      ProbeLive(bitPos);
      ghost var cur := 8 * j + bitPos;
      UsedBit(s, j, bitPos);
      var used := IsSet(num, i, bitPos);
      if used {
        ScanUsed(s, lo, cur, found, needed);
        found, base, baseBit := 0, NOT_FOUND, 0;
      } else {
        ScanFree(s, lo, cur, found, needed);
        if base == NOT_FOUND {
          base, baseBit := j, bitPos;
        }
        found := found + 1;
        if found == needed {
          hit := true;
          return;
        }
      }
      i := Shifted(i, bitPos);
      bitPos := bitPos + 1;
    }
    ProbeLive(bitPos);
    ScanNone(s, lo, 8 * j + bitPos, found, needed);
    hit := false;
  }

  /** uwsgi_cache_find_free_blocks. */
  method FindFreeBlocks(bm: array<bv8>, blocksize: nat, cursor: nat, need: nat) returns (r: nat)
    requires blocksize > 0 && need > 0
    requires cursor < 8 * bm.Length <= NOT_FOUND
    ensures FirstFit(bm[..], cursor, NeededBlocks(need, blocksize), r)
  {
    hide Bit, Free, NeededBlocks, Scanned, NoRun;
    var needed := NeededBlocks(need, blocksize);
    var bitmapByte, bitmapBit := 0, 0;
    if cursor > 0 {
      bitmapByte, bitmapBit := cursor / 8, cursor % 8;
    }
    var base, baseBit, found := NOT_FOUND, 0, 0;
    var size := bm.Length;
    var needToScan := size;
    if bitmapBit > 0 { needToScan := needToScan + 1; }
    var j := bitmapByte;
    ghost var first := true;
    ghost var s := bm[..];
    ScanStart(s, cursor, needed);
    ScanStart(s, 0, needed);
    while needToScan > 0
      invariant bm[..] == s
      invariant 0 <= j < size && 0 <= bitmapBit < 8 && 0 <= needToScan
      invariant base == NOT_FOUND <==> found == 0
      invariant first ==> needToScan == size - (j - bitmapByte) + (if cursor % 8 > 0 then 1 else 0)
      invariant first ==> j >= bitmapByte && bitmapBit == cursor % 8
      invariant first && j == bitmapByte ==> found == 0
      invariant first ==> Scanned(s, cursor, if j == bitmapByte then cursor else 8 * j, found, needed)
      invariant !first ==> bitmapBit == 0 &&
                           (j + needToScan == SecondPassEnd(cursor) / 8 ||
                            (needToScan == 0 && SecondPassEnd(cursor) == 8 * size))
      invariant !first ==> NoRun(s, cursor, 8 * size, needed)
      invariant !first && needToScan == 0 ==> NoRun(s, 0, SecondPassEnd(cursor), needed)
      invariant !first && needToScan > 0 ==> Scanned(s, 0, 8 * j, found, needed)
      invariant found > 0 ==> 8 * base + baseBit == 8 * j - found
    {
      ghost var lo := if first then cursor else 0;
      var hit;
      hit, found, base, baseBit := ScanByte(bm[j], j, if j == bitmapByte then bitmapBit else 0, found, base, baseBit, needed, s, lo);
      if hit {
        return base * 8 + baseBit;
      }
      j := j + 1;
      needToScan := needToScan - 1;
      if j >= size {
        j, found, base, baseBit, bitmapBit := 0, 0, NOT_FOUND, 0, 0;
        first := false;
      }
    }
    r := NOT_FOUND;
  }

  // ---- what the search result is good for -------------------------------

  /** A search for one block fails only when every block is used. */
  lemma OneBlockSearchComplete(bm: seq<bv8>, cursor: nat)
    requires cursor < 8 * |bm|
    requires FirstFit(bm, cursor, 1, NOT_FOUND)
    ensures forall k :: 0 <= k < 8 * |bm| ==> Used(bm, k)
  {
    forall k | 0 <= k < 8 * |bm|
      ensures Used(bm, k)
    {
      assert !Free(bm, k, 1);
    }
  }

  lemma SameByte(a: bv8, b: bv8)
    requires forall j :: 0 <= j < 8 ==> (Bit(a, j) <==> Bit(b, j))
    ensures a == b
  {
    assert Bit(a, 0) <==> Bit(b, 0);
    assert Bit(a, 1) <==> Bit(b, 1);
    assert Bit(a, 2) <==> Bit(b, 2);
    assert Bit(a, 3) <==> Bit(b, 3);
    assert Bit(a, 4) <==> Bit(b, 4);
    assert Bit(a, 5) <==> Bit(b, 5);
    assert Bit(a, 6) <==> Bit(b, 6);
    assert Bit(a, 7) <==> Bit(b, 7);
  }

  /** A bitmap is determined by which blocks are used. */
  lemma SameBits(a: seq<bv8>, b: seq<bv8>)
    requires |a| == |b|
    requires forall k :: 0 <= k < 8 * |a| ==> (Used(a, k) <==> Used(b, k))
    ensures a == b
  {
    forall i | 0 <= i < |a|
      ensures a[i] == b[i]
    {
      forall j | 0 <= j < 8
        ensures Bit(a[i], j) <==> Bit(b[i], j)
      {
        assert Used(a, 8 * i + j) <==> Used(b, 8 * i + j);
      }
      SameByte(a[i], b[i]);
    }
  }

  /** Unmarking the interval just marked restores every byte iff the interval was free. */
  lemma MarkThenUnmark(a: seq<bv8>, b: seq<bv8>, c: seq<bv8>, index: nat, n: nat)
    requires index + n <= 8 * |a|
    requires Marked(a, b, index, n) && Unmarked(b, c, index, n)
    ensures c == a <==> Free(a, index, n)
  {
    if Free(a, index, n) {
      SameBits(a, c);
    } else {
      var k :| index <= k < index + n && Used(a, k);
      assert !Used(c, k);
    }
  }
}
