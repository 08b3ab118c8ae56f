# Verified models of the shop's order commit and of the uWSGI core it ships

The repository is a Django shop that vendors uWSGI 2.0.18. This project models, and proves properties of, the parts
whose correctness is least obvious:

* **The uWSGI cache** (`Cache*.dfy`, `Bitmap.dfy`). One item array carries hash chains, an LRU list, a free stack and,
  in bitmap mode, a block allocator. `CacheMemory.Cache` is the in-memory cache: arrays and fields changed in place by the
  same loops as in C. `CacheModel` says on values what each operation does; every method is proved to do that to the
  memory, and `Valid()` says that the memory stores the value: chains, LRU links, stack, bitmap and bytes all agree. On the
  value side, runs of operations are compared with a plain finite map, the LRU order with touch times, and
  the sweeper's fast path with the expiries it skips.
* **Legion leader election** (`Legion*.dfy`). `LegionInstance.Legion` is one instance; `LegionWorld` a group exchanging
  packets that may be late, repeated or lost; discovery, the need for a quorum and convergence are proved over every
  interleaving (`LegionSteps`, `LegionDiscovery`).
* **The order commit** (`Order*.dfy`). Any number of commits interleave on shared SKU rows. `OrderModel` is the state machine
  with conservation over all runs, `OrderAtomic` shows aborted commits to leave no trace, `OrderSkipped` what became of each
  requested item, `OrderView.Database` holds the view's loops with arbitrary steps of other commits between its own.
* **The chunked body reader** over a growable buffer (`Chunked*.dfy`). The coding of section 4.1 of RFC 7230 is read back
  however the bytes are split into receives; and the exact streams for which that, or less, is true.
* **The async hub** (`Async*.dfy`): run queue, timers, descriptor table, and what timeout expiry does.
* **The buffered socket writer** of the Apache module (`SockBuff.dfy`).

Database assumptions of the order model: a read returns a row as it was at some committed moment, or the transaction's own
write; the conditional update tests the current row; a written row stays locked until its transaction ends; a wait for a
lock can end in an error. The cache is modelled as called under its lock, one operation at a time; the hash is an arbitrary
function of the key. Times are parameters. What a receive, a send or a
reallocation yields is arbitrary, and so is memory that has not been written.

`dafny verify dfyconfig.toml` checks everything.

## Where the code does less than one would expect

* The commit's third attempt does not exist: the loop runs twice, and an item that lost both conditional updates is skipped
  (`OrderSkipped.ItemMissing`, with the exact condition in `OrderSkipped.CompleteIffNothingGivenUp`). A failed read of any kind is answered
  as a missing product.
* An absolute expiry does not pull `next_scan` forward (`CacheSweep.InsertCoversIff`, `CacheSweep.RefreshCoversIff`,
  `CacheSweep.AbsoluteExpiryIsMissed`).
* The existence test cuts a 64-bit slot number to 32 bits (`CacheRuns.ExistsContents`, `CacheRuns.ExistsDeniesPresent`).
* A chunk size of 2^63 or more is dropped silently, and 2^64-2 is mistaken for an incomplete line (`ChunkedCoding.StallExample`).
  `strtoul` is given the whole buffer and passes over white space, so an empty size line gets its number from whatever lies
  behind it, even from stale memory (`ChunkedCoding.EmptyLineMisread`). `ChunkedRuns.ReliableIffSteady` and
  `ChunkedRuns.AgreeIffOrderly` say for exactly which streams the reader keeps its promise; every body in the coding of the
  RFC is one of them (`ChunkedCoding.DecodeEncode`).
* A valor of 2^16 or more is cut when its instance is listed, so that it is never recognised and listed again with every
  packet (`LegionSteps.WideValorAddsAgain`).
* Of two requests waiting on one descriptor one may never be woken (`AsyncModel.SharedFdForgets`, `AsyncModel.NeverWoken`).
* A bitmap-mode update that finds no room has already changed recency and expiry (`CacheMemory.Cache.Update`).

## Model

| member | source | states |
|---|---|---|
| CacheRuns.RunAgrees | dailyfresh/uwsgi-2.0.18/core/cache.c:475-952 | after any run of set, update, get, exists, delete and clear, what is stored under each key - value, expiry and flags - is what the history of the key on a plain map says; it is gone only if deleted, cleared, dropped as overdue by a lookup of it, or evicted by cache_full |
| CacheRuns.GetReturnsLastStored | dailyfresh/uwsgi-2.0.18/core/cache.c:568-633 | a get at the end of any run returns exactly the last value stored and its expiry, and nothing exactly if that is gone, overdue under lazy expiry, or flagged ungettable |
| CacheRuns.SetContents | dailyfresh/uwsgi-2.0.18/core/cache.c:754-952 | a set that returns 0 stores exactly its value and expiry, an update keeping the flags; an update without room leaves the value but not the expiry; no other key changes; keys are lost only to lazy expiry of the key itself and to cache_full |
| CacheRuns.SetPresent | dailyfresh/uwsgi-2.0.18/core/cache.c:774-877 | a set without UPDATE on a present key changes nothing at all and returns -1 |
| CacheRuns.SetSucceedsIff | dailyfresh/uwsgi-2.0.18/core/cache.c:754-952 | in every configuration a set returns 0 if and only if key and value are within the size limits, there is room for the value, and either the key is there after the lookup and UPDATE is given, or it is not and fewer than max_items - 1 keys are held or cache_full gives one up |
| CacheRuns.ReadyIff | dailyfresh/uwsgi-2.0.18/core/cache.c:775-785 | for a new key there is a slot in the end exactly if one is free, or something is held and purge_lru, clear_on_full or a sweep_on_full that is due and finds an overdue key takes some of it |
| CacheRuns.StoredUntil | dailyfresh/uwsgi-2.0.18/core/cache.c:810-817 | under lazy expiry a new item is found exactly until now + expires, or until the absolute expiry, and for ever with none; purge_lru takes every expiry as absolute |
| CacheRuns.GetContents | dailyfresh/uwsgi-2.0.18/core/cache.c:568-633 | a get returns value and expiry of a present, gettable key that is not overdue, and changes nothing but dropping that key when overdue |
| CacheRuns.DelContents | dailyfresh/uwsgi-2.0.18/core/cache.c:656-718 | a delete takes away that key and nothing else; -1 exactly when it was not there any more |
| CacheRuns.ExistsContents | dailyfresh/uwsgi-2.0.18/core/cache.c:531-534 | the existence test is right for a present key exactly when its slot number is not a multiple of 2^32 (the 64-bit index is returned as 32 bits); always right for at most 2^32 slots |
| CacheRuns.ExistsDeniesPresent | dailyfresh/uwsgi-2.0.18/core/cache.c:531-534 | with 2^32 + 1 slots the first key stored in a fresh cache is denied |
| CacheRuns.ClearContents | dailyfresh/uwsgi-2.0.18/plugins/cache/cache.c:142-152 | the clear loop leaves nothing |
| CacheRuns.RunInv | dailyfresh/uwsgi-2.0.18/core/cache.c:347-952 | every run keeps the slots: live ones and the free stack partition 1..max_items-1, the LRU list holds exactly the live ones |
| CacheModel.FullContents | dailyfresh/uwsgi-2.0.18/core/cache.c:27-68 | cache_full removes exactly the evicted keys and leaves every other entry as it is |
| CacheModel.SetInv | dailyfresh/uwsgi-2.0.18/core/cache.c:754-952 | a set keeps the slot invariant on every path, failures included |
| CacheLru.RunOrdered | dailyfresh/uwsgi-2.0.18/core/cache.c:536-566 | in every run the LRU list holds exactly the live slots, once each, in order of last qualifying touch |
| CacheLru.VictimIsLeastRecentlyTouched | dailyfresh/uwsgi-2.0.18/core/cache.c:27-41 | the slot a full cache gives up was touched strictly before every other live one, and without clear_on_full and sweep_on_full only that one goes |
| CacheLru.LruInsertSucceeds | dailyfresh/uwsgi-2.0.18/core/cache.c:776-785 | with purge_lru outside bitmap mode a set of an absent key with valid sizes succeeds if and only if max_items >= 2 |
| CacheLru.FullFrees | dailyfresh/uwsgi-2.0.18/core/cache.c:27-41 | cache_full on a full purge_lru cache leaves a free slot if and only if max_items >= 2 |
| CacheSweep.PlayCovers | dailyfresh/uwsgi-2.0.18/core/cache.c:1105-1141 | with relative expiries, over every interleaving of calls with the sweeper's one-slot steps, next_scan bounds all expiries between passes and those of the visited slots during a pass |
| CacheSweep.SkippedPassIsSound | dailyfresh/uwsgi-2.0.18/core/cache.c:1113-1117 | when no pass is under way and next_scan is 0 or in the future, no live item is overdue |
| CacheSweep.SweepRemovesOverdue | dailyfresh/uwsgi-2.0.18/core/cache.c:1105-1141 | an undisturbed pass leaves exactly the items not overdue, and next_scan equal to the least remaining expiry |
| CacheSweep.SweepExpires | dailyfresh/uwsgi-2.0.18/core/cache.c:810-817 | an item stored at now with a relative expiry is removed by an undisturbed visit at t exactly if t >= now + expires |
| CacheSweep.NeverSwept | dailyfresh/uwsgi-2.0.18/core/cache.c:1105-1112 | with no_expire, purge_lru or lazy_expire every run among sweeper steps is the run of the calls alone |
| CacheSweep.SweptIff | dailyfresh/uwsgi-2.0.18/core/cache.c:1105-1141 | an item stored at 0 for one second survives the visit at 1 exactly if one of the three is set |
| CacheSweep.InsertCoversIff | dailyfresh/uwsgi-2.0.18/core/cache.c:810-817 | the exact condition under which storing a new item keeps next_scan a lower bound: absolute expiries before it, and sums that overflow to 0, break it |
| CacheSweep.RefreshCoversIff | dailyfresh/uwsgi-2.0.18/core/cache.c:879-890 | the exact condition for an update of a live item |
| CacheSweep.AbsoluteExpiryIsMissed | dailyfresh/uwsgi-2.0.18/core/cache.c:810-815 | an item stored with an absolute expiry in a fresh cache is never swept |
| CacheSweep.StepCovers | dailyfresh/uwsgi-2.0.18/core/cache.c:754-952 | no call with a relative expiry breaks the bound |
| CacheKeys.KeysVisitsAll | dailyfresh/uwsgi-2.0.18/core/cache.c:2134-2154 | iterating from position 0 and a null item over an unchanged cache gives every live item exactly once and then NULL for ever |
| CacheKeys.CallReturns | dailyfresh/uwsgi-2.0.18/core/cache.c:2134-2154 | call k+1 gives the k-th item of the concatenated hash chains |
| CacheMemory.Cache.NextKey | dailyfresh/uwsgi-2.0.18/core/cache.c:2134-2154 | the call walks the real links as that iteration does, calls after the end included |
| CacheKeys.CallsAtItem | dailyfresh/uwsgi-2.0.18/core/cache.c:2134-2154 | every call of an iteration meets the precondition of the call |
| CacheRebuild.RebuiltOk | dailyfresh/uwsgi-2.0.18/core/cache.c:720-752 | the rebuilt table, free stack and counters store the same records again |
| CacheRebuild.RebuiltScan | dailyfresh/uwsgi-2.0.18/core/cache.c:720-752 | the rebuilt next_scan is the least expiry of the live items |
| CacheMemory.Cache.Fix | dailyfresh/uwsgi-2.0.18/core/cache.c:720-752 | from the item array of a well-formed cache without LRU and bitmap and a zeroed table: the same records, the same answer to every lookup, the same set of free slots, next_scan the least expiry |
| CacheMemory.Cache.Rebuild | dailyfresh/uwsgi-2.0.18/core/cache.c:720-752 | the loop of the rebuild |
| Bitmap.FindFreeBlocks | dailyfresh/uwsgi-2.0.18/core/cache.c:70-146 | a found index starts the first run of enough free blocks from the cursor on, or else from block 0 up to the end of the cursor's byte; none only if there is no such run in either range |
| Bitmap.ScanByte | dailyfresh/uwsgi-2.0.18/core/cache.c:93-137 | one byte of the search continues the run of free blocks across the byte border |
| Bitmap.OneBlockSearchComplete | dailyfresh/uwsgi-2.0.18/core/cache.c:70-146 | for one block, none means that every block is used |
| Bitmap.MarkBlocks | dailyfresh/uwsgi-2.0.18/core/cache.c:148-182 | the byte masks set exactly the blocks of the interval, for every start, length and byte span |
| Bitmap.UnmarkBlocks | dailyfresh/uwsgi-2.0.18/core/cache.c:184-218 | the byte masks clear exactly the blocks of the interval |
| Bitmap.EdgeMasks | dailyfresh/uwsgi-2.0.18/core/cache.c:162-175 | the shifted masks of the first and last byte select exactly the interval's bits |
| Bitmap.MarkThenUnmark | dailyfresh/uwsgi-2.0.18/core/cache.c:148-218 | unmarking what was just marked restores every byte if and only if the interval was free |
| Bitmap.NeededBlocksTight | dailyfresh/uwsgi-2.0.18/core/cache.c:72-77 | the number of blocks is the least that holds the bytes |
| Bitmap.MarkedBytes | dailyfresh/uwsgi-2.0.18/core/cache.c:148-182 | bytes with those masks applied are a bitmap with exactly the interval marked |
| Bitmap.UnmarkedBytes | dailyfresh/uwsgi-2.0.18/core/cache.c:184-218 | the same for unmarking |
| Bitmap.SameBits | dailyfresh/uwsgi-2.0.18/core/cache.c:148-218 | a bitmap is determined by which blocks are used |
| CacheLayout.RangesDisjoint | dailyfresh/uwsgi-2.0.18/core/cache.c:787-807 | in every well-formed memory the block ranges of live items lie inside the data area and are pairwise disjoint |
| CacheLayout.BitIffLive | dailyfresh/uwsgi-2.0.18/core/cache.c:360-368 | in every well-formed bitmap-mode memory a bit is set exactly for a block of a live item or tail padding |
| CacheLayout.BlocksApart | dailyfresh/uwsgi-2.0.18/core/cache.c:787-807 | two slots that own their blocks do not overlap |
| CacheLayout.WriteKeeps | dailyfresh/uwsgi-2.0.18/core/cache.c:822-824 | writing one item's bytes leaves every other item's record alone |
| CacheLayout.DeletedOk | dailyfresh/uwsgi-2.0.18/core/cache.c:656-718 | unlinking, unmarking and wiping a slot leaves a memory that stores the cache without it |
| CacheLayout.InsertedOk | dailyfresh/uwsgi-2.0.18/core/cache.c:783-875 | filling and appending a slot leaves a memory that stores the cache with it |
| CacheLayout.UpdatedOk | dailyfresh/uwsgi-2.0.18/core/cache.c:891-911 | new blocks marked before the old ones are unmarked: only that key's bytes change |
| CacheLayout.TouchedOk | dailyfresh/uwsgi-2.0.18/core/cache.c:536-566 | moving an item in the LRU list keeps everything else |
| CacheLayout.FreshMemory | dailyfresh/uwsgi-2.0.18/core/cache.c:347-368 | the initial memory stores the empty cache, only the padding bits set |
| CacheLayout.ListShort | dailyfresh/uwsgi-2.0.18/core/cache.c:492-497 | a chain is shorter than the item array, so the loop alarm is never raised |
| CacheMemory.Cache.constructor | dailyfresh/uwsgi-2.0.18/core/cache.c:347-368 | all slots on the free stack, all chains empty, exactly the tail padding marked |
| CacheMemory.Cache.FreeAllSlots | dailyfresh/uwsgi-2.0.18/core/cache.c:354-358 | slots 1 to max_items-1 are pushed |
| CacheMemory.Cache.MarkPadding | dailyfresh/uwsgi-2.0.18/core/cache.c:360-368 | exactly the bits behind the last block are set |
| CacheMemory.Cache.LruRemove | dailyfresh/uwsgi-2.0.18/core/cache.c:536-551 | the doubly linked list without that slot |
| CacheMemory.Cache.LruAdd | dailyfresh/uwsgi-2.0.18/core/cache.c:553-566 | the doubly linked list with that slot at its recent end |
| CacheMemory.Cache.Unthread | dailyfresh/uwsgi-2.0.18/core/cache.c:666-697 | a live slot leaves its bitmap blocks, LRU list and hash chain and goes on the free stack |
| CacheMemory.Cache.ChainUnlink | dailyfresh/uwsgi-2.0.18/core/cache.c:673-691 | exactly that slot leaves exactly its own bucket's chain, prev and next still matching |
| CacheMemory.Cache.ChainAppend | dailyfresh/uwsgi-2.0.18/core/cache.c:854-873 | the slot goes to the end of its bucket's chain |
| CacheMemory.Cache.DelSlot | dailyfresh/uwsgi-2.0.18/core/cache.c:656-718 | a slot deleted by number, live or not |
| CacheMemory.Cache.CheckLazy | dailyfresh/uwsgi-2.0.18/core/cache.c:464-473 | deletes an overdue item under lazy expiry, and only then changes anything |
| CacheMemory.Cache.FindSlot | dailyfresh/uwsgi-2.0.18/core/cache.c:475-529 | the chain walk finds the slot of the key if and only if there is one; the loop alarm is dead code |
| CacheMemory.Cache.GetIndex | dailyfresh/uwsgi-2.0.18/core/cache.c:475-529 | the lookup with lazy expiry |
| CacheMemory.Cache.Exists | dailyfresh/uwsgi-2.0.18/core/cache.c:531-534 | the existence test on the memory |
| CacheMemory.Cache.Touch | dailyfresh/uwsgi-2.0.18/core/cache.c:577-580 | a get moves the item to the recent end |
| CacheMemory.Cache.Get | dailyfresh/uwsgi-2.0.18/core/cache.c:568-633 | get2 and get3 on the memory |
| CacheMemory.Cache.Del | dailyfresh/uwsgi-2.0.18/core/cache.c:656-718 | delete by key on the memory |
| CacheMemory.Cache.Clear | dailyfresh/uwsgi-2.0.18/plugins/cache/cache.c:142-152 | the clear loop on the memory |
| CacheMemory.Cache.Full | dailyfresh/uwsgi-2.0.18/core/cache.c:27-68 | cache_full on the memory |
| CacheMemory.Cache.SweepWhenFull | dailyfresh/uwsgi-2.0.18/core/cache.c:43-61 | sweep_on_full removes the overdue items at most once in its interval, and reports how many |
| CacheMemory.Cache.PlaceBlocks | dailyfresh/uwsgi-2.0.18/core/cache.c:791-806 | the search, the marking and the new cursor |
| CacheMemory.Cache.WriteData | dailyfresh/uwsgi-2.0.18/core/cache.c:822-824 | exactly the value's bytes are written |
| CacheMemory.Cache.NewDeadline | dailyfresh/uwsgi-2.0.18/core/cache.c:810-816 | the stored expiry and the new next_scan, sums modulo 2^64 |
| CacheMemory.Cache.FillItem | dailyfresh/uwsgi-2.0.18/core/cache.c:808-858 | the item of a new key, its links cleared |
| CacheMemory.Cache.Fill | dailyfresh/uwsgi-2.0.18/core/cache.c:808-875 | the rest of an insert once slot and blocks are found |
| CacheMemory.Cache.PutBack | dailyfresh/uwsgi-2.0.18/core/cache.c:788-796 | the slot goes back on the stack when no blocks are found |
| CacheMemory.Cache.Store | dailyfresh/uwsgi-2.0.18/core/cache.c:775-876 | a set of an absent key: returns 0 exactly if there is a slot for it and room for its value; room is wanting only in bitmap mode, exactly when the block search on that memory finds nothing |
| CacheMemory.Cache.Refresh | dailyfresh/uwsgi-2.0.18/core/cache.c:877-890 | recency and expiry of an update |
| CacheMemory.Cache.Update | dailyfresh/uwsgi-2.0.18/core/cache.c:877-950 | an update of a live key, its new blocks where the search found them; on no room the value stays but recency and expiry have changed |
| CacheMemory.Cache.Set | dailyfresh/uwsgi-2.0.18/core/cache.c:754-952 | set2 on the memory, all branches: returns 0 exactly if the set is acceptable - sizes, presence, UPDATE, a slot - and there is room, which outside bitmap mode there always is and in it exactly if the block search finds some |
| CacheMemory.Cache.SweepSlot | dailyfresh/uwsgi-2.0.18/core/cache.c:1121-1138 | one locked step of the sweeper |
| CacheMemory.Cache.Sweep | dailyfresh/uwsgi-2.0.18/core/cache.c:1105-1141 | an undisturbed visit of the sweeper, and how many it freed |
| LegionModel.BeatsIsStrictTotalOrder | dailyfresh/uwsgi-2.0.18/core/utils.c:4067-4078 | (valor, uuid) with uuid_cmp is a strict total order |
| LegionModel.BestIsMaximum | dailyfresh/uwsgi-2.0.18/core/legion.c:418-476 | the elected pair is the greatest of the own one and the non-arbiter peers |
| LegionModel.BestUnbeaten | dailyfresh/uwsgi-2.0.18/core/legion.c:418-476 | nobody eligible beats the running best |
| LegionModel.ElectionIgnoresOrder | dailyfresh/uwsgi-2.0.18/core/legion.c:418-476 | the same members in any order elect the same |
| LegionModel.ChecksumIgnoresOrder | dailyfresh/uwsgi-2.0.18/core/legion.c:246-264 | instances that see the same group, each from its own place and in any order, compute the same checksum |
| LegionSteps.LordIff | dailyfresh/uwsgi-2.0.18/core/legion.c:266-415 | a check, exactly: it joins iff there is a quorum of agreeing peers; with one it is lord iff it stands - no arbiter, not suspended, no better peer - and its hooks do not fail; without one a lord gives up iff all agree and the last warning is 60 seconds old |
| LegionSteps.LordNeedsQuorum | dailyfresh/uwsgi-2.0.18/core/legion.c:299-380 | nobody becomes lord or joins unless 1 + peers >= quorum and every peer has noted its checksum and candidate |
| LegionSteps.LosesLordship | dailyfresh/uwsgi-2.0.18/core/legion.c:395-411 | with too few peers that all agree a lord whose last warning is 60 or more seconds old is none afterwards |
| LegionSteps.HookFailure | dailyfresh/uwsgi-2.0.18/core/legion.c:345-356 | a failing lord hook: dead, announced as dead, suspended, silent and standing for nothing until then |
| LegionSteps.CandidateIsFor | dailyfresh/uwsgi-2.0.18/core/legion.c:270-289 | the vote goes to the instance itself iff it stands, else to an unbeaten peer that beats it, else to nobody |
| LegionSteps.Announces | dailyfresh/uwsgi-2.0.18/core/legion.c:775-856 | an announcement names the instance and what it has found out; nothing is sent while suspended |
| LegionSteps.ReceiveMeans | dailyfresh/uwsgi-2.0.18/core/legion.c:588-647 | after a fresh packet the list holds its sender exactly once with the vote, checksum and time of the packet, or not at all if it announces its death; all other peers are as before; own and old packets change nothing |
| LegionSteps.ReceivePlace | dailyfresh/uwsgi-2.0.18/core/legion.c:605-620 | a new sender is appended, a listed one keeps its place |
| LegionSteps.WideValorAddsAgain | dailyfresh/uwsgi-2.0.18/core/legion.c:119-135 | a sender whose valor needs more than 16 bits is never found in the list, and added once more by every packet |
| LegionSteps.ChecksumPinned | dailyfresh/uwsgi-2.0.18/core/legion.c:246-264 | without peers the checksum is the own valor plus uuid characters; every peer adds as much of its own |
| LegionSteps.UuidSumParts | dailyfresh/uwsgi-2.0.18/core/legion.c:248-251 | all characters are added up |
| LegionSteps.ChecksumTells | dailyfresh/uwsgi-2.0.18/core/legion.c:246-264 | one other character in the own uuid makes another checksum |
| LegionDiscovery.LordHadQuorum | dailyfresh/uwsgi-2.0.18/core/legion.c:299-380 | from any group and any packets, in every run: who is lord and was not at the start has made a check at which it stood and its peers, all agreeing, were with itself at least its quorum |
| LegionDiscovery.CutOffNeverLord | dailyfresh/uwsgi-2.0.18/core/legion.c:320-321 | an instance whose list is below its quorum all through a run never becomes lord |
| LegionDiscovery.GroupForms | dailyfresh/uwsgi-2.0.18/core/legion.c:588-647 | from empty or partial lists, once each instance has taken in a packet of every other member, in any order, every one knows exactly the group |
| LegionDiscovery.ElectedFromNothing | dailyfresh/uwsgi-2.0.18/core/legion.c:266-656 | members that start knowing nobody and hear each other, check, and decide on votes that are not stale end up with exactly the greatest as lord for ever |
| LegionWorld.Converges | dailyfresh/uwsgi-2.0.18/core/legion.c:266-415 | a complete group whose greatest member is no arbiter and not suspended: all check; then each makes a check before which the last packet it took in from each other member was not a stale one, interleaved with anything; then exactly the greatest is lord, and stays it through every later run |
| LegionWorld.LordStays | dailyfresh/uwsgi-2.0.18/core/legion.c:266-415 | no later interleaving of checks, announcements and receipts, old packets of members included, changes who is lord |
| LegionWorld.AllSettle | dailyfresh/uwsgi-2.0.18/core/legion.c:266-297 | after everybody has checked, all vote for the same lord with the same checksum |
| LegionWorld.AllNotice | dailyfresh/uwsgi-2.0.18/core/legion.c:644-647 | whatever is heard last from a peer in a settled group is noted as the right vote, unless it is a stale packet |
| LegionWorld.Decides | dailyfresh/uwsgi-2.0.18/core/legion.c:320-411 | from a check with such packets on, the instance knows rightly whether it is lord |
| LegionWorld.ReactMoves | dailyfresh/uwsgi-2.0.18/core/legion.c:266-415 | what any step does to the instance it belongs to and to the packets about |
| LegionWorld.CheckOutcome | dailyfresh/uwsgi-2.0.18/core/legion.c:266-415 | what a check does to one instance of a complete group |
| LegionWorld.HearOutcome | dailyfresh/uwsgi-2.0.18/core/legion.c:597-647 | what a packet of a member does to one instance |
| LegionWorld.TellOutcome | dailyfresh/uwsgi-2.0.18/core/legion.c:775-856 | what an announcement of a settled instance says |
| LegionWorld.ElectsTop | dailyfresh/uwsgi-2.0.18/core/legion.c:418-476 | every instance of a complete group elects the greatest member, and only that one finds no better peer |
| LegionWorld.SumsAgree | dailyfresh/uwsgi-2.0.18/core/legion.c:246-264 | every instance of a complete group has the checksum of the group |
| LegionRound.RoundElects | dailyfresh/uwsgi-2.0.18/core/legion.c:266-415 | the concrete round - check, announce, hear everybody, check - elects exactly the greatest member for ever, whatever stale packets are about |
| LegionRound.RoundHeard | dailyfresh/uwsgi-2.0.18/core/legion.c:479-656 | in that round everybody hears everybody |
| LegionInstance.Legion.UuidCmp | dailyfresh/uwsgi-2.0.18/core/utils.c:4067-4078 | the first differing character decides |
| LegionInstance.Legion.constructor | dailyfresh/uwsgi-2.0.18/core/legion.c:1066-1155 | no peers, no lord, no checksum |
| LegionInstance.Legion.GetLord | dailyfresh/uwsgi-2.0.18/core/legion.c:418-476 | the loop over the peer list with its running best, and the changed flag |
| LegionInstance.Legion.ComputeChecksum | dailyfresh/uwsgi-2.0.18/core/legion.c:246-264 | the sum over the list, modulo 2^64 |
| LegionInstance.Legion.AddWho | dailyfresh/uwsgi-2.0.18/core/legion.c:246-264 | one member's part of the sum |
| LegionInstance.Legion.CountVotes | dailyfresh/uwsgi-2.0.18/core/legion.c:299-318 | 1 plus the number of peers if all agree on checksum and lord, else 0 |
| LegionInstance.Legion.WithQuorum | dailyfresh/uwsgi-2.0.18/core/legion.c:320-393 | joining, becoming lord, failing a lord hook, ceasing to be lord |
| LegionInstance.Legion.Step2 | dailyfresh/uwsgi-2.0.18/core/legion.c:266-415 | one check of one legion, quorum and 60-second gate included |
| LegionInstance.Legion.Announce | dailyfresh/uwsgi-2.0.18/core/legion.c:775-856 | what goes out, and the end of a suspension |
| LegionInstance.Legion.GetNode | dailyfresh/uwsgi-2.0.18/core/legion.c:183-199 | the first peer with that valor, name and uuid, or none |
| LegionInstance.Legion.Receive | dailyfresh/uwsgi-2.0.18/core/legion.c:597-647 | unknown peers that have a name added with a 16-bit valor, dying ones removed, votes noted |
| OrderModel.Conservation | dailyfresh/apps/order/views.py:122-200 | over every interleaving of any number of commits, from a shop with any earlier orders: stock + sales of each SKU is constant, stock never negative, committed sales growth equals the pieces on the order lines added |
| OrderModel.TotalsMatchLines | dailyfresh/apps/order/views.py:177-197 | every surviving order has total_count and total_price equal to the sums over its own lines, skipped items or not |
| OrderModel.EqualStockMeansEqualSales | dailyfresh/apps/order/views.py:166-170 | testing only the stock is enough: when it is the one read, however long ago, the sales are too |
| OrderModel.RunInv | dailyfresh/apps/order/views.py:122-200 | the invariant of rows, locks, orders and transactions holds in every run |
| OrderModel.StepInv | dailyfresh/apps/order/views.py:122-200 | every step of any commit keeps it |
| OrderAtomic.AbortedLeavesNoTrace | dailyfresh/apps/order/views.py:122-200 | an aborted commit leaves rows, orders, lines and all other commits as in the run in which it never took part |
| OrderAtomic.RunErased | dailyfresh/apps/order/views.py:122-200 | until it commits, nothing a commit does shows in the shop without it |
| OrderAtomic.OwnStep | dailyfresh/apps/order/views.py:122-200 | no step of a commit but its last shows outside |
| OrderAtomic.OtherStep | dailyfresh/apps/order/views.py:122-200 | everybody else does the same with or without it |
| OrderSkipped.CompleteIffNothingGivenUp | dailyfresh/apps/order/views.py:139-175 | the lines in the shop of a committed order are, in order, for the requested items that did not lose their conditional update twice; every requested item has its line if and only if none did |
| OrderSkipped.ItemMissing | dailyfresh/apps/order/views.py:139-175 | a possible run that answers success to a commit whose only item is not in the order: the third-attempt test is never reached |
| OrderSkipped.RunAccounted | dailyfresh/apps/order/views.py:139-191 | in every run the lines of a commit are for the items it has passed and not given up, in order |
| OrderSkipped.RunKept | dailyfresh/apps/order/views.py:177-197 | the lines in the shop of a committed order are those its commit recorded |
| OrderSkipped.LinesComeFromReads | dailyfresh/apps/order/views.py:139-178 | every line in the shop of a committed order has the price of a version of its product that could be read when it was, and the count that was compared with the stock of that version |
| OrderSkipped.AnswerMeans | dailyfresh/apps/order/views.py:139-200 | every answer has its reason in the run: 4 a failed read, 5 all items passed, 6 a row read with less stock than the count, 7 a taken order id or a failure |
| OrderView.Database.Post | dailyfresh/apps/order/views.py:84-206 | the answers 0 to 3 change nothing; 5 means an order whose lines are, in order, for exactly the posted items that did not lose their conditional update twice, at prices and counts of rows read, with the totals of its lines; 4, 6 and 7 leave no trace, and without outside failures 4 means a product that does not exist, 7 a taken order id - with arbitrary steps of other commits in between |
| OrderView.Database.Business | dailyfresh/apps/order/views.py:122-206 | the loops over items and attempts, with the totals kept beside |
| OrderView.Database.Try | dailyfresh/apps/order/views.py:140-191 | one attempt at an item: taken with one line and its totals, lost, or answered |
| OrderView.Database.Get | dailyfresh/apps/order/views.py:141-147 | a committed version of the row, or the own write |
| OrderView.Database.Check | dailyfresh/apps/order/views.py:154-158 | too little stock rolls back |
| OrderView.Database.Update | dailyfresh/apps/order/views.py:166-175 | the conditional update changes and locks the row exactly if the stock is the expected one; what the loss of an attempt does |
| OrderView.Database.AddLine | dailyfresh/apps/order/views.py:177-188 | the line and the totals |
| OrderView.Database.Save | dailyfresh/apps/order/views.py:194-197 | the totals are saved with exactly the recorded lines |
| OrderView.Database.Create | dailyfresh/apps/order/views.py:124-134 | creating the order fails when its id is taken |
| OrderView.Database.Rollback | dailyfresh/apps/order/views.py:143-147 | back to the savepoint |
| OrderView.Database.Others | dailyfresh/apps/order/views.py:122-197 | steps of others never touch this commit |
| OrderView.Database.constructor | dailyfresh/apps/order/views.py:81-84 | a shop with no order under way |
| ChunkedCoding.ChunksComeThrough | dailyfresh/uwsgi-2.0.18/core/chunked.c:86-162 | for every list of non-empty chunks in the coding of section 4.1 of RFC 7230 without extensions and every way the bytes arrive: the results are exactly the chunks in order, then length 0 for ever; once all bytes have arrived every read has a result |
| ChunkedCoding.DecodeEncode | dailyfresh/uwsgi-2.0.18/core/chunked.c:86-162 | such a body means its chunks, whatever trails the last chunk |
| ChunkedCoding.SizeLineRead | dailyfresh/uwsgi-2.0.18/core/chunked.c:56-77 | hexadecimal size lines of either case, leading zeros included, are read as their number and used up exactly |
| ChunkedCoding.HeaderRoundTrip | dailyfresh/uwsgi-2.0.18/core/buffer.c:73-81 | reading the printed size line returns the length and leaves exactly what follows it, if and only if the length is below 2^32 |
| ChunkedCoding.PrintedComesThrough | dailyfresh/uwsgi-2.0.18/core/buffer.c:73-81 | bodies written with the printer come through the reader |
| ChunkedCoding.HexNumber | dailyfresh/uwsgi-2.0.18/core/buffer.c:73-81 | the printed digits are worth the number |
| ChunkedCoding.DroppedLineStalls | dailyfresh/uwsgi-2.0.18/core/chunked.c:63-65 | a size line of 2^63 or more is dropped: a reader that got it all at once has no result, whatever readable follows, while other feedings have one |
| ChunkedCoding.EmptyLineMisread | dailyfresh/uwsgi-2.0.18/core/chunked.c:59-67 | an empty size line before a chunk, received alone, ends the body; received with the chunk it takes its number from the size line behind it, and the first bytes of that line are the result |
| ChunkedCoding.MisreadExample | dailyfresh/uwsgi-2.0.18/core/chunked.c:59-67 | the stream CR LF 5 CR LF hello CR LF, which two feedings read differently |
| ChunkedCoding.StallExample | dailyfresh/uwsgi-2.0.18/core/chunked.c:127-131 | the size 2^64-2 is taken for an incomplete line: a stream that stalls |
| ChunkedModel.ReadDelivers | dailyfresh/uwsgi-2.0.18/core/chunked.c:86-162 | however a read is fed and whatever lies in memory, where no empty size line with three bytes behind it is due: a chunk is the next one of the stream, an empty result its end mark, and no result changes nothing of what is to come - but for the end mark, if an empty size line is due |
| ChunkedModel.LineStable | dailyfresh/uwsgi-2.0.18/core/chunked.c:56-77 | bytes after a size line do not change where it ends nor, unless it is empty, its number |
| ChunkedModel.StrtoulStops | dailyfresh/uwsgi-2.0.18/core/chunked.c:62-65 | given the whole buffer and the memory behind it, strtoul stops at the CR of a size line that is not empty |
| ChunkedRuns.ReadsInOrder | dailyfresh/uwsgi-2.0.18/core/chunked.c:86-162 | for any stream without such a line the results are its chunks in order and then, past an end mark, empty |
| ChunkedRuns.SplitIndependent | dailyfresh/uwsgi-2.0.18/core/chunked.c:86-162 | two ways of feeding such a stream give the same results |
| ChunkedRuns.AgreeIffOrderly | dailyfresh/uwsgi-2.0.18/core/chunked.c:56-162 | all ways of feeding a stream agree, whatever lies in memory, if and only if no empty line with three bytes behind it stands where a size line is due |
| ChunkedRuns.ReliableIffSteady | dailyfresh/uwsgi-2.0.18/core/chunked.c:56-162 | all ways of feeding a stream agree and none that has run dry is behind another, if and only if no empty line stands where a size line is due and nothing readable follows a size line of 2^63 or more |
| ChunkedRuns.AllDelivered | dailyfresh/uwsgi-2.0.18/core/chunked.c:86-162 | then a feeding that has run dry has had all chunks of the stream |
| ChunkedInput.Buffer.constructor | dailyfresh/uwsgi-2.0.18/core/buffer.c:5-17 | an empty buffer |
| ChunkedInput.Buffer.Grow | dailyfresh/uwsgi-2.0.18/core/buffer.c:43-49 | reallocation keeps the contents, or fails and changes nothing |
| ChunkedInput.Buffer.Ensure | dailyfresh/uwsgi-2.0.18/core/buffer.c:34-52 | room for the bytes asked for, contents kept (no limit) |
| ChunkedInput.Buffer.Append | dailyfresh/uwsgi-2.0.18/core/buffer.c:99-125 | the bytes are appended, or nothing changes |
| ChunkedInput.Buffer.Decapitate | dailyfresh/uwsgi-2.0.18/core/buffer.c:84-89 | the first bytes are dropped, or nothing changes when there are fewer |
| ChunkedInput.Buffer.AppendChunked | dailyfresh/uwsgi-2.0.18/core/buffer.c:73-81 | the size line is appended |
| ChunkedInput.Buffer.Readline | dailyfresh/uwsgi-2.0.18/core/chunked.c:56-77 | -2, -1 or the number, and the line dropped exactly when there is one; the number of an empty line comes from what is behind it, down to the memory behind the contents |
| ChunkedInput.Request.constructor | dailyfresh/uwsgi-2.0.18/core/chunked.c:88-91 | nothing read yet |
| ChunkedInput.Request.Recv | dailyfresh/uwsgi-2.0.18/core/chunked.c:20-54 | some of the outstanding bytes behind the contents, within the free part of the buffer |
| ChunkedInput.Request.Receive | dailyfresh/uwsgi-2.0.18/core/chunked.c:105-119 | room, a receive and what is still needed |
| ChunkedInput.Request.ParseFrame | dailyfresh/uwsgi-2.0.18/core/chunked.c:121-160 | the parser's answer, or how many bytes it needs |
| ChunkedInput.Request.Read | dailyfresh/uwsgi-2.0.18/core/chunked.c:86-162 | one read over the growable buffer does what the incremental reader on values does with what its receives brought; it has no result only if a receive brought nothing, there was no memory, or the size line is none or too large |
| AsyncModel.ExpiredMeans | dailyfresh/uwsgi-2.0.18/core/async.c:138-164 | after expiry no timer is due; every request whose timer fired is flagged, waits on nothing, is in no table entry and exactly once in the run queue; all others are untouched |
| AsyncModel.ExpireDoes | dailyfresh/uwsgi-2.0.18/core/async.c:138-164 | expiry ends, and its whole effect at once, the order of the queue included |
| AsyncModel.AddFdInvIff | dailyfresh/uwsgi-2.0.18/core/async.c:166-203 | waiting on a descriptor keeps the table right if and only if no other request waits on it |
| AsyncModel.SharedFdLost | dailyfresh/uwsgi-2.0.18/core/async.c:119-136 | resetting a request takes away another one's table entry exactly when they share a descriptor |
| AsyncModel.SharedFdForgets | dailyfresh/uwsgi-2.0.18/core/async.c:119-203 | two waits on one descriptor and a reset of the first lead to a request that waits but that nothing in the hub leads to |
| AsyncModel.NeverWoken | dailyfresh/uwsgi-2.0.18/core/async.c:56-311 | no event, no expiry and nothing any other request does ever wakes it |
| AsyncModel.StepInv | dailyfresh/uwsgi-2.0.18/core/async.c:56-311 | every operation keeps timers, table and queue consistent |
| AsyncModel.RunAll | dailyfresh/uwsgi-2.0.18/core/async.c:408-603 | so does every sequence of operations |
| AsyncModel.ResetInv | dailyfresh/uwsgi-2.0.18/core/async.c:119-136 | a reset |
| AsyncModel.AddTimeoutInv | dailyfresh/uwsgi-2.0.18/core/async.c:258-271 | a new timer, at most one for each request |
| AsyncModel.ReadyInv | dailyfresh/uwsgi-2.0.18/core/async.c:561-575 | a ready descriptor |
| AsyncModel.TimeoutWakes | dailyfresh/uwsgi-2.0.18/core/async.c:258-271 | a request without a timer is woken by an expiry at t exactly if t >= now + timeout; one with a timer, and every other request, exactly when it would have been |
| AsyncModel.WaitWakes | dailyfresh/uwsgi-2.0.18/core/async.c:166-203 | the same for a wait on a descriptor, which is entered for the request and only for it |
| AsyncModel.ReadyMeans | dailyfresh/uwsgi-2.0.18/core/async.c:561-575 | the request is told which descriptor is ready, waits on nothing, has no timer and is queued once; all others keep fields, timers, entries and places |
| AsyncModel.InsertPlace | dailyfresh/uwsgi-2.0.18/core/async.c:258-271 | timers fire in order of their times, equal ones as they were added |
| AsyncModel.DequeueInv | dailyfresh/uwsgi-2.0.18/core/async.c:56-77 | removal from the run queue takes exactly that request |
| AsyncModel.FireEffect | dailyfresh/uwsgi-2.0.18/core/async.c:150-158 | one firing |
| AsyncLoop.Loop.Expire | dailyfresh/uwsgi-2.0.18/core/async.c:138-164 | the loop on the linked run queue, ended by the timers themselves |
| AsyncLoop.Loop.FireFirst | dailyfresh/uwsgi-2.0.18/core/async.c:150-158 | flagged, reset and queued |
| AsyncLoop.Loop.Push | dailyfresh/uwsgi-2.0.18/core/async.c:79-104 | appended at the end unless already there, links intact |
| AsyncLoop.Loop.Append | dailyfresh/uwsgi-2.0.18/core/async.c:88-103 | the new last node |
| AsyncLoop.Loop.Remove | dailyfresh/uwsgi-2.0.18/core/async.c:56-77 | exactly that node leaves the doubly linked list |
| AsyncLoop.Loop.Reset | dailyfresh/uwsgi-2.0.18/core/async.c:119-136 | no timer, no descriptors, their table entries cleared |
| AsyncLoop.Loop.ClearAll | dailyfresh/uwsgi-2.0.18/core/async.c:126-133 | the loop over the descriptors |
| AsyncLoop.Loop.SetTimeout | dailyfresh/uwsgi-2.0.18/core/async.c:258-271 | a timer at now plus the timeout, unless there is one; what that means for expiry is TimeoutWakes |
| AsyncLoop.Loop.AddFd | dailyfresh/uwsgi-2.0.18/core/async.c:166-203 | a negative descriptor is refused; otherwise it is waited on |
| AsyncLoop.Loop.Ready | dailyfresh/uwsgi-2.0.18/core/async.c:561-575 | the request waiting on a ready descriptor is reset and queued |
| AsyncLoop.Loop.constructor | dailyfresh/uwsgi-2.0.18/core/async.c:30-46 | an idle hub |
| SockBuff.RefinesDirectWriting | dailyfresh/uwsgi-2.0.18/apache2/mod_Ruwsgi.c:198-251 | after any successful writes and flushes, what was sent followed by what is held is all that was written, in order, and the buffer is never full |
| SockBuff.WriteHolds | dailyfresh/uwsgi-2.0.18/apache2/mod_Ruwsgi.c:234-251 | a write that leaves the buffer short of full sends nothing; any other sends what was held and all full blocks and holds less than a block; a flush holds nothing back |
| SockBuff.Buffer.Send | dailyfresh/uwsgi-2.0.18/apache2/mod_Ruwsgi.c:214-216 | one send and its answer |
| SockBuff.Buffer.constructor | dailyfresh/uwsgi-2.0.18/apache2/mod_Ruwsgi.c:204-208 | nothing held |
| SockBuff.Buffer.SendAll | dailyfresh/uwsgi-2.0.18/apache2/mod_Ruwsgi.c:210-221 | with arbitrary partial sends everything goes out; an error is returned exactly if a send answers it, is the last answer, and leaves a prefix sent |
| SockBuff.Buffer.BFlush | dailyfresh/uwsgi-2.0.18/apache2/mod_Ruwsgi.c:223-232 | everything held goes out; an error is that of a send, all is still held and a prefix has gone |
| SockBuff.Buffer.BWrite | dailyfresh/uwsgi-2.0.18/apache2/mod_Ruwsgi.c:234-251 | the buffered write; its inner assertion holds; an error is that of a send, and what has gone out is then a prefix of what should have |
| SockBuff.Buffer.SendBlocks | dailyfresh/uwsgi-2.0.18/apache2/mod_Ruwsgi.c:239-243 | the full blocks go out directly |
| SockBuff.Buffer.Hold | dailyfresh/uwsgi-2.0.18/apache2/mod_Ruwsgi.c:246-248 | the rest is copied behind what is held |

## Left out

* Cache MATH flags, `num2` and `get4`, the counters hits, miss, full and last_modified, and logging.
* Cache UDP and remote commands, node sync, preloaded files and mmap store files: network and file I/O.
* The hash algorithms `random` and `rr`, which are not functions of the key.
* The cache plugin clears up to `uwsgi.caches->max_items`, the size of the first cache; the model clears the whole cache it is called on.
* Free runs that straddle the cursor of the block search can be missed by the code; nothing is claimed about them.
* Rebuilding LRU or bitmap caches: `uwsgi_cache_fix` restores neither structure.
* The sweeper bound with `sweep_on_full`, absolute expiries, or an expiry that overflows to 0; relative expiry together with `purge_lru`, which the code does not make absolute.
* Legion: encryption, sockets, pids, scrolls, hooks other than a failing lord hook, removal of silent peers (`legions_check_nodes`) and safety under message loss, which stale votes and the 60-second gate do not give.
* LegionWorld.Converges: lord hooks are taken to succeed, and a stale vote taken in last from some peer delays the election until a later packet and check.
* LegionDiscovery.GroupForms: valors are below 2^16 and names not empty, as the list requires.
* A new sender without a name is not listed, and the code then goes on with the lock of the list held; locks are not part of this model.
* LegionInstance.Legion.ComputeChecksum: characters of a uuid are taken as nonnegative; sign extension of other bytes is not modelled.
* OrderModel.Conservation: earlier orders are taken to have totals that fit their lines, and nobody to be under way at the start.
* Order side: rendering, Redis clean-up of the cart, payment, price and stock changes by the administration, the freight price, and the user's address and payment data, which appear only as accepted or not.
* OrderView.Database.Others: a wait for a row lock is any number of steps of others; a wait that outlasts them ends in an error.
* ChunkedInput.Buffer.Ensure: buffer limits (`limit` > 0) and sizes that overflow 64 bits are not modelled.
* ChunkedInput.Request.constructor: the buffer is allocated with the request, not on the first read.
* Chunk extensions, which the reader refuses, and the two bytes after a chunk, which it does not look at.
* AsyncLoop.Loop.AddFd: the kernel's event queue is not modelled, its answer is arbitrary; the descriptor is below the table size.
* The timer tree's balance: timers are its nodes in order. Waiting descriptors are a list value.
* The event loop's scheduling of requests, new connections and protocol parsing.
* SockBuff.Buffer.SendAll: a successful send takes at least one byte; with successful sends of 0 bytes the loop in C would not end.
