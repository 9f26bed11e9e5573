# A verified model of the RocksDB block cache

This project models the block cache of RocksDB 9.8.4 (`rocksdb-9.8.4/cache`) in Dafny and proves what it
relies on: that splitting and purging live hash chains loses no entry, that the reference protocol of a slot
never frees data in use, that stopping a probe early misses nothing, that every byte of usage is accounted
for, and that the LRU cache and the memory budgets keep their books.

`dafny verify dfyconfig.toml` checks the whole project.

## How to read it

* **Linear hashing and chains** (`Bits`, `LinearHashing`, `ChainLinks`, `ChainSides`, `ChainSplit`,
  `ChainPurge`, `ChainLookup`, `LookupRuns`, `LookupGap`, `QuickAttempt`, `LookupMiss`, `MissRun`, `PurgeLookup`,
  `SlotSearch`, `AutoTable`, `AutoEvict`): the growable clock table. Heads and chain pointers are mutable state;
  a pointer is an index, a shift, an end flag and a lock flag. The two rewrites of a live chain, the split for
  growth and the purge, are imperative code with one store at a time. Between two stores a method stands for
  the other threads (`Yield`, `Others`): it links any of the slots in `inflight` onto the heads, in any order,
  and changes metadata in any way the slot protocol allows. Its precondition is the safety property, so that
  property is proved at every point where another thread can run. A lookup takes no lock and reads one pointer at a
  time, first in a quick attempt and then in a full walk: `ChainLookup` to `MissRun` let it run beside the split of its
  chain, step by step in every interleaving, and `PurgeLookup` beside purges that free its slots for other chains.
  `AutoTable` puts the pieces together for one thread: insert, lookup, release, erase, evict and grow on the same
  memory. `AutoEvict` adds its eviction clock, and the whole insert that first grows the table, then evicts, then
  searches.
* **Slots and counters** (`SlotMeta`, `SlotProtocol`, `SlotWords`, `SlotOutcomes`, `UsageLedger`, `LedgerOutcomes`,
  `Totals`): the metadata word, and two transition systems with any number of threads whose steps are the atomic
  operations of the code. `SlotWords` shows that the first does on fields what the code does on the 64-bit word. The two
  modules of outcomes say what whole operations come to, without interruption and with it.
* **The fixed-size clock table** (`HashedKeys`, `ProbePath`, `ClockVisits`, `FixedTable`): open addressing with
  displacement counters, and the eviction clock.
* **The LRU cache** (`LruTable`, `LruScan`, `LruList`, `LruShard`): the resizing hash table, scanning it in pieces,
  the doubly linked list with its three pools, and the shard that ties them together.
* **Budgets** (`Reservation`, `TieredBudget`, `Chunks`): reservations by dummy entries, the budget shared by a
  primary and a secondary cache, and the chunks of the compressed cache.

Five results say that the code does not do what one might expect, and when it does:

* A lookup is meant to see every entry that stays on its chain. While the chain is being split it can miss one that is
  visible all along (`MissRun.MissedDuringSplit`, with twelve entries on the chain): the quick attempt gives up after ten
  slots; then the full walk goes from an entry of the other half, whose pointer was upgraded under it, on to an entry
  that is being destroyed, whose key it may not read, and so past its own. Some interleaving misses if and only if, after
  some of the inserts that are under way, every visible entry with the key lies between two neighbouring entries of the
  other half, of which the second is being destroyed, behind some entry of its own half, and has ten slots in front
  (`MissRun.MissIff`; `MissRun.MissIffAlone` without inserts). Nothing is missed if no entry of the other half is being
  destroyed (`LookupRuns.NothingMissed`), nor beside purges alone (`PurgeLookup.NothingMissed`).
* An eviction of the growable table is meant to circle through the whole structure, four times, before it gives up.
  Going on to its limit, it passes every home four times if and only if the table has not grown since the insert
  remembered its length, and the clock's mask is not that of a smaller table or the clock stands at the beginning of a
  turn (`AutoEvict.EveryHomeIff`). Heads opened in between are not passed at all. With the mask of a smaller table, in
  the middle of a turn, the first home is passed at most twice, and entries there that could have been evicted stay
  (`AutoEvict.StaleKeeps`); such a mask comes about by evicting once and then growing (`AutoEvict.StaleMaskIsReached`).
* Correcting counters near overflow also fires when only bit 2 of the release counter is set. It keeps the number of
  references if and only if it does not fire or the two top bits agree (`SlotMeta.CorrectionKeepsRefs`). With two
  references on an entry that was acquired 2^29 times, the next release loses 2^29 (`SlotMeta.CorrectionCanLoseRefs`).
* A new budget for the tiered cache that does not cover the placeholders breaks the books unless it is safe in
  a sense that can be tested before (`TieredBudget.TieredCache.SetCapacity`, `TieredBudget.HalvingBreaks`).
* Usage is within capacity in every state of every run if and only if the strict limit is set and the table's own
  charge fits (`UsageLedger.LimitIff`).

Where code and comments differ the model follows the code: a purge that starts over gives the entry it stood on a
second clock update, although the comment there rules duplicates out; a lookup can miss an entry during a split, although
the comments before it say how it would not; `ApplyToAllEntries` cuts the number of entries
per lock to at most one; and setting the capacity of an LRU shard does not move the ends of its pools.

## Model

| member | source | states |
|---|---|---|
| `LinearHashing.LengthInfoRoundTrip` | rocksdb-9.8.4/cache/clock_cache.cc:1698-1728 | for every length from 2 up to 64 bits, encoding and decoding give back the length, the minimum shift is its floor-log2 and the threshold the rest |
| `LinearHashing.LengthInfoInverse` | rocksdb-9.8.4/cache/clock_cache.cc:1698-1728 | for every well-formed word, decoding and encoding give back the word |
| `LinearHashing.HomeIndexInRange` | rocksdb-9.8.4/cache/clock_cache.cc:1740-1752 | every hash has a home below the used length, and the shift of that head selects it |
| `LinearHashing.HomeIndexUnique` | rocksdb-9.8.4/cache/clock_cache.cc:1740-1752 | the bits that a head uses name that head if and only if it is the home |
| `LinearHashing.GrowShifts` | rocksdb-9.8.4/cache/clock_cache.cc:2197-2202 | opening one more head gives one more hash bit to the split head and the new head and to no other |
| `LinearHashing.GrowMovesOnlySplitHome` | rocksdb-9.8.4/cache/clock_cache.cc:2197-2202 | growing by one changes only the homes of hashes at the split head; each stays or goes to the new slot by its next bit |
| `LinearHashing.FallForward` | rocksdb-9.8.4/cache/clock_cache.cc:3033-3059 | on the way from the home under an older length to the present one, bit by bit, every head in between is in use and has a larger shift |
| `ChainLinks.LinkWordRoundTrip` | rocksdb-9.8.4/cache/clock_cache.cc:1754-1773 | the packed pointer keeps index, shift and flags, and adding one raises the shift alone |
| `ChainSides.SideAdvance` | rocksdb-9.8.4/cache/clock_cache.cc:2621-2626 | pointing the last upgraded entry of a chain at the next one for the same chain keeps all its entries, in order, while those of the other chain are skipped |
| `ChainSides.SideReaches` | rocksdb-9.8.4/cache/clock_cache.cc:2309-2637 | every own entry of a chain in the middle of a split is some number of hops from its head |
| `ChainSplit.HeadReachesOwn` | rocksdb-9.8.4/cache/clock_cache.cc:2309-2637 | in every state where another thread may run, each entry is reached from the head that its hash selects at the new shift |
| `ChainSplit.BigStep` | rocksdb-9.8.4/cache/clock_cache.cc:2508-2531 | after the swap of the old head both heads reach all entries of their own home |
| `ChainSplit.ChainArray.LinkAtHead` | rocksdb-9.8.4/cache/clock_cache.cc:3033-3088 | an insert that knows an older home finds the current one bit by bit and links the slot in front, keeping a lock on the head |
| `ChainSplit.ChainArray.Yield` | rocksdb-9.8.4/cache/clock_cache.cc:3033-3088 | inserts by other threads, in any number and order, keep the split safe, lose nothing and only add in front |
| `ChainSplit.ChainArray.UpgradeShiftsOnRange` | rocksdb-9.8.4/cache/clock_cache.cc:1825-1854 | the pointers from the frontier to the stop get the new shift one store at a time; the split stays safe after each |
| `ChainSplit.ChainArray.FindFrontiers` | rocksdb-9.8.4/cache/clock_cache.cc:2450-2500 | the first entry for each target chain, or none, and which comes first |
| `ChainSplit.ChainArray.UpdateHeads` | rocksdb-9.8.4/cache/clock_cache.cc:2442-2539 | the swap of the heads is repeated until no insert gets in between; what was inserted meanwhile is part of what is split |
| `ChainSplit.ChainArray.SplitForGrow` | rocksdb-9.8.4/cache/clock_cache.cc:2309-2637 | both heads end up listing exactly their own entries, at the new shift, in the old order behind later inserts, each ending at its own head; undisturbed the result is the old chain split by the next hash bit; nothing else changes |
| `SlotMeta.VisitsCountDown` | rocksdb-9.8.4/cache/clock_cache.cc:98-163 | an unpinned visible entry with countdown c survives min(c, 3) visits, counting down, and is taken by the next |
| `SlotMeta.PackRoundTrip` | rocksdb-9.8.4/cache/clock_cache.h:143-185 | state, counters and hit bit can be read back from the word |
| `SlotMeta.AcquireIsFieldwise` | rocksdb-9.8.4/cache/clock_cache.cc:831-891 | a fetch-add on the acquire counter changes that field alone if and only if it does not overflow |
| `SlotMeta.ReleaseIsFieldwise` | rocksdb-9.8.4/cache/clock_cache.cc:893-966 | a fetch-add on the release counter changes that field alone if and only if it does not overflow |
| `SlotMeta.UnrefIsFieldwise` | rocksdb-9.8.4/cache/clock_cache.cc:89-96 | taking back references changes the acquire counter alone |
| `SlotMeta.RefcountOfWord` | rocksdb-9.8.4/cache/clock_cache.cc:42-46 | the masked difference of the counters is the number of references held |
| `SlotMeta.OccupyWord` | rocksdb-9.8.4/cache/clock_cache.cc:238-254 | the fetch-or takes an empty slot into construction and changes no other state |
| `SlotMeta.HideWord` | rocksdb-9.8.4/cache/clock_cache.cc:3335-3350 | the fetch-and hides a visible entry and changes no other state |
| `SlotMeta.CorrectionIsIdle` | rocksdb-9.8.4/cache/clock_cache.cc:219-236 | on a word below the top bits the correction changes nothing, whatever word was tested |
| `SlotMeta.CorrectionKeepsRefs` | rocksdb-9.8.4/cache/clock_cache.cc:219-236 | for any tested and any present word, the correction keeps the number of references if and only if it does not fire or the two top bits of the present word agree |
| `SlotMeta.CorrectionCanLoseRefs` | rocksdb-9.8.4/cache/clock_cache.cc:219-236 | an entry with two references, acquired 2^29 times in all, of which one is released: the correction leaves one less 2^29 |
| `SlotProtocol.InvKept` | rocksdb-9.8.4/cache/clock_cache.h:143-185 | every atomic step of every thread keeps the invariant of the slot |
| `SlotProtocol.EveryRunIsSafe` | rocksdb-9.8.4/cache/clock_cache.h:143-185 | in every interleaving: under construction there is one owner and no reference, empty there is neither, otherwise no owner and acquire minus release is the references held |
| `SlotProtocol.DataIsStable` | rocksdb-9.8.4/cache/clock_cache.h:143-185 | while a thread holds a reference, over any stretch of any run, the data neither changes nor is freed |
| `SlotProtocol.OwnerIsAlone` | rocksdb-9.8.4/cache/clock_cache.h:143-185 | an owner excludes every reference and every other owner |
| `SlotProtocol.StateDiagram` | rocksdb-9.8.4/cache/clock_cache.h:164-185 | only the documented changes of state happen, and only by who may make them; a slot is taken only with no reference but the taker's |
| `SlotProtocol.AssertionsHold` | rocksdb-9.8.4/cache/clock_cache.cc:893-966 | what the code asserts about counts and states when it gives back references and stores holds in every interleaving |
| `SlotProtocol.QuietSlot` | rocksdb-9.8.4/cache/clock_cache.h:143-185 | when nobody is at work and no handle is out, the slot is empty or holds an intact, unpinned entry |
| `SlotOutcomes.Alone` | rocksdb-9.8.4/cache/clock_cache.cc:831-1056 | every operation done without interruption, in every state that can be reached and whatever references others hold: its steps can be taken, the slot is left as the sequential operation of the tables leaves it, and no other thread is touched |
| `SlotOutcomes.InsertAlone` | rocksdb-9.8.4/cache/clock_cache.cc:238-330 | an empty slot ends up visible with the entry, the countdown and the reference asked for; one that is not empty is left alone |
| `SlotOutcomes.PassAlone` | rocksdb-9.8.4/cache/clock_cache.cc:831-883 | a lookup or insert that finds another key, or an invisible entry, leaves no trace |
| `SlotOutcomes.ReleaseAlone` | rocksdb-9.8.4/cache/clock_cache.cc:893-966 | the last reference of an invisible entry, or of any if erasure is asked for, frees the data and empties the slot; any other release only gives the reference back |
| `SlotOutcomes.EraseAlone` | rocksdb-9.8.4/cache/clock_cache.cc:3335-3382 | the only holder frees the data and empties the slot; otherwise the entry is hidden and the reference given back |
| `SlotOutcomes.VisitAlone` | rocksdb-9.8.4/cache/clock_cache.cc:98-163 | a visit of the clock counts down, or takes the entry and empties the slot |
| `SlotOutcomes.HandedOutWasVisible` | rocksdb-9.8.4/cache/clock_cache.cc:831-891 | in every run, an entry whose key a lookup compares was visible when it took its reference, and is the one it reads and hands out |
| `SlotOutcomes.ReleaseGivesUp` | rocksdb-9.8.4/cache/clock_cache.cc:915-961 | in every run, a release that asked for ownership and gave up did so because at some time during the call there was another reference or the entry was owned or gone |
| `SlotOutcomes.EraseGivesUp` | rocksdb-9.8.4/cache/clock_cache.cc:3352-3382 | in every run, an erase that gave up met another reference at some time during the call |
| `SlotWords.StepOnWord` | rocksdb-9.8.4/cache/clock_cache.cc:42-254 | in every state that can be reached, each atomic step of the protocol is the arithmetic or bit operation of the code on the packed word |
| `SlotWords.RunOnWord` | rocksdb-9.8.4/cache/clock_cache.cc:42-254 | every run of the protocol, from the empty slot on, is a run of the code on 64-bit words, and the fields can be read back from each |
| `ChainPurge.SlotStates.Visit` | rocksdb-9.8.4/cache/clock_cache.cc:98-163 | after what other threads did, a visit is at most one clock update, and it reports the entry if and only if it took it; it purges only what is being destroyed; undisturbed it is exactly one clock update |
| `ChainPurge.SlotStates.Relink` | rocksdb-9.8.4/cache/clock_cache.cc:2715-2750 | linking around dropped entries keeps all others reachable; the swap of the head fails only if entries were pushed |
| `ChainPurge.SlotStates.PurgeImplLocked` | rocksdb-9.8.4/cache/clock_cache.cc:2650-2772 | under any pushes and metadata changes: no shareable entry is dropped, nothing that was being destroyed stays, order is kept; of the entries taken for destruction meanwhile, exactly those that no other thread took are reported, once each; undisturbed it is a filter with one clock update each, and counts the pinned entries |
| `ChainLookup.OwnLink` | rocksdb-9.8.4/cache/clock_cache.cc:3195-3262 | in every state of a split, the pointer of an entry leads on along the old chain or along its own, and its shift says which |
| `ChainLookup.HopKeeps` | rocksdb-9.8.4/cache/clock_cache.cc:3178-3325 | one step of a lookup in any state of a split keeps everything looked for ahead, finds only what has the key and ends only if nothing is left, if and only if it does not slip past a wanted entry |
| `ChainLookup.FallsBackOnOwn` | rocksdb-9.8.4/cache/clock_cache.cc:3264-3325 | whatever pointer led to an entry, upgraded or not, the lookup falls back on it if and only if it is an entry of the home looked up |
| `LookupRuns.OthersKeepFine` | rocksdb-9.8.4/cache/clock_cache.cc:2309-2637 | every insert, every store of the splitting thread and whatever happens to the rest of the memory leads from a whole chain or a state of the split to another one, in which the chain has only grown in front |
| `LookupRuns.OldHop` | rocksdb-9.8.4/cache/clock_cache.cc:3195-3262 | a full walk that goes by the old number of hash bits misses nothing: it goes on along the old chain, or starts over with one bit more |
| `LookupRuns.NothingMissed` | rocksdb-9.8.4/cache/clock_cache.cc:3091-3325 | in every interleaving with inserts, metadata changes and the split, from before the heads change on, an entry with the key that was there and visible all along is not missed, if no entry of the other half is being destroyed during the split |
| `LookupRuns.NothingMissedAtRest` | rocksdb-9.8.4/cache/clock_cache.cc:3091-3325 | nor is it missed, whatever is being destroyed, while the splitting thread rests |
| `LookupRuns.LookupInSplit` | rocksdb-9.8.4/cache/clock_cache.cc:3144-3325 | in every state of a split, a lookup that is left alone, quick attempt and full walk, ends, and finds an entry if and only if a visible one on its chain has the key |
| `QuickAttempt.QuickHopInv` | rocksdb-9.8.4/cache/clock_cache.cc:3144-3181 | when the quick attempt gives up without an entry, it looked at ten slots in front of it or the split is past the entry |
| `LookupMiss.LostOrWatched` | rocksdb-9.8.4/cache/clock_cache.cc:3144-3325 | in every state of every run a visible entry is still ahead of the lookup, or lies in a gap and has ten slots in front |
| `MissRun.MissedDuringSplit` | rocksdb-9.8.4/cache/clock_cache.cc:3091-3120 | a chain of twelve entries and their metadata for which an interleaving misses an entry that is visible all along |
| `MissRun.MissIff` | rocksdb-9.8.4/cache/clock_cache.cc:3091-3325 | for every chain, its metadata and the inserts under way, some interleaving of a lookup with inserts and the split misses if and only if some of the inserts put every visible entry with the key in a gap behind ten slots |
| `MissRun.MissIffAlone` | rocksdb-9.8.4/cache/clock_cache.cc:3091-3325 | without inserts: if and only if every visible entry with the key lies in a gap and has ten slots in front |
| `MissRun.Reach` | rocksdb-9.8.4/cache/clock_cache.cc:2541-2637 | by the stores of the splitting thread, always on the target chain that is behind, both chains come to end at two given neighbours of the old chain |
| `PurgeLookup.NothingMissed` | rocksdb-9.8.4/cache/clock_cache.cc:3091-3325 | in every interleaving with purges, inserts into any chain and slots used again, a lookup does not miss an entry that is visible on its chain from when it began, and finds only what has the key |
| `SlotSearch.IncrementInRange` | rocksdb-9.8.4/cache/clock_cache.cc:2975-2985 | with at least 4 slots the golden-ratio step is positive and less than the table |
| `SlotSearch.EverySlot` | rocksdb-9.8.4/cache/clock_cache.cc:2985-3031 | as many rounds as the common factor of step and length, each starting one slot further on, cover every slot |
| `SlotSearch.GoldenSearch` | rocksdb-9.8.4/cache/clock_cache.cc:2985-3031 | the search ends, and gives up only after every slot of the old length was tried, even if it reads the length again and finds the table grown |
| `SlotSearch.Search` | rocksdb-9.8.4/cache/clock_cache.cc:2916-3031 | a slot returned is free, a match has the key, giving up means there is neither within the old length; the home slot has priority, then a free likely slot, then the nearest of the four next to home; a likely slot with the key is noted and the search goes on |
| `AutoTable.GrowableTable.constructor` | rocksdb-9.8.4/cache/clock_cache.cc:1971-2040 | a new table is well formed and empty |
| `AutoTable.PopulateHeads` | rocksdb-9.8.4/cache/clock_cache.cc:1995-2040 | every head in use is an empty chain with the shift that linear hashing gives it |
| `AutoTable.OneChain` | rocksdb-9.8.4/cache/clock_cache.cc:2042-2113 | a slot is on the chain of a head if and only if it holds an entry with that home, so each entry is on exactly one chain |
| `AutoTable.GrowableTable.FullLookup` | rocksdb-9.8.4/cache/clock_cache.cc:3160-3325 | the walk with its read reference ends with at most the found entry referenced, and without one only if the chain has none |
| `AutoTable.GrowableTable.Lookup` | rocksdb-9.8.4/cache/clock_cache.cc:3091-3325 | a handle is returned if and only if some visible entry has the key; its reference count is up by one and no other changed |
| `AutoTable.GrowableTable.Insert` | rocksdb-9.8.4/cache/clock_cache.cc:2873-3088 | with the length the insert remembered and any present one: the new entry is in a slot that was free and in front of the chain of its present home, or an entry with the key was boosted, or no slot of the old length is free or has the key; home and likely slot have priority, and a match in the likely slot is boosted besides, exactly if the search came by |
| `AutoTable.WayForward` | rocksdb-9.8.4/cache/clock_cache.cc:3033-3059 | in every well-formed table the heads on the way from the remembered home to the present one all carry larger shifts, and the present one its own |
| `AutoTable.GrowableTable.Grow` | rocksdb-9.8.4/cache/clock_cache.cc:2181-2256 | one more head, the index right again, no entry changed |
| `AutoTable.GrowableTable.Release` | rocksdb-9.8.4/cache/clock_cache.cc:3384-3419 | the reference is given back; the entry is freed exactly if it was the last one and the entry is invisible or erasure was asked for |
| `AutoTable.GrowableTable.TryEraseHandle` | rocksdb-9.8.4/cache/clock_cache.cc:3335-3382 | the entry is freed exactly if nobody but the caller refers to it, otherwise at most hidden |
| `AutoTable.GrowableTable.Erase` | rocksdb-9.8.4/cache/clock_cache.cc:3433-3445 | no visible entry has the key any more; each that had is freed, or hidden if referenced; no other entry changed |
| `AutoTable.GrowableTable.EraseUnRefEntries` | rocksdb-9.8.4/cache/clock_cache.cc:3447-3468 | exactly the entries without references are gone |
| `AutoEvict.TimesIsCount` | rocksdb-9.8.4/cache/clock_cache.cc:3506-3534 | once the mask is that of the table, the stepped clock passes each home as an ordinary clock over groups of four homes does |
| `AutoEvict.EveryHomeIff` | rocksdb-9.8.4/cache/clock_cache.cc:3498-3562 | a run to its limit passes every home of the table four times if and only if the table has not grown since its length was remembered and the mask is not that of a smaller table or the clock stands at the beginning of a turn |
| `AutoEvict.LargerVisits` | rocksdb-9.8.4/cache/clock_cache.cc:3508-3518 | with the mask of a larger table than the one remembered, every home is still passed four times |
| `AutoEvict.StaleVisits` | rocksdb-9.8.4/cache/clock_cache.cc:3508-3518 | with the mask of a smaller table, in the middle of a turn, a run to its limit passes the first home at most twice |
| `AutoEvict.StaleKeeps` | rocksdb-9.8.4/cache/clock_cache.cc:3508-3518 | then an unpinned visible entry of the first home with countdown 2 or more is still there |
| `AutoEvict.StaleMaskIsReached` | rocksdb-9.8.4/cache/clock_cache.cc:3487-3518 | a new table, one eviction and eight growths lead to a clock in the middle of a turn with the mask of a smaller table |
| `AutoEvict.EvictionClock.Grow` | rocksdb-9.8.4/cache/clock_cache.cc:2181-2256 | growth keeps table and clock well formed; the clock does not move |
| `AutoEvict.EvictionClock.Step` | rocksdb-9.8.4/cache/clock_cache.cc:3520-3534 | exactly the homes below the remembered length that are due get one clock update for each entry, each home once; others none |
| `AutoEvict.EvictionClock.Evict` | rocksdb-9.8.4/cache/clock_cache.cc:3470-3569 | the index stays right; each entry got as many clock updates as its home was passed; freed charge, freed and pinned entries are counted exactly; it stops with the first step that freed enough, or that met as many pinned entries as the cap allows for each one freed and once more; falling short otherwise, with a mask that does no harm, leaves nothing unpinned at the homes remembered and entries of later homes untouched; with nothing pinned it never stops for effort |
| `AutoEvict.LimitIsLoad` | rocksdb-9.8.4/cache/clock_cache.cc:1856-1859 | an occupancy is within the limit if and only if one less is under three fifths of the heads in use |
| `AutoEvict.EvictionClock.GrowIfNeeded` | rocksdb-9.8.4/cache/clock_cache.cc:2147-2179 | as many heads are opened as the occupancy needs and no more, or all there are; it fails exactly if those are too few |
| `AutoEvict.EvictionClock.InsertEntry` | rocksdb-9.8.4/cache/clock_cache.cc:440-660 | a whole insert in terms of the table before it: heads opened as needed; nothing evicted if nothing is asked for, otherwise each entry with the clock updates of a run that freed enough, met too many pinned entries or went to its limit; refused exactly if a place was needed and nothing evicted, or too little freed under a strict limit; else the entry is in a slot the run left free, or no slot below the remembered length was left free or has the key; no other entry changed |
| `AutoTable.GrowableTable.EvictHome` | rocksdb-9.8.4/cache/clock_cache.cc:2783-2871 | every entry of the home got one clock update; those it took are freed, reported once each, and off the chain |
| `ProbePath.ProbesDiffer` | rocksdb-9.8.4/cache/clock_cache.cc:1058-1092 | within one round no two probes meet, because the increment is odd |
| `ProbePath.ProbesCover` | rocksdb-9.8.4/cache/clock_cache.cc:1058-1092 | within one round every slot is met |
| `ProbePath.FillExact` | rocksdb-9.8.4/cache/clock_cache.h:513-528 | counting a displacement on every slot passed keeps all counters equal to the number of entries that passed |
| `ProbePath.ClearExact` | rocksdb-9.8.4/cache/clock_cache.h:513-528 | taking the displacements of a removed entry back keeps them exact |
| `ProbePath.PathIsCounted` | rocksdb-9.8.4/cache/clock_cache.h:513-528 | an entry has been counted on every slot of its path before its own |
| `FixedTable.FixedClockTable.Rollback` | rocksdb-9.8.4/cache/clock_cache.cc:1094-1102 | one less on exactly the slots of the key's path before the given one |
| `FixedTable.FixedClockTable.DoInsert` | rocksdb-9.8.4/cache/clock_cache.cc:784-829 | the first free slot on the path is filled, or the first visible entry with the key before it boosted, or there is no free slot at all; displacement counters stay exact, and in the last two cases they are as before |
| `FixedTable.NoneBeyond` | rocksdb-9.8.4/cache/clock_cache.cc:885-891 | stopping at a slot with no displacements misses no visible entry with the key |
| `FixedTable.FixedClockTable.Lookup` | rocksdb-9.8.4/cache/clock_cache.cc:831-891 | a handle is returned if and only if some visible entry has the key; one reference more on it and no other entry changed; it probes on exactly as long as the slots have displacements |
| `FixedTable.FixedClockTable.Release` | rocksdb-9.8.4/cache/clock_cache.cc:893-966 | the reference is given back; the entry is freed, and its displacements with it, exactly if it was the last one of an invisible entry or erasure was asked for |
| `FixedTable.FixedClockTable.Erase` | rocksdb-9.8.4/cache/clock_cache.cc:980-1037 | no visible entry has the key any more; each that had is freed, or hidden if referenced |
| `FixedTable.FixedClockTable.EraseUnRefEntries` | rocksdb-9.8.4/cache/clock_cache.cc:1039-1056 | exactly the entries without references are gone |
| `ClockVisits.ThreeTurns` | rocksdb-9.8.4/cache/clock_cache.cc:1125-1135 | three turns of the clock come by every slot at least three times |
| `ClockVisits.ThreeVisits` | rocksdb-9.8.4/cache/clock_cache.cc:98-163 | three visits free every unpinned entry but a visible one with countdown 3 or more, which is freed or at 0; pinned entries are untouched |
| `ClockVisits.FourVisits` | rocksdb-9.8.4/cache/clock_cache.cc:98-163 | four visits or more free every unpinned entry and change no other |
| `FixedTable.FixedClockTable.Evict` | rocksdb-9.8.4/cache/clock_cache.cc:1115-1160 | at most ceil(3 * size / 4) + 1 steps; each entry got as many clock updates as the clock passed it; freed charge, freed entries and visits to pinned ones are counted exactly; it stops with the first step that freed enough, or that met as many pinned entries as the cap allows for each one freed and once more; falling short otherwise leaves no unpinned entry that began with countdown 2 or less; with nothing pinned it never stops for effort |
| `ClockVisits.EffortFacts` | rocksdb-9.8.4/cache/clock_cache.cc:572-579 | the effort is too high if and only if the pinned entries met are the cap for each entry freed and once more; fewer than the cap never stop an eviction, and with nothing pinned none is met |
| `UsageLedger.InvKept` | rocksdb-9.8.4/cache/clock_cache.cc:384-553 | every atomic step of charging, evicting, rolling back, going standalone and freeing keeps usage and occupancy accounted for |
| `UsageLedger.EveryRunConserves` | rocksdb-9.8.4/cache/clock_cache.cc:581-684 | in every interleaving usage is the table's charge, the live entries, the standalone usage and what threads hold; occupancy likewise |
| `UsageLedger.StrictLimitHolds` | rocksdb-9.8.4/cache/clock_cache.cc:440-494 | with the strict limit usage is within capacity in every state of every interleaving |
| `UsageLedger.QuietLedger` | rocksdb-9.8.4/cache/clock_cache.cc:1104-1113 | when no thread is at work nothing is held: usage and occupancy are exactly what is there |
| `UsageLedger.LooseLimitIsPassed` | rocksdb-9.8.4/cache/clock_cache.cc:496-553 | every configuration without the strict limit has a run in which usage passes capacity |
| `UsageLedger.LimitIff` | rocksdb-9.8.4/cache/clock_cache.cc:440-553 | usage stays within capacity in every state of every run if and only if the limit is strict and the charge of the table fits |
| `LedgerOutcomes.RefusedIff` | rocksdb-9.8.4/cache/clock_cache.cc:440-553 | a step that charges usage ends in a refusal if and only if, under the strict limit, the charge exceeds capacity or is more than what was grabbed and freed, or a place was needed and nothing was evicted |
| `LedgerOutcomes.EveryRefusal` | rocksdb-9.8.4/cache/clock_cache.cc:440-553 | in every run a charge is refused only for one of these reasons, and gives back exactly what it held |
| `LedgerOutcomes.AsksEnough` | rocksdb-9.8.4/cache/clock_cache.cc:496-553 | without the strict limit an insert asks to evict nothing if it fits, otherwise its charge, and a little more over capacity; at least one if a place is needed |
| `LedgerOutcomes.EvictsIff` | rocksdb-9.8.4/cache/clock_cache.cc:440-553 | in every state that can be reached, a thread evicts if and only if it needs a place or could not grab its whole charge or, without the strict limit, what it read leaves no room and holds as much as the charge |
| `LedgerOutcomes.ChargeAlone` | rocksdb-9.8.4/cache/clock_cache.cc:384-553 | charging usage by a thread that is left alone, with any evictions, is refused or done exactly when an atomic one would be, and leaves the same counters |
| `LedgerOutcomes.InsertAlone` | rocksdb-9.8.4/cache/clock_cache.cc:581-684 | an insert by a thread that is left alone ends, with the entry charged in the table or standing alone, dropped or refused, and counters to match |
| `LedgerOutcomes.FittingInsert` | rocksdb-9.8.4/cache/clock_cache.cc:581-684 | an insert that fits evicts nothing and ends with its charge in the table and in usage |
| `LedgerOutcomes.FreeAlone` | rocksdb-9.8.4/cache/clock_cache.cc:1104-1113 | freeing takes exactly the charge of the entry out of usage, and its place out of occupancy |
| `LruTable.HandleTable.FindPointer` | rocksdb-9.8.4/cache/lru_cache.cc:75-81 | the place of the pointer to the handle with the name, or of the null pointer at the end of its bucket |
| `LruTable.HandleTable.Lookup` | rocksdb-9.8.4/cache/lru_cache.cc:45-47 | the handle that the map has for the name |
| `LruTable.HandleTable.Insert` | rocksdb-9.8.4/cache/lru_cache.cc:49-63 | the table is the map with the name bound to the new handle, the old one is returned, the count is the size of the map; the buckets double exactly if the name is new and there are now as many handles as buckets, while the hash has bits to give |
| `LruTable.HandleTable.Remove` | rocksdb-9.8.4/cache/lru_cache.cc:65-73 | the table is the map without the name |
| `LruTable.HandleTable.Resize` | rocksdb-9.8.4/cache/lru_cache.cc:83-115 | doubling moves every handle to the bucket of its longer hash prefix and leaves the map as it is |
| `LruTable.MoveOne` | rocksdb-9.8.4/cache/lru_cache.cc:99-111 | moving one handle keeps the moved ones in their new buckets and the links of all others |
| `LruScan.ApplyToSomeEntries` | rocksdb-9.8.4/cache/lru_cache.cc:168-202 | one piece visits, once each, exactly the entries whose hash lies between the old and the new state, which is the given number of buckets further on, or the end |
| `LruScan.AlignedStays` | rocksdb-9.8.4/cache/lru_cache.cc:168-202 | a saved state lies at the beginning of a bucket of every larger table |
| `LruScan.VisitedOnce` | rocksdb-9.8.4/cache/lru_cache.cc:168-202 | over a whole scan an entry that stays in the table is visited by exactly one piece, whatever the table sizes in between |
| `LruScan.StaysAndVisited` | rocksdb-9.8.4/cache/lru_cache.cc:168-202 | an entry that is in the table at every piece of a scan is visited exactly once, whatever is inserted, removed or resized between pieces |
| `LruScan.ApplyToAllEntries` | rocksdb-9.8.4/cache/sharded_cache.h:238-260 | the rotation over the shards ends; with other threads changing every shard whenever its lock is free, each entry that is in its shard before and after is visited exactly once, no entry twice, and each visited one was there before or was added since; each piece saw a table the shard went through, and one bucket of it |
| `LruList.RingInsert` | rocksdb-9.8.4/cache/lru_cache.cc:257-297 | relinking four pointers puts an entry at its place in the ring |
| `LruList.RingRemove` | rocksdb-9.8.4/cache/lru_cache.cc:233-242 | relinking two pointers takes an entry out of the ring |
| `LruList.PriorityList.Remove` | rocksdb-9.8.4/cache/lru_cache.cc:233-255 | the entry is off the list; order, pool ends and all three sums are right |
| `LruList.ExceptAt` | rocksdb-9.8.4/cache/lru_cache.cc:233-255 | taking an entry out at its place is the list without it, in the same order |
| `LruList.PriorityList.Insert` | rocksdb-9.8.4/cache/lru_cache.cc:257-297 | the entry is in front of its pool; order, pool ends and all three sums are right; the pools then overflow exactly as far as needed |
| `LruList.PriorityList.MaintainPoolSize` | rocksdb-9.8.4/cache/lru_cache.cc:299-322 | the list is unchanged and the sums right; the oldest entries of the high pool join the low one until it is within capacity and no further, then those of the low pool the bottom one |
| `LruShard.OneChanged` | rocksdb-9.8.4/cache/lru_cache.h:32-48 | a step that changes one handle keeps every handle in one of its three states and usage the sum over live handles |
| `LruShard.Shard.EvictFromLRU` | rocksdb-9.8.4/cache/lru_cache.cc:324-337 | the oldest entries go until the charge fits or the list is empty, and one fewer would not have been enough; each leaves the table and is freed; usage drops by their charges |
| `LruShard.Shard.Lookup` | rocksdb-9.8.4/cache/lru_cache.cc:431-449 | the handle of the name with one more reference, off the LRU list; the others keep their order and nothing else changed |
| `LruShard.Shard.Ref` | rocksdb-9.8.4/cache/lru_cache.cc:451-457 | one more reference and nothing else |
| `LruShard.Shard.Release` | rocksdb-9.8.4/cache/lru_cache.cc:473-519 | the last reference frees the handle exactly if it is not in the table, the shard is over capacity or erasure was asked for, otherwise it goes to the front of its pool on the LRU list, and the pools overflow as far as needed; no other entry moves; over capacity the list is empty |
| `LruShard.Shard.Insert` | rocksdb-9.8.4/cache/lru_cache.cc:373-429 | the entry is in if and only if it fits after the eviction or a handle is wanted and the limit is not strict, and the exact status; if it does not fit the whole LRU list is gone; only oldest entries are evicted, and no fewer would do; without a handle it is in front of its pool, and the pools overflow as far as needed; other handles keep their references, other names their handles, other entries their order |
| `LruShard.Shard.CreateStandalone` | rocksdb-9.8.4/cache/lru_cache.cc:560-590 | a referenced handle outside the table, or a refusal, each exactly when; uncharged only if it does not fit under a strict limit |
| `LruShard.Shard.Erase` | rocksdb-9.8.4/cache/lru_cache.cc:592-616 | the entry leaves the table and is freed unless referenced; the others keep their order |
| `LruShard.Shard.SetCapacity` | rocksdb-9.8.4/cache/lru_cache.cc:355-366 | the shard is within the new capacity or has nothing left to evict; only oldest entries went, and no fewer would do |
| `LruShard.Shard.SetHighPriorityPoolRatio` | rocksdb-9.8.4/cache/lru_cache.cc:459-464 | the list is unchanged, and the pools overflow into the next lower one exactly as far as their new capacities need |
| `LruShard.Shard.SetLowPriorityPoolRatio` | rocksdb-9.8.4/cache/lru_cache.cc:466-471 | the list is unchanged, and the pools overflow into the next lower one exactly as far as their new capacities need |
| `LruShard.Shard.EraseUnRefEntries` | rocksdb-9.8.4/cache/lru_cache.cc:146-166 | exactly the entries of the LRU list are gone |
| `Reservation.CoveringIsLeast` | rocksdb-9.8.4/cache/cache_reservation_manager.h:102-110 | the target size is the least multiple of 256 KiB that covers the memory used |
| `Reservation.ReservationManager.UpdateCacheReservation` | rocksdb-9.8.4/cache/cache_reservation_manager.cc:57-85 | the size is 256 KiB per dummy entry; it fails if and only if the cache refused an entry, and otherwise the size is the least that covers the memory used or, in delayed mode, one of which at least three quarters are used; memory used is remembered even on failure |
| `Reservation.ReservationManager.UpdateByDelta` | rocksdb-9.8.4/cache/cache_reservation_manager.h:269-284 | a change by an amount, stopping at zero, with the same guarantee for the reservation |
| `Reservation.ReservationManager.MakeCacheReservation` | rocksdb-9.8.4/cache/cache_reservation_manager.cc:87-99 | memory used is the sum of all handles that are out, also after a failed insert |
| `Reservation.ReservationManager.DestroyHandle` | rocksdb-9.8.4/cache/cache_reservation_manager.cc:101-109 | handles can be destroyed in any order; memory used stays their sum |
| `TieredBudget.TieredCache.constructor` | rocksdb-9.8.4/cache/secondary_cache_adapter.cc:79-112 | the secondary cache's capacity is reserved in the primary cache |
| `TieredBudget.TieredCache.InsertPlaceholder` | rocksdb-9.8.4/cache/secondary_cache_adapter.cc:244-270 | reservation plus what was passed on is the secondary capacity; what was passed on is the share of the whole chunks of the placeholders, and stays as it is once they exceed the budget; it matches the secondary cache's deflation |
| `TieredBudget.TieredCache.ReleasePlaceholder` | rocksdb-9.8.4/cache/secondary_cache_adapter.cc:310-340 | the same on release: what was passed on is cut to the whole chunks that are left, if they no longer cover it; with no placeholder left the split is the initial one |
| `TieredBudget.TieredCache.SetCapacity` | rocksdb-9.8.4/cache/secondary_cache_adapter.cc:481-530 | the same for a new budget, if and only if the budget is safe; one that covers the placeholders always is; and what becomes of the reservation in any case |
| `TieredBudget.HalvingBreaks` | rocksdb-9.8.4/cache/secondary_cache_adapter.cc:481-530 | a new cache, three placeholders and a budget cut to two chunks: the books are broken |
| `Chunks.SplitValueIntoChunks` | rocksdb-9.8.4/cache/compressed_secondary_cache.cc:320-363 | ends for every non-empty value; the chunks put together are the value, every one but the last fills a bin, the charge is the size plus a fixed overhead per chunk; a chunk is cut to a bin exactly if the value is compressed and the rest of it would leave 128 bytes or more of the next bin unused |
| `Chunks.MergeChunksIntoValue` | rocksdb-9.8.4/cache/compressed_secondary_cache.cc:365-388 | the data of all chunks in order, and its size |
| `Chunks.RoundTrip` | rocksdb-9.8.4/cache/compressed_secondary_cache.cc:320-388 | splitting and merging give back the same bytes and size |

## Left out

- Memory orderings: every atomic operation is sequentially consistent; relaxed loads before a compare-and-swap on a slot may return any value.
- `SlotProtocol.EveryRunIsSafe`: holds while the counters stay below their top bit, as the code assumes; the word lemmas of `SlotMeta` say what happens at the boundary.
- `ChainPurge.SlotStates.PurgeImplLocked`: does not claim one clock update per entry when the walk starts over, because the entry it stood on is updated again.
- `MissRun.MissIff`: the metadata stays as it is, and no entry with the key that is looked up is being inserted; `LookupRuns.NothingMissed` has neither restriction.
- `LookupRuns.NothingMissed`: a lookup goes by the length from before the split or by the new one; one that remembered the length from before an earlier split of the same chain is not covered. The chain is not purged between the beginning of the lookup and the split.
- `PurgeLookup.NothingMissed`: no chain is split meanwhile, and no other chain goes by more hash bits than this one.
- `ChainSplit.ChainArray.SplitForGrow`: slot arrays are sequences that are replaced as a whole; a store is an update of one index. Only inserts run beside a split, as the rewrite lock keeps other rewrites out.
- `AutoTable.GrowableTable.Lookup`: is the walk of one thread. The walk beside a split is `LookupRuns`, that beside purges `PurgeLookup`; neither counts the references taken and given back on the way.
- `AutoTable.GrowableTable.FullLookup`: is the full walk of one thread, in the same way.
- `AutoTable.GrowableTable.Insert`: asks all slots what an insert would meet before it searches, because with one thread the answers do not change; the table may have grown before the search but not during it.
- `AutoEvict.EvictionClock.InsertEntry`: the charge to be freed is a parameter; how it follows from usage is `LedgerOutcomes`. The occupancy limit is computed in exact rather than floating-point arithmetic.
- `AutoEvict.EveryHomeIff`: is about one thread; growth by other threads has the same effect on the remembered length but is not interleaved with the steps of an eviction.
- `UsageLedger.EveryRunConserves`: an eviction takes any entries and stops at any time; usage of the growable table, whose own charge grows, is not modelled.
- `FixedTable.FixedClockTable.DoInsert`: is one thread; the displacement counters under concurrent inserts are only exact between operations.
- `LruShard.Shard.SetCapacity`: does not put the pools within their capacities, because the code does not.
- `LruShard.Shard.CreateStandalone`: makes the handle after the eviction rather than before; it does not count until then.
- `Chunks.SplitValueIntoChunks`: the linked list of chunks is a sequence of their data.
- Publishing the table length from several growing threads, and waiting for an earlier split of the same chain.
- Sharding, hashing, allocators, deleters, eviction callbacks, statistics, printable options and problem reports.
- Changing the ratio of the tiered cache, which by its own comments accumulates rounding error.
- Uniqueness of cache keys, compression, and asynchronous or three-tier lookups.
