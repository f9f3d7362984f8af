# Cache simulation in Dafny

A model of the two trace-driven cache simulators of CacheSimulation, with
proofs about what they compute.

- `main.cpp` feeds every address of a trace to two caches of 512 bytes with
  8-byte blocks:
  - a direct-mapped cache of 64 lines;
  - a 2-way set-associative cache of 32 sets.

  Both caches use the whole block number `address / blockSize` as the tag.
  A set-associative hit adds one to the line's counter, then a scan of the
  set can lower it again. A set-associative miss evicts the first line with
  the smallest counter.
- `comparison.cpp` runs one direct-mapped cache whose tag is the exact high
  part of the address. It counts a hit whenever the cache's last line has a
  counter above 1 after an access.

The project has three modules:

- `Cache` (`cache.dfy`) holds what both programs share:
  - 32-bit addresses (`Word`);
  - the line `CacheEntry(tag, counter)`;
  - the floor logarithm `Log2` that stands for `(int) log2(x)`;
  - the index decoding `Index`;
  - the one-line update `DirectAccess`;
  - the arithmetic lemmas on powers of two behind the decodings.
- `MainSim` (`main_sim.dfy`) models `main.cpp`:
  - the caches are arrays of entries (a `vector<vector<>>` is an array of
    distinct arrays);
  - each operation is a method that updates them in place and is proved
    against a function on sequences;
  - the `find_if` and `min_element` scans are loops proved against recursive
    definitions.
- `Comparison` (`comparison.dfy`) models `comparison.cpp`. It includes the
  shift-and-mask decoding and its round trip with the inverse encoding.

Where the obvious reading of the program differs from its code, the model
follows the code:

- A line has no "valid" flag. A cold line holds tag 0, so the first access
  to any address whose tag is 0 is a hit (`DirectMappedColdFirstBlockHits`,
  `ColdLowAddressMatches`).
- A set-associative hit does not make the line the most recent. Its counter
  becomes min(old + 1, 1 + the smallest counter of the other lines). That
  can stay below a sibling's counter (`HitCounterCanStayBelowSibling`) or
  drop below the old value (`HitCounterCanDrop`).
- `comparison.cpp` decides a hit from `cache.back()` and not from the line
  it accessed:
  - a repeated hit elsewhere is not counted (`RepeatedAccessNotCounted`);
  - after the last line has been hit, misses are counted
    (`MissCountedAsHit`).

## Model

| member | source | states |
|---|---|---|
| Cache.Cold | main.cpp:73 | a fresh cache of `n` lines holds `CacheEntry(0, 0)` in every line; the same cold vector is built at comparison.cpp:45 and for each set at main.cpp:74 |
| Cache.Log2 | main.cpp:21-22 | `(int) log2(n)` is the k with 2^k <= n < 2^(k+1) |
| Cache.Index | main.cpp:25 | the shift-and-mask index is below 2^log2(numSets) <= numSets, so it always selects an existing line or set |
| Cache.DirectAccess | main.cpp:28-37 | a hit exactly when the line's tag equals the tag; the line then holds the tag, with counter old + 1 on a hit and 1 on a miss; all other lines are unchanged |
| Cache.DirectAccessRepeatHits | main.cpp:29-32 | a second access with the same tag hits and increments the counter again |
| Cache.DirectAccessThrashes | main.cpp:33-37 | two tags that alternate on one line always miss, and each miss resets the counter to 1 |
| MainSim.BlockTag | main.cpp:26 | the tag is the block number: tag * blockSize <= address < (tag + 1) * blockSize |
| MainSim.BlockTagFitsInt | main.cpp:26 | with blocks of at least 8 bytes the tag is below 2^29, so the `int` tag field holds it exactly |
| MainSim.IndexIsTagModSets | main.cpp:25-26 | with power-of-two geometry the index is tag mod the number of sets |
| MainSim.SameTagSameIndex | main.cpp:25-26 | addresses with equal tags select the same line or set |
| MainSim.SimulateDirectMapped | main.cpp:20-38 | the cache after the call is `DirectAccess` of the old cache at the decoded index and tag; hits grow by one exactly on a hit |
| MainSim.DirectMappedAccess | main.cpp:20-38 | a hit exactly when the decoded line holds the block number; that line becomes (tag, old counter + 1) on a hit and (tag, 1) on a miss; every other line is unchanged |
| MainSim.DirectMappedRepeatHits | main.cpp:28-32 | the same address twice in a row: the second access is a hit |
| MainSim.DirectMappedColdFirstBlockHits | main.cpp:26-32 | on a cold cache every address of the first block is counted as a hit |
| MainSim.FirstMatch | main.cpp:49 | the lowest slot holding the tag, or the set's size when no slot holds it |
| MainSim.FindTag | main.cpp:49 | the `find_if` loop returns `FirstMatch` |
| MainSim.MinSlot | main.cpp:61 | the lowest slot whose counter is <= every counter and < the counters before it |
| MainSim.MinCounterSlot | main.cpp:61 | the `min_element` loop returns `MinSlot` |
| MainSim.PulledDown | main.cpp:54-58 | after the scan has visited a prefix, the counter is <= its start value and <= every visited sibling's counter + 1, and equals one of them |
| MainSim.HitCounter | main.cpp:52-58 | the hit line's counter is min(old + 1, 1 + each other line's counter) and equals one of those values |
| MainSim.SetAccess | main.cpp:48-64 | the set keeps its size, the access hits exactly when some line holds the tag, and afterwards some line holds it |
| MainSim.SetAccessHit | main.cpp:50-58 | a hit changes only the lowest matching line: it keeps the tag and gets `HitCounter` |
| MainSim.SetAccessMiss | main.cpp:59-64 | a miss replaces the lowest line with the smallest counter by (tag, 1) and changes nothing else |
| MainSim.HitCounterCanStayBelowSibling | main.cpp:52-58 | with counters 1 and 5, a hit on the first line leaves 2, below its sibling |
| MainSim.HitCounterCanDrop | main.cpp:52-58 | with counters 5 and 1, a hit on the first line lowers its counter to 2 |
| MainSim.TwoWayEvictsLeastRecent | main.cpp:48-64 | in a cold 2-way set, tags A, B, A, C give miss, miss, hit, miss, and C evicts B |
| MainSim.RecountHit | main.cpp:52-58 | the in-place increment and scan leave the set with only the hit line changed, to `HitCounter` |
| MainSim.AccessSet | main.cpp:48-64 | the set after the call and the hit flag are `SetAccess` of the old set |
| MainSim.Contents | main.cpp:74 | the lines of every set of the nested vector, set by set |
| MainSim.SimulateSetAssociative | main.cpp:40-65 | the whole cache after the call is `SetAssociativeAccess` of the old cache, so only the decoded set changes; hits grow by one exactly on a hit |
| MainSim.SetAssociativeAccess | main.cpp:40-65 | a hit exactly when the decoded set holds the tag; that set becomes `SetAccess` of it and then holds the tag; every other set is unchanged and every set keeps `associativity` lines |
| MainSim.SetAssociativeRepeatHits | main.cpp:48-53 | the same address twice in a row: the second set-associative access is a hit |
| MainSim.OneWayIsDirectMapped | main.cpp:40-65 | with one line per set, the set-associative access equals the direct-mapped access |
| MainSim.DirectMappedRun | main.cpp:88-100 | the direct-mapped hits after a trace never exceed its length |
| MainSim.SetAssociativeRun | main.cpp:88-100 | the set-associative hits never exceed the trace length, and the cache keeps its shape |
| MainSim.ColdSets | main.cpp:74 | `numSets` sets of `associativity` cold lines |
| MainSim.NewSetAssociativeCache | main.cpp:74 | allocates a fresh, separate row per set, each holding cold lines |
| MainSim.DirectMappedRunAppend | main.cpp:97 | one more address extends the direct-mapped run by exactly one access |
| MainSim.SetAssociativeRunAppend | main.cpp:98 | one more address extends the set-associative run by exactly one access |
| MainSim.SourceGeometry | main.cpp:68-72 | 512-byte caches with 8-byte blocks and 2 ways give 64 blocks in 32 sets, a valid geometry |
| MainSim.SimulateBoth | main.cpp:97-98 | one address updates the direct-mapped cache by `DirectMappedAccess` and the set-associative cache by `SetAssociativeAccess` |
| MainSim.RunTrace | main.cpp:67-100 | the hit counts equal those of the two specification runs on the whole trace; accesses equals the trace length and bounds both counts |
| Comparison.ShiftedTag | comparison.cpp:21-26 | the tag is address >> (indexSize + offsetSize); it fits in tagSize bits, so the mask changes nothing |
| Comparison.HighBitsFit | comparison.cpp:23-26 | a 32-bit address shifted right by s bits is below 2^(32 - s), so the mask keeps it whole |
| Comparison.DecodeRoundTrip | comparison.cpp:21-26 | encoding the decoded tag, index and offset gives back the address; for a power-of-two block size the offset is address mod blockSize |
| Comparison.EncodeDecode | comparison.cpp:21-26 | any tag, index and offset that fit their fields decode back from the address they encode |
| Comparison.SimulateDirectMapped | comparison.cpp:20-37 | the cache after the call is `DirectAccess` of the old cache at the decoded index and shifted tag |
| Comparison.ShiftedAccess | comparison.cpp:28-36 | only the decoded line changes; it then holds the shifted tag, with counter old + 1 when the tag matched and 1 otherwise |
| Comparison.ColdLowAddressMatches | comparison.cpp:26-29 | on a cold cache every address below 2^(indexSize + offsetSize) has tag 0 and hits |
| Comparison.TraceRun | comparison.cpp:58-72 | the counted hits never exceed the trace length, and the cache keeps its size |
| Comparison.TraceRunAppend | comparison.cpp:67-71 | one more address: the cache is updated by one access, and the count grows exactly when the last line's counter is then above 1 |
| Comparison.UntouchedLastLineDecidesHit | comparison.cpp:69-71 | an access that does not touch the last line is counted exactly when the last line's counter already exceeded 1 |
| Comparison.SourceGeometry | comparison.cpp:40-44 | 512 bytes, 8-byte blocks and 1 way give 64 lines, 3 offset bits and 6 index bits |
| Comparison.RepeatedAccessNotCounted | comparison.cpp:67-71 | a repeated address whose line is not the last one hits the second time, yet no hit is counted |
| Comparison.MissCountedAsHit | comparison.cpp:67-71 | after two accesses to the last line, a miss on another line is counted, making 2 hits |
| Comparison.RunTrace | comparison.cpp:39-72 | the hit count equals `TraceRun` on the whole trace; accesses equals the trace length and bounds the hits |

## Left out

- Reading the trace file is not modelled: opening it, the error exit, and parsing `op`, the hex address and the size. The trace is a parameter `seq<Word>` of the `RunTrace` methods.
- Output is not modelled: the floating-point hit rates and everything written to `cout`/`cerr`.
- MainSim.RunTrace and Comparison.RunTrace take the configuration as parameters. Each module's `SourceGeometry` shows that main's fixed values satisfy the preconditions.
- Log2: `(int) log2(x)` in floating point is modelled as the exact floor logarithm. The two agree for every positive `int`.
- The entry fields `index` (both files) and `set` (comparison.cpp) are never read, so they are not modelled. The same goes for `tagSize` in main.cpp.
- Integer widths are not modelled. Tags, counters and hit counts are unbounded naturals, so an `int` counter overflowing after 2^31 accesses is not captured. `BlockTagFitsInt` shows that main.cpp's tags fit an `int`.
- The signed/unsigned tag comparison is not modelled, since both sides are below 2^32.
- Comparison.ShiftedTag and every other `Comparison` member require `2 <= log2(numBlocks) + log2(blockSize) <= 31` and `log2(numBlocks) <= 30`. Outside that range comparison.cpp:25-26 is undefined C++:
  - a sum of 0 makes `1 << 32`, a shift of an `int` by its full width;
  - a sum of 1, or 31 index bits, makes `(1 << 31) - 1` overflow an `int`;
  - a sum of 32 or more makes `address >> 32` or wider, and a negative `tagSize`.
- Cache.Index is modelled as the exact quotient and remainder for any set count. In main.cpp `numBlocks` is an `int`, so `log2` of it is at most 30 and `1 << indexSize` is always defined.
- MainSim.SimulateDirectMapped and Comparison.SimulateDirectMapped require the cache to have at least 2^log2(numBlocks) lines. `main` always passes `numBlocks` lines.
- MainSim.SimulateSetAssociative requires at least one line per set. It also requires distinct rows, which `vector<vector<>>` always has.
- MainSim.IndexIsTagModSets needs power-of-two block and set counts. For other sizes the index is still in range (`Index`) but is not tag mod sets.
