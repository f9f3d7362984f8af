/**
  The simulator of comparison.cpp: one direct-mapped cache whose tag is the
  bit-exact high part of the address, and a trace loop that counts a hit
  whenever the cache's last line has a counter above 1.
 */
module Comparison {
  import opened Cache

  // ---------------------------------------------------------------------
  // Address decoding

  /** The shifts and masks of the decoding are defined C++: `1 << tagSize` and
      `1 << indexSize` stay below 2^31 (so the `- 1` does not overflow an
      `int`), and `address >> (indexSize + blockOffsetSize)` shifts by less
      than 32. */
  predicate ValidGeometry(blockSize: nat, numBlocks: nat)
  {
    blockSize >= 1 && numBlocks >= 1
    && 2 <= Log2(blockSize) + Log2(numBlocks) <= 31 && Log2(numBlocks) <= 30
  }

  function OffsetBits(blockSize: nat): nat
    requires blockSize >= 1
  {
    Log2(blockSize)
  }

  function IndexBits(numBlocks: nat): nat
    requires numBlocks >= 1
  {
    Log2(numBlocks)
  }

  function TagBits(blockSize: nat, numBlocks: nat): nat
    requires ValidGeometry(blockSize, numBlocks)
  {
    32 - IndexBits(numBlocks) - OffsetBits(blockSize)
  }

  /** `(address >> (indexSize + blockOffsetSize)) & ((1 << tagSize) - 1)`:
      the tag fits in `tagSize` bits and the mask removes nothing from a
      32-bit address. */
  function ShiftedTag(address: Word, blockSize: nat, numBlocks: nat): (tag: nat)
    requires ValidGeometry(blockSize, numBlocks)
    ensures tag < Pow2(TagBits(blockSize, numBlocks))
    ensures tag == address / Pow2(IndexBits(numBlocks) + OffsetBits(blockSize))
  {
    var shift := IndexBits(numBlocks) + OffsetBits(blockSize);
    HighBitsFit(address, shift, TagBits(blockSize, numBlocks));
    (address / Pow2(shift)) % Pow2(TagBits(blockSize, numBlocks))
  }

  /** A 32-bit value shifted right by `shift` bits fits in the remaining
      `width` bits, so masking it to that width changes nothing. */
  lemma HighBitsFit(address: Word, shift: nat, width: nat)
    requires shift + width == 32
    ensures address / Pow2(shift) < Pow2(width)
    ensures address / Pow2(shift) % Pow2(width) == address / Pow2(shift)
  {
    HighBitsBelow(address, shift, width);
    ModBelow(address / Pow2(shift), Pow2(width));
  }

  lemma HighBitsBelow(address: Word, shift: nat, width: nat)
    requires shift + width == 32
    ensures address / Pow2(shift) < Pow2(width)
  {
    Pow2Add(width, shift);
    Pow2Word();
    DivBelow(address, Pow2(shift), Pow2(width));
  }

  /** The address whose fields are `tag`, `index` and `offset`: the inverse
      of the decoding for fields that fit their widths. */
  function Encode(tag: nat, index: nat, offset: nat, blockSize: nat, numBlocks: nat): (address: Word)
    requires ValidGeometry(blockSize, numBlocks)
    requires tag < Pow2(TagBits(blockSize, numBlocks))
    requires index < Pow2(IndexBits(numBlocks)) && offset < Pow2(OffsetBits(blockSize))
  {
    EncodedFitsWord(tag, index, offset, blockSize, numBlocks);
    tag * Pow2(IndexBits(numBlocks) + OffsetBits(blockSize)) + index * Pow2(OffsetBits(blockSize)) + offset
  }

  lemma EncodedFitsWord(tag: nat, index: nat, offset: nat, blockSize: nat, numBlocks: nat)
    requires ValidGeometry(blockSize, numBlocks)
    requires tag < Pow2(TagBits(blockSize, numBlocks))
    requires index < Pow2(IndexBits(numBlocks)) && offset < Pow2(OffsetBits(blockSize))
    ensures 0 <= tag * Pow2(IndexBits(numBlocks) + OffsetBits(blockSize))
    ensures 0 <= index * Pow2(OffsetBits(blockSize))
    ensures tag * Pow2(IndexBits(numBlocks) + OffsetBits(blockSize))
            + index * Pow2(OffsetBits(blockSize)) + offset < WORD_LIMIT
  {
    var ob, ib, tb := OffsetBits(blockSize), IndexBits(numBlocks), TagBits(blockSize, numBlocks);
    Pow2Add(ib, ob);
    Pow2Add(tb, ib + ob);
    Pow2Word();
    MixedRadixBound(tag, Pow2(ib), Pow2(ob), index, offset, Pow2(tb));
  }

  /** Decoding loses nothing but the offset: the tag, the index and the
      offset bits put back together give the address. */
  lemma DecodeRoundTrip(address: Word, blockSize: nat, numBlocks: nat)
    requires ValidGeometry(blockSize, numBlocks)
    ensures address == Encode(ShiftedTag(address, blockSize, numBlocks), Index(address, blockSize, numBlocks),
                              address % Pow2(OffsetBits(blockSize)), blockSize, numBlocks)
    ensures IsPow2(blockSize) ==> address % Pow2(OffsetBits(blockSize)) == address % blockSize
  {
    var ob, ib := OffsetBits(blockSize), IndexBits(numBlocks);
    Pow2Add(ib, ob);
    MixedRadixSplit(address, Pow2(ob), Pow2(ib));
  }

  /** Every tag, index and offset that fit their fields are decoded back from
      the address they make up. */
  lemma EncodeDecode(tag: nat, index: nat, offset: nat, blockSize: nat, numBlocks: nat)
    requires ValidGeometry(blockSize, numBlocks)
    requires tag < Pow2(TagBits(blockSize, numBlocks))
    requires index < Pow2(IndexBits(numBlocks)) && offset < Pow2(OffsetBits(blockSize))
    ensures var address := Encode(tag, index, offset, blockSize, numBlocks);
            ShiftedTag(address, blockSize, numBlocks) == tag
            && Index(address, blockSize, numBlocks) == index
            && address % Pow2(OffsetBits(blockSize)) == offset
  {
    var ob, ib := OffsetBits(blockSize), IndexBits(numBlocks);
    Pow2Add(ib, ob);
    MixedRadixJoin(tag, Pow2(ib), Pow2(ob), index, offset);
  }

  // ---------------------------------------------------------------------
  // The direct-mapped access

  /** One access of comparison.cpp's `simulateDirectMapped`: the line at the
      decoded index is overwritten in place. No hit count is kept here. */
  method SimulateDirectMapped(cache: array<CacheEntry>, address: Word, blockSize: nat, numBlocks: nat)
    requires ValidGeometry(blockSize, numBlocks)
    requires Pow2(Log2(numBlocks)) <= cache.Length
    modifies cache
    ensures cache[..] == DirectAccess(old(cache[..]), Index(address, blockSize, numBlocks),
                                      ShiftedTag(address, blockSize, numBlocks)).0
  {
    var index := Index(address, blockSize, numBlocks);
    var tag := ShiftedTag(address, blockSize, numBlocks);
    var entry := cache[index];
    if entry.tag == tag {
      cache[index] := entry.(counter := entry.counter + 1);
    } else {
      cache[index] := CacheEntry(tag, 1);
    }
  }

  /** The access on the abstract cache: only the decoded line changes and it
      then holds the tag. */
  function ShiftedAccess(lines: seq<CacheEntry>, address: Word, blockSize: nat, numBlocks: nat): (r: seq<CacheEntry>)
    requires ValidGeometry(blockSize, numBlocks) && |lines| == numBlocks
    ensures |r| == numBlocks
    ensures r[Index(address, blockSize, numBlocks)].tag == ShiftedTag(address, blockSize, numBlocks)
    ensures forall j :: 0 <= j < numBlocks && j != Index(address, blockSize, numBlocks) ==> r[j] == lines[j]
    ensures var index := Index(address, blockSize, numBlocks);
            r[index].counter
            == if lines[index].tag == ShiftedTag(address, blockSize, numBlocks) then lines[index].counter + 1 else 1
  {
    DirectAccess(lines, Index(address, blockSize, numBlocks), ShiftedTag(address, blockSize, numBlocks)).0
  }

  /** No "installed" flag: on a cold cache every address below
      2^(indexSize + blockOffsetSize) has tag 0 and finds it in its line. */
  lemma ColdLowAddressMatches(address: Word, blockSize: nat, numBlocks: nat)
    requires ValidGeometry(blockSize, numBlocks)
    requires address < Pow2(IndexBits(numBlocks) + OffsetBits(blockSize))
    ensures var index := Index(address, blockSize, numBlocks);
            DirectAccess(Cold(numBlocks), index, ShiftedTag(address, blockSize, numBlocks)).1
  {
    DivModUnique(address, Pow2(IndexBits(numBlocks) + OffsetBits(blockSize)), 0, address);
    assert Cold(numBlocks)[Index(address, blockSize, numBlocks)] == COLD;
  }

  // ---------------------------------------------------------------------
  // The trace loop of main

  /** Cache state and hit count after the trace: a hit is counted when the
      last line's counter is above 1 after the access, whichever line the
      access touched. */
  function TraceRun(lines: seq<CacheEntry>, addresses: seq<Word>, blockSize: nat, numBlocks: nat)
    : (r: (seq<CacheEntry>, nat))
    requires ValidGeometry(blockSize, numBlocks) && |lines| == numBlocks
    ensures |r.0| == numBlocks && r.1 <= |addresses|
  {
    if |addresses| == 0 then (lines, 0)
    else
      var prev := TraceRun(lines, addresses[..|addresses| - 1], blockSize, numBlocks);
      var next := ShiftedAccess(prev.0, addresses[|addresses| - 1], blockSize, numBlocks);
      (next, if next[numBlocks - 1].counter > 1 then prev.1 + 1 else prev.1)
  }

  /** The hit count is decided by the last line alone: an access to any other
      line leaves it, and so the count grows exactly when it grew before. */
  lemma UntouchedLastLineDecidesHit(lines: seq<CacheEntry>, addresses: seq<Word>, address: Word,
                                    blockSize: nat, numBlocks: nat)
    requires ValidGeometry(blockSize, numBlocks) && |lines| == numBlocks
    requires Index(address, blockSize, numBlocks) != numBlocks - 1
    ensures var before := TraceRun(lines, addresses, blockSize, numBlocks);
            var after := TraceRun(lines, addresses + [address], blockSize, numBlocks);
            after.1 == if before.0[numBlocks - 1].counter > 1 then before.1 + 1 else before.1
  {
    assert (addresses + [address])[..|addresses|] == addresses;
  }

  const CACHE_SIZE: nat := 512
  const BLOCK_SIZE: nat := 8
  const ASSOCIATIVITY: nat := 1
  const NUM_BLOCKS: nat := CACHE_SIZE / (BLOCK_SIZE * ASSOCIATIVITY)

  /** One more address: the run is extended by one access, and the count
      by one exactly when the last line's counter is then above 1. */
  lemma TraceRunAppend(lines: seq<CacheEntry>, addresses: seq<Word>, address: Word, blockSize: nat, numBlocks: nat)
    requires ValidGeometry(blockSize, numBlocks) && |lines| == numBlocks
    ensures var prev := TraceRun(lines, addresses, blockSize, numBlocks);
            var next := ShiftedAccess(prev.0, address, blockSize, numBlocks);
            var run := TraceRun(lines, addresses + [address], blockSize, numBlocks);
            run.0 == next && run.1 == if next[numBlocks - 1].counter > 1 then prev.1 + 1 else prev.1
  {
    var longer := addresses + [address];
    assert longer[..|longer| - 1] == addresses && longer[|longer| - 1] == address;
  }

  lemma SourceGeometry()
    ensures NUM_BLOCKS == 64 && ValidGeometry(BLOCK_SIZE, NUM_BLOCKS)
    ensures Log2(BLOCK_SIZE) == 3 && Log2(NUM_BLOCKS) == 6
  {
    assert Log2(16) == 4;
  }

  /** A repeated address whose line is not the last one hits the second
      time, yet no hit is counted: the last line never changes. */
  lemma RepeatedAccessNotCounted(address: Word, blockSize: nat, numBlocks: nat)
    requires ValidGeometry(blockSize, numBlocks)
    requires Index(address, blockSize, numBlocks) != numBlocks - 1
    ensures var once := TraceRun(Cold(numBlocks), [address], blockSize, numBlocks);
            var twice := TraceRun(Cold(numBlocks), [address, address], blockSize, numBlocks);
            DirectAccess(once.0, Index(address, blockSize, numBlocks), ShiftedTag(address, blockSize, numBlocks)).1
            && twice.1 == 0
  {
    var cold := Cold(numBlocks);
    TraceRunAppend(cold, [], address, blockSize, numBlocks);
    assert [] + [address] == [address];
    TraceRunAppend(cold, [address], address, blockSize, numBlocks);
    assert [address] + [address] == [address, address];
  }

  /** Two accesses to the last line make its counter 2, and from then on
      every access elsewhere is counted as a hit, even one that misses. */
  lemma MissCountedAsHit(last: Word, other: Word, blockSize: nat, numBlocks: nat)
    requires ValidGeometry(blockSize, numBlocks)
    requires Index(last, blockSize, numBlocks) == numBlocks - 1
    requires Index(other, blockSize, numBlocks) != numBlocks - 1 && ShiftedTag(other, blockSize, numBlocks) != 0
    ensures var twice := TraceRun(Cold(numBlocks), [last, last], blockSize, numBlocks);
            var run := TraceRun(Cold(numBlocks), [last, last, other], blockSize, numBlocks);
            !DirectAccess(twice.0, Index(other, blockSize, numBlocks), ShiftedTag(other, blockSize, numBlocks)).1
            && run.1 == 2
  {
    var cold := Cold(numBlocks);
    TraceRunAppend(cold, [], last, blockSize, numBlocks);
    assert [] + [last] == [last];
    TraceRunAppend(cold, [last], last, blockSize, numBlocks);
    assert [last] + [last] == [last, last];
    TraceRunAppend(cold, [last, last], other, blockSize, numBlocks);
    assert [last, last] + [other] == [last, last, other];
  }

  /** The per-address loop of main: each address is simulated, counted as
      an access, and counted as a hit when the last line's counter is then
      above 1. main fixes the configuration to `CACHE_SIZE`, `BLOCK_SIZE`
      and `ASSOCIATIVITY` (see `SourceGeometry`). */
  method RunTrace(addresses: seq<Word>, cacheSize: nat, blockSize: nat, associativity: nat)
    returns (hits: nat, accesses: nat)
    requires blockSize >= 1 && associativity >= 1
    requires ValidGeometry(blockSize, cacheSize / (blockSize * associativity))
    ensures accesses == |addresses|
    ensures var numBlocks := cacheSize / (blockSize * associativity);
            hits == TraceRun(Cold(numBlocks), addresses, blockSize, numBlocks).1
    ensures hits <= accesses
  {
    var numBlocks := cacheSize / (blockSize * associativity);
    var cache := new CacheEntry[numBlocks](_ => COLD);
    ghost var cold := Cold(numBlocks);
    ghost var prefix: seq<Word> := [];
    hits, accesses := 0, 0;
    while accesses < |addresses|
      invariant accesses <= |addresses| && prefix == addresses[..accesses]
      invariant cache.Length == numBlocks
      invariant var run := TraceRun(cold, prefix, blockSize, numBlocks);
                cache[..] == run.0 && hits == run.1
      invariant hits <= accesses
    {
      var address := addresses[accesses];
      PrefixExtend(addresses, accesses);
      TraceRunAppend(cold, prefix, address, blockSize, numBlocks);
      SimulateDirectMapped(cache, address, blockSize, numBlocks);
      accesses := accesses + 1;
      if cache[cache.Length - 1].counter > 1 {
        hits := hits + 1;
      }
      prefix := prefix + [address];
    }
    assert addresses[..accesses] == addresses;
  }
}
