/**
  The simulator of main.cpp: a direct-mapped cache and a 2-way
  set-associative cache fed the same trace. Both use the whole block number
  `address / blockSize` as the tag.
 */
module MainSim {
  import opened Cache

  // ---------------------------------------------------------------------
  // Address decoding

  /** `address / blockSize`: the block number, used whole as the tag. */
  function BlockTag(address: Word, blockSize: nat): (tag: nat)
    requires blockSize >= 1
    ensures tag * blockSize <= address < tag * blockSize + blockSize
  {
    address / blockSize
  }

  /** With blocks of at least 8 bytes the tag needs at most 29 bits, so storing
      it in the entry's `int` field loses nothing. */
  lemma BlockTagFitsInt(address: Word, blockSize: nat)
    requires blockSize >= 8
    ensures BlockTag(address, blockSize) < 0x2000_0000
  {
    var tag := BlockTag(address, blockSize);
    MulLeft(8, blockSize, tag);
    assert tag * 8 < WORD_LIMIT;
  }

  /** With power-of-two geometry the index is the tag's remainder by the number
      of sets, so equal tags always select the same slot or set. */
  lemma IndexIsTagModSets(address: Word, blockSize: nat, numSets: nat)
    requires IsPow2(blockSize) && IsPow2(numSets)
    ensures Index(address, blockSize, numSets) == BlockTag(address, blockSize) % numSets
  {
  }

  lemma SameTagSameIndex(a: Word, b: Word, blockSize: nat, numSets: nat)
    requires IsPow2(blockSize) && IsPow2(numSets)
    requires BlockTag(a, blockSize) == BlockTag(b, blockSize)
    ensures Index(a, blockSize, numSets) == Index(b, blockSize, numSets)
  {
    IndexIsTagModSets(a, blockSize, numSets);
    IndexIsTagModSets(b, blockSize, numSets);
  }

  // ---------------------------------------------------------------------
  // Direct-mapped cache

  /** One access of `simulateDirectMapped`: the line at the decoded index is
      updated in place and `hits` is bumped on a hit. */
  method SimulateDirectMapped(cache: array<CacheEntry>, address: Word, blockSize: nat, numBlocks: nat, hits: nat)
    returns (newHits: nat)
    requires blockSize >= 1 && numBlocks >= 1
    requires Pow2(Log2(numBlocks)) <= cache.Length
    modifies cache
    ensures var r := DirectAccess(old(cache[..]), Index(address, blockSize, numBlocks), BlockTag(address, blockSize));
            cache[..] == r.0 && newHits == if r.1 then hits + 1 else hits
  {
    var index := Index(address, blockSize, numBlocks);
    var tag := BlockTag(address, blockSize);
    var entry := cache[index];
    if entry.tag == tag {
      cache[index] := entry.(counter := entry.counter + 1);
      newHits := hits + 1;
    } else {
      cache[index] := CacheEntry(tag, 1);
      newHits := hits;
    }
  }

  /** The direct-mapped access of main.cpp on the abstract cache. */
  function DirectMappedAccess(lines: seq<CacheEntry>, address: Word, blockSize: nat, numBlocks: nat): (r: (seq<CacheEntry>, bool))
    requires blockSize >= 1 && numBlocks >= 1 && |lines| == numBlocks
    ensures var index := Index(address, blockSize, numBlocks);
            var tag := BlockTag(address, blockSize);
            |r.0| == numBlocks && (r.1 <==> lines[index].tag == tag)
            && r.0[index] == CacheEntry(tag, if r.1 then lines[index].counter + 1 else 1)
            && forall j :: 0 <= j < numBlocks && j != index ==> r.0[j] == lines[j]
  {
    DirectAccess(lines, Index(address, blockSize, numBlocks), BlockTag(address, blockSize))
  }

  /** The same address twice in a row: the second access is a hit. */
  lemma DirectMappedRepeatHits(lines: seq<CacheEntry>, address: Word, blockSize: nat, numBlocks: nat)
    requires blockSize >= 1 && numBlocks >= 1 && |lines| == numBlocks
    ensures DirectMappedAccess(DirectMappedAccess(lines, address, blockSize, numBlocks).0, address, blockSize, numBlocks).1
  {
  }

  /** No "installed" flag: on a cold cache every address of the first block
      (tag 0) is counted as a hit. */
  lemma DirectMappedColdFirstBlockHits(address: Word, blockSize: nat, numBlocks: nat)
    requires blockSize >= 1 && numBlocks >= 1 && address < blockSize
    ensures DirectMappedAccess(Cold(numBlocks), address, blockSize, numBlocks).1
  {
    DivModUnique(address, blockSize, 0, address);
    assert BlockTag(address, blockSize) == 0;
    assert Cold(numBlocks)[Index(address, blockSize, numBlocks)] == COLD;
  }

  // ---------------------------------------------------------------------
  // Set-associative cache: the scans of one set

  /** The lowest slot whose tag equals `tag`, or `|ways|` when there is none
      (what `find_if` returns). */
  function FirstMatch(ways: seq<CacheEntry>, tag: nat): (k: nat)
    ensures k <= |ways|
    ensures k < |ways| ==> ways[k].tag == tag
    ensures forall j :: 0 <= j < k ==> ways[j].tag != tag
  {
    if |ways| == 0 then 0
    else if ways[0].tag == tag then 0
    else 1 + FirstMatch(ways[1..], tag)
  }

  /** `find_if` over the set with the predicate `e.tag == tag`. */
  method FindTag(ways: array<CacheEntry>, tag: nat) returns (k: nat)
    ensures k == FirstMatch(ways[..], tag)
  {
    k := 0;
    while k < ways.Length && ways[k].tag != tag
      invariant k <= ways.Length
      invariant forall j :: 0 <= j < k ==> ways[j].tag != tag
    {
      k := k + 1;
    }
  }

  /** The lowest slot holding the smallest counter among the first `n` slots
      (what `min_element` returns for a strict less-than on counters). */
  function MinSlot(ways: seq<CacheEntry>, n: nat): (v: nat)
    requires 0 < n <= |ways|
    ensures v < n
    ensures forall j :: 0 <= j < n ==> ways[v].counter <= ways[j].counter
    ensures forall j :: 0 <= j < v ==> ways[v].counter < ways[j].counter
  {
    if n == 1 then 0
    else
      var m := MinSlot(ways, n - 1);
      if ways[n - 1].counter < ways[m].counter then n - 1 else m
  }

  /** `min_element` over the set ordered by counter. */
  method MinCounterSlot(ways: array<CacheEntry>) returns (v: nat)
    requires ways.Length > 0
    ensures v == MinSlot(ways[..], ways.Length)
  {
    v := 0;
    var i := 1;
    while i < ways.Length
      invariant 1 <= i <= ways.Length
      invariant v == MinSlot(ways[..], i)
    {
      if ways[i].counter < ways[v].counter {
        v := i;
      }
      i := i + 1;
    }
  }

  /** The hit line's counter after the loop has visited slots `0 .. n-1`,
      starting from `e`. Each visit replaces the counter by the visited
      counter plus one when the visited counter is smaller; at slot `k` the
      visited counter is the hit line's own current one. */
  function PulledDown(ways: seq<CacheEntry>, k: nat, e: nat, n: nat): (c: nat)
    requires k < |ways| && n <= |ways|
    ensures c <= e
    ensures forall j :: 0 <= j < n && j != k ==> c <= ways[j].counter + 1
    ensures c == e || exists j :: 0 <= j < n && j != k && c == ways[j].counter + 1
  {
    if n == 0 then e
    else
      var before := PulledDown(ways, k, e, n - 1);
      var visited := if n - 1 == k then before else ways[n - 1].counter;
      if visited < before then visited + 1 else before
  }

  /** The counter a hit on slot `k` leaves behind:
      min(old counter + 1, 1 + the smallest counter of the other lines).
      It can be below a sibling's counter and below the line's old counter. */
  function HitCounter(ways: seq<CacheEntry>, k: nat): (c: nat)
    requires k < |ways|
    ensures c <= ways[k].counter + 1
    ensures forall j :: 0 <= j < |ways| && j != k ==> c <= ways[j].counter + 1
    ensures c == ways[k].counter + 1 || exists j :: 0 <= j < |ways| && j != k && c == ways[j].counter + 1
  {
    PulledDown(ways, k, ways[k].counter + 1, |ways|)
  }

  /** Some line of the set holds `tag`. */
  predicate Holds(ways: seq<CacheEntry>, tag: nat)
  {
    exists j :: 0 <= j < |ways| && ways[j].tag == tag
  }

  /** One access to one set: the new set and whether it was a hit. */
  function SetAccess(ways: seq<CacheEntry>, tag: nat): (r: (seq<CacheEntry>, bool))
    requires |ways| > 0
    ensures |r.0| == |ways|
    ensures r.1 <==> Holds(ways, tag)
    ensures Holds(r.0, tag)
  {
    var k := FirstMatch(ways, tag);
    if k < |ways| then
      var touched := ways[k := ways[k].(counter := HitCounter(ways, k))];
      assert touched[k].tag == tag;
      (touched, true)
    else
      var victim := MinSlot(ways, |ways|);
      var filled := ways[victim := CacheEntry(tag, 1)];
      assert filled[victim].tag == tag;
      (filled, false)
  }

  /** A hit touches only the lowest matching slot: its tag stays, its counter
      becomes min(old + 1, 1 + the others' minimum), nothing else changes. */
  lemma SetAccessHit(ways: seq<CacheEntry>, tag: nat, k: nat)
    requires k < |ways| && ways[k].tag == tag
    requires forall j :: 0 <= j < k ==> ways[j].tag != tag
    ensures var r := SetAccess(ways, tag);
            r.1 && |r.0| == |ways| && r.0[k].tag == tag
            && (forall j :: 0 <= j < |ways| && j != k ==> r.0[j] == ways[j])
            && r.0[k].counter <= ways[k].counter + 1
            && (forall j :: 0 <= j < |ways| && j != k ==> r.0[k].counter <= ways[j].counter + 1)
            && (r.0[k].counter == ways[k].counter + 1
                || exists j :: 0 <= j < |ways| && j != k && r.0[k].counter == ways[j].counter + 1)
  {
    assert FirstMatch(ways, tag) == k;
  }

  /** A miss evicts the lowest slot with the smallest counter: it receives the
      tag and counter 1, nothing else changes. */
  lemma SetAccessMiss(ways: seq<CacheEntry>, tag: nat, v: nat)
    requires |ways| > 0 && forall j :: 0 <= j < |ways| ==> ways[j].tag != tag
    requires v < |ways| && forall j :: 0 <= j < |ways| ==> ways[v].counter <= ways[j].counter
    requires forall j :: 0 <= j < v ==> ways[v].counter < ways[j].counter
    ensures SetAccess(ways, tag) == (ways[v := CacheEntry(tag, 1)], false)
  {
    assert MinSlot(ways, |ways|) == v;
  }

  /** The hit counter is not the largest of the set: with counters 1 and 5, a
      hit on the first line leaves 2. */
  lemma HitCounterCanStayBelowSibling()
    ensures SetAccess([CacheEntry(7, 1), CacheEntry(9, 5)], 7)
            == ([CacheEntry(7, 2), CacheEntry(9, 5)], true)
  {
    var ways := [CacheEntry(7, 1), CacheEntry(9, 5)];
    assert FirstMatch(ways, 7) == 0;
    assert PulledDown(ways, 0, 2, 1) == 2;
    assert PulledDown(ways, 0, 2, 2) == 2;
    assert HitCounter(ways, 0) == 2;
    assert ways[0 := CacheEntry(7, 2)] == [CacheEntry(7, 2), CacheEntry(9, 5)];
  }

  /** A hit can lower the line's counter: with counters 5 and 1, a hit on the
      first line leaves 2. */
  lemma HitCounterCanDrop()
    ensures SetAccess([CacheEntry(7, 5), CacheEntry(9, 1)], 7)
            == ([CacheEntry(7, 2), CacheEntry(9, 1)], true)
  {
    var ways := [CacheEntry(7, 5), CacheEntry(9, 1)];
    assert FirstMatch(ways, 7) == 0;
    assert PulledDown(ways, 0, 6, 1) == 6;
    assert PulledDown(ways, 0, 6, 2) == 2;
    assert HitCounter(ways, 0) == 2;
    assert ways[0 := CacheEntry(7, 2)] == [CacheEntry(7, 2), CacheEntry(9, 1)];
  }

  /** In a cold 2-way set, nonzero distinct tags A, B, A, C give miss, miss,
      hit, miss, and C evicts B, the line touched least recently. */
  lemma TwoWayEvictsLeastRecent(a: nat, b: nat, c: nat)
    requires a != 0 && b != 0 && c != 0 && a != b && c != a && c != b
    ensures var s1 := SetAccess(Cold(2), a);
            var s2 := SetAccess(s1.0, b);
            var s3 := SetAccess(s2.0, a);
            var s4 := SetAccess(s3.0, c);
            !s1.1 && !s2.1 && s3.1 && !s4.1 && s4.0 == [CacheEntry(a, 2), CacheEntry(c, 1)]
  {
    var s0 := Cold(2);
    assert s0 == [COLD, COLD];
    SetAccessMiss(s0, a, 0);
    var s1 := [CacheEntry(a, 1), COLD];
    SetAccessMiss(s1, b, 1);
    var s2 := [CacheEntry(a, 1), CacheEntry(b, 1)];
    SetAccessHit(s2, a, 0);
    var s3 := SetAccess(s2, a).0;
    assert s3[0].counter == 2;
    assert s3 == [CacheEntry(a, 2), CacheEntry(b, 1)];
    SetAccessMiss(s3, c, 1);
  }

  // ---------------------------------------------------------------------
  // Set-associative cache: the whole access

  predicate SetGeometry(blockSize: nat, numBlocks: nat, associativity: nat)
  {
    blockSize >= 1 && associativity >= 1 && numBlocks >= 1 && numBlocks / associativity >= 1
  }

  /** The cache as main.cpp builds it: `numBlocks / associativity` sets of
      `associativity` lines each. */
  predicate WellShaped(sets: seq<seq<CacheEntry>>, numBlocks: nat, associativity: nat)
    requires associativity >= 1
  {
    |sets| == numBlocks / associativity
    && forall i :: 0 <= i < |sets| ==> |sets[i]| == associativity
  }

  /** The hit path of `simulateSetAssociative`: bump the hit line's counter,
      then walk the set and lower it to a visited counter plus one whenever
      that visited counter is smaller. */
  method RecountHit(ways: array<CacheEntry>, k: nat)
    requires k < ways.Length
    modifies ways
    ensures ways[..] == old(ways[..])[k := old(ways[k]).(counter := HitCounter(old(ways[..]), k))]
  {
    ghost var before := ways[..];
    ways[k] := ways[k].(counter := ways[k].counter + 1);
    var it := 0;
    while it < ways.Length
      invariant 0 <= it <= ways.Length
      invariant forall j :: 0 <= j < ways.Length && j != k ==> ways[j] == before[j]
      invariant ways[k] == before[k].(counter := PulledDown(before, k, before[k].counter + 1, it))
    {
      if ways[it].counter < ways[k].counter {
        ways[k] := ways[k].(counter := ways[it].counter + 1);
      }
      it := it + 1;
    }
    assert ways[..] == before[k := before[k].(counter := HitCounter(before, k))];
  }

  /** The body of `simulateSetAssociative` on the selected set: `find_if`,
      then the hit path, or on a miss `min_element` picks the victim, which
      gets the tag and counter 1. */
  method AccessSet(ways: array<CacheEntry>, tag: nat) returns (hit: bool)
    requires ways.Length > 0
    modifies ways
    ensures (ways[..], hit) == SetAccess(old(ways[..]), tag)
  {
    var k := FindTag(ways, tag);
    hit := k < ways.Length;
    if hit {
      RecountHit(ways, k);
    } else {
      var victim := MinCounterSlot(ways);
      ways[victim] := CacheEntry(tag, 1);
    }
  }

  /** The rows of `vector<vector<CacheEntry>>` are separate vectors. */
  predicate DistinctRows(cache: array<array<CacheEntry>>)
    reads cache
  {
    forall i, j :: 0 <= i < j < cache.Length ==> cache[i] != cache[j]
  }

  /** The lines of every set, in order. */
  function Contents(cache: array<array<CacheEntry>>): (sets: seq<seq<CacheEntry>>)
    reads cache, set i | 0 <= i < cache.Length :: cache[i]
    ensures |sets| == cache.Length && forall i :: 0 <= i < cache.Length ==> sets[i] == cache[i][..]
  {
    seq(cache.Length, i requires 0 <= i < cache.Length reads cache, set j | 0 <= j < cache.Length :: cache[j] => cache[i][..])
  }

  /** One access of `simulateSetAssociative`: the set at the decoded index is
      updated in place, every other set is left alone and `hits` is bumped on
      a hit. */
  method SimulateSetAssociative(cache: array<array<CacheEntry>>, address: Word, blockSize: nat,
                                numBlocks: nat, associativity: nat, hits: nat)
    returns (newHits: nat)
    requires SetGeometry(blockSize, numBlocks, associativity)
    requires DistinctRows(cache) && WellShaped(Contents(cache), numBlocks, associativity)
    modifies cache[Index(address, blockSize, numBlocks / associativity)]
    ensures var r := SetAssociativeAccess(old(Contents(cache)), address, blockSize, numBlocks, associativity);
            Contents(cache) == r.0 && newHits == if r.1 then hits + 1 else hits
  {
    var index := Index(address, blockSize, numBlocks / associativity);
    var tag := BlockTag(address, blockSize);
    ghost var before := Contents(cache);
    var hit := AccessSet(cache[index], tag);
    newHits := if hit then hits + 1 else hits;
    ghost var after := SetAssociativeAccess(before, address, blockSize, numBlocks, associativity).0;
    forall i | 0 <= i < cache.Length
      ensures cache[i][..] == after[i]
    {
      if i != index {
        assert cache[i] != cache[index];
      }
    }
  }

  /** The set-associative access of main.cpp on the abstract cache: only the
      target set changes, and afterwards it holds the tag. */
  function SetAssociativeAccess(sets: seq<seq<CacheEntry>>, address: Word, blockSize: nat,
                                numBlocks: nat, associativity: nat): (r: (seq<seq<CacheEntry>>, bool))
    requires SetGeometry(blockSize, numBlocks, associativity)
    requires WellShaped(sets, numBlocks, associativity)
    ensures WellShaped(r.0, numBlocks, associativity)
    ensures var index := Index(address, blockSize, numBlocks / associativity);
            (forall i :: 0 <= i < |sets| && i != index ==> r.0[i] == sets[i])
            && Holds(r.0[index], BlockTag(address, blockSize))
    ensures var index := Index(address, blockSize, numBlocks / associativity);
            var tag := BlockTag(address, blockSize);
            (r.1 <==> Holds(sets[index], tag)) && r.0[index] == SetAccess(sets[index], tag).0
  {
    var index := Index(address, blockSize, numBlocks / associativity);
    var step := SetAccess(sets[index], BlockTag(address, blockSize));
    (sets[index := step.0], step.1)
  }

  /** The same address twice in a row: the second set-associative access hits. */
  lemma SetAssociativeRepeatHits(sets: seq<seq<CacheEntry>>, address: Word, blockSize: nat,
                                 numBlocks: nat, associativity: nat)
    requires SetGeometry(blockSize, numBlocks, associativity)
    requires WellShaped(sets, numBlocks, associativity)
    ensures var first := SetAssociativeAccess(sets, address, blockSize, numBlocks, associativity);
            SetAssociativeAccess(first.0, address, blockSize, numBlocks, associativity).1
  {
  }

  /** With one line per set the set-associative access is the direct-mapped one. */
  lemma OneWayIsDirectMapped(sets: seq<seq<CacheEntry>>, lines: seq<CacheEntry>, address: Word,
                             blockSize: nat, numBlocks: nat)
    requires blockSize >= 1 && numBlocks >= 1
    requires WellShaped(sets, numBlocks, 1) && |lines| == numBlocks
    requires forall i :: 0 <= i < numBlocks ==> sets[i] == [lines[i]]
    ensures var sa := SetAssociativeAccess(sets, address, blockSize, numBlocks, 1);
            var dm := DirectMappedAccess(lines, address, blockSize, numBlocks);
            sa.1 == dm.1 && forall i :: 0 <= i < numBlocks ==> sa.0[i] == [dm.0[i]]
  {
    var index := Index(address, blockSize, numBlocks);
    var ways := sets[index];
    assert PulledDown(ways, 0, ways[0].counter + 1, 1) == ways[0].counter + 1;
  }

  // ---------------------------------------------------------------------
  // The trace loop of main

  /** Direct-mapped cache state and hit count after the trace `addresses`. */
  function DirectMappedRun(lines: seq<CacheEntry>, addresses: seq<Word>, blockSize: nat, numBlocks: nat)
    : (r: (seq<CacheEntry>, nat))
    requires blockSize >= 1 && numBlocks >= 1 && |lines| == numBlocks
    ensures |r.0| == numBlocks && r.1 <= |addresses|
  {
    if |addresses| == 0 then (lines, 0)
    else
      var prev := DirectMappedRun(lines, addresses[..|addresses| - 1], blockSize, numBlocks);
      var step := DirectMappedAccess(prev.0, addresses[|addresses| - 1], blockSize, numBlocks);
      (step.0, if step.1 then prev.1 + 1 else prev.1)
  }

  /** Set-associative cache state and hit count after the trace `addresses`. */
  function SetAssociativeRun(sets: seq<seq<CacheEntry>>, addresses: seq<Word>, blockSize: nat,
                             numBlocks: nat, associativity: nat): (r: (seq<seq<CacheEntry>>, nat))
    requires SetGeometry(blockSize, numBlocks, associativity)
    requires WellShaped(sets, numBlocks, associativity)
    ensures WellShaped(r.0, numBlocks, associativity) && r.1 <= |addresses|
  {
    if |addresses| == 0 then (sets, 0)
    else
      var prev := SetAssociativeRun(sets, addresses[..|addresses| - 1], blockSize, numBlocks, associativity);
      var step := SetAssociativeAccess(prev.0, addresses[|addresses| - 1], blockSize, numBlocks, associativity);
      (step.0, if step.1 then prev.1 + 1 else prev.1)
  }

  const CACHE_SIZE: nat := 512
  const BLOCK_SIZE: nat := 8
  const ASSOCIATIVITY: nat := 2
  const NUM_BLOCKS: nat := CACHE_SIZE / BLOCK_SIZE

  function ColdSets(numSets: nat, associativity: nat): (sets: seq<seq<CacheEntry>>)
    ensures |sets| == numSets && forall i :: 0 <= i < numSets ==> sets[i] == Cold(associativity)
  {
    seq(numSets, _ => Cold(associativity))
  }

  /** `vector<vector<CacheEntry>>(numSets, vector<CacheEntry>(associativity, cold))`:
      every set is its own copy. */
  method NewSetAssociativeCache(numSets: nat, associativity: nat) returns (cache: array<array<CacheEntry>>)
    ensures fresh(cache) && DistinctRows(cache)
    ensures forall i :: 0 <= i < cache.Length ==> fresh(cache[i])
    ensures Contents(cache) == ColdSets(numSets, associativity)
  {
    var rows: seq<array<CacheEntry>> := [];
    for i := 0 to numSets
      invariant |rows| == i
      invariant forall j :: 0 <= j < i ==> fresh(rows[j]) && rows[j][..] == Cold(associativity)
      invariant forall j, l :: 0 <= j < l < i ==> rows[j] != rows[l]
    {
      var row := new CacheEntry[associativity](_ => COLD);
      rows := rows + [row];
    }
    cache := new array<CacheEntry>[numSets](i requires 0 <= i < numSets => rows[i]);
  }

  /** One more address extends the direct-mapped run by one access. */
  lemma DirectMappedRunAppend(lines: seq<CacheEntry>, addresses: seq<Word>, address: Word,
                              blockSize: nat, numBlocks: nat)
    requires blockSize >= 1 && numBlocks >= 1 && |lines| == numBlocks
    ensures var prev := DirectMappedRun(lines, addresses, blockSize, numBlocks);
            var step := DirectMappedAccess(prev.0, address, blockSize, numBlocks);
            var run := DirectMappedRun(lines, addresses + [address], blockSize, numBlocks);
            run.0 == step.0 && run.1 == if step.1 then prev.1 + 1 else prev.1
  {
    var longer := addresses + [address];
    assert longer[..|longer| - 1] == addresses && longer[|longer| - 1] == address;
  }

  /** One more address extends the set-associative run by one access. */
  lemma SetAssociativeRunAppend(sets: seq<seq<CacheEntry>>, addresses: seq<Word>, address: Word,
                                blockSize: nat, numBlocks: nat, associativity: nat)
    requires SetGeometry(blockSize, numBlocks, associativity)
    requires WellShaped(sets, numBlocks, associativity)
    ensures var prev := SetAssociativeRun(sets, addresses, blockSize, numBlocks, associativity);
            var step := SetAssociativeAccess(prev.0, address, blockSize, numBlocks, associativity);
            var run := SetAssociativeRun(sets, addresses + [address], blockSize, numBlocks, associativity);
            run.0 == step.0 && run.1 == if step.1 then prev.1 + 1 else prev.1
  {
    var longer := addresses + [address];
    assert longer[..|longer| - 1] == addresses && longer[|longer| - 1] == address;
  }

  /** main's configuration: 64 blocks in 32 sets of 2 ways. */
  lemma SourceGeometry()
    ensures NUM_BLOCKS == 64 && NUM_BLOCKS / ASSOCIATIVITY == 32
    ensures SetGeometry(BLOCK_SIZE, NUM_BLOCKS, ASSOCIATIVITY)
  {
  }

  /** The body of main's loop: one address goes to both caches. */
  method SimulateBoth(directMappedCache: array<CacheEntry>, setAssociativeCache: array<array<CacheEntry>>,
                      address: Word, blockSize: nat, numBlocks: nat, associativity: nat,
                      directMappedHits: nat, setAssociativeHits: nat)
    returns (newDirectMappedHits: nat, newSetAssociativeHits: nat)
    requires SetGeometry(blockSize, numBlocks, associativity) && directMappedCache.Length == numBlocks
    requires DistinctRows(setAssociativeCache) && WellShaped(Contents(setAssociativeCache), numBlocks, associativity)
    requires forall i :: 0 <= i < setAssociativeCache.Length ==> setAssociativeCache[i] != directMappedCache
    modifies directMappedCache, setAssociativeCache[Index(address, blockSize, numBlocks / associativity)]
    ensures var r := DirectMappedAccess(old(directMappedCache[..]), address, blockSize, numBlocks);
            directMappedCache[..] == r.0 && newDirectMappedHits == if r.1 then directMappedHits + 1 else directMappedHits
    ensures var r := SetAssociativeAccess(old(Contents(setAssociativeCache)), address, blockSize, numBlocks, associativity);
            Contents(setAssociativeCache) == r.0
            && newSetAssociativeHits == if r.1 then setAssociativeHits + 1 else setAssociativeHits
  {
    newDirectMappedHits := SimulateDirectMapped(directMappedCache, address, blockSize, numBlocks, directMappedHits);
    newSetAssociativeHits := SimulateSetAssociative(setAssociativeCache, address, blockSize, numBlocks,
                                                    associativity, setAssociativeHits);
  }

  /** The per-address loop of main: every address goes to both caches and
      `accesses` counts the addresses. main fixes the configuration to
      `CACHE_SIZE`, `BLOCK_SIZE` and `ASSOCIATIVITY` (see `SourceGeometry`). */
  method RunTrace(addresses: seq<Word>, cacheSize: nat, blockSize: nat, associativity: nat)
    returns (directMappedHits: nat, setAssociativeHits: nat, accesses: nat)
    requires blockSize >= 1 && SetGeometry(blockSize, cacheSize / blockSize, associativity)
    ensures accesses == |addresses|
    ensures var numBlocks := cacheSize / blockSize;
            directMappedHits == DirectMappedRun(Cold(numBlocks), addresses, blockSize, numBlocks).1
    ensures var numBlocks := cacheSize / blockSize;
            setAssociativeHits
            == SetAssociativeRun(ColdSets(numBlocks / associativity, associativity), addresses,
                                 blockSize, numBlocks, associativity).1
    ensures directMappedHits <= accesses && setAssociativeHits <= accesses
  {
    var numBlocks := cacheSize / blockSize;
    var setAssociativeCache := NewSetAssociativeCache(numBlocks / associativity, associativity);
    var directMappedCache := new CacheEntry[numBlocks](_ => COLD);
    ghost var cold := Cold(numBlocks);
    ghost var coldSets := ColdSets(numBlocks / associativity, associativity);
    ghost var rows := setAssociativeCache[..];
    ghost var prefix: seq<Word> := [];
    directMappedHits, setAssociativeHits, accesses := 0, 0, 0;
    while accesses < |addresses|
      invariant accesses <= |addresses| && prefix == addresses[..accesses]
      invariant setAssociativeCache[..] == rows && DistinctRows(setAssociativeCache)
      invariant forall i :: 0 <= i < setAssociativeCache.Length ==> fresh(setAssociativeCache[i])
      invariant forall i :: 0 <= i < setAssociativeCache.Length ==> setAssociativeCache[i] != directMappedCache
      invariant directMappedCache.Length == numBlocks
      invariant var dm := DirectMappedRun(cold, prefix, blockSize, numBlocks);
                directMappedCache[..] == dm.0 && directMappedHits == dm.1
      invariant var sa := SetAssociativeRun(coldSets, prefix, blockSize, numBlocks, associativity);
                Contents(setAssociativeCache) == sa.0 && setAssociativeHits == sa.1
    {
      var address := addresses[accesses];
      PrefixExtend(addresses, accesses);
      DirectMappedRunAppend(cold, prefix, address, blockSize, numBlocks);
      SetAssociativeRunAppend(coldSets, prefix, address, blockSize, numBlocks, associativity);
      directMappedHits, setAssociativeHits :=
        SimulateBoth(directMappedCache, setAssociativeCache, address, blockSize, numBlocks, associativity,
                     directMappedHits, setAssociativeHits);
      accesses := accesses + 1;
      prefix := prefix + [address];
    }
    assert addresses[..accesses] == addresses;
  }
}
