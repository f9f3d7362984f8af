/**
  Vocabulary shared by both simulators: 32-bit addresses, cache lines,
  the integer logarithm that stands in for `(int) log2(x)`, the index
  decoding both files compute, and the one-line direct-mapped update.
 */
module Cache {

  /** Number of values of a C++ `unsigned int`. */
  const WORD_LIMIT: nat := 0x1_0000_0000

  /** A 32-bit unsigned address as read from the trace. */
  type Word = a: nat | a < WORD_LIMIT

  /** One cache line: the stored tag and its use/recency counter.
      There is no "installed" flag: a line that was never written holds tag 0. */
  datatype CacheEntry = CacheEntry(tag: nat, counter: nat)

  /** The value every line starts with, `CacheEntry(0, 0, 0)` in the source. */
  const COLD: CacheEntry := CacheEntry(0, 0)

  /** A cold cache of `n` lines. */
  function Cold(n: nat): (lines: seq<CacheEntry>)
    ensures |lines| == n && forall j :: 0 <= j < n ==> lines[j] == COLD
  {
    seq(n, _ => COLD)
  }

  function Pow2(k: nat): (p: nat)
    ensures p >= 1
  {
    if k == 0 then 1 else 2 * Pow2(k - 1)
  }

  /** Floor of the base-2 logarithm: the value `int k = log2(n)` stores. */
  function Log2(n: nat): (k: nat)
    requires n >= 1
    ensures Pow2(k) <= n < 2 * Pow2(k)
  {
    if n == 1 then 0 else 1 + Log2(n / 2)
  }

  predicate IsPow2(n: nat)
  {
    n >= 1 && Pow2(Log2(n)) == n
  }

  /** `(address >> log2(blockSize)) & ((1 << log2(numSets)) - 1)`: the block
      number's low `log2(numSets)` bits. It always selects an existing slot. */
  function Index(address: Word, blockSize: nat, numSets: nat): (index: nat)
    requires blockSize >= 1 && numSets >= 1
    ensures index < Pow2(Log2(numSets)) <= numSets
  {
    (address / Pow2(Log2(blockSize))) % Pow2(Log2(numSets))
  }

  /** One direct-mapped access to the line at `index` with `tag`: the new lines
      and whether the access was a hit. */
  function DirectAccess(lines: seq<CacheEntry>, index: nat, tag: nat): (r: (seq<CacheEntry>, bool))
    requires index < |lines|
    ensures r.1 <==> lines[index].tag == tag
    ensures |r.0| == |lines| && r.0[index].tag == tag
    ensures r.0[index].counter == if r.1 then lines[index].counter + 1 else 1
    ensures forall j :: 0 <= j < |lines| && j != index ==> r.0[j] == lines[j]
  {
    var entry := lines[index];
    if entry.tag == tag then (lines[index := entry.(counter := entry.counter + 1)], true)
    else (lines[index := CacheEntry(tag, 1)], false)
  }

  /** The same line accessed twice in a row with the same tag: the second access hits. */
  lemma DirectAccessRepeatHits(lines: seq<CacheEntry>, index: nat, tag: nat)
    requires index < |lines|
    ensures var first := DirectAccess(lines, index, tag);
            var second := DirectAccess(first.0, index, tag);
            second.1 && second.0[index] == CacheEntry(tag, first.0[index].counter + 1)
  {
  }

  /** Two tags competing for one line always evict each other. */
  lemma DirectAccessThrashes(lines: seq<CacheEntry>, index: nat, tag: nat, other: nat)
    requires index < |lines| && tag != other
    ensures var first := DirectAccess(lines, index, tag);
            var second := DirectAccess(first.0, index, other);
            var third := DirectAccess(second.0, index, tag);
            !second.1 && !third.1 && third.0[index] == CacheEntry(tag, 1)
  {
  }

  /** A trace prefix grows by the next address. */
  lemma PrefixExtend(s: seq<Word>, i: nat)
    requires i < |s|
    ensures s[..i + 1] == s[..i] + [s[i]]
  {
  }

  // ---------------------------------------------------------------------
  // Arithmetic on powers of two used by the address decodings.

  lemma {:induction false} Pow2Add(a: nat, b: nat)
    ensures Pow2(a + b) == Pow2(a) * Pow2(b)
    decreases a
  {
    if a > 0 {
      Pow2Add(a - 1, b);
      calc {
        Pow2(a + b);
        2 * Pow2(a - 1 + b);
        2 * (Pow2(a - 1) * Pow2(b));
        (2 * Pow2(a - 1)) * Pow2(b);
      }
    }
  }

  lemma Pow2Word()
    ensures Pow2(32) == WORD_LIMIT
  {
    assert Pow2(8) == 0x100;
    Pow2Add(8, 8);
    Pow2Add(16, 16);
  }

  lemma MulLeft(x: nat, y: nat, d: nat)
    requires x <= y
    ensures x * d <= y * d
  {
  }

  /** Quotient and remainder are unique. */
  lemma DivModUnique(a: nat, d: nat, q: nat, r: nat)
    requires d > 0 && r < d && a == q * d + r
    ensures a / d == q && a % d == r
  {
    var q', r' := a / d, a % d;
    assert a == q' * d + r';
    if q < q' {
      MulLeft(q + 1, q', d);
      assert false;
    } else if q' < q {
      MulLeft(q' + 1, q, d);
      assert false;
    }
  }

  lemma DivDiv(a: nat, b: nat, c: nat)
    requires b > 0 && c > 0
    ensures a / b / c == a / (b * c)
  {
    var q, r := a / b, a % b;
    var q2, r2 := q / c, q % c;
    assert a == q * b + r;
    assert q == q2 * c + r2;
    RegroupDigits(q, b, r, q2, c, r2);
    MulLeft(r2, c - 1, b);
    DivModUnique(a, b * c, q2, r2 * b + r);
  }

  /** Distributes `q * b + r` over `q == q2 * c + r2`. */
  lemma RegroupDigits(q: nat, b: nat, r: nat, q2: nat, c: nat, r2: nat)
    requires q == q2 * c + r2
    ensures q * b + r == q2 * (b * c) + (r2 * b + r)
  {
    calc {
      q * b;
      (q2 * c + r2) * b;
      q2 * c * b + r2 * b;
      q2 * (b * c) + r2 * b;
    }
  }

  lemma ModBelow(a: nat, d: nat)
    requires a < d
    ensures a % d == a && a / d == 0
  {
  }

  /** A number written in the mixed radix (high, mid, low): its digits are
      `a / (mid * low)`, `a / low % mid` and `a % low`. */
  lemma MixedRadixSplit(a: nat, low: nat, mid: nat)
    requires low > 0 && mid > 0
    ensures a == a / (mid * low) * (mid * low) + (a / low % mid) * low + a % low
  {
    var block := a / low;
    DivDiv(a, low, mid);
    assert a == block * low + a % low;
    assert block == block / mid * mid + block % mid;
    calc {
      a;
      block * low + a % low;
      (block / mid * mid + block % mid) * low + a % low;
      block / mid * (mid * low) + (block % mid) * low + a % low;
    }
  }

  /** Digits that fit their radix are read back unchanged. */
  lemma MixedRadixJoin(high: nat, mid: nat, low: nat, m: nat, l: nat)
    requires low > 0 && mid > 0 && m < mid && l < low
    ensures var a := high * (mid * low) + m * low + l;
            a / (mid * low) == high && a / low % mid == m && a % low == l
  {
    var block := high * mid + m;
    var a := high * (mid * low) + m * low + l;
    assert a == block * low + l;
    DivModUnique(a, low, block, l);
    DivModUnique(block, mid, high, m);
    DivDiv(a, low, mid);
  }

  /** A number with digits below (top, mid, low) is below top * mid * low. */
  lemma MixedRadixBound(high: nat, mid: nat, low: nat, m: nat, l: nat, top: nat)
    requires m < mid && l < low && high < top
    ensures 0 <= high * (mid * low) && 0 <= m * low
    ensures high * (mid * low) + m * low + l < top * (mid * low)
  {
    MulLeft(m + 1, mid, low);
    MulLeft(high + 1, top, mid * low);
  }

  /** A quotient by d is below n when the dividend is below n * d. */
  lemma DivBelow(a: nat, d: nat, n: nat)
    requires d > 0 && a < n * d
    ensures a / d < n
  {
    if a / d >= n {
      MulLeft(n, a / d, d);
      assert false;
    }
  }
}
