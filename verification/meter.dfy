/** The progress meter of the command shell (src/MeshCLI.hpp): a bar of slots, each showing
    how much of its share of the file is complete. */
module Meter {
  import opened Wrappers
  import Arith

  const CHARS := [' ', '.', '_', 'v', 'Y', 'X', 'H', '#']

  // ---------------------------------------------------------------- slot boundaries

  /** The first byte of slot `i`, computed without forming `total * i`. */
  function ScaledPosition(total: nat, slots: nat, i: nat): nat
    requires slots > 0
  {
    total / slots * i + total % slots * i / slots
  }

  lemma SplitProduct(q: nat, n: nat, r: nat, i: nat)
    ensures (q * n + r) * i == q * i * n + r * i
  {
    assert (q * n + r) * i == q * n * i + r * i;
    assert q * n * i == q * i * n;
  }

  lemma SplitQuotient(x: nat, q: nat, n: nat, r: nat, i: nat)
    requires n > 0 && x == q * n + r
    ensures x * i / n == q * i + r * i / n
  {
    SplitProduct(q, n, r, i);
    AddMultiple(q * i, r * i, n);
  }

  lemma AddMultiple(a: nat, b: nat, n: nat)
    requires n > 0
    ensures (a * n + b) / n == a + b / n
  {
    assert (a + b / n) * n == a * n + b / n * n;
    Arith.DivModUnique(a * n + b, n, a + b / n, b % n);
  }

  lemma QuotientMonotone(a: nat, b: nat, n: nat)
    requires a <= b && n > 0
    ensures a / n <= b / n
  {
    if a / n > b / n {
      Arith.MulMonotone(b / n + 1, a / n, n);
    }
  }

  lemma QuotientNext(a: nat, n: nat)
    requires n > 0
    ensures (a + n) / n == a / n + 1
  {
    Arith.DivModUnique(a + n, n, a / n + 1, a % n);
  }

  lemma QuotientWhole(a: nat, n: nat)
    requires n > 0
    ensures a * n / n == a
  {
    Arith.DivModUnique(a * n, n, a, 0);
  }

  lemma QuotientAtMost(total: nat, i: nat, n: nat)
    requires n > 0 && i <= n
    ensures total * i / n <= total
  {
    Arith.MulMonotone(i, n, total);
    QuotientMonotone(total * i, total * n, n);
    QuotientWhole(total, n);
  }

  /** It is the exact quotient, and no more than `total`. */
  lemma ScaledPositionExact(total: nat, slots: nat, i: nat)
    requires slots > 0 && i <= slots
    ensures ScaledPosition(total, slots, i) == total * i / slots <= total
  {
    SplitQuotient(total, total / slots, slots, total % slots, i);
    QuotientAtMost(total, i, slots);
  }

  lemma ProductFits(a: nat, b: nat)
    requires a < 0x1_0000_0000 && b < 0x1_0000_0000
    ensures a * b < WORD64
  {
    Arith.MulMonotone(a, 0x1_0000_0000, b);
  }

  /** With sizes of 64 bits and fewer than 2^32 slots nothing on the way to it overflows,
      which `total * i` would. */
  lemma ScaledPositionFits(total: nat, slots: nat, i: nat)
    requires 0 < slots < 0x1_0000_0000 && i <= slots && total < WORD64
    ensures total / slots * i < WORD64 && total % slots * i < WORD64 && ScaledPosition(total, slots, i) < WORD64
  {
    hide ScaledPosition;
    ScaledPositionExact(total, slots, i);
    WholePart(total, slots, i);
    ProductFits(total % slots, i);
  }

  lemma WholePart(total: nat, slots: nat, i: nat)
    requires slots > 0
    ensures total / slots * i <= ScaledPosition(total, slots, i) && total % slots < slots
  {
  }

  /** Slots start at the first byte, end at the last, and do not go back.  If there are at
      least as many bytes as slots, every slot has one. */
  lemma ScaledPositionGrows(total: nat, slots: nat, i: nat)
    requires slots > 0 && i < slots
    ensures ScaledPosition(total, slots, i) <= ScaledPosition(total, slots, i + 1)
    ensures total >= slots ==> ScaledPosition(total, slots, i) < ScaledPosition(total, slots, i + 1)
    ensures total < slots ==> ScaledPosition(total, slots, i + 1) <= ScaledPosition(total, slots, i) + 1
  {
    ScaledPositionExact(total, slots, i);
    ScaledPositionExact(total, slots, i + 1);
    var a, b := total * i, total * (i + 1);
    assert b == a + total;
    QuotientMonotone(a, b, slots);
    QuotientNext(a, slots);
    if total >= slots {
      QuotientMonotone(a + slots, b, slots);
    } else {
      QuotientMonotone(b, a + slots, slots);
    }
  }

  lemma ScaledPositionEnds(total: nat, slots: nat)
    requires slots > 0
    ensures ScaledPosition(total, slots, 0) == 0 && ScaledPosition(total, slots, slots) == total
  {
    ScaledPositionExact(total, slots, 0);
    ScaledPositionExact(total, slots, slots);
    QuotientWhole(total, slots);
    QuotientWhole(0, slots);
  }

  /** No slot but the last boundary reaches the end of the file. */
  lemma ScaledPositionInside(total: nat, slots: nat, i: nat)
    requires slots > 0 && i < slots && total > 0
    ensures ScaledPosition(total, slots, i) < total
  {
    ScaledPositionExact(total, slots, i);
    if total * i / slots >= total {
      Arith.MulMonotone(total, total * i / slots, slots);
      Arith.MulMonotone(i + 1, slots, total);
    }
  }

  // ---------------------------------------------------------------- counting bytes

  /** Byte `b` of the file belongs to a chunk that is marked complete. */
  predicate IsComplete(states: seq<bool>, width: nat, b: nat)
    requires width > 0
  {
    b / width < |states| && states[b / width]
  }

  /** How many of the bytes from `lo` up to `hi` are complete. */
  function CompleteBytes(states: seq<bool>, width: nat, lo: nat, hi: nat): (n: nat)
    requires width > 0
    ensures lo <= hi ==> n <= hi - lo
    decreases hi
  {
    if lo >= hi then 0
    else CompleteBytes(states, width, lo, hi - 1) + if IsComplete(states, width, hi - 1) then 1 else 0
  }

  lemma {:induction false} CompleteBytesSplit(states: seq<bool>, width: nat, lo: nat, mid: nat, hi: nat)
    requires width > 0 && lo <= mid <= hi
    ensures CompleteBytes(states, width, lo, hi) ==
              CompleteBytes(states, width, lo, mid) + CompleteBytes(states, width, mid, hi)
  {
    if mid < hi {
      CompleteBytesSplit(states, width, lo, mid, hi - 1);
    }
  }

  /** Within one chunk it is all or nothing. */
  lemma {:induction false} CompleteBytesInChunk(states: seq<bool>, width: nat, c: nat, lo: nat, hi: nat)
    requires width > 0 && lo <= hi && (lo < hi ==> c * width <= lo && hi <= (c + 1) * width)
    ensures CompleteBytes(states, width, lo, hi) == if c < |states| && states[c] then hi - lo else 0
  {
    if lo < hi {
      CompleteBytesInChunk(states, width, c, lo, hi - 1);
      assert (c + 1) * width == c * width + width;
      Arith.DivModUnique(hi - 1, width, c, hi - 1 - c * width);
    }
  }

  lemma {:induction false} NoBytesPastChunks(states: seq<bool>, width: nat, lo: nat, hi: nat)
    requires width > 0 && (lo < hi ==> |states| * width <= lo)
    ensures CompleteBytes(states, width, lo, hi) == 0
    decreases hi
  {
    if lo < hi {
      NoBytesPastChunks(states, width, lo, hi - 1);
      QuotientMonotone(|states| * width, hi - 1, width);
      QuotientWhole(|states|, width);
    }
  }

  // ---------------------------------------------------------------- one slot

  datatype Slot = Slot(start: nat, end: nat)

  function SlotAt(total: nat, slots: nat, i: nat): Slot
    requires slots > 0
  {
    var start, next := ScaledPosition(total, slots, i), ScaledPosition(total, slots, i + 1);
    var end := if next <= start then start + 1 else next;
    Slot(start, if end > total then total else end)
  }

  function Min(a: int, b: int): int { if a < b then a else b }
  function Max(a: int, b: int): int { if a > b then a else b }

  function Product(a: nat, b: nat): nat {
    if a == 0 then 0 else Product(a - 1, b) + b
  }

  lemma {:induction false} ProductIs(a: nat, b: nat)
    ensures Product(a, b) == a * b
  {
    if a > 0 {
      ProductIs(a - 1, b);
      assert a * b == (a - 1) * b + b;
    }
  }

  /** A sum, as 64 bits hold it. */
  function Word(x: nat): nat { x % WORD64 }

  /** What the loop counts from chunk `c` on, which it believes to start at `chunkStart`. */
  function Filled(states: seq<bool>, width: nat, total: nat, start: nat, end: nat, c: nat, chunkStart: nat): nat
    requires 0 < width
    decreases |states| - c
  {
    if c >= |states| || chunkStart >= end then 0
    else
      (if states[c] then ChunkPart(start, end, chunkStart, Min(Word(chunkStart + width), total)) else 0)
      + Filled(states, width, total, start, end, c + 1, Word(chunkStart + width))
  }

  /** The chunk the loop starts with, among `n`. */
  function FirstOf(n: nat, width: nat, start: nat): nat
    requires 0 < width && 0 < n
  {
    if start / width >= n then n - 1 else start / width
  }

  /** The last chunk that the slot touches, among `n`. */
  function LastOf(n: nat, width: nat, end: nat): nat
    requires 0 < width && 0 < n && 0 < end
  {
    if (end - 1) / width >= n then n - 1 else (end - 1) / width
  }

  function SlotFill(states: seq<bool>, width: nat, total: nat, start: nat, end: nat): nat
    requires 0 < width && states != []
  {
    Filled(states, width, total, start, end, FirstOf(|states|, width, start),
           Product(FirstOf(|states|, width, start), width))
  }

  /** The end of the last chunk that the slot touches can be written in 64 bits. */
  predicate EndFits(n: nat, width: nat, end: nat)
    requires 0 < width && 0 < n && 0 < end
  {
    Product(LastOf(n, width, end) + 1, width) < WORD64
  }

  /** The loop over the chunks that touch the slot counts exactly its complete bytes, as long
      as the end of the last of them can be written in 64 bits. */
  method FillSlot(states: seq<bool>, width: nat, total: nat, start: nat, end: nat) returns (filled: nat)
    requires 0 < width && start < end <= total && states != []
    ensures filled == SlotFill(states, width, total, start, end)
    ensures EndFits(|states|, width, end) ==> filled == CompleteBytes(states, width, start, end)
  {
    hide CompleteBytes, Product, Word, EndFits, Filled, SlotFill, FirstOf;
    filled := 0;
    var c := start / width;
    if c >= |states| { c := |states| - 1; }
    var chunkStart: nat := Product(c, width);
    if EndFits(|states|, width, end) { SlotFillCounts(states, width, total, start, end); }
    SlotFillStarts(states, width, total, start, end, c);
    while c < |states| && chunkStart < end
      invariant filled + Filled(states, width, total, start, end, c, chunkStart) ==
        SlotFill(states, width, total, start, end)
      decreases |states| - c
    {
      FilledStep(states, width, total, start, end, c, chunkStart);
      var chunkEnd := Min(Word(chunkStart + width), total);
      if states[c] {
        var from, to := Max(start, chunkStart), Min(end, chunkEnd);
        if to > from { filled := filled + (to - from); }
      }
      c := c + 1;
      chunkStart := Word(chunkStart + width);
    }
    FilledStep(states, width, total, start, end, c, chunkStart);
  }

  lemma SlotFillStarts(states: seq<bool>, width: nat, total: nat, start: nat, end: nat, c: nat)
    requires 0 < width && states != [] && c == if start / width >= |states| then |states| - 1 else start / width
    ensures Filled(states, width, total, start, end, c, Product(c, width)) == SlotFill(states, width, total, start, end)
  {
    hide Filled, Product;
  }

  lemma FilledStep(states: seq<bool>, width: nat, total: nat, start: nat, end: nat, c: nat, chunkStart: nat)
    requires 0 < width
    ensures Filled(states, width, total, start, end, c, chunkStart) ==
              if c >= |states| || chunkStart >= end then 0
              else (if states[c] then ChunkPart(start, end, chunkStart, Min(Word(chunkStart + width), total)) else 0)
                   + Filled(states, width, total, start, end, c + 1, Word(chunkStart + width))
  {
  }

  lemma SlotFillCounts(states: seq<bool>, width: nat, total: nat, start: nat, end: nat)
    requires 0 < width && start < end <= total && states != [] && EndFits(|states|, width, end)
    ensures SlotFill(states, width, total, start, end) == CompleteBytes(states, width, start, end)
  {
    var c := FirstOf(|states|, width, start);
    CountingStarts(states, width, total, start, end, c);
    CountingTotal(states, width, total, start, end, c, Product(c, width), 0);
  }

  lemma {:induction false} CountingTotal(states: seq<bool>, width: nat, total: nat, start: nat, end: nat, c: nat,
                                         chunkStart: nat, filled: nat)
    requires 0 < width && start < end <= total && states != [] && EndFits(|states|, width, end)
    requires Counting(states, width, total, start, end, c, chunkStart, filled)
    ensures filled + Filled(states, width, total, start, end, c, chunkStart) == CompleteBytes(states, width, start, end)
    decreases |states| - c
  {
    hide CompleteBytes, Counting, EndFits;
    if c < |states| && chunkStart < end {
      StartOf(states, width, total, start, end, c, chunkStart, filled);
      NextStart(|states|, width, end, c);
      CountingGoesOn(states, width, total, start, end, c, chunkStart, filled);
      var part := if states[c] then ChunkPart(start, end, chunkStart, Min(chunkStart + width, total)) else 0;
      CountingTotal(states, width, total, start, end, c + 1, chunkStart + width, filled + part);
    } else {
      CountingEnds(states, width, total, start, end, c, chunkStart, filled);
    }
  }

  /** Which slots are counted right, whichever chunks are complete: exactly those whose last
      chunk ends below 2^64.  Otherwise that end wraps round and the chunk counts for nothing. */
  lemma FillExactly(n: nat, width: nat, total: nat, start: nat, end: nat)
    requires 0 < n && 0 < width < WORD64 && start < end <= total < WORD64
    ensures (forall states | |states| == n ::
               SlotFill(states, width, total, start, end) == CompleteBytes(states, width, start, end))
              <==> EndFits(n, width, end)
  {
    if EndFits(n, width, end) {
      forall states: seq<bool> | |states| == n
        ensures SlotFill(states, width, total, start, end) == CompleteBytes(states, width, start, end)
      {
        SlotFillCounts(states, width, total, start, end);
      }
    } else {
      var states := OnlyLast(n, width, end);
      NothingInSlot(states, n, width, total, start, end, end);
      IsCompleteAt(states, width, start, end);
    }
  }

  /** Only the chunk with the byte before `end` is complete, if there is one. */
  function OnlyLast(n: nat, width: nat, end: nat): (states: seq<bool>)
    requires 0 < n && 0 < width && 0 < end
    ensures |states| == n && forall k :: 0 <= k < n ==> (states[k] <==> k == LastOf(n, width, end))
  {
    seq(n, k => k == LastOf(n, width, end))
  }

  lemma IsCompleteAt(states: seq<bool>, width: nat, start: nat, end: nat)
    requires 0 < width && start < end && IsComplete(states, width, end - 1)
    ensures CompleteBytes(states, width, start, end) > 0
  {
  }

  /** If the end of the chunk before `to` wraps, a slot up to there counts none of it. */
  lemma NothingInSlot(states: seq<bool>, n: nat, width: nat, total: nat, start: nat, end: nat, to: nat)
    requires 0 < n && 0 < width < WORD64 && start < end <= to < WORD64 && !EndFits(n, width, to)
    requires states == OnlyLast(n, width, to)
    ensures SlotFill(states, width, total, start, end) == 0
    ensures IsComplete(states, width, to - 1)
  {
    hide Word, EndFits, Filled;
    LastWraps(n, width, to);
    ProductIs(FirstOf(n, width, start), width);
    QuotientMonotone(start, to - 1, width);
    WrappedCountsNothing(states, width, total, start, end, FirstOf(n, width, start), LastOf(n, width, to));
  }

  /** A last chunk whose end wraps is the one with the slot's last byte. */
  lemma LastWraps(n: nat, width: nat, end: nat)
    requires 0 < n && 0 < width < WORD64 && 0 < end < WORD64 && !EndFits(n, width, end)
    ensures LastOf(n, width, end) == (end - 1) / width < n
    ensures (end - 1) / width * width < end && Word((end - 1) / width * width + width) < (end - 1) / width * width
  {
    ProductIs(LastOf(n, width, end) + 1, width);
    var last, q := LastOf(n, width, end), (end - 1) / width;
    assert (last + 1) * width == last * width + width;
    assert q * width + (end - 1) % width == end - 1;
    if last < q { Arith.MulMonotone(last + 1, q, width); }
    Arith.DivModUnique(last * width + width, WORD64, 1, last * width + width - WORD64);
  }

  lemma {:induction false} NothingAfter(states: seq<bool>, width: nat, total: nat, start: nat, end: nat, c: nat,
                                        chunkStart: nat)
    requires 0 < width && forall k :: c <= k < |states| ==> !states[k]
    ensures Filled(states, width, total, start, end, c, chunkStart) == 0
    decreases |states| - c
  {
    if c < |states| && chunkStart < end {
      NothingAfter(states, width, total, start, end, c + 1, Word(chunkStart + width));
    }
  }

  lemma NextWord(width: nat, c: nat, last: nat)
    requires c < last && last * width < WORD64
    ensures Word(c * width + width) == (c + 1) * width
  {
    assert (c + 1) * width == c * width + width;
    Arith.MulMonotone(c + 1, last, width);
  }

  lemma NothingInWrapped(start: nat, end: nat, chunkStart: nat, next: nat, total: nat)
    requires next < chunkStart
    ensures ChunkPart(start, end, chunkStart, Min(next, total)) == 0
  {
  }

  /** If only the chunk whose end wraps is complete, nothing is counted. */
  lemma {:induction false} WrappedCountsNothing(states: seq<bool>, width: nat, total: nat, start: nat, end: nat, c: nat,
                                                last: nat)
    requires 0 < width && c <= last < |states| && last * width < WORD64 && Word(last * width + width) < last * width
    requires forall k :: 0 <= k < |states| && k != last ==> !states[k]
    ensures Filled(states, width, total, start, end, c, c * width) == 0
    decreases last - c
  {
    hide Filled, Word, ChunkPart;
    FilledStep(states, width, total, start, end, c, c * width);
    if c < last {
      NextWord(width, c, last);
      WrappedCountsNothing(states, width, total, start, end, c + 1, last);
    } else {
      var next := Word(last * width + width);
      NothingInWrapped(start, end, last * width, next, total);
      NothingAfter(states, width, total, start, end, last + 1, next);
    }
  }

  /** The loop is at chunk `c`, which starts at `chunkStart`, and has counted what lies before. */
  ghost predicate Counting(states: seq<bool>, width: nat, total: nat, start: nat, end: nat, c: nat, chunkStart: nat,
                           filled: nat)
    requires 0 < width && start < end <= total
  {
    && c <= |states| && chunkStart == Product(c, width)
    && (chunkStart <= start && start >= chunkStart + width ==> c + 1 >= |states|)
    && filled == CompleteBytes(states, width, start, Mid(start, end, chunkStart))
  }

  function ChunkPart(start: nat, end: nat, chunkStart: nat, chunkEnd: nat): nat {
    var from, to := Max(start, chunkStart), Min(end, chunkEnd);
    if to > from then to - from else 0
  }

  lemma CountingStarts(states: seq<bool>, width: nat, total: nat, start: nat, end: nat, c: nat)
    requires 0 < width && start < end <= total && states != []
    requires c == if start / width >= |states| then |states| - 1 else start / width
    ensures Counting(states, width, total, start, end, c, Product(c, width), 0)
  {
    ProductIs(c, width);
    FirstChunk(start, width, c);
  }

  lemma CountingGoesOn(states: seq<bool>, width: nat, total: nat, start: nat, end: nat, c: nat, chunkStart: nat,
                       filled: nat)
    requires 0 < width && start < end <= total && chunkStart + width < WORD64
    requires Counting(states, width, total, start, end, c, chunkStart, filled) && c < |states| && chunkStart < end
    ensures Word(chunkStart + width) == chunkStart + width
    ensures Counting(states, width, total, start, end, c + 1, chunkStart + width,
                     filled + if states[c] then ChunkPart(start, end, chunkStart, Min(chunkStart + width, total))
                              else 0)
  {
    hide CompleteBytes, ChunkPart;
    ProductIs(c, width);
    ChunkCounts(states, width, total, start, end, c, chunkStart);
  }

  lemma StartOf(states: seq<bool>, width: nat, total: nat, start: nat, end: nat, c: nat, chunkStart: nat, filled: nat)
    requires 0 < width && start < end <= total && Counting(states, width, total, start, end, c, chunkStart, filled)
    ensures chunkStart == c * width
  {
    ProductIs(c, width);
  }

  lemma NextStart(n: nat, width: nat, end: nat, c: nat)
    requires 0 < width && c < n && c * width < end && EndFits(n, width, end)
    ensures c * width + width < WORD64 && Word(c * width + width) == c * width + width == (c + 1) * width
  {
    EndsInside(n, width, end, c);
    assert (c + 1) * width == c * width + width;
  }

  lemma CountingEnds(states: seq<bool>, width: nat, total: nat, start: nat, end: nat, c: nat, chunkStart: nat,
                     filled: nat)
    requires 0 < width && start < end <= total
    requires Counting(states, width, total, start, end, c, chunkStart, filled) && (c >= |states| || chunkStart >= end)
    ensures filled == CompleteBytes(states, width, start, end)
  {
    ProductIs(c, width);
    var mid := Mid(start, end, chunkStart);
    CompleteBytesSplit(states, width, start, mid, end);
    if chunkStart < end { NoBytesPastChunks(states, width, mid, end); }
  }

  lemma FirstChunk(start: nat, width: nat, c: nat)
    requires width > 0 && c <= start / width
    ensures c * width <= start && (c == start / width ==> start < c * width + width)
  {
    Arith.MulMonotone(c, start / width, width);
  }

  /** How far the slot has been counted when the chunk at `chunkStart` is next. */
  function Mid(start: nat, end: nat, chunkStart: nat): nat { Min(end, Max(start, chunkStart)) }

  lemma ChunkCounts(states: seq<bool>, width: nat, total: nat, start: nat, end: nat, c: nat, chunkStart: nat)
    requires 0 < width && start < end <= total
    requires c < |states| && chunkStart == c * width < end && chunkStart + width < WORD64
    ensures (chunkStart + width) % WORD64 == (c + 1) * width
    ensures CompleteBytes(states, width, start, Mid(start, end, chunkStart + width)) ==
              CompleteBytes(states, width, start, Mid(start, end, chunkStart)) +
              if states[c] then ChunkPart(start, end, chunkStart, Min(chunkStart + width, total)) else 0
  {
    hide CompleteBytes;
    assert (c + 1) * width == c * width + width;
    var done, next := Mid(start, end, chunkStart), Mid(start, end, chunkStart + width);
    CompleteBytesSplit(states, width, start, done, next);
    CompleteBytesInChunk(states, width, c, done, next);
  }

  /** No chunk that starts before the slot's end ends after its last one. */
  lemma EndsInside(n: nat, width: nat, end: nat, c: nat)
    requires 0 < width && c < n && c * width < end
    ensures (c + 1) * width <= Product(LastOf(n, width, end) + 1, width)
  {
    ProductIs(LastOf(n, width, end) + 1, width);
    QuotientMonotone(c * width, end - 1, width);
    QuotientWhole(c, width);
    Arith.MulMonotone(c + 1, LastOf(n, width, end) + 1, width);
  }

  // ---------------------------------------------------------------- the bar

  /** The character for `filled` of `len` bytes. */
  function Level(filled: nat, len: nat): (k: nat)
    requires len > 0
    ensures k < |CHARS|
  {
    Min(|CHARS| - 1, filled * |CHARS| / len)
  }

  lemma SlotIsReal(total: nat, slots: nat, i: nat)
    requires i < slots && total > 0
    ensures var s := SlotAt(total, slots, i); s.start < s.end <= total
  {
    ScaledPositionInside(total, slots, i);
    ScaledPositionExact(total, slots, i + 1);
  }

  /** What slot `i` of the bar shows if `filled` of its bytes count. */
  function BarChar(filled: nat, total: nat, slots: nat, i: nat): char
    requires i < slots && total > 0
  {
    var s := SlotAt(total, slots, i);
    if s.start >= total || s.end <= s.start then '_' else CHARS[Level(filled, s.end - s.start)]
  }

  predicate SlotFits(states: seq<bool>, width: nat, total: nat, slots: nat, i: nat)
    requires i < slots && width > 0 && total > 0 && states != []
  {
    SlotIsReal(total, slots, i);
    EndFits(|states|, width, SlotAt(total, slots, i).end)
  }

  /** A slot shows what its loop counts, which is its complete bytes if its last chunk's end
      can be written in 64 bits. */
  predicate Shows(c: char, states: seq<bool>, width: nat, total: nat, slots: nat, i: nat)
    requires i < slots && width > 0 && total > 0 && states != []
  {
    var s := SlotAt(total, slots, i);
    && c == BarChar(SlotFill(states, width, total, s.start, s.end), total, slots, i)
    && (SlotFits(states, width, total, slots, i) ==>
          c == BarChar(CompleteBytes(states, width, s.start, s.end), total, slots, i))
  }

  lemma SlotShows(states: seq<bool>, width: nat, total: nat, slots: nat, i: nat)
    requires i < slots && width > 0 && total > 0 && states != []
    ensures var s := SlotAt(total, slots, i);
            s.start < s.end <= total &&
            Shows(CHARS[Level(SlotFill(states, width, total, s.start, s.end), s.end - s.start)],
                  states, width, total, slots, i)
  {
    hide SlotAt, CompleteBytes, Level, EndFits, SlotFill;
    SlotIsReal(total, slots, i);
    var s := SlotAt(total, slots, i);
    if EndFits(|states|, width, s.end) { SlotFillCounts(states, width, total, s.start, s.end); }
  }

  /** The bar, with the size as the code takes it: no slots or no chunk size count as one. */
  method FormatBar(states: seq<bool>, total: nat, chunkSize: nat, meterSize: nat) returns (bar: string)
    ensures |bar| == Max(1, meterSize)
    ensures total == 0 || states == [] ==> forall i :: 0 <= i < |bar| ==> bar[i] == '_'
    ensures total > 0 && states != [] ==>
      forall i :: 0 <= i < |bar| ==> Shows(bar[i], states, Max(1, chunkSize), total, |bar|, i)
  {
    hide ScaledPosition, CompleteBytes, Level, EndFits, SlotFill, SlotFits;
    var slots := Max(1, meterSize);
    var width := if chunkSize == 0 then 1 else chunkSize;
    if total == 0 || states == [] {
      return seq(slots, i => '_');
    }
    bar := "";
    for slot := 0 to slots
      invariant |bar| == slot
      invariant forall i :: 0 <= i < slot ==> Shows(bar[i], states, width, total, slots, i)
    {
      var start := ScaledPosition(total, slots, slot);
      if start >= total {
        bar := bar + ['_'];
        continue;
      }
      var end := ScaledPosition(total, slots, slot + 1);
      if end <= start { end := start + 1; }
      if end > total { end := total; }
      SlotShows(states, width, total, slots, slot);
      var filled := FillSlot(states, width, total, start, end);
      bar := bar + [CHARS[Level(filled, end - start)]];
    }
  }

  /** A slot shows level `k` when at least `k` eighths of it are complete and, below the last
      level, fewer than `k + 1`. */
  lemma LevelMeaning(filled: nat, len: nat, k: nat)
    requires 0 < len && filled <= len && k < 8
    ensures Level(filled, len) == k <==> k * len <= filled * 8 && (k < 7 ==> filled * 8 < (k + 1) * len)
  {
    var x := filled * 8;
    assert x == x / len * len + x % len;
    if k * len <= x < (k + 1) * len {
      Arith.DivModUnique(x, len, k, x - k * len);
    }
    if k <= x / len {
      Arith.MulMonotone(k, x / len, len);
    }
    if x / len < k + 1 {
      Arith.MulMonotone(x / len + 1, k + 1, len);
    }
    if k < x / len {
      Arith.MulMonotone(k + 1, x / len, len);
    }
    if x / len < k {
      Arith.MulMonotone(x / len + 1, k, len);
    }
  }

  // ---------------------------------------------------------------- all slots together

  /** What the loops of the first `i` slots count. */
  function SlotSum(states: seq<bool>, width: nat, total: nat, slots: nat, i: nat): nat
    requires i <= slots && slots > 0 && width > 0 && states != []
  {
    if i == 0 then 0
    else
      var s := SlotAt(total, slots, i - 1);
      SlotSum(states, width, total, slots, i - 1) + SlotFill(states, width, total, s.start, s.end)
  }

  lemma EarlierEndFits(n: nat, width: nat, end: nat, to: nat)
    requires 0 < width && 0 < n && 0 < end <= to && EndFits(n, width, to)
    ensures EndFits(n, width, end)
  {
    ProductIs(LastOf(n, width, end) + 1, width);
    ProductIs(LastOf(n, width, to) + 1, width);
    QuotientMonotone(end - 1, to - 1, width);
    Arith.MulMonotone(LastOf(n, width, end) + 1, LastOf(n, width, to) + 1, width);
  }

  /** What one slot counts, if the last chunk's end can be written in 64 bits. */
  lemma SlotCounts(states: seq<bool>, width: nat, total: nat, slots: nat, i: nat)
    requires i < slots && width > 0 && total > 0 && states != [] && EndFits(|states|, width, total)
    ensures var s := SlotAt(total, slots, i);
            SlotFill(states, width, total, s.start, s.end) == CompleteBytes(states, width, s.start, s.end)
  {
    hide SlotAt, EndFits, SlotFill, CompleteBytes;
    var s := SlotAt(total, slots, i);
    SlotIsReal(total, slots, i);
    EarlierEndFits(|states|, width, s.end, total);
    SlotFillCounts(states, width, total, s.start, s.end);
  }

  lemma {:induction false} SlotsPartition(states: seq<bool>, width: nat, total: nat, slots: nat, i: nat)
    requires i <= slots <= total && slots > 0 && width > 0 && states != [] && EndFits(|states|, width, total)
    ensures SlotSum(states, width, total, slots, i) == CompleteBytes(states, width, 0, ScaledPosition(total, slots, i))
  {
    hide EndFits, SlotFill, CompleteBytes, ScaledPosition;
    if i == 0 {
      ScaledPositionEnds(total, slots);
      NoBytes(states, width);
    } else {
      SlotsPartition(states, width, total, slots, i - 1);
      ScaledPositionGrows(total, slots, i - 1);
      ScaledPositionExact(total, slots, i);
      SlotCounts(states, width, total, slots, i - 1);
      CompleteBytesSplit(states, width, 0, ScaledPosition(total, slots, i - 1), ScaledPosition(total, slots, i));
    }
  }

  lemma NoBytes(states: seq<bool>, width: nat)
    requires width > 0
    ensures CompleteBytes(states, width, 0, 0) == 0
  {
  }

  /** With fewer bytes than slots every slot is widened to one byte, and the first byte has
      two slots at least. */
  lemma {:induction false} SlotsOvercount(states: seq<bool>, width: nat, total: nat, slots: nat, i: nat)
    requires 0 < i <= slots && 0 < total < slots && width > 0 && states != [] && states[0]
    requires EndFits(|states|, width, total)
    ensures SlotSum(states, width, total, slots, i) > CompleteBytes(states, width, 0, ScaledPosition(total, slots, i))
  {
    hide EndFits, SlotFill, CompleteBytes, ScaledPosition;
    var start, next := ScaledPosition(total, slots, i - 1), ScaledPosition(total, slots, i);
    WidenedSlot(total, slots, i - 1);
    SlotCounts(states, width, total, slots, i - 1);
    CompleteBytesSplit(states, width, 0, start, start + 1);
    if i == 1 {
      FirstByte(states, width, total, slots);
      assert SlotSum(states, width, total, slots, 0) == 0;
    } else {
      SlotsOvercount(states, width, total, slots, i - 1);
      CompleteBytesSplit(states, width, 0, next, start + 1);
    }
  }

  lemma WidenedSlot(total: nat, slots: nat, i: nat)
    requires i < slots && 0 < total < slots
    ensures SlotAt(total, slots, i) == Slot(ScaledPosition(total, slots, i), ScaledPosition(total, slots, i) + 1)
    ensures ScaledPosition(total, slots, i + 1) <= ScaledPosition(total, slots, i) + 1
  {
    hide ScaledPosition;
    ScaledPositionGrows(total, slots, i);
    ScaledPositionInside(total, slots, i);
  }

  lemma FirstByte(states: seq<bool>, width: nat, total: nat, slots: nat)
    requires total < slots && width > 0 && states != [] && states[0]
    ensures ScaledPosition(total, slots, 0) == ScaledPosition(total, slots, 1) == 0
    ensures CompleteBytes(states, width, 0, 0) == 0 && CompleteBytes(states, width, 0, 1) == 1
  {
    assert 0 / width == 0;
  }

  /** If the end of the file's last chunk wraps, no slot counts any of it. */
  lemma {:induction false} SlotsMissLast(n: nat, width: nat, total: nat, slots: nat, i: nat)
    requires 0 < n && 0 < width < WORD64 && 0 < total < WORD64 && i <= slots && slots > 0 && !EndFits(n, width, total)
    ensures SlotSum(OnlyLast(n, width, total), width, total, slots, i) == 0
  {
    if i > 0 {
      hide EndFits, SlotAt, SlotFill;
      SlotsMissLast(n, width, total, slots, i - 1);
      SlotIsReal(total, slots, i - 1);
      var s := SlotAt(total, slots, i - 1);
      NothingInSlot(OnlyLast(n, width, total), n, width, total, s.start, s.end, total);
    }
  }

  /** What the slots count adds up to the complete bytes of the file, whichever of its chunks
      are complete, exactly when it has at least as many bytes as the bar has slots and the
      end of its last chunk can be written in 64 bits. */
  lemma SlotsAddUpExactly(n: nat, width: nat, total: nat, slots: nat)
    requires 0 < n && 0 < width < WORD64 && 0 < total < WORD64 && 0 < slots
    ensures AddsUp(n, width, total, slots) <==> total >= slots && EndFits(n, width, total)
  {
    hide EndFits, CompleteBytes, SlotSum, ScaledPosition;
    ScaledPositionEnds(total, slots);
    if !EndFits(n, width, total) {
      var states := OnlyLast(n, width, total);
      SlotsMissLast(n, width, total, slots, slots);
      NothingInSlot(states, n, width, total, 0, total, total);
      IsCompleteAt(states, width, 0, total);
    } else if total < slots {
      var states := seq(n, k => true);
      SlotsOvercount(states, width, total, slots, slots);
    } else {
      forall states: seq<bool> | |states| == n
        ensures SlotSum(states, width, total, slots, slots) == CompleteBytes(states, width, 0, total)
      {
        SlotsPartition(states, width, total, slots, slots);
      }
    }
  }

  ghost predicate AddsUp(n: nat, width: nat, total: nat, slots: nat)
    requires 0 < n && 0 < width && 0 < slots
  {
    forall states: seq<bool> :: |states| == n ==>
      SlotSum(states, width, total, slots, slots) == CompleteBytes(states, width, 0, total)
  }
}
