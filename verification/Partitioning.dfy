/** Ranges of hash partitions, the rows they select, and the even split used when a task is scaled up. */
module Partitioning {
  datatype PartitionRange = PartitionRange(start: nat, end: nat, partitions: nat) {
    predicate IsEmpty() { start == end }

    /** Some partitions, and at least one of them in the range. */
    predicate Proper() { partitions > 0 && start < end }

    function Size(): nat requires start <= end { end - start }

    function Intersection(other: PartitionRange): PartitionRange {
      var lo := if start < other.start then other.start else start;
      var hi := if end < other.end then end else other.end;
      if lo < hi then PartitionRange(lo, hi, partitions) else PartitionRange(0, 0, 0)
    }

    predicate ContainsHash(hash: nat)
      requires partitions > 0
    {
      start <= hash % partitions < end
    }
  }

  /** The partition number lies in the range. */
  predicate Spans(range: PartitionRange, x: nat) {
    range.start <= x < range.end
  }

  /** Two ranges own the same hashes. */
  ghost predicate SameHashes(a: PartitionRange, b: PartitionRange)
    requires a.partitions > 0 && b.partitions > 0
  {
    forall hash: nat :: a.ContainsHash(hash) <==> b.ContainsHash(hash)
  }

  /** The rows of a batch whose hash lies in the range, in order. */
  function Kept<R>(rows: seq<R>, range: PartitionRange, hash: R -> nat): seq<R>
    requires range.partitions > 0
  {
    if rows == [] then []
    else (if range.ContainsHash(hash(rows[0])) then [rows[0]] else []) + Kept(rows[1..], range, hash)
  }

  lemma {:induction false} KeptAppend<R>(a: seq<R>, b: seq<R>, range: PartitionRange, hash: R -> nat)
    requires range.partitions > 0
    ensures Kept(a + b, range, hash) == Kept(a, range, hash) + Kept(b, range, hash)
  {
    if a == [] {
      assert a + b == b;
    } else {
      var head := if range.ContainsHash(hash(a[0])) then [a[0]] else [];
      KeptAppend(a[1..], b, range, hash);
      assert (a + b)[0] == a[0] && (a + b)[1..] == a[1..] + b;
      assert head + (Kept(a[1..], range, hash) + Kept(b, range, hash)) ==
             head + Kept(a[1..], range, hash) + Kept(b, range, hash);
    }
  }

  function Taken<R>(rows: seq<R>, indices: seq<nat>): seq<R>
    requires forall j | 0 <= j < |indices| :: indices[j] < |rows|
  {
    seq(|indices|, j requires 0 <= j < |indices| => rows[indices[j]])
  }

  lemma TakeNext<R>(rows: seq<R>, indices: seq<nat>, k: nat, range: PartitionRange, hash: R -> nat)
    requires k < |rows| && range.partitions > 0
    requires forall j | 0 <= j < |indices| :: indices[j] < |rows|
    requires Taken(rows, indices) == Kept(rows[..k], range, hash)
    ensures var more := if range.ContainsHash(hash(rows[k])) then indices + [k] else indices;
            Taken(rows, more) == Kept(rows[..k + 1], range, hash)
  {
    assert rows[..k + 1] == rows[..k] + [rows[k]];
    KeptAppend(rows[..k], [rows[k]], range, hash);
    if range.ContainsHash(hash(rows[k])) {
      assert Taken(rows, indices + [k]) == Taken(rows, indices) + [rows[k]];
    }
  }

  /** Hashes every row, collects the indices of those in the range and takes them. */
  method FilterByPartitionRange<R>(rows: seq<R>, range: PartitionRange, hash: R -> nat) returns (kept: seq<R>)
    requires rows != [] ==> range.partitions > 0
    ensures rows == [] ==> kept == []
    ensures rows != [] ==> kept == Kept(rows, range, hash)
  {
    if rows == [] {
      return [];
    }
    var hashes := seq(|rows|, i requires 0 <= i < |rows| => hash(rows[i]));
    var indices: seq<nat> := [];
    for k := 0 to |rows|
      invariant forall j | 0 <= j < |indices| :: indices[j] < |rows|
      invariant Taken(rows, indices) == Kept(rows[..k], range, hash)
    {
      TakeNext(rows, indices, k, range, hash);
      if range.ContainsHash(hashes[k]) {
        indices := indices + [k];
      }
    }
    kept := Taken(rows, indices);
    assert rows[..|rows|] == rows;
  }

  // ---- The split of `scale_up` ----

  /** The cap is written as an exclusive or of 2 and 32. Its comment means 2 to the power of 32. */
  const NEW_PARTITION_CAP: nat := 34

  function SplitStart(cap: nat, n: nat, i: nat): nat
    requires n > 0
  {
    i * (cap / n) + if i < cap % n then i else cap % n
  }

  function SplitRanges(cap: nat, n: nat): seq<PartitionRange>
    requires n > 0
  {
    seq(n, i requires 0 <= i < n =>
      var size := cap / n + if i < cap % n then 1 else 0;
      PartitionRange(SplitStart(cap, n, i), SplitStart(cap, n, i) + size, cap))
  }

  /** Consecutive ranges that cover `lo..hi` without gap or overlap. */
  ghost predicate Tiles(ranges: seq<PartitionRange>, lo: nat, hi: nat, cap: nat) {
    if ranges == [] then lo == hi
    else
      && ranges[0].start == lo <= ranges[0].end
      && ranges[0].partitions == cap
      && Tiles(ranges[1..], ranges[0].end, hi, cap)
  }

  lemma SplitMeets(cap: nat, n: nat, i: nat)
    requires n > 0 && i < n
    ensures SplitRanges(cap, n)[i].end == SplitStart(cap, n, i + 1)
    ensures SplitStart(cap, n, 0) == 0 && SplitStart(cap, n, n) == cap
  {
    assert (i + 1) * (cap / n) == i * (cap / n) + cap / n;
  }

  lemma {:induction false} SplitTilesFrom(cap: nat, n: nat, i: nat)
    requires n > 0 && i <= n
    ensures Tiles(SplitRanges(cap, n)[i..], SplitStart(cap, n, i), cap, cap)
    decreases n - i
  {
    var ranges := SplitRanges(cap, n);
    if i < n {
      SplitTilesFrom(cap, n, i + 1);
      SplitMeets(cap, n, i);
      assert ranges[i..][1..] == ranges[i + 1..];
    } else {
      SplitMeets(cap, n, 0);
    }
  }

  /** For every cap and every positive number of copies, the ranges tile all partitions and are even to within one. */
  lemma SplitTiles(cap: nat, n: nat)
    requires n > 0
    ensures |SplitRanges(cap, n)| == n
    ensures Tiles(SplitRanges(cap, n), 0, cap, cap)
    ensures forall i | 0 <= i < n :: cap / n <= SplitRanges(cap, n)[i].Size() <= cap / n + 1
    ensures forall i, j | 0 <= i < j < n :: SplitRanges(cap, n)[j].Size() <= SplitRanges(cap, n)[i].Size()
  {
    SplitTilesFrom(cap, n, 0);
    SplitMeets(cap, n, 0);
    assert SplitRanges(cap, n)[0..] == SplitRanges(cap, n);
  }

  lemma SmallCap(cap: nat, n: nat)
    requires n > 0
    ensures cap < n ==> cap / n == 0 && cap % n == cap
    ensures cap >= n ==> cap / n >= 1
  {
  }

  /** A range of the split has partitions as long as there are partitions left to give out. */
  lemma SplitNonempty(cap: nat, n: nat, i: nat)
    requires n > 0 && i < n
    ensures var range := SplitRanges(cap, n)[i];
            range.start <= range.end <= cap && (range.start < range.end <==> i < cap)
  {
    SplitTiles(cap, n);
    TilesBounds(SplitRanges(cap, n), 0, cap, cap);
    SmallCap(cap, n);
  }

  /** Every hash belongs to exactly one range of a tiling. */
  lemma {:induction false} OneRange(ranges: seq<PartitionRange>, lo: nat, hi: nat, cap: nat, hash: nat)
      returns (i: nat)
    requires Tiles(ranges, lo, hi, cap) && cap > 0 && lo <= hash % cap < hi
    ensures i < |ranges| && ranges[i].partitions == cap && ranges[i].ContainsHash(hash)
    ensures forall j | 0 <= j < |ranges| && j != i :: ranges[j].partitions == cap && !ranges[j].ContainsHash(hash)
  {
    TilesBounds(ranges, lo, hi, cap);
    if hash % cap < ranges[0].end {
      i := 0;
      TilesBounds(ranges[1..], ranges[0].end, hi, cap);
      assert forall j | 0 < j < |ranges| :: ranges[j] == ranges[1..][j - 1];
    } else {
      i := OneRange(ranges[1..], ranges[0].end, hi, cap, hash);
      i := i + 1;
      assert forall j | 0 < j < |ranges| :: ranges[j] == ranges[1..][j - 1];
    }
  }

  lemma {:induction false} TilesBounds(ranges: seq<PartitionRange>, lo: nat, hi: nat, cap: nat)
    requires Tiles(ranges, lo, hi, cap)
    ensures lo <= hi
    ensures forall j | 0 <= j < |ranges| :: lo <= ranges[j].start <= ranges[j].end <= hi && ranges[j].partitions == cap
  {
    if ranges != [] {
      TilesBounds(ranges[1..], ranges[0].end, hi, cap);
      assert forall j | 0 < j < |ranges| :: ranges[j] == ranges[1..][j - 1];
    }
  }

  /** The rows that all the ranges select, together. */
  ghost function Together<R>(rows: seq<R>, ranges: seq<PartitionRange>, hash: R -> nat): multiset<R>
    requires forall j | 0 <= j < |ranges| :: ranges[j].partitions > 0
  {
    if ranges == [] then multiset{}
    else multiset(Kept(rows, ranges[0], hash)) + Together(rows, ranges[1..], hash)
  }

  lemma {:induction false} KeptSplit<R>(rows: seq<R>, lo: nat, mid: nat, hi: nat, cap: nat, hash: R -> nat)
    requires cap > 0 && lo <= mid <= hi
    ensures multiset(Kept(rows, PartitionRange(lo, hi, cap), hash)) ==
            multiset(Kept(rows, PartitionRange(lo, mid, cap), hash)) +
            multiset(Kept(rows, PartitionRange(mid, hi, cap), hash))
  {
    if rows != [] { KeptSplit(rows[1..], lo, mid, hi, cap, hash); }
  }

  /** Ranges that tile `lo..hi` select, together, what the whole range selects. */
  lemma {:induction false} TilesConserve<R>(rows: seq<R>, ranges: seq<PartitionRange>, lo: nat, hi: nat, cap: nat,
                                            hash: R -> nat)
    requires Tiles(ranges, lo, hi, cap) && cap > 0
    ensures lo <= hi
    ensures forall j | 0 <= j < |ranges| :: ranges[j].partitions > 0
    ensures Together(rows, ranges, hash) == multiset(Kept(rows, PartitionRange(lo, hi, cap), hash))
  {
    TilesBounds(ranges, lo, hi, cap);
    if ranges == [] {
      KeptNothing(rows, PartitionRange(lo, hi, cap), hash);
    } else {
      TilesConserve(rows, ranges[1..], ranges[0].end, hi, cap, hash);
      KeptSplit(rows, lo, ranges[0].end, hi, cap, hash);
    }
  }

  lemma {:induction false} KeptNothing<R>(rows: seq<R>, range: PartitionRange, hash: R -> nat)
    requires range.partitions > 0 && range.end <= range.start
    ensures Kept(rows, range, hash) == []
  {
    if rows != [] { KeptNothing(rows[1..], range, hash); }
  }

  lemma {:induction false} KeptAll<R>(rows: seq<R>, cap: nat, hash: R -> nat)
    requires cap > 0
    ensures Kept(rows, PartitionRange(0, cap, cap), hash) == rows
  {
    if rows != [] { KeptAll(rows[1..], cap, hash); }
  }
}
