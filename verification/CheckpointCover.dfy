/**
 Choosing stored checkpoint parts that together cover a range of partitions.

 All ranges are rescaled to the largest partition count, then the stored ranges are scanned once in stored order.
 A division by zero and the failing final assertion of the code are the outcome `Panic`.
 */
module CheckpointCover {
  import opened Arithmetic
  import opened Partitioning

  datatype Overlap = Overlap(index: nat, range: PartitionRange)

  datatype Search = Panic | NotFound | Found(parts: seq<Overlap>)

  /** A stored range after rescaling, with its position in the stored list. */
  datatype Scaled = Scaled(index: nat, start: nat, end: nat)

  function Target(search: PartitionRange, available: seq<PartitionRange>): nat {
    if available == [] then search.partitions
    else
      var rest := Target(search, available[1..]);
      if available[0].partitions > rest then available[0].partitions else rest
  }

  function Rescale(x: nat, from: nat, to: nat): nat
    requires from > 0
  {
    x * to / from
  }

  predicate NoZero(search: PartitionRange, available: seq<PartitionRange>) {
    search.partitions > 0 && forall i | 0 <= i < |available| :: available[i].partitions > 0
  }

  function ScaledAt(available: seq<PartitionRange>, i: nat, target: nat): Scaled
    requires i < |available| && available[i].partitions > 0
  {
    Scaled(i, Rescale(available[i].start, available[i].partitions, target),
              Rescale(available[i].end, available[i].partitions, target))
  }

  function ScaleAll(available: seq<PartitionRange>, target: nat): seq<Scaled>
    requires forall j | 0 <= j < |available| :: available[j].partitions > 0
  {
    seq(|available|, i requires 0 <= i < |available| => ScaledAt(available, i, target))
  }

  /** The ranges that meet `lo..hi`, in stored order. */
  function Overlapping(all: seq<Scaled>, lo: nat, hi: nat): seq<Scaled> {
    if all == [] then []
    else (if all[0].start < hi && all[0].end > lo then [all[0]] else []) + Overlapping(all[1..], lo, hi)
  }

  function Min(a: nat, b: nat): nat { if a < b then a else b }

  /** The scan: extend the covered part while the next stored range reaches further and leaves no gap. */
  function Greedy(list: seq<Scaled>, current: nat, hi: nat, target: nat): Search {
    if list == [] then if current < hi then NotFound else Panic
    else if list[0].end <= current then Greedy(list[1..], current, hi, target)
    else if list[0].start > current then NotFound
    else
      var reached := Min(hi, list[0].end);
      var part := Overlap(list[0].index, PartitionRange(current, reached, target));
      if reached >= hi then Found([part])
      else
        var rest := Greedy(list[1..], reached, hi, target);
        if rest.Found? then Found([part] + rest.parts) else rest
  }

  function SearchSpec(search: PartitionRange, available: seq<PartitionRange>): Search {
    if !NoZero(search, available) then Panic
    else
      var target := Target(search, available);
      var lo := Rescale(search.start, search.partitions, target);
      var hi := Rescale(search.end, search.partitions, target);
      Greedy(Overlapping(ScaleAll(available, target), lo, hi), lo, hi, target)
  }

  method Normalize(available: seq<PartitionRange>, target: nat, lo: nat, hi: nat) returns (normalized: seq<Scaled>)
    requires forall j | 0 <= j < |available| :: available[j].partitions > 0
    ensures normalized == Overlapping(ScaleAll(available, target), lo, hi)
  {
    var all := ScaleAll(available, target);
    normalized := [];
    for i := 0 to |all|
      invariant normalized + Overlapping(all[i..], lo, hi) == Overlapping(all, lo, hi)
    {
      var s := all[i];
      ghost var before := normalized;
      ghost var rest := Overlapping(all[i + 1..], lo, hi);
      var head := if s.start < hi && s.end > lo then [s] else [];
      normalized := normalized + head;
      assert all[i..][1..] == all[i + 1..];
      assert Overlapping(all[i..], lo, hi) == head + rest;
      assert before + (head + rest) == normalized + rest;
    }
  }

  method Scan(normalized: seq<Scaled>, lo: nat, hi: nat, target: nat) returns (result: Search)
    ensures result == Greedy(normalized, lo, hi, target)
  {
    var current: nat := lo;
    var found: seq<Overlap> := [];
    for k := 0 to |normalized|
      invariant var rest := Greedy(normalized[k..], current, hi, target);
                Greedy(normalized, lo, hi, target) == if rest.Found? then Found(found + rest.parts) else rest
    {
      var s := normalized[k];
      assert normalized[k..][1..] == normalized[k + 1..];
      if s.end > current {
        if s.start > current {
          return NotFound;
        }
        var reached := Min(hi, s.end);
        ghost var rest := Greedy(normalized[k + 1..], reached, hi, target);
        var part := Overlap(s.index, PartitionRange(current, reached, target));
        if rest.Found? { assert found + ([part] + rest.parts) == found + [part] + rest.parts; }
        found := found + [part];
        current := reached;
        if current >= hi {
          return Found(found);
        }
      }
    }
    return if current < hi then NotFound else Panic;
  }

  /** The search as the code runs it: rescale, keep what overlaps, scan. */
  method GetNonOverlappingPartitions(search: PartitionRange, available: seq<PartitionRange>) returns (result: Search)
    ensures result == SearchSpec(search, available)
  {
    if !NoZero(search, available) {
      return Panic;
    }
    var target := Target(search, available);
    var lo := Rescale(search.start, search.partitions, target);
    var hi := Rescale(search.end, search.partitions, target);
    var normalized := Normalize(available, target, lo, hi);
    result := Scan(normalized, lo, hi, target);
  }

  // ---- What the scan finds ----

  function Ranges(parts: seq<Overlap>): seq<PartitionRange> {
    seq(|parts|, i requires 0 <= i < |parts| => parts[i].range)
  }

  /** The selected range lies inside a range of the list with the index it names. */
  ghost predicate Hosted(part: Overlap, list: seq<Scaled>) {
    exists k | 0 <= k < |list| ::
      list[k].index == part.index && list[k].start <= part.range.start && part.range.end <= list[k].end
  }

  /** Each selected range is nonempty and lies inside the rescaled stored range it names. */
  ghost predicate Inside(parts: seq<Overlap>, list: seq<Scaled>) {
    forall i | 0 <= i < |parts| :: parts[i].range.start < parts[i].range.end && Hosted(parts[i], list)
  }

  lemma HostedMore(part: Overlap, list: seq<Scaled>)
    requires list != [] && Hosted(part, list[1..])
    ensures Hosted(part, list)
  {
    var tail := list[1..];
    var k :| 0 <= k < |tail| && tail[k].index == part.index && tail[k].start <= part.range.start &&
             part.range.end <= tail[k].end;
    assert list[k + 1] == tail[k];
  }

  lemma InsideMore(parts: seq<Overlap>, list: seq<Scaled>)
    requires list != [] && Inside(parts, list[1..])
    ensures Inside(parts, list)
  {
    forall i | 0 <= i < |parts| ensures Hosted(parts[i], list) { HostedMore(parts[i], list); }
  }

  lemma {:induction false} GreedySound(list: seq<Scaled>, current: nat, hi: nat, target: nat)
    requires current < hi
    ensures var r := Greedy(list, current, hi, target);
            && r != Panic
            && (r.Found? ==> Tiles(Ranges(r.parts), current, hi, target) && Inside(r.parts, list))
  {
    if list != [] {
      if list[0].end <= current {
        GreedySound(list[1..], current, hi, target);
        if Greedy(list[1..], current, hi, target).Found? {
          InsideMore(Greedy(list[1..], current, hi, target).parts, list);
        }
      } else if list[0].start <= current {
        var reached := Min(hi, list[0].end);
        var part := Overlap(list[0].index, PartitionRange(current, reached, target));
        if reached >= hi {
          assert Ranges([part])[1..] == [];
        } else {
          GreedySound(list[1..], reached, hi, target);
          var rest := Greedy(list[1..], reached, hi, target);
          if rest.Found? {
            InsideMore(rest.parts, list);
            assert Ranges([part] + rest.parts)[1..] == Ranges(rest.parts);
          }
        }
      }
    }
  }

  /** How far the first `k` stored ranges reach. */
  function Reach(list: seq<Scaled>, k: nat, lo: nat): nat
    requires k <= |list|
  {
    if k == 0 then lo
    else
      var before := Reach(list, k - 1, lo);
      if list[k - 1].end > before then list[k - 1].end else before
  }

  /** This stored range does not start beyond what the ranges stored before it reach, or the search is already over. */
  ghost predicate NoJumpAt(list: seq<Scaled>, k: nat, lo: nat, hi: nat)
    requires k < |list|
  {
    var reach := Reach(list, k, lo);
    reach < hi && list[k].end > reach ==> list[k].start <= reach
  }

  ghost predicate NoJump(list: seq<Scaled>, lo: nat, hi: nat) {
    forall k | 0 <= k < |list| :: NoJumpAt(list, k, lo, hi)
  }

  ghost predicate Holds(list: seq<Scaled>, x: nat) {
    exists k | 0 <= k < |list| :: list[k].start <= x < list[k].end
  }

  ghost predicate Covered(list: seq<Scaled>, lo: nat, hi: nat) {
    forall x: nat | lo <= x < hi :: Holds(list, x)
  }

  lemma {:induction false} ReachTail(list: seq<Scaled>, k: nat, lo: nat)
    requires 0 < k <= |list|
    ensures Reach(list, k, lo) == Reach(list[1..], k - 1, if list[0].end > lo then list[0].end else lo)
  {
    if k > 1 { ReachTail(list, k - 1, lo); }
  }

  lemma NoJumpTail(list: seq<Scaled>, lo: nat, hi: nat)
    requires list != []
    ensures NoJump(list, lo, hi) <==>
            NoJumpAt(list, 0, lo, hi) && NoJump(list[1..], if list[0].end > lo then list[0].end else lo, hi)
  {
    var next := if list[0].end > lo then list[0].end else lo;
    forall k | 0 < k < |list| ensures NoJumpAt(list, k, lo, hi) <==> NoJumpAt(list[1..], k - 1, next, hi) {
      ReachTail(list, k, lo);
    }
    if NoJump(list, lo, hi) {
      forall k | 0 <= k < |list| - 1 ensures NoJumpAt(list[1..], k, next, hi) {
        assert NoJumpAt(list, k + 1, lo, hi);
      }
    }
  }

  lemma NoJumpBeyond(list: seq<Scaled>, lo: nat, hi: nat)
    requires lo >= hi
    ensures NoJump(list, lo, hi) && Reach(list, |list|, lo) >= hi
  {
    forall k | 0 <= k < |list| ensures NoJumpAt(list, k, lo, hi) { ReachAtLeast(list, k, lo); }
    ReachAtLeast(list, |list|, lo);
  }

  /** The scan succeeds exactly when no range jumps ahead and the ranges reach the end. */
  lemma {:induction false} GreedyExact(list: seq<Scaled>, lo: nat, hi: nat, target: nat)
    requires lo < hi
    ensures Greedy(list, lo, hi, target).Found? <==> NoJump(list, lo, hi) && Reach(list, |list|, lo) >= hi
  {
    if list != [] {
      var next := if list[0].end > lo then list[0].end else lo;
      NoJumpTail(list, lo, hi);
      ReachTail(list, |list|, lo);
      if next >= hi { NoJumpBeyond(list[1..], next, hi); } else { GreedyExact(list[1..], next, hi, target); }
    }
  }

  lemma {:induction false} ReachAtLeast(list: seq<Scaled>, k: nat, lo: nat)
    requires k <= |list|
    ensures Reach(list, k, lo) >= lo
    ensures forall j | 0 <= j < k :: list[j].end <= Reach(list, k, lo)
  {
    if k > 0 { ReachAtLeast(list, k - 1, lo); }
  }

  /** When the stored ranges cover the search, the scan finds a cover exactly when their order makes no jump. */
  lemma CoveredExact(list: seq<Scaled>, lo: nat, hi: nat, target: nat)
    requires lo < hi && Covered(list, lo, hi)
    ensures Greedy(list, lo, hi, target).Found? <==> NoJump(list, lo, hi)
  {
    GreedyExact(list, lo, hi, target);
    assert Holds(list, hi - 1);
    var k :| 0 <= k < |list| && list[k].start <= hi - 1 < list[k].end;
    ReachAtLeast(list, |list|, lo);
  }

  /** Ascending starts make no jump over a covered search. */
  lemma AscendingNoJump(list: seq<Scaled>, lo: nat, hi: nat)
    requires Covered(list, lo, hi)
    requires forall i, j | 0 <= i < j < |list| :: list[i].start <= list[j].start
    ensures NoJump(list, lo, hi)
  {
    forall k | 0 <= k < |list| ensures NoJumpAt(list, k, lo, hi) {
      var x := Reach(list, k, lo);
      ReachAtLeast(list, k, lo);
      if x < hi {
        assert Holds(list, x);
        var j :| 0 <= j < |list| && list[j].start <= x < list[j].end;
        assert j >= k;
      }
    }
  }

  /** A found cover really covers. */
  lemma {:induction false} FoundCovers(parts: seq<Overlap>, list: seq<Scaled>, lo: nat, hi: nat, target: nat)
    requires Tiles(Ranges(parts), lo, hi, target) && Inside(parts, list)
    ensures Covered(list, lo, hi)
  {
    forall x: nat | lo <= x < hi ensures Holds(list, x) {
      var i := PointIn(Ranges(parts), lo, hi, target, x);
      var k :| 0 <= k < |list| && list[k].index == parts[i].index && list[k].start <= parts[i].range.start &&
               parts[i].range.end <= list[k].end;
    }
  }

  lemma {:induction false} PointIn(ranges: seq<PartitionRange>, lo: nat, hi: nat, cap: nat, x: nat) returns (i: nat)
    requires Tiles(ranges, lo, hi, cap) && lo <= x < hi
    ensures i < |ranges| && ranges[i].start <= x < ranges[i].end
  {
    if x < ranges[0].end {
      i := 0;
    } else {
      i := PointIn(ranges[1..], ranges[0].end, hi, cap, x);
      i := i + 1;
    }
  }

  // ---- The search as a whole ----

  ghost function Lo(search: PartitionRange, available: seq<PartitionRange>): nat requires search.partitions > 0 {
    Rescale(search.start, search.partitions, Target(search, available))
  }

  ghost function Hi(search: PartitionRange, available: seq<PartitionRange>): nat requires search.partitions > 0 {
    Rescale(search.end, search.partitions, Target(search, available))
  }

  lemma {:induction false} TargetLargest(search: PartitionRange, available: seq<PartitionRange>)
    ensures search.partitions <= Target(search, available)
    ensures forall i | 0 <= i < |available| :: available[i].partitions <= Target(search, available)
  {
    if available != [] {
      TargetLargest(search, available[1..]);
      assert forall i | 0 < i < |available| :: available[i] == available[1..][i - 1];
    }
  }

  /** All ranges are rescaled to the largest partition count among them. */
  lemma {:induction false} TargetIs(search: PartitionRange, available: seq<PartitionRange>)
    ensures search.partitions <= Target(search, available)
    ensures forall i | 0 <= i < |available| :: available[i].partitions <= Target(search, available)
    ensures Target(search, available) == search.partitions ||
            exists i | 0 <= i < |available| :: available[i].partitions == Target(search, available)
  {
    TargetLargest(search, available);
    if available != [] {
      var rest := available[1..];
      TargetIs(search, rest);
      if Target(search, available) == Target(search, rest) != search.partitions {
        var i :| 0 <= i < |rest| && rest[i].partitions == Target(search, rest);
        assert available[i + 1] == rest[i];
      }
    }
  }

  /** A rescaled bound is the bound times the new count over the old one, rounded down. */
  lemma RescaleIs(x: nat, from: nat, to: nat)
    requires from > 0
    ensures Rescale(x, from, to) * from <= x * to < (Rescale(x, from, to) + 1) * from
  {
    DivDef(x * to, from);
    assert (Rescale(x, from, to) + 1) * from == Rescale(x, from, to) * from + from;
  }

  /** Rescaling to at least as many partitions keeps the order, and keeps distinct bounds distinct. */
  lemma RescaleOrder(a: nat, b: nat, from: nat, to: nat)
    requires 0 < from <= to
    ensures a < b <==> Rescale(a, from, to) < Rescale(b, from, to)
  {
    if a < b {
      MulOrder(a + 1, b, to);
      assert (a + 1) * to == a * to + to;
      DivStep(a * to, from);
      DivOrder(a * to + from, b * to, from);
    } else {
      MulOrder(b, a, to);
      DivOrder(b * to, a * to, from);
    }
  }

  ghost predicate Increasing(list: seq<Scaled>) {
    forall k, l | 0 <= k < l < |list| :: list[k].index < list[l].index
  }

  lemma {:induction false} OverlappingHas(all: seq<Scaled>, lo: nat, hi: nat, s: Scaled)
    ensures s in Overlapping(all, lo, hi) <==> s in all && s.start < hi && s.end > lo
  {
    if all != [] {
      OverlappingHas(all[1..], lo, hi, s);
      assert all == [all[0]] + all[1..];
    }
  }

  lemma IncreasingCons(s: Scaled, list: seq<Scaled>)
    requires Increasing(list) && forall k | 0 <= k < |list| :: s.index < list[k].index
    ensures Increasing([s] + list)
  {
  }

  lemma {:induction false} OverlappingIncreasing(all: seq<Scaled>, lo: nat, hi: nat)
    requires Increasing(all)
    ensures Increasing(Overlapping(all, lo, hi))
  {
    if all != [] {
      var rest := Overlapping(all[1..], lo, hi);
      OverlappingIncreasing(all[1..], lo, hi);
      forall k | 0 <= k < |rest| ensures all[0].index < rest[k].index {
        OverlappingHas(all[1..], lo, hi, rest[k]);
      }
      IncreasingCons(all[0], rest);
      assert [] + rest == rest;
    }
  }

  /** The overlapping ranges are those stored ranges that meet `lo..hi`, in stored order. */
  lemma OverlappingStored(available: seq<PartitionRange>, target: nat, lo: nat, hi: nat)
    requires forall j | 0 <= j < |available| :: available[j].partitions > 0
    ensures var list := Overlapping(ScaleAll(available, target), lo, hi);
            && Increasing(list)
            && (forall k | 0 <= k < |list| :: Stored(list[k], available, target) &&
                                              list[k].start < hi && list[k].end > lo)
  {
    var all := ScaleAll(available, target);
    var list := Overlapping(all, lo, hi);
    OverlappingIncreasing(all, lo, hi);
    forall k | 0 <= k < |list| ensures Stored(list[k], available, target) && list[k].start < hi && list[k].end > lo {
      OverlappingHas(all, lo, hi, list[k]);
    }
  }

  ghost predicate Stored(s: Scaled, available: seq<PartitionRange>, target: nat)
    requires forall j | 0 <= j < |available| :: available[j].partitions > 0
  {
    s.index < |available| && s == ScaledAt(available, s.index, target)
  }

  ghost predicate StoredHolds(available: seq<PartitionRange>, target: nat, x: nat)
    requires forall j | 0 <= j < |available| :: available[j].partitions > 0
  {
    exists i | 0 <= i < |available| :: ScaledAt(available, i, target).start <= x < ScaledAt(available, i, target).end
  }

  /** The union of all stored ranges, rescaled, contains the rescaled search. */
  ghost predicate StoredCover(search: PartitionRange, available: seq<PartitionRange>)
    requires NoZero(search, available)
  {
    forall x: nat | Lo(search, available) <= x < Hi(search, available) ::
      StoredHolds(available, Target(search, available), x)
  }

  ghost function Candidates(search: PartitionRange, available: seq<PartitionRange>): seq<Scaled>
    requires NoZero(search, available)
  {
    Overlapping(ScaleAll(available, Target(search, available)), Lo(search, available), Hi(search, available))
  }

  lemma StoredCoverIsCovered(search: PartitionRange, available: seq<PartitionRange>)
    requires NoZero(search, available)
    ensures StoredCover(search, available) <==>
            Covered(Candidates(search, available), Lo(search, available), Hi(search, available))
  {
    var target, lo, hi := Target(search, available), Lo(search, available), Hi(search, available);
    var list := Candidates(search, available);
    OverlappingStored(available, target, lo, hi);
    forall x: nat | lo <= x < hi ensures StoredHolds(available, target, x) <==> Holds(list, x) {
      if StoredHolds(available, target, x) {
        var i :| 0 <= i < |available| && ScaledAt(available, i, target).start <= x < ScaledAt(available, i, target).end;
        OverlappingHas(ScaleAll(available, target), lo, hi, ScaleAll(available, target)[i]);
      }
    }
  }

  /**
   Soundness. For a nonempty search the result never panics, and a found cover consists of consecutive nonempty
   ranges that tile the rescaled search, each inside the rescaled stored range it names.
   */
  lemma SearchSound(search: PartitionRange, available: seq<PartitionRange>)
    requires NoZero(search, available) && search.start < search.end
    ensures var r := SearchSpec(search, available);
            var target := Target(search, available);
            && r != Panic
            && (r.Found? ==>
                  && Tiles(Ranges(r.parts), Lo(search, available), Hi(search, available), target)
                  && forall i | 0 <= i < |r.parts| ::
                       && r.parts[i].index < |available|
                       && ScaledAt(available, r.parts[i].index, target).start <= r.parts[i].range.start
                       && r.parts[i].range.start < r.parts[i].range.end
                       && r.parts[i].range.end <= ScaledAt(available, r.parts[i].index, target).end)
  {
    var target, lo, hi := Target(search, available), Lo(search, available), Hi(search, available);
    var list := Candidates(search, available);
    TargetLargest(search, available);
    RescaleOrder(search.start, search.end, search.partitions, target);
    GreedySound(list, lo, hi, target);
    OverlappingStored(available, target, lo, hi);
  }

  /**
   Exactness. A cover is found only if the stored ranges cover the search. If they do, it is found exactly when no
   candidate jumps ahead of the candidates stored before it.
   */
  lemma SearchExact(search: PartitionRange, available: seq<PartitionRange>)
    requires NoZero(search, available) && search.start < search.end
    ensures SearchSpec(search, available).Found? <==>
            && StoredCover(search, available)
            && NoJump(Candidates(search, available), Lo(search, available), Hi(search, available))
  {
    var target, lo, hi := Target(search, available), Lo(search, available), Hi(search, available);
    var list := Candidates(search, available);
    var r := SearchSpec(search, available);
    TargetLargest(search, available);
    RescaleOrder(search.start, search.end, search.partitions, target);
    StoredCoverIsCovered(search, available);
    GreedySound(list, lo, hi, target);
    if r.Found? { FoundCovers(r.parts, list, lo, hi, target); }
    if Covered(list, lo, hi) { CoveredExact(list, lo, hi, target); }
  }

  /** With stored ranges in ascending order the search finds a cover if and only if there is one. */
  lemma SearchComplete(search: PartitionRange, available: seq<PartitionRange>)
    requires NoZero(search, available) && search.start < search.end
    requires forall i, j | 0 <= i < j < |available| ::
               ScaledAt(available, i, Target(search, available)).start <=
               ScaledAt(available, j, Target(search, available)).start
    ensures SearchSpec(search, available).Found? <==> StoredCover(search, available)
  {
    var target, lo, hi := Target(search, available), Lo(search, available), Hi(search, available);
    SearchExact(search, available);
    StoredCoverIsCovered(search, available);
    OverlappingStored(available, target, lo, hi);
    if StoredCover(search, available) { AscendingNoJump(Candidates(search, available), lo, hi); }
  }

  /** The sort of the code does not order by start: two halves stored in reverse are not found. */
  lemma OrderMatters()
    ensures var search := PartitionRange(0, 4, 4);
            var low, high := PartitionRange(0, 2, 4), PartitionRange(2, 4, 4);
            && SearchSpec(search, [low, high]).Found?
            && SearchSpec(search, [high, low]) == NotFound
            && NoZero(search, [high, low]) && StoredCover(search, [high, low])
  {
    var search := PartitionRange(0, 4, 4);
    var low, high := PartitionRange(0, 2, 4), PartitionRange(2, 4, 4);
    assert [low, high][1..] == [high] && [high, low][1..] == [low];
    assert Target(search, [low]) == 4 && Target(search, [high]) == 4;
    assert Target(search, [low, high]) == 4 && Target(search, [high, low]) == 4;
    forall x: nat | x < 4 ensures StoredHolds([high, low], 4, x) {
      assert if x < 2 then ScaledAt([high, low], 1, 4).start <= x < ScaledAt([high, low], 1, 4).end
             else ScaledAt([high, low], 0, 4).start <= x < ScaledAt([high, low], 0, 4).end;
    }
    var up, down := [Scaled(0, 0, 2), Scaled(1, 2, 4)], [Scaled(0, 2, 4), Scaled(1, 0, 2)];
    assert ScaleAll([low, high], 4) == up && ScaleAll([high, low], 4) == down;
    assert up[1..] == [Scaled(1, 2, 4)] && down[1..] == [Scaled(1, 0, 2)];
    assert Overlapping(up[1..], 0, 4) == up[1..] && Overlapping(down[1..], 0, 4) == down[1..];
    assert Overlapping(up, 0, 4) == up && Overlapping(down, 0, 4) == down;
  }

  /** The search panics exactly on a zero partition count, or on an empty search that no stored range encloses. */
  lemma PanicExactly(search: PartitionRange, available: seq<PartitionRange>)
    ensures SearchSpec(search, available) == Panic <==>
            || !NoZero(search, available)
            || (search.end <= search.start && Candidates(search, available) == [])
  {
    if NoZero(search, available) {
      var target, lo, hi := Target(search, available), Lo(search, available), Hi(search, available);
      TargetLargest(search, available);
      RescaleOrder(search.start, search.end, search.partitions, target);
      if search.start < search.end {
        SearchSound(search, available);
      } else {
        OverlappingStored(available, target, lo, hi);
      }
    }
  }

  // ---- Rescaling and hashes ----

  /** A hash on which a proper part of the partitions and its rescaling to more partitions disagree. */
  lemma Disagreement(a: PartitionRange, to: nat) returns (hash: nat)
    requires 0 < a.partitions < to && a.start < a.end <= a.partitions
    requires a.start > 0 || a.end < a.partitions
    ensures var b := PartitionRange(Rescale(a.start, a.partitions, to), Rescale(a.end, a.partitions, to), to);
            a.ContainsHash(hash) != b.ContainsHash(hash)
  {
    var p := a.partitions;
    var lo, hi := Rescale(a.start, p, to), Rescale(a.end, p, to);
    RescaleUp(a.start, p, to);
    RescaleUp(a.end, p, to);
    if lo > a.start {
      hash := a.start;
      SmallMod(hash, p);
      SmallMod(hash, to);
    } else if a.end == p {
      hash := p;
      RescaleAll(p, to);
      DivStep(0, p);
      SmallMod(hash, to);
    } else if hi > a.end {
      hash := a.end;
      SmallMod(hash, p);
      SmallMod(hash, to);
    } else {
      hash := a.start + p;
      SmallMod(a.start, p);
      DivStep(a.start, p);
      if a.start + p < to {
        SmallMod(hash, to);
      } else {
        SmallMod(a.start + p - to, to);
        DivStep(a.start + p - to, to);
      }
    }
  }

  lemma RescaleUp(x: nat, from: nat, to: nat)
    requires 0 < from <= to
    ensures Rescale(x, from, to) >= x
  {
    MulOrder(from, to, x);
    DivOrder(x * from, x * to, from);
    MulDiv(x, from);
  }

  lemma RescaleAll(from: nat, to: nat)
    requires from > 0
    ensures Rescale(from, from, to) == to && Rescale(0, from, to) == 0
  {
    assert from * to == to * from;
    MulDiv(to, from);
    MulDiv(0, from);
  }

  /** Rescaling a range keeps its hashes exactly when the partition count stays the same or the range is everything. */
  lemma RescaleKeepsHashes(a: PartitionRange, to: nat)
    requires 0 < a.partitions <= to && a.start < a.end <= a.partitions
    ensures SameHashes(a, PartitionRange(Rescale(a.start, a.partitions, to), Rescale(a.end, a.partitions, to), to)) <==>
            a.partitions == to || (a.start == 0 && a.end == a.partitions)
  {
    var p := a.partitions;
    if p == to {
      MulDiv(a.start, p);
      MulDiv(a.end, p);
    } else if a.start == 0 && a.end == p {
      RescaleAll(p, to);
    } else {
      var hash := Disagreement(a, to);
    }
  }

  /**
   The selected ranges own exactly the hashes of the search if and only if the partition count did not change or the
   search is everything. A hash they own is owned by one of them only.
   */
  lemma SearchHashes(search: PartitionRange, available: seq<PartitionRange>)
    requires NoZero(search, available) && search.start < search.end <= search.partitions
    requires SearchSpec(search, available).Found?
    ensures var parts := SearchSpec(search, available).parts;
            && (forall i | 0 <= i < |parts| :: parts[i].range.partitions > 0)
            && ((forall hash: nat :: search.ContainsHash(hash) <==> Owned(parts, hash))
                <==> Target(search, available) == search.partitions ||
                     (search.start == 0 && search.end == search.partitions))
            && (forall hash: nat, i, j | 0 <= i < j < |parts| ::
                  !(parts[i].range.ContainsHash(hash) && parts[j].range.ContainsHash(hash)))
  {
    var target, lo, hi := Target(search, available), Lo(search, available), Hi(search, available);
    var parts := SearchSpec(search, available).parts;
    SearchSound(search, available);
    TargetLargest(search, available);
    TilesBounds(Ranges(parts), lo, hi, target);
    assert forall i | 0 <= i < |parts| :: parts[i].range == Ranges(parts)[i];
    RescaleKeepsHashes(search, target);
    var whole := PartitionRange(lo, hi, target);
    forall hash: nat ensures whole.ContainsHash(hash) <==> Owned(parts, hash) {
      OwnedExactly(parts, lo, hi, target, hash);
    }
    forall hash: nat, i, j | 0 <= i < j < |parts|
      ensures !(parts[i].range.ContainsHash(hash) && parts[j].range.ContainsHash(hash))
    {
      OwnedOnce(parts, lo, hi, target, hash, i, j);
    }
  }

  ghost predicate Owned(parts: seq<Overlap>, hash: nat)
    requires forall i | 0 <= i < |parts| :: parts[i].range.partitions > 0
  {
    exists i | 0 <= i < |parts| :: parts[i].range.ContainsHash(hash)
  }

  lemma OwnedExactly(parts: seq<Overlap>, lo: nat, hi: nat, target: nat, hash: nat)
    requires Tiles(Ranges(parts), lo, hi, target) && target > 0
    ensures forall i | 0 <= i < |parts| :: parts[i].range.partitions == target
    ensures PartitionRange(lo, hi, target).ContainsHash(hash) <==> Owned(parts, hash)
  {
    TilesBounds(Ranges(parts), lo, hi, target);
    assert forall i | 0 <= i < |parts| :: parts[i].range == Ranges(parts)[i];
    if lo <= hash % target < hi {
      var i := OneRange(Ranges(parts), lo, hi, target, hash);
      assert parts[i].range.ContainsHash(hash);
    }
  }

  lemma OwnedOnce(parts: seq<Overlap>, lo: nat, hi: nat, target: nat, hash: nat, i: nat, j: nat)
    requires Tiles(Ranges(parts), lo, hi, target) && target > 0 && i < j < |parts|
    requires parts[i].range.partitions > 0 && parts[j].range.partitions > 0
    ensures !(parts[i].range.ContainsHash(hash) && parts[j].range.ContainsHash(hash))
  {
    TilesBounds(Ranges(parts), lo, hi, target);
    assert parts[i].range == Ranges(parts)[i] && parts[j].range == Ranges(parts)[j];
    if lo <= hash % target < hi {
      var k := OneRange(Ranges(parts), lo, hi, target, hash);
    }
  }
}
