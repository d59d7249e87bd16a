/**
 Partitioned reading of an exchange channel: each reader sees all markers and the rows of its own hash range.

 A batch is its sequence of rows. `hash` is the fixed hash of the partitioning expressions.
 */
module Exchange {
  import opened Wrappers
  import opened Arithmetic
  import opened Streams
  import opened Partitioning
  import ChannelRuns

  /** What opening a stream of a channel gives: an error, or a stream with or without a filter. */
  datatype Opened = NoChannel | NotPartitioned | NoOverlap | Unfiltered | Filtered(range: PartitionRange)

  /** `channels` holds the partitions each output was created with, if it is partitioned at all. */
  function OpenStream(channels: map<string, Option<PartitionRange>>, streamId: string, requested: PartitionRange)
    : Opened
  {
    if streamId !in channels then NoChannel
    else match channels[streamId]
      case None => if requested.IsEmpty() then Unfiltered else NotPartitioned
      case Some(available) =>
        var common := available.Intersection(requested);
        if common.IsEmpty() then NoOverlap else Filtered(common)
  }

  /** On a full-range channel a range of the split is served exactly as asked, unless it is empty. */
  lemma SplitRangeServed(channels: map<string, Option<PartitionRange>>, streamId: string, cap: nat, n: nat, i: nat)
    requires n > 0 && i < n
    requires streamId in channels && channels[streamId] == Some(PartitionRange(0, cap, cap))
    ensures OpenStream(channels, streamId, SplitRanges(cap, n)[i]) ==
            if i < cap then Filtered(SplitRanges(cap, n)[i]) else NoOverlap
  {
    SplitNonempty(cap, n, i);
  }

  /** Scaling to `n` copies gives every copy something to read exactly if there are no more copies than partitions. */
  lemma AllCopiesServed(channels: map<string, Option<PartitionRange>>, streamId: string, n: nat)
    requires n > 0 && streamId in channels
    requires channels[streamId] == Some(PartitionRange(0, NEW_PARTITION_CAP, NEW_PARTITION_CAP))
    ensures n <= NEW_PARTITION_CAP <==>
            forall i | 0 <= i < n :: OpenStream(channels, streamId, SplitRanges(NEW_PARTITION_CAP, n)[i]).Filtered?
  {
    forall i | 0 <= i < n
      ensures OpenStream(channels, streamId, SplitRanges(NEW_PARTITION_CAP, n)[i]).Filtered? <==> i < NEW_PARTITION_CAP
    {
      SplitRangeServed(channels, streamId, NEW_PARTITION_CAP, n, i);
    }
    assert n > NEW_PARTITION_CAP ==>
             !OpenStream(channels, streamId, SplitRanges(NEW_PARTITION_CAP, n)[NEW_PARTITION_CAP]).Filtered?;
  }

  /** The same bounds under a larger partition count: a hash only the smaller count puts into the range. */
  lemma OtherCount(start: nat, end: nat, small: nat, large: nat)
    requires start < end <= small < large
    ensures PartitionRange(start, end, small).ContainsHash(small + start)
    ensures !PartitionRange(start, end, large).ContainsHash(small + start)
  {
    SmallMod(start, small);
    DivStep(start, small);
    if small + start < large {
      SmallMod(small + start, large);
    } else {
      SmallMod(small + start - large, large);
      DivStep(small + start - large, large);
    }
  }

  /** A range cut off at the channel's count: a hash on which the two disagree, unless the request is everything. */
  lemma CutOff(requested: PartitionRange, cap: nat) returns (hash: nat)
    requires requested.start < cap < requested.end <= requested.partitions
    requires requested.start > 0 || requested.end < requested.partitions
    ensures requested.ContainsHash(hash) != PartitionRange(requested.start, cap, cap).ContainsHash(hash)
  {
    if requested.start > 0 {
      hash := cap;
      DivUnique(cap, cap, 1);
      SmallMod(cap, requested.partitions);
    } else {
      hash := requested.end;
      SmallMod(requested.end, requested.partitions);
    }
  }

  /**
   What a full-range channel serves for any request, and whether that owns the requested hashes: exactly if the
   partition counts agree, or everything is requested with more partitions than the channel has.
   */
  lemma ServedHashes(channels: map<string, Option<PartitionRange>>, streamId: string, cap: nat,
                     requested: PartitionRange)
    requires cap > 0 && requested.start < requested.end <= requested.partitions
    requires streamId in channels && channels[streamId] == Some(PartitionRange(0, cap, cap))
    ensures var answer := OpenStream(channels, streamId, requested);
            && (answer == NoOverlap <==> requested.start >= cap)
            && (requested.start < cap ==>
                  && answer.Filtered? && answer.range.partitions == cap
                  && (SameHashes(answer.range, requested) <==>
                      || requested.partitions == cap
                      || (requested.start == 0 && requested.end == requested.partitions && requested.partitions > cap)))
  {
    var p := requested.partitions;
    if requested.start < cap {
      var end := if cap < requested.end then cap else requested.end;
      var served := PartitionRange(requested.start, end, cap);
      assert OpenStream(channels, streamId, requested) == Filtered(served);
      if cap < requested.end {
        if requested.start > 0 || requested.end < p {
          var hash := CutOff(requested, cap);
        } else {
          forall hash: nat ensures served.ContainsHash(hash) && requested.ContainsHash(hash) {
            Remainders(hash, cap, p);
          }
        }
      } else if p < cap {
        OtherCount(requested.start, requested.end, p, cap);
        assert requested.ContainsHash(p + requested.start) && !served.ContainsHash(p + requested.start);
      } else if cap < p {
        OtherCount(requested.start, requested.end, cap, p);
        assert served.ContainsHash(cap + requested.start) && !requested.ContainsHash(cap + requested.start);
      }
    }
  }

  lemma Remainders(hash: nat, a: nat, b: nat)
    requires a > 0 && b > 0
    ensures hash % a < a && hash % b < b
  {
  }

  /** A request with another count loses rows: half of two partitions becomes a quarter of four. */
  lemma OtherCountLoses(channels: map<string, Option<PartitionRange>>, streamId: string)
    requires streamId in channels && channels[streamId] == Some(PartitionRange(0, 4, 4))
    ensures OpenStream(channels, streamId, PartitionRange(0, 1, 2)) == Filtered(PartitionRange(0, 1, 4))
    ensures PartitionRange(0, 1, 2).ContainsHash(2) && !PartitionRange(0, 1, 4).ContainsHash(2)
  {
  }

  function FilterItem<R>(item: Item<seq<R>>, range: PartitionRange, hash: R -> nat): Item<seq<R>>
    requires range.partitions > 0
  {
    if item.Marker? then item else Batch(Kept(item.batch, range, hash))
  }

  /** The stream a reader of the range receives: markers as they are, batches filtered. */
  function FilterStream<R>(items: seq<Item<seq<R>>>, range: PartitionRange, hash: R -> nat): seq<Item<seq<R>>>
    requires range.partitions > 0
  {
    seq(|items|, k requires 0 <= k < |items| => FilterItem(items[k], range, hash))
  }

  /** The rows between markers `k - 1` and `k`, in order. */
  function EpochRows<R>(items: seq<Item<seq<R>>>, k: nat): seq<R> {
    if items == [] then []
    else if items[0].Marker? then if k == 0 then [] else EpochRows(items[1..], k - 1)
    else (if k == 0 then items[0].batch else []) + EpochRows(items[1..], k)
  }

  /** A reader gets, within each epoch, the rows of its range in the order they were sent, and every marker. */
  lemma {:induction false} FilteredEpoch<R>(items: seq<Item<seq<R>>>, range: PartitionRange, hash: R -> nat, k: nat)
    requires range.partitions > 0
    ensures EpochRows(FilterStream(items, range, hash), k) == Kept(EpochRows(items, k), range, hash)
    ensures Markers(FilterStream(items, range, hash)) == Markers(items)
  {
    if items != [] {
      var rest := items[1..];
      assert FilterStream(items, range, hash)[1..] == FilterStream(rest, range, hash);
      if items[0].Marker? && k > 0 {
        FilteredEpoch(rest, range, hash, k - 1);
      } else {
        FilteredEpoch(rest, range, hash, k);
        if items[0].Batch? {
          var head := if k == 0 then items[0].batch else [];
          KeptAppend(head, EpochRows(rest, k), range, hash);
        }
      }
    }
  }

  /** What all readers receive together in one epoch. */
  ghost function Received<R>(streams: seq<seq<Item<seq<R>>>>, k: nat): multiset<R> {
    if streams == [] then multiset{} else multiset(EpochRows(streams[0], k)) + Received(streams[1..], k)
  }

  ghost predicate Filters<R>(streams: seq<seq<Item<seq<R>>>>, items: seq<Item<seq<R>>>,
                             ranges: seq<PartitionRange>, hash: R -> nat) {
    && |streams| == |ranges|
    && forall i | 0 <= i < |ranges| ::
         ranges[i].partitions > 0 && streams[i] == FilterStream(items, ranges[i], hash)
  }

  lemma {:induction false} ReceivedTogether<R>(streams: seq<seq<Item<seq<R>>>>, items: seq<Item<seq<R>>>,
                                               ranges: seq<PartitionRange>, hash: R -> nat, k: nat)
    requires Filters(streams, items, ranges, hash)
    ensures Received(streams, k) == Together(EpochRows(items, k), ranges, hash)
  {
    if ranges != [] {
      FilteredEpoch(items, ranges[0], hash, k);
      ReceivedTogether(streams[1..], items, ranges[1..], hash, k);
    }
  }

  /**
   Conservation. Let `n` readers with the ranges of the split read one channel in any interleaving. When all have
   stopped, they hold together, in every epoch, exactly the rows that were sent, and each has its rows in send order.
   */
  lemma ExchangeConserves<R>(script: seq<Item<seq<R>>>, cap: nat, n: nat, hash: R -> nat,
                             run: seq<ChannelRuns.System<seq<R>>>, last: nat, k: nat)
    requires cap > 0 && n > 0
    requires ChannelRuns.IsRun(script, false, n, run) && last < |run|
    requires |run[last].readers| == n
    requires forall i | 0 <= i < n :: ChannelRuns.Stopped(run[last].readers[i].pc)
    ensures var ranges := SplitRanges(cap, n);
            var streams := seq(n, i requires 0 <= i < n =>
                             FilterStream(run[last].readers[i].out, ranges[i], hash));
            && Received(streams, k) == multiset(EpochRows(script, k))
            && forall i | 0 <= i < n ::
                 && EpochRows(streams[i], k) == Kept(EpochRows(script, k), ranges[i], hash)
                 && Markers(streams[i]) == Markers(script)
  {
    var ranges := SplitRanges(cap, n);
    var streams := seq(n, i requires 0 <= i < n => FilterStream(run[last].readers[i].out, ranges[i], hash));
    forall i | 0 <= i < n ensures streams[i] == FilterStream(script, ranges[i], hash) {
      ChannelRuns.ReadersComplete(script, false, n, run, last, i);
    }
    forall i | 0 <= i < n
      ensures EpochRows(streams[i], k) == Kept(EpochRows(script, k), ranges[i], hash)
      ensures Markers(streams[i]) == Markers(script)
    {
      FilteredEpoch(script, ranges[i], hash, k);
    }
    ReceivedTogether(streams, script, ranges, hash, k);
    SplitTiles(cap, n);
    TilesConserve(EpochRows(script, k), ranges, 0, cap, cap, hash);
    KeptAll(EpochRows(script, k), cap, hash);
  }

  // ---- Reading a channel for any request ----

  /** What a reader gets from a channel: nothing, a panic at the first row it would have to hash, or the items. */
  datatype Reading<+R> = Refused | Panicked | Reads(items: seq<Item<seq<R>>>)

  function Read<R>(answer: Opened, items: seq<Item<seq<R>>>, hash: R -> nat): Reading<R> {
    match answer
    case Unfiltered => Reads(items)
    case Filtered(range) =>
      if range.partitions > 0 then Reads(FilterStream(items, range, hash))
      else if Rows(items) == [] then Reads(items)
      else Panicked
    case _ => Refused
  }

  ghost predicate Apart(a: PartitionRange, b: PartitionRange) {
    forall x: nat :: !(Spans(a, x) && Spans(b, x))
  }

  /** The rows whose partition under the count of `a` lies in both ranges, in order. */
  function InBoth<R>(rows: seq<R>, a: PartitionRange, b: PartitionRange, hash: R -> nat): seq<R>
    requires a.partitions > 0
  {
    if rows == [] then []
    else
      var x := hash(rows[0]) % a.partitions;
      (if Spans(a, x) && Spans(b, x) then [rows[0]] else []) + InBoth(rows[1..], a, b, hash)
  }

  /** A channel is refused exactly if no partition number lies in both ranges; otherwise both ranges filter. */
  lemma OpenPartitioned(channels: map<string, Option<PartitionRange>>, streamId: string, a: PartitionRange,
                        requested: PartitionRange)
    requires streamId in channels && channels[streamId] == Some(a)
    ensures var answer := OpenStream(channels, streamId, requested);
            && (answer == NoOverlap <==> Apart(a, requested))
            && (!Apart(a, requested) ==>
                  && answer.Filtered? && answer.range.partitions == a.partitions
                  && forall x: nat :: Spans(answer.range, x) <==> Spans(a, x) && Spans(requested, x))
  {
    var lo := if a.start < requested.start then requested.start else a.start;
    assert Spans(a, lo) && Spans(requested, lo) <==> a.Intersection(requested).start < a.Intersection(requested).end;
  }

  lemma {:induction false} KeptInBoth<R>(rows: seq<R>, range: PartitionRange, a: PartitionRange, b: PartitionRange,
                                         hash: R -> nat)
    requires range.partitions == a.partitions > 0
    requires forall x: nat :: Spans(range, x) <==> Spans(a, x) && Spans(b, x)
    ensures Kept(rows, range, hash) == InBoth(rows, a, b, hash)
  {
    if rows != [] {
      KeptInBoth(rows[1..], range, a, b, hash);
      assert range.ContainsHash(hash(rows[0])) <==> Spans(range, hash(rows[0]) % a.partitions);
    }
  }

  /** What a reader holds in every epoch, for each kind of channel and every request. */
  ghost predicate Holds<R>(reading: Reading<R>, channel: Option<PartitionRange>, requested: PartitionRange,
                           script: seq<Item<seq<R>>>, hash: R -> nat, k: nat)
  {
    match channel
    case None =>
      if requested.start != requested.end then reading.Refused?
      else
        && reading.Reads? && Markers(reading.items) == Markers(script)
        && EpochRows(reading.items, k) == EpochRows(script, k)
    case Some(a) =>
      if Apart(a, requested) then reading.Refused?
      else if a.partitions > 0 then
        && reading.Reads? && Markers(reading.items) == Markers(script)
        && EpochRows(reading.items, k) == InBoth(EpochRows(script, k), a, requested, hash)
      else if Rows(script) == [] then reading == Reads(script)
      else reading.Panicked?
  }

  /**
   Every request on every channel. A reader that has stopped without an error of the sender, in any interleaving, got
   everything from an unpartitioned channel if it asked for no partitions and an error otherwise. On a partitioned
   channel it was refused exactly if the ranges have no partition number in common, and otherwise got all markers and,
   in every epoch, the rows whose partition lies in both ranges. There is no reader of an unknown channel.
   */
  lemma ReadExactly<R>(channels: map<string, Option<PartitionRange>>, streamId: string, requested: PartitionRange,
                       script: seq<Item<seq<R>>>, fails: bool, n: nat, hash: R -> nat,
                       run: seq<ChannelRuns.System<seq<R>>>, last: nat, i: nat, k: nat)
    requires ChannelRuns.IsRun(script, fails, n, run) && last < |run| && i < n
    requires |run[last].readers| == n && (run[last].readers[i].pc.Ended? || run[last].readers[i].pc.Closed?)
    ensures var reading := Read(OpenStream(channels, streamId, requested), run[last].readers[i].out, hash);
            if streamId !in channels then reading.Refused?
            else Holds(reading, channels[streamId], requested, script, hash, k)
  {
    ChannelRuns.ReadersComplete(script, fails, n, run, last, i);
    if streamId in channels && channels[streamId].Some? {
      var a := channels[streamId].value;
      OpenPartitioned(channels, streamId, a, requested);
      if !Apart(a, requested) && a.partitions > 0 {
        var range := OpenStream(channels, streamId, requested).range;
        FilteredEpoch(script, range, hash, k);
        KeptInBoth(EpochRows(script, k), range, a, requested, hash);
      }
    }
  }
}
