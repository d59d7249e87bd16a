/**
 The catalogue of completed checkpoints of one operator, kept in a single file that each completion reads, edits and
 writes back, and the two lookups in it.
 */
module Catalogue {
  import opened Wrappers
  import opened Arithmetic
  import opened Partitioning
  import opened CheckpointCover

  datatype PartitionInfo = PartitionInfo(range: PartitionRange, dir: string)

  datatype CheckpointEntry = CheckpointEntry(id: string, partitions: seq<PartitionInfo>)

  function RangesOf(infos: seq<PartitionInfo>): seq<PartitionRange> {
    seq(|infos|, i requires 0 <= i < |infos| => infos[i].range)
  }

  /** Adds a part to the first entry with the id, or a new entry at the end. */
  function Record(entries: seq<CheckpointEntry>, id: string, info: PartitionInfo): seq<CheckpointEntry> {
    if entries == [] then [CheckpointEntry(id, [info])]
    else if entries[0].id == id then [entries[0].(partitions := entries[0].partitions + [info])] + entries[1..]
    else [entries[0]] + Record(entries[1..], id, info)
  }

  lemma {:induction false} RecordFirst(entries: seq<CheckpointEntry>, id: string, info: PartitionInfo, i: nat)
    requires i <= |entries| && (i < |entries| ==> entries[i].id == id)
    requires forall j | 0 <= j < i :: entries[j].id != id
    ensures Record(entries, id, info) ==
            if i < |entries| then entries[i := entries[i].(partitions := entries[i].partitions + [info])]
            else entries + [CheckpointEntry(id, [info])]
  {
    if i > 0 {
      RecordFirst(entries[1..], id, info, i - 1);
      assert entries == [entries[0]] + entries[1..];
    } else if entries != [] {
      var entry := entries[0].(partitions := entries[0].partitions + [info]);
      assert entries[0 := entry] == [entry] + entries[1..];
    }
  }

  /** What a lookup gives: a panic, nothing, or the directories of the parts that cover the range. */
  datatype Lookup = Panicked | Missing | Parts(id: string, parts: seq<(string, PartitionRange)>)

  function Named(infos: seq<PartitionInfo>, parts: seq<Overlap>): seq<(string, PartitionRange)>
    requires forall k | 0 <= k < |parts| :: parts[k].index < |infos|
  {
    seq(|parts|, k requires 0 <= k < |parts| => (infos[parts[k].index].dir, parts[k].range))
  }

  /** The search in one entry. */
  function InEntry(entry: CheckpointEntry, range: PartitionRange): Lookup {
    match SearchSpec(range, RangesOf(entry.partitions))
    case Panic => Panicked
    case NotFound => Missing
    case Found(parts) =>
      SearchIndices(range, RangesOf(entry.partitions));
      Parts(entry.id, Named(entry.partitions, parts))
  }

  ghost predicate NamesBelow(r: Search, n: nat) {
    r.Found? ==> forall k | 0 <= k < |r.parts| :: r.parts[k].index < n
  }

  lemma SearchIndices(search: PartitionRange, available: seq<PartitionRange>)
    ensures NamesBelow(SearchSpec(search, available), |available|)
  {
    if NoZero(search, available) {
      var target, lo, hi := Target(search, available), Lo(search, available), Hi(search, available);
      OverlappingStored(available, target, lo, hi);
      GreedyIndices(Candidates(search, available), lo, hi, target, |available|);
    }
  }

  lemma {:induction false} GreedyIndices(list: seq<Scaled>, current: nat, hi: nat, target: nat, n: nat)
    requires forall k | 0 <= k < |list| :: list[k].index < n
    ensures NamesBelow(Greedy(list, current, hi, target), n)
  {
    if list != [] {
      GreedyIndices(list[1..], current, hi, target, n);
      GreedyIndices(list[1..], Min(hi, list[0].end), hi, target, n);
    }
  }

  function OperatorCheckpoints(entries: seq<CheckpointEntry>, range: PartitionRange, id: string): Lookup {
    if entries == [] then Missing
    else
      var here := if entries[0].id == id then InEntry(entries[0], range) else Missing;
      if here.Missing? then OperatorCheckpoints(entries[1..], range, id) else here
  }

  function LatestOperatorCheckpoints(entries: seq<CheckpointEntry>, range: PartitionRange): Lookup {
    if entries == [] then Missing
    else
      var here := InEntry(entries[0], range);
      if here.Missing? then LatestOperatorCheckpoints(entries[1..], range) else here
  }

  class FileSystemStateStorage {
    /** The contents of the catalogue file, if it exists. */
    var latest: Option<seq<CheckpointEntry>>

    function Entries(): seq<CheckpointEntry>
      reads this
    {
      if latest.Some? then latest.value else []
    }

    constructor ()
      ensures Entries() == []
    {
      latest := None;
    }

    method CompleteCheckpoint(id: string, dir: string, range: PartitionRange)
      modifies this
      ensures Entries() == Record(old(Entries()), id, PartitionInfo(range, dir))
    {
      var info := PartitionInfo(range, dir);
      var entries := Entries();
      var i := 0;
      while i < |entries| && entries[i].id != id
        invariant i <= |entries|
        invariant forall j | 0 <= j < i :: entries[j].id != id
      {
        i := i + 1;
      }
      RecordFirst(entries, id, info, i);
      if i < |entries| {
        latest := Some(entries[i := entries[i].(partitions := entries[i].partitions + [info])]);
      } else {
        latest := Some(entries + [CheckpointEntry(id, [info])]);
      }
    }

    method GetOperatorCheckpoints(range: PartitionRange, id: string) returns (r: Lookup)
      ensures r == OperatorCheckpoints(Entries(), range, id)
    {
      var entries := Entries();
      for i := 0 to |entries|
        invariant OperatorCheckpoints(entries, range, id) == OperatorCheckpoints(entries[i..], range, id)
      {
        assert entries[i..][1..] == entries[i + 1..];
        if entries[i].id == id {
          r := SearchEntry(entries[i], range);
          if !r.Missing? {
            return;
          }
        }
      }
      return Missing;
    }

    method GetLatestOperatorCheckpoints(range: PartitionRange) returns (r: Lookup)
      ensures r == LatestOperatorCheckpoints(Entries(), range)
    {
      var entries := Entries();
      for i := 0 to |entries|
        invariant LatestOperatorCheckpoints(entries, range) == LatestOperatorCheckpoints(entries[i..], range)
      {
        assert entries[i..][1..] == entries[i + 1..];
        r := SearchEntry(entries[i], range);
        if !r.Missing? {
          return;
        }
      }
      return Missing;
    }
  }

  method SearchEntry(entry: CheckpointEntry, range: PartitionRange) returns (r: Lookup)
    ensures r == InEntry(entry, range)
  {
    var found := GetNonOverlappingPartitions(range, RangesOf(entry.partitions));
    SearchIndices(range, RangesOf(entry.partitions));
    r := match found
      case Panic => Panicked
      case NotFound => Missing
      case Found(parts) => Parts(entry.id, Named(entry.partitions, parts));
  }

  // ---- Histories ----

  /** One completion. */
  datatype Completion = Completion(id: string, info: PartitionInfo)

  /** The catalogue after a sequence of completions. */
  function Build(log: seq<Completion>): seq<CheckpointEntry> {
    if log == [] then []
    else var last := log[|log| - 1]; Record(Build(log[..|log| - 1]), last.id, last.info)
  }

  /** The parts completed under an id, in order. */
  function Completed(log: seq<Completion>, id: string): seq<PartitionInfo> {
    if log == [] then []
    else
      var last := log[|log| - 1];
      Completed(log[..|log| - 1], id) + if last.id == id then [last.info] else []
  }

  ghost predicate UniqueIds(entries: seq<CheckpointEntry>) {
    forall i, j | 0 <= i < j < |entries| :: entries[i].id != entries[j].id
  }

  ghost predicate HasId(entries: seq<CheckpointEntry>, id: string) {
    exists i | 0 <= i < |entries| :: entries[i].id == id
  }

  /** The parts the catalogue holds under an id. */
  function PartsUnder(entries: seq<CheckpointEntry>, id: string): seq<PartitionInfo> {
    if entries == [] then []
    else (if entries[0].id == id then entries[0].partitions else []) + PartsUnder(entries[1..], id)
  }

  lemma {:induction false} AbsentId(entries: seq<CheckpointEntry>, id: string)
    requires !HasId(entries, id)
    ensures PartsUnder(entries, id) == []
  {
    if entries != [] {
      assert forall i | 0 <= i < |entries[1..]| :: entries[1..][i] == entries[i + 1];
      AbsentId(entries[1..], id);
    }
  }

  /** One completion adds its part under its id, adds no id but that one, and changes nothing else. */
  lemma {:induction false} RecordKeeps(entries: seq<CheckpointEntry>, id: string, info: PartitionInfo, other: string)
    requires UniqueIds(entries)
    ensures UniqueIds(Record(entries, id, info))
    ensures HasId(Record(entries, id, info), other) <==> HasId(entries, other) || other == id
    ensures PartsUnder(Record(entries, id, info), other) ==
            PartsUnder(entries, other) + if other == id then [info] else []
  {
    if entries == [] {
      var entry := CheckpointEntry(id, [info]);
      assert Record(entries, id, info) == [entry] + [];
      HasIdCons(entry, [], other);
    } else {
      var head, rest := entries[0], entries[1..];
      assert entries == [head] + rest;
      UniqueIdsCons(head, rest);
      HasIdCons(head, rest, other);
      if head.id == id {
        var entry := head.(partitions := head.partitions + [info]);
        UniqueIdsCons(entry, rest);
        HasIdCons(entry, rest, other);
        AbsentId(rest, id);
      } else {
        RecordKeeps(rest, id, info, other);
        RecordKeeps(rest, id, info, head.id);
        UniqueIdsCons(head, Record(rest, id, info));
        HasIdCons(head, Record(rest, id, info), other);
      }
    }
  }

  lemma UniqueIdsCons(head: CheckpointEntry, tail: seq<CheckpointEntry>)
    ensures UniqueIds([head] + tail) <==> UniqueIds(tail) && !HasId(tail, head.id)
  {
    var all := [head] + tail;
    assert all[0] == head && forall i | 0 <= i < |tail| :: tail[i] == all[i + 1];
    if UniqueIds(all) {
      forall i, j | 0 <= i < j < |tail| ensures tail[i].id != tail[j].id {
        assert all[i + 1].id != all[j + 1].id;
      }
    } else {
      var i, j :| 0 <= i < j < |all| && all[i].id == all[j].id;
      assert tail[j - 1].id == all[i].id;
      assert i > 0 ==> tail[i - 1].id == tail[j - 1].id;
    }
  }

  lemma HasIdCons(head: CheckpointEntry, tail: seq<CheckpointEntry>, id: string)
    ensures HasId([head] + tail, id) <==> head.id == id || HasId(tail, id)
  {
    var all := [head] + tail;
    assert all[0] == head && forall i | 0 <= i < |tail| :: tail[i] == all[i + 1];
    if HasId(all, id) && head.id != id {
      var i :| 0 <= i < |all| && all[i].id == id;
      assert tail[i - 1].id == id;
    }
  }

  /** For every history with one writer: ids stay unique and each id holds exactly its completed parts, in order. */
  lemma {:induction false} HistoryKept(log: seq<Completion>, id: string)
    ensures UniqueIds(Build(log))
    ensures PartsUnder(Build(log), id) == Completed(log, id)
    ensures HasId(Build(log), id) <==> Completed(log, id) != []
  {
    if log != [] {
      var last := log[|log| - 1];
      HistoryKept(log[..|log| - 1], id);
      RecordKeeps(Build(log[..|log| - 1]), last.id, last.info, id);
    }
  }

  lemma {:induction false} OnlyEntry(entries: seq<CheckpointEntry>, range: PartitionRange, id: string)
    requires UniqueIds(entries)
    ensures OperatorCheckpoints(entries, range, id) ==
            if HasId(entries, id) then InEntry(CheckpointEntry(id, PartsUnder(entries, id)), range) else Missing
  {
    if entries != [] {
      var rest := entries[1..];
      OnlyEntry(rest, range, id);
      assert entries == [entries[0]] + rest;
      HasIdCons(entries[0], rest, id);
      if entries[0].id == id {
        assert !HasId(rest, id);
        AbsentId(rest, id);
        assert entries[0] == CheckpointEntry(id, PartsUnder(entries, id));
      } else {
        assert PartsUnder(entries, id) == PartsUnder(rest, id);
      }
    }
  }

  /** After every history, looking up an id searches exactly the parts that were completed under it. */
  lemma LookupExact(log: seq<Completion>, range: PartitionRange, id: string)
    ensures OperatorCheckpoints(Build(log), range, id) ==
            if Completed(log, id) == [] then Missing else InEntry(CheckpointEntry(id, Completed(log, id)), range)
  {
    HistoryKept(log, id);
    OnlyEntry(Build(log), range, id);
  }

  /** The lookup without an id returns the first covering entry; every entry before it covers nothing. */
  lemma {:induction false} LatestIsFirst(entries: seq<CheckpointEntry>, range: PartitionRange)
    ensures match LatestOperatorCheckpoints(entries, range)
            case Missing => forall i | 0 <= i < |entries| :: InEntry(entries[i], range).Missing?
            case found => exists i | 0 <= i < |entries| ::
                            && InEntry(entries[i], range) == found
                            && forall j | 0 <= j < i :: InEntry(entries[j], range).Missing?
  {
    if entries != [] {
      LatestIsFirst(entries[1..], range);
      var found := LatestOperatorCheckpoints(entries, range);
      assert entries == [entries[0]] + entries[1..];
      if InEntry(entries[0], range).Missing? && !found.Missing? {
        var i :| 0 <= i < |entries[1..]| && InEntry(entries[1..][i], range) == found &&
                 forall j | 0 <= j < i :: InEntry(entries[1..][j], range).Missing?;
        assert InEntry(entries[i + 1], range) == found;
        forall j | 0 <= j < i + 1 ensures InEntry(entries[j], range).Missing? {
          if j > 0 { assert entries[j] == entries[1..][j - 1]; }
        }
      }
    }
  }

  /**
   A covering entry, the newest one included, is returned if and only if no older entry covers: an older one that does
   is found first.
   */
  lemma NewestExactly(entries: seq<CheckpointEntry>, range: PartitionRange, i: nat)
    requires UniqueIds(entries) && i < |entries| && InEntry(entries[i], range).Parts?
    ensures LatestOperatorCheckpoints(entries, range) == InEntry(entries[i], range) <==>
            forall j | 0 <= j < i :: InEntry(entries[j], range).Missing?
  {
    LatestIsFirst(entries, range);
    var found := LatestOperatorCheckpoints(entries, range);
    var first :| 0 <= first < |entries| && InEntry(entries[first], range) == found &&
                 forall j | 0 <= j < first :: InEntry(entries[j], range).Missing?;
    if found == InEntry(entries[i], range) {
      assert entries[first].id == entries[i].id;
    }
  }

  // ---- What a lookup returns ----

  function PartRanges(parts: seq<(string, PartitionRange)>): seq<PartitionRange> {
    seq(|parts|, k requires 0 <= k < |parts| => parts[k].1)
  }

  /** A stored part lies in the directory, and its rescaled range contains the nonempty range. */
  ghost predicate StoredIn(infos: seq<PartitionInfo>, target: nat, dir: string, range: PartitionRange) {
    exists i | 0 <= i < |infos| :: Contains(infos[i], target, dir, range)
  }

  ghost predicate Contains(info: PartitionInfo, target: nat, dir: string, range: PartitionRange) {
    && info.dir == dir && info.range.partitions > 0 && range.start < range.end
    && Rescale(info.range.start, info.range.partitions, target) <= range.start
    && range.end <= Rescale(info.range.end, info.range.partitions, target)
  }

  /** The parts tile the rescaled search, and each names the directory of a stored part that contains it. */
  ghost predicate Restores(infos: seq<PartitionInfo>, range: PartitionRange, parts: seq<(string, PartitionRange)>) {
    var ranges := RangesOf(infos);
    var target := Target(range, ranges);
    && range.partitions > 0
    && Tiles(PartRanges(parts), Rescale(range.start, range.partitions, target),
             Rescale(range.end, range.partitions, target), target)
    && forall k | 0 <= k < |parts| :: StoredIn(infos, target, parts[k].0, parts[k].1)
  }

  /** What one entry gives for a nonempty range can be restored from: every part from the directory it is stored in. */
  lemma EntryRestores(entry: CheckpointEntry, range: PartitionRange)
    requires range.start < range.end && InEntry(entry, range).Parts?
    ensures InEntry(entry, range).id == entry.id && Restores(entry.partitions, range, InEntry(entry, range).parts)
  {
    var infos, ranges := entry.partitions, RangesOf(entry.partitions);
    var target, found := Target(range, ranges), SearchSpec(range, ranges).parts;
    var parts := InEntry(entry, range).parts;
    SearchSound(range, ranges);
    assert PartRanges(parts) == Ranges(found);
    forall k | 0 <= k < |parts| ensures StoredIn(infos, target, parts[k].0, parts[k].1) {
      assert Contains(infos[found[k].index], target, parts[k].0, parts[k].1);
    }
  }

  /** An entry is used exactly if its parts cover the range and none jumps ahead of those stored before it. */
  lemma EntryFinds(entry: CheckpointEntry, range: PartitionRange)
    requires range.start < range.end
    ensures var ranges := RangesOf(entry.partitions);
            && (InEntry(entry, range).Panicked? <==> !NoZero(range, ranges))
            && (NoZero(range, ranges) ==>
                  (InEntry(entry, range).Parts? <==>
                   && StoredCover(range, ranges)
                   && NoJump(Candidates(range, ranges), Lo(range, ranges), Hi(range, ranges))))
  {
    var ranges := RangesOf(entry.partitions);
    if NoZero(range, ranges) {
      SearchSound(range, ranges);
      SearchExact(range, ranges);
    }
  }

  /**
   After every history, whatever a lookup for a nonempty range returns restores it from parts that were completed under
   the returned id, each from its own directory. With an id given, it is that one.
   */
  lemma LookupRestores(log: seq<Completion>, range: PartitionRange, id: string)
    requires range.start < range.end
    ensures var found := OperatorCheckpoints(Build(log), range, id);
            found.Parts? ==> found.id == id && Restores(Completed(log, id), range, found.parts)
    ensures var found := LatestOperatorCheckpoints(Build(log), range);
            found.Parts? ==> Restores(Completed(log, found.id), range, found.parts)
  {
    LookupExact(log, range, id);
    if OperatorCheckpoints(Build(log), range, id).Parts? {
      EntryRestores(CheckpointEntry(id, Completed(log, id)), range);
    }
    var found := LatestOperatorCheckpoints(Build(log), range);
    LatestIsFirst(Build(log), range);
    if found.Parts? {
      var i :| 0 <= i < |Build(log)| && InEntry(Build(log)[i], range) == found;
      EntryRestores(Build(log)[i], range);
      HistoryKept(log, found.id);
      EntryParts(Build(log), i);
    }
  }

  // ---- The order of histories ----

  /** The ids in the order of their first completion. */
  function Order(log: seq<Completion>): seq<string> {
    if log == [] then []
    else
      var before, last := Order(log[..|log| - 1]), log[|log| - 1];
      if last.id in before then before else before + [last.id]
  }

  function IdsOf(entries: seq<CheckpointEntry>): seq<string> {
    if entries == [] then [] else [entries[0].id] + IdsOf(entries[1..])
  }

  lemma {:induction false} IdsLength(entries: seq<CheckpointEntry>)
    ensures |IdsOf(entries)| == |entries|
  {
    if entries != [] { IdsLength(entries[1..]); }
  }

  lemma {:induction false} IdsAt(entries: seq<CheckpointEntry>, i: nat)
    requires i < |entries|
    ensures |IdsOf(entries)| == |entries| && IdsOf(entries)[i] == entries[i].id
  {
    if |entries| > 1 { IdsAt(entries[1..], if i > 0 then i - 1 else 0); }
  }

  lemma {:induction false} RecordIds(entries: seq<CheckpointEntry>, id: string, info: PartitionInfo)
    ensures IdsOf(Record(entries, id, info)) == if id in IdsOf(entries) then IdsOf(entries) else IdsOf(entries) + [id]
  {
    if entries != [] && entries[0].id != id {
      var rest := entries[1..];
      RecordIds(rest, id, info);
      assert Record(entries, id, info)[1..] == Record(rest, id, info);
      assert id in IdsOf(entries) <==> id in IdsOf(rest);
    }
  }

  /** The catalogue lists the ids in the order of their first completion. */
  lemma {:induction false} BuildInOrder(log: seq<Completion>)
    ensures IdsOf(Build(log)) == Order(log)
  {
    if log != [] {
      BuildInOrder(log[..|log| - 1]);
      RecordIds(Build(log[..|log| - 1]), log[|log| - 1].id, log[|log| - 1].info);
    }
  }

  lemma {:induction false} EntryParts(entries: seq<CheckpointEntry>, i: nat)
    requires UniqueIds(entries) && i < |entries|
    ensures entries[i].partitions == PartsUnder(entries, entries[i].id)
  {
    var head, rest := entries[0], entries[1..];
    assert entries == [head] + rest;
    UniqueIdsCons(head, rest);
    if i == 0 {
      AbsentId(rest, head.id);
    } else {
      EntryParts(rest, i - 1);
      assert rest[i - 1] == entries[i] && head.id != entries[i].id;
    }
  }

  /** What was completed under an id, searched for a range. */
  function InHistory(log: seq<Completion>, id: string, range: PartitionRange): Lookup {
    InEntry(CheckpointEntry(id, Completed(log, id)), range)
  }

  /**
   For every history and every id whose parts cover the range, the newest one included: the lookup returns that
   checkpoint if and only if no id that was first completed before it covers the range.
   */
  lemma NewestInHistory(log: seq<Completion>, range: PartitionRange, i: nat)
    requires i < |Order(log)| && InHistory(log, Order(log)[i], range).Parts?
    ensures LatestOperatorCheckpoints(Build(log), range) == InHistory(log, Order(log)[i], range) <==>
            forall j | 0 <= j < i :: InHistory(log, Order(log)[j], range).Missing?
  {
    BuildInOrder(log);
    IdsLength(Build(log));
    forall j | 0 <= j < |Order(log)| ensures InEntry(Build(log)[j], range) == InHistory(log, Order(log)[j], range) {
      EntryInHistory(log, range, j);
    }
    HistoryKept(log, Order(log)[i]);
    NewestExactly(Build(log), range, i);
  }

  lemma EntryInHistory(log: seq<Completion>, range: PartitionRange, j: nat)
    requires j < |Order(log)|
    ensures |Build(log)| == |Order(log)| && InEntry(Build(log)[j], range) == InHistory(log, Order(log)[j], range)
  {
    BuildInOrder(log);
    IdsLength(Build(log));
    IdsAt(Build(log), j);
    HistoryKept(log, Order(log)[j]);
    EntryParts(Build(log), j);
    assert Build(log)[j] == CheckpointEntry(Order(log)[j], Completed(log, Order(log)[j]));
  }

  /** So it is not the newest one: after two completions of the same range the older id is returned. */
  lemma LatestIsNotNewest(range: PartitionRange)
    requires range.Proper()
    ensures var log := [Completion("1", PartitionInfo(range, "a")), Completion("2", PartitionInfo(range, "b"))];
            LatestOperatorCheckpoints(Build(log), range) == Parts("1", [("a", range)])
  {
    var first, second := Completion("1", PartitionInfo(range, "a")), Completion("2", PartitionInfo(range, "b"));
    assert [first, second][..1] == [first] && [first][..0] == [];
    assert Build([first]) == [CheckpointEntry("1", [first.info])];
    OneRangeFound([first.info], range);
    assert Build([first, second])[0] == CheckpointEntry("1", [first.info]);
  }

  /** Parts that all have the searched range: the first of them is selected, with the whole range. */
  lemma OneRangeFound(infos: seq<PartitionInfo>, range: PartitionRange)
    requires range.Proper() && infos != []
    requires forall i | 0 <= i < |infos| :: infos[i].range == range
    ensures forall id :: InEntry(CheckpointEntry(id, infos), range) == Parts(id, [(infos[0].dir, range)])
  {
    var available := RangesOf(infos);
    SameTarget(range, available);
    MulDiv(range.start, range.partitions);
    MulDiv(range.end, range.partitions);
    var all := ScaleAll(available, range.partitions);
    assert all[0] == Scaled(0, range.start, range.end);
    assert Overlapping(all, range.start, range.end)[0] == all[0];
    assert SearchSpec(range, available) == Found([Overlap(0, range)]);
  }

  lemma {:induction false} OverlappingNone(all: seq<Scaled>, lo: nat, hi: nat)
    requires forall k | 0 <= k < |all| :: all[k].start >= hi
    ensures Overlapping(all, lo, hi) == []
  {
    if all != [] { OverlappingNone(all[1..], lo, hi); }
  }

  /** With a range that is empty or has no partitions the search for it panics instead. */
  lemma ImproperPanics(infos: seq<PartitionInfo>, range: PartitionRange)
    requires !range.Proper() && infos != []
    requires forall i | 0 <= i < |infos| :: infos[i].range == range
    ensures forall id :: InEntry(CheckpointEntry(id, infos), range) == Panicked
  {
    var available := RangesOf(infos);
    if NoZero(range, available) {
      SameTarget(range, available);
      MulDiv(range.start, range.partitions);
      MulDiv(range.end, range.partitions);
      OverlappingNone(ScaleAll(available, range.partitions), range.start, range.end);
    }
    PanicExactly(range, available);
    assert SearchSpec(range, available) == Panic;
  }

  lemma {:induction false} SameTarget(range: PartitionRange, available: seq<PartitionRange>)
    requires forall i | 0 <= i < |available| :: available[i] == range
    ensures Target(range, available) == range.partitions
  {
    if available != [] {
      SameTarget(range, available[1..]);
    }
  }
}
