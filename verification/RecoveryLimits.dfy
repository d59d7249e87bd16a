/**
 Restarts from checkpoints of later iterations. The source replays the rest of such an iteration under the numbers of
 the first one. A task that does so still ends with the right result, but it stores snapshots under wrong numbers, and
 a second restart from one of these ends with a wrong result.
 */
module RecoveryLimits {
  import opened Wrappers
  import opened Streams
  import opened Source
  import opened StateBackend
  import opened Counting
  import opened Recovery

  lemma {:induction false} RenumberRows(items: seq<Item<seq<nat>>>, base: nat)
    ensures Rows(Renumber(items, base)) == Rows(items)
  {
    RenumberBatches(items, base);
  }

  lemma {:induction false} IterationsRows(items: seq<Item<seq<nat>>>, m: nat, i: nat, n: nat)
    requires i <= n
    ensures Rows(Iterations(items, m, i, n)) == [] <==> i == n || Rows(items) == []
    decreases n - i
  {
    if i < n {
      IterationsRows(items, m, i + 1, n);
      RenumberRows(items, MarkersBefore(i, m));
      RowsAppend(Renumber(items, MarkersBefore(i, m)), Iterations(items, m, i + 1, n));
    }
  }

  lemma CountsSwap(op: Operator, a: seq<nat>, b: seq<nat>)
    ensures Counts(op, a + b) == Counts(op, b + a)
  {
    assert multiset(a + b) == multiset(b + a);
    assert forall k :: k in a + b <==> k in b + a;
  }

  /** What comes before item `o` of a renumbered list inside a stream. */
  lemma PrefixRows(whole: seq<Item<seq<nat>>>, before: seq<Item<seq<nat>>>, items: seq<Item<seq<nat>>>, base: nat,
                   rest: seq<Item<seq<nat>>>, o: nat)
    requires Splits(whole, before, items, base, rest) && o < |items|
    ensures |before| + o < |whole| && whole[|before| + o] == RenumberItem(items[o], base)
    ensures Rows(whole[..|before| + o]) == Rows(before) + Rows(items[..o])
  {
    assert whole[..|before| + o] == before + Renumber(items[..o], base);
    RowsAppend(before, Renumber(items[..o], base));
    RenumberRows(items[..o], base);
  }

  /** The rows before checkpoint `k * m + j`: those of `k` whole iterations and of the items before marker `j`. */
  lemma RowsBefore(cfg: Config, k: nat, j: nat, c: nat, o: nat)
    requires cfg.Valid() && 1 <= j <= cfg.m && (k < cfg.n || k == 0) && c == k * cfg.m + j
    requires o < |cfg.items| && cfg.items[o] == Marker(j)
    ensures FindMarker(cfg.Stream(), c).Some?
    ensures Rows(cfg.Stream()[..FindMarker(cfg.Stream(), c).value]) ==
            Rows(Iterations(cfg.items, cfg.m, 0, k)) + Rows(cfg.items[..o])
  {
    MarkersBeforeIs(k, cfg.m);
    WholeSplit(cfg.items, cfg.m, cfg.n, k);
    var before, rest := Iterations(cfg.items, cfg.m, 0, k), Iterations(cfg.items, cfg.m, k + 1, cfg.n);
    PrefixRows(cfg.Stream(), before, cfg.items, MarkersBefore(k, cfg.m), rest, o);
    MarkerPosition(cfg, |before| + o, c);
  }

  /**
   A task restarted from a right snapshot of checkpoint `c = k * m + j` first stores a snapshot under number `j`. That
   snapshot is right if and only if the restart was in the first iteration, or there are no rows at all to count.
   */
  lemma LaterSnapshot(cfg: Config, k: nat, j: nat, c: nat, db: Db)
    requires cfg.Valid() && 1 <= j <= cfg.m && (k < cfg.n || k == 0) && c == k * cfg.m + j
    requires Right(cfg, c, db)
    ensures Right(cfg, j, db + Restored(cfg.op, db)) <==> k == 0 || Rows(cfg.items) == []
  {
    FindMarkerIs(cfg.items, j);
    var o := FindMarker(cfg.items, j).value;
    RowsBefore(cfg, k, j, c, o);
    RowsBefore(cfg, 0, j, j, o);
    var turns, part := Rows(Iterations(cfg.items, cfg.m, 0, k)), Rows(cfg.items[..o]);
    assert Rows(Iterations(cfg.items, cfg.m, 0, 0)) == [];
    assert [] + part == part;
    SnapshotContents(cfg.op, turns, part, db);
    IterationsRows(cfg.items, cfg.m, 0, k);
  }

  lemma SnapshotContents(op: Operator, turns: seq<nat>, part: seq<nat>, db: Db)
    requires db == Counts(op, turns + part)
    ensures db + Restored(op, db) == db
    ensures db == Counts(op, part) <==> turns == []
  {
    RestoredCounts(op, turns + part);
    CountsSwap(op, turns, part);
    CountsGrow(op, part, turns);
  }

  /** What `StartTask` makes of that checkpoint: the stream begins with marker `j`. */
  lemma LaterStream(cfg: Config, k: nat, j: nat, c: nat) returns (p: nat, stream: seq<Item<seq<nat>>>)
    requires cfg.Valid() && 1 <= j <= cfg.m && (k < cfg.n || k == 0) && c == k * cfg.m + j
    ensures Locate(cfg.items, c).Ok? && Locate(cfg.items, c).value.offset <= |cfg.items|
    ensures StreamFrom(cfg.items, cfg.n, Locate(cfg.items, c).value) == Ok(stream)
    ensures stream != [] && stream[0] == Marker(j)
    ensures p < |cfg.Stream()| && FindMarker(cfg.Stream(), c) == Some(p)
    ensures Rows(stream) == Rows(cfg.Stream()[p..])
  {
    p := ReplayExact(cfg.items, cfg.m, cfg.n, k, j, c);
    stream := StreamFrom(cfg.items, cfg.n, Locate(cfg.items, c).value).value;
    MarkerPosition(cfg, p, c);
  }

  /** The counts after processing a whole stream. */
  function Fold(op: Operator, counts: Db, stream: seq<Item<seq<nat>>>): Db
    decreases |stream|
  {
    if stream == [] then counts
    else Fold(op, if stream[0].Batch? then Updated(op, counts, stream[0].batch) else counts, stream[1..])
  }

  /** Each processed item is one step closer to that. */
  lemma FoldStep(cfg: Config, s: State, uuid: string)
    requires s.task.Some? && s.task.value.next < |s.task.value.stream|
    ensures var task, after := s.task.value, ProcessItem(cfg, s, s.task.value, uuid).task.value;
            && after.stream == task.stream && after.next == task.next + 1
            && Fold(cfg.op, after.counts, after.stream[after.next..]) ==
               Fold(cfg.op, task.counts, task.stream[task.next..])
  {
    var task := s.task.value;
    assert task.stream[task.next..][1..] == task.stream[task.next + 1..];
  }

  lemma {:induction false} FoldCounts(op: Operator, rows: seq<nat>, stream: seq<Item<seq<nat>>>)
    ensures Fold(op, Counts(op, rows), stream) == Counts(op, rows + Rows(stream))
    decreases |stream|
  {
    if stream == [] {
      assert rows + Rows(stream) == rows;
    } else {
      var batch := if stream[0].Batch? then stream[0].batch else [];
      assert stream == [stream[0]] + stream[1..];
      RowsNext(stream, 0);
      assert stream[..1] == [stream[0]] && stream[..0] == [];
      RowsAppend([stream[0]], stream[1..]);
      assert Rows(stream) == batch + Rows(stream[1..]);
      assert rows + (batch + Rows(stream[1..])) == rows + batch + Rows(stream[1..]);
      UpdatedCounts(op, rows, batch);
      FoldCounts(op, rows + batch, stream[1..]);
      assert rows + [] == rows;
    }
  }

  lemma ResultIn(op: Operator, whole: seq<Item<seq<nat>>>, p: nat, stream: seq<Item<seq<nat>>>, db: Db)
    requires p <= |whole| && db == Counts(op, Rows(whole[..p])) && Rows(stream) == Rows(whole[p..])
    ensures Fold(op, Restored(op, db), stream) == Counts(op, Rows(whole))
  {
    RestoredCounts(op, Rows(whole[..p]));
    FoldCounts(op, Rows(whole[..p]), stream);
    RowsAppend(whole[..p], whole[p..]);
    assert whole[..p] + whole[p..] == whole;
  }

  /** The result of one task restarted from a right snapshot of any checkpoint is the result without restarts. */
  lemma LaterResult(cfg: Config, k: nat, j: nat, c: nat, db: Db) returns (stream: seq<Item<seq<nat>>>)
    requires cfg.Valid() && 1 <= j <= cfg.m && (k < cfg.n || k == 0) && c == k * cfg.m + j
    requires Right(cfg, c, db)
    ensures Locate(cfg.items, c).Ok? && Locate(cfg.items, c).value.offset <= |cfg.items|
    ensures StreamFrom(cfg.items, cfg.n, Locate(cfg.items, c).value) == Ok(stream)
    ensures Fold(cfg.op, Restored(cfg.op, db), stream) == Counts(cfg.op, Rows(cfg.Stream()))
  {
    var p;
    p, stream := LaterStream(cfg, k, j, c);
    ResultIn(cfg.op, cfg.Stream(), p, stream, db);
  }

  /**
   A second restart, from the snapshot that the first one stored under number `j`: the result counts `k` iterations
   twice. It is the result without restarts if and only if the first restart was in the first iteration, or there are
   no rows at all.
   */
  lemma SecondRestart(cfg: Config, k: nat, j: nat, c: nat, db: Db) returns (stream: seq<Item<seq<nat>>>)
    requires cfg.Valid() && 1 <= j <= cfg.m && (k < cfg.n || k == 0) && c == k * cfg.m + j
    requires Right(cfg, c, db)
    ensures Locate(cfg.items, j).Ok? && Locate(cfg.items, j).value.offset <= |cfg.items|
    ensures StreamFrom(cfg.items, cfg.n, Locate(cfg.items, j).value) == Ok(stream)
    ensures db + Restored(cfg.op, db) == db
    ensures Fold(cfg.op, Restored(cfg.op, db), stream) ==
            Counts(cfg.op, Rows(Iterations(cfg.items, cfg.m, 0, k)) + Rows(cfg.Stream()))
    ensures Fold(cfg.op, Restored(cfg.op, db), stream) == Counts(cfg.op, Rows(cfg.Stream())) <==>
            k == 0 || Rows(cfg.items) == []
  {
    FindMarkerIs(cfg.items, j);
    var o := FindMarker(cfg.items, j).value;
    RowsBefore(cfg, k, j, c, o);
    RowsBefore(cfg, 0, j, j, o);
    var turns, part := Rows(Iterations(cfg.items, cfg.m, 0, k)), Rows(cfg.items[..o]);
    assert Rows(Iterations(cfg.items, cfg.m, 0, 0)) == [] && [] + part == part;
    SnapshotContents(cfg.op, turns, part, db);
    var p;
    p, stream := LaterStream(cfg, 0, j, j);
    CountedTwice(cfg.op, cfg.Stream(), p, turns, part, stream, db);
    IterationsRows(cfg.items, cfg.m, 0, k);
  }

  lemma CountedTwice(op: Operator, whole: seq<Item<seq<nat>>>, p: nat, turns: seq<nat>, part: seq<nat>,
                     stream: seq<Item<seq<nat>>>, db: Db)
    requires p <= |whole| && Rows(whole[..p]) == part && Rows(stream) == Rows(whole[p..])
    requires db == Counts(op, turns + part)
    ensures Fold(op, Restored(op, db), stream) == Counts(op, turns + Rows(whole))
    ensures Counts(op, turns + Rows(whole)) == Counts(op, Rows(whole)) <==> turns == []
  {
    RestoredCounts(op, turns + part);
    FoldCounts(op, turns + part, stream);
    RowsAppend(whole[..p], whole[p..]);
    assert whole[..p] + whole[p..] == whole;
    Associate(turns, part, Rows(stream));
    CountsSwap(op, turns, Rows(whole));
    CountsGrow(op, Rows(whole), turns);
  }

  /** One row and one marker, twice: after a restart from checkpoint 2 the snapshot under 1 counts both rows. */
  lemma LaterRestartBreaks(cfg: Config, db: Db)
    requires cfg.items == [Batch([7]), Marker(1)] && cfg.m == 1 && cfg.n == 2
    requires Right(cfg, 2, db)
    ensures !Right(cfg, 1, db + Restored(cfg.op, db))
  {
    assert cfg.items[1] == Marker(1);
    assert Batches(cfg.items) == [[7]] + Batches(cfg.items[1..]);
    assert Rows(cfg.items)[0] == 7;
    LaterSnapshot(cfg, 1, 1, 2, db);
  }
}
