/**
 Exactly when recovery is exactly once: over all runs with restarts from checkpoints up to a limit, results are right if
 and only if the limit stays in the first iteration, there is only one iteration, or there are no rows to count.
 */
module RecoveryExact {
  import opened Wrappers
  import opened Streams
  import opened Partitioning
  import opened Source
  import opened StateBackend
  import opened Counting
  import opened Recovery
  import opened RecoveryLimits

  ghost predicate AllRight(cfg: Config, s: State) {
    SnapshotsRight(cfg, s) && UploadsRight(cfg, s) && ResultsRight(cfg, s)
  }

  // ---- No rows ----

  /** Every marker of a stream also occurs in another one. */
  ghost predicate MarkersIn(stream: seq<Item<seq<nat>>>, whole: seq<Item<seq<nat>>>) {
    forall i | 0 <= i < |stream| && stream[i].Marker? :: stream[i] in whole
  }

  ghost predicate TaskEmpty(cfg: Config, task: Task) {
    && task.next <= |task.stream|
    && Rows(task.stream) == [] && MarkersIn(task.stream, cfg.Stream())
    && task.counts == Counts(cfg.op, []) && task.db.Keys <= task.counts.Keys
  }

  ghost predicate EmptyInv(cfg: Config, s: State) {
    AllRight(cfg, s) && (s.task.Some? ==> TaskEmpty(cfg, s.task.value))
  }

  lemma NoRowsAround(s: seq<Item<seq<nat>>>, q: nat)
    requires Rows(s) == [] && q < |s|
    ensures Rows(s[..q]) == [] && (s[q].Batch? ==> s[q].batch == [])
  {
    RowsAppend(s[..q + 1], s[q + 1..]);
    assert s[..q + 1] + s[q + 1..] == s;
    RowsNext(s, q);
  }

  lemma NoRowsRight(cfg: Config, number: nat)
    requires Rows(cfg.Stream()) == [] && Marker(number) in cfg.Stream()
    ensures Right(cfg, number, Counts(cfg.op, []))
  {
    FindMarkerIs(cfg.Stream(), number);
    NoRowsAround(cfg.Stream(), FindMarker(cfg.Stream(), number).value);
  }

  lemma RightNoRows(cfg: Config, number: nat, db: Db)
    requires Rows(cfg.Stream()) == [] && Right(cfg, number, db)
    ensures db == Counts(cfg.op, [])
  {
    NoRowsAround(cfg.Stream(), FindMarker(cfg.Stream(), number).value);
  }

  lemma NoRowsAnywhere(cfg: Config)
    requires Rows(cfg.items) == []
    ensures Rows(cfg.Stream()) == []
  {
    RowsAppend(cfg.items, Iterations(cfg.items, cfg.m, 1, cfg.n));
    if cfg.n > 1 { IterationsRows(cfg.items, cfg.m, 1, cfg.n); }
  }

  lemma UpdatedByNothing(op: Operator)
    ensures Updated(op, Counts(op, []), []) == Counts(op, [])
  {
    var none: seq<nat> := [];
    UpdatedCounts(op, none, none);
    assert none + none == none;
  }

  lemma ProcessEmpty(cfg: Config, s: State, uuid: string)
    requires Rows(cfg.Stream()) == [] && EmptyInv(cfg, s)
    requires s.task.Some? && s.task.value.next < |s.task.value.stream|
    ensures EmptyInv(cfg, ProcessItem(cfg, s, s.task.value, uuid))
  {
    var task := s.task.value;
    NoRowsAround(task.stream, task.next);
    match task.stream[task.next]
    case Batch(rows) =>
      UpdatedByNothing(cfg.op);
    case Marker(number) =>
      NoRowsRight(cfg, number);
      Overwritten(task.db, task.counts);
      SnapshotAdded(cfg, s, ProcessItem(cfg, s, task, uuid), Snapshot(number, uuid, task.db + task.counts));
  }

  lemma IterationsWithin(items: seq<Item<seq<nat>>>, m: nat, k: nat, n: nat)
    ensures MarkersIn(Iterations(items, m, k + 1, n), Whole(items, m, n))
  {
    if k + 1 < n {
      IterationsSplit(items, m, 1, k + 1, n);
    }
  }

  lemma TailWithin(items: seq<Item<seq<nat>>>, o: nat, more: seq<Item<seq<nat>>>)
    requires o <= |items|
    ensures MarkersIn(items[o..], items + more)
  {
  }

  lemma TogetherWithin(a: seq<Item<seq<nat>>>, b: seq<Item<seq<nat>>>, whole: seq<Item<seq<nat>>>)
    requires MarkersIn(a, whole) && MarkersIn(b, whole)
    ensures MarkersIn(a + b, whole)
  {
  }

  lemma TailRows(cfg: Config, at: Position)
    requires Rows(cfg.items) == [] && at.offset <= |cfg.items|
    ensures Rows(cfg.items[at.offset..] + Iterations(cfg.items, cfg.m, at.iteration + 1, cfg.n)) == []
  {
    var head, rest := cfg.items[at.offset..], Iterations(cfg.items, cfg.m, at.iteration + 1, cfg.n);
    RowsAppend(cfg.items[..at.offset], head);
    assert cfg.items[..at.offset] + head == cfg.items;
    RowsAppend(head, rest);
    if at.iteration + 1 < cfg.n { IterationsRows(cfg.items, cfg.m, at.iteration + 1, cfg.n); }
  }

  lemma StreamEmpty(cfg: Config, at: Position)
    requires cfg.Valid() && Rows(cfg.items) == [] && at.offset <= |cfg.items|
    ensures match StreamFrom(cfg.items, cfg.n, at)
            case Ok(stream) => Rows(stream) == [] && MarkersIn(stream, cfg.Stream())
            case Err(_) => true
  {
    WellMarkedMax(cfg.items, cfg.m);
    TailRows(cfg, at);
    TailWithin(cfg.items, at.offset, Iterations(cfg.items, cfg.m, 1, cfg.n));
    IterationsWithin(cfg.items, cfg.m, at.iteration, cfg.n);
    TogetherWithin(cfg.items[at.offset..], Iterations(cfg.items, cfg.m, at.iteration + 1, cfg.n), cfg.Stream());
  }

  lemma StartEmpty(cfg: Config, s: State, listing: seq<Snapshot>, checkpoint: nat)
    requires cfg.Valid() && Rows(cfg.items) == [] && AllRight(cfg, s)
    requires forall i | 0 <= i < |listing| :: listing[i] in s.snapshots
    ensures var task := StartTask(cfg, s, listing, checkpoint); task.Some? ==> TaskEmpty(cfg, task.value)
  {
    if StartTask(cfg, s, listing, checkpoint).Some? {
      StreamEmpty(cfg, Locate(cfg.items, checkpoint).value);
      InitialCounts(cfg.op);
      if checkpoint > 0 {
        NoRowsAnywhere(cfg);
        FindExact(cfg, s, listing, checkpoint);
        RightNoRows(cfg, checkpoint, Find(cfg, s, listing, checkpoint).db);
        RestoredCounts(cfg.op, []);
      }
    }
  }

  lemma OtherEmpty(cfg: Config, s: State, step: Step, limit: nat)
    requires Rows(cfg.Stream()) == [] && EmptyInv(cfg, s) && Enabled(cfg, s, step, limit)
    requires step.Upload? || step.Finish?
    ensures EmptyInv(cfg, Apply(cfg, s, step, limit))
  {
  }

  lemma StepEmpty(cfg: Config, s: State, step: Step, limit: nat)
    requires cfg.Valid() && Rows(cfg.items) == [] && EmptyInv(cfg, s) && Enabled(cfg, s, step, limit)
    ensures EmptyInv(cfg, Apply(cfg, s, step, limit))
  {
    NoRowsAnywhere(cfg);
    match step
    case Restart(checkpoint, listing) => StartEmpty(cfg, s, listing, checkpoint);
    case Process(uuid) => ProcessEmpty(cfg, s, uuid);
    case _ => OtherEmpty(cfg, s, step, limit);
  }

  lemma {:induction false} NoRowsOnce(cfg: Config, limit: nat, run: seq<State>, k: nat)
    requires cfg.Valid() && Rows(cfg.items) == [] && IsRun(cfg, limit, run) && k < |run|
    ensures EmptyInv(cfg, run[k])
  {
    if k > 0 {
      NoRowsOnce(cfg, limit, run, k - 1);
      assert StepAt(cfg, limit, run, k - 1);
      var step :| Enabled(cfg, run[k - 1], step, limit) && run[k] == Apply(cfg, run[k - 1], step, limit);
      StepEmpty(cfg, run[k - 1], step, limit);
    }
  }

  // ---- Building runs ----

  /** The run ends in the state. */
  ghost predicate Ends(cfg: Config, limit: nat, run: seq<State>, s: State) {
    IsRun(cfg, limit, run) && run[|run| - 1] == s
  }

  lemma EmptyRun(cfg: Config, limit: nat) returns (run: seq<State>)
    ensures Ends(cfg, limit, run, State([], [], map[], None, []))
  {
    run := [State([], [], map[], None, [])];
  }

  lemma Extend(cfg: Config, limit: nat, run: seq<State>, s: State, step: Step) returns (longer: seq<State>)
    requires Ends(cfg, limit, run, s) && Enabled(cfg, s, step, limit)
    ensures Ends(cfg, limit, longer, Apply(cfg, s, step, limit)) && longer == run + [Apply(cfg, s, step, limit)]
  {
    longer := run + [Apply(cfg, s, step, limit)];
    forall k: nat | k + 1 < |longer| ensures StepAt(cfg, limit, longer, k) {
      if k + 1 < |run| {
        assert StepAt(cfg, limit, run, k);
        assert longer[k] == run[k] && longer[k + 1] == run[k + 1];
      } else {
        assert Enabled(cfg, longer[k], step, limit);
      }
    }
  }

  /** The state after processing the next `n` items. */
  function Processed(cfg: Config, s: State, n: nat): (t: State)
    requires s.task.Some? && s.task.value.next + n <= |s.task.value.stream|
    ensures t.task.Some? && t.task.value.stream == s.task.value.stream
    ensures t.task.value.next == s.task.value.next + n
    ensures t.results == s.results && t.uploads == s.uploads && t.remote == s.remote
  {
    if n == 0 then s
    else
      var before := Processed(cfg, s, n - 1);
      ProcessItem(cfg, before, before.task.value, "")
  }

  lemma {:induction false} ExtendProcessed(cfg: Config, limit: nat, run: seq<State>, s: State, n: nat)
    returns (longer: seq<State>)
    requires s.task.Some? && s.task.value.next + n <= |s.task.value.stream| && Ends(cfg, limit, run, s)
    ensures Ends(cfg, limit, longer, Processed(cfg, s, n)) && run <= longer
  {
    if n == 0 {
      longer := run;
    } else {
      var before := Processed(cfg, s, n - 1);
      longer := ExtendProcessed(cfg, limit, run, s, n - 1);
      longer := Extend(cfg, limit, longer, before, Process(""));
      assert Apply(cfg, before, Process(""), limit) == Processed(cfg, s, n);
    }
  }

  lemma {:induction false} ProcessedKeeps(cfg: Config, s: State, n: nat)
    requires s.task.Some? && s.task.value.next + n <= |s.task.value.stream| && cfg.Valid() && Inv(cfg, s)
    ensures Inv(cfg, Processed(cfg, s, n))
  {
    if n > 0 {
      ProcessedKeeps(cfg, s, n - 1);
      ProcessKeeps(cfg, Processed(cfg, s, n - 1), "");
    }
  }

  lemma {:induction false} ProcessedFold(cfg: Config, s: State, n: nat)
    requires s.task.Some? && s.task.value.next + n <= |s.task.value.stream|
    ensures var task, after := s.task.value, Processed(cfg, s, n).task.value;
            Fold(cfg.op, after.counts, after.stream[after.next..]) ==
            Fold(cfg.op, task.counts, task.stream[task.next..])
  {
    if n > 0 {
      ProcessedFold(cfg, s, n - 1);
      FoldStep(cfg, Processed(cfg, s, n - 1), "");
    }
  }

  /** Restarting with one snapshot listed, from its own number, loads just that snapshot. */
  lemma StartFrom(cfg: Config, s: State, snapshot: Snapshot, stream: seq<Item<seq<nat>>>)
    requires snapshot.number > 0 && Locate(cfg.items, snapshot.number).Ok?
    requires Locate(cfg.items, snapshot.number).value.offset <= |cfg.items|
    requires StreamFrom(cfg.items, cfg.n, Locate(cfg.items, snapshot.number).value) == Ok(stream)
    ensures StartTask(cfg, s, [snapshot], snapshot.number) ==
            Some(Task(stream, 0, Restored(cfg.op, snapshot.contents), snapshot.contents))
  {
    LocalFound([snapshot], snapshot.number);
    assert [snapshot][0] == snapshot;
  }

  // ---- A wrong result ----

  /** The state in which the first task has started. */
  function Started(cfg: Config): State {
    State([], [], map[], Some(Task(cfg.Stream(), 0, Initial(cfg.op), map[])), [])
  }

  lemma RunStarted(cfg: Config, limit: nat) returns (run: seq<State>)
    requires cfg.Valid()
    ensures Ends(cfg, limit, run, Started(cfg)) && Inv(cfg, Started(cfg))
  {
    var start := State([], [], map[], None, []);
    run := EmptyRun(cfg, limit);
    StartFresh(cfg);
    run := Extend(cfg, limit, run, start, Restart(0, []));
    assert Apply(cfg, start, Restart(0, []), limit) == Started(cfg);
  }

  lemma LastProcessed(cfg: Config, s: State, n: nat, number: nat)
    requires s.task.Some? && s.task.value.next + n < |s.task.value.stream|
    requires s.task.value.stream[s.task.value.next + n] == Marker(number)
    ensures var t := Processed(cfg, s, n + 1);
            t.snapshots != [] && t.snapshots[|t.snapshots| - 1].number == number
  {
  }

  /** A run from the start up to checkpoint `c`, which then has a right snapshot. */
  lemma FirstTask(cfg: Config, limit: nat, c: nat, p: nat) returns (run: seq<State>, s: State)
    requires cfg.Valid() && p < |cfg.Stream()| && cfg.Stream()[p] == Marker(c)
    ensures Ends(cfg, limit, run, s) && s.results == [] && s.uploads == [] && s.remote == map[]
    ensures s.snapshots != [] && s.snapshots[|s.snapshots| - 1].number == c
    ensures Right(cfg, c, s.snapshots[|s.snapshots| - 1].contents)
  {
    run := RunStarted(cfg, limit);
    s := Processed(cfg, Started(cfg), p + 1);
    run := ExtendProcessed(cfg, limit, run, Started(cfg), p + 1);
    LastProcessed(cfg, Started(cfg), p, c);
    assert SnapshotsRight(cfg, s) by { ProcessedKeeps(cfg, Started(cfg), p + 1); }
    assert Right(cfg, s.snapshots[|s.snapshots| - 1].number, s.snapshots[|s.snapshots| - 1].contents);
  }

  /** A task restarted from that snapshot, up to the first marker: it stores the same contents under number 1. */
  lemma SecondTask(cfg: Config, limit: nat, earlier: seq<State>, s: State, snapshot: Snapshot)
    returns (run: seq<State>, t: State)
    requires cfg.Valid() && cfg.n >= 2 && limit > cfg.m && Ends(cfg, limit, earlier, s) && snapshot in s.snapshots
    requires snapshot.number == cfg.m + 1 && Right(cfg, cfg.m + 1, snapshot.contents)
    ensures Ends(cfg, limit, run, t) && t.results == s.results
    ensures Snapshot(1, "", snapshot.contents) in t.snapshots
  {
    var p, stream := LaterStream(cfg, 1, 1, cfg.m + 1);
    var other := SecondRestart(cfg, 1, 1, cfg.m + 1, snapshot.contents);
    StartFrom(cfg, s, snapshot, stream);
    var step := Restart(cfg.m + 1, [snapshot]);
    run := Extend(cfg, limit, earlier, s, step);
    var running := Apply(cfg, s, step, limit);
    run := Extend(cfg, limit, run, running, Process(""));
    t := Apply(cfg, running, Process(""), limit);
    assert t.snapshots[|s.snapshots|] == Snapshot(1, "", snapshot.contents);
  }

  /** A task restarted from the misplaced snapshot, to the end. */
  lemma ThirdTask(cfg: Config, limit: nat, earlier: seq<State>, s: State, db: Db) returns (run: seq<State>, t: State)
    requires cfg.Valid() && cfg.n >= 2 && limit > cfg.m && Ends(cfg, limit, earlier, s)
    requires Snapshot(1, "", db) in s.snapshots && Right(cfg, cfg.m + 1, db)
    ensures Ends(cfg, limit, run, t)
    ensures t.results == s.results + [Counts(cfg.op, Rows(Iterations(cfg.items, cfg.m, 0, 1)) + Rows(cfg.Stream()))]
  {
    var stream := SecondRestart(cfg, 1, 1, cfg.m + 1, db);
    var snapshot := Snapshot(1, "", db);
    StartFrom(cfg, s, snapshot, stream);
    run := Extend(cfg, limit, earlier, s, Restart(1, [snapshot]));
    var running := Apply(cfg, s, Restart(1, [snapshot]), limit);
    run := ExtendProcessed(cfg, limit, run, running, |stream|);
    ProcessedFold(cfg, running, |stream|);
    var ended := Processed(cfg, running, |stream|);
    assert stream[|stream|..] == [] && stream[0..] == stream;
    run := Extend(cfg, limit, run, ended, Finish);
    t := Apply(cfg, ended, Finish, limit);
  }

  /** With a restart from the second iteration allowed, a run can count the rows of the first iteration twice. */
  lemma CountsTwice(cfg: Config, limit: nat) returns (run: seq<State>)
    requires cfg.Valid() && cfg.n >= 2 && limit > cfg.m
    ensures IsRun(cfg, limit, run)
    ensures run[|run| - 1].results == [Counts(cfg.op, Rows(cfg.items) + Rows(cfg.Stream()))]
  {
    var p, stream := LaterStream(cfg, 1, 1, cfg.m + 1);
    assert cfg.Stream()[p] == Marker(cfg.m + 1);
    var s, t;
    run, s := FirstTask(cfg, limit, cfg.m + 1, p);
    var snapshot := s.snapshots[|s.snapshots| - 1];
    run, t := SecondTask(cfg, limit, run, s, snapshot);
    run, t := ThirdTask(cfg, limit, run, t, snapshot.contents);
    FirstIteration(cfg.items, cfg.m);
  }

  lemma FirstIteration(items: seq<Item<seq<nat>>>, m: nat)
    ensures Rows(Iterations(items, m, 0, 1)) == Rows(items)
  {
    assert Renumber(items, 0) == items;
    assert Iterations(items, m, 1, 1) == [];
    assert items + [] == items;
  }

  /** The condition, in terms of what a caller knows before any run. */
  predicate Harmless(cfg: Config, limit: nat) {
    limit <= cfg.m || cfg.n <= 1 || Rows(cfg.items) == []
  }

  ghost predicate AlwaysRight(cfg: Config, limit: nat) {
    forall run, k | IsRun(cfg, limit, run) && 0 <= k < |run| :: AllRight(cfg, run[k])
  }

  ghost predicate ResultsAlwaysRight(cfg: Config, limit: nat) {
    forall run, k | IsRun(cfg, limit, run) && 0 <= k < |run| :: ResultsRight(cfg, run[k])
  }

  lemma HarmlessRight(cfg: Config, limit: nat, run: seq<State>, k: nat)
    requires cfg.Valid() && Harmless(cfg, limit) && IsRun(cfg, limit, run) && k < |run|
    ensures AllRight(cfg, run[k])
  {
    if Rows(cfg.items) == [] {
      NoRowsOnce(cfg, limit, run, k);
    } else {
      ExactlyOnce(cfg, limit, run, k);
    }
  }

  lemma HarmfulWrong(cfg: Config, limit: nat) returns (run: seq<State>)
    requires cfg.Valid() && !Harmless(cfg, limit)
    ensures IsRun(cfg, limit, run) && !ResultsRight(cfg, run[|run| - 1])
  {
    run := CountsTwice(cfg, limit);
    CountsSwap(cfg.op, Rows(cfg.items), Rows(cfg.Stream()));
    CountsGrow(cfg.op, Rows(cfg.Stream()), Rows(cfg.items));
    assert run[|run| - 1].results[0] != Counts(cfg.op, Rows(cfg.Stream()));
  }

  /**
   Exactly once, exactly. In all states of all runs the snapshots, uploads and results are right, and already all
   results are right, if and only if restarts stay in the first iteration, or there is a single one, or no rows.
   */
  lemma ExactlyOnceExactly(cfg: Config, limit: nat)
    requires cfg.Valid()
    ensures AlwaysRight(cfg, limit) <==> Harmless(cfg, limit)
    ensures ResultsAlwaysRight(cfg, limit) <==> Harmless(cfg, limit)
  {
    if Harmless(cfg, limit) {
      forall run, k | IsRun(cfg, limit, run) && 0 <= k < |run| ensures AllRight(cfg, run[k]) {
        HarmlessRight(cfg, limit, run, k);
      }
    } else {
      var run := HarmfulWrong(cfg, limit);
      assert IsRun(cfg, limit, run) && 0 <= |run| - 1 < |run|;
    }
  }

  /** One row and one marker, two iterations, restarts from 2 and then from 1: three rows are counted instead of two. */
  lemma WrongResult(cfg: Config) returns (run: seq<State>)
    requires cfg.items == [Batch([7]), Marker(1)] && cfg.m == 1 && cfg.n == 2
    ensures IsRun(cfg, 2, run) && run[|run| - 1].results == [Counts(cfg.op, [7, 7, 7])]
    ensures Counts(cfg.op, Rows(cfg.Stream())) == Counts(cfg.op, [7, 7])
    ensures !ResultsRight(cfg, run[|run| - 1])
  {
    assert cfg.items[1] == Marker(1);
    run := CountsTwice(cfg, 2);
    ExampleRows(cfg);
    var last := run[|run| - 1];
    CountsGrow(cfg.op, [7, 7], [7]);
    assert [7] + [7, 7] == [7, 7, 7] && [7, 7] + [7] == [7, 7, 7];
    assert last.results[0] != Counts(cfg.op, Rows(cfg.Stream()));
  }

  lemma ExampleRows(cfg: Config)
    requires cfg.items == [Batch([7]), Marker(1)] && cfg.m == 1 && cfg.n == 2
    ensures Rows(cfg.items) == [7] && Rows(cfg.Stream()) == [7, 7]
  {
    var items := cfg.items;
    var rest: seq<Item<seq<nat>>> := items[1..];
    assert rest == [Marker(1)] && rest[1..] == [];
    assert Batches(rest) == Batches(rest[1..]) == [];
    assert Batches(items) == [[7]] + Batches(rest);
    assert [[7]] + [] == [[7]];
    assert Flatten([[7]]) == [7] + Flatten<nat>([]);
    assert Iterations(items, 1, 2, 2) == [];
    assert Iterations(items, 1, 1, 2) == Renumber(items, 1) + [];
    RenumberRows(items, 1);
    assert Renumber(items, 1) + [] == Renumber(items, 1);
    RowsAppend(items, Renumber(items, 1));
  }

  // ---- Restarting from remote storage ----

  /** An uploaded checkpoint can always be restarted from on a machine that has no snapshots of its own. */
  ghost predicate RemoteRestarts(cfg: Config, limit: nat) {
    forall run: seq<State>, k: nat, checkpoint: nat |
      IsRun(cfg, limit, run) && k < |run| && checkpoint <= limit && !NoUpload(run[k].uploads, checkpoint) ::
      StartTask(cfg, run[k], [], checkpoint).Some?
  }

  /** A run that uploads checkpoint 1. */
  lemma UploadedRun(cfg: Config, limit: nat) returns (run: seq<State>)
    requires cfg.Valid()
    ensures IsRun(cfg, limit, run) && run[|run| - 1].uploads == [Uploaded(1, "a")]
  {
    var p, stream := LaterStream(cfg, 0, 1, 1);
    var s;
    run, s := FirstTask(cfg, limit, 1, p);
    assert cfg.Stream()[p] == Marker(1);
    run := Extend(cfg, limit, run, s, Upload(|s.snapshots| - 1, "a"));
  }

  /** Exactly if the partition range is neither empty nor without partitions. */
  lemma RemoteRestartsExactly(cfg: Config, limit: nat)
    requires cfg.Valid() && limit > 0
    ensures RemoteRestarts(cfg, limit) <==> cfg.range.Proper()
  {
    if cfg.range.Proper() {
      forall run: seq<State>, k: nat, checkpoint: nat |
        IsRun(cfg, limit, run) && k < |run| && checkpoint <= limit && !NoUpload(run[k].uploads, checkpoint)
        ensures StartTask(cfg, run[k], [], checkpoint).Some?
      {
        RunStored(cfg, limit, run, k);
        StartSucceeds(cfg, run[k], [], checkpoint);
      }
    } else {
      var run := UploadedRun(cfg, limit);
      var last := run[|run| - 1];
      RunStored(cfg, limit, run, |run| - 1);
      StartSucceeds(cfg, last, [], 1);
      assert last.uploads[0].number == 1;
    }
  }

  /** The empty range: checkpoint 1 was uploaded, yet restarting from it where nothing is listed starts no task. */
  lemma EmptyRangeStrands(cfg: Config) returns (run: seq<State>)
    requires cfg.items == [Batch([7]), Marker(1)] && cfg.m == 1 && cfg.range == PartitionRange(0, 0, 0)
    ensures IsRun(cfg, 1, run) && |run| > 1
    ensures run[|run| - 2].uploads == [Uploaded(1, "a")] && Enabled(cfg, run[|run| - 2], Restart(1, []), 1)
    ensures run[|run| - 1] == Apply(cfg, run[|run| - 2], Restart(1, []), 1) && run[|run| - 1].task == None
  {
    assert cfg.items[1] == Marker(1);
    run := UploadedRun(cfg, 1);
    var last := run[|run| - 1];
    RunStored(cfg, 1, run, |run| - 1);
    StartSucceeds(cfg, last, [], 1);
    run := Extend(cfg, 1, run, last, Restart(1, []));
  }

  /** A fresh task that processes its whole stream ends with the counts of all rows. */
  lemma FreshCounts(cfg: Config, started: State, stream: seq<Item<seq<nat>>>)
    requires started.task == Some(Task(stream, 0, Initial(cfg.op), map[]))
    ensures Processed(cfg, started, |stream|).task.value.counts == Counts(cfg.op, Rows(stream))
  {
    ProcessedFold(cfg, started, |stream|);
    InitialCounts(cfg.op);
    FoldCounts(cfg.op, [], stream);
    assert stream[0..] == stream && stream[|stream|..] == [] && [] + Rows(stream) == Rows(stream);
  }

  lemma RestartFresh(cfg: Config, limit: nat, run: seq<State>, s: State) returns (longer: seq<State>)
    requires cfg.Valid() && Ends(cfg, limit, run, s)
    ensures run <= longer
    ensures Ends(cfg, limit, longer, s.(task := Some(Task(cfg.Stream(), 0, Initial(cfg.op), map[]))))
  {
    StartFresh(cfg);
    longer := Extend(cfg, limit, run, s, Restart(0, []));
  }

  lemma FinishRun(cfg: Config, limit: nat, run: seq<State>, s: State, counts: Db) returns (longer: seq<State>)
    requires Ends(cfg, limit, run, s) && Enabled(cfg, s, Finish, limit) && s.task.value.counts == counts
    ensures run <= longer && Ends(cfg, limit, longer, s.(task := None, results := s.results + [counts]))
  {
    longer := Extend(cfg, limit, run, s, Finish);
  }

  /** Every run can be continued to a right result, whatever it has restarted from and stored before. */
  lemma ResultCanFollow(cfg: Config, limit: nat, run: seq<State>) returns (longer: seq<State>)
    requires cfg.Valid() && IsRun(cfg, limit, run)
    ensures run <= longer && IsRun(cfg, limit, longer)
    ensures longer[|longer| - 1].results == run[|run| - 1].results + [Counts(cfg.op, Rows(cfg.Stream()))]
  {
    var s, stream := run[|run| - 1], cfg.Stream();
    var started := s.(task := Some(Task(stream, 0, Initial(cfg.op), map[])));
    var again := RestartFresh(cfg, limit, run, s);
    var processed := ExtendProcessed(cfg, limit, again, started, |stream|);
    FreshCounts(cfg, started, stream);
    longer := FinishRun(cfg, limit, processed, Processed(cfg, started, |stream|), Counts(cfg.op, Rows(stream)));
  }
}
