/**
 Recovery of a source and a counting operator: any sequence of partial runs and restarts of fresh tasks, with snapshots
 taken at every marker, kept locally and uploaded in any order.
 */
module Recovery {
  import opened Wrappers
  import opened Arithmetic
  import opened Streams
  import opened Partitioning
  import opened Source
  import opened StateBackend
  import opened Catalogue
  import opened Counting

  /** The items of the source with markers 1..m, the number of iterations, the operator and its partition range. */
  datatype Config = Config(items: seq<Item<seq<nat>>>, m: nat, n: nat, op: Operator, range: PartitionRange) {
    ghost predicate Valid() {
      WellMarked(items, m)
    }

    /** What the source emits in a run without restarts. */
    function Stream(): seq<Item<seq<nat>>> {
      Whole(items, m, n)
    }
  }

  datatype Snapshot = Snapshot(number: nat, uuid: string, contents: Db)

  datatype Uploaded = Uploaded(number: nat, dir: string)

  /** A running task: the stream of its source, how much of it was processed, and the operator's state. */
  datatype Task = Task(stream: seq<Item<seq<nat>>>, next: nat, counts: Db, db: Db)

  /** All snapshots ever taken, the completed uploads, a task if one runs, and the results emitted so far. */
  datatype State = State(snapshots: seq<Snapshot>, uploads: seq<Uploaded>, remote: map<string, Db>,
                         task: Option<Task>, results: seq<Db>)

  datatype Step =
    | Restart(checkpoint: nat, listing: seq<Snapshot>)
    | Process(uuid: string)
    | Upload(which: nat, dir: string)
    | Finish

  function Dirs(listing: seq<Snapshot>): seq<Dir> {
    seq(|listing|, i requires 0 <= i < |listing| =>
      Dir(DirName(listing[i].number, listing[i].uuid), listing[i].contents))
  }

  function LogOf(uploads: seq<Uploaded>, range: PartitionRange): seq<Completion> {
    seq(|uploads|, i requires 0 <= i < |uploads| =>
      Completion(Decimal(uploads[i].number), PartitionInfo(range, uploads[i].dir)))
  }

  function Find(cfg: Config, s: State, listing: seq<Snapshot>, checkpoint: nat): Finding {
    FindCheckpoint(Dirs(listing), Build(LogOf(s.uploads, cfg.range)), s.remote, cfg.range, checkpoint)
  }

  /** A fresh source and a fresh operator load a checkpoint, or no task starts. */
  function StartTask(cfg: Config, s: State, listing: seq<Snapshot>, checkpoint: nat): Option<Task> {
    match Locate(cfg.items, checkpoint)
    case Err(_) => None
    case Ok(at) =>
      if at.offset > |cfg.items| then None
      else match StreamFrom(cfg.items, cfg.n, at)
        case Err(_) => None
        case Ok(stream) =>
          if checkpoint == 0 then Some(Task(stream, 0, Initial(cfg.op), map[]))
          else match Find(cfg, s, listing, checkpoint)
            case Contents(db) => Some(Task(stream, 0, Restored(cfg.op, db), db))
            case _ => None
  }

  function ProcessItem(cfg: Config, s: State, task: Task, uuid: string): State
    requires task.next < |task.stream|
  {
    match task.stream[task.next]
    case Batch(rows) => s.(task := Some(task.(next := task.next + 1, counts := Updated(cfg.op, task.counts, rows))))
    case Marker(number) =>
      var db := task.db + task.counts;
      s.(task := Some(task.(next := task.next + 1, db := db)),
         snapshots := s.snapshots + [Snapshot(number, uuid, db)])
  }

  /** Restarts are from any checkpoint up to `limit`, on a machine that lists any of the snapshots in any order. */
  ghost predicate Enabled(cfg: Config, s: State, step: Step, limit: nat) {
    match step
    case Restart(checkpoint, listing) =>
      checkpoint <= limit && forall i | 0 <= i < |listing| :: listing[i] in s.snapshots
    case Process(_) => s.task.Some? && s.task.value.next < |s.task.value.stream|
    case Upload(which, dir) => which < |s.snapshots| && dir !in s.remote
    case Finish => s.task.Some? && s.task.value.next == |s.task.value.stream|
  }

  ghost function Apply(cfg: Config, s: State, step: Step, limit: nat): State
    requires Enabled(cfg, s, step, limit)
  {
    match step
    case Restart(checkpoint, listing) => s.(task := StartTask(cfg, s, listing, checkpoint))
    case Process(uuid) => ProcessItem(cfg, s, s.task.value, uuid)
    case Upload(which, dir) =>
      var snapshot := s.snapshots[which];
      s.(uploads := s.uploads + [Uploaded(snapshot.number, dir)], remote := s.remote[dir := snapshot.contents])
    case Finish => s.(task := None, results := s.results + [s.task.value.counts])
  }

  ghost predicate StepAt(cfg: Config, limit: nat, run: seq<State>, k: nat)
    requires k + 1 < |run|
  {
    exists step :: Enabled(cfg, run[k], step, limit) && run[k + 1] == Apply(cfg, run[k], step, limit)
  }

  ghost predicate IsRun(cfg: Config, limit: nat, run: seq<State>) {
    && |run| > 0
    && run[0] == State([], [], map[], None, [])
    && forall k: nat | k + 1 < |run| :: StepAt(cfg, limit, run, k)
  }

  // ---- The reference ----

  /** The counts of everything in the stream before the marker. */
  ghost predicate RightIn(op: Operator, whole: seq<Item<seq<nat>>>, number: nat, contents: Db) {
    && FindMarker(whole, number).Some?
    && contents == Counts(op, Rows(whole[..FindMarker(whole, number).value]))
  }

  ghost predicate Right(cfg: Config, number: nat, contents: Db) {
    RightIn(cfg.op, cfg.Stream(), number, contents)
  }

  ghost predicate SnapshotsRight(cfg: Config, s: State) {
    forall i | 0 <= i < |s.snapshots| :: Right(cfg, s.snapshots[i].number, s.snapshots[i].contents)
  }

  ghost predicate UploadsRight(cfg: Config, s: State) {
    forall i | 0 <= i < |s.uploads| ::
      s.uploads[i].dir in s.remote && Right(cfg, s.uploads[i].number, s.remote[s.uploads[i].dir])
  }

  /** A task's stream is a tail of the whole stream, and its counts are those of everything before it. */
  ghost predicate TaskIn(op: Operator, whole: seq<Item<seq<nat>>>, task: Task) {
    && task.next <= |task.stream| <= |whole|
    && task.stream == whole[|whole| - |task.stream|..]
    && task.counts == Counts(op, Rows(whole[..|whole| - |task.stream| + task.next]))
    && task.db.Keys <= task.counts.Keys
  }

  ghost predicate TaskRight(cfg: Config, task: Task) {
    TaskIn(cfg.op, cfg.Stream(), task)
  }

  ghost predicate ResultsRight(cfg: Config, s: State) {
    forall i | 0 <= i < |s.results| :: s.results[i] == Counts(cfg.op, Rows(cfg.Stream()))
  }

  ghost predicate Inv(cfg: Config, s: State) {
    && SnapshotsRight(cfg, s)
    && UploadsRight(cfg, s)
    && ResultsRight(cfg, s)
    && (s.task.Some? ==> TaskRight(cfg, s.task.value))
  }

  // ---- Finding a snapshot again ----

  ghost predicate Listed(listing: seq<Snapshot>, number: nat, contents: Db) {
    exists i | 0 <= i < |listing| :: listing[i].number == number && listing[i].contents == contents
  }

  ghost predicate ListsNone(listing: seq<Snapshot>, number: nat) {
    forall i | 0 <= i < |listing| :: listing[i].number != number
  }

  lemma {:induction false} LocalFound(listing: seq<Snapshot>, number: nat)
    ensures match FindLocal(Dirs(listing), number)
            case None => ListsNone(listing, number)
            case Some(db) => Listed(listing, number, db)
  {
    if listing != [] {
      var head := listing[0];
      NamesExactly(number, head.number, head.uuid, head.contents);
      assert Dirs(listing)[1..] == Dirs(listing[1..]);
      LocalFound(listing[1..], number);
      assert listing == [head] + listing[1..];
      var found := FindLocal(Dirs(listing[1..]), number);
      if head.number != number && found.Some? {
        var i :| 0 <= i < |listing[1..]| && listing[1..][i].number == number && listing[1..][i].contents == found.value;
        assert listing[i + 1].number == number;
      }
    }
  }

  ghost predicate UploadedAs(uploads: seq<Uploaded>, number: nat, dir: string) {
    exists i | 0 <= i < |uploads| :: uploads[i] == Uploaded(number, dir)
  }

  ghost predicate NoUpload(uploads: seq<Uploaded>, number: nat) {
    forall i | 0 <= i < |uploads| :: uploads[i].number != number
  }

  ghost predicate FromUploads(infos: seq<PartitionInfo>, uploads: seq<Uploaded>, range: PartitionRange, number: nat) {
    forall k | 0 <= k < |infos| :: infos[k].range == range && UploadedAs(uploads, number, infos[k].dir)
  }

  lemma UploadedMore(uploads: seq<Uploaded>, last: Uploaded, number: nat, dir: string)
    requires UploadedAs(uploads, number, dir) || last == Uploaded(number, dir)
    ensures UploadedAs(uploads + [last], number, dir)
  {
    if last == Uploaded(number, dir) {
      assert (uploads + [last])[|uploads|] == last;
    } else {
      var i :| 0 <= i < |uploads| && uploads[i] == Uploaded(number, dir);
      assert (uploads + [last])[i] == uploads[i];
    }
  }

  /** The parts completed under a number are the uploads of that number, all with the one range. */
  lemma {:induction false} CompletedUploads(uploads: seq<Uploaded>, range: PartitionRange, number: nat)
    ensures FromUploads(Completed(LogOf(uploads, range), Decimal(number)), uploads, range, number)
    ensures Completed(LogOf(uploads, range), Decimal(number)) == [] <==> NoUpload(uploads, number)
  {
    if uploads != [] {
      var before, last := uploads[..|uploads| - 1], uploads[|uploads| - 1];
      CompletedUploads(before, range, number);
      assert LogOf(uploads, range)[..|uploads| - 1] == LogOf(before, range);
      assert uploads == before + [last];
      if Decimal(last.number) == Decimal(number) { DecimalInjective(last.number, number); }
      var infos := Completed(LogOf(uploads, range), Decimal(number));
      forall k | 0 <= k < |infos| ensures infos[k].range == range && UploadedAs(uploads, number, infos[k].dir) {
        UploadedMore(before, last, number, infos[k].dir);
      }
    }
  }

  /** Every completed upload has its directory. */
  ghost predicate UploadsStored(s: State) {
    forall i | 0 <= i < |s.uploads| :: s.uploads[i].dir in s.remote
  }

  ghost predicate UploadedContents(s: State, number: nat, db: Db) {
    exists i | 0 <= i < |s.uploads| ::
      s.uploads[i].number == number && s.uploads[i].dir in s.remote && s.remote[s.uploads[i].dir] == db
  }

  lemma RemoteFound(cfg: Config, s: State, number: nat)
    requires UploadsStored(s)
    ensures match FindRemote(Build(LogOf(s.uploads, cfg.range)), s.remote, cfg.range, number)
            case Contents(db) => cfg.range.Proper() && UploadedContents(s, number, db)
            case NotAvailable => NoUpload(s.uploads, number)
            case Panics => !cfg.range.Proper() && !NoUpload(s.uploads, number)
            case Several => false
  {
    var log := LogOf(s.uploads, cfg.range);
    var infos := Completed(log, Decimal(number));
    CompletedUploads(s.uploads, cfg.range, number);
    LookupExact(log, cfg.range, Decimal(number));
    if infos != [] && cfg.range.Proper() {
      OneRangeFound(infos, cfg.range);
      assert UploadedAs(s.uploads, number, infos[0].dir);
    } else if infos != [] {
      ImproperPanics(infos, cfg.range);
    }
  }

  /**
   What a lookup finds, for any partition range: a listed snapshot first, then an upload. It never has to merge parts.
   It panics exactly if the snapshot was only uploaded and the range is empty or has no partitions.
   */
  lemma FindKind(cfg: Config, s: State, listing: seq<Snapshot>, number: nat)
    requires UploadsStored(s)
    ensures match Find(cfg, s, listing, number)
            case Contents(db) =>
              if ListsNone(listing, number) then cfg.range.Proper() && UploadedContents(s, number, db)
              else Listed(listing, number, db)
            case NotAvailable => ListsNone(listing, number) && NoUpload(s.uploads, number)
            case Panics => !cfg.range.Proper() && ListsNone(listing, number) && !NoUpload(s.uploads, number)
            case Several => false
  {
    LocalFound(listing, number);
    if FindLocal(Dirs(listing), number).None? { RemoteFound(cfg, s, number); }
  }

  /** Among right snapshots a lookup finds a right one, or there is none to find, or it panics. */
  lemma FindExact(cfg: Config, s: State, listing: seq<Snapshot>, number: nat)
    requires UploadsRight(cfg, s)
    requires forall i | 0 <= i < |listing| :: Right(cfg, listing[i].number, listing[i].contents)
    ensures match Find(cfg, s, listing, number)
            case Contents(db) => Right(cfg, number, db)
            case NotAvailable => ListsNone(listing, number) && NoUpload(s.uploads, number)
            case Panics => !cfg.range.Proper() && ListsNone(listing, number) && !NoUpload(s.uploads, number)
            case Several => false
  {
    FindKind(cfg, s, listing, number);
  }

  // ---- Every step keeps the invariant ----

  lemma MarkerPosition(cfg: Config, p: nat, number: nat)
    requires cfg.Valid() && p < |cfg.Stream()| && cfg.Stream()[p] == Marker(number)
    ensures FindMarker(cfg.Stream(), number) == Some(p)
  {
    FindMarkerIs(cfg.Stream(), number);
    var q := FindMarker(cfg.Stream(), number).value;
    if q < p { WholeDistinct(cfg.items, cfg.m, cfg.n, q, p); }
  }

  lemma BatchIn(op: Operator, whole: seq<Item<seq<nat>>>, task: Task)
    requires TaskIn(op, whole, task) && task.next < |task.stream| && task.stream[task.next].Batch?
    ensures TaskIn(op, whole, task.(next := task.next + 1,
                                    counts := Updated(op, task.counts, task.stream[task.next].batch)))
  {
    CountNext(op, whole, |whole| - |task.stream| + task.next);
    UpdatedKeys(op, task.counts, task.stream[task.next].batch);
  }

  lemma CountNext(op: Operator, s: seq<Item<seq<nat>>>, q: nat)
    requires q < |s| && s[q].Batch?
    ensures Updated(op, Counts(op, Rows(s[..q])), s[q].batch) == Counts(op, Rows(s[..q + 1]))
  {
    RowsNext(s, q);
    UpdatedCounts(op, Rows(s[..q]), s[q].batch);
  }

  lemma MarkerIn(op: Operator, whole: seq<Item<seq<nat>>>, task: Task)
    requires TaskIn(op, whole, task) && task.next < |task.stream| && task.stream[task.next].Marker?
    ensures task.db + task.counts == Counts(op, Rows(whole[..|whole| - |task.stream| + task.next]))
    ensures TaskIn(op, whole, task.(next := task.next + 1, db := task.db + task.counts))
  {
    var q := |whole| - |task.stream| + task.next;
    RowsAtMarker(whole, q);
    Overwritten(task.db, task.counts);
  }

  lemma RowsAtMarker(s: seq<Item<seq<nat>>>, q: nat)
    requires q < |s| && s[q].Marker?
    ensures Rows(s[..q + 1]) == Rows(s[..q])
  {
    RowsNext(s, q);
  }

  lemma SnapshotAdded(cfg: Config, s: State, t: State, snapshot: Snapshot)
    requires SnapshotsRight(cfg, s) && t.snapshots == s.snapshots + [snapshot]
    requires Right(cfg, snapshot.number, snapshot.contents)
    ensures SnapshotsRight(cfg, t)
  {
  }

  lemma ProcessMarker(cfg: Config, s: State, uuid: string)
    requires cfg.Valid() && Inv(cfg, s) && s.task.Some? && s.task.value.next < |s.task.value.stream|
    requires s.task.value.stream[s.task.value.next].Marker?
    ensures SnapshotsRight(cfg, ProcessItem(cfg, s, s.task.value, uuid))
    ensures TaskRight(cfg, ProcessItem(cfg, s, s.task.value, uuid).task.value)
  {
    var task, whole := s.task.value, cfg.Stream();
    var number := task.stream[task.next].number;
    MarkerIn(cfg.op, whole, task);
    MarkerPosition(cfg, |whole| - |task.stream| + task.next, number);
    SnapshotAdded(cfg, s, ProcessItem(cfg, s, task, uuid), Snapshot(number, uuid, task.db + task.counts));
  }

  lemma ProcessKeeps(cfg: Config, s: State, uuid: string)
    requires cfg.Valid() && Inv(cfg, s) && s.task.Some? && s.task.value.next < |s.task.value.stream|
    ensures Inv(cfg, ProcessItem(cfg, s, s.task.value, uuid))
  {
    var task := s.task.value;
    if task.stream[task.next].Batch? {
      BatchIn(cfg.op, cfg.Stream(), task);
    } else {
      ProcessMarker(cfg, s, uuid);
    }
  }

  lemma RestoredCounts(op: Operator, rows: seq<nat>)
    ensures Restored(op, Counts(op, rows)) == Counts(op, rows)
    ensures Restored(op, map[]) == Initial(op)
  {
  }

  lemma RestoredIn(op: Operator, whole: seq<Item<seq<nat>>>, p: nat, stream: seq<Item<seq<nat>>>, db: Db)
    requires p <= |whole| && stream == whole[p..] && db == Counts(op, Rows(whole[..p]))
    ensures TaskIn(op, whole, Task(stream, 0, Restored(op, db), db))
  {
    RestoredCounts(op, Rows(whole[..p]));
  }

  lemma StartKeeps(cfg: Config, s: State, listing: seq<Snapshot>, checkpoint: nat)
    requires cfg.Valid() && SnapshotsRight(cfg, s) && UploadsRight(cfg, s) && checkpoint <= cfg.m
    requires forall i | 0 <= i < |listing| :: listing[i] in s.snapshots
    ensures var task := StartTask(cfg, s, listing, checkpoint); task.Some? ==> TaskRight(cfg, task.value)
  {
    if checkpoint == 0 {
      StartFresh(cfg);
    } else if StartTask(cfg, s, listing, checkpoint).Some? {
      var p := ReplayExact(cfg.items, cfg.m, cfg.n, 0, checkpoint, checkpoint);
      MarkerPosition(cfg, p, checkpoint);
      FindExact(cfg, s, listing, checkpoint);
      var task := StartTask(cfg, s, listing, checkpoint).value;
      RestoredIn(cfg.op, cfg.Stream(), p, task.stream, task.db);
    }
  }

  lemma StartFresh(cfg: Config)
    requires cfg.Valid()
    ensures StreamFrom(cfg.items, cfg.n, Position(0, 0)) == Ok(cfg.Stream())
    ensures TaskRight(cfg, Task(cfg.Stream(), 0, Initial(cfg.op), map[]))
  {
    WellMarkedMax(cfg.items, cfg.m);
    InitialCounts(cfg.op);
    var whole := cfg.Stream();
    assert cfg.items[0..] == cfg.items;
    assert whole[|whole| - |whole|..] == whole && whole[..0] == [];
  }

  lemma StreamExists(cfg: Config, checkpoint: nat)
    requires cfg.Valid()
    ensures Locate(cfg.items, checkpoint).Ok? && Locate(cfg.items, checkpoint).value.offset <= |cfg.items|
    ensures StreamFrom(cfg.items, cfg.n, Locate(cfg.items, checkpoint).value).Ok?
  {
    WellMarkedMax(cfg.items, cfg.m);
    if checkpoint > 0 {
      var k, j := (checkpoint - 1) / cfg.m, 1 + (checkpoint - 1) % cfg.m;
      DivDef(checkpoint - 1, cfg.m);
      LoadInverts(cfg.items, cfg.m, k, j);
    }
  }

  /**
   A restart starts a task if and only if the checkpoint is 0, or it is listed locally, or it was uploaded and the
   partition range is neither empty nor without partitions.
   */
  lemma StartSucceeds(cfg: Config, s: State, listing: seq<Snapshot>, checkpoint: nat)
    requires cfg.Valid() && UploadsStored(s)
    ensures StartTask(cfg, s, listing, checkpoint).Some? <==>
            || checkpoint == 0
            || !ListsNone(listing, checkpoint)
            || (!NoUpload(s.uploads, checkpoint) && cfg.range.Proper())
  {
    StreamExists(cfg, checkpoint);
    FindKind(cfg, s, listing, checkpoint);
    if ListsNone(listing, checkpoint) && NoUpload(s.uploads, checkpoint) {
      NothingToFind(cfg, s, listing, checkpoint);
    }
  }

  lemma NothingToFind(cfg: Config, s: State, listing: seq<Snapshot>, number: nat)
    requires ListsNone(listing, number) && NoUpload(s.uploads, number)
    ensures Find(cfg, s, listing, number) == NotAvailable
  {
    LocalFound(listing, number);
    CompletedUploads(s.uploads, cfg.range, number);
    LookupExact(LogOf(s.uploads, cfg.range), cfg.range, Decimal(number));
  }

  /** Uploads keep their directories in every run, whatever it restarts from. */
  lemma {:induction false} RunStored(cfg: Config, limit: nat, run: seq<State>, k: nat)
    requires IsRun(cfg, limit, run) && k < |run|
    ensures UploadsStored(run[k])
  {
    if k > 0 {
      RunStored(cfg, limit, run, k - 1);
      assert StepAt(cfg, limit, run, k - 1);
    }
  }

  lemma UploadKeeps(cfg: Config, s: State, which: nat, dir: string, limit: nat)
    requires Inv(cfg, s) && Enabled(cfg, s, Upload(which, dir), limit)
    ensures Inv(cfg, Apply(cfg, s, Upload(which, dir), limit))
  {
  }

  lemma FinishKeeps(cfg: Config, s: State, limit: nat)
    requires Inv(cfg, s) && Enabled(cfg, s, Finish, limit)
    ensures Inv(cfg, Apply(cfg, s, Finish, limit))
  {
    assert cfg.Stream()[..|cfg.Stream()|] == cfg.Stream();
  }

  /** With a single iteration there is no later checkpoint to restart from. */
  lemma StartNever(cfg: Config, s: State, listing: seq<Snapshot>, checkpoint: nat)
    requires cfg.Valid() && SnapshotsRight(cfg, s) && UploadsRight(cfg, s) && cfg.n <= 1 && checkpoint > cfg.m
    requires forall i | 0 <= i < |listing| :: listing[i] in s.snapshots
    ensures StartTask(cfg, s, listing, checkpoint).None?
  {
    assert cfg.Stream() == cfg.items;
    FindExact(cfg, s, listing, checkpoint);
  }

  /**
   Exactly once. Restart fresh tasks at any moments from checkpoints of the first iteration, or from any checkpoint of a
   source with a single iteration. In every reachable state every snapshot and every completed upload under number `c`
   holds the counts of everything the source emits before marker `c`, and every result equals the result of a run
   without restarts.
   */
  lemma {:induction false} ExactlyOnce(cfg: Config, limit: nat, run: seq<State>, k: nat)
    requires cfg.Valid() && (limit <= cfg.m || cfg.n <= 1) && IsRun(cfg, limit, run) && k < |run|
    ensures Inv(cfg, run[k])
  {
    if k > 0 {
      ExactlyOnce(cfg, limit, run, k - 1);
      assert StepAt(cfg, limit, run, k - 1);
      var s := run[k - 1];
      var step :| Enabled(cfg, s, step, limit) && run[k] == Apply(cfg, s, step, limit);
      match step
      case Restart(checkpoint, listing) =>
        if checkpoint <= cfg.m {
          StartKeeps(cfg, s, listing, checkpoint);
        } else {
          StartNever(cfg, s, listing, checkpoint);
        }
      case Process(uuid) => ProcessKeeps(cfg, s, uuid);
      case Upload(which, dir) => UploadKeeps(cfg, s, which, dir, limit);
      case Finish => FinishKeeps(cfg, s, limit);
    }
  }

  // ---- Checkpoints are kept ----

  ghost predicate HasSnapshot(snapshots: seq<Snapshot>, number: nat) {
    exists i | 0 <= i < |snapshots| :: snapshots[i].number == number
  }

  /** Every marker the running task has passed has a snapshot under its number. */
  ghost predicate PassedKept(s: State) {
    s.task.Some? ==>
      forall p | 0 <= p < s.task.value.next && p < |s.task.value.stream| && s.task.value.stream[p].Marker? ::
        HasSnapshot(s.snapshots, s.task.value.stream[p].number)
  }

  lemma SnapshotMore(before: seq<Snapshot>, after: seq<Snapshot>, number: nat)
    requires HasSnapshot(before, number) && before <= after
    ensures HasSnapshot(after, number)
  {
    var i :| 0 <= i < |before| && before[i].number == number;
    assert after[i] == before[i];
  }

  lemma StepKept(cfg: Config, s: State, step: Step, limit: nat)
    requires PassedKept(s) && Enabled(cfg, s, step, limit)
    ensures PassedKept(Apply(cfg, s, step, limit)) && s.snapshots <= Apply(cfg, s, step, limit).snapshots
  {
    var t := Apply(cfg, s, step, limit);
    if step.Process? {
      var task, after := s.task.value, t.task.value;
      forall p | 0 <= p < after.next && p < |after.stream| && after.stream[p].Marker?
        ensures HasSnapshot(t.snapshots, after.stream[p].number)
      {
        if p < task.next {
          SnapshotMore(s.snapshots, t.snapshots, after.stream[p].number);
        } else {
          assert t.snapshots[|t.snapshots| - 1].number == after.stream[p].number;
        }
      }
    }
  }

  lemma {:induction false} RunKept(cfg: Config, limit: nat, run: seq<State>, j: nat, k: nat)
    requires IsRun(cfg, limit, run) && j <= k < |run|
    ensures PassedKept(run[k]) && run[j].snapshots <= run[k].snapshots
    decreases k
  {
    if k > 0 {
      RunKept(cfg, limit, run, if j < k then j else 0, k - 1);
      assert StepAt(cfg, limit, run, k - 1);
      var step :| Enabled(cfg, run[k - 1], step, limit) && run[k] == Apply(cfg, run[k - 1], step, limit);
      StepKept(cfg, run[k - 1], step, limit);
    }
  }

  /**
   In every run, once a task has passed a marker, a fresh task can be started from that checkpoint for good, on any
   machine that lists the snapshots taken so far.
   */
  lemma PassedCanRestart(cfg: Config, limit: nat, run: seq<State>, j: nat, k: nat, p: nat)
    requires cfg.Valid() && IsRun(cfg, limit, run) && j <= k < |run|
    requires run[j].task.Some? && p < run[j].task.value.next && p < |run[j].task.value.stream|
    requires run[j].task.value.stream[p].Marker?
    ensures StartTask(cfg, run[k], run[k].snapshots, run[j].task.value.stream[p].number).Some?
  {
    var number := run[j].task.value.stream[p].number;
    RunKept(cfg, limit, run, j, j);
    RunKept(cfg, limit, run, j, k);
    SnapshotMore(run[j].snapshots, run[k].snapshots, number);
    RunStored(cfg, limit, run, k);
    StartSucceeds(cfg, run[k], run[k].snapshots, number);
  }

  /** A task that has just started. */
  ghost predicate Begun(s: State) {
    s.task.Some? && s.task.value.next == 0
  }

  ghost predicate BegunIn(run: seq<State>, from: nat, to: nat) {
    exists i | from <= i <= to && i < |run| :: Begun(run[i])
  }

  lemma {:induction false} IdleUntilBegun(cfg: Config, limit: nat, run: seq<State>, j: nat, k: nat)
    requires IsRun(cfg, limit, run) && j <= k < |run| && run[j].task.None?
    ensures run[k].task.None? || BegunIn(run, j, k)
    decreases k
  {
    if k > j {
      IdleUntilBegun(cfg, limit, run, j, k - 1);
      assert StepAt(cfg, limit, run, k - 1);
      if BegunIn(run, j, k - 1) {
        var i :| j <= i <= k - 1 && i < |run| && Begun(run[i]);
        assert BegunIn(run, j, k);
      } else if run[k].task.Some? {
        assert Begun(run[k]);
      }
    }
  }

  /** In every run a result is the counts of a task that has processed its whole stream, and each task gives one. */
  lemma ResultOnce(cfg: Config, limit: nat, run: seq<State>, j: nat, k: nat)
    requires IsRun(cfg, limit, run) && j < k && k + 1 < |run|
    requires run[j + 1].results != run[j].results && run[k + 1].results != run[k].results
    ensures run[j].task.Some? && run[j].task.value.next == |run[j].task.value.stream|
    ensures run[j + 1].results == run[j].results + [run[j].task.value.counts]
    ensures BegunIn(run, j + 1, k)
  {
    assert StepAt(cfg, limit, run, j) && StepAt(cfg, limit, run, k);
    IdleUntilBegun(cfg, limit, run, j + 1, k);
  }
}
