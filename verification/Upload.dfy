/**
 Uploading snapshots to remote storage so that it can stop after any step: the catalogue is written only after the
 copy, and every upload goes to a directory with a name of its own.
 */
module Upload {
  import opened Wrappers
  import opened Partitioning
  import opened Files
  import opened Catalogue

  /** The remote file system, and the contents of the catalogue file in it. */
  datatype Remote = Remote(fs: FileSystem, entries: seq<CheckpointEntry>)

  /** Uploads of one operator go to sibling directories. */
  function Directory(base: Path, uuid: string): Path {
    base + [uuid]
  }

  lemma MkdirAgain(fs: FileSystem, dir: Path)
    requires CanMkdir(fs, dir)
    ensures MkdirAll(MkdirAll(fs, dir), dir) == MkdirAll(fs, dir) && CanMkdir(MkdirAll(fs, dir), dir)
  {
  }

  /** Nothing is in the way of a copy into an empty directory, and afterwards it holds just the copy. */
  lemma IntoEmpty(fs: FileSystem, dir: Path, tree: FileSystem)
    requires Empty(fs, dir) && CanMkdir(fs, dir) && [] in tree && tree[[]].Folder?
    ensures Compatible(Tree(MkdirAll(fs, dir), dir), tree) && Tree(MkdirAll(fs, dir), dir) + tree == tree
  {
    MkdirTree(fs, dir);
  }

  /**
   The writes of one upload: the directory, then one node of the tree after the other. A completed upload has made all
   of them, holds the whole tree, and has written the catalogue last.
   */
  ghost predicate UploadWrites(remote: Remote, dir: Path, tree: FileSystem, trace: seq<FileSystem>) {
    Writes(trace, remote.fs, dir, tree)
  }

  ghost predicate Completes(remote: Remote, after: Remote, dir: Path, tree: FileSystem, trace: seq<FileSystem>,
                            id: string, info: PartitionInfo) {
    && UploadWrites(remote, dir, tree, trace)
    && after == Remote(trace[|trace| - 1], Record(remote.entries, id, info))
    && Tree(after.fs, dir) == tree
  }

  /** Creates the directory, copies into it, then writes the catalogue. `trace` is the file system after each write. */
  method UploadCheckpoint(local: FileSystem, path: Path, remote: Remote, base: Path, uuid: string, id: string,
                          range: PartitionRange)
    returns (r: Outcome<Remote>, ghost trace: seq<FileSystem>)
    requires WellFormed(local) && Empty(remote.fs, Directory(base, uuid))
    ensures r.Ok? <==> CanMkdir(remote.fs, Directory(base, uuid)) && path in local && local[path].Folder?
    ensures if CanMkdir(remote.fs, Directory(base, uuid))
            then UploadWrites(remote, Directory(base, uuid), Tree(local, path), trace) else trace == []
    ensures r.Ok? ==> Completes(remote, r.value, Directory(base, uuid), Tree(local, path), trace, id,
                                PartitionInfo(range, uuid))
  {
    var dir := Directory(base, uuid);
    if !CanMkdir(remote.fs, dir) {
      return Err("cannot create directory"), [];
    }
    var made := MkdirAll(remote.fs, dir);
    MkdirAgain(remote.fs, dir);
    var copied;
    copied, trace := CopyDirBetweenSystems(local, path, made, dir);
    if path in local && local[path].Folder? {
      TreeAt(local, path, []);
      assert path + [] == path;
      IntoEmpty(remote.fs, dir, Tree(local, path));
    }
    if copied.Err? {
      return Err(copied.message), trace;
    }
    var storage := new FileSystemStateStorage();
    storage.latest := Some(remote.entries);
    storage.CompleteCheckpoint(id, uuid, range);
    var entries := storage.Entries();
    return Ok(Remote(copied.value, entries)), trace;
  }

  // ---- Runs with crashes ----

  /** The remote state, the tree each upload was started for, and the completions so far. */
  datatype State = State(remote: Remote, trees: map<string, FileSystem>, log: seq<Completion>)

  /** When an upload stops: before its first write, after the write with the given position, or not at all. */
  datatype Stop = Before | After(write: nat) | Never

  datatype Attempt = Attempt(uuid: string, tree: FileSystem, id: string, range: PartitionRange,
                             trace: seq<FileSystem>, stop: Stop)

  /** One upload under a new name, stopped at any point or completed. */
  ghost predicate Uploads(base: Path, s: State, t: State, a: Attempt) {
    && a.uuid !in s.trees && t.trees == s.trees[a.uuid := a.tree]
    && var info, dir := PartitionInfo(a.range, a.uuid), Directory(base, a.uuid);
       match a.stop
       case Before => t.remote == s.remote && t.log == s.log
       case After(i) =>
         && UploadWrites(s.remote, dir, a.tree, a.trace) && i < |a.trace|
         && t.remote == s.remote.(fs := a.trace[i]) && t.log == s.log
       case Never =>
         && Completes(s.remote, t.remote, dir, a.tree, a.trace, a.id, info)
         && t.log == s.log + [Completion(a.id, info)]
  }

  ghost predicate Next(base: Path, s: State, t: State) {
    exists a :: Uploads(base, s, t, a)
  }

  /** Every state in which `UploadCheckpoint` can be stopped, and the one it ends in, is a step of the runs below. */
  lemma StopsAreSteps(base: Path, s: State, a: Attempt, after: Remote)
    requires a.uuid !in s.trees && UploadWrites(s.remote, Directory(base, a.uuid), a.tree, a.trace)
    ensures Next(base, s, s.(trees := s.trees[a.uuid := a.tree]))
    ensures forall i | 0 <= i < |a.trace| ::
              Next(base, s, s.(remote := s.remote.(fs := a.trace[i]), trees := s.trees[a.uuid := a.tree]))
    ensures var info := PartitionInfo(a.range, a.uuid);
            Completes(s.remote, after, Directory(base, a.uuid), a.tree, a.trace, a.id, info) ==>
              Next(base, s, State(after, s.trees[a.uuid := a.tree], s.log + [Completion(a.id, info)]))
  {
    var trees := s.trees[a.uuid := a.tree];
    var info := PartitionInfo(a.range, a.uuid);
    assert Uploads(base, s, s.(trees := trees), a.(stop := Before));
    forall i | 0 <= i < |a.trace| ensures Next(base, s, s.(remote := s.remote.(fs := a.trace[i]), trees := trees)) {
      assert Uploads(base, s, s.(remote := s.remote.(fs := a.trace[i]), trees := trees), a.(stop := After(i)));
    }
    if Completes(s.remote, after, Directory(base, a.uuid), a.tree, a.trace, a.id, info) {
      assert Uploads(base, s, State(after, trees, s.log + [Completion(a.id, info)]), a.(stop := Never));
    }
  }

  ghost predicate StepAt(base: Path, run: seq<State>, k: nat)
    requires k + 1 < |run|
  {
    Next(base, run[k], run[k + 1])
  }

  ghost predicate IsRun(base: Path, run: seq<State>) {
    && |run| > 0
    && run[0].remote.entries == [] && run[0].trees == map[] && run[0].log == []
    && forall k: nat | k + 1 < |run| :: StepAt(base, run, k)
  }

  /** The completed part's directory holds the whole tree its upload was started for. */
  ghost predicate Complete(base: Path, s: State, info: PartitionInfo) {
    info.dir in s.trees && Tree(s.remote.fs, Directory(base, info.dir)) == s.trees[info.dir]
  }

  ghost predicate AllComplete(base: Path, s: State) {
    forall i | 0 <= i < |s.log| :: Complete(base, s, s.log[i].info)
  }

  lemma Siblings(base: Path, a: string, b: string)
    requires a != b
    ensures Apart(Directory(base, a), Directory(base, b))
  {
    assert Directory(base, a)[|base|] == a && Directory(base, b)[|base|] == b;
    assert Directory(base, a)[..|base| + 1] == Directory(base, a);
    assert Directory(base, b)[..|base| + 1] == Directory(base, b);
  }

  lemma CompleteStays(base: Path, s: State, t: State, uuid: string, tree: FileSystem, info: PartitionInfo)
    requires Complete(base, s, info) && uuid !in s.trees && t.trees == s.trees[uuid := tree]
    requires Untouched(s.remote.fs, t.remote.fs, Directory(base, uuid))
    ensures Complete(base, t, info)
  {
    Siblings(base, info.dir, uuid);
  }

  lemma BuildNext(log: seq<Completion>, last: Completion)
    ensures Build(log + [last]) == Record(Build(log), last.id, last.info)
  {
    assert (log + [last])[..|log|] == log;
  }

  /** Whenever an upload stops, all other directories are as they were. */
  lemma UploadUntouched(base: Path, s: State, t: State, a: Attempt)
    requires Uploads(base, s, t, a)
    ensures Untouched(s.remote.fs, t.remote.fs, Directory(base, a.uuid))
  {
    match a.stop
    case Before =>
    case After(i) => WritesUntouched(a.trace, s.remote.fs, Directory(base, a.uuid), a.tree, i);
    case Never => WritesUntouched(a.trace, s.remote.fs, Directory(base, a.uuid), a.tree, |a.trace| - 1);
  }

  /** What an upload does to the rest: nothing, whether it stops or completes; and a completed one is complete. */
  ghost predicate Effect(base: Path, s: State, t: State, a: Attempt) {
    && a.uuid !in s.trees && t.trees == s.trees[a.uuid := a.tree]
    && Untouched(s.remote.fs, t.remote.fs, Directory(base, a.uuid))
    && (a.stop.Never? ==> Complete(base, t, PartitionInfo(a.range, a.uuid)))
    && t.log == (if a.stop.Never? then s.log + [Completion(a.id, PartitionInfo(a.range, a.uuid))] else s.log)
  }

  lemma UploadEffect(base: Path, s: State, t: State, a: Attempt)
    requires s.remote.entries == Build(s.log) && Uploads(base, s, t, a)
    ensures Effect(base, s, t, a) && t.remote.entries == Build(t.log)
  {
    UploadUntouched(base, s, t, a);
    if a.stop.Never? { BuildNext(s.log, Completion(a.id, PartitionInfo(a.range, a.uuid))); }
  }

  lemma EffectKeeps(base: Path, s: State, t: State, a: Attempt)
    requires AllComplete(base, s) && Effect(base, s, t, a)
    ensures AllComplete(base, t)
  {
    forall i | 0 <= i < |t.log| ensures Complete(base, t, t.log[i].info) {
      if i < |s.log| { CompleteStays(base, s, t, a.uuid, a.tree, s.log[i].info); }
    }
  }

  /**
   Crash safety. Over any sequence of uploads, each stopped after any of its writes or completed, every part the
   catalogue names lies in a directory that holds a complete copy, the ids are unique, and no completed part is lost.
   */
  lemma {:induction false} UploadsSafe(base: Path, run: seq<State>, k: nat, id: string)
    requires IsRun(base, run) && k < |run|
    ensures AllComplete(base, run[k]) && run[k].remote.entries == Build(run[k].log)
    ensures UniqueIds(run[k].remote.entries)
    ensures PartsUnder(run[k].remote.entries, id) == Completed(run[k].log, id)
  {
    if k > 0 {
      UploadsSafe(base, run, k - 1, id);
      assert StepAt(base, run, k - 1);
      var a :| Uploads(base, run[k - 1], run[k], a);
      UploadEffect(base, run[k - 1], run[k], a);
      EffectKeeps(base, run[k - 1], run[k], a);
    }
    HistoryKept(run[k].log, id);
  }

  /** In particular, whatever the catalogue lists under an id is a complete copy. */
  lemma ListedIsComplete(base: Path, run: seq<State>, k: nat, id: string, j: nat)
    requires IsRun(base, run) && k < |run| && j < |PartsUnder(run[k].remote.entries, id)|
    ensures Complete(base, run[k], PartsUnder(run[k].remote.entries, id)[j])
  {
    UploadsSafe(base, run, k, id);
    CompletedInLog(run[k].log, id, j);
  }

  lemma {:induction false} CompletedInLog(log: seq<Completion>, id: string, j: nat)
    requires j < |Completed(log, id)|
    ensures exists i | 0 <= i < |log| :: log[i].info == Completed(log, id)[j]
  {
    var before := log[..|log| - 1];
    if j < |Completed(before, id)| {
      CompletedInLog(before, id, j);
      var i :| 0 <= i < |before| && before[i].info == Completed(before, id)[j];
      assert log[i].info == before[i].info;
    } else {
      assert log[|log| - 1].info == Completed(log, id)[j];
    }
  }
}
