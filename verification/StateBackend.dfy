/**
 The state backend of one operator instance with a fixed partition range: a database, named local snapshots of it, and
 snapshots uploaded to remote storage and listed in the catalogue. A database is a map.
 */
module StateBackend {
  import opened Wrappers
  import opened Partitioning
  import opened CheckpointCover
  import opened Catalogue

  type Db = map<nat, nat>

  datatype Dir = Dir(name: string, contents: Db)

  // ---- Names ----

  function Digit(d: nat): char
    requires d < 10
  {
    ['0', '1', '2', '3', '4', '5', '6', '7', '8', '9'][d]
  }

  function Decimal(n: nat): string {
    if n < 10 then [Digit(n)] else Decimal(n / 10) + [Digit(n % 10)]
  }

  const SEPARATOR := "__"

  function DirName(checkpoint: nat, uuid: string): string {
    Decimal(checkpoint) + SEPARATOR + uuid
  }

  predicate StartsWith(s: string, prefix: string) {
    |prefix| <= |s| && s[..|prefix|] == prefix
  }

  predicate Names(dir: Dir, checkpoint: nat) {
    StartsWith(dir.name, Decimal(checkpoint) + SEPARATOR)
  }

  lemma {:induction false} DecimalDigits(n: nat, i: nat)
    requires i < |Decimal(n)|
    ensures Decimal(n)[i] != '_'
  {
    if n >= 10 && i < |Decimal(n)| - 1 {
      DecimalDigits(n / 10, i);
    }
  }

  lemma {:induction false} DecimalInjective(a: nat, b: nat)
    requires Decimal(a) == Decimal(b)
    ensures a == b
  {
    var x, y := Decimal(a), Decimal(b);
    DecimalNonempty(a / 10);
    DecimalNonempty(b / 10);
    if a >= 10 && b >= 10 {
      assert x[..|x| - 1] == Decimal(a / 10) && y[..|y| - 1] == Decimal(b / 10);
      assert x[|x| - 1] == Digit(a % 10) && y[|y| - 1] == Digit(b % 10);
      DecimalInjective(a / 10, b / 10);
    }
  }

  lemma DecimalNonempty(n: nat)
    ensures |Decimal(n)| > 0
  {
  }

  /** The prefix test finds the directories of exactly the one checkpoint: `1__` is no prefix of `11__...`. */
  lemma NamesExactly(checkpoint: nat, other: nat, uuid: string, contents: Db)
    ensures Names(Dir(DirName(other, uuid), contents), checkpoint) <==> checkpoint == other
  {
    var name := DirName(other, uuid);
    var a, b := Decimal(checkpoint), Decimal(other);
    if StartsWith(name, a + SEPARATOR) {
      assert name[|a|] == '_' && name[..|a|] == a;
      assert forall i | 0 <= i < |a| :: name[i] == a[i];
      assert name[|b|] == '_' && name[..|b|] == b;
      if |a| < |b| {
        assert b[|a|] == name[|a|];
        DecimalDigits(other, |a|);
      } else if |b| < |a| {
        assert a[|b|] == name[|b|];
        DecimalDigits(checkpoint, |b|);
      } else {
        DecimalInjective(checkpoint, other);
      }
    }
  }

  // ---- Finding a snapshot ----

  /** The first local directory named for the checkpoint, in listing order. */
  function FindLocal(dirs: seq<Dir>, checkpoint: nat): Option<Db> {
    if dirs == [] then None
    else if Names(dirs[0], checkpoint) then Some(dirs[0].contents)
    else FindLocal(dirs[1..], checkpoint)
  }

  /** Where a checkpoint was found. Several remote parts would have to be merged. */
  datatype Finding = Contents(db: Db) | Several | NotAvailable | Panics

  function FindRemote(entries: seq<CheckpointEntry>, remote: map<string, Db>, partitions: PartitionRange,
                      checkpoint: nat): Finding {
    match OperatorCheckpoints(entries, partitions, Decimal(checkpoint))
    case Panicked => Panics
    case Missing => NotAvailable
    case Parts(_, parts) =>
      if |parts| != 1 then Several
      else if parts[0].0 in remote then Contents(remote[parts[0].0])
      else NotAvailable
  }

  function FindCheckpoint(dirs: seq<Dir>, entries: seq<CheckpointEntry>, remote: map<string, Db>,
                          partitions: PartitionRange, checkpoint: nat): Finding {
    match FindLocal(dirs, checkpoint)
    case Some(db) => Contents(db)
    case None => FindRemote(entries, remote, partitions, checkpoint)
  }

  /** The range, rescaled like the stored ranges it is searched in. */
  function Rescaled(range: PartitionRange, target: nat): PartitionRange
    requires range.partitions > 0
  {
    PartitionRange(Rescale(range.start, range.partitions, target), Rescale(range.end, range.partitions, target), target)
  }

  /** One of the parts has this database and contains the whole rescaled range. */
  ghost predicate HoldsRange(infos: seq<PartitionInfo>, remote: map<string, Db>, range: PartitionRange, db: Db)
    requires range.partitions > 0
  {
    exists i | 0 <= i < |infos| :: HeldBy(infos[i], remote, Rescaled(range, Target(range, RangesOf(infos))), db)
  }

  ghost predicate HeldBy(info: PartitionInfo, remote: map<string, Db>, whole: PartitionRange, db: Db) {
    info.dir in remote && remote[info.dir] == db && Contains(info, whole.partitions, info.dir, whole)
  }

  lemma OneTile(part: PartitionRange, whole: PartitionRange)
    requires Tiles([part], whole.start, whole.end, whole.partitions)
    ensures part == whole
  {
    assert [part][1..] == [];
  }

  lemma StoredAt(infos: seq<PartitionInfo>, remote: map<string, Db>, dir: string, whole: PartitionRange)
    returns (i: nat)
    requires StoredIn(infos, whole.partitions, dir, whole) && dir in remote
    ensures i < |infos| && HeldBy(infos[i], remote, whole, remote[dir])
  {
    i :| 0 <= i < |infos| && Contains(infos[i], whole.partitions, dir, whole);
  }

  /** After every history, a database is loaded for a nonempty range only from one part that holds all of it. */
  lemma LoadsWholeRange(log: seq<Completion>, remote: map<string, Db>, range: PartitionRange, checkpoint: nat, db: Db)
    requires range.start < range.end && FindRemote(Build(log), remote, range, checkpoint) == Contents(db)
    ensures range.partitions > 0 && HoldsRange(Completed(log, Decimal(checkpoint)), remote, range, db)
  {
    var id := Decimal(checkpoint);
    var infos := Completed(log, id);
    var parts := OperatorCheckpoints(Build(log), range, id).parts;
    LookupRestores(log, range, id);
    var whole := Rescaled(range, Target(range, RangesOf(infos)));
    assert PartRanges(parts) == [parts[0].1];
    OneTile(parts[0].1, whole);
    assert StoredIn(infos, whole.partitions, parts[0].0, parts[0].1);
    var i := StoredAt(infos, remote, parts[0].0, whole);
  }

  class RocksDBStateBackend {
    const partitions: PartitionRange
    const storage: FileSystemStateStorage
    var openDb: Db
    var localDirs: seq<Dir>
    /** The remote directories that hold a complete copy of a snapshot. */
    var remoteDirs: map<string, Db>

    ghost function Find(checkpoint: nat): Finding
      reads this, storage
    {
      FindCheckpoint(localDirs, storage.Entries(), remoteDirs, partitions, checkpoint)
    }

    constructor (partitions: PartitionRange, storage: FileSystemStateStorage, dirs: seq<Dir>, remote: map<string, Db>)
      ensures this.partitions == partitions && this.storage == storage
      ensures openDb == map[] && localDirs == dirs && remoteDirs == remote
    {
      this.partitions, this.storage := partitions, storage;
      openDb, localDirs, remoteDirs := map[], dirs, remote;
    }

    method Put(key: nat, value: nat)
      modifies this`openDb
      ensures openDb == old(openDb)[key := value]
    {
      openDb := openDb[key := value];
    }

    method Checkpoint(checkpoint: nat, uuid: string)
      modifies this`localDirs
      ensures localDirs == old(localDirs) + [Dir(DirName(checkpoint, uuid), openDb)]
    {
      localDirs := localDirs + [Dir(DirName(checkpoint, uuid), openDb)];
    }

    /** Local snapshots win over remote ones; a failure leaves the database as it was. */
    method MoveToCheckpoint(checkpoint: nat) returns (r: Outcome<()>)
      modifies this`openDb
      ensures match old(Find(checkpoint))
              case Contents(db) => r == Ok(()) && openDb == db
              case _ => r.Err? && openDb == old(openDb)
    {
      var i := 0;
      while i < |localDirs|
        invariant 0 <= i <= |localDirs|
        invariant FindLocal(localDirs, checkpoint) == FindLocal(localDirs[i..], checkpoint)
      {
        if Names(localDirs[i], checkpoint) {
          openDb := localDirs[i].contents;
          return Ok(());
        }
        assert localDirs[i..][1..] == localDirs[i + 1..];
        i := i + 1;
      }
      var found := storage.GetOperatorCheckpoints(partitions, Decimal(checkpoint));
      match found
      case Parts(_, parts) =>
        if |parts| == 1 && parts[0].0 in remoteDirs {
          openDb := remoteDirs[parts[0].0];
          return Ok(());
        }
        return Err("not a single complete part");
      case Missing =>
        return Err("No viable checkpoints found");
      case Panicked =>
        return Err("panic");
    }
  }
}
