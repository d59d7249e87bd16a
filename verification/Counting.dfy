/**
 The two counting operators: rows per key, and rows altogether. Their state is a map of counts; the operator that
 counts all rows has the single key `COUNT`. A row is its key.
 */
module Counting {
  import opened Wrappers
  import opened Streams
  import opened StateBackend

  const COUNT: nat := 0

  datatype Operator = ByKey | Star

  function Get(counts: Db, key: nat): nat {
    if key in counts then counts[key] else 0
  }

  /** The counts of a sequence of rows: the reference for both operators. */
  ghost function Counts(op: Operator, rows: seq<nat>): Db {
    if op.Star? then map[COUNT := |rows|] else map k | k in rows :: multiset(rows)[k]
  }

  /** The counts after more rows. */
  function Updated(op: Operator, counts: Db, rows: seq<nat>): Db {
    if op.Star? then counts[COUNT := Get(counts, COUNT) + |rows|]
    else map k | k in counts.Keys + (set r | r in rows) :: Get(counts, k) + multiset(rows)[k]
  }

  /** Counting in batches is counting all rows. */
  lemma UpdatedCounts(op: Operator, a: seq<nat>, b: seq<nat>)
    ensures Updated(op, Counts(op, a), b) == Counts(op, a + b)
  {
    assert multiset(a + b) == multiset(a) + multiset(b);
    if op.ByKey? {
      assert forall k :: k in a + b <==> k in a || k in b;
    }
  }

  /** More rows always change the counts. */
  lemma CountsGrow(op: Operator, a: seq<nat>, b: seq<nat>)
    ensures Counts(op, a + b) == Counts(op, a) <==> b == []
  {
    if b == [] {
      assert a + b == a;
    } else if op.Star? {
      assert Counts(op, a + b)[COUNT] != Counts(op, a)[COUNT];
    } else {
      assert multiset(a + b) == multiset(a) + multiset(b);
      assert b[0] in a + b && multiset(b)[b[0]] > 0;
      if b[0] in a {
        assert Counts(op, a + b)[b[0]] != Counts(op, a)[b[0]];
      } else {
        assert b[0] in Counts(op, a + b) && b[0] !in Counts(op, a);
      }
    }
  }

  function Bump(counts: Db, key: nat): Db {
    counts[key := Get(counts, key) + 1]
  }

  /** Counting row by row. */
  function Bumped(counts: Db, rows: seq<nat>): Db
    decreases |rows|
  {
    if rows == [] then counts else Bumped(Bump(counts, rows[0]), rows[1..])
  }

  lemma {:induction false} BumpedIsUpdated(counts: Db, rows: seq<nat>)
    ensures Bumped(counts, rows) == Updated(ByKey, counts, rows)
    decreases |rows|
  {
    if rows == [] {
      assert Updated(ByKey, counts, []) == counts;
    } else {
      BumpedIsUpdated(Bump(counts, rows[0]), rows[1..]);
      UpdatedHead(counts, rows[0], rows[1..]);
      assert rows == [rows[0]] + rows[1..];
    }
  }

  lemma UpdatedHead(counts: Db, key: nat, rows: seq<nat>)
    ensures Updated(ByKey, Bump(counts, key), rows) == Updated(ByKey, counts, [key] + rows)
  {
    assert multiset([key] + rows) == multiset{key} + multiset(rows);
    forall k ensures k in [key] + rows <==> k in rows || k == key {
      assert k in rows ==> k in [key] + rows;
    }
    var left, right := Updated(ByKey, Bump(counts, key), rows), Updated(ByKey, counts, [key] + rows);
    assert left.Keys == right.Keys;
    assert forall k | k in left :: left[k] == right[k];
  }

  /** What an operator starts with: nothing, or a count of zero. */
  function Initial(op: Operator): Db {
    if op.Star? then map[COUNT := 0] else map[]
  }

  lemma InitialCounts(op: Operator)
    ensures Initial(op) == Counts(op, [])
  {
  }

  // ---- Whole runs ----

  lemma RowsNext(s: seq<Item<seq<nat>>>, q: nat)
    requires q < |s|
    ensures Rows(s[..q + 1]) == Rows(s[..q]) + if s[q].Batch? then s[q].batch else []
  {
    assert s[..q + 1] == s[..q] + [s[q]];
    RowsAppend(s[..q], [s[q]]);
    assert Batches([s[q]]) == if s[q].Batch? then [s[q].batch] else [];
    if s[q].Batch? { assert Flatten([s[q].batch]) == s[q].batch + Flatten<nat>([]); }
  }

  function RowsOf(item: Item<seq<nat>>): seq<nat> {
    if item.Batch? then item.batch else []
  }

  /** What one item emits: a marker is passed on. */
  function Passes(item: Item<seq<nat>>): seq<Item<Db>> {
    if item.Marker? then [Marker(item.number)] else []
  }

  /** The snapshot an item causes: at a marker, the counts of all rows before it. */
  ghost function Snaps(op: Operator, rows: seq<nat>, item: Item<seq<nat>>, uuid: string): seq<Dir> {
    if item.Marker? then [Dir(DirName(item.number, uuid), Counts(op, rows))] else []
  }

  /** The snapshots of the first `n` items, after rows `seen`. */
  ghost function Taken(op: Operator, seen: seq<nat>, stream: seq<Item<seq<nat>>>, uuids: seq<string>, n: nat): seq<Dir>
    requires n <= |stream| == |uuids|
  {
    if n == 0 then []
    else
      Taken(op, seen, stream, uuids, n - 1) +
      Snaps(op, RowsThrough(seen, stream, n - 1), stream[n - 1], uuids[n - 1])
  }

  /** What the first `n` items emit. */
  function Passed(stream: seq<Item<seq<nat>>>, n: nat): seq<Item<Db>>
    requires n <= |stream|
  {
    if n == 0 then [] else Passed(stream, n - 1) + Passes(stream[n - 1])
  }

  /** All rows up to item `n` of a stream, after rows `seen`. */
  function RowsThrough(seen: seq<nat>, stream: seq<Item<seq<nat>>>, n: nat): seq<nat>
    requires n <= |stream|
  {
    seen + Rows(stream[..n])
  }

  lemma RowsThroughNext(seen: seq<nat>, stream: seq<Item<seq<nat>>>, n: nat)
    requires n < |stream|
    ensures RowsThrough(seen, stream, n + 1) ==
            RowsThrough(seen, stream, n) + RowsOf(stream[n])
  {
    RowsNext(stream, n);
  }

  lemma RowsThroughAll(seen: seq<nat>, stream: seq<Item<seq<nat>>>)
    ensures RowsThrough(seen, stream, 0) == seen && RowsThrough(seen, stream, |stream|) == seen + Rows(stream)
  {
    assert stream[..0] == [] && stream[..|stream|] == stream;
  }

  lemma TakenNext(op: Operator, seen: seq<nat>, stream: seq<Item<seq<nat>>>, uuids: seq<string>, n: nat, rows: seq<nat>,
                  dirs: seq<Dir>)
    requires n < |stream| == |uuids| && rows == RowsThrough(seen, stream, n)
    ensures dirs + Taken(op, seen, stream, uuids, n) + Snaps(op, rows, stream[n], uuids[n]) ==
            dirs + Taken(op, seen, stream, uuids, n + 1)
  {
  }

  lemma UpdatedKeys(op: Operator, counts: Db, rows: seq<nat>)
    ensures counts.Keys <= Updated(op, counts, rows).Keys
  {
  }

  lemma Overwritten(db: Db, counts: Db)
    requires db.Keys <= counts.Keys
    ensures db + counts == counts
  {
  }

  /** The evaluated key column of a batch. */
  datatype Column = Array(values: seq<nat>) | Scalar(value: nat) | NullScalar | NotUInt64 | NoColumn

  const BAD_COLUMN := "Key column cannot be counted"

  /** The keys a column adds; a column that cannot be counted adds none. */
  function KeysOf(column: Column): seq<nat> {
    match column
    case Array(values) => values
    case Scalar(value) => [value]
    case _ => []
  }

  /** An item with its column replaced by the keys it adds. */
  function KeyedItem(item: Item<Column>): Item<seq<nat>> {
    if item.Marker? then Marker(item.number) else Batch(KeysOf(item.batch))
  }

  function Keyed(stream: seq<Item<Column>>): seq<Item<seq<nat>>> {
    seq(|stream|, i requires 0 <= i < |stream| => KeyedItem(stream[i]))
  }

  /** What one item emits: a marker is passed on, and a column that cannot be counted is an error. */
  function Emits(item: Item<Column>): seq<Outcome<Item<Db>>> {
    if item.Marker? then [Ok(Marker(item.number))]
    else if item.batch.Array? || item.batch.Scalar? then []
    else [Err(BAD_COLUMN)]
  }

  function Emitted(stream: seq<Item<Column>>, n: nat): seq<Outcome<Item<Db>>>
    requires n <= |stream|
  {
    if n == 0 then [] else Emitted(stream, n - 1) + Emits(stream[n - 1])
  }

  class CountByKeyFunction {
    var localCounts: Db

    constructor ()
      ensures localCounts == Initial(ByKey)
    {
      localCounts := map[];
    }

    method CountValues(values: seq<nat>)
      modifies this
      ensures localCounts == Updated(ByKey, old(localCounts), values)
    {
      for i := 0 to |values|
        invariant Bumped(localCounts, values[i..]) == Bumped(old(localCounts), values)
      {
        assert values[i..][1..] == values[i + 1..];
        localCounts := localCounts[values[i] := Get(localCounts, values[i]) + 1];
      }
      BumpedIsUpdated(old(localCounts), values);
    }

    /** Counts the keys of a batch, or fails without counting any. A scalar counts once. */
    method UpdateLocalCounts(column: Column) returns (r: Outcome<()>)
      modifies this
      ensures match column
              case Array(values) => r == Ok(()) && localCounts == Updated(ByKey, old(localCounts), values)
              case Scalar(value) => r == Ok(()) && localCounts == Updated(ByKey, old(localCounts), [value])
              case _ => r == Err(BAD_COLUMN) && unchanged(this)
    {
      match column
      case Array(values) =>
        CountValues(values);
        return Ok(());
      case Scalar(value) =>
        BumpedIsUpdated(localCounts, [value]);
        localCounts := localCounts[value := Get(localCounts, value) + 1];
        return Ok(());
      case _ =>
        return Err(BAD_COLUMN);
    }

    /** Checkpoint 0 changes nothing; any other replaces the counts by what the state backend finds. */
    method Load(state: RocksDBStateBackend, checkpoint: nat) returns (r: Outcome<()>)
      modifies this, state
      ensures if checkpoint == 0 then r == Ok(()) && unchanged(this) && unchanged(state)
              else match old(state.Find(checkpoint))
              case Contents(db) => r == Ok(()) && state.openDb == db && localCounts == Restored(ByKey, db)
              case _ => r.Err? && unchanged(this) && unchanged(state)
      ensures state.localDirs == old(state.localDirs)
    {
      if checkpoint > 0 {
        r := state.MoveToCheckpoint(checkpoint);
        if r.Err? {
          return;
        }
        localCounts := state.openDb;
      }
      return Ok(());
    }

    /** A marker: every count is put into the database, then a snapshot of it is taken. */
    method OnMarker(state: RocksDBStateBackend, number: nat, uuid: string)
      modifies state
      ensures state.openDb == old(state.openDb) + localCounts
      ensures state.localDirs == old(state.localDirs) + [Dir(DirName(number, uuid), state.openDb)]
    {
      var keys := localCounts.Keys;
      while keys != {}
        invariant keys <= localCounts.Keys
        invariant state.openDb.Keys == old(state.openDb).Keys + (localCounts.Keys - keys)
        invariant forall k | k in state.openDb ::
                    state.openDb[k] == if k in localCounts && k !in keys then localCounts[k] else old(state.openDb)[k]
        invariant state.localDirs == old(state.localDirs)
      {
        var key :| key in keys;
        state.Put(key, localCounts[key]);
        keys := keys - {key};
      }
      assert state.openDb == old(state.openDb) + localCounts;
      state.Checkpoint(number, uuid);
    }

    /** One item of the input, after rows `rows`. */
    method OnItem(state: RocksDBStateBackend, item: Item<Column>, uuid: string, ghost rows: seq<nat>)
      returns (emitted: seq<Outcome<Item<Db>>>)
      requires localCounts == Counts(ByKey, rows) && state.openDb.Keys <= localCounts.Keys
      modifies this, state
      ensures localCounts == Counts(ByKey, rows + RowsOf(KeyedItem(item))) && state.openDb.Keys <= localCounts.Keys
      ensures state.localDirs == old(state.localDirs) + Snaps(ByKey, rows, KeyedItem(item), uuid)
      ensures emitted == Emits(item)
    {
      match item
      case Batch(column) =>
        UpdatedKeys(ByKey, localCounts, KeysOf(column));
        UpdatedCounts(ByKey, rows, KeysOf(column));
        assert rows + [] == rows;
        var r := UpdateLocalCounts(column);
        return if r.Err? then [Err(r.message)] else [];
      case Marker(number) =>
        Overwritten(state.openDb, localCounts);
        assert rows + [] == rows;
        OnMarker(state, number, uuid);
        return [Ok(Marker(number))];
    }

    /**
     A whole run over a stream, after rows `seen`: it takes the snapshots the reference demands, passes the markers on,
     emits an error for each column that cannot be counted, and ends with the counts of all keys.
     */
    method Run(state: RocksDBStateBackend, stream: seq<Item<Column>>, uuids: seq<string>, ghost seen: seq<nat>)
      returns (out: seq<Outcome<Item<Db>>>)
      requires localCounts == Counts(ByKey, seen) && state.openDb.Keys <= localCounts.Keys && |uuids| == |stream|
      modifies this, state
      ensures state.localDirs == old(state.localDirs) + Taken(ByKey, seen, Keyed(stream), uuids, |stream|)
      ensures out == Emitted(stream, |stream|) + [Ok(Batch(Counts(ByKey, seen + Rows(Keyed(stream)))))]
    {
      out := [];
      ghost var keyed := Keyed(stream);
      RowsThroughAll(seen, keyed);
      ghost var rows := seen;
      for i := 0 to |stream|
        invariant rows == RowsThrough(seen, keyed, i)
        invariant localCounts == Counts(ByKey, rows) && state.openDb.Keys <= localCounts.Keys
        invariant state.localDirs == old(state.localDirs) + Taken(ByKey, seen, keyed, uuids, i)
        invariant out == Emitted(stream, i)
      {
        assert keyed[i] == KeyedItem(stream[i]);
        TakenNext(ByKey, seen, keyed, uuids, i, rows, old(state.localDirs));
        RowsThroughNext(seen, keyed, i);
        var emitted := OnItem(state, stream[i], uuids[i], rows);
        assert state.localDirs == old(state.localDirs) + Taken(ByKey, seen, keyed, uuids, i + 1);
        out := out + emitted;
        rows := RowsThrough(seen, keyed, i + 1);
      }
      out := out + [Ok(Batch(localCounts))];
    }
  }

  /** The counts read back from a database: `COUNT` may be missing from it, and then is zero. */
  function Restored(op: Operator, db: Db): Db {
    if op.Star? then map[COUNT := Get(db, COUNT)] else db
  }

  class CountStarFunction {
    var localCount: nat

    function Counted(): Db
      reads this
    {
      Initial(Star)[COUNT := localCount]
    }

    constructor ()
      ensures Counted() == Initial(Star)
    {
      localCount := 0;
    }

    method OnBatch(rows: seq<nat>)
      modifies this
      ensures Counted() == Updated(Star, old(Counted()), rows)
    {
      localCount := localCount + |rows|;
    }

    method Load(state: RocksDBStateBackend, checkpoint: nat) returns (r: Outcome<()>)
      modifies this, state
      ensures if checkpoint == 0 then r == Ok(()) && unchanged(this) && unchanged(state)
              else match old(state.Find(checkpoint))
              case Contents(db) => r == Ok(()) && state.openDb == db && Counted() == Restored(Star, db)
              case _ => r.Err? && unchanged(this) && unchanged(state)
      ensures state.localDirs == old(state.localDirs)
    {
      if checkpoint > 0 {
        r := state.MoveToCheckpoint(checkpoint);
        if r.Err? {
          return;
        }
        localCount := if COUNT in state.openDb then state.openDb[COUNT] else 0;
      }
      return Ok(());
    }

    method OnMarker(state: RocksDBStateBackend, number: nat, uuid: string)
      modifies state
      ensures state.openDb == old(state.openDb) + Counted()
      ensures state.localDirs == old(state.localDirs) + [Dir(DirName(number, uuid), state.openDb)]
    {
      state.Put(COUNT, localCount);
      assert state.openDb == old(state.openDb) + Counted();
      state.Checkpoint(number, uuid);
    }

    /** One item of the input, after rows `rows`. */
    method OnItem(state: RocksDBStateBackend, item: Item<seq<nat>>, uuid: string, ghost rows: seq<nat>)
      returns (emitted: seq<Item<Db>>)
      requires Counted() == Counts(Star, rows) && state.openDb.Keys <= Counted().Keys
      modifies this, state
      ensures Counted() == Counts(Star, rows + RowsOf(item)) && state.openDb.Keys <= Counted().Keys
      ensures state.localDirs == old(state.localDirs) + Snaps(Star, rows, item, uuid)
      ensures emitted == Passes(item)
    {
      match item
      case Batch(batch) =>
        UpdatedKeys(Star, Counted(), batch);
        UpdatedCounts(Star, rows, batch);
        OnBatch(batch);
        return [];
      case Marker(number) =>
        Overwritten(state.openDb, Counted());
        assert rows + [] == rows;
        OnMarker(state, number, uuid);
        return [Marker(number)];
    }

    /**
     A whole run over a stream, after rows `seen`: it takes the snapshots the reference demands, passes the markers on
     and ends with the counts of all rows.
     */
    method Run(state: RocksDBStateBackend, stream: seq<Item<seq<nat>>>, uuids: seq<string>, ghost seen: seq<nat>)
      returns (out: seq<Item<Db>>)
      requires Counted() == Counts(Star, seen) && state.openDb.Keys <= Counted().Keys && |uuids| == |stream|
      modifies this, state
      ensures state.localDirs == old(state.localDirs) + Taken(Star, seen, stream, uuids, |stream|)
      ensures out == Passed(stream, |stream|) + [Batch(Counts(Star, seen + Rows(stream)))]
    {
      out := [];
      RowsThroughAll(seen, stream);
      ghost var rows := seen;
      for i := 0 to |stream|
        invariant rows == RowsThrough(seen, stream, i)
        invariant Counted() == Counts(Star, rows) && state.openDb.Keys <= Counted().Keys
        invariant state.localDirs == old(state.localDirs) + Taken(Star, seen, stream, uuids, i)
        invariant out == Passed(stream, i)
      {
        TakenNext(Star, seen, stream, uuids, i, rows, old(state.localDirs));
        RowsThroughNext(seen, stream, i);
        var emitted := OnItem(state, stream[i], uuids[i], rows);
        out := out + emitted;
        rows := rows + RowsOf(stream[i]);
      }
      out := out + [Batch(Counted())];
    }
  }
}
