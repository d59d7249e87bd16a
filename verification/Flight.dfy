/**
 The wire format of a stream: a schema message before the first batch, batches cut into pieces that aim at a size
 limit, and markers as messages without a body that carry only metadata.

 A batch is its sequence of rows; its memory size is given by a function the model does not look into.
 */
module Flight {
  import opened Wrappers
  import opened Streams
  import opened Arithmetic
  import Exchange

  // ---- Cutting a batch ----

  /** The size limit is a positive number of bytes. */
  type Limit = n: nat | n > 0 witness 1

  function BatchCount(size: nat, limit: Limit): (n: nat)
    ensures n >= 1
  {
    var n := size / limit + if size % limit != 0 then 1 else 0;
    if n < 1 then 1 else n
  }

  /** The smallest number of pieces, at least one, that could hold the size. */
  lemma BatchCountIs(size: nat, limit: Limit)
    ensures var n := BatchCount(size, limit); n * limit >= size && (n > 1 ==> (n - 1) * limit < size)
  {
    DivDef(size, limit);
  }

  function RowsPerBatch(rows: nat, size: nat, limit: Limit): (per: nat)
    ensures per >= 1
  {
    var per := rows / BatchCount(size, limit);
    if per < 1 then 1 else per
  }

  /** The largest number of rows of which the rows hold that many pieces, or one row if there are fewer rows. */
  lemma RowsPerBatchIs(rows: nat, size: nat, limit: Limit)
    ensures var n, per := BatchCount(size, limit), RowsPerBatch(rows, size, limit);
            if rows < n then per == 1 else n * per <= rows < n * (per + 1)
  {
    var n := BatchCount(size, limit);
    DivDef(rows, n);
    if rows < n {
      SmallMod(rows, n);
    } else {
      DivUnique(n, n, 1);
      DivOrder(n, rows, n);
    }
  }

  /** Consecutive pieces of `per` rows, the last one possibly shorter. */
  function Pieces<R>(batch: seq<R>, per: nat): seq<seq<R>>
    requires per > 0
  {
    if |batch| <= per then if batch == [] then [] else [batch]
    else [batch[..per]] + Pieces(batch[per..], per)
  }

  /** Nothing is lost, reordered or repeated. */
  lemma {:induction false} PiecesFlatten<R>(batch: seq<R>, per: nat)
    requires per > 0
    ensures Flatten(Pieces(batch, per)) == batch
  {
    if |batch| > per {
      PiecesFlatten(batch[per..], per);
      assert Pieces(batch, per)[1..] == Pieces(batch[per..], per);
      assert batch == batch[..per] + batch[per..];
    } else if batch != [] {
      assert Flatten([batch]) == batch + Flatten<R>([]);
    }
  }

  /** No piece is empty, and all but the last are full. */
  ghost predicate Full<R>(pieces: seq<seq<R>>, per: nat) {
    && (forall i | 0 <= i < |pieces| :: 0 < |pieces[i]| <= per)
    && (forall i | 0 <= i < |pieces| - 1 :: |pieces[i]| == per)
  }

  lemma {:induction false} PiecesFull<R>(batch: seq<R>, per: nat)
    requires per > 0
    ensures Full(Pieces(batch, per), per)
  {
    if |batch| > per {
      PiecesFull(batch[per..], per);
    }
  }

  /** As many pieces as are needed, and no more. */
  lemma {:induction false} PiecesNeeded<R>(batch: seq<R>, per: nat)
    requires per > 0
    ensures var n := |Pieces(batch, per)|;
            (n == 0 <==> batch == []) && (n > 0 ==> (n - 1) * per < |batch| <= n * per)
  {
    if |batch| > per {
      PiecesNeeded(batch[per..], per);
      var n := |Pieces(batch, per)|;
      assert (n - 1) * per == (n - 2) * per + per && n * per == (n - 1) * per + per;
    }
  }

  lemma {:induction false} PiecesSnoc<R>(done: seq<R>, piece: seq<R>, per: nat, n: nat)
    requires per > 0 && |done| == n * per && 0 < |piece| <= per
    ensures Pieces(done + piece, per) == Pieces(done, per) + [piece]
    decreases n
  {
    if n == 0 {
      assert done + piece == piece;
    } else {
      assert n * per == (n - 1) * per + per;
      MulOrder(1, n, per);
      assert (done + piece)[..per] == done[..per];
      assert (done + piece)[per..] == done[per..] + piece;
      PiecesSnoc(done[per..], piece, per, n - 1);
      if |done| == per {
        assert done[per..] == [] && done[..per] == done;
      }
    }
  }

  /** A piece of more than one row has at most its share of the limit, counting the size of the batch by rows. */
  ghost predicate WithinLimit(rows: nat, all: nat, size: nat, limit: nat) {
    rows == 1 || rows * size <= limit * all
  }

  lemma ShareBound(rows: nat, per: nat, n: nat, all: nat, size: nat, limit: nat)
    requires rows <= per && n * per <= all && size <= n * limit
    ensures rows * size <= limit * all
  {
    MulOrder(size, n * limit, rows);
    MulOrder(rows * n, per * n, limit) by { MulOrder(rows, per, n); }
    MulOrder(n * per, all, limit);
    assert n * limit * rows == rows * n * limit;
  }

  lemma PieceShare(rows: nat, all: nat, size: nat, limit: Limit)
    requires 0 < rows <= RowsPerBatch(all, size, limit)
    ensures WithinLimit(rows, all, size, limit)
  {
    RowsPerBatchIs(all, size, limit);
    BatchCountIs(size, limit);
    if rows > 1 { ShareBound(rows, RowsPerBatch(all, size, limit), BatchCount(size, limit), all, size, limit); }
  }

  lemma PiecesAtLeast<R>(batch: seq<R>, per: nat, n: nat)
    requires per > 0 && n * per <= |batch|
    ensures |Pieces(batch, per)| >= n
  {
    PiecesNeeded(batch, per);
    if n > 0 { CountBelow(n, |Pieces(batch, per)|, |batch|, per); }
  }

  /** A batch with enough rows is cut into at least the aimed number of pieces. */
  lemma PieceCountLeast<R>(batch: seq<R>, size: nat, limit: Limit)
    requires |batch| >= BatchCount(size, limit)
    ensures |Pieces(batch, RowsPerBatch(|batch|, size, limit))| >= BatchCount(size, limit)
  {
    RowsPerBatchIs(|batch|, size, limit);
    PiecesAtLeast(batch, RowsPerBatch(|batch|, size, limit), BatchCount(size, limit));
  }

  /**
   The loop that cuts a batch: nothing lost, reordered or repeated, no empty piece, every piece within its share of the
   limit or a single row, and at least the aimed number of pieces if there are enough rows.
   */
  method SplitBatchForGrpcResponse<R>(batch: seq<R>, size: nat, limit: Limit) returns (out: seq<seq<R>>)
    ensures out == Pieces(batch, RowsPerBatch(|batch|, size, limit))
    ensures Flatten(out) == batch
    ensures forall i | 0 <= i < |out| :: out[i] != [] && WithinLimit(|out[i]|, |batch|, size, limit)
    ensures |batch| >= BatchCount(size, limit) ==> |out| >= BatchCount(size, limit)
  {
    var rowsPerBatch := RowsPerBatch(|batch|, size, limit);
    out := [];
    var offset := 0;
    ghost var n := 0;
    while offset < |batch|
      invariant 0 <= offset <= |batch|
      invariant offset < |batch| ==> offset == n * rowsPerBatch
      invariant out == Pieces(batch[..offset], rowsPerBatch)
    {
      var length := if rowsPerBatch < |batch| - offset then rowsPerBatch else |batch| - offset;
      var piece := batch[offset..offset + length];
      PiecesSnoc(batch[..offset], piece, rowsPerBatch, n);
      assert batch[..offset] + piece == batch[..offset + length];
      out := out + [piece];
      assert (n + 1) * rowsPerBatch == n * rowsPerBatch + rowsPerBatch;
      offset := offset + length;
      n := n + 1;
    }
    assert batch[..offset] == batch;
    PiecesFlatten(batch, rowsPerBatch);
    PiecesFull(batch, rowsPerBatch);
    forall i | 0 <= i < |out| ensures WithinLimit(|out[i]|, |batch|, size, limit) {
      PieceShare(|out[i]|, |batch|, size, limit);
    }
    if |batch| >= BatchCount(size, limit) { PieceCountLeast(batch, size, limit); }
  }

  /** Arithmetic only: `count` pieces of `per` rows, the last possibly shorter. */
  lemma CountBelow(count: nat, most: nat, rows: nat, per: nat)
    requires (count - 1) * per < rows <= most * per
    ensures count <= most
  {
    if count > most { MulOrder(most, count - 1, per); }
  }

  lemma FewerThanTwice(rows: nat, n: nat, per: nat)
    requires n > 0 && per == if rows / n < 1 then 1 else rows / n
    ensures rows <= (2 * n - 1) * per
    ensures rows % n == 0 ==> rows <= n * per
  {
    DivDef(rows, n);
    if rows / n >= 1 {
      MulOrder(1, per, n - 1);
      assert (2 * n - 1) * per == n * per + (n - 1) * per;
    }
  }

  /** Aiming at `n` pieces gives at most `2n - 1`, because rows per piece round down; `n` if `n` divides the rows. */
  lemma PieceCount<R>(batch: seq<R>, size: nat, limit: Limit)
    ensures var count := |Pieces(batch, RowsPerBatch(|batch|, size, limit))|;
            && count <= 2 * BatchCount(size, limit) - 1
            && (|batch| % BatchCount(size, limit) == 0 ==> count <= BatchCount(size, limit))
  {
    var n := BatchCount(size, limit);
    var per := RowsPerBatch(|batch|, size, limit);
    PiecesNeeded(batch, per);
    if batch != [] {
      FewerThanTwice(|batch|, n, per);
      CountBelow(|Pieces(batch, per)|, 2 * n - 1, |batch|, per);
      if |batch| % n == 0 { CountBelow(|Pieces(batch, per)|, n, |batch|, per); }
    }
  }

  /** The bound is reached: `2n - 1` rows give as many pieces of one row. */
  lemma PieceCountReached(n: nat)
    requires n > 0
    ensures |Pieces(seq(2 * n - 1, i => i), RowsPerBatch(2 * n - 1, n, 1))| == 2 * n - 1
    ensures BatchCount(n, 1) == n
  {
    DivUnique(2 * n - 1, n, 1);
    PiecesNeeded(seq(2 * n - 1, i => i), 1);
  }

  /** The room reserved for `n + 1` pieces is enough if and only if that many pieces can hold the rows. */
  lemma ReservedEnough<R>(batch: seq<R>, size: nat, limit: Limit)
    ensures var n, per := BatchCount(size, limit), RowsPerBatch(|batch|, size, limit);
            |Pieces(batch, per)| <= n + 1 <==> |batch| <= (n + 1) * per
  {
    var n, per := BatchCount(size, limit), RowsPerBatch(|batch|, size, limit);
    var count := |Pieces(batch, per)|;
    PiecesNeeded(batch, per);
    if count <= n + 1 { MulOrder(count, n + 1, per); }
    if batch != [] && |batch| <= (n + 1) * per { CountBelow(count, n + 1, |batch|, per); }
  }

  /** From an aim of three pieces on it can be too small: a batch of `n` limits in size with `2n - 1` rows. */
  lemma ReservedExceeded(n: nat)
    requires n >= 3
    ensures BatchCount(n, 1) == n
    ensures |Pieces(seq(2 * n - 1, i => i), RowsPerBatch(2 * n - 1, n, 1))| > n + 1
  {
    PieceCountReached(n);
  }

  // ---- Encoding ----

  datatype FlightData<+R> = Schema | Rows(rows: seq<R>) | Metadata(number: nat)

  /** A way to cut batches. */
  type Cutting<!R> = seq<R> -> seq<seq<R>>

  /** Cutting by a limit, given the memory size of each batch. */
  function CutBySize<R>(limit: Limit, sizeOf: seq<R> -> nat): Cutting<R> {
    batch => Pieces(batch, RowsPerBatch(|batch|, sizeOf(batch), limit))
  }

  ghost predicate Lossless<R(!new)>(cut: Cutting<R>) {
    forall batch :: Flatten(cut(batch)) == batch
  }

  lemma CutBySizeLossless<R(!new)>(limit: Limit, sizeOf: seq<R> -> nat)
    ensures Lossless(CutBySize(limit, sizeOf))
  {
    forall batch ensures Flatten(CutBySize(limit, sizeOf)(batch)) == batch {
      PiecesFlatten(batch, RowsPerBatch(|batch|, sizeOf(batch), limit));
    }
  }

  function RowMessages<R>(pieces: seq<seq<R>>): seq<FlightData<R>> {
    seq(|pieces|, i requires 0 <= i < |pieces| => Rows(pieces[i]))
  }

  lemma RowMessagesNext<R>(pieces: seq<seq<R>>, i: nat)
    requires i < |pieces|
    ensures RowMessages(pieces[..i + 1]) == RowMessages(pieces[..i]) + [Rows(pieces[i])]
  {
  }

  function BatchMessages<R>(batch: seq<R>, known: bool, cut: Cutting<R>): seq<FlightData<R>>
  {
    (if known then [] else [Schema]) + RowMessages(cut(batch))
  }

  function Oks<T>(s: seq<T>): seq<Outcome<T>> {
    seq(|s|, i requires 0 <= i < |s| => Ok(s[i]))
  }

  /** All messages for a stream. An error is passed on and ends the encoding. */
  function EncodeAll<R>(items: seq<Outcome<Item<seq<R>>>>, known: bool, cut: Cutting<R>): seq<Outcome<FlightData<R>>>
  {
    if items == [] then []
    else match items[0]
      case Err(e) => [Err(e)]
      case Ok(Marker(n)) => [Ok(Metadata(n))] + EncodeAll(items[1..], known, cut)
      case Ok(Batch(b)) => Oks(BatchMessages(b, known, cut)) + EncodeAll(items[1..], true, cut)
  }

  /** A nonempty piece of a batch of the stream, within its share of the limit. */
  ghost predicate PieceOf<R>(rows: seq<R>, items: seq<Outcome<Item<seq<R>>>>, limit: Limit, sizeOf: seq<R> -> nat) {
    exists i | 0 <= i < |items| ::
      && items[i].Ok? && items[i].value.Batch? && rows != []
      && WithinLimit(|rows|, |items[i].value.batch|, sizeOf(items[i].value.batch), limit)
  }

  lemma PieceOfMore<R>(rows: seq<R>, items: seq<Outcome<Item<seq<R>>>>, limit: Limit, sizeOf: seq<R> -> nat)
    requires items != [] && PieceOf(rows, items[1..], limit, sizeOf)
    ensures PieceOf(rows, items, limit, sizeOf)
  {
    var tail := items[1..];
    var i :| 0 <= i < |tail| && tail[i].Ok? && tail[i].value.Batch? && rows != [] &&
             WithinLimit(|rows|, |tail[i].value.batch|, sizeOf(tail[i].value.batch), limit);
    assert items[i + 1] == tail[i];
  }

  lemma MessageOfBatch<R>(batch: seq<R>, known: bool, limit: Limit, sizeOf: seq<R> -> nat, k: nat)
    requires var messages := BatchMessages(batch, known, CutBySize(limit, sizeOf));
             k < |messages| && messages[k].Rows?
    ensures var rows := BatchMessages(batch, known, CutBySize(limit, sizeOf))[k].rows;
            rows != [] && WithinLimit(|rows|, |batch|, sizeOf(batch), limit)
  {
    var per := RowsPerBatch(|batch|, sizeOf(batch), limit);
    var i := if known then k else k - 1;
    PiecesFull(batch, per);
    PieceShare(|Pieces(batch, per)[i]|, |batch|, sizeOf(batch), limit);
  }

  /** Every message with rows is a nonempty piece of a batch and has at most its share of the limit, or one row. */
  lemma {:induction false} MessagesWithinLimit<R>(items: seq<Outcome<Item<seq<R>>>>, known: bool, limit: Limit,
                                                  sizeOf: seq<R> -> nat, k: nat)
    ensures var messages := EncodeAll(items, known, CutBySize(limit, sizeOf));
            k < |messages| && messages[k].Ok? && messages[k].value.Rows? ==>
              PieceOf(messages[k].value.rows, items, limit, sizeOf)
  {
    var cut := CutBySize(limit, sizeOf);
    var messages := EncodeAll(items, known, cut);
    if k < |messages| && messages[k].Ok? && messages[k].value.Rows? {
      var rows := messages[k].value.rows;
      var batch := if items[0].value.Batch? then items[0].value.batch else [];
      var head := if items[0].value.Batch? then Oks(BatchMessages(batch, known, cut)) else [messages[0]];
      if k < |head| {
        MessageOfBatch(batch, known, limit, sizeOf, k);
      } else {
        MessagesWithinLimit(items[1..], known || items[0].value.Batch?, limit, sizeOf, k - |head|);
        PieceOfMore(rows, items, limit, sizeOf);
      }
    }
  }

  /** What is still to be emitted: the queue, then what the rest of the stream will add. */
  ghost function Unsent<R>(queue: seq<FlightData<R>>, done: bool, inner: seq<Outcome<Item<seq<R>>>>, known: bool,
                            cut: Cutting<R>): seq<Outcome<FlightData<R>>>
  {
    Oks(queue) + if done then [] else EncodeAll(inner, known, cut)
  }

  lemma UnsentPop<R>(queue: seq<FlightData<R>>, done: bool, inner: seq<Outcome<Item<seq<R>>>>, known: bool,
                      cut: Cutting<R>)
    requires queue != []
    ensures Unsent(queue, done, inner, known, cut) ==
            [Ok(queue[0])] + Unsent(queue[1..], done, inner, known, cut)
  {
    assert Oks(queue) == [Ok(queue[0])] + Oks(queue[1..]);
    Regroup(Ok(queue[0]), Oks(queue[1..]), if done then [] else EncodeAll(inner, known, cut));
  }

  lemma Regroup<T>(head: T, a: seq<T>, b: seq<T>)
    ensures [head] + a + b == [head] + (a + b)
  {
  }

  lemma UnsentDone<R>(inner: seq<Outcome<Item<seq<R>>>>, known: bool, cut: Cutting<R>)
    ensures Unsent([], true, inner, known, cut) == []
    ensures inner == [] ==> Unsent([], false, inner, known, cut) == []
  {
  }

  /** Taking one item from the stream when the queue is empty. */
  lemma UnsentTake<R>(inner: seq<Outcome<Item<seq<R>>>>, known: bool, cut: Cutting<R>)
    requires inner != []
    ensures Unsent([], false, inner, known, cut) ==
            match inner[0]
            case Err(e) => [Err(e)]
            case Ok(Marker(n)) => [Ok(Metadata(n))] + Unsent([], false, inner[1..], known, cut)
            case Ok(Batch(b)) => Unsent(BatchMessages(b, known, cut), false, inner[1..], true, cut)
  {
    assert Oks<FlightData<R>>([]) == [];
  }

  /** The first error of encoding the pieces of a batch one after the other. */
  function FirstFault<R>(pieces: seq<seq<R>>, fault: seq<R> -> Option<string>): Option<string> {
    if pieces == [] then None
    else if fault(pieces[0]).Some? then fault(pieces[0])
    else FirstFault(pieces[1..], fault)
  }

  /** It is the error of the first piece that cannot be encoded, and absent only if all can. */
  lemma {:induction false} FirstFaultIs<R>(pieces: seq<seq<R>>, fault: seq<R> -> Option<string>, i: nat)
    ensures i < |pieces| && fault(pieces[i]).Some? && (forall j | 0 <= j < i :: fault(pieces[j]).None?) ==>
              FirstFault(pieces, fault) == fault(pieces[i])
    ensures FirstFault(pieces, fault).None? ==> forall j | 0 <= j < |pieces| :: fault(pieces[j]).None?
  {
    if pieces != [] {
      FirstFaultIs(pieces[1..], fault, if i > 0 then i - 1 else 0);
      assert forall j | 0 < j < |pieces| :: pieces[j] == pieces[1..][j - 1];
    }
  }

  function CheckedItem<R>(item: Outcome<Item<seq<R>>>, cut: Cutting<R>, fault: seq<R> -> Option<string>)
    : Outcome<Item<seq<R>>>
  {
    if item.Ok? && item.value.Batch? && FirstFault(cut(item.value.batch), fault).Some?
    then Err(FirstFault(cut(item.value.batch), fault).value) else item
  }

  /** The stream with an error in the place of each batch that cannot be encoded. */
  function Checked<R>(items: seq<Outcome<Item<seq<R>>>>, cut: Cutting<R>, fault: seq<R> -> Option<string>)
    : seq<Outcome<Item<seq<R>>>>
  {
    seq(|items|, i requires 0 <= i < |items| => CheckedItem(items[i], cut, fault))
  }

  /** None of the batches fails. */
  ghost predicate NoFault<R>(items: seq<Item<seq<R>>>, cut: Cutting<R>, fault: seq<R> -> Option<string>) {
    forall i | 0 <= i < |items| && items[i].Batch? :: FirstFault(cut(items[i].batch), fault).None?
  }

  lemma NoFaultCons<R>(head: Item<seq<R>>, tail: seq<Item<seq<R>>>, cut: Cutting<R>, fault: seq<R> -> Option<string>)
    ensures NoFault([head] + tail, cut, fault) <==>
            NoFault(tail, cut, fault) && (head.Batch? ==> FirstFault(cut(head.batch), fault).None?)
  {
    var all := [head] + tail;
    assert all[0] == head && forall i | 0 <= i < |tail| :: tail[i] == all[i + 1];
    assert forall i | 0 < i < |all| :: all[i] == tail[i - 1];
  }

  /**
   A batch that cannot be encoded only cuts the stream short. Everything before the stream's own first error, and that
   error, get through if and only if none of the batches before it fails.
   */
  lemma {:induction false} CheckedKeeps<R>(items: seq<Outcome<Item<seq<R>>>>, cut: Cutting<R>,
                                           fault: seq<R> -> Option<string>)
    ensures Clean(Checked(items, cut, fault)) <= Clean(items)
    ensures Clean(Checked(items, cut, fault)) == Clean(items) <==> NoFault(Clean(items), cut, fault)
    ensures NoFault(Clean(items), cut, fault) ==> Failure(Checked(items, cut, fault)) == Failure(items)
  {
    if items != [] && items[0].Ok? {
      CheckedKeeps(items[1..], cut, fault);
      NoFaultCons(items[0].value, Clean(items[1..]), cut, fault);
      assert Checked(items, cut, fault)[1..] == Checked(items[1..], cut, fault);
    }
  }

  class FlightDataEncoder<R> {
    /** What the inner stream has still to yield. */
    var inner: seq<Outcome<Item<seq<R>>>>
    var schemaKnown: bool
    var queue: seq<FlightData<R>>
    var done: bool
    const limit: Limit
    const sizeOf: seq<R> -> nat
    /** Whether and how encoding a piece fails. */
    const fault: seq<R> -> Option<string>
    /** How batches are cut: by size, up to the limit. */
    ghost const cut: Cutting<R>

    ghost predicate Valid() {
      cut == CutBySize(limit, sizeOf)
    }

    /** What is still to be emitted. */
    ghost function Remaining(): seq<Outcome<FlightData<R>>>
      reads this
    {
      Unsent(queue, done, Checked(inner, cut, fault), schemaKnown, cut)
    }

    constructor (items: seq<Outcome<Item<seq<R>>>>, limit: Limit, sizeOf: seq<R> -> nat,
                 fault: seq<R> -> Option<string>)
      ensures Valid() && this.limit == limit && this.sizeOf == sizeOf && this.fault == fault
      ensures var cut := CutBySize(limit, sizeOf); Remaining() == EncodeAll(Checked(items, cut, fault), false, cut)
    {
      inner, schemaKnown, queue, done := items, false, [], false;
      this.limit, this.sizeOf, this.fault, cut := limit, sizeOf, fault, CutBySize(limit, sizeOf);
    }

    method CutBatch(batch: seq<R>) returns (pieces: seq<seq<R>>)
      requires Valid()
      ensures pieces == cut(batch)
    {
      pieces := SplitBatchForGrpcResponse(batch, sizeOf(batch), limit);
    }

    /** Queues the schema if it was not sent, then the pieces in order, or stops at the first that fails. */
    method EncodeBatch(batch: seq<R>) returns (r: Outcome<()>)
      requires Valid()
      modifies this`queue, this`schemaKnown
      ensures match FirstFault(cut(batch), fault)
              case None =>
                r == Ok(()) && queue == old(queue) + BatchMessages(batch, old(schemaKnown), cut) && schemaKnown
              case Some(e) => r == Err(e)
    {
      if !schemaKnown {
        queue := queue + [Schema];
        schemaKnown := true;
      }
      ghost var start := queue;
      var pieces := CutBatch(batch);
      for i := 0 to |pieces|
        invariant schemaKnown
        invariant FirstFault(pieces, fault) == FirstFault(pieces[i..], fault)
        invariant queue == start + RowMessages(pieces[..i])
      {
        assert pieces[i..][1..] == pieces[i + 1..];
        var fails := fault(pieces[i]);
        if fails.Some? {
          return Err(fails.value);
        }
        RowMessagesNext(pieces, i);
        queue := queue + [Rows(pieces[i])];
      }
      assert pieces[..|pieces|] == pieces;
      return Ok(());
    }

    /** The next item of the inner stream: it is emitted at once, or goes into the queue. */
    method TakeItem() returns (emitted: Option<Outcome<FlightData<R>>>)
      requires Valid() && queue == [] && !done && inner != []
      modifies this
      ensures inner == old(inner)[1..]
      ensures old(Remaining()) == if emitted.Some? then [emitted.value] + Remaining() else Remaining()
    {
      ghost var checked := Checked(inner, cut, fault);
      UnsentTake(checked, schemaKnown, cut);
      var item := inner[0];
      inner := inner[1..];
      assert checked[1..] == Checked(inner, cut, fault);
      match item
      case Err(e) =>
        emitted := Fail(e);
      case Ok(Batch(b)) =>
        var r := EncodeBatch(b);
        if r.Err? {
          emitted := Fail(r.message);
        } else {
          assert queue == BatchMessages(b, old(schemaKnown), cut);
          emitted := None;
        }
      case Ok(Marker(n)) =>
        emitted := Some(Ok(Metadata(n)));
    }

    /** An error ends the encoding and throws away what was queued. */
    method Fail(e: string) returns (emitted: Option<Outcome<FlightData<R>>>)
      modifies this`done, this`queue
      ensures emitted == Some(Err(e)) && Remaining() == []
    {
      done := true;
      queue := [];
      UnsentDone(Checked(inner, cut, fault), schemaKnown, cut);
      return Some(Err(e));
    }

    /**
     One poll, during which the inner stream can be polled `available` times before it is pending; its end counts.
     Whatever is emitted is the head of what was to be emitted.
     */
    method PollNext(available: nat) returns (poll: Poll<Outcome<FlightData<R>>>)
      requires Valid()
      modifies this
      ensures match poll
              case Ready(Some(message)) => old(Remaining()) == [message] + Remaining()
              case Ready(None) => old(Remaining()) == [] && Remaining() == [] && done
              case Pending => Remaining() == old(Remaining()) && queue == [] && available <= |old(inner)|
    {
      var left := available;
      while true
        invariant Remaining() == old(Remaining())
        invariant available - left == |old(inner)| - |inner|
        decreases |inner|
      {
        if done && queue == [] {
          UnsentDone(Checked(inner, cut, fault), schemaKnown, cut);
          return Ready(None);
        }
        if queue != [] {
          UnsentPop(queue, done, Checked(inner, cut, fault), schemaKnown, cut);
          var data := queue[0];
          queue := queue[1..];
          return Ready(Some(Ok(data)));
        }
        if left == 0 {
          return Pending;
        }
        left := left - 1;
        if inner == [] {
          UnsentDone(Checked(inner, cut, fault), schemaKnown, cut);
          done := true;
          return Ready(None);
        }
        var emitted := TakeItem();
        if emitted.Some? {
          return Ready(emitted);
        }
      }
    }
  }

  // ---- Decoding ----

  /** A batch cannot be decoded before a schema has been seen; schema messages themselves yield nothing. */
  function DecodeAll<R>(messages: seq<Outcome<FlightData<R>>>, known: bool): seq<Outcome<Item<seq<R>>>> {
    if messages == [] then []
    else match messages[0]
      case Err(e) => [Err(e)] + DecodeAll(messages[1..], known)
      case Ok(Schema) => DecodeAll(messages[1..], true)
      case Ok(Rows(rows)) =>
        [if known then Ok(Batch(rows)) else Err(NO_SCHEMA)] + DecodeAll(messages[1..], known)
      case Ok(Metadata(n)) => [Ok(Marker(n))] + DecodeAll(messages[1..], known)
  }

  const NO_SCHEMA := "batch before schema"

  /** Without a schema the rows of every message are refused, and everything else is passed on. */
  lemma {:induction false} DecodeNeedsSchema<R>(messages: seq<Outcome<FlightData<R>>>, k: nat)
    requires forall i | 0 <= i < |messages| :: messages[i] != Ok(Schema)
    ensures |DecodeAll(messages, false)| == |messages|
    ensures k < |messages| ==>
              DecodeAll(messages, false)[k] ==
              match messages[k]
              case Err(e) => Err(e)
              case Ok(Metadata(n)) => Ok(Marker(n))
              case Ok(_) => Err(NO_SCHEMA)
  {
    if messages != [] { DecodeNeedsSchema(messages[1..], if k > 0 then k - 1 else 0); }
  }

  /** The items before the first error. */
  function Clean<T>(items: seq<Outcome<T>>): seq<T> {
    if items == [] || items[0].Err? then [] else [items[0].value] + Clean(items[1..])
  }

  /** The first error. */
  function Failure<T>(items: seq<Outcome<T>>): Option<string> {
    if items == [] then None
    else if items[0].Err? then Some(items[0].message)
    else Failure(items[1..])
  }

  function AsBatches<R>(pieces: seq<seq<R>>): seq<Item<seq<R>>> {
    seq(|pieces|, i requires 0 <= i < |pieces| => Batch(pieces[i]))
  }

  lemma {:induction false} DecodePieces<R>(pieces: seq<seq<R>>, rest: seq<Outcome<FlightData<R>>>)
    ensures DecodeAll(Oks(RowMessages(pieces)) + rest, true) == Oks(AsBatches(pieces)) + DecodeAll(rest, true)
  {
    if pieces == [] {
      assert Oks(RowMessages(pieces)) + rest == rest;
    } else {
      DecodePieces(pieces[1..], rest);
      var messages := Oks(RowMessages(pieces)) + rest;
      assert messages[1..] == Oks(RowMessages(pieces[1..])) + rest;
      assert Oks(AsBatches(pieces)) == [Ok(Batch(pieces[0]))] + Oks(AsBatches(pieces[1..]));
    }
  }

  lemma DecodeSchema<R>(rest: seq<Outcome<FlightData<R>>>, known: bool)
    ensures DecodeAll([Ok(Schema)] + rest, known) == DecodeAll(rest, true)
  {
    assert ([Ok(Schema)] + rest)[1..] == rest;
  }

  lemma BatchParts<R>(batch: seq<R>, known: bool, cut: Cutting<R>)
    ensures Oks(BatchMessages(batch, known, cut)) == (if known then [] else [Ok(Schema)]) + Oks(RowMessages(cut(batch)))
  {
  }

  lemma DecodeBatch<R>(batch: seq<R>, known: bool, cut: Cutting<R>, rest: seq<Outcome<FlightData<R>>>)
    ensures DecodeAll(Oks(BatchMessages(batch, known, cut)) + rest, known) ==
            Oks(AsBatches(cut(batch))) + DecodeAll(rest, true)
  {
    var pieces := Oks(RowMessages(cut(batch)));
    DecodePieces(cut(batch), rest);
    BatchParts(batch, known, cut);
    if known {
      assert [] + pieces == pieces;
    } else {
      Regroup(Ok(Schema), pieces, rest);
      DecodeSchema(pieces + rest, known);
    }
  }

  lemma {:induction false} CleanBefore<T>(good: seq<T>, rest: seq<Outcome<T>>)
    ensures Clean(Oks(good) + rest) == good + Clean(rest)
    ensures Failure(Oks(good) + rest) == Failure(rest)
  {
    var all := Oks(good) + rest;
    if good == [] {
      assert all == rest;
    } else {
      CleanBefore(good[1..], rest);
      assert all[1..] == Oks(good[1..]) + rest;
    }
  }

  lemma {:induction false} MarkersBefore<R>(pieces: seq<seq<R>>, rest: seq<Item<seq<R>>>)
    ensures Markers(AsBatches(pieces) + rest) == Markers(rest)
  {
    var all := AsBatches(pieces) + rest;
    if pieces == [] {
      assert all == rest;
    } else {
      MarkersBefore(pieces[1..], rest);
      assert all[1..] == AsBatches(pieces[1..]) + rest;
    }
  }

  lemma EpochHead<R>(batch: seq<R>, rest: seq<Item<seq<R>>>, k: nat)
    ensures Exchange.EpochRows([Batch(batch)] + rest, k) == (if k == 0 then batch else []) + Exchange.EpochRows(rest, k)
  {
    assert ([Batch(batch)] + rest)[1..] == rest;
  }

  /** Several batches before a stream add their rows to its first epoch and change nothing else. */
  lemma {:induction false} EpochBefore<R>(pieces: seq<seq<R>>, rest: seq<Item<seq<R>>>, k: nat)
    ensures Exchange.EpochRows(AsBatches(pieces) + rest, k) ==
            (if k == 0 then Flatten(pieces) else []) + Exchange.EpochRows(rest, k)
  {
    var all := AsBatches(pieces) + rest;
    var epoch := Exchange.EpochRows(rest, k);
    if pieces == [] {
      assert all == rest && [] + epoch == epoch;
    } else {
      EpochBefore(pieces[1..], rest, k);
      EpochHead(pieces[0], AsBatches(pieces[1..]) + rest, k);
      assert all == [Batch(pieces[0])] + (AsBatches(pieces[1..]) + rest);
      Associate(if k == 0 then pieces[0] else [], if k == 0 then Flatten(pieces[1..]) else [], epoch);
    }
  }

  /**
   The wire round trip, for every stream, with or without errors: the same markers in the same order, the same rows
   in every epoch in the same order, and the same error at the end if there is one. Batch boundaries may differ.
   */
  lemma {:induction false} RoundTrip<R(!new)>(items: seq<Outcome<Item<seq<R>>>>, known: bool, cut: Cutting<R>, k: nat)
    requires Lossless(cut)
    ensures var out := DecodeAll(EncodeAll(items, known, cut), known);
            && Markers(Clean(out)) == Markers(Clean(items))
            && Exchange.EpochRows(Clean(out), k) == Exchange.EpochRows(Clean(items), k)
            && Failure(out) == Failure(items)
  {
    if items != [] && items[0].Ok? {
      var rest := items[1..];
      var clean := Clean(items);
      assert clean[1..] == Clean(rest);
      match items[0].value
      case Marker(n) =>
        RoundTrip(rest, known, cut, if k == 0 then 0 else k - 1);
        var encoded := EncodeAll(items, known, cut);
        assert encoded[1..] == EncodeAll(rest, known, cut);
        var out := DecodeAll(encoded, known);
        assert out[1..] == DecodeAll(encoded[1..], known);
        assert Clean(out)[1..] == Clean(out[1..]);
      case Batch(b) =>
        RoundTrip(rest, true, cut, k);
        var tail := EncodeAll(rest, true, cut);
        DecodeBatch(b, known, cut, tail);
        var out := DecodeAll(tail, true);
        CleanBefore(AsBatches(cut(b)), out);
        MarkersBefore(cut(b), Clean(out));
        EpochBefore(cut(b), Clean(out), k);
        assert Flatten(cut(b)) == b;
    }
  }

  /**
   The same for what the encoder emits of a stream from its start, where a batch that cannot be encoded is an error in
   its place.
   */
  lemma WireRoundTrip<R(!new)>(items: seq<Outcome<Item<seq<R>>>>, limit: Limit, sizeOf: seq<R> -> nat,
                               fault: seq<R> -> Option<string>, k: nat)
    ensures var cut := CutBySize(limit, sizeOf);
            var sent := Checked(items, cut, fault);
            var out := DecodeAll(EncodeAll(sent, false, cut), false);
            && Markers(Clean(out)) == Markers(Clean(sent))
            && Exchange.EpochRows(Clean(out), k) == Exchange.EpochRows(Clean(sent), k)
            && Failure(out) == Failure(sent)
  {
    CutBySizeLossless(limit, sizeOf);
    RoundTrip(Checked(items, CutBySize(limit, sizeOf), fault), false, CutBySize(limit, sizeOf), k);
  }

  /** How many schema messages a stream holds. */
  function Schemas<R>(messages: seq<Outcome<FlightData<R>>>): nat {
    if messages == [] then 0 else (if messages[0] == Ok(Schema) then 1 else 0) + Schemas(messages[1..])
  }

  lemma {:induction false} SchemasAppend<R>(a: seq<Outcome<FlightData<R>>>, b: seq<Outcome<FlightData<R>>>)
    ensures Schemas(a + b) == Schemas(a) + Schemas(b)
  {
    if a == [] {
      assert a + b == b;
    } else {
      SchemasAppend(a[1..], b);
      assert (a + b)[1..] == a[1..] + b;
    }
  }

  lemma {:induction false} RowsHoldNoSchema<R>(pieces: seq<seq<R>>, i: nat)
    requires i <= |pieces|
    ensures Schemas(Oks(RowMessages(pieces))[..i]) == 0
  {
    if i > 0 {
      RowsHoldNoSchema(pieces[1..], i - 1);
      assert Oks(RowMessages(pieces))[..i][1..] == Oks(RowMessages(pieces[1..]))[..i - 1];
    }
  }

  lemma BatchSchema<R>(batch: seq<R>, known: bool, cut: Cutting<R>, i: nat)
    requires i <= |BatchMessages(batch, known, cut)|
    ensures Schemas(Oks(BatchMessages(batch, known, cut))[..i]) == if known || i == 0 then 0 else 1
  {
    var pieces := cut(batch);
    var head := Oks(BatchMessages(batch, known, cut));
    if known {
      RowsHoldNoSchema(pieces, i);
      assert head == Oks(RowMessages(pieces));
    } else if i > 0 {
      RowsHoldNoSchema(pieces, i - 1);
      assert head[..i][1..] == Oks(RowMessages(pieces))[..i - 1];
    }
  }

  /** Among the first `i` messages at most one schema, exactly one if a batch message follows, none if known before. */
  ghost predicate SchemaAt<R>(sent: seq<Outcome<FlightData<R>>>, known: bool, i: nat) {
    && i <= |sent|
    && Schemas(sent[..i]) <= (if known then 0 else 1)
    && (i < |sent| && sent[i].Ok? && sent[i].value.Rows? ==> Schemas(sent[..i]) == if known then 0 else 1)
  }

  lemma SchemaAtMarker<R>(n: nat, tail: seq<Outcome<FlightData<R>>>, known: bool, i: nat)
    requires i > 0 && SchemaAt(tail, known, i - 1)
    ensures SchemaAt([Ok(Metadata(n))] + tail, known, i)
  {
    var sent := [Ok(Metadata(n))] + tail;
    assert sent[..i][1..] == tail[..i - 1];
  }

  lemma SchemaAtBatch<R>(batch: seq<R>, cut: Cutting<R>, tail: seq<Outcome<FlightData<R>>>, known: bool, i: nat)
    requires 0 < i <= |BatchMessages(batch, known, cut)| + |tail|
    requires i > |BatchMessages(batch, known, cut)| ==> SchemaAt(tail, true, i - |BatchMessages(batch, known, cut)|)
    ensures SchemaAt(Oks(BatchMessages(batch, known, cut)) + tail, known, i)
  {
    var head := Oks(BatchMessages(batch, known, cut));
    if i <= |head| {
      BatchSchema(batch, known, cut, i);
      assert (head + tail)[..i] == head[..i];
    } else {
      BatchSchema(batch, known, cut, |head|);
      SchemasAppend(head, tail[..i - |head|]);
      assert head[..|head|] == head && (head + tail)[..i] == head + tail[..i - |head|];
    }
  }

  /** So one schema message comes before all batch messages of a stream, and there is no other. */
  lemma {:induction false} SchemaOnce<R>(items: seq<Outcome<Item<seq<R>>>>, known: bool, cut: Cutting<R>, i: nat)
    requires i <= |EncodeAll(items, known, cut)|
    ensures SchemaAt(EncodeAll(items, known, cut), known, i)
  {
    if i > 0 && items[0].Ok? {
      match items[0].value
      case Marker(n) =>
        SchemaOnce(items[1..], known, cut, i - 1);
        SchemaAtMarker(n, EncodeAll(items[1..], known, cut), known, i);
      case Batch(b) =>
        var n := |BatchMessages(b, known, cut)|;
        if i > n { SchemaOnce(items[1..], true, cut, i - n); }
        SchemaAtBatch(b, cut, EncodeAll(items[1..], true, cut), known, i);
    }
  }
}
