/**
 The source operator: a fixed list of items emitted for a number of iterations, with the markers renumbered so that
 iteration `i` continues where iteration `i - 1` stopped, and the inverse of that numbering used to load a checkpoint.
 */
module Source {
  import opened Wrappers
  import opened Streams
  import opened Arithmetic

  const NO_MARKERS := "No markers found in source operator items"
  const NO_SUCH_MARKER := "No marker found for checkpoint"
  /** The remainder by a largest marker of zero panics. */
  const ZERO_DIVISOR := "attempt to calculate the remainder with a divisor of zero"

  function MaxMarker<B>(items: seq<Item<B>>): Option<nat> {
    if items == [] then None
    else
      var rest := MaxMarker(items[1..]);
      if items[0].Batch? || (rest.Some? && rest.value >= items[0].number) then rest else Some(items[0].number)
  }

  /** The largest marker number, if there is any marker. */
  lemma {:induction false} MaxMarkerIs<B>(items: seq<Item<B>>)
    ensures match MaxMarker(items)
            case None => forall i | 0 <= i < |items| :: items[i].Batch?
            case Some(max) =>
              && Marker(max) in items
              && forall i | 0 <= i < |items| && items[i].Marker? :: items[i].number <= max
  {
    if items != [] {
      MaxMarkerIs(items[1..]);
      assert items == [items[0]] + items[1..];
    }
  }

  function FindMarker<B>(items: seq<Item<B>>, number: nat): (r: Option<nat>)
    ensures r.Some? ==> r.value < |items| && items[r.value] == Marker(number)
  {
    if items == [] then None
    else if items[0] == Marker(number) then Some(0)
    else match FindMarker(items[1..], number)
      case None => None
      case Some(k) => Some(k + 1)
  }

  /** The first position of the marker with the given number. */
  lemma {:induction false} FindMarkerIs<B>(items: seq<Item<B>>, number: nat)
    ensures match FindMarker(items, number)
            case None => Marker(number) !in items
            case Some(k) => forall i | 0 <= i < k :: items[i] != Marker(number)
  {
    if items != [] {
      FindMarkerIs(items[1..], number);
      assert items == [items[0]] + items[1..];
    }
  }

  datatype Position = Position(offset: nat, iteration: nat)

  function Locate<B>(items: seq<Item<B>>, checkpoint: nat): Outcome<Position> {
    if checkpoint == 0 then Ok(Position(0, 0))
    else match MaxMarker(items)
      case None => Err(NO_MARKERS)
      case Some(max) =>
        if max == 0 then Err(ZERO_DIVISOR)
        else match FindMarker(items, 1 + (checkpoint - 1) % max)
          case None => Err(NO_SUCH_MARKER)
          case Some(index) => Ok(Position(index, (checkpoint - 1) / max))
  }

  function RenumberItem<B>(item: Item<B>, base: nat): Item<B> {
    if item.Marker? then Marker(base + item.number) else item
  }

  function Renumber<B>(items: seq<Item<B>>, base: nat): seq<Item<B>> {
    seq(|items|, i requires 0 <= i < |items| => RenumberItem(items[i], base))
  }

  /** How many markers the iterations before `i` hold, with `max` of them in each. */
  function MarkersBefore(i: nat, max: nat): (r: nat)
    ensures r == 0 <==> i == 0 || max == 0
  {
    if i == 0 then 0 else MarkersBefore(i - 1, max) + max
  }

  lemma {:induction false} MarkersBeforeIs(i: nat, max: nat)
    ensures MarkersBefore(i, max) == i * max
  {
    if i > 0 {
      MarkersBeforeIs(i - 1, max);
      assert i * max == (i - 1) * max + max;
    }
  }

  /** The iterations from `i` on, renumbered. */
  function Iterations<B>(items: seq<Item<B>>, max: nat, i: nat, n: nat): seq<Item<B>>
    decreases n - i
  {
    if i >= n then [] else Renumber(items, MarkersBefore(i, max)) + Iterations(items, max, i + 1, n)
  }

  /** The stream from a position: the rest of the current iteration as it is, then the iterations after it. */
  function StreamFrom<B>(items: seq<Item<B>>, n: nat, at: Position): Outcome<seq<Item<B>>>
    requires at.offset <= |items|
  {
    match MaxMarker(items)
    case None => Err(NO_MARKERS)
    case Some(max) => Ok(items[at.offset..] + Iterations(items, max, at.iteration + 1, n))
  }

  class SourceOperatorFunction<B(==)> {
    const items: seq<Item<B>>
    const numIterations: nat
    var offset: nat
    var currentIteration: nat

    ghost predicate Valid()
      reads this
    {
      offset <= |items|
    }

    constructor (items: seq<Item<B>>, numIterations: nat)
      ensures Valid() && this.items == items && this.numIterations == numIterations
      ensures offset == 0 && currentIteration == 0
    {
      this.items, this.numIterations, offset, currentIteration := items, numIterations, 0, 0;
    }

    /** A failed load leaves the position as it was. */
    method Load(checkpoint: nat) returns (r: Outcome<()>)
      requires Valid()
      modifies this
      ensures Valid()
      ensures match Locate(items, checkpoint)
              case Ok(at) => r == Ok(()) && Position(offset, currentIteration) == at
              case Err(e) => r == Err(e) && unchanged(this)
    {
      if checkpoint > 0 {
        var maxMarker := MaxMarker(items);
        if maxMarker.None? {
          return Err(NO_MARKERS);
        }
        if maxMarker.value == 0 {
          return Err(ZERO_DIVISOR);
        }
        var searchMarker := 1 + (checkpoint - 1) % maxMarker.value;
        var index := FindMarker(items, searchMarker);
        if index.None? {
          return Err(NO_SUCH_MARKER);
        }
        offset := index.value;
        currentIteration := (checkpoint - 1) / maxMarker.value;
      } else {
        offset := 0;
        currentIteration := 0;
      }
      return Ok(());
    }

    method Run() returns (r: Outcome<seq<Item<B>>>)
      requires Valid()
      ensures r == StreamFrom(items, numIterations, Position(offset, currentIteration))
    {
      var maxMarker := MaxMarker(items);
      if maxMarker.None? {
        return Err(NO_MARKERS);
      }
      var stream := items[offset..];
      var iteration := currentIteration + 1;
      while iteration < numIterations
        invariant stream + Iterations(items, maxMarker.value, iteration, numIterations) ==
                  items[offset..] + Iterations(items, maxMarker.value, currentIteration + 1, numIterations)
      {
        MarkersBeforeIs(iteration, maxMarker.value);
        stream := stream + Renumber(items, iteration * maxMarker.value);
        iteration := iteration + 1;
      }
      assert stream + [] == stream;
      return Ok(stream);
    }
  }

  // ---- Replaying ----

  /** The markers are exactly 1..m, each once, in any order. */
  ghost predicate WellMarked<B>(items: seq<Item<B>>, m: nat) {
    && m > 0
    && (forall i | 0 <= i < |items| && items[i].Marker? :: 1 <= items[i].number <= m)
    && (forall i, j | 0 <= i < j < |items| && items[i].Marker? :: items[i] != items[j])
    && (forall c: nat | 1 <= c <= m :: Marker(c) in items)
  }

  lemma WellMarkedMax<B>(items: seq<Item<B>>, m: nat)
    requires WellMarked(items, m)
    ensures MaxMarker(items) == Some(m)
  {
    MaxMarkerIs(items);
    assert Marker(m) in items;
  }

  /** What a run from the start emits: all iterations, the first included, and that one in any case. */
  function Whole<B>(items: seq<Item<B>>, m: nat, n: nat): seq<Item<B>> {
    items + Iterations(items, m, 1, n)
  }

  lemma {:induction false} IterationsSplit<B>(items: seq<Item<B>>, max: nat, i: nat, k: nat, n: nat)
    requires i <= k <= n
    ensures Iterations(items, max, i, n) == Iterations(items, max, i, k) + Iterations(items, max, k, n)
    decreases k - i
  {
    if i < k {
      IterationsSplit(items, max, i + 1, k, n);
    }
  }

  lemma WholeIsIterations<B>(items: seq<Item<B>>, m: nat, n: nat)
    ensures Whole(items, m, n) == Iterations(items, m, 0, if n == 0 then 1 else n)
  {
    assert Renumber(items, 0) == items;
    assert Iterations(items, m, 1, 1) == [];
  }

  ghost predicate Splits<B>(whole: seq<Item<B>>, before: seq<Item<B>>, items: seq<Item<B>>, base: nat,
                            rest: seq<Item<B>>) {
    whole == before + (Renumber(items, base) + rest)
  }

  /** A run from the start consists of the iterations before `k`, iteration `k`, and those after it. */
  lemma WholeSplit<B>(items: seq<Item<B>>, m: nat, n: nat, k: nat)
    requires k < n || k == 0
    ensures Splits(Whole(items, m, n), Iterations(items, m, 0, k), items, MarkersBefore(k, m),
                   Iterations(items, m, k + 1, n))
  {
    if k == 0 {
      assert Renumber(items, 0) == items;
    } else {
      WholeIsIterations(items, m, n);
      IterationsSplit(items, m, 0, k, n);
    }
  }

  lemma StreamSplit<B>(items: seq<Item<B>>, m: nat, n: nat, k: nat, o: nat)
    returns (before: seq<Item<B>>, rest: seq<Item<B>>)
    requires MaxMarker(items) == Some(m) && (k < n || k == 0) && o <= |items|
    ensures Splits(Whole(items, m, n), before, items, MarkersBefore(k, m), rest)
    ensures StreamFrom(items, n, Position(o, k)) == Ok(items[o..] + rest)
  {
    WholeSplit(items, m, n, k);
    return Iterations(items, m, 0, k), Iterations(items, m, k + 1, n);
  }

  /** Every position of the iterations is item `o` of iteration `k` for some `k` and `o`. */
  lemma {:induction false} IterationsPosition<B>(items: seq<Item<B>>, m: nat, i: nat, n: nat, p: nat)
    returns (k: nat, o: nat)
    requires i <= n && p < |Iterations(items, m, i, n)|
    ensures i <= k < n && o < |items| && p == |Iterations(items, m, i, k)| + o
    ensures Iterations(items, m, i, n)[p] == RenumberItem(items[o], MarkersBefore(k, m))
    decreases n - i
  {
    if p < |items| {
      k, o := i, p;
    } else {
      k, o := IterationsPosition(items, m, i + 1, n, p - |items|);
    }
  }

  /** In a run from the start no checkpoint number is used twice. */
  lemma WholeDistinct<B>(items: seq<Item<B>>, m: nat, n: nat, p: nat, q: nat)
    requires WellMarked(items, m)
    requires p < q < |Whole(items, m, n)| && Whole(items, m, n)[p].Marker?
    ensures Whole(items, m, n)[p] != Whole(items, m, n)[q]
  {
    var end := if n == 0 then 1 else n;
    WholeIsIterations(items, m, n);
    var k, o := IterationsPosition(items, m, 0, end, p);
    var l, r := IterationsPosition(items, m, 0, end, q);
    if items[r].Marker? {
      MarkersBeforeIs(k, m);
      MarkersBeforeIs(l, m);
      SameNumber(m, k, items[o].number, l, items[r].number);
    }
  }

  /** The numbers `k * m + j` with `j` in `1..m` are decoded in one way only. */
  lemma SameNumber(m: nat, k: nat, j: nat, l: nat, i: nat)
    requires 1 <= j <= m && 1 <= i <= m
    ensures k * m + j == l * m + i ==> k == l && j == i
    ensures (k * m + j - 1) / m == k && 1 + (k * m + j - 1) % m == j
  {
    DivUnique(k * m + j - 1, m, k);
    DivUnique(l * m + i - 1, m, l);
  }

  ghost predicate FirstAt<B>(items: seq<Item<B>>, p: nat, number: nat) {
    p < |items| && items[p] == Marker(number) && forall i | 0 <= i < p :: items[i] != Marker(number)
  }

  /**
   Which position a checkpoint number denotes, for any items: the first marker `j` of iteration `k`, with `k * max + j`
   the number and `j` from 1 to the largest marker. It fails exactly if the items hold no such marker.
   */
  lemma LocateExactly<B>(items: seq<Item<B>>, max: nat, k: nat, j: nat)
    requires MaxMarker(items) == Some(max) && 1 <= j <= max
    ensures var found := Locate(items, k * max + j);
            if Marker(j) in items then found.Ok? && found.value.iteration == k && FirstAt(items, found.value.offset, j)
            else found == Err(NO_SUCH_MARKER)
  {
    DivUnique(k * max + j - 1, max, k);
    FindMarkerIs(items, j);
  }

  /** Loading undoes the numbering: checkpoint `k * m + j` is marker `j` of iteration `k`. */
  lemma LoadInverts<B>(items: seq<Item<B>>, m: nat, k: nat, j: nat)
    requires WellMarked(items, m) && 1 <= j <= m
    ensures Locate(items, k * m + j).Ok?
    ensures var at := Locate(items, k * m + j).value;
            at.iteration == k && at.offset < |items| && items[at.offset] == Marker(j)
  {
    WellMarkedMax(items, m);
    SameNumber(m, k, j, k, j);
    FindMarkerIs(items, j);
  }

  lemma {:induction false} RenumberBatches<B>(items: seq<Item<B>>, base: nat)
    ensures Batches(Renumber(items, base)) == Batches(items)
  {
    if items != [] {
      RenumberBatches(items[1..], base);
      assert Renumber(items, base)[1..] == Renumber(items[1..], base);
    }
  }

  /**
   Replaying the stream `whole` from its marker `number` at position `p`: the replay holds exactly the batches from
   `p` on, and the same markers too if and only if it is `exact`. Its first item is marker `j`.
   */
  ghost predicate ReplaysFrom<B>(whole: seq<Item<B>>, p: nat, replay: seq<Item<B>>, number: nat, j: nat, exact: bool) {
    && p < |whole| && whole[p] == Marker(number)
    && Batches(replay) == Batches(whole[p..])
    && (replay == whole[p..] <==> exact)
    && |replay| == |whole| - p && replay[0] == Marker(j)
  }

  lemma ReplayAt<B>(items: seq<Item<B>>, m: nat, n: nat, k: nat, j: nat, o: nat) returns (p: nat)
    requires MaxMarker(items) == Some(m) && m > 0 && (k < n || k == 0)
    requires o < |items| && items[o] == Marker(j)
    ensures StreamFrom(items, n, Position(o, k)).Ok?
    ensures ReplaysFrom(Whole(items, m, n), p, StreamFrom(items, n, Position(o, k)).value,
                        MarkersBefore(k, m) + j, j, k == 0)
  {
    var before, rest := StreamSplit(items, m, n, k, o);
    ReplayFrom(items, Whole(items, m, n), before, rest, MarkersBefore(k, m), j, o, k == 0);
    p := |before| + o;
  }

  /**
   The stream after loading checkpoint `c = k * m + j` replays the run from the start from its marker `c` on, with the
   same markers if and only if `k` is zero: the rest of a later iteration is emitted under the numbers of iteration 0.
   */
  lemma ReplayExact<B>(items: seq<Item<B>>, m: nat, n: nat, k: nat, j: nat, c: nat) returns (p: nat)
    requires WellMarked(items, m) && 1 <= j <= m && (k < n || k == 0) && c == k * m + j
    ensures Locate(items, c).Ok? && Locate(items, c).value.offset <= |items|
    ensures StreamFrom(items, n, Locate(items, c).value).Ok?
    ensures ReplaysFrom(Whole(items, m, n), p, StreamFrom(items, n, Locate(items, c).value).value, c, j, k == 0)
  {
    LoadInverts(items, m, k, j);
    WellMarkedMax(items, m);
    MarkersBeforeIs(k, m);
    p := ReplayAt(items, m, n, k, j, Locate(items, c).value.offset);
  }

  /** Cutting a stream at item `o` of a renumbered list, against emitting that list from `o` on without renumbering. */
  lemma ReplayFrom<B>(items: seq<Item<B>>, whole: seq<Item<B>>, before: seq<Item<B>>, rest: seq<Item<B>>,
                      base: nat, j: nat, o: nat, exact: bool)
    requires Splits(whole, before, items, base, rest)
    requires o < |items| && items[o] == Marker(j) && (exact <==> base == 0)
    ensures ReplaysFrom(whole, |before| + o, items[o..] + rest, base + j, j, exact)
  {
    var head := items[o..];
    var replay, kept := head + rest, whole[|before| + o..];
    assert kept == Renumber(head, base) + rest;
    RenumberBatches(head, base);
    BatchesAppend(head, rest);
    BatchesAppend(Renumber(head, base), rest);
    assert replay[0] == Marker(j) && kept[0] == Marker(base + j);
    if base == 0 {
      assert Renumber(head, 0) == head;
    }
  }
}
