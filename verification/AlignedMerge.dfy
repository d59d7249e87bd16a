/**
 Merging several inputs into one stream while keeping their checkpoint markers aligned.

 An input that yields a marker is blocked until every other input has reached its marker or ended.
 The shuffled polling order and the set of inputs that are ready are parameters of each poll.
 */
module AlignedMerge {
  import opened Wrappers
  import opened Streams

  /** A merged item: a batch (or error) of the input at position `source`, or a marker for all inputs. */
  datatype Merged<+B> = Item(source: nat, ordinal: nat, batch: B) | Mark(number: nat)

  datatype InputStream<B> = InputStream(ordinal: nat, blocked: bool, rest: seq<Streams.Item<B>>)

  datatype State<B> = State(inputs: seq<InputStream<B>>, currentCheckpoint: Option<nat>)

  function Start<B>(sources: seq<(nat, seq<Streams.Item<B>>)>): State<B> {
    State(seq(|sources|, i requires 0 <= i < |sources| => InputStream(sources[i].0, false, sources[i].1)), None)
  }

  predicate InRange(order: seq<nat>, n: nat) {
    forall k | 0 <= k < |order| :: order[k] < n
  }

  /** `order` lists every input that is not blocked, each once. */
  ghost predicate Shuffle<B>(s: State<B>, order: seq<nat>) {
    && InRange(order, |s.inputs|)
    && (forall k | 0 <= k < |order| :: !s.inputs[order[k]].blocked)
    && (forall i | 0 <= i < |s.inputs| && !s.inputs[i].blocked :: i in order)
    && (forall i, j | 0 <= i < j < |order| :: order[i] != order[j])
  }

  predicate AnyBlocked<B>(s: State<B>) {
    exists i | 0 <= i < |s.inputs| :: s.inputs[i].blocked
  }

  function Unblock<B>(inputs: seq<InputStream<B>>): seq<InputStream<B>> {
    seq(|inputs|, i requires 0 <= i < |inputs| => inputs[i].(blocked := false))
  }

  /** All inputs are blocked, ended or pending: wait, pass the marker on, or end. */
  function Settle<B>(s: State<B>, somePending: bool): (State<B>, Poll<Merged<B>>) {
    if somePending then (s, Pending)
    else if AnyBlocked(s) && s.currentCheckpoint.Some? then
      (State(Unblock(s.inputs), None), Ready(Some(Mark(s.currentCheckpoint.value))))
    else (s, Ready(None))
  }

  /** An input yields its next item; a marker blocks it and is remembered if it is the first of its round. */
  function Take<B>(s: State<B>, i: nat): State<B>
    requires i < |s.inputs| && s.inputs[i].rest != []
  {
    var input := s.inputs[i];
    var head := input.rest[0];
    State(s.inputs[i := input.(rest := input.rest[1..], blocked := head.Marker?)],
          if head.Marker? && s.currentCheckpoint.None? then Some(head.number) else s.currentCheckpoint)
  }

  /** Polls the inputs of `order` one by one until one of them yields a batch. */
  function PollAll<B>(s: State<B>, order: seq<nat>, ready: set<nat>, somePending: bool): (State<B>, Poll<Merged<B>>)
    requires InRange(order, |s.inputs|)
    decreases |order|
  {
    if order == [] then Settle(s, somePending)
    else
      var i := order[0];
      var input := s.inputs[i];
      if i !in ready then PollAll(s, order[1..], ready, true)
      else if input.rest == [] then PollAll(s, order[1..], ready, somePending)
      else if input.rest[0].Marker? then PollAll(Take(s, i), order[1..], ready, somePending)
      else (Take(s, i), Ready(Some(Item(i, input.ordinal, input.rest[0].batch))))
  }

  class MergedActionStream<B> {
    var inputs: seq<InputStream<B>>
    var currentCheckpoint: Option<nat>

    ghost function Abs(): State<B> reads this {
      State(inputs, currentCheckpoint)
    }

    constructor (sources: seq<(nat, seq<Streams.Item<B>>)>)
      ensures Abs() == Start(sources)
    {
      inputs := seq(|sources|, i requires 0 <= i < |sources| => InputStream(sources[i].0, false, sources[i].1));
      currentCheckpoint := None;
    }

    method PollNext(order: seq<nat>, ready: set<nat>) returns (poll: Poll<Merged<B>>)
      requires Shuffle(Abs(), order)
      modifies this
      ensures (Abs(), poll) == PollAll(old(Abs()), order, ready, false)
    {
      var somePending := false;
      for k := 0 to |order|
        invariant InRange(order, |inputs|)
        invariant PollAll(Abs(), order[k..], ready, somePending) == PollAll(old(Abs()), order, ready, false)
      {
        var i := order[k];
        assert order[k..][1..] == order[k + 1..];
        if i !in ready {
          somePending := true;
        } else if inputs[i].rest != [] {
          var input := inputs[i];
          inputs := inputs[i := input.(rest := input.rest[1..], blocked := input.rest[0].Marker?)];
          match input.rest[0]
          case Batch(batch) =>
            return Ready(Some(Item(i, input.ordinal, batch)));
          case Marker(number) =>
            if currentCheckpoint.None? {
              currentCheckpoint := Some(number);
            }
        }
      }
      if somePending {
        return Pending;
      }
      if (exists i | 0 <= i < |inputs| :: inputs[i].blocked) && currentCheckpoint.Some? {
        var number := currentCheckpoint.value;
        currentCheckpoint := None;
        inputs := Unblock(inputs);
        return Ready(Some(Mark(number)));
      }
      return Ready(None);
    }
  }
}
