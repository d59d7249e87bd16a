/**
 A barrier whose last arriver runs one computation and shares its result.

 `InnerQueueState` keeps a queue with one sender at the bottom and receivers above it.
 `Round` is the simple view: who is left, who waits, which computation came first.
 `F` is the type of the stored computation. `eval` says what a computation returns if it is run in this call.
 */
module Barrier {
  import opened Wrappers

  const NO_RESULT := "All users of the barrier have finished, there is no result to share"
  const DROPPED := "Barrier receiver was dropped before the result was sent."

  /** One end of the oneshot channel of a round. */
  datatype Entry = Sender(round: nat) | Receiver(round: nat)

  /** A result as the waiters see it: errors are turned into text first. */
  function Shared<T>(o: Outcome<T>): Outcome<T> {
    match o
    case Ok(_) => o
    case Err(message) => Err("Error computing result: " + message)
  }

  /** Either wait for the channel of a round, or the call is over. `sent` is what the waiters were given. */
  datatype Reply<F, T> =
    | Wait(round: nat)
    | Done(result: Outcome<T>, ran: Option<F>, sent: Option<Outcome<T>>)

  /**
   The simple view of a barrier. `solo` means the round started with at most one member, so nothing is shared.
   `live` members remain, `waiting` of them have arrived in round `id`, `first` is the computation registered first.
   */
  datatype Round<F> = Round(solo: bool, live: nat, waiting: nat, first: Option<F>, id: nat)

  ghost predicate RoundInv<F>(r: Round<F>) {
    && (r.solo ==> r.live <= 1 && r.waiting == 0)
    && (!r.solo ==> r.waiting < r.live)
    && (r.first.Some? <==> r.waiting > 0)
  }

  function Open<F>(live: nat, id: nat): Round<F> {
    Round(live <= 1, live, 0, None, id)
  }

  function Evaluate<F, T>(f: Option<F>, eval: F -> Outcome<T>): Outcome<T> {
    match f
    case Some(g) => eval(g)
    case None => Err(NO_RESULT)
  }

  /** The last member of a shared round runs `f`. With nobody waiting, its own result is replaced by an error. */
  function Finish<F, T>(f: Option<F>, waiting: nat, eval: F -> Outcome<T>): Reply<F, T> {
    var result := Evaluate(f, eval);
    if waiting == 0 then Done(Err(DROPPED), f, None) else Done(result, f, Some(Shared(result)))
  }

  function Arrive<F, T>(r: Round<F>, f: F, eval: F -> Outcome<T>): (Round<F>, Reply<F, T>) {
    var first := if r.first.Some? then r.first else Some(f);
    if r.solo then (r.(id := r.id + 1), Done(eval(f), Some(f), None))
    else if r.waiting + 1 == r.live then (Open(r.live, r.id + 1), Finish(first, r.waiting, eval))
    else (r.(waiting := r.waiting + 1, first := first), Wait(r.id))
  }

  function Leave<F, T>(r: Round<F>, eval: F -> Outcome<T>): (Round<F>, Reply<F, T>) {
    var live := if r.live == 0 then 0 else r.live - 1;
    if r.solo then (r.(live := live), Done(Err(NO_RESULT), None, None))
    else if r.waiting + 1 == r.live then (Open(live, r.id + 1), Finish(r.first, r.waiting, eval))
    else (r.(live := live), Wait(r.id))
  }

  function Queue(round: nat, length: nat): seq<Entry> {
    seq(length, i => if i == 0 then Sender(round) else Receiver(round))
  }

  class InnerQueueState<F, T> {
    var count: nat
    var computationFunction: Option<F>
    var synchronisationQueue: Option<seq<Entry>>
    var receivers: nat     // receiver handles of the current channel that have not been dropped
    var round: nat         // rounds completed so far: the identity of the current channel

    /** Members that hold a receiver popped from the queue. */
    ghost function Waiting(): int reads this {
      if synchronisationQueue.None? then 0 else receivers - (|synchronisationQueue.value| - 1)
    }

    /** A queue is never empty, so popping it cannot fail whatever the callers do. */
    ghost predicate QueueValid() reads this {
      synchronisationQueue.Some? ==>
        var q := synchronisationQueue.value;
        && |q| >= 1
        && q == Queue(round, |q|)
        && receivers >= |q| - 1
    }

    ghost predicate Valid() reads this {
      && QueueValid()
      && (synchronisationQueue.None? ==> count <= 1)
      && (synchronisationQueue.Some? ==> count == |synchronisationQueue.value| + Waiting())
      && (computationFunction.Some? <==> Waiting() > 0)
    }

    ghost function Abs(): (r: Round<F>)
      requires Valid()
      reads this
      ensures RoundInv(r)
      ensures synchronisationQueue.Some? ==> |synchronisationQueue.value| == r.live - r.waiting
    {
      Round(synchronisationQueue.None?, count, Waiting(), computationFunction, round)
    }

    constructor (count: nat)
      ensures Valid() && Abs() == Open(count, 0)
    {
      this.count := count;
      computationFunction := None;
      round := 0;
      synchronisationQueue := if count <= 1 then None else Some(Queue(0, count));
      receivers := if count <= 1 then 0 else count - 1;
    }

    method CreateStateQueue()
      modifies this`synchronisationQueue, this`receivers
      ensures QueueValid() && Waiting() == 0
      ensures synchronisationQueue.None? <==> count <= 1
      ensures synchronisationQueue.Some? ==> |synchronisationQueue.value| == count
    {
      if count <= 1 {
        synchronisationQueue, receivers := None, 0;
      } else {
        synchronisationQueue, receivers := Some(Queue(round, count)), count - 1;
      }
    }

    /** Takes the top entry: a receiver means waiting, the sender means completing the round. */
    method PopQueueInner(eval: F -> Outcome<T>) returns (reply: Reply<F, T>)
      requires QueueValid()
      modifies this`computationFunction, this`synchronisationQueue, this`receivers, this`round
      ensures old(synchronisationQueue).Some? && |old(synchronisationQueue).value| > 1 ==>
                && reply == Wait(old(round))
                && synchronisationQueue == Some(Queue(old(round), |old(synchronisationQueue).value| - 1))
                && computationFunction == old(computationFunction)
                && receivers == old(receivers) && round == old(round)
      ensures old(synchronisationQueue).None? ==>
                && reply == Done(Evaluate(old(computationFunction), eval), old(computationFunction), None)
                && synchronisationQueue.None? && computationFunction.None? && receivers == old(receivers)
                && round == old(round) + if old(computationFunction).Some? then 1 else 0
      ensures old(synchronisationQueue).Some? && |old(synchronisationQueue).value| == 1 ==>
                && reply == Finish(old(computationFunction), old(receivers), eval)
                && computationFunction.None? && round == old(round) + 1
                && QueueValid() && Waiting() == 0
                && (synchronisationQueue.None? <==> count <= 1)
                && (synchronisationQueue.Some? ==> |synchronisationQueue.value| == count)
    {
      if synchronisationQueue.None? {
        var f := computationFunction;
        computationFunction := None;
        round := round + if f.Some? then 1 else 0;
        return Done(Evaluate(f, eval), f, None);
      }
      var q := synchronisationQueue.value;
      var nextItem := q[|q| - 1];
      synchronisationQueue := Some(q[..|q| - 1]);
      match nextItem
      case Receiver(channel) =>
        assert q[..|q| - 1] == Queue(round, |q| - 1);
        return Wait(channel);
      case Sender(_) =>
        var f := computationFunction;
        computationFunction := None;
        var result := Evaluate(f, eval);
        var unsent := receivers == 0;
        round := round + 1;
        CreateStateQueue();
        if unsent {
          return Done(Err(DROPPED), f, None);
        }
        return Done(result, f, Some(Shared(result)));
    }

    method ComputeResult(f: F, eval: F -> Outcome<T>) returns (reply: Reply<F, T>)
      requires Valid()
      modifies this
      ensures Valid()
      ensures (Abs(), reply) == Arrive(old(Abs()), f, eval)
    {
      if computationFunction.None? {
        computationFunction := Some(f);
      }
      reply := PopQueueInner(eval);
    }

    method RemoveParticipant(eval: F -> Outcome<T>) returns (reply: Reply<F, T>)
      requires Valid()
      modifies this
      ensures Valid()
      ensures (Abs(), reply) == Leave(old(Abs()), eval)
    {
      count := if count == 0 then 0 else count - 1;
      reply := PopQueueInner(eval);
      if reply.Wait? {
        receivers := receivers - 1;
      }
    }
  }
}
