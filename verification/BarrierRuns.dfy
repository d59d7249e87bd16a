/**
 Every interleaving of the members of one barrier: arriving, leaving and waking up.

 A member that is blocked on a round can only wake up, and only once the result of that round was sent.
 The logs record, apart from the barrier itself, who registered what, what was run and what each call returned.
 */
module BarrierRuns {
  import opened Wrappers
  import opened Barrier

  datatype Arrival<F> = Arrival(round: nat, member: nat, f: F)

  datatype Execution<F, T> = Execution(round: nat, f: F, outcome: Outcome<T>)

  /** How a call of `compute_result` came back: woken by the completer, or completing the round itself. */
  datatype How = Woken | Completed(solo: bool, waiters: nat)

  datatype Return<T> = Return(round: nat, member: nat, outcome: Outcome<T>, how: How)

  datatype System<F, T> = System(
    barrier: Round<F>,
    live: set<nat>,
    blocked: map<nat, nat>,          // member -> the round whose result it waits for
    sent: map<nat, Outcome<T>>,      // round -> what its waiters are given
    arrivals: seq<Arrival<F>>,
    executions: seq<Execution<F, T>>,
    returned: seq<Return<T>>)

  datatype Step<!F, !T> =
    | ArriveStep(member: nat, f: F, eval: F -> Outcome<T>)
    | LeaveStep(member: nat, eval: F -> Outcome<T>)
    | WakeStep(member: nat)

  function Init<F, T>(members: set<nat>): System<F, T> {
    System(Open(|members|, 0), members, map[], map[], [], [], [])
  }

  function Waiters<F, T>(s: System<F, T>): set<nat> {
    set p | p in s.blocked && s.blocked[p] == s.barrier.id
  }

  ghost predicate Enabled<F, T>(s: System<F, T>, step: Step<F, T>) {
    match step
    case ArriveStep(p, _, _) => p in s.live && p !in s.blocked
    case LeaveStep(p, _) => p in s.live && p !in s.blocked
    case WakeStep(p) => p in s.blocked && s.blocked[p] in s.sent
  }

  /** The effect of a finished call on the channel and the execution log. */
  function Record<F, T>(s: System<F, T>, reply: Reply<F, T>, eval: F -> Outcome<T>): System<F, T>
    requires reply.Done?
  {
    var id := s.barrier.id;
    s.(sent := if reply.sent.Some? then s.sent[id := reply.sent.value] else s.sent,
       executions := if reply.ran.Some?
                     then s.executions + [Execution(id, reply.ran.value, eval(reply.ran.value))]
                     else s.executions)
  }

  function Apply<F, T>(s: System<F, T>, step: Step<F, T>): System<F, T>
    requires step.WakeStep? ==> step.member in s.blocked && s.blocked[step.member] in s.sent
  {
    var id := s.barrier.id;
    match step
    case ArriveStep(p, f, eval) =>
      var (barrier, reply) := Arrive(s.barrier, f, eval);
      var s1 := s.(arrivals := s.arrivals + [Arrival(id, p, f)]);
      (match reply
       case Wait(round) => s1.(blocked := s1.blocked[p := round])
       case Done(result, _, _) =>
         var how := Completed(s.barrier.solo, |Waiters(s)|);
         Record(s1, reply, eval).(returned := s1.returned + [Return(id, p, result, how)])).(barrier := barrier)
    case LeaveStep(p, eval) =>
      var (barrier, reply) := Leave(s.barrier, eval);
      var s1 := s.(live := s.live - {p});
      (if reply.Wait? then s1 else Record(s1, reply, eval)).(barrier := barrier)
    case WakeStep(p) =>
      var round := s.blocked[p];
      s.(blocked := s.blocked - {p}, returned := s.returned + [Return(round, p, s.sent[round], Woken)])
  }

  /** The computation registered first in a round. */
  function FirstIn<F>(arrivals: seq<Arrival<F>>, round: nat): Option<F> {
    if arrivals == [] then None
    else
      var earlier := FirstIn(arrivals[..|arrivals| - 1], round);
      var last := arrivals[|arrivals| - 1];
      if earlier.Some? then earlier else if last.round == round then Some(last.f) else None
  }

  function ExecutionOf<F, T>(log: seq<Execution<F, T>>, round: nat): Option<Execution<F, T>> {
    if log == [] then None
    else if log[|log| - 1].round == round then Some(log[|log| - 1])
    else ExecutionOf(log[..|log| - 1], round)
  }

  /** What a call must return given the one execution of its round. */
  function Expected<T>(how: How, outcome: Outcome<T>): Outcome<T> {
    match how
    case Woken => Shared(outcome)
    case Completed(solo, waiters) => if solo || waiters > 0 then outcome else Err(DROPPED)
  }

  ghost predicate MembersInv<F, T>(s: System<F, T>) {
    && RoundInv(s.barrier)
    && s.barrier.live == |s.live|
    && s.blocked.Keys <= s.live
    && s.barrier.waiting == |Waiters(s)|
    && (forall p | p in s.blocked && p !in Waiters(s) :: s.blocked[p] + 1 == s.barrier.id && s.blocked[p] in s.sent)
  }

  /** The logs against the open round: the computation kept is the first one registered, older rounds ran theirs. */
  ghost predicate Logs<F, T>(first: Option<F>, id: nat, arrivals: seq<Arrival<F>>, executions: seq<Execution<F, T>>) {
    && (forall a | a in arrivals :: a.round <= id)
    && first == FirstIn(arrivals, id)
    && (forall e | e in executions :: e.round < id && FirstIn(arrivals, e.round) == Some(e.f))
    && (forall i, j | 0 <= i < j < |executions| :: executions[i].round < executions[j].round)
  }

  ghost predicate LogInv<F, T>(s: System<F, T>) {
    Logs(s.barrier.first, s.barrier.id, s.arrivals, s.executions)
  }

  ghost predicate Explained<F, T>(s: System<F, T>, round: nat, how: How, outcome: Outcome<T>) {
    round < s.barrier.id &&
    var e := ExecutionOf(s.executions, round);
    e.Some? && outcome == Expected(how, e.value.outcome)
  }

  ghost predicate ResultInv<F, T>(s: System<F, T>) {
    && (forall r | r in s.sent :: Explained(s, r, Woken, s.sent[r]))
    && (forall e | e in s.returned :: Explained(s, e.round, e.how, e.outcome))
  }

  ghost predicate Inv<F, T>(s: System<F, T>) {
    MembersInv(s) && LogInv(s) && ResultInv(s)
  }

  ghost predicate Runs<F, T>(s: System<F, T>, steps: seq<Step<F, T>>, t: System<F, T>)
    decreases |steps|
  {
    if steps == [] then s == t
    else Enabled(s, steps[0]) && Runs(Apply(s, steps[0]), steps[1..], t)
  }

  /** When the caller is the only member not waiting, it and the waiters are all the members. */
  lemma LastOne<F, T>(s: System<F, T>, p: nat)
    requires MembersInv(s) && p in s.live && p !in s.blocked
    ensures s.barrier.waiting + 1 == s.barrier.live ==> s.live == Waiters(s) + {p}
    ensures s.barrier.waiting < s.barrier.live
  {
    var rest := s.live - Waiters(s);
    assert Waiters(s) <= s.live && p in rest;
    assert |s.live| == |Waiters(s)| + |rest| by { assert s.live == Waiters(s) + rest; }
    assert |rest - {p}| == |rest| - 1;
    if |rest| == 1 { assert rest - {p} == {}; assert rest == {p}; }
  }

  lemma MembersArrive<F, T>(s: System<F, T>, p: nat, f: F, eval: F -> Outcome<T>)
    requires MembersInv(s) && Enabled(s, ArriveStep(p, f, eval))
    ensures MembersInv(Apply(s, ArriveStep(p, f, eval)))
  {
    var t := Apply(s, ArriveStep(p, f, eval));
    LastOne(s, p);
    if Arrive(s.barrier, f, eval).1.Wait? {
      assert Waiters(t) == Waiters(s) + {p};
    } else {
      assert Waiters(t) == {};
    }
  }

  lemma MembersLeave<F, T>(s: System<F, T>, p: nat, eval: F -> Outcome<T>)
    requires MembersInv(s) && Enabled(s, LeaveStep(p, eval))
    ensures MembersInv(Apply(s, LeaveStep(p, eval)))
  {
    var t := Apply(s, LeaveStep(p, eval));
    LastOne(s, p);
    assert |s.live - {p}| == |s.live| - 1;
    if t.barrier.id == s.barrier.id {
      assert Waiters(t) == Waiters(s);
    } else {
      assert Waiters(t) == {};
    }
  }

  lemma MembersWake<F, T>(s: System<F, T>, p: nat)
    requires MembersInv(s) && Enabled(s, WakeStep(p)) && s.barrier.id !in s.sent
    ensures MembersInv(Apply(s, WakeStep(p)))
  {
    assert Waiters(Apply(s, WakeStep(p))) == Waiters(s);
  }

  lemma FirstInAppend<F>(arrivals: seq<Arrival<F>>, a: Arrival<F>)
    ensures forall r :: FirstIn(arrivals + [a], r) ==
                        if FirstIn(arrivals, r).Some? || a.round != r then FirstIn(arrivals, r) else Some(a.f)
  {
    assert (arrivals + [a])[..|arrivals|] == arrivals;
  }

  lemma {:induction false} FirstInBounded<F>(arrivals: seq<Arrival<F>>, round: nat)
    requires forall a | a in arrivals :: a.round < round
    ensures FirstIn(arrivals, round) == None
  {
    if arrivals != [] { FirstInBounded(arrivals[..|arrivals| - 1], round); }
  }

  lemma LogsRegister<F, T>(first: Option<F>, arrivals: seq<Arrival<F>>, executions: seq<Execution<F, T>>, a: Arrival<F>)
    requires Logs(first, a.round, arrivals, executions)
    ensures Logs(if first.Some? then first else Some(a.f), a.round, arrivals + [a], executions)
  {
    FirstInAppend(arrivals, a);
  }

  lemma LogsRun<F, T>(arrivals: seq<Arrival<F>>, executions: seq<Execution<F, T>>, e: Execution<F, T>)
    requires Logs(Some(e.f), e.round, arrivals, executions)
    ensures Logs(None, e.round + 1, arrivals, executions + [e])
  {
    FirstInBounded(arrivals, e.round + 1);
  }

  /** An arrival registers its computation, and closes the round or not. */
  lemma ArriveLogs<F, T>(s: System<F, T>, a: Arrival<F>, e: Execution<F, T>, eval: F -> Outcome<T>)
    requires RoundInv(s.barrier) && a.round == e.round == s.barrier.id
    requires e.f == (if s.barrier.first.Some? then s.barrier.first.value else a.f) && e.outcome == eval(e.f)
    ensures var t := Apply(s, ArriveStep(a.member, a.f, eval));
            && t.arrivals == s.arrivals + [a]
            && ((t.barrier.first, t.barrier.id, t.executions) == (Some(e.f), e.round, s.executions) ||
                (t.barrier.first, t.barrier.id, t.executions) == (None, e.round + 1, s.executions + [e]))
  {
  }

  lemma LogArrive<F, T>(s: System<F, T>, p: nat, f: F, eval: F -> Outcome<T>)
    requires MembersInv(s) && LogInv(s) && Enabled(s, ArriveStep(p, f, eval))
    ensures LogInv(Apply(s, ArriveStep(p, f, eval)))
  {
    var id, first := s.barrier.id, if s.barrier.first.Some? then s.barrier.first.value else f;
    var a, e := Arrival(id, p, f), Execution(id, first, eval(first));
    ArriveLogs(s, a, e, eval);
    LogsRegister(s.barrier.first, s.arrivals, s.executions, a);
    LogsRun(s.arrivals + [a], s.executions, e);
  }

  lemma LogLeave<F, T>(s: System<F, T>, p: nat, eval: F -> Outcome<T>)
    requires MembersInv(s) && LogInv(s) && Enabled(s, LeaveStep(p, eval))
    ensures LogInv(Apply(s, LeaveStep(p, eval)))
  {
    if s.barrier.first.Some? {
      var first := s.barrier.first.value;
      LogsRun(s.arrivals, s.executions, Execution(s.barrier.id, first, eval(first)));
    } else {
      FirstInBounded(s.arrivals, s.barrier.id + 1);
    }
  }

  lemma ExecutionAppend<F, T>(log: seq<Execution<F, T>>, e: Execution<F, T>)
    ensures forall r :: ExecutionOf(log + [e], r) == if e.round == r then Some(e) else ExecutionOf(log, r)
  {
    assert (log + [e])[..|log|] == log;
  }

  /** Finishing a round explains its own result and leaves earlier explanations alone. */
  lemma ResultsKept<F, T>(s: System<F, T>, t: System<F, T>)
    requires ResultInv(s) && s.barrier.id <= t.barrier.id
    requires t.executions == s.executions || (
               && |t.executions| == |s.executions| + 1 && t.executions[..|s.executions|] == s.executions
               && t.executions[|s.executions|].round == s.barrier.id)
    ensures forall r, how, o | Explained(s, r, how, o) :: Explained(t, r, how, o)
  {
    if t.executions != s.executions {
      assert t.executions == s.executions + [t.executions[|s.executions|]];
      ExecutionAppend(s.executions, t.executions[|s.executions|]);
    }
  }

  lemma ResultArrive<F, T>(s: System<F, T>, p: nat, f: F, eval: F -> Outcome<T>)
    requires MembersInv(s) && ResultInv(s) && Enabled(s, ArriveStep(p, f, eval))
    ensures ResultInv(Apply(s, ArriveStep(p, f, eval)))
  {
    var t := Apply(s, ArriveStep(p, f, eval));
    ResultsKept(s, t);
    var reply := Arrive(s.barrier, f, eval).1;
    if reply.Done? {
      ExecutionAppend(s.executions, Execution(s.barrier.id, reply.ran.value, eval(reply.ran.value)));
    }
  }

  lemma ResultLeave<F, T>(s: System<F, T>, p: nat, eval: F -> Outcome<T>)
    requires MembersInv(s) && ResultInv(s) && Enabled(s, LeaveStep(p, eval))
    ensures ResultInv(Apply(s, LeaveStep(p, eval)))
  {
    var t := Apply(s, LeaveStep(p, eval));
    ResultsKept(s, t);
    var reply := Leave(s.barrier, eval).1;
    if reply.Done? && reply.ran.Some? {
      ExecutionAppend(s.executions, Execution(s.barrier.id, reply.ran.value, eval(reply.ran.value)));
    }
  }

  lemma Preserved<F, T>(s: System<F, T>, step: Step<F, T>)
    requires Inv(s) && Enabled(s, step)
    ensures Inv(Apply(s, step))
  {
    match step
    case ArriveStep(p, f, eval) =>
      MembersArrive(s, p, f, eval);
      LogArrive(s, p, f, eval);
      ResultArrive(s, p, f, eval);
    case LeaveStep(p, eval) =>
      MembersLeave(s, p, eval);
      LogLeave(s, p, eval);
      ResultLeave(s, p, eval);
    case WakeStep(p) =>
      MembersWake(s, p);
      ResultsKept(s, Apply(s, step));
  }

  lemma {:induction false} RunPreserves<F, T>(s: System<F, T>, steps: seq<Step<F, T>>, t: System<F, T>)
    requires Inv(s) && Runs(s, steps, t)
    ensures Inv(t)
    decreases |steps|
  {
    if steps != [] {
      Preserved(s, steps[0]);
      RunPreserves(Apply(s, steps[0]), steps[1..], t);
    }
  }

  lemma InitInv<F, T>(members: set<nat>)
    ensures Inv(Init<F, T>(members))
  {
    assert Waiters(Init<F, T>(members)) == {};
  }

  lemma Reachable<F, T>(members: set<nat>, steps: seq<Step<F, T>>, t: System<F, T>)
    requires Runs(Init(members), steps, t)
    ensures Inv(t)
  {
    InitInv<F, T>(members);
    RunPreserves(Init(members), steps, t);
  }

  /**
   In every reachable state the members that have not arrived are exactly as many as the queue has entries,
   and at least one member can move: the barrier never deadlocks while its members follow the protocol.
   */
  lemma NeverStuck<F, T>(members: set<nat>, steps: seq<Step<F, T>>, t: System<F, T>)
    requires Runs(Init(members), steps, t)
    ensures |t.live - Waiters(t)| == t.barrier.live - t.barrier.waiting
    ensures t.live != {} ==> exists p | p in t.live :: p !in t.blocked || Enabled(t, WakeStep(p))
  {
    Reachable(members, steps, t);
    var rest := t.live - Waiters(t);
    assert t.live == Waiters(t) + rest;
    if t.live != {} {
      assert rest != {};
      var p :| p in rest;
      assert p !in t.blocked || Enabled(t, WakeStep(p));
    }
  }

  /** Each round runs at most one computation, in round order, and it is the one registered first. */
  lemma OneComputationPerRound<F, T>(members: set<nat>, steps: seq<Step<F, T>>, t: System<F, T>)
    requires Runs(Init(members), steps, t)
    ensures forall i, j | 0 <= i < j < |t.executions| :: t.executions[i].round < t.executions[j].round
    ensures forall e | e in t.executions :: FirstIn(t.arrivals, e.round) == Some(e.f)
  {
    Reachable(members, steps, t);
  }

  ghost predicate Agree<T>(a: Outcome<T>, b: Outcome<T>) {
    match a
    case Ok(_) => a == b
    case Err(_) => b.Err?
  }

  ghost predicate Lone(how: How) {
    how == Completed(false, 0)
  }

  /** All calls of one round agree, however members left, except a completer that nobody waited for. */
  lemma SameResult<F, T>(members: set<nat>, steps: seq<Step<F, T>>, t: System<F, T>, a: Return<T>, b: Return<T>)
    requires Runs(Init(members), steps, t)
    requires a in t.returned && b in t.returned && a.round == b.round
    ensures !Lone(a.how) && !Lone(b.how) ==> Agree(a.outcome, b.outcome)
    ensures Lone(a.how) ==> a.outcome == Err(DROPPED)
  {
    Reachable(members, steps, t);
    assert Explained(t, a.round, a.how, a.outcome) && Explained(t, b.round, b.how, b.outcome);
  }

  /**
   The caller that completes a round gets what it computed, value or error, exactly when somebody waits or the round is
   solo. Otherwise the computation runs, its result is thrown away and the caller gets another error.
   */
  lemma CompleterGetsValue<F, T>(members: set<nat>, steps: seq<Step<F, T>>, s: System<F, T>,
                                 p: nat, f: F, eval: F -> Outcome<T>)
    requires Runs(Init(members), steps, s) && Enabled(s, ArriveStep(p, f, eval))
    requires Waiters(s) == s.live - {p}
    ensures var t := Apply(s, ArriveStep(p, f, eval));
            && |t.executions| == |s.executions| + 1 && |t.returned| == |s.returned| + 1
            && t.returned[|s.returned|].outcome ==
               if s.barrier.solo || Waiters(s) != {} then t.executions[|s.executions|].outcome else Err(DROPPED)
  {
    Reachable(members, steps, s);
    assert |s.live - {p}| == |s.live| - 1;
  }

  /** Two members, one leaves, the other arrives: the computation runs, yet its caller gets an error. */
  lemma LoneArriverLosesValue()
    ensures var eval := (f: int) => Ok(f);
            var steps := [LeaveStep(1, eval), ArriveStep(0, 7, eval)];
            exists t: System<int, int> ::
              && Runs(Init({0, 1}), steps, t)
              && t.executions == [Execution(0, 7, Ok(7))]
              && t.returned == [Return(0, 0, Err(DROPPED), Completed(false, 0))]
  {
    var eval := (f: int) => Ok(f);
    var s0: System<int, int> := Init({0, 1});
    var s1 := Apply(s0, LeaveStep(1, eval));
    var s2 := Apply(s1, ArriveStep(0, 7, eval));
    var steps := [LeaveStep(1, eval), ArriveStep(0, 7, eval)];
    assert steps[1..] == [ArriveStep(0, 7, eval)];
    assert Waiters(s1) == {};
    assert Runs(s2, [], s2);
    assert Runs(s1, steps[1..], s2);
    assert Runs(s0, steps, s2);
  }

  /** What a call of `compute_result` does to the members: the caller blocks, or everybody else was waiting. */
  ghost predicate Arrived<F, T>(s: System<F, T>, t: System<F, T>, p: nat, f: F) {
    var id := s.barrier.id;
    && t.live == s.live && t.arrivals == s.arrivals + [Arrival(id, p, f)]
    && (if |t.returned| == |s.returned|
        then
          && t.blocked == s.blocked[p := id] && t.barrier.id == id
          && t.executions == s.executions && t.sent == s.sent
        else
          && |t.returned| == |s.returned| + 1
          && |t.executions| == |s.executions| + 1
          && Completed1(s, t, p, t.executions[|s.executions|])
          && t.returned[|s.returned|].outcome ==
               if s.barrier.solo || Waiters(s) != {} then t.executions[|s.executions|].outcome else Err(DROPPED))
  }

  /** The round is over: everybody but `p` was waiting and is given the result of execution `e`. */
  ghost predicate Completed1<F, T>(s: System<F, T>, t: System<F, T>, p: nat, e: Execution<F, T>) {
    && e.round == s.barrier.id
    && t.blocked == s.blocked && t.barrier.id == s.barrier.id + 1
    && t.live <= s.live == Waiters(s) + {p}
    && t.sent == if Waiters(s) != {} then s.sent[s.barrier.id := Shared(e.outcome)] else s.sent
  }

  lemma ArriveCases<F, T>(s: System<F, T>, p: nat, f: F, eval: F -> Outcome<T>)
    requires Inv(s) && Enabled(s, ArriveStep(p, f, eval))
    ensures Arrived(s, Apply(s, ArriveStep(p, f, eval)), p, f)
  {
    LastOne(s, p);
    if s.barrier.solo { assert |s.live - {p}| == 0; assert Waiters(s) == {}; assert s.live == {p}; }
  }

  /** What `remove_participant` does: the member is gone, and if it was the last to come the round completes. */
  ghost predicate Departed<F, T>(s: System<F, T>, t: System<F, T>, p: nat) {
    && t.live == s.live - {p} && t.arrivals == s.arrivals && t.blocked == s.blocked
    && (if |t.executions| == |s.executions|
        then
          && t.executions == s.executions && t.sent == s.sent
          && (t.barrier.id == s.barrier.id || (t.barrier.id == s.barrier.id + 1 && t.live == {}))
        else
          && |t.executions| == |s.executions| + 1
          && Completed1(s, t, p, t.executions[|s.executions|]))
  }

  lemma LeaveCases<F, T>(s: System<F, T>, p: nat, eval: F -> Outcome<T>)
    requires Inv(s) && Enabled(s, LeaveStep(p, eval))
    ensures Departed(s, Apply(s, LeaveStep(p, eval)), p)
  {
    LastOne(s, p);
  }

  lemma ExecutionsGrow<F, T>(s: System<F, T>, step: Step<F, T>)
    requires Enabled(s, step)
    ensures var t := Apply(s, step);
            s.executions <= t.executions && |t.executions| <= |s.executions| + 1
  {
  }
}
