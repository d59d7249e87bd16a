/**
 What each fibre passes downstream in every schedule: its items in order, and right after the marker of a check one
 error if the fibre's call at the barrier returned one there, and nothing else.
 */
module FibreOutputs {
  import opened Wrappers
  import opened Streams
  import opened BarrierRuns
  import opened Fibres
  import opened FibreRuns

  /** The returned calls of one member, in order. */
  function CallsOf<T>(returned: seq<Return<T>>, i: nat): seq<Return<T>> {
    if returned == [] then []
    else
      var last := returned[|returned| - 1];
      CallsOf(returned[..|returned| - 1], i) + if last.member == i then [last] else []
  }

  lemma CallsSnoc<T>(returned: seq<Return<T>>, r: Return<T>, i: nat)
    ensures CallsOf(returned + [r], i) == CallsOf(returned, i) + if r.member == i then [r] else []
  {
    assert (returned + [r])[..|returned|] == returned;
  }

  /** What the instructions pass downstream if check number `k` came back as call `k`. */
  function OutOf<B>(before: seq<Instruction<B>>, calls: seq<Return<FiberState>>): seq<Out<B>> {
    if before == [] then []
    else
      var rest := before[..|before| - 1];
      OutOf(rest, calls) +
      match before[|before| - 1]
      case Emit(item) => [Delivered(item)]
      case Check(_) => if Checks(rest) < |calls| && calls[Checks(rest)].outcome.Err? then [Failed] else []
      case Finished => []
  }

  lemma OutSnoc<B>(before: seq<Instruction<B>>, x: Instruction<B>, calls: seq<Return<FiberState>>)
    ensures OutOf(before + [x], calls) ==
            OutOf(before, calls) +
            match x
            case Emit(item) => [Delivered(item)]
            case Check(_) => if Checks(before) < |calls| && calls[Checks(before)].outcome.Err? then [Failed] else []
            case Finished => []
  {
    assert (before + [x])[..|before|] == before;
  }

  /** A later call does not change what was passed on before. */
  lemma {:induction false} OutKept<B>(before: seq<Instruction<B>>, calls: seq<Return<FiberState>>,
                                      c: Return<FiberState>)
    requires Checks(before) <= |calls|
    ensures OutOf(before, calls + [c]) == OutOf(before, calls)
  {
    if before != [] {
      var rest, last := before[..|before| - 1], before[|before| - 1];
      assert before == rest + [last];
      Snoc(rest, last);
      OutKept(rest, calls, c);
    }
  }

  /**
   The calls of a fibre are those of its rounds in order, all but a pause let it pass the check, and its output is what
   its instructions pass on with the errors of these calls.
   */
  ghost predicate Told<B>(f: Fibre<B>, calls: seq<Return<FiberState>>) {
    && f.at <= |f.Instructions()|
    && |calls| == f.Passed() + (if f.phase == Stopped then 1 else 0)
    && (forall k | 0 <= k < |calls| :: calls[k].round == k && (calls[k].outcome == Ok(Pause) <==> k == f.Passed()))
    && f.out == OutOf(f.Instructions()[..f.at], calls)
  }

  ghost predicate AllTold<B>(fibres: seq<Fibre<B>>, returned: seq<Return<FiberState>>) {
    forall i | 0 <= i < |fibres| :: Told(fibres[i], CallsOf(returned, i))
  }

  lemma NextInstruction<B>(f: Fibre<B>)
    requires f.at < |f.Instructions()|
    ensures var x := f.Instructions()[f.at];
            && f.Instructions()[..f.at + 1] == f.Instructions()[..f.at] + [x]
            && f.(at := f.at + 1).Passed() == f.Passed() + if x.Check? then 1 else 0
  {
    Snoc(f.Instructions()[..f.at], f.Instructions()[f.at]);
    assert f.Instructions()[..f.at + 1] == f.Instructions()[..f.at] + [f.Instructions()[f.at]];
  }

  lemma EmitTold<B>(f: Fibre<B>, calls: seq<Return<FiberState>>)
    requires Told(f, calls) && f.phase == Running && f.at < |f.Instructions()| && f.Instructions()[f.at].Emit?
    ensures Told(f.(at := f.at + 1, out := f.out + [Delivered(f.Instructions()[f.at].item)]), calls)
  {
    NextInstruction(f);
    OutSnoc(f.Instructions()[..f.at], f.Instructions()[f.at], calls);
  }

  lemma ResolveTold<B>(f: Fibre<B>, calls: seq<Return<FiberState>>, c: Return<FiberState>)
    requires Told(f, calls) && f.phase in {Announced, Entered} && f.AtCheck() && c.round == f.Passed()
    ensures Told(Resolve(f, c.outcome), calls + [c])
  {
    var before := f.Instructions()[..f.at];
    NextInstruction(f);
    OutKept(before, calls, c);
    OutSnoc(before, f.Instructions()[f.at], calls + [c]);
  }

  /** A step in which at most the call of fibre `i` returns. */
  lemma StepTold<B>(s: State<B>, t: State<B>, i: nat)
    requires AllTold(s.fibres, s.barrier.returned) && i < |s.fibres| && |t.fibres| == |s.fibres|
    requires t.fibres == s.fibres[i := t.fibres[i]]
    requires t.barrier.returned == s.barrier.returned ||
             (|t.barrier.returned| == |s.barrier.returned| + 1 && s.barrier.returned <= t.barrier.returned &&
              t.barrier.returned[|s.barrier.returned|].member == i)
    requires Told(t.fibres[i], CallsOf(t.barrier.returned, i))
    ensures AllTold(t.fibres, t.barrier.returned)
  {
    var before, after := s.barrier.returned, t.barrier.returned;
    forall j | 0 <= j < |t.fibres| && j != i ensures Told(t.fibres[j], CallsOf(after, j)) {
      assert Told(s.fibres[j], CallsOf(before, j));
      if after != before {
        assert after == before + [after[|before|]];
        CallsSnoc(before, after[|before|], j);
      }
      assert CallsOf(after, j) == CallsOf(before, j) && t.fibres[j] == s.fibres[j];
    }
  }

  /** The call that a move lets return, if any. */
  ghost predicate ReturnedTo(b: System<nat, FiberState>, c: System<nat, FiberState>, i: nat, round: nat) {
    && |c.returned| == |b.returned| + 1 && b.returned <= c.returned
    && c.returned[|b.returned|].member == i && c.returned[|b.returned|].round == round
  }

  lemma ReturnTold<B>(s: State<B>, t: State<B>, i: nat)
    requires AllTold(s.fibres, s.barrier.returned) && i < |s.fibres| && |t.fibres| == |s.fibres|
    requires s.fibres[i].phase in {Announced, Entered} && s.fibres[i].AtCheck()
    requires ReturnedTo(s.barrier, t.barrier, i, s.fibres[i].Passed())
    requires t.fibres == s.fibres[i := Resolve(s.fibres[i], t.barrier.returned[|s.barrier.returned|].outcome)]
    ensures AllTold(t.fibres, t.barrier.returned)
  {
    var before, call := s.barrier.returned, t.barrier.returned[|s.barrier.returned|];
    assert Told(s.fibres[i], CallsOf(before, i));
    assert t.barrier.returned == before + [call];
    CallsSnoc(before, call, i);
    ResolveTold(s.fibres[i], CallsOf(before, i), call);
    StepTold(s, t, i);
  }

  /** An arrival returns at once, for the current round, or not at all. */
  lemma ArriveReturns(b: System<nat, FiberState>, i: nat, number: nat, eval: nat -> Outcome<FiberState>)
    requires Enabled(b, ArriveStep(i, number, eval))
    ensures var c := Apply(b, ArriveStep(i, number, eval));
            c.returned == b.returned || ReturnedTo(b, c, i, b.barrier.id)
  {
  }

  lemma EnterTold<B>(s: State<B>, ms: seq<nat>, i: nat, eval: nat -> Outcome<FiberState>)
    requires FInv(s, ms) && AllTold(s.fibres, s.barrier.returned) && CanMove(s, EnterMove(i, eval))
    ensures var t := Fibres.Step(s, EnterMove(i, eval)); AllTold(t.fibres, t.barrier.returned)
  {
    var f, t := s.fibres[i], Fibres.Step(s, EnterMove(i, eval));
    assert Placed(f, i, s.barrier) && Told(f, CallsOf(s.barrier.returned, i));
    ArriveReturns(s.barrier, i, f.Instructions()[f.at].number, eval);
    if t.barrier.returned == s.barrier.returned {
      StepTold(s, t, i);
    } else {
      ReturnTold(s, t, i);
    }
  }

  lemma ResumeTold<B>(s: State<B>, ms: seq<nat>, i: nat)
    requires FInv(s, ms) && AllTold(s.fibres, s.barrier.returned) && CanMove(s, ResumeMove(i))
    ensures var t := Fibres.Step(s, ResumeMove(i)); AllTold(t.fibres, t.barrier.returned)
  {
    assert Placed(s.fibres[i], i, s.barrier);
    ReturnTold(s, Fibres.Step(s, ResumeMove(i)), i);
  }

  lemma FinishTold<B>(s: State<B>, ms: seq<nat>, i: nat, eval: nat -> Outcome<FiberState>)
    requires FInv(s, ms) && AllTold(s.fibres, s.barrier.returned) && CanMove(s, FinishMove(i, eval))
    ensures var t := Fibres.Step(s, FinishMove(i, eval)); AllTold(t.fibres, t.barrier.returned)
  {
    assert Told(s.fibres[i], CallsOf(s.barrier.returned, i));
    StepTold(s, Fibres.Step(s, FinishMove(i, eval)), i);
  }

  lemma EmitMoveTold<B>(s: State<B>, i: nat)
    requires AllTold(s.fibres, s.barrier.returned) && CanMove(s, EmitMove(i))
    ensures var t := Fibres.Step(s, EmitMove(i)); AllTold(t.fibres, t.barrier.returned)
  {
    assert Told(s.fibres[i], CallsOf(s.barrier.returned, i));
    EmitTold(s.fibres[i], CallsOf(s.barrier.returned, i));
    StepTold(s, Fibres.Step(s, EmitMove(i)), i);
  }

  lemma AnnounceTold<B>(s: State<B>, ms: seq<nat>, i: nat)
    requires FInv(s, ms) && AllTold(s.fibres, s.barrier.returned) && CanMove(s, AnnounceMove(i))
    ensures var t := Fibres.Step(s, AnnounceMove(i)); AllTold(t.fibres, t.barrier.returned)
  {
    assert Told(s.fibres[i], CallsOf(s.barrier.returned, i));
    assert !Fibres.Step(s, AnnounceMove(i)).mismatch by { AnnounceKeeps(s, ms, i); }
    StepTold(s, Fibres.Step(s, AnnounceMove(i)), i);
  }

  lemma MoveTold<B>(s: State<B>, ms: seq<nat>, m: Move)
    requires FInv(s, ms) && AllTold(s.fibres, s.barrier.returned) && CanMove(s, m)
    ensures var t := Fibres.Step(s, m); AllTold(t.fibres, t.barrier.returned)
  {
    match m
    case EmitMove(i) => EmitMoveTold(s, i);
    case AnnounceMove(i) => AnnounceTold(s, ms, i);
    case EnterMove(i, eval) => EnterTold(s, ms, i, eval);
    case ResumeMove(i) => ResumeTold(s, ms, i);
    case FinishMove(i, eval) => FinishTold(s, ms, i, eval);
  }

  lemma StartTold<B>(inputs: seq<seq<Item<B>>>, marker: nat)
    ensures AllTold(Start(inputs, marker).fibres, Start(inputs, marker).barrier.returned)
  {
    var fibres := Start(inputs, marker).fibres;
    forall i | 0 <= i < |fibres| ensures Told(fibres[i], CallsOf([], i)) {
      assert fibres[i].Instructions()[..0] == [];
    }
  }

  lemma NextTold<B>(run: seq<State<B>>, k: nat, ms: seq<nat>)
    requires k + 1 < |run| && StepAt(run, k) && FInv(run[k], ms)
    requires AllTold(run[k].fibres, run[k].barrier.returned)
    ensures AllTold(run[k + 1].fibres, run[k + 1].barrier.returned)
  {
    var m :| CanMove(run[k], m) && run[k + 1] == Fibres.Step(run[k], m);
    MoveTold(run[k], ms, m);
  }

  /**
   In every state of every run: the calls of each fibre that have returned are those of rounds 0, 1, 2 and so on, a
   fibre is stopped exactly if its last call returned a pause, and its output is exactly its input up to where it
   stands, with one error after the marker of each check whose call returned an error.
   */
  lemma {:induction false} OutputExactly<B>(inputs: seq<seq<Item<B>>>, marker: nat, ms: seq<nat>,
                                            run: seq<State<B>>, k: nat)
    requires Common(inputs, ms) && IsRun(inputs, marker, run) && k < |run|
    ensures AllTold(run[k].fibres, run[k].barrier.returned)
  {
    if k == 0 {
      StartTold(inputs, marker);
    } else {
      OutputExactly(inputs, marker, ms, run, k - 1);
      assert FInv(run[k - 1], ms) by { RunKeeps(inputs, marker, ms, run, k - 1); }
      NextTold(run, k - 1, ms);
    }
  }

  // ---- Counting the errors ----

  function Failures<B>(out: seq<Out<B>>): nat {
    if out == [] then 0 else Failures(out[..|out| - 1]) + if out[|out| - 1].Failed? then 1 else 0
  }

  function Errors(calls: seq<Return<FiberState>>): nat {
    if calls == [] then 0 else Errors(calls[..|calls| - 1]) + if calls[|calls| - 1].outcome.Err? then 1 else 0
  }

  lemma FailuresSnoc<B>(out: seq<Out<B>>, x: Out<B>)
    ensures Failures(out + [x]) == Failures(out) + if x.Failed? then 1 else 0
  {
    assert (out + [x])[..|out|] == out;
  }

  lemma {:induction false} FailuresAreErrors<B>(before: seq<Instruction<B>>, calls: seq<Return<FiberState>>)
    requires Checks(before) <= |calls|
    ensures Failures(OutOf(before, calls)) == Errors(calls[..Checks(before)])
  {
    if before != [] {
      var rest, last := before[..|before| - 1], before[|before| - 1];
      assert before == rest + [last];
      Snoc(rest, last);
      FailuresAreErrors(rest, calls);
      var n := Checks(rest);
      OutSnoc(rest, last, calls);
      assert OutOf(rest, calls) + [] == OutOf(rest, calls);
      match last
      case Emit(item) => FailuresSnoc(OutOf(rest, calls), Delivered(item));
      case Check(_) =>
        assert calls[..n + 1][..n] == calls[..n];
        FailuresSnoc(OutOf(rest, calls), Failed);
      case Finished =>
    }
  }

  lemma {:induction false} NoFailures<B>(out: seq<Out<B>>)
    requires Failures(out) == 0
    ensures forall j | 0 <= j < |out| :: out[j].Delivered?
  {
    if out != [] { NoFailures(out[..|out| - 1]); }
  }

  lemma ToldErrors<B>(f: Fibre<B>, calls: seq<Return<FiberState>>)
    requires Told(f, calls)
    ensures Failures(f.out) == Errors(calls)
  {
    FailuresAreErrors(f.Instructions()[..f.at], calls);
    assert calls[..f.Passed()] == if f.phase == Stopped then calls[..|calls| - 1] else calls;
  }

  /** So a fibre passes on as many errors as its calls returned, and while none did it passes on nothing but items. */
  lemma ErrorsPassedOn<B>(inputs: seq<seq<Item<B>>>, marker: nat, ms: seq<nat>, run: seq<State<B>>, k: nat, i: nat)
    requires Common(inputs, ms) && IsRun(inputs, marker, run) && k < |run| && i < |run[k].fibres|
    ensures var out, calls := run[k].fibres[i].out, CallsOf(run[k].barrier.returned, i);
            && Failures(out) == Errors(calls)
            && (Errors(calls) == 0 ==> forall j | 0 <= j < |out| :: out[j].Delivered?)
  {
    OutputExactly(inputs, marker, ms, run, k);
    var out, calls := run[k].fibres[i].out, CallsOf(run[k].barrier.returned, i);
    assert Told(run[k].fibres[i], calls);
    ToldErrors(run[k].fibres[i], calls);
    if Errors(calls) == 0 { NoFailures(out); }
  }
}
