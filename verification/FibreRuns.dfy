/**
 What every schedule of the fibres keeps: each fibre has passed one check per completed round, all fibres of a round
 stand at the same marker, and a pause holds everybody at the marker it was decided for.
 */
module FibreRuns {
  import opened Wrappers
  import opened Streams
  import Barrier
  import opened BarrierRuns
  import opened Fibres

  ghost predicate Prefixes<B>(s: State<B>, ms: seq<nat>) {
    forall i | 0 <= i < |s.fibres| :: Markers(s.fibres[i].input) <= ms
  }

  /** A fibre against the barrier: how many checks it has passed, and where it stands. */
  ghost predicate Placed<B>(f: Fibre<B>, i: nat, b: System<nat, FiberState>) {
    && f.at <= |f.Instructions()|
    && Items(f.out) == Strip(f.Instructions()[..f.at])
    && (i in b.live <==> f.phase != Ended)
    && (i in b.blocked <==> f.phase == Entered)
    && (f.phase in {Announced, Entered, Stopped} ==> f.AtCheck())
    && (f.phase in {Running, Announced} ==> f.Passed() == b.barrier.id)
    && (f.phase == Entered ==> f.Passed() == b.blocked[i])
    && (f.phase == Stopped ==> f.Passed() + 1 == b.barrier.id)
  }

  ghost predicate AllPlaced<B>(s: State<B>) {
    && (forall i | 0 <= i < |s.fibres| :: Placed(s.fibres[i], i, s.barrier))
    && (forall i | i in s.barrier.live :: i < |s.fibres|)
  }

  ghost predicate MarkersInv<B>(s: State<B>, ms: seq<nat>) {
    var b := s.barrier;
    && !s.mismatch
    && (forall a | a in b.arrivals :: a.round < |ms| && a.f == ms[a.round])
    && (s.waitingOn.Some? && b.live != {} ==> b.barrier.id < |ms| && s.waitingOn.value == ms[b.barrier.id])
  }

  /** No pause has reached anybody yet. */
  ghost predicate Unpaused<B>(fibres: seq<Fibre<B>>, sent: map<nat, Outcome<FiberState>>) {
    && (forall i | 0 <= i < |fibres| :: fibres[i].phase != Stopped)
    && (forall r | r in sent :: sent[r] != Ok(Pause))
  }

  /** Everybody still live is stopped at the last completed round, or will be as soon as it wakes up. */
  ghost predicate Held<B>(fibres: seq<Fibre<B>>, b: System<nat, FiberState>) {
    && b.barrier.id > 0
    && forall i | 0 <= i < |fibres| && i in b.live ::
         || fibres[i].phase == Stopped
         || (i in b.blocked && b.blocked[i] + 1 == b.barrier.id && b.blocked[i] in b.sent
             && b.sent[b.blocked[i]] == Ok(Pause))
  }

  ghost predicate PauseInv<B>(s: State<B>) {
    Unpaused(s.fibres, s.barrier.sent) || Held(s.fibres, s.barrier)
  }

  ghost predicate FInv<B>(s: State<B>, ms: seq<nat>) {
    Inv(s.barrier) && Prefixes(s, ms) && AllPlaced(s) && MarkersInv(s, ms) && PauseInv(s)
  }

  lemma Advance<B>(f: Fibre<B>, o: Out<B>)
    requires f.at < |f.Instructions()|
    ensures var g := f.(at := f.at + 1);
            var x := f.Instructions()[f.at];
            && g.Passed() == f.Passed() + (if x.Check? then 1 else 0)
            && Strip(g.Instructions()[..g.at]) ==
                 Strip(f.Instructions()[..f.at]) + (if x.Emit? then [x.item] else [])
    ensures Items(f.out + [o]) == Items(f.out) + if o.Delivered? then [o.item] else []
  {
    var before := f.Instructions()[..f.at];
    Snoc(before, f.Instructions()[f.at]);
    assert f.Instructions()[..f.at + 1] == before + [f.Instructions()[f.at]];
    assert (f.out + [o])[..|f.out|] == f.out;
  }

  /** The marker a fibre checks next is the one the common sequence has at the current round. */
  lemma NextMarker<B>(s: State<B>, ms: seq<nat>, i: nat)
    requires Prefixes(s, ms) && i < |s.fibres| && s.fibres[i].AtCheck()
    ensures var f := s.fibres[i];
            f.Passed() < |ms| && f.Instructions()[f.at].number == ms[f.Passed()]
  {
    CheckAt(s.fibres[i].input, s.fibres[i].at);
  }

  /** Only a pause can keep a running fibre from moving, so a fibre that moves was not paused. */
  lemma MoverUnpaused<B>(s: State<B>, i: nat)
    requires AllPlaced(s) && PauseInv(s) && i < |s.fibres| && s.fibres[i].phase in {Running, Announced}
    ensures Unpaused(s.fibres, s.barrier.sent)
  {
    assert Placed(s.fibres[i], i, s.barrier);
  }

  /** Within a round only the fibre that moves changes its place. */
  lemma PlacedInRound<B>(s: State<B>, t: State<B>, i: nat)
    requires AllPlaced(s) && i < |s.fibres| == |t.fibres| && t.fibres == s.fibres[i := t.fibres[i]]
    requires t.barrier.barrier.id == s.barrier.barrier.id && t.barrier.live <= s.barrier.live
    requires forall j: nat | j != i ::
               && (j in t.barrier.live <==> j in s.barrier.live)
               && (j in t.barrier.blocked <==> j in s.barrier.blocked)
               && (j in s.barrier.blocked ==> t.barrier.blocked[j] == s.barrier.blocked[j])
    requires Placed(t.fibres[i], i, t.barrier)
    ensures AllPlaced(t)
  {
    forall j | 0 <= j < |t.fibres| ensures Placed(t.fibres[j], j, t.barrier) {
      assert Placed(s.fibres[j], j, s.barrier);
    }
  }

  lemma EmitPlaced<B>(f: Fibre<B>, i: nat, b: System<nat, FiberState>)
    requires Placed(f, i, b) && f.phase == Running && f.at < |f.Instructions()| && f.Instructions()[f.at].Emit?
    ensures Placed(f.(at := f.at + 1, out := f.out + [Delivered(f.Instructions()[f.at].item)]), i, b)
  {
    Advance(f, Delivered(f.Instructions()[f.at].item));
  }

  lemma EmitKeeps<B>(s: State<B>, ms: seq<nat>, i: nat)
    requires FInv(s, ms) && CanMove(s, EmitMove(i))
    ensures FInv(Fibres.Step(s, EmitMove(i)), ms)
  {
    var t := Fibres.Step(s, EmitMove(i));
    MoverUnpaused(s, i);
    EmitPlaced(s.fibres[i], i, s.barrier);
    assert Placed(t.fibres[i], i, t.barrier);
    PlacedInRound(s, t, i);
    assert Unpaused(t.fibres, t.barrier.sent);
  }

  lemma AnnounceKeeps<B>(s: State<B>, ms: seq<nat>, i: nat)
    requires FInv(s, ms) && CanMove(s, AnnounceMove(i))
    ensures FInv(Fibres.Step(s, AnnounceMove(i)), ms)
  {
    var t := Fibres.Step(s, AnnounceMove(i));
    NextMarker(s, ms, i);
    MoverUnpaused(s, i);
    assert Placed(s.fibres[i], i, s.barrier);
    assert Placed(t.fibres[i], i, t.barrier);
    PlacedInRound(s, t, i);
    assert Unpaused(t.fibres, t.barrier.sent);
  }

  /** When a round completes, everybody else is waiting, so the new round starts with everybody placed. */
  lemma PlacedByRound<B>(s: State<B>, t: State<B>, i: nat, e: Execution<nat, FiberState>)
    requires AllPlaced(s) && i < |s.fibres| == |t.fibres| && t.fibres == s.fibres[i := t.fibres[i]]
    requires Unpaused(s.fibres, s.barrier.sent) && Completed1(s.barrier, t.barrier, i, e)
    requires s.barrier.live - {i} <= t.barrier.live
    requires Placed(t.fibres[i], i, t.barrier)
    ensures AllPlaced(t)
  {
    forall j | 0 <= j < |t.fibres| ensures Placed(t.fibres[j], j, t.barrier) {
      assert Placed(s.fibres[j], j, s.barrier);
    }
  }

  /** A completed round either leaves everybody unpaused or holds everybody. */
  lemma PauseOfRound<B>(s: State<B>, t: State<B>, i: nat, e: Execution<nat, FiberState>)
    requires i < |s.fibres| == |t.fibres| && t.fibres == s.fibres[i := t.fibres[i]]
    requires Unpaused(s.fibres, s.barrier.sent) && Completed1(s.barrier, t.barrier, i, e)
    requires t.fibres[i].phase == Stopped ==> e.outcome == Ok(Pause)
    requires e.outcome == Ok(Pause) ==> t.fibres[i].phase in {Stopped, Ended} || Waiters(s.barrier) == {}
    requires t.fibres[i].phase == Ended ==> i !in t.barrier.live
    ensures PauseInv(t)
  {
    if e.outcome == Ok(Pause) && t.fibres[i].phase in {Stopped, Ended} {
      assert Held(t.fibres, t.barrier);
    } else {
      assert Unpaused(t.fibres, t.barrier.sent);
    }
  }

  /** The new state of an `EnterMove`, in terms of what the barrier did. */
  ghost predicate EnteredFrom<B>(s: State<B>, t: State<B>, i: nat)
    requires i < |s.fibres| && s.fibres[i].AtCheck()
  {
    var f := s.fibres[i];
    && Arrived(s.barrier, t.barrier, i, f.Instructions()[f.at].number)
    && t.waitingOn == (if |t.barrier.executions| == |s.barrier.executions| then s.waitingOn else None)
    && t.mismatch == s.mismatch && |t.fibres| == |s.fibres|
    && t.fibres == s.fibres[i := if |t.barrier.returned| == |s.barrier.returned|
                                 then f.(phase := Entered)
                                 else Resolve(f, t.barrier.returned[|s.barrier.returned|].outcome)]
  }

  lemma EnterEffect<B>(s: State<B>, i: nat, eval: nat -> Outcome<FiberState>)
    requires Inv(s.barrier) && CanMove(s, EnterMove(i, eval))
    ensures var t := Fibres.Step(s, EnterMove(i, eval));
            Inv(t.barrier) && EnteredFrom(s, t, i)
  {
    var f := s.fibres[i];
    Preserved(s.barrier, ArriveStep(i, f.Instructions()[f.at].number, eval));
    ArriveCases(s.barrier, i, f.Instructions()[f.at].number, eval);
  }

  lemma EnterPlaced<B>(s: State<B>, t: State<B>, i: nat)
    requires AllPlaced(s) && i < |s.fibres| && s.fibres[i].phase == Announced && s.fibres[i].AtCheck()
    requires EnteredFrom(s, t, i)
    ensures Placed(t.fibres[i], i, t.barrier)
  {
    assert Placed(s.fibres[i], i, s.barrier);
    if |t.barrier.returned| != |s.barrier.returned| {
      ReturnPlaced(s.fibres[i], i, s.barrier, t.barrier, t.barrier.returned[|s.barrier.returned|].outcome);
    }
  }

  /** A fibre whose check returns at once is placed in the round that its arrival opened. */
  lemma ReturnPlaced<B>(f: Fibre<B>, i: nat, b: System<nat, FiberState>, c: System<nat, FiberState>,
                        o: Outcome<FiberState>)
    requires Placed(f, i, b) && f.phase == Announced && f.AtCheck()
    requires c.barrier.id == b.barrier.id + 1 && i in c.live && i !in c.blocked
    ensures Placed(Resolve(f, o), i, c)
  {
    Advance(f, Failed);
  }

  lemma EnterPlacedPaused<B>(s: State<B>, t: State<B>, i: nat)
    requires AllPlaced(s) && i < |s.fibres| && s.fibres[i].phase == Announced && s.fibres[i].AtCheck()
    requires Unpaused(s.fibres, s.barrier.sent) && EnteredFrom(s, t, i) && Placed(t.fibres[i], i, t.barrier)
    ensures AllPlaced(t) && PauseInv(t)
  {
    if |t.barrier.returned| == |s.barrier.returned| {
      PlacedInRound(s, t, i);
      assert Unpaused(t.fibres, t.barrier.sent);
    } else {
      PlacedByRound(s, t, i, t.barrier.executions[|s.barrier.executions|]);
      PauseOfRound(s, t, i, t.barrier.executions[|s.barrier.executions|]);
    }
  }

  lemma EnterMarkers<B>(s: State<B>, t: State<B>, ms: seq<nat>, i: nat)
    requires Prefixes(s, ms) && MarkersInv(s, ms) && i < |s.fibres| && s.fibres[i].AtCheck()
    requires s.fibres[i].Passed() == s.barrier.barrier.id && EnteredFrom(s, t, i)
    ensures MarkersInv(t, ms)
  {
    NextMarker(s, ms, i);
  }

  lemma EnterParts<B>(s: State<B>, t: State<B>, ms: seq<nat>, i: nat)
    requires Prefixes(s, ms) && AllPlaced(s) && MarkersInv(s, ms) && PauseInv(s)
    requires i < |s.fibres| && s.fibres[i].AtCheck() && s.fibres[i].phase == Announced && EnteredFrom(s, t, i)
    ensures Prefixes(t, ms) && AllPlaced(t) && MarkersInv(t, ms) && PauseInv(t)
  {
    MoverUnpaused(s, i);
    EnterPlaced(s, t, i);
    EnterPlacedPaused(s, t, i);
    assert Placed(s.fibres[i], i, s.barrier);
    EnterMarkers(s, t, ms, i);
  }

  lemma EnterKeeps<B>(s: State<B>, ms: seq<nat>, i: nat, eval: nat -> Outcome<FiberState>)
    requires FInv(s, ms) && CanMove(s, EnterMove(i, eval))
    ensures FInv(Fibres.Step(s, EnterMove(i, eval)), ms)
  {
    EnterEffect(s, i, eval);
    EnterParts(s, Fibres.Step(s, EnterMove(i, eval)), ms, i);
  }

  /** The new state of a `ResumeMove`, in terms of what the barrier did. */
  ghost predicate ResumedFrom<B>(s: State<B>, t: State<B>, i: nat) {
    && i < |s.fibres| == |t.fibres| && s.fibres[i].phase == Entered
    && i in s.barrier.blocked && s.barrier.blocked[i] in s.barrier.sent
    && s.barrier.blocked[i] + 1 == s.barrier.barrier.id
    && t.barrier.barrier == s.barrier.barrier && t.barrier.live == s.barrier.live
    && t.barrier.blocked == s.barrier.blocked - {i} && t.barrier.sent == s.barrier.sent
    && t.barrier.arrivals == s.barrier.arrivals && t.waitingOn == s.waitingOn && t.mismatch == s.mismatch
    && t.fibres == s.fibres[i := Resolve(s.fibres[i], s.barrier.sent[s.barrier.blocked[i]])]
  }

  lemma ResumeEffect<B>(s: State<B>, i: nat)
    requires Inv(s.barrier) && CanMove(s, ResumeMove(i))
    ensures var t := Fibres.Step(s, ResumeMove(i));
            Inv(t.barrier) && ResumedFrom(s, t, i)
  {
    Preserved(s.barrier, WakeStep(i));
    assert i !in Waiters(s.barrier);
  }

  lemma ResumePlaced<B>(s: State<B>, t: State<B>, i: nat)
    requires AllPlaced(s) && ResumedFrom(s, t, i)
    ensures AllPlaced(t)
  {
    assert Placed(s.fibres[i], i, s.barrier);
    ResolvePlaced(s.fibres[i], i, s.barrier, t.barrier, s.barrier.sent[s.barrier.blocked[i]]);
    PlacedInRound(s, t, i);
  }

  /** A blocked fibre that gets a result of the previous round is placed in the current one. */
  lemma ResolvePlaced<B>(f: Fibre<B>, i: nat, b: System<nat, FiberState>, c: System<nat, FiberState>,
                         o: Outcome<FiberState>)
    requires Placed(f, i, b) && f.phase == Entered && b.blocked[i] + 1 == c.barrier.id && c.live == b.live
    requires i !in c.blocked
    ensures Placed(Resolve(f, o), i, c)
  {
    Advance(f, Failed);
  }

  lemma ResumePaused<B>(s: State<B>, t: State<B>, i: nat)
    requires AllPlaced(s) && PauseInv(s) && ResumedFrom(s, t, i)
    ensures PauseInv(t)
  {
    if Unpaused(s.fibres, s.barrier.sent) {
      assert Unpaused(t.fibres, t.barrier.sent);
    } else {
      assert Placed(s.fibres[i], i, s.barrier);
      assert Held(t.fibres, t.barrier);
    }
  }

  lemma ResumeParts<B>(s: State<B>, t: State<B>, ms: seq<nat>, i: nat)
    requires FInv(s, ms) && Inv(t.barrier) && ResumedFrom(s, t, i)
    ensures FInv(t, ms)
  {
    ResumePlaced(s, t, i);
    ResumePaused(s, t, i);
  }

  lemma ResumeKeeps<B>(s: State<B>, ms: seq<nat>, i: nat)
    requires FInv(s, ms) && CanMove(s, ResumeMove(i))
    ensures FInv(Fibres.Step(s, ResumeMove(i)), ms)
  {
    ResumeEffect(s, i);
    ResumeParts(s, Fibres.Step(s, ResumeMove(i)), ms, i);
  }

  /** The new state of a `FinishMove`, in terms of what the barrier did. */
  ghost predicate FinishedFrom<B>(s: State<B>, t: State<B>, i: nat) {
    && i < |s.fibres| == |t.fibres| && s.fibres[i].phase == Running
    && Departed(s.barrier, t.barrier, i)
    && t.waitingOn == (if |t.barrier.executions| == |s.barrier.executions| then s.waitingOn else None)
    && t.mismatch == s.mismatch
    && t.fibres == s.fibres[i := s.fibres[i].(phase := Ended)]
  }

  lemma FinishEffect<B>(s: State<B>, i: nat, eval: nat -> Outcome<FiberState>)
    requires Inv(s.barrier) && CanMove(s, FinishMove(i, eval))
    ensures var t := Fibres.Step(s, FinishMove(i, eval));
            Inv(t.barrier) && FinishedFrom(s, t, i)
  {
    Preserved(s.barrier, LeaveStep(i, eval));
    LeaveCases(s.barrier, i, eval);
  }

  lemma FinishPlacedPaused<B>(s: State<B>, t: State<B>, i: nat)
    requires AllPlaced(s) && Unpaused(s.fibres, s.barrier.sent) && FinishedFrom(s, t, i)
    ensures AllPlaced(t) && PauseInv(t)
  {
    assert Placed(s.fibres[i], i, s.barrier);
    assert Placed(t.fibres[i], i, t.barrier);
    if |t.barrier.executions| > |s.barrier.executions| {
      PlacedByRound(s, t, i, t.barrier.executions[|s.barrier.executions|]);
      PauseOfRound(s, t, i, t.barrier.executions[|s.barrier.executions|]);
    } else {
      assert Unpaused(t.fibres, t.barrier.sent);
      if t.barrier.barrier.id == s.barrier.barrier.id {
        PlacedInRound(s, t, i);
      } else {
        forall j | 0 <= j < |t.fibres| ensures Placed(t.fibres[j], j, t.barrier) {
          assert Placed(s.fibres[j], j, s.barrier);
        }
      }
    }
  }

  lemma FinishKeeps<B>(s: State<B>, ms: seq<nat>, i: nat, eval: nat -> Outcome<FiberState>)
    requires FInv(s, ms) && CanMove(s, FinishMove(i, eval))
    ensures FInv(Fibres.Step(s, FinishMove(i, eval)), ms)
  {
    FinishEffect(s, i, eval);
    MoverUnpaused(s, i);
    FinishPlacedPaused(s, Fibres.Step(s, FinishMove(i, eval)), i);
  }

  lemma MoveKeeps<B>(s: State<B>, ms: seq<nat>, m: Move)
    requires FInv(s, ms) && CanMove(s, m)
    ensures FInv(Fibres.Step(s, m), ms)
  {
    match m
    case EmitMove(i) => EmitKeeps(s, ms, i);
    case AnnounceMove(i) => AnnounceKeeps(s, ms, i);
    case EnterMove(i, eval) => EnterKeeps(s, ms, i, eval);
    case ResumeMove(i) => ResumeKeeps(s, ms, i);
    case FinishMove(i, eval) => FinishKeeps(s, ms, i, eval);
  }

  // ---- Runs ----

  ghost predicate Common<B>(inputs: seq<seq<Item<B>>>, ms: seq<nat>) {
    forall i | 0 <= i < |inputs| :: Markers(inputs[i]) <= ms
  }

  ghost predicate StepAt<B>(run: seq<State<B>>, k: nat)
    requires k + 1 < |run|
  {
    exists m :: CanMove(run[k], m) && run[k + 1] == Fibres.Step(run[k], m)
  }

  /** A run: the states a schedule goes through, starting with all fibres at the beginning of their inputs. */
  ghost predicate IsRun<B>(inputs: seq<seq<Item<B>>>, marker: nat, run: seq<State<B>>) {
    && |run| > 0
    && run[0] == Start(inputs, marker)
    && forall k: nat | k + 1 < |run| :: StepAt(run, k)
  }

  /** Every fibre still reads its own input, and the last completed marker is that of the last computation. */
  ghost predicate Bookkept<B>(s: State<B>, inputs: seq<seq<Item<B>>>, marker: nat) {
    var ran := s.barrier.executions;
    && |s.fibres| == |inputs|
    && (forall i | 0 <= i < |inputs| :: s.fibres[i].input == inputs[i])
    && s.lastCompleted == if ran == [] then marker else ran[|ran| - 1].f
  }

  lemma StartInv<B>(inputs: seq<seq<Item<B>>>, marker: nat, ms: seq<nat>)
    requires Common(inputs, ms)
    ensures FInv(Start(inputs, marker), ms) && Bookkept(Start(inputs, marker), inputs, marker)
  {
    var s := Start(inputs, marker);
    InitInv<nat, FiberState>(Indices(|inputs|));
    forall i | 0 <= i < |s.fibres| ensures Placed(s.fibres[i], i, s.barrier) {
      assert s.fibres[i].Instructions()[..0] == [];
    }
  }

  lemma BarrierGrows<B>(s: State<B>, m: Move)
    requires CanMove(s, m)
    ensures var ran := BarrierAfter(s, m).executions;
            s.barrier.executions <= ran && |ran| <= |s.barrier.executions| + 1
  {
    match m
    case EnterMove(i, eval) =>
      ExecutionsGrow(s.barrier, ArriveStep(i, s.fibres[i].Instructions()[s.fibres[i].at].number, eval));
    case ResumeMove(i) => ExecutionsGrow(s.barrier, WakeStep(i));
    case FinishMove(i, eval) => ExecutionsGrow(s.barrier, LeaveStep(i, eval));
    case _ =>
  }

  lemma SameInput<B>(s: State<B>, m: Move)
    requires CanMove(s, m)
    ensures FibreAfter(s, m).input == s.fibres[m.i].input
  {
  }

  lemma BookKeeps<B>(s: State<B>, m: Move, inputs: seq<seq<Item<B>>>, marker: nat)
    requires Bookkept(s, inputs, marker) && CanMove(s, m)
    ensures Bookkept(Fibres.Step(s, m), inputs, marker)
  {
    BarrierGrows(s, m);
    SameInput(s, m);
  }

  lemma NextKeeps<B>(run: seq<State<B>>, k: nat, ms: seq<nat>, inputs: seq<seq<Item<B>>>, marker: nat)
    requires k + 1 < |run| && StepAt(run, k)
    requires FInv(run[k], ms) && Bookkept(run[k], inputs, marker)
    ensures FInv(run[k + 1], ms) && Bookkept(run[k + 1], inputs, marker)
  {
    var m :| CanMove(run[k], m) && run[k + 1] == Fibres.Step(run[k], m);
    assert FInv(run[k + 1], ms) by { MoveKeeps(run[k], ms, m); }
    assert Bookkept(run[k + 1], inputs, marker) by { BookKeeps(run[k], m, inputs, marker); }
  }

  lemma {:induction false} RunKeeps<B>(inputs: seq<seq<Item<B>>>, marker: nat, ms: seq<nat>,
                                       run: seq<State<B>>, k: nat)
    requires Common(inputs, ms) && IsRun(inputs, marker, run) && k < |run|
    ensures FInv(run[k], ms) && Bookkept(run[k], inputs, marker)
  {
    if k == 0 {
      StartInv(inputs, marker, ms);
    } else {
      RunKeeps(inputs, marker, ms, run, k - 1);
      NextKeeps(run, k - 1, ms, inputs, marker);
    }
  }

  /** A fibre that waits, stopped, or has just passed its check delivered its input through that marker. */
  lemma DeliveredThrough<B>(f: Fibre<B>, g: Fibre<B>)
    requires f.AtCheck() && Items(f.out) == Strip(f.Instructions()[..f.at])
    requires g == f || (exists o :: g == Resolve(f, o))
    ensures Items(g.out) == ThroughMarker(f.input, f.Passed())
  {
    CheckAt(f.input, f.at);
    Advance(f, Failed);
  }

  lemma {:induction false} FirstInArrivals<F>(arrivals: seq<Arrival<F>>, round: nat)
    ensures FirstIn(arrivals, round).Some? ==>
              exists a | a in arrivals :: a.round == round && FirstIn(arrivals, round) == Some(a.f)
  {
    if arrivals != [] {
      var last := arrivals[|arrivals| - 1];
      FirstInArrivals(arrivals[..|arrivals| - 1], round);
      assert last in arrivals;
    }
  }

  lemma CutMarker<B>(t: State<B>, ms: seq<nat>, e: Execution<nat, FiberState>)
    requires LogInv(t.barrier) && MarkersInv(t, ms) && e in t.barrier.executions
    ensures e.round < |ms| && e.f == ms[e.round]
  {
    FirstInArrivals(t.barrier.arrivals, e.round);
  }

  /** The move `m` completes a round of `s` by running its computation, leading to `t`. */
  ghost predicate Completing<B>(s: State<B>, m: Move, t: State<B>) {
    CanMove(s, m) && t == Fibres.Step(s, m) && |t.barrier.executions| > |s.barrier.executions|
  }

  /** Only entering and finishing can complete a round. */
  lemma CompletingCases<B>(s: State<B>, m: Move, t: State<B>)
    requires Inv(s.barrier) && Completing(s, m, t)
    ensures match m
            case EnterMove(i, _) => s.fibres[i].AtCheck() && s.fibres[i].phase == Announced && EnteredFrom(s, t, i)
            case FinishMove(i, _) => FinishedFrom(s, t, i)
            case _ => false
    ensures t.waitingOn == None && |t.barrier.executions| == |s.barrier.executions| + 1
    ensures Completed1(s.barrier, t.barrier, m.i, t.barrier.executions[|s.barrier.executions|])
  {
    match m
    case EnterMove(i, eval) => EnterEffect(s, i, eval);
    case FinishMove(i, eval) => FinishEffect(s, i, eval);
    case _ =>
  }

  lemma CutDelivered<B>(s: State<B>, t: State<B>, i: nat, j: nat, e: Execution<nat, FiberState>)
    requires AllPlaced(s) && i < |s.fibres| && j < |s.fibres| && j in t.barrier.live
    requires Completed1(s.barrier, t.barrier, i, e)
    requires s.fibres[i].phase == Announced || i !in t.barrier.live
    requires |t.fibres| == |s.fibres| && t.fibres == s.fibres[i := t.fibres[i]]
    requires i in t.barrier.live ==> exists o :: t.fibres[i] == Resolve(s.fibres[i], o)
    ensures Items(t.fibres[j].out) == ThroughMarker(s.fibres[j].input, e.round)
  {
    assert Placed(s.fibres[j], j, s.barrier);
    DeliveredThrough(s.fibres[j], t.fibres[j]);
  }

  lemma CutEverywhere<B>(s: State<B>, m: Move, t: State<B>)
    requires Inv(s.barrier) && AllPlaced(s) && Completing(s, m, t)
    ensures t.waitingOn == None && |t.fibres| == |s.fibres|
    ensures forall j | 0 <= j < |s.fibres| && j in t.barrier.live ::
              Items(t.fibres[j].out) == ThroughMarker(s.fibres[j].input,
                                                      t.barrier.executions[|t.barrier.executions| - 1].round)
  {
    CompletingCases(s, m, t);
    var e := t.barrier.executions[|s.barrier.executions|];
    forall j | 0 <= j < |s.fibres| && j in t.barrier.live
      ensures Items(t.fibres[j].out) == ThroughMarker(s.fibres[j].input, e.round)
    {
      CutDelivered(s, t, m.i, j, e);
    }
  }

  lemma CutState<B>(s: State<B>, m: Move, t: State<B>, ms: seq<nat>)
    requires FInv(s, ms) && Completing(s, m, t)
    ensures !t.mismatch
    ensures var e := t.barrier.executions[|t.barrier.executions| - 1];
            e.round < |ms| && e.f == ms[e.round]
  {
    MoveKeeps(s, ms, m);
    CutMarker(t, ms, t.barrier.executions[|t.barrier.executions| - 1]);
  }

  /** The cut a completing move makes: the round's marker, and what every fibre in the barrier has delivered. */
  ghost predicate CutMade<B>(t: State<B>, inputs: seq<seq<Item<B>>>, ms: seq<nat>) {
    && |t.barrier.executions| > 0
    && var e := t.barrier.executions[|t.barrier.executions| - 1];
       && |t.fibres| == |inputs| && !t.mismatch
       && e.round < |ms| && e.f == ms[e.round] == t.lastCompleted && t.waitingOn == None
       && forall i | 0 <= i < |inputs| && i in t.barrier.live ::
            Items(t.fibres[i].out) == ThroughMarker(inputs[i], e.round)
  }

  lemma CutFrom<B>(s: State<B>, m: Move, t: State<B>, inputs: seq<seq<Item<B>>>, marker: nat, ms: seq<nat>)
    requires FInv(s, ms) && Bookkept(s, inputs, marker) && Completing(s, m, t)
    ensures CutMade(t, inputs, ms)
  {
    CutState(s, m, t, ms);
    CutEverywhere(s, m, t);
    assert Bookkept(t, inputs, marker) by { BookKeeps(s, m, inputs, marker); }
  }

  /**
   Consistent cut. When a round completes, its marker is the common sequence's marker of that round, it becomes the
   last completed marker, and every fibre still in the barrier has delivered exactly its input through that marker.
   */
  lemma ConsistentCut<B>(inputs: seq<seq<Item<B>>>, marker: nat, ms: seq<nat>, run: seq<State<B>>, k: nat,
                         m: Move, t: State<B>)
    requires Common(inputs, ms) && IsRun(inputs, marker, run) && k < |run| && Completing(run[k], m, t)
    ensures CutMade(t, inputs, ms)
  {
    RunKeeps(inputs, marker, ms, run, k);
    CutFrom(run[k], m, t, inputs, marker, ms);
  }

  /** In every reachable state nobody ever met the "different marker" error. */
  lemma NoMismatch<B>(inputs: seq<seq<Item<B>>>, marker: nat, ms: seq<nat>, run: seq<State<B>>, k: nat)
    requires Common(inputs, ms) && IsRun(inputs, marker, run) && k < |run|
    ensures !run[k].mismatch
  {
    RunKeeps(inputs, marker, ms, run, k);
  }

  lemma HeldDelivered<B>(s: State<B>, i: nat)
    requires AllPlaced(s) && Held(s.fibres, s.barrier) && i < |s.fibres| && i in s.barrier.live
    ensures Items(s.fibres[i].out) == ThroughMarker(s.fibres[i].input, s.barrier.barrier.id - 1)
  {
    assert Placed(s.fibres[i], i, s.barrier);
    DeliveredThrough(s.fibres[i], s.fibres[i]);
  }

  lemma HeldMoves<B>(s: State<B>, m: Move)
    requires AllPlaced(s) && Held(s.fibres, s.barrier) && CanMove(s, m)
    ensures Fibres.Step(s, m).fibres == s.fibres[m.i := s.fibres[m.i].(phase := Stopped)]
    ensures Fibres.Step(s, m).barrier.executions == s.barrier.executions
  {
    assert Placed(s.fibres[m.i], m.i, s.barrier);
  }

  /** A pause that stopped one fibre holds all: each has delivered its input through the last completed marker. */
  lemma PauseHolds<B>(inputs: seq<seq<Item<B>>>, marker: nat, ms: seq<nat>, run: seq<State<B>>, k: nat, stopped: nat)
    requires Common(inputs, ms) && IsRun(inputs, marker, run) && k < |run|
    requires stopped < |run[k].fibres| && run[k].fibres[stopped].phase == Stopped
    ensures var s := run[k];
            && Held(s.fibres, s.barrier) && |s.fibres| == |inputs|
            && forall i | 0 <= i < |inputs| && i in s.barrier.live ::
                 Items(s.fibres[i].out) == ThroughMarker(inputs[i], s.barrier.barrier.id - 1)
  {
    var s := run[k];
    assert AllPlaced(s) && PauseInv(s) && Bookkept(s, inputs, marker) by { RunKeeps(inputs, marker, ms, run, k); }
    forall i | 0 <= i < |inputs| && i in s.barrier.live
      ensures Items(s.fibres[i].out) == ThroughMarker(inputs[i], s.barrier.barrier.id - 1)
    {
      HeldDelivered(s, i);
    }
  }

  /** After a pause no move delivers another item, completes another round, or lets anybody go on. */
  lemma PauseIsFinal<B>(inputs: seq<seq<Item<B>>>, marker: nat, ms: seq<nat>, run: seq<State<B>>, k: nat,
                        stopped: nat, m: Move)
    requires Common(inputs, ms) && IsRun(inputs, marker, run) && k < |run|
    requires stopped < |run[k].fibres| && run[k].fibres[stopped].phase == Stopped && CanMove(run[k], m)
    ensures var s := run[k];
            var t := Fibres.Step(s, m);
            && t.barrier.executions == s.barrier.executions
            && t.fibres == s.fibres[m.i := s.fibres[m.i].(phase := Stopped)]
  {
    PauseHolds(inputs, marker, ms, run, k, stopped);
    assert AllPlaced(run[k]) by { RunKeeps(inputs, marker, ms, run, k); }
    HeldMoves(run[k], m);
  }

  /** The fibre that enters completes a shared round nobody waits for, because all the others left during it. */
  ghost predicate LoneEnter<B>(s: State<B>, m: Move) {
    m.EnterMove? && !s.barrier.barrier.solo && Waiters(s.barrier) == {}
  }

  lemma PauseEntered<B>(s: State<B>, t: State<B>, i: nat)
    requires i < |s.fibres| && s.fibres[i].AtCheck() && EnteredFrom(s, t, i)
    requires |t.barrier.executions| > |s.barrier.executions| && i !in s.barrier.blocked
    requires t.barrier.executions[|s.barrier.executions|].outcome == Ok(Pause)
    ensures Held(t.fibres, t.barrier) <==> s.barrier.barrier.solo || Waiters(s.barrier) != {}
  {
    assert i in t.barrier.live;
    if !s.barrier.barrier.solo && Waiters(s.barrier) == {} {
      assert t.fibres[i].phase == Running;
    }
  }

  lemma PauseFinished<B>(s: State<B>, t: State<B>, i: nat)
    requires FinishedFrom(s, t, i) && |t.barrier.executions| > |s.barrier.executions|
    requires t.barrier.executions[|s.barrier.executions|].outcome == Ok(Pause)
    ensures Held(t.fibres, t.barrier)
  {
  }

  lemma PauseStep<B>(s: State<B>, m: Move, t: State<B>)
    requires Inv(s.barrier) && Completing(s, m, t)
    requires t.barrier.executions[|t.barrier.executions| - 1].outcome == Ok(Pause)
    ensures Held(t.fibres, t.barrier) <==> !LoneEnter(s, m)
  {
    CompletingCases(s, m, t);
    match m
    case EnterMove(i, _) => PauseEntered(s, t, i);
    case FinishMove(i, _) => PauseFinished(s, t, i);
  }

  /** A pause decided by a round takes hold exactly when the completing fibre is not alone. */
  lemma PauseTakesHold<B>(inputs: seq<seq<Item<B>>>, marker: nat, ms: seq<nat>, run: seq<State<B>>, k: nat,
                          m: Move, t: State<B>)
    requires Common(inputs, ms) && IsRun(inputs, marker, run) && k < |run| && Completing(run[k], m, t)
    requires t.barrier.executions[|t.barrier.executions| - 1].outcome == Ok(Pause)
    ensures Held(t.fibres, t.barrier) <==> !LoneEnter(run[k], m)
  {
    assert Inv(run[k].barrier) by { RunKeeps(inputs, marker, ms, run, k); }
    PauseStep(run[k], m, t);
  }

  // ---- Progress ----

  /** A fibre that has not ended has an instruction to go on with. */
  ghost predicate Unfinished<B>(s: State<B>) {
    forall i | 0 <= i < |s.fibres| && s.fibres[i].phase != Ended :: s.fibres[i].at < |s.fibres[i].Instructions()|
  }

  lemma {:induction false} EndsFinished<B>(s: seq<Item<B>>)
    ensures Insert(s) != [] && Insert(s)[|Insert(s)| - 1] == Finished
  {
    if s != [] { EndsFinished(s[1..]); }
  }

  /** The fibre that moves has an instruction after a marker's, an item's or a check's. */
  lemma FibreUnfinished<B>(s: State<B>, m: Move)
    requires AllPlaced(s) && CanMove(s, m)
    ensures var g := FibreAfter(s, m); g.phase != Ended ==> g.at < |g.Instructions()|
  {
    assert Placed(s.fibres[m.i], m.i, s.barrier);
    EndsFinished(s.fibres[m.i].input);
  }

  lemma MoveUnfinished<B>(s: State<B>, m: Move, t: State<B>)
    requires AllPlaced(s) && Unfinished(s) && CanMove(s, m) && t.fibres == s.fibres[m.i := FibreAfter(s, m)]
    ensures Unfinished(t)
  {
    FibreUnfinished(s, m);
  }

  lemma StepFibres<B>(s: State<B>, m: Move)
    requires CanMove(s, m)
    ensures Fibres.Step(s, m).fibres == s.fibres[m.i := FibreAfter(s, m)]
  {
  }

  lemma NextUnfinished<B>(run: seq<State<B>>, k: nat)
    requires k + 1 < |run| && AllPlaced(run[k]) && Unfinished(run[k]) && StepAt(run, k)
    ensures Unfinished(run[k + 1])
  {
    var m :| CanMove(run[k], m) && run[k + 1] == Fibres.Step(run[k], m);
    StepFibres(run[k], m);
    MoveUnfinished(run[k], m, run[k + 1]);
  }

  lemma {:induction false} RunUnfinished<B>(inputs: seq<seq<Item<B>>>, marker: nat, ms: seq<nat>, run: seq<State<B>>,
                                            k: nat)
    requires Common(inputs, ms) && IsRun(inputs, marker, run) && k < |run|
    ensures Unfinished(run[k])
  {
    if k == 0 {
      forall i | 0 <= i < |inputs| ensures Insert(inputs[i]) != [] { EndsFinished(inputs[i]); }
    } else {
      RunUnfinished(inputs, marker, ms, run, k - 1);
      assert AllPlaced(run[k - 1]) by { RunKeeps(inputs, marker, ms, run, k - 1); }
      NextUnfinished(run, k - 1);
    }
  }

  ghost predicate SomeMove<B>(s: State<B>) {
    exists m :: CanMove(s, m)
  }

  ghost predicate Going<B>(s: State<B>) {
    exists i | 0 <= i < |s.fibres| :: i in s.barrier.live && s.fibres[i].phase != Stopped
  }

  /** A live fibre that is not stopped and not blocked can move. */
  lemma FreeMoves<B>(s: State<B>, i: nat)
    requires AllPlaced(s) && Unfinished(s) && i < |s.fibres| && i in s.barrier.live && i !in s.barrier.blocked
    requires s.fibres[i].phase != Stopped
    ensures SomeMove(s)
  {
    var f := s.fibres[i];
    assert Placed(f, i, s.barrier);
    var eval := (n: nat) => Ok(Continue);
    var next := f.Instructions()[f.at];
    if f.phase == Announced {
      assert CanMove(s, EnterMove(i, eval));
    } else if next.Emit? {
      assert CanMove(s, EmitMove(i));
    } else if next.Check? {
      assert CanMove(s, AnnounceMove(i));
    } else {
      assert CanMove(s, FinishMove(i, eval));
    }
  }

  lemma BlockedMoves<B>(s: State<B>, i: nat)
    requires AllPlaced(s) && i < |s.fibres| && i in s.barrier.blocked && s.barrier.blocked[i] in s.barrier.sent
    ensures SomeMove(s)
  {
    assert Placed(s.fibres[i], i, s.barrier);
    assert CanMove(s, ResumeMove(i));
  }

  /** Somebody in the barrier has not arrived in its round, or can be woken. */
  lemma NotAllWait(b: System<nat, FiberState>) returns (p: nat)
    requires Inv(b) && b.live != {}
    ensures p in b.live && (p !in b.blocked || b.blocked[p] in b.sent)
  {
    var rest := b.live - Waiters(b);
    assert b.live == Waiters(b) + rest;
    assert rest != {};
    p :| p in rest;
  }

  lemma GoingMoves<B>(s: State<B>)
    requires Inv(s.barrier) && AllPlaced(s) && PauseInv(s) && Unfinished(s) && Going(s)
    ensures SomeMove(s)
  {
    var i :| 0 <= i < |s.fibres| && i in s.barrier.live && s.fibres[i].phase != Stopped;
    if Held(s.fibres, s.barrier) {
      BlockedMoves(s, i);
    } else {
      var p := NotAllWait(s.barrier);
      if p in s.barrier.blocked { BlockedMoves(s, p); } else { FreeMoves(s, p); }
    }
  }

  /** The fibres never get stuck: in every reachable state a move is possible exactly if a live fibre is not stopped. */
  lemma FibresNeverStuck<B>(inputs: seq<seq<Item<B>>>, marker: nat, ms: seq<nat>, run: seq<State<B>>, k: nat)
    requires Common(inputs, ms) && IsRun(inputs, marker, run) && k < |run|
    ensures SomeMove(run[k]) <==> Going(run[k])
  {
    var s := run[k];
    RunKeeps(inputs, marker, ms, run, k);
    RunUnfinished(inputs, marker, ms, run, k);
    if Going(s) {
      GoingMoves(s);
    }
    if SomeMove(s) {
      var m :| CanMove(s, m);
      assert Placed(s.fibres[m.i], m.i, s.barrier);
    }
  }

  // ---- A pause that is missed ----

  /** One fibre whose stream is a single marker, and one whose stream is empty. */
  function Pair<B>(first: Fibre<B>, other: Phase, barrier: System<nat, FiberState>, waitingOn: Option<nat>, last: nat)
    : State<B>
  {
    State([first, Fibre([], 0, other, [])], barrier, waitingOn, last, false)
  }

  function First<B>(at: nat, phase: Phase, out: seq<Out<B>>): Fibre<B> {
    Fibre([Marker(1)], at, phase, out)
  }

  function Idle(live: set<nat>, n: nat): System<nat, FiberState> {
    System(Barrier.Round(false, n, 0, None, 0), live, map[], map[], [], [], [])
  }

  /** The states one after the other: the empty fibre finishes, then the other emits, announces and enters. */
  function Missed<B>(k: nat): State<B> {
    var sent := [Delivered(Marker(1))];
    if k == 0 then Pair(First(0, Running, []), Running, Idle({0, 1}, 2), None, 0)
    else if k == 1 then Pair(First(0, Running, []), Ended, Idle({0}, 1), None, 0)
    else if k == 2 then Pair(First(1, Running, sent), Ended, Idle({0}, 1), None, 0)
    else if k == 3 then Pair(First(1, Announced, sent), Ended, Idle({0}, 1), Some(1), 0)
    else Pair(First(2, Running, sent + [Failed]), Ended,
              System(Barrier.Round(true, 1, 0, None, 1), {0}, map[], map[], [Arrival(0, 0, 1)],
                     [Execution(0, 1, Ok(Pause))], [Return(0, 0, Err(Barrier.DROPPED), Completed(false, 0))]), None, 1)
  }

  function Decide(number: nat): Outcome<FiberState> {
    Ok(Pause)
  }

  function MissedMove(k: nat): Move {
    if k == 0 then FinishMove(1, Decide)
    else if k == 1 then EmitMove(0)
    else if k == 2 then AnnounceMove(0)
    else EnterMove(0, Decide)
  }

  lemma ExampleInstructions<B>()
    ensures Insert<B>([]) == [Finished]
    ensures Insert<B>([Marker(1)]) == [Emit(Marker(1)), Check(1), Finished]
    ensures Markers<B>([]) == [] && Markers<B>([Marker(1)]) == [1]
  {
    var one: seq<Item<B>> := [Marker(1)];
    assert one[1..] == [];
  }

  lemma MissedStart<B>()
    ensures Start<B>([[Marker(1)], []], 0) == Missed(0)
  {
    assert Indices(2) == {0, 1};
    assert |{0, 1}| == 2;
  }

  lemma MissedStep<B>(k: nat)
    requires k < 3
    ensures CanMove(Missed<B>(k), MissedMove(k)) && Fibres.Step(Missed<B>(k), MissedMove(k)) == Missed(k + 1)
  {
    ExampleInstructions<B>();
    var s, t, i := Missed<B>(k), Missed<B>(k + 1), MissedMove(k).i;
    assert {0, 1} - {1} == {0};
    assert k == 1 ==> s.fibres[0].out + [Delivered(Marker(1))] == t.fibres[0].out;
    assert t.fibres == s.fibres[i := t.fibres[i]];
  }

  lemma StepBy<B>(run: seq<State<B>>, k: nat, m: Move)
    requires k + 1 < |run| && CanMove(run[k], m) && run[k + 1] == Fibres.Step(run[k], m)
    ensures StepAt(run, k)
  {
  }

  lemma MissedRun<B>() returns (run: seq<State<B>>)
    ensures IsRun([[Marker(1)], []], 0, run) && |run| == 4 && run[3] == Missed(3)
  {
    run := [Missed(0), Missed(1), Missed(2), Missed(3)];
    MissedStart<B>();
    forall k: nat | k + 1 < |run| ensures StepAt(run, k) {
      MissedStep<B>(k);
      assert run[k] == Missed(k) && run[k + 1] == Missed(k + 1);
      StepBy(run, k, MissedMove(k));
    }
  }

  lemma MissedEnter<B>()
    ensures Completing(Missed<B>(3), MissedMove(3), Missed(4)) && LoneEnter(Missed<B>(3), MissedMove(3))
  {
    ExampleInstructions<B>();
    assert Waiters(Missed<B>(3).barrier) == {};
  }

  lemma MissedHold<B>()
    ensures !Held(Missed<B>(4).fibres, Missed<B>(4).barrier)
  {
    var t := Missed<B>(4);
    assert t.fibres[0].phase == Running && 0 in t.barrier.live && 0 !in t.barrier.blocked;
  }

  /**
   A pause need not take hold. Two fibres, one with an empty stream that finishes, the other with one marker: its
   round decides to pause, yet it gets an error instead and runs on.
   */
  lemma PauseCanBeMissed<B>() returns (run: seq<State<B>>)
    ensures Common<B>([[Marker(1)], []], [1]) && IsRun([[Marker(1)], []], 0, run) && run[|run| - 1] == Missed(3)
    ensures Completing(Missed<B>(3), MissedMove(3), Missed(4)) && LoneEnter(Missed<B>(3), MissedMove(3))
    ensures Missed<B>(4).barrier.executions == [Execution(0, 1, Ok(Pause))]
    ensures !Held(Missed<B>(4).fibres, Missed<B>(4).barrier) && Missed<B>(4).fibres[0].phase == Running
  {
    run := MissedRun();
    ExampleInstructions<B>();
    MissedEnter<B>();
    MissedHold<B>();
  }
}
