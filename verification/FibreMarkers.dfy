/**
 Fibres with any inputs at all, whether their markers agree or not: no round ever mixes two markers, and the error for
 a different marker appears exactly when another fibre of the round stands at another one.
 */
module FibreMarkers {
  import opened Wrappers
  import opened Streams
  import opened BarrierRuns
  import opened Fibres
  import opened FibreRuns

  /** The fibre has announced its marker in the current round, or waits in it. */
  ghost predicate Engaged<B>(f: Fibre<B>, i: nat, b: System<nat, FiberState>) {
    f.phase == Announced || (f.phase == Entered && i in b.blocked && b.blocked[i] == b.barrier.id)
  }

  /** The number of the marker the fibre checks. */
  ghost function MarkerOf<B>(f: Fibre<B>): nat
    requires f.AtCheck()
  {
    f.Instructions()[f.at].number
  }

  /** How a fibre's phase fits the barrier; one that takes part in the round stands at the marker everybody waits on. */
  ghost predicate Fits<B>(f: Fibre<B>, i: nat, b: System<nat, FiberState>, waitingOn: Option<nat>) {
    && (i in b.live <==> f.phase != Ended)
    && (i in b.blocked <==> f.phase == Entered)
    && (f.phase in {Announced, Entered} ==> f.AtCheck())
    && (Engaged(f, i, b) ==> waitingOn == Some(MarkerOf(f)))
  }

  ghost predicate AllFit<B>(s: State<B>) {
    && (forall i | 0 <= i < |s.fibres| :: Fits(s.fibres[i], i, s.barrier, s.waitingOn))
    && (forall i | i in s.barrier.live :: i < |s.fibres|)
  }

  /** Somebody waits on the marker cell, if it is set. */
  ghost predicate SomeEngaged<B>(s: State<B>) {
    s.waitingOn.Some? ==> exists i | 0 <= i < |s.fibres| :: Engaged(s.fibres[i], i, s.barrier)
  }

  /** All arrivals of the current round carry the marker waited on, and those of any one round carry the same. */
  ghost predicate OneMarker(arrivals: seq<Arrival<nat>>, id: nat, waitingOn: Option<nat>) {
    && (forall a | a in arrivals :: a.round <= id && (a.round == id ==> waitingOn == Some(a.f)))
    && (forall a, b | a in arrivals && b in arrivals && a.round == b.round :: a.f == b.f)
  }

  ghost predicate GInv<B>(s: State<B>) {
    && Inv(s.barrier) && AllFit(s) && SomeEngaged(s)
    && OneMarker(s.barrier.arrivals, s.barrier.barrier.id, s.waitingOn)
  }

  /** The round goes on and only fibre `i` changes. */
  lemma FitInRound<B>(s: State<B>, t: State<B>, i: nat)
    requires AllFit(s) && i < |s.fibres| == |t.fibres| && t.fibres == s.fibres[i := t.fibres[i]]
    requires t.barrier.barrier.id == s.barrier.barrier.id && t.barrier.live <= s.barrier.live
    requires forall j: nat | j != i ::
               && (j in t.barrier.live <==> j in s.barrier.live)
               && (j in t.barrier.blocked <==> j in s.barrier.blocked)
               && (j in s.barrier.blocked ==> t.barrier.blocked[j] == s.barrier.blocked[j])
    requires s.waitingOn.Some? ==> t.waitingOn == s.waitingOn
    requires Fits(t.fibres[i], i, t.barrier, t.waitingOn)
    ensures AllFit(t)
  {
    forall j | 0 <= j < |t.fibres| ensures Fits(t.fibres[j], j, t.barrier, t.waitingOn) {
      assert Fits(s.fibres[j], j, s.barrier, s.waitingOn);
    }
  }

  /** A round that is over leaves nobody engaged: everybody else was waiting in it. */
  lemma FitNextRound<B>(s: State<B>, t: State<B>, i: nat)
    requires AllFit(s) && i < |s.fibres| == |t.fibres| && t.fibres == s.fibres[i := t.fibres[i]]
    requires t.barrier.barrier.id == s.barrier.barrier.id + 1 && t.barrier.blocked == s.barrier.blocked
    requires s.barrier.live - {i} <= t.barrier.live <= s.barrier.live == Waiters(s.barrier) + {i}
    requires t.fibres[i].phase !in {Announced, Entered} && (i in t.barrier.live <==> t.fibres[i].phase != Ended)
    requires i !in s.barrier.blocked
    ensures AllFit(t)
  {
    forall j | 0 <= j < |t.fibres| ensures Fits(t.fibres[j], j, t.barrier, t.waitingOn) {
      assert Fits(s.fibres[j], j, s.barrier, s.waitingOn);
    }
  }

  lemma OneMarkerSnoc(arrivals: seq<Arrival<nat>>, a: Arrival<nat>)
    requires OneMarker(arrivals, a.round, Some(a.f))
    ensures OneMarker(arrivals + [a], a.round, Some(a.f))
  {
  }

  lemma OneMarkerNext(arrivals: seq<Arrival<nat>>, id: nat, waitingOn: Option<nat>, next: Option<nat>)
    requires OneMarker(arrivals, id, waitingOn)
    ensures OneMarker(arrivals, id + 1, next)
  {
  }

  lemma AnnounceFits<B>(s: State<B>, i: nat)
    requires GInv(s) && CanMove(s, AnnounceMove(i))
    ensures GInv(Fibres.Step(s, AnnounceMove(i)))
  {
    var t := Fibres.Step(s, AnnounceMove(i));
    assert Fits(s.fibres[i], i, s.barrier, s.waitingOn);
    FitInRound(s, t, i);
    if t.fibres[i].phase == Announced {
      assert Engaged(t.fibres[i], i, t.barrier);
    } else {
      var j :| 0 <= j < |s.fibres| && Engaged(s.fibres[j], j, s.barrier);
      assert Engaged(t.fibres[j], j, t.barrier);
    }
  }

  lemma EmitFits<B>(s: State<B>, i: nat)
    requires GInv(s) && CanMove(s, EmitMove(i))
    ensures GInv(Fibres.Step(s, EmitMove(i)))
  {
    var t := Fibres.Step(s, EmitMove(i));
    assert Fits(s.fibres[i], i, s.barrier, s.waitingOn);
    FitInRound(s, t, i);
    EngagedStays(s, t, i);
  }

  /** A fibre that was not engaged moves, and those that were stay so. */
  lemma EngagedStays<B>(s: State<B>, t: State<B>, i: nat)
    requires SomeEngaged(s) && i < |s.fibres| == |t.fibres| && t.fibres == s.fibres[i := t.fibres[i]]
    requires t.waitingOn == s.waitingOn && t.barrier.barrier.id == s.barrier.barrier.id
    requires forall j: nat | j != i && j in s.barrier.blocked ::
               j in t.barrier.blocked && t.barrier.blocked[j] == s.barrier.blocked[j]
    requires Engaged(s.fibres[i], i, s.barrier) ==> Engaged(t.fibres[i], i, t.barrier)
    ensures SomeEngaged(t)
  {
    if s.waitingOn.Some? {
      var j :| 0 <= j < |s.fibres| && Engaged(s.fibres[j], j, s.barrier);
      assert Engaged(t.fibres[j], j, t.barrier);
    }
  }

  lemma EnterFits<B>(s: State<B>, i: nat, eval: nat -> Outcome<FiberState>)
    requires GInv(s) && CanMove(s, EnterMove(i, eval))
    ensures GInv(Fibres.Step(s, EnterMove(i, eval)))
  {
    var t := Fibres.Step(s, EnterMove(i, eval));
    EnterEffect(s, i, eval);
    assert Fits(s.fibres[i], i, s.barrier, s.waitingOn) && Engaged(s.fibres[i], i, s.barrier);
    EnterFitsFrom(s, t, i);
  }

  lemma EnterFitsFrom<B>(s: State<B>, t: State<B>, i: nat)
    requires AllFit(s) && SomeEngaged(s) && OneMarker(s.barrier.arrivals, s.barrier.barrier.id, s.waitingOn)
    requires i < |s.fibres| && s.fibres[i].phase == Announced && s.fibres[i].AtCheck() && i in s.barrier.live
    requires i !in s.barrier.blocked && s.waitingOn == Some(MarkerOf(s.fibres[i]))
    requires EnteredFrom(s, t, i)
    ensures AllFit(t) && SomeEngaged(t) && OneMarker(t.barrier.arrivals, t.barrier.barrier.id, t.waitingOn)
  {
    var id := s.barrier.barrier.id;
    OneMarkerSnoc(s.barrier.arrivals, Arrival(id, i, MarkerOf(s.fibres[i])));
    if |t.barrier.returned| == |s.barrier.returned| {
      FitInRound(s, t, i);
      EngagedStays(s, t, i);
    } else {
      FitNextRound(s, t, i);
      OneMarkerNext(t.barrier.arrivals, id, s.waitingOn, t.waitingOn);
    }
  }

  lemma ResumeFits<B>(s: State<B>, i: nat)
    requires GInv(s) && CanMove(s, ResumeMove(i))
    ensures GInv(Fibres.Step(s, ResumeMove(i)))
  {
    var t := Fibres.Step(s, ResumeMove(i));
    ResumeEffect(s, i);
    assert Fits(s.fibres[i], i, s.barrier, s.waitingOn);
    FitInRound(s, t, i);
    EngagedStays(s, t, i);
  }

  lemma FinishFits<B>(s: State<B>, i: nat, eval: nat -> Outcome<FiberState>)
    requires GInv(s) && CanMove(s, FinishMove(i, eval))
    ensures GInv(Fibres.Step(s, FinishMove(i, eval)))
  {
    var t := Fibres.Step(s, FinishMove(i, eval));
    FinishEffect(s, i, eval);
    assert Fits(s.fibres[i], i, s.barrier, s.waitingOn);
    FinishFitsFrom(s, t, i);
  }

  lemma FinishFitsFrom<B>(s: State<B>, t: State<B>, i: nat)
    requires AllFit(s) && SomeEngaged(s) && OneMarker(s.barrier.arrivals, s.barrier.barrier.id, s.waitingOn)
    requires FinishedFrom(s, t, i) && i in s.barrier.live && i !in s.barrier.blocked
    ensures AllFit(t) && SomeEngaged(t) && OneMarker(t.barrier.arrivals, t.barrier.barrier.id, t.waitingOn)
  {
    if t.barrier.barrier.id == s.barrier.barrier.id {
      FitInRound(s, t, i);
      EngagedStays(s, t, i);
    } else if |t.barrier.executions| > |s.barrier.executions| {
      FitNextRound(s, t, i);
      OneMarkerNext(s.barrier.arrivals, s.barrier.barrier.id, s.waitingOn, t.waitingOn);
    } else {
      FinishLast(s, t, i);
      OneMarkerNext(s.barrier.arrivals, s.barrier.barrier.id, s.waitingOn, t.waitingOn);
    }
  }

  /** The last fibre leaves: nobody was engaged. */
  lemma FinishLast<B>(s: State<B>, t: State<B>, i: nat)
    requires AllFit(s) && SomeEngaged(s) && FinishedFrom(s, t, i) && i in s.barrier.live
    requires t.barrier.live == {} && |t.barrier.executions| == |s.barrier.executions|
    ensures AllFit(t) && SomeEngaged(t)
  {
    forall j | 0 <= j < |t.fibres|
      ensures Fits(t.fibres[j], j, t.barrier, t.waitingOn) && !Engaged(s.fibres[j], j, s.barrier)
    {
      assert Fits(s.fibres[j], j, s.barrier, s.waitingOn);
      assert j != i && j in s.barrier.live ==> j in t.barrier.live;
    }
  }

  lemma MoveFits<B>(s: State<B>, m: Move)
    requires GInv(s) && CanMove(s, m)
    ensures GInv(Fibres.Step(s, m))
  {
    match m
    case EmitMove(i) => EmitFits(s, i);
    case AnnounceMove(i) => AnnounceFits(s, i);
    case EnterMove(i, eval) => EnterFits(s, i, eval);
    case ResumeMove(i) => ResumeFits(s, i);
    case FinishMove(i, eval) => FinishFits(s, i, eval);
  }

  lemma StartFits<B>(inputs: seq<seq<Item<B>>>, marker: nat)
    ensures GInv(Start(inputs, marker))
  {
    InitInv<nat, FiberState>(Indices(|inputs|));
  }

  lemma NextFits<B>(inputs: seq<seq<Item<B>>>, marker: nat, run: seq<State<B>>, k: nat)
    requires IsRun(inputs, marker, run) && k + 1 < |run| && GInv(run[k])
    ensures GInv(run[k + 1])
  {
    assert StepAt(run, k);
    var m :| CanMove(run[k], m) && run[k + 1] == Fibres.Step(run[k], m);
    MoveFits(run[k], m);
  }

  lemma {:induction false} RunFits<B>(inputs: seq<seq<Item<B>>>, marker: nat, run: seq<State<B>>, k: nat)
    requires IsRun(inputs, marker, run) && k < |run|
    ensures GInv(run[k])
  {
    if k == 0 {
      StartFits(inputs, marker);
    } else {
      RunFits(inputs, marker, run, k - 1);
      NextFits(inputs, marker, run, k - 1);
    }
  }

  /** For any inputs and every schedule, all fibres that enter a round do so with the same marker. */
  lemma RoundsDoNotMix<B>(inputs: seq<seq<Item<B>>>, marker: nat, run: seq<State<B>>, k: nat, a: Arrival<nat>,
                          b: Arrival<nat>)
    requires IsRun(inputs, marker, run) && k < |run|
    requires a in run[k].barrier.arrivals && b in run[k].barrier.arrivals && a.round == b.round
    ensures a.f == b.f
  {
    RunFits(inputs, marker, run, k);
  }

  /** Another fibre takes part in the current round at a different marker. */
  ghost predicate Conflict<B>(s: State<B>, number: nat) {
    exists j | 0 <= j < |s.fibres| ::
      Engaged(s.fibres[j], j, s.barrier) && s.fibres[j].AtCheck() && MarkerOf(s.fibres[j]) != number
  }

  /**
   For any inputs and every schedule, a fibre at a marker is refused exactly if another fibre takes part in the round
   at a different one. It then passes on an error in place of the check and does not enter the round.
   */
  lemma RefusedExactly<B>(inputs: seq<seq<Item<B>>>, marker: nat, run: seq<State<B>>, k: nat, i: nat)
    requires IsRun(inputs, marker, run) && k < |run| && CanMove(run[k], AnnounceMove(i))
    ensures var s, t := run[k], Fibres.Step(run[k], AnnounceMove(i));
            && t.barrier == s.barrier
            && t.fibres[i] == if Conflict(s, MarkerOf(s.fibres[i]))
                              then s.fibres[i].(at := s.fibres[i].at + 1, out := s.fibres[i].out + [Failed])
                              else s.fibres[i].(phase := Announced)
  {
    RunFits(inputs, marker, run, k);
    var s := run[k];
    var number := MarkerOf(s.fibres[i]);
    if s.waitingOn.Some? && s.waitingOn.value != number {
      var j :| 0 <= j < |s.fibres| && Engaged(s.fibres[j], j, s.barrier);
      assert Fits(s.fibres[j], j, s.barrier, s.waitingOn);
      assert Conflict(s, number);
    }
    if Conflict(s, number) {
      var j :| 0 <= j < |s.fibres| && Engaged(s.fibres[j], j, s.barrier) && s.fibres[j].AtCheck() &&
               MarkerOf(s.fibres[j]) != number;
      assert Fits(s.fibres[j], j, s.barrier, s.waitingOn);
    }
  }
}
