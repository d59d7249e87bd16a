/**
 Several fibres read their own remote stream and meet at every checkpoint marker.

 A fibre first announces its marker, then enters the barrier. It goes on, pauses, or leaves at the end of its stream.
 The steps are the critical sections of the code, so every interleaving of them is covered.
 */
module Fibres {
  import opened Wrappers
  import opened Streams
  import opened BarrierRuns

  datatype FiberState = Continue | Pause

  datatype Instruction<+B> = Emit(item: Item<B>) | Check(number: nat) | Finished

  function Expand<B>(item: Item<B>): seq<Instruction<B>> {
    if item.Marker? then [Emit(item), Check(item.number)] else [Emit(item)]
  }

  /** Adds a check after each marker and `Finished` at the end. */
  function Insert<B>(s: seq<Item<B>>): seq<Instruction<B>> {
    if s == [] then [Finished] else Expand(s[0]) + Insert(s[1..])
  }

  /** Keeps the items and drops the instructions. */
  function Strip<B>(s: seq<Instruction<B>>): seq<Item<B>> {
    if s == [] then []
    else if s[0].Emit? then [s[0].item] + Strip(s[1..])
    else Strip(s[1..])
  }

  function Checks<B>(s: seq<Instruction<B>>): nat {
    if s == [] then 0 else (if s[0].Check? then 1 else 0) + Checks(s[1..])
  }

  lemma Cons<B>(x: Instruction<B>, s: seq<Instruction<B>>)
    ensures Strip([x] + s) == (if x.Emit? then [x.item] else []) + Strip(s)
    ensures Checks([x] + s) == (if x.Check? then 1 else 0) + Checks(s)
  {
    assert ([x] + s)[1..] == s;
  }

  /** Inserting and stripping cancel, and every marker gets its check. */
  lemma {:induction false} StripInsert<B>(s: seq<Item<B>>)
    ensures Strip(Insert(s)) == s
    ensures Checks(Insert(s)) == |Markers(s)|
  {
    if s != [] {
      var tail := Insert(s[1..]);
      StripInsert(s[1..]);
      if s[0].Marker? {
        var rest := [Check(s[0].number)] + tail;
        assert Insert(s) == [Emit(s[0])] + rest;
        Cons(Check(s[0].number), tail);
        Cons(Emit(s[0]), rest);
      } else {
        Cons(Emit(s[0]), tail);
      }
    }
  }

  lemma {:induction false} Snoc<B>(s: seq<Instruction<B>>, x: Instruction<B>)
    ensures Strip(s + [x]) == Strip(s) + if x.Emit? then [x.item] else []
    ensures Checks(s + [x]) == Checks(s) + if x.Check? then 1 else 0
  {
    if s == [] {
      assert s + [x] == [x];
    } else {
      Snoc(s[1..], x);
      assert (s + [x])[1..] == s[1..] + [x];
    }
  }

  /** The instructions before a check: they hold earlier checks only, and deliver the stream through its marker. */
  ghost predicate Reaches<B>(s: seq<Item<B>>, before: seq<Instruction<B>>, number: nat) {
    && Checks(before) < |Markers(s)|
    && number == Markers(s)[Checks(before)]
    && Strip(before) == ThroughMarker(s, Checks(before))
  }

  lemma ReachesBatch<B>(s: seq<Item<B>>, before: seq<Instruction<B>>, number: nat)
    requires s != [] && s[0].Batch? && Reaches(s[1..], before, number)
    ensures Reaches(s, [Emit(s[0])] + before, number)
  {
    Cons(Emit(s[0]), before);
  }

  lemma ReachesFirst<B>(s: seq<Item<B>>)
    requires s != [] && s[0].Marker?
    ensures Reaches(s, [Emit(s[0])], s[0].number)
  {
    assert [Emit(s[0])] == [Emit(s[0])] + [];
    Cons(Emit(s[0]), []);
  }

  lemma ReachesMarker<B>(s: seq<Item<B>>, before: seq<Instruction<B>>, number: nat)
    requires s != [] && s[0].Marker? && Reaches(s[1..], before, number)
    ensures Reaches(s, [Emit(s[0])] + ([Check(s[0].number)] + before), number)
  {
    Cons(Check(s[0].number), before);
    Cons(Emit(s[0]), [Check(s[0].number)] + before);
  }

  lemma InsertHead<B>(s: seq<Item<B>>)
    requires s != []
    ensures s[0].Batch? ==> Insert(s) == [Emit(s[0])] + Insert(s[1..])
    ensures s[0].Marker? ==> Insert(s) == [Emit(s[0])] + ([Check(s[0].number)] + Insert(s[1..]))
  {
  }

  lemma PrefixOf<T>(s: seq<T>, x: T, tail: seq<T>, at: nat)
    requires s == [x] + tail && 0 < at < |s|
    ensures s[..at] == [x] + tail[..at - 1] && s[at] == tail[at - 1]
  {
  }

  /** Reaching a check means having delivered the stream exactly through the marker it belongs to. */
  lemma {:induction false} CheckAt<B>(s: seq<Item<B>>, at: nat)
    requires at < |Insert(s)| && Insert(s)[at].Check?
    ensures Reaches(s, Insert(s)[..at], Insert(s)[at].number)
  {
    var tail := Insert(s[1..]);
    InsertHead(s);
    if s[0].Batch? {
      PrefixOf(Insert(s), Emit(s[0]), tail, at);
      CheckAt(s[1..], at - 1);
      ReachesBatch(s, tail[..at - 1], tail[at - 1].number);
    } else {
      var rest := [Check(s[0].number)] + tail;
      PrefixOf(Insert(s), Emit(s[0]), rest, at);
      if at == 1 {
        ReachesFirst(s);
        assert [Emit(s[0])] + rest[..0] == [Emit(s[0])];
      } else {
        PrefixOf(rest, Check(s[0].number), tail, at - 1);
        CheckAt(s[1..], at - 2);
        ReachesMarker(s, tail[..at - 2], tail[at - 2].number);
      }
    }
  }

  /** What a fibre passes downstream: items, and an error where a check failed. */
  datatype Out<+B> = Delivered(item: Item<B>) | Failed

  datatype Phase = Running | Announced | Entered | Stopped | Ended

  datatype Fibre<B> = Fibre(input: seq<Item<B>>, at: nat, phase: Phase, out: seq<Out<B>>) {
    function Instructions(): seq<Instruction<B>> { Insert(input) }

    ghost predicate AtCheck() { at < |Instructions()| && Instructions()[at].Check? }

    ghost function Passed(): nat requires at <= |Instructions()| { Checks(Instructions()[..at]) }
  }

  function Items<B>(out: seq<Out<B>>): seq<Item<B>> {
    if out == [] then []
    else Items(out[..|out| - 1]) + if out[|out| - 1].Delivered? then [out[|out| - 1].item] else []
  }

  /** `waitingOn` and `lastCompleted` are the two marker cells; `mismatch` records the "different marker" error. */
  datatype State<B> = State(
    fibres: seq<Fibre<B>>,
    barrier: System<nat, FiberState>,
    waitingOn: Option<nat>,
    lastCompleted: nat,
    mismatch: bool)

  datatype Move =
    | EmitMove(i: nat)
    | AnnounceMove(i: nat)
    | EnterMove(i: nat, eval: nat -> Outcome<FiberState>)
    | ResumeMove(i: nat)
    | FinishMove(i: nat, eval: nat -> Outcome<FiberState>)

  function Indices(n: nat): (r: set<nat>)
    ensures forall i: nat :: i in r <==> i < n
  {
    if n == 0 then {} else Indices(n - 1) + {n - 1}
  }

  function Start<B>(inputs: seq<seq<Item<B>>>, marker: nat): State<B> {
    State(seq(|inputs|, i requires 0 <= i < |inputs| => Fibre(inputs[i], 0, Running, [])),
          Init(Indices(|inputs|)), None, marker, false)
  }

  ghost predicate CanMove<B>(s: State<B>, m: Move) {
    m.i < |s.fibres| &&
    var f := s.fibres[m.i];
    f.at < |f.Instructions()| &&
    var next := f.Instructions()[f.at];
    match m
    case EmitMove(_) => f.phase.Running? && next.Emit?
    case AnnounceMove(_) => f.phase.Running? && next.Check?
    case EnterMove(i, eval) => f.phase.Announced? && next.Check? && Enabled(s.barrier, ArriveStep(i, next.number, eval))
    case ResumeMove(i) => f.phase.Entered? && Enabled(s.barrier, WakeStep(i))
    case FinishMove(i, eval) => f.phase.Running? && next.Finished? && Enabled(s.barrier, LeaveStep(i, eval))
  }

  /** A check that returned: continue past it, pause for good, or pass the error on and continue. */
  function Resolve<B>(f: Fibre<B>, outcome: Outcome<FiberState>): Fibre<B> {
    match outcome
    case Ok(Continue) => f.(at := f.at + 1, phase := Running)
    case Ok(Pause) => f.(phase := Stopped)
    case Err(_) => f.(at := f.at + 1, phase := Running, out := f.out + [Failed])
  }

  /** The effect of the computation on the marker cells, if this barrier step ran one. */
  function Complete<B>(s: State<B>, barrier: System<nat, FiberState>): State<B> {
    if |barrier.executions| > |s.barrier.executions|
    then s.(barrier := barrier, waitingOn := None, lastCompleted := barrier.executions[|barrier.executions| - 1].f)
    else s.(barrier := barrier)
  }

  ghost function BarrierAfter<B>(s: State<B>, m: Move): System<nat, FiberState>
    requires CanMove(s, m)
  {
    var f := s.fibres[m.i];
    match m
    case EnterMove(i, eval) => Apply(s.barrier, ArriveStep(i, f.Instructions()[f.at].number, eval))
    case ResumeMove(i) => Apply(s.barrier, WakeStep(i))
    case FinishMove(i, eval) => Apply(s.barrier, LeaveStep(i, eval))
    case _ => s.barrier
  }

  /** Whether a fibre may announce this marker: nobody waits, or everybody waits for the same one. */
  predicate MayAnnounce(waitingOn: Option<nat>, number: nat) {
    waitingOn == None || waitingOn == Some(number)
  }

  ghost function FibreAfter<B>(s: State<B>, m: Move): Fibre<B>
    requires CanMove(s, m)
  {
    var f := s.fibres[m.i];
    var next := f.Instructions()[f.at];
    var barrier := BarrierAfter(s, m);
    match m
    case EmitMove(_) => f.(at := f.at + 1, out := f.out + [Delivered(next.item)])
    case AnnounceMove(_) =>
      if MayAnnounce(s.waitingOn, next.number) then f.(phase := Announced)
      else f.(at := f.at + 1, out := f.out + [Failed])
    case FinishMove(_, _) => f.(phase := Ended)
    case _ =>
      if |barrier.returned| <= |s.barrier.returned| then f.(phase := Entered)
      else Resolve(f, barrier.returned[|barrier.returned| - 1].outcome)
  }

  ghost function Step<B>(s: State<B>, m: Move): State<B>
    requires CanMove(s, m)
  {
    var t := Complete(s, BarrierAfter(s, m)).(fibres := s.fibres[m.i := FibreAfter(s, m)]);
    if !m.AnnounceMove? then t
    else
      var number := s.fibres[m.i].Instructions()[s.fibres[m.i].at].number;
      if MayAnnounce(s.waitingOn, number) then t.(waitingOn := Some(number)) else t.(mismatch := true)
  }
}
