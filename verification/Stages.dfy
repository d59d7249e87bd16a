/** Cutting a physical plan into stages: one bottom-up pass that wraps certain nodes and numbers the wrappers. */
module Stages {
  datatype Kind = Repartition | Sort | NestedLoopJoin | Stage(id: nat) | Other

  /** A plan node, with everything that is not looked at folded into its payload. */
  datatype Plan = Node(kind: Kind, payload: string, children: Plans)

  datatype Plans = Nil | Cons(head: Plan, tail: Plans)

  predicate Cut(kind: Kind) {
    kind.Repartition? || kind.Sort? || kind.NestedLoopJoin?
  }

  function Wrap(plan: Plan, id: nat): Plan {
    Node(Stage(id), "", Cons(plan, Nil))
  }

  /** The pass: children from left to right, then the node; with the counter before and after. */
  function Mark(plan: Plan, counter: nat): (Plan, nat) {
    var (children, next) := MarkAll(plan.children, counter);
    var marked := plan.(children := children);
    if Cut(plan.kind) then (Wrap(marked, next), next + 1) else (marked, next)
  }

  function MarkAll(plans: Plans, counter: nat): (Plans, nat) {
    match plans
    case Nil => (Nil, counter)
    case Cons(head, tail) =>
      var (first, next) := Mark(head, counter);
      var (rest, last) := MarkAll(tail, next);
      (Cons(first, rest), last)
  }

  function Optimize(plan: Plan): Plan {
    var (marked, counter) := Mark(plan, 0);
    Wrap(marked, counter)
  }

  /** The pass as the code runs it, with one counter for all nodes. */
  class RayStageOptimizer {
    var stageCounter: nat

    constructor ()
      ensures stageCounter == 0
    {
      stageCounter := 0;
    }

    method Up(plan: Plan) returns (r: Plan)
      modifies this
      ensures (r, stageCounter) ==
              if Cut(plan.kind) then (Wrap(plan, old(stageCounter)), old(stageCounter) + 1)
              else (plan, old(stageCounter))
    {
      r := plan;
      if Cut(plan.kind) {
        r := Wrap(plan, stageCounter);
        stageCounter := stageCounter + 1;
      }
    }

    method TransformUp(plan: Plan) returns (r: Plan)
      modifies this
      ensures (r, stageCounter) == Mark(plan, old(stageCounter))
      decreases plan
    {
      var children := TransformAll(plan.children);
      r := Up(plan.(children := children));
    }

    method TransformAll(plans: Plans) returns (r: Plans)
      modifies this
      ensures (r, stageCounter) == MarkAll(plans, old(stageCounter))
      decreases plans
    {
      match plans
      case Nil => r := Nil;
      case Cons(head, tail) =>
        var first := TransformUp(head);
        var rest := TransformAll(tail);
        r := Cons(first, rest);
    }
  }

  method OptimizePlan(plan: Plan) returns (r: Plan)
    ensures r == Optimize(plan)
  {
    var rule := new RayStageOptimizer();
    var marked := rule.TransformUp(plan);
    r := Wrap(marked, rule.stageCounter);
  }

  // ---- What the pass must keep ----

  predicate NoStages(plan: Plan) {
    !plan.kind.Stage? && NoStagesAll(plan.children)
  }

  predicate NoStagesAll(plans: Plans) {
    plans.Cons? ==> NoStages(plans.head) && NoStagesAll(plans.tail)
  }

  /** Removes every stage node that has one child. */
  function Erase(plan: Plan): Plan {
    if plan.kind.Stage? && plan.children.Cons? && plan.children.tail.Nil? then Erase(plan.children.head)
    else plan.(children := EraseAll(plan.children))
  }

  function EraseAll(plans: Plans): Plans {
    match plans
    case Nil => Nil
    case Cons(head, tail) => Cons(Erase(head), EraseAll(tail))
  }

  /** The nodes to wrap. */
  function Cuts(plan: Plan): nat {
    CutsAll(plan.children) +
    match plan.kind
    case Repartition => 1
    case Sort => 1
    case NestedLoopJoin => 1
    case _ => 0
  }

  function CutsAll(plans: Plans): nat {
    match plans
    case Nil => 0
    case Cons(head, tail) => Cuts(head) + CutsAll(tail)
  }

  /** The stage ids, children before parents and left before right. */
  function Ids(plan: Plan): seq<nat> {
    IdsAll(plan.children) + if plan.kind.Stage? then [plan.kind.id] else []
  }

  function IdsAll(plans: Plans): seq<nat> {
    match plans
    case Nil => []
    case Cons(head, tail) => Ids(head) + IdsAll(tail)
  }

  function Count(from: nat, to: nat): (s: seq<nat>)
    requires from <= to
    ensures |s| == to - from && forall i | 0 <= i < |s| :: s[i] == from + i
  {
    seq(to - from, i => from + i)
  }

  lemma CountAppend(a: nat, b: nat, c: nat)
    requires a <= b <= c
    ensures Count(a, b) + Count(b, c) == Count(a, c)
  {
  }

  lemma CountNext(a: nat, b: nat)
    requires a <= b
    ensures Count(a, b) + [b] == Count(a, b + 1)
  {
  }

  lemma WrapIds(plan: Plan, id: nat)
    ensures IdsAll(Cons(plan, Nil)) == Ids(plan)
    ensures Ids(Wrap(plan, id)) == Ids(plan) + [id]
  {
    assert IdsAll(Cons(plan, Nil)) == Ids(plan) + IdsAll(Nil);
  }

  lemma PlainIds(plan: Plan)
    requires !plan.kind.Stage?
    ensures Ids(plan) == IdsAll(plan.children)
  {
  }

  /** The pass numbers the wrapped nodes consecutively. */
  lemma {:induction false} MarkNumbers(plan: Plan, counter: nat)
    requires NoStages(plan)
    ensures Mark(plan, counter).1 == counter + Cuts(plan)
    ensures Ids(Mark(plan, counter).0) == Count(counter, counter + Cuts(plan))
  {
    MarkAllNumbers(plan.children, counter);
    var (children, next) := MarkAll(plan.children, counter);
    var marked := plan.(children := children);
    PlainIds(marked);
    if Cut(plan.kind) {
      WrapIds(marked, next);
      CountNext(counter, next);
    }
  }

  lemma {:induction false} MarkAllNumbers(plans: Plans, counter: nat)
    requires NoStagesAll(plans)
    ensures MarkAll(plans, counter).1 == counter + CutsAll(plans)
    ensures IdsAll(MarkAll(plans, counter).0) == Count(counter, counter + CutsAll(plans))
  {
    match plans
    case Nil =>
    case Cons(head, tail) =>
      MarkNumbers(head, counter);
      MarkAllNumbers(tail, counter + Cuts(head));
      CountAppend(counter, counter + Cuts(head), counter + CutsAll(plans));
  }

  /** The pass can be undone. */
  lemma {:induction false} EraseMark(plan: Plan, counter: nat)
    requires NoStages(plan)
    ensures Erase(Mark(plan, counter).0) == plan
  {
    EraseMarkAll(plan.children, counter);
    var marked := plan.(children := MarkAll(plan.children, counter).0);
    assert Erase(marked) == plan;
  }

  lemma {:induction false} EraseMarkAll(plans: Plans, counter: nat)
    requires NoStagesAll(plans)
    ensures EraseAll(MarkAll(plans, counter).0) == plans
  {
    match plans
    case Nil =>
    case Cons(head, tail) =>
      EraseMark(head, counter);
      EraseMarkAll(tail, Mark(head, counter).1);
  }

  /** Every stage id is larger than all ids below it. */
  ghost predicate Rising(plan: Plan) {
    && RisingAll(plan.children)
    && (plan.kind.Stage? ==> forall i | 0 <= i < |IdsAll(plan.children)| :: IdsAll(plan.children)[i] < plan.kind.id)
  }

  ghost predicate RisingAll(plans: Plans) {
    plans.Cons? ==> Rising(plans.head) && RisingAll(plans.tail)
  }

  lemma {:induction false} MarkRises(plan: Plan, counter: nat)
    requires NoStages(plan)
    ensures Rising(Mark(plan, counter).0)
  {
    MarkAllRises(plan.children, counter);
    MarkAllNumbers(plan.children, counter);
    var (children, next) := MarkAll(plan.children, counter);
    var marked := plan.(children := children);
    assert Rising(marked);
    if Cut(plan.kind) {
      PlainIds(marked);
      WrapIds(marked, next);
      assert RisingAll(Cons(marked, Nil));
    }
  }

  lemma {:induction false} MarkAllRises(plans: Plans, counter: nat)
    requires NoStagesAll(plans)
    ensures RisingAll(MarkAll(plans, counter).0)
  {
    match plans
    case Nil =>
    case Cons(head, tail) =>
      MarkRises(head, counter);
      MarkNumbers(head, counter);
      MarkAllRises(tail, counter + Cuts(head));
  }

  /**
   Every stage has one child, which is a repartition, a sort or a nested loop join, and every such node is the child of
   a stage. `below` says whether the node itself stands directly below a stage.
   */
  ghost predicate Staged(plan: Plan, below: bool) {
    match plan.kind
    case Stage(_) =>
      !below && plan.children.Cons? && plan.children.tail.Nil? && Staged(plan.children.head, true)
    case Other => !below && StagedAll(plan.children)
    case Repartition => below && StagedAll(plan.children)
    case Sort => below && StagedAll(plan.children)
    case NestedLoopJoin => below && StagedAll(plan.children)
  }

  ghost predicate StagedAll(plans: Plans) {
    plans.Cons? ==> Staged(plans.head, false) && StagedAll(plans.tail)
  }

  lemma {:induction false} MarkStages(plan: Plan, counter: nat)
    requires NoStages(plan)
    ensures Staged(Mark(plan, counter).0, false)
  {
    MarkAllStages(plan.children, counter);
    var (children, next) := MarkAll(plan.children, counter);
    assert Cut(plan.kind) ==> Staged(plan.(children := children), true);
  }

  lemma {:induction false} MarkAllStages(plans: Plans, counter: nat)
    requires NoStagesAll(plans)
    ensures StagedAll(MarkAll(plans, counter).0)
  {
    match plans
    case Nil =>
    case Cons(head, tail) =>
      MarkStages(head, counter);
      MarkAllStages(tail, Mark(head, counter).1);
  }

  /**
   For every plan without stages: erasing the stages gives the plan back, their ids are 0 to `k` each once with `k` the
   number of repartition, sort and nested loop join nodes, the outermost has id `k`, and each exceeds all ids below it.
   Below the outermost one, exactly these nodes stand directly below a stage.
   */
  lemma OptimizeExact(plan: Plan)
    requires NoStages(plan)
    ensures Erase(Optimize(plan)) == plan
    ensures Ids(Optimize(plan)) == Count(0, Cuts(plan) + 1)
    ensures Optimize(plan).kind == Stage(Cuts(plan))
    ensures Rising(Optimize(plan))
    ensures Optimize(plan).children.Cons? && Optimize(plan).children.tail.Nil?
    ensures Staged(Optimize(plan).children.head, false)
  {
    MarkStages(plan, 0);
    MarkNumbers(plan, 0);
    MarkRises(plan, 0);
    EraseMark(plan, 0);
    var (marked, counter) := Mark(plan, 0);
    WrapIds(marked, counter);
    CountNext(0, counter);
    assert RisingAll(Cons(marked, Nil));
  }
}
