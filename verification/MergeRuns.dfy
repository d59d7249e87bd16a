/**
 What every run of the aligned merge emits: between two markers exactly one segment of every input, in order.

 `Skeleton` is an input with its marker numbers forgotten, `View` is the output as one input sees it.
 The invariant says the two are the same, up to the marker an input is blocked on and the markers after its end.
 */
module MergeRuns {
  import opened Wrappers
  import opened Streams
  import opened AlignedMerge

  type Sources<B> = seq<(nat, seq<Streams.Item<B>>)>

  /** A stream with its markers turned into separators. */
  function Skeleton<B>(s: seq<Streams.Item<B>>): seq<Option<B>> {
    seq(|s|, k requires 0 <= k < |s| => if s[k].Marker? then None else Some(s[k].batch))
  }

  function Separators<B>(n: nat): seq<Option<B>> {
    seq(n, _ => None)
  }

  function Seen<B>(m: Merged<B>, i: nat): seq<Option<B>> {
    if m.Mark? then [None] else if m.source == i then [Some(m.batch)] else []
  }

  /** What input `i` sees of the output: its own batches and all markers. */
  function View<B>(out: seq<Merged<B>>, i: nat): seq<Option<B>> {
    if out == [] then [] else View(out[..|out| - 1], i) + Seen(out[|out| - 1], i)
  }

  function Numbers<B>(out: seq<Merged<B>>): seq<nat> {
    if out == [] then []
    else
      var last := out[|out| - 1];
      Numbers(out[..|out| - 1]) + if last.Mark? then [last.number] else []
  }

  ghost predicate Aligned<B>(source: seq<Streams.Item<B>>, input: InputStream<B>, view: seq<Option<B>>) {
    var consumed := |source| - |input.rest|;
    var reached := view + if input.blocked then [None] else [];
    && consumed >= 0
    && input.rest == source[consumed..]
    && |reached| >= consumed
    && reached == Skeleton(source[..consumed]) + Separators(|reached| - consumed)
    && (|reached| > consumed ==> input.rest == [] && !input.blocked)
  }

  ghost predicate AllAligned<B>(sources: Sources<B>, s: State<B>, out: seq<Merged<B>>) {
    && |s.inputs| == |sources|
    && forall i | 0 <= i < |sources| ::
         && Aligned(sources[i].1, s.inputs[i], View(out, i))
         && s.inputs[i].ordinal == sources[i].0
  }

  /** Marker `k` of some input has this number. */
  ghost predicate Named<B>(sources: Sources<B>, k: nat, number: nat) {
    exists i | 0 <= i < |sources| :: k < |Markers(sources[i].1)| && Markers(sources[i].1)[k] == number
  }

  ghost predicate NumbersInv<B>(sources: Sources<B>, s: State<B>, out: seq<Merged<B>>) {
    var numbers := Numbers(out);
    && (s.currentCheckpoint.Some? <==> AnyBlocked(s))
    && (s.currentCheckpoint.Some? ==> Named(sources, |numbers|, s.currentCheckpoint.value))
    && (forall k | 0 <= k < |numbers| :: Named(sources, k, numbers[k]))
  }

  ghost predicate FromSources<B>(sources: Sources<B>, out: seq<Merged<B>>) {
    forall k | 0 <= k < |out| && out[k].Item? ::
      out[k].source < |sources| && out[k].ordinal == sources[out[k].source].0
  }

  ghost predicate Inv<B>(sources: Sources<B>, s: State<B>, out: seq<Merged<B>>) {
    AllAligned(sources, s, out) && NumbersInv(sources, s, out) && FromSources(sources, out)
  }

  lemma OutSnoc<B>(out: seq<Merged<B>>, m: Merged<B>)
    ensures forall i :: View(out + [m], i) == View(out, i) + Seen(m, i)
    ensures Numbers(out + [m]) == Numbers(out) + if m.Mark? then [m.number] else []
  {
    assert (out + [m])[..|out|] == out;
  }

  function CountNone<B>(s: seq<Option<B>>): nat {
    if s == [] then 0 else (if s[0].None? then 1 else 0) + CountNone(s[1..])
  }

  lemma {:induction false} CountNoneAppend<B>(s: seq<Option<B>>, t: seq<Option<B>>)
    ensures CountNone(s + t) == CountNone(s) + CountNone(t)
  {
    if s == [] {
      assert s + t == t;
    } else {
      CountNoneAppend(s[1..], t);
      assert (s + t)[1..] == s[1..] + t;
    }
  }

  lemma {:induction false} CountNoneView<B>(out: seq<Merged<B>>, i: nat)
    ensures CountNone(View(out, i)) == |Numbers(out)|
  {
    if out != [] {
      CountNoneView(out[..|out| - 1], i);
      CountNoneAppend(View(out[..|out| - 1], i), Seen(out[|out| - 1], i));
    }
  }

  /** The number of a marker is the entry of `Markers` at the count of the markers before it. */
  lemma {:induction false} MarkerAt<B>(s: seq<Streams.Item<B>>, c: nat)
    requires c < |s| && s[c].Marker?
    ensures |Markers(s[..c])| < |Markers(s)| && Markers(s)[|Markers(s[..c])|] == s[c].number
  {
    if c == 0 {
      assert s[..0] == [];
    } else {
      MarkerAt(s[1..], c - 1);
      assert s[..c][1..] == s[1..][..c - 1];
    }
  }

  lemma {:induction false} CountNoneSkeleton<B>(s: seq<Streams.Item<B>>)
    ensures CountNone(Skeleton(s)) == |Markers(s)|
  {
    if s != [] {
      CountNoneSkeleton(s[1..]);
      assert Skeleton(s)[1..] == Skeleton(s[1..]);
    }
  }

  lemma NotBlocked<B>(source: seq<Streams.Item<B>>, input: InputStream<B>, view: seq<Option<B>>)
    requires Aligned(source, input, view) && !input.blocked
    ensures var consumed := |source| - |input.rest|;
            view == Skeleton(source[..consumed]) + Separators(|view| - consumed)
    ensures input.rest != [] ==> view == Skeleton(source[..|source| - |input.rest|])
  {
    assert view + [] == view;
  }

  /** Taking an item moves an input and its view forward together. */
  lemma TakeAligned<B>(source: seq<Streams.Item<B>>, input: InputStream<B>, view: seq<Option<B>>)
    requires Aligned(source, input, view) && !input.blocked && input.rest != []
    ensures var head := input.rest[0];
            Aligned(source, input.(rest := input.rest[1..], blocked := head.Marker?),
                    view + if head.Marker? then [] else [Some(head.batch)])
  {
    var consumed := |source| - |input.rest|;
    NotBlocked(source, input, view);
    assert Skeleton(source[..consumed + 1]) ==
           Skeleton(source[..consumed]) + [if source[consumed].Marker? then None else Some(source[consumed].batch)];
    assert input.rest[1..] == source[consumed + 1..];
  }

  lemma MarkAligned<B>(source: seq<Streams.Item<B>>, input: InputStream<B>, view: seq<Option<B>>)
    requires Aligned(source, input, view) && (input.blocked || input.rest == [])
    ensures Aligned(source, input.(blocked := false), view + [None])
  {
    var consumed := |source| - |input.rest|;
    assert view + [None] + [] == view + [None];
    if !input.blocked {
      NotBlocked(source, input, view);
      assert Separators<B>(|view| + 1 - consumed) == Separators(|view| - consumed) + [None];
    }
  }

  /** The marker an unblocked input yields is its marker of the current round. */
  lemma HeadNamed<B>(sources: Sources<B>, s: State<B>, out: seq<Merged<B>>, i: nat)
    requires AllAligned(sources, s, out) && i < |s.inputs|
    requires !s.inputs[i].blocked && s.inputs[i].rest != [] && s.inputs[i].rest[0].Marker?
    ensures Named(sources, |Numbers(out)|, s.inputs[i].rest[0].number)
  {
    var source := sources[i].1;
    var consumed := |source| - |s.inputs[i].rest|;
    NotBlocked(source, s.inputs[i], View(out, i));
    CountNoneView(out, i);
    CountNoneSkeleton(source[..consumed]);
    MarkerAt(source, consumed);
  }

  lemma TakeMarkerInv<B>(sources: Sources<B>, s: State<B>, out: seq<Merged<B>>, i: nat)
    requires Inv(sources, s, out) && i < |s.inputs|
    requires !s.inputs[i].blocked && s.inputs[i].rest != [] && s.inputs[i].rest[0].Marker?
    ensures Inv(sources, Take(s, i), out)
  {
    HeadNamed(sources, s, out, i);
    TakeAligned(sources[i].1, s.inputs[i], View(out, i));
    assert View(out, i) + [] == View(out, i);
    assert Take(s, i).inputs[i].blocked;
  }

  lemma TakeBatchAligned<B>(sources: Sources<B>, s: State<B>, out: seq<Merged<B>>, i: nat, m: Merged<B>)
    requires AllAligned(sources, s, out) && i < |s.inputs|
    requires !s.inputs[i].blocked && s.inputs[i].rest != [] && s.inputs[i].rest[0].Batch?
    requires m == Item(i, s.inputs[i].ordinal, s.inputs[i].rest[0].batch)
    ensures AllAligned(sources, Take(s, i), out + [m])
  {
    OutSnoc(out, m);
    TakeAligned(sources[i].1, s.inputs[i], View(out, i));
    forall j | 0 <= j < |sources| && j != i ensures View(out + [m], j) == View(out, j) {
      assert View(out, j) + [] == View(out, j);
    }
  }

  lemma TakeBatchNumbers<B>(sources: Sources<B>, s: State<B>, out: seq<Merged<B>>, i: nat, m: Merged<B>)
    requires NumbersInv(sources, s, out) && i < |s.inputs| && m.Item?
    requires !s.inputs[i].blocked && s.inputs[i].rest != [] && s.inputs[i].rest[0].Batch?
    ensures NumbersInv(sources, Take(s, i), out + [m])
  {
    var t := Take(s, i);
    assert Numbers(out + [m]) == Numbers(out) by { OutSnoc(out, m); }
    assert AnyBlocked(s) <==> AnyBlocked(t) by {
      assert forall j | 0 <= j < |s.inputs| :: s.inputs[j].blocked <==> t.inputs[j].blocked;
    }
  }

  lemma TakeBatchInv<B>(sources: Sources<B>, s: State<B>, out: seq<Merged<B>>, i: nat)
    requires Inv(sources, s, out) && i < |s.inputs|
    requires !s.inputs[i].blocked && s.inputs[i].rest != [] && s.inputs[i].rest[0].Batch?
    ensures Inv(sources, Take(s, i), out + [Item(i, s.inputs[i].ordinal, s.inputs[i].rest[0].batch)])
  {
    var m := Item(i, s.inputs[i].ordinal, s.inputs[i].rest[0].batch);
    assert FromSources(sources, out + [m]);
    TakeBatchAligned(sources, s, out, i, m);
    TakeBatchNumbers(sources, s, out, i, m);
  }

  lemma MarkAllAligned<B>(sources: Sources<B>, s: State<B>, out: seq<Merged<B>>, number: nat)
    requires AllAligned(sources, s, out)
    requires forall i | 0 <= i < |s.inputs| :: s.inputs[i].blocked || s.inputs[i].rest == []
    ensures AllAligned(sources, State(Unblock(s.inputs), None), out + [Mark(number)])
  {
    OutSnoc(out, Mark(number));
    forall i | 0 <= i < |sources|
      ensures Aligned(sources[i].1, Unblock(s.inputs)[i], View(out, i) + [None])
    {
      MarkAligned(sources[i].1, s.inputs[i], View(out, i));
    }
  }

  lemma MarkNumbers<B>(sources: Sources<B>, s: State<B>, out: seq<Merged<B>>)
    requires NumbersInv(sources, s, out) && s.currentCheckpoint.Some?
    ensures NumbersInv(sources, State(Unblock(s.inputs), None), out + [Mark(s.currentCheckpoint.value)])
  {
    OutSnoc(out, Mark(s.currentCheckpoint.value));
  }

  lemma MarkInv<B>(sources: Sources<B>, s: State<B>, out: seq<Merged<B>>)
    requires Inv(sources, s, out) && s.currentCheckpoint.Some?
    requires forall i | 0 <= i < |s.inputs| :: s.inputs[i].blocked || s.inputs[i].rest == []
    ensures Inv(sources, State(Unblock(s.inputs), None), out + [Mark(s.currentCheckpoint.value)])
  {
    MarkAllAligned(sources, s, out, s.currentCheckpoint.value);
    MarkNumbers(sources, s, out);
  }

  function Emission<B>(poll: Poll<Merged<B>>): seq<Merged<B>> {
    if poll.Ready? && poll.item.Some? then [poll.item.value] else []
  }

  /** What is still to be polled: distinct unblocked inputs, and all others are settled unless one was pending. */
  ghost predicate ToPoll<B>(s: State<B>, order: seq<nat>, somePending: bool) {
    && InRange(order, |s.inputs|)
    && (forall k | 0 <= k < |order| :: !s.inputs[order[k]].blocked)
    && (forall k, l | 0 <= k < l < |order| :: order[k] != order[l])
    && (somePending ||
        forall i | 0 <= i < |s.inputs| ::
          s.inputs[i].blocked || s.inputs[i].rest == [] || exists k | 0 <= k < |order| :: order[k] == i)
  }

  lemma RestOfOrder<B>(s: State<B>, t: State<B>, order: seq<nat>, somePending: bool)
    requires ToPoll(s, order, somePending) && order != []
    requires |t.inputs| == |s.inputs| && t.inputs == s.inputs[order[0] := t.inputs[order[0]]]
    ensures InRange(order[1..], |t.inputs|)
    ensures t.inputs[order[0]].blocked || t.inputs[order[0]].rest == [] ==> ToPoll(t, order[1..], somePending)
    ensures ToPoll(t, order[1..], true)
  {
    if !somePending {
      forall i | 0 <= i < |s.inputs| && i != order[0] && !s.inputs[i].blocked && s.inputs[i].rest != []
        ensures exists k | 0 <= k < |order| - 1 :: order[1..][k] == i
      {
        var k :| 0 <= k < |order| && order[k] == i;
        assert order[1..][k - 1] == i;
      }
    }
  }

  lemma {:induction false} PollInv<B>(sources: Sources<B>, s: State<B>, out: seq<Merged<B>>,
                                      order: seq<nat>, ready: set<nat>, somePending: bool)
    requires Inv(sources, s, out) && ToPoll(s, order, somePending)
    ensures var (t, poll) := PollAll(s, order, ready, somePending);
            && Inv(sources, t, out + Emission(poll))
            && (poll == Ready(None) ==>
                  forall i | 0 <= i < |t.inputs| :: t.inputs[i].rest == [] && !t.inputs[i].blocked)
    decreases |order|
  {
    assert out + [] == out;
    if order == [] {
      if !somePending && AnyBlocked(s) { MarkInv(sources, s, out); }
    } else {
      var i := order[0];
      RestOfOrder(s, s, order, somePending);
      if i !in ready {
        PollInv(sources, s, out, order[1..], ready, true);
      } else if s.inputs[i].rest == [] {
        PollInv(sources, s, out, order[1..], ready, somePending);
      } else if s.inputs[i].rest[0].Marker? {
        TakeMarkerInv(sources, s, out, i);
        RestOfOrder(s, Take(s, i), order, somePending);
        PollInv(sources, Take(s, i), out, order[1..], ready, somePending);
      } else {
        TakeBatchInv(sources, s, out, i);
      }
    }
  }

  /** A poll reports pending only because of an input it found pending. */
  lemma {:induction false} PendingMeans<B>(s: State<B>, order: seq<nat>, ready: set<nat>, somePending: bool)
    requires InRange(order, |s.inputs|)
    ensures PollAll(s, order, ready, somePending).1 == Pending ==>
              somePending || exists k | 0 <= k < |order| :: order[k] !in ready
    decreases |order|
  {
    if order != [] && order[0] in ready {
      var i := order[0];
      var rest := s.inputs[i].rest;
      PendingMeans(if rest != [] && rest[0].Marker? then Take(s, i) else s, order[1..], ready, somePending);
    }
  }

  // ---- Runs ----

  /** The merge, what it has emitted so far, and whether its last poll reported the end. */
  datatype Config<B> = Config(state: State<B>, out: seq<Merged<B>>, ended: bool)

  function Polled<B>(c: Config<B>, order: seq<nat>, ready: set<nat>): Config<B>
    requires InRange(order, |c.state.inputs|)
  {
    var (t, poll) := PollAll(c.state, order, ready, false);
    Config(t, c.out + Emission(poll), poll == Ready(None))
  }

  ghost predicate StepAt<B>(run: seq<Config<B>>, k: nat)
    requires k + 1 < |run|
  {
    exists order, ready :: Shuffle(run[k].state, order) && run[k + 1] == Polled(run[k], order, ready)
  }

  /** Any sequence of polls, each with any shuffle and any set of ready inputs. */
  ghost predicate IsRun<B>(sources: Sources<B>, run: seq<Config<B>>) {
    && |run| > 0
    && run[0] == Config(Start(sources), [], false)
    && forall k: nat | k + 1 < |run| :: StepAt(run, k)
  }

  ghost predicate Ended<B>(c: Config<B>) {
    c.ended ==> forall i | 0 <= i < |c.state.inputs| :: c.state.inputs[i].rest == [] && !c.state.inputs[i].blocked
  }

  lemma StartInv<B>(sources: Sources<B>)
    ensures Inv(sources, Start(sources), [])
  {
    forall i | 0 <= i < |sources| ensures Aligned(sources[i].1, Start(sources).inputs[i], []) {
      assert sources[i].1[..0] == [];
    }
  }

  lemma PolledInv<B>(sources: Sources<B>, c: Config<B>, order: seq<nat>, ready: set<nat>)
    requires Inv(sources, c.state, c.out) && Shuffle(c.state, order)
    ensures var d := Polled(c, order, ready); Inv(sources, d.state, d.out) && Ended(d)
  {
    PollInv(sources, c.state, c.out, order, ready, false);
  }

  lemma {:induction false} RunInv<B>(sources: Sources<B>, run: seq<Config<B>>, k: nat)
    requires IsRun(sources, run) && k < |run|
    ensures Inv(sources, run[k].state, run[k].out) && Ended(run[k])
  {
    if k == 0 {
      StartInv(sources);
    } else {
      RunInv(sources, run, k - 1);
      assert StepAt(run, k - 1);
      var order, ready :| Shuffle(run[k - 1].state, order) && run[k - 1 + 1] == Polled(run[k - 1], order, ready);
      PolledInv(sources, run[k - 1], order, ready);
    }
  }

  /** The batches between separators `k - 1` and `k`. */
  function Segment<B>(s: seq<Option<B>>, k: nat): seq<B> {
    if s == [] then []
    else if s[0].None? then if k == 0 then [] else Segment(s[1..], k - 1)
    else (if k == 0 then [s[0].value] else []) + Segment(s[1..], k)
  }

  /** The merged items between markers `k - 1` and `k`. */
  function Epoch<B>(out: seq<Merged<B>>, k: nat): seq<Merged<B>> {
    if out == [] then []
    else if out[0].Mark? then if k == 0 then [] else Epoch(out[1..], k - 1)
    else (if k == 0 then [out[0]] else []) + Epoch(out[1..], k)
  }

  /** The batches of one input among merged items. */
  function Project<B>(items: seq<Merged<B>>, i: nat): seq<B> {
    if items == [] then []
    else (if items[0].Item? && items[0].source == i then [items[0].batch] else []) + Project(items[1..], i)
  }

  lemma {:induction false} ViewCons<B>(out: seq<Merged<B>>, i: nat)
    requires out != []
    ensures View(out, i) == Seen(out[0], i) + View(out[1..], i)
  {
    if |out| == 1 {
      assert out[..0] == [] && out[1..] == [];
    } else {
      var init, last := out[..|out| - 1], out[|out| - 1];
      ViewCons(init, i);
      assert init[1..] == out[1..][..|out| - 2];
      Associate(Seen(out[0], i), View(init[1..], i), Seen(last, i));
    }
  }

  lemma {:induction false} EpochView<B>(out: seq<Merged<B>>, k: nat, i: nat)
    ensures Project(Epoch(out, k), i) == Segment(View(out, i), k)
  {
    if out != [] {
      var rest := out[1..];
      ViewCons(out, i);
      var v := View(rest, i);
      if out[0].Mark? {
        assert ([None] + v)[1..] == v;
        if k > 0 { EpochView(rest, k - 1, i); }
      } else {
        EpochView(rest, k, i);
        var e := Epoch(rest, k);
        if k == 0 {
          assert ([out[0]] + e)[1..] == e;
        } else {
          assert [] + e == e;
        }
        if out[0].source == i {
          assert ([Some(out[0].batch)] + v)[1..] == v;
        } else {
          assert [] + v == v;
        }
      }
    }
  }

  /** What follows later separators does not change an earlier segment, and only extends the current one. */
  lemma {:induction false} SegmentAppend<B>(s: seq<Option<B>>, t: seq<Option<B>>, k: nat)
    ensures Segment(s, k) <= Segment(s + t, k)
    ensures k < CountNone(s) ==> Segment(s + t, k) == Segment(s, k)
  {
    if s == [] {
      assert s + t == t;
    } else {
      assert (s + t)[1..] == s[1..] + t;
      if s[0].None? {
        if k > 0 { SegmentAppend(s[1..], t, k - 1); }
      } else {
        SegmentAppend(s[1..], t, k);
      }
    }
  }

  lemma {:induction false} SegmentPad<B>(s: seq<Option<B>>, n: nat, k: nat)
    ensures Segment(s + Separators(n), k) == Segment(s, k)
    decreases |s|, n
  {
    var pad := Separators<B>(n);
    if s != [] {
      assert (s + pad)[1..] == s[1..] + pad;
      if s[0].Some? { SegmentPad(s[1..], n, k); } else if k > 0 { SegmentPad(s[1..], n, k - 1); }
    } else if n > 0 {
      assert s + pad == pad && pad[1..] == Separators<B>(n - 1);
      assert [] + Separators<B>(n - 1) == Separators<B>(n - 1);
      if k > 0 { SegmentPad<B>([], n - 1, k - 1); }
    } else {
      assert s + pad == s;
    }
  }

  lemma SkeletonSplit<B>(source: seq<Streams.Item<B>>, c: nat)
    requires c <= |source|
    ensures Skeleton(source) == Skeleton(source[..c]) + Skeleton(source[c..])
  {
  }

  lemma InputSegment<B>(source: seq<Streams.Item<B>>, input: InputStream<B>, view: seq<Option<B>>, k: nat)
    requires Aligned(source, input, view)
    ensures k < CountNone(view) || (input.rest == [] && !input.blocked) ==>
              Segment(view, k) == Segment(Skeleton(source), k)
    ensures k == CountNone(view) ==> Segment(view, k) <= Segment(Skeleton(source), k)
  {
    var consumed := |source| - |input.rest|;
    var tail := if input.blocked then [None] else [];
    var reached := view + tail;
    var front := Skeleton(source[..consumed]);
    SegmentAppend(view, tail, k);
    SegmentPad(front, |reached| - consumed, k);
    SkeletonSplit(source, consumed);
    SegmentAppend(front, Skeleton(input.rest), k);
    if input.rest == [] {
      assert Skeleton<B>([]) == [] && front + [] == front;
      assert !input.blocked ==> reached == view;
    } else {
      assert reached == front;
      CountNoneAppend(view, tail);
    }
  }

  /** `items` mixes the given parts: nothing else, and each part complete and in order. */
  ghost predicate Interleaves<B>(items: seq<Merged<B>>, sources: Sources<B>, k: nat) {
    && (forall j | 0 <= j < |items| :: items[j].Item? && items[j].source < |sources| &&
                                       items[j].ordinal == sources[items[j].source].0)
    && (forall i | 0 <= i < |sources| :: Project(items, i) == Segment(Skeleton(sources[i].1), k))
  }

  lemma {:induction false} EpochItems<B>(sources: Sources<B>, out: seq<Merged<B>>, k: nat)
    requires FromSources(sources, out)
    ensures FromSources(sources, Epoch(out, k))
    ensures forall j | 0 <= j < |Epoch(out, k)| :: Epoch(out, k)[j].Item?
  {
    if out != [] {
      if out[0].Item? { EpochItems(sources, out[1..], k); } else if k > 0 { EpochItems(sources, out[1..], k - 1); }
    }
  }

  /**
   Aligned merge. Whatever the schedule, every complete epoch of the output is an interleaving of exactly that
   segment of every input, and once the end is reported this holds for all segments.
   */
  lemma EpochsAligned<B>(sources: Sources<B>, run: seq<Config<B>>, n: nat, k: nat)
    requires IsRun(sources, run) && n < |run|
    ensures var c := run[n];
            k < |Numbers(c.out)| || c.ended ==> Interleaves(Epoch(c.out, k), sources, k)
    ensures var c := run[n];
            k == |Numbers(c.out)| ==>
              forall i | 0 <= i < |sources| :: Project(Epoch(c.out, k), i) <= Segment(Skeleton(sources[i].1), k)
  {
    var c := run[n];
    RunInv(sources, run, n);
    EpochItems(sources, c.out, k);
    forall i | 0 <= i < |sources|
      ensures k < |Numbers(c.out)| || c.ended ==> Project(Epoch(c.out, k), i) == Segment(Skeleton(sources[i].1), k)
      ensures k == |Numbers(c.out)| ==> Project(Epoch(c.out, k), i) <= Segment(Skeleton(sources[i].1), k)
    {
      EpochView(c.out, k, i);
      CountNoneView(c.out, i);
      InputSegment(sources[i].1, c.state.inputs[i], View(c.out, i), k);
    }
  }

  /** If no input is pending, a poll emits an item, or every input is exhausted and the end is reported. */
  lemma PollProgress<B>(sources: Sources<B>, run: seq<Config<B>>, n: nat, order: seq<nat>, ready: set<nat>)
    requires IsRun(sources, run) && n < |run| && Shuffle(run[n].state, order)
    requires forall i: nat | i < |sources| :: i in ready
    ensures var c := run[n];
            var d := Polled(c, order, ready);
            || |d.out| == |c.out| + 1
            || (d.ended && forall i | 0 <= i < |d.state.inputs| :: d.state.inputs[i].rest == [])
  {
    RunInv(sources, run, n);
    PendingMeans(run[n].state, order, ready, false);
    PolledInv(sources, run[n], order, ready);
  }

  // ---- What one poll returns ----

  ghost predicate Yields<B>(s: State<B>, i: nat, ready: set<nat>) {
    i < |s.inputs| && i in ready && s.inputs[i].rest != [] && s.inputs[i].rest[0].Batch?
  }

  ghost predicate Marks<B>(s: State<B>, i: nat, ready: set<nat>) {
    i < |s.inputs| && i in ready && s.inputs[i].rest != [] && s.inputs[i].rest[0].Marker?
  }

  /** The first input in the order that is ready with a batch. */
  ghost function FirstBatch<B>(s: State<B>, order: seq<nat>, ready: set<nat>): (r: Option<nat>)
    ensures r.Some? ==> Yields(s, r.value, ready)
  {
    if order == [] then None
    else if Yields(s, order[0], ready) then Some(order[0])
    else FirstBatch(s, order[1..], ready)
  }

  /** The first input in the order that is ready with a marker, among those before the first one with a batch. */
  ghost function FirstMarker<B>(s: State<B>, order: seq<nat>, ready: set<nat>): (r: Option<nat>)
    ensures r.Some? ==> Marks(s, r.value, ready)
  {
    if order == [] || Yields(s, order[0], ready) then None
    else if Marks(s, order[0], ready) then Some(order[0])
    else FirstMarker(s, order[1..], ready)
  }

  ghost predicate AllReady(order: seq<nat>, ready: set<nat>) {
    forall k | 0 <= k < |order| :: order[k] in ready
  }

  /** The marker number that is remembered after the poll, or emitted by it. */
  ghost function Remembered<B>(s: State<B>, order: seq<nat>, ready: set<nat>): Option<nat> {
    var first := FirstMarker(s, order, ready);
    if s.currentCheckpoint.Some? then s.currentCheckpoint
    else if first.Some? then Some(s.inputs[first.value].rest[0].number)
    else None
  }

  /** Taking a marker from an input changes nothing for the others. */
  lemma {:induction false} TakeElsewhere<B>(s: State<B>, i: nat, order: seq<nat>, ready: set<nat>)
    requires Marks(s, i, ready) && i !in order
    ensures FirstBatch(Take(s, i), order, ready) == FirstBatch(s, order, ready)
    ensures FirstMarker(Take(s, i), order, ready) == FirstMarker(s, order, ready)
  {
    if order != [] {
      assert order[0] in order && order[0] != i;
      assert Yields(Take(s, i), order[0], ready) <==> Yields(s, order[0], ready);
      assert Marks(Take(s, i), order[0], ready) <==> Marks(s, order[0], ready);
      TakeElsewhere(s, i, order[1..], ready);
    }
  }

  /** The result of a poll of the inputs in `order`, given what was found before. */
  ghost predicate PollGives<B>(s: State<B>, order: seq<nat>, ready: set<nat>, somePending: bool, t: State<B>,
                               poll: Poll<Merged<B>>)
  {
    var batch, number := FirstBatch(s, order, ready), Remembered(s, order, ready);
    if batch.Some? then
      var input := s.inputs[batch.value];
      poll == Ready(Some(Item(batch.value, input.ordinal, input.rest[0].batch))) && t.currentCheckpoint == number
    else if somePending || !AllReady(order, ready) then poll == Pending && t.currentCheckpoint == number
    else if number.Some? then poll == Ready(Some(Mark(number.value))) && t.currentCheckpoint == None
    else poll == Ready(None) && t.currentCheckpoint == None
  }

  lemma AllReadyCons(i: nat, rest: seq<nat>, ready: set<nat>)
    ensures AllReady([i] + rest, ready) <==> i in ready && AllReady(rest, ready)
  {
    var all := [i] + rest;
    assert all[0] == i && forall k | 0 <= k < |rest| :: rest[k] == all[k + 1];
    assert forall k | 0 < k < |all| :: all[k] == rest[k - 1];
  }

  /**
   Exactly what a poll returns: the first ready batch in the order if there is one; otherwise it waits if an unblocked
   input is not ready; otherwise it passes on the marker that was met first, or ends if no input has reached one.
   */
  lemma {:induction false} PollExactly<B>(s: State<B>, order: seq<nat>, ready: set<nat>, somePending: bool)
    requires InRange(order, |s.inputs|) && forall i, j | 0 <= i < j < |order| :: order[i] != order[j]
    requires s.currentCheckpoint.Some? <==> AnyBlocked(s)
    ensures var (t, poll) := PollAll(s, order, ready, somePending);
            PollGives(s, order, ready, somePending, t, poll)
    decreases |order|
  {
    if order != [] {
      var i, rest := order[0], order[1..];
      assert order == [i] + rest;
      AllReadyCons(i, rest, ready);
      if Marks(s, i, ready) {
        assert Take(s, i).inputs[i].blocked;
        TakeElsewhere(s, i, rest, ready);
        PollExactly(Take(s, i), rest, ready, somePending);
      } else if !Yields(s, i, ready) {
        PollExactly(s, rest, ready, somePending || i !in ready);
      }
    }
  }

  lemma NumbersFrom<B>(sources: Sources<B>, numbers: seq<nat>, ms: seq<nat>)
    requires forall k | 0 <= k < |numbers| :: Named(sources, k, numbers[k])
    requires forall i | 0 <= i < |sources| :: Markers(sources[i].1) <= ms
    ensures numbers <= ms
  {
    forall k | 0 <= k < |numbers| ensures k < |ms| && numbers[k] == ms[k] {
      assert Named(sources, k, numbers[k]);
    }
    if |numbers| > 0 { assert Named(sources, |numbers| - 1, numbers[|numbers| - 1]); }
  }

  lemma AllSeen<B>(source: seq<Streams.Item<B>>, input: InputStream<B>, out: seq<Merged<B>>, i: nat)
    requires Aligned(source, input, View(out, i)) && input.rest == [] && !input.blocked
    ensures |Markers(source)| <= |Numbers(out)|
  {
    NotBlocked(source, input, View(out, i));
    CountNoneView(out, i);
    assert source[..|source|] == source;
    CountNoneSkeleton(source);
    CountNoneAppend(Skeleton(source), Separators(|View(out, i)| - |source|));
  }

  /** Inputs that carry prefixes of one marker sequence produce a prefix of it, each marker once. */
  lemma MarkersOnce<B>(sources: Sources<B>, run: seq<Config<B>>, n: nat, ms: seq<nat>)
    requires IsRun(sources, run) && n < |run|
    requires forall i | 0 <= i < |sources| :: Markers(sources[i].1) <= ms
    ensures Numbers(run[n].out) <= ms
    ensures run[n].ended ==> forall i | 0 <= i < |sources| :: Markers(sources[i].1) <= Numbers(run[n].out)
  {
    var c := run[n];
    RunInv(sources, run, n);
    NumbersFrom(sources, Numbers(c.out), ms);
    if c.ended {
      forall i | 0 <= i < |sources| ensures |Markers(sources[i].1)| <= |Numbers(c.out)| {
        AllSeen(sources[i].1, c.state.inputs[i], c.out, i);
      }
    }
  }
}
