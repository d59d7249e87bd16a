/**
 Merging streams by polling them in a ring from a random start, dropping each stream at its end with `swap_remove`.

 One poll call must not poll an entry twice although removals move the last entry into the gap behind the cursor.
 */
module FairMerge {
  import opened Wrappers

  /** A stream that has not ended: its identity and the batches it has still to yield. */
  datatype Entry<+B> = Entry(id: nat, rest: seq<B>)

  ghost predicate Distinct<B>(entries: seq<Entry<B>>) {
    forall i, j | 0 <= i < j < |entries| :: entries[i].id != entries[j].id
  }

  function SwapRemove<T>(s: seq<T>, i: nat): seq<T>
    requires i < |s|
  {
    s[i := s[|s| - 1]][..|s| - 1]
  }

  /** The entry had ended: it was ready, with nothing left to yield. */
  ghost predicate Exhausted<B>(e: Entry<B>, ready: set<nat>) {
    e.rest == [] && e.id in ready
  }

  /** What a call may do to the entries: drop exhausted ones, advance the one that yielded, keep the others. */
  ghost predicate Keeps<B>(before: seq<Entry<B>>, after: seq<Entry<B>>, ready: set<nat>, yielded: Option<(nat, B)>) {
    && Distinct(after)
    && (forall k | 0 <= k < |after| ::
          if yielded.Some? && after[k].id == yielded.value.0
          then Entry(after[k].id, [yielded.value.1] + after[k].rest) in before
          else after[k] in before)
    && (forall k | 0 <= k < |before| ::
          || before[k] in after
          || Exhausted(before[k], ready)
          || (yielded.Some? && yielded.value.0 == before[k].id))
    && (yielded.Some? ==>
          && yielded.value.0 in ready
          && exists k | 0 <= k < |after| :: after[k].id == yielded.value.0)
  }

  ghost predicate NoneTwice(polled: seq<nat>) {
    forall i, j | 0 <= i < j < |polled| :: polled[i] != polled[j]
  }

  /** Every entry that was dropped or changed was polled. */
  ghost predicate Visits<B>(before: seq<Entry<B>>, after: seq<Entry<B>>, polled: seq<nat>) {
    forall k | 0 <= k < |before| && before[k] !in after :: before[k].id in polled
  }

  /**
   One call of `poll_next`, given the entries before and after it: an item comes from a ready entry, the end means
   that all entries are exhausted, and pending means that every entry left was polled in this call and was not ready.
   */
  ghost predicate PollResult<B>(before: seq<Entry<B>>, after: seq<Entry<B>>, ready: set<nat>,
                                poll: Poll<(nat, B)>, polled: seq<nat>) {
    && NoneTwice(polled) && Visits(before, after, polled)
    && (match poll
        case Ready(Some(item)) => Keeps(before, after, ready, Some(item))
        case Ready(None) => after == [] && Keeps(before, after, ready, None)
        case Pending =>
          && after != [] && Keeps(before, after, ready, None)
          && forall k | 0 <= k < |after| :: after[k].id in polled && after[k].id !in ready)
  }

  /** Before the cursor wraps, `start..idx` has been polled; after it, everything outside `idx..start`. */
  predicate PolledAt(k: nat, start: nat, idx: nat, wrapped: bool) {
    if wrapped then k < idx || k >= start else start <= k < idx
  }

  ghost predicate Ring<B>(entries: seq<Entry<B>>, ready: set<nat>, polled: seq<nat>,
                          start: nat, idx: nat, wrapped: bool) {
    forall k | 0 <= k < |entries| ::
      && (entries[k].id in polled <==> PolledAt(k, start, idx, wrapped))
      && (entries[k].id in polled ==> entries[k].id !in ready)
  }

  /** How many entries are left to poll, and that the cursor stands on one of them. */
  ghost predicate CursorAt(len: nat, start: nat, idx: nat, wrapped: bool, left: nat) {
    if wrapped then idx + left == (if start < len then start else len)
    else start <= idx < len && len - idx + start == left
  }

  ghost predicate AllPolled<B>(entries: seq<Entry<B>>, ready: set<nat>, polled: seq<nat>) {
    forall k | 0 <= k < |entries| :: entries[k].id in polled && entries[k].id !in ready
  }

  lemma WrapAround(idx: nat, len: nat)
    requires idx < len
    ensures (idx + 1) % len == if idx + 1 == len then 0 else idx + 1
  {
  }

  /** Positions only: moving on polls exactly the position under the cursor. */
  lemma PendingCursor(len: nat, start: nat, idx: nat, wrapped: bool, left: nat, next: nat)
    requires CursorAt(len, start, idx, wrapped, left) && left > 1 && idx < len
    requires next == if idx + 1 == len then 0 else idx + 1
    ensures CursorAt(len, start, next, wrapped || idx + 1 == len, left - 1)
  {
  }

  lemma PendingPosition(len: nat, start: nat, idx: nat, wrapped: bool, left: nat, next: nat, k: nat)
    requires CursorAt(len, start, idx, wrapped, left) && left > 0 && idx < len && k < len
    requires next == if idx + 1 == len then 0 else idx + 1
    ensures left == 1 ==> PolledAt(k, start, idx, wrapped) || k == idx
    ensures left > 1 ==> (PolledAt(k, start, next, wrapped || idx + 1 == len) <==>
                          PolledAt(k, start, idx, wrapped) || k == idx)
  {
  }

  lemma PolledOne<B>(entries: seq<Entry<B>>, polled: seq<nat>, idx: nat)
    requires Distinct(entries) && idx < |entries|
    ensures forall k | 0 <= k < |entries| ::
              entries[k].id in polled + [entries[idx].id] <==> entries[k].id in polled || k == idx
  {
    forall k | 0 <= k < |entries|
      ensures entries[k].id in polled + [entries[idx].id] <==> entries[k].id in polled || k == idx
    {
      assert k != idx ==> entries[k].id != entries[idx].id;
    }
  }

  /** A pending entry: the cursor moves on, wrapping at the end of the ring. */
  lemma PendingMoves<B>(entries: seq<Entry<B>>, ready: set<nat>, polled: seq<nat>,
                        start: nat, idx: nat, wrapped: bool, left: nat)
    requires Distinct(entries) && Ring(entries, ready, polled, start, idx, wrapped)
    requires CursorAt(|entries|, start, idx, wrapped, left) && left > 0
    requires idx < |entries| && entries[idx].id !in ready
    ensures var next := (idx + 1) % |entries|;
            var after := polled + [entries[idx].id];
            if left == 1 then AllPolled(entries, ready, after)
            else
              && Ring(entries, ready, after, start, next, wrapped || idx + 1 == |entries|)
              && CursorAt(|entries|, start, next, wrapped || idx + 1 == |entries|, left - 1)
  {
    WrapAround(idx, |entries|);
    var next := (idx + 1) % |entries|;
    if left > 1 { PendingCursor(|entries|, start, idx, wrapped, left, next); }
    PolledOne(entries, polled, idx);
    forall k | 0 <= k < |entries|
      ensures left == 1 ==> PolledAt(k, start, idx, wrapped) || k == idx
      ensures left > 1 ==> (PolledAt(k, start, next, wrapped || idx + 1 == |entries|) <==>
                            PolledAt(k, start, idx, wrapped) || k == idx)
    {
      PendingPosition(|entries|, start, idx, wrapped, left, next, k);
    }
  }

  /** Where the cursor goes when the entry under it is removed, with `len` entries left. */
  function AfterRemoval(start: nat, idx: nat, len: nat): nat {
    if idx == len then 0
    else if idx < start && start <= len && len > 0 then (idx + 1) % len
    else idx
  }

  /** Positions only: the position an entry has after a removal was polled exactly if the entry was polled before. */
  lemma RemovalCursor(len: nat, start: nat, idx: nat, wrapped: bool, left: nat, next: nat)
    requires CursorAt(len, start, idx, wrapped, left) && left > 1 && idx < len
    requires next == AfterRemoval(start, idx, len - 1)
    ensures CursorAt(len - 1, start, next, wrapped || idx == len - 1, left - 1)
  {
    if idx < len - 1 { WrapAround(idx, len - 1); }
  }

  lemma RemovalPosition(len: nat, start: nat, idx: nat, wrapped: bool, left: nat, next: nat, k: nat, was: nat)
    requires CursorAt(len, start, idx, wrapped, left) && left > 0 && idx < len && k < len - 1
    requires next == AfterRemoval(start, idx, len - 1) && was == if k == idx then len - 1 else k
    ensures left == 1 ==> PolledAt(was, start, idx, wrapped)
    ensures left > 1 ==> (PolledAt(k, start, next, wrapped || idx == len - 1) <==> PolledAt(was, start, idx, wrapped))
  {
    if idx < len - 1 { WrapAround(idx, len - 1); }
  }

  lemma SwapRemoved<B>(entries: seq<Entry<B>>, idx: nat)
    requires Distinct(entries) && idx < |entries|
    ensures var rest := SwapRemove(entries, idx);
            && |rest| == |entries| - 1
            && (forall k | 0 <= k < |rest| :: rest[k] == entries[if k == idx then |entries| - 1 else k])
            && (forall k | 0 <= k < |rest| :: rest[k].id != entries[idx].id)
            && Distinct(rest)
  {
    var rest := SwapRemove(entries, idx);
    assert forall k | 0 <= k < |rest| :: rest[k] == entries[if k == idx then |entries| - 1 else k];
  }

  /** An exhausted entry: the last entry takes its place, and is skipped exactly if it was polled before. */
  lemma RemovalMoves<B>(entries: seq<Entry<B>>, ready: set<nat>, polled: seq<nat>,
                        start: nat, idx: nat, wrapped: bool, left: nat)
    requires Distinct(entries) && Ring(entries, ready, polled, start, idx, wrapped)
    requires CursorAt(|entries|, start, idx, wrapped, left) && left > 0 && idx < |entries|
    ensures var rest := SwapRemove(entries, idx);
            var next := AfterRemoval(start, idx, |rest|);
            var after := polled + [entries[idx].id];
            if left == 1 then AllPolled(rest, ready, after)
            else
              && Ring(rest, ready, after, start, next, wrapped || idx == |rest|)
              && CursorAt(|rest|, start, next, wrapped || idx == |rest|, left - 1)
  {
    var rest := SwapRemove(entries, idx);
    var next := AfterRemoval(start, idx, |rest|);
    SwapRemoved(entries, idx);
    if left > 1 { RemovalCursor(|entries|, start, idx, wrapped, left, next); }
    forall k | 0 <= k < |rest|
      ensures rest[k].id in polled + [entries[idx].id] ==> rest[k].id !in ready
      ensures left == 1 ==> rest[k].id in polled + [entries[idx].id]
      ensures left > 1 ==>
                (rest[k].id in polled + [entries[idx].id] <==> PolledAt(k, start, next, wrapped || idx == |rest|))
    {
      var was := if k == idx then |entries| - 1 else k;
      RemovalPosition(|entries|, start, idx, wrapped, left, next, k, was);
      assert rest[k] == entries[was] && rest[k].id != entries[idx].id;
    }
  }

  lemma KeepsRemoval<B>(before: seq<Entry<B>>, entries: seq<Entry<B>>, ready: set<nat>, idx: nat)
    requires Keeps(before, entries, ready, None) && idx < |entries| && Exhausted(entries[idx], ready)
    ensures Keeps(before, SwapRemove(entries, idx), ready, None)
  {
    var rest := SwapRemove(entries, idx);
    SwapRemoved(entries, idx);
    forall k | 0 <= k < |before| && before[k] in entries && before[k] != entries[idx] ensures before[k] in rest {
      var j :| 0 <= j < |entries| && entries[j] == before[k];
      assert rest[if j == |entries| - 1 then idx else j] == entries[j];
    }
  }

  lemma KeepsYield<B>(before: seq<Entry<B>>, entries: seq<Entry<B>>, ready: set<nat>, idx: nat)
    requires Keeps(before, entries, ready, None) && idx < |entries|
    requires entries[idx].rest != [] && entries[idx].id in ready
    ensures var e := entries[idx];
            Keeps(before, entries[idx := e.(rest := e.rest[1..])], ready, Some((e.id, e.rest[0])))
  {
    var e := entries[idx];
    var after := entries[idx := e.(rest := e.rest[1..])];
    assert [e.rest[0]] + e.rest[1..] == e.rest;
    assert after[idx].id == e.id;
    forall k | 0 <= k < |before| && before[k] in entries && before[k].id != e.id ensures before[k] in after {
      var j :| 0 <= j < |entries| && entries[j] == before[k];
      assert after[j] == entries[j];
    }
  }

  /** The state of the loop with `left` iterations to go. */
  ghost predicate Polling<B>(before: seq<Entry<B>>, entries: seq<Entry<B>>, ready: set<nat>, polled: seq<nat>,
                             start: nat, idx: nat, wrapped: bool, left: nat) {
    && Keeps(before, entries, ready, None)
    && NoneTwice(polled) && Visits(before, entries, polled)
    && (if left == 0 then AllPolled(entries, ready, polled)
        else
          && idx < |entries|
          && Ring(entries, ready, polled, start, idx, wrapped)
          && CursorAt(|entries|, start, idx, wrapped, left))
  }

  lemma PolledOnce<B>(entries: seq<Entry<B>>, ready: set<nat>, polled: seq<nat>, start: nat, idx: nat, wrapped: bool,
                      left: nat)
    requires NoneTwice(polled) && idx < |entries| && Ring(entries, ready, polled, start, idx, wrapped)
    requires CursorAt(|entries|, start, idx, wrapped, left) && left > 0
    ensures NoneTwice(polled + [entries[idx].id])
  {
    assert entries[idx].id !in polled;
  }

  lemma PollingPending<B>(before: seq<Entry<B>>, entries: seq<Entry<B>>, ready: set<nat>, polled: seq<nat>,
                          start: nat, idx: nat, wrapped: bool, left: nat)
    requires Polling(before, entries, ready, polled, start, idx, wrapped, left) && left > 0
    requires entries[idx].id !in ready
    ensures Polling(before, entries, ready, polled + [entries[idx].id], start, (idx + 1) % |entries|,
                    wrapped || idx + 1 == |entries|, left - 1)
  {
    WrapAround(idx, |entries|);
    PolledOnce(entries, ready, polled, start, idx, wrapped, left);
    PendingMoves(entries, ready, polled, start, idx, wrapped, left);
  }

  lemma VisitsRemoval<B>(before: seq<Entry<B>>, entries: seq<Entry<B>>, polled: seq<nat>, idx: nat)
    requires Distinct(entries) && idx < |entries| && Visits(before, entries, polled)
    ensures Visits(before, SwapRemove(entries, idx), polled + [entries[idx].id])
  {
    var rest := SwapRemove(entries, idx);
    SwapRemoved(entries, idx);
    forall k | 0 <= k < |before| && before[k] in entries && before[k] != entries[idx] ensures before[k] in rest {
      var j :| 0 <= j < |entries| && entries[j] == before[k];
      assert rest[if j == |entries| - 1 then idx else j] == entries[j];
    }
  }

  lemma PollingRemoval<B>(before: seq<Entry<B>>, entries: seq<Entry<B>>, ready: set<nat>, polled: seq<nat>,
                          start: nat, idx: nat, wrapped: bool, left: nat)
    requires Polling(before, entries, ready, polled, start, idx, wrapped, left) && left > 0
    requires Exhausted(entries[idx], ready)
    ensures Polling(before, SwapRemove(entries, idx), ready, polled + [entries[idx].id], start,
                    AfterRemoval(start, idx, |entries| - 1), wrapped || idx == |entries| - 1, left - 1)
  {
    PolledOnce(entries, ready, polled, start, idx, wrapped, left);
    RemovalMoves(entries, ready, polled, start, idx, wrapped, left);
    KeepsRemoval(before, entries, ready, idx);
    VisitsRemoval(before, entries, polled, idx);
    if left > 1 { RemovalInside(|entries|, start, idx, wrapped, left); }
  }

  lemma RemovalInside(len: nat, start: nat, idx: nat, wrapped: bool, left: nat)
    requires CursorAt(len, start, idx, wrapped, left) && left > 1 && idx < len
    ensures AfterRemoval(start, idx, len - 1) < len - 1
  {
    if idx < len - 1 { WrapAround(idx, len - 1); }
  }

  lemma VisitsYield<B>(before: seq<Entry<B>>, entries: seq<Entry<B>>, polled: seq<nat>, idx: nat, changed: Entry<B>)
    requires idx < |entries| && Visits(before, entries, polled)
    ensures Visits(before, entries[idx := changed], polled + [entries[idx].id])
  {
    var after := entries[idx := changed];
    forall k | 0 <= k < |before| && before[k] in entries && before[k] != entries[idx] ensures before[k] in after {
      var j :| 0 <= j < |entries| && entries[j] == before[k];
      assert after[j] == entries[j];
    }
  }

  lemma PollingYield<B>(before: seq<Entry<B>>, entries: seq<Entry<B>>, ready: set<nat>, polled: seq<nat>,
                        start: nat, idx: nat, wrapped: bool, left: nat)
    requires Polling(before, entries, ready, polled, start, idx, wrapped, left) && left > 0
    requires entries[idx].rest != [] && entries[idx].id in ready
    ensures var e := entries[idx];
            PollResult(before, entries[idx := e.(rest := e.rest[1..])], ready, Ready(Some((e.id, e.rest[0]))),
                       polled + [e.id])
  {
    var e := entries[idx];
    PolledOnce(entries, ready, polled, start, idx, wrapped, left);
    KeepsYield(before, entries, ready, idx);
    VisitsYield(before, entries, polled, idx, e.(rest := e.rest[1..]));
  }

  method SkipSwapped(start: nat, idx: nat, len: nat) returns (next: nat)
    requires idx <= len
    ensures next == AfterRemoval(start, idx, len)
  {
    next := idx;
    if idx == len {
      next := 0;
    } else if idx < start && start <= len {
      next := (idx + 1) % len;
    }
  }

  class CombinedRecordBatchStream<B> {
    var entries: seq<Entry<B>>

    constructor (streams: seq<seq<B>>)
      ensures entries == Entries(streams)
    {
      entries := Entries(streams);
    }

    method PollNext(start: nat, ready: set<nat>) returns (poll: Poll<(nat, B)>, ghost polled: seq<nat>)
      requires Distinct(entries)
      requires if entries == [] then start == 0 else start < |entries|
      modifies this
      ensures PollResult(old(entries), entries, ready, poll, polled)
    {
      var idx: nat := start;
      var n := |entries|;
      ghost var wrapped := false;
      polled := [];
      for c := 0 to n
        invariant Polling(old(entries), entries, ready, polled, start, idx, wrapped, n - c)
      {
        var e := entries[idx];
        if e.id !in ready {
          PollingPending(old(entries), entries, ready, polled, start, idx, wrapped, n - c);
          wrapped := wrapped || idx + 1 == |entries|;
          idx := (idx + 1) % |entries|;
        } else if e.rest != [] {
          PollingYield(old(entries), entries, ready, polled, start, idx, wrapped, n - c);
          entries := entries[idx := e.(rest := e.rest[1..])];
          return Ready(Some((e.id, e.rest[0]))), polled + [e.id];
        } else {
          PollingRemoval(old(entries), entries, ready, polled, start, idx, wrapped, n - c);
          entries := SwapRemove(entries, idx);
          wrapped := wrapped || idx == |entries|;
          idx := SkipSwapped(start, idx, |entries|);
        }
        polled := polled + [e.id];
      }
      if entries == [] {
        return Ready(None), polled;
      }
      return Pending, polled;
    }
  }

  function Entries<B>(streams: seq<seq<B>>): seq<Entry<B>> {
    seq(|streams|, i requires 0 <= i < |streams| => Entry(i, streams[i]))
  }

  // ---- Runs ----

  /** The entries, what was emitted with its origin, and whether the end was reported. */
  datatype Config<B> = Config(entries: seq<Entry<B>>, out: seq<(nat, B)>, ended: bool)

  ghost predicate Next<B(!new)>(c: Config<B>, d: Config<B>) {
    exists ready, poll, polled ::
      && PollResult(c.entries, d.entries, ready, poll, polled)
      && d.out == (if poll.Ready? && poll.item.Some? then c.out + [poll.item.value] else c.out)
      && d.ended == (poll == Ready(None))
  }

  ghost predicate StepAt<B(!new)>(run: seq<Config<B>>, k: nat)
    requires k + 1 < |run|
  {
    Next(run[k], run[k + 1])
  }

  /** Any sequence of calls, with any start and any readiness in each of them. */
  ghost predicate IsRun<B(!new)>(streams: seq<seq<B>>, run: seq<Config<B>>) {
    && |run| > 0
    && run[0] == Config(Entries(streams), [], false)
    && forall k: nat | k + 1 < |run| :: StepAt(run, k)
  }

  /** What one stream contributed to the output. */
  function Project<B>(out: seq<(nat, B)>, id: nat): seq<B> {
    if out == [] then []
    else
      var before, last := Project(out[..|out| - 1], id), out[|out| - 1];
      if last.0 == id then before + [last.1] else before
  }

  lemma ProjectSnoc<B>(out: seq<(nat, B)>, item: (nat, B), id: nat)
    ensures Project(out + [item], id) == if item.0 == id then Project(out, id) + [item.1] else Project(out, id)
  {
    assert (out + [item])[..|out|] == out;
  }

  ghost predicate Present<B>(entries: seq<Entry<B>>, id: nat) {
    exists k | 0 <= k < |entries| :: entries[k].id == id
  }

  /** A stream has emitted a prefix and its entry holds the rest; without an entry it has emitted everything. */
  ghost predicate Accounted<B>(streams: seq<seq<B>>, c: Config<B>) {
    && Distinct(c.entries)
    && (forall k | 0 <= k < |c.entries| ::
          && c.entries[k].id < |streams|
          && Project(c.out, c.entries[k].id) + c.entries[k].rest == streams[c.entries[k].id])
    && (forall id | 0 <= id < |streams| && !Present(c.entries, id) :: Project(c.out, id) == streams[id])
    && (forall k | 0 <= k < |c.out| :: c.out[k].0 < |streams|)
  }

  lemma AccountedEntry<B>(streams: seq<seq<B>>, c: Config<B>, d: Config<B>, yielded: Option<(nat, B)>, ready: set<nat>,
                          k: nat)
    requires Accounted(streams, c) && Keeps(c.entries, d.entries, ready, yielded) && k < |d.entries|
    requires d.out == if yielded.Some? then c.out + [yielded.value] else c.out
    ensures d.entries[k].id < |streams|
    ensures Project(d.out, d.entries[k].id) + d.entries[k].rest == streams[d.entries[k].id]
  {
    var e := d.entries[k];
    if yielded.Some? {
      ProjectSnoc(c.out, yielded.value, e.id);
      if e.id == yielded.value.0 {
        var j :| 0 <= j < |c.entries| && c.entries[j] == Entry(e.id, [yielded.value.1] + e.rest);
        Regroup(Project(c.out, e.id), yielded.value.1, e.rest);
      }
    }
  }

  lemma Regroup<T>(a: seq<T>, x: T, b: seq<T>)
    ensures a + [x] + b == a + ([x] + b)
  {
  }

  lemma AccountedGone<B>(streams: seq<seq<B>>, c: Config<B>, d: Config<B>, yielded: Option<(nat, B)>, ready: set<nat>,
                         id: nat)
    requires Accounted(streams, c) && Keeps(c.entries, d.entries, ready, yielded)
    requires d.out == if yielded.Some? then c.out + [yielded.value] else c.out
    requires id < |streams| && !Present(d.entries, id)
    ensures Project(d.out, id) == streams[id]
  {
    if yielded.Some? { ProjectSnoc(c.out, yielded.value, id); }
    assert Project(d.out, id) == Project(c.out, id);
    if Present(c.entries, id) {
      var k :| 0 <= k < |c.entries| && c.entries[k].id == id;
      assert c.entries[k] !in d.entries;
      assert c.entries[k].rest == [];
    }
  }

  lemma NextAccounted<B(!new)>(streams: seq<seq<B>>, c: Config<B>, d: Config<B>)
    requires Accounted(streams, c) && Next(c, d)
    ensures Accounted(streams, d) && (d.ended ==> d.entries == [])
  {
    var ready, poll, polled :|
      && PollResult(c.entries, d.entries, ready, poll, polled)
      && d.out == (if poll.Ready? && poll.item.Some? then c.out + [poll.item.value] else c.out)
      && d.ended == (poll == Ready(None));
    var yielded := if poll.Ready? then poll.item else None;
    forall k | 0 <= k < |d.entries|
      ensures d.entries[k].id < |streams|
      ensures Project(d.out, d.entries[k].id) + d.entries[k].rest == streams[d.entries[k].id]
    {
      AccountedEntry(streams, c, d, yielded, ready, k);
    }
    forall id | 0 <= id < |streams| && !Present(d.entries, id) ensures Project(d.out, id) == streams[id] {
      AccountedGone(streams, c, d, yielded, ready, id);
    }
  }

  /**
   Over whole runs every stream's items come out in order, as a prefix of the stream, and nothing else comes out.
   Once the end is reported every stream has come out completely.
   */
  lemma {:induction false} RunInterleaves<B(!new)>(streams: seq<seq<B>>, run: seq<Config<B>>, n: nat)
    requires IsRun(streams, run) && n < |run|
    ensures Accounted(streams, run[n])
    ensures forall id | 0 <= id < |streams| :: Project(run[n].out, id) <= streams[id]
    ensures run[n].ended ==> forall id | 0 <= id < |streams| :: Project(run[n].out, id) == streams[id]
  {
    if n > 0 {
      RunInterleaves(streams, run, n - 1);
      assert StepAt(run, n - 1);
      NextAccounted(streams, run[n - 1], run[n]);
    } else {
      forall id | 0 <= id < |streams| ensures Present(run[0].entries, id) {
        assert run[0].entries[id].id == id;
      }
    }
    forall id | 0 <= id < |streams| ensures Project(run[n].out, id) <= streams[id] {
      if Present(run[n].entries, id) {
        var k :| 0 <= k < |run[n].entries| && run[n].entries[k].id == id;
      }
    }
  }
}
