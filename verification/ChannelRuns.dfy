/**
 Every interleaving of one sender with any number of readers of a `DataChannel`.

 The sender sends `script`, then possibly an error, and is dropped. Between any two of its critical sections a reader
 may check the status, read the data or start to wait; between a reader's two reads the sender may do anything.
 */
module ChannelRuns {
  import opened Wrappers
  import opened Streams
  import opened DataChannel

  /** `MustNotify` holds the notification taken out of the channel that has not been closed yet. */
  datatype SenderPc = Sending | MustNotify(note: nat) | ErrorSet | ErrorTaken(taken: Option<nat>)
                    | Dropping | DropSet | DropTaken(taken: Option<nat>) | Gone

  datatype Sender<B> = Sender(script: seq<Item<B>>, fails: bool, nextIndex: nat, lastCheckpoint: nat, pc: SenderPc)

  datatype ReaderPc = CheckStatus | ReadNext(finished: bool) | Waiting(note: nat)
                    | Ended | Closed | GotError | Broken

  datatype Reader<B> = Reader(index: nat, out: seq<Item<B>>, pc: ReaderPc)

  datatype System<B> = System(channel: Channel<B>, sender: Sender<B>, readers: seq<Reader<B>>)

  function Start<B>(script: seq<Item<B>>, fails: bool, readers: nat): System<B> {
    System(Create(), Sender(script, fails, 0, 0, Sending), seq(readers, _ => Reader(0, [], CheckStatus)))
  }

  function SenderStep<B>(s: System<B>): System<B>
    requires s.sender.pc != Gone
    requires s.sender.pc == Sending && s.sender.nextIndex < |s.sender.script| ==> s.channel.notification.Some?
  {
    var c := s.channel;
    var sender := s.sender;
    match sender.pc
    case Sending =>
      if sender.nextIndex < |sender.script| then
        var item := sender.script[sender.nextIndex];
        var (c1, note) := Push(c, item);
        s.(channel := c1,
           sender := sender.(nextIndex := sender.nextIndex + 1,
                             lastCheckpoint := if item.Marker? then item.number else sender.lastCheckpoint,
                             pc := MustNotify(note.value)))
      else if sender.fails then s.(channel := c.(status := Failed), sender := sender.(pc := ErrorSet))
      else s.(sender := sender.(pc := Dropping))
    case MustNotify(note) => s.(channel := Notify(c, note), sender := sender.(pc := Sending))
    case ErrorSet =>
      var (c1, note) := TakeNotification(c);
      s.(channel := c1, sender := sender.(pc := ErrorTaken(note)))
    case ErrorTaken(note) =>
      s.(channel := if note.Some? then Notify(c, note.value) else c, sender := sender.(pc := Dropping))
    case Dropping =>
      s.(channel := c.(status := Cancelled(sender.lastCheckpoint, sender.nextIndex)), sender := sender.(pc := DropSet))
    case DropSet =>
      var (c1, note) := TakeNotification(c);
      s.(channel := c1, sender := sender.(pc := DropTaken(note)))
    case DropTaken(note) =>
      s.(channel := if note.Some? then Notify(c, note.value) else c, sender := sender.(pc := Gone))
    case Gone => s
  }

  predicate Stopped(pc: ReaderPc) {
    pc.Ended? || pc.Closed? || pc.GotError? || pc.Broken?
  }

  /** A waiting reader can only move once its notification is closed. */
  ghost predicate CanRead<B>(c: Channel<B>, r: Reader<B>) {
    !Stopped(r.pc) && (r.pc.Waiting? ==> r.pc.note in c.closed)
  }

  function ReadStep<B>(c: Channel<B>, r: Reader<B>): Reader<B> {
    match r.pc
    case CheckStatus =>
      (match ReadStatus(c, r.index)
       case Go(finished) => r.(pc := ReadNext(finished))
       case AtEnd => r.(pc := Ended)
       case SenderFailed => r.(pc := GotError)
       case PastEnd => r.(pc := Broken))
    case ReadNext(finished) =>
      (match ReadData(c, r.index)
       case Found(item) => Reader(r.index + 1, r.out + [item], CheckStatus)
       case Missing(Some(note)) => r.(pc := if finished then Ended else Waiting(note))
       case Missing(None) => r.(pc := Closed))
    case Waiting(_) => r.(pc := CheckStatus)
    case _ => r
  }

  /** One move of the sender, or of one reader. */
  ghost predicate Next<B>(s: System<B>, t: System<B>) {
    || (&& s.sender.pc != Gone
        && (s.sender.pc == Sending && s.sender.nextIndex < |s.sender.script| ==> s.channel.notification.Some?)
        && t == SenderStep(s))
    || exists i | 0 <= i < |s.readers| ::
         && CanRead(s.channel, s.readers[i])
         && t == s.(readers := s.readers[i := ReadStep(s.channel, s.readers[i])])
  }

  // ---- Invariant ----

  ghost predicate SenderInv<B>(s: System<B>) {
    var c := s.channel;
    var sender := s.sender;
    && sender.nextIndex <= |sender.script|
    && c.data == sender.script[..sender.nextIndex]
    && (!(sender.pc.Sending? || sender.pc.MustNotify?) ==> sender.nextIndex == |sender.script|)
    && (match sender.pc
        case Sending => c.status == Running && c.notification.Some?
        case MustNotify(_) => c.status == Running && c.notification.Some?
        case ErrorSet => sender.fails && c.status == Failed && c.notification.Some?
        case ErrorTaken(_) => sender.fails && c.status == Failed && c.notification.None?
        case Dropping => if sender.fails then c.status == Failed && c.notification.None?
                         else c.status == Running && c.notification.Some?
        case DropSet => c.status.Cancelled? && (c.notification.None? <==> sender.fails)
        case DropTaken(_) => c.status.Cancelled? && c.notification.None?
        case Gone => c.status.Cancelled? && c.notification.None?)
    && (c.status.Cancelled? ==> c.status.validUntil == |sender.script|)
  }

  /** The notification the sender has taken out and is about to close. */
  ghost function Held(pc: SenderPc): Option<nat> {
    match pc
    case MustNotify(note) => Some(note)
    case ErrorTaken(note) => note
    case DropTaken(note) => note
    case _ => None
  }

  /** Nobody waits in vain: a notification is in the channel, closed, or in the sender's hand. */
  ghost predicate Alive<B>(s: System<B>, note: nat) {
    s.channel.notification == Some(note) || note in s.channel.closed || Held(s.sender.pc) == Some(note)
  }

  ghost predicate NotesInv<B>(s: System<B>) {
    && (forall note: nat | note < s.channel.created :: Alive(s, note))
    && (s.channel.notification.Some? ==> s.channel.notification.value < s.channel.created)
  }

  ghost predicate ReaderInv<B>(s: System<B>, r: Reader<B>) {
    && r.index <= s.sender.nextIndex <= |s.sender.script|
    && r.out == s.sender.script[..r.index]
    && (r.pc == ReadNext(true) ==> r.index < s.sender.nextIndex)
    && (r.pc.Waiting? ==> r.pc.note < s.channel.created)
    && (r.pc.Waiting? && s.channel.notification == Some(r.pc.note) ==> r.index == s.sender.nextIndex)
    && (r.pc.Ended? || r.pc.Closed? ==> r.index == |s.sender.script|)
    && (r.pc.GotError? ==> s.sender.fails)
    && !r.pc.Broken?
  }

  ghost predicate Inv<B>(s: System<B>) {
    && SenderInv(s)
    && NotesInv(s)
    && forall i | 0 <= i < |s.readers| :: ReaderInv(s, s.readers[i])
  }

  lemma StartInv<B>(script: seq<Item<B>>, fails: bool, readers: nat)
    ensures Inv(Start(script, fails, readers))
  {
  }

  lemma SenderKeeps<B>(s: System<B>)
    requires Inv(s) && s.sender.pc != Gone
    ensures Inv(SenderStep(s))
  {
    var t := SenderStep(s);
    assert SenderInv(t) by {
      if s.sender.pc.Sending? && s.sender.nextIndex < |s.sender.script| {
        var n := s.sender.nextIndex;
        assert s.sender.script[..n + 1] == s.sender.script[..n] + [s.sender.script[n]];
      }
    }
    forall note: nat | note < t.channel.created ensures Alive(t, note) {
      if note < s.channel.created { assert Alive(s, note); }
    }
    forall i | 0 <= i < |t.readers| ensures ReaderInv(t, t.readers[i]) {
      assert ReaderInv(s, s.readers[i]);
    }
  }

  lemma ReadKeeps<B>(s: System<B>, i: nat)
    requires Inv(s) && i < |s.readers| && CanRead(s.channel, s.readers[i])
    ensures Inv(s.(readers := s.readers[i := ReadStep(s.channel, s.readers[i])]))
  {
    var r := s.readers[i];
    var t := s.(readers := s.readers[i := ReadStep(s.channel, r)]);
    assert ReaderInv(s, r);
    forall note: nat | note < t.channel.created ensures Alive(t, note) { assert Alive(s, note); }
    assert ReaderInv(t, t.readers[i]);
    forall j | 0 <= j < |t.readers| ensures ReaderInv(t, t.readers[j]) {
      assert ReaderInv(s, s.readers[j]);
    }
  }

  ghost predicate IsRun<B>(script: seq<Item<B>>, fails: bool, readers: nat, run: seq<System<B>>) {
    && |run| > 0
    && run[0] == Start(script, fails, readers)
    && forall k: nat | k + 1 < |run| :: StepAt(run, k)
  }

  ghost predicate StepAt<B>(run: seq<System<B>>, k: nat)
    requires k + 1 < |run|
  {
    Next(run[k], run[k + 1])
  }

  lemma NextKeeps<B>(s: System<B>, t: System<B>)
    requires Inv(s) && Next(s, t)
    ensures Inv(t) && |t.readers| == |s.readers|
    ensures t.sender.script == s.sender.script && t.sender.fails == s.sender.fails
  {
    if i :| 0 <= i < |s.readers| && CanRead(s.channel, s.readers[i]) &&
            t == s.(readers := s.readers[i := ReadStep(s.channel, s.readers[i])]) {
      ReadKeeps(s, i);
    } else {
      SenderKeeps(s);
    }
  }

  lemma {:induction false} RunInv<B>(script: seq<Item<B>>, fails: bool, readers: nat, run: seq<System<B>>, k: nat)
    requires IsRun(script, fails, readers, run) && k < |run|
    ensures Inv(run[k]) && run[k].sender.script == script && run[k].sender.fails == fails
    ensures |run[k].readers| == readers
  {
    if k == 0 {
      StartInv(script, fails, readers);
    } else {
      RunInv(script, fails, readers, run, k - 1);
      assert StepAt(run, k - 1);
      NextKeeps(run[k - 1], run[k]);
    }
  }

  /**
   Whatever the interleaving, a reader has received a prefix of what the sender was given to send. If it stopped
   without an error of the sender, cleanly or because the channel was closed, it has received everything.
   The index error cannot happen, and neither can the panic of a send without notification.
   */
  lemma ReadersComplete<B>(script: seq<Item<B>>, fails: bool, readers: nat, run: seq<System<B>>, k: nat, i: nat)
    requires IsRun(script, fails, readers, run) && k < |run| && i < readers
    ensures |run[k].readers| == readers
    ensures var r := run[k].readers[i];
            && r.out <= script
            && (r.pc.Ended? || r.pc.Closed? ==> r.out == script)
            && (r.pc.GotError? ==> fails)
            && !r.pc.Broken?
    ensures var sender := run[k].sender;
            sender.pc.Sending? && sender.nextIndex < |script| ==> run[k].channel.notification.Some?
  {
    RunInv(script, fails, readers, run, k);
    assert ReaderInv(run[k], run[k].readers[i]);
  }

  /**
   No lost wakeup. A waiting reader waits for the notification in the channel, and then there is nothing for it to
   read, or for one that is closed, or for one the sender holds and closes in its next step.
   */
  lemma NoLostWakeup<B>(script: seq<Item<B>>, fails: bool, readers: nat, run: seq<System<B>>, k: nat, i: nat)
    requires IsRun(script, fails, readers, run) && k < |run| && i < readers
    ensures |run[k].readers| == readers
    ensures var s := run[k];
            var r := s.readers[i];
            r.pc.Waiting? ==>
              || (s.channel.notification == Some(r.pc.note) && r.index == |s.channel.data| && s.sender.pc != Gone)
              || CanRead(s.channel, r)
              || (Held(s.sender.pc) == Some(r.pc.note) && CanRead(SenderStep(s).channel, r))
  {
    RunInv(script, fails, readers, run, k);
    var s := run[k];
    assert ReaderInv(s, s.readers[i]);
    if s.readers[i].pc.Waiting? { assert Alive(s, s.readers[i].pc.note); }
  }

  /** How many steps a reader has left once the sender is gone. */
  ghost function Left<B>(script: seq<Item<B>>, r: Reader<B>): int {
    if Stopped(r.pc) then 0
    else 3 * (|script| - r.index) + match r.pc case ReadNext(_) => 1 case CheckStatus => 2 case _ => 3
  }

  /** With the sender gone, every step of a reader is possible and brings it closer to its end. */
  lemma DrainStep<B>(s: System<B>, i: nat)
    requires Inv(s) && s.sender.pc == Gone && i < |s.readers| && !Stopped(s.readers[i].pc)
    ensures CanRead(s.channel, s.readers[i])
    ensures 0 <= Left(s.sender.script, ReadStep(s.channel, s.readers[i])) < Left(s.sender.script, s.readers[i])
  {
    assert ReaderInv(s, s.readers[i]);
    if s.readers[i].pc.Waiting? { assert Alive(s, s.readers[i].pc.note); }
  }

  // ---- Finishing a run ----

  lemma Extend<B>(script: seq<Item<B>>, fails: bool, readers: nat, run: seq<System<B>>, t: System<B>)
    requires IsRun(script, fails, readers, run) && Next(run[|run| - 1], t)
    ensures IsRun(script, fails, readers, run + [t])
  {
    var longer := run + [t];
    forall k: nat | k + 1 < |longer| ensures StepAt(longer, k) {
      if k + 1 < |run| {
        assert StepAt(run, k);
        assert longer[k] == run[k] && longer[k + 1] == run[k + 1];
      }
    }
  }

  /** How many steps the sender has left. */
  ghost function SenderLeft<B>(sender: Sender<B>): int {
    2 * (|sender.script| - sender.nextIndex) +
    match sender.pc
    case Sending => 7 case MustNotify(_) => 8 case ErrorSet => 6 case ErrorTaken(_) => 5
    case Dropping => 4 case DropSet => 3 case DropTaken(_) => 2 case Gone => 0
  }

  lemma SenderCloser<B>(s: System<B>)
    requires Inv(s) && s.sender.pc != Gone
    ensures Next(s, SenderStep(s)) && 0 <= SenderLeft(SenderStep(s).sender) < SenderLeft(s.sender)
  {
  }

  /** The sender can always move on until it is gone. */
  lemma {:induction false} SenderFinishes<B>(script: seq<Item<B>>, fails: bool, readers: nat, run: seq<System<B>>,
                                             left: nat)
    returns (longer: seq<System<B>>)
    requires IsRun(script, fails, readers, run) && SenderLeft(run[|run| - 1].sender) <= left
    ensures run <= longer && IsRun(script, fails, readers, longer) && longer[|longer| - 1].sender.pc == Gone
    decreases left
  {
    var s := run[|run| - 1];
    RunInv(script, fails, readers, run, |run| - 1);
    if s.sender.pc == Gone {
      longer := run;
    } else {
      SenderCloser(s);
      Extend(script, fails, readers, run, SenderStep(s));
      longer := SenderFinishes(script, fails, readers, run + [SenderStep(s)], left - 1);
    }
  }

  /** Once the sender is gone, a reader can always move on until it stops, without moving anything else. */
  lemma {:induction false} ReaderFinishes<B>(script: seq<Item<B>>, fails: bool, readers: nat, run: seq<System<B>>,
                                             i: nat, left: nat)
    returns (longer: seq<System<B>>)
    requires IsRun(script, fails, readers, run) && run[|run| - 1].sender.pc == Gone
    requires i < |run[|run| - 1].readers| && Left(script, run[|run| - 1].readers[i]) <= left
    ensures run <= longer && IsRun(script, fails, readers, longer) && longer[|longer| - 1].sender.pc == Gone
    ensures var before, after := run[|run| - 1].readers, longer[|longer| - 1].readers;
            |after| == |before| && after == before[i := after[i]] && Stopped(after[i].pc)
    decreases left
  {
    var s := run[|run| - 1];
    RunInv(script, fails, readers, run, |run| - 1);
    if Stopped(s.readers[i].pc) {
      longer := run;
    } else {
      DrainStep(s, i);
      var t := s.(readers := s.readers[i := ReadStep(s.channel, s.readers[i])]);
      assert Next(s, t);
      Extend(script, fails, readers, run, t);
      longer := ReaderFinishes(script, fails, readers, run + [t], i, left - 1);
    }
  }

  ghost predicate FirstStopped<B>(readers: seq<Reader<B>>, n: nat)
    requires n <= |readers|
  {
    forall i | 0 <= i < n :: Stopped(readers[i].pc)
  }

  lemma {:induction false} AllFinish<B>(script: seq<Item<B>>, fails: bool, readers: nat, run: seq<System<B>>, n: nat)
    returns (longer: seq<System<B>>)
    requires IsRun(script, fails, readers, run) && run[|run| - 1].sender.pc == Gone
    requires n <= readers == |run[|run| - 1].readers|
    ensures run <= longer && IsRun(script, fails, readers, longer) && longer[|longer| - 1].sender.pc == Gone
    ensures |longer[|longer| - 1].readers| == readers
    ensures FirstStopped(longer[|longer| - 1].readers, n)
  {
    if n == 0 {
      longer := run;
    } else {
      var earlier := AllFinish(script, fails, readers, run, n - 1);
      RunInv(script, fails, readers, earlier, |earlier| - 1);
      var r := earlier[|earlier| - 1].readers[n - 1];
      assert ReaderInv(earlier[|earlier| - 1], r);
      longer := ReaderFinishes(script, fails, readers, earlier, n - 1, Left(script, r));
    }
  }

  /** The reader has stopped: with everything, or with the error of the sender. */
  ghost predicate Finished<B>(r: Reader<B>, script: seq<Item<B>>, fails: bool) {
    || ((r.pc.Ended? || r.pc.Closed?) && r.out == script)
    || (fails && r.pc.GotError?)
  }

  ghost predicate AllFinished<B>(readers: seq<Reader<B>>, script: seq<Item<B>>, fails: bool) {
    forall i | 0 <= i < |readers| :: Finished(readers[i], script, fails)
  }

  /**
   Every run can be finished, from whatever state it has reached: there is a continuation in which every reader stops.
   A reader that stops without an error of the sender has received everything, and without such an error all do.
   */
  lemma RunsFinish<B>(script: seq<Item<B>>, fails: bool, readers: nat, run: seq<System<B>>)
    returns (longer: seq<System<B>>)
    requires IsRun(script, fails, readers, run)
    ensures run <= longer && IsRun(script, fails, readers, longer)
    ensures |longer[|longer| - 1].readers| == readers && AllFinished(longer[|longer| - 1].readers, script, fails)
  {
    RunInv(script, fails, readers, run, |run| - 1);
    var sent := SenderFinishes(script, fails, readers, run, SenderLeft(run[|run| - 1].sender));
    RunInv(script, fails, readers, sent, |sent| - 1);
    longer := AllFinish(script, fails, readers, sent, readers);
    var last := longer[|longer| - 1].readers;
    forall i | 0 <= i < |last| ensures Finished(last[i], script, fails) {
      ReadersComplete(script, fails, readers, longer, |longer| - 1, i);
    }
  }

  // ---- How a reader that has everything ends ----

  /** Notifications that are not closed yet: the current one and the one in the sender's hand, which differ. */
  ghost predicate OpenNotes<B>(s: System<B>) {
    && (forall note | note in s.channel.closed :: note < s.channel.created)
    && (s.channel.notification.Some? ==> s.channel.notification.value !in s.channel.closed)
    && (Held(s.sender.pc).Some? ==>
          && Held(s.sender.pc).value < s.channel.created
          && Held(s.sender.pc).value !in s.channel.closed
          && s.channel.notification != Held(s.sender.pc))
  }

  /** A reader that waits with everything read is woken by the drop of the sender only. */
  ghost predicate WaitsForDrop<B>(s: System<B>, r: Reader<B>) {
    r.pc.Waiting? && r.index == |s.sender.script| ==>
      || s.channel.notification == Some(r.pc.note)
      || s.sender.pc == DropTaken(Some(r.pc.note))
      || s.sender.pc == Gone
  }

  ghost predicate CleanInv<B>(s: System<B>) {
    OpenNotes(s) && forall i | 0 <= i < |s.readers| :: WaitsForDrop(s, s.readers[i])
  }

  lemma SenderOpenNotes<B>(s: System<B>)
    requires Inv(s) && OpenNotes(s) && s.sender.pc != Gone
    ensures OpenNotes(SenderStep(s))
  {
  }

  lemma SenderWaits<B>(s: System<B>, i: nat)
    requires Inv(s) && !s.sender.fails && s.sender.pc != Gone && i < |s.readers| && WaitsForDrop(s, s.readers[i])
    ensures WaitsForDrop(SenderStep(s), s.readers[i])
  {
    assert ReaderInv(s, s.readers[i]);
  }

  lemma NextClean<B>(s: System<B>, t: System<B>)
    requires Inv(s) && CleanInv(s) && !s.sender.fails && Next(s, t)
    ensures CleanInv(t)
  {
    if i :| 0 <= i < |s.readers| && CanRead(s.channel, s.readers[i]) &&
            t == s.(readers := s.readers[i := ReadStep(s.channel, s.readers[i])]) {
      assert WaitsForDrop(s, s.readers[i]);
    } else {
      SenderOpenNotes(s);
      forall i | 0 <= i < |t.readers| ensures WaitsForDrop(t, t.readers[i]) { SenderWaits(s, i); }
    }
  }

  lemma {:induction false} RunClean<B>(script: seq<Item<B>>, readers: nat, run: seq<System<B>>, k: nat)
    requires IsRun(script, false, readers, run) && k < |run|
    ensures CleanInv(run[k])
  {
    if k > 0 {
      RunClean(script, readers, run, k - 1);
      RunInv(script, false, readers, run, k - 1);
      assert StepAt(run, k - 1);
      NextClean(run[k - 1], run[k]);
    }
  }

  /** A reader that waits with everything read ends cleanly: once it is woken, its next two steps lead to the end. */
  lemma WaitingEndsCleanly<B>(script: seq<Item<B>>, readers: nat, run: seq<System<B>>, k: nat, i: nat)
    requires IsRun(script, false, readers, run) && k < |run| && i < |run[k].readers|
    requires run[k].readers[i].pc.Waiting? && run[k].readers[i].index == |script|
    requires CanRead(run[k].channel, run[k].readers[i])
    ensures run[k].sender.pc == Gone
    ensures ReadStep(run[k].channel, ReadStep(run[k].channel, run[k].readers[i])).pc == Ended
  {
    RunInv(script, false, readers, run, k);
    RunClean(script, readers, run, k);
    assert WaitsForDrop(run[k], run[k].readers[i]);
  }

  /**
   A reader that has everything and saw the channel running ends with the "closed" error exactly when the sender takes
   the notification away before the reader looks at the data. Otherwise it waits, with everything read.
   */
  lemma ClosedExactlyInWindow<B>(script: seq<Item<B>>, readers: nat, run: seq<System<B>>, k: nat, i: nat)
    requires IsRun(script, false, readers, run) && k < |run| && i < readers
    requires i < |run[k].readers| && run[k].readers[i].pc == ReadNext(false) && run[k].readers[i].index == |script|
    ensures var pc, sender := ReadStep(run[k].channel, run[k].readers[i]).pc, run[k].sender.pc;
            && (pc == Closed <==> sender.DropTaken? || sender.Gone?)
            && (pc.Waiting? <==> !(sender.DropTaken? || sender.Gone?))
  {
    RunInv(script, false, readers, run, k);
    assert ReaderInv(run[k], run[k].readers[i]);
  }

  lemma SenderNext<B>(s: System<B>)
    requires s.sender.pc != Gone && s.sender.script == []
    ensures Next(s, SenderStep(s))
  {
  }

  lemma ReaderNext<B>(s: System<B>, t: System<B>, i: nat)
    requires i < |s.readers| && CanRead(s.channel, s.readers[i])
    requires t == s.(readers := s.readers[i := ReadStep(s.channel, s.readers[i])])
    ensures Next(s, t)
  {
  }

  /** A sender that sends nothing and is dropped can make a reader fail, although no error was sent. */
  lemma CleanEndIsNotGuaranteed<B>() returns (run: seq<System<B>>)
    ensures IsRun([], false, 1, run)
    ensures run[|run| - 1].readers == [Reader(0, [], Closed)]
  {
    var s0: System<B> := Start([], false, 1);
    var s1 := s0.(readers := s0.readers[0 := ReadStep(s0.channel, s0.readers[0])]);
    var s2 := SenderStep(s1);
    var s3 := SenderStep(s2);
    var s4 := SenderStep(s3);
    var s5 := s4.(readers := s4.readers[0 := ReadStep(s4.channel, s4.readers[0])]);
    run := [s0, s1, s2, s3, s4, s5];
    ReaderNext(s0, s1, 0);
    SenderNext(s1);
    SenderNext(s2);
    SenderNext(s3);
    ReaderNext(s4, s5, 0);
  }

  /** A reader that checks the status learns of the error exactly between its publication and the drop. */
  lemma ErrorSeenExactly<B>(script: seq<Item<B>>, readers: nat, run: seq<System<B>>, k: nat, i: nat)
    requires IsRun(script, true, readers, run) && k < |run| && i < readers
    requires i < |run[k].readers| && run[k].readers[i].pc == CheckStatus
    ensures ReadStep(run[k].channel, run[k].readers[i]).pc == GotError <==>
            run[k].sender.pc.ErrorSet? || run[k].sender.pc.ErrorTaken? || run[k].sender.pc.Dropping?
  {
    RunInv(script, true, readers, run, k);
  }

  /** An error that was sent can be lost: dropping the sender replaces it by an ordinary end. */
  lemma ErrorCanBeLost<B>() returns (run: seq<System<B>>)
    ensures IsRun([], true, 1, run)
    ensures run[|run| - 1].readers == [Reader(0, [], Ended)]
  {
    var s0: System<B> := Start([], true, 1);
    var s1 := SenderStep(s0);
    var s2 := SenderStep(s1);
    var s3 := SenderStep(s2);
    var s4 := SenderStep(s3);
    var s5 := s4.(readers := s4.readers[0 := ReadStep(s4.channel, s4.readers[0])]);
    run := [s0, s1, s2, s3, s4, s5];
    SenderNext(s0);
    SenderNext(s1);
    SenderNext(s2);
    SenderNext(s3);
    ReaderNext(s4, s5, 0);
  }

  // ---- The status of a dropped channel ----

  /** The number of the last marker, or 0. */
  function LastMarker<B>(items: seq<Item<B>>): nat {
    if items == [] then 0
    else
      var last := items[|items| - 1];
      if last.Marker? then last.number else LastMarker(items[..|items| - 1])
  }

  ghost predicate CheckpointInv<B>(s: System<B>) {
    && s.sender.nextIndex <= |s.sender.script|
    && s.sender.lastCheckpoint == LastMarker(s.sender.script[..s.sender.nextIndex])
    && (s.channel.status.Cancelled? ==> s.channel.status.lastCheckpoint == s.sender.lastCheckpoint)
  }

  lemma NextCheckpoint<B>(s: System<B>, t: System<B>)
    requires Inv(s) && CheckpointInv(s) && Next(s, t)
    ensures CheckpointInv(t)
  {
    if s.sender.pc.Sending? && s.sender.nextIndex < |s.sender.script| {
      var n := s.sender.nextIndex;
      assert s.sender.script[..n + 1][..n] == s.sender.script[..n];
    }
  }

  /** In every run, once the sender is dropped the status names the last marker and the number of items it sent. */
  lemma {:induction false} DropNamesCheckpoint<B>(script: seq<Item<B>>, fails: bool, readers: nat,
                                                  run: seq<System<B>>, k: nat)
    requires IsRun(script, fails, readers, run) && k < |run|
    ensures CheckpointInv(run[k])
    ensures run[k].channel.status.Cancelled? ==> run[k].channel.status == Cancelled(LastMarker(script), |script|)
    ensures run[k].sender.pc == Gone ==> run[k].channel.status.Cancelled?
  {
    RunInv(script, fails, readers, run, k);
    if k > 0 {
      DropNamesCheckpoint(script, fails, readers, run, k - 1);
      RunInv(script, fails, readers, run, k - 1);
      assert StepAt(run, k - 1);
      NextCheckpoint(run[k - 1], run[k]);
    }
    assert script[..|script|] == script;
  }
}
