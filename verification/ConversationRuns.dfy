/** Whole runs of the response protocol: what they push and hand out, when its calls and receivers come to
    an end, and the one run in which they do not. */
module ConversationRuns {
  import opened Wrappers
  import opened Conversation

  ghost predicate Next(s: State, t: State) {
    exists step :: NextStep(s, t, step)
  }

  ghost predicate IsRun(run: seq<State>) {
    && |run| > 0 && Init(run[0])
    && forall i :: 0 <= i < |run| - 1 ==> Next(run[i], run[i + 1])
  }

  lemma {:induction false} RunInv(run: seq<State>, i: nat)
    requires IsRun(run) && i < |run|
    ensures Inv(run[i])
    decreases i
  {
    hide NextStep, Inv;
    if i == 0 {
      InitInv(run[0]);
    } else {
      RunInv(run, i - 1);
      assert Next(run[i - 1], run[i - 1 + 1]);
      var step :| NextStep(run[i - 1], run[i], step);
      StepInv(run[i - 1], run[i], step);
    }
  }

  // ----- what is pushed and handed out

  /** No send or drop is under way. */
  ghost predicate Quiescent(l: Lease) {
    forall o :: o in l.ops ==> l.ops[o].Finished?
  }

  /** The last sender has finished dropping. */
  ghost predicate AllDropped(s: State) {
    s.started && s.lease.handles == {} && Quiescent(s.lease)
  }

  lemma DroppedIsClosed(s: State)
    requires Inv(s) && AllDropped(s)
    ensures Closed(s.log)
  {
    assert forall o :: o in s.lease.ops ==> !LastDrop(s.lease.ops[o]) && !PendingTerminal(s.lease.ops[o]);
  }

  /** In every run the pushed frames are content followed by at most one terminal, and by exactly one
      once the last sender has finished dropping. */
  lemma ContentThenOneTerminal(run: seq<State>, i: nat)
    requires IsRun(run) && i < |run|
    ensures OneTerminal(run[i].log)
    ensures AllDropped(run[i]) ==> Closed(run[i].log)
  {
    RunInv(run, i);
    if AllDropped(run[i]) {
      DroppedIsClosed(run[i]);
    }
  }

  /** A send that began after cancellation pushes a Cancel or an Error, or nothing. */
  lemma LateSendsOnlyCancel(run: seq<State>, i: nat)
    requires IsRun(run) && i < |run|
    ensures forall k :: 0 <= k < |run[i].log| && run[i].log[k].late ==> LateStatus(run[i].log[k].frame.status)
  {
    RunInv(run, i);
  }

  /** Frames are taken once each, in the order they were pushed. */
  lemma ConsumedInOrder(run: seq<State>, i: nat)
    requires IsRun(run) && i < |run|
    ensures run[i].inbox.popped + run[i].inbox.queue == Frames(run[i].log)
    ensures run[i].starts <= 1
  {
    RunInv(run, i);
  }

  /** What does not move once the terminal frame was taken. */
  predicate SameInbound(s: State, t: State) {
    t.inbox.drained && t.inbox.popped == s.inbox.popped && t.inbox.handed == s.inbox.handed && t.inbox.queue == [] &&
    t.log == s.log
  }

  lemma DrainedStep(s: State, t: State, step: Step)
    requires Inv(s) && s.inbox.drained && NextStep(s, t, step)
    ensures SameInbound(s, t)
  {
    assert QueueInv(s.inbox, s.log) && OneTerminal(s.log);
    DrainedIsEmpty(s.inbox, s.log);
    assert s.conv.Free? && s.started by {
      DrainedIsFree(s);
    }
    hide QueueInv, OneTerminal, StartInv, LockInv, HandleInv, CancelInv, DropInv, ConvInv, Enabled, LeaseAfter, WakeAll;
    if step.Push? {
      PushIsOpen(s.lease, t.lease, s.log, s.cancelled, step.op);
    }
  }

  lemma DrainedIsFree(s: State)
    requires Inv(s) && s.inbox.drained
    ensures s.conv.Free? && s.started
  {
    DrainedIsEmpty(s.inbox, s.log);
  }

  /** Once drained, the inbound side never changes again. */
  lemma {:induction false} NothingAfterTerminal(run: seq<State>, i: nat, j: nat)
    requires IsRun(run) && i <= j < |run| && run[i].inbox.drained
    ensures SameInbound(run[i], run[j])
    decreases j
  {
    hide NextStep;
    RunInv(run, i);
    if i == j {
      DrainedIsEmpty(run[i].inbox, run[i].log);
    } else {
      NothingAfterTerminal(run, i, j - 1);
      RunInv(run, j - 1);
      assert Next(run[j - 1], run[j - 1 + 1]);
      var step :| NextStep(run[j - 1], run[j], step);
      hide Inv;
      DrainedStep(run[j - 1], run[j], step);
    }
  }

  // ----- the starter's drop

  /** The starter's drop is the last one and has not finished: it will have to push while its own thread
      holds the conversation lock. */
  predicate Hung(s: State) {
    s.conv.Dropping? && s.conv.op in s.lease.ops && UnderDrop(s.lease.ops[s.conv.op])
  }

  /** It has come to the push. */
  predicate Stuck(s: State) {
    s.conv.Dropping? && s.conv.op in s.lease.ops && s.lease.ops[s.conv.op].DropPushing?
  }

  /** Nobody else set the flag, so the drop does have to push. */
  lemma HungFlag(s: State)
    requires Inv(s) && Hung(s)
    ensures s.lease.holder == None || s.lease.holder == Some(s.conv.op)
    ensures s.lease.ops[s.conv.op].DropLocked? ==> !s.lease.terminalSent
    ensures forall o :: o in s.lease.ops && o != s.conv.op ==> s.lease.ops[o].Finished?
  {
    assert s.lease.handles == {};
    assert forall o :: o in s.lease.ops ==> !Sending(s.lease.ops[o]);
  }

  /** Nothing that can happen ends a hung drop, releases its receiver or delivers a frame. */
  lemma HungStays(s: State, t: State, step: Step)
    requires Inv(s) && Hung(s) && NextStep(s, t, step)
    ensures Hung(t) && t.conv == s.conv && t.log == s.log == []
    ensures t.inbox.receivers == s.inbox.receivers == map[s.conv.receiver := Dispatching]
  {
    HungFlag(s);
    SecludedWhenHung(s);
    assert s.lease.handles == {};
    hide LockInv, TerminalInv, HandleInv, DropInv, CancelInv, QueueInv, StartInv, Borrowed;
    if SenderStep(step) {
      HungMoves(s.lease, t.lease, s.cancelled, step, s.conv.op);
    } else {
      hide LeaseAfter, Enabled;
    }
  }

  /** With no sender left, only the hung drop itself can move, up to its push. */
  lemma HungMoves(l: Lease, m: Lease, cancelled: bool, step: Step, op: Id)
    requires op in l.ops && UnderDrop(l.ops[op]) && l.handles == {}
    requires l.ops[op].DropLocked? ==> !l.terminalSent
    requires forall o :: o in l.ops && o != op ==> l.ops[o].Finished?
    requires SenderStep(step) && LeaseStep(l, m, cancelled, step)
    ensures step.Push? || (op in m.ops && UnderDrop(m.ops[op]))
  {
    hide Borrowed;
    assert step.op == op;
  }

  lemma {:induction false} HungForEver(run: seq<State>, i: nat, j: nat)
    requires IsRun(run) && i <= j < |run| && Hung(run[i])
    ensures Hung(run[j]) && run[j].conv == run[i].conv && run[j].log == []
    ensures run[j].inbox.receivers == map[run[i].conv.receiver := Dispatching]
    decreases j
  {
    hide NextStep, Hung;
    RunInv(run, j);
    if i < j {
      HungForEver(run, i, j - 1);
      RunInv(run, j - 1);
      assert Next(run[j - 1], run[j - 1 + 1]);
      var step :| NextStep(run[j - 1], run[j], step);
      hide Inv;
      HungStays(run[j - 1], run[j], step);
    } else {
      SecludedWhenHung(run[j]);
    }
  }

  lemma SecludedWhenHung(s: State)
    requires Inv(s) && Hung(s)
    ensures Secluded(s, s.conv.receiver)
  {
  }

  lemma {:induction false} FinishedStays(run: seq<State>, i: nat, j: nat, op: Id)
    requires IsRun(run) && i <= j < |run| && op in run[i].lease.ops && run[i].lease.ops[op].Finished?
    ensures op in run[j].lease.ops && run[j].lease.ops[op].Finished?
    decreases j
  {
    hide NextStep;
    if i < j {
      FinishedStays(run, i, j - 1, op);
      assert Next(run[j - 1], run[j - 1 + 1]);
      var step :| NextStep(run[j - 1], run[j], step);
      FinishedKept(run[j - 1], run[j], step, op);
    }
  }

  lemma FinishedKept(s: State, t: State, step: Step, op: Id)
    requires NextStep(s, t, step) && op in s.lease.ops && s.lease.ops[op].Finished?
    ensures op in t.lease.ops && t.lease.ops[op].Finished?
  {
    hide Received, Polled, Enqueued, WakeAll;
    if SenderStep(step) {
      DropGoesOn(s.lease, t.lease, s.cancelled, step, op);
    } else if step.StarterDrop? {
      DropGoesOn(s.lease, t.lease, s.cancelled, BeginDrop(step.op, STARTER), op);
    } else if step.BeginReceive? && !s.started {
      hide LeaseStep;
    }
  }

  /** What the starter's drop starts as. */
  lemma StarterDropsLast(s: State, t: State, op: Id)
    requires Inv(s) && NextStep(s, t, StarterDrop(op))
    ensures t.conv == Dropping(s.conv.receiver, op) && op in t.lease.ops
    ensures if s.lease.handles == {STARTER} then Hung(t) else t.lease.ops[op].Finished?
  {
    DropIsLast(s.lease, t.lease, s.cancelled, op, STARTER);
  }

  /** In every run the starter's drop finishes if and only if a sender on the host's side is still live
      when it runs: then at once, and otherwise never, with its receiver blocked and nothing delivered in
      all that follows. */
  lemma StarterDropFinishes(run: seq<State>, i: nat, j: nat, op: Id)
    requires IsRun(run) && i < j < |run| && NextStep(run[i], run[i + 1], StarterDrop(op))
    ensures op in run[j].lease.ops
    ensures run[j].lease.ops[op].Finished? <==> run[i].lease.handles != {STARTER}
    ensures run[i].lease.handles == {STARTER} ==>
              run[j].log == [] && run[j].inbox.receivers == map[run[i].conv.receiver := Dispatching]
  {
    RunInv(run, i);
    StarterDropsLast(run[i], run[i + 1], op);
    hide NextStep, Inv;
    if run[i].lease.handles == {STARTER} {
      HungForEver(run, i + 1, j);
    } else {
      FinishedStays(run, i + 1, j, op);
    }
  }

  /** A run hangs only from a starter's drop that ran without a sender on the host's side. */
  lemma {:induction false} HungFrom(run: seq<State>, j: nat) returns (i: nat, op: Id)
    requires IsRun(run) && j < |run| && Hung(run[j])
    ensures i < j && NextStep(run[i], run[i + 1], StarterDrop(op)) && run[i].lease.handles == {STARTER}
    decreases j
  {
    hide NextStep, Inv;
    assert Init(run[0]) && !Hung(run[0]);
    RunInv(run, j - 1);
    assert Next(run[j - 1], run[j - 1 + 1]);
    var step :| NextStep(run[j - 1], run[j], step);
    if Hung(run[j - 1]) {
      i, op := HungFrom(run, j - 1);
    } else {
      HangsNow(run[j - 1], run[j], step);
      i, op := j - 1, step.op;
    }
  }

  lemma HangsNow(s: State, t: State, step: Step)
    requires Inv(s) && NextStep(s, t, step) && Hung(t) && !Hung(s)
    ensures step.StarterDrop? && s.lease.handles == {STARTER}
  {
    if step.StarterDrop? {
      StarterDropsLast(s, t, step.op);
    } else if SenderStep(step) {
      if s.conv.op in s.lease.ops && s.lease.ops[s.conv.op].Finished? {
        DropGoesOn(s.lease, t.lease, s.cancelled, step, s.conv.op);
      }
    }
  }

  /** A host that drops its sender, without a frame, before the starter drops its own. */
  function HangStates(): (run: seq<State>)
    ensures |run| == 7
  {
    var inbox := Inbox([], [], false, map[7 := Dispatching], []);
    var before := State(false, 0, false, Free, NO_LEASE, [], Inbox([], [], false, map[], []));
    var lease := Lease(false, None, 2, {STARTER, HOST}, map[]);
    var starting := State(true, 1, false, Starting(7), lease, [], inbox);
    var gone := Lease(false, None, 1, {STARTER}, map[1 := Finished(true)]);
    var ops := map[1 := Finished(true), 2 := DropWantLock];
    var last := Lease(false, None, 0, {}, ops);
    var text := Text("response producer dropped before terminal frame");
    var s2 := starting.(lease := gone);
    var s3 := s2.(conv := Dropping(7, 2), lease := last);
    var s4 := s3.(lease := last.(holder := Some(2), ops := ops[2 := DropLocked]));
    var s5 := s4.(lease := s4.lease.(terminalSent := true, ops := ops[2 := DropChoosing]));
    var s6 := s5.(lease := s5.lease.(ops := ops[2 := DropPushing(Frame(Error, text))]));
    [before, starting, s2, s3, s4, s5, s6]
  }

  lemma HangStep(i: nat, step: Step)
    requires i < 6
    requires step == [BeginReceive(7), BeginDrop(1, HOST), StarterDrop(2), Acquire(2), TestAndSet(2), Choose(2)][i]
    ensures NextStep(HangStates()[i], HangStates()[i + 1], step)
  {
    var s, t := HangStates()[i], HangStates()[i + 1];
    if i == 0 {
      assert t == Dispatched(s, 7);
    } else if i <= 2 {
      var drop := if i == 1 then BeginDrop(1, HOST) else BeginDrop(2, STARTER);
      assert s.lease.handles - {drop.handle} == t.lease.handles;
      assert t.lease.ops == s.lease.ops[drop.op := if i == 1 then Finished(true) else DropWantLock];
      assert LeaseStep(s.lease, t.lease, s.cancelled, drop);
    } else {
      assert t.lease.ops == s.lease.ops[2 := t.lease.ops[2]];
      assert LeaseStep(s.lease, t.lease, s.cancelled, step);
    }
  }

  /** Such a run exists, and it gets stuck: the starter's thread waits for the lock it holds. */
  lemma HangingRun() returns (run: seq<State>)
    ensures IsRun(run) && |run| == 7 && Stuck(run[6])
    ensures NextStep(run[2], run[3], StarterDrop(2)) && run[2].lease.handles == {STARTER}
  {
    run := HangStates();
    var steps := [BeginReceive(7), BeginDrop(1, HOST), StarterDrop(2), Acquire(2), TestAndSet(2), Choose(2)];
    hide NextStep;
    forall i | 0 <= i < |run| - 1 ensures Next(run[i], run[i + 1]) {
      HangStep(i, steps[i]);
    }
    HangStep(2, StarterDrop(2));
  }

  // ----- the calls come to an end

  /** Own steps a call still has before it is finished. */
  function Rank(op: Op): nat {
    match op
    case FirstCheck(_, _, _) => 5
    case SecondCheck(_, _, _) => 4
    case WantLock(_, _, _) => 3
    case Locked(_, _, _) => 2
    case Pushing(_, _, _) => 1
    case DropWantLock => 4
    case DropLocked => 3
    case DropChoosing => 2
    case DropPushing(_) => 1
    case Finished(_) => 0
  }

  /** A step of an existing call that brings it closer to its end, or a step of the starter. */
  predicate Progress(s: State, t: State, step: Step) {
    NextStep(s, t, step) &&
    if SenderStep(step) then
      step.op in s.lease.ops && step.op in t.lease.ops && Rank(t.lease.ops[step.op]) < Rank(s.lease.ops[step.op])
    else step.StarterDrop? || step.StarterReturn?
  }

  /** The next step of an unfinished call. */
  function OwnStep(l: Lease, p: Id): (step: Step)
    requires p in l.ops && !l.ops[p].Finished?
    ensures SenderStep(step) && step.op == p && !step.BeginSend? && !step.BeginDrop?
    ensures step.Push? <==> l.ops[p].Pushing? || l.ops[p].DropPushing?
  {
    match l.ops[p]
    case FirstCheck(_, _, _) => CheckOnce(p)
    case SecondCheck(_, _, _) => CheckTwice(p)
    case WantLock(_, _, _) => Acquire(p)
    case DropWantLock => Acquire(p)
    case Locked(_, _, _) => TestAndSet(p)
    case DropLocked => TestAndSet(p)
    case DropChoosing => Choose(p)
    case _ => Push(p)
  }

  lemma OwnStepRanks(l: Lease, cancelled: bool, p: Id)
    requires p in l.ops && !l.ops[p].Finished? && Enabled(l, OwnStep(l, p))
    ensures var m := LeaseAfter(l, cancelled, OwnStep(l, p)); p in m.ops && Rank(m.ops[p]) < Rank(l.ops[p])
  {
  }

  /** The mutex stops nobody but those who wait for it. */
  lemma OwnStepEnabled(l: Lease, p: Id)
    requires p in l.ops && !l.ops[p].Finished? && (l.holder == None || HoldsLock(l.ops[p]))
    ensures Enabled(l, OwnStep(l, p))
  {
  }

  /** A lease step that the conversation lock allows is a step of the whole. */
  lemma Takes(s: State, m: Lease, step: Step) returns (t: State)
    requires SenderStep(step) && Allowed(s, step) && Enabled(s.lease, step)
    requires m == LeaseAfter(s.lease, s.cancelled, step)
    ensures NextStep(s, t, step) && t.lease == m
  {
    t := if step.Push? then s.(lease := m, log := s.log + [PushedEntry(s.lease, step.op)],
                               inbox := Enqueued(s.inbox, s.lease.ops[step.op].frame))
         else s.(lease := m);
    hide LeaseAfter;
  }

  lemma CallProgresses(s: State, p: Id) returns (t: State, step: Step)
    requires p in s.lease.ops && !s.lease.ops[p].Finished?
    requires s.lease.holder == None || HoldsLock(s.lease.ops[p])
    requires s.conv.Free? || !(s.lease.ops[p].Pushing? || s.lease.ops[p].DropPushing?)
    ensures Progress(s, t, step)
  {
    hide LeaseAfter, Enabled, OwnStep, Rank, NextStep, HoldsLock;
    OwnStepEnabled(s.lease, p);
    OwnStepRanks(s.lease, s.cancelled, p);
    step := OwnStep(s.lease, p);
    t := Takes(s, LeaseAfter(s.lease, s.cancelled, step), step);
  }

  lemma {:induction false} FreshId(ids: set<Id>) returns (id: Id)
    ensures id !in ids && forall x :: x in ids ==> x < id
    decreases |ids|
  {
    if ids == {} {
      id := 0;
    } else {
      var x :| x in ids;
      var y := FreshId(ids - {x});
      assert forall z :: z in ids ==> z == x || z in ids - {x};
      id := if x < y then y else x + 1;
    }
  }

  lemma StarterProgresses(s: State) returns (t: State, step: Step)
    requires Inv(s) && s.conv.Starting?
    ensures Progress(s, t, step)
  {
    var op := FreshId(s.lease.ops.Keys);
    var drop := BeginDrop(op, STARTER);
    assert STARTER in s.lease.handles && s.lease.live > 0;
    assert !Borrowed(s.lease, STARTER) by {
      assert DropInv(s.lease);
    }
    step := StarterDrop(op);
    t := s.(conv := Dropping(s.conv.receiver, op), lease := LeaseAfter(s.lease, s.cancelled, drop));
  }

  /** While a call is unfinished or the starter holds the conversation lock, some call or the starter can
      take a step closer to its end: exactly when the starter is not stuck. */
  lemma NoDeadlock(s: State)
    requires Inv(s) && (!Quiescent(s.lease) || !s.conv.Free?)
    ensures (exists t, step :: Progress(s, t, step)) <==> !Stuck(s)
  {
    if Stuck(s) {
      forall t, step ensures !Progress(s, t, step) {
        StuckStops(s, t, step);
      }
    } else {
      var t, step := SomeoneProgresses(s);
    }
  }

  lemma StuckStops(s: State, t: State, step: Step)
    requires Inv(s) && Stuck(s)
    ensures !Progress(s, t, step)
  {
    HungFlag(s);
    assert s.lease.handles == {};
    hide LockInv, TerminalInv, HandleInv, DropInv, CancelInv, QueueInv, StartInv, Borrowed;
  }

  lemma SomeoneProgresses(s: State) returns (t: State, step: Step)
    requires Inv(s) && (!Quiescent(s.lease) || !s.conv.Free?) && !Stuck(s)
    ensures Progress(s, t, step)
  {
    var l := s.lease;
    if s.conv.Starting? {
      t, step := StarterProgresses(s);
    } else if s.conv.Dropping? && l.ops[s.conv.op].Finished? {
      step := StarterReturn;
      t := s.(conv := Free, inbox := Received(s.inbox, s.conv.receiver));
    } else if s.conv.Dropping? {
      HungFlag(s);
      t, step := CallProgresses(s, s.conv.op);
    } else {
      var o :| o in l.ops && !l.ops[o].Finished?;
      var p := if l.holder.Some? then l.holder.value else o;
      t, step := CallProgresses(s, p);
    }
  }

  /** Every starter's drop of the run finds a sender on the host's side. */
  ghost predicate HostOutlivesStart(run: seq<State>) {
    forall i, op :: 0 <= i < |run| - 1 && NextStep(run[i], run[i + 1], StarterDrop(op)) ==>
        run[i].lease.handles != {STARTER}
  }

  /** In such a run there is no deadlock among the calls and the starter. */
  lemma NoDeadlockInRun(run: seq<State>, j: nat)
    requires IsRun(run) && j < |run| && HostOutlivesStart(run)
    requires !Quiescent(run[j].lease) || !run[j].conv.Free?
    ensures exists t, step :: Progress(run[j], t, step)
  {
    RunInv(run, j);
    if Stuck(run[j]) {
      var i, op := HungFrom(run, j);
      assert false;
    }
    NoDeadlock(run[j]);
  }

  // ----- the receivers come to an end

  /** No receiver sleeps once the terminal frame is in. */
  lemma ClosedWakes(s: State)
    requires Inv(s) && Closed(s.log)
    ensures s.conv.Free? && (s.inbox.queue == [] ==> s.inbox.drained)
    ensures forall r :: r in s.inbox.receivers ==> s.inbox.receivers[r].Woken? || s.inbox.receivers[r].Returned?
  {
    var b, log := s.inbox, s.log;
    if b.queue == [] {
      assert b.popped == Frames(log);
      assert b.popped[|b.popped| - 1] == log[|log| - 1].frame;
    }
  }

  /** Once the terminal frame is in, every receiver has returned, or has been woken and returns with its
      next step. */
  lemma NoStrandedReceiver(run: seq<State>, i: nat, r: Id)
    requires IsRun(run) && i < |run| && Closed(run[i].log) && r in run[i].inbox.receivers
    ensures run[i].inbox.receivers[r].Returned? ||
            exists t :: NextStep(run[i], t, Resume(r)) && r in t.inbox.receivers && t.inbox.receivers[r].Returned?
  {
    RunInv(run, i);
    var s := run[i];
    ClosedWakes(s);
    if s.inbox.receivers[r].Woken? {
      var t := s.(inbox := Received(s.inbox, r));
      assert NextStep(s, t, Resume(r));
    }
  }

  /** In a run whose starts all find a sender on the host's side, once no sender is left either a step
      brings the last drop closer to its end or the terminal frame is in, which releases the receivers. */
  lemma LastDropReleases(run: seq<State>, j: nat)
    requires IsRun(run) && j < |run| && HostOutlivesStart(run) && run[j].started && run[j].lease.handles == {}
    ensures (exists t, step :: Progress(run[j], t, step)) || Closed(run[j].log)
    ensures AllDropped(run[j]) ==> Closed(run[j].log)
  {
    RunInv(run, j);
    if AllDropped(run[j]) {
      DroppedIsClosed(run[j]);
    } else {
      NoDeadlockInRun(run, j);
    }
  }
}
