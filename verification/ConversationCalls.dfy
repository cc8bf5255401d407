/** What the calls of the response protocol return, over whole runs: which frame a receive or a poll hands
    out, when a send succeeds and what it puts into the log, and what the last drop says. */
module ConversationCalls {
  import opened Wrappers
  import opened Conversation
  import opened ConversationRuns

  // ----- receives and polls

  /** The receiver that this step lets wait, or return. */
  function ReceiverOf(s: State, step: Step): Option<Id> {
    match step
    case BeginReceive(r) => if s.started then Some(r) else None
    case Resume(r) => Some(r)
    case StarterReturn => if s.conv.Dropping? then Some(s.conv.receiver) else None
    case _ => None
  }

  /** The frame in the log after those that were taken. */
  function NextInLog(s: State): (frame: Option<Frame>) {
    if |s.inbox.popped| < |s.log| then Some(s.log[|s.inbox.popped|].frame) else None
  }

  lemma NextIsQueued(s: State)
    requires QueueInv(s.inbox, s.log)
    ensures NextInLog(s) == if s.inbox.queue == [] then None else Some(s.inbox.queue[0])
  {
    var b := s.inbox;
    assert |b.popped| + |b.queue| == |s.log|;
    if b.queue != [] {
      assert (b.popped + b.queue)[|b.popped|] == Frames(s.log)[|b.popped|];
    }
  }

  /** In every run a receive returns the first frame of the log that was not taken yet; there being none, it
      returns nothing if the terminal frame was taken and waits if not. */
  lemma ReceiveHandsOut(run: seq<State>, i: nat, t: State, step: Step, id: Id)
    requires IsRun(run) && i < |run| && NextStep(run[i], t, step) && ReceiverOf(run[i], step) == Some(id)
    ensures id in t.inbox.receivers
    ensures match NextInLog(run[i])
            case Some(frame) =>
              && t.inbox.receivers[id] == Returned(Some(frame))
              && t.inbox.popped == run[i].inbox.popped + [frame] && t.inbox.handed == run[i].inbox.handed + [frame]
            case None =>
              && t.inbox.receivers[id] == (if run[i].inbox.drained then Returned(None) else Sleeping)
              && t.inbox.popped == run[i].inbox.popped && t.inbox.handed == run[i].inbox.handed
  {
    RunInv(run, i);
    NextIsQueued(run[i]);
    hide LockInv, TerminalInv, HandleInv, DropInv, CancelInv, QueueInv, ConvInv, HandedInv;
  }

  /** A poll takes the same frame without waiting and hands it out unless it is a terminal one; once the
      terminal frame was taken, it does nothing. */
  lemma PollHandsOut(run: seq<State>, i: nat, t: State)
    requires IsRun(run) && i < |run| && NextStep(run[i], t, Poll)
    ensures match NextInLog(run[i])
            case Some(frame) =>
              && t.inbox.popped == run[i].inbox.popped + [frame] && t.inbox.drained == Terminal(frame.status)
              && t.inbox.handed == run[i].inbox.handed + (if Terminal(frame.status) then [] else [frame])
            case None => t == run[i]
  {
    var s := run[i];
    RunInv(run, i);
    NextIsQueued(s);
    if s.inbox.drained {
      DrainedIsEmpty(s.inbox, s.log);
    }
    hide LockInv, TerminalInv, HandleInv, DropInv, CancelInv, QueueInv, ConvInv, HandedInv;
  }

  /** No other step takes or hands out anything. */
  lemma OthersHandNothing(s: State, t: State, step: Step)
    requires NextStep(s, t, step) && step != Poll && ReceiverOf(s, step) == None
    ensures t.inbox.popped == s.inbox.popped && t.inbox.handed == s.inbox.handed && t.inbox.drained == s.inbox.drained
  {
    hide LeaseStep, Allowed, PushedEntry, WakeAll;
  }

  /** So the frames handed out are, in order, the first ones of the log; of those taken only the terminal one
      can be missing, when a poll took it. */
  lemma HandedInOrder(run: seq<State>, i: nat)
    requires IsRun(run) && i < |run|
    ensures var handed, frames := run[i].inbox.handed, Frames(run[i].log);
            && handed <= run[i].inbox.popped <= frames
            && (handed != run[i].inbox.popped ==>
                  run[i].inbox.drained && |frames| == |handed| + 1 && Terminal(frames[|handed|].status))
  {
    RunInv(run, i);
    var s := run[i];
    assert s.inbox.popped == Frames(s.log)[..|s.inbox.popped|];
    if s.inbox.handed != s.inbox.popped {
      DrainedIsEmpty(s.inbox, s.log);
      assert s.inbox.popped[|s.inbox.handed|] == Frames(s.log)[|s.inbox.handed|];
    }
  }

  // ----- sends

  /** What a send of `frame` may push: the frame, or Cancel instead of Done once the host was cancelled. */
  predicate Sent(pushed: Frame, frame: Frame, cancelled: bool) {
    pushed == frame || (cancelled && frame.status == Done && pushed == Frame(Cancel, Nihil))
  }

  ghost predicate Pushed(s: State, op: Id, frame: Frame) {
    exists k :: 0 <= k < |s.log| && s.log[k].source == op && Sent(s.log[k].frame, frame, s.cancelled)
  }

  /** Where a send of this frame has come to. */
  ghost predicate SendStory(s: State, op: Id, frame: Frame) {
    && op in s.lease.ops
    && match s.lease.ops[op]
       case FirstCheck(_, f, _) => f == frame
       case SecondCheck(_, f, _) => f == frame
       case WantLock(_, f, _) => Sent(f, frame, s.cancelled)
       case Locked(_, f, _) => Sent(f, frame, s.cancelled)
       case Pushing(_, f, _) => Sent(f, frame, s.cancelled)
       case Finished(ok) =>
         if ok then Pushed(s, op, frame) else s.lease.terminalSent || (s.cancelled && !Terminal(frame.status))
       case _ => false
  }

  lemma SendStoryBegins(s: State, t: State, op: Id, handle: Id, frame: Frame)
    requires NextStep(s, t, BeginSend(op, handle, frame))
    ensures SendStory(t, op, frame)
  {
  }

  /** Neither flag is ever taken back, and the log only grows. */
  lemma FlagsStay(s: State, t: State, step: Step)
    requires Inv(s) && NextStep(s, t, step)
    ensures (s.cancelled ==> t.cancelled) && (s.lease.terminalSent ==> t.lease.terminalSent) && s.log <= t.log
    ensures t.log == if step.Push? then s.log + [PushedEntry(s.lease, step.op)] else s.log
  {
    hide LockInv, TerminalInv, HandleInv, DropInv, CancelInv, QueueInv, ConvInv, HandedInv;
    hide Received, PolledOnce, Enqueued, WakeAll, Borrowed;
  }

  lemma PushedStays(s: State, t: State, op: Id, frame: Frame)
    requires Pushed(s, op, frame) && s.log <= t.log && (s.cancelled ==> t.cancelled)
    ensures Pushed(t, op, frame)
  {
    var k :| 0 <= k < |s.log| && s.log[k].source == op && Sent(s.log[k].frame, frame, s.cancelled);
    assert t.log[k] == s.log[k];
  }

  lemma OtherCallsStay(l: Lease, m: Lease, cancelled: bool, step: Step, op: Id)
    requires SenderStep(step) && LeaseStep(l, m, cancelled, step) && op in l.ops && step.op != op
    ensures op in m.ops && m.ops[op] == l.ops[op]
  {
    hide Borrowed, Terminal;
  }

  /** A step of another call, or of nobody, leaves a call where it is. */
  lemma CallStays(s: State, t: State, step: Step, op: Id)
    requires NextStep(s, t, step) && op in s.lease.ops && !(SenderStep(step) && step.op == op)
    ensures op in t.lease.ops && t.lease.ops[op] == s.lease.ops[op]
  {
    hide Received, PolledOnce, Enqueued, WakeAll, LeaseStep, Allowed;
    if SenderStep(step) {
      OtherCallsStay(s.lease, t.lease, s.cancelled, step, op);
    } else if step.StarterDrop? {
      StarterTakesNew(s.lease, t.lease, s.cancelled, step.op);
      OtherCallsStay(s.lease, t.lease, s.cancelled, BeginDrop(step.op, STARTER), op);
    }
  }

  lemma StarterTakesNew(l: Lease, m: Lease, cancelled: bool, op: Id)
    requires LeaseStep(l, m, cancelled, BeginDrop(op, STARTER))
    ensures op !in l.ops
  {
  }

  lemma SendStoryGoesOn(s: State, t: State, step: Step, op: Id, frame: Frame)
    requires Inv(s) && SendStory(s, op, frame) && NextStep(s, t, step)
    ensures SendStory(t, op, frame)
  {
    FlagsStay(s, t, step);
    hide Inv;
    if SenderStep(step) && step.op == op {
      OwnStepTells(s, t, step, frame);
    } else {
      CallStays(s, t, step, op);
      hide NextStep, Pushed;
      if s.lease.ops[op].Finished? && s.lease.ops[op].ok {
        PushedStays(s, t, op, frame);
      }
    }
  }

  lemma OwnStepTells(s: State, t: State, step: Step, frame: Frame)
    requires SenderStep(step) && NextStep(s, t, step) && SendStory(s, step.op, frame)
    requires t.log == if step.Push? then s.log + [PushedEntry(s.lease, step.op)] else s.log
    ensures SendStory(t, step.op, frame)
  {
    hide Enqueued, Borrowed, Terminal;
    if step.Push? {
      assert t.log[|s.log|] == PushedEntry(s.lease, step.op);
    }
  }

  /** In every run a send that began has come to one of the places of its story: if it returned Ok, it pushed
      its frame, with Cancel in place of Done possible only after cancellation; if it returned an error, the
      terminal flag was set, or its frame was content and the host had been cancelled. */
  lemma {:induction false} SendTells(run: seq<State>, i: nat, j: nat, op: Id, handle: Id, frame: Frame)
    requires IsRun(run) && i < j < |run| && NextStep(run[i], run[i + 1], BeginSend(op, handle, frame))
    ensures SendStory(run[j], op, frame)
    decreases j
  {
    hide NextStep, SendStory;
    RunInv(run, j - 1);
    if j == i + 1 {
      SendStoryBegins(run[i], run[j], op, handle, frame);
    } else {
      SendTells(run, i, j - 1, op, handle, frame);
      assert Next(run[j - 1], run[j - 1 + 1]);
      var step :| NextStep(run[j - 1], run[j], step);
      SendStoryGoesOn(run[j - 1], run[j], step, op, frame);
    }
  }

  /** Without cancellation a send that returned Ok has its own frame in the log, and one that returned an
      error met the terminal flag. */
  lemma SendWithoutCancellation(run: seq<State>, i: nat, j: nat, op: Id, handle: Id, frame: Frame)
    requires IsRun(run) && i < j < |run| && NextStep(run[i], run[i + 1], BeginSend(op, handle, frame))
    requires !run[j].cancelled && op in run[j].lease.ops && run[j].lease.ops[op].Finished?
    ensures run[j].lease.ops[op].ok ==>
              exists k :: 0 <= k < |run[j].log| && run[j].log[k].source == op && run[j].log[k].frame == frame
    ensures !run[j].lease.ops[op].ok ==> run[j].lease.terminalSent
  {
    hide NextStep;
    SendTells(run, i, j, op, handle, frame);
  }

  // ----- once each

  /** Every pushed frame comes from a call that has returned Ok, and no two from the same. */
  ghost predicate OnceInv(s: State) {
    && (forall k :: 0 <= k < |s.log| ==>
          s.log[k].source in s.lease.ops && s.lease.ops[s.log[k].source] == Finished(true))
    && (forall k, n :: 0 <= k < n < |s.log| ==> s.log[k].source != s.log[n].source)
  }

  lemma OnceKept(s: State, t: State, step: Step)
    requires Inv(s) && OnceInv(s) && NextStep(s, t, step)
    ensures OnceInv(t)
  {
    FlagsStay(s, t, step);
    forall k | 0 <= k < |s.log|
      ensures t.log[k] == s.log[k] && s.log[k].source in t.lease.ops
      ensures t.lease.ops[s.log[k].source] == Finished(true)
      ensures step.Push? ==> s.log[k].source != step.op
    {
      FinishedOnly(s, t, step, s.log[k].source);
    }
    if step.Push? {
      PusherFinishes(s, t, step.op);
      PushedLast(s, t, step.op);
    }
    hide NextStep, Inv, PushedEntry;
  }

  lemma PushedLast(s: State, t: State, op: Id)
    requires op in s.lease.ops && (s.lease.ops[op].Pushing? || s.lease.ops[op].DropPushing?)
    requires t.log == s.log + [PushedEntry(s.lease, op)]
    ensures t.log[|s.log|].source == op
  {
  }

  lemma PusherFinishes(s: State, t: State, op: Id)
    requires NextStep(s, t, Push(op))
    ensures op in t.lease.ops && t.lease.ops[op] == Finished(true)
  {
  }

  lemma FinishedOnly(s: State, t: State, step: Step, op: Id)
    requires NextStep(s, t, step) && op in s.lease.ops && s.lease.ops[op].Finished?
    ensures op in t.lease.ops && t.lease.ops[op] == s.lease.ops[op] && !(step.Push? && step.op == op)
  {
    if !(SenderStep(step) && step.op == op) {
      CallStays(s, t, step, op);
    }
  }

  lemma {:induction false} OnceInRun(run: seq<State>, i: nat)
    requires IsRun(run) && i < |run|
    ensures OnceInv(run[i])
    decreases i
  {
    hide NextStep, OnceInv;
    if i == 0 {
      NothingYet(run[0]);
    } else {
      RunInv(run, i - 1);
      OnceInRun(run, i - 1);
      assert Next(run[i - 1], run[i - 1 + 1]);
      var step :| NextStep(run[i - 1], run[i], step);
      OnceKept(run[i - 1], run[i], step);
    }
  }

  lemma NothingYet(s: State)
    requires Init(s)
    ensures OnceInv(s)
  {
  }

  // ----- the last drop

  /** What a drop pushes, when the host was cancelled before it began (`early`) or may be by now. */
  predicate DropFrame(frame: Frame, early: bool, cancelled: bool) {
    || (frame == Frame(Cancel, Nihil) && cancelled)
    || (frame == Frame(Error, Text("response producer dropped before terminal frame")) && !early)
  }

  ghost predicate DropStory(s: State, op: Id, early: bool) {
    && (early ==> s.cancelled)
    && op in s.lease.ops
    && (forall k :: 0 <= k < |s.log| && s.log[k].source == op ==> DropFrame(s.log[k].frame, early, s.cancelled))
    && match s.lease.ops[op]
       case DropWantLock => true
       case DropLocked => true
       case DropChoosing => true
       case DropPushing(f) => DropFrame(f, early, s.cancelled)
       case Finished(ok) => ok || s.lease.terminalSent
       case _ => false
  }

  lemma DropStoryBegins(s: State, t: State, op: Id, handle: Id)
    requires Inv(s) && OnceInv(s)
    requires NextStep(s, t, BeginDrop(op, handle)) || (handle == STARTER && NextStep(s, t, StarterDrop(op)))
    ensures DropStory(t, op, s.cancelled)
  {
    hide LockInv, TerminalInv, HandleInv, CancelInv, QueueInv, ConvInv, HandedInv, Borrowed;
  }

  lemma DropStoryGoesOn(s: State, t: State, step: Step, op: Id, early: bool)
    requires Inv(s) && DropStory(s, op, early) && NextStep(s, t, step)
    ensures DropStory(t, op, early)
  {
    FlagsStay(s, t, step);
    DropLogGoesOn(s, t, step, op, early);
    if SenderStep(step) && step.op == op {
      hide Inv, DropFrame;
      OwnDropTells(s, t, step, early);
    } else {
      CallStays(s, t, step, op);
      hide NextStep, Inv;
    }
  }

  lemma DropLogGoesOn(s: State, t: State, step: Step, op: Id, early: bool)
    requires DropStory(s, op, early) && (s.cancelled ==> t.cancelled)
    requires step.Push? ==> NextStep(s, t, step)
    requires t.log == if step.Push? then s.log + [PushedEntry(s.lease, step.op)] else s.log
    ensures forall k :: 0 <= k < |t.log| && t.log[k].source == op ==> DropFrame(t.log[k].frame, early, t.cancelled)
  {
    hide Enqueued, Borrowed, Terminal, Allowed;
    forall k | 0 <= k < |t.log| && t.log[k].source == op ensures DropFrame(t.log[k].frame, early, t.cancelled) {
      if k < |s.log| {
        assert t.log[k] == s.log[k];
        assert DropFrame(s.log[k].frame, early, s.cancelled);
      } else {
        assert t.log[k] == PushedEntry(s.lease, op);
      }
    }
  }

  lemma OwnDropTells(s: State, t: State, step: Step, early: bool)
    requires SenderStep(step) && NextStep(s, t, step) && DropStory(s, step.op, early) && (s.cancelled ==> t.cancelled)
    requires forall k :: 0 <= k < |t.log| && t.log[k].source == step.op ==>
             DropFrame(t.log[k].frame, early, t.cancelled)
    ensures DropStory(t, step.op, early)
  {
    hide Enqueued, Borrowed, Terminal;
  }

  /** In every run: a drop that pushes anything pushes the error that the producer is gone, or Cancel if the
      host was cancelled; always Cancel if that was so when the drop began, and never without it. */
  lemma {:induction false} DropTells(run: seq<State>, i: nat, j: nat, op: Id, handle: Id)
    requires IsRun(run) && i < j < |run|
    requires NextStep(run[i], run[i + 1], BeginDrop(op, handle)) ||
             (handle == STARTER && NextStep(run[i], run[i + 1], StarterDrop(op)))
    ensures DropStory(run[j], op, run[i].cancelled)
    decreases j
  {
    hide NextStep, DropStory;
    RunInv(run, j - 1);
    if j == i + 1 {
      OnceInRun(run, i);
      DropStoryBegins(run[i], run[j], op, handle);
    } else {
      DropTells(run, i, j - 1, op, handle);
      assert Next(run[j - 1], run[j - 1 + 1]);
      var step :| NextStep(run[j - 1], run[j], step);
      DropStoryGoesOn(run[j - 1], run[j], step, op, run[i].cancelled);
    }
  }
}
