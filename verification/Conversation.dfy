/** The response side of a conversation, as atomic steps: any number of cloned senders whose sends
    and drops interleave, a cancellation flag, a terminal flag behind a mutex, and receivers that
    block on a condition variable or poll. The first receiver starts the host: while it holds the
    conversation lock it makes a sender, hands a clone to the host and drops its own. */
module Conversation {
  import opened Wrappers

  datatype Status = Request | Item | Byte | Done | Error | Cancel

  predicate Terminal(status: Status) {
    status == Done || status == Error || status == Cancel
  }

  datatype Data = Nihil | Text(text: string) | Payload(tag: nat)

  datatype Frame = Frame(status: Status, data: Data)

  /** A pushed frame, whether it comes from a send that began after cancellation, and the call that pushed it. */
  datatype Entry = Entry(frame: Frame, late: bool, source: Id)

  type Id = nat

  /** The sender the starting receiver keeps while it starts the host, and the clone the host is given. */
  const STARTER: Id := 0
  const HOST: Id := 1

  /** Where one send or one drop stands. A send reads the cancellation flag twice, takes the mutex,
      tests and sets the flag under it, and pushes while still holding it. */
  datatype Op =
    | FirstCheck(handle: Id, frame: Frame, late: bool)
    | SecondCheck(handle: Id, frame: Frame, late: bool)
    | WantLock(handle: Id, frame: Frame, late: bool)
    | Locked(handle: Id, frame: Frame, late: bool)
    | Pushing(handle: Id, frame: Frame, late: bool)
    | DropWantLock
    | DropLocked
    | DropChoosing
    | DropPushing(frame: Frame)
    | Finished(ok: bool)

  /** What the senders share: the terminal flag, its mutex, the count of live senders; and the
      sender values and calls that exist. */
  datatype Lease = Lease(terminalSent: bool, holder: Option<Id>, live: nat, handles: set<Id>, ops: map<Id, Op>)

  datatype Receiver = Dispatching | Sleeping | Woken | Returned(frame: Option<Frame>)

  /** The inbound side: the queue, the frames taken from it so far, the receivers, and the frames that
      receives and polls have handed to their callers so far. */
  datatype Inbox = Inbox(
    queue: seq<Frame>, popped: seq<Frame>, drained: bool, receivers: map<Id, Receiver>, handed: seq<Frame>)

  /** The conversation lock, as far as it is held over several steps: by the receiver that starts the
      host, first during the start and then during the drop of its own sender. The lock is not
      reentrant. All other holders take it, do one thing and release it, which is one step. */
  datatype Conversing = Free | Starting(receiver: Id) | Dropping(receiver: Id, op: Id)

  datatype State = State(
    started: bool, starts: nat, cancelled: bool, conv: Conversing, lease: Lease, log: seq<Entry>, inbox: Inbox)

  const NO_LEASE: Lease := Lease(false, None, 0, {}, map[])

  predicate Init(s: State) {
    s == State(false, 0, false, Free, NO_LEASE, [], Inbox([], [], false, map[], []))
  }

  // ----- the inbound side

  function WakeAll(receivers: map<Id, Receiver>): (r: map<Id, Receiver>)
    ensures r.Keys == receivers.Keys
  {
    map id | id in receivers :: if receivers[id] == Sleeping then Woken else receivers[id]
  }

  /** `push_response_frame`: append under the conversation lock and wake every waiter. */
  function Enqueued(b: Inbox, frame: Frame): Inbox {
    b.(queue := b.queue + [frame], receivers := WakeAll(b.receivers))
  }

  /** Take the first frame; a terminal one marks the inbound side drained. */
  function Popped(b: Inbox): Inbox
    requires b.queue != []
  {
    b.(queue := b.queue[1..], popped := b.popped + [b.queue[0]], drained := b.drained || Terminal(b.queue[0].status))
  }

  /** The part of `sermo_recv` after dispatch: wait, or take what is there. */
  function Waited(b: Inbox, id: Id): (r: Inbox)
    ensures id in r.receivers
  {
    if b.queue == [] && !b.drained then b.(receivers := b.receivers[id := Sleeping])
    else if b.queue == [] then b.(receivers := b.receivers[id := Returned(None)])
    else Popped(b).(receivers := b.receivers[id := Returned(Some(b.queue[0]))])
  }

  function Given(r: Receiver): seq<Frame> {
    if r.Returned? && r.frame.Some? then [r.frame.value] else []
  }

  /** And what it returns is handed out. */
  function Received(b: Inbox, id: Id): Inbox {
    var after := Waited(b, id);
    after.(handed := b.handed + Given(after.receivers[id]))
  }

  /** `recv_content_frame` and what it hands out: content only, never blocking. */
  function Polled(b: Inbox): (r: (Inbox, Option<Frame>)) {
    if b.drained || b.queue == [] then (b, None)
    else (Popped(b), if Terminal(b.queue[0].status) then None else Some(b.queue[0]))
  }

  function PolledOnce(b: Inbox): Inbox {
    var (after, frame) := Polled(b);
    after.(handed := b.handed + if frame.Some? then [frame.value] else [])
  }

  // ----- the sender side

  datatype Step =
    | BeginSend(op: Id, handle: Id, frame: Frame)
    | CheckOnce(op: Id)
    | CheckTwice(op: Id)
    | Acquire(op: Id)
    | TestAndSet(op: Id)
    | Choose(op: Id)
    | Push(op: Id)
    | BeginDrop(op: Id, handle: Id)
    | CloneHandle(handle: Id, copy: Id)
    | CancelByHost
    | CancelByReceiver
    | BeginReceive(receiver: Id)
    | StarterDrop(op: Id)
    | StarterReturn
    | Resume(receiver: Id)
    | SpuriousWake(receiver: Id)
    | Poll

  predicate Sending(op: Op) {
    op.FirstCheck? || op.SecondCheck? || op.WantLock? || op.Locked? || op.Pushing?
  }

  predicate SendOn(op: Op, handle: Id) {
    Sending(op) && op.handle == handle
  }

  /** A sender cannot be dropped while a call on it is running. */
  predicate Borrowed(l: Lease, handle: Id) {
    exists o :: o in l.ops && SendOn(l.ops[o], handle)
  }

  function Move(l: Lease, op: Id, value: Op): Lease {
    l.(ops := l.ops[op := value])
  }

  predicate SenderStep(step: Step) {
    step.BeginSend? || step.CheckOnce? || step.CheckTwice? || step.Acquire? || step.TestAndSet? || step.Choose? ||
    step.Push? || step.BeginDrop?
  }

  /** When a step of a send or a drop can be taken, as far as the senders are concerned. */
  predicate Enabled(l: Lease, step: Step)
    requires SenderStep(step)
  {
    match step
    case BeginSend(op, handle, _) => op !in l.ops && handle in l.handles
    case CheckOnce(op) => op in l.ops && l.ops[op].FirstCheck?
    case CheckTwice(op) => op in l.ops && l.ops[op].SecondCheck?
    case Acquire(op) => op in l.ops && l.holder == None && (l.ops[op].WantLock? || l.ops[op].DropWantLock?)
    case TestAndSet(op) => op in l.ops && (l.ops[op].Locked? || l.ops[op].DropLocked?)
    case Choose(op) => op in l.ops && l.ops[op].DropChoosing?
    case Push(op) => op in l.ops && (l.ops[op].Pushing? || l.ops[op].DropPushing?)
    case BeginDrop(op, handle) => op !in l.ops && handle in l.handles && !Borrowed(l, handle) && l.live > 0
  }

  /** What that step does to the lease. */
  function LeaseAfter(l: Lease, cancelled: bool, step: Step): Lease
    requires SenderStep(step) && Enabled(l, step)
  {
    match step
    case BeginSend(op, handle, frame) => Move(l, op, FirstCheck(handle, frame, cancelled))
    case CheckOnce(op) =>
      var o := l.ops[op];
      Move(l, op, if cancelled && !Terminal(o.frame.status) then Finished(false)
                  else SecondCheck(o.handle, o.frame, o.late))
    case CheckTwice(op) =>
      var o := l.ops[op];
      var frame := if cancelled && o.frame.status == Done then Frame(Cancel, Nihil) else o.frame;
      Move(l, op, WantLock(o.handle, frame, o.late))
    case Acquire(op) =>
      var o := l.ops[op];
      Move(l, op, if o.WantLock? then Locked(o.handle, o.frame, o.late) else DropLocked).(holder := Some(op))
    case TestAndSet(op) =>
      var o := l.ops[op];
      if l.terminalSent then Move(l, op, Finished(false)).(holder := None)
      else if o.DropLocked? then Move(l, op, DropChoosing).(terminalSent := true)
      else Move(l, op, Pushing(o.handle, o.frame, o.late)).(terminalSent := Terminal(o.frame.status))
    case Choose(op) =>
      Move(l, op, DropPushing(if cancelled then Frame(Cancel, Nihil)
                              else Frame(Error, Text("response producer dropped before terminal frame"))))
    case Push(op) => Move(l, op, Finished(true)).(holder := None)
    case BeginDrop(op, handle) =>
      Move(l, op, if l.live != 1 then Finished(true) else DropWantLock)
        .(handles := l.handles - {handle}, live := l.live - 1)
  }

  predicate LeaseStep(l: Lease, m: Lease, cancelled: bool, step: Step)
    requires SenderStep(step)
  {
    Enabled(l, step) && m == LeaseAfter(l, cancelled, step)
  }

  function PushedEntry(l: Lease, op: Id): Entry
    requires op in l.ops && (l.ops[op].Pushing? || l.ops[op].DropPushing?)
  {
    Entry(l.ops[op].frame, if l.ops[op].Pushing? then l.ops[op].late else false, op)
  }

  /** `ensure_runtime_response_started` up to the end of the host's start: a sender, its clone for the
      host, and the conversation lock still held. */
  function Dispatched(s: State, id: Id): State {
    s.(started := true, starts := s.starts + 1, conv := Starting(id),
       lease := s.lease.(handles := {STARTER, HOST}, live := 2),
       inbox := s.inbox.(receivers := s.inbox.receivers[id := Dispatching]))
  }

  /** Host threads never use the starter's sender, and a push needs the conversation lock. */
  predicate Allowed(s: State, step: Step)
    requires SenderStep(step)
  {
    && (step.BeginSend? || step.BeginDrop? ==> step.handle != STARTER)
    && (step.Push? ==> s.conv.Free?)
  }

  predicate NextStep(s: State, t: State, step: Step) {
    if SenderStep(step) then
      Allowed(s, step) && LeaseStep(s.lease, t.lease, s.cancelled, step) &&
      t == if step.Push?
           then s.(lease := t.lease, log := s.log + [PushedEntry(s.lease, step.op)],
                   inbox := Enqueued(s.inbox, s.lease.ops[step.op].frame))
           else s.(lease := t.lease)
    else match step
      case CloneHandle(handle, copy) =>
        handle in s.lease.handles && handle != STARTER && copy !in s.lease.handles && copy != STARTER &&
        t == s.(lease := s.lease.(handles := s.lease.handles + {copy}, live := s.lease.live + 1))
      case CancelByHost => s.started && t == s.(cancelled := true)
      case CancelByReceiver =>
        s.started && s.conv.Free? && !s.inbox.drained &&
        t == s.(cancelled := true, inbox := s.inbox.(receivers := WakeAll(s.inbox.receivers)))
      case BeginReceive(id) =>
        s.conv.Free? && id !in s.inbox.receivers &&
        t == if s.started then s.(inbox := Received(s.inbox, id)) else Dispatched(s, id)
      case StarterDrop(op) =>
        s.conv.Starting? && LeaseStep(s.lease, t.lease, s.cancelled, BeginDrop(op, STARTER)) &&
        t == s.(conv := Dropping(s.conv.receiver, op), lease := t.lease)
      case StarterReturn =>
        s.conv.Dropping? && s.conv.op in s.lease.ops && s.lease.ops[s.conv.op].Finished? &&
        t == s.(conv := Free, inbox := Received(s.inbox, s.conv.receiver))
      case Resume(id) =>
        s.conv.Free? && id in s.inbox.receivers && s.inbox.receivers[id] == Woken &&
        t == s.(inbox := Received(s.inbox, id))
      case SpuriousWake(id) =>
        id in s.inbox.receivers && s.inbox.receivers[id] == Sleeping &&
        t == s.(inbox := s.inbox.(receivers := s.inbox.receivers[id := Woken]))
      case Poll => s.conv.Free? && t == s.(inbox := PolledOnce(s.inbox))
  }

  // ----- what every step keeps

  predicate HoldsLock(op: Op) {
    op.Locked? || op.Pushing? || op.DropLocked? || op.DropChoosing? || op.DropPushing?
  }

  ghost predicate LockInv(l: Lease) {
    && (forall o :: o in l.ops && HoldsLock(l.ops[o]) ==> l.holder == Some(o))
    && (l.holder.Some? ==> l.holder.value in l.ops && HoldsLock(l.ops[l.holder.value]))
  }

  /** The log ends in a terminal frame. */
  predicate Closed(log: seq<Entry>) {
    |log| > 0 && Terminal(log[|log| - 1].frame.status)
  }

  /** Content frames, then at most one terminal. */
  predicate OneTerminal(log: seq<Entry>) {
    forall i :: 0 <= i < |log| - 1 ==> !Terminal(log[i].frame.status)
  }

  /** The frame this operation is about to push is the terminal that the flag announces. */
  predicate PendingTerminal(op: Op) {
    (op.Pushing? && Terminal(op.frame.status)) || op.DropChoosing? || op.DropPushing?
  }

  ghost predicate TerminalInv(l: Lease, log: seq<Entry>) {
    && OneTerminal(log)
    && (Closed(log) ==> l.terminalSent)
    && (l.terminalSent && !Closed(log) ==>
        l.holder.Some? && l.holder.value in l.ops && PendingTerminal(l.ops[l.holder.value]))
    && (forall o :: o in l.ops && PendingTerminal(l.ops[o]) ==> l.terminalSent && !Closed(log))
    && (forall o :: o in l.ops && l.ops[o].Pushing? && !Terminal(l.ops[o].frame.status) ==> !l.terminalSent)
    && (forall o :: o in l.ops && l.ops[o].DropPushing? ==> Terminal(l.ops[o].frame.status))
  }

  predicate LastDrop(op: Op) {
    op.DropWantLock? || op.DropLocked?
  }

  ghost predicate HandleInv(l: Lease, started: bool) {
    && l.live == |l.handles|
    && (forall o :: o in l.ops && Sending(l.ops[o]) ==> l.ops[o].handle in l.handles)
    && (started && l.handles == {} ==> l.terminalSent || exists o :: o in l.ops && LastDrop(l.ops[o]))
  }

  /** The last sender's drop, until it has finished. */
  predicate UnderDrop(op: Op) {
    op.DropWantLock? || op.DropLocked? || op.DropChoosing? || op.DropPushing?
  }

  /** Only one drop is the last, and no sender is left beside it. */
  ghost predicate DropInv(l: Lease) {
    && (forall o :: o in l.ops && UnderDrop(l.ops[o]) ==> l.handles == {})
    && (forall o, p :: o in l.ops && p in l.ops && UnderDrop(l.ops[o]) && UnderDrop(l.ops[p]) ==> o == p)
    && (forall o :: o in l.ops && Sending(l.ops[o]) ==> l.ops[o].handle != STARTER)
  }

  /** While the starter holds the conversation lock nothing was pushed and nobody else receives. */
  ghost predicate Secluded(s: State, receiver: Id) {
    && s.started && s.log == [] && s.inbox.queue == [] && s.inbox.popped == [] && !s.inbox.drained
    && s.inbox.receivers == map[receiver := Dispatching]
  }

  ghost predicate ConvInv(s: State) {
    match s.conv
    case Free =>
      && STARTER !in s.lease.handles
      && forall r :: r in s.inbox.receivers ==> s.inbox.receivers[r] != Dispatching
    case Starting(r) => Secluded(s, r) && STARTER in s.lease.handles
    case Dropping(r, op) =>
      && Secluded(s, r) && STARTER !in s.lease.handles
      && op in s.lease.ops && (s.lease.ops[op].Finished? || UnderDrop(s.lease.ops[op]))
  }

  predicate LateStatus(status: Status) {
    status == Cancel || status == Error
  }

  /** How far a send that began after cancellation can have come. */
  predicate LateOk(op: Op, cancelled: bool) {
    && ((op.FirstCheck? || op.SecondCheck?) && op.late ==> cancelled)
    && (op.SecondCheck? && op.late ==> Terminal(op.frame.status))
    && ((op.WantLock? || op.Locked? || op.Pushing?) && op.late ==> LateStatus(op.frame.status))
  }

  ghost predicate CancelInv(l: Lease, log: seq<Entry>, cancelled: bool) {
    && (forall o :: o in l.ops ==> LateOk(l.ops[o], cancelled))
    && (forall i :: 0 <= i < |log| && log[i].late ==> LateStatus(log[i].frame.status))
  }

  function Frames(log: seq<Entry>): (r: seq<Frame>)
    ensures |r| == |log|
  {
    seq(|log|, i requires 0 <= i < |log| => log[i].frame)
  }

  ghost predicate QueueInv(b: Inbox, log: seq<Entry>) {
    && b.popped + b.queue == Frames(log)
    && (b.drained <==> |b.popped| > 0 && Terminal(b.popped[|b.popped| - 1].status))
    && (forall r :: r in b.receivers && b.receivers[r] == Sleeping ==> b.queue == [] && !b.drained)
  }

  /** What was handed out is what was taken, in order, but for a terminal frame that a poll took. */
  ghost predicate HandedInv(b: Inbox) {
    && b.handed <= b.popped
    && (b.handed == b.popped || (b.drained && |b.popped| == |b.handed| + 1))
  }

  ghost predicate StartInv(s: State) {
    && s.starts == (if s.started then 1 else 0)
    && (!s.started ==> s.log == [] && s.lease == NO_LEASE && !s.cancelled && s.inbox.receivers == map[])
  }

  ghost predicate Inv(s: State) {
    && LockInv(s.lease)
    && TerminalInv(s.lease, s.log)
    && HandleInv(s.lease, s.started)
    && DropInv(s.lease)
    && ConvInv(s)
    && CancelInv(s.lease, s.log, s.cancelled)
    && QueueInv(s.inbox, s.log)
    && HandedInv(s.inbox)
    && StartInv(s)
  }

  lemma InitInv(s: State)
    requires Init(s)
    ensures Inv(s)
  {
  }

  lemma LockKept(l: Lease, m: Lease, cancelled: bool, step: Step)
    requires LockInv(l) && SenderStep(step) && LeaseStep(l, m, cancelled, step)
    ensures LockInv(m)
  {
  }

  /** Only a push changes the log, and then by the frame of the operation that holds the mutex. */
  lemma TerminalKept(l: Lease, m: Lease, log: seq<Entry>, cancelled: bool, step: Step)
    requires LockInv(l) && TerminalInv(l, log) && SenderStep(step) && !step.Push? && LeaseStep(l, m, cancelled, step)
    ensures TerminalInv(m, log)
  {
    if step.TestAndSet? {
      FlagTested(l, m, log, cancelled, step.op);
    } else {
      FlagLeft(l, m, log, cancelled, step);
    }
  }

  lemma FlagTested(l: Lease, m: Lease, log: seq<Entry>, cancelled: bool, op: Id)
    requires LockInv(l) && TerminalInv(l, log) && LeaseStep(l, m, cancelled, TestAndSet(op))
    ensures TerminalInv(m, log)
  {
    hide OneTerminal, Closed;
    assert forall o :: o in m.ops && o != op ==> m.ops[o] == l.ops[o] && !HoldsLock(l.ops[o]);
  }

  lemma FlagLeft(l: Lease, m: Lease, log: seq<Entry>, cancelled: bool, step: Step)
    requires LockInv(l) && TerminalInv(l, log) && SenderStep(step) && !step.Push? && !step.TestAndSet?
    requires LeaseStep(l, m, cancelled, step)
    ensures TerminalInv(m, log)
  {
    hide OneTerminal, Closed, Borrowed;
    OthersKept(l, m, cancelled, step);
    if step.Choose? {
    } else if step.Acquire? {
      hide Terminal;
    } else {
      hide Terminal;
      assert !HoldsLock(m.ops[step.op]) && m.terminalSent == l.terminalSent && m.holder == l.holder;
    }
  }

  lemma OthersKept(l: Lease, m: Lease, cancelled: bool, step: Step)
    requires SenderStep(step) && LeaseStep(l, m, cancelled, step)
    ensures step.op in m.ops && forall o :: o in m.ops && o != step.op ==> o in l.ops && m.ops[o] == l.ops[o]
  {
    hide Borrowed, Terminal;
  }

  lemma TerminalPushed(l: Lease, m: Lease, log: seq<Entry>, cancelled: bool, op: Id)
    requires LockInv(l) && TerminalInv(l, log) && LeaseStep(l, m, cancelled, Push(op))
    ensures TerminalInv(m, log + [PushedEntry(l, op)])
  {
    var after := log + [PushedEntry(l, op)];
    assert !Closed(log);
    forall i | 0 <= i < |after| - 1 ensures !Terminal(after[i].frame.status) {
      assert after[i] == log[i];
    }
    forall o | o in m.ops ensures !HoldsLock(m.ops[o]) {
      if o != op {
        assert m.ops[o] == l.ops[o];
      }
    }
  }

  lemma DropKeepsHandles(l: Lease, m: Lease, cancelled: bool, started: bool, op: Id, handle: Id)
    requires HandleInv(l, started) && LeaseStep(l, m, cancelled, BeginDrop(op, handle))
    ensures HandleInv(m, started)
  {
    assert |m.handles| == |l.handles| - 1;
    assert forall o :: o in m.ops && o != op ==> o in l.ops && m.ops[o] == l.ops[o];
    forall o | o in m.ops && Sending(m.ops[o]) ensures m.ops[o].handle in m.handles {
      assert !SendOn(l.ops[o], handle);
    }
    if m.handles == {} {
      assert LastDrop(m.ops[op]);
    }
  }

  /** The drop of the last sender stays under way until the flag is set. */
  lemma LastDropStays(l: Lease, m: Lease, cancelled: bool, step: Step, o: Id)
    requires SenderStep(step) && LeaseStep(l, m, cancelled, step)
    requires o in l.ops && LastDrop(l.ops[o]) && !m.terminalSent
    ensures o in m.ops && LastDrop(m.ops[o])
  {
  }

  lemma SendKeepsHandles(l: Lease, m: Lease, cancelled: bool, step: Step)
    requires SenderStep(step) && !step.BeginDrop? && LeaseStep(l, m, cancelled, step)
    requires forall o :: o in l.ops && Sending(l.ops[o]) ==> l.ops[o].handle in l.handles
    ensures m.handles == l.handles && m.live == l.live && (l.terminalSent ==> m.terminalSent)
    ensures forall o :: o in m.ops && Sending(m.ops[o]) ==> m.ops[o].handle in m.handles
  {
    assert forall o :: o in m.ops && o != step.op ==> o in l.ops && m.ops[o] == l.ops[o];
  }

  lemma HandleKept(l: Lease, m: Lease, cancelled: bool, started: bool, step: Step)
    requires HandleInv(l, started) && SenderStep(step) && LeaseStep(l, m, cancelled, step)
    ensures HandleInv(m, started)
  {
    hide LeaseStep, LastDrop, Sending;
    if step.BeginDrop? {
      DropKeepsHandles(l, m, cancelled, started, step.op, step.handle);
    } else {
      SendKeepsHandles(l, m, cancelled, step);
      if started && l.handles == {} && !m.terminalSent {
        var o :| o in l.ops && LastDrop(l.ops[o]);
        LastDropStays(l, m, cancelled, step, o);
      }
    }
  }

  /** A step moves its own operation alone. */
  lemma OthersStay(l: Lease, m: Lease, cancelled: bool, step: Step, o: Id)
    requires SenderStep(step) && LeaseStep(l, m, cancelled, step) && o in m.ops && o != step.op
    ensures o in l.ops && m.ops[o] == l.ops[o]
  {
  }

  lemma OwnKind(l: Lease, m: Lease, cancelled: bool, step: Step)
    requires SenderStep(step) && !step.BeginDrop? && !step.BeginSend? && LeaseStep(l, m, cancelled, step)
    ensures step.op in m.ops && step.op in l.ops
    ensures UnderDrop(m.ops[step.op]) ==> UnderDrop(l.ops[step.op])
    ensures Sending(m.ops[step.op]) ==> Sending(l.ops[step.op]) && l.ops[step.op].handle == m.ops[step.op].handle
  {
    hide Borrowed, Terminal;
    var o, n := l.ops[step.op], m.ops[step.op];
    match step {
      case CheckOnce(_) => assert n.Finished? || n == SecondCheck(o.handle, o.frame, o.late);
      case CheckTwice(_) =>
      case Acquire(_) =>
      case TestAndSet(_) =>
      case Choose(_) =>
      case Push(_) =>
    }
  }

  /** No step but the start of a drop brings a last drop into being, or a send on another sender. */
  lemma SameDrops(l: Lease, m: Lease, cancelled: bool, step: Step, o: Id)
    requires SenderStep(step) && LeaseStep(l, m, cancelled, step) && o in m.ops
    ensures UnderDrop(m.ops[o]) && !(step.BeginDrop? && o == step.op) ==> o in l.ops && UnderDrop(l.ops[o])
    ensures Sending(m.ops[o]) && !step.BeginSend? ==>
            o in l.ops && Sending(l.ops[o]) && l.ops[o].handle == m.ops[o].handle
  {
    if o != step.op {
      OthersStay(l, m, cancelled, step, o);
    } else if !step.BeginDrop? && !step.BeginSend? {
      OwnKind(l, m, cancelled, step);
    }
  }

  /** A drop is the last one exactly when it leaves no sender. */
  lemma DropIsLast(l: Lease, m: Lease, cancelled: bool, op: Id, handle: Id)
    requires l.live == |l.handles| && LeaseStep(l, m, cancelled, BeginDrop(op, handle))
    ensures UnderDrop(m.ops[op]) <==> l.handles == {handle}
    ensures UnderDrop(m.ops[op]) || m.ops[op].Finished?
    ensures m.handles == l.handles - {handle} && (UnderDrop(m.ops[op]) <==> m.handles == {})
  {
    assert |m.handles| == |l.handles| - 1;
    if l.live == 1 {
      assert m.handles == {};
      assert l.handles == m.handles + {handle};
    }
  }

  lemma DropInvKept(l: Lease, m: Lease, cancelled: bool, step: Step)
    requires DropInv(l) && l.live == |l.handles| && SenderStep(step) && LeaseStep(l, m, cancelled, step)
    requires step.BeginSend? ==> step.handle != STARTER
    ensures DropInv(m)
  {
    HandlesShrink(l, m, cancelled, step);
    forall o | o in m.ops
      ensures UnderDrop(m.ops[o]) && !(step.BeginDrop? && o == step.op) ==> o in l.ops && UnderDrop(l.ops[o])
      ensures Sending(m.ops[o]) ==> m.ops[o].handle != STARTER
    {
      SameDrops(l, m, cancelled, step, o);
      if step.BeginSend? && o != step.op {
        assert m.ops[o] == l.ops[o];
      }
    }
    if step.BeginDrop? {
      DropIsLast(l, m, cancelled, step.op, step.handle);
      assert step.handle in l.handles;
    }
    hide LeaseStep, UnderDrop, Sending;
  }

  /** A step of the starter's drop leaves it a drop that is under way or finished. */
  lemma DropGoesOn(l: Lease, m: Lease, cancelled: bool, step: Step, op: Id)
    requires SenderStep(step) && LeaseStep(l, m, cancelled, step)
    requires op in l.ops && (l.ops[op].Finished? || UnderDrop(l.ops[op]))
    ensures op in m.ops && (m.ops[op].Finished? || UnderDrop(m.ops[op]))
    ensures l.ops[op].Finished? ==> m.ops[op] == l.ops[op]
  {
  }

  lemma HandlesShrink(l: Lease, m: Lease, cancelled: bool, step: Step)
    requires SenderStep(step) && LeaseStep(l, m, cancelled, step)
    ensures m.handles == if step.BeginDrop? then l.handles - {step.handle} else l.handles
  {
  }

  lemma ConvKept(s: State, t: State, step: Step)
    requires ConvInv(s) && SenderStep(step) && NextStep(s, t, step)
    ensures ConvInv(t)
  {
    HandlesShrink(s.lease, t.lease, s.cancelled, step);
    if s.conv.Dropping? {
      DropGoesOn(s.lease, t.lease, s.cancelled, step, s.conv.op);
    }
    hide LeaseStep, UnderDrop;
  }

  lemma CancelKept(l: Lease, m: Lease, log: seq<Entry>, cancelled: bool, step: Step)
    requires CancelInv(l, log, cancelled) && SenderStep(step) && LeaseStep(l, m, cancelled, step)
    ensures CancelInv(m, log, cancelled)
    ensures step.Push? ==> CancelInv(m, log + [PushedEntry(l, step.op)], cancelled)
  {
    assert LateOk(m.ops[step.op], cancelled);
  }

  /** After the terminal frame was taken nothing is queued. */
  lemma DrainedIsEmpty(b: Inbox, log: seq<Entry>)
    requires OneTerminal(log) && QueueInv(b, log) && b.drained
    ensures b.queue == [] && Closed(log)
  {
    var k := |b.popped| - 1;
    assert Frames(log)[k] == b.popped[k];
    assert log[k].frame == b.popped[k];
  }

  lemma PushKeepsQueue(b: Inbox, log: seq<Entry>, entry: Entry)
    requires OneTerminal(log) && QueueInv(b, log) && !Closed(log)
    ensures QueueInv(Enqueued(b, entry.frame), log + [entry])
  {
    if b.drained {
      DrainedIsEmpty(b, log);
    }
    assert Frames(log + [entry]) == Frames(log) + [entry.frame];
    assert b.popped + (b.queue + [entry.frame]) == (b.popped + b.queue) + [entry.frame];
  }

  lemma PopKeepsQueue(b: Inbox, log: seq<Entry>)
    requires OneTerminal(log) && QueueInv(b, log) && b.queue != []
    ensures QueueInv(Popped(b), log)
  {
    if b.drained {
      DrainedIsEmpty(b, log);
    }
    assert b.popped + b.queue == Popped(b).popped + Popped(b).queue;
  }

  lemma ReceiveKeepsQueue(b: Inbox, log: seq<Entry>, id: Id)
    requires OneTerminal(log) && QueueInv(b, log) && HandedInv(b)
    ensures QueueInv(Received(b, id), log) && HandedInv(Received(b, id))
  {
    if b.queue != [] {
      PopKeepsQueue(b, log);
      if b.drained {
        DrainedIsEmpty(b, log);
      }
      assert Received(b, id).handed == b.handed + [b.queue[0]];
    }
  }

  lemma SenderStepInv(s: State, t: State, step: Step)
    requires Inv(s) && SenderStep(step) && NextStep(s, t, step)
    ensures Inv(t)
  {
    ConvKept(s, t, step);
    hide LeaseStep, LockInv, TerminalInv, HandleInv, DropInv, ConvInv, CancelInv, QueueInv, Enqueued;
    LeaseKept(s.lease, t.lease, s.log, s.cancelled, s.started, step);
    SenderNeedsStart(s, t, step);
    if step.Push? {
      TerminalPushed(s.lease, t.lease, s.log, s.cancelled, step.op);
      PushIsOpen(s.lease, t.lease, s.log, s.cancelled, step.op);
      PushKeepsQueue(s.inbox, s.log, PushedEntry(s.lease, step.op));
    } else {
      TerminalKept(s.lease, t.lease, s.log, s.cancelled, step);
    }
  }

  /** What a step keeps of the lease, whoever takes it. */
  lemma LeaseKept(l: Lease, m: Lease, log: seq<Entry>, cancelled: bool, started: bool, step: Step)
    requires SenderStep(step) && LeaseStep(l, m, cancelled, step) && (step.BeginSend? ==> step.handle != STARTER)
    requires LockInv(l) && HandleInv(l, started) && DropInv(l) && CancelInv(l, log, cancelled)
    ensures LockInv(m) && HandleInv(m, started) && DropInv(m) && CancelInv(m, log, cancelled)
    ensures step.Push? ==> CancelInv(m, log + [PushedEntry(l, step.op)], cancelled)
  {
    LockKept(l, m, cancelled, step);
    HandleKept(l, m, cancelled, started, step);
    DropInvKept(l, m, cancelled, step);
    CancelKept(l, m, log, cancelled, step);
  }

  /** Whoever is about to push finds the log still open. */
  lemma PushIsOpen(l: Lease, m: Lease, log: seq<Entry>, cancelled: bool, op: Id)
    requires TerminalInv(l, log) && LeaseStep(l, m, cancelled, Push(op))
    ensures OneTerminal(log) && !Closed(log)
    ensures op in l.ops && (l.ops[op].Pushing? || l.ops[op].DropPushing?)
  {
  }

  lemma SenderNeedsStart(s: State, t: State, step: Step)
    requires StartInv(s) && SenderStep(step) && LeaseStep(s.lease, t.lease, s.cancelled, step)
    ensures s.started
  {
  }

  lemma OutsideStepInv(s: State, t: State, step: Step)
    requires Inv(s) && !SenderStep(step) && NextStep(s, t, step)
    ensures Inv(t)
  {
    match step {
      case CloneHandle(handle, copy) => CloneKeeps(s.lease, t.lease, s.log, s.started, handle, copy);
      case BeginReceive(id) =>
        if s.started {
          ReceiveKeeps(s, t, id);
        } else {
          FirstDispatch(s, t, id);
        }
      case StarterDrop(op) => StarterDropKeeps(s, t, op);
      case StarterReturn => ReceiveKeeps(s, t, s.conv.receiver);
      case Resume(id) => ReceiveKeeps(s, t, id);
      case Poll => PollKeepsQueue(s.inbox, s.log);
      case _ => QuietStep(s, t, step);
    }
  }

  lemma QuietStep(s: State, t: State, step: Step)
    requires Inv(s) && NextStep(s, t, step)
    requires step.CancelByHost? || step.CancelByReceiver? || step.SpuriousWake?
    ensures Inv(t)
  {
    hide LockInv, TerminalInv, HandleInv, DropInv;
  }

  /** Waiting for a frame or taking one, by a receiver that holds the conversation lock. */
  lemma ReceiveKeeps(s: State, t: State, id: Id)
    requires Inv(s) && s.started && (s.conv.Free? || (s.conv.Dropping? && s.conv.receiver == id))
    requires t == s.(conv := Free, inbox := Received(s.inbox, id))
    ensures Inv(t)
  {
    hide LockInv, HandleInv, CancelInv, DropInv;
    ReceiveKeepsQueue(s.inbox, s.log, id);
    hide TerminalInv, QueueInv;
    assert t.inbox.receivers == s.inbox.receivers[id := t.inbox.receivers[id]];
  }

  lemma StarterDropKeeps(s: State, t: State, op: Id)
    requires Inv(s) && NextStep(s, t, StarterDrop(op))
    ensures Inv(t)
  {
    hide LockInv, TerminalInv, HandleInv, DropInv, CancelInv, QueueInv;
    var step := BeginDrop(op, STARTER);
    LeaseKept(s.lease, t.lease, s.log, s.cancelled, s.started, step);
    TerminalKept(s.lease, t.lease, s.log, s.cancelled, step);
    HandlesShrink(s.lease, t.lease, s.cancelled, step);
  }

  lemma CloneKeeps(l: Lease, m: Lease, log: seq<Entry>, started: bool, handle: Id, copy: Id)
    requires LockInv(l) && TerminalInv(l, log) && HandleInv(l, started) && DropInv(l)
    requires handle in l.handles && copy !in l.handles
    requires m == l.(handles := l.handles + {copy}, live := l.live + 1)
    ensures LockInv(m) && TerminalInv(m, log) && HandleInv(m, started) && DropInv(m)
  {
    assert |m.handles| == |l.handles| + 1;
    assert copy in m.handles;
  }

  lemma FirstDispatch(s: State, t: State, id: Id)
    requires Inv(s) && !s.started && t == Dispatched(s, id)
    ensures Inv(t)
  {
    assert Frames([]) == [];
    assert s.inbox.popped == [] && s.inbox.queue == [];
    assert STARTER in t.lease.handles;
  }

  lemma PollKeepsQueue(b: Inbox, log: seq<Entry>)
    requires OneTerminal(log) && QueueInv(b, log) && HandedInv(b)
    ensures QueueInv(PolledOnce(b), log) && HandedInv(PolledOnce(b))
  {
    if !b.drained && b.queue != [] {
      PopKeepsQueue(b, log);
    }
  }

  lemma StepInv(s: State, t: State, step: Step)
    requires Inv(s) && NextStep(s, t, step)
    ensures Inv(t)
  {
    if SenderStep(step) {
      SenderStepInv(s, t, step);
    } else {
      OutsideStepInv(s, t, step);
    }
  }
}
