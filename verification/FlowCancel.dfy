/** A worker whose flow was switched off by a handler is told so: `flow.stopped` is cancelled,
    or a handler is on its way to cancel it (src/server.rs:817-820). Otherwise a worker
    without timeout would keep its slot and its permit until the association is closed. */
module FlowCancel {
  import opened Wrappers
  import opened FlowModel
  import opened FlowFrame
  import opened FlowInvariant
  import opened FlowSafety

  /** Handler `h` is between winning the swap and cancelling. */
  predicate Canceller(st: State, s: SlotId, h: HandlerId) {
    h in st.handlers && (st.handlers[h].pc == Advance(s) || st.handlers[h].pc == Cancel(s))
  }

  /** The worker has not come to its own swap yet. */
  predicate BeforeSwap(pc: WPc) {
    !pc.WAdvance? && !pc.WRemove? && !pc.WLeave?
  }

  ghost predicate WorkerHeard(st: State, s: SlotId) {
    s in st.workers && s in st.slots && st.slots[s].flow.Some? ==>
      || st.slots[s].flow.value.active
      || st.slots[s].flow.value.stopped
      || !BeforeSwap(st.workers[s].pc)
      || exists h :: Canceller(st, s, h)
  }

  ghost predicate Heard(st: State) {
    forall s {:trigger WorkerHeard(st, s)} :: WorkerHeard(st, s)
  }

  /** Who wins the swap goes on to cancel, past the advance. */
  lemma WinnerCancels(st: State, h: HandlerId, c: Choice, s: SlotId)
    requires HandlerReady(st, h) && HandlerEnabled(st, h, c)
    requires st.handlers[h].pc == Advance(s) || (st.handlers[h].pc == Swap(s) && Active(st, s))
    ensures Canceller(HandlerStep(st, h, c), s, h)
  {}

  lemma HandlerHeard(st: State, h: HandlerId, c: Choice, st': State, s: SlotId)
    requires Inv(st) && HandlerReady(st, h) && HandlerFrame(st, h, c, st') && WorkerHeard(st, s)
    requires st.handlers[h].pc == Advance(s) || (st.handlers[h].pc == Swap(s) && Active(st, s)) ==> Canceller(st', s, h)
    ensures WorkerHeard(st', s)
  {
    var pc := st.handlers[h].pc;
    if SlotOf(pc).Some? { HandlerKnows(st, h); }
    if s in st.workers {
      assert WorkerOk(st, s);
      if k :| Canceller(st, s, k) && !(k == h && pc == Cancel(s)) { assert Canceller(st', s, k); }
    }
  }

  lemma WorkHeard(st: State, r: SlotId, st': State, s: SlotId)
    requires WorkerReady(st, r) && WorkerFrame(st, r, st') && WorkerHeard(st, s)
    requires r == s && s in st'.workers && st.workers[s].pc.WSwap? ==> !BeforeSwap(st'.workers[s].pc)
    requires r == s && s in st'.workers && !BeforeSwap(st.workers[s].pc) ==> !BeforeSwap(st'.workers[s].pc)
    ensures WorkerHeard(st', s)
  {
    if k :| Canceller(st, s, k) { assert Canceller(st', s, k); }
  }

  /** A worker that comes to its swap or has come to it never goes back. */
  lemma SwapIsFinal(st: State, s: SlotId, c: Choice)
    requires WorkerReady(st, s) && WorkerEnabled(st, s, c) && s in WorkerStep(st, s, c).workers
    requires st.workers[s].pc.WSwap? || !BeforeSwap(st.workers[s].pc)
    ensures !BeforeSwap(WorkerStep(st, s, c).workers[s].pc)
  {}

  lemma StepKeepsHeard(st: State, ev: Event, st': State)
    requires Inv(st) && StepOf(st, ev, st') && Heard(st)
    ensures Heard(st')
  {
    StepFrames(st, ev, st');
    forall s ensures WorkerHeard(st', s) {
      assert WorkerHeard(st, s);
      match ev
      case Handle(h, c) =>
        if st.handlers[h].pc == Advance(s) || (st.handlers[h].pc == Swap(s) && Active(st, s)) {
          WinnerCancels(st, h, c, s);
        }
        HandlerHeard(st, h, c, st', s);
      case Work(r, c) =>
        if r == s && s in st'.workers && (st.workers[s].pc.WSwap? || !BeforeSwap(st.workers[s].pc)) {
          SwapIsFinal(st, s, c);
        }
        WorkHeard(st, r, st', s);
      case _ =>
        if k :| Canceller(st, s, k) { assert Canceller(st', s, k); }
    }
  }

  lemma StepInRun(r: Run, i: nat)
    requires IsRun(r) && i < |r.events| && Inv(r.states[i]) && Heard(r.states[i])
    ensures Heard(r.states[i + 1])
  {
    assert Follows(r, i);
    StepKeepsHeard(r.states[i], r.events[i], r.states[i + 1]);
  }

  lemma NothingToHear(st: State)
    requires st.workers == map[]
    ensures Heard(st)
  {}

  lemma {:induction false} RunKeepsHeard(r: Run, i: nat)
    requires IsRun(r) && i < |r.states|
    ensures Heard(r.states[i])
  {
    if i == 0 {
      NothingToHear(r.states[0]);
    } else {
      RunKeepsHeard(r, i - 1);
      RunKeepsInv(r, i - 1);
      StepInRun(r, i - 1);
    }
  }

  /** The cancelled token can end the worker's wait. */
  ghost predicate CanStop(st: State, s: SlotId) {
    && WorkerReady(st, s) && st.workers[s].pc == WSelect
    && exists c: Choice :: && c.wake.FlowStopped? && WorkerEnabled(st, s, c)
                           && WorkerStep(st, s, c).workers[s].pc == WSwap
  }

  /** In every run a worker that waits on the socket of a flow that is no longer active can
      stop waiting and go on to its end, unless a handler is still about to tell it. */
  lemma RetiredWorkerCanStop(r: Run, i: nat, s: SlotId)
    requires IsRun(r) && i < |r.states|
    requires s in r.states[i].workers && r.states[i].workers[s].pc == WSelect && !Active(r.states[i], s)
    requires forall h :: !Canceller(r.states[i], s, h)
    ensures CanStop(r.states[i], s)
  {
    var st := r.states[i];
    RunKeepsInv(r, i);
    RunKeepsHeard(r, i);
    WorkerKnows(st, s);
    TasksAreReady(st);
    assert WorkerHeard(st, s);
    var c := Choice(0, false, 0, st.slots[s].target, FlowStopped);
    assert WorkerEnabled(st, s, c) && WorkerStep(st, s, c).workers[s].pc == WSwap;
  }

  /** With no handler left, every worker that may wait for ever has an active flow, and so is
      the one worker of its target. */
  lemma LingeringWorkerIsActive(r: Run, i: nat, s: SlotId)
    requires IsRun(r) && i < |r.states| && r.states[i].handlers == map[]
    requires s in r.states[i].workers && r.states[i].workers[s].pc == WSelect
    ensures Active(r.states[i], s) || CanStop(r.states[i], s)
    ensures Active(r.states[i], s)
            ==> InFlows(r.states[i], r.states[i].slots[s].assoc, r.states[i].slots[s].target, s)
  {
    RunKeepsInv(r, i);
    TasksAreReady(r.states[i]);
    OneActiveFlow(r, i);
    if !Active(r.states[i], s) { RetiredWorkerCanStop(r, i, s); }
  }
}
