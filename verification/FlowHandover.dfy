/** What a flow that ends badly leaves to the next flow of its target (src/server.rs:817-819,
    847-900): a worker fails by a failed receive or by expiring without ever having had a reply;
    then the target's preferred address is advanced, by the worker or by a handler; and the
    next flow starts one address later if it looks after that. */
module FlowHandover {
  import opened Wrappers
  import opened Net
  import opened FlowModel
  import opened FlowFrame
  import opened FlowInvariant
  import opened FlowSafety
  import opened FlowAdvance
  import opened FlowCancel

  // ---- Why a worker has failed ----

  /** The worker of `s` receives a datagram for a live association (lines 877-882). */
  predicate TakesReply(st: State, ev: Event, s: SlotId) {
    && ev.Work? && ev.s == s && WorkerReady(st, s)
    && st.workers[s].pc.WReceived? && st.assocs[st.slots[s].assoc].alive
  }

  /** A step goes on counting the replies of the worker of `s`, as long as it lives. */
  function CountReply(st: State, ev: Event, st': State, s: SlotId, replies: nat): nat {
    if s !in st.workers || s !in st'.workers then 0
    else replies + (if TakesReply(st, ev, s) then 1 else 0)
  }

  /** How many replies the worker of `s` has received since it was spawned. */
  ghost function Replies(r: Run, i: nat, s: SlotId): nat
    requires IsRun(r) && i < |r.states|
  {
    if i == 0 then 0 else CountReply(r.states[i - 1], r.events[i - 1], r.states[i], s, Replies(r, i - 1, s))
  }

  /** The deadline has passed (lines 855-858). */
  predicate Expires(st: State, ev: Event, s: SlotId) {
    ev.Work? && ev.s == s && s in st.workers && st.workers[s].pc.WDeadline? && ev.c.ok
  }

  /** The socket reports an error (lines 891-894). */
  predicate ReceiveFails(st: State, ev: Event, s: SlotId) {
    ev.Work? && ev.s == s && s in st.workers && st.workers[s].pc.WSelect? && ev.c.wake == Received(false)
  }

  /** At event `e` worker `s` fails: it cannot receive, or it expires without any reply. */
  ghost predicate Fails(r: Run, e: nat, s: SlotId)
    requires IsRun(r) && e < |r.events|
  {
    ReceiveFails(r.states[e], r.events[e], s) || (Expires(r.states[e], r.events[e], s) && Replies(r, e, s) == 0)
  }

  /** The worker has left its loop. */
  predicate AtEnd(pc: WPc) {
    pc.WSwap? || pc.WAdvance? || pc.WRemove? || pc.WLeave?
  }

  /** What the record of a worker says about its past. */
  predicate RecordFits(w: Worker, replies: nat) {
    && (w.received <==> replies > 0)
    && (w.failed ==> AtEnd(w.pc))
    && (w.pc.WAdvance? ==> w.failed)
  }

  lemma WorkerRecord(st: State, s: SlotId, c: Choice, replies: nat)
    requires WorkerReady(st, s) && WorkerEnabled(st, s, c) && RecordFits(st.workers[s], replies)
    requires s in WorkerStep(st, s, c).workers
    ensures RecordFits(WorkerStep(st, s, c).workers[s], replies + (if TakesReply(st, Work(s, c), s) then 1 else 0))
    ensures WorkerStep(st, s, c).workers[s].failed <==>
      || st.workers[s].failed
      || ReceiveFails(st, Work(s, c), s)
      || (Expires(st, Work(s, c), s) && replies == 0)
  {}

  /** What the record of the worker of `s`, if there is one, says about its past. */
  predicate RecordOk(st: State, s: SlotId, replies: nat) {
    s in st.workers ==> RecordFits(st.workers[s], replies)
  }

  /** One step of any task: the record of worker `s` stays in accord with its past. */
  lemma StepRecord(st: State, ev: Event, st': State, s: SlotId, replies: nat)
    requires Inv(st) && StepOf(st, ev, st') && RecordOk(st, s, replies)
    ensures RecordOk(st', s, CountReply(st, ev, st', s, replies))
    ensures s in st'.workers ==>
      (st'.workers[s].failed <==>
         && s in st.workers
         && (st.workers[s].failed || ReceiveFails(st, ev, s) || (Expires(st, ev, s) && replies == 0)))
  {
    StepFrames(st, ev, st');
    match ev
    case Work(r, c) => if r == s && s in st'.workers { WorkerRecord(st, s, c, replies); }
    case Handle(h, _) => if s in st.workers { WorkerKnows(st, s); if SlotOf(st.handlers[h].pc).Some? { HandlerKnows(st, h); } }
    case _ =>
  }

  lemma RunRecord(r: Run, m: nat, s: SlotId)
    requires IsRun(r) && m < |r.events| && RecordOk(r.states[m], s, Replies(r, m, s))
    ensures RecordOk(r.states[m + 1], s, Replies(r, m + 1, s))
    ensures s in r.states[m + 1].workers ==>
      (r.states[m + 1].workers[s].failed <==>
         s in r.states[m].workers && (r.states[m].workers[s].failed || Fails(r, m, s)))
  {
    assert Follows(r, m);
    RunKeepsInv(r, m);
    StepRecord(r.states[m], r.events[m], r.states[m + 1], s, Replies(r, m, s));
  }

  /** In every run: a worker's `received` tells whether it has had a reply, a worker that has
      failed is out of its loop, and one that is about to advance has failed. */
  lemma RecordsFit(r: Run, i: nat, s: SlotId)
    requires IsRun(r) && i < |r.states|
    ensures RecordOk(r.states[i], s, Replies(r, i, s))
  {
    var m := 0;
    while m < i
      invariant m <= i && RecordOk(r.states[m], s, Replies(r, m, s))
    {
      RunRecord(r, m, s);
      m := m + 1;
    }
  }

  /** A worker comes to have failed at the very events at which it fails. */
  lemma FailedAfter(r: Run, m: nat, s: SlotId)
    requires IsRun(r) && m < |r.events| && s in r.states[m + 1].workers
    ensures r.states[m + 1].workers[s].failed <==>
      s in r.states[m].workers && (r.states[m].workers[s].failed || Fails(r, m, s))
  {
    RecordsFit(r, m, s);
    RunRecord(r, m, s);
  }

  /** Worker `s` is the same from state `e` to state `i`. */
  ghost predicate Lives(r: Run, e: nat, i: nat, s: SlotId)
    requires i < |r.states|
  {
    forall m :: e <= m <= i ==> s in r.states[m].workers
  }

  /** A worker that has failed did so at some event since it was spawned, */
  lemma {:induction false} FailedHasCause(r: Run, i: nat, s: SlotId) returns (e: nat)
    requires IsRun(r) && i < |r.states| && s in r.states[i].workers && r.states[i].workers[s].failed
    ensures e < i && Fails(r, e, s) && Lives(r, e, i, s)
  {
    assert i > 0;
    FailedAfter(r, i - 1, s);
    if r.states[i - 1].workers[s].failed {
      e := FailedHasCause(r, i - 1, s);
    } else {
      e := i - 1;
    }
  }

  /** and from such an event on it has failed, is out of its loop and stays so. */
  lemma CauseMakesFailed(r: Run, e: nat, i: nat, s: SlotId)
    requires IsRun(r) && e < i < |r.states| && Fails(r, e, s) && Lives(r, e, i, s)
    ensures r.states[i].workers[s].failed && AtEnd(r.states[i].workers[s].pc)
  {
    FailedAfter(r, e, s);
    var m := e + 1;
    while m < i
      invariant e < m <= i && r.states[m].workers[s].failed
    {
      FailedAfter(r, m, s);
      m := m + 1;
    }
    RecordsFit(r, i, s);
  }

  // ---- Somebody advances ----

  /** The flow of `s` has moved the preferred address, or a task is about to. */
  ghost predicate AdvancedOrAbout(st: State, s: SlotId, advances: nat) {
    advances > 0 || exists w :: Advancer(st, s, w)
  }

  /** A flow that was switched off before its worker came to the swap was switched off by a
      handler, which advances. */
  ghost predicate HandlerAdvances(st: State, s: SlotId, advances: nat) {
    s in st.workers && BeforeSwap(st.workers[s].pc) && Spent(st, s) ==> AdvancedOrAbout(st, s, advances)
  }

  /** The worker has failed and is about to win the swap. */
  predicate WillWin(st: State, s: SlotId) {
    s in st.workers && st.workers[s].pc.WSwap? && st.workers[s].failed && Active(st, s)
  }

  /** The advance is done, or somebody is bound to do it. */
  ghost predicate Owed(st: State, s: SlotId, advances: nat) {
    AdvancedOrAbout(st, s, advances) || WillWin(st, s)
  }

  /** A slot that has a worker gets no other. */
  lemma NoSecondSpawn(st: State, ev: Event, s: SlotId)
    requires Inv(st) && Enabled(st, ev) && s in st.workers
    ensures ev.Handle? ==> !(st.handlers[ev.h].pc.Spawn? && st.handlers[ev.h].pc.s == s)
  {
    WorkerKnows(st, s);
    if ev.Handle? && SlotOf(st.handlers[ev.h].pc).Some? { HandlerKnows(st, ev.h); }
  }

  /** An advancer that does not advance in this step stays one. */
  lemma AdvancerStays(st: State, ev: Event, st': State, s: SlotId, w: Holder)
    requires Inv(st) && StepOf(st, ev, st') && Advancer(st, s, w) && !IsAdvance(st, ev, s)
    ensures Advancer(st', s, w)
  {
    StepFrames(st, ev, st');
    if s in st.workers { NoSecondSpawn(st, ev, s); }
  }

  lemma HandlerSwaps(st: State, h: HandlerId, c: Choice, s: SlotId)
    requires HandlerReady(st, h) && HandlerEnabled(st, h, c) && st.handlers[h].pc == Swap(s) && Active(st, s)
    ensures Advancer(HandlerStep(st, h, c), s, ByHandler(h))
  {}

  lemma WorkerSwaps(st: State, s: SlotId, c: Choice)
    requires WorkerReady(st, s) && WorkerEnabled(st, s, c) && st.workers[s].pc.WSwap? && Active(st, s)
    ensures s in WorkerStep(st, s, c).workers
    ensures WorkerStep(st, s, c).workers[s].pc == if st.workers[s].failed then WAdvance else WRemove
  {}

  /** Whoever switches a flow off goes on to advance, unless it is a worker that has not failed. */
  lemma SwitchedOffBy(st: State, ev: Event, st': State, s: SlotId)
    requires StepOf(st, ev, st') && Active(st, s) && Spent(st', s)
    ensures Advancer(st', s, Actor(ev)) || (ev.Work? && !WillWin(st, s))
    ensures ev.Work? ==> ev.s == s && s in st'.workers && !BeforeSwap(st'.workers[s].pc)
  {
    StepFrames(st, ev, st');
    match ev
    case Handle(h, c) => HandlerSwaps(st, h, c, s);
    case Work(_, c) => WorkerSwaps(st, s, c);
    case _ =>
  }

  /** One step: what was done stays done, and who was about to advance does or still is. */
  lemma StepAdvances(st: State, ev: Event, st': State, s: SlotId, advances: nat)
    requires Inv(st) && StepOf(st, ev, st') && AdvancedOrAbout(st, s, advances)
    ensures AdvancedOrAbout(st', s, advances + (if IsAdvance(st, ev, s) then 1 else 0))
  {
    if advances == 0 && !IsAdvance(st, ev, s) {
      var w :| Advancer(st, s, w);
      AdvancerStays(st, ev, st', s, w);
    }
  }

  /** A worker that is before its swap, with its flow off, has been so or had it active. */
  lemma OldWorkerBeforeSwap(st: State, ev: Event, st': State, s: SlotId)
    requires Inv(st) && StepOf(st, ev, st')
    requires s in st'.workers && BeforeSwap(st'.workers[s].pc) && Spent(st', s)
    ensures s in st.workers && BeforeSwap(st.workers[s].pc) && (Active(st, s) || Spent(st, s))
  {
    StepFrames(st, ev, st');
    if s in st.workers {
      WorkerKnows(st, s);
      if ev.Work? && ev.s == s && !BeforeSwap(st.workers[s].pc) { SwapIsFinal(st, s, ev.c); }
    }
    if ev.Handle? && SlotOf(st.handlers[ev.h].pc).Some? { HandlerKnows(st, ev.h); }
  }

  lemma StepKeepsHandlerAdvances(st: State, ev: Event, st': State, s: SlotId, advances: nat)
    requires Inv(st) && StepOf(st, ev, st') && HandlerAdvances(st, s, advances)
    ensures HandlerAdvances(st', s, CountAdvance(st, ev, st', s, advances))
  {
    if s in st'.workers && BeforeSwap(st'.workers[s].pc) && Spent(st', s) {
      StepOfKeepsInv(st, ev, st');
      WorkerKnows(st', s);
      OldWorkerBeforeSwap(st, ev, st', s);
      if Active(st, s) {
        SwitchedOffBy(st, ev, st', s);
      } else {
        StepAdvances(st, ev, st', s, advances);
      }
    }
  }

  lemma RunHandlerAdvances(r: Run, m: nat, s: SlotId)
    requires IsRun(r) && m < |r.events| && HandlerAdvances(r.states[m], s, Advances(r, m, s))
    ensures HandlerAdvances(r.states[m + 1], s, Advances(r, m + 1, s))
  {
    assert Follows(r, m);
    RunKeepsInv(r, m);
    StepKeepsHandlerAdvances(r.states[m], r.events[m], r.states[m + 1], s, Advances(r, m, s));
  }

  lemma HandlersAdvance(r: Run, i: nat, s: SlotId)
    requires IsRun(r) && i < |r.states|
    ensures HandlerAdvances(r.states[i], s, Advances(r, i, s))
  {
    var m := 0;
    while m < i
      invariant m <= i && HandlerAdvances(r.states[m], s, Advances(r, m, s))
    {
      RunHandlerAdvances(r, m, s);
      m := m + 1;
    }
  }

  /** A flow keeps its address, and its slot its place, for as long as the slot exists. */
  lemma FlowStays(st: State, ev: Event, st': State, s: SlotId)
    requires Inv(st) && StepOf(st, ev, st') && s in st.slots && s in st'.slots && st.slots[s].flow.Some?
    ensures st'.slots[s].flow.Some? && SlotFrame(st.slots[s], st'.slots[s], st'.slots[s].flow)
    ensures st'.slots[s].flow.value.index == st.slots[s].flow.value.index
    ensures st'.slots[s].flow.value.count == st.slots[s].flow.value.count
  {
    StepFrames(st, ev, st');
    if ev.Handle? && SlotOf(st.handlers[ev.h].pc).Some? { HandlerKnows(st, ev.h); }
  }

  lemma StepOwes(st: State, ev: Event, st': State, s: SlotId, advances: nat)
    requires Inv(st) && StepOf(st, ev, st') && s in st.slots && s in st'.slots && Owed(st, s, advances)
    ensures Owed(st', s, CountAdvance(st, ev, st', s, advances))
  {
    if AdvancedOrAbout(st, s, advances) {
      StepAdvances(st, ev, st', s, advances);
    } else if Active(st', s) {
      StepFrames(st, ev, st');
      NoSecondSpawn(st, ev, s);
    } else {
      FlowStays(st, ev, st', s);
      SwitchedOffBy(st, ev, st', s);
    }
  }

  /** Slot `s` exists from state `e` to state `k`. */
  ghost predicate Exists(r: Run, e: nat, k: nat, s: SlotId)
    requires k < |r.states|
  {
    forall m :: e <= m <= k ==> s in r.states[m].slots
  }

  lemma RunOwes(r: Run, m: nat, s: SlotId)
    requires IsRun(r) && m < |r.events| && s in r.states[m].slots && s in r.states[m + 1].slots
    requires Owed(r.states[m], s, Advances(r, m, s))
    ensures Owed(r.states[m + 1], s, Advances(r, m + 1, s))
  {
    assert Follows(r, m);
    RunKeepsInv(r, m);
    StepOwes(r.states[m], r.events[m], r.states[m + 1], s, Advances(r, m, s));
  }

  lemma FailingGoesToSwap(st: State, ev: Event, st': State, s: SlotId)
    requires StepOf(st, ev, st') && (ReceiveFails(st, ev, s) || Expires(st, ev, s))
    ensures s in st'.workers && st'.workers[s].pc.WSwap?
  {}

  lemma FailureOwes(r: Run, e: nat, s: SlotId)
    requires IsRun(r) && e < |r.events| && Fails(r, e, s)
    ensures s in r.states[e + 1].workers && Owed(r.states[e + 1], s, Advances(r, e + 1, s))
  {
    RunKeepsInv(r, e + 1);
    HandlersAdvance(r, e + 1, s);
    assert Follows(r, e);
    FailingGoesToSwap(r.states[e], r.events[e], r.states[e + 1], s);
    FailedAfter(r, e, s);
    WorkerKnows(r.states[e + 1], s);
  }

  /** From the event at which a worker fails until its slot is gone, the advance is owed or
      done, whoever wins the swap. */
  lemma FailureAdvances(r: Run, e: nat, k: nat, s: SlotId)
    requires IsRun(r) && e < k < |r.states| && Fails(r, e, s) && Exists(r, e, k, s)
    ensures Owed(r.states[k], s, Advances(r, k, s))
  {
    FailureOwes(r, e, s);
    var m := e + 1;
    while m < k
      invariant e < m <= k && Owed(r.states[m], s, Advances(r, m, s))
    {
      RunOwes(r, m, s);
      m := m + 1;
    }
  }

  // ---- When the slot is gone, the advance is done ----

  lemma EndsWhenLeaving(st: State, h: HandlerId, c: Choice, s: SlotId)
    requires HandlerReady(st, h) && HandlerEnabled(st, h, c) && Holds(st, h, s)
    requires !Holds(HandlerStep(st, h, c), h, s)
    ensures st.handlers[h].pc.Leave?
  {}

  lemma EndsWhenDone(st: State, s: SlotId, c: Choice)
    requires WorkerReady(st, s) && WorkerEnabled(st, s, c) && s !in WorkerStep(st, s, c).workers
    ensures st.workers[s].pc.WLeave?
  {}

  /** A slot goes when the last task that holds it lets go of it. */
  lemma ReleasedByLast(st: State, ev: Event, st': State, s: SlotId)
    requires Inv(st) && StepOf(st, ev, st') && s in st.slots && s !in st'.slots
    ensures forall h :: Holds(st, h, s) ==> ev.Handle? && ev.h == h && st.handlers[h].pc.Leave?
    ensures s in st.workers ==> st.workers[s].pc.WLeave?
  {
    StepFrames(st, ev, st');
    StepOfKeepsInv(st, ev, st');
    forall h | Holds(st, h, s) ensures ev.Handle? && ev.h == h && st.handlers[h].pc.Leave? {
      if Holds(st', h, s) { HandlerKnows(st', h); }
      if ev.Handle? && ev.h == h { EndsWhenLeaving(st, h, ev.c, s); }
    }
    if s in st.workers {
      if s in st'.workers { WorkerKnows(st', s); }
      if ev.Work? && ev.s == s { EndsWhenDone(st, s, ev.c); }
    }
  }

  lemma HolderLeaves(st: State, s: SlotId, w: Holder)
    requires Advancer(st, s, w)
    ensures w.ByHandler? ==> Holds(st, w.h, s) && !st.handlers[w.h].pc.Leave?
    ensures !w.ByHandler? ==> s in st.workers && !st.workers[s].pc.WLeave?
  {}

  lemma NobodyOwesAtRelease(st: State, ev: Event, st': State, s: SlotId, advances: nat)
    requires Inv(st) && StepOf(st, ev, st') && s in st.slots && s !in st'.slots
    requires Owed(st, s, advances)
    ensures advances > 0
  {
    ReleasedByLast(st, ev, st', s);
    if w :| Advancer(st, s, w) { HolderLeaves(st, s, w); }
  }

  lemma DoneAtRelease(r: Run, k: nat, s: SlotId, advances: nat)
    requires IsRun(r) && k < |r.events| && s in r.states[k].slots && s !in r.states[k + 1].slots
    requires Owed(r.states[k], s, advances)
    ensures advances > 0
  {
    assert Follows(r, k);
    RunKeepsInv(r, k);
    NobodyOwesAtRelease(r.states[k], r.events[k], r.states[k + 1], s, advances);
  }

  /** The advance that was counted. */
  lemma {:induction false} AdvanceEvent(r: Run, k: nat, s: SlotId) returns (a: nat)
    requires IsRun(r) && k < |r.states| && Advances(r, k, s) > 0
    ensures a < k && Exists(r, a, k, s) && IsAdvance(r.states[a], r.events[a], s)
  {
    assert k > 0;
    a := k - 1;
    if !IsAdvance(r.states[a], r.events[a], s) {
      a := AdvanceEvent(r, k - 1, s);
    }
  }

  /** If a worker fails, then by the time its slot is gone the preferred address of the target
      has been advanced for its flow, exactly once, by it or by a handler. */
  lemma FailedFlowHasAdvanced(r: Run, e: nat, k: nat, s: SlotId) returns (a: nat)
    requires IsRun(r) && e < k < |r.events| && Fails(r, e, s)
    requires Exists(r, e, k, s) && s !in r.states[k + 1].slots
    ensures Advances(r, k, s) == 1
    ensures a < k && Exists(r, a, k, s) && IsAdvance(r.states[a], r.events[a], s)
  {
    FailureAdvances(r, e, k, s);
    AdvancedAtMostOnce(r, k, s);
    DoneAtRelease(r, k, s, Advances(r, k, s));
    a := AdvanceEvent(r, k, s);
  }

  // ---- Where the next flow starts ----

  /** The target's entry in `preferred_addresses`. */
  function Entry(st: State, a: AssocId, t: Target): Option<nat> {
    if a in st.assocs && t in st.assocs[a].preferred then Some(st.assocs[a].preferred[t]) else None
  }

  lemma AdvanceStores(st: State, ev: Event, st': State, s: SlotId)
    requires Inv(st) && StepOf(st, ev, st') && IsAdvance(st, ev, s)
    ensures s in st.slots && st.slots[s].flow.Some?
    ensures var x := st.slots[s];
            x.flow.value.count > 1
            ==> Entry(st', x.assoc, x.target) == Some((x.flow.value.index + 1) % x.flow.value.count)
  {
    match ev
    case Handle(h, c) => HandlerKnows(st, h);
    case Work(_, _) => WorkerKnows(st, s);
    case _ =>
  }

  /** Event `j` is a handler that has resolved the target of slot record `x` to as many addresses
      as its flow was chosen from, and reads the preferred one. */
  ghost predicate ReadsFor(st: State, ev: Event, x: Slot) {
    && ev.Handle? && ev.h in st.handlers && st.handlers[ev.h].pc.ReadPreferred?
    && st.handlers[ev.h].assoc == x.assoc && st.handlers[ev.h].target == x.target
    && x.flow.Some? && st.handlers[ev.h].pc.n == x.flow.value.count
  }

  lemma ReadsEntry(st: State, ev: Event, st': State, x: Slot)
    requires StepOf(st, ev, st') && ReadsFor(st, ev, x)
    ensures ev.h in st'.handlers && st'.handlers[ev.h].pc.Bind?
    ensures var n := x.flow.value.count;
            && n > 0
            && st'.handlers[ev.h].pc ==
                 Bind(st.handlers[ev.h].pc.s, n,
                      match Entry(st, x.assoc, x.target) case Some(i) => i % n case None => 0 % n, 0)
  {}

  lemma FlowStaysInRun(r: Run, m: nat, k: nat, s: SlotId)
    requires IsRun(r) && m <= k < |r.states| && Exists(r, m, k, s) && r.states[m].slots[s].flow.Some?
    ensures var x, y := r.states[m].slots[s], r.states[k].slots[s];
            && y.flow.Some? && y.assoc == x.assoc && y.target == x.target
            && y.flow.value.index == x.flow.value.index && y.flow.value.count == x.flow.value.count
  {
    var i := m;
    while i < k
      invariant m <= i <= k && r.states[i].slots[s].flow.Some?
      invariant r.states[i].slots[s].assoc == r.states[m].slots[s].assoc
      invariant r.states[i].slots[s].target == r.states[m].slots[s].target
      invariant r.states[i].slots[s].flow.value.index == r.states[m].slots[s].flow.value.index
      invariant r.states[i].slots[s].flow.value.count == r.states[m].slots[s].flow.value.count
    {
      assert Follows(r, i);
      RunKeepsInv(r, i);
      FlowStays(r.states[i], r.events[i], r.states[i + 1], s);
      i := i + 1;
    }
  }

  lemma NextIsBelow(index: nat, n: nat)
    requires n > 0
    ensures ((index + 1) % n) % n == (index + 1) % n
    ensures n == 1 ==> (index + 1) % n == 0 && forall i: nat :: i % n == 0
  {}

  /** After an advance for a flow, as long as the entry is as the advance left it, every flow of
      the target with as many addresses starts its scan one address after that flow's. */
  lemma AdvanceMovesStart(r: Run, a: nat, j: nat, s: SlotId)
    requires IsRun(r) && a < j < |r.events| && IsAdvance(r.states[a], r.events[a], s)
    requires s in r.states[a].slots && ReadsFor(r.states[j], r.events[j], r.states[a].slots[s])
    requires var x := r.states[a].slots[s];
             Entry(r.states[j], x.assoc, x.target) == Entry(r.states[a + 1], x.assoc, x.target)
    ensures var f, h := r.states[a].slots[s].flow.value, r.events[j].h;
            && h in r.states[j + 1].handlers && f.count > 0
            && r.states[j + 1].handlers[h].pc == Bind(r.states[j].handlers[h].pc.s, f.count, (f.index + 1) % f.count, 0)
  {
    assert Follows(r, a) && Follows(r, j);
    RunKeepsInv(r, a);
    AdvanceStores(r.states[a], r.events[a], r.states[a + 1], s);
    ReadsEntry(r.states[j], r.events[j], r.states[j + 1], r.states[a].slots[s]);
    NextIsBelow(r.states[a].slots[s].flow.value.index, r.states[a].slots[s].flow.value.count);
  }

  /** The whole story: the worker of slot `s` fails at event `e`, by expiring unanswered or
      because it cannot receive, and event `k` drops the slot. At some event `a` before that the
      preferred address was advanced, and a flow of the target that looks after `a`, finding the
      entry as `a` left it and as many addresses as before, starts one address later. */
  lemma ExpiryAdvancesStart(r: Run, e: nat, k: nat, j: nat, s: SlotId) returns (a: nat)
    requires IsRun(r) && e < k < |r.events| && Fails(r, e, s)
    requires Exists(r, e, k, s) && s !in r.states[k + 1].slots
    ensures a < k && s in r.states[a].slots && IsAdvance(r.states[a], r.events[a], s)
    ensures Advances(r, k, s) == 1
    ensures r.states[e].slots[s].flow.Some?
    ensures var x := r.states[e].slots[s];
            a < j < |r.events| && ReadsFor(r.states[j], r.events[j], x)
            && Entry(r.states[j], x.assoc, x.target) == Entry(r.states[a + 1], x.assoc, x.target)
            ==> && r.events[j].h in r.states[j + 1].handlers && x.flow.value.count > 0
                && r.states[j + 1].handlers[r.events[j].h].pc ==
                     Bind(r.states[j].handlers[r.events[j].h].pc.s, x.flow.value.count,
                          (x.flow.value.index + 1) % x.flow.value.count, 0)
  {
    a := FailedFlowHasAdvanced(r, e, k, s);
    RunKeepsInv(r, e);
    RunKeepsInv(r, a);
    WorkerKnows(r.states[e], s);
    AdvancerIsSpent(r.states[a], s, Actor(r.events[a]));
    if a <= e { FlowStaysInRun(r, a, e, s); } else { FlowStaysInRun(r, e, a, s); }
    var x := r.states[e].slots[s];
    if a < j < |r.events| && ReadsFor(r.states[j], r.events[j], x)
       && Entry(r.states[j], x.assoc, x.target) == Entry(r.states[a + 1], x.assoc, x.target) {
      AdvanceMovesStart(r, a, j, s);
    }
  }
}
