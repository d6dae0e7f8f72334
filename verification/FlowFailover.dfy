/** Failover of one datagram: with a fixed lookup answer and no other task working on its
    target, a handler's failed sends follow the rotation of module `Rotation`, and it gives up
    only after as many failures as there are addresses (src/server.rs:736-766, 811-824). */
module FlowFailover {
  import opened Wrappers
  import opened Net
  import opened FlowModel
  import opened FlowFrame
  import opened FlowInvariant
  import opened FlowTermination
  import opened Modular
  import opened Rotation

  /** A handler `h` for target `t` of association `a`; every lookup of it returns `n`
      addresses, of which those in `bindable` can be bound; its first start is `p`. */
  datatype Solo = Solo(h: HandlerId, a: AssocId, t: Target, n: nat, bindable: set<nat>, p: nat)

  /** What the next flow of the target would start from. */
  function Pref(st: State, solo: Solo): nat
    requires solo.a in st.assocs && solo.n > 0
  {
    PreferredStart(st.assocs[solo.a], solo.t, solo.n)
  }

  /** No other handler works on the target. */
  ghost predicate Alone(st: State, solo: Solo) {
    forall k {:trigger st.handlers[k]} :: k in st.handlers && k != solo.h ==>
      !(st.handlers[k].assoc == solo.a && st.handlers[k].target == solo.t)
  }

  /** The worker of slot `s` has won the swap and has yet to store the next address. */
  predicate Storing(st: State, s: SlotId) {
    s in st.workers && st.workers[s].pc == WAdvance
  }

  /** The handler has found its flow active and has not come to its own swap yet, or just has. */
  predicate Sending(pc: Pc) {
    pc.CheckAlive? || pc.Send? || pc.Swap?
  }

  /** The worker of the slot that the handler holds stores the next address. */
  predicate StoresFor(st: State, ev: Event, solo: Solo) {
    ev.Work? && Storing(st, ev.s) && Holds(st, solo.h, ev.s)
  }

  /** A worker of the target wins its swap. */
  predicate WorkerWins(st: State, ev: Event, solo: Solo)
    requires Enabled(st, ev)
  {
    && ev.Work? && st.workers[ev.s].pc.WSwap? && st.slots[ev.s].flow.value.active
    && st.slots[ev.s].assoc == solo.a && st.slots[ev.s].target == solo.t
  }

  /** The environment answers `solo.h` as described and the others leave the target's preferred
      entry alone, with one exception: the worker of the handler's own flow may fail while
      the handler is sending on it, win the swap and store the next address; it has then
      done so by the time the handler lets go of the slot to try again. */
  ghost predicate Undisturbed(st: State, ev: Event, st': State, solo: Solo)
    requires Enabled(st, ev) && solo.n > 0
  {
    && Alone(st, solo) && Alone(st', solo)
    && (ev.Handle? && ev.h == solo.h ==>
          var pc := st.handlers[solo.h].pc;
          && (pc.Resolve? && ev.c.ok ==> ev.c.count == solo.n)
          && (pc.Bind? ==> (ev.c.ok <==> Wrap(pc.start + pc.offset, solo.n) in solo.bindable))
          && (pc.Leave? && pc.again ==> !Storing(st, pc.s)))
    && (!(ev.Handle? && ev.h == solo.h) && solo.a in st.assocs && solo.a in st'.assocs ==>
          Pref(st', solo) == Pref(st, solo) || StoresFor(st, ev, solo))
    && (WorkerWins(st, ev, solo) ==>
          st.workers[ev.s].failed && Holds(st, solo.h, ev.s) && Sending(st.handlers[solo.h].pc))
  }

  /** The flow of slot `x` is the one the rotation asks for. */
  predicate FlowIs(x: Slot, index: nat, n: nat) {
    x.flow.Some? && x.flow.value.index == index && x.flow.value.count == n
  }

  predicate ActiveFlowIs(x: Slot, index: nat, n: nat) {
    FlowIs(x, index, n) && x.flow.value.active
  }

  /** The flow with address `index` is in use, or what follows it has been or will be stored. */
  predicate UsedUp(x: Slot, index: nat, n: nat, pref: nat, owed: bool)
    requires n > 0
  {
    FlowIs(x, index, n) && (x.flow.value.active || owed || pref == Wrap(index + 1, n))
  }

  /** Where the rotation goes on after the failed tries `tried`. */
  function Next(solo: Solo, tried: seq<nat>): nat
    requires solo.n > 0
  {
    NextStart(tried, solo.n, solo.p)
  }

  /** The address the next flow will use. */
  function Pick(solo: Solo, tried: seq<nat>): Option<nat>
    requires solo.n > 0
  {
    Scan(solo.bindable, solo.n, Next(solo, tried), 0)
  }

  /** What the handler at `pc`, holding slot record `x`, has got right so far; `pref` is the
      target's preferred start, `mapped` tells whether the target has a slot in the map, and
      `owed` whether the slot's worker is about to store an address. */
  predicate PcOnCourse(pc: Pc, x: Slot, pref: nat, mapped: bool, owed: bool, solo: Solo, tried: seq<nat>)
    requires solo.n > 0 && SlotOf(pc).Some?
  {
    var next, pick := Next(solo, tried), Pick(solo, tried);
    match pc
    case Await(_) => pref == next && x.cell == Empty
    case Resolve(_) => pref == next
    case ReadPreferred(_, m) => m == solo.n && pref == next
    case Bind(_, m, start, offset) =>
      m == solo.n && offset <= m && start == next && pick == Scan(solo.bindable, solo.n, next, offset)
    case Remember(_, m, index) => m == solo.n && pick == Some(index)
    case Spawn(_, m, index) => m == solo.n && pick == Some(index)
    case Publish(_, hasFlow) => hasFlow ==> pick.Some? && ActiveFlowIs(x, pick.value, solo.n)
    case Got(_) => x.cell == Ready(true) ==> pick.Some? && ActiveFlowIs(x, pick.value, solo.n)
    case RemoveNone(_) => true
    case RemoveStale(_) => false
    case CheckAlive(_) => pick.Some? && UsedUp(x, pick.value, solo.n, pref, owed)
    case Send(_) => pick.Some? && UsedUp(x, pick.value, solo.n, pref, owed)
    case Swap(_) => tried != [] && UsedUp(x, tried[|tried| - 1], solo.n, pref, owed)
    case Advance(_) => tried != [] && FlowIs(x, tried[|tried| - 1], solo.n)
    case Cancel(_) => tried != [] && FlowIs(x, tried[|tried| - 1], solo.n) && (owed || pref == next)
    case Remove(_) => tried != [] && FlowIs(x, tried[|tried| - 1], solo.n) && (owed || pref == next)
    case Leave(_, again) =>
      again ==> !mapped && tried != [] && FlowIs(x, tried[|tried| - 1], solo.n) && (owed || pref == next)
  }

  /** The handler is done with sending, by a success or for want of a flow. */
  predicate Sent(pc: Pc) {
    pc.Leave? && !pc.again
  }

  /** Where the handler is in the rotation, given the failed tries so far. */
  ghost predicate OnCourse(st: State, solo: Solo, tried: seq<nat>) {
    && solo.n > 0 && solo.h in st.handlers && solo.a in st.assocs
    && var hd := st.handlers[solo.h];
       var flows := st.assocs[solo.a].flows;
       && hd.assoc == solo.a && hd.target == solo.t
       && tried == Tries(solo.bindable, solo.n, solo.p, |tried|)
       && |tried| <= solo.n
       && (!Sent(hd.pc) ==> hd.attempts == |tried| + (if hd.pc.Send? then 1 else 0))
       && (!Sent(hd.pc) && (!Counted(hd.pc) || hd.pc.Send?) ==> |tried| < solo.n)
       && if SlotOf(hd.pc).None? then
            solo.t !in flows && Pref(st, solo) == Next(solo, tried)
          else
            && hd.pc.s in st.slots
            && (solo.t in flows ==> flows[solo.t] == hd.pc.s)
            && PcOnCourse(hd.pc, st.slots[hd.pc.s], Pref(st, solo), solo.t in flows, Storing(st, hd.pc.s), solo, tried)
  }

  // ---- Steps of other tasks ----

  /** A handler of another target touches nothing that the handler relies on. */
  lemma OtherHandlerStaysOnCourse(st: State, k: HandlerId, c: Choice, st': State, solo: Solo, tried: seq<nat>)
    requires HandlerReady(st, k) && HandlerFrame(st, k, c, st') && OnCourse(st, solo, tried)
    requires k != solo.h && Alone(st, solo) && Pref(st', solo) == Pref(st, solo)
    requires SlotOf(st.handlers[solo.h].pc).Some? ==> SlotAt(st, k, c) != SlotOf(st.handlers[solo.h].pc)
    ensures OnCourse(st', solo, tried)
  {}

  /** Handlers of different targets never work on the same slot. */
  lemma OtherSlot(st: State, k: HandlerId, c: Choice, h: HandlerId)
    requires Inv(st) && HandlerReady(st, k) && HandlerEnabled(st, k, c)
    requires h in st.handlers && SlotOf(st.handlers[h].pc).Some?
    requires !(st.handlers[k].assoc == st.handlers[h].assoc && st.handlers[k].target == st.handlers[h].target)
    ensures SlotAt(st, k, c) != SlotOf(st.handlers[h].pc)
  {
    HandlerKnows(st, h);
    if SlotOf(st.handlers[k].pc).Some? { HandlerKnows(st, k); }
    assert AssocOk(st, st.handlers[k].assoc);
  }

  /** What `advance_udp_address` stores, read back modulo the count, is the next start. */
  lemma StoredStart(index: nat, n: nat)
    requires n > 0
    ensures ((index + 1) % n) % n == Wrap(index + 1, n)
    ensures n == 1 ==> Wrap(index + 1, n) == 0
  {
    WrapIsMod(index + 1, n);
    Remainder((index + 1) % n, 0, (index + 1) % n, n);
  }

  lemma WorkerStores(st: State, s: SlotId, c: Choice)
    requires WorkerReady(st, s) && WorkerEnabled(st, s, c) && Storing(st, s) && st.slots[s].flow.value.count > 0
    ensures var x, st' := st.slots[s], WorkerStep(st, s, c);
            && x.assoc in st'.assocs
            && PreferredStart(st'.assocs[x.assoc], x.target, x.flow.value.count)
                 == Wrap(x.flow.value.index + 1, x.flow.value.count)
  {
    StoredStart(st.slots[s].flow.value.index, st.slots[s].flow.value.count);
  }

  lemma FailedWorkerWins(st: State, s: SlotId, c: Choice)
    requires WorkerReady(st, s) && WorkerEnabled(st, s, c) && st.workers[s].pc.WSwap?
    requires st.slots[s].flow.value.active && st.workers[s].failed
    ensures Storing(WorkerStep(st, s, c), s)
  {}

  /** The worker of the slot the handler holds. */
  lemma OwnWorkerStaysOnCourse(st: State, s: SlotId, c: Choice, st': State, solo: Solo, tried: seq<nat>)
    requires Inv(st) && Enabled(st, Work(s, c)) && WorkerFrame(st, s, st') && OnCourse(st, solo, tried)
    requires Holds(st, solo.h, s) && s in st'.slots
    requires WorkerWins(st, Work(s, c), solo) ==> Sending(st.handlers[solo.h].pc) && Storing(st', s)
    requires if Storing(st, s)
             then Sent(st.handlers[solo.h].pc) || Pref(st', solo) == Wrap(st.slots[s].flow.value.index + 1, solo.n)
             else Pref(st', solo) == Pref(st, solo)
    ensures OnCourse(st', solo, tried)
  {
    HandlerKnows(st, solo.h);
    WorkerKnows(st, s);
  }

  /** A worker of another slot. */
  lemma OtherWorkerStaysOnCourse(st: State, r: SlotId, st': State, solo: Solo, tried: seq<nat>)
    requires Inv(st) && WorkerReady(st, r) && WorkerFrame(st, r, st') && OnCourse(st, solo, tried)
    requires !Holds(st, solo.h, r) && Pref(st', solo) == Pref(st, solo)
    ensures OnCourse(st', solo, tried)
  {}

  /** If the worker is storing, the handler is in a position that knows its flow. */
  lemma StoresOnCourse(st: State, s: SlotId, solo: Solo, tried: seq<nat>)
    requires Inv(st) && OnCourse(st, solo, tried) && Holds(st, solo.h, s) && Storing(st, s)
    requires !Sent(st.handlers[solo.h].pc)
    ensures st.slots[s].flow.Some? && st.slots[s].flow.value.count == solo.n
  {
    HandlerKnows(st, solo.h);
    WorkerKnows(st, s);
  }

  lemma WorkStaysOnCourse(st: State, r: SlotId, c: Choice, st': State, solo: Solo, tried: seq<nat>)
    requires Inv(st) && StepOf(st, Work(r, c), st') && OnCourse(st, solo, tried)
    requires Undisturbed(st, Work(r, c), st', solo)
    ensures OnCourse(st', solo, tried)
  {
    StepFrames(st, Work(r, c), st');
    if Holds(st, solo.h, r) {
      StepOfKeepsInv(st, Work(r, c), st');
      HandlerKnows(st, solo.h);
      HandlerKnows(st', solo.h);
      WorkerKnows(st, r);
      if WorkerWins(st, Work(r, c), solo) { FailedWorkerWins(st, r, c); }
      if Storing(st, r) && !Sent(st.handlers[solo.h].pc) {
        StoresOnCourse(st, r, solo, tried);
        WorkerStores(st, r, c);
      }
      OwnWorkerStaysOnCourse(st, r, c, st', solo, tried);
    } else {
      OtherWorkerStaysOnCourse(st, r, st', solo, tried);
    }
  }

  /** Associations come and go, and packets of other targets arrive. */
  lemma PlainStepStaysOnCourse(st: State, ev: Event, st': State, solo: Solo, tried: seq<nat>)
    requires StepOf(st, ev, st') && OnCourse(st, solo, tried) && Undisturbed(st, ev, st', solo)
    requires !ev.Handle? && !ev.Work?
    ensures OnCourse(st', solo, tried)
  {
    StepFrames(st, ev, st');
  }

  /** What the handler relies on survives the steps of the others. */
  lemma OtherStepStaysOnCourse(st: State, ev: Event, st': State, solo: Solo, tried: seq<nat>)
    requires Inv(st) && StepOf(st, ev, st') && OnCourse(st, solo, tried) && Undisturbed(st, ev, st', solo)
    requires !(ev.Handle? && ev.h == solo.h)
    ensures OnCourse(st', solo, tried)
  {
    match ev
    case Handle(k, c) =>
      StepFrames(st, ev, st');
      if SlotOf(st.handlers[solo.h].pc).Some? { OtherSlot(st, k, c, solo.h); }
      OtherHandlerStaysOnCourse(st, k, c, st', solo, tried);
    case Work(r, c) => WorkStaysOnCourse(st, r, c, st', solo, tried);
    case _ => PlainStepStaysOnCourse(st, ev, st', solo, tried);
  }

  // ---- The handler's own steps ----

  /** The failed tries after a step of the handler. */
  function TriedAfter(st: State, c: Choice, solo: Solo, tried: seq<nat>): seq<nat>
    requires HandlerReady(st, solo.h)
    requires st.handlers[solo.h].pc.Send? ==> st.slots[st.handlers[solo.h].pc.s].flow.Some?
  {
    var pc := st.handlers[solo.h].pc;
    if pc.Send? && !c.ok then tried + [st.slots[pc.s].flow.value.index] else tried
  }

  /** A step of the handler, with everything that the lemmas below share. */
  ghost predicate OwnStep(st: State, c: Choice, solo: Solo, tried: seq<nat>) {
    && Inv(st) && Enabled(st, Handle(solo.h, c)) && OnCourse(st, solo, tried)
    && Undisturbed(st, Handle(solo.h, c), HandlerStep(st, solo.h, c), solo)
    && solo.h in HandlerStep(st, solo.h, c).handlers
  }

  lemma StartOnCourse(st: State, c: Choice, solo: Solo, tried: seq<nat>)
    requires OwnStep(st, c, solo, tried)
    requires st.handlers[solo.h].pc.Start? || st.handlers[solo.h].pc.Lookup?
    ensures OnCourse(HandlerStep(st, solo.h, c), solo, tried)
  {}

  /** Nobody else can be filling the cell: he would be another handler of the target. */
  lemma CellOnCourse(st: State, c: Choice, solo: Solo, tried: seq<nat>)
    requires OwnStep(st, c, solo, tried)
    requires st.handlers[solo.h].pc.Await? || st.handlers[solo.h].pc.Resolve? || st.handlers[solo.h].pc.ReadPreferred?
    ensures OnCourse(HandlerStep(st, solo.h, c), solo, tried)
  {
    HandlerKnows(st, solo.h);
  }

  lemma BindOnCourse(st: State, c: Choice, solo: Solo, tried: seq<nat>)
    requires OwnStep(st, c, solo, tried) && st.handlers[solo.h].pc.Bind?
    ensures OnCourse(HandlerStep(st, solo.h, c), solo, tried)
  {
    HandlerKnows(st, solo.h);
    var pc := st.handlers[solo.h].pc;
    WrapIsMod(pc.start + pc.offset, solo.n);
  }

  lemma SpawnOnCourse(st: State, c: Choice, solo: Solo, tried: seq<nat>)
    requires OwnStep(st, c, solo, tried)
    requires var pc := st.handlers[solo.h].pc; pc.Remember? || pc.Spawn? || pc.Publish?
    ensures OnCourse(HandlerStep(st, solo.h, c), solo, tried)
  {
    HandlerKnows(st, solo.h);
  }

  lemma GotOnCourse(st: State, c: Choice, solo: Solo, tried: seq<nat>)
    requires OwnStep(st, c, solo, tried)
    requires var pc := st.handlers[solo.h].pc; pc.Got? || pc.RemoveNone? || pc.CheckAlive?
    ensures OnCourse(HandlerStep(st, solo.h, c), solo, tried)
  {
    HandlerKnows(st, solo.h);
    if st.handlers[solo.h].pc.RemoveNone? { KeepRemove(st, st.handlers[solo.h].pc.s); }
  }

  lemma SendOnCourse(st: State, c: Choice, solo: Solo, tried: seq<nat>)
    requires OwnStep(st, c, solo, tried) && st.handlers[solo.h].pc.Send?
    ensures OnCourse(HandlerStep(st, solo.h, c), solo, TriedAfter(st, c, solo, tried))
  {
    HandlerKnows(st, solo.h);
    TriesExtend(solo.bindable, solo.n, solo.p, |tried|);
  }

  lemma SwapOnCourse(st: State, c: Choice, solo: Solo, tried: seq<nat>)
    requires OwnStep(st, c, solo, tried)
    requires st.handlers[solo.h].pc.Swap? || st.handlers[solo.h].pc.Cancel?
    ensures OnCourse(HandlerStep(st, solo.h, c), solo, tried)
  {
    HandlerKnows(st, solo.h);
  }

  lemma AdvanceOnCourse(st: State, c: Choice, solo: Solo, tried: seq<nat>)
    requires OwnStep(st, c, solo, tried) && st.handlers[solo.h].pc.Advance?
    ensures OnCourse(HandlerStep(st, solo.h, c), solo, tried)
  {
    HandlerKnows(st, solo.h);
    StoredStart(tried[|tried| - 1], solo.n);
  }

  lemma RemoveOnCourse(st: State, c: Choice, solo: Solo, tried: seq<nat>)
    requires OwnStep(st, c, solo, tried)
    requires st.handlers[solo.h].pc.Remove? || st.handlers[solo.h].pc.Leave?
    ensures OnCourse(HandlerStep(st, solo.h, c), solo, tried)
  {
    HandlerKnows(st, solo.h);
    if st.handlers[solo.h].pc.Remove? { KeepRemove(st, st.handlers[solo.h].pc.s); }
  }

  lemma OwnStepStaysOnCourse(st: State, c: Choice, solo: Solo, tried: seq<nat>)
    requires OwnStep(st, c, solo, tried)
    ensures st.handlers[solo.h].pc.Send? ==> st.slots[st.handlers[solo.h].pc.s].flow.Some?
    ensures OnCourse(HandlerStep(st, solo.h, c), solo, TriedAfter(st, c, solo, tried))
  {
    match st.handlers[solo.h].pc
    case Start => StartOnCourse(st, c, solo, tried);
    case Lookup => StartOnCourse(st, c, solo, tried);
    case Await(_) => CellOnCourse(st, c, solo, tried);
    case Resolve(_) => CellOnCourse(st, c, solo, tried);
    case ReadPreferred(_, _) => CellOnCourse(st, c, solo, tried);
    case Bind(_, _, _, _) => BindOnCourse(st, c, solo, tried);
    case Remember(_, _, _) => SpawnOnCourse(st, c, solo, tried);
    case Spawn(_, _, _) => SpawnOnCourse(st, c, solo, tried);
    case Publish(_, _) => SpawnOnCourse(st, c, solo, tried);
    case Got(_) => GotOnCourse(st, c, solo, tried);
    case RemoveNone(_) => GotOnCourse(st, c, solo, tried);
    case RemoveStale(_) => assert false;
    case CheckAlive(_) => GotOnCourse(st, c, solo, tried);
    case Send(_) => SendOnCourse(st, c, solo, tried);
    case Swap(_) => SwapOnCourse(st, c, solo, tried);
    case Advance(_) => AdvanceOnCourse(st, c, solo, tried);
    case Cancel(_) => SwapOnCourse(st, c, solo, tried);
    case Remove(_) => RemoveOnCourse(st, c, solo, tried);
    case Leave(_, _) => RemoveOnCourse(st, c, solo, tried);
  }

  // ---- Runs ----

  /** The step is a failed send of handler `h`. */
  predicate SendFails(st: State, ev: Event, h: HandlerId) {
    ev.Handle? && ev.h == h && h in st.handlers && st.handlers[h].pc.Send? && !ev.c.ok
  }

  /** The address index of the flow that handler `h` is sending on. */
  function SendIndex(st: State, h: HandlerId): nat
    requires h in st.handlers && st.handlers[h].pc.Send?
  {
    var s := st.handlers[h].pc.s;
    if s in st.slots && st.slots[s].flow.Some? then st.slots[s].flow.value.index else 0
  }

  function FailedSend(st: State, ev: Event, h: HandlerId): seq<nat> {
    if SendFails(st, ev, h) then [SendIndex(st, h)] else []
  }

  /** The addresses whose sends failed for handler `h` since it was spawned, in order. */
  ghost function Tried(r: Run, i: nat, h: HandlerId): seq<nat>
    requires IsRun(r) && i < |r.states|
  {
    if i == 0 || h !in r.states[i - 1].handlers || h !in r.states[i].handlers then []
    else Tried(r, i - 1, h) + FailedSend(r.states[i - 1], r.events[i - 1], h)
  }

  /** Step `j` of the run neither ends the handler nor disturbs it. */
  ghost predicate CalmStep(r: Run, j: nat, solo: Solo)
    requires IsRun(r) && j < |r.events| && solo.n > 0
  {
    Follows(r, j) && solo.h in r.states[j + 1].handlers && Undisturbed(r.states[j], r.events[j], r.states[j + 1], solo)
  }

  /** Handler `solo.h` is spawned by event `b` for a target that has no flow, lives on until
      state `e`, and is not disturbed in between. */
  ghost predicate SoloRun(r: Run, b: nat, e: nat, solo: Solo) {
    && IsRun(r) && b < e < |r.states| && solo.n > 0
    && Follows(r, b) && r.events[b].Packet? && r.events[b].h == solo.h && r.events[b].a == solo.a && r.events[b].target == solo.t
    && solo.t !in r.states[b].assocs[solo.a].flows
    && solo.p == Pref(r.states[b], solo)
    && forall j {:trigger CalmStep(r, j, solo)} :: b <= j < e ==> CalmStep(r, j, solo)
  }

  lemma SoloBegins(st: State, ev: Event, st': State, solo: Solo)
    requires StepOf(st, ev, st') && solo.n > 0
    requires ev.Packet? && ev.h == solo.h && ev.a == solo.a && ev.target == solo.t
    requires solo.t !in st.assocs[solo.a].flows && solo.p == Pref(st, solo)
    requires solo.h in st'.handlers
    ensures OnCourse(st', solo, [])
  {}

  lemma SoloStep(st: State, ev: Event, st': State, solo: Solo, tried: seq<nat>)
    requires Inv(st) && StepOf(st, ev, st') && OnCourse(st, solo, tried) && Undisturbed(st, ev, st', solo)
    requires solo.h in st'.handlers
    ensures OnCourse(st', solo, tried + FailedSend(st, ev, solo.h))
  {
    if ev.Handle? && ev.h == solo.h {
      OwnStepStaysOnCourse(st, ev.c, solo, tried);
      assert st.handlers[solo.h].pc.Send? ==> st.handlers[solo.h].pc.s in st.slots;
      assert tried + FailedSend(st, ev, solo.h) == TriedAfter(st, ev.c, solo, tried);
    } else {
      OtherStepStaysOnCourse(st, ev, st', solo, tried);
      assert tried + FailedSend(st, ev, solo.h) == tried;
    }
  }

  lemma SoloFirst(r: Run, b: nat, e: nat, solo: Solo)
    requires SoloRun(r, b, e, solo)
    ensures OnCourse(r.states[b + 1], solo, Tried(r, b + 1, solo.h))
  {
    assert CalmStep(r, b, solo);
    SoloBegins(r.states[b], r.events[b], r.states[b + 1], solo);
  }

  lemma SoloLater(r: Run, b: nat, i: nat, e: nat, solo: Solo)
    requires SoloRun(r, b, e, solo) && b < i < e
    requires OnCourse(r.states[i], solo, Tried(r, i, solo.h))
    ensures OnCourse(r.states[i + 1], solo, Tried(r, i + 1, solo.h))
  {
    assert CalmStep(r, i, solo);
    RunKeepsInv(r, i);
    SoloStep(r.states[i], r.events[i], r.states[i + 1], solo, Tried(r, i, solo.h));
  }

  lemma SoloStaysOnCourse(r: Run, b: nat, e: nat, solo: Solo)
    requires SoloRun(r, b, e, solo)
    ensures OnCourse(r.states[e], solo, Tried(r, e, solo.h))
  {
    SoloFirst(r, b, e, solo);
    var i := b + 1;
    while i < e
      invariant b < i <= e
      invariant OnCourse(r.states[i], solo, Tried(r, i, solo.h))
    {
      SoloLater(r, b, i, e, solo);
      i := i + 1;
    }
  }

  /** The failed sends of an undisturbed handler are the beginning of the rotation from the
      preferred address over the bindable ones. */
  lemma FailuresRotate(r: Run, b: nat, e: nat, solo: Solo)
    requires SoloRun(r, b, e, solo)
    ensures var tried := Tried(r, e, solo.h);
            |tried| <= solo.n && tried == Tries(solo.bindable, solo.n, solo.p, |tried|)
  {
    SoloStaysOnCourse(r, b, e, solo);
  }

  lemma LastFailure(st: State, c: Choice, solo: Solo, tried: seq<nat>)
    requires Enabled(st, Handle(solo.h, c)) && OnCourse(st, solo, tried)
    requires st.handlers[solo.h].pc.Remove?
    requires HandlerStep(st, solo.h, c).handlers[solo.h].pc == Leave(st.handlers[solo.h].pc.s, false)
    ensures |tried| == solo.n && tried == Tries(solo.bindable, solo.n, solo.p, solo.n)
  {}

  /** The handler is about to return because its attempts have reached the address count. */
  ghost predicate GivesUp(st: State, h: HandlerId, c: Choice) {
    && Enabled(st, Handle(h, c)) && st.handlers[h].pc.Remove?
    && h in HandlerStep(st, h, c).handlers
    && HandlerStep(st, h, c).handlers[h].pc == Leave(st.handlers[h].pc.s, false)
  }

  lemma TriedWhenGivingUp(r: Run, b: nat, e: nat, solo: Solo, c: Choice)
    requires SoloRun(r, b, e, solo) && GivesUp(r.states[e], solo.h, c)
    ensures |Tried(r, e, solo.h)| == solo.n
    ensures Tried(r, e, solo.h) == Tries(solo.bindable, solo.n, solo.p, solo.n)
  {
    SoloStaysOnCourse(r, b, e, solo);
    LastFailure(r.states[e], c, solo, Tried(r, e, solo.h));
  }

  /** A whole round: as many tries as there are addresses, exactly the bindable ones, and if
      all bind each exactly once, going round from `p`. */
  ghost predicate WholeRound(tried: seq<nat>, bindable: set<nat>, n: nat, p: nat)
    requires n > 0
  {
    && |tried| == n
    && (forall k :: 0 <= k < n ==> (k in bindable <==> k in tried))
    && ((forall k :: 0 <= k < n ==> k in bindable) ==> forall j :: 0 <= j < n ==> tried[j] == (p + j) % n)
  }

  lemma FullRotation(bindable: set<nat>, n: nat, p: nat)
    requires n > 0 && |Tries(bindable, n, p, n)| == n
    ensures WholeRound(Tries(bindable, n, p, n), bindable, n, p)
  {
    forall k | 0 <= k < n ensures k in bindable <==> k in Tries(bindable, n, p, n) {
      EveryBindableIsTried(bindable, n, p, k);
    }
    if forall k :: 0 <= k < n ==> k in bindable {
      forall j | 0 <= j < n ensures Tries(bindable, n, p, n)[j] == (p + j) % n {
        AllBindInOrder(bindable, n, p, n, j);
        WrapIsMod(p + j, n);
      }
    }
  }

  /** It gives up on failures only after a whole round from the preferred address. */
  lemma GivesUpAfterAll(r: Run, b: nat, e: nat, solo: Solo, c: Choice)
    requires SoloRun(r, b, e, solo) && GivesUp(r.states[e], solo.h, c)
    ensures WholeRound(Tried(r, e, solo.h), solo.bindable, solo.n, solo.p)
  {
    TriedWhenGivingUp(r, b, e, solo, c);
    FullRotation(solo.bindable, solo.n, solo.p);
  }
}
