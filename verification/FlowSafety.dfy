/** What the invariant of the flow protocol means for its users: one active flow per target,
    no leaked slot, no lost permit, replies to the bound client only. */
module FlowSafety {
  import opened Wrappers
  import opened Net
  import opened FlowModel
  import opened FlowFrame
  import opened FlowInvariant

  predicate Active(st: State, s: SlotId) {
    s in st.slots && st.slots[s].flow.Some? && st.slots[s].flow.value.active
  }

  /** At any moment of any run a target of an association has at most one active flow; its
      slot is the one the map holds, and its worker is running. */
  lemma OneActiveFlow(r: Run, i: nat)
    requires IsRun(r) && i < |r.states|
    ensures forall s :: Active(r.states[i], s) ==>
      InFlows(r.states[i], r.states[i].slots[s].assoc, r.states[i].slots[s].target, s) && s in r.states[i].workers
    ensures forall s, s' ::
      (&& Active(r.states[i], s) && Active(r.states[i], s')
       && r.states[i].slots[s].assoc == r.states[i].slots[s'].assoc
       && r.states[i].slots[s].target == r.states[i].slots[s'].target) ==> s == s'
  {
    RunKeepsInv(r, i);
    var st := r.states[i];
    forall s | Active(st, s)
      ensures InFlows(st, st.slots[s].assoc, st.slots[s].target, s) && s in st.workers
    {
      assert SlotOk(st, s);
    }
  }

  lemma FramedRemovalIsOwn(st: State, ev: Event, st': State, a: AssocId, t: Target)
    requires Inv(st) && Enabled(st, ev) && Framed(st, ev, st')
    requires a in st.assocs && t in st.assocs[a].flows
    requires !InFlows(st', a, t, st.assocs[a].flows[t])
    ensures var s := st.assocs[a].flows[t];
            && a in st'.assocs && t !in st'.assocs[a].flows
            && s in st.slots && !Undecided(st.slots[s])
            && ((ev.Handle? && Holds(st, ev.h, s)) || (ev.Work? && ev.s == s))
  {
    match ev
    case Handle(h, _) => if SlotOf(st.handlers[h].pc).Some? { HandlerKnows(st, h); }
    case Work(s, _) => WorkerKnows(st, s);
    case _ =>
  }

  /** Whoever changes the entry of a target that has one removes it; it removes the slot it
      holds itself, and only once that slot's flow is inactive or will never come. So a stale
      handler or worker never removes a newer slot, and never an active flow. */
  lemma RemovalIsOwn(st: State, ev: Event, st': State, a: AssocId, t: Target)
    requires Inv(st) && StepOf(st, ev, st')
    requires a in st.assocs && t in st.assocs[a].flows
    requires !InFlows(st', a, t, st.assocs[a].flows[t])
    ensures var s := st.assocs[a].flows[t];
            && a in st'.assocs && t !in st'.assocs[a].flows
            && s in st.slots && !Undecided(st.slots[s])
            && ((ev.Handle? && Holds(st, ev.h, s)) || (ev.Work? && ev.s == s))
  {
    StepFrames(st, ev, st');
    FramedRemovalIsOwn(st, ev, st', a, t);
  }

  // ---- No slot is leaked ----

  /** Task `h` or the worker of `s` will still take `s` out of its map. */
  predicate HandlerOwns(st: State, h: HandlerId, s: SlotId) {
    && Holds(st, h, s)
    && (st.handlers[h].pc.Await? || Initialising(st.handlers[h].pc)
        || st.handlers[h].pc.Got? || st.handlers[h].pc.RemoveNone?)
  }

  predicate WorkerOwns(st: State, s: SlotId) {
    s in st.workers && !st.workers[s].pc.WLeave?
  }

  /** Every slot in a map has an unfinished owner: a worker that has not yet removed it, or,
      as long as there is no flow, a handler that waits for the cell, fills it, or is about
      to remove the slot. This includes the return at line 809, which removes nothing. */
  lemma SlotHasOwner(st: State, a: AssocId, t: Target)
    requires Inv(st) && a in st.assocs && t in st.assocs[a].flows
    ensures var s := st.assocs[a].flows[t];
            && s in st.slots && st.slots[s].assoc == a && st.slots[s].target == t
            && (WorkerOwns(st, s) || (st.slots[s].flow.None? && exists h :: HandlerOwns(st, h, s)))
  {
    var s := st.assocs[a].flows[t];
    assert AssocOk(st, a) && SlotOk(st, s) && InFlows(st, a, t, s);
    var x := st.slots[s];
    if x.flow.Some? {
      assert WorkerOk(st, s);
    } else {
      assert ByWorker !in x.holders by { assert s in st.workers ==> WorkerOk(st, s); }
      var who :| who in x.holders && who != InMap;
      assert Holds(st, who.h, s) && HandlerOk(st, who.h);
      assert HandlerOwns(st, who.h, s);
    }
  }

  /** An association none of whose handlers and workers is left has an empty map. */
  lemma IdleMapIsEmpty(st: State, a: AssocId)
    requires Inv(st) && a in st.assocs
    requires forall h :: h in st.handlers ==> st.handlers[h].assoc != a
    requires forall s :: s in st.workers && s in st.slots ==> st.slots[s].assoc != a
    ensures st.assocs[a].flows == map[]
  {
    if t :| t in st.assocs[a].flows {
      SlotHasOwner(st, a, t);
      var s := st.assocs[a].flows[t];
      forall h ensures !HandlerOwns(st, h, s) { assert h in st.handlers ==> HandlerOk(st, h); }
      assert false;
    }
  }

  // ---- No permit is lost ----

  function MapSlots(st: State): set<SlotId> {
    set a, s | a in st.assocs && s in st.assocs[a].flows.Values :: s
  }

  function HandlerSlots(st: State): set<SlotId> {
    set h | h in st.handlers && SlotOf(st.handlers[h].pc).Some? :: st.handlers[h].pc.s
  }

  /** The slots some map, handler or worker refers to, computed from those alone. */
  function HeldSlots(st: State): set<SlotId> {
    MapSlots(st) + HandlerSlots(st) + st.workers.Keys
  }

  lemma SlotIsHeld(st: State, s: SlotId)
    requires Inv(st) && s in st.slots
    ensures s in HeldSlots(st)
  {
    assert SlotOk(st, s);
    var x := st.slots[s];
    var who :| who in x.holders;
    match who
    case InMap => assert st.assocs[x.assoc].flows[x.target] in st.assocs[x.assoc].flows.Values;
    case ByHandler(h) => assert Holds(st, h, s);
    case ByWorker =>
  }

  lemma HeldIsSlot(st: State, s: SlotId)
    requires Inv(st) && s in HeldSlots(st)
    ensures s in st.slots
  {
    if s in st.workers {
      assert WorkerOk(st, s);
    } else if s in HandlerSlots(st) {
      var h :| h in st.handlers && SlotOf(st.handlers[h].pc).Some? && st.handlers[h].pc.s == s;
      assert HandlerOk(st, h);
    } else {
      var a :| a in st.assocs && s in st.assocs[a].flows.Values;
      assert AssocOk(st, a);
    }
  }

  lemma SlotsAreHeld(st: State)
    requires Inv(st)
    ensures st.slots.Keys == HeldSlots(st)
  {
    forall s | s in st.slots ensures s in HeldSlots(st) { SlotIsHeld(st, s); }
    forall s | s in HeldSlots(st) ensures s in st.slots { HeldIsSlot(st, s); }
  }

  lemma SubsetSize<T>(x: set<T>, y: set<T>)
    requires x <= y
    ensures |x| <= |y|
  {
    assert y == x + (y - x);
  }

  /** In every state of every run the free flow permits and the slots still referred to add
      up to 1024 and the free packet permits and the handlers to 256, so there are never more
      than 1024 workers over all associations nor 256 handlers; no map exceeds 128 entries. */
  lemma PermitConservation(r: Run, i: nat)
    requires IsRun(r) && i < |r.states|
    ensures r.states[i].permits + |HeldSlots(r.states[i])| == 1024
    ensures r.states[i].packets + |r.states[i].handlers| == 256
    ensures |r.states[i].workers| <= 1024
    ensures forall a :: a in r.states[i].assocs ==>
      && |r.states[i].assocs[a].flows| <= 128
      && |r.states[i].assocs[a].preferred| <= 128
  {
    var st := r.states[i];
    RunKeepsInv(r, i);
    SlotsAreHeld(st);
    assert |st.slots| == |st.slots.Keys|;
    SubsetSize(st.workers.Keys, st.slots.Keys);
    forall a | a in st.assocs
      ensures |st.assocs[a].flows| <= 128 && |st.assocs[a].preferred| <= 128
    {
      assert AssocOk(st, a);
    }
  }

  /** When no task is left, all permits are back and every map is empty. */
  lemma QuiescenceReturnsAll(r: Run, i: nat)
    requires IsRun(r) && i < |r.states|
    requires r.states[i].handlers == map[] && r.states[i].workers == map[]
    ensures r.states[i].permits == 1024 && r.states[i].packets == 256
    ensures r.states[i].slots == map[]
    ensures forall a :: a in r.states[i].assocs ==> r.states[i].assocs[a].flows == map[]
  {
    var st := r.states[i];
    RunKeepsInv(r, i);
    forall a | a in st.assocs ensures st.assocs[a].flows == map[] { IdleMapIsEmpty(st, a); }
    SlotsAreHeld(st);
    assert st.slots.Keys == {};
  }

  // ---- Replies go to the bound client ----

  /** No step unbinds an association or rebinds it to another endpoint key. */
  lemma StepKeepsBinding(st: State, ev: Event, st': State, a: AssocId)
    requires StepOf(st, ev, st') && a in st.assocs && st.assocs[a].endpoint.Some?
    ensures a in st'.assocs && st'.assocs[a].endpoint.Some?
    ensures EndpointKey(st'.assocs[a].endpoint.value) == EndpointKey(st.assocs[a].endpoint.value)
  {
    StepFrames(st, ev, st');
  }

  lemma {:induction false} BindingIsStable(r: Run, i: nat, j: nat, a: AssocId)
    requires IsRun(r) && i <= j < |r.states|
    requires a in r.states[i].assocs && r.states[i].assocs[a].endpoint.Some?
    ensures a in r.states[j].assocs && r.states[j].assocs[a].endpoint.Some?
    ensures EndpointKey(r.states[j].assocs[a].endpoint.value) == EndpointKey(r.states[i].assocs[a].endpoint.value)
  {
    if i == j {
    } else {
      BindingIsStable(r, i, j - 1, a);
      assert Follows(r, j - 1);
      StepKeepsBinding(r.states[j - 1], r.events[j - 1], r.states[j], a);
    }
  }

  /** A worker always has an address to send to, and it has the key of every source from
      which the association ever accepted a datagram: before (`i < j`) or after it. */
  lemma RepliesReachTheClient(r: Run, i: nat, j: nat, s: SlotId)
    requires IsRun(r) && i < |r.events| && j < |r.states|
    requires s in r.states[j].workers
    requires r.events[i].Packet? && s in r.states[j].slots && r.events[i].a == r.states[j].slots[s].assoc
    ensures WorkerReady(r.states[j], s) && ReplyTo(r.states[j], s).Some?
    ensures EndpointKey(ReplyTo(r.states[j], s).value) == EndpointKey(r.events[i].source)
  {
    RunKeepsInv(r, j);
    WorkerKnows(r.states[j], s);
    var a := r.events[i].a;
    assert Follows(r, i);
    assert r.states[i + 1].assocs[a].endpoint == Some(r.events[i].source);
    if i + 1 <= j {
      BindingIsStable(r, i + 1, j, a);
    } else {
      BindingIsStable(r, j, i + 1, a);
    }
  }
}
