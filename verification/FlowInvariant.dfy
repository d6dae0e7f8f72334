/** The invariant of the flow protocol and the proof that every step keeps it.

    The lemmas `Keep…` each treat one kind of change to the state; `StepKeepsInv` puts the
    events together from them. */
module FlowInvariant {
  import opened Wrappers
  import opened Net
  import opened FlowModel

  /** The flow of the slot may still come, or it is active: the slot must stay in its map. */
  predicate Undecided(x: Slot) {
    (x.flow.None? && !x.cell.Ready?) || (x.flow.Some? && x.flow.value.active)
  }

  predicate AfterCell(pc: Pc) {
    pc.Got? || pc.RemoveNone? || pc.RemoveStale? || pc.CheckAlive? || pc.Send? || pc.Swap?
    || pc.Advance? || pc.Cancel? || pc.Remove? || pc.Leave?
  }

  predicate HasFlow(pc: Pc) {
    pc.RemoveStale? || pc.CheckAlive? || pc.Send? || pc.Swap? || pc.Advance? || pc.Cancel? || pc.Remove?
  }

  predicate AfterSwap(pc: Pc) {
    pc.RemoveStale? || pc.Advance? || pc.Cancel? || pc.Remove?
  }

  /** What a handler at `pc` knows about the slot it holds. */
  predicate PcOk(pc: Pc, h: HandlerId, x: Slot) {
    && (Initialising(pc) <==> x.cell == Running(h))
    && (Initialising(pc) && !pc.Publish? ==> x.flow.None?)
    && (pc.ReadPreferred? ==> pc.n > 0)
    && (pc.Bind? ==> pc.start < pc.n && pc.offset <= pc.n)
    && (pc.Remember? ==> pc.index < pc.n)
    && (pc.Spawn? ==> pc.index < pc.n)
    && (pc.Publish? ==> (pc.hasFlow <==> x.flow.Some?))
    && (AfterCell(pc) ==> x.cell.Ready?)
    && (pc.RemoveNone? ==> x.flow.None?)
    && (HasFlow(pc) ==> x.flow.Some?)
    && (AfterSwap(pc) ==> !x.flow.value.active)
    && (pc.Leave? && x.flow.None? ==> InMap !in x.holders)
  }

  /** What a slot looks like on its own. */
  ghost predicate SlotShape(x: Slot) {
    && x.holders != {}
    && (x.cell.Ready? ==> (x.cell.hasFlow <==> x.flow.Some?))
    && (x.cell.Empty? ==> x.flow.None?)
    && (x.flow.Some? ==> x.flow.value.index < x.flow.value.count)
    && (Undecided(x) ==> InMap in x.holders)
    && (InMap in x.holders ==>
          if x.flow.Some? then ByWorker in x.holders else x.holders != {InMap})
  }

  /** Its references are exactly the map entry, the handlers and the worker holding it. */
  ghost predicate SlotOk(st: State, s: SlotId)
    requires s in st.slots
  {
    var x := st.slots[s];
    && SlotShape(x)
    && x.assoc in st.assocs
    && st.assocs[x.assoc].endpoint.Some?
    && (InMap in x.holders <==> InFlows(st, x.assoc, x.target, s))
    && (ByWorker in x.holders <==> s in st.workers)
    && (forall h :: ByHandler(h) in x.holders <==> Holds(st, h, s))
    && (x.cell.Running? ==> Holds(st, x.cell.runner, s))
  }

  predicate HandlerOk(st: State, h: HandlerId)
    requires h in st.handlers
  {
    var hd := st.handlers[h];
    && hd.assoc in st.assocs
    && st.assocs[hd.assoc].endpoint.Some?
    && (SlotOf(hd.pc).Some? ==>
          && hd.pc.s in st.slots
          && st.slots[hd.pc.s].assoc == hd.assoc
          && st.slots[hd.pc.s].target == hd.target
          && PcOk(hd.pc, h, st.slots[hd.pc.s]))
  }

  /** What a worker at `w.pc` knows about its slot. */
  predicate WorkerPcOk(w: Worker, x: Slot) {
    && x.flow.Some?
    && ByWorker in x.holders
    && (w.pc.WAdvance? || w.pc.WRemove? || w.pc.WLeave? ==> !x.flow.value.active)
    && (w.pc.WLeave? ==> InMap !in x.holders)
  }

  predicate WorkerOk(st: State, s: SlotId)
    requires s in st.workers
  {
    s in st.slots && WorkerPcOk(st.workers[s], st.slots[s])
  }

  ghost predicate AssocOk(st: State, a: AssocId)
    requires a in st.assocs
  {
    var asn := st.assocs[a];
    && |asn.flows| <= MAX_FLOWS_PER_ASSOCIATION
    && |asn.preferred| <= MAX_FLOWS_PER_ASSOCIATION
    && EndpointFits(asn.clientIp, asn.requestedPort, asn.endpoint)
    && forall t :: t in asn.flows ==>
         && asn.flows[t] in st.slots
         && st.slots[asn.flows[t]].assoc == a
         && st.slots[asn.flows[t]].target == t
  }

  ghost predicate SlotsOk(st: State) {
    forall s {:trigger SlotOk(st, s)} :: s in st.slots ==> SlotOk(st, s)
  }

  ghost predicate TasksOk(st: State) {
    && (forall h {:trigger HandlerOk(st, h)} :: h in st.handlers ==> HandlerOk(st, h))
    && (forall s {:trigger WorkerOk(st, s)} :: s in st.workers ==> WorkerOk(st, s))
  }

  ghost predicate AssocsOk(st: State) {
    forall a {:trigger AssocOk(st, a)} :: a in st.assocs ==> AssocOk(st, a)
  }

  ghost predicate Inv(st: State) {
    && st.permits + |st.slots| == MAX_UDP_FLOWS
    && st.packets + |st.handlers| == MAX_UDP_PACKET_TASKS
    && SlotsOk(st) && TasksOk(st) && AssocsOk(st)
  }

  /** In an invariant state no step is disabled for want of an object it refers to: a task
      can be blocked only by what `HandlerEnabled` and `WorkerEnabled` name. */
  lemma TasksAreReady(st: State)
    requires Inv(st)
    ensures forall h :: h in st.handlers ==> HandlerReady(st, h)
    ensures forall s :: s in st.workers ==> WorkerReady(st, s)
  {
    forall h | h in st.handlers ensures HandlerReady(st, h) {
      assert HandlerOk(st, h);
      assert AssocOk(st, st.handlers[h].assoc);
      if SlotOf(st.handlers[h].pc).Some? { assert SlotOk(st, st.handlers[h].pc.s); }
    }
    forall s | s in st.workers ensures WorkerReady(st, s) {
      assert WorkerOk(st, s) && SlotOk(st, s);
    }
  }

  /** In an invariant state the environment may answer as it likes: a lookup may fail or return
      any number of addresses, any socket may or may not bind, any send may or may not succeed,
      and a waiting worker may receive, fail to, or wake up at any time; and it hears of a
      cancelled token. */
  lemma EnvironmentIsFree(st: State, c: Choice)
    requires Inv(st)
    ensures forall h :: h in st.handlers ==>
      match st.handlers[h].pc
      case Resolve(_) => !c.ok || c.count > 0 ==> Enabled(st, Handle(h, c))
      case Bind(_, _, _, _) => Enabled(st, Handle(h, c))
      case Send(_) => Enabled(st, Handle(h, c))
      case _ => true
    ensures forall s :: s in st.workers && st.workers[s].pc.WSelect? ==>
      s in st.slots && st.slots[s].flow.Some? && st.slots[s].assoc in st.assocs
      && (Enabled(st, Work(s, c)) <==>
            match c.wake
            case AssocStopped => st.assocs[st.slots[s].assoc].stopped
            case FlowStopped => st.slots[s].flow.value.stopped
            case _ => true)
  {
    TasksAreReady(st);
    forall s | s in st.workers ensures WorkerReady(st, s) {}
  }

  /** A datagram may come in at any time from every source that fits a live association; and an
      association may be closed at any time. */
  lemma PacketsMayCome(st: State, h: HandlerId, a: AssocId, t: Target, source: SocketAddr)
    requires h !in st.handlers && a in st.assocs
    ensures Enabled(st, CloseAlive(a))
    ensures var asn := st.assocs[a];
      Enabled(st, Packet(h, a, t, source)) <==>
        && asn.alive && Normalize(source.ip) == Normalize(asn.clientIp)
        && (asn.requestedPort != 0 ==> source.port == asn.requestedPort)
        && (asn.endpoint.Some? ==> Normalize(asn.endpoint.value.ip) == Normalize(source.ip) && asn.endpoint.value.port == source.port)
  {}

  lemma MapMinus<K, V>(m: map<K, V>, k: K)
    requires k in m
    ensures |m - {k}| == |m| - 1
  {
    assert (m - {k}).Keys == m.Keys - {k};
  }

  // ---- Kinds of change ----

  /** A handler moves on without touching slots; it keeps the slot it has. */
  lemma KeepMove(st: State, h: HandlerId, hd: Handler)
    requires Inv(st) && h in st.handlers
    requires hd.assoc == st.handlers[h].assoc && hd.target == st.handlers[h].target
    requires SlotOf(hd.pc) == SlotOf(st.handlers[h].pc)
    requires SlotOf(hd.pc).Some? ==> hd.pc.s in st.slots && PcOk(hd.pc, h, st.slots[hd.pc.s])
    ensures Inv(Put(st, h, hd))
  {
    var st' := Put(st, h, hd);
    assert HandlerOk(st, h);
    forall s | s in st'.slots ensures SlotOk(st', s) {
      assert SlotOk(st, s);
      forall k ensures Holds(st', k, s) <==> Holds(st, k, s) {}
    }
    forall k | k in st'.handlers ensures HandlerOk(st', k) { assert k != h ==> HandlerOk(st, k); }
    forall s | s in st'.workers ensures WorkerOk(st', s) { assert WorkerOk(st, s); }
    forall a | a in st'.assocs ensures AssocOk(st', a) { assert AssocOk(st, a); }
  }

  /** How a slot record may change under the feet of the tasks that hold it. */
  predicate Evolves(x: Slot, y: Slot) {
    && y.assoc == x.assoc && y.target == x.target
    && (x.cell.Ready? ==> y.cell == x.cell)
    && (x.flow.Some? ==>
          && y.flow.Some?
          && y.flow.value.index == x.flow.value.index
          && y.flow.value.count == x.flow.value.count
          && (y.flow.value.active ==> x.flow.value.active))
    && (InMap in y.holders ==> InMap in x.holders)
  }

  /** Nothing but slot `s`, one handler `h` holding it afterwards, and perhaps the worker of
      `s` differ between the two states; references are only added. */
  ghost predicate Updated(st: State, st': State, h: HandlerId, s: SlotId) {
    && s in st.slots && s in st'.slots
    && st'.permits == st.permits && st'.packets == st.packets && st'.assocs == st.assocs
    && st'.slots == st.slots[s := st'.slots[s]]
    && h in st.handlers && h in st'.handlers
    && st'.handlers == st.handlers[h := st'.handlers[h]]
    && st'.handlers[h].assoc == st.handlers[h].assoc
    && st'.handlers[h].target == st.handlers[h].target
    && SlotOf(st'.handlers[h].pc) == Some(s)
    && (SlotOf(st.handlers[h].pc).Some? ==> SlotOf(st.handlers[h].pc) == Some(s))
    && (st'.workers == st.workers || (s !in st.workers && s in st'.workers && st'.workers == st.workers[s := st'.workers[s]]))
  }

  /** The new record of `s` fits the tasks that hold it. */
  ghost predicate UpdateOk(st: State, st': State, h: HandlerId, s: SlotId)
    requires Updated(st, st', h, s)
  {
    var x, y := st.slots[s], st'.slots[s];
    && Evolves(x, y) && SlotShape(y)
    && (InMap in y.holders <==> InMap in x.holders)
    && (ByWorker in y.holders <==> s in st'.workers)
    && (forall k :: ByHandler(k) in y.holders <==> ByHandler(k) in x.holders || k == h)
    && (y.cell.Running? ==> y.cell == x.cell || y.cell.runner == h)
    && (x.cell.Running? ==> y.cell == x.cell || x.cell.runner == h)
    && (x.cell.Running? && x.cell.runner != h ==> (x.flow.Some? <==> y.flow.Some?))
    && (x.cell.Ready? ==> (x.flow.Some? <==> y.flow.Some?))
    && st.handlers[h].assoc == x.assoc && st.handlers[h].target == x.target
    && PcOk(st'.handlers[h].pc, h, y)
    && (s in st'.workers ==> WorkerPcOk(st'.workers[s], y))
  }

  lemma UpdateKeepsSlots(st: State, st': State, h: HandlerId, s: SlotId)
    requires Inv(st) && Updated(st, st', h, s) && UpdateOk(st, st', h, s)
    ensures SlotsOk(st')
  {
    forall r | r in st'.slots ensures SlotOk(st', r) {
      assert SlotOk(st, r);
      forall k ensures Holds(st', k, r) <==> Holds(st, k, r) || (k == h && r == s) {}
    }
  }

  lemma UpdateKeepsInv(st: State, st': State, h: HandlerId, s: SlotId)
    requires Inv(st) && Updated(st, st', h, s) && UpdateOk(st, st', h, s)
    ensures Inv(st')
  {
    UpdateKeepsSlots(st, st', h, s);
    assert HandlerOk(st, h);
    forall k | k in st'.handlers ensures HandlerOk(st', k) { assert k != h ==> HandlerOk(st, k); }
    forall r | r in st'.workers ensures WorkerOk(st', r) { assert r != s ==> WorkerOk(st, r); }
    forall a | a in st'.assocs ensures AssocOk(st', a) { assert AssocOk(st, a); }
  }

  /** A handler takes a reference to the slot it found in the map. */
  lemma KeepTake(st: State, h: HandlerId, s: SlotId)
    requires Inv(st) && h in st.handlers && st.handlers[h].pc == Lookup
    requires InFlows(st, st.handlers[h].assoc, st.handlers[h].target, s) && s in st.slots
    ensures Inv(Move(SetSlot(st, s, st.slots[s].(holders := st.slots[s].holders + {ByHandler(h)})), h, Await(s)))
  {
    assert HandlerOk(st, h) && SlotOk(st, s) && AssocOk(st, st.handlers[h].assoc);
    assert s in st.workers ==> WorkerOk(st, s);
    var y := st.slots[s].(holders := st.slots[s].holders + {ByHandler(h)});
    assert ByHandler(h) in y.holders && !Holds(st, h, s);
    UpdateKeepsInv(st, Move(SetSlot(st, s, y), h, Await(s)), h, s);
  }

  /** A handler changes its own slot's cell or flow, keeping the references as they are. */
  lemma KeepSlotUpdate(st: State, h: HandlerId, hd: Handler, s: SlotId, y: Slot)
    requires Inv(st) && Holds(st, h, s) && s in st.slots
    requires hd.assoc == st.handlers[h].assoc && hd.target == st.handlers[h].target
    requires SlotOf(hd.pc) == Some(s)
    requires Evolves(st.slots[s], y) && y.holders == st.slots[s].holders
    requires SlotShape(y) && PcOk(hd.pc, h, y)
    requires y.flow.Some? <==> st.slots[s].flow.Some?
    requires || y.cell == st.slots[s].cell
             || (st.slots[s].cell == Empty && y.cell == Running(h))
             || (st.slots[s].cell == Running(h) && y.cell.Ready?)
    ensures Inv(Put(SetSlot(st, s, y), h, hd))
  {
    assert HandlerOk(st, h) && SlotOk(st, s);
    assert s in st.workers ==> WorkerOk(st, s);
    UpdateKeepsInv(st, Put(SetSlot(st, s, y), h, hd), h, s);
  }

  /** The initialiser spawns the worker; the flow exists before the cell is set. */
  lemma KeepSpawn(st: State, h: HandlerId, s: SlotId, n: nat, index: nat)
    requires Inv(st) && HandlerReady(st, h) && st.handlers[h].pc == Spawn(s, n, index)
    ensures Inv(SpawnStep(st, h, s, n, index))
  {
    assert HandlerOk(st, h) && SlotOk(st, s);
    assert s in st.workers ==> WorkerOk(st, s);
    UpdateKeepsInv(st, SpawnStep(st, h, s, n, index), h, s);
  }

  /** A handler can insert slot `s`: its target has none, and there is room and a permit. */
  ghost predicate CanInsert(st: State, h: HandlerId, s: SlotId) {
    && HandlerReady(st, h) && st.handlers[h].pc == Lookup
    && st.handlers[h].target !in st.assocs[st.handlers[h].assoc].flows
    && |st.assocs[st.handlers[h].assoc].flows| < MAX_FLOWS_PER_ASSOCIATION && st.permits > 0
    && s !in st.slots
  }

  lemma InsertKeepsSlots(st: State, h: HandlerId, s: SlotId)
    requires Inv(st) && CanInsert(st, h, s)
    ensures SlotsOk(LookupStep(st, h, s))
  {
    var st' := LookupStep(st, h, s);
    assert HandlerOk(st, h);
    forall k ensures !Holds(st, k, s) { assert k in st.handlers ==> HandlerOk(st, k); }
    forall k, r ensures Holds(st', k, r) <==> Holds(st, k, r) || (k == h && r == s) {}
    forall r | r in st'.slots ensures SlotOk(st', r) {
      if r == s {
        assert s in st.workers ==> WorkerOk(st, s);
        assert ByHandler(h) in st'.slots[s].holders;
      } else {
        assert SlotOk(st, r);
      }
    }
  }

  lemma InsertKeepsTasks(st: State, h: HandlerId, s: SlotId)
    requires Inv(st) && CanInsert(st, h, s)
    ensures TasksOk(LookupStep(st, h, s))
  {
    var st' := LookupStep(st, h, s);
    assert HandlerOk(st, h);
    forall k | k in st'.handlers ensures HandlerOk(st', k) { assert k != h ==> HandlerOk(st, k); }
    forall r | r in st'.workers ensures WorkerOk(st', r) { assert WorkerOk(st, r); }
  }

  /** A handler inserts a fresh slot, paying for it with a permit. */
  lemma KeepInsert(st: State, h: HandlerId, s: SlotId)
    requires Inv(st) && CanInsert(st, h, s)
    ensures Inv(LookupStep(st, h, s))
  {
    var st' := LookupStep(st, h, s);
    assert HandlerOk(st, h) && AssocOk(st, st.handlers[h].assoc);
    InsertKeepsSlots(st, h, s);
    InsertKeepsTasks(st, h, s);
    forall b | b in st'.assocs ensures AssocOk(st', b) { assert AssocOk(st, b); }
  }

  /** A handler that holds no slot returns. */
  lemma KeepFinish(st: State, h: HandlerId)
    requires Inv(st) && h in st.handlers && SlotOf(st.handlers[h].pc).None?
    ensures Inv(Finish(st, h))
  {
    var st' := Finish(st, h);
    MapMinus(st.handlers, h);
    forall s | s in st'.slots ensures SlotOk(st', s) {
      assert SlotOk(st, s);
      forall k ensures Holds(st', k, s) <==> Holds(st, k, s) {}
    }
    forall k | k in st'.handlers ensures HandlerOk(st', k) { assert HandlerOk(st, k); }
    forall s | s in st'.workers ensures WorkerOk(st', s) { assert WorkerOk(st, s); }
    forall a | a in st'.assocs ensures AssocOk(st', a) { assert AssocOk(st, a); }
  }

  lemma AssocKeepsSlots(st: State, a: AssocId, asn: Assoc)
    requires Inv(st) && a in st.assocs
    requires asn.flows == st.assocs[a].flows
    requires st.assocs[a].endpoint.Some? ==> asn.endpoint.Some?
    ensures SlotsOk(st.(assocs := st.assocs[a := asn]))
  {
    var st' := st.(assocs := st.assocs[a := asn]);
    forall s | s in st'.slots ensures SlotOk(st', s) {
      assert SlotOk(st, s);
      forall k ensures Holds(st', k, s) <==> Holds(st, k, s) {}
    }
  }

  /** One association changes in fields other than `flows`. */
  lemma KeepAssoc(st: State, a: AssocId, asn: Assoc)
    requires Inv(st) && a in st.assocs
    requires asn.flows == st.assocs[a].flows
    requires |asn.preferred| <= MAX_FLOWS_PER_ASSOCIATION
    requires st.assocs[a].endpoint.Some? ==> asn.endpoint.Some?
    requires EndpointFits(asn.clientIp, asn.requestedPort, asn.endpoint)
    ensures Inv(st.(assocs := st.assocs[a := asn]))
  {
    var st' := st.(assocs := st.assocs[a := asn]);
    assert AssocOk(st, a);
    AssocKeepsSlots(st, a, asn);
    forall k | k in st'.handlers ensures HandlerOk(st', k) { assert HandlerOk(st, k); }
    forall s | s in st'.workers ensures WorkerOk(st', s) { assert WorkerOk(st, s); }
    forall b | b in st'.assocs ensures AssocOk(st', b) { assert AssocOk(st, b); }
  }

  /** `remember_udp_address` evicts one entry when it has to: the bound of 128 is kept. */
  lemma RememberBound(preferred: map<Target, nat>, t: Target, index: nat, victim: Target)
    requires |preferred| <= MAX_FLOWS_PER_ASSOCIATION
    requires VictimOk(preferred, t, victim)
    ensures |RememberAddress(preferred, t, index, victim)| <= MAX_FLOWS_PER_ASSOCIATION
    ensures t in RememberAddress(preferred, t, index, victim)
    ensures RememberAddress(preferred, t, index, victim)[t] == index
    ensures forall u :: u in preferred && u != t && u != victim ==>
      u in RememberAddress(preferred, t, index, victim)
      && RememberAddress(preferred, t, index, victim)[u] == preferred[u]
    ensures t in preferred ==> RememberAddress(preferred, t, index, victim) == preferred[t := index]
  {
    if |preferred| >= MAX_FLOWS_PER_ASSOCIATION && t !in preferred { MapMinus(preferred, victim); }
  }

  lemma KeepStore(st: State, a: AssocId, t: Target, index: nat, victim: Target)
    requires Inv(st) && a in st.assocs
    requires VictimOk(st.assocs[a].preferred, t, victim)
    ensures Inv(StoreAddress(st, a, t, index, victim))
  {
    assert AssocOk(st, a);
    RememberBound(st.assocs[a].preferred, t, index, victim);
    KeepAssoc(st, a, st.assocs[a].(preferred := RememberAddress(st.assocs[a].preferred, t, index, victim)));
  }

  lemma KeepAdvance(st: State, a: AssocId, t: Target, flow: Flow, victim: Target)
    requires Inv(st) && a in st.assocs && AdvanceOk(st, a, t, flow, victim)
    ensures Inv(AdvanceAddress(st, a, t, flow, victim))
  {
    if flow.count > 1 { KeepStore(st, a, t, (flow.index + 1) % flow.count, victim); }
  }

  /** A decided slot can be taken out of its map by a task that still holds it. */
  ghost predicate CanRemove(st: State, s: SlotId) {
    && s in st.slots && st.slots[s].assoc in st.assocs
    && !Undecided(st.slots[s])
    && st.slots[s].holders != {InMap}
  }

  lemma RemoveKeepsSlots(st: State, s: SlotId)
    requires Inv(st) && CanRemove(st, s) && InFlows(st, st.slots[s].assoc, st.slots[s].target, s)
    ensures SlotsOk(RemoveFlowSlot(st, st.slots[s].assoc, st.slots[s].target, s))
  {
    var st' := RemoveFlowSlot(st, st.slots[s].assoc, st.slots[s].target, s);
    assert SlotOk(st, s);
    assert st.slots[s].holders - {InMap} != {};
    forall r | r in st'.slots ensures SlotOk(st', r) {
      assert SlotOk(st, r);
      forall k ensures Holds(st', k, r) <==> Holds(st, k, r) {}
    }
  }

  lemma RemoveKeepsTasks(st: State, s: SlotId)
    requires Inv(st) && CanRemove(st, s) && InFlows(st, st.slots[s].assoc, st.slots[s].target, s)
    ensures TasksOk(RemoveFlowSlot(st, st.slots[s].assoc, st.slots[s].target, s))
  {
    var st' := RemoveFlowSlot(st, st.slots[s].assoc, st.slots[s].target, s);
    assert st.slots[s].holders - {InMap} != {} by { assert SlotOk(st, s); }
    forall k | k in st'.handlers ensures HandlerOk(st', k) { assert HandlerOk(st, k); }
    forall r | r in st'.workers ensures WorkerOk(st', r) { assert WorkerOk(st, r); }
  }

  lemma RemoveKeepsAssocs(st: State, s: SlotId)
    requires Inv(st) && CanRemove(st, s) && InFlows(st, st.slots[s].assoc, st.slots[s].target, s)
    ensures AssocsOk(RemoveFlowSlot(st, st.slots[s].assoc, st.slots[s].target, s))
  {
    var x := st.slots[s];
    var st' := RemoveFlowSlot(st, x.assoc, x.target, s);
    assert x.holders - {InMap} != {} by { assert SlotOk(st, s); }
    MapMinus(st.assocs[x.assoc].flows, x.target);
    forall b | b in st'.assocs ensures AssocOk(st', b) { assert AssocOk(st, b); }
  }

  lemma KeepRemove(st: State, s: SlotId)
    requires Inv(st) && CanRemove(st, s)
    ensures var st' := RemoveFlowSlot(st, st.slots[s].assoc, st.slots[s].target, s);
            && Inv(st') && s in st'.slots
            && st'.handlers == st.handlers && st'.workers == st.workers
            && st'.slots[s] == st.slots[s].(holders := st.slots[s].holders - {InMap})
  {
    var x := st.slots[s];
    var st' := RemoveFlowSlot(st, x.assoc, x.target, s);
    assert SlotOk(st, s);
    if InFlows(st, x.assoc, x.target, s) {
      assert x.holders - {InMap} != {};
      RemoveKeepsSlots(st, s);
      RemoveKeepsTasks(st, s);
      RemoveKeepsAssocs(st, s);
    } else {
      assert x.holders - {InMap} == x.holders;
    }
  }

  /** A task other than the map lets go of slot `s`; the slot is not orphaned by it. */
  ghost predicate Dropped(st: State, st': State, s: SlotId, who: Holder) {
    && s in st.slots && who in st.slots[s].holders && who != InMap
    && (InMap in st.slots[s].holders ==> st.slots[s].flow.Some? && who != ByWorker)
    && (st.slots[s].cell.Running? ==> who != ByHandler(st.slots[s].cell.runner))
    && st'.assocs == st.assocs
    && st'.permits == DropHolder(st, s, who).permits && st'.slots == DropHolder(st, s, who).slots
    && st'.packets + |st'.handlers| == st.packets + |st.handlers|
    && (forall k, r :: Holds(st', k, r) <==> Holds(st, k, r) && !(who == ByHandler(k) && r == s))
    && st'.workers == (if who == ByWorker then st.workers - {s} else st.workers)
    && (forall k {:trigger k in st'.handlers} :: k in st'.handlers ==>
          && k in st.handlers
          && (st'.handlers[k] == st.handlers[k] ||
              (st'.handlers[k].assoc == st.handlers[k].assoc && SlotOf(st'.handlers[k].pc).None?)))
  }

  lemma DropKeepsSlots(st: State, st': State, s: SlotId, who: Holder)
    requires Inv(st) && Dropped(st, st', s, who)
    ensures SlotsOk(st')
  {
    assert SlotOk(st, s);
    var left := st.slots[s].holders - {who};
    forall r | r in st'.slots ensures SlotOk(st', r) {
      assert SlotOk(st, r);
      if r == s {
        forall k ensures ByHandler(k) in left <==> Holds(st', k, s) {}
      }
    }
  }

  lemma DropKeepsTasks(st: State, st': State, s: SlotId, who: Holder)
    requires Inv(st) && Dropped(st, st', s, who)
    ensures TasksOk(st')
  {
    assert SlotOk(st, s);
    var left := st.slots[s].holders - {who};
    forall k | k in st'.handlers ensures HandlerOk(st', k) {
      assert HandlerOk(st, k);
      if Holds(st', k, s) { assert ByHandler(k) in left; }
    }
    forall r | r in st'.workers ensures WorkerOk(st', r) {
      assert WorkerOk(st, r);
      if r == s { assert ByWorker in left; }
    }
  }

  lemma DropKeepsAssocs(st: State, st': State, s: SlotId, who: Holder)
    requires Inv(st) && Dropped(st, st', s, who)
    ensures AssocsOk(st')
  {
    assert SlotOk(st, s);
    var left := st.slots[s].holders - {who};
    forall a | a in st'.assocs ensures AssocOk(st', a) {
      assert AssocOk(st, a);
      if InMap in st.slots[s].holders { assert InMap in left; }
    }
  }

  lemma DropKeepsInv(st: State, st': State, s: SlotId, who: Holder)
    requires Inv(st) && Dropped(st, st', s, who)
    ensures Inv(st')
  {
    MapMinus(st.slots, s);
    DropKeepsSlots(st, st', s, who);
    DropKeepsTasks(st, st', s, who);
    DropKeepsAssocs(st, st', s, who);
  }

  lemma LeaveHolds(st: State, h: HandlerId, s: SlotId, again: bool)
    requires HandlerReady(st, h) && st.handlers[h].pc == Leave(s, again)
    ensures forall k, r :: Holds(LeaveStep(st, h, s, again), k, r) <==> Holds(st, k, r) && !(ByHandler(h) == ByHandler(k) && r == s)
  {}

  /** A handler drops its reference and goes back to the lookup or returns. */
  lemma KeepLeave(st: State, h: HandlerId, s: SlotId, again: bool)
    requires Inv(st) && HandlerReady(st, h) && st.handlers[h].pc == Leave(s, again)
    ensures Inv(LeaveStep(st, h, s, again))
  {
    LeaveHolds(st, h, s, again);
    assert HandlerOk(st, h) && SlotOk(st, s) && Holds(st, h, s);
    MapMinus(st.handlers, h);
    DropKeepsInv(st, LeaveStep(st, h, s, again), s, ByHandler(h));
  }

  /** The worker drops its reference and ends. */
  lemma KeepWorkerLeave(st: State, s: SlotId)
    requires Inv(st) && WorkerReady(st, s) && st.workers[s].pc == WLeave
    ensures Inv(DropHolder(st, s, ByWorker).(workers := st.workers - {s}))
  {
    var st' := DropHolder(st, s, ByWorker).(workers := st.workers - {s});
    assert WorkerOk(st, s) && SlotOk(st, s);
    forall k, r ensures Holds(st', k, r) <==> Holds(st, k, r) {}
    DropKeepsInv(st, st', s, ByWorker);
  }

  /** A worker moves on; at most it switches its flow off. */
  lemma KeepWork(st: State, s: SlotId, w: Worker, f: Flow)
    requires Inv(st) && WorkerReady(st, s)
    requires var g := st.slots[s].flow.value;
             f.index == g.index && f.count == g.count && (f.active ==> g.active)
    requires WorkerPcOk(w, st.slots[s].(flow := Some(f)))
    ensures Inv(PutWorker(SetFlow(st, s, f), s, w))
  {
    var st' := PutWorker(SetFlow(st, s, f), s, w);
    assert WorkerOk(st, s);
    forall r | r in st'.slots ensures SlotOk(st', r) {
      assert SlotOk(st, r);
      forall k ensures Holds(st', k, r) <==> Holds(st, k, r) {}
    }
    forall k | k in st'.handlers ensures HandlerOk(st', k) { assert HandlerOk(st, k); }
    forall r | r in st'.workers ensures WorkerOk(st', r) { assert r != s ==> WorkerOk(st, r); }
    forall a | a in st'.assocs ensures AssocOk(st', a) { assert AssocOk(st, a); }
  }

  // ---- The steps ----

  /** What a handler that holds a slot may rely on. */
  lemma HandlerKnows(st: State, h: HandlerId)
    requires Inv(st) && h in st.handlers && SlotOf(st.handlers[h].pc).Some?
    ensures var hd := st.handlers[h];
            && hd.pc.s in st.slots && Holds(st, h, hd.pc.s)
            && var x := st.slots[hd.pc.s];
            && PcOk(hd.pc, h, x) && SlotShape(x) && ByHandler(h) in x.holders
            && x.assoc == hd.assoc && x.target == hd.target && hd.assoc in st.assocs
  {
    assert HandlerOk(st, h) && SlotOk(st, st.handlers[h].pc.s) && Holds(st, h, st.handlers[h].pc.s);
  }

  lemma LookupKeepsInv(st: State, h: HandlerId, c: Choice)
    requires Inv(st) && HandlerReady(st, h) && HandlerEnabled(st, h, c) && st.handlers[h].pc.Lookup?
    ensures Inv(LookupStep(st, h, c.slot))
  {
    var hd := st.handlers[h];
    var asn := st.assocs[hd.assoc];
    if hd.target in asn.flows {
      KeepTake(st, h, asn.flows[hd.target]);
    } else if |asn.flows| >= MAX_FLOWS_PER_ASSOCIATION || st.permits == 0 {
      KeepFinish(st, h);
    } else {
      KeepInsert(st, h, c.slot);
    }
  }

  lemma AwaitKeepsInv(st: State, h: HandlerId, s: SlotId)
    requires Inv(st) && HandlerReady(st, h) && st.handlers[h].pc == Await(s) && !st.slots[s].cell.Running?
    ensures Inv(AwaitStep(st, h, s))
  {
    var hd := st.handlers[h];
    var x := st.slots[s];
    HandlerKnows(st, h);
    if x.cell.Empty? {
      KeepSlotUpdate(st, h, hd.(pc := Resolve(s)), s, x.(cell := Running(h)));
    } else {
      KeepMove(st, h, hd.(pc := Got(s)));
    }
  }

  lemma RememberKeepsInv(st: State, h: HandlerId, c: Choice)
    requires Inv(st) && HandlerReady(st, h) && HandlerEnabled(st, h, c) && st.handlers[h].pc.Remember?
    ensures Inv(HandlerStep(st, h, c))
  {
    var hd := st.handlers[h];
    HandlerKnows(st, h);
    if hd.pc.n > 1 {
      KeepStore(st, hd.assoc, hd.target, hd.pc.index, c.victim);
      KeepMove(StoreAddress(st, hd.assoc, hd.target, hd.pc.index, c.victim), h, hd.(pc := Spawn(hd.pc.s, hd.pc.n, hd.pc.index)));
    } else {
      KeepMove(st, h, hd.(pc := Spawn(hd.pc.s, hd.pc.n, hd.pc.index)));
    }
  }

  lemma PublishKeepsInv(st: State, h: HandlerId, s: SlotId, hasFlow: bool)
    requires Inv(st) && HandlerReady(st, h) && st.handlers[h].pc == Publish(s, hasFlow)
    ensures Inv(Move(SetSlot(st, s, st.slots[s].(cell := Ready(hasFlow))), h, Got(s)))
  {
    HandlerKnows(st, h);
    KeepSlotUpdate(st, h, st.handlers[h].(pc := Got(s)), s, st.slots[s].(cell := Ready(hasFlow)));
  }

  /** The steps in which a handler only moves on. */
  lemma PlainStepKeepsInv(st: State, h: HandlerId, c: Choice)
    requires Inv(st) && HandlerReady(st, h) && HandlerEnabled(st, h, c)
    requires var pc := st.handlers[h].pc;
             pc.Got? || pc.CheckAlive? || pc.Send?
    ensures Inv(HandlerStep(st, h, c))
  {
    HandlerKnows(st, h);
    KeepMove(st, h, HandlerStep(st, h, c).handlers[h]);
  }

  /** The steps in which the initialiser only moves on. */
  lemma ResolvingKeepsInv(st: State, h: HandlerId, c: Choice)
    requires Inv(st) && HandlerReady(st, h) && HandlerEnabled(st, h, c)
    requires st.handlers[h].pc.Resolve? || st.handlers[h].pc.ReadPreferred?
    ensures Inv(HandlerStep(st, h, c))
  {
    HandlerKnows(st, h);
    KeepMove(st, h, HandlerStep(st, h, c).handlers[h]);
  }

  lemma BindKeepsInv(st: State, h: HandlerId, ok: bool)
    requires Inv(st) && HandlerReady(st, h) && st.handlers[h].pc.Bind?
    ensures Inv(BindStep(st, h, st.handlers[h].pc, ok))
  {
    HandlerKnows(st, h);
    KeepMove(st, h, BindStep(st, h, st.handlers[h].pc, ok).handlers[h]);
  }

  lemma RemovalKeepsInv(st: State, h: HandlerId, c: Choice)
    requires Inv(st) && HandlerReady(st, h) && HandlerEnabled(st, h, c)
    requires st.handlers[h].pc.RemoveNone? || st.handlers[h].pc.RemoveStale? || st.handlers[h].pc.Remove?
    ensures Inv(HandlerStep(st, h, c))
  {
    var hd := st.handlers[h];
    var s := hd.pc.s;
    HandlerKnows(st, h);
    KeepRemove(st, s);
    KeepMove(RemoveFlowSlot(st, hd.assoc, hd.target, s), h, HandlerStep(st, h, c).handlers[h]);
  }

  lemma SwapKeepsInv(st: State, h: HandlerId, s: SlotId)
    requires Inv(st) && HandlerReady(st, h) && st.handlers[h].pc == Swap(s)
    ensures Inv(SwapStep(st, h, s))
  {
    var hd := st.handlers[h];
    var x := st.slots[s];
    HandlerKnows(st, h);
    if x.flow.value.active {
      assert SlotOk(st, s);
      KeepSlotUpdate(st, h, hd.(pc := Advance(s)), s, x.(flow := Some(x.flow.value.(active := false))));
    } else {
      KeepMove(st, h, hd.(pc := Cancel(s)));
    }
  }

  lemma AdvanceKeepsInv(st: State, h: HandlerId, c: Choice)
    requires Inv(st) && HandlerReady(st, h) && HandlerEnabled(st, h, c) && st.handlers[h].pc.Advance?
    ensures Inv(HandlerStep(st, h, c))
  {
    var hd := st.handlers[h];
    var flow := st.slots[hd.pc.s].flow.value;
    HandlerKnows(st, h);
    KeepAdvance(st, hd.assoc, hd.target, flow, c.victim);
    KeepMove(AdvanceAddress(st, hd.assoc, hd.target, flow, c.victim), h, hd.(pc := Cancel(hd.pc.s)));
  }

  lemma CancelKeepsInv(st: State, h: HandlerId, s: SlotId)
    requires Inv(st) && HandlerReady(st, h) && st.handlers[h].pc == Cancel(s)
    ensures Inv(Move(SetFlow(st, s, st.slots[s].flow.value.(stopped := true)), h, Remove(s)))
  {
    HandlerKnows(st, h);
    var f := st.slots[s].flow.value.(stopped := true);
    KeepSlotUpdate(st, h, st.handlers[h].(pc := Remove(s)), s, st.slots[s].(flow := Some(f)));
  }

  lemma StartKeepsInv(st: State, h: HandlerId)
    requires Inv(st) && HandlerReady(st, h) && st.handlers[h].pc.Start?
    ensures Inv(if st.assocs[st.handlers[h].assoc].alive then Move(st, h, Lookup) else Finish(st, h))
  {
    if st.assocs[st.handlers[h].assoc].alive { KeepMove(st, h, st.handlers[h].(pc := Lookup)); } else { KeepFinish(st, h); }
  }

  lemma HandlerKeepsInv(st: State, h: HandlerId, c: Choice)
    requires Inv(st) && HandlerReady(st, h) && HandlerEnabled(st, h, c)
    ensures Inv(HandlerStep(st, h, c))
  {
    match st.handlers[h].pc
    case Start => StartKeepsInv(st, h);
    case Lookup => LookupKeepsInv(st, h, c);
    case Await(s) => AwaitKeepsInv(st, h, s);
    case Resolve(_) => ResolvingKeepsInv(st, h, c);
    case ReadPreferred(_, _) => ResolvingKeepsInv(st, h, c);
    case Bind(_, _, _, _) => BindKeepsInv(st, h, c.ok);
    case Remember(_, _, _) => RememberKeepsInv(st, h, c);
    case Spawn(s, n, index) => KeepSpawn(st, h, s, n, index);
    case Publish(s, hasFlow) => PublishKeepsInv(st, h, s, hasFlow);
    case Got(_) => PlainStepKeepsInv(st, h, c);
    case RemoveNone(_) => RemovalKeepsInv(st, h, c);
    case RemoveStale(_) => RemovalKeepsInv(st, h, c);
    case CheckAlive(_) => PlainStepKeepsInv(st, h, c);
    case Send(_) => PlainStepKeepsInv(st, h, c);
    case Swap(s) => SwapKeepsInv(st, h, s);
    case Advance(_) => AdvanceKeepsInv(st, h, c);
    case Cancel(s) => CancelKeepsInv(st, h, s);
    case Remove(_) => RemovalKeepsInv(st, h, c);
    case Leave(s, again) => KeepLeave(st, h, s, again);
  }

  /** What a worker may rely on. */
  lemma WorkerKnows(st: State, s: SlotId)
    requires Inv(st) && s in st.workers
    ensures s in st.slots && WorkerPcOk(st.workers[s], st.slots[s]) && SlotShape(st.slots[s])
    ensures st.slots[s].assoc in st.assocs && st.assocs[st.slots[s].assoc].endpoint.Some?
  {
    assert WorkerOk(st, s) && SlotOk(st, s);
  }

  lemma WorkerEndKeepsInv(st: State, s: SlotId, c: Choice)
    requires Inv(st) && WorkerReady(st, s) && WorkerEnabled(st, s, c)
    requires st.workers[s].pc.WAdvance? || st.workers[s].pc.WRemove?
    ensures Inv(WorkerStep(st, s, c))
  {
    var w := st.workers[s];
    var x := st.slots[s];
    WorkerKnows(st, s);
    if w.pc.WAdvance? {
      KeepAdvance(st, x.assoc, x.target, x.flow.value, c.victim);
      var mid := AdvanceAddress(st, x.assoc, x.target, x.flow.value, c.victim);
      assert SetFlow(mid, s, x.flow.value) == mid;
      KeepWork(mid, s, w.(pc := WRemove), x.flow.value);
    } else {
      KeepRemove(st, s);
      var mid := RemoveFlowSlot(st, x.assoc, x.target, s);
      assert SetFlow(mid, s, x.flow.value) == mid;
      KeepWork(mid, s, w.(pc := WLeave), x.flow.value);
    }
  }

  lemma WorkerKeepsInv(st: State, s: SlotId, c: Choice)
    requires Inv(st) && WorkerReady(st, s) && WorkerEnabled(st, s, c)
    ensures Inv(WorkerStep(st, s, c))
  {
    var w := st.workers[s];
    var f := st.slots[s].flow.value;
    WorkerKnows(st, s);
    match w.pc
    case WAdvance => WorkerEndKeepsInv(st, s, c);
    case WRemove => WorkerEndKeepsInv(st, s, c);
    case WLeave => KeepWorkerLeave(st, s);
    case _ =>
      var w' := WorkerStep(st, s, c).workers[s];
      var f' := if w.pc.WSwap? then f.(active := false) else f;
      assert f' == f ==> SetFlow(st, s, f') == st;
      KeepWork(st, s, w', f');
  }

  lemma PacketKeepsInv(st: State, h: HandlerId, a: AssocId, t: Target, source: SocketAddr)
    requires Inv(st) && Enabled(st, Packet(h, a, t, source))
    ensures Inv(Apply(st, Packet(h, a, t, source)))
  {
    assert AssocOk(st, a);
    var bound := st.(assocs := st.assocs[a := st.assocs[a].(endpoint := Some(source))]);
    KeepAssoc(st, a, st.assocs[a].(endpoint := Some(source)));
    if st.packets != 0 {
      var st' := Apply(st, Packet(h, a, t, source));
      forall k, r ensures Holds(st', k, r) <==> Holds(bound, k, r) {}
      forall s | s in st'.slots ensures SlotOk(st', s) { assert SlotOk(bound, s); }
      forall k | k in st'.handlers ensures HandlerOk(st', k) { assert k != h ==> HandlerOk(bound, k); }
      forall s | s in st'.workers ensures WorkerOk(st', s) { assert WorkerOk(bound, s); }
      forall b | b in st'.assocs ensures AssocOk(st', b) { assert AssocOk(bound, b); }
    }
  }

  lemma AssociateKeepsInv(st: State, a: AssocId, ip: IpAddr, port: u16)
    requires Inv(st) && a !in st.assocs
    ensures Inv(Apply(st, Associate(a, ip, port)))
  {
    var st' := Apply(st, Associate(a, ip, port));
    forall k, r ensures Holds(st', k, r) <==> Holds(st, k, r) {}
    forall s | s in st'.slots ensures SlotOk(st', s) { assert SlotOk(st, s); }
    forall k | k in st'.handlers ensures HandlerOk(st', k) { assert HandlerOk(st, k); }
    forall s | s in st'.workers ensures WorkerOk(st', s) { assert WorkerOk(st, s); }
    forall b | b in st'.assocs ensures AssocOk(st', b) { assert b != a ==> AssocOk(st, b); }
  }

  /** Every step of every task keeps the invariant. */
  lemma StepKeepsInv(st: State, ev: Event)
    requires Inv(st) && Enabled(st, ev)
    ensures Inv(Apply(st, ev))
  {
    match ev
    case Associate(a, ip, port) => AssociateKeepsInv(st, a, ip, port);
    case CloseAlive(a) => assert AssocOk(st, a); KeepAssoc(st, a, st.assocs[a].(alive := false));
    case CloseStop(a) => assert AssocOk(st, a); KeepAssoc(st, a, st.assocs[a].(stopped := true));
    case Packet(h, a, t, source) => PacketKeepsInv(st, h, a, t, source);
    case Handle(h, c) => HandlerKeepsInv(st, h, c);
    case Work(s, c) => WorkerKeepsInv(st, s, c);
  }

  lemma StepOfKeepsInv(st: State, ev: Event, st': State)
    requires Inv(st) && StepOf(st, ev, st')
    ensures Inv(st')
  {
    StepKeepsInv(st, ev);
  }

  lemma EmptyServerIsOk()
    ensures Inv(INITIAL)
  {}

  /** The invariant holds in every state of every run. */
  lemma {:induction false} RunKeepsInv(r: Run, i: nat)
    requires IsRun(r) && i < |r.states|
    ensures Inv(r.states[i])
  {
    if i == 0 {
      EmptyServerIsOk();
    } else {
      RunKeepsInv(r, i - 1);
      assert Follows(r, i - 1);
      StepOfKeepsInv(r.states[i - 1], r.events[i - 1], r.states[i]);
    }
  }
}
