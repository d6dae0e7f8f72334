/** What a step of the flow protocol may change. The frames say of each kind of task which
    parts of the state its steps leave alone and what becomes of the one slot they work on,
    so that later proofs need not look at the steps themselves. */
module FlowFrame {
  import opened Wrappers
  import opened Net
  import opened FlowModel

  /** What becomes of the flow of its slot when a handler at `pc` takes its step. */
  function FlowAt(pc: Pc, f: Option<Flow>): Option<Flow> {
    match pc
    case Spawn(_, n, index) => Some(Flow(true, false, index, n))
    case Swap(_) => if f.Some? then Some(f.value.(active := false)) else f
    case Cancel(_) => if f.Some? then Some(f.value.(stopped := true)) else f
    case _ => f
  }

  /** What becomes of the cell. */
  function CellAt(pc: Pc, h: HandlerId, cell: Cell): Cell {
    match pc
    case Await(_) => if cell.Empty? then Running(h) else cell
    case Publish(_, hasFlow) => Ready(hasFlow)
    case _ => cell
  }

  /** The slot a step of the handler works on. */
  function SlotAt(st: State, h: HandlerId, c: Choice): Option<SlotId>
    requires HandlerReady(st, h)
  {
    var hd := st.handlers[h];
    if hd.pc.Lookup? then
      var flows := st.assocs[hd.assoc].flows;
      Some(if hd.target in flows then flows[hd.target] else c.slot)
    else SlotOf(hd.pc)
  }

  /** An association keeps everything but the preferences and the entry of one target: the
      task works on slot `at`, and either takes this very slot out or puts it in. */
  predicate AssocFrame(x: Assoc, y: Assoc, t: Target, at: Option<SlotId>, removing: bool) {
    && y == x.(flows := y.flows, preferred := y.preferred)
    && (|| y.flows == x.flows
        || (removing && t in x.flows && at == Some(x.flows[t]) && y.flows == x.flows - {t})
        || (!removing && t !in x.flows && at.Some? && y.flows == x.flows[t := at.value]))
  }

  /** A slot that is there before and after a step: `f` is its flow afterwards. */
  predicate SlotFrame(x: Slot, y: Slot, f: Option<Flow>) {
    y.assoc == x.assoc && y.target == x.target && y.flow == f
  }

  /** A slot that a handler makes. */
  function NewSlot(h: HandlerId, hd: Handler): Slot {
    Slot(hd.assoc, hd.target, {InMap, ByHandler(h)}, Empty, Option.None)
  }

  /** Slots other than the one worked on stay as they are; that one keeps its place, and `f`
      is its flow afterwards. */
  ghost predicate SlotsFrame(st: State, st': State, at: Option<SlotId>, f: Option<Flow>) {
    && (forall s {:trigger st'.slots[s]} {:trigger s in st'.slots} :: s in st.slots && at != Some(s) ==>
          s in st'.slots && st'.slots[s] == st.slots[s])
    && (at.Some? && at.value in st.slots && at.value in st'.slots ==>
          SlotFrame(st.slots[at.value], st'.slots[at.value], f))
    && (forall s {:trigger s in st'.slots} :: s in st'.slots && s !in st.slots ==>
          at == Some(s) && st'.slots[s].flow == f)
  }

  lemma RemoveFrame(st: State, a: AssocId, t: Target, s: SlotId)
    requires a in st.assocs && s in st.slots
    ensures var st' := RemoveFlowSlot(st, a, t, s);
            && st'.handlers == st.handlers && st'.workers == st.workers && st'.packets == st.packets
            && a in st'.assocs && st'.assocs == st.assocs[a := st'.assocs[a]]
            && AssocFrame(st.assocs[a], st'.assocs[a], t, Some(s), true) && st'.assocs[a].preferred == st.assocs[a].preferred
            && SlotsFrame(st, st', Some(s), st.slots[s].flow)
  {}

  /** What a step of handler `h` may change. */
  ghost predicate HandlerFrame(st: State, h: HandlerId, c: Choice, st': State)
    requires HandlerReady(st, h)
  {
    var hd := st.handlers[h];
    var at := SlotAt(st, h, c);
    && st'.handlers == (if h in st'.handlers then st.handlers[h := st'.handlers[h]] else st.handlers - {h})
    && (h in st'.handlers ==> st'.handlers[h].assoc == hd.assoc && st'.handlers[h].target == hd.target)
    && st'.workers == (if hd.pc.Spawn? then st.workers[hd.pc.s := Worker(WLoop, false, false)] else st.workers)
    && hd.assoc in st'.assocs
    && st'.assocs == st.assocs[hd.assoc := st'.assocs[hd.assoc]]
    && AssocFrame(st.assocs[hd.assoc], st'.assocs[hd.assoc], hd.target, at, Removing(hd.pc))
    && (at.Some? && at.value in st'.slots ==>
          if at.value in st.slots
          then st'.slots[at.value].cell == CellAt(hd.pc, h, st.slots[at.value].cell)
          else st'.slots[at.value] == NewSlot(h, hd))
    && (!hd.pc.Remember? && !hd.pc.Advance? ==>
          st'.assocs[hd.assoc].preferred == st.assocs[hd.assoc].preferred)
    && (!hd.pc.Lookup? && !Removing(hd.pc) ==> st'.assocs[hd.assoc].flows == st.assocs[hd.assoc].flows)
    && SlotsFrame(st, st', at, if at.Some? && at.value in st.slots then FlowAt(hd.pc, st.slots[at.value].flow) else None)
  }

  /** The handler only moves on. */
  lemma MovingFrame(st: State, h: HandlerId, c: Choice)
    requires HandlerReady(st, h) && HandlerEnabled(st, h, c)
    requires var pc := st.handlers[h].pc; pc.Start? || pc.Resolve? || pc.ReadPreferred? || pc.Bind? || pc.Got? || pc.CheckAlive? || pc.Send?
    ensures HandlerFrame(st, h, c, HandlerStep(st, h, c))
  {}

  /** It looks its target up in the map. */
  lemma LookupFrame(st: State, h: HandlerId, c: Choice)
    requires HandlerReady(st, h) && HandlerEnabled(st, h, c)
    requires var pc := st.handlers[h].pc; pc.Lookup?
    ensures HandlerFrame(st, h, c, HandlerStep(st, h, c))
  {}

  /** It changes the cell or the flow of its slot. */
  lemma SlotUpdateFrame(st: State, h: HandlerId, c: Choice)
    requires HandlerReady(st, h) && HandlerEnabled(st, h, c)
    requires var pc := st.handlers[h].pc; pc.Await? || pc.Spawn? || pc.Publish? || pc.Swap? || pc.Cancel?
    ensures HandlerFrame(st, h, c, HandlerStep(st, h, c))
  {}

  /** It stores a preferred address. */
  lemma PreferenceFrame(st: State, h: HandlerId, c: Choice)
    requires HandlerReady(st, h) && HandlerEnabled(st, h, c)
    requires var pc := st.handlers[h].pc; pc.Remember? || pc.Advance?
    ensures HandlerFrame(st, h, c, HandlerStep(st, h, c))
  {}

  /** It takes its slot out of the map, if it is still there. */
  lemma RemovalFrame(st: State, h: HandlerId, c: Choice)
    requires HandlerReady(st, h) && HandlerEnabled(st, h, c)
    requires var pc := st.handlers[h].pc; Removing(pc)
    ensures HandlerFrame(st, h, c, HandlerStep(st, h, c))
  {
    var hd := st.handlers[h];
    RemoveFrame(st, hd.assoc, hd.target, hd.pc.s);
  }

  /** It drops its slot. */
  lemma LeaveFrame(st: State, h: HandlerId, c: Choice)
    requires HandlerReady(st, h) && HandlerEnabled(st, h, c)
    requires var pc := st.handlers[h].pc; pc.Leave?
    ensures HandlerFrame(st, h, c, HandlerStep(st, h, c))
  {}

  lemma HandlerFrames(st: State, h: HandlerId, c: Choice)
    requires HandlerReady(st, h) && HandlerEnabled(st, h, c)
    ensures HandlerFrame(st, h, c, HandlerStep(st, h, c))
  {
    var pc := st.handlers[h].pc;
    if pc.Lookup? { LookupFrame(st, h, c); }
    else if pc.Leave? { LeaveFrame(st, h, c); }
    else if Removing(pc) { RemovalFrame(st, h, c); }
    else if pc.Remember? || pc.Advance? { PreferenceFrame(st, h, c); }
    else if pc.Await? || pc.Spawn? || pc.Publish? || pc.Swap? || pc.Cancel? { SlotUpdateFrame(st, h, c); }
    else { MovingFrame(st, h, c); }
  }

  /** What a step of the worker of `s` may change. */
  ghost predicate WorkerFrame(st: State, s: SlotId, st': State)
    requires WorkerReady(st, s)
  {
    var x := st.slots[s];
    var pc := st.workers[s].pc;
    && st'.handlers == st.handlers
    && st'.workers == (if s in st'.workers then st.workers[s := st'.workers[s]] else st.workers - {s})
    && x.assoc in st'.assocs
    && st'.assocs == st.assocs[x.assoc := st'.assocs[x.assoc]]
    && AssocFrame(st.assocs[x.assoc], st'.assocs[x.assoc], x.target, Some(s), true)
    && (!pc.WAdvance? ==> st'.assocs[x.assoc].preferred == st.assocs[x.assoc].preferred)
    && (!pc.WRemove? ==> st'.assocs[x.assoc].flows == st.assocs[x.assoc].flows)
    && (s in st'.slots ==> st'.slots[s].cell == x.cell)
    && SlotsFrame(st, st', Some(s), if pc.WSwap? then Some(x.flow.value.(active := false)) else x.flow)
  }

  lemma WorkingFrame(st: State, s: SlotId, c: Choice)
    requires WorkerReady(st, s) && WorkerEnabled(st, s, c)
    requires var pc := st.workers[s].pc; !pc.WAdvance? && !pc.WRemove? && !pc.WLeave?
    ensures WorkerFrame(st, s, WorkerStep(st, s, c))
  {}

  lemma WorkerFrames(st: State, s: SlotId, c: Choice)
    requires WorkerReady(st, s) && WorkerEnabled(st, s, c)
    ensures WorkerFrame(st, s, WorkerStep(st, s, c))
  {
    var pc := st.workers[s].pc;
    if pc.WRemove? { RemoveFrame(st, st.slots[s].assoc, st.slots[s].target, s); }
    else if !pc.WAdvance? && !pc.WLeave? { WorkingFrame(st, s, c); }
  }

  /** What any step may change. */
  ghost predicate Framed(st: State, ev: Event, st': State)
    requires Enabled(st, ev)
  {
    match ev
    case Associate(a, ip, port) =>
      st' == st.(assocs := st.assocs[a := Assoc(ip, port, Option.None, true, false, map[], map[])])
    case CloseAlive(a) => st' == st.(assocs := st.assocs[a := st.assocs[a].(alive := false)])
    case CloseStop(a) => st' == st.(assocs := st.assocs[a := st.assocs[a].(stopped := true)])
    case Packet(h, a, t, source) =>
      && st'.slots == st.slots && st'.workers == st.workers
      && st'.assocs == st.assocs[a := st.assocs[a].(endpoint := Some(source))]
      && (st'.handlers == st.handlers || st'.handlers == st.handlers[h := Handler(a, t, 0, 0, Start)])
    case Handle(h, c) => HandlerFrame(st, h, c, st')
    case Work(s, _) => WorkerFrame(st, s, st')
  }

  lemma StepFrames(st: State, ev: Event, st': State)
    requires StepOf(st, ev, st')
    ensures Framed(st, ev, st')
  {
    match ev
    case Handle(h, c) => HandlerFrames(st, h, c);
    case Work(s, c) => WorkerFrames(st, s, c);
    case _ =>
  }
}
