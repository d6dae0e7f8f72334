/** The UDP flow protocol of src/server.rs as a transition system.

    Packet handlers (`handle_udp_packet`) and reply workers (`receive_remote`) run
    concurrently over the per-association `flows` map, the once-initialised cell of each
    flow slot, the atomic `active` flag, the cancellation tokens and two semaphores. One
    step is one lock section, one atomic access or one await point. `Apply` says what a
    step does; `Enabled` says when it can be taken. What the environment decides (which
    sockets bind, what the resolver answers, which wake-up wins a `select!`, which key a
    hash map yields first, which address an allocation gets) is carried by the event. */
module FlowModel {
  import opened Wrappers
  import opened Net

  const MAX_UDP_PACKET_TASKS := 256
  const MAX_UDP_FLOWS := 1024
  const MAX_FLOWS_PER_ASSOCIATION := 128

  type AssocId = nat
  type SlotId = nat
  type HandlerId = nat

  /** `Association`; `flows` holds one of the references to each slot in it. */
  datatype Assoc = Assoc(
    clientIp: IpAddr, requestedPort: u16, endpoint: Option<SocketAddr>,
    alive: bool, stopped: bool,
    flows: map<Target, SlotId>, preferred: map<Target, nat>)

  /** `Flow`: the part of it that other tasks can see. */
  datatype Flow = Flow(active: bool, stopped: bool, index: nat, count: nat)

  /** `OnceCell<Option<Arc<Flow>>>`: at most one initialiser runs; the result is set once. */
  datatype Cell = Empty | Running(runner: HandlerId) | Ready(hasFlow: bool)

  /** One reference (`Arc`) to a slot. */
  datatype Holder = InMap | ByHandler(h: HandlerId) | ByWorker

  /** `FlowSlot` with its reference count as the set of its references. `flow` is filled
      when the worker is spawned, which is before `cell` becomes `Ready`. */
  datatype Slot = Slot(assoc: AssocId, target: Target, holders: set<Holder>, cell: Cell, flow: Option<Flow>)

  /** Where a handler is in `handle_udp_packet`. */
  datatype Pc =
    | Start                                              // line 707: is the association alive
    | Lookup                                             // lines 714-732: lock of `flows`
    | Await(s: SlotId)                                   // line 735: `get_or_init`
    | Resolve(s: SlotId)                                 // line 736: DNS lookup
    | ReadPreferred(s: SlotId, n: nat)                   // lines 737-744
    | Bind(s: SlotId, n: nat, start: nat, offset: nat)   // lines 746-762
    | Remember(s: SlotId, n: nat, index: nat)            // lines 764-766
    | Spawn(s: SlotId, n: nat, index: nat)               // lines 767-792
    | Publish(s: SlotId, hasFlow: bool)                  // line 793: the cell is set
    | Got(s: SlotId)                                     // lines 796-800
    | RemoveNone(s: SlotId)                              // line 797
    | RemoveStale(s: SlotId)                             // lines 801-803
    | CheckAlive(s: SlotId)                              // lines 808-811
    | Send(s: SlotId)                                    // line 813
    | Swap(s: SlotId)                                    // line 817
    | Advance(s: SlotId)                                 // line 818
    | Cancel(s: SlotId)                                  // line 820
    | Remove(s: SlotId)                                  // lines 821-822
    | Leave(s: SlotId, again: bool)                      // the local `slot` goes out of scope

  datatype Handler = Handler(assoc: AssocId, target: Target, attempts: nat, stale: nat, pc: Pc)

  /** Where a worker is in `receive_remote`. */
  datatype WPc =
    | WLoop       // line 850
    | WDeadline   // lines 851-860
    | WSelect     // lines 861-874
    | WReceived   // lines 877-882
    | WReply      // lines 883-889
    | WSwap       // line 898
    | WAdvance    // line 899
    | WRemove     // line 901
    | WLeave      // the argument `slot` goes out of scope

  datatype Worker = Worker(pc: WPc, received: bool, failed: bool)

  datatype State = State(
    permits: nat, packets: nat,
    assocs: map<AssocId, Assoc>, slots: map<SlotId, Slot>,
    handlers: map<HandlerId, Handler>, workers: map<SlotId, Worker>)

  datatype Wake = AssocStopped | FlowStopped | Slept | Received(ok: bool)

  /** The environment's part of a step: the address of a new allocation, whether an
      operation succeeded, how many addresses a lookup returned, which key is evicted. */
  datatype Choice = Choice(slot: SlotId, ok: bool, count: nat, victim: Target, wake: Wake)

  datatype Event =
    | Associate(a: AssocId, clientIp: IpAddr, port: u16)               // lines 585-605
    | CloseAlive(a: AssocId)                                           // lines 298, 607, 624
    | CloseStop(a: AssocId)                                            // lines 299, 608, 625
    | Packet(h: HandlerId, a: AssocId, target: Target, source: SocketAddr) // lines 667-693
    | Handle(h: HandlerId, c: Choice)
    | Work(s: SlotId, c: Choice)

  function SlotOf(pc: Pc): Option<SlotId> {
    match pc
    case Start => None
    case Lookup => None
    case _ => Some(pc.s)
  }

  /** The handler is inside the closure given to `get_or_init`. */
  predicate Initialising(pc: Pc) {
    pc.Resolve? || pc.ReadPreferred? || pc.Bind? || pc.Remember? || pc.Spawn? || pc.Publish?
  }

  /** The lock sections that may touch an existing entry are the three calls of `remove_flow_slot`. */
  predicate Removing(pc: Pc) {
    pc.RemoveNone? || pc.RemoveStale? || pc.Remove?
  }

  predicate Holds(st: State, h: HandlerId, s: SlotId) {
    h in st.handlers && SlotOf(st.handlers[h].pc) == Some(s)
  }

  predicate InFlows(st: State, a: AssocId, t: Target, s: SlotId) {
    a in st.assocs && t in st.assocs[a].flows && st.assocs[a].flows[t] == s
  }

  // ---- Pieces of steps ----

  /** `remember_udp_address` on the map it locks. */
  function RememberAddress(preferred: map<Target, nat>, t: Target, index: nat, victim: Target): map<Target, nat> {
    if |preferred| >= MAX_FLOWS_PER_ASSOCIATION && t !in preferred
    then (preferred - {victim})[t := index]
    else preferred[t := index]
  }

  predicate VictimOk(preferred: map<Target, nat>, t: Target, victim: Target) {
    |preferred| >= MAX_FLOWS_PER_ASSOCIATION && t !in preferred ==> victim in preferred
  }

  function StoreAddress(st: State, a: AssocId, t: Target, index: nat, victim: Target): State
    requires a in st.assocs
  {
    var asn := st.assocs[a];
    st.(assocs := st.assocs[a := asn.(preferred := RememberAddress(asn.preferred, t, index, victim))])
  }

  /** `advance_udp_address`. */
  function AdvanceAddress(st: State, a: AssocId, t: Target, flow: Flow, victim: Target): State
    requires a in st.assocs
  {
    if flow.count > 1 then StoreAddress(st, a, t, (flow.index + 1) % flow.count, victim) else st
  }

  predicate AdvanceOk(st: State, a: AssocId, t: Target, flow: Flow, victim: Target)
    requires a in st.assocs
  {
    flow.count > 1 ==> VictimOk(st.assocs[a].preferred, t, victim)
  }

  /** One reference to slot `s` is dropped; the last one returns the permit. */
  function DropHolder(st: State, s: SlotId, who: Holder): State
    requires s in st.slots
  {
    var left := st.slots[s].holders - {who};
    if left == {}
    then st.(slots := st.slots - {s}, permits := st.permits + 1)
    else st.(slots := st.slots[s := st.slots[s].(holders := left)])
  }

  /** `remove_flow_slot`: the entry goes only if it still is this very slot. */
  function RemoveFlowSlot(st: State, a: AssocId, t: Target, s: SlotId): State
    requires a in st.assocs && s in st.slots
  {
    if InFlows(st, a, t, s)
    then DropHolder(st.(assocs := st.assocs[a := st.assocs[a].(flows := st.assocs[a].flows - {t})]), s, InMap)
    else st
  }

  function Put(st: State, h: HandlerId, hd: Handler): State {
    st.(handlers := st.handlers[h := hd])
  }

  function Move(st: State, h: HandlerId, pc: Pc): State
    requires h in st.handlers
  {
    Put(st, h, st.handlers[h].(pc := pc))
  }

  /** The handler returns: its packet permit is released. */
  function Finish(st: State, h: HandlerId): State {
    st.(handlers := st.handlers - {h}, packets := st.packets + 1)
  }

  function SetSlot(st: State, s: SlotId, x: Slot): State {
    st.(slots := st.slots[s := x])
  }

  function SetFlow(st: State, s: SlotId, f: Flow): State
    requires s in st.slots
  {
    SetSlot(st, s, st.slots[s].(flow := Some(f)))
  }

  function PutWorker(st: State, s: SlotId, w: Worker): State {
    st.(workers := st.workers[s := w])
  }

  // ---- The handler ----

  predicate NeedsFlow(pc: Pc) {
    pc.Swap? || pc.Advance? || pc.Cancel? || pc.Remove?
  }

  /** What a handler step needs of the state; every reachable state provides it. */
  predicate HandlerReady(st: State, h: HandlerId) {
    && h in st.handlers
    && st.handlers[h].assoc in st.assocs
    && (SlotOf(st.handlers[h].pc).Some? ==>
          var s := st.handlers[h].pc.s;
          && s in st.slots
          && st.slots[s].assoc in st.assocs
          && (NeedsFlow(st.handlers[h].pc) ==> st.slots[s].flow.Some?))
    && (st.handlers[h].pc.Lookup? ==>
          var flows := st.assocs[st.handlers[h].assoc].flows;
          st.handlers[h].target in flows ==> flows[st.handlers[h].target] in st.slots)
    && (st.handlers[h].pc.ReadPreferred? ==> st.handlers[h].pc.n > 0)
    && (st.handlers[h].pc.Bind? ==> st.handlers[h].pc.n > 0)
    && (st.handlers[h].pc.Got? && st.slots[st.handlers[h].pc.s].cell == Ready(true) ==>
          st.slots[st.handlers[h].pc.s].flow.Some?)
  }

  predicate HandlerEnabled(st: State, h: HandlerId, c: Choice)
    requires HandlerReady(st, h)
  {
    var hd := st.handlers[h];
    match hd.pc
    case Lookup => c.slot !in st.slots
    case Await(s) => !st.slots[s].cell.Running?
    case Resolve(s) => c.ok ==> c.count > 0       // src/dns.rs:71, an empty answer is an error
    case Remember(s, n, index) => n > 1 ==> VictimOk(st.assocs[hd.assoc].preferred, hd.target, c.victim)
    case Advance(s) => AdvanceOk(st, hd.assoc, hd.target, st.slots[s].flow.value, c.victim)
    case _ => true
  }

  function LookupStep(st: State, h: HandlerId, slot: SlotId): State
    requires HandlerReady(st, h) && st.handlers[h].pc.Lookup?
  {
    var hd := st.handlers[h];
    var asn := st.assocs[hd.assoc];
    if hd.target in asn.flows then
      var s := asn.flows[hd.target];
      var x := st.slots[s];
      Move(SetSlot(st, s, x.(holders := x.holders + {ByHandler(h)})), h, Await(s))
    else if |asn.flows| >= MAX_FLOWS_PER_ASSOCIATION || st.permits == 0 then
      Finish(st, h)
    else
      var x := Slot(hd.assoc, hd.target, {InMap, ByHandler(h)}, Empty, Option.None);
      Move(SetSlot(st, slot, x)
             .(permits := st.permits - 1,
               assocs := st.assocs[hd.assoc := asn.(flows := asn.flows[hd.target := slot])]),
           h, Await(slot))
  }

  function AwaitStep(st: State, h: HandlerId, s: SlotId): State
    requires HandlerReady(st, h) && s in st.slots
  {
    if st.slots[s].cell.Empty?
    then Move(SetSlot(st, s, st.slots[s].(cell := Running(h))), h, Resolve(s))
    else Move(st, h, Got(s))
  }

  function PreferredStart(asn: Assoc, t: Target, n: nat): nat
    requires n > 0
  {
    (if t in asn.preferred then asn.preferred[t] else 0) % n
  }

  function BindStep(st: State, h: HandlerId, pc: Pc, ok: bool): State
    requires HandlerReady(st, h) && pc.Bind? && pc.n > 0
  {
    if pc.offset >= pc.n then Move(st, h, Publish(pc.s, false))
    else if ok then Move(st, h, Remember(pc.s, pc.n, (pc.start + pc.offset) % pc.n))
    else Move(st, h, Bind(pc.s, pc.n, pc.start, pc.offset + 1))
  }

  function SpawnStep(st: State, h: HandlerId, s: SlotId, n: nat, index: nat): State
    requires HandlerReady(st, h) && s in st.slots
  {
    var x := st.slots[s].(holders := st.slots[s].holders + {ByWorker},
                          flow := Some(Flow(true, false, index, n)));
    Move(PutWorker(SetSlot(st, s, x), s, Worker(WLoop, false, false)), h, Publish(s, true))
  }

  function GotStep(st: State, h: HandlerId, s: SlotId): State
    requires HandlerReady(st, h) && st.handlers[h].pc == Got(s)
  {
    if st.slots[s].cell != Ready(true) then Move(st, h, RemoveNone(s))
    else if st.slots[s].flow.value.active then Move(st, h, CheckAlive(s))
    else Move(st, h, RemoveStale(s))
  }

  function SwapStep(st: State, h: HandlerId, s: SlotId): State
    requires HandlerReady(st, h) && s in st.slots && st.slots[s].flow.Some?
  {
    var f := st.slots[s].flow.value;
    if f.active then Move(SetFlow(st, s, f.(active := false)), h, Advance(s)) else Move(st, h, Cancel(s))
  }

  function LeaveStep(st: State, h: HandlerId, s: SlotId, again: bool): State
    requires HandlerReady(st, h) && s in st.slots
  {
    var dropped := DropHolder(st, s, ByHandler(h));
    if again then Move(dropped, h, Lookup) else Finish(dropped, h)
  }

  function HandlerStep(st: State, h: HandlerId, c: Choice): State
    requires HandlerReady(st, h)
  {
    var hd := st.handlers[h];
    var asn := st.assocs[hd.assoc];
    match hd.pc
    case Start => if asn.alive then Move(st, h, Lookup) else Finish(st, h)
    case Lookup => LookupStep(st, h, c.slot)
    case Await(s) => AwaitStep(st, h, s)
    case Resolve(s) => Move(st, h, if c.ok && c.count > 0 then ReadPreferred(s, c.count) else Publish(s, false))
    case ReadPreferred(s, n) => Move(st, h, Bind(s, n, PreferredStart(asn, hd.target, n), 0))
    case Bind(_, _, _, _) => BindStep(st, h, hd.pc, c.ok)
    case Remember(s, n, index) =>
      Move(if n > 1 then StoreAddress(st, hd.assoc, hd.target, index, c.victim) else st, h, Spawn(s, n, index))
    case Spawn(s, n, index) => SpawnStep(st, h, s, n, index)
    case Publish(s, hasFlow) => Move(SetSlot(st, s, st.slots[s].(cell := Ready(hasFlow))), h, Got(s))
    case Got(s) => GotStep(st, h, s)
    case RemoveNone(s) => Move(RemoveFlowSlot(st, hd.assoc, hd.target, s), h, Leave(s, false))
    case RemoveStale(s) =>
      Put(RemoveFlowSlot(st, hd.assoc, hd.target, s), h,
          hd.(stale := hd.stale + 1, pc := Leave(s, hd.stale + 1 <= 2)))
    case CheckAlive(s) =>
      if asn.alive then Put(st, h, hd.(attempts := hd.attempts + 1, pc := Send(s))) else Move(st, h, Leave(s, false))
    case Send(s) => Move(st, h, if c.ok then Leave(s, false) else Swap(s))
    case Swap(s) => SwapStep(st, h, s)
    case Advance(s) => Move(AdvanceAddress(st, hd.assoc, hd.target, st.slots[s].flow.value, c.victim), h, Cancel(s))
    case Cancel(s) => Move(SetFlow(st, s, st.slots[s].flow.value.(stopped := true)), h, Remove(s))
    case Remove(s) =>
      Move(RemoveFlowSlot(st, hd.assoc, hd.target, s), h,
           Leave(s, hd.attempts < st.slots[s].flow.value.count))
    case Leave(s, again) => LeaveStep(st, h, s, again)
  }

  // ---- The worker ----

  predicate WorkerReady(st: State, s: SlotId) {
    s in st.workers && s in st.slots && st.slots[s].flow.Some? && st.slots[s].assoc in st.assocs
  }

  predicate WorkerEnabled(st: State, s: SlotId, c: Choice)
    requires WorkerReady(st, s)
  {
    match st.workers[s].pc
    case WSelect =>
      && (c.wake.AssocStopped? ==> st.assocs[st.slots[s].assoc].stopped)
      && (c.wake.FlowStopped? ==> st.slots[s].flow.value.stopped)
    case WAdvance => AdvanceOk(st, st.slots[s].assoc, st.slots[s].target, st.slots[s].flow.value, c.victim)
    case _ => true
  }

  function WorkerSwap(st: State, s: SlotId): State
    requires WorkerReady(st, s)
  {
    var f := st.slots[s].flow.value;
    var w := st.workers[s];
    if f.active
    then PutWorker(SetFlow(st, s, f.(active := false)), s, w.(pc := if w.failed then WAdvance else WRemove))
    else PutWorker(st, s, w.(pc := WRemove))
  }

  /** At `WDeadline` `c.ok` is the outcome of the deadline test of lines 851-858, whose timing is
      the subject of module `FlowExpiry`. */
  function WorkerStep(st: State, s: SlotId, c: Choice): State
    requires WorkerReady(st, s)
  {
    var w := st.workers[s];
    var x := st.slots[s];
    var alive := st.assocs[x.assoc].alive;
    match w.pc
    case WLoop => PutWorker(st, s, w.(pc := if alive then WDeadline else WSwap))
    case WDeadline => PutWorker(st, s, if c.ok then Worker(WSwap, w.received, !w.received) else w.(pc := WSelect))
    case WSelect =>
      PutWorker(st, s,
        match c.wake
        case AssocStopped => w.(pc := WSwap)
        case FlowStopped => w.(pc := WSwap)
        case Slept => w.(pc := WLoop)
        case Received(ok) => if ok then w.(pc := WReceived) else Worker(WSwap, w.received, true))
    case WReceived =>
      PutWorker(st, s, if alive then Worker(WReply, true, w.failed) else w.(pc := WSwap))
    case WReply => PutWorker(st, s, w.(pc := WLoop))
    case WSwap => WorkerSwap(st, s)
    case WAdvance =>
      PutWorker(AdvanceAddress(st, x.assoc, x.target, x.flow.value, c.victim), s, w.(pc := WRemove))
    case WRemove => PutWorker(RemoveFlowSlot(st, x.assoc, x.target, s), s, w.(pc := WLeave))
    case WLeave => DropHolder(st, s, ByWorker).(workers := st.workers - {s})
  }

  /** Where the worker's datagram goes (lines 883-888), if it is about to send one. */
  function ReplyTo(st: State, s: SlotId): Option<SocketAddr>
    requires WorkerReady(st, s)
  {
    st.assocs[st.slots[s].assoc].endpoint
  }

  // ---- All events ----

  predicate Enabled(st: State, ev: Event) {
    match ev
    case Associate(a, _, _) => a !in st.assocs
    case CloseAlive(a) => a in st.assocs
    case CloseStop(a) => a in st.assocs && !st.assocs[a].alive
    case Packet(h, a, _, source) =>
      && h !in st.handlers
      && a in st.assocs
      && st.assocs[a].alive
      && Accepts(st.assocs[a].clientIp, st.assocs[a].requestedPort, st.assocs[a].endpoint, source)
    case Handle(h, c) => HandlerReady(st, h) && HandlerEnabled(st, h, c)
    case Work(s, c) => WorkerReady(st, s) && WorkerEnabled(st, s, c)
  }

  function Apply(st: State, ev: Event): State
    requires Enabled(st, ev)
  {
    match ev
    case Associate(a, ip, port) =>
      st.(assocs := st.assocs[a := Assoc(ip, port, Option.None, true, false, map[], map[])])
    case CloseAlive(a) => st.(assocs := st.assocs[a := st.assocs[a].(alive := false)])
    case CloseStop(a) => st.(assocs := st.assocs[a := st.assocs[a].(stopped := true)])
    case Packet(h, a, t, source) =>
      var bound := st.(assocs := st.assocs[a := st.assocs[a].(endpoint := Some(source))]);
      if st.packets == 0 then bound
      else Put(bound.(packets := st.packets - 1), h, Handler(a, t, 0, 0, Start))
    case Handle(h, c) => HandlerStep(st, h, c)
    case Work(s, c) => WorkerStep(st, s, c)
  }

  const INITIAL := State(MAX_UDP_FLOWS, MAX_UDP_PACKET_TASKS, map[], map[], map[], map[])

  /** The step `ev` leads from `st` to `st'`. */
  predicate StepOf(st: State, ev: Event, st': State) {
    Enabled(st, ev) && st' == Apply(st, ev)
  }

  /** A run of the system: `states[i + 1]` follows from `states[i]` by `events[i]`. */
  datatype Run = Run(states: seq<State>, events: seq<Event>)

  /** Event `i` of the run is a step. */
  ghost predicate Follows(r: Run, i: nat)
    requires i < |r.events| && |r.states| == |r.events| + 1
  {
    StepOf(r.states[i], r.events[i], r.states[i + 1])
  }

  ghost predicate IsRun(r: Run) {
    && |r.states| == |r.events| + 1
    && r.states[0] == INITIAL
    && forall i: nat {:trigger Follows(r, i)} :: i < |r.events| ==> Follows(r, i)
  }
}
