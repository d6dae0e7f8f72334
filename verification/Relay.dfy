/** The registry and the flow protocol together (`associate` and `udp_loop` of
    src/server.rs:552-696): a datagram goes to the association that owns its source, and the
    replies on it go back to the client that owns the key. */
module Relay {
  import opened Wrappers
  import opened Net
  import Flow = FlowModel
  import FlowFrame
  import FlowInvariant
  import FlowSafety
  import Reg = Registry

  datatype State = State(flow: Flow.State, table: Reg.Table)

  datatype Event =
    | Open(a: Flow.AssocId, clientIp: IpAddr, port: u16)                     // lines 585-605
    | Datagram(h: Flow.HandlerId, target: Target, source: SocketAddr)        // lines 662-693
    | CloseAlive(a: Flow.AssocId)                                            // lines 298, 607, 624
    | CloseStop(a: Flow.AssocId)                                             // lines 299, 608, 625
    | Unregister(a: Flow.AssocId)                                            // lines 609, 626
    | Task(ev: Flow.Event)                                                   // a handler or a worker

  const INITIAL := State(Flow.INITIAL, map[])

  /** Ids are never used again (src/server.rs:275); an association is unregistered after it has
      been closed. */
  ghost predicate Enabled(st: State, ev: Event) {
    match ev
    case Open(a, _, _) => a !in st.flow.assocs && a !in st.table
    case Datagram(h, _, _) => h !in st.flow.handlers
    case CloseAlive(a) => Flow.Enabled(st.flow, Flow.CloseAlive(a))
    case CloseStop(a) => Flow.Enabled(st.flow, Flow.CloseStop(a))
    case Unregister(a) => a in st.flow.assocs && !st.flow.assocs[a].alive
    case Task(e) => (e.Handle? || e.Work?) && Flow.Enabled(st.flow, e)
  }

  /** The registry and the flow protocol take the step together; a packet is one that the
      registry has assigned to an association. */
  ghost predicate Step(st: State, ev: Event, st': State) {
    && Enabled(st, ev)
    && match ev
       case Open(a, ip, port) =>
         if Reg.CanInsert(st.table, ip, port)
         then Flow.StepOf(st.flow, Flow.Associate(a, ip, port), st'.flow)
              && st'.table == Reg.TableInsert(st.table, a, ip, port, true)
         else st' == st
       case Datagram(h, target, source) =>
         && st'.table == Reg.TableAfterFind(st.table, source)
         && (match Reg.TableFind(st.table, source)
             case Some(a) => Flow.StepOf(st.flow, Flow.Packet(h, a, target, source), st'.flow)
             case None => st'.flow == st.flow)
       case CloseAlive(a) =>
         Flow.StepOf(st.flow, Flow.CloseAlive(a), st'.flow) && st'.table == Reg.After(st.table, Reg.Kill(a))
       case CloseStop(a) => Flow.StepOf(st.flow, Flow.CloseStop(a), st'.flow) && st'.table == st.table
       case Unregister(a) => st'.flow == st.flow && st'.table == st.table - {a}
       case Task(e) => Flow.StepOf(st.flow, e, st'.flow) && st'.table == st.table
  }

  datatype Run = Run(states: seq<State>, events: seq<Event>)

  ghost predicate Follows(r: Run, i: nat)
    requires i < |r.events| && |r.states| == |r.events| + 1
  {
    Step(r.states[i], r.events[i], r.states[i + 1])
  }

  ghost predicate IsRun(r: Run) {
    && |r.states| == |r.events| + 1
    && r.states[0] == INITIAL
    && forall i: nat {:trigger Follows(r, i)} :: i < |r.events| ==> Follows(r, i)
  }

  // ---- The two say the same ----

  function EntryOf(asn: Flow.Assoc): Reg.Entry {
    Reg.Entry(asn.clientIp, asn.requestedPort, asn.endpoint, asn.alive)
  }

  /** The registry's entries are the live view of the associations; every association that is
      not registered has been closed. */
  ghost predicate Coupled(st: State) {
    && (forall a {:trigger st.table[a]} {:trigger a in st.table} :: a in st.table ==>
          a in st.flow.assocs && st.table[a] == EntryOf(st.flow.assocs[a]))
    && (forall a {:trigger a in st.flow.assocs} :: a in st.flow.assocs && st.flow.assocs[a].alive ==> a in st.table)
  }

  ghost predicate Ok(st: State) {
    FlowInvariant.Inv(st.flow) && Reg.TableOk(st.table) && Coupled(st)
  }

  /** What the registry assigns, the flow protocol admits: the association found is alive and
      accepts the source. */
  lemma AssignedIsAdmitted(st: State, h: Flow.HandlerId, a: Flow.AssocId, target: Target, source: SocketAddr)
    requires Ok(st) && h !in st.flow.handlers && Reg.TableFind(st.table, source) == Some(a)
    ensures Flow.Enabled(st.flow, Flow.Packet(h, a, target, source))
  {
    Reg.AcceptsNeverVetoes(st.table, a, source);
    assert st.table[a] == EntryOf(st.flow.assocs[a]);
  }

  lemma TaskKeepsCoupling(st: State, ev: Flow.Event, st': State)
    requires Coupled(st) && (ev.Handle? || ev.Work?)
    requires Flow.StepOf(st.flow, ev, st'.flow) && st'.table == st.table
    ensures Coupled(st')
  {
    FlowFrame.StepFrames(st.flow, ev, st'.flow);
  }

  lemma DatagramKeepsOk(st: State, h: Flow.HandlerId, target: Target, source: SocketAddr, st': State)
    requires Ok(st) && Step(st, Datagram(h, target, source), st')
    ensures Ok(st')
  {
    Reg.OpKeepsTable(st.table, Reg.Find(source));
    match Reg.TableFind(st.table, source)
    case Some(a) =>
      FlowInvariant.StepOfKeepsInv(st.flow, Flow.Packet(h, a, target, source), st'.flow);
      assert st.table[a] == EntryOf(st.flow.assocs[a]);
    case None =>
  }

  lemma StepKeepsOk(st: State, ev: Event, st': State)
    requires Ok(st) && Step(st, ev, st')
    ensures Ok(st')
  {
    match ev
    case Open(a, ip, port) =>
      Reg.OpKeepsTable(st.table, Reg.Insert(a, ip, port));
      if Reg.CanInsert(st.table, ip, port) {
        FlowInvariant.StepOfKeepsInv(st.flow, Flow.Associate(a, ip, port), st'.flow);
      }
    case Datagram(h, target, source) => DatagramKeepsOk(st, h, target, source, st');
    case CloseAlive(a) =>
      Reg.OpKeepsTable(st.table, Reg.Kill(a));
      FlowInvariant.StepOfKeepsInv(st.flow, Flow.CloseAlive(a), st'.flow);
    case CloseStop(a) => FlowInvariant.StepOfKeepsInv(st.flow, Flow.CloseStop(a), st'.flow);
    case Unregister(a) => Reg.OpKeepsTable(st.table, Reg.Remove(a));
    case Task(e) =>
      FlowInvariant.StepOfKeepsInv(st.flow, e, st'.flow);
      TaskKeepsCoupling(st, e, st');
  }

  lemma EmptyIsOk()
    ensures Ok(INITIAL)
  {
    FlowInvariant.EmptyServerIsOk();
  }

  lemma RunIsOk(r: Run, i: nat)
    requires IsRun(r) && i < |r.states|
    ensures Ok(r.states[i])
  {
    EmptyIsOk();
    var m := 0;
    while m < i
      invariant m <= i && Ok(r.states[m])
    {
      assert Follows(r, m);
      StepKeepsOk(r.states[m], r.events[m], r.states[m + 1]);
      m := m + 1;
    }
  }

  // ---- End to end ----

  /** The registry assigns the datagram of event `j` to association `a`. */
  ghost predicate AssignedTo(r: Run, j: nat, a: Flow.AssocId)
    requires j < |r.events| && j < |r.states|
  {
    r.events[j].Datagram? && Reg.TableFind(r.states[j].table, r.events[j].source) == Some(a)
  }

  /** A worker always has an address to reply to, and as long as its association is registered
      that address is of the client that owns it: every datagram from there, or from an
      address with the same key, is the association's. */
  lemma ReplyGoesToOwner(r: Run, i: nat, s: Flow.SlotId)
    requires IsRun(r) && i < |r.states| && s in r.states[i].flow.workers
    ensures Flow.WorkerReady(r.states[i].flow, s) && Flow.ReplyTo(r.states[i].flow, s).Some?
    ensures var st, a := r.states[i], r.states[i].flow.slots[s].assoc;
            if a in st.table
            then forall source :: EndpointKey(source) == EndpointKey(Flow.ReplyTo(st.flow, s).value)
                   ==> Reg.OwnerOf(st.table, source) == Some(a)
            else !st.flow.assocs[a].alive
  {
    RunIsOk(r, i);
    var st := r.states[i];
    FlowInvariant.TasksAreReady(st.flow);
    FlowInvariant.WorkerKnows(st.flow, s);
    var a := st.flow.slots[s].assoc;
    if a in st.table {
      assert st.table[a] == EntryOf(st.flow.assocs[a]);
      assert Reg.EntryFits(st.table[a]);
      forall source | EndpointKey(source) == EndpointKey(Flow.ReplyTo(st.flow, s).value)
        ensures Reg.OwnerOf(st.table, source) == Some(a)
      {
        assert Reg.Owns(st.table, a, source);
        Reg.OwnerUnique(st.table, source, a, Reg.OwnerOf(st.table, source).value);
      }
    }
  }

  /** So workers of different registered associations never reply to the same client address. */
  lemma NoCrossTalk(r: Run, i: nat, s: Flow.SlotId, s': Flow.SlotId)
    requires IsRun(r) && i < |r.states| && s in r.states[i].flow.workers && s' in r.states[i].flow.workers
    ensures Flow.WorkerReady(r.states[i].flow, s) && Flow.WorkerReady(r.states[i].flow, s')
    ensures var st, a, a' := r.states[i], r.states[i].flow.slots[s].assoc, r.states[i].flow.slots[s'].assoc;
            a in st.table && a' in st.table && a != a' ==>
              && Flow.ReplyTo(st.flow, s).Some? && Flow.ReplyTo(st.flow, s').Some?
              && EndpointKey(Flow.ReplyTo(st.flow, s).value) != EndpointKey(Flow.ReplyTo(st.flow, s').value)
  {
    ReplyGoesToOwner(r, i, s);
    ReplyGoesToOwner(r, i, s');
  }

  /** No step takes an association's endpoint or changes its key. */
  lemma StepKeepsKey(st: State, ev: Event, st': State, a: Flow.AssocId)
    requires Ok(st) && Step(st, ev, st') && a in st.flow.assocs && st.flow.assocs[a].endpoint.Some?
    ensures a in st'.flow.assocs && st'.flow.assocs[a].endpoint.Some?
    ensures EndpointKey(st'.flow.assocs[a].endpoint.value) == EndpointKey(st.flow.assocs[a].endpoint.value)
  {
    match ev
    case Open(b, ip, port) =>
      if Reg.CanInsert(st.table, ip, port) { FlowSafety.StepKeepsBinding(st.flow, Flow.Associate(b, ip, port), st'.flow, a); }
    case Datagram(h, target, source) =>
      match Reg.TableFind(st.table, source) {
        case Some(b) => FlowSafety.StepKeepsBinding(st.flow, Flow.Packet(h, b, target, source), st'.flow, a);
        case None =>
      }
    case CloseAlive(b) => FlowSafety.StepKeepsBinding(st.flow, Flow.CloseAlive(b), st'.flow, a);
    case CloseStop(b) => FlowSafety.StepKeepsBinding(st.flow, Flow.CloseStop(b), st'.flow, a);
    case Unregister(_) =>
    case Task(e) => FlowSafety.StepKeepsBinding(st.flow, e, st'.flow, a);
  }

  lemma FirstBinding(st: State, ev: Event, st': State, a: Flow.AssocId)
    requires Step(st, ev, st') && ev.Datagram? && Reg.TableFind(st.table, ev.source) == Some(a)
    ensures a in st'.flow.assocs && st'.flow.assocs[a].endpoint == Some(ev.source)
  {}

  /** A worker replies to the key of every datagram that the registry has ever assigned to its
      association. */
  lemma RepliesToSender(r: Run, j: nat, i: nat, s: Flow.SlotId)
    requires IsRun(r) && j < i < |r.states| && s in r.states[i].flow.workers && s in r.states[i].flow.slots
    requires AssignedTo(r, j, r.states[i].flow.slots[s].assoc)
    ensures Flow.WorkerReady(r.states[i].flow, s) && Flow.ReplyTo(r.states[i].flow, s).Some?
    ensures EndpointKey(Flow.ReplyTo(r.states[i].flow, s).value) == EndpointKey(r.events[j].source)
  {
    ReplyGoesToOwner(r, i, s);
    var a := r.states[i].flow.slots[s].assoc;
    assert Follows(r, j);
    FirstBinding(r.states[j], r.events[j], r.states[j + 1], a);
    var m := j + 1;
    while m < i
      invariant j < m <= i && a in r.states[m].flow.assocs && r.states[m].flow.assocs[a].endpoint.Some?
      invariant EndpointKey(r.states[m].flow.assocs[a].endpoint.value) == EndpointKey(r.events[j].source)
    {
      assert Follows(r, m);
      RunIsOk(r, m);
      StepKeepsKey(r.states[m], r.events[m], r.states[m + 1], a);
      m := m + 1;
    }
  }
}
