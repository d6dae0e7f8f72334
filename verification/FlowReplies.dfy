/** What becomes of a datagram that comes back (src/server.rs:850-902): the worker relays each
    one it takes, exactly once, and leaves its loop only for one of the causes of the source. */
module FlowReplies {
  import opened Wrappers
  import opened FlowModel
  import opened FlowFrame
  import opened FlowInvariant
  import opened FlowHandover

  /** The socket of the flow yields a datagram (lines 861-877). */
  predicate Arrives(st: State, ev: Event, s: SlotId) {
    ev.Work? && ev.s == s && s in st.workers && st.workers[s].pc.WSelect? && ev.c.wake == Received(true)
  }

  /** The worker sends it on to the client (lines 883-888). */
  predicate Relays(st: State, ev: Event, s: SlotId) {
    ev.Work? && ev.s == s && WorkerReady(st, s) && st.workers[s].pc.WReply? && ReplyTo(st, s).Some?
  }

  /** How many datagrams have arrived for the worker of `s` since it was spawned. */
  ghost function Arrivals(r: Run, i: nat, s: SlotId): nat
    requires IsRun(r) && i < |r.states|
  {
    if i == 0 || s !in r.states[i - 1].workers || s !in r.states[i].workers then 0
    else Arrivals(r, i - 1, s) + (if Arrives(r.states[i - 1], r.events[i - 1], s) then 1 else 0)
  }

  /** How many it has sent on to the client. */
  ghost function Relayed(r: Run, i: nat, s: SlotId): nat
    requires IsRun(r) && i < |r.states|
  {
    if i == 0 || s !in r.states[i - 1].workers || s !in r.states[i].workers then 0
    else Relayed(r, i - 1, s) + (if Relays(r.states[i - 1], r.events[i - 1], s) then 1 else 0)
  }

  /** Where the worker is and what it has received, taken and sent. */
  predicate InStep(pc: WPc, arrivals: nat, taken: nat, relayed: nat) {
    && taken == relayed + (if pc.WReply? then 1 else 0)
    && (if AtEnd(pc) then taken <= arrivals <= taken + 1 else arrivals == taken + (if pc.WReceived? then 1 else 0))
  }

  /** The causes for which the worker leaves its loop. */
  predicate Cause(st: State, ev: Event, s: SlotId)
    requires WorkerReady(st, s)
  {
    var w, asn, flow := st.workers[s], st.assocs[st.slots[s].assoc], st.slots[s].flow.value;
    && ev.Work? && ev.s == s
    && (// the association is closed (lines 850, 878)
        || ((w.pc.WLoop? || w.pc.WReceived?) && !asn.alive)
        // the deadline has passed (lines 855-858)
        || (w.pc.WDeadline? && ev.c.ok)
        // the association or the flow is stopped, or the socket reports an error (lines 863-864, 891-894)
        || (w.pc.WSelect? && (|| (ev.c.wake.AssocStopped? && asn.stopped)
                              || (ev.c.wake.FlowStopped? && flow.stopped)
                              || ev.c.wake == Received(false))))
  }

  function Hit(b: bool): nat {
    if b then 1 else 0
  }

  lemma OwnStepInStep(st: State, s: SlotId, c: Choice, arrivals: nat, taken: nat, relayed: nat)
    requires WorkerReady(st, s) && WorkerEnabled(st, s, c) && s in WorkerStep(st, s, c).workers
    requires ReplyTo(st, s).Some? && InStep(st.workers[s].pc, arrivals, taken, relayed)
    ensures InStep(WorkerStep(st, s, c).workers[s].pc, arrivals + Hit(Arrives(st, Work(s, c), s)),
                   taken + Hit(TakesReply(st, Work(s, c), s)), relayed + Hit(Relays(st, Work(s, c), s)))
    ensures AtEnd(WorkerStep(st, s, c).workers[s].pc) <==> AtEnd(st.workers[s].pc) || Cause(st, Work(s, c), s)
  {}

  /** Any step: only the worker itself changes its place. */
  lemma StepInStep(st: State, ev: Event, st': State, s: SlotId, arrivals: nat, taken: nat, relayed: nat)
    requires Inv(st) && StepOf(st, ev, st') && s in st.workers && s in st'.workers
    requires InStep(st.workers[s].pc, arrivals, taken, relayed)
    ensures WorkerReady(st, s)
    ensures InStep(st'.workers[s].pc, arrivals + Hit(Arrives(st, ev, s)), taken + Hit(TakesReply(st, ev, s)),
                   relayed + Hit(Relays(st, ev, s)))
    ensures AtEnd(st'.workers[s].pc) <==> AtEnd(st.workers[s].pc) || Cause(st, ev, s)
  {
    TasksAreReady(st);
    WorkerKnows(st, s);
    if ev.Work? && ev.s == s {
      OwnStepInStep(st, s, ev.c, arrivals, taken, relayed);
    } else {
      StepFrames(st, ev, st');
      NoSecondSpawn(st, ev, s);
    }
  }

  /** A worker that was not there a step ago is at the top of its loop. */
  lemma NewWorker(st: State, ev: Event, st': State, s: SlotId)
    requires StepOf(st, ev, st') && s !in st.workers && s in st'.workers
    ensures st'.workers[s] == Worker(WLoop, false, false)
  {
    StepFrames(st, ev, st');
  }

  lemma RunInStep(r: Run, m: nat, s: SlotId)
    requires IsRun(r) && m < |r.events| && s in r.states[m + 1].workers
    requires s in r.states[m].workers ==> InStep(r.states[m].workers[s].pc, Arrivals(r, m, s), Replies(r, m, s), Relayed(r, m, s))
    ensures InStep(r.states[m + 1].workers[s].pc, Arrivals(r, m + 1, s), Replies(r, m + 1, s), Relayed(r, m + 1, s))
  {
    assert Follows(r, m);
    RunKeepsInv(r, m);
    if s in r.states[m].workers {
      StepInStep(r.states[m], r.events[m], r.states[m + 1], s, Arrivals(r, m, s), Replies(r, m, s), Relayed(r, m, s));
    } else {
      NewWorker(r.states[m], r.events[m], r.states[m + 1], s);
    }
  }

  /** In every state of every run: of the datagrams that have arrived for a worker it has sent on
      every one to the client, but for the one it is just handling, and but for one that
      arrived when the association was closed. */
  lemma {:induction false} EveryReplyIsRelayed(r: Run, i: nat, s: SlotId)
    requires IsRun(r) && i < |r.states| && s in r.states[i].workers
    ensures var pc := r.states[i].workers[s].pc;
            && Replies(r, i, s) == Relayed(r, i, s) + (if pc.WReply? then 1 else 0)
            && (!AtEnd(pc) ==> Arrivals(r, i, s) == Relayed(r, i, s) + (if pc.WReceived? || pc.WReply? then 1 else 0))
            && (AtEnd(pc) ==> Relayed(r, i, s) <= Arrivals(r, i, s) <= Relayed(r, i, s) + 1)
  {
    if i == 0 {
    } else {
      if s in r.states[i - 1].workers { EveryReplyIsRelayed(r, i - 1, s); }
      RunInStep(r, i - 1, s);
    }
  }

  /** A worker leaves its loop exactly at an event with one of the causes. */
  lemma LeavesForCause(r: Run, i: nat, s: SlotId)
    requires IsRun(r) && i < |r.events| && s in r.states[i].workers && !AtEnd(r.states[i].workers[s].pc)
    ensures WorkerReady(r.states[i], s) && s in r.states[i + 1].workers
    ensures AtEnd(r.states[i + 1].workers[s].pc) <==> Cause(r.states[i], r.events[i], s)
  {
    assert Follows(r, i);
    RunKeepsInv(r, i);
    var st, ev, st' := r.states[i], r.events[i], r.states[i + 1];
    EveryReplyIsRelayed(r, i, s);
    TasksAreReady(st);
    StepFrames(st, ev, st');
    if ev.Work? && ev.s == s && s !in st'.workers { EndsWhenDone(st, s, ev.c); }
    StepInStep(st, ev, st', s, Arrivals(r, i, s), Replies(r, i, s), Relayed(r, i, s));
  }

  // ---- Where the datagrams go ----

  /** A datagram has come in for association `a`. */
  predicate ComesIn(ev: Event, a: AssocId) {
    ev.Packet? && ev.a == a
  }

  lemma EndpointMoves(st: State, ev: Event, st': State, a: AssocId)
    requires StepOf(st, ev, st') && a in st'.assocs && st'.assocs[a].endpoint.Some?
    ensures if ComesIn(ev, a) then st'.assocs[a].endpoint == Some(ev.source)
            else a in st.assocs && st'.assocs[a].endpoint == st.assocs[a].endpoint
  {
    StepFrames(st, ev, st');
  }

  /** The endpoint of an association is the source of the last datagram that came in for it. */
  lemma {:induction false} EndpointIsLastSource(r: Run, i: nat, a: AssocId) returns (e: nat)
    requires IsRun(r) && i < |r.states| && a in r.states[i].assocs && r.states[i].assocs[a].endpoint.Some?
    ensures e < i && ComesIn(r.events[e], a) && r.states[i].assocs[a].endpoint == Some(r.events[e].source)
    ensures forall m :: e < m < i ==> !ComesIn(r.events[m], a)
  {
    assert i > 0;
    assert Follows(r, i - 1);
    EndpointMoves(r.states[i - 1], r.events[i - 1], r.states[i], a);
    e := i - 1;
    if !ComesIn(r.events[e], a) {
      e := EndpointIsLastSource(r, i - 1, a);
    }
  }

  /** A worker that sends a datagram on sends it to the very address from which the last datagram
      of its client came. */
  lemma RelaysToLastSource(r: Run, i: nat, s: SlotId) returns (e: nat)
    requires IsRun(r) && i < |r.events| && Relays(r.states[i], r.events[i], s)
    ensures e < i && ComesIn(r.events[e], r.states[i].slots[s].assoc)
    ensures ReplyTo(r.states[i], s) == Some(r.events[e].source)
    ensures forall m :: e < m < i ==> !ComesIn(r.events[m], r.states[i].slots[s].assoc)
  {
    RunKeepsInv(r, i);
    WorkerKnows(r.states[i], s);
    e := EndpointIsLastSource(r, i, r.states[i].slots[s].assoc);
  }
}
