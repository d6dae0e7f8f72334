/** What becomes of a datagram (src/server.rs:667-826): it gets a handler of its own unless there
    are too many; the handler ends exactly when it has sent it once, or for one of the reasons of
    the source, and it sends only after it has found the flow active and the association alive. */
module FlowDelivery {
  import opened Wrappers
  import opened Net
  import opened FlowModel
  import opened FlowFrame
  import opened FlowInvariant
  import opened FlowSafety
  import opened FlowAdvance
  import opened FlowTermination

  /** Handler `h` is there from state `e` to state `i`. */
  ghost predicate Stays(r: Run, e: nat, i: nat, h: HandlerId)
    requires i < |r.states|
  {
    forall m :: e <= m <= i ==> h in r.states[m].handlers
  }

  // ---- Which handlers there are ----

  /** A datagram gets a handler that is to bring it to its target, unless 256 are at work: then
      it is dropped. Either way the association is bound to its source. */
  lemma PacketIsTaken(r: Run, i: nat)
    requires IsRun(r) && i < |r.events| && r.events[i].Packet?
    ensures var st, st', ev := r.states[i], r.states[i + 1], r.events[i];
            && st'.handlers == (if |st.handlers| < 256
                                then st.handlers[ev.h := Handler(ev.a, ev.target, 0, 0, Start)]
                                else st.handlers)
            && ev.a in st'.assocs && st'.assocs[ev.a].endpoint == Some(ev.source)
  {
    assert Follows(r, i);
    RunKeepsInv(r, i);
  }

  lemma ComesWithPacket(st: State, ev: Event, st': State, h: HandlerId)
    requires StepOf(st, ev, st') && h in st'.handlers
    ensures if h in st.handlers then st'.handlers[h].assoc == st.handlers[h].assoc && st'.handlers[h].target == st.handlers[h].target
            else ev.Packet? && ev.h == h && ev.a == st'.handlers[h].assoc && ev.target == st'.handlers[h].target
  {
    StepFrames(st, ev, st');
  }

  /** Each handler is there for one datagram, and works for its association and its target. */
  lemma {:induction false} HandlerHasPacket(r: Run, i: nat, h: HandlerId) returns (e: nat)
    requires IsRun(r) && i < |r.states| && h in r.states[i].handlers
    ensures e < i && r.events[e].Packet? && r.events[e].h == h && Stays(r, e + 1, i, h)
    ensures r.events[e].a == r.states[i].handlers[h].assoc && r.events[e].target == r.states[i].handlers[h].target
  {
    assert i > 0;
    assert Follows(r, i - 1);
    ComesWithPacket(r.states[i - 1], r.events[i - 1], r.states[i], h);
    if h in r.states[i - 1].handlers {
      e := HandlerHasPacket(r, i - 1, h);
    } else {
      e := i - 1;
    }
  }

  // ---- When an association is closed ----

  ghost predicate Happens(r: Run, i: nat, ev: Event)
    requires i <= |r.events|
  {
    exists m {:trigger r.events[m]} :: 0 <= m < i && r.events[m] == ev
  }

  lemma StepCloses(st: State, ev: Event, st': State, a: AssocId)
    requires StepOf(st, ev, st')
    ensures a in st.assocs ==> a in st'.assocs
    ensures a in st.assocs ==> (st'.assocs[a].alive <==> st.assocs[a].alive && ev != CloseAlive(a))
    ensures a in st.assocs ==> (st'.assocs[a].stopped <==> st.assocs[a].stopped || ev == CloseStop(a))
    ensures a !in st.assocs && a in st'.assocs ==> st'.assocs[a].alive && !st'.assocs[a].stopped
    ensures a !in st.assocs ==> ev != CloseAlive(a) && ev != CloseStop(a)
  {
    StepFrames(st, ev, st');
  }

  lemma HappensByNow(r: Run, i: nat, ev: Event)
    requires i < |r.events|
    ensures Happens(r, i + 1, ev) <==> Happens(r, i, ev) || r.events[i] == ev
  {}

  /** An association is alive exactly until it is closed, and its token is cancelled exactly once
      it has been stopped; neither is ever undone. */
  lemma {:induction false} ClosedForGood(r: Run, i: nat, a: AssocId)
    requires IsRun(r) && i < |r.states|
    ensures a in r.states[i].assocs ==>
      && (r.states[i].assocs[a].alive <==> !Happens(r, i, CloseAlive(a)))
      && (r.states[i].assocs[a].stopped <==> Happens(r, i, CloseStop(a)))
    ensures a !in r.states[i].assocs ==> !Happens(r, i, CloseAlive(a)) && !Happens(r, i, CloseStop(a))
  {
    if i == 0 {
    } else {
      ClosedForGood(r, i - 1, a);
      assert Follows(r, i - 1);
      StepCloses(r.states[i - 1], r.events[i - 1], r.states[i], a);
      HappensByNow(r, i - 1, CloseAlive(a));
      HappensByNow(r, i - 1, CloseStop(a));
    }
  }

  // ---- The counters are what they are called ----

  /** The counters of a handler and what has happened to it. */
  predicate CountersFit(hd: Handler, stale: nat, failed: nat, sent: nat) {
    && hd.stale == stale
    && hd.attempts == failed + sent + (if hd.pc.Send? then 1 else 0)
    && (sent == 0 || (sent == 1 && hd.pc.Leave? && !hd.pc.again))
  }

  lemma MovesCount(hd: Handler, hd': Handler, c: Choice, count: nat, stale: nat, failed: nat, sent: nat)
    requires Moves(hd, hd', c, count) && CountersFit(hd, stale, failed, sent)
    ensures CountersFit(hd', stale + (if hd.pc.RemoveStale? then 1 else 0),
                        failed + (if hd.pc.Send? && !c.ok then 1 else 0), sent + (if hd.pc.Send? && c.ok then 1 else 0))
  {}

  function Add(st: State, ev: Event, h: HandlerId, what: Tally): nat {
    if Counts(st, ev, h, what) then 1 else 0
  }

  lemma StepCounts(st: State, ev: Event, st': State, h: HandlerId, stale: nat, failed: nat, sent: nat)
    requires Inv(st) && StepOf(st, ev, st') && h in st.handlers && h in st'.handlers
    requires CountersFit(st.handlers[h], stale, failed, sent)
    ensures CountersFit(st'.handlers[h], stale + Add(st, ev, h, Stale), failed + Add(st, ev, h, Failed), sent + Add(st, ev, h, Sent))
  {
    if ev.Handle? && ev.h == h {
      HandlerMoves(st, h, ev.c, st');
      MovesCount(st.handlers[h], st'.handlers[h], ev.c, FlowCount(st, h), stale, failed, sent);
    } else {
      OtherStepKeeps(st, ev, st', h);
    }
  }

  /** In every run `stale_retries` is the number of switched-off flows the handler has met, and
      `attempts` the number of its sends, the one in progress included. */
  lemma {:induction false} CountersCount(r: Run, i: nat, h: HandlerId)
    requires IsRun(r) && i < |r.states| && h in r.states[i].handlers
    ensures CountersFit(r.states[i].handlers[h], Total(r, i, h, Stale), Total(r, i, h, Failed), Total(r, i, h, Sent))
  {
    if i == 0 {
    } else {
      assert Follows(r, i - 1);
      RunKeepsInv(r, i - 1);
      if h in r.states[i - 1].handlers {
        CountersCount(r, i - 1, h);
        StepCounts(r.states[i - 1], r.events[i - 1], r.states[i], h,
                   Total(r, i - 1, h, Stale), Total(r, i - 1, h, Failed), Total(r, i - 1, h, Sent));
      } else {
        NewHandler(r.states[i - 1], r.events[i - 1], r.states[i], h);
      }
    }
  }

  // ---- Why a handler ends ----

  /** At event `e` handler `h` has a reason to end without having sent. */
  ghost predicate Reason(r: Run, e: nat, h: HandlerId)
    requires IsRun(r) && e < |r.events|
  {
    var st, ev := r.states[e], r.events[e];
    && ev.Handle? && ev.h == h && h in st.handlers && st.handlers[h].assoc in st.assocs
    && var pc, asn := st.handlers[h].pc, st.assocs[st.handlers[h].assoc];
       // the association is closed (lines 707, 808)
       || ((pc.Start? || pc.CheckAlive?) && !asn.alive)
       // the target has no slot and can get none (lines 718-725)
       || (pc.Lookup? && st.handlers[h].target !in asn.flows
             && (|asn.flows| >= 128 || st.permits == 0))
       // its slot was left without a flow (lines 796-799)
       || (pc.Got? && pc.s in st.slots && st.slots[pc.s].cell == Ready(false))
       // this is the third switched-off flow it meets (lines 801-806)
       || (pc.RemoveStale? && Spent(st, pc.s) && TotalWithNext(r, e, h, Stale) >= 3)
       // as many of its sends have failed as its flow has addresses (line 823)
       || (pc.Remove? && Spent(st, pc.s) && Total(r, e, h, Failed) >= st.slots[pc.s].flow.value.count)
  }

  /** It has nothing left to do but to let go of its slot. */
  predicate Finishing(pc: Pc) {
    pc.RemoveNone? || (pc.Leave? && !pc.again)
  }

  /** The reason by the handler's own counters. */
  ghost predicate HasReason(st: State, h: HandlerId)
    requires HandlerReady(st, h)
  {
    var hd := st.handlers[h];
    var pc, asn := hd.pc, st.assocs[hd.assoc];
    || ((pc.Start? || pc.CheckAlive?) && !asn.alive)
    || (pc.Lookup? && hd.target !in asn.flows && (|asn.flows| >= MAX_FLOWS_PER_ASSOCIATION || st.permits == 0))
    || (pc.Got? && st.slots[pc.s].cell == Ready(false))
    || (pc.RemoveStale? && hd.stale >= 2)
    || (pc.Remove? && hd.attempts >= st.slots[pc.s].flow.value.count)
  }

  lemma OwnStepEnds(st: State, h: HandlerId, c: Choice)
    requires HandlerReady(st, h) && HandlerEnabled(st, h, c)
    requires SlotOf(st.handlers[h].pc).Some? ==> PcOk(st.handlers[h].pc, h, st.slots[st.handlers[h].pc.s])
    ensures var st', pc := HandlerStep(st, h, c), st.handlers[h].pc;
            h !in st'.handlers || Finishing(st'.handlers[h].pc) <==>
              Finishing(pc) || HasReason(st, h) || (pc.Send? && c.ok)
  {}

  lemma ReasonByCounters(r: Run, e: nat, h: HandlerId)
    requires IsRun(r) && e < |r.events| && h in r.states[e].handlers
    requires r.events[e].Handle? && r.events[e].h == h
    ensures HandlerReady(r.states[e], h)
    ensures Reason(r, e, h) <==> HasReason(r.states[e], h)
  {
    var st := r.states[e];
    RunKeepsInv(r, e);
    TasksAreReady(st);
    CountersCount(r, e, h);
    if SlotOf(st.handlers[h].pc).Some? { HandlerKnows(st, h); }
  }

  /** The step is the last that matters: it ends the handler or leaves only its slot to drop. */
  predicate Concludes(st': State, h: HandlerId) {
    h !in st'.handlers || Finishing(st'.handlers[h].pc)
  }

  /** A step concludes a handler exactly if it was finishing, has a reason, or has just sent. */
  lemma StepConcludes(r: Run, i: nat, h: HandlerId)
    requires IsRun(r) && i < |r.events| && h in r.states[i].handlers
    ensures Concludes(r.states[i + 1], h) <==>
      Finishing(r.states[i].handlers[h].pc) || Reason(r, i, h) || Counts(r.states[i], r.events[i], h, Sent)
  {
    assert Follows(r, i);
    RunKeepsInv(r, i);
    var st, ev := r.states[i], r.events[i];
    if ev.Handle? && ev.h == h {
      ReasonByCounters(r, i, h);
      if SlotOf(st.handlers[h].pc).Some? { HandlerKnows(st, h); }
      OwnStepEnds(st, h, ev.c);
    } else {
      OtherStepKeeps(st, ev, r.states[i + 1], h);
    }
  }

  /** A new handler is not finishing. */
  lemma BeforeFinishing(r: Run, i: nat, h: HandlerId)
    requires IsRun(r) && i < |r.events| && h in r.states[i + 1].handlers && Finishing(r.states[i + 1].handlers[h].pc)
    ensures h in r.states[i].handlers
  {
    assert Follows(r, i);
    if h !in r.states[i].handlers { NewHandler(r.states[i], r.events[i], r.states[i + 1], h); }
  }

  /** A handler that is finishing has sent, or had a reason at some event of its life. */
  lemma {:induction false} WhyFinishing(r: Run, i: nat, h: HandlerId) returns (e: nat)
    requires IsRun(r) && i < |r.states| && h in r.states[i].handlers && Finishing(r.states[i].handlers[h].pc)
    ensures e < i && Stays(r, e, i, h)
    ensures (Total(r, i, h, Sent) == 1 && Counts(r.states[e], r.events[e], h, Sent))
            || (Total(r, i, h, Sent) == 0 && Reason(r, e, h))
  {
    assert i > 0;
    BeforeFinishing(r, i - 1, h);
    CountersCount(r, i - 1, h);
    if Finishing(r.states[i - 1].handlers[h].pc) {
      e := WhyFinishing(r, i - 1, h);
    } else {
      StepConcludes(r, i - 1, h);
      e := i - 1;
    }
  }

  /** Why a handler ends: when it is gone it has sent its datagram exactly once, or at some event
      `e` of its life it had one of the reasons of the source, and then it has not sent. */
  lemma WhyHandlerEnds(r: Run, i: nat, h: HandlerId) returns (e: nat)
    requires IsRun(r) && i < |r.events| && h in r.states[i].handlers && h !in r.states[i + 1].handlers
    ensures e <= i && Stays(r, e, i, h)
    ensures if TotalWithNext(r, i, h, Sent) == 1 then Counts(r.states[e], r.events[e], h, Sent)
            else TotalWithNext(r, i, h, Sent) == 0 && Reason(r, e, h)
  {
    StepConcludes(r, i, h);
    CountersCount(r, i, h);
    if Finishing(r.states[i].handlers[h].pc) {
      e := WhyFinishing(r, i, h);
    } else {
      e := i;
    }
  }

  /** And the other way round: once it has sent, or has had a reason, it only finishes. */
  lemma ReasonIsFinal(r: Run, e: nat, i: nat, h: HandlerId)
    requires IsRun(r) && e < i < |r.states| && Stays(r, e, i, h)
    requires Reason(r, e, h) || Counts(r.states[e], r.events[e], h, Sent)
    ensures Finishing(r.states[i].handlers[h].pc)
    ensures i < |r.events| ==> !Counts(r.states[i], r.events[i], h, Sent)
  {
    StepConcludes(r, e, h);
    var m := e + 1;
    while m < i
      invariant e < m <= i && Finishing(r.states[m].handlers[h].pc)
    {
      StepConcludes(r, m, h);
      m := m + 1;
    }
  }

  // ---- A retry does not meet the same slot ----

  /** The step calls `remove_flow_slot` for slot `s` (lines 797, 802, 821, 901). */
  predicate Removes(st: State, ev: Event, s: SlotId) {
    || (ev.Handle? && Holds(st, ev.h, s) && Removing(st.handlers[ev.h].pc))
    || (ev.Work? && ev.s == s && s in st.workers && st.workers[s].pc.WRemove?)
  }

  lemma RemovalTakesOut(st: State, ev: Event, st': State, s: SlotId)
    requires Inv(st) && StepOf(st, ev, st') && Removes(st, ev, s)
    ensures s in st.slots && !InFlows(st', st.slots[s].assoc, st.slots[s].target, s)
  {
    if ev.Handle? { HandlerKnows(st, ev.h); } else { WorkerKnows(st, s); }
  }

  /** Only a slot that is just made comes into a map. */
  lemma OutStaysOut(st: State, ev: Event, st': State, a: AssocId, t: Target, s: SlotId)
    requires StepOf(st, ev, st') && s in st.slots && !InFlows(st, a, t, s)
    ensures !InFlows(st', a, t, s)
  {
    StepFrames(st, ev, st');
  }

  lemma RunStaysOut(r: Run, m: nat, a: AssocId, t: Target, s: SlotId)
    requires IsRun(r) && m < |r.events| && s in r.states[m].slots
    requires !InFlows(r.states[m], a, t, s)
    ensures !InFlows(r.states[m + 1], a, t, s)
  {
    assert Follows(r, m);
    OutStaysOut(r.states[m], r.events[m], r.states[m + 1], a, t, s);
  }

  lemma RunTakesOut(r: Run, i: nat, s: SlotId)
    requires IsRun(r) && i < |r.events| && Removes(r.states[i], r.events[i], s)
    ensures s in r.states[i].slots
    ensures !InFlows(r.states[i + 1], r.states[i].slots[s].assoc, r.states[i].slots[s].target, s)
  {
    assert Follows(r, i);
    RunKeepsInv(r, i);
    RemovalTakesOut(r.states[i], r.events[i], r.states[i + 1], s);
  }

  /** Once a task has removed a slot no lookup finds it any more, as long as it exists: a handler
      that tries again meets another slot or makes one. */
  lemma RemovedForGood(r: Run, i: nat, j: nat, s: SlotId)
    requires IsRun(r) && i < j < |r.states| && Removes(r.states[i], r.events[i], s)
    requires forall m :: i <= m <= j ==> s in r.states[m].slots
    ensures !InFlows(r.states[j], r.states[i].slots[s].assoc, r.states[i].slots[s].target, s)
  {
    RunTakesOut(r, i, s);
    var a, t := r.states[i].slots[s].assoc, r.states[i].slots[s].target;
    var m := i + 1;
    while m < j
      invariant i < m <= j && !InFlows(r.states[m], a, t, s)
    {
      RunStaysOut(r, m, a, t, s);
      m := m + 1;
    }
  }

  // ---- What a handler has checked before it sends ----

  /** Event `e` is the check of lines 800 and 808 on slot `s`: the flow is active, or the
      association alive. */
  predicate FindsActive(st: State, ev: Event, h: HandlerId, s: SlotId) {
    ev.Handle? && ev.h == h && h in st.handlers && st.handlers[h].pc == Got(s) && Active(st, s)
  }

  predicate FindsAlive(st: State, ev: Event, h: HandlerId, s: SlotId) {
    && ev.Handle? && ev.h == h && h in st.handlers && st.handlers[h].pc == CheckAlive(s)
    && st.handlers[h].assoc in st.assocs && st.assocs[st.handlers[h].assoc].alive
  }

  lemma OwnComesToSend(st: State, h: HandlerId, c: Choice, s: SlotId)
    requires HandlerReady(st, h) && HandlerEnabled(st, h, c) && h in HandlerStep(st, h, c).handlers
    ensures HandlerStep(st, h, c).handlers[h].pc == Send(s) ==> FindsAlive(st, Handle(h, c), h, s)
    ensures HandlerStep(st, h, c).handlers[h].pc == CheckAlive(s) ==> FindsActive(st, Handle(h, c), h, s)
  {}

  lemma ComesToSend(st: State, ev: Event, st': State, h: HandlerId, s: SlotId)
    requires Inv(st) && StepOf(st, ev, st') && h in st'.handlers
    ensures st'.handlers[h].pc == Send(s) ==>
      h in st.handlers && (st'.handlers[h] == st.handlers[h] || FindsAlive(st, ev, h, s))
    ensures st'.handlers[h].pc == CheckAlive(s) ==>
      h in st.handlers && (st'.handlers[h] == st.handlers[h] || FindsActive(st, ev, h, s))
  {
    if ev.Handle? && ev.h == h {
      OwnComesToSend(st, h, ev.c, s);
    } else if h in st.handlers {
      OtherStepKeeps(st, ev, st', h);
    } else {
      NewHandler(st, ev, st', h);
    }
  }

  lemma {:induction false} LastCheck(r: Run, i: nat, h: HandlerId, s: SlotId, pc: Pc) returns (e: nat)
    requires IsRun(r) && i < |r.states| && h in r.states[i].handlers && r.states[i].handlers[h].pc == pc
    requires pc == Send(s) || pc == CheckAlive(s)
    ensures e < i && Stays(r, e, i, h)
    ensures if pc == Send(s) then FindsAlive(r.states[e], r.events[e], h, s) else FindsActive(r.states[e], r.events[e], h, s)
    ensures forall m :: e < m <= i ==> r.states[m].handlers[h].pc == pc
  {
    assert i > 0;
    assert Follows(r, i - 1);
    RunKeepsInv(r, i - 1);
    ComesToSend(r.states[i - 1], r.events[i - 1], r.states[i], h, s);
    if r.states[i].handlers[h] == r.states[i - 1].handlers[h] {
      e := LastCheck(r, i - 1, h, s, pc);
    } else {
      e := i - 1;
    }
  }

  /** Every send comes after a check that found the association alive, and that after one that
      found the flow active; in between the handler does nothing else. */
  lemma SendFollowsChecks(r: Run, i: nat, h: HandlerId, s: SlotId) returns (a: nat, b: nat)
    requires IsRun(r) && i < |r.states| && h in r.states[i].handlers && r.states[i].handlers[h].pc == Send(s)
    ensures a < b < i && FindsActive(r.states[a], r.events[a], h, s) && FindsAlive(r.states[b], r.events[b], h, s)
    ensures Stays(r, a, i, h)
    ensures forall m :: a < m <= b ==> r.states[m].handlers[h].pc == CheckAlive(s)
    ensures forall m :: b < m <= i ==> r.states[m].handlers[h].pc == Send(s)
  {
    b := LastCheck(r, i, h, s, Send(s));
    a := LastCheck(r, b, h, s, CheckAlive(s));
  }

  // ---- Why a slot is left without a flow ----

  /** Handler `k` stands at `Bind` for offset `o`. */
  predicate AtBind(st: State, k: HandlerId, s: SlotId, n: nat, start: nat, o: nat) {
    k in st.handlers && st.handlers[k].pc == Bind(s, n, start, o)
  }

  /** The socket for offset `o` cannot be bound or connected (lines 750-758). */
  predicate BindFails(st: State, ev: Event, k: HandlerId, s: SlotId, n: nat, start: nat, o: nat) {
    ev.Handle? && ev.h == k && AtBind(st, k, s, n, start, o) && o < n && !ev.c.ok
  }

  /** The lookup for slot `s` by handler `k` is answered (line 736) with `n` addresses. */
  predicate Answers(st: State, ev: Event, k: HandlerId, s: SlotId, n: nat) {
    ev.Handle? && ev.h == k && k in st.handlers && st.handlers[k].pc == Resolve(s) && ev.c.ok && ev.c.count == n
  }

  predicate LookupFails(st: State, ev: Event, k: HandlerId, s: SlotId) {
    ev.Handle? && ev.h == k && k in st.handlers && st.handlers[k].pc == Resolve(s) && !ev.c.ok
  }

  /** How the initialiser gets where it is. */
  lemma InitialiserCameFrom(st: State, h: HandlerId, c: Choice)
    requires HandlerReady(st, h) && HandlerEnabled(st, h, c) && h in HandlerStep(st, h, c).handlers
    ensures match HandlerStep(st, h, c).handlers[h].pc
            case ReadPreferred(s, n) => Answers(st, Handle(h, c), h, s, n)
            case Bind(s, n, start, o) =>
              if o == 0 then st.handlers[h].pc == ReadPreferred(s, n) else BindFails(st, Handle(h, c), h, s, n, start, o - 1)
            case Publish(s, hasFlow) =>
              if hasFlow then st.handlers[h].pc.Spawn?
              else LookupFails(st, Handle(h, c), h, s) || (st.handlers[h].pc.Bind? && st.handlers[h].pc.s == s && st.handlers[h].pc.offset >= st.handlers[h].pc.n)
            case _ => true
  {}

  /** The same for any step: a handler that does not act stays where it is. */
  lemma CameFrom(r: Run, i: nat, h: HandlerId)
    requires IsRun(r) && i < |r.events| && h in r.states[i + 1].handlers
    requires var pc := r.states[i + 1].handlers[h].pc; pc.ReadPreferred? || pc.Bind? || pc.Publish?
    ensures h in r.states[i].handlers
    ensures || r.states[i + 1].handlers[h] == r.states[i].handlers[h]
            || match r.states[i + 1].handlers[h].pc
               case ReadPreferred(s, n) => Answers(r.states[i], r.events[i], h, s, n)
               case Bind(s, n, start, o) =>
                 if o == 0 then r.states[i].handlers[h].pc == ReadPreferred(s, n)
                 else BindFails(r.states[i], r.events[i], h, s, n, start, o - 1)
               case Publish(s, hasFlow) =>
                 if hasFlow then r.states[i].handlers[h].pc.Spawn?
                 else LookupFails(r.states[i], r.events[i], h, s)
                      || exists n, start :: AtBind(r.states[i], h, s, n, start, n)
               case _ => true
  {
    assert Follows(r, i);
    RunKeepsInv(r, i);
    var st, ev := r.states[i], r.events[i];
    if ev.Handle? && ev.h == h {
      InitialiserCameFrom(st, h, ev.c);
      if st.handlers[h].pc.Bind? {
        HandlerKnows(st, h);
        assert AtBind(st, h, st.handlers[h].pc.s, st.handlers[h].pc.n, st.handlers[h].pc.start, st.handlers[h].pc.offset);
      }
    } else if h in st.handlers {
      OtherStepKeeps(st, ev, r.states[i + 1], h);
    } else {
      NewHandler(st, ev, r.states[i + 1], h);
    }
  }

  /** An initialiser that has come to offset `o` has failed to bind at every offset before. */
  lemma {:induction false} FailedBefore(r: Run, i: nat, k: HandlerId, s: SlotId, n: nat, start: nat, o: nat, d: nat) returns (e: nat)
    requires IsRun(r) && i < |r.states| && AtBind(r.states[i], k, s, n, start, o) && d < o
    ensures e < i && Stays(r, e, i, k) && BindFails(r.states[e], r.events[e], k, s, n, start, d)
  {
    assert i > 0;
    CameFrom(r, i - 1, k);
    if r.states[i].handlers[k] == r.states[i - 1].handlers[k] {
      e := FailedBefore(r, i - 1, k, s, n, start, o, d);
    } else if d == o - 1 {
      e := i - 1;
    } else {
      e := FailedBefore(r, i - 1, k, s, n, start, o - 1, d);
    }
  }

  /** And it goes through the addresses of its lookup. */
  lemma {:induction false} BindsAnswer(r: Run, i: nat, k: HandlerId) returns (e: nat)
    requires IsRun(r) && i < |r.states| && k in r.states[i].handlers
    requires r.states[i].handlers[k].pc.Bind? || r.states[i].handlers[k].pc.ReadPreferred?
    ensures e < i && Stays(r, e, i, k)
    ensures Answers(r.states[e], r.events[e], k, r.states[i].handlers[k].pc.s, r.states[i].handlers[k].pc.n)
  {
    assert i > 0;
    CameFrom(r, i - 1, k);
    var pc := r.states[i - 1].handlers[k].pc;
    if pc.Bind? || pc.ReadPreferred? {
      e := BindsAnswer(r, i - 1, k);
    } else {
      e := i - 1;
    }
  }

  /** Handler `k` gives up on slot `s` at event `e`: its lookup fails, or it has come to the end
      of the addresses. */
  ghost predicate GivesUpSlot(r: Run, e: nat, k: HandlerId, s: SlotId)
    requires e < |r.events| && e < |r.states|
  {
    LookupFails(r.states[e], r.events[e], k, s) || exists n, start :: AtBind(r.states[e], k, s, n, start, n)
  }

  lemma {:induction false} PublishesNothing(r: Run, i: nat, k: HandlerId, s: SlotId) returns (e: nat)
    requires IsRun(r) && i < |r.states| && k in r.states[i].handlers && r.states[i].handlers[k].pc == Publish(s, false)
    ensures e < i && Stays(r, e, i, k) && GivesUpSlot(r, e, k, s)
  {
    assert i > 0;
    CameFrom(r, i - 1, k);
    if r.states[i].handlers[k] == r.states[i - 1].handlers[k] {
      e := PublishesNothing(r, i - 1, k, s);
    } else {
      e := i - 1;
    }
  }

  lemma CellWasSet(st: State, ev: Event, st': State, s: SlotId)
    requires Inv(st) && StepOf(st, ev, st') && s in st'.slots && st'.slots[s].cell == Ready(false)
    ensures || (s in st.slots && st.slots[s].cell == Ready(false))
            || (ev.Handle? && ev.h in st.handlers && st.handlers[ev.h].pc == Publish(s, false))
  {
    StepFrames(st, ev, st');
  }

  lemma RunCellWasSet(r: Run, i: nat, s: SlotId)
    requires IsRun(r) && i < |r.events| && s in r.states[i + 1].slots && r.states[i + 1].slots[s].cell == Ready(false)
    ensures var st, ev := r.states[i], r.events[i];
      || (s in st.slots && st.slots[s].cell == Ready(false))
      || (ev.Handle? && ev.h in st.handlers && st.handlers[ev.h].pc == Publish(s, false))
  {
    assert Follows(r, i);
    RunKeepsInv(r, i);
    CellWasSet(r.states[i], r.events[i], r.states[i + 1], s);
  }

  /** A slot is without a flow only because the handler that filled its cell got no answer from
      the lookup, or failed to bind a socket for any of the addresses that it got
      (`FailedBefore` for each of the `n` offsets, `BindsAnswer` for `n`). */
  lemma {:induction false} NoFlowHasCause(r: Run, i: nat, s: SlotId) returns (e: nat, k: HandlerId)
    requires IsRun(r) && i < |r.states| && s in r.states[i].slots && r.states[i].slots[s].cell == Ready(false)
    ensures e < i && GivesUpSlot(r, e, k, s)
  {
    assert i > 0;
    RunCellWasSet(r, i - 1, s);
    var st := r.states[i - 1];
    if s in st.slots && st.slots[s].cell == Ready(false) {
      e, k := NoFlowHasCause(r, i - 1, s);
    } else {
      k := r.events[i - 1].h;
      e := PublishesNothing(r, i - 1, k, s);
    }
  }
}
