/** A flow moves the preferred address of its target at most once: whoever wins
    `active.swap(false)` does it, and nobody else (src/server.rs:817-819, 898-900). */
module FlowAdvance {
  import opened Wrappers
  import opened FlowModel
  import opened FlowFrame
  import opened FlowInvariant
  import opened FlowSafety

  /** `who` is about to call `advance_udp_address` for the flow of slot `s`. */
  predicate Advancer(st: State, s: SlotId, who: Holder) {
    match who
    case InMap => false
    case ByHandler(h) => h in st.handlers && st.handlers[h].pc == Advance(s)
    case ByWorker => s in st.workers && st.workers[s].pc == WAdvance
  }

  function Actor(ev: Event): Holder {
    match ev
    case Handle(h, _) => ByHandler(h)
    case Work(_, _) => ByWorker
    case _ => InMap
  }

  /** The step is the call of `advance_udp_address` for the flow of slot `s`. */
  predicate IsAdvance(st: State, ev: Event, s: SlotId) {
    Advancer(st, s, Actor(ev)) && (ev.Work? ==> ev.s == s)
  }

  ghost predicate OneAdvancer(st: State) {
    forall s, w, w' :: Advancer(st, s, w) && Advancer(st, s, w') ==> w == w'
  }

  /** The flow of `s` is there and switched off. */
  predicate Spent(st: State, s: SlotId) {
    s in st.slots && st.slots[s].flow.Some? && !st.slots[s].flow.value.active
  }

  lemma AdvancerIsSpent(st: State, s: SlotId, who: Holder)
    requires Inv(st) && Advancer(st, s, who)
    ensures Spent(st, s)
  {
    match who
    case ByHandler(h) => HandlerKnows(st, h);
    case ByWorker => WorkerKnows(st, s);
  }

  lemma HandlerWinsSwap(st: State, h: HandlerId, c: Choice, s: SlotId)
    requires HandlerReady(st, h) && HandlerEnabled(st, h, c)
    requires h in HandlerStep(st, h, c).handlers && HandlerStep(st, h, c).handlers[h].pc == Advance(s)
    ensures st.handlers[h].pc == Swap(s) && Active(st, s)
  {}

  lemma WorkerWinsSwap(st: State, s: SlotId, c: Choice)
    requires WorkerReady(st, s) && WorkerEnabled(st, s, c)
    requires s in WorkerStep(st, s, c).workers && WorkerStep(st, s, c).workers[s].pc == WAdvance
    ensures st.workers[s].pc == WSwap && st.workers[s].failed && Active(st, s)
    ensures WorkerStep(st, s, c).workers[s].failed
  {}

  /** Nobody becomes an advancer but the one who finds the flow active and switches it off. */
  lemma AdvancerArises(st: State, ev: Event, st': State, s: SlotId, who: Holder)
    requires StepOf(st, ev, st') && Advancer(st', s, who)
    ensures Advancer(st, s, who) || (Active(st, s) && who == Actor(ev))
    ensures !IsAdvance(st, ev, s) || who != Actor(ev)
  {
    StepFrames(st, ev, st');
    match ev
    case Handle(h, c) => if who == ByHandler(h) { HandlerWinsSwap(st, h, c, s); }
    case Work(r, c) => if who == ByWorker && r == s { WorkerWinsSwap(st, s, c); }
    case _ =>
  }

  /** A switched-off flow stays so for as long as its slot exists. */
  lemma SpentStays(st: State, ev: Event, st': State, s: SlotId)
    requires Inv(st) && StepOf(st, ev, st') && Spent(st, s) && s in st'.slots
    ensures Spent(st', s)
  {
    StepFrames(st, ev, st');
    if ev.Handle? && SlotOf(st.handlers[ev.h].pc).Some? { HandlerKnows(st, ev.h); }
  }

  /** A step goes on counting the advances for slot `s`, as long as the slot exists. */
  function CountAdvance(st: State, ev: Event, st': State, s: SlotId, advances: nat): nat {
    if s !in st.slots || s !in st'.slots then 0
    else advances + (if IsAdvance(st, ev, s) then 1 else 0)
  }

  /** How often the flow of slot `s` has moved the preferred address, counted since the slot
      was allocated. */
  ghost function Advances(r: Run, i: nat, s: SlotId): nat
    requires IsRun(r) && i < |r.states|
  {
    if i == 0 then 0
    else CountAdvance(r.states[i - 1], r.events[i - 1], r.states[i], s, Advances(r, i - 1, s))
  }

  lemma StepKeepsOneAdvancer(st: State, ev: Event, st': State)
    requires Inv(st) && StepOf(st, ev, st') && OneAdvancer(st)
    ensures OneAdvancer(st')
  {
    forall q, w, w' | Advancer(st', q, w) && Advancer(st', q, w') ensures w == w' {
      AdvancerArises(st, ev, st', q, w);
      AdvancerArises(st, ev, st', q, w');
      if Advancer(st, q, w) { AdvancerIsSpent(st, q, w); }
      if Advancer(st, q, w') { AdvancerIsSpent(st, q, w'); }
    }
  }

  /** The flow of `s` has no advance ahead of it. */
  ghost predicate Exhausted(st: State, s: SlotId) {
    Spent(st, s) && forall w :: !Advancer(st, s, w)
  }

  lemma AdvanceExhausts(st: State, ev: Event, st': State, s: SlotId)
    requires Inv(st) && StepOf(st, ev, st') && OneAdvancer(st) && s in st'.slots
    requires IsAdvance(st, ev, s) || Exhausted(st, s)
    ensures Exhausted(st', s)
    ensures Exhausted(st, s) ==> !IsAdvance(st, ev, s)
  {
    if IsAdvance(st, ev, s) { AdvancerIsSpent(st, s, Actor(ev)); }
    SpentStays(st, ev, st', s);
    forall w ensures !Advancer(st', s, w) {
      if Advancer(st', s, w) { AdvancerArises(st, ev, st', s, w); }
    }
  }

  /** At most one advance has been made, and if one has there is none ahead. */
  ghost predicate AtMostOnce(st: State, s: SlotId, advances: nat) {
    OneAdvancer(st) && advances <= 1 && (advances == 1 ==> Exhausted(st, s))
  }

  lemma StepKeepsAtMostOnce(st: State, ev: Event, st': State, s: SlotId, advances: nat)
    requires Inv(st) && StepOf(st, ev, st') && AtMostOnce(st, s, advances)
    ensures AtMostOnce(st', s, CountAdvance(st, ev, st', s, advances))
  {
    StepKeepsOneAdvancer(st, ev, st');
    if s in st'.slots && s in st.slots && (IsAdvance(st, ev, s) || Exhausted(st, s)) {
      AdvanceExhausts(st, ev, st', s);
    }
  }

  lemma RunKeepsAtMostOnce(r: Run, m: nat, s: SlotId)
    requires IsRun(r) && m < |r.events| && AtMostOnce(r.states[m], s, Advances(r, m, s))
    ensures AtMostOnce(r.states[m + 1], s, Advances(r, m + 1, s))
  {
    assert Follows(r, m);
    RunKeepsInv(r, m);
    StepKeepsAtMostOnce(r.states[m], r.events[m], r.states[m + 1], s, Advances(r, m, s));
  }

  /** In every run each flow moves the preferred address at most once, and never two tasks
      are about to do it. */
  lemma AdvancedAtMostOnce(r: Run, i: nat, s: SlotId)
    requires IsRun(r) && i < |r.states|
    ensures OneAdvancer(r.states[i])
    ensures Advances(r, i, s) <= 1
    ensures Advances(r, i, s) == 1 ==> Exhausted(r.states[i], s)
  {
    var m := 0;
    while m < i
      invariant m <= i && AtMostOnce(r.states[m], s, Advances(r, m, s))
    {
      RunKeepsAtMostOnce(r, m, s);
      m := m + 1;
    }
  }
}
