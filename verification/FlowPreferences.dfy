/** What the preferred addresses of an association are (src/server.rs:150-171, 737-766,
    818, 899): a flow is bound to the first address that can be bound from the remembered one
    on, this address is stored, and an entry is the last address stored for its target. */
module FlowPreferences {
  import opened Wrappers
  import opened Net
  import opened FlowModel
  import opened FlowFrame
  import opened FlowInvariant
  import opened FlowTermination
  import opened FlowHandover
  import opened FlowDelivery

  // ---- What is stored ----

  datatype Store = Store(a: AssocId, t: Target, index: nat, victim: Target)

  /** The address that follows the one of the flow, if there is another. */
  function Following(x: Slot, victim: Target): Option<Store>
    requires x.flow.Some?
  {
    var f := x.flow.value;
    if f.count > 1 then Some(Store(x.assoc, x.target, if f.index + 1 < f.count then f.index + 1 else 0, victim)) else None
  }

  /** What an event stores: the address that has been bound, if there are others (lines
      764-766), or the one after the flow's (lines 818, 899). */
  function Stored(st: State, ev: Event): Option<Store>
    requires Enabled(st, ev)
  {
    match ev
    case Handle(h, c) =>
      var hd := st.handlers[h];
      if hd.pc.Remember? && hd.pc.n > 1 then Some(Store(hd.assoc, hd.target, hd.pc.index, c.victim))
      else if hd.pc.Advance? then Following(st.slots[hd.pc.s], c.victim)
      else None
    case Work(s, c) => if st.workers[s].pc.WAdvance? then Following(st.slots[s], c.victim) else None
    case _ => None
  }

  /** The map of association `a` is full and has no entry for `t`. */
  predicate Evicts(st: State, a: AssocId, t: Target) {
    a in st.assocs && t !in st.assocs[a].preferred && |st.assocs[a].preferred| >= 128
  }

  /** The entry of `u` after storing `w`: only `w.t` and an evicted key are affected, and a key
      is evicted only from a full map. */
  function EntryAfter(st: State, w: Store, a: AssocId, u: Target): Option<nat> {
    if a != w.a then Entry(st, a, u)
    else if u == w.t then Some(w.index)
    else if u == w.victim && Evicts(st, w.a, w.t) then None
    else Entry(st, a, u)
  }

  lemma StoreAddressStores(st: State, w: Store, a: AssocId, u: Target)
    requires w.a in st.assocs
    ensures Entry(StoreAddress(st, w.a, w.t, w.index, w.victim), a, u) == EntryAfter(st, w, a, u)
  {}

  lemma NextIndex(index: nat, n: nat)
    requires index < n
    ensures (index + 1) % n == if index + 1 < n then index + 1 else 0
  {}

  lemma HandlerStores(st: State, h: HandlerId, c: Choice, a: AssocId, u: Target)
    requires Inv(st) && HandlerReady(st, h) && HandlerEnabled(st, h, c)
    requires st.handlers[h].pc.Remember? || st.handlers[h].pc.Advance?
    ensures Entry(HandlerStep(st, h, c), a, u) == match Stored(st, Handle(h, c))
                                                  case Some(w) => EntryAfter(st, w, a, u)
                                                  case None => Entry(st, a, u)
  {
    HandlerKnows(st, h);
    match Stored(st, Handle(h, c))
    case Some(w) =>
      StoreAddressStores(st, w, a, u);
      if st.handlers[h].pc.Advance? {
        var f := st.slots[st.handlers[h].pc.s].flow.value;
        NextIndex(f.index, f.count);
      }
    case None =>
  }

  lemma WorkerStores(st: State, s: SlotId, c: Choice, a: AssocId, u: Target)
    requires Inv(st) && WorkerReady(st, s) && WorkerEnabled(st, s, c) && st.workers[s].pc.WAdvance?
    ensures Entry(WorkerStep(st, s, c), a, u) == match Stored(st, Work(s, c))
                                                 case Some(w) => EntryAfter(st, w, a, u)
                                                 case None => Entry(st, a, u)
  {
    WorkerKnows(st, s);
    assert SlotOk(st, s);
    match Stored(st, Work(s, c))
    case Some(w) =>
      StoreAddressStores(st, w, a, u);
      NextIndex(st.slots[s].flow.value.index, st.slots[s].flow.value.count);
    case None =>
  }

  /** No other step stores anything. */
  lemma OthersStoreNothing(st: State, ev: Event, st': State, a: AssocId, u: Target)
    requires StepOf(st, ev, st') && a in st.assocs
    requires ev.Handle? ==> !st.handlers[ev.h].pc.Remember? && !st.handlers[ev.h].pc.Advance?
    requires ev.Work? ==> !st.workers[ev.s].pc.WAdvance?
    ensures Entry(st', a, u) == Entry(st, a, u) && Stored(st, ev).None?
  {
    StepFrames(st, ev, st');
  }

  /** What any step does to the entry of any target: it becomes what the step stores for it, it
      is the one entry evicted from a full map, or it stays. */
  lemma StepStores(st: State, ev: Event, st': State, a: AssocId, u: Target)
    requires Inv(st) && StepOf(st, ev, st') && a in st.assocs
    ensures Entry(st', a, u) == match Stored(st, ev)
                                case Some(w) => EntryAfter(st, w, a, u)
                                case None => Entry(st, a, u)
    ensures Stored(st, ev).Some? ==>
      var w := Stored(st, ev).value;
      w.a in st.assocs && (Evicts(st, w.a, w.t) ==> w.victim in st.assocs[w.a].preferred)
  {
    if ev.Handle? && (st.handlers[ev.h].pc.Remember? || st.handlers[ev.h].pc.Advance?) {
      HandlerKnows(st, ev.h);
      HandlerStores(st, ev.h, ev.c, a, u);
    } else if ev.Work? && st.workers[ev.s].pc.WAdvance? {
      WorkerStores(st, ev.s, ev.c, a, u);
    } else {
      OthersStoreNothing(st, ev, st', a, u);
    }
  }

  // ---- An entry is the last address stored ----

  /** Event `e` of the run stores `index` for `u`. */
  ghost predicate StoresAt(r: Run, e: nat, a: AssocId, u: Target, index: nat)
    requires IsRun(r) && e < |r.events|
  {
    assert Follows(r, e);
    var w := Stored(r.states[e], r.events[e]);
    w.Some? && w.value.a == a && w.value.t == u && w.value.index == index
  }

  /** Event `e` of the run stores nothing for `u` and does not evict it. */
  ghost predicate LeavesEntry(r: Run, e: nat, a: AssocId, u: Target)
    requires IsRun(r) && e < |r.events|
  {
    assert Follows(r, e);
    match Stored(r.states[e], r.events[e])
    case None => true
    case Some(w) => w.a != a || (u != w.t && !(u == w.victim && Evicts(r.states[e], a, w.t)))
  }

  /** An association starts without entries, and nothing is stored for one that is not there. */
  lemma NoEntryYet(st: State, ev: Event, st': State, a: AssocId, u: Target)
    requires Inv(st) && StepOf(st, ev, st') && a !in st.assocs
    ensures Entry(st', a, u).None?
    ensures Stored(st, ev).Some? ==> Stored(st, ev).value.a != a
  {
    StepFrames(st, ev, st');
    if ev.Handle? && SlotOf(st.handlers[ev.h].pc).Some? { HandlerKnows(st, ev.h); }
    if ev.Work? { WorkerKnows(st, ev.s); }
  }

  lemma RunStores(r: Run, e: nat, a: AssocId, u: Target)
    requires IsRun(r) && e < |r.events|
    ensures Entry(r.states[e + 1], a, u).Some? ==>
      StoresAt(r, e, a, u, Entry(r.states[e + 1], a, u).value)
      || (LeavesEntry(r, e, a, u) && Entry(r.states[e + 1], a, u) == Entry(r.states[e], a, u))
    ensures forall index: nat :: StoresAt(r, e, a, u, index) ==> Entry(r.states[e + 1], a, u) == Some(index)
    ensures LeavesEntry(r, e, a, u) ==> Entry(r.states[e + 1], a, u) == Entry(r.states[e], a, u)
  {
    assert Follows(r, e);
    RunKeepsInv(r, e);
    if a in r.states[e].assocs {
      StepStores(r.states[e], r.events[e], r.states[e + 1], a, u);
    } else {
      NoEntryYet(r.states[e], r.events[e], r.states[e + 1], a, u);
    }
  }

  /** An entry is the last address stored for the target, */
  lemma {:induction false} EntryHasCause(r: Run, i: nat, a: AssocId, u: Target) returns (e: nat)
    requires IsRun(r) && i < |r.states| && Entry(r.states[i], a, u).Some?
    ensures e < i && StoresAt(r, e, a, u, Entry(r.states[i], a, u).value)
    ensures forall m :: e < m < i ==> LeavesEntry(r, m, a, u)
  {
    assert i > 0;
    RunStores(r, i - 1, a, u);
    e := i - 1;
    if !StoresAt(r, e, a, u, Entry(r.states[i], a, u).value) {
      e := EntryHasCause(r, i - 1, a, u);
    }
  }

  /** and stays until another is stored for the target or it is evicted from a full map. */
  lemma EntryStays(r: Run, e: nat, i: nat, a: AssocId, u: Target, index: nat)
    requires IsRun(r) && e < i < |r.states| && StoresAt(r, e, a, u, index)
    requires forall m :: e < m < i ==> LeavesEntry(r, m, a, u)
    ensures Entry(r.states[i], a, u) == Some(index)
  {
    RunStores(r, e, a, u);
    var m := e + 1;
    while m < i
      invariant e < m <= i && Entry(r.states[m], a, u) == Some(index)
    {
      RunStores(r, m, a, u);
      m := m + 1;
    }
  }

  // ---- Which address a flow uses ----

  /** Handler `k` has read the preferred address of its target: it starts at `start`. */
  predicate ReadsStart(st: State, ev: Event, k: HandlerId, s: SlotId, n: nat, start: nat) {
    && ev.Handle? && ev.h == k && k in st.handlers && n > 0 && st.handlers[k].pc == ReadPreferred(s, n)
    && start == match Entry(st, st.handlers[k].assoc, st.handlers[k].target) case Some(i) => i % n case None => 0
  }

  /** It binds the address at distance `o` from the start, which is address `index`. */
  predicate BindSucceeds(st: State, ev: Event, k: HandlerId, s: SlotId, n: nat, start: nat, o: nat, index: nat) {
    && ev.Handle? && ev.h == k && AtBind(st, k, s, n, start, o) && o < n && ev.c.ok
    && start < n && index == if start + o < n then start + o else start + o - n
  }

  lemma Around(start: nat, o: nat, n: nat)
    requires start < n && o < n
    ensures (start + o) % n == if start + o < n then start + o else start + o - n
  {
    if start + o >= n { assert start + o == n + (start + o - n); }
  }

  predicate AtSomeBind(st: State, k: HandlerId) {
    k in st.handlers && st.handlers[k].pc.Bind?
  }

  /** How an initialiser comes to bind, to remember and to spawn. */
  predicate ChosenBy(st: State, ev: Event, k: HandlerId, pc: Pc) {
    match pc
    case Bind(s, n, start, o) => o == 0 ==> ReadsStart(st, ev, k, s, n, start)
    case Remember(s, n, index) =>
      AtSomeBind(st, k) && BindSucceeds(st, ev, k, s, n, st.handlers[k].pc.start, st.handlers[k].pc.offset, index)
    case Spawn(s, n, index) => ev.Handle? && ev.h == k && k in st.handlers && st.handlers[k].pc == Remember(s, n, index)
    case _ => true
  }

  lemma OwnChoice(st: State, h: HandlerId, c: Choice)
    requires HandlerReady(st, h) && HandlerEnabled(st, h, c) && h in HandlerStep(st, h, c).handlers
    requires st.handlers[h].pc.Bind? ==> st.handlers[h].pc.start < st.handlers[h].pc.n
    ensures ChosenBy(st, Handle(h, c), h, HandlerStep(st, h, c).handlers[h].pc)
  {
    var pc := st.handlers[h].pc;
    if pc.Bind? && pc.offset < pc.n { Around(pc.start, pc.offset, pc.n); }
  }

  lemma StepChoice(r: Run, i: nat, k: HandlerId)
    requires IsRun(r) && i < |r.events| && k in r.states[i + 1].handlers
    requires var pc := r.states[i + 1].handlers[k].pc; pc.Bind? || pc.Remember? || pc.Spawn?
    ensures k in r.states[i].handlers
    ensures var hd, hd' := r.states[i].handlers[k], r.states[i + 1].handlers[k];
            hd' == hd || (hd'.assoc == hd.assoc && hd'.target == hd.target
                          && ChosenBy(r.states[i], r.events[i], k, hd'.pc))
  {
    assert Follows(r, i);
    RunKeepsInv(r, i);
    var st, ev := r.states[i], r.events[i];
    StepFrames(st, ev, r.states[i + 1]);
    if ev.Handle? && ev.h == k {
      if st.handlers[k].pc.Bind? { HandlerKnows(st, k); }
      OwnChoice(st, k, ev.c);
    } else if k in st.handlers {
      OtherStepKeeps(st, ev, r.states[i + 1], k);
    } else {
      NewHandler(st, ev, r.states[i + 1], k);
    }
  }

  /** The scan of lines 745-762 starts at the remembered address of the target, or at the first. */
  lemma {:induction false} StartIsRemembered(r: Run, i: nat, k: HandlerId, s: SlotId, n: nat, start: nat, o: nat) returns (e: nat)
    requires IsRun(r) && i < |r.states| && AtBind(r.states[i], k, s, n, start, o)
    ensures e < i && Stays(r, e, i, k) && ReadsStart(r.states[e], r.events[e], k, s, n, start)
    ensures r.states[e].handlers[k].target == r.states[i].handlers[k].target
    ensures r.states[e].handlers[k].assoc == r.states[i].handlers[k].assoc
  {
    assert i > 0;
    StepChoice(r, i - 1, k);
    CameFrom(r, i - 1, k);
    if r.states[i].handlers[k] == r.states[i - 1].handlers[k] {
      e := StartIsRemembered(r, i - 1, k, s, n, start, o);
    } else if o == 0 {
      e := i - 1;
    } else {
      e := StartIsRemembered(r, i - 1, k, s, n, start, o - 1);
    }
  }

  /** The address to be remembered is the one that was just bound. */
  lemma {:induction false} RememberedIsBound(r: Run, i: nat, k: HandlerId, s: SlotId, n: nat, index: nat)
    returns (e: nat, start: nat, o: nat)
    requires IsRun(r) && i < |r.states| && k in r.states[i].handlers && r.states[i].handlers[k].pc == Remember(s, n, index)
    ensures e < i && Stays(r, e, i, k) && BindSucceeds(r.states[e], r.events[e], k, s, n, start, o, index)
  {
    assert i > 0;
    StepChoice(r, i - 1, k);
    if r.states[i].handlers[k] == r.states[i - 1].handlers[k] {
      e, start, o := RememberedIsBound(r, i - 1, k, s, n, index);
    } else {
      e, start, o := i - 1, r.states[i - 1].handlers[k].pc.start, r.states[i - 1].handlers[k].pc.offset;
    }
  }

  /** A handler about to spawn its worker for address `index` has bound this address at event
      `b`, and at event `e` after that it has stored it, if there are others. */
  lemma {:induction false} BoundIsStored(r: Run, i: nat, k: HandlerId, s: SlotId, n: nat, index: nat)
    returns (b: nat, start: nat, o: nat, e: nat)
    requires IsRun(r) && i < |r.states| && k in r.states[i].handlers && r.states[i].handlers[k].pc == Spawn(s, n, index)
    ensures b < e < i && Stays(r, b, i, k)
    ensures BindSucceeds(r.states[b], r.events[b], k, s, n, start, o, index)
    ensures n > 1 ==> StoresAt(r, e, r.states[i].handlers[k].assoc, r.states[i].handlers[k].target, index)
  {
    assert i > 0;
    StepChoice(r, i - 1, k);
    if r.states[i].handlers[k] == r.states[i - 1].handlers[k] {
      b, start, o, e := BoundIsStored(r, i - 1, k, s, n, index);
    } else {
      e := i - 1;
      b, start, o := RememberedIsBound(r, e, k, s, n, index);
      assert Follows(r, e);
    }
  }

  predicate HasAddress(st: State, s: SlotId, index: nat, n: nat) {
    s in st.slots && st.slots[s].flow.Some? && st.slots[s].flow.value.index == index && st.slots[s].flow.value.count == n
  }

  lemma FlowWasSpawned(st: State, ev: Event, st': State, s: SlotId, index: nat, n: nat)
    requires Inv(st) && StepOf(st, ev, st') && HasAddress(st', s, index, n)
    ensures HasAddress(st, s, index, n)
            || (ev.Handle? && ev.h in st.handlers && st.handlers[ev.h].pc == Spawn(s, n, index))
  {
    StepFrames(st, ev, st');
  }

  lemma RunSpawned(r: Run, i: nat, s: SlotId, index: nat, n: nat)
    requires IsRun(r) && i < |r.events| && HasAddress(r.states[i + 1], s, index, n)
    ensures var st, ev := r.states[i], r.events[i];
      HasAddress(st, s, index, n) || (ev.Handle? && ev.h in st.handlers && st.handlers[ev.h].pc == Spawn(s, n, index))
  {
    assert Follows(r, i);
    RunKeepsInv(r, i);
    FlowWasSpawned(r.states[i], r.events[i], r.states[i + 1], s, index, n);
  }

  /** The address of every flow is one that its initialiser has bound, out of as many as the flow
      counts. With `StartIsRemembered` and `FailedBefore` it is the first that can be bound from
      the remembered one on. */
  lemma {:induction false} FlowIsBound(r: Run, i: nat, s: SlotId, index: nat, n: nat)
    returns (b: nat, k: HandlerId, start: nat, o: nat)
    requires IsRun(r) && i < |r.states| && HasAddress(r.states[i], s, index, n)
    ensures b < i && BindSucceeds(r.states[b], r.events[b], k, s, n, start, o, index)
  {
    assert i > 0;
    RunSpawned(r, i - 1, s, index, n);
    if HasAddress(r.states[i - 1], s, index, n) {
      b, k, start, o := FlowIsBound(r, i - 1, s, index, n);
    } else {
      k := r.events[i - 1].h;
      var e;
      b, start, o, e := BoundIsStored(r, i - 1, k, s, n, index);
    }
  }
}
