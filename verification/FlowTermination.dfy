/** A handler ends whatever the other tasks do, within a number of loop rounds and of steps
    fixed by the longest lookup answer; it sends its payload at most once; and it is never
    stuck waiting for a cell that nobody fills (src/server.rs:711-825). */
module FlowTermination {
  import opened Wrappers
  import opened Net
  import opened FlowModel
  import opened FlowFrame
  import opened FlowInvariant

  /** `attempts` cannot pass this, since it is compared with an address count. */
  function MaxAttempts(n: nat): nat {
    if n == 0 then 1 else n
  }

  predicate CountWithin(pc: Pc, n: nat) {
    && (pc.ReadPreferred? ==> pc.n <= n)
    && (pc.Bind? ==> pc.n <= n)
    && (pc.Remember? ==> pc.n <= n)
    && (pc.Spawn? ==> pc.n <= n)
  }

  /** The counters of this round have already been increased. */
  predicate Counted(pc: Pc) {
    pc.Send? || pc.Swap? || pc.Advance? || pc.Cancel? || pc.Remove?
  }

  predicate HandlerWithin(hd: Handler, n: nat) {
    && CountWithin(hd.pc, n)
    && (hd.attempts + hd.stale > 0 ==> n >= 1)
    && hd.attempts <= MaxAttempts(n)
    && hd.stale <= 3
    && (!Counted(hd.pc) && !(hd.pc.Leave? && !hd.pc.again) ==> hd.attempts < MaxAttempts(n))
    && (!(hd.pc.Leave? && !hd.pc.again) ==> hd.stale <= 2)
  }

  /** All address counts in the state are at most `n`. */
  ghost predicate Within(st: State, n: nat) {
    && (forall h {:trigger st.handlers[h]} :: h in st.handlers ==> HandlerWithin(st.handlers[h], n))
    && (forall s {:trigger st.slots[s]} :: s in st.slots && st.slots[s].flow.Some? ==> st.slots[s].flow.value.count <= n)
  }

  /** A lookup taken in this step returns at most `n` addresses. */
  predicate AnswerWithin(st: State, ev: Event, n: nat) {
    ev.Handle? && ev.h in st.handlers && st.handlers[ev.h].pc.Resolve? && ev.c.ok ==> ev.c.count <= n
  }

  /** The handler's own record before and after one of its steps; `count` is the address
      count of its flow, if there is one. */
  predicate Moves(hd: Handler, hd': Handler, c: Choice, count: nat) {
    match hd.pc
    case Start => hd' == hd.(pc := Lookup)
    case Lookup => hd'.pc.Await? && hd' == hd.(pc := hd'.pc)
    case Await(s) => hd' == hd.(pc := Resolve(s)) || hd' == hd.(pc := Got(s))
    case Resolve(s) => hd' == hd.(pc := if c.ok && c.count > 0 then ReadPreferred(s, c.count) else Publish(s, false))
    case ReadPreferred(s, n) => hd'.pc.Bind? && hd'.pc.n == n && hd'.pc.offset == 0 && hd' == hd.(pc := hd'.pc)
    case Bind(s, n, start, offset) =>
      || (offset >= n && hd' == hd.(pc := Publish(s, false)))
      || (offset < n && hd'.pc.Remember? && hd'.pc.n == n && hd' == hd.(pc := hd'.pc))
      || (offset < n && hd' == hd.(pc := Bind(s, n, start, offset + 1)))
    case Remember(s, n, index) => hd' == hd.(pc := Spawn(s, n, index))
    case Spawn(s, _, _) => hd' == hd.(pc := Publish(s, true))
    case Publish(s, _) => hd' == hd.(pc := Got(s))
    case Got(s) => hd' == hd.(pc := RemoveNone(s)) || (count > 0 && (hd' == hd.(pc := CheckAlive(s)) || hd' == hd.(pc := RemoveStale(s))))
    case RemoveNone(s) => hd' == hd.(pc := Leave(s, false))
    case RemoveStale(s) => hd' == hd.(stale := hd.stale + 1, pc := Leave(s, hd.stale + 1 <= 2))
    case CheckAlive(s) => hd' == hd.(attempts := hd.attempts + 1, pc := Send(s)) || hd' == hd.(pc := Leave(s, false))
    case Send(s) => hd' == hd.(pc := if c.ok then Leave(s, false) else Swap(s))
    case Swap(s) => hd' == hd.(pc := Advance(s)) || hd' == hd.(pc := Cancel(s))
    case Advance(s) => hd' == hd.(pc := Cancel(s))
    case Cancel(s) => hd' == hd.(pc := Remove(s))
    case Remove(s) => hd' == hd.(pc := Leave(s, hd.attempts < count))
    case Leave(_, again) => again && hd' == hd.(pc := Lookup)
  }

  /** The address count of the flow of the slot the handler holds. */
  function FlowCount(st: State, h: HandlerId): nat
    requires h in st.handlers
  {
    var pc := st.handlers[h].pc;
    if SlotOf(pc).Some? && pc.s in st.slots && st.slots[pc.s].flow.Some? then st.slots[pc.s].flow.value.count else 0
  }

  /** The positions up to the choice of an address, and those from there on. */
  predicate Early(pc: Pc) {
    pc.Start? || pc.Lookup? || pc.Await? || pc.Resolve? || pc.ReadPreferred? || pc.Bind? || pc.Remember? || pc.Leave?
  }

  lemma EarlyMoves(st: State, h: HandlerId, c: Choice)
    requires HandlerReady(st, h) && HandlerEnabled(st, h, c)
    requires SlotOf(st.handlers[h].pc).Some? ==> SlotShape(st.slots[st.handlers[h].pc.s])
    requires Early(st.handlers[h].pc)
    requires h in HandlerStep(st, h, c).handlers
    ensures Moves(st.handlers[h], HandlerStep(st, h, c).handlers[h], c, FlowCount(st, h))
  {}

  lemma LateMoves(st: State, h: HandlerId, c: Choice)
    requires HandlerReady(st, h) && HandlerEnabled(st, h, c)
    requires SlotOf(st.handlers[h].pc).Some? ==> SlotShape(st.slots[st.handlers[h].pc.s])
    requires !Early(st.handlers[h].pc)
    requires h in HandlerStep(st, h, c).handlers
    ensures Moves(st.handlers[h], HandlerStep(st, h, c).handlers[h], c, FlowCount(st, h))
  {}

  lemma HandlerMoves(st: State, h: HandlerId, c: Choice, st': State)
    requires Inv(st) && StepOf(st, Handle(h, c), st') && h in st'.handlers
    ensures Moves(st.handlers[h], st'.handlers[h], c, FlowCount(st, h))
  {
    if SlotOf(st.handlers[h].pc).Some? { HandlerKnows(st, h); }
    if Early(st.handlers[h].pc) { EarlyMoves(st, h, c); } else { LateMoves(st, h, c); }
  }

  /** The counters stay within their bounds in one step; positions that need a flow have one. */
  lemma MovesStayWithin(hd: Handler, hd': Handler, c: Choice, count: nat, n: nat)
    requires Moves(hd, hd', c, count) && HandlerWithin(hd, n) && count <= n
    requires hd.pc.Resolve? && c.ok ==> c.count <= n
    requires HasFlow(hd.pc) ==> count > 0
    ensures HandlerWithin(hd', n)
  {}

  /** The address count of a flow is that of the lookup it comes from. */
  lemma CountStaysWithin(st: State, ev: Event, st': State, s: SlotId, n: nat)
    requires Enabled(st, ev) && Framed(st, ev, st') && Within(st, n)
    requires s in st'.slots && st'.slots[s].flow.Some?
    ensures st'.slots[s].flow.value.count <= n
  {
    match ev
    case Handle(h, _) => assert HandlerWithin(st.handlers[h], n);
    case _ =>
  }

  lemma HandlerStaysWithin(st: State, h: HandlerId, c: Choice, st': State, n: nat)
    requires Inv(st) && Within(st, n) && StepOf(st, Handle(h, c), st') && h in st'.handlers
    requires AnswerWithin(st, Handle(h, c), n)
    ensures HandlerWithin(st'.handlers[h], n)
  {
    HandlerMoves(st, h, c, st');
    if SlotOf(st.handlers[h].pc).Some? { HandlerKnows(st, h); }
    MovesStayWithin(st.handlers[h], st'.handlers[h], c, FlowCount(st, h), n);
  }

  /** A handler that does not act is as it was, or new and at its start. */
  lemma OthersStay(st: State, ev: Event, st': State, h: HandlerId)
    requires Enabled(st, ev) && Framed(st, ev, st') && !(ev.Handle? && ev.h == h)
    ensures h in st.handlers ==> h in st'.handlers && st'.handlers[h] == st.handlers[h]
    ensures h !in st.handlers && h in st'.handlers ==>
      st'.handlers[h] == Handler(st'.handlers[h].assoc, st'.handlers[h].target, 0, 0, Start)
  {}

  lemma StepStaysWithin(st: State, ev: Event, st': State, n: nat)
    requires Inv(st) && StepOf(st, ev, st') && Within(st, n) && AnswerWithin(st, ev, n)
    ensures Within(st', n)
  {
    StepFrames(st, ev, st');
    forall k | k in st'.handlers ensures HandlerWithin(st'.handlers[k], n) {
      if ev.Handle? && ev.h == k {
        HandlerStaysWithin(st, k, ev.c, st', n);
      } else {
        OthersStay(st, ev, st', k);
      }
    }
    forall s | s in st'.slots && st'.slots[s].flow.Some? ensures st'.slots[s].flow.value.count <= n {
      CountStaysWithin(st, ev, st', s, n);
    }
  }

  /** Every lookup of the run returns at most `n` addresses. */
  ghost predicate LookupsWithin(r: Run, n: nat)
    requires IsRun(r)
  {
    forall i {:trigger r.events[i]} :: 0 <= i < |r.events| ==> AnswerWithin(r.states[i], r.events[i], n)
  }

  lemma {:induction false} RunStaysWithin(r: Run, i: nat, n: nat)
    requires IsRun(r) && i < |r.states| && LookupsWithin(r, n)
    ensures Within(r.states[i], n)
  {
    if i == 0 {
    } else {
      RunStaysWithin(r, i - 1, n);
      RunKeepsInv(r, i - 1);
      assert Follows(r, i - 1);
      StepStaysWithin(r.states[i - 1], r.events[i - 1], r.states[i], n);
    }
  }

  // ---- The measure ----

  function PcRank(pc: Pc, n: nat): nat {
    match pc
    case Leave(_, again) => if again then 11 + n else 0
    case RemoveNone(_) => 1
    case RemoveStale(_) => 1
    case CheckAlive(_) => 1
    case Got(_) => 2
    case Publish(_, _) => 3
    case Spawn(_, _, _) => 4
    case Remember(_, _, _) => 5
    case Bind(_, m, _, offset) => 6 + (if offset <= m then m - offset else 0)
    case ReadPreferred(_, _) => 7 + n
    case Resolve(_) => 8 + n
    case Await(_) => 9 + n
    case Lookup => 10 + n
    case Start => 11 + n
    case Remove(_) => 12 + n
    case Cancel(_) => 13 + n
    case Advance(_) => 14 + n
    case Swap(_) => 15 + n
    case Send(_) => 16 + n
  }

  /** How many more times the counters can grow. */
  function Retries(hd: Handler, n: nat): nat
    requires HandlerWithin(hd, n)
  {
    MaxAttempts(n) + 3 - hd.attempts - hd.stale
  }

  function Rank(hd: Handler, n: nat): nat
    requires HandlerWithin(hd, n)
  {
    Retries(hd, n) * (17 + n) + PcRank(hd.pc, n)
  }

  /** The bound on the steps of one handler. */
  function MaxSteps(n: nat): nat {
    (MaxAttempts(n) + 3) * (17 + n) + 11 + n
  }

  /** Either a counter grows, or the counters stay and the position moves forward. */
  lemma MovesForward(hd: Handler, hd': Handler, c: Choice, count: nat, n: nat)
    requires Moves(hd, hd', c, count) && HandlerWithin(hd, n) && count <= n
    requires hd.pc.Resolve? && c.ok ==> c.count <= n
    ensures || hd'.attempts + hd'.stale == hd.attempts + hd.stale + 1
            || (hd'.attempts + hd'.stale == hd.attempts + hd.stale && PcRank(hd'.pc, n) < PcRank(hd.pc, n))
    ensures PcRank(hd'.pc, n) < 17 + n
  {}

  lemma RankDecreases(hd: Handler, hd': Handler, n: nat)
    requires HandlerWithin(hd, n) && HandlerWithin(hd', n)
    requires PcRank(hd'.pc, n) < 17 + n
    requires || hd'.attempts + hd'.stale == hd.attempts + hd.stale + 1
             || (hd'.attempts + hd'.stale == hd.attempts + hd.stale && PcRank(hd'.pc, n) < PcRank(hd.pc, n))
    ensures Rank(hd', n) < Rank(hd, n)
  {
    var k := 17 + n;
    if hd'.attempts + hd'.stale == hd.attempts + hd.stale + 1 {
      assert Retries(hd, n) == Retries(hd', n) + 1;
      assert (Retries(hd', n) + 1) * k == Retries(hd', n) * k + k;
    }
  }

  /** Every step of a handler decreases its rank. */
  lemma OwnStepDecreases(st: State, h: HandlerId, c: Choice, st': State, n: nat)
    requires Inv(st) && Within(st, n) && StepOf(st, Handle(h, c), st') && h in st'.handlers
    requires AnswerWithin(st, Handle(h, c), n)
    ensures HandlerWithin(st'.handlers[h], n)
    ensures Rank(st'.handlers[h], n) < Rank(st.handlers[h], n)
  {
    HandlerStaysWithin(st, h, c, st', n);
    HandlerMoves(st, h, c, st');
    var hd, hd' := st.handlers[h], st'.handlers[h];
    MovesForward(hd, hd', c, FlowCount(st, h), n);
    RankDecreases(hd, hd', n);
  }

  /** A step of anyone else leaves the handler's record, and so its rank, alone. */
  lemma OtherStepKeeps(st: State, ev: Event, st': State, h: HandlerId)
    requires StepOf(st, ev, st') && h in st.handlers && !(ev.Handle? && ev.h == h)
    ensures h in st'.handlers && st'.handlers[h] == st.handlers[h]
  {
    StepFrames(st, ev, st');
    OthersStay(st, ev, st', h);
  }

  /** A handler that was not there a step ago is at its start. */
  lemma NewHandler(st: State, ev: Event, st': State, h: HandlerId)
    requires StepOf(st, ev, st') && h !in st.handlers && h in st'.handlers
    ensures st'.handlers[h] == Handler(st'.handlers[h].assoc, st'.handlers[h].target, 0, 0, Start)
  {
    StepFrames(st, ev, st');
    OthersStay(st, ev, st', h);
  }

  // ---- Counting over runs ----

  /** What is counted about a handler: its steps, its rounds of the loop, its sends that
      succeed and those that fail, and the switched-off flows it has met. */
  datatype Tally = Steps | Rounds | Sent | Failed | Stale

  predicate Counts(st: State, ev: Event, h: HandlerId, what: Tally) {
    && ev.Handle? && ev.h == h && h in st.handlers
    && match what
       case Steps => true
       case Rounds => st.handlers[h].pc.Lookup?
       case Sent => st.handlers[h].pc.Send? && ev.c.ok
       case Failed => st.handlers[h].pc.Send? && !ev.c.ok
       case Stale => st.handlers[h].pc.RemoveStale?
  }

  /** How often `what` happened to handler `h` since it was spawned, as long as it lives. */
  ghost function Total(r: Run, i: nat, h: HandlerId, what: Tally): nat
    requires IsRun(r) && i < |r.states|
  {
    if i == 0 || h !in r.states[i - 1].handlers || h !in r.states[i].handlers then 0
    else Total(r, i - 1, h, what) + (if Counts(r.states[i - 1], r.events[i - 1], h, what) then 1 else 0)
  }

  /** The same with the step that is taken next, which may be the handler's last. */
  ghost function TotalWithNext(r: Run, i: nat, h: HandlerId, what: Tally): nat
    requires IsRun(r) && i < |r.events|
  {
    Total(r, i, h, what) + (if Counts(r.states[i], r.events[i], h, what) then 1 else 0)
  }

  /** The round in progress has been counted, its attempt or stale retry has not. */
  predicate MidRound(pc: Pc) {
    !pc.Start? && !pc.Lookup? && !Counted(pc) && !(pc.Leave? && pc.again)
  }

  predicate TallyFits(hd: Handler, rounds: nat, sent: nat) {
    && rounds <= hd.attempts + hd.stale + (if MidRound(hd.pc) then 1 else 0)
    && sent <= (if hd.pc.Leave? && !hd.pc.again then 1 else 0)
  }

  /** The tallies of a handler follow from its counters. */
  ghost predicate Tallied(r: Run, i: nat, h: HandlerId)
    requires IsRun(r) && i < |r.states|
  {
    h in r.states[i].handlers ==>
      TallyFits(r.states[i].handlers[h], Total(r, i, h, Rounds), Total(r, i, h, Sent))
  }

  lemma MovesTally(hd: Handler, hd': Handler, c: Choice, count: nat, rounds: nat, sent: nat)
    requires Moves(hd, hd', c, count) && TallyFits(hd, rounds, sent)
    ensures TallyFits(hd', rounds + (if hd.pc.Lookup? then 1 else 0), sent + (if hd.pc.Send? && c.ok then 1 else 0))
  {}

  /** One step of any task keeps a handler's tallies and counters in accord. */
  lemma StepTallies(st: State, ev: Event, st': State, h: HandlerId, rounds: nat, sent: nat)
    requires Inv(st) && StepOf(st, ev, st') && h in st.handlers && h in st'.handlers
    requires TallyFits(st.handlers[h], rounds, sent)
    ensures TallyFits(st'.handlers[h], rounds + (if Counts(st, ev, h, Rounds) then 1 else 0),
                      sent + (if Counts(st, ev, h, Sent) then 1 else 0))
  {
    if ev.Handle? && ev.h == h {
      HandlerMoves(st, h, ev.c, st');
      MovesTally(st.handlers[h], st'.handlers[h], ev.c, FlowCount(st, h), rounds, sent);
    } else {
      OtherStepKeeps(st, ev, st', h);
    }
  }

  lemma {:induction false} TalliesFollow(r: Run, i: nat, h: HandlerId)
    requires IsRun(r) && i < |r.states|
    ensures Tallied(r, i, h)
  {
    if i == 0 || h !in r.states[i].handlers {
    } else {
      var st, ev, st' := r.states[i - 1], r.events[i - 1], r.states[i];
      assert Follows(r, i - 1);
      TalliesFollow(r, i - 1, h);
      RunKeepsInv(r, i - 1);
      if h in st.handlers {
        StepTallies(st, ev, st', h, Total(r, i - 1, h, Rounds), Total(r, i - 1, h, Sent));
      } else {
        NewHandler(st, ev, st', h);
      }
    }
  }

  lemma FirstRank(hd: Handler, n: nat)
    requires hd.pc == Start && hd.attempts == hd.stale == 0 && HandlerWithin(hd, n)
    ensures Rank(hd, n) == MaxSteps(n)
  {}

  /** A handler's steps so far and its rank never exceed the rank it started with. */
  lemma {:induction false} StepsAreBounded(r: Run, i: nat, h: HandlerId, n: nat)
    requires IsRun(r) && i < |r.states| && LookupsWithin(r, n)
    requires h in r.states[i].handlers
    ensures HandlerWithin(r.states[i].handlers[h], n)
    ensures Total(r, i, h, Steps) + Rank(r.states[i].handlers[h], n) <= MaxSteps(n)
  {
    RunStaysWithin(r, i, n);
    if i == 0 {
    } else {
      var st, ev, st' := r.states[i - 1], r.events[i - 1], r.states[i];
      assert Follows(r, i - 1);
      RunKeepsInv(r, i - 1);
      RunStaysWithin(r, i - 1, n);
      if h !in st.handlers {
        NewHandler(st, ev, st', h);
        FirstRank(st'.handlers[h], n);
      } else {
        StepsAreBounded(r, i - 1, h, n);
        if ev.Handle? && ev.h == h { OwnStepDecreases(st, h, ev.c, st', n); } else { OtherStepKeeps(st, ev, st', h); }
      }
    }
  }

  /** A handler that goes round again has used up at most `n + 1` of its rounds. */
  lemma RoundsAtLookup(r: Run, i: nat, h: HandlerId, n: nat)
    requires IsRun(r) && i < |r.states| && LookupsWithin(r, n)
    requires h in r.states[i].handlers && r.states[i].handlers[h].pc.Lookup?
    ensures Total(r, i, h, Rounds) <= n + 1
  {
    RunStaysWithin(r, i, n);
    TalliesFollow(r, i, h);
    var hd := r.states[i].handlers[h];
    assert HandlerWithin(hd, n) && TallyFits(hd, Total(r, i, h, Rounds), Total(r, i, h, Sent));
  }

  lemma {:induction false} RoundsAreBounded(r: Run, i: nat, h: HandlerId, n: nat)
    requires IsRun(r) && i < |r.states| && LookupsWithin(r, n)
    requires h in r.states[i].handlers
    ensures Total(r, i, h, Rounds) <= n + 2
  {
    if i == 0 || h !in r.states[i - 1].handlers {
    } else {
      RoundsAreBounded(r, i - 1, h, n);
      if r.states[i - 1].handlers[h].pc.Lookup? { RoundsAtLookup(r, i - 1, h, n); }
    }
  }

  /** However the other tasks interfere: if lookups return at most `n` addresses, a handler
      goes at most `n + 2` times round its loop, takes at most `MaxSteps(n) + 1` steps, and
      performs at most one successful send, its last step included. */
  lemma {:induction false} HandlerTerminates(r: Run, i: nat, h: HandlerId, n: nat)
    requires IsRun(r) && i < |r.events| && LookupsWithin(r, n)
    requires h in r.states[i].handlers
    ensures TotalWithNext(r, i, h, Rounds) <= n + 2
    ensures TotalWithNext(r, i, h, Steps) <= MaxSteps(n) + 1
    ensures TotalWithNext(r, i, h, Sent) <= 1
  {
    RoundsAreBounded(r, i, h, n);
    if r.states[i].handlers[h].pc.Lookup? { RoundsAtLookup(r, i, h, n); }
    StepsAreBounded(r, i, h, n);
    TalliesFollow(r, i, h);
  }

  // ---- Nobody waits for ever ----

  lemma {:induction false} FreshId(used: set<nat>) returns (n: nat)
    ensures n !in used
    ensures forall k :: k in used ==> k < n
  {
    if used == {} {
      n := 0;
    } else {
      var k :| k in used;
      var m := FreshId(used - {k});
      n := if m <= k then k + 1 else m;
      assert forall j :: j in used ==> j == k || j in used - {k};
    }
  }

  lemma VictimExists(preferred: map<Target, nat>, t: Target)
    ensures exists v :: VictimOk(preferred, t, v)
  {
    if |preferred| >= MAX_FLOWS_PER_ASSOCIATION {
      var v :| v in preferred.Keys;
      assert VictimOk(preferred, t, v);
    } else {
      assert VictimOk(preferred, t, t);
    }
  }

  lemma HandlerCanStep(st: State, h: HandlerId)
    requires Inv(st) && HandlerReady(st, h)
    requires st.handlers[h].pc.Await? ==> !st.slots[st.handlers[h].pc.s].cell.Running?
    ensures exists c :: HandlerEnabled(st, h, c)
  {
    var hd := st.handlers[h];
    var slot := FreshId(st.slots.Keys);
    VictimExists(st.assocs[hd.assoc].preferred, hd.target);
    var victim :| VictimOk(st.assocs[hd.assoc].preferred, hd.target, victim);
    var c := Choice(slot, false, 0, victim, Slept);
    if SlotOf(hd.pc).Some? { HandlerKnows(st, h); }
    assert HandlerEnabled(st, h, c);
  }

  /** The only thing a handler can wait for is the cell of its slot, and then the handler that
      fills it is alive, inside the initialiser, and itself not waiting. */
  lemma NoHandlerIsStuck(st: State, h: HandlerId)
    requires Inv(st) && h in st.handlers
    ensures HandlerReady(st, h)
    ensures || (exists c :: HandlerEnabled(st, h, c))
            || (&& st.handlers[h].pc.Await?
                && exists k :: && Holds(st, k, st.handlers[h].pc.s) && Initialising(st.handlers[k].pc)
                               && HandlerReady(st, k) && exists c :: HandlerEnabled(st, k, c))
  {
    TasksAreReady(st);
    var pc := st.handlers[h].pc;
    if pc.Await? && st.slots[pc.s].cell.Running? {
      HandlerKnows(st, h);
      assert SlotOk(st, pc.s);
      var k := st.slots[pc.s].cell.runner;
      assert Holds(st, k, pc.s);
      HandlerKnows(st, k);
      HandlerCanStep(st, k);
    } else {
      HandlerCanStep(st, h);
    }
  }

  // ---- Workers drain after the association is closed ----

  function WorkerRank(pc: WPc): nat {
    match pc
    case WDeadline => 8
    case WSelect => 7
    case WReceived => 6
    case WReply => 6
    case WLoop => 5
    case WSwap => 4
    case WAdvance => 3
    case WRemove => 2
    case WLeave => 1
  }

  predicate Closed(st: State, a: AssocId) {
    a in st.assocs && !st.assocs[a].alive
  }

  /** The step on which a worker ends has taken its slot out of the map before. */
  lemma EndedWorkerHasRemoved(st: State, s: SlotId, c: Choice)
    requires Inv(st) && WorkerReady(st, s) && WorkerEnabled(st, s, c)
    requires s !in WorkerStep(st, s, c).workers
    ensures !InFlows(WorkerStep(st, s, c), st.slots[s].assoc, st.slots[s].target, s)
  {
    WorkerKnows(st, s);
    assert SlotOk(st, s) && st.workers[s].pc.WLeave?;
  }

  /** Once its association is closed every step brings a worker nearer to its end: it ends
      after at most eight of its own steps. */
  lemma ClosedWorkerDrains(st: State, s: SlotId, c: Choice)
    requires Inv(st) && WorkerReady(st, s) && WorkerEnabled(st, s, c)
    requires Closed(st, st.slots[s].assoc)
    ensures s in WorkerStep(st, s, c).workers ==>
      WorkerRank(WorkerStep(st, s, c).workers[s].pc) < WorkerRank(st.workers[s].pc)
  {
    WorkerKnows(st, s);
    assert SlotOk(st, s);
  }

  /** And nothing can keep it from taking those steps: with the association's token cancelled
      every one of its positions has an enabled step. */
  lemma ClosedWorkerCanStep(st: State, s: SlotId)
    requires Inv(st) && WorkerReady(st, s)
    requires st.workers[s].pc.WSelect? ==> st.assocs[st.slots[s].assoc].stopped
    ensures exists c :: WorkerEnabled(st, s, c)
  {
    VictimExists(st.assocs[st.slots[s].assoc].preferred, st.slots[s].target);
    var victim :| VictimOk(st.assocs[st.slots[s].assoc].preferred, st.slots[s].target, victim);
    assert WorkerEnabled(st, s, Choice(0, false, 0, victim, AssocStopped));
  }
}
