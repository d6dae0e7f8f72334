/** When the worker of a UDP flow gives it up for idleness (`receive_remote` of
    src/server.rs:847-898), against the requests that `handle_udp_packet` sends on it
    (src/server.rs:800-818), in virtual time. The worker's read of `last_activity` (line 854),
    its comparison with the clock (line 855) and its swap of `active` (line 898) are separate
    steps, and so are a request's check of `active`, its two settings of `last_activity` and its
    send. A timeout of 0 stands for none. */
module FlowExpiry {
  import opened Wrappers

  datatype Pc =
    | Top                                              // line 850
    | Compare(deadline: nat)                           // line 855
    | Waiting(wake: Option<nat>)                       // lines 861-874
    | Leaving(expired: bool, failed: bool)             // out of the loop, before line 898
    | Over(expired: bool, failed: bool, won: bool)     // past line 898

  /** Where a request is. */
  datatype Stage =
    | Checked      // has found the flow active (line 800)
    | Touched      // has set `last_activity` (line 812)
    | Delivered    // has sent (line 813)
    | Undelivered  // could not send

  type RequestId = nat

  /** `last` is the flow's `last_activity`, `received` the worker's `received_reply`. */
  datatype State = State(
    now: nat, last: nat, active: bool, requests: map<RequestId, Stage>, received: bool, pc: Pc)

  datatype Event =
    | Tick                           // one unit of time goes by
    | Check(h: RequestId)            // line 800 finds the flow active
    | Return(h: RequestId)           // line 809
    | Touch(h: RequestId)            // `last_activity` is set (line 812, or line 814 and return)
    | Send(h: RequestId, ok: bool)   // line 813
    | Off(h: RequestId)              // after a failed send the handler swaps `active` (line 817)
    | Load                           // `last_activity` is read (line 854)
    | Decide                         // the deadline is compared with the clock (line 855)
    | Slept                          // the sleep is over
    | Reply                          // a datagram comes back (lines 877-882)
    | Broken                         // receiving fails
    | Cancelled                      // the association or the flow is stopped
    | Swap                           // the worker swaps `active` (line 898)

  function Begin(start: nat): State {
    State(start, start, true, map[], false, Top)
  }

  predicate AtStage(s: State, h: RequestId, stage: Stage) {
    h in s.requests && s.requests[h] == stage
  }

  predicate Enabled(s: State, e: Event) {
    match e
    case Tick => true
    case Check(h) => h !in s.requests && s.active
    case Return(h) => AtStage(s, h, Checked)
    case Touch(h) => AtStage(s, h, Checked) || AtStage(s, h, Delivered)
    case Send(h, _) => AtStage(s, h, Touched)
    case Off(h) => AtStage(s, h, Undelivered)
    case Load => s.pc.Top?
    case Decide => s.pc.Compare?
    case Slept => s.pc.Waiting? && s.pc.wake.Some? && s.now >= s.pc.wake.value
    case Reply => s.pc.Waiting?
    case Broken => s.pc.Waiting?
    case Cancelled => s.pc.Waiting? || s.pc.Top?
    case Swap => s.pc.Leaving?
  }

  function Apply(timeout: nat, s: State, e: Event): State
    requires Enabled(s, e)
  {
    match e
    case Tick => s.(now := s.now + 1)
    case Check(h) => s.(requests := s.requests[h := Checked])
    case Return(h) => s.(requests := s.requests - {h})
    case Touch(h) =>
      s.(last := s.now,
         requests := if s.requests[h] == Checked then s.requests[h := Touched] else s.requests - {h})
    case Send(h, ok) => s.(requests := s.requests[h := if ok then Delivered else Undelivered])
    case Off(h) => s.(active := false, requests := s.requests - {h})
    case Load => s.(pc := if timeout == 0 then Waiting(None) else Compare(s.last + timeout))
    case Decide => s.(pc := if s.now >= s.pc.deadline then Leaving(true, !s.received) else Waiting(Some(s.pc.deadline)))
    case Slept => s.(pc := Top)
    case Reply => s.(last := s.now, received := true, pc := Top)
    case Broken => s.(pc := Leaving(false, true))
    case Cancelled => s.(pc := Leaving(false, false))
    case Swap => s.(active := false, pc := Over(s.pc.expired, s.pc.failed, s.active))
  }

  /** The events can happen in this order. */
  predicate Possible(timeout: nat, start: nat, events: seq<Event>)
    decreases |events|, 0
  {
    events == [] ||
    (Possible(timeout, start, events[..|events| - 1])
     && Enabled(After(timeout, start, events[..|events| - 1]), events[|events| - 1]))
  }

  function After(timeout: nat, start: nat, events: seq<Event>): State
    requires Possible(timeout, start, events)
    decreases |events|, 1
  {
    if events == [] then Begin(start)
    else Apply(timeout, After(timeout, start, events[..|events| - 1]), events[|events| - 1])
  }

  predicate Uses(e: Event) {
    e.Touch? || e.Reply?
  }

  /** When the flow was last used: the time of the last request or reply, or of its creation. */
  function LastUse(timeout: nat, start: nat, events: seq<Event>): nat
    requires Possible(timeout, start, events)
    decreases |events|
  {
    if events == [] then start
    else
      var before, e := events[..|events| - 1], events[|events| - 1];
      if Uses(e) then After(timeout, start, before).now else LastUse(timeout, start, before)
  }

  /** Where in the run `last_activity` was last read. */
  function LastLoad(events: seq<Event>): (k: nat)
    ensures k <= |events|
    ensures k < |events| ==> events[k] == Load && forall j :: k < j < |events| ==> events[j] != Load
    ensures k == |events| ==> Load !in events
  {
    if events == [] then 0
    else if events[|events| - 1] == Load then |events| - 1
    else
      var k := LastLoad(events[..|events| - 1]);
      if k < |events| - 1 then k else |events|
  }

  /** The worker has found the deadline passed. */
  predicate Expired(pc: Pc) {
    (pc.Leaving? || pc.Over?) && pc.expired
  }

  /** The last read of `last_activity` is the one the worker is acting on. */
  ghost predicate ActsOnLoad(timeout: nat, start: nat, events: seq<Event>) {
    var k := LastLoad(events);
    && timeout > 0 && k < |events| && Possible(timeout, start, events[..k])
    && forall j :: k < j < |events| ==> events[j] != Reply
  }

  /** The deadline that the worker has computed. */
  function DeadlineAt(pc: Pc): Option<nat> {
    match pc
    case Compare(deadline) => Some(deadline)
    case Waiting(wake) => wake
    case _ => None
  }

  /** What the worker knows at each point of a run. */
  ghost predicate Knows(timeout: nat, start: nat, events: seq<Event>)
    requires Possible(timeout, start, events)
  {
    var s, k := After(timeout, start, events), LastLoad(events);
    && s.last == LastUse(timeout, start, events) <= s.now
    && (s.received <==> Reply in events)
    && (DeadlineAt(s.pc).Some? || Expired(s.pc) ==> ActsOnLoad(timeout, start, events))
    && (DeadlineAt(s.pc).Some? ==> DeadlineAt(s.pc).value == LastUse(timeout, start, events[..k]) + timeout)
    && (s.pc.Waiting? ==> (s.pc.wake.Some? <==> timeout > 0))
    && (Expired(s.pc) ==>
          && LastUse(timeout, start, events[..k]) + timeout <= s.now
          && (s.pc.failed <==> !s.received))
  }

  lemma KnowsStep(timeout: nat, start: nat, before: seq<Event>, e: Event)
    requires Possible(timeout, start, before + [e]) && Possible(timeout, start, before)
    requires Knows(timeout, start, before)
    ensures Knows(timeout, start, before + [e])
  {
    var events := before + [e];
    assert events[..|before|] == before;
    var s, s' := After(timeout, start, before), After(timeout, start, events);
    if (DeadlineAt(s'.pc).Some? || Expired(s'.pc)) && e != Load {
      var k := LastLoad(before);
      assert LastLoad(events) == k;
      assert events[..k] == before[..k];
    }
  }

  lemma {:induction false} RunKnows(timeout: nat, start: nat, events: seq<Event>)
    requires Possible(timeout, start, events)
    ensures Knows(timeout, start, events)
    decreases |events|
  {
    if events == [] {
    } else {
      var n := |events| - 1;
      var before := events[..n];
      RunKnows(timeout, start, before);
      assert events == before + [events[n]];
      KnowsStep(timeout, start, before, events[n]);
    }
  }

  /** Exactly when the comparison ends the flow: if it had not been used for the whole timeout
      when `last_activity` was read. The preferred address is then advanced (`failed`) exactly
      if no reply has ever come. */
  lemma ExpiryDecision(timeout: nat, start: nat, events: seq<Event>)
    requires Possible(timeout, start, events + [Decide])
    ensures Possible(timeout, start, events) && LastLoad(events) < |events|
    ensures Possible(timeout, start, events[..LastLoad(events)])
    ensures var s := After(timeout, start, events + [Decide]);
            && (s.pc.Leaving? <==> LastUse(timeout, start, events[..LastLoad(events)]) + timeout <= s.now)
            && (s.pc.Leaving? ==> s.pc == Leaving(true, Reply !in events))
  {
    assert (events + [Decide])[..|events|] == events;
    RunKnows(timeout, start, events);
  }

  /** The units of time that have gone by. */
  function Ticks(events: seq<Event>): nat {
    if events == [] then 0
    else Ticks(events[..|events| - 1]) + if events[|events| - 1] == Tick then 1 else 0
  }

  predicate SwitchedOff(events: seq<Event>) {
    exists j :: 0 <= j < |events| && events[j].Off?
  }

  /** When the worker swaps, the flow has been switched off, or not. */
  ghost predicate SwapFinds(events: seq<Event>, off: bool) {
    exists k :: 0 <= k < |events| && events[k] == Swap && (SwitchedOff(events[..k]) <==> off)
  }

  lemma SwapStillFinds(before: seq<Event>, e: Event, off: bool)
    requires SwapFinds(before, off)
    ensures SwapFinds(before + [e], off)
  {
    var k :| 0 <= k < |before| && before[k] == Swap && (SwitchedOff(before[..k]) <==> off);
    assert (before + [e])[..k] == before[..k];
  }

  predicate Ended(pc: Pc) {
    pc.Leaving? || pc.Over?
  }

  /** The clock, the flag and the way the worker ends, by the events alone: it wins the swap
      exactly if no handler has switched the flow off before, and it has failed exactly if it
      could not receive, or has expired without any reply. */
  ghost predicate EventsTell(timeout: nat, start: nat, events: seq<Event>)
    requires Possible(timeout, start, events)
  {
    var s := After(timeout, start, events);
    && s.now == start + Ticks(events)
    && (s.active <==> !SwitchedOff(events) && Swap !in events)
    && (s.pc.Over? <==> Swap in events)
    && (Ended(s.pc) && !s.pc.expired <==> Broken in events || Cancelled in events)
    && (Ended(s.pc) ==> (s.pc.failed <==> Broken in events || (s.pc.expired && Reply !in events)))
    && (s.pc.Over? ==> SwapFinds(events, !s.pc.won))
  }

  lemma EventsTellStep(timeout: nat, start: nat, before: seq<Event>, e: Event)
    requires Possible(timeout, start, before + [e]) && Possible(timeout, start, before)
    requires EventsTell(timeout, start, before) && Knows(timeout, start, before)
    ensures EventsTell(timeout, start, before + [e])
  {
    var events := before + [e];
    assert events[..|before|] == before;
    assert events[|before|] == e;
    var s' := After(timeout, start, events);
    forall j | 0 <= j < |before| ensures events[j] == before[j] {}
    assert SwitchedOff(events) <==> SwitchedOff(before) || e.Off?;
    if s'.pc.Over? && e != Swap { SwapStillFinds(before, e, !s'.pc.won); }
  }

  lemma {:induction false} EventsTellAlways(timeout: nat, start: nat, events: seq<Event>)
    requires Possible(timeout, start, events)
    ensures EventsTell(timeout, start, events)
    decreases |events|
  {
    if events == [] {
    } else {
      var n := |events| - 1;
      EventsTellAlways(timeout, start, events[..n]);
      RunKnows(timeout, start, events[..n]);
      assert events == events[..n] + [events[n]];
      EventsTellStep(timeout, start, events[..n], events[n]);
    }
  }

  /** The worker sleeps until its deadline and not less. */
  lemma SleepsUntilDeadline(timeout: nat, start: nat, events: seq<Event>)
    requires Possible(timeout, start, events + [Slept])
    ensures timeout > 0 && Possible(timeout, start, events) && Possible(timeout, start, events[..LastLoad(events)])
    ensures LastUse(timeout, start, events[..LastLoad(events)]) + timeout <= After(timeout, start, events).now
  {
    assert (events + [Slept])[..|events|] == events;
    RunKnows(timeout, start, events);
  }

  // ---- What a request does ----

  function RequestOf(e: Event): Option<RequestId> {
    match e
    case Check(h) => Some(h)
    case Return(h) => Some(h)
    case Touch(h) => Some(h)
    case Send(h, _) => Some(h)
    case Off(h) => Some(h)
    case _ => None
  }

  /** What request `h` has done since it last found the flow active. */
  function Doings(events: seq<Event>, h: RequestId): seq<Event> {
    if events == [] then []
    else
      var before, e := events[..|events| - 1], events[|events| - 1];
      if e == Check(h) then [e] else if RequestOf(e) == Some(h) then Doings(before, h) + [e] else Doings(before, h)
  }

  /** It sets `last_activity`, sends and sets it again, or switches the flow off if it could not
      send; or it returns without having done anything. */
  ghost predicate InOrder(doings: seq<Event>, stage: Option<Stage>, h: RequestId) {
    match stage
    case Some(Checked) => doings == [Check(h)]
    case Some(Touched) => doings == [Check(h), Touch(h)]
    case Some(Delivered) => doings == [Check(h), Touch(h), Send(h, true)]
    case Some(Undelivered) => doings == [Check(h), Touch(h), Send(h, false)]
    case None =>
      || doings == [] || doings == [Check(h), Return(h)]
      || doings == [Check(h), Touch(h), Send(h, true), Touch(h)]
      || doings == [Check(h), Touch(h), Send(h, false), Off(h)]
  }

  function StageOf(s: State, h: RequestId): Option<Stage> {
    if h in s.requests then Some(s.requests[h]) else None
  }

  lemma {:induction false} RequestsInOrder(timeout: nat, start: nat, events: seq<Event>, h: RequestId)
    requires Possible(timeout, start, events)
    ensures InOrder(Doings(events, h), StageOf(After(timeout, start, events), h), h)
    decreases |events|
  {
    if events == [] {
    } else {
      var before, e := events[..|events| - 1], events[|events| - 1];
      RequestsInOrder(timeout, start, before, h);
    }
  }

  /** A request begins only if the flow has not been switched off, by a handler or the worker. */
  lemma RequestFindsActive(timeout: nat, start: nat, events: seq<Event>, h: RequestId)
    requires Possible(timeout, start, events + [Check(h)])
    ensures !SwitchedOff(events) && Swap !in events
  {
    assert (events + [Check(h)])[..|events|] == events;
    EventsTellAlways(timeout, start, events);
  }

  // ---- Which requests renew the flow ----

  /** Event `j` is a request that sets `last_activity`. */
  ghost predicate TouchedAt(timeout: nat, start: nat, events: seq<Event>, j: nat)
    requires j < |events|
  {
    Possible(timeout, start, events[..j]) && events[j].Touch?
  }

  lemma {:induction false} PrefixPossible(timeout: nat, start: nat, events: seq<Event>, k: nat)
    requires Possible(timeout, start, events) && k <= |events|
    ensures Possible(timeout, start, events[..k])
    decreases |events|
  {
    if k == |events| {
      assert events[..k] == events;
    } else {
      PrefixPossible(timeout, start, events[..|events| - 1], k);
      assert events[..|events| - 1][..k] == events[..k];
    }
  }

  /** No request came later than the last use. */
  lemma {:induction false} UseIsLast(timeout: nat, start: nat, events: seq<Event>, j: nat)
    requires Possible(timeout, start, events) && j < |events| && TouchedAt(timeout, start, events, j)
    ensures After(timeout, start, events[..j]).now <= LastUse(timeout, start, events)
    decreases |events|
  {
    var n := |events| - 1;
    var before := events[..n];
    RunKnows(timeout, start, before);
    if j == n {
    } else {
      assert events[..j] == before[..j];
      UseIsLast(timeout, start, before, j);
    }
  }

  /** Time does not go back. */
  lemma {:induction false} TimePasses(timeout: nat, start: nat, events: seq<Event>, k: nat)
    requires Possible(timeout, start, events) && k <= |events| && Possible(timeout, start, events[..k])
    ensures After(timeout, start, events[..k]).now <= After(timeout, start, events).now
    decreases |events|
  {
    if k == |events| {
      assert events[..k] == events;
    } else {
      var before := events[..|events| - 1];
      assert before[..k] == events[..k];
      TimePasses(timeout, start, before, k);
    }
  }

  /** If the last use is later than it was after `k` events, and no reply has come since, a
      request has. */
  lemma {:induction false} UseWasRequest(timeout: nat, start: nat, events: seq<Event>, k: nat) returns (j: nat)
    requires Possible(timeout, start, events) && k <= |events| && Possible(timeout, start, events[..k])
    requires forall i :: k <= i < |events| ==> events[i] != Reply
    requires LastUse(timeout, start, events) != LastUse(timeout, start, events[..k])
    ensures k <= j < |events| && TouchedAt(timeout, start, events, j)
    ensures After(timeout, start, events[..j]).now == LastUse(timeout, start, events)
    decreases |events|
  {
    assert events[..|events|] == events;
    var n := |events| - 1;
    var before := events[..n];
    if events[n].Touch? {
      j := n;
    } else {
      assert before[..k] == events[..k];
      j := UseWasRequest(timeout, start, before, k);
      assert events[..j] == before[..j];
    }
  }

  /** The deadline by which an expired flow was judged. */
  function Deadline(timeout: nat, start: nat, events: seq<Event>): nat
    requires Possible(timeout, start, events) && Possible(timeout, start, events[..LastLoad(events)])
  {
    LastUse(timeout, start, events[..LastLoad(events)]) + timeout
  }

  /** A request on a flow that has expired had renewed it, for the whole timeout, exactly if it
      set `last_activity` before the worker last read it (or at the same time as the use that
      the worker read). Whatever comes later renews nothing: between the read and the
      comparison, between the comparison and the swap, or after the swap. */
  lemma RequestRenews(timeout: nat, start: nat, events: seq<Event>, j: nat)
    requires Possible(timeout, start, events) && Expired(After(timeout, start, events).pc)
    requires j < |events| && TouchedAt(timeout, start, events, j)
    ensures Possible(timeout, start, events[..LastLoad(events)])
    ensures Deadline(timeout, start, events) <= After(timeout, start, events).now
    ensures After(timeout, start, events[..j]).now + timeout <= Deadline(timeout, start, events) <==>
      || j < LastLoad(events)
      || After(timeout, start, events[..j]).now == LastUse(timeout, start, events[..LastLoad(events)])
  {
    RunKnows(timeout, start, events);
    var k := LastLoad(events);
    RunKnows(timeout, start, events[..k]);
    if j < k {
      assert events[..k][..j] == events[..j];
      UseIsLast(timeout, start, events[..k], j);
    } else {
      assert j != k;
      assert events[..j][..k] == events[..k];
      TimePasses(timeout, start, events[..j], k);
    }
  }

  /** The flow has been used within the timeout. */
  predicate InUse(timeout: nat, start: nat, events: seq<Event>)
    requires Possible(timeout, start, events)
  {
    LastUse(timeout, start, events) + timeout > After(timeout, start, events).now
  }

  /** A request came in after `last_activity` was last read, and less than the timeout ago. */
  ghost predicate RenewedLate(timeout: nat, start: nat, events: seq<Event>)
    requires Possible(timeout, start, events)
  {
    exists j: nat :: LastLoad(events) < j < |events| && TouchedAt(timeout, start, events, j)
                     && After(timeout, start, events[..j]).now + timeout > After(timeout, start, events).now
  }

  /** docs/usage.md:70 says that requests and replies renew the flow. A worker that has found its
      flow expired and now switches it off gives up a flow in use if and only if a request came
      in, less than the timeout ago, after the worker's last read of `last_activity`. */
  lemma ExpiresInUse(timeout: nat, start: nat, events: seq<Event>)
    requires Possible(timeout, start, events + [Swap]) && Possible(timeout, start, events)
    requires Expired(After(timeout, start, events).pc)
    ensures InUse(timeout, start, events) <==> RenewedLate(timeout, start, events)
  {
    RunKnows(timeout, start, events);
    var k := LastLoad(events);
    if InUse(timeout, start, events) {
      var j := UseWasRequest(timeout, start, events, k);
      assert j != k;
    }
    if RenewedLate(timeout, start, events) {
      var j: nat :| k < j < |events| && TouchedAt(timeout, start, events, j)
                    && After(timeout, start, events[..j]).now + timeout > After(timeout, start, events).now;
      UseIsLast(timeout, start, events, j);
    }
  }

  // ---- A late request changes nothing ----

  /** The events without those of request `h`. */
  function Without(events: seq<Event>, h: RequestId): seq<Event> {
    if events == [] then []
    else
      var rest, e := Without(events[..|events| - 1], h), events[|events| - 1];
      if RequestOf(e) == Some(h) then rest else rest + [e]
  }

  /** The same but for the request `h` and for `last_activity`. */
  predicate SameButFor(s: State, t: State, h: RequestId) {
    t == s.(last := t.last, requests := t.requests) && t.requests - {h} == s.requests - {h}
  }

  lemma SameOwnStep(timeout: nat, s: State, t: State, e: Event, h: RequestId)
    requires SameButFor(s, t, h) && Enabled(s, e) && RequestOf(e) == Some(h) && !e.Off?
    ensures SameButFor(Apply(timeout, s, e), t, h)
  {
    assert Apply(timeout, s, e).requests - {h} == s.requests - {h};
  }

  lemma SameElsewhere(x: map<RequestId, Stage>, y: map<RequestId, Stage>, h: RequestId, i: RequestId, stage: Stage)
    requires x - {h} == y - {h} && i != h
    ensures i in x <==> i in y
    ensures i in x ==> x[i] == y[i]
    ensures (x - {i}) - {h} == (y - {i}) - {h}
    ensures x[i := stage] - {h} == y[i := stage] - {h}
  {
    assert i in x <==> i in x - {h};
    assert i in y <==> i in y - {h};
    assert (x - {i}) - {h} == (x - {h}) - {i} && (y - {i}) - {h} == (y - {h}) - {i};
    assert x[i := stage] - {h} == (x - {h})[i := stage] && y[i := stage] - {h} == (y - {h})[i := stage];
  }

  lemma SameOtherStep(timeout: nat, s: State, t: State, e: Event, h: RequestId)
    requires SameButFor(s, t, h) && Enabled(s, e) && RequestOf(e) != Some(h) && e != Load
    ensures Enabled(t, e) && SameButFor(Apply(timeout, s, e), Apply(timeout, t, e), h)
  {
    if RequestOf(e).Some? {
      var i, after := RequestOf(e).value, Apply(timeout, s, e).requests;
      SameElsewhere(s.requests, t.requests, h, i, if i in after then after[i] else Checked);
    }
  }

  lemma {:induction false} SameRun(timeout: nat, start: nat, first: seq<Event>, rest: seq<Event>, h: RequestId)
    requires Possible(timeout, start, first) && Possible(timeout, start, first + rest)
    requires Load !in rest && Off(h) !in rest
    ensures Possible(timeout, start, first + Without(rest, h))
    ensures SameButFor(After(timeout, start, first + rest), After(timeout, start, first + Without(rest, h)), h)
    decreases |rest|
  {
    if rest == [] {
      assert first + rest == first;
    } else {
      var n := |rest| - 1;
      var e, kept := rest[n], Without(rest[..n], h);
      assert (first + rest)[..|first + rest| - 1] == first + rest[..n];
      SameRun(timeout, start, first, rest[..n], h);
      var s, t := After(timeout, start, first + rest[..n]), After(timeout, start, first + kept);
      if RequestOf(e) == Some(h) {
        SameOwnStep(timeout, s, t, e, h);
      } else {
        SameOtherStep(timeout, s, t, e, h);
        assert first + Without(rest, h) == (first + kept) + [e];
        assert ((first + kept) + [e])[..|first + kept|] == first + kept;
      }
    }
  }

  /** What a request does after the worker's last read of `last_activity`, short of switching
      the flow off itself, changes nothing about its end: had the request not gone on, the flow
      would have been given up at the same time in the same way. */
  lemma LateRequestChangesNothing(timeout: nat, start: nat, events: seq<Event>, h: RequestId)
    requires Possible(timeout, start, events) && Expired(After(timeout, start, events).pc)
    requires forall j :: LastLoad(events) < j < |events| ==> events[j] != Off(h)
    ensures LastLoad(events) < |events|
    ensures var k := LastLoad(events) + 1;
            var others := events[..k] + Without(events[k..], h);
            && Possible(timeout, start, others)
            && After(timeout, start, others).now == After(timeout, start, events).now
            && After(timeout, start, others).pc == After(timeout, start, events).pc
            && After(timeout, start, others).active == After(timeout, start, events).active
  {
    RunKnows(timeout, start, events);
    var k := LastLoad(events) + 1;
    PrefixPossible(timeout, start, events, k);
    assert events == events[..k] + events[k..];
    SameRun(timeout, start, events[..k], events[k..], h);
  }

  // ---- Exactness, and the two ways to come too late ----

  /** If nothing comes between read, comparison and swap the timeout is exact. */
  lemma ExactWithoutInterruption(timeout: nat, start: nat, events: seq<Event>)
    requires timeout > 0 && Possible(timeout, start, events + [Load] + [Decide])
    ensures Possible(timeout, start, events)
    ensures After(timeout, start, events + [Load] + [Decide]).pc.Leaving? <==> !InUse(timeout, start, events)
  {
    var loaded := events + [Load];
    assert (loaded + [Decide])[..|loaded|] == loaded && loaded[..|events|] == events;
    RunKnows(timeout, start, events);
  }

  lemma Further(timeout: nat, start: nat, events: seq<Event>, e: Event, next: seq<Event>)
    requires Possible(timeout, start, events) && Enabled(After(timeout, start, events), e)
    requires next == events + [e]
    ensures Possible(timeout, start, next)
    ensures After(timeout, start, next) == Apply(timeout, After(timeout, start, events), e)
    ensures LastUse(timeout, start, next) ==
      if Uses(e) then After(timeout, start, events).now else LastUse(timeout, start, events)
  {
    assert next[..|events|] == events;
  }

  /** After `events` the flow is in use, and the worker now switches it off as expired. */
  ghost predicate GivesUpInUse(start: nat, events: seq<Event>) {
    && Possible(1, start, events) && InUse(1, start, events)
    && Possible(1, start, events + [Swap]) && After(1, start, events + [Swap]).pc == Over(true, true, true)
  }

  /** The request that comes between the read and the comparison: one unit of time after the flow
      was made, with a timeout of one unit, it sets `last_activity`, and the flow is given up
      at the same moment. */
  lemma LateRequestIsLost(start: nat)
    ensures GivesUpInUse(start, [Tick, Check(0), Load, Touch(0), Decide])
  {
    var a, b, c := [Tick], [Tick, Check(0)], [Tick, Check(0), Load];
    var d, e := [Tick, Check(0), Load, Touch(0)], [Tick, Check(0), Load, Touch(0), Decide];
    Further(1, start, [], Tick, a);
    Further(1, start, a, Check(0), b);
    Further(1, start, b, Load, c);
    Further(1, start, c, Touch(0), d);
    Further(1, start, d, Decide, e);
    Further(1, start, e, Swap, e + [Swap]);
  }

  /** The request that comes between the comparison and the swap, with nothing between the read
      and the comparison: it finds the flow active and is sent. */
  lemma RequestAfterDecisionIsLost(start: nat)
    ensures GivesUpInUse(start, [Tick, Load, Decide, Check(0), Touch(0), Send(0, true)])
  {
    var a, b, c := [Tick], [Tick, Load], [Tick, Load, Decide];
    var d, e := [Tick, Load, Decide, Check(0)], [Tick, Load, Decide, Check(0), Touch(0)];
    var f := [Tick, Load, Decide, Check(0), Touch(0), Send(0, true)];
    Further(1, start, [], Tick, a);
    Further(1, start, a, Load, b);
    Further(1, start, b, Decide, c);
    Further(1, start, c, Check(0), d);
    Further(1, start, d, Touch(0), e);
    Further(1, start, e, Send(0, true), f);
    Further(1, start, f, Swap, f + [Swap]);
  }

  /** Without a timeout a flow never expires. */
  lemma NoTimeoutNoExpiry(start: nat, events: seq<Event>)
    requires Possible(0, start, events)
    ensures !Expired(After(0, start, events).pc)
  {
    RunKnows(0, start, events);
  }
}
