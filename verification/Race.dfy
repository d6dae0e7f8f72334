/** `race_connect` of src/happy_eyeballs.rs:68-127 (section 5 of RFC 8305) in virtual time:
    candidates are started in order, the next one when an attempt fails or 250 ms after the
    previous start, until one connects or all have failed. */
module Race {
  import opened Wrappers

  const HAPPY_EYEBALLS_DELAY := 250

  type Error = nat

  datatype Outcome = Connected(index: nat) | Failed(error: Error) | NothingTried

  /** A failure as it was observed: by then `started` candidates had been started. */
  datatype Failure = Failure(index: nat, error: Error, time: nat, started: nat)

  /** `starts[k]` is when candidate `k` was started; the candidate waiting next is
      `|starts|`, if there are that many; `joinSet` holds the attempts in flight. `lag` bounds
      how late the executor takes a timer that is due; every finite run has such a bound. */
  datatype State = State(
    count: nat, lag: nat, starts: seq<nat>, joinSet: set<nat>, failures: seq<Failure>, now: nat, outcome: Option<Outcome>)

  datatype Event =
    | Tick(passed: nat)                    // time goes by
    | Elapsed                              // the `sleep` branch of `select!`
    | Joined(index: nat, result: Option<Error>) // an attempt ends, `None` meaning connected

  predicate Waiting(s: State) {
    |s.starts| < s.count
  }

  function LastStart(s: State): nat {
    if s.starts == [] then 0 else s.starts[|s.starts| - 1]
  }

  function LastError(s: State): Outcome {
    if s.failures == [] then NothingTried else Failed(s.failures[|s.failures| - 1].error)
  }

  /** The condition of the `while` loop fails: the error is returned. */
  function Settle(s: State): State {
    if s.outcome.None? && !Waiting(s) && s.joinSet == {} then s.(outcome := Some(LastError(s))) else s
  }

  function Start(s: State): State {
    if Waiting(s) then s.(starts := s.starts + [s.now], joinSet := s.joinSet + {|s.starts|}) else s
  }

  function Begin(count: nat, lag: nat): State {
    Settle(Start(State(count, lag, [], {}, [], 0, None)))
  }

  /** The sleep of an iteration begins when the iteration does, which is when the previous
      candidate was started; the executor is at most `lag` late for a timer that is due. */
  predicate Enabled(s: State, ev: Event) {
    && s.outcome.None?
    && match ev
       case Tick(passed) => passed > 0 && (Waiting(s) ==> s.now + passed <= LastStart(s) + HAPPY_EYEBALLS_DELAY + s.lag)
       case Elapsed => Waiting(s) && s.now >= LastStart(s) + HAPPY_EYEBALLS_DELAY
       case Joined(index, _) => index in s.joinSet
  }

  function Apply(s: State, ev: Event): State {
    match ev
    case Tick(passed) => s.(now := s.now + passed)
    case Elapsed => Start(s)
    case Joined(index, None) => s.(joinSet := {}, outcome := Some(Connected(index)))
    case Joined(index, Some(error)) =>
      var failed := s.(joinSet := s.joinSet - {index},
                       failures := s.failures + [Failure(index, error, s.now, |s.starts|)]);
      Settle(Start(failed))
  }

  /** The state after a sequence of events. */
  function After(count: nat, lag: nat, events: seq<Event>): State {
    if events == [] then Begin(count, lag)
    else Apply(After(count, lag, events[..|events| - 1]), events[|events| - 1])
  }

  /** The events can happen in this order. */
  predicate Possible(count: nat, lag: nat, events: seq<Event>) {
    events == [] ||
    (Possible(count, lag, events[..|events| - 1])
     && Enabled(After(count, lag, events[..|events| - 1]), events[|events| - 1]))
  }

  lemma {:induction false} PossiblePrefix(count: nat, lag: nat, events: seq<Event>, k: nat)
    requires Possible(count, lag, events) && k <= |events|
    ensures Possible(count, lag, events[..k])
    ensures k < |events| ==> Enabled(After(count, lag, events[..k]), events[k])
    ensures k < |events| ==> After(count, lag, events[..k + 1]) == Apply(After(count, lag, events[..k]), events[k])
    decreases |events|
  {
    if k < |events| {
      var before := events[..|events| - 1];
      assert before[..k] == events[..k];
      assert events[..k + 1][..k] == events[..k];
      if k < |before| {
        assert before[..k + 1] == events[..k + 1];
        PossiblePrefix(count, lag, before, k);
      }
    } else {
      assert events[..k] == events;
    }
  }

  // ---- What every state keeps ----

  predicate HasFailed(s: State, index: nat) {
    exists k :: 0 <= k < |s.failures| && s.failures[k].index == index
  }

  /** Candidate `k` was started no later than 250 ms and the lag after the previous one: the
      delay had run out, or a failure was observed at that moment, while `k` was the next in
      line. */
  predicate StartReason(s: State, k: nat)
    requires 0 < k < |s.starts|
  {
    && s.starts[k - 1] <= s.starts[k] <= s.starts[k - 1] + HAPPY_EYEBALLS_DELAY + s.lag
    && (|| s.starts[k] >= s.starts[k - 1] + HAPPY_EYEBALLS_DELAY
        || exists j :: 0 <= j < |s.failures| && s.failures[j].time == s.starts[k] && s.failures[j].started == k)
  }

  /** Starts come in list order, no later than 250 ms after one another. */
  predicate StartsOk(s: State) {
    && |s.starts| <= s.count
    && (s.count > 0 ==> |s.starts| > 0 && s.starts[0] == 0)
    && LastStart(s) <= s.now
    && (forall k {:trigger StartReason(s, k)} :: 0 < k < |s.starts| ==> StartReason(s, k))
  }

  /** Each attempt fails at most once, and only after it was started. */
  predicate FailuresOk(s: State) {
    && (forall k :: 0 <= k < |s.failures| ==> s.failures[k].index < |s.starts|)
    && (forall j, k :: 0 <= j < k < |s.failures| ==> s.failures[j].index != s.failures[k].index)
  }

  /** Until the outcome, every started attempt is in flight or has failed. */
  predicate FlightOk(s: State) {
    && (forall i {:trigger i in s.joinSet} :: i in s.joinSet ==> i < |s.starts| && !HasFailed(s, i))
    && (s.outcome.None? ==>
          && |s.starts| == |s.joinSet| + |s.failures|
          && s.joinSet != {}
          && (Waiting(s) ==> s.now <= LastStart(s) + HAPPY_EYEBALLS_DELAY + s.lag)
          && forall i {:trigger HasFailed(s, i)} :: 0 <= i < |s.starts| ==> i in s.joinSet || HasFailed(s, i))
  }

  /** An error is returned only when every candidate has failed, and it is the last one's. */
  predicate OutcomeOk(s: State) {
    match s.outcome
    case None => true
    case Some(Connected(i)) => i < |s.starts| && !HasFailed(s, i)
    case Some(o) =>
      && o == LastError(s) && |s.failures| == s.count && !Waiting(s)
      && forall i {:trigger HasFailed(s, i)} :: 0 <= i < s.count ==> HasFailed(s, i)
  }

  predicate Inv(s: State) {
    StartsOk(s) && FailuresOk(s) && FlightOk(s) && OutcomeOk(s)
  }

  lemma BeginOk(count: nat, lag: nat)
    ensures Inv(Begin(count, lag)) && Begin(count, lag).count == count && Begin(count, lag).lag == lag
  {
    if count > 0 {
      var s := State(count, lag, [0], {0}, [], 0, None);
      assert Begin(count, lag) == s;
      assert 0 in s.joinSet;
    }
  }

  /** A start when the delay has run out. */
  lemma StartOk(s: State)
    requires Inv(s) && s.outcome.None? && Waiting(s) && s.now >= LastStart(s) + HAPPY_EYEBALLS_DELAY
    ensures Inv(Start(s))
  {
    var s' := Start(s);
    forall k | 0 < k < |s'.starts| ensures StartReason(s', k) {
      if k < |s.starts| { assert StartReason(s, k); }
    }
    forall i ensures HasFailed(s', i) <==> HasFailed(s, i) {}
    assert |s.starts| !in s.joinSet;
  }

  /** The state after a failure, before the loop looks at its condition again. */
  function Failing(s: State, index: nat, error: Error): State {
    Start(s.(joinSet := s.joinSet - {index}, failures := s.failures + [Failure(index, error, s.now, |s.starts|)]))
  }

  /** The failures are those of before and this one. */
  lemma FailureSet(s: State, index: nat, error: Error)
    ensures forall i :: HasFailed(Failing(s, index, error), i) <==> HasFailed(s, i) || i == index
  {
    var s' := Failing(s, index, error);
    assert s'.failures[|s.failures|].index == index;
    forall i ensures HasFailed(s', i) <==> HasFailed(s, i) || i == index {
      if k :| 0 <= k < |s.failures| && s.failures[k].index == i {
        assert s'.failures[k].index == i;
      }
    }
  }

  lemma FailureStarts(s: State, index: nat, error: Error)
    requires Inv(s) && s.outcome.None? && index in s.joinSet
    ensures StartsOk(Failing(s, index, error)) && FailuresOk(Failing(s, index, error))
  {
    var s' := Failing(s, index, error);
    assert !HasFailed(s, index);
    forall k | 0 < k < |s'.starts| ensures StartReason(s', k) {
      if k < |s.starts| {
        assert StartReason(s, k);
        if j :| 0 <= j < |s.failures| && s.failures[j].time == s.starts[k] && s.failures[j].started == k {
          assert s'.failures[j] == s.failures[j];
        }
      } else {
        assert s'.failures[|s.failures|].time == s'.starts[k];
      }
    }
  }

  /** What holds when the loop looks at its condition holds after it, too. */
  lemma SettleOk(s: State)
    requires StartsOk(s) && FailuresOk(s) && s.outcome.None?
    requires forall i {:trigger i in s.joinSet} :: i in s.joinSet ==> i < |s.starts| && !HasFailed(s, i)
    requires |s.starts| == |s.joinSet| + |s.failures|
    requires Waiting(s) ==> s.joinSet != {} && s.now <= LastStart(s) + HAPPY_EYEBALLS_DELAY + s.lag
    requires forall i {:trigger HasFailed(s, i)} :: 0 <= i < |s.starts| ==> i in s.joinSet || HasFailed(s, i)
    ensures Inv(Settle(s))
  {
    var s' := Settle(s);
    forall i ensures HasFailed(s', i) <==> HasFailed(s, i) {}
    forall k | 0 < k < |s'.starts| ensures StartReason(s', k) { assert StartReason(s, k); }
  }

  /** A failure; the next candidate starts at once. */
  lemma FailureOk(s: State, index: nat, error: Error)
    requires Inv(s) && s.outcome.None? && index in s.joinSet
    ensures Inv(Settle(Failing(s, index, error)))
  {
    var s' := Failing(s, index, error);
    FailureStarts(s, index, error);
    FailureSet(s, index, error);
    assert |s.joinSet - {index}| == |s.joinSet| - 1;
    if Waiting(s) { assert |s.starts| in s'.joinSet; }
    SettleOk(s');
  }

  lemma StepOk(s: State, ev: Event)
    requires Inv(s) && Enabled(s, ev)
    ensures Inv(Apply(s, ev)) && Apply(s, ev).count == s.count && Apply(s, ev).lag == s.lag
  {
    match ev
    case Tick(_) =>
      var s' := Apply(s, ev);
      forall k | 0 < k < |s'.starts| ensures StartReason(s', k) { assert StartReason(s, k); }
      forall i ensures HasFailed(s', i) <==> HasFailed(s, i) {}
    case Elapsed => StartOk(s);
    case Joined(index, None) =>
      var s' := Apply(s, ev);
      forall k | 0 < k < |s'.starts| ensures StartReason(s', k) { assert StartReason(s, k); }
      forall i ensures HasFailed(s', i) <==> HasFailed(s, i) {}
    case Joined(index, Some(error)) => FailureOk(s, index, error);
  }

  lemma {:induction false} AfterOk(count: nat, lag: nat, events: seq<Event>)
    requires Possible(count, lag, events)
    ensures Inv(After(count, lag, events)) && After(count, lag, events).count == count && After(count, lag, events).lag == lag
    decreases |events|
  {
    if events == [] {
      BeginOk(count, lag);
    } else {
      AfterOk(count, lag, events[..|events| - 1]);
      StepOk(After(count, lag, events[..|events| - 1]), events[|events| - 1]);
    }
  }

  // ---- The same from the events alone ----

  /** What `select!` and `join_next` have delivered, without the state that the loop keeps. */
  function Clock(events: seq<Event>): nat {
    if events == [] then 0
    else
      var before := Clock(events[..|events| - 1]);
      match events[|events| - 1] case Tick(passed) => before + passed case _ => before
  }

  predicate IsFailure(ev: Event) {
    ev.Joined? && ev.result.Some?
  }

  /** The failures, in order. */
  function FailuresOf(events: seq<Event>): seq<(nat, Error)> {
    if events == [] then []
    else
      var before, ev := FailuresOf(events[..|events| - 1]), events[|events| - 1];
      if IsFailure(ev) then before + [(ev.index, ev.result.value)] else before
  }

  /** The moments at which a delay ran out or an attempt failed, in order. */
  function Turns(events: seq<Event>): seq<nat> {
    if events == [] then []
    else
      var before, ev := events[..|events| - 1], events[|events| - 1];
      if ev.Elapsed? || IsFailure(ev) then Turns(before) + [Clock(before)] else Turns(before)
  }

  /** One candidate at the beginning and one at each such moment, as long as there are any. */
  function StartsOf(count: nat, events: seq<Event>): seq<nat> {
    var moments := [0] + Turns(events);
    if |moments| <= count then moments else moments[..count]
  }

  /** The state agrees with the events. */
  ghost predicate Records(s: State, count: nat, events: seq<Event>) {
    && s.now == Clock(events)
    && s.starts == StartsOf(count, events)
    && |s.failures| == |FailuresOf(events)|
    && forall k :: 0 <= k < |s.failures| ==>
         s.failures[k].index == FailuresOf(events)[k].0 && s.failures[k].error == FailuresOf(events)[k].1
  }

  lemma StepRecords(s: State, count: nat, events: seq<Event>, ev: Event)
    requires Inv(s) && s.count == count && Records(s, count, events) && Enabled(s, ev)
    ensures Records(Apply(s, ev), count, events + [ev])
  {
    var after := events + [ev];
    assert after[..|after| - 1] == events;
    assert Turns(after) == Turns(events) || Turns(after) == Turns(events) + [Clock(events)];
    assert [0] + (Turns(events) + [Clock(events)]) == ([0] + Turns(events)) + [Clock(events)];
  }

  /** In every race: candidates are started in list order, the first at once and each further
      one at the very moment at which a delay runs out or an attempt fails; and the failures
      kept are those observed. */
  lemma {:induction false} RaceRecords(count: nat, lag: nat, events: seq<Event>)
    requires Possible(count, lag, events)
    ensures Records(After(count, lag, events), count, events)
    decreases |events|
  {
    if events == [] {
    } else {
      var before, ev := events[..|events| - 1], events[|events| - 1];
      AfterOk(count, lag, before);
      RaceRecords(count, lag, before);
      StepRecords(After(count, lag, before), count, before, ev);
      assert before + [ev] == events;
    }
  }

  // ---- The claims ----

  /** The race is won exactly by the attempt that connects, at that event; it is lost exactly at
      the failure that makes as many as there are candidates, with that failure's error, or at
      once if there are none. */
  ghost predicate Decided(count: nat, events: seq<Event>, outcome: Option<Outcome>) {
    && (forall i :: outcome == Some(Connected(i)) <==> events != [] && events[|events| - 1] == Joined(i, None))
    && (forall e: Error :: outcome == Some(Failed(e)) <==>
          && events != [] && IsFailure(events[|events| - 1]) && events[|events| - 1].result == Some(e)
          && |FailuresOf(events)| == count)
    && (outcome == Some(NothingTried) <==> count == 0)
  }

  lemma RaceOutcome(count: nat, lag: nat, events: seq<Event>)
    requires Possible(count, lag, events)
    ensures Decided(count, events, After(count, lag, events).outcome)
  {
    AfterOk(count, lag, events);
    RaceRecords(count, lag, events);
    if events != [] {
      var before, ev := events[..|events| - 1], events[|events| - 1];
      AfterOk(count, lag, before);
      RaceRecords(count, lag, before);
    }
  }

  /** Candidate `i` is among the failures. */
  predicate FailedIn(failures: seq<(nat, Error)>, i: nat) {
    exists k :: 0 <= k < |failures| && failures[k].0 == i
  }

  lemma FailedMeans(s: State, count: nat, events: seq<Event>, i: nat)
    requires Records(s, count, events)
    ensures HasFailed(s, i) <==> FailedIn(FailuresOf(events), i)
  {
    var failures := FailuresOf(events);
    if k :| 0 <= k < |failures| && failures[k].0 == i { assert s.failures[k].index == i; }
    if k :| 0 <= k < |s.failures| && s.failures[k].index == i { assert failures[k].0 == i; }
  }

  /** Until the outcome the attempts in flight are those that were started and have not failed,
      and there are some; no attempt fails twice; and after an error every candidate has
      failed. */
  lemma RaceBookkeeping(count: nat, lag: nat, events: seq<Event>)
    requires Possible(count, lag, events)
    ensures var s, failures := After(count, lag, events), FailuresOf(events);
            && |s.starts| <= count
            && (forall j, k :: 0 <= j < k < |failures| ==> failures[j].0 != failures[k].0)
            && (s.outcome.None? ==>
                  && (forall i: nat :: i in s.joinSet <==> i < |s.starts| && !FailedIn(failures, i))
                  && |s.starts| == |s.joinSet| + |failures| && s.joinSet != {})
            && (s.outcome.Some? && !s.outcome.value.Connected? ==> forall i: nat :: i < count ==> FailedIn(failures, i))
  {
    AfterOk(count, lag, events);
    RaceRecords(count, lag, events);
    var s := After(count, lag, events);
    forall i: nat ensures HasFailed(s, i) <==> FailedIn(FailuresOf(events), i) {
      FailedMeans(s, count, events, i);
    }
  }

  lemma {:induction false} StartBound(s: State, k: nat)
    requires StartsOk(s) && k < |s.starts|
    ensures s.starts[k] <= k * (HAPPY_EYEBALLS_DELAY + s.lag)
  {
    if k == 0 {
    } else {
      StartBound(s, k - 1);
      assert StartReason(s, k);
      assert k * (HAPPY_EYEBALLS_DELAY + s.lag) == (k - 1) * (HAPPY_EYEBALLS_DELAY + s.lag) + HAPPY_EYEBALLS_DELAY + s.lag;
    }
  }

  lemma LaterBound(j: nat, k: nat, d: nat)
    requires j <= k
    ensures j * d <= k * d
  {}

  /** Until the next candidate is started its time has not come. */
  lemma NextStartIsDue(s: State)
    requires Inv(s) && s.outcome.None? && Waiting(s)
    ensures s.now <= |s.starts| * (250 + s.lag)
  {
    var last, per := |s.starts| - 1, 250 + s.lag;
    StartBound(s, last);
    assert (last + 1) * per == last * per + per;
  }

  /** With an executor that is never more than `lag` ms late candidate `k` is started by
      `k * (250 + lag)` ms, unless the race has been decided before. */
  lemma RaceTiming(count: nat, lag: nat, events: seq<Event>, k: nat)
    requires Possible(count, lag, events) && k < count
    ensures var s := After(count, lag, events);
            && (k < |s.starts| ==> s.starts[k] <= k * (250 + lag))
            && (s.outcome.None? && s.now > k * (250 + lag) ==> k < |s.starts|)
  {
    AfterOk(count, lag, events);
    var s := After(count, lag, events);
    if k < |s.starts| {
      StartBound(s, k);
    } else if s.outcome.None? {
      NextStartIsDue(s);
      LaterBound(|s.starts|, k, 250 + lag);
    }
  }

  /** Candidates are started at most 250 ms and the lag apart; one that is started earlier than
      250 ms after the previous one is started at the moment of a failure, while it is next. */
  lemma EarlyStart(count: nat, lag: nat, events: seq<Event>, k: nat)
    requires Possible(count, lag, events) && 0 < k < |After(count, lag, events).starts|
    ensures var s := After(count, lag, events);
            && s.starts[k - 1] <= s.starts[k] <= s.starts[k - 1] + 250 + lag
            && (s.starts[k] < s.starts[k - 1] + 250 ==>
                  exists j :: 0 <= j < |s.failures| && s.failures[j].time == s.starts[k] && s.failures[j].started == k)
  {
    AfterOk(count, lag, events);
    assert StartReason(After(count, lag, events), k);
  }

  /** The measure that every event but the passing of time decreases. */
  function Remaining(s: State): nat {
    if s.outcome.Some? then 0 else 2 * (if |s.starts| <= s.count then s.count - |s.starts| else 0) + |s.joinSet|
  }

  lemma EventDecreases(s: State, ev: Event)
    requires Inv(s) && Enabled(s, ev) && !ev.Tick?
    ensures Remaining(Apply(s, ev)) < Remaining(s)
  {
    StepOk(s, ev);
  }

  function Moves(events: seq<Event>): nat {
    if events == [] then 0
    else Moves(events[..|events| - 1]) + (if events[|events| - 1].Tick? then 0 else 1)
  }

  /** So a race over `n` addresses sees at most `2 n - 1` ends of attempts and of delays. */
  lemma {:induction false} RaceTerminates(count: nat, lag: nat, events: seq<Event>)
    requires Possible(count, lag, events)
    ensures Moves(events) + Remaining(After(count, lag, events)) <= if count == 0 then 0 else 2 * count - 1
    decreases |events|
  {
    if events == [] {
      if count > 0 { assert Begin(count, lag).joinSet == {0}; }
    } else {
      var before, ev := events[..|events| - 1], events[|events| - 1];
      RaceTerminates(count, lag, before);
      AfterOk(count, lag, before);
      if !ev.Tick? { EventDecreases(After(count, lag, before), ev); }
    }
  }

  // ---- The program ----

  /** The candidate at `iter`, if there is one. */
  function Candidate(iter: nat, count: nat): Option<nat> {
    if iter < count then Some(iter) else None
  }

  /** `last_error.unwrap_or_else(..)` */
  function ErrorOf(lastError: Option<Error>): Outcome {
    match lastError case Some(e) => Failed(e) case None => NothingTried
  }

  /** The program variables say the same as the state. */
  predicate Tracks(s: State, count: nat, joinSet: set<nat>, lastError: Option<Error>, iter: nat, nextCandidate: Option<nat>) {
    && s.count == count && |s.starts| == iter && joinSet == s.joinSet
    && nextCandidate == Candidate(iter, count)
    && LastError(s) == ErrorOf(lastError)
    && s.outcome == (if nextCandidate.None? && joinSet == {} then Some(LastError(s)) else None)
  }

  lemma TickTracks(s: State, count: nat, joinSet: set<nat>, lastError: Option<Error>, iter: nat, passed: nat)
    requires Tracks(s, count, joinSet, lastError, iter, Candidate(iter, count))
    ensures Tracks(Apply(s, Tick(passed)), count, joinSet, lastError, iter, Candidate(iter, count))
  {}

  lemma ElapsedTracks(s: State, count: nat, joinSet: set<nat>, lastError: Option<Error>, iter: nat)
    requires Tracks(s, count, joinSet, lastError, iter, Candidate(iter, count)) && Enabled(s, Elapsed)
    ensures iter < count
    ensures Tracks(Apply(s, Elapsed), count, joinSet + {iter}, lastError, iter + 1, Candidate(iter + 1, count))
  {}

  lemma FailureTracks(s: State, count: nat, joinSet: set<nat>, lastError: Option<Error>, iter: nat, index: nat, error: Error)
    requires Tracks(s, count, joinSet, lastError, iter, Candidate(iter, count))
    requires Enabled(s, Joined(index, Some(error)))
    ensures var s' := Apply(s, Joined(index, Some(error)));
            if iter < count
            then Tracks(s', count, joinSet - {index} + {iter}, Some(error), iter + 1, Candidate(iter + 1, count))
            else Tracks(s', count, joinSet - {index}, Some(error), iter, None)
  {}

  /** After the outcome nothing more happens. */
  lemma Finished(count: nat, lag: nat, events: seq<Event>, k: nat)
    requires Possible(count, lag, events) && k <= |events| && After(count, lag, events[..k]).outcome.Some?
    ensures k == |events| && events[..k] == events
  {
    PossiblePrefix(count, lag, events, k);
  }

  /** The loop of the source over the variables it updates; `env` is what `select!` and
      `join_next` deliver while it waits. `None` means that it is still waiting. The stream of
      the attempt that connected is returned, or the error of the last failure after all. */
  method RaceConnect(count: nat, lag: nat, env: seq<Event>) returns (outcome: Option<Outcome>)
    requires Possible(count, lag, env)
    ensures outcome == After(count, lag, env).outcome
    ensures Decided(count, env, outcome)
  {
    RaceOutcome(count, lag, env);
    var joinSet: set<nat> := {};
    var lastError: Option<Error> := None;
    var iter := 0;
    if iter < count {
      joinSet := joinSet + {iter};
      iter := iter + 1;
    }
    var nextCandidate: Option<nat> := if iter < count then Some(iter) else None;
    var k := 0;
    while nextCandidate.Some? || joinSet != {}
      invariant k <= |env| && iter <= count
      invariant Tracks(After(count, lag, env[..k]), count, joinSet, lastError, iter, nextCandidate)
      decreases |env| - k
    {
      if k == |env| {
        assert env[..k] == env;
        return None;
      }
      PossiblePrefix(count, lag, env, k);
      ghost var s := After(count, lag, env[..k]);
      assert After(count, lag, env[..k + 1]) == Apply(s, env[k]);
      match env[k] {
        case Tick(passed) =>
          TickTracks(s, count, joinSet, lastError, iter, passed);
        case Elapsed =>
          ElapsedTracks(s, count, joinSet, lastError, iter);
          joinSet := joinSet + {nextCandidate.value};
          iter := iter + 1;
          nextCandidate := if iter < count then Some(iter) else None;
        case Joined(index, None) =>
          Finished(count, lag, env, k + 1);
          return Some(Connected(index));
        case Joined(index, Some(error)) =>
          FailureTracks(s, count, joinSet, lastError, iter, index, error);
          lastError := Some(error);
          joinSet := joinSet - {index};
          if nextCandidate.Some? {
            joinSet := joinSet + {nextCandidate.value};
            iter := iter + 1;
            nextCandidate := if iter < count then Some(iter) else None;
          }
      }
      k := k + 1;
    }
    Finished(count, lag, env, k);
    outcome := Some(ErrorOf(lastError));
  }
}
