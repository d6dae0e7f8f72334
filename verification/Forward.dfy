/** Forwarding with an idle timeout (`copy_direction` and `forward_bidirectional` of
    src/server.rs:490-550): two copying tasks share a watched time of last activity, and a
    `select!` loop sleeps until that time plus the timeout, in virtual time. */
module Forward {
  import opened Bytes
  import opened Wrappers

  const BUFFER := 65536

  type Error = nat

  // ---- One direction ----

  datatype Phase = Reading | Writing | Closing | Closed

  /** `got` is everything read so far and `put` everything written; `pending` is what
      `write_all` still has to write of a chunk of `size` bytes; `chunks` counts the chunks
      that were completed. */
  datatype Copy = Copy(
    got: seq<byte>, put: seq<byte>, pending: seq<byte>, size: nat, total: nat, chunks: nat, phase: Phase)

  const FRESH := Copy([], [], [], 0, 0, 0, Reading)

  datatype Move = Read(chunk: seq<byte>) | Write(count: nat) | Eof | Shut

  predicate CanMove(c: Copy, m: Move) {
    match m
    case Read(chunk) => c.phase == Reading && 1 <= |chunk| <= BUFFER
    case Write(count) => c.phase == Writing && 1 <= count <= |c.pending|
    case Eof => c.phase == Reading
    case Shut => c.phase == Closing
  }

  /** The write that ends a chunk, after which the time of activity is set. */
  predicate Completes(c: Copy, m: Move) {
    m.Write? && m.count == |c.pending|
  }

  function Moved(c: Copy, m: Move): Copy
    requires CanMove(c, m)
  {
    match m
    case Read(chunk) => c.(got := c.got + chunk, pending := chunk, size := |chunk|, phase := Writing)
    case Write(count) =>
      var d := c.(put := c.put + c.pending[..count], pending := c.pending[count..]);
      if Completes(c, m) then d.(total := c.total + c.size, chunks := c.chunks + 1, phase := Reading) else d
    case Eof => c.(phase := Closing)
    case Shut => c.(phase := Closed)
  }

  predicate CanWalk(c: Copy, moves: seq<Move>)
    decreases |moves|
  {
    moves == [] || (CanMove(c, moves[0]) && CanWalk(Moved(c, moves[0]), moves[1..]))
  }

  function Walk(c: Copy, moves: seq<Move>): Copy
    requires CanWalk(c, moves)
    decreases |moves|
  {
    if moves == [] then c else Walk(Moved(c, moves[0]), moves[1..])
  }

  lemma {:induction false} WalkOn(c: Copy, moves: seq<Move>, m: Move)
    requires CanWalk(c, moves) && CanMove(Walk(c, moves), m)
    ensures CanWalk(c, moves + [m]) && Walk(c, moves + [m]) == Moved(Walk(c, moves), m)
    decreases |moves|
  {
    if moves == [] {
      assert [m][1..] == [];
    } else {
      WalkOn(Moved(c, moves[0]), moves[1..], m);
      assert (moves + [m])[1..] == moves[1..] + [m];
    }
  }

  /** Nothing read is lost, reordered or made up. */
  predicate CopyOk(c: Copy) {
    && c.put + c.pending == c.got
    && (c.phase == Writing <==> c.pending != [])
    && |c.pending| <= c.size <= BUFFER
    && c.total + (if c.phase == Writing then c.size else 0) == |c.got|
  }

  lemma MoveKeepsCopy(c: Copy, m: Move)
    requires CopyOk(c) && CanMove(c, m)
    ensures CopyOk(Moved(c, m))
  {
    if m.Write? {
      assert c.pending == c.pending[..m.count] + c.pending[m.count..];
      assert (c.put + c.pending[..m.count]) + c.pending[m.count..] == c.put + c.pending;
    }
  }

  /** A chunk is read and the first `done` bytes of it are written. */
  ghost function WithChunk(moves: seq<Move>, chunk: seq<byte>, done: nat): seq<Move> {
    moves + [Read(chunk)] + (if done > 0 then [Write(done)] else [])
  }

  /** Where `moves` lead. */
  ghost predicate LeadsTo(moves: seq<Move>, put: seq<byte>, total: nat, chunks: nat, phase: Phase) {
    && CanWalk(FRESH, moves)
    && var c := Walk(FRESH, moves);
       c.put == put && c.total == total && c.chunks == chunks && c.phase == phase
  }

  lemma WalkChunk(moves: seq<Move>, put: seq<byte>, total: nat, chunks: nat, chunk: seq<byte>, done: nat)
    requires 0 < |chunk| <= BUFFER && done <= |chunk|
    requires LeadsTo(moves, put, total, chunks, Reading)
    ensures if done == |chunk|
            then LeadsTo(WithChunk(moves, chunk, done), put + chunk, total + |chunk|, chunks + 1, Reading)
            else LeadsTo(WithChunk(moves, chunk, done), put + chunk[..done], total, chunks, Writing)
  {
    WalkOn(FRESH, moves, Read(chunk));
    if done > 0 {
      WalkOn(FRESH, moves + [Read(chunk)], Write(done));
    } else {
      assert WithChunk(moves, chunk, done) == moves + [Read(chunk)];
    }
  }

  lemma WalkShutdown(moves: seq<Move>, put: seq<byte>, total: nat, chunks: nat)
    requires LeadsTo(moves, put, total, chunks, Reading)
    ensures LeadsTo(moves + [Eof], put, total, chunks, Closing)
    ensures LeadsTo(moves + [Eof, Shut], put, total, chunks, Closed)
  {
    WalkOn(FRESH, moves, Eof);
    WalkOn(FRESH, moves + [Eof], Shut);
    assert moves + [Eof] + [Shut] == moves + [Eof, Shut];
  }

  // ---- `copy_direction` as a program ----

  /** A stream that holds `rest` and then ends, or fails if `fault` is set. A read returns
      any non-empty part that fits the buffer. */
  class Reader {
    var rest: seq<byte>
    const fault: Option<Error>

    constructor (rest: seq<byte>, fault: Option<Error>)
      ensures this.rest == rest && this.fault == fault
    {
      this.rest, this.fault := rest, fault;
    }

    method Read(limit: nat) returns (r: Result<seq<byte>, Error>)
      requires limit > 0
      modifies this
      ensures r.Ok? ==> |r.value| <= limit && old(rest) == r.value + rest
      ensures r.Ok? && r.value == [] ==> rest == [] && fault.None?
      ensures r.Err? ==> rest == [] && old(rest) == [] && fault == Some(r.error)
    {
      if rest != [] {
        var n :| 1 <= n <= |rest| && n <= limit;
        r := Ok(rest[..n]);
        rest := rest[n..];
      } else {
        r := match fault case Some(e) => Err(e) case None => Ok([]);
      }
    }
  }

  /** A stream that takes `room` bytes before it fails, all of them if there is no limit. */
  class Writer {
    var written: seq<byte>
    var shut: bool
    const room: Option<nat>
    const shutdownFault: Option<Error>
    const fault: Error

    constructor (room: Option<nat>, fault: Error, shutdownFault: Option<Error>)
      ensures written == [] && !shut
      ensures this.room == room && this.fault == fault && this.shutdownFault == shutdownFault
    {
      written, shut := [], false;
      this.room, this.fault, this.shutdownFault := room, fault, shutdownFault;
    }

    /** It takes `n` bytes in all. */
    predicate Takes(n: nat) {
      room.None? || n <= room.value
    }

    method WriteAll(data: seq<byte>) returns (done: nat, r: Result<(), Error>)
      requires Takes(|written|)
      modifies this`written
      ensures r.Ok? <==> Takes(|old(written)| + |data|)
      ensures done <= |data| && written == old(written) + data[..done]
      ensures r.Ok? ==> done == |data|
      ensures r.Err? ==> r.error == fault && room.Some? && |written| == room.value
      ensures Takes(|written|)
    {
      if Takes(|written| + |data|) {
        done, r := |data|, Ok(());
      } else {
        done, r := room.value - |written|, Err(fault);
      }
      written := written + data[..done];
    }

    method Shutdown() returns (r: Result<(), Error>)
      modifies this`shut
      ensures match shutdownFault case Some(e) => r == Err(e) case None => r == Ok(())
      ensures shut == (old(shut) || r.Ok?)
    {
      r := match shutdownFault case Some(e) => Err(e) case None => Ok(());
      shut := shut || r.Ok?;
    }
  }

  /** The sender of the watched time of last activity; `version` counts what it has sent. */
  class Activity {
    var version: nat

    constructor ()
      ensures version == 0
    {
      version := 0;
    }

    method SendReplace()
      modifies this
      ensures version == old(version) + 1
    {
      version := version + 1;
    }
  }

  /** Succeeds exactly when the reader ends cleanly, the writer takes everything and can be
      shut down; then everything was written, and what was written is otherwise a prefix.
      Activity is reported once for each completed chunk. `moves` are the steps taken, in
      the terms of the model below. */
  method CopyDirection(reader: Reader, writer: Writer, activity: Activity)
    returns (r: Result<nat, Error>, ghost moves: seq<Move>)
    requires writer.written == [] && !writer.shut
    modifies reader, writer, activity
    ensures r.Ok? <==> writer.Takes(|old(reader.rest)|) && reader.fault.None? && writer.shutdownFault.None?
    ensures writer.shut == r.Ok?
    ensures writer.written <= old(reader.rest)
    ensures r.Ok? ==> writer.written == old(reader.rest) && r.value == |old(reader.rest)|
    ensures !writer.Takes(|old(reader.rest)|) ==> r == Err(writer.fault) && |writer.written| == writer.room.value
    ensures writer.Takes(|old(reader.rest)|) ==>
              writer.written == old(reader.rest)
              && (reader.fault.Some? ==> r == Err(reader.fault.value))
              && (reader.fault.None? && writer.shutdownFault.Some? ==> r == Err(writer.shutdownFault.value))
    ensures CanWalk(FRESH, moves)
    ensures var c := Walk(FRESH, moves);
            && c.put == writer.written && activity.version == old(activity.version) + c.chunks
            && (r.Ok? <==> c.phase == Closed) && (r.Ok? ==> c.total == r.value)
  {
    ghost var all := reader.rest;
    var total := 0;
    ghost var chunks := 0;
    moves := [];
    while true
      invariant writer.Takes(|writer.written|) && !writer.shut
      invariant writer.written + reader.rest == all
      invariant activity.version == old(activity.version) + chunks
      invariant total == |writer.written|
      invariant LeadsTo(moves, writer.written, total, chunks, Reading)
      decreases |reader.rest|
    {
      var chunk := reader.Read(BUFFER);
      if chunk.Err? {
        return Err(chunk.error), moves;
      }
      var n := |chunk.value|;
      if n == 0 {
        WalkShutdown(moves, writer.written, total, chunks);
        var closed := writer.Shutdown();
        if closed.Err? {
          return Err(closed.error), moves + [Eof];
        }
        return Ok(total), moves + [Eof, Shut];
      }
      ghost var written := writer.written;
      var done, wrote := writer.WriteAll(chunk.value);
      WalkChunk(moves, written, total, chunks, chunk.value, done);
      moves := WithChunk(moves, chunk.value, done);
      assert chunk.value + reader.rest == chunk.value[..done] + (chunk.value[done..] + reader.rest);
      if wrote.Err? {
        return Err(wrote.error), moves;
      }
      activity.SendReplace();
      assert chunk.value[..done] == chunk.value;
      chunks := chunks + 1;
      total := total + n;
    }
  }

  // ---- Both directions and the timer ----

  datatype Side = Up | Down

  datatype Outcome = Finished | Failed(error: Error) | TimedOut

  /** `lag` bounds how late the executor takes a branch that is ready; every finite run has
      such a bound, and 0 is an executor that is never late. */
  datatype Setup = Setup(idle: nat, lag: nat)

  /** `activity` is the watched time and `seen` whether the loop has taken its last value;
      `deadline` is what the loop sleeps until. */
  datatype State = State(
    now: nat, activity: nat, seen: bool, deadline: nat, up: Copy, down: Copy, outcome: Option<Outcome>)
  {
    function Of(side: Side): Copy {
      if side == Up then up else down
    }

    function With(side: Side, c: Copy): State {
      if side == Up then this.(up := c) else this.(down := c)
    }
  }

  datatype Event =
    | Tick                            // one unit of time goes by
    | Timer                           // the `sleep_until` branch
    | Changed                         // the `changed` branch
    | Step(side: Side, move: Move)    // a copying task goes on
    | Fault(side: Side, error: Error) // a read, a write or a shutdown fails

  function Begin(cfg: Setup, start: nat): State {
    State(start, start, true, start + cfg.idle, FRESH, FRESH, None)
  }

  /** The top of the loop. */
  function Rearm(cfg: Setup, s: State): State {
    s.(deadline := s.activity + cfg.idle, seen := true)
  }

  predicate Enabled(cfg: Setup, s: State, e: Event) {
    && s.outcome.None?
    && match e
       case Tick => s.now < s.deadline + cfg.lag && (s.seen || s.now < s.activity + cfg.lag)
       case Timer => s.now >= s.deadline
       case Changed => !s.seen
       case Step(side, move) => CanMove(s.Of(side), move)
       case Fault(side, _) => s.Of(side).phase != Closed
  }

  /** The step at which `write_all` returns, after which the time of activity is sent. */
  predicate Reports(s: State, e: Event) {
    e.Step? && Completes(s.Of(e.side), e.move)
  }

  /** `try_join!`: the transfer ends with the first failure, or when both directions have. */
  function Apply(cfg: Setup, s: State, e: Event): State
    requires Enabled(cfg, s, e)
  {
    match e
    case Tick => s.(now := s.now + 1)
    case Timer => if s.now - s.activity >= cfg.idle then s.(outcome := Some(TimedOut)) else Rearm(cfg, s)
    case Changed => Rearm(cfg, s)
    case Step(side, move) =>
      var moved := s.With(side, Moved(s.Of(side), move));
      if Reports(s, e) then moved.(activity := s.now, seen := false)
      else if moved.up.phase == Closed && moved.down.phase == Closed then moved.(outcome := Some(Finished))
      else moved
    case Fault(_, error) => s.(outcome := Some(Failed(error)))
  }

  /** The events can happen in this order. */
  predicate Possible(cfg: Setup, start: nat, events: seq<Event>)
    decreases |events|, 0
  {
    events == [] ||
    (Possible(cfg, start, events[..|events| - 1])
     && Enabled(cfg, After(cfg, start, events[..|events| - 1]), events[|events| - 1]))
  }

  function After(cfg: Setup, start: nat, events: seq<Event>): State
    requires Possible(cfg, start, events)
    decreases |events|, 1
  {
    if events == [] then Begin(cfg, start)
    else Apply(cfg, After(cfg, start, events[..|events| - 1]), events[|events| - 1])
  }

  ghost predicate Sound(cfg: Setup, s: State) {
    && s.activity <= s.now <= s.deadline + cfg.lag
    && s.deadline <= s.activity + cfg.idle
    && (s.seen ==> s.deadline == s.activity + cfg.idle)
    && (!s.seen ==> s.now <= s.activity + cfg.lag)
    && CopyOk(s.up) && CopyOk(s.down)
    && (s.outcome == Some(Finished) <==> s.up.phase == Closed && s.down.phase == Closed)
    && (s.outcome == Some(TimedOut) ==> s.now >= s.activity + cfg.idle)
  }

  lemma StepKeepsSound(cfg: Setup, s: State, e: Event)
    requires Sound(cfg, s) && Enabled(cfg, s, e)
    ensures Sound(cfg, Apply(cfg, s, e))
  {
    if e.Step? {
      MoveKeepsCopy(s.Of(e.side), e.move);
    }
  }

  /** In one direction there was something read and not yet written, and now all is written. */
  predicate CaughtUp(before: Copy, after: Copy) {
    before.put != before.got && after.put == after.got
  }

  /** At this event a direction has written everything that it has read. */
  predicate CatchesUp(cfg: Setup, s: State, e: Event)
    requires Enabled(cfg, s, e)
  {
    var s' := Apply(cfg, s, e);
    CaughtUp(s.up, s'.up) || CaughtUp(s.down, s'.down)
  }

  function Chunks(s: State): nat {
    s.up.chunks + s.down.chunks
  }

  /** A direction is behind exactly while it is writing. */
  lemma Behind(c: Copy)
    requires CopyOk(c)
    ensures c.put == c.got <==> c.phase != Writing
  {
    if c.put == c.got { assert |c.put + c.pending| == |c.put|; }
  }

  /** The watched time is set, and the loop told, exactly when a direction has caught up; that is
      when a chunk is counted. A part of a chunk does not count. */
  lemma ActivityExactly(cfg: Setup, s: State, e: Event)
    requires Sound(cfg, s) && Enabled(cfg, s, e)
    ensures var s' := Apply(cfg, s, e);
            if CatchesUp(cfg, s, e)
            then s'.activity == s.now && !s'.seen && Chunks(s') == Chunks(s) + 1
            else s'.activity == s.activity && Chunks(s') == Chunks(s) && (s'.seen == s.seen || e == Timer || e == Changed)
  {
    if e.Step? {
      var c := s.Of(e.side);
      MoveKeepsCopy(c, e.move);
      Behind(c);
      Behind(Moved(c, e.move));
    }
  }

  /** When the last chunk in either direction was completely written, or when the transfer
      began if none was. */
  function LastChunk(cfg: Setup, start: nat, events: seq<Event>): nat
    requires Possible(cfg, start, events)
    decreases |events|
  {
    if events == [] then start
    else
      var before := events[..|events| - 1];
      var s := After(cfg, start, before);
      if CatchesUp(cfg, s, events[|events| - 1]) then s.now else LastChunk(cfg, start, before)
  }

  lemma {:induction false} RunIsSound(cfg: Setup, start: nat, events: seq<Event>)
    requires Possible(cfg, start, events)
    ensures Sound(cfg, After(cfg, start, events))
    ensures After(cfg, start, events).activity == LastChunk(cfg, start, events) >= start
    decreases |events|
  {
    if events == [] {
    } else {
      var before := events[..|events| - 1];
      RunIsSound(cfg, start, before);
      StepKeepsSound(cfg, After(cfg, start, before), events[|events| - 1]);
      ActivityExactly(cfg, After(cfg, start, before), events[|events| - 1]);
    }
  }

  /** In every run each direction has written a prefix of what it read, all of it once it
      shuts its writer down, and counts what it has completed. */
  lemma BytesArePreserved(cfg: Setup, start: nat, events: seq<Event>, side: Side)
    requires Possible(cfg, start, events)
    ensures var c := After(cfg, start, events).Of(side);
            && c.put <= c.got && |c.got| - |c.put| <= 65536
            && (c.phase in {Reading, Closing, Closed} ==> c.put == c.got && c.total == |c.got|)
  {
    RunIsSound(cfg, start, events);
  }

  /** At event `k` a direction has written everything that it has read. */
  ghost predicate ChunkAt(cfg: Setup, start: nat, events: seq<Event>, k: nat)
    requires k < |events|
  {
    && Possible(cfg, start, events[..k]) && Enabled(cfg, After(cfg, start, events[..k]), events[k])
    && CatchesUp(cfg, After(cfg, start, events[..k]), events[k])
  }

  /** No chunk has been completed within the last `idle` units of time, nor did the
      transfer begin within them. */
  ghost predicate Silent(cfg: Setup, start: nat, events: seq<Event>)
    requires Possible(cfg, start, events)
  {
    var now := After(cfg, start, events).now;
    && start + cfg.idle <= now
    && forall k: nat {:trigger events[k]} :: k < |events| && ChunkAt(cfg, start, events, k)
         ==> After(cfg, start, events[..k]).now + cfg.idle <= now
  }

  lemma {:induction false} PrefixPossible(cfg: Setup, start: nat, events: seq<Event>, k: nat)
    requires Possible(cfg, start, events) && k <= |events|
    ensures Possible(cfg, start, events[..k])
    decreases |events|
  {
    if k == |events| {
      assert events[..k] == events;
    } else {
      var before := events[..|events| - 1];
      PrefixPossible(cfg, start, before, k);
      assert before[..k] == events[..k];
    }
  }

  /** `LastChunk` is no earlier than any completed chunk, and is one of them or the start. */
  lemma {:induction false} LastChunkIsLast(cfg: Setup, start: nat, events: seq<Event>)
    requires Possible(cfg, start, events)
    ensures start <= LastChunk(cfg, start, events)
    ensures forall k: nat {:trigger ChunkAt(cfg, start, events, k)} :: k < |events| && ChunkAt(cfg, start, events, k)
              ==> After(cfg, start, events[..k]).now <= LastChunk(cfg, start, events)
    ensures LastChunk(cfg, start, events) == start
            || exists k: nat :: k < |events| && ChunkAt(cfg, start, events, k)
                                && After(cfg, start, events[..k]).now == LastChunk(cfg, start, events)
    decreases |events|
  {
    if events != [] {
      var n := |events| - 1;
      var before := events[..n];
      LastChunkIsLast(cfg, start, before);
      RunIsSound(cfg, start, before);
      forall k: nat | k < n
        ensures ChunkAt(cfg, start, events, k) == ChunkAt(cfg, start, before, k) && events[..k] == before[..k]
      {
        assert events[..k] == before[..k];
      }
      if CatchesUp(cfg, After(cfg, start, before), events[n]) {
        assert ChunkAt(cfg, start, events, n);
      } else if LastChunk(cfg, start, before) != start {
        var k: nat :| k < n && ChunkAt(cfg, start, before, k)
                      && After(cfg, start, before[..k]).now == LastChunk(cfg, start, before);
        assert ChunkAt(cfg, start, events, k) && events[..k] == before[..k];
      }
    }
  }

  lemma SilentMeans(cfg: Setup, start: nat, events: seq<Event>)
    requires Possible(cfg, start, events)
    ensures Silent(cfg, start, events)
            <==> LastChunk(cfg, start, events) + cfg.idle <= After(cfg, start, events).now
  {
    LastChunkIsLast(cfg, start, events);
    var now, last := After(cfg, start, events).now, LastChunk(cfg, start, events);
    if Silent(cfg, start, events) && last != start {
      var k: nat :| k < |events| && ChunkAt(cfg, start, events, k) && After(cfg, start, events[..k]).now == last;
      assert events[k] == events[k];
    }
    if last + cfg.idle <= now {
      forall k: nat | k < |events| && ChunkAt(cfg, start, events, k)
        ensures After(cfg, start, events[..k]).now + cfg.idle <= now
      {
      }
    }
  }

  /** When the sleep is over the connection is given up if and only if it has been silent
      for the whole timeout, whatever the deadline was computed from. */
  lemma TimerDecides(cfg: Setup, start: nat, events: seq<Event>)
    requires Possible(cfg, start, events + [Timer])
    ensures Possible(cfg, start, events)
    ensures After(cfg, start, events + [Timer]).outcome == Some(TimedOut) <==> Silent(cfg, start, events)
    ensures After(cfg, start, events + [Timer]).outcome in {None, Some(TimedOut)}
  {
    assert (events + [Timer])[..|events|] == events;
    RunIsSound(cfg, start, events);
    SilentMeans(cfg, start, events);
  }

  /** A connection times out only after the whole timeout without a completed chunk, so
      never while every gap is shorter, and is never left silent for longer than the
      timeout and the executor's lag. */
  lemma TimedOutExactly(cfg: Setup, start: nat, events: seq<Event>)
    requires Possible(cfg, start, events)
    ensures var s := After(cfg, start, events);
            && (s.outcome == Some(TimedOut) ==> Silent(cfg, start, events))
            && s.now <= LastChunk(cfg, start, events) + cfg.idle + cfg.lag
  {
    RunIsSound(cfg, start, events);
    SilentMeans(cfg, start, events);
  }

  function Unfinished(c: Copy): nat {
    match c.phase
    case Reading => BUFFER + 1
    case Writing => |c.pending|
    case Closing => 1
    case Closed => 0
  }

  /** How many more events there can be before a chunk is completed or the transfer ends. */
  function Patience(cfg: Setup, s: State): int {
    2 * (s.activity + cfg.idle + cfg.lag - s.now)
    + (if s.seen && s.deadline == s.activity + cfg.idle then 0 else 1)
    + Unfinished(s.up) + Unfinished(s.down)
  }

  lemma PatienceRunsOut(cfg: Setup, s: State, e: Event)
    requires Sound(cfg, s) && Enabled(cfg, s, e) && !CatchesUp(cfg, s, e)
    ensures Apply(cfg, s, e).outcome.Some? || 0 <= Patience(cfg, Apply(cfg, s, e)) < Patience(cfg, s)
  {
    StepKeepsSound(cfg, s, e);
    ActivityExactly(cfg, s, e);
    if e.Step? {
      var c := s.Of(e.side);
      assert Unfinished(Moved(c, e.move)) < Unfinished(c);
    }
  }

  /** A run with no completed chunk is over within `Patience` events, */
  lemma {:induction false} SilenceEnds(cfg: Setup, start: nat, events: seq<Event>, more: seq<Event>)
    requires Possible(cfg, start, events + more) && Possible(cfg, start, events)
    requires forall k: nat {:trigger ChunkAt(cfg, start, events + more, k)} ::
               |events| <= k < |events + more| ==> !ChunkAt(cfg, start, events + more, k)
    ensures After(cfg, start, events + more).outcome.None?
            ==> |more| + Patience(cfg, After(cfg, start, events + more)) <= Patience(cfg, After(cfg, start, events))
    decreases |more|
  {
    if more == [] {
      assert events + more == events;
    } else {
      var n := |more| - 1;
      var run, before := events + more, events + more[..n];
      assert run[..|run| - 1] == before;
      forall k: nat | |events| <= k < |before|
        ensures !ChunkAt(cfg, start, before, k)
      {
        assert before[..k] == run[..k];
        assert !ChunkAt(cfg, start, run, k);
      }
      SilenceEnds(cfg, start, events, more[..n]);
      RunIsSound(cfg, start, before);
      assert !ChunkAt(cfg, start, run, |run| - 1);
      PatienceRunsOut(cfg, After(cfg, start, before), run[|run| - 1]);
    }
  }

  /** and until it is over the loop is never stuck, even if both streams are. */
  lemma LoopIsNeverStuck(cfg: Setup, start: nat, events: seq<Event>)
    requires Possible(cfg, start, events) && After(cfg, start, events).outcome.None?
    ensures Patience(cfg, After(cfg, start, events)) >= 0
    ensures exists e :: e in {Tick, Timer, Changed} && Enabled(cfg, After(cfg, start, events), e)
  {
    RunIsSound(cfg, start, events);
    var s := After(cfg, start, events);
    assert Enabled(cfg, s, if !s.seen then Changed else if s.now >= s.deadline then Timer else Tick);
  }

  /** It succeeds exactly when both directions have come to their end. */
  lemma FinishedWhenBothAre(cfg: Setup, start: nat, events: seq<Event>)
    requires Possible(cfg, start, events)
    ensures var s := After(cfg, start, events);
            s.outcome == Some(Finished) <==> s.up.phase == Closed && s.down.phase == Closed
    ensures After(cfg, start, events).outcome == Some(Finished)
            ==> forall side :: var c := After(cfg, start, events).Of(side); c.put == c.got && c.total == |c.got|
  {
    RunIsSound(cfg, start, events);
  }

  // ---- Each direction goes its own way ----

  /** The moves of one side, in order. */
  function MovesOf(events: seq<Event>, side: Side): seq<Move> {
    if events == [] then []
    else
      var before, e := MovesOf(events[..|events| - 1], side), events[|events| - 1];
      if e.Step? && e.side == side then before + [e.move] else before
  }

  /** In every run each direction is where its own moves lead, and so does what the copying
      program does with one reader and one writer, whatever the other direction does. */
  lemma {:induction false} SideIsWalk(cfg: Setup, start: nat, events: seq<Event>, side: Side)
    requires Possible(cfg, start, events)
    ensures CanWalk(FRESH, MovesOf(events, side))
    ensures After(cfg, start, events).Of(side) == Walk(FRESH, MovesOf(events, side))
    decreases |events|
  {
    if events == [] {
    } else {
      var before, e := events[..|events| - 1], events[|events| - 1];
      SideIsWalk(cfg, start, before, side);
      if e.Step? && e.side == side { WalkOn(FRESH, MovesOf(before, side), e.move); }
    }
  }

  /** How the transfer ends, from its last event: with the error of the failure, by the timer
      after silence, or when the second direction is shut down. */
  lemma OutcomeIsLast(cfg: Setup, start: nat, events: seq<Event>)
    requires Possible(cfg, start, events)
    ensures forall x: Error :: After(cfg, start, events).outcome == Some(Failed(x))
              <==> events != [] && events[|events| - 1].Fault? && events[|events| - 1].error == x
    ensures After(cfg, start, events).outcome == Some(TimedOut)
            <==> events != [] && events[|events| - 1] == Timer && Silent(cfg, start, events[..|events| - 1])
    ensures After(cfg, start, events).outcome == Some(Finished)
            ==> events != [] && events[|events| - 1].Step? && events[|events| - 1].move == Shut
  {
    if events != [] {
      var before, e := events[..|events| - 1], events[|events| - 1];
      RunIsSound(cfg, start, before);
      if e == Timer {
        assert before + [Timer] == events;
        TimerDecides(cfg, start, before);
      }
    }
  }
}
