/**
  The playback session of `src/audio_services.rs`. An `Audio` value is an
  immutable snapshot of the session: the observable part of the output sink,
  the stored `State`, the instant playback last started and the play time
  accumulated before it. Every operation is a pure function of the session
  and, where the Rust code reads `Instant::now()`, of an explicit clock
  reading `now`. The device, the decoder and the file are not modelled; the
  sink running dry is an environment step, `Drain`.
*/
module AudioServices {
  import opened Wrappers

  /** A reading of a monotone clock, in whole ticks. */
  type Instant = nat

  /** A span of time, in the same ticks. */
  type Duration = nat

  datatype State = Playing | Paused | Stopped

  /**
    What the session can observe of the sink: whether it is paused, whether
    its queue has run dry, and its volume.
  */
  datatype Sink = Sink(paused: bool, empty: bool, volume: real)

  /**
    `start` is the instant playback last started, `accumulated` the play time
    of the intervals already closed by a pause (the Rust field is called
    `paused_duration`).
  */
  datatype Audio = Audio(sink: Sink, state: State, start: Option<Instant>, accumulated: Duration)

  /** The time that has passed since `start`; zero if the clock reads earlier. */
  function Since(start: Instant, now: Instant): (d: Duration)
    ensures start <= now ==> start + d == now
    ensures now < start ==> d == 0
  {
    if start <= now then now - start else 0
  }

  /**
    The consistency the session keeps between its three signals: the stored
    state is never `Stopped`, a start instant is recorded exactly while the
    stored state is `Playing`, and the sink is paused exactly while the stored
    state is `Paused`. Because `set_volume` clamps, the volume is never
    negative either.
  */
  predicate Inv(a: Audio)
  {
    && a.state != Stopped
    && (a.start.Some? <==> a.state == Playing)
    && (a.sink.paused <==> a.state == Paused)
    && a.sink.volume >= 0.0
  }

  // ---------------------------------------------------------------------------
  // Operations
  // ---------------------------------------------------------------------------

  /**
    The session right after a successful `Audio::new`: the decoded track is
    queued on a sink that is paused at once, nothing has been played yet. A
    new sink plays at full volume, 1.0.
  */
  function New(): (a: Audio)
    ensures Inv(a)
    ensures !a.sink.empty
    ensures a.start == None && a.accumulated == 0
  {
    Audio(Sink(true, false, 1.0), Paused, None, 0)
  }

  /**
    The state reported to callers. A paused sink wins over everything, a
    drained sink means `Stopped`, and only otherwise is the stored state
    consulted.
  */
  function GetCurrentState(a: Audio): (s: State)
    ensures s == Paused <==> a.sink.paused || (!a.sink.empty && a.state == Paused)
    ensures s == Stopped <==> !a.sink.paused && (a.sink.empty || a.state == Stopped)
    ensures s == Playing <==> !a.sink.paused && !a.sink.empty && a.state == Playing
  {
    if a.sink.paused then Paused
    else if a.sink.empty then Stopped
    else a.state
  }

  /**
    Resumes a paused sink and records `now` as the start of playback unless a
    start is already recorded. On a sink that is not paused it does nothing.
  */
  function Play(a: Audio, now: Instant): (b: Audio)
    ensures !a.sink.paused ==> b == a
    ensures a.sink.paused ==>
              && !b.sink.paused && b.state == Playing && b.start.Some?
              && b.sink.empty == a.sink.empty && b.sink.volume == a.sink.volume
              && b.accumulated == a.accumulated
              && (a.start.Some? ==> b.start == a.start)
              && (a.start.None? ==> b.start == Some(now))
  {
    if a.sink.paused then
      var start := if a.start.None? then Some(now) else a.start;
      a.(sink := a.sink.(paused := false), state := Playing, start := start)
    else a
  }

  /**
    Pauses a sink that is not paused, closes the running interval by adding
    its length to the accumulated play time, and forgets the start. On a
    paused sink it does nothing.
  */
  function Pause(a: Audio, now: Instant): (b: Audio)
    ensures a.sink.paused ==> b == a
    ensures !a.sink.paused ==>
              && b.sink.paused && b.state == Paused && b.start == None
              && b.sink.empty == a.sink.empty && b.sink.volume == a.sink.volume
              && b.accumulated >= a.accumulated
              && (a.start.None? ==> b.accumulated == a.accumulated)
              && (a.start.Some? && a.start.value <= now ==>
                    b.accumulated == a.accumulated + (now - a.start.value))
              && (a.start.Some? && now < a.start.value ==> b.accumulated == a.accumulated)
  {
    if !a.sink.paused then
      var accumulated := match a.start
        case Some(s) => a.accumulated + Since(s, now)
        case None => a.accumulated;
      a.(sink := a.sink.(paused := true), state := Paused, start := None, accumulated := accumulated)
    else a
  }

  /** The sink's volume. */
  function GetVolume(a: Audio): (v: real)
    ensures Inv(a) ==> v >= 0.0
  {
    a.sink.volume
  }

  /** Sets the volume, clamping a negative request to silence. */
  function SetVolume(a: Audio, volume: real): (b: Audio)
    ensures b.sink.volume >= 0.0
    ensures volume >= 0.0 ==> b.sink.volume == volume
    ensures volume < 0.0 ==> b.sink.volume == 0.0
    ensures b == a.(sink := a.sink.(volume := b.sink.volume))
  {
    a.(sink := a.sink.(volume := if volume < 0.0 then 0.0 else volume))
  }

  /**
    Play time up to `now`: the accumulated time, plus the running interval
    when a start is recorded and the stored state is `Playing`.
  */
  function GetElapsedTime(a: Audio, now: Instant): (d: Duration)
    ensures d >= a.accumulated
    ensures a.state != Playing || a.start.None? ==> d == a.accumulated
    ensures a.state == Playing && a.start.Some? && a.start.value <= now ==>
              d == a.accumulated + (now - a.start.value)
    ensures a.start.Some? && now < a.start.value ==> d == a.accumulated
  {
    if a.start.Some? && a.state == Playing then a.accumulated + Since(a.start.value, now)
    else a.accumulated
  }

  /** The track has ended: the sink ran dry while the session was not paused. */
  function IsEnd(a: Audio): (b: bool)
    ensures b ==> a.sink.empty
    ensures Inv(a) ==> (b <==> GetCurrentState(a) == Stopped)
  {
    a.sink.empty && a.state != Paused
  }

  /** The environment step in which the sink plays out its queue. */
  function Drain(a: Audio): (b: Audio)
    ensures b.sink.empty
    ensures b.sink.paused == a.sink.paused && b.state == a.state
    ensures b.start == a.start && b.accumulated == a.accumulated
    ensures b.sink.volume == a.sink.volume
  {
    a.(sink := a.sink.(empty := true))
  }

  // ---------------------------------------------------------------------------
  // Properties of single operations
  // ---------------------------------------------------------------------------

  /**
    A new session satisfies the invariant, has a track queued, reports
    `Paused`, has not ended and has played nothing, whatever the clock reads;
    the first `play` makes it report `Playing`.
  */
  lemma NewSession(now: Instant)
    ensures Inv(New())
    ensures !New().sink.empty
    ensures GetCurrentState(New()) == Paused
    ensures GetCurrentState(Play(New(), now)) == Playing
    ensures !IsEnd(New())
    ensures GetElapsedTime(New(), now) == 0
    ensures GetVolume(New()) == 1.0
  {
  }

  /**
    Every operation, and the sink draining, preserves the invariant; draining
    leaves the elapsed time alone.
  */
  lemma InvPreserved(a: Audio, now: Instant, volume: real)
    requires Inv(a)
    ensures Inv(Play(a, now))
    ensures Inv(Pause(a, now))
    ensures Inv(SetVolume(a, volume))
    ensures Inv(Drain(a))
    ensures GetElapsedTime(Drain(a), now) == GetElapsedTime(a, now)
  {
  }

  /**
    Under the invariant the reported state and the end test agree: the track
    has ended exactly when `Stopped` is reported, and `Playing` is reported
    exactly while the stored state is `Playing` and the sink has not run dry.
  */
  lemma EndIsStopped(a: Audio)
    requires Inv(a)
    ensures IsEnd(a) <==> GetCurrentState(a) == Stopped
    ensures GetCurrentState(a) == Playing <==> a.state == Playing && !a.sink.empty
    ensures GetCurrentState(a) == Paused <==> a.state == Paused
  {
  }

  /** Pausing closes the running interval without losing or adding time. */
  lemma PauseKeepsElapsed(a: Audio, now: Instant)
    requires Inv(a)
    ensures GetElapsedTime(Pause(a, now), now) == GetElapsedTime(a, now)
  {
  }

  /** Resuming starts a new interval of length zero. */
  lemma PlayKeepsElapsed(a: Audio, now: Instant)
    requires Inv(a)
    ensures GetElapsedTime(Play(a, now), now) == GetElapsedTime(a, now)
  {
  }

  /** Play time never runs backwards as the clock advances. */
  lemma ElapsedMonotone(a: Audio, t1: Instant, t2: Instant)
    requires t1 <= t2
    ensures GetElapsedTime(a, t1) <= GetElapsedTime(a, t2)
  {
  }

  /**
    Once the track has ended the session keeps counting: with the stored
    state still `Playing`, each tick adds one to the elapsed time.
  */
  lemma ElapsedCountsAfterEnd(a: Audio, now: Instant)
    requires Inv(a) && IsEnd(a)
    requires a.start.value <= now
    ensures GetElapsedTime(a, now + 1) == GetElapsedTime(a, now) + 1
  {
  }

  /** Repeating `play` or `pause`, at any later instant, changes nothing. */
  lemma PlayPauseIdempotent(a: Audio, t1: Instant, t2: Instant)
    ensures Play(Play(a, t1), t2) == Play(a, t1)
    ensures Pause(Pause(a, t1), t2) == Pause(a, t1)
  {
  }

  /** The volume read back is the request clamped at zero. */
  lemma VolumeRoundTrip(a: Audio, volume: real)
    ensures GetVolume(SetVolume(a, volume)) == (if volume < 0.0 then 0.0 else volume)
    ensures SetVolume(SetVolume(a, volume), volume) == SetVolume(a, volume)
    ensures GetCurrentState(SetVolume(a, volume)) == GetCurrentState(a)
  {
  }

  // ---------------------------------------------------------------------------
  // Traces
  // ---------------------------------------------------------------------------

  datatype Command = PlayCmd | PauseCmd | SetVolumeCmd(volume: real) | DrainCmd

  /** A command issued, or a drain observed, at clock reading `at`. */
  datatype Step = Step(at: Instant, cmd: Command)

  function Apply(a: Audio, s: Step): Audio
  {
    match s.cmd
    case PlayCmd => Play(a, s.at)
    case PauseCmd => Pause(a, s.at)
    case SetVolumeCmd(v) => SetVolume(a, v)
    case DrainCmd => Drain(a)
  }

  /** The session after the steps of `trace`, first step first. */
  function Run(a: Audio, trace: seq<Step>): Audio
  {
    if |trace| == 0 then a
    else Apply(Run(a, trace[..|trace| - 1]), trace[|trace| - 1])
  }

  /** The steps happen in clock order. */
  predicate Monotone(trace: seq<Step>)
  {
    forall i, j :: 0 <= i < j < |trace| ==> trace[i].at <= trace[j].at
  }

  /** Whether playback is on after `trace`: its last play or pause command was a play. */
  function Running(trace: seq<Step>): bool
  {
    if |trace| == 0 then false
    else match trace[|trace| - 1].cmd
      case PlayCmd => true
      case PauseCmd => false
      case _ => Running(trace[..|trace| - 1])
  }

  /**
    The reference meaning of elapsed time: the total length, up to `now`, of
    the intervals during which playback was on.
  */
  function Played(trace: seq<Step>, now: Instant): Duration
  {
    if |trace| == 0 then 0
    else
      var last := trace[|trace| - 1];
      Played(trace[..|trace| - 1], last.at)
      + (if Running(trace) && last.at <= now then now - last.at else 0)
  }

  /**
    Elapsed-time accounting over a whole session: after any clock-ordered
    sequence of plays, pauses, volume changes and drains, read at or after the
    last step, the session satisfies the invariant, its sink is paused exactly
    when playback is off, and the elapsed time is the sum of the intervals
    during which playback was on. Paused gaps are never counted.
  */
  lemma {:induction false} ElapsedIsPlayedTime(trace: seq<Step>, now: Instant)
    requires Monotone(trace)
    requires |trace| > 0 ==> trace[|trace| - 1].at <= now
    ensures Inv(Run(New(), trace))
    ensures Run(New(), trace).sink.paused == !Running(trace)
    ensures |trace| > 0 && Run(New(), trace).start.Some? ==>
              Run(New(), trace).start.value <= trace[|trace| - 1].at
    ensures GetElapsedTime(Run(New(), trace), now) == Played(trace, now)
  {
    if |trace| > 0 {
      var prefix := trace[..|trace| - 1];
      var last := trace[|trace| - 1];
      assert Monotone(prefix);
      if |prefix| > 0 {
        assert prefix[|prefix| - 1].at <= last.at;
      }
      ElapsedIsPlayedTime(prefix, last.at);
      var a := Run(New(), prefix);
      assert Run(New(), trace) == Apply(a, last);
      match last.cmd
      case PlayCmd =>
      case PauseCmd =>
      case SetVolumeCmd(v) =>
      case DrainCmd =>
    }
  }

  /** Playing from 0 and pausing at 2 leaves 2 ticks played. */
  lemma PlayThenPause()
    ensures GetElapsedTime(Pause(Play(New(), 0), 2), 2) == 2
    ensures GetElapsedTime(Pause(Play(New(), 0), 2), 9) == 2
  {
  }

  /**
    Two one-tick plays separated by a one-tick pause count as two ticks; the
    gap is not counted.
  */
  lemma PausedGapNotCounted()
    ensures GetElapsedTime(Pause(Play(Pause(Play(New(), 0), 1), 2), 3), 3) == 2
  {
  }
}
