/**
 * The arithmetic of the file player: tracks of (delta, message) pairs are
 * turned into one list keyed by absolute tick and stably sorted, and the list
 * is walked event by event, sleeping for the tick difference to the previous
 * event converted to seconds with the tempo in force.
 */
module Schedule {
  import opened Midi

  datatype TrackEvent = TrackEvent(delta: nat, msg: MidiMsg)

  type Track = seq<TrackEvent>

  /** A parsed MIDI file: the ticks per beat of its header and its tracks. */
  datatype MidiFileData = MidiFileData(ticksPerBeat: nat, tracks: seq<Track>)

  /**
   * An event at its absolute tick. `track` and `pos` say where it was found
   * (which track, which position in it); they are what a stable sort keeps
   * in order among equal ticks.
   */
  datatype Timed = Timed(tick: nat, track: nat, pos: nat, msg: MidiMsg)

  // ---------------------------------------------------------------------------
  // Absolute times and the merged list

  /** The absolute tick of the `j`-th event of a track: the sum of the deltas up to and including it. */
  function AbsTick(track: Track, j: nat): nat
    requires j < |track|
  {
    if j == 0 then track[0].delta else AbsTick(track, j - 1) + track[j].delta
  }

  function TrackTimeline(t: nat, track: Track): seq<Timed> {
    seq(|track|, j requires 0 <= j < |track| => Timed(AbsTick(track, j), t, j, track[j].msg))
  }

  /** All events of all tracks with their absolute ticks, track after track. */
  function Timeline(tracks: seq<Track>): seq<Timed> {
    if tracks == [] then []
    else Timeline(tracks[..|tracks| - 1]) + TrackTimeline(|tracks| - 1, tracks[|tracks| - 1])
  }

  /** `a` was found before `b`: in an earlier track, or earlier in the same track. */
  predicate FoundBefore(a: Timed, b: Timed) {
    a.track < b.track || (a.track == b.track && a.pos < b.pos)
  }

  predicate InFoundOrder(s: seq<Timed>) {
    forall i, j :: 0 <= i < j < |s| ==> FoundBefore(s[i], s[j])
  }

  /** The order of a stable sort by tick: by tick, and among equal ticks by where the events were found. */
  predicate Before(a: Timed, b: Timed) {
    a.tick < b.tick || (a.tick == b.tick && FoundBefore(a, b))
  }

  predicate SortedByTick(s: seq<Timed>) {
    forall i, j :: 0 <= i < j < |s| ==> Before(s[i], s[j])
  }

  /** The timeline lists events in the order they were found, and only from the given tracks. */
  lemma {:induction false} TimelineInFoundOrder(tracks: seq<Track>)
    ensures InFoundOrder(Timeline(tracks))
    ensures forall i :: 0 <= i < |Timeline(tracks)| ==> Timeline(tracks)[i].track < |tracks|
  {
    if tracks != [] {
      var init := tracks[..|tracks| - 1];
      TimelineInFoundOrder(init);
      var a := Timeline(init);
      var b := TrackTimeline(|tracks| - 1, tracks[|tracks| - 1]);
      var s := a + b;
      forall i, j | 0 <= i < j < |s| ensures FoundBefore(s[i], s[j]) {
        if j < |a| {
          assert s[i] == a[i] && s[j] == a[j];
        } else if i < |a| {
          assert s[i] == a[i] && s[j] == b[j - |a|];
        } else {
          assert s[i] == b[i - |a|] && s[j] == b[j - |a|];
        }
      }
    }
  }

  /** Each event of the timeline sits at the sum of the deltas of its track up to it. */
  lemma {:induction false} TimelineTicks(tracks: seq<Track>, i: nat)
    requires i < |Timeline(tracks)|
    ensures var e := Timeline(tracks)[i];
      e.track < |tracks| && e.pos < |tracks[e.track]|
      && e.tick == AbsTick(tracks[e.track], e.pos)
      && e.msg == tracks[e.track][e.pos].msg
  {
    var init := tracks[..|tracks| - 1];
    var a := Timeline(init);
    if i < |a| {
      TimelineTicks(init, i);
      assert Timeline(tracks)[i] == a[i];
    } else {
      assert Timeline(tracks)[i] == TrackTimeline(|tracks| - 1, tracks[|tracks| - 1])[i - |a|];
    }
  }

  /** Stable insertion: `x` goes after every element whose tick is not later than its own. */
  function Insert(x: Timed, s: seq<Timed>): (r: seq<Timed>)
    ensures multiset(r) == multiset(s) + multiset{x}
  {
    if s == [] then [x]
    else if s[|s| - 1].tick <= x.tick then s + [x]
    else
      assert s == s[..|s| - 1] + [s[|s| - 1]];
      Insert(x, s[..|s| - 1]) + [s[|s| - 1]]
  }

  /** A stable sort by tick (the key the player sorts its merged list by). */
  function SortByTick(s: seq<Timed>): (r: seq<Timed>)
    ensures multiset(r) == multiset(s)
  {
    if s == [] then []
    else
      assert s == s[..|s| - 1] + [s[|s| - 1]];
      Insert(s[|s| - 1], SortByTick(s[..|s| - 1]))
  }

  /** The merged list the player walks. */
  function Merge(tracks: seq<Track>): seq<Timed> {
    SortByTick(Timeline(tracks))
  }

  lemma {:induction false} InsertSorted(x: Timed, s: seq<Timed>)
    requires SortedByTick(s)
    requires forall i :: 0 <= i < |s| ==> FoundBefore(s[i], x)
    ensures SortedByTick(Insert(x, s))
    decreases |s|
  {
    if s != [] && s[|s| - 1].tick > x.tick {
      var init := s[..|s| - 1];
      var y := s[|s| - 1];
      InsertSorted(x, init);
      forall k | 0 <= k < |init| ensures Before(init[k], y) {
        assert Before(s[k], s[|s| - 1]);
      }
      InsertAllBefore(x, init, y);
      SnocSorted(Insert(x, init), y);
    } else if s != [] {
      forall i | 0 <= i < |s| ensures Before(s[i], x) {
        if i < |s| - 1 {
          assert Before(s[i], s[|s| - 1]);
        }
      }
      SnocSorted(s, x);
    }
  }

  /** Inserting an event before `y` into events before `y` leaves them all before `y`. */
  lemma InsertAllBefore(x: Timed, s: seq<Timed>, y: Timed)
    requires Before(x, y)
    requires forall k :: 0 <= k < |s| ==> Before(s[k], y)
    ensures forall i :: 0 <= i < |Insert(x, s)| ==> Before(Insert(x, s)[i], y)
  {
    var r := Insert(x, s);
    forall i | 0 <= i < |r| ensures Before(r[i], y) {
      assert r[i] in multiset(r);
      if r[i] != x {
        assert r[i] in multiset(s);
        var k :| 0 <= k < |s| && s[k] == r[i];
      }
    }
  }

  lemma SnocSorted(s: seq<Timed>, y: Timed)
    requires SortedByTick(s)
    requires forall i :: 0 <= i < |s| ==> Before(s[i], y)
    ensures SortedByTick(s + [y])
  {
    var r := s + [y];
    forall i, j | 0 <= i < j < |r| ensures Before(r[i], r[j]) {
      assert r[i] == s[i];
      if j < |s| {
        assert r[j] == s[j];
      }
    }
  }

  lemma {:induction false} SortByTickSorted(s: seq<Timed>)
    requires InFoundOrder(s)
    ensures SortedByTick(SortByTick(s))
  {
    if s != [] {
      var init := s[..|s| - 1];
      var x := s[|s| - 1];
      assert InFoundOrder(init);
      SortByTickSorted(init);
      var r := SortByTick(init);
      forall i | 0 <= i < |r| ensures FoundBefore(r[i], x) {
        assert r[i] in multiset(r);
        var k :| 0 <= k < |init| && init[k] == r[i];
        assert FoundBefore(s[k], s[|s| - 1]);
      }
      InsertSorted(x, r);
    }
  }

  /**
   * The merged list holds exactly the events of all tracks, ordered by
   * absolute tick, with ties kept in track order and then in order within
   * the track: the result of a stable sort of the track-by-track list.
   */
  lemma MergeSpec(tracks: seq<Track>)
    ensures multiset(Merge(tracks)) == multiset(Timeline(tracks))
    ensures SortedByTick(Merge(tracks))
    ensures forall i, j :: 0 <= i < j < |Merge(tracks)| ==> Merge(tracks)[i].tick <= Merge(tracks)[j].tick
  {
    TimelineInFoundOrder(tracks);
    SortByTickSorted(Timeline(tracks));
  }

  // ---------------------------------------------------------------------------
  // The walk

  /** The tick position the walk is at after `n` events (`previous_abs_time`). */
  function TickAfter(s: seq<Timed>, n: nat): nat
    requires n <= |s|
  {
    if n == 0 then 0 else s[n - 1].tick
  }

  /** The number of ticks slept before the `k`-th event. */
  function DeltaTicks(s: seq<Timed>, k: nat): int
    requires k < |s|
  {
    s[k].tick - TickAfter(s, k)
  }

  lemma DeltaTicksNonNegative(s: seq<Timed>, k: nat)
    requires k < |s|
    requires SortedByTick(s)
    ensures DeltaTicks(s, k) >= 0
  {
    if k > 0 {
      assert Before(s[k - 1], s[k]);
    }
  }

  function SumDeltas(s: seq<Timed>, n: nat): int
    requires n <= |s|
  {
    if n == 0 then 0 else SumDeltas(s, n - 1) + DeltaTicks(s, n - 1)
  }

  /** The deltas slept so far add up to the absolute tick of the last event reached. */
  lemma {:induction false} SumDeltasIsTick(s: seq<Timed>, n: nat)
    requires n <= |s|
    ensures SumDeltas(s, n) == TickAfter(s, n)
  {
    if n > 0 {
      SumDeltasIsTick(s, n - 1);
    }
  }

  /**
   * What the environment of the player thread did around event `k`: whether
   * a stop had been requested when the walk checked before the event, and for
   * how many 10 ms polls the walk then waited because playback was paused.
   */
  datatype Control = Control(stopRequested: bool, pausePolls: nat)

  const PollInterval: real := 0.01

  function ControlAt(env: seq<Control>, k: nat): Control {
    if k < |env| then env[k] else Control(false, 0)
  }

  /** Seconds per tick at a tempo (microseconds per beat) and a resolution (ticks per beat). */
  function SecondsPerTick(tpb: nat, tempo: real): real
    requires tpb > 0
  {
    tempo / (1000000.0 * tpb as real)
  }

  /** A number of ticks converted to seconds at a rate in seconds per tick. */
  function TicksToSeconds(ticks: int, rate: real): real {
    ticks as real * rate
  }

  lemma TicksToSecondsNonNegative(ticks: int, rate: real)
    requires ticks >= 0 && rate >= 0.0
    ensures TicksToSeconds(ticks, rate) >= 0.0
  {
  }

  /** Seconds the walk has spent after `n` events: pause polls plus the sleeps for the deltas. */
  function Elapsed(s: seq<Timed>, env: seq<Control>, rate: real, n: nat): real
    requires n <= |s|
  {
    if n == 0 then 0.0
    else
      Elapsed(s, env, rate, n - 1)
      + ControlAt(env, n - 1).pausePolls as real * PollInterval
      + TicksToSeconds(DeltaTicks(s, n - 1), rate)
  }

  /** Seconds spent paused before the first `n` events. */
  function PausedTime(env: seq<Control>, n: nat): real {
    if n == 0 then 0.0 else PausedTime(env, n - 1) + ControlAt(env, n - 1).pausePolls as real * PollInterval
  }

  /**
   * Pausing does not move the tick accounting: the time spent after `n`
   * events is the time spent paused plus the absolute tick reached, converted
   * at the tempo. A pause of any length shifts everything after it by exactly
   * its length.
   */
  lemma {:induction false} ElapsedSplits(s: seq<Timed>, env: seq<Control>, rate: real, n: nat)
    requires n <= |s|
    ensures Elapsed(s, env, rate, n) == PausedTime(env, n) + TicksToSeconds(TickAfter(s, n), rate)
  {
    if n > 0 {
      ElapsedSplits(s, env, rate, n - 1);
      var a := TickAfter(s, n - 1) as real;
      var d := DeltaTicks(s, n - 1) as real;
      assert a * rate + d * rate == (a + d) * rate;
    }
  }

  /** How a walk ends: every event handled, cancelled before event `at`, or an exception at event `at`. */
  datatype Outcome = Completed | Aborted(at: nat) | Failed(at: nat)

  /**
   * Where the walk stops, looking from event `k` on: it aborts at the first
   * event before which it sees a stop, fails at the first event when the file
   * has no tick resolution (the tick conversion divides by it) or when it
   * must send a channel-voice message without an OSC client.
   */
  function WalkOutcome(s: seq<Timed>, env: seq<Control>, stopped: bool, tpb: nat, clientOpen: bool, k: nat): (o: Outcome)
    requires k <= |s|
    ensures o.Aborted? ==> k <= o.at < |s|
    ensures o.Failed? ==> k <= o.at < |s|
    decreases |s| - k
  {
    if k == |s| then Completed
    else if stopped || ControlAt(env, k).stopRequested then Aborted(k)
    else if tpb == 0 then Failed(k)
    else if IsChannelVoice(s[k].msg) && !clientOpen then Failed(k)
    else WalkOutcome(s, env, stopped, tpb, clientOpen, k + 1)
  }

  /** A walk that neither stops nor fails at event `k` goes on to the next one. */
  lemma WalkOutcomeStep(s: seq<Timed>, env: seq<Control>, stopped: bool, tpb: nat, clientOpen: bool, k: nat, next: nat)
    requires k < |s| && next == k + 1
    requires !stopped && !ControlAt(env, k).stopRequested && tpb != 0
    requires !IsChannelVoice(s[k].msg) || clientOpen
    ensures WalkOutcome(s, env, stopped, tpb, clientOpen, k) == WalkOutcome(s, env, stopped, tpb, clientOpen, next)
  {
  }

  /** The number of events a walk with this outcome has fully handled. */
  function Handled(o: Outcome, total: nat): nat {
    match o
    case Completed => total
    case Aborted(k) => k
    case Failed(k) => k
  }

  /**
   * How many events' waits the walk's clock has run through: an event that
   * fails has had its wait, one that is aborted has not.
   */
  function Reached(o: Outcome, total: nat): nat {
    match o
    case Completed => total
    case Aborted(k) => k
    case Failed(k) => k + 1
  }

  /** An undisturbed walk with a client and a tick resolution handles every event. */
  lemma {:induction false} UndisturbedWalkCompletes(s: seq<Timed>, env: seq<Control>, tpb: nat, k: nat)
    requires k <= |s|
    requires tpb > 0
    requires forall i :: k <= i < |s| ==> !ControlAt(env, i).stopRequested
    ensures WalkOutcome(s, env, false, tpb, true, k) == Completed
    decreases |s| - k
  {
    if k < |s| {
      UndisturbedWalkCompletes(s, env, tpb, k + 1);
    }
  }

  /** A stop seen before event `j` ends the walk there at the latest; no later event is handled. */
  lemma {:induction false} StopBoundsWalk(s: seq<Timed>, env: seq<Control>, stopped: bool, tpb: nat, clientOpen: bool, k: nat, j: nat)
    requires k <= j < |s|
    requires ControlAt(env, j).stopRequested
    ensures Handled(WalkOutcome(s, env, stopped, tpb, clientOpen, k), |s|) <= j
    ensures !WalkOutcome(s, env, stopped, tpb, clientOpen, k).Completed?
    decreases j - k
  {
    if k < j && !stopped && !ControlAt(env, k).stopRequested && tpb != 0 && !(IsChannelVoice(s[k].msg) && !clientOpen) {
      StopBoundsWalk(s, env, stopped, tpb, clientOpen, k + 1, j);
    }
  }

  /** The messages of a list of timed events, in order. */
  function Messages(s: seq<Timed>): (ms: seq<MidiMsg>)
    ensures |ms| == |s|
    ensures forall k :: 0 <= k < |s| ==> ms[k] == s[k].msg
  {
    seq(|s|, k requires 0 <= k < |s| => s[k].msg)
  }
}
