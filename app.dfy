/**
 * The bridge application object: the playback flags, the playlist and its
 * index, the tempo, the record of sent messages, and the operations that
 * change them. The MIDI output port, the MIDI input port and the OSC client
 * are represented by whether they are open; what is sent through them is
 * collected in the ghost sequences `midiSent` and `oscSent`.
 */
module App {
  import opened Wrappers
  import opened Midi
  import opened Codec
  import opened History
  import opened Schedule
  import opened Tempo
  import opened Playlist

  /**
   * A message read from the MIDI input port, with the time it was read and
   * whether the server was still running when the listener looked (its start
   * button still offered to stop it).
   */
  datatype Incoming = Incoming(msg: MidiMsg, at: real, serverRunning: bool)

  /** The record label of a channel-voice message. */
  function KindOf(m: MidiMsg): Kind
    requires IsChannelVoice(m)
  {
    match m
    case NoteOn(_, _, _) => NoteOnKind
    case NoteOff(_, _, _) => NoteOffKind
    case ControlChange(_, _, _) => ControlChangeKind
    case Aftertouch(_, _) => AftertouchKind
    case Pitchwheel(_, _) => PitchwheelKind
  }

  /** The history entry written when a MIDI message is sent out as OSC at time `at`, if it is sent at all. */
  function RecordOf(m: MidiMsg, at: real): seq<SentRecord> {
    match Encode(m)
    case None => []
    case Some(e) => [SentRecord(e.address, [e.arg], e.kind, at)]
  }

  /** What the OSC client sends for the entries of a history. */
  function SentAs(rs: seq<SentRecord>): (ms: seq<OscMessage>)
    ensures |ms| == |rs|
    ensures forall k :: 0 <= k < |rs| ==> ms[k] == OscMessage(rs[k].address, rs[k].args)
  {
    seq(|rs|, k requires 0 <= k < |rs| => OscMessage(rs[k].address, rs[k].args))
  }

  lemma SentAsAppend(a: seq<SentRecord>, b: seq<SentRecord>)
    ensures SentAs(a + b) == SentAs(a) + SentAs(b)
  {
    assert forall k :: 0 <= k < |a + b| ==> SentAs(a + b)[k] == (SentAs(a) + SentAs(b))[k];
  }

  /** The entry written for a message records exactly what the client sends for it. */
  lemma SentAsRecordOf(m: MidiMsg, at: real)
    ensures SentAs(RecordOf(m, at)) == Emit(m)
  {
  }

  // ---------------------------------------------------------------------------
  // The live MIDI listener

  /**
   * The messages the listener reads from the input port, in order, without
   * the times they were read at (`Schedule.Messages` is the same projection
   * over a file's timed events, a different type).
   */
  function Inputs(xs: seq<Incoming>): (ms: seq<MidiMsg>)
    ensures |ms| == |xs|
    ensures forall k :: 0 <= k < |xs| ==> ms[k] == xs[k].msg
  {
    seq(|xs|, k requires 0 <= k < |xs| => xs[k].msg)
  }

  /** The entries the listener writes for the messages it handles, each stamped with the time it was read. */
  function ListenerRecords(xs: seq<Incoming>): seq<SentRecord> {
    if xs == [] then []
    else ListenerRecords(xs[..|xs| - 1]) + RecordOf(xs[|xs| - 1].msg, xs[|xs| - 1].at)
  }

  /** How many messages the listener handles: those read before it first sees the server stopped. */
  function ServerStopAt(xs: seq<Incoming>): (n: nat)
    ensures n <= |xs|
    ensures forall k :: 0 <= k < n ==> xs[k].serverRunning
    ensures n < |xs| ==> !xs[n].serverRunning
  {
    if xs == [] || !xs[0].serverRunning then 0
    else
      assert forall k :: 1 <= k < |xs| ==> xs[k] == xs[1..][k - 1];
      1 + ServerStopAt(xs[1..])
  }

  lemma ServerStopAtStep(xs: seq<Incoming>, n: nat)
    requires n < |xs| && n <= ServerStopAt(xs) && xs[n].serverRunning
    ensures n + 1 <= ServerStopAt(xs)
  {
  }

  lemma ListenerStep(xs: seq<Incoming>, k: nat)
    requires k < |xs|
    ensures Translate(Inputs(xs[..k + 1])) == Translate(Inputs(xs[..k])) + Emit(xs[k].msg)
    ensures ListenerRecords(xs[..k + 1]) == ListenerRecords(xs[..k]) + RecordOf(xs[k].msg, xs[k].at)
  {
    assert xs[..k + 1][..k] == xs[..k];
    assert Inputs(xs[..k + 1])[..k] == Inputs(xs[..k]);
  }

  /** One more message handled by the listener extends what it has sent by that message's share... */
  lemma ListenerAdvanceSent(o0: seq<OscMessage>, xs: seq<Incoming>, k: nat, o: seq<OscMessage>)
    requires k < |xs|
    requires o == o0 + Translate(Inputs(xs[..k]))
    ensures o + Emit(xs[k].msg) == o0 + Translate(Inputs(xs[..k + 1]))
  {
    ListenerStep(xs, k);
  }

  /** ... and what it has recorded. */
  lemma ListenerAdvanceRecorded(h0: seq<SentRecord>, xs: seq<Incoming>, k: nat, h: seq<SentRecord>)
    requires k < |xs| && |h0| <= Capacity
    requires h == PushAll(h0, ListenerRecords(xs[..k]))
    ensures PushAll(h, RecordOf(xs[k].msg, xs[k].at)) == PushAll(h0, ListenerRecords(xs[..k + 1]))
  {
    ListenerStep(xs, k);
    PushAllAppend(h0, ListenerRecords(xs[..k]), RecordOf(xs[k].msg, xs[k].at));
  }

  /** The listener's history entries are exactly the OSC messages it sends, in order. */
  lemma {:induction false} ListenerRecordsMatchSent(xs: seq<Incoming>)
    ensures SentAs(ListenerRecords(xs)) == Translate(Inputs(xs))
  {
    if xs != [] {
      var init := xs[..|xs| - 1];
      var last := xs[|xs| - 1];
      ListenerRecordsMatchSent(init);
      assert Inputs(xs)[..|xs| - 1] == Inputs(init);
      assert Translate(Inputs(xs)) == Translate(Inputs(init)) + Emit(last.msg);
      SentAsAppend(ListenerRecords(init), RecordOf(last.msg, last.at));
      SentAsRecordOf(last.msg, last.at);
    }
  }

  // ---------------------------------------------------------------------------
  // The file player's walk

  /** Seconds per tick for the walk; a file without a tick resolution fails before it is used. */
  function Rate(tpb: nat, micros: real): real {
    if tpb > 0 then SecondsPerTick(tpb, micros) else 0.0
  }

  /** The entries the walk writes for its first `n` events, each stamped with the time it was sent. */
  function WalkRecords(s: seq<Timed>, env: seq<Control>, rate: real, start: real, n: nat): seq<SentRecord>
    requires n <= |s|
  {
    if n == 0 then []
    else WalkRecords(s, env, rate, start, n - 1) + RecordOf(s[n - 1].msg, start + Elapsed(s, env, rate, n))
  }

  /** The OSC messages the walk sends for its first `n` events. */
  function WalkSent(s: seq<Timed>, n: nat): seq<OscMessage>
    requires n <= |s|
  {
    if n == 0 then [] else WalkSent(s, n - 1) + Emit(s[n - 1].msg)
  }

  /** What the walk sends is the MIDI -> OSC translation of the events it has walked, in order. */
  lemma {:induction false} WalkSentIsTranslation(s: seq<Timed>, n: nat)
    requires n <= |s|
    ensures WalkSent(s, n) == Translate(Messages(s[..n]))
  {
    if n > 0 {
      WalkSentIsTranslation(s, n - 1);
      assert Messages(s[..n])[..n - 1] == Messages(s[..n - 1]);
    }
  }

  /** One more event walked extends what the walk has recorded by that event's entry. */
  lemma WalkAdvanceSent(o0: seq<OscMessage>, s: seq<Timed>, k: nat, o: seq<OscMessage>)
    requires k < |s|
    requires o == o0 + WalkSent(s, k)
    ensures o + Emit(s[k].msg) == o0 + WalkSent(s, k + 1)
  {
  }

  lemma WalkAdvanceRecorded(h0: seq<SentRecord>, s: seq<Timed>, env: seq<Control>, rate: real, start: real, k: nat,
                            h: seq<SentRecord>, at: real)
    requires k < |s| && |h0| <= Capacity
    requires h == PushAll(h0, WalkRecords(s, env, rate, start, k))
    requires at == start + Elapsed(s, env, rate, k + 1)
    ensures PushAll(h, RecordOf(s[k].msg, at)) == PushAll(h0, WalkRecords(s, env, rate, start, k + 1))
  {
    assert WalkRecords(s, env, rate, start, k + 1) == WalkRecords(s, env, rate, start, k) + RecordOf(s[k].msg, at);
    PushAllAppend(h0, WalkRecords(s, env, rate, start, k), RecordOf(s[k].msg, at));
  }

  /** The walk's history entries are exactly the OSC messages it sends, in order. */
  lemma {:induction false} WalkRecordsMatchSent(s: seq<Timed>, env: seq<Control>, rate: real, start: real, n: nat)
    requires n <= |s|
    ensures SentAs(WalkRecords(s, env, rate, start, n)) == WalkSent(s, n)
  {
    if n > 0 {
      var at := start + Elapsed(s, env, rate, n);
      WalkRecordsMatchSent(s, env, rate, start, n - 1);
      SentAsAppend(WalkRecords(s, env, rate, start, n - 1), RecordOf(s[n - 1].msg, at));
      SentAsRecordOf(s[n - 1].msg, at);
    }
  }

  /** With a non-negative tempo, time never runs backwards in the walk over a sorted list. */
  lemma {:induction false} ElapsedGrows(s: seq<Timed>, env: seq<Control>, rate: real, m: nat, n: nat)
    requires m <= n <= |s|
    requires SortedByTick(s) && rate >= 0.0
    ensures Elapsed(s, env, rate, m) <= Elapsed(s, env, rate, n)
    decreases n - m
  {
    if m < n {
      ElapsedGrows(s, env, rate, m, n - 1);
      DeltaTicksNonNegative(s, n - 1);
      TicksToSecondsNonNegative(DeltaTicks(s, n - 1), rate);
    }
  }

  lemma RecordOfBetween(m: MidiMsg, at: real, lo: real)
    requires lo <= at
    ensures SentBetween(RecordOf(m, at), lo, at)
  {
  }

  /** The walk writes each entry no earlier than it started and no later than the time reached. */
  lemma {:induction false} WalkRecordsBetween(s: seq<Timed>, env: seq<Control>, rate: real, start: real, n: nat)
    requires n <= |s|
    requires SortedByTick(s) && rate >= 0.0
    ensures SentBetween(WalkRecords(s, env, rate, start, n), start, start + Elapsed(s, env, rate, n))
  {
    if n > 0 {
      var a := WalkRecords(s, env, rate, start, n - 1);
      var at := start + Elapsed(s, env, rate, n);
      var hi := start + Elapsed(s, env, rate, n - 1);
      WalkRecordsBetween(s, env, rate, start, n - 1);
      ElapsedGrows(s, env, rate, n - 1, n);
      ElapsedGrows(s, env, rate, 0, n);
      RecordOfBetween(s[n - 1].msg, at, start);
      AppendBetween(a, RecordOf(s[n - 1].msg, at), start, hi, at);
    }
  }

  /**
   * The walk writes its entries in time order, so the history it appends to
   * stays chronological.
   */
  lemma {:induction false} WalkRecordsChronological(s: seq<Timed>, env: seq<Control>, rate: real, start: real, n: nat)
    requires n <= |s|
    requires SortedByTick(s) && rate >= 0.0
    ensures Chronological(WalkRecords(s, env, rate, start, n))
  {
    if n > 0 {
      var a := WalkRecords(s, env, rate, start, n - 1);
      var at := start + Elapsed(s, env, rate, n);
      WalkRecordsChronological(s, env, rate, start, n - 1);
      match Encode(s[n - 1].msg) {
        case None =>
          assert WalkRecords(s, env, rate, start, n) == a;
        case Some(e) =>
          var r := SentRecord(e.address, [e.arg], e.kind, at);
          assert WalkRecords(s, env, rate, start, n) == a + [r];
          WalkRecordsBetween(s, env, rate, start, n - 1);
          ElapsedGrows(s, env, rate, n - 1, n);
          AppendAfter(a, r, start, start + Elapsed(s, env, rate, n - 1));
      }
    }
  }

  /** The events of a file with their absolute ticks, gathered track by track (the list before sorting). */
  method CollectEvents(tracks: seq<Track>) returns (events: seq<Timed>)
    ensures events == Timeline(tracks)
  {
    events := [];
    var t := 0;
    while t < |tracks|
      invariant 0 <= t <= |tracks|
      invariant events == Timeline(tracks[..t])
    {
      var track := tracks[t];
      var absTime := 0;
      var j := 0;
      while j < |track|
        invariant 0 <= j <= |track|
        invariant events == Timeline(tracks[..t]) + TrackTimeline(t, track)[..j]
        invariant absTime == if j == 0 then 0 else AbsTick(track, j - 1)
      {
        absTime := absTime + track[j].delta;
        events := events + [Timed(absTime, t, j, track[j].msg)];
        assert TrackTimeline(t, track)[..j + 1] == TrackTimeline(t, track)[..j] + [Timed(absTime, t, j, track[j].msg)];
        j := j + 1;
      }
      assert TrackTimeline(t, track)[..j] == TrackTimeline(t, track);
      assert tracks[..t + 1][..t] == tracks[..t];
      t := t + 1;
    }
    assert tracks[..t] == tracks;
  }

  // ---------------------------------------------------------------------------
  // Tempo and the slider

  /** Where the tempo slider ends up when set to `v`: the nearest value of its range. */
  function Clamp(v: int): (c: int)
    ensures MinBpm <= c <= MaxBpm
    ensures MinBpm <= v <= MaxBpm ==> c == v
    ensures v < MinBpm ==> c == MinBpm
    ensures v > MaxBpm ==> c == MaxBpm
  {
    if v < MinBpm then MinBpm else if v > MaxBpm then MaxBpm else v
  }

  /** The tempo settings: beats per minute, microseconds per beat, and the slider position. */
  datatype TempoSettings = TempoSettings(bpm: int, micros: real, slider: int)

  /**
   * What a reset that adopts `bpm` and `micros` leaves behind. It then moves
   * the slider to `bpm`; if the slider's position changes, the slider's
   * change handler sets the tempo once more, from the slider's value.
   */
  function AfterReset(bpm: int, micros: real, slider: int): TempoSettings {
    var c := Clamp(bpm);
    if c != slider then TempoSettings(c, MicrosPerBeat(c), c)
    else TempoSettings(bpm, micros, slider)
  }

  /**
   * A file tempo that is a whole number of beats per minute inside the
   * slider's range survives a reset unchanged, wherever the slider was.
   */
  lemma ResetKeepsExactTempo(t: nat, slider: int)
    requires t > 0
    requires MinBpm <= BpmOf(t) <= MaxBpm
    requires t * BpmOf(t) == 60000000
    ensures AfterReset(BpmOf(t), t as real, slider) == TempoSettings(BpmOf(t), t as real, BpmOf(t))
    ensures AfterReset(BpmOf(t), t as real, slider).micros == t as real
  {
    BpmOfExactTempo(BpmOf(t), t);
  }

  /**
   * Any other file tempo inside the range is replaced by the one the
   * truncated BPM gives, unless the slider already stood at that BPM.
   */
  lemma ResetRoundsInexactTempo(t: nat, slider: int)
    requires t > 0
    requires MinBpm <= BpmOf(t) <= MaxBpm
    requires t * BpmOf(t) != 60000000
    requires slider != BpmOf(t)
    ensures AfterReset(BpmOf(t), t as real, slider).micros != t as real
    ensures AfterReset(BpmOf(t), t as real, slider).micros == MicrosPerBeat(BpmOf(t))
  {
  }

  /** A file without a tempo event resets to 120 BPM and 500 000 microseconds per beat, wherever the slider was. */
  lemma ResetToDefault(slider: int)
    ensures AfterReset(DefaultBpm, DefaultMicrosPerBeat as real, slider).bpm == DefaultBpm
    ensures AfterReset(DefaultBpm, DefaultMicrosPerBeat as real, slider).micros == DefaultMicrosPerBeat as real
    ensures AfterReset(DefaultBpm, DefaultMicrosPerBeat as real, slider).slider == DefaultBpm
  {
    DefaultTempoAgrees();
  }

  /** The controls seen while the m-th file of a run plays; none once `envs` runs out. */
  function EnvAt(envs: seq<seq<Control>>, m: nat): seq<Control> {
    if m < |envs| then envs[m] else []
  }

  // ---------------------------------------------------------------------------
  // What playing files sends

  /** The file a playlist entry names, or None when it cannot be read. */
  function LibraryFile(library: map<string, MidiFileData>, path: string): Option<MidiFileData> {
    if path in library then Some(library[path]) else None
  }

  /**
   * What playing one file of a running, unstopped playlist leaves behind:
   * the OSC messages it sends, the history entries it writes, the time its
   * walk reaches and whether it ended at a stop request.
   */
  datatype FileRun = FileRun(sent: seq<OscMessage>, records: seq<SentRecord>, finish: real, stopped: bool)

  /**
   * Playing `file` (None when it cannot be read) from time `start`, at
   * `micros` microseconds per beat: the walk over its merged events, cut
   * where it completes, aborts or fails. An unreadable file leaves nothing.
   */
  function PlayFile(file: Option<MidiFileData>, env: seq<Control>, micros: real, clientOpen: bool, start: real): FileRun {
    match file
    case None => FileRun([], [], start, false)
    case Some(f) =>
      var s := Merge(f.tracks);
      var o := WalkOutcome(s, env, false, f.ticksPerBeat, clientOpen, 0);
      var rate := Rate(f.ticksPerBeat, micros);
      FileRun(WalkSent(s, Handled(o, |s|)), WalkRecords(s, env, rate, start, Handled(o, |s|)),
              start + Elapsed(s, env, rate, Reached(o, |s|)), o.Aborted? && ControlAt(env, o.at).stopRequested)
  }

  /** Where the `m`-th file of a run starts: where the file before it finished, or at `start`. */
  function StartOf(start: real, runs: seq<FileRun>, m: nat): real
    requires m <= |runs|
  {
    if m == 0 then start else runs[m - 1].finish
  }

  /** The messages a run of files sent, file after file. */
  function RunSent(runs: seq<FileRun>): seq<OscMessage> {
    if runs == [] then [] else RunSent(runs[..|runs| - 1]) + runs[|runs| - 1].sent
  }

  /** The history entries a run of files wrote, file after file. */
  function RunRecords(runs: seq<FileRun>): seq<SentRecord> {
    if runs == [] then [] else RunRecords(runs[..|runs| - 1]) + runs[|runs| - 1].records
  }

  /**
   * `runs[m]` is what the `m`-th file of a run leaves: the file `files[m]`
   * names, played in the environment `envs[m]` from where the file before
   * it finished.
   */
  ghost predicate RunOf(library: map<string, MidiFileData>, files: seq<string>, envs: seq<seq<Control>>, micros: real,
                        clientOpen: bool, start: real, runs: seq<FileRun>)
  {
    && |runs| == |files|
    && forall m {:trigger PlayFile(LibraryFile(library, files[m]), EnvAt(envs, m), micros, clientOpen, StartOf(start, runs, m))}
         :: 0 <= m < |files| ==>
         runs[m] == PlayFile(LibraryFile(library, files[m]), EnvAt(envs, m), micros, clientOpen, StartOf(start, runs, m))
  }

  /** Only the last file of a run can have ended at a stop request. */
  ghost predicate StopsOnlyAtEnd(runs: seq<FileRun>) {
    forall m :: 0 <= m < |runs| - 1 ==> !runs[m].stopped
  }

  /**
   * One file more played extends the run by its `FileRun`: what it sends
   * follows what the run sent, and its entries are pushed after the run's.
   */
  lemma RunStep(library: map<string, MidiFileData>, files: seq<string>, x: string, envs: seq<seq<Control>>, micros: real,
                clientOpen: bool, start: real, runs: seq<FileRun>, r: FileRun, o0: seq<OscMessage>, h0: seq<SentRecord>)
    requires RunOf(library, files, envs, micros, clientOpen, start, runs) && |h0| <= Capacity
    requires r == PlayFile(LibraryFile(library, x), EnvAt(envs, |files|), micros, clientOpen, StartOf(start, runs, |runs|))
    requires StopsOnlyAtEnd(runs) && (|runs| > 0 ==> !runs[|runs| - 1].stopped)
    ensures RunOf(library, files + [x], envs, micros, clientOpen, start, runs + [r])
    ensures StopsOnlyAtEnd(runs + [r])
    ensures o0 + RunSent(runs + [r]) == (o0 + RunSent(runs)) + r.sent
    ensures PushAll(h0, RunRecords(runs + [r])) == PushAll(PushAll(h0, RunRecords(runs)), r.records)
  {
    var runs' := runs + [r];
    forall m | 0 <= m < |files| + 1
      ensures runs'[m] == PlayFile(LibraryFile(library, (files + [x])[m]), EnvAt(envs, m), micros, clientOpen, StartOf(start, runs', m))
    {
      if m < |files| {
        assert (files + [x])[m] == files[m];
        assert StartOf(start, runs', m) == StartOf(start, runs, m);
        assert runs[m] == PlayFile(LibraryFile(library, files[m]), EnvAt(envs, m), micros, clientOpen, StartOf(start, runs, m));
      }
    }
    assert runs'[..|runs|] == runs;
    AppendAssoc(o0, RunSent(runs), r.sent);
    PushAllAppend(h0, RunRecords(runs), r.records);
  }

  lemma AppendAssoc<T>(a: seq<T>, b: seq<T>, c: seq<T>)
    ensures (a + b) + c == a + (b + c)
  {
  }

  /**
   * A readable file with a tick resolution, played with the client open and
   * no stop, sends the translation of every event of its merged list, writes
   * an entry for each, and its clock runs through every wait.
   */
  lemma PlayFileUndisturbed(f: MidiFileData, env: seq<Control>, micros: real, start: real)
    requires f.ticksPerBeat > 0
    requires forall i :: 0 <= i < |Merge(f.tracks)| ==> !ControlAt(env, i).stopRequested
    ensures
      var s := Merge(f.tracks);
      var rate := Rate(f.ticksPerBeat, micros);
      var r := PlayFile(Some(f), env, micros, true, start);
      && r.sent == Translate(Messages(s))
      && r.records == WalkRecords(s, env, rate, start, |s|)
      && r.finish == start + Elapsed(s, env, rate, |s|)
      && !r.stopped
  {
    var s := Merge(f.tracks);
    UndisturbedWalkCompletes(s, env, f.ticksPerBeat, 0);
    WalkSentIsTranslation(s, |s|);
    assert s[..|s|] == s;
  }

  /**
   * A stop requested before the first event of a readable file ends its
   * walk there: nothing is sent or written, the clock does not move, and
   * the run is stopped.
   */
  lemma PlayFileStoppedAtOnce(f: MidiFileData, env: seq<Control>, micros: real, clientOpen: bool, start: real)
    requires |Merge(f.tracks)| > 0 && ControlAt(env, 0).stopRequested
    ensures PlayFile(Some(f), env, micros, clientOpen, start) == FileRun([], [], start, true)
  {
  }

  /** A file played while no stop is requested never ends the run at a stop. */
  lemma PlayFileUnrequestedNeverStops(file: Option<MidiFileData>, env: seq<Control>, micros: real, clientOpen: bool, start: real)
    requires forall i :: 0 <= i < |env| ==> !env[i].stopRequested
    ensures !PlayFile(file, env, micros, clientOpen, start).stopped
  {
  }

  /** How the run loop ends: it finished, its thread raised, or it would go on past the files followed. */
  datatype RunStatus = Finished | Crashed | BudgetSpent

  // ---------------------------------------------------------------------------
  // The application object

  class OscMidiApp {
    var playing: bool
    var looping: bool
    var tempo: int
    var tempoMicrosPerBeat: real
    var paused: bool
    var requestStop: bool
    var midiPlaylist: seq<string>
    var currentPlaylistIndex: int
    /** The deque of recently sent messages, oldest first. */
    var sentMessages: seq<SentRecord>
    /** The position of the tempo slider. */
    var sliderValue: int
    var midiInOpen: bool
    var midiOutOpen: bool
    var oscClientOpen: bool
    /** Everything sent to the MIDI output port, in order. */
    ghost var midiSent: seq<MidiMsg>
    /** Everything sent by the OSC client, in order. */
    ghost var oscSent: seq<OscMessage>

    predicate Valid()
      reads this
    {
      && |sentMessages| <= Capacity
      && currentPlaylistIndex >= 0
      && MinBpm <= sliderValue <= MaxBpm
      && tempoMicrosPerBeat >= 0.0
    }

    /** The state right after start-up: stopped, 120 BPM, nothing loaded, nothing open. */
    constructor()
      ensures Valid()
      ensures !playing && !looping && !paused && !requestStop
      ensures tempo == DefaultBpm && tempoMicrosPerBeat == DefaultMicrosPerBeat as real && sliderValue == DefaultBpm
      ensures midiPlaylist == [] && currentPlaylistIndex == 0 && sentMessages == []
      ensures !midiInOpen && !midiOutOpen && !oscClientOpen
      ensures midiSent == [] && oscSent == []
    {
      playing := false;
      looping := false;
      tempo := DefaultBpm;
      tempoMicrosPerBeat := DefaultMicrosPerBeat as real;
      paused := false;
      requestStop := false;
      midiPlaylist := [];
      currentPlaylistIndex := 0;
      sentMessages := [];
      sliderValue := DefaultBpm;
      midiInOpen := false;
      midiOutOpen := false;
      oscClientOpen := false;
      midiSent := [];
      oscSent := [];
    }

    /** Starting the server opens the OSC client and both MIDI ports; stopping it closes them. */
    method SetConnections(midiIn: bool, midiOut: bool, client: bool)
      modifies this`midiInOpen, this`midiOutOpen, this`oscClientOpen
      ensures midiInOpen == midiIn && midiOutOpen == midiOut && oscClientOpen == client
    {
      midiInOpen, midiOutOpen, oscClientOpen := midiIn, midiOut, client;
    }

    // -------------------------------------------------------------------------
    // The record of sent messages

    /** Pops every entry from the front that is more than 0.1 s older than `now`. */
    method CleanupSentMessages(now: real)
      modifies this`sentMessages
      ensures sentMessages == Sweep(old(sentMessages), now)
      ensures |sentMessages| <= |old(sentMessages)|
    {
      while sentMessages != [] && Stale(sentMessages[0], now)
        invariant Sweep(sentMessages, now) == Sweep(old(sentMessages), now)
        invariant |sentMessages| <= |old(sentMessages)|
        decreases |sentMessages|
      {
        sentMessages := sentMessages[1..];
      }
    }

    // -------------------------------------------------------------------------
    // OSC -> MIDI

    /**
     * The dispatcher callback. The history is swept first; then a message is
     * sent to the MIDI output only when the address is recognised, playback is
     * not paused, the arguments make a valid message and the output is open.
     * Every other case is logged and dropped.
     */
    method HandleOscMessage(now: real, address: string, args: seq<int>) returns (sent: Option<MidiMsg>)
      requires Valid()
      modifies this`sentMessages, this`midiSent
      ensures Valid()
      ensures sent.Some? <==> !paused && Decode(address, args).Ok? && midiOutOpen
      ensures sent.Some? ==> sent.value == Decode(address, args).value
      ensures midiSent == old(midiSent) + if sent.Some? then [sent.value] else []
      ensures sentMessages ==
        if sent.Some? then Push(Sweep(old(sentMessages), now), SentRecord(address, args, KindOf(sent.value), now))
        else Sweep(old(sentMessages), now)
    {
      CleanupSentMessages(now);
      sent := None;
      if MatchAddress(address).None? {
        return;
      }
      if paused {
        return;
      }
      match Decode(address, args)
      case Err(_) =>
      case Ok(m) =>
        if midiOutOpen {
          midiSent := midiSent + [m];
          sentMessages := Push(sentMessages, SentRecord(address, args, KindOf(m), now));
          sent := Some(m);
        }
    }

    // -------------------------------------------------------------------------
    // MIDI -> OSC, live

    /**
     * The branch table shared by the listener and the file player: a
     * channel-voice message is sent through the OSC client and recorded with
     * the time `at`; any other message is skipped.
     */
    method SendAsOsc(m: MidiMsg, at: real)
      requires |sentMessages| <= Capacity
      modifies this`sentMessages, this`oscSent
      ensures oscSent == old(oscSent) + Emit(m)
      ensures sentMessages == PushAll(old(sentMessages), RecordOf(m, at))
    {
      match Encode(m) {
        case None =>
        case Some(e) =>
          oscSent := oscSent + [OscMessage(e.address, [e.arg])];
          sentMessages := Push(sentMessages, SentRecord(e.address, [e.arg], e.kind, at));
          assert [SentRecord(e.address, [e.arg], e.kind, at)][..0] == [];
      }
    }

    /** One turn of the listener's loop: the next message read is handled. */
    method ListenOnce(incoming: seq<Incoming>, n: nat, ghost o0: seq<OscMessage>, ghost h0: seq<SentRecord>) returns (next: nat)
      requires n < |incoming| && |h0| <= Capacity
      requires n <= ServerStopAt(incoming) && incoming[n].serverRunning
      requires oscSent == o0 + Translate(Inputs(incoming[..n]))
      requires sentMessages == PushAll(h0, ListenerRecords(incoming[..n]))
      modifies this`sentMessages, this`oscSent
      ensures next == n + 1 && next <= ServerStopAt(incoming)
      ensures oscSent == o0 + Translate(Inputs(incoming[..next]))
      ensures sentMessages == PushAll(h0, ListenerRecords(incoming[..next]))
    {
      ListenerAdvanceSent(o0, incoming, n, oscSent);
      ListenerAdvanceRecorded(h0, incoming, n, sentMessages);
      SendAsOsc(incoming[n].msg, incoming[n].at);
      ServerStopAtStep(incoming, n);
      next := n + 1;
    }

    /**
     * The listener's loop: each message read is sent as OSC (when it is a
     * channel-voice message) until the server is seen stopped.
     */
    method Listen(incoming: seq<Incoming>) returns (handled: nat)
      requires |sentMessages| <= Capacity
      modifies this`sentMessages, this`oscSent
      ensures handled == ServerStopAt(incoming)
      ensures oscSent == old(oscSent) + Translate(Inputs(incoming[..handled]))
      ensures sentMessages == PushAll(old(sentMessages), ListenerRecords(incoming[..handled]))
    {
      ghost var o0, h0 := oscSent, sentMessages;
      handled := 0;
      while handled < |incoming| && incoming[handled].serverRunning
        invariant handled <= ServerStopAt(incoming)
        invariant oscSent == o0 + Translate(Inputs(incoming[..handled]))
        invariant sentMessages == PushAll(h0, ListenerRecords(incoming[..handled]))
        decreases |incoming| - handled
      {
        handled := ListenOnce(incoming, handled, o0, h0);
      }
    }

    /**
     * The listener thread: nothing happens unless the MIDI input and the OSC
     * client are open; otherwise it listens until the server is seen stopped.
     */
    method RunMidiInput(incoming: seq<Incoming>) returns (handled: nat)
      requires Valid()
      modifies this`sentMessages, this`oscSent
      ensures Valid()
      ensures !(midiInOpen && oscClientOpen) ==>
        handled == 0 && sentMessages == old(sentMessages) && oscSent == old(oscSent)
      ensures midiInOpen && oscClientOpen ==>
        && handled == ServerStopAt(incoming)
        && oscSent == old(oscSent) + Translate(Inputs(incoming[..handled]))
        && sentMessages == PushAll(old(sentMessages), ListenerRecords(incoming[..handled]))
    {
      handled := 0;
      if midiInOpen && oscClientOpen {
        handled := Listen(incoming);
      }
    }

    // -------------------------------------------------------------------------
    // The file player

    /** The walk sends event `k` at time `clock`, when it is a channel-voice message. */
    method WalkSend(s: seq<Timed>, env: seq<Control>, rate: real, start: real, k: nat, clock: real,
                    ghost o0: seq<OscMessage>, ghost h0: seq<SentRecord>) returns (next: nat)
      requires k < |s| && |h0| <= Capacity
      requires clock == start + Elapsed(s, env, rate, k + 1)
      requires oscSent == o0 + WalkSent(s, k)
      requires sentMessages == PushAll(h0, WalkRecords(s, env, rate, start, k))
      modifies this`sentMessages, this`oscSent
      ensures next == k + 1
      ensures clock == start + Elapsed(s, env, rate, next) && s[k].tick == TickAfter(s, next)
      ensures oscSent == o0 + WalkSent(s, next)
      ensures sentMessages == PushAll(h0, WalkRecords(s, env, rate, start, next))
    {
      WalkAdvanceSent(o0, s, k, oscSent);
      WalkAdvanceRecorded(h0, s, env, rate, start, k, sentMessages, clock);
      SendAsOsc(s[k].msg, clock);
      next := k + 1;
    }

    /**
     * The walk over the merged list `s` of a file with `tpb` ticks per beat:
     * each event waits out the pause and the tick difference to the previous
     * event, then is sent as OSC when it is a channel-voice message. It is
     * cut short by a stop, a missing tick resolution or a missing client.
     */
    method WalkEvents(s: seq<Timed>, tpb: nat, env: seq<Control>, start: real) returns (outcome: Outcome, finish: real)
      requires |sentMessages| <= Capacity
      modifies this`sentMessages, this`oscSent, this`requestStop
      ensures
        var rate := Rate(tpb, tempoMicrosPerBeat);
        var n := Handled(outcome, |s|);
        && outcome == WalkOutcome(s, env, !playing || old(requestStop), tpb, oscClientOpen, 0)
        && oscSent == old(oscSent) + WalkSent(s, n)
        && sentMessages == PushAll(old(sentMessages), WalkRecords(s, env, rate, start, n))
        && requestStop == (old(requestStop) || (outcome.Aborted? && ControlAt(env, outcome.at).stopRequested))
        && finish == start + Elapsed(s, env, rate, Reached(outcome, |s|))
    {
      var rate := Rate(tpb, tempoMicrosPerBeat);
      ghost var stopped := !playing || requestStop;
      ghost var o0, h0 := oscSent, sentMessages;
      var clientOpen := oscClientOpen;
      var k := 0;
      var previousTick := 0;
      var clock := start;
      outcome := Completed;
      while k < |s|
        invariant 0 <= k <= |s|
        invariant previousTick == TickAfter(s, k)
        invariant clock == start + Elapsed(s, env, rate, k)
        invariant requestStop == old(requestStop)
        invariant WalkOutcome(s, env, stopped, tpb, clientOpen, k) == WalkOutcome(s, env, stopped, tpb, clientOpen, 0)
        invariant oscSent == o0 + WalkSent(s, k)
        invariant sentMessages == PushAll(h0, WalkRecords(s, env, rate, start, k))
        invariant outcome == Completed
      {
        var control := ControlAt(env, k);
        if !playing || requestStop || control.stopRequested {
          if control.stopRequested {
            requestStop := true;
          }
          outcome := Aborted(k);
          break;
        }
        clock := clock + control.pausePolls as real * PollInterval;
        if tpb == 0 {
          assert TicksToSeconds(DeltaTicks(s, k), rate) == 0.0;
          outcome := Failed(k);
          break;
        }
        var delta := s[k].tick - previousTick;
        assert delta == DeltaTicks(s, k);
        clock := clock + TicksToSeconds(delta, rate);
        previousTick := s[k].tick;
        if IsChannelVoice(s[k].msg) && !clientOpen {
          outcome := Failed(k);
          break;
        }
        var next := WalkSend(s, env, rate, start, k, clock, o0, h0);
        WalkOutcomeStep(s, env, stopped, tpb, clientOpen, k, next);
        k := next;
      }
      finish := clock;
    }

    /**
     * Plays one file: `file` is the parsed file, or None when it cannot be
     * read. `env` says, event by event, whether a stop was requested and how
     * long playback was paused; `start` is the time playback starts.
     */
    method PlaySingleMidi(file: Option<MidiFileData>, env: seq<Control>, start: real) returns (outcome: Outcome, finish: real)
      requires Valid()
      modifies this`sentMessages, this`oscSent, this`requestStop
      ensures Valid()
      ensures file.None? ==>
        outcome == Failed(0) && finish == start
        && sentMessages == old(sentMessages) && oscSent == old(oscSent) && requestStop == old(requestStop)
      ensures file.Some? ==>
        var s := Merge(file.value.tracks);
        var tpb := file.value.ticksPerBeat;
        var rate := Rate(tpb, tempoMicrosPerBeat);
        var n := Handled(outcome, |s|);
        && outcome == WalkOutcome(s, env, !playing || old(requestStop), tpb, oscClientOpen, 0)
        && oscSent == old(oscSent) + Translate(Messages(s[..n]))
        && sentMessages == PushAll(old(sentMessages), WalkRecords(s, env, rate, start, n))
        && requestStop == (old(requestStop) || (outcome.Aborted? && ControlAt(env, outcome.at).stopRequested))
        && finish == start + Elapsed(s, env, rate, Reached(outcome, |s|))
    {
      if file.None? {
        outcome, finish := Failed(0), start;
        return;
      }
      var events := CollectEvents(file.value.tracks);
      var s := SortByTick(events);
      outcome, finish := WalkEvents(s, file.value.ticksPerBeat, env, start);
      WalkSentIsTranslation(s, Handled(outcome, |s|));
    }

    /**
     * Plays the file a playlist entry names: the file is read from `library`,
     * and a path it does not hold is a file that cannot be read.
     */
    method PlayPath(library: map<string, MidiFileData>, path: string, env: seq<Control>, start: real)
      returns (outcome: Outcome, finish: real)
      requires Valid()
      modifies this`sentMessages, this`oscSent, this`requestStop
      ensures Valid()
      ensures !playing || old(requestStop) ==> oscSent == old(oscSent)
      ensures playing && !old(requestStop) ==>
        var r := PlayFile(LibraryFile(library, path), env, tempoMicrosPerBeat, oscClientOpen, start);
        && oscSent == old(oscSent) + r.sent
        && sentMessages == PushAll(old(sentMessages), r.records)
        && finish == r.finish
        && requestStop == r.stopped
      ensures requestStop == (old(requestStop) || (outcome.Aborted? && ControlAt(env, outcome.at).stopRequested))
      ensures path !in library ==> outcome == Failed(0) && finish == start && sentMessages == old(sentMessages)
      ensures path in library ==>
        var s := Merge(library[path].tracks);
        var tpb := library[path].ticksPerBeat;
        var rate := Rate(tpb, tempoMicrosPerBeat);
        && outcome == WalkOutcome(s, env, !playing || old(requestStop), tpb, oscClientOpen, 0)
        && sentMessages == PushAll(old(sentMessages), WalkRecords(s, env, rate, start, Handled(outcome, |s|)))
        && finish == start + Elapsed(s, env, rate, Reached(outcome, |s|))
    {
      outcome, finish := PlaySingleMidi(LibraryFile(library, path), env, start);
      if path in library {
        var s := Merge(library[path].tracks);
        WalkSentIsTranslation(s, Handled(outcome, |s|));
      }
    }

    /**
     * One turn of the playlist loop, while playback runs: entry `j`, the next
     * the loop picks, is played after the `played` files from time `clock`,
     * and the index moves past it.
     */
    method PlayEntry(library: map<string, MidiFileData>, envs: seq<seq<Control>>, clock: real, j: nat,
                     played: seq<string>, ghost budget: nat, ghost order: seq<string>)
      returns (played': seq<string>, clock': real)
      requires Valid() && |midiPlaylist| > 0 && |played| < budget
      requires playing && !requestStop
      requires NextToPlay(|midiPlaylist|, looping, currentPlaylistIndex) == Some(j)
      requires played + PlayOrder(midiPlaylist, looping, currentPlaylistIndex, budget - |played|) == order
      modifies this`currentPlaylistIndex, this`requestStop, this`sentMessages, this`oscSent
      ensures Valid() && currentPlaylistIndex == j + 1
      ensures played' == played + [midiPlaylist[j]]
      ensures
        var r := PlayFile(LibraryFile(library, midiPlaylist[j]), EnvAt(envs, |played|), tempoMicrosPerBeat, oscClientOpen, clock);
        && oscSent == old(oscSent) + r.sent
        && sentMessages == PushAll(old(sentMessages), r.records)
        && clock' == r.finish
        && requestStop == r.stopped
      ensures played' + PlayOrder(midiPlaylist, looping, currentPlaylistIndex, budget - |played'|) == order
    {
      ghost var pl, lp, i0 := midiPlaylist, looping, currentPlaylistIndex;
      var path := midiPlaylist[j];
      var env := EnvAt(envs, |played|);
      currentPlaylistIndex := j;
      var _, f := PlayPath(library, path, env, clock);
      assert playing && !old(requestStop);
      clock' := f;
      played' := played + [path];
      currentPlaylistIndex := j + 1;
      PlayedShift(pl, lp, i0, budget, j, played, order, played');
      assert midiPlaylist == pl && looping == lp;
    }

    /**
     * The turns of the playlist loop, from the current index, while playback
     * runs, no stop is requested and the budget lasts: the files played are
     * the play order up to where the loop stands, each file's walk starts
     * where the one before ended, and only the last file can have ended at a
     * stop request; the run is stopped exactly when it did.
     */
    method PlayTurns(library: map<string, MidiFileData>, envs: seq<seq<Control>>, start: real, budget: nat)
      returns (played: seq<string>, ghost runs: seq<FileRun>)
      requires Valid() && |midiPlaylist| > 0 && playing && !requestStop
      modifies this`currentPlaylistIndex, this`requestStop, this`sentMessages, this`oscSent
      ensures Valid() && |played| <= budget
      ensures played + PlayOrder(midiPlaylist, looping, currentPlaylistIndex, budget - |played|)
        == PlayOrder(midiPlaylist, looping, old(currentPlaylistIndex), budget)
      ensures playing && !requestStop && |played| < budget ==> NextToPlay(|midiPlaylist|, looping, currentPlaylistIndex).None?
      ensures RunOf(library, played, envs, tempoMicrosPerBeat, oscClientOpen, start, runs)
      ensures oscSent == old(oscSent) + RunSent(runs)
      ensures sentMessages == PushAll(old(sentMessages), RunRecords(runs))
      ensures StopsOnlyAtEnd(runs)
      ensures requestStop <==> |runs| > 0 && runs[|runs| - 1].stopped
    {
      played, runs := [], [];
      var clock := start;
      ghost var order := PlayOrder(midiPlaylist, looping, currentPlaylistIndex, budget);
      ghost var o0, h0 := oscSent, sentMessages;
      while playing && !requestStop && |played| < budget
        invariant Valid() && |played| <= budget
        invariant played + PlayOrder(midiPlaylist, looping, currentPlaylistIndex, budget - |played|) == order
        invariant RunOf(library, played, envs, tempoMicrosPerBeat, oscClientOpen, start, runs)
        invariant clock == StartOf(start, runs, |runs|)
        invariant oscSent == o0 + RunSent(runs) && sentMessages == PushAll(h0, RunRecords(runs))
        invariant StopsOnlyAtEnd(runs)
        invariant requestStop <==> |runs| > 0 && runs[|runs| - 1].stopped
      {
        var next := NextToPlay(|midiPlaylist|, looping, currentPlaylistIndex);
        if next.None? {
          break;
        }
        ghost var r;
        played, clock, r := RunTurn(library, envs, start, clock, next.value, played, runs, budget, order, o0, h0);
        runs := runs + [r];
      }
    }

    /**
     * The loop of a run that starts: it plays a prefix of the play order,
     * all of it unless a stop ended the run.
     */
    method PlayRun(library: map<string, MidiFileData>, envs: seq<seq<Control>>, start: real, budget: nat)
      returns (played: seq<string>, ghost runs: seq<FileRun>)
      requires Valid() && |midiPlaylist| > 0 && playing && !requestStop
      modifies this`currentPlaylistIndex, this`requestStop, this`sentMessages, this`oscSent
      ensures Valid() && |played| <= budget
      ensures played <= PlayOrder(midiPlaylist, looping, old(currentPlaylistIndex), budget)
      ensures !requestStop ==> played == PlayOrder(midiPlaylist, looping, old(currentPlaylistIndex), budget)
      ensures RunOf(library, played, envs, tempoMicrosPerBeat, oscClientOpen, start, runs)
      ensures oscSent == old(oscSent) + RunSent(runs)
      ensures sentMessages == PushAll(old(sentMessages), RunRecords(runs))
      ensures StopsOnlyAtEnd(runs)
      ensures requestStop <==> |runs| > 0 && runs[|runs| - 1].stopped
    {
      ghost var order := PlayOrder(midiPlaylist, looping, currentPlaylistIndex, budget);
      played, runs := PlayTurns(library, envs, start, budget);
      PlayedPrefix(midiPlaylist, looping, currentPlaylistIndex, budget, played, order);
    }

    /**
     * A turn of the loop seen as a step of the run: playing entry `j` adds
     * its `FileRun` to those of the files played before it.
     */
    method RunTurn(library: map<string, MidiFileData>, envs: seq<seq<Control>>, start: real, clock: real, j: nat,
                   played: seq<string>, ghost runs: seq<FileRun>, ghost budget: nat, ghost order: seq<string>,
                   ghost o0: seq<OscMessage>, ghost h0: seq<SentRecord>)
      returns (played': seq<string>, clock': real, ghost r: FileRun)
      requires Valid() && |midiPlaylist| > 0 && |played| < budget
      requires playing && !requestStop
      requires NextToPlay(|midiPlaylist|, looping, currentPlaylistIndex) == Some(j)
      requires played + PlayOrder(midiPlaylist, looping, currentPlaylistIndex, budget - |played|) == order
      requires RunOf(library, played, envs, tempoMicrosPerBeat, oscClientOpen, start, runs) && clock == StartOf(start, runs, |runs|)
      requires |h0| <= Capacity && oscSent == o0 + RunSent(runs) && sentMessages == PushAll(h0, RunRecords(runs))
      requires StopsOnlyAtEnd(runs) && (|runs| > 0 ==> !runs[|runs| - 1].stopped)
      modifies this`currentPlaylistIndex, this`requestStop, this`sentMessages, this`oscSent
      ensures Valid() && played' == played + [midiPlaylist[j]]
      ensures played' + PlayOrder(midiPlaylist, looping, currentPlaylistIndex, budget - |played'|) == order
      ensures RunOf(library, played', envs, tempoMicrosPerBeat, oscClientOpen, start, runs + [r])
      ensures clock' == r.finish && requestStop == r.stopped && StopsOnlyAtEnd(runs + [r])
      ensures oscSent == o0 + RunSent(runs + [r]) && sentMessages == PushAll(h0, RunRecords(runs + [r]))
    {
      ghost var path, micros, open := midiPlaylist[j], tempoMicrosPerBeat, oscClientOpen;
      played', clock' := PlayEntry(library, envs, clock, j, played, budget, order);
      r := PlayFile(LibraryFile(library, path), EnvAt(envs, |played|), micros, open, clock);
      RunStep(library, played, path, envs, micros, open, start, runs, r, o0, h0);
    }

    /**
     * The playlist loop: plays files from the current index on, going back
     * to the first file at the end when looping, until playback is stopped
     * or, without looping, the end is reached; then rewinds the index and
     * clears the flags. `library` holds the files that can be read, `envs`
     * the environment of each file played in turn, `start` the time the run
     * starts, and `budget` the number of files the run is followed for: a
     * run that would play more is left as it stands (`BudgetSpent`). An
     * empty playlist ends the run at once without looping; with looping, the
     * index goes back to 0 and reading the first entry raises, which ends
     * the thread (`Crashed`) with the flags left as they were.
     */
    method RunPlaylist(library: map<string, MidiFileData>, envs: seq<seq<Control>>, start: real, budget: nat)
      returns (played: seq<string>, status: RunStatus, ghost runs: seq<FileRun>)
      requires Valid()
      modifies this`currentPlaylistIndex, this`playing, this`paused, this`requestStop, this`sentMessages, this`oscSent
      ensures Valid()
      ensures status == Crashed <==> |midiPlaylist| == 0 && looping && old(playing) && !old(requestStop) && budget > 0
      ensures status == Finished ==> currentPlaylistIndex == 0 && !playing && !paused
      ensures status == Crashed ==> currentPlaylistIndex == 0 && playing && paused == old(paused)
      ensures status == BudgetSpent ==>
        && |played| == budget && playing && !requestStop && paused == old(paused)
        && (|midiPlaylist| > 0 ==> NextToPlay(|midiPlaylist|, looping, currentPlaylistIndex).Some?)
      ensures |midiPlaylist| == 0 || !old(playing) || old(requestStop) ==> played == [] && requestStop == old(requestStop)
      ensures RunOf(library, played, envs, tempoMicrosPerBeat, oscClientOpen, start, runs)
      ensures oscSent == old(oscSent) + RunSent(runs)
      ensures sentMessages == PushAll(old(sentMessages), RunRecords(runs))
      ensures StopsOnlyAtEnd(runs)
      ensures |midiPlaylist| > 0 && old(playing) && !old(requestStop) ==> (requestStop <==> |runs| > 0 && runs[|runs| - 1].stopped)
      ensures |midiPlaylist| > 0 ==>
        && played <= PlayOrder(midiPlaylist, looping, old(currentPlaylistIndex), budget)
        && (old(playing) && !old(requestStop) && !requestStop ==>
              played == PlayOrder(midiPlaylist, looping, old(currentPlaylistIndex), budget))
    {
      played, runs := [], [];
      if |midiPlaylist| == 0 {
        status := EndEmptyRun(budget);
        return;
      }
      if playing && !requestStop {
        played, runs := PlayRun(library, envs, start, budget);
      }
      status := EndLoop(|played| == budget);
    }

    /**
     * Where the loop over a non-empty playlist stops: a run that would play
     * another file once the budget is spent is left as it stands; any other
     * run rewinds the index and clears the flags.
     */
    method EndLoop(spent: bool) returns (status: RunStatus)
      requires Valid() && |midiPlaylist| > 0
      modifies this`currentPlaylistIndex, this`playing, this`paused
      ensures Valid() && status != Crashed
      ensures status == BudgetSpent <==>
        old(playing) && !requestStop && spent && NextToPlay(|midiPlaylist|, looping, old(currentPlaylistIndex)).Some?
      ensures status == Finished ==> currentPlaylistIndex == 0 && !playing && !paused
      ensures status == BudgetSpent ==> currentPlaylistIndex == old(currentPlaylistIndex) && playing && paused == old(paused)
    {
      if playing && !requestStop && spent && NextToPlay(|midiPlaylist|, looping, currentPlaylistIndex).Some? {
        return BudgetSpent;
      }
      currentPlaylistIndex := 0;
      playing := false;
      paused := false;
      return Finished;
    }

    /**
     * The run loop over an empty playlist: without looping it ends at once;
     * with looping the index goes back to 0 and reading the first entry
     * raises, unless the run is followed for no file at all.
     */
    method EndEmptyRun(budget: nat) returns (status: RunStatus)
      requires Valid() && |midiPlaylist| == 0
      modifies this`currentPlaylistIndex, this`playing, this`paused
      ensures Valid()
      ensures status == Crashed <==> looping && old(playing) && !requestStop && budget > 0
      ensures status == Finished <==> !(old(playing) && !requestStop && looping)
      ensures status == Finished ==> currentPlaylistIndex == 0 && !playing && !paused
      ensures status == Crashed ==> currentPlaylistIndex == 0 && playing && paused == old(paused)
      ensures status == BudgetSpent ==> budget == 0 && playing && paused == old(paused)
    {
      if playing && !requestStop && looping {
        if budget == 0 {
          return BudgetSpent;
        }
        currentPlaylistIndex := 0;
        return Crashed;
      }
      currentPlaylistIndex := 0;
      playing := false;
      paused := false;
      return Finished;
    }

    // -------------------------------------------------------------------------
    // Playlist controls

    /** Starts the run when there is something to play and nothing is playing yet. */
    method Play() returns (started: bool)
      modifies this`playing, this`requestStop
      ensures started <==> |midiPlaylist| > 0 && !old(playing)
      ensures started ==> playing && !requestStop
      ensures !started ==> playing == old(playing) && requestStop == old(requestStop)
    {
      started := false;
      if |midiPlaylist| == 0 {
        return;
      }
      if !playing {
        playing := true;
        requestStop := false;
        started := true;
      }
    }

    method SkipForward() returns (started: bool)
      requires Valid()
      modifies this`playing, this`paused, this`requestStop, this`currentPlaylistIndex
      ensures Valid()
      ensures |midiPlaylist| == 0 ==>
        !started && playing == old(playing) && paused == old(paused) && requestStop == old(requestStop)
        && currentPlaylistIndex == old(currentPlaylistIndex)
      ensures |midiPlaylist| > 0 ==>
        started && playing && !paused && !requestStop
        && currentPlaylistIndex == NextIndex(old(currentPlaylistIndex), |midiPlaylist|)
    {
      started := false;
      if |midiPlaylist| == 0 {
        return;
      }
      requestStop := true;
      playing := false;
      paused := false;
      currentPlaylistIndex := NextIndex(currentPlaylistIndex, |midiPlaylist|);
      started := Play();
    }

    method SkipBack() returns (started: bool)
      requires Valid()
      modifies this`playing, this`paused, this`requestStop, this`currentPlaylistIndex
      ensures Valid()
      ensures |midiPlaylist| == 0 ==>
        !started && playing == old(playing) && paused == old(paused) && requestStop == old(requestStop)
        && currentPlaylistIndex == old(currentPlaylistIndex)
      ensures |midiPlaylist| > 0 ==>
        started && playing && !paused && !requestStop
        && currentPlaylistIndex == PrevIndex(old(currentPlaylistIndex), |midiPlaylist|)
    {
      started := false;
      if |midiPlaylist| == 0 {
        return;
      }
      requestStop := true;
      playing := false;
      paused := false;
      currentPlaylistIndex := PrevIndex(currentPlaylistIndex, |midiPlaylist|);
      started := Play();
    }

    /** Stops a run in progress, and in any case empties the playlist. */
    method Stop()
      requires Valid()
      modifies this`playing, this`paused, this`requestStop, this`midiPlaylist, this`currentPlaylistIndex
      ensures Valid()
      ensures midiPlaylist == [] && currentPlaylistIndex == 0
      ensures old(playing) ==> !playing && !paused && requestStop
      ensures !old(playing) ==> !playing && paused == old(paused) && requestStop == old(requestStop)
    {
      if playing {
        playing := false;
        paused := false;
        requestStop := true;
      }
      midiPlaylist := [];
      currentPlaylistIndex := 0;
    }

    method TogglePause()
      modifies this`paused
      ensures paused == !old(paused)
    {
      paused := !paused;
    }

    /** The looping check box: looping follows its state. */
    method ToggleLooping(checked: bool)
      modifies this`looping
      ensures looping == checked
    {
      looping := checked;
    }

    // -------------------------------------------------------------------------
    // Playlist intake

    /** Files dropped on the window: the ".mid" ones are appended, in the order dropped. */
    method AddDroppedFiles(files: seq<string>)
      modifies this`midiPlaylist
      ensures midiPlaylist == old(midiPlaylist) + MidiPaths(files)
    {
      var i := 0;
      while i < |files|
        invariant 0 <= i <= |files|
        invariant midiPlaylist == old(midiPlaylist) + MidiPaths(files[..i])
      {
        MidiPathsStep(old(midiPlaylist), files, i);
        if IsMidiPath(files[i]) {
          midiPlaylist := midiPlaylist + [files[i]];
        }
        i := i + 1;
      }
      assert files[..i] == files;
    }

    /**
     * A folder chosen in the dialog (empty when the dialog is cancelled), with
     * the names it lists: its ".mid" files are appended in sorted order.
     */
    method AddFolderToPlaylist(folder: string, listing: seq<string>)
      modifies this`midiPlaylist
      ensures folder == [] ==> midiPlaylist == old(midiPlaylist)
      ensures folder != [] ==> midiPlaylist == old(midiPlaylist) + FolderEntries(folder, SortNames(MidiPaths(listing)))
    {
      if folder == [] {
        return;
      }
      var names := SortNames(MidiPaths(listing));
      var i := 0;
      while i < |names|
        invariant 0 <= i <= |names|
        invariant midiPlaylist == old(midiPlaylist) + FolderEntries(folder, names[..i])
      {
        FolderEntriesStep(old(midiPlaylist), folder, names, i);
        midiPlaylist := midiPlaylist + [JoinPath(folder, names[i])];
        i := i + 1;
      }
      assert names[..i] == names;
    }

    // -------------------------------------------------------------------------
    // Tempo

    /** A positive tempo in BPM replaces the current one; anything else is rejected. */
    method ChangeTempo(newTempo: int)
      modifies this`tempo, this`tempoMicrosPerBeat
      ensures newTempo <= 0 ==> tempo == old(tempo) && tempoMicrosPerBeat == old(tempoMicrosPerBeat)
      ensures newTempo > 0 ==> tempo == newTempo && tempoMicrosPerBeat == MicrosPerBeat(newTempo)
    {
      if newTempo <= 0 {
        return;
      }
      tempo := newTempo;
      tempoMicrosPerBeat := MicrosPerBeat(newTempo);
    }

    /** Moves the tempo slider; when its position changes, its change handler sets the tempo from it. */
    method SetSliderValue(v: int)
      requires Valid()
      modifies this`sliderValue, this`tempo, this`tempoMicrosPerBeat
      ensures Valid()
      ensures Clamp(v) == old(sliderValue) ==> sliderValue == old(sliderValue) && tempo == old(tempo) && tempoMicrosPerBeat == old(tempoMicrosPerBeat)
      ensures Clamp(v) != old(sliderValue) ==> sliderValue == Clamp(v) && tempo == Clamp(v) && tempoMicrosPerBeat == MicrosPerBeat(Clamp(v))
    {
      var c := Clamp(v);
      if c != sliderValue {
        sliderValue := c;
        ChangeTempo(c);
      }
    }

    /**
     * Resets the tempo from the first file of the playlist: to its first
     * tempo event, or to 120 BPM when it has none. Nothing changes when the
     * playlist is empty or the file cannot be read. A tempo event of 0 sets
     * the microseconds per beat and then fails on the division, leaving the
     * BPM and the slider as they were.
     */
    method ResetTempo(library: map<string, MidiFileData>)
      requires Valid()
      modifies this`tempo, this`tempoMicrosPerBeat, this`sliderValue
      ensures Valid()
      ensures |midiPlaylist| == 0 || midiPlaylist[0] !in library ==>
        tempo == old(tempo) && tempoMicrosPerBeat == old(tempoMicrosPerBeat) && sliderValue == old(sliderValue)
      ensures |midiPlaylist| > 0 && midiPlaylist[0] in library ==>
        var settings := TempoSettings(tempo, tempoMicrosPerBeat, sliderValue);
        match FirstTempo(library[midiPlaylist[0]].tracks)
        case None => settings == AfterReset(DefaultBpm, DefaultMicrosPerBeat as real, old(sliderValue))
        case Some(t) =>
          if t == 0 then settings == TempoSettings(old(tempo), 0.0, old(sliderValue))
          else settings == AfterReset(BpmOf(t), t as real, old(sliderValue))
    {
      if |midiPlaylist| == 0 || midiPlaylist[0] !in library {
        return;
      }
      var first := library[midiPlaylist[0]];
      match FirstTempo(first.tracks)
      case Some(t) =>
        tempoMicrosPerBeat := t as real;
        if t == 0 {
          return;
        }
        tempo := BpmOf(t);
        SetSliderValue(tempo);
      case None =>
        tempo := DefaultBpm;
        tempoMicrosPerBeat := DefaultMicrosPerBeat as real;
        SetSliderValue(tempo);
    }
  }
}
