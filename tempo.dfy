/**
 * Tempo bookkeeping of the file player: the beats-per-minute setting, the
 * microseconds per beat derived from it, and the scan of a file's tracks for
 * the first tempo meta event.
 */
module Tempo {
  import opened Wrappers
  import opened Midi
  import opened Schedule
  import opened Arith

  const DefaultBpm: int := 120
  const DefaultMicrosPerBeat: nat := 500000

  /** The tempo slider's range. */
  const MinBpm: int := 20
  const MaxBpm: int := 420

  /** Microseconds per beat for a tempo in beats per minute (a true division). */
  function MicrosPerBeat(bpm: int): real
    requires bpm > 0
  {
    60000000.0 / bpm as real
  }

  /** Beats per minute shown for a file tempo: 60 000 000 divided by it, truncated. */
  function BpmOf(tempo: nat): (bpm: int)
    requires tempo > 0
    ensures bpm * tempo <= 60000000 < (bpm + 1) * tempo
  {
    60000000 / tempo
  }

  /** A file tempo that is exactly the one a BPM setting derives comes back as that BPM. */
  lemma BpmOfExactTempo(bpm: int, tempo: nat)
    requires bpm > 0 && tempo > 0
    requires tempo * bpm == 60000000
    ensures BpmOf(tempo) == bpm
    ensures MicrosPerBeat(bpm) == tempo as real
  {
    DivModUnique(60000000, tempo, bpm, 0);
    assert (tempo as real) * (bpm as real) == 60000000.0;
  }

  lemma DefaultTempoAgrees()
    ensures MicrosPerBeat(DefaultBpm) == DefaultMicrosPerBeat as real
    ensures BpmOf(DefaultMicrosPerBeat) == DefaultBpm
    ensures MicrosPerBeat(60) == 1000000.0
  {
    BpmOfExactTempo(DefaultBpm, DefaultMicrosPerBeat);
    BpmOfExactTempo(60, 1000000);
  }

  /** Where an event sits in a file: its track and its position in that track. */
  datatype Position = Position(track: nat, pos: nat)

  predicate IsTempoAt(tracks: seq<Track>, p: Position) {
    p.track < |tracks| && p.pos < |tracks[p.track]| && tracks[p.track][p.pos].msg.SetTempo?
  }

  /** `p` comes before `q` in the scan order: track by track, then event by event. */
  predicate ScannedBefore(p: Position, q: Position) {
    p.track < q.track || (p.track == q.track && p.pos < q.pos)
  }

  /**
   * The scan of the tempo reset, from event `j` of track `i` on: the first
   * tempo meta event in track order, if there is one.
   */
  function FindTempo(tracks: seq<Track>, i: nat, j: nat): (r: Option<Position>)
    requires i <= |tracks|
    ensures r.Some? ==> IsTempoAt(tracks, r.value) && !ScannedBefore(r.value, Position(i, j))
    ensures forall p :: IsTempoAt(tracks, p) && !ScannedBefore(p, Position(i, j)) ==>
      r.Some? && (r.value == p || ScannedBefore(r.value, p))
    decreases |tracks| - i, if i < |tracks| then |tracks[i]| - j else 0
  {
    if i == |tracks| then None
    else if j >= |tracks[i]| then FindTempo(tracks, i + 1, 0)
    else if tracks[i][j].msg.SetTempo? then Some(Position(i, j))
    else FindTempo(tracks, i, j + 1)
  }

  /** The tempo a reset adopts from a file: that of its first tempo event, if any. */
  function FirstTempo(tracks: seq<Track>): Option<nat> {
    match FindTempo(tracks, 0, 0)
    case None => None
    case Some(p) => Some(tracks[p.track][p.pos].msg.tempo)
  }

  /** The first tempo event is found exactly when the file has one, and nothing before it is one. */
  lemma FirstTempoSpec(tracks: seq<Track>)
    ensures FirstTempo(tracks).None? <==> forall p :: !IsTempoAt(tracks, p)
    ensures FirstTempo(tracks).Some? ==>
      var p := FindTempo(tracks, 0, 0).value;
      && IsTempoAt(tracks, p)
      && FirstTempo(tracks).value == tracks[p.track][p.pos].msg.tempo
      && forall q :: ScannedBefore(q, p) ==> !IsTempoAt(tracks, q)
  {
    var r := FindTempo(tracks, 0, 0);
    if r.Some? {
      forall q | ScannedBefore(q, r.value) ensures !IsTempoAt(tracks, q) {
      }
    }
  }
}
