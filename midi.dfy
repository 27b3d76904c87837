/**
 * The MIDI messages the bridge reads and writes. The subset types carry the
 * value ranges the MIDI library checks whenever it constructs a message, so a
 * `MidiMsg` value is always one that library would accept.
 */
module Midi {

  /** A zero-based MIDI channel. */
  type Channel = c: int | 0 <= c < 16

  /** A 7-bit data byte: note number, velocity, controller number, controller value, pressure. */
  type Data7 = d: int | 0 <= d < 128

  /** A signed 14-bit pitch-bend amount. */
  type Bend = b: int | -8192 <= b < 8192

  datatype MidiMsg =
    | NoteOn(channel: Channel, note: Data7, velocity: Data7)
    | NoteOff(channel: Channel, note: Data7, velocity: Data7)
    | ControlChange(channel: Channel, control: Data7, value: Data7)
    | Aftertouch(channel: Channel, value: Data7)
    | Pitchwheel(channel: Channel, pitch: Bend)
    /** The meta event that sets the tempo of a file, in microseconds per beat. */
    | SetTempo(tempo: nat)
    /** Any other message or meta event (program change, polytouch, sysex, end of track, ...). */
    | Other(kind: string)

  /** The five channel-voice message types the bridge translates. */
  predicate IsChannelVoice(m: MidiMsg) {
    m.NoteOn? || m.NoteOff? || m.ControlChange? || m.Aftertouch? || m.Pitchwheel?
  }

  /** The message-type label stored with each record of sent messages. */
  datatype Kind = NoteOnKind | NoteOffKind | ControlChangeKind | AftertouchKind | PitchwheelKind

  predicate InChannelRange(c: int) {
    0 <= c < 16
  }

  predicate InDataRange(d: int) {
    0 <= d < 128
  }

  predicate InBendRange(b: int) {
    -8192 <= b < 8192
  }
}
