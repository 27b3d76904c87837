/**
 * The address codec of the bridge: a channel-voice MIDI message becomes an
 * OSC address `/ch<N><command>` with one integer argument (N is the channel
 * counted from 1), and an OSC address is recognised by the prefix pattern
 * `/ch(\d+)(note|noff|cc(\d+)|pressure|pitch)` and turned back into a MIDI
 * message.
 */
module Codec {
  import opened Wrappers
  import opened Decimal
  import opened Midi

  datatype Command = Note | Noff | Cc(control: nat) | Pressure | Pitch

  /** A recognised address: the channel number as written (from 1) and the command. */
  datatype Route = Route(channel: nat, command: Command)

  /** What the encoder emits: the address, its single argument, and the record label. */
  datatype Emission = Emission(address: string, arg: int, kind: Kind)

  datatype DecodeError = InvalidAddress | MissingArgument | OutOfRange

  /** A message as the OSC client sends it. */
  datatype OscMessage = OscMessage(address: string, args: seq<int>)

  predicate HasPrefix(p: string, s: string) {
    |p| <= |s| && s[..|p|] == p
  }

  function CommandText(c: Command): string {
    match c
    case Note => "note"
    case Noff => "noff"
    case Cc(n) => "cc" + Show(n)
    case Pressure => "pressure"
    case Pitch => "pitch"
  }

  function FormatAddress(r: Route): string {
    "/ch" + Show(r.channel) + CommandText(r.command)
  }

  // ---------------------------------------------------------------------------
  // MIDI -> OSC

  /**
   * The branch table of the live MIDI listener and of the file player: which
   * address and argument a MIDI message is sent as, if any.
   */
  function Encode(m: MidiMsg): (r: Option<Emission>)
    ensures r.Some? <==> IsChannelVoice(m)
  {
    match m
    case NoteOn(c, n, v) =>
      if v > 0 then Some(Emission(FormatAddress(Route(c + 1, Note)), n, NoteOnKind))
      else Some(Emission(FormatAddress(Route(c + 1, Noff)), n, NoteOffKind))
    case NoteOff(c, n, _) => Some(Emission(FormatAddress(Route(c + 1, Noff)), n, NoteOffKind))
    case ControlChange(c, ctl, v) => Some(Emission(FormatAddress(Route(c + 1, Cc(ctl))), v, ControlChangeKind))
    case Aftertouch(c, v) => Some(Emission(FormatAddress(Route(c + 1, Pressure)), v, AftertouchKind))
    case Pitchwheel(c, p) => Some(Emission(FormatAddress(Route(c + 1, Pitch)), p, PitchwheelKind))
    case SetTempo(_) => None
    case Other(_) => None
  }

  /** What the OSC client sends for one MIDI message: one message with one argument, or nothing. */
  function Emit(m: MidiMsg): (r: seq<OscMessage>)
    ensures |r| == if IsChannelVoice(m) then 1 else 0
  {
    match Encode(m)
    case None => []
    case Some(e) => [OscMessage(e.address, [e.arg])]
  }

  /** The OSC messages a stream of MIDI messages is sent as, in order; other message types send nothing. */
  function Translate(ms: seq<MidiMsg>): (r: seq<OscMessage>)
    ensures |r| <= |ms|
    ensures forall k :: 0 <= k < |r| ==> |r[k].args| == 1
  {
    if ms == [] then []
    else Translate(ms[..|ms| - 1]) + Emit(ms[|ms| - 1])
  }

  // ---------------------------------------------------------------------------
  // OSC -> MIDI

  /** The command alternatives of the pattern, tried in order, anchored at the front of `t`. */
  function MatchCommand(t: string): Option<Command> {
    if HasPrefix("note", t) then Some(Note)
    else if HasPrefix("noff", t) then Some(Noff)
    else if HasPrefix("cc", t) && DigitRun(t[2..]) > 0 then Some(Cc(Value(t[2..][..DigitRun(t[2..])])))
    else if HasPrefix("pressure", t) then Some(Pressure)
    else if HasPrefix("pitch", t) then Some(Pitch)
    else None
  }

  /**
   * The prefix match of the address pattern. Both digit groups are greedy, and
   * every alternative after a digit group starts with a letter, so taking the
   * longest digit run is exactly what the backtracking matcher settles on.
   * Characters after a match are ignored.
   */
  function MatchAddress(a: string): Option<Route> {
    if !HasPrefix("/ch", a) then None
    else
      var rest := a[3..];
      var n := DigitRun(rest);
      if n == 0 then None
      else
        match MatchCommand(rest[n..])
        case None => None
        case Some(cmd) => Some(Route(Value(rest[..n]), cmd))
  }

  /**
   * The message a recognised address and its arguments are turned into. The
   * first argument is read before the message is built, so a missing one is
   * reported before any range problem; the ranges are those the MIDI library
   * enforces when it builds the message.
   */
  function ToMidi(r: Route, args: seq<int>): (res: Result<MidiMsg, DecodeError>)
    ensures res.Ok? ==> |args| > 0 && IsChannelVoice(res.value) && res.value.channel == r.channel - 1
  {
    var channel := r.channel - 1;
    if |args| == 0 then Err(MissingArgument)
    else if !InChannelRange(channel) then Err(OutOfRange)
    else
      match r.command
      case Note =>
        if InDataRange(args[0]) then Ok(NoteOn(channel, args[0], 100)) else Err(OutOfRange)
      case Noff =>
        if InDataRange(args[0]) then Ok(NoteOff(channel, args[0], 0)) else Err(OutOfRange)
      case Cc(ctl) =>
        if InDataRange(ctl) && InDataRange(args[0]) then Ok(ControlChange(channel, ctl, args[0]))
        else Err(OutOfRange)
      case Pressure =>
        if InDataRange(args[0]) then Ok(Aftertouch(channel, args[0])) else Err(OutOfRange)
      case Pitch =>
        if InBendRange(args[0]) then Ok(Pitchwheel(channel, args[0])) else Err(OutOfRange)
  }

  /** The OSC -> MIDI translation of one incoming message; an error means it is logged and dropped. */
  function Decode(address: string, args: seq<int>): (res: Result<MidiMsg, DecodeError>)
    ensures MatchAddress(address).None? ==> res == Err(InvalidAddress)
    ensures res.Ok? ==> MatchAddress(address).Some? && |args| > 0
    ensures res.Ok? ==> IsChannelVoice(res.value) && res.value.channel == MatchAddress(address).value.channel - 1
  {
    match MatchAddress(address)
    case None => Err(InvalidAddress)
    case Some(r) => ToMidi(r, args)
  }

  /**
   * What an encoded message comes back as: a note-on keeps only its note and
   * gets velocity 100, a note-off (or a note-on of velocity 0) gets velocity 0.
   */
  function Canonical(m: MidiMsg): MidiMsg {
    match m
    case NoteOn(c, n, v) => if v > 0 then NoteOn(c, n, 100) else NoteOff(c, n, 0)
    case NoteOff(c, n, _) => NoteOff(c, n, 0)
    case _ => m
  }

  // ---------------------------------------------------------------------------
  // Properties

  /** The command alternatives recognise every command text, whatever follows it (except more digits after `ccN`). */
  lemma MatchCommandText(c: Command, suffix: string)
    requires c.Cc? ==> NoLeadingDigit(suffix)
    ensures MatchCommand(CommandText(c) + suffix) == Some(c)
  {
    var t := CommandText(c) + suffix;
    match c
    case Note =>
      assert t[..4] == "note";
    case Noff =>
      assert t[..4] == "noff";
      assert !HasPrefix("note", t) by { assert t[2] == 'f'; }
    case Cc(n) =>
      MatchCcText(n, suffix);
    case Pressure =>
      assert t[..8] == "pressure";
      assert !HasPrefix("note", t) && !HasPrefix("noff", t) && !HasPrefix("cc", t) by { assert t[0] == 'p'; }
    case Pitch =>
      assert t[..5] == "pitch";
      assert !HasPrefix("note", t) && !HasPrefix("noff", t) && !HasPrefix("cc", t) by { assert t[0] == 'p'; }
      assert !HasPrefix("pressure", t) by { assert t[1] == 'i'; }
  }

  lemma MatchCcText(n: nat, suffix: string)
    requires NoLeadingDigit(suffix)
    ensures MatchCommand(CommandText(Cc(n)) + suffix) == Some(Cc(n))
  {
    var u := Show(n) + suffix;
    var t := CommandText(Cc(n)) + suffix;
    assert t == "cc" + u;
    MatchCommandCc(u);
    DigitRunOfShow(n, suffix);
    ShowIsNumeral(n);
    assert u[..|Show(n)|] == Show(n);
  }

  /** After `cc`, the command alternatives look for the controller digits and nothing else. */
  lemma MatchCommandCc(u: string)
    ensures MatchCommand("cc" + u) ==
      if DigitRun(u) > 0 then Some(Cc(Value(u[..DigitRun(u)]))) else None
  {
    var t := "cc" + u;
    assert t[..2] == "cc" && t[2..] == u;
    assert !HasPrefix("note", t) && !HasPrefix("noff", t) && !HasPrefix("pressure", t) && !HasPrefix("pitch", t) by {
      assert t[0] == 'c';
    }
  }

  /** A formatted address is recognised as the route it was formatted from; trailing text is ignored. */
  lemma MatchFormatted(r: Route, suffix: string)
    requires r.command.Cc? ==> NoLeadingDigit(suffix)
    ensures MatchAddress(FormatAddress(r) + suffix) == Some(r)
  {
    var tail := CommandText(r.command) + suffix;
    assert FormatAddress(r) + suffix == "/ch" + Show(r.channel) + tail;
    assert tail[0] == CommandText(r.command)[0];
    MatchChannel(r.channel, tail);
    MatchCommandText(r.command, suffix);
  }

  /** After `/ch` and a shown channel number, the match goes on with the command alternatives. */
  lemma MatchChannel(n: nat, tail: string)
    requires NoLeadingDigit(tail)
    ensures MatchAddress("/ch" + Show(n) + tail) ==
      if MatchCommand(tail).Some? then Some(Route(n, MatchCommand(tail).value)) else None
  {
    var a := "/ch" + Show(n) + tail;
    assert a == "/ch" + (Show(n) + tail);
    assert a[..3] == "/ch";
    var rest := a[3..];
    assert rest == Show(n) + tail;
    DigitRunOfShow(n, tail);
    ShowIsNumeral(n);
    assert rest[..|Show(n)|] == Show(n);
    assert rest[|Show(n)|..] == tail;
  }

  /** Two routes with the same address are the same route. */
  lemma FormatAddressInjective(r1: Route, r2: Route)
    requires FormatAddress(r1) == FormatAddress(r2)
    ensures r1 == r2
  {
    MatchFormatted(r1, "");
    MatchFormatted(r2, "");
    assert FormatAddress(r1) + "" == FormatAddress(r1);
    assert FormatAddress(r2) + "" == FormatAddress(r2);
  }

  /**
   * Round trip MIDI -> OSC -> MIDI: decoding what the encoder emits recovers
   * the channel (1-based in the address, 0-based in the message), the command
   * and the data, with note velocities normalised. Extra arguments and
   * trailing address characters make no difference.
   */
  lemma EncodeThenDecode(m: MidiMsg, suffix: string, extra: seq<int>)
    requires IsChannelVoice(m)
    requires m.ControlChange? ==> NoLeadingDigit(suffix)
    ensures Decode(Encode(m).value.address + suffix, [Encode(m).value.arg] + extra) == Ok(Canonical(m))
  {
    var e := Encode(m).value;
    var r := RouteOf(m);
    assert e.address == FormatAddress(r);
    MatchFormatted(r, suffix);
    var args := [e.arg] + extra;
    assert args[0] == e.arg;
    ToMidiOfRoute(m, args);
  }

  lemma ToMidiOfRoute(m: MidiMsg, args: seq<int>)
    requires IsChannelVoice(m)
    requires |args| > 0 && args[0] == Encode(m).value.arg
    ensures ToMidi(RouteOf(m), args) == Ok(Canonical(m))
  {
    match m
    case NoteOn(c, n, v) =>
    case NoteOff(c, n, v) =>
    case ControlChange(c, ctl, v) =>
    case Aftertouch(c, v) =>
    case Pitchwheel(c, p) =>
  }

  /** The route the encoder formats a channel-voice message to. */
  function RouteOf(m: MidiMsg): Route
    requires IsChannelVoice(m)
  {
    match m
    case NoteOn(c, _, v) => Route(c + 1, if v > 0 then Note else Noff)
    case NoteOff(c, _, _) => Route(c + 1, Noff)
    case ControlChange(c, ctl, _) => Route(c + 1, Cc(ctl))
    case Aftertouch(c, _) => Route(c + 1, Pressure)
    case Pitchwheel(c, _) => Route(c + 1, Pitch)
  }

  /**
   * Round trip OSC -> MIDI -> OSC: whatever the decoder accepts is a message
   * the encoder sends back with the same first argument, to an address that
   * names the same route, and that message is already canonical.
   */
  lemma DecodeThenEncode(address: string, args: seq<int>)
    requires Decode(address, args).Ok?
    ensures var m := Decode(address, args).value;
      && IsChannelVoice(m)
      && Canonical(m) == m
      && Encode(m).value.arg == args[0]
      && MatchAddress(Encode(m).value.address) == MatchAddress(address)
  {
    var r := MatchAddress(address).value;
    var m := Decode(address, args).value;
    assert m == ToMidi(r, args).value;
    var e := Encode(m).value;
    assert e.address == FormatAddress(r) + "" by {
      assert FormatAddress(r) + "" == FormatAddress(r);
    }
    MatchFormatted(r, "");
  }

  /** A `cc` with no controller digits is not an address of the bridge, whatever follows. */
  lemma DecodeRejectsBareCc(n: nat, suffix: string, args: seq<int>)
    requires NoLeadingDigit(suffix)
    ensures Decode("/ch" + Show(n) + "cc" + suffix, args) == Err(InvalidAddress)
  {
    assert "/ch" + Show(n) + "cc" + suffix == "/ch" + Show(n) + ("cc" + suffix);
    MatchChannel(n, "cc" + suffix);
    BareCcIsNoCommand(suffix);
  }

  lemma BareCcIsNoCommand(suffix: string)
    requires NoLeadingDigit(suffix)
    ensures MatchCommand("cc" + suffix) == None
  {
    MatchCommandCc(suffix);
  }

  /** Channel numbers outside 1..16 in a recognised address are rejected, never wrapped. */
  lemma DecodeRejectsChannel(address: string, args: seq<int>)
    requires MatchAddress(address).Some?
    requires var n := MatchAddress(address).value.channel; n == 0 || n > 16
    ensures Decode(address, args).Err?
  {
  }
}
