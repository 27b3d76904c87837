/**
 * The route table the OSC server is started with: the exact addresses the
 * dispatcher maps to the OSC -> MIDI handler, depending on whether the bridge
 * serves one selected channel or all sixteen.
 */
module Routes {
  import opened Decimal
  import opened Codec

  /** Single channel mode carries the channel picked in the menu (1..16). */
  datatype ChannelMode = Single(channel: nat) | All16

  predicate ValidMode(mode: ChannelMode) {
    mode.Single? ==> 1 <= mode.channel <= 16
  }

  /** Addresses mapped per channel: `note`, `noff` and `cc0` .. `cc127`. */
  const PerChannel: nat := 130

  /** The `i`-th address the start-up loop maps for channel `ch`, in mapping order. */
  function RouteAt(ch: nat, i: nat): Route
    requires i < PerChannel
  {
    if i == 0 then Route(ch, Note)
    else if i == 1 then Route(ch, Noff)
    else Route(ch, Cc(i - 2))
  }

  /** The addresses in the order the start-up loops map them. */
  function Registered(mode: ChannelMode): seq<string> {
    match mode
    case Single(ch) =>
      seq(PerChannel, i requires 0 <= i < PerChannel => FormatAddress(RouteAt(ch, i)))
    case All16 =>
      seq(16 * PerChannel, k requires 0 <= k < 16 * PerChannel => FormatAddress(RouteAt(k / PerChannel + 1, k % PerChannel)))
  }

  function RouteTable(mode: ChannelMode): set<string> {
    set a | a in Registered(mode)
  }

  /** The routes a mode serves: its channels, and only `note`, `noff` and controllers 0..127. */
  predicate Served(mode: ChannelMode, r: Route) {
    && (match mode
        case Single(ch) => r.channel == ch
        case All16 => 1 <= r.channel <= 16)
    && (r.command.Note? || r.command.Noff? || (r.command.Cc? && r.command.control < 128))
  }

  lemma RouteAtServed(mode: ChannelMode, k: nat)
    requires k < |Registered(mode)|
    ensures mode.Single? ==> Served(mode, RouteAt(mode.channel, k))
    ensures mode.All16? ==> Served(mode, RouteAt(k / PerChannel + 1, k % PerChannel))
  {
  }

  /** The mapping position of a served route. */
  function IndexOf(mode: ChannelMode, r: Route): (k: nat)
    requires Served(mode, r)
    ensures k < |Registered(mode)|
    ensures Registered(mode)[k] == FormatAddress(r)
  {
    var i := match r.command
      case Note => 0
      case Noff => 1
      case Cc(c) => c + 2;
    assert RouteAt(r.channel, i) == r;
    match mode
    case Single(_) => i
    case All16 =>
      var k := (r.channel - 1) * PerChannel + i;
      assert k / PerChannel + 1 == r.channel && k % PerChannel == i;
      k
  }

  /**
   * An address is in the route table exactly when the codec recognises it as
   * a route the mode serves, written in that route's own canonical form (no
   * leading zeros, nothing trailing).
   */
  lemma RouteTableMembership(mode: ChannelMode, a: string)
    ensures a in RouteTable(mode) <==>
      && MatchAddress(a).Some?
      && Served(mode, MatchAddress(a).value)
      && a == FormatAddress(MatchAddress(a).value)
  {
    if a in RouteTable(mode) {
      RegisteredRecognised(mode, a);
    }
    if MatchAddress(a).Some? && Served(mode, MatchAddress(a).value) && a == FormatAddress(MatchAddress(a).value) {
      var k := IndexOf(mode, MatchAddress(a).value);
      assert Registered(mode)[k] == a;
    }
  }

  lemma RegisteredRecognised(mode: ChannelMode, a: string)
    requires a in RouteTable(mode)
    ensures MatchAddress(a).Some? && Served(mode, MatchAddress(a).value)
    ensures a == FormatAddress(MatchAddress(a).value)
  {
    var k :| 0 <= k < |Registered(mode)| && Registered(mode)[k] == a;
    RouteAtServed(mode, k);
    var r;
    match mode {
      case Single(ch) =>
        r := RouteAt(ch, k);
      case All16 =>
        r := RouteAt(k / PerChannel + 1, k % PerChannel);
    }
    assert a == FormatAddress(r) + "";
    MatchFormatted(r, "");
  }

  /** Pressure and pitch-bend addresses are never mapped, in either mode. */
  lemma PressureAndPitchNotRouted(mode: ChannelMode, ch: nat)
    ensures FormatAddress(Route(ch, Pressure)) !in RouteTable(mode)
    ensures FormatAddress(Route(ch, Pitch)) !in RouteTable(mode)
  {
    MatchFormatted(Route(ch, Pressure), "");
    MatchFormatted(Route(ch, Pitch), "");
    assert FormatAddress(Route(ch, Pressure)) + "" == FormatAddress(Route(ch, Pressure));
    assert FormatAddress(Route(ch, Pitch)) + "" == FormatAddress(Route(ch, Pitch));
    RouteTableMembership(mode, FormatAddress(Route(ch, Pressure)));
    RouteTableMembership(mode, FormatAddress(Route(ch, Pitch)));
  }

  /** Every mapped address, under a valid mode, names a MIDI channel 0..15 and a note or controller command. */
  lemma RoutedAddressesDecode(mode: ChannelMode, a: string)
    requires ValidMode(mode)
    requires a in RouteTable(mode)
    ensures MatchAddress(a).Some?
    ensures 0 <= MatchAddress(a).value.channel - 1 < 16
    ensures MatchAddress(a).value.command.Note? || MatchAddress(a).value.command.Noff? || MatchAddress(a).value.command.Cc?
  {
    RouteTableMembership(mode, a);
  }

  /** No address is mapped twice. */
  lemma RegisteredDistinct(mode: ChannelMode, i: nat, j: nat)
    requires i < j < |Registered(mode)|
    ensures Registered(mode)[i] != Registered(mode)[j]
  {
    match mode
    case Single(ch) =>
      if FormatAddress(RouteAt(ch, i)) == FormatAddress(RouteAt(ch, j)) {
        FormatAddressInjective(RouteAt(ch, i), RouteAt(ch, j));
        RouteAtInjective(ch, i, ch, j);
      }
    case All16 =>
      var ri := RouteAt(i / PerChannel + 1, i % PerChannel);
      var rj := RouteAt(j / PerChannel + 1, j % PerChannel);
      assert Registered(mode)[i] == FormatAddress(ri);
      assert Registered(mode)[j] == FormatAddress(rj);
      if FormatAddress(ri) == FormatAddress(rj) {
        FormatAddressInjective(ri, rj);
        RouteAtInjective(i / PerChannel + 1, i % PerChannel, j / PerChannel + 1, j % PerChannel);
        DivModDetermine(i, j);
      }
  }

  lemma RouteAtInjective(c1: nat, i1: nat, c2: nat, i2: nat)
    requires i1 < PerChannel && i2 < PerChannel
    requires RouteAt(c1, i1) == RouteAt(c2, i2)
    ensures c1 == c2 && i1 == i2
  {
  }

  lemma DivModDetermine(i: nat, j: nat)
    requires i / PerChannel == j / PerChannel && i % PerChannel == j % PerChannel
    ensures i == j
  {
    assert i == (i / PerChannel) * PerChannel + i % PerChannel;
    assert j == (j / PerChannel) * PerChannel + j % PerChannel;
  }

  /** Single channel mode maps 130 addresses; sixteen channel mode maps 2080. */
  lemma RouteTableSize(mode: ChannelMode)
    ensures |RouteTable(mode)| == if mode.Single? then PerChannel else 16 * PerChannel
  {
    var s := Registered(mode);
    forall i, j | 0 <= i < j < |s| ensures s[i] != s[j] {
      RegisteredDistinct(mode, i, j);
    }
    DistinctCard(s);
  }

  lemma {:induction false} DistinctCard<T>(s: seq<T>)
    requires forall i, j :: 0 <= i < j < |s| ==> s[i] != s[j]
    ensures |set x | x in s| == |s|
  {
    if s != [] {
      var t := s[1..];
      DistinctCard(t);
      assert (set x | x in s) == {s[0]} + (set x | x in t);
      assert s[0] !in (set x | x in t);
    }
  }
}
