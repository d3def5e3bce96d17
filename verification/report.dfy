/**
 The HID output report the keyboard driver sends to set the backlight colour
 (rgb_driver.c, `rgb_color_store`): a 64-byte buffer obtained zero-filled, a report id and
 fixed command bytes written at fixed offsets, and the three colour channels, each converted
 to `unsigned char`, at offsets 14, 15 and 16.
 */
module RgbReport {

  newtype Byte = x: int | 0 <= x < 256

  const ReportLength: nat := 64
  const ReportId: Byte := 4

  const RedOffset: nat := 14
  const GreenOffset: nat := 15
  const BlueOffset: nat := 16

  /** The offsets and values of the bytes written with constants. */
  const FixedBytes: map<nat, Byte> :=
    map[0 := ReportId, 1 := 0x3b, 2 := 0x02, 3 := 0x06, 4 := 0x22,
        9 := 0x06, 10 := 0x04, 11 := 0x02, 17 := 0x08, 28 := 0x01]

  predicate IsChannelOffset(i: nat) {
    i == RedOffset || i == GreenOffset || i == BlueOffset
  }

  /** The three channel bytes of a report, in red, green, blue order. */
  datatype Channels = Channels(red: Byte, green: Byte, blue: Byte)

  /** C's conversion of an `int` to `unsigned char`: the value congruent to `x`
      modulo 256 that lies in 0..255 (section 6.3.1.3 of the C11 standard). */
  function ToUnsignedChar(x: int): (b: Byte)
    ensures (x - b as int) % 256 == 0
    ensures 0 <= x < 256 ==> b as int == x
  {
    (x % 256) as Byte
  }

  /** A zero-filled buffer, as `kzalloc` returns. */
  function Zeroes(n: nat): (z: seq<Byte>)
    ensures |z| == n
    ensures forall i | 0 <= i < n :: z[i] == 0
  {
    seq(n, i => 0)
  }

  /** A report of the driver's layout: 64 bytes, each fixed byte at its value, every byte
      that is neither fixed nor a channel zero. The channel bytes are unconstrained. */
  predicate IsRgbReport(rep: seq<Byte>) {
    && |rep| == ReportLength
    && (forall i | i in FixedBytes :: i < |rep| && rep[i] == FixedBytes[i])
    && (forall i: nat | i < |rep| && i !in FixedBytes && !IsChannelOffset(i) :: rep[i] == 0)
  }

  function ChannelsOf(rep: seq<Byte>): Channels
    requires |rep| == ReportLength
  {
    Channels(rep[RedOffset], rep[GreenOffset], rep[BlueOffset])
  }

  /** The buffer `rgb_color_store` fills in for the scanned channels `r`, `g`, `b`. */
  function BuildReport(r: int, g: int, b: int): (rep: seq<Byte>)
    ensures IsRgbReport(rep)
    ensures rep[0] == ReportId
    ensures ChannelsOf(rep) == Channels(ToUnsignedChar(r), ToUnsignedChar(g), ToUnsignedChar(b))
  {
    Zeroes(ReportLength)
      [0 := ReportId]
      [1 := 0x3b]
      [2 := 0x02]
      [3 := 0x06]
      [4 := 0x22]
      [9 := 0x06]
      [10 := 0x04]
      [11 := 0x02]
      [RedOffset := ToUnsignedChar(r)]
      [GreenOffset := ToUnsignedChar(g)]
      [BlueOffset := ToUnsignedChar(b)]
      [17 := 0x08]
      [28 := 0x01]
  }

  /** A report of this layout is determined by its three channel bytes: it is exactly the
      report built from them. */
  lemma ReportDeterminedByChannels(rep: seq<Byte>)
    requires IsRgbReport(rep)
    ensures var c := ChannelsOf(rep);
            rep == BuildReport(c.red as int, c.green as int, c.blue as int)
  {
    var c := ChannelsOf(rep);
    var built := BuildReport(c.red as int, c.green as int, c.blue as int);
    forall i | 0 <= i < ReportLength
      ensures rep[i] == built[i]
    {
      if i in FixedBytes {
      } else if IsChannelOffset(i) {
      } else {
      }
    }
  }

  /** Two channel triples give the same report exactly when they agree modulo 256. */
  lemma ReportDependsOnlyOnResidues(r: int, g: int, b: int, r': int, g': int, b': int)
    ensures BuildReport(r, g, b) == BuildReport(r', g', b')
        <==> r % 256 == r' % 256 && g % 256 == g' % 256 && b % 256 == b' % 256
  {
    var rep, rep' := BuildReport(r, g, b), BuildReport(r', g', b');
    if r % 256 == r' % 256 && g % 256 == g' % 256 && b % 256 == b' % 256 {
      ReportDeterminedByChannels(rep);
      ReportDeterminedByChannels(rep');
    }
  }
}
