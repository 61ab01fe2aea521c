/** The LED update command `update` writes: a five-byte header followed by
    the 120-byte payload. */
module Frame {
  import opened Base
  import opened Colour
  import opened Payload

  /** `HuePlusChannel`: which LED strips a frame addresses. */
  datatype Channel = Both | One | Two

  /** `HuePlusMode`: the rendering effect the device applies. */
  datatype Mode = Fixed | Breathing

  function ChannelCode(c: Channel): (code: Byte) {
    match c
    case Both => 0x00
    case One => 0x01
    case Two => 0x02
  }

  function ModeCode(m: Mode): (code: Byte) {
    match m
    case Fixed => 0x00
    case Breathing => 0x07
  }

  const LedPayloadHeader: Byte := 0x4B
  const HeaderLength := 5
  const FrameLength := HeaderLength + PayloadLength

  /** The bytes `update(channel, mode)` sends in one write. */
  function BuildFrame(channel: Channel, mode: Mode, payload: seq<Byte>): (f: seq<Byte>)
    ensures |f| == HeaderLength + |payload| && f[HeaderLength..] == payload
  {
    [LedPayloadHeader, ChannelCode(channel), ModeCode(mode), 0x01, 0x02] + payload
  }

  /** A frame is 125 bytes: 0x4B, channel, mode, 0x01, 0x02, then the
      payload verbatim, whatever the payload holds. */
  lemma FrameLayout(channel: Channel, mode: Mode, payload: seq<Byte>)
    requires |payload| == PayloadLength
    ensures var f := BuildFrame(channel, mode, payload);
      |f| == FrameLength &&
      f[0] == 0x4B && f[1] == ChannelCode(channel) && f[2] == ModeCode(mode) &&
      f[3] == 0x01 && f[4] == 0x02 &&
      forall k :: 0 <= k < PayloadLength ==> f[HeaderLength + k] == payload[k]
  {
  }

  function ChannelOf(b: Byte): (r: Option<Channel>)
    ensures r.Some? <==> b <= 0x02
    ensures r.Some? ==> ChannelCode(r.value) == b
  {
    if b == 0x00 then Some(Both) else if b == 0x01 then Some(One)
    else if b == 0x02 then Some(Two) else None
  }

  function ModeOf(b: Byte): (r: Option<Mode>)
    ensures r.Some? <==> (b == 0x00 || b == 0x07)
    ensures r.Some? ==> ModeCode(r.value) == b
  {
    if b == 0x00 then Some(Fixed) else if b == 0x07 then Some(Breathing) else None
  }

  datatype FrameFields = FrameFields(channel: Channel, mode: Mode, payload: seq<Byte>)

  /** How the device reads an LED update command; the inverse of Frame. */
  function ParseFrame(f: seq<Byte>): (r: Option<FrameFields>)
  {
    if |f| == FrameLength && f[0] == LedPayloadHeader && f[3] == 0x01 && f[4] == 0x02
      && ChannelOf(f[1]).Some? && ModeOf(f[2]).Some?
    then Some(FrameFields(ChannelOf(f[1]).value, ModeOf(f[2]).value, f[HeaderLength..]))
    else None
  }

  /** The device recovers channel, mode and payload from every frame. */
  lemma ParseFrameOfFrame(channel: Channel, mode: Mode, payload: seq<Byte>)
    requires |payload| == PayloadLength
    ensures ParseFrame(BuildFrame(channel, mode, payload)) == Some(FrameFields(channel, mode, payload))
  {
  }

  /** Every well-formed command is the frame of what it parses to. */
  lemma FrameOfParseFrame(f: seq<Byte>)
    requires ParseFrame(f).Some?
    ensures var x := ParseFrame(f).value;
      |x.payload| == PayloadLength && BuildFrame(x.channel, x.mode, x.payload) == f
  {
  }

  /** Setting every LED to red and sending to both channels in fixed mode
      puts channel 0x00, mode 0x00 and forty copies of [0x00, 0xFF, 0x00]
      (green 0, red 255, blue 0) on the wire. */
  lemma RedOnBothChannels()
    ensures var a := SetAllLEDColours(Zeros(), Colour(Num(255), Num(0), Num(0)));
      var f := BuildFrame(Both, Fixed, a.payload);
      a.outcome == Done && |f| == FrameLength && f[1] == 0x00 && f[2] == 0x00 &&
      forall k :: 0 <= k < PayloadLength ==> f[HeaderLength + k] == if k % 3 == 1 then 0xFF else 0x00
  {
    var red := Colour(Num(255), Num(0), Num(0));
    SetAllLEDColoursUniform(Zeros(), red);
  }
}
