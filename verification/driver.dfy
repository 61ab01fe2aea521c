/** The driver object and the closure state of its handshake, in the form the
    driver keeps them: a class whose colour payload is an array overwritten in
    place and whose port is an append-only log of written bytes, and a class
    for the flags and handlers `connect` creates. Each method is proved
    against the value-level definitions in Payload, Frame and Handshake. */
module Driver {
  import opened Base
  import opened Hex
  import opened Colour
  import Payload
  import opened Frame
  import opened Handshake

  /** `HuePlus`: the colour payload, the `connected` flag and the port. */
  class HuePlus {
    /** `colourPayload`: 40 LEDs, three bytes each, green, red, blue. Each
        entry holds the octet its "0x.." string becomes on the wire. */
    const payload: array<Byte>
    var connected: bool
    /** Every byte written to the serial port so far, in order. */
    var sent: seq<Byte>

    /** The payload has room for all 40 LEDs. The array is never replaced,
        so every method keeps this. */
    ghost predicate Valid()
      reads this
    {
      payload.Length == Payload.PayloadLength
    }

    /** A new driver: all LEDs off, not connected, nothing written. */
    constructor ()
      ensures Valid() && fresh(payload)
      ensures payload[..] == Payload.Zeros() && !connected && sent == []
    {
      payload := new Byte[Payload.PayloadLength](_ => 0);
      connected := false;
      sent := [];
    }

    /** `send`: one write of the given bytes to the port. */
    method Send(data: seq<Byte>)
      modifies this`sent
      ensures sent == old(sent) + data
    {
      sent := sent + data;
    }

    /** `ping`: writes the probe byte 0xC0. */
    method Ping()
      modifies this`sent
      ensures sent == old(sent) + [Probe]
    {
      Send([Probe]);
    }

    /** `connect`: when the port opens, starts the ping timer, sends one
        probe and installs a fresh data handler; when it fails to open,
        rejects and writes nothing. The handler then drives the handshake
        one event at a time. */
    method Connect(openFailed: bool) returns (r: Outcome, handler: DataHandler?)
      modifies this`sent
      ensures openFailed ==> r == Failed(PortOpenFailed) && handler == null && sent == old(sent)
      ensures !openFailed ==>
        r == Done && handler != null && fresh(handler) && handler.device == this &&
        handler.State() == Opened(old(connected)).next &&
        sent == old(sent) + Opened(old(connected)).sent
    {
      if openFailed {
        return Failed(PortOpenFailed), null;
      }
      handler := new DataHandler(this);
      Ping();
      r := Done;
    }

    /** `setLEDColour(index, colour)`, writing the payload in place. */
    method SetLEDColour(index: JsNumber, colour: Colour) returns (r: Outcome)
      requires Valid()
      modifies payload
      ensures Valid()
      ensures Payload.SetLEDColour(old(payload[..]), index, colour) == Payload.Applied(payload[..], r)
    {
      if index.NaN? || index.value < 0 || index.value > 39 {
        return Failed(IndexOutOfBounds);
      }
      var i := index.value;
      var green := DecColourToHex(colour.green);
      if green.Err? {
        return Failed(green.error);
      }
      payload[3 * i] := WireByte(green.value);
      var red := DecColourToHex(colour.red);
      if red.Err? {
        return Failed(red.error);
      }
      payload[3 * i + 1] := WireByte(red.value);
      var blue := DecColourToHex(colour.blue);
      if blue.Err? {
        return Failed(blue.error);
      }
      payload[3 * i + 2] := WireByte(blue.value);
      r := Done;
    }

    /** `setAllLEDColours(colour)`: `setLEDColour(i, colour)` for i = 0..39,
        stopping at the first one that throws. */
    method SetAllLEDColours(colour: Colour) returns (r: Outcome)
      requires Valid()
      modifies payload
      ensures Valid()
      ensures Payload.SetAllLEDColours(old(payload[..]), colour) == Payload.Applied(payload[..], r)
    {
      var i := 0;
      while i < Payload.LedCount
        invariant 0 <= i <= Payload.LedCount
        invariant Payload.SetAllUpTo(old(payload[..]), colour, i) == Payload.Applied(payload[..], Done)
      {
        r := SetLEDColour(Num(i), colour);
        if r.Failed? {
          Payload.SetAllUpToStops(old(payload[..]), colour, i + 1, Payload.LedCount);
          return;
        }
        i := i + 1;
      }
      r := Done;
    }

    /** `resetAllLEDColours`: `setLEDColour(i, {0, 0, 0})` for i = 0..39. */
    method ResetAllLEDColours()
      requires Valid()
      modifies payload
      ensures Valid()
      ensures payload[..] == Payload.Zeros()
    {
      Payload.ResetAllLEDColoursZeros(payload[..]);
      ghost var start := payload[..];
      var i := 0;
      while i < Payload.LedCount
        invariant 0 <= i <= Payload.LedCount
        invariant Payload.SetAllUpTo(start, Black, i) == Payload.Applied(payload[..], Done)
      {
        var r := SetLEDColour(Num(i), Black);
        i := i + 1;
      }
    }

    /** `update(channel, mode)`: rejects without writing when not connected;
        otherwise writes the frame of the current payload in one write. The
        payload is not modified. */
    method Update(channel: Channel, mode: Mode) returns (r: Outcome)
      requires Valid()
      modifies this`sent
      ensures Valid()
      ensures !connected ==> r == Failed(NotConnected) && sent == old(sent)
      ensures connected ==> r == Done && sent == old(sent) + BuildFrame(channel, mode, payload[..])
    {
      if !connected {
        return Failed(NotConnected);
      }
      Send(BuildFrame(channel, mode, payload[..]));
      r := Done;
    }
  }

  /** The state one `connect` call creates: its ping timer (running or
      cleared), its `sentInitData` flag and its "data" handler, all acting on
      one driver. */
  class DataHandler {
    const device: HuePlus
    var sentInitData: bool
    /** The 3000 ms ping interval is still set. */
    var pinging: bool

    /** The handshake state this handler and its driver are in. */
    function State(): Link
      reads this, device
    {
      Link(sentInitData, pinging, device.connected)
    }

    /** Starts the ping interval and clears `sentInitData`. */
    constructor (device: HuePlus)
      ensures this.device == device && pinging && !sentInitData
    {
      this.device := device;
      pinging := true;
      sentInitData := false;
    }

    /** One tick of the ping interval: a probe while it has not been cleared. */
    method Tick()
      modifies device`sent
      ensures State() == Step(old(State()), Handshake.Tick).next
      ensures device.sent == old(device.sent) + Step(old(State()), Handshake.Tick).sent
    {
      if pinging {
        device.Ping();
      }
    }

    /** The "data" handler, for one inbound chunk. */
    method OnData(chunk: Chunk)
      modifies this, device`sent, device`connected
      ensures State() == Step(old(State()), Data(chunk)).next
      ensures device.sent == old(device.sent) + Step(old(State()), Data(chunk)).sent
    {
      if !sentInitData {
        pinging := false;
        device.Send(InitCommand);
        sentInitData := true;
        return;
      }
      ProbeLiteral(chunk);
      if HexBufferEquals(chunk, 0, "0xc0") {
        device.Send(AckResponse);
        return;
      }
      ReadyLiteral(chunk);
      if HexBufferEquals(chunk, |chunk| - 1, "0x56") {
        device.connected := true;
        return;
      }
    }
  }

  /** A client of the two classes: the usual handshake followed by an update
      of both channels to red, with the exact bytes the port sees. */
  method HandshakeThenUpdate(status: Chunk) returns (hue: HuePlus)
    requires status[0] != Probe && status[|status| - 1] == ReadyByte
    ensures hue.connected
    ensures hue.sent == [0xC0, 0x8D, 0x01, 0x8C, 0x00] + BuildFrame(Both, Fixed, Payload.Uniform(0, 255, 0))
  {
    hue := new HuePlus();
    var r, handler := hue.Connect(false);
    handler.OnData([1]);
    handler.OnData([0xC0]);
    assert !hue.connected;
    handler.OnData(status);
    assert hue.connected && !handler.pinging;
    assert hue.sent == [0xC0, 0x8D, 0x01, 0x8C, 0x00];
    var red := Colour(Num(255), Num(0), Num(0));
    r := hue.SetAllLEDColours(red);
    Payload.SetAllLEDColoursUniform(Payload.Zeros(), red);
    r := hue.Update(Both, Fixed);
    assert r == Done;
  }
}
