/** The connection handshake of `connect`, as a state machine over the events
    the driver reacts to: a tick of the 3000 ms ping timer and an inbound data
    chunk. Its state is the handler's closure flags `sentInitData` and "ping
    timer running" together with the device's `connected` flag; every
    transition also yields the bytes it writes to the port. */
module Handshake {
  import opened Base
  import opened Hex

  /** A chunk delivered by the port's "data" event; the port never delivers
      an empty one. */
  type Chunk = c: seq<Byte> | |c| > 0 witness [0]

  datatype Event = Tick | Data(chunk: Chunk)

  datatype Link = Link(sentInitData: bool, pinging: bool, connected: bool)

  /** A new state and the bytes written on the way to it, in order. */
  datatype Transition = Transition(next: Link, sent: seq<Byte>)

  const Probe: Byte := 0xC0
  const InitCommand: seq<Byte> := [0x8D, 0x01]
  const AckResponse: seq<Byte> := [0x8C, 0x00]
  const ReadyByte: Byte := 0x56

  /** What `connect` does once the port is open: start the ping timer, send
      one probe, and clear `sentInitData`. `connected` keeps its value. */
  function Opened(connected: bool): (t: Transition)
    ensures t.next.pinging && !t.next.sentInitData && t.sent == [Probe]
    ensures t.next.connected == connected
  {
    Transition(Link(false, true, connected), [Probe])
  }

  /** The chunk test that marks the device ready. */
  predicate IsReadyChunk(chunk: Chunk) {
    chunk[0] != Probe && chunk[|chunk| - 1] == ReadyByte
  }

  lemma ProbeLiteral(chunk: Chunk)
    ensures HexBufferEquals(chunk, 0, "0xc0") <==> chunk[0] == Probe
  {
    assert ToHex(0xC0) == "c0";
    HexBufferEqualsByte(chunk, 0, 0xC0);
  }

  lemma ReadyLiteral(chunk: Chunk)
    ensures HexBufferEquals(chunk, |chunk| - 1, "0x56") <==> chunk[|chunk| - 1] == ReadyByte
  {
    assert ToHex(0x56) == "56";
    HexBufferEqualsByte(chunk, |chunk| - 1, 0x56);
  }

  /** One event. A tick re-sends the probe while the timer runs. The first
      chunk, whatever it holds, stops the timer, sends the init command and
      sets `sentInitData`. A later chunk starting with 0xC0 is answered with
      0x8C 0x00; otherwise a later chunk ending with 0x56 sets `connected`;
      any other chunk is ignored. The two chunk tests are `hexBufferEquals`,
      which ProbeLiteral and ReadyLiteral show to be byte comparisons. */
  function Step(s: Link, e: Event): (t: Transition)
    ensures e.Tick? ==> t.next == s
    ensures t.next.sentInitData <==> s.sentInitData || e.Data?
    ensures t.next.pinging ==> s.pinging
    ensures t.next.connected <==> s.connected || (e.Data? && s.sentInitData && IsReadyChunk(e.chunk))
    ensures e.Tick? ==> t.sent == if s.pinging then [Probe] else []
    ensures e.Data? && !s.sentInitData ==> !t.next.pinging && t.sent == InitCommand
    ensures e.Data? && s.sentInitData ==>
      t.next.pinging == s.pinging && t.sent == if e.chunk[0] == Probe then AckResponse else []
  {
    match e
    case Tick =>
      if s.pinging then Transition(s, [Probe]) else Transition(s, [])
    case Data(chunk) =>
      if !s.sentInitData then Transition(Link(true, false, s.connected), InitCommand)
      else if chunk[0] == Probe then Transition(s, AckResponse)
      else if chunk[|chunk| - 1] == ReadyByte then Transition(s.(connected := true), [])
      else Transition(s, [])
  }

  /** A sequence of events delivered one after another. */
  function Run(s: Link, events: seq<Event>): (t: Transition)
    decreases |events|
  {
    if |events| == 0 then Transition(s, [])
    else
      var first := Step(s, events[0]);
      var rest := Run(first.next, events[1..]);
      Transition(rest.next, first.sent + rest.sent)
  }

  /** `connect` after a successful open, followed by the given events. */
  function Connect(connected: bool, events: seq<Event>): (t: Transition)
    ensures |t.sent| > 0 && t.sent[0] == Probe
    ensures connected ==> t.next.connected
  {
    var start := Opened(connected);
    ConnectedStays(start.next, events);
    var rest := Run(start.next, events);
    Transition(rest.next, start.sent + rest.sent)
  }

  /** n probes. */
  function Pings(n: nat): (s: seq<Byte>)
  {
    if n == 0 then [] else [Probe] + Pings(n - 1)
  }

  /** n answers 0x8C 0x00. */
  function Acks(n: nat): (s: seq<Byte>)
  {
    if n == 0 then [] else AckResponse + Acks(n - 1)
  }

  /** The number of chunks that start with 0xC0. */
  function CountAcks(events: seq<Event>): (n: nat)
    decreases |events|
  {
    if |events| == 0 then 0
    else (if events[0].Data? && events[0].chunk[0] == Probe then 1 else 0) + CountAcks(events[1..])
  }

  /** Some chunk in the sequence marks the device ready. */
  predicate AnyReady(events: seq<Event>) {
    exists j :: 0 <= j < |events| && events[j].Data? && IsReadyChunk(events[j].chunk)
  }

  /** n timer ticks in a row. */
  function Ticks(n: nat): (events: seq<Event>)
  {
    if n == 0 then [] else [Tick] + Ticks(n - 1)
  }

  lemma AnyReadyCons(events: seq<Event>)
    requires |events| > 0
    ensures AnyReady(events)
      <==> (events[0].Data? && IsReadyChunk(events[0].chunk)) || AnyReady(events[1..])
  {
    if AnyReady(events[1..]) {
      var j :| 0 <= j < |events| - 1 && events[1..][j].Data? && IsReadyChunk(events[1..][j].chunk);
      assert events[j + 1] == events[1..][j];
    }
    if AnyReady(events) {
      var j :| 0 <= j < |events| && events[j].Data? && IsReadyChunk(events[j].chunk);
      if j > 0 {
        assert events[1..][j - 1] == events[j];
      }
    }
  }

  /** Once the init command has gone out the timer is stopped for good: the
      only bytes ever written again are 0x8C 0x00 answers, one per chunk that
      starts with 0xC0, and the device is connected exactly when it already
      was or some chunk not starting with 0xC0 ends with 0x56. */
  lemma {:induction false} RunAfterInit(s: Link, events: seq<Event>)
    requires s.sentInitData && !s.pinging
    ensures Run(s, events)
      == Transition(Link(true, false, s.connected || AnyReady(events)), Acks(CountAcks(events)))
    decreases |events|
  {
    if |events| > 0 {
      var first := Step(s, events[0]);
      RunAfterInit(first.next, events[1..]);
      AnyReadyCons(events);
      var n := CountAcks(events[1..]);
      if events[0].Data? && events[0].chunk[0] == Probe {
        assert first == Transition(s, AckResponse);
        assert CountAcks(events) == n + 1;
        assert Acks(n + 1) == AckResponse + Acks(n);
      } else {
        assert first.sent == [];
        assert CountAcks(events) == n;
      }
    }
  }

  /** Every event sequence is either ticks only, or n ticks, the first
      chunk, and whatever follows; ConnectBeforeData and ConnectTrace cover
      the two shapes. */
  lemma {:induction false} EventsShape(events: seq<Event>)
    ensures (exists n: nat :: events == Ticks(n))
      || (exists n: nat, first: Chunk, later: seq<Event> :: events == Ticks(n) + [Data(first)] + later)
    decreases |events|
  {
    if |events| == 0 {
      assert events == Ticks(0);
    } else if events[0].Data? {
      assert events == Ticks(0) + [Data(events[0].chunk)] + events[1..];
    } else {
      EventsShape(events[1..]);
      if n: nat :| events[1..] == Ticks(n) {
        assert events == Ticks(n + 1);
      } else {
        var n: nat, first: Chunk, later: seq<Event> :| events[1..] == Ticks(n) + [Data(first)] + later;
        assert events == Ticks(n + 1) + [Data(first)] + later;
      }
    }
  }

  /** While the timer runs, n ticks write n probes and leave the state
      alone; what follows them runs from that same state. */
  lemma {:induction false} RunTicksThen(s: Link, n: nat, rest: seq<Event>)
    requires s.pinging
    ensures Run(s, Ticks(n) + rest) == Transition(Run(s, rest).next, Pings(n) + Run(s, rest).sent)
    decreases n
  {
    if n == 0 {
      assert Ticks(0) + rest == rest;
    } else {
      var events := Ticks(n) + rest;
      assert events[0] == Tick;
      assert events[1..] == Ticks(n - 1) + rest;
      RunTicksThen(s, n - 1, rest);
      assert [Probe] + (Pings(n - 1) + Run(s, rest).sent) == Pings(n) + Run(s, rest).sent;
    }
  }

  /** The first chunk, whatever it holds, stops the timer and writes
      0x8D 0x01 once; the events after it run as RunAfterInit says. */
  lemma RunFromFirstData(connected: bool, first: Chunk, later: seq<Event>)
    ensures Run(Link(false, true, connected), [Data(first)] + later)
      == Transition(Link(true, false, connected || AnyReady(later)),
                    InitCommand + Acks(CountAcks(later)))
  {
    assert ([Data(first)] + later)[0] == Data(first);
    assert ([Data(first)] + later)[1..] == later;
    RunAfterInit(Link(true, false, connected), later);
  }

  /** The whole handshake, from opening the port, when the first chunk
      arrives after n ticks: one probe at once and one per tick; then
      0x8D 0x01 once, and 0x8C 0x00 for each later chunk starting with 0xC0.
      The timer stays stopped. The first chunk never sets `connected`; a
      later chunk sets it exactly when it does not start with 0xC0 and ends
      with 0x56. */
  lemma ConnectTrace(connected: bool, n: nat, first: Chunk, later: seq<Event>)
    ensures Connect(connected, Ticks(n) + [Data(first)] + later)
      == Transition(Link(true, false, connected || AnyReady(later)),
                    Pings(n + 1) + InitCommand + Acks(CountAcks(later)))
  {
    var s := Link(false, true, connected);
    var rest := [Data(first)] + later;
    var events := Ticks(n) + rest;
    var final := Link(true, false, connected || AnyReady(later));
    var acks := Acks(CountAcks(later));
    assert Ticks(n) + [Data(first)] + later == events;
    RunFromFirstData(connected, first, later);
    RunTicksThen(s, n, rest);
    var run := Run(s, events);
    assert run == Transition(final, Pings(n) + (InitCommand + acks));
    assert Connect(connected, events) == Transition(run.next, [Probe] + run.sent);
    assert [Probe] + (Pings(n) + (InitCommand + acks)) == Pings(n + 1) + InitCommand + acks;
  }

  /** Before any data arrives: one probe at once and one per tick, and
      nothing else changes. */
  lemma ConnectBeforeData(connected: bool, n: nat)
    ensures Connect(connected, Ticks(n)) == Transition(Link(false, true, connected), Pings(n + 1))
  {
    RunTicksThen(Link(false, true, connected), n, []);
    assert Ticks(n) + [] == Ticks(n);
  }

  /** `connected` never goes back to false. */
  lemma {:induction false} ConnectedStays(s: Link, events: seq<Event>)
    ensures s.connected ==> Run(s, events).next.connected
    decreases |events|
  {
    if |events| > 0 {
      ConnectedStays(Step(s, events[0]).next, events[1..]);
    }
  }

  /** The device answering the probe with 1, then 0xC0, then a burst ending
      in 0x56: the port sees 0xC0, 0x8D 0x01, 0x8C 0x00 and the driver ends
      connected with the ping timer stopped. */
  lemma TypicalHandshake(status: Chunk)
    requires status[0] != Probe && status[|status| - 1] == ReadyByte
    ensures Connect(false, [Data([1]), Data([0xC0]), Data(status)])
      == Transition(Link(true, false, true), [0xC0, 0x8D, 0x01, 0x8C, 0x00])
  {
    var later := [Data([0xC0]), Data(status)];
    assert Ticks(0) + [Data([1])] + later == [Data([1]), Data([0xC0]), Data(status)];
    ConnectTrace(false, 0, [1], later);
    assert later[1..] == [Data(status)];
    assert CountAcks(later) == 1 by {
      assert CountAcks([Data(status)]) == 0 by {
        assert [Data(status)][1..] == [];
      }
    }
    assert AnyReady(later) by {
      assert later[1].Data? && IsReadyChunk(later[1].chunk);
    }
    assert Pings(1) + InitCommand + Acks(1) == [0xC0, 0x8D, 0x01, 0x8C, 0x00];
  }
}
