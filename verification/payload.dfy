/** The colour payload: 40 LEDs of three bytes each, stored green, red, blue,
    and the colour-setting operations on it, as values. The driver's class
    (module Driver) updates an array in place and is proved against these. */
module Payload {
  import opened Base
  import opened Colour

  const LedCount := 40
  const PayloadLength := 3 * LedCount

  /** The payload the driver starts with: every LED off. */
  function Zeros(): (z: seq<Byte>)
    ensures |z| == PayloadLength
    ensures forall k :: 0 <= k < |z| ==> z[k] == 0
  {
    seq(PayloadLength, _ => 0)
  }

  /** Forty repetitions of the slot [green, red, blue]. */
  function Uniform(green: Byte, red: Byte, blue: Byte): (u: seq<Byte>)
    ensures |u| == PayloadLength
  {
    seq(PayloadLength, k => if k % 3 == 0 then green else if k % 3 == 1 then red else blue)
  }

  /** An LED index `setLEDColour` accepts: not NaN, not below 0, not above 39. */
  predicate ValidIndex(index: JsNumber) {
    index.Num? && 0 <= index.value < LedCount
  }

  /** The payload after an operation, and whether the operation threw. */
  datatype Applied = Applied(payload: seq<Byte>, outcome: Outcome)

  /** `setLEDColour(index, colour)`: checks the index, then converts and
      stores green, red and blue one at a time at offsets 3i, 3i+1, 3i+2. A
      component that fails to convert throws after the earlier components of
      the slot have already been stored. */
  function SetLEDColour(p: seq<Byte>, index: JsNumber, colour: Colour): (a: Applied)
    requires |p| == PayloadLength
    ensures |a.payload| == PayloadLength
    ensures a.outcome == Done <==> ValidIndex(index) && ValidColour(colour)
    ensures a.outcome.Failed? ==>
      a.outcome.error == if ValidIndex(index) then ColourOutOfRange else IndexOutOfBounds
  {
    if index.NaN? || index.value < 0 || index.value > 39 then Applied(p, Failed(IndexOutOfBounds))
    else
      var i := index.value;
      match DecColourToHex(colour.green)
      case Err(e) => Applied(p, Failed(e))
      case Ok(g) =>
        var p1 := p[3 * i := WireByte(g)];
        match DecColourToHex(colour.red)
        case Err(e) => Applied(p1, Failed(e))
        case Ok(r) =>
          var p2 := p1[3 * i + 1 := WireByte(r)];
          match DecColourToHex(colour.blue)
          case Err(e) => Applied(p2, Failed(e))
          case Ok(b) => Applied(p2[3 * i + 2 := WireByte(b)], Done)
  }

  /** A successful call stores [green, red, blue] at slot i and changes no
      other byte. */
  lemma SetLEDColourWritesSlot(p: seq<Byte>, i: int, colour: Colour)
    requires |p| == PayloadLength && 0 <= i < LedCount && ValidColour(colour)
    ensures var a := SetLEDColour(p, Num(i), colour);
      a.outcome == Done &&
      a.payload[3 * i] == colour.green.value &&
      a.payload[3 * i + 1] == colour.red.value &&
      a.payload[3 * i + 2] == colour.blue.value &&
      forall k :: 0 <= k < PayloadLength && k / 3 != i ==> a.payload[k] == p[k]
  {
  }

  /** A rejected index throws before anything is written. */
  lemma SetLEDColourRejectsIndex(p: seq<Byte>, index: JsNumber, colour: Colour)
    requires |p| == PayloadLength && !ValidIndex(index)
    ensures SetLEDColour(p, index, colour) == Applied(p, Failed(IndexOutOfBounds))
  {
  }

  /** A rejected colour throws, but the update is not atomic: the components
      of the slot that precede the first invalid one (in the order green,
      red, blue) have already been stored. */
  lemma SetLEDColourPartialWrite(p: seq<Byte>, i: int, colour: Colour)
    requires |p| == PayloadLength && 0 <= i < LedCount && !ValidColour(colour)
    ensures var a := SetLEDColour(p, Num(i), colour);
      a.outcome == Failed(ColourOutOfRange) &&
      a.payload == (if !InRange(colour.green) then p
                    else if !InRange(colour.red) then p[3 * i := colour.green.value]
                    else p[3 * i := colour.green.value][3 * i + 1 := colour.red.value])
  {
  }

  /** `setAllLEDColours` as far as its loop has run: slots 0..n-1 in order,
      stopping at the first slot that throws. */
  function SetAllUpTo(p: seq<Byte>, colour: Colour, n: nat): (a: Applied)
    requires |p| == PayloadLength && n <= LedCount
    ensures |a.payload| == PayloadLength
    ensures n > 0 ==> (a.outcome == Done <==> ValidColour(colour))
    ensures a.outcome.Failed? ==> a.outcome == Failed(ColourOutOfRange)
  {
    if n == 0 then Applied(p, Done)
    else
      var prev := SetAllUpTo(p, colour, n - 1);
      if prev.outcome.Failed? then prev else SetLEDColour(prev.payload, Num(n - 1), colour)
  }

  /** `setAllLEDColours(colour)`: `setLEDColour(i, colour)` for i = 0..39. */
  function SetAllLEDColours(p: seq<Byte>, colour: Colour): (a: Applied)
    requires |p| == PayloadLength
    ensures |a.payload| == PayloadLength
    ensures a.outcome == Done <==> ValidColour(colour)
    ensures a.outcome.Failed? ==> a.outcome == Failed(ColourOutOfRange)
  {
    SetAllUpTo(p, colour, LedCount)
  }

  /** `resetAllLEDColours`: `setLEDColour(i, {0, 0, 0})` for i = 0..39. */
  function ResetAllLEDColours(p: seq<Byte>): (a: Applied)
    requires |p| == PayloadLength
    ensures |a.payload| == PayloadLength && a.outcome == Done
  {
    SetAllUpTo(p, Black, LedCount)
  }

  /** With a valid colour, after n steps the first n slots hold the colour
      and the rest are untouched. */
  lemma {:induction false} SetAllUpToValid(p: seq<Byte>, colour: Colour, n: nat)
    requires |p| == PayloadLength && n <= LedCount && ValidColour(colour)
    ensures var a := SetAllUpTo(p, colour, n);
      var u := Uniform(colour.green.value, colour.red.value, colour.blue.value);
      a.outcome == Done &&
      forall k :: 0 <= k < PayloadLength ==> a.payload[k] == if k < 3 * n then u[k] else p[k]
  {
    if n > 0 {
      SetAllUpToValid(p, colour, n - 1);
      SetLEDColourWritesSlot(SetAllUpTo(p, colour, n - 1).payload, n - 1, colour);
    }
  }

  /** With a valid colour the payload becomes forty copies of
      [green, red, blue], whatever it held before. */
  lemma SetAllLEDColoursUniform(p: seq<Byte>, colour: Colour)
    requires |p| == PayloadLength && ValidColour(colour)
    ensures SetAllLEDColours(p, colour)
      == Applied(Uniform(colour.green.value, colour.red.value, colour.blue.value), Done)
  {
    SetAllUpToValid(p, colour, LedCount);
  }

  /** Once a step has thrown, later steps change nothing. */
  lemma {:induction false} SetAllUpToStops(p: seq<Byte>, colour: Colour, n: nat, m: nat)
    requires |p| == PayloadLength && n <= m <= LedCount
    requires SetAllUpTo(p, colour, n).outcome.Failed?
    ensures SetAllUpTo(p, colour, m) == SetAllUpTo(p, colour, n)
    decreases m
  {
    if m > n {
      SetAllUpToStops(p, colour, n, m - 1);
    }
  }

  /** With an invalid colour `setAllLEDColours` throws at slot 0: the payload
      is what the failed `setLEDColour(0, colour)` left, so it is unchanged
      when green is invalid and otherwise carries slot 0's earlier bytes. */
  lemma SetAllLEDColoursInvalid(p: seq<Byte>, colour: Colour)
    requires |p| == PayloadLength && !ValidColour(colour)
    ensures SetAllLEDColours(p, colour) == SetLEDColour(p, Num(0), colour)
    ensures SetAllLEDColours(p, colour).outcome == Failed(ColourOutOfRange)
  {
    assert SetAllUpTo(p, colour, 1) == SetLEDColour(p, Num(0), colour);
    SetAllUpToStops(p, colour, 1, LedCount);
  }

  /** `resetAllLEDColours` leaves 120 zero bytes. */
  lemma ResetAllLEDColoursZeros(p: seq<Byte>)
    requires |p| == PayloadLength
    ensures ResetAllLEDColours(p) == Applied(Zeros(), Done)
  {
    SetAllLEDColoursUniform(p, Black);
    assert Uniform(0, 0, 0) == Zeros();
  }
}
