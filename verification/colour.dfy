/** Colour components and their conversion to wire bytes (`decColourToHex`,
    then the coercion `Buffer.from` applies when the payload is sent). */
module Colour {
  import opened Base
  import opened Hex

  /** A JavaScript number as the driver receives it: an integer or NaN.
      Fractions and infinities are not modelled. */
  datatype JsNumber = Num(value: int) | NaN

  /** Red, green and blue components, each meant to lie in 0..255. */
  datatype Colour = Colour(red: JsNumber, green: JsNumber, blue: JsNumber)

  const Black := Colour(Num(0), Num(0), Num(0))

  /** A component `decColourToHex` accepts: not NaN, not below 0, not above 255. */
  predicate InRange(c: JsNumber) {
    c.Num? && 0 <= c.value <= 255
  }

  predicate ValidColour(c: Colour) {
    InRange(c.red) && InRange(c.green) && InRange(c.blue)
  }

  predicate HasHexPrefix(s: string) {
    |s| >= 2 && s[0] == '0' && s[1] == 'x'
  }

  /** The octet `Buffer.from` makes of one "0x.." array element: the value of
      the hexadecimal digits after "0x", reduced modulo 256, or 0 when they do
      not parse. This is `Number(s)` only for digits worth at most 2^53 and
      without surrounding white space, which covers every string the driver
      builds ("0x" and one or two digits). */
  function WireByte(s: string): (b: Byte)
    requires HasHexPrefix(s)
    ensures ParseDigits(s[2..]).None? ==> b == 0
    ensures ParseDigits(s[2..]).Some? && ParseDigits(s[2..]).value < 256 ==> b == ParseDigits(s[2..]).value
  {
    match ParseDigits(s[2..])
    case Some(v) => v % 256
    case None => 0
  }

  /** The text `toString(16)` prints for any natural becomes its low byte:
      values within a byte go through unchanged, larger ones wrap. */
  lemma WireByteOfHex(v: nat)
    ensures WireByte("0x" + ToHex(v)) == v % 256
  {
    assert ("0x" + ToHex(v))[2..] == ToHex(v);
    ParseToHex(v);
  }

  /** `decColourToHex`: throws for NaN and for values outside 0..255;
      otherwise yields "0x" followed by the value in base 16, which reaches
      the wire as the value itself, with no clamping. */
  function DecColourToHex(c: JsNumber): (r: Result<string>)
    ensures r.Ok? <==> InRange(c)
    ensures r.Err? ==> r.error == ColourOutOfRange
    ensures r.Ok? ==> HasHexPrefix(r.value) && WireByte(r.value) == c.value
  {
    if c.NaN? || c.value < 0 || c.value > 255 then Err(ColourOutOfRange)
    else
      var s := "0x" + ToHex(c.value);
      assert s[2..] == ToHex(c.value);
      ParseToHex(c.value);
      Ok(s)
  }
}
