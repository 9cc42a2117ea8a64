/** `ANTToggleByte`: a seven-bit page number and a toggle flag in one byte. */
module ANTToggle {
  /** The constructor is `init(pageNumber:toggled:)`: it stores both fields
      as given, so `pageNumber` may use bit 7. */
  datatype ANTToggleByte = ANTToggleByte(pageNumber: bv8, toggle: bool) {

    /** `uint8Value`: the page number with bit 7 OR-ed in when toggled. */
    function Uint8Value(): (v: bv8)
      ensures v & 0x7F == pageNumber & 0x7F
      ensures v & 0x80 != 0 <==> toggle || pageNumber & 0x80 != 0
    {
      var value := pageNumber;
      value | ((if toggle then 1 else 0) << 7)
    }
  }

  /** `UInt8.boolValue`: 0x01 is true; 0x00 and every other byte are false. */
  function BoolValue(b: bv8): (r: bool)
    ensures r <==> b == 0x01
  {
    if b == 0x01 then true
    else if b == 0x00 then false
    else false
  }

  /** `init(_:)`: the low seven bits are the page number, bit 7 the toggle.
      `(value >> 7) & 0x7F` is 0 or 1, so `boolValue` reads bit 7 exactly. */
  function FromByte(value: bv8): (t: ANTToggleByte)
    ensures t.pageNumber < 0x80
    ensures t.toggle <==> value & 0x80 != 0
    ensures t.Uint8Value() == value
  {
    ANTToggleByte(value & 0x7F, BoolValue((value >> 7) & 0x7F))
  }

  /** A toggle byte whose page number fits in seven bits survives a trip
      through its byte. */
  lemma FieldsRoundTrip(t: ANTToggleByte)
    requires t.pageNumber < 0x80
    ensures FromByte(t.Uint8Value()) == t
  {
  }
}
