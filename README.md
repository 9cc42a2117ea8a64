# DataDecoder in Dafny

A model of the decoding engine of the Swift package DataDecoder (FitnessKit).
The engine reads values out of a byte buffer from a movable read position.
It serves Bluetooth LE fitness sensors and ANT+ devices.

- `DataExtension` models the primitive `scanValue(index:type:)`: take the
  bytes of one fixed-width integer at the position and advance, or yield
  nothing and stay put. It also models the unchecked reads
  `scanValue(start:...)`. The machine's reinterpretation of bytes is written
  out as little-endian assembly (`LittleEndian`) followed by a
  two's-complement reading (`Reinterpret`), parameterised by `IntType` (the
  Swift `T.Type`: `Int8` ... `UInt64`).
- `Decoder.DecodeData` is the struct that holds only a position; the caller
  passes the buffer to every read. It has fail-soft readers (zero on
  overrun) and `IfPresent` readers (`None` on overrun).
- `DataDecoders.DataDecoder` is the struct that owns the buffer and the
  position. It has fail-soft readers only.
- Both decoders are classes whose methods update `index`. Each method's
  `ensures` gives the value read and the new position as functions of the
  old position:
  - `ReadsAs` / `ReadsAsOrZero` for the native-width reads, which are
    all-or-nothing;
  - `Padded` / `Consumed` for the byte-by-byte readers, which take the
    bytes that exist, use 0 for the rest, and advance by
    `min(width, count - index)`.
- `Readers` defines once what the byte-by-byte readers compute from their
  bytes: 24- and 48-bit integers, the dotted-decimal IPv4 text and the MAC
  address. The two decoders repeat that logic word for word.
- `IEEE11073` models the special-value and bit-field logic of the
  ISO/IEEE 11073-20601 SFLOAT (16-bit) and FLOAT (32-bit) types. The result
  is a symbolic `MedicalFloat`: `PosInf | NaN | NegInf |
  Finite(mantissa, exponent)`. Each reader variant is proved equal to a
  field-by-field reference decoding of the unsigned bit pattern.
- `Nibbles`, `ANTToggle` and `MACAddresses` are the small value types, each
  with the round trip between its fields and its byte or text form.
- `TextFormat` holds the `%d` and `%02X` formatting the readers use, with
  parsers that invert it.
- `Scenarios` replays the package's own sensor test and one buffer per kind
  of field.

Some names differ from the Swift. `decodeData` is `DecodeBytes`, because
`DecodeData` is already the class's name. The Swift `init(...)`
initialisers of the value types are the functions `FromByte`,
`FromString` and `FromData`.

## Model

| member | source | states |
|---|---|---|
| DataExtension.Option.GetOr | Sources/DataDecoder/Decoder.swift:155 | `x ?? d`: the wrapped value when present, `d` when absent. |
| DataExtension.IntType.Size | Sources/DataDecoder/Extensions/DataExtension.swift:40 | `MemoryLayout<T>.size` of each integer type read natively is 1, 2, 4 or 8 bytes. |
| DataExtension.IntType.Modulus | Sources/DataDecoder/Extensions/DataExtension.swift:45 | A `T` has 256^size distinct values, an even number. |
| DataExtension.IntType.Min | Sources/DataDecoder/Extensions/DataExtension.swift:45 | The least `T` is 0 for the unsigned types and minus half the modulus for the signed ones. |
| DataExtension.IntType.Max | Sources/DataDecoder/Extensions/DataExtension.swift:45 | The range from `T.min` to `T.max` holds exactly 256^size values. |
| DataExtension.ScanValue | Sources/DataDecoder/Extensions/DataExtension.swift:38-46 | When `index + size > count`: no value, and the index is unchanged. Otherwise: the value at the index, with the index advanced by exactly `size`. An index within the buffer stays within it. |
| DataExtension.ScanAt | Sources/DataDecoder/Extensions/DataExtension.swift:34-36 | Under the precondition `start + size <= count`, the value lies in the type's range. It is congruent, modulo 2^(8·size), to the little-endian number formed by bytes `[start, start+size)` and by nothing else. |
| DataExtension.ScanAtLength | Sources/DataDecoder/Extensions/DataExtension.swift:30-32 | Reading a `T` out of a slice of `length >= size` bytes gives the same value as reading it at `start`. |
| DataExtension.LittleEndian | Sources/DataDecoder/Extensions/DataExtension.swift:45 | The little-endian assembly of n bytes is below 256^n. |
| DataExtension.LittleEndianBytes | Sources/DataDecoder/Extensions/DataExtension.swift:45 | The n-byte little-endian encoding of a number below 256^n has exactly n bytes. |
| DataExtension.LittleEndianOfBytes | Sources/DataDecoder/Extensions/DataExtension.swift:45 | Assembling the encoding of v gives v back. |
| DataExtension.BytesOfLittleEndian | Sources/DataDecoder/Extensions/DataExtension.swift:45 | Encoding the assembly of a byte sequence gives the sequence back. |
| DataExtension.Pow256Add | Sources/DataDecoder/Extensions/DataExtension.swift:45 | `256^(a+b) == 256^a · 256^b`: the place values of concatenated byte runs multiply. |
| DataExtension.LittleEndianAppend | Sources/DataDecoder/Extensions/DataExtension.swift:45 | The assembly of `a + b` is `LE(a) + 256^|a| · LE(b)`. |
| DataExtension.Reinterpret | Sources/DataDecoder/Extensions/DataExtension.swift:45 | A bit pattern read as a `T` lies in `T`'s range and is congruent to the pattern modulo 2^bits. For unsigned types it is the pattern itself. |
| DataExtension.ScanByteOrZero | Sources/DataDecoder/Decoder.swift:155 | `scanValue(index:type: UInt8.self) ?? 0`: the byte at the index and index + 1; past the end, 0 and an unchanged index. |
| DataExtension.Consumed | Sources/DataDecoder/Decoder.swift:155-157 | The index advance of `width` one-byte reads is at most `width`. It never passes the end of the buffer, and it is short only when it stops at the end. It is 0 when the position is already at or past the end. |
| DataExtension.Padded | Sources/DataDecoder/Decoder.swift:155-157 | The bytes of `width` one-byte reads: exactly `width` bytes, the buffer's where present and 0 past the end. |
| DataExtension.ReadByteStep | Sources/DataDecoder/DataDecoder.swift:68-70 | One more one-byte read after k of them yields byte k of `Padded` and the index of `Consumed(k + 1)`. |
| Decoder.DecodeData.constructor | Sources/DataDecoder/Decoder.swift:40-42 | The position starts at `startIndex`. |
| Decoder.DecodeData.DecodeBytes | Sources/DataDecoder/Decoder.swift:52-54 | When the range fits: its bytes, with the position advanced by `length`. Otherwise: the empty buffer, with the position unchanged. |
| Decoder.DecodeData.DecodeBytesIfPresent | Sources/DataDecoder/Decoder.swift:60-72 | When `index + length > count`: `None`, with the position unchanged. Otherwise: exactly `data[index, index+length)`, with the position advanced by `length`. The loop invariant keeps the copied prefix. |
| Decoder.DecodeData.DecodeNibble | Sources/DataDecoder/Decoder.swift:77-80 | The nibbles of the next byte, or of 0 past the end (whose `uint8Value` is 0). |
| Decoder.DecodeData.DecodeNibbleIfPresent | Sources/DataDecoder/Decoder.swift:85-93 | `Some` of the next byte's nibbles with the position + 1; `None` and an unchanged position past the end. |
| Decoder.DecodeData.DecodeInt8 | Sources/DataDecoder/Decoder.swift:98-100 | A signed 8-bit read, or 0 with the position unchanged on overrun. |
| Decoder.DecodeData.DecodeInt8IfPresent | Sources/DataDecoder/Decoder.swift:105-107 | A signed 8-bit read, or `None` with the position unchanged on overrun. |
| Decoder.DecodeData.DecodeUInt8 | Sources/DataDecoder/Decoder.swift:112-114 | An unsigned 8-bit read, or 0 with the position unchanged on overrun. |
| Decoder.DecodeData.DecodeUInt8IfPresent | Sources/DataDecoder/Decoder.swift:119-121 | An unsigned 8-bit read, or `None` with the position unchanged on overrun. |
| Decoder.DecodeData.DecodeInt16 | Sources/DataDecoder/Decoder.swift:126-128 | A signed 16-bit little-endian read, or 0 with the position unchanged on overrun. |
| Decoder.DecodeData.DecodeInt16IfPresent | Sources/DataDecoder/Decoder.swift:133-135 | A signed 16-bit read, or `None` with the position unchanged on overrun. |
| Decoder.DecodeData.DecodeUInt16 | Sources/DataDecoder/Decoder.swift:140-142 | An unsigned 16-bit read, or 0 with the position unchanged on overrun. |
| Decoder.DecodeData.DecodeUInt16IfPresent | Sources/DataDecoder/Decoder.swift:147-149 | An unsigned 16-bit read, or `None` with the position unchanged on overrun. |
| Decoder.DecodeData.DecodeUInt24 | Sources/DataDecoder/Decoder.swift:154-161 | The unsigned little-endian value of the three padded bytes, in [0, 2^24). The position advances by `min(3, count - index)`. |
| Decoder.DecodeData.DecodeInt24 | Sources/DataDecoder/Decoder.swift:166-185 | The as-written signed reader, which always equals the unsigned value of the same bytes. The position advances by `min(3, count - index)`. |
| Decoder.DecodeData.DecodeInt32 | Sources/DataDecoder/Decoder.swift:190-192 | A signed 32-bit read, or 0 with the position unchanged on overrun. |
| Decoder.DecodeData.DecodeInt32IfPresent | Sources/DataDecoder/Decoder.swift:197-199 | A signed 32-bit read, or `None` with the position unchanged on overrun. |
| Decoder.DecodeData.DecodeUInt32 | Sources/DataDecoder/Decoder.swift:204-206 | An unsigned 32-bit read, or 0 with the position unchanged on overrun. |
| Decoder.DecodeData.DecodeUInt32IfPresent | Sources/DataDecoder/Decoder.swift:211-213 | An unsigned 32-bit read, or `None` with the position unchanged on overrun. |
| Decoder.DecodeData.DecodeUInt48 | Sources/DataDecoder/Decoder.swift:218-236 | The little-endian value of the six padded bytes, below 2^48. The position advances by `min(6, count - index)`. |
| Decoder.DecodeData.DecodeInt64 | Sources/DataDecoder/Decoder.swift:241-243 | A signed 64-bit read, or 0 with the position unchanged on overrun. |
| Decoder.DecodeData.DecodeInt64IfPresent | Sources/DataDecoder/Decoder.swift:248-250 | A signed 64-bit read, or `None` with the position unchanged on overrun. |
| Decoder.DecodeData.DecodeUInt64 | Sources/DataDecoder/Decoder.swift:255-257 | An unsigned 64-bit read, or 0 with the position unchanged on overrun. |
| Decoder.DecodeData.DecodeUInt64IfPresent | Sources/DataDecoder/Decoder.swift:262-264 | An unsigned 64-bit read, or `None` with the position unchanged on overrun. |
| Decoder.DecodeData.DecodeIPAddress | Sources/DataDecoder/Decoder.swift:275-290 | The dotted-decimal text of the four padded bytes, reversed when `fromLittleEndian`. The position advances by `min(4, count - index)`. |
| Decoder.DecodeData.DecodeMACAddress | Sources/DataDecoder/Decoder.swift:296-313 | The MAC address of the six padded bytes, reversed when `fromLittleEndian`. The position advances by `min(6, count - index)`. |
| Decoder.DecodeData.DecodeANTToggleByte | Sources/DataDecoder/Decoder.swift:323-326 | The toggle byte of the next byte, or of 0. |
| Decoder.DecodeData.DecodeSFloatValue | Sources/DataDecoder/Decoder.swift:336-338 | The SFLOAT reference decoding of the next two bytes with the position + 2; `Finite(0, 0)` with the position unchanged when fewer remain. |
| Decoder.DecodeData.DecodeSFloatValueIfPresent | Sources/DataDecoder/Decoder.swift:343-372 | `Some` of the SFLOAT reference decoding with the position + 2; `None` with the position unchanged when fewer than two bytes remain. |
| Decoder.DecodeData.DecodeFloatValue | Sources/DataDecoder/Decoder.swift:377-379 | The FLOAT reference decoding of the next four bytes with the position + 4; `Finite(0, 0)` with the position unchanged when fewer remain. |
| Decoder.DecodeData.DecodeFloatValueIfPresent | Sources/DataDecoder/Decoder.swift:384-409 | `Some` of the FLOAT reference decoding with the position + 4; `None` with the position unchanged when fewer than four bytes remain. |
| DataDecoders.DataDecoder.constructor | Sources/DataDecoder/DataDecoder.swift:57-60 | The decoder holds the given buffer, with the position at `startIndex`. |
| DataDecoders.DataDecoder.DecodeBytes | Sources/DataDecoder/DataDecoder.swift:66-73 | Exactly `length` bytes: the present ones copied and 0 for the rest. The position advances by `min(length, count - index)`. |
| DataDecoders.DataDecoder.DecodeNibble | Sources/DataDecoder/DataDecoder.swift:78-81 | The nibbles of the next byte, or of 0 (whose `uint8Value` is 0) past the end with the position unchanged. |
| DataDecoders.DataDecoder.DecodeInt8 | Sources/DataDecoder/DataDecoder.swift:86-88 | A signed 8-bit read, or 0 with the position unchanged on overrun. |
| DataDecoders.DataDecoder.DecodeUInt8 | Sources/DataDecoder/DataDecoder.swift:93-95 | An unsigned 8-bit read, or 0 with the position unchanged on overrun. |
| DataDecoders.DataDecoder.DecodeInt16 | Sources/DataDecoder/DataDecoder.swift:100-102 | A signed 16-bit read, or 0 with the position unchanged on overrun. |
| DataDecoders.DataDecoder.DecodeUInt16 | Sources/DataDecoder/DataDecoder.swift:107-109 | An unsigned 16-bit read, or 0 with the position unchanged on overrun. |
| DataDecoders.DataDecoder.DecodeUInt24 | Sources/DataDecoder/DataDecoder.swift:114-121 | The unsigned value of the three padded bytes. The position advances by `min(3, count - index)`. |
| DataDecoders.DataDecoder.DecodeInt24 | Sources/DataDecoder/DataDecoder.swift:126-145 | The as-written signed reader, equal to `DecodeUInt24` on every buffer. |
| DataDecoders.DataDecoder.DecodeInt32 | Sources/DataDecoder/DataDecoder.swift:150-152 | A signed 32-bit read, or 0 with the position unchanged on overrun. |
| DataDecoders.DataDecoder.DecodeUInt32 | Sources/DataDecoder/DataDecoder.swift:157-159 | An unsigned 32-bit read, or 0 with the position unchanged on overrun. |
| DataDecoders.DataDecoder.DecodeUInt48 | Sources/DataDecoder/DataDecoder.swift:164-182 | The six padded bytes as a number below 2^48. The position advances by `min(6, count - index)`. |
| DataDecoders.DataDecoder.DecodeInt64 | Sources/DataDecoder/DataDecoder.swift:187-189 | A signed 64-bit read, or 0 with the position unchanged on overrun. |
| DataDecoders.DataDecoder.DecodeUInt64 | Sources/DataDecoder/DataDecoder.swift:194-196 | An unsigned 64-bit read, or 0 with the position unchanged on overrun. |
| DataDecoders.DataDecoder.DecodeIPAddress | Sources/DataDecoder/DataDecoder.swift:207-222 | The dotted-decimal text of the four padded bytes, in print order. |
| DataDecoders.DataDecoder.DecodeMACAddress | Sources/DataDecoder/DataDecoder.swift:228-245 | The MAC address of the six padded bytes, in print order. |
| DataDecoders.DataDecoder.DecodeANTToggleByte | Sources/DataDecoder/DataDecoder.swift:255-258 | The toggle byte of the next byte, or of 0. |
| DataDecoders.DataDecoder.DecodeSFloatValue | Sources/DataDecoder/DataDecoder.swift:268-290 | The SFLOAT reference decoding of the next two bytes with the position + 2; raw 0, i.e. `Finite(0, 0)`, with the position unchanged when fewer remain. |
| DataDecoders.DataDecoder.DecodeFloatValue | Sources/DataDecoder/DataDecoder.swift:295-317 | The FLOAT reference decoding of the next four bytes with the position + 4; `Finite(0, 0)` with the position unchanged when fewer remain. |
| Readers.OrOfShiftedBytes24 | Sources/DataDecoder/Decoder.swift:159 | `(b2 << 16) \| (b1 << 8) \| b0` on bytes equals `b2·2^16 + b1·2^8 + b0`. |
| Readers.OrOfShiftedBytes48 | Sources/DataDecoder/Decoder.swift:226-233 | The six `\|=` of shifted bytes equal the sum of the bytes times powers of 256. |
| Readers.UInt24Value | Sources/DataDecoder/Decoder.swift:159 | The 24-bit value is the little-endian assembly of the three bytes, in [0, 2^24). |
| Readers.SignBit | Sources/DataDecoder/Decoder.swift:173 | The bit-and `val2 & 0x80` is 0 or 0x80, and 0x80 exactly when the byte is at least 0x80. |
| Readers.Int24AsWritten | Sources/DataDecoder/Decoder.swift:171-184 | The signed 24-bit reader as written always returns the unsigned value of its bytes. |
| Readers.Int24SignTestNeverHolds | Sources/DataDecoder/Decoder.swift:173 | `(val2 & 0x80) == 1` is false for every byte. |
| Readers.Int24Value | Sources/DataDecoder/Decoder.swift:173-178 | The intended signed reading: in [-2^23, 2^23), congruent to the unsigned value modulo 2^24, and negative exactly when the sign bit is set. |
| Readers.Int24ValueRoundTrip | Sources/DataDecoder/Decoder.swift:166-185 | Every 24-bit two's-complement number is read back from its three little-endian bytes by the corrected reader. |
| Readers.Int24SignBitIgnored | Sources/DataDecoder/Decoder.swift:173 | On 00 00 80 the as-written reader gives 8388608 and the intended one gives -8388608. |
| Readers.UInt48Value | Sources/DataDecoder/Decoder.swift:226-235 | The 48-bit value is the little-endian assembly of the six bytes, below 2^48. |
| Readers.InPrintOrder | Sources/DataDecoder/Decoder.swift:283-287 | Print order is the byte order given, or its reverse when `fromLittleEndian`. |
| Readers.InPrintOrderInvolution | Sources/DataDecoder/Decoder.swift:283-287 | Applying the print order twice restores the bytes. |
| Readers.IPAddressText | Sources/DataDecoder/Decoder.swift:281-289 | The `%d.%d.%d.%d` text has 7 to 15 characters. Its '.'-separated fields are exactly the plain `%d` texts of the four bytes in print order, with no leading zeros. Parsing it back yields those bytes. |
| Readers.MACAddressValue | Sources/DataDecoder/Decoder.swift:304-312 | The address text is canonical: six uppercase hex pairs joined by ':'. It parses back to the six bytes in print order. |
| Readers.MACAddressValueIsFromData | Sources/DataDecoder/Types/MACAddress.swift:43-56 | The reader's address in given order equals `MACAddress(data:)` of the same six bytes. |
| IEEE11073.TwosComplement | Sources/DataDecoder/Decoder.swift:359-361 | The signed reading of a field lies in [-m/2, m/2) and is either the field itself or the field minus m, so it is congruent to the field modulo m. |
| IEEE11073.SFloatMantissaField | Sources/DataDecoder/Decoder.swift:345 | `raw & 0x0FFF` lies in [0, 0xFFF] and keeps the low twelve bits. |
| IEEE11073.SFloatExponentField | Sources/DataDecoder/Decoder.swift:346 | `raw >> 12` lies in [-8, 7], and `raw` is exponent · 2^12 + mantissa field. |
| IEEE11073.SFloatOfDecodeData | Sources/DataDecoder/Decoder.swift:344-368 | The `DecodeData` SFLOAT logic (exponent fix, `> 0x0800` sign test) equals the reference decoding of the 16-bit pattern. |
| IEEE11073.SFloatOfDataDecoder | Sources/DataDecoder/DataDecoder.swift:269-289 | The `DataDecoder` SFLOAT logic (`>= 0x0800` sign test) equals the reference decoding of the 16-bit pattern. |
| IEEE11073.SFloatReference | Sources/DataDecoder/DataDecoder.swift:28-34 | Mantissa code 0x07FE is +inf, 0x0802 is -inf, and 0x07FF..0x0801 are NaN, each exactly. Otherwise the result is a finite number with mantissa in [-2045, 2045] and exponent in [-8, 7]. |
| IEEE11073.SFloatMatchesReference | Sources/DataDecoder/Decoder.swift:345-350 | The mask and arithmetic shift of the signed `raw` give the fields of the unsigned pattern. The exponent is already signed, so the `exponent >= 0x0008` fix never fires. |
| IEEE11073.SFloatVariantsAgree | Sources/DataDecoder/Decoder.swift:354-361 | Both variants' SFLOAT logic agree on every 16-bit input. |
| IEEE11073.FloatMantissaField | Sources/DataDecoder/Decoder.swift:386 | `raw & 0x00FFFFFF` lies in [0, 0xFFFFFF] and keeps the low 24 bits. |
| IEEE11073.FloatExponentField | Sources/DataDecoder/Decoder.swift:387 | `Int8(raw >> 24)` is the signed top byte, in [-128, 127]. |
| IEEE11073.FloatOfBits | Sources/DataDecoder/Decoder.swift:385-405 | The FLOAT logic (reserved band 0x7FFFFE..0x800002, `>= 0x800000` sign test) equals the reference decoding of the 32-bit pattern. |
| IEEE11073.FloatReference | Sources/DataDecoder/DataDecoder.swift:36-42 | The five reserved mantissa codes are +inf, NaN (three codes) and -inf, each exactly. Otherwise the result is finite, with a 24-bit two's-complement mantissa and a signed-byte exponent. |
| IEEE11073.FloatMatchesReference | Sources/DataDecoder/Decoder.swift:386-387 | The mask and shift of the signed `raw` give the fields of the unsigned pattern. |
| Nibbles.Nibble.Uint8Value | Sources/DataDecoder/Types/Nibble.swift:32-34 | `(upper << 4) \| lower` in 8 bits. The low half is `lower`'s low half. The high half loses `upper`'s high bits and takes in `lower`'s. For fields <= 15 it is `16·upper + lower`. |
| Nibbles.FromByte | Sources/DataDecoder/Types/Nibble.swift:41-44 | Both fields are <= 15, they recompose the byte, and `uint8Value` gives the byte back, for all 256 bytes. |
| Nibbles.PartsRoundTrip | Sources/DataDecoder/Types/Nibble.swift:32-44 | For fields <= 15, splitting `Nibble(lower:upper:).uint8Value` gives the same nibble. |
| Nibbles.Uint8ValueDropsHighBitsOfUpper | Sources/DataDecoder/Types/Nibble.swift:33 | The high bits of `upper` never reach the byte. |
| Nibbles.Equal | Sources/DataDecoder/Types/Nibble.swift:49-51 | `==` holds iff both halves agree. |
| Nibbles.NibbleValue | Sources/DataDecoder/Types/Nibble.swift:58-60 | `b.nibbleValue` has fields <= 15 and reassembles to `b`. |
| ANTToggle.ANTToggleByte.Uint8Value | Sources/DataDecoder/Types/ANTToggleByte.swift:33-38 | The low seven bits are the page number's. Bit 7 is set iff toggled or the page number already has it. |
| ANTToggle.BoolValue | Sources/DataDecoder/Types/ANTToggleByte.swift:54-63 | True iff the byte is 0x01. |
| ANTToggle.FromByte | Sources/DataDecoder/Types/ANTToggleByte.swift:40-43 | The page number is below 128. The toggle is set iff bit 7 is. `uint8Value` gives the byte back, for all 256 bytes. |
| ANTToggle.FieldsRoundTrip | Sources/DataDecoder/Types/ANTToggleByte.swift:33-48 | For a page number below 128, `ANTToggleByte(t.uint8Value) == t`. |
| MACAddresses.UpperChar | Sources/DataDecoder/Types/MACAddress.swift:40 | A lowercase ASCII letter becomes its capital, 32 code points below it. Every other character is kept. |
| MACAddresses.Uppercase | Sources/DataDecoder/Types/MACAddress.swift:40 | Uppercasing keeps the length. Each lowercase ASCII letter becomes its capital, and every other character is unchanged, so no lowercase letter remains. |
| MACAddresses.FromString | Sources/DataDecoder/Types/MACAddress.swift:39-41 | `init(string:)` stores the uppercased input: same length, no lowercase letter. |
| MACAddresses.FromStringIdempotent | Sources/DataDecoder/Types/MACAddress.swift:39-41 | Re-wrapping a `stringValue` gives the same address. |
| MACAddresses.UppercaseOfMACString | Sources/DataDecoder/Types/MACAddress.swift:48-54 | A canonical MAC text is unchanged by `uppercased()`. |
| MACAddresses.FromData | Sources/DataDecoder/Types/MACAddress.swift:43-56 | With 6 bytes: a canonical 17-character text of uppercase pairs and colons that parses back to the bytes. With any other count: "00:00:00:00:00:00". |
| MACAddresses.Equal | Sources/DataDecoder/Types/MACAddress.swift:61-63 | `==` holds iff the string values are equal. |
| MACAddresses.EqualIsEquivalence | Sources/DataDecoder/Types/MACAddress.swift:61-63 | `==` is reflexive, symmetric and transitive. |
| MACAddresses.RemoveColons | Sources/DataDecoder/Types/MACAddress.swift:33 | The result has no ':', and a colon-free input is unchanged. |
| MACAddresses.RemoveColonsLength | Sources/DataDecoder/Types/MACAddress.swift:33 | Exactly the colons are dropped: the length falls by the number of colons in the input. |
| MACAddresses.RemoveColonsAppend | Sources/DataDecoder/Types/MACAddress.swift:33 | Removing colons distributes over concatenation. |
| MACAddresses.Utf8Char | Sources/DataDecoder/Types/MACAddress.swift:36 | A character's UTF-8 encoding is the shortest form that holds it: 1, 2, 3 or 4 bytes for code points below 0x80, 0x800, 0x10000 and above. It has the lead byte of that length and continuation bytes in [0x80, 0xC0). An ASCII character encodes to its own code. |
| MACAddresses.Utf8CharRoundTrip | Sources/DataDecoder/Types/MACAddress.swift:36 | Decoding a character's UTF-8 bytes gives its code point back. |
| MACAddresses.Utf8 | Sources/DataDecoder/Types/MACAddress.swift:36 | `data(using: .utf8)` has at least one byte per character, and a one-character string encodes as that character's `Utf8Char`. Together with `Utf8Append` this fixes the encoding of every string, non-ASCII characters included. |
| MACAddresses.Utf8Append | Sources/DataDecoder/Types/MACAddress.swift:36 | Encoding a concatenation concatenates the encodings. |
| MACAddresses.Utf8OfAscii | Sources/DataDecoder/Types/MACAddress.swift:36 | An ASCII string encodes to its character codes, byte for byte. |
| MACAddresses.DataValue | Sources/DataDecoder/Types/MACAddress.swift:32-37 | `dataValue` has at least as many bytes as the colon-free text has characters. |
| MACAddresses.RemoveColonsOfPairs | Sources/DataDecoder/Types/MACAddress.swift:33 | Removing the colons from six joined hex pairs concatenates the pairs. |
| MACAddresses.RemoveColonsOfFromData | Sources/DataDecoder/Types/MACAddress.swift:32-56 | For a 6-byte address, the colon-free text is the twelve hex digits of the bytes. |
| MACAddresses.DataValueOfAscii | Sources/DataDecoder/Types/MACAddress.swift:32-37 | When the colon-free text is hex digits, `dataValue` is their character codes, one byte each. |
| MACAddresses.DataValueOfFromData | Sources/DataDecoder/Types/MACAddress.swift:32-37 | For an address built from 6 bytes, `dataValue` is the 12 ASCII codes of its hex digits, not the 6 bytes themselves. |
| TextFormat.Decimal | Sources/DataDecoder/Decoder.swift:284-286 | `%d` of a natural number: digits only, and a leading '0' only for 0. A number below 10 has exactly one digit, one of 10 or more at least two, and one below 1000 at most three. So 0 prints as "0", and with `DecimalRoundTrip` the text is fixed for every number. |
| TextFormat.DecimalRoundTrip | Sources/DataDecoder/Decoder.swift:284-286 | Reading the `%d` text back gives the number. |
| TextFormat.DottedDecimal | Sources/DataDecoder/Decoder.swift:284-286 | `%d.%d.%d.%d` of four bytes has 7 to 15 characters. |
| TextFormat.ParseDottedDecimal | Sources/DataDecoder/Decoder.swift:284-286 | One number per '.'-separated field. |
| TextFormat.SplitDotJoined | Sources/DataDecoder/Decoder.swift:284-286 | Four fields with no '.' in them, joined by '.', split back into exactly those four fields. |
| TextFormat.DottedDecimalSplit | Sources/DataDecoder/Decoder.swift:284-286 | Splitting the dotted text at '.' gives the four decimal texts. |
| TextFormat.DottedDecimalRoundTrip | Sources/DataDecoder/Decoder.swift:284-286 | Parsing the dotted text gives the four bytes back. |
| TextFormat.Hex2 | Sources/DataDecoder/Types/MACAddress.swift:48 | `%02X` of a byte is two uppercase hex digits whose value is the byte. |
| TextFormat.HexPairValue | Sources/DataDecoder/Types/MACAddress.swift:48 | Every uppercase hex pair is `%02X` of exactly the byte it denotes. |
| TextFormat.HexColon | Sources/DataDecoder/Types/MACAddress.swift:48-54 | The six-pair colon text is canonical, with each pair at its fixed position. |
| TextFormat.ParseHexColon | Sources/DataDecoder/Types/MACAddress.swift:48-54 | Every canonical MAC text is the colon text of the six bytes it parses to. |
| TextFormat.HexColonRoundTrip | Sources/DataDecoder/Types/MACAddress.swift:48-54 | Parsing the colon text of six bytes gives them back. |
| Scenarios.SensorExample | Tests/DataDecoderTests/DataDecoderTests.swift:10-39 | On 02 FE FF EF BE AD DE A5, the reads give 2, 65534, 3735928559, the nibble (5, 10), and then a nibble whose `uint8Value` is 0. |
| Scenarios.SensorHeight | Tests/DataDecoderTests/DataDecoderTests.swift:15 | The first byte reads as 2, and the position becomes 1. |
| Scenarios.SensorWeight | Tests/DataDecoderTests/DataDecoderTests.swift:16 | FE FF reads as 0xFFFE, and the position becomes 3. |
| Scenarios.SensorBeef | Tests/DataDecoderTests/DataDecoderTests.swift:17 | EF BE AD DE reads as 0xDEADBEEF, and the position becomes 7. |
| Scenarios.SensorNibbles | Tests/DataDecoderTests/DataDecoderTests.swift:18-19 | The last byte gives the nibble (5, 10). The exhausted buffer gives a zero nibble. |
| Scenarios.NibblesOfA5 | Sources/DataDecoder/Types/Nibble.swift:41-44 | 0xA5 splits into lower 5 and upper 10. |
| Scenarios.IPAddressExample | Sources/DataDecoder/Decoder.swift:275-290 | AD A5 EE B2 prints as "173.165.238.178". |
| Scenarios.IPAddressLittleEndianExample | Sources/DataDecoder/DataDecoder.swift:207-222 | B2 EE A5 AD read little-endian prints as "173.165.238.178". |
| Scenarios.MACAddressExample | Sources/DataDecoder/Decoder.swift:296-313 | 00 50 C2 34 F7 11 prints as "00:50:C2:34:F7:11". |
| Scenarios.UInt24Example | Sources/DataDecoder/Decoder.swift:154-161 | FF FF FF reads as 0xFFFFFF from the unsigned reader and from the as-written signed reader. |
| Scenarios.UInt48Example | Sources/DataDecoder/DataDecoder.swift:164-182 | Six FF bytes read as 2^48 - 1. |
| Scenarios.UInt24ShortExample | Sources/DataDecoder/DataDecoder.swift:114-121 | On 01 02, the missing top byte is 0: the value is 0x0201 and the position stops at 2. |
| Scenarios.SFloatExamples | Sources/DataDecoder/Decoder.swift:336-372 | FE 07 is +inf; 02 38 is -inf. A single remaining byte gives `None`, and a one-byte `DataDecoder` gives 0. |
| Scenarios.SFloatFiniteExample | Sources/DataDecoder/DataDecoder.swift:268-290 | 72 FF is -142 · 10^-1. |
| Scenarios.Int24Example | Sources/DataDecoder/Decoder.swift:166-185 | 00 00 80 reads as 8388608 through the as-written signed reader. |

## Left out

- The final floating-point step of SFLOAT and FLOAT (`pow(10, exponent)` and the `Float` multiply). The readers return the symbolic `MedicalFloat` (mantissa, exponent) or a special value instead. So rounding, and the conversion of the reserved `Double` values to `Float`, are not modelled. The zero that the fail-soft readers return is `Finite(0, 0)`.
- `withUnsafeBytes { $0.pointee }`: the memory reinterpretation is replaced by explicit little-endian assembly and two's complement. This assumes a little-endian host, which all of the package's target platforms are.
- `Data.to(type:)` (Sources/DataDecoder/Extensions/DataExtension.swift:48-50): an unchecked raw-memory read of the buffer's first bytes. The core readers do not use it.
- `Data.safeStringValue` (Sources/DataDecoder/Extensions/DataExtension.swift:56-67) is not part of this model. It is Foundation text decoding (UTF-8 or ASCII), and it traps on an empty buffer.
- `MACAddress.hashValue` is not part of this model: it is the standard library's unspecified string hash.
- The lazy storage of `kReservedFloatValues` is modelled as the constant five-entry table `ReservedFloatValues`. The private enums `DecoderSFloatValues` and `DecoderFloatValues` (Sources/DataDecoder/DataDecoder.swift:28-42) are modelled as plain constants (`SFloatPositiveInfinity` ... `SFloatNegativeInfinity`, `FloatPositiveInfinity` ... `FloatNegativeInfinity`). Constants have no contract and no row of their own; the reserved-code clauses of `SFloatReference` and `FloatReference` state what each code decodes to.
- Sources/DataDecoder.swift, the legacy duplicate decoder outside the built target, is not part of this model.
- Negative positions and lengths: Swift accepts a negative `startIndex` or `length`, and the later range construction or `subdata` call then traps. The model uses `nat`, so those trapping calls cannot be written.
- The model assumes a 64-bit host, where `Int` and `UInt` have 64 bits. On a 32-bit host `decodeUInt48` shifts `UInt(val4) << 32` and `UInt(val5) << 40` out of its 32-bit `UInt`, giving only the value of bytes 0 to 3. The model always gives the six-byte value below 2^48.
- Buffers are 0-based sequences. A `Data` slice whose `startIndex` is not 0 makes `subdata(in:)` and `data[0]` use absolute indices, which the model does not represent.
- DataExtension.ScanAtLength: requires `length >= size`. With a shorter slice, `scanValue(start:length:)` reads past the slice's bytes through `pointee`, which is undefined memory access.
- Swift's trap on `Int` overflow of `index + size` is not modelled, because positions are unbounded integers.
- The Swift decoders are structs with value semantics (a copy has its own position). The model makes them classes: copying a decoder and reading from both copies is not modelled.
- MACAddresses.Uppercase: only ASCII letters are mapped. Swift's `uppercased()` also maps non-ASCII letters, and may change the string's length, for example ß becomes SS. Every MAC text the readers build is ASCII.
- MACAddresses.DataValue: states only a lower bound on the length for an arbitrary `stringValue`. The exact bytes are stated for addresses built from 6 bytes (`MACAddresses.DataValueOfFromData`).
- The `|` and `<<` assembly of the 24- and 48-bit readers is written as addition of multiples of powers of 256. `Readers.OrOfShiftedBytes24` and `Readers.OrOfShiftedBytes48` show that on bytes the two agree.
- `ANTToggleByte(pageNumber:toggled:)` and `Nibble(lower:upper:)` are the datatype constructors. They store their fields unchanged, as the Swift initialisers do.

## Findings

| source | as written | input that shows it | evidently intended | confidence | as-written member | corrected member |
|---|---|---|---|---|---|---|
| Sources/DataDecoder/Decoder.swift:173 (and Sources/DataDecoder/DataDecoder.swift:133) | `val2 & 0x80 == 1` parses as `(val2 & 0x80) == 1`, which is never true. `decodeInt24` therefore always returns the unsigned value. | bytes 00 00 80 read as 8388608 | a 24-bit two's-complement reading, giving -8388608 for 00 00 80 | not executed | Readers.Int24AsWritten | Readers.Int24Value |

The decoder methods follow the code as written: `DecodeInt24` ensures the
as-written value, and `Readers.Int24SignBitIgnored` and
`Scenarios.Int24Example` exhibit the discrepancy. `Readers.Int24Value` is
the corrected reading, and `Readers.Int24ValueRoundTrip` proves that it
inverts 24-bit two's-complement encoding. Reaching the dead branch would not
fix the reader on a 64-bit host either. There it ORs `0xFF << 24` into a
64-bit `Int`, which gives a large positive number rather than a negative one.
Only with a 32-bit `Int` would that branch sign-extend.

On SFLOAT the model follows the code. `tmpValue >> 12` on an `Int16` is an
arithmetic shift, so both readers already see a signed exponent.
`IEEE11073.SFloatMatchesReference` shows that the `exponent >= 0x0008` fix
in `DecodeData` never fires, and `IEEE11073.SFloatVariantsAgree` shows that
the two readers agree on every input.
