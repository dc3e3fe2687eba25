/**
 * The string descriptors of the USB Device side (usb_descriptors.c): the callback that answers GET
 * STRING DESCRIPTOR by filling a static buffer of 32 UTF-16 code units with a header word (bLength in
 * the low byte, bDescriptorType in the high byte, as in section 9.6.7 of the USB 2.0 specification)
 * followed by the string, each ASCII byte zero-extended to one code unit.
 */
module UsbDescriptors {
  import opened Common

  /** TUSB_DESC_STRING, the descriptor type of a string descriptor. */
  const DESC_STRING: uint8 := 0x03

  /** Code units in _desc_str, header included. */
  const DESC_STR_UNITS: nat := 32

  /** The most characters a descriptor carries: every unit after the header. */
  const MAX_CHARS: nat := 31

  /** The ASCII bytes of a string literal (char is one byte; these literals are plain ASCII). */
  function Bytes(s: string): (r: seq<uint8>)
    ensures |r| == |s|
  {
    seq(|s|, i requires 0 <= i < |s| => (s[i] as int) % 0x100)
  }

  /**
   * string_desc_arr: entry 0 is the two bytes of the supported language ID, English (United States)
   * 0x0409 stored low byte first; entries 1..3 are the manufacturer, product and serial strings, up to
   * their terminating NUL.
   */
  const STRING_TABLE: seq<seq<uint8>> := [
    [0x09, 0x04],
    Bytes("Mihashi Dev Project"),
    Bytes("Mihashi USB MIDI Bridge"),
    Bytes("MDB001")
  ]

  /** The 16-bit value memcpy leaves from two bytes on the little-endian RP2350. */
  function LittleEndian16(lo: uint8, hi: uint8): (r: uint16)
    ensures r % 0x100 == lo && r / 0x100 == hi
  {
    lo + 0x100 * hi
  }

  /**
   * Header word: (TUSB_DESC_STRING << 8) | (2 * chr_count + 2). With at most 31 characters the length
   * stays below 0x100, so the bitwise or is a sum.
   */
  function Header(charCount: nat): (r: uint16)
    requires charCount <= MAX_CHARS
    ensures r % 0x100 == 2 * charCount + 2 && r / 0x100 == DESC_STRING
  {
    DESC_STRING * 0x100 + (2 * charCount + 2)
  }

  /** chr_count for a string: strlen truncated to the uint8 it is stored in, then capped at 31. */
  function CharCount(str: seq<uint8>): (n: nat)
    ensures n <= MAX_CHARS && n <= |str|
  {
    var len := |str| % 0x100;
    if len > MAX_CHARS then MAX_CHARS else len
  }

  /** The strings of the table are short, so their count is simply min(strlen, 31). */
  lemma TableCharCount(index: nat)
    requires 1 <= index < |STRING_TABLE|
    ensures CharCount(STRING_TABLE[index]) == if |STRING_TABLE[index]| > MAX_CHARS then MAX_CHARS else |STRING_TABLE[index]|
  {
  }

  /** Zero-extension of each byte to a UTF-16 code unit. */
  function Widen(s: seq<uint8>): (r: seq<uint16>)
    ensures |r| == |s|
  {
    seq(|s|, i requires 0 <= i < |s| => s[i] as uint16)
  }

  /** The descriptor for a text string: the header, then the first CharCount(str) bytes widened. */
  function TextDescriptor(str: seq<uint8>): (d: seq<uint16>)
    ensures 1 <= |d| <= DESC_STR_UNITS
  {
    [Header(CharCount(str))] + Widen(str[..CharCount(str)])
  }

  /** The descriptor the callback leaves at the start of _desc_str for a supported index. */
  function StringDescriptor(index: nat): (d: seq<uint16>)
    requires index < |STRING_TABLE|
    ensures 1 <= |d| <= DESC_STR_UNITS
  {
    if index == 0 then [Header(1), LittleEndian16(STRING_TABLE[0][0], STRING_TABLE[0][1])]
    else TextDescriptor(STRING_TABLE[index])
  }

  /** bLength, the low byte of the header word. */
  function DescLength(d: seq<uint16>): uint8
    requires d != []
  {
    d[0] % 0x100
  }

  /** bDescriptorType, the high byte of the header word. */
  function DescType(d: seq<uint16>): uint8
    requires d != []
  {
    d[0] / 0x100
  }

  /** The ASCII text carried by the code units after the header (the low byte of each unit). */
  function Narrow(units: seq<uint16>): (r: seq<uint8>)
    ensures |r| == |units|
  {
    seq(|units|, i requires 0 <= i < |units| => units[i] % 0x100)
  }

  /** Narrowing undoes zero-extension. */
  lemma NarrowWiden(s: seq<uint8>)
    ensures Narrow(Widen(s)) == s
  {
  }

  /**
   * Every text descriptor is well formed: type STRING, and bLength counts the bytes of the whole
   * descriptor (two per code unit, header included), at most 64.
   */
  lemma TextDescriptorHeader(str: seq<uint8>)
    ensures DescType(TextDescriptor(str)) == DESC_STRING
    ensures DescLength(TextDescriptor(str)) == 2 * |TextDescriptor(str)| <= 2 * DESC_STR_UNITS
  {
  }

  /** Index 0 carries the single language ID 0x0409 behind the header 0x0304. */
  lemma LanguageDescriptor()
    ensures StringDescriptor(0) == [0x0304, 0x0409]
  {
  }

  /** Decoding a text descriptor gives back the string, cut to its first CharCount(str) bytes. */
  lemma TextRoundTrip(str: seq<uint8>)
    ensures Narrow(TextDescriptor(str)[1..]) == str[..CharCount(str)]
  {
    assert TextDescriptor(str)[1..] == Widen(str[..CharCount(str)]);
    NarrowWiden(str[..CharCount(str)]);
  }

  /** The static _desc_str buffer the callback returns a pointer to. */
  class StringDescriptors {
    const descStr: array<uint16>

    constructor ()
      ensures descStr.Length == DESC_STR_UNITS && fresh(descStr)
    {
      descStr := new uint16[DESC_STR_UNITS](_ => 0);
    }

    /**
     * tud_descriptor_string_cb: for a supported index fill the start of _desc_str with its descriptor
     * and return it (ok); any other index returns NULL (!ok) and writes nothing. Only the units the
     * descriptor occupies are written, and langid plays no part.
     */
    method StringCallback(index: uint8, langid: uint16) returns (ok: bool)
      requires descStr.Length == DESC_STR_UNITS
      modifies descStr
      ensures ok == (index < |STRING_TABLE|)
      ensures !ok ==> descStr[..] == old(descStr[..])
      ensures ok ==> descStr[..|StringDescriptor(index)|] == StringDescriptor(index) &&
                     descStr[|StringDescriptor(index)|..] == old(descStr[|StringDescriptor(index)|..])
    {
      var charCount: nat;
      if index == 0 {
        descStr[1] := LittleEndian16(STRING_TABLE[0][0], STRING_TABLE[0][1]);
        charCount := 1;
      } else {
        if !(index < |STRING_TABLE|) {
          return false;
        }
        var str := STRING_TABLE[index];
        charCount := |str| % 0x100;  // chr_count is a uint8
        if charCount > MAX_CHARS {
          charCount := MAX_CHARS;
        }
        WidenInto(str, charCount);
      }
      descStr[0] := Header(charCount);
      ok := true;
      assert descStr[..|StringDescriptor(index)|] == [descStr[0]] + descStr[1..1 + charCount];
    }

    /** The conversion loop of tud_descriptor_string_cb: _desc_str[1 + i] = str[i] for i < charCount, nothing else written. */
    method WidenInto(str: seq<uint8>, charCount: nat)
      requires descStr.Length == DESC_STR_UNITS && charCount <= MAX_CHARS && charCount <= |str|
      modifies descStr
      ensures descStr[1..1 + charCount] == Widen(str[..charCount])
      ensures descStr[0] == old(descStr[0]) && descStr[1 + charCount..] == old(descStr[1 + charCount..])
    {
      for i := 0 to charCount
        invariant descStr[1..1 + i] == Widen(str[..i])
        invariant descStr[1 + charCount..] == old(descStr[1 + charCount..])
        invariant descStr[0] == old(descStr[0])
      {
        descStr[1 + i] := str[i] as uint16;
        assert Widen(str[..i + 1]) == Widen(str[..i]) + [str[i] as uint16];
      }
    }
  }
}
