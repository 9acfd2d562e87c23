/**
  Device identity strings derived from the 6-byte WiFi base MAC address:
  - the display form printed with `%02X:%02X:%02X:%02X:%02X:%02X`
    (src/OXRS_32.cpp:104-105 and 377-378), and
  - the default MQTT client id printed with `%02x%02x%02x` from the last
    three bytes (src/OXRS_32.cpp:401-402).

  Each is paired with a parser for its format, and the two are proved to be
  inverse to each other.
*/
module Identity {
  import opened Json

  /** An unsigned 8-bit value, as held in `byte mac[6]`. */
  newtype byte = x: int | 0 <= x < 256

  /** A hexadecimal digit of the requested case. */
  predicate IsHexDigit(c: char, upper: bool) {
    ('0' <= c <= '9') || (if upper then 'A' <= c <= 'F' else 'a' <= c <= 'f')
  }

  /** The value of a hexadecimal digit of either case. */
  function DigitValue(c: char): (n: int)
    requires IsHexDigit(c, true) || IsHexDigit(c, false)
    ensures 0 <= n < 16
  {
    if '0' <= c <= '9' then c as int - '0' as int
    else if 'A' <= c <= 'F' then c as int - 'A' as int + 10
    else c as int - 'a' as int + 10
  }

  /** The digit `printf` writes for a value below 16. */
  function HexDigit(n: int, upper: bool): (c: char)
    requires 0 <= n < 16
    ensures IsHexDigit(c, upper) && DigitValue(c) == n
  {
    if n < 10 then ('0' as int + n) as char
    else if upper then ('A' as int + n - 10) as char
    else ('a' as int + n - 10) as char
  }

  /** A digit is the one `HexDigit` writes for its own value. */
  lemma DigitRoundTrip(c: char, upper: bool)
    requires IsHexDigit(c, upper)
    ensures HexDigit(DigitValue(c), upper) == c
  {
  }

  /** The byte two hexadecimal digits stand for. */
  function ParseByte(hi: char, lo: char): byte
    requires IsHexDigit(hi, true) || IsHexDigit(hi, false)
    requires IsHexDigit(lo, true) || IsHexDigit(lo, false)
  {
    (16 * DigitValue(hi) + DigitValue(lo)) as byte
  }

  /** `%02X` (upper) or `%02x` (lower) of one byte: always exactly two digits,
      which read back as that byte. */
  function Hex2(b: byte, upper: bool): (s: string)
    ensures |s| == 2 && IsHexDigit(s[0], upper) && IsHexDigit(s[1], upper)
    ensures ParseByte(s[0], s[1]) == b
  {
    [HexDigit(b as int / 16, upper), HexDigit(b as int % 16, upper)]
  }

  /** Two digits of the requested case are what `Hex2` writes for the byte
      they stand for. */
  lemma Hex2OfParse(hi: char, lo: char, upper: bool)
    requires IsHexDigit(hi, upper) && IsHexDigit(lo, upper)
    ensures Hex2(ParseByte(hi, lo), upper) == [hi, lo]
  {
    DigitRoundTrip(hi, upper);
    DigitRoundTrip(lo, upper);
  }

  /** `%02X` of each byte, joined by `:`. */
  function HexJoin(bs: seq<byte>): (s: string)
    requires |bs| >= 1
    ensures |s| == 3 * |bs| - 1
  {
    if |bs| == 1 then Hex2(bs[0], true) else Hex2(bs[0], true) + ":" + HexJoin(bs[1..])
  }

  /** Character `i` of a join: a `:` at every third position, otherwise a
      digit of the byte `i / 3`. */
  lemma {:induction false} HexJoinAt(bs: seq<byte>, i: nat)
    requires |bs| >= 1 && i < 3 * |bs| - 1
    ensures HexJoin(bs)[i] == if i % 3 == 2 then ':' else Hex2(bs[i / 3], true)[i % 3]
  {
    if |bs| > 1 && i >= 3 {
      HexJoinAt(bs[1..], i - 3);
      assert bs[1..][(i - 3) / 3] == bs[i / 3];
    }
  }

  /** The MAC address display form, `%02X:%02X:%02X:%02X:%02X:%02X`: 17
      characters, a `:` exactly at positions 2, 5, 8, 11 and 14, and two
      uppercase digits of byte `i / 3` everywhere else. */
  function MacDisplay(mac: seq<byte>): (s: string)
    requires |mac| == 6
    ensures |s| == 17
    ensures forall i :: 0 <= i < 17 ==> (s[i] == ':' <==> i % 3 == 2)
    ensures forall i :: 0 <= i < 17 && i % 3 != 2 ==>
      IsHexDigit(s[i], true) && s[i] == Hex2(mac[i / 3], true)[i % 3]
  {
    var s := HexJoin(mac);
    assert forall i :: 0 <= i < 17 ==> s[i] == if i % 3 == 2 then ':' else Hex2(mac[i / 3], true)[i % 3] by {
      forall i | 0 <= i < 17 ensures s[i] == if i % 3 == 2 then ':' else Hex2(mac[i / 3], true)[i % 3] {
        HexJoinAt(mac, i);
      }
    }
    s
  }

  /** Reads a MAC address display string back into its six bytes; `None` for
      anything not in that exact format. */
  function ParseMacDisplay(s: string): Option<seq<byte>> {
    if |s| == 17 && forall i :: 0 <= i < 17 ==> if i % 3 == 2 then s[i] == ':' else IsHexDigit(s[i], true) then
      Some(seq(6, j requires 0 <= j < 6 => ParseByte(s[3 * j], s[3 * j + 1])))
    else
      None
  }

  /** Digits `3j` and `3j + 1` of the display form read back as byte `j`. */
  lemma MacDisplayByte(mac: seq<byte>, j: nat)
    requires |mac| == 6 && j < 6
    ensures ParseByte(MacDisplay(mac)[3 * j], MacDisplay(mac)[3 * j + 1]) == mac[j]
  {
  }

  /** Parsing the display form gives the address back. */
  lemma MacDisplayRoundTrip(mac: seq<byte>)
    requires |mac| == 6
    ensures ParseMacDisplay(MacDisplay(mac)) == Some(mac)
  {
    var d := MacDisplay(mac);
    assert forall i :: 0 <= i < 17 ==> if i % 3 == 2 then d[i] == ':' else IsHexDigit(d[i], true);
    var p := ParseMacDisplay(d).value;
    forall j | 0 <= j < 6 ensures p[j] == mac[j] {
      MacDisplayByte(mac, j);
    }
    assert p == mac;
  }

  /** The only string that parses to an address is its display form. */
  lemma MacParsedIsDisplay(mac: seq<byte>, s: string)
    requires |mac| == 6
    requires ParseMacDisplay(s) == Some(mac)
    ensures s == MacDisplay(mac)
  {
    var d := MacDisplay(mac);
    forall i | 0 <= i < 17 ensures s[i] == d[i] {
      if i % 3 != 2 {
        var j := i / 3;
        Hex2OfParse(s[3 * j], s[3 * j + 1], true);
        assert mac[j] == ParseByte(s[3 * j], s[3 * j + 1]);
        assert i == 3 * j || i == 3 * j + 1;
      }
    }
  }

  /** The default MQTT client id, `%02x%02x%02x` of the last three address
      bytes: six lowercase digits, two per byte. */
  function DefaultClientId(mac: seq<byte>): (s: string)
    requires |mac| == 6
    ensures |s| == 6
    ensures forall i :: 0 <= i < 6 ==> IsHexDigit(s[i], false) && s[i] == Hex2(mac[3 + i / 2], false)[i % 2]
  {
    Hex2(mac[3], false) + Hex2(mac[4], false) + Hex2(mac[5], false)
  }

  /** Reads a client id back into three bytes; `None` unless it is exactly
      six lowercase digits. */
  function ParseClientId(s: string): Option<seq<byte>> {
    if |s| == 6 && forall i :: 0 <= i < 6 ==> IsHexDigit(s[i], false) then
      Some(seq(3, j requires 0 <= j < 3 => ParseByte(s[2 * j], s[2 * j + 1])))
    else
      None
  }

  /** The client id encodes exactly `mac[3..6]`, and is never empty. */
  lemma DefaultClientIdRoundTrip(mac: seq<byte>)
    requires |mac| == 6
    ensures DefaultClientId(mac) != []
    ensures ParseClientId(DefaultClientId(mac)) == Some(mac[3..6])
  {
    var d := DefaultClientId(mac);
    var h3, h4, h5 := Hex2(mac[3], false), Hex2(mac[4], false), Hex2(mac[5], false);
    assert d == h3 + h4 + h5;
    assert d[0] == h3[0] && d[1] == h3[1] && d[2] == h4[0] && d[3] == h4[1] && d[4] == h5[0] && d[5] == h5[1];
    assert ParseClientId(d).Some?;
    var p := ParseClientId(d).value;
    assert p == [ParseByte(h3[0], h3[1]), ParseByte(h4[0], h4[1]), ParseByte(h5[0], h5[1])];
    assert p == [mac[3], mac[4], mac[5]];
    assert mac[3..6] == [mac[3], mac[4], mac[5]];
  }

  /** The only string that parses to the last three address bytes is the
      default client id. */
  lemma ClientIdParsedIsDefault(mac: seq<byte>, s: string)
    requires |mac| == 6
    requires ParseClientId(s) == Some(mac[3..6])
    ensures s == DefaultClientId(mac)
  {
    var p := ParseClientId(s).value;
    assert p[0] == mac[3] && p[1] == mac[4] && p[2] == mac[5];
    Hex2OfParse(s[0], s[1], false);
    Hex2OfParse(s[2], s[3], false);
    Hex2OfParse(s[4], s[5], false);
    assert s == [s[0], s[1]] + [s[2], s[3]] + [s[4], s[5]];
  }
}
