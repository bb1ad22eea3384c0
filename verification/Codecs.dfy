/** The byte codecs: percent-encoding of query values and the hex form of a group key. */
module Codecs {
  import opened Basics

  newtype byte = x: int | 0 <= x < 256

  type Text = seq<byte>

  const PERCENT: byte := 0x25

  predicate IsDigit(b: byte) { 0x30 <= b <= 0x39 }

  predicate IsUpper(b: byte) { 0x41 <= b <= 0x5A }

  predicate IsLower(b: byte) { 0x61 <= b <= 0x7A }

  predicate IsAlphanumeric(b: byte) {
    IsDigit(b) || IsUpper(b) || IsLower(b)
  }

  /** The unreserved characters of section 2.3 of RFC 3986: letters, digits and `-._~`. */
  predicate IsUnreserved(b: byte) {
    IsAlphanumeric(b) || b == 0x2D || b == 0x2E || b == 0x5F || b == 0x7E
  }

  /** A hex digit in either case. */
  function HexValue(b: byte): Option<byte> {
    if IsDigit(b) then Some(b - 0x30)
    else if 0x61 <= b <= 0x66 then Some(b - 0x61 + 10)
    else if 0x41 <= b <= 0x46 then Some(b - 0x41 + 10)
    else None
  }

  function HexDigit(n: byte, upper: bool): (d: byte)
    requires n < 16
    ensures HexValue(d) == Some(n) && IsAlphanumeric(d)
  {
    if n < 10 then 0x30 + n else if upper then 0x41 + (n - 10) else 0x61 + (n - 10)
  }

  // ------------------------------------------------------------------ percent-encoding

  function EncodedByte(b: byte): Text {
    if IsUnreserved(b) then [b] else [PERCENT, HexDigit(b / 16, true), HexDigit(b % 16, true)]
  }

  function PercentEncoded(value: Text): Text {
    if value == [] then [] else EncodedByte(value[0]) + PercentEncoded(value[1..])
  }

  /** A percent sign followed by two hex digits. */
  predicate EscapeAt(value: Text, i: nat) {
    i + 2 < |value| && value[i] == PERCENT && HexValue(value[i + 1]).Some? && HexValue(value[i + 2]).Some?
  }

  function EscapedByte(value: Text, i: nat): byte
    requires EscapeAt(value, i)
  {
    var high, low := HexValue(value[i + 1]).value, HexValue(value[i + 2]).value;
    assert high < 16 && low < 16;
    high * 16 + low
  }

  function PercentDecoded(value: Text): Text {
    if value == [] then []
    else if EscapeAt(value, 0) then [EscapedByte(value, 0)] + PercentDecoded(value[3..])
    else [value[0]] + PercentDecoded(value[1..])
  }

  /** Whether decoding replaces anything. */
  predicate HasEscape(value: Text) {
    value != [] && (EscapeAt(value, 0) || HasEscape(value[1..]))
  }

  /** Decoding from `index` on, one escape or one byte at a time. */
  lemma DecodesFrom(value: Text, index: nat)
    requires index < |value|
    ensures PercentDecoded(value[index..])
            == (if EscapeAt(value, index) then [EscapedByte(value, index)] + PercentDecoded(value[index + 3..])
                else [value[index]] + PercentDecoded(value[index + 1..]))
    ensures HasEscape(value[index..]) == (EscapeAt(value, index) || HasEscape(value[index + 1..]))
  {
    var rest := value[index..];
    assert rest[1..] == value[index + 1..];
    assert EscapeAt(rest, 0) == EscapeAt(value, index);
    if EscapeAt(value, index) {
      assert rest[3..] == value[index + 3..];
    }
  }

  method PercentEncodeQueryValue(value: Text) returns (encoded: Text)
    ensures encoded == PercentEncoded(value)
  {
    encoded := [];
    for i := 0 to |value|
      invariant encoded + PercentEncoded(value[i..]) == PercentEncoded(value)
    {
      assert value[i..][1..] == value[i + 1..];
      encoded := encoded + EncodedByte(value[i]);
    }
  }

  /** The text with its escapes replaced, when there are any and the result is text again. */
  function PercentDecodeText(value: Text, utf8: Text -> bool): Option<Text> {
    if HasEscape(value) && utf8(PercentDecoded(value)) then Some(PercentDecoded(value)) else None
  }

  /** What is decoded so far, followed by what the rest decodes to. */
  ghost function Ahead(decoded: Text, value: Text, index: nat): Text
    requires index <= |value|
  {
    decoded + PercentDecoded(value[index..])
  }

  lemma AheadSteps(decoded: Text, value: Text, index: nat)
    requires index < |value|
    ensures Ahead(decoded, value, index)
            == (if EscapeAt(value, index) then Ahead(decoded + [EscapedByte(value, index)], value, index + 3)
                else Ahead(decoded + [value[index]], value, index + 1))
  {
    DecodesFrom(value, index);
  }

  method DecodePercent(value: Text, utf8: Text -> bool) returns (decoded: Option<Text>)
    ensures decoded == PercentDecodeText(value, utf8)
  {
    var bytes: Text := [];
    var index, changed := 0, false;
    ghost var whole, escaped := PercentDecoded(value), HasEscape(value);
    assert value[0..] == value;
    while index < |value|
      invariant index <= |value|
      invariant Ahead(bytes, value, index) == whole
      invariant (changed || HasEscape(value[index..])) == escaped
    {
      DecodesFrom(value, index);
      AheadSteps(bytes, value, index);
      if EscapeAt(value, index) {
        bytes := bytes + [EscapedByte(value, index)];
        index := index + 3;
        changed := true;
      } else {
        bytes := bytes + [value[index]];
        index := index + 1;
      }
    }
    assert value[index..] == [];
    assert bytes == whole;
    decoded := if changed && utf8(bytes) then Some(bytes) else None;
  }

  lemma {:induction false} DecodingShrinks(value: Text)
    ensures |PercentDecoded(value)| <= |value|
    ensures HasEscape(value) ==> |PercentDecoded(value)| + 2 <= |value|
  {
    if value != [] {
      if EscapeAt(value, 0) {
        DecodingShrinks(value[3..]);
      } else {
        DecodingShrinks(value[1..]);
      }
    }
  }

  lemma {:induction false} DecodesEncoded(value: Text)
    ensures PercentDecoded(PercentEncoded(value)) == value
    ensures HasEscape(PercentEncoded(value)) || PercentEncoded(value) == value
  {
    if value != [] {
      DecodesEncoded(value[1..]);
      var rest := PercentEncoded(value[1..]);
      var all := PercentEncoded(value);
      if IsUnreserved(value[0]) {
        assert all == [value[0]] + rest && all[1..] == rest;
      } else {
        assert all[3..] == rest;
        assert EscapeAt(all, 0) && EscapedByte(all, 0) == value[0];
      }
    }
  }

  /**
   * Percent-decoding undoes percent-encoding for every text: it gives the text back, or
   * reports no change because encoding changed nothing.
   */
  lemma PercentRoundTrip(value: Text, utf8: Text -> bool)
    requires utf8(value)
    ensures match PercentDecodeText(PercentEncoded(value), utf8)
            case Some(decoded) => decoded == value
            case None => PercentEncoded(value) == value
  {
    DecodesEncoded(value);
  }

  // ------------------------------------------------------------------ what the two codecs read and write

  /** Letters, digits and `-._~` stand for themselves. */
  predicate Plain(b: byte) {
    var c := b as char;
    'A' <= c <= 'Z' || 'a' <= c <= 'z' || '0' <= c <= '9' || c == '-' || c == '.' || c == '_' || c == '~'
  }

  /** A hex digit in either case and what it stands for. */
  predicate Stands(b: byte, n: int) {
    var c := b as char;
    || ('0' <= c <= '9' && n == b as int - '0' as int)
    || ('a' <= c <= 'f' && n == 10 + b as int - 'a' as int)
    || ('A' <= c <= 'F' && n == 10 + b as int - 'A' as int)
  }

  lemma HexValueStands(b: byte, n: int)
    ensures Stands(b, n) <==> HexValue(b).Some? && HexValue(b).value as int == n
  {}

  /** A plain byte is left as it is; any other becomes a percent sign and its two hex digits. */
  lemma OneByteIsEncoded(b: byte)
    ensures var code := PercentEncoded([b]);
            if Plain(b) then code == [b]
            else |code| == 3 && code[0] == 0x25 && !Stands(code[1], 16)
                 && Stands(code[1], b as int / 16) && Stands(code[2], b as int % 16)
                 && !('a' <= code[1] as char) && !('a' <= code[2] as char)
  {
    assert [b][1..] == [];
    if !IsUnreserved(b) {
      HexValueStands(HexDigit(b / 16, true), b as int / 16);
      HexValueStands(HexDigit(b % 16, true), b as int % 16);
    }
  }

  /** Texts are encoded byte by byte. */
  lemma {:induction false} EncodingIsBytewise(a: Text, b: Text)
    ensures PercentEncoded(a + b) == PercentEncoded(a) + PercentEncoded(b)
  {
    if a == [] {
      assert a + b == b;
    } else {
      assert (a + b)[1..] == a[1..] + b;
      EncodingIsBytewise(a[1..], b);
    }
  }

  /** Decoding copies a text up to its first percent sign. */
  lemma {:induction false} DecodingCopies(plain: Text, rest: Text)
    requires 0x25 !in plain
    ensures PercentDecoded(plain + rest) == plain + PercentDecoded(rest) && HasEscape(plain + rest) == HasEscape(rest)
  {
    if plain == [] {
      assert plain + rest == rest;
    } else {
      assert (plain + rest)[0] == plain[0] && plain[0] in plain;
      assert (plain + rest)[1..] == plain[1..] + rest;
      DecodingCopies(plain[1..], rest);
    }
  }

  /** At a percent sign it reads two hex digits as one byte; without two of them the sign stands for itself. */
  lemma DecodingReads(rest: Text)
    ensures var value := [0x25] + rest;
            if exists high: nat, low: nat :: DigitsAt(rest, high, low) then
              HasEscape(value) && forall high: nat, low: nat | DigitsAt(rest, high, low) ::
                high * 16 + low < 256
                && PercentDecoded(value) == [(high * 16 + low) as byte] + PercentDecoded(rest[2..])
            else PercentDecoded(value) == [0x25] + PercentDecoded(rest) && HasEscape(value) == HasEscape(rest)
  {
    var value := [0x25] + rest;
    assert value[1..] == rest;
    if 2 <= |rest| && HexValue(rest[0]).Some? && HexValue(rest[1]).Some? {
      var high, low := HexValue(rest[0]).value, HexValue(rest[1]).value;
      HexValueStands(rest[0], high as int);
      HexValueStands(rest[1], low as int);
      assert EscapeAt(value, 0) && value[3..] == rest[2..];
      assert DigitsAt(rest, high as nat, low as nat);
      forall n: nat, m: nat | DigitsAt(rest, n, m) ensures n == high as nat && m == low as nat {
        HexValueStands(rest[0], n);
        HexValueStands(rest[1], m);
      }
    } else {
      forall n: nat, m: nat ensures !DigitsAt(rest, n, m) {
        if DigitsAt(rest, n, m) {
          HexValueStands(rest[0], n);
          HexValueStands(rest[1], m);
        }
      }
    }
  }

  predicate DigitsAt(rest: Text, high: nat, low: nat) {
    2 <= |rest| && Stands(rest[0], high) && Stands(rest[1], low)
  }

  // ------------------------------------------------------------------ group markers

  function Hex(value: Text): Text {
    if value == [] then [] else [HexDigit(value[0] / 16, false), HexDigit(value[0] % 16, false)] + Hex(value[1..])
  }

  /** `g` and the key's bytes in lower-case hex. */
  function GroupMarker(key: Text): Text {
    [0x67] + Hex(key)
  }

  method RenderGroupMarker(key: Text) returns (marker: Text)
    ensures marker == GroupMarker(key)
  {
    marker := [0x67];
    for i := 0 to |key|
      invariant marker + Hex(key[i..]) == GroupMarker(key)
    {
      assert key[i..][1..] == key[i + 1..];
      marker := marker + [HexDigit(key[i] / 16, false)];
      marker := marker + [HexDigit(key[i] % 16, false)];
    }
  }

  /** Pairs of hex digits in either case; nothing for an odd length or any other character. */
  function DecodeHex(value: Text): Option<Text> {
    if |value| % 2 != 0 then None
    else if value == [] then Some([])
    else
      var pair, rest := HexPair(value[0], value[1]), DecodeHex(value[2..]);
      if pair.Some? && rest.Some? then Some([pair.value] + rest.value) else None
  }

  function HexPair(high: byte, low: byte): Option<byte> {
    HexValueIsNibble(high);
    HexValueIsNibble(low);
    if HexValue(high).Some? && HexValue(low).Some?
    then Some(HexValue(high).value * 16 + HexValue(low).value)
    else None
  }

  lemma HexValueIsNibble(b: byte)
    ensures HexValue(b).Some? ==> HexValue(b).value < 16
  {}

  lemma PairDecodes(b: byte)
    ensures HexPair(HexDigit(b / 16, false), HexDigit(b % 16, false)) == Some(b)
  {
    assert b as int == (b as int / 16) * 16 + b as int % 16;
  }

  lemma {:induction false} HexRoundTrip(value: Text)
    ensures DecodeHex(Hex(value)) == Some(value)
    ensures |Hex(value)| == 2 * |value|
    ensures forall b | b in Hex(value) :: IsDigit(b) || 0x61 <= b <= 0x66
  {
    if value != [] {
      HexRoundTrip(value[1..]);
      PairDecodes(value[0]);
      assert Hex(value)[2..] == Hex(value[1..]);
      assert [value[0]] + value[1..] == value;
    }
  }

  /** A marker is `g` and lower-case hex digits, two for each byte of the key, and these decode to the key. */
  lemma MarkerRoundTrip(key: Text)
    ensures DecodeHex(GroupMarker(key)[1..]) == Some(key)
    ensures |GroupMarker(key)| == 1 + 2 * |key| && GroupMarker(key)[0] as char == 'g'
    ensures forall b | b in GroupMarker(key)[1..] :: '0' <= b as char <= '9' || 'a' <= b as char <= 'f'
    ensures forall b | b in GroupMarker(key) :: IsAlphanumeric(b)
  {
    HexRoundTrip(key);
    assert GroupMarker(key)[1..] == Hex(key);
  }

  /** Distinct group keys never share a marker. */
  lemma MarkersAreInjective(a: Text, b: Text)
    requires GroupMarker(a) == GroupMarker(b)
    ensures a == b
  {
    MarkerRoundTrip(a);
    MarkerRoundTrip(b);
  }
}
