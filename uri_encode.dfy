/** ECMAScript `encodeURIComponent` over Unicode scalar values, and the title the
    recording service gives to a finished recording. */
module UriEncode {
  import opened Wrappers
  import opened TimeFormat

  /** The characters `encodeURIComponent` leaves as they are: ASCII letters,
      digits and the marks - _ . ! ~ * ' ( ). */
  predicate IsUnescaped(c: char) {
    ('A' <= c <= 'Z') || ('a' <= c <= 'z') || ('0' <= c <= '9') ||
    c == '-' || c == '_' || c == '.' || c == '!' || c == '~' ||
    c == '*' || c == '\'' || c == '(' || c == ')'
  }

  predicate AllUnescaped(s: string) {
    forall i | 0 <= i < |s| :: IsUnescaped(s[i])
  }

  predicate IsByte(b: nat) {
    b < 256
  }

  /** The UTF-8 encoding of one code point (section 3 of RFC 3629). */
  function Utf8(c: char): (r: seq<nat>)
    ensures 1 <= |r| <= 4
    ensures forall i | 0 <= i < |r| :: IsByte(r[i])
    ensures |r| == 1 <==> c as int < 0x80
    ensures |r| == 1 ==> r[0] == c as int
  {
    var cp := c as int;
    if cp < 0x80 then [cp]
    else if cp < 0x800 then [0xC0 + cp / 64, 0x80 + cp % 64]
    else if cp < 0x10000 then [0xE0 + cp / 4096, 0x80 + (cp / 64) % 64, 0x80 + cp % 64]
    else [0xF0 + cp / 262144, 0x80 + (cp / 4096) % 64, 0x80 + (cp / 64) % 64, 0x80 + cp % 64]
  }

  predicate IsHexDigit(c: char) {
    ('0' <= c <= '9') || ('A' <= c <= 'F')
  }

  /** An upper-case hexadecimal digit. */
  function HexDigit(d: nat): (c: char)
    requires d < 16
    ensures IsUnescaped(c) && IsHexDigit(c) && HexValue(c) == d
  {
    "0123456789ABCDEF"[d]
  }

  /** The value of a hexadecimal digit (the partner of `HexDigit`). */
  function HexValue(c: char): (d: nat)
    requires IsHexDigit(c)
    ensures d < 16
  {
    if c <= '9' then c as int - '0' as int else c as int - 'A' as int + 10
  }

  /** One byte as `%XY`. */
  function Percent(b: nat): (r: string)
    requires IsByte(b)
    ensures |r| == 3 && r[0] == '%' && IsUnescaped(r[1]) && IsUnescaped(r[2])
    ensures IsHexDigit(r[1]) && IsHexDigit(r[2]) && HexValue(r[1]) * 16 + HexValue(r[2]) == b
  {
    ['%', HexDigit(b / 16), HexDigit(b % 16)]
  }

  function PercentAll(bs: seq<nat>): (r: string)
    requires forall i | 0 <= i < |bs| :: IsByte(bs[i])
    ensures |r| == 3 * |bs|
    ensures forall i | 0 <= i < |r| :: r[i] == '%' || IsUnescaped(r[i])
  {
    if bs == [] then [] else Percent(bs[0]) + PercentAll(bs[1..])
  }

  /** Reads a run of `%XY` triples back as bytes (the partner of `PercentAll`);
      `None` when the string is not such a run. */
  function UnPercent(s: string): Option<seq<nat>>
  {
    if s == [] then Some([])
    else if |s| >= 3 && s[0] == '%' && IsHexDigit(s[1]) && IsHexDigit(s[2]) then
      match UnPercent(s[3..])
      case Some(rest) => Some([HexValue(s[1]) * 16 + HexValue(s[2])] + rest)
      case None => None
    else None
  }

  /** Percent-encoding loses nothing: the triples read back as the bytes. */
  lemma {:induction false} PercentAllRoundTrip(bs: seq<nat>)
    requires forall i | 0 <= i < |bs| :: IsByte(bs[i])
    ensures UnPercent(PercentAll(bs)) == Some(bs)
  {
    if bs != [] {
      var head, tail := Percent(bs[0]), PercentAll(bs[1..]);
      assert PercentAll(bs) == head + tail;
      assert (head + tail)[3..] == tail;
      PercentAllRoundTrip(bs[1..]);
      assert bs == [bs[0]] + bs[1..];
    }
  }

  /** One character: itself when unescaped, otherwise its UTF-8 bytes percent-encoded. */
  function EncodeChar(c: char): string
  {
    if IsUnescaped(c) then [c] else PercentAll(Utf8(c))
  }

  /** ECMAScript `encodeURIComponent`. Dafny characters are Unicode scalar values,
      so the lone surrogates on which it throws cannot occur. */
  function EncodeURIComponent(s: string): string
  {
    if s == [] then [] else EncodeChar(s[0]) + EncodeURIComponent(s[1..])
  }

  /** A string of unescaped characters is its own encoding. */
  lemma {:induction false} EncodePlain(s: string)
    requires AllUnescaped(s)
    ensures EncodeURIComponent(s) == s
  {
    if s != [] {
      assert AllUnescaped(s[1..]) by {
        forall i | 0 <= i < |s[1..]| ensures IsUnescaped(s[1..][i]) {
          assert s[1..][i] == s[i + 1];
        }
      }
      EncodePlain(s[1..]);
      assert s == [s[0]] + s[1..];
    }
  }

  /** Encoding never shortens a string, and an escaped character makes it at
      least two characters longer. */
  lemma {:induction false} EncodeLength(s: string)
    ensures |EncodeURIComponent(s)| >= |s|
    ensures !AllUnescaped(s) ==> |EncodeURIComponent(s)| >= |s| + 2
  {
    if s != [] {
      EncodeLength(s[1..]);
      if IsUnescaped(s[0]) && !AllUnescaped(s) {
        var i :| 0 <= i < |s| && !IsUnescaped(s[i]);
        assert i > 0;
        assert !IsUnescaped(s[1..][i - 1]);
      }
    }
  }

  /** `encodeURIComponent` leaves a string unchanged exactly when every
      character of it is unescaped. */
  lemma EncodeIdentityIff(s: string)
    ensures EncodeURIComponent(s) == s <==> AllUnescaped(s)
  {
    EncodeLength(s);
    if AllUnescaped(s) {
      EncodePlain(s);
    }
  }

  /** The output holds only unescaped characters and the percent sign. */
  lemma {:induction false} EncodeOutputSafe(s: string)
    ensures forall i | 0 <= i < |EncodeURIComponent(s)| ::
      EncodeURIComponent(s)[i] == '%' || IsUnescaped(EncodeURIComponent(s)[i])
  {
    if s != [] {
      EncodeOutputSafe(s[1..]);
      var head, tail := EncodeChar(s[0]), EncodeURIComponent(s[1..]);
      assert EncodeURIComponent(s) == head + tail;
      forall i | 0 <= i < |head + tail| ensures (head + tail)[i] == '%' || IsUnescaped((head + tail)[i]) {
        if i >= |head| {
          assert (head + tail)[i] == tail[i - |head|];
        }
      }
    }
  }

  /** The title of a finished recording: `encodeURIComponent('video_' + ms + '.avi')`
      for the wall-clock time `ms` in milliseconds. */
  function Title(ms: nat): string
  {
    EncodeURIComponent("video_" + Decimal(ms) + ".avi")
  }

  /** The title needs no escaping: it is the prefix, the plain decimal
      timestamp and the extension, and the timestamp reads back from it. */
  lemma TitleIsPlain(ms: nat)
    ensures Title(ms) == "video_" + Decimal(ms) + ".avi"
    ensures |Title(ms)| == |Decimal(ms)| + 10
    ensures AllDigits(Title(ms)[6..|Title(ms)| - 4])
    ensures ParseDecimal(Title(ms)[6..|Title(ms)| - 4]) == ms
  {
    var raw := "video_" + Decimal(ms) + ".avi";
    forall i | 0 <= i < |raw| ensures IsUnescaped(raw[i]) {
      if 6 <= i < 6 + |Decimal(ms)| {
        assert raw[i] == Decimal(ms)[i - 6];
      }
    }
    EncodePlain(raw);
    assert raw[6..|raw| - 4] == Decimal(ms);
    DecimalRoundTrip(ms);
  }
}
