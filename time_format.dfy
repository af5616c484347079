/** The elapsed-time label the recording service publishes once a second:
    two zero-padded components joined as `MM:SS`. */
module TimeFormat {

  predicate IsDigit(c: char) {
    '0' <= c <= '9'
  }

  predicate AllDigits(s: string) {
    forall i | 0 <= i < |s| :: IsDigit(s[i])
  }

  function DigitChar(d: nat): (c: char)
    requires d < 10
    ensures IsDigit(c)
  {
    ('0' as int + d) as char
  }

  function DigitValue(c: char): (d: nat)
    requires IsDigit(c)
    ensures d < 10 && DigitChar(d) == c
  {
    c as int - '0' as int
  }

  /** The plain decimal rendering of a number, as JavaScript's number-to-string
      conversion produces it for the integers the service renders: time
      components below 60 and `Date.getTime()` timestamps, all far below 1e21,
      from which JavaScript would switch to exponent notation. */
  function Decimal(n: nat): (r: string)
    ensures 1 <= |r| && AllDigits(r)
    ensures r[0] == '0' <==> n == 0
    ensures |r| == 1 <==> n < 10
  {
    if n < 10 then [DigitChar(n)] else Decimal(n / 10) + [DigitChar(n % 10)]
  }

  /** Reads a string of decimal digits back as a number (the partner of `Decimal`). */
  function ParseDecimal(s: string): nat
    requires AllDigits(s)
  {
    if s == [] then 0 else ParseDecimal(s[..|s| - 1]) * 10 + DigitValue(s[|s| - 1])
  }

  lemma {:induction false} DecimalRoundTrip(n: nat)
    ensures ParseDecimal(Decimal(n)) == n
  {
    if n >= 10 {
      var p := Decimal(n / 10);
      assert Decimal(n)[..|Decimal(n)| - 1] == p;
      DecimalRoundTrip(n / 10);
    }
  }

  /** The service's `toString`: a value below ten gets a leading "0", any other
      value is left as it is and so renders as its plain digits. The first
      assignment (of "00" to a falsy value) is always overwritten for a number,
      because zero is also below ten. */
  function ToString(v: nat): string
  {
    var val := if v == 0 then "00" else Decimal(v);
    if v < 10 then "0" + Decimal(v) else val
  }

  /** Zero renders as "00" and a single digit gets one leading zero. */
  lemma ToStringSmall(v: nat)
    requires v < 10
    ensures ToString(v) == ['0', DigitChar(v)]
    ensures v == 0 ==> ToString(v) == "00"
  {
  }

  /** From ten upwards the value is left unchanged: its plain decimal digits. */
  lemma ToStringLarge(v: nat)
    requires v >= 10
    ensures ToString(v) == Decimal(v)
    ensures ParseDecimal(ToString(v)) == v
  {
    DecimalRoundTrip(v);
  }

  /** Below one hundred the rendering is exactly two digits that read back as the value. */
  lemma ToStringTwoDigits(v: nat)
    requires v < 100
    ensures |ToString(v)| == 2 && AllDigits(ToString(v))
    ensures ParseDecimal(ToString(v)) == v
  {
    if v < 10 {
      assert ToString(v) == ['0', DigitChar(v)];
      assert ToString(v)[..1] == ['0'];
      assert ParseDecimal(['0']) == 0 by { assert ['0'][..0] == []; }
    } else {
      assert |Decimal(v / 10)| == 1;
      DecimalRoundTrip(v);
    }
  }

  /** The tick's label: minutes and seconds joined by a colon. */
  function TimeLabel(minutes: nat, seconds: nat): string
  {
    ToString(minutes) + ":" + ToString(seconds)
  }

  /** Reads an `MM:SS` label back into its two components. */
  function ParseLabel(s: string): (nat, nat)
    requires |s| == 5 && AllDigits(s[..2]) && AllDigits(s[3..])
  {
    (ParseDecimal(s[..2]), ParseDecimal(s[3..]))
  }

  /** For components in 0..59 the label is five characters, digits around a
      colon at index 2, and it reads back as the two components. */
  lemma TimeLabelShape(minutes: nat, seconds: nat)
    requires minutes < 60 && seconds < 60
    ensures var r := TimeLabel(minutes, seconds);
      |r| == 5 && r[2] == ':' &&
      IsDigit(r[0]) && IsDigit(r[1]) && IsDigit(r[3]) && IsDigit(r[4]) &&
      AllDigits(r[..2]) && AllDigits(r[3..]) &&
      ParseLabel(r) == (minutes, seconds)
  {
    var r := TimeLabel(minutes, seconds);
    ToStringTwoDigits(minutes);
    ToStringTwoDigits(seconds);
    assert r[..2] == ToString(minutes);
    assert r[3..] == ToString(seconds);
  }

  /** Distinct component pairs give distinct labels. */
  lemma TimeLabelInjective(m1: nat, s1: nat, m2: nat, s2: nat)
    requires m1 < 60 && s1 < 60 && m2 < 60 && s2 < 60
    requires TimeLabel(m1, s1) == TimeLabel(m2, s2)
    ensures m1 == m2 && s1 == s2
  {
    TimeLabelShape(m1, s1);
    TimeLabelShape(m2, s2);
  }

  /** The minutes component of a millisecond duration: the whole minutes
      within the current hour, so it wraps at an hour. */
  function Minutes(ms: nat): (m: nat)
    ensures m < 60
    ensures m * 60000 <= ms % 3600000 < (m + 1) * 60000
  {
    (ms / 60000) % 60
  }

  /** The seconds component of a millisecond duration: the whole seconds
      within the current minute, so it wraps at a minute. */
  function Seconds(ms: nat): (s: nat)
    ensures s < 60
    ensures s * 1000 <= ms % 60000 < (s + 1) * 1000
  {
    (ms / 1000) % 60
  }

  /** The label a tick publishes `ms` milliseconds after the start. */
  function ElapsedLabel(ms: nat): string
  {
    TimeLabel(Minutes(ms), Seconds(ms))
  }

  /** Every tick label is `MM:SS` and reads back as the wrapped minutes and
      seconds of the elapsed time; the start itself reads "00:00". */
  lemma ElapsedLabelShape(ms: nat)
    ensures |ElapsedLabel(ms)| == 5 && ElapsedLabel(ms)[2] == ':'
    ensures AllDigits(ElapsedLabel(ms)[..2]) && AllDigits(ElapsedLabel(ms)[3..])
    ensures ParseLabel(ElapsedLabel(ms)) == (Minutes(ms), Seconds(ms))
    ensures ms < 1000 ==> ElapsedLabel(ms) == "00:00"
  {
    TimeLabelShape(Minutes(ms), Seconds(ms));
    if ms < 1000 {
      ToStringSmall(0);
    }
  }
}
