/** `formatTime`: whole seconds as an `HH:MM:SS` clock string. On a
    non-negative player time the floors in the component give exactly the
    fields of the time's whole seconds, so the model works on `nat`. */
module TimeFormat {

  predicate IsDigit(c: char) { '0' <= c <= '9' }

  predicate AllDigits(s: string) { forall i :: 0 <= i < |s| ==> IsDigit(s[i]) }

  function DigitChar(d: nat): (c: char)
    requires d < 10
    ensures IsDigit(c) && c as int - '0' as int == d
  {
    ('0' as int + d) as char
  }

  /** Decimal digits of `n` with no leading zero, as `${n}` prints it. */
  function NatToString(n: nat): string
    decreases n
  {
    if n < 10 then [DigitChar(n)] else NatToString(n / 10) + [DigitChar(n % 10)]
  }

  /** The value of a string of decimal digits (the reader's side). */
  function ParseNat(s: string): nat
    requires AllDigits(s)
  {
    if s == [] then 0
    else 10 * ParseNat(s[..|s| - 1]) + (s[|s| - 1] as int - '0' as int)
  }

  /** A number of at least two digits: `0${n}` below ten, `${n}` otherwise. */
  function Pad2(n: nat): string
  {
    if n < 10 then "0" + NatToString(n) else NatToString(n)
  }

  /** The three fields the component computes. */
  function Hours(seconds: nat): nat { seconds / 3600 }
  function Minutes(seconds: nat): nat { (seconds % 3600) / 60 }
  function Secs(seconds: nat): nat { seconds % 60 }

  /** `formatTime` as written: the hours field carries its colon only when
      it is a single digit. */
  function FormatTime(seconds: nat): (r: string)
    ensures |r| >= 7 && r[|r| - 3] == ':'
  {
    var hours := Hours(seconds);
    var minutes := Minutes(seconds);
    var secs := Secs(seconds);
    NatToStringRoundTrip(hours);
    NatToStringRoundTrip(minutes);
    NatToStringRoundTrip(secs);
    var formattedHours := if hours < 10 then "0" + NatToString(hours) + ":" else NatToString(hours);
    var formattedMinutes := if minutes < 10 then "0" + NatToString(minutes) + ":" else NatToString(minutes) + ":";
    var formattedSeconds := if secs < 10 then "0" + NatToString(secs) else NatToString(secs);
    formattedHours + formattedMinutes + formattedSeconds
  }

  /** `formatTime` with the colon after the hours field in both branches. */
  function FormatTimeIntended(seconds: nat): (r: string)
    ensures |r| >= 8 && r[|r| - 3] == ':' && r[|r| - 6] == ':'
  {
    var hours := Hours(seconds);
    var minutes := Minutes(seconds);
    var secs := Secs(seconds);
    NatToStringRoundTrip(hours);
    NatToStringRoundTrip(minutes);
    NatToStringRoundTrip(secs);
    var formattedHours := if hours < 10 then "0" + NatToString(hours) + ":" else NatToString(hours) + ":";
    var formattedMinutes := if minutes < 10 then "0" + NatToString(minutes) + ":" else NatToString(minutes) + ":";
    var formattedSeconds := if secs < 10 then "0" + NatToString(secs) else NatToString(secs);
    formattedHours + formattedMinutes + formattedSeconds
  }

  /** Reading back the decimal rendering gives the number; small numbers
      take one or two characters. */
  lemma {:induction false} NatToStringRoundTrip(n: nat)
    ensures AllDigits(NatToString(n)) && ParseNat(NatToString(n)) == n
    ensures |NatToString(n)| >= 1
    ensures n < 10 <==> |NatToString(n)| == 1
    ensures 10 <= n < 100 ==> |NatToString(n)| == 2
    decreases n
  {
    var s := NatToString(n);
    if n < 10 {
      assert s[..0] == [];
    } else {
      NatToStringRoundTrip(n / 10);
      var t := NatToString(n / 10);
      assert s == t + [DigitChar(n % 10)];
      assert s[..|s| - 1] == t;
    }
  }

  /** A padded field is all digits, at least two of them (exactly two below
      100), and reads back as the number. */
  lemma Pad2RoundTrip(n: nat)
    ensures AllDigits(Pad2(n)) && ParseNat(Pad2(n)) == n
    ensures |Pad2(n)| >= 2
    ensures n < 100 ==> |Pad2(n)| == 2
  {
    NatToStringRoundTrip(n);
    if n < 10 {
      var p := Pad2(n);
      assert p == ['0', DigitChar(n)];
      assert p[..1] == ['0'];
      assert ['0'][..0] == [];
    }
  }

  /** The fields recombine to the time, and minutes and seconds are below 60. */
  lemma ClockFields(seconds: nat)
    ensures Hours(seconds) * 3600 + Minutes(seconds) * 60 + Secs(seconds) == seconds
    ensures Minutes(seconds) < 60 && Secs(seconds) < 60
  {
    var q, r := seconds / 3600, seconds % 3600;
    assert seconds == q * 3600 + r;
    var a, b := r / 60, r % 60;
    assert r == a * 60 + b;
    assert seconds == (q * 60 + a) * 60 + b;
    assert seconds % 60 == b;
  }

  /** The version as written is an hours field (with its colon only below
      ten hours), the padded minutes, a colon and the padded seconds. */
  lemma FormatTimeFields(seconds: nat)
    ensures var h := Hours(seconds);
      FormatTime(seconds)
        == (if h < 10 then Pad2(h) + ":" else NatToString(h))
           + Pad2(Minutes(seconds)) + ":" + Pad2(Secs(seconds))
  {
  }

  /** The string always ends in ":SS", the seconds field as two digits. */
  lemma FormatTimeSecondsField(seconds: nat)
    ensures var r := FormatTime(seconds);
      && |r| >= 7 && r[|r| - 3] == ':'
      && AllDigits(r[|r| - 2..]) && ParseNat(r[|r| - 2..]) == Secs(seconds)
  {
    ClockFields(seconds);
    var h := Hours(seconds);
    Pad2RoundTrip(h);
    Pad2RoundTrip(Minutes(seconds));
    Pad2RoundTrip(Secs(seconds));
    NatToStringRoundTrip(h);
    FormatTimeFields(seconds);
    var head := (if h < 10 then Pad2(h) + ":" else NatToString(h)) + Pad2(Minutes(seconds));
    var ps := Pad2(Secs(seconds));
    var r := FormatTime(seconds);
    assert |head| >= 4 && |ps| == 2;
    assert r == head + ":" + ps;
    assert r[|r| - 2..] == ps;
  }

  /** Below ten hours the string is exactly `HH:MM:SS`, and its three fields
      read back as the time. */
  lemma FormatTimeUnderTenHours(seconds: nat)
    requires seconds < 36000
    ensures var r := FormatTime(seconds);
      && |r| == 8 && r[2] == ':' && r[5] == ':'
      && AllDigits(r[0..2]) && AllDigits(r[3..5]) && AllDigits(r[6..8])
      && ParseNat(r[0..2]) * 3600 + ParseNat(r[3..5]) * 60 + ParseNat(r[6..8]) == seconds
  {
    ClockFields(seconds);
    var h, m, s := Hours(seconds), Minutes(seconds), Secs(seconds);
    Pad2RoundTrip(h);
    Pad2RoundTrip(m);
    Pad2RoundTrip(s);
    FormatTimeFields(seconds);
    var r := FormatTime(seconds);
    assert r == Pad2(h) + ":" + Pad2(m) + ":" + Pad2(s);
    assert r[0..2] == Pad2(h);
    assert r[3..5] == Pad2(m);
    assert r[6..8] == Pad2(s);
  }

  /** The corrected version is the three padded fields joined by colons. */
  lemma FormatTimeIntendedFields(seconds: nat)
    ensures FormatTimeIntended(seconds)
         == Pad2(Hours(seconds)) + ":" + Pad2(Minutes(seconds)) + ":" + Pad2(Secs(seconds))
  {
  }

  /** The corrected version: whatever the number of hours, the last two
      colons split the string into hours, minutes and seconds that read back
      as the time. */
  lemma FormatTimeIntendedRoundTrip(seconds: nat)
    ensures var r := FormatTimeIntended(seconds);
      && |r| >= 8 && r[|r| - 3] == ':' && r[|r| - 6] == ':'
      && AllDigits(r[..|r| - 6]) && AllDigits(r[|r| - 5..|r| - 3]) && AllDigits(r[|r| - 2..])
      && ParseNat(r[..|r| - 6]) * 3600 + ParseNat(r[|r| - 5..|r| - 3]) * 60 + ParseNat(r[|r| - 2..]) == seconds
  {
    ClockFields(seconds);
    var h, m, s := Hours(seconds), Minutes(seconds), Secs(seconds);
    Pad2RoundTrip(h);
    Pad2RoundTrip(m);
    Pad2RoundTrip(s);
    FormatTimeIntendedFields(seconds);
    var r := FormatTimeIntended(seconds);
    var ph, pm, ps := Pad2(h), Pad2(m), Pad2(s);
    assert |pm| == 2 && |ps| == 2;
    assert r == ph + ":" + pm + ":" + ps;
    assert r[..|r| - 6] == ph;
    assert r[|r| - 5..|r| - 3] == pm;
    assert r[|r| - 2..] == ps;
  }

  /** Below ten hours the corrected version agrees with the version as written. */
  lemma FormatTimeIntendedAgrees(seconds: nat)
    requires seconds < 36000
    ensures FormatTimeIntended(seconds) == FormatTime(seconds)
  {
  }

  /** Ten hours as written: "1000:00" has a single colon, so a reader of
      `[HH:]MM:SS` sees 1000 minutes instead of 10 hours. */
  lemma FormatTimeTenHoursDropsColon()
    ensures FormatTime(36000) == "1000:00"
    ensures FormatTimeIntended(36000) == "10:00:00"
  {
    assert Hours(36000) == 10 && Minutes(36000) == 0 && Secs(36000) == 0;
    assert NatToString(1) == "1";
    assert NatToString(10) == NatToString(1) + [DigitChar(0)] == "10";
    assert NatToString(0) == "0";
  }
}
