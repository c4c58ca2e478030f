/** The clock display of the mixer (`formatTime` in App.tsx): minutes, a
    colon, and seconds padded to two digits. Non-finite inputs (NaN and the
    infinities) are not reals; the caller says whether the input was finite. */
module TimeFormat {
  import opened JsMath

  datatype Option<T> = None | Some(value: T)

  // ---------------------------------------------------------------------------
  // Decimal digits, as `toString` writes them

  function DigitChar(d: int): char
    requires 0 <= d < 10
  {
    "0123456789"[d]
  }

  predicate IsDigit(c: char) {
    '0' <= c <= '9'
  }

  predicate AllDigits(s: string) {
    forall i :: 0 <= i < |s| ==> IsDigit(s[i])
  }

  /** `n.toString()` for a whole number: its decimal digits, with no
      leading zero. */
  function NatToString(n: nat): (s: string)
    ensures |s| > 0 && AllDigits(s)
    ensures n < 10 ==> |s| == 1
    ensures n >= 10 ==> |s| >= 2
    ensures s[0] == '0' <==> n == 0
  {
    if n < 10 then [DigitChar(n)] else NatToString(n / 10) + [DigitChar(n % 10)]
  }

  /** `n.toString()` for an integer: a minus sign exactly for a negative
      number, then the digits of its magnitude. */
  function IntToString(n: int): (s: string)
    ensures |s| > 0
    ensures s[0] == '-' <==> n < 0
    ensures n >= 0 ==> AllDigits(s)
    ensures n < 0 ==> |s| >= 2 && AllDigits(s[1..])
  {
    if n < 0 then "-" + NatToString(-n) else NatToString(n)
  }

  /** The value of a string of decimal digits. */
  function ParseNat(s: string): nat
    requires AllDigits(s)
  {
    if |s| == 0 then 0 else 10 * ParseNat(s[..|s| - 1]) + (s[|s| - 1] as int - '0' as int)
  }

  lemma {:induction false} NatRoundTrip(n: nat)
    ensures ParseNat(NatToString(n)) == n
  {
    if n >= 10 {
      var s := NatToString(n);
      assert s[..|s| - 1] == NatToString(n / 10);
      NatRoundTrip(n / 10);
    }
  }

  /** The value of an optional minus sign followed by decimal digits, or
      None for any other string. */
  function ParseInt(s: string): (r: Option<int>)
    ensures r.Some? <==> |s| > 0 && (if s[0] == '-' then |s| >= 2 && AllDigits(s[1..]) else AllDigits(s))
    ensures r.Some? && s[0] != '-' ==> r.value >= 0
    ensures r.Some? && s[0] == '-' ==> r.value <= 0
  {
    if |s| == 0 then None
    else if s[0] == '-' then
      if |s| >= 2 && AllDigits(s[1..]) then Some(0 - ParseNat(s[1..]) as int) else None
    else if AllDigits(s) then Some(ParseNat(s))
    else None
  }

  /** Reading back what `toString` wrote gives the integer. */
  lemma IntRoundTrip(n: int)
    ensures ParseInt(IntToString(n)) == Some(n)
  {
    if n < 0 {
      var m: nat := -n;
      assert IntToString(n) == "-" + NatToString(m);
      ParseSigned(m);
    } else {
      var m: nat := n;
      assert IntToString(n) == NatToString(m);
      ParseUnsigned(m);
    }
  }

  lemma ParseSigned(m: nat)
    ensures ParseInt("-" + NatToString(m)) == Some(0 - m as int)
  {
    var digits := NatToString(m);
    var s := "-" + digits;
    assert s[0] == '-' && s[1..] == digits;
    NatRoundTrip(m);
  }

  lemma ParseUnsigned(m: nat)
    ensures ParseInt(NatToString(m)) == Some(m)
  {
    var digits := NatToString(m);
    assert IsDigit(digits[0]);
    NatRoundTrip(m);
  }

  /** `s.padStart(2, '0')`. */
  function PadTwo(s: string): (r: string)
    ensures |s| >= 2 ==> r == s
    ensures |s| < 2 ==> |r| == 2 && r[2 - |s|..] == s && forall i :: 0 <= i < 2 - |s| ==> r[i] == '0'
  {
    if |s| >= 2 then s else seq(2 - |s|, _ => '0') + s
  }

  // ---------------------------------------------------------------------------
  // formatTime

  /** `formatTime(seconds)`: "0:00" for 0 and for a non-finite input;
      otherwise `Math.floor(seconds / 60)`, a colon, and
      `Math.floor(seconds % 60)` padded to two characters. On a negative
      input both fields carry a minus sign, as `%` keeps the dividend's
      sign. */
  function FormatTime(seconds: real, finite: bool): (r: string)
    ensures seconds == 0.0 || !finite ==> r == "0:00"
    ensures |r| >= 4
    ensures r[0] == '-' <==> finite && seconds < 0.0
  {
    if seconds == 0.0 || !finite then "0:00"
    else
      var mins := Floor(seconds / 60.0);
      var secs := Floor(RemReal(seconds, 60.0));
      IntToString(mins) + ":" + PadTwo(IntToString(secs))
  }

  /** A reading of the clock: whole minutes and seconds. */
  datatype Clock = Clock(minutes: nat, seconds: nat)

  /** The position of the first c in s, if any. */
  function IndexOf(s: string, c: char): (r: Option<nat>)
    ensures r.Some? ==> r.value < |s| && s[r.value] == c && forall i :: 0 <= i < r.value ==> s[i] != c
    ensures r.None? ==> forall i :: 0 <= i < |s| ==> s[i] != c
  {
    if |s| == 0 then None
    else if s[0] == c then Some(0)
    else match IndexOf(s[1..], c)
      case None => None
      case Some(i) => Some(i + 1)
  }

  /** Reads a display of the form `<digits>:<digits>` back. */
  function ParseClock(s: string): Option<Clock> {
    match IndexOf(s, ':')
    case None => None
    case Some(i) =>
      var mins, secs := s[..i], s[i + 1..];
      if |mins| > 0 && AllDigits(mins) && |secs| > 0 && AllDigits(secs)
      then Some(Clock(ParseNat(mins), ParseNat(secs)))
      else None
  }

  /** For a positive time the seconds are the whole seconds modulo 60 and
      the minutes the rest. */
  lemma FieldsOfPositive(seconds: real)
    requires seconds > 0.0
    ensures Floor(seconds / 60.0) == Floor(seconds) / 60
    ensures Floor(RemReal(seconds, 60.0)) == Floor(seconds) % 60
  {
    var n := Floor(seconds);
    var m := n / 60;
    var k := n % 60;
    assert n == 60 * m + k;
    assert (60 * m) as real <= seconds / 60.0 * 60.0;
    assert Floor(seconds / 60.0) == m;
    assert RemReal(seconds, 60.0) == seconds - 60.0 * m as real;
  }

  /** Reading back a display of whole minutes and a two-digit seconds
      field gives the numbers written. */
  lemma {:induction false} ClockRoundTrip(m: nat, sec: nat)
    requires sec < 100
    ensures var out := NatToString(m) + ":" + PadTwo(NatToString(sec));
      && |out| >= 4 && out[|out| - 3] == ':'
      && ParseClock(out) == Some(Clock(m, sec))
  {
    var mins := NatToString(m);
    var secs := PadTwo(NatToString(sec));
    var out := mins + ":" + secs;
    assert |secs| == 2 && AllDigits(secs);
    assert out[|mins|] == ':';
    assert forall i :: 0 <= i < |mins| ==> out[i] == mins[i] && out[i] != ':';
    assert IndexOf(out, ':') == Some(|mins|);
    assert out[..|mins|] == mins;
    assert out[|mins| + 1..] == secs;
    NatRoundTrip(m);
    NatRoundTrip(sec);
    assert ParseNat(secs) == sec by {
      if sec < 10 {
        assert secs == ['0'] + NatToString(sec);
        assert secs[..1] == "0";
      }
    }
  }

  /** A positive time displays as minutes, a colon and exactly two digits
      of seconds, and reading the display back gives the whole seconds:
      minutes * 60 + seconds == floor(seconds), with the seconds below 60. */
  lemma FormatTimeReadsBack(seconds: real)
    requires seconds > 0.0
    ensures var out := FormatTime(seconds, true);
      && |out| >= 4 && out[|out| - 3] == ':'
      && ParseClock(out) == Some(Clock(Floor(seconds) / 60, Floor(seconds) % 60))
  {
    FieldsOfPositive(seconds);
    var n := Floor(seconds);
    assert IntToString(n / 60) == NatToString(n / 60);
    assert IntToString(n % 60) == NatToString(n % 60);
    assert FormatTime(seconds, true) == NatToString(n / 60) + ":" + PadTwo(NatToString(n % 60));
    ClockRoundTrip(n / 60, n % 60);
  }

  /** Zero and non-finite inputs show "0:00". */
  lemma FormatTimeZero(seconds: real, finite: bool)
    requires seconds == 0.0 || !finite
    ensures FormatTime(seconds, finite) == "0:00"
    ensures ParseClock(FormatTime(seconds, finite)) == Some(Clock(0, 0))
  {
    assert IndexOf("0:00", ':') == Some(1);
    assert "0:00"[..1] == "0" && "0:00"[2..] == "00";
  }

  /** A negative time shows a minus sign on the minutes, which round down,
      and also on the seconds unless the time is a whole number of minutes,
      as the remainder keeps the dividend's sign. */
  lemma FormatTimeNegative(seconds: real)
    requires seconds < 0.0
    ensures var r := FormatTime(seconds, true);
      && r[0] == '-'
      && IndexOf(r, ':').Some?
      && var i := IndexOf(r, ':').value;
        && (RemReal(seconds, 60.0) != 0.0 ==> i + 1 < |r| && r[i + 1] == '-')
        && (RemReal(seconds, 60.0) == 0.0 ==> r[i + 1..] == "00")
  {
    var mins := IntToString(Floor(seconds / 60.0));
    var secs := PadTwo(IntToString(Floor(RemReal(seconds, 60.0))));
    assert FormatTime(seconds, true) == mins + ":" + secs;
    NoColon(Floor(seconds / 60.0));
    ColonSplits(mins, secs);
    var q := Floor(RemReal(seconds, 60.0));
    if RemReal(seconds, 60.0) == 0.0 {
      assert IntToString(q) == "0";
    } else {
      assert q < 0;
      assert secs == IntToString(q);
    }
  }

  /** `toString` of an integer writes no colon. */
  lemma NoColon(n: int)
    ensures forall k :: 0 <= k < |IntToString(n)| ==> IntToString(n)[k] != ':'
  {
    var s := IntToString(n);
    forall k | 0 <= k < |s| ensures s[k] != ':' {
      if k > 0 || n >= 0 {
        assert n < 0 ==> s[k] == s[1..][k - 1];
      }
    }
  }

  /** In a display `mins:secs` with no colon in mins, the first colon
      follows mins, and secs is what comes after it. */
  lemma ColonSplits(mins: string, secs: string)
    requires |mins| > 0
    requires forall k :: 0 <= k < |mins| ==> mins[k] != ':'
    ensures var r := mins + ":" + secs;
      && r[0] == mins[0]
      && IndexOf(r, ':') == Some(|mins|)
      && r[|mins| + 1..] == secs
  {
    var r := mins + ":" + secs;
    assert forall k :: 0 <= k < |mins| ==> r[k] == mins[k];
    assert r[|mins|] == ':';
    assert r[|mins| + 1..] == secs;
  }

  /** -5 s displays as "-1:-5". */
  lemma FormatTimeMinusFive()
    ensures FormatTime(-5.0, true) == "-1:-5"
  {
    assert Floor(-5.0 / 60.0) == -1;
    assert RemReal(-5.0, 60.0) == -5.0;
    assert Floor(-5.0) == -5;
    assert NatToString(1) == "1" && NatToString(5) == "5";
  }
}
