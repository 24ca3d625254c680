/** The session clock display: elapsed whole seconds rendered as `MM:SS`,
    or `HH:MM:SS` once an hour has passed, every field zero-padded to at
    least two digits. */
module Timer {
  import opened Landmarks

  // ---------------------------------------------------------------------
  // Decimal digits

  predicate IsDigit(c: char)
  {
    '0' <= c <= '9'
  }

  predicate AllDigits(t: string)
  {
    forall i :: 0 <= i < |t| ==> IsDigit(t[i])
  }

  function DigitChar(d: nat): (c: char)
    requires d < 10
    ensures IsDigit(c)
  {
    ['0', '1', '2', '3', '4', '5', '6', '7', '8', '9'][d]
  }

  function DigitValue(c: char): (d: nat)
    requires IsDigit(c)
    ensures d < 10
  {
    (c as int - '0' as int) as nat
  }

  lemma DigitRoundTrip(d: nat)
    requires d < 10
    ensures DigitValue(DigitChar(d)) == d
  {
  }

  /** `n.toString()` for a non-negative integer: decimal, no leading zeros. */
  function NatToString(n: nat): (t: string)
    ensures |t| >= 1 && AllDigits(t)
    ensures n < 10 <==> |t| == 1
    ensures 10 <= n < 100 ==> |t| == 2
    decreases n
  {
    if n < 10 then [DigitChar(n)] else NatToString(n / 10) + [DigitChar(n % 10)]
  }

  /** The number a digit string spells, most significant digit first. */
  function Value(t: string): nat
    requires AllDigits(t)
  {
    if |t| == 0 then 0 else Value(t[..|t| - 1]) * 10 + DigitValue(t[|t| - 1])
  }

  /** Reading the decimal string back gives the number. */
  lemma {:induction false} NatToStringValue(n: nat)
    ensures Value(NatToString(n)) == n
    decreases n
  {
    if n >= 10 {
      var t := NatToString(n);
      NatToStringValue(n / 10);
      assert t[..|t| - 1] == NatToString(n / 10);
      DigitRoundTrip(n % 10);
    } else {
      DigitRoundTrip(n);
    }
  }

  /** A leading zero does not change the number. */
  lemma {:induction false} LeadingZero(t: string)
    requires AllDigits(t)
    ensures AllDigits("0" + t) && Value("0" + t) == Value(t)
    decreases |t|
  {
    var z := "0" + t;
    if |t| > 0 {
      LeadingZero(t[..|t| - 1]);
      assert z[..|z| - 1] == "0" + t[..|t| - 1];
    } else {
      assert z == ['0'];
      assert z[..0] == [];
    }
  }

  /** `padStart(2, '0')`: zeros in front up to length two; a longer string
      is left as it is. */
  function Pad2(t: string): (r: string)
    ensures |r| >= 2
    ensures |t| >= 2 ==> r == t
    ensures |t| < 2 ==> |r| == 2 && r[2 - |t|..] == t && forall i :: 0 <= i < 2 - |t| ==> r[i] == '0'
    decreases 2 - |t|
  {
    if |t| >= 2 then t else Pad2("0" + t)
  }

  lemma {:induction false} Pad2Value(t: string)
    requires AllDigits(t)
    ensures AllDigits(Pad2(t)) && Value(Pad2(t)) == Value(t)
    decreases 2 - |t|
  {
    if |t| < 2 {
      LeadingZero(t);
      Pad2Value("0" + t);
    }
  }

  // ---------------------------------------------------------------------
  // The display

  /** The three clock fields of an elapsed time. */
  datatype Clock = Clock(hours: nat, minutes: nat, seconds: nat)

  function Fields(total: nat): (c: Clock)
    ensures c.hours * 3600 + c.minutes * 60 + c.seconds == total
    ensures c.minutes < 60 && c.seconds < 60
  {
    Clock(total / 3600, (total % 3600) / 60, total % 60)
  }

  /** The field decomposition is the unique one with minutes and seconds
      below sixty. */
  lemma FieldsUnique(total: nat, c: Clock)
    requires c.hours * 3600 + c.minutes * 60 + c.seconds == total
    requires c.minutes < 60 && c.seconds < 60
    ensures Fields(total) == c
  {
    var f := Fields(total);
    var rest := c.minutes * 60 + c.seconds;
    assert 0 <= rest < 3600;
    assert f.hours == c.hours;
    assert (total % 3600) == rest;
  }

  /** The hours field is non-zero exactly from the first full hour. */
  lemma HoursShown(total: nat)
    ensures Fields(total).hours > 0 <==> total >= 3600
  {
  }

  /** A field below a hundred pads to exactly two digits. */
  lemma TwoDigits(n: nat)
    requires n < 100
    ensures |Pad2(NatToString(n))| == 2
  {
  }

  /** The display of a clock: `HH:MM:SS` when there are hours, otherwise
      `MM:SS`, each field padded to two digits. */
  function Render(c: Clock): (r: string)
    requires c.minutes < 60 && c.seconds < 60
    ensures c.hours == 0 ==> |r| == 5 && r[2] == ':'
    ensures c.hours > 0 ==> |r| >= 8 && r[|r| - 3] == ':' && r[|r| - 6] == ':'
  {
    TwoDigits(c.minutes);
    TwoDigits(c.seconds);
    var mm := Pad2(NatToString(c.minutes));
    var ss := Pad2(NatToString(c.seconds));
    if c.hours > 0 then
      var hh := Pad2(NatToString(c.hours));
      LongFormLayout(hh, mm, ss);
      hh + ":" + (mm + ":" + ss)
    else
      ShortFormLayout(mm, ss);
      mm + ":" + ss
  }

  /** `formatTime(seconds)`. */
  function FormatTime(total: nat): (r: string)
    ensures total < 3600 ==> |r| == 5 && r[2] == ':'
    ensures total >= 3600 ==> |r| >= 8 && r[|r| - 3] == ':' && r[|r| - 6] == ':'
  {
    var c := Fields(total);
    assert c.hours > 0 <==> total >= 3600;
    Render(c)
  }

  // ---------------------------------------------------------------------
  // Reading a display back

  /** Two digits spelling a number below sixty. */
  function Sexagesimal(t: string): (r: Option<nat>)
    ensures r.Some? ==> r.value < 60
  {
    if |t| == 2 && AllDigits(t) && Value(t) < 60 then Some(Value(t)) else None
  }

  /** A non-empty digit string spelling a positive number of hours. */
  function HourField(t: string): (r: Option<nat>)
    ensures r.Some? ==> r.value > 0
  {
    if AllDigits(t) && Value(t) > 0 then Some(Value(t)) else None
  }

  /** `MM:SS`. */
  function ParseShort(t: string): (r: Option<nat>)
    requires |t| == 5
  {
    var m := Sexagesimal(t[..2]);
    var s := Sexagesimal(t[3..]);
    if m.Some? && s.Some? then Some(m.value * 60 + s.value) else None
  }

  /** `H…:MM:SS`. */
  function ParseLong(t: string): (r: Option<nat>)
    requires |t| >= 8
  {
    var h := HourField(t[..|t| - 6]);
    var m := Sexagesimal(t[|t| - 5..|t| - 3]);
    var s := Sexagesimal(t[|t| - 2..]);
    if h.Some? && m.Some? && s.Some? then Some(h.value * 3600 + m.value * 60 + s.value) else None
  }

  /** The elapsed seconds a display shows, or `None` for text the display
      never produces. */
  function ParseTime(t: string): (r: Option<nat>)
  {
    if |t| == 5 && t[2] == ':' then ParseShort(t)
    else if |t| >= 8 && t[|t| - 3] == ':' && t[|t| - 6] == ':' then ParseLong(t)
    else None
  }

  /** A field below sixty renders as two digits that read back as it. */
  lemma FieldRoundTrip(n: nat)
    requires n < 60
    ensures Sexagesimal(Pad2(NatToString(n))) == Some(n)
  {
    NatToStringValue(n);
    Pad2Value(NatToString(n));
  }

  /** `MM:SS` reads back as minutes and seconds. */
  lemma ParseShortForm(t: string, mm: string, ss: string, m: nat, sec: nat)
    requires t == mm + ":" + ss
    requires |mm| == 2 && |ss| == 2
    requires Sexagesimal(mm) == Some(m) && Sexagesimal(ss) == Some(sec)
    ensures ParseTime(t) == Some(m * 60 + sec)
  {
    ShortFormLayout(mm, ss);
  }

  /** `H…:MM:SS` reads back as hours, minutes and seconds. */
  lemma ParseLongForm(t: string, hh: string, mm: string, ss: string, h: nat, m: nat, sec: nat)
    requires t == hh + ":" + (mm + ":" + ss)
    requires |hh| >= 2 && HourField(hh) == Some(h)
    requires |mm| == 2 && |ss| == 2
    requires Sexagesimal(mm) == Some(m) && Sexagesimal(ss) == Some(sec)
    ensures ParseTime(t) == Some(h * 3600 + m * 60 + sec)
  {
    LongFormLayout(hh, mm, ss);
  }

  lemma ShortFormLayout(mm: string, ss: string)
    requires |mm| == 2 && |ss| == 2
    ensures var t := mm + ":" + ss;
            && |t| == 5 && t[2] == ':' && t[..2] == mm && t[3..] == ss
  {
  }

  lemma LongFormLayout(hh: string, mm: string, ss: string)
    requires |hh| >= 2 && |mm| == 2 && |ss| == 2
    ensures var t := hh + ":" + (mm + ":" + ss);
            && |t| >= 8 && |t| != 5 && t[|t| - 3] == ':' && t[|t| - 6] == ':'
            && t[..|t| - 6] == hh && t[|t| - 5..|t| - 3] == mm && t[|t| - 2..] == ss
  {
    var t := hh + ":" + (mm + ":" + ss);
    assert t[..|t| - 6] == hh;
    assert t[|t| - 5..|t| - 3] == mm;
    assert t[|t| - 2..] == ss;
  }

  /** A positive hour count renders as at least two digits that read back
      as it. */
  lemma HourRoundTrip(h: nat)
    requires h > 0
    ensures |Pad2(NatToString(h))| >= 2 && HourField(Pad2(NatToString(h))) == Some(h)
  {
    NatToStringValue(h);
    Pad2Value(NatToString(h));
  }

  /** A rendered clock reads back as the seconds its fields stand for. */
  lemma RenderRoundTrip(c: Clock)
    requires c.minutes < 60 && c.seconds < 60
    ensures ParseTime(Render(c)) == Some(c.hours * 3600 + c.minutes * 60 + c.seconds)
  {
    if c.hours > 0 {
      LongRoundTrip(c);
    } else {
      ShortRoundTrip(c);
    }
  }

  lemma LongRoundTrip(c: Clock)
    requires c.hours > 0 && c.minutes < 60 && c.seconds < 60
    ensures ParseTime(Render(c)) == Some(c.hours * 3600 + c.minutes * 60 + c.seconds)
  {
    var hh := Pad2(NatToString(c.hours));
    var mm := Pad2(NatToString(c.minutes));
    var ss := Pad2(NatToString(c.seconds));
    FieldRoundTrip(c.minutes);
    FieldRoundTrip(c.seconds);
    TwoDigits(c.minutes);
    TwoDigits(c.seconds);
    HourRoundTrip(c.hours);
    ParseLongForm(Render(c), hh, mm, ss, c.hours, c.minutes, c.seconds);
  }

  lemma ShortRoundTrip(c: Clock)
    requires c.hours == 0 && c.minutes < 60 && c.seconds < 60
    ensures ParseTime(Render(c)) == Some(c.minutes * 60 + c.seconds)
  {
    var mm := Pad2(NatToString(c.minutes));
    var ss := Pad2(NatToString(c.seconds));
    FieldRoundTrip(c.minutes);
    FieldRoundTrip(c.seconds);
    TwoDigits(c.minutes);
    TwoDigits(c.seconds);
    ParseShortForm(Render(c), mm, ss, c.minutes, c.seconds);
  }

  /** Every display reads back as the elapsed time it shows, so two
      different times never show the same text. */
  lemma FormatTimeRoundTrip(total: nat)
    ensures ParseTime(FormatTime(total)) == Some(total)
  {
    RenderRoundTrip(Fields(total));
  }

  lemma FormatTimeInjective(a: nat, b: nat)
    ensures FormatTime(a) == FormatTime(b) <==> a == b
  {
    FormatTimeRoundTrip(a);
    FormatTimeRoundTrip(b);
  }

  /** The hours field appears exactly from the first full hour. */
  lemma HoursShownFromOneHour(total: nat)
    ensures |FormatTime(total)| == 5 <==> total < 3600
  {
  }

  /** The hours field is never truncated: a hundred hours shows three hour
      digits. */
  lemma HundredHours()
    ensures FormatTime(360000) == "100:00:00"
  {
    FieldsUnique(360000, Clock(100, 0, 0));
    assert NatToString(0) == "0";
    assert Pad2("0") == "00";
    assert NatToString(10) == "10";
    assert NatToString(100) == "100";
    assert Pad2("100") == "100";
    assert "100" + ":" + ("00" + ":" + "00") == "100:00:00";
  }
}
