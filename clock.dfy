/**
  The clock display of the home screen: the minutes-to-seconds conversion used when a
  session starts, and the formatter that renders the remaining seconds as `MM:SS`
  (minutes zero-padded to at least two digits and never truncated, seconds to exactly two).
*/
module Clock {
  import opened Wrappers
  import opened Digits

  /** The longest session the start handler accepts: 480 minutes (8 hours). */
  const MaxMinutes: nat := 480
  const MaxSeconds: nat := 28800

  /** `minutosASegundos`: a whole number of minutes as seconds. */
  function MinutesToSeconds(m: nat): (s: nat)
    ensures s / 60 == m && s % 60 == 0
    ensures m <= MaxMinutes ==> s <= MaxSeconds
    ensures m >= 1 ==> s >= 60
  {
    m * 60
  }

  /** The text before the colon of a rendered `MM:SS`. */
  function MinutesField(t: string): string
    requires |t| >= 3
  {
    t[..|t| - 3]
  }

  /** The two characters after the colon of a rendered `MM:SS`. */
  function SecondsField(t: string): string
    requires |t| >= 3
  {
    t[|t| - 2..]
  }

  /** `formatearTiempo`: whole minutes, a colon and the leftover seconds, each padded to two digits. */
  function Format(secs: nat): string {
    PaddedDecimal(secs / 60) + ":" + PaddedDecimal(secs % 60)
  }

  /**
    The layout of a rendering: the minutes field holds at least two digits worth
    `secs / 60`, and the seconds field, after the colon, exactly two digits worth `secs % 60`.
  */
  lemma FormatFields(secs: nat)
    ensures var r := Format(secs);
      && |r| >= 5 && r[|r| - 3] == ':'
      && MinutesField(r) == PaddedDecimal(secs / 60)
      && AllDigits(MinutesField(r)) && |MinutesField(r)| >= 2
      && DecimalValue(MinutesField(r)) == secs / 60
      && AllDigits(SecondsField(r)) && |SecondsField(r)| == 2
      && DecimalValue(SecondsField(r)) == secs % 60 && secs % 60 <= 59
  {
    var r := Format(secs);
    assert MinutesField(r) == PaddedDecimal(secs / 60);
    assert SecondsField(r) == PaddedDecimal(secs % 60);
  }

  /**
    How a reader of the display gets the seconds back: digits, a colon and two digits
    below 60; anything else is not a clock reading.
  */
  function ParseClock(t: string): Option<nat> {
    if |t| < 5 || t[|t| - 3] != ':' then None
    else
      var mm := MinutesField(t);
      var ss := SecondsField(t);
      if !AllDigits(mm) || !AllDigits(ss) || DecimalValue(ss) >= 60 then None
      else Some(60 * DecimalValue(mm) + DecimalValue(ss))
  }

  /** Reading the display gives back exactly the seconds it was rendered from. */
  lemma FormatRoundTrip(secs: nat)
    ensures ParseClock(Format(secs)) == Some(secs)
  {
    FormatFields(secs);
  }

  /** Different remaining times are never rendered alike. */
  lemma FormatInjective(a: nat, b: nat)
    ensures Format(a) == Format(b) ==> a == b
  {
    FormatRoundTrip(a);
    FormatRoundTrip(b);
  }

  /**
    The minutes field is two characters wide below 100 minutes and grows to three from
    100 up to 999 minutes, so every session length up to 480 minutes is shown in full.
  */
  lemma MinutesFieldWidth(secs: nat)
    ensures secs < 6000 ==> |MinutesField(Format(secs))| == 2
    ensures 6000 <= secs < 60000 ==> |MinutesField(Format(secs))| == 3
    ensures secs <= MaxSeconds ==> 5 <= |Format(secs)| <= 6
  {
    FormatFields(secs);
    assert secs < 6000 <==> secs / 60 < 100;
    assert 6000 <= secs < 60000 ==> 100 <= secs / 60 < 1000;
    assert secs <= MaxSeconds ==> secs / 60 <= 480;
  }

  /** The idle display before any session: "00:00". */
  lemma FormatIdle()
    ensures Format(0) == "00:00"
  {
    PaddedZero();
    assert 0 / 60 == 0 && 0 % 60 == 0;
  }

  /** One minute is shown as "01:00". */
  lemma FormatOneMinute()
    ensures Format(60) == "01:00"
  {
    PaddedZero();
    PaddedOne();
    assert 60 / 60 == 1 && 60 % 60 == 0;
  }

  /** The longest session, 480 minutes, is shown as "480:00". */
  lemma FormatMaximum()
    ensures Format(MaxSeconds) == "480:00"
  {
    PaddedZero();
    PaddedMaximum();
    assert MaxSeconds / 60 == 480 && MaxSeconds % 60 == 0;
  }
}
