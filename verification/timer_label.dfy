/**
  The countdown labels of the workout screen: the legacy timer shows
  `MM:SS`, built from `divmod(time_remaining, 60)` with each part
  rendered by `:02d`; the workout timer shows the seconds alone.
*/
module TimerLabel {
  import opened Decimal

  /** `divmod(t, 60)` for t >= 0: whole minutes and the seconds left over. */
  function MinutesSeconds(t: nat): (ms: (nat, nat))
    ensures ms.1 < 60 && ms.0 * 60 + ms.1 == t
  {
    (t / 60, t % 60)
  }

  /** The `MM:SS` label of the legacy timer for t remaining seconds. */
  function ClockLabel(t: nat): (text: string)
    ensures |text| >= 5 && text[|text| - 3] == ':'
  {
    var (mins, secs) := MinutesSeconds(t);
    ZeroPad2RoundTrip(secs);
    ZeroPad2(mins) + ":" + ZeroPad2(secs)
  }

  /** The seconds-only label of the workout timer. */
  function SecondsLabel(t: nat): (text: string)
    ensures AllDigits(text) && ValueOf(text) == t
  {
    ZeroPad2RoundTrip(t);
    ZeroPad2(t)
  }

  /** Reads a label back: everything before the last three characters is the
      minutes, the last two characters are the seconds. */
  function ParseClock(text: string): (t: nat)
    requires |text| >= 3 && AllDigits(text[..|text| - 3]) && AllDigits(text[|text| - 2..])
  {
    ValueOf(text[..|text| - 3]) * 60 + ValueOf(text[|text| - 2..])
  }

  /** Every label has the seconds part as its last two characters, preceded by
      ':' and by the minutes, and reading it back gives the remaining time. */
  lemma ClockLabelRoundTrip(t: nat)
    ensures var text := ClockLabel(t);
      && |text| >= 5
      && text[|text| - 3] == ':'
      && AllDigits(text[..|text| - 3]) && AllDigits(text[|text| - 2..])
      && ValueOf(text[|text| - 2..]) < 60
      && ParseClock(text) == t
  {
    var (mins, secs) := MinutesSeconds(t);
    ZeroPad2RoundTrip(mins);
    ZeroPad2RoundTrip(secs);
    var text := ClockLabel(t);
    assert text[..|text| - 3] == ZeroPad2(mins);
    assert text[|text| - 2..] == ZeroPad2(secs);
  }

  /** Below 100 minutes the label is exactly five characters `MM:SS` with the
      colon at index 2; the two fields are the minutes and the seconds. */
  lemma ClockLabelShape(t: nat)
    requires t < 6000
    ensures var text := ClockLabel(t);
      && |text| == 5 && text[2] == ':'
      && AllDigits(text[..2]) && AllDigits(text[3..])
      && ValueOf(text[3..]) < 60
      && ValueOf(text[..2]) * 60 + ValueOf(text[3..]) == t
  {
    var (mins, secs) := MinutesSeconds(t);
    ZeroPad2RoundTrip(mins);
    ZeroPad2RoundTrip(secs);
    ClockLabelRoundTrip(t);
  }

  /** The text `reset_timer` writes, "01:00", is the label of 60 seconds. */
  lemma ResetLabelIsSixtySeconds()
    ensures ClockLabel(60) == "01:00"
  {
  }

  /** The seconds-only label reads back as the remaining time; it has two
      characters below 100 seconds. */
  lemma SecondsLabelRoundTrip(t: nat)
    ensures AllDigits(SecondsLabel(t)) && ValueOf(SecondsLabel(t)) == t
    ensures t < 100 <==> |SecondsLabel(t)| == 2
  {
    ZeroPad2RoundTrip(t);
  }
}
