/** Cue timestamps: the formatter the route uses, the WebVTT timestamp syntax of
    section 4.1 of the W3C "WebVTT: The Web Video Text Tracks Format", and a
    separately named formatter that rolls seconds over into minutes and hours. */
module Timestamps {
  import opened Text

  /** "hh:mm:ss.ttt" from its four fields. */
  function Assemble(hours: string, minutes: string, seconds: string, fraction: string): string
  {
    hours + ":" + minutes + ":" + seconds + "." + fraction
  }

  /** The route's timestamp "00:00:" + pad2(seconds) + ".000": hours and minutes fixed at "00",
      the whole number of seconds zero-padded to at least two digits. There is no rollover. */
  function Timestamp(seconds: nat): string
  {
    Assemble("00", "00", Pad2(seconds), "000")
  }

  /** Reads back a timestamp of the route's shape "00:00:<digits>.000", however wide its
      seconds field. */
  function ReadTimestamp(t: string): Option<nat>
  {
    if |t| >= 11 && AllDigits(t[6..|t| - 4]) && t == Assemble("00", "00", t[6..|t| - 4], "000")
    then Some(DigitsValue(t[6..|t| - 4]))
    else None
  }

  /** Where the seconds field of the route's shape sits. */
  lemma RouteShapeFields(p: string)
    ensures var t := Assemble("00", "00", p, "000");
      |t| == |p| + 10 && t[6..|t| - 4] == p
  {
  }

  lemma ReadAssembled(p: string)
    requires |p| >= 1 && AllDigits(p)
    ensures ReadTimestamp(Assemble("00", "00", p, "000")) == Some(DigitsValue(p))
  {
    RouteShapeFields(p);
  }

  /** Reading a timestamp of the route gives back its seconds. */
  lemma TimestampRoundTrip(seconds: nat)
    ensures ReadTimestamp(Timestamp(seconds)) == Some(seconds)
  {
    ReadAssembled(Pad2(seconds));
  }

  /** "mm:ss.ttt" with minutes and seconds in 00..59. */
  predicate IsMinutesSecondsFraction(u: string)
  {
    |u| == 9 && u[2] == ':' && u[5] == '.'
    && AllDigits(u[..2]) && AllDigits(u[3..5]) && AllDigits(u[6..])
    && DigitsValue(u[..2]) <= 59 && DigitsValue(u[3..5]) <= 59
  }

  /** A WebVTT timestamp: optionally two or more digits of hours and a colon, then "mm:ss.ttt". */
  predicate IsWebVttTimestamp(t: string)
  {
    IsMinutesSecondsFraction(t)
    || (|t| >= 12 && t[|t| - 10] == ':' && AllDigits(t[..|t| - 10]) && IsMinutesSecondsFraction(t[|t| - 9..]))
  }

  /** The time a WebVTT timestamp denotes, in milliseconds. */
  function WebVttMillis(t: string): nat
    requires IsWebVttTimestamp(t)
  {
    var hours := if IsMinutesSecondsFraction(t) then 0 else DigitsValue(t[..|t| - 10]);
    var u := t[|t| - 9..];
    hours * 3_600_000 + DigitsValue(u[..2]) * 60_000 + DigitsValue(u[3..5]) * 1_000 + DigitsValue(u[6..])
  }

  lemma ZeroStrings()
    ensures AllDigits("00") && DigitsValue("00") == 0
    ensures AllDigits("000") && DigitsValue("000") == 0
  {
    LeadingZeroValue("");
    LeadingZeroValue("0");
    LeadingZeroValue("00");
    assert ['0'] + "" == "0";
    assert ['0'] + "0" == "00";
    assert ['0'] + "00" == "000";
  }

  lemma TailFields(h: string, m: string, s: string, f: string)
    requires |m| == 2 && |s| == 2 && |f| == 3
    ensures var t := Assemble(h, m, s, f);
      && |t| == |h| + 10 && t[..|t| - 10] == h && t[|t| - 10] == ':'
      && t[|t| - 9..] == m + ":" + s + "." + f
  {
  }

  /** A timestamp assembled from hours, minutes, seconds and fraction fields of the right widths
      is valid WebVTT exactly when minutes and seconds are at most 59, and then denotes their sum. */
  lemma {:induction false} Assembled(h: string, m: string, s: string, f: string)
    requires |h| >= 2 && |m| == 2 && |s| == 2 && |f| == 3
    requires AllDigits(h) && AllDigits(m) && AllDigits(s) && AllDigits(f)
    ensures IsWebVttTimestamp(Assemble(h, m, s, f)) <==> DigitsValue(m) <= 59 && DigitsValue(s) <= 59
    ensures IsWebVttTimestamp(Assemble(h, m, s, f)) ==>
      WebVttMillis(Assemble(h, m, s, f))
        == DigitsValue(h) * 3_600_000 + DigitsValue(m) * 60_000 + DigitsValue(s) * 1_000 + DigitsValue(f)
  {
    var t := Assemble(h, m, s, f);
    TailFields(h, m, s, f);
    var u := t[|t| - 9..];
    assert u[..2] == m;
    assert u[3..5] == s;
    assert u[6..] == f;
    assert !IsMinutesSecondsFraction(t);
  }

  /** With three or more seconds digits the route's shape is no WebVTT timestamp:
      the character seven from the end is a digit, not the colon the syntax puts there. */
  lemma WideSecondsNoTimestamp(p: string)
    requires |p| >= 3 && AllDigits(p)
    ensures !IsWebVttTimestamp(Assemble("00", "00", p, "000"))
  {
    var t := Assemble("00", "00", p, "000");
    RouteShapeFields(p);
    assert t[|t| - 7] == t[6..|t| - 4][|p| - 3];
  }

  /** The route's timestamps are valid WebVTT exactly while the seconds stay below 60,
      and then they denote that many seconds. */
  lemma {:induction false} TimestampConformsIff(seconds: nat)
    ensures IsWebVttTimestamp(Timestamp(seconds)) <==> seconds < 60
    ensures seconds < 60 ==> WebVttMillis(Timestamp(seconds)) == seconds * 1_000
  {
    if seconds < 100 {
      ZeroStrings();
      Assembled("00", "00", Pad2(seconds), "000");
    } else {
      WideSecondsNoTimestamp(Pad2(seconds));
    }
  }

  /** Corrected variant, not what the route does: seconds beyond 59 roll over into
      minutes, minutes beyond 59 into hours (hours take as many digits as they need). */
  function RolloverTimestamp(seconds: nat): string
  {
    var minutes := seconds / 60;
    Assemble(Pad2(minutes / 60), Pad2(minutes % 60), Pad2(seconds % 60), "000")
  }

  lemma RolloverArithmetic(seconds: nat)
    ensures (seconds / 60 / 60) * 3600 + (seconds / 60 % 60) * 60 + seconds % 60 == seconds
  {
    var minutes := seconds / 60;
    assert seconds == minutes * 60 + seconds % 60;
    assert minutes == (minutes / 60) * 60 + minutes % 60;
  }

  /** Every rollover timestamp is a WebVTT timestamp and denotes exactly its seconds. */
  lemma {:induction false} RolloverTimestampConforms(seconds: nat)
    ensures IsWebVttTimestamp(RolloverTimestamp(seconds))
    ensures WebVttMillis(RolloverTimestamp(seconds)) == seconds * 1_000
  {
    var minutes := seconds / 60;
    var hv, mv, sv := minutes / 60, minutes % 60, seconds % 60;
    ZeroStrings();
    Assembled(Pad2(hv), Pad2(mv), Pad2(sv), "000");
    RolloverArithmetic(seconds);
    assert hv * 3_600_000 + mv * 60_000 + sv * 1_000 == (hv * 3600 + mv * 60 + sv) * 1_000;
  }

  /** Below one minute the rollover formatter and the route's formatter agree. */
  lemma RolloverAgreesBelowMinute(seconds: nat)
    requires seconds < 60
    ensures RolloverTimestamp(seconds) == Timestamp(seconds)
  {
    Pad2Digits(0);
    assert seconds / 60 == 0 && seconds % 60 == seconds;
  }

  lemma SmallPads()
    ensures Pad2(0) == "00" && Pad2(1) == "01" && Pad2(10) == "10" && Pad2(70) == "70"
  {
    Pad2Digits(0);
    Pad2Digits(1);
    Pad2Digits(10);
    Pad2Digits(70);
  }

  /** At index 7 of a ten-second track the route writes "00:00:70.000", which is not a
      WebVTT timestamp. */
  lemma AsWrittenIndexSeven()
    ensures Timestamp(7 * 10) == "00:00:70.000"
    ensures !IsWebVttTimestamp(Timestamp(7 * 10))
  {
    SmallPads();
    assert Assemble("00", "00", "70", "000") == "00:00:70.000";
    TimestampConformsIff(70);
  }

  /** At the same index the rollover formatter writes "00:01:10.000". */
  lemma RolloverIndexSeven()
    ensures RolloverTimestamp(7 * 10) == "00:01:10.000"
  {
    assert 70 / 60 / 60 == 0 && 70 / 60 % 60 == 1 && 70 % 60 == 10;
    SmallPads();
    assert Assemble("00", "01", "10", "000") == "00:01:10.000";
  }
}
