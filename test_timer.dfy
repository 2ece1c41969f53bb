/** The countdown badge: its `h:mm:ss` / `m:ss` label and its warning colours. */
module TestTimer {
  import opened Js
  import DataUtils

  /** `Math.floor(seconds / 3600)`. */
  function Hours(seconds: int): int {
    seconds / 3600
  }

  /** `Math.floor((seconds % 3600) / 60)`, with JS's truncating remainder. */
  function Minutes(seconds: int): int {
    TruncRem(seconds, 3600) / 60
  }

  /** `seconds % 60`, with JS's truncating remainder. */
  function Seconds(seconds: int): int {
    TruncRem(seconds, 60)
  }

  /** `formatTime`: hours only when there is at least one, minutes and seconds padded after a colon. */
  function FormatTime(seconds: int): string {
    var h, m, s := Hours(seconds), Minutes(seconds), Seconds(seconds);
    if h > 0 then IntToString(h) + ":" + PadStart2(IntToString(m)) + ":" + PadStart2(IntToString(s))
    else IntToString(m) + ":" + PadStart2(IntToString(s))
  }

  /** The three fields split a non-negative time exactly, minutes and seconds below 60. */
  lemma Decomposition(seconds: int)
    requires seconds >= 0
    ensures Hours(seconds) * 3600 + Minutes(seconds) * 60 + Seconds(seconds) == seconds
    ensures 0 <= Minutes(seconds) < 60 && 0 <= Seconds(seconds) < 60 && Hours(seconds) >= 0
  {
    var r := seconds % 3600;
    assert seconds == (seconds / 3600) * 3600 + r;
    assert r == (r / 60) * 60 + r % 60;
    assert seconds % 60 == r % 60 by {
      assert seconds == ((seconds / 3600) * 60 + r / 60) * 60 + r % 60;
    }
  }

  /** Reads an `h:mm:ss` or `m:ss` text back to seconds. */
  function ParseTimer(text: string): Option<nat> {
    var parts := Split(text, ':');
    if |parts| == 3 && AllDigits(parts[0]) && AllDigits(parts[1]) && AllDigits(parts[2]) && |parts[1]| == 2 && |parts[2]| == 2
    then Some(ParseDigits(parts[0]) * 3600 + ParseDigits(parts[1]) * 60 + ParseDigits(parts[2]))
    else if |parts| == 2 && AllDigits(parts[0]) && AllDigits(parts[1]) && |parts[1]| == 2
    then Some(ParseDigits(parts[0]) * 60 + ParseDigits(parts[1]))
    else None
  }

  /** Three digit fields joined by colons split back into those fields. */
  lemma SplitThree(a: string, b: string, c: string)
    requires AllDigits(a) && AllDigits(b) && AllDigits(c)
    ensures Split(a + ":" + b + ":" + c, ':') == [a, b, c]
  {
    DataUtils.DigitsHaveNoColon(a);
    assert a + ":" + b + ":" + c == a + [':'] + (b + ":" + c);
    SplitAtSep(a, b + ":" + c, ':');
    DataUtils.SplitClock(b, c);
  }

  /** A padded field below 60 is two digits reading back to its value. */
  lemma PaddedField(n: nat)
    requires n < 60
    ensures AllDigits(PadStart2(NatToString(n))) && |PadStart2(NatToString(n))| == 2
    ensures ParseDigits(PadStart2(NatToString(n))) == n
  {
    ParsePadded(n);
    DataUtils.TwoDigits(n);
  }

  /** The label of a time of an hour or more: `h:mm:ss`. */
  lemma LongLabel(seconds: int)
    requires seconds >= 3600
    ensures FormatTime(seconds) == NatToString(Hours(seconds)) + ":" + PadStart2(NatToString(Minutes(seconds)))
                                   + ":" + PadStart2(NatToString(Seconds(seconds)))
  {
    Decomposition(seconds);
  }

  /** The label of a time under an hour: `m:ss`, minutes unpadded. */
  lemma ShortLabel(seconds: int)
    requires 0 <= seconds < 3600
    ensures FormatTime(seconds) == NatToString(Minutes(seconds)) + ":" + PadStart2(NatToString(Seconds(seconds)))
  {
    Decomposition(seconds);
  }

  /** Every non-negative time's label reads back to that time. */
  lemma FormatTimeRoundTrip(seconds: int)
    requires seconds >= 0
    ensures ParseTimer(FormatTime(seconds)) == Some(seconds)
  {
    if seconds >= 3600 {
      LongRoundTrip(seconds);
    } else {
      ShortRoundTrip(seconds);
    }
  }

  /** From one hour on, the `h:mm:ss` label reads back to the time. */
  lemma LongRoundTrip(seconds: int)
    requires seconds >= 3600
    ensures ParseTimer(FormatTime(seconds)).Some? && ParseTimer(FormatTime(seconds)).value == seconds
  {
    Decomposition(seconds);
    var h, m, s := Hours(seconds), Minutes(seconds), Seconds(seconds);
    PaddedField(m);
    PaddedField(s);
    LongLabel(seconds);
    ParseNatToString(h);
    ParseLong(NatToString(h), PadStart2(NatToString(m)), PadStart2(NatToString(s)));
  }

  /** Under an hour, the `m:ss` label reads back to the time. */
  lemma ShortRoundTrip(seconds: int)
    requires 0 <= seconds < 3600
    ensures ParseTimer(FormatTime(seconds)).Some? && ParseTimer(FormatTime(seconds)).value == seconds
  {
    Decomposition(seconds);
    var m, s := Minutes(seconds), Seconds(seconds);
    PaddedField(s);
    ShortLabel(seconds);
    ParseNatToString(m);
    ParseShort(NatToString(m), PadStart2(NatToString(s)));
  }

  /** Three digit fields, the last two of two digits, read back as hours, minutes and seconds. */
  lemma ParseLong(hh: string, mm: string, ss: string)
    requires AllDigits(hh) && AllDigits(mm) && AllDigits(ss) && |mm| == 2 && |ss| == 2
    ensures ParseTimer(hh + ":" + mm + ":" + ss).Some?
    ensures ParseTimer(hh + ":" + mm + ":" + ss).value == ParseDigits(hh) * 3600 + ParseDigits(mm) * 60 + ParseDigits(ss)
  {
    SplitThree(hh, mm, ss);
    ParseThreeFields(hh + ":" + mm + ":" + ss, hh, mm, ss);
  }

  lemma ParseThreeFields(text: string, hh: string, mm: string, ss: string)
    requires Split(text, ':') == [hh, mm, ss]
    requires AllDigits(hh) && AllDigits(mm) && AllDigits(ss) && |mm| == 2 && |ss| == 2
    ensures ParseTimer(text).Some?
    ensures ParseTimer(text).value == ParseDigits(hh) * 3600 + ParseDigits(mm) * 60 + ParseDigits(ss)
  {
    var parts := Split(text, ':');
    assert |parts| == 3 && parts[0] == hh && parts[1] == mm && parts[2] == ss;
  }

  /** Two digit fields, the last of two digits, read back as minutes and seconds. */
  lemma ParseShort(mm: string, ss: string)
    requires AllDigits(mm) && AllDigits(ss) && |ss| == 2
    ensures ParseTimer(mm + ":" + ss).Some?
    ensures ParseTimer(mm + ":" + ss).value == ParseDigits(mm) * 60 + ParseDigits(ss)
  {
    DataUtils.SplitClock(mm, ss);
    ParseTwoFields(mm + ":" + ss, mm, ss);
  }

  lemma ParseTwoFields(text: string, mm: string, ss: string)
    requires Split(text, ':') == [mm, ss]
    requires AllDigits(mm) && AllDigits(ss) && |ss| == 2
    ensures ParseTimer(text).Some?
    ensures ParseTimer(text).value == ParseDigits(mm) * 60 + ParseDigits(ss)
  {
    var parts := Split(text, ':');
    assert |parts| == 2 && parts[0] == mm && parts[1] == ss;
  }

  /** The 60-minute test starts at "1:00:00" and a second later reads "59:59". */
  lemma FormatTimeExamples()
    ensures FormatTime(3600) == "1:00:00"
    ensures FormatTime(3599) == "59:59"
  {
    Decomposition(3600);
    Decomposition(3599);
    assert NatToString(59) == "59";
  }

  datatype Color = Red | Yellow | Gray

  datatype Variant = Destructive | Secondary | Outline

  /** `getTimerColor`: red in the last five minutes, yellow in the last ten, grey before. */
  function TimerColor(timeLeft: int): (c: Color)
    ensures c == Red <==> timeLeft <= 300
    ensures c == Yellow <==> 300 < timeLeft <= 600
    ensures c == Gray <==> timeLeft > 600
  {
    if timeLeft <= 300 then Red else if timeLeft <= 600 then Yellow else Gray
  }

  /** `getTimerVariant`, on the same thresholds. */
  function TimerVariant(timeLeft: int): (v: Variant)
    ensures v == Destructive <==> timeLeft <= 300
    ensures v == Secondary <==> 300 < timeLeft <= 600
    ensures v == Outline <==> timeLeft > 600
  {
    if timeLeft <= 300 then Destructive else if timeLeft <= 600 then Secondary else Outline
  }

  function ColorClass(c: Color): string {
    match c
    case Red => "text-red-600"
    case Yellow => "text-yellow-600"
    case Gray => "text-gray-700"
  }

  /** The badge variant and the text colour always agree, and the urgency only grows as time runs out. */
  lemma ColorAndVariantAgree(t1: int, t2: int)
    requires t1 <= t2
    ensures TimerColor(t1) == Red <==> TimerVariant(t1) == Destructive
    ensures TimerColor(t1) == Yellow <==> TimerVariant(t1) == Secondary
    ensures TimerColor(t2) == Red ==> TimerColor(t1) == Red
    ensures TimerColor(t2) == Yellow ==> TimerColor(t1) != Gray
  {
  }
}
