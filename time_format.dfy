/**
 * `formatTime` of the tool utilities: renders a duration in milliseconds as
 * "HHh MMm S.mmms". Hours, minutes and seconds are each the TOTAL count of
 * that unit (minutes and seconds are not reduced modulo 60), so 3661000 ms
 * prints as "01h 61m 3661.000s".
 */
module TimeFormat {
  import opened Wrappers
  import opened Strings

  /** `(n > 9) ? n : "0" + n`: at least two digits. */
  function Pad2(n: nat): (s: string)
    ensures |s| >= 2 && AllDigits(s)
  {
    if n > 9 then NatToString(n) else "0" + NatToString(n)
  }

  /** `((n > 99) ? "" : n > 9 ? "0" : "00") + n`: exactly three digits. */
  function Pad3(n: nat): (s: string)
    requires n < 1000
    ensures |s| == 3 && AllDigits(s)
  {
    if n > 99 then
      assert |NatToString(n / 10)| == 2;
      NatToString(n)
    else if n > 9 then "0" + NatToString(n)
    else "00" + NatToString(n)
  }

  /** The padding only adds leading zeros: the digits still denote `n`. */
  lemma Pad2Value(n: nat)
    ensures DigitsValue(Pad2(n)) == n
  {
    NatToStringValue(n);
    if n <= 9 {
      LeadingZeroValue(NatToString(n));
    }
  }

  lemma Pad3Value(n: nat)
    requires n < 1000
    ensures DigitsValue(Pad3(n)) == n
  {
    NatToStringValue(n);
    var digits := NatToString(n);
    if n <= 99 {
      LeadingZeroValue(digits);
      if n <= 9 {
        LeadingZeroValue("0" + digits);
        assert "0" + ("0" + digits) == "00" + digits;
      }
    }
  }

  /** The seconds field: unpadded when above 9 or when no hour/minute field precedes it. */
  function SecondsField(seconds: nat, hours: nat, minutes: nat): string
  {
    if seconds > 9 || (hours == 0 && minutes == 0) then NatToString(seconds)
    else if hours != 0 || minutes != 0 then "0" + NatToString(seconds)
    else ""
  }

  function FormatTime(millisec: nat): string
  {
    var seconds := millisec / 1000;
    var minutes := seconds / 60;
    var hours := minutes / 60;
    Head(hours, minutes) + LastPart(seconds, hours, minutes, millisec % 1000)
  }

  /** The optional "HHh " and "MMm " fields. */
  function Head(hours: nat, minutes: nat): string
  {
    (if hours != 0 then Pad2(hours) + "h " else "")
    + (if hours != 0 || minutes != 0 then Pad2(minutes) + "m " else "")
  }

  /** The last field, "<seconds>.<mmm>s". */
  function LastPart(seconds: nat, hours: nat, minutes: nat, ms: nat): string
    requires ms < 1000
  {
    SecondsField(seconds, hours, minutes) + "." + Pad3(ms) + "s"
  }

  // --------------------------------------------------------------- reading back

  /** The longest suffix of `s` without a space: the last space-separated field. */
  function LastField(s: string): (t: string)
    ensures |t| <= |s| && t == s[|s| - |t|..]
    ensures ' ' !in t
    ensures |t| < |s| ==> s[|s| - |t| - 1] == ' '
  {
    if s == [] || s[|s| - 1] == ' ' then [] else LastField(s[..|s| - 1]) + [s[|s| - 1]]
  }

  /** Recovers the duration from the last field "<seconds>.<mmm>s" of a rendered time. */
  function DecodeTime(r: string): Option<nat>
  {
    ReadField(LastField(r))
  }

  /** Reads "<digits>.<ddd>s" as a number of milliseconds. */
  function ReadField(t: string): Option<nat>
  {
    if |t| >= 5 && t[|t| - 5] == '.' && t[|t| - 1] == 's'
       && AllDigits(t[..|t| - 5]) && AllDigits(t[|t| - 4..|t| - 1])
    then Some(DigitsValue(t[..|t| - 5]) * 1000 + DigitsValue(t[|t| - 4..|t| - 1]))
    else None
  }

  lemma {:induction false} LastFieldOf(a: string, b: string)
    requires ' ' !in b
    requires a == [] || a[|a| - 1] == ' '
    ensures LastField(a + b) == b
  {
    if b != [] {
      var b' := b[..|b| - 1];
      LastFieldOf(a, b');
      assert (a + b)[..|a + b| - 1] == a + b';
      assert b == b' + [b[|b| - 1]];
    } else {
      assert a + b == a;
    }
  }

  /** Nested floor divisions by the unit sizes equal one division by their product. */
  lemma UnitDivisions(millisec: nat)
    ensures millisec / 1000 / 60 == millisec / 60000
    ensures millisec / 60000 / 60 == millisec / 3600000
  {
  }

  /**
   * Because the seconds are a total, a value below 10 means no hour or minute
   * field precedes it: the `"0" + seconds` branch is never taken, and the
   * seconds field is always the plain total.
   */
  lemma SecondsFieldUnpadded(millisec: nat)
    ensures var seconds := millisec / 1000;
            SecondsField(seconds, seconds / 60 / 60, seconds / 60) == NatToString(seconds)
  {
  }

  /** FormatTime as the head fields followed by "<seconds>.<mmm>s", with every piece named. */
  lemma FormatTimeParts(millisec: nat, head: string, sf: string, p3: string)
    requires head == Head(millisec / 1000 / 60 / 60, millisec / 1000 / 60)
    requires sf == NatToString(millisec / 1000)
    requires p3 == Pad3(millisec % 1000)
    ensures FormatTime(millisec) == head + (sf + "." + p3 + "s")
  {
    SecondsFieldUnpadded(millisec);
  }

  lemma HeadFacts(hours: nat, minutes: nat)
    ensures var h := Head(hours, minutes);
            && (h == [] || h[|h| - 1] == ' ')
            && ('h' in h <==> hours != 0)
            && ('m' in h <==> hours != 0 || minutes != 0)
  {
    var hh := if hours != 0 then Pad2(hours) + "h " else "";
    var mm := if hours != 0 || minutes != 0 then Pad2(minutes) + "m " else "";
    if hours != 0 {
      NoLetterInDigits('m', Pad2(hours));
      assert hh[|Pad2(hours)|] == 'h';
    }
    if hours != 0 || minutes != 0 {
      NoLetterInDigits('h', Pad2(minutes));
      assert mm[|Pad2(minutes)|] == 'm';
    }
    assert Head(hours, minutes) == hh + mm;
  }

  /** The last field of "<head><digits>.<ddd>s", for any head ending in a space, is "<digits>.<ddd>s". */
  lemma RenderLastField(head: string, sf: string, p3: string)
    requires AllDigits(sf) && AllDigits(p3)
    requires head == [] || head[|head| - 1] == ' '
    ensures LastField(head + (sf + "." + p3 + "s")) == sf + "." + p3 + "s"
  {
    NoLetterInDigits(' ', sf);
    NoLetterInDigits(' ', p3);
    LastFieldOf(head, sf + "." + p3 + "s");
  }

  /** A letter other than "s" occurs in "<head><digits>.<ddd>s" exactly when it occurs in the head. */
  lemma RenderLetter(c: char, head: string, sf: string, p3: string)
    requires AllDigits(sf) && AllDigits(p3)
    requires !IsDigit(c) && c != '.' && c != 's'
    ensures c in head + (sf + "." + p3 + "s") <==> c in head
  {
    NoLetterInDigits(c, sf);
    NoLetterInDigits(c, p3);
  }

  /** Where the two numbers sit in "<digits>.<ddd>s". */
  lemma FieldSlices(sf: string, p3: string)
    requires |p3| == 3
    ensures var t := sf + "." + p3 + "s";
            && |t| >= 5 && t[|t| - 5] == '.' && t[|t| - 1] == 's'
            && t[..|t| - 5] == sf && t[|t| - 4..|t| - 1] == p3
  {
    var t := sf + "." + p3 + "s";
    assert t[..|t| - 5] == sf;
    assert t[|t| - 4..|t| - 1] == p3;
  }

  /** A rendering whose last field holds the digit strings `sf` and `p3` decodes to `v`. */
  lemma DecodeField(head: string, sf: string, p3: string, v: nat)
    requires head == [] || head[|head| - 1] == ' '
    requires AllDigits(sf) && AllDigits(p3) && |p3| == 3
    requires DigitsValue(sf) * 1000 + DigitsValue(p3) == v
    ensures DecodeTime(head + (sf + "." + p3 + "s")) == Some(v)
  {
    RenderLastField(head, sf, p3);
    ReadFieldOf(sf, p3, v);
  }

  lemma ReadFieldOf(sf: string, p3: string, v: nat)
    requires AllDigits(sf) && AllDigits(p3) && |p3| == 3
    requires DigitsValue(sf) * 1000 + DigitsValue(p3) == v
    ensures ReadField(sf + "." + p3 + "s") == Some(v)
  {
    FieldSlices(sf, p3);
  }

  /**
   * Reading the last field back gives the duration: the seconds field is the
   * total number of seconds, so nothing is lost by the rendering.
   */
  lemma FormatTimeDecodes(millisec: nat)
    ensures DecodeTime(FormatTime(millisec)) == Some(millisec)
  {
    var seconds := millisec / 1000;
    var head := Head(seconds / 60 / 60, seconds / 60);
    var sf := NatToString(seconds);
    var p3 := Pad3(millisec % 1000);
    FormatTimeParts(millisec, head, sf, p3);
    HeadFacts(seconds / 60 / 60, seconds / 60);
    LastValue(millisec, sf, p3);
    DecodeField(head, sf, p3, millisec);
  }

  lemma LastValue(millisec: nat, sf: string, p3: string)
    requires sf == NatToString(millisec / 1000)
    requires p3 == Pad3(millisec % 1000)
    ensures AllDigits(sf) && AllDigits(p3) && |p3| == 3
    ensures DigitsValue(sf) * 1000 + DigitsValue(p3) == millisec
  {
    NatToStringValue(millisec / 1000);
    Pad3Value(millisec % 1000);
  }

  /** The milliseconds are always three zero-padded digits followed by "s". */
  lemma FormatTimeMillis(millisec: nat)
    ensures var r := FormatTime(millisec);
            && |r| >= 5 && r[|r| - 1] == 's' && r[|r| - 5] == '.'
            && AllDigits(r[|r| - 4..|r| - 1])
            && DigitsValue(r[|r| - 4..|r| - 1]) == millisec % 1000
  {
    var seconds := millisec / 1000;
    var head := Head(seconds / 60 / 60, seconds / 60);
    var sf := NatToString(seconds);
    var p3 := Pad3(millisec % 1000);
    FormatTimeParts(millisec, head, sf, p3);
    Pad3Value(millisec % 1000);
    MillisField(head, sf, p3);
  }

  lemma MillisField(head: string, sf: string, p3: string)
    requires |p3| == 3
    ensures var r := head + (sf + "." + p3 + "s");
            && |r| >= 5 && r[|r| - 1] == 's' && r[|r| - 5] == '.'
            && r[|r| - 4..|r| - 1] == p3
  {
    var r := head + (sf + "." + p3 + "s");
    assert r[|r| - 4..|r| - 1] == p3;
  }

  /** Minutes are a total: a minute field appears iff at least one minute passed, and it holds `millisec / 60000`. */
  lemma FormatTimeMinutes(millisec: nat)
    ensures var r := FormatTime(millisec);
            && ('m' in r <==> millisec >= 60000)
            && (millisec >= 60000 ==>
                  r == (if millisec >= 3600000 then Pad2(millisec / 3600000) + "h " else "")
                       + Pad2(millisec / 60000) + "m " + LastField(r))
  {
    var seconds := millisec / 1000;
    var head := Head(seconds / 60 / 60, seconds / 60);
    var sf := NatToString(seconds);
    var p3 := Pad3(millisec % 1000);
    FormatTimeParts(millisec, head, sf, p3);
    MinutesHead(millisec, head);
    RenderLastField(head, sf, p3);
    RenderLetter('m', head, sf, p3);
  }

  lemma MinutesHead(millisec: nat, head: string)
    requires head == Head(millisec / 1000 / 60 / 60, millisec / 1000 / 60)
    ensures head == [] || head[|head| - 1] == ' '
    ensures 'm' in head <==> millisec >= 60000
    ensures millisec >= 60000 ==>
              head == (if millisec >= 3600000 then Pad2(millisec / 3600000) + "h " else "")
                      + Pad2(millisec / 60000) + "m "
  {
    UnitDivisions(millisec);
    HeadFacts(millisec / 1000 / 60 / 60, millisec / 1000 / 60);
  }

  /** An hour field appears iff at least one hour passed; it is the total `millisec / 3600000`, two digits or more. */
  lemma FormatTimeHours(millisec: nat)
    ensures var r := FormatTime(millisec);
            && ('h' in r <==> millisec >= 3600000)
            && (millisec >= 3600000 ==> StartsWith(r, Pad2(millisec / 3600000) + "h "))
  {
    var seconds := millisec / 1000;
    var hours := seconds / 60 / 60;
    var head := Head(hours, seconds / 60);
    var sf := NatToString(seconds);
    var p3 := Pad3(millisec % 1000);
    UnitDivisions(millisec);
    FormatTimeParts(millisec, head, sf, p3);
    HeadFacts(hours, seconds / 60);
    RenderLetter('h', head, sf, p3);
    if hours != 0 {
      var p := Pad2(hours) + "h ";
      assert head == p + (Pad2(seconds / 60) + "m ");
      assert head[..|p|] == p;
    }
  }

  /** Under a minute the rendering is just "<seconds>.<mmm>s". */
  lemma FormatTimeUnderAMinute(millisec: nat)
    requires millisec < 60000
    ensures FormatTime(millisec) == NatToString(millisec / 1000) + "." + Pad3(millisec % 1000) + "s"
  {
  }

  /** One hour, one minute and one second: every field is a total, none is reduced modulo 60. */
  lemma FormatTimeExample()
    ensures FormatTime(3661000) == "01h 61m 3661.000s"
  {
    FormatTimeParts(3661000, Head(1, 61), NatToString(3661), Pad3(0));
    ExampleHead();
    ExampleSeconds();
    assert Pad3(0) == "000";
  }

  lemma ExampleHead()
    ensures Head(1, 61) == "01h 61m "
  {
    assert NatToString(61) == "61";
  }

  lemma ExampleSeconds()
    ensures NatToString(3661) == "3661"
  {
    assert NatToString(366) == "366";
  }

  // ------------------------------------------------------- intended rendering

  /**
   * The rendering the doc comment's example "1h 23m 45.678s" describes:
   * minutes and seconds are the remainders within the hour and the minute.
   */
  function FormatTimeIntended(millisec: nat): string
  {
    var seconds := millisec / 1000;
    var minutes := seconds / 60;
    var hours := minutes / 60;
    Head(hours, minutes % 60) + LastPart(seconds % 60, hours, minutes % 60, millisec % 1000)
  }

  /** The fields of the intended rendering recombine to the duration, and minutes and seconds stay below 60. */
  lemma IntendedFields(millisec: nat)
    ensures var seconds := millisec / 1000;
            var minutes := seconds / 60;
            && minutes % 60 < 60 && seconds % 60 < 60
            && (minutes / 60) * 3600000 + (minutes % 60) * 60000 + (seconds % 60) * 1000 + millisec % 1000 == millisec
  {
  }

  /** FormatTimeIntended as the head fields followed by "<seconds>.<mmm>s", with every piece named. */
  lemma FormatTimeIntendedParts(millisec: nat, head: string, sf: string, p3: string)
    requires head == Head(millisec / 1000 / 60 / 60, millisec / 1000 / 60 % 60)
    requires sf == SecondsField(millisec / 1000 % 60, millisec / 1000 / 60 / 60, millisec / 1000 / 60 % 60)
    requires p3 == Pad3(millisec % 1000)
    ensures FormatTimeIntended(millisec) == head + (sf + "." + p3 + "s")
  {
  }

  /** Reading back the intended rendering's last field gives the time within the current minute. */
  lemma FormatTimeIntendedDecodes(millisec: nat)
    ensures DecodeTime(FormatTimeIntended(millisec)) == Some(millisec % 60000)
  {
    var seconds := millisec / 1000;
    var minutes := seconds / 60;
    var hours := minutes / 60;
    var head := Head(hours, minutes % 60);
    var sf := SecondsField(seconds % 60, hours, minutes % 60);
    var p3 := Pad3(millisec % 1000);
    FormatTimeIntendedParts(millisec, head, sf, p3);
    HeadFacts(hours, minutes % 60);
    IntendedLastValue(millisec, sf, p3);
    DecodeField(head, sf, p3, millisec % 60000);
  }

  lemma IntendedLastValue(millisec: nat, sf: string, p3: string)
    requires sf == SecondsField(millisec / 1000 % 60, millisec / 1000 / 60 / 60, millisec / 1000 / 60 % 60)
    requires p3 == Pad3(millisec % 1000)
    ensures AllDigits(sf) && AllDigits(p3) && |p3| == 3
    ensures DigitsValue(sf) * 1000 + DigitsValue(p3) == millisec % 60000
  {
    SecondsFieldValue(millisec / 1000 % 60, millisec / 1000 / 60 / 60, millisec / 1000 / 60 % 60);
    Pad3Value(millisec % 1000);
    MinuteRemainder(millisec);
  }

  lemma MinuteRemainder(millisec: nat)
    ensures millisec / 1000 % 60 * 1000 + millisec % 1000 == millisec % 60000
  {
  }

  /** Whatever padding the seconds field gets, its digits denote the seconds. */
  lemma SecondsFieldValue(seconds: nat, hours: nat, minutes: nat)
    ensures AllDigits(SecondsField(seconds, hours, minutes))
    ensures DigitsValue(SecondsField(seconds, hours, minutes)) == seconds
  {
    NatToStringValue(seconds);
    LeadingZeroValue(NatToString(seconds));
  }

  /** One hour, one minute and one second as the doc comment intends it. */
  lemma FormatTimeIntendedExample()
    ensures FormatTimeIntended(3661000) == "01h 01m 01.000s"
  {
    assert 3661000 / 1000 == 3661 && 3661 / 60 == 61 && 61 / 60 == 1 && 61 % 60 == 1 && 3661 % 60 == 1;
    var head, sf, p3 := Head(1, 1), SecondsField(1, 1, 1), Pad3(0);
    FormatTimeIntendedParts(3661000, head, sf, p3);
    ExampleIntendedHead();
    ExampleIntendedSeconds();
    ExampleIntendedJoin(head, sf, p3);
  }

  lemma ExampleIntendedSeconds()
    ensures SecondsField(1, 1, 1) == "01" && Pad3(0) == "000"
  {
    assert NatToString(1) == "1" && NatToString(0) == "0";
  }

  lemma ExampleIntendedJoin(head: string, sf: string, p3: string)
    requires head == "01h 01m " && sf == "01" && p3 == "000"
    ensures head + (sf + "." + p3 + "s") == "01h 01m 01.000s"
  {
  }

  lemma ExampleIntendedHead()
    ensures Head(1, 1) == "01h 01m "
  {
    assert Pad2(1) == "01";
  }

  lemma NoLetterInDigits(c: char, s: string)
    requires AllDigits(s) && !IsDigit(c)
    ensures c !in s
  {
  }
}
