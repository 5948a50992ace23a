/**
 * Market rules of the client domain layer: reading a "10:00 PM" air time as a
 * 24-hour clock time, display strings, and membership of the broadcast lists.
 */
module MarketRules {
  import opened Common

  /** The two broadcast lists a market can be on ("3pm" and "6pm"). */
  datatype FeedList = Feed3pm | Feed6pm

  /** The list's stored value. */
  function ListName(l: FeedList): string
  {
    match l
    case Feed3pm => "3pm"
    case Feed6pm => "6pm"
  }

  /** A recipient group: every station, or one of the two lists. */
  datatype RecipientGroup = AllStations | Group3pm | Group6pm

  /** The group's wire identifier, as in the request schema. */
  function GroupId(g: RecipientGroup): string
  {
    match g
    case AllStations => "all"
    case Group3pm => "3pm"
    case Group6pm => "6pm"
  }

  /** Reads a group identifier; anything but "all", "3pm" and "6pm" is refused. */
  function ParseGroupId(s: string): (r: Option<RecipientGroup>)
    ensures r.Some? ==> GroupId(r.value) == s
    ensures forall g :: GroupId(g) == s ==> r == Some(g)
  {
    if s == "all" then Some(AllStations)
    else if s == "3pm" then Some(Group3pm)
    else if s == "6pm" then Some(Group6pm)
    else None
  }

  /**
   * parseAirTime's result. The source never returns null: a field it cannot
   * read comes back as NaN, written None here.
   */
  datatype AirTime = AirTime(hour: Option<int>, minute: Option<int>)

  /** Element `i` of a split, or `dflt` when the destructuring finds nothing there. */
  function PartOr(parts: seq<string>, i: nat, dflt: Option<string>): Option<string>
  {
    if i < |parts| then Some(parts[i]) else dflt
  }

  /** parseAirTime: trim, split at spaces and colons, and move AM/PM into 24-hour form. */
  function ParseAirTime(airTime: string): AirTime
  {
    var words := Split(Trim(airTime), ' ');
    var fields := Split(words[0], ':');
    AirTime(ApplyPeriod(ParseIntJs(fields[0]), PartOr(words, 1, None)),
            ParseIntJs(PartOr(fields, 1, Some("0")).value))
  }

  /** The AM/PM adjustment of parseAirTime; NaN stays NaN. */
  function ApplyPeriod(hour: Option<int>, period: Option<string>): Option<int>
  {
    var isPm := period.Some? && Upper(period.value) == "PM";
    var isAm := period.Some? && Upper(period.value) == "AM";
    if isPm && hour != Some(12) then (if hour.Some? then Some(hour.value + 12) else None)
    else if isAm && hour == Some(12) then Some(0)
    else hour
  }

  /** The 24-hour form of a 12-hour clock reading. */
  function To24Hour(h: nat, pm: bool): nat
  {
    if pm then (if h == 12 then 12 else h + 12) else (if h == 12 then 0 else h)
  }

  lemma ApplyPeriodClock(h: nat, period: string)
    requires Upper(period) == "AM" || Upper(period) == "PM"
    ensures ApplyPeriod(Some(h), Some(period)) == Some(To24Hour(h, Upper(period) == "PM"))
  {
  }

  lemma SplitHead(p: string, sep: char, tail: string)
    requires sep !in p
    requires tail == [] || tail[0] == sep
    ensures Split(p + tail, sep)[0] == p
    ensures tail != [] ==> |Split(p + tail, sep)| >= 2
  {
    if tail == [] {
      assert p + tail == p;
      SplitNoSep(p, sep);
    } else {
      assert p + tail == p + [sep] + tail[1..];
      SplitAt(p, sep, tail[1..]);
    }
  }

  lemma PeriodHasNoSeparator(period: string)
    requires Upper(period) == "AM" || Upper(period) == "PM"
    ensures ' ' !in period && ':' !in period && |period| == 2 && !IsWs(period[1])
  {
    assert Upper(period)[0] == UpperChar(period[0]);
    assert Upper(period)[1] == UpperChar(period[1]);
  }

  lemma DigitsHaveNoSeparator(d: string)
    requires AllDigits(d)
    ensures ' ' !in d && ':' !in d
  {
    forall i | 0 <= i < |d| ensures d[i] != ' ' && d[i] != ':' { assert IsDigit(d[i]); }
  }

  /** The hour and minute fields of "hh:mm". */
  lemma ClockFieldsOf(hh: string, mm: string)
    requires |hh| >= 1 && AllDigits(hh) && |mm| >= 1 && AllDigits(mm)
    ensures var f := Split(hh + ":" + mm, ':');
      ParseIntJs(f[0]) == Some(DigitsValue(hh)) && ParseIntJs(PartOr(f, 1, Some("0")).value) == Some(DigitsValue(mm))
  {
    DigitsHaveNoSeparator(hh);
    DigitsHaveNoSeparator(mm);
    var f := Split(hh + ":" + mm, ':');
    assert f == [hh, mm] by {
      assert hh + ":" + mm == hh + [':'] + mm;
      SplitAt(hh, ':', mm);
      SplitNoSep(mm, ':');
    }
    ParseIntOfDigitsAlone(hh);
    ParseIntOfDigitsAlone(mm);
  }

  lemma ParseIntOfDigitsAlone(d: string)
    requires |d| >= 1 && AllDigits(d)
    ensures ParseIntJs(d) == Some(DigitsValue(d))
  {
    ParseIntOfDigits(d, []);
    assert d + [] == d;
  }

  /** The words of "hh:mm PERIOD…": the clock and then the period. */
  lemma WordsOf(a: string, period: string, tail: string)
    requires ' ' !in a && ' ' !in period
    requires tail == [] || tail[0] == ' '
    ensures var w := Split(a + " " + period + tail, ' '); |w| >= 2 && w[0] == a && w[1] == period
  {
    assert a + " " + period + tail == a + [' '] + (period + tail);
    SplitAt(a, ' ', period + tail);
    SplitHead(period, ' ', tail);
  }

  /** parseAirTime seen through the words of the trimmed input. */
  lemma ParseAirTimeOfWords(s: string, clock: string, period: string)
    requires var w := Split(Trim(s), ' '); |w| >= 2 && w[0] == clock && w[1] == period
    ensures ParseAirTime(s) == AirTime(ApplyPeriod(ParseIntJs(Split(clock, ':')[0]), Some(period)),
                                       ParseIntJs(PartOr(Split(clock, ':'), 1, Some("0")).value))
  {
  }

  /** The text "hh:mm PERIOD". */
  function ClockText(hh: string, mm: string, period: string): string
  {
    hh + ":" + mm + " " + period
  }

  /** parseAirTime only looks at the trimmed text. */
  lemma ParseAirTimeSeesTrim(s: string, t: string)
    requires Trim(s) == Trim(t)
    ensures ParseAirTime(s) == ParseAirTime(t)
  {
  }

  /**
   * "hh:mm PERIOD", optionally followed by further " …" words, is read as the
   * 24-hour time; the period is matched case-insensitively.
   */
  lemma ParseAirTimeClock(hh: string, mm: string, period: string, tail: string)
    requires |hh| >= 1 && AllDigits(hh) && |mm| >= 1 && AllDigits(mm)
    requires Upper(period) == "AM" || Upper(period) == "PM"
    requires tail == [] || (tail[0] == ' ' && !IsWs(tail[|tail| - 1]))
    ensures ParseAirTime(ClockText(hh, mm, period) + tail) ==
      AirTime(Some(To24Hour(DigitsValue(hh), Upper(period) == "PM")), Some(DigitsValue(mm)))
  {
    var a := hh + ":" + mm;
    var s := ClockText(hh, mm, period) + tail;
    assert s == a + " " + period + tail;
    PeriodHasNoSeparator(period);
    assert Trim(s) == s by {
      assert s[0] == hh[0];
      if tail == [] {
        assert s[|s| - 1] == period[1];
      } else {
        assert s[|s| - 1] == tail[|tail| - 1];
      }
      TrimOfTrimmed(s);
    }
    assert ' ' !in a by {
      DigitsHaveNoSeparator(hh);
      DigitsHaveNoSeparator(mm);
    }
    WordsOf(a, period, tail);
    ParseAirTimeOfWords(s, a, period);
    ClockFieldsOf(hh, mm);
    ApplyPeriodClock(DigitsValue(hh), period);
  }

  /** Surrounding whitespace does not change what "hh:mm PERIOD" reads as. */
  lemma ParseAirTimeStructured(w1: string, hh: string, mm: string, period: string, w2: string)
    requires AllWs(w1) && AllWs(w2)
    requires |hh| >= 1 && AllDigits(hh) && |mm| >= 1 && AllDigits(mm)
    requires Upper(period) == "AM" || Upper(period) == "PM"
    ensures ParseAirTime(w1 + ClockText(hh, mm, period) + w2) ==
      AirTime(Some(To24Hour(DigitsValue(hh), Upper(period) == "PM")), Some(DigitsValue(mm)))
  {
    var body := ClockText(hh, mm, period);
    PeriodHasNoSeparator(period);
    assert Trimmed(body) by {
      assert body[0] == hh[0];
      assert body[|body| - 1] == period[1];
    }
    TrimPadded(w1, body, w2);
    TrimOfTrimmed(body);
    ParseAirTimeSeesTrim(w1 + body + w2, body);
    assert body + [] == body;
    ParseAirTimeClock(hh, mm, period, []);
  }

  /** Without a ":mm" part the minutes default to 0, so "7 PM" is 19:00. */
  lemma ParseAirTimeNoMinutes(hh: string, period: string)
    requires |hh| >= 1 && AllDigits(hh)
    requires Upper(period) == "AM" || Upper(period) == "PM"
    ensures ParseAirTime(hh + " " + period) == AirTime(Some(To24Hour(DigitsValue(hh), Upper(period) == "PM")), Some(0))
  {
    var s := hh + " " + period;
    PeriodHasNoSeparator(period);
    DigitsHaveNoSeparator(hh);
    HourPeriodTrimmed(hh, period);
    assert s == hh + " " + period + [];
    WordsOf(hh, period, []);
    ParseAirTimeOfWords(s, hh, period);
    HourAloneFields(hh);
    ApplyPeriodClock(DigitsValue(hh), period);
  }

  /** "hh PERIOD" has no surrounding whitespace. */
  lemma HourPeriodTrimmed(hh: string, period: string)
    requires |hh| >= 1 && AllDigits(hh)
    requires ' ' !in period && |period| == 2 && !IsWs(period[1])
    ensures Trim(hh + " " + period) == hh + " " + period
  {
    var s := hh + " " + period;
    assert s[0] == hh[0];
    assert s[|s| - 1] == period[1];
    TrimOfTrimmed(s);
  }

  /** The fields of a clock with no ":mm": the hour, and minutes that default to 0. */
  lemma HourAloneFields(hh: string)
    requires |hh| >= 1 && AllDigits(hh)
    ensures ParseIntJs(Split(hh, ':')[0]) == Some(DigitsValue(hh))
    ensures ParseIntJs(PartOr(Split(hh, ':'), 1, Some("0")).value) == Some(0)
  {
    DigitsHaveNoSeparator(hh);
    SplitNoSep(hh, ':');
    ParseIntOfDigitsAlone(hh);
    ParseIntZero();
  }

  lemma NoDigitNoInt(s: string)
    requires forall i :: 0 <= i < |s| ==> !IsDigit(s[i])
    ensures ParseIntJs(s).None?
  {
  }

  /** Text with no digit at all, such as "invalid", reads as NaN hours (never as null). */
  lemma ParseAirTimeNoDigits(s: string)
    requires forall i :: 0 <= i < |s| ==> !IsDigit(s[i])
    ensures ParseAirTime(s).hour.None?
  {
    var t := Trim(s);
    var words := Split(t, ' ');
    var hours := Split(words[0], ':')[0];
    JoinSplit(t, ' ');
    JoinSplit(words[0], ':');
    JoinPrefix(words, ' ');
    JoinPrefix(Split(words[0], ':'), ':');
    TrimInside(s);
    assert forall i :: 0 <= i < |hours| ==> !IsDigit(hours[i]) by {
      forall i | 0 <= i < |hours| ensures !IsDigit(hours[i]) {
        assert hours[i] in hours;
      }
    }
    NoDigitNoInt(hours);
  }

  lemma JoinPrefix(parts: seq<string>, sep: char)
    requires |parts| >= 1
    ensures forall c :: c in parts[0] ==> c in JoinWith(parts, sep)
  {
    if |parts| > 1 {
      assert JoinWith(parts, sep) == parts[0] + [sep] + JoinWith(parts[1..], sep);
    }
  }

  /** formatAirTime: the air time and zone separated by one space. */
  function FormatAirTime(airTime: string, timezone: string): (r: string)
    ensures StartsWith(r, airTime) && EndsWith(r, timezone)
    ensures |r| == |airTime| + 1 + |timezone| && r[|airTime|] == ' '
  {
    airTime + " " + timezone
  }

  /** Appending " ZONE" to a "hh:mm PERIOD" air time does not change what it reads as. */
  lemma FormatAirTimeParsesBack(hh: string, mm: string, period: string, tz: string)
    requires |hh| >= 1 && AllDigits(hh) && |mm| >= 1 && AllDigits(mm)
    requires Upper(period) == "AM" || Upper(period) == "PM"
    requires |tz| >= 1 && !IsWs(tz[|tz| - 1])
    ensures ParseAirTime(FormatAirTime(ClockText(hh, mm, period), tz)) == ParseAirTime(ClockText(hh, mm, period))
  {
    var c := ClockText(hh, mm, period);
    assert FormatAirTime(c, tz) == c + (" " + tz);
    ParseAirTimeClock(hh, mm, period, " " + tz);
    assert c + [] == c;
    ParseAirTimeClock(hh, mm, period, []);
  }

  /** isInBroadcastList: "all" takes every market, a list takes exactly its own markets. */
  predicate IsInBroadcastList(marketList: Option<FeedList>, target: RecipientGroup)
  {
    match target
    case AllStations => true
    case Group3pm => marketList == Some(Feed3pm)
    case Group6pm => marketList == Some(Feed6pm)
  }

  /** The list a group other than "all" stands for. */
  function GroupList(g: RecipientGroup): Option<FeedList>
  {
    match g
    case AllStations => None
    case Group3pm => Some(Feed3pm)
    case Group6pm => Some(Feed6pm)
  }

  lemma BroadcastListMembership(marketList: Option<FeedList>, target: RecipientGroup)
    ensures target == AllStations ==> IsInBroadcastList(marketList, target)
    ensures target != AllStations ==> (IsInBroadcastList(marketList, target) <==> marketList == GroupList(target))
    ensures marketList.None? ==> (IsInBroadcastList(marketList, target) <==> target == AllStations)
  {
  }

  /** getBroadcastTimeLabel. */
  function BroadcastTimeLabel(list: Option<FeedList>): (r: string)
    ensures r == "Unscheduled" <==> list.None?
  {
    match list
    case Some(Feed3pm) => "3:30 PM Feed"
    case Some(Feed6pm) => "6:00 PM Feed"
    case None => "Unscheduled"
  }
}
