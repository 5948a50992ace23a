/**
 * The backend's market CSV parser: one row becomes a market with its call
 * letters, air time, feed list and up to four validated phones; the whole
 * text becomes the markets of its data rows, rows with the same market
 * number merged, ordered by market number.
 */
module CsvParser {
  import opened Common
  import opened MarketRules
  import opened PhoneRules
  import opened Sorting
  import opened CsvLine

  datatype ParsedPhone = ParsedPhone(labelText: string, number: string, isPrimary: bool)

  datatype ParsedMarket = ParsedMarket(
    marketNumber: int,
    name: string,
    stationCallLetters: Option<string>,
    airTime: string,
    timezone: string,
    list: FeedList,
    phones: seq<ParsedPhone>)

  /** The columns of one data row, keyed by header name; a missing column reads as "". */
  datatype CsvRow = CsvRow(
    feed: string, rank: string, station: string, city: string,
    airTime: string, etTime: string,
    mainName: string, mainPhone: string,
    name2: string, phone2: string,
    name3: string, phone3: string,
    name4: string, phone4: string)

  // ----- The regular expressions of the phone clean-up -----

  predicate IsSepChar(c: char) { IsWs(c) || c == '-' }

  /** `[\s-]*\d+` from `a`: the end of the match, when there is one. */
  function DigitsTail(s: string, a: nat): (r: Option<nat>)
    requires a <= |s|
    ensures r.Some? ==> a < r.value <= |s|
  {
    var b := a + RunLength(s, a, IsSepChar);
    var d := RunLength(s, b, IsDigit);
    if d > 0 then Some(b + d) else None
  }

  /**
   * `/\s*(x|ext|extension)[\s-]*\d+/i` at `p`. Backtracking into the
   * greedy runs never helps, because the character after a shorter run
   * would be one the run itself matches; the alternatives are tried in order.
   */
  function ExtensionAt(s: string, p: nat): (r: Option<nat>)
    ensures r.Some? ==> p < r.value <= |s|
  {
    if p > |s| then None
    else
      var q := p + RunLength(s, p, IsWs);
      if q < |s| && LowerChar(s[q]) == 'x' then DigitsTail(s, q + 1)
      else if HasCi(s, q, "ext") then
        var t := DigitsTail(s, q + 3);
        if t.Some? then t
        else if HasCi(s, q, "extension") then DigitsTail(s, q + 9)
        else None
      else None
  }

  /** `/\s*\(unblock\s+\d+\)/i` at `p`. */
  function UnblockNoteAt(s: string, p: nat): (r: Option<nat>)
    ensures r.Some? ==> p < r.value <= |s|
  {
    if p > |s| then None
    else
      var q := p + RunLength(s, p, IsWs);
      if !HasCi(s, q, "(unblock") then None
      else
        var b := q + 8;
        var w := RunLength(s, b, IsWs);
        var c := b + w;
        var d := RunLength(s, c, IsDigit);
        if w > 0 && d > 0 && c + d < |s| && s[c + d] == ')' then Some(c + d + 1) else None
  }

  /** `s.replace(re, "")` for a regular expression without the global flag. */
  function RemoveFirst(s: string, at: (string, nat) -> Option<nat>): string
  {
    match FirstMatch(s, 0, at)
    case None => s
    case Some((p, e)) => if p <= e <= |s| then s[..p] + s[e..] else s
  }

  // ----- Phone numbers -----

  /** cleanPhoneNumber: the first extension, then the first unblock note, removed; then trim. */
  function CleanPhoneNumber(phone: string): (r: string)
    ensures Trimmed(r)
  {
    Trim(RemoveFirst(RemoveFirst(phone, ExtensionAt), UnblockNoteAt))
  }

  /** No extension starts where the whitespace run is followed by a non-letter. */
  lemma NoExtensionAt(s: string, p: nat)
    requires p <= |s|
    requires var q := p + RunLength(s, p, IsWs); q == |s| || !IsAsciiLetter(s[q])
    ensures ExtensionAt(s, p).None?
  {
    var q := p + RunLength(s, p, IsWs);
    if q < |s| {
      assert LowerChar(s[q]) != 'x' && LowerChar(s[q]) != 'e';
    }
    if q + 3 <= |s| {
      assert Lower(s[q..q + 3])[0] == LowerChar(s[q]);
      assert !HasCi(s, q, "ext");
    }
  }

  /** No unblock note starts where the character after "(" is not a letter. */
  lemma NoUnblockNoteAt(s: string, p: nat)
    requires p <= |s|
    requires var q := p + RunLength(s, p, IsWs); q + 1 >= |s| || !IsAsciiLetter(s[q + 1])
    ensures UnblockNoteAt(s, p).None?
  {
    var q := p + RunLength(s, p, IsWs);
    if q + 8 <= |s| {
      assert Lower(s[q..q + 8])[1] == LowerChar(s[q + 1]);
    }
  }

  lemma NoLettersNoMatch(s: string)
    requires NoLetters(s)
    ensures FirstMatch(s, 0, ExtensionAt).None?
    ensures FirstMatch(s, 0, UnblockNoteAt).None?
  {
    forall q | 0 <= q <= |s|
      ensures ExtensionAt(s, q).None? && UnblockNoteAt(s, q).None?
    {
      NoExtensionAt(s, q);
      NoUnblockNoteAt(s, q);
    }
    FirstMatchNone(s, 0, ExtensionAt);
    FirstMatchNone(s, 0, UnblockNoteAt);
  }

  /** A number written without letters, such as "(212) 555-1234", is only trimmed. */
  lemma CleanPhoneNumberWithoutLetters(phone: string)
    requires NoLetters(phone)
    ensures CleanPhoneNumber(phone) == Trim(phone)
  {
    NoLettersNoMatch(phone);
  }

  /** The keywords that introduce an extension. */
  predicate IsExtensionKeyword(kw: string)
  {
    Lower(kw) == "x" || Lower(kw) == "ext" || Lower(kw) == "extension"
  }

  predicate AllSep(s: string) { forall i :: 0 <= i < |s| ==> IsSepChar(s[i]) }

  /** Separators then digits up to the end of the string. */
  lemma DigitsTailToEnd(s: string, a: nat, sep: string, digits: string)
    requires a + |sep| + |digits| == |s|
    requires AllSep(sep) && |digits| > 0 && AllDigits(digits)
    requires forall j :: 0 <= j < |sep| ==> s[a + j] == sep[j]
    requires forall j :: 0 <= j < |digits| ==> s[a + |sep| + j] == digits[j]
    ensures DigitsTail(s, a) == Some(|s|)
  {
    var b := a + |sep|;
    forall j | a <= j < b
      ensures IsSepChar(s[j])
    {
      assert s[a + (j - a)] == sep[j - a];
    }
    forall j | b <= j < |s|
      ensures IsDigit(s[j])
    {
      assert s[b + (j - b)] == digits[j - b];
    }
    assert s[b] == digits[0];
    RunLengthExact(s, a, |sep|, IsSepChar);
    RunLengthExact(s, b, |digits|, IsDigit);
  }

  /** Whitespace from `p` to `q`, a keyword at `q` and then separators and digits to the end: the extension matches from `p`. */
  lemma ExtensionMatchesAt(s: string, p: nat, q: nat, kw: string)
    requires p <= q && q + |kw| <= |s| && IsExtensionKeyword(kw)
    requires forall j :: p <= j < q ==> IsWs(s[j])
    requires s[q..q + |kw|] == kw
    requires DigitsTail(s, q + |kw|) == Some(|s|)
    ensures ExtensionAt(s, p) == Some(|s|)
  {
    assert Lower(kw)[0] == LowerChar(kw[0]);
    assert s[q] == kw[0];
    RunLengthExact(s, p, q - p, IsWs);
    if Lower(kw) == "x" {
      assert LowerChar(s[q]) == 'x';
    } else if Lower(kw) == "ext" {
      assert LowerChar(s[q]) == 'e' && HasCi(s, q, "ext");
    } else {
      assert LowerChar(s[q]) == 'e';
      ExtensionWordTail(s, q, kw);
      assert HasCi(s, q, "extension");
    }
  }

  /** Where the parts of `pre w kw sep digits` sit. */
  lemma PartsLayout(pre: string, w: string, kw: string, sep: string, digits: string, s: string)
    requires s == pre + w + kw + sep + digits
    ensures |s| == |pre| + |w| + |kw| + |sep| + |digits|
    ensures forall j :: |pre| <= j < |pre| + |w| ==> s[j] == w[j - |pre|]
    ensures s[|pre| + |w|..|pre| + |w| + |kw|] == kw
    ensures forall j :: 0 <= j < |sep| ==> s[|pre| + |w| + |kw| + j] == sep[j]
    ensures forall j :: 0 <= j < |digits| ==> s[|pre| + |w| + |kw| + |sep| + j] == digits[j]
  {
  }

  /** An extension `w kw sep digits` ending the string matches from where `w` starts. */
  lemma ExtensionToEnd(pre: string, w: string, kw: string, sep: string, digits: string)
    requires AllWs(w) && IsExtensionKeyword(kw)
    requires AllSep(sep) && |digits| > 0 && AllDigits(digits)
    ensures ExtensionAt(pre + w + kw + sep + digits, |pre|) == Some(|pre + w + kw + sep + digits|)
  {
    var s := pre + w + kw + sep + digits;
    var q := |pre| + |w|;
    var a := q + |kw|;
    PartsLayout(pre, w, kw, sep, digits, s);
    forall j | |pre| <= j < q
      ensures IsWs(s[j])
    {
      assert s[j] == w[j - |pre|];
    }
    DigitsTailToEnd(s, a, sep, digits);
    ExtensionMatchesAt(s, |pre|, q, kw);
  }

  /** After "ext" of "extension" comes "e", where no digits start. */
  lemma ExtensionWordTail(s: string, q: nat, kw: string)
    requires Lower(kw) == "extension"
    requires q + 9 <= |s| && s[q..q + 9] == kw
    ensures HasCi(s, q, "ext") && DigitsTail(s, q + 3).None?
  {
    assert s[q..q + 3] == kw[..3];
    assert Lower(kw[..3]) == "ext";
    assert Lower(kw)[3] == LowerChar(kw[3]);
    assert s[q + 3] == kw[3];
    RunLengthExact(s, q + 3, 0, IsSepChar);
    RunLengthExact(s, q + 3, 0, IsDigit);
  }

  /** Before the end of a letter-free number that does not end in whitespace, nothing matches. */
  lemma NoExtensionInNumber(s: string, num: string, q: nat)
    requires |num| > 0 && NoLetters(num) && !IsWs(num[|num| - 1])
    requires |num| <= |s| && s[..|num|] == num
    requires q < |num|
    ensures ExtensionAt(s, q).None?
  {
    var n := |num|;
    assert s[n - 1] == num[n - 1];
    var k := q + RunLength(s, q, IsWs);
    assert k < n;
    assert s[k] == num[k];
    NoExtensionAt(s, q);
  }

  /**
   * An extension after the number, written "x123", "ext 123" or
   * "Extension-12" and preceded by whitespace, is removed with that
   * whitespace.
   */
  lemma CleanPhoneNumberDropsExtension(num: string, w: string, kw: string, sep: string, digits: string)
    requires NoLetters(num) && |num| > 0 && !IsWs(num[|num| - 1])
    requires AllWs(w) && IsExtensionKeyword(kw)
    requires AllSep(sep) && |digits| > 0 && AllDigits(digits)
    ensures CleanPhoneNumber(num + w + kw + sep + digits) == Trim(num)
  {
    var s := num + w + kw + sep + digits;
    var n := |num|;
    assert s[..n] == num;
    forall q | 0 <= q < n
      ensures ExtensionAt(s, q).None?
    {
      NoExtensionInNumber(s, num, q);
    }
    ExtensionToEnd(num, w, kw, sep, digits);
    FirstMatchAt(s, 0, n, ExtensionAt);
    assert s[|s|..] == [];
    assert RemoveFirst(s, ExtensionAt) == num;
    NoLettersNoMatch(num);
  }

  // ----- Call letters -----

  /** `.replace(/-TV$|-DT$|-DT\d*$/i, "")`: "-TV", or "-DT" and any digits, at the end. */
  function StripStationSuffix(s: string): (r: string)
    ensures |r| <= |s| && r == s[..|r|]
  {
    var k := TrailingCount(s, IsDigit);
    if k == 0 && |s| >= 3 && Upper(s[|s| - 3..]) == "-TV" then s[..|s| - 3]
    else if |s| >= k + 3 && Upper(s[|s| - k - 3..|s| - k]) == "-DT" then s[..|s| - k - 3]
    else s
  }

  /** The stored call letters: without suffix, the first of several, none when empty. */
  function StationCallLetters(station: string): (r: Option<string>)
    ensures r.Some? ==> r.value != "" && Trimmed(r.value) && '/' !in r.value
    ensures Trim(station) == "" ==> r.None?
  {
    var t := Trim(station);
    if t == "" then None
    else
      var a := Trim(StripStationSuffix(t));
      var b := if '/' in a then Trim(Split(a, '/')[0]) else a;
      if b == "" then None
      else
        TrimInside(Split(a, '/')[0]);
        Some(b)
  }

  /** Which endings the suffix pattern removes. */
  predicate IsStationSuffix(suffix: string, digits: string)
  {
    (Upper(suffix) == "-TV" && digits == []) || (Upper(suffix) == "-DT" && AllDigits(digits))
  }

  lemma StripStationSuffixOf(base: string, suffix: string, digits: string)
    requires IsStationSuffix(suffix, digits)
    ensures StripStationSuffix(base + suffix + digits) == base
  {
    var s := base + suffix + digits;
    assert Upper(suffix)[2] == UpperChar(suffix[2]);
    assert (base + suffix)[|base + suffix| - 1] == suffix[2];
    TrailingCountAppend(base + suffix, digits, IsDigit);
    assert s[|s| - |digits| - 3..|s| - |digits|] == suffix;
    if digits == [] {
      assert s[|s| - 3..] == suffix;
    }
    assert s[..|base|] == base;
  }

  /** "WCBS-TV", "KXAS-DT" and "WXYZ-dt2" are stored as their call letters alone. */
  lemma StationSuffixDropped(base: string, suffix: string, digits: string)
    requires base != "" && Trimmed(base) && '/' !in base
    requires IsStationSuffix(suffix, digits)
    ensures StationCallLetters(base + suffix + digits) == Some(base)
  {
    var s := base + suffix + digits;
    assert s[0] == base[0];
    assert Upper(suffix)[2] == UpperChar(suffix[2]);
    if digits == [] {
      assert s[|s| - 1] == suffix[2];
    } else {
      assert s[|s| - 1] == digits[|digits| - 1];
    }
    TrimOfTrimmed(s);
    StripStationSuffixOf(base, suffix, digits);
    TrimOfTrimmed(base);
  }

  // ----- Air times -----

  /** Some "AM" or "PM" occurs, in any case. */
  predicate HasMeridiem(s: string)
  {
    Contains(Upper(s), "AM") || Contains(Upper(s), "PM")
  }

  /** "AM" or "PM", in any case, at `i`. */
  predicate MeridiemAt(s: string, i: nat)
  {
    i + 2 <= |s| && (Upper(s[i..i + 2]) == "AM" || Upper(s[i..i + 2]) == "PM")
  }

  /** `/(\d)(AM|PM)/i` at `p`: a digit and AM or PM; the result is where the space goes. */
  function DigitMeridiemAt(s: string, p: nat): (r: Option<nat>)
    ensures r.Some? ==> r.value == p + 1 && p + 3 <= |s|
  {
    if p < |s| && IsDigit(s[p]) && MeridiemAt(s, p + 1) then Some(p + 1) else None
  }

  /** `.replace(/(\d)(AM|PM)/i, "$1 $2")`: a space after the first such digit. */
  function SpaceBeforeMeridiem(s: string): (r: string)
  {
    match FirstMatch(s, 0, DigitMeridiemAt)
    case None => s
    case Some((p, e)) => s[..e] + " " + s[e..]
  }

  /** The first of several air times: the part before "&", or of two parts split by "/" the one with AM/PM. */
  function FirstTime(airTime: string): (r: string)
  {
    if '&' in airTime then Trim(Split(airTime, '&')[0])
    else if '/' in airTime then
      var parts := Split(airTime, '/');
      SplitHasTwo(airTime, '/');
      var first := Trim(parts[0]);
      if !HasMeridiem(first) && parts[1] != "" then Trim(parts[1]) else first
    else airTime
  }

  /** normalizeAirTime: the first of several times, a space before AM/PM, trimmed. */
  function NormalizeAirTime(airTime: string): (r: string)
    ensures Trimmed(r)
  {
    Trim(SpaceBeforeMeridiem(FirstTime(airTime)))
  }

  lemma {:induction false} SplitHasTwo(s: string, sep: char)
    requires sep in s
    ensures |Split(s, sep)| >= 2
  {
    if s[0] != sep {
      SplitHasTwo(s[1..], sep);
    }
  }

  /** No letter at `p + 1`, so no AM/PM there. */
  lemma NoDigitMeridiemAt(s: string, p: nat)
    requires p + 1 >= |s| || !IsAsciiLetter(s[p + 1])
    ensures DigitMeridiemAt(s, p).None?
  {
    if p + 3 <= |s| {
      assert Upper(s[p + 1..p + 3])[0] == UpperChar(s[p + 1]);
    }
  }

  /** A digit directly followed by AM or PM at the end gets the space. */
  lemma SpaceBeforeFinalMeridiem(time: string, m: string)
    requires time != "" && NoLetters(time) && IsDigit(time[|time| - 1])
    requires Upper(m) == "AM" || Upper(m) == "PM"
    ensures SpaceBeforeMeridiem(time + m) == time + " " + m
  {
    var s := time + m;
    var n := |time|;
    forall j | 0 <= j < n - 1
      ensures DigitMeridiemAt(s, j).None?
    {
      assert s[j + 1] == time[j + 1];
      NoDigitMeridiemAt(s, j);
    }
    assert s[n..n + 2] == m;
    assert s[n - 1] == time[n - 1];
    FirstMatchAt(s, 0, n - 1, DigitMeridiemAt);
    assert s[..n] == time && s[n..] == m;
  }

  /** With a space before AM or PM, nothing is inserted. */
  lemma SpacedMeridiemKept(time: string, m: string)
    requires NoLetters(time) && |m| == 2
    ensures SpaceBeforeMeridiem(time + " " + m) == time + " " + m
  {
    var u := time + " " + m;
    var n := |time|;
    forall j | 0 <= j <= |u|
      ensures DigitMeridiemAt(u, j).None?
    {
      if j + 1 < n {
        assert u[j + 1] == time[j + 1];
        NoDigitMeridiemAt(u, j);
      } else if j + 1 == n {
        assert u[j + 1] == ' ';
        NoDigitMeridiemAt(u, j);
      } else if j == n {
        assert u[j] == ' ';
      }
    }
    FirstMatchNone(u, 0, DigitMeridiemAt);
  }

  /** "7:00PM" is written "7:00 PM"; "7:00 PM" is kept as it is. */
  lemma NormalizeSpacesMeridiem(time: string, m: string)
    requires time != "" && NoLetters(time) && IsDigit(time[|time| - 1]) && !IsWs(time[0])
    requires '&' !in time && '/' !in time
    requires Upper(m) == "AM" || Upper(m) == "PM"
    ensures NormalizeAirTime(time + m) == time + " " + m
    ensures NormalizeAirTime(time + " " + m) == time + " " + m
  {
    assert Upper(m)[0] == UpperChar(m[0]) && Upper(m)[1] == UpperChar(m[1]);
    var s := time + m;
    var u := time + " " + m;
    assert '&' !in s && '/' !in s && '&' !in u && '/' !in u;
    SpaceBeforeFinalMeridiem(time, m);
    SpacedMeridiemKept(time, m);
    assert u[0] == time[0] && u[|u| - 1] == m[1];
    TrimOfTrimmed(u);
  }

  /** Of several times joined by "&", the first is kept. */
  lemma NormalizeTakesFirstOfSeveral(first: string, rest: string)
    requires '&' !in first && '/' !in first
    ensures NormalizeAirTime(first + "&" + rest) == NormalizeAirTime(Trim(first))
  {
    SplitAt(first, '&', rest);
    assert first + "&" + rest == first + ['&'] + rest;
    TrimInside(first);
    assert FirstTime(first + "&" + rest) == Trim(first);
  }

  /** Of two times joined by "/", the second is kept when the first has no AM/PM. */
  lemma NormalizeSlashPrefersMeridiem(first: string, second: string)
    requires '&' !in first && '/' !in first && '&' !in second && '/' !in second
    requires !HasMeridiem(Trim(first)) && second != ""
    ensures NormalizeAirTime(first + "/" + second) == NormalizeAirTime(Trim(second))
  {
    var s := first + "/" + second;
    assert s == first + ['/'] + second;
    assert '&' !in s;
    SplitAt(first, '/', second);
    SplitNoSep(second, '/');
    TrimInside(second);
    assert FirstTime(s) == Trim(second);
  }

  /** determineTimezone: both of its branches answer "EST". */
  function DetermineTimezone(airTime: string, etTime: string): (r: string)
    ensures r == "EST"
  {
    if Trim(airTime) == Trim(etTime) then "EST" else "EST"
  }

  // ----- One row -----

  /** One phone column of a row: its number and name cells, the label used without a name, primary or not. */
  datatype PhoneColumn = PhoneColumn(number: string, name: string, defaultLabel: string, isPrimary: bool)

  /** One phone column: kept when it cleans to a number the validator accepts and formats. */
  function PhoneFrom(lib: PhoneLib, col: PhoneColumn): (r: Option<ParsedPhone>)
    requires col.defaultLabel != ""
    ensures r.Some? ==> |r.value.number| > 0 && |r.value.labelText| > 0 && r.value.isPrimary == col.isPrimary
    ensures Trim(col.number) == "" ==> r.None?
  {
    if Trim(col.number) == "" then None
    else
      var cleaned := CleanPhoneNumber(Trim(col.number));
      if cleaned == "" then None
      else
        var v := ValidateAndFormatPhone(lib, cleaned);
        if v.isValid && v.formatted.Some? && v.formatted.value != "" then
          Some(ParsedPhone(OrElse(Some(Trim(col.name)), col.defaultLabel), v.formatted.value, col.isPrimary))
        else None
  }

  /** The present values, in order. */
  function Somes<T>(os: seq<Option<T>>): (r: seq<T>)
    ensures |r| <= |os|
    ensures forall x :: x in r ==> Some(x) in os
    ensures (forall j :: 0 <= j < |os| ==> os[j].None?) ==> r == []
  {
    if |os| == 0 then []
    else
      var rest := Somes(os[1..]);
      assert forall x :: x in rest ==> Some(x) in os[1..];
      if os[0].Some? then [os[0].value] + rest else rest
  }

  /** The four phone columns of a row, main phone first. */
  function Columns(row: CsvRow): (r: seq<PhoneColumn>)
    ensures |r| == 4 && r[0].isPrimary && forall j :: 1 <= j < 4 ==> !r[j].isPrimary
    ensures forall j :: 0 <= j < 4 ==> r[j].defaultLabel != ""
  {
    [PhoneColumn(row.mainPhone, row.mainName, "Main Station", true),
     PhoneColumn(row.phone2, row.name2, "Phone #2", false),
     PhoneColumn(row.phone3, row.name3, "Phone #3", false),
     PhoneColumn(row.phone4, row.name4, "Phone #4", false)]
  }

  /** What each of the four columns yields. */
  function ColumnPhones(lib: PhoneLib, row: CsvRow): (r: seq<Option<ParsedPhone>>)
    ensures |r| == 4
  {
    var cols := Columns(row);
    seq(4, j requires 0 <= j < 4 => PhoneFrom(lib, cols[j]))
  }

  /** The phones of the kept columns: only the first can be primary, and it is exactly when the main phone was kept. */
  function KeptPhones(os: seq<Option<ParsedPhone>>): (r: seq<ParsedPhone>)
    requires |os| == 4
    requires forall j :: 0 <= j < 4 && os[j].Some? ==>
      |os[j].value.number| > 0 && |os[j].value.labelText| > 0 && (os[j].value.isPrimary <==> j == 0)
    ensures |r| <= 4
    ensures forall i :: 0 <= i < |r| ==> |r[i].number| > 0 && |r[i].labelText| > 0
    ensures forall i :: 0 < i < |r| ==> !r[i].isPrimary
    ensures |r| > 0 ==> (r[0].isPrimary <==> os[0].Some?)
    ensures (forall j :: 0 <= j < 4 ==> os[j].None?) ==> r == []
  {
    SomesAll(os, (x: ParsedPhone) => |x.number| > 0 && |x.labelText| > 0);
    SomesAll(os[1..], (x: ParsedPhone) => !x.isPrimary);
    var rest := Somes(os[1..]);
    assert Somes(os) == if os[0].Some? then [os[0].value] + rest else rest;
    assert forall i :: 0 <= i < |rest| ==> rest[i] in rest;
    var r := Somes(os);
    assert forall i :: 0 <= i < |r| ==> r[i] in r;
    r
  }

  /** The phones a row yields, in column order. */
  function RowPhones(lib: PhoneLib, row: CsvRow): (r: seq<ParsedPhone>)
    ensures |r| <= 4
    ensures forall i :: 0 <= i < |r| ==> |r[i].number| > 0 && |r[i].labelText| > 0
    ensures forall i :: 0 < i < |r| ==> !r[i].isPrimary
    ensures |r| > 0 ==> (r[0].isPrimary <==> ColumnPhones(lib, row)[0].Some?)
    ensures (forall j :: 0 <= j < 4 ==> ColumnPhones(lib, row)[j].None?) ==> r == []
  {
    ColumnPhonesFacts(lib, row);
    KeptPhones(ColumnPhones(lib, row))
  }

  /** A property every present value has holds of every element of `Somes`. */
  lemma SomesAll<T>(os: seq<Option<T>>, P: T -> bool)
    requires forall j :: 0 <= j < |os| && os[j].Some? ==> P(os[j].value)
    ensures forall x :: x in Somes(os) ==> P(x)
  {
    forall x | x in Somes(os)
      ensures P(x)
    {
      var j :| 0 <= j < |os| && os[j] == Some(x);
    }
  }

  /** Column `j` yields what `PhoneFrom` makes of it. */
  lemma ColumnPhonesAre(lib: PhoneLib, row: CsvRow)
    ensures forall j :: 0 <= j < 4 ==> ColumnPhones(lib, row)[j] == PhoneFrom(lib, Columns(row)[j])
  {
  }

  /** What the column outcomes say about each phone. */
  lemma ColumnPhonesFacts(lib: PhoneLib, row: CsvRow)
    ensures var os := ColumnPhones(lib, row);
      forall j :: 0 <= j < 4 && os[j].Some? ==>
        |os[j].value.number| > 0 && |os[j].value.labelText| > 0 && (os[j].value.isPrimary <==> j == 0)
  {
  }

  /** The rank and city checks that come before any parsing. */
  predicate IsDataRow(row: CsvRow)
  {
    row.rank != "" && row.rank != "Rank" && row.city != ""
  }

  /** Every occurrence of a longer string is one of its prefix. */
  lemma {:induction false} ContainsPrefix(s: string, p: string, q: string)
    requires Contains(s, p + q)
    ensures Contains(s, p)
    decreases |s|
  {
    if StartsWith(s, p + q) {
      assert s[..|p|] == (p + q)[..|p|] == p;
    } else {
      ContainsPrefix(s[1..], p, q);
    }
  }

  /** The feed list: "3pm" when the feed mentions "3:00". */
  function FeedListOf(feed: string): (r: FeedList)
    ensures r == Feed3pm <==> Contains(Trim(feed), "3:00")
  {
    var f := Trim(feed);
    if Contains(f, "3:00") || Contains(f, "3:00 PM") then
      if Contains(f, "3:00 PM") then
        assert "3:00" + " PM" == "3:00 PM";
        ContainsPrefix(f, "3:00", " PM");
        Feed3pm
      else Feed3pm
    else Feed6pm
  }

  /** The air time cell used: the row's own, else the Eastern one, else "10:00 PM". */
  function AirTimeCell(row: CsvRow): (r: string)
    ensures Trim(row.airTime) != "" ==> r == Trim(row.airTime)
    ensures Trim(row.airTime) == "" && Trim(row.etTime) != "" ==> r == Trim(row.etTime)
    ensures Trim(row.airTime) == "" && Trim(row.etTime) == "" ==> r == "10:00 PM"
  {
    OrElse(Some(Trim(row.airTime)), OrElse(Some(Trim(row.etTime)), "10:00 PM"))
  }

  /**
   * parseCSVRow: a market exactly when the row is a data row, its rank
   * parses as an integer and at least one phone survives; the market
   * carries that number, the trimmed city and "EST".
   */
  function ParseCsvRow(lib: PhoneLib, row: CsvRow): (r: Option<ParsedMarket>)
    ensures r.Some? <==> IsDataRow(row) && ParseIntJs(Trim(row.rank)).Some? && RowPhones(lib, row) != []
    ensures r.Some? ==>
      var m := r.value;
      m.marketNumber == ParseIntJs(Trim(row.rank)).value && m.name == Trim(row.city) &&
      m.timezone == "EST" && m.airTime == NormalizeAirTime(AirTimeCell(row)) && m.list == FeedListOf(row.feed) &&
      m.stationCallLetters == StationCallLetters(row.station) && m.phones == RowPhones(lib, row)
  {
    if !IsDataRow(row) then None
    else match ParseIntJs(Trim(row.rank))
      case None => None
      case Some(n) =>
        var phones := RowPhones(lib, row);
        if |phones| == 0 then None
        else
          Some(ParsedMarket(n, Trim(row.city), StationCallLetters(row.station), NormalizeAirTime(AirTimeCell(row)),
                            DetermineTimezone(row.airTime, row.etTime), FeedListOf(row.feed), phones))
  }
}
