/**
 * parseCSV: a whole market file. Blank lines are dropped, the header row
 * names the columns, every data row goes through the row parser, rows with
 * the same market number are merged into the first of them, and the
 * markets come back ordered by number.
 */
module CsvFile {
  import opened Common
  import opened Sorting
  import opened MarketRules
  import opened PhoneRules
  import opened CsvLine
  import opened CsvParser

  datatype ParseResult = CsvParsed(markets: seq<ParsedMarket>) | CsvError(message: string)

  const TooShortMessage := "CSV file must have at least a header row and one data row"

  predicate IsNonBlank(line: string) { |line| > 0 }

  /** The lines of the text, trimmed, without the blank ones. */
  function NonBlankLines(text: string): (r: seq<string>)
    ensures forall i :: 0 <= i < |r| ==> |r[i]| > 0
  {
    Filter(TrimAll(Split(text, '\n')), IsNonBlank)
  }

  // ----- The header -----

  /** `.replace(/^"|"$/g, "")`: one leading quote and one trailing quote dropped. */
  function StripOuterQuotes(h: string): (r: string)
    ensures |h| >= 2 && h[0] == '"' && h[|h| - 1] == '"' ==> r == h[1..|h| - 1]
    ensures (|h| == 0 || (h[0] != '"' && h[|h| - 1] != '"')) ==> r == h
    ensures |r| <= |h|
  {
    var a := if |h| > 0 && h[0] == '"' then h[1..] else h;
    if |a| > 0 && a[|a| - 1] == '"' then a[..|a| - 1] else a
  }

  /** The column names of the header line, each trimmed and unquoted. */
  function HeaderNames(line: string): (r: seq<string>)
    ensures |r| == |Split(line, ',')|
  {
    var parts := Split(line, ',');
    seq(|parts|, i requires 0 <= i < |parts| => StripOuterQuotes(Trim(parts[i])))
  }

  /**
   * `headerMap`, filled by one pass over the header: every name maps to a
   * column holding it, and when a name repeats the last column wins.
   */
  function HeaderMap(header: seq<string>): (r: map<string, nat>)
    ensures forall name :: name in r <==> name in header
    ensures forall name :: name in r ==>
      (r[name] < |header| && header[r[name]] == name && forall j :: r[name] < j < |header| ==> header[j] != name)
  {
    if |header| == 0 then map[]
    else
      var init := header[..|header| - 1];
      assert header == init + [header[|header| - 1]];
      HeaderMap(init)[header[|header| - 1] := |header| - 1]
  }

  /** `values[headerMap[name]] || ""`: the cell under the named column, "" when the column or the cell is missing. */
  function Cell(values: seq<string>, headerMap: map<string, nat>, name: string): string
  {
    if name in headerMap && headerMap[name] < |values| then values[headerMap[name]] else ""
  }

  /** The cell under the last column with that name, and "" for a name the header lacks. */
  lemma CellOfHeader(values: seq<string>, header: seq<string>, name: string)
    ensures name !in header ==> Cell(values, HeaderMap(header), name) == ""
    ensures forall i :: 0 <= i < |header| && header[i] == name && (forall j :: i < j < |header| ==> header[j] != name) ==>
      Cell(values, HeaderMap(header), name) == (if i < |values| then values[i] else "")
  {
    var m := HeaderMap(header);
    forall i | 0 <= i < |header| && header[i] == name && (forall j :: i < j < |header| ==> header[j] != name)
      ensures m[name] == i
    {
      assert name in header;
      assert header[i] == name && header[m[name]] == name;
    }
  }

  /** The row the data line's values make under the header. */
  function RowOf(values: seq<string>, headerMap: map<string, nat>): CsvRow
  {
    CsvRow(Cell(values, headerMap, "Feed"), Cell(values, headerMap, "Rank"),
           Cell(values, headerMap, "Station"), Cell(values, headerMap, "City"),
           Cell(values, headerMap, "Air Time"), Cell(values, headerMap, "ET Time"),
           Cell(values, headerMap, "Main Name"), Cell(values, headerMap, "Main Phone #"),
           Cell(values, headerMap, "#2 Name"), Cell(values, headerMap, "Phone #2"),
           Cell(values, headerMap, "#3 Name"), Cell(values, headerMap, "Phone #3"),
           Cell(values, headerMap, "#4 Name"), Cell(values, headerMap, "Phone #4"))
  }

  /** One data line: split with trimmed fields, laid out by the header and parsed as a row. */
  function LineMarket(lib: PhoneLib, headerMap: map<string, nat>, line: string): Option<ParsedMarket>
  {
    ParseCsvRow(lib, RowOf(Fields(line, true), headerMap))
  }

  /** The line parser under one header. */
  function LineParser(lib: PhoneLib, headerMap: map<string, nat>): string -> Option<ParsedMarket>
  {
    (line: string) => LineMarket(lib, headerMap, line)
  }

  /** The markets the data lines yield, in line order; lines the parser rejects are skipped. */
  function ParsedRows(parse: string -> Option<ParsedMarket>, lines: seq<string>): seq<ParsedMarket>
  {
    if |lines| == 0 then []
    else
      var rest := ParsedRows(parse, lines[..|lines| - 1]);
      match parse(lines[|lines| - 1])
      case None => rest
      case Some(p) => rest + [p]
  }

  /** Every parsed row comes from a data line, and every data line the parser accepts gives one. */
  lemma {:induction false} ParsedRowsFromLines(parse: string -> Option<ParsedMarket>, lines: seq<string>)
    ensures |ParsedRows(parse, lines)| <= |lines|
    ensures forall p :: p in ParsedRows(parse, lines) ==> exists l :: l in lines && parse(l) == Some(p)
    ensures forall l :: l in lines && parse(l).Some? ==> parse(l).value in ParsedRows(parse, lines)
  {
    if |lines| > 0 {
      var init := lines[..|lines| - 1];
      var last := lines[|lines| - 1];
      assert lines == init + [last];
      ParsedRowsFromLines(parse, init);
    }
  }

  // ----- Merging rows of the same market -----

  function PhoneNumbers(phones: seq<ParsedPhone>): set<string>
  {
    set p | p in phones :: p.number
  }

  function MarketNumbers(ms: seq<ParsedMarket>): set<int>
  {
    set m | m in ms :: m.marketNumber
  }

  /** The incoming phones whose numbers are not `known`, in their order. */
  function NewPhones(known: set<string>, incoming: seq<ParsedPhone>): (r: seq<ParsedPhone>)
    ensures forall p :: p in r <==> p in incoming && p.number !in known
    ensures |r| <= |incoming|
  {
    if |incoming| == 0 then []
    else
      var init := incoming[..|incoming| - 1];
      var last := incoming[|incoming| - 1];
      assert incoming == init + [last];
      NewPhones(known, init) + (if last.number in known then [] else [last])
  }

  /** A later copy merged into the market: the copy's phones with new numbers appended, the 6 PM feed preferred. */
  function MergeCopy(existing: ParsedMarket, copy: ParsedMarket): ParsedMarket
  {
    existing.(phones := existing.phones + NewPhones(PhoneNumbers(existing.phones), copy.phones),
              list := if copy.list == Feed6pm then Feed6pm else existing.list)
  }

  /** Where the market with number `n` is, if any market has it. */
  function IndexOfNumber(ms: seq<ParsedMarket>, n: int): (r: Option<nat>)
    ensures r.Some? ==> r.value < |ms| && ms[r.value].marketNumber == n
    ensures r.None? <==> n !in MarketNumbers(ms)
  {
    if |ms| == 0 then None
    else if ms[0].marketNumber == n then Some(0)
    else
      assert forall m :: m in ms ==> m == ms[0] || m in ms[1..];
      match IndexOfNumber(ms[1..], n)
      case None => None
      case Some(k) => Some(k + 1)
  }

  /** One parsed row taken into the markets so far: merged into its market, or appended as a new one. */
  function MergeRow(ms: seq<ParsedMarket>, p: ParsedMarket): seq<ParsedMarket>
  {
    match IndexOfNumber(ms, p.marketNumber)
    case None => ms + [p]
    case Some(i) => ms[i := MergeCopy(ms[i], p)]
  }

  /** Every parsed row taken in, in order. */
  function MergeAll(ps: seq<ParsedMarket>): seq<ParsedMarket>
  {
    if |ps| == 0 then [] else MergeRow(MergeAll(ps[..|ps| - 1]), ps[|ps| - 1])
  }

  // ----- What a merged market is made of -----

  /** The first row with number `n`. */
  function FirstCopy(ps: seq<ParsedMarket>, n: int): (r: Option<ParsedMarket>)
    ensures r.Some? <==> n in MarketNumbers(ps)
    ensures r.Some? ==> exists k :: 0 <= k < |ps| && ps[k] == r.value && r.value.marketNumber == n &&
                                    (forall j :: 0 <= j < k ==> ps[j].marketNumber != n)
  {
    if |ps| == 0 then None
    else
      var init := ps[..|ps| - 1];
      var last := ps[|ps| - 1];
      NumbersSnoc(init, last);
      assert ps == init + [last];
      if n in MarketNumbers(init) then
        var r := FirstCopy(init, n);
        var k :| 0 <= k < |init| && init[k] == r.value && r.value.marketNumber == n &&
          forall j :: 0 <= j < k ==> init[j].marketNumber != n;
        assert ps[k] == init[k];
        r
      else if last.marketNumber == n then
        assert forall j :: 0 <= j < |init| ==> ps[j].marketNumber != n by {
          forall j | 0 <= j < |init| ensures ps[j].marketNumber != n {
            assert init[j] in init;
          }
        }
        Some(last)
      else None
  }

  /** Every phone number the rows with number `n` carry. */
  function CopyNumbers(ps: seq<ParsedMarket>, n: int): set<string>
  {
    if |ps| == 0 then {}
    else
      var last := ps[|ps| - 1];
      CopyNumbers(ps[..|ps| - 1], n) + (if last.marketNumber == n then PhoneNumbers(last.phones) else {})
  }

  /** Some row with number `n` is on the 6 PM feed. */
  predicate AnyEveningCopy(ps: seq<ParsedMarket>, n: int)
  {
    exists k :: 0 <= k < |ps| && ps[k].marketNumber == n && ps[k].list == Feed6pm
  }

  /**
   * `m` is the merge of the rows with its number: the first row's name,
   * station, air time and time zone, that row's phones first, every phone
   * number any of the rows carries, and the 6 PM feed exactly when one of
   * them is on it.
   */
  predicate MergedFrom(m: ParsedMarket, ps: seq<ParsedMarket>)
  {
    match FirstCopy(ps, m.marketNumber)
    case None => false
    case Some(f) =>
      m.name == f.name && m.stationCallLetters == f.stationCallLetters && m.airTime == f.airTime &&
      m.timezone == f.timezone && f.phones <= m.phones &&
      PhoneNumbers(m.phones) == CopyNumbers(ps, m.marketNumber) &&
      (m.list == Feed6pm <==> AnyEveningCopy(ps, m.marketNumber))
  }

  predicate UniqueNumbers(ms: seq<ParsedMarket>)
  {
    forall i, j :: 0 <= i < j < |ms| ==> ms[i].marketNumber != ms[j].marketNumber
  }

  /** `ms` holds one market per number of the rows, each the merge of its rows. */
  predicate Summarizes(ms: seq<ParsedMarket>, ps: seq<ParsedMarket>)
  {
    UniqueNumbers(ms) && MarketNumbers(ms) == MarketNumbers(ps) &&
    forall i :: 0 <= i < |ms| ==> MergedFrom(ms[i], ps)
  }

  lemma NumbersSnoc(ms: seq<ParsedMarket>, p: ParsedMarket)
    ensures MarketNumbers(ms + [p]) == MarketNumbers(ms) + {p.marketNumber}
  {
    var l := ms + [p];
    assert forall m :: m in l <==> m in ms || m == p;
  }

  lemma PhoneNumbersAppend(a: seq<ParsedPhone>, b: seq<ParsedPhone>)
    ensures PhoneNumbers(a + b) == PhoneNumbers(a) + PhoneNumbers(b)
  {
    var l := a + b;
    assert forall p :: p in l <==> p in a || p in b;
  }

  /** The new phones bring exactly the incoming numbers not yet known. */
  lemma NewPhonesNumbers(known: set<string>, incoming: seq<ParsedPhone>)
    ensures PhoneNumbers(NewPhones(known, incoming)) == PhoneNumbers(incoming) - known
  {
    var r := NewPhones(known, incoming);
    forall x | x in PhoneNumbers(incoming) - known
      ensures x in PhoneNumbers(r)
    {
      var p :| p in incoming && p.number == x;
      assert p in r;
    }
  }

  /** The facts about the rows up to one more. */
  lemma CopiesSnoc(ps: seq<ParsedMarket>, p: ParsedMarket, n: int)
    ensures FirstCopy(ps + [p], n) ==
      if n in MarketNumbers(ps) then FirstCopy(ps, n) else if p.marketNumber == n then Some(p) else None
    ensures CopyNumbers(ps + [p], n) == CopyNumbers(ps, n) + (if p.marketNumber == n then PhoneNumbers(p.phones) else {})
    ensures AnyEveningCopy(ps + [p], n) <==> AnyEveningCopy(ps, n) || (p.marketNumber == n && p.list == Feed6pm)
  {
    var l := ps + [p];
    assert l[..|l| - 1] == ps;
    if AnyEveningCopy(l, n) {
      var k :| 0 <= k < |l| && l[k].marketNumber == n && l[k].list == Feed6pm;
      if k < |ps| {
        assert ps[k] == l[k];
      }
    }
    if AnyEveningCopy(ps, n) {
      var k :| 0 <= k < |ps| && ps[k].marketNumber == n && ps[k].list == Feed6pm;
      assert l[k] == ps[k];
    }
    if p.marketNumber == n && p.list == Feed6pm {
      assert l[|ps|] == p;
    }
  }

  /** Rows without number `n` carry no phones and no feed for it. */
  lemma {:induction false} NoCopies(ps: seq<ParsedMarket>, n: int)
    requires n !in MarketNumbers(ps)
    ensures CopyNumbers(ps, n) == {}
    ensures !AnyEveningCopy(ps, n)
  {
    if |ps| > 0 {
      var init := ps[..|ps| - 1];
      NumbersSnoc(init, ps[|ps| - 1]);
      assert ps == init + [ps[|ps| - 1]];
      NoCopies(init, n);
    }
    forall k | 0 <= k < |ps|
      ensures ps[k].marketNumber != n
    {
      assert ps[k] in ps;
    }
  }

  /** A market whose number the next row lacks is the merge of the rows so far and that row. */
  lemma OtherKept(m: ParsedMarket, ps: seq<ParsedMarket>, p: ParsedMarket)
    requires MergedFrom(m, ps) && m.marketNumber != p.marketNumber
    ensures MergedFrom(m, ps + [p])
  {
    CopiesSnoc(ps, p, m.marketNumber);
  }

  /** A row with a new number is the merge of itself. */
  lemma NewKept(ps: seq<ParsedMarket>, p: ParsedMarket)
    requires p.marketNumber !in MarketNumbers(ps)
    ensures MergedFrom(p, ps + [p])
  {
    CopiesSnoc(ps, p, p.marketNumber);
    NoCopies(ps, p.marketNumber);
  }

  /** A row with a known number, merged into its market, keeps that market the merge of its rows. */
  lemma CopyMerged(m: ParsedMarket, ps: seq<ParsedMarket>, p: ParsedMarket)
    requires MergedFrom(m, ps) && m.marketNumber == p.marketNumber
    ensures MergedFrom(MergeCopy(m, p), ps + [p])
  {
    var n := m.marketNumber;
    var c := MergeCopy(m, p);
    CopiesSnoc(ps, p, n);
    var known := PhoneNumbers(m.phones);
    PhoneNumbersAppend(m.phones, NewPhones(known, p.phones));
    NewPhonesNumbers(known, p.phones);
    assert PhoneNumbers(c.phones) == known + (PhoneNumbers(p.phones) - known);
    assert m.phones <= c.phones;
  }

  /** A row with a new number, appended, keeps the markets the merge of the rows. */
  lemma AppendSummarizes(ms: seq<ParsedMarket>, ps: seq<ParsedMarket>, p: ParsedMarket)
    requires Summarizes(ms, ps) && p.marketNumber !in MarketNumbers(ms)
    ensures Summarizes(ms + [p], ps + [p])
  {
    var r := ms + [p];
    NumbersSnoc(ps, p);
    NumbersSnoc(ms, p);
    forall i | 0 <= i < |ms|
      ensures MergedFrom(r[i], ps + [p]) && r[i].marketNumber != p.marketNumber
    {
      assert r[i] == ms[i] && ms[i] in ms;
      OtherKept(ms[i], ps, p);
    }
    NewKept(ps, p);
  }

  /** Replacing a market by one with the same number keeps the set of numbers. */
  lemma NumbersUpdate(ms: seq<ParsedMarket>, k: nat, c: ParsedMarket)
    requires k < |ms| && c.marketNumber == ms[k].marketNumber
    ensures MarketNumbers(ms[k := c]) == MarketNumbers(ms)
  {
    var r := ms[k := c];
    forall x | x in MarketNumbers(ms) ensures x in MarketNumbers(r) {
      var m :| m in ms && m.marketNumber == x;
      var i :| 0 <= i < |ms| && ms[i] == m;
      assert r[i] in r && r[i].marketNumber == x;
    }
    forall x | x in MarketNumbers(r) ensures x in MarketNumbers(ms) {
      var m :| m in r && m.marketNumber == x;
      var i :| 0 <= i < |r| && r[i] == m;
      assert ms[i] in ms && ms[i].marketNumber == x;
    }
  }

  /** A row with a known number, merged into the market at `k`, keeps the markets the merge of the rows. */
  lemma UpdateSummarizes(ms: seq<ParsedMarket>, ps: seq<ParsedMarket>, p: ParsedMarket, k: nat)
    requires Summarizes(ms, ps) && k < |ms| && ms[k].marketNumber == p.marketNumber
    ensures Summarizes(ms[k := MergeCopy(ms[k], p)], ps + [p])
  {
    var r := ms[k := MergeCopy(ms[k], p)];
    NumbersSnoc(ps, p);
    assert p.marketNumber in MarketNumbers(ps) by {
      assert ms[k] in ms;
    }
    forall i | 0 <= i < |ms| && i != k
      ensures MergedFrom(r[i], ps + [p])
    {
      OtherKept(ms[i], ps, p);
    }
    CopyMerged(ms[k], ps, p);
    NumbersUpdate(ms, k, MergeCopy(ms[k], p));
  }

  /** Taking in one more row keeps the markets the merge of the rows. */
  lemma MergeRowSummarizes(ms: seq<ParsedMarket>, ps: seq<ParsedMarket>, p: ParsedMarket)
    requires Summarizes(ms, ps)
    ensures Summarizes(MergeRow(ms, p), ps + [p])
  {
    match IndexOfNumber(ms, p.marketNumber)
    case None => AppendSummarizes(ms, ps, p);
    case Some(k) => UpdateSummarizes(ms, ps, p, k);
  }

  /** The merged markets are one per number of the rows, each the merge of its rows. */
  lemma {:induction false} MergeAllSummarizes(ps: seq<ParsedMarket>)
    ensures Summarizes(MergeAll(ps), ps)
  {
    if |ps| > 0 {
      var init := ps[..|ps| - 1];
      MergeAllSummarizes(init);
      MergeRowSummarizes(MergeAll(init), init, ps[|ps| - 1]);
      assert init + [ps[|ps| - 1]] == ps;
    }
  }

  // ----- Ordering -----

  /** `(a, b) => a.marketNumber - b.marketNumber` as a "not after" relation. */
  predicate NumberLe(a: ParsedMarket, b: ParsedMarket) { a.marketNumber <= b.marketNumber }

  /** A market in front of markets with other numbers keeps the numbers unique. */
  lemma UniqueCons(h: ParsedMarket, t: seq<ParsedMarket>)
    requires UniqueNumbers(t) && h.marketNumber !in MarketNumbers(t)
    ensures UniqueNumbers([h] + t)
  {
    var l := [h] + t;
    forall i, j | 0 <= i < j < |l|
      ensures l[i].marketNumber != l[j].marketNumber
    {
      assert l[j] == t[j - 1] && t[j - 1] in t;
      if i > 0 {
        assert l[i] == t[i - 1];
      }
    }
  }

  lemma NumbersCons(h: ParsedMarket, t: seq<ParsedMarket>)
    ensures MarketNumbers([h] + t) == {h.marketNumber} + MarketNumbers(t)
  {
    var l := [h] + t;
    assert forall m :: m in l <==> m == h || m in t;
  }

  /** Inserting a market with a new number keeps the numbers unique. */
  lemma {:induction false} InsertUnique(x: ParsedMarket, s: seq<ParsedMarket>)
    requires UniqueNumbers(s) && x.marketNumber !in MarketNumbers(s)
    ensures UniqueNumbers(Insert(x, s, NumberLe))
    ensures MarketNumbers(Insert(x, s, NumberLe)) == MarketNumbers(s) + {x.marketNumber}
  {
    if |s| == 0 {
      assert Insert(x, s, NumberLe) == [x] + s;
      NumbersCons(x, s);
      UniqueCons(x, s);
    } else if NumberLe(x, s[0]) {
      NumbersCons(x, s);
      UniqueCons(x, s);
    } else {
      var t := s[1..];
      assert s == [s[0]] + t;
      NumbersCons(s[0], t);
      assert UniqueNumbers(t);
      InsertUnique(x, t);
      var r := Insert(x, t, NumberLe);
      forall m | m in t ensures m.marketNumber != s[0].marketNumber
      {
        var k :| 0 <= k < |t| && t[k] == m;
        assert s[k + 1] == m;
      }
      assert s[0].marketNumber !in MarketNumbers(t);
      NumbersCons(s[0], r);
      UniqueCons(s[0], r);
    }
  }

  /** Sorting keeps the numbers unique. */
  lemma {:induction false} SortUnique(s: seq<ParsedMarket>)
    requires UniqueNumbers(s)
    ensures UniqueNumbers(SortBy(s, NumberLe))
    ensures MarketNumbers(SortBy(s, NumberLe)) == MarketNumbers(s)
  {
    if |s| > 0 {
      var t := s[1..];
      assert s == [s[0]] + t;
      NumbersCons(s[0], t);
      forall m | m in t ensures m.marketNumber != s[0].marketNumber
      {
        var k :| 0 <= k < |t| && t[k] == m;
        assert s[k + 1] == m;
      }
      SortUnique(t);
      InsertUnique(s[0], SortBy(t, NumberLe));
    }
  }

  /** Sorting markets with unique numbers orders them strictly by number and keeps them all. */
  lemma SortedByNumber(ms: seq<ParsedMarket>)
    requires UniqueNumbers(ms)
    ensures var r := SortBy(ms, NumberLe);
      (forall i, j :: 0 <= i < j < |r| ==> r[i].marketNumber < r[j].marketNumber) &&
      (forall m :: m in r <==> m in ms)
  {
    assert TotalPreorder(NumberLe);
    var r := SortBy(ms, NumberLe);
    SortBySorted(ms, NumberLe);
    SortUnique(ms);
    assert forall m :: m in r <==> m in multiset(ms);
  }

  // ----- The whole file -----

  /**
   * The merged rows, ordered by number, have distinct numbers in ascending
   * order, one per number among the rows, and each is the merge of the rows
   * with its number.
   */
  lemma SortedMergeOfRows(ps: seq<ParsedMarket>)
    ensures var ms := SortBy(MergeAll(ps), NumberLe);
      (forall i, j :: 0 <= i < j < |ms| ==> ms[i].marketNumber < ms[j].marketNumber) &&
      MarketNumbers(ms) == MarketNumbers(ps) &&
      (forall i :: 0 <= i < |ms| ==> MergedFrom(ms[i], ps))
  {
    var merged := MergeAll(ps);
    MergeAllSummarizes(ps);
    SortedByNumber(merged);
    SortUnique(merged);
    SameMergedFrom(merged, SortBy(merged, NumberLe), ps);
  }

  /** Markets in another order are still each the merge of their rows. */
  lemma SameMergedFrom(ms: seq<ParsedMarket>, r: seq<ParsedMarket>, ps: seq<ParsedMarket>)
    requires forall i :: 0 <= i < |ms| ==> MergedFrom(ms[i], ps)
    requires forall m :: m in r <==> m in ms
    ensures forall i :: 0 <= i < |r| ==> MergedFrom(r[i], ps)
  {
    forall i | 0 <= i < |r|
      ensures MergedFrom(r[i], ps)
    {
      assert r[i] in r;
      var k :| 0 <= k < |ms| && ms[k] == r[i];
    }
  }

  /** The markets the data lines yield, laid out by the header line. */
  function DataMarkets(lib: PhoneLib, lines: seq<string>): seq<ParsedMarket>
    requires |lines| >= 1
  {
    ParsedRows(LineParser(lib, HeaderMap(HeaderNames(lines[0]))), lines[1..])
  }

  /** parseCSV's result: an error for fewer than two non-blank lines, else the merged markets by number. */
  function ParseCsvSpec(lib: PhoneLib, text: string): ParseResult
  {
    var lines := NonBlankLines(text);
    if |lines| < 2 then CsvError(TooShortMessage)
    else CsvParsed(SortBy(MergeAll(DataMarkets(lib, lines)), NumberLe))
  }

  /**
   * Fewer than two non-blank lines is an error; otherwise the markets have
   * distinct numbers in ascending order, one per number among the parsed
   * rows, and each is the merge of the rows with its number.
   */
  lemma ParseCsvOutcome(lib: PhoneLib, text: string)
    ensures ParseCsvSpec(lib, text).CsvError? <==> |NonBlankLines(text)| < 2
    ensures ParseCsvSpec(lib, text).CsvError? ==> ParseCsvSpec(lib, text).message == TooShortMessage
    ensures ParseCsvSpec(lib, text).CsvParsed? ==>
      var ms := ParseCsvSpec(lib, text).markets;
      var ps := DataMarkets(lib, NonBlankLines(text));
      (forall i, j :: 0 <= i < j < |ms| ==> ms[i].marketNumber < ms[j].marketNumber) &&
      MarketNumbers(ms) == MarketNumbers(ps) &&
      (forall i :: 0 <= i < |ms| ==> MergedFrom(ms[i], ps))
  {
    var lines := NonBlankLines(text);
    if |lines| >= 2 {
      SortedMergeOfRows(DataMarkets(lib, lines));
    }
  }

  // ----- The parser as written -----

  /** `existingNumbers` is taken once; every incoming phone with a number outside it is pushed. */
  method MergePhones(existing: seq<ParsedPhone>, incoming: seq<ParsedPhone>) returns (merged: seq<ParsedPhone>)
    ensures merged == existing + NewPhones(PhoneNumbers(existing), incoming)
  {
    var known := PhoneNumbers(existing);
    merged := existing;
    for j := 0 to |incoming|
      invariant merged == existing + NewPhones(known, incoming[..j])
    {
      assert incoming[..j + 1][..j] == incoming[..j];
      if incoming[j].number !in known {
        merged := merged + [incoming[j]];
      }
    }
    assert incoming[..|incoming|] == incoming;
  }

  /** `marketMap` sends each number to the position of its market among `markets`. */
  ghost predicate IndexedBy(markets: seq<ParsedMarket>, marketMap: map<int, nat>)
  {
    (forall n :: n in marketMap <==> n in MarketNumbers(markets)) &&
    forall n :: n in marketMap ==> marketMap[n] < |markets| && markets[marketMap[n]].marketNumber == n
  }

  /** With unique numbers, the position holding a number is the one the search finds. */
  lemma {:induction false} IndexOfUnique(ms: seq<ParsedMarket>, n: int, k: nat)
    requires UniqueNumbers(ms) && k < |ms| && ms[k].marketNumber == n
    ensures IndexOfNumber(ms, n) == Some(k)
  {
    assert ms[k] in ms;
    var r := IndexOfNumber(ms, n);
    assert ms[r.value].marketNumber == ms[k].marketNumber;
  }

  /** `header.forEach((h, i) => headerMap[h] = i)`. */
  method BuildHeaderMap(header: seq<string>) returns (headerMap: map<string, nat>)
    ensures headerMap == HeaderMap(header)
  {
    headerMap := map[];
    for h := 0 to |header|
      invariant headerMap == HeaderMap(header[..h])
    {
      assert header[..h + 1][..h] == header[..h];
      headerMap := headerMap[header[h] := h];
    }
    assert header[..|header|] == header;
  }

  /** One parsed row into `markets` and `marketMap`: merged into the market the map finds, or pushed and recorded. */
  method TakeRow(p: ParsedMarket, markets: seq<ParsedMarket>, marketMap: map<int, nat>)
    returns (markets': seq<ParsedMarket>, marketMap': map<int, nat>)
    requires IndexedBy(markets, marketMap) && UniqueNumbers(markets)
    ensures markets' == MergeRow(markets, p)
    ensures IndexedBy(markets', marketMap')
  {
    if p.marketNumber in marketMap {
      var k := marketMap[p.marketNumber];
      IndexOfUnique(markets, p.marketNumber, k);
      var existing := markets[k];
      var phones := MergePhones(existing.phones, p.phones);
      var list := if p.list == Feed6pm then Feed6pm else existing.list;
      markets' := markets[k := existing.(phones := phones, list := list)];
      marketMap' := marketMap;
      NumbersUpdate(markets, k, markets'[k]);
    } else {
      NumbersSnoc(markets, p);
      marketMap' := marketMap[p.marketNumber := |markets|];
      markets' := markets + [p];
    }
  }

  /** The line step as the loop writes it: the line's values, laid out as a row by the header, through the row parser. */
  method ParseDataLine(lib: PhoneLib, headerMap: map<string, nat>, line: string) returns (parsed: Option<ParsedMarket>)
    ensures parsed == LineParser(lib, headerMap)(line)
  {
    var values := ParseLine(line, true);
    parsed := ParseCsvRow(lib, RowOf(values, headerMap));
  }

  /**
   * The loop over the data lines, with `parse` the line step above: each
   * line parsed and, when it yields a market, merged by market number.
   */
  method MergeLines(parse: string -> Option<ParsedMarket>, data: seq<string>) returns (markets: seq<ParsedMarket>)
    ensures markets == MergeAll(ParsedRows(parse, data))
  {
    markets := [];
    var marketMap: map<int, nat> := map[];
    var i := 0;
    while i < |data|
      invariant 0 <= i <= |data|
      invariant markets == MergeAll(ParsedRows(parse, data[..i]))
      invariant IndexedBy(markets, marketMap)
    {
      var parsed := parse(data[i]);
      PrefixOfPrefix(data, i);
      ghost var rows := ParsedRows(parse, data[..i]);
      if parsed.Some? {
        var p := parsed.value;
        assert (rows + [p])[..|rows|] == rows;
        MergeAllSummarizes(rows);
        markets, marketMap := TakeRow(p, markets, marketMap);
      }
      i := i + 1;
    }
    assert data[..|data|] == data;
  }

  /** parseCSV: the header map, the merge over the data lines, then the sort by market number. */
  method ParseCsv(lib: PhoneLib, text: string) returns (r: ParseResult)
    ensures r == ParseCsvSpec(lib, text)
  {
    var lines := NonBlankLines(text);
    if |lines| < 2 {
      return CsvError(TooShortMessage);
    }
    var headerMap := BuildHeaderMap(HeaderNames(lines[0]));
    var markets := MergeLines(LineParser(lib, headerMap), lines[1..]);
    r := CsvParsed(SortBy(markets, NumberLe));
  }
}
