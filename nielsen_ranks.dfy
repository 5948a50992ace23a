/**
 * update-csv-ranks: the Rank column of the market file rewritten from a
 * table of Nielsen market ranks. The City cell is cleaned to the upper-case
 * city before its first comma, looked up by exact key, then by the first key
 * that contains it or that it contains, then by three special cases.
 *
 * The table is a parameter: an object literal's entries, in insertion order,
 * with distinct keys.
 */
module NielsenRanks {
  import opened Common
  import CsvFile
  import opened CsvLine
  import opened RankCsv

  datatype Entry = Entry(key: string, rank: nat)

  predicate DistinctKeys(table: seq<Entry>)
  {
    forall i, j :: 0 <= i < j < |table| ==> table[i].key != table[j].key
  }

  // ----- cleanCityName -----

  /** The text before the first comma: what `^([^,]+)` captures when it matches. */
  function BeforeComma(s: string): (r: string)
    ensures ',' !in r
    ensures r == s || (|r| < |s| && s[|r|] == ',' && s[..|r|] == r)
  {
    match IndexOfChar(s, ',')
    case None => s
    case Some(k) => s[..k]
  }

  /** Upper-casing a trimmed text without commas keeps it so, and leaves no lower-case letter. */
  lemma UpperCity(s: string)
    requires Trimmed(s) && ',' !in s
    ensures Trimmed(Upper(s)) && ',' !in Upper(s)
    ensures forall i :: 0 <= i < |Upper(s)| ==> !('a' <= Upper(s)[i] <= 'z')
  {
    var u := Upper(s);
    assert forall i :: 0 <= i < |s| ==> IsWs(u[i]) == IsWs(s[i]);
    assert forall i :: 0 <= i < |s| ==> (u[i] == ',') == (s[i] == ',');
  }

  /**
   * cleanCityName: the quotes at the ends dropped and the text trimmed; when
   * it starts with a character other than a comma, the part before the first
   * comma, trimmed and upper-cased.
   */
  function CleanCityName(city: string): (r: string)
    ensures Trimmed(r)
    ensures ',' in r ==> r[0] == ','
    ensures ',' !in r ==> forall i :: 0 <= i < |r| ==> !('a' <= r[i] <= 'z')
  {
    if city == "" then ""
    else
      var cleaned := Trim(CsvFile.StripOuterQuotes(city));
      if |cleaned| > 0 && cleaned[0] != ',' then
        var name := Trim(BeforeComma(cleaned));
        TrimInside(BeforeComma(cleaned));
        UpperCity(name);
        Upper(name)
      else cleaned
  }

  // ----- findNielsenRank -----

  /** `nielsenRankings[city]` when it is truthy: the rank of the entry with that key, unless it is 0. */
  function ExactRank(table: seq<Entry>, city: string): (r: Option<nat>)
    ensures r.Some? <==> exists i :: 0 <= i < |table| && table[i].key == city && table[i].rank != 0
    ensures r.Some? ==> exists i :: 0 <= i < |table| && table[i].key == city && table[i].rank == r.value
  {
    if |table| == 0 then None
    else if table[0].key == city && table[0].rank != 0 then Some(table[0].rank)
    else
      var rest := ExactRank(table[1..], city);
      assert forall i :: 1 <= i < |table| ==> table[i] == table[1..][i - 1];
      if rest.Some? then
        assert exists i :: 0 <= i < |table[1..]| && table[1..][i].key == city && table[1..][i].rank == rest.value;
        rest
      else None
  }

  /** The partial match: the key is in the city or the city is in the key. */
  predicate Overlaps(city: string, key: string)
  {
    Contains(city, key) || Contains(key, city)
  }

  /** The first entry, in table order, whose key overlaps the city. */
  function PartialIndex(table: seq<Entry>, city: string): (r: Option<nat>)
    ensures r.Some? ==> r.value < |table| && Overlaps(city, table[r.value].key)
    ensures r.Some? ==> forall j :: 0 <= j < r.value ==> !Overlaps(city, table[j].key)
    ensures r.None? <==> forall j :: 0 <= j < |table| ==> !Overlaps(city, table[j].key)
  {
    if |table| == 0 then None
    else if Overlaps(city, table[0].key) then Some(0)
    else
      match PartialIndex(table[1..], city)
      case None => None
      case Some(k) => Some(k + 1)
  }

  /** The loop over the table's entries, stopping at the first that overlaps. */
  method FindPartial(table: seq<Entry>, city: string) returns (r: Option<nat>)
    ensures r == PartialIndex(table, city)
  {
    var i := 0;
    while i < |table|
      invariant 0 <= i <= |table|
      invariant forall j :: 0 <= j < i ==> !Overlaps(city, table[j].key)
    {
      if Contains(city, table[i].key) || Contains(table[i].key, city) {
        return Some(i);
      }
      i := i + 1;
    }
    return None;
  }

  /** The three special cases tried when no key matches. */
  function SpecialRank(city: string): (r: Option<nat>)
    ensures r.Some? ==> r.value in {57, 83, 8}
    ensures r == Some(57) <==> Contains(city, "PENSACOLA") || Contains(city, "MOBILE")
    ensures r == Some(83) <==>
      !(Contains(city, "PENSACOLA") || Contains(city, "MOBILE")) && Contains(city, "BRYAN") && Contains(city, "TX")
    ensures r == Some(8) <==>
      !(Contains(city, "PENSACOLA") || Contains(city, "MOBILE")) && !(Contains(city, "BRYAN") && Contains(city, "TX")) &&
      Contains(city, "WASHINGTON") && Contains(city, "D.C")
  {
    if Contains(city, "PENSACOLA") || Contains(city, "MOBILE") then Some(57)
    else if Contains(city, "BRYAN") && Contains(city, "TX") then Some(83)
    else if Contains(city, "WASHINGTON") && Contains(city, "D.C") then Some(8)
    else None
  }

  /** The lookup on a cleaned city, without the guard for the empty city. */
  function RankOfCityAsWritten(table: seq<Entry>, city: string): Option<nat>
  {
    match ExactRank(table, city)
    case Some(rank) => Some(rank)
    case None =>
      match PartialIndex(table, city)
      case Some(k) => Some(table[k].rank)
      case None => SpecialRank(city)
  }

  /** findNielsenRank as written. */
  function NielsenRankAsWritten(table: seq<Entry>, cityField: string): Option<nat>
  {
    RankOfCityAsWritten(table, CleanCityName(cityField))
  }

  /** Every string contains the empty string. */
  lemma ContainsEmpty(s: string)
    ensures Contains(s, "")
  {
    assert s[..0] == "";
  }

  /**
   * As written, a City cell that cleans to nothing (empty, blank, or only a
   * pair of quotes) is contained in the first key, so it takes the first
   * entry's rank: New York's 1, in the source's table.
   */
  lemma EmptyCityTakesFirstRank(table: seq<Entry>, cityField: string)
    requires |table| > 0 && forall i :: 0 <= i < |table| ==> table[i].key != ""
    requires CleanCityName(cityField) == ""
    ensures NielsenRankAsWritten(table, cityField) == Some(table[0].rank)
  {
    ContainsEmpty(table[0].key);
    assert Overlaps("", table[0].key);
  }

  /** The cells that clean to nothing include the empty cell, a blank one and a pair of quotes. */
  lemma EmptyCities()
    ensures CleanCityName("") == ""
    ensures CleanCityName("   ") == ""
    ensures CleanCityName("\"\"") == ""
  {
    assert CsvFile.StripOuterQuotes("   ") == "   ";
    assert CsvFile.StripOuterQuotes("\"\"") == "";
    assert TrimStart("   ") == "";
  }

  /**
   * findNielsenRank with the containment match and the special cases
   * skipped for a city that cleans to nothing: such a row finds no rank.
   */
  function NielsenRank(table: seq<Entry>, cityField: string): (r: Option<nat>)
    ensures CleanCityName(cityField) == "" ==> r.None? || exists i :: 0 <= i < |table| && table[i].key == "" && table[i].rank == r.value
  {
    var city := CleanCityName(cityField);
    if city == "" then ExactRank(table, city) else RankOfCityAsWritten(table, city)
  }

  /** The corrected lookup agrees with the one written whenever the city is not empty. */
  lemma NielsenRankAgrees(table: seq<Entry>, cityField: string)
    requires CleanCityName(cityField) != ""
    ensures NielsenRank(table, cityField) == NielsenRankAsWritten(table, cityField)
  {
  }

  /** An empty city finds no rank in a table with no empty key. */
  lemma EmptyCityUnmatched(table: seq<Entry>, cityField: string)
    requires forall i :: 0 <= i < |table| ==> table[i].key != ""
    requires CleanCityName(cityField) == ""
    ensures NielsenRank(table, cityField) == None
  {
  }

  /** A city that is a key of the table, with a rank that is not 0, gets that rank. */
  lemma KeyFindsItsRank(table: seq<Entry>, cityField: string, i: nat)
    requires DistinctKeys(table)
    requires i < |table| && table[i].key == CleanCityName(cityField) && table[i].rank != 0
    ensures NielsenRank(table, cityField) == Some(table[i].rank)
  {
    var r := ExactRank(table, table[i].key);
    var j :| 0 <= j < |table| && table[j].key == table[i].key && table[j].rank == r.value;
    assert j == i;
  }

  /**
   * The rank found is an entry's rank, or one of the special cases; and none
   * is found exactly when the city is empty (and no key is), or no key
   * matches, none overlaps and no special case applies.
   */
  lemma NielsenRankSource(table: seq<Entry>, cityField: string)
    requires forall i :: 0 <= i < |table| ==> table[i].key != ""
    ensures var r := NielsenRank(table, cityField);
      r.Some? ==> (r.value in {57, 83, 8} || exists i :: 0 <= i < |table| && table[i].rank == r.value)
    ensures var city := CleanCityName(cityField);
      NielsenRank(table, cityField).None? <==>
        city == "" ||
        ((forall i :: 0 <= i < |table| ==> !(table[i].key == city && table[i].rank != 0)) &&
         (forall i :: 0 <= i < |table| ==> !Overlaps(city, table[i].key)) &&
         SpecialRank(city).None?)
  {
  }

  /** The City cell of "CITY, ST" cleans to the upper-case city. */
  lemma CleanCityOfState(c: string, rest: string)
    requires |c| > 0 && Trimmed(c) && ',' !in c && c[0] != '"'
    requires Trimmed(c + "," + rest) && (c + "," + rest)[|c + "," + rest| - 1] != '"'
    ensures CleanCityName(c + "," + rest) == Upper(c)
  {
    var s := c + "," + rest;
    assert CsvFile.StripOuterQuotes(s) == s;
    TrimOfTrimmed(s);
    assert s[|c|] == ',' && ',' !in s[..|c|];
    assert s[..|c|] == c;
    assert BeforeComma(s) == c;
    TrimOfTrimmed(c);
  }

  /** A quoted cell cleans as its contents do. */
  lemma CleanCityQuoted(s: string)
    requires |s| > 0 && s[0] != '"' && s[|s| - 1] != '"'
    ensures CleanCityName("\"" + s + "\"") == CleanCityName(s)
  {
    var q := "\"" + s + "\"";
    assert q[1..|q| - 1] == s;
    assert CsvFile.StripOuterQuotes(s) == s;
  }

  /** The method form of findNielsenRank, with the corrected guard. */
  method FindNielsenRank(table: seq<Entry>, cityField: string) returns (r: Option<nat>)
    ensures r == NielsenRank(table, cityField)
  {
    var city := CleanCityName(cityField);
    r := ExactRank(table, city);
    if r.Some? || city == "" {
      return;
    }
    var k := FindPartial(table, city);
    if k.Some? {
      return Some(table[k.value].rank);
    }
    r := SpecialRank(city);
  }

  // ----- updateCsvRanks -----

  /** `if (!newRank)`: a rank of 0 counts as none. */
  function Truthy(r: Option<nat>): (t: Option<nat>)
    ensures t.Some? <==> r.Some? && r.value != 0
    ensures t.Some? ==> t == r
  {
    if r.Some? && r.value != 0 then r else None
  }

  /** The lookup the rewrite uses for every City cell. */
  function RankOf(table: seq<Entry>): string -> Option<nat>
  {
    f => Truthy(NielsenRank(table, f))
  }

  /** The lookup the script as written applies to every City cell. */
  function RankOfAsWritten(table: seq<Entry>): string -> Option<nat>
  {
    f => Truthy(NielsenRankAsWritten(table, f))
  }

  /** The file the script as written writes back, or None without a Rank or a City column. */
  function UpdateCsvRanksAsWritten(table: seq<Entry>, text: string): (r: Option<string>)
    ensures r.Some? <==> Columns(text).Some?
  {
    UpdateRanksNeedsColumns(RankOfAsWritten(table), text);
    UpdateRanks(RankOfAsWritten(table), text)
  }

  /**
   * As written, a data line whose City cell cleans to nothing is not
   * unmatched: its Rank cell is set to the first entry's rank.
   */
  lemma EmptyCityLineRankedAsWritten(table: seq<Entry>, line: string, rankIdx: nat, cityIdx: nat)
    requires |table| > 0 && table[0].rank != 0 && forall i :: 0 <= i < |table| ==> table[i].key != ""
    requires !Blank(line) && CleanCityName(CellOr(Fields(line, false), cityIdx)) == ""
    ensures !Unmatched(RankOfAsWritten(table), line, cityIdx)
    ensures RewriteLine(RankOfAsWritten(table), line, rankIdx, cityIdx) ==
      ToCsvLine(Ranked(Fields(line, false), rankIdx, table[0].rank))
  {
    EmptyCityTakesFirstRank(table, CellOr(Fields(line, false), cityIdx));
  }

  /** The file written back with the corrected lookup, or None when the header lacks a Rank or a City column and nothing is written. */
  function UpdateCsvRanks(table: seq<Entry>, text: string): (r: Option<string>)
    ensures r.Some? <==> Columns(text).Some?
  {
    UpdateRanksNeedsColumns(RankOf(table), text);
    UpdateRanks(RankOf(table), text)
  }

  /**
   * With the corrected lookup, a data line whose City cell cleans to nothing
   * counts as unmatched and is written back as it was.
   */
  lemma EmptyCityLineKept(table: seq<Entry>, line: string, rankIdx: nat, cityIdx: nat)
    requires forall i :: 0 <= i < |table| ==> table[i].key != ""
    requires !Blank(line) && CleanCityName(CellOr(Fields(line, false), cityIdx)) == ""
    ensures Unmatched(RankOf(table), line, cityIdx)
    ensures RewriteLine(RankOf(table), line, rankIdx, cityIdx) == line
  {
    EmptyCityUnmatched(table, CellOr(Fields(line, false), cityIdx));
  }

  /**
   * The script's run with the corrected lookup: the text written, the Rank
   * cells changed and the lines left without a rank. It differs from the
   * run as written (UpdateCsvRanksAsWritten) only on lines whose City cell
   * cleans to nothing.
   */
  method UpdateCsvRanksRun(table: seq<Entry>, text: string) returns (written: Option<string>, updated: nat, unmatched: nat)
    ensures written == UpdateCsvRanks(table, text)
    ensures written.None? ==> updated == 0 && unmatched == 0
    ensures Columns(text).Some? ==>
      updated == CountChanged(RankOf(table), Lines(text)[1..], Columns(text).value.0, Columns(text).value.1) &&
      unmatched == CountUnmatched(RankOf(table), Lines(text)[1..], Columns(text).value.1)
  {
    written, updated, unmatched := UpdateRanksLoop(RankOf(table), text);
  }
}
