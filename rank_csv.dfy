/**
 * The Rank column rewrite shared by the two rank-update scripts. The file's
 * lines are split on "\n" (after "\r\n" becomes "\n"); the header line names
 * the Rank and City columns. Every other line is kept as it is when it is
 * blank or when its City cell finds no rank; otherwise it is written back
 * with `ToCsvLine`, with the Rank cell set to the rank found.
 */
module RankCsv {
  import opened Common
  import opened CsvLine

  /** `.replace(/\r\n/g, "\n")`. */
  function CrLfToLf(s: string): (r: string)
    ensures |r| <= |s|
    ensures '\n' !in s ==> r == s
    decreases |s|
  {
    if |s| == 0 then ""
    else if |s| >= 2 && s[0] == '\r' && s[1] == '\n' then "\n" + CrLfToLf(s[2..])
    else [s[0]] + CrLfToLf(s[1..])
  }

  /** The file's lines. */
  function Lines(text: string): (r: seq<string>)
    ensures |r| >= 1 && forall i :: 0 <= i < |r| ==> '\n' !in r[i]
  {
    Split(CrLfToLf(text), '\n')
  }

  /** Array.prototype.indexOf: the first position holding `x`. */
  function IndexOf(vs: seq<string>, x: string): (r: Option<nat>)
    ensures r.Some? ==> r.value < |vs| && vs[r.value] == x && forall j :: 0 <= j < r.value ==> vs[j] != x
    ensures r.None? <==> forall j :: 0 <= j < |vs| ==> vs[j] != x
  {
    if |vs| == 0 then None
    else if vs[0] == x then Some(0)
    else match IndexOf(vs[1..], x)
      case None => None
      case Some(k) => Some(k + 1)
  }

  /** The header line's column names, trimmed. */
  function HeaderNames(headerLine: string): seq<string>
  {
    TrimAll(Fields(headerLine, false))
  }

  /** `values[k] || ''`: a missing cell reads as empty. */
  function CellOr(values: seq<string>, k: nat): (r: string)
    ensures k < |values| ==> r == values[k]
    ensures k >= |values| ==> r == ""
  {
    if k < |values| then values[k] else ""
  }

  /**
   * `values[k] = v`. Past the end the array grows, and the positions skipped
   * are holes, which `map` skips and `join` writes as empty strings: empty
   * cells, here.
   */
  function SetCell(values: seq<string>, k: nat, v: string): (r: seq<string>)
    ensures |r| == if k < |values| then |values| else k + 1
    ensures r[k] == v
    ensures forall j :: 0 <= j < |values| && j != k ==> r[j] == values[j]
    ensures forall j :: |values| <= j < |r| && j != k ==> r[j] == ""
  {
    if k < |values| then values[k := v] else values + seq(k - |values|, _ => "") + [v]
  }

  /** Whether the line is blank: `!line.trim()`. */
  predicate Blank(line: string) { Trim(line) == "" }

  /** The cell values of a line, whose Rank cell becomes `String(rank)` unless it already reads so. */
  function Ranked(values: seq<string>, rankIdx: nat, rank: nat): seq<string>
  {
    var newRank := NatToString(rank);
    if rankIdx < |values| && values[rankIdx] == newRank then values else SetCell(values, rankIdx, newRank)
  }

  /** One data line after the rewrite; `rankOf` finds the rank for the City cell. */
  function RewriteLine(rankOf: string -> Option<nat>, line: string, rankIdx: nat, cityIdx: nat): string
  {
    if Blank(line) then line
    else
      var values := Fields(line, false);
      match rankOf(CellOr(values, cityIdx))
      case None => line
      case Some(rank) => ToCsvLine(Ranked(values, rankIdx, rank))
  }

  /** The data lines after the rewrite, in order. */
  function RewriteAll(rankOf: string -> Option<nat>, lines: seq<string>, rankIdx: nat, cityIdx: nat): (r: seq<string>)
    ensures |r| == |lines|
    ensures forall i :: 0 <= i < |lines| ==> r[i] == RewriteLine(rankOf, lines[i], rankIdx, cityIdx)
  {
    if |lines| == 0 then []
    else RewriteAll(rankOf, lines[..|lines| - 1], rankIdx, cityIdx) + [RewriteLine(rankOf, lines[|lines| - 1], rankIdx, cityIdx)]
  }

  /** The output lines for the whole file, or None when the header names no Rank or no City column. */
  function RewriteFile(rankOf: string -> Option<nat>, text: string): Option<seq<string>>
  {
    var lines := Lines(text);
    var header := HeaderNames(lines[0]);
    match (IndexOf(header, "Rank"), IndexOf(header, "City"))
    case (Some(rankIdx), Some(cityIdx)) => Some([lines[0]] + RewriteAll(rankOf, lines[1..], rankIdx, cityIdx))
    case _ => None
  }

  /** The text written back, or None when nothing is written. */
  function UpdateRanks(rankOf: string -> Option<nat>, text: string): Option<string>
  {
    match RewriteFile(rankOf, text)
    case None => None
    case Some(out) => Some(JoinWith(out, '\n'))
  }

  /** A non-blank data line whose City cell finds no rank. */
  predicate Unmatched(rankOf: string -> Option<nat>, line: string, cityIdx: nat)
  {
    !Blank(line) && rankOf(CellOr(Fields(line, false), cityIdx)).None?
  }

  /** A data line whose Rank cell the rewrite changes. */
  predicate RankChanged(rankOf: string -> Option<nat>, line: string, rankIdx: nat, cityIdx: nat)
  {
    !Blank(line) &&
    var values := Fields(line, false);
    match rankOf(CellOr(values, cityIdx))
    case None => false
    case Some(rank) => !(rankIdx < |values| && values[rankIdx] == NatToString(rank))
  }

  // ----- Proofs about the rewrite -----

  /** A character that is not a quote and occurs neither in the text nor in the field being read occurs in no field. */
  lemma {:induction false} ScanLacks(s: string, inQuotes: bool, current: string, c: char)
    requires c != '"' && c !in s && c !in current
    ensures forall f :: f in Scan(s, inQuotes, current, false) ==> c !in f
    decreases |s|
  {
    if |s| > 0 {
      if s[0] == '"' {
        if inQuotes && |s| > 1 && s[1] == '"' {
          ScanLacks(s[2..], true, current + "\"", c);
        } else {
          ScanLacks(s[1..], !inQuotes, current, c);
        }
      } else if s[0] == ',' && !inQuotes {
        ScanLacks(s[1..], false, "", c);
      } else {
        ScanLacks(s[1..], inQuotes, current + [s[0]], c);
      }
    }
  }

  lemma {:induction false} EscapeLacks(v: string, c: char)
    requires c != '"' && c !in v
    ensures c !in Escape(v)
  {
    if |v| > 0 {
      EscapeLacks(v[1..], c);
    }
  }

  lemma {:induction false} JoinLacks(parts: seq<string>, sep: char, c: char)
    requires c != sep && forall i :: 0 <= i < |parts| ==> c !in parts[i]
    ensures c !in JoinWith(parts, sep)
  {
    if |parts| > 1 {
      JoinLacks(parts[1..], sep, c);
    }
  }

  /** Writing cells without a newline gives a line without a newline. */
  lemma CsvLineLacksNewline(vs: seq<string>)
    requires forall i :: 0 <= i < |vs| ==> '\n' !in vs[i]
    ensures '\n' !in ToCsvLine(vs)
  {
    var e := EncodeAll(vs);
    forall i | 0 <= i < |vs| ensures '\n' !in e[i] {
      EscapeLacks(vs[i], '\n');
    }
    JoinLacks(e, ',', '\n');
  }

  lemma NatToStringLacksNewline(n: nat)
    ensures '\n' !in NatToString(n)
  {
    var r := NatToString(n);
    assert forall k :: 0 <= k < |r| ==> r[k] != '\n';
  }

  /** Cells without a newline, one of them set to a rank, are written without a newline. */
  lemma RankedLacksNewline(values: seq<string>, rankIdx: nat, rank: nat)
    requires forall f :: f in values ==> '\n' !in f
    ensures '\n' !in ToCsvLine(Ranked(values, rankIdx, rank))
  {
    NatToStringLacksNewline(rank);
    var vs := Ranked(values, rankIdx, rank);
    forall i | 0 <= i < |vs| ensures '\n' !in vs[i] {
      if i < |values| && i != rankIdx {
        assert values[i] in values;
      }
    }
    CsvLineLacksNewline(vs);
  }

  /** A rewritten line holds no newline when the original held none. */
  lemma RewriteLineLacksNewline(rankOf: string -> Option<nat>, line: string, rankIdx: nat, cityIdx: nat)
    requires '\n' !in line
    ensures '\n' !in RewriteLine(rankOf, line, rankIdx, cityIdx)
  {
    var values := Fields(line, false);
    var found := rankOf(CellOr(values, cityIdx));
    if !Blank(line) && found.Some? {
      ScanLacks(line, false, "", '\n');
      RankedLacksNewline(values, rankIdx, found.value);
    }
  }

  /** The Rank and City column positions named by the header, when it names both. */
  function Columns(text: string): Option<(nat, nat)>
  {
    var header := HeaderNames(Lines(text)[0]);
    match (IndexOf(header, "Rank"), IndexOf(header, "City"))
    case (Some(rankIdx), Some(cityIdx)) => Some((rankIdx, cityIdx))
    case _ => None
  }

  /** Nothing is written exactly when the header lacks the Rank or the City column. */
  lemma UpdateRanksNeedsColumns(rankOf: string -> Option<nat>, text: string)
    ensures UpdateRanks(rankOf, text).None? <==>
      "Rank" !in HeaderNames(Lines(text)[0]) || "City" !in HeaderNames(Lines(text)[0])
    ensures UpdateRanks(rankOf, text).None? <==> Columns(text).None?
  {
  }

  /** The header line, then each data line rewritten. */
  lemma OutputLines(rankOf: string -> Option<nat>, lines: seq<string>, rankIdx: nat, cityIdx: nat)
    requires |lines| >= 1
    ensures var out := [lines[0]] + RewriteAll(rankOf, lines[1..], rankIdx, cityIdx);
      |out| == |lines| && out[0] == lines[0] &&
      (forall i :: 1 <= i < |lines| && Blank(lines[i]) ==> out[i] == lines[i]) &&
      (forall i :: 1 <= i < |lines| && Unmatched(rankOf, lines[i], cityIdx) ==> out[i] == lines[i]) &&
      (forall i :: 1 <= i < |lines| ==> out[i] == RewriteLine(rankOf, lines[i], rankIdx, cityIdx))
  {
    var out := [lines[0]] + RewriteAll(rankOf, lines[1..], rankIdx, cityIdx);
    forall i | 1 <= i < |lines| ensures out[i] == RewriteLine(rankOf, lines[i], rankIdx, cityIdx) {
      assert out[i] == RewriteAll(rankOf, lines[1..], rankIdx, cityIdx)[i - 1];
      assert lines[1..][i - 1] == lines[i];
    }
  }

  /**
   * The output has one line per line read: the header and the blank lines
   * and the lines without a rank exactly as they were, every other line
   * written back from its cells.
   */
  lemma RewriteFileLines(rankOf: string -> Option<nat>, text: string)
    requires Columns(text).Some?
    ensures RewriteFile(rankOf, text).Some?
    ensures var lines := Lines(text);
      var out := RewriteFile(rankOf, text).value;
      |out| == |lines| && out[0] == lines[0] &&
      (forall i :: 1 <= i < |lines| && Blank(lines[i]) ==> out[i] == lines[i]) &&
      (forall i :: 1 <= i < |lines| && Unmatched(rankOf, lines[i], Columns(text).value.1) ==> out[i] == lines[i]) &&
      (forall i :: 1 <= i < |lines| ==> out[i] == RewriteLine(rankOf, lines[i], Columns(text).value.0, Columns(text).value.1))
  {
    var lines := Lines(text);
    var rankIdx, cityIdx := Columns(text).value.0, Columns(text).value.1;
    assert RewriteFile(rankOf, text) == Some([lines[0]] + RewriteAll(rankOf, lines[1..], rankIdx, cityIdx));
    OutputLines(rankOf, lines, rankIdx, cityIdx);
  }

  /** The text written splits back into exactly the output lines, so the line count is kept. */
  lemma UpdateRanksSplits(rankOf: string -> Option<nat>, text: string)
    requires Columns(text).Some?
    ensures UpdateRanks(rankOf, text).Some? && RewriteFile(rankOf, text).Some?
    ensures Split(UpdateRanks(rankOf, text).value, '\n') == RewriteFile(rankOf, text).value
    ensures |Split(UpdateRanks(rankOf, text).value, '\n')| == |Lines(text)|
  {
    var lines := Lines(text);
    var rankIdx, cityIdx := Columns(text).value.0, Columns(text).value.1;
    var out := [lines[0]] + RewriteAll(rankOf, lines[1..], rankIdx, cityIdx);
    assert RewriteFile(rankOf, text) == Some(out);
    forall i | 0 <= i < |out| ensures '\n' !in out[i] {
      if i > 0 {
        RewriteLineLacksNewline(rankOf, lines[i], rankIdx, cityIdx);
      }
    }
    SplitJoin(out, '\n');
  }

  /**
   * A rewritten line reads back as the line's cells with the Rank cell set
   * to the rank found; every other cell is kept, commas, quotes and spaces
   * included, and cells the row lacked before the Rank position read as empty.
   */
  lemma RewriteKeepsCells(rankOf: string -> Option<nat>, line: string, rankIdx: nat, cityIdx: nat, rank: nat)
    requires !Blank(line) && rankOf(CellOr(Fields(line, false), cityIdx)) == Some(rank)
    ensures var before := Fields(line, false);
      var after := Fields(RewriteLine(rankOf, line, rankIdx, cityIdx), false);
      |after| == (if rankIdx < |before| then |before| else rankIdx + 1) &&
      after[rankIdx] == NatToString(rank) &&
      (forall j :: 0 <= j < |before| && j != rankIdx ==> after[j] == before[j]) &&
      (forall j :: |before| <= j < rankIdx ==> after[j] == "")
  {
    CsvLineRoundTrip(Ranked(Fields(line, false), rankIdx, rank));
  }

  /** How many of the lines are non-blank without a rank. */
  function CountUnmatched(rankOf: string -> Option<nat>, lines: seq<string>, cityIdx: nat): (r: nat)
    ensures r <= |lines|
  {
    if |lines| == 0 then 0
    else CountUnmatched(rankOf, lines[..|lines| - 1], cityIdx) + (if Unmatched(rankOf, lines[|lines| - 1], cityIdx) then 1 else 0)
  }

  /** How many of the lines have their Rank cell changed. */
  function CountChanged(rankOf: string -> Option<nat>, lines: seq<string>, rankIdx: nat, cityIdx: nat): (r: nat)
    ensures r <= |lines|
  {
    if |lines| == 0 then 0
    else CountChanged(rankOf, lines[..|lines| - 1], rankIdx, cityIdx) +
         (if RankChanged(rankOf, lines[|lines| - 1], rankIdx, cityIdx) then 1 else 0)
  }

  /** What one pass of the loop adds: the line's output and the two counters. */
  predicate LineStep(rankOf: string -> Option<nat>, line: string, rankIdx: nat, cityIdx: nat,
                     out: seq<string>, updated: nat, unmatched: nat, out2: seq<string>, updated2: nat, unmatched2: nat)
  {
    out2 == out + [RewriteLine(rankOf, line, rankIdx, cityIdx)] &&
    updated2 == updated + (if RankChanged(rankOf, line, rankIdx, cityIdx) then 1 else 0) &&
    unmatched2 == unmatched + (if Unmatched(rankOf, line, cityIdx) then 1 else 0)
  }

  /** The loop body for one data line. */
  method RewriteStep(rankOf: string -> Option<nat>, line: string, rankIdx: nat, cityIdx: nat,
                     out: seq<string>, updated: nat, unmatched: nat)
    returns (out2: seq<string>, updated2: nat, unmatched2: nat)
    ensures LineStep(rankOf, line, rankIdx, cityIdx, out, updated, unmatched, out2, updated2, unmatched2)
  {
    out2, updated2, unmatched2 := out, updated, unmatched;
    if Trim(line) == "" {
      out2 := out2 + [line];
      return;
    }
    var values := ParseLine(line, false);
    var cityField := CellOr(values, cityIdx);
    var newRank := rankOf(cityField);
    if newRank.None? {
      unmatched2 := unmatched2 + 1;
      out2 := out2 + [line];
      return;
    }
    var rankText := NatToString(newRank.value);
    if !(rankIdx < |values| && values[rankIdx] == rankText) {
      values := SetCell(values, rankIdx, rankText);
      updated2 := updated2 + 1;
    }
    out2 := out2 + [ToCsvLine(values)];
  }

  /** One more line extends the output and the counters as the specification functions do. */
  lemma StepExtends(rankOf: string -> Option<nat>, lines: seq<string>, i: nat, rankIdx: nat, cityIdx: nat,
                    head: string, out: seq<string>, updated: nat, unmatched: nat,
                    out2: seq<string>, updated2: nat, unmatched2: nat)
    requires 1 <= i < |lines|
    requires out == [head] + RewriteAll(rankOf, lines[1..i], rankIdx, cityIdx)
    requires updated == CountChanged(rankOf, lines[1..i], rankIdx, cityIdx)
    requires unmatched == CountUnmatched(rankOf, lines[1..i], cityIdx)
    requires LineStep(rankOf, lines[i], rankIdx, cityIdx, out, updated, unmatched, out2, updated2, unmatched2)
    ensures out2 == [head] + RewriteAll(rankOf, lines[1..i + 1], rankIdx, cityIdx)
    ensures updated2 == CountChanged(rankOf, lines[1..i + 1], rankIdx, cityIdx)
    ensures unmatched2 == CountUnmatched(rankOf, lines[1..i + 1], cityIdx)
  {
    assert lines[1..i + 1][..i - 1] == lines[1..i];
    assert lines[1..i + 1][i - 1] == lines[i];
  }

  /** The text written, given the lines and the column positions found in the header. */
  lemma UpdateRanksIs(rankOf: string -> Option<nat>, text: string, lines: seq<string>, rankIdx: nat, cityIdx: nat)
    requires lines == Lines(text)
    requires IndexOf(HeaderNames(lines[0]), "Rank") == Some(rankIdx) && IndexOf(HeaderNames(lines[0]), "City") == Some(cityIdx)
    ensures Columns(text) == Some((rankIdx, cityIdx))
    ensures UpdateRanks(rankOf, text) == Some(JoinWith([lines[0]] + RewriteAll(rankOf, lines[1..], rankIdx, cityIdx), '\n'))
  {
  }

  /** The loop over the data lines, after the header. */
  method RewriteLoop(rankOf: string -> Option<nat>, lines: seq<string>, rankIdx: nat, cityIdx: nat)
    returns (out: seq<string>, updated: nat, unmatched: nat)
    requires |lines| >= 1
    ensures out == [lines[0]] + RewriteAll(rankOf, lines[1..], rankIdx, cityIdx)
    ensures updated == CountChanged(rankOf, lines[1..], rankIdx, cityIdx)
    ensures unmatched == CountUnmatched(rankOf, lines[1..], cityIdx)
  {
    out := [lines[0]];
    updated, unmatched := 0, 0;
    var i := 1;
    assert lines[1..1] == [];
    while i < |lines|
      invariant 1 <= i <= |lines|
      invariant out == [lines[0]] + RewriteAll(rankOf, lines[1..i], rankIdx, cityIdx)
      invariant updated == CountChanged(rankOf, lines[1..i], rankIdx, cityIdx)
      invariant unmatched == CountUnmatched(rankOf, lines[1..i], cityIdx)
    {
      var out2, updated2, unmatched2 := RewriteStep(rankOf, lines[i], rankIdx, cityIdx, out, updated, unmatched);
      StepExtends(rankOf, lines, i, rankIdx, cityIdx, lines[0], out, updated, unmatched, out2, updated2, unmatched2);
      out, updated, unmatched := out2, updated2, unmatched2;
      i := i + 1;
    }
    assert lines[1..i] == lines[1..];
  }

  /**
   * updateCsvRanks: the header line, then each data line in turn, counting
   * the Rank cells changed and the non-blank lines without a rank.
   */
  method UpdateRanksLoop(rankOf: string -> Option<nat>, text: string) returns (written: Option<string>, updated: nat, unmatched: nat)
    ensures written == UpdateRanks(rankOf, text)
    ensures written.None? ==> updated == 0 && unmatched == 0
    ensures Columns(text).Some? ==>
      updated == CountChanged(rankOf, Lines(text)[1..], Columns(text).value.0, Columns(text).value.1) &&
      unmatched == CountUnmatched(rankOf, Lines(text)[1..], Columns(text).value.1)
  {
    var lines := Split(CrLfToLf(text), '\n');
    var headerValues := ParseLine(lines[0], false);
    var header := TrimAll(headerValues);
    var rankIndex := IndexOf(header, "Rank");
    var cityIndex := IndexOf(header, "City");
    if rankIndex.None? || cityIndex.None? {
      return None, 0, 0;
    }
    var rankIdx, cityIdx := rankIndex.value, cityIndex.value;
    UpdateRanksIs(rankOf, text, lines, rankIdx, cityIdx);
    var out;
    out, updated, unmatched := RewriteLoop(rankOf, lines, rankIdx, cityIdx);
    written := Some(JoinWith(out, '\n'));
  }
}
