/**
 * The quote-aware line splitter and the line writer of the CSV tools.
 * The backend parser trims every field it reads; the two rank-update
 * scripts keep fields exactly as written and write lines back with
 * `ToCsvLine`, which the splitter reads back unchanged.
 */
module CsvLine {
  import opened Common

  /** A finished field, trimmed or not. */
  function Field(current: string, trimFields: bool): string
  {
    if trimFields then Trim(current) else current
  }

  /**
   * The fields still to come when the rest of the line is `s`, the field
   * being read holds `current` and `inQuotes` says whether a quoted section
   * is open. Inside quotes a doubled quote stands for one quote; any other
   * quote opens or closes a section; a comma outside quotes ends a field.
   */
  function Scan(s: string, inQuotes: bool, current: string, trimFields: bool): (r: seq<string>)
    ensures |r| >= 1
    decreases |s|
  {
    if |s| == 0 then [Field(current, trimFields)]
    else if s[0] == '"' then
      if inQuotes && |s| > 1 && s[1] == '"' then Scan(s[2..], true, current + "\"", trimFields)
      else Scan(s[1..], !inQuotes, current, trimFields)
    else if s[0] == ',' && !inQuotes then [Field(current, trimFields)] + Scan(s[1..], false, "", trimFields)
    else Scan(s[1..], inQuotes, current + [s[0]], trimFields)
  }

  /** The fields of a whole line. */
  function Fields(line: string, trimFields: bool): (r: seq<string>)
    ensures |r| >= 1
  {
    Scan(line, false, "", trimFields)
  }

  /** Every string trimmed. */
  function TrimAll(vs: seq<string>): (r: seq<string>)
    ensures |r| == |vs|
    ensures forall i :: 0 <= i < |vs| ==> r[i] == Trim(vs[i])
  {
    if |vs| == 0 then [] else [Trim(vs[0])] + TrimAll(vs[1..])
  }

  /**
   * parseCSVLine (trimming) and parseCsvLine (not trimming): one pass over
   * the line, pushing each field as a comma outside quotes ends it and the
   * last field at the end.
   */
  method ParseLine(line: string, trimFields: bool) returns (values: seq<string>)
    ensures values == Fields(line, trimFields)
  {
    values := [];
    var current := "";
    var inQuotes := false;
    var i := 0;
    while i < |line|
      invariant 0 <= i <= |line|
      invariant values + Scan(line[i..], inQuotes, current, trimFields) == Fields(line, trimFields)
      decreases |line| - i
    {
      var s := line[i..];
      var c := line[i];
      if c == '"' {
        if inQuotes && i + 1 < |line| && line[i + 1] == '"' {
          assert s[2..] == line[i + 2..];
          current := current + "\"";
          i := i + 2;
        } else {
          assert s[1..] == line[i + 1..];
          inQuotes := !inQuotes;
          i := i + 1;
        }
      } else if c == ',' && !inQuotes {
        assert s[1..] == line[i + 1..];
        AppendAssoc(values, [Field(current, trimFields)], Scan(line[i + 1..], false, "", trimFields));
        values := values + [Field(current, trimFields)];
        current := "";
        i := i + 1;
      } else {
        assert s[1..] == line[i + 1..];
        current := current + [c];
        i := i + 1;
      }
    }
    assert line[i..] == [];
    values := values + [Field(current, trimFields)];
  }

  /** Reading a line trimmed gives the untrimmed fields, each trimmed. */
  lemma {:induction false} ScanTrim(s: string, inQuotes: bool, current: string)
    ensures Scan(s, inQuotes, current, true) == TrimAll(Scan(s, inQuotes, current, false))
    decreases |s|
  {
    if |s| == 0 {
    } else if s[0] == '"' {
      if inQuotes && |s| > 1 && s[1] == '"' {
        ScanTrim(s[2..], true, current + "\"");
      } else {
        ScanTrim(s[1..], !inQuotes, current);
      }
    } else if s[0] == ',' && !inQuotes {
      ScanTrim(s[1..], false, "");
      var rest := Scan(s[1..], false, "", false);
      assert ([current] + rest)[1..] == rest;
    } else {
      ScanTrim(s[1..], inQuotes, current + [s[0]]);
    }
  }

  /** The trimming parser's fields are the plain parser's fields, trimmed. */
  lemma FieldsTrimmed(line: string)
    ensures Fields(line, true) == TrimAll(Fields(line, false))
  {
    ScanTrim(line, false, "");
  }

  /** Whether a value must be quoted: it holds a quote, a comma or a newline. */
  predicate NeedsQuote(v: string)
  {
    '"' in v || ',' in v || '\n' in v
  }

  /** Every quote doubled. */
  function Escape(v: string): (r: string)
    ensures |r| >= |v|
  {
    if |v| == 0 then ""
    else (if v[0] == '"' then "\"\"" else [v[0]]) + Escape(v[1..])
  }

  /** One value as written: quotes doubled, and the whole quoted when needed. */
  function EncodeField(v: string): (r: string)
    ensures NeedsQuote(v) ==> |r| >= 2 && r[0] == '"' && r[|r| - 1] == '"'
    ensures !NeedsQuote(v) ==> r == v
  {
    var out := Escape(v);
    if NeedsQuote(v) then "\"" + out + "\""
    else
      EscapeNoQuote(v);
      out
  }

  function EncodeAll(vs: seq<string>): (r: seq<string>)
    ensures |r| == |vs|
    ensures forall i :: 0 <= i < |vs| ==> r[i] == EncodeField(vs[i])
  {
    if |vs| == 0 then [] else [EncodeField(vs[0])] + EncodeAll(vs[1..])
  }

  /** toCsvLine: the encoded values joined by commas. */
  function ToCsvLine(vs: seq<string>): string
  {
    JoinWith(EncodeAll(vs), ',')
  }

  lemma {:induction false} EscapeNoQuote(v: string)
    requires '"' !in v
    ensures Escape(v) == v
  {
    if |v| > 0 {
      EscapeNoQuote(v[1..]);
      assert [v[0]] + v[1..] == v;
    }
  }

  /** Outside quotes, text without quotes or commas goes into the current field. */
  lemma {:induction false} ScanPlain(v: string, rest: string, current: string, t: bool)
    requires '"' !in v && ',' !in v
    ensures Scan(v + rest, false, current, t) == Scan(rest, false, current + v, t)
    decreases |v|
  {
    if |v| == 0 {
      assert v + rest == rest && current + v == current;
    } else {
      var s := v + rest;
      assert s[0] == v[0] && s[1..] == v[1..] + rest;
      ScanPlain(v[1..], rest, current + [v[0]], t);
      assert current + [v[0]] + v[1..] == current + v;
    }
  }

  /**
   * Inside quotes, an escaped value and its closing quote put the value into
   * the current field, provided a comma or the end of the line follows.
   */
  lemma {:induction false} ScanQuoted(v: string, rest: string, current: string, t: bool)
    requires rest == [] || rest[0] == ','
    ensures Scan(Escape(v) + "\"" + rest, true, current, t) == Scan(rest, false, current + v, t)
    decreases |v|
  {
    var s := Escape(v) + "\"" + rest;
    if |v| == 0 {
      assert s == "\"" + rest;
      assert s[1..] == rest;
      assert current + v == current;
    } else if v[0] == '"' {
      assert s == "\"\"" + (Escape(v[1..]) + "\"" + rest);
      assert s[2..] == Escape(v[1..]) + "\"" + rest;
      ScanQuoted(v[1..], rest, current + "\"", t);
      assert current + "\"" + v[1..] == current + v;
    } else {
      assert s == [v[0]] + (Escape(v[1..]) + "\"" + rest);
      assert s[1..] == Escape(v[1..]) + "\"" + rest;
      ScanQuoted(v[1..], rest, current + [v[0]], t);
      assert current + [v[0]] + v[1..] == current + v;
    }
  }

  /** An encoded value, followed by a comma or the end, reads back as that value. */
  lemma ScanEncoded(v: string, rest: string, t: bool)
    requires rest == [] || rest[0] == ','
    ensures Scan(EncodeField(v) + rest, false, "", t) == Scan(rest, false, v, t)
  {
    if NeedsQuote(v) {
      ScanEncodedQuoted(v, rest, t);
    } else {
      ScanPlain(v, rest, "", t);
      assert "" + v == v;
    }
  }

  /** A quoted value: the opening quote enters quoted mode, and the escaped text and closing quote give the value back. */
  lemma ScanEncodedQuoted(v: string, rest: string, t: bool)
    requires NeedsQuote(v) && (rest == [] || rest[0] == ',')
    ensures Scan(EncodeField(v) + rest, false, "", t) == Scan(rest, false, v, t)
  {
    var e := Escape(v);
    var s := EncodeField(v) + rest;
    var inner := e + "\"" + rest;
    assert EncodeField(v) == "\"" + e + "\"";
    AppendAssoc("\"", e, "\"");
    AppendAssoc("\"", e + "\"", rest);
    assert s == "\"" + inner;
    assert s[0] == '"' && s[1..] == inner;
    assert Scan(s, false, "", t) == Scan(inner, true, "", t);
    ScanQuoted(v, rest, "", t);
    assert "" + v == v;
  }

  /**
   * Writing values and reading the line back gives the same values, commas,
   * quotes and surrounding spaces included; the trimming reader gives them
   * trimmed. An empty list is the one exception: it writes the empty line,
   * which reads as one empty field.
   */
  lemma {:induction false} CsvLineRoundTrip(vs: seq<string>)
    requires |vs| >= 1
    ensures Fields(ToCsvLine(vs), false) == vs
    ensures Fields(ToCsvLine(vs), true) == TrimAll(vs)
  {
    RoundTripScan(vs, false);
    RoundTripScan(vs, true);
  }

  lemma {:induction false} RoundTripScan(vs: seq<string>, t: bool)
    requires |vs| >= 1
    ensures Fields(ToCsvLine(vs), t) == (if t then TrimAll(vs) else vs)
  {
    var e := EncodeAll(vs);
    if |vs| == 1 {
      assert ToCsvLine(vs) == EncodeField(vs[0]) + "";
      ScanEncoded(vs[0], "", t);
      assert TrimAll(vs) == [Trim(vs[0])];
    } else {
      assert EncodeAll(vs[1..]) == e[1..];
      var tail := ToCsvLine(vs[1..]);
      assert ToCsvLine(vs) == EncodeField(vs[0]) + ([','] + tail);
      ScanEncoded(vs[0], [','] + tail, t);
      assert ([','] + tail)[1..] == tail;
      RoundTripScan(vs[1..], t);
      assert vs == [vs[0]] + vs[1..];
      assert TrimAll(vs) == [Trim(vs[0])] + TrimAll(vs[1..]);
    }
  }

  /** The empty list writes the empty line. */
  lemma EmptyLine()
    ensures ToCsvLine([]) == ""
    ensures Fields("", false) == [""]
  {
  }
}
