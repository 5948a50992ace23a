/**
 * Shared vocabulary for the whole model: an Option type and the small part of
 * JavaScript's string and number library that the modelled code relies on
 * (String.prototype.trim, includes, split, toUpperCase/toLowerCase, String(n),
 * parseInt(s, 10) and padStart).
 */
module Common {

  datatype Option<+T> = None | Some(value: T)

  /** JavaScript's WhiteSpace and LineTerminator code points, as `trim` and `\s` see them. */
  predicate IsWs(c: char)
  {
    var n := c as int;
    n == 0x09 || n == 0x0A || n == 0x0B || n == 0x0C || n == 0x0D || n == 0x20 ||
    n == 0xA0 || n == 0x1680 || (0x2000 <= n <= 0x200A) || n == 0x2028 || n == 0x2029 ||
    n == 0x202F || n == 0x205F || n == 0x3000 || n == 0xFEFF
  }

  /** The characters that `.` in a JavaScript regular expression does not match. */
  predicate IsLineTerminator(c: char)
  {
    c == '\n' || c == '\r' || c as int == 0x2028 || c as int == 0x2029
  }

  predicate IsDigit(c: char) { '0' <= c <= '9' }

  predicate IsAsciiLetter(c: char) { ('a' <= c <= 'z') || ('A' <= c <= 'Z') }

  predicate AllWs(s: string) { forall i :: 0 <= i < |s| ==> IsWs(s[i]) }

  predicate AllDigits(s: string) { forall i :: 0 <= i < |s| ==> IsDigit(s[i]) }

  /** A string that `trim` leaves alone. */
  predicate Trimmed(s: string) { s == [] || (!IsWs(s[0]) && !IsWs(s[|s| - 1])) }

  function TrimStart(s: string): (r: string)
    ensures |r| <= |s|
    ensures forall k :: 0 <= k < |s| - |r| ==> IsWs(s[k])
    ensures r == [] || !IsWs(r[0])
  {
    if |s| > 0 && IsWs(s[0]) then TrimStart(s[1..]) else s
  }

  function TrimEnd(s: string): (r: string)
    ensures |r| <= |s|
    ensures forall k :: |r| <= k < |s| ==> IsWs(s[k])
    ensures r == [] || !IsWs(r[|r| - 1])
  {
    if |s| > 0 && IsWs(s[|s| - 1]) then TrimEnd(s[..|s| - 1]) else s
  }

  /** What `TrimStart` keeps is a suffix of its input. */
  lemma {:induction false} TrimStartSuffix(s: string)
    ensures TrimStart(s) == s[|s| - |TrimStart(s)|..]
  {
    if |s| > 0 && IsWs(s[0]) {
      TrimStartSuffix(s[1..]);
      assert s[1..][|s[1..]| - |TrimStart(s[1..])|..] == s[|s| - |TrimStart(s)|..];
    }
  }

  /** What `TrimEnd` keeps is a prefix of its input. */
  lemma {:induction false} TrimEndPrefix(s: string)
    ensures TrimEnd(s) == s[..|TrimEnd(s)|]
  {
    if |s| > 0 && IsWs(s[|s| - 1]) {
      TrimEndPrefix(s[..|s| - 1]);
      assert s[..|s| - 1][..|TrimEnd(s)|] == s[..|TrimEnd(s)|];
    }
  }

  /** String.prototype.trim: drops the maximal whitespace prefix and suffix. */
  function Trim(s: string): (r: string)
    ensures Trimmed(r)
    ensures |r| <= |s|
  {
    TrimEndPrefix(TrimStart(s));
    TrimEnd(TrimStart(s))
  }

  /** Trimming only drops characters. */
  lemma TrimInside(s: string)
    ensures forall c :: c in Trim(s) ==> c in s
  {
    TrimStartSuffix(s);
    TrimEndPrefix(TrimStart(s));
    var a := TrimStart(s);
    assert forall c :: c in a ==> c in s;
    assert forall c :: c in TrimEnd(a) ==> c in a;
  }

  lemma TrimStartAllWs(w: string, s: string)
    requires AllWs(w)
    requires s == [] || !IsWs(s[0])
    ensures TrimStart(w + s) == s
  {
    if w != [] {
      assert (w + s)[1..] == w[1..] + s;
      TrimStartAllWs(w[1..], s);
    } else {
      assert w + s == s;
    }
  }

  lemma TrimEndAllWs(s: string, w: string)
    requires AllWs(w)
    requires s == [] || !IsWs(s[|s| - 1])
    ensures TrimEnd(s + w) == s
  {
    if w != [] {
      assert (s + w)[..|s + w| - 1] == s + w[..|w| - 1];
      TrimEndAllWs(s, w[..|w| - 1]);
    } else {
      assert s + w == s;
    }
  }

  /** Trimming ignores surrounding whitespace around an already trimmed string. */
  lemma {:induction false} TrimPadded(w1: string, s: string, w2: string)
    requires AllWs(w1) && AllWs(w2) && Trimmed(s)
    ensures Trim(w1 + s + w2) == s
  {
    assert w1 + s + w2 == w1 + (s + w2);
    if s == [] {
      assert w1 + (s + w2) == w1 + w2;
      assert AllWs(w1 + w2);
      TrimStartAllWs(w1 + w2, []);
      assert w1 + w2 + [] == w1 + w2;
      TrimEndAllWs([], []);
    } else {
      TrimStartAllWs(w1, s + w2);
      TrimEndAllWs(s, w2);
    }
  }

  lemma TrimOfTrimmed(s: string)
    requires Trimmed(s)
    ensures Trim(s) == s
  {
    TrimPadded([], s, []);
    assert [] + s + [] == s;
  }

  function LowerChar(c: char): char
  {
    if 'A' <= c <= 'Z' then (c as int + 32) as char else c
  }

  function UpperChar(c: char): char
  {
    if 'a' <= c <= 'z' then (c as int - 32) as char else c
  }

  /** toLowerCase, on the ASCII letters. */
  function Lower(s: string): (r: string)
    ensures |r| == |s| && forall i :: 0 <= i < |s| ==> r[i] == LowerChar(s[i])
  {
    seq(|s|, i requires 0 <= i < |s| => LowerChar(s[i]))
  }

  /** toUpperCase, on the ASCII letters. */
  function Upper(s: string): (r: string)
    ensures |r| == |s| && forall i :: 0 <= i < |s| ==> r[i] == UpperChar(s[i])
  {
    seq(|s|, i requires 0 <= i < |s| => UpperChar(s[i]))
  }

  predicate StartsWith(s: string, p: string)
  {
    |p| <= |s| && s[..|p|] == p
  }

  predicate EndsWith(s: string, p: string)
  {
    |p| <= |s| && s[|s| - |p|..] == p
  }

  /** String.prototype.includes: some position of `s` starts an occurrence of `p`. */
  predicate Contains(s: string, p: string)
    decreases |s|
  {
    StartsWith(s, p) || (|s| > 0 && Contains(s[1..], p))
  }

  /** Index of the first occurrence of character `c`, if any. */
  function IndexOfChar(s: string, c: char): (r: Option<nat>)
    ensures r.None? <==> c !in s
    ensures r.Some? ==> r.value < |s| && s[r.value] == c && c !in s[..r.value]
  {
    if |s| == 0 then None
    else if s[0] == c then Some(0)
    else match IndexOfChar(s[1..], c)
      case None => None
      case Some(k) => assert s[..k + 1] == [s[0]] + s[1..][..k]; Some(k + 1)
  }

  /** String.prototype.split with a one-character separator. */
  function Split(s: string, sep: char): (r: seq<string>)
    ensures |r| >= 1
    ensures forall i :: 0 <= i < |r| ==> sep !in r[i]
  {
    if |s| == 0 then [""]
    else if s[0] == sep then [""] + Split(s[1..], sep)
    else
      var t := Split(s[1..], sep);
      [[s[0]] + t[0]] + t[1..]
  }

  lemma {:induction false} SplitNoSep(s: string, sep: char)
    requires sep !in s
    ensures Split(s, sep) == [s]
  {
    if |s| > 0 {
      SplitNoSep(s[1..], sep);
      assert [s[0]] + s[1..] == s;
    }
  }

  lemma {:induction false} SplitAt(a: string, sep: char, b: string)
    requires sep !in a
    ensures Split(a + [sep] + b, sep) == [a] + Split(b, sep)
  {
    if |a| == 0 {
      assert a + [sep] + b == [sep] + b;
      assert ([sep] + b)[1..] == b;
    } else {
      assert (a + [sep] + b)[1..] == a[1..] + [sep] + b;
      SplitAt(a[1..], sep, b);
      assert [a[0]] + a[1..] == a;
    }
  }

  /** Joins strings with a separator character (Array.prototype.join). */
  function JoinWith(parts: seq<string>, sep: char): string
  {
    if |parts| == 0 then ""
    else if |parts| == 1 then parts[0]
    else parts[0] + [sep] + JoinWith(parts[1..], sep)
  }

  /** Splitting undoes joining when no part holds the separator. */
  lemma {:induction false} SplitJoin(parts: seq<string>, sep: char)
    requires |parts| >= 1
    requires forall i :: 0 <= i < |parts| ==> sep !in parts[i]
    ensures Split(JoinWith(parts, sep), sep) == parts
  {
    if |parts| == 1 {
      SplitNoSep(parts[0], sep);
    } else {
      SplitJoin(parts[1..], sep);
      SplitAt(parts[0], sep, JoinWith(parts[1..], sep));
      assert [parts[0]] + parts[1..] == parts;
    }
  }

  lemma {:induction false} JoinSplit(s: string, sep: char)
    ensures JoinWith(Split(s, sep), sep) == s
  {
    if |s| > 0 {
      JoinSplit(s[1..], sep);
      var t := Split(s[1..], sep);
      if s[0] == sep {
        assert Split(s, sep)[1..] == t;
        assert s == [sep] + s[1..];
      } else {
        var r := Split(s, sep);
        assert r[0] == [s[0]] + t[0] && r[1..] == t[1..];
        if |t| == 1 {
          assert s == [s[0]] + s[1..];
        } else {
          assert JoinWith(r, sep) == r[0] + [sep] + JoinWith(t[1..], sep);
          assert JoinWith(t, sep) == t[0] + [sep] + JoinWith(t[1..], sep);
          assert s == [s[0]] + s[1..];
        }
      }
    }
  }

  function DigitChar(d: nat): char
    requires d < 10
  {
    ('0' as int + d) as char
  }

  /** String(n) for a natural number: decimal digits without leading zeros. */
  function NatToString(n: nat): (r: string)
    ensures |r| >= 1 && AllDigits(r)
    ensures |r| > 1 ==> r[0] != '0'
    decreases n
  {
    if n < 10 then [DigitChar(n)] else NatToString(n / 10) + [DigitChar(n % 10)]
  }

  /** String(n) for an integer. */
  function IntToString(n: int): string
  {
    if n < 0 then "-" + NatToString(-n) else NatToString(n)
  }

  /** The value of a string of decimal digits. */
  function DigitsValue(d: string): nat
    requires AllDigits(d)
  {
    if |d| == 0 then 0 else DigitsValue(d[..|d| - 1]) * 10 + (d[|d| - 1] as int - '0' as int)
  }

  /** The maximal prefix of decimal digits. */
  function LeadingDigits(s: string): (r: string)
    ensures AllDigits(r) && StartsWith(s, r)
    ensures |r| < |s| ==> !IsDigit(s[|r|])
  {
    if |s| > 0 && IsDigit(s[0]) then [s[0]] + LeadingDigits(s[1..]) else ""
  }

  /**
   * parseInt(s, 10): optional leading whitespace and sign, then the maximal run
   * of digits; None stands for NaN (no digit at all).
   */
  function ParseIntJs(s: string): (r: Option<int>)
    ensures r.Some? ==> exists k :: 0 <= k < |s| && IsDigit(s[k])
  {
    var t := TrimStart(s);
    var signed := |t| > 0 && (t[0] == '-' || t[0] == '+');
    var body := if signed then t[1..] else t;
    var d := LeadingDigits(body);
    if d == "" then None
    else
      TrimStartSuffix(s);
      assert IsDigit(s[|s| - |t| + (if signed then 1 else 0)]);
      var v: int := DigitsValue(d);
      Some(if signed && t[0] == '-' then -v else v)
  }

  lemma {:induction false} DigitsValueOfNatToString(n: nat)
    ensures DigitsValue(NatToString(n)) == n
    decreases n
  {
    var s := NatToString(n);
    if n >= 10 {
      DigitsValueOfNatToString(n / 10);
      assert s[..|s| - 1] == NatToString(n / 10);
    }
  }

  lemma {:induction false} LeadingDigitsOfDigits(d: string, rest: string)
    requires AllDigits(d)
    requires rest == [] || !IsDigit(rest[0])
    ensures LeadingDigits(d + rest) == d
  {
    if |d| > 0 {
      assert (d + rest)[1..] == d[1..] + rest;
      LeadingDigitsOfDigits(d[1..], rest);
      assert [d[0]] + d[1..] == d;
    } else {
      assert d + rest == rest;
    }
  }

  /** parseInt of a run of digits followed by a non-digit reads the run's value. */
  lemma ParseIntOfDigits(d: string, rest: string)
    requires |d| >= 1 && AllDigits(d)
    requires rest == [] || !IsDigit(rest[0])
    ensures ParseIntJs(d + rest) == Some(DigitsValue(d))
  {
    var s := d + rest;
    assert s[0] == d[0];
    assert !IsWs(s[0]);
    assert TrimStart(s) == s;
    assert !(s[0] == '-' || s[0] == '+');
    LeadingDigitsOfDigits(d, rest);
    assert LeadingDigits(s) == d;
  }

  /** parseInt reads back what String(n) wrote, whatever follows a non-digit. */
  lemma ParseIntOfNatToString(n: nat, rest: string)
    requires rest == [] || !IsDigit(rest[0])
    ensures ParseIntJs(NatToString(n) + rest) == Some(n)
  {
    ParseIntOfDigits(NatToString(n), rest);
    DigitsValueOfNatToString(n);
  }

  lemma ParseIntZero()
    ensures ParseIntJs("0") == Some(0)
  {
    var z := NatToString(0);
    assert z == "0";
    ParseIntOfNatToString(0, []);
    assert z + [] == z;
  }

  /** Leading zeros do not change the value of a digit string. */
  lemma {:induction false} DigitsValueLeadingZero(d: string)
    requires AllDigits(d) && |d| >= 1 && d[0] == '0'
    ensures DigitsValue(d) == DigitsValue(d[1..])
  {
    if |d| > 1 {
      assert d[..|d| - 1][0] == '0';
      DigitsValueLeadingZero(d[..|d| - 1]);
      assert d[..|d| - 1][1..] == d[1..][..|d[1..]| - 1];
    }
  }

  /** String.prototype.padStart(n, c), one fill character at a time. */
  function PadStart(s: string, n: nat, c: char): (r: string)
    ensures |r| == if |s| >= n then |s| else n
    decreases n - |s|
  {
    if |s| >= n then s else PadStart([c] + s, n, c)
  }

  /** The padded string is fill characters followed by the string itself. */
  lemma {:induction false} PadStartFill(s: string, n: nat, c: char)
    ensures var r := PadStart(s, n, c);
      EndsWith(r, s) && forall i :: 0 <= i < |r| - |s| ==> r[i] == c
    decreases n - |s|
  {
    if |s| < n {
      PadStartFill([c] + s, n, c);
      var r := PadStart(s, n, c);
      assert r[|r| - |s|..] == r[|r| - |s| - 1..][1..];
    }
  }

  /** Zeros in front of a digit string do not change its value. */
  lemma {:induction false} ZeroPadValue(d: string, n: nat)
    requires AllDigits(d)
    ensures AllDigits(PadStart(d, n, '0'))
    ensures DigitsValue(PadStart(d, n, '0')) == DigitsValue(d)
    decreases n - |d|
  {
    if |d| < n {
      var z := ['0'] + d;
      ZeroPadValue(z, n);
      assert z[1..] == d;
      DigitsValueLeadingZero(z);
    }
  }

  /** Number of elements of `s` satisfying `p` (`s.filter(p).length`). */
  function Count<T>(s: seq<T>, p: T -> bool): (r: nat)
    ensures r <= |s|
  {
    if |s| == 0 then 0 else (if p(s[0]) then 1 else 0) + Count(s[1..], p)
  }

  /** Array.prototype.filter. */
  function Filter<T>(s: seq<T>, p: T -> bool): (r: seq<T>)
    ensures |r| == Count(s, p)
    ensures forall i :: 0 <= i < |r| ==> p(r[i]) && r[i] in s
    ensures forall x :: x in s && p(x) ==> x in r
  {
    if |s| == 0 then []
    else if p(s[0]) then [s[0]] + Filter(s[1..], p)
    else Filter(s[1..], p)
  }

  /** Nothing passes the filter when no element satisfies the predicate. */
  lemma {:induction false} FilterNone<T>(s: seq<T>, p: T -> bool)
    requires forall x :: x in s ==> !p(x)
    ensures Filter(s, p) == []
  {
    if |s| > 0 {
      assert forall x :: x in s[1..] ==> x in s;
      FilterNone(s[1..], p);
    }
  }

  /** `sub` is an order-preserving subsequence of `s`. */
  predicate IsSubsequence<T(==)>(sub: seq<T>, s: seq<T>)
  {
    if |sub| == 0 then true
    else if |s| == 0 then false
    else if sub[0] == s[0] then IsSubsequence(sub[1..], s[1..])
    else IsSubsequence(sub, s[1..])
  }

  lemma {:induction false} FilterIsSubsequence<T>(s: seq<T>, p: T -> bool)
    ensures IsSubsequence(Filter(s, p), s)
  {
    if |s| > 0 {
      FilterIsSubsequence(s[1..], p);
      if !p(s[0]) {
        SubsequenceOfTail(Filter(s[1..], p), s);
      }
    }
  }

  lemma {:induction false} SubsequenceOfTail<T>(sub: seq<T>, s: seq<T>)
    requires |s| > 0 && IsSubsequence(sub, s[1..])
    ensures IsSubsequence(sub, s)
    decreases |s|, 0
  {
    if |sub| > 0 && sub[0] == s[0] {
      // sub[0] also occurs in s[1..], at the position the tail match starts from
      SubsequenceDropHead(sub, s[1..]);
    }
  }

  lemma {:induction false} SubsequenceDropHead<T>(sub: seq<T>, s: seq<T>)
    requires |sub| > 0 && IsSubsequence(sub, s)
    ensures IsSubsequence(sub[1..], s)
    decreases |s|, 1
  {
    assert |s| > 0;
    if sub[0] == s[0] {
      if |sub| > 1 {
        SubsequenceOfTail(sub[1..], s);
      }
    } else {
      SubsequenceDropHead(sub, s[1..]);
      SubsequenceOfTail(sub[1..], s);
    }
  }

  lemma {:induction false} SubsequenceRefl<T>(s: seq<T>)
    ensures IsSubsequence(s, s)
  {
    if |s| > 0 {
      SubsequenceRefl(s[1..]);
    }
  }

  /** A subsequence of a subsequence is a subsequence. */
  lemma {:induction false} SubsequenceTrans<T>(a: seq<T>, b: seq<T>, c: seq<T>)
    requires IsSubsequence(a, b) && IsSubsequence(b, c)
    ensures IsSubsequence(a, c)
    decreases |c|
  {
    if |a| > 0 {
      if b[0] == c[0] {
        if a[0] == b[0] {
          SubsequenceTrans(a[1..], b[1..], c[1..]);
        } else {
          SubsequenceTrans(a, b[1..], c[1..]);
          SubsequenceOfTail(a, c);
        }
      } else {
        SubsequenceTrans(a, b, c[1..]);
        SubsequenceOfTail(a, c);
      }
    }
  }

  lemma FilterAll<T>(s: seq<T>, p: T -> bool)
    requires forall x :: x in s ==> p(x)
    ensures Filter(s, p) == s
  {
    if |s| > 0 {
      assert s[0] in s;
      assert forall x :: x in s[1..] ==> x in s;
      FilterAll(s[1..], p);
      assert [s[0]] + s[1..] == s;
    }
  }

  /** Appending one element extends the filtered sequence by that element when it passes. */
  lemma {:induction false} FilterSnoc<T>(s: seq<T>, x: T, p: T -> bool)
    ensures Filter(s + [x], p) == Filter(s, p) + (if p(x) then [x] else [])
  {
    if |s| == 0 {
      assert s + [x] == [x];
      assert [x][1..] == [];
    } else {
      assert (s + [x])[0] == s[0];
      assert (s + [x])[1..] == s[1..] + [x];
      FilterSnoc(s[1..], x, p);
    }
  }

  lemma {:induction false} CountSnoc<T>(s: seq<T>, x: T, p: T -> bool)
    ensures Count(s + [x], p) == Count(s, p) + (if p(x) then 1 else 0)
  {
    FilterSnoc(s, x, p);
  }

  /** No element satisfies the predicate: the count is zero. */
  lemma {:induction false} CountNoneZero<T>(s: seq<T>, p: T -> bool)
    requires forall i :: 0 <= i < |s| ==> !p(s[i])
    ensures Count(s, p) == 0
  {
    if |s| > 0 {
      assert forall i :: 0 <= i < |s| - 1 ==> s[1..][i] == s[i + 1];
      CountNoneZero(s[1..], p);
    }
  }

  /** Only the element at `index` satisfies the predicate: the count is one, or zero past the end. */
  lemma {:induction false} CountOnlyAt<T>(s: seq<T>, p: T -> bool, index: nat)
    requires forall i :: 0 <= i < |s| ==> (p(s[i]) <==> i == index)
    ensures Count(s, p) == if index < |s| then 1 else 0
  {
    if |s| > 0 {
      assert forall i :: 0 <= i < |s| - 1 ==> s[1..][i] == s[i + 1];
      if index == 0 {
        CountNoneZero(s[1..], p);
      } else {
        CountOnlyAt(s[1..], p, index - 1);
      }
    }
  }

  /** Replacing one element changes the count by what the two elements contribute. */
  lemma {:induction false} CountUpdate<T>(s: seq<T>, i: nat, x: T, p: T -> bool)
    requires i < |s|
    ensures Count(s[i := x], p) == Count(s, p) - (if p(s[i]) then 1 else 0) + (if p(x) then 1 else 0)
  {
    if i > 0 {
      assert s[i := x][1..] == s[1..][i - 1 := x];
      CountUpdate(s[1..], i - 1, x, p);
    } else {
      assert s[i := x][1..] == s[1..];
    }
  }

  /** JavaScript's `a || b` on an optional string: the empty string and null give way to `b`. */
  function OrElse(a: Option<string>, b: string): (r: string)
    ensures a.Some? && a.value != "" ==> r == a.value
    ensures a.None? || a.value == "" ==> r == b
  {
    if a.Some? && a.value != "" then a.value else b
  }

  /** JavaScript's `a || null` on an optional string. */
  function OrNull(a: Option<string>): (r: Option<string>)
    ensures r.Some? <==> a.Some? && a.value != ""
    ensures r.Some? ==> r == a
  {
    if a.Some? && a.value != "" then a else None
  }

  /** Concatenation is associative. */
  lemma AppendAssoc<T>(a: seq<T>, b: seq<T>, c: seq<T>)
    ensures a + b + c == a + (b + c)
  {
  }

  /** Appending `x` after `b` is appending the longer `c`. */
  lemma AppendSnoc<T>(a: seq<T>, b: seq<T>, x: T, c: seq<T>)
    requires c == b + [x]
    ensures a + b + [x] == a + c
  {
  }

  /** Cutting the first `i + 1` elements to their first `i` gives the first `i`. */
  lemma PrefixOfPrefix<T>(s: seq<T>, i: nat)
    requires i < |s|
    ensures s[..i + 1][..i] == s[..i] && s[..i + 1][i] == s[i]
  {
  }

  /** `s[..i + 1]` is `s[..i]` followed by `s[i]`. */
  lemma PrefixSnoc<T>(s: seq<T>, i: nat)
    requires i < |s|
    ensures s[..i + 1] == s[..i] + [s[i]]
  {
  }

  // ----- Matching regular expressions at a position -----

  /** Length of the run of characters satisfying `p` that starts at `i`. */
  function RunLength(s: string, i: nat, p: char -> bool): (n: nat)
    requires i <= |s|
    ensures i + n <= |s|
    ensures forall j :: i <= j < i + n ==> p(s[j])
    ensures i + n < |s| ==> !p(s[i + n])
    decreases |s| - i
  {
    if i < |s| && p(s[i]) then 1 + RunLength(s, i + 1, p) else 0
  }

  /** A run of `n` characters satisfying `p` from `i`, ended by one that does not or by the end. */
  lemma RunLengthExact(s: string, i: nat, n: nat, p: char -> bool)
    requires i + n <= |s|
    requires forall j :: i <= j < i + n ==> p(s[j])
    requires i + n == |s| || !p(s[i + n])
    ensures RunLength(s, i, p) == n
  {
  }

  /** `w` (lower case) occurs at `q`, ignoring the case of ASCII letters. */
  predicate HasCi(s: string, q: nat, w: string)
  {
    q + |w| <= |s| && Lower(s[q..q + |w|]) == w
  }

  /** The leftmost match at or after `p`: its start and end. */
  function FirstMatch(s: string, p: nat, at: (string, nat) -> Option<nat>): (r: Option<(nat, nat)>)
    ensures r.Some? ==> p <= r.value.0 <= |s| && at(s, r.value.0) == Some(r.value.1)
    ensures forall q :: p <= q <= |s| && (r.None? || q < r.value.0) ==> at(s, q).None?
    decreases |s| - p
  {
    if p > |s| then None
    else match at(s, p)
      case Some(e) => Some((p, e))
      case None => FirstMatch(s, p + 1, at)
  }

  lemma {:induction false} FirstMatchAt(s: string, p: nat, target: nat, at: (string, nat) -> Option<nat>)
    requires p <= target <= |s|
    requires forall q :: p <= q < target ==> at(s, q).None?
    requires at(s, target).Some?
    ensures FirstMatch(s, p, at) == Some((target, at(s, target).value))
    decreases target - p
  {
    if p < target {
      FirstMatchAt(s, p + 1, target, at);
    }
  }

  lemma {:induction false} FirstMatchNone(s: string, p: nat, at: (string, nat) -> Option<nat>)
    requires forall q :: p <= q <= |s| ==> at(s, q).None?
    ensures FirstMatch(s, p, at).None?
    decreases |s| - p
  {
    if p <= |s| {
      FirstMatchNone(s, p + 1, at);
    }
  }
}
