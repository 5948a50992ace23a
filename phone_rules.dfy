/**
 * Phone-number rules of the client domain layer: validation through the
 * phone-number library, the reliability bands driven by consecutive delivery
 * failures, and the clean-up applied to hand-typed numbers.
 */
module PhoneRules {
  import opened Common

  /** After this many consecutive failures a phone is flagged as unreliable. */
  const PhoneFailureThreshold: int := 3

  /**
   * What the phone-number library does with an input under the "US" region:
   * it either parses it (telling whether the number is valid, and its E.164
   * form) or throws with a message.
   */
  datatype ParseOutcome = Parsed(isValidNumber: bool, e164: string) | ParseThrew(message: string)

  /** The library, as an uninterpreted function of the text it is given. */
  type PhoneLib = string -> ParseOutcome

  datatype PhoneValidation = PhoneValidation(isValid: bool, formatted: Option<string>, error: Option<string>)

  /** validateAndFormatPhone: E.164 for a valid number, otherwise an error message. */
  function ValidateAndFormatPhone(lib: PhoneLib, phone: string): (r: PhoneValidation)
    ensures r.isValid <==> r.formatted.Some?
    ensures r.isValid <==> lib(phone).Parsed? && lib(phone).isValidNumber
    ensures r.isValid ==> r.formatted.value == lib(phone).e164 && r.error.None?
    ensures !r.isValid ==> r.error.Some? && r.error.value != ""
    ensures lib(phone).Parsed? && !r.isValid ==> r.error == Some("Invalid phone number format")
  {
    match lib(phone)
    case Parsed(valid, e164) =>
      if !valid then PhoneValidation(false, None, Some("Invalid phone number format"))
      else PhoneValidation(true, Some(e164), None)
    case ParseThrew(msg) =>
      PhoneValidation(false, None, Some(if msg != "" then msg else "Invalid phone number"))
  }

  predicate ShouldFlagPhone(consecutiveFailures: int)
  {
    consecutiveFailures >= PhoneFailureThreshold
  }

  predicate IsPrimaryCandidatePhone(consecutiveFailures: int)
  {
    consecutiveFailures < PhoneFailureThreshold
  }

  datatype Band = Good | Warning | Bad

  datatype Reliability = Reliability(status: Band, message: string, color: string)

  /** getPhoneReliabilityStatus. */
  function PhoneReliabilityStatus(consecutiveFailures: int): (r: Reliability)
  {
    var n := consecutiveFailures;
    if n == 0 then Reliability(Good, "Reliable", "#10B981")
    else if n < PhoneFailureThreshold then
      Reliability(Warning, IntToString(n) + " recent failure" + (if n > 1 then "s" else ""), "#F59E0B")
    else Reliability(Bad, IntToString(n) + " consecutive failures", "#EF4444")
  }

  /**
   * The three bands partition the failure counts, agree with the flag and the
   * primary-candidate rule, and carry the messages the screens display.
   */
  lemma ReliabilityBands(n: int)
    ensures PhoneReliabilityStatus(n).status == Good <==> n == 0
    ensures PhoneReliabilityStatus(n).status == Bad <==> ShouldFlagPhone(n)
    ensures ShouldFlagPhone(n) <==> !IsPrimaryCandidatePhone(n)
    ensures n >= 3 ==> PhoneReliabilityStatus(n).message == NatToString(n) + " consecutive failures"
  {
  }

  /** The messages for no, one and two recent failures. */
  lemma ReliabilityMessages(n: int)
    ensures n == 0 ==> PhoneReliabilityStatus(n).message == "Reliable"
    ensures n == 1 ==> PhoneReliabilityStatus(n).message == "1 recent failure"
    ensures n == 2 ==> PhoneReliabilityStatus(n).message == "2 recent failures"
  {
    if n == 1 {
      assert IntToString(1) == "1";
      assert "1" + " recent failure" + "" == "1 recent failure";
    } else if n == 2 {
      assert IntToString(2) == "2";
      assert "2" + " recent failure" + "s" == "2 recent failures";
    }
  }

  /** Number of trailing characters of `s` satisfying `p`. */
  function TrailingCount(s: string, p: char -> bool): (k: nat)
    ensures k <= |s|
    ensures forall i :: |s| - k <= i < |s| ==> p(s[i])
    ensures k < |s| ==> !p(s[|s| - 1 - k])
  {
    if |s| > 0 && p(s[|s| - 1]) then TrailingCount(s[..|s| - 1], p) + 1 else 0
  }

  /** `s` without its maximal run of trailing whitespace. */
  function DropTrailingWs(s: string): (r: string)
    ensures r == TrimEnd(s)
  {
    TrimEndIsTrailingCount(s);
    s[..|s| - TrailingCount(s, IsWs)]
  }

  lemma {:induction false} TrimEndIsTrailingCount(s: string)
    ensures TrimEnd(s) == s[..|s| - TrailingCount(s, IsWs)]
  {
    if |s| > 0 && IsWs(s[|s| - 1]) {
      TrimEndIsTrailingCount(s[..|s| - 1]);
      assert s[..|s| - 1][..|s| - 1 - TrailingCount(s[..|s| - 1], IsWs)] == s[..|s| - TrailingCount(s, IsWs)];
    }
  }

  /** `.replace(/\s*x\d+$/i, "")`: a trailing "x<digits>" and the whitespace before it. */
  function StripXExtension(s: string): string
  {
    var k := TrailingCount(s, IsDigit);
    var j := |s| - k;
    if k >= 1 && j >= 1 && (s[j - 1] == 'x' || s[j - 1] == 'X') then DropTrailingWs(s[..j - 1])
    else s
  }

  /** `.replace(/\s*ext\.?\s*\d+$/i, "")`: a trailing "ext[.] <digits>" and the whitespace before it. */
  function StripExtExtension(s: string): string
  {
    var k := TrailingCount(s, IsDigit);
    if k == 0 then s
    else
      var b := DropTrailingWs(s[..|s| - k]);
      var c := if |b| > 0 && b[|b| - 1] == '.' then b[..|b| - 1] else b;
      if |c| >= 3 && Lower(c[|c| - 3..]) == "ext" then DropTrailingWs(c[..|c| - 3])
      else s
  }

  /** Offset of the first ')' of `s`, provided no line terminator comes before it. */
  function CloseParenOnLine(s: string): (r: Option<nat>)
    ensures r.Some? ==> r.value < |s| && s[r.value] == ')'
  {
    if |s| == 0 || IsLineTerminator(s[0]) then None
    else if s[0] == ')' then Some(0)
    else match CloseParenOnLine(s[1..])
      case None => None
      case Some(k) => Some(k + 1)
  }

  const UnblockOpener: string := "(to unblock"

  /** `.replace(/\(to unblock.*?\)/gi, "")`: every "(to unblock …)" note, scanning left to right. */
  function RemoveUnblockNotes(s: string): (r: string)
    ensures |r| <= |s|
    decreases |s|
  {
    if |s| == 0 then ""
    else if |s| >= |UnblockOpener| && Lower(s[..|UnblockOpener|]) == UnblockOpener then
      match CloseParenOnLine(s[|UnblockOpener|..])
      case Some(k) => RemoveUnblockNotes(s[|UnblockOpener| + k + 1..])
      case None => [s[0]] + RemoveUnblockNotes(s[1..])
    else [s[0]] + RemoveUnblockNotes(s[1..])
  }

  /** cleanPhoneInput: the three replacements in source order, then trim. */
  function CleanPhoneInput(phone: string): (r: string)
    ensures Trimmed(r)
    ensures |r| <= |phone|
  {
    Trim(RemoveUnblockNotes(StripExtExtension(StripXExtension(phone))))
  }

  predicate NoLetters(s: string) { forall i :: 0 <= i < |s| ==> !IsAsciiLetter(s[i]) }

  lemma {:induction false} RemoveUnblockNotesNoLetters(s: string)
    requires NoLetters(s)
    ensures RemoveUnblockNotes(s) == s
  {
    if |s| > 1 {
      CopiedWhenNoOpener(s);
      RemoveUnblockNotesNoLetters(s[1..]);
      assert [s[0]] + s[1..] == s;
    } else if |s| == 1 {
      assert s[1..] == [];
      assert [s[0]] == s;
    }
  }

  lemma StripXNoLetters(phone: string)
    requires NoLetters(phone)
    ensures StripXExtension(phone) == phone
  {
    var k := TrailingCount(phone, IsDigit);
    var j := |phone| - k;
    if k >= 1 && j >= 1 {
      assert !IsAsciiLetter(phone[j - 1]);
    }
  }

  lemma StripExtNoLetters(phone: string)
    requires NoLetters(phone)
    ensures StripExtExtension(phone) == phone
  {
    var k := TrailingCount(phone, IsDigit);
    if k != 0 {
      var b := DropTrailingWs(phone[..|phone| - k]);
      var c := if |b| > 0 && b[|b| - 1] == '.' then b[..|b| - 1] else b;
      if |c| >= 3 {
        assert c[|c| - 1] == phone[|c| - 1];
        assert Lower(c[|c| - 3..])[2] == LowerChar(c[|c| - 1]) != 't';
      }
    }
  }

  /** A number written without letters, such as "(212) 555-1234", is only trimmed. */
  lemma CleanPhoneInputWithoutLetters(phone: string)
    requires NoLetters(phone)
    ensures CleanPhoneInput(phone) == Trim(phone)
  {
    StripXNoLetters(phone);
    StripExtNoLetters(phone);
    RemoveUnblockNotesNoLetters(phone);
  }

  lemma {:induction false} TrailingCountAppend(a: string, b: string, p: char -> bool)
    requires forall i :: 0 <= i < |b| ==> p(b[i])
    requires |a| > 0 && !p(a[|a| - 1])
    ensures TrailingCount(a + b, p) == |b|
  {
    if |b| > 0 {
      assert (a + b)[..|a + b| - 1] == a + b[..|b| - 1];
      TrailingCountAppend(a, b[..|b| - 1], p);
    } else {
      assert a + b == a;
    }
  }

  lemma DropTrailingWsAppend(a: string, w: string)
    requires AllWs(w)
    requires a == [] || !IsWs(a[|a| - 1])
    ensures DropTrailingWs(a + w) == a
  {
    TrimEndAllWs(a, w);
  }

  lemma StripXOf(num: string, w: string, x: char, digits: string)
    requires |num| > 0 && !IsWs(num[|num| - 1])
    requires AllWs(w) && (x == 'x' || x == 'X') && |digits| >= 1 && AllDigits(digits)
    ensures StripXExtension(num + w + [x] + digits) == num
  {
    var s := num + w + [x] + digits;
    TrailingCountAppend(num + w + [x], digits, IsDigit);
    var j := |s| - |digits|;
    assert s[j - 1] == x;
    assert s[..j - 1] == num + w;
    DropTrailingWsAppend(num, w);
  }

  /**
   * A trailing " x123" (any whitespace, either case of x, at least one digit)
   * is removed from a letter-free number.
   */
  lemma CleanPhoneInputDropsX(num: string, w: string, x: char, digits: string)
    requires NoLetters(num) && |num| > 0 && !IsWs(num[|num| - 1])
    requires AllWs(w) && (x == 'x' || x == 'X') && |digits| >= 1 && AllDigits(digits)
    ensures CleanPhoneInput(num + w + [x] + digits) == Trim(num)
  {
    StripXOf(num, w, x, digits);
    CleanPhoneInputWithoutLetters(num);
  }

  /** The text an " ext. 123" suffix is made of, before its digits. */
  predicate ExtPrefix(num: string, w1: string, ext: string, dot: string, w2: string)
  {
    |num| > 0 && !IsWs(num[|num| - 1]) && !IsDigit(num[|num| - 1]) &&
    AllWs(w1) && AllWs(w2) && |ext| == 3 && Lower(ext) == "ext" && (dot == "" || dot == ".")
  }

  lemma ExtPrefixLast(num: string, w1: string, ext: string, dot: string, w2: string)
    requires ExtPrefix(num, w1, ext, dot, w2)
    ensures var pre := num + w1 + ext + dot + w2; !IsDigit(pre[|pre| - 1]) && pre[|pre| - 1] != 'x' && pre[|pre| - 1] != 'X'
    ensures var b := num + w1 + ext + dot; !IsWs(b[|b| - 1])
  {
    var pre := num + w1 + ext + dot + w2;
    var b := num + w1 + ext + dot;
    assert LowerChar(ext[2]) == 't';
    if |w2| > 0 { assert pre[|pre| - 1] == w2[|w2| - 1]; }
    else if dot == "." { assert pre[|pre| - 1] == '.'; }
    else { assert pre[|pre| - 1] == ext[2]; }
    if dot == "." { assert b[|b| - 1] == '.'; } else { assert b[|b| - 1] == ext[2]; }
  }

  lemma StripExtOf(num: string, w1: string, ext: string, dot: string, w2: string, digits: string)
    requires ExtPrefix(num, w1, ext, dot, w2)
    requires |digits| >= 1 && AllDigits(digits)
    ensures StripExtExtension(num + w1 + ext + dot + w2 + digits) == num
  {
    var pre := num + w1 + ext + dot + w2;
    var s := pre + digits;
    ExtPrefixLast(num, w1, ext, dot, w2);
    assert LowerChar(ext[2]) == 't';
    TrailingCountAppend(pre, digits, IsDigit);
    assert s[..|s| - |digits|] == (num + w1 + ext + dot) + w2;
    DropTrailingWsAppend(num + w1 + ext + dot, w2);
    var b := num + w1 + ext + dot;
    var c := if |b| > 0 && b[|b| - 1] == '.' then b[..|b| - 1] else b;
    assert c == num + w1 + ext by {
      if dot == "." { assert b[..|b| - 1] == num + w1 + ext; }
      else { assert b == num + w1 + ext; assert ext[2] != '.'; }
    }
    assert c[|c| - 3..] == ext;
    assert c[..|c| - 3] == num + w1;
    DropTrailingWsAppend(num, w1);
  }

  lemma StripXOfExt(num: string, w1: string, ext: string, dot: string, w2: string, digits: string)
    requires ExtPrefix(num, w1, ext, dot, w2)
    requires |digits| >= 1 && AllDigits(digits)
    ensures var s := num + w1 + ext + dot + w2 + digits; StripXExtension(s) == s
  {
    var pre := num + w1 + ext + dot + w2;
    var s := pre + digits;
    ExtPrefixLast(num, w1, ext, dot, w2);
    assert LowerChar(ext[2]) == 't';
    TrailingCountAppend(pre, digits, IsDigit);
    assert s[|s| - |digits| - 1] == pre[|pre| - 1];
  }

  /** A trailing " ext 123" or " ext. 123" is removed from a letter-free number. */
  lemma CleanPhoneInputDropsExt(num: string, w1: string, ext: string, dot: string, w2: string, digits: string)
    requires NoLetters(num) && ExtPrefix(num, w1, ext, dot, w2)
    requires |digits| >= 1 && AllDigits(digits)
    ensures CleanPhoneInput(num + w1 + ext + dot + w2 + digits) == Trim(num)
  {
    StripXOfExt(num, w1, ext, dot, w2, digits);
    StripExtOf(num, w1, ext, dot, w2, digits);
    CleanPhoneInputWithoutLetters(num);
  }

  lemma {:induction false} CloseParenAfterNote(note: string)
    requires forall i :: 0 <= i < |note| ==> note[i] != ')' && !IsLineTerminator(note[i])
    ensures CloseParenOnLine(note + ")") == Some(|note|)
  {
    if |note| > 0 {
      assert (note + ")")[1..] == note[1..] + ")";
      CloseParenAfterNote(note[1..]);
    }
  }

  /** No note opens at a character whose successor is not a letter. */
  lemma CopiedWhenNoOpener(s: string)
    requires |s| > 1 && !IsAsciiLetter(s[1])
    ensures RemoveUnblockNotes(s) == [s[0]] + RemoveUnblockNotes(s[1..])
  {
    if |s| >= |UnblockOpener| {
      assert Lower(s[..|UnblockOpener|])[1] == LowerChar(s[1]) != 't';
    }
  }

  lemma DropFirstSlices(s: string, k: nat)
    requires 0 < k <= |s|
    ensures s[1..][..k - 1] == s[..k][1..] && s[1..][k - 1..] == s[k..]
    ensures [s[0]] + s[1..][..k - 1] == s[..k]
  {
  }

  /** A letter-free prefix is copied through, when the character after it is not a letter. */
  lemma {:induction false} CopiedPrefix(s: string, k: nat)
    requires k < |s| && NoLetters(s[..k]) && !IsAsciiLetter(s[k])
    ensures RemoveUnblockNotes(s) == s[..k] + RemoveUnblockNotes(s[k..])
  {
    if k > 0 {
      assert !IsAsciiLetter(s[1]) by {
        if k > 1 { assert s[1] == s[..k][1]; }
      }
      CopiedWhenNoOpener(s);
      var t := s[1..];
      DropFirstSlices(s, k);
      CopiedPrefix(t, k - 1);
      AppendAssoc([s[0]], t[..k - 1], RemoveUnblockNotes(s[k..]));
    }
  }

  /** One "(to unblock …)" note, the opener in any case, is removed entirely. */
  lemma UnblockNoteRemoved(opener: string, note: string)
    requires Lower(opener) == UnblockOpener
    requires forall i :: 0 <= i < |note| ==> note[i] != ')' && !IsLineTerminator(note[i])
    ensures RemoveUnblockNotes(opener + note + ")") == ""
  {
    var s := opener + note + ")";
    assert s[..|UnblockOpener|] == opener;
    assert s[|UnblockOpener|..] == note + ")";
    CloseParenAfterNote(note);
    assert s[|UnblockOpener| + |note| + 1..] == "";
  }

  /**
   * A trailing "(to unblock …)" note, such as in "(212) 555-1234 (to unblock 67)",
   * is removed from a letter-free number, the opener in any case.
   */
  lemma CleanPhoneInputDropsUnblockNote(num: string, opener: string, note: string)
    requires NoLetters(num) && Lower(opener) == UnblockOpener
    requires forall i :: 0 <= i < |note| ==> note[i] != ')' && !IsLineTerminator(note[i])
    ensures CleanPhoneInput(num + opener + note + ")") == Trim(num)
  {
    var b := opener + note + ")";
    var s := num + b;
    assert s == num + opener + note + ")";
    assert TrailingCount(s, IsDigit) == 0;
    assert LowerChar(opener[0]) == '(';
    assert b[0] == opener[0] == '(';
    assert s[..|num|] == num && s[|num|..] == b;
    CopiedPrefix(s, |num|);
    UnblockNoteRemoved(opener, note);
    assert num + "" == num;
  }

  /** validatePhoneList's entries: the validation of the cleaned input, its index and the raw input. */
  datatype ListEntry = ListEntry(result: PhoneValidation, index: nat, original: string)

  function ValidatePhoneList(lib: PhoneLib, phones: seq<string>): (r: seq<ListEntry>)
    ensures |r| == |phones|
    ensures forall i :: 0 <= i < |r| ==> r[i].index == i && r[i].original == phones[i]
    ensures forall i :: 0 <= i < |r| ==> r[i].result == ValidateAndFormatPhone(lib, CleanPhoneInput(phones[i]))
  {
    seq(|phones|, i requires 0 <= i < |phones| => ListEntry(ValidateAndFormatPhone(lib, CleanPhoneInput(phones[i])), i, phones[i]))
  }
}
