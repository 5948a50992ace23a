/**
 * Alert rules of the client domain layer: SMS segment arithmetic, the
 * message-length limit and warnings, recipient eligibility, group display
 * data, and the checks that gate sending an alert.
 */
module AlertRules {
  import opened Common
  import opened MarketRules

  const SmsSegmentSize: nat := 160
  /** Two segments. */
  const MaxMessageLength: nat := 320

  datatype AlertType = TextAlert | VoiceAlert

  /** calculateSmsSegments: 0 for the empty message, otherwise ceil(length / 160). */
  function CalculateSmsSegments(message: string): (r: nat)
    ensures r == 0 <==> |message| == 0
    ensures |message| > 0 ==> (r - 1) * SmsSegmentSize < |message| <= r * SmsSegmentSize
  {
    if |message| == 0 then 0 else (|message| + SmsSegmentSize - 1) / SmsSegmentSize
  }

  /** isValidSmsLength. */
  predicate IsValidSmsLength(message: string)
  {
    |message| > 0 && |message| <= MaxMessageLength
  }

  /** A message is sendable as text exactly when it takes one or two segments. */
  lemma ValidLengthIsOneOrTwoSegments(message: string)
    ensures IsValidSmsLength(message) <==> 1 <= CalculateSmsSegments(message) <= 2
  {
    SegmentsAgainstLength(message);
  }

  /** How the segment count compares with one and two segments' worth of text. */
  lemma SegmentsAgainstLength(message: string)
    ensures CalculateSmsSegments(message) <= 1 <==> |message| <= SmsSegmentSize
    ensures CalculateSmsSegments(message) <= 2 <==> |message| <= 2 * SmsSegmentSize
    ensures CalculateSmsSegments(message) == 2 <==> SmsSegmentSize < |message| <= 2 * SmsSegmentSize
  {
    var n := |message|;
    if n > 0 {
      var r := (n + 159) / 160;
      assert r * 160 <= n + 159 < r * 160 + 160;
    }
  }

  /** The boundaries pinned down by the domain tests. */
  lemma SegmentBoundaries(message: string)
    ensures |message| == 160 ==> CalculateSmsSegments(message) == 1
    ensures |message| == 161 ==> CalculateSmsSegments(message) == 2
    ensures |message| == 320 ==> CalculateSmsSegments(message) == 2
    ensures |message| == 321 ==> CalculateSmsSegments(message) == 3
  {
  }

  /** getSmsLengthWarning; None stands for null. */
  function SmsLengthWarning(message: string): Option<string>
  {
    var segments := CalculateSmsSegments(message);
    if segments > 2 then Some("Message exceeds " + NatToString(MaxMessageLength) + " characters and will be truncated")
    else if segments > 1 then Some("Message will be sent as " + NatToString(segments) + " SMS segments")
    else None
  }

  lemma {:induction false} NatToStringSmall(n: nat)
    requires n < 10
    ensures NatToString(n) == [DigitChar(n)]
  {
  }

  lemma NatToString320()
    ensures NatToString(320) == "320"
  {
    assert NatToString(3) == "3";
    assert NatToString(32) == NatToString(3) + [DigitChar(2)];
    assert NatToString(320) == NatToString(32) + [DigitChar(0)];
  }

  lemma TruncationWarningText()
    ensures "Message exceeds " + NatToString(MaxMessageLength) + " characters and will be truncated" ==
            "Message exceeds 320 characters and will be truncated"
  {
    NatToString320();
    assert "Message exceeds " + "320" == "Message exceeds 320";
  }

  /** No warning up to one segment, the segment count at two, truncation beyond. */
  lemma SmsLengthWarningBands(message: string)
    ensures SmsLengthWarning(message).None? <==> |message| <= SmsSegmentSize
    ensures SmsSegmentSize < |message| <= MaxMessageLength ==>
      SmsLengthWarning(message) == Some("Message will be sent as 2 SMS segments")
    ensures |message| > MaxMessageLength ==>
      SmsLengthWarning(message) == Some("Message exceeds 320 characters and will be truncated")
  {
    SegmentsAgainstLength(message);
    var r := CalculateSmsSegments(message);
    if 160 < |message| <= 320 {
      assert r == 2;
      assert NatToString(2) == "2";
      assert "Message will be sent as " + "2" + " SMS segments" == "Message will be sent as 2 SMS segments";
    }
    if |message| > 320 {
      TruncationWarningText();
    }
  }

  /** isEligibleRecipient: the same rule as broadcast-list membership. */
  predicate IsEligibleRecipient(marketList: Option<FeedList>, group: RecipientGroup)
  {
    IsInBroadcastList(marketList, group)
  }

  lemma EligibleRecipients(marketList: Option<FeedList>, group: RecipientGroup)
    ensures group == AllStations ==> IsEligibleRecipient(marketList, group)
    ensures group != AllStations ==> (IsEligibleRecipient(marketList, group) <==> marketList == GroupList(group))
  {
    BroadcastListMembership(marketList, group);
  }

  datatype GroupMeta = GroupMeta(labelText: string, description: string, color: string)

  /** getRecipientGroupMeta. */
  function RecipientGroupMeta(group: RecipientGroup): GroupMeta
  {
    match group
    case AllStations => GroupMeta("All Stations", "Send to all markets", "#007AFF")
    case Group3pm => GroupMeta("3:30 Feed", "3:30 PM broadcast list", "#F59E0B")
    case Group6pm => GroupMeta("6:00 Feed", "6:00 PM broadcast list", "#8B5CF6")
  }

  /** Each group has its own label, so the label identifies the group. */
  lemma GroupMetaLabelsDistinct(g1: RecipientGroup, g2: RecipientGroup)
    ensures RecipientGroupMeta(g1).labelText == RecipientGroupMeta(g2).labelText <==> g1 == g2
  {
    if g1 != g2 {
      var l1, l2 := RecipientGroupMeta(g1).labelText, RecipientGroupMeta(g2).labelText;
      assert l1[0] != l2[0];
    }
  }

  datatype Validation = Validation(isValid: bool, error: Option<string>)

  /** Content the "!content || content.trim().length === 0" test rejects. */
  predicate BlankContent(content: Option<string>)
  {
    content.None? || |Trim(content.value)| == 0
  }

  /** validateAlert: group, then content, then (for text only) length. */
  function ValidateAlert(alertType: AlertType, content: Option<string>, group: Option<RecipientGroup>): Validation
  {
    if group.None? then Validation(false, Some("Please select a recipient group"))
    else if BlankContent(content) then
      Validation(false, Some(if alertType == TextAlert then "Please enter a message" else "Please record audio"))
    else if alertType == TextAlert && !IsValidSmsLength(content.value) then
      Validation(false, Some("Message must be between 1 and " + NatToString(MaxMessageLength) + " characters"))
    else Validation(true, None)
  }

  /**
   * The checks run in order and the first failing one decides the message;
   * a voice alert's content has no length limit.
   */
  lemma ValidateAlertOrder(alertType: AlertType, content: Option<string>, group: Option<RecipientGroup>)
    ensures var v := ValidateAlert(alertType, content, group);
      (v.isValid <==> v.error.None?) &&
      (v.isValid <==> group.Some? && !BlankContent(content) &&
                      (alertType == VoiceAlert || |content.value| <= MaxMessageLength)) &&
      (group.None? ==> v.error == Some("Please select a recipient group")) &&
      (group.Some? && BlankContent(content) && alertType == TextAlert ==> v.error == Some("Please enter a message")) &&
      (group.Some? && BlankContent(content) && alertType == VoiceAlert ==> v.error == Some("Please record audio")) &&
      (group.Some? && !BlankContent(content) && alertType == TextAlert && |content.value| > MaxMessageLength ==>
         v.error == Some("Message must be between 1 and 320 characters"))
  {
    NatToString320();
    assert "Message must be between 1 and " + "320" + " characters" == "Message must be between 1 and 320 characters";
  }

  /** canSendAlert. */
  predicate CanSendAlert(alertType: AlertType, content: Option<string>, group: Option<RecipientGroup>, isProcessing: bool)
  {
    if isProcessing then false else ValidateAlert(alertType, content, group).isValid
  }

  /** Sending is possible exactly when nothing is in flight and every check passes. */
  lemma CanSendAlertExactly(alertType: AlertType, content: Option<string>, group: Option<RecipientGroup>, isProcessing: bool)
    ensures CanSendAlert(alertType, content, group, isProcessing) <==>
      !isProcessing && group.Some? && !BlankContent(content) &&
      (alertType == VoiceAlert || |content.value| <= MaxMessageLength)
  {
    ValidateAlertOrder(alertType, content, group);
  }
}
