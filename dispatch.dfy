/**
 * The alert routes: a text alert picks the markets of a recipient group,
 * writes an alert log, then for each market tries its chosen phone and writes
 * one delivery record, recording a failure against the phone when the send
 * bounces or throws. A voice alert writes a "sent" record per phone-bearing
 * market. The SMS provider and the phone-number library are parameters.
 */
module Dispatch {
  import opened Common
  import opened MarketRules
  import opened PhoneRules
  import opened Tables
  import opened AlertRules

  /** `user?.email || user?.name || null`. */
  function SentBy(user: Option<User>): (r: Option<string>)
    ensures r.Some? ==> r.value != ""
    ensures user.Some? && user.value.email.Some? && user.value.email.value != "" ==> r == user.value.email
    ensures user.None? ==> r.None?
    ensures user.Some? && (user.value.email.None? || user.value.email.value == "") ==>
      r == (if user.value.name.Some? && user.value.name.value != "" then user.value.name else None)
  {
    if user.None? then None
    else if user.value.email.Some? && user.value.email.value != "" then user.value.email
    else OrNull(user.value.name)
  }

  /** What the provider's send call does: it answers with a status, or throws. */
  datatype SendOutcome = Accepted(status: string, errorMessage: Option<string>) | Threw(message: string)

  /** The provider, as a function of the destination and the body. */
  type Provider = (string, string) -> SendOutcome

  /**
   * The markets a group id selects, in table order; None is the 400
   * "Invalid recipient group" case.
   */
  function SelectMarkets(groupId: string, all: seq<MarketWithPhones>): Option<seq<MarketWithPhones>>
  {
    if groupId == "all" then Some(all)
    else if groupId == "3pm" then Some(Filter(all, (t: MarketWithPhones) => t.market.list == Feed3pm))
    else if groupId == "6pm" then Some(Filter(all, (t: MarketWithPhones) => t.market.list == Feed6pm))
    else None
  }

  /**
   * Only "all", "3pm" and "6pm" are accepted; "all" takes every market and a
   * list takes exactly the markets on it, keeping their order.
   */
  lemma SelectMarketsExactly(groupId: string, all: seq<MarketWithPhones>)
    ensures SelectMarkets(groupId, all).None? <==> ParseGroupId(groupId).None?
    ensures groupId == "all" ==> SelectMarkets(groupId, all) == Some(all)
    ensures ParseGroupId(groupId).Some? ==>
      var g := ParseGroupId(groupId).value;
      var sel := SelectMarkets(groupId, all).value;
      IsSubsequence(sel, all) &&
      forall t :: t in sel <==> t in all && IsInBroadcastList(Some(t.market.list), g)
  {
    if groupId == "3pm" {
      FilterIsSubsequence(all, (t: MarketWithPhones) => t.market.list == Feed3pm);
    } else if groupId == "6pm" {
      FilterIsSubsequence(all, (t: MarketWithPhones) => t.market.list == Feed6pm);
    } else if groupId == "all" {
      SubsequenceRefl(all);
    }
  }

  /** `phones.find(p => p.isPrimary) || phones[0]`. */
  function ChoosePhone(phones: seq<Phone>): (r: Option<Phone>)
    ensures r.None? <==> |phones| == 0
    ensures r.Some? ==> r.value in phones
  {
    match FirstPrimary(phones)
    case Some(k) => Some(phones[k])
    case None => if |phones| > 0 then Some(phones[0]) else None
  }

  /** The chosen phone is the first primary one, or the first one when none is primary. */
  lemma ChoosePhoneIsPrimaryOrFirst(phones: seq<Phone>)
    ensures forall k :: 0 <= k < |phones| && phones[k].isPrimary && (forall j :: 0 <= j < k ==> !phones[j].isPrimary) ==>
      ChoosePhone(phones) == Some(phones[k])
    ensures |phones| > 0 && (forall j :: 0 <= j < |phones| ==> !phones[j].isPrimary) ==>
      ChoosePhone(phones) == Some(phones[0])
  {
    var f := FirstPrimary(phones);
    forall k | 0 <= k < |phones| && phones[k].isPrimary && (forall j :: 0 <= j < k ==> !phones[j].isPrimary)
      ensures ChoosePhone(phones) == Some(phones[k])
    {
      assert f.Some?;
    }
  }

  predicate HasPhones(t: MarketWithPhones) { |t.phones| > 0 }

  /** The delivery status and error reason a provider answer maps to. */
  datatype Mapped = Mapped(status: DeliveryStatus, errorReason: Option<string>)

  function MapProviderStatus(status: string, errorMessage: Option<string>): Mapped
  {
    if status == "failed" || status == "undelivered" then Mapped(Bounced, Some(OrElse(errorMessage, "Delivery failed")))
    else if status == "delivered" then Mapped(Delivered, None)
    else Mapped(Sent, None)
  }

  /** failed/undelivered bounce with a reason, delivered is delivered, anything else is sent. */
  lemma MapProviderStatusCases(status: string, errorMessage: Option<string>)
    ensures var m := MapProviderStatus(status, errorMessage);
      (m.status == Bounced <==> status == "failed" || status == "undelivered") &&
      (m.status == Delivered <==> status == "delivered") &&
      (m.status == Sent <==> status != "failed" && status != "undelivered" && status != "delivered") &&
      m.status != Failed &&
      (m.errorReason.Some? <==> m.status == Bounced) &&
      (m.status == Bounced && (errorMessage.None? || errorMessage.value == "") ==> m.errorReason == Some("Delivery failed"))
  {
  }

  /** What happens to one chosen phone: the record's status and reason, and whether a failure is recorded. */
  datatype Attempt = Attempt(status: DeliveryStatus, errorReason: Option<string>, recordsFailure: bool)

  /** Whether the validator's answer lets the send go ahead. */
  predicate SendsTo(v: PhoneValidation)
  {
    v.isValid && v.formatted.Some? && v.formatted.value != ""
  }

  function AttemptSend(lib: PhoneLib, send: Provider, number: string, message: string): Attempt
  {
    var v := ValidateAndFormatPhone(lib, number);
    if !SendsTo(v) then Attempt(Bounced, Some(OrElse(v.error, "Invalid phone number format")), false)
    else match send(v.formatted.value, message)
      case Accepted(st, em) =>
        var m := MapProviderStatus(st, em);
        Attempt(m.status, m.errorReason, m.status == Bounced)
      case Threw(msg) => Attempt(Failed, Some(OrElse(Some(msg), "SMS sending failed")), true)
  }

  /**
   * A number the validator rejects bounces with the validator's reason, is
   * never handed to the provider and records no failure; a thrown send fails
   * and records one; a provider bounce records one.
   */
  lemma AttemptSendCases(lib: PhoneLib, send: Provider, number: string, message: string)
    ensures var v := ValidateAndFormatPhone(lib, number);
      var a := AttemptSend(lib, send, number, message);
      (!SendsTo(v) ==>
         a.status == Bounced && !a.recordsFailure &&
         a.errorReason == Some(OrElse(v.error, "Invalid phone number format")) &&
         forall other: Provider :: AttemptSend(lib, other, number, message) == a) &&
      (SendsTo(v) && send(v.formatted.value, message).Threw? ==>
         a.status == Failed && a.recordsFailure && a.errorReason.Some? && a.errorReason.value != "") &&
      (SendsTo(v) && send(v.formatted.value, message).Accepted? ==>
         a == (var m := MapProviderStatus(send(v.formatted.value, message).status, send(v.formatted.value, message).errorMessage);
               Attempt(m.status, m.errorReason, m.status == Bounced)))
  {
  }

  /** A failure is recorded exactly for a failed record and for a bounce the provider reported. */
  lemma FailureRecordedExactly(lib: PhoneLib, send: Provider, number: string, message: string)
    ensures var a := AttemptSend(lib, send, number, message);
      a.recordsFailure <==> a.status == Failed || (a.status == Bounced && SendsTo(ValidateAndFormatPhone(lib, number)))
  {
  }

  /** The delivery row written for a text alert. */
  function TextRecord(id: nat, alertId: nat, t: MarketWithPhones, p: Phone, a: Attempt, now: int): Delivery
  {
    Delivery(id, alertId, t.market.id, t.market.name, p.number, p.labelText, a.status, a.errorReason, now, None, None)
  }

  /** The markets that get a delivery record: those with at least one phone. */
  function PhoneBearing(ts: seq<MarketWithPhones>): (r: seq<MarketWithPhones>)
    ensures forall k :: 0 <= k < |r| ==> HasPhones(r[k])
  {
    Filter(ts, HasPhones)
  }

  /**
   * The delivery rows a text alert writes for markets `ts`, in order: one per
   * market whose chosen phone exists, numbered from `firstId` on.
   */
  function TextDeliveries(ts: seq<MarketWithPhones>, alertId: nat, firstId: nat, lib: PhoneLib, send: Provider, message: string, now: int): seq<Delivery>
  {
    if |ts| == 0 then []
    else
      var t := ts[|ts| - 1];
      var rest := TextDeliveries(ts[..|ts| - 1], alertId, firstId, lib, send, message, now);
      match ChoosePhone(t.phones)
      case None => rest
      case Some(p) => rest + [TextRecord(firstId + |rest|, alertId, t, p, AttemptSend(lib, send, p.number, message), now)]
  }

  /** A market whose chosen phone exists adds its row to the text rows. */
  lemma TextDeliveriesStep(ts: seq<MarketWithPhones>, i: nat, p: Phone, alertId: nat, firstId: nat, id: nat, lib: PhoneLib, send: Provider, message: string, now: int)
    requires i < |ts| && ChoosePhone(ts[i].phones) == Some(p)
    requires id == firstId + |TextDeliveries(ts[..i], alertId, firstId, lib, send, message, now)|
    ensures TextDeliveries(ts[..i + 1], alertId, firstId, lib, send, message, now) ==
      TextDeliveries(ts[..i], alertId, firstId, lib, send, message, now) +
      [TextRecord(id, alertId, ts[i], p, AttemptSend(lib, send, p.number, message), now)]
  {
    assert ts[..i + 1][..i] == ts[..i];
  }

  /** A market without phones adds no text row and no failure. */
  lemma TextDeliveriesSkip(ts: seq<MarketWithPhones>, i: nat, alertId: nat, firstId: nat, lib: PhoneLib, send: Provider, message: string, now: int)
    requires i < |ts| && ChoosePhone(ts[i].phones).None?
    ensures TextDeliveries(ts[..i + 1], alertId, firstId, lib, send, message, now) == TextDeliveries(ts[..i], alertId, firstId, lib, send, message, now)
    ensures FailedPhones(ts[..i + 1], lib, send, message) == FailedPhones(ts[..i], lib, send, message)
  {
    assert ts[..i + 1][..i] == ts[..i];
  }

  /**
   * Exactly the markets with phones get a row, the k-th such market the row
   * with id `firstId + k`, sent to its chosen phone with that phone's outcome.
   */
  lemma {:induction false} TextDeliveriesShape(ts: seq<MarketWithPhones>, alertId: nat, firstId: nat, lib: PhoneLib, send: Provider, message: string, now: int)
    ensures var r := TextDeliveries(ts, alertId, firstId, lib, send, message, now);
      var pb := PhoneBearing(ts);
      |r| == |pb| &&
      forall k :: 0 <= k < |r| ==>
        var p := ChoosePhone(pb[k].phones).value;
        r[k] == TextRecord(firstId + k, alertId, pb[k], p, AttemptSend(lib, send, p.number, message), now)
  {
    if |ts| > 0 {
      var n := |ts| - 1;
      assert ts == ts[..n] + [ts[n]];
      FilterSnoc(ts[..n], ts[n], HasPhones);
      TextDeliveriesShape(ts[..n], alertId, firstId, lib, send, message, now);
    }
  }

  /** The phones, in market order, against which the text alert records a failure. */
  function FailedPhones(ts: seq<MarketWithPhones>, lib: PhoneLib, send: Provider, message: string): seq<nat>
  {
    if |ts| == 0 then []
    else
      var t := ts[|ts| - 1];
      var rest := FailedPhones(ts[..|ts| - 1], lib, send, message);
      match ChoosePhone(t.phones)
      case None => rest
      case Some(p) => if AttemptSend(lib, send, p.number, message).recordsFailure then rest + [p.id] else rest
  }

  /** A market whose chosen phone exists adds that phone's id exactly when its attempt records a failure. */
  lemma FailedPhonesStep(ts: seq<MarketWithPhones>, i: nat, p: Phone, lib: PhoneLib, send: Provider, message: string)
    requires i < |ts| && ChoosePhone(ts[i].phones) == Some(p)
    ensures FailedPhones(ts[..i + 1], lib, send, message) ==
      FailedPhones(ts[..i], lib, send, message) + (if AttemptSend(lib, send, p.number, message).recordsFailure then [p.id] else [])
  {
    assert ts[..i + 1][..i] == ts[..i];
  }

  /** The phone table after recording a failure against each id in turn. */
  function ApplyFailures(phones: seq<Phone>, ids: seq<nat>, now: int): (r: seq<Phone>)
    ensures |r| == |phones|
  {
    if |ids| == 0 then phones else BumpPhone(ApplyFailures(phones, ids[..|ids| - 1], now), ids[|ids| - 1], now)
  }

  /** Recording one more failure bumps that phone in the table so far. */
  lemma ApplyFailuresSnoc(phones: seq<Phone>, ids: seq<nat>, x: nat, now: int)
    ensures ApplyFailures(phones, ids + [x], now) == BumpPhone(ApplyFailures(phones, ids, now), x, now)
  {
    assert (ids + [x])[..|ids|] == ids;
  }

  /** Number of occurrences of `x` in `s`. */
  function Occurrences(s: seq<nat>, x: nat): nat
  {
    if |s| == 0 then 0 else Occurrences(s[..|s| - 1], x) + (if s[|s| - 1] == x then 1 else 0)
  }

  /**
   * Each phone's failure count grows by exactly the number of failures
   * recorded against it; identity and every field but the failure time stay.
   */
  lemma {:induction false} ApplyFailuresCounts(phones: seq<Phone>, ids: seq<nat>, now: int)
    ensures forall i :: 0 <= i < |phones| ==>
      var q := ApplyFailures(phones, ids, now)[i];
      q.failureCount == phones[i].failureCount + Occurrences(ids, phones[i].id) &&
      q == phones[i].(failureCount := q.failureCount, lastFailedAt := q.lastFailedAt) &&
      (Occurrences(ids, phones[i].id) > 0 ==> q.lastFailedAt == Some(now)) &&
      (Occurrences(ids, phones[i].id) == 0 ==> q.lastFailedAt == phones[i].lastFailedAt)
  {
    if |ids| > 0 {
      ApplyFailuresCounts(phones, ids[..|ids| - 1], now);
    }
  }

  /** The alert-route response. */
  datatype AlertResponse =
    | Rejected(code: nat, error: string)
    | TextSent(message: string, recipientCount: nat, alertId: nat, smsSegments: nat)
    | VoiceSent(message: string, recipientCount: nat, alertId: nat)

  /** `Math.ceil(message.length / 160)`. */
  function CeilSegments(message: string): nat
  {
    (|message| + 159) / 160
  }

  /** The segment count the route reports is the domain layer's, the empty message included. */
  lemma RouteSegmentsMatchDomain(message: string)
    ensures CeilSegments(message) == CalculateSmsSegments(message)
  {
  }

  /** The alert-log row of a text alert. */
  function TextLog(alertId: nat, message: string, groupId: string, count: nat, user: Option<User>, now: int): AlertLog
  {
    AlertLog(alertId, Text, Some(message), None, None, groupId, count, SentBy(user), now)
  }

  /**
   * One iteration of the text fan-out, from deliveries `d`, phones `ps` and
   * next id `n` to `d2`, `ps2`, `n2`: the market's chosen phone, when it has
   * one, gets a send attempt, a delivery row with the next id and, when the
   * attempt says so, a recorded failure.
   */
  predicate TextStep(lib: PhoneLib, send: Provider, alertId: nat, t: MarketWithPhones, message: string, now: int,
                     d: seq<Delivery>, ps: seq<Phone>, n: nat, d2: seq<Delivery>, ps2: seq<Phone>, n2: nat)
  {
    match ChoosePhone(t.phones)
    case None => d2 == d && ps2 == ps && n2 == n
    case Some(p) =>
      var a := AttemptSend(lib, send, p.number, message);
      d2 == d + [TextRecord(n, alertId, t, p, a, now)] &&
      ps2 == (if a.recordsFailure then BumpPhone(ps, p.id, now) else ps) &&
      n2 == n + 1
  }

  /** A step from the state after markets `ts[..i]` reaches the state after `ts[..i + 1]`. */
  lemma TextStepExtends(ts: seq<MarketWithPhones>, i: nat, lib: PhoneLib, send: Provider, alertId: nat, message: string, now: int,
                        d0: seq<Delivery>, ps0: seq<Phone>, d: seq<Delivery>, ps: seq<Phone>, n: nat, d2: seq<Delivery>, ps2: seq<Phone>, n2: nat)
    requires i < |ts|
    requires d == d0 + TextDeliveries(ts[..i], alertId, alertId + 1, lib, send, message, now)
    requires ps == ApplyFailures(ps0, FailedPhones(ts[..i], lib, send, message), now)
    requires n == alertId + 1 + |TextDeliveries(ts[..i], alertId, alertId + 1, lib, send, message, now)|
    requires TextStep(lib, send, alertId, ts[i], message, now, d, ps, n, d2, ps2, n2)
    ensures d2 == d0 + TextDeliveries(ts[..i + 1], alertId, alertId + 1, lib, send, message, now)
    ensures ps2 == ApplyFailures(ps0, FailedPhones(ts[..i + 1], lib, send, message), now)
    ensures n2 == alertId + 1 + |TextDeliveries(ts[..i + 1], alertId, alertId + 1, lib, send, message, now)|
  {
    match ChoosePhone(ts[i].phones) {
      case None =>
        TextDeliveriesSkip(ts, i, alertId, alertId + 1, lib, send, message, now);
      case Some(p) =>
        TextStepRecords(ts, i, p, lib, send, alertId, message, now, d0, d, n, d2, n2);
        TextStepFailures(ts, i, p, lib, send, message, now, ps0, ps, ps2);
    }
  }

  /** The step of a market whose chosen phone is `p` adds one record, with the next id. */
  lemma TextStepRecords(ts: seq<MarketWithPhones>, i: nat, p: Phone, lib: PhoneLib, send: Provider, alertId: nat, message: string, now: int,
                        d0: seq<Delivery>, d: seq<Delivery>, n: nat, d2: seq<Delivery>, n2: nat)
    requires i < |ts| && ChoosePhone(ts[i].phones) == Some(p)
    requires d == d0 + TextDeliveries(ts[..i], alertId, alertId + 1, lib, send, message, now)
    requires n == alertId + 1 + |TextDeliveries(ts[..i], alertId, alertId + 1, lib, send, message, now)|
    requires d2 == d + [TextRecord(n, alertId, ts[i], p, AttemptSend(lib, send, p.number, message), now)]
    requires n2 == n + 1
    ensures d2 == d0 + TextDeliveries(ts[..i + 1], alertId, alertId + 1, lib, send, message, now)
    ensures n2 == alertId + 1 + |TextDeliveries(ts[..i + 1], alertId, alertId + 1, lib, send, message, now)|
  {
    var done := TextDeliveries(ts[..i], alertId, alertId + 1, lib, send, message, now);
    var rec := TextRecord(n, alertId, ts[i], p, AttemptSend(lib, send, p.number, message), now);
    TextDeliveriesStep(ts, i, p, alertId, alertId + 1, n, lib, send, message, now);
    AppendAssoc(d0, done, [rec]);
  }

  /** The step of a market whose chosen phone is `p` records one more failure when the attempt says so. */
  lemma TextStepFailures(ts: seq<MarketWithPhones>, i: nat, p: Phone, lib: PhoneLib, send: Provider, message: string, now: int,
                         ps0: seq<Phone>, ps: seq<Phone>, ps2: seq<Phone>)
    requires i < |ts| && ChoosePhone(ts[i].phones) == Some(p)
    requires ps == ApplyFailures(ps0, FailedPhones(ts[..i], lib, send, message), now)
    requires ps2 == (if AttemptSend(lib, send, p.number, message).recordsFailure then BumpPhone(ps, p.id, now) else ps)
    ensures ps2 == ApplyFailures(ps0, FailedPhones(ts[..i + 1], lib, send, message), now)
  {
    var failed := FailedPhones(ts[..i], lib, send, message);
    FailedPhonesStep(ts, i, p, lib, send, message);
    if AttemptSend(lib, send, p.number, message).recordsFailure {
      ApplyFailuresSnoc(ps0, failed, p.id, now);
    } else {
      assert failed + [] == failed;
    }
  }

  /** The step of the text fan-out, on the database. */
  method SendToMarketPhone(db: Database, lib: PhoneLib, send: Provider, alertId: nat, t: MarketWithPhones, message: string, now: int)
    modifies db`deliveries, db`phones, db`nextId
    ensures TextStep(lib, send, alertId, t, message, now, old(db.deliveries), old(db.phones), old(db.nextId), db.deliveries, db.phones, db.nextId)
  {
    var chosen := ChoosePhone(t.phones);
    if chosen.Some? {
      var p := chosen.value;
      var a := AttemptSend(lib, send, p.number, message);
      var id := db.FreshId();
      db.deliveries := db.deliveries + [TextRecord(id, alertId, t, p, a, now)];
      if a.recordsFailure {
        db.phones := BumpPhone(db.phones, p.id, now);
      }
    }
  }

  /** The text fan-out over `targets`, in order, with ids from the current counter on. */
  method FanOutText(db: Database, lib: PhoneLib, send: Provider, alertId: nat, targets: seq<MarketWithPhones>, message: string, now: int)
    requires db.nextId == alertId + 1
    modifies db`deliveries, db`phones, db`nextId
    ensures db.deliveries == old(db.deliveries) + TextDeliveries(targets, alertId, alertId + 1, lib, send, message, now)
    ensures db.phones == ApplyFailures(old(db.phones), FailedPhones(targets, lib, send, message), now)
    ensures db.nextId == alertId + 1 + |PhoneBearing(targets)|
  {
    ghost var deliveries0, phones0 := db.deliveries, db.phones;
    assert TextDeliveries(targets[..0], alertId, alertId + 1, lib, send, message, now) == [];
    assert FailedPhones(targets[..0], lib, send, message) == [];
    assert ApplyFailures(phones0, [], now) == phones0;
    assert deliveries0 + [] == deliveries0;
    var i := 0;
    while i < |targets|
      invariant 0 <= i <= |targets|
      invariant db.deliveries == deliveries0 + TextDeliveries(targets[..i], alertId, alertId + 1, lib, send, message, now)
      invariant db.phones == ApplyFailures(phones0, FailedPhones(targets[..i], lib, send, message), now)
      invariant db.nextId == alertId + 1 + |TextDeliveries(targets[..i], alertId, alertId + 1, lib, send, message, now)|
    {
      ghost var deliveriesBefore, phonesBefore, idBefore := db.deliveries, db.phones, db.nextId;
      SendToMarketPhone(db, lib, send, alertId, targets[i], message, now);
      TextStepExtends(targets, i, lib, send, alertId, message, now, deliveries0, phones0,
                      deliveriesBefore, phonesBefore, idBefore, db.deliveries, db.phones, db.nextId);
      i := i + 1;
    }
    assert targets[..i] == targets;
    TextDeliveriesShape(targets, alertId, alertId + 1, lib, send, message, now);
  }

  /** POST /api/alerts/text. */
  method SendTextAlert(db: Database, lib: PhoneLib, send: Provider, groupId: string, message: string, user: Option<User>, now: int)
    returns (resp: AlertResponse)
    modifies db`alertLogs, db`deliveries, db`phones, db`nextId
    ensures var sel := SelectMarkets(groupId, WithPhones(old(db.markets), old(db.phones)));
      if sel.None? then
        resp == Rejected(400, "Invalid recipient group") &&
        db.alertLogs == old(db.alertLogs) && db.deliveries == old(db.deliveries) &&
        db.phones == old(db.phones) && db.nextId == old(db.nextId)
      else
        var alertId := old(db.nextId);
        resp == TextSent("Text alert sent to " + NatToString(|sel.value|) + " recipients", |sel.value|, alertId, CeilSegments(message)) &&
        db.alertLogs == old(db.alertLogs) + [TextLog(alertId, message, groupId, |sel.value|, user, now)] &&
        db.deliveries == old(db.deliveries) + TextDeliveries(sel.value, alertId, alertId + 1, lib, send, message, now) &&
        db.phones == ApplyFailures(old(db.phones), FailedPhones(sel.value, lib, send, message), now) &&
        db.nextId == alertId + 1 + |PhoneBearing(sel.value)|
    ensures db.markets == old(db.markets) && db.editLogs == old(db.editLogs)
  {
    var sel := SelectMarkets(groupId, WithPhones(db.markets, db.phones));
    if sel.None? {
      return Rejected(400, "Invalid recipient group");
    }
    resp := BroadcastText(db, lib, send, sel.value, groupId, message, user, now);
  }

  /** A text alert to the selected markets: its log, then the fan-out. */
  method BroadcastText(db: Database, lib: PhoneLib, send: Provider, targets: seq<MarketWithPhones>, groupId: string, message: string, user: Option<User>, now: int)
    returns (resp: AlertResponse)
    modifies db`alertLogs, db`deliveries, db`phones, db`nextId
    ensures resp == TextSent("Text alert sent to " + NatToString(|targets|) + " recipients", |targets|, old(db.nextId), CeilSegments(message))
    ensures db.alertLogs == old(db.alertLogs) + [TextLog(old(db.nextId), message, groupId, |targets|, user, now)]
    ensures db.deliveries == old(db.deliveries) + TextDeliveries(targets, old(db.nextId), old(db.nextId) + 1, lib, send, message, now)
    ensures db.phones == ApplyFailures(old(db.phones), FailedPhones(targets, lib, send, message), now)
    ensures db.nextId == old(db.nextId) + 1 + |PhoneBearing(targets)|
  {
    var alertId := db.FreshId();
    db.alertLogs := db.alertLogs + [TextLog(alertId, message, groupId, |targets|, user, now)];
    FanOutText(db, lib, send, alertId, targets, message, now);
    resp := TextSent("Text alert sent to " + NatToString(|targets|) + " recipients", |targets|, alertId, CeilSegments(message));
  }

  /** The delivery row written for a voice alert: "sent", no reason. */
  function VoiceRecord(id: nat, alertId: nat, t: MarketWithPhones, p: Phone, now: int): Delivery
  {
    Delivery(id, alertId, t.market.id, t.market.name, p.number, p.labelText, Sent, None, now, None, None)
  }

  /** The delivery rows a voice alert writes, one per market whose chosen phone exists. */
  function VoiceDeliveries(ts: seq<MarketWithPhones>, alertId: nat, firstId: nat, now: int): seq<Delivery>
  {
    if |ts| == 0 then []
    else
      var t := ts[|ts| - 1];
      var rest := VoiceDeliveries(ts[..|ts| - 1], alertId, firstId, now);
      match ChoosePhone(t.phones)
      case None => rest
      case Some(p) => rest + [VoiceRecord(firstId + |rest|, alertId, t, p, now)]
  }

  /** A market whose chosen phone exists adds its row to the voice rows. */
  lemma VoiceDeliveriesStep(ts: seq<MarketWithPhones>, i: nat, p: Phone, alertId: nat, firstId: nat, now: int)
    requires i < |ts| && ChoosePhone(ts[i].phones) == Some(p)
    ensures VoiceDeliveries(ts[..i + 1], alertId, firstId, now) ==
      VoiceDeliveries(ts[..i], alertId, firstId, now) +
      [VoiceRecord(firstId + |VoiceDeliveries(ts[..i], alertId, firstId, now)|, alertId, ts[i], p, now)]
  {
    assert ts[..i + 1][..i] == ts[..i];
  }

  /** A market without phones adds no voice row. */
  lemma VoiceDeliveriesSkip(ts: seq<MarketWithPhones>, i: nat, alertId: nat, firstId: nat, now: int)
    requires i < |ts| && ChoosePhone(ts[i].phones).None?
    ensures VoiceDeliveries(ts[..i + 1], alertId, firstId, now) == VoiceDeliveries(ts[..i], alertId, firstId, now)
  {
    assert ts[..i + 1][..i] == ts[..i];
  }

  /** The voice rows: the k-th phone-bearing market gets id `firstId + k`, its chosen phone, status sent. */
  lemma {:induction false} VoiceDeliveriesShape(ts: seq<MarketWithPhones>, alertId: nat, firstId: nat, now: int)
    ensures var r := VoiceDeliveries(ts, alertId, firstId, now);
      var pb := PhoneBearing(ts);
      |r| == |pb| &&
      forall k :: 0 <= k < |r| ==>
        r[k] == VoiceRecord(firstId + k, alertId, pb[k], ChoosePhone(pb[k].phones).value, now) &&
        r[k].status == Sent && r[k].errorReason.None?
  {
    if |ts| > 0 {
      var n := |ts| - 1;
      assert ts == ts[..n] + [ts[n]];
      FilterSnoc(ts[..n], ts[n], HasPhones);
      VoiceDeliveriesShape(ts[..n], alertId, firstId, now);
    }
  }

  /** One iteration of the voice fan-out: a "sent" row with the next id for the chosen phone, if any. */
  predicate VoiceStep(alertId: nat, t: MarketWithPhones, now: int, d: seq<Delivery>, n: nat, d2: seq<Delivery>, n2: nat)
  {
    match ChoosePhone(t.phones)
    case None => d2 == d && n2 == n
    case Some(p) => d2 == d + [VoiceRecord(n, alertId, t, p, now)] && n2 == n + 1
  }

  /** A step from the state after markets `ts[..i]` reaches the state after `ts[..i + 1]`. */
  lemma VoiceStepExtends(ts: seq<MarketWithPhones>, i: nat, alertId: nat, now: int,
                         d0: seq<Delivery>, d: seq<Delivery>, n: nat, d2: seq<Delivery>, n2: nat)
    requires i < |ts|
    requires d == d0 + VoiceDeliveries(ts[..i], alertId, alertId + 1, now)
    requires n == alertId + 1 + |VoiceDeliveries(ts[..i], alertId, alertId + 1, now)|
    requires VoiceStep(alertId, ts[i], now, d, n, d2, n2)
    ensures d2 == d0 + VoiceDeliveries(ts[..i + 1], alertId, alertId + 1, now)
    ensures n2 == alertId + 1 + |VoiceDeliveries(ts[..i + 1], alertId, alertId + 1, now)|
  {
    var done := VoiceDeliveries(ts[..i], alertId, alertId + 1, now);
    match ChoosePhone(ts[i].phones) {
      case None =>
        VoiceDeliveriesSkip(ts, i, alertId, alertId + 1, now);
      case Some(p) =>
        VoiceDeliveriesStep(ts, i, p, alertId, alertId + 1, now);
        AppendAssoc(d0, done, [VoiceRecord(n, alertId, ts[i], p, now)]);
    }
  }

  /** The step of the voice fan-out, on the database. */
  method RecordVoiceDelivery(db: Database, alertId: nat, t: MarketWithPhones, now: int)
    modifies db`deliveries, db`nextId
    ensures VoiceStep(alertId, t, now, old(db.deliveries), old(db.nextId), db.deliveries, db.nextId)
  {
    var chosen := ChoosePhone(t.phones);
    if chosen.Some? {
      var p := chosen.value;
      var id := db.FreshId();
      db.deliveries := db.deliveries + [VoiceRecord(id, alertId, t, p, now)];
    }
  }

  /** The voice fan-out over `targets`, in order, with ids from the current counter on. */
  method FanOutVoice(db: Database, alertId: nat, targets: seq<MarketWithPhones>, now: int)
    requires db.nextId == alertId + 1
    modifies db`deliveries, db`nextId
    ensures db.deliveries == old(db.deliveries) + VoiceDeliveries(targets, alertId, alertId + 1, now)
    ensures db.nextId == alertId + 1 + |PhoneBearing(targets)|
  {
    ghost var deliveries0 := db.deliveries;
    assert VoiceDeliveries(targets[..0], alertId, alertId + 1, now) == [];
    assert deliveries0 + [] == deliveries0;
    var i := 0;
    while i < |targets|
      invariant 0 <= i <= |targets|
      invariant db.deliveries == deliveries0 + VoiceDeliveries(targets[..i], alertId, alertId + 1, now)
      invariant db.nextId == alertId + 1 + |VoiceDeliveries(targets[..i], alertId, alertId + 1, now)|
    {
      ghost var deliveriesBefore, idBefore := db.deliveries, db.nextId;
      RecordVoiceDelivery(db, alertId, targets[i], now);
      VoiceStepExtends(targets, i, alertId, now, deliveries0, deliveriesBefore, idBefore, db.deliveries, db.nextId);
      i := i + 1;
    }
    assert targets[..i] == targets;
    VoiceDeliveriesShape(targets, alertId, alertId + 1, now);
  }

  /** The alert-log row of a voice alert. */
  function VoiceLog(alertId: nat, audioUrl: string, audioDuration: int, groupId: string, count: nat, user: Option<User>, now: int): AlertLog
  {
    AlertLog(alertId, Voice, None, Some(audioUrl), Some(audioDuration), groupId, count, SentBy(user), now)
  }

  /** POST /api/alerts/voice. */
  method SendVoiceAlert(db: Database, groupId: string, audioUrl: string, audioDuration: int, user: Option<User>, now: int)
    returns (resp: AlertResponse)
    modifies db`alertLogs, db`deliveries, db`nextId
    ensures var sel := SelectMarkets(groupId, WithPhones(old(db.markets), old(db.phones)));
      if sel.None? then
        resp == Rejected(400, "Invalid recipient group") &&
        db.alertLogs == old(db.alertLogs) && db.deliveries == old(db.deliveries) && db.nextId == old(db.nextId)
      else
        var alertId := old(db.nextId);
        resp == VoiceSent("Voice alert sent to " + NatToString(|sel.value|) + " recipients", |sel.value|, alertId) &&
        db.alertLogs == old(db.alertLogs) + [VoiceLog(alertId, audioUrl, audioDuration, groupId, |sel.value|, user, now)] &&
        db.deliveries == old(db.deliveries) + VoiceDeliveries(sel.value, alertId, alertId + 1, now) &&
        db.nextId == alertId + 1 + |PhoneBearing(sel.value)|
    ensures db.markets == old(db.markets) && db.phones == old(db.phones) && db.editLogs == old(db.editLogs)
  {
    var sel := SelectMarkets(groupId, WithPhones(db.markets, db.phones));
    if sel.None? {
      return Rejected(400, "Invalid recipient group");
    }
    resp := BroadcastVoice(db, sel.value, groupId, audioUrl, audioDuration, user, now);
  }

  /** A voice alert to the selected markets: its log, then the fan-out. */
  method BroadcastVoice(db: Database, targets: seq<MarketWithPhones>, groupId: string, audioUrl: string, audioDuration: int, user: Option<User>, now: int)
    returns (resp: AlertResponse)
    modifies db`alertLogs, db`deliveries, db`nextId
    ensures resp == VoiceSent("Voice alert sent to " + NatToString(|targets|) + " recipients", |targets|, old(db.nextId))
    ensures db.alertLogs == old(db.alertLogs) + [VoiceLog(old(db.nextId), audioUrl, audioDuration, groupId, |targets|, user, now)]
    ensures db.deliveries == old(db.deliveries) + VoiceDeliveries(targets, old(db.nextId), old(db.nextId) + 1, now)
    ensures db.nextId == old(db.nextId) + 1 + |PhoneBearing(targets)|
  {
    var alertId := db.FreshId();
    db.alertLogs := db.alertLogs + [VoiceLog(alertId, audioUrl, audioDuration, groupId, |targets|, user, now)];
    FanOutVoice(db, alertId, targets, now);
    resp := VoiceSent("Voice alert sent to " + NatToString(|targets|) + " recipients", |targets|, alertId);
  }
}
