/**
 * The provider's status callback: it finds the most recent delivery record
 * for the callback's number that is still "sent", advances it according to
 * the reported status and, on a failure, records one against the matching
 * phone of that record's market. The reply is always "OK".
 */
module Webhook {
  import opened Common
  import opened Tables

  /** The form fields of one callback; absent fields are None. */
  datatype Callback = Callback(messageStatus: string, to: string, errorCode: Option<string>, errorMessage: Option<string>)

  /** A record the callback may match: still "sent", for that number. */
  predicate Pending(d: Delivery, to: string)
  {
    d.phoneNumber == to && d.status == Sent
  }

  /**
   * `findFirst` over pending records ordered by `sentAt` descending: the
   * index of the pending record with the greatest `sentAt`. The database
   * leaves the order of equal times open; the model picks the earliest in
   * table order among them.
   */
  function LatestPending(ds: seq<Delivery>, to: string): (r: Option<nat>)
    ensures r.None? <==> forall i :: 0 <= i < |ds| ==> !Pending(ds[i], to)
    ensures r.Some? ==>
      r.value < |ds| && Pending(ds[r.value], to) &&
      (forall i :: 0 <= i < |ds| && Pending(ds[i], to) ==> ds[i].sentAt <= ds[r.value].sentAt) &&
      (forall i :: 0 <= i < r.value && Pending(ds[i], to) ==> ds[i].sentAt < ds[r.value].sentAt)
  {
    if |ds| == 0 then None
    else
      var rest := LatestPending(ds[..|ds| - 1], to);
      var last := |ds| - 1;
      if !Pending(ds[last], to) then rest
      else if rest.None? || ds[rest.value].sentAt < ds[last].sentAt then Some(last)
      else rest
  }

  /** The status a callback reports as a failure. */
  predicate ReportsFailure(messageStatus: string)
  {
    messageStatus == "failed" || messageStatus == "undelivered"
  }

  /** The reason stored for a reported failure: the message, else the code. */
  function FailureReason(cb: Callback): string
  {
    OrElse(cb.errorMessage, "Twilio error: " + OrElse(cb.errorCode, "Unknown"))
  }

  /** The matched record after the callback: only status, delivery time and reason can change. */
  function Advance(d: Delivery, cb: Callback, now: int): Delivery
  {
    if cb.messageStatus == "delivered" then d.(status := Delivered, deliveredAt := Some(now))
    else if ReportsFailure(cb.messageStatus) then d.(status := Bounced, errorReason := Some(FailureReason(cb)))
    else if cb.messageStatus == "sent" then d.(status := Sent)
    else d
  }

  /**
   * "delivered" delivers now, a failure bounces with a reason, and "sent" or
   * any other status leaves a pending record exactly as it was.
   */
  lemma AdvanceCases(d: Delivery, cb: Callback, now: int)
    requires d.status == Sent
    ensures var e := Advance(d, cb, now);
      e == d.(status := e.status, deliveredAt := e.deliveredAt, errorReason := e.errorReason) &&
      (cb.messageStatus == "delivered" ==> e.status == Delivered && e.deliveredAt == Some(now) && e.errorReason == d.errorReason) &&
      (ReportsFailure(cb.messageStatus) ==>
         e.status == Bounced && e.deliveredAt == d.deliveredAt && e.errorReason.Some? && e.errorReason.value != "") &&
      (cb.messageStatus != "delivered" && !ReportsFailure(cb.messageStatus) ==> e == d)
  {
  }

  /** With no error message, the reason names the error code, or "Unknown" without one. */
  lemma FailureReasonFallback(cb: Callback)
    ensures cb.errorMessage.Some? && cb.errorMessage.value != "" ==> FailureReason(cb) == cb.errorMessage.value
    ensures (cb.errorMessage.None? || cb.errorMessage.value == "") && (cb.errorCode.None? || cb.errorCode.value == "") ==>
      FailureReason(cb) == "Twilio error: Unknown"
  {
  }

  /** The first phone of market `marketId` with exactly this number. */
  function FindPhoneFor(phones: seq<Phone>, number: string, marketId: nat): (r: Option<nat>)
    ensures r.None? <==> forall j :: 0 <= j < |phones| ==> !(phones[j].number == number && phones[j].marketId == marketId)
    ensures r.Some? ==>
      r.value < |phones| && phones[r.value].number == number && phones[r.value].marketId == marketId &&
      forall j :: 0 <= j < r.value ==> !(phones[j].number == number && phones[j].marketId == marketId)
  {
    if |phones| == 0 then None
    else if phones[0].number == number && phones[0].marketId == marketId then Some(0)
    else match FindPhoneFor(phones[1..], number, marketId)
      case None => None
      case Some(j) => Some(j + 1)
  }

  /** The delivery table after a callback. */
  function CallbackDeliveries(ds: seq<Delivery>, cb: Callback, now: int): seq<Delivery>
  {
    match LatestPending(ds, cb.to)
    case None => ds
    case Some(k) => ds[k := Advance(ds[k], cb, now)]
  }

  /** The phone table after a callback. */
  function CallbackPhones(ds: seq<Delivery>, phones: seq<Phone>, cb: Callback, now: int): seq<Phone>
  {
    match LatestPending(ds, cb.to)
    case None => phones
    case Some(k) =>
      if !ReportsFailure(cb.messageStatus) then phones
      else match FindPhoneFor(phones, cb.to, ds[k].marketId)
        case None => phones
        case Some(j) => phones[j := RecordFailure(phones[j], now)]
  }

  /** POST /api/webhooks/twilio/status. */
  method HandleStatusCallback(db: Database, cb: Callback, now: int) returns (reply: string)
    modifies db
    ensures reply == "OK"
    ensures db.deliveries == CallbackDeliveries(old(db.deliveries), cb, now)
    ensures db.phones == CallbackPhones(old(db.deliveries), old(db.phones), cb, now)
    ensures db.markets == old(db.markets) && db.alertLogs == old(db.alertLogs) &&
            db.editLogs == old(db.editLogs) && db.nextId == old(db.nextId)
  {
    var found := LatestPending(db.deliveries, cb.to);
    if found.None? {
      return "OK";
    }
    var k := found.value;
    var delivery := db.deliveries[k];
    var status := delivery.status;
    var deliveredAt := delivery.deliveredAt;
    var errorReason := delivery.errorReason;
    if cb.messageStatus == "delivered" {
      status := Delivered;
      deliveredAt := Some(now);
    } else if ReportsFailure(cb.messageStatus) {
      status := Bounced;
      errorReason := Some(FailureReason(cb));
      var phone := FindPhoneFor(db.phones, cb.to, delivery.marketId);
      if phone.Some? {
        db.phones := db.phones[phone.value := RecordFailure(db.phones[phone.value], now)];
      }
    } else if cb.messageStatus == "sent" {
      status := Sent;
    }
    db.deliveries := db.deliveries[k := delivery.(status := status, deliveredAt := deliveredAt, errorReason := errorReason)];
    reply := "OK";
  }

  /**
   * Only the matched record can change; a record that is not pending for the
   * number, in particular one in a terminal state, is never modified.
   */
  lemma CallbackTouchesOnlyMatch(ds: seq<Delivery>, cb: Callback, now: int)
    ensures var r := CallbackDeliveries(ds, cb, now);
      |r| == |ds| &&
      (forall i :: 0 <= i < |ds| && !Pending(ds[i], cb.to) ==> r[i] == ds[i]) &&
      (forall i :: 0 <= i < |ds| && ds[i].status != Sent ==> r[i] == ds[i]) &&
      (forall i, j :: 0 <= i < j < |ds| && r[i] != ds[i] ==> r[j] == ds[j])
  {
  }

  /** How a status ranks on the forward-only path: sent first, every other status terminal. */
  function StatusStage(s: DeliveryStatus): nat
  {
    if s == Sent then 0 else 1
  }

  /** Statuses only move forward: no record ever returns to "sent" from a terminal status. */
  lemma CallbackForwardOnly(ds: seq<Delivery>, cb: Callback, now: int)
    ensures var r := CallbackDeliveries(ds, cb, now);
      |r| == |ds| && forall i :: 0 <= i < |ds| ==> StatusStage(ds[i].status) <= StatusStage(r[i].status)
  {
  }

  /** A callback reporting "sent" or an unrecognised status changes neither table. */
  lemma NonFinalCallbackIsNoOp(ds: seq<Delivery>, phones: seq<Phone>, cb: Callback, now: int)
    requires cb.messageStatus != "delivered" && !ReportsFailure(cb.messageStatus)
    ensures CallbackDeliveries(ds, cb, now) == ds
    ensures CallbackPhones(ds, phones, cb, now) == phones
  {
    match LatestPending(ds, cb.to) {
      case None =>
      case Some(k) =>
        assert ds[k := Advance(ds[k], cb, now)] == ds;
    }
  }

  /**
   * The phone table changes only on a matched failure, and then exactly one
   * phone, of the record's market and with the callback's number, gains one
   * failure. Conversely, on a matched failure the first phone of the
   * record's market with the callback's number does gain it.
   */
  lemma CallbackFailureCount(ds: seq<Delivery>, phones: seq<Phone>, cb: Callback, now: int)
    ensures var r := CallbackPhones(ds, phones, cb, now);
      |r| == |phones| &&
      (r != phones ==> LatestPending(ds, cb.to).Some? && ReportsFailure(cb.messageStatus)) &&
      forall j :: 0 <= j < |phones| ==>
        r[j] == phones[j] ||
        (r[j] == RecordFailure(phones[j], now) && phones[j].number == cb.to &&
         phones[j].marketId == ds[LatestPending(ds, cb.to).value].marketId &&
         forall i :: 0 <= i < |phones| && i != j ==> r[i] == phones[i])
    ensures LatestPending(ds, cb.to).Some? && ReportsFailure(cb.messageStatus) ==>
      var marketId := ds[LatestPending(ds, cb.to).value].marketId;
      forall j ::
        (0 <= j < |phones| && phones[j].number == cb.to && phones[j].marketId == marketId &&
         forall i :: 0 <= i < j ==> !(phones[i].number == cb.to && phones[i].marketId == marketId))
        ==> CallbackPhones(ds, phones, cb, now)[j] == RecordFailure(phones[j], now)
  {
  }

  /** With no pending record for the number, nothing changes. */
  lemma UnmatchedCallbackIsNoOp(ds: seq<Delivery>, phones: seq<Phone>, cb: Callback, now: int)
    requires forall i :: 0 <= i < |ds| ==> !Pending(ds[i], cb.to)
    ensures CallbackDeliveries(ds, cb, now) == ds
    ensures CallbackPhones(ds, phones, cb, now) == phones
  {
  }
}
