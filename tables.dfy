/**
 * The persistent tables the backend routes and scripts read and write, as an
 * in-memory database: each table is a sequence of rows in storage order.
 * Identifiers are natural numbers drawn from one counter.
 */
module Tables {
  import opened Common
  import opened MarketRules

  datatype Market = Market(
    id: nat,
    marketNumber: int,
    name: string,
    stationCallLetters: Option<string>,
    airTime: string,
    timezone: string,
    list: FeedList)

  datatype Phone = Phone(
    id: nat,
    marketId: nat,
    labelText: string,
    number: string,
    isPrimary: bool,
    failureCount: int,
    lastFailedAt: Option<int>)

  datatype DeliveryStatus = Sent | Delivered | Failed | Bounced

  /** The status's wire value. */
  function StatusName(s: DeliveryStatus): string
  {
    match s
    case Sent => "sent"
    case Delivered => "delivered"
    case Failed => "failed"
    case Bounced => "bounced"
  }

  datatype AlertKind = Text | Voice

  datatype AlertLog = AlertLog(
    id: nat,
    alertType: AlertKind,
    message: Option<string>,
    audioUrl: Option<string>,
    audioDuration: Option<int>,
    recipientGroup: string,
    recipientCount: nat,
    sentBy: Option<string>,
    createdAt: int)

  datatype Delivery = Delivery(
    id: nat,
    alertId: nat,
    marketId: nat,
    marketName: string,
    phoneNumber: string,
    phoneLabel: string,
    status: DeliveryStatus,
    errorReason: Option<string>,
    sentAt: int,
    deliveredAt: Option<int>,
    readAt: Option<int>)

  datatype EditLog = EditLog(
    marketId: nat,
    field: string,
    oldValue: Option<string>,
    newValue: Option<string>,
    editedBy: Option<string>)

  /** The signed-in user, as far as the routes look at it. */
  datatype User = User(email: Option<string>, name: Option<string>)

  /** `user?.email`. */
  function UserEmail(user: Option<User>): Option<string>
  {
    if user.Some? then user.value.email else None
  }

  /** A phone as the edit logs write it, `label: number`. */
  function PhoneText(labelText: string, number: string): string
  {
    labelText + ": " + number
  }

  /** No two phone rows share an identifier, as the primary key demands. */
  predicate UniquePhoneIds(phones: seq<Phone>)
  {
    forall i, j :: 0 <= i < j < |phones| ==> phones[i].id != phones[j].id
  }

  /**
   * `updateMany({ where: { marketId }, data: { isPrimary: false } })` followed
   * by `update({ where: { id }, data: { isPrimary: true } })`.
   */
  function SetPrimary(phones: seq<Phone>, marketId: nat, id: nat): (r: seq<Phone>)
    ensures |r| == |phones|
    ensures forall i :: 0 <= i < |r| ==> r[i] == phones[i].(isPrimary := r[i].isPrimary)
    ensures forall i :: 0 <= i < |r| && phones[i].marketId != marketId && phones[i].id != id ==> r[i] == phones[i]
  {
    seq(|phones|, i requires 0 <= i < |phones| =>
      if phones[i].id == id then phones[i].(isPrimary := true)
      else if phones[i].marketId == marketId then phones[i].(isPrimary := false)
      else phones[i])
  }

  /**
   * With unique identifiers, when phone `k` belongs to the market, it becomes
   * the market's one primary phone; phones of other markets keep their flag.
   */
  lemma SetPrimaryExactlyOne(phones: seq<Phone>, marketId: nat, k: nat)
    requires UniquePhoneIds(phones)
    requires k < |phones| && phones[k].marketId == marketId
    ensures var r := SetPrimary(phones, marketId, phones[k].id);
      r[k].isPrimary &&
      (forall j :: 0 <= j < |r| && r[j].marketId == marketId ==> (r[j].isPrimary <==> j == k)) &&
      (forall j :: 0 <= j < |r| && r[j].marketId != marketId ==> r[j] == phones[j])
    ensures PrimaryMovedTo(phones, SetPrimary(phones, marketId, phones[k].id), marketId, phones[k].id)
  {
    var r := SetPrimary(phones, marketId, phones[k].id);
    assert r[k].id == phones[k].id && r[k].marketId == marketId && r[k].isPrimary;
  }

  /**
   * From `before` to `r` only primary flags change, rows of other markets do
   * not change at all, and the phone `id` is the market's one primary phone.
   */
  predicate PrimaryMovedTo(before: seq<Phone>, r: seq<Phone>, marketId: nat, id: nat)
  {
    |r| == |before| &&
    (exists k :: 0 <= k < |r| && r[k].id == id && r[k].marketId == marketId && r[k].isPrimary) &&
    (forall j :: 0 <= j < |r| && r[j].marketId == marketId ==> (r[j].isPrimary <==> r[j].id == id)) &&
    (forall j :: 0 <= j < |r| ==> r[j] == before[j].(isPrimary := r[j].isPrimary)) &&
    (forall j :: 0 <= j < |r| && r[j].marketId != marketId ==> r[j] == before[j])
  }

  /** Index of the first primary phone. */
  function FirstPrimary(phones: seq<Phone>): (r: Option<nat>)
    ensures r.Some? ==> r.value < |phones| && phones[r.value].isPrimary &&
                        forall j :: 0 <= j < r.value ==> !phones[j].isPrimary
    ensures r.None? ==> forall j :: 0 <= j < |phones| ==> !phones[j].isPrimary
  {
    if |phones| == 0 then None
    else if phones[0].isPrimary then Some(0)
    else match FirstPrimary(phones[1..])
      case None => None
      case Some(k) => Some(k + 1)
  }

  /** One log row when `changed`, none otherwise. */
  function LogIf(changed: bool, l: EditLog): (r: seq<EditLog>)
    ensures forall x :: x in r <==> changed && x == l
  {
    if changed then [l] else []
  }

  /** The field names the edit logs use are distinct. */
  lemma FieldNamesDistinct()
    ensures "name" != "stationCallLetters" && "name" != "airTime" && "name" != "list" && "name" != "timezone"
    ensures "stationCallLetters" != "airTime" && "stationCallLetters" != "list" && "stationCallLetters" != "timezone"
    ensures "airTime" != "list" && "airTime" != "timezone" && "list" != "timezone"
  {
    assert "name"[0] != "list"[0];
  }

  /** A market together with its phones, as `include: { phones: true }` returns them. */
  datatype MarketWithPhones = MarketWithPhones(market: Market, phones: seq<Phone>)

  /** The phones of market `marketId`, in table order. */
  function PhonesOf(phones: seq<Phone>, marketId: nat): (r: seq<Phone>)
    ensures forall p :: p in r <==> p in phones && p.marketId == marketId
    ensures |r| <= |phones|
  {
    if |phones| == 0 then []
    else if phones[0].marketId == marketId then [phones[0]] + PhonesOf(phones[1..], marketId)
    else PhonesOf(phones[1..], marketId)
  }

  /** The phones of market `marketId` in a table made of two parts. */
  lemma {:induction false} PhonesOfAppend(a: seq<Phone>, b: seq<Phone>, marketId: nat)
    ensures PhonesOf(a + b, marketId) == PhonesOf(a, marketId) + PhonesOf(b, marketId)
  {
    if |a| == 0 {
      assert a + b == b;
    } else {
      assert (a + b)[0] == a[0] && (a + b)[1..] == a[1..] + b;
      PhonesOfAppend(a[1..], b, marketId);
    }
  }

  /** Rows that all belong to the market are all of its phones. */
  lemma {:induction false} PhonesOfOwn(rows: seq<Phone>, marketId: nat)
    requires forall i :: 0 <= i < |rows| ==> rows[i].marketId == marketId
    ensures PhonesOf(rows, marketId) == rows
  {
    if |rows| > 0 {
      PhonesOfOwn(rows[1..], marketId);
    }
  }

  /** A market identifier no phone has has no phones. */
  lemma {:induction false} PhonesOfNone(phones: seq<Phone>, marketId: nat)
    requires forall i :: 0 <= i < |phones| ==> phones[i].marketId != marketId
    ensures PhonesOf(phones, marketId) == []
  {
    if |phones| > 0 {
      PhonesOfNone(phones[1..], marketId);
    }
  }

  function WithPhones(markets: seq<Market>, phones: seq<Phone>): (r: seq<MarketWithPhones>)
    ensures |r| == |markets|
    ensures forall i :: 0 <= i < |r| ==> r[i].market == markets[i] && r[i].phones == PhonesOf(phones, markets[i].id)
  {
    seq(|markets|, i requires 0 <= i < |markets| => MarketWithPhones(markets[i], PhonesOf(phones, markets[i].id)))
  }

  /** The first market with the given id. */
  function FindMarket(markets: seq<Market>, id: nat): (r: Option<Market>)
    ensures r.Some? ==> r.value in markets && r.value.id == id
    ensures r.None? <==> forall m :: m in markets ==> m.id != id
  {
    if |markets| == 0 then None
    else if markets[0].id == id then Some(markets[0])
    else FindMarket(markets[1..], id)
  }

  /** The first phone with the given id. */
  function FindPhone(phones: seq<Phone>, id: nat): (r: Option<Phone>)
    ensures r.Some? ==> r.value in phones && r.value.id == id
    ensures r.None? <==> forall p :: p in phones ==> p.id != id
  {
    if |phones| == 0 then None
    else if phones[0].id == id then Some(phones[0])
    else FindPhone(phones[1..], id)
  }

  /** `failureCount: { increment: 1 }, lastFailedAt: now` on phone `id`. */
  function RecordFailure(p: Phone, now: int): Phone
  {
    p.(failureCount := p.failureCount + 1, lastFailedAt := Some(now))
  }

  /** The phone table after recording one failure against phone `id`. */
  function BumpPhone(phones: seq<Phone>, id: nat, now: int): (r: seq<Phone>)
    ensures |r| == |phones|
    ensures forall i :: 0 <= i < |r| ==> r[i] == if phones[i].id == id then RecordFailure(phones[i], now) else phones[i]
  {
    seq(|phones|, i requires 0 <= i < |phones| => if phones[i].id == id then RecordFailure(phones[i], now) else phones[i])
  }

  class Database {
    var markets: seq<Market>
    var phones: seq<Phone>
    var alertLogs: seq<AlertLog>
    var deliveries: seq<Delivery>
    var editLogs: seq<EditLog>
    /** The next identifier a create hands out. */
    var nextId: nat

    constructor ()
      ensures markets == [] && phones == [] && alertLogs == [] && deliveries == [] && editLogs == []
      ensures nextId == 0
    {
      markets, phones, alertLogs, deliveries, editLogs := [], [], [], [], [];
      nextId := 0;
    }

    /** Hands out a fresh identifier. */
    method FreshId() returns (id: nat)
      modifies this`nextId
      ensures id == old(nextId) && nextId == old(nextId) + 1
    {
      id := nextId;
      nextId := nextId + 1;
    }

    /** Hands out `n` consecutive fresh identifiers, from the returned one on. */
    method FreshIds(n: nat) returns (first: nat)
      modifies this`nextId
      ensures first == old(nextId) && nextId == old(nextId) + n
    {
      first := nextId;
      nextId := nextId + n;
    }
  }

  /** The tables the market routes and the import read and write, as a value. */
  datatype Store = Store(markets: seq<Market>, phones: seq<Phone>, editLogs: seq<EditLog>, nextId: nat)

  /** The database's market, phone and edit-log tables and its counter. */
  function StoreOf(db: Database): Store
    reads db
  {
    Store(db.markets, db.phones, db.editLogs, db.nextId)
  }
}
