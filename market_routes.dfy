/**
 * The market routes: the market listing, one market, making a phone the
 * market's primary one, updating a market together with its phone list, and
 * deleting a phone. Route parameters are row identifiers. Each route is a
 * function from the tables to the new tables and the reply, and a method
 * that performs the same writes on the database one by one.
 */
module MarketRoutes {
  import opened Common
  import opened MarketRules
  import opened Tables
  import opened Sorting

  /** A reply: a status code with an error message, or a market with its phones (`null` when it is gone). */
  datatype Reply = Json(body: Option<MarketWithPhones>) | Failure(code: nat, error: string)

  /** The tables after a route and its reply. */
  datatype Outcome = Outcome(store: Store, reply: Reply)

  /** `user?.email || null`, the editor every market-route log records. */
  function Editor(user: Option<User>): Option<string>
  {
    OrNull(UserEmail(user))
  }

  // ----- Reads -----

  /** `orderBy: { marketNumber: "asc" }` as a "not after" relation. */
  predicate MarketNumberLe(a: Market, b: Market) { a.marketNumber <= b.marketNumber }

  /** GET /api/markets: every market with its phones, by market number. */
  function ListMarkets(st: Store): seq<MarketWithPhones>
  {
    WithPhones(SortBy(st.markets, MarketNumberLe), st.phones)
  }

  /** The markets of a listing, without their phones. */
  function MarketsIn(r: seq<MarketWithPhones>): (ms: seq<Market>)
    ensures |ms| == |r|
    ensures forall i :: 0 <= i < |r| ==> ms[i] == r[i].market
  {
    seq(|r|, i requires 0 <= i < |r| => r[i].market)
  }

  /**
   * The listing holds every market exactly once, in ascending market-number
   * order, each with exactly its own phones.
   */
  lemma ListMarketsSorted(st: Store)
    ensures var r := ListMarkets(st);
      (forall i, j :: 0 <= i < j < |r| ==> r[i].market.marketNumber <= r[j].market.marketNumber) &&
      multiset(MarketsIn(r)) == multiset(st.markets) &&
      (forall i :: 0 <= i < |r| ==> r[i].phones == PhonesOf(st.phones, r[i].market.id))
  {
    var sorted := SortBy(st.markets, MarketNumberLe);
    assert TotalPreorder(MarketNumberLe);
    SortBySorted(st.markets, MarketNumberLe);
    assert MarketsIn(ListMarkets(st)) == sorted;
  }

  /** `findUnique({ where: { id }, include: { phones: true } })`. */
  function FetchMarket(st: Store, id: nat): (r: Option<MarketWithPhones>)
    ensures r.None? <==> forall m :: m in st.markets ==> m.id != id
    ensures r.Some? ==> r.value.market in st.markets && r.value.market.id == id &&
                        r.value.phones == PhonesOf(st.phones, id)
  {
    match FindMarket(st.markets, id)
    case None => None
    case Some(m) => Some(MarketWithPhones(m, PhonesOf(st.phones, id)))
  }

  /** GET /api/markets/:id. */
  function GetMarket(st: Store, id: nat): (r: Reply)
    ensures r.Failure? <==> forall m :: m in st.markets ==> m.id != id
    ensures r.Failure? ==> r == Failure(404, "Market not found")
    ensures r.Json? ==> r.body.Some? && r.body.value.market in st.markets && r.body.value.market.id == id &&
                        (forall p :: p in r.body.value.phones <==> p in st.phones && p.marketId == id)
  {
    var found := FetchMarket(st, id);
    if found.None? then Failure(404, "Market not found") else Json(found)
  }

  // ----- PATCH /api/markets/:marketId/phones/:phoneId/primary -----

  /** The "primaryPhone" log row: the old primary phone, if any, and the new one. */
  function PrimaryLog(marketId: nat, own: seq<Phone>, phone: Phone, editor: Option<string>): EditLog
  {
    var before := match FirstPrimary(own)
      case None => None
      case Some(k) => Some(PhoneText(own[k].labelText, own[k].number));
    EditLog(marketId, "primaryPhone", before, Some(PhoneText(phone.labelText, phone.number)), editor)
  }

  /** The set-primary route on the tables. */
  function SetPrimaryOutcome(st: Store, marketId: nat, phoneId: nat, user: Option<User>): Outcome
  {
    if FindMarket(st.markets, marketId).None? then Outcome(st, Failure(404, "Market not found"))
    else
      var own := PhonesOf(st.phones, marketId);
      match FindPhone(own, phoneId)
      case None => Outcome(st, Failure(404, "Phone not found"))
      case Some(phone) =>
        var after := st.(phones := SetPrimary(st.phones, marketId, phoneId),
                         editLogs := st.editLogs + [PrimaryLog(marketId, own, phone, Editor(user))]);
        Outcome(after, Json(FetchMarket(after, marketId)))
  }

  /**
   * Set-primary refuses, with 404 and no write, exactly when the market is
   * missing or the phone is not one of its phones.
   */
  lemma SetPrimaryRefuses(st: Store, marketId: nat, phoneId: nat, user: Option<User>)
    ensures var o := SetPrimaryOutcome(st, marketId, phoneId, user);
      (o.reply.Failure? <==>
        (forall m :: m in st.markets ==> m.id != marketId) ||
        (forall p :: p in st.phones && p.marketId == marketId ==> p.id != phoneId)) &&
      (o.reply.Failure? ==> o.store == st && o.reply.code == 404) &&
      ((forall m :: m in st.markets ==> m.id != marketId) ==> o.reply == Failure(404, "Market not found"))
  {
  }

  /**
   * After set-primary, the chosen phone is the market's one primary phone;
   * every other row keeps everything, and only primary flags change.
   */
  lemma SetPrimaryExactlyOneRoute(st: Store, marketId: nat, phoneId: nat, user: Option<User>)
    requires UniquePhoneIds(st.phones)
    ensures var o := SetPrimaryOutcome(st, marketId, phoneId, user);
      o.reply.Json? ==>
        o.store.markets == st.markets && o.store.nextId == st.nextId &&
        PrimaryMovedTo(st.phones, o.store.phones, marketId, phoneId)
  {
    var o := SetPrimaryOutcome(st, marketId, phoneId, user);
    if o.reply.Json? {
      var found := FindPhone(PhonesOf(st.phones, marketId), phoneId);
      assert found.Some?;
      var phone := found.value;
      assert phone in st.phones && phone.marketId == marketId && phone.id == phoneId;
      var k :| 0 <= k < |st.phones| && st.phones[k] == phone;
      SetPrimaryExactlyOne(st.phones, marketId, k);
      assert o.store.phones == SetPrimary(st.phones, marketId, phoneId);
    }
  }

  /**
   * The "primaryPhone" log row names the chosen phone as "label: number", and
   * as the old value the market's first primary phone before the change, or
   * null when it had none.
   */
  lemma {:induction false} PrimaryLogValues(marketId: nat, own: seq<Phone>, phone: Phone, editor: Option<string>)
    ensures var l := PrimaryLog(marketId, own, phone, editor);
      l.marketId == marketId && l.field == "primaryPhone" && l.editedBy == editor &&
      l.newValue == Some(PhoneText(phone.labelText, phone.number)) &&
      (l.oldValue.None? <==> forall j :: 0 <= j < |own| ==> !own[j].isPrimary) &&
      (forall k :: 0 <= k < |own| && own[k].isPrimary && (forall j :: 0 <= j < k ==> !own[j].isPrimary) ==>
        l.oldValue == Some(PhoneText(own[k].labelText, own[k].number)))
  {
    var f := FirstPrimary(own);
    forall k | 0 <= k < |own| && own[k].isPrimary && (forall j :: 0 <= j < k ==> !own[j].isPrimary)
      ensures f == Some(k)
    {
      assert f.Some?;
    }
  }

  /** Set-primary appends exactly one log row, for the chosen phone of the market. */
  lemma SetPrimaryLogs(st: Store, marketId: nat, phoneId: nat, user: Option<User>)
    ensures var o := SetPrimaryOutcome(st, marketId, phoneId, user);
      o.reply.Json? ==>
        exists p :: p in st.phones && p.marketId == marketId && p.id == phoneId &&
          o.store.editLogs == st.editLogs + [PrimaryLog(marketId, PhonesOf(st.phones, marketId), p, Editor(user))]
  {
  }

  /** The set-primary route on the database. */
  method SetPrimaryRoute(db: Database, marketId: nat, phoneId: nat, user: Option<User>) returns (reply: Reply)
    modifies db`phones, db`editLogs
    ensures StoreOf(db) == SetPrimaryOutcome(old(StoreOf(db)), marketId, phoneId, user).store
    ensures reply == SetPrimaryOutcome(old(StoreOf(db)), marketId, phoneId, user).reply
  {
    var market := FindMarket(db.markets, marketId);
    if market.None? {
      return Failure(404, "Market not found");
    }
    var own := PhonesOf(db.phones, marketId);
    var phone := FindPhone(own, phoneId);
    if phone.None? {
      return Failure(404, "Phone not found");
    }
    var log := PrimaryLog(marketId, own, phone.value, Editor(user));
    db.phones := SetPrimary(db.phones, marketId, phoneId);
    db.editLogs := db.editLogs + [log];
    reply := Json(FetchMarket(StoreOf(db), marketId));
  }

  // ----- PUT /api/markets/:id -----

  /** One phone of an update request; `id` is absent for a phone to create. */
  datatype PhoneInput = PhoneInput(id: Option<nat>, labelText: string, number: string, isPrimary: bool)

  /** The update request body; `stationCallLetters` may be absent. */
  datatype UpdateRequest = UpdateRequest(
    name: string,
    stationCallLetters: Option<string>,
    airTime: string,
    timezone: string,
    list: FeedList,
    phones: seq<PhoneInput>)

  /**
   * `stationCallLetters !== currentMarket.stationCallLetters`: an absent
   * request value is `undefined`, which differs even from a stored `null`.
   */
  predicate StationDiffers(req: Option<string>, cur: Option<string>)
  {
    !(req.Some? && cur == req)
  }

  /** The log rows for the market's own fields, in the order the route checks them. */
  function PutFieldLogs(cur: Market, req: UpdateRequest, editor: Option<string>): seq<EditLog>
  {
    LogIf(req.name != cur.name, EditLog(cur.id, "name", Some(cur.name), Some(req.name), editor)) +
    LogIf(StationDiffers(req.stationCallLetters, cur.stationCallLetters),
          EditLog(cur.id, "stationCallLetters", OrNull(cur.stationCallLetters), OrNull(req.stationCallLetters), editor)) +
    LogIf(req.airTime != cur.airTime, EditLog(cur.id, "airTime", Some(cur.airTime), Some(req.airTime), editor)) +
    LogIf(req.timezone != cur.timezone,
          EditLog(cur.id, "timezone", OrNull(Some(cur.timezone)), OrNull(Some(req.timezone)), editor)) +
    LogIf(req.list != cur.list, EditLog(cur.id, "list", Some(ListName(cur.list)), Some(ListName(req.list)), editor))
  }

  /** The five candidate rows, one per field. */
  lemma PutFieldLogsParts(cur: Market, req: UpdateRequest, editor: Option<string>)
    ensures forall l :: l in PutFieldLogs(cur, req, editor) <==>
      (req.name != cur.name && l == EditLog(cur.id, "name", Some(cur.name), Some(req.name), editor)) ||
      (StationDiffers(req.stationCallLetters, cur.stationCallLetters) && l == EditLog(cur.id, "stationCallLetters", OrNull(cur.stationCallLetters), OrNull(req.stationCallLetters), editor)) ||
      (req.airTime != cur.airTime && l == EditLog(cur.id, "airTime", Some(cur.airTime), Some(req.airTime), editor)) ||
      (req.timezone != cur.timezone && l == EditLog(cur.id, "timezone", OrNull(Some(cur.timezone)), OrNull(Some(req.timezone)), editor)) ||
      (req.list != cur.list && l == EditLog(cur.id, "list", Some(ListName(cur.list)), Some(ListName(req.list)), editor))
  {
  }

  /** At most five rows, each the market's and by the editor. */
  lemma PutFieldLogsShape(cur: Market, req: UpdateRequest, editor: Option<string>)
    ensures var ls := PutFieldLogs(cur, req, editor);
      |ls| <= 5 && (forall l :: l in ls ==> l.marketId == cur.id && l.editedBy == editor)
  {
    PutFieldLogsParts(cur, req, editor);
  }

  /**
   * A field is logged exactly when it changed, with the stored value as the
   * old one and the requested value as the new one. An absent station name
   * always counts as a change; the time zone and the station name are logged
   * as null when empty.
   */
  lemma PutLogsName(cur: Market, req: UpdateRequest, editor: Option<string>)
    ensures (exists l :: l in PutFieldLogs(cur, req, editor) && l.field == "name") <==> req.name != cur.name
    ensures forall l :: l in PutFieldLogs(cur, req, editor) && l.field == "name" ==> l.oldValue == Some(cur.name) && l.newValue == Some(req.name)
  {
    PutFieldLogsParts(cur, req, editor);
    FieldNamesDistinct();
    if req.name != cur.name {
      assert EditLog(cur.id, "name", Some(cur.name), Some(req.name), editor) in PutFieldLogs(cur, req, editor);
    }
  }

  lemma PutLogsStation(cur: Market, req: UpdateRequest, editor: Option<string>)
    ensures (exists l :: l in PutFieldLogs(cur, req, editor) && l.field == "stationCallLetters") <==> StationDiffers(req.stationCallLetters, cur.stationCallLetters)
    ensures forall l :: l in PutFieldLogs(cur, req, editor) && l.field == "stationCallLetters" ==> l.oldValue == OrNull(cur.stationCallLetters) && l.newValue == OrNull(req.stationCallLetters)
  {
    PutFieldLogsParts(cur, req, editor);
    FieldNamesDistinct();
    if StationDiffers(req.stationCallLetters, cur.stationCallLetters) {
      assert EditLog(cur.id, "stationCallLetters", OrNull(cur.stationCallLetters), OrNull(req.stationCallLetters), editor) in PutFieldLogs(cur, req, editor);
    }
  }

  lemma PutLogsAirTime(cur: Market, req: UpdateRequest, editor: Option<string>)
    ensures (exists l :: l in PutFieldLogs(cur, req, editor) && l.field == "airTime") <==> req.airTime != cur.airTime
    ensures forall l :: l in PutFieldLogs(cur, req, editor) && l.field == "airTime" ==> l.oldValue == Some(cur.airTime) && l.newValue == Some(req.airTime)
  {
    PutFieldLogsParts(cur, req, editor);
    FieldNamesDistinct();
    if req.airTime != cur.airTime {
      assert EditLog(cur.id, "airTime", Some(cur.airTime), Some(req.airTime), editor) in PutFieldLogs(cur, req, editor);
    }
  }

  lemma PutLogsTimezone(cur: Market, req: UpdateRequest, editor: Option<string>)
    ensures (exists l :: l in PutFieldLogs(cur, req, editor) && l.field == "timezone") <==> req.timezone != cur.timezone
    ensures forall l :: l in PutFieldLogs(cur, req, editor) && l.field == "timezone" ==> l.oldValue == OrNull(Some(cur.timezone)) && l.newValue == OrNull(Some(req.timezone))
  {
    PutFieldLogsParts(cur, req, editor);
    FieldNamesDistinct();
    if req.timezone != cur.timezone {
      assert EditLog(cur.id, "timezone", OrNull(Some(cur.timezone)), OrNull(Some(req.timezone)), editor) in PutFieldLogs(cur, req, editor);
    }
  }

  lemma PutLogsList(cur: Market, req: UpdateRequest, editor: Option<string>)
    ensures (exists l :: l in PutFieldLogs(cur, req, editor) && l.field == "list") <==> req.list != cur.list
    ensures forall l :: l in PutFieldLogs(cur, req, editor) && l.field == "list" ==> l.oldValue == Some(ListName(cur.list)) && l.newValue == Some(ListName(req.list))
  {
    PutFieldLogsParts(cur, req, editor);
    FieldNamesDistinct();
    if req.list != cur.list {
      assert EditLog(cur.id, "list", Some(ListName(cur.list)), Some(ListName(req.list)), editor) in PutFieldLogs(cur, req, editor);
    }
  }

  /** `market.update({ where: { id }, data })`: an absent station name leaves the stored one. */
  function ReplaceMarket(markets: seq<Market>, id: nat, req: UpdateRequest): seq<Market>
  {
    seq(|markets|, i requires 0 <= i < |markets| =>
      if markets[i].id != id then markets[i]
      else markets[i].(name := req.name,
                       stationCallLetters := if req.stationCallLetters.Some? then req.stationCallLetters
                                             else markets[i].stationCallLetters,
                       airTime := req.airTime, timezone := req.timezone, list := req.list))
  }

  /** The identifiers the request names. */
  function InputIds(qs: seq<PhoneInput>): set<nat>
  {
    set k | 0 <= k < |qs| && qs[k].id.Some? :: qs[k].id.value
  }

  /** The market's phones the request no longer names, in table order. */
  function Dropped(existing: seq<Phone>, keep: set<nat>): (r: seq<Phone>)
    ensures forall p :: p in r <==> p in existing && p.id !in keep
  {
    if |existing| == 0 then []
    else (if existing[0].id in keep then [] else [existing[0]]) + Dropped(existing[1..], keep)
  }

  /** The table after deleting the phones `ds` one after the other. */
  function AfterDeletes(phones: seq<Phone>, ds: seq<Phone>): seq<Phone>
  {
    if |ds| == 0 then phones else RemoveId(AfterDeletes(phones, ds[..|ds| - 1]), ds[|ds| - 1].id)
  }

  /** The log rows of the deletions, one per deleted phone, in order. */
  function DeleteLogs(ds: seq<Phone>, marketId: nat, editor: Option<string>): (r: seq<EditLog>)
    ensures |r| == |ds|
    ensures forall k :: 0 <= k < |ds| ==> r[k] == RemovedLog(marketId, ds[k], editor)
  {
    if |ds| == 0 then [] else DeleteLogs(ds[..|ds| - 1], marketId, editor) + [RemovedLog(marketId, ds[|ds| - 1], editor)]
  }

  /** No phone of `ds` has the identifier `id`. */
  predicate AvoidsIds(id: nat, ds: seq<Phone>)
  {
    forall k :: 0 <= k < |ds| ==> id != ds[k].id
  }

  lemma AvoidsIdsStep(id: nat, ds: seq<Phone>)
    requires |ds| > 0
    ensures AvoidsIds(id, ds) <==> AvoidsIds(id, ds[..|ds| - 1]) && id != ds[|ds| - 1].id
  {
    var n := |ds| - 1;
    assert forall k :: 0 <= k < n ==> ds[..n][k] == ds[k];
  }

  /** After the deletions, a row is left exactly when none of the deleted phones had its identifier. */
  lemma {:induction false} AfterDeletesKeeps(phones: seq<Phone>, ds: seq<Phone>)
    ensures forall p :: p in AfterDeletes(phones, ds) <==> p in phones && AvoidsIds(p.id, ds)
  {
    if |ds| > 0 {
      AfterDeletesKeeps(phones, ds[..|ds| - 1]);
      forall p ensures p in AfterDeletes(phones, ds) <==> p in phones && AvoidsIds(p.id, ds)
      {
        AvoidsIdsStep(p.id, ds);
      }
    }
  }

  /** The phone rows, log rows and counter while the request's phones are written, and whether a write threw. */
  datatype PutState = PutState(phones: seq<Phone>, logs: seq<EditLog>, nextId: nat, failed: bool)

  /** `phoneNumber.update({ where: { id }, data: { label, number, isPrimary } })`. */
  function UpdatePhoneRow(phones: seq<Phone>, id: nat, q: PhoneInput): seq<Phone>
  {
    seq(|phones|, i requires 0 <= i < |phones| =>
      if phones[i].id == id then phones[i].(labelText := q.labelText, number := q.number, isPrimary := q.isPrimary)
      else phones[i])
  }

  /** The log row for a named phone whose label or number the request changes. */
  function ChangedLog(existing: seq<Phone>, id: nat, q: PhoneInput, marketId: nat, editor: Option<string>): seq<EditLog>
  {
    match FindPhone(existing, id)
    case None => []
    case Some(o) =>
      LogIf(o.labelText != q.labelText || o.number != q.number,
            EditLog(marketId, "phoneNumber", Some(PhoneText(o.labelText, o.number)),
                    Some(PhoneText(q.labelText, q.number)), editor))
  }

  /** A created phone row; failure counting starts afresh. */
  function CreatedRow(id: nat, marketId: nat, q: PhoneInput): Phone
  {
    Phone(id, marketId, q.labelText, q.number, q.isPrimary, 0, None)
  }

  /** The log row of a created phone. */
  function AddedLog(marketId: nat, q: PhoneInput, editor: Option<string>): EditLog
  {
    EditLog(marketId, "phoneNumber", None, Some(PhoneText(q.labelText, q.number)), editor)
  }

  /**
   * One phone of the request: a named phone gets its change logged and its
   * row overwritten, and the update throws when no row has that identifier;
   * an unnamed phone is created with a fresh identifier and logged.
   */
  function UpsertOne(s: PutState, existing: seq<Phone>, q: PhoneInput, marketId: nat, editor: Option<string>): PutState
  {
    match q.id
    case Some(pid) =>
      var logs := s.logs + ChangedLog(existing, pid, q, marketId, editor);
      if FindPhone(s.phones, pid).None? then s.(logs := logs, failed := true)
      else s.(phones := UpdatePhoneRow(s.phones, pid, q), logs := logs)
    case None =>
      s.(phones := s.phones + [CreatedRow(s.nextId, marketId, q)],
         logs := s.logs + [AddedLog(marketId, q, editor)],
         nextId := s.nextId + 1)
  }

  /** The request's phones in order, stopping at the first write that throws. */
  function UpsertAll(s: PutState, existing: seq<Phone>, qs: seq<PhoneInput>, marketId: nat, editor: Option<string>): PutState
    decreases |qs|
  {
    if |qs| == 0 then s
    else
      var t := UpsertAll(s, existing, qs[..|qs| - 1], marketId, editor);
      if t.failed then t else UpsertOne(t, existing, qs[|qs| - 1], marketId, editor)
  }

  /** The update route on the tables. A write that throws leaves the earlier writes in place. */
  function PutOutcome(st: Store, id: nat, req: UpdateRequest, user: Option<User>): Outcome
  {
    match FindMarket(st.markets, id)
    case None => Outcome(st, Failure(404, "Market not found"))
    case Some(cur) =>
      var s := UpsertAll(PutStart(st, cur, req, Editor(user)), PhonesOf(st.phones, id), req.phones, id, Editor(user));
      var after := Store(ReplaceMarket(st.markets, id, req), s.phones, s.logs, s.nextId);
      if s.failed then Outcome(after, Failure(500, "Failed to update market"))
      else Outcome(after, Json(FetchMarket(after, id)))
  }

  /** The update refuses with 404 and no write exactly when no market has the identifier. */
  lemma PutNotFound(st: Store, id: nat, req: UpdateRequest, user: Option<User>)
    ensures var o := PutOutcome(st, id, req, user);
      (o.reply == Failure(404, "Market not found") <==> forall m :: m in st.markets ==> m.id != id) &&
      ((forall m :: m in st.markets ==> m.id != id) ==> o.store == st)
  {
  }

  /** The row with the identifier takes the request; every other row is unchanged. */
  lemma ReplaceMarketRows(markets: seq<Market>, id: nat, req: UpdateRequest)
    ensures var r := ReplaceMarket(markets, id, req);
      |r| == |markets| &&
      (forall i :: 0 <= i < |r| && markets[i].id != id ==> r[i] == markets[i]) &&
      (forall i :: 0 <= i < |r| && markets[i].id == id ==>
        r[i].id == id && r[i].marketNumber == markets[i].marketNumber &&
        r[i].name == req.name && r[i].airTime == req.airTime && r[i].timezone == req.timezone &&
        r[i].list == req.list &&
        r[i].stationCallLetters == (if req.stationCallLetters.Some? then req.stationCallLetters
                                    else markets[i].stationCallLetters))
  {
  }

  /**
   * The market row with the identifier takes the requested name, air time,
   * time zone and list, and the requested station name when one is given;
   * every other market row is unchanged.
   */
  lemma PutMarketRow(st: Store, id: nat, req: UpdateRequest, user: Option<User>)
    ensures var o := PutOutcome(st, id, req, user);
      var r := o.store.markets;
      |r| == |st.markets| &&
      (forall i :: 0 <= i < |r| && st.markets[i].id != id ==> r[i] == st.markets[i]) &&
      (forall i :: 0 <= i < |r| && st.markets[i].id == id ==>
        r[i].id == id && r[i].marketNumber == st.markets[i].marketNumber &&
        r[i].name == req.name && r[i].airTime == req.airTime && r[i].timezone == req.timezone &&
        r[i].list == req.list &&
        r[i].stationCallLetters == (if req.stationCallLetters.Some? then req.stationCallLetters
                                    else st.markets[i].stationCallLetters))
  {
    if FindMarket(st.markets, id).Some? {
      ReplaceMarketRows(st.markets, id, req);
      assert PutOutcome(st, id, req, user).store.markets == ReplaceMarket(st.markets, id, req);
    }
  }

  /**
   * What the phone writes may do between two states, position by position:
   * rows that were there keep their identifier and market, rows are only
   * appended, each appended row belongs to the market with an identifier
   * from the counter, the counter never goes back, and every added log row
   * is a "phoneNumber" row of the market by the editor, naming a new value.
   */
  ghost predicate Grows(s: PutState, t: PutState, marketId: nat, editor: Option<string>)
  {
    |t.phones| >= |s.phones| && t.nextId >= s.nextId &&
    (forall i :: 0 <= i < |s.phones| ==> t.phones[i].id == s.phones[i].id && t.phones[i].marketId == s.phones[i].marketId) &&
    (forall i :: |s.phones| <= i < |t.phones| ==> t.phones[i].marketId == marketId && s.nextId <= t.phones[i].id < t.nextId) &&
    |t.logs| >= |s.logs| && t.logs[..|s.logs|] == s.logs &&
    (forall k :: |s.logs| <= k < |t.logs| ==>
      t.logs[k].field == "phoneNumber" && t.logs[k].marketId == marketId &&
      t.logs[k].editedBy == editor && t.logs[k].newValue.Some?)
  }

  lemma GrowsTrans(a: PutState, b: PutState, c: PutState, marketId: nat, editor: Option<string>)
    requires Grows(a, b, marketId, editor) && Grows(b, c, marketId, editor)
    ensures Grows(a, c, marketId, editor)
  {
    assert c.logs[..|a.logs|] == c.logs[..|b.logs|][..|a.logs|];
    forall k | |a.logs| <= k < |c.logs|
      ensures c.logs[k].field == "phoneNumber" && c.logs[k].marketId == marketId &&
              c.logs[k].editedBy == editor && c.logs[k].newValue.Some?
    {
      if k < |b.logs| {
        assert c.logs[k] == c.logs[..|b.logs|][k];
      }
    }
  }

  /** One phone of the request writes within the frame. */
  lemma UpsertOneGrows(s: PutState, existing: seq<Phone>, q: PhoneInput, marketId: nat, editor: Option<string>)
    ensures Grows(s, UpsertOne(s, existing, q, marketId, editor), marketId, editor)
  {
    match q.id
    case Some(pid) =>
      var extra := ChangedLog(existing, pid, q, marketId, editor);
      ChangedLogShape(existing, pid, q, marketId, editor);
      var logs := s.logs + extra;
      assert logs[..|s.logs|] == s.logs;
      assert forall k :: |s.logs| <= k < |logs| ==> logs[k] in extra;
      if FindPhone(s.phones, pid).Some? {
        UpdatePhoneRowKeeps(s.phones, pid, q);
        assert Grows(s, s.(phones := UpdatePhoneRow(s.phones, pid, q), logs := logs), marketId, editor);
      } else {
        assert Grows(s, s.(logs := logs, failed := true), marketId, editor);
      }
    case None =>
      var logs := s.logs + [AddedLog(marketId, q, editor)];
      assert logs[..|s.logs|] == s.logs;
      var phones := s.phones + [CreatedRow(s.nextId, marketId, q)];
      assert forall i :: 0 <= i < |s.phones| ==> phones[i] == s.phones[i];
      assert Grows(s, s.(phones := phones, logs := logs, nextId := s.nextId + 1), marketId, editor);
  }

  /** Overwriting a phone row keeps every row's identifier and market. */
  lemma UpdatePhoneRowKeeps(phones: seq<Phone>, id: nat, q: PhoneInput)
    ensures |UpdatePhoneRow(phones, id, q)| == |phones|
    ensures forall i :: 0 <= i < |phones| ==>
      UpdatePhoneRow(phones, id, q)[i].id == phones[i].id && UpdatePhoneRow(phones, id, q)[i].marketId == phones[i].marketId
  {
  }

  /** A named phone's change log, when there is one, is a "phoneNumber" row of the market with a new value. */
  lemma ChangedLogShape(existing: seq<Phone>, id: nat, q: PhoneInput, marketId: nat, editor: Option<string>)
    ensures forall l :: l in ChangedLog(existing, id, q, marketId, editor) ==>
      l.field == "phoneNumber" && l.marketId == marketId && l.editedBy == editor && l.newValue.Some?
  {
  }

  /** All of the request's phones write within the frame. */
  lemma {:induction false} UpsertFrame(s: PutState, existing: seq<Phone>, qs: seq<PhoneInput>, marketId: nat, editor: Option<string>)
    ensures Grows(s, UpsertAll(s, existing, qs, marketId, editor), marketId, editor)
    decreases |qs|
  {
    if |qs| == 0 {
      assert s.logs[..|s.logs|] == s.logs;
    } else {
      var u := UpsertAll(s, existing, qs[..|qs| - 1], marketId, editor);
      UpsertFrame(s, existing, qs[..|qs| - 1], marketId, editor);
      if !u.failed {
        UpsertOneGrows(u, existing, qs[|qs| - 1], marketId, editor);
        GrowsTrans(s, u, UpsertAll(s, existing, qs, marketId, editor), marketId, editor);
      }
    }
  }

  /** The request's phones without an identifier, in order: the ones to create. */
  function Creates(qs: seq<PhoneInput>): (r: seq<PhoneInput>)
    ensures |r| <= |qs|
    ensures forall q :: q in r ==> q in qs && q.id.None?
  {
    if |qs| == 0 then []
    else Creates(qs[..|qs| - 1]) + (if qs[|qs| - 1].id.None? then [qs[|qs| - 1]] else [])
  }

  /** Rows created for `cs`, in order, with identifiers from `first` on. */
  function CreatedRows(first: nat, marketId: nat, cs: seq<PhoneInput>): (r: seq<Phone>)
    ensures |r| == |cs|
  {
    seq(|cs|, j requires 0 <= j < |cs| => CreatedRow(first + j, marketId, cs[j]))
  }

  /** No two of the request's phones name the same identifier, and each named one is below `bound`. */
  predicate NamedBelow(qs: seq<PhoneInput>, bound: nat)
  {
    (forall a, b :: 0 <= a < b < |qs| && qs[a].id.Some? && qs[b].id.Some? ==> qs[a].id != qs[b].id) &&
    (forall k :: 0 <= k < |qs| && qs[k].id.Some? ==> qs[k].id.value < bound)
  }

  lemma NamedBelowPrefix(qs: seq<PhoneInput>, bound: nat, n: nat)
    requires NamedBelow(qs, bound) && n <= |qs|
    ensures NamedBelow(qs[..n], bound)
  {
    assert forall k :: 0 <= k < n ==> qs[..n][k] == qs[k];
  }

  /** Every row with identifier `pid` carries the label, number and primary flag of `q`. */
  ghost predicate Carries(phones: seq<Phone>, pid: nat, q: PhoneInput)
  {
    forall i :: 0 <= i < |phones| && phones[i].id == pid ==>
      phones[i].labelText == q.labelText && phones[i].number == q.number && phones[i].isPrimary == q.isPrimary
  }

  /** Writing a phone that names `pid` makes the rows with that identifier carry it. */
  lemma CarriesSet(u: PutState, existing: seq<Phone>, q: PhoneInput, marketId: nat, editor: Option<string>)
    requires q.id.Some? && !UpsertOne(u, existing, q, marketId, editor).failed
    ensures Carries(UpsertOne(u, existing, q, marketId, editor).phones, q.id.value, q)
  {
  }

  /** Writing another phone leaves rows with an identifier older than the counter alone. */
  lemma CarriesKept(u: PutState, existing: seq<Phone>, q: PhoneInput, marketId: nat, editor: Option<string>, pid: nat, p: PhoneInput)
    requires Carries(u.phones, pid, p) && q.id != Some(pid) && pid < u.nextId
    ensures Carries(UpsertOne(u, existing, q, marketId, editor).phones, pid, p)
  {
    var t := UpsertOne(u, existing, q, marketId, editor);
    forall i | 0 <= i < |t.phones| && t.phones[i].id == pid
      ensures t.phones[i].labelText == p.labelText && t.phones[i].number == p.number && t.phones[i].isPrimary == p.isPrimary
    {
      if i < |u.phones| {
        assert t.phones[i] == u.phones[i];
      }
    }
  }

  /**
   * When the request's named identifiers are distinct and older than the
   * counter, and no write throws, each named row ends up carrying exactly the
   * label, number and primary flag the request gives it.
   */
  lemma {:induction false} UpsertOverwrites(s: PutState, existing: seq<Phone>, qs: seq<PhoneInput>, marketId: nat, editor: Option<string>)
    requires NamedBelow(qs, s.nextId)
    ensures var t := UpsertAll(s, existing, qs, marketId, editor);
      !t.failed ==> forall k :: 0 <= k < |qs| && qs[k].id.Some? ==> Carries(t.phones, qs[k].id.value, qs[k])
    decreases |qs|
  {
    var t := UpsertAll(s, existing, qs, marketId, editor);
    if |qs| > 0 && !t.failed {
      var n := |qs| - 1;
      var pre := qs[..n];
      var u := UpsertAll(s, existing, pre, marketId, editor);
      NamedBelowPrefix(qs, s.nextId, n);
      UpsertOverwrites(s, existing, pre, marketId, editor);
      UpsertFrame(s, existing, pre, marketId, editor);
      var q := qs[n];
      forall k | 0 <= k < |qs| && qs[k].id.Some? ensures Carries(t.phones, qs[k].id.value, qs[k]) {
        if k < n {
          assert pre[k] == qs[k];
          CarriesKept(u, existing, q, marketId, editor, qs[k].id.value, qs[k]);
        } else {
          CarriesSet(u, existing, q, marketId, editor);
        }
      }
    }
  }

  /** `t` is `s` with the rows for `cs` appended, identifiers drawn from the counter. */
  ghost predicate Appended(s: PutState, t: PutState, marketId: nat, cs: seq<PhoneInput>)
  {
    |t.phones| == |s.phones| + |cs| && t.phones[|s.phones|..] == CreatedRows(s.nextId, marketId, cs) &&
    t.nextId == s.nextId + |cs|
  }

  /** Creating one more phone appends its row. */
  lemma AppendedCreate(s: PutState, u: PutState, existing: seq<Phone>, q: PhoneInput, marketId: nat, editor: Option<string>, cs: seq<PhoneInput>)
    requires Appended(s, u, marketId, cs) && q.id.None?
    ensures Appended(s, UpsertOne(u, existing, q, marketId, editor), marketId, cs + [q])
  {
    var t := UpsertOne(u, existing, q, marketId, editor);
    assert t.phones[|s.phones|..] == u.phones[|s.phones|..] + [CreatedRow(u.nextId, marketId, q)];
    assert CreatedRows(s.nextId, marketId, cs + [q]) == CreatedRows(s.nextId, marketId, cs) + [CreatedRow(u.nextId, marketId, q)];
  }

  /** Overwriting a row older than the counter leaves the appended rows alone. */
  lemma AppendedUpdate(s: PutState, u: PutState, existing: seq<Phone>, q: PhoneInput, marketId: nat, editor: Option<string>, cs: seq<PhoneInput>)
    requires Appended(s, u, marketId, cs) && q.id.Some? && q.id.value < s.nextId
    requires !UpsertOne(u, existing, q, marketId, editor).failed
    ensures Appended(s, UpsertOne(u, existing, q, marketId, editor), marketId, cs)
  {
    var t := UpsertOne(u, existing, q, marketId, editor);
    var made := CreatedRows(s.nextId, marketId, cs);
    forall j | 0 <= j < |made| ensures t.phones[|s.phones| + j] == made[j] {
      assert u.phones[|s.phones| + j] == u.phones[|s.phones|..][j];
    }
    assert t.phones[|s.phones|..] == made;
  }

  /**
   * When every named identifier is older than the counter and no write
   * throws, the rows appended are exactly the unnamed phones, in order, with
   * consecutive identifiers from the counter.
   */
  lemma {:induction false} UpsertCreates(s: PutState, existing: seq<Phone>, qs: seq<PhoneInput>, marketId: nat, editor: Option<string>)
    requires forall k :: 0 <= k < |qs| && qs[k].id.Some? ==> qs[k].id.value < s.nextId
    ensures var t := UpsertAll(s, existing, qs, marketId, editor);
      !t.failed ==> Appended(s, t, marketId, Creates(qs))
    decreases |qs|
  {
    var t := UpsertAll(s, existing, qs, marketId, editor);
    if |qs| == 0 {
      assert t.phones[|s.phones|..] == [];
    } else if !t.failed {
      var n := |qs| - 1;
      var pre := qs[..n];
      var u := UpsertAll(s, existing, pre, marketId, editor);
      assert forall k :: 0 <= k < n ==> pre[k] == qs[k];
      UpsertCreates(s, existing, pre, marketId, editor);
      var q := qs[n];
      if q.id.None? {
        AppendedCreate(s, u, existing, q, marketId, editor, Creates(pre));
      } else {
        AppendedUpdate(s, u, existing, q, marketId, editor, Creates(pre));
      }
    }
  }

  /** When every named identifier has a row, no write throws. */
  lemma {:induction false} UpsertSucceeds(s: PutState, existing: seq<Phone>, qs: seq<PhoneInput>, marketId: nat, editor: Option<string>)
    requires !s.failed
    requires forall k :: 0 <= k < |qs| && qs[k].id.Some? ==> exists j :: 0 <= j < |s.phones| && s.phones[j].id == qs[k].id.value
    ensures !UpsertAll(s, existing, qs, marketId, editor).failed
    decreases |qs|
  {
    if |qs| > 0 {
      var n := |qs| - 1;
      var pre := qs[..n];
      assert forall k :: 0 <= k < n ==> pre[k] == qs[k];
      UpsertSucceeds(s, existing, pre, marketId, editor);
      var u := UpsertAll(s, existing, pre, marketId, editor);
      UpsertFrame(s, existing, pre, marketId, editor);
      var q := qs[n];
      if q.id.Some? {
        var j :| 0 <= j < |s.phones| && s.phones[j].id == q.id.value;
        assert u.phones[j] in u.phones;
      }
    }
  }

  /** Once a write has thrown, the remaining phones write nothing. */
  lemma {:induction false} UpsertFailedStays(s: PutState, existing: seq<Phone>, qs: seq<PhoneInput>, n: nat, marketId: nat, editor: Option<string>)
    requires n <= |qs| && UpsertAll(s, existing, qs[..n], marketId, editor).failed
    ensures UpsertAll(s, existing, qs, marketId, editor) == UpsertAll(s, existing, qs[..n], marketId, editor)
    decreases |qs|
  {
    if n < |qs| {
      var m := |qs| - 1;
      assert qs[..m][..n] == qs[..n];
      UpsertFailedStays(s, existing, qs[..m], n, marketId, editor);
      UpsertAfterFailure(s, existing, qs, marketId, editor);
    } else {
      assert qs[..n] == qs;
    }
  }

  /** Once a write has thrown, the next phone writes nothing. */
  lemma UpsertAfterFailure(s: PutState, existing: seq<Phone>, qs: seq<PhoneInput>, marketId: nat, editor: Option<string>)
    requires |qs| > 0 && UpsertAll(s, existing, qs[..|qs| - 1], marketId, editor).failed
    ensures UpsertAll(s, existing, qs, marketId, editor) == UpsertAll(s, existing, qs[..|qs| - 1], marketId, editor)
  {
  }

  /** The state the update route starts writing phones from, once the market's own fields are written. */
  function PutStart(st: Store, cur: Market, req: UpdateRequest, editor: Option<string>): PutState
  {
    var ds := Dropped(PhonesOf(st.phones, cur.id), InputIds(req.phones));
    PutState(AfterDeletes(st.phones, ds), st.editLogs + PutFieldLogs(cur, req, editor) + DeleteLogs(ds, cur.id, editor),
             st.nextId, false)
  }

  /**
   * After the update, every phone of the market is one the request names or
   * one it created (an identifier the counter had not yet handed out).
   */
  lemma PutDropsUnnamed(st: Store, id: nat, req: UpdateRequest, user: Option<User>)
    ensures var r := PutOutcome(st, id, req, user).store.phones;
      FindMarket(st.markets, id).Some? ==>
        forall i :: 0 <= i < |r| && r[i].marketId == id ==> r[i].id in InputIds(req.phones) || r[i].id >= st.nextId
  {
    var found := FindMarket(st.markets, id);
    if found.Some? {
      var cur := found.value;
      var editor := Editor(user);
      var existing := PhonesOf(st.phones, id);
      var ds := Dropped(existing, InputIds(req.phones));
      var s0 := PutStart(st, cur, req, editor);
      var r := PutOutcome(st, id, req, user).store.phones;
      UpsertFrame(s0, existing, req.phones, id, editor);
      AfterDeletesKeeps(st.phones, ds);
      forall i | 0 <= i < |r| && r[i].marketId == id && r[i].id !in InputIds(req.phones)
        ensures r[i].id >= st.nextId
      {
        if i < |s0.phones| {
          assert false;
        }
      }
    }
  }

  /** With unique identifiers, deleting rows of one market leaves every row of the other markets. */
  lemma OtherMarketSurvives(phones: seq<Phone>, ds: seq<Phone>, marketId: nat, j: nat)
    requires UniquePhoneIds(phones) && j < |phones| && phones[j].marketId != marketId
    requires forall k :: 0 <= k < |ds| ==> ds[k] in phones && ds[k].marketId == marketId
    ensures phones[j] in AfterDeletes(phones, ds)
  {
    AfterDeletesKeeps(phones, ds);
    forall k | 0 <= k < |ds| ensures phones[j].id != ds[k].id {
      var j2 :| 0 <= j2 < |phones| && phones[j2] == ds[k];
      assert j2 != j;
    }
  }

  /**
   * With unique phone identifiers, the update keeps a row, with its
   * identifier and market, for every phone of another market.
   */
  lemma PutKeepsOtherMarkets(st: Store, id: nat, req: UpdateRequest, user: Option<User>)
    requires UniquePhoneIds(st.phones)
    ensures var r := PutOutcome(st, id, req, user).store.phones;
      forall j :: 0 <= j < |st.phones| && st.phones[j].marketId != id ==>
        exists i :: 0 <= i < |r| && r[i].id == st.phones[j].id && r[i].marketId == st.phones[j].marketId
  {
    var found := FindMarket(st.markets, id);
    if found.Some? {
      var editor := Editor(user);
      var existing := PhonesOf(st.phones, id);
      var ds := Dropped(existing, InputIds(req.phones));
      var s0 := PutStart(st, found.value, req, editor);
      var r := PutOutcome(st, id, req, user).store.phones;
      UpsertFrame(s0, existing, req.phones, id, editor);
      assert forall k :: 0 <= k < |ds| ==> ds[k] in existing;
      forall j | 0 <= j < |st.phones| && st.phones[j].marketId != id
        ensures exists i :: 0 <= i < |r| && r[i].id == st.phones[j].id && r[i].marketId == st.phones[j].marketId
      {
        OtherMarketSurvives(st.phones, ds, id, j);
        var i :| 0 <= i < |s0.phones| && s0.phones[i] == st.phones[j];
        assert r[i].id == st.phones[j].id;
      }
    }
  }

  /**
   * When the request names distinct identifiers older than the counter and
   * the update succeeds, every named row carries the requested label, number
   * and primary flag.
   */
  lemma PutOverwritesNamed(st: Store, id: nat, req: UpdateRequest, user: Option<User>)
    requires NamedBelow(req.phones, st.nextId)
    ensures var o := PutOutcome(st, id, req, user);
      var r := o.store.phones;
      o.reply.Json? ==>
        forall k :: 0 <= k < |req.phones| && req.phones[k].id.Some? ==> Carries(r, req.phones[k].id.value, req.phones[k])
  {
    var found := FindMarket(st.markets, id);
    if found.Some? {
      UpsertOverwrites(PutStart(st, found.value, req, Editor(user)), PhonesOf(st.phones, id), req.phones, id, Editor(user));
    }
  }

  /**
   * When every named identifier is older than the counter and the update
   * succeeds, the table ends with one new row per unnamed phone, in request
   * order, with consecutive identifiers from the counter.
   */
  lemma PutCreatesUnnamed(st: Store, id: nat, req: UpdateRequest, user: Option<User>)
    requires forall k :: 0 <= k < |req.phones| && req.phones[k].id.Some? ==> req.phones[k].id.value < st.nextId
    ensures var o := PutOutcome(st, id, req, user);
      var r := o.store.phones;
      o.reply.Json? ==>
        |r| >= |Creates(req.phones)| &&
        r[|r| - |Creates(req.phones)|..] == CreatedRows(st.nextId, id, Creates(req.phones)) &&
        o.store.nextId == st.nextId + |Creates(req.phones)|
  {
    var found := FindMarket(st.markets, id);
    if found.Some? {
      UpsertCreates(PutStart(st, found.value, req, Editor(user)), PhonesOf(st.phones, id), req.phones, id, Editor(user));
    }
  }

  /** The update of an existing market succeeds whenever every identifier the request names has a row. */
  lemma PutSucceeds(st: Store, id: nat, req: UpdateRequest, user: Option<User>)
    requires FindMarket(st.markets, id).Some?
    requires forall k :: 0 <= k < |req.phones| && req.phones[k].id.Some? ==>
      exists j :: 0 <= j < |st.phones| && st.phones[j].id == req.phones[k].id.value
    ensures var o := PutOutcome(st, id, req, user);
      o.reply == Json(FetchMarket(o.store, id))
  {
    var cur := FindMarket(st.markets, id).value;
    var editor := Editor(user);
    var existing := PhonesOf(st.phones, id);
    var ds := Dropped(existing, InputIds(req.phones));
    var s0 := PutStart(st, cur, req, editor);
    AfterDeletesKeeps(st.phones, ds);
    forall k | 0 <= k < |req.phones| && req.phones[k].id.Some?
      ensures exists i :: 0 <= i < |s0.phones| && s0.phones[i].id == req.phones[k].id.value
    {
      var j :| 0 <= j < |st.phones| && st.phones[j].id == req.phones[k].id.value;
      assert req.phones[k].id.value in InputIds(req.phones);
      assert st.phones[j] in s0.phones;
    }
    UpsertSucceeds(s0, existing, req.phones, id, editor);
  }

  /**
   * The update writes, in order: the market's changed fields, one row per
   * deleted phone, then only "phoneNumber" rows of the market by the editor.
   */
  lemma PutLogOrder(st: Store, id: nat, req: UpdateRequest, user: Option<User>)
    ensures var o := PutOutcome(st, id, req, user);
      FindMarket(st.markets, id).Some? ==>
        var pre := st.editLogs + PutFieldLogs(FindMarket(st.markets, id).value, req, Editor(user)) +
                   DeleteLogs(Dropped(PhonesOf(st.phones, id), InputIds(req.phones)), id, Editor(user));
        |o.store.editLogs| >= |pre| && o.store.editLogs[..|pre|] == pre &&
        forall k :: |pre| <= k < |o.store.editLogs| ==>
          o.store.editLogs[k].field == "phoneNumber" && o.store.editLogs[k].marketId == id &&
          o.store.editLogs[k].editedBy == Editor(user)
  {
    var found := FindMarket(st.markets, id);
    if found.Some? {
      UpsertFrame(PutStart(st, found.value, req, Editor(user)), PhonesOf(st.phones, id), req.phones, id, Editor(user));
    }
  }

  /** Five pieces appended in turn are their concatenation appended at once. */
  lemma AppendFive(l0: seq<EditLog>, a: seq<EditLog>, b: seq<EditLog>, c: seq<EditLog>, d: seq<EditLog>, e: seq<EditLog>)
    ensures l0 + a + b + c + d + e == l0 + (a + b + c + d + e)
  {
  }

  /** The update route's field logging, one `logEdit` per changed field. */
  method PutLogFields(db: Database, cur: Market, req: UpdateRequest, editor: Option<string>)
    modifies db`editLogs
    ensures db.editLogs == old(db.editLogs) + PutFieldLogs(cur, req, editor)
  {
    ghost var l0 := db.editLogs;
    ghost var n := LogIf(req.name != cur.name, EditLog(cur.id, "name", Some(cur.name), Some(req.name), editor));
    ghost var sc := LogIf(StationDiffers(req.stationCallLetters, cur.stationCallLetters),
      EditLog(cur.id, "stationCallLetters", OrNull(cur.stationCallLetters), OrNull(req.stationCallLetters), editor));
    ghost var a := LogIf(req.airTime != cur.airTime, EditLog(cur.id, "airTime", Some(cur.airTime), Some(req.airTime), editor));
    ghost var t := LogIf(req.timezone != cur.timezone,
      EditLog(cur.id, "timezone", OrNull(Some(cur.timezone)), OrNull(Some(req.timezone)), editor));
    ghost var li := LogIf(req.list != cur.list, EditLog(cur.id, "list", Some(ListName(cur.list)), Some(ListName(req.list)), editor));
    if req.name != cur.name {
      db.editLogs := db.editLogs + [EditLog(cur.id, "name", Some(cur.name), Some(req.name), editor)];
    } else {
      assert l0 + [] == l0;
    }
    assert db.editLogs == l0 + n;
    if StationDiffers(req.stationCallLetters, cur.stationCallLetters) {
      db.editLogs := db.editLogs + [EditLog(cur.id, "stationCallLetters", OrNull(cur.stationCallLetters),
                                            OrNull(req.stationCallLetters), editor)];
    } else {
      assert l0 + n + [] == l0 + n;
    }
    assert db.editLogs == l0 + n + sc;
    if req.airTime != cur.airTime {
      db.editLogs := db.editLogs + [EditLog(cur.id, "airTime", Some(cur.airTime), Some(req.airTime), editor)];
    } else {
      assert l0 + n + sc + [] == l0 + n + sc;
    }
    assert db.editLogs == l0 + n + sc + a;
    if req.timezone != cur.timezone {
      db.editLogs := db.editLogs + [EditLog(cur.id, "timezone", OrNull(Some(cur.timezone)), OrNull(Some(req.timezone)), editor)];
    } else {
      assert l0 + n + sc + a + [] == l0 + n + sc + a;
    }
    assert db.editLogs == l0 + n + sc + a + t;
    if req.list != cur.list {
      db.editLogs := db.editLogs + [EditLog(cur.id, "list", Some(ListName(cur.list)), Some(ListName(req.list)), editor)];
    } else {
      assert l0 + n + sc + a + t + [] == l0 + n + sc + a + t;
    }
    assert db.editLogs == l0 + n + sc + a + t + li;
    AppendFive(l0, n, sc, a, t, li);
  }

  /** One more deletion: the next phone removed by identifier and one more log row. */
  lemma DeleteStep(phones: seq<Phone>, ds: seq<Phone>, i: nat, marketId: nat, editor: Option<string>)
    requires i < |ds|
    ensures AfterDeletes(phones, ds[..i + 1]) == RemoveId(AfterDeletes(phones, ds[..i]), ds[i].id)
    ensures DeleteLogs(ds[..i + 1], marketId, editor) == DeleteLogs(ds[..i], marketId, editor) + [RemovedLog(marketId, ds[i], editor)]
  {
    assert ds[..i + 1][..i] == ds[..i];
  }

  /** The update route's deletion loop: each dropped phone deleted by identifier, then logged. */
  method DeletePhones(db: Database, ds: seq<Phone>, marketId: nat, editor: Option<string>)
    modifies db`phones, db`editLogs
    ensures db.phones == AfterDeletes(old(db.phones), ds)
    ensures db.editLogs == old(db.editLogs) + DeleteLogs(ds, marketId, editor)
  {
    ghost var phones0, logs0 := db.phones, db.editLogs;
    var i := 0;
    while i < |ds|
      invariant 0 <= i <= |ds|
      invariant db.phones == AfterDeletes(phones0, ds[..i])
      invariant db.editLogs == logs0 + DeleteLogs(ds[..i], marketId, editor)
    {
      DeleteStep(phones0, ds, i, marketId, editor);
      db.phones := RemoveId(db.phones, ds[i].id);
      db.editLogs := db.editLogs + [RemovedLog(marketId, ds[i], editor)];
      i := i + 1;
    }
    assert ds[..|ds|] == ds;
  }

  /** One phone of the request written to the database. */
  method UpsertPhone(db: Database, existing: seq<Phone>, q: PhoneInput, marketId: nat, editor: Option<string>)
    returns (failed: bool)
    modifies db`phones, db`editLogs, db`nextId
    ensures PutState(db.phones, db.editLogs, db.nextId, failed) ==
            UpsertOne(PutState(old(db.phones), old(db.editLogs), old(db.nextId), false), existing, q, marketId, editor)
  {
    failed := false;
    if q.id.Some? {
      var pid := q.id.value;
      var before := FindPhone(existing, pid);
      if before.Some? && (before.value.labelText != q.labelText || before.value.number != q.number) {
        db.editLogs := db.editLogs + [EditLog(marketId, "phoneNumber", Some(PhoneText(before.value.labelText, before.value.number)),
                                              Some(PhoneText(q.labelText, q.number)), editor)];
      } else {
        assert db.editLogs + [] == db.editLogs;
      }
      if FindPhone(db.phones, pid).None? {
        failed := true;
        return;
      }
      db.phones := UpdatePhoneRow(db.phones, pid, q);
    } else {
      var newId := db.FreshId();
      db.phones := db.phones + [CreatedRow(newId, marketId, q)];
      db.editLogs := db.editLogs + [AddedLog(marketId, q, editor)];
    }
  }

  /** The request's phones after one more that did not throw. */
  lemma UpsertAllSnoc(s: PutState, existing: seq<Phone>, qs: seq<PhoneInput>, i: nat, marketId: nat, editor: Option<string>)
    requires i < |qs| && !UpsertAll(s, existing, qs[..i], marketId, editor).failed
    ensures UpsertAll(s, existing, qs[..i + 1], marketId, editor) ==
            UpsertOne(UpsertAll(s, existing, qs[..i], marketId, editor), existing, qs[i], marketId, editor)
  {
    assert qs[..i + 1][..i] == qs[..i];
  }

  /** The update route's loop over the request's phones; a write that throws ends it. */
  method UpsertPhones(db: Database, existing: seq<Phone>, qs: seq<PhoneInput>, marketId: nat, editor: Option<string>)
    returns (failed: bool)
    modifies db`phones, db`editLogs, db`nextId
    ensures PutState(db.phones, db.editLogs, db.nextId, failed) ==
            UpsertAll(PutState(old(db.phones), old(db.editLogs), old(db.nextId), false), existing, qs, marketId, editor)
  {
    ghost var s0 := PutState(db.phones, db.editLogs, db.nextId, false);
    failed := false;
    var i := 0;
    while i < |qs| && !failed
      invariant 0 <= i <= |qs|
      invariant PutState(db.phones, db.editLogs, db.nextId, failed) == UpsertAll(s0, existing, qs[..i], marketId, editor)
    {
      UpsertAllSnoc(s0, existing, qs, i, marketId, editor);
      failed := UpsertPhone(db, existing, qs[i], marketId, editor);
      i := i + 1;
    }
    if failed {
      UpsertFailedStays(s0, existing, qs, i, marketId, editor);
    } else {
      assert qs[..i] == qs;
    }
  }

  /** The update route on the database. */
  method PutMarketRoute(db: Database, id: nat, req: UpdateRequest, user: Option<User>) returns (reply: Reply)
    modifies db`markets, db`phones, db`editLogs, db`nextId
    ensures StoreOf(db) == PutOutcome(old(StoreOf(db)), id, req, user).store
    ensures reply == PutOutcome(old(StoreOf(db)), id, req, user).reply
  {
    var found := FindMarket(db.markets, id);
    if found.None? {
      return Failure(404, "Market not found");
    }
    ghost var st := StoreOf(db);
    var cur := found.value;
    var editor := Editor(user);
    PutLogFields(db, cur, req, editor);
    db.markets := ReplaceMarket(db.markets, id, req);
    var existing := PhonesOf(db.phones, id);
    var ds := Dropped(existing, InputIds(req.phones));
    DeletePhones(db, ds, id, editor);
    assert PutState(db.phones, db.editLogs, db.nextId, false) == PutStart(st, cur, req, editor);
    var failed := UpsertPhones(db, existing, req.phones, id, editor);
    if failed {
      reply := Failure(500, "Failed to update market");
    } else {
      reply := Json(FetchMarket(StoreOf(db), id));
    }
  }

  // ----- DELETE /api/markets/:marketId/phones/:phoneId -----

  /** `phoneNumber.delete({ where: { id } })` on the table. */
  function RemoveId(phones: seq<Phone>, id: nat): (r: seq<Phone>)
    ensures forall p :: p in r <==> p in phones && p.id != id
    ensures |r| <= |phones|
  {
    if |phones| == 0 then []
    else (if phones[0].id == id then [] else [phones[0]]) + RemoveId(phones[1..], id)
  }

  /** The "phoneNumber" log row of a removed phone. */
  function RemovedLog(marketId: nat, p: Phone, editor: Option<string>): EditLog
  {
    EditLog(marketId, "phoneNumber", Some(PhoneText(p.labelText, p.number)), None, editor)
  }

  const LastPhoneMessage := "Cannot delete the last phone number"

  /**
   * The delete route on the tables. The phone is looked up and deleted by its
   * identifier alone, and deleting a missing row throws, which the route
   * answers with 500.
   */
  function DeleteOutcome(st: Store, marketId: nat, phoneId: nat, user: Option<User>): Outcome
  {
    if |PhonesOf(st.phones, marketId)| <= 1 then Outcome(st, Failure(400, LastPhoneMessage))
    else match FindPhone(st.phones, phoneId)
      case None => Outcome(st, Failure(500, "Failed to delete phone"))
      case Some(p) =>
        var after := st.(phones := RemoveId(st.phones, phoneId),
                         editLogs := st.editLogs + [RemovedLog(marketId, p, Editor(user))]);
        Outcome(after, Json(FetchMarket(after, marketId)))
  }

  /** Removing one identifier from a table with unique identifiers drops at most one of a market's phones. */
  lemma RemoveIdPhonesOf(phones: seq<Phone>, id: nat, marketId: nat)
    requires UniquePhoneIds(phones)
    ensures |PhonesOf(RemoveId(phones, id), marketId)| + 1 >= |PhonesOf(phones, marketId)|
    ensures (forall p :: p in phones ==> p.id != id) ==> RemoveId(phones, id) == phones
  {
    RemoveIdCount(phones, id, marketId);
    if forall p :: p in phones ==> p.id != id {
      RemoveIdAbsent(phones, id);
    }
  }

  /** Removing an identifier no row has leaves the table as it is. */
  lemma {:induction false} RemoveIdAbsent(phones: seq<Phone>, id: nat)
    requires forall p :: p in phones ==> p.id != id
    ensures RemoveId(phones, id) == phones
  {
    if |phones| > 0 {
      assert phones[0] in phones;
      assert forall p :: p in phones[1..] ==> p in phones;
      RemoveIdAbsent(phones[1..], id);
      assert [phones[0]] + phones[1..] == phones;
    }
  }

  /** With unique identifiers, removing one costs a market at most one phone. */
  lemma {:induction false} RemoveIdCount(phones: seq<Phone>, id: nat, marketId: nat)
    requires UniquePhoneIds(phones)
    ensures |PhonesOf(RemoveId(phones, id), marketId)| + 1 >= |PhonesOf(phones, marketId)|
  {
    if |phones| > 0 {
      var t := phones[1..];
      assert UniquePhoneIds(t) by {
        forall i, j | 0 <= i < j < |t| ensures t[i].id != t[j].id {
          assert t[i] == phones[i + 1] && t[j] == phones[j + 1];
        }
      }
      if phones[0].id == id {
        forall p | p in t ensures p.id != id {
          var j :| 0 <= j < |t| && t[j] == p;
          assert phones[j + 1] == p;
        }
        RemoveIdAbsent(t, id);
        assert RemoveId(phones, id) == t;
      } else {
        RemoveIdCount(t, id, marketId);
        var r := RemoveId(t, id);
        assert RemoveId(phones, id) == [phones[0]] + r;
        assert ([phones[0]] + r)[0] == phones[0];
        assert ([phones[0]] + r)[1..] == r;
      }
    }
  }

  /**
   * Delete refuses with 400 and no write exactly when the market has at most
   * one phone. Otherwise the phone's row is gone, one log row records it, and
   * a market that had phones keeps at least one.
   */
  lemma DeleteKeepsLastPhone(st: Store, marketId: nat, phoneId: nat, user: Option<User>)
    requires UniquePhoneIds(st.phones)
    ensures var o := DeleteOutcome(st, marketId, phoneId, user);
      (o.reply == Failure(400, LastPhoneMessage) <==> |PhonesOf(st.phones, marketId)| <= 1) &&
      (o.reply.Failure? ==> o.store == st) &&
      (|PhonesOf(st.phones, marketId)| >= 1 ==> |PhonesOf(o.store.phones, marketId)| >= 1) &&
      (o.reply.Json? ==>
        (forall p :: p in o.store.phones <==> p in st.phones && p.id != phoneId) &&
        (exists p :: p in st.phones && p.id == phoneId &&
          o.store.editLogs == st.editLogs + [RemovedLog(marketId, p, Editor(user))]))
  {
    RemoveIdPhonesOf(st.phones, phoneId, marketId);
  }

  /** The delete route on the database. */
  method DeletePhoneRoute(db: Database, marketId: nat, phoneId: nat, user: Option<User>) returns (reply: Reply)
    modifies db`phones, db`editLogs
    ensures StoreOf(db) == DeleteOutcome(old(StoreOf(db)), marketId, phoneId, user).store
    ensures reply == DeleteOutcome(old(StoreOf(db)), marketId, phoneId, user).reply
  {
    var phoneCount := |PhonesOf(db.phones, marketId)|;
    if phoneCount <= 1 {
      return Failure(400, LastPhoneMessage);
    }
    var phone := FindPhone(db.phones, phoneId);
    if phone.None? {
      return Failure(500, "Failed to delete phone");
    }
    db.phones := RemoveId(db.phones, phoneId);
    db.editLogs := db.editLogs + [RemovedLog(marketId, phone.value, Editor(user))];
    reply := Json(FetchMarket(StoreOf(db), marketId));
  }
}
