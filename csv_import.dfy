/**
 * Importing parsed CSV markets into the database, as the import route and the
 * import script both do. Each market is looked up by its number. A market that
 * exists takes the parsed fields, gets an edit-log row per changed field and
 * the phones whose numbers it lacks, and, when it had no primary phone, gets
 * its first parsed phone made primary. A market that does not exist is
 * created with its phones, the first of them primary. A market whose database
 * calls throw is skipped, with its error recorded.
 */
module CsvImport {
  import opened Common
  import opened MarketRules
  import opened PhoneRules
  import opened Tables
  import opened CsvParser
  import opened CsvFile

  /**
   * Every identifier was handed out by the counter, every phone belongs to a
   * market identifier handed out before, and phone identifiers are unique.
   */
  predicate ValidStore(st: Store)
  {
    (forall i :: 0 <= i < |st.markets| ==> st.markets[i].id < st.nextId) &&
    (forall i :: 0 <= i < |st.phones| ==> st.phones[i].id < st.nextId && st.phones[i].marketId < st.nextId) &&
    UniquePhoneIds(st.phones)
  }

  /** `findUnique({ where: { marketNumber } })`: where the market with that number is. */
  function FindByNumber(markets: seq<Market>, n: int): (r: Option<nat>)
    ensures r.Some? ==> r.value < |markets| && markets[r.value].marketNumber == n &&
                        forall j :: 0 <= j < r.value ==> markets[j].marketNumber != n
    ensures r.None? <==> forall j :: 0 <= j < |markets| ==> markets[j].marketNumber != n
  {
    if |markets| == 0 then None
    else if markets[0].marketNumber == n then Some(0)
    else match FindByNumber(markets[1..], n)
      case None => None
      case Some(k) => Some(k + 1)
  }

  /** Tables with the same numbers, position by position, find the same position. */
  lemma FindByNumberSameNumbers(a: seq<Market>, b: seq<Market>, n: int)
    requires |a| == |b| && forall j :: 0 <= j < |a| ==> a[j].marketNumber == b[j].marketNumber
    ensures FindByNumber(a, n) == FindByNumber(b, n)
  {
    var ra, rb := FindByNumber(a, n), FindByNumber(b, n);
    if ra.Some? && rb.Some? {
      assert !(ra.value < rb.value) && !(rb.value < ra.value);
    }
  }

  /** A market with another number added at the end does not change where `n` is. */
  lemma FindByNumberSnoc(a: seq<Market>, x: Market, n: int)
    requires x.marketNumber != n
    ensures FindByNumber(a + [x], n) == FindByNumber(a, n)
  {
    var ra, rb := FindByNumber(a + [x], n), FindByNumber(a, n);
    assert forall j :: 0 <= j < |a| ==> (a + [x])[j] == a[j];
    if ra.Some? && rb.Some? {
      assert !(ra.value < rb.value) && !(rb.value < ra.value);
    }
  }

  /** The market's own fields as the parsed market gives them; id and number stay. */
  function WithParsedFields(e: Market, m: ParsedMarket): Market
  {
    e.(name := m.name, stationCallLetters := m.stationCallLetters, airTime := m.airTime,
       timezone := m.timezone, list := m.list)
  }

  /**
   * The edit-log rows for the fields that change, in the order name,
   * station, air time, list. A changed time zone is not logged.
   */
  function FieldLogs(e: Market, m: ParsedMarket, editor: Option<string>): seq<EditLog>
  {
    LogIf(e.name != m.name, EditLog(e.id, "name", Some(e.name), Some(m.name), editor)) +
    LogIf(e.stationCallLetters != m.stationCallLetters,
          EditLog(e.id, "stationCallLetters", OrNull(e.stationCallLetters), OrNull(m.stationCallLetters), editor)) +
    LogIf(e.airTime != m.airTime, EditLog(e.id, "airTime", Some(e.airTime), Some(m.airTime), editor)) +
    LogIf(e.list != m.list, EditLog(e.id, "list", Some(ListName(e.list)), Some(ListName(m.list)), editor))
  }

  /** The four candidate rows, one per logged field. */
  lemma FieldLogsParts(e: Market, m: ParsedMarket, editor: Option<string>)
    ensures forall l :: l in FieldLogs(e, m, editor) <==>
      (e.name != m.name && l == EditLog(e.id, "name", Some(e.name), Some(m.name), editor)) ||
      (e.stationCallLetters != m.stationCallLetters &&
       l == EditLog(e.id, "stationCallLetters", OrNull(e.stationCallLetters), OrNull(m.stationCallLetters), editor)) ||
      (e.airTime != m.airTime && l == EditLog(e.id, "airTime", Some(e.airTime), Some(m.airTime), editor)) ||
      (e.list != m.list && l == EditLog(e.id, "list", Some(ListName(e.list)), Some(ListName(m.list)), editor))
  {
    var n := LogIf(e.name != m.name, EditLog(e.id, "name", Some(e.name), Some(m.name), editor));
    var s := LogIf(e.stationCallLetters != m.stationCallLetters,
                   EditLog(e.id, "stationCallLetters", OrNull(e.stationCallLetters), OrNull(m.stationCallLetters), editor));
    var a := LogIf(e.airTime != m.airTime, EditLog(e.id, "airTime", Some(e.airTime), Some(m.airTime), editor));
    var t := LogIf(e.list != m.list, EditLog(e.id, "list", Some(ListName(e.list)), Some(ListName(m.list)), editor));
    assert FieldLogs(e, m, editor) == n + s + a + t;
  }

  /** At most four rows, each the market's, by the editor, none about the time zone. */
  lemma FieldLogsShape(e: Market, m: ParsedMarket, editor: Option<string>)
    ensures var ls := FieldLogs(e, m, editor);
      |ls| <= 4 &&
      (forall l :: l in ls ==> l.marketId == e.id && l.editedBy == editor && l.field != "timezone")
  {
    FieldLogsParts(e, m, editor);
    FieldNamesDistinct();
  }

  /** A log row for a field exists exactly when that field changes, and carries the old and the new value. */
  lemma FieldLogsExactly(e: Market, m: ParsedMarket, editor: Option<string>)
    ensures var ls := FieldLogs(e, m, editor);
      ((exists l :: l in ls && l.field == "name") <==> e.name != m.name) &&
      ((exists l :: l in ls && l.field == "stationCallLetters") <==> e.stationCallLetters != m.stationCallLetters) &&
      ((exists l :: l in ls && l.field == "airTime") <==> e.airTime != m.airTime) &&
      ((exists l :: l in ls && l.field == "list") <==> e.list != m.list) &&
      (forall l :: l in ls && l.field == "name" ==> l.oldValue == Some(e.name) && l.newValue == Some(m.name)) &&
      (forall l :: l in ls && l.field == "stationCallLetters" ==>
        l.oldValue == OrNull(e.stationCallLetters) && l.newValue == OrNull(m.stationCallLetters)) &&
      (forall l :: l in ls && l.field == "airTime" ==> l.oldValue == Some(e.airTime) && l.newValue == Some(m.airTime)) &&
      (forall l :: l in ls && l.field == "list" ==> l.oldValue == Some(ListName(e.list)) && l.newValue == Some(ListName(m.list)))
  {
    FieldLogsName(e, m, editor);
    FieldLogsStation(e, m, editor);
    FieldLogsAirTime(e, m, editor);
    FieldLogsList(e, m, editor);
  }

  lemma FieldLogsName(e: Market, m: ParsedMarket, editor: Option<string>)
    ensures (exists l :: l in FieldLogs(e, m, editor) && l.field == "name") <==> e.name != m.name
    ensures forall l :: l in FieldLogs(e, m, editor) && l.field == "name" ==> l.oldValue == Some(e.name) && l.newValue == Some(m.name)
  {
    FieldLogsParts(e, m, editor);
    FieldNamesDistinct();
    if e.name != m.name {
      assert EditLog(e.id, "name", Some(e.name), Some(m.name), editor) in FieldLogs(e, m, editor);
    }
  }

  lemma FieldLogsStation(e: Market, m: ParsedMarket, editor: Option<string>)
    ensures (exists l :: l in FieldLogs(e, m, editor) && l.field == "stationCallLetters") <==> e.stationCallLetters != m.stationCallLetters
    ensures forall l :: l in FieldLogs(e, m, editor) && l.field == "stationCallLetters" ==> l.oldValue == OrNull(e.stationCallLetters) && l.newValue == OrNull(m.stationCallLetters)
  {
    FieldLogsParts(e, m, editor);
    FieldNamesDistinct();
    if e.stationCallLetters != m.stationCallLetters {
      assert EditLog(e.id, "stationCallLetters", OrNull(e.stationCallLetters), OrNull(m.stationCallLetters), editor) in FieldLogs(e, m, editor);
    }
  }

  lemma FieldLogsAirTime(e: Market, m: ParsedMarket, editor: Option<string>)
    ensures (exists l :: l in FieldLogs(e, m, editor) && l.field == "airTime") <==> e.airTime != m.airTime
    ensures forall l :: l in FieldLogs(e, m, editor) && l.field == "airTime" ==> l.oldValue == Some(e.airTime) && l.newValue == Some(m.airTime)
  {
    FieldLogsParts(e, m, editor);
    FieldNamesDistinct();
    if e.airTime != m.airTime {
      assert EditLog(e.id, "airTime", Some(e.airTime), Some(m.airTime), editor) in FieldLogs(e, m, editor);
    }
  }

  lemma FieldLogsList(e: Market, m: ParsedMarket, editor: Option<string>)
    ensures (exists l :: l in FieldLogs(e, m, editor) && l.field == "list") <==> e.list != m.list
    ensures forall l :: l in FieldLogs(e, m, editor) && l.field == "list" ==> l.oldValue == Some(ListName(e.list)) && l.newValue == Some(ListName(m.list))
  {
    FieldLogsParts(e, m, editor);
    FieldNamesDistinct();
    if e.list != m.list {
      assert EditLog(e.id, "list", Some(ListName(e.list)), Some(ListName(m.list)), editor) in FieldLogs(e, m, editor);
    }
  }

  /** The numbers of market `marketId`'s phones. */
  function NumbersOf(phones: seq<Phone>, marketId: nat): set<string>
  {
    set p | p in phones && p.marketId == marketId :: p.number
  }

  /** The numbers of a list of phone rows. */
  function Numbers(phones: seq<Phone>): set<string>
  {
    set p | p in phones :: p.number
  }

  /** A new phone row of market `marketId` for a parsed phone. */
  function NewPhoneRow(id: nat, marketId: nat, p: ParsedPhone): Phone
  {
    Phone(id, marketId, p.labelText, p.number, p.isPrimary, 0, None)
  }

  /** Rows for the phones `ps`, in order, with identifiers from `firstId` on. */
  function PhoneRows(ps: seq<ParsedPhone>, marketId: nat, firstId: nat): (r: seq<Phone>)
    ensures |r| == |ps|
    ensures forall i :: 0 <= i < |r| ==> r[i] == NewPhoneRow(firstId + i, marketId, ps[i])
  {
    if |ps| == 0 then []
    else PhoneRows(ps[..|ps| - 1], marketId, firstId) + [NewPhoneRow(firstId + |ps| - 1, marketId, ps[|ps| - 1])]
  }

  /** The "phoneNumber" log row for a phone the import added. */
  function AddedLog(p: Phone, editor: Option<string>): EditLog
  {
    EditLog(p.marketId, "phoneNumber", None, Some(PhoneText(p.labelText, p.number)), editor)
  }

  function AddedLogs(rows: seq<Phone>, editor: Option<string>): (r: seq<EditLog>)
    ensures |r| == |rows|
    ensures forall i :: 0 <= i < |r| ==> r[i] == AddedLog(rows[i], editor)
  {
    if |rows| == 0 then []
    else AddedLogs(rows[..|rows| - 1], editor) + [AddedLog(rows[|rows| - 1], editor)]
  }

  /** Whether some phone is primary (`phones.some(p => p.isPrimary)`). */
  predicate HasPrimary(phones: seq<Phone>)
  {
    exists q :: q in phones && q.isPrimary
  }

  /** The first phone with the given number (`phones.find(p => p.number === number)`). */
  function FindNumber(phones: seq<Phone>, number: string): (r: Option<Phone>)
    ensures r.Some? ==> r.value in phones && r.value.number == number
    ensures r.None? <==> forall q :: q in phones ==> q.number != number
  {
    if |phones| == 0 then None
    else if phones[0].number == number then Some(phones[0])
    else
      assert forall q :: q in phones ==> q == phones[0] || q in phones[1..];
      FindNumber(phones[1..], number)
  }

  /**
   * The phone to make primary: only when the market had no primary phone and
   * some phone came in, the first of its old phones whose number is the first
   * parsed number.
   */
  function RepairTarget(existing: seq<Phone>, ps: seq<ParsedPhone>): (r: Option<Phone>)
    ensures r.Some? ==> r.value in existing && |ps| > 0 && r.value.number == ps[0].number && !HasPrimary(existing)
    ensures r.None? <==> HasPrimary(existing) || |ps| == 0 || forall q :: q in existing ==> q.number != ps[0].number
  {
    if |ps| == 0 || HasPrimary(existing) then None
    else FindNumber(existing, ps[0].number)
  }

  /** The phone table after the primary repair. */
  function Repair(phones: seq<Phone>, marketId: nat, existing: seq<Phone>, ps: seq<ParsedPhone>): seq<Phone>
  {
    match RepairTarget(existing, ps)
    case None => phones
    case Some(t) => SetPrimary(phones, marketId, t.id)
  }

  /** The rows added to existing market `e`: its parsed phones with numbers it had none of. */
  function AddedRows(st: Store, e: Market, m: ParsedMarket): seq<Phone>
  {
    PhoneRows(NewPhones(NumbersOf(st.phones, e.id), m.phones), e.id, st.nextId)
  }

  /** The tables after updating the market at position `k` from `m`. */
  function UpdateStore(st: Store, k: nat, m: ParsedMarket, editor: Option<string>): Store
    requires k < |st.markets|
  {
    var e := st.markets[k];
    var added := AddedRows(st, e, m);
    Store(st.markets[k := WithParsedFields(e, m)],
          Repair(st.phones + added, e.id, PhonesOf(st.phones, e.id), m.phones),
          st.editLogs + FieldLogs(e, m, editor) + AddedLogs(added, editor),
          st.nextId + |added|)
  }

  /** The phone rows of a created market: the parsed phones, the first one primary. */
  function CreatedPhones(ps: seq<ParsedPhone>, marketId: nat, firstId: nat): (r: seq<Phone>)
    ensures |r| == |ps|
  {
    seq(|ps|, i requires 0 <= i < |ps| =>
      Phone(firstId + i, marketId, ps[i].labelText, ps[i].number, ps[i].isPrimary || i == 0, 0, None))
  }

  function CreationLog(id: nat, m: ParsedMarket, editor: Option<string>): EditLog
  {
    EditLog(id, "market", None,
            Some("Created market " + IntToString(m.marketNumber) + ": " + m.name), editor)
  }

  /** The tables after creating market `m` with the next identifier, its phones with the ones after. */
  function CreateStore(st: Store, m: ParsedMarket, editor: Option<string>): Store
  {
    var id := st.nextId;
    Store(st.markets + [Market(id, m.marketNumber, m.name, m.stationCallLetters, m.airTime, m.timezone, m.list)],
          st.phones + CreatedPhones(m.phones, id, id + 1),
          st.editLogs + [CreationLog(id, m, editor)],
          id + 1 + |m.phones|)
  }

  /** What a market's database calls do: nothing special, or throw with a message. */
  type Failures = int -> Option<string>

  datatype ImportError = ImportError(marketNumber: int, error: string)

  datatype Outcome = Created | Updated | Skipped(error: ImportError)

  /** `error.message || "Unknown error"`. */
  function ErrorText(message: string): (r: string)
    ensures r != ""
  {
    if message == "" then "Unknown error" else message
  }

  /** How one market is counted. */
  function StepOutcome(st: Store, m: ParsedMarket, failures: Failures): Outcome
  {
    match failures(m.marketNumber)
    case Some(message) => Skipped(ImportError(m.marketNumber, ErrorText(message)))
    case None => if FindByNumber(st.markets, m.marketNumber).Some? then Updated else Created
  }

  /** The tables after one market; a dry run and a throwing market change nothing. */
  function StepStore(st: Store, m: ParsedMarket, dryRun: bool, editor: Option<string>, failures: Failures): Store
  {
    if failures(m.marketNumber).Some? || dryRun then st
    else match FindByNumber(st.markets, m.marketNumber)
      case Some(k) => UpdateStore(st, k, m, editor)
      case None => CreateStore(st, m, editor)
  }

  datatype Tally = Tally(created: nat, updated: nat, skipped: nat, errors: seq<ImportError>)

  function Count(t: Tally, o: Outcome): Tally
  {
    match o
    case Created => t.(created := t.created + 1)
    case Updated => t.(updated := t.updated + 1)
    case Skipped(err) => t.(skipped := t.skipped + 1, errors := t.errors + [err])
  }

  datatype Run = Run(store: Store, tally: Tally)

  /** The tables and the counts after the markets `ms`, in order. */
  function ImportAll(st: Store, ms: seq<ParsedMarket>, dryRun: bool, editor: Option<string>, failures: Failures): Run
  {
    if |ms| == 0 then Run(st, Tally(0, 0, 0, []))
    else
      var before := ImportAll(st, ms[..|ms| - 1], dryRun, editor, failures);
      var m := ms[|ms| - 1];
      Run(StepStore(before.store, m, dryRun, editor, failures),
          Count(before.tally, StepOutcome(before.store, m, failures)))
  }

  predicate Fails(failures: Failures, m: ParsedMarket)
  {
    failures(m.marketNumber).Some?
  }

  // ----- What one market does -----

  /** Only the market's own fields change, not its position, identifier or number. */
  lemma UpdateMarketRow(st: Store, k: nat, m: ParsedMarket, editor: Option<string>)
    requires k < |st.markets|
    ensures var e := st.markets[k];
      var r := UpdateStore(st, k, m, editor).markets;
      |r| == |st.markets| && r[k] == WithParsedFields(e, m) &&
      r[k].id == e.id && r[k].marketNumber == e.marketNumber &&
      r[k].name == m.name && r[k].stationCallLetters == m.stationCallLetters && r[k].airTime == m.airTime &&
      r[k].timezone == m.timezone && r[k].list == m.list &&
      (forall j :: 0 <= j < |r| && j != k ==> r[j] == st.markets[j])
  {
  }

  /** The repair changes at most primary flags, and only of the market's phones. */
  lemma RepairKeeps(phones: seq<Phone>, marketId: nat, existing: seq<Phone>, ps: seq<ParsedPhone>)
    requires UniquePhoneIds(phones)
    requires forall q :: q in existing ==> q in phones && q.marketId == marketId
    ensures var r := Repair(phones, marketId, existing, ps);
      |r| == |phones| &&
      (forall i :: 0 <= i < |r| ==> r[i] == phones[i].(isPrimary := r[i].isPrimary)) &&
      (forall i :: 0 <= i < |r| && phones[i].marketId != marketId ==> r[i] == phones[i])
  {
    match RepairTarget(existing, ps) {
      case None =>
      case Some(t) =>
        var j :| 0 <= j < |phones| && phones[j] == t;
        forall i | 0 <= i < |phones| && phones[i].marketId != marketId
          ensures phones[i].id != t.id
        {
          assert i != j;
        }
    }
  }

  /**
   * Updating an existing market keeps every phone row it had, changing at
   * most the primary flag and only for that market's phones; the added rows
   * come after them, belong to the market and have fresh identifiers.
   */
  lemma UpdateKeepsPhones(st: Store, k: nat, m: ParsedMarket, editor: Option<string>)
    requires ValidStore(st) && k < |st.markets|
    ensures var e := st.markets[k];
      var r := UpdateStore(st, k, m, editor);
      |r.phones| >= |st.phones| &&
      (forall i :: 0 <= i < |st.phones| ==> r.phones[i] == st.phones[i].(isPrimary := r.phones[i].isPrimary)) &&
      (forall i :: 0 <= i < |st.phones| && st.phones[i].marketId != e.id ==> r.phones[i] == st.phones[i]) &&
      (forall i :: |st.phones| <= i < |r.phones| ==> r.phones[i].marketId == e.id && r.phones[i].id == st.nextId + (i - |st.phones|)) &&
      r.nextId == st.nextId + (|r.phones| - |st.phones|)
  {
    var e := st.markets[k];
    var added := AddedRows(st, e, m);
    var existing := PhonesOf(st.phones, e.id);
    FreshRowsValid(st.phones, added, st.nextId, |added|);
    AppendRepair(st.phones, added, e.id, existing, m.phones, st.nextId);
    assert UpdateStore(st, k, m, editor).phones == Repair(st.phones + added, e.id, existing, m.phones);
  }

  /** The repair on a table with fresh rows of the market appended. */
  lemma AppendRepair(phones: seq<Phone>, added: seq<Phone>, marketId: nat, existing: seq<Phone>, ps: seq<ParsedPhone>, nextId: nat)
    requires UniquePhoneIds(phones + added)
    requires forall q :: q in existing ==> q in phones && q.marketId == marketId
    requires forall i :: 0 <= i < |added| ==> added[i].marketId == marketId && added[i].id == nextId + i
    ensures var r := Repair(phones + added, marketId, existing, ps);
      |r| == |phones| + |added| &&
      (forall i :: 0 <= i < |phones| ==> r[i] == phones[i].(isPrimary := r[i].isPrimary)) &&
      (forall i :: 0 <= i < |phones| && phones[i].marketId != marketId ==> r[i] == phones[i]) &&
      (forall i :: |phones| <= i < |r| ==> r[i].marketId == marketId && r[i].id == nextId + (i - |phones|))
  {
    var all := phones + added;
    assert forall i :: 0 <= i < |phones| ==> all[i] == phones[i];
    assert forall i :: |phones| <= i < |all| ==> all[i] == added[i - |phones|];
    RepairKeeps(all, marketId, existing, ps);
  }

  /** The primary flag never moves a phone's number or market. */
  lemma SetPrimaryNumbers(phones: seq<Phone>, marketId: nat, id: nat)
    ensures NumbersOf(SetPrimary(phones, marketId, id), marketId) == NumbersOf(phones, marketId)
  {
    var r := SetPrimary(phones, marketId, id);
    forall x | x in NumbersOf(phones, marketId)
      ensures x in NumbersOf(r, marketId)
    {
      var i :| 0 <= i < |phones| && phones[i].marketId == marketId && phones[i].number == x;
      assert r[i] in r;
    }
    forall x | x in NumbersOf(r, marketId)
      ensures x in NumbersOf(phones, marketId)
    {
      var i :| 0 <= i < |r| && r[i].marketId == marketId && r[i].number == x;
      assert phones[i] in phones;
    }
  }

  /** Rows appended for the market add exactly their numbers. */
  lemma NumbersOfAppend(phones: seq<Phone>, rows: seq<Phone>, marketId: nat)
    requires forall q :: q in rows ==> q.marketId == marketId
    ensures NumbersOf(phones + rows, marketId) == NumbersOf(phones, marketId) + Numbers(rows)
  {
  }

  /** The numbers of the added rows are the parsed phones' numbers. */
  lemma PhoneRowsNumbers(ps: seq<ParsedPhone>, marketId: nat, firstId: nat)
    ensures Numbers(PhoneRows(ps, marketId, firstId)) == PhoneNumbers(ps)
  {
    var r := PhoneRows(ps, marketId, firstId);
    forall x | x in PhoneNumbers(ps)
      ensures x in Numbers(r)
    {
      var i :| 0 <= i < |ps| && ps[i].number == x;
      assert r[i] in r;
    }
  }

  /**
   * After an update the market has exactly the numbers it had and the
   * parsed ones: no phone is removed and no number is added twice from the
   * table.
   */
  lemma UpdatePhoneNumbers(st: Store, k: nat, m: ParsedMarket, editor: Option<string>)
    requires k < |st.markets|
    ensures var e := st.markets[k];
      NumbersOf(UpdateStore(st, k, m, editor).phones, e.id) == NumbersOf(st.phones, e.id) + PhoneNumbers(m.phones)
  {
    var e := st.markets[k];
    var known := NumbersOf(st.phones, e.id);
    var incoming := NewPhones(known, m.phones);
    var added := AddedRows(st, e, m);
    NumbersOfAppend(st.phones, added, e.id);
    PhoneRowsNumbers(incoming, e.id, st.nextId);
    NewPhonesNumbers(known, m.phones);
    match RepairTarget(PhonesOf(st.phones, e.id), m.phones) {
      case None =>
      case Some(t) =>
        SetPrimaryNumbers(st.phones + added, e.id, t.id);
    }
  }

  /** The known numbers computed from the market's phone list are its numbers in the table. */
  lemma NumbersOfPhonesOf(phones: seq<Phone>, marketId: nat)
    ensures Numbers(PhonesOf(phones, marketId)) == NumbersOf(phones, marketId)
  {
  }

  /** Appended rows with fresh identifiers keep the table valid. */
  lemma FreshRowsValid(phones: seq<Phone>, rows: seq<Phone>, nextId: nat, n: nat)
    requires UniquePhoneIds(phones) && forall i :: 0 <= i < |phones| ==> phones[i].id < nextId
    requires |rows| == n && forall i :: 0 <= i < n ==> rows[i].id == nextId + i
    ensures UniquePhoneIds(phones + rows)
  {
    var all := phones + rows;
    forall i, j | 0 <= i < j < |all|
      ensures all[i].id != all[j].id
    {
      if j < |phones| {
        assert all[i] == phones[i] && all[j] == phones[j];
      } else if i < |phones| {
        assert all[i] == phones[i] && all[j] == rows[j - |phones|];
      } else {
        assert all[i] == rows[i - |phones|] && all[j] == rows[j - |phones|];
      }
    }
  }

  /**
   * The primary repair: when the market had no primary phone and its first
   * parsed number was already one of its phones, that phone becomes its only
   * primary phone (identifiers stay distinct). Otherwise no old phone's flag
   * changes.
   */
  lemma UpdateRepairsPrimary(st: Store, k: nat, m: ParsedMarket, editor: Option<string>)
    requires k < |st.markets|
    ensures var e := st.markets[k];
      var r := UpdateStore(st, k, m, editor).phones;
      var target := RepairTarget(PhonesOf(st.phones, e.id), m.phones);
      (target.Some? ==>
        target.value in st.phones && target.value.marketId == e.id && target.value.number == m.phones[0].number &&
        forall j :: 0 <= j < |r| && r[j].marketId == e.id ==> (r[j].isPrimary <==> r[j].id == target.value.id)) &&
      (target.None? ==> forall i :: 0 <= i < |st.phones| ==> r[i] == st.phones[i])
  {
    var e := st.markets[k];
    var all := st.phones + AddedRows(st, e, m);
    var existing := PhonesOf(st.phones, e.id);
    assert UpdateStore(st, k, m, editor).phones == Repair(all, e.id, existing, m.phones);
    match RepairTarget(existing, m.phones) {
      case None =>
        assert forall i :: 0 <= i < |st.phones| ==> all[i] == st.phones[i];
      case Some(t) =>
        assert t in existing;
    }
  }

  /**
   * A created market comes last, with the next identifier and the parsed
   * fields, and gets one "market" log row.
   */
  lemma CreateMarketRow(st: Store, m: ParsedMarket, editor: Option<string>)
    ensures var r := CreateStore(st, m, editor);
      |r.markets| == |st.markets| + 1 &&
      r.markets[..|st.markets|] == st.markets &&
      r.markets[|st.markets|] == Market(st.nextId, m.marketNumber, m.name, m.stationCallLetters, m.airTime, m.timezone, m.list) &&
      r.editLogs == st.editLogs + [CreationLog(st.nextId, m, editor)]
  {
    var r := CreateStore(st, m, editor);
    assert r.markets[..|st.markets|] == st.markets;
  }

  /** The created rows are the parsed phones in order, the first one primary and the others with their parsed flag. */
  lemma CreatedPhonesFacts(ps: seq<ParsedPhone>, marketId: nat, firstId: nat)
    ensures var r := CreatedPhones(ps, marketId, firstId);
      (forall i :: 0 <= i < |r| ==>
        r[i].marketId == marketId && r[i].id == firstId + i &&
        r[i].labelText == ps[i].labelText && r[i].number == ps[i].number &&
        r[i].isPrimary == (ps[i].isPrimary || i == 0)) &&
      (|r| > 0 ==> r[0].isPrimary)
  {
  }

  /** In a valid store, the created market's phones are exactly the created rows. */
  lemma CreateOwnPhones(st: Store, m: ParsedMarket, editor: Option<string>)
    requires ValidStore(st)
    ensures PhonesOf(st.phones, st.nextId) == []
    ensures PhonesOf(CreateStore(st, m, editor).phones, st.nextId) == CreatedPhones(m.phones, st.nextId, st.nextId + 1)
  {
    assert forall i :: 0 <= i < |st.phones| ==> st.phones[i].marketId < st.nextId;
    NewMarketPhones(st.phones, m.phones, st.nextId);
  }

  lemma NewMarketPhones(phones: seq<Phone>, ps: seq<ParsedPhone>, id: nat)
    requires forall i :: 0 <= i < |phones| ==> phones[i].marketId < id
    ensures PhonesOf(phones, id) == []
    ensures PhonesOf(phones + CreatedPhones(ps, id, id + 1), id) == CreatedPhones(ps, id, id + 1)
  {
    var rows := CreatedPhones(ps, id, id + 1);
    CreatedPhonesFacts(ps, id, id + 1);
    PhonesOfAppend(phones, rows, id);
    PhonesOfOwn(rows, id);
    PhonesOfNone(phones, id);
    assert [] + rows == rows;
  }

  /** Every step keeps the identifiers valid. */
  lemma StepKeepsValid(st: Store, m: ParsedMarket, dryRun: bool, editor: Option<string>, failures: Failures)
    requires ValidStore(st)
    ensures ValidStore(StepStore(st, m, dryRun, editor, failures))
    ensures StepStore(st, m, dryRun, editor, failures).nextId >= st.nextId
  {
    if !(failures(m.marketNumber).Some? || dryRun) {
      match FindByNumber(st.markets, m.marketNumber) {
        case Some(k) =>
          UpdateKeepsValid(st, k, m, editor);
        case None =>
          CreateKeepsValid(st, m, editor);
      }
    }
  }

  lemma UpdateKeepsValid(st: Store, k: nat, m: ParsedMarket, editor: Option<string>)
    requires ValidStore(st) && k < |st.markets|
    ensures ValidStore(UpdateStore(st, k, m, editor)) && UpdateStore(st, k, m, editor).nextId >= st.nextId
  {
    var e := st.markets[k];
    var added := AddedRows(st, e, m);
    var all := st.phones + added;
    var existing := PhonesOf(st.phones, e.id);
    FreshRowsValid(st.phones, added, st.nextId, |added|);
    AppendRepair(st.phones, added, e.id, existing, m.phones, st.nextId);
    var r := Repair(all, e.id, existing, m.phones);
    assert UpdateStore(st, k, m, editor).phones == r;
    assert forall i :: 0 <= i < |r| ==> r[i].id == all[i].id;
    SameIdsUnique(all, r);
  }

  /** Rows with the same identifiers, position by position, are as distinct as they were. */
  lemma SameIdsUnique(a: seq<Phone>, b: seq<Phone>)
    requires UniquePhoneIds(a) && |a| == |b|
    requires forall i :: 0 <= i < |b| ==> b[i].id == a[i].id
    ensures UniquePhoneIds(b)
  {
  }

  lemma CreateKeepsValid(st: Store, m: ParsedMarket, editor: Option<string>)
    requires ValidStore(st)
    ensures ValidStore(CreateStore(st, m, editor)) && CreateStore(st, m, editor).nextId >= st.nextId
  {
    var rows := CreatedPhones(m.phones, st.nextId, st.nextId + 1);
    assert forall i :: 0 <= i < |st.phones| ==> st.phones[i].id < st.nextId + 1;
    FreshRowsValid(st.phones, rows, st.nextId + 1, |rows|);
  }

  // ----- What a whole import does -----

  /**
   * The counts: every market is created, updated or skipped; one error per
   * skipped market, and the skipped markets are exactly those whose calls
   * threw.
   */
  lemma {:induction false} ImportAllTally(st: Store, ms: seq<ParsedMarket>, dryRun: bool, editor: Option<string>, failures: Failures)
    ensures var t := ImportAll(st, ms, dryRun, editor, failures).tally;
      t.created + t.updated + t.skipped == |ms| &&
      |t.errors| == t.skipped &&
      t.skipped == Common.Count(ms, m => Fails(failures, m))
  {
    if |ms| > 0 {
      var init := ms[..|ms| - 1];
      var m := ms[|ms| - 1];
      assert ms == init + [m];
      ImportAllTally(st, init, dryRun, editor, failures);
      CountSnoc(init, m, m => Fails(failures, m));
    }
  }

  /** Each recorded error is a market whose calls threw, with its message or "Unknown error". */
  lemma {:induction false} ImportAllErrors(st: Store, ms: seq<ParsedMarket>, dryRun: bool, editor: Option<string>, failures: Failures)
    ensures forall err :: err in ImportAll(st, ms, dryRun, editor, failures).tally.errors ==>
      exists m :: m in ms && failures(m.marketNumber).Some? &&
        err == ImportError(m.marketNumber, ErrorText(failures(m.marketNumber).value))
  {
    if |ms| > 0 {
      var init := ms[..|ms| - 1];
      ImportAllErrors(st, init, dryRun, editor, failures);
      assert forall x :: x in init ==> x in ms;
    }
  }

  /**
   * A dry run changes no table, and counts as updated exactly the markets
   * that exist and do not throw.
   */
  lemma {:induction false} DryRunChangesNothing(st: Store, ms: seq<ParsedMarket>, editor: Option<string>, failures: Failures)
    ensures var run := ImportAll(st, ms, true, editor, failures);
      run.store == st &&
      run.tally.updated == Common.Count(ms, m => !Fails(failures, m) && FindByNumber(st.markets, m.marketNumber).Some?)
  {
    if |ms| > 0 {
      var init := ms[..|ms| - 1];
      var m := ms[|ms| - 1];
      assert ms == init + [m];
      DryRunChangesNothing(st, init, editor, failures);
      CountSnoc(init, m, m => !Fails(failures, m) && FindByNumber(st.markets, m.marketNumber).Some?);
    }
  }

  /** A real run adds one market row per created market. */
  lemma {:induction false} ImportAllGrows(st: Store, ms: seq<ParsedMarket>, editor: Option<string>, failures: Failures)
    ensures var run := ImportAll(st, ms, false, editor, failures);
      |run.store.markets| == |st.markets| + run.tally.created
  {
    if |ms| > 0 {
      ImportAllGrows(st, ms[..|ms| - 1], editor, failures);
    }
  }

  /** A step for another number does not move or change the market with number `n`. */
  lemma StepKeepsOther(st: Store, m: ParsedMarket, dryRun: bool, editor: Option<string>, failures: Failures, n: int)
    requires m.marketNumber != n
    ensures var r := StepStore(st, m, dryRun, editor, failures);
      FindByNumber(r.markets, n) == FindByNumber(st.markets, n) &&
      (FindByNumber(st.markets, n).Some? ==>
        r.markets[FindByNumber(st.markets, n).value] == st.markets[FindByNumber(st.markets, n).value])
  {
    if !(failures(m.marketNumber).Some? || dryRun) {
      match FindByNumber(st.markets, m.marketNumber) {
        case Some(k) =>
          var x := WithParsedFields(st.markets[k], m);
          assert UpdateStore(st, k, m, editor).markets == st.markets[k := x];
          UpdateKeepsOther(st.markets, k, x, n);
        case None =>
          var x := Market(st.nextId, m.marketNumber, m.name, m.stationCallLetters, m.airTime, m.timezone, m.list);
          assert CreateStore(st, m, editor).markets == st.markets + [x];
          AppendKeepsOther(st.markets, x, n);
      }
    }
  }

  /** Rewriting a row without changing its number keeps the rows with another number where they are. */
  lemma UpdateKeepsOther(markets: seq<Market>, k: nat, x: Market, n: int)
    requires k < |markets| && x.marketNumber == markets[k].marketNumber != n
    ensures FindByNumber(markets[k := x], n) == FindByNumber(markets, n)
    ensures FindByNumber(markets, n).Some? ==> markets[k := x][FindByNumber(markets, n).value] == markets[FindByNumber(markets, n).value]
  {
    FindByNumberSameNumbers(markets, markets[k := x], n);
  }

  /** Appending a row with another number keeps the rows with that number where they are. */
  lemma AppendKeepsOther(markets: seq<Market>, x: Market, n: int)
    requires x.marketNumber != n
    ensures FindByNumber(markets + [x], n) == FindByNumber(markets, n)
    ensures FindByNumber(markets, n).Some? ==> (markets + [x])[FindByNumber(markets, n).value] == markets[FindByNumber(markets, n).value]
  {
    FindByNumberSnoc(markets, x, n);
  }

  /** The step for a market that does not throw leaves a market with its number and fields. */
  lemma StepApplies(st: Store, m: ParsedMarket, editor: Option<string>, failures: Failures)
    requires failures(m.marketNumber).None?
    ensures var r := StepStore(st, m, false, editor, failures);
      var k := FindByNumber(r.markets, m.marketNumber);
      k.Some? && r.markets[k.value] == WithParsedFields(r.markets[k.value], m)
  {
    match FindByNumber(st.markets, m.marketNumber) {
      case Some(k) =>
        var r := UpdateStore(st, k, m, editor);
        UpdateMarketRow(st, k, m, editor);
        FindByNumberSameNumbers(st.markets, r.markets, m.marketNumber);
      case None =>
        var r := CreateStore(st, m, editor);
        assert r.markets[|st.markets|].marketNumber == m.marketNumber;
        assert forall j :: 0 <= j < |st.markets| ==> r.markets[j] == st.markets[j];
    }
  }

  /** A market's fields are as the parsed market gives them. */
  predicate HoldsFields(markets: seq<Market>, m: ParsedMarket)
  {
    match FindByNumber(markets, m.marketNumber)
    case None => false
    case Some(k) => markets[k] == WithParsedFields(markets[k], m)
  }

  /**
   * After a real import of markets with distinct numbers, every market that
   * did not throw is in the table under its number with its parsed name,
   * station, air time, time zone and list.
   */
  lemma {:induction false} ImportAllApplies(st: Store, ms: seq<ParsedMarket>, editor: Option<string>, failures: Failures)
    requires forall i, j :: 0 <= i < j < |ms| ==> ms[i].marketNumber != ms[j].marketNumber
    ensures var r := ImportAll(st, ms, false, editor, failures).store;
      forall i :: 0 <= i < |ms| && failures(ms[i].marketNumber).None? ==> HoldsFields(r.markets, ms[i])
  {
    if |ms| > 0 {
      var init := ms[..|ms| - 1];
      var m := ms[|ms| - 1];
      ImportAllApplies(st, init, editor, failures);
      var before := ImportAll(st, init, false, editor, failures).store;
      var r := StepStore(before, m, false, editor, failures);
      forall i | 0 <= i < |ms| && failures(ms[i].marketNumber).None?
        ensures HoldsFields(r.markets, ms[i])
      {
        if i == |ms| - 1 {
          StepApplies(before, m, editor, failures);
        } else {
          assert ms[i] == init[i];
          StepKeepsOther(before, m, false, editor, failures, ms[i].marketNumber);
        }
      }
    }
  }

  /** Every import keeps the identifiers valid. */
  lemma {:induction false} ImportAllValid(st: Store, ms: seq<ParsedMarket>, dryRun: bool, editor: Option<string>, failures: Failures)
    requires ValidStore(st)
    ensures ValidStore(ImportAll(st, ms, dryRun, editor, failures).store)
  {
    if |ms| > 0 {
      var init := ms[..|ms| - 1];
      ImportAllValid(st, init, dryRun, editor, failures);
      StepKeepsValid(ImportAll(st, init, dryRun, editor, failures).store, ms[|ms| - 1], dryRun, editor, failures);
    }
  }

  // ----- The import on the database -----

  /** The four field checks of an update, each writing a log row when its field changes. */
  method LogFieldChanges(db: Database, e: Market, m: ParsedMarket, editor: Option<string>)
    modifies db`editLogs
    ensures db.editLogs == old(db.editLogs) + FieldLogs(e, m, editor)
  {
    ghost var logs0 := db.editLogs;
    ghost var n := LogIf(e.name != m.name, EditLog(e.id, "name", Some(e.name), Some(m.name), editor));
    ghost var c := LogIf(e.stationCallLetters != m.stationCallLetters,
                         EditLog(e.id, "stationCallLetters", OrNull(e.stationCallLetters), OrNull(m.stationCallLetters), editor));
    ghost var a := LogIf(e.airTime != m.airTime, EditLog(e.id, "airTime", Some(e.airTime), Some(m.airTime), editor));
    ghost var t := LogIf(e.list != m.list, EditLog(e.id, "list", Some(ListName(e.list)), Some(ListName(m.list)), editor));
    if e.name != m.name {
      db.editLogs := db.editLogs + [EditLog(e.id, "name", Some(e.name), Some(m.name), editor)];
    } else {
      assert logs0 + [] == logs0;
    }
    assert db.editLogs == logs0 + n;
    ghost var logs1 := db.editLogs;
    if e.stationCallLetters != m.stationCallLetters {
      db.editLogs := db.editLogs +
        [EditLog(e.id, "stationCallLetters", OrNull(e.stationCallLetters), OrNull(m.stationCallLetters), editor)];
    } else {
      assert logs1 + [] == logs1;
    }
    assert db.editLogs == logs1 + c;
    ghost var logs2 := db.editLogs;
    if e.airTime != m.airTime {
      db.editLogs := db.editLogs + [EditLog(e.id, "airTime", Some(e.airTime), Some(m.airTime), editor)];
    } else {
      assert logs2 + [] == logs2;
    }
    assert db.editLogs == logs2 + a;
    ghost var logs3 := db.editLogs;
    if e.list != m.list {
      db.editLogs := db.editLogs + [EditLog(e.id, "list", Some(ListName(e.list)), Some(ListName(m.list)), editor)];
    } else {
      assert logs3 + [] == logs3;
    }
    assert db.editLogs == logs3 + t;
    FieldLogsJoin(logs0, n, c, a, t);
  }

  /** Appending four parts one by one is appending them joined. */
  lemma FieldLogsJoin(logs0: seq<EditLog>, n: seq<EditLog>, c: seq<EditLog>, a: seq<EditLog>, t: seq<EditLog>)
    ensures logs0 + n + c + a + t == logs0 + (n + c + a + t)
  {
  }

  /** One more parsed phone adds itself to the new phones exactly when its number is not known. */
  lemma NewPhonesStep(known: set<string>, ps: seq<ParsedPhone>, i: nat)
    requires i < |ps| && ps[i].number !in known
    ensures NewPhones(known, ps[..i + 1]) == NewPhones(known, ps[..i]) + [ps[i]]
  {
    PrefixOfPrefix(ps, i);
  }

  /** A parsed phone whose number is known leaves the new phones as they were. */
  lemma NewPhonesSame(known: set<string>, ps: seq<ParsedPhone>, i: nat)
    requires i < |ps| && ps[i].number in known
    ensures NewPhones(known, ps[..i + 1]) == NewPhones(known, ps[..i])
  {
    PrefixOfPrefix(ps, i);
    assert NewPhones(known, ps[..i]) + [] == NewPhones(known, ps[..i]);
  }

  lemma PhoneRowsSnoc(ps: seq<ParsedPhone>, p: ParsedPhone, marketId: nat, firstId: nat)
    ensures PhoneRows(ps + [p], marketId, firstId) == PhoneRows(ps, marketId, firstId) + [NewPhoneRow(firstId + |ps|, marketId, p)]
  {
    assert (ps + [p])[..|ps|] == ps;
  }

  lemma AddedLogsSnoc(rows: seq<Phone>, row: Phone, editor: Option<string>)
    ensures AddedLogs(rows + [row], editor) == AddedLogs(rows, editor) + [AddedLog(row, editor)]
  {
    assert (rows + [row])[..|rows|] == rows;
  }

  /**
   * One iteration of the phone loop of an update, from phones `ps`, logs `ls`
   * and next id `n` to `ps2`, `ls2`, `n2`: a parsed phone whose number the
   * market lacked becomes a phone row with the next id and a log row.
   */
  predicate AddStep(known: set<string>, p: ParsedPhone, marketId: nat, editor: Option<string>,
                    ps: seq<Phone>, ls: seq<EditLog>, n: nat, ps2: seq<Phone>, ls2: seq<EditLog>, n2: nat)
  {
    if p.number in known then ps2 == ps && ls2 == ls && n2 == n
    else
      ps2 == ps + [NewPhoneRow(n, marketId, p)] &&
      ls2 == ls + [AddedLog(NewPhoneRow(n, marketId, p), editor)] &&
      n2 == n + 1
  }

  /** The step of the phone loop, on the database. */
  method AddPhone(db: Database, known: set<string>, p: ParsedPhone, marketId: nat, editor: Option<string>)
    modifies db`phones, db`editLogs, db`nextId
    ensures AddStep(known, p, marketId, editor, old(db.phones), old(db.editLogs), old(db.nextId), db.phones, db.editLogs, db.nextId)
  {
    if p.number !in known {
      var id := db.FreshId();
      var row := NewPhoneRow(id, marketId, p);
      db.phones := db.phones + [row];
      db.editLogs := db.editLogs + [AddedLog(row, editor)];
    }
  }

  /** A step from the state after parsed phones `qs[..i]` reaches the state after `qs[..i + 1]`. */
  lemma AddStepExtends(known: set<string>, qs: seq<ParsedPhone>, i: nat, marketId: nat, editor: Option<string>,
                       phones0: seq<Phone>, logs0: seq<EditLog>, id0: nat,
                       ps: seq<Phone>, ls: seq<EditLog>, n: nat, ps2: seq<Phone>, ls2: seq<EditLog>, n2: nat)
    requires i < |qs|
    requires n == id0 + |NewPhones(known, qs[..i])|
    requires ps == phones0 + PhoneRows(NewPhones(known, qs[..i]), marketId, id0)
    requires ls == logs0 + AddedLogs(PhoneRows(NewPhones(known, qs[..i]), marketId, id0), editor)
    requires AddStep(known, qs[i], marketId, editor, ps, ls, n, ps2, ls2, n2)
    ensures n2 == id0 + |NewPhones(known, qs[..i + 1])|
    ensures ps2 == phones0 + PhoneRows(NewPhones(known, qs[..i + 1]), marketId, id0)
    ensures ls2 == logs0 + AddedLogs(PhoneRows(NewPhones(known, qs[..i + 1]), marketId, id0), editor)
  {
    if qs[i].number in known {
      NewPhonesSame(known, qs, i);
    } else {
      AddStepAdds(known, qs, i, marketId, editor, phones0, logs0, id0, ps, ls, n);
    }
  }

  /** A parsed phone with a new number adds its row, with the next id, and its log row. */
  lemma AddStepAdds(known: set<string>, qs: seq<ParsedPhone>, i: nat, marketId: nat, editor: Option<string>,
                    phones0: seq<Phone>, logs0: seq<EditLog>, id0: nat, ps: seq<Phone>, ls: seq<EditLog>, n: nat)
    requires i < |qs| && qs[i].number !in known
    requires n == id0 + |NewPhones(known, qs[..i])|
    requires ps == phones0 + PhoneRows(NewPhones(known, qs[..i]), marketId, id0)
    requires ls == logs0 + AddedLogs(PhoneRows(NewPhones(known, qs[..i]), marketId, id0), editor)
    ensures n + 1 == id0 + |NewPhones(known, qs[..i + 1])|
    ensures ps + [NewPhoneRow(n, marketId, qs[i])] == phones0 + PhoneRows(NewPhones(known, qs[..i + 1]), marketId, id0)
    ensures ls + [AddedLog(NewPhoneRow(n, marketId, qs[i]), editor)] ==
      logs0 + AddedLogs(PhoneRows(NewPhones(known, qs[..i + 1]), marketId, id0), editor)
  {
    NewPhonesStep(known, qs, i);
    RowsStep(NewPhones(known, qs[..i]), qs[i], marketId, id0, editor, phones0, logs0, NewPhoneRow(n, marketId, qs[i]));
  }

  /** The phone loop of an update: a phone row and a log row per parsed phone whose number the market lacked. */
  method AddPhones(db: Database, known: set<string>, ps: seq<ParsedPhone>, marketId: nat, editor: Option<string>)
    modifies db`phones, db`editLogs, db`nextId
    ensures db.phones == old(db.phones) + PhoneRows(NewPhones(known, ps), marketId, old(db.nextId))
    ensures db.editLogs == old(db.editLogs) + AddedLogs(PhoneRows(NewPhones(known, ps), marketId, old(db.nextId)), editor)
    ensures db.nextId == old(db.nextId) + |NewPhones(known, ps)|
  {
    ghost var phones0, logs0, id0 := db.phones, db.editLogs, db.nextId;
    assert ps[..0] == [];
    var i := 0;
    while i < |ps|
      invariant 0 <= i <= |ps|
      invariant db.nextId == id0 + |NewPhones(known, ps[..i])|
      invariant db.phones == phones0 + PhoneRows(NewPhones(known, ps[..i]), marketId, id0)
      invariant db.editLogs == logs0 + AddedLogs(PhoneRows(NewPhones(known, ps[..i]), marketId, id0), editor)
    {
      AddPhoneAt(db, known, ps, i, marketId, editor, phones0, logs0, id0);
      i := i + 1;
    }
    assert ps[..|ps|] == ps;
  }

  /** The i-th step of the phone loop, taking the loop's state at i to its state at i + 1. */
  method AddPhoneAt(db: Database, known: set<string>, ps: seq<ParsedPhone>, i: nat, marketId: nat, editor: Option<string>,
                    ghost phones0: seq<Phone>, ghost logs0: seq<EditLog>, ghost id0: nat)
    requires i < |ps|
    requires db.nextId == id0 + |NewPhones(known, ps[..i])|
    requires db.phones == phones0 + PhoneRows(NewPhones(known, ps[..i]), marketId, id0)
    requires db.editLogs == logs0 + AddedLogs(PhoneRows(NewPhones(known, ps[..i]), marketId, id0), editor)
    modifies db`phones, db`editLogs, db`nextId
    ensures db.nextId == id0 + |NewPhones(known, ps[..i + 1])|
    ensures db.phones == phones0 + PhoneRows(NewPhones(known, ps[..i + 1]), marketId, id0)
    ensures db.editLogs == logs0 + AddedLogs(PhoneRows(NewPhones(known, ps[..i + 1]), marketId, id0), editor)
  {
    ghost var phonesBefore, logsBefore, idBefore := db.phones, db.editLogs, db.nextId;
    AddPhone(db, known, ps[i], marketId, editor);
    AddStepExtends(known, ps, i, marketId, editor, phones0, logs0, id0,
                   phonesBefore, logsBefore, idBefore, db.phones, db.editLogs, db.nextId);
  }

  /** One more new phone adds one phone row and one log row. */
  lemma RowsStep(incoming: seq<ParsedPhone>, p: ParsedPhone, marketId: nat, id0: nat, editor: Option<string>,
                 phones0: seq<Phone>, logs0: seq<EditLog>, row: Phone)
    requires row == NewPhoneRow(id0 + |incoming|, marketId, p)
    ensures phones0 + PhoneRows(incoming, marketId, id0) + [row] == phones0 + PhoneRows(incoming + [p], marketId, id0)
    ensures logs0 + AddedLogs(PhoneRows(incoming, marketId, id0), editor) + [AddedLog(row, editor)]
      == logs0 + AddedLogs(PhoneRows(incoming + [p], marketId, id0), editor)
  {
    var rows := PhoneRows(incoming, marketId, id0);
    var longer := PhoneRows(incoming + [p], marketId, id0);
    PhoneRowsSnoc(incoming, p, marketId, id0);
    AddedLogsSnoc(rows, row, editor);
    AppendSnoc(phones0, rows, row, longer);
    AppendSnoc(logs0, AddedLogs(rows, editor), AddedLog(row, editor), AddedLogs(longer, editor));
  }

  /** The update of an existing market: fields, field logs, added phones, primary repair. */
  method UpdateMarket(db: Database, k: nat, m: ParsedMarket, editor: Option<string>)
    requires k < |db.markets|
    modifies db`markets, db`phones, db`editLogs, db`nextId
    ensures StoreOf(db) == UpdateStore(old(StoreOf(db)), k, m, editor)
  {
    ghost var st := StoreOf(db);
    var e := db.markets[k];
    db.markets := db.markets[k := WithParsedFields(e, m)];
    LogFieldChanges(db, e, m, editor);
    UpdatePhones(db, e, m, editor);
    AppendAssoc(st.editLogs, FieldLogs(e, m, editor), AddedLogs(AddedRows(st, e, m), editor));
    UpdateStoreIs(st, k, m, editor, db.markets, db.phones, db.editLogs, db.nextId);
  }

  /** The phone part of an update: the phones with new numbers added, then the primary repair. */
  method UpdatePhones(db: Database, e: Market, m: ParsedMarket, editor: Option<string>)
    modifies db`phones, db`editLogs, db`nextId
    ensures db.phones == Repair(old(db.phones) + PhoneRows(NewPhones(NumbersOf(old(db.phones), e.id), m.phones), e.id, old(db.nextId)),
                                e.id, PhonesOf(old(db.phones), e.id), m.phones)
    ensures db.editLogs == old(db.editLogs) + AddedLogs(PhoneRows(NewPhones(NumbersOf(old(db.phones), e.id), m.phones), e.id, old(db.nextId)), editor)
    ensures db.nextId == old(db.nextId) + |NewPhones(NumbersOf(old(db.phones), e.id), m.phones)|
  {
    var existing := PhonesOf(db.phones, e.id);
    var known := Numbers(existing);
    NumbersOfPhonesOf(db.phones, e.id);
    AddPhones(db, known, m.phones, e.id, editor);
    var target := RepairTarget(existing, m.phones);
    if target.Some? {
      db.phones := SetPrimary(db.phones, e.id, target.value.id);
    }
  }

  /** The four tables that make up an update's result. */
  lemma UpdateStoreIs(st: Store, k: nat, m: ParsedMarket, editor: Option<string>,
                      markets: seq<Market>, phones: seq<Phone>, logs: seq<EditLog>, n: nat)
    requires k < |st.markets|
    requires markets == st.markets[k := WithParsedFields(st.markets[k], m)]
    requires phones == Repair(st.phones + AddedRows(st, st.markets[k], m), st.markets[k].id, PhonesOf(st.phones, st.markets[k].id), m.phones)
    requires logs == st.editLogs + FieldLogs(st.markets[k], m, editor) + AddedLogs(AddedRows(st, st.markets[k], m), editor)
    requires n == st.nextId + |AddedRows(st, st.markets[k], m)|
    ensures Store(markets, phones, logs, n) == UpdateStore(st, k, m, editor)
  {
  }

  /** The creation of a missing market with its phones, and its log row. */
  method CreateMarket(db: Database, m: ParsedMarket, editor: Option<string>)
    modifies db`markets, db`phones, db`editLogs, db`nextId
    ensures StoreOf(db) == CreateStore(old(StoreOf(db)), m, editor)
  {
    var id := db.FreshId();
    db.markets := db.markets + [Market(id, m.marketNumber, m.name, m.stationCallLetters, m.airTime, m.timezone, m.list)];
    var first := db.FreshIds(|m.phones|);
    db.phones := db.phones + CreatedPhones(m.phones, id, first);
    db.editLogs := db.editLogs + [CreationLog(id, m, editor)];
  }

  /** One iteration of the import loop. */
  method ImportMarket(db: Database, m: ParsedMarket, dryRun: bool, editor: Option<string>, failures: Failures)
    returns (o: Outcome)
    modifies db`markets, db`phones, db`editLogs, db`nextId
    ensures StoreOf(db) == StepStore(old(StoreOf(db)), m, dryRun, editor, failures)
    ensures o == StepOutcome(old(StoreOf(db)), m, failures)
  {
    var thrown := failures(m.marketNumber);
    if thrown.Some? {
      return Skipped(ImportError(m.marketNumber, ErrorText(thrown.value)));
    }
    var found := FindByNumber(db.markets, m.marketNumber);
    if dryRun {
      return if found.Some? then Updated else Created;
    }
    if found.Some? {
      UpdateMarket(db, found.value, m, editor);
      o := Updated;
    } else {
      CreateMarket(db, m, editor);
      o := Created;
    }
  }

  /** The import loop over the parsed markets, in order. */
  method ImportMarkets(db: Database, ms: seq<ParsedMarket>, dryRun: bool, editor: Option<string>, failures: Failures)
    returns (t: Tally)
    modifies db`markets, db`phones, db`editLogs, db`nextId
    ensures Run(StoreOf(db), t) == ImportAll(old(StoreOf(db)), ms, dryRun, editor, failures)
  {
    ghost var st0 := StoreOf(db);
    t := Tally(0, 0, 0, []);
    assert ms[..0] == [];
    for i := 0 to |ms|
      invariant Run(StoreOf(db), t) == ImportAll(st0, ms[..i], dryRun, editor, failures)
    {
      PrefixOfPrefix(ms, i);
      var o := ImportMarket(db, ms[i], dryRun, editor, failures);
      t := Count(t, o);
    }
    assert ms[..|ms|] == ms;
  }

  // ----- The route and the script -----

  /** `user?.email || "CSV Import"`. */
  function RouteEditor(user: Option<User>): (r: Option<string>)
    ensures r.Some? && r.value != ""
    ensures UserEmail(user).None? || UserEmail(user) == Some("") ==> r == Some("CSV Import")
    ensures UserEmail(user).Some? && UserEmail(user).value != "" ==> r == UserEmail(user)
  {
    Some(OrElse(UserEmail(user), "CSV Import"))
  }

  /** The response message of a dry run or a real run. */
  function Summary(dryRun: bool, t: Tally): string
  {
    if dryRun then
      "Validation complete: " + NatToString(t.created) + " would be created, " + NatToString(t.updated) + " would be updated"
    else
      "Import complete: " + NatToString(t.created) + " created, " + NatToString(t.updated) + " updated, " +
      NatToString(t.skipped) + " skipped"
  }

  datatype ImportResponse =
    | ImportRejected(code: nat, error: string)
    | ImportDone(dryRun: bool, results: Tally, message: string)

  /**
   * POST /api/import/csv: an empty body and a file the parser refuses are
   * 400s that change nothing; otherwise every parsed market goes through the
   * import loop and the counts come back.
   */
  method ImportCsvRoute(db: Database, lib: PhoneLib, csvData: string, dryRun: bool, user: Option<User>, failures: Failures)
    returns (resp: ImportResponse)
    modifies db`markets, db`phones, db`editLogs, db`nextId
    ensures csvData == "" ==> resp == ImportRejected(400, "CSV data is required") && StoreOf(db) == old(StoreOf(db))
    ensures csvData != "" && ParseCsvSpec(lib, csvData).CsvError? ==>
      resp == ImportRejected(400, "Failed to parse CSV: " + ParseCsvSpec(lib, csvData).message) &&
      StoreOf(db) == old(StoreOf(db))
    ensures csvData != "" && ParseCsvSpec(lib, csvData).CsvParsed? ==>
      var run := ImportAll(old(StoreOf(db)), ParseCsvSpec(lib, csvData).markets, dryRun, RouteEditor(user), failures);
      StoreOf(db) == run.store && resp == ImportDone(dryRun, run.tally, Summary(dryRun, run.tally))
  {
    if csvData == "" {
      return ImportRejected(400, "CSV data is required");
    }
    var parsed := ParseCsv(lib, csvData);
    if parsed.CsvError? {
      return ImportRejected(400, "Failed to parse CSV: " + parsed.message);
    }
    var t := ImportMarkets(db, parsed.markets, dryRun, RouteEditor(user), failures);
    resp := ImportDone(dryRun, t, Summary(dryRun, t));
  }

  /** What reading a file gives. */
  datatype ReadResult = ReadOk(text: string) | ReadFailed(message: string)

  /** How the script ends: an exit with status 1 and the error it reports, or the summary of a finished import. */
  datatype ScriptExit = ExitedWithError(code: nat, error: string) | Finished(results: Tally)

  const ScriptEditor: Option<string> := Some("CSV Import Script")

  /**
   * The import script: without a path argument, when the file cannot be read
   * or when the parser refuses it, it exits with status 1 before any write;
   * otherwise it runs the import loop for real, logging as the script.
   */
  method ImportScript(db: Database, lib: PhoneLib, argv: seq<string>, readFile: string -> ReadResult, failures: Failures)
    returns (exit: ScriptExit)
    modifies db`markets, db`phones, db`editLogs, db`nextId
    ensures |argv| < 3 || argv[2] == "" ==>
      exit == ExitedWithError(1, "Error: CSV file path is required") && StoreOf(db) == old(StoreOf(db))
    ensures |argv| >= 3 && argv[2] != "" && readFile(argv[2]).ReadFailed? ==>
      exit == ExitedWithError(1, "Error reading CSV file: " + readFile(argv[2]).message) && StoreOf(db) == old(StoreOf(db))
    ensures |argv| >= 3 && argv[2] != "" && readFile(argv[2]).ReadOk? ==>
      var parsed := ParseCsvSpec(lib, readFile(argv[2]).text);
      (parsed.CsvError? ==>
        exit == ExitedWithError(1, "Error parsing CSV: " + parsed.message) && StoreOf(db) == old(StoreOf(db))) &&
      (parsed.CsvParsed? ==>
        var run := ImportAll(old(StoreOf(db)), parsed.markets, false, ScriptEditor, failures);
        StoreOf(db) == run.store && exit == Finished(run.tally))
  {
    if |argv| < 3 || argv[2] == "" {
      return ExitedWithError(1, "Error: CSV file path is required");
    }
    var read := readFile(argv[2]);
    if read.ReadFailed? {
      return ExitedWithError(1, "Error reading CSV file: " + read.message);
    }
    var parsed := ParseCsv(lib, read.text);
    if parsed.CsvError? {
      return ExitedWithError(1, "Error parsing CSV: " + parsed.message);
    }
    var t := ImportMarkets(db, parsed.markets, false, ScriptEditor, failures);
    exit := Finished(t);
  }
}
