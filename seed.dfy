/**
 * The database seed: every market of the built-in list is created with an
 * Eastern air time, the time zone of its state, its feed list and two
 * generated phone numbers.
 */
module Seed {
  import opened Common
  import opened MarketRules
  import opened Tables

  /** An entry of the built-in market list. */
  datatype SeedMarket = SeedMarket(rank: nat, name: string, state: string, areaCode: string)

  // ----- generatePhone -----

  function PhonePrefix(areaCode: string): string
  {
    "+1 (" + areaCode + ") "
  }

  /** The exchange part: the suffix, zero-padded to three digits. */
  function SuffixText(suffix: nat): string
  {
    PadStart(NatToString(suffix), 3, '0')
  }

  /** The line part's value. */
  function LineNumber(suffix: nat): (r: nat)
    ensures 1000 <= r <= 9999
  {
    1000 + suffix % 9000
  }

  function GeneratePhone(areaCode: string, suffix: nat): string
  {
    PhonePrefix(areaCode) + SuffixText(suffix) + "-" + PadStart(NatToString(LineNumber(suffix)), 4, '0')
  }

  /** The suffix a generated number was made from, read back. */
  function PhoneSuffix(phone: string, areaCode: string): Option<int>
  {
    var pre := PhonePrefix(areaCode);
    if StartsWith(phone, pre) then ParseIntJs(phone[|pre|..]) else None
  }

  /** The exchange part is at least three digits and reads as the suffix. */
  lemma SuffixTextValue(suffix: nat)
    ensures |SuffixText(suffix)| >= 3 && AllDigits(SuffixText(suffix))
    ensures DigitsValue(SuffixText(suffix)) == suffix
  {
    DigitsValueOfNatToString(suffix);
    ZeroPadValue(NatToString(suffix), 3);
  }

  /** A number from 1000 to 9999 is written with four digits. */
  lemma FourDigits(x: nat)
    requires 1000 <= x <= 9999
    ensures |NatToString(x)| == 4
  {
    assert |NatToString(x / 1000)| == 1;
    assert |NatToString(x / 100)| == 2;
    assert |NatToString(x / 10)| == 3;
  }

  /**
   * The shape of a generated number: the prefix, the exchange part, a dash and
   * the four-digit line part, which is the line number written out.
   */
  lemma GeneratePhoneShape(areaCode: string, suffix: nat)
    ensures var phone := GeneratePhone(areaCode, suffix);
      StartsWith(phone, PhonePrefix(areaCode)) &&
      phone[|PhonePrefix(areaCode)|..] == SuffixText(suffix) + "-" + NatToString(LineNumber(suffix)) &&
      |NatToString(LineNumber(suffix))| == 4
  {
    FourDigits(LineNumber(suffix));
    var pre := PhonePrefix(areaCode);
    var phone := GeneratePhone(areaCode, suffix);
    var tail := SuffixText(suffix) + "-" + NatToString(LineNumber(suffix));
    assert phone == pre + tail;
  }

  /** The suffix can be read back from the number it generated. */
  lemma GeneratePhoneReadsBack(areaCode: string, suffix: nat)
    ensures PhoneSuffix(GeneratePhone(areaCode, suffix), areaCode) == Some(suffix)
  {
    GeneratePhoneShape(areaCode, suffix);
    SuffixTextValue(suffix);
    var rest := "-" + NatToString(LineNumber(suffix));
    assert SuffixText(suffix) + "-" + NatToString(LineNumber(suffix)) == SuffixText(suffix) + rest;
    ParseIntOfDigits(SuffixText(suffix), rest);
  }

  /** Within one area code, different suffixes give different numbers. */
  lemma GeneratePhoneInjective(areaCode: string, a: nat, b: nat)
    requires GeneratePhone(areaCode, a) == GeneratePhone(areaCode, b)
    ensures a == b
  {
    GeneratePhoneReadsBack(areaCode, a);
    GeneratePhoneReadsBack(areaCode, b);
  }

  // ----- getTimezone and getAirTimeAndTimezone -----

  const Eastern: seq<string> := ["NY", "NJ", "PA", "MA", "CT", "RI", "VT", "NH", "ME", "MD", "DE", "VA",
    "WV", "NC", "SC", "GA", "FL", "OH", "MI", "IN", "KY", "TN", "DC"]
  const Central: seq<string> := ["IL", "WI", "MN", "IA", "MO", "AR", "LA", "MS", "AL", "TX", "OK", "KS",
    "NE", "SD", "ND"]
  const Mountain: seq<string> := ["MT", "WY", "CO", "NM", "AZ", "UT", "ID", "NV"]
  const Pacific: seq<string> := ["WA", "OR", "CA"]
  const Alaska: seq<string> := ["AK"]
  const Hawaii: seq<string> := ["HI"]

  /** `group.some(s => state.includes(s))`. */
  predicate AnyIn(state: string, group: seq<string>)
  {
    exists k :: 0 <= k < |group| && Contains(state, group[k])
  }

  /** The first group, in the order above, one of whose codes the state contains; Eastern otherwise. */
  function GetTimezone(state: string): (r: string)
    ensures r in {"EST", "CST", "MST", "PST", "AKST", "HST"}
  {
    if AnyIn(state, Eastern) then "EST"
    else if AnyIn(state, Central) then "CST"
    else if AnyIn(state, Mountain) then "MST"
    else if AnyIn(state, Pacific) then "PST"
    else if AnyIn(state, Alaska) then "AKST"
    else if AnyIn(state, Hawaii) then "HST"
    else "EST"
  }

  datatype AirSchedule = AirSchedule(estTime: string, localTz: Option<string>)

  /** Every show airs at 10:00 PM Eastern; the local zone is kept unless it is Eastern. */
  function GetAirTimeAndTimezone(timezone: string): (r: AirSchedule)
    ensures r.estTime == "10:00 PM"
    ensures r.localTz.None? <==> timezone == "EST"
    ensures r.localTz.Some? ==> r.localTz.value == timezone
  {
    if timezone == "EST" then AirSchedule("10:00 PM", None) else AirSchedule("10:00 PM", Some(timezone))
  }

  /** A string of two characters contains another of two only when they are equal. */
  lemma ContainsTwo(s: string, t: string)
    requires |s| == 2 && |t| == 2
    ensures Contains(s, t) <==> s == t
  {
    assert !StartsWith(s[1..], t);
    assert !Contains(s[1..][1..], t);
  }

  /** Every code of a group has two letters. */
  predicate TwoLetterCodes(group: seq<string>)
  {
    forall k :: 0 <= k < |group| ==> |group[k]| == 2
  }

  /** A two-letter code is in a group exactly when a state of that code contains one of the group's. */
  lemma AnyInTwo(s: string, group: seq<string>)
    requires |s| == 2 && TwoLetterCodes(group)
    ensures AnyIn(s, group) <==> s in group
  {
    forall k | 0 <= k < |group|
      ensures Contains(s, group[k]) <==> s == group[k]
    {
      ContainsTwo(s, group[k]);
    }
  }

  /** Two groups share no code. */
  predicate Apart(a: seq<string>, b: seq<string>)
  {
    forall i, j :: 0 <= i < |a| && 0 <= j < |b| ==> a[i] != b[j]
  }

  /** The codes of a group and those of another from position lo up to hi differ. */
  predicate ApartFrom(a: seq<string>, b: seq<string>, lo: nat, hi: nat)
  {
    forall i, j :: 0 <= i < |a| && lo <= j < hi && j < |b| ==> a[i] != b[j]
  }

  lemma EasternApartCentral()
    ensures Apart(Eastern, Central)
  {
    assert ApartFrom(Eastern, Central, 0, 4);
    assert ApartFrom(Eastern, Central, 4, 8);
    assert ApartFrom(Eastern, Central, 8, 12);
    assert ApartFrom(Eastern, Central, 12, 15);
  }

  lemma EasternApartMountain()
    ensures Apart(Eastern, Mountain)
  {
  }

  lemma EasternApartWest()
    ensures Apart(Eastern, Pacific) && Apart(Eastern, Alaska) && Apart(Eastern, Hawaii)
  {
  }

  lemma CentralApartWest()
    ensures Apart(Central, Mountain) && Apart(Central, Pacific) && Apart(Central, Alaska) && Apart(Central, Hawaii)
  {
  }

  lemma MountainApartWest()
    ensures Apart(Mountain, Pacific) && Apart(Mountain, Alaska) && Apart(Mountain, Hawaii)
    ensures Apart(Pacific, Alaska) && Apart(Pacific, Hawaii) && Apart(Alaska, Hawaii)
  {
  }

  lemma AllTwoLetterCodes()
    ensures TwoLetterCodes(Eastern) && TwoLetterCodes(Central) && TwoLetterCodes(Mountain)
    ensures TwoLetterCodes(Pacific) && TwoLetterCodes(Alaska) && TwoLetterCodes(Hawaii)
  {
  }

  /** A code outside a group that is apart from the code's own group. */
  lemma NotInApart(s: string, a: seq<string>, b: seq<string>)
    requires s in b && Apart(a, b)
    ensures s !in a
  {
  }

  /** Each listed state code gets its own group's zone: no earlier group takes it. */
  lemma TimezoneOfEastern(s: string)
    requires s in Eastern
    ensures GetTimezone(s) == "EST"
  {
    AllTwoLetterCodes();
    AnyInTwo(s, Eastern);
  }

  lemma TimezoneOfCentral(s: string)
    requires s in Central
    ensures GetTimezone(s) == "CST"
  {
    AllTwoLetterCodes();
    AnyInTwo(s, Eastern);
    AnyInTwo(s, Central);
    EasternApartCentral();
    NotInApart(s, Eastern, Central);
  }

  lemma TimezoneOfMountain(s: string)
    requires s in Mountain
    ensures GetTimezone(s) == "MST"
  {
    AllTwoLetterCodes();
    AnyInTwo(s, Eastern);
    AnyInTwo(s, Central);
    AnyInTwo(s, Mountain);
    EasternApartMountain();
    CentralApartWest();
    NotInApart(s, Eastern, Mountain);
    NotInApart(s, Central, Mountain);
  }

  lemma TimezoneOfPacific(s: string)
    requires s in Pacific
    ensures GetTimezone(s) == "PST"
  {
    AllTwoLetterCodes();
    AnyInTwo(s, Eastern);
    AnyInTwo(s, Central);
    AnyInTwo(s, Mountain);
    AnyInTwo(s, Pacific);
    EasternApartWest();
    CentralApartWest();
    MountainApartWest();
    NotInApart(s, Eastern, Pacific);
    NotInApart(s, Central, Pacific);
    NotInApart(s, Mountain, Pacific);
  }

  lemma TimezoneOfAlaska(s: string)
    requires s in Alaska
    ensures GetTimezone(s) == "AKST"
  {
    AllTwoLetterCodes();
    AnyInTwo(s, Eastern);
    AnyInTwo(s, Central);
    AnyInTwo(s, Mountain);
    AnyInTwo(s, Pacific);
    AnyInTwo(s, Alaska);
    EasternApartWest();
    CentralApartWest();
    MountainApartWest();
    NotInApart(s, Eastern, Alaska);
    NotInApart(s, Central, Alaska);
    NotInApart(s, Mountain, Alaska);
    NotInApart(s, Pacific, Alaska);
  }

  lemma TimezoneOfHawaii(s: string)
    requires s in Hawaii
    ensures GetTimezone(s) == "HST"
  {
    AllTwoLetterCodes();
    AnyInTwo(s, Eastern);
    AnyInTwo(s, Central);
    AnyInTwo(s, Mountain);
    AnyInTwo(s, Pacific);
    AnyInTwo(s, Alaska);
    AnyInTwo(s, Hawaii);
    EasternApartWest();
    CentralApartWest();
    MountainApartWest();
    NotInApart(s, Eastern, Hawaii);
    NotInApart(s, Central, Hawaii);
    NotInApart(s, Mountain, Hawaii);
    NotInApart(s, Pacific, Hawaii);
    NotInApart(s, Alaska, Hawaii);
  }

  /** A state naming no listed code is taken to be Eastern. */
  lemma UnknownStateEastern(state: string)
    requires !AnyIn(state, Eastern + Central + Mountain + Pacific + Alaska + Hawaii)
    ensures GetTimezone(state) == "EST"
  {
    var all := Eastern + Central + Mountain + Pacific + Alaska + Hawaii;
    forall k | 0 <= k < |Central| ensures !Contains(state, Central[k]) {
      assert all[|Eastern| + k] == Central[k];
    }
    forall k | 0 <= k < |Mountain| ensures !Contains(state, Mountain[k]) {
      assert all[|Eastern| + |Central| + k] == Mountain[k];
    }
    forall k | 0 <= k < |Pacific| ensures !Contains(state, Pacific[k]) {
      assert all[|Eastern| + |Central| + |Mountain| + k] == Pacific[k];
    }
    assert all[|Eastern| + |Central| + |Mountain| + |Pacific|] == "AK";
    assert all[|all| - 1] == "HI";
    forall k | 0 <= k < |Eastern| ensures !Contains(state, Eastern[k]) {
      assert all[k] == Eastern[k];
    }
  }

  // ----- The seeding -----

  /** The first hundred markets are on the 3pm list, the rest on the 6pm list. */
  function ListFor(rank: nat): (r: FeedList)
    ensures r == Feed3pm <==> rank <= 100
  {
    if rank <= 100 then Feed3pm else Feed6pm
  }

  /** The market row created for an entry. */
  function SeedRow(m: SeedMarket, id: nat): Market
  {
    var timezone := GetTimezone(m.state);
    Market(id, m.rank, m.name, None, GetAirTimeAndTimezone(timezone).estTime, timezone, ListFor(m.rank))
  }

  /** Its two phones, created after it. */
  function SeedPhones(m: SeedMarket, id: nat): seq<Phone>
  {
    [Phone(id + 1, id, "Main Station", GeneratePhone(m.areaCode, m.rank * 10), true, 0, None),
     Phone(id + 2, id, "News Desk", GeneratePhone(m.areaCode, m.rank * 10 + 1), false, 0, None)]
  }

  /** The markets of the seed, the i-th taking identifier first + 3i. */
  function SeededMarkets(ms: seq<SeedMarket>, first: nat): (r: seq<Market>)
    ensures |r| == |ms|
  {
    seq(|ms|, i requires 0 <= i < |ms| => SeedRow(ms[i], first + 3 * i))
  }

  /** Rows made market by market, the i-th market's from identifier first + 3i. */
  function Rows<T>(ms: seq<T>, first: nat, make: (T, nat) -> seq<Phone>): seq<Phone>
  {
    if |ms| == 0 then []
    else Rows(ms[..|ms| - 1], first, make) + make(ms[|ms| - 1], first + 3 * (|ms| - 1))
  }

  /** The phones of the seed, market by market. */
  function SeededPhones(ms: seq<SeedMarket>, first: nat): seq<Phone>
  {
    Rows(ms, first, SeedPhones)
  }

  lemma RowsSnoc<T>(ms: seq<T>, first: nat, make: (T, nat) -> seq<Phone>, i: nat)
    requires i < |ms|
    ensures Rows(ms[..i + 1], first, make) == Rows(ms[..i], first, make) + make(ms[i], first + 3 * i)
  {
    assert ms[..i + 1][..i] == ms[..i];
  }

  lemma SeededMarketsSnoc(ms: seq<SeedMarket>, first: nat, i: nat)
    requires i < |ms|
    ensures SeededMarkets(ms[..i + 1], first) == SeededMarkets(ms[..i], first) + [SeedRow(ms[i], first + 3 * i)]
  {
  }

  /** Rows made for the markets so far belong to identifiers below the next market's. */
  lemma {:induction false} RowsOwners<T>(ms: seq<T>, first: nat, make: (T, nat) -> seq<Phone>)
    requires forall m: T, id: nat, j :: 0 <= j < |make(m, id)| ==> make(m, id)[j].marketId == id
    ensures forall j :: 0 <= j < |Rows(ms, first, make)| ==> Rows(ms, first, make)[j].marketId < first + 3 * |ms|
  {
    if |ms| > 0 {
      RowsOwners(ms[..|ms| - 1], first, make);
    }
  }

  /** The rows of the i-th market are exactly what was made for it. */
  lemma {:induction false} RowsOf<T>(ms: seq<T>, first: nat, make: (T, nat) -> seq<Phone>, i: nat)
    requires forall m: T, id: nat, j :: 0 <= j < |make(m, id)| ==> make(m, id)[j].marketId == id
    requires i < |ms|
    ensures PhonesOf(Rows(ms, first, make), first + 3 * i) == make(ms[i], first + 3 * i)
  {
    if i == |ms| - 1 {
      RowsOfLast(ms, first, make, i);
    } else {
      RowsOf(ms[..|ms| - 1], first, make, i);
      RowsOfEarlier(ms, first, make, i);
    }
  }

  /** The last market's case of RowsOf. */
  lemma RowsOfLast<T>(ms: seq<T>, first: nat, make: (T, nat) -> seq<Phone>, n: nat)
    requires forall m: T, id: nat, j :: 0 <= j < |make(m, id)| ==> make(m, id)[j].marketId == id
    requires n == |ms| - 1
    ensures PhonesOf(Rows(ms, first, make), first + 3 * n) == make(ms[n], first + 3 * n)
  {
    RowsOwners(ms[..n], first, make);
    assert |ms[..n]| == n;
    LastRowsOwn(ms, first, make, first + 3 * n, Rows(ms[..n], first, make), make(ms[n], first + 3 * n));
  }

  /** An earlier market's case of RowsOf, given the case for the markets before the last. */
  lemma RowsOfEarlier<T>(ms: seq<T>, first: nat, make: (T, nat) -> seq<Phone>, i: nat)
    requires forall m: T, id: nat, j :: 0 <= j < |make(m, id)| ==> make(m, id)[j].marketId == id
    requires i < |ms| - 1
    requires PhonesOf(Rows(ms[..|ms| - 1], first, make), first + 3 * i) == make(ms[..|ms| - 1][i], first + 3 * i)
    ensures PhonesOf(Rows(ms, first, make), first + 3 * i) == make(ms[i], first + 3 * i)
  {
    EarlierRowsKept(ms, first, make, i, Rows(ms[..|ms| - 1], first, make), make(ms[|ms| - 1], first + 3 * (|ms| - 1)));
  }

  /** The rows of the last market are the ones made for it: the earlier rows belong to lower identifiers. */
  lemma LastRowsOwn<T>(ms: seq<T>, first: nat, make: (T, nat) -> seq<Phone>, id: nat, init: seq<Phone>, last: seq<Phone>)
    requires |ms| > 0 && id == first + 3 * (|ms| - 1)
    requires init == Rows(ms[..|ms| - 1], first, make)
    requires last == make(ms[|ms| - 1], id)
    requires forall j :: 0 <= j < |init| ==> init[j].marketId < id
    requires forall j :: 0 <= j < |last| ==> last[j].marketId == id
    ensures PhonesOf(Rows(ms, first, make), id) == last
  {
    assert Rows(ms, first, make) == init + last;
    PhonesOfOwnedAfter(init, last, id);
  }

  /** Rows of other markets followed by a market's own rows: that market's rows are its own. */
  lemma PhonesOfOwnedAfter(init: seq<Phone>, last: seq<Phone>, id: nat)
    requires forall j :: 0 <= j < |init| ==> init[j].marketId < id
    requires forall j :: 0 <= j < |last| ==> last[j].marketId == id
    ensures PhonesOf(init + last, id) == last
  {
    PhonesOfAppend(init, last, id);
    PhonesOfNone(init, id);
    PhonesOfOwn(last, id);
    assert [] + last == last;
  }

  /** An earlier market's rows are unaffected by the rows made for the last one, which belong to the last market. */
  lemma EarlierRowsKept<T>(ms: seq<T>, first: nat, make: (T, nat) -> seq<Phone>, i: nat, init: seq<Phone>, last: seq<Phone>)
    requires i < |ms| - 1
    requires init == Rows(ms[..|ms| - 1], first, make)
    requires last == make(ms[|ms| - 1], first + 3 * (|ms| - 1))
    requires forall j :: 0 <= j < |last| ==> last[j].marketId == first + 3 * (|ms| - 1)
    requires PhonesOf(init, first + 3 * i) == make(ms[..|ms| - 1][i], first + 3 * i)
    ensures PhonesOf(Rows(ms, first, make), first + 3 * i) == make(ms[i], first + 3 * i)
  {
    var id := first + 3 * i;
    assert Rows(ms, first, make) == init + last;
    PhonesOfAppend(init, last, id);
    PhonesOfNone(last, id);
    assert ms[..|ms| - 1][i] == ms[i];
    assert PhonesOf(init, id) + [] == PhonesOf(init, id);
  }

  /**
   * Each seeded market has exactly its two phones: a primary "Main Station"
   * with suffix rank·10 and a "News Desk" with suffix rank·10 + 1.
   */
  lemma SeededPhonesOf(ms: seq<SeedMarket>, first: nat, i: nat)
    requires i < |ms|
    ensures PhonesOf(SeededPhones(ms, first), first + 3 * i) == SeedPhones(ms[i], first + 3 * i)
  {
    RowsOf(ms, first, SeedPhones, i);
  }

  /** The phones of a seeded market: two, one primary, with different numbers. */
  lemma SeedPhonesFacts(m: SeedMarket, id: nat)
    ensures var ps := SeedPhones(m, id);
      |ps| == 2 && ps[0].isPrimary && !ps[1].isPrimary && ps[0].number != ps[1].number
  {
    var ps := SeedPhones(m, id);
    if ps[0].number == ps[1].number {
      GeneratePhoneInjective(m.areaCode, m.rank * 10, m.rank * 10 + 1);
    }
  }

  /** What the seeded market row holds. */
  lemma SeedRowFacts(m: SeedMarket, id: nat)
    ensures var row := SeedRow(m, id);
      row.marketNumber == m.rank && row.name == m.name && row.airTime == "10:00 PM" &&
      row.timezone == GetTimezone(m.state) && (row.list == Feed3pm <==> m.rank <= 100)
  {
  }

  /** One iteration: the market, then its two phones. */
  method CreateSeeded(db: Database, m: SeedMarket)
    modifies db`markets, db`phones, db`nextId
    ensures db.markets == old(db.markets) + [SeedRow(m, old(db.nextId))]
    ensures db.phones == old(db.phones) + SeedPhones(m, old(db.nextId))
    ensures db.nextId == old(db.nextId) + 3
  {
    var timezone := GetTimezone(m.state);
    var air := GetAirTimeAndTimezone(timezone);
    var list := if m.rank <= 100 then Feed3pm else Feed6pm;
    var id := db.FreshId();
    db.markets := db.markets + [Market(id, m.rank, m.name, None, air.estTime, timezone, list)];
    var _ := db.FreshIds(2);
    db.phones := db.phones + SeedPhones(m, id);
  }

  /** The tables after the first i entries were created. */
  predicate SeededUpTo(markets: seq<Market>, phones: seq<Phone>, nextId: nat, ms: seq<SeedMarket>, first: nat, i: nat)
    requires i <= |ms|
  {
    markets == SeededMarkets(ms[..i], first) && phones == SeededPhones(ms[..i], first) && nextId == first + 3 * i
  }

  lemma SeededUpToExtends(markets: seq<Market>, phones: seq<Phone>, ms: seq<SeedMarket>, first: nat, i: nat)
    requires i < |ms| && SeededUpTo(markets, phones, first + 3 * i, ms, first, i)
    ensures SeededUpTo(markets + [SeedRow(ms[i], first + 3 * i)], phones + SeedPhones(ms[i], first + 3 * i),
      first + 3 * i + 3, ms, first, i + 1)
  {
    RowsSnoc(ms, first, SeedPhones, i);
    SeededMarketsSnoc(ms, first, i);
  }

  /**
   * main: the phone and market tables are cleared, then every entry is
   * created in order; the count is the number of entries.
   */
  method SeedDatabase(db: Database, allMarkets: seq<SeedMarket>) returns (count: nat)
    modifies db`markets, db`phones, db`nextId
    ensures count == |allMarkets|
    ensures db.markets == SeededMarkets(allMarkets, old(db.nextId))
    ensures db.phones == SeededPhones(allMarkets, old(db.nextId))
    ensures db.nextId == old(db.nextId) + 3 * |allMarkets|
  {
    db.phones := [];
    db.markets := [];
    ghost var first := db.nextId;
    count := 0;
    var i := 0;
    while i < |allMarkets|
      invariant i <= |allMarkets| && count == i
      invariant SeededUpTo(db.markets, db.phones, db.nextId, allMarkets, first, i)
    {
      SeedStep(db, allMarkets, first, i);
      count := count + 1;
      i := i + 1;
    }
    assert allMarkets[..i] == allMarkets;
  }

  /** One iteration of the seeding loop, from the tables after i entries to those after i + 1. */
  method SeedStep(db: Database, allMarkets: seq<SeedMarket>, ghost first: nat, i: nat)
    requires i < |allMarkets| && SeededUpTo(db.markets, db.phones, db.nextId, allMarkets, first, i)
    modifies db`markets, db`phones, db`nextId
    ensures SeededUpTo(db.markets, db.phones, db.nextId, allMarkets, first, i + 1)
  {
    ghost var markets, phones := db.markets, db.phones;
    CreateSeeded(db, allMarkets[i]);
    SeededUpToExtends(markets, phones, allMarkets, first, i);
  }
}
