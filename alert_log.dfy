/**
 * The alert-log routes: the listing, newest first, with the same logs
 * partitioned into date groups, and the detail of one alert with its
 * delivery records ordered by market name and per-status counts.
 */
module AlertLogRoutes {
  import opened Common
  import opened Tables
  import opened Sorting

  /** A log as the routes return it: the enums as their wire strings. */
  datatype LogView = LogView(
    id: nat,
    alertType: string,
    message: Option<string>,
    audioUrl: Option<string>,
    audioDuration: Option<int>,
    recipientGroup: string,
    recipientCount: nat,
    sentBy: Option<string>,
    createdAt: int)

  function KindName(k: AlertKind): string
  {
    match k
    case Text => "text"
    case Voice => "voice"
  }

  function ParseKind(s: string): Option<AlertKind>
  {
    if s == "text" then Some(Text) else if s == "voice" then Some(Voice) else None
  }

  /** The formatting of one log, field for field. */
  function FormatLog(l: AlertLog): LogView
  {
    LogView(l.id, KindName(l.alertType), l.message, l.audioUrl, l.audioDuration, l.recipientGroup,
            l.recipientCount, l.sentBy, l.createdAt)
  }

  /** The stored log a view came from. */
  function UnformatLog(v: LogView): Option<AlertLog>
  {
    match ParseKind(v.alertType)
    case None => None
    case Some(k) => Some(AlertLog(v.id, k, v.message, v.audioUrl, v.audioDuration, v.recipientGroup,
                                  v.recipientCount, v.sentBy, v.createdAt))
  }

  /** Formatting loses nothing: every stored log is recovered from its view. */
  lemma FormatLogRoundTrip(l: AlertLog)
    ensures UnformatLog(FormatLog(l)) == Some(l)
  {
  }

  /** Formatting is one-to-one. */
  lemma FormatLogInjective(a: AlertLog, b: AlertLog)
    ensures FormatLog(a) == FormatLog(b) <==> a == b
  {
    if FormatLog(a) == FormatLog(b) {
      FormatLogRoundTrip(a);
      FormatLogRoundTrip(b);
    }
  }

  function FormatLogs(logs: seq<AlertLog>): (r: seq<LogView>)
    ensures |r| == |logs| && forall i :: 0 <= i < |logs| ==> r[i] == FormatLog(logs[i])
  {
    seq(|logs|, i requires 0 <= i < |logs| => FormatLog(logs[i]))
  }

  /** `orderBy: { createdAt: "desc" }`. */
  function NewestFirst(logs: seq<AlertLog>): seq<AlertLog>
  {
    SortBy(logs, (a: AlertLog, b: AlertLog) => a.createdAt >= b.createdAt)
  }

  /** The listing holds every log once and is ordered by creation time, newest first. */
  lemma NewestFirstOrdered(logs: seq<AlertLog>)
    ensures var r := NewestFirst(logs);
      multiset(r) == multiset(logs) &&
      forall i, j :: 0 <= i < j < |r| ==> r[i].createdAt >= r[j].createdAt
  {
    var le := (a: AlertLog, b: AlertLog) => a.createdAt >= b.createdAt;
    IntKeyPreorder((l: AlertLog) => l.createdAt);
    assert TotalPreorder(le);
    SortBySorted(logs, le);
  }

  /** Sorting keeps exactly the same elements. */
  lemma SameElements<T>(s: seq<T>, r: seq<T>, le: (T, T) -> bool)
    requires r == SortBy(s, le)
    ensures forall x :: x in r <==> x in s
  {
    forall x ensures x in r <==> x in s {
      assert x in r <==> x in multiset(r);
      assert x in s <==> x in multiset(s);
    }
  }

  /** The logs of `logs` whose date key is `k`, in listing order. */
  function GroupOf(logs: seq<AlertLog>, dateKey: AlertLog -> string, k: string): seq<AlertLog>
  {
    Filter(logs, (l: AlertLog) => dateKey(l) == k)
  }

  /** The date keys of `logs` in order of first appearance. */
  ghost function KeyOrder(logs: seq<AlertLog>, dateKey: AlertLog -> string): seq<string>
    decreases |logs|
  {
    if |logs| == 0 then []
    else
      var o := KeyOrder(logs[..|logs| - 1], dateKey);
      var k := dateKey(logs[|logs| - 1]);
      if k in o then o else o + [k]
  }

  lemma KeyOrderSnoc(logs: seq<AlertLog>, log: AlertLog, dateKey: AlertLog -> string)
    ensures KeyOrder(logs + [log], dateKey) ==
      if dateKey(log) in KeyOrder(logs, dateKey) then KeyOrder(logs, dateKey) else KeyOrder(logs, dateKey) + [dateKey(log)]
  {
    assert (logs + [log])[..|logs|] == logs;
  }

  /** A key not seen before goes to the end of the key order. */
  lemma KeyOrderNew(logs: seq<AlertLog>, log: AlertLog, dateKey: AlertLog -> string, order: seq<string>)
    requires order == KeyOrder(logs, dateKey) && dateKey(log) !in order
    ensures KeyOrder(logs + [log], dateKey) == order + [dateKey(log)]
  {
    KeyOrderSnoc(logs, log, dateKey);
  }

  /**
   * `groups` holds, for every date key of `logs`, the logs with that key in
   * order, and `order` lists each of those keys once, in order of first
   * appearance.
   */
  ghost predicate GroupedBy(logs: seq<AlertLog>, dateKey: AlertLog -> string, groups: map<string, seq<AlertLog>>, order: seq<string>)
  {
    (forall k :: k in groups <==> exists l :: l in logs && dateKey(l) == k) &&
    (forall k :: k in groups ==> groups[k] == GroupOf(logs, dateKey, k)) &&
    (forall k :: k in order <==> k in groups) &&
    (forall a, b :: 0 <= a < b < |order| ==> order[a] != order[b]) &&
    order == KeyOrder(logs, dateKey)
  }

  /** Pushing one more log onto the group of its key keeps the grouping exact. */
  lemma GroupStep(logs: seq<AlertLog>, log: AlertLog, dateKey: AlertLog -> string,
                  groups: map<string, seq<AlertLog>>, order: seq<string>)
    requires GroupedBy(logs, dateKey, groups, order)
    ensures var key := dateKey(log);
      var withKey := if key in groups then groups else groups[key := []];
      var order2 := if key in groups then order else order + [key];
      GroupedBy(logs + [log], dateKey, withKey[key := withKey[key] + [log]], order2)
  {
    if dateKey(log) in groups {
      GroupStepOpen(logs, log, dateKey, groups, order);
    } else {
      GroupStepNew(logs, log, dateKey, groups, order);
    }
  }

  /** A log whose key has no group yet opens one, and its key goes to the end of the order. */
  lemma GroupStepNew(logs: seq<AlertLog>, log: AlertLog, dateKey: AlertLog -> string,
                     groups: map<string, seq<AlertLog>>, order: seq<string>)
    requires GroupedBy(logs, dateKey, groups, order) && dateKey(log) !in groups
    ensures var withKey := groups[dateKey(log) := []];
      GroupedBy(logs + [log], dateKey, withKey[dateKey(log) := withKey[dateKey(log)] + [log]], order + [dateKey(log)])
  {
    var key := dateKey(log);
    var withKey := groups[key := []];
    var g2 := withKey[key := withKey[key] + [log]];
    FilterNone(logs, (l: AlertLog) => dateKey(l) == key);
    GroupStepGroups(logs, log, dateKey, withKey);
    KeyOrderNew(logs, log, dateKey, order);
    OrderSnoc(order, key);
    assert forall k :: k in order + [key] <==> k in g2;
  }

  /** A key not yet listed, appended to a list of distinct keys, keeps them distinct. */
  lemma OrderSnoc(order: seq<string>, key: string)
    requires key !in order
    requires forall a, b :: 0 <= a < b < |order| ==> order[a] != order[b]
    ensures forall a, b :: 0 <= a < b < |order + [key]| ==> (order + [key])[a] != (order + [key])[b]
    ensures forall k :: k in order + [key] <==> k in order || k == key
  {
  }

  /** A log whose key already has a group is appended to that group. */
  lemma GroupStepOpen(logs: seq<AlertLog>, log: AlertLog, dateKey: AlertLog -> string,
                      groups: map<string, seq<AlertLog>>, order: seq<string>)
    requires GroupedBy(logs, dateKey, groups, order) && dateKey(log) in groups
    ensures GroupedBy(logs + [log], dateKey, groups[dateKey(log) := groups[dateKey(log)] + [log]], order)
  {
    GroupStepGroups(logs, log, dateKey, groups);
    KeyOrderSnoc(logs, log, dateKey);
  }

  /**
   * With `withKey` the groups of `logs` plus, if need be, an empty group for
   * the new log's key, appending the log there gives the groups of the
   * longer list.
   */
  lemma GroupStepGroups(logs: seq<AlertLog>, log: AlertLog, dateKey: AlertLog -> string, withKey: map<string, seq<AlertLog>>)
    requires forall k :: k in withKey <==> k == dateKey(log) || exists l :: l in logs && dateKey(l) == k
    requires forall k :: k in withKey ==> withKey[k] == GroupOf(logs, dateKey, k)
    ensures var g2 := withKey[dateKey(log) := withKey[dateKey(log)] + [log]];
      (forall k :: k in g2 <==> exists l :: l in logs + [log] && dateKey(l) == k) &&
      (forall k :: k in g2 ==> g2[k] == GroupOf(logs + [log], dateKey, k))
  {
    var key := dateKey(log);
    var g2 := withKey[key := withKey[key] + [log]];
    forall k | k in g2
      ensures g2[k] == GroupOf(logs + [log], dateKey, k)
    {
      FilterSnoc(logs, log, (l: AlertLog) => dateKey(l) == k);
    }
    forall k ensures k in g2 <==> exists l :: l in logs + [log] && dateKey(l) == k {
      if k != key && exists l :: l in logs + [log] && dateKey(l) == k {
        var l :| l in logs + [log] && dateKey(l) == k;
        assert l in logs;
      }
    }
  }

  /**
   * The grouping loop: each log is pushed onto the group of its date key,
   * a group being opened at its first log. `order` lists the keys in
   * opening order, the order the response object enumerates them in.
   */
  method GroupByDate(logs: seq<AlertLog>, dateKey: AlertLog -> string)
    returns (groups: map<string, seq<AlertLog>>, order: seq<string>)
    ensures forall k :: k in groups <==> exists l :: l in logs && dateKey(l) == k
    ensures forall k :: k in groups ==> groups[k] == GroupOf(logs, dateKey, k)
    ensures forall k :: k in order <==> k in groups
    ensures forall a, b :: 0 <= a < b < |order| ==> order[a] != order[b]
    ensures order == KeyOrder(logs, dateKey)
  {
    groups, order := map[], [];
    var i := 0;
    while i < |logs|
      invariant 0 <= i <= |logs|
      invariant GroupedBy(logs[..i], dateKey, groups, order)
    {
      var log := logs[i];
      var key := dateKey(log);
      GroupStep(logs[..i], log, dateKey, groups, order);
      PrefixSnoc(logs, i);
      if key !in groups {
        groups := groups[key := []];
        order := order + [key];
      }
      groups := groups[key := groups[key] + [log]];
      i := i + 1;
    }
    assert logs[..i] == logs;
  }

  /**
   * Every log lands in exactly one group, the one of its date key, and each
   * group keeps the listing's relative order.
   */
  lemma {:induction false} GroupsPartition(logs: seq<AlertLog>, dateKey: AlertLog -> string)
    ensures forall l :: l in logs ==> l in GroupOf(logs, dateKey, dateKey(l))
    ensures forall l, k :: l in GroupOf(logs, dateKey, k) ==> l in logs && dateKey(l) == k
    ensures forall k :: IsSubsequence(GroupOf(logs, dateKey, k), logs)
  {
    forall k {
      FilterIsSubsequence(logs, (l: AlertLog) => dateKey(l) == k);
    }
  }

  /** The listing response: the formatted listing and the formatted groups. */
  datatype Listing = Listing(logs: seq<LogView>, groupedLogs: map<string, seq<LogView>>, groupOrder: seq<string>)

  /** GET /api/alert-logs, with the date label as a function of the log (it depends on the clock). */
  method ListAlertLogs(stored: seq<AlertLog>, dateKey: AlertLog -> string) returns (r: Listing)
    ensures r.logs == FormatLogs(NewestFirst(stored))
    ensures forall k :: k in r.groupedLogs <==> exists l :: l in stored && dateKey(l) == k
    ensures forall k :: k in r.groupedLogs ==> r.groupedLogs[k] == FormatLogs(GroupOf(NewestFirst(stored), dateKey, k))
    ensures forall k :: k in r.groupOrder <==> k in r.groupedLogs
    ensures forall a, b :: 0 <= a < b < |r.groupOrder| ==> r.groupOrder[a] != r.groupOrder[b]
    ensures r.groupOrder == KeyOrder(NewestFirst(stored), dateKey)
  {
    var logs := NewestFirst(stored);
    var groups, order := GroupByDate(logs, dateKey);
    SameElements(stored, logs, (a: AlertLog, b: AlertLog) => a.createdAt >= b.createdAt);
    var formatted := map k | k in groups :: FormatLogs(groups[k]);
    r := Listing(FormatLogs(logs), formatted, order);
  }

  /** Per-status counts of one alert's records. */
  datatype Stats = Stats(sent: nat, delivered: nat, failed: nat, bounced: nat)

  function HasStatus(s: DeliveryStatus): Delivery -> bool
  {
    (d: Delivery) => d.status == s
  }

  function StatsOf(ds: seq<Delivery>): Stats
  {
    Stats(Count(ds, HasStatus(Sent)), Count(ds, HasStatus(Delivered)), Count(ds, HasStatus(Failed)), Count(ds, HasStatus(Bounced)))
  }

  /** The four counts partition the records. */
  lemma {:induction false} StatsSum(ds: seq<Delivery>)
    ensures var s := StatsOf(ds); s.sent + s.delivered + s.failed + s.bounced == |ds|
  {
    if |ds| > 0 {
      var n := |ds| - 1;
      assert ds == ds[..n] + [ds[n]];
      StatsSum(ds[..n]);
      CountSnoc(ds[..n], ds[n], HasStatus(Sent));
      CountSnoc(ds[..n], ds[n], HasStatus(Delivered));
      CountSnoc(ds[..n], ds[n], HasStatus(Failed));
      CountSnoc(ds[..n], ds[n], HasStatus(Bounced));
    }
  }

  datatype Detail =
    | NotFound(code: nat, error: string)
    | Found(log: LogView, deliveries: seq<Delivery>, stats: Stats)

  /** The first log with this id (ids are primary keys). */
  function FindLog(logs: seq<AlertLog>, id: nat): (r: Option<AlertLog>)
    ensures r.Some? ==> r.value in logs && r.value.id == id
    ensures r.None? <==> forall l :: l in logs ==> l.id != id
  {
    if |logs| == 0 then None
    else if logs[0].id == id then Some(logs[0])
    else FindLog(logs[1..], id)
  }

  /** `findMany({ where: { alertId }, orderBy: { marketName: "asc" } })`. */
  function DeliveriesOf(ds: seq<Delivery>, id: nat): seq<Delivery>
  {
    SortBy(Filter(ds, (d: Delivery) => d.alertId == id), (a: Delivery, b: Delivery) => StringLe(a.marketName, b.marketName))
  }

  /** GET /api/alert-logs/:id. */
  function GetAlertLog(logs: seq<AlertLog>, ds: seq<Delivery>, id: nat): (r: Detail)
    ensures r.NotFound? <==> forall l :: l in logs ==> l.id != id
    ensures r.NotFound? ==> r == NotFound(404, "Alert log not found")
    ensures r.Found? ==> r.log.id == id && r.stats == StatsOf(r.deliveries)
    ensures r.Found? ==> (exists l :: l in logs && l.id == id && r.log == FormatLog(l)) && r.deliveries == DeliveriesOf(ds, id)
  {
    match FindLog(logs, id)
    case None => NotFound(404, "Alert log not found")
    case Some(l) =>
      var mine := DeliveriesOf(ds, id);
      Found(FormatLog(l), mine, StatsOf(mine))
  }

  /** The alert's records, each as often as stored, ordered by market name. */
  lemma DeliveriesOfOrdered(ds: seq<Delivery>, id: nat)
    ensures var r := DeliveriesOf(ds, id);
      multiset(r) == multiset(Filter(ds, (d: Delivery) => d.alertId == id)) &&
      (forall d :: d in r <==> d in ds && d.alertId == id) &&
      (forall i, j :: 0 <= i < j < |r| ==> StringLe(r[i].marketName, r[j].marketName))
  {
    var mine := Filter(ds, (d: Delivery) => d.alertId == id);
    var le := (a: Delivery, b: Delivery) => StringLe(a.marketName, b.marketName);
    StringLeOrder();
    assert TotalPreorder(le);
    SortBySorted(mine, le);
    SameElements(mine, SortBy(mine, le), le);
  }

  /** A known alert's detail lists its records, and the counts add up to their number. */
  lemma GetAlertLogDeliveries(logs: seq<AlertLog>, ds: seq<Delivery>, id: nat)
    requires exists l :: l in logs && l.id == id
    ensures var r := GetAlertLog(logs, ds, id);
      r.Found? && r.deliveries == DeliveriesOf(ds, id) &&
      r.stats.sent + r.stats.delivered + r.stats.failed + r.stats.bounced == |r.deliveries|
  {
    StatsSum(DeliveriesOf(ds, id));
  }
}
