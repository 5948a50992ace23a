/**
 * The app's market store: the three filter preferences of the market list
 * screen, their setters, and the filtering of the markets fetched from the
 * server by list, by air time and by a fuzzy search.
 */
module MarketStore {
  import opened Common
  import opened MarketRules
  import opened Tables

  /** The list filter: every list, or one of the three broadcast lists. */
  datatype ListFilter = AllLists | List3pm | List5pm | List6pm

  /**
   * `market.list === filterList`. A market carries "3pm" or "6pm", so the
   * "5pm" choice matches none of them.
   */
  predicate ListMatches(filter: ListFilter, m: Market)
  {
    match filter
    case AllLists => true
    case List3pm => m.list == Feed3pm
    case List5pm => false
    case List6pm => m.list == Feed6pm
  }

  /** The list stage: every market when the filter is "all", otherwise those on the chosen list, in order. */
  function ListStage(markets: seq<Market>, filter: ListFilter): (r: seq<Market>)
    ensures filter == AllLists ==> r == markets
    ensures forall m :: m in r <==> m in markets && ListMatches(filter, m)
    ensures IsSubsequence(r, markets)
  {
    if filter == AllLists then
      SubsequenceRefl(markets);
      markets
    else
      FilterIsSubsequence(markets, m => ListMatches(filter, m));
      Filter(markets, m => ListMatches(filter, m))
  }

  /** The air time, lower-cased, includes the trimmed and lower-cased time filter. */
  predicate TimeMatches(timeLower: string, m: Market)
  {
    Contains(Lower(m.airTime), timeLower)
  }

  /** The air-time stage: skipped when the filter is blank, otherwise the markets whose air time includes it. */
  function TimeStage(markets: seq<Market>, filterTime: string): (r: seq<Market>)
    ensures Trim(filterTime) == [] ==> r == markets
    ensures Trim(filterTime) != [] ==>
      forall m :: m in r <==> m in markets && TimeMatches(Trim(Lower(filterTime)), m)
    ensures IsSubsequence(r, markets)
  {
    if Trim(filterTime) == [] then
      SubsequenceRefl(markets);
      markets
    else
      var timeLower := Trim(Lower(filterTime));
      FilterIsSubsequence(markets, m => TimeMatches(timeLower, m));
      Filter(markets, m => TimeMatches(timeLower, m))
  }

  /** The "5pm" list filter leaves nothing. */
  lemma FivePmListIsEmpty(markets: seq<Market>)
    ensures ListStage(markets, List5pm) == []
  {
    FilterNone(markets, m => ListMatches(List5pm, m));
  }

  /**
   * The list stage keeps exactly the markets on the list, in their order:
   * it is the list's own filter.
   */
  lemma ListStageOfList(markets: seq<Market>, l: FeedList)
    ensures ListStage(markets, if l == Feed3pm then List3pm else List6pm) == Filter(markets, (m: Market) => m.list == l)
  {
    var filter := if l == Feed3pm then List3pm else List6pm;
    FilterSame(markets, m => ListMatches(filter, m), (m: Market) => m.list == l);
  }

  /** Filters by two predicates that agree on every element are equal. */
  lemma {:induction false} FilterSame(markets: seq<Market>, p: Market -> bool, q: Market -> bool)
    requires forall m :: m in markets ==> p(m) == q(m)
    ensures Filter(markets, p) == Filter(markets, q)
  {
    if |markets| > 0 {
      assert forall m :: m in markets[1..] ==> m in markets;
      FilterSame(markets[1..], p, q);
    }
  }

  class MarketStore {
    var filterText: string
    var filterTime: string
    var filterList: ListFilter

    /** The store starts with blank text and time filters and every list. */
    constructor()
      ensures filterText == "" && filterTime == "" && filterList == AllLists
    {
      filterText := "";
      filterTime := "";
      filterList := AllLists;
    }

    /** Each setter replaces its own filter; the frame keeps the other two. */
    method SetFilterText(text: string)
      modifies this`filterText
      ensures filterText == text
    {
      filterText := text;
    }

    method SetFilterTime(time: string)
      modifies this`filterTime
      ensures filterTime == time
    {
      filterTime := time;
    }

    method SetFilterList(list: ListFilter)
      modifies this`filterList
      ensures filterList == list
    {
      filterList := list;
    }

    /**
     * getFilteredMarkets: the list stage, then the air-time stage, then the
     * fuzzy search on the trimmed text when there is any. The search is a
     * parameter; it ranks the candidates by score, so after it neither the
     * order nor the membership is stated. Without it the result is the two
     * stages' output: exactly the markets on the list whose air time
     * matches, in their original order, and with blank filters on every list
     * the input itself. Reading
     * the store changes nothing.
     */
    function GetFilteredMarkets(markets: seq<Market>, search: (seq<Market>, string) -> seq<Market>): (r: seq<Market>)
      reads this
      ensures Trim(filterText) != [] ==> r == search(TimeStage(ListStage(markets, filterList), filterTime), Trim(filterText))
      ensures Trim(filterText) == [] ==> r == TimeStage(ListStage(markets, filterList), filterTime)
      ensures Trim(filterText) == [] ==> IsSubsequence(r, markets)
      ensures Trim(filterText) == [] ==>
        forall m :: m in r <==>
          m in markets && ListMatches(filterList, m) && (Trim(filterTime) != [] ==> TimeMatches(Trim(Lower(filterTime)), m))
      ensures filterList == AllLists && Trim(filterTime) == [] && Trim(filterText) == [] ==> r == markets
    {
      var byList := ListStage(markets, filterList);
      var byTime := TimeStage(byList, filterTime);
      SubsequenceTrans(byTime, byList, markets);
      if Trim(filterText) != [] then search(byTime, Trim(filterText)) else byTime
    }
  }
}
