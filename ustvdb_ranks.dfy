/**
 * update-market-ranks-from-ustvdb: market ranks taken from a list of
 * Nielsen DMAs (designated market areas). Each seed market takes the rank
 * of the DMA whose name shares the most similar words with it (a state
 * match breaking ties), and each City cell of the market file takes the rank
 * of the seed market it matches the same way.
 *
 * The snapshot and the seed file are read by regular expressions; here the
 * DMA rows and the seed file's pieces come in already parsed.
 */
module UstvdbRanks {
  import opened Common
  import opened Sorting
  import CsvFile
  import opened CsvLine
  import opened RankCsv
  import opened Seed

  // ----- tokenize -----

  predicate IsLowerAlnum(c: char) { ('a' <= c <= 'z') || ('0' <= c <= '9') }

  /** The leading run of characters outside [a-z0-9] dropped. */
  function DropRun(s: string): (r: string)
    ensures |r| <= |s| && r == s[|s| - |r|..]
    ensures r == "" || IsLowerAlnum(r[0])
    ensures |s| > 0 && !IsLowerAlnum(s[0]) ==> |r| < |s|
  {
    if |s| > 0 && !IsLowerAlnum(s[0]) then DropRun(s[1..]) else s
  }

  /** `.replace(/[^a-z0-9]+/g, ' ')`: every run of other characters becomes one space. */
  function Squash(s: string): (r: string)
    ensures forall i :: 0 <= i < |r| ==> IsLowerAlnum(r[i]) || r[i] == ' '
    ensures forall i :: 0 <= i < |r| - 1 ==> !(r[i] == ' ' && r[i + 1] == ' ')
    ensures (|r| > 0) == (|s| > 0)
    ensures |s| > 0 ==> (r[0] == ' ' <==> !IsLowerAlnum(s[0]))
    decreases |s|
  {
    if |s| == 0 then ""
    else if IsLowerAlnum(s[0]) then [s[0]] + Squash(s[1..])
    else " " + Squash(DropRun(s))
  }

  predicate LongToken(t: string) { |t| >= 3 }

  /** The characters of every piece of a split are characters of the whole. */
  lemma {:induction false} SplitChars(s: string, sep: char, ok: char -> bool)
    requires forall i :: 0 <= i < |s| ==> s[i] == sep || ok(s[i])
    ensures forall i, k :: 0 <= i < |Split(s, sep)| && 0 <= k < |Split(s, sep)[i]| ==> ok(Split(s, sep)[i][k])
  {
    if |s| > 0 {
      SplitChars(s[1..], sep, ok);
    }
  }

  /**
   * tokenize: lower-cased, runs of other characters turned into one space,
   * split at the spaces (the only whitespace left, so `split(/\s+/)` splits
   * there), and the pieces shorter than three dropped.
   */
  function Tokenize(str: string): (r: seq<string>)
    ensures forall i :: 0 <= i < |r| ==> |r[i]| >= 3 && forall k :: 0 <= k < |r[i]| ==> IsLowerAlnum(r[i][k])
  {
    var squashed := Squash(Lower(str));
    SplitChars(squashed, ' ', IsLowerAlnum);
    Filter(Split(squashed, ' '), LongToken)
  }

  /** A text without a letter or a digit has no token. */
  lemma NoTokens(str: string)
    requires forall i :: 0 <= i < |str| ==> !IsLowerAlnum(LowerChar(str[i]))
    ensures Tokenize(str) == []
  {
    var squashed := Squash(Lower(str));
    forall i | 0 <= i < |squashed| ensures squashed[i] == ' ' {
      NoAlnumSquash(Lower(str), i);
    }
    SpacesSplit(squashed);
    FilterNone(Split(squashed, ' '), LongToken);
  }

  /** Squashing a text without letters or digits leaves only spaces. */
  lemma NoAlnumSquash(s: string, i: nat)
    requires forall k :: 0 <= k < |s| ==> !IsLowerAlnum(s[k])
    requires i < |Squash(s)|
    ensures Squash(s)[i] == ' '
  {
  }

  /** Splitting spaces at the spaces leaves only empty pieces. */
  lemma {:induction false} SpacesSplit(s: string)
    requires forall i :: 0 <= i < |s| ==> s[i] == ' '
    ensures forall t :: t in Split(s, ' ') ==> t == ""
  {
    if |s| > 0 {
      SpacesSplit(s[1..]);
    }
  }

  // ----- tokensSimilar -----

  function Min(a: nat, b: nat): nat { if a <= b then a else b }

  /** tokensSimilar: equal, or alike on the first `min(|a|, |b|)` characters when that is at least 3. */
  predicate TokensSimilar(a: string, b: string)
  {
    if a == b then true
    else
      var m := Min(|a|, |b|);
      if m < 3 then false else a[..m] == b[..m]
  }

  /** TokensSimilar is symmetric. */
  lemma SimilarSymmetric(a: string, b: string)
    ensures TokensSimilar(a, b) == TokensSimilar(b, a)
  {
  }

  /** Similar tokens are equal, or the shorter, of at least three characters, begins the longer. */
  lemma SimilarIff(a: string, b: string)
    ensures TokensSimilar(a, b) <==>
      a == b ||
      (|a| <= |b| && |a| >= 3 && StartsWith(b, a)) ||
      (|b| <= |a| && |b| >= 3 && StartsWith(a, b))
  {
  }

  // ----- Scores -----

  /** Some token of `bs` is similar to `a`. */
  predicate HasSimilar(a: string, bs: seq<string>)
  {
    exists j :: 0 <= j < |bs| && TokensSimilar(a, bs[j])
  }

  /** The number of tokens of `ts` that have a similar token in `bs`. */
  function TokenScore(ts: seq<string>, bs: seq<string>): (r: nat)
    ensures r <= |ts|
    ensures r == 0 <==> forall i :: 0 <= i < |ts| ==> !HasSimilar(ts[i], bs)
  {
    if |ts| == 0 then 0
    else
      var init := ts[..|ts| - 1];
      assert forall i :: 0 <= i < |init| ==> init[i] == ts[i];
      TokenScore(init, bs) + (if HasSimilar(ts[|ts| - 1], bs) then 1 else 0)
  }

  /** The inner loop: stops at the first similar token. */
  method FindSimilar(a: string, bs: seq<string>) returns (found: bool)
    ensures found == HasSimilar(a, bs)
  {
    var j := 0;
    while j < |bs|
      invariant 0 <= j <= |bs|
      invariant forall k :: 0 <= k < j ==> !TokensSimilar(a, bs[k])
    {
      if TokensSimilar(a, bs[j]) {
        return true;
      }
      j := j + 1;
    }
    return false;
  }

  /** The nested loops counting `tokenScore`. */
  method CountSimilar(ts: seq<string>, bs: seq<string>) returns (score: nat)
    ensures score == TokenScore(ts, bs)
  {
    score := 0;
    var i := 0;
    while i < |ts|
      invariant 0 <= i <= |ts|
      invariant score == TokenScore(ts[..i], bs)
    {
      var found := FindSimilar(ts[i], bs);
      assert ts[..i + 1][..i] == ts[..i];
      if found {
        score := score + 1;
      }
      i := i + 1;
    }
    assert ts[..i] == ts;
  }

  /** A score of 0 skips the candidate; otherwise ten per token, and 2 more with the bonus. */
  function Scored(tokenScore: nat, bonus: bool): (r: Option<nat>)
    ensures r.None? <==> tokenScore == 0
    ensures r.Some? ==> r.value == 10 * tokenScore + (if bonus then 2 else 0)
  {
    if tokenScore == 0 then None else Some(10 * tokenScore + (if bonus then 2 else 0))
  }

  // ----- The best candidate -----

  /**
   * The candidate kept by `if (!best || score > best.score)`: the first of
   * the highest scores, or None when every candidate was skipped.
   */
  function BestIndex(scores: seq<Option<nat>>): (r: Option<nat>)
    ensures r.Some? ==> r.value < |scores| && scores[r.value].Some?
    ensures r.None? <==> forall j :: 0 <= j < |scores| ==> scores[j].None?
    ensures r.Some? ==> forall j :: 0 <= j < |scores| && scores[j].Some? ==> scores[j].value <= scores[r.value].value
    ensures r.Some? ==> forall j :: 0 <= j < r.value && scores[j].Some? ==> scores[j].value < scores[r.value].value
  {
    if |scores| == 0 then None
    else
      var init := scores[..|scores| - 1];
      assert forall j :: 0 <= j < |init| ==> init[j] == scores[j];
      var prev := BestIndex(init);
      var x := scores[|scores| - 1];
      if x.Some? && (prev.None? || x.value > scores[prev.value].value) then Some(|scores| - 1) else prev
  }

  /** The candidates' scores, in order. */
  function ScoresOf<T>(score: T -> Option<nat>, xs: seq<T>): (r: seq<Option<nat>>)
    ensures |r| == |xs|
    ensures forall i :: 0 <= i < |xs| ==> r[i] == score(xs[i])
  {
    if |xs| == 0 then []
    else ScoresOf(score, xs[..|xs| - 1]) + [score(xs[|xs| - 1])]
  }

  lemma ScoresOfSnoc<T>(score: T -> Option<nat>, xs: seq<T>, i: nat)
    requires i < |xs|
    ensures ScoresOf(score, xs[..i + 1]) == ScoresOf(score, xs[..i]) + [score(xs[i])]
  {
    assert xs[..i + 1][..i] == xs[..i];
  }

  /** One more candidate: it replaces the best so far only with a strictly higher score. */
  lemma BestStep(scores: seq<Option<nat>>, x: Option<nat>, best: Option<nat>, bestScore: nat)
    requires best == BestIndex(scores)
    requires best.Some? ==> bestScore == scores[best.value].value
    ensures BestIndex(scores + [x]) == if x.Some? && (best.None? || x.value > bestScore) then Some(|scores|) else best
  {
    assert (scores + [x])[..|scores|] == scores;
  }

  /** The best candidate so far and its score, as the loops keep them. */
  predicate Kept(scores: seq<Option<nat>>, best: Option<nat>, bestScore: nat)
  {
    best == BestIndex(scores) && (best.Some? ==> bestScore == scores[best.value].value)
  }

  /** The loop body's test: a strictly higher score replaces the best so far. */
  method Keep(ghost scores: seq<Option<nat>>, i: nat, best: Option<nat>, bestScore: nat, score: Option<nat>)
    returns (best2: Option<nat>, bestScore2: nat)
    requires i == |scores| && Kept(scores, best, bestScore)
    ensures Kept(scores + [score], best2, bestScore2)
  {
    BestStep(scores, score, best, bestScore);
    best2, bestScore2 := best, bestScore;
    if score.Some? && (best.None? || score.value > bestScore) {
      best2, bestScore2 := Some(i), score.value;
    }
  }

  // ----- bestMatchForSeed -----

  /** A DMA row of the snapshot. */
  datatype Dma = Dma(rank: nat, name: string)

  /** The state bonus for a DMA: its name holds ", " and the upper-cased seed state. */
  predicate DmaStateBonus(state: string, dma: Dma)
  {
    state != "" && Contains(dma.name, ", " + state)
  }

  /** A DMA's score against the seed's tokens and upper-cased state. */
  function DmaScore(seedTokens: seq<string>, state: string, dma: Dma): Option<nat>
  {
    Scored(TokenScore(seedTokens, Tokenize(dma.name)), DmaStateBonus(state, dma))
  }

  /** The scores of the DMAs, in order. */
  function DmaScores(seedTokens: seq<string>, state: string, dmas: seq<Dma>): (r: seq<Option<nat>>)
    ensures |r| == |dmas|
    ensures forall i :: 0 <= i < |dmas| ==> r[i] == DmaScore(seedTokens, state, dmas[i])
  {
    ScoresOf(d => DmaScore(seedTokens, state, d), dmas)
  }

  /** The position of the DMA bestMatchForSeed picks. */
  function BestDma(seedName: string, seedState: string, dmas: seq<Dma>): (r: Option<nat>)
    ensures r.Some? ==> r.value < |dmas|
  {
    BestIndex(DmaScores(Tokenize(seedName), Upper(seedState), dmas))
  }

  /** bestMatchForSeed: the rank of the DMA picked, or None. */
  function BestMatchForSeed(seedName: string, seedState: string, dmas: seq<Dma>): Option<nat>
  {
    match BestDma(seedName, seedState, dmas)
    case None => None
    case Some(k) => Some(dmas[k].rank)
  }

  /** No rank is found exactly when no DMA name has a token similar to one of the seed's. */
  lemma BestMatchNoneIff(seedName: string, seedState: string, dmas: seq<Dma>)
    ensures BestMatchForSeed(seedName, seedState, dmas).None? <==>
      forall i, t :: 0 <= i < |dmas| && t in Tokenize(seedName) ==> !HasSimilar(t, Tokenize(dmas[i].name))
  {
    var ts := Tokenize(seedName);
    var scores := DmaScores(ts, Upper(seedState), dmas);
    forall i | 0 <= i < |dmas|
      ensures scores[i].None? <==> forall t :: t in ts ==> !HasSimilar(t, Tokenize(dmas[i].name))
    {
      assert scores[i].None? <==> forall k :: 0 <= k < |ts| ==> !HasSimilar(ts[k], Tokenize(dmas[i].name));
    }
  }

  /**
   * The DMA picked scores ten per similar token plus 2 for the state, no DMA
   * scores higher, and every earlier DMA scores less.
   */
  lemma BestMatchIsBest(seedName: string, seedState: string, dmas: seq<Dma>, k: nat)
    requires BestDma(seedName, seedState, dmas) == Some(k)
    ensures var ts := Tokenize(seedName);
      TokenScore(ts, Tokenize(dmas[k].name)) > 0 &&
      BestMatchForSeed(seedName, seedState, dmas) == Some(dmas[k].rank)
    ensures var ts := Tokenize(seedName);
      var state := Upper(seedState);
      forall j :: 0 <= j < |dmas| && DmaScore(ts, state, dmas[j]).Some? ==>
        DmaScore(ts, state, dmas[j]).value <= DmaScore(ts, state, dmas[k]).value &&
        (j < k ==> DmaScore(ts, state, dmas[j]).value < DmaScore(ts, state, dmas[k]).value)
  {
  }

  /** The score of one DMA, with the nested token loops. */
  method ScoreDma(seedTokens: seq<string>, state: string, dma: Dma) returns (score: Option<nat>)
    ensures score == DmaScore(seedTokens, state, dma)
  {
    var dmaTokens := Tokenize(dma.name);
    var tokenScore := CountSimilar(seedTokens, dmaTokens);
    if tokenScore == 0 {
      return None;
    }
    var total := tokenScore * 10;
    if state != "" && Contains(dma.name, ", " + state) {
      total := total + 2;
    }
    return Some(total);
  }

  /** The scores of one more DMA. */
  lemma DmaScoresSnoc(seedTokens: seq<string>, state: string, dmas: seq<Dma>, i: nat)
    requires i < |dmas|
    ensures DmaScores(seedTokens, state, dmas[..i + 1]) == DmaScores(seedTokens, state, dmas[..i]) + [DmaScore(seedTokens, state, dmas[i])]
  {
    ScoresOfSnoc(d => DmaScore(seedTokens, state, d), dmas, i);
  }

  /** The loop of bestMatchForSeed over the DMAs. */
  method FindBestMatchForSeed(seedName: string, seedState: string, dmas: seq<Dma>) returns (rank: Option<nat>)
    ensures rank == BestMatchForSeed(seedName, seedState, dmas)
  {
    var seedTokens := Tokenize(seedName);
    var state := Upper(seedState);
    var best: Option<nat> := None;
    var bestScore := 0;
    ghost var scores: seq<Option<nat>> := [];
    var i := 0;
    while i < |dmas|
      invariant 0 <= i <= |dmas|
      invariant scores == DmaScores(seedTokens, state, dmas[..i]) && |scores| == i
      invariant Kept(scores, best, bestScore)
    {
      var score := ScoreDma(seedTokens, state, dmas[i]);
      DmaScoresSnoc(seedTokens, state, dmas, i);
      best, bestScore := Keep(scores, i, best, bestScore, score);
      scores := scores + [score];
      i := i + 1;
    }
    assert dmas[..i] == dmas;
    if best.None? {
      return None;
    }
    return Some(dmas[best.value].rank);
  }

  /** `dmas.sort((a, b) => a.rank - b.rank)`: a stable sort by rank. */
  function SortDmas(dmas: seq<Dma>): (r: seq<Dma>)
    ensures |r| == |dmas| && multiset(r) == multiset(dmas)
  {
    SortBy(dmas, (a: Dma, b: Dma) => a.rank <= b.rank)
  }

  /** The DMAs come out in rank order, the same rows as went in. */
  lemma SortDmasSorted(dmas: seq<Dma>)
    ensures forall i, j :: 0 <= i < j < |SortDmas(dmas)| ==> SortDmas(dmas)[i].rank <= SortDmas(dmas)[j].rank
    ensures multiset(SortDmas(dmas)) == multiset(dmas)
  {
    var le := (a: Dma, b: Dma) => a.rank <= b.rank;
    IntKeyPreorder((d: Dma) => d.rank as int);
    assert TotalPreorder(le);
    SortBySorted(dmas, le);
  }

  // ----- parseCityAndState -----

  /** `\w`: a letter, a digit or an underscore. */
  predicate IsWordChar(c: char) { IsAsciiLetter(c) || IsDigit(c) || c == '_' }

  /** The position after the whitespace that starts at position k. */
  function AfterSpaces(s: string, k: nat): (r: nat)
    requires k <= |s|
    ensures k <= r <= |s|
    decreases |s| - k
  {
    if k < |s| && IsWs(s[k]) then AfterSpaces(s, k + 1) else k
  }

  /** The whitespace run starting at k ends at the first other character. */
  lemma {:induction false} AfterSpacesEnds(s: string, k: nat, e: nat)
    requires k <= e <= |s|
    requires forall m :: k <= m < e ==> IsWs(s[m])
    requires e == |s| || !IsWs(s[e])
    ensures AfterSpaces(s, k) == e
    decreases e - k
  {
    if k < e {
      AfterSpacesEnds(s, k + 1, e);
    }
  }

  /**
   * `,\s*([A-Za-z]{2})\b` tried at comma position k: the position of the two
   * letters after the comma and all the whitespace that follows it. Fewer
   * spaces would leave a space where a letter is needed, so only the longest
   * run can match.
   */
  function PairAt(s: string, k: nat): (r: Option<nat>)
    ensures r.Some? ==> k < |s| && s[k] == ',' && k < r.value && r.value + 2 <= |s|
    ensures r.Some? ==> IsAsciiLetter(s[r.value]) && IsAsciiLetter(s[r.value + 1])
  {
    if k < |s| && s[k] == ',' then
      var j := AfterSpaces(s, k + 1);
      if j + 2 <= |s| && IsAsciiLetter(s[j]) && IsAsciiLetter(s[j + 1]) && (j + 2 == |s| || !IsWordChar(s[j + 2]))
      then Some(j) else None
    else None
  }

  /**
   * `^(.*?)` then the rest: the lazy group grows one character at a time from
   * position k, and `.` stops at a line terminator.
   */
  function FirstPair(s: string, k: nat): (r: Option<nat>)
    ensures r.Some? ==> k <= r.value && PairAt(s, r.value).Some?
    ensures r.Some? ==> forall m :: k <= m < r.value ==> PairAt(s, m).None? && !IsLineTerminator(s[m])
    decreases |s| - k
  {
    if k >= |s| then None
    else if PairAt(s, k).Some? then Some(k)
    else if IsLineTerminator(s[k]) then None
    else FirstPair(s, k + 1)
  }

  /** The city and the state code of a City cell. */
  datatype CityState = CityState(city: string, state: Option<string>)

  /** Two letters upper-cased are two capitals. */
  lemma UpperLetters(t: string)
    requires |t| == 2 && IsAsciiLetter(t[0]) && IsAsciiLetter(t[1])
    ensures |Upper(t)| == 2 && forall i :: 0 <= i < 2 ==> 'A' <= Upper(t)[i] <= 'Z'
  {
  }

  /**
   * parseCityAndState: the trimmed text before the comma and the two letters
   * after it, upper-cased; without such a comma, the trimmed whole and no state.
   */
  function ParseCityAndState(cityField: string): (r: CityState)
    ensures r.state.Some? ==> |r.state.value| == 2 && forall i :: 0 <= i < 2 ==> 'A' <= r.state.value[i] <= 'Z'
    ensures Trimmed(r.city)
  {
    if cityField == "" then CityState(cityField, None)
    else
      match FirstPair(cityField, 0)
      case None => CityState(Trim(cityField), None)
      case Some(k) =>
        var j := PairAt(cityField, k).value;
        UpperLetters(cityField[j..j + 2]);
        CityState(Trim(cityField[..k]), Some(Upper(cityField[j..j + 2])))
  }

  /** With no comma there is no state, and the city is the trimmed cell. */
  lemma NoCommaNoState(cityField: string)
    requires ',' !in cityField
    ensures ParseCityAndState(cityField) == CityState(Trim(cityField), None)
  {
    if cityField != "" {
      NoPairWithoutComma(cityField, 0);
    }
  }

  lemma {:induction false} NoPairWithoutComma(s: string, k: nat)
    requires ',' !in s
    ensures FirstPair(s, k).None?
    decreases |s| - k
  {
    if k < |s| {
      assert PairAt(s, k).None?;
      NoPairWithoutComma(s, k + 1);
    }
  }

  /** A character other than a comma or a line terminator is passed over. */
  lemma FirstPairStep(s: string, k: nat)
    requires k < |s| && s[k] != ',' && !IsLineTerminator(s[k])
    ensures FirstPair(s, k) == FirstPair(s, k + 1)
  {
    assert PairAt(s, k).None?;
  }

  /** No pair before position k of a text without commas there. */
  lemma {:induction false} FirstPairSkips(s: string, k: nat, c: nat)
    requires k <= c <= |s|
    requires forall m :: k <= m < c ==> s[m] != ',' && !IsLineTerminator(s[m])
    ensures FirstPair(s, k) == FirstPair(s, c)
    decreases c - k
  {
    if k < c {
      FirstPairStep(s, k);
      FirstPairSkips(s, k + 1, c);
    }
  }

  /** The first pair found decides the city and the state. */
  lemma ParsedAtPair(s: string, k: nat, j: nat)
    requires FirstPair(s, 0) == Some(k) && PairAt(s, k) == Some(j)
    ensures ParseCityAndState(s) == CityState(Trim(s[..k]), Some(Upper(s[j..j + 2])))
  {
  }

  /** "City, ST" with anything after the state that does not continue a word: the trimmed city and ST upper-cased. */
  lemma CityCommaState(c: string, w: string, st: string, rest: string)
    requires ',' !in c && forall m :: 0 <= m < |c| ==> !IsLineTerminator(c[m])
    requires AllWs(w) && |st| == 2 && IsAsciiLetter(st[0]) && IsAsciiLetter(st[1])
    requires rest == "" || !IsWordChar(rest[0])
    ensures ParseCityAndState(c + "," + w + st + rest) == CityState(Trim(c), Some(Upper(st)))
  {
    var s := c + "," + w + st + rest;
    var k := |c|;
    assert s[..k] == c;
    assert s[k] == ',';
    var j := k + 1 + |w|;
    assert forall m :: k + 1 <= m < j ==> s[m] == w[m - k - 1];
    assert s[j] == st[0];
    AfterSpacesEnds(s, k + 1, j);
    assert s[j..j + 2] == st;
    assert j + 2 == |s| || s[j + 2] == rest[0];
    assert PairAt(s, k) == Some(j);
    assert forall m :: 0 <= m < k ==> s[m] == c[m];
    FirstPairSkips(s, 0, k);
    ParsedAtPair(s, k, j);
  }

  // ----- bestSeedForCsv -----

  /** The state bonus for a seed market: the state codes are equal, ignoring case. */
  predicate MarketStateBonus(stateCode: Option<string>, m: SeedMarket)
  {
    stateCode.Some? && stateCode.value != "" && Upper(m.state) == Upper(stateCode.value)
  }

  /** A seed market's score against the city's tokens and state code. */
  function MarketScore(cityTokens: seq<string>, stateCode: Option<string>, m: SeedMarket): Option<nat>
  {
    Scored(TokenScore(cityTokens, Tokenize(m.name)), MarketStateBonus(stateCode, m))
  }

  /** The scores of the seed markets, in order. */
  function MarketScores(cityTokens: seq<string>, stateCode: Option<string>, markets: seq<SeedMarket>): (r: seq<Option<nat>>)
    ensures |r| == |markets|
    ensures forall i :: 0 <= i < |markets| ==> r[i] == MarketScore(cityTokens, stateCode, markets[i])
  {
    ScoresOf(m => MarketScore(cityTokens, stateCode, m), markets)
  }

  /** bestSeedForCsv: the seed market picked, or None. */
  function BestSeedForCsv(cityName: string, stateCode: Option<string>, markets: seq<SeedMarket>): (r: Option<SeedMarket>)
    ensures r.Some? ==> r.value in markets
  {
    match BestIndex(MarketScores(Tokenize(cityName), stateCode, markets))
    case None => None
    case Some(k) => Some(markets[k])
  }

  /**
   * No market is picked exactly when no market name has a token similar to
   * one of the city's; the one picked scores highest, and first among equals.
   */
  lemma BestSeedIsBest(cityName: string, stateCode: Option<string>, markets: seq<SeedMarket>)
    ensures var ts := Tokenize(cityName);
      BestSeedForCsv(cityName, stateCode, markets).None? <==>
        forall i :: 0 <= i < |markets| ==> TokenScore(ts, Tokenize(markets[i].name)) == 0
    ensures var ts := Tokenize(cityName);
      var best := BestIndex(MarketScores(ts, stateCode, markets));
      best.Some? ==>
        BestSeedForCsv(cityName, stateCode, markets) == Some(markets[best.value]) &&
        forall j :: 0 <= j < |markets| && MarketScore(ts, stateCode, markets[j]).Some? ==>
          MarketScore(ts, stateCode, markets[j]).value <= MarketScore(ts, stateCode, markets[best.value]).value &&
          (j < best.value ==> MarketScore(ts, stateCode, markets[j]).value < MarketScore(ts, stateCode, markets[best.value]).value)
  {
    var ts := Tokenize(cityName);
    var scores := MarketScores(ts, stateCode, markets);
    var best := BestIndex(scores);
    assert BestSeedForCsv(cityName, stateCode, markets).None? <==> best.None?;
    forall i | 0 <= i < |markets|
      ensures scores[i].None? <==> TokenScore(ts, Tokenize(markets[i].name)) == 0
    {
      assert scores[i] == Scored(TokenScore(ts, Tokenize(markets[i].name)), MarketStateBonus(stateCode, markets[i]));
    }
  }

  /** The score of one seed market, with the nested token loops. */
  method ScoreMarket(cityTokens: seq<string>, stateCode: Option<string>, m: SeedMarket) returns (score: Option<nat>)
    ensures score == MarketScore(cityTokens, stateCode, m)
  {
    var nameTokens := Tokenize(m.name);
    var tokenScore := CountSimilar(cityTokens, nameTokens);
    if tokenScore == 0 {
      return None;
    }
    var total := tokenScore * 10;
    if stateCode.Some? && stateCode.value != "" && Upper(m.state) == Upper(stateCode.value) {
      total := total + 2;
    }
    return Some(total);
  }

  lemma MarketScoresSnoc(cityTokens: seq<string>, stateCode: Option<string>, markets: seq<SeedMarket>, i: nat)
    requires i < |markets|
    ensures MarketScores(cityTokens, stateCode, markets[..i + 1]) ==
      MarketScores(cityTokens, stateCode, markets[..i]) + [MarketScore(cityTokens, stateCode, markets[i])]
  {
    ScoresOfSnoc(m => MarketScore(cityTokens, stateCode, m), markets, i);
  }

  /** The loop of bestSeedForCsv over the seed markets. */
  method FindBestSeedForCsv(cityName: string, stateCode: Option<string>, markets: seq<SeedMarket>) returns (found: Option<SeedMarket>)
    ensures found == BestSeedForCsv(cityName, stateCode, markets)
  {
    var cityTokens := Tokenize(cityName);
    var best: Option<nat> := None;
    var bestScore := 0;
    ghost var scores: seq<Option<nat>> := [];
    var i := 0;
    while i < |markets|
      invariant 0 <= i <= |markets|
      invariant scores == MarketScores(cityTokens, stateCode, markets[..i]) && |scores| == i
      invariant Kept(scores, best, bestScore)
    {
      var score := ScoreMarket(cityTokens, stateCode, markets[i]);
      MarketScoresSnoc(cityTokens, stateCode, markets, i);
      best, bestScore := Keep(scores, i, best, bestScore, score);
      scores := scores + [score];
      i := i + 1;
    }
    assert markets[..i] == markets;
    if best.None? {
      return None;
    }
    return Some(markets[best.value]);
  }

  // ----- parseSeedAndUpdateRanks -----

  /**
   * A piece of the seed file: text between entries, or one market entry
   * `{ rank: N, name: '…', state: '…', areaCode: '…' },` with its text and
   * its fields (none of which holds a quote).
   */
  datatype SeedPart =
    | Verbatim(text: string)
    | SeedEntry(full: string, oldRank: nat, name: string, state: string, areaCode: string)

  /** The pieces of an entry written back with a new rank, between its quotes. */
  function EntryPieces(rank: nat, name: string, state: string, areaCode: string): seq<string>
  {
    ["{ rank: " + NatToString(rank) + ", name: ", name, ", state: ", state, ", areaCode: ", areaCode, " },"]
  }

  /**
   * The entry written back with a new rank: its pieces joined with quotes,
   * `{ rank: N, name: 'NAME', state: 'ST', areaCode: 'AREA' },`.
   */
  function RenderEntry(rank: nat, name: string, state: string, areaCode: string): string
  {
    JoinWith(EntryPieces(rank, name, state, areaCode), '\'')
  }

  /** The rank the seed part takes: None for text and for an entry no DMA matches. */
  function NewRank(dmas: seq<Dma>, p: SeedPart): Option<nat>
  {
    if p.SeedEntry? then BestMatchForSeed(p.name, p.state, dmas) else None
  }

  /** The text a piece becomes: an entry with a rank found is rewritten, everything else stays. */
  function PartText(dmas: seq<Dma>, p: SeedPart): (r: string)
    ensures p.Verbatim? ==> r == p.text
    ensures p.SeedEntry? && NewRank(dmas, p).None? ==> r == p.full
  {
    match p
    case Verbatim(t) => t
    case SeedEntry(full, _, name, state, areaCode) =>
      match NewRank(dmas, p)
      case None => full
      case Some(rank) => RenderEntry(rank, name, state, areaCode)
  }

  /** The seed file written back. */
  function SeedText(dmas: seq<Dma>, parts: seq<SeedPart>): string
  {
    if |parts| == 0 then ""
    else SeedText(dmas, parts[..|parts| - 1]) + PartText(dmas, parts[|parts| - 1])
  }

  /** An entry whose rank changes: `parseInt(oldRank, 10) !== newRank`. */
  predicate EntryUpdated(dmas: seq<Dma>, p: SeedPart)
  {
    p.SeedEntry? && NewRank(dmas, p).Some? && NewRank(dmas, p).value != p.oldRank
  }

  /** An entry that keeps its old rank for want of a match. */
  predicate EntryUnmatched(dmas: seq<Dma>, p: SeedPart)
  {
    p.SeedEntry? && NewRank(dmas, p).None?
  }

  /** The number of entries of the pieces. */
  function EntryCount(parts: seq<SeedPart>): (r: nat)
    ensures r <= |parts|
  {
    if |parts| == 0 then 0
    else EntryCount(parts[..|parts| - 1]) + (if parts[|parts| - 1].SeedEntry? then 1 else 0)
  }

  /** The counters of parseSeedAndUpdateRanks. */
  function UpdatedCount(dmas: seq<Dma>, parts: seq<SeedPart>): (r: nat)
  {
    if |parts| == 0 then 0
    else UpdatedCount(dmas, parts[..|parts| - 1]) + (if EntryUpdated(dmas, parts[|parts| - 1]) then 1 else 0)
  }

  function UnmatchedCount(dmas: seq<Dma>, parts: seq<SeedPart>): (r: nat)
  {
    if |parts| == 0 then 0
    else UnmatchedCount(dmas, parts[..|parts| - 1]) + (if EntryUnmatched(dmas, parts[|parts| - 1]) then 1 else 0)
  }

  /** Every entry is counted at most once: updated, unmatched, or neither. */
  lemma {:induction false} CountsBound(dmas: seq<Dma>, parts: seq<SeedPart>)
    ensures UpdatedCount(dmas, parts) + UnmatchedCount(dmas, parts) <= EntryCount(parts)
  {
    if |parts| > 0 {
      CountsBound(dmas, parts[..|parts| - 1]);
    }
  }

  /**
   * The entry written back reads as the new rank and the same name, state
   * and area code: split at its quotes, the pieces are the rank part and the
   * three fields, and the rank part holds the new rank's digits.
   */
  lemma RenderEntryFields(rank: nat, name: string, state: string, areaCode: string)
    requires '\'' !in name && '\'' !in state && '\'' !in areaCode
    ensures Split(RenderEntry(rank, name, state, areaCode), '\'') == EntryPieces(rank, name, state, areaCode)
  {
    var parts := EntryPieces(rank, name, state, areaCode);
    NatToStringLacksQuote(rank);
    PiecesLackQuote(parts, rank);
    SplitJoin(parts, '\'');
  }

  /** The rank part parses back to the rank. */
  lemma RankPieceParses(rank: nat)
    ensures ParseIntJs(NatToString(rank) + ", name: ") == Some(rank)
  {
    ParseIntOfNatToString(rank, ", name: ");
  }

  lemma PiecesLackQuote(parts: seq<string>, rank: nat)
    requires |parts| == 7 && parts[0] == "{ rank: " + NatToString(rank) + ", name: "
    requires parts[2] == ", state: " && parts[4] == ", areaCode: " && parts[6] == " },"
    requires '\'' !in NatToString(rank) && '\'' !in parts[1] && '\'' !in parts[3] && '\'' !in parts[5]
    ensures forall i :: 0 <= i < |parts| ==> '\'' !in parts[i]
  {
    assert '\'' !in "{ rank: " && '\'' !in ", name: ";
  }

  lemma NatToStringLacksQuote(n: nat)
    ensures '\'' !in NatToString(n)
  {
    var r := NatToString(n);
    assert forall k :: 0 <= k < |r| ==> r[k] != '\'';
  }

  /** The loop body of the seed rewrite. */
  predicate SeedStep(dmas: seq<Dma>, p: SeedPart, text: string, updated: nat, unmatched: nat,
                     text2: string, updated2: nat, unmatched2: nat)
  {
    text2 == text + PartText(dmas, p) &&
    updated2 == updated + (if EntryUpdated(dmas, p) then 1 else 0) &&
    unmatched2 == unmatched + (if EntryUnmatched(dmas, p) then 1 else 0)
  }

  /** The replacement callback: the entry's text and whether it was updated or unmatched. */
  method ReplaceEntry(dmas: seq<Dma>, p: SeedPart) returns (t: string, isUpdated: bool, isUnmatched: bool)
    requires p.SeedEntry?
    ensures t == PartText(dmas, p) && isUpdated == EntryUpdated(dmas, p) && isUnmatched == EntryUnmatched(dmas, p)
  {
    var newRank := FindBestMatchForSeed(p.name, p.state, dmas);
    assert newRank == NewRank(dmas, p);
    if newRank.None? {
      return p.full, false, true;
    }
    isUpdated := p.oldRank != newRank.value;
    return RenderEntry(newRank.value, p.name, p.state, p.areaCode), isUpdated, false;
  }

  method RewritePart(dmas: seq<Dma>, p: SeedPart, text: string, updated: nat, unmatched: nat)
    returns (text2: string, updated2: nat, unmatched2: nat)
    ensures SeedStep(dmas, p, text, updated, unmatched, text2, updated2, unmatched2)
  {
    if p.Verbatim? {
      return text + p.text, updated, unmatched;
    }
    var t, isUpdated, isUnmatched := ReplaceEntry(dmas, p);
    text2 := text + t;
    updated2 := if isUpdated then updated + 1 else updated;
    unmatched2 := if isUnmatched then unmatched + 1 else unmatched;
  }

  lemma SeedStepExtends(dmas: seq<Dma>, parts: seq<SeedPart>, i: nat, text: string, updated: nat, unmatched: nat,
                        text2: string, updated2: nat, unmatched2: nat)
    requires i < |parts|
    requires text == SeedText(dmas, parts[..i])
    requires updated == UpdatedCount(dmas, parts[..i]) && unmatched == UnmatchedCount(dmas, parts[..i])
    requires SeedStep(dmas, parts[i], text, updated, unmatched, text2, updated2, unmatched2)
    ensures text2 == SeedText(dmas, parts[..i + 1])
    ensures updated2 == UpdatedCount(dmas, parts[..i + 1]) && unmatched2 == UnmatchedCount(dmas, parts[..i + 1])
  {
    assert parts[..i + 1][..i] == parts[..i];
  }

  /** parseSeedAndUpdateRanks: the replacement over every entry, with its two counters. */
  method ParseSeedAndUpdateRanks(parts: seq<SeedPart>, dmas: seq<Dma>) returns (text: string, updated: nat, unmatched: nat)
    ensures text == SeedText(dmas, parts)
    ensures updated == UpdatedCount(dmas, parts) && unmatched == UnmatchedCount(dmas, parts)
  {
    text, updated, unmatched := "", 0, 0;
    var i := 0;
    while i < |parts|
      invariant 0 <= i <= |parts|
      invariant text == SeedText(dmas, parts[..i])
      invariant updated == UpdatedCount(dmas, parts[..i]) && unmatched == UnmatchedCount(dmas, parts[..i])
    {
      var text2, updated2, unmatched2 := RewritePart(dmas, parts[i], text, updated, unmatched);
      SeedStepExtends(dmas, parts, i, text, updated, unmatched, text2, updated2, unmatched2);
      text, updated, unmatched := text2, updated2, unmatched2;
      i := i + 1;
    }
    assert parts[..i] == parts;
  }

  // ----- extractSeedMarkets -----

  /** The market an entry describes after the rewrite. */
  function UpdatedMarket(dmas: seq<Dma>, p: SeedPart): SeedMarket
    requires p.SeedEntry?
  {
    var rank := match NewRank(dmas, p) case None => p.oldRank case Some(r) => r;
    SeedMarket(rank, p.name, p.state, p.areaCode)
  }

  /**
   * extractSeedMarkets on the rewritten file: one market per entry, in
   * order. Each rewritten entry reads back as its new rank and its own
   * fields (RenderEntryFields), and the others are the text they were.
   */
  function SeedMarkets(dmas: seq<Dma>, parts: seq<SeedPart>): (r: seq<SeedMarket>)
    ensures |r| == EntryCount(parts)
  {
    if |parts| == 0 then []
    else
      var p := parts[|parts| - 1];
      SeedMarkets(dmas, parts[..|parts| - 1]) + (if p.SeedEntry? then [UpdatedMarket(dmas, p)] else [])
  }

  /** An entry a DMA matches takes that DMA's rank; the others keep theirs; names, states and area codes stay. */
  lemma UpdatedMarketRank(dmas: seq<Dma>, p: SeedPart)
    requires p.SeedEntry?
    ensures var m := UpdatedMarket(dmas, p);
      m.name == p.name && m.state == p.state && m.areaCode == p.areaCode &&
      (BestMatchForSeed(p.name, p.state, dmas).None? ==> m.rank == p.oldRank) &&
      (BestMatchForSeed(p.name, p.state, dmas).Some? ==>
         m.rank == BestMatchForSeed(p.name, p.state, dmas).value && exists k :: 0 <= k < |dmas| && dmas[k].rank == m.rank)
  {
  }

  // ----- updateCsvRanks -----

  /** The rank a City cell takes: the rank of the seed market matched on its city and state. */
  function CsvRank(markets: seq<SeedMarket>, cityField: string): Option<nat>
  {
    var cs := ParseCityAndState(CsvFile.StripOuterQuotes(cityField));
    match BestSeedForCsv(cs.city, cs.state, markets)
    case None => None
    case Some(m) => Some(m.rank)
  }

  /** The lookup the rewrite uses for every City cell. */
  function CsvRankOf(markets: seq<SeedMarket>): string -> Option<nat>
  {
    f => CsvRank(markets, f)
  }

  /** updateCsvRanks: the file rewritten, or the text as it was when the header lacks Rank or City. */
  function UpdateCsvRanks(markets: seq<SeedMarket>, csvText: string): (r: string)
    ensures Columns(csvText).None? ==> r == csvText
  {
    UpdateRanksNeedsColumns(CsvRankOf(markets), csvText);
    match UpdateRanks(CsvRankOf(markets), csvText)
    case None => csvText
    case Some(t) => t
  }

  /** With both columns, the text written has one line per line read, each as the rewrite makes it. */
  lemma UpdateCsvRanksLines(markets: seq<SeedMarket>, csvText: string)
    requires Columns(csvText).Some?
    ensures Split(UpdateCsvRanks(markets, csvText), '\n') == RewriteFile(CsvRankOf(markets), csvText).value
    ensures |Split(UpdateCsvRanks(markets, csvText), '\n')| == |Lines(csvText)|
  {
    UpdateRanksSplits(CsvRankOf(markets), csvText);
  }

  /** An empty City cell, or one of only a pair of quotes, has no token and finds no market. */
  lemma EmptyCellUnmatched(markets: seq<SeedMarket>)
    ensures CsvRank(markets, "") == None
    ensures CsvRank(markets, "\"\"") == None
  {
    assert CsvFile.StripOuterQuotes("") == "";
    assert CsvFile.StripOuterQuotes("\"\"") == "";
    NoTokens("");
    FilterNone(MarketScores([], None, markets), (x: Option<nat>) => x.Some?);
  }

  /** The CSV rewrite with its counters. */
  method UpdateCsvRanksRun(markets: seq<SeedMarket>, csvText: string) returns (r: string, updated: nat, unmatched: nat)
    ensures r == UpdateCsvRanks(markets, csvText)
    ensures Columns(csvText).Some? ==>
      updated == CountChanged(CsvRankOf(markets), Lines(csvText)[1..], Columns(csvText).value.0, Columns(csvText).value.1) &&
      unmatched == CountUnmatched(CsvRankOf(markets), Lines(csvText)[1..], Columns(csvText).value.1)
  {
    var written;
    written, updated, unmatched := UpdateRanksLoop(CsvRankOf(markets), csvText);
    r := if written.None? then csvText else written.value;
  }

  // ----- main -----

  const NoDmaMessage := "No DMA rows found in snapshot; aborting"

  /** The outcome of a run: aborted, or the seed file and the market file (when there is one) written back. */
  datatype RunResult = Aborted(message: string) | Wrote(seedText: string, csvText: Option<string>)

  /**
   * main: the DMAs sorted by rank, then the seed file rewritten, then the
   * market file rewritten from the seed markets of the rewritten seed.
   */
  function Run(dmas: seq<Dma>, seedParts: seq<SeedPart>, csvText: Option<string>): (r: RunResult)
    ensures r.Aborted? <==> |dmas| == 0
    ensures r.Aborted? ==> r.message == NoDmaMessage
    ensures r.Wrote? ==> r.csvText.Some? == csvText.Some?
  {
    var sorted := SortDmas(dmas);
    if |sorted| == 0 then Aborted(NoDmaMessage)
    else
      var markets := SeedMarkets(sorted, seedParts);
      Wrote(SeedText(sorted, seedParts),
            match csvText case None => None case Some(t) => Some(UpdateCsvRanks(markets, t)))
  }
}
