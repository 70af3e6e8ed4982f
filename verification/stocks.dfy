/** The top-holdings card (getFundStockHoldings): the fund's constituent
    security ids, at most ten of them quoted one by one, failed quotes
    dropped, and a synthetic weight and change attached to each.  Each
    quote request's answer, including the random draw getStockInfo makes
    for the change, is an input. */
module Stocks {
  import opened Optional
  import opened Text
  import opened Seqs

  /** Direction of the change in holding since the last period. */
  datatype ChangeType = Up | Down | Same | New

  /** One holding row.  `stockCode` is absent when the quote has no code
      and the secid has no `.` (JavaScript's `undefined`). */
  datatype StockHolding = StockHolding(
    stockCode: Option<string>,
    stockName: string,
    holdRatio: real,
    holdChange: real,
    changeType: ChangeType,
    priceChange: real)

  /** The answer to one quote request.  `NoQuote` covers a failed request,
      a non-200 status, an empty body, a body without `data`, and a parse
      error.  Otherwise the code (`f57`), name (`f58`), change in hundredths
      of a percent (`f170`), and `drawn`, the value of
      `parseFloat((Math.random() * 2 - 1).toFixed(2))`. */
  datatype Quote = NoQuote | Quoted(f57: Option<string>, f58: Option<string>, f170: real, drawn: real)

  /** The synthetic weight of the holding at `index`:
      `max(15 - 1.2 * index, 1)`, a stand-in for disclosed weights. */
  function Weight(index: nat): (w: real)
    ensures 1.0 <= w <= 15.0
    ensures w >= 15.0 - 1.2 * index as real
    ensures w == 15.0 - 1.2 * index as real || w == 1.0
  {
    var ratio := 15.0 - (index as real) * 1.2;
    if ratio > 1.0 then ratio else 1.0
  }

  /** Later positions never get a larger weight. */
  lemma WeightNonIncreasing(i: nat, j: nat)
    requires i <= j
    ensures Weight(j) <= Weight(i)
  {
  }

  /** `s.split('.')[1]`: the text between the first `.` and the next one
      (or the end); absent when `s` has no `.`. */
  function SecondSegment(s: string): (r: Option<string>)
    ensures r.None? <==> '.' !in s
    ensures r.Some? ==> '.' !in r.value
    ensures r.Some? ==> exists i :: 0 <= i < |s| && s[i] == '.' && '.' !in s[..i] && OccursAt(s, r.value, i + 1)
                                    && (i + 1 + |r.value| == |s| || s[i + 1 + |r.value|] == '.')
  {
    match AfterFirstDot(s)
    case None => None
    case Some(rest) =>
      var i :| 0 <= i < |s| && s[i] == '.' && '.' !in s[..i] && rest == s[i + 1..];
      SegmentAfterDot(s, i);
      Some(UpToDot(rest))
  }

  /** The text up to the next `.` after index `i` sits at `i + 1` in `s` and
      ends at a `.` or at the end of `s`. */
  lemma SegmentAfterDot(s: string, i: nat)
    requires i < |s|
    ensures var u := UpToDot(s[i + 1..]);
      OccursAt(s, u, i + 1) && (i + 1 + |u| == |s| || s[i + 1 + |u|] == '.')
  {
    var u := UpToDot(s[i + 1..]);
    assert s[i + 1..][..|u|] == s[i + 1..i + 1 + |u|];
  }

  /** The text after the first `.`. */
  function AfterFirstDot(s: string): (r: Option<string>)
    ensures r.None? <==> '.' !in s
    ensures r.Some? ==> exists i :: 0 <= i < |s| && s[i] == '.' && '.' !in s[..i] && r.value == s[i + 1..]
    decreases |s|
  {
    if |s| == 0 then None
    else if s[0] == '.' then
      assert s[..0] == [];
      Some(s[1..])
    else match AfterFirstDot(s[1..])
      case None =>
        assert s == [s[0]] + s[1..];
        None
      case Some(rest) =>
        var i :| 0 <= i < |s[1..]| && s[1..][i] == '.' && '.' !in s[1..][..i] && rest == s[1..][i + 1..];
        assert s[..i + 1] == [s[0]] + s[1..][..i];
        assert s[i + 2..] == s[1..][i + 1..];
        Some(rest)
  }

  /** The text before the first `.`, or all of `s`. */
  function UpToDot(s: string): (r: string)
    ensures |r| <= |s| && r == s[..|r|]
    ensures '.' !in r
    ensures |r| < |s| ==> s[|r|] == '.'
    decreases |s|
  {
    if |s| == 0 || s[0] == '.' then []
    else [s[0]] + UpToDot(s[1..])
  }

  /** A secid is market, `.`, ticker; its second segment is the ticker. */
  lemma SecondSegmentOfSecid(market: string, ticker: string)
    requires '.' !in market && '.' !in ticker
    ensures SecondSegment(market + "." + ticker) == Some(ticker)
  {
    var s := market + "." + ticker;
    var rest := AfterFirstDot(s).value;
    var i :| 0 <= i < |s| && s[i] == '.' && '.' !in s[..i] && rest == s[i + 1..];
    assert forall j :: 0 <= j < |market| ==> s[j] == market[j];
    assert s[|market|] == '.';
    assert i == |market|;
    assert rest == ticker;
    var u := UpToDot(ticker);
    assert |u| == |ticker|;
    assert u == ticker[..|u|] == ticker;
  }

  /** getStockInfo for the secid at `index`: no row without a quote;
      otherwise code and name fall back to the secid's ticker and '未知',
      the weight is synthetic, and the change's direction is the sign of
      the draw while its size is the draw's magnitude. */
  function GetStockInfo(secid: string, index: nat, q: Quote): (r: Option<StockHolding>)
    ensures r.Some? <==> q.Quoted?
    ensures r.Some? ==> r.value.holdRatio == Weight(index) && r.value.holdRatio >= 1.0
    ensures r.Some? ==> r.value.holdChange >= 0.0 && r.value.changeType != New
    ensures r.Some? ==> (r.value.changeType == Up <==> q.drawn > 0.0)
    ensures r.Some? ==> (r.value.changeType == Down <==> q.drawn < 0.0)
    ensures r.Some? ==> (r.value.changeType == Same <==> q.drawn == 0.0)
    ensures r.Some? ==> (r.value.holdChange == q.drawn || r.value.holdChange == -q.drawn)
    ensures r.Some? ==> r.value.priceChange * 100.0 == q.f170
    ensures r.Some? && (q.f57.None? || q.f57.value == "") ==> r.value.stockCode == SecondSegment(secid)
    ensures r.Some? && q.f57.Some? && q.f57.value != "" ==> r.value.stockCode == q.f57
    ensures r.Some? && (q.f58.None? || q.f58.value == "") ==> r.value.stockName == "未知"
    ensures r.Some? && q.f58.Some? && q.f58.value != "" ==> r.value.stockName == q.f58.value
    ensures r.Some? ==> r.value.stockName != ""
  {
    match q
    case NoQuote => None
    case Quoted(f57, f58, f170, drawn) =>
      Some(StockHolding(
        stockCode := if f57.Some? && f57.value != "" then f57 else SecondSegment(secid),
        stockName := if f58.Some? && f58.value != "" then f58.value else "未知",
        holdRatio := Weight(index),
        holdChange := if drawn < 0.0 then -drawn else drawn,
        changeType := if drawn > 0.0 then Up else if drawn < 0.0 then Down else Same,
        priceChange := f170 / 100.0))
  }

  // ---------------------------------------------------------------------
  // The batch (getStockInfoBatch)
  // ---------------------------------------------------------------------

  /** A per-request outcome: the row that the request for an id at a
      position settles with, if any. */
  type Fetch = (string, nat) -> Option<StockHolding>

  /** Each request's settled row, in request order; a request's index is
      its position in `secids`. */
  function Settled(secids: seq<string>, info: Fetch): (r: seq<Option<StockHolding>>)
    ensures |r| == |secids|
    ensures forall i :: 0 <= i < |secids| ==> r[i] == info(secids[i], i)
  {
    seq(|secids|, (i: int) requires 0 <= i < |secids| => info(secids[i], i))
  }

  /** The request settled with a row. */
  predicate Settles(o: Option<StockHolding>) {
    o.Some?
  }

  /** The rows that settled from `from` on, in order (the `forEach` that
      pushes fulfilled non-null values). */
  function Rows(outs: seq<Option<StockHolding>>, from: nat): (r: seq<StockHolding>)
    requires from <= |outs|
    ensures var p := Positions(outs, Settles, from);
            |r| == |p| && forall k :: 0 <= k < |r| ==> outs[p[k]] == Some(r[k])
    decreases |outs| - from
  {
    if from == |outs| then []
    else if outs[from].Some? then [outs[from].value] + Rows(outs, from + 1)
    else Rows(outs, from + 1)
  }

  /** The successful rows of a batch of requests: one per request that
      settled with a row, in request order. */
  function Collect(secids: seq<string>, info: Fetch): (r: seq<StockHolding>)
    ensures var p := Positions(Settled(secids, info), Settles, 0);
            |r| == |p| && forall k :: 0 <= k < |r| ==> p[k] < |secids| && info(secids[p[k]], p[k]) == Some(r[k])
    ensures (forall i :: 0 <= i < |secids| ==> info(secids[i], i).Some?) ==> |r| == |secids|
  {
    var outs := Settled(secids, info);
    var rows := Rows(outs, 0);
    assert (forall i :: 0 <= i < |secids| ==> info(secids[i], i).Some?) ==> |rows| == |secids| by {
      if forall i :: 0 <= i < |secids| ==> info(secids[i], i).Some? {
        PositionsOfAll(outs, Settles, 0);
      }
    }
    rows
  }

  /** When each request's row carries its position's weight, the collected
      rows' weights never increase. */
  lemma CollectOrderedByWeight(secids: seq<string>, info: Fetch)
    requires forall i :: 0 <= i < |secids| && info(secids[i], i).Some? ==> info(secids[i], i).value.holdRatio == Weight(i)
    ensures var r := Collect(secids, info);
            forall k, l :: 0 <= k < l < |r| ==> r[l].holdRatio <= r[k].holdRatio
  {
    var rows := Collect(secids, info);
    var pos := Positions(Settled(secids, info), Settles, 0);
    forall k, l | 0 <= k < l < |rows| ensures rows[l].holdRatio <= rows[k].holdRatio {
      assert info(secids[pos[k]], pos[k]) == Some(rows[k]);
      assert info(secids[pos[l]], pos[l]) == Some(rows[l]);
      WeightNonIncreasing(pos[k], pos[l]);
    }
  }

  /** One quote request per id, at its own position. */
  function PerRequest(respond: (string, nat) -> Quote): Fetch {
    (secid: string, index: nat) => GetStockInfo(secid, index, respond(secid, index))
  }

  /** getStockInfoBatch: the rows of the requests that succeeded, in request
      order, the first ten of them. */
  function GetStockInfoBatch(secids: seq<string>, respond: (string, nat) -> Quote): (r: seq<StockHolding>)
    ensures var p := Positions(Settled(secids, PerRequest(respond)), Settles, 0);
            && |r| == (if |p| <= 10 then |p| else 10)
            && forall k :: 0 <= k < |r| ==>
                 p[k] < |secids| && GetStockInfo(secids[p[k]], p[k], respond(secids[p[k]], p[k])) == Some(r[k])
    ensures (forall i :: 0 <= i < |secids| ==> respond(secids[i], i).Quoted?) && |secids| <= 10 ==> |r| == |secids|
  {
    var info := PerRequest(respond);
    var rows := Collect(secids, info);
    var p := Positions(Settled(secids, info), Settles, 0);
    assert forall k :: 0 <= k < |rows| ==>
      GetStockInfo(secids[p[k]], p[k], respond(secids[p[k]], p[k])) == Some(rows[k]) by {
      forall k | 0 <= k < |rows|
        ensures GetStockInfo(secids[p[k]], p[k], respond(secids[p[k]], p[k])) == Some(rows[k])
      {
        assert info(secids[p[k]], p[k]) == Some(rows[k]);
      }
    }
    assert (forall i :: 0 <= i < |secids| ==> respond(secids[i], i).Quoted?) ==> |rows| == |secids| by {
      if forall i :: 0 <= i < |secids| ==> respond(secids[i], i).Quoted? {
        assert forall i :: 0 <= i < |secids| ==> info(secids[i], i).Some?;
      }
    }
    if |rows| <= 10 then rows else rows[..10]
  }

  /** The batch is ordered by weight, largest first. */
  lemma BatchOrderedByWeight(secids: seq<string>, respond: (string, nat) -> Quote)
    ensures var r := GetStockInfoBatch(secids, respond);
            forall k, l :: 0 <= k < l < |r| ==> r[l].holdRatio <= r[k].holdRatio
  {
    var info := PerRequest(respond);
    forall i | 0 <= i < |secids| && info(secids[i], i).Some?
      ensures info(secids[i], i).value.holdRatio == Weight(i)
    {
      assert info(secids[i], i) == GetStockInfo(secids[i], i, respond(secids[i], i));
    }
    CollectOrderedByWeight(secids, info);
    var rows := Collect(secids, info);
    var r := GetStockInfoBatch(secids, respond);
    assert forall k :: 0 <= k < |r| ==> r[k] == rows[k];
  }

  /** When every quote answers, the batch is every id's row, in order, up
      to ten. */
  lemma BatchAllAnswered(secids: seq<string>, respond: (string, nat) -> Quote)
    requires forall i :: 0 <= i < |secids| ==> respond(secids[i], i).Quoted?
    ensures var r := GetStockInfoBatch(secids, respond);
            && |r| == (if |secids| <= 10 then |secids| else 10)
            && forall i :: 0 <= i < |r| ==> Some(r[i]) == GetStockInfo(secids[i], i, respond(secids[i], i))
  {
    var info := PerRequest(respond);
    var outs := Settled(secids, info);
    assert forall i :: 0 <= i < |outs| ==> Settles(outs[i]) by {
      forall i | 0 <= i < |outs| ensures Settles(outs[i]) {
        assert outs[i] == GetStockInfo(secids[i], i, respond(secids[i], i));
      }
    }
    PositionsOfAll(outs, Settles, 0);
  }

  // ---------------------------------------------------------------------
  // The security ids (getFundStockHoldings)
  // ---------------------------------------------------------------------

  /** Where the ids came from.  The script strategy reads the page's
      `stockCodesNew` global as it is (`[]` when absent, on timeout or on
      load error); the direct strategy extracts the quoted strings of the
      `stockCodesNew` array from the page text; `NoCodes` is a failed
      request or a page without the array. */
  datatype CodeSource = ScriptCodes(codes: seq<string>) | PageCodes(quoted: seq<string>) | NoCodes

  /** A secid has a market prefix separated by `.`. */
  predicate HasDot(c: string) {
    '.' in c
  }

  /** The ids to quote: the script strategy's list unfiltered, the direct
      strategy's list filtered to those with a `.`. */
  function StockCodes(src: CodeSource): (r: seq<string>)
    ensures src.PageCodes? ==> (forall k :: 0 <= k < |r| ==> HasDot(r[k])) && IsSubsequence(r, src.quoted)
    ensures src.PageCodes? ==> forall k :: 0 <= k < |src.quoted| && HasDot(src.quoted[k]) ==> src.quoted[k] in r
    ensures src.PageCodes? ==> forall c :: multiset(r)[c] == if HasDot(c) then multiset(src.quoted)[c] else 0
    ensures src.ScriptCodes? ==> r == src.codes
    ensures src.NoCodes? ==> r == []
  {
    match src
    case ScriptCodes(codes) => codes
    case PageCodes(quoted) => Filter(quoted, HasDot)
    case NoCodes => []
  }

  /** The ids actually quoted: the first ten (`slice(0, 10)`). */
  function Requested(src: CodeSource): (r: seq<string>)
    ensures |r| <= 10
    ensures |r| == |StockCodes(src)| || |r| == 10
    ensures |r| <= |StockCodes(src)| && r == StockCodes(src)[..|r|]
  {
    var codes := StockCodes(src);
    if |codes| <= 10 then codes else codes[..10]
  }

  /** getFundStockHoldings: quote the first ten ids; no ids, no rows.
      Each row is the row of one requested id at its own position, one per
      answered quote, in request order. */
  function GetFundStockHoldings(src: CodeSource, respond: (string, nat) -> Quote): (r: seq<StockHolding>)
    ensures |r| <= |Requested(src)| <= 10
    ensures |StockCodes(src)| == 0 ==> r == []
    ensures var ids := Requested(src);
            var p := Positions(Settled(ids, PerRequest(respond)), Settles, 0);
            && |r| == |p|
            && forall k :: 0 <= k < |r| ==>
                 p[k] < |ids| && GetStockInfo(ids[p[k]], p[k], respond(ids[p[k]], p[k])) == Some(r[k])
  {
    if |StockCodes(src)| == 0 then []
    else GetStockInfoBatch(Requested(src), respond)
  }
}
