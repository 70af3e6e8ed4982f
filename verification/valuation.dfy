/** Profit arithmetic over the watchlist: one holding valued against its
    estimate (calculateHolding) and the account totals
    (calculateTotalAssets).  Numbers are exact reals; the host's
    `parseFloat` is the parameter `parse`. */
module Valuation {
  import opened Optional
  import opened Seqs
  import opened Estimate
  import opened Watchlist

  /** The derived figures for one holding. */
  datatype HoldingCalculation = HoldingCalculation(
    holdingAmount: real,
    holdingProfit: real,
    holdingProfitRate: real,
    todayProfit: real,
    costAmount: real)

  /** `parseFloat(field || '0')`: a missing or empty field reads as 0. */
  function FieldValue(f: Field, parse: string -> real): (v: real)
    ensures f.None? || f.value == "" ==> v == 0.0
    ensures f.Some? && f.value != "" ==> v == parse(f.value)
  {
    if f.None? || f.value == "" then 0.0 else parse(f.value)
  }

  /** calculateHolding.  The rate is a percentage of the cost and is 0
      whenever the cost is not positive, so it never divides by zero. */
  function CalculateHolding(h: FundHolding, e: FundEstimate, parse: string -> real): (c: HoldingCalculation)
    ensures c.holdingAmount == h.shares * FieldValue(e.gsz, parse)
    ensures c.costAmount == h.shares * h.costPrice
    ensures c.holdingProfit == c.holdingAmount - c.costAmount
    ensures c.costAmount > 0.0 ==> c.holdingProfitRate * c.costAmount == c.holdingProfit * 100.0
    ensures c.costAmount > 0.0 ==> (c.holdingProfitRate > 0.0 <==> c.holdingAmount > c.costAmount)
    ensures c.costAmount <= 0.0 ==> c.holdingProfitRate == 0.0
    ensures c.todayProfit * 100.0 == h.shares * FieldValue(e.dwjz, parse) * FieldValue(e.gszzl, parse)
  {
    var gsz := FieldValue(e.gsz, parse);
    var dwjz := FieldValue(e.dwjz, parse);
    var gszzl := FieldValue(e.gszzl, parse);
    var holdingAmount := h.shares * gsz;
    var costAmount := h.shares * h.costPrice;
    var holdingProfit := holdingAmount - costAmount;
    var holdingProfitRate := if costAmount > 0.0 then (holdingProfit / costAmount) * 100.0 else 0.0;
    var todayProfit := h.shares * dwjz * gszzl / 100.0;
    HoldingCalculation(holdingAmount, holdingProfit, holdingProfitRate, todayProfit, costAmount)
  }

  /** The worked example: 100 shares bought at 2.0, estimated NAV 2.5, last
      NAV 2.4, change 1.0 percent. */
  lemma WorkedExample(code: string, name: string, added: int, e: FundEstimate, parse: string -> real)
    requires e.gsz == Some("2.5") && e.dwjz == Some("2.4") && e.gszzl == Some("1.0")
    requires parse("2.5") == 2.5 && parse("2.4") == 2.4 && parse("1.0") == 1.0
    ensures var c := CalculateHolding(FundHolding(code, name, 100.0, 2.0, added), e, parse);
            && c.holdingAmount == 250.0
            && c.costAmount == 200.0
            && c.holdingProfit == 50.0
            && c.holdingProfitRate == 25.0
            && c.todayProfit == 2.4
  {
  }

  /** Valued against a fallback record, a holding is worth its shares times
      the last trend value (1 when absent or zero), and today's profit uses
      that value and the last point's equity return, provided `parseFloat`
      reads back what `String` wrote. */
  lemma FallbackValuation(h: FundHolding, code: string, src: FallbackSource, render: Render, parse: string -> real)
    requires RendersNumbers(render)
    requires forall v :: parse(render.number(v)) == v
    requires FallbackEstimate(code, src, render).Some?
    ensures var latest := src.trend[|src.trend| - 1];
            var c := CalculateHolding(h, FallbackEstimate(code, src, render).value, parse);
            && c.holdingAmount == h.shares * OrOne(latest.y)
            && c.todayProfit * 100.0 == h.shares * OrOne(latest.y) * OrZero(latest.equityReturn)
  {
    var latest := src.trend[|src.trend| - 1];
    var e := FallbackEstimate(code, src, render).value;
    assert FieldValue(e.gsz, parse) == OrOne(latest.y) by {
      assert parse(render.number(OrOne(latest.y))) == OrOne(latest.y);
    }
    assert FieldValue(e.gszzl, parse) == OrZero(latest.equityReturn) by {
      assert parse(render.number(OrZero(latest.equityReturn))) == OrZero(latest.equityReturn);
    }
  }

  // ---------------------------------------------------------------------
  // Account totals (calculateTotalAssets)
  // ---------------------------------------------------------------------

  /** A holding counts towards the totals when it has an estimate and a
      positive number of shares. */
  predicate Contributes(h: FundHolding, estimates: map<string, FundEstimate>) {
    h.code in estimates && h.shares > 0.0
  }

  /** Running sums of holding amount, cost and today's profit. */
  datatype Sums = Sums(assets: real, cost: real, today: real) {
    function Plus(o: Sums): Sums {
      Sums(assets + o.assets, cost + o.cost, today + o.today)
    }
  }

  /** What one holding adds to the sums. */
  function Contribution(h: FundHolding, estimates: map<string, FundEstimate>, parse: string -> real): Sums {
    if Contributes(h, estimates) then
      var c := CalculateHolding(h, estimates[h.code], parse);
      Sums(c.holdingAmount, c.costAmount, c.todayProfit)
    else Sums(0.0, 0.0, 0.0)
  }

  /** The sums of `f` over a list, last element added last. */
  function SumOver(hs: seq<FundHolding>, f: FundHolding -> Sums): Sums
    decreases |hs|
  {
    if |hs| == 0 then Sums(0.0, 0.0, 0.0)
    else SumOver(hs[..|hs| - 1], f).Plus(f(hs[|hs| - 1]))
  }

  /** Reference definition of the totals' sums: every holding's
      contribution, in list order. */
  function SumContributions(hs: seq<FundHolding>, estimates: map<string, FundEstimate>, parse: string -> real): Sums
  {
    SumOver(hs, h => Contribution(h, estimates, parse))
  }

  /** The account totals (the object calculateTotalAssets returns). */
  datatype Totals = Totals(
    totalAssets: real,
    totalCost: real,
    totalProfit: real,
    totalTodayProfit: real,
    totalProfitRate: real)

  /** Totals from sums: profit is assets minus cost, and the rate is a
      percentage of cost, 0 when cost is not positive. */
  function TotalsOf(s: Sums): (t: Totals)
    ensures t.totalAssets == s.assets && t.totalCost == s.cost && t.totalTodayProfit == s.today
    ensures t.totalProfit == t.totalAssets - t.totalCost
    ensures t.totalCost > 0.0 ==> t.totalProfitRate * t.totalCost == t.totalProfit * 100.0
    ensures t.totalCost > 0.0 ==> (t.totalProfitRate > 0.0 <==> t.totalAssets > t.totalCost)
    ensures t.totalCost <= 0.0 ==> t.totalProfitRate == 0.0
  {
    var profit := s.assets - s.cost;
    Totals(s.assets, s.cost, profit, s.today, if s.cost > 0.0 then (profit / s.cost) * 100.0 else 0.0)
  }

  /** calculateTotalAssets, with its single pass over the list. */
  method CalculateTotalAssets(holdings: seq<FundHolding>, estimates: map<string, FundEstimate>, parse: string -> real)
    returns (t: Totals)
    ensures t == TotalsOf(SumContributions(holdings, estimates, parse))
    ensures t.totalProfit == t.totalAssets - t.totalCost
    ensures t.totalCost <= 0.0 ==> t.totalProfitRate == 0.0
  {
    var totalAssets := 0.0;
    var totalCost := 0.0;
    var totalTodayProfit := 0.0;
    var i := 0;
    while i < |holdings|
      invariant 0 <= i <= |holdings|
      invariant Sums(totalAssets, totalCost, totalTodayProfit) == SumContributions(holdings[..i], estimates, parse)
    {
      var holding := holdings[i];
      if holding.code in estimates && holding.shares > 0.0 {
        var c := CalculateHolding(holding, estimates[holding.code], parse);
        totalAssets := totalAssets + c.holdingAmount;
        totalCost := totalCost + c.costAmount;
        totalTodayProfit := totalTodayProfit + c.todayProfit;
      }
      assert holdings[..i + 1][..i] == holdings[..i];
      i := i + 1;
    }
    assert holdings[..|holdings|] == holdings;
    var totalProfit := totalAssets - totalCost;
    var totalProfitRate := if totalCost > 0.0 then (totalProfit / totalCost) * 100.0 else 0.0;
    t := Totals(totalAssets, totalCost, totalProfit, totalTodayProfit, totalProfitRate);
  }

  /** The sums over a concatenation are the sums of the parts. */
  lemma {:induction false} SumOverAppend(a: seq<FundHolding>, b: seq<FundHolding>, f: FundHolding -> Sums)
    ensures SumOver(a + b, f) == SumOver(a, f).Plus(SumOver(b, f))
    decreases |b|
  {
    if |b| == 0 {
      assert a + b == a;
    } else {
      var b' := b[..|b| - 1];
      assert (a + b)[..|a + b| - 1] == a + b';
      assert (a + b)[|a + b| - 1] == b[|b| - 1];
      SumOverAppend(a, b', f);
    }
  }

  /** The same for the totals' sums. */
  lemma SumsAppend(a: seq<FundHolding>, b: seq<FundHolding>,
                   estimates: map<string, FundEstimate>, parse: string -> real)
    ensures SumContributions(a + b, estimates, parse)
         == SumContributions(a, estimates, parse).Plus(SumContributions(b, estimates, parse))
  {
    SumOverAppend(a, b, h => Contribution(h, estimates, parse));
  }

  /** An element `f` maps to zero can be dropped from the sum. */
  lemma SumOverSkip(a: seq<FundHolding>, h: FundHolding, b: seq<FundHolding>, f: FundHolding -> Sums)
    requires f(h) == Sums(0.0, 0.0, 0.0)
    ensures SumOver(a + [h] + b, f) == SumOver(a + b, f)
  {
    SumOverAppend(a + [h], b, f);
    SumOverAppend(a, [h], f);
    SumOverAppend(a, b, f);
    assert [h][..0] == [];
  }

  /** A holding without an estimate, or without shares, changes nothing in
      the totals wherever it stands in the list. */
  lemma NonContributingIgnored(a: seq<FundHolding>, h: FundHolding, b: seq<FundHolding>,
                               estimates: map<string, FundEstimate>, parse: string -> real)
    requires !Contributes(h, estimates)
    ensures TotalsOf(SumContributions(a + [h] + b, estimates, parse))
         == TotalsOf(SumContributions(a + b, estimates, parse))
  {
    SumOverSkip(a, h, b, h => Contribution(h, estimates, parse));
  }

  /** An empty list, or one where nothing contributes, totals to zero. */
  lemma {:induction false} NothingContributesGivesZero(hs: seq<FundHolding>, estimates: map<string, FundEstimate>, parse: string -> real)
    requires forall i :: 0 <= i < |hs| ==> !Contributes(hs[i], estimates)
    ensures TotalsOf(SumContributions(hs, estimates, parse)) == Totals(0.0, 0.0, 0.0, 0.0, 0.0)
    decreases |hs|
  {
    if |hs| > 0 {
      NothingContributesGivesZero(hs[..|hs| - 1], estimates, parse);
    }
  }

  /** The sum over a list is its first element's share plus the rest. */
  lemma SumOverCons(s: seq<FundHolding>, f: FundHolding -> Sums)
    requires |s| > 0
    ensures SumOver(s, f) == f(s[0]).Plus(SumOver(s[1..], f))
  {
    assert s == [s[0]] + s[1..];
    SumOverAppend([s[0]], s[1..], f);
    assert [s[0]][..0] == [];
  }

  /** Filtering out only elements `f` maps to zero keeps the sum. */
  lemma {:induction false} SumOverFilter(s: seq<FundHolding>, keep: FundHolding -> bool, f: FundHolding -> Sums)
    requires forall i :: 0 <= i < |s| && !keep(s[i]) ==> f(s[i]) == Sums(0.0, 0.0, 0.0)
    ensures SumOver(Filter(s, keep), f) == SumOver(s, f)
    decreases |s|
  {
    if |s| > 0 {
      var tail := s[1..];
      assert forall i :: 0 <= i < |tail| ==> tail[i] == s[i + 1];
      SumOverFilter(tail, keep, f);
      SumOverCons(s, f);
      if keep(s[0]) {
        var r := Filter(s, keep);
        assert r == [s[0]] + Filter(tail, keep);
        SumOverCons(r, f);
        assert r[1..] == Filter(tail, keep);
      } else {
        assert f(s[0]) == Sums(0.0, 0.0, 0.0);
      }
    }
  }

  /** Removing a fund that has no estimate leaves the totals as they were. */
  lemma RemoveUnvaluedKeepsTotals(s: Store, code: string,
                                  estimates: map<string, FundEstimate>, parse: string -> real)
    requires code !in estimates
    ensures SumContributions(RemoveMyFund(s, code), estimates, parse) == SumContributions(s, estimates, parse)
  {
    SumOverFilter(s, (h: FundHolding) => h.code != code, h => Contribution(h, estimates, parse));
  }
}
