/** Fund search (searchFunds): a blank keyword shows the hot list; otherwise
    the suggestion service's fund entries, and when it yields none or fails,
    the hot funds whose code or name contains the keyword. */
module Search {
  import opened Optional
  import opened Text
  import opened Seqs

  /** One search hit.  The hot list carries no type (`undefined`). */
  datatype SearchResult = SearchResult(code: string, name: string, ftype: Option<string>)

  /** The built-in hot funds, in display order. */
  const HotFunds: seq<SearchResult> := [
    SearchResult("006228", "中欧医疗健康混合A", None),
    SearchResult("320007", "诺安成长混合", None),
    SearchResult("161725", "招商中证白酒指数", None),
    SearchResult("001632", "天弘中证银行指数A", None),
    SearchResult("016708", "华夏有色金属ETF联接C", None),
    SearchResult("004433", "南方有色金属ETF联接C", None),
    SearchResult("019875", "广发稀有金属ETF联接C", None)
  ]

  /** One entry of the service's `Datas` array: `null`, or an object.  In
      an object, absent strings (no `NAME`, no `FundBaseInfo`, no
      `SHORTNAME`, no `FTYPE`) are ''; an absent `CATEGORY` is `None`. */
  datatype SearchItem =
    | NullItem
    | Item(category: Option<int>, code: string, name: string, shortName: string, ftype: string)

  /** What the request yielded.  `datas` is `None` when the body is empty,
      is text that is not `jQuery({...})`, does not parse, or has no `Datas`
      array. */
  datatype SearchResponse = SearchFailed | SearchAnswer(status: int, datas: Option<seq<SearchItem>>)

  /** The service's code for a fund entry. */
  const FundCategory := 700

  /** `item.CATEGORY === 700 && item.CODE`. */
  predicate IsFundItem(item: SearchItem) {
    item.Item? && item.category == Some(FundCategory) && item.code != ""
  }

  /** The hit for a fund entry: name from `NAME`, else `SHORTNAME`, else
      ''; type `FTYPE` or ''. */
  function ToResult(item: SearchItem): (r: SearchResult)
    requires item.Item?
    ensures r.code == item.code && r.ftype == Some(item.ftype)
    ensures item.name != "" ==> r.name == item.name
    ensures item.name == "" ==> r.name == item.shortName
  {
    SearchResult(item.code, if item.name != "" then item.name else item.shortName, Some(item.ftype))
  }

  /** The hits of a `Datas` array without `null` entries: one per fund
      entry, in the array's order (the `forEach` that pushes one hit per
      fund entry). */
  function FundResults(items: seq<SearchItem>): (r: seq<SearchResult>)
    ensures var p := Positions(items, IsFundItem, 0);
            |r| == |p| && forall k :: 0 <= k < |r| ==> r[k] == ToResult(items[p[k]])
    ensures forall k :: 0 <= k < |r| ==> r[k].code != "" && r[k].ftype.Some?
  {
    FundHits(items, 0)
  }

  /** The hits of the entries from `from` on. */
  function FundHits(items: seq<SearchItem>, from: nat): (r: seq<SearchResult>)
    requires from <= |items|
    ensures var p := Positions(items, IsFundItem, from);
            |r| == |p| && forall k :: 0 <= k < |r| ==> r[k] == ToResult(items[p[k]])
    decreases |items| - from
  {
    if from == |items| then []
    else if IsFundItem(items[from]) then [ToResult(items[from])] + FundHits(items, from + 1)
    else FundHits(items, from + 1)
  }

  /** No fund entry is missed. */
  lemma FundResultsComplete(items: seq<SearchItem>, i: nat)
    requires i < |items| && IsFundItem(items[i])
    ensures ToResult(items[i]) in FundResults(items)
  {
    var p := Positions(items, IsFundItem, 0);
    PositionsComplete(items, IsFundItem, 0, i);
    var k :| 0 <= k < |p| && p[k] == i;
    assert FundResults(items)[k] == ToResult(items[i]);
  }

  /** The hits are empty exactly when no entry is a fund entry. */
  lemma FundResultsEmpty(items: seq<SearchItem>)
    ensures |FundResults(items)| == 0 <==> forall i :: 0 <= i < |items| ==> !IsFundItem(items[i])
  {
    PositionsNone(items, IsFundItem, 0);
  }

  /** `f.code.includes(keyword) || f.name.includes(keyword)`. */
  predicate MatchesKeyword(keyword: string, f: SearchResult) {
    Contains(f.code, keyword) || Contains(f.name, keyword)
  }

  /** The local fallback over a list: the entries matching the keyword,
      in order. */
  function MatchesIn(list: seq<SearchResult>, keyword: string): (r: seq<SearchResult>)
    ensures IsSubsequence(r, list)
    ensures forall f :: f in r <==> f in list && MatchesKeyword(keyword, f)
    ensures forall f :: multiset(r)[f] == if MatchesKeyword(keyword, f) then multiset(list)[f] else 0
  {
    var r := Filter(list, f => MatchesKeyword(keyword, f));
    forall f | f in list && MatchesKeyword(keyword, f) ensures f in r {
      var i :| 0 <= i < |list| && list[i] == f;
    }
    r
  }

  /** The hot funds matching the keyword. */
  function HotMatches(keyword: string): seq<SearchResult> {
    MatchesIn(HotFunds, keyword)
  }

  /** searchFunds.  A blank keyword returns the hot list without a request;
      a 200 answer with fund entries returns their hits; anything else —
      no fund entries, a bad answer, a failed request — returns the hot
      funds matching the (untrimmed) keyword.  A `null` entry makes the
      `forEach` throw, and the catch falls back to the hot funds too. */
  function SearchFunds(keyword: string, resp: SearchResponse): (r: seq<SearchResult>)
    ensures IsBlank(keyword) ==> r == HotFunds
    ensures !IsBlank(keyword) && resp.SearchAnswer? && resp.status == 200 && resp.datas.Some?
            && NullItem !in resp.datas.value
            && (exists i :: 0 <= i < |resp.datas.value| && IsFundItem(resp.datas.value[i]))
            ==> r == FundResults(resp.datas.value) && |r| > 0
    ensures !IsBlank(keyword) && resp.SearchAnswer? && resp.datas.Some? && NullItem in resp.datas.value
            ==> r == HotMatches(keyword)
    ensures !IsBlank(keyword) && (resp.SearchFailed? || resp.status != 200 || resp.datas.None?)
            ==> r == HotMatches(keyword)
    ensures !IsBlank(keyword) && resp.SearchAnswer? && resp.datas.Some?
            && (forall i :: 0 <= i < |resp.datas.value| ==> !IsFundItem(resp.datas.value[i]))
            ==> r == HotMatches(keyword)
    ensures forall f :: f in r && f.ftype.None? ==> f in HotFunds
  {
    if IsBlank(keyword) then HotFunds
    else match resp
      case SearchAnswer(200, Some(items)) =>
        if NullItem in items then HotMatches(keyword)
        else
          var results := FundResults(items);
          FundResultsEmpty(items);
          if |results| > 0 then results else HotMatches(keyword)
      case _ => HotMatches(keyword)
  }

  /** Every hit of the local fallback comes from the hot list and contains
      the keyword; a hot fund that contains it is never missed. */
  lemma FallbackIsExactlyTheMatches(keyword: string, resp: SearchResponse, f: SearchResult)
    requires !IsBlank(keyword)
    requires resp.SearchFailed? || resp.status != 200 || resp.datas.None?
    ensures f in SearchFunds(keyword, resp) <==> f in HotFunds && MatchesKeyword(keyword, f)
  {
  }

  /** Every hot fund code is six decimal digits. */
  lemma HotCodesAreDigits()
    ensures forall i :: 0 <= i < |HotFunds| ==> |HotFunds[i].code| == 6 && '0' <= HotFunds[i].code[0] <= '9'
  {
  }

  /** A code that starts with a digit is not blank and contains itself. */
  lemma CodeMatchesItself(f: SearchResult)
    requires |f.code| > 0 && '0' <= f.code[0] <= '9'
    ensures !IsBlank(f.code) && MatchesKeyword(f.code, f)
  {
    assert !IsSpace(f.code[0]);
    assert OccursAt(f.code, f.code, 0) by {
      assert f.code[0..|f.code|] == f.code;
    }
    ContainsAt(f.code, f.code, 0);
  }

  /** Typing a hot fund's full code finds that fund even when the service
      is unreachable. */
  lemma HotCodeFoundOffline(i: nat)
    requires i < |HotFunds|
    ensures HotFunds[i] in SearchFunds(HotFunds[i].code, SearchFailed)
  {
    var f := HotFunds[i];
    HotCodesAreDigits();
    CodeMatchesItself(f);
    assert f in HotFunds;
  }
}
