/** The sector guessed from a fund's name (getFundSector): an ordered
    keyword table, first match wins, with an override for index funds read
    from the index family's name inside the fund name. */
module Sector {
  import opened Optional
  import opened Text
  import opened Estimate

  /** A keyword is never empty. */
  type Word = w: string | |w| > 0 witness "AI"

  /** One row of the keyword table: a keyword and the sector it names. */
  datatype Keyword = Keyword(word: Word, sector: string)

  /** The keyword table, in priority order (the insertion order of the
      object literal, which `Object.entries` preserves for these keys). */
  const SectorKeywords: seq<Keyword> := [
    Keyword("白银", "白银"),
    Keyword("黄金", "黄金"),
    Keyword("原油", "原油"),
    Keyword("期货", "商品期货"),
    Keyword("卫星", "商业航天"),
    Keyword("航天", "商业航天"),
    Keyword("稀有", "稀土永磁"),
    Keyword("稀土", "稀土永磁"),
    Keyword("有色", "有色金属"),
    Keyword("金属", "有色金属"),
    Keyword("医疗", "医疗保健"),
    Keyword("医药", "医疗保健"),
    Keyword("健康", "医疗保健"),
    Keyword("白酒", "白酒饮料"),
    Keyword("消费", "消费板块"),
    Keyword("科技", "科技板块"),
    Keyword("半导体", "半导体"),
    Keyword("芯片", "半导体"),
    Keyword("新能源", "新能源"),
    Keyword("光伏", "新能源"),
    Keyword("银行", "银行金融"),
    Keyword("金融", "银行金融"),
    Keyword("军工", "军工板块"),
    Keyword("国防", "军工板块"),
    Keyword("通信", "通信板块"),
    Keyword("5G", "通信板块"),
    Keyword("互联网", "互联网"),
    Keyword("人工智能", "人工智能"),
    Keyword("AI", "人工智能"),
    Keyword("机器人", "机器人"),
    Keyword("电动车", "汽车板块"),
    Keyword("汽车", "汽车板块"),
    Keyword("地产", "房地产"),
    Keyword("房地产", "房地产"),
    Keyword("煤炭", "煤炭板块"),
    Keyword("石油", "石油石化"),
    Keyword("化工", "化工板块"),
    Keyword("农业", "农业板块"),
    Keyword("食品", "食品饮料"),
    Keyword("证券", "证券板块"),
    Keyword("保险", "保险板块"),
    Keyword("电力", "电力板块"),
    Keyword("环保", "环保板块"),
    Keyword("传媒", "传媒板块"),
    Keyword("游戏", "游戏板块"),
    Keyword("铜", "铜"),
    Keyword("钢铁", "钢铁板块"),
    Keyword("豆粕", "农产品"),
    Keyword("能源化工", "能源化工")
  ]

  /** The label used when no keyword matches. */
  const DefaultSector: string := "混合型"

  /** The sector of the first keyword, from row `k` on, that `name` contains. */
  function FirstSectorFrom(name: string, k: nat): (r: Option<string>)
    requires k <= |SectorKeywords|
    ensures r.None? <==> forall i :: k <= i < |SectorKeywords| ==> !Contains(name, SectorKeywords[i].word)
    ensures r.Some? ==> exists i :: k <= i < |SectorKeywords| && FirstMatchAt(name, i, k)
                                    && r.value == SectorKeywords[i].sector
    decreases |SectorKeywords| - k
  {
    if k == |SectorKeywords| then None
    else if Contains(name, SectorKeywords[k].word) then Some(SectorKeywords[k].sector)
    else FirstSectorFrom(name, k + 1)
  }

  /** Row `i` is the first row at or after `k` whose keyword `name` contains. */
  predicate FirstMatchAt(name: string, i: nat, k: nat)
    requires k <= i < |SectorKeywords|
  {
    Contains(name, SectorKeywords[i].word)
    && forall j :: k <= j < i ==> !Contains(name, SectorKeywords[j].word)
  }

  /** The table scan over the whole table. */
  function FirstSector(name: string): Option<string> {
    FirstSectorFrom(name, 0)
  }

  // ---------------------------------------------------------------------
  // The index-name pattern /(中证|沪深|上证|深证)([^\s]+?)(指数|ETF)/
  // ---------------------------------------------------------------------

  /** One of the index-family prefixes starts at `p`. */
  predicate FamilyAt(s: string, p: nat) {
    OccursAt(s, "中证", p) || OccursAt(s, "沪深", p) || OccursAt(s, "上证", p) || OccursAt(s, "深证", p)
  }

  /** One of the suffixes `指数` or `ETF` starts at `q`. */
  predicate SuffixAt(s: string, q: nat) {
    OccursAt(s, "指数", q) || OccursAt(s, "ETF", q)
  }

  /** No white space in `s[lo..hi]`. */
  predicate NoSpace(s: string, lo: nat, hi: nat)
    requires lo <= hi <= |s|
  {
    forall k :: lo <= k < hi ==> !IsSpace(s[k])
  }

  /** Reference semantics: the pattern matches at `p` with the middle group
      `s[p + 2..q]`. */
  predicate IsIndexMatch(s: string, p: nat, q: nat) {
    p + 2 < q <= |s| && FamilyAt(s, p) && NoSpace(s, p + 2, q) && SuffixAt(s, q)
  }

  /** The lazy `+?`: the least end `q`, from `q` on, at which the suffix
      follows a white-space-free middle. */
  function MiddleEnd(s: string, p: nat, q: nat): (r: Option<nat>)
    requires p + 2 < q <= |s| && NoSpace(s, p + 2, q)
    ensures r.Some? ==> q <= r.value <= |s| && NoSpace(s, p + 2, r.value) && SuffixAt(s, r.value)
                        && forall q' :: q <= q' < r.value ==> !SuffixAt(s, q')
    ensures r.None? ==> forall q' :: q <= q' <= |s| && NoSpace(s, p + 2, q') ==> !SuffixAt(s, q')
    decreases |s| - q
  {
    if SuffixAt(s, q) then Some(q)
    else if q < |s| && !IsSpace(s[q]) then MiddleEnd(s, p, q + 1)
    else None
  }

  /** The middle group of a match that starts at `p`, if any. */
  function MatchAt(s: string, p: nat): (r: Option<string>)
    ensures r.Some? ==> exists q: nat :: IsIndexMatch(s, p, q) && r.value == s[p + 2..q]
                                    && forall q': nat :: q' < q ==> !IsIndexMatch(s, p, q')
    ensures r.None? ==> forall q: nat :: !IsIndexMatch(s, p, q)
  {
    if p + 2 < |s| && FamilyAt(s, p) && !IsSpace(s[p + 2]) then
      match MiddleEnd(s, p, p + 3)
      case Some(q) =>
        assert IsIndexMatch(s, p, q);
        assert forall q': nat :: q' < q ==> !IsIndexMatch(s, p, q');
        Some(s[p + 2..q])
      case None => None
    else None
  }

  /** The leftmost match at or after `p`. */
  function IndexMiddleFrom(s: string, p: nat): (r: Option<string>)
    ensures r.Some? ==> exists p': nat, q: nat :: p <= p' && IsIndexMatch(s, p', q) && r.value == s[p' + 2..q]
                                        && (forall p'': nat, q': nat :: p <= p'' < p' ==> !IsIndexMatch(s, p'', q'))
                                        && (forall q': nat :: q' < q ==> !IsIndexMatch(s, p', q'))
    ensures r.None? ==> forall p': nat, q: nat :: p <= p' ==> !IsIndexMatch(s, p', q)
    decreases |s| - p
  {
    if p >= |s| then None
    else match MatchAt(s, p)
      case Some(m) => Some(m)
      case None => IndexMiddleFrom(s, p + 1)
  }

  /** `name.match(...)[2]`: the middle of the leftmost, shortest match. */
  function IndexMiddle(name: string): Option<string> {
    IndexMiddleFrom(name, 0)
  }

  /** The pattern only matches names that contain `指数` or `ETF`, so the
      guard in getFundSector before it never changes the outcome. */
  lemma IndexMatchImpliesGuard(name: string)
    requires IndexMiddle(name).Some?
    ensures Contains(name, "指数") || Contains(name, "ETF")
  {
    var p: nat, q: nat :| IsIndexMatch(name, p, q);
    if OccursAt(name, "指数", q) {
      ContainsAt(name, "指数", q);
    } else {
      ContainsAt(name, "ETF", q);
    }
  }

  // ---------------------------------------------------------------------
  // Classification
  // ---------------------------------------------------------------------

  /** The sector name for a fund name: the first keyword's sector (default
      混合型); for an index fund whose index middle contains a keyword, that
      keyword's sector instead. */
  function ClassifySector(name: string): (r: string)
    ensures !(Contains(name, "指数") || Contains(name, "ETF")) ==> r == FirstSector(name).GetOr(DefaultSector)
    ensures IndexMiddle(name).None? ==> r == FirstSector(name).GetOr(DefaultSector)
    ensures IndexMiddle(name).Some? && FirstSector(IndexMiddle(name).value).None? ==>
              r == FirstSector(name).GetOr(DefaultSector)
    ensures IndexMiddle(name).Some? && FirstSector(IndexMiddle(name).value).Some? ==>
              r == FirstSector(IndexMiddle(name).value).value
  {
    var sectorName := FirstSector(name).GetOr(DefaultSector);
    if Contains(name, "指数") || Contains(name, "ETF") then
      match IndexMiddle(name)
      case Some(indexName) => FirstSector(indexName).GetOr(sectorName)
      case None => sectorName
    else
      assert IndexMiddle(name).None? by {
        if IndexMiddle(name).Some? {
          IndexMatchImpliesGuard(name);
        }
      }
      sectorName
  }

  /** The result is always the default or the sector of a keyword that the
      fund name contains; with no keyword in the name, it is the default. */
  lemma ClassifyIsJustified(name: string)
    ensures var r := ClassifySector(name);
            r == DefaultSector || exists i :: 0 <= i < |SectorKeywords| && Contains(name, SectorKeywords[i].word)
                                               && r == SectorKeywords[i].sector
    ensures (forall i :: 0 <= i < |SectorKeywords| ==> !Contains(name, SectorKeywords[i].word)) ==>
              ClassifySector(name) == DefaultSector
  {
    var m := IndexMiddle(name);
    if m.Some? && FirstSector(m.value).Some? {
      var p: nat, q: nat :| IsIndexMatch(name, p, q) && m.value == name[p + 2..q];
      var i :| 0 <= i < |SectorKeywords| && FirstMatchAt(m.value, i, 0) && FirstSector(m.value).value == SectorKeywords[i].sector;
      ContainsInSlice(name, p + 2, q, SectorKeywords[i].word);
    }
  }

  /** A nameless fund (an absent or empty name) is classified as the
      default. */
  lemma EmptyNameIsDefault()
    ensures ClassifySector("") == DefaultSector
  {
    ClassifyIsJustified("");
  }

  /** What getFundSector resolves to. */
  datatype SectorInfo = SectorInfo(sectorName: string, sectorChange: real)

  /** The fallback answer when anything throws. */
  const FailedSector: SectorInfo := SectorInfo(DefaultSector, -1.25)

  /** getFundSector, given how the estimate request settled and the random
      change it draws (`sampled`, in [-2, 2]).  A rejected estimate, or one
      that resolved to `null` (reading `.name` throws), gives the fixed
      answer; otherwise the name (`''` when absent) is classified. */
  function GetFundSector(estimate: EstimateResult, sampled: real): (r: SectorInfo)
    ensures estimate.Rejected? || estimate == Resolved(JNull) ==> r == FailedSector
    ensures estimate.Resolved? && estimate.value.JObject? ==>
              r == SectorInfo(ClassifySector(estimate.value.record.name.GetOr("")), sampled)
    ensures estimate == Resolved(JOther) ==> r == SectorInfo(ClassifySector(""), sampled)
  {
    match estimate
    case Rejected(_) => FailedSector
    case Resolved(JNull) => FailedSector
    case Resolved(JOther) => SectorInfo(ClassifySector(""), sampled)
    case Resolved(JObject(e)) => SectorInfo(ClassifySector(e.name.GetOr("")), sampled)
  }
}
