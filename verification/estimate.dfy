/** Fetching a fund's intraday estimate (getFundEstimate) and the fallback
    record built from the fund's historical net-worth trend
    (getFallbackEstimate).  Network answers are inputs: the primary
    endpoint's `Response`, the host's `JSON.parse` as `parse`, and the
    fallback source's payload as a `FallbackSource`. */
module Estimate {
  import opened Optional
  import opened Text
  import opened Seqs

  /** A field of a record read from upstream JSON: absent, or a string. */
  type Field = Option<string>

  /** The estimate record (FundEstimate): code, name, NAV date, last NAV,
      estimated NAV, estimated change in percent, estimate time. */
  datatype FundEstimate = FundEstimate(
    fundcode: Field,
    name: Field,
    jzrq: Field,
    dwjz: Field,
    gsz: Field,
    gszzl: Field,
    gztime: Field)

  /** The record carries a usable change percent: `gszzl` defined and not ''. */
  predicate HasChange(e: FundEstimate) {
    e.gszzl.Some? && e.gszzl.value != ""
  }

  /** What `JSON.parse` produced: an object (read as an estimate record),
      `null`, or any other non-object value (number, string, boolean,
      array).  Only an object can carry `gszzl`. */
  datatype Json = JObject(record: FundEstimate) | JNull | JOther

  // ---------------------------------------------------------------------
  // Fallback record (getFallbackEstimate)
  // ---------------------------------------------------------------------

  /** One element of `Data_netWorthTrend`: timestamp `x`, net worth `y`,
      and `equityReturn`; absent numbers are `None`. */
  datatype TrendPoint = TrendPoint(x: int, y: Option<real>, equityReturn: Option<real>)

  /** Host formatting: the local calendar date (YYYY-MM-DD) of a timestamp,
      and `String(n)` for a number. */
  datatype Render = Render(date: int -> string, number: real -> string)

  /** `String(n)` is never the empty string. */
  ghost predicate RendersNumbers(render: Render) {
    forall v :: render.number(v) != ""
  }

  /** What either fallback strategy obtained.  `SourceUnavailable` covers a
      script timeout or load error, a failed or non-200 request, a page with
      no trend array, and a trend array that does not parse; otherwise the
      fund name (`''` when absent) and the parsed trend array. */
  datatype FallbackSource = SourceUnavailable | SourceLoaded(name: string, trend: seq<TrendPoint>)

  /** `y || 1`: absent or zero becomes 1. */
  function OrOne(y: Option<real>): (r: real)
    ensures r != 0.0
    ensures y.Some? && y.value != 0.0 ==> r == y.value
    ensures y.None? || y.value == 0.0 ==> r == 1.0
  {
    if y.None? || y.value == 0.0 then 1.0 else y.value
  }

  /** `equityReturn || 0`: absent becomes 0. */
  function OrZero(v: Option<real>): (r: real)
    ensures v.Some? ==> r == v.value
    ensures v.None? ==> r == 0.0
  {
    v.GetOr(0.0)
  }

  /** The market-close time appended to the date. */
  const CloseTime: string := " 15:00"

  /** getFallbackEstimate: a record exists exactly when the trend array is
      non-empty, and it is read off the trend's LAST point. */
  function FallbackEstimate(code: string, src: FallbackSource, render: Render): (r: Option<FundEstimate>)
    ensures r.Some? <==> src.SourceLoaded? && |src.trend| > 0
    ensures r.Some? ==>
      var latest := src.trend[|src.trend| - 1];
      var e := r.value;
      && e.fundcode == Some(code)
      && e.name == Some(src.name)
      && e.jzrq == Some(render.date(latest.x))
      && e.gztime == Some(e.jzrq.value + CloseTime)
      && e.dwjz == e.gsz == Some(render.number(OrOne(latest.y)))
      && e.gszzl == Some(render.number(OrZero(latest.equityReturn)))
  {
    match src
    case SourceUnavailable => None
    case SourceLoaded(name, trend) =>
      if |trend| == 0 then None
      else
        var latest := trend[|trend| - 1];
        var date := render.date(latest.x);
        var nav := render.number(OrOne(latest.y));
        Some(FundEstimate(
          fundcode := Some(code),
          name := Some(name),
          jzrq := Some(date),
          dwjz := Some(nav),
          gsz := Some(nav),
          gszzl := Some(render.number(OrZero(latest.equityReturn))),
          gztime := Some(date + CloseTime)))
  }

  /** A fallback record always carries a usable change percent, and its
      estimate time starts with its NAV date and ends with the close time. */
  lemma FallbackIsUsable(code: string, src: FallbackSource, render: Render)
    requires RendersNumbers(render)
    requires FallbackEstimate(code, src, render).Some?
    ensures var e := FallbackEstimate(code, src, render).value;
            && HasChange(e)
            && StartsWith(e.gztime.value, e.jzrq.value)
            && EndsWith(e.gztime.value, CloseTime)
  {
    var e := FallbackEstimate(code, src, render).value;
    var d := e.jzrq.value;
    assert e.gztime.value == d + CloseTime;
    assert (d + CloseTime)[..|d|] == d;
    assert (d + CloseTime)[|d + CloseTime| - |CloseTime|..] == CloseTime;
  }

  /** Only the last trend point matters: two sources with the same name and
      the same last point give the same record. */
  lemma FallbackUsesLatestOnly(code: string, name: string, t1: seq<TrendPoint>, t2: seq<TrendPoint>, render: Render)
    requires |t1| > 0 && |t2| > 0
    requires t1[|t1| - 1] == t2[|t2| - 1]
    ensures FallbackEstimate(code, SourceLoaded(name, t1), render)
         == FallbackEstimate(code, SourceLoaded(name, t2), render)
  {
  }

  // ---------------------------------------------------------------------
  // Primary endpoint (getFundEstimate)
  // ---------------------------------------------------------------------

  /** The primary request's outcome: the transport failed, or a status
      code and the response body as text. */
  datatype Response = TransportError | HttpResponse(status: int, body: string)

  const JsonpPrefix: string := "jsonpgz("

  /** `.replace(/^jsonpgz\(/, '')`: the body minus the leading wrapper. */
  function StripPrefix(s: string): (r: string)
    ensures StartsWith(s, JsonpPrefix) ==> |JsonpPrefix| <= |s| && r == s[|JsonpPrefix|..]
    ensures !StartsWith(s, JsonpPrefix) ==> r == s
  {
    if StartsWith(s, JsonpPrefix) then s[|JsonpPrefix|..] else s
  }

  /** The text `/\);?$/` matches at the end of `s`: the longest of `);`,
      `)` and the empty text that `s` ends with. */
  function Closer(s: string): (c: string)
    ensures c == ");" || c == ")" || c == ""
    ensures EndsWith(s, c)
    ensures c != ");" ==> !EndsWith(s, ");")
    ensures c == "" ==> !EndsWith(s, ")")
  {
    if EndsWith(s, ");") then ");" else if EndsWith(s, ")") then ")" else ""
  }

  /** `.replace(/\);?$/, '')`: the body minus its closer, and nothing else. */
  function StripCloser(s: string): (r: string)
    ensures r + Closer(s) == s
  {
    var c := Closer(s);
    var n := |s| - |c|;
    assert s[n..] == c;
    assert s == s[..n] + s[n..];
    s[..n]
  }

  /** The JSONP unwrapping: the body is the optional leading `jsonpgz(`, the
      result, and the closer; nothing else is removed. */
  function Unwrap(body: string): (r: string)
    ensures StartsWith(body, JsonpPrefix) ==> body == JsonpPrefix + r + Closer(body)
    ensures !StartsWith(body, JsonpPrefix) ==> body == r + Closer(body)
  {
    PrefixKeepsCloser(body);
    StripCloser(StripPrefix(body))
  }

  /** Removing the leading `jsonpgz(` splits the body in two and leaves its
      closer in place. */
  lemma PrefixKeepsCloser(body: string)
    ensures StartsWith(body, JsonpPrefix) ==> body == JsonpPrefix + StripPrefix(body)
    ensures Closer(StripPrefix(body)) == Closer(body)
  {
    if StartsWith(body, JsonpPrefix) {
      var n := |JsonpPrefix|;
      assert body[..n] == JsonpPrefix;
      assert body[n - 1] == body[..n][n - 1] == '(';
      assert body == body[..n] + body[n..];
      CloserOfSuffix(body, n);
    }
  }

  /** Dropping a prefix that does not end in `)` or `;` keeps the closer. */
  lemma CloserOfSuffix(s: string, lo: nat)
    requires lo <= |s|
    requires lo == 0 || (s[lo - 1] != ')' && s[lo - 1] != ';')
    ensures Closer(s[lo..]) == Closer(s)
  {
    SameParenEnd(s, lo);
    SameSemiEnd(s, lo);
  }

  /** ... since it keeps whether the text ends with `)` ... */
  lemma SameParenEnd(s: string, lo: nat)
    requires lo <= |s|
    requires lo == 0 || s[lo - 1] != ')'
    ensures EndsWith(s[lo..], ")") == EndsWith(s, ")")
  {
    var t := s[lo..];
    ParenEnd(s);
    ParenEnd(t);
    if |t| >= 1 {
      assert t[|t| - 1] == s[|s| - 1];
    }
  }

  /** ... and whether it ends with `);`. */
  lemma SameSemiEnd(s: string, lo: nat)
    requires lo <= |s|
    requires lo == 0 || (s[lo - 1] != ')' && s[lo - 1] != ';')
    ensures EndsWith(s[lo..], ");") == EndsWith(s, ");")
  {
    var t := s[lo..];
    SemiEnd(s);
    SemiEnd(t);
    if |t| >= 2 {
      assert t[|t| - 2] == s[|s| - 2] && t[|t| - 1] == s[|s| - 1];
    } else if |t| == 1 {
      assert t[0] == s[|s| - 1];
    }
  }

  /** Ending with `)`, character by character. */
  lemma ParenEnd(s: string)
    ensures EndsWith(s, ")") <==> |s| >= 1 && s[|s| - 1] == ')'
  {
    if |s| >= 1 {
      assert s[|s| - 1..] == [s[|s| - 1]];
    }
  }

  /** Ending with `);`, character by character. */
  lemma SemiEnd(s: string)
    ensures EndsWith(s, ");") <==> |s| >= 2 && s[|s| - 2] == ')' && s[|s| - 1] == ';'
  {
    if |s| >= 2 {
      assert s[|s| - 2..] == [s[|s| - 2], s[|s| - 1]];
    }
  }

  /** Unwrapping undoes both JSONP wrappings the endpoint uses, whatever the
      payload. */
  lemma UnwrapRoundTrip(p: string)
    ensures Unwrap(JsonpPrefix + p + ");") == p
    ensures Unwrap(JsonpPrefix + p + ")") == p
  {
    var w1 := JsonpPrefix + p + ");";
    assert w1[..|JsonpPrefix|] == JsonpPrefix;
    assert StripPrefix(w1) == p + ");";
    assert (p + ");")[|p + ");"| - 2..] == ");";
    assert (p + ");")[..|p|] == p;
    var w2 := JsonpPrefix + p + ")";
    assert w2[..|JsonpPrefix|] == JsonpPrefix;
    assert StripPrefix(w2) == p + ")";
    assert (p + ")")[|p + ")"| - 1..] == ")";
    assert (p + ")")[|p + ")"| - 1] == ')';
    assert !EndsWith(p + ")", ");");
    assert (p + ")")[..|p|] == p;
  }

  /** Nothing unwraps to nothing. */
  lemma UnwrapEmpty()
    ensures Unwrap("") == ""
  {
    assert !StartsWith("", JsonpPrefix);
  }

  /** A body with neither wrapper passes through unchanged. */
  lemma UnwrapBare(body: string)
    requires !StartsWith(body, JsonpPrefix)
    requires !EndsWith(body, ")") && !EndsWith(body, ");")
    ensures Unwrap(body) == body
  {
  }

  /** The empty-data test on the unwrapped text: empty, `{}`, or blank. */
  predicate IsEmptyPayload(s: string) {
    |s| == 0 || s == "{}" || IsBlank(s)
  }

  /** The primary endpoint's outcome as the decision table sees it. */
  datatype Primary =
    | TransportFailed          // the request itself failed
    | BadResponse              // status other than 200, or an empty body
    | EmptyPayload             // unwrapped text empty, `{}` or blank
    | Unparsable               // `JSON.parse` threw
    | Usable(record: FundEstimate)   // an object with a usable `gszzl`
    | Incomplete(value: Json)  // parsed, but not an object with a usable `gszzl`

  /** Reading the primary response, in the order getFundEstimate tests it. */
  function ClassifyPrimary(resp: Response, parse: string -> Option<Json>): (p: Primary)
    ensures p.TransportFailed? <==> resp.TransportError?
    ensures p.BadResponse? <==> resp.HttpResponse? && (resp.status != 200 || resp.body == "")
    ensures p.EmptyPayload? <==>
      resp.HttpResponse? && resp.status == 200 && resp.body != "" && IsEmptyPayload(Unwrap(resp.body))
    ensures p.Unparsable? ==> parse(Unwrap(resp.body)).None?
    ensures p.Usable? ==> parse(Unwrap(resp.body)) == Some(JObject(p.record)) && HasChange(p.record)
    ensures p.Incomplete? ==> parse(Unwrap(resp.body)) == Some(p.value)
                              && !(p.value.JObject? && HasChange(p.value.record))
  {
    match resp
    case TransportError => TransportFailed
    case HttpResponse(status, body) =>
      if status != 200 || body == "" then BadResponse
      else
        var payload := Unwrap(body);
        if IsEmptyPayload(payload) then EmptyPayload
        else match parse(payload)
          case None => Unparsable
          case Some(v) =>
            if v.JObject? && HasChange(v.record) then Usable(v.record) else Incomplete(v)
  }

  /** Why the estimate promise rejects: no data ('无法获取估值数据'), a parse
      failure ('解析基金数据失败'), a failed request ('请求失败'), or the
      transport error itself. */
  datatype Failure = NoEstimateData | ParseFailed | RequestFailed | TransportFailure

  /** The promise's settlement: resolved with a parsed value or rejected. */
  datatype EstimateResult = Resolved(value: Json) | Rejected(failure: Failure)

  /** The decision table: which outcome tries the fallback, and what each
      outcome settles to when the fallback yields nothing. */
  function Decide(p: Primary, fallback: Option<FundEstimate>): (r: EstimateResult)
    ensures p.Usable? ==> r == Resolved(JObject(p.record))
    ensures p.BadResponse? ==> r == Rejected(RequestFailed)
    ensures !p.Usable? && !p.BadResponse? && fallback.Some? ==> r == Resolved(JObject(fallback.value))
    ensures r.Rejected? <==> p.BadResponse? || (fallback.None? && !p.Usable? && !p.Incomplete?)
    ensures p.Incomplete? && fallback.None? ==> r == Resolved(p.value)
    ensures r.Rejected? && !p.BadResponse? ==>
      r.failure == (if p.TransportFailed? then TransportFailure
                    else if p.EmptyPayload? then NoEstimateData else ParseFailed)
  {
    match p
    case TransportFailed =>
      if fallback.Some? then Resolved(JObject(fallback.value)) else Rejected(TransportFailure)
    case BadResponse => Rejected(RequestFailed)
    case EmptyPayload =>
      if fallback.Some? then Resolved(JObject(fallback.value)) else Rejected(NoEstimateData)
    case Unparsable =>
      if fallback.Some? then Resolved(JObject(fallback.value)) else Rejected(ParseFailed)
    case Usable(record) => Resolved(JObject(record))
    case Incomplete(v) =>
      if fallback.Some? then Resolved(JObject(fallback.value)) else Resolved(v)
  }

  /** The request answered with status 200 and a non-empty body. */
  predicate Answered(resp: Response) {
    resp.HttpResponse? && resp.status == 200 && resp.body != ""
  }

  /** getFundEstimate, given the primary response, the host's JSON parser
      and what the fallback would yield.  Read off the response: a non-200
      or empty answer rejects; an object with a usable `gszzl` is returned;
      in every other case the fallback record wins when there is one, and
      without one the empty payload, the parse failure and the transport
      error reject while a parsed but incomplete value is returned. */
  function GetFundEstimate(resp: Response, parse: string -> Option<Json>, fallback: Option<FundEstimate>): (r: EstimateResult)
    ensures resp.HttpResponse? && !Answered(resp) ==> r == Rejected(RequestFailed)
    ensures resp.TransportError? ==>
              r == if fallback.Some? then Resolved(JObject(fallback.value)) else Rejected(TransportFailure)
    ensures Answered(resp) && IsEmptyPayload(Unwrap(resp.body)) ==>
              r == if fallback.Some? then Resolved(JObject(fallback.value)) else Rejected(NoEstimateData)
    ensures Answered(resp) && !IsEmptyPayload(Unwrap(resp.body)) && parse(Unwrap(resp.body)).None? ==>
              r == if fallback.Some? then Resolved(JObject(fallback.value)) else Rejected(ParseFailed)
    ensures Answered(resp) && !IsEmptyPayload(Unwrap(resp.body)) && parse(Unwrap(resp.body)).Some? ==>
              var v := parse(Unwrap(resp.body)).value;
              r == if v.JObject? && HasChange(v.record) then Resolved(v)
                   else if fallback.Some? then Resolved(JObject(fallback.value))
                   else Resolved(v)
  {
    Decide(ClassifyPrimary(resp, parse), fallback)
  }

  /** A usable primary record is returned as it is and the fallback is never
      consulted: any two fallbacks give the same result. */
  lemma UsablePrimaryIgnoresFallback(resp: Response, parse: string -> Option<Json>,
                                     fb1: Option<FundEstimate>, fb2: Option<FundEstimate>)
    requires resp.HttpResponse? && resp.status == 200
    requires parse(Unwrap(resp.body)).Some? && parse(Unwrap(resp.body)).value.JObject?
    requires HasChange(parse(Unwrap(resp.body)).value.record)
    requires !IsEmptyPayload(Unwrap(resp.body))
    ensures GetFundEstimate(resp, parse, fb1) == GetFundEstimate(resp, parse, fb2)
                                             == Resolved(parse(Unwrap(resp.body)).value)
  {
    UnwrapEmpty();
  }

  /** A non-200 status rejects at once, whatever the fallback would give. */
  lemma BadStatusRejects(resp: Response, parse: string -> Option<Json>, fallback: Option<FundEstimate>)
    requires resp.HttpResponse? && resp.status != 200
    ensures GetFundEstimate(resp, parse, fallback) == Rejected(RequestFailed)
  {
  }

  /** A parsed response without a usable change percent never rejects:
      the fallback record if there is one, else the parsed value itself. */
  lemma IncompleteNeverRejects(resp: Response, parse: string -> Option<Json>, fallback: Option<FundEstimate>)
    requires ClassifyPrimary(resp, parse).Incomplete?
    ensures var r := GetFundEstimate(resp, parse, fallback);
            && r.Resolved?
            && r.value == (if fallback.Some? then JObject(fallback.value) else parse(Unwrap(resp.body)).value)
  {
  }

  /** With the real fallback, a resolved value lacking a usable change
      percent can only be the primary payload itself, returned because the
      fallback source had no trend data. */
  lemma IncompleteResultMeansFallbackFailed(resp: Response, parse: string -> Option<Json>,
                                            code: string, src: FallbackSource, render: Render)
    requires RendersNumbers(render)
    ensures var r := GetFundEstimate(resp, parse, FallbackEstimate(code, src, render));
            r.Resolved? && !(r.value.JObject? && HasChange(r.value.record)) ==>
              && !(src.SourceLoaded? && |src.trend| > 0)
              && ClassifyPrimary(resp, parse) == Incomplete(r.value)
  {
    var fb := FallbackEstimate(code, src, render);
    if fb.Some? {
      FallbackIsUsable(code, src, render);
    }
  }

  /** The lenient branch really does hand back an incomplete record: a
      JSONP body whose object lacks `gszzl`, with no fallback data, resolves
      to that object. */
  lemma IncompleteRecordResolves(p: string, parse: string -> Option<Json>, e: FundEstimate)
    requires !IsEmptyPayload(p)
    requires parse(p) == Some(JObject(e))
    requires e.gszzl.None?
    ensures GetFundEstimate(HttpResponse(200, JsonpPrefix + p + ");"), parse, None) == Resolved(JObject(e))
  {
    UnwrapRoundTrip(p);
  }

  /** An empty JSONP answer (`jsonpgz();`) rejects with "no data" when the
      fallback has nothing, and otherwise resolves to the fallback record. */
  lemma EmptyJsonpUsesFallback(parse: string -> Option<Json>, fallback: Option<FundEstimate>)
    ensures var r := GetFundEstimate(HttpResponse(200, JsonpPrefix + ");"), parse, fallback);
            r == (if fallback.Some? then Resolved(JObject(fallback.value)) else Rejected(NoEstimateData))
  {
    var body := JsonpPrefix + ");";
    assert Unwrap(body) == "" by {
      assert body[..|JsonpPrefix|] == JsonpPrefix;
      assert StripPrefix(body) == ");";
      assert EndsWith(");", ");");
    }
    assert IsEmptyPayload(Unwrap(body));
    assert ClassifyPrimary(HttpResponse(200, body), parse) == EmptyPayload;
  }

  /** The promise settled by resolving. */
  predicate IsResolved(e: EstimateResult) {
    e.Resolved?
  }

  /** batchGetFundEstimate: the resolved values, one per resolved request,
      in request order; rejected requests are dropped. */
  function BatchGetFundEstimate(results: seq<EstimateResult>): (r: seq<Json>)
    ensures var p := Positions(results, IsResolved, 0);
            |r| == |p| && forall k :: 0 <= k < |r| ==> results[p[k]] == Resolved(r[k])
    ensures (forall i :: 0 <= i < |results| ==> results[i].Resolved?) ==> |r| == |results|
  {
    var r := ResolvedFrom(results, 0);
    assert (forall i :: 0 <= i < |results| ==> results[i].Resolved?) ==> |r| == |results| by {
      if forall i :: 0 <= i < |results| ==> results[i].Resolved? {
        PositionsOfAll(results, IsResolved, 0);
      }
    }
    r
  }

  /** The resolved values of the requests from `from` on. */
  function ResolvedFrom(results: seq<EstimateResult>, from: nat): (r: seq<Json>)
    requires from <= |results|
    ensures var p := Positions(results, IsResolved, from);
            |r| == |p| && forall k :: 0 <= k < |r| ==> results[p[k]] == Resolved(r[k])
    decreases |results| - from
  {
    if from == |results| then []
    else if results[from].Resolved? then [results[from].value] + ResolvedFrom(results, from + 1)
    else ResolvedFrom(results, from + 1)
  }

  /** With no rejection, the batch is every request's value, in order. */
  lemma BatchAllResolved(results: seq<EstimateResult>)
    requires forall i :: 0 <= i < |results| ==> results[i].Resolved?
    ensures var r := BatchGetFundEstimate(results);
            |r| == |results| && forall i :: 0 <= i < |results| ==> Resolved(r[i]) == results[i]
  {
    PositionsOfAll(results, IsResolved, 0);
  }

  /** A batch of only rejections yields nothing. */
  lemma BatchAllRejected(results: seq<EstimateResult>)
    requires forall i :: 0 <= i < |results| ==> results[i].Rejected?
    ensures BatchGetFundEstimate(results) == []
  {
    PositionsNone(results, IsResolved, 0);
  }
}
