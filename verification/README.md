# fund-app core in Dafny

A model of the logic of a small fund-tracking app (a uni-app front end over
the Eastmoney / Tiantian fund endpoints), with the network, storage and DOM
taken out.

- The **watchlist** (`Watchlist`) is the list of watched funds kept in local
  storage. Adding prepends a record and refuses a code that is already
  there. Updating overwrites shares and cost price. Removing filters the code
  out. The model proves that no code ever appears twice and that nothing
  else changes.
- **Profit arithmetic** (`Valuation`) values one holding against its
  estimate and sums the account totals, over exact reals. The totals method
  is proved equal to a reference sum.
- **The estimate fetch** (`Estimate`) unwraps the JSONP answer, classifies
  the primary endpoint's outcome, and decides between the primary record, the
  fallback record built from the net-worth trend, and rejection.
- **The intraday chart** (`DayTrend`) generates the trading-session labels
  and applies the smoothing recurrence over caller-supplied raw values.
- **Sector inference** (`Sector`) scans an ordered keyword table for the
  first keyword in the fund name. A hand-written matcher models the
  index-name pattern that can override that result.
- **Top holdings** (`Stocks`) picks the security ids, shapes each quote into
  a holding row, and keeps the successful rows in request order.
- **Search** (`Search`) returns the hot list for a blank keyword, otherwise
  the service's fund entries, otherwise the hot funds that contain the
  keyword.

`Optional`, `Text` and `Seqs` hold shared definitions:
- `Option`;
- JavaScript's `includes`, `trim`, `\s` and `padStart`;
- `Array.prototype.filter` and the subsequence order.

Everything the source gets from the host becomes an input:
- every network answer;
- `JSON.parse` results;
- `parseFloat` and `String(number)`;
- date formatting;
- every `Math.random` draw.

Three places where the model follows the code rather than its comments:
- `generateTimePoints` produces 122 labels: 60 morning slots, `11:30`, 60
  afternoon slots and `15:00`. The doc comment of `getFundDayTrend` says 120 points.
- `getFundEstimate` can resolve a record whose `gszzl` is missing or empty.
  This happens when the primary record is incomplete and the fallback yields
  nothing. Its comment describes the fallback as the remedy for missing data.
- Only the direct-request path of `getFundStockHoldings` keeps just the ids
  that contain `.`. The script path passes `stockCodesNew` on unfiltered.

## Model

| member | source | states |
|---|---|---|
| Watchlist.IsFundAdded | src/utils/storage.ts:114-117 | holds exactly when some record in the list has the code |
| Watchlist.FindIndex | src/utils/storage.ts:94 | `None` exactly when the code is absent; otherwise the first position holding the code, with no earlier record having it |
| Watchlist.GetFundHolding | src/utils/storage.ts:122-125 | returns a record exactly when `IsFundAdded`; the record is in the list and has the requested code; it is the first record with that code, and under unique codes the only one |
| Watchlist.AddMyFund | src/utils/storage.ts:72-87 | returns true exactly when the code was absent; false leaves the list unchanged; true prepends exactly one record with shares and cost price defaulting to 0 and the given time; the code is present afterwards; code uniqueness is preserved |
| Watchlist.UpdateFundHolding | src/utils/storage.ts:92-100 | length kept; no-op for an absent code; code, name and add time of every record kept; only the first record with the code may change, and it gets the new shares and cost price; uniqueness preserved |
| Watchlist.RemoveMyFund | src/utils/storage.ts:105-109 | no record with the code remains; every other record remains as often as it was there, in the original order; uniqueness preserved |
| Watchlist.SubsequenceKeepsUnique | src/utils/storage.ts:107 | deleting records from a list with unique codes cannot create a duplicate |
| Watchlist.AddTwice | src/utils/storage.ts:72-87 | adding a code a second time is refused, leaves the list as the first add made it, and exactly one record carries the code |
| Watchlist.RemoveIdempotent | src/utils/storage.ts:105-109 | removing a code twice gives the same list as removing it once |
| Watchlist.RemoveUndoesAdd | src/utils/storage.ts:72-109 | removing a freshly added code restores the original list |
| Watchlist.UpdateThenGet | src/utils/storage.ts:92-125 | after an update, a lookup returns the old record with just shares and cost price replaced |
| Valuation.FieldValue | src/utils/storage.ts:29-31 | a missing or empty estimate field reads as 0; otherwise as `parseFloat` of its text |
| Valuation.CalculateHolding | src/utils/storage.ts:28-55 | amount = shares × estimated NAV; cost = shares × cost price; profit = amount − cost; for positive cost, rate × cost = profit × 100 and the rate is positive iff amount exceeds cost; rate is 0 for non-positive cost; today's profit × 100 = shares × last NAV × change |
| Valuation.WorkedExample | src/utils/storage.ts:28-55 | 100 shares at cost 2.0, estimated NAV 2.5, last NAV 2.4 and change 1.0 % give 250 / 200 / 50 / 25 % / 2.4 |
| Valuation.FallbackValuation | src/utils/storage.ts:29-46 | valued against a fallback record, a holding's amount is shares × the last trend value (1 if absent or zero), and today's profit follows from that value and the last equity return |
| Valuation.TotalsOf | src/utils/storage.ts:154-163 | total profit = assets − cost; for positive cost, rate × cost = profit × 100 and the rate is positive iff assets exceed cost; rate is 0 otherwise |
| Valuation.CalculateTotalAssets | src/utils/storage.ts:130-164 | the one-pass loop equals the totals of the reference sum of every holding's contribution; profit = assets − cost; rate 0 for non-positive cost |
| Valuation.SumsAppend | src/utils/storage.ts:144-152 | the sums over a concatenated list are the sums of the parts |
| Valuation.NonContributingIgnored | src/utils/storage.ts:145-146 | a holding without an estimate or without positive shares changes no total, wherever it stands |
| Valuation.NothingContributesGivesZero | src/utils/storage.ts:140-163 | an empty list, or one where nothing contributes, totals to all zeros |
| Valuation.RemoveUnvaluedKeepsTotals | src/utils/storage.ts:105-152 | removing a fund that has no estimate leaves the sums unchanged |
| Estimate.OrOne | src/api/fund.ts:94-95 | the `y` default: never 0, keeps any non-zero value, 1 for absent or zero |
| Estimate.OrZero | src/api/fund.ts:96 | the `equityReturn` default: keeps a present value, 0 for an absent one |
| Estimate.FallbackEstimate | src/api/fund.ts:84-100 | a record exists exactly when the source loaded a non-empty trend; it comes from the LAST point: code, name, date, `dwjz` = `gsz` = String of y defaulting to 1, `gszzl` = String of equityReturn defaulting to 0, `gztime` = date + " 15:00" (the same construction as fund.ts:128-145) |
| Estimate.FallbackIsUsable | src/api/fund.ts:90-98 | a fallback record always has a usable `gszzl`, and its `gztime` starts with its date and ends with " 15:00" |
| Estimate.FallbackUsesLatestOnly | src/api/fund.ts:84-86 | two trends with the same last point give the same record |
| Estimate.StripPrefix | src/api/fund.ts:176 | a body starting with `jsonpgz(` loses exactly that prefix; any other body is unchanged |
| Estimate.Closer | src/api/fund.ts:176 | what `/\);?$/` matches: `);` when the text ends with it, else `)` when it ends with that, else nothing |
| Estimate.StripCloser | src/api/fund.ts:176 | the text is the result followed by its closer: only a trailing `);` or `)` is removed |
| Estimate.Unwrap | src/api/fund.ts:176 | the body is the optional leading `jsonpgz(`, the result, and the body's closer; nothing else is removed |
| Estimate.UnwrapRoundTrip | src/api/fund.ts:176 | unwrapping `jsonpgz(` + p + `);` or `jsonpgz(` + p + `)` gives back p exactly |
| Estimate.UnwrapEmpty | src/api/fund.ts:176 | the empty body unwraps to the empty string |
| Estimate.UnwrapBare | src/api/fund.ts:176 | a body with neither wrapper passes through unchanged |
| Estimate.ClassifyPrimary | src/api/fund.ts:173-193 | transport failure iff the request failed; bad response iff status ≠ 200 or empty body; empty payload iff the unwrapped text is empty, `{}` or blank; usable only for a parsed object with a non-empty `gszzl`; incomplete only for a parsed value without one |
| Estimate.Decide | src/api/fund.ts:163-231 | a usable record is returned as is; non-200 rejects ("request failed") without the fallback; any other outcome takes the fallback record when there is one; it rejects exactly for a bad response, or when there is no fallback and the primary was neither usable nor incomplete; an incomplete record with no fallback is resolved as is; each rejection carries the source's reason |
| Estimate.GetFundEstimate | src/api/fund.ts:163-231 | read off the response: non-200 or empty body rejects with "request failed"; a transport error takes the fallback or rejects with the error; an empty payload takes the fallback or rejects with "no data"; a parse failure takes the fallback or rejects with "parse failed"; an object with a usable `gszzl` is returned; any other parsed value yields the fallback if any, else itself |
| Estimate.UsablePrimaryIgnoresFallback | src/api/fund.ts:190-194 | with a 200 answer that parses to an object with usable `gszzl`, the result is that record whatever the fallback gives |
| Estimate.BadStatusRejects | src/api/fund.ts:216-217 | a non-200 status rejects with "request failed", whatever the fallback would give |
| Estimate.IncompleteNeverRejects | src/api/fund.ts:195-205 | a parsed value without usable `gszzl` always resolves: to the fallback record if any, else to the parsed value itself |
| Estimate.IncompleteResultMeansFallbackFailed | src/api/fund.ts:195-205 | with the real fallback, a resolved value lacking a usable `gszzl` is the primary payload, and the fallback source had no trend data |
| Estimate.IncompleteRecordResolves | src/api/fund.ts:176-205 | a JSONP body whose object lacks `gszzl`, with no fallback, resolves to that object |
| Estimate.EmptyJsonpUsesFallback | src/api/fund.ts:176-188 | `jsonpgz();` resolves to the fallback record, or rejects with "no data" when there is none |
| Estimate.BatchGetFundEstimate | src/api/fund.ts:578-586 | one value per resolved request, in request order: the k-th value is that of the k-th resolved request; with no rejection, one per request |
| Estimate.BatchAllResolved | src/api/fund.ts:578-586 | with no rejection, the batch is every request's value at its own position |
| Estimate.BatchAllRejected | src/api/fund.ts:578-586 | a batch of rejections gives the empty list |
| Text.Pad2 | src/api/fund.ts:527 | two decimal digits that read back as the number |
| DayTrend.MinuteLabel | src/api/fund.ts:527 | five characters, digits around a `:`; the first two read back as the hour (< 24), the last two as the minute (< 60), and together they give back the minute of the day |
| DayTrend.SlotMinute | src/api/fund.ts:520-539 | every slot is a minute of the day |
| DayTrend.Labels | src/api/fund.ts:520-539 | 122 labels; label i is the zero-padded HH:MM of slot i's minute |
| DayTrend.AppendHourSlots | src/api/fund.ts:526-528 | appends one label every two minutes from the start minute up to, not including, the end minute, and keeps what was there |
| DayTrend.MorningSlots | src/api/fund.ts:522-529 | the morning loop yields 60 labels, 09:30 onwards every two minutes |
| DayTrend.AfternoonSlots | src/api/fund.ts:531-536 | the afternoon loop appends 60 labels, 13:00 onwards every two minutes, and keeps the first 61 |
| DayTrend.GenerateTimePoints | src/api/fund.ts:520-539 | the source's loops produce exactly the reference labels |
| DayTrend.LabelLandmarks | src/api/fund.ts:522-537 | 122 labels: first 09:30, 11:28 then 11:30 at 59/60, 13:00 at 61, 14:58 then 15:00 at the end |
| DayTrend.SlotsCoverSessions | src/api/fund.ts:522-537 | every slot lies in 09:30-11:30 or 13:00-15:00; within a session slots are two minutes apart; nothing falls in the lunch break |
| DayTrend.MinuteLabelOrder | src/api/fund.ts:527 | a later minute's label compares greater as a string |
| DayTrend.LabelsIncrease | src/api/fund.ts:520-539 | the labels strictly increase as strings |
| DayTrend.Smooth | src/api/fund.ts:546-562 | one output per raw value; the first is 0.3 × start + 0.7 × raw, each later one 0.3 × previous + 0.7 × raw |
| DayTrend.SmoothBounded | src/api/fund.ts:559-562 | smoothing keeps every output inside any band that holds the start value and every raw value |
| DayTrend.GetFundDayTrend | src/api/fund.ts:541-570 | one point per label, in label order, smoothed from 0 |
| DayTrend.DayTrendBounded | src/api/fund.ts:548-567 | raw values within ±bound give chart values within ±bound |
| Sector.FirstSectorFrom | src/api/fund.ts:481-486 | nothing exactly when no keyword from that row on occurs in the name; otherwise the sector of the first such row in table order |
| Sector.MiddleEnd | src/api/fund.ts:491 | the lazy `+?`: the least end after a white-space-free middle at which `指数` or `ETF` follows, or none |
| Sector.MatchAt | src/api/fund.ts:491 | a middle group exactly when the pattern matches at that start, and then the one for the least end |
| Sector.IndexMiddleFrom | src/api/fund.ts:491-493 | the middle group of the leftmost match, shortest middle; none exactly when the pattern matches nowhere |
| Sector.IndexMatchImpliesGuard | src/api/fund.ts:489-491 | a name the pattern matches contains `指数` or `ETF`, so the guard before it never changes the outcome |
| Sector.ClassifySector | src/api/fund.ts:423-502 | the first-match sector (default 混合型) unless the name is an index name whose middle contains a keyword; then that middle's first keyword's sector |
| Sector.ClassifyIsJustified | src/api/fund.ts:423-502 | the result is the default or the sector of a keyword the name contains; a name with no keyword gets the default |
| Sector.EmptyNameIsDefault | src/api/fund.ts:420-486 | a fund without a name is classified 混合型 |
| Sector.GetFundSector | src/api/fund.ts:415-509 | a rejected or `null` estimate gives 混合型 / −1.25; otherwise the estimate's name ('' if absent) is classified and the drawn change is reported |
| Stocks.Weight | src/api/fund.ts:386-392 | `max(15 − 1.2 × index, 1)`: at least both terms, and equal to one of them; hence between 1 and 15 |
| Stocks.WeightNonIncreasing | src/api/fund.ts:386-392 | a later position never gets a larger weight |
| Stocks.SecondSegment | src/api/fund.ts:390 | `split('.')[1]` exists exactly when the id contains `.`; it is the text after the first `.` up to the next `.` or the end |
| Stocks.SecondSegmentOfSecid | src/api/fund.ts:390 | for a secid market.ticker it is the ticker |
| Stocks.GetStockInfo | src/api/fund.ts:367-410 | a row exactly when the quote answered; weight is `Weight(index)` ≥ 1; change ≥ 0 and equal to ± the draw; direction up/down/same by the draw's sign, never new; price change × 100 = f170; code from f57 else the secid's ticker; name from f58 else `未知` |
| Stocks.Settled | src/api/fund.ts:351-352 | one settled outcome per id, in id order, each the outcome of its own request at its own index |
| Stocks.Rows | src/api/fund.ts:354-358 | one row per request that settled with a row, in request order: the k-th row is the outcome at the k-th such position |
| Stocks.Collect | src/api/fund.ts:351-358 | one row per id whose request succeeded, in id order: the k-th row is the outcome of the k-th successful id's request at its own index; when every request succeeds, one row per id |
| Seqs.PositionsOfAll | src/api/fund.ts:354-358 | when every outcome is kept, the kept positions are all of them, in order |
| Stocks.CollectOrderedByWeight | src/api/fund.ts:351-358 | when each request's row carries its position's weight, the collected weights never increase |
| Stocks.GetStockInfoBatch | src/api/fund.ts:347-362 | the rows of the first ten successful ids, in id order, each the row of its id at its own index; when every quote answers and there are at most ten ids, one row per id |
| Stocks.BatchAllAnswered | src/api/fund.ts:347-362 | when every quote answers, the batch is the row of each of the first ten ids at its own position |
| Stocks.BatchOrderedByWeight | src/api/fund.ts:351-361 | the batch's weights never increase |
| Stocks.StockCodes | src/api/fund.ts:296-323 | the script path's ids as they are; the direct path keeps, in order, exactly the ids that contain `.`, each as often as it occurs; no page, no ids |
| Stocks.Requested | src/api/fund.ts:333 | the first ten ids, or all of them when there are fewer |
| Stocks.GetFundStockHoldings | src/api/fund.ts:291-339 | no ids give no rows; otherwise one row per answered quote among the first ten ids, in id order, each the row of its id at its own index |
| Search.ToResult | src/api/fund.ts:630-634 | code from CODE; name from NAME, else SHORTNAME; type FTYPE |
| Search.FundResults | src/api/fund.ts:626-637 | one hit per fund entry (CATEGORY 700 with a CODE), in the array's order: the k-th hit is `ToResult` of the k-th fund entry; every hit has a code and a type |
| Search.FundResultsComplete | src/api/fund.ts:626-637 | every CATEGORY-700 entry with a CODE gives a hit |
| Search.FundResultsEmpty | src/api/fund.ts:626-644 | there are no hits exactly when no entry is a fund entry |
| Search.MatchesIn | src/api/fund.ts:647-649 | the order-preserving subsequence of the list whose code or name contains the keyword, each entry as often as it occurs |
| Search.SearchFunds | src/api/fund.ts:602-665 | blank keyword gives the hot list; a 200 answer with fund entries and no `null` entry gives their results; a failed request, bad status, unreadable body, a `null` entry (the `forEach` throws) or no fund entries gives the hot-list matches; an untyped result is a hot fund |
| Search.FallbackIsExactlyTheMatches | src/api/fund.ts:644-661 | on failure a fund is returned exactly when it is a hot fund containing the keyword |
| Search.HotCodeFoundOffline | src/api/fund.ts:589-661 | typing a hot fund's full code finds it even when the service is unreachable |

## Left out

- Network and platform I/O are left out: `uni.request`, `isH5`, script-tag injection, DOM clean-up and the 8 s and 5 s timeouts. Each answer is an input datatype (`Response`, `FallbackSource`, `CodeSource`, `Quote`, `SearchResponse`).
- The `uni` storage and its JSON (de)serialisation are left out. The stored list is the state, so `getMyFunds` falling back to `[]` on a corrupt entry is not modelled.
- `Promise.allSettled` concurrency is modelled only as the ordered sequence of outcomes.
- The JSON, JSONP-search and pingzhongdata regular expressions are left out: `jQuery(...)`, `fS_name`, `Data_netWorthTrend` and the `stockCodesNew` extraction. Their results are inputs (`parse`, `FallbackSource`, `CodeSource.PageCodes`, `SearchResponse.datas`). Only the index-name pattern is matched by hand.
- Date formatting is left out because it depends on the time zone. `new Date(x)` with `padStart` becomes the parameter `Render.date`.
- `String(number)` and `parseFloat` are left out and become parameters. Their round trip is an assumption of `Valuation.FallbackValuation`.
- Floating point, `toFixed` rounding and IEEE behaviour are left out; numbers are exact reals.
- The weight's `toFixed(2)` is exact in the model.
- `Math.random` and `Math.sin` are left out: the day trend's waves, noise, drift and seed, the sector change, and the stock change draw. Each is an input.
- `DayTrend.GetFundDayTrend`: the `toFixed(3)` rounding of chart values is not modelled.
- A numeric or `null` `gszzl` in a parsed JSON object is left out. Estimate fields are strings or absent, so a `null` `gszzl`, which passes the test at src/api/fund.ts:193 and is returned as usable, is not represented.
- A non-string CODE in search items is left out for the same reason.
- vite.config.ts proxy rewrites are not part of this model.
