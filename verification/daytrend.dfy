/** The intraday chart (getFundDayTrend): one point per two-minute slot of
    the trading day, 09:30-11:30 and 13:00-15:00.  The labels are computed
    exactly; the chart values are synthetic, so the raw value of each slot
    (sine waves, noise and drift in getFundDayTrend) is an input, and only the
    smoothing step that turns raw values into chart values is modelled. */
module DayTrend {
  import opened Text

  /** "HH:MM" for a minute of the day, both parts zero-padded: the first
      two digits read back as the hour and the last two as the minute. */
  function MinuteLabel(t: nat): (r: string)
    requires t < 24 * 60
    ensures |r| == 5 && r[2] == ':'
    ensures forall k :: 0 <= k < 5 && k != 2 ==> '0' <= r[k] <= '9'
    ensures 60 * TwoDigitValue(r[..2]) + TwoDigitValue(r[3..]) == t
    ensures TwoDigitValue(r[..2]) < 24 && TwoDigitValue(r[3..]) < 60
  {
    Pad2(t / 60) + ":" + Pad2(t % 60)
  }

  /** Number of labels the generator produces: 60 morning slots, the 11:30
      close, 60 afternoon slots and the 15:00 close. */
  const SlotCount: nat := 122

  /** Reference definition: the minute of the day of slot `i`. */
  function SlotMinute(i: nat): (t: nat)
    requires i < SlotCount
    ensures t < 24 * 60
  {
    if i < 60 then 570 + 2 * i
    else if i == 60 then 690
    else if i < 121 then 780 + 2 * (i - 61)
    else 900
  }

  /** The labels in slot order. */
  function Labels(): (r: seq<string>)
    ensures |r| == SlotCount
    ensures forall i :: 0 <= i < SlotCount ==> r[i] == MinuteLabel(SlotMinute(i))
  {
    seq(SlotCount, i requires 0 <= i < SlotCount => MinuteLabel(SlotMinute(i)))
  }

  /** Splitting a minute of the day into hour and minute. */
  lemma HourMinute(h: nat, m: nat)
    requires m < 60
    ensures (60 * h + m) / 60 == h && (60 * h + m) % 60 == m
  {
  }

  /** The inner loop of generateTimePoints: append the labels of hour `h`
      from minute `startMin` up to, not including, `endMin`, every two
      minutes. */
  method AppendHourSlots(times: seq<string>, h: nat, startMin: nat, endMin: nat) returns (r: seq<string>)
    requires h < 24 && startMin <= endMin <= 60 && startMin % 2 == 0 && endMin % 2 == 0
    ensures |r| == |times| + (endMin - startMin) / 2
    ensures r[..|times|] == times
    ensures forall k :: |times| <= k < |r| ==> r[k] == MinuteLabel(60 * h + startMin + 2 * (k - |times|))
  {
    r := times;
    var m := startMin;
    while m < endMin
      invariant startMin <= m <= endMin && m % 2 == 0
      invariant |r| == |times| + (m - startMin) / 2
      invariant r[..|times|] == times
      invariant forall k :: |times| <= k < |r| ==> r[k] == MinuteLabel(60 * h + startMin + 2 * (k - |times|))
    {
      HourMinute(h, m);
      assert 60 * h + startMin + 2 * (|r| - |times|) == 60 * h + m;
      r := r + [Pad2(h) + ":" + Pad2(m)];
      m := m + 2;
    }
  }

  /** The morning loop: hours 9 to 11, from :30 in hour 9 and up to :30
      in hour 11, every two minutes. */
  method MorningSlots() returns (times: seq<string>)
    ensures |times| == 60
    ensures forall k :: 0 <= k < 60 ==> times[k] == MinuteLabel(570 + 2 * k)
  {
    times := [];
    var h := 9;
    while h <= 11
      invariant 9 <= h <= 12
      invariant 2 * |times| + 570 == (if h == 9 then 570 else if h == 12 then 690 else 60 * h)
      invariant forall k :: 0 <= k < |times| ==> times[k] == MinuteLabel(570 + 2 * k)
    {
      var startMin := if h == 9 then 30 else 0;
      var endMin := if h == 11 then 30 else 60;
      var before := times;
      times := AppendHourSlots(times, h, startMin, endMin);
      forall k | 0 <= k < |before| ensures times[k] == MinuteLabel(570 + 2 * k) {
        assert times[k] == times[..|before|][k] == before[k];
      }
      h := h + 1;
    }
  }

  /** The afternoon loop: hours 13 and 14, every two minutes, appended to
      the first 61 labels. */
  method AfternoonSlots(prefix: seq<string>) returns (times: seq<string>)
    requires |prefix| == 61
    ensures |times| == 121
    ensures times[..61] == prefix
    ensures forall k :: 61 <= k < 121 ==> times[k] == MinuteLabel(780 + 2 * (k - 61))
  {
    times := prefix;
    var h := 13;
    while h <= 14
      invariant 13 <= h <= 15
      invariant 2 * (|times| - 61) + 780 == 60 * h
      invariant times[..61] == prefix
      invariant forall k :: 61 <= k < |times| ==> times[k] == MinuteLabel(780 + 2 * (k - 61))
    {
      var before := times;
      times := AppendHourSlots(times, h, 0, 60);
      assert times[..61] == times[..|before|][..61];
      forall k | 61 <= k < |before| ensures times[k] == MinuteLabel(780 + 2 * (k - 61)) {
        assert times[k] == times[..|before|][k] == before[k];
      }
      h := h + 1;
    }
  }

  /** generateTimePoints, with its own loops: the morning slots, then
      11:30, the afternoon slots, then 15:00. */
  method GenerateTimePoints() returns (times: seq<string>)
    ensures times == Labels()
  {
    var morning := MorningSlots();
    assert MinuteLabel(690) == "11:30";
    var afternoon := AfternoonSlots(morning + ["11:30"]);
    assert MinuteLabel(900) == "15:00";
    times := afternoon + ["15:00"];
    forall k | 0 <= k < SlotCount ensures times[k] == Labels()[k] {
      if k < 61 {
        assert times[k] == afternoon[..61][k] == (morning + ["11:30"])[k];
      }
    }
  }

  /** Landmarks: the first label is 09:30, the morning closes at index 60,
      the afternoon opens at index 61, the last label is 15:00. */
  lemma LabelLandmarks()
    ensures |Labels()| == 122
    ensures Labels()[0] == "09:30"
    ensures Labels()[59] == "11:28" && Labels()[60] == "11:30"
    ensures Labels()[61] == "13:00"
    ensures Labels()[120] == "14:58" && Labels()[121] == "15:00"
  {
    MorningLandmarks();
    AfternoonLandmarks();
  }

  /** The morning session's first and closing labels. */
  lemma MorningLandmarks()
    ensures Labels()[0] == "09:30"
    ensures Labels()[59] == "11:28" && Labels()[60] == "11:30"
  {
    assert MinuteLabel(570) == "09:30";
    assert MinuteLabel(688) == "11:28";
    assert MinuteLabel(690) == "11:30";
  }

  /** The afternoon session's first and closing labels. */
  lemma AfternoonLandmarks()
    ensures Labels()[61] == "13:00"
    ensures Labels()[120] == "14:58" && Labels()[121] == "15:00"
  {
    assert MinuteLabel(780) == "13:00";
    assert MinuteLabel(898) == "14:58";
    assert MinuteLabel(900) == "15:00";
  }

  /** Every slot lies in a trading session, consecutive slots of a session
      are two minutes apart, and nothing falls in the lunch break. */
  lemma SlotsCoverSessions()
    ensures forall i :: 0 <= i < SlotCount ==>
      (570 <= SlotMinute(i) <= 690) || (780 <= SlotMinute(i) <= 900)
    ensures forall i :: 0 <= i < SlotCount - 1 && i != 60 ==> SlotMinute(i + 1) == SlotMinute(i) + 2
    ensures forall i :: 0 <= i < SlotCount ==> !(690 < SlotMinute(i) < 780)
  {
  }

  /** Lexicographic order on strings, as JavaScript compares them. */
  predicate LexLess(a: string, b: string)
    decreases |a|
  {
    |b| > 0 && (|a| == 0 || a[0] < b[0] || (a[0] == b[0] && LexLess(a[1..], b[1..])))
  }

  /** Zero padding makes numeric order and string order agree. */
  lemma Pad2Order(x: nat, y: nat)
    requires x < y < 100
    ensures LexLess(Pad2(x), Pad2(y))
  {
    var px, py := Pad2(x), Pad2(y);
    if x / 10 == y / 10 {
      assert px[0] == py[0];
      assert px[1..] == [Digit(x % 10)] && py[1..] == [Digit(y % 10)];
      assert LexLess(px[1..], py[1..]);
    }
  }

  /** Labels of later minutes compare greater as strings. */
  lemma MinuteLabelOrder(s: nat, t: nat)
    requires s < t < 24 * 60
    ensures LexLess(MinuteLabel(s), MinuteLabel(t))
  {
    var a, b := MinuteLabel(s), MinuteLabel(t);
    if s / 60 < t / 60 {
      Pad2Order(s / 60, t / 60);
      assert a[..2] == Pad2(s / 60) && b[..2] == Pad2(t / 60);
      LexLessPrefix(a, b, 2);
    } else {
      assert s / 60 == t / 60 && s % 60 < t % 60;
      Pad2Order(s % 60, t % 60);
      assert a[..3] == b[..3];
      assert a[3..] == Pad2(s % 60) && b[3..] == Pad2(t % 60);
      LexLessAfterCommon(a, b, 3);
    }
  }

  /** Comparing equal-length strings: a strictly smaller prefix decides. */
  lemma {:induction false} LexLessPrefix(a: string, b: string, n: nat)
    requires n <= |a| && n <= |b|
    requires LexLess(a[..n], b[..n])
    ensures LexLess(a, b)
    decreases n
  {
    assert a[..n][1..] == a[1..][..n - 1] && b[..n][1..] == b[1..][..n - 1];
    if a[0] == b[0] && !(a[..n][0] < b[..n][0]) {
      LexLessPrefix(a[1..], b[1..], n - 1);
    }
  }

  /** Comparing strings that agree on the first `n` characters. */
  lemma {:induction false} LexLessAfterCommon(a: string, b: string, n: nat)
    requires n <= |a| && n <= |b| && a[..n] == b[..n]
    requires LexLess(a[n..], b[n..])
    ensures LexLess(a, b)
    decreases n
  {
    if n > 0 {
      assert a[0] == a[..n][0] == b[..n][0] == b[0];
      assert a[1..][..n - 1] == a[..n][1..] == b[..n][1..] == b[1..][..n - 1];
      assert a[1..][n - 1..] == a[n..] && b[1..][n - 1..] == b[n..];
      LexLessAfterCommon(a[1..], b[1..], n - 1);
    }
  }

  /** The labels strictly increase as strings. */
  lemma LabelsIncrease(i: nat, j: nat)
    requires i < j < SlotCount
    ensures LexLess(Labels()[i], Labels()[j])
  {
    MinuteLabelOrder(SlotMinute(i), SlotMinute(j));
  }

  // ---------------------------------------------------------------------
  // Chart values
  // ---------------------------------------------------------------------

  /** One chart point: a time label and a change value. */
  datatype ChartPoint = ChartPoint(time: string, value: real)

  /** The smoothing pass: each output is 0.3 of the previous output plus
      0.7 of the raw value, starting from `prev`. */
  function Smooth(prev: real, raw: seq<real>): (r: seq<real>)
    ensures |r| == |raw|
    ensures |r| > 0 ==> r[0] == prev * 0.3 + raw[0] * 0.7
    ensures forall i :: 0 < i < |r| ==> r[i] == r[i - 1] * 0.3 + raw[i] * 0.7
    decreases |raw|
  {
    if |raw| == 0 then []
    else
      var v := prev * 0.3 + raw[0] * 0.7;
      var rest := Smooth(v, raw[1..]);
      assert forall i :: 1 < i < |raw| ==> rest[i - 1] == rest[i - 2] * 0.3 + raw[i] * 0.7;
      [v] + rest
  }

  /** Smoothing never leaves a band that holds the start value and every
      raw value. */
  lemma {:induction false} SmoothBounded(prev: real, raw: seq<real>, bound: real)
    requires -bound <= prev <= bound
    requires forall i :: 0 <= i < |raw| ==> -bound <= raw[i] <= bound
    ensures forall i :: 0 <= i < |raw| ==> -bound <= Smooth(prev, raw)[i] <= bound
    decreases |raw|
  {
    if |raw| > 0 {
      var v := prev * 0.3 + raw[0] * 0.7;
      SmoothBounded(v, raw[1..], bound);
      var r := Smooth(prev, raw);
      assert r[1..] == Smooth(v, raw[1..]);
      forall i | 1 <= i < |raw| ensures -bound <= r[i] <= bound {
        assert r[i] == Smooth(v, raw[1..])[i - 1];
      }
    }
  }

  /** getFundDayTrend: one point per label, in label order, valued by
      smoothing the raw slot values from 0. */
  function GetFundDayTrend(rawAt: nat -> real): (r: seq<ChartPoint>)
    ensures |r| == SlotCount
    ensures forall i :: 0 <= i < |r| ==> r[i].time == Labels()[i]
    ensures r[0].value == rawAt(0) * 0.7
    ensures forall i :: 0 < i < |r| ==> r[i].value == r[i - 1].value * 0.3 + rawAt(i) * 0.7
  {
    var labels := Labels();
    var values := Smooth(0.0, seq(SlotCount, (i: int) requires 0 <= i => rawAt(i)));
    seq(SlotCount, i requires 0 <= i < SlotCount => ChartPoint(labels[i], values[i]))
  }

  /** If every raw value lies in [-bound, bound], so does every chart value
      (0.4 + 0.2 + 0.1 + 0.025 + 0.5 bounds getFundDayTrend's raw values). */
  lemma DayTrendBounded(rawAt: nat -> real, bound: real)
    requires bound >= 0.0
    requires forall i :: 0 <= i < SlotCount ==> -bound <= rawAt(i) <= bound
    ensures forall i :: 0 <= i < SlotCount ==> -bound <= GetFundDayTrend(rawAt)[i].value <= bound
  {
    var raw := seq(SlotCount, (i: int) requires 0 <= i => rawAt(i));
    SmoothBounded(0.0, raw, bound);
  }
}
