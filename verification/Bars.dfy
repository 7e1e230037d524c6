/** Daily and timestamped market bars, and their validation. */
module Bars {
  import opened Wrappers

  /** A daily bar carries a day ordinal, a market bar microseconds since a UTC midnight. */
  datatype RawBar =
    | DailyBar(day: int, open: real, high: real, low: real, close: real)
    | MarketBar(timestamp: int, open: real, high: real, low: real, close: real)

  /** What constructing a bar checks. */
  predicate IsBar(b: RawBar) {
    && b.open > 0.0 && b.high > 0.0 && b.low > 0.0 && b.close > 0.0
    && b.low <= b.open <= b.high
    && b.low <= b.close <= b.high
  }

  type Bar = b: RawBar | IsBar(b) witness DailyBar(0, 1.0, 1.0, 1.0, 1.0)

  datatype Interval = Hour | FourHours | Day

  datatype RawCadence = Cadence(interval: Interval, periodsPerYear: nat)

  predicate IsCadence(c: RawCadence) {
    match c.interval
    case Hour => c.periodsPerYear == 8760
    case FourHours => c.periodsPerYear == 2190
    case Day => c.periodsPerYear == 252 || c.periodsPerYear == 365
  }

  type Cadence = c: RawCadence | IsCadence(c) witness RawCadence.Cadence(Day, 252)

  datatype InputError =
    | MixedBars
    | UnorderedBars
    | MisalignedTimestamp
    | CadenceRequired
    | CadenceNotDaily
    | StartOutOfRange

  /** Periods a year, and whether the bars are timestamped. */
  datatype Checked = Checked(periodsPerYear: nat, market: bool)

  const SECOND := 1_000_000
  const DAILY_252: Cadence := RawCadence.Cadence(Day, 252)

  function IntervalSeconds(interval: Interval): (seconds: nat)
  {
    match interval
    case Hour => 3600
    case FourHours => 4 * 3600
    case Day => 24 * 3600
  }

  function BarDate(b: Bar): int {
    if b.DailyBar? then b.day else b.timestamp / (24 * 3600 * SECOND)
  }

  function BarTimestamp(b: Bar): Option<int> {
    if b.MarketBar? then Some(b.timestamp) else None
  }

  function Instant(b: Bar): int {
    if b.DailyBar? then b.day else b.timestamp
  }

  function ElapsedSeconds(entry: Bar, exit: Bar): Option<int> {
    if entry.MarketBar? && exit.MarketBar? then Some((exit.timestamp - entry.timestamp) / SECOND) else None
  }

  predicate StrictlyOrdered(bars: seq<Bar>) {
    forall i | 0 <= i < |bars| - 1 :: Instant(bars[i]) < Instant(bars[i + 1])
  }

  predicate Aligned(b: Bar, interval: Interval) {
    Instant(b) % (IntervalSeconds(interval) * SECOND) == 0
  }

  function Validate(bars: seq<Bar>, cadence: Option<Cadence>): Result<Checked, InputError> {
    if bars == [] then
      match cadence
      case None => Ok(Checked(252, false))
      case Some(c) => Ok(Checked(c.periodsPerYear, c != DAILY_252))
    else if forall b | b in bars :: b.DailyBar? then
      if cadence.Some? && cadence.value != DAILY_252 then Err(CadenceNotDaily)
      else if !StrictlyOrdered(bars) then Err(UnorderedBars)
      else Ok(Checked(252, false))
    else if forall b | b in bars :: b.MarketBar? then
      if cadence.None? then Err(CadenceRequired)
      else if !StrictlyOrdered(bars) then Err(UnorderedBars)
      else if exists b | b in bars :: !Aligned(b, cadence.value.interval) then Err(MisalignedTimestamp)
      else Ok(Checked(cadence.value.periodsPerYear, true))
    else
      Err(MixedBars)
  }

  /** Two multiples of `m` in strict order are at least `m` apart. */
  lemma MultiplesApart(a: int, b: int, m: int)
    requires m > 0 && a % m == 0 && b % m == 0 && a < b
    ensures b - a >= m
  {
    var i, j := a / m, b / m;
    if j <= i {
      ProductMonotone(m, j, i);
    } else {
      ProductMonotone(m, i + 1, j);
    }
  }

  lemma ProductMonotone(m: int, i: int, j: int)
    requires m > 0 && i <= j
    ensures m * i <= m * j
  {
  }

  /** Accepted market bars are at least one interval a bar apart: gaps only lengthen a holding. */
  lemma {:induction false} ElapsedCoversInterval(bars: seq<Bar>, cadence: Cadence, i: nat, j: nat)
    requires Validate(bars, Some(cadence)).Ok? && Validate(bars, Some(cadence)).value.market
    requires i <= j < |bars|
    ensures ElapsedSeconds(bars[i], bars[j]).Some?
    ensures ElapsedSeconds(bars[i], bars[j]).value >= (j - i) * IntervalSeconds(cadence.interval)
    decreases j - i
  {
    var m := IntervalSeconds(cadence.interval) * SECOND;
    assert bars[i] in bars && bars[j] in bars;
    GapCovers(bars, cadence, i, j);
    assert (j - i) * m == (j - i) * IntervalSeconds(cadence.interval) * SECOND;
  }

  lemma {:induction false} GapCovers(bars: seq<Bar>, cadence: Cadence, i: nat, j: nat)
    requires Validate(bars, Some(cadence)).Ok? && Validate(bars, Some(cadence)).value.market
    requires i <= j < |bars|
    ensures bars[i].MarketBar? && bars[j].MarketBar?
    ensures bars[j].timestamp - bars[i].timestamp >= (j - i) * (IntervalSeconds(cadence.interval) * SECOND)
    decreases j - i
  {
    var m := IntervalSeconds(cadence.interval) * SECOND;
    assert bars[i] in bars && bars[j] in bars;
    if i < j {
      GapCovers(bars, cadence, i, j - 1);
      assert bars[j - 1] in bars;
      assert Instant(bars[j - 1]) < Instant(bars[j - 1 + 1]);
      MultiplesApart(bars[j - 1].timestamp, bars[j].timestamp, m);
      assert (j - i) * m == (j - 1 - i) * m + m;
    }
  }

  // ---- What is accepted

  lemma {:induction false} EarlierIsSmaller(bars: seq<Bar>, i: nat, j: nat)
    requires StrictlyOrdered(bars) && i < j < |bars|
    ensures Instant(bars[i]) < Instant(bars[j])
  {
    if i < j - 1 {
      EarlierIsSmaller(bars, i, j - 1);
      assert Instant(bars[j - 1]) < Instant(bars[j - 1 + 1]);
    }
  }

  ghost predicate AcceptableDays(bars: seq<Bar>, cadence: Option<Cadence>) {
    && (forall b | b in bars :: b.DailyBar?)
    && (forall i, j | 0 <= i < j < |bars| :: bars[i].DailyBar? && bars[j].DailyBar? && bars[i].day < bars[j].day)
    && (cadence.Some? ==> cadence.value == RawCadence.Cadence(Day, 252))
  }

  function HoursOf(interval: Interval): nat {
    match interval case Hour => 1 case FourHours => 4 case Day => 24
  }

  ghost predicate AcceptableTimes(bars: seq<Bar>, cadence: Option<Cadence>) {
    && cadence.Some?
    && (forall b | b in bars :: b.MarketBar? && b.timestamp % (HoursOf(cadence.value.interval) * 3_600_000_000) == 0)
    && (forall i, j | 0 <= i < j < |bars| ::
          bars[i].MarketBar? && bars[j].MarketBar? && bars[i].timestamp < bars[j].timestamp)
  }

  lemma OrderedIff(bars: seq<Bar>)
    ensures StrictlyOrdered(bars) <==> forall i, j | 0 <= i < j < |bars| :: Instant(bars[i]) < Instant(bars[j])
  {
    if StrictlyOrdered(bars) {
      forall i, j | 0 <= i < j < |bars|
        ensures Instant(bars[i]) < Instant(bars[j])
      {
        EarlierIsSmaller(bars, i, j);
      }
    }
  }

  /** Bars are accepted exactly if they are all daily, of strictly rising days, with no cadence or 1D/252, or
      all timestamped, strictly rising and on the boundaries of the cadence given. */
  lemma AcceptedIff(bars: seq<Bar>, cadence: Option<Cadence>)
    requires bars != []
    ensures Validate(bars, cadence).Ok? <==> AcceptableDays(bars, cadence) || AcceptableTimes(bars, cadence)
    ensures AcceptableDays(bars, cadence) ==> Validate(bars, cadence) == Ok(Checked(252, false))
    ensures AcceptableTimes(bars, cadence) ==>
              Validate(bars, cadence) == Ok(Checked(cadence.value.periodsPerYear, true))
  {
    OrderedIff(bars);
    hide StrictlyOrdered;
    assert bars[0] in bars;
    assert forall i | 0 <= i < |bars| :: bars[i] in bars;
  }

  /** The date of a timestamped bar is the day its timestamp falls in, and between two of them as many whole
      seconds pass as their microseconds hold; daily bars have no time. */
  lemma TimesAre(a: Bar, b: Bar)
    ensures a.DailyBar? ==> BarDate(a) == a.day && BarTimestamp(a) == None && ElapsedSeconds(a, b) == None
    ensures a.MarketBar? ==>
              BarTimestamp(a) == Some(a.timestamp)
              && BarDate(a) * 86_400_000_000 <= a.timestamp < (BarDate(a) + 1) * 86_400_000_000
    ensures a.MarketBar? && b.MarketBar? ==>
              && ElapsedSeconds(a, b).Some?
              && var seconds := ElapsedSeconds(a, b).value;
              && seconds * 1_000_000 <= b.timestamp - a.timestamp < (seconds + 1) * 1_000_000
  {
  }
}
