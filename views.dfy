/** The six aggregated views that the aggregation script writes and the
    dashboard shows, as group-bys over the rows of a frame. Means skip
    missing numbers and are missing for a group without any; sums skip
    missing numbers; `x.isna().sum()` counts them. */
module Views {
  import opened Wrappers
  import opened Frames
  import opened Grouping
  import Derivations

  /** The cells of one row that the views read. A column the frame lacks
      reads as missing. */
  datatype Row = Row(ticker: Value, tradeDate: Value, weekStart: Value,
                     open: Option<real>, close: Option<real>, volume: Option<real>,
                     sector: Value, exchange: Value, notes: Value,
                     gapUp: int, gapDown: int, validated: int,
                     priceChange: Option<real>, volatility: Option<real>)

  function RowAt(t: Table, i: int): Row
  {
    Row(t.At("ticker", i), t.At("trade_date", i), t.At("week_start", i),
        AsNumber(t.At("open_price", i)), AsNumber(t.At("close_price", i)), AsNumber(t.At("volume", i)),
        t.At("sector", i), t.At("exchange", i), t.At("notes", i),
        AsCount(t.At("gap_up_flag", i)), AsCount(t.At("gap_down_flag", i)), AsCount(t.At("validated_flag", i)),
        AsNumber(t.At("price_change", i)), AsNumber(t.At("volatility", i)))
  }

  /** The frame's rows, in order. */
  function Rows(t: Table): seq<Row>
  {
    seq(t.height, i => RowAt(t, i))
  }

  // ---------------------------------------------------------------------
  // Summaries of one numeric column of a group
  // ---------------------------------------------------------------------

  /** `sum()`: the present numbers added up; 0 when there are none. */
  function Sum(xs: seq<Option<real>>): real
  {
    if xs == [] then 0.0 else (if xs[0].Some? then xs[0].value else 0.0) + Sum(xs[1..])
  }

  /** `count()`: how many numbers are present. */
  function Count(xs: seq<Option<real>>): nat
  {
    if xs == [] then 0 else (if xs[0].Some? then 1 else 0) + Count(xs[1..])
  }

  /** `isna().sum()`: how many numbers are missing. */
  function Missing(xs: seq<Option<real>>): nat
  {
    if xs == [] then 0 else (if xs[0].None? then 1 else 0) + Missing(xs[1..])
  }

  /** `mean()`: the average of the present numbers, missing when there are none. */
  function Mean(xs: seq<Option<real>>): (m: Option<real>)
    ensures m.None? <==> Count(xs) == 0
    ensures m.Some? ==> m.value * Count(xs) as real == Sum(xs)
  {
    if Count(xs) == 0 then None else Some(Sum(xs) / Count(xs) as real)
  }

  /** Every number is either present or missing. */
  lemma {:induction false} CountAndMissing(xs: seq<Option<real>>)
    ensures Count(xs) + Missing(xs) == |xs|
  {
    if xs != [] {
      CountAndMissing(xs[1..]);
    }
  }

  /** A mean is missing exactly when every number of the group is. */
  lemma {:induction false} MeanMissingIffAllMissing(xs: seq<Option<real>>)
    ensures Mean(xs).None? <==> forall i :: 0 <= i < |xs| ==> xs[i].None?
  {
    if xs != [] {
      MeanMissingIffAllMissing(xs[1..]);
      assert forall i :: 1 <= i < |xs| ==> xs[i] == xs[1..][i - 1];
    }
  }

  lemma {:induction false} SumBetween(xs: seq<Option<real>>, lo: real, hi: real)
    requires forall i :: 0 <= i < |xs| && xs[i].Some? ==> lo <= xs[i].value <= hi
    ensures Count(xs) as real * lo <= Sum(xs) <= Count(xs) as real * hi
  {
    if xs != [] {
      assert forall i :: 0 <= i < |xs[1..]| ==> xs[1..][i] == xs[i + 1];
      SumBetween(xs[1..], lo, hi);
      var c, t := Count(xs[1..]) as real, Sum(xs[1..]);
      if xs[0].Some? {
        assert Count(xs) as real == 1.0 + c && Sum(xs) == xs[0].value + t;
        assert (1.0 + c) * lo == lo + c * lo && (1.0 + c) * hi == hi + c * hi;
      } else {
        assert Count(xs) as real == c && Sum(xs) == t;
      }
    }
  }

  lemma ScaleStrict(x: real, y: real, c: real)
    requires x < y && c > 0.0
    ensures x * c < y * c && c * x < c * y
  {
  }

  /** A quotient of a sum bounded by `c * lo` and `c * hi` lies between `lo` and `hi`. */
  lemma QuotientBetween(s: real, c: real, m: real, lo: real, hi: real)
    requires c > 0.0 && m * c == s && c * lo <= s <= c * hi
    ensures lo <= m <= hi
  {
    if m < lo {
      ScaleStrict(m, lo, c);
    }
    if hi < m {
      ScaleStrict(hi, m, c);
    }
  }

  /** A mean lies between the smallest and the largest number it averages. */
  lemma MeanBetween(xs: seq<Option<real>>, lo: real, hi: real)
    requires forall i :: 0 <= i < |xs| && xs[i].Some? ==> lo <= xs[i].value <= hi
    ensures Mean(xs).Some? ==> lo <= Mean(xs).value <= hi
  {
    SumBetween(xs, lo, hi);
    if Mean(xs).Some? {
      QuotientBetween(Sum(xs), Count(xs) as real, Mean(xs).value, lo, hi);
    }
  }

  // ---------------------------------------------------------------------
  // Columns of a group and per-row weights
  // ---------------------------------------------------------------------

  function Opens(g: seq<Row>): seq<Option<real>>
  {
    seq(|g|, i requires 0 <= i < |g| => g[i].open)
  }

  function Closes(g: seq<Row>): seq<Option<real>>
  {
    seq(|g|, i requires 0 <= i < |g| => g[i].close)
  }

  function Volumes(g: seq<Row>): seq<Option<real>>
  {
    seq(|g|, i requires 0 <= i < |g| => g[i].volume)
  }

  function PriceChanges(g: seq<Row>): seq<Option<real>>
  {
    seq(|g|, i requires 0 <= i < |g| => g[i].priceChange)
  }

  function Volatilities(g: seq<Row>): seq<Option<real>>
  {
    seq(|g|, i requires 0 <= i < |g| => g[i].volatility)
  }

  /** `close_price - open_price` recomputed row by row, as the dashboard's
      notes view does. */
  function Differences(g: seq<Row>): seq<Option<real>>
  {
    seq(|g|, i requires 0 <= i < |g| => Derivations.PriceChange(g[i].open, g[i].close))
  }

  function GapUpOf(r: Row): int { r.gapUp }
  function GapDownOf(r: Row): int { r.gapDown }
  function ValidatedOf(r: Row): int { r.validated }
  function OpenMissingOf(r: Row): int { if r.open.None? then 1 else 0 }
  function TickerPresentOf(r: Row): int { if r.ticker != Null then 1 else 0 }

  /** `("open_price", lambda x: x.isna().sum())` counts the rows whose open
      price is missing. */
  lemma {:induction false} MissingOpensIsTotal(g: seq<Row>)
    ensures Missing(Opens(g)) == Total(g, OpenMissingOf)
  {
    if g != [] {
      assert Opens(g)[1..] == Opens(g[1..]);
      MissingOpensIsTotal(g[1..]);
    }
  }

  /** `("ticker", "count")` counts the rows whose ticker is present. */
  function TickerCount(g: seq<Row>): (n: nat)
    ensures n <= |g|
  {
    if g == [] then 0 else (if g[0].ticker != Null then 1 else 0) + TickerCount(g[1..])
  }

  lemma {:induction false} TickerCountIsTotal(g: seq<Row>)
    ensures TickerCount(g) == Total(g, TickerPresentOf)
  {
    if g != [] {
      TickerCountIsTotal(g[1..]);
    }
  }

  // ---------------------------------------------------------------------
  // Keys
  // ---------------------------------------------------------------------

  /** `groupby(["trade_date", "ticker"])`: rows missing either are dropped. */
  function DailyKey(r: Row): Option<(Value, Value)>
  {
    if r.tradeDate != Null && r.ticker != Null then Some((r.tradeDate, r.ticker)) else None
  }

  /** `groupby(["week_start", "ticker"])`. */
  function WeeklyKey(r: Row): Option<(Value, Value)>
  {
    if r.weekStart != Null && r.ticker != Null then Some((r.weekStart, r.ticker)) else None
  }

  function TickerKey(r: Row): Option<Value>
  {
    if r.ticker != Null then Some(r.ticker) else None
  }

  function SectorKey(r: Row): Option<Value>
  {
    if r.sector != Null then Some(r.sector) else None
  }

  function ExchangeKey(r: Row): Option<Value>
  {
    if r.exchange != Null then Some(r.exchange) else None
  }

  function NotesKey(r: Row): Option<Value>
  {
    if r.notes != Null then Some(r.notes) else None
  }

  // ---------------------------------------------------------------------
  // The views
  // ---------------------------------------------------------------------

  datatype DailyStats = DailyStats(avgOpenPrice: Option<real>, avgClosePrice: Option<real>, totalVolume: real,
                                   gapUpCount: int, gapDownCount: int, missingOpen: nat, missingClose: nat)

  /** The daily view of the dashboard lacks the two missing counts. */
  datatype DashboardDailyStats = DashboardDailyStats(avgOpenPrice: Option<real>, avgClosePrice: Option<real>,
                                                     totalVolume: real, gapUpCount: int, gapDownCount: int)

  datatype WeeklyStats = WeeklyStats(avgClosePrice: Option<real>, avgVolume: Option<real>, avgVolatility: Option<real>)

  datatype TickerStats = TickerStats(avgOpen: Option<real>, avgClose: Option<real>, avgVolume: Option<real>,
                                     priceChangeAvg: Option<real>, validatedCount: int,
                                     gapUpCount: int, gapDownCount: int)

  datatype SectorStats = SectorStats(avgOpen: Option<real>, avgClose: Option<real>, totalGapUp: int, totalGapDown: int)

  datatype ExchangeStats = ExchangeStats(avgOpen: Option<real>, avgClose: Option<real>, totalVolume: real)

  datatype NotesStats = NotesStats(count: nat, avgPriceChange: Option<real>, avgVolume: Option<real>)

  function DailySummary(g: seq<Row>): DailyStats
  {
    DailyStats(Mean(Opens(g)), Mean(Closes(g)), Sum(Volumes(g)), Total(g, GapUpOf), Total(g, GapDownOf),
               Missing(Opens(g)), Missing(Closes(g)))
  }

  function DashboardDailySummary(g: seq<Row>): DashboardDailyStats
  {
    DashboardDailyStats(Mean(Opens(g)), Mean(Closes(g)), Sum(Volumes(g)), Total(g, GapUpOf), Total(g, GapDownOf))
  }

  function WeeklySummary(g: seq<Row>): WeeklyStats
  {
    WeeklyStats(Mean(Closes(g)), Mean(Volumes(g)), Mean(Volatilities(g)))
  }

  function TickerSummary(g: seq<Row>): TickerStats
  {
    TickerStats(Mean(Opens(g)), Mean(Closes(g)), Mean(Volumes(g)), Mean(PriceChanges(g)),
                Total(g, ValidatedOf), Total(g, GapUpOf), Total(g, GapDownOf))
  }

  function SectorSummary(g: seq<Row>): SectorStats
  {
    SectorStats(Mean(Opens(g)), Mean(Closes(g)), Total(g, GapUpOf), Total(g, GapDownOf))
  }

  function ExchangeSummary(g: seq<Row>): ExchangeStats
  {
    ExchangeStats(Mean(Opens(g)), Mean(Closes(g)), Sum(Volumes(g)))
  }

  /** The script averages the frame's `price_change` column. */
  function NotesSummary(g: seq<Row>): NotesStats
  {
    NotesStats(TickerCount(g), Mean(PriceChanges(g)), Mean(Volumes(g)))
  }

  /** The dashboard averages `close_price - open_price` recomputed per row. */
  function DashboardNotesSummary(g: seq<Row>): NotesStats
  {
    NotesStats(TickerCount(g), Mean(Differences(g)), Mean(Volumes(g)))
  }

  function DailyView(rows: seq<Row>): map<(Value, Value), DailyStats>
  {
    GroupBy(rows, DailyKey, DailySummary)
  }

  function DashboardDailyView(rows: seq<Row>): map<(Value, Value), DashboardDailyStats>
  {
    GroupBy(rows, DailyKey, DashboardDailySummary)
  }

  function WeeklyView(rows: seq<Row>): map<(Value, Value), WeeklyStats>
  {
    GroupBy(rows, WeeklyKey, WeeklySummary)
  }

  function TickerView(rows: seq<Row>): map<Value, TickerStats>
  {
    GroupBy(rows, TickerKey, TickerSummary)
  }

  function SectorView(rows: seq<Row>): map<Value, SectorStats>
  {
    GroupBy(rows, SectorKey, SectorSummary)
  }

  function ExchangeView(rows: seq<Row>): map<Value, ExchangeStats>
  {
    GroupBy(rows, ExchangeKey, ExchangeSummary)
  }

  function NotesView(rows: seq<Row>): map<Value, NotesStats>
  {
    GroupBy(rows, NotesKey, NotesSummary)
  }

  function DashboardNotesView(rows: seq<Row>): map<Value, NotesStats>
  {
    GroupBy(rows, NotesKey, DashboardNotesSummary)
  }

  // ---------------------------------------------------------------------
  // Properties of the views
  // ---------------------------------------------------------------------

  /** The daily view has one entry per (trade date, ticker) pair that some
      row carries with both present, and each entry summarises exactly the
      rows of that pair: its missing-open count and its count of present
      open prices add up to the size of the group. */
  lemma DailyEntry(rows: seq<Row>, d: Value, t: Value)
    ensures (d, t) in DailyView(rows)
        <==> exists i :: 0 <= i < |rows| && rows[i].tradeDate == d && rows[i].ticker == t && d != Null && t != Null
    ensures (d, t) in DailyView(rows) ==>
              var g := Group(rows, DailyKey, (d, t));
              g != [] && DailyView(rows)[(d, t)].missingOpen + Count(Opens(g)) == |g|
  {
    var m := DailyView(rows);
    if (d, t) in m {
      var g := Group(rows, DailyKey, (d, t));
      CountAndMissing(Opens(g));
      var i :| 0 <= i < |rows| && DailyKey(rows[i]) == Some((d, t));
      assert rows[i].tradeDate == d && rows[i].ticker == t && d != Null && t != Null;
    }
    if exists i :: 0 <= i < |rows| && rows[i].tradeDate == d && rows[i].ticker == t && d != Null && t != Null {
      var i :| 0 <= i < |rows| && rows[i].tradeDate == d && rows[i].ticker == t && d != Null && t != Null;
      assert DailyKey(rows[i]) == Some((d, t));
    }
  }

  function GapUpCountOf(s: DailyStats): int { s.gapUpCount }
  function MissingOpenOf(s: DailyStats): int { s.missingOpen }
  function ValidatedCountOf(s: TickerStats): int { s.validatedCount }
  function TotalGapDownOf(s: SectorStats): int { s.totalGapDown }
  function NotesCountOf(s: NotesStats): int { s.count }

  /** Summed over the daily view, the gap-up counts are the gap-up flags of
      every row that has both a trade date and a ticker. */
  lemma DailyGapUpConserved(rows: seq<Row>)
    ensures SumOverView(DailyView(rows), GapUpCountOf, DailyView(rows).Keys) == KeyedWeight(rows, DailyKey, GapUpOf)
  {
    GroupByConserves(rows, DailyKey, DailySummary, GapUpCountOf, GapUpOf);
  }

  /** Summed over the daily view, the missing-open counts are the rows with
      a trade date and a ticker but no open price. */
  lemma DailyMissingOpenConserved(rows: seq<Row>)
    ensures SumOverView(DailyView(rows), MissingOpenOf, DailyView(rows).Keys)
         == KeyedWeight(rows, DailyKey, OpenMissingOf)
  {
    forall g ensures MissingOpenOf(DailySummary(g)) == Total(g, OpenMissingOf) {
      MissingOpensIsTotal(g);
    }
    GroupByConserves(rows, DailyKey, DailySummary, MissingOpenOf, OpenMissingOf);
  }

  /** Summed over the ticker view, the validated counts are the validated
      flags of every row with a ticker. */
  lemma TickerValidatedConserved(rows: seq<Row>)
    ensures SumOverView(TickerView(rows), ValidatedCountOf, TickerView(rows).Keys)
         == KeyedWeight(rows, TickerKey, ValidatedOf)
  {
    GroupByConserves(rows, TickerKey, TickerSummary, ValidatedCountOf, ValidatedOf);
  }

  /** Summed over the sector view, the gap-down totals are the gap-down
      flags of every row with a sector. */
  lemma SectorGapDownConserved(rows: seq<Row>)
    ensures SumOverView(SectorView(rows), TotalGapDownOf, SectorView(rows).Keys)
         == KeyedWeight(rows, SectorKey, GapDownOf)
  {
    GroupByConserves(rows, SectorKey, SectorSummary, TotalGapDownOf, GapDownOf);
  }

  /** Summed over the notes view, the counts are the rows that have both a
      note and a ticker: a row with a note but no ticker is in a group yet
      not counted. */
  lemma NotesCountConserved(rows: seq<Row>)
    ensures SumOverView(NotesView(rows), NotesCountOf, NotesView(rows).Keys)
         == KeyedWeight(rows, NotesKey, TickerPresentOf)
  {
    forall g ensures NotesCountOf(NotesSummary(g)) == Total(g, TickerPresentOf) {
      TickerCountIsTotal(g);
    }
    GroupByConserves(rows, NotesKey, NotesSummary, NotesCountOf, TickerPresentOf);
  }

  /** The dashboard's daily view is the script's without the missing counts. */
  lemma DashboardDailyIsTrimmedDaily(rows: seq<Row>)
    ensures DashboardDailyView(rows).Keys == DailyView(rows).Keys
    ensures forall k :: k in DailyView(rows) ==>
              var s := DailyView(rows)[k];
              DashboardDailyView(rows)[k]
              == DashboardDailyStats(s.avgOpenPrice, s.avgClosePrice, s.totalVolume, s.gapUpCount, s.gapDownCount)
  {
  }

  lemma {:induction false} DifferencesArePriceChanges(g: seq<Row>)
    requires forall i :: 0 <= i < |g| ==> g[i].priceChange == Derivations.PriceChange(g[i].open, g[i].close)
    ensures Differences(g) == PriceChanges(g)
  {
  }

  /** Where every row's `price_change` is its close minus its open, as the
      script assigns it, the dashboard's notes view, which recomputes the
      difference, equals the script's. */
  lemma DashboardNotesAgree(rows: seq<Row>)
    requires forall i :: 0 <= i < |rows| ==> rows[i].priceChange == Derivations.PriceChange(rows[i].open, rows[i].close)
    ensures DashboardNotesView(rows) == NotesView(rows)
  {
    var a, b := DashboardNotesView(rows), NotesView(rows);
    forall k | k in a ensures a[k] == b[k] {
      GroupDifferencesArePriceChanges(rows, k);
    }
    MapsAgree(a, b);
  }

  lemma GroupDifferencesArePriceChanges(rows: seq<Row>, k: Value)
    requires forall i :: 0 <= i < |rows| ==> rows[i].priceChange == Derivations.PriceChange(rows[i].open, rows[i].close)
    ensures Differences(Group(rows, NotesKey, k)) == PriceChanges(Group(rows, NotesKey, k))
  {
    var g := Group(rows, NotesKey, k);
    forall i | 0 <= i < |g| ensures g[i].priceChange == Derivations.PriceChange(g[i].open, g[i].close) {
      assert g[i] in rows;
    }
    DifferencesArePriceChanges(g);
  }

  lemma {:induction false} SumOfDifferences(g: seq<Row>)
    requires forall i :: 0 <= i < |g| ==> g[i].open.Some? && g[i].close.Some?
    ensures Sum(Differences(g)) == Sum(Closes(g)) - Sum(Opens(g))
    ensures Count(Differences(g)) == Count(Closes(g)) == Count(Opens(g)) == |g|
  {
    if g != [] {
      assert Differences(g)[1..] == Differences(g[1..]);
      assert Closes(g)[1..] == Closes(g[1..]);
      assert Opens(g)[1..] == Opens(g[1..]);
      SumOfDifferences(g[1..]);
    }
  }

  /** For a group with every open and close price present, the average price
      change is the average close minus the average open. */
  lemma PriceChangeAverage(g: seq<Row>)
    requires g != []
    requires forall i :: 0 <= i < |g| ==> g[i].open.Some? && g[i].close.Some?
    requires forall i :: 0 <= i < |g| ==> g[i].priceChange == Derivations.PriceChange(g[i].open, g[i].close)
    ensures TickerSummary(g).priceChangeAvg.Some? && TickerSummary(g).avgOpen.Some? && TickerSummary(g).avgClose.Some?
    ensures TickerSummary(g).priceChangeAvg.value == TickerSummary(g).avgClose.value - TickerSummary(g).avgOpen.value
  {
    DifferencesArePriceChanges(g);
    SumOfDifferences(g);
    var n, a, b := |g| as real, Sum(Closes(g)), Sum(Opens(g));
    assert Mean(PriceChanges(g)) == Some((a - b) / n);
    assert Mean(Closes(g)) == Some(a / n) && Mean(Opens(g)) == Some(b / n);
    QuotientOfDifference(a, b, n);
  }

  lemma QuotientOfDifference(a: real, b: real, n: real)
    requires n > 0.0
    ensures (a - b) / n == a / n - b / n
  {
    var x, y := a / n, b / n;
    assert x * n == a && y * n == b;
    assert (x - y) * n == a - b;
  }
}
