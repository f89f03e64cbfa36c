/** The dashboard: it loads the cleaned table, repeats the script's
    derivations, computes its own six views, and restricts or recomputes
    them for the tickers the user selects. */
module Dashboard {
  import opened Wrappers
  import opened Frames
  import opened Grouping
  import opened Calendar
  import opened Derivations
  import opened Views
  import opened Aggregations
  import Text

  // ---------------------------------------------------------------------
  // Loading
  // ---------------------------------------------------------------------

  /** `pd.to_datetime(col, errors="coerce")` on one cell: a parsed text
      becomes its day, an unparsable one `NaT`. */
  function ParsedDateCell(v: Value, parseDate: string -> Option<CalendarDate>): (r: Value)
    ensures r == Null || r.Day?
    ensures v.Str? ==> (r == Null <==> parseDate(v.s).None?)
    ensures v.Str? && parseDate(v.s).Some? ==> r == Day(DayNumber(parseDate(v.s).value))
    ensures v.Day? ==> r == v
  {
    match v
    case Str(s) => (match parseDate(s) case Some(d) => Day(DayNumber(d)) case None => Null)
    case Day(_) => v
    case _ => Null
  }

  function ParsedDateColumn(t: Table, parseDate: string -> Option<CalendarDate>): (v: seq<Value>)
    ensures |v| == t.height
  {
    seq(t.height, i => ParsedDateCell(t.At("trade_date", i), parseDate))
  }

  /** The `trade_date_parsed` column: parsed dates, or all `NaT` when the
      frame has no `trade_date`. */
  function DateColumn(t: Table, parseDate: string -> Option<CalendarDate>): (v: seq<Value>)
    ensures |v| == t.height
  {
    if t.Has("trade_date") then ParsedDateColumn(t, parseDate) else Nulls(t.height)
  }

  /** `load_cleaned` on a stored table, as intended: numbers coerced where
      present, the three flags (0 where `notes` or `validated` is absent),
      then `trade_date_parsed`. */
  function Loaded(t: Table, parseNum: string -> Option<real>, parseDate: string -> Option<CalendarDate>): (r: Table)
    requires t.Valid()
    ensures r.Valid() && r.height == t.height
  {
    var f := WithFlags(Coerced(t, NumericColumns, parseNum));
    f.Assigned("trade_date_parsed", DateColumn(f, parseDate))
  }

  /** `load_cleaned` as written: `df.get("notes", "")` returns the text ""
      when the column is absent, and `"".astype(str)` raises
      `AttributeError`; the same for `validated`. */
  function LoadedAsWritten(t: Table, parseNum: string -> Option<real>, parseDate: string -> Option<CalendarDate>)
    : Result<Table, string>
    requires t.Valid()
  {
    if !t.Has("notes") || !t.Has("validated") then Failure("AttributeError")
    else Success(Loaded(t, parseNum, parseDate))
  }

  /** What `load_cleaned` returns: an empty frame when there is no stored
      table. */
  function LoadedFrame(stored: Option<Table>, parseNum: string -> Option<real>, parseDate: string -> Option<CalendarDate>)
    : Table
    requires stored.Some? ==> stored.value.Valid()
  {
    match stored
    case None => Empty
    case Some(t) => Loaded(t, parseNum, parseDate)
  }

  /** `load_cleaned`, with the intended flags. `stored` is the contents of
      `cleaned.parquet`, `None` when the file does not exist. */
  method LoadCleaned(stored: Option<Table>, parseNum: string -> Option<real>, parseDate: string -> Option<CalendarDate>)
    returns (f: Frame)
    requires stored.Some? ==> stored.value.Valid()
    ensures fresh(f) && f.Valid() && f.Contents() == LoadedFrame(stored, parseNum, parseDate)
  {
    if stored.None? {
      f := new Frame(Empty);
      return;
    }
    f := new Frame(stored.value);
    CoerceColumns(f, NumericColumns, parseNum);
    AssignFlags(f);
    var t := f.Contents();
    if f.Has("trade_date") {
      f.Assign("trade_date_parsed", ParsedDateColumn(t, parseDate));
    } else {
      f.Assign("trade_date_parsed", Nulls(f.height));
    }
  }

  /** The loader as written fails exactly on a table that lacks `notes` or
      `validated`, and otherwise returns the intended frame. */
  lemma LoadAsWrittenFails(t: Table, parseNum: string -> Option<real>, parseDate: string -> Option<CalendarDate>)
    requires t.Valid()
    ensures LoadedAsWritten(t, parseNum, parseDate).Failure? <==> !t.Has("notes") || !t.Has("validated")
    ensures LoadedAsWritten(t, parseNum, parseDate).Success? ==>
              LoadedAsWritten(t, parseNum, parseDate).value == Loaded(t, parseNum, parseDate)
  {
  }

  /** A one-row cleaned table with a ticker and no notes: the loader as
      written raises, the intended one gives flags 0. */
  lemma LoadWithoutNotes(parseNum: string -> Option<real>, parseDate: string -> Option<CalendarDate>)
    ensures var t := Table(["ticker", "validated"], [[Str("AAPL")], [Str("yes")]], 1);
            && LoadedAsWritten(t, parseNum, parseDate) == Failure("AttributeError")
            && RowAt(Loaded(t, parseNum, parseDate), 0).gapUp == 0
            && RowAt(Loaded(t, parseNum, parseDate), 0).validated == 1
  {
    var t := Table(["ticker", "validated"], [[Str("AAPL")], [Str("yes")]], 1);
    assert !t.Has("notes");
    assert t.At("validated", 0) == Str("yes");
    assert ValidatedFlag(Str("yes")) == 1 by {
      assert Text.Lower("yes") == "yes" by {
        Text.LowerSpec("yes");
      }
    }
    LoadedRow(t, parseNum, parseDate, 0);
  }

  /** The intended loader's columns: the stored ones, the three flags and
      `trade_date_parsed`. */
  lemma LoadedColumns(t: Table, parseNum: string -> Option<real>, parseDate: string -> Option<CalendarDate>)
    requires t.Valid()
    ensures var r := Loaded(t, parseNum, parseDate);
            forall c :: r.Has(c) <==> || t.Has(c) || c == "gap_up_flag" || c == "gap_down_flag" || c == "validated_flag"
                                      || c == "trade_date_parsed"
  {
    var c := Coerced(t, NumericColumns, parseNum);
    var f := WithFlags(c);
    FlagsColumns(c);
    var r := f.Assigned("trade_date_parsed", DateColumn(f, parseDate));
    assert forall d :: r.Has(d) <==> f.Has(d) || d == "trade_date_parsed";
    assert forall d :: c.Has(d) <==> t.Has(d);
  }

  /** The flags add exactly their three columns. */
  lemma FlagsColumns(c: Table)
    requires c.Valid()
    ensures forall d :: WithFlags(c).Has(d) <==> c.Has(d) || d == "gap_up_flag" || d == "gap_down_flag" || d == "validated_flag"
  {
    var f1 := WithFlag(c, "gap_up_flag", "notes", GapUpFlag);
    var f2 := WithFlag(f1, "gap_down_flag", "notes", GapDownFlag);
    var f3 := WithFlag(f2, "validated_flag", "validated", ValidatedFlag);
    assert WithFlags(c) == f3;
    assert forall d :: f1.Has(d) <==> c.Has(d) || d == "gap_up_flag";
    assert forall d :: f2.Has(d) <==> f1.Has(d) || d == "gap_down_flag";
    assert forall d :: f3.Has(d) <==> f2.Has(d) || d == "validated_flag";
  }

  /** Each loaded row: flags by the script's definitions from the stored
      `notes` and `validated`, numbers coerced, `trade_date_parsed` the
      parsed date. */
  lemma LoadedRow(t: Table, parseNum: string -> Option<real>, parseDate: string -> Option<CalendarDate>, i: int)
    requires t.Valid() && 0 <= i < t.height
    ensures var r := Loaded(t, parseNum, parseDate);
            && AsCount(r.At("gap_up_flag", i)) == GapUpFlag(t.At("notes", i))
            && AsCount(r.At("gap_down_flag", i)) == GapDownFlag(t.At("notes", i))
            && AsCount(r.At("validated_flag", i)) == ValidatedFlag(t.At("validated", i))
            && r.At("open_price", i) == Coerce(t.At("open_price", i), parseNum)
            && r.At("close_price", i) == Coerce(t.At("close_price", i), parseNum)
            && r.At("trade_date_parsed", i) == ParsedDateCell(t.At("trade_date", i), parseDate)
  {
    var c := Coerced(t, NumericColumns, parseNum);
    var f := WithFlags(c);
    CoercedLoaderCells(t, parseNum, i);
    FlaggedRow(c, DateColumn(f, parseDate), i);
    CountOfInt(f.At("gap_up_flag", i), GapUpFlag(c.At("notes", i)));
    CountOfInt(f.At("gap_down_flag", i), GapDownFlag(c.At("notes", i)));
    CountOfInt(f.At("validated_flag", i), ValidatedFlag(c.At("validated", i)));
    DatedRow(c, parseDate, i);
  }

  /** A flag cell reads back as its count. */
  lemma CountOfInt(v: Value, n: int)
    requires v == Int(n)
    ensures AsCount(v) == n
  {
  }

  // A solver aid: the loader's coercion leaves the text columns alone and coerces the two prices.
  lemma CoercedLoaderCells(t: Table, parseNum: string -> Option<real>, i: int)
    requires t.Valid() && 0 <= i < t.height
    ensures var c := Coerced(t, NumericColumns, parseNum);
            && c.At("notes", i) == t.At("notes", i) && c.At("validated", i) == t.At("validated", i)
            && c.At("trade_date", i) == t.At("trade_date", i) && c.Has("trade_date") == t.Has("trade_date")
            && c.At("open_price", i) == Coerce(t.At("open_price", i), parseNum)
            && c.At("close_price", i) == Coerce(t.At("close_price", i), parseNum)
  {
    NotNumeric("notes");
    NotNumeric("validated");
    NotNumeric("trade_date");
    IsNumeric("open_price");
    IsNumeric("close_price");
  }

  // A solver aid: the two price names are numeric columns.
  lemma IsNumeric(c: string)
    requires c == "open_price" || c == "close_price"
    ensures c in NumericColumns
  {
  }

  /** `trade_date_parsed` is none of the names the flags are written to. */
  lemma ParsedNameApart(c: string)
    requires c == "gap_up_flag" || c == "gap_down_flag" || c == "validated_flag" || c == "open_price" || c == "close_price"
    ensures c != "trade_date_parsed"
  {
  }

  /** The loader's steps after the coercion, on any frame and whatever
      column is then added as `trade_date_parsed`: flags. */
  lemma FlaggedRow(c: Table, v: seq<Value>, i: int)
    requires c.Valid() && |v| == c.height && 0 <= i < c.height
    ensures var f := WithFlags(c);
            var r := f.Assigned("trade_date_parsed", v);
            && r.At("gap_up_flag", i) == f.At("gap_up_flag", i)
            && r.At("gap_down_flag", i) == f.At("gap_down_flag", i)
            && r.At("validated_flag", i) == f.At("validated_flag", i)
  {
    var f := WithFlags(c);
    ParsedNameApart("gap_up_flag");
    ParsedNameApart("gap_down_flag");
    ParsedNameApart("validated_flag");
    AssignedKeeps(f, "trade_date_parsed", v, "gap_up_flag", i);
    AssignedKeeps(f, "trade_date_parsed", v, "gap_down_flag", i);
    AssignedKeeps(f, "trade_date_parsed", v, "validated_flag", i);
  }

  lemma AssignedKeeps(t: Table, name: string, v: seq<Value>, d: string, i: int)
    requires t.Valid() && |v| == t.height && d != name
    ensures t.Assigned(name, v).At(d, i) == t.At(d, i)
  {
  }

  /** The loader's steps after the coercion, on any frame: the prices are
      kept and the parsed date added. */
  lemma DatedRow(c: Table, parseDate: string -> Option<CalendarDate>, i: int)
    requires c.Valid() && 0 <= i < c.height
    ensures var f := WithFlags(c);
            var r := f.Assigned("trade_date_parsed", DateColumn(f, parseDate));
            && r.At("open_price", i) == c.At("open_price", i)
            && r.At("close_price", i) == c.At("close_price", i)
            && r.At("trade_date_parsed", i) == ParsedDateCell(c.At("trade_date", i), parseDate)
  {
    var f := WithFlags(c);
    var r := f.Assigned("trade_date_parsed", DateColumn(f, parseDate));
    ParsedNameApart("open_price");
    ParsedNameApart("close_price");
    PriceNotDerived("open_price");
    PriceNotDerived("close_price");
    NotNumeric("trade_date");
    assert r.At("open_price", i) == f.At("open_price", i) == c.At("open_price", i);
    assert r.At("close_price", i) == f.At("close_price", i) == c.At("close_price", i);
    assert f.At("trade_date", i) == c.At("trade_date", i);
    assert r.At("trade_date_parsed", i) == DateColumn(f, parseDate)[i];
    if !f.Has("trade_date") {
      assert f.At("trade_date", i) == Null;
    }
  }

  // ---------------------------------------------------------------------
  // The dashboard's views
  // ---------------------------------------------------------------------

  /** Why a computation raises: a column an aggregation reads is absent
      (`KeyError`), or `pd.to_datetime` cannot parse a trade date. */
  datatype Error = KeyError | DateError

  /** The six entries of `out`; `None` is the empty `pd.DataFrame()`. */
  datatype DashboardViews = DashboardViews(daily: Option<map<(Value, Value), DashboardDailyStats>>,
                                           weekly: Option<map<(Value, Value), WeeklyStats>>,
                                           ticker: Option<map<Value, TickerStats>>,
                                           sector: Option<map<Value, SectorStats>>,
                                           exchange: Option<map<Value, ExchangeStats>>,
                                           notes: Option<map<Value, NotesStats>>)

  predicate HasAll(t: Table, cs: seq<string>)
  {
    forall c :: c in cs ==> t.Has(c)
  }

  /** The columns each aggregation reads besides its key. */
  const DailyInputs: seq<string> := ["open_price", "close_price", "volume", "gap_up_flag", "gap_down_flag"]
  const WeeklyInputs: seq<string> := ["open_price", "close_price", "volume"]
  const TickerInputs: seq<string> :=
    ["open_price", "close_price", "volume", "validated_flag", "gap_up_flag", "gap_down_flag"]
  const SectorInputs: seq<string> := ["open_price", "close_price", "gap_up_flag", "gap_down_flag"]
  const ExchangeInputs: seq<string> := ["open_price", "close_price", "volume"]
  const NotesInputs: seq<string> := ["ticker", "close_price", "volume", "open_price"]

  function DailyPart(t: Table): Result<Option<map<(Value, Value), DashboardDailyStats>>, Error>
  {
    if !(t.Has("trade_date") && t.Has("ticker")) then Success(None)
    else if HasAll(t, DailyInputs) then Success(Some(DashboardDailyView(Rows(t))))
    else Failure(KeyError)
  }

  /** The weekly view, computed on a copy of the frame. */
  function WeeklyPart(t: Table, parseDate: string -> Option<CalendarDate>): Result<Option<map<(Value, Value), WeeklyStats>>, Error>
    requires t.Valid()
  {
    if !(t.Has("trade_date") && t.Has("ticker")) then Success(None)
    else match WeekColumn(t, parseDate)
      case None => Failure(DateError)
      case Some(weeks) =>
        if HasAll(t, WeeklyInputs) then Success(Some(WeeklyView(Rows(WithWeeks(t, weeks)))))
        else Failure(KeyError)
  }

  /** The frame after `df["price_change"] = df["close_price"] -
      df["open_price"]`, which runs when there is a ticker column. */
  function TickerFrame(t: Table): (r: Table)
    requires t.Valid()
    ensures r.Valid() && r.height == t.height
  {
    if t.Has("ticker") && t.Has("open_price") && t.Has("close_price")
    then t.Assigned("price_change", DifferenceColumn(t))
    else t
  }

  function TickerPart(t: Table): Result<Option<map<Value, TickerStats>>, Error>
    requires t.Valid()
  {
    if !t.Has("ticker") then Success(None)
    else if HasAll(t, TickerInputs) then Success(Some(TickerView(Rows(TickerFrame(t)))))
    else Failure(KeyError)
  }

  /** The sector view of some rows of a frame with columns like `t`. */
  function SectorPart(t: Table, rows: seq<Row>): Result<Option<map<Value, SectorStats>>, Error>
  {
    if !t.Has("sector") then Success(None)
    else if HasAll(t, SectorInputs) then Success(Some(SectorView(rows)))
    else Failure(KeyError)
  }

  function ExchangePart(t: Table, rows: seq<Row>): Result<Option<map<Value, ExchangeStats>>, Error>
  {
    if !t.Has("exchange") then Success(None)
    else if HasAll(t, ExchangeInputs) then Success(Some(ExchangeView(rows)))
    else Failure(KeyError)
  }

  /** The notes view, with the average price change recomputed as close
      minus open per group. */
  function NotesPart(t: Table, rows: seq<Row>): Result<Option<map<Value, NotesStats>>, Error>
  {
    if !t.Has("notes") then Success(None)
    else if HasAll(t, NotesInputs) then Success(Some(DashboardNotesView(rows)))
    else Failure(KeyError)
  }

  /** What `compute_aggregations` returns, or the first error it raises. */
  function Computed(t: Table, parseDate: string -> Option<CalendarDate>): Result<DashboardViews, Error>
    requires t.Valid()
  {
    var daily := DailyPart(t);
    var weekly := WeeklyPart(t, parseDate);
    var ticker := TickerPart(t);
    var p := TickerFrame(t);
    var sector := SectorPart(p, Rows(p));
    var exchange := ExchangePart(p, Rows(p));
    var notes := NotesPart(p, Rows(p));
    if daily.Failure? then Failure(daily.error)
    else if weekly.Failure? then Failure(weekly.error)
    else if ticker.Failure? then Failure(ticker.error)
    else if sector.Failure? then Failure(sector.error)
    else if exchange.Failure? then Failure(exchange.error)
    else if notes.Failure? then Failure(notes.error)
    else Success(DashboardViews(daily.value, weekly.value, ticker.value, sector.value, exchange.value, notes.value))
  }

  /** The frame `compute_aggregations` leaves behind: the ticker step adds
      `price_change` unless an earlier step raised. */
  function ComputedFrame(t: Table, parseDate: string -> Option<CalendarDate>): (r: Table)
    requires t.Valid()
    ensures r.Valid() && r.height == t.height
  {
    if DailyPart(t).Failure? || WeeklyPart(t, parseDate).Failure? then t else TickerFrame(t)
  }

  /** `compute_aggregations(df)`, filling `out` entry by entry. */
  method ComputeAggregations(f: Frame, parseDate: string -> Option<CalendarDate>) returns (out: Result<DashboardViews, Error>)
    requires f.Valid()
    modifies f
    ensures f.Valid() && f.Contents() == ComputedFrame(old(f.Contents()), parseDate)
    ensures out == Computed(old(f.Contents()), parseDate)
  {
    var daily := DailyStep(f);
    if daily.Failure? {
      return Failure(daily.error);
    }
    var weekly := WeeklyStep(f, parseDate);
    if weekly.Failure? {
      return Failure(weekly.error);
    }
    var ticker := TickerStep(f);
    if ticker.Failure? {
      return Failure(ticker.error);
    }
    var p := f.Contents();
    var sector := SectorPart(p, Rows(p));
    if sector.Failure? {
      return Failure(sector.error);
    }
    var exchange := ExchangePart(p, Rows(p));
    if exchange.Failure? {
      return Failure(exchange.error);
    }
    var notes := NotesPart(p, Rows(p));
    if notes.Failure? {
      return Failure(notes.error);
    }
    out := Success(DashboardViews(daily.value, weekly.value, ticker.value, sector.value, exchange.value, notes.value));
  }

  /** The daily step: `KeyError` when an input column is absent. */
  method DailyStep(f: Frame) returns (r: Result<Option<map<(Value, Value), DashboardDailyStats>>, Error>)
    requires f.Valid()
    ensures r == DailyPart(f.Contents())
  {
    var t := f.Contents();
    if !(f.Has("trade_date") && f.Has("ticker")) {
      return Success(None);
    }
    if !HasAll(t, DailyInputs) {
      return Failure(KeyError);
    }
    r := Success(Some(DashboardDailyView(Rows(t))));
  }

  /** The weekly step, on a copy of the frame, which the caller never
      sees. */
  method WeeklyStep(f: Frame, parseDate: string -> Option<CalendarDate>)
    returns (r: Result<Option<map<(Value, Value), WeeklyStats>>, Error>)
    requires f.Valid()
    ensures r == WeeklyPart(f.Contents(), parseDate)
  {
    var t := f.Contents();
    if !(f.Has("trade_date") && f.Has("ticker")) {
      return Success(None);
    }
    var loc := f.Copy();
    var weeks := WeekColumn(loc.Contents(), parseDate);
    if weeks.None? {
      return Failure(DateError);
    }
    if !HasAll(t, WeeklyInputs) {
      return Failure(KeyError);
    }
    AssignWeeks(loc, weeks.value);
    r := Success(Some(WeeklyView(Rows(loc.Contents()))));
  }

  /** The ticker step: `price_change` is assigned in place before the
      other inputs are read. */
  method TickerStep(f: Frame) returns (r: Result<Option<map<Value, TickerStats>>, Error>)
    requires f.Valid()
    modifies f
    ensures f.Valid() && f.Contents() == TickerFrame(old(f.Contents()))
    ensures r == TickerPart(old(f.Contents()))
  {
    var t := f.Contents();
    if !f.Has("ticker") {
      return Success(None);
    }
    if !(f.Has("open_price") && f.Has("close_price")) {
      return Failure(KeyError);
    }
    f.Assign("price_change", DifferenceColumn(t));
    if !HasAll(t, TickerInputs) {
      return Failure(KeyError);
    }
    r := Success(Some(TickerView(Rows(f.Contents()))));
  }

  // ---------------------------------------------------------------------
  // Properties of `compute_aggregations`
  // ---------------------------------------------------------------------

  /** The weekly view works on a copy: the only column the computation may
      add or change is `price_change`, which the ticker step assigns as
      close minus open once the daily and weekly views are computed. */
  lemma ComputeChangesOnlyPriceChange(t: Table, parseDate: string -> Option<CalendarDate>)
    requires t.Valid()
    ensures var r := ComputedFrame(t, parseDate);
            && (forall c :: c != "price_change" ==> (r.Has(c) <==> t.Has(c)))
            && (forall c, i :: c != "price_change" ==> r.At(c, i) == t.At(c, i))
    ensures var r := ComputedFrame(t, parseDate);
            DailyPart(t).Success? && WeeklyPart(t, parseDate).Success?
            && t.Has("ticker") && t.Has("open_price") && t.Has("close_price") ==>
              forall i :: 0 <= i < t.height ==>
                AsNumber(r.At("price_change", i)) == PriceChange(AsNumber(t.At("open_price", i)), AsNumber(t.At("close_price", i)))
  {
    var r := ComputedFrame(t, parseDate);
    if r != t {
      forall i | 0 <= i < t.height
        ensures AsNumber(r.At("price_change", i)) == PriceChange(AsNumber(t.At("open_price", i)), AsNumber(t.At("close_price", i)))
      {
        PriceChangeCellReads(t.At("open_price", i), t.At("close_price", i));
      }
    }
  }

  /** `out` always has all six entries, and when the computation finishes
      each is a view exactly when the frame has the columns it groups by. */
  lemma ComputedViewsPresent(t: Table, parseDate: string -> Option<CalendarDate>)
    requires t.Valid()
    requires Computed(t, parseDate).Success?
    ensures var v := Computed(t, parseDate).value;
            && (v.daily.Some? <==> t.Has("trade_date") && t.Has("ticker"))
            && (v.weekly.Some? <==> t.Has("trade_date") && t.Has("ticker"))
            && (v.ticker.Some? <==> t.Has("ticker"))
            && (v.sector.Some? <==> t.Has("sector"))
            && (v.exchange.Some? <==> t.Has("exchange"))
            && (v.notes.Some? <==> t.Has("notes"))
  {
    ComputeChangesOnlyPriceChange(t, parseDate);
  }

  /** The columns every view reads. */
  const AllColumns: seq<string> :=
    ["trade_date", "ticker", "sector", "exchange", "notes", "open_price", "close_price", "volume",
     "gap_up_flag", "gap_down_flag", "validated_flag"]

  lemma AllColumnsCover()
    ensures forall c :: c in DailyInputs || c in WeeklyInputs || c in TickerInputs ==> c in AllColumns
    ensures forall c :: c in SectorInputs || c in ExchangeInputs || c in NotesInputs ==> c in AllColumns
  {
  }

  /** On a frame with every column, the computation finishes exactly when
      every trade date parses, and then all six views are there. */
  lemma ComputeSucceeds(t: Table, parseDate: string -> Option<CalendarDate>)
    requires t.Valid() && HasAll(t, AllColumns)
    ensures Computed(t, parseDate).Success? <==> DatesConvert(t, parseDate)
    ensures Computed(t, parseDate).Success? ==>
              var v := Computed(t, parseDate).value;
              v.daily.Some? && v.weekly.Some? && v.ticker.Some? && v.sector.Some? && v.exchange.Some? && v.notes.Some?
  {
    AllColumnsGive(t);
    TickerFrameHas(t);
    AllColumnsGive(TickerFrame(t));
  }

  /** A null trade date anywhere stops the computation: the weekly step's
      lambda meets `NaT`. */
  lemma ComputeFailsOnNullDate(t: Table, parseDate: string -> Option<CalendarDate>, i: int)
    requires t.Valid() && t.Has("trade_date") && t.Has("ticker")
    requires 0 <= i < t.height && t.At("trade_date", i) == Null
    ensures Computed(t, parseDate).Failure?
  {
    assert !DatesConvert(t, parseDate);
  }

  /** A frame with every column has the columns of each view. */
  lemma AllColumnsGive(t: Table)
    requires HasAll(t, AllColumns)
    ensures t.Has("trade_date") && t.Has("ticker") && t.Has("sector") && t.Has("exchange") && t.Has("notes")
    ensures HasAll(t, DailyInputs) && HasAll(t, WeeklyInputs) && HasAll(t, TickerInputs)
    ensures HasAll(t, SectorInputs) && HasAll(t, ExchangeInputs) && HasAll(t, NotesInputs)
  {
    AllColumnsCover();
    assert "trade_date" in AllColumns && "ticker" in AllColumns && "sector" in AllColumns;
    assert "exchange" in AllColumns && "notes" in AllColumns;
  }

  /** The ticker step only adds `price_change`. */
  lemma TickerFrameHas(t: Table)
    requires t.Valid()
    ensures forall c :: c != "price_change" ==> (TickerFrame(t).Has(c) <==> t.Has(c))
    ensures forall c :: t.Has(c) ==> TickerFrame(t).Has(c)
  {
  }

  /** When the computation finishes, the daily and weekly steps did, the
      frame left is the one after the ticker step, and the notes entry is
      its notes part. */
  lemma ComputedParts(t: Table, parseDate: string -> Option<CalendarDate>)
    requires t.Valid() && Computed(t, parseDate).Success?
    ensures ComputedFrame(t, parseDate) == TickerFrame(t)
    ensures var p := TickerFrame(t);
            NotesPart(p, Rows(p)).Success? && Computed(t, parseDate).value.notes == NotesPart(p, Rows(p)).value
  {
  }

  /** A row of the frame after the ticker step has `price_change` equal to
      its close minus its open. */
  lemma TickerFrameRow(t: Table, i: int)
    requires t.Valid() && 0 <= i < t.height && t.Has("ticker") && t.Has("open_price") && t.Has("close_price")
    ensures var r := RowAt(TickerFrame(t), i);
            r.priceChange == PriceChange(r.open, r.close)
  {
    PriceChangeCellReads(t.At("open_price", i), t.At("close_price", i));
  }

  /** The dashboard's notes view, which recomputes close minus open per
      group, equals the script's average of the `price_change` column on
      the frame the dashboard leaves. */
  lemma ComputedNotesAgree(t: Table, parseDate: string -> Option<CalendarDate>)
    requires t.Valid()
    requires Computed(t, parseDate).Success? && Computed(t, parseDate).value.notes.Some?
    ensures Computed(t, parseDate).value.notes.value == NotesView(Rows(ComputedFrame(t, parseDate)))
  {
    ComputedParts(t, parseDate);
    var p := TickerFrame(t);
    NotesReadsPrices(p);
    TickerFrameHas(t);
    var rows := Rows(p);
    forall i | 0 <= i < |rows| ensures rows[i].priceChange == PriceChange(rows[i].open, rows[i].close) {
      TickerFrameRow(t, i);
    }
    DashboardNotesAgree(rows);
  }

  lemma NotesReadsPrices(p: Table)
    requires HasAll(p, NotesInputs)
    ensures p.Has("ticker") && p.Has("open_price") && p.Has("close_price")
  {
    assert "ticker" in NotesInputs && "open_price" in NotesInputs && "close_price" in NotesInputs;
  }

  // ---------------------------------------------------------------------
  // The ticker selection
  // ---------------------------------------------------------------------

  /** `df["ticker"].isin(tickers)` on a row. */
  function KeepTicker(sel: set<Value>): Row -> bool
  {
    (r: Row) => r.ticker in sel
  }

  /** `view["ticker"].isin(tickers)` on a (date, ticker) key. */
  function PairSelected(sel: set<Value>): ((Value, Value)) -> bool
  {
    (k: (Value, Value)) => k.1 in sel
  }

  function TickerSelected(sel: set<Value>): Value -> bool
  {
    (k: Value) => k in sel
  }

  /** `filtered_cleaned`: every row when nothing is selected, otherwise the
      rows whose ticker is selected. */
  function SelectTickers(rows: seq<Row>, sel: set<Value>): (f: seq<Row>)
    ensures sel == {} ==> f == rows
    ensures sel != {} ==> forall r :: r in f <==> r in rows && r.ticker in sel
    ensures sel != {} ==> forall r :: multiset(f)[r] == if r.ticker in sel then multiset(rows)[r] else 0
  {
    if sel == {} then rows else Filter(rows, KeepTicker(sel))
  }

  /** The daily and weekly views restricted to the selected tickers when
      there is a selection and the view has a `ticker` column. */
  function RestrictPairs<S>(v: Option<map<(Value, Value), S>>, sel: set<Value>): (r: Option<map<(Value, Value), S>>)
    ensures r.Some? <==> v.Some?
    ensures r.Some? && sel != {} ==> forall k :: k in r.value <==> k in v.value && k.1 in sel
    ensures r.Some? ==> forall k :: k in r.value ==> k in v.value && r.value[k] == v.value[k]
  {
    if v.Some? && sel != {} then Some(Restrict(v.value, PairSelected(sel))) else v
  }

  /** The ticker view restricted when it is not empty and there is a
      selection. */
  function RestrictTickers<S>(v: Option<map<Value, S>>, sel: set<Value>): (r: Option<map<Value, S>>)
    ensures r.Some? <==> v.Some?
    ensures r.Some? && sel != {} ==> forall k :: k in r.value <==> k in v.value && k in sel
    ensures r.Some? ==> forall k :: k in r.value ==> k in v.value && r.value[k] == v.value[k]
  {
    if v.Some? && v.value != map[] && sel != {} then Some(Restrict(v.value, TickerSelected(sel))) else v
  }

  /** Restricting the daily view to the selected tickers gives the daily
      view of the selected rows. */
  lemma RestrictedDailyIsRecomputed(rows: seq<Row>, sel: set<Value>)
    requires sel != {}
    ensures RestrictPairs(Some(DashboardDailyView(rows)), sel) == Some(DashboardDailyView(SelectTickers(rows, sel)))
  {
    GroupByOfFilter(rows, DailyKey, DashboardDailySummary, KeepTicker(sel), PairSelected(sel));
  }

  /** The same for the weekly view. */
  lemma RestrictedWeeklyIsRecomputed(rows: seq<Row>, sel: set<Value>)
    requires sel != {}
    ensures RestrictPairs(Some(WeeklyView(rows)), sel) == Some(WeeklyView(SelectTickers(rows, sel)))
  {
    GroupByOfFilter(rows, WeeklyKey, WeeklySummary, KeepTicker(sel), PairSelected(sel));
  }

  /** The same for the ticker view. */
  lemma RestrictedTickerIsRecomputed(rows: seq<Row>, sel: set<Value>)
    requires sel != {}
    ensures RestrictTickers(Some(TickerView(rows)), sel) == Some(TickerView(SelectTickers(rows, sel)))
  {
    GroupByOfFilter(rows, TickerKey, TickerSummary, KeepTicker(sel), TickerSelected(sel));
  }

  /** The views the tabs show: the computed daily, weekly and ticker views
      restricted to the selection, and the sector, exchange and notes views
      recomputed from the selected rows of the frame `p` (none when no row
      is selected). */
  function Selected(v: DashboardViews, p: Table, sel: set<Value>): Result<DashboardViews, Error>
  {
    var rows := SelectTickers(Rows(p), sel);
    var daily, weekly, ticker := RestrictPairs(v.daily, sel), RestrictPairs(v.weekly, sel), RestrictTickers(v.ticker, sel);
    if p.names == [] || rows == [] then Success(DashboardViews(daily, weekly, ticker, None, None, None))
    else
      var sector, exchange, notes := SectorPart(p, rows), ExchangePart(p, rows), NotesPart(p, rows);
      if sector.Failure? then Failure(sector.error)
      else if exchange.Failure? then Failure(exchange.error)
      else if notes.Failure? then Failure(notes.error)
      else Success(DashboardViews(daily, weekly, ticker, sector.value, exchange.value, notes.value))
  }

  /** With nothing selected the tabs show the computed views unchanged. */
  lemma NoSelectionShowsComputed(t: Table, parseDate: string -> Option<CalendarDate>)
    requires t.Valid() && t.height > 0 && Computed(t, parseDate).Success?
    ensures Selected(Computed(t, parseDate).value, ComputedFrame(t, parseDate), {})
         == Success(Computed(t, parseDate).value)
  {
    var p := ComputedFrame(t, parseDate);
    assert |Rows(p)| == t.height;
    ComputeChangesOnlyPriceChange(t, parseDate);
    var v := Computed(t, parseDate).value;
    if p.names == [] {
      assert !t.Has("sector") && !t.Has("exchange") && !t.Has("notes") by {
        assert !p.Has("sector") && !p.Has("exchange") && !p.Has("notes");
      }
      ComputedViewsPresent(t, parseDate);
    }
  }

  /** A selection that no row carries leaves the recomputed tabs empty. */
  lemma NothingSelectedEmpties(v: DashboardViews, p: Table, sel: set<Value>)
    requires sel != {} && forall i :: 0 <= i < p.height ==> RowAt(p, i).ticker !in sel
    ensures Selected(v, p, sel).Success?
    ensures var w := Selected(v, p, sel).value;
            w.sector.None? && w.exchange.None? && w.notes.None?
  {
    var all := Rows(p);
    forall k | 0 <= k < |all| ensures !KeepTicker(sel)(all[k]) {
      assert all[k] == RowAt(p, k);
    }
    FilterNoneKept(all, KeepTicker(sel));
  }

  /** Every entry the daily, weekly and ticker tabs keep under a selection
      belongs to a selected ticker, and its summary is the one computed for
      all rows. */
  lemma SelectedKeysAreSelected(v: DashboardViews, p: Table, sel: set<Value>)
    requires sel != {} && Selected(v, p, sel).Success?
    ensures var w := Selected(v, p, sel).value;
            && (w.daily.Some? ==> forall k :: k in w.daily.value ==> k.1 in sel && k in v.daily.value && w.daily.value[k] == v.daily.value[k])
            && (w.weekly.Some? ==> forall k :: k in w.weekly.value ==> k.1 in sel && k in v.weekly.value && w.weekly.value[k] == v.weekly.value[k])
            && (w.ticker.Some? ==> forall k :: k in w.ticker.value ==> k in sel && k in v.ticker.value && w.ticker.value[k] == v.ticker.value[k])
  {
  }

  // ---------------------------------------------------------------------
  // The page
  // ---------------------------------------------------------------------

  /** What the page ends with: `st.stop()` on an empty frame, an exception,
      or the six tabs. */
  datatype Screen = Stopped | Crashed(error: Error) | Shown(views: DashboardViews)

  /** The page's end, loading through the corrected `Loaded`; the loader
      as written would raise first on a table without `notes` or
      `validated` (`LoadAsWrittenFails`). */
  function DashboardScreen(stored: Option<Table>, sel: set<Value>,
                           parseNum: string -> Option<real>, parseDate: string -> Option<CalendarDate>): Screen
    requires stored.Some? ==> stored.value.Valid()
  {
    var t := LoadedFrame(stored, parseNum, parseDate);
    if t.height == 0 || t.names == [] then Stopped
    else match Computed(t, parseDate)
      case Failure(e) => Crashed(e)
      case Success(v) =>
        var p := ComputedFrame(t, parseDate);
        if !p.Has("ticker") then Crashed(KeyError)
        else match Selected(v, p, sel)
          case Failure(e) => Crashed(e)
          case Success(w) => Shown(w)
  }

  /** The page: load, stop on an empty frame, compute, list the tickers
      (`df_clean["ticker"]` raises without that column), select. `sel` is
      the user's choice in the ticker multiselect. */
  method RunDashboard(stored: Option<Table>, sel: set<Value>,
                      parseNum: string -> Option<real>, parseDate: string -> Option<CalendarDate>) returns (s: Screen)
    requires stored.Some? ==> stored.value.Valid()
    ensures s == DashboardScreen(stored, sel, parseNum, parseDate)
  {
    var f := LoadCleaned(stored, parseNum, parseDate);
    if f.height == 0 || |f.names| == 0 {
      return Stopped;
    }
    var out := ComputeAggregations(f, parseDate);
    if out.Failure? {
      return Crashed(out.error);
    }
    if !f.Has("ticker") {
      return Crashed(KeyError);
    }
    var w := Selected(out.value, f.Contents(), sel);
    if w.Failure? {
      return Crashed(w.error);
    }
    s := Shown(w.value);
  }

  /** The page stops exactly when there is no stored table or it has no
      rows: loading always adds the flag columns. */
  lemma ScreenStops(stored: Option<Table>, sel: set<Value>,
                    parseNum: string -> Option<real>, parseDate: string -> Option<CalendarDate>)
    requires stored.Some? ==> stored.value.Valid()
    ensures DashboardScreen(stored, sel, parseNum, parseDate) == Stopped <==> stored.None? || stored.value.height == 0
  {
    var t := LoadedFrame(stored, parseNum, parseDate);
    StopsOnlyWhenEmpty(stored, sel, parseNum, parseDate);
    if stored.Some? {
      assert t.Has("gap_up_flag") by {
        LoadedColumns(stored.value, parseNum, parseDate);
      }
    }
  }

  /** Only an empty loaded frame stops the page; everything else ends in
      an exception or the tabs. */
  lemma StopsOnlyWhenEmpty(stored: Option<Table>, sel: set<Value>,
                           parseNum: string -> Option<real>, parseDate: string -> Option<CalendarDate>)
    requires stored.Some? ==> stored.value.Valid()
    ensures var t := LoadedFrame(stored, parseNum, parseDate);
            DashboardScreen(stored, sel, parseNum, parseDate) == Stopped <==> t.height == 0 || t.names == []
  {
  }
}
