/** The aggregation script `create_aggregations`: it standardises the
    column names of the cleaned table, adds the required columns it lacks,
    derives numbers, flags, country and price change in place, and writes
    six grouped views. */
module Aggregations {
  import opened Wrappers
  import opened Text
  import opened Frames
  import opened Calendar
  import opened Derivations
  import opened Views
  import SnakeCase

  // ---------------------------------------------------------------------
  // Column names
  // ---------------------------------------------------------------------

  function ReplaceSpaces(s: string): string
  {
    seq(|s|, i requires 0 <= i < |s| => if s[i] == ' ' then '_' else s[i])
  }

  /** `c.strip().lower().replace(" ", "_")`. */
  function StandardName(c: string): string
  {
    ReplaceSpaces(Lower(Strip(c)))
  }

  /** A standard name has no blank, no upper-case letter and nothing to
      strip at either end, so standardising it again changes nothing. */
  lemma StandardNameIdempotent(c: string)
    ensures StandardName(StandardName(c)) == StandardName(c)
  {
    StandardShape(c);
    ShapedIsStandard(StandardName(c));
  }

  /** The shape of a standard name: no upper-case letter, no space, and no
      blank at either end. */
  predicate Shaped(r: string)
  {
    && IsLowerCase(r)
    && (forall i :: 0 <= i < |r| ==> r[i] != ' ')
    && (r != [] ==> !IsSpace(r[0]) && !IsSpace(r[|r| - 1]))
  }

  lemma StandardShape(c: string)
    ensures Shaped(StandardName(c))
  {
    var s := Strip(c);
    var r := StandardName(c);
    assert |r| == |s|;
    forall i | 0 <= i < |r| ensures r[i] == NameChar(s[i]) && !('A' <= r[i] <= 'Z') && r[i] != ' ' {
      assert Lower(s)[i] == LowerChar(s[i]);
      NameCharFacts(s[i]);
    }
    if r != [] {
      StripWithEnds(c, IsSpace);
      NameCharFacts(s[0]);
      NameCharFacts(s[|s| - 1]);
    }
  }

  lemma ShapedIsStandard(r: string)
    requires Shaped(r)
    ensures StandardName(r) == r
  {
    assert Strip(r) == r by {
      StripWithUnchanged(r, IsSpace);
    }
    assert Lower(r) == r by {
      LowerSpec(r);
    }
    assert ReplaceSpaces(r) == r by {
      assert forall i :: 0 <= i < |r| ==> ReplaceSpaces(r)[i] == r[i];
    }
  }

  /** One character of a standard name. */
  function NameChar(x: char): char
  {
    var l := LowerChar(x);
    if l == ' ' then '_' else l
  }

  lemma NameCharFacts(x: char)
    ensures !('A' <= NameChar(x) <= 'Z') && NameChar(x) != ' '
    ensures IsSpace(NameChar(x)) ==> IsSpace(x)
  {
  }

  /** A snake-case name, as the cleaning script writes them, is already
      standard. */
  lemma StandardNameKeepsSnakeCase(c: string)
    requires SnakeCase.IsSnakeCase(c)
    ensures StandardName(c) == c
  {
    assert c != [] ==> !IsSpace(c[0]) && !IsSpace(c[|c| - 1]) by {
      if c != [] {
        assert SnakeCase.IsSnakeChar(c[0]) && SnakeCase.IsSnakeChar(c[|c| - 1]);
      }
    }
    StripWithUnchanged(c, IsSpace);
    assert IsLowerCase(c) by {
      forall i | 0 <= i < |c| ensures !('A' <= c[i] <= 'Z') {
        assert SnakeCase.IsSnakeChar(c[i]);
      }
    }
    LowerSpec(c);
    assert forall i :: 0 <= i < |c| ==> c[i] != ' ' by {
      forall i | 0 <= i < |c| ensures c[i] != ' ' {
        assert SnakeCase.IsSnakeChar(c[i]);
      }
    }
  }

  /** `df.columns = [c.strip().lower().replace(" ", "_") for c in df.columns]`. */
  function Standardized(t: Table): (r: Table)
    requires t.Valid()
    ensures r.Valid() && r.cols == t.cols && r.height == t.height
    ensures |r.names| == |t.names| && forall j :: 0 <= j < |t.names| ==> r.names[j] == StandardName(t.names[j])
  {
    Table(seq(|t.names|, j requires 0 <= j < |t.names| => StandardName(t.names[j])), t.cols, t.height)
  }

  // ---------------------------------------------------------------------
  // Synthesis of absent columns
  // ---------------------------------------------------------------------

  const Required: seq<string> :=
    ["ticker", "trade_date", "open_price", "close_price", "volume", "sector", "notes", "validated", "exchange"]

  const NumericColumns: seq<string> := ["open_price", "close_price", "volume"]

  /** `if c not in df.columns: df[c] = None`. */
  function WithColumn(t: Table, c: string): Table
    requires t.Valid()
  {
    if t.Has(c) then t else t.Assigned(c, Nulls(t.height))
  }

  /** The columns `cs` added in turn where absent. The frame gains exactly
      the listed columns it lacked, its existing columns stay where they
      were with the same cells, and every cell reads as it did before,
      since an added column is all missing. */
  function WithColumns(t: Table, cs: seq<string>): (r: Table)
    requires t.Valid()
    ensures r.Valid() && r.height == t.height
    ensures forall c :: r.Has(c) <==> t.Has(c) || c in cs
    ensures |t.names| <= |r.names| && r.names[..|t.names|] == t.names && r.cols[..|t.cols|] == t.cols
    ensures forall c, i :: 0 <= i < t.height ==> r.At(c, i) == t.At(c, i)
    decreases |cs|
  {
    if cs == [] then t
    else
      var p := WithColumns(t, cs[..|cs| - 1]);
      var c := cs[|cs| - 1];
      LastSplit(cs);
      WithColumnFacts(p, c);
      var r := WithColumn(p, c);
      PrefixOfPrefix(r.names, p.names, t.names);
      PrefixOfPrefix(r.cols, p.cols, t.cols);
      r
  }

  lemma LastSplit(cs: seq<string>)
    requires cs != []
    ensures forall d :: d in cs <==> d in cs[..|cs| - 1] || d == cs[|cs| - 1]
  {
    assert cs == cs[..|cs| - 1] + [cs[|cs| - 1]];
  }

  lemma PrefixOfPrefix<T>(a: seq<T>, b: seq<T>, c: seq<T>)
    requires |b| <= |a| && a[..|b|] == b && |c| <= |b| && b[..|c|] == c
    ensures a[..|c|] == c
  {
    assert a[..|c|] == a[..|b|][..|c|];
  }

  /** One `WithColumn`: the column is added where absent, as missing
      cells, and nothing else changes. */
  lemma WithColumnFacts(p: Table, c: string)
    requires p.Valid()
    ensures var r := WithColumn(p, c);
            && r.Valid() && r.height == p.height
            && (forall d :: r.Has(d) <==> p.Has(d) || d == c)
            && |p.names| <= |r.names| && r.names[..|p.names|] == p.names && r.cols[..|p.cols|] == p.cols
            && (forall d, i :: 0 <= i < p.height ==> r.At(d, i) == p.At(d, i))
  {
    var r := WithColumn(p, c);
    if !p.Has(c) {
      forall i | 0 <= i < p.height ensures r.At(c, i) == p.At(c, i) {
        assert p.At(c, i) == Null;
      }
      assert r.names[..|p.names|] == p.names && r.cols[..|p.cols|] == p.cols;
    }
  }

  // ---------------------------------------------------------------------
  // The derived frame
  // ---------------------------------------------------------------------

  /** The frame the flags are computed from: the standardised input with
      the required columns added and the numbers coerced. */
  function Converted(t: Table, parseNum: string -> Option<real>): (r: Table)
    requires t.Valid()
    ensures r.Valid() && r.height == t.height
  {
    Coerced(WithColumns(Standardized(t), Required), NumericColumns, parseNum)
  }

  /** The frame after the numeric conversions, flags, country and price
      change, before the weekly step. */
  function Prepared(t: Table, parseNum: string -> Option<real>): (r: Table)
    requires t.Valid()
    ensures r.Valid() && r.height == t.height
  {
    Derive(Converted(t, parseNum))
  }

  /** The flags, the country and `price_change`, in that order. */
  function Derive(n: Table): (r: Table)
    requires n.Valid()
    ensures r.Valid() && r.height == n.height
  {
    var c := WithCountry(WithFlags(n));
    c.Assigned("price_change", DifferenceColumn(c))
  }

  /** `pd.to_datetime(trade_date).dt.to_period("W").apply(lambda r: r.start_time)`
      on one cell: the Monday that starts the (Monday to Sunday) week of the
      date. `None` where the step raises: `pd.to_datetime` raises on text
      that `parseDate` (pandas' date inference) rejects, and a null date
      becomes `NaT`, whose missing `start_time` makes the lambda raise
      `AttributeError`. */
  function WeekStartCell(v: Value, parseDate: string -> Option<CalendarDate>): (r: Option<Value>)
    ensures r.None? <==> v.Null? || v.Num? || v.Int? || (v.Str? && parseDate(v.s).None?)
    ensures v.Str? && parseDate(v.s).Some? ==>
              var n := DayNumber(parseDate(v.s).value);
              r.Some? && r.value.Day? && Weekday(r.value.ordinal) == 0 && r.value.ordinal <= n < r.value.ordinal + 7
    ensures v.Day? ==>
              r.Some? && r.value.Day? && Weekday(r.value.ordinal) == 0 && r.value.ordinal <= v.ordinal < r.value.ordinal + 7
  {
    match v
    case Str(s) => (match parseDate(s) case Some(d) => Some(Day(WeekStart(DayNumber(d)))) case None => None)
    case Day(n) => Some(Day(WeekStart(n)))
    case _ => None
  }

  /** The week start as evidently intended: a null date gets a null week,
      so only a date that does not parse stops the step. */
  function NullSafeWeekStartCell(v: Value, parseDate: string -> Option<CalendarDate>): (r: Option<Value>)
    ensures v.Null? ==> r == Some(Null)
    ensures r.None? <==> v.Num? || v.Int? || (v.Str? && parseDate(v.s).None?)
    ensures !v.Null? ==> r == WeekStartCell(v, parseDate)
  {
    if v.Null? then Some(Null) else WeekStartCell(v, parseDate)
  }

  /** Every `trade_date` cell converts. */
  predicate DatesConvert(t: Table, parseDate: string -> Option<CalendarDate>)
  {
    forall i :: 0 <= i < t.height ==> WeekStartCell(t.At("trade_date", i), parseDate).Some?
  }

  /** The `week_start` column, or `None` when the conversion raises. */
  function WeekColumn(t: Table, parseDate: string -> Option<CalendarDate>): (w: Option<seq<Value>>)
    ensures w.Some? <==> DatesConvert(t, parseDate)
    ensures w.Some? ==> |w.value| == t.height
                        && forall i :: 0 <= i < t.height ==> Some(w.value[i]) == WeekStartCell(t.At("trade_date", i), parseDate)
  {
    if DatesConvert(t, parseDate)
    then Some(seq(t.height, i requires 0 <= i < t.height => WeekStartCell(t.At("trade_date", i), parseDate).value))
    else None
  }

  /** The weekly step's two columns: `week_start`, then `volatility`. */
  function WithWeeks(t: Table, weeks: seq<Value>): Table
    requires t.Valid() && |weeks| == t.height
  {
    var w := t.Assigned("week_start", weeks);
    w.Assigned("volatility", DifferenceColumn(w))
  }

  /** The views the script writes, each `None` where it skips one. */
  datatype ScriptViews = ScriptViews(daily: Option<map<(Value, Value), DailyStats>>,
                                     weekly: Option<map<(Value, Value), WeeklyStats>>,
                                     ticker: Option<map<Value, TickerStats>>,
                                     sector: Option<map<Value, SectorStats>>,
                                     exchange: Option<map<Value, ExchangeStats>>,
                                     notes: Option<map<Value, NotesStats>>)

  /** A run of the script either writes its views or stops at the weekly
      step, when `pd.to_datetime` raises, after the daily view is written. */
  datatype Outcome = Completed(views: ScriptViews) | Aborted(daily: Option<map<(Value, Value), DailyStats>>)

  function DailyOf(t: Table): Option<map<(Value, Value), DailyStats>>
  {
    if t.Has("trade_date") && t.Has("ticker") then Some(DailyView(Rows(t))) else None
  }

  /** The four views after the weekly step, each written when its key
      column is present. */
  function LaterViews(t: Table, daily: Option<map<(Value, Value), DailyStats>>,
                      weekly: Option<map<(Value, Value), WeeklyStats>>): ScriptViews
  {
    var rows := Rows(t);
    ScriptViews(daily, weekly,
                if t.Has("ticker") then Some(TickerView(rows)) else None,
                if t.Has("sector") then Some(SectorView(rows)) else None,
                if t.Has("exchange") then Some(ExchangeView(rows)) else None,
                if t.Has("notes") then Some(NotesView(rows)) else None)
  }

  /** The frame at the end of a run. */
  function ScriptFrame(t: Table, parseNum: string -> Option<real>, parseDate: string -> Option<CalendarDate>): Table
    requires t.Valid()
  {
    WeeklyFrame(Prepared(t, parseNum), parseDate)
  }

  /** The prepared frame after the weekly step, when that step runs. */
  function WeeklyFrame(p: Table, parseDate: string -> Option<CalendarDate>): Table
    requires p.Valid()
  {
    if p.Has("trade_date") && p.Has("ticker") && WeekColumn(p, parseDate).Some?
    then WithWeeks(p, WeekColumn(p, parseDate).value)
    else p
  }

  /** What a run writes. */
  function ScriptOutcome(t: Table, parseNum: string -> Option<real>, parseDate: string -> Option<CalendarDate>): Outcome
    requires t.Valid()
  {
    OutcomeOf(Prepared(t, parseNum), parseDate)
  }

  /** What a run writes from the prepared frame. */
  function OutcomeOf(p: Table, parseDate: string -> Option<CalendarDate>): Outcome
    requires p.Valid()
  {
    var daily := DailyOf(p);
    if p.Has("trade_date") && p.Has("ticker") then
      match WeekColumn(p, parseDate)
      case None => Aborted(daily)
      case Some(weeks) =>
        var w := WithWeeks(p, weeks);
        Completed(LaterViews(w, daily, Some(WeeklyView(Rows(w)))))
    else Completed(LaterViews(p, daily, None))
  }

  /** The column renaming. */
  method StandardizeNames(f: Frame)
    requires f.Valid()
    modifies f
    ensures f.Valid() && f.Contents() == Standardized(old(f.Contents()))
  {
    var names := f.names;
    f.Rename(seq(|names|, j requires 0 <= j < |names| => StandardName(names[j])));
  }

  /** The loop that adds each required column the frame lacks. */
  method AddRequired(f: Frame)
    requires f.Valid()
    modifies f
    ensures f.Valid() && f.Contents() == WithColumns(old(f.Contents()), Required)
  {
    AddColumns(f, Required);
  }

  /** `for c in cs: if c not in df.columns: df[c] = None`. */
  method AddColumns(f: Frame, cs: seq<string>)
    requires f.Valid()
    modifies f
    ensures f.Valid() && f.Contents() == WithColumns(old(f.Contents()), cs)
  {
    ghost var t0 := f.Contents();
    var i := 0;
    while i < |cs|
      invariant 0 <= i <= |cs|
      invariant f.Valid() && f.Contents() == WithColumns(t0, cs[..i])
    {
      var c := cs[i];
      ghost var before := f.Contents();
      if !f.Has(c) {
        f.Assign(c, Nulls(f.height));
      }
      assert f.Contents() == WithColumn(before, c);
      assert f.Contents() == WithColumns(t0, cs[..i + 1]) by {
        WithColumnsStep(t0, cs, i);
      }
      i := i + 1;
    }
    assert cs[..i] == cs;
  }

  /** One more column of the list is one more `WithColumn`. */
  lemma WithColumnsStep(t: Table, cs: seq<string>, k: int)
    requires t.Valid() && 0 <= k < |cs|
    ensures WithColumns(t, cs[..k + 1]) == WithColumn(WithColumns(t, cs[..k]), cs[k])
  {
    assert cs[..k + 1][..k] == cs[..k];
  }

  /** Everything up to and including `price_change`. */
  method Prepare(f: Frame, parseNum: string -> Option<real>)
    requires f.Valid()
    modifies f
    ensures f.Valid() && f.Contents() == Prepared(old(f.Contents()), parseNum)
  {
    ghost var t0 := f.Contents();
    StandardizeNames(f);
    AddRequired(f);
    ghost var s := f.Contents();
    assert s == WithColumns(Standardized(t0), Required);
    CoerceColumns(f, NumericColumns, parseNum);
    assert f.Contents() == Converted(t0, parseNum);
    AssignFlags(f);
    AssignCountry(f);
    var t := f.Contents();
    f.Assign("price_change", DifferenceColumn(t));
  }

  /** The weekly step's assignments. */
  method AssignWeeks(f: Frame, weeks: seq<Value>)
    requires f.Valid() && |weeks| == f.height
    modifies f
    ensures f.Valid() && f.Contents() == WithWeeks(old(f.Contents()), weeks)
  {
    f.Assign("week_start", weeks);
    var w := f.Contents();
    f.Assign("volatility", DifferenceColumn(w));
  }

  /** `create_aggregations` on the frame `f` read from the cleaned table.
      `parseNum` and `parseDate` stand for `pd.to_numeric` and
      `pd.to_datetime`. */
  method CreateAggregations(f: Frame, parseNum: string -> Option<real>, parseDate: string -> Option<CalendarDate>)
    returns (outcome: Outcome)
    requires f.Valid()
    modifies f
    ensures f.Valid()
    ensures f.Contents() == ScriptFrame(old(f.Contents()), parseNum, parseDate)
    ensures outcome == ScriptOutcome(old(f.Contents()), parseNum, parseDate)
  {
    Prepare(f, parseNum);
    var t := f.Contents();
    var daily := DailyOf(t);
    if f.Has("trade_date") && f.Has("ticker") {
      var weeks := WeekColumn(t, parseDate);
      if weeks.None? {
        return Aborted(daily);
      }
      AssignWeeks(f, weeks.value);
      var w := f.Contents();
      outcome := Completed(LaterViews(w, daily, Some(WeeklyView(Rows(w)))));
    } else {
      outcome := Completed(LaterViews(t, daily, None));
    }
  }

  // ---------------------------------------------------------------------
  // Properties of a run
  // ---------------------------------------------------------------------

  /** The names the script derives from other columns. */
  const DerivedOnly: set<string> :=
    {"gap_up_flag", "gap_down_flag", "validated_flag", "exchange_clean", "country", "price_change"}

  /** The names the script derives or converts. */
  const Derived: set<string> := DerivedOnly + {"open_price", "close_price", "volume"}

  /** The input columns the views read are neither converted nor derived. */
  lemma InputColumnsNotDerived()
    ensures forall c :: c in ["ticker", "trade_date", "sector", "exchange", "notes", "validated"] ==> c !in Derived
  {
  }

  lemma DeriveKeeps(n: Table, col: string, i: int)
    requires n.Valid() && 0 <= i < n.height && col !in DerivedOnly
    ensures Derive(n).At(col, i) == n.At(col, i)
  {
    assert col != "gap_up_flag" && col != "gap_down_flag" && col != "validated_flag";
    assert col != "exchange_clean" && col != "country" && col != "price_change";
    var f := WithFlags(n);
    var c := WithCountry(f);
    assert Derive(n).At(col, i) == c.At(col, i);
    assert c.At(col, i) == f.At(col, i) == n.At(col, i);
  }

  /** The derived names differ from each other and from the inputs they
      are computed from. A solver aid: it spares the proofs comparing
      many string literals. */
  lemma DerivedNamesDistinct()
    ensures "exchange" != "gap_up_flag" && "exchange" != "gap_down_flag" && "exchange" != "validated_flag"
    ensures "gap_up_flag" != "price_change" && "gap_down_flag" != "price_change" && "validated_flag" != "price_change"
    ensures "gap_up_flag" != "country" && "gap_down_flag" != "country" && "validated_flag" != "country"
    ensures "gap_up_flag" != "exchange_clean" && "gap_down_flag" != "exchange_clean" && "validated_flag" != "exchange_clean"
    ensures "country" != "price_change"
  {
  }

  // A solver aid: the price columns are not among the derived names.
  lemma PriceNotDerived(c: string)
    requires c == "open_price" || c == "close_price"
    ensures c != "gap_up_flag" && c != "gap_down_flag" && c != "validated_flag"
    ensures c != "exchange_clean" && c != "country" && c != "price_change"
  {
  }

  lemma DeriveFlags(n: Table, i: int)
    requires n.Valid() && 0 <= i < n.height
    ensures var p := Derive(n);
            && p.At("gap_up_flag", i) == Int(GapUpFlag(n.At("notes", i)))
            && p.At("gap_down_flag", i) == Int(GapDownFlag(n.At("notes", i)))
            && p.At("validated_flag", i) == Int(ValidatedFlag(n.At("validated", i)))
  {
    DerivedNamesDistinct();
    var f := WithFlags(n);
    var c := WithCountry(f);
    var p := Derive(n);
    assert p.At("gap_up_flag", i) == c.At("gap_up_flag", i) == f.At("gap_up_flag", i);
    assert p.At("gap_down_flag", i) == c.At("gap_down_flag", i) == f.At("gap_down_flag", i);
    assert p.At("validated_flag", i) == c.At("validated_flag", i) == f.At("validated_flag", i);
  }

  lemma DeriveCountry(n: Table, i: int)
    requires n.Valid() && 0 <= i < n.height
    ensures Derive(n).At("country", i) == Str(Country(n.At("exchange", i)))
  {
    DerivedNamesDistinct();
    var f := WithFlags(n);
    var c := WithCountry(f);
    assert f.At("exchange", i) == n.At("exchange", i);
    assert Derive(n).At("country", i) == c.At("country", i);
  }

  lemma DerivePriceCell(n: Table, i: int)
    requires n.Valid() && 0 <= i < n.height
    ensures AsNumber(Derive(n).At("price_change", i)) == PriceChange(AsNumber(n.At("open_price", i)), AsNumber(n.At("close_price", i)))
  {
    var c := WithCountry(WithFlags(n));
    assert c.At("open_price", i) == n.At("open_price", i) && c.At("close_price", i) == n.At("close_price", i) by {
      PricesSurviveFlagsAndCountry(n, i);
    }
    PriceColumnCell(c, i);
  }

  /** The flags and the country leave both prices as they were. */
  lemma PricesSurviveFlagsAndCountry(n: Table, i: int)
    requires n.Valid() && 0 <= i < n.height
    ensures var c := WithCountry(WithFlags(n));
            c.At("open_price", i) == n.At("open_price", i) && c.At("close_price", i) == n.At("close_price", i)
  {
    var f := WithFlags(n);
    PriceNotDerived("open_price");
    PriceNotDerived("close_price");
    assert f.At("open_price", i) == n.At("open_price", i) && f.At("close_price", i) == n.At("close_price", i);
  }

  /** `df["price_change"] = df["close_price"] - df["open_price"]` on one row. */
  lemma PriceColumnCell(c: Table, i: int)
    requires c.Valid() && 0 <= i < c.height
    ensures AsNumber(c.Assigned("price_change", DifferenceColumn(c)).At("price_change", i))
         == PriceChange(AsNumber(c.At("open_price", i)), AsNumber(c.At("close_price", i)))
  {
    PriceChangeCellReads(c.At("open_price", i), c.At("close_price", i));
  }

  lemma DeriveHas(n: Table)
    requires n.Valid()
    ensures forall c :: n.Has(c) || c in DerivedOnly ==> Derive(n).Has(c)
  {
  }

  lemma ConvertedKeeps(t: Table, parseNum: string -> Option<real>, col: string, i: int)
    requires t.Valid() && 0 <= i < t.height && col !in NumericColumns
    ensures Converted(t, parseNum).At(col, i) == Standardized(t).At(col, i)
  {
  }

  lemma ConvertedNumber(t: Table, parseNum: string -> Option<real>, col: string, i: int)
    requires t.Valid() && 0 <= i < t.height && col in NumericColumns
    ensures Converted(t, parseNum).At(col, i) == Coerce(Standardized(t).At(col, i), parseNum)
  {
  }

  lemma ConvertedHas(t: Table, parseNum: string -> Option<real>)
    requires t.Valid()
    ensures forall c :: Standardized(t).Has(c) || c in Required ==> Converted(t, parseNum).Has(c)
  {
    assert Converted(t, parseNum).names == WithColumns(Standardized(t), Required).names;
  }

  /** A column the preparation neither converts nor derives keeps its cells. */
  lemma PreparedKeeps(t: Table, parseNum: string -> Option<real>, col: string, i: int)
    requires t.Valid() && 0 <= i < t.height && col !in Derived
    ensures Prepared(t, parseNum).At(col, i) == Standardized(t).At(col, i)
  {
    assert col !in NumericColumns && col !in DerivedOnly;
    DeriveKeeps(Converted(t, parseNum), col, i);
    ConvertedKeeps(t, parseNum, col, i);
  }

  /** A numeric column holds the coerced cells of the input. */
  lemma PreparedNumber(t: Table, parseNum: string -> Option<real>, col: string, i: int)
    requires t.Valid() && 0 <= i < t.height && col in NumericColumns
    ensures Prepared(t, parseNum).At(col, i) == Coerce(Standardized(t).At(col, i), parseNum)
  {
    assert col !in DerivedOnly;
    DeriveKeeps(Converted(t, parseNum), col, i);
    ConvertedNumber(t, parseNum, col, i);
  }

  /** After the preparation every required and derived column exists and
      the standardised columns are still there. */
  lemma PreparedColumns(t: Table, parseNum: string -> Option<real>)
    requires t.Valid()
    ensures forall c :: c in Required || c in Derived ==> Prepared(t, parseNum).Has(c)
    ensures forall c :: Standardized(t).Has(c) ==> Prepared(t, parseNum).Has(c)
  {
    ConvertedHas(t, parseNum);
    DeriveHas(Converted(t, parseNum));
    assert forall c :: c in Derived ==> c in DerivedOnly || c in Required;
  }

  /** A row of the prepared frame, read in terms of the cells of the
      standardised input: key and text cells as they were, numbers coerced. */
  lemma PreparedRowCells(t: Table, parseNum: string -> Option<real>, i: int)
    requires t.Valid() && 0 <= i < t.height
    ensures var u, r := Standardized(t), RowAt(Prepared(t, parseNum), i);
            && r.ticker == u.At("ticker", i) && r.tradeDate == u.At("trade_date", i)
            && r.sector == u.At("sector", i) && r.exchange == u.At("exchange", i) && r.notes == u.At("notes", i)
            && r.open == AsNumber(Coerce(u.At("open_price", i), parseNum))
            && r.close == AsNumber(Coerce(u.At("close_price", i), parseNum))
            && r.volume == AsNumber(Coerce(u.At("volume", i), parseNum))
  {
    InputColumnsNotDerived();
    PreparedKeeps(t, parseNum, "ticker", i);
    PreparedKeeps(t, parseNum, "trade_date", i);
    PreparedKeeps(t, parseNum, "sector", i);
    PreparedKeeps(t, parseNum, "exchange", i);
    PreparedKeeps(t, parseNum, "notes", i);
    PreparedNumber(t, parseNum, "open_price", i);
    PreparedNumber(t, parseNum, "close_price", i);
    PreparedNumber(t, parseNum, "volume", i);
  }

  /** The flags of a row of the prepared frame come from the input's
      `notes` and `validated`. */
  lemma PreparedRowFlags(t: Table, parseNum: string -> Option<real>, i: int)
    requires t.Valid() && 0 <= i < t.height
    ensures var u, r := Standardized(t), RowAt(Prepared(t, parseNum), i);
            && r.gapUp == GapUpFlag(u.At("notes", i)) && r.gapDown == GapDownFlag(u.At("notes", i))
            && r.validated == ValidatedFlag(u.At("validated", i))
  {
    var n := Converted(t, parseNum);
    NotNumeric("notes");
    NotNumeric("validated");
    ConvertedKeeps(t, parseNum, "notes", i);
    ConvertedKeeps(t, parseNum, "validated", i);
    DerivedRowFlags(n, i);
  }

  lemma DerivedRowFlags(n: Table, i: int)
    requires n.Valid() && 0 <= i < n.height
    ensures var r := RowAt(Derive(n), i);
            && r.gapUp == GapUpFlag(n.At("notes", i)) && r.gapDown == GapDownFlag(n.At("notes", i))
            && r.validated == ValidatedFlag(n.At("validated", i))
  {
    DeriveFlags(n, i);
  }

  // A solver aid: the text columns are neither numeric nor derived flags.
  lemma NotNumeric(c: string)
    requires c == "notes" || c == "validated" || c == "exchange" || c == "trade_date"
    ensures c !in NumericColumns
    ensures c != "gap_up_flag" && c != "gap_down_flag" && c != "validated_flag"
  {
  }

  /** The derived price change of every row is its close minus its open. */
  lemma DerivePrice(n: Table, i: int)
    requires n.Valid() && 0 <= i < n.height
    ensures var p := Derive(n);
            AsNumber(p.At("price_change", i)) == PriceChange(AsNumber(p.At("open_price", i)), AsNumber(p.At("close_price", i)))
  {
    assert "open_price" !in DerivedOnly && "close_price" !in DerivedOnly;
    DeriveKeeps(n, "open_price", i);
    DeriveKeeps(n, "close_price", i);
    DerivePriceCell(n, i);
  }

  /** The price change of a row of the prepared frame is its close minus its
      open, null when either is. */
  lemma PreparedRowPrice(t: Table, parseNum: string -> Option<real>, i: int)
    requires t.Valid() && 0 <= i < t.height
    ensures var r := RowAt(Prepared(t, parseNum), i);
            r.priceChange == PriceChange(r.open, r.close)
  {
    DerivePrice(Converted(t, parseNum), i);
  }

  /** The country of a row of the prepared frame comes from the input's
      `exchange`. */
  lemma PreparedCountry(t: Table, parseNum: string -> Option<real>, i: int)
    requires t.Valid() && 0 <= i < t.height
    ensures Prepared(t, parseNum).At("country", i) == Str(Country(Standardized(t).At("exchange", i)))
  {
    NotNumeric("exchange");
    ConvertedKeeps(t, parseNum, "exchange", i);
    DeriveCountry(Converted(t, parseNum), i);
  }

  /** With the required columns synthesised, every presence check of the
      script succeeds: it writes all six views unless the weekly step
      raises on a null or unparsable trade date, and even then the daily
      view is written. */
  lemma RunWritesEveryView(t: Table, parseNum: string -> Option<real>, parseDate: string -> Option<CalendarDate>)
    requires t.Valid()
    ensures var o := ScriptOutcome(t, parseNum, parseDate);
            o.Completed? <==> DatesConvert(Prepared(t, parseNum), parseDate)
    ensures var o := ScriptOutcome(t, parseNum, parseDate);
            o.Completed? ==> && o.views.daily.Some? && o.views.weekly.Some? && o.views.ticker.Some?
                             && o.views.sector.Some? && o.views.exchange.Some? && o.views.notes.Some?
    ensures var o := ScriptOutcome(t, parseNum, parseDate);
            o.Aborted? ==> o.daily == Some(DailyView(Rows(Prepared(t, parseNum))))
  {
    PreparedKeys(t, parseNum);
    OutcomeWithKeys(Prepared(t, parseNum), parseDate);
  }

  /** A table without `trade_date` gets an all-null column at lines 28-30,
      so the weekly step raises on its first row: the run stops after the
      daily view, although every presence check succeeds. */
  lemma AbortsWithoutTradeDate(t: Table, parseNum: string -> Option<real>, parseDate: string -> Option<CalendarDate>)
    requires t.Valid() && t.height > 0 && !Standardized(t).Has("trade_date")
    ensures ScriptOutcome(t, parseNum, parseDate).Aborted?
    ensures ScriptOutcome(t, parseNum, parseDate).daily == Some(DailyView(Rows(Prepared(t, parseNum))))
  {
    var p := Prepared(t, parseNum);
    assert p.At("trade_date", 0) == Null by {
      PreparedRowCells(t, parseNum, 0);
    }
    assert !DatesConvert(p, parseDate) by {
      assert WeekStartCell(p.At("trade_date", 0), parseDate).None?;
    }
    RunWritesEveryView(t, parseNum, parseDate);
  }

  /** With the null-safe week start, the synthesised all-null `trade_date`
      column converts: every row gets a null week. */
  lemma NullSafeWeeksWithoutTradeDate(t: Table, parseNum: string -> Option<real>, parseDate: string -> Option<CalendarDate>)
    requires t.Valid() && !Standardized(t).Has("trade_date")
    ensures forall i :: 0 <= i < t.height ==> NullSafeWeekStartCell(Prepared(t, parseNum).At("trade_date", i), parseDate) == Some(Null)
  {
    forall i | 0 <= i < t.height
      ensures NullSafeWeekStartCell(Prepared(t, parseNum).At("trade_date", i), parseDate) == Some(Null)
    {
      PreparedRowCells(t, parseNum, i);
    }
  }

  /** The prepared frame has every column a view groups by. */
  lemma PreparedKeys(t: Table, parseNum: string -> Option<real>)
    requires t.Valid()
    ensures var p := Prepared(t, parseNum);
            p.Has("trade_date") && p.Has("ticker") && p.Has("sector") && p.Has("exchange") && p.Has("notes")
  {
    RequiredKeys();
    PreparedColumns(t, parseNum);
  }

  lemma OutcomeWithKeys(p: Table, parseDate: string -> Option<CalendarDate>)
    requires p.Valid()
    requires p.Has("trade_date") && p.Has("ticker") && p.Has("sector") && p.Has("exchange") && p.Has("notes")
    ensures var o := OutcomeOf(p, parseDate);
            o.Completed? <==> DatesConvert(p, parseDate)
    ensures var o := OutcomeOf(p, parseDate);
            o.Completed? ==> && o.views.daily.Some? && o.views.weekly.Some? && o.views.ticker.Some?
                             && o.views.sector.Some? && o.views.exchange.Some? && o.views.notes.Some?
    ensures var o := OutcomeOf(p, parseDate);
            o.Aborted? ==> o.daily == Some(DailyView(Rows(p)))
  {
    if DatesConvert(p, parseDate) {
      WithWeeksHas(p, WeekColumn(p, parseDate).value);
    }
  }

  // A solver aid: every grouping column is one of the required names.
  lemma RequiredKeys()
    ensures "trade_date" in Required && "ticker" in Required && "sector" in Required
    ensures "exchange" in Required && "notes" in Required
  {
  }

  /** The weekly step adds columns and removes none. */
  lemma WithWeeksHas(t: Table, weeks: seq<Value>)
    requires t.Valid() && |weeks| == t.height
    ensures forall c :: t.Has(c) ==> WithWeeks(t, weeks).Has(c)
  {
  }

  /** In a run that completes, each row of the final frame is the prepared
      row with its `week_start`, the Monday of its trade date's week, and
      its `volatility`, close minus open. */
  lemma WeeklyRow(t: Table, parseNum: string -> Option<real>, parseDate: string -> Option<CalendarDate>, i: int)
    requires t.Valid() && 0 <= i < t.height
    requires DatesConvert(Prepared(t, parseNum), parseDate)
    ensures var r := RowAt(Prepared(t, parseNum), i);
            RowAt(ScriptFrame(t, parseNum, parseDate), i)
            == r.(weekStart := WeekStartCell(r.tradeDate, parseDate).value, volatility := PriceChange(r.open, r.close))
  {
    PreparedKeys(t, parseNum);
    WeeklyFrameRow(Prepared(t, parseNum), parseDate, i);
  }

  lemma WeeklyFrameRow(p: Table, parseDate: string -> Option<CalendarDate>, i: int)
    requires p.Valid() && 0 <= i < p.height && p.Has("trade_date") && p.Has("ticker")
    requires DatesConvert(p, parseDate)
    ensures var r := RowAt(p, i);
            RowAt(WeeklyFrame(p, parseDate), i)
            == r.(weekStart := WeekStartCell(r.tradeDate, parseDate).value, volatility := PriceChange(r.open, r.close))
  {
    WithWeeksRow(p, WeekColumn(p, parseDate).value, i);
  }

  lemma WithWeeksRow(t: Table, weeks: seq<Value>, i: int)
    requires t.Valid() && |weeks| == t.height && 0 <= i < t.height
    ensures var r := RowAt(t, i);
            RowAt(WithWeeks(t, weeks), i) == r.(weekStart := weeks[i], volatility := PriceChange(r.open, r.close))
  {
    var w := t.Assigned("week_start", weeks);
    var u := WithWeeks(t, weeks);
    WeekNamesApart();
    assert u.At("week_start", i) == weeks[i];
    assert u.At("volatility", i) == PriceChangeCell(t.At("open_price", i), t.At("close_price", i)) by {
      assert w.At("open_price", i) == t.At("open_price", i) && w.At("close_price", i) == t.At("close_price", i);
    }
    PriceChangeCellReads(t.At("open_price", i), t.At("close_price", i));
    forall c | c in RowColumns && c != "week_start" && c != "volatility" ensures u.At(c, i) == t.At(c, i) {
    }
  }

  /** The names `RowAt` reads. */
  const RowColumns: set<string> :=
    {"ticker", "trade_date", "week_start", "open_price", "close_price", "volume", "sector", "exchange", "notes",
     "gap_up_flag", "gap_down_flag", "validated_flag", "price_change", "volatility"}

  // A solver aid: the two weekly columns differ from each other and from every prepared column.
  lemma WeekNamesApart()
    ensures "week_start" != "volatility"
    ensures "ticker" != "week_start" && "trade_date" != "week_start" && "open_price" != "week_start"
    ensures "close_price" != "week_start" && "volume" != "week_start" && "sector" != "week_start"
    ensures "exchange" != "week_start" && "notes" != "week_start" && "gap_up_flag" != "week_start"
    ensures "gap_down_flag" != "week_start" && "validated_flag" != "week_start" && "price_change" != "week_start"
    ensures "ticker" != "volatility" && "trade_date" != "volatility" && "open_price" != "volatility"
    ensures "close_price" != "volatility" && "volume" != "volatility" && "sector" != "volatility"
    ensures "exchange" != "volatility" && "notes" != "volatility" && "gap_up_flag" != "volatility"
    ensures "gap_down_flag" != "volatility" && "validated_flag" != "volatility" && "price_change" != "volatility"
  {
  }

  /** The script's notes view, which averages the `price_change` column,
      equals the dashboard's, which averages `close_price - open_price`
      recomputed per row, on the prepared frame. */
  lemma ScriptNotesAreDashboardNotes(t: Table, parseNum: string -> Option<real>)
    requires t.Valid()
    ensures NotesView(Rows(Prepared(t, parseNum))) == DashboardNotesView(Rows(Prepared(t, parseNum)))
  {
    var rows := Rows(Prepared(t, parseNum));
    forall i | 0 <= i < |rows| ensures rows[i].priceChange == PriceChange(rows[i].open, rows[i].close) {
      PreparedRowPrice(t, parseNum, i);
    }
    DashboardNotesAgree(rows);
  }
}
