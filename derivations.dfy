/** The per-row derivations shared by the aggregation script and the
    dashboard: numeric coercion, gap and validated flags, the exchange's
    country and the price change. */
module Derivations {
  import opened Wrappers
  import opened Text
  import opened Frames

  /** `pd.to_numeric(col, errors="coerce")` on one cell; `parseNum` stands
      for pandas' number parser, `None` where it fails. Cells that are not
      text are kept. */
  function Coerce(v: Value, parseNum: string -> Option<real>): (r: Value)
    ensures v.Str? ==> (r == Null <==> parseNum(v.s).None?)
    ensures v == Null ==> r == Null
  {
    match v
    case Str(s) => (match parseNum(s) case Some(x) => Num(x) case None => Null)
    case _ => v
  }

  /** `notes.astype(str).str.contains(pattern, case=False, na=False).astype(int)`
      on one cell, for a lower-case `pattern`. A missing or non-text cell
      renders as a text without the pattern. */
  function GapFlag(notes: Value, pattern: string): (f: int)
    ensures f == 0 || f == 1
    ensures notes == Null ==> f == 0
  {
    if notes.Str? && Contains(Lower(notes.s), pattern) then 1 else 0
  }

  function GapUpFlag(notes: Value): int
  {
    GapFlag(notes, "gap up")
  }

  function GapDownFlag(notes: Value): int
  {
    GapFlag(notes, "gap down")
  }

  /** The gap flags match without regard to case. */
  lemma GapFlagIgnoresCase(s: string, pattern: string)
    ensures GapFlag(Str(Upper(s)), pattern) == GapFlag(Str(s), pattern)
    ensures GapFlag(Str(Lower(s)), pattern) == GapFlag(Str(s), pattern)
  {
    LowerSpec(s);
    LowerSpec(Lower(s));
  }

  /** `validated.astype(str).str.lower().isin(["yes", "y"]).astype(int)` on one cell. */
  function ValidatedFlag(validated: Value): (f: int)
    ensures f == 0 || f == 1
    ensures validated == Null ==> f == 0
  {
    if validated.Str? && Lower(validated.s) in {"yes", "y"} then 1 else 0
  }

  /** The validated flag is 1 exactly for the texts `yes` and `y` in any
      case, and the same for a text in any casing. */
  lemma ValidatedFlagIgnoresCase(s: string)
    ensures ValidatedFlag(Str(Upper(s))) == ValidatedFlag(Str(s)) == ValidatedFlag(Str(Lower(s)))
    ensures ValidatedFlag(Str(s)) == 1 <==> Lower(s) == "yes" || Lower(s) == "y"
  {
    LowerSpec(s);
    LowerSpec(Lower(s));
  }

  lemma ValidatedFlagExamples()
    ensures ValidatedFlag(Str("Y")) == 1 && ValidatedFlag(Str("no")) == 0 && ValidatedFlag(Null) == 0
  {
    assert Lower("Y") == "y" by {
      assert Lower("Y")[0] == 'y';
    }
    assert Lower("no") == "no" by {
      LowerSpec("no");
    }
  }

  /** The fixed exchange table. */
  const ExchangeCountries: map<string, string> :=
    map["nasdaq" := "USA", "nyse" := "USA", "lse" := "UK", "tse" := "Japan", "hkex" := "Hong Kong", "tsx" := "Canada"]

  /** `exchange.astype(str).str.strip().str.lower()` on a text cell. */
  function ExchangeClean(v: Value): Option<string>
  {
    if v.Str? then Some(Lower(Strip(v.s))) else None
  }

  /** The `exchange_clean` cell. */
  function ExchangeCleanCell(v: Value): Value
  {
    match ExchangeClean(v)
    case Some(k) => Str(k)
    case None => Null
  }

  /** `exchange_clean.map(table).fillna("Unknown")` on one cell. */
  function Lookup(clean: Value): string
  {
    if clean.Str? && clean.s in ExchangeCountries then ExchangeCountries[clean.s] else "Unknown"
  }

  /** The country of an exchange cell: a total lookup. */
  function Country(exchange: Value): (c: string)
    ensures c in {"USA", "UK", "Japan", "Hong Kong", "Canada", "Unknown"}
    ensures c == "Unknown" <==> ExchangeClean(exchange).None? || ExchangeClean(exchange).value !in ExchangeCountries
    ensures c != "Unknown" ==> ExchangeCountries[ExchangeClean(exchange).value] == c
  {
    TableValues();
    Lookup(ExchangeCleanCell(exchange))
  }

  lemma TableValues()
    ensures forall k :: k in ExchangeCountries ==> ExchangeCountries[k] in {"USA", "UK", "Japan", "Hong Kong", "Canada"}
    ensures forall k :: k in ExchangeCountries ==> ExchangeCountries[k] != "Unknown"
  {
  }

  lemma CountryOfUpperCaseExchange()
    ensures Country(Str("NYSE")) == "USA"
  {
    NoBlanksAround("NYSE");
    LowerNyse("NYSE");
    CountryVia(Str("NYSE"), "nyse");
    ListedExchange("nyse");
  }

  lemma CountryOfUnlistedExchange()
    ensures Country(Str("xyz")) == "Unknown" && Country(Null) == "Unknown"
  {
    NoBlanksAround("xyz");
    LowerSpec("xyz");
    CountryVia(Str("xyz"), "xyz");
    UnlistedExchange("xyz");
  }

  /** The country is the table's entry for the cleaned exchange. */
  lemma CountryVia(v: Value, k: string)
    requires ExchangeClean(v) == Some(k)
    ensures Country(v) == Lookup(Str(k))
  {
  }

  lemma LowerNyse(s: string)
    requires s == "NYSE"
    ensures Lower(s) == "nyse"
  {
    var low := Lower(s);
    assert low[0] == 'n' && low[1] == 'y' && low[2] == 's' && low[3] == 'e';
  }

  lemma UnlistedExchange(k: string)
    requires k == "xyz"
    ensures Lookup(Str(k)) == "Unknown"
  {
    assert k !in ExchangeCountries;
  }

  /** A text that starts and ends with a letter keeps its characters under
      the cleaning of the exchange. */
  lemma NoBlanksAround(s: string)
    requires s != [] && 'A' <= s[0] <= 'z' && 'A' <= s[|s| - 1] <= 'z'
    ensures ExchangeClean(Str(s)) == Some(Lower(s))
  {
    StripWithUnchanged(s, IsSpace);
  }

  lemma ListedExchange(k: string)
    requires k == "nyse"
    ensures Lookup(Str(k)) == "USA"
  {
  }

  /** Blanks around the exchange's name do not change its country. */
  lemma CountryIgnoresSurroundingSpace(s: string)
    ensures Country(Str(Strip(s))) == Country(Str(s))
  {
    StripIdempotent(s);
  }

  /** `close_price - open_price` on numbers: missing when either side is. */
  function PriceChange(open: Option<real>, close: Option<real>): (r: Option<real>)
    ensures r.None? <==> open.None? || close.None?
    ensures r.Some? ==> open.value + r.value == close.value
  {
    if open.Some? && close.Some? then Some(close.value - open.value) else None
  }

  /** The same on cells, as a column of the frame. */
  function PriceChangeCell(open: Value, close: Value): Value
  {
    match PriceChange(AsNumber(open), AsNumber(close))
    case Some(x) => Num(x)
    case None => Null
  }

  /** A price-change cell reads back as the difference of the numbers. */
  lemma PriceChangeCellReads(open: Value, close: Value)
    ensures AsNumber(PriceChangeCell(open, close)) == PriceChange(AsNumber(open), AsNumber(close))
  {
  }

  // ---------------------------------------------------------------------
  // The derived columns of a frame
  // ---------------------------------------------------------------------

  /** `pd.to_numeric(df[c], errors="coerce")` assigned back to `c`, when the
      frame has that column. */
  function CoercedColumn(t: Table, c: string, parseNum: string -> Option<real>): (r: Table)
    requires t.Valid()
    ensures r.Valid() && r.height == t.height && r.names == t.names
  {
    if t.Has(c) then t.Assigned(c, CoercedCells(t, c, parseNum)) else t
  }

  function CoercedCells(t: Table, c: string, parseNum: string -> Option<real>): (v: seq<Value>)
    ensures |v| == t.height
  {
    seq(t.height, i => Coerce(t.At(c, i), parseNum))
  }

  /** Coercing an already coerced cell changes nothing. */
  lemma CoerceIdempotent(v: Value, parseNum: string -> Option<real>)
    ensures Coerce(Coerce(v, parseNum), parseNum) == Coerce(v, parseNum)
  {
  }

  /** The numeric columns `cs` coerced one after the other. Every cell of a
      listed column is coerced (once, whatever the repetitions), every other
      cell is kept, and no column is added. */
  function Coerced(t: Table, cs: seq<string>, parseNum: string -> Option<real>): (r: Table)
    requires t.Valid()
    ensures r.Valid() && r.height == t.height && r.names == t.names
    ensures forall c, i :: 0 <= i < t.height ==>
              r.At(c, i) == if c in cs then Coerce(t.At(c, i), parseNum) else t.At(c, i)
    decreases |cs|
  {
    if cs == [] then t
    else
      var p := Coerced(t, cs[..|cs| - 1], parseNum);
      var c := cs[|cs| - 1];
      assert forall d :: d in cs <==> d in cs[..|cs| - 1] || d == c by {
        assert cs == cs[..|cs| - 1] + [c];
      }
      var r := CoercedColumn(p, c, parseNum);
      assert forall i :: 0 <= i < t.height ==> r.At(c, i) == Coerce(p.At(c, i), parseNum) by {
        if !p.Has(c) {
          forall i | 0 <= i < t.height ensures r.At(c, i) == Coerce(p.At(c, i), parseNum) {
            assert p.At(c, i) == Null;
          }
        }
      }
      forall i | 0 <= i < t.height ensures r.At(c, i) == Coerce(t.At(c, i), parseNum) {
        CoerceIdempotent(t.At(c, i), parseNum);
      }
      r
  }

  /** A column of 0/1 flags computed from the column `src`. */
  function FlagColumn(t: Table, src: string, flag: Value -> int): (v: seq<Value>)
    ensures |v| == t.height
  {
    seq(t.height, i => Int(flag(t.At(src, i))))
  }

  /** `df[name] = flag(df[src])` for a source column other than `name`. */
  function WithFlag(t: Table, name: string, src: string, flag: Value -> int): (r: Table)
    requires t.Valid() && name != src
    ensures r.Valid() && r.height == t.height && r.Has(name)
    ensures forall c :: t.Has(c) ==> r.Has(c)
    ensures forall i :: 0 <= i < t.height ==> r.At(name, i) == Int(flag(t.At(src, i)))
    ensures forall c, i :: c != name ==> r.At(c, i) == t.At(c, i)
  {
    t.Assigned(name, FlagColumn(t, src, flag))
  }

  /** The three flag assignments, in order: `gap_up_flag` and
      `gap_down_flag` from `notes`, `validated_flag` from `validated`. A
      frame without one of those columns gets flags 0. */
  function WithFlags(t: Table): (r: Table)
    requires t.Valid()
    ensures r.Valid() && r.height == t.height
    ensures r.Has("gap_up_flag") && r.Has("gap_down_flag") && r.Has("validated_flag")
    ensures forall c :: t.Has(c) ==> r.Has(c)
    ensures forall i :: 0 <= i < t.height ==>
              && r.At("gap_up_flag", i) == Int(GapUpFlag(t.At("notes", i)))
              && r.At("gap_down_flag", i) == Int(GapDownFlag(t.At("notes", i)))
              && r.At("validated_flag", i) == Int(ValidatedFlag(t.At("validated", i)))
    ensures forall c, i :: c != "gap_up_flag" && c != "gap_down_flag" && c != "validated_flag" ==>
              r.At(c, i) == t.At(c, i)
  {
    FlagNamesDistinct();
    var t1 := WithFlag(t, "gap_up_flag", "notes", GapUpFlag);
    var t2 := WithFlag(t1, "gap_down_flag", "notes", GapDownFlag);
    var r := WithFlag(t2, "validated_flag", "validated", ValidatedFlag);
    assert forall i :: 0 <= i < t.height ==> r.At("gap_up_flag", i) == t1.At("gap_up_flag", i);
    assert forall i :: 0 <= i < t.height ==> r.At("gap_down_flag", i) == t2.At("gap_down_flag", i);
    assert forall i :: 0 <= i < t.height ==> t2.At("notes", i) == t1.At("notes", i) == t.At("notes", i);
    assert forall i :: 0 <= i < t.height ==> t2.At("validated", i) == t.At("validated", i);
    r
  }

  lemma FlagNamesDistinct()
    ensures "gap_up_flag" != "gap_down_flag" && "gap_up_flag" != "validated_flag" && "gap_down_flag" != "validated_flag"
    ensures "notes" != "gap_up_flag" && "notes" != "gap_down_flag" && "validated" != "gap_up_flag"
    ensures "validated" != "gap_down_flag" && "notes" != "validated_flag" && "validated" != "validated_flag"
  {
  }

  /** `exchange_clean`, then `country` looked up from it. */
  function WithCountry(t: Table): (r: Table)
    requires t.Valid()
    ensures r.Valid() && r.height == t.height
    ensures r.Has("exchange_clean") && r.Has("country")
    ensures forall c :: t.Has(c) ==> r.Has(c)
    ensures forall i :: 0 <= i < t.height ==>
              r.At("exchange_clean", i) == ExchangeCleanCell(t.At("exchange", i))
              && r.At("country", i) == Str(Country(t.At("exchange", i)))
    ensures forall c, i :: c != "exchange_clean" && c != "country" ==> r.At(c, i) == t.At(c, i)
  {
    var t1 := t.Assigned("exchange_clean", ExchangeCleanColumn(t));
    t1.Assigned("country", CountryColumn(t1))
  }

  function ExchangeCleanColumn(t: Table): (v: seq<Value>)
    ensures |v| == t.height
  {
    seq(t.height, i => ExchangeCleanCell(t.At("exchange", i)))
  }

  function CountryColumn(t: Table): (v: seq<Value>)
    ensures |v| == t.height
  {
    seq(t.height, i => Str(Lookup(t.At("exchange_clean", i))))
  }

  /** `close_price - open_price` as a column. */
  function DifferenceColumn(t: Table): (v: seq<Value>)
    ensures |v| == t.height
  {
    seq(t.height, i => PriceChangeCell(t.At("open_price", i), t.At("close_price", i)))
  }

  // ---------------------------------------------------------------------
  // The same steps as assignments to a frame
  // ---------------------------------------------------------------------

  /** The loop `for col in cs: if col in df.columns: df[col] =
      pd.to_numeric(df[col], errors="coerce")`. */
  method CoerceColumns(f: Frame, cs: seq<string>, parseNum: string -> Option<real>)
    requires f.Valid()
    modifies f
    ensures f.Valid() && f.Contents() == Coerced(old(f.Contents()), cs, parseNum)
  {
    ghost var s := f.Contents();
    var k := 0;
    while k < |cs|
      invariant 0 <= k <= |cs|
      invariant f.Valid() && f.Contents() == Coerced(s, cs[..k], parseNum)
    {
      assert cs[..k + 1][..k] == cs[..k];
      var c := cs[k];
      var t := f.Contents();
      assert Coerced(s, cs[..k + 1], parseNum) == CoercedColumn(t, c, parseNum);
      if f.Has(c) {
        f.Assign(c, CoercedCells(t, c, parseNum));
      }
      k := k + 1;
    }
    assert cs[..k] == cs;
  }

  /** The three flag assignments. */
  method AssignFlags(f: Frame)
    requires f.Valid()
    modifies f
    ensures f.Valid() && f.Contents() == WithFlags(old(f.Contents()))
  {
    var t := f.Contents();
    f.Assign("gap_up_flag", FlagColumn(t, "notes", GapUpFlag));
    t := f.Contents();
    f.Assign("gap_down_flag", FlagColumn(t, "notes", GapDownFlag));
    t := f.Contents();
    f.Assign("validated_flag", FlagColumn(t, "validated", ValidatedFlag));
  }

  /** `exchange_clean`, then `country`. */
  method AssignCountry(f: Frame)
    requires f.Valid()
    modifies f
    ensures f.Valid() && f.Contents() == WithCountry(old(f.Contents()))
  {
    var t := f.Contents();
    f.Assign("exchange_clean", ExchangeCleanColumn(t));
    t := f.Contents();
    f.Assign("country", CountryColumn(t));
  }
}
