/** The cleaning script `02_clean_data.py`: a table of string cells read with
    `dtype=str` is normalised column by column. */
module Cleaning {
  import opened Wrappers
  import opened Text
  import opened SnakeCase
  import opened Calendar

  /** A cell of the raw or cleaned table: text, or pandas' missing value. */
  type Cell = Option<string>

  /** The tokens the script replaces by the missing value, matched exactly. */
  const MissingTokens: set<string> := {"", "NA", "N/A", "na", "NaN", "null", "None", "-"}

  function TrimCell(c: Cell): Cell
  {
    match c
    case None => None
    case Some(s) => Some(Strip(s))
  }

  function MissingToNull(c: Cell): Cell
  {
    if c.Some? && c.value in MissingTokens then None else c
  }

  /** Columns whose name contains `ticker` are upper-cased, all others lower-cased. */
  function CaseCell(column: string, c: Cell): Cell
  {
    match c
    case None => None
    case Some(s) => Some(if Contains(column, "ticker") then Upper(s) else Lower(s))
  }

  /** `pd.to_datetime(..., errors="coerce").dt.strftime("%Y-%m-%d")` on one
      cell; `parse` stands for pandas' date inference. */
  function DateCell(parse: string -> Option<CalendarDate>, c: Cell): Cell
  {
    match c
    case None => None
    case Some(s) =>
      match parse(s)
      case None => None
      case Some(d) => Some(FormatIso(d))
  }

  /** What the script does to one cell of the column named `column` (the
      name already in snake case). */
  function CleanCell(column: string, c: Cell, parse: string -> Option<CalendarDate>): Cell
  {
    var cased := CaseCell(column, MissingToNull(TrimCell(c)));
    if column == "trade_date" then DateCell(parse, cased) else cased
  }

  /** The data frame of the cleaning script, stored column by column. */
  class Sheet {
    var header: seq<string>
    var columns: seq<seq<Cell>>
    var height: nat

    ghost predicate Valid()
      reads this
    {
      |columns| == |header| && forall j :: 0 <= j < |columns| ==> |columns[j]| == height
    }

    /** `pd.read_csv(csv_path, dtype=str)`: the file is already split into a
        header and rectangular string columns. */
    constructor (header: seq<string>, columns: seq<seq<Cell>>, height: nat)
      requires |columns| == |header| && forall j :: 0 <= j < |columns| ==> |columns[j]| == height
      ensures Valid() && this.header == header && this.columns == columns && this.height == height
    {
      this.header := header;
      this.columns := columns;
      this.height := height;
    }

    /** `df.columns = [to_snake_case(c) for c in df.columns]`. */
    method NormalizeHeader()
      requires Valid()
      modifies this
      ensures Valid() && columns == old(columns) && height == old(height)
      ensures |header| == |old(header)|
      ensures forall j :: 0 <= j < |header| ==> header[j] == ToSnakeCase(old(header)[j])
    {
      var names := header;
      header := seq(|names|, j requires 0 <= j < |names| => ToSnakeCase(names[j]));
    }

    /** `df.applymap(lambda x: x.strip() if isinstance(x, str) else x)`. */
    method TrimCells()
      requires Valid()
      modifies this
      ensures Valid() && header == old(header) && height == old(height)
      ensures forall j, i :: 0 <= j < |columns| && 0 <= i < height ==>
                columns[j][i] == TrimCell(old(columns)[j][i])
    {
      var cols := columns;
      columns := seq(|cols|, j requires 0 <= j < |cols| =>
                   seq(|cols[j]|, i requires 0 <= i < |cols[j]| => TrimCell(cols[j][i])));
    }

    /** `df.replace(missing_tokens, pd.NA, inplace=True)`. */
    method ReplaceMissingTokens()
      requires Valid()
      modifies this
      ensures Valid() && header == old(header) && height == old(height)
      ensures forall j, i :: 0 <= j < |columns| && 0 <= i < height ==>
                columns[j][i] == MissingToNull(old(columns)[j][i])
    {
      var cols := columns;
      columns := seq(|cols|, j requires 0 <= j < |cols| =>
                   seq(|cols[j]|, i requires 0 <= i < |cols[j]| => MissingToNull(cols[j][i])));
    }

    /** The loop over the object columns (every column, since the file was
        read with `dtype=str`), overwriting each with its cased copy. */
    method StandardizeCase()
      requires Valid()
      modifies this
      ensures Valid() && header == old(header) && height == old(height)
      ensures forall j, i :: 0 <= j < |columns| && 0 <= i < height ==>
                columns[j][i] == CaseCell(header[j], old(columns)[j][i])
    {
      var j := 0;
      while j < |header|
        invariant 0 <= j <= |header|
        invariant Valid() && header == old(header) && height == old(height)
        invariant forall k, i :: 0 <= k < j && 0 <= i < height ==>
                    columns[k][i] == CaseCell(header[k], old(columns)[k][i])
        invariant forall k :: j <= k < |columns| ==> columns[k] == old(columns)[k]
      {
        var name, column := header[j], columns[j];
        var cased := seq(|column|, i requires 0 <= i < |column| => CaseCell(name, column[i]));
        columns := columns[j := cased];
        j := j + 1;
      }
    }

    /** `if "trade_date" in df.columns: df["trade_date"] = ...`. */
    method ParseTradeDate(parse: string -> Option<CalendarDate>)
      requires Valid()
      modifies this
      ensures Valid() && header == old(header) && height == old(height)
      ensures forall j, i :: 0 <= j < |columns| && 0 <= i < height ==>
                columns[j][i] == if header[j] == "trade_date" then DateCell(parse, old(columns)[j][i])
                                 else old(columns)[j][i]
    {
      if "trade_date" in header {
        var names, cols := header, columns;
        columns := seq(|cols|, j requires 0 <= j < |cols| =>
                     if names[j] == "trade_date"
                     then seq(|cols[j]|, i requires 0 <= i < |cols[j]| => DateCell(parse, cols[j][i]))
                     else cols[j]);
      }
    }

    /** The cleaning steps of `main`, in order. */
    method Clean(parse: string -> Option<CalendarDate>)
      requires Valid()
      modifies this
      ensures Valid() && height == old(height) && |header| == |old(header)|
      ensures forall j :: 0 <= j < |header| ==> header[j] == ToSnakeCase(old(header)[j]) && IsSnakeCase(header[j])
      ensures forall j, i :: 0 <= j < |columns| && 0 <= i < height ==>
                columns[j][i] == CleanCell(header[j], old(columns)[j][i], parse)
    {
      NormalizeHeader();
      forall j | 0 <= j < |header| ensures IsSnakeCase(header[j]) {
        ToSnakeCaseIsCanonical(old(header)[j]);
      }
      TrimCells();
      ReplaceMissingTokens();
      StandardizeCase();
      ParseTradeDate(parse);
    }
  }

  /** A cell made only of white space becomes missing, whatever its column. */
  lemma BlankCellIsNull(column: string, s: string, parse: string -> Option<CalendarDate>)
    requires forall k :: 0 <= k < |s| ==> IsSpace(s[k])
    ensures CleanCell(column, Some(s), parse) == None
  {
    assert DropLeading(s, IsSpace) == [];
  }

  /** Outside `trade_date`, a cell becomes missing exactly when it was missing
      or its trimmed text is one of the missing tokens; any other cell keeps
      its trimmed text, re-cased. */
  lemma CleanCellNullIff(column: string, c: Cell, parse: string -> Option<CalendarDate>)
    requires column != "trade_date"
    ensures CleanCell(column, c, parse).None? <==> c.None? || Strip(c.value) in MissingTokens
    ensures c.Some? && Strip(c.value) !in MissingTokens ==>
              CleanCell(column, c, parse)
                == Some(if Contains(column, "ticker") then Upper(Strip(c.value)) else Lower(Strip(c.value)))
  {
  }

  /** Casing invariant: a kept value of a `ticker` column has no lower-case
      letter, a kept value of any other column no upper-case letter. */
  lemma CleanCellCasing(column: string, c: Cell, parse: string -> Option<CalendarDate>)
    requires CleanCell(column, c, parse).Some?
    ensures Contains(column, "ticker") ==> IsUpperCase(CleanCell(column, c, parse).value)
    ensures !Contains(column, "ticker") ==> IsLowerCase(CleanCell(column, c, parse).value)
  {
    var v := CleanCell(column, c, parse).value;
    if column == "trade_date" {
      TradeDateNoTicker();
      IsoDateIsLowerCase(v);
    } else if Contains(column, "ticker") {
      UpperSpec(Strip(c.value));
    } else {
      LowerSpec(Strip(c.value));
    }
  }

  lemma TradeDateNoTicker()
    ensures !Contains("trade_date", "ticker")
  {
    NoTickerIn("trade_date");
  }

  lemma IsoDateIsLowerCase(v: string)
    requires IsIsoDateText(v)
    ensures IsLowerCase(v)
  {
  }

  /** Every kept `trade_date` is a `YYYY-MM-DD` text naming a real day; a
      date pandas cannot parse becomes missing. */
  lemma CleanTradeDate(c: Cell, parse: string -> Option<CalendarDate>)
    ensures CleanCell("trade_date", c, parse).Some? ==>
              IsIsoDateText(CleanCell("trade_date", c, parse).value)
              && ParseIso(CleanCell("trade_date", c, parse).value).Some?
    ensures CleanCell("trade_date", c, parse).None? <==>
              c.None? || Strip(c.value) in MissingTokens || parse(Lower(Strip(c.value))).None?
  {
    NoTickerIn("trade_date");
    var r := CleanCell("trade_date", c, parse);
    if r.Some? {
      var s := Lower(Strip(c.value));
      ParseFormatIso(parse(s).value);
    }
  }

  /** Re-cleaning a cleaned cell of an ordinary column changes nothing, as
      long as the cleaned text is not itself a missing token. */
  lemma CleanCellTwice(column: string, c: Cell, parse: string -> Option<CalendarDate>)
    requires column != "trade_date"
    requires CleanCell(column, c, parse).Some? ==> CleanCell(column, c, parse).value !in MissingTokens
    ensures CleanCell(column, CleanCell(column, c, parse), parse) == CleanCell(column, c, parse)
  {
    var r := CleanCell(column, c, parse);
    if r.Some? {
      var t := Strip(c.value);
      var v := r.value;
      StripUnspaced(t);
      if Contains(column, "ticker") {
        assert v == Upper(t);
        CasingKeepsEnds(t, v);
        StripWithUnchanged(v, IsSpace);
        UpperSpec(t);
        UpperSpec(v);
      } else {
        assert v == Lower(t);
        CasingKeepsEnds(t, v);
        StripWithUnchanged(v, IsSpace);
        LowerSpec(t);
        LowerSpec(v);
      }
    }
  }

  /** Re-casing a text without white space at its ends leaves none there. */
  lemma CasingKeepsEnds(t: string, v: string)
    requires v == Upper(t) || v == Lower(t)
    requires t != [] ==> !IsSpace(t[0]) && !IsSpace(t[|t| - 1])
    ensures v != [] ==> !IsSpace(v[0]) && !IsSpace(v[|v| - 1])
  {
    if v != [] {
      assert v[0] == UpperChar(t[0]) || v[0] == LowerChar(t[0]);
      assert v[|v| - 1] == UpperChar(t[|t| - 1]) || v[|v| - 1] == LowerChar(t[|t| - 1]);
    }
  }

  /** A stripped text has no white space at either end. */
  lemma StripUnspaced(s: string)
    ensures Strip(s) != [] ==> !IsSpace(Strip(s)[0]) && !IsSpace(Strip(s)[|Strip(s)| - 1])
  {
    var a := DropLeading(s, IsSpace);
    var b := DropTrailing(a, IsSpace);
    if b != [] {
      assert b[0] == a[0];
    }
  }

  /** A name without the letter `k` never contains `ticker`. */
  lemma NoTickerIn(column: string)
    requires forall i :: 0 <= i < |column| ==> column[i] != 'k'
    ensures !Contains(column, "ticker")
  {
    forall i: nat | i <= |column| ensures !OccursAt(column, "ticker", i) {
      if i + 6 <= |column| {
        assert column[i..i + 6][3] == column[i + 3] != 'k';
      }
    }
  }

  /** Matching is case-sensitive and happens before casing, so cleaning is
      not idempotent: `Na` is kept and lowered to `na`, which a second pass
      would treat as missing. */
  lemma CleaningNotIdempotent(parse: string -> Option<CalendarDate>)
    ensures CleanCell("notes", Some("Na"), parse) == Some("na")
    ensures CleanCell("notes", CleanCell("notes", Some("Na"), parse), parse) == None
  {
    NaTokens();
    NaTrimmed();
    NotesCell(Some("Na"), parse);
    NotesCased("Na");
    NaLowered();
    NotesCell(Some("na"), parse);
  }

  lemma NaTrimmed()
    ensures TrimCell(Some("Na")) == Some("Na") && TrimCell(Some("na")) == Some("na")
  {
    TrimUnchanged("Na");
    TrimUnchanged("na");
  }

  lemma TrimUnchanged(s: string)
    requires |s| == 2 && 'A' <= s[0] <= 'z' && 'A' <= s[1] <= 'z'
    ensures TrimCell(Some(s)) == Some(s)
  {
    StripWithUnchanged(s, IsSpace);
  }

  lemma NaLowered()
    ensures Lower("Na") == "na"
  {
    assert Lower("Na")[0] == LowerChar('N') == 'n';
  }

  lemma NaTokens()
    ensures "Na" !in MissingTokens && "na" in MissingTokens
  {
  }

  lemma NotesCell(c: Cell, parse: string -> Option<CalendarDate>)
    ensures CleanCell("notes", c, parse) == CaseCell("notes", MissingToNull(TrimCell(c)))
  {
    assert "notes" != "trade_date";
  }

  lemma NotesCased(s: string)
    ensures CaseCell("notes", Some(s)) == Some(Lower(s))
  {
    NoTickerIn("notes");
  }
}
