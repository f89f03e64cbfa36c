/** The pandas data frames of the aggregation script and the dashboard:
    named columns of cells, read and assigned by name. */
module Frames {
  import opened Wrappers

  /** A cell after loading: missing, text, a number, an integer flag, or a
      day number (a pandas timestamp at midnight). */
  datatype Value = Null | Str(s: string) | Num(x: real) | Int(n: int) | Day(ordinal: int)

  /** The position of the first occurrence of `c` in `names`. */
  function FirstIndex(names: seq<string>, c: string): (j: nat)
    requires c in names
    ensures j < |names| && names[j] == c && forall k :: 0 <= k < j ==> names[k] != c
  {
    if names[0] == c then 0 else 1 + FirstIndex(names[1..], c)
  }

  /** A cell read as a number: pandas' arithmetic and means see only numbers
      and skip everything missing. */
  function AsNumber(v: Value): Option<real>
  {
    match v
    case Num(x) => Some(x)
    case Int(n) => Some(n as real)
    case _ => None
  }

  /** A 0/1 flag cell read as an integer. */
  function AsCount(v: Value): int
  {
    match v
    case Int(n) => n
    case _ => 0
  }

  function Nulls(n: nat): (v: seq<Value>)
    ensures |v| == n && forall i :: 0 <= i < n ==> v[i] == Null
  {
    seq(n, i => Null)
  }

  /** The contents of a data frame. A name may occur twice; lookups by name
      see its first column, as the model needs no more. */
  datatype Table = Table(names: seq<string>, cols: seq<seq<Value>>, height: nat) {

    predicate Valid() {
      |cols| == |names| && forall j :: 0 <= j < |cols| ==> |cols[j]| == height
    }

    predicate Has(c: string) {
      c in names
    }

    /** `df[c].iloc[i]`, or missing when there is no such cell. */
    function At(c: string, i: int): Value
    {
      if c in names && FirstIndex(names, c) < |cols| && 0 <= i < |cols[FirstIndex(names, c)]|
      then cols[FirstIndex(names, c)][i]
      else Null
    }

    /** `df[c] = v`: overwrites the column named `c`, or appends it as the
        last column. */
    function Assigned(c: string, v: seq<Value>): (t: Table)
      requires Valid() && |v| == height
      ensures t.Valid() && t.height == height && t.Has(c)
      ensures t.names == if Has(c) then names else names + [c]
      ensures forall i :: 0 <= i < height ==> t.At(c, i) == v[i]
      ensures forall d, i :: d != c ==> t.At(d, i) == At(d, i)
    {
      if c in names then
        ReplaceColumn(this, c, v);
        Table(names, cols[FirstIndex(names, c) := v], height)
      else
        AppendColumn(this, c, v);
        Table(names + [c], cols + [v], height)
    }
  }

  /** Overwriting the first column named `c`. */
  lemma ReplaceColumn(t: Table, c: string, v: seq<Value>)
    requires t.Valid() && |v| == t.height && c in t.names
    ensures var r := Table(t.names, t.cols[FirstIndex(t.names, c) := v], t.height);
            && r.Valid()
            && (forall i :: 0 <= i < t.height ==> r.At(c, i) == v[i])
            && (forall d, i :: d != c ==> r.At(d, i) == t.At(d, i))
  {
    var r := Table(t.names, t.cols[FirstIndex(t.names, c) := v], t.height);
    forall d, i | d != c ensures r.At(d, i) == t.At(d, i) {
      if d in t.names {
        assert FirstIndex(t.names, d) != FirstIndex(t.names, c);
      }
    }
  }

  /** Appending a column under a new name. */
  lemma AppendColumn(t: Table, c: string, v: seq<Value>)
    requires t.Valid() && |v| == t.height && c !in t.names
    ensures var r := Table(t.names + [c], t.cols + [v], t.height);
            && r.Valid()
            && (forall i :: 0 <= i < t.height ==> r.At(c, i) == v[i])
            && (forall d, i :: d != c ==> r.At(d, i) == t.At(d, i))
  {
    var r := Table(t.names + [c], t.cols + [v], t.height);
    forall d, i | d != c ensures r.At(d, i) == t.At(d, i) {
      if d in t.names {
        FirstIndexOfPrefix(t.names, [c], d);
      }
    }
    assert FirstIndex(r.names, c) == |t.names|;
  }

  /** Appending names never changes where an existing name is first found. */
  lemma {:induction false} FirstIndexOfPrefix(names: seq<string>, more: seq<string>, d: string)
    requires d in names
    ensures FirstIndex(names + more, d) == FirstIndex(names, d)
  {
    if names[0] != d {
      assert (names + more)[1..] == names[1..] + more;
      FirstIndexOfPrefix(names[1..], more, d);
    }
  }

  const Empty: Table := Table([], [], 0)

  /** A data frame object; the dashboard and the aggregation script change
      it in place. */
  class Frame {
    var names: seq<string>
    var cols: seq<seq<Value>>
    var height: nat

    function Contents(): Table
      reads this
    {
      Table(names, cols, height)
    }

    ghost predicate Valid()
      reads this
    {
      Contents().Valid()
    }

    constructor (t: Table)
      requires t.Valid()
      ensures Valid() && Contents() == t
    {
      names, cols, height := t.names, t.cols, t.height;
    }

    predicate Has(c: string)
      reads this
    {
      c in names
    }

    /** `df[c] = v`. */
    method Assign(c: string, v: seq<Value>)
      requires Valid() && |v| == height
      modifies this
      ensures Valid() && Contents() == old(Contents()).Assigned(c, v)
    {
      var t := Contents().Assigned(c, v);
      names, cols := t.names, t.cols;
    }

    /** `df.columns = new_names`. */
    method Rename(newNames: seq<string>)
      requires Valid() && |newNames| == |names|
      modifies this
      ensures Valid() && Contents() == Table(newNames, old(cols), old(height))
    {
      names := newNames;
    }

    /** `df.copy()`. */
    method Copy() returns (g: Frame)
      requires Valid()
      ensures fresh(g) && g.Valid() && g.Contents() == Contents()
    {
      g := new Frame(Contents());
    }
  }
}
