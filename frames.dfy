/**
 * pandas DataFrames as the core sees them: an ordered list of labelled,
 * typed columns over a common number of rows. A cell is a number, a text
 * or missing (`None`/`NaN`, which `isnull()` reports).
 */
module Frames {
  datatype Value = Null | Number(x: real) | Text(s: string)

  /** One column: its label, the name of its dtype (`"object"`, `"int64"`,
      `"Int64"`, `"float64"`, ...) and its cells from the first row down. */
  datatype Column = Column(name: string, dtype: string, cells: seq<Value>)

  datatype Frame = Frame(columns: seq<Column>, height: nat)

  /** `pd.DataFrame()` */
  const EmptyFrame: Frame := Frame([], 0)

  /** Every column has one cell per row. */
  predicate Rectangular(f: Frame)
  {
    forall i :: 0 <= i < |f.columns| ==> |f.columns[i].cells| == f.height
  }

  /** `list(df.columns)` */
  function ColumnNames(f: Frame): (names: seq<string>)
    ensures |names| == |f.columns|
    ensures forall i :: 0 <= i < |f.columns| ==> names[i] == f.columns[i].name
  {
    seq(|f.columns|, i requires 0 <= i < |f.columns| => f.columns[i].name)
  }

  /** `df.empty`: true when either axis has length zero. */
  predicate IsEmpty(f: Frame)
  {
    f.height == 0 || |f.columns| == 0
  }

  /** The number of rows `df.head(n)` keeps: Python's slice `[:n]`, so a
      negative `n` drops the last `-n` rows. */
  function HeadCount(height: nat, n: int): (k: nat)
    ensures k <= height
    ensures 0 <= n ==> k == if n < height then n else height
    ensures n < 0 ==> k == if height + n > 0 then height + n else 0
  {
    if 0 <= n then (if n < height then n else height)
    else if height + n > 0 then height + n else 0
  }

  /** `df.head(n)`: the same columns, each cut to its first rows. */
  function Head(f: Frame, n: int): (r: Frame)
    ensures r.height == HeadCount(f.height, n)
    ensures ColumnNames(r) == ColumnNames(f)
    ensures |r.columns| == |f.columns|
    ensures forall i :: 0 <= i < |f.columns| ==>
      r.columns[i].dtype == f.columns[i].dtype && r.columns[i].cells == Take(f.columns[i].cells, r.height)
    ensures Rectangular(f) ==> Rectangular(r)
  {
    var k := HeadCount(f.height, n);
    Frame(seq(|f.columns|, i requires 0 <= i < |f.columns| =>
      Column(f.columns[i].name, f.columns[i].dtype, Take(f.columns[i].cells, k))), k)
  }

  /** Taking the first `n` rows of the first `m` rows is taking the first
      `min(m, n)` rows. */
  lemma HeadOfHead(f: Frame, m: int, n: int)
    requires 0 <= m && 0 <= n
    ensures Head(Head(f, m), n) == Head(f, if m < n then m else n)
  {
    var inner, outer, direct := Head(f, m), Head(Head(f, m), n), Head(f, if m < n then m else n);
    assert outer.height == direct.height;
    forall i | 0 <= i < |f.columns|
      ensures outer.columns[i] == direct.columns[i]
    {
      assert outer.columns[i].name == inner.columns[i].name == f.columns[i].name by {
        assert ColumnNames(outer)[i] == ColumnNames(inner)[i] == ColumnNames(f)[i];
        assert ColumnNames(direct)[i] == ColumnNames(f)[i];
      }
    }
    assert outer.columns == direct.columns;
  }

  /** The first `k` elements, or all of them when there are fewer. */
  function Take<T>(s: seq<T>, k: nat): (r: seq<T>)
    ensures |r| == if k < |s| then k else |s|
    ensures r == s[..|r|]
  {
    if k < |s| then s[..k] else s
  }

  /** `series.isnull().sum()` */
  function NullCount(cells: seq<Value>): (n: nat)
    ensures n <= |cells|
  {
    if cells == [] then 0
    else NullCount(cells[..|cells| - 1]) + (if cells[|cells| - 1].Null? then 1 else 0)
  }
}
