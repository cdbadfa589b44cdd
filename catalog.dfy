/**
 * The catalog kept by `DataManager`: the loaded tables and their metadata,
 * both Python dicts keyed by sanitised table name, filled by
 * `load_all_datasets` and read by the lookup methods.
 */
module Catalog {
  import opened Wrappers
  import opened Text
  import opened PyDict
  import opened Frames
  import opened Identifiers
  import opened NumericText
  import opened Insights

  /** A number as `pd.to_numeric` reads it from text. */
  datatype Parsed = IntValue(i: int) | FloatValue(x: real)

  /** One file matched by `*.csv` in the data directory: its name, its stem
      and what `pd.read_csv` makes of it (`None` when reading raises). */
  datatype CsvFile = CsvFile(fileName: string, stem: string, contents: Option<Frame>)

  /** A `metadata` entry: `original_name`, `rows`, `columns` and `dtypes`. */
  datatype TableMeta = TableMeta(originalName: string, rows: nat, columns: seq<string>, dtypes: Dict<string, string>)

  /** The metadata entry says the truth about the frame. */
  ghost predicate Describes(m: TableMeta, f: Frame)
  {
    m.rows == f.height && m.columns == ColumnNames(f)
    && m.dtypes.keys == ColumnNames(f)
    && forall i :: 0 <= i < |f.columns| ==>
      f.columns[i].name in m.dtypes.entries && m.dtypes.entries[f.columns[i].name] == f.columns[i].dtype
  }

  // ---------------------------------------------------------------------------
  // Cleaning one loaded frame

  /** `fillna(0)` */
  function FillNulls(cells: seq<Value>): (r: seq<Value>)
    ensures |r| == |cells|
    ensures forall i :: 0 <= i < |cells| ==> !r[i].Null? && (!cells[i].Null? ==> r[i] == cells[i])
    ensures forall i :: 0 <= i < |cells| && cells[i].Null? ==> r[i] == Number(0.0)
  {
    seq(|cells|, i requires 0 <= i < |cells| => if cells[i].Null? then Number(0.0) else cells[i])
  }

  /** `pd.to_numeric(v, errors='coerce')` then `fillna(0)` for one cell: text
      that does not parse and a missing value both become 0. */
  function NumericCell(v: Value, parse: string -> Option<Parsed>): (r: Value)
    ensures r.Number?
  {
    match v
    case Null => Number(0.0)
    case Number(x) => v
    case Text(s) =>
      match parse(s)
      case None => Number(0.0)
      case Some(IntValue(i)) => Number(i as real)
      case Some(FloatValue(x)) => Number(x)
  }

  predicate ParsesAsInt(v: Value, parse: string -> Option<Parsed>)
  {
    v.Text? && parse(v.s).Some? && parse(v.s).value.IntValue?
  }

  /** The dtype `to_numeric` settles on: integers only when every cell is text
      of an integer, floats as soon as one value is missing, fails or is not
      whole. */
  function ConvertedDType(cells: seq<Value>, parse: string -> Option<Parsed>): (d: string)
    ensures IsNumericDType(d)
  {
    if forall i :: 0 <= i < |cells| ==> ParsesAsInt(cells[i], parse) then "int64" else "float64"
  }

  /** One iteration of the column loop of `load_all_datasets`. */
  function CleanColumn(c: Column, parse: string -> Option<Parsed>): (r: Column)
    ensures r.name == c.name
  {
    if StartsWith(c.dtype, "Int") then Column(c.name, "int64", FillNulls(c.cells))
    else if c.dtype == "object" && ShouldConvertToNumeric(c.cells) then
      Column(c.name, ConvertedDType(c.cells, parse),
        seq(|c.cells|, i requires 0 <= i < |c.cells| => NumericCell(c.cells[i], parse)))
    else c
  }

  /** A nullable-integer column becomes `int64` with its gaps filled by 0; an
      `object` column that passes the sample test becomes numeric in every
      cell; any other column is left alone. Every column keeps its length. */
  lemma CleanColumnEffect(c: Column, parse: string -> Option<Parsed>)
    ensures var r := CleanColumn(c, parse);
      |r.cells| == |c.cells|
      && (StartsWith(c.dtype, "Int") ==>
        r.dtype == "int64"
        && (forall i :: 0 <= i < |c.cells| ==> !r.cells[i].Null?)
        && (forall i :: 0 <= i < |c.cells| && !c.cells[i].Null? ==> r.cells[i] == c.cells[i]))
      && (!StartsWith(c.dtype, "Int") && c.dtype == "object" && ShouldConvertToNumeric(c.cells) ==>
        IsNumericDType(r.dtype) && forall i :: 0 <= i < |r.cells| ==> r.cells[i].Number?)
      && (!StartsWith(c.dtype, "Int") && !(c.dtype == "object" && ShouldConvertToNumeric(c.cells)) ==>
        r == c)
  {
  }

  function Renamed(c: Column): Column
  {
    c.(name := SanitizeColumnName(c.name))
  }

  /** `[_sanitize_column_name(col) for col in df.columns]` */
  function SanitizedNames(f: Frame): (names: seq<string>)
    ensures |names| == |f.columns|
    ensures forall i :: 0 <= i < |f.columns| ==> names[i] == SanitizeColumnName(f.columns[i].name)
  {
    seq(|f.columns|, i requires 0 <= i < |f.columns| => SanitizeColumnName(f.columns[i].name))
  }

  /** The column loop over `columns`, each column renamed then cleaned. */
  function CleanedColumns(columns: seq<Column>, parse: string -> Option<Parsed>): (r: seq<Column>)
    ensures |r| == |columns|
  {
    if columns == [] then []
    else
      var n := |columns| - 1;
      CleanedColumns(columns[..n], parse) + [CleanColumn(Renamed(columns[n]), parse)]
  }

  lemma CleanColumnKeepsName(c: Column, parse: string -> Option<Parsed>)
    ensures CleanColumn(c, parse).name == c.name
  {
  }

  /** Cleaning gives every column its sanitised name. */
  lemma {:induction false} CleanedColumnsShape(columns: seq<Column>, parse: string -> Option<Parsed>)
    ensures forall i :: 0 <= i < |columns| ==>
      CleanedColumns(columns, parse)[i].name == SanitizeColumnName(columns[i].name)
  {
    if columns != [] {
      var n := |columns| - 1;
      CleanedColumnsShape(columns[..n], parse);
      var prev := CleanedColumns(columns[..n], parse);
      var c := CleanColumn(Renamed(columns[n]), parse);
      CleanColumnKeepsName(Renamed(columns[n]), parse);
      assert CleanedColumns(columns, parse) == prev + [c];
      forall i | 0 <= i < |columns|
        ensures CleanedColumns(columns, parse)[i].name == SanitizeColumnName(columns[i].name)
      {
        if i < n {
          assert columns[..n][i] == columns[i];
          assert CleanedColumns(columns, parse)[i] == prev[i];
        } else {
          assert CleanedColumns(columns, parse)[i] == c;
          assert c.name == Renamed(columns[n]).name;
        }
      }
    }
  }

  /** The renamed and cleaned frame. Two columns whose names sanitise alike
      make `df[col]` a frame without `.dtype`; the `AttributeError` abandons
      the file, which is `None` here. */
  function Prepared(f: Frame, parse: string -> Option<Parsed>): (r: Option<Frame>)
    ensures r.Some? <==> Distinct(SanitizedNames(f))
    ensures r.Some? ==> r.value.height == f.height && ColumnNames(r.value) == SanitizedNames(f)
  {
    if !AllDistinct(SanitizedNames(f)) then None
    else
      CleanedColumnsShape(f.columns, parse);
      Some(Frame(CleanedColumns(f.columns, parse), f.height))
  }

  lemma CleanedColumnsStep(columns: seq<Column>, i: nat, parse: string -> Option<Parsed>)
    requires i < |columns|
    ensures CleanedColumns(columns[..i + 1], parse) == CleanedColumns(columns[..i], parse) + [CleanColumn(Renamed(columns[i]), parse)]
  {
    assert columns[..i + 1][..i] == columns[..i];
  }

  /** The column loop of `load_all_datasets`, over the renamed columns. */
  method CleanEachColumn(columns: seq<Column>, parse: string -> Option<Parsed>) returns (cols: seq<Column>)
    ensures cols == CleanedColumns(columns, parse)
  {
    cols := [];
    var i := 0;
    while i < |columns|
      invariant 0 <= i <= |columns|
      invariant cols == CleanedColumns(columns[..i], parse)
    {
      CleanedColumnsStep(columns, i, parse);
      cols := cols + [CleanColumn(Renamed(columns[i]), parse)];
      i := i + 1;
    }
    assert columns[..i] == columns;
  }

  /** Renaming and cleaning one frame. The column loop stops at the first
      repeated name; since that discards the whole frame, the test for
      repeats is made before the loop. */
  method CleanFrame(f: Frame, parse: string -> Option<Parsed>) returns (r: Option<Frame>)
    ensures r == Prepared(f, parse)
  {
    if !AllDistinct(SanitizedNames(f)) {
      return None;
    }
    var cols := CleanEachColumn(f.columns, parse);
    r := Some(Frame(cols, f.height));
  }

  /** The `metadata` entry written for a stored frame. */
  function MetaOf(fileName: string, f: Frame): (m: TableMeta)
    requires Distinct(ColumnNames(f))
    ensures Describes(m, f) && m.originalName == fileName
  {
    var pairs := seq(|f.columns|, i requires 0 <= i < |f.columns| => (f.columns[i].name, f.columns[i].dtype));
    assert Firsts(pairs) == ColumnNames(f);
    FromDistinctPairs(pairs);
    TableMeta(fileName, f.height, ColumnNames(f), FromPairs(pairs))
  }

  // ---------------------------------------------------------------------------
  // Loading files, as a function of the catalog before

  datatype Table = Table(name: string, frame: Frame, meta: TableMeta)

  /** What one file contributes, or `None` when its `try` block raises: the
      stem sanitises to nothing (`name[0]` fails), the file cannot be read, or
      two column names collide. */
  function Load(file: CsvFile, parse: string -> Option<Parsed>): (r: Option<Table>)
    ensures r.Some? <==> TableNameDefined(file.stem) && file.contents.Some? && Prepared(file.contents.value, parse).Some?
    ensures r.Some? ==> r.value.name == SanitizeTableName(file.stem) && r.value.meta.originalName == file.fileName
    ensures r.Some? ==> r.value.frame == Prepared(file.contents.value, parse).value && Describes(r.value.meta, r.value.frame)
  {
    if !TableNameDefined(file.stem) || file.contents.None? then None
    else
      match Prepared(file.contents.value, parse)
      case None => None
      case Some(f) =>
        var name := SanitizeTableName(file.stem);
        Some(Table(name, f, MetaOf(file.fileName, f)))
  }

  datatype Catalog = Catalog(tables: Dict<string, Frame>, metadata: Dict<string, TableMeta>)
  {
    ghost predicate WellFormed()
    {
      tables.Valid() && metadata.Valid()
    }

    /** Both dicts have the same keys in the same order, and each table's
        metadata describes it. */
    ghost predicate Consistent()
    {
      WellFormed() && tables.keys == metadata.keys
      && forall name :: name in tables.entries ==> Describes(metadata.entries[name], tables.entries[name])
    }
  }

  function EmptyCatalog(): (c: Catalog)
    ensures c.Consistent()
  {
    Catalog(Empty(), Empty())
  }

  /** What each file yields, in file order. */
  function Loads(files: seq<CsvFile>, parse: string -> Option<Parsed>): (r: seq<Option<Table>>)
    ensures |r| == |files| && forall i :: 0 <= i < |files| ==> r[i] == Load(files[i], parse)
  {
    seq(|files|, i requires 0 <= i < |files| => Load(files[i], parse))
  }

  /** One pass of the file loop: the table a file yields, if any, is stored
      under its name in both dicts. */
  function AddTable(c: Catalog, t: Option<Table>): (r: Catalog)
    requires c.WellFormed()
    ensures r.WellFormed()
  {
    match t
    case None => c
    case Some(t) => Catalog(Put(c.tables, t.name, t.frame), Put(c.metadata, t.name, t.meta))
  }

  /** The catalog after the loop has stored `ts` in order. */
  function AddTables(c: Catalog, ts: seq<Option<Table>>): (r: Catalog)
    requires c.WellFormed()
    ensures r.WellFormed()
  {
    if ts == [] then c
    else AddTable(AddTables(c, ts[..|ts| - 1]), ts[|ts| - 1])
  }

  /** The catalog after `load_all_datasets` has visited `files`. */
  function LoadFiles(c: Catalog, files: seq<CsvFile>, parse: string -> Option<Parsed>): (r: Catalog)
    requires c.WellFormed()
    ensures r.WellFormed()
  {
    AddTables(c, Loads(files, parse))
  }

  /** The names of the tables in `ts`, in order. */
  function LoadedNames(ts: seq<Option<Table>>): seq<string>
  {
    if ts == [] then []
    else
      var last := ts[|ts| - 1];
      LoadedNames(ts[..|ts| - 1]) + (if last.Some? then [last.value.name] else [])
  }

  /** Each name once, where it first occurs. */
  function FirstOccurrences(names: seq<string>): seq<string>
  {
    if names == [] then []
    else
      var init := names[..|names| - 1];
      FirstOccurrences(init) + (if names[|names| - 1] in init then [] else [names[|names| - 1]])
  }

  lemma {:induction false} FirstOccurrencesMembers(names: seq<string>, x: string)
    ensures x in FirstOccurrences(names) <==> x in names
  {
    if names != [] {
      var init := names[..|names| - 1];
      FirstOccurrencesMembers(init, x);
      assert names == init + [names[|names| - 1]];
    }
  }

  /** Loading one more file is one more pass of the loop. */
  lemma LoadFilesSnoc(c: Catalog, files: seq<CsvFile>, file: CsvFile, parse: string -> Option<Parsed>)
    requires c.WellFormed()
    ensures LoadFiles(c, files + [file], parse) == AddTable(LoadFiles(c, files, parse), Load(file, parse))
  {
    var ts := Loads(files + [file], parse);
    assert ts[..|files|] == Loads(files, parse);
  }

  lemma AddTableConsistent(c: Catalog, t: Option<Table>)
    requires c.Consistent() && (t.Some? ==> Describes(t.value.meta, t.value.frame))
    ensures AddTable(c, t).Consistent()
  {
  }

  /** Every table in `ts` carries metadata that describes it. */
  ghost predicate AllDescribed(ts: seq<Option<Table>>)
  {
    forall i :: 0 <= i < |ts| && ts[i].Some? ==> Describes(ts[i].value.meta, ts[i].value.frame)
  }

  lemma {:induction false} AddTablesConsistent(c: Catalog, ts: seq<Option<Table>>)
    requires c.Consistent() && AllDescribed(ts)
    ensures AddTables(c, ts).Consistent()
  {
    if ts != [] {
      var init := ts[..|ts| - 1];
      assert AllDescribed(init) by {
        forall i | 0 <= i < |init| && init[i].Some? ensures Describes(init[i].value.meta, init[i].value.frame) {
          assert init[i] == ts[i];
        }
      }
      AddTablesConsistent(c, init);
      AddTableConsistent(AddTables(c, init), ts[|ts| - 1]);
    }
  }

  /** Loading keeps `tables` and `metadata` in step. */
  lemma LoadKeepsConsistent(c: Catalog, files: seq<CsvFile>, parse: string -> Option<Parsed>)
    requires c.Consistent()
    ensures LoadFiles(c, files, parse).Consistent()
  {
    var ts := Loads(files, parse);
    assert AllDescribed(ts) by {
      forall i | 0 <= i < |ts| && ts[i].Some? ensures Describes(ts[i].value.meta, ts[i].value.frame) {
        assert ts[i] == Load(files[i], parse);
      }
    }
    AddTablesConsistent(c, ts);
  }

  /** A table is present afterwards exactly when it was before or one of
      `ts` carries its name. */
  lemma {:induction false} AddedMembership(c: Catalog, ts: seq<Option<Table>>, name: string)
    requires c.WellFormed()
    ensures name in AddTables(c, ts).tables.entries <==> name in c.tables.entries || name in LoadedNames(ts)
  {
    if ts != [] {
      AddedMembership(c, ts[..|ts| - 1], name);
    }
  }

  /** From an empty catalog, `get_all_tables` lists each loaded name once, in
      the order the names first loaded; a later file under the same name does
      not move it. */
  lemma {:induction false} AddedKeysInOrder(ts: seq<Option<Table>>)
    ensures AddTables(EmptyCatalog(), ts).tables.keys == FirstOccurrences(LoadedNames(ts))
  {
    if ts != [] {
      var init, last := ts[..|ts| - 1], ts[|ts| - 1];
      AddedKeysInOrder(init);
      var names, initNames := LoadedNames(ts), LoadedNames(init);
      match last
      case None =>
        assert names == initNames;
      case Some(t) =>
        assert names == initNames + [t.name];
        assert names[..|names| - 1] == initNames;
        AddedMembership(EmptyCatalog(), init, t.name);
        assert FirstOccurrences(names) == FirstOccurrences(initNames) + (if t.name in initNames then [] else [t.name]);
    }
  }

  /** The last table stored under a name decides both its frame and its
      metadata. */
  lemma {:induction false} LastAddWins(c: Catalog, ts: seq<Option<Table>>, i: nat)
    requires c.WellFormed() && i < |ts| && ts[i].Some?
    requires forall j :: i < j < |ts| && ts[j].Some? ==> ts[j].value.name != ts[i].value.name
    ensures var t, r := ts[i].value, AddTables(c, ts);
      t.name in r.tables.entries && r.tables.entries[t.name] == t.frame
      && t.name in r.metadata.entries && r.metadata.entries[t.name] == t.meta
  {
    if i < |ts| - 1 {
      var init := ts[..|ts| - 1];
      assert init[i] == ts[i];
      forall j | i < j < |init| && init[j].Some? ensures init[j].value.name != init[i].value.name {
        assert init[j] == ts[j];
      }
      LastAddWins(c, init, i);
    }
  }

  /** Storing one more entry is one more pass of the loop. */
  lemma AddTablesSnoc(c: Catalog, ts: seq<Option<Table>>, t: Option<Table>)
    requires c.WellFormed()
    ensures AddTables(c, ts + [t]) == AddTable(AddTables(c, ts), t)
  {
    assert (ts + [t])[..|ts|] == ts;
  }

  /** Storing nothing, wherever it stands in the sequence, changes nothing. */
  lemma {:induction false} NoneAddsNothing(c: Catalog, a: seq<Option<Table>>, b: seq<Option<Table>>)
    requires c.WellFormed()
    ensures AddTables(c, a + [None] + b) == AddTables(c, a + b)
  {
    if b == [] {
      AddTablesSnoc(c, a, None);
      assert a + [None] + b == a + [None] && a + b == a;
    } else {
      var n := |b| - 1;
      NoneAddsNothing(c, a, b[..n]);
      AddTablesSnoc(c, a + [None] + b[..n], b[n]);
      AddTablesSnoc(c, a + b[..n], b[n]);
      assert a + [None] + b == (a + [None] + b[..n]) + [b[n]];
      assert a + b == (a + b[..n]) + [b[n]];
    }
  }

  /** A file whose load raises leaves the catalog as it was, wherever it
      stands in the list. */
  lemma FailedFileAddsNothing(c: Catalog, a: seq<CsvFile>, bad: CsvFile, b: seq<CsvFile>, parse: string -> Option<Parsed>)
    requires c.WellFormed() && Load(bad, parse).None?
    ensures LoadFiles(c, a + [bad] + b, parse) == LoadFiles(c, a + b, parse)
  {
    LoadsAppend(a + [bad], b, parse);
    LoadsAppend(a, [bad], parse);
    LoadsAppend(a, b, parse);
    assert Loads([bad], parse) == [None];
    NoneAddsNothing(c, Loads(a, parse), Loads(b, parse));
  }

  lemma LoadsAppend(x: seq<CsvFile>, y: seq<CsvFile>, parse: string -> Option<Parsed>)
    ensures Loads(x + y, parse) == Loads(x, parse) + Loads(y, parse)
  {
    var l, r := Loads(x + y, parse), Loads(x, parse) + Loads(y, parse);
    forall k | 0 <= k < |l| ensures l[k] == r[k] {
      if k < |x| {
        assert (x + y)[k] == x[k];
      } else {
        assert (x + y)[k] == y[k - |x|];
      }
    }
  }

  // ---------------------------------------------------------------------------
  // Lookups

  /** `get_table_info`: one table's metadata (`NotFound` is the `{}` returned
      for an unknown name), or all of it when no name is given. */
  datatype TableInfo = Found(meta: TableMeta) | NotFound | Everything(all: Dict<string, TableMeta>)

  /** `[col for col in columns if keyword.lower() in col.lower()]` */
  function MatchingColumns(columns: seq<string>, keyword: string): (r: seq<string>)
    ensures |r| <= |columns|
  {
    if columns == [] then []
    else
      var last := columns[|columns| - 1];
      MatchingColumns(columns[..|columns| - 1], keyword)
        + (if Contains(Lower(last), Lower(keyword)) then [last] else [])
  }

  lemma {:induction false} MatchingColumnsIff(columns: seq<string>, keyword: string, col: string)
    ensures col in MatchingColumns(columns, keyword) <==> col in columns && Contains(Lower(col), Lower(keyword))
  {
    if columns != [] {
      var init := columns[..|columns| - 1];
      MatchingColumnsIff(init, keyword, col);
      assert columns == init + [columns[|columns| - 1]];
    }
  }

  /** An empty keyword matches every column. */
  lemma {:induction false} EmptyKeywordMatchesAll(columns: seq<string>)
    ensures MatchingColumns(columns, "") == columns
  {
    if columns != [] {
      EmptyKeywordMatchesAll(columns[..|columns| - 1]);
      assert StartsWith(Lower(columns[|columns| - 1]), "");
    }
  }

  /** The tables among `names` with at least one matching column, in order. */
  function TablesWithMatches(tables: Dict<string, Frame>, names: seq<string>, keyword: string): (r: seq<string>)
    requires forall k :: 0 <= k < |names| ==> names[k] in tables.entries
    ensures forall k :: 0 <= k < |r| ==> r[k] in tables.entries
  {
    if names == [] then []
    else
      var last := names[|names| - 1];
      TablesWithMatches(tables, names[..|names| - 1], keyword)
        + (if MatchingColumns(ColumnNames(tables.entries[last]), keyword) != [] then [last] else [])
  }

  /** The dict `search_columns` builds after visiting `names`. */
  function SearchResults(tables: Dict<string, Frame>, names: seq<string>, keyword: string): (r: Dict<string, seq<string>>)
    requires forall k :: 0 <= k < |names| ==> names[k] in tables.entries
    ensures r.Valid()
  {
    if names == [] then Empty()
    else
      var last := names[|names| - 1];
      var prev := SearchResults(tables, names[..|names| - 1], keyword);
      var matching := MatchingColumns(ColumnNames(tables.entries[last]), keyword);
      if matching != [] then Put(prev, last, matching) else prev
  }

  lemma SearchResultsSnoc(tables: Dict<string, Frame>, names: seq<string>, name: string, keyword: string)
    requires forall k :: 0 <= k < |names| ==> names[k] in tables.entries
    requires name in tables.entries
    ensures var matching := MatchingColumns(ColumnNames(tables.entries[name]), keyword);
      var prev := SearchResults(tables, names, keyword);
      SearchResults(tables, names + [name], keyword) == if matching != [] then Put(prev, name, matching) else prev
  {
    assert (names + [name])[..|names|] == names;
  }

  /** Over distinct table names, the search result lists exactly the tables
      with a matching column, in table order, each with its matching columns. */
  lemma {:induction false} SearchResultsCharacterised(tables: Dict<string, Frame>, names: seq<string>, keyword: string)
    requires forall k :: 0 <= k < |names| ==> names[k] in tables.entries
    requires Distinct(names)
    ensures SearchResults(tables, names, keyword).keys == TablesWithMatches(tables, names, keyword)
    ensures forall name :: name in SearchResults(tables, names, keyword).entries <==>
      name in names && MatchingColumns(ColumnNames(tables.entries[name]), keyword) != []
    ensures forall name :: name in SearchResults(tables, names, keyword).entries ==>
      SearchResults(tables, names, keyword).entries[name] == MatchingColumns(ColumnNames(tables.entries[name]), keyword)
  {
    if names != [] {
      var init := names[..|names| - 1];
      SearchResultsCharacterised(tables, init, keyword);
      assert names == init + [names[|names| - 1]];
      assert names[|names| - 1] !in init;
    }
  }

  class DataManager {
    var tables: Dict<string, Frame>
    var metadata: Dict<string, TableMeta>

    function Value(): Catalog
      reads this
    {
      Catalog(tables, metadata)
    }

    ghost predicate Valid()
      reads this
    {
      Value().Consistent()
    }

    /** A manager with nothing loaded. */
    constructor()
      ensures Valid() && tables == Empty() && metadata == Empty()
    {
      tables := Empty();
      metadata := Empty();
    }

    /** `load_all_datasets`: loads the files in the order given and returns
        the tables. */
    method LoadAllDatasets(files: seq<CsvFile>, parse: string -> Option<Parsed>) returns (loaded: Dict<string, Frame>)
      requires Valid()
      modifies this
      ensures Valid()
      ensures Value() == LoadFiles(old(Value()), files, parse)
      ensures loaded == tables
    {
      var i := 0;
      while i < |files|
        invariant 0 <= i <= |files|
        invariant Valid()
        invariant Value() == LoadFiles(old(Value()), files[..i], parse)
      {
        assert files[..i + 1] == files[..i] + [files[i]];
        LoadFilesSnoc(old(Value()), files[..i], files[i], parse);
        LoadOneFile(files[i], parse);
        i := i + 1;
      }
      assert files[..i] == files;
      loaded := tables;
    }

    /** The body of the file loop: one file's `try` block. */
    method LoadOneFile(file: CsvFile, parse: string -> Option<Parsed>)
      requires Valid()
      modifies this
      ensures Valid()
      ensures Value() == AddTable(old(Value()), Load(file, parse))
    {
      AddTableConsistent(Value(), Load(file, parse));
      if TableNameDefined(file.stem) && file.contents.Some? {
        var name := SanitizeTableName(file.stem);
        var df := CleanFrame(file.contents.value, parse);
        if df.Some? {
          tables := Put(tables, name, df.value);
          metadata := Put(metadata, name, MetaOf(file.fileName, df.value));
        }
      }
    }

    /** `get_all_tables`: every table name once, in insertion order. */
    function GetAllTables(): (names: seq<string>)
      reads this
      requires Valid()
      ensures names == tables.keys
      ensures Distinct(names)
      ensures forall name :: name in names <==> name in tables.entries
    {
      tables.keys
    }

    /** `get_table_info`: a falsy name (`None` or `""`) gives everything. */
    function GetTableInfo(name: Option<string>): (r: TableInfo)
      reads this
      requires Valid()
      ensures r.Everything? <==> name.None? || name.value == ""
      ensures r.Everything? ==> r.all == metadata
      ensures r.Found? <==> name.Some? && name.value != "" && name.value in tables.entries
      ensures r.Found? ==>
        r.meta == metadata.entries[name.value]
        && r.meta.rows == tables.entries[name.value].height
        && r.meta.columns == ColumnNames(tables.entries[name.value])
    {
      if name.None? || name.value == "" then Everything(metadata)
      else match Get(metadata, name.value)
        case Some(m) => Found(m)
        case None => NotFound
    }

    /** `get_sample_data`: the first rows of a known table, an empty frame for
        an unknown one. */
    function GetSampleData(name: string, n: int): (r: Frame)
      reads this
      ensures name !in tables.entries ==> r == EmptyFrame && IsEmpty(r)
      ensures name in tables.entries ==>
        var t := tables.entries[name];
        ColumnNames(r) == ColumnNames(t) && r.height <= t.height
        && (0 <= n ==> r.height == if n < t.height then n else t.height)
        && forall i :: 0 <= i < |t.columns| ==> r.columns[i].cells == Take(t.columns[i].cells, r.height)
    {
      if name in tables.entries then Head(tables.entries[name], n) else EmptyFrame
    }

    /** `search_columns`: the tables with a column containing the keyword,
        ignoring case, each with those columns in their original order. */
    method SearchColumns(keyword: string) returns (results: Dict<string, seq<string>>)
      requires Valid()
      ensures results == SearchResults(tables, tables.keys, keyword)
      ensures results.keys == TablesWithMatches(tables, tables.keys, keyword)
      ensures forall name :: name in results.entries <==>
        name in tables.entries && MatchingColumns(ColumnNames(tables.entries[name]), keyword) != []
      ensures forall name :: name in results.entries ==>
        results.entries[name] == MatchingColumns(ColumnNames(tables.entries[name]), keyword)
    {
      var keys := tables.keys;
      results := Empty();
      var i := 0;
      while i < |keys|
        invariant 0 <= i <= |keys|
        invariant results == SearchResults(tables, keys[..i], keyword)
      {
        assert keys[..i + 1] == keys[..i] + [keys[i]];
        SearchResultsSnoc(tables, keys[..i], keys[i], keyword);
        var matching := MatchingColumns(ColumnNames(tables.entries[keys[i]]), keyword);
        if matching != [] {
          results := Put(results, keys[i], matching);
        }
        i := i + 1;
      }
      assert keys[..i] == keys;
      SearchResultsCharacterised(tables, keys, keyword);
    }

    /** `generate_insights`: an entry, possibly empty, for every table, in
        table order. */
    method GenerateInsights() returns (insights: Dict<string, seq<Insight>>)
      requires Valid()
      ensures insights.Valid() && insights.keys == tables.keys
      ensures forall name :: name in tables.entries ==>
        name in insights.entries && insights.entries[name] == ExpectedInsights(tables.entries[name])
    {
      insights := Empty();
      var i := 0;
      while i < |tables.keys|
        invariant 0 <= i <= |tables.keys|
        invariant insights.Valid() && insights.keys == tables.keys[..i]
        invariant forall name :: name in insights.entries ==>
          name in tables.entries && insights.entries[name] == ExpectedInsights(tables.entries[name])
      {
        var name := tables.keys[i];
        assert name !in tables.keys[..i];
        var lines := TableInsights(tables.entries[name]);
        ghost var prev := insights;
        insights := Put(insights, name, lines);
        forall n | n in insights.entries
          ensures n in tables.entries && insights.entries[n] == ExpectedInsights(tables.entries[n])
        {
          if n != name {
            assert n in prev.entries;
          }
        }
        assert tables.keys[..i + 1] == tables.keys[..i] + [name];
        i := i + 1;
      }
      assert tables.keys[..i] == tables.keys;
    }
  }
}
