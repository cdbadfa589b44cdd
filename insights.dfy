/**
 * The automated insights of `DataManager.generate_insights`: columns are put
 * into buckets by keyword substrings of their lower-cased names, and every
 * numeric column in the amount bucket yields a total-and-average line, then
 * every numeric column in the quantity bucket a total line.
 */
module Insights {
  import opened Text
  import opened Frames

  const DateTerms: seq<string> := ["date", "month"]
  const AmountTerms: seq<string> := ["amount", "amt", "revenue", "sales", "gross", "rate", "mrp", "price"]
  const QuantityTerms: seq<string> := ["qty", "quantity", "pcs", "stock", "count"]

  /** Date columns are picked out but no insight is derived from them. */
  predicate IsDateColumn(name: string) { ContainsAny(Lower(name), DateTerms) }
  predicate IsAmountColumn(name: string) { ContainsAny(Lower(name), AmountTerms) }
  predicate IsQuantityColumn(name: string) { ContainsAny(Lower(name), QuantityTerms) }

  /** The dtype names `pd.api.types.is_numeric_dtype` accepts: numpy's
      integer, float, complex and boolean types and pandas' nullable ones. */
  const NumericDTypes: set<string> := {
    "int8", "int16", "int32", "int64", "uint8", "uint16", "uint32", "uint64",
    "float16", "float32", "float64", "complex64", "complex128", "bool",
    "Int8", "Int16", "Int32", "Int64", "UInt8", "UInt16", "UInt32", "UInt64",
    "Float32", "Float64", "boolean"
  }

  predicate IsNumericDType(dtype: string) { dtype in NumericDTypes }

  /** One line of a table's insights; the figures themselves are not modelled. */
  datatype Insight = TotalAndAverage(column: string) | Total(column: string)

  predicate YieldsAmount(c: Column) { IsAmountColumn(c.name) && IsNumericDType(c.dtype) }
  predicate YieldsQuantity(c: Column) { IsQuantityColumn(c.name) && IsNumericDType(c.dtype) }

  /** The total-and-average lines, in column order. */
  function AmountInsights(cols: seq<Column>): (r: seq<Insight>)
    ensures |r| <= |cols|
    ensures forall k :: 0 <= k < |r| ==> r[k].TotalAndAverage?
  {
    if cols == [] then []
    else
      var last := cols[|cols| - 1];
      AmountInsights(cols[..|cols| - 1]) + (if YieldsAmount(last) then [TotalAndAverage(last.name)] else [])
  }

  /** The total lines, in column order. */
  function QuantityInsights(cols: seq<Column>): (r: seq<Insight>)
    ensures |r| <= |cols|
    ensures forall k :: 0 <= k < |r| ==> r[k].Total?
  {
    if cols == [] then []
    else
      var last := cols[|cols| - 1];
      QuantityInsights(cols[..|cols| - 1]) + (if YieldsQuantity(last) then [Total(last.name)] else [])
  }

  /** Everything `generate_insights` lists for one table. */
  function ExpectedInsights(f: Frame): seq<Insight>
  {
    AmountInsights(f.columns) + QuantityInsights(f.columns)
  }

  /** The per-table body of `generate_insights`: one loop over the amount
      columns, then one over the quantity columns. */
  method TableInsights(f: Frame) returns (r: seq<Insight>)
    ensures r == ExpectedInsights(f)
  {
    var amounts: seq<Insight> := [];
    var i := 0;
    while i < |f.columns|
      invariant 0 <= i <= |f.columns|
      invariant amounts == AmountInsights(f.columns[..i])
    {
      assert f.columns[..i + 1][..i] == f.columns[..i];
      if YieldsAmount(f.columns[i]) {
        amounts := amounts + [TotalAndAverage(f.columns[i].name)];
      }
      i := i + 1;
    }
    assert f.columns[..i] == f.columns;
    var totals: seq<Insight> := [];
    i := 0;
    while i < |f.columns|
      invariant 0 <= i <= |f.columns|
      invariant totals == QuantityInsights(f.columns[..i])
    {
      assert f.columns[..i + 1][..i] == f.columns[..i];
      if YieldsQuantity(f.columns[i]) {
        totals := totals + [Total(f.columns[i].name)];
      }
      i := i + 1;
    }
    assert f.columns[..i] == f.columns;
    r := amounts + totals;
  }

  lemma {:induction false} AmountInsightsIff(cols: seq<Column>, name: string)
    ensures TotalAndAverage(name) in AmountInsights(cols) <==>
      exists i :: 0 <= i < |cols| && cols[i].name == name && YieldsAmount(cols[i])
  {
    if cols != [] {
      var n := |cols| - 1;
      AmountInsightsIff(cols[..n], name);
      assert forall i :: 0 <= i < n ==> cols[..n][i] == cols[i];
    }
  }

  lemma {:induction false} QuantityInsightsIff(cols: seq<Column>, name: string)
    ensures Total(name) in QuantityInsights(cols) <==>
      exists i :: 0 <= i < |cols| && cols[i].name == name && YieldsQuantity(cols[i])
  {
    if cols != [] {
      var n := |cols| - 1;
      QuantityInsightsIff(cols[..n], name);
      assert forall i :: 0 <= i < n ==> cols[..n][i] == cols[i];
    }
  }

  /** A table's insights: a total-and-average line for exactly the numeric
      amount columns, a total line for exactly the numeric quantity columns
      (a column in both buckets gets both), all total-and-average lines first,
      and at most two lines per column. */
  lemma InsightsCharacterised(f: Frame, name: string)
    ensures TotalAndAverage(name) in ExpectedInsights(f) <==>
      exists i :: 0 <= i < |f.columns| && f.columns[i].name == name && YieldsAmount(f.columns[i])
    ensures Total(name) in ExpectedInsights(f) <==>
      exists i :: 0 <= i < |f.columns| && f.columns[i].name == name && YieldsQuantity(f.columns[i])
    ensures forall j, k :: 0 <= j < k < |ExpectedInsights(f)| && ExpectedInsights(f)[k].TotalAndAverage? ==>
      ExpectedInsights(f)[j].TotalAndAverage?
    ensures |ExpectedInsights(f)| <= 2 * |f.columns|
  {
    AmountInsightsIff(f.columns, name);
    QuantityInsightsIff(f.columns, name);
    var a, q := AmountInsights(f.columns), QuantityInsights(f.columns);
    assert forall k :: 0 <= k < |q| ==> (a + q)[|a| + k] == q[k];
  }

  lemma SalesCountTerms()
    ensures IsAmountColumn("sales_count") && IsQuantityColumn("sales_count")
  {
    LowerNoUpper("sales_count");
    assert StartsWith("sales_count", "sales");
    assert OccursAt("sales_count", "count", 6);
    ContainsIff("sales_count", "count");
    ContainsAnyIff("sales_count", AmountTerms);
    ContainsAnyIff("sales_count", QuantityTerms);
    assert AmountTerms[3] == "sales";
    assert QuantityTerms[4] == "count";
  }

  /** A numeric column whose name falls in both buckets is reported twice. */
  lemma BothBuckets()
    ensures ExpectedInsights(Frame([Column("sales_count", "int64", [])], 0))
      == [TotalAndAverage("sales_count"), Total("sales_count")]
  {
    SalesCountTerms();
    var cols := [Column("sales_count", "int64", [])];
    assert cols[..0] == [];
  }
}
