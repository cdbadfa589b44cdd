/**
 * The report of the validation stage: whether any data came back, the
 * per-column null shares, and the warnings and recommendations derived from
 * them.
 */
module Validation {
  import opened Wrappers
  import opened PyDict
  import opened Frames

  /** A warning of the report; the percentage text of `HighNulls` is not
      modelled, only the counts it is computed from. */
  datatype Warning = NoData | HighNulls(column: string, nulls: nat, rows: nat) | LargeResult

  const NoDataRecommendation: string := "Check if the query matches available data"

  /** Results with more rows than this draw a warning. */
  const LargeResultRows: nat := 10000

  /** `data_quality`: row and column counts and the null count of each
      column label, from which `null_percentages` is computed. */
  datatype Quality = Quality(rowCount: nat, columnCount: nat, nullCounts: Dict<string, nat>)

  /** `validation_result`; `dataQuality` is `None` where the source leaves `{}`. */
  datatype ValidationResult = ValidationResult(
    isValid: bool, dataQuality: Option<Quality>, warnings: seq<Warning>, recommendations: seq<string>)

  /** `isnull().sum(...).to_dict()`: one entry per column label; a repeated
      label keeps its first position and its last column's count. */
  function NullCounts(data: Frame): (d: Dict<string, nat>)
    ensures d.Valid()
  {
    FromPairs(seq(|data.columns|, i requires 0 <= i < |data.columns| =>
      (data.columns[i].name, NullCount(data.columns[i].cells))))
  }

  /** With distinct labels every column gets its own count, in column order. */
  lemma NullCountsOfDistinct(data: Frame)
    requires Distinct(ColumnNames(data))
    ensures NullCounts(data).keys == ColumnNames(data)
    ensures forall i :: 0 <= i < |data.columns| ==>
      NullCounts(data).entries[data.columns[i].name] == NullCount(data.columns[i].cells)
  {
    var pairs := seq(|data.columns|, i requires 0 <= i < |data.columns| =>
      (data.columns[i].name, NullCount(data.columns[i].cells)));
    assert Firsts(pairs) == ColumnNames(data);
    FromDistinctPairs(pairs);
  }

  /** `null_pct > 50` with `null_pct = nulls / rows * 100`, in integers. */
  predicate MostlyNull(nulls: nat, rows: nat)
  {
    100 * nulls > 50 * rows
  }

  /** The warnings of the null loop over `names`, in order. */
  function NullWarnings(counts: Dict<string, nat>, names: seq<string>, rows: nat): (w: seq<Warning>)
    requires forall k :: 0 <= k < |names| ==> names[k] in counts.entries
    ensures |w| <= |names|
    ensures forall k :: 0 <= k < |w| ==> w[k].HighNulls?
  {
    if names == [] then []
    else
      var last := names[|names| - 1];
      NullWarnings(counts, names[..|names| - 1], rows)
        + (if MostlyNull(counts.entries[last], rows) then [HighNulls(last, counts.entries[last], rows)] else [])
  }

  /** The report for a query result. */
  function ValidationOf(data: Frame): (v: ValidationResult)
    ensures v.isValid <==> !IsEmpty(data)
    ensures IsEmpty(data) ==>
      v.dataQuality.None? && v.warnings == [NoData] && v.recommendations == [NoDataRecommendation]
    ensures !IsEmpty(data) ==>
      v.dataQuality.Some? && v.dataQuality.value.rowCount == data.height
      && v.dataQuality.value.columnCount == |data.columns| && v.recommendations == []
  {
    if IsEmpty(data) then ValidationResult(false, None, [NoData], [NoDataRecommendation])
    else
      var counts := NullCounts(data);
      var large := if data.height > LargeResultRows then [LargeResult] else [];
      ValidationResult(true, Some(Quality(data.height, |data.columns|, counts)),
        NullWarnings(counts, counts.keys, data.height) + large, [])
  }

  /** The loop over `null_percentages`. */
  method WarnHighNulls(counts: Dict<string, nat>, rows: nat) returns (warnings: seq<Warning>)
    requires counts.Valid()
    ensures warnings == NullWarnings(counts, counts.keys, rows)
  {
    var keys := counts.keys;
    warnings := [];
    var i := 0;
    while i < |keys|
      invariant 0 <= i <= |keys|
      invariant warnings == NullWarnings(counts, keys[..i], rows)
    {
      assert keys[..i + 1][..i] == keys[..i];
      var nulls := counts.entries[keys[i]];
      if MostlyNull(nulls, rows) {
        warnings := warnings + [HighNulls(keys[i], nulls, rows)];
      }
      i := i + 1;
    }
    assert keys[..i] == keys;
  }

  /** `validation_agent`'s checks. */
  method Validate(data: Frame) returns (v: ValidationResult)
    ensures v == ValidationOf(data)
  {
    if IsEmpty(data) {
      return ValidationResult(false, None, [NoData], [NoDataRecommendation]);
    }
    var counts := NullCounts(data);
    var warnings := WarnHighNulls(counts, data.height);
    if data.height > LargeResultRows {
      warnings := warnings + [LargeResult];
    }
    v := ValidationResult(true, Some(Quality(data.height, |data.columns|, counts)), warnings, []);
  }

  lemma {:induction false} NullWarningsIff(counts: Dict<string, nat>, names: seq<string>, rows: nat, w: Warning)
    requires forall k :: 0 <= k < |names| ==> names[k] in counts.entries
    ensures w in NullWarnings(counts, names, rows) <==>
      w.HighNulls? && w.column in names && w.nulls == counts.entries[w.column] && w.rows == rows
      && MostlyNull(w.nulls, rows)
  {
    if names != [] {
      var init := names[..|names| - 1];
      NullWarningsIff(counts, init, rows, w);
      assert names == init + [names[|names| - 1]];
    }
  }

  /** No column label is warned about twice. */
  ghost predicate WarnedOnce(ws: seq<Warning>)
  {
    forall i, j :: 0 <= i < j < |ws| && ws[i].HighNulls? && ws[j].HighNulls? ==> ws[i].column != ws[j].column
  }

  /** The large-result warning, if present, comes last. */
  ghost predicate LargeLast(ws: seq<Warning>)
  {
    forall i :: 0 <= i < |ws| && ws[i] == LargeResult ==> i == |ws| - 1
  }

  /** Over distinct names, no column is warned about twice. */
  lemma {:induction false} NullWarningsDistinct(counts: Dict<string, nat>, names: seq<string>, rows: nat)
    requires forall k :: 0 <= k < |names| ==> names[k] in counts.entries
    requires Distinct(names)
    ensures WarnedOnce(NullWarnings(counts, names, rows))
  {
    if names != [] {
      var init := names[..|names| - 1];
      var last := names[|names| - 1];
      NullWarningsDistinct(counts, init, rows);
      var prev := NullWarnings(counts, init, rows);
      forall i | 0 <= i < |prev| ensures prev[i].column != last {
        NullWarningsIff(counts, init, rows, prev[i]);
        assert last !in init;
      }
    }
  }

  /** The warnings of a non-empty result, over its null counts. */
  lemma ReportWarnings(counts: Dict<string, nat>, rows: nat, w: Warning)
    requires counts.Valid()
    ensures var ws := NullWarnings(counts, counts.keys, rows) + (if rows > LargeResultRows then [LargeResult] else []);
      (w.HighNulls? ==> (w in ws <==>
        w.column in counts.entries && w.nulls == counts.entries[w.column] && w.rows == rows && MostlyNull(w.nulls, rows)))
      && (LargeResult in ws <==> rows > LargeResultRows)
      && NoData !in ws && WarnedOnce(ws) && LargeLast(ws)
  {
    var nulls := NullWarnings(counts, counts.keys, rows);
    NullWarningsIff(counts, counts.keys, rows, w);
    NullWarningsDistinct(counts, counts.keys, rows);
    assert LargeResult !in nulls && NoData !in nulls;
  }

  /** For a non-empty result: one warning for each column label whose nulls
      exceed half the rows, each label at most once, then the large-result
      warning exactly when there are more than 10000 rows, always last. */
  lemma NonEmptyReport(data: Frame, w: Warning)
    requires !IsEmpty(data)
    ensures w.HighNulls? ==> (w in ValidationOf(data).warnings <==>
      w.column in NullCounts(data).entries && w.nulls == NullCounts(data).entries[w.column]
      && w.rows == data.height && MostlyNull(w.nulls, data.height))
    ensures LargeResult in ValidationOf(data).warnings <==> data.height > LargeResultRows
    ensures NoData !in ValidationOf(data).warnings
    ensures WarnedOnce(ValidationOf(data).warnings) && LargeLast(ValidationOf(data).warnings)
  {
    ReportWarnings(NullCounts(data), data.height, w);
  }
}
