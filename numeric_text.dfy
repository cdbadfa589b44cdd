/**
 * The test `load_all_datasets` applies before converting an `object` column
 * to numbers: the first 100 non-null values, turned to text, must all match
 * `^-?\d+\.?\d*$` with Python's `re.match`.
 */
module NumericText {
  import opened Text
  import opened Frames

  predicate AllDigits(s: string)
  {
    forall i :: 0 <= i < |s| ==> IsDigit(s[i])
  }

  /** The length of the longest all-digit prefix. */
  function DigitRun(s: string): (n: nat)
    ensures n <= |s|
    ensures forall i :: 0 <= i < n ==> IsDigit(s[i])
    ensures n < |s| ==> !IsDigit(s[n])
  {
    if s != [] && IsDigit(s[0]) then 1 + DigitRun(s[1..]) else 0
  }

  /** The text after an optional leading `-`. */
  function Unsigned(s: string): string
  {
    if s != [] && s[0] == '-' then s[1..] else s
  }

  /** `-?\d+\.?\d*` matches the whole of `s`: a scan for the digits, then an
      optional dot followed by digits only. */
  predicate MatchesWhole(s: string)
  {
    var t := Unsigned(s);
    var n := DigitRun(t);
    n > 0 && (n == |t| || (t[n] == '.' && AllDigits(t[n + 1..])))
  }

  /** `re.match(r'^-?\d+\.?\d*$', s)`; Python's `$` also matches just before
      a final newline, so one trailing `"\n"` is accepted. */
  predicate IsNumericText(s: string)
  {
    MatchesWhole(s) || (s != [] && s[|s| - 1] == '\n' && MatchesWhole(s[..|s| - 1]))
  }

  /** Reference shape of an unsigned numeral: it starts with a digit and is made
      of digits and at most one dot. */
  ghost predicate NumeralShape(t: string)
  {
    t != [] && IsDigit(t[0])
    && (forall i :: 0 <= i < |t| ==> IsDigit(t[i]) || t[i] == '.')
    && (forall i, j :: 0 <= i < j < |t| && t[i] == '.' ==> t[j] != '.')
  }

  /** The scan accepts exactly an optional minus sign followed by a numeral. */
  lemma MatchesWholeIff(s: string)
    ensures MatchesWhole(s) <==> NumeralShape(s) || (s != [] && s[0] == '-' && NumeralShape(s[1..]))
  {
    var t := Unsigned(s);
    var n := DigitRun(t);
    if MatchesWhole(s) {
      forall m | n < m < |t| ensures IsDigit(t[m]) {
        assert t[n + 1..][m - n - 1] == t[m];
      }
    }
    if NumeralShape(s) || (s != [] && s[0] == '-' && NumeralShape(s[1..])) {
      assert NumeralShape(t);
      if n < |t| {
        assert t[n] == '.';
        var rest := t[n + 1..];
        forall k | 0 <= k < |rest| ensures IsDigit(rest[k]) {
          assert rest[k] == t[n + 1 + k];
        }
      }
    }
  }

  lemma DigitsAreNumeric()
    ensures IsNumericText("42") && IsNumericText("-3.") && IsNumericText("0.50") && IsNumericText("7\n")
  {
    assert DigitRun("42") == 2;
    assert DigitRun("3.") == 1;
    assert "3."[2..] == "";
    assert DigitRun("0.50") == 1;
    assert AllDigits("0.50"[2..]);
    assert DigitRun("7") == 1;
    assert "7\n"[..1] == "7";
  }

  lemma NonNumerals()
    ensures !IsNumericText("") && !IsNumericText("-") && !IsNumericText(".5")
    ensures !IsNumericText("1e5") && !IsNumericText("1.2.3") && !IsNumericText(" 1")
  {
    assert DigitRun("1e5") == 1;
    assert DigitRun("1.2.3") == 1;
    assert !AllDigits("1.2.3"[2..]) by { assert "1.2.3"[2..][1] == '.'; }
    assert "1e5"[..2] == "1e";
    assert "1.2.3"[..4] == "1.2.";
    assert DigitRun("1e") == 1;
    assert DigitRun("1.2.") == 1;
    assert !AllDigits("1.2."[2..]) by { assert "1.2."[2..][1] == '.'; }
  }

  // ---------------------------------------------------------------------------
  // The sample `df[col].dropna().head(100)`

  const SampleSize: nat := 100

  /** `cells.dropna().head(limit)` */
  function NonNullPrefix(cells: seq<Value>, limit: nat): (r: seq<Value>)
    ensures |r| <= limit
    ensures forall i :: 0 <= i < |r| ==> !r[i].Null?
  {
    if cells == [] || limit == 0 then []
    else if cells[0].Null? then NonNullPrefix(cells[1..], limit)
    else [cells[0]] + NonNullPrefix(cells[1..], limit - 1)
  }

  /** How many cells are not null. */
  function NonNulls(cells: seq<Value>): nat
  {
    if cells == [] then 0 else (if cells[0].Null? then 0 else 1) + NonNulls(cells[1..])
  }

  /** One sampled value passes `astype(str).str.match(...)`. `read_csv` leaves
      only texts in an `object` column; a number there is treated as failing. */
  predicate SampleValueMatches(v: Value)
  {
    v.Text? && IsNumericText(v.s)
  }

  /** The conversion test of `load_all_datasets`. */
  predicate ShouldConvertToNumeric(cells: seq<Value>)
  {
    var sample := NonNullPrefix(cells, SampleSize);
    |sample| > 0 && forall i :: 0 <= i < |sample| ==> SampleValueMatches(sample[i])
  }

  lemma {:induction false} SampleNonEmptyIff(cells: seq<Value>, limit: nat)
    ensures |NonNullPrefix(cells, limit)| > 0 <==>
      limit > 0 && exists i :: 0 <= i < |cells| && !cells[i].Null?
  {
    if cells != [] && limit > 0 {
      SampleNonEmptyIff(cells[1..], limit);
      if exists i :: 0 <= i < |cells| && !cells[i].Null? {
        var i :| 0 <= i < |cells| && !cells[i].Null?;
        if i > 0 { assert cells[1..][i - 1] == cells[i]; }
      }
      if exists i :: 0 <= i < |cells[1..]| && !cells[1..][i].Null? {
        var i :| 0 <= i < |cells[1..]| && !cells[1..][i].Null?;
        assert cells[i + 1] == cells[1..][i];
      }
    }
  }

  /** Every non-null cell preceded by fewer than `limit` non-null cells
      matches. */
  ghost predicate LeadingMatch(cells: seq<Value>, limit: nat)
  {
    forall i :: 0 <= i < |cells| && !cells[i].Null? && NonNulls(cells[..i]) < limit ==> SampleValueMatches(cells[i])
  }

  ghost predicate SampleMatches(cells: seq<Value>, limit: nat)
  {
    var sample := NonNullPrefix(cells, limit);
    forall k :: 0 <= k < |sample| ==> SampleValueMatches(sample[k])
  }

  lemma NonNullsOfLongerPrefix(cells: seq<Value>, i: nat)
    requires 1 <= i <= |cells|
    ensures NonNulls(cells[..i]) == (if cells[0].Null? then 0 else 1) + NonNulls(cells[1..][..i - 1])
  {
    assert cells[..i][1..] == cells[1..][..i - 1];
  }

  /** A cell is sampled exactly when it is not null and fewer than `limit`
      non-null cells come before it. */
  lemma {:induction false} SampleAllIff(cells: seq<Value>, limit: nat)
    ensures SampleMatches(cells, limit) <==> LeadingMatch(cells, limit)
  {
    if cells != [] && limit > 0 {
      var tail := cells[1..];
      var lim' := if cells[0].Null? then limit else limit - 1;
      SampleAllIff(tail, lim');
      assert NonNulls(cells[..0]) == 0;
      if LeadingMatch(cells, limit) {
        forall j | 0 <= j < |tail| && !tail[j].Null? && NonNulls(tail[..j]) < lim'
          ensures SampleValueMatches(tail[j])
        {
          NonNullsOfLongerPrefix(cells, j + 1);
          assert cells[j + 1] == tail[j];
        }
        assert LeadingMatch(tail, lim');
      }
      if SampleMatches(cells, limit) {
        assert SampleMatches(tail, lim') by {
          if !cells[0].Null? {
            var sample := NonNullPrefix(cells, limit);
            assert sample == [cells[0]] + NonNullPrefix(tail, lim');
            forall k | 0 <= k < |NonNullPrefix(tail, lim')|
              ensures SampleValueMatches(NonNullPrefix(tail, lim')[k])
            {
              assert sample[k + 1] == NonNullPrefix(tail, lim')[k];
            }
          }
        }
        forall i | 0 <= i < |cells| && !cells[i].Null? && NonNulls(cells[..i]) < limit
          ensures SampleValueMatches(cells[i])
        {
          if i == 0 {
            assert NonNullPrefix(cells, limit)[0] == cells[0];
          } else {
            NonNullsOfLongerPrefix(cells, i);
            assert cells[i] == tail[i - 1];
          }
        }
      }
    }
  }

  /** The conversion test in terms of positions: some value is non-null, and
      every non-null value among the first 100 is numeric text. */
  lemma ShouldConvertIff(cells: seq<Value>)
    ensures ShouldConvertToNumeric(cells) <==>
      (exists i :: 0 <= i < |cells| && !cells[i].Null?)
      && (forall i :: 0 <= i < |cells| && !cells[i].Null? && NonNulls(cells[..i]) < SampleSize ==> SampleValueMatches(cells[i]))
  {
    SampleNonEmptyIff(cells, SampleSize);
    SampleAllIff(cells, SampleSize);
  }

  lemma {:induction false} SampleOfPrefix(a: seq<Value>, b: seq<Value>, limit: nat)
    requires NonNulls(a) >= limit
    ensures NonNullPrefix(a + b, limit) == NonNullPrefix(a, limit)
  {
    if limit > 0 {
      assert a != [];
      assert (a + b)[1..] == a[1..] + b;
      SampleOfPrefix(a[1..], b, if a[0].Null? then limit else limit - 1);
    }
  }

  /** Only the first 100 non-null values are looked at: whatever follows them,
      even text that is not a number, does not change the decision. */
  lemma SampleIgnoresTail(a: seq<Value>, b: seq<Value>)
    requires NonNulls(a) >= SampleSize
    ensures ShouldConvertToNumeric(a + b) == ShouldConvertToNumeric(a)
  {
    SampleOfPrefix(a, b, SampleSize);
  }
}
