/**
 * `DataManager._sanitize_table_name` and `DataManager._sanitize_column_name`:
 * turning a file stem or a CSV header into an SQL identifier.
 */
module Identifiers {
  import opened Text

  /** `s.replace(c, by)` for a one-character pattern. */
  function ReplaceChar(s: string, c: char, repl: string): (r: string)
  {
    if s == [] then [] else (if s[0] == c then repl else [s[0]]) + ReplaceChar(s[1..], c, repl)
  }

  /** The filter `c.isalnum() or c == '_'`. */
  predicate IsKept(c: char) { IsAlnum(c) || c == '_' }

  /** `''.join(c for c in s if c.isalnum() or c == '_')` */
  function KeepIdentChars(s: string): (r: string)
    ensures forall i :: 0 <= i < |r| ==> IsKept(r[i])
  {
    if s == [] then [] else (if IsKept(s[0]) then [s[0]] else []) + KeepIdentChars(s[1..])
  }

  /** The characters a sanitised name is made of. */
  predicate IsIdentChar(c: char) { IsLowerLetter(c) || IsDigit(c) || c == '_' }

  predicate IsIdentifierText(s: string) { forall i :: 0 <= i < |s| ==> IsIdentChar(s[i]) }

  /** The three replacements of the table sanitiser, in the source's order. */
  function TableReplacements(name: string): string
  {
    ReplaceChar(ReplaceChar(ReplaceChar(name, ' ', "_"), '-', "_"), '&', "and")
  }

  /** The name after replacing and filtering, before the digit rule and lower-casing. */
  function TableFiltered(name: string): string
  {
    KeepIdentChars(TableReplacements(name))
  }

  /** The sanitiser reads `name[0]` of the filtered name, which raises
      `IndexError` when nothing survives the filter. */
  predicate TableNameDefined(name: string)
  {
    TableFiltered(name) != []
  }

  /** `_sanitize_table_name` */
  function SanitizeTableName(name: string): (r: string)
    requires TableNameDefined(name)
    ensures r != [] && !IsDigit(r[0])
    ensures IsIdentifierText(r)
  {
    var kept := TableFiltered(name);
    var prefixed := if IsDigit(kept[0]) then "table_" + kept else kept;
    assert forall i :: 0 <= i < |prefixed| ==> IsKept(prefixed[i]);
    Lower(prefixed)
  }

  /** `_sanitize_column_name`: strip, two replacements, filter, lower-case. */
  function SanitizeColumnName(name: string): (r: string)
    ensures IsIdentifierText(r)
  {
    Lower(KeepIdentChars(ReplaceChar(ReplaceChar(Strip(name), ' ', "_"), '-', "_")))
  }

  // ---------------------------------------------------------------------------
  // Character-by-character reference definitions

  /** What one input character becomes in a table name. */
  function TableChar(c: char): string
  {
    if c == ' ' || c == '-' then "_"
    else if c == '&' then "and"
    else if IsKept(c) then [c]
    else []
  }

  /** What one input character becomes in a column name (`&` is dropped). */
  function ColumnChar(c: char): string
  {
    if c == ' ' || c == '-' then "_"
    else if IsKept(c) then [c]
    else []
  }

  function ExpandTable(s: string): string
  {
    if s == [] then [] else TableChar(s[0]) + ExpandTable(s[1..])
  }

  function ExpandColumn(s: string): string
  {
    if s == [] then [] else ColumnChar(s[0]) + ExpandColumn(s[1..])
  }

  lemma {:induction false} ReplaceAppend(a: string, b: string, c: char, repl: string)
    ensures ReplaceChar(a + b, c, repl) == ReplaceChar(a, c, repl) + ReplaceChar(b, c, repl)
  {
    if a == [] {
      assert a + b == b;
    } else {
      assert (a + b)[1..] == a[1..] + b;
      ReplaceAppend(a[1..], b, c, repl);
    }
  }

  lemma {:induction false} KeepAppend(a: string, b: string)
    ensures KeepIdentChars(a + b) == KeepIdentChars(a) + KeepIdentChars(b)
  {
    if a == [] {
      assert a + b == b;
    } else {
      assert (a + b)[1..] == a[1..] + b;
      KeepAppend(a[1..], b);
    }
  }

  /** Replacing then filtering acts on each character on its own: each space and
      `-` becomes exactly one `_`, each `&` becomes `and`, other kept characters
      stay in order and the rest disappear; runs are never collapsed. */
  lemma {:induction false} TableFilteredPerChar(name: string)
    ensures TableFiltered(name) == ExpandTable(name)
  {
    if name != [] {
      var c, rest := name[0], name[1..];
      assert name == [c] + rest;
      var r1 := ReplaceChar([c], ' ', "_");
      ReplaceAppend([c], rest, ' ', "_");
      var r2 := ReplaceChar(r1, '-', "_");
      ReplaceAppend(r1, ReplaceChar(rest, ' ', "_"), '-', "_");
      var r3 := ReplaceChar(r2, '&', "and");
      ReplaceAppend(r2, ReplaceChar(ReplaceChar(rest, ' ', "_"), '-', "_"), '&', "and");
      assert TableReplacements(name) == r3 + TableReplacements(rest);
      KeepAppend(r3, TableReplacements(rest));
      TableReplacementsOfChar(c);
      TableFilteredPerChar(rest);
    }
  }

  lemma ReplaceSingle(c: char, d: char, repl: string)
    ensures ReplaceChar([c], d, repl) == if c == d then repl else [c]
  {
    assert [c][1..] == [];
  }

  lemma KeepSingle(c: char)
    ensures KeepIdentChars([c]) == if IsKept(c) then [c] else []
  {
    assert [c][1..] == [];
  }

  /** `and` survives the filter whole. */
  lemma KeepAnd()
    ensures KeepIdentChars("and") == "and"
  {
    assert "and" == ['a'] + "nd";
    assert "nd" == ['n'] + "d";
    KeepAppend(['a'], "nd");
    KeepAppend(['n'], "d");
    KeepSingle('a');
    KeepSingle('n');
    KeepSingle('d');
  }

  lemma TableReplacementsOfChar(c: char)
    ensures KeepIdentChars(ReplaceChar(ReplaceChar(ReplaceChar([c], ' ', "_"), '-', "_"), '&', "and")) == TableChar(c)
  {
    ReplaceSingle(c, ' ', "_");
    if c == ' ' || c == '-' {
      ReplaceSingle(c, '-', "_");
      ReplaceSingle('_', '-', "_");
      ReplaceSingle('_', '&', "and");
      KeepSingle('_');
    } else {
      ReplaceSingle(c, '-', "_");
      ReplaceSingle(c, '&', "and");
      if c == '&' {
        KeepAnd();
      } else {
        KeepSingle(c);
      }
    }
  }

  lemma ColumnReplacementsOfChar(c: char)
    ensures KeepIdentChars(ReplaceChar(ReplaceChar([c], ' ', "_"), '-', "_")) == ColumnChar(c)
  {
    ReplaceSingle(c, ' ', "_");
    ReplaceSingle('_', '-', "_");
    ReplaceSingle(c, '-', "_");
    KeepSingle(c);
    KeepSingle('_');
  }

  lemma {:induction false} ColumnFilteredPerChar(s: string)
    ensures KeepIdentChars(ReplaceChar(ReplaceChar(s, ' ', "_"), '-', "_")) == ExpandColumn(s)
  {
    if s != [] {
      var c, rest := s[0], s[1..];
      assert s == [c] + rest;
      var r1 := ReplaceChar([c], ' ', "_");
      ReplaceAppend([c], rest, ' ', "_");
      var r2 := ReplaceChar(r1, '-', "_");
      ReplaceAppend(r1, ReplaceChar(rest, ' ', "_"), '-', "_");
      KeepAppend(r2, ReplaceChar(ReplaceChar(rest, ' ', "_"), '-', "_"));
      ColumnReplacementsOfChar(c);
      ColumnFilteredPerChar(rest);
    }
  }

  /** The table sanitiser against the per-character definition: a name whose
      expansion starts with a digit gets exactly the prefix `table_`. */
  lemma TableNameCharacterised(name: string)
    requires TableNameDefined(name)
    ensures ExpandTable(name) != []
    ensures IsDigit(ExpandTable(name)[0]) ==> SanitizeTableName(name) == "table_" + Lower(ExpandTable(name))
    ensures !IsDigit(ExpandTable(name)[0]) ==> SanitizeTableName(name) == Lower(ExpandTable(name))
  {
    TableFilteredPerChar(name);
    var e := ExpandTable(name);
    if IsDigit(e[0]) {
      LowerAppend("table_", e);
      LowerNoUpper("table_");
    }
  }

  /** The column sanitiser against the per-character definition; there is no
      digit rule, so a column name may start with a digit. */
  lemma ColumnNameCharacterised(name: string)
    ensures SanitizeColumnName(name) == Lower(ExpandColumn(Strip(name)))
  {
    ColumnFilteredPerChar(Strip(name));
  }

  /** The table sanitiser is defined exactly when the name has a character that
      survives: a letter, a digit, `_`, a space, `-` or `&`. */
  lemma {:induction false} TableNameDefinedIff(name: string)
    ensures TableNameDefined(name) <==>
      exists i :: 0 <= i < |name| && TableChar(name[i]) != []
  {
    TableFilteredPerChar(name);
    ExpandTableNonEmptyIff(name);
  }

  lemma {:induction false} ExpandTableNonEmptyIff(name: string)
    ensures ExpandTable(name) != [] <==> exists i :: 0 <= i < |name| && TableChar(name[i]) != []
  {
    if name != [] {
      ExpandTableNonEmptyIff(name[1..]);
      if exists i :: 0 <= i < |name| && TableChar(name[i]) != [] {
        var i :| 0 <= i < |name| && TableChar(name[i]) != [];
        if i > 0 { assert name[1..][i - 1] == name[i]; }
      }
      if exists i :: 0 <= i < |name[1..]| && TableChar(name[1..][i]) != [] {
        var i :| 0 <= i < |name[1..]| && TableChar(name[1..][i]) != [];
        assert name[i + 1] == name[1..][i];
      }
    }
  }

  // ---------------------------------------------------------------------------
  // Idempotence

  lemma {:induction false} ReplaceAbsent(s: string, c: char, repl: string)
    requires forall i :: 0 <= i < |s| ==> s[i] != c
    ensures ReplaceChar(s, c, repl) == s
  {
    if s != [] {
      ReplaceAbsent(s[1..], c, repl);
    }
  }

  lemma {:induction false} KeepIdentity(s: string)
    requires forall i :: 0 <= i < |s| ==> IsKept(s[i])
    ensures KeepIdentChars(s) == s
  {
    if s != [] {
      KeepIdentity(s[1..]);
    }
  }

  /** A sanitised text passes through replacing, filtering and lower-casing unchanged. */
  lemma IdentifierTextIsFixed(s: string)
    requires IsIdentifierText(s)
    ensures TableFiltered(s) == s
    ensures KeepIdentChars(ReplaceChar(ReplaceChar(s, ' ', "_"), '-', "_")) == s
    ensures Lower(s) == s
  {
    ReplaceAbsent(s, ' ', "_");
    ReplaceAbsent(s, '-', "_");
    ReplaceAbsent(s, '&', "and");
    KeepIdentity(s);
  }

  /** Sanitising an already sanitised table name returns it unchanged. */
  lemma TableSanitiserIdempotent(name: string)
    requires TableNameDefined(name)
    ensures TableNameDefined(SanitizeTableName(name))
    ensures SanitizeTableName(SanitizeTableName(name)) == SanitizeTableName(name)
  {
    IdentifierTextIsFixed(SanitizeTableName(name));
  }

  /** Sanitising an already sanitised column name returns it unchanged. */
  lemma ColumnSanitiserIdempotent(name: string)
    ensures SanitizeColumnName(SanitizeColumnName(name)) == SanitizeColumnName(name)
  {
    var r := SanitizeColumnName(name);
    if r != [] {
      assert !IsSpace(r[0]);
    }
    assert TrimStart(r) == r;
    if r != [] {
      assert !IsSpace(r[|r| - 1]);
    }
    assert TrimEnd(r) == r;
    IdentifierTextIsFixed(r);
  }

  // ---------------------------------------------------------------------------
  // Examples

  lemma ExpandRun()
    ensures ExpandTable("a  b") == "a__b"
  {
  }

  /** Runs of separators are not collapsed. */
  lemma NoCollapse()
    ensures TableNameDefined("a  b") && SanitizeTableName("a  b") == "a__b"
  {
    ExpandRun();
    LowerNoUpper("a__b");
    TableNameCharacterised("a  b");
  }

  lemma ExpandDigitFirst()
    ensures ExpandTable("7 a") == "7_a"
  {
  }

  lemma DigitFirstSanitised(name: string)
    requires ExpandTable(name) == "7_a"
    ensures TableNameDefined(name) && SanitizeTableName(name) == "table_7_a"
  {
    TableFilteredPerChar(name);
    LowerNoUpper("7_a");
    TableNameCharacterised(name);
  }

  /** A stem starting with a digit gets the `table_` prefix. */
  lemma DigitPrefixTable()
    ensures TableNameDefined("7 a") && SanitizeTableName("7 a") == "table_7_a"
  {
    ExpandDigitFirst();
    DigitFirstSanitised("7 a");
  }

  lemma ExpandColumnNothing()
    ensures ExpandColumn("(%)") == ""
  {
  }

  /** A column name with no surviving character sanitises to the empty string. */
  lemma NothingSurvivesColumn()
    ensures SanitizeColumnName("(%)") == ""
  {
    ExpandColumnNothing();
    ColumnNameCharacterised("(%)");
    assert Lower(ExpandColumn(Strip("(%)"))) == "" by {
      StripKeepsNonSpace("(%)");
    }
  }

  lemma StripKeepsNonSpace(s: string)
    requires s != [] && !IsSpace(s[0]) && !IsSpace(s[|s| - 1])
    ensures Strip(s) == s
  {
    assert TrimStart(s) == s;
  }

  lemma ExpandTableNothing()
    ensures ExpandTable("(%)") == ""
  {
  }

  /** The table sanitiser is not defined on the same name. */
  lemma NothingSurvivesTable()
    ensures !TableNameDefined("(%)")
  {
    ExpandTableNothing();
    TableFilteredPerChar("(%)");
  }
}
