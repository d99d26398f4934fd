/**
 `clean_macro`: the cleaner every chart runs its table through. It works on a
 copy of the caller's table, strips the `Type` labels when that column exists,
 drops the rows whose year or value did not coerce to a number, and sorts the
 rest by year.
 */
module Clean {
  import opened Wrappers
  import opened Sequences
  import opened Labels

  /**
   One row of a macro table after numeric coercion of its year and value
   cells: `None` is a cell that failed coercion (or was empty). `kind` is the
   `Type` cell, `None` when that cell is empty.
   */
  datatype Row = Row(year: Option<int>, value: Option<real>, kind: Option<string>)

  /** A macro table: its rows in file order, and whether it has a `Type` column. */
  datatype Frame = Frame(rows: seq<Row>, hasType: bool)

  /** Both the year and the value of `r` are numbers. */
  predicate Complete(r: Row) {
    r.year.Some? && r.value.Some?
  }

  /** The year of a complete row. */
  function YearOf(r: Row): int {
    match r.year
    case Some(y) => y
    case None => 0
  }

  /** The value of a complete row. */
  function ValueOf(r: Row): real {
    match r.value
    case Some(v) => v
    case None => 0.0
  }

  /** The sort key of `sort_values(year_col)`. */
  function YearKey(r: Row): real {
    YearOf(r) as real
  }

  /** `astype(str)`: an empty `Type` cell reads as the text "nan". */
  function KindText(kind: Option<string>): string {
    match kind
    case Some(t) => t
    case None => "nan"
  }

  /** The row with its `Type` label converted to text and stripped. */
  function StripKind(r: Row): Row {
    r.(kind := Some(Strip(KindText(r.kind))))
  }

  /** The table's rows after the column updates, before any row is dropped. */
  function Prepared(df: Frame): (rows: seq<Row>)
    ensures |rows| == |df.rows|
  {
    if df.hasType then seq(|df.rows|, i requires 0 <= i < |df.rows| => StripKind(df.rows[i]))
    else df.rows
  }

  /** `dropna(subset=[year_col, value_col]).sort_values(year_col)` on the updated rows. */
  function DropAndSort(rows: seq<Row>): seq<Row> {
    SortBy(Filter(rows, Complete), YearKey)
  }

  /** What `clean_macro` returns for `df`. */
  function Cleaned(df: Frame): Frame {
    Frame(DropAndSort(Prepared(df)), df.hasType)
  }

  /**
   `clean_macro(df, year_col, value_col)`: copies the rows, strips the `Type`
   labels of the copy in place, then filters and sorts.
   */
  method CleanMacro(df: Frame) returns (out: Frame)
    ensures out == Cleaned(df)
  {
    var n := |df.rows|;
    var a := new Row[n](i requires 0 <= i < n => df.rows[i]);
    if df.hasType {
      for i := 0 to n
        invariant forall k :: 0 <= k < i ==> a[k] == StripKind(df.rows[k])
        invariant forall k :: i <= k < n ==> a[k] == df.rows[k]
      {
        a[i] := StripKind(a[i]);
      }
    }
    var rows := a[..];
    assert |rows| == |Prepared(df)|;
    assert forall k :: 0 <= k < n ==> rows[k] == Prepared(df)[k];
    assert rows == Prepared(df);
    out := Frame(DropAndSort(rows), df.hasType);
  }

  /**
   What any correct `clean_macro` may return: the rows of `df` that coerced,
   with their labels stripped, in some order sorted by year. pandas does not
   promise how rows with equal years are ordered.
   */
  predicate IsCleaningOf(df: Frame, out: Frame) {
    && out.hasType == df.hasType
    && SortedBy(out.rows, YearKey)
    && multiset(out.rows) == multiset(Filter(Prepared(df), Complete))
  }

  /** Only the `Type` label is changed by the column updates, and only by stripping. */
  lemma PreparedRow(df: Frame, i: nat)
    requires i < |df.rows|
    ensures Prepared(df)[i].year == df.rows[i].year
    ensures Prepared(df)[i].value == df.rows[i].value
    ensures Complete(Prepared(df)[i]) <==> Complete(df.rows[i])
    ensures Prepared(df)[i].kind == if df.hasType then Some(Strip(KindText(df.rows[i].kind))) else df.rows[i].kind
  {
  }

  /**
   The cleaned table is sorted by year, holds only complete rows, and holds
   every complete row of `df` (label stripped) exactly as often as `df` does.
   */
  lemma CleanedIsCleaning(df: Frame)
    ensures IsCleaningOf(df, Cleaned(df))
    ensures forall r :: r in Cleaned(df).rows ==> Complete(r)
    ensures forall r :: multiset(Cleaned(df).rows)[r] == if Complete(r) then multiset(Prepared(df))[r] else 0
  {
    var c := Cleaned(df);
    FilterCounts(Prepared(df), Complete);
    forall r | r in c.rows ensures Complete(r) {
      assert r in multiset(c.rows);
    }
  }

  /**
   No row is invented: each cleaned row is a complete row of `df` with the
   same year and value and, where the table has a `Type` column, its stripped
   label; without one the row is unchanged.
   */
  lemma CleanedRowOrigin(df: Frame, r: Row)
    requires r in Cleaned(df).rows
    ensures exists i :: 0 <= i < |df.rows| && Complete(df.rows[i]) && r == Prepared(df)[i]
    ensures r.year.Some? && r.value.Some?
  {
    assert r in multiset(Cleaned(df).rows);
    FilterCounts(Prepared(df), Complete);
    assert r in multiset(Prepared(df));
    var i :| 0 <= i < |Prepared(df)| && Prepared(df)[i] == r;
    PreparedRow(df, i);
  }

  /** No usable row is lost: every complete row of `df`, as updated, is in the cleaned table. */
  lemma CompleteRowSurvives(df: Frame, i: nat)
    requires i < |df.rows| && Complete(df.rows[i])
    ensures Prepared(df)[i] in Cleaned(df).rows
  {
    var r := Prepared(df)[i];
    PreparedRow(df, i);
    assert r in multiset(Prepared(df));
    CleanedIsCleaning(df);
    assert r in multiset(Cleaned(df).rows);
  }

  /** Where the table has a `Type` column, every cleaned row carries a stripped label. */
  lemma CleanedKindsStripped(df: Frame, r: Row)
    requires df.hasType && r in Cleaned(df).rows
    ensures r.kind.Some? && Unpadded(r.kind.value)
  {
    CleanedRowOrigin(df, r);
  }

  /** Every row of a correct cleaning is complete. */
  lemma CleaningRowsComplete(df: Frame, once: Frame)
    requires IsCleaningOf(df, once)
    ensures forall r :: r in once.rows ==> Complete(r)
  {
    FilterCounts(Prepared(df), Complete);
    forall r | r in once.rows ensures Complete(r) {
      assert r in multiset(once.rows);
    }
  }

  /** A correct cleaning is left as it is by the column updates and by the drop. */
  lemma CleaningIsFixed(df: Frame, once: Frame)
    requires IsCleaningOf(df, once)
    ensures Prepared(once) == once.rows
    ensures Filter(once.rows, Complete) == once.rows
  {
    if once.hasType {
      forall i | 0 <= i < |once.rows| ensures Prepared(once)[i] == once.rows[i] {
        OnceKindStripped(df, once, i);
      }
    }
    CleaningRowsComplete(df, once);
    FilterAll(once.rows, Complete);
  }

  /** Cleaning a cleaned table changes nothing. */
  lemma CleanedIdempotent(df: Frame)
    ensures Cleaned(Cleaned(df)) == Cleaned(df)
  {
    var c := Cleaned(df);
    CleanedIsCleaning(df);
    CleaningIsFixed(df, c);
    SortBySorted(c.rows, YearKey);
  }

  /**
   Cleaning twice, with any sort, gives the rows of a single cleaning with
   the same sequence of years, whatever order pandas gives equal years.
   */
  lemma CleanTwiceKeepsRowsAndYears(df: Frame, once: Frame, twice: Frame)
    requires IsCleaningOf(df, once) && IsCleaningOf(once, twice)
    ensures multiset(twice.rows) == multiset(once.rows)
    ensures |twice.rows| == |once.rows|
    ensures forall i :: 0 <= i < |once.rows| ==> YearOf(twice.rows[i]) == YearOf(once.rows[i])
  {
    CleaningIsFixed(df, once);
    SortedPermutationsAgreeOnKeys(twice.rows, once.rows, YearKey);
  }

  /** A row of a correct cleaning of a table with a `Type` column carries an already stripped label. */
  lemma OnceKindStripped(df: Frame, once: Frame, i: nat)
    requires IsCleaningOf(df, once) && once.hasType && i < |once.rows|
    ensures StripKind(once.rows[i]) == once.rows[i]
  {
    var r := once.rows[i];
    assert r in multiset(once.rows);
    var prepared := Prepared(df);
    FilterCounts(prepared, Complete);
    assert multiset(Filter(prepared, Complete))[r] > 0;
    assert r in multiset(prepared);
    var j :| 0 <= j < |prepared| && prepared[j] == r;
    var t := KindText(df.rows[j].kind);
    assert r.kind == Some(Strip(t));
    StripIdempotent(t);
  }

  /** Two correct cleanings of one table put the same years in the same order. */
  lemma CleaningsAgreeOnYears(df: Frame, c1: Frame, c2: Frame)
    requires IsCleaningOf(df, c1) && IsCleaningOf(df, c2)
    ensures |c1.rows| == |c2.rows|
    ensures forall i :: 0 <= i < |c1.rows| ==> YearOf(c1.rows[i]) == YearOf(c2.rows[i])
  {
    SortedPermutationsAgreeOnKeys(c1.rows, c2.rows, YearKey);
  }

  /**
   The worked example: a row whose value did not parse is dropped, and the
   other rows keep their years, values and (already unpadded) labels, in
   year order.
   */
  lemma ExampleDropsUnparsedValue(df: Frame, hist: string, fcst: string)
    requires Unpadded(hist) && Unpadded(fcst)
    requires df == Frame([Row(Some(2021), Some(2.3), Some(hist)),
                          Row(Some(2022), None, Some(hist)),
                          Row(Some(2023), Some(1.1), Some(fcst))], true)
    ensures Cleaned(df) == Frame([df.rows[0], df.rows[2]], true)
  {
    var r1, r2, r3 := df.rows[0], df.rows[1], df.rows[2];
    StripUnpadded(hist);
    StripUnpadded(fcst);
    assert Prepared(df) == df.rows;
    assert Filter(df.rows[2..], Complete) == [r3] by {
      assert df.rows[2..] == [r3] && df.rows[2..][1..] == [];
    }
    assert Filter(df.rows[1..], Complete) == [r3] by {
      assert df.rows[1..][1..] == df.rows[2..];
    }
    assert Filter(df.rows, Complete) == [r1, r3];
    SortBySorted([r1, r3], YearKey);
  }

  /**
   The years of the cleaned table are, up to order, the years of the rows
   whose year and value coerced, read off the caller's table in file order.
   */
  lemma CleanedYears(df: Frame)
    ensures multiset(Map(Cleaned(df).rows, YearOf)) == multiset(Map(Filter(df.rows, Complete), YearOf))
  {
    var prepared := Prepared(df);
    forall i | 0 <= i < |prepared|
      ensures Complete(prepared[i]) == Complete(df.rows[i])
      ensures Complete(prepared[i]) ==> YearOf(prepared[i]) == YearOf(df.rows[i])
    {
      PreparedRow(df, i);
    }
    FilterMapAgree(prepared, df.rows, Complete, YearOf);
    MapPermutation(Cleaned(df).rows, Filter(prepared, Complete), YearOf);
  }
}
