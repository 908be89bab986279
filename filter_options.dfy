/** The option lists of the three sidebar selectors. */
module FilterOptions {
  import opened Wrappers
  import opened Reviews
  import opened StringOrder

  /** `dropna()`: the non-missing values of a column. */
  function PresentValues(vs: seq<Option<string>>): (r: seq<string>)
    ensures forall x :: x in r <==> Some(x) in vs
  {
    if vs == [] then []
    else
      assert vs == [vs[0]] + vs[1..];
      (if vs[0].Some? then [vs[0].value] else []) + PresentValues(vs[1..])
  }

  /** Inserts `x` into a strictly ascending list, dropping it when already there. */
  function InsertUnique(x: string, s: seq<string>): (r: seq<string>)
    requires StrictlyAscending(s)
    ensures StrictlyAscending(r)
    ensures forall y :: y in r <==> y == x || y in s
  {
    if s == [] then [x]
    else if x == s[0] then s
    else if Less(x, s[0]) then
      HeadBelowRest(s);
      assert forall y :: y in s ==> Less(x, y) by {
        forall y | y in s
          ensures Less(x, y)
        {
          if y != s[0] {
            assert s == [s[0]] + s[1..];
            LessTransitive(x, s[0], y);
          }
        }
      }
      ConsAscending(x, s);
      [x] + s
    else
      LessTotal(x, s[0]);
      HeadBelowRest(s);
      assert s == [s[0]] + s[1..];
      var tail := InsertUnique(x, s[1..]);
      ConsAscending(s[0], tail);
      [s[0]] + tail
  }

  /** `sorted(values.unique())`: the distinct values in ascending order. */
  function SortedDistinct(xs: seq<string>): (r: seq<string>)
    ensures StrictlyAscending(r)
    ensures forall y :: y in r <==> y in xs
  {
    if xs == [] then []
    else
      assert xs == [xs[0]] + xs[1..];
      InsertUnique(xs[0], SortedDistinct(xs[1..]))
  }

  /** `["All"] + sorted(column.dropna().unique())`. */
  function OptionList(vs: seq<Option<string>>): (opts: seq<string>)
    ensures |opts| >= 1 && opts[0] == ALL
    ensures StrictlyAscending(opts[1..])
    ensures forall x :: x in opts[1..] <==> Some(x) in vs
  {
    var values := SortedDistinct(PresentValues(vs));
    assert ([ALL] + values)[1..] == values;
    [ALL] + values
  }

  /** The "Product Type" options: "All", then every non-missing PRODUCT_TYPE once, ascending. */
  function TypeOptions(rows: seq<Row>): (opts: seq<string>)
    ensures |opts| >= 1 && opts[0] == ALL
    ensures StrictlyAscending(opts[1..])
    ensures forall x :: x in opts[1..] <==> exists i :: 0 <= i < |rows| && rows[i].productType == Some(x)
  {
    var opts := OptionList(ColumnValues(rows, ProductType));
    assert forall x :: x in opts[1..] <==> exists i :: 0 <= i < |rows| && rows[i].productType == Some(x) by {
      forall x
        ensures x in opts[1..] <==> exists i :: 0 <= i < |rows| && rows[i].productType == Some(x)
      {
        InColumn(rows, ProductType, x);
      }
    }
    opts
  }

  /** The "Product Layout" options: "All", then every non-missing PRODUCT_LAYOUT once, ascending. */
  function LayoutOptions(rows: seq<Row>): (opts: seq<string>)
    ensures |opts| >= 1 && opts[0] == ALL
    ensures StrictlyAscending(opts[1..])
    ensures forall x :: x in opts[1..] <==> exists i :: 0 <= i < |rows| && rows[i].productLayout == Some(x)
  {
    var opts := OptionList(ColumnValues(rows, ProductLayout));
    assert forall x :: x in opts[1..] <==> exists i :: 0 <= i < |rows| && rows[i].productLayout == Some(x) by {
      forall x
        ensures x in opts[1..] <==> exists i :: 0 <= i < |rows| && rows[i].productLayout == Some(x)
      {
        InColumn(rows, ProductLayout, x);
      }
    }
    opts
  }

  /** The "Conversion Segment" options: a fixed list, not read from the data. */
  const SEGMENT_OPTIONS: seq<string> := [ALL, "HIGH_CONVERT", "MID", "LOW_CONVERT"]

  /** The option list of a column depends only on which values occur in it,
      not on their order, their multiplicity or the missing cells. */
  lemma OptionListDeterminedByValues(vs1: seq<Option<string>>, vs2: seq<Option<string>>)
    requires forall x :: Some(x) in vs1 <==> Some(x) in vs2
    ensures OptionList(vs1) == OptionList(vs2)
  {
    var a, b := SortedDistinct(PresentValues(vs1)), SortedDistinct(PresentValues(vs2));
    AscendingUnique(a, b);
  }

  /** Reordering the rows of the snapshot leaves both derived option lists unchanged. */
  lemma OptionsIgnoreRowOrder(rows1: seq<Row>, rows2: seq<Row>)
    requires multiset(rows1) == multiset(rows2)
    ensures TypeOptions(rows1) == TypeOptions(rows2)
    ensures LayoutOptions(rows1) == LayoutOptions(rows2)
  {
    forall c: Column, x: string
      ensures Some(x) in ColumnValues(rows1, c) <==> Some(x) in ColumnValues(rows2, c)
    {
      InColumn(rows1, c, x);
      InColumn(rows2, c, x);
      if exists i :: 0 <= i < |rows1| && Field(rows1[i], c) == Some(x) {
        var i :| 0 <= i < |rows1| && Field(rows1[i], c) == Some(x);
        assert rows1[i] in multiset(rows2);
        var j :| 0 <= j < |rows2| && rows2[j] == rows1[i];
      }
      if exists j :: 0 <= j < |rows2| && Field(rows2[j], c) == Some(x) {
        var j :| 0 <= j < |rows2| && Field(rows2[j], c) == Some(x);
        assert rows2[j] in multiset(rows1);
        var i :| 0 <= i < |rows1| && rows1[i] == rows2[j];
      }
    }
    OptionListDeterminedByValues(ColumnValues(rows1, ProductType), ColumnValues(rows2, ProductType));
    OptionListDeterminedByValues(ColumnValues(rows1, ProductLayout), ColumnValues(rows2, ProductLayout));
  }
}
