/** The three-way sentinel filter of the dashboard: each selector either is the
    "All" sentinel or keeps only the rows whose column equals the chosen value. */
module Filters {
  import opened Wrappers
  import opened Reviews
  import opened Subsequences
  import opened FilterOptions

  datatype Selector = All | Is(value: string)

  /** What a selectbox's string choice means to the filter: the source compares
      the choice with "All" and otherwise uses it as the value to match. */
  function SelectorOf(choice: string): (sel: Selector)
    ensures sel == All <==> choice == ALL
    ensures sel.Is? ==> sel.value == choice
  {
    if choice == ALL then All else Is(choice)
  }

  /** pandas `column == value` on one cell: a missing cell never equals a value. */
  predicate Matches(sel: Selector, cell: Option<string>)
  {
    match sel
    case All => true
    case Is(v) => cell == Some(v)
  }

  /** The rule a row must pass to survive all three selectors. */
  predicate Keep(r: Row, t: Selector, l: Selector, s: Selector)
  {
    Matches(t, r.productType) && Matches(l, r.productLayout) && Matches(s, r.segment)
  }

  /** One masking step, `df[df[c] == v]`: the rows whose column `c` equals `v`, in order. */
  function Where(rows: seq<Row>, c: Column, v: string): seq<Row>
  {
    if rows == [] then []
    else (if Field(rows[0], c) == Some(v) then [rows[0]] else []) + Where(rows[1..], c, v)
  }

  /** The selection as one pass over the table: the rows passing `Keep`, in order. */
  function Selected(rows: seq<Row>, t: Selector, l: Selector, s: Selector): seq<Row>
  {
    if rows == [] then []
    else (if Keep(rows[0], t, l, s) then [rows[0]] else []) + Selected(rows[1..], t, l, s)
  }

  /** Lines 35-41: copy the snapshot, then narrow it once per selector that is not "All". */
  method ApplyFilters(df: seq<Row>, selectedType: string, selectedLayout: string, selectedSegment: string)
    returns (filteredDf: seq<Row>)
    ensures filteredDf == Selected(df, SelectorOf(selectedType), SelectorOf(selectedLayout), SelectorOf(selectedSegment))
  {
    var t, l, s := SelectorOf(selectedType), SelectorOf(selectedLayout), SelectorOf(selectedSegment);
    filteredDf := df;
    SelectedAllIsIdentity(df);
    if selectedType != ALL {
      WhereSelectedFusion(df, All, All, All, ProductType, selectedType, t, All, All);
      filteredDf := Where(filteredDf, ProductType, selectedType);
    }
    assert filteredDf == Selected(df, t, All, All);
    if selectedLayout != ALL {
      WhereSelectedFusion(df, t, All, All, ProductLayout, selectedLayout, t, l, All);
      filteredDf := Where(filteredDf, ProductLayout, selectedLayout);
    }
    assert filteredDf == Selected(df, t, l, All);
    if selectedSegment != ALL {
      WhereSelectedFusion(df, t, l, All, Segment, selectedSegment, t, l, s);
      filteredDf := Where(filteredDf, Segment, selectedSegment);
    }
  }

  lemma {:induction false} WhereConcat(a: seq<Row>, b: seq<Row>, c: Column, v: string)
    ensures Where(a + b, c, v) == Where(a, c, v) + Where(b, c, v)
  {
    if a == [] {
      assert a + b == b;
    } else {
      assert (a + b)[0] == a[0];
      assert (a + b)[1..] == a[1..] + b;
      WhereConcat(a[1..], b, c, v);
    }
  }

  lemma {:induction false} SelectedConcat(a: seq<Row>, b: seq<Row>, t: Selector, l: Selector, s: Selector)
    ensures Selected(a + b, t, l, s) == Selected(a, t, l, s) + Selected(b, t, l, s)
  {
    if a == [] {
      assert a + b == b;
    } else {
      assert (a + b)[0] == a[0];
      assert (a + b)[1..] == a[1..] + b;
      SelectedConcat(a[1..], b, t, l, s);
    }
  }

  /** A masking step applied after a selection is the selection with the step's
      condition added to it. */
  lemma {:induction false} WhereSelectedFusion(xs: seq<Row>, t: Selector, l: Selector, s: Selector,
                                               c: Column, v: string,
                                               t2: Selector, l2: Selector, s2: Selector)
    requires forall r :: Keep(r, t2, l2, s2) <==> Keep(r, t, l, s) && Field(r, c) == Some(v)
    ensures Where(Selected(xs, t, l, s), c, v) == Selected(xs, t2, l2, s2)
  {
    if xs != [] {
      var head := if Keep(xs[0], t, l, s) then [xs[0]] else [];
      WhereConcat(head, Selected(xs[1..], t, l, s), c, v);
      WhereSelectedFusion(xs[1..], t, l, s, c, v, t2, l2, s2);
      assert Where(head, c, v) == if Keep(xs[0], t2, l2, s2) then [xs[0]] else [] by {
        if head != [] {
          assert head[1..] == [];
        }
      }
    }
  }

  /** With every selector at "All" the table comes through unchanged. */
  lemma {:induction false} SelectedAllIsIdentity(xs: seq<Row>)
    ensures Selected(xs, All, All, All) == xs
  {
    if xs != [] {
      SelectedAllIsIdentity(xs[1..]);
      assert xs == [xs[0]] + xs[1..];
    }
  }

  /** A row is kept if and only if it is in the table and, for every selector
      that is not "All", its column is present and equal to the selector. */
  lemma {:induction false} SelectedMembers(xs: seq<Row>, t: Selector, l: Selector, s: Selector)
    ensures forall r :: r in Selected(xs, t, l, s) <==>
      && r in xs
      && (t.Is? ==> r.productType == Some(t.value))
      && (l.Is? ==> r.productLayout == Some(l.value))
      && (s.Is? ==> r.segment == Some(s.value))
  {
    if xs != [] {
      SelectedMembers(xs[1..], t, l, s);
      assert xs == [xs[0]] + xs[1..];
    }
  }

  /** The selection keeps rows in their table order: it is a subsequence of the snapshot. */
  lemma {:induction false} SelectedIsSubsequence(xs: seq<Row>, t: Selector, l: Selector, s: Selector)
    ensures IsSubsequence(Selected(xs, t, l, s), xs)
  {
    if xs != [] {
      SelectedIsSubsequence(xs[1..], t, l, s);
      var rest := Selected(xs[1..], t, l, s);
      if Keep(xs[0], t, l, s) {
        var sel := [xs[0]] + rest;
        assert Selected(xs, t, l, s) == sel;
        assert sel[0] == xs[0] && sel[1..] == rest;
      } else {
        assert Selected(xs, t, l, s) == rest;
      }
    }
  }

  /** "Total Reviews" never exceeds the snapshot's row count, and equals it
      exactly when every row passes the selectors. */
  lemma {:induction false} SelectedCount(xs: seq<Row>, t: Selector, l: Selector, s: Selector)
    ensures |Selected(xs, t, l, s)| <= |xs|
    ensures |Selected(xs, t, l, s)| == |xs| <==> forall i :: 0 <= i < |xs| ==> Keep(xs[i], t, l, s)
  {
    SelectedIsSubsequence(xs, t, l, s);
    SubsequenceLength(Selected(xs, t, l, s), xs);
    if xs != [] {
      SelectedCount(xs[1..], t, l, s);
      assert forall i :: 0 < i < |xs| ==> xs[i] == xs[1..][i - 1];
    }
  }

  /** Filtering the filtered table again with the same selectors changes nothing. */
  lemma {:induction false} SelectedIdempotent(xs: seq<Row>, t: Selector, l: Selector, s: Selector)
    ensures Selected(Selected(xs, t, l, s), t, l, s) == Selected(xs, t, l, s)
  {
    if xs != [] {
      var head := if Keep(xs[0], t, l, s) then [xs[0]] else [];
      SelectedConcat(head, Selected(xs[1..], t, l, s), t, l, s);
      SelectedIdempotent(xs[1..], t, l, s);
      assert Selected(head, t, l, s) == head by {
        if head != [] {
          assert head[1..] == [];
        }
      }
    }
  }

  /** Two masking steps commute, so the order of the three guarded steps does not matter. */
  lemma {:induction false} WhereCommutes(xs: seq<Row>, c1: Column, v1: string, c2: Column, v2: string)
    ensures Where(Where(xs, c1, v1), c2, v2) == Where(Where(xs, c2, v2), c1, v1)
  {
    if xs != [] {
      var x := xs[0];
      var h1 := if Field(x, c1) == Some(v1) then [x] else [];
      var h2 := if Field(x, c2) == Some(v2) then [x] else [];
      WhereConcat(h1, Where(xs[1..], c1, v1), c2, v2);
      WhereConcat(h2, Where(xs[1..], c2, v2), c1, v1);
      WhereCommutes(xs[1..], c1, v1, c2, v2);
      assert [x][1..] == [];
    }
  }

  /** Every concrete option of the type and layout lists selects at least one row,
      because the lists are read from the snapshot itself. */
  lemma ConcreteOptionsSelectRows(rows: seq<Row>)
    ensures forall o :: o in TypeOptions(rows)[1..] ==> Selected(rows, SelectorOf(o), All, All) != []
    ensures forall o :: o in LayoutOptions(rows)[1..] ==> Selected(rows, All, SelectorOf(o), All) != []
  {
    forall o | o in TypeOptions(rows)[1..]
      ensures Selected(rows, SelectorOf(o), All, All) != []
    {
      var i :| 0 <= i < |rows| && rows[i].productType == Some(o);
      SelectedMembers(rows, SelectorOf(o), All, All);
      assert rows[i] in Selected(rows, SelectorOf(o), All, All);
    }
    forall o | o in LayoutOptions(rows)[1..]
      ensures Selected(rows, All, SelectorOf(o), All) != []
    {
      var i :| 0 <= i < |rows| && rows[i].productLayout == Some(o);
      SelectedMembers(rows, All, SelectorOf(o), All);
      assert rows[i] in Selected(rows, All, SelectorOf(o), All);
    }
  }

  /** The segment list is fixed, so a row whose SEGMENT is missing or outside
      HIGH_CONVERT, MID and LOW_CONVERT is shown only while the segment selector is "All". */
  lemma OffListSegmentOnlyUnderAll(rows: seq<Row>, t: Selector, l: Selector, choice: string, r: Row)
    requires choice in SEGMENT_OPTIONS
    requires r.segment != Some("HIGH_CONVERT") && r.segment != Some("MID") && r.segment != Some("LOW_CONVERT")
    requires r in Selected(rows, t, l, SelectorOf(choice))
    ensures choice == ALL
  {
  }
}
