/** One render of the dashboard page, reduced to what it selects and counts:
    the option lists, the filtered table's row count, the NLP-chart switch and
    the sample cards. */
module Dashboard {
  import opened Wrappers
  import opened Reviews
  import opened Filters
  import opened FilterOptions
  import opened NlpGate
  import opened SampleReviews

  /** The columns the page reads whatever the selectors are: PRODUCT_TYPE
      (line 25), PRODUCT_LAYOUT (line 28), PREDICTION, REVIEW_SENTIMENT and
      PURCHASE_DECISION (lines 46-48), TRUE_LABEL (line 63), and REVIEW_TEXT and
      SEGMENT (line 94). A missing one makes pandas raise and the render abort. */
  const REQUIRED_COLUMNS: seq<string> := [
    "PRODUCT_TYPE", "PRODUCT_LAYOUT", "PREDICTION", "REVIEW_SENTIMENT",
    "PURCHASE_DECISION", "TRUE_LABEL", "REVIEW_TEXT", "SEGMENT"]

  datatype View = View(
    productTypes: seq<string>,
    layouts: seq<string>,
    segments: seq<string>,
    totalReviews: nat,
    nlpChart: bool,
    cards: seq<Card>)

  /** A render either produces the whole page or aborts on a missing column. */
  datatype Outcome = Rendered(view: View) | MissingColumn(name: string)

  /** The first of `required` that is not a column, if any. */
  function FirstMissing(required: seq<string>, columns: seq<string>): (m: Option<string>)
    ensures m.None? <==> forall i :: 0 <= i < |required| ==> required[i] in columns
    ensures m.Some? ==> m.value in required && m.value !in columns
  {
    if required == [] then None
    else if required[0] !in columns then Some(required[0])
    else
      assert forall i :: 0 < i < |required| ==> required[i] == required[1..][i - 1];
      FirstMissing(required[1..], columns)
  }

  /** What a successful render shows for snapshot `df`, schema `schema` and the
      three selectbox choices. */
  ghost predicate Describes(view: View, df: seq<Row>, schema: seq<string>,
                            selectedType: string, selectedLayout: string, selectedSegment: string)
  {
    var t, l, s := SelectorOf(selectedType), SelectorOf(selectedLayout), SelectorOf(selectedSegment);
    var picked := CompleteRows(Selected(df, t, l, s));
    && view.productTypes == TypeOptions(df)
    && view.layouts == LayoutOptions(df)
    && view.segments == SEGMENT_OPTIONS
    && view.totalReviews == |Selected(df, t, l, s)|
    && view.totalReviews <= |df|
    && (selectedType == ALL && selectedLayout == ALL && selectedSegment == ALL ==> view.totalReviews == |df|)
    && (view.nlpChart <==>
         && "FRICTION_FLAG" in schema
         && "TRUST_SIGNAL" in schema
         && "PURCHASE_INTENT" in schema
         && "EMOTION" in schema
         && "AUTHENTICITY_SCORE" in schema)
    && |view.cards| <= SAMPLE_SIZE
    && (view.totalReviews == 0 ==> view.cards == [])
    && |view.cards| == Min(SAMPLE_SIZE, |picked|)
    && (forall i :: 0 <= i < |view.cards| ==> CardShows(view.cards[i], picked[i]))
    && (forall i :: 0 <= i < |view.cards| ==>
          exists j :: 0 <= j < |df| && Keep(df[j], t, l, s) && CardShows(view.cards[i], df[j]))
  }

  /** The cards made from the sample of the filtered table show, in order, the
      complete rows of that table, each of them a snapshot row passing the selectors. */
  lemma CardsShowSelectedRows(df: seq<Row>, t: Selector, l: Selector, s: Selector, cards: seq<Card>)
    requires var sample := Sample(Selected(df, t, l, s));
      && |cards| == |sample|
      && forall i :: 0 <= i < |sample| ==>
        && cards[i].sentiment == sample[i].reviewSentiment
        && cards[i].segment == sample[i].segment
        && cards[i].text == sample[i].reviewText
        && (cards[i].purchased == "Yes" <==> sample[i].purchaseDecision == 1.0)
        && (cards[i].purchased == "No" <==> sample[i].purchaseDecision != 1.0)
    ensures var picked := CompleteRows(Selected(df, t, l, s));
      && |cards| == Min(SAMPLE_SIZE, |picked|)
      && (forall i :: 0 <= i < |cards| ==> CardShows(cards[i], picked[i]))
      && (forall i :: 0 <= i < |cards| ==>
            exists j :: 0 <= j < |df| && Keep(df[j], t, l, s) && CardShows(cards[i], df[j]))
  {
    var filteredDf := Selected(df, t, l, s);
    SampleIsFirstCompleteRows(filteredDf);
    CompleteRowsMembers(filteredDf);
    SelectedMembers(df, t, l, s);
    var picked := CompleteRows(filteredDf);
    forall i | 0 <= i < |cards|
      ensures CardShows(cards[i], picked[i])
      ensures exists j :: 0 <= j < |df| && Keep(df[j], t, l, s) && CardShows(cards[i], df[j])
    {
      assert picked[i] in picked;
      assert picked[i] in filteredDf && Complete(picked[i]);
      assert Keep(picked[i], t, l, s);
      var j :| 0 <= j < |df| && df[j] == picked[i];
      assert CardShows(cards[i], df[j]);
    }
  }

  /** The page from top to bottom over a snapshot `df` with column list `schema`
      and the three selectbox choices. */
  method Render(df: seq<Row>, schema: seq<string>, selectedType: string, selectedLayout: string, selectedSegment: string)
    returns (outcome: Outcome)
    ensures outcome.Rendered? <==> forall i :: 0 <= i < |REQUIRED_COLUMNS| ==> REQUIRED_COLUMNS[i] in schema
    ensures outcome.MissingColumn? ==> outcome.name in REQUIRED_COLUMNS && outcome.name !in schema
    ensures outcome.Rendered? ==> Describes(outcome.view, df, schema, selectedType, selectedLayout, selectedSegment)
  {
    var missing := FirstMissing(REQUIRED_COLUMNS, schema);
    if missing.Some? {
      return MissingColumn(missing.value);
    }
    var productTypes := TypeOptions(df);
    var layouts := LayoutOptions(df);
    var filteredDf := ApplyFilters(df, selectedType, selectedLayout, selectedSegment);
    var totalReviews := |filteredDf|;
    var nlpChart := NlpChartEnabled(WithResidual(schema));
    var sample := Sample(filteredDf);
    var cards := RenderCards(sample);
    var view := View(productTypes, layouts, SEGMENT_OPTIONS, totalReviews, nlpChart, cards);

    ghost var t, l, s := SelectorOf(selectedType), SelectorOf(selectedLayout), SelectorOf(selectedSegment);
    SelectedCount(df, t, l, s);
    if selectedType == ALL && selectedLayout == ALL && selectedSegment == ALL {
      SelectedAllIsIdentity(df);
    }
    ResidualKeepsGate(schema);
    CardsShowSelectedRows(df, t, l, s, cards);
    if totalReviews == 0 {
      assert filteredDf == [];
    }
    outcome := Rendered(view);
  }
}
