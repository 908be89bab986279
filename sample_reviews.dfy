/** The "Sample Reviews" block: up to five complete review rows and their cards. */
module SampleReviews {
  import opened Wrappers
  import opened Reviews
  import opened Subsequences

  const SAMPLE_SIZE: nat := 5

  function Min(a: nat, b: nat): nat
  {
    if a <= b then a else b
  }

  /** A row projected to REVIEW_TEXT, REVIEW_SENTIMENT, SEGMENT, PURCHASE_DECISION. */
  datatype Projection = Projection(
    reviewText: Option<string>,
    reviewSentiment: Option<real>,
    segment: Option<string>,
    purchaseDecision: Option<real>)

  /** A projected row with none of the four cells missing. */
  datatype SampleRow = SampleRow(reviewText: string, reviewSentiment: real, segment: string, purchaseDecision: real)

  function Project(r: Row): Projection
  {
    Projection(r.reviewText, r.reviewSentiment, r.segment, r.purchaseDecision)
  }

  /** `df[["REVIEW_TEXT", "REVIEW_SENTIMENT", "SEGMENT", "PURCHASE_DECISION"]]`. */
  function ProjectAll(rows: seq<Row>): (ps: seq<Projection>)
    ensures |ps| == |rows|
    ensures forall i :: 0 <= i < |rows| ==> ps[i] == Project(rows[i])
  {
    seq(|rows|, i requires 0 <= i < |rows| => Project(rows[i]))
  }

  /** `dropna()` on the projection: the rows with no missing cell, in order. */
  function DropNa(ps: seq<Projection>): seq<SampleRow>
  {
    if ps == [] then []
    else
      (match ps[0]
       case Projection(Some(t), Some(v), Some(g), Some(d)) => [SampleRow(t, v, g, d)]
       case _ => [])
      + DropNa(ps[1..])
  }

  /** `head(n)`: the first `n` elements, or all of them when there are fewer. */
  function Head<T>(xs: seq<T>, n: nat): (h: seq<T>)
    ensures |h| == Min(n, |xs|)
    ensures h == xs[..|h|]
  {
    if |xs| <= n then xs else xs[..n]
  }

  /** Line 94: project, drop incomplete rows, keep the first five. */
  function Sample(rows: seq<Row>): seq<SampleRow>
  {
    Head(DropNa(ProjectAll(rows)), SAMPLE_SIZE)
  }

  /** Reference definitions on whole rows. */
  predicate Complete(r: Row)
  {
    r.reviewText.Some? && r.reviewSentiment.Some? && r.segment.Some? && r.purchaseDecision.Some?
  }

  function ToSampleRow(r: Row): SampleRow
    requires Complete(r)
  {
    SampleRow(r.reviewText.value, r.reviewSentiment.value, r.segment.value, r.purchaseDecision.value)
  }

  /** The rows of the table that have all four sample cells, in table order. */
  function CompleteRows(rows: seq<Row>): (cr: seq<Row>)
    ensures forall i :: 0 <= i < |cr| ==> Complete(cr[i])
  {
    if rows == [] then []
    else (if Complete(rows[0]) then [rows[0]] else []) + CompleteRows(rows[1..])
  }

  lemma {:induction false} CompleteRowsMembers(rows: seq<Row>)
    ensures forall r :: r in CompleteRows(rows) <==> r in rows && Complete(r)
    ensures IsSubsequence(CompleteRows(rows), rows)
  {
    if rows != [] {
      CompleteRowsMembers(rows[1..]);
      assert rows == [rows[0]] + rows[1..];
      var rest := CompleteRows(rows[1..]);
      if Complete(rows[0]) {
        var cr := [rows[0]] + rest;
        assert CompleteRows(rows) == cr;
        assert cr[0] == rows[0] && cr[1..] == rest;
      } else {
        assert CompleteRows(rows) == rest;
      }
    }
  }

  /** Projecting first and dropping incomplete rows afterwards leaves, row for
      row, the complete rows of the table. */
  lemma {:induction false} DropNaOfProjection(rows: seq<Row>)
    ensures |DropNa(ProjectAll(rows))| == |CompleteRows(rows)|
    ensures forall i :: 0 <= i < |CompleteRows(rows)| ==> DropNa(ProjectAll(rows))[i] == ToSampleRow(CompleteRows(rows)[i])
  {
    if rows != [] {
      DropNaOfProjection(rows[1..]);
      assert ProjectAll(rows)[1..] == ProjectAll(rows[1..]);
      assert ProjectAll(rows)[0] == Project(rows[0]);
    }
  }

  /** The sample has min(5, k) rows, k being the number of complete rows, and
      they are the first k complete rows in table order. */
  lemma SampleIsFirstCompleteRows(rows: seq<Row>)
    ensures |Sample(rows)| == Min(SAMPLE_SIZE, |CompleteRows(rows)|)
    ensures forall i :: 0 <= i < |Sample(rows)| ==> Sample(rows)[i] == ToSampleRow(CompleteRows(rows)[i])
  {
    DropNaOfProjection(rows);
  }

  /** What one sample block shows; the numeric formatting is left to the renderer. */
  datatype Card = Card(sentiment: real, segment: string, purchased: string, text: string)

  /** The card shows this complete row's sentiment, segment, purchase label and text. */
  predicate CardShows(c: Card, r: Row)
  {
    && Complete(r)
    && c.sentiment == r.reviewSentiment.value
    && c.segment == r.segment.value
    && c.text == r.reviewText.value
    && (c.purchased == "Yes" <==> r.purchaseDecision.value == 1.0)
    && (c.purchased == "No" <==> r.purchaseDecision.value != 1.0)
  }

  /** The "Purchased" label: "Yes" exactly when PURCHASE_DECISION equals 1, otherwise "No". */
  function PurchasedLabel(decision: real): (answer: string)
    ensures answer == "Yes" <==> decision == 1.0
    ensures answer == "No" <==> decision != 1.0
  {
    if decision == 1.0 then "Yes" else "No"
  }

  /** Lines 95-100: one card per sample row, in sample order. */
  method RenderCards(sample: seq<SampleRow>) returns (cards: seq<Card>)
    ensures |cards| == |sample|
    ensures forall i :: 0 <= i < |sample| ==>
      && cards[i].sentiment == sample[i].reviewSentiment
      && cards[i].segment == sample[i].segment
      && cards[i].text == sample[i].reviewText
      && (cards[i].purchased == "Yes" <==> sample[i].purchaseDecision == 1.0)
      && (cards[i].purchased == "No" <==> sample[i].purchaseDecision != 1.0)
  {
    cards := [];
    for k := 0 to |sample|
      invariant |cards| == k
      invariant forall i :: 0 <= i < k ==>
        && cards[i].sentiment == sample[i].reviewSentiment
        && cards[i].segment == sample[i].segment
        && cards[i].text == sample[i].reviewText
        && cards[i].purchased == PurchasedLabel(sample[i].purchaseDecision)
    {
      var row := sample[k];
      cards := cards + [Card(row.reviewSentiment, row.segment, PurchasedLabel(row.purchaseDecision), row.reviewText)];
    }
  }
}
