/** The review record of the enriched review table, and the three grouping
    columns the dashboard filters on. */
module Reviews {
  import opened Wrappers

  /** The sentinel every selector list starts with, meaning "do not filter". */
  const ALL: string := "All"

  /** One row of the review table. A missing cell (NaN or None in the data frame)
      is None. Floating-point cells are carried as reals: the selection logic only
      moves rows around and never computes with them. */
  datatype Row = Row(
    productType: Option<string>,
    productLayout: Option<string>,
    segment: Option<string>,
    prediction: Option<real>,
    trueLabel: Option<real>,
    reviewSentiment: Option<real>,
    feature1: Option<real>,
    feature2: Option<real>,
    authenticityScore: Option<real>,
    frictionFlag: Option<string>,
    trustSignal: Option<string>,
    purchaseIntent: Option<string>,
    emotion: Option<string>,
    sentimentTag: Option<string>,
    purchaseDecision: Option<real>,
    reviewText: Option<string>)

  /** The grouping columns PRODUCT_TYPE, PRODUCT_LAYOUT and SEGMENT. */
  datatype Column = ProductType | ProductLayout | Segment

  function Field(r: Row, c: Column): Option<string>
  {
    match c
    case ProductType => r.productType
    case ProductLayout => r.productLayout
    case Segment => r.segment
  }

  /** One column of the table, in table order (`df["PRODUCT_TYPE"]`). */
  function ColumnValues(rows: seq<Row>, c: Column): (vs: seq<Option<string>>)
    ensures |vs| == |rows|
    ensures forall i :: 0 <= i < |rows| ==> vs[i] == Field(rows[i], c)
  {
    seq(|rows|, i requires 0 <= i < |rows| => Field(rows[i], c))
  }

  /** A value occurs in a column exactly when some row carries it there. */
  lemma InColumn(rows: seq<Row>, c: Column, x: string)
    ensures Some(x) in ColumnValues(rows, c) <==> exists i :: 0 <= i < |rows| && Field(rows[i], c) == Some(x)
  {
  }
}
