# Conversion Lab dashboard: record selection

A Dafny model of the selection logic inside the Customer Conversion Lab dashboard
(`streamlit_CCapp.py`). That page loads the enriched review table
`REVIEW_SEGMENTED_ENRICHED` into a data frame. It offers three sidebar selectors:
product type, product layout and conversion segment. Each one defaults to the
sentinel "All". The page then narrows the table to the rows that match every
concrete selector, shows the row count as "Total Reviews", draws an NLP-intent
chart only when five NLP columns are present, and renders up to five sample
reviews with a "Yes"/"No" purchased flag.

The model covers what the page selects and counts:

- `Reviews`: the review record. A missing cell (NaN or None) is `None`. Float
  cells are carried as `real` values that the selection never computes with.
- `StringOrder`: the order Python's `sorted` uses on strings. It is
  lexicographic by code point, and a proper prefix sorts first. The module
  proves this is a strict total order and that a strictly ascending list is
  determined by its set of elements.
- `FilterOptions`: the option lists of the three selectors.
- `Filters`: the three-way sentinel filter. `ApplyFilters` is the source's
  sequence of three guarded reassignments. It is proved equal to `Selected`,
  a single pass over the table.
- `NlpGate`: the five-column gate in front of the NLP chart, and the RESIDUAL
  column that line 63 adds to the schema before the gate runs.
- `SampleReviews`: projection, `dropna`, `head(5)`, the purchased label and
  the card loop.
- `Subsequences`: order-preserving subsequences, which is what a boolean-mask
  selection yields.
- `Dashboard`: one render, end to end.

The data frame's column list (its schema) is a separate parameter. Filtering
keeps it unchanged, and line 63 appends `RESIDUAL` to it.

Three behaviours of the code are worth knowing:

- A product type or layout whose value is literally the string "All" appears
  in the option list but filters nothing, because lines 36 and 38 only compare
  the choice with "All". `SelectorOf` models exactly that comparison.
- SEGMENT is an ordinary string column, and the segment option list (line 31)
  is a constant that ignores the data. A row whose segment is missing or
  outside HIGH_CONVERT, MID and LOW_CONVERT can be seen only under "All"
  (`OffListSegmentOnlyUnderAll`).
- The render aborts when the schema lacks a column the page reads unconditionally:
  PRODUCT_TYPE (line 25), PRODUCT_LAYOUT (line 28), PREDICTION, REVIEW_SENTIMENT
  and PURCHASE_DECISION (lines 46-48), TRUE_LABEL (line 63), and REVIEW_TEXT and
  SEGMENT (line 94). `Dashboard.Render` returns `MissingColumn` in that case, and
  the view, including the NLP-chart verdict, only for schemas that hold all of them.

## Model

| member | source | states |
|---|---|---|
| `Reviews.ColumnValues` | streamlit_CCapp.py:25 | the column `df[...]` has one cell per row, in table order, and cell i is row i's field |
| `Reviews.InColumn` | streamlit_CCapp.py:25 | a value occurs in a column exactly when some row carries it in that column |
| `StringOrder.LessIrreflexive` | streamlit_CCapp.py:25 | no string sorts before itself |
| `StringOrder.LessAsymmetric` | streamlit_CCapp.py:25 | two strings are never ordered both ways |
| `StringOrder.LessTransitive` | streamlit_CCapp.py:25 | the string order used by `sorted` is transitive |
| `StringOrder.LessTotal` | streamlit_CCapp.py:25 | any two distinct strings are ordered one way or the other |
| `StringOrder.AscendingIsDistinct` | streamlit_CCapp.py:25 | a strictly ascending list never holds the same value twice |
| `StringOrder.HeadBelowRest` | streamlit_CCapp.py:25 | in a strictly ascending list the first value is below every later one, and the tail is still ascending |
| `StringOrder.ConsAscending` | streamlit_CCapp.py:25 | a value below every element of an ascending list can be put in front of it |
| `StringOrder.AscendingUnique` | streamlit_CCapp.py:25 | two strictly ascending lists with the same elements are equal, so the sorted distinct values are determined by the set of values |
| `FilterOptions.PresentValues` | streamlit_CCapp.py:25 | `dropna()` keeps exactly the non-missing values of the column |
| `FilterOptions.InsertUnique` | streamlit_CCapp.py:25 | inserting into a strictly ascending list keeps it strictly ascending and adds exactly that value |
| `FilterOptions.SortedDistinct` | streamlit_CCapp.py:25 | `sorted(unique())` is strictly ascending and holds exactly the input's values |
| `FilterOptions.OptionList` | streamlit_CCapp.py:25 | the list starts with "All", the rest is strictly ascending, and the rest holds exactly the column's non-missing values |
| `FilterOptions.TypeOptions` | streamlit_CCapp.py:25 | "All" first, then strictly ascending with no duplicates, and x is an option exactly when some row has PRODUCT_TYPE x |
| `FilterOptions.LayoutOptions` | streamlit_CCapp.py:28 | "All" first, then strictly ascending with no duplicates, and x is an option exactly when some row has PRODUCT_LAYOUT x |
| `FilterOptions.OptionListDeterminedByValues` | streamlit_CCapp.py:25 | two columns with the same set of present values give the same option list |
| `FilterOptions.OptionsIgnoreRowOrder` | streamlit_CCapp.py:25-28 | reordering the snapshot's rows changes neither the type options nor the layout options |
| `Filters.SelectorOf` | streamlit_CCapp.py:36-41 | a choice means "no filter" exactly when it is the string "All"; otherwise it filters on that very string |
| `Filters.ApplyFilters` | streamlit_CCapp.py:35-41 | the three guarded reassignments give exactly the one-pass selection `Selected` for the three choices |
| `Filters.WhereConcat` | streamlit_CCapp.py:37 | one masking step distributes over concatenation of tables |
| `Filters.SelectedConcat` | streamlit_CCapp.py:35-41 | the selection distributes over concatenation of tables |
| `Filters.WhereSelectedFusion` | streamlit_CCapp.py:36-41 | a masking step after a selection is the selection extended by that step's condition |
| `Filters.SelectedAllIsIdentity` | streamlit_CCapp.py:35-41 | with all three selectors at "All" the filtered table equals the snapshot |
| `Filters.SelectedMembers` | streamlit_CCapp.py:36-41 | a row is kept if and only if it is in the snapshot and, for every non-"All" selector, its column is present and equal to the selector |
| `Filters.SelectedIsSubsequence` | streamlit_CCapp.py:35-41 | the filtered table is an order-preserving subsequence of the snapshot |
| `Filters.SelectedCount` | streamlit_CCapp.py:49 | the "Total Reviews" count is at most the snapshot's row count, and equals it exactly when every row passes the selectors |
| `Filters.SelectedIdempotent` | streamlit_CCapp.py:36-41 | filtering the filtered table again with the same selectors returns it unchanged |
| `Filters.WhereCommutes` | streamlit_CCapp.py:36-41 | two masking steps give the same table in either order |
| `Filters.ConcreteOptionsSelectRows` | streamlit_CCapp.py:25-37 | every concrete type or layout option selects at least one row of the snapshot |
| `Filters.OffListSegmentOnlyUnderAll` | streamlit_CCapp.py:31-41 | a row whose SEGMENT is missing or not one of the three listed segments survives a choice from the fixed list only when that choice is "All" |
| `Subsequences.SubsequenceLength` | streamlit_CCapp.py:49 | a subsequence is never longer than the sequence it came from |
| `Subsequences.SubsequenceMembers` | streamlit_CCapp.py:94 | a subsequence holds only elements of the sequence it came from |
| `NlpGate.AllPresent` | streamlit_CCapp.py:83 | `all(col in columns ...)` holds exactly when every required name is in the column list |
| `NlpGate.NlpChartEnabled` | streamlit_CCapp.py:82-83 | the chart is enabled exactly when FRICTION_FLAG, TRUST_SIGNAL, PURCHASE_INTENT, EMOTION and AUTHENTICITY_SCORE are all columns |
| `NlpGate.WithResidual` | streamlit_CCapp.py:63 | after the RESIDUAL assignment the schema holds RESIDUAL and otherwise exactly the old columns |
| `NlpGate.ResidualKeepsGate` | streamlit_CCapp.py:63-83 | adding RESIDUAL before the check never changes whether the NLP chart is drawn |
| `SampleReviews.ProjectAll` | streamlit_CCapp.py:94 | the projection has one entry per row, holding that row's four sample cells |
| `SampleReviews.Head` | streamlit_CCapp.py:94 | `head(n)` is the prefix of length min(n, length) |
| `SampleReviews.CompleteRows` | streamlit_CCapp.py:94 | every row it returns has none of the four sample cells missing |
| `SampleReviews.CompleteRowsMembers` | streamlit_CCapp.py:94 | a row is complete-and-present exactly when it is returned, and the result keeps table order |
| `SampleReviews.DropNaOfProjection` | streamlit_CCapp.py:94 | projecting and then dropping incomplete rows gives, row for row, the complete rows of the table |
| `SampleReviews.SampleIsFirstCompleteRows` | streamlit_CCapp.py:94 | the sample has min(5, k) rows, k being the number of complete rows, and row i is the i-th complete row |
| `SampleReviews.PurchasedLabel` | streamlit_CCapp.py:97 | the label is "Yes" exactly when PURCHASE_DECISION equals 1, and "No" otherwise |
| `SampleReviews.RenderCards` | streamlit_CCapp.py:95-100 | one card per sample row, in order, showing its sentiment, segment and text, with "Yes" exactly when the decision is 1 |
| `Dashboard.FirstMissing` | streamlit_CCapp.py:25-94 | no column is reported exactly when every required column is in the schema, and a reported one is required and absent |
| `Dashboard.CardsShowSelectedRows` | streamlit_CCapp.py:94-100 | the cards made from the filtered table's sample number min(5, k), card i shows the i-th complete row of the filtered table, and that row is a snapshot row passing all selectors |
| `Dashboard.Render` | streamlit_CCapp.py:25-100 | the render aborts with a missing column exactly when a column read at lines 25, 28, 46-48, 63 or 94 is absent, naming one such column; otherwise: options as derived; the segment list is fixed; Total Reviews is the length of the filtered table, at most the snapshot's and equal to it under all-"All"; the NLP switch holds exactly when the five columns exist; at most five cards, none when the count is 0; card i shows the i-th complete row of the filtered table, a snapshot row passing all selectors |

## Left out

- Loading the table from Snowflake and the 600-second `st.cache_data` time-to-live (lines 14-21) are remote I/O and framework caching. The snapshot is a parameter of `Dashboard.Render`.
- Page configuration, titles, sidebar widgets, markdown, metric tiles and the footer (lines 7-11, 24-32, 44-49, 96-104) are user interface. A selectbox can only return one of its options, but the model accepts any string as a choice, which is more general.
- The Altair charts (lines 53-90) are configuration of a library whose semantics are not visible here. That covers the scatter plot, the residual histogram, the box plot and the intent bar chart. Only the gate in front of the last one is modelled.
- The float averages are left out: mean prediction, mean sentiment, and purchase rate times 100 (lines 46-48). So are the groupby mean (line 84) and the residual values `PREDICTION - TRUE_LABEL` (line 63). Float cells are carried through unchanged as `real`. Of line 63, only the effect on the column list is modelled.
- Text formatting is left out: `:.2f`, `:.1f`, thousands grouping, and the markdown of a card. "Total Reviews" is modelled as the integer count, and a card holds the raw sentiment value.
- Which missing column pandas names when several are absent: `Render` reports one required column that is absent, taken in a fixed order, not necessarily the first one the source touches. The conditional reads at lines 37-41 need no separate check, because their columns are read unconditionally at lines 25, 28 and 94. The chart columns FEATURE_1, FEATURE_2 and SENTIMENT_TAG (lines 53-78) are not checked, because what Altair does with an absent field is not visible here.
- Grouping columns are modelled as strings only. A PRODUCT_TYPE or PRODUCT_LAYOUT column of one non-string type (all integers, say) sorts fine at lines 25 and 28 and is filtered by numeric equality at lines 37 and 39; the model does not cover such columns. A column that mixes strings with other types makes `sorted` raise `TypeError`, which is not modelled either.
- PURCHASE_DECISION is modelled as a real number. A boolean `True` in the source compares equal to 1, so it corresponds to `1.0`.
