/** The gate in front of the NLP-intent chart: the chart is drawn only when the
    filtered table has all five NLP columns. */
module NlpGate {

  const NLP_COLUMNS: seq<string> := ["FRICTION_FLAG", "TRUST_SIGNAL", "PURCHASE_INTENT", "EMOTION", "AUTHENTICITY_SCORE"]

  /** `all(col in columns for col in required)`. */
  function AllPresent(required: seq<string>, columns: seq<string>): (b: bool)
    ensures b <==> forall i :: 0 <= i < |required| ==> required[i] in columns
  {
    if required == [] then true
    else
      assert forall i :: 0 < i < |required| ==> required[i] == required[1..][i - 1];
      required[0] in columns && AllPresent(required[1..], columns)
  }

  /** The chart is enabled exactly when each of the five named columns is in the schema. */
  function NlpChartEnabled(columns: seq<string>): (enabled: bool)
    ensures enabled <==>
      && "FRICTION_FLAG" in columns
      && "TRUST_SIGNAL" in columns
      && "PURCHASE_INTENT" in columns
      && "EMOTION" in columns
      && "AUTHENTICITY_SCORE" in columns
  {
    var b := AllPresent(NLP_COLUMNS, columns);
    assert NLP_COLUMNS[0] == "FRICTION_FLAG" && NLP_COLUMNS[1] == "TRUST_SIGNAL" && NLP_COLUMNS[2] == "PURCHASE_INTENT";
    assert NLP_COLUMNS[3] == "EMOTION" && NLP_COLUMNS[4] == "AUTHENTICITY_SCORE" && |NLP_COLUMNS| == 5;
    b
  }

  /** The schema after line 63 assigns the RESIDUAL column: appended when new,
      replaced in place when already there. */
  function WithResidual(columns: seq<string>): (cols: seq<string>)
    ensures "RESIDUAL" in cols
    ensures forall c :: c in cols <==> c in columns || c == "RESIDUAL"
  {
    if "RESIDUAL" in columns then columns else columns + ["RESIDUAL"]
  }

  /** Adding the RESIDUAL column before the check never changes the gate's verdict. */
  lemma ResidualKeepsGate(columns: seq<string>)
    ensures NlpChartEnabled(WithResidual(columns)) == NlpChartEnabled(columns)
  {
  }
}
