/** The five behavioural features, the target column and cohort rows. */
module Features {
  datatype Feature = StudyHours | AttentionSpan | FocusRatio | SleepHours | BreakFreq

  /** `FEATURES`, in the column order every model is fitted with. */
  const FEATURES: seq<Feature> := [StudyHours, AttentionSpan, FocusRatio, SleepHours, BreakFreq]

  /** Position of a feature in `FEATURES` (sklearn's feature index). */
  function Index(f: Feature): (i: nat)
    ensures i < |FEATURES| && FEATURES[i] == f
  {
    match f
    case StudyHours => 0
    case AttentionSpan => 1
    case FocusRatio => 2
    case SleepHours => 3
    case BreakFreq => 4
  }

  /** Every feature occurs exactly once in `FEATURES`. */
  lemma FeaturesDistinct()
    ensures forall i, j :: 0 <= i < j < |FEATURES| ==> FEATURES[i] != FEATURES[j]
    ensures forall f: Feature :: f in FEATURES
  {
    forall f: Feature ensures f in FEATURES {
      assert FEATURES[Index(f)] == f;
    }
  }

  /** Python-side column names. */
  function Name(f: Feature): string {
    match f
    case StudyHours => "studyHours"
    case AttentionSpan => "attentionSpan"
    case FocusRatio => "focusRatio"
    case SleepHours => "sleepHours"
    case BreakFreq => "breakFreq"
  }

  const TARGET: string := "currentGrade"

  /** One value per feature: the request's `values` dict, a scaled vector or SHAP values. */
  datatype Values = Values(studyHours: real, attentionSpan: real, focusRatio: real, sleepHours: real, breakFreq: real)
  {
    function Get(f: Feature): real {
      match f
      case StudyHours => studyHours
      case AttentionSpan => attentionSpan
      case FocusRatio => focusRatio
      case SleepHours => sleepHours
      case BreakFreq => breakFreq
    }
  }

  /** A cohort record: the features and `currentGrade`. */
  datatype Row = Row(features: Values, currentGrade: real)

  /** A data frame with the `FEATURES + [TARGET]` columns. */
  type Frame = seq<Row>
}
