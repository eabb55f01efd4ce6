// The POST /api/predictions/analyze endpoint: request validation, the
// readiness gate, dispatch to the three analysis modes and assembly of the
// response, as pure functions over the engine's state.

module PredictionsRouter {
  import opened Wrappers
  import opened PyNum
  import opened Features
  import opened Grades
  import opened MlEngine

  /** `AnalysisMode`: a string enum with exactly three members. */
  datatype AnalysisMode = Strict | Peer | Deep

  function ModeText(m: AnalysisMode): string {
    match m
    case Strict => "strict"
    case Peer => "peer"
    case Deep => "deep"
  }

  /**
   * Validation of the `analysis_mode` field: absent means strict, one of
   * the three member values selects that member, anything else is refused.
   */
  function ParseMode(raw: Option<string>): (r: Option<AnalysisMode>)
    ensures raw.None? ==> r == Some(Strict)
    ensures raw.Some? ==> (r.Some? <==> raw.value in {"strict", "peer", "deep"})
    ensures raw.Some? && r.Some? ==> ModeText(r.value) == raw.value
  {
    if raw.None? then Some(Strict)
    else if raw.value == "strict" then Some(Strict)
    else if raw.value == "peer" then Some(Peer)
    else if raw.value == "deep" then Some(Deep)
    else None
  }

  /** Every mode's value is accepted back as that mode. */
  lemma ParseModeText(m: AnalysisMode)
    ensures ParseMode(Some(ModeText(m))) == Some(m)
  {
  }

  /** The request body as received: each field may be missing. */
  datatype PredictionRequest = PredictionRequest(
    studyHours: Option<real>, attentionSpan: Option<real>, focusRatio: Option<real>,
    sleepHours: Option<real>, breakFreq: Option<real>, analysisMode: Option<string>)

  /** The inclusive `ge`/`le` bounds of each field. */
  function Lower(f: Feature): real {
    match f
    case StudyHours => 0.0
    case AttentionSpan => 5.0
    case FocusRatio => 0.0
    case SleepHours => 3.0
    case BreakFreq => 0.0
  }

  function Upper(f: Feature): real {
    match f
    case StudyHours => 16.0
    case AttentionSpan => 120.0
    case FocusRatio => 100.0
    case SleepHours => 12.0
    case BreakFreq => 10.0
  }

  function Field(req: PredictionRequest, f: Feature): Option<real> {
    match f
    case StudyHours => req.studyHours
    case AttentionSpan => req.attentionSpan
    case FocusRatio => req.focusRatio
    case SleepHours => req.sleepHours
    case BreakFreq => req.breakFreq
  }

  /** A field value is present and within its bounds. */
  predicate FieldValid(req: PredictionRequest, f: Feature) {
    Field(req, f).Some? && Lower(f) <= Field(req, f).value <= Upper(f)
  }

  /**
   * Request validation: the feature values and the mode when every field
   * is present and in range and the mode is a member, otherwise nothing
   * (a 422 response).
   */
  function Validate(req: PredictionRequest): (r: Option<(Values, AnalysisMode)>)
    ensures r.Some? <==> (forall f: Feature :: FieldValid(req, f)) && ParseMode(req.analysisMode).Some?
    ensures r.Some? ==> r.value.1 == ParseMode(req.analysisMode).value
    ensures r.Some? ==> forall f: Feature :: Some(r.value.0.Get(f)) == Field(req, f)
  {
    if FieldValid(req, StudyHours) && FieldValid(req, AttentionSpan) && FieldValid(req, FocusRatio)
       && FieldValid(req, SleepHours) && FieldValid(req, BreakFreq) && ParseMode(req.analysisMode).Some?
    then
      Some((Values(req.studyHours.value, req.attentionSpan.value, req.focusRatio.value,
                   req.sleepHours.value, req.breakFreq.value),
            ParseMode(req.analysisMode).value))
    else
      assert !FieldValid(req, StudyHours) || !FieldValid(req, AttentionSpan) || !FieldValid(req, FocusRatio)
        || !FieldValid(req, SleepHours) || !FieldValid(req, BreakFreq) || ParseMode(req.analysisMode).None?;
      None
  }

  /** Every feature value a valid request carries lies within its bounds. */
  lemma ValidatedInRange(req: PredictionRequest)
    requires Validate(req).Some?
    ensures forall f: Feature :: Lower(f) <= Validate(req).value.0.Get(f) <= Upper(f)
  {
    forall f: Feature ensures Lower(f) <= Validate(req).value.0.Get(f) <= Upper(f) {
      assert FieldValid(req, f);
    }
  }

  datatype PredictionResponse = PredictionResponse(
    predictedScore: real, predictedGrade: string, analysisMode: string, textAdvice: seq<Line>)

  datatype HttpResult = Ok(response: PredictionResponse) | HttpError(status: int)

  /** The if/elif dispatch: strict and peer by name, the remaining member (deep) to the forest. */
  function Predict(st: EngineState, mode: AnalysisMode, x: Values): (r: Outcome)
    ensures mode == Strict ==> r == StrictOutcome(st, x)
    ensures mode == Peer ==> r == PeerOutcome(st, x)
    ensures mode == Deep ==> r == DeepOutcome(st, x)
    ensures mode != Deep ==> !r.Triple?
    ensures mode == Deep ==> !r.Pair?
    ensures !r.Raised? ==> 0.0 <= r.score <= 100.0
  {
    match mode
    case Strict => StrictOutcome(st, x)
    case Peer => PeerOutcome(st, x)
    case Deep => DeepOutcome(st, x)
  }

  /** Grade from the unrounded score, score rounded to 1 decimal, mode echoed. */
  function Respond(score: real, advice: seq<Line>, mode: AnalysisMode): (r: PredictionResponse)
    ensures r.predictedScore * 10.0 == RoundHalfEven(score * 10.0) as real
    ensures Abs(r.predictedScore - score) <= 1.0 / 20.0
    ensures r.predictedGrade == Text(ScoreToGrade(score)) && r.analysisMode == ModeText(mode)
    ensures r.textAdvice == advice
    ensures 0.0 <= score <= 100.0 ==> 0.0 <= r.predictedScore <= 100.0
  {
    assert Pow10(1) == 10.0;
    assert 0.0 <= score <= 100.0 ==> 0.0 <= RoundTo(score, 1) <= 100.0 by {
      if 0.0 <= score <= 100.0 {
        RoundedScoreInRange(score);
      }
    }
    PredictionResponse(RoundTo(score, 1), Text(ScoreToGrade(score)), ModeText(mode), advice)
  }

  /** `round(score, 1)` of a score in [0, 100] stays in [0, 100]. */
  lemma RoundedScoreInRange(score: real)
    requires 0.0 <= score <= 100.0
    ensures 0.0 <= RoundTo(score, 1) <= 100.0
  {
    assert Pow10(1) == 10.0;
    RoundHalfEvenMonotone(0.0, score * 10.0);
    RoundHalfEvenMonotone(score * 10.0, 1000.0);
    RoundHalfEvenOfInt(0);
    RoundHalfEvenOfInt(1000);
  }

  /**
   * `analyze` as written: the result of every predictor is unpacked into
   * two names, so the 3-tuple of the deep mode raises inside the `try`
   * and becomes a 500 like any other inference error.
   */
  function AnalyzeAsWritten(st: EngineState, req: PredictionRequest): (r: HttpResult)
    ensures Validate(req).None? <==> r == HttpError(422)
    ensures r.Ok? ==> Validate(req).Some? && st.dt.Some? && Validate(req).value.1 != Deep
    ensures r.Ok? ==> 0.0 <= r.response.predictedScore <= 100.0
  {
    match Validate(req)
    case None => HttpError(422)
    case Some((x, mode)) =>
      if st.dt.None? then HttpError(503)
      else
        match Predict(st, mode, x)
        case Pair(score, advice) => Ok(Respond(score, advice, mode))
        case Triple(_, _, _) => HttpError(500)
        case Raised(_) => HttpError(500)
  }

  /** With the models ready, every valid deep request is answered with a 500. */
  lemma DeepAlwaysFailsAsWritten(st: EngineState, req: PredictionRequest)
    requires Validate(req).Some? && Validate(req).value.1 == Deep && st.dt.Some?
    ensures AnalyzeAsWritten(st, req) == HttpError(500)
  {
  }

  /**
   * `analyze`, with the deep result unpacked into three names; the
   * structured attribution list has no field in the response and is
   * dropped.
   */
  function Analyze(st: EngineState, req: PredictionRequest): (r: HttpResult)
    ensures Validate(req).None? <==> r == HttpError(422)
    ensures Validate(req).Some? && st.dt.None? ==> r == HttpError(503)
    ensures r.Ok? ==> Validate(req).Some? && st.dt.Some? && r.response.analysisMode == ModeText(Validate(req).value.1)
    ensures r.Ok? ==> 0.0 <= r.response.predictedScore <= 100.0
  {
    match Validate(req)
    case None => HttpError(422)
    case Some((x, mode)) =>
      if st.dt.None? then HttpError(503)
      else
        match Predict(st, mode, x)
        case Pair(score, advice) => Ok(Respond(score, advice, mode))
        case Triple(score, advice, _) => Ok(Respond(score, advice, mode))
        case Raised(_) => HttpError(500)
  }

  /**
   * On a ready engine the corrected endpoint answers every mode whose
   * model is loaded and whose inputs are consistent, and the response
   * carries the predictor's score (rounded) and its advice.
   */
  lemma AnalyzeOutcome(st: EngineState, req: PredictionRequest)
    requires Validate(req).Some? && st.dt.Some?
    ensures var (x, mode) := Validate(req).value;
      var o := Predict(st, mode, x);
      && (o.Raised? <==> Analyze(st, req) == HttpError(500))
      && (!o.Raised? ==> Analyze(st, req) == Ok(Respond(o.score, o.advice, mode)))
  {
  }

  /** The corrected and the written endpoint agree on every request except deep ones. */
  lemma AgreesExceptDeep(st: EngineState, req: PredictionRequest)
    requires Validate(req).Some? ==> Validate(req).value.1 != Deep
    ensures Analyze(st, req) == AnalyzeAsWritten(st, req)
  {
  }

  /** A ready engine with a forest answers every valid deep request. */
  lemma DeepAnswered(st: EngineState, req: PredictionRequest)
    requires Validate(req).Some? && Validate(req).value.1 == Deep && st.dt.Some? && st.rf.Some?
    ensures Analyze(st, req).Ok?
    ensures Analyze(st, req).response.analysisMode == "deep"
  {
  }

  /**
   * The grade is taken from the unrounded score, so it can differ from the
   * grade of the score shown: 89.46 is shown as 89.5 (an A+ score) but is
   * graded A.
   */
  lemma GradeOfUnroundedScore()
    ensures Respond(89.46, [], Strict).predictedScore == 89.5
    ensures Respond(89.46, [], Strict).predictedGrade == "A"
    ensures ScoreToGrade(89.5) == APlus
  {
    RoundHalfEvenUnique(894.6, 895);
    RoundHalfEvenUnique(89.46, 89);
    GradeBoundaries();
  }
}
