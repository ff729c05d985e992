/** The app's session state and its two views: the intake form, and the
    result tile that shows the last prediction. */
module Session {
  import opened Common
  import opened Intake
  import opened Training

  /** `st.session_state.mode`: "form" or "result". */
  datatype Mode = FormView | ResultView

  /** A session-state key, which may not have been set yet. */
  datatype Slot<T> = Absent | Present(value: T)

  /** The stored result: the probability, the threshold it was judged
      against, and the decision. */
  datatype Prediction = Prediction(prob: Probability, thr: real, isRisk: bool)

  /** `if key not in st.session_state: st.session_state.key = v`. */
  function SetDefault<T>(s: Slot<T>, v: T): Slot<T>
  {
    if s.Present? then s else Present(v)
  }

  /** Setting a default yields a value, keeps one already there, and doing it
      again changes nothing. */
  lemma SetDefaultProperties<T>(s: Slot<T>, v: T)
    ensures SetDefault(s, v).Present?
    ensures s.Present? ==> SetDefault(s, v) == s
    ensures SetDefault(SetDefault(s, v), v) == SetDefault(s, v)
  {
  }

  /** The decision on a probability: at risk from the threshold up. */
  function Decide(prob: Probability, thr: real): (p: Prediction)
    ensures p.prob == prob && p.thr == thr
    ensures p.isRisk <==> prob >= thr
  {
    Prediction(prob, thr, prob >= thr)
  }

  /** The session of one browser tab. */
  class SessionState {
    var mode: Slot<Mode>
    var threshold: Slot<real>
    var result: Slot<Option<Prediction>>

    /** A fresh session has no keys. */
    constructor()
      ensures mode == Absent && threshold == Absent && result == Absent
    {
      mode := Absent;
      threshold := Absent;
      result := Absent;
    }

    /** Every key the page reads has been set. */
    predicate Ready()
      reads this
    {
      mode.Present? && threshold.Present? && result.Present?
    }

    /** The start of every run of the page: each key not yet in the session
        gets its default (the form view, the configured threshold, no
        result); keys already there are left alone. */
    method Initialize(defaultThreshold: real)
      modifies this
      ensures mode == SetDefault(old(mode), FormView)
      ensures threshold == SetDefault(old(threshold), defaultThreshold)
      ensures result == SetDefault(old(result), None)
      ensures Ready()
    {
      if mode.Absent? {
        mode := Present(FormView);
      }
      if threshold.Absent? {
        threshold := Present(defaultThreshold);
      }
      if result.Absent? {
        result := Present(None);
      }
    }

    /** The slider stores its value as the threshold. */
    method SetThreshold(t: real)
      modifies this
      ensures threshold == Present(t) && mode == old(mode) && result == old(result)
    {
      threshold := Present(t);
    }

    /** "Predict" pressed on the form: with a field missing, the missing
        fields are reported and nothing else happens; otherwise the model is
        asked for the probability of the row, the decision is stored and the
        result view shown. */
    method Submit(f: Form, parseFloat: string -> Option<real>, model: Row -> Probability)
      returns (missing: seq<string>)
      requires Ready() && mode == Present(FormView)
      modifies this
      ensures missing == MissingFields(BuildRow(f, parseFloat))
      ensures threshold == old(threshold) && Ready()
      ensures missing != [] ==> mode == old(mode) && result == old(result)
      ensures missing == [] ==>
        mode == Present(ResultView) &&
        result == Present(Some(Decide(model(BuildRow(f, parseFloat)), old(threshold).value)))
    {
      var row := BuildRow(f, parseFloat);
      missing := MissingFields(row);
      if missing == [] {
        var prob := model(row);
        var thr := threshold.value;
        var isRisk := prob >= thr;
        assert Prediction(prob, thr, isRisk) == Decide(prob, thr);
        result := Present(Some(Prediction(prob, thr, isRisk)));
        mode := Present(ResultView);
      }
    }

    /** "Predict again" on the result view: back to the form, with the
        result and the threshold kept. */
    method PredictAgain()
      requires mode == Present(ResultView)
      modifies this
      ensures mode == Present(FormView)
      ensures result == old(result) && threshold == old(threshold)
    {
      mode := Present(FormView);
    }

    /** What the result view shows: the stored result, or a probability of 0
        against the current threshold when there is none. */
    function Displayed(): (p: Prediction)
      reads this
      requires Ready()
      ensures result.value.Some? ==> p == result.value.value
      ensures result.value.None? ==> p.prob == 0.0 && p.thr == threshold.value && !p.isRisk
    {
      match result.value
      case Some(p) => p
      case None => Prediction(0.0, threshold.value, false)
    }
  }

  /** A successful submit shows exactly the decision it stored. */
  method SubmitShows(s: SessionState, f: Form, parseFloat: string -> Option<real>, model: Row -> Probability)
    returns (shown: Prediction)
    requires s.Ready() && s.mode == Present(FormView)
    requires MissingFields(BuildRow(f, parseFloat)) == []
    modifies s
    ensures shown.isRisk <==> model(BuildRow(f, parseFloat)) >= old(s.threshold).value
    ensures shown.prob == model(BuildRow(f, parseFloat)) && shown.thr == old(s.threshold).value
  {
    var missing := s.Submit(f, parseFloat, model);
    shown := s.Displayed();
  }

  /** The risk class on the tile. */
  function RiskClass(p: Prediction): string
  {
    if p.isRisk then "High" else "Low"
  }

  /** The CSS class of the tile. */
  function CardClass(p: Prediction): string
  {
    if p.isRisk then "high" else "low"
  }

  /** The confidence on the tile: the probability of the class decided. */
  function Confidence(p: Prediction): real
  {
    if p.isRisk then p.prob else 1.0 - p.prob
  }

  /** "High" exactly for a risky prediction. */
  lemma RiskClassHigh(p: Prediction)
    ensures RiskClass(p) == "High" <==> p.isRisk
  {
    assert "Low" != "High" by {
      assert "Low"[0] != "High"[0];
    }
  }

  /** The tile is styled "high" exactly for a risky prediction. */
  lemma CardClassHigh(p: Prediction)
    ensures CardClass(p) == "high" <==> p.isRisk
  {
    assert "low" != "high" by {
      assert "low"[0] != "high"[0];
    }
  }

  /** The confidence is a probability, and it never falls below the side of
      the threshold the decision was made on. */
  lemma ConfidenceBound(prob: Probability, thr: real)
    ensures 0.0 <= Confidence(Decide(prob, thr)) <= 1.0
    ensures Decide(prob, thr).isRisk ==> Confidence(Decide(prob, thr)) >= thr
    ensures !Decide(prob, thr).isRisk ==> Confidence(Decide(prob, thr)) > 1.0 - thr
  {
  }

  /** At the training cutoff the app decides as the training script scores. */
  lemma AgreesWithTraining(proba: seq<Probability>, i: nat)
    requires i < |proba|
    ensures Decide(proba[i], TrainCutoff).isRisk <==> CutoffPredictions(proba)[i] == 1
  {
  }

  /** A higher probability, or a lower threshold, can only add risk. */
  lemma DecideMonotone(p: Probability, q: Probability, thr: real, thr': real)
    requires p <= q && thr' <= thr
    ensures Decide(p, thr).isRisk ==> Decide(q, thr').isRisk
  {
  }

  // ---------------------------------------------------------------- gauge

  function Clamp(lo: int, hi: int, x: int): int
  {
    if x < lo then lo else if x > hi then hi else x
  }

  /** `max(10, min(180, int(prob * 1.8)))` as the app writes it. */
  function GaugeAngleAsWritten(prob: Probability): (angle: int)
    ensures 10 <= angle <= 180
  {
    Clamp(10, 180, Trunc(prob * 1.8))
  }

  /** With a probability between 0 and 1 the product is at most 1.8, so the
      gauge never leaves its minimum: 0.9 draws 10 degrees, as 0.0 does. */
  lemma GaugeAsWrittenIsFlat(prob: Probability)
    ensures GaugeAngleAsWritten(prob) == 10
  {
    assert Trunc(prob * 1.8) <= 1;
  }

  /** The angle for the percentage the tile prints (`prob*100`), at 1.8 degrees
      per percent, clamped to [10, 180]. */
  function GaugeAngle(prob: Probability): (angle: int)
    ensures 10 <= angle <= 180
  {
    Clamp(10, 180, Trunc(prob * 180.0))
  }

  lemma TruncMonotone(x: real, y: real)
    requires 0.0 <= x <= y
    ensures Trunc(x) <= Trunc(y)
  {
  }

  /** The gauge grows with the probability, is full at certainty, and shows
      the probability unclamped from 10/180 up. */
  lemma GaugeTracksProbability(p: Probability, q: Probability)
    requires p <= q
    ensures GaugeAngle(p) <= GaugeAngle(q)
    ensures GaugeAngle(1.0) == 180
    ensures p >= 10.0 / 180.0 ==> GaugeAngle(p) == Trunc(p * 180.0)
  {
    TruncMonotone(p * 180.0, q * 180.0);
    assert Trunc(1.0 * 180.0) == 180;
  }

  /** The flat gauge differs from the intended one wherever the intended one
      leaves its minimum. */
  lemma GaugeDiscrepancy(prob: Probability)
    requires prob == 0.9
    ensures GaugeAngleAsWritten(prob) == 10 && GaugeAngle(prob) == 162
  {
    GaugeAsWrittenIsFlat(prob);
    assert prob * 180.0 == 162.0;
  }
}
