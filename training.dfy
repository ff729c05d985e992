/** The validation step of the training script that the app's decision rule
    mirrors: a predicted probability becomes the class 1 at 0.5 and above. */
module Training {
  import opened Common

  /** The cutoff the training script scores its validation predictions with. */
  const TrainCutoff: real := 0.5

  /** `(proba >= 0.5).astype(int)`: one class per probability. */
  function CutoffPredictions(proba: seq<Probability>): (preds: seq<int>)
    ensures |preds| == |proba|
    ensures forall i :: 0 <= i < |proba| ==> preds[i] == 0 || preds[i] == 1
    ensures forall i :: 0 <= i < |proba| ==> (preds[i] == 1 <==> proba[i] >= TrainCutoff)
  {
    seq(|proba|, i requires 0 <= i < |proba| => if proba[i] >= TrainCutoff then 1 else 0)
  }

  /** A higher probability never gets the lower class. */
  lemma CutoffMonotone(proba: seq<Probability>, i: nat, j: nat)
    requires i < |proba| && j < |proba| && proba[i] <= proba[j]
    ensures CutoffPredictions(proba)[i] <= CutoffPredictions(proba)[j]
  {
  }

  /** The predictions of a concatenation are the concatenated predictions. */
  lemma CutoffConcat(a: seq<Probability>, b: seq<Probability>)
    ensures CutoffPredictions(a + b) == CutoffPredictions(a) + CutoffPredictions(b)
  {
    assert |CutoffPredictions(a + b)| == |CutoffPredictions(a) + CutoffPredictions(b)|;
    forall i | 0 <= i < |a + b|
      ensures CutoffPredictions(a + b)[i] == (CutoffPredictions(a) + CutoffPredictions(b))[i]
    {
      if i < |a| {
        assert (a + b)[i] == a[i];
      } else {
        assert (a + b)[i] == b[i - |a|];
      }
    }
  }
}
