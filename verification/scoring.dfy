/** The shape of the scoring oracle's answer and the correctness threshold
    the LegalBench handler applies to it. */
module Scoring {
  import opened Wrappers
  import opened Values

  /** The oracle scores a batch either with one aggregate number (accuracy or
      F1 over the batch) or with one number per item. */
  datatype ScoreResult = Scalar(score: real) | PerItem(scores: seq<real>)

  /** Scores at or above this value are judged correct. */
  const Threshold: real := 0.5

  /** The single number the handler reads from an oracle answer: the scalar
      itself, or the first element of a per-item list. An empty list raises
      `IndexError`, as indexing it does. */
  function SoleScore(s: ScoreResult): (r: Result<real, Error>)
    ensures r.Failure? <==> s == PerItem([])
    ensures r.Failure? ==> r.error == IndexError
    ensures s.Scalar? ==> r == Success(s.score)
    ensures s.PerItem? && |s.scores| > 0 ==> r == Success(s.scores[0])
  {
    match s
    case Scalar(x) => Success(x)
    case PerItem(xs) => if |xs| == 0 then Failure(IndexError) else Success(xs[0])
  }

  /** The correctness verdict for an oracle answer. */
  function Verdict(s: ScoreResult): (r: Result<bool, Error>)
    ensures r.Success? <==> SoleScore(s).Success?
    ensures r.Failure? ==> r.error == IndexError
    ensures r.Success? ==> (r.value <==> SoleScore(s).value >= 0.5)
  {
    var x :- SoleScore(s);
    Success(x >= Threshold)
  }

  /** A one-element list and the bare scalar give the same verdict, and
      anything after the first element of a list is ignored. */
  lemma SingletonAgreesWithScalar(x: real, rest: seq<real>)
    ensures Verdict(PerItem([x] + rest)) == Verdict(Scalar(x))
    ensures Verdict(PerItem([x])) == Verdict(Scalar(x))
  {
    assert ([x] + rest)[0] == x;
  }

  /** The threshold is inclusive: exactly one half is correct, anything
      below is not. */
  lemma ThresholdIsInclusive(x: real)
    ensures Verdict(Scalar(0.5)) == Success(true)
    ensures x < 0.5 ==> Verdict(Scalar(x)) == Success(false)
    ensures x >= 0.5 ==> Verdict(Scalar(x)) == Success(true)
  {
  }

  /** Raising a score never turns a correct verdict into an incorrect one. */
  lemma VerdictMonotone(x: real, y: real)
    requires x <= y
    ensures Verdict(Scalar(x)) == Success(true) ==> Verdict(Scalar(y)) == Success(true)
  {
  }
}
