/** Evidence combination: the capped Noisy-OR step of `KnowledgeGraph.corroborate` and the batch form of the
    federated detector's `aggregate_noisy_or`. Confidences are reals; rounding is not modelled. */
module Confidence {
  import opened Common

  const CORROBORATION_CAP: real := 0.99

  predicate IsConfidence(c: real) {
    0.0 <= c <= 1.0
  }

  type Confidence = c: real | IsConfidence(c) witness 1.0

  predicate AllConfidences(cs: seq<real>) {
    forall i :: 0 <= i < |cs| ==> IsConfidence(cs[i])
  }

  function Capped(x: real): real {
    if x < CORROBORATION_CAP then x else CORROBORATION_CAP
  }

  /** The confidence a row holds after one more piece of evidence. */
  function Corroborated(prior: real, incoming: real): real {
    Capped(1.0 - (1.0 - prior) * (1.0 - incoming))
  }

  /** A row's confidence after a whole history of corroborations, oldest first. */
  function Stepwise(initial: real, incoming: seq<real>): real {
    if incoming == [] then initial
    else Corroborated(Stepwise(initial, incoming[..|incoming| - 1]), incoming[|incoming| - 1])
  }

  /** The probability that this source is wrong too. */
  function Discount(doubt: real, c: real): real {
    doubt * (1.0 - c)
  }

  /** The probability that every one of the independent sources is wrong. */
  function Doubt(cs: seq<real>): real {
    Fold(Discount, 1.0, cs)
  }

  function NoisyOr(cs: seq<real>): real {
    Capped(1.0 - Doubt(cs))
  }

  datatype AggregateError = OutOfRange(c: real)

  method AggregateNoisyOr(confidences: seq<real>) returns (r: Result<real, AggregateError>)
    ensures r.Ok? <==> AllConfidences(confidences)
    ensures r.Ok? ==> r.value == NoisyOr(confidences)
    ensures r.Err? ==> r.error.c in confidences && !IsConfidence(r.error.c)
  {
    var product := 1.0;
    for i := 0 to |confidences|
      invariant AllConfidences(confidences[..i])
      invariant product == Doubt(confidences[..i])
    {
      var c := confidences[i];
      if !IsConfidence(c) {
        return Err(OutOfRange(c));
      }
      assert confidences[..i + 1][..i] == confidences[..i];
      product := product * (1.0 - c);
    }
    assert confidences[..|confidences|] == confidences;
    return Ok(Capped(1.0 - product));
  }

  // ----- Order independence -----

  lemma {:induction false} DoubtRange(cs: seq<real>)
    requires AllConfidences(cs)
    ensures 0.0 <= Doubt(cs) <= 1.0
  {
    if cs != [] {
      DoubtRange(cs[..|cs| - 1]);
      ProductRange(Doubt(cs[..|cs| - 1]), 1.0 - cs[|cs| - 1]);
    }
  }

  lemma ProductRange(a: real, b: real)
    requires 0.0 <= a <= 1.0 && 0.0 <= b <= 1.0
    ensures 0.0 <= a * b <= a
  {}

  lemma DoubtSnoc(cs: seq<real>, c: real)
    ensures Doubt(cs + [c]) == Doubt(cs) * (1.0 - c)
  {
    assert (cs + [c])[..|cs|] == cs;
  }

  lemma DiscountCommutes()
    ensures Commutes(Discount)
  {
    forall d, a, b
      ensures Discount(Discount(d, a), b) == Discount(Discount(d, b), a)
    {
      assert (d * (1.0 - a)) * (1.0 - b) == (d * (1.0 - b)) * (1.0 - a);
    }
  }

  lemma DoubtPermutation(cs: seq<real>, ds: seq<real>)
    requires multiset(cs) == multiset(ds)
    ensures Doubt(cs) == Doubt(ds)
  {
    DiscountCommutes();
    FoldPermutation(Discount, 1.0, cs, ds);
  }

  // ----- The fold and the batch formula agree -----

  /** One capped step on a capped Noisy-OR is the capped Noisy-OR of the longer list. */
  lemma CorroborateExtends(doubt: real, incoming: real)
    requires 0.0 <= doubt <= 1.0 && IsConfidence(incoming)
    ensures Corroborated(Capped(1.0 - doubt), incoming) == Capped(1.0 - doubt * (1.0 - incoming))
  {
    ProductRange(doubt, 1.0 - incoming);
    if 1.0 - doubt >= CORROBORATION_CAP {
      ProductRange(0.01, 1.0 - incoming);
      assert 1.0 - CORROBORATION_CAP == 0.01;
    }
  }

  lemma NoisyOrSnoc(cs: seq<real>, c: real)
    requires AllConfidences(cs) && IsConfidence(c)
    ensures NoisyOr(cs + [c]) == Corroborated(NoisyOr(cs), c)
  {
    DoubtSnoc(cs, c);
    DoubtRange(cs);
    CorroborateExtends(Doubt(cs), c);
  }

  /** Corroborating source by source gives what aggregating all the sources at once gives, for every starting
      confidence (above the cap included) and every non-empty list of further evidence. */
  lemma {:induction false} StepwiseIsBatch(initial: real, incoming: seq<real>)
    requires IsConfidence(initial) && AllConfidences(incoming) && incoming != []
    ensures Stepwise(initial, incoming) == NoisyOr([initial] + incoming)
  {
    var n := |incoming| - 1;
    var front, last := incoming[..n], incoming[n];
    assert [initial] + incoming == ([initial] + front) + [last];
    if n == 0 {
      assert [initial] + front == [initial];
      FirstCorroboration(initial, last);
    } else {
      StepwiseIsBatch(initial, front);
      NoisyOrSnoc([initial] + front, last);
    }
  }

  /** The first step starts from the seed itself, which may stand above the cap. */
  lemma FirstCorroboration(initial: real, incoming: real)
    ensures Corroborated(initial, incoming) == NoisyOr([initial] + [incoming])
  {
    DoubtSnoc([], initial);
    DoubtSnoc([initial], incoming);
    assert [] + [initial] == [initial];
  }

  /** Which source came first does not matter, the seed included. */
  lemma StepwiseOrderIndependent(a: real, cs: seq<real>, b: real, ds: seq<real>)
    requires IsConfidence(a) && AllConfidences(cs) && cs != []
    requires IsConfidence(b) && AllConfidences(ds) && ds != []
    requires multiset([a] + cs) == multiset([b] + ds)
    ensures Stepwise(a, cs) == Stepwise(b, ds)
  {
    StepwiseIsBatch(a, cs);
    StepwiseIsBatch(b, ds);
    DoubtPermutation([a] + cs, [b] + ds);
  }

  /** Evidence never brings a row to certainty, and it lowers a row's confidence exactly when that confidence
      stood above the cap. */
  lemma CorroborationMonotone(prior: real, incoming: real)
    requires IsConfidence(prior) && IsConfidence(incoming)
    ensures 0.0 <= Corroborated(prior, incoming) <= CORROBORATION_CAP
    ensures Corroborated(prior, incoming) >= prior <==> prior <= CORROBORATION_CAP
    ensures prior > CORROBORATION_CAP ==> Corroborated(prior, incoming) == CORROBORATION_CAP
  {
    ProductRange(1.0 - prior, 1.0 - incoming);
    CapMeets(prior, (1.0 - prior) * (1.0 - incoming));
  }

  lemma CapMeets(prior: real, doubt: real)
    requires IsConfidence(prior) && 0.0 <= doubt <= 1.0 - prior
    ensures 0.0 <= Capped(1.0 - doubt) <= CORROBORATION_CAP
    ensures Capped(1.0 - doubt) >= prior <==> prior <= CORROBORATION_CAP
    ensures prior > CORROBORATION_CAP ==> Capped(1.0 - doubt) == CORROBORATION_CAP
  {}

  lemma {:induction false} StepwiseRange(initial: real, incoming: seq<real>)
    requires IsConfidence(initial) && AllConfidences(incoming)
    ensures IsConfidence(Stepwise(initial, incoming))
    ensures incoming != [] ==> Stepwise(initial, incoming) <= CORROBORATION_CAP
    ensures initial <= CORROBORATION_CAP ==> initial <= Stepwise(initial, incoming)
  {
    if incoming != [] {
      var front := incoming[..|incoming| - 1];
      StepwiseRange(initial, front);
      CorroborationMonotone(Stepwise(initial, front), incoming[|incoming| - 1]);
    }
  }
}
