/** Decay of an edge's confidence with stale evidence, over the reals. */
module Confidence {
  import opened Symbols

  function Power(x: real, n: nat): real {
    if n == 0 then 1.0 else x * Power(x, n - 1)
  }

  /** `powi`: a negative exponent inverts. */
  function PowerInt(x: real, n: int): real
    requires x > 0.0
  {
    PowerPositive(x, if n < 0 then -n else n);
    if n >= 0 then Power(x, n) else 1.0 / Power(x, -n)
  }

  lemma {:induction false} PowerPositive(x: real, n: nat)
    requires x > 0.0
    ensures Power(x, n) > 0.0
  {
    if n > 0 {
      PowerPositive(x, n - 1);
    }
  }

  /** The counter is reinterpreted as a signed 32-bit exponent. */
  function AsI32(n: u32): int {
    if n < I32_LIMIT then n else n - 0x1_0000_0000
  }

  const DECAY: real := 0.7

  /** Baseline of the origin times 0.7 to the number of stale evidence files. */
  function CurrentConfidence(e: DirectEdge): real {
    BaseScore(e.origin) * PowerInt(DECAY, AsI32(e.staleEvidenceCount))
  }

  lemma {:induction false} PowerSplit(x: real, a: nat, b: nat)
    ensures Power(x, a + b) == Power(x, a) * Power(x, b)
  {
    if a > 0 {
      PowerSplit(x, a - 1, b);
      assert Power(x, a + b) == x * Power(x, (a - 1) + b);
    }
  }

  lemma {:induction false} PowerBelowOne(n: nat)
    ensures 0.0 < Power(DECAY, n) <= 1.0
    ensures n > 0 ==> Power(DECAY, n) < 1.0
  {
    if n > 0 {
      PowerBelowOne(n - 1);
    }
  }

  /** As long as the counter stays below the sign bit, n more stale files cost a factor 0.7 each. */
  lemma DecaysPerStaleFile(e: DirectEdge, n: nat)
    requires e.staleEvidenceCount + n < I32_LIMIT
    ensures CurrentConfidence(e.(staleEvidenceCount := e.staleEvidenceCount + n)) ==
              CurrentConfidence(e) * Power(DECAY, n)
    ensures CurrentConfidence(e.(staleEvidenceCount := e.staleEvidenceCount + n)) ==
            BaseScore(e.origin) * Power(DECAY, e.staleEvidenceCount + n)
  {
    hide BaseScore, Power;
    var e2 := e.(staleEvidenceCount := e.staleEvidenceCount + n);
    PowerSplit(DECAY, e.staleEvidenceCount, n);
    BelowSignBit(e);
    BelowSignBit(e2);
    Reassociate(BaseScore(e.origin), Power(DECAY, e.staleEvidenceCount), Power(DECAY, n));
  }

  lemma BelowSignBit(e: DirectEdge)
    requires e.staleEvidenceCount < I32_LIMIT
    ensures CurrentConfidence(e) == BaseScore(e.origin) * Power(DECAY, e.staleEvidenceCount)
  {
    hide BaseScore;
  }

  lemma Reassociate(x: real, y: real, z: real)
    ensures x * (y * z) == (x * y) * z
  {
  }

  /**
    Staleness lowers confidence only below 2^31 stale files: from there on the exponent is
    negative and the confidence exceeds the baseline.
   */
  lemma DecayHoldsBelowSignBit(e: DirectEdge)
    ensures CurrentConfidence(e) <= BaseScore(e.origin) <==> e.staleEvidenceCount < I32_LIMIT
  {
    var n := AsI32(e.staleEvidenceCount);
    if n >= 0 {
      PowerBelowOne(n);
      assert BaseScore(e.origin) * Power(DECAY, n) <= BaseScore(e.origin) * 1.0;
    } else {
      PowerBelowOne(-n);
      var p := Power(DECAY, -n);
      InverseExceedsOne(p);
      assert BaseScore(e.origin) * (1.0 / p) > BaseScore(e.origin) * 1.0;
    }
  }

  lemma InverseExceedsOne(p: real)
    requires 0.0 < p < 1.0
    ensures 1.0 / p > 1.0
  {
    assert (1.0 / p) * p == 1.0;
  }

  /** The worth of an origin, as documented. */
  function Worth(origin: AnalysisOrigin): real {
    match origin
    case CompilerDerived => 0.99
    case NameResolved => 0.95
    case SyntaxMatched => 0.85
    case PatternMatched => 0.6
    case ConventionInferred => 0.4
    case Dynamic => 0.2
  }

  /**
    Without stale files an edge has the worth of its origin; each further one takes three tenths of what
    is left, up to 2147483647 of them; with one more the confidence exceeds that worth again.
   */
  lemma ConfidenceByStaleFiles(e: DirectEdge)
    ensures e.staleEvidenceCount == 0 ==> CurrentConfidence(e) == Worth(e.origin)
    ensures e.staleEvidenceCount < 2147483647 ==>
              CurrentConfidence(e.(staleEvidenceCount := e.staleEvidenceCount + 1)) == CurrentConfidence(e) * 0.7
    ensures CurrentConfidence(e) > Worth(e.origin) <==> e.staleEvidenceCount > 2147483647
  {
    hide PowerInt, AsI32, CurrentConfidence;
    DecayHoldsBelowSignBit(e);
    assert Power(DECAY, 0) == 1.0 && Power(DECAY, 1) == 0.7;
    if e.staleEvidenceCount == 0 {
      BelowSignBit(e);
    }
    if e.staleEvidenceCount < 2147483647 {
      DecaysPerStaleFile(e, 1);
    }
  }
}
