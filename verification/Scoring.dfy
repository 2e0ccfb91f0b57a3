/** Fixed-point rule scoring over exact rationals. */
module Scoring {
  import opened Domain

  function Abs(x: real): real {
    if x < 0.0 then -x else x
  }

  function Max(x: real, y: real): real {
    if x < y then y else x
  }

  /** Rounding to the nearest integer, ties to the even one. */
  function RoundHalfEven(x: real): int {
    var below := x.Floor;
    var rest := x - below as real;
    if rest < 0.5 then below
    else if rest > 0.5 then below + 1
    else if below % 2 == 0 then below
    else below + 1
  }

  /** The rounding meets its definition, and only one integer does. */
  lemma RoundsToNearestEven(x: real, n: int)
    ensures n == RoundHalfEven(x) <==>
            Abs(n as real - x) < 0.5 || (Abs(n as real - x) == 0.5 && n % 2 == 0)
  {
    var below := x.Floor;
    assert below as real <= x < below as real + 1.0;
    if n < below {
      assert n as real <= below as real - 1.0;
    } else if n > below + 1 {
      assert n as real >= below as real + 2.0;
    }
  }

  lemma RoundMonotone(x: real, y: real)
    requires x <= y
    ensures RoundHalfEven(x) <= RoundHalfEven(y)
  {
    var a, b := RoundHalfEven(x), RoundHalfEven(y);
    RoundsToNearestEven(x, a);
    RoundsToNearestEven(y, b);
    assert a as real <= x + 0.5 && y - 0.5 <= b as real;
  }

  lemma RoundOfInteger(n: int)
    ensures RoundHalfEven(n as real) == n
  {
    RoundsToNearestEven(n as real, n);
  }

  function LinearSimilarity(difference: real, band: real): (factor: real)
    requires 0.0 <= difference && 0.0 <= band
  {
    if band == 0.0 then (if difference == 0.0 then 1.0 else 0.0)
    else Max(0.0, 1.0 - difference / band)
  }

  lemma SimilarityInUnit(difference: real, band: real)
    requires 0.0 <= difference && 0.0 <= band
    ensures 0.0 <= LinearSimilarity(difference, band) <= 1.0
    ensures LinearSimilarity(difference, band) == 1.0 <==> difference == 0.0
  {
    if band > 0.0 {
      assert difference / band * band == difference;
    }
  }

  lemma SimilarityNonIncreasing(small: real, large: real, band: real)
    requires 0.0 <= small <= large && 0.0 <= band
    ensures LinearSimilarity(large, band) <= LinearSimilarity(small, band)
  {
    if band > 0.0 {
      assert large / band - small / band == (large - small) / band;
      assert (large - small) / band >= 0.0;
    }
  }

  /** What one feature contributes for a given difference, band and weight. */
  function Contribution(difference: real, band: real, weight: nat): int
    requires 0.0 <= difference && 0.0 <= band
  {
    RoundHalfEven(weight as real * LinearSimilarity(difference, band))
  }

  lemma ScaleOrder(k: real, x: real, y: real)
    requires 0.0 <= k && x <= y
    ensures k * x <= k * y
  {
    assert k * (y - x) >= 0.0;
  }

  /** For a fixed band and weight, a larger difference never contributes more. */
  lemma ContributionNonIncreasing(small: real, large: real, band: real, weight: nat)
    requires 0.0 <= small <= large && 0.0 <= band
    ensures Contribution(large, band, weight) <= Contribution(small, band, weight)
  {
    SimilarityNonIncreasing(small, large, band);
    ScaleOrder(weight as real, LinearSimilarity(large, band), LinearSimilarity(small, band));
    RoundMonotone(weight as real * LinearSimilarity(large, band), weight as real * LinearSimilarity(small, band));
  }

  // ----- evidence -----

  function NumericBand(left: real, right: real, policy: NumericPolicy): real {
    Max(policy.absoluteBand, policy.relativeBand * Max(Abs(left), Abs(right)))
  }

  function NumericFactor(left: Option<real>, right: Option<real>, policy: NumericPolicy): real
    requires policy.Valid()
  {
    if left.None? || right.None? then 0.0
    else LinearSimilarity(Abs(right.value - left.value), NumericBand(left.value, right.value, policy))
  }

  function TimestampFactor(left: Option<int>, right: Option<int>, band: nat): real {
    if left.None? || right.None? then 0.0
    else LinearSimilarity(Abs((right.value - left.value) as real / 1_000_000.0), band as real / 1_000_000.0)
  }

  function Feature(present: bool, similarity: real, share: real, weight: nat): FeatureEvidence {
    if !present then FeatureEvidence(false, 0, weight, 0)
    else FeatureEvidence(true, RoundHalfEven(similarity), weight, RoundHalfEven(share))
  }

  /** One value for each matching feature. */
  datatype Quad = Quad(quantity: real, timestamp: real, unitPrice: real, grossAmount: real)

  datatype Present = Present(quantity: bool, timestamp: bool, unitPrice: bool, grossAmount: bool)

  function Factors(left: Record, right: Record, policy: MatchingPolicy): Quad
    requires policy.Valid()
  {
    Quad(NumericFactor(left.quantity, right.quantity, policy.quantity),
     TimestampFactor(left.executedAt, right.executedAt, policy.timestampBand),
     NumericFactor(left.unitPrice, right.unitPrice, policy.unitPrice),
     NumericFactor(left.grossAmount, right.grossAmount, policy.grossAmount))
  }

  predicate BothPresent<T>(left: Option<T>, right: Option<T>) {
    left.Some? && right.Some?
  }

  function Presence(left: Record, right: Record): Present {
    Present(
      BothPresent(left.quantity, right.quantity), BothPresent(left.executedAt, right.executedAt),
      BothPresent(left.unitPrice, right.unitPrice), BothPresent(left.grossAmount, right.grossAmount))
  }

  /** Each feature's share of the score, weight times factor, before rounding. */
  function Shares(f: Quad, w: Weights): Quad {
    Quad(w.quantity as real * f.quantity, w.timestamp as real * f.timestamp,
         w.unitPrice as real * f.unitPrice, w.grossAmount as real * f.grossAmount)
  }

  const FULL := Weights(10_000, 10_000, 10_000, 10_000)

  function FeaturesOf(present: Present, similarity: Quad, share: Quad, w: Weights): (features: seq<FeatureEvidence>)
    ensures |features| == 4
  {
    [Feature(present.quantity, similarity.quantity, share.quantity, w.quantity),
     Feature(present.timestamp, similarity.timestamp, share.timestamp, w.timestamp),
     Feature(present.unitPrice, similarity.unitPrice, share.unitPrice, w.unitPrice),
     Feature(present.grossAmount, similarity.grossAmount, share.grossAmount, w.grossAmount)]
  }

  function Features(left: Record, right: Record, policy: MatchingPolicy): (features: seq<FeatureEvidence>)
    requires policy.Valid()
    ensures |features| == 4
  {
    var f := Factors(left, right, policy);
    FeaturesOf(Presence(left, right), Shares(f, FULL), Shares(f, policy.weights), policy.weights)
  }

  predicate Differ<T(==)>(left: Option<T>, right: Option<T>) {
    left.Some? && right.Some? && left.value != right.value
  }

  /** A contradiction holds when both values are present and differ, for the fields compared
      under the reference contract. */
  predicate Contradicts(c: Contradiction, left: Record, right: Record, contract: ReferenceContract) {
    match c
    case InstrumentMismatch => Differ(left.instrument, right.instrument)
    case SideMismatch => Differ(left.side, right.side)
    case CurrencyMismatch => Differ(left.currency, right.currency)
    case SharedReferenceMismatch => contract.SharedMustAgree? && Differ(left.reference, right.reference)
    case SharedAliasMismatch => contract.SourceLocalOrAlias? && Differ(left.alias, right.alias)
  }

  ghost function ContradictionSet(left: Record, right: Record, contract: ReferenceContract): set<Contradiction> {
    set c: Contradiction | Contradicts(c, left, right, contract)
  }

  method Contradictions(left: Record, right: Record, contract: ReferenceContract)
    returns (values: set<Contradiction>)
    ensures forall c :: c in values <==> Contradicts(c, left, right, contract)
  {
    values := {};
    if Differ(left.instrument, right.instrument) {
      values := values + {InstrumentMismatch};
    }
    if Differ(left.side, right.side) {
      values := values + {SideMismatch};
    }
    if Differ(left.currency, right.currency) {
      values := values + {CurrencyMismatch};
    }
    if contract.SharedMustAgree? {
      if Differ(left.reference, right.reference) {
        values := values + {SharedReferenceMismatch};
      }
    } else if Differ(left.alias, right.alias) {
      values := values + {SharedAliasMismatch};
    }
  }

  predicate Misses(c: CoverageFailure, left: Record, right: Record) {
    match c
    case MissingInstrument => !BothPresent(left.instrument, right.instrument)
    case MissingSide => !BothPresent(left.side, right.side)
    case MissingCurrency => !BothPresent(left.currency, right.currency)
    case MissingQuantity => !BothPresent(left.quantity, right.quantity)
    case MissingTimestamp => !BothPresent(left.executedAt, right.executedAt)
    case MissingMonetaryField =>
      !BothPresent(left.unitPrice, right.unitPrice) && !BothPresent(left.grossAmount, right.grossAmount)
  }

  ghost function CoverageSet(left: Record, right: Record): set<CoverageFailure> {
    set c: CoverageFailure | Misses(c, left, right)
  }

  function AddIf(values: set<CoverageFailure>, value: CoverageFailure, condition: bool): set<CoverageFailure> {
    if condition then values + {value} else values
  }

  method CoverageFailures(left: Record, right: Record) returns (values: set<CoverageFailure>)
    ensures forall c :: c in values <==> Misses(c, left, right)
  {
    values := AddIf({}, MissingInstrument, !BothPresent(left.instrument, right.instrument));
    values := AddIf(values, MissingSide, !BothPresent(left.side, right.side));
    values := AddIf(values, MissingCurrency, !BothPresent(left.currency, right.currency));
    values := AddIf(values, MissingQuantity, !BothPresent(left.quantity, right.quantity));
    values := AddIf(values, MissingTimestamp, !BothPresent(left.executedAt, right.executedAt));
    var price := BothPresent(left.unitPrice, right.unitPrice);
    var amount := BothPresent(left.grossAmount, right.grossAmount);
    values := AddIf(values, MissingMonetaryField, !price && !amount);
  }

  function ScoreOf(features: seq<FeatureEvidence>): int
    requires |features| == 4
  {
    features[0].contribution + features[1].contribution + features[2].contribution + features[3].contribution
  }

  /** The evidence of a record pair under a policy. */
  ghost function EvidenceFor(left: Record, right: Record, reasons: set<string>, complete: bool,
                             policy: MatchingPolicy): Evidence
    requires policy.Valid()
  {
    Evidence(reasons, Features(left, right, policy), ContradictionSet(left, right, policy.contract),
             CoverageSet(left, right), CoverageSet(left, right) == {}, complete,
             ScoreOf(Features(left, right, policy)))
  }

  /** The checks the evidence constructors make. */
  predicate EvidenceValid(e: Evidence) {
    && e.reasons != {}
    && |e.features| == 4
    && (forall k :: 0 <= k < |e.features| ==> FeatureValid(e.features[k]) && e.features[k].weight <= SCALE)
    && 0 <= e.score <= SCALE
    && e.score == ScoreOf(e.features)
    && (e.coverageSufficient <==> e.coverageFailures == {})
  }

  method ScoreCandidate(left: Record, right: Record, reasons: set<string>, complete: bool, policy: MatchingPolicy)
    returns (e: Evidence)
    requires policy.Valid()
    ensures e == EvidenceFor(left, right, reasons, complete, policy)
    ensures e.reasons == reasons && e.complete == complete && EvidenceMeans(e, left, right, policy)
  {
    var features := Features(left, right, policy);
    var contradictions := Contradictions(left, right, policy.contract);
    var failures := CoverageFailures(left, right);
    e := Evidence(reasons, features, contradictions, failures, failures == {}, complete, ScoreOf(features));
    assert contradictions == ContradictionSet(left, right, policy.contract);
    assert failures == CoverageSet(left, right);
    EvidenceMeansTheFields(left, right, reasons, complete, policy);
  }

  // ----- properties of the score -----

  function Score(left: Record, right: Record, policy: MatchingPolicy): int
    requires policy.Valid()
  {
    ScoreOf(Features(left, right, policy))
  }

  function Sum(x: Quad): real {
    x.quantity + x.timestamp + x.unitPrice + x.grossAmount
  }

  /** The weighted similarity before any rounding, in basis points. */
  function ExactScore(left: Record, right: Record, policy: MatchingPolicy): real
    requires policy.Valid()
  {
    Sum(Shares(Factors(left, right, policy), policy.weights))
  }

  predicate ShareWithin(present: bool, share: real, weight: nat) {
    0.0 <= share <= weight as real && (!present ==> share == 0.0)
  }

  predicate SharesWithin(present: Present, share: Quad, w: Weights) {
    && ShareWithin(present.quantity, share.quantity, w.quantity)
    && ShareWithin(present.timestamp, share.timestamp, w.timestamp)
    && ShareWithin(present.unitPrice, share.unitPrice, w.unitPrice)
    && ShareWithin(present.grossAmount, share.grossAmount, w.grossAmount)
  }

  ghost predicate UnitFactor(present: bool, factor: real) {
    0.0 <= factor <= 1.0 && (!present ==> factor == 0.0)
  }

  lemma NumericFactorInUnit(left: Option<real>, right: Option<real>, policy: NumericPolicy)
    requires policy.Valid()
    ensures UnitFactor(BothPresent(left, right), NumericFactor(left, right, policy))
  {
    if BothPresent(left, right) {
      SimilarityInUnit(Abs(right.value - left.value), NumericBand(left.value, right.value, policy));
    }
  }

  lemma TimestampFactorInUnit(left: Option<int>, right: Option<int>, band: nat)
    ensures UnitFactor(BothPresent(left, right), TimestampFactor(left, right, band))
  {
    if BothPresent(left, right) {
      SimilarityInUnit(Abs((right.value - left.value) as real / 1_000_000.0), band as real / 1_000_000.0);
    }
  }

  lemma ShareInWeight(present: bool, factor: real, weight: nat)
    requires UnitFactor(present, factor)
    ensures ShareWithin(present, weight as real * factor, weight)
  {
    var w := weight as real;
    assert w * (1.0 - factor) == w - w * factor;
    assert 0.0 <= w * (1.0 - factor);
    assert 0.0 <= w * factor;
  }

  ghost predicate UnitFactors(present: Present, f: Quad) {
    && UnitFactor(present.quantity, f.quantity) && UnitFactor(present.timestamp, f.timestamp)
    && UnitFactor(present.unitPrice, f.unitPrice) && UnitFactor(present.grossAmount, f.grossAmount)
  }

  lemma FactorsInUnit(left: Record, right: Record, policy: MatchingPolicy)
    requires policy.Valid()
    ensures UnitFactors(Presence(left, right), Factors(left, right, policy))
  {
    NumericFactorInUnit(left.quantity, right.quantity, policy.quantity);
    TimestampFactorInUnit(left.executedAt, right.executedAt, policy.timestampBand);
    NumericFactorInUnit(left.unitPrice, right.unitPrice, policy.unitPrice);
    NumericFactorInUnit(left.grossAmount, right.grossAmount, policy.grossAmount);
  }

  lemma UnitFactorsInWeights(p: Present, f: Quad, w: Weights)
    requires UnitFactors(p, f)
    ensures SharesWithin(p, Shares(f, w), w)
  {
    ShareInWeight(p.quantity, f.quantity, w.quantity);
    ShareInWeight(p.timestamp, f.timestamp, w.timestamp);
    ShareInWeight(p.unitPrice, f.unitPrice, w.unitPrice);
    ShareInWeight(p.grossAmount, f.grossAmount, w.grossAmount);
  }

  lemma SharesInWeights(left: Record, right: Record, policy: MatchingPolicy, w: Weights)
    requires policy.Valid()
    ensures SharesWithin(Presence(left, right), Shares(Factors(left, right, policy), w), w)
  {
    FactorsInUnit(left, right, policy);
    UnitFactorsInWeights(Presence(left, right), Factors(left, right, policy), w);
  }

  predicate FeatureValid(f: FeatureEvidence) {
    && 0 <= f.similarity <= SCALE && 0 <= f.contribution <= f.weight
    && (!f.present ==> f.similarity == 0 && f.contribution == 0)
  }

  lemma RoundWithin(x: real, weight: nat)
    requires 0.0 <= x <= weight as real
    ensures 0 <= RoundHalfEven(x) <= weight
    ensures -0.5 <= RoundHalfEven(x) as real - x <= 0.5
  {
    RoundMonotone(0.0, x);
    RoundMonotone(x, weight as real);
    RoundOfInteger(0);
    RoundOfInteger(weight);
    RoundsToNearestEven(x, RoundHalfEven(x));
  }

  lemma FeatureBounds(present: bool, similarity: real, share: real, weight: nat)
    requires ShareWithin(present, similarity, SCALE) && ShareWithin(present, share, weight)
    ensures var f := Feature(present, similarity, share, weight);
            && FeatureValid(f) && f.weight == weight
            && -0.5 <= f.contribution as real - share <= 0.5
  {
    RoundWithin(similarity, SCALE);
    RoundWithin(share, weight);
  }

  lemma FeaturesAreValidAndClose(present: Present, similarity: Quad, share: Quad, w: Weights)
    requires SharesWithin(present, similarity, FULL) && SharesWithin(present, share, w)
    ensures var e := FeaturesOf(present, similarity, share, w);
            && FeatureValid(e[0]) && FeatureValid(e[1]) && FeatureValid(e[2]) && FeatureValid(e[3])
            && 0 <= ScoreOf(e) <= w.quantity + w.timestamp + w.unitPrice + w.grossAmount
            && -2.0 <= ScoreOf(e) as real - Sum(share) <= 2.0
  {
    FeatureBounds(present.quantity, similarity.quantity, share.quantity, w.quantity);
    FeatureBounds(present.timestamp, similarity.timestamp, share.timestamp, w.timestamp);
    FeatureBounds(present.unitPrice, similarity.unitPrice, share.unitPrice, w.unitPrice);
    FeatureBounds(present.grossAmount, similarity.grossAmount, share.grossAmount, w.grossAmount);
  }

  /** No evidence constructor can reject what scoring computes, the score lies on its integer
      scale, and four separate roundings move it at most two basis points off the exact value. */
  lemma ScoreIsValidAndClose(left: Record, right: Record, reasons: set<string>, complete: bool, policy: MatchingPolicy)
    requires policy.Valid() && reasons != {}
    ensures EvidenceValid(EvidenceFor(left, right, reasons, complete, policy))
    ensures 0 <= Score(left, right, policy) <= SCALE
    ensures -2.0 <= Score(left, right, policy) as real - ExactScore(left, right, policy) <= 2.0
  {
    var f := Factors(left, right, policy);
    SharesInWeights(left, right, policy, FULL);
    SharesInWeights(left, right, policy, policy.weights);
    FeaturesAreValidAndClose(Presence(left, right), Shares(f, FULL), Shares(f, policy.weights), policy.weights);
  }

  /** Rounding each feature separately stays within two basis points of rounding the total once. */
  lemma SeparateVersusSingleRounding(left: Record, right: Record, policy: MatchingPolicy)
    requires policy.Valid()
    ensures -2 <= Score(left, right, policy) - RoundHalfEven(ExactScore(left, right, policy)) <= 2
  {
    ScoreIsValidAndClose(left, right, {"any"}, true, policy);
    RoundsToNearestEven(ExactScore(left, right, policy), RoundHalfEven(ExactScore(left, right, policy)));
  }

  lemma BandSymmetric(left: real, right: real, policy: NumericPolicy)
    ensures NumericBand(left, right, policy) == NumericBand(right, left, policy)
  {
    var larger := Max(Abs(left), Abs(right));
    assert larger == Max(Abs(right), Abs(left));
    assert NumericBand(left, right, policy) == Max(policy.absoluteBand, policy.relativeBand * larger);
    assert NumericBand(right, left, policy) == Max(policy.absoluteBand, policy.relativeBand * larger);
  }

  lemma NumericFactorSymmetric(left: Option<real>, right: Option<real>, policy: NumericPolicy)
    requires policy.Valid()
    ensures NumericFactor(left, right, policy) == NumericFactor(right, left, policy)
  {
    if BothPresent(left, right) {
      assert Abs(right.value - left.value) == Abs(left.value - right.value);
      BandSymmetric(left.value, right.value, policy);
    }
  }

  /** Swapping the two records changes neither the score nor the facts the gates read. */
  lemma ScoreSymmetric(left: Record, right: Record, policy: MatchingPolicy)
    requires policy.Valid()
    ensures Score(left, right, policy) == Score(right, left, policy)
    ensures ContradictionSet(left, right, policy.contract) == ContradictionSet(right, left, policy.contract)
    ensures CoverageSet(left, right) == CoverageSet(right, left)
  {
    NumericFactorSymmetric(left.quantity, right.quantity, policy.quantity);
    NumericFactorSymmetric(left.unitPrice, right.unitPrice, policy.unitPrice);
    NumericFactorSymmetric(left.grossAmount, right.grossAmount, policy.grossAmount);
    if BothPresent(left.executedAt, right.executedAt) {
      assert (right.executedAt.value - left.executedAt.value) as real / 1_000_000.0 ==
             -((left.executedAt.value - right.executedAt.value) as real / 1_000_000.0);
    }
    assert Factors(left, right, policy) == Factors(right, left, policy);
  }

  // ----- what the evidence says, in the records' fields and the policy's numbers alone -----

  /** At least the absolute band, and at least the relative band times either absolute value. */
  ghost predicate Reaches(band: real, left: real, right: real, policy: NumericPolicy) {
    && policy.absoluteBand <= band
    && -band <= policy.relativeBand * left <= band
    && -band <= policy.relativeBand * right <= band
  }

  /** The tolerated difference of two numbers: the least that reaches the policy's bands. */
  ghost predicate IsBand(band: real, left: real, right: real, policy: NumericPolicy) {
    Reaches(band, left, right, policy) && forall b :: Reaches(b, left, right, policy) ==> band <= b
  }

  /** One at equal values, falling linearly to zero at the band, and zero from there on. */
  ghost predicate FallsOff(f: real, left: real, right: real, band: real) {
    if left == right then f == 1.0
    else if left - right >= band || right - left >= band then f == 0.0
    else if left < right then f * band == band - (right - left)
    else f * band == band - (left - right)
  }

  /** The nearest integer, and the even one of two equally near. */
  ghost predicate Nearest(n: int, x: real) {
    -0.5 < n as real - x < 0.5 || (n % 2 == 0 && (n as real - x == 0.5 || x - n as real == 0.5))
  }

  ghost predicate ShownAs(e: FeatureEvidence, f: real, weight: nat) {
    && e.present && e.weight == weight
    && Nearest(e.similarity, 10_000.0 * f) && Nearest(e.contribution, weight as real * f)
  }

  ghost predicate NumericMeans(e: FeatureEvidence, left: Option<real>, right: Option<real>, policy: NumericPolicy,
                               weight: nat) {
    match (left, right)
    case (Some(x), Some(y)) => exists band, f :: IsBand(band, x, y, policy) && FallsOff(f, x, y, band) && ShownAs(e, f, weight)
    case _ => e == FeatureEvidence(false, 0, weight, 0)
  }

  /** Times and their band are counted in microseconds. */
  ghost predicate TimestampMeans(e: FeatureEvidence, left: Option<int>, right: Option<int>, band: nat, weight: nat) {
    match (left, right)
    case (Some(x), Some(y)) => exists f :: FallsOff(f, x as real, y as real, band as real) && ShownAs(e, f, weight)
    case _ => e == FeatureEvidence(false, 0, weight, 0)
  }

  ghost predicate FeaturesMean(features: seq<FeatureEvidence>, left: Record, right: Record, policy: MatchingPolicy) {
    && |features| == 4
    && NumericMeans(features[0], left.quantity, right.quantity, policy.quantity, policy.weights.quantity)
    && TimestampMeans(features[1], left.executedAt, right.executedAt, policy.timestampBand, policy.weights.timestamp)
    && NumericMeans(features[2], left.unitPrice, right.unitPrice, policy.unitPrice, policy.weights.unitPrice)
    && NumericMeans(features[3], left.grossAmount, right.grossAmount, policy.grossAmount, policy.weights.grossAmount)
  }

  /** The hard contradictions: two present values that differ, references under the one contract and aliases under
      the other. */
  ghost predicate ContradictionsMean(found: set<Contradiction>, left: Record, right: Record, contract: ReferenceContract) {
    && (InstrumentMismatch in found <==>
          left.instrument != None && right.instrument != None && left.instrument != right.instrument)
    && (SideMismatch in found <==> left.side != None && right.side != None && left.side != right.side)
    && (CurrencyMismatch in found <==>
          left.currency != None && right.currency != None && left.currency != right.currency)
    && (SharedReferenceMismatch in found <==>
          && contract == SharedMustAgree
          && left.reference != None && right.reference != None && left.reference != right.reference)
    && (SharedAliasMismatch in found <==>
          && contract == SourceLocalOrAlias
          && left.alias != None && right.alias != None && left.alias != right.alias)
  }

  /** The missed requirements: every field compared must be on both records, of price and amount only one. */
  ghost predicate CoverageMeans(missed: set<CoverageFailure>, left: Record, right: Record) {
    && (MissingInstrument in missed <==> left.instrument == None || right.instrument == None)
    && (MissingSide in missed <==> left.side == None || right.side == None)
    && (MissingCurrency in missed <==> left.currency == None || right.currency == None)
    && (MissingQuantity in missed <==> left.quantity == None || right.quantity == None)
    && (MissingTimestamp in missed <==> left.executedAt == None || right.executedAt == None)
    && (MissingMonetaryField in missed <==>
          && (left.unitPrice == None || right.unitPrice == None)
          && (left.grossAmount == None || right.grossAmount == None))
  }

  ghost predicate EvidenceMeans(e: Evidence, left: Record, right: Record, policy: MatchingPolicy) {
    && FeaturesMean(e.features, left, right, policy)
    && e.score == e.features[0].contribution + e.features[1].contribution + e.features[2].contribution +
                  e.features[3].contribution
    && ContradictionsMean(e.contradictions, left, right, policy.contract)
    && CoverageMeans(e.coverageFailures, left, right)
    && (e.coverageSufficient <==> forall c :: c !in e.coverageFailures)
  }

  lemma ScaledAbs(k: real, x: real)
    requires 0.0 <= k
    ensures k * Abs(x) == Abs(k * x)
  {
    ScaleOrder(k, 0.0, Abs(x));
    assert k * -x == -(k * x);
  }

  lemma ScaledMax(k: real, x: real, y: real)
    requires 0.0 <= k
    ensures k * Max(x, y) == Max(k * x, k * y)
  {
    if x <= y {
      ScaleOrder(k, x, y);
    } else {
      ScaleOrder(k, y, x);
    }
  }

  lemma BandAsScaled(left: real, right: real, policy: NumericPolicy)
    requires policy.Valid()
    ensures NumericBand(left, right, policy) ==
            Max(policy.absoluteBand, Max(Abs(policy.relativeBand * left), Abs(policy.relativeBand * right)))
  {
    ScaledMax(policy.relativeBand, Abs(left), Abs(right));
    ScaledAbs(policy.relativeBand, left);
    ScaledAbs(policy.relativeBand, right);
  }

  /** The maximum of a number and two absolute values is the least bound of the three. */
  lemma MaxBounds(base: real, p: real, q: real, b: real)
    ensures Max(base, Max(Abs(p), Abs(q))) <= b <==> base <= b && -b <= p <= b && -b <= q <= b
  {
  }

  lemma ReachesIs(b: real, left: real, right: real, policy: NumericPolicy, p: real, q: real)
    requires p == policy.relativeBand * left && q == policy.relativeBand * right
    ensures Reaches(b, left, right, policy) <==> Max(policy.absoluteBand, Max(Abs(p), Abs(q))) <= b
  {
    MaxBounds(policy.absoluteBand, p, q, b);
  }

  lemma LeastReaches(band: real, left: real, right: real, policy: NumericPolicy, p: real, q: real)
    requires p == policy.relativeBand * left && q == policy.relativeBand * right
    requires band == Max(policy.absoluteBand, Max(Abs(p), Abs(q)))
    ensures IsBand(band, left, right, policy)
  {
    ReachesIs(band, left, right, policy, p, q);
    forall b | Reaches(b, left, right, policy)
      ensures band <= b
    {
      ReachesIs(b, left, right, policy, p, q);
    }
  }

  lemma BandIs(left: real, right: real, policy: NumericPolicy)
    requires policy.Valid()
    ensures IsBand(NumericBand(left, right, policy), left, right, policy)
  {
    BandAsScaled(left, right, policy);
    LeastReaches(NumericBand(left, right, policy), left, right, policy, policy.relativeBand * left,
                 policy.relativeBand * right);
  }

  lemma SimilarityFallsOff(left: real, right: real, band: real)
    requires 0.0 <= band
    ensures FallsOff(LinearSimilarity(Abs(right - left), band), left, right, band)
  {
    if band > 0.0 {
      var d := Abs(right - left);
      assert d / band * band == d;
      assert (1.0 - d / band) * band == band - d;
      if d >= band {
        ScaleOrder(1.0 / band, band, d);
        assert d / band >= 1.0;
      } else {
        assert d / band < 1.0;
      }
    }
  }

  lemma RoundIsNearest(x: real)
    ensures Nearest(RoundHalfEven(x), x)
  {
    RoundsToNearestEven(x, RoundHalfEven(x));
  }

  /** One feature's evidence, from its factor. */
  function FeatureOf(present: bool, f: real, weight: nat): FeatureEvidence {
    Feature(present, 10_000 as real * f, weight as real * f, weight)
  }

  lemma FeatureShows(f: real, weight: nat)
    ensures ShownAs(FeatureOf(true, f, weight), f, weight)
  {
    RoundIsNearest(10_000 as real * f);
    RoundIsNearest(weight as real * f);
  }

  lemma ValuesFallOff(left: real, right: real, policy: NumericPolicy, f: real, e: FeatureEvidence, weight: nat)
    requires policy.Valid() && f == NumericFactor(Some(left), Some(right), policy) && ShownAs(e, f, weight)
    ensures NumericMeans(e, Some(left), Some(right), policy, weight)
  {
    var band := NumericBand(left, right, policy);
    BandIs(left, right, policy);
    SimilarityFallsOff(left, right, band);
    assert IsBand(band, left, right, policy) && FallsOff(f, left, right, band) && ShownAs(e, f, weight);
  }

  lemma NumericFeatureMeans(left: Option<real>, right: Option<real>, policy: NumericPolicy, weight: nat)
    requires policy.Valid()
    ensures NumericMeans(FeatureOf(BothPresent(left, right), NumericFactor(left, right, policy), weight),
                         left, right, policy, weight)
  {
    if left.Some? && right.Some? {
      var f := NumericFactor(left, right, policy);
      FeatureShows(f, weight);
      ValuesFallOff(left.value, right.value, policy, f, FeatureOf(true, f, weight), weight);
    }
  }

  /** Counting in seconds or in microseconds gives one factor. */
  lemma MicrosecondsFallOff(left: int, right: int, band: nat, f: real)
    requires FallsOff(f, left as real / 1_000_000.0, right as real / 1_000_000.0, band as real / 1_000_000.0)
    ensures FallsOff(f, left as real, right as real, band as real)
  {
    var k := 1_000_000.0;
    assert f * (band as real / k) * k == f * band as real;
  }

  lemma TimesFallOff(left: int, right: int, band: nat)
    ensures FallsOff(TimestampFactor(Some(left), Some(right), band), left as real, right as real, band as real)
  {
    var k := 1_000_000.0;
    assert (right - left) as real / k == right as real / k - left as real / k;
    SimilarityFallsOff(left as real / k, right as real / k, band as real / k);
    MicrosecondsFallOff(left, right, band, TimestampFactor(Some(left), Some(right), band));
  }

  lemma TimestampFeatureMeans(left: Option<int>, right: Option<int>, band: nat, weight: nat)
    ensures TimestampMeans(FeatureOf(BothPresent(left, right), TimestampFactor(left, right, band), weight),
                           left, right, band, weight)
  {
    if left.Some? && right.Some? {
      TimesFallOff(left.value, right.value, band);
      FeatureShows(TimestampFactor(left, right, band), weight);
    }
  }

  lemma FullShares(f: Quad)
    ensures Shares(f, FULL) == Quad(10_000 as real * f.quantity, 10_000 as real * f.timestamp,
                                    10_000 as real * f.unitPrice, 10_000 as real * f.grossAmount)
  {
    assert FULL.quantity as real == 10_000 as real;
    assert FULL.timestamp as real == 10_000 as real;
    assert FULL.unitPrice as real == 10_000 as real;
    assert FULL.grossAmount as real == 10_000 as real;
  }

  lemma FromFactor(present: bool, similarity: real, share: real, f: real, weight: nat)
    requires similarity == 10_000 as real * f && share == weight as real * f
    ensures Feature(present, similarity, share, weight) == FeatureOf(present, f, weight)
  {
  }

  ghost predicate AreFeatures(e: seq<FeatureEvidence>, p: Present, f: Quad, w: Weights) {
    && |e| == 4
    && e[0] == FeatureOf(p.quantity, f.quantity, w.quantity)
    && e[1] == FeatureOf(p.timestamp, f.timestamp, w.timestamp)
    && e[2] == FeatureOf(p.unitPrice, f.unitPrice, w.unitPrice)
    && e[3] == FeatureOf(p.grossAmount, f.grossAmount, w.grossAmount)
  }

  lemma FeaturesAsShares(p: Present, s: Quad, f: Quad, w: Weights)
    requires s == Quad(10_000 as real * f.quantity, 10_000 as real * f.timestamp,
                       10_000 as real * f.unitPrice, 10_000 as real * f.grossAmount)
    ensures AreFeatures(FeaturesOf(p, s, Shares(f, w), w), p, f, w)
  {
    var share := Shares(f, w);
    FromFactor(p.quantity, s.quantity, share.quantity, f.quantity, w.quantity);
    FromFactor(p.timestamp, s.timestamp, share.timestamp, f.timestamp, w.timestamp);
    FromFactor(p.unitPrice, s.unitPrice, share.unitPrice, f.unitPrice, w.unitPrice);
    FromFactor(p.grossAmount, s.grossAmount, share.grossAmount, f.grossAmount, w.grossAmount);
  }

  lemma FeaturesAre(left: Record, right: Record, policy: MatchingPolicy)
    requires policy.Valid()
    ensures var p, f, w := Presence(left, right), Factors(left, right, policy), policy.weights;
            AreFeatures(Features(left, right, policy), p, f, w)
  {
    var f := Factors(left, right, policy);
    FullShares(f);
    FeaturesAsShares(Presence(left, right), Shares(f, FULL), f, policy.weights);
  }

  lemma FeaturesMeanTheFields(left: Record, right: Record, policy: MatchingPolicy)
    requires policy.Valid()
    ensures FeaturesMean(Features(left, right, policy), left, right, policy)
  {
    FeaturesAre(left, right, policy);
    var e := Features(left, right, policy);
    var w := policy.weights;
    assert NumericMeans(e[0], left.quantity, right.quantity, policy.quantity, w.quantity) by {
      NumericFeatureMeans(left.quantity, right.quantity, policy.quantity, w.quantity);
    }
    assert TimestampMeans(e[1], left.executedAt, right.executedAt, policy.timestampBand, w.timestamp) by {
      TimestampFeatureMeans(left.executedAt, right.executedAt, policy.timestampBand, w.timestamp);
    }
    assert NumericMeans(e[2], left.unitPrice, right.unitPrice, policy.unitPrice, w.unitPrice) by {
      NumericFeatureMeans(left.unitPrice, right.unitPrice, policy.unitPrice, w.unitPrice);
    }
    assert NumericMeans(e[3], left.grossAmount, right.grossAmount, policy.grossAmount, w.grossAmount) by {
      NumericFeatureMeans(left.grossAmount, right.grossAmount, policy.grossAmount, w.grossAmount);
    }
  }

  lemma CoverageSetMeans(left: Record, right: Record)
    ensures CoverageMeans(CoverageSet(left, right), left, right)
  {
  }

  lemma ContradictionSetMeans(left: Record, right: Record, contract: ReferenceContract)
    ensures ContradictionsMean(ContradictionSet(left, right, contract), left, right, contract)
  {
  }

  /** The evidence of a pair, feature by feature, from the two records and the policy. */
  lemma EvidenceMeansTheFields(left: Record, right: Record, reasons: set<string>, complete: bool, policy: MatchingPolicy)
    requires policy.Valid()
    ensures EvidenceMeans(EvidenceFor(left, right, reasons, complete, policy), left, right, policy)
  {
    FeaturesMeanTheFields(left, right, policy);
    ContradictionSetMeans(left, right, policy.contract);
    CoverageSetMeans(left, right);
    var missed := CoverageSet(left, right);
    assert missed == {} <==> forall c :: c !in missed;
  }

  /** The evidence of a pair with a blocking reason stays within its scales. */
  lemma EvidenceIsInRange(left: Record, right: Record, reasons: set<string>, complete: bool, policy: MatchingPolicy)
    requires policy.Valid() && reasons != {}
    ensures var e := EvidenceFor(left, right, reasons, complete, policy);
            && |e.features| == 4 && 0 <= e.score <= 10_000
            && forall f :: f in e.features ==>
                 && 0 <= f.similarity <= 10_000 && 0 <= f.contribution <= f.weight <= 10_000
                 && (!f.present ==> f.similarity == 0 && f.contribution == 0)
  {
    ScoreIsValidAndClose(left, right, reasons, complete, policy);
    var e := EvidenceFor(left, right, reasons, complete, policy);
    forall f | f in e.features
      ensures FeatureValid(f) && f.weight <= SCALE
    {
      var k :| 0 <= k < |e.features| && e.features[k] == f;
    }
  }
}
