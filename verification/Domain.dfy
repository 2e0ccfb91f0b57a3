/** Values shared by every stage of the engine. Record identities stand for the text
    identities of the source, numbered in their sort order; other texts are compared only. */
module Domain {
  import opened Matchings

  datatype Option<+T> = None | Some(value: T)

  /** The validation failures the stages can raise. */
  datatype DomainError =
    | WrongOrientation
    | SolverVersionMismatch
    | CandidatesDoNotCoverEdges
    | ForeignForbiddenEdge
    | WrongSelectionCount
    | DuplicateOrMissingSelection
    | ColumnOutOfRange
    | ForbiddenRelationshipSelected
    | NonpositiveEdgeSelected
    | InvalidSelectedEdge
    | InvalidComponent
    | InvalidAssignment
    | ComponentCountMismatch
    | EdgesSpanComponents
    | GraphDigestMismatch
    | UnknownProposal
    | ProposalEvidenceMismatch
    | CounterfactualExceedsOptimum
    | InvalidProposal
    | ComponentsDoNotPartition
    | InvalidGatedResult
    | DuplicatePartition
    | UnknownCandidateRecord
    | InvalidEvidence
    | InvalidPreprocessing
    | InvalidEngineResult

  datatype Result<+T> = Ok(value: T) | Err(error: DomainError)

  const SCALE: int := 10_000

  function Range(n: nat): (s: set<int>)
    ensures |s| == n && forall i :: i in s <==> 0 <= i < n
  {
    if n == 0 then {} else Range(n - 1) + {n - 1}
  }

  datatype RecordSide = LeftSide | RightSide

  datatype CanonicalState = Settled | Cancelled

  datatype TradeSide = Buy | Sell

  datatype ReferenceContract = SharedMustAgree | SourceLocalOrAlias

  /** One observation frozen into a run. Times are microseconds. */
  datatype Record = Record(
    id: Id,
    state: CanonicalState,
    instrument: Option<string>,
    side: Option<TradeSide>,
    currency: Option<string>,
    quantity: Option<real>,
    executedAt: Option<int>,
    unitPrice: Option<real>,
    grossAmount: Option<real>,
    reference: Option<string>,
    alias: Option<string>)
  {
    predicate Eligible() {
      state != Cancelled
    }
  }

  predicate UniqueIds(records: seq<Record>) {
    forall i, j :: 0 <= i < j < |records| ==> records[i].id != records[j].id
  }

  function Ids(records: seq<Record>): (s: set<Id>)
    ensures forall r :: r in records ==> r.id in s
    ensures forall x :: x in s ==> exists r :: r in records && r.id == x
  {
    set r | r in records :: r.id
  }

  datatype BlockingPass = BlockingPass(
    passId: string,
    version: string,
    window: Option<nat>,
    requireInstrument: bool,
    requireSide: bool,
    requireCurrency: bool,
    useAlias: bool)

  datatype NumericPolicy = NumericPolicy(absoluteBand: real, relativeBand: real) {
    predicate Valid() {
      0.0 <= absoluteBand && 0.0 <= relativeBand <= 1.0
    }
  }

  datatype Weights = Weights(quantity: nat, timestamp: nat, unitPrice: nat, grossAmount: nat)

  datatype Limits = Limits(componentNodes: nat, componentEdges: nat, runEdges: nat, perRecord: nat) {
    predicate Valid() {
      0 < componentNodes && 0 < componentEdges && 0 < runEdges && 0 < perRecord
    }
  }

  datatype MatchingPolicy = MatchingPolicy(
    solverVersion: string,
    contract: ReferenceContract,
    passes: seq<BlockingPass>,
    weights: Weights,
    quantity: NumericPolicy,
    timestampBand: nat,
    unitPrice: NumericPolicy,
    grossAmount: NumericPolicy,
    floor: nat,
    threshold: nat,
    minimumGap: nat,
    limits: Limits)
  {
    predicate Valid() {
      && |passes| > 0
      && (forall i, j :: 0 <= i < j < |passes| ==> passes[i].passId != passes[j].passId)
      && (forall p :: p in passes && p.window.Some? ==> 0 < p.window.value)
      && weights.quantity + weights.timestamp + weights.unitPrice + weights.grossAmount == SCALE
      && quantity.Valid() && unitPrice.Valid() && grossAmount.Valid()
      && floor < threshold <= SCALE
      && minimumGap <= threshold
      && limits.Valid()
    }
  }

  datatype Contradiction =
    | InstrumentMismatch | SideMismatch | CurrencyMismatch | SharedReferenceMismatch | SharedAliasMismatch

  datatype CoverageFailure =
    | MissingInstrument | MissingSide | MissingCurrency | MissingQuantity | MissingTimestamp | MissingMonetaryField

  datatype FeatureEvidence = FeatureEvidence(present: bool, similarity: int, weight: int, contribution: int)

  /** Scored evidence for one retained candidate edge. */
  datatype Evidence = Evidence(
    reasons: set<string>,
    features: seq<FeatureEvidence>,
    contradictions: set<Contradiction>,
    coverageFailures: set<CoverageFailure>,
    coverageSufficient: bool,
    complete: bool,
    score: int)

  type Candidates = map<Edge, Evidence>

  /** The above-floor graph of scored candidates. */
  function Eligible(candidates: Candidates, floor: int): (g: Graph)
    ensures Positive(g)
  {
    map e | e in candidates && candidates[e].score > floor :: candidates[e].score - floor
  }
}
