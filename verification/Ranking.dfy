/**
 * Capability matching: every node's matching offers are evaluated against a job, and the results are
 * sorted by status, score, node and offer. Scores are exact reals with the source's own rounding.
 */
module Ranking {
  import opened Base
  import T = Text

  type OfferId = string
  type CapabilityName = string

  datatype CapabilityContract =
    | LlmInference(models: set<string>, contextLimit: u32, languages: set<string>, supportsStreaming: bool)
    | CpuCompute(architectures: set<string>, logicalCores: nat, supportsWasm: bool)

  datatype CapabilityOffer =
    CapabilityOffer(id: OfferId, name: CapabilityName, implementation: string, contract: CapabilityContract,
                    concurrency: nat)

  datatype ExposurePolicy =
    ExposurePolicy(allowedCapabilities: set<CapabilityName>, allowedRequesters: set<string>, localNetworkOnly: bool,
                   manualConsentRequired: bool, consentGranted: bool, maxMemoryMib: u64)

  datatype CurrentAvailability =
    CurrentAvailability(online: bool, activeJobs: map<OfferId, nat>, availableMemoryMib: u64)

  datatype Observation =
    Observation(offerId: OfferId, workloadProfile: Option<string>, successful: bool, latencyMs: u32)

  datatype NodeOffer =
    NodeOffer(nodeId: string, network: string, capabilities: seq<CapabilityOffer>, policy: ExposurePolicy,
              availability: CurrentAvailability, observations: seq<Observation>)

  datatype CapabilityRequirement =
    | NeedsLlm(model: Option<string>, minimumContext: u32, language: Option<string>, streamingRequired: bool)
    | NeedsCpu(architecture: Option<string>, minimumLogicalCores: nat, wasmRequired: bool)

  datatype JobRequirement =
    JobRequirement(capability: CapabilityName, requirement: CapabilityRequirement, workloadProfile: Option<string>,
                   localNetworkOnly: bool, requesterId: string, requesterNetwork: string, estimatedMemoryMib: u64)

  datatype MatchStatus = Compatible | Unavailable | Rejected

  datatype ScoreBreakdown =
    ScoreBreakdown(successRate: real, latencyScore: real, contractHeadroom: real, finalScore: real)

  datatype MatchResult =
    MatchResult(nodeId: string, offerId: Option<OfferId>, status: MatchStatus, score: Option<ScoreBreakdown>,
                reasons: seq<string>)

  // ---- Evaluation ----------------------------------------------------------------------------

  /** A reason code, if its condition holds. */
  function When(condition: bool, code: string): seq<string> {
    if condition then [code] else []
  }

  /** The reasons against an offer's contract, in the order they are found. */
  function ContractReasons(job: JobRequirement, offer: CapabilityOffer): seq<string> {
    match (job.requirement, offer.contract)
    case (NeedsLlm(model, minimumContext, language, streaming), LlmInference(models, limit, languages, streams)) =>
      When(model.Some? && model.value !in models, "model_unavailable")
      + When(limit < minimumContext, "context_too_small")
      + When(language.Some? && language.value !in languages, "language_unsupported")
      + When(streaming && !streams, "streaming_unsupported")
    case (NeedsCpu(architecture, minimumCores, wasm), CpuCompute(architectures, cores, supportsWasm)) =>
      When(architecture.Some? && architecture.value !in architectures, "architecture_unsupported")
      + When(cores < minimumCores, "cores_insufficient")
      + When(wasm && !supportsWasm, "wasm_unsupported")
    case _ => ["contract_kind_mismatch"]
  }

  /** How much of a declared limit a requirement leaves over; nothing when it exceeds the limit. */
  function Headroom(declared: nat, required: nat): real {
    (if declared < required then 0 else declared - required) as real / (if declared == 0 then 1 else declared) as real
  }

  function ContractHeadroom(job: JobRequirement, offer: CapabilityOffer): real {
    match (job.requirement, offer.contract)
    case (NeedsLlm(_, minimumContext, _, _), LlmInference(_, limit, _, _)) => Headroom(limit, minimumContext)
    case (NeedsCpu(_, minimumCores, _), CpuCompute(_, cores, _)) => Headroom(cores, minimumCores)
    case _ => 0.0
  }

  function PolicyReasons(job: JobRequirement, node: NodeOffer): seq<string> {
    var policy := node.policy;
    When(job.capability !in policy.allowedCapabilities, "policy_capability_forbidden")
    + When(policy.allowedRequesters != {} && job.requesterId !in policy.allowedRequesters, "policy_requester_forbidden")
    + When((job.localNetworkOnly || policy.localNetworkOnly) && job.requesterNetwork != node.network,
           "policy_locality_forbidden")
    + When(policy.manualConsentRequired && !policy.consentGranted, "consent_required")
    + When(job.estimatedMemoryMib > policy.maxMemoryMib, "policy_memory_limit")
  }

  function ActiveJobs(node: NodeOffer, offer: CapabilityOffer): nat {
    if offer.id in node.availability.activeJobs then node.availability.activeJobs[offer.id] else 0
  }

  function AvailabilityReasons(job: JobRequirement, node: NodeOffer, offer: CapabilityOffer): seq<string> {
    When(!node.availability.online, "offline")
    + When(ActiveJobs(node, offer) >= offer.concurrency, "saturated")
    + When(node.availability.availableMemoryMib < job.estimatedMemoryMib, "memory_unavailable")
  }

  predicate Matches(job: JobRequirement, offer: CapabilityOffer, o: Observation) {
    o.offerId == offer.id && (job.workloadProfile.None? || o.workloadProfile == job.workloadProfile)
  }

  /** The observations that bear on an offer for this job. */
  function Seen(job: JobRequirement, offer: CapabilityOffer): Observation -> bool {
    o => Matches(job, offer, o)
  }

  /** Those of them that succeeded. */
  function Succeeded(job: JobRequirement, offer: CapabilityOffer): Observation -> bool {
    o => Matches(job, offer, o) && o.successful
  }

  function CountIf(observations: seq<Observation>, p: Observation -> bool): nat {
    if observations == [] then 0
    else (if p(observations[0]) then 1 else 0) + CountIf(observations[1..], p)
  }

  /** The least latency among the observations that satisfy `p`. */
  function LeastLatency(observations: seq<Observation>, p: Observation -> bool): Option<u32> {
    if observations == [] then None
    else
      var rest := LeastLatency(observations[1..], p);
      if p(observations[0]) && (rest.None? || observations[0].latencyMs <= rest.value)
      then Some(observations[0].latencyMs) else rest
  }

  function Saturated(n: nat): u32 {
    if n <= U32_MAX then n else U32_MAX
  }

  function Ratio(numerator: nat, denominator: nat): real
    requires denominator > 0
  {
    Saturated(numerator) as int as real / Saturated(denominator) as int as real
  }

  function SuccessRate(job: JobRequirement, offer: CapabilityOffer, observations: seq<Observation>): real {
    var seen := CountIf(observations, Seen(job, offer));
    if seen == 0 then 0.5 else Ratio(CountIf(observations, Succeeded(job, offer)), seen)
  }

  function LatencyScore(job: JobRequirement, offer: CapabilityOffer, observations: seq<Observation>): real {
    match LeastLatency(observations, Succeeded(job, offer))
    case None => 0.5
    case Some(latency) => Promptness(latency)
  }

  function Promptness(latencyMs: u32): real {
    1.0 / (1.0 + latencyMs as int as real / 1000.0)
  }

  /** Rounds to four decimals, halves away from zero. */
  function RoundScore(value: real): real {
    var scaled := value * 10000.0;
    (if scaled >= 0.0 then (scaled + 0.5).Floor else -(0.5 - scaled).Floor) as real / 10000.0
  }

  function Score(job: JobRequirement, node: NodeOffer, offer: CapabilityOffer): ScoreBreakdown {
    var success := SuccessRate(job, offer, node.observations);
    var latency := LatencyScore(job, offer, node.observations);
    var headroom := ContractHeadroom(job, offer);
    ScoreBreakdown(RoundScore(success), RoundScore(latency), RoundScore(headroom),
                   RoundScore(0.4 * success + 0.35 * latency + 0.25 * headroom))
  }

  function Evaluate(job: JobRequirement, node: NodeOffer, offer: CapabilityOffer): MatchResult {
    var rejected := ContractReasons(job, offer) + PolicyReasons(job, node);
    if rejected != [] then
      MatchResult(node.nodeId, Some(offer.id), Rejected, None, rejected)
    else
      var unavailable := AvailabilityReasons(job, node, offer);
      if unavailable != [] then
        MatchResult(node.nodeId, Some(offer.id), Unavailable, None, unavailable)
      else
        MatchResult(node.nodeId, Some(offer.id), Compatible, Some(Score(job, node, offer)),
                    ["contract_compatible", "policy_allows", "currently_available"])
  }

  function Missing(node: NodeOffer): MatchResult {
    MatchResult(node.nodeId, None, Rejected, None, ["capability_missing"])
  }

  function MatchingOffers(job: JobRequirement, offers: seq<CapabilityOffer>): seq<CapabilityOffer> {
    if offers == [] then []
    else (if offers[0].name == job.capability then [offers[0]] else []) + MatchingOffers(job, offers[1..])
  }

  function NodeResults(job: JobRequirement, node: NodeOffer): seq<MatchResult> {
    var offers := MatchingOffers(job, node.capabilities);
    if offers == [] then [Missing(node)]
    else seq(|offers|, i requires 0 <= i < |offers| => Evaluate(job, node, offers[i]))
  }

  function Results(job: JobRequirement, nodes: seq<NodeOffer>): seq<MatchResult> {
    if nodes == [] then [] else NodeResults(job, nodes[0]) + Results(job, nodes[1..])
  }

  // ---- What an evaluation means --------------------------------------------------------------

  ghost predicate MeetsContract(job: JobRequirement, offer: CapabilityOffer) {
    match (job.requirement, offer.contract)
    case (NeedsLlm(model, minimumContext, language, streaming), LlmInference(models, limit, languages, streams)) =>
      && (model.None? || model.value in models)
      && minimumContext <= limit
      && (language.None? || language.value in languages)
      && (streaming ==> streams)
    case (NeedsCpu(architecture, minimumCores, wasm), CpuCompute(architectures, cores, supportsWasm)) =>
      && (architecture.None? || architecture.value in architectures)
      && minimumCores <= cores
      && (wasm ==> supportsWasm)
    case _ => false
  }

  ghost predicate PolicyAllows(job: JobRequirement, node: NodeOffer) {
    && job.capability in node.policy.allowedCapabilities
    && (node.policy.allowedRequesters == {} || job.requesterId in node.policy.allowedRequesters)
    && (job.localNetworkOnly || node.policy.localNetworkOnly ==> job.requesterNetwork == node.network)
    && (node.policy.manualConsentRequired ==> node.policy.consentGranted)
    && job.estimatedMemoryMib <= node.policy.maxMemoryMib
  }

  ghost predicate HasCapacity(job: JobRequirement, node: NodeOffer, offer: CapabilityOffer) {
    && node.availability.online
    && ActiveJobs(node, offer) < offer.concurrency
    && job.estimatedMemoryMib <= node.availability.availableMemoryMib
  }

  lemma ConcatIsEmpty(a: seq<string>, b: seq<string>)
    ensures a + b == [] <==> a == [] && b == []
  {
    assert a + b == [] ==> |a + b| == 0;
  }

  /** The status says exactly which hard constraints hold; only a compatible offer has a score. */
  lemma {:induction false} StatusMeaning(job: JobRequirement, node: NodeOffer, offer: CapabilityOffer)
    ensures var r := Evaluate(job, node, offer);
            && (r.status.Rejected? <==> !(MeetsContract(job, offer) && PolicyAllows(job, node)))
            && (r.status.Compatible? <==>
                  MeetsContract(job, offer) && PolicyAllows(job, node) && HasCapacity(job, node, offer))
            && (r.score.Some? <==> r.status.Compatible?)
            && r.nodeId == node.nodeId && r.offerId == Some(offer.id)
  {
    ContractReasonsMeaning(job, offer);
    PolicyReasonsMeaning(job, node);
    AvailabilityReasonsMeaning(job, node, offer);
    ConcatIsEmpty(ContractReasons(job, offer), PolicyReasons(job, node));
    hide ContractReasons, PolicyReasons, AvailabilityReasons, MeetsContract, PolicyAllows, HasCapacity, Score;
  }

  lemma ContractReasonsMeaning(job: JobRequirement, offer: CapabilityOffer)
    ensures ContractReasons(job, offer) == [] <==> MeetsContract(job, offer)
  {
    assert ContractReasons(job, offer) == [] <==> |ContractReasons(job, offer)| == 0;
  }

  lemma PolicyReasonsMeaning(job: JobRequirement, node: NodeOffer)
    ensures PolicyReasons(job, node) == [] <==> PolicyAllows(job, node)
  {
    assert PolicyReasons(job, node) == [] <==> |PolicyReasons(job, node)| == 0;
  }

  lemma AvailabilityReasonsMeaning(job: JobRequirement, node: NodeOffer, offer: CapabilityOffer)
    ensures AvailabilityReasons(job, node, offer) == [] <==> HasCapacity(job, node, offer)
  {
    assert AvailabilityReasons(job, node, offer) == [] <==> |AvailabilityReasons(job, node, offer)| == 0;
  }

  // ---- Scores --------------------------------------------------------------------------------

  ghost predicate Unit(x: real) {
    0.0 <= x <= 1.0
  }

  lemma QuotientIsUnit(a: real, b: real)
    requires 0.0 <= a <= b && b > 0.0
    ensures Unit(a / b)
  {
  }

  /** Rounding gives a multiple of a ten-thousandth that is nowhere further than half of one away. */
  lemma {:induction false} RoundScoreIsNearest(x: real)
    ensures -0.00005 <= RoundScore(x) - x <= 0.00005
    ensures RoundScore(x) * 10000.0 == (RoundScore(x) * 10000.0).Floor as real
  {
    var scaled := x * 10000.0;
    var n := if scaled >= 0.0 then (scaled + 0.5).Floor else -(0.5 - scaled).Floor;
    assert RoundScore(x) == n as real / 10000.0;
    assert -0.5 <= n as real - scaled <= 0.5;
  }

  lemma RoundKeepsUnit(x: real)
    requires Unit(x)
    ensures Unit(RoundScore(x))
  {
    var scaled := x * 10000.0;
    assert 0.0 <= scaled <= 10000.0;
    var n := (scaled + 0.5).Floor;
    assert 0 <= n <= 10000;
    QuotientIsUnit(n as real, 10000.0);
  }

  lemma {:induction false} CountIfWeaker(observations: seq<Observation>, p: Observation -> bool, q: Observation -> bool)
    requires forall o :: p(o) ==> q(o)
    ensures CountIf(observations, p) <= CountIf(observations, q)
  {
    if observations != [] {
      CountIfWeaker(observations[1..], p, q);
    }
  }

  lemma SuccessRateIsUnit(job: JobRequirement, offer: CapabilityOffer, observations: seq<Observation>)
    ensures Unit(SuccessRate(job, offer, observations))
  {
    var seen, good := Seen(job, offer), Succeeded(job, offer);
    CountIfWeaker(observations, good, seen);
    var n, d := CountIf(observations, good), CountIf(observations, seen);
    if d > 0 {
      QuotientIsUnit(Saturated(n) as int as real, Saturated(d) as int as real);
    }
  }

  lemma LatencyScoreIsUnit(job: JobRequirement, offer: CapabilityOffer, observations: seq<Observation>)
    ensures Unit(LatencyScore(job, offer, observations))
  {
    var least := LeastLatency(observations, Succeeded(job, offer));
    if least.Some? {
      QuotientIsUnit(1.0, 1.0 + least.value as int as real / 1000.0);
    }
  }

  lemma HeadroomIsUnit(declared: nat, required: nat)
    ensures Unit(Headroom(declared, required))
  {
    var left: nat := if declared < required then 0 else declared - required;
    QuotientIsUnit(left as real, (if declared == 0 then 1 else declared) as real);
  }

  /** Every score a result carries, and its weighted total, lies between 0 and 1. */
  lemma {:induction false} ScoresAreUnit(job: JobRequirement, node: NodeOffer, offer: CapabilityOffer)
    ensures var s := Score(job, node, offer);
            Unit(s.successRate) && Unit(s.latencyScore) && Unit(s.contractHeadroom) && Unit(s.finalScore)
  {
    SuccessRateIsUnit(job, offer, node.observations);
    LatencyScoreIsUnit(job, offer, node.observations);
    match (job.requirement, offer.contract) {
      case (NeedsLlm(_, minimumContext, _, _), LlmInference(_, limit, _, _)) => HeadroomIsUnit(limit, minimumContext);
      case (NeedsCpu(_, minimumCores, _), CpuCompute(_, cores, _)) => HeadroomIsUnit(cores, minimumCores);
      case _ =>
    }
    var a, b, c := SuccessRate(job, offer, node.observations), LatencyScore(job, offer, node.observations),
                   ContractHeadroom(job, offer);
    hide SuccessRate, LatencyScore, ContractHeadroom, RoundScore;
    RoundKeepsUnit(a);
    RoundKeepsUnit(b);
    RoundKeepsUnit(c);
    RoundKeepsUnit(0.4 * a + 0.35 * b + 0.25 * c);
  }

  /** The places of the observations that satisfy `p`. */
  ghost function Places(observations: seq<Observation>, p: Observation -> bool): set<nat> {
    set i: nat | i < |observations| && p(observations[i])
  }

  lemma {:induction false} CountIfIsSize(observations: seq<Observation>, p: Observation -> bool)
    ensures CountIf(observations, p) == |Places(observations, p)|
  {
    if observations != [] {
      var most, last := observations[..|observations| - 1], observations[|observations| - 1];
      CountIfIsSize(most, p);
      CountIfLast(most, last, p);
      assert observations == most + [last];
      assert Places(observations, p) == Places(most, p) + if p(last) then {|most|} else {};
    }
  }

  lemma {:induction false} CountIfLast(most: seq<Observation>, last: Observation, p: Observation -> bool)
    ensures CountIf(most + [last], p) == CountIf(most, p) + if p(last) then 1 else 0
  {
    if most == [] {
      assert most + [last] == [last];
      assert CountIf([last][1..], p) == 0;
    } else {
      assert (most + [last])[0] == most[0] && (most + [last])[1..] == most[1..] + [last];
      CountIfLast(most[1..], last, p);
    }
  }

  ghost predicate Concerns(job: JobRequirement, offer: CapabilityOffer, o: Observation) {
    o.offerId == offer.id && (job.workloadProfile.Some? ==> o.workloadProfile == job.workloadProfile)
  }

  /** The share of successes among the observations that concern the offer; one half if there are none. */
  ghost predicate IsSuccessRate(rate: real, job: JobRequirement, offer: CapabilityOffer, all: seq<Observation>) {
    var seen := set i: nat | i < |all| && Concerns(job, offer, all[i]);
    var good := set i: nat | i < |all| && Concerns(job, offer, all[i]) && all[i].successful;
    if seen == {} then rate == 0.5
    else |seen| <= U32_MAX ==> rate * |seen| as real == |good| as real
  }

  /** One second over one second plus the least latency of a success; one half if there was none. */
  ghost predicate IsLatencyScore(score: real, job: JobRequirement, offer: CapabilityOffer, all: seq<Observation>) {
    if forall o | o in all :: !(Concerns(job, offer, o) && o.successful) then score == 0.5
    else exists best | best in all ::
           && Concerns(job, offer, best) && best.successful
           && (forall o | o in all && Concerns(job, offer, o) && o.successful :: best.latencyMs <= o.latencyMs)
           && score * (1000.0 + best.latencyMs as int as real) == 1000.0
  }

  /** What the offer's limit leaves over, as a share of the limit. */
  ghost predicate IsHeadroom(share: real, job: JobRequirement, offer: CapabilityOffer) {
    match (job.requirement, offer.contract)
    case (NeedsLlm(_, required, _, _), LlmInference(_, limit, _, _)) => IsShareLeft(share, limit, required)
    case (NeedsCpu(_, required, _), CpuCompute(_, cores, _)) => IsShareLeft(share, cores, required)
    case _ => share == 0.0
  }

  ghost predicate IsShareLeft(share: real, limit: nat, required: nat) {
    if required <= limit && limit > 0 then share * limit as real == (limit - required) as real else share == 0.0
  }

  ghost predicate Rounds(rounded: real, x: real) {
    -0.00005 <= rounded - x <= 0.00005
  }

  lemma SeenMeaning(job: JobRequirement, offer: CapabilityOffer)
    ensures forall o :: Seen(job, offer)(o) <==> Concerns(job, offer, o)
    ensures forall o :: Succeeded(job, offer)(o) <==> Concerns(job, offer, o) && o.successful
  {
  }

  lemma PlacesMeaning(job: JobRequirement, offer: CapabilityOffer, all: seq<Observation>)
    ensures Places(all, Seen(job, offer)) == set i: nat | i < |all| && Concerns(job, offer, all[i])
    ensures Places(all, Succeeded(job, offer))
         == set i: nat | i < |all| && Concerns(job, offer, all[i]) && all[i].successful
  {
    SeenMeaning(job, offer);
    hide Concerns, Seen, Succeeded;
  }

  lemma SuccessRateMeaning(job: JobRequirement, offer: CapabilityOffer, all: seq<Observation>)
    ensures IsSuccessRate(SuccessRate(job, offer, all), job, offer, all)
  {
    var seen := set i: nat | i < |all| && Concerns(job, offer, all[i]);
    var good := set i: nat | i < |all| && Concerns(job, offer, all[i]) && all[i].successful;
    PlacesMeaning(job, offer, all);
    SeenMeaning(job, offer);
    hide Places, CountIf, Concerns, Seen, Succeeded, Matches;
    CountIfIsSize(all, Seen(job, offer));
    CountIfIsSize(all, Succeeded(job, offer));
    CountIfWeaker(all, Succeeded(job, offer), Seen(job, offer));
    if seen != {} && |seen| <= U32_MAX {
      QuotientTimes(|good| as real, |seen| as real);
    }
  }

  lemma QuotientTimes(a: real, b: real)
    requires b != 0.0
    ensures a / b * b == a
  {
  }

  lemma LatencyScoreMeaning(job: JobRequirement, offer: CapabilityOffer, all: seq<Observation>)
    ensures IsLatencyScore(LatencyScore(job, offer, all), job, offer, all)
  {
    hide Succeeded, Concerns, LeastLatency, Promptness, Matches;
    var good := Succeeded(job, offer);
    LeastLatencyMeaning(all, good);
    SeenMeaning(job, offer);
    if LeastLatency(all, good).Some? {
      var best :| best in all && good(best) && best.latencyMs == LeastLatency(all, good).value;
      PromptnessMeaning(best.latencyMs);
    }
  }

  lemma PromptnessMeaning(latencyMs: u32)
    ensures Promptness(latencyMs) * (1000.0 + latencyMs as int as real) == 1000.0
  {
    var score, seconds := Promptness(latencyMs), 1.0 + latencyMs as int as real / 1000.0;
    QuotientTimes(1.0, seconds);
    hide Promptness;
    assert 1000.0 + latencyMs as int as real == 1000.0 * seconds;
    assert score * (1000.0 * seconds) == 1000.0 * (score * seconds);
  }

  lemma HeadroomMeaning(limit: nat, required: nat)
    ensures IsShareLeft(Headroom(limit, required), limit, required)
  {
    if limit > 0 {
      QuotientTimes((if limit < required then 0 else limit - required) as real, limit as real);
    }
  }

  /**
   * What a score says: success rate, latency and headroom are rounded to four decimals, and the final score
   * is their exact weighted sum, two fifths, seven twentieths and a quarter, rounded once.
   */
  lemma {:induction false} ScoreMeaning(job: JobRequirement, node: NodeOffer, offer: CapabilityOffer)
    ensures var s := Score(job, node, offer);
            exists success: real, latency: real, headroom: real ::
              && IsSuccessRate(success, job, offer, node.observations)
              && IsLatencyScore(latency, job, offer, node.observations)
              && IsHeadroom(headroom, job, offer)
              && Rounds(s.successRate, success) && Rounds(s.latencyScore, latency)
              && Rounds(s.contractHeadroom, headroom)
              && Rounds(s.finalScore, (8.0 * success + 7.0 * latency + 5.0 * headroom) / 20.0)
  {
    var a, b, c := SuccessRate(job, offer, node.observations), LatencyScore(job, offer, node.observations),
                   ContractHeadroom(job, offer);
    SuccessRateMeaning(job, offer, node.observations);
    LatencyScoreMeaning(job, offer, node.observations);
    match (job.requirement, offer.contract) {
      case (NeedsLlm(_, required, _, _), LlmInference(_, limit, _, _)) => HeadroomMeaning(limit, required);
      case (NeedsCpu(_, required, _), CpuCompute(_, cores, _)) => HeadroomMeaning(cores, required);
      case _ =>
    }
    assert IsHeadroom(c, job, offer);
    hide SuccessRate, LatencyScore, ContractHeadroom, RoundScore, IsSuccessRate, IsLatencyScore, IsHeadroom;
    RoundScoreIsNearest(a);
    RoundScoreIsNearest(b);
    RoundScoreIsNearest(c);
    RoundScoreIsNearest(0.4 * a + 0.35 * b + 0.25 * c);
    assert 0.4 * a + 0.35 * b + 0.25 * c == (8.0 * a + 7.0 * b + 5.0 * c) / 20.0;
  }

  // ---- The order of results ------------------------------------------------------------------

  datatype Ordering = Less | Equal | Greater {
    function Then(next: Ordering): Ordering {
      if this == Equal then next else this
    }

    function Flip(): Ordering {
      match this case Less => Greater case Equal => Equal case Greater => Less
    }
  }

  function CompareInts(a: int, b: int): Ordering {
    if a < b then Less else if a == b then Equal else Greater
  }

  function CompareReals(a: real, b: real): Ordering {
    if a < b then Less else if a == b then Equal else Greater
  }

  /** Lexicographic by code point; a proper prefix comes first. */
  function CompareStrings(a: string, b: string): Ordering {
    if a == [] then (if b == [] then Equal else Less)
    else if b == [] then Greater
    else CompareInts(a[0] as int, b[0] as int).Then(CompareStrings(a[1..], b[1..]))
  }

  /** An absent value comes before every present one. */
  function CompareOffers(a: Option<OfferId>, b: Option<OfferId>): Ordering {
    match (a, b)
    case (None, None) => Equal
    case (None, Some(_)) => Less
    case (Some(_), None) => Greater
    case (Some(x), Some(y)) => CompareStrings(x, y)
  }

  function CompareScores(a: Option<ScoreBreakdown>, b: Option<ScoreBreakdown>): Ordering {
    match (a, b)
    case (None, None) => Equal
    case (None, Some(_)) => Less
    case (Some(_), None) => Greater
    case (Some(x), Some(y)) => CompareReals(x.finalScore, y.finalScore)
  }

  function StatusOrder(status: MatchStatus): int {
    match status case Compatible => 0 case Unavailable => 1 case Rejected => 2
  }

  /** By status, then the higher score, then node, then offer. */
  function Compare(left: MatchResult, right: MatchResult): Ordering {
    CompareInts(StatusOrder(left.status), StatusOrder(right.status))
    .Then(CompareScores(right.score, left.score))
    .Then(CompareStrings(left.nodeId, right.nodeId))
    .Then(CompareOffers(left.offerId, right.offerId))
  }

  lemma {:induction false} StringsAreOrdered(a: string, b: string)
    ensures CompareStrings(a, b) == CompareStrings(b, a).Flip()
    ensures CompareStrings(a, b) == Equal <==> a == b
  {
    if a != [] && b != [] {
      StringsAreOrdered(a[1..], b[1..]);
      assert a == [a[0]] + a[1..] && b == [b[0]] + b[1..];
    }
  }

  lemma {:induction false} StringsAreTransitive(a: string, b: string, c: string)
    requires CompareStrings(a, b) == Less && CompareStrings(b, c) == Less
    ensures CompareStrings(a, c) == Less
  {
    if a != [] && b != [] && c != [] && a[0] == b[0] && b[0] == c[0] {
      StringsAreTransitive(a[1..], b[1..], c[1..]);
    }
  }

  lemma OffersAreOrdered(a: Option<OfferId>, b: Option<OfferId>)
    ensures CompareOffers(a, b) == CompareOffers(b, a).Flip()
    ensures CompareOffers(a, b) == Equal <==> a == b
  {
    if a.Some? && b.Some? {
      StringsAreOrdered(a.value, b.value);
    }
  }

  lemma OffersAreTransitive(a: Option<OfferId>, b: Option<OfferId>, c: Option<OfferId>)
    requires CompareOffers(a, b) == Less && CompareOffers(b, c) == Less
    ensures CompareOffers(a, c) == Less
  {
    if a.Some? {
      StringsAreTransitive(a.value, b.value, c.value);
    }
  }

  /** Two results compare equal only if they are about the same offer of the same node. */
  lemma {:induction false} CompareIsTotal(a: MatchResult, b: MatchResult)
    ensures Compare(a, b) == Compare(b, a).Flip()
    ensures Compare(a, b) == Equal ==> a.nodeId == b.nodeId && a.offerId == b.offerId
    ensures Compare(a, a) == Equal
  {
    StringsAreOrdered(a.nodeId, b.nodeId);
    OffersAreOrdered(a.offerId, b.offerId);
    StringsAreOrdered(a.nodeId, a.nodeId);
    OffersAreOrdered(a.offerId, a.offerId);
  }

  /** The order of results is transitive, so it strictly orders results about different offers. */
  lemma {:induction false} CompareIsTransitive(a: MatchResult, b: MatchResult, c: MatchResult)
    requires Compare(a, b) == Less && Compare(b, c) == Less
    ensures Compare(a, c) == Less
  {
    StringsAreOrdered(a.nodeId, b.nodeId);
    StringsAreOrdered(b.nodeId, c.nodeId);
    StringsAreOrdered(a.nodeId, c.nodeId);
    OffersAreOrdered(a.offerId, b.offerId);
    OffersAreOrdered(b.offerId, c.offerId);
    if CompareStrings(a.nodeId, b.nodeId) == Less && CompareStrings(b.nodeId, c.nodeId) == Less {
      StringsAreTransitive(a.nodeId, b.nodeId, c.nodeId);
    }
    if CompareOffers(a.offerId, b.offerId) == Less && CompareOffers(b.offerId, c.offerId) == Less {
      OffersAreTransitive(a.offerId, b.offerId, c.offerId);
    }
    hide CompareStrings, CompareOffers;
  }

  // ---- Sorting -------------------------------------------------------------------------------

  function Insert(x: MatchResult, sorted: seq<MatchResult>): seq<MatchResult> {
    if sorted == [] then [x]
    else if Compare(sorted[0], x) == Greater then [x] + sorted
    else [sorted[0]] + Insert(x, sorted[1..])
  }

  /** The stable sort by `Compare`. */
  function Sort(results: seq<MatchResult>): seq<MatchResult> {
    if results == [] then [] else Insert(results[|results| - 1], Sort(results[..|results| - 1]))
  }

  ghost predicate StrictlySorted(results: seq<MatchResult>) {
    forall i, j | 0 <= i < j < |results| :: Compare(results[i], results[j]) == Less
  }

  ghost predicate SameKey(a: MatchResult, b: MatchResult) {
    a.nodeId == b.nodeId && a.offerId == b.offerId
  }

  /** No two results are about the same offer of the same node. */
  ghost predicate DistinctKeys(results: seq<MatchResult>) {
    forall i, j | 0 <= i < j < |results| :: !SameKey(results[i], results[j])
  }

  lemma {:induction false} InsertKeeps(x: MatchResult, sorted: seq<MatchResult>)
    requires StrictlySorted(sorted)
    requires forall i | 0 <= i < |sorted| :: !SameKey(sorted[i], x)
    ensures StrictlySorted(Insert(x, sorted))
    ensures multiset(Insert(x, sorted)) == multiset(sorted) + multiset{x}
    ensures |Insert(x, sorted)| == |sorted| + 1
  {
    hide Compare;
    if sorted != [] {
      CompareIsTotal(sorted[0], x);
      var rest := sorted[1..];
      assert sorted == [sorted[0]] + rest;
      if Compare(sorted[0], x) == Greater {
        forall j | 0 <= j < |sorted|
          ensures Compare(x, sorted[j]) == Less
        {
          if j > 0 {
            CompareIsTransitive(x, sorted[0], sorted[j]);
          }
        }
      } else {
        InsertKeeps(x, rest);
        var tail := Insert(x, rest);
        forall j | 0 <= j < |tail|
          ensures Compare(sorted[0], tail[j]) == Less
        {
          assert tail[j] in multiset(tail);
          if tail[j] != x {
            assert tail[j] in multiset(rest);
            var k :| 0 <= k < |rest| && rest[k] == tail[j];
            assert Compare(sorted[0], sorted[k + 1]) == Less;
          }
        }
      }
    }
  }

  lemma MemberOfBag(a: seq<MatchResult>, b: seq<MatchResult>, i: nat)
    requires multiset(a) == multiset(b) && i < |a|
    ensures a[i] in b
  {
    assert a[i] in multiset(b);
  }

  lemma {:induction false} SortSorts(results: seq<MatchResult>)
    requires DistinctKeys(results)
    ensures StrictlySorted(Sort(results))
    ensures multiset(Sort(results)) == multiset(results)
    ensures |Sort(results)| == |results|
  {
    hide Insert, SameKey, Compare;
    if results != [] {
      var most, last := results[..|results| - 1], results[|results| - 1];
      SortSorts(most);
      assert results == most + [last];
      forall i | 0 <= i < |Sort(most)|
        ensures !SameKey(Sort(most)[i], last)
      {
        MemberOfBag(Sort(most), most, i);
        var k :| 0 <= k < |most| && most[k] == Sort(most)[i];
        assert !SameKey(results[k], results[|results| - 1]);
      }
      InsertKeeps(last, Sort(most));
    }
  }

  /** A strictly sorted list is determined by its elements. */
  lemma {:induction false} SortedIsUnique(a: seq<MatchResult>, b: seq<MatchResult>)
    requires StrictlySorted(a) && StrictlySorted(b)
    requires forall x :: x in a <==> x in b
    ensures a == b
    decreases |a|
  {
    hide Compare;
    if a == [] {
      if b != [] {
        HeadIsMember(b);
        assert false;
      }
    } else {
      assert a[0] in a && a[0] in b;
      assert b[0] in b && b[0] in a;
      HeadIsLeast(a, b[0]);
      HeadIsLeast(b, a[0]);
      CompareIsTotal(a[0], b[0]);
      forall x
        ensures x in a[1..] <==> x in b[1..]
      {
        TailLacksHead(a, x);
        TailLacksHead(b, x);
      }
      SortedIsUnique(a[1..], b[1..]);
      assert a == [a[0]] + a[1..] && b == [b[0]] + b[1..];
    }
  }

  lemma HeadIsMember(s: seq<MatchResult>)
    requires s != []
    ensures s[0] in s
  {
  }

  lemma HeadIsLeast(s: seq<MatchResult>, x: MatchResult)
    requires StrictlySorted(s) && x in s
    ensures x == s[0] || Compare(s[0], x) == Less
  {
    var i :| 0 <= i < |s| && s[i] == x;
  }

  lemma TailLacksHead(s: seq<MatchResult>, x: MatchResult)
    requires StrictlySorted(s) && s != []
    ensures x in s[1..] <==> x in s && x != s[0]
  {
    CompareIsTotal(s[0], s[0]);
    hide Compare;
    if x in s[1..] {
      var i :| 0 <= i < |s[1..]| && s[1..][i] == x;
      assert s[i + 1] == x && Compare(s[0], s[i + 1]) == Less;
    }
    if x in s && x != s[0] {
      var i :| 0 <= i < |s| && s[i] == x;
      assert s[1..][i - 1] == x;
    }
  }

  // ---- Ranking -------------------------------------------------------------------------------

  function Rank(job: JobRequirement, nodes: seq<NodeOffer>): seq<MatchResult> {
    Sort(Results(job, nodes))
  }

  lemma ResultsStep(job: JobRequirement, nodes: seq<NodeOffer>, i: nat, before: seq<MatchResult>)
    requires i < |nodes|
    ensures before + Results(job, nodes[i..]) == before + NodeResults(job, nodes[i]) + Results(job, nodes[i + 1..])
  {
    hide NodeResults;
    assert nodes[i..][1..] == nodes[i + 1..];
  }

  /** The ranking loop: collects the results node by node, then sorts them. */
  method RankNodes(job: JobRequirement, nodes: seq<NodeOffer>) returns (results: seq<MatchResult>)
    ensures results == Rank(job, nodes)
  {
    hide Evaluate, MatchingOffers, Sort;
    results := [];
    for i := 0 to |nodes|
      invariant Results(job, nodes) == results + Results(job, nodes[i..])
    {
      var node := nodes[i];
      ResultsStep(job, nodes, i, results);
      var offers := MatchingOffers(job, node.capabilities);
      if offers == [] {
        results := results + [Missing(node)];
      } else {
        results := results + seq(|offers|, k requires 0 <= k < |offers| => Evaluate(job, node, offers[k]));
      }
    }
    assert Results(job, nodes) == results;
    results := Sort(results);
  }

  ghost predicate ValidNode(node: NodeOffer) {
    && !T.Blank(node.nodeId) && !T.Blank(node.network)
    && (forall i | 0 <= i < |node.capabilities| ::
          && !T.Blank(node.capabilities[i].id) && !T.Blank(node.capabilities[i].name)
          && !T.Blank(node.capabilities[i].implementation) && node.capabilities[i].concurrency > 0)
    && (forall i, j | 0 <= i < j < |node.capabilities| :: node.capabilities[i].id != node.capabilities[j].id)
    && (forall i | 0 <= i < |node.observations| :: Offers(node, node.observations[i].offerId))
    && (forall id | id in node.availability.activeJobs :: Offers(node, id))
  }

  ghost predicate Offers(node: NodeOffer, id: OfferId) {
    exists i | 0 <= i < |node.capabilities| :: node.capabilities[i].id == id
  }

  ghost predicate ValidNodes(nodes: seq<NodeOffer>) {
    && (forall i | 0 <= i < |nodes| :: ValidNode(nodes[i]))
    && (forall i, j | 0 <= i < j < |nodes| :: nodes[i].nodeId != nodes[j].nodeId)
  }

  datatype ValidationError =
    | Empty(field: string)
    | ZeroConcurrency(offer: OfferId)
    | DuplicateOffer(offer: OfferId)
    | UnknownOffer(offer: OfferId)
    | DuplicateNode(node: string)

  method ValidateNode(node: NodeOffer) returns (r: Result<(), ValidationError>)
    ensures r.Ok? <==> ValidNode(node)
  {
    hide T.Blank;
    if T.Blank(node.nodeId) { return Err(Empty("node_id")); }
    if T.Blank(node.network) { return Err(Empty("network")); }
    var ids: set<OfferId> := {};
    for i := 0 to |node.capabilities|
      invariant ids == set k | 0 <= k < i :: node.capabilities[k].id
      invariant forall k | 0 <= k < i ::
                  && !T.Blank(node.capabilities[k].id) && !T.Blank(node.capabilities[k].name)
                  && !T.Blank(node.capabilities[k].implementation) && node.capabilities[k].concurrency > 0
      invariant forall k, l | 0 <= k < l < i :: node.capabilities[k].id != node.capabilities[l].id
    {
      var offer := node.capabilities[i];
      if T.Blank(offer.id) { return Err(Empty("capability_offer_id")); }
      if T.Blank(offer.name) { return Err(Empty("capability_name")); }
      if T.Blank(offer.implementation) { return Err(Empty("implementation")); }
      if offer.concurrency == 0 { return Err(ZeroConcurrency(offer.id)); }
      if offer.id in ids { return Err(DuplicateOffer(offer.id)); }
      ids := ids + {offer.id};
    }
    assert forall id :: id in ids <==> Offers(node, id);
    for i := 0 to |node.observations|
      invariant forall k | 0 <= k < i :: Offers(node, node.observations[k].offerId)
    {
      if node.observations[i].offerId !in ids { return Err(UnknownOffer(node.observations[i].offerId)); }
    }
    var left := node.availability.activeJobs.Keys;
    while left != {}
      invariant left <= node.availability.activeJobs.Keys
      invariant forall id | id in node.availability.activeJobs && id !in left :: Offers(node, id)
      decreases |left|
    {
      var id :| id in left;
      if id !in ids { return Err(UnknownOffer(id)); }
      left := left - {id};
    }
    return Ok(());
  }

  /** Accepts exactly the nodes that are valid one by one and have different ids. */
  method ValidateNodes(nodes: seq<NodeOffer>) returns (r: Result<(), ValidationError>)
    ensures r.Ok? <==> ValidNodes(nodes)
  {
    hide ValidNode;
    var ids: set<string> := {};
    for i := 0 to |nodes|
      invariant ids == set k | 0 <= k < i :: nodes[k].nodeId
      invariant forall k | 0 <= k < i :: ValidNode(nodes[k])
      invariant forall k, l | 0 <= k < l < i :: nodes[k].nodeId != nodes[l].nodeId
    {
      var _ :- ValidateNode(nodes[i]);
      if nodes[i].nodeId in ids { return Err(DuplicateNode(nodes[i].nodeId)); }
      ids := ids + {nodes[i].nodeId};
    }
    return Ok(());
  }

  // ---- One result per offer ------------------------------------------------------------------

  lemma {:induction false} MatchingOffersMeaning(job: JobRequirement, offers: seq<CapabilityOffer>, x: CapabilityOffer)
    ensures x in MatchingOffers(job, offers) <==> x in offers && x.name == job.capability
  {
    if offers != [] {
      MatchingOffersMeaning(job, offers[1..], x);
      assert offers == [offers[0]] + offers[1..];
    }
  }

  lemma {:induction false} MatchingOffersDistinct(job: JobRequirement, offers: seq<CapabilityOffer>)
    requires forall i, j | 0 <= i < j < |offers| :: offers[i].id != offers[j].id
    ensures var m := MatchingOffers(job, offers); forall i, j | 0 <= i < j < |m| :: m[i].id != m[j].id
  {
    if offers != [] {
      MatchingOffersDistinct(job, offers[1..]);
      var m := MatchingOffers(job, offers[1..]);
      forall i | 0 <= i < |m|
        ensures m[i].id != offers[0].id
      {
        MatchingOffersMeaning(job, offers[1..], m[i]);
        var k :| 0 <= k < |offers[1..]| && offers[1..][k] == m[i];
        assert offers[k + 1] == m[i];
      }
    }
  }

  /** What a node's results are: `capability_missing` alone, or one evaluation per matching offer. */
  lemma NodeResultsMeaning(job: JobRequirement, node: NodeOffer, x: MatchResult)
    ensures x in NodeResults(job, node) <==>
            if forall o | o in node.capabilities :: o.name != job.capability
            then x == Missing(node)
            else exists o | o in node.capabilities :: o.name == job.capability && x == Evaluate(job, node, o)
  {
    hide Evaluate;
    var m := MatchingOffers(job, node.capabilities);
    forall o
      ensures o in m <==> o in node.capabilities && o.name == job.capability
    {
      MatchingOffersMeaning(job, node.capabilities, o);
    }
    if m != [] {
      assert m[0] in m;
      if o :| o in node.capabilities && o.name == job.capability && x == Evaluate(job, node, o) {
        var i :| 0 <= i < |m| && m[i] == o;
        assert NodeResults(job, node)[i] == x;
      }
    }
  }

  lemma {:induction false} ResultsMeaning(job: JobRequirement, nodes: seq<NodeOffer>, x: MatchResult)
    ensures x in Results(job, nodes) <==> exists i | 0 <= i < |nodes| :: x in NodeResults(job, nodes[i])
  {
    hide NodeResults;
    if nodes != [] {
      ResultsMeaning(job, nodes[1..], x);
      if i :| 0 <= i < |nodes| && x in NodeResults(job, nodes[i]) {
        assert i == 0 || nodes[i] == nodes[1..][i - 1];
      }
      if i :| 0 <= i < |nodes[1..]| && x in NodeResults(job, nodes[1..][i]) {
        assert nodes[i + 1] == nodes[1..][i];
      }
    }
  }

  lemma MatchingOffersOfValid(job: JobRequirement, node: NodeOffer)
    requires ValidNode(node)
    ensures var m := MatchingOffers(job, node.capabilities); forall i, j | 0 <= i < j < |m| :: m[i].id != m[j].id
  {
    MatchingOffersDistinct(job, node.capabilities);
  }

  lemma OfferIdsAreKeys(results: seq<MatchResult>, offers: seq<CapabilityOffer>)
    requires |results| == |offers|
    requires forall i | 0 <= i < |offers| :: results[i].offerId == Some(offers[i].id)
    requires forall i, j | 0 <= i < j < |offers| :: offers[i].id != offers[j].id
    ensures DistinctKeys(results)
  {
    forall i, j | 0 <= i < j < |results|
      ensures !SameKey(results[i], results[j])
    {
      assert offers[i].id != offers[j].id;
    }
  }

  lemma NodeResultsNames(job: JobRequirement, node: NodeOffer)
    ensures var m, results := MatchingOffers(job, node.capabilities), NodeResults(job, node);
            && (m == [] ==> results == [Missing(node)])
            && (m != [] ==> |results| == |m| && forall i | 0 <= i < |m| :: results[i].offerId == Some(m[i].id))
            && forall i | 0 <= i < |results| :: results[i].nodeId == node.nodeId
  {
    var m, results := MatchingOffers(job, node.capabilities), NodeResults(job, node);
    hide Evaluate, MatchingOffers;
    if m != [] {
      forall i | 0 <= i < |m|
        ensures results[i].nodeId == node.nodeId && results[i].offerId == Some(m[i].id)
      {
        StatusMeaning(job, node, m[i]);
      }
    }
  }

  lemma NodeResultsKeys(job: JobRequirement, node: NodeOffer)
    requires ValidNode(node)
    ensures DistinctKeys(NodeResults(job, node))
    ensures forall i | 0 <= i < |NodeResults(job, node)| :: NodeResults(job, node)[i].nodeId == node.nodeId
  {
    MatchingOffersOfValid(job, node);
    NodeResultsNames(job, node);
    hide ValidNode, NodeResults, MatchingOffers, DistinctKeys;
    var m := MatchingOffers(job, node.capabilities);
    if m == [] {
      OneResultIsDistinct(Missing(node));
    } else {
      OfferIdsAreKeys(NodeResults(job, node), m);
    }
  }

  lemma OneResultIsDistinct(x: MatchResult)
    ensures DistinctKeys([x])
  {
  }

  lemma {:induction false} ResultsKeys(job: JobRequirement, nodes: seq<NodeOffer>)
    requires ValidNodes(nodes)
    ensures DistinctKeys(Results(job, nodes))
  {
    hide ValidNode, NodeResults;
    if nodes != [] {
      var first, rest := NodeResults(job, nodes[0]), Results(job, nodes[1..]);
      NodeResultsKeys(job, nodes[0]);
      ResultsKeys(job, nodes[1..]);
      forall i, j | 0 <= i < |first| && 0 <= j < |rest|
        ensures first[i].nodeId != rest[j].nodeId
      {
        ResultsMeaning(job, nodes[1..], rest[j]);
        var k :| 0 <= k < |nodes[1..]| && rest[j] in NodeResults(job, nodes[1..][k]);
        NodeResultsKeys(job, nodes[1..][k]);
        assert nodes[1..][k] == nodes[k + 1];
      }
    }
  }

  lemma RankIsSorted(job: JobRequirement, nodes: seq<NodeOffer>)
    requires ValidNodes(nodes)
    ensures StrictlySorted(Rank(job, nodes)) && DistinctKeys(Rank(job, nodes))
    ensures multiset(Rank(job, nodes)) == multiset(Results(job, nodes))
  {
    hide Results, ValidNodes, Compare;
    var results, ranked := Results(job, nodes), Rank(job, nodes);
    ResultsKeys(job, nodes);
    SortSorts(results);
    forall i, j | 0 <= i < j < |ranked|
      ensures !SameKey(ranked[i], ranked[j])
    {
      SortedKeysDiffer(results, ranked, i, j);
    }
  }

  /**
   * The ranking of valid nodes holds, exactly once each, the evaluation of every matching offer and the
   * `capability_missing` of every node without one, and nothing else.
   */
  lemma {:induction false} RankHoldsEveryOfferOnce(job: JobRequirement, nodes: seq<NodeOffer>, x: MatchResult)
    requires ValidNodes(nodes)
    ensures DistinctKeys(Rank(job, nodes))
    ensures x in Rank(job, nodes) <==>
            exists i | 0 <= i < |nodes| ::
              if forall o | o in nodes[i].capabilities :: o.name != job.capability
              then x == Missing(nodes[i])
              else exists o | o in nodes[i].capabilities :: o.name == job.capability && x == Evaluate(job, nodes[i], o)
  {
    hide Evaluate, Rank, ValidNodes, NodeResults;
    RankHolds(job, nodes, x);
    forall i | 0 <= i < |nodes|
      ensures x in NodeResults(job, nodes[i]) <==>
              if forall o | o in nodes[i].capabilities :: o.name != job.capability
              then x == Missing(nodes[i])
              else exists o | o in nodes[i].capabilities :: o.name == job.capability && x == Evaluate(job, nodes[i], o)
    {
      NodeResultsMeaning(job, nodes[i], x);
    }
    RankIsSorted(job, nodes);
  }

  lemma RankHolds(job: JobRequirement, nodes: seq<NodeOffer>, x: MatchResult)
    requires ValidNodes(nodes)
    ensures x in Rank(job, nodes) <==> exists i | 0 <= i < |nodes| :: x in NodeResults(job, nodes[i])
  {
    hide NodeResults, ValidNodes, Rank;
    RankIsSorted(job, nodes);
    ResultsMeaning(job, nodes, x);
    assert x in Rank(job, nodes) <==> x in multiset(Rank(job, nodes));
    assert x in Results(job, nodes) <==> x in multiset(Results(job, nodes));
  }

  /** `a` comes before `b` in a dictionary: at the first difference the smaller character, or `a` just ends. */
  ghost predicate Precedes(a: string, b: string) {
    exists k | 0 <= k <= |a| && k <= |b| ::
      a[..k] == b[..k] && k < |b| && (k == |a| || a[k] < b[k])
  }

  /** No offer comes before any offer; offers come in the order of their ids. */
  ghost predicate OfferPrecedes(a: Option<OfferId>, b: Option<OfferId>) {
    b.Some? && (a.None? || Precedes(a.value, b.value))
  }

  lemma {:induction false} CompareIsDictionary(a: string, b: string)
    ensures CompareStrings(a, b) == Less <==> Precedes(a, b)
  {
    if a != [] && b != [] && a[0] == b[0] {
      CompareIsDictionary(a[1..], b[1..]);
      if k :| 0 <= k <= |a[1..]| && k <= |b[1..]|
              && a[1..][..k] == b[1..][..k] && k < |b[1..]| && (k == |a[1..]| || a[1..][k] < b[1..][k]) {
        assert a[..k + 1] == [a[0]] + a[1..][..k] && b[..k + 1] == [b[0]] + b[1..][..k];
      }
      if k :| 0 <= k <= |a| && k <= |b| && a[..k] == b[..k] && k < |b| && (k == |a| || a[k] < b[k]) {
        assert a[1..][..k - 1] == a[..k][1..] && b[1..][..k - 1] == b[..k][1..];
      }
    } else if CompareStrings(a, b) == Less {
      assert a[..0] == b[..0];
    } else {
      assert forall k | 0 < k <= |a| && k <= |b| && a[..k] == b[..k] :: a[..k][0] == b[..k][0];
    }
  }

  /**
   * Better results come first: nothing but a compatible offer before a compatible one, no rejected one
   * before an unavailable one, no lower score before a higher one, and what is equal so far in dictionary
   * order of nodes and then of offers.
   */
  lemma {:induction false} RankPutsBetterFirst(job: JobRequirement, nodes: seq<NodeOffer>, i: nat, j: nat)
    requires ValidNodes(nodes) && i < j < |Rank(job, nodes)|
    ensures var a, b := Rank(job, nodes)[i], Rank(job, nodes)[j];
            && (b.status.Compatible? ==> a.status.Compatible?)
            && (b.status.Unavailable? ==> !a.status.Rejected?)
            && (a.status == b.status ==> (a.score.Some? <==> b.score.Some?))
            && (a.status == b.status && a.score.Some? ==> a.score.value.finalScore >= b.score.value.finalScore)
            && (a.status == b.status
                && (a.score.Some? ==> a.score.value.finalScore == b.score.value.finalScore) ==>
                  Precedes(a.nodeId, b.nodeId) || (a.nodeId == b.nodeId && OfferPrecedes(a.offerId, b.offerId)))
  {
    var a, b := Rank(job, nodes)[i], Rank(job, nodes)[j];
    RankIsSorted(job, nodes);
    assert Compare(a, b) == Less by { hide Rank, ValidNodes; }
    assert a in Rank(job, nodes) && b in Rank(job, nodes);
    RankedIsScored(job, nodes, a);
    RankedIsScored(job, nodes, b);
    hide Rank, ValidNodes, CompareStrings;
    StringsAreOrdered(a.nodeId, b.nodeId);
    CompareIsDictionary(a.nodeId, b.nodeId);
    if a.offerId.Some? && b.offerId.Some? {
      CompareIsDictionary(a.offerId.value, b.offerId.value);
    }
  }

  lemma RankedIsScored(job: JobRequirement, nodes: seq<NodeOffer>, x: MatchResult)
    requires ValidNodes(nodes) && x in Rank(job, nodes)
    ensures x.score.Some? <==> x.status.Compatible?
  {
    RankHolds(job, nodes, x);
    hide Rank, ValidNodes, Evaluate;
    var i :| 0 <= i < |nodes| && x in NodeResults(job, nodes[i]);
    NodeResultsMeaning(job, nodes[i], x);
    if o :| o in nodes[i].capabilities && x == Evaluate(job, nodes[i], o) {
      StatusMeaning(job, nodes[i], o);
    }
  }

  lemma SortedKeysDiffer(results: seq<MatchResult>, ranked: seq<MatchResult>, i: nat, j: nat)
    requires DistinctKeys(results) && multiset(ranked) == multiset(results)
    requires StrictlySorted(ranked) && i < j < |ranked|
    ensures !SameKey(ranked[i], ranked[j])
  {
    assert ranked[i] in multiset(results) && ranked[j] in multiset(results);
    var k :| 0 <= k < |results| && results[k] == ranked[i];
    var l :| 0 <= l < |results| && results[l] == ranked[j];
    CompareIsTotal(ranked[i], ranked[i]);
    hide Compare;
    assert ranked[i] != ranked[j];
    assert k != l;
  }

  // ---- Independence of input order -----------------------------------------------------------

  /** The same node, with its offers and observations in any order. */
  ghost predicate SameNode(a: NodeOffer, b: NodeOffer) {
    && a.nodeId == b.nodeId && a.network == b.network && a.policy == b.policy && a.availability == b.availability
    && multiset(a.capabilities) == multiset(b.capabilities)
    && multiset(a.observations) == multiset(b.observations)
  }

  /** `perm` and `inverse` undo each other on the first `n` numbers. */
  ghost predicate Permutation(perm: seq<nat>, inverse: seq<nat>, n: nat) {
    && |perm| == |inverse| == n
    && (forall i | 0 <= i < n :: perm[i] < n && inverse[perm[i]] == i)
    && (forall i | 0 <= i < n :: inverse[i] < n && perm[inverse[i]] == i)
  }

  /** The same nodes in another order, each possibly rearranged inside. */
  ghost predicate Rearranged(a: seq<NodeOffer>, b: seq<NodeOffer>, perm: seq<nat>, inverse: seq<nat>) {
    && |a| == |b| && Permutation(perm, inverse, |a|)
    && forall i | 0 <= i < |b| :: SameNode(a[perm[i]], b[i])
  }

  lemma {:induction false} CountIfRemoves(a: seq<Observation>, k: nat, p: Observation -> bool)
    requires k < |a|
    ensures CountIf(a, p) == (if p(a[k]) then 1 else 0) + CountIf(a[..k] + a[k + 1..], p)
  {
    if k == 0 {
      assert a[..0] + a[1..] == a[1..];
    } else {
      CountIfRemoves(a[1..], k - 1, p);
      var rest := a[..k] + a[k + 1..];
      assert rest[0] == a[0] && rest[1..] == a[1..][..k - 1] + a[1..][k..];
    }
  }

  lemma BagWithout(a: seq<Observation>, k: nat)
    requires k < |a|
    ensures multiset(a[..k] + a[k + 1..]) == multiset(a) - multiset{a[k]}
  {
    assert a == a[..k] + [a[k]] + a[k + 1..];
  }

  lemma {:induction false} CountIfPermutes(a: seq<Observation>, b: seq<Observation>, p: Observation -> bool)
    requires multiset(a) == multiset(b)
    ensures CountIf(a, p) == CountIf(b, p)
  {
    BagsHaveSizes(a, b);
    if a != [] {
      assert a[0] in multiset(b);
      var k :| 0 <= k < |b| && b[k] == a[0];
      var rest := b[..k] + b[k + 1..];
      CountIfRemoves(b, k, p);
      BagWithout(b, k);
      TailBag(a);
      CountIfPermutes(a[1..], rest, p);
    }
  }

  lemma BagsHaveSizes(a: seq<Observation>, b: seq<Observation>)
    requires multiset(a) == multiset(b)
    ensures |a| == |b|
  {
    assert |multiset(a)| == |a| && |multiset(b)| == |b|;
  }

  lemma TailBag(a: seq<Observation>)
    requires a != []
    ensures multiset(a[1..]) == multiset(a) - multiset{a[0]}
  {
    BagWithout(a, 0);
    assert a[..0] + a[1..] == a[1..];
  }

  lemma {:induction false} LeastLatencyMeaning(a: seq<Observation>, p: Observation -> bool)
    ensures LeastLatency(a, p).None? <==> forall o | o in a :: !p(o)
    ensures LeastLatency(a, p).Some? ==>
              && (forall o | o in a && p(o) :: LeastLatency(a, p).value <= o.latencyMs)
              && exists o | o in a :: p(o) && o.latencyMs == LeastLatency(a, p).value
  {
    if a != [] {
      LeastLatencyMeaning(a[1..], p);
      assert a == [a[0]] + a[1..];
      assert forall o :: o in a <==> o == a[0] || o in a[1..];
    }
  }

  lemma LeastLatencyPermutes(a: seq<Observation>, b: seq<Observation>, p: Observation -> bool)
    requires multiset(a) == multiset(b)
    ensures LeastLatency(a, p) == LeastLatency(b, p)
  {
    LeastLatencyMeaning(a, p);
    LeastLatencyMeaning(b, p);
    assert forall o :: o in a <==> o in multiset(a);
    assert forall o :: o in b <==> o in multiset(b);
  }

  lemma EvaluationPermutes(job: JobRequirement, a: NodeOffer, b: NodeOffer, offer: CapabilityOffer)
    requires SameNode(a, b)
    ensures Evaluate(job, a, offer) == Evaluate(job, b, offer)
  {
    ScorePermutes(job, a, b, offer);
    assert PolicyReasons(job, a) == PolicyReasons(job, b);
    assert AvailabilityReasons(job, a, offer) == AvailabilityReasons(job, b, offer);
    hide ContractReasons, PolicyReasons, AvailabilityReasons, Score;
  }

  lemma ScorePermutes(job: JobRequirement, a: NodeOffer, b: NodeOffer, offer: CapabilityOffer)
    requires SameNode(a, b)
    ensures Score(job, a, offer) == Score(job, b, offer)
  {
    hide ContractHeadroom, RoundScore, CountIf, LeastLatency, Ratio, Seen, Succeeded;
    CountIfPermutes(a.observations, b.observations, Seen(job, offer));
    CountIfPermutes(a.observations, b.observations, Succeeded(job, offer));
    LeastLatencyPermutes(a.observations, b.observations, Succeeded(job, offer));
  }

  lemma NodeResultsPermute(job: JobRequirement, a: NodeOffer, b: NodeOffer, x: MatchResult)
    requires SameNode(a, b)
    ensures x in NodeResults(job, a) <==> x in NodeResults(job, b)
  {
    hide Evaluate, NodeResults;
    NodeResultsMeaning(job, a, x);
    NodeResultsMeaning(job, b, x);
    assert forall o :: o in a.capabilities <==> o in multiset(a.capabilities);
    assert forall o :: o in b.capabilities <==> o in multiset(b.capabilities);
    forall o
      ensures Evaluate(job, a, o) == Evaluate(job, b, o)
    {
      EvaluationPermutes(job, a, b, o);
    }
  }

  /** Rearranged nodes are as valid as they were. */
  lemma RearrangedAreValid(job: JobRequirement, a: seq<NodeOffer>, b: seq<NodeOffer>, perm: seq<nat>,
                              inverse: seq<nat>)
    requires ValidNodes(a) && Rearranged(a, b, perm, inverse)
    ensures ValidNodes(b)
  {
    hide ValidNode;
    forall i | 0 <= i < |b|
      ensures ValidNode(b[i])
    {
      SameNodeIsValid(a[perm[i]], b[i]);
    }
    forall i, j | 0 <= i < j < |b|
      ensures b[i].nodeId != b[j].nodeId
    {
      assert SameNode(a[perm[i]], b[i]) && SameNode(a[perm[j]], b[j]);
      assert inverse[perm[i]] == i && inverse[perm[j]] == j;
      assert perm[i] != perm[j];
    }
  }

  lemma SameNodeIsValid(a: NodeOffer, b: NodeOffer)
    requires ValidNode(a) && SameNode(a, b)
    ensures ValidNode(b)
  {
    forall i | 0 <= i < |b.capabilities|
      ensures b.capabilities[i] in a.capabilities
    {
      assert b.capabilities[i] in multiset(a.capabilities);
    }
    forall id | Offers(a, id)
      ensures Offers(b, id)
    {
      var i :| 0 <= i < |a.capabilities| && a.capabilities[i].id == id;
      assert a.capabilities[i] in multiset(b.capabilities);
      var j :| 0 <= j < |b.capabilities| && b.capabilities[j] == a.capabilities[i];
    }
    forall i | 0 <= i < |b.observations|
      ensures Offers(b, b.observations[i].offerId)
    {
      assert b.observations[i] in multiset(a.observations);
      var j :| 0 <= j < |a.observations| && a.observations[j] == b.observations[i];
    }
    DistinctOffersPermute(a.capabilities, b.capabilities);
  }

  /** Distinct ids are a property of the bag of offers, not of their order. */
  lemma DistinctOffersPermute(a: seq<CapabilityOffer>, b: seq<CapabilityOffer>)
    requires multiset(a) == multiset(b)
    requires forall i, j | 0 <= i < j < |a| :: a[i].id != a[j].id
    ensures forall i, j | 0 <= i < j < |b| :: b[i].id != b[j].id
  {
    forall i, j | 0 <= i < j < |b|
      ensures b[i].id != b[j].id
    {
      assert b[i] in multiset(a) && b[j] in multiset(a);
      var k :| 0 <= k < |a| && a[k] == b[i];
      var l :| 0 <= l < |a| && a[l] == b[j];
      if b[i].id == b[j].id {
        assert k == l && b[i] == b[j];
        TwiceInBag(b, i, j);
        OnceInBag(a, k);
      }
    }
  }

  lemma TwiceInBag(b: seq<CapabilityOffer>, i: nat, j: nat)
    requires i < j < |b| && b[i] == b[j]
    ensures multiset(b)[b[i]] >= 2
  {
    assert b == b[..i] + [b[i]] + b[i + 1..j] + [b[j]] + b[j + 1..];
    assert multiset(b)
        == multiset(b[..i]) + multiset{b[i]} + multiset(b[i + 1..j]) + multiset{b[j]} + multiset(b[j + 1..]);
  }

  lemma OnceInBag(a: seq<CapabilityOffer>, k: nat)
    requires k < |a|
    requires forall i, j | 0 <= i < j < |a| :: a[i].id != a[j].id
    ensures multiset(a)[a[k]] == 1
  {
    assert a == a[..k] + [a[k]] + a[k + 1..];
    assert a[k] !in a[..k] && a[k] !in a[k + 1..];
    assert multiset(a) == multiset(a[..k]) + multiset{a[k]} + multiset(a[k + 1..]);
  }

  /**
   * The ranking does not depend on input order: any permutation of the nodes, of each node's offers and
   * of its observations gives the identical list.
   */
  lemma {:induction false} RankIgnoresOrder(job: JobRequirement, a: seq<NodeOffer>, b: seq<NodeOffer>,
                                            perm: seq<nat>, inverse: seq<nat>)
    requires ValidNodes(a) && Rearranged(a, b, perm, inverse)
    ensures Rank(job, a) == Rank(job, b)
  {
    hide ValidNode, NodeResults, Rank, Compare, SameNode;
    RearrangedAreValid(job, a, b, perm, inverse);
    forall x
      ensures x in Rank(job, a) <==> x in Rank(job, b)
    {
      RankHolds(job, a, x);
      RankHolds(job, b, x);
      if i :| 0 <= i < |a| && x in NodeResults(job, a[i]) {
        assert SameNode(a[perm[inverse[i]]], b[inverse[i]]);
        NodeResultsPermute(job, a[i], b[inverse[i]], x);
      }
      if i :| 0 <= i < |b| && x in NodeResults(job, b[i]) {
        NodeResultsPermute(job, a[perm[i]], b[i], x);
      }
    }
    RankIsSorted(job, a);
    RankIsSorted(job, b);
    SortedIsUnique(Rank(job, a), Rank(job, b));
  }
}
