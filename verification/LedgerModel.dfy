/** The intent ledger: its records, the checks that only compute or refuse, and for each command
    the function from an old ledger to the new one.  A refused command has no new ledger. */
module LedgerModel {
  import opened Common

  const PROOF_GUARD_S := 300
  const METRICS_BUDGET_S := 10
  const PVE_BUDGET_S := 12
  const MAX_CANDIDATES := 3
  const MAX_LEDGER_BYTES := 65536
  const MAX_BLOCKERS := 8
  const MAX_GRANTS := 16
  const OUTCOMES: set<string> := {"success", "denied", "unknown", "uncertain", "failure"}

  /** The three exception classes of the program: exit codes 2, 3 and 4. */
  datatype Refusal = Conflict | Gate | Reject

  datatype Slot = Version | Permissions | CephStatus | CephPool | Revalidation | Metrics
  datatype Decision = Admit | Pending | Denied | Unknown | Uncertain
  datatype Branch = Existing | New
  datatype Readiness = NotReady | Ready
  datatype OwnerKind = Persistent | Task
  datatype OwnerClass = Own | Other
  datatype Cnp = Present | Absent
  datatype BlockerKind = Recoverable | TurnEnd | LostOwner
  datatype ProofKey = DiscoveryProof | RevalidationProof

  datatype Binding = Binding(identity: string, scope: string, attempt: string)
  datatype Owner = Owner(kind: OwnerKind, ready: bool, live: bool, lost: bool)
  datatype Contract = Contract(fsid: string, endpoints: seq<string>, covered: seq<string>)
  datatype Candidate = Candidate(head: string, reviewedHead: string, ciHead: string, pr: string, manager: string,
                                 endpoint: string, fluxLocal: string, diffScope: string,
                                 ciStartedAt: int, ciFinishedAt: int)
  datatype Merge = Merge(prHead: string, merged: string, fluxSource: string, fluxApplied: string)
  datatype Delivery = Delivery(deployment: Readiness, grant: Readiness, cnp: Readiness)
  datatype Proof = Proof(binding: Binding, requestAt: int, observedAt: int, receipt: string, body: string,
                         fsid: string, manager: string, endpoint: string)
  datatype Fingerprint = Fingerprint(slot: Slot, decision: Decision, fsid: string, manager: string,
                                     endpoint: string, receipt: string)
  datatype Completion = Completion(outcome: string, requestAt: Option<int>, observedAt: Option<int>, receipt: string,
                                   body: Option<string>, fsid: string, manager: string, endpoint: string)
  datatype Intent = Intent(slot: Slot, fingerprint: Fingerprint, admittedAt: int, dispatch: bool,
                           decision: Decision, result: Option<Completion>)
  datatype Resolution = Resolution(reason: string, prerequisite: string, verifiedAt: int, resolvedAt: int,
                                   binding: Binding)
  /** A blocker written by an earlier version has no recovery metadata: meta is None. */
  datatype BlockerMeta = BlockerMeta(id: string, recordedAt: int, resolution: Option<Resolution>)
  datatype Blocker = Blocker(kind: BlockerKind, meta: Option<BlockerMeta>)
  datatype Grant = Grant(uid: string, ownerClass: OwnerClass, expiresAt: int, active: bool, cnp: Cnp,
                         cnpUid: string, reason: string, receipt: string, observedAt: int)
  datatype AuditRow = AuditRow(uid: string, ownerClass: OwnerClass, expiresAt: int, cnpUid: string,
                               active: bool, cnpPresent: bool)
  datatype AuditCnp = AuditCnp(uid: string, present: bool)
  datatype Audit = Audit(binding: Binding, receipt: string, observedAt: int, complete: bool, policyRef: string,
                         policyPresent: bool, grants: seq<AuditRow>, cnps: seq<AuditCnp>)
  datatype Evaluation = Evaluation(clean: bool, audit: Audit)
  datatype Cleanup = Cleanup(reserved: int, deadline: Option<int>, ciEstimate: Option<int>,
                             grants: seq<Grant>, evaluation: Option<Evaluation>)

  datatype State = State(
    revision: int, lastNow: int, binding: Binding, owner: Owner, contract: Contract, cleanup: Cleanup,
    candidates: seq<Candidate>, selectedHead: Option<string>, selectedManager: Option<string>,
    selectedEndpoint: Option<string>, branch: Option<Branch>, merge: Option<Merge>, delivery: Option<Delivery>,
    reversal: Option<string>, proof: map<ProofKey, Proof>, intents: map<string, Intent>,
    slotIntent: map<Slot, string>, blockers: seq<Blocker>)

  datatype Command =
    | ReserveCleanup(seconds: int, deadline: int, ciEstimate: Option<int>)
    | PrepareCandidate(head: string, reviewedHead: string, ciHead: string, pr: string, manager: string,
                       endpoint: string, fluxLocal: string, diffScope: string, privateReview: bool,
                       ciStartedAt: int, ciFinishedAt: int)
    | SelectCandidate(branch: Branch, fsid: string, manager: string, endpoint: string, receipt: string)
    | RecordMerge(prHead: string, mergedSha: string, fluxSource: string, fluxApplied: string)
    | RecordReversal(reversalHead: string)
    | ObserveDelivery(deployment: Readiness, grant: Readiness, cnp: Readiness)
    | AdmitSlot(slot: Slot, intentId: string, decision: Decision, fsid: string, manager: string,
                endpoint: string, receipt: string)
    | RecordOutcome(intentId: string, outcome: string, receipt: string, body: Option<string>,
                    requestAt: Option<int>, observedAt: Option<int>, fsid: string, manager: string, endpoint: string)
    | RecordBlocker(kind: BlockerKind)
    | ResolveBlocker(blockerId: string, reason: string, prerequisite: string, verifiedAt: int)
    | RecordResidual(uid: string, receipt: string, cnpUid: string, ownerClass: OwnerClass, active: bool,
                     expiresAt: int, cnpState: Cnp, reason: string)
    | EvaluateClean(audit: Audit)
    | CloseOperation | AuthorizeSuccessor | Publish

  datatype Call = Call(caller: Binding, now: int, stageBudget: int, expectRevision: int, command: Command)

  datatype Deadlines = Deadlines(proofDeadline: int, transportDeadline: int, readBudget: int)
  /** What a successful call tells its caller to do.  Only `dispatch` authorises one read. */
  datatype Advice = Advice(replay: bool, dispatch: bool, deadlines: Option<Deadlines>)
  const NO_ADVICE := Advice(false, false, None)

  datatype Accepted = Accepted(state: State, advice: Advice)

  // ---- Strings ----

  predicate TokenChar(c: char) {
    'A' <= c <= 'Z' || 'a' <= c <= 'z' || '0' <= c <= '9' || c in {'_', '.', ':', '-'}
  }

  predicate IsToken(s: string) {
    1 <= |s| <= 80 && forall i | 0 <= i < |s| :: TokenChar(s[i])
  }

  function Digit(n: int): char
    requires 0 <= n < 10
  {
    "0123456789"[n]
  }

  function Octet(n: int): string
    requires 0 <= n < 256
  {
    if n < 10 then [Digit(n)]
    else if n < 100 then [Digit(n / 10), Digit(n % 10)]
    else [Digit(n / 100), Digit(n / 10 % 10), Digit(n % 10)]
  }

  function Dotted(a: int, b: int, c: int, d: int): string
    requires 0 <= a < 256 && 0 <= b < 256 && 0 <= c < 256 && 0 <= d < 256
  {
    Octet(a) + "." + Octet(b) + "." + Octet(c) + "." + Octet(d)
  }

  /** Canonical IPv4 (no leading zeros) followed by the one allowed port and path. */
  predicate IsEndpoint(s: string) {
    exists a, b, c, d | 0 <= a < 256 && 0 <= b < 256 && 0 <= c < 256 && 0 <= d < 256 ::
      s == Dotted(a, b, c, d) + ":9283/metrics"
  }

  predicate AllEndpoints(xs: seq<string>) {
    forall i | 0 <= i < |xs| :: IsEndpoint(xs[i])
  }

  predicate IsBinding(b: Binding) {
    IsToken(b.identity) && IsToken(b.scope) && IsToken(b.attempt)
  }

  function BlockerId(n: nat): string
    requires 1 <= n <= MAX_BLOCKERS
  {
    "blocker-" + [Digit(n)]
  }

  predicate Distinct<T(==)>(xs: seq<T>) {
    forall i, j | 0 <= i < j < |xs| :: xs[i] != xs[j]
  }

  // ---- Slots ----

  function Rank(slot: Slot): (r: nat)
    ensures r < 6
  {
    match slot
    case Version => 0
    case Permissions => 1
    case CephStatus => 2
    case CephPool => 3
    case Revalidation => 4
    case Metrics => 5
  }

  predicate IsDiscovery(slot: Slot) { Rank(slot) < 4 }

  const ALL_SLOTS: set<Slot> := {Version, Permissions, CephStatus, CephPool, Revalidation, Metrics}

  predicate Consumed(s: State, slot: Slot) {
    slot in s.slotIntent && s.slotIntent[slot] in s.intents
  }

  function IntentOf(s: State, slot: Slot): Intent
    requires Consumed(s, slot)
  {
    s.intents[s.slotIntent[slot]]
  }

  predicate Succeeded(s: State, slot: Slot) {
    Consumed(s, slot) && IntentOf(s, slot).result.Some? && IntentOf(s, slot).result.value.outcome == "success"
  }

  predicate AllSucceededBelow(s: State, rank: nat) {
    forall slot | slot in ALL_SLOTS && Rank(slot) < rank :: Succeeded(s, slot)
  }

  // ---- Loading ----

  predicate ProofLoads(p: Proof) {
    && IsBinding(p.binding) && IsToken(p.receipt) && IsToken(p.fsid) && IsToken(p.manager)
    && IsEndpoint(p.endpoint)
  }

  predicate GrantLoads(g: Grant) {
    IsToken(g.uid) && IsToken(g.cnpUid) && IsToken(g.receipt)
  }

  predicate BlockerLoads(b: Blocker, binding: Binding) {
    b.meta.Some? ==>
      && IsToken(b.meta.value.id)
      && (b.meta.value.resolution.Some? ==>
            b.kind == Recoverable && b.meta.value.resolution.value.binding == binding)
  }

  predicate IntentLoads(i: Intent) {
    i.result.Some? ==> i.result.value.outcome in OUTCOMES
  }

  /** Each intent is named by exactly its slot and each slot by exactly its intent. */
  predicate MutuallyInverse(intents: map<string, Intent>, slotIntent: map<Slot, string>) {
    && (forall id | id in intents :: intents[id].slot in slotIntent && slotIntent[intents[id].slot] == id)
    && (forall slot | slot in slotIntent :: slotIntent[slot] in intents && intents[slotIntent[slot]].slot == slot)
  }

  /** Everything load_ledger asks of a stored ledger but the number of its intents. */
  predicate Readable(s: State) {
    && s.revision >= 1 && s.lastNow >= 0
    && IsBinding(s.binding)
    && IsToken(s.contract.fsid)
    && 1 <= |s.contract.endpoints| <= 4 && |s.contract.covered| <= 4
    && AllEndpoints(s.contract.endpoints) && AllEndpoints(s.contract.covered)
    && |s.cleanup.grants| <= MAX_GRANTS
    && (forall i | 0 <= i < |s.cleanup.grants| :: GrantLoads(s.cleanup.grants[i]))
    && |s.candidates| <= MAX_CANDIDATES && |s.blockers| <= MAX_BLOCKERS
    && (forall i | 0 <= i < |s.blockers| :: BlockerLoads(s.blockers[i], s.binding))
    && (forall k | k in s.proof :: ProofLoads(s.proof[k]))
    && (forall id | id in s.intents :: IsToken(id) && IntentLoads(s.intents[id]))
    && MutuallyInverse(s.intents, s.slotIntent)
  }

  predicate Loads(s: State) { |s.intents| <= 6 && Readable(s) }

  // ---- Checks that only compute or refuse ----

  function AdvanceClock(s: State, now: int): Result<State, Refusal> {
    if now < s.lastNow then Err(Gate) else Ok(s.(lastNow := now))
  }

  predicate OwnerObserved(o: Owner) {
    o.kind == Persistent && o.ready && o.live && !o.lost
  }

  predicate Unresolved(b: Blocker) {
    b.meta.None? || b.meta.value.resolution.None?
  }

  predicate OwnerAvailable(s: State) {
    OwnerObserved(s.owner) && forall i | 0 <= i < |s.blockers| :: !Unresolved(s.blockers[i])
  }

  predicate ReserveHolds(c: Cleanup, now: int, stage: int) {
    c.deadline.Some? && now + c.reserved + stage <= c.deadline.value
  }

  function Max(a: int, b: int): int { if a < b then b else a }

  function Min(a: int, b: int): int { if a < b then a else b }

  function NormalStage(s: State, call: Call, stage: int): Result<State, Refusal> {
    var budget := Max(stage, call.stageBudget);
    :- Need(OwnerAvailable(s), Gate);
    var s1 :- AdvanceClock(s, call.now);
    :- Need(ReserveHolds(s1.cleanup, call.now, budget), Gate);
    Ok(s1.(cleanup := s1.cleanup.(evaluation := None)))
  }

  function ClassifyProof(p: Proof, now: int, budget: int): Result<int, Refusal> {
    var deadline := Min(p.requestAt, p.observedAt) + PROOF_GUARD_S;
    :- Need(p.requestAt <= p.observedAt && p.observedAt <= now, Gate);
    :- Need(now + budget <= deadline, Gate);
    Ok(deadline)
  }

  predicate ProofMatches(s: State, p: Proof, fsid: string, manager: string, endpoint: string, receipt: string) {
    && p.binding == s.binding && p.fsid == s.contract.fsid
    && fsid == p.fsid && manager == p.manager && endpoint == p.endpoint && receipt == p.receipt
    && endpoint in s.contract.endpoints
    && (s.selectedManager.Some? && s.selectedManager.value != "" ==>
          manager == s.selectedManager.value && Some(endpoint) == s.selectedEndpoint)
  }

  predicate FluxOnMerge(s: State) {
    && s.merge.Some? && Some(s.merge.value.prHead) == s.selectedHead
    && s.merge.value.merged != s.merge.value.prHead
    && s.merge.value.fluxSource == s.merge.value.merged && s.merge.value.fluxApplied == s.merge.value.merged
  }

  predicate DeliveryReady(s: State) {
    && s.branch.Some?
    && (s.branch.value == New ==> FluxOnMerge(s))
    && s.delivery == Some(Delivery(Ready, Ready, Ready))
  }

  // ---- One function per command ----

  function ApplyReserve(s: State, now: int, c: Command): Result<State, Refusal>
    requires c.ReserveCleanup?
  {
    var reserve := s.cleanup.(reserved := c.seconds, deadline := Some(c.deadline), ciEstimate := c.ciEstimate);
    :- Need(c.seconds > 0 && c.deadline > now + c.seconds, Reject);
    :- Need(c.ciEstimate.Some? ==> c.ciEstimate.value >= 0, Reject);
    Ok(s.(cleanup := reserve))
  }

  function CandidateOf(c: Command): Candidate
    requires c.PrepareCandidate?
  {
    Candidate(c.head, c.head, c.head, c.pr, c.manager, c.endpoint, "success", "success",
              c.ciStartedAt, c.ciFinishedAt)
  }

  function ApplyPrepare(s: State, now: int, c: Command): Result<State, Refusal>
    requires c.PrepareCandidate?
  {
    var candidate := CandidateOf(c);
    :- Need(s.slotIntent == map[] && s.branch.None?, Gate);
    :- Need(IsHex(c.head, 40), Reject);
    :- Need(c.reviewedHead == c.head && c.ciHead == c.head && !c.privateReview
            && c.fluxLocal == "success" && c.diffScope == "success", Gate);
    :- Need(0 <= c.ciStartedAt < c.ciFinishedAt <= now, Gate);
    :- Need(|s.candidates| < MAX_CANDIDATES, Gate);
    :- Need(forall i | 0 <= i < |s.candidates| :: s.candidates[i].head != c.head, Conflict);
    :- Need(IsEndpoint(c.endpoint), Reject);
    :- Need(c.endpoint in s.contract.endpoints, Gate);
    :- Need(IsToken(c.pr) && IsToken(c.manager), Reject);
    Ok(s.(candidates := s.candidates + [candidate]))
  }

  predicate OnRoute(c: Candidate, p: Proof) { c.manager == p.manager && c.endpoint == p.endpoint }

  function Eligible(cs: seq<Candidate>, p: Proof): seq<Candidate> {
    if cs == [] then []
    else (if OnRoute(cs[0], p) then [cs[0]] else []) + Eligible(cs[1..], p)
  }

  function ApplySelect(s: State, now: int, c: Command): Result<State, Refusal>
    requires c.SelectCandidate?
  {
    var discovered := AllSucceededBelow(s, 4);
    :- Need(discovered, Gate);
    :- Need(s.branch.None?, Conflict);
    :- Need(DiscoveryProof in s.proof, Reject);
    var proof := s.proof[DiscoveryProof];
    var _ :- ClassifyProof(proof, now, 0);
    :- Need(ProofMatches(s, proof, c.fsid, c.manager, c.endpoint, c.receipt), Gate);
    var eligible := Eligible(s.candidates, proof);
    :- Need(if c.branch == Existing then proof.endpoint in s.contract.covered else |eligible| == 1, Gate);
    Ok(s.(selectedHead := if c.branch == Existing then s.selectedHead else Some(eligible[0].head),
          branch := Some(c.branch), selectedManager := Some(proof.manager), selectedEndpoint := Some(proof.endpoint)))
  }

  function ApplyMerge(s: State, c: Command): Result<State, Refusal>
    requires c.RecordMerge?
  {
    var merge := Merge(c.prHead, c.mergedSha, c.fluxSource, c.fluxApplied);
    :- Need(s.branch == Some(New) && Some(c.prHead) == s.selectedHead, Gate);
    :- Need(IsHex(c.mergedSha, 40), Reject);
    :- Need(c.mergedSha != c.prHead && c.fluxSource == c.mergedSha && c.fluxApplied == c.mergedSha, Gate);
    :- Need(s.merge.None?, Conflict);
    Ok(s.(merge := Some(merge)))
  }

  function ApplyReversal(s: State, c: Command): Result<State, Refusal>
    requires c.RecordReversal?
  {
    var head := c.reversalHead;
    :- Need(s.reversal.None?, Conflict);
    :- Need(IsHex(head, 40), Reject);
    Ok(s.(reversal := Some(head)))
  }

  function ApplyDelivery(s: State, c: Command): Result<State, Refusal>
    requires c.ObserveDelivery?
  {
    var delivery := Delivery(c.deployment, c.grant, c.cnp);
    :- Need(s.branch.Some? && (s.branch.value == New ==> s.merge.Some?), Gate);
    :- Need(Revalidation !in s.slotIntent, Gate);
    Ok(s.(delivery := Some(delivery)))
  }

  function FingerprintOf(c: Command): Fingerprint
    requires c.AdmitSlot?
  {
    Fingerprint(c.slot, c.decision, c.fsid, c.manager, c.endpoint, c.receipt)
  }

  /** The last-moment proof check of a metrics read.  Failing it denies the read but still consumes the slot. */
  function MetricsDeadlines(s: State, now: int, c: Command): Result<Deadlines, Refusal>
    requires c.AdmitSlot? && RevalidationProof in s.proof && s.cleanup.deadline.Some?
  {
    var proof := s.proof[RevalidationProof];
    var deadline :- ClassifyProof(proof, now, METRICS_BUDGET_S);
    :- Need(ProofMatches(s, proof, c.fsid, c.manager, c.endpoint, c.receipt), Gate);
    Ok(Deadlines(deadline, Min(deadline, s.cleanup.deadline.value - s.cleanup.reserved), METRICS_BUDGET_S))
  }

  function Consume(s: State, now: int, c: Command, decision: Decision): State
    requires c.AdmitSlot?
  {
    s.(slotIntent := s.slotIntent[c.slot := c.intentId],
       intents := s.intents[c.intentId := Intent(c.slot, FingerprintOf(c), now, decision == Admit, decision, None)])
  }

  function StageOf(slot: Slot): int { if slot == Metrics then METRICS_BUDGET_S else PVE_BUDGET_S }

  function ApplyAdmit(s: State, call: Call): Result<Accepted, Refusal>
    requires call.command.AdmitSlot?
  {
    var c := call.command;
    var s1 :- AdvanceClock(s, call.now);
    :- Need(IsToken(c.intentId), Reject);
    if c.intentId in s1.intents then
      :- Need(s1.intents[c.intentId].fingerprint == FingerprintOf(c), Conflict);
      Ok(Accepted(s1, Advice(true, false, None)))
    else
      :- Need(c.slot !in s1.slotIntent, Conflict);
      var s2 :- NormalStage(s1, call, StageOf(c.slot));
      :- Need(IsDiscovery(c.slot) ==> s2.candidates != [] || s2.contract.covered != [], Gate);
      :- Need(AllSucceededBelow(s2, Rank(c.slot)), Gate);
      :- Need(!IsDiscovery(c.slot) ==> DeliveryReady(s2), Gate);
      if c.slot == Metrics && c.decision == Admit then
        :- Need(RevalidationProof in s2.proof && s2.cleanup.deadline.Some?, Reject);
        var checked := MetricsDeadlines(s2, call.now, c);
        if checked.Err? then Ok(Accepted(Consume(s2, call.now, c, Denied), NO_ADVICE))
        else Ok(Accepted(Consume(s2, call.now, c, Admit), Advice(false, true, Some(checked.value))))
      else
        Ok(Accepted(Consume(s2, call.now, c, c.decision), Advice(false, c.decision == Admit, None)))
  }

  function CompletionOf(c: Command): Completion
    requires c.RecordOutcome?
  {
    Completion(c.outcome, c.requestAt, c.observedAt, c.receipt, c.body, c.fsid, c.manager, c.endpoint)
  }

  function ProofOf(binding: Binding, r: Completion): Proof
    requires r.requestAt.Some? && r.observedAt.Some? && r.body.Some?
  {
    Proof(binding, r.requestAt.value, r.observedAt.value, r.receipt, r.body.value, r.fsid, r.manager, r.endpoint)
  }

  predicate IntervalAfter(admittedAt: int, r: Completion, now: int) {
    r.requestAt.Some? && r.observedAt.Some? && admittedAt <= r.requestAt.value <= r.observedAt.value <= now
  }

  predicate BodyHashed(r: Completion) { r.body.Some? && IsHex(r.body.value, 64) }

  function WithProof(proof: map<ProofKey, Proof>, slot: Slot, p: Proof): map<ProofKey, Proof> {
    if slot == CephStatus then proof[DiscoveryProof := p]
    else if slot == Revalidation then proof[RevalidationProof := p]
    else proof
  }

  function ApplyOutcome(s: State, now: int, c: Command): Result<Accepted, Refusal>
    requires c.RecordOutcome?
  {
    var details := CompletionOf(c);
    :- Need(c.outcome in OUTCOMES, Reject);
    :- Need(c.intentId in s.intents, Gate);
    var record := s.intents[c.intentId];
    :- Need(record.dispatch && record.decision == Admit, Gate);
    :- Need(IsToken(c.receipt), Reject);
    if record.result.Some? then
      :- Need(record.result.value == details, Conflict);
      Ok(Accepted(s, Advice(true, false, None)))
    else
      var s1 := s.(intents := s.intents[c.intentId := record.(result := Some(details))]);
      if c.outcome != "success" then Ok(Accepted(s1, NO_ADVICE))
      else
        :- Need(IntervalAfter(record.admittedAt, details, now), Gate);
        :- Need(BodyHashed(details), Reject);
        :- Need(record.slot in {CephStatus, Revalidation} ==>
                  IsToken(c.fsid) && IsToken(c.manager) && IsEndpoint(c.endpoint), Reject);
        Ok(Accepted(s1.(proof := WithProof(s.proof, record.slot, ProofOf(s.binding, details))), NO_ADVICE))
  }

  function ApplyBlocker(s: State, now: int, c: Command): Result<State, Refusal>
    requires c.RecordBlocker?
  {
    var number := |s.blockers| + 1;
    :- Need(number <= MAX_BLOCKERS, Reject);
    Ok(s.(blockers := s.blockers + [Blocker(c.kind, Some(BlockerMeta(BlockerId(number), now, None)))],
          owner := if c.kind == LostOwner then s.owner.(lost := true) else s.owner))
  }

  /** The index of the first blocker with this ID; the number of blockers when there is none. */
  function FindBlocker(bs: seq<Blocker>, id: string): (i: nat)
    ensures i <= |bs|
    ensures i < |bs| ==> bs[i].meta.Some? && bs[i].meta.value.id == id
    ensures forall j | 0 <= j < i :: bs[j].meta.None? || bs[j].meta.value.id != id
  {
    if bs == [] then 0
    else if bs[0].meta.Some? && bs[0].meta.value.id == id then 0
    else
      var rest := FindBlocker(bs[1..], id);
      assert forall j | 1 <= j < rest + 1 :: bs[j] == bs[1..][j - 1];
      rest + 1
  }

  predicate NothingSpoiled(s: State) {
    && Metrics !in s.slotIntent
    && forall id | id in s.intents ::
         s.intents[id].dispatch && s.intents[id].decision == Admit
         && s.intents[id].result.Some? && s.intents[id].result.value.outcome == "success"
  }

  function ApplyResolve(s: State, call: Call): Result<State, Refusal>
    requires call.command.ResolveBlocker?
  {
    var c := call.command;
    :- Need(OwnerObserved(s.owner), Gate);
    var s1 :- AdvanceClock(s, call.now);
    var next := if Revalidation in s1.slotIntent then METRICS_BUDGET_S else PVE_BUDGET_S;
    :- Need(ReserveHolds(s1.cleanup, call.now, Max(next, call.stageBudget)), Gate);
    :- Need(IsToken(c.blockerId), Reject);
    var i := FindBlocker(s1.blockers, c.blockerId);
    :- Need(i < |s1.blockers| && s1.blockers[i].kind == Recoverable
        && s1.blockers[i].meta.value.resolution.None?, Gate);
    :- Need(forall j | 0 <= j < |s1.blockers| :: s1.blockers[j].kind == Recoverable, Gate);
    :- Need(NothingSpoiled(s1), Gate);
    var meta := s1.blockers[i].meta.value;
    :- Need(meta.recordedAt <= c.verifiedAt <= call.now, Gate);
    :- Need(IsToken(c.reason) && IsToken(c.prerequisite), Reject);
    var resolution := Resolution(c.reason, c.prerequisite, c.verifiedAt, call.now, s1.binding);
    Ok(s1.(blockers := s1.blockers[i := s1.blockers[i].(meta := Some(meta.(resolution := Some(resolution))))],
           cleanup := s1.cleanup.(evaluation := None)))
  }

  /** The index of the first grant with this UID; the number of grants when there is none. */
  function FindGrant(gs: seq<Grant>, uid: string): (i: nat)
    ensures i <= |gs|
    ensures i < |gs| ==> gs[i].uid == uid
    ensures forall j | 0 <= j < i :: gs[j].uid != uid
  {
    if gs == [] then 0
    else if gs[0].uid == uid then 0
    else
      var rest := FindGrant(gs[1..], uid);
      assert forall j | 1 <= j < rest + 1 :: gs[j] == gs[1..][j - 1];
      rest + 1
  }

  function GrantOf(c: Command, now: int): Grant
    requires c.RecordResidual?
  {
    Grant(c.uid, c.ownerClass, c.expiresAt, c.active, c.cnpState, c.cnpUid, c.reason, c.receipt, now)
  }

  function ApplyResidual(s: State, now: int, c: Command): Result<State, Refusal>
    requires c.RecordResidual?
  {
    var grants := s.cleanup.grants;
    :- Need(IsToken(c.uid) && IsToken(c.receipt) && IsToken(c.cnpUid), Reject);
    var i := FindGrant(grants, c.uid);
    :- Need(i < |grants| ==> grants[i].ownerClass == c.ownerClass && grants[i].expiresAt == c.expiresAt
                             && grants[i].cnpUid == c.cnpUid, Conflict);
    :- Need(!c.active ==> c.reason in {"natural-expiry", "released"} && c.cnpState == Absent, Gate);
    :- Need(!c.active && c.ownerClass == Other ==> c.reason == "natural-expiry", Reject);
    :- Need(!c.active && c.reason == "natural-expiry" ==> c.expiresAt <= now, Gate);
    :- Need(i < |grants| || |grants| < MAX_GRANTS, Reject);
    var updated := if i < |grants| then grants[i := GrantOf(c, now)] else grants + [GrantOf(c, now)];
    Ok(s.(cleanup := s.cleanup.(grants := updated, evaluation := None)))
  }

  function RowUids(rows: seq<AuditRow>): set<string> { set i | 0 <= i < |rows| :: rows[i].uid }

  function GrantUids(gs: seq<Grant>): set<string> { set i | 0 <= i < |gs| :: gs[i].uid }

  predicate DistinctRows(rows: seq<AuditRow>) {
    forall i, j | 0 <= i < j < |rows| :: rows[i].uid != rows[j].uid
  }

  predicate DistinctCnps(cnps: seq<AuditCnp>) {
    forall i, j | 0 <= i < j < |cnps| :: cnps[i].uid != cnps[j].uid
  }

  predicate SameReference(row: AuditRow, g: Grant) {
    && row.uid == g.uid && row.ownerClass == g.ownerClass && row.expiresAt == g.expiresAt && row.cnpUid == g.cnpUid
  }

  predicate SameObservation(row: AuditRow, g: Grant) {
    row.active == g.active && row.cnpPresent == (g.cnp == Present)
  }

  predicate RowsDescribe(rows: seq<AuditRow>, gs: seq<Grant>) {
    forall i, j | 0 <= i < |rows| && 0 <= j < |gs| && rows[i].uid == gs[j].uid ::
      SameReference(rows[i], gs[j]) && SameObservation(rows[i], gs[j])
  }

  predicate CnpDescribes(cnps: seq<AuditCnp>, row: AuditRow) {
    exists j | 0 <= j < |cnps| :: cnps[j].uid == row.cnpUid && cnps[j].present == row.cnpPresent
  }

  predicate CnpsDescribe(cnps: seq<AuditCnp>, rows: seq<AuditRow>) {
    forall i | 0 <= i < |rows| :: CnpDescribes(cnps, rows[i])
  }

  predicate AuditClean(a: Audit) {
    && a.complete && !a.policyPresent
    && (forall j | 0 <= j < |a.cnps| :: !a.cnps[j].present)
    && (forall i | 0 <= i < |a.grants| :: !a.grants[i].active && !a.grants[i].cnpPresent)
  }

  function ApplyEvaluate(s: State, now: int, c: Command): Result<State, Refusal>
    requires c.EvaluateClean?
  {
    var a := c.audit;
    :- Need(a.binding == s.binding, Gate);
    :- Need(IsToken(a.receipt), Reject);
    :- Need(s.lastNow <= a.observedAt <= now, Gate);
    :- Need(IsToken(a.policyRef), Reject);
    :- Need(|a.grants| <= MAX_GRANTS, Reject);
    :- Need(forall i | 0 <= i < |a.grants| :: IsToken(a.grants[i].uid) && IsToken(a.grants[i].cnpUid), Reject);
    :- Need(DistinctRows(a.grants) && RowUids(a.grants) == GrantUids(s.cleanup.grants), Gate);
    :- Need(RowsDescribe(a.grants, s.cleanup.grants), Gate);
    :- Need(|a.cnps| <= MAX_GRANTS && forall j | 0 <= j < |a.cnps| :: IsToken(a.cnps[j].uid), Reject);
    :- Need(DistinctCnps(a.cnps), Reject);
    :- Need(CnpsDescribe(a.cnps, a.grants), Gate);
    AdvanceClock(s.(cleanup := s.cleanup.(evaluation := Some(Evaluation(AuditClean(a), a)))), now)
  }

  // ---- The command dispatcher and the revision check ----

  predicate KeepsClockOnly(c: Command) {
    c.ReserveCleanup? || c.RecordOutcome? || c.RecordBlocker? || c.RecordResidual?
  }

  predicate StagesItself(c: Command) { c.AdmitSlot? || c.EvaluateClean? || c.ResolveBlocker? }

  function Staged(s: State, call: Call): Result<State, Refusal> {
    if KeepsClockOnly(call.command) then AdvanceClock(s, call.now)
    else if StagesItself(call.command) then Ok(s)
    else NormalStage(s, call, 1)
  }

  function Quiet(r: Result<State, Refusal>): Result<Accepted, Refusal> {
    var s :- r;
    Ok(Accepted(s, NO_ADVICE))
  }

  predicate IsRouteCommand(c: Command) {
    c.PrepareCandidate? || c.SelectCandidate? || c.RecordMerge? || c.RecordReversal? || c.ObserveDelivery?
  }

  function ExecuteRoute(s: State, now: int, c: Command): Result<State, Refusal>
    requires IsRouteCommand(c)
  {
    if c.PrepareCandidate? then ApplyPrepare(s, now, c)
    else if c.SelectCandidate? then ApplySelect(s, now, c)
    else if c.RecordMerge? then ApplyMerge(s, c)
    else if c.RecordReversal? then ApplyReversal(s, c)
    else ApplyDelivery(s, c)
  }

  predicate IsCleanupCommand(c: Command) {
    c.ReserveCleanup? || c.RecordBlocker? || c.ResolveBlocker? || c.RecordResidual? || c.EvaluateClean?
  }

  function ExecuteCleanup(s: State, call: Call): Result<State, Refusal>
    requires IsCleanupCommand(call.command)
  {
    var c := call.command;
    if c.ReserveCleanup? then ApplyReserve(s, call.now, c)
    else if c.RecordBlocker? then ApplyBlocker(s, call.now, c)
    else if c.ResolveBlocker? then ApplyResolve(s, call)
    else if c.RecordResidual? then ApplyResidual(s, call.now, c)
    else ApplyEvaluate(s, call.now, c)
  }

  /** Closing the operation, authorising a successor and publishing are always rejected. */
  function Execute(s: State, call: Call): Result<Accepted, Refusal> {
    var c := call.command;
    if c.AdmitSlot? then ApplyAdmit(s, call)
    else if c.RecordOutcome? then ApplyOutcome(s, call.now, c)
    else if IsRouteCommand(c) then Quiet(ExecuteRoute(s, call.now, c))
    else if IsCleanupCommand(c) then Quiet(ExecuteCleanup(s, call))
    else Err(Reject)
  }

  function Apply(s: State, call: Call): Result<Accepted, Refusal> {
    var s1 :- Staged(s, call);
    Execute(s1, call)
  }

  predicate KeepsProofs(old_: State, new_: State) {
    forall k | k in old_.proof :: k in new_.proof && new_.proof[k] == old_.proof[k]
  }

  /** One call on a stored ledger.  `size` is the length of a ledger's canonical encoding. */
  function Cas(size: State -> nat, s: State, call: Call): Result<Accepted, Refusal> {
    var bounded := size(s) <= MAX_LEDGER_BYTES;
    :- Need(call.now >= 0 && call.stageBudget > 0, Reject);
    :- Need(bounded && Loads(s), Reject);
    :- Need(IsBinding(call.caller) && call.caller == s.binding, Reject);
    :- Need(s.revision == call.expectRevision, Conflict);
    Store(size, s, Apply(s, call))
  }

  /** What is written of a command's answer: its ledger, one revision later, when that still fits. */
  function Store(size: State -> nat, s: State, r: Result<Accepted, Refusal>): Result<Accepted, Refusal> {
    var accepted :- r;
    :- Need(KeepsProofs(s, accepted.state), Reject);
    var draft := accepted.state.(revision := accepted.state.revision + 1);
    :- Need(size(draft) <= MAX_LEDGER_BYTES, Reject);
    Ok(Accepted(draft, accepted.advice))
  }

  datatype InitCall = InitCall(caller: Binding, now: int, stageBudget: int, ownerKind: OwnerKind, observed: bool,
                               ready: bool, live: bool, fsid: string, endpoints: seq<string>, covered: seq<string>,
                               plannedRevalidation: bool)

  /** What initialisation asks of its caller before it looks at the ledger's place. */
  predicate MayInitialise(c: InitCall) {
    && c.now >= 0 && c.stageBudget > 0
    && c.ownerKind == Persistent && c.observed && c.ready && c.live
    && c.plannedRevalidation
    && AllEndpoints(c.endpoints) && AllEndpoints(c.covered)
    && 1 <= |c.endpoints| <= 4 && Distinct(c.endpoints)
    && Distinct(c.covered) && (forall e | e in c.covered :: e in c.endpoints)
    && IsBinding(c.caller) && IsToken(c.fsid)
  }

  function Initial(size: State -> nat, c: InitCall): Result<State, Refusal> {
    var first := Fresh(c);
    :- Need(MayInitialise(c), Reject);
    :- Need(size(first) <= MAX_LEDGER_BYTES, Reject);
    Ok(first)
  }

  function Fresh(c: InitCall): State {
    State(1, c.now, c.caller, Owner(Persistent, true, true, false), Contract(c.fsid, c.endpoints, c.covered),
          Cleanup(0, None, None, [], None), [], None, None, None, None, None, None, None, map[], map[], map[], [])
  }
}
