/** The program itself: a draft of the ledger edited in place, and the stored file it may replace.
    Every method is proved against the function of LedgerModel that specifies it. */
module LedgerProgram {
  import opened Common
  import opened LedgerModel
  import opened LedgerInvariant
  import T = LedgerTheorems

  type Step = Result<(), Refusal>

  /** The method's answer and the draft it leaves are those of the specification; a refused draft is thrown away. */
  ghost predicate Agrees(r: Step, draft: State, spec: Result<State, Refusal>) {
    if spec.Ok? then r.Ok? && draft == spec.value else r == Err(spec.error)
  }

  ghost predicate AgreesWithAdvice(r: Result<Advice, Refusal>, draft: State, spec: Result<Accepted, Refusal>) {
    if spec.Ok? then r == Ok(spec.value.advice) && draft == spec.value.state else r == Err(spec.error)
  }

  class Draft {
    var revision: int
    var lastNow: int
    const binding: Binding
    var owner: Owner
    const contract: Contract
    var cleanup: Cleanup
    var candidates: seq<Candidate>
    var selectedHead: Option<string>
    var selectedManager: Option<string>
    var selectedEndpoint: Option<string>
    var branch: Option<Branch>
    var merge: Option<Merge>
    var delivery: Option<Delivery>
    var reversal: Option<string>
    var proof: map<ProofKey, Proof>
    var intents: map<string, Intent>
    var slotIntent: map<Slot, string>
    var blockers: seq<Blocker>

    function Contents(): State
      reads this
    {
      State(revision, lastNow, binding, owner, contract, cleanup, candidates, selectedHead, selectedManager,
            selectedEndpoint, branch, merge, delivery, reversal, proof, intents, slotIntent, blockers)
    }

    constructor (s: State)
      ensures Contents() == s
    {
      revision, lastNow, binding, owner, contract := s.revision, s.lastNow, s.binding, s.owner, s.contract;
      cleanup, candidates, selectedHead, selectedManager := s.cleanup, s.candidates, s.selectedHead, s.selectedManager;
      selectedEndpoint, branch, merge, delivery := s.selectedEndpoint, s.branch, s.merge, s.delivery;
      reversal, proof, intents, slotIntent, blockers := s.reversal, s.proof, s.intents, s.slotIntent, s.blockers;
    }

    method Tick(now: int) returns (r: Step)
      modifies this`lastNow
      ensures Agrees(r, Contents(), AdvanceClock(old(Contents()), now))
    {
      if now < lastNow { return Err(Gate); }
      lastNow := now;
      return Ok(());
    }

    method Stage(call: Call, stage: int) returns (r: Step)
      modifies this`lastNow, this`cleanup
      ensures Agrees(r, Contents(), NormalStage(old(Contents()), call, stage))
    {
      if !OwnerAvailable(Contents()) { return Err(Gate); }
      var _ :- Tick(call.now);
      if !ReserveHolds(cleanup, call.now, Max(stage, call.stageBudget)) { return Err(Gate); }
      cleanup := cleanup.(evaluation := None);
      return Ok(());
    }

    method Reserve(now: int, c: Command) returns (r: Step)
      requires c.ReserveCleanup?
      modifies this`cleanup
      ensures Agrees(r, Contents(), ApplyReserve(old(Contents()), now, c))
    {
      if c.seconds <= 0 || c.deadline <= now + c.seconds { return Err(Reject); }
      if c.ciEstimate.Some? && c.ciEstimate.value < 0 { return Err(Reject); }
      cleanup := cleanup.(reserved := c.seconds, deadline := Some(c.deadline), ciEstimate := c.ciEstimate);
      return Ok(());
    }

    method Prepare(now: int, c: Command) returns (r: Step)
      requires c.PrepareCandidate?
      modifies this`candidates
      ensures Agrees(r, Contents(), ApplyPrepare(old(Contents()), now, c))
    {
      if slotIntent != map[] || branch.Some? { return Err(Gate); }
      if !IsHex(c.head, 40) { return Err(Reject); }
      if c.reviewedHead != c.head || c.ciHead != c.head || c.privateReview
         || c.fluxLocal != "success" || c.diffScope != "success" { return Err(Gate); }
      if !(0 <= c.ciStartedAt < c.ciFinishedAt <= now) { return Err(Gate); }
      if |candidates| >= MAX_CANDIDATES { return Err(Gate); }
      for i := 0 to |candidates|
        invariant forall j | 0 <= j < i :: candidates[j].head != c.head
      {
        if candidates[i].head == c.head { return Err(Conflict); }
      }
      if !IsEndpoint(c.endpoint) { return Err(Reject); }
      if c.endpoint !in contract.endpoints { return Err(Gate); }
      if !IsToken(c.pr) || !IsToken(c.manager) { return Err(Reject); }
      candidates := candidates + [CandidateOf(c)];
      return Ok(());
    }

    method Select(now: int, c: Command) returns (r: Step)
      requires c.SelectCandidate?
      modifies this`selectedHead, this`selectedManager, this`selectedEndpoint, this`branch
      ensures Agrees(r, Contents(), ApplySelect(old(Contents()), now, c))
    {
      hide AllSucceededBelow, Eligible, ProofMatches, ClassifyProof;
      if !AllSucceededBelow(Contents(), 4) { return Err(Gate); }
      if branch.Some? { return Err(Conflict); }
      if DiscoveryProof !in proof { return Err(Reject); }
      var found := proof[DiscoveryProof];
      var _ :- ClassifyProof(found, now, 0);
      if !ProofMatches(Contents(), found, c.fsid, c.manager, c.endpoint, c.receipt) { return Err(Gate); }
      if c.branch == Existing {
        if found.endpoint !in contract.covered { return Err(Gate); }
      } else {
        var eligible := Eligible(candidates, found);
        if |eligible| != 1 { return Err(Gate); }
        selectedHead := Some(eligible[0].head);
      }
      branch, selectedManager, selectedEndpoint := Some(c.branch), Some(found.manager), Some(found.endpoint);
      return Ok(());
    }

    method RecordMerge(c: Command) returns (r: Step)
      requires c.RecordMerge?
      modifies this`merge
      ensures Agrees(r, Contents(), ApplyMerge(old(Contents()), c))
    {
      if branch != Some(New) || Some(c.prHead) != selectedHead { return Err(Gate); }
      if !IsHex(c.mergedSha, 40) { return Err(Reject); }
      if c.mergedSha == c.prHead { return Err(Gate); }
      if c.fluxSource != c.mergedSha || c.fluxApplied != c.mergedSha { return Err(Gate); }
      if merge.Some? { return Err(Conflict); }
      merge := Some(Merge(c.prHead, c.mergedSha, c.fluxSource, c.fluxApplied));
      return Ok(());
    }

    method RecordReversal(c: Command) returns (r: Step)
      requires c.RecordReversal?
      modifies this`reversal
      ensures Agrees(r, Contents(), ApplyReversal(old(Contents()), c))
    {
      if reversal.Some? { return Err(Conflict); }
      if !IsHex(c.reversalHead, 40) { return Err(Reject); }
      reversal := Some(c.reversalHead);
      return Ok(());
    }

    method ObserveDelivery(c: Command) returns (r: Step)
      requires c.ObserveDelivery?
      modifies this`delivery
      ensures Agrees(r, Contents(), ApplyDelivery(old(Contents()), c))
    {
      if branch.None? || (branch.value == New && merge.None?) { return Err(Gate); }
      if Revalidation in slotIntent { return Err(Gate); }
      delivery := Some(Delivery(c.deployment, c.grant, c.cnp));
      return Ok(());
    }

    method AdmitRead(call: Call) returns (r: Result<Advice, Refusal>)
      requires call.command.AdmitSlot?
      modifies this`lastNow, this`cleanup, this`intents, this`slotIntent
      ensures AgreesWithAdvice(r, Contents(), ApplyAdmit(old(Contents()), call))
    {
      hide IsToken, AllSucceededBelow, DeliveryReady, OwnerAvailable, ReserveHolds, MetricsDeadlines;
      var c := call.command;
      var _ :- Tick(call.now);
      if !IsToken(c.intentId) { return Err(Reject); }
      if c.intentId in intents {
        if intents[c.intentId].fingerprint != FingerprintOf(c) { return Err(Conflict); }
        return Ok(Advice(true, false, None));
      }
      if c.slot in slotIntent { return Err(Conflict); }
      var _ :- Stage(call, StageOf(c.slot));
      if IsDiscovery(c.slot) {
        if candidates == [] && contract.covered == [] { return Err(Gate); }
        if !AllSucceededBelow(Contents(), Rank(c.slot)) { return Err(Gate); }
      } else {
        if !AllSucceededBelow(Contents(), Rank(c.slot)) { return Err(Gate); }
        if !DeliveryReady(Contents()) { return Err(Gate); }
      }
      var decision := c.decision;
      var deadlines: Option<Deadlines> := None;
      if decision == Admit && c.slot == Metrics {
        if RevalidationProof !in proof || cleanup.deadline.None? { return Err(Reject); }
        var checked := MetricsDeadlines(Contents(), call.now, c);
        if checked.Ok? { deadlines := Some(checked.value); } else { decision := Denied; }
      }
      slotIntent := slotIntent[c.slot := c.intentId];
      intents := intents[c.intentId := Intent(c.slot, FingerprintOf(c), call.now, decision == Admit, decision, None)];
      return Ok(Advice(false, decision == Admit, deadlines));
    }

    method RecordOutcome(now: int, c: Command) returns (r: Result<Advice, Refusal>)
      requires c.RecordOutcome?
      modifies this`intents, this`proof
      ensures AgreesWithAdvice(r, Contents(), ApplyOutcome(old(Contents()), now, c))
    {
      if c.outcome !in OUTCOMES { return Err(Reject); }
      if c.intentId !in intents { return Err(Gate); }
      var record := intents[c.intentId];
      if !record.dispatch || record.decision != Admit { return Err(Gate); }
      if !IsToken(c.receipt) { return Err(Reject); }
      var details := CompletionOf(c);
      if record.result.Some? {
        if record.result.value != details { return Err(Conflict); }
        return Ok(Advice(true, false, None));
      }
      if c.outcome == "success" {
        if !IntervalAfter(record.admittedAt, details, now) { return Err(Gate); }
        if !BodyHashed(details) { return Err(Reject); }
        if record.slot == CephStatus || record.slot == Revalidation {
          if !IsToken(c.fsid) || !IsToken(c.manager) || !IsEndpoint(c.endpoint) { return Err(Reject); }
          var key := if record.slot == CephStatus then DiscoveryProof else RevalidationProof;
          proof := proof[key := ProofOf(binding, details)];
        }
      }
      intents := intents[c.intentId := record.(result := Some(details))];
      return Ok(NO_ADVICE);
    }

    method RecordBlocker(now: int, c: Command) returns (r: Step)
      requires c.RecordBlocker?
      modifies this`blockers, this`owner
      ensures Agrees(r, Contents(), ApplyBlocker(old(Contents()), now, c))
    {
      if |blockers| >= MAX_BLOCKERS { return Err(Reject); }
      blockers := blockers + [Blocker(c.kind, Some(BlockerMeta(BlockerId(|blockers| + 1), now, None)))];
      if c.kind == LostOwner { owner := owner.(lost := true); }
      return Ok(());
    }

    method Resolve(call: Call) returns (r: Step)
      requires call.command.ResolveBlocker?
      modifies this`lastNow, this`blockers, this`cleanup
      ensures Agrees(r, Contents(), ApplyResolve(old(Contents()), call))
    {
      var c := call.command;
      if !OwnerObserved(owner) { return Err(Gate); }
      var _ :- Tick(call.now);
      var next := if Revalidation in slotIntent then METRICS_BUDGET_S else PVE_BUDGET_S;
      if !ReserveHolds(cleanup, call.now, Max(next, call.stageBudget)) { return Err(Gate); }
      if !IsToken(c.blockerId) { return Err(Reject); }
      var i := FindBlocker(blockers, c.blockerId);
      if i == |blockers| || blockers[i].kind != Recoverable || blockers[i].meta.value.resolution.Some? {
        return Err(Gate);
      }
      if exists j | 0 <= j < |blockers| :: blockers[j].kind != Recoverable { return Err(Gate); }
      if !NothingSpoiled(Contents()) { return Err(Gate); }
      var meta := blockers[i].meta.value;
      if !(meta.recordedAt <= c.verifiedAt <= call.now) { return Err(Gate); }
      if !IsToken(c.reason) || !IsToken(c.prerequisite) { return Err(Reject); }
      var resolution := Resolution(c.reason, c.prerequisite, c.verifiedAt, call.now, binding);
      blockers := blockers[i := blockers[i].(meta := Some(meta.(resolution := Some(resolution))))];
      cleanup := cleanup.(evaluation := None);
      return Ok(());
    }

    method Residual(now: int, c: Command) returns (r: Step)
      requires c.RecordResidual?
      modifies this`cleanup
      ensures Agrees(r, Contents(), ApplyResidual(old(Contents()), now, c))
    {
      if !IsToken(c.uid) || !IsToken(c.receipt) || !IsToken(c.cnpUid) { return Err(Reject); }
      var grants := cleanup.grants;
      var i := FindGrant(grants, c.uid);
      if i < |grants| && (grants[i].ownerClass != c.ownerClass || grants[i].expiresAt != c.expiresAt
                          || grants[i].cnpUid != c.cnpUid) { return Err(Conflict); }
      if !c.active {
        if c.reason !in {"natural-expiry", "released"} || c.cnpState != Absent { return Err(Gate); }
        if c.ownerClass == Other && c.reason != "natural-expiry" { return Err(Reject); }
        if c.reason == "natural-expiry" && c.expiresAt > now { return Err(Gate); }
      }
      if i < |grants| {
        grants := grants[i := GrantOf(c, now)];
      } else if |grants| < MAX_GRANTS {
        grants := grants + [GrantOf(c, now)];
      } else {
        return Err(Reject);
      }
      cleanup := cleanup.(grants := grants, evaluation := None);
      return Ok(());
    }

    method Evaluate(now: int, c: Command) returns (r: Step)
      requires c.EvaluateClean?
      modifies this`lastNow, this`cleanup
      ensures Agrees(r, Contents(), ApplyEvaluate(old(Contents()), now, c))
    {
      var a := c.audit;
      if a.binding != binding { return Err(Gate); }
      if !IsToken(a.receipt) { return Err(Reject); }
      if !(lastNow <= a.observedAt <= now) { return Err(Gate); }
      if !IsToken(a.policyRef) { return Err(Reject); }
      if |a.grants| > MAX_GRANTS { return Err(Reject); }
      if exists i | 0 <= i < |a.grants| :: !IsToken(a.grants[i].uid) || !IsToken(a.grants[i].cnpUid) {
        return Err(Reject);
      }
      if !DistinctRows(a.grants) || RowUids(a.grants) != GrantUids(cleanup.grants) { return Err(Gate); }
      if !RowsDescribe(a.grants, cleanup.grants) { return Err(Gate); }
      if |a.cnps| > MAX_GRANTS || exists j | 0 <= j < |a.cnps| :: !IsToken(a.cnps[j].uid) { return Err(Reject); }
      if !DistinctCnps(a.cnps) { return Err(Reject); }
      if !CnpsDescribe(a.cnps, a.grants) { return Err(Gate); }
      cleanup := cleanup.(evaluation := Some(Evaluation(AuditClean(a), a)));
      r := Tick(now);
    }

    method MutateRoute(now: int, c: Command) returns (r: Step)
      requires IsRouteCommand(c)
      modifies this
      ensures Agrees(r, Contents(), ExecuteRoute(old(Contents()), now, c))
    {
      match c
      case PrepareCandidate(_, _, _, _, _, _, _, _, _, _, _) => r := Prepare(now, c);
      case SelectCandidate(_, _, _, _, _) => r := Select(now, c);
      case RecordMerge(_, _, _, _) => r := RecordMerge(c);
      case RecordReversal(_) => r := RecordReversal(c);
      case ObserveDelivery(_, _, _) => r := ObserveDelivery(c);
    }

    method MutateCleanup(call: Call) returns (r: Step)
      requires IsCleanupCommand(call.command)
      modifies this
      ensures Agrees(r, Contents(), ExecuteCleanup(old(Contents()), call))
    {
      match call.command
      case ReserveCleanup(_, _, _) => r := Reserve(call.now, call.command);
      case RecordBlocker(_) => r := RecordBlocker(call.now, call.command);
      case ResolveBlocker(_, _, _, _) => r := Resolve(call);
      case RecordResidual(_, _, _, _, _, _, _, _) => r := Residual(call.now, call.command);
      case EvaluateClean(_) => r := Evaluate(call.now, call.command);
    }

    /** Cleanup, blocker and outcome records stay writable after owner loss or plan expiry. */
    method Mutate(call: Call) returns (r: Result<Advice, Refusal>)
      modifies this
      ensures AgreesWithAdvice(r, Contents(), Apply(old(Contents()), call))
    {
      hide NormalStage, ExecuteRoute, ExecuteCleanup, ApplyAdmit, ApplyOutcome;
      var c := call.command;
      if KeepsClockOnly(c) {
        var _ :- Tick(call.now);
      } else if !StagesItself(c) {
        var _ :- Stage(call, 1);
      }
      if c.AdmitSlot? {
        r := AdmitRead(call);
      } else if c.RecordOutcome? {
        r := RecordOutcome(call.now, c);
      } else if IsRouteCommand(c) {
        var _ :- MutateRoute(call.now, c);
        r := Ok(NO_ADVICE);
      } else if IsCleanupCommand(c) {
        var _ :- MutateCleanup(call);
        r := Ok(NO_ADVICE);
      } else {
        r := Err(Reject);
      }
    }
  }

  /** What a successful call reports: the new revision, the slots used so far, and the advice. */
  datatype Report = Report(revision: int, consumed: nat, advice: Advice)

  function ReportOf(a: Accepted): Report { Report(a.state.revision, T.ConsumedCount(a.state), a.advice) }

  class LedgerFile {
    const size: State -> nat
    var stored: Option<State>

    ghost predicate Valid()
      reads this
    {
      stored.Some? ==> Inv(stored.value) && size(stored.value) <= MAX_LEDGER_BYTES
    }

    constructor (size: State -> nat)
      ensures Valid() && stored.None? && this.size == size
    {
      this.size := size;
      stored := None;
    }

    /** `busy` says that another process holds the ledger lock. */
    method Init(c: InitCall, busy: bool) returns (r: Result<int, Refusal>)
      requires Valid()
      modifies this`stored
      ensures Valid()
      ensures r == if !MayInitialise(c) then Err(Reject)
                   else if busy || old(stored).Some? then Err(Conflict)
                   else if size(Fresh(c)) > MAX_LEDGER_BYTES then Err(Reject)
                   else Ok(1)
      ensures stored == if r.Ok? then Some(Fresh(c)) else old(stored)
    {
      if !MayInitialise(c) { return Err(Reject); }
      if busy || stored.Some? { return Err(Conflict); }
      if size(Fresh(c)) > MAX_LEDGER_BYTES { return Err(Reject); }
      T.InitialHolds(size, c);
      hide Inv, MayInitialise;
      stored := Some(Fresh(c));
      return Ok(1);
    }

    method Cas(call: Call, busy: bool) returns (r: Result<Report, Refusal>)
      requires Valid()
      modifies this`stored
      ensures Valid()
      ensures busy || old(stored).None? ==>
                && stored == old(stored)
                && r == Err(if busy && call.now >= 0 && call.stageBudget > 0 then Conflict else Reject)
      ensures !busy && old(stored).Some? ==>
                match LedgerModel.Cas(size, old(stored).value, call)
                case Ok(a) => stored == Some(a.state) && r == Ok(ReportOf(a))
                case Err(e) => stored == old(stored) && r == Err(e)
    {
      hide Inv, Loads, IsBinding, Apply, KeepsProofs, Later, T.ConsumedCount;
      if call.now < 0 || call.stageBudget <= 0 { return Err(Reject); }
      if busy { return Err(Conflict); }
      if stored.None? { return Err(Reject); }
      var state := stored.value;
      if size(state) > MAX_LEDGER_BYTES || !Loads(state) { return Err(Reject); }
      if !IsBinding(call.caller) || call.caller != state.binding { return Err(Reject); }
      if state.revision != call.expectRevision { return Err(Conflict); }
      var draft := new Draft(state);
      var advice :- draft.Mutate(call);
      if !KeepsProofs(state, draft.Contents()) { return Err(Reject); }
      draft.revision := draft.revision + 1;
      if size(draft.Contents()) > MAX_LEDGER_BYTES { return Err(Reject); }
      stored := Some(draft.Contents());
      T.CasKeeps(size, state, call);
      return Ok(Report(draft.revision, T.ConsumedCount(draft.Contents()), advice));
    }
  }
}
