/** The class of every refusal, check by check in the order of the program: conflict, gate or reject. */
module LedgerRefusals {
  import opened Common
  import opened LedgerModel
  import opened LedgerEffects
  import opened LedgerReadEffects
  import opened LedgerGates

  /** A well-called command that is refused for this reason is refused so by the whole call. */
  lemma RefusedFor(size: State -> nat, s: State, call: Call, why: Refusal)
    requires Called(size, s, call) && Apply(s, call) == Err(why)
    ensures Cas(size, s, call) == Err(why)
  {
    hide Apply, Loads, IsBinding;
  }

  /** Only a ledger that is too long, or a proof that would change, refuses a command that went through. */
  lemma NotStoredIsRejected(size: State -> nat, s: State, call: Call)
    requires Called(size, s, call) && Apply(s, call).Ok? && Cas(size, s, call).Err?
    ensures Cas(size, s, call) == Err(Reject)
  {
    hide Apply, Loads, IsBinding;
  }

  /** A route command is refused by the stage first and by its own checks then. */
  lemma RouteRefused(size: State -> nat, s: State, call: Call, why: Refusal)
    requires Called(size, s, call) && IsRouteCommand(call.command)
    requires !MayStage(s, call, 1) ==> why == Gate
    requires var open := s.(lastNow := call.now, cleanup := s.cleanup.(evaluation := None));
             MayStage(s, call, 1) ==> ExecuteRoute(open, call.now, call.command) == Err(why)
    ensures Cas(size, s, call) == Err(why)
  {
    StagesExactly(s, call, 1);
    if !MayStage(s, call, 1) { StageFails(s, call, 1); }
    hide NormalStage, MayStage, ExecuteRoute, Called;
    RefusedFor(size, s, call, why);
  }

  lemma ReserveRefused(size: State -> nat, s: State, call: Call)
    requires Called(size, s, call) && call.command.ReserveCleanup?
    ensures call.now < s.lastNow ==> Cas(size, s, call) == Err(Gate)
    ensures s.lastNow <= call.now && Cas(size, s, call).Err? ==> Cas(size, s, call) == Err(Reject)
  {
    hide Loads, IsBinding, KeepsProofs;
  }

  function PrepareRefusal(s: State, call: Call): Option<Refusal>
    requires call.command.PrepareCandidate?
  {
    var c := call.command;
    if !MayStage(s, call, 1) || s.slotIntent != map[] || s.branch.Some? then Some(Gate)
    else if !IsHex(c.head, 40) then Some(Reject)
    else if c.reviewedHead != c.head || c.ciHead != c.head || c.privateReview || c.fluxLocal != "success"
            || c.diffScope != "success" then Some(Gate)
    else if c.ciStartedAt < 0 || c.ciFinishedAt <= c.ciStartedAt || call.now < c.ciFinishedAt then Some(Gate)
    else if |s.candidates| >= 3 then Some(Gate)
    else if exists i | 0 <= i < |s.candidates| :: s.candidates[i].head == c.head then Some(Conflict)
    else if !IsEndpoint(c.endpoint) then Some(Reject)
    else if c.endpoint !in s.contract.endpoints then Some(Gate)
    else if !IsToken(c.pr) || !IsToken(c.manager) then Some(Reject)
    else None
  }

  lemma PrepareRefused(size: State -> nat, s: State, call: Call)
    requires Called(size, s, call) && call.command.PrepareCandidate? && PrepareRefusal(s, call).Some?
    ensures Cas(size, s, call) == Err(PrepareRefusal(s, call).value)
  {
    hide Called, MayStage, IsEndpoint, IsToken, IsHex;
    RouteRefused(size, s, call, PrepareRefusal(s, call).value);
  }

  function SelectRefusal(s: State, call: Call): Option<Refusal>
    requires call.command.SelectCandidate?
  {
    var c := call.command;
    if !MayStage(s, call, 1) || !AllDone(s, [Version, Permissions, CephStatus, CephPool]) then Some(Gate)
    else if s.branch.Some? then Some(Conflict)
    else if DiscoveryProof !in s.proof then Some(Reject)
    else if !Quoted(s, call.now, 0, s.proof[DiscoveryProof], c.fsid, c.manager, c.endpoint, c.receipt) then Some(Gate)
    else if c.branch == Existing && s.proof[DiscoveryProof].endpoint !in s.contract.covered then Some(Gate)
    else if c.branch == New && |Eligible(s.candidates, s.proof[DiscoveryProof])| != 1 then Some(Gate)
    else None
  }

  lemma SelectRefused(size: State -> nat, s: State, call: Call)
    requires Called(size, s, call) && call.command.SelectCandidate? && SelectRefusal(s, call).Some?
    ensures Cas(size, s, call) == Err(SelectRefusal(s, call).value)
  {
    hide Called, MayStage, AllDone, Quoted, ApplySelect, Eligible, SelectRefusal;
    if MayStage(s, call, 1) { SelectFails(s, call); } else { StagelessSelect(s, call); }
    RouteRefused(size, s, call, SelectRefusal(s, call).value);
  }

  lemma StagelessSelect(s: State, call: Call)
    requires call.command.SelectCandidate? && !MayStage(s, call, 1)
    ensures SelectRefusal(s, call) == Some(Gate)
  {
    hide MayStage, AllDone, Quoted, Eligible;
  }

  lemma SelectFails(s: State, call: Call)
    requires call.command.SelectCandidate? && SelectRefusal(s, call).Some? && MayStage(s, call, 1)
    ensures var open := s.(lastNow := call.now, cleanup := s.cleanup.(evaluation := None));
            ApplySelect(open, call.now, call.command) == Err(SelectRefusal(s, call).value)
  {
    var c, t := call.command, s.(lastNow := call.now, cleanup := s.cleanup.(evaluation := None));
    DoneBelow(t, Revalidation);
    assert Before(Revalidation) == [Version, Permissions, CephStatus, CephPool];
    assert forall x: Slot :: Done(t, x) == Done(s, x);
    hide AllSucceededBelow, Eligible, Done, MayStage;
    if DiscoveryProof in s.proof {
      QuotesExactly(t, call.now, 0, s.proof[DiscoveryProof], c.fsid, c.manager, c.endpoint, c.receipt);
      ProofRefusal(s.proof[DiscoveryProof], call.now, 0);
      hide ClassifyProof, ProofMatches;
    }
  }

  lemma ProofRefusal(p: Proof, now: int, budget: int)
    ensures ClassifyProof(p, now, budget).Err? ==> ClassifyProof(p, now, budget) == Err(Gate)
  {
  }

  function MergeRefusal(s: State, call: Call): Option<Refusal>
    requires call.command.RecordMerge?
  {
    var c := call.command;
    if !MayStage(s, call, 1) || s.branch != Some(New) || s.selectedHead != Some(c.prHead) then Some(Gate)
    else if !IsHex(c.mergedSha, 40) then Some(Reject)
    else if c.mergedSha == c.prHead || c.fluxSource != c.mergedSha || c.fluxApplied != c.mergedSha then Some(Gate)
    else if s.merge.Some? then Some(Conflict)
    else None
  }

  lemma MergeRefused(size: State -> nat, s: State, call: Call)
    requires Called(size, s, call) && call.command.RecordMerge? && MergeRefusal(s, call).Some?
    ensures Cas(size, s, call) == Err(MergeRefusal(s, call).value)
  {
    hide Called, MayStage, IsHex;
    RouteRefused(size, s, call, MergeRefusal(s, call).value);
  }

  lemma ReversalRefused(size: State -> nat, s: State, call: Call)
    requires Called(size, s, call) && call.command.RecordReversal? && MayStage(s, call, 1)
    ensures s.reversal.Some? ==> Cas(size, s, call) == Err(Conflict)
    ensures s.reversal.None? && !IsHex(call.command.reversalHead, 40) ==> Cas(size, s, call) == Err(Reject)
  {
    hide Called, MayStage, IsHex;
    if s.reversal.Some? { RouteRefused(size, s, call, Conflict); }
    else if !IsHex(call.command.reversalHead, 40) { RouteRefused(size, s, call, Reject); }
  }

  lemma DeliveryRefused(size: State -> nat, s: State, call: Call)
    requires Called(size, s, call) && call.command.ObserveDelivery?
    requires s.branch.None? || (s.branch == Some(New) && s.merge.None?) || Revalidation in s.slotIntent
    ensures Cas(size, s, call) == Err(Gate)
  {
    hide Called, MayStage;
    RouteRefused(size, s, call, Gate);
  }

  function OutcomeRefusal(s: State, call: Call): Option<Refusal>
    requires call.command.RecordOutcome?
  {
    var c := call.command;
    if call.now < s.lastNow then Some(Gate)
    else if c.outcome !in {"success", "denied", "unknown", "uncertain", "failure"} then Some(Reject)
    else if c.intentId !in s.intents then Some(Gate)
    else if !s.intents[c.intentId].dispatch || s.intents[c.intentId].decision != Admit then Some(Gate)
    else if !IsToken(c.receipt) then Some(Reject)
    else if s.intents[c.intentId].result.Some? then
      if s.intents[c.intentId].result == Some(Answer(call)) then None else Some(Conflict)
    else if c.outcome != "success" then None
    else if c.requestAt.None? || c.observedAt.None? || c.requestAt.value < s.intents[c.intentId].admittedAt
            || c.observedAt.value < c.requestAt.value || call.now < c.observedAt.value then Some(Gate)
    else if c.body.None? || !IsHex(c.body.value, 64) then Some(Reject)
    else if s.intents[c.intentId].slot in {CephStatus, Revalidation}
            && !(IsToken(c.fsid) && IsToken(c.manager) && IsEndpoint(c.endpoint)) then Some(Reject)
    else None
  }

  lemma OutcomeRefused(size: State -> nat, s: State, call: Call)
    requires Called(size, s, call) && call.command.RecordOutcome? && OutcomeRefusal(s, call).Some?
    ensures Cas(size, s, call) == Err(OutcomeRefusal(s, call).value)
  {
    hide Called, IsToken, IsEndpoint, IsHex;
    assert Apply(s, call) == Err(OutcomeRefusal(s, call).value);
    RefusedFor(size, s, call, OutcomeRefusal(s, call).value);
  }

  lemma BlockerRefused(size: State -> nat, s: State, call: Call)
    requires Called(size, s, call) && call.command.RecordBlocker?
    ensures call.now < s.lastNow ==> Cas(size, s, call) == Err(Gate)
    ensures s.lastNow <= call.now && |s.blockers| >= 8 ==> Cas(size, s, call) == Err(Reject)
  {
    hide Loads, IsBinding, KeepsProofs;
  }

  function ResidualRefusal(s: State, call: Call, i: int): Option<Refusal>
    requires call.command.RecordResidual? && PlaceOf(s, call.command.uid, i)
  {
    var c, grants := call.command, s.cleanup.grants;
    if call.now < s.lastNow then Some(Gate)
    else if !IsToken(c.uid) || !IsToken(c.receipt) || !IsToken(c.cnpUid) then Some(Reject)
    else if i < |grants| && (grants[i].ownerClass != c.ownerClass || grants[i].expiresAt != c.expiresAt
                             || grants[i].cnpUid != c.cnpUid) then Some(Conflict)
    else if !c.active && (c.reason !in {"natural-expiry", "released"} || c.cnpState == Present) then Some(Gate)
    else if !c.active && c.ownerClass == Other && c.reason != "natural-expiry" then Some(Reject)
    else if !c.active && c.reason == "natural-expiry" && call.now < c.expiresAt then Some(Gate)
    else if i == |grants| && i >= 16 then Some(Reject)
    else None
  }

  lemma ResidualRefused(size: State -> nat, s: State, call: Call, i: int)
    requires Called(size, s, call) && call.command.RecordResidual? && PlaceOf(s, call.command.uid, i)
    requires ResidualRefusal(s, call, i).Some?
    ensures Cas(size, s, call) == Err(ResidualRefusal(s, call, i).value)
  {
    assert FindGrant(s.cleanup.grants, call.command.uid) == i;
    hide Called, IsToken, FindGrant;
    assert Apply(s, call) == Err(ResidualRefusal(s, call, i).value);
    RefusedFor(size, s, call, ResidualRefusal(s, call, i).value);
  }

  function ResolveRefusal(s: State, call: Call): Option<Refusal>
    requires call.command.ResolveBlocker?
  {
    var c := call.command;
    var i := FindBlocker(s.blockers, c.blockerId);
    if s.owner.kind != Persistent || !s.owner.ready || !s.owner.live || s.owner.lost
       || !TimeLeft(s, call, if Revalidation in s.slotIntent then 10 else 12) then Some(Gate)
    else if !IsToken(c.blockerId) then Some(Reject)
    else if i == |s.blockers| || s.blockers[i].kind != Recoverable || s.blockers[i].meta.value.resolution.Some?
      then Some(Gate)
    else if (exists j | 0 <= j < |s.blockers| :: s.blockers[j].kind != Recoverable) || Metrics in s.slotIntent
            || (exists id | id in s.intents ::
                  !s.intents[id].dispatch || s.intents[id].decision != Admit || s.intents[id].result.None?
                  || s.intents[id].result.value.outcome != "success") then Some(Gate)
    else if c.verifiedAt < s.blockers[i].meta.value.recordedAt || call.now < c.verifiedAt then Some(Gate)
    else if !IsToken(c.reason) || !IsToken(c.prerequisite) then Some(Reject)
    else None
  }

  lemma ResolveFails(s: State, call: Call)
    requires call.command.ResolveBlocker? && call.stageBudget > 0 && ResolveRefusal(s, call).Some?
    ensures ApplyResolve(s, call) == Err(ResolveRefusal(s, call).value)
  {
    hide IsToken, FindBlocker;
  }

  lemma ResolveRefused(size: State -> nat, s: State, call: Call)
    requires Called(size, s, call) && call.command.ResolveBlocker? && ResolveRefusal(s, call).Some?
    ensures Cas(size, s, call) == Err(ResolveRefusal(s, call).value)
  {
    ResolveFails(s, call);
    hide ApplyResolve, ResolveRefusal;
    RefusedFor(size, s, call, ResolveRefusal(s, call).value);
  }

  ghost function EvaluateRefusal(s: State, call: Call): Option<Refusal>
    requires call.command.EvaluateClean?
  {
    var a := call.command.audit;
    if a.binding != s.binding then Some(Gate)
    else if !IsToken(a.receipt) then Some(Reject)
    else if a.observedAt < s.lastNow || call.now < a.observedAt then Some(Gate)
    else if !IsToken(a.policyRef) || |a.grants| > 16
            || (exists i | 0 <= i < |a.grants| :: !IsToken(a.grants[i].uid) || !IsToken(a.grants[i].cnpUid))
      then Some(Reject)
    else if !Enumerates(a.grants, s.cleanup.grants) then Some(Gate)
    else if |a.cnps| > 16 || (exists j | 0 <= j < |a.cnps| :: !IsToken(a.cnps[j].uid))
            || (exists i, j | 0 <= i < j < |a.cnps| :: a.cnps[i].uid == a.cnps[j].uid) then Some(Reject)
    else if !Inventories(a.cnps, a.grants) then Some(Gate)
    else None
  }

  lemma EvaluateFails(s: State, call: Call)
    requires call.command.EvaluateClean? && EvaluateRefusal(s, call).Some?
    requires var a := call.command.audit;
             && (Enumerates(a.grants, s.cleanup.grants)
                 <==> DistinctRows(a.grants) && RowUids(a.grants) == GrantUids(s.cleanup.grants)
                      && RowsDescribe(a.grants, s.cleanup.grants))
             && (Inventories(a.cnps, a.grants) <==> DistinctCnps(a.cnps) && CnpsDescribe(a.cnps, a.grants))
    ensures ApplyEvaluate(s, call.now, call.command) == Err(EvaluateRefusal(s, call).value)
  {
    hide AuditClean, IsToken, DistinctRows, RowUids, GrantUids, RowsDescribe, CnpsDescribe, Enumerates, Inventories;
  }

  lemma EvaluateRefused(size: State -> nat, s: State, call: Call)
    requires Called(size, s, call) && call.command.EvaluateClean? && EvaluateRefusal(s, call).Some?
    requires forall i, j | 0 <= i < j < |s.cleanup.grants| :: s.cleanup.grants[i].uid != s.cleanup.grants[j].uid
    ensures Cas(size, s, call) == Err(EvaluateRefusal(s, call).value)
  {
    var a := call.command.audit;
    EnumeratesExactly(a.grants, s.cleanup.grants);
    InventoriesExactly(a.cnps, a.grants);
    EvaluateFails(s, call);
    hide ApplyEvaluate, EvaluateRefusal, Enumerates, Inventories, Called;
    RefusedFor(size, s, call, EvaluateRefusal(s, call).value);
  }

  /** An admission of a new intent: a spent slot conflicts, and everything else that bars it is a gate. */
  lemma AdmissionGated(size: State -> nat, s: State, call: Call)
    requires Called(size, s, call) && call.command.AdmitSlot? && call.command.intentId !in s.intents
    requires IsToken(call.command.intentId) && call.command.slot !in s.slotIntent && !Admittable(s, call)
    ensures Cas(size, s, call) == Err(Gate)
  {
    NotAdmittable(s, call);
    hide ApplyAdmit, Admittable, Called;
    RefusedFor(size, s, call, Gate);
  }

  lemma NotAdmittable(s: State, call: Call)
    requires call.command.AdmitSlot? && call.command.intentId !in s.intents
    requires IsToken(call.command.intentId) && call.command.slot !in s.slotIntent && !Admittable(s, call)
    ensures ApplyAdmit(s, call) == Err(Gate)
  {
    AdmitOpens(s, call);
    var stage, t := if call.command.slot == Metrics then 10 else 12, s.(lastNow := call.now);
    if s.lastNow <= call.now {
      assert MayStage(t, call, stage) <==> MayStage(s, call, stage);
      if !MayStage(t, call, stage) { StageFails(t, call, stage); }
    }
    hide NormalStage, MayStage, AllDone, AllSucceededBelow, DeliveryReady, Delivered, IsToken, MetricsDeadlines;
  }

  lemma ClosingIsRejected(size: State -> nat, s: State, call: Call)
    requires Called(size, s, call) && MayStage(s, call, 1)
    requires call.command.CloseOperation? || call.command.AuthorizeSuccessor? || call.command.Publish?
    ensures Cas(size, s, call) == Err(Reject)
  {
    StagesExactly(s, call, 1);
    hide NormalStage, MayStage, Loads, IsBinding;
  }
}
