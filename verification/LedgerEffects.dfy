/** Each command once more, in terms of the stored ledger and the caller's words alone: exactly when it is accepted and
    what the stored ledger is afterwards.  Nothing here is defined through the command functions. */
module LedgerEffects {
  import opened Common
  import opened LedgerModel
  import opened LedgerInvariant
  import opened LedgerReads
  import opened LedgerTheorems

  // ---- Conditions ----

  /** The caller is the ledger's own, knows its revision, and the stored ledger can be read. */
  predicate Called(size: State -> nat, s: State, call: Call) {
    && call.now >= 0 && call.stageBudget > 0 && size(s) <= 65536 && Loads(s)
    && IsBinding(call.caller) && call.caller == s.binding && call.expectRevision == s.revision
  }

  /** A persistent, ready, live owner that was not lost, and no blocker without a resolution. */
  predicate OwnerFree(s: State) {
    && s.owner.kind == Persistent && s.owner.ready && s.owner.live && !s.owner.lost
    && forall i | 0 <= i < |s.blockers| :: s.blockers[i].meta.Some? && s.blockers[i].meta.value.resolution.Some?
  }

  /** The clock has not gone back, and the reserve stays untouched for this stage and for the caller's own estimate. */
  predicate TimeLeft(s: State, call: Call, stage: int) {
    && s.lastNow <= call.now && s.cleanup.deadline.Some?
    && call.now + s.cleanup.reserved + stage <= s.cleanup.deadline.value
    && call.now + s.cleanup.reserved + call.stageBudget <= s.cleanup.deadline.value
  }

  predicate MayStage(s: State, call: Call, stage: int) { OwnerFree(s) && TimeLeft(s, call, stage) }

  // ---- What is stored ----

  /** One revision later, at the clock of the call. */
  function Ticked(s: State, call: Call): State { s.(revision := s.revision + 1, lastNow := call.now) }

  /** A staged command also drops the stored evaluation. */
  function Restaged(s: State, call: Call): State {
    Ticked(s, call).(cleanup := s.cleanup.(evaluation := None))
  }

  /** The call is accepted exactly when it is well called, the condition holds and `t` fits; then `t` is stored and the
      caller is told `a`. */
  ghost predicate Does(size: State -> nat, s: State, call: Call, condition: bool, t: State, a: Advice) {
    && (Cas(size, s, call).Ok? <==> Called(size, s, call) && condition && size(t) <= 65536)
    && (Cas(size, s, call).Ok? ==> Cas(size, s, call).value == Accepted(t, a))
  }

  lemma StagesExactly(s: State, call: Call, stage: int)
    requires stage >= 1
    ensures NormalStage(s, call, stage).Ok? <==> MayStage(s, call, stage)
    ensures NormalStage(s, call, stage).Ok? ==>
              NormalStage(s, call, stage).value == s.(lastNow := call.now, cleanup := s.cleanup.(evaluation := None))
  {
  }

  lemma Answers(size: State -> nat, s: State, call: Call, condition: bool, t: State, a: Advice)
    requires Apply(s, call).Ok? <==> condition
    requires condition ==> Apply(s, call) == Ok(Accepted(t.(revision := t.revision - 1), a)) && KeepsProofs(s, t)
    ensures Does(size, s, call, condition, t, a)
  {
    hide Apply, Loads, IsBinding;
  }

  /** The same for a route command, which runs once its stage is open. */
  lemma RouteAnswers(size: State -> nat, s: State, call: Call, condition: bool, t: State)
    requires IsRouteCommand(call.command)
    requires var open := s.(lastNow := call.now, cleanup := s.cleanup.(evaluation := None));
             var r := ExecuteRoute(open, call.now, call.command);
             && (r.Ok? <==> condition)
             && (r.Ok? ==> r.value == t.(revision := t.revision - 1))
    requires condition ==> KeepsProofs(s, t)
    ensures Does(size, s, call, MayStage(s, call, 1) && condition, t, NO_ADVICE)
  {
    StagesExactly(s, call, 1);
    hide NormalStage, MayStage, ExecuteRoute, KeepsProofs;
    Answers(size, s, call, MayStage(s, call, 1) && condition, t, NO_ADVICE);
  }

  // ---- Reserve and cleanup ----

  lemma ReserveDoes(size: State -> nat, s: State, call: Call)
    requires call.command.ReserveCleanup?
    ensures var c := call.command;
            Does(size, s, call,
                 s.lastNow <= call.now && 0 < c.seconds < c.deadline - call.now
                 && (c.ciEstimate.Some? ==> c.ciEstimate.value >= 0),
                 Ticked(s, call).(cleanup := s.cleanup.(reserved := c.seconds, deadline := Some(c.deadline),
                                                        ciEstimate := c.ciEstimate)),
                 NO_ADVICE)
  {
    var c := call.command;
    Answers(size, s, call, s.lastNow <= call.now && 0 < c.seconds < c.deadline - call.now
            && (c.ciEstimate.Some? ==> c.ciEstimate.value >= 0),
            Ticked(s, call).(cleanup := s.cleanup.(reserved := c.seconds, deadline := Some(c.deadline),
                                                   ciEstimate := c.ciEstimate)), NO_ADVICE);
  }

  // ---- The route ----

  function Prepared(s: State, call: Call): State
    requires call.command.PrepareCandidate?
  {
    var c := call.command;
    var candidate := Candidate(c.head, c.head, c.head, c.pr, c.manager, c.endpoint, "success", "success",
                               c.ciStartedAt, c.ciFinishedAt);
    Restaged(s, call).(candidates := s.candidates + [candidate])
  }

  /** Before any read and any selection: one reviewed, green head with finished checks on an allowlisted endpoint. */
  ghost predicate Preparable(s: State, call: Call)
    requires call.command.PrepareCandidate?
  {
    var c := call.command;
    && s.slotIntent == map[] && s.branch.None?
    && IsHex(c.head, 40) && c.reviewedHead == c.head && c.ciHead == c.head && !c.privateReview
    && c.fluxLocal == "success" && c.diffScope == "success"
    && 0 <= c.ciStartedAt && c.ciStartedAt < c.ciFinishedAt && c.ciFinishedAt <= call.now
    && |s.candidates| < 3 && (forall i | 0 <= i < |s.candidates| :: s.candidates[i].head != c.head)
    && IsEndpoint(c.endpoint) && c.endpoint in s.contract.endpoints && IsToken(c.pr) && IsToken(c.manager)
  }

  lemma PrepareDoes(size: State -> nat, s: State, call: Call)
    requires call.command.PrepareCandidate?
    ensures Does(size, s, call, MayStage(s, call, 1) && Preparable(s, call), Prepared(s, call), NO_ADVICE)
  {
    hide IsEndpoint, IsToken, IsHex;
    RouteAnswers(size, s, call, Preparable(s, call), Prepared(s, call));
  }

  lemma MergeDoes(size: State -> nat, s: State, call: Call)
    requires call.command.RecordMerge?
    ensures var c := call.command;
            Does(size, s, call,
                 MayStage(s, call, 1) && s.branch == Some(New) && s.selectedHead == Some(c.prHead) && s.merge.None?
                 && IsHex(c.mergedSha, 40) && c.mergedSha != c.prHead
                 && c.fluxSource == c.mergedSha && c.fluxApplied == c.mergedSha,
                 Restaged(s, call).(merge := Some(Merge(c.prHead, c.mergedSha, c.fluxSource, c.fluxApplied))),
                 NO_ADVICE)
  {
    hide MayStage, IsHex;
    var c := call.command;
    RouteAnswers(size, s, call, s.branch == Some(New) && s.selectedHead == Some(c.prHead) && s.merge.None?
                 && IsHex(c.mergedSha, 40) && c.mergedSha != c.prHead
                 && c.fluxSource == c.mergedSha && c.fluxApplied == c.mergedSha,
                 Restaged(s, call).(merge := Some(Merge(c.prHead, c.mergedSha, c.fluxSource, c.fluxApplied))));
  }

  lemma ReversalDoes(size: State -> nat, s: State, call: Call)
    requires call.command.RecordReversal?
    ensures Does(size, s, call, MayStage(s, call, 1) && s.reversal.None? && IsHex(call.command.reversalHead, 40),
                 Restaged(s, call).(reversal := Some(call.command.reversalHead)), NO_ADVICE)
  {
    hide MayStage, IsHex;
    RouteAnswers(size, s, call, s.reversal.None? && IsHex(call.command.reversalHead, 40),
                 Restaged(s, call).(reversal := Some(call.command.reversalHead)));
  }

  lemma DeliveryDoes(size: State -> nat, s: State, call: Call)
    requires call.command.ObserveDelivery?
    ensures var c := call.command;
            Does(size, s, call,
                 MayStage(s, call, 1) && s.branch.Some? && (s.branch == Some(New) ==> s.merge.Some?)
                 && Revalidation !in s.slotIntent,
                 Restaged(s, call).(delivery := Some(Delivery(c.deployment, c.grant, c.cnp))), NO_ADVICE)
  {
    hide MayStage;
    var c := call.command;
    RouteAnswers(size, s, call, s.branch.Some? && (s.branch == Some(New) ==> s.merge.Some?)
                 && Revalidation !in s.slotIntent,
                 Restaged(s, call).(delivery := Some(Delivery(c.deployment, c.grant, c.cnp))));
  }

  /** This slot was read with success. */
  predicate Done(s: State, x: Slot) {
    && x in s.slotIntent && s.slotIntent[x] in s.intents
    && s.intents[s.slotIntent[x]].result.Some? && s.intents[s.slotIntent[x]].result.value.outcome == "success"
  }

  function Before(x: Slot): seq<Slot> {
    match x
    case Version => []
    case Permissions => [Version]
    case CephStatus => [Version, Permissions]
    case CephPool => [Version, Permissions, CephStatus]
    case Revalidation => [Version, Permissions, CephStatus, CephPool]
    case Metrics => [Version, Permissions, CephStatus, CephPool, Revalidation]
  }

  predicate AllDone(s: State, xs: seq<Slot>) { forall i | 0 <= i < |xs| :: Done(s, xs[i]) }

  lemma DoneBelow(s: State, x: Slot)
    ensures AllSucceededBelow(s, Rank(x)) <==> AllDone(s, Before(x))
  {
    if AllDone(s, Before(x)) {
      forall y | y in ALL_SLOTS && Rank(y) < Rank(x) ensures Succeeded(s, y) { assert Before(x)[Rank(y)] == y; }
    }
  }

  /** The proof is of this ledger, recent enough for `budget` more seconds, and the caller quotes it word for word. */
  predicate Quoted(s: State, now: int, budget: int, p: Proof, fsid: string, manager: string, endpoint: string,
      receipt: string) {
    && p.requestAt <= p.observedAt <= now && now + budget <= p.requestAt + 300
    && p.binding == s.binding && p.fsid == s.contract.fsid
    && fsid == p.fsid && manager == p.manager && endpoint == p.endpoint && receipt == p.receipt
    && p.endpoint in s.contract.endpoints
    && (s.selectedManager.None? || s.selectedManager == Some("")
        || (s.selectedManager == Some(p.manager) && s.selectedEndpoint == Some(p.endpoint)))
  }

  lemma QuotesExactly(s: State, now: int, budget: int, p: Proof, fsid: string, manager: string, endpoint: string,
      receipt: string)
    ensures ClassifyProof(p, now, budget).Ok? && ProofMatches(s, p, fsid, manager, endpoint, receipt)
            <==> Quoted(s, now, budget, p, fsid, manager, endpoint, receipt)
    ensures ClassifyProof(p, now, budget).Ok? ==> ClassifyProof(p, now, budget).value == p.requestAt + 300
  {
  }

  predicate Serves(c: Candidate, p: Proof) { c.manager == p.manager && c.endpoint == p.endpoint }

  /** Candidate number i is the only one on the discovered route. */
  predicate OnlyServer(s: State, p: Proof, i: int) {
    0 <= i < |s.candidates| && Serves(s.candidates[i], p)
    && forall j | 0 <= j < |s.candidates| && j != i :: !Serves(s.candidates[j], p)
  }

  lemma {:induction false} EligibleOnly(cs: seq<Candidate>, p: Proof, i: int)
    requires 0 <= i < |cs| && Serves(cs[i], p) && forall j | 0 <= j < |cs| && j != i :: !Serves(cs[j], p)
    ensures Eligible(cs, p) == [cs[i]]
  {
    assert forall j | 0 <= j < |cs[1..]| :: cs[1..][j] == cs[j + 1];
    if i == 0 { NoneEligible(cs[1..], p); } else { EligibleOnly(cs[1..], p, i - 1); }
  }

  lemma {:induction false} NoneEligible(cs: seq<Candidate>, p: Proof)
    requires forall j | 0 <= j < |cs| :: !Serves(cs[j], p)
    ensures Eligible(cs, p) == []
  {
    if cs != [] {
      assert forall j | 0 <= j < |cs[1..]| :: cs[1..][j] == cs[j + 1];
      NoneEligible(cs[1..], p);
    }
  }

  lemma {:induction false} EligibleOne(cs: seq<Candidate>, p: Proof) returns (i: int)
    requires |Eligible(cs, p)| == 1
    ensures 0 <= i < |cs| && Serves(cs[i], p) && forall j | 0 <= j < |cs| && j != i :: !Serves(cs[j], p)
  {
    if Serves(cs[0], p) {
      i := 0;
      if j :| 0 < j < |cs| && Serves(cs[j], p) { SomeEligible(cs[1..], p, j - 1); }
    } else {
      var k := EligibleOne(cs[1..], p);
      i := k + 1;
      assert forall j | 1 <= j < |cs| :: cs[j] == cs[1..][j - 1];
    }
  }

  lemma {:induction false} SomeEligible(cs: seq<Candidate>, p: Proof, i: int)
    requires 0 <= i < |cs| && Serves(cs[i], p)
    ensures |Eligible(cs, p)| >= 1
  {
    if i > 0 { SomeEligible(cs[1..], p, i - 1); }
  }

  predicate Selectable(s: State, call: Call)
    requires call.command.SelectCandidate?
  {
    var c := call.command;
    && s.branch.None? && AllDone(s, [Version, Permissions, CephStatus, CephPool]) && DiscoveryProof in s.proof
    && Quoted(s, call.now, 0, s.proof[DiscoveryProof], c.fsid, c.manager, c.endpoint, c.receipt)
  }

  function Selects(s: State, call: Call, head: Option<string>): State
    requires call.command.SelectCandidate? && DiscoveryProof in s.proof
  {
    var p := s.proof[DiscoveryProof];
    Restaged(s, call).(branch := Some(call.command.branch), selectedHead := head,
                       selectedManager := Some(p.manager), selectedEndpoint := Some(p.endpoint))
  }

  /** What the selection itself asks once the stage is open, candidates aside. */
  lemma SelectApplies(s: State, call: Call)
    requires call.command.SelectCandidate?
    ensures var c, t := call.command, s.(lastNow := call.now, cleanup := s.cleanup.(evaluation := None));
            && (ApplySelect(t, call.now, c).Ok? <==>
                  Selectable(s, call)
                  && var p := s.proof[DiscoveryProof];
                     if c.branch == Existing then p.endpoint in s.contract.covered
                     else |Eligible(s.candidates, p)| == 1)
            && (ApplySelect(t, call.now, c).Ok? ==>
                  var p := s.proof[DiscoveryProof];
                  ApplySelect(t, call.now, c).value
                  == t.(branch := Some(c.branch), selectedManager := Some(p.manager),
                        selectedEndpoint := Some(p.endpoint),
                        selectedHead := if c.branch == Existing then s.selectedHead
                                        else Some(Eligible(s.candidates, p)[0].head)))
  {
    var c, t := call.command, s.(lastNow := call.now, cleanup := s.cleanup.(evaluation := None));
    DoneBelow(t, Revalidation);
    assert Before(Revalidation) == [Version, Permissions, CephStatus, CephPool];
    assert forall x: Slot :: Done(t, x) == Done(s, x);
    hide AllSucceededBelow, Eligible, Done;
    if DiscoveryProof in s.proof {
      QuotesExactly(t, call.now, 0, s.proof[DiscoveryProof], c.fsid, c.manager, c.endpoint, c.receipt);
      hide ClassifyProof, ProofMatches;
    }
  }

  lemma SelectExistingDoes(size: State -> nat, s: State, call: Call)
    requires call.command.SelectCandidate? && call.command.branch == Existing && DiscoveryProof in s.proof
    ensures Does(size, s, call,
                 MayStage(s, call, 1) && Selectable(s, call) && s.proof[DiscoveryProof].endpoint in s.contract.covered,
                 Selects(s, call, s.selectedHead), NO_ADVICE)
  {
    SelectApplies(s, call);
    hide MayStage, ApplySelect, Selectable;
    RouteAnswers(size, s, call, Selectable(s, call) && s.proof[DiscoveryProof].endpoint in s.contract.covered,
                 Selects(s, call, s.selectedHead));
  }

  /** A new branch goes to the only candidate on the discovered route, and to none when there is no or more than one. */
  lemma SelectNewDoes(size: State -> nat, s: State, call: Call, i: int)
    requires call.command.SelectCandidate? && call.command.branch == New && DiscoveryProof in s.proof
    requires OnlyServer(s, s.proof[DiscoveryProof], i)
    ensures Does(size, s, call, MayStage(s, call, 1) && Selectable(s, call),
                 Selects(s, call, Some(s.candidates[i].head)), NO_ADVICE)
  {
    SelectApplies(s, call);
    EligibleOnly(s.candidates, s.proof[DiscoveryProof], i);
    hide MayStage, ApplySelect, Selectable, Eligible, OnlyServer;
    RouteAnswers(size, s, call, Selectable(s, call), Selects(s, call, Some(s.candidates[i].head)));
  }

  lemma SelectNeedsRoute(size: State -> nat, s: State, call: Call)
    requires call.command.SelectCandidate? && Cas(size, s, call).Ok?
    ensures DiscoveryProof in s.proof
    ensures call.command.branch == New ==> exists i :: OnlyServer(s, s.proof[DiscoveryProof], i)
  {
    CasStores(size, s, call);
    StagesExactly(s, call, 1);
    SelectApplies(s, call);
    hide NormalStage, MayStage, ApplySelect, Cas, Eligible;
    if call.command.branch == New {
      var i := EligibleOne(s.candidates, s.proof[DiscoveryProof]);
      assert OnlyServer(s, s.proof[DiscoveryProof], i);
    }
  }

  // ---- Blockers ----

  function NextBlocker(s: State, call: Call): Blocker
    requires call.command.RecordBlocker? && |s.blockers| < 8
  {
    Blocker(call.command.kind,
            Some(BlockerMeta("blocker-" + [('0' as int + |s.blockers| + 1) as char], call.now, None)))
  }

  lemma BlockerApplies(s: State, call: Call)
    requires call.command.RecordBlocker? && |s.blockers| < 8 && s.lastNow <= call.now
    ensures ApplyBlocker(s.(lastNow := call.now), call.now, call.command)
            == Ok(s.(lastNow := call.now, blockers := s.blockers + [NextBlocker(s, call)],
                     owner := s.owner.(lost := s.owner.lost || call.command.kind == LostOwner)))
  {
  }

  lemma BlockerDoes(size: State -> nat, s: State, call: Call)
    requires call.command.RecordBlocker?
    ensures |s.blockers| >= 8 ==> Cas(size, s, call).Err?
    ensures |s.blockers| < 8 ==>
              Does(size, s, call, s.lastNow <= call.now,
                   Ticked(s, call).(blockers := s.blockers + [NextBlocker(s, call)],
                                    owner := s.owner.(lost := s.owner.lost || call.command.kind == LostOwner)),
                   NO_ADVICE)
  {
    if |s.blockers| < 8 {
      if s.lastNow <= call.now { BlockerApplies(s, call); }
      hide ApplyBlocker, NextBlocker;
      Answers(size, s, call, s.lastNow <= call.now,
              Ticked(s, call).(blockers := s.blockers + [NextBlocker(s, call)],
                               owner := s.owner.(lost := s.owner.lost || call.command.kind == LostOwner)), NO_ADVICE);
    }
  }

  predicate Named(s: State, i: int, id: string) {
    0 <= i < |s.blockers| && s.blockers[i].meta.Some? && s.blockers[i].meta.value.id == id
    && forall j | 0 <= j < i :: s.blockers[j].meta.None? || s.blockers[j].meta.value.id != id
  }

  /** Blocker i is recoverable and open, nothing else bars recovery, no read so far was denied, failed or is open. */
  predicate Resolvable(s: State, call: Call, i: int)
    requires call.command.ResolveBlocker? && Named(s, i, call.command.blockerId)
  {
    var c := call.command;
    && s.owner.kind == Persistent && s.owner.ready && s.owner.live && !s.owner.lost
    && TimeLeft(s, call, if Revalidation in s.slotIntent then 10 else 12)
    && IsToken(c.blockerId) && IsToken(c.reason) && IsToken(c.prerequisite)
    && s.blockers[i].meta.value.resolution.None?
    && (forall j | 0 <= j < |s.blockers| :: s.blockers[j].kind == Recoverable)
    && Metrics !in s.slotIntent
    && (forall id | id in s.intents ::
          && s.intents[id].dispatch && s.intents[id].decision == Admit
          && s.intents[id].result.Some? && s.intents[id].result.value.outcome == "success")
    && s.blockers[i].meta.value.recordedAt <= c.verifiedAt <= call.now
  }

  function Resolved(s: State, call: Call, i: int): State
    requires call.command.ResolveBlocker? && Named(s, i, call.command.blockerId)
  {
    var c, meta := call.command, s.blockers[i].meta.value;
    var resolution := Resolution(c.reason, c.prerequisite, c.verifiedAt, call.now, s.binding);
    Restaged(s, call).(blockers := s.blockers[i := Blocker(s.blockers[i].kind,
      Some(BlockerMeta(meta.id, meta.recordedAt, Some(resolution))))])
  }

  lemma ResolveApplies(s: State, call: Call, i: int)
    requires call.command.ResolveBlocker? && Named(s, i, call.command.blockerId)
    ensures ApplyResolve(s, call).Ok? <==> Resolvable(s, call, i)
    ensures ApplyResolve(s, call).Ok? ==>
              ApplyResolve(s, call).value == Resolved(s, call, i).(revision := s.revision)
  {
    assert FindBlocker(s.blockers, call.command.blockerId) == i;
    hide FindBlocker, IsToken;
  }

  lemma ResolveDoes(size: State -> nat, s: State, call: Call, i: int)
    requires call.command.ResolveBlocker? && Named(s, i, call.command.blockerId)
    ensures Does(size, s, call, Resolvable(s, call, i), Resolved(s, call, i), NO_ADVICE)
  {
    ResolveApplies(s, call, i);
    hide ApplyResolve, Resolvable;
    assert Resolved(s, call, i).(revision := Resolved(s, call, i).revision - 1)
        == Resolved(s, call, i).(revision := s.revision);
    Answers(size, s, call, Resolvable(s, call, i), Resolved(s, call, i), NO_ADVICE);
  }

  lemma ResolveNeedsName(size: State -> nat, s: State, call: Call)
    requires call.command.ResolveBlocker? && Cas(size, s, call).Ok?
    ensures exists i :: Named(s, i, call.command.blockerId)
  {
    assert Named(s, FindBlocker(s.blockers, call.command.blockerId), call.command.blockerId);
  }

  // ---- Closing commands ----

  /** Closing the operation, authorising a successor and publishing are refused whatever the ledger. */
  lemma ClosingIsRefused(size: State -> nat, s: State, call: Call)
    requires call.command.CloseOperation? || call.command.AuthorizeSuccessor? || call.command.Publish?
    ensures Cas(size, s, call).Err?
  {
  }
}
