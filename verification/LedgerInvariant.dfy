/** What every reachable ledger satisfies, and how a later ledger relates to an earlier one. */
module LedgerInvariant {
  import opened Common
  import opened LedgerModel

  // ---- Reads: slots, intents, proofs and their times ----

  /** A slot is consumed only after every slot before it succeeded. */
  ghost predicate InOrder(s: State) {
    forall b | b in s.slotIntent :: AllSucceededBelow(s, Rank(b))
  }

  ghost predicate IntentSound(i: Intent, now: int) {
    && i.admittedAt <= now
    && (i.dispatch <==> i.decision == Admit)
    && (i.result.Some? ==> i.dispatch)
    && (i.result.Some? && i.result.value.outcome == "success" ==>
          IntervalAfter(i.admittedAt, i.result.value, now) && BodyHashed(i.result.value))
  }

  ghost predicate IntentsSound(s: State) {
    forall id | id in s.intents :: IntentSound(s.intents[id], s.lastNow)
  }

  /** The successful read of an earlier slot was answered no later than a later slot was admitted. */
  ghost predicate AnsweredBefore(s: State, a: Slot, b: Slot) {
    && Succeeded(s, a) && Consumed(s, b)
    && IntentOf(s, a).result.value.observedAt.Some?
    && IntentOf(s, a).result.value.observedAt.value <= IntentOf(s, b).admittedAt
  }

  ghost predicate TimesOrdered(s: State) {
    forall a, b | a in s.slotIntent && b in s.slotIntent && Rank(a) < Rank(b) :: AnsweredBefore(s, a, b)
  }

  /** A proof is exactly the recorded answer of its slot, and exists exactly when that slot succeeded. */
  ghost predicate ProofIsAnswer(s: State, key: ProofKey, slot: Slot) {
    && (key in s.proof <==> Succeeded(s, slot))
    && (key in s.proof ==>
          var r := IntentOf(s, slot).result.value;
          r.requestAt.Some? && r.observedAt.Some? && r.body.Some? && s.proof[key] == ProofOf(s.binding, r))
  }

  ghost predicate ReadsInv(s: State) {
    && InOrder(s) && IntentsSound(s) && TimesOrdered(s)
    && ProofIsAnswer(s, DiscoveryProof, CephStatus)
    && ProofIsAnswer(s, RevalidationProof, Revalidation)
  }

  // ---- Route: candidates, selection, merge, delivery, metrics ----

  ghost predicate CandidateSound(c: Candidate, s: State) {
    && c.reviewedHead == c.head && c.ciHead == c.head
    && c.fluxLocal == "success" && c.diffScope == "success"
    && c.endpoint in s.contract.endpoints
    && 0 <= c.ciStartedAt < c.ciFinishedAt <= s.lastNow
    && (Consumed(s, Version) ==> c.ciFinishedAt <= IntentOf(s, Version).admittedAt)
  }

  ghost predicate CandidatesSound(s: State) {
    && (forall i | 0 <= i < |s.candidates| :: CandidateSound(s.candidates[i], s))
    && (forall i, j | 0 <= i < j < |s.candidates| :: s.candidates[i].head != s.candidates[j].head)
    && (forall e | e in s.contract.covered :: e in s.contract.endpoints)
  }

  /** Exactly one prepared candidate serves the discovered route, and its head is the selected one. */
  ghost predicate OnlyCandidate(s: State, i: int) {
    && DiscoveryProof in s.proof && 0 <= i < |s.candidates|
    && OnRoute(s.candidates[i], s.proof[DiscoveryProof]) && Some(s.candidates[i].head) == s.selectedHead
    && forall j | 0 <= j < |s.candidates| && j != i :: !OnRoute(s.candidates[j], s.proof[DiscoveryProof])
  }

  ghost predicate Unselected(s: State) {
    s.selectedHead.None? && s.selectedManager.None? && s.selectedEndpoint.None? && s.merge.None? && s.delivery.None?
  }

  ghost predicate SelectedRoute(s: State) {
    && AllSucceededBelow(s, 4) && DiscoveryProof in s.proof
    && var p := s.proof[DiscoveryProof];
    && p.fsid == s.contract.fsid && p.endpoint in s.contract.endpoints
    && s.selectedManager == Some(p.manager) && s.selectedEndpoint == Some(p.endpoint)
    && (s.branch == Some(Existing) ==> p.endpoint in s.contract.covered && s.merge.None?)
    && (s.branch == Some(New) ==> exists i :: OnlyCandidate(s, i))
    && (s.merge.Some? ==> FluxOnMerge(s))
  }

  ghost predicate SelectionSound(s: State) {
    && (s.branch.None? ==> Unselected(s))
    && (s.branch.Some? ==> SelectedRoute(s))
    && (Revalidation in s.slotIntent ==> DeliveryReady(s))
  }

  /** What holds whenever a metrics read was advised. */
  ghost predicate MetricsAdvised(s: State) {
    && DiscoveryProof in s.proof && RevalidationProof in s.proof && Consumed(s, Metrics)
    && (var d, r := s.proof[DiscoveryProof], s.proof[RevalidationProof];
        && r.fsid == d.fsid == s.contract.fsid && r.manager == d.manager
        && r.endpoint == d.endpoint && r.endpoint in s.contract.endpoints
        && IntentOf(s, Metrics).admittedAt + METRICS_BUDGET_S <= r.requestAt + PROOF_GUARD_S)
  }

  ghost predicate MetricsSound(s: State) {
    Consumed(s, Metrics) && IntentOf(s, Metrics).dispatch ==> MetricsAdvised(s)
  }

  ghost predicate RouteInv(s: State) {
    CandidatesSound(s) && SelectionSound(s) && MetricsSound(s)
  }

  // ---- Cleanup: grants, evaluation, blockers ----

  ghost predicate GrantSound(g: Grant, now: int) {
    && g.observedAt <= now
    && (!g.active ==> g.cnp == Absent && g.reason in {"natural-expiry", "released"})
    && (!g.active && g.reason == "natural-expiry" ==> g.expiresAt <= g.observedAt)
    && (!g.active && g.ownerClass == Other ==> g.reason == "natural-expiry")
  }

  ghost predicate GrantsSound(s: State) {
    && (forall i | 0 <= i < |s.cleanup.grants| :: GrantSound(s.cleanup.grants[i], s.lastNow))
    && (forall i, j | 0 <= i < j < |s.cleanup.grants| :: s.cleanup.grants[i].uid != s.cleanup.grants[j].uid)
  }

  ghost predicate GrantGone(g: Grant) { !g.active && g.cnp == Absent }

  ghost predicate EvaluationSound(s: State) {
    s.cleanup.evaluation.Some? ==>
      var e := s.cleanup.evaluation.value;
      && e.audit.binding == s.binding && RowUids(e.audit.grants) == GrantUids(s.cleanup.grants)
      && (e.clean ==> forall i | 0 <= i < |s.cleanup.grants| :: GrantGone(s.cleanup.grants[i]))
  }

  ghost predicate BlockersSound(s: State) {
    && |s.blockers| <= MAX_BLOCKERS
    && (forall i | 0 <= i < |s.blockers| ::
          && s.blockers[i].meta.Some? && s.blockers[i].meta.value.id == BlockerId(i + 1)
          && s.blockers[i].meta.value.recordedAt <= s.lastNow)
    && OwnerStanding(s.owner)
    && (s.owner.lost ==> exists i :: 0 <= i < |s.blockers| && s.blockers[i].kind == LostOwner)
  }

  ghost predicate OwnerStanding(o: Owner) { o.kind == Persistent && o.ready && o.live }

  ghost predicate CleanupInv(s: State) {
    GrantsSound(s) && EvaluationSound(s) && BlockersSound(s)
  }

  ghost predicate Inv(s: State) {
    Readable(s) && ReadsInv(s) && RouteInv(s) && CleanupInv(s)
  }

  // ---- Later ledgers ----

  ghost predicate IntentKept(old_: Intent, new_: Intent) {
    && new_ == old_.(result := new_.result)
    && (old_.result.Some? ==> new_.result == old_.result)
  }

  ghost predicate GrantKept(old_: Grant, new_: Grant) {
    && new_.uid == old_.uid && new_.ownerClass == old_.ownerClass && new_.expiresAt == old_.expiresAt
    && new_.cnpUid == old_.cnpUid
  }

  ghost predicate BlockerKept(old_: Blocker, new_: Blocker) {
    && new_.kind == old_.kind && (new_.meta.None? <==> old_.meta.None?)
    && (old_.meta.Some? ==> new_.meta.value == old_.meta.value.(resolution := new_.meta.value.resolution))
    && (!Unresolved(old_) ==> new_ == old_)
    && (new_.kind != Recoverable ==> new_ == old_)
  }

  /** Everything a later ledger keeps of an earlier one. */
  ghost predicate Later(s: State, t: State) {
    && s.revision <= t.revision && s.lastNow <= t.lastNow
    && s.binding == t.binding && s.contract == t.contract && (s.owner.lost ==> t.owner.lost)
    && (forall id | id in s.intents :: id in t.intents && IntentKept(s.intents[id], t.intents[id]))
    && (forall x | x in s.slotIntent :: x in t.slotIntent && t.slotIntent[x] == s.slotIntent[x])
    && KeepsProofs(s, t)
    && (s.branch.Some? ==>
          t.branch == s.branch && t.selectedHead == s.selectedHead && t.selectedManager == s.selectedManager
          && t.selectedEndpoint == s.selectedEndpoint)
    && (s.merge.Some? ==> t.merge == s.merge)
    && |s.cleanup.grants| <= |t.cleanup.grants|
    && (forall i | 0 <= i < |s.cleanup.grants| :: GrantKept(s.cleanup.grants[i], t.cleanup.grants[i]))
    && |s.blockers| <= |t.blockers|
    && (forall i | 0 <= i < |s.blockers| :: BlockerKept(s.blockers[i], t.blockers[i]))
  }

  lemma LaterTransitive(s: State, t: State, u: State)
    requires Later(s, t) && Later(t, u)
    ensures Later(s, u)
  {
    forall id | id in s.intents
      ensures id in u.intents && IntentKept(s.intents[id], u.intents[id])
    {
      assert IntentKept(s.intents[id], t.intents[id]) && IntentKept(t.intents[id], u.intents[id]);
    }
    forall i | 0 <= i < |s.blockers|
      ensures BlockerKept(s.blockers[i], u.blockers[i])
    {
      assert BlockerKept(s.blockers[i], t.blockers[i]) && BlockerKept(t.blockers[i], u.blockers[i]);
    }
    forall i | 0 <= i < |s.cleanup.grants|
      ensures GrantKept(s.cleanup.grants[i], u.cleanup.grants[i])
    {
      assert GrantKept(s.cleanup.grants[i], t.cleanup.grants[i]) && GrantKept(t.cleanup.grants[i], u.cleanup.grants[i]);
    }
  }

  // ---- Small steps every command is made of ----

  /** Only the clock, the reserve and the evaluation may differ. */
  ghost predicate OnlyClock(s: State, t: State) {
    && t == s.(lastNow := t.lastNow, cleanup := t.cleanup) && s.lastNow <= t.lastNow
    && t.cleanup.grants == s.cleanup.grants
    && t.cleanup.evaluation in {None, s.cleanup.evaluation}
  }

  lemma ReadsUnderClock(s: State, t: State)
    requires ReadsInv(s) && OnlyClock(s, t)
    ensures ReadsInv(t)
  {
    assert forall x: Slot :: Succeeded(s, x) == Succeeded(t, x);
    assert forall a, b | AnsweredBefore(s, a, b) :: AnsweredBefore(t, a, b);
  }

  lemma RouteUnderClock(s: State, t: State)
    requires RouteInv(s) && OnlyClock(s, t)
    ensures RouteInv(t)
  {
    assert forall x: Slot :: Succeeded(s, x) == Succeeded(t, x);
    assert forall i | 0 <= i < |s.candidates| ::
      CandidateSound(s.candidates[i], s) ==> CandidateSound(t.candidates[i], t);
    if s.branch == Some(New) {
      var i :| OnlyCandidate(s, i);
      assert OnlyCandidate(t, i);
    }
  }

  lemma LoadsUnderClock(s: State, t: State)
    requires Readable(s) && OnlyClock(s, t)
    ensures Readable(t)
  {
  }

  lemma CleanupUnderClock(s: State, t: State)
    requires CleanupInv(s) && OnlyClock(s, t)
    ensures CleanupInv(t)
  {
  }

  lemma LaterUnderClock(s: State, t: State)
    requires OnlyClock(s, t)
    ensures Later(s, t)
  {
  }

  lemma ClockKeepsInv(s: State, t: State)
    requires Inv(s) && OnlyClock(s, t)
    ensures Inv(t) && Later(s, t)
  {
    LoadsUnderClock(s, t);
    ReadsUnderClock(s, t);
    RouteUnderClock(s, t);
    CleanupUnderClock(s, t);
    LaterUnderClock(s, t);
  }

  lemma StagedKeeps(s: State, call: Call)
    requires Inv(s)
    requires Staged(s, call).Ok?
    ensures var t := Staged(s, call).value;
            Inv(t) && Later(s, t) && OnlyClock(s, t) && (!StagesItself(call.command) ==> t.lastNow == call.now)
  {
    ClockKeepsInv(s, Staged(s, call).value);
  }
}
