/** Runs of the intent ledger: any sequence of calls, accepted or refused, from any accepted initialisation. */
module LedgerRuns {
  import opened Common
  import opened LedgerModel
  import opened LedgerInvariant
  import opened LedgerSteps
  import opened LedgerReads

  // ---- One step ----

  /** A later ledger of the same revision whose clock shows `now`. */
  ghost predicate LaterAt(s: State, t: State, now: int) {
    Later(s, t) && t.revision == s.revision && t.lastNow == now
  }

  lemma ReserveLater(s: State, now: int, c: Command)
    requires c.ReserveCleanup? && ApplyReserve(s, now, c).Ok?
    ensures LaterAt(s, ApplyReserve(s, now, c).value, s.lastNow)
  {
  }

  lemma PrepareLater(s: State, now: int, c: Command)
    requires c.PrepareCandidate? && ApplyPrepare(s, now, c).Ok?
    ensures LaterAt(s, ApplyPrepare(s, now, c).value, s.lastNow)
  {
  }

  lemma SelectLater(s: State, now: int, c: Command)
    requires c.SelectCandidate? && ApplySelect(s, now, c).Ok? && SelectionSound(s)
    ensures LaterAt(s, ApplySelect(s, now, c).value, s.lastNow)
  {
  }

  lemma MergeLater(s: State, c: Command)
    requires c.RecordMerge? && ApplyMerge(s, c).Ok?
    ensures LaterAt(s, ApplyMerge(s, c).value, s.lastNow)
  {
  }

  lemma ReversalLater(s: State, c: Command)
    requires c.RecordReversal? && ApplyReversal(s, c).Ok?
    ensures LaterAt(s, ApplyReversal(s, c).value, s.lastNow)
  {
  }

  lemma DeliveryLater(s: State, c: Command)
    requires c.ObserveDelivery? && ApplyDelivery(s, c).Ok?
    ensures LaterAt(s, ApplyDelivery(s, c).value, s.lastNow)
  {
  }

  lemma BlockerLater(s: State, now: int, c: Command)
    requires c.RecordBlocker? && ApplyBlocker(s, now, c).Ok?
    ensures LaterAt(s, ApplyBlocker(s, now, c).value, s.lastNow)
  {
  }

  lemma ResolveLater(s: State, call: Call)
    requires call.command.ResolveBlocker? && ApplyResolve(s, call).Ok?
    ensures LaterAt(s, ApplyResolve(s, call).value, call.now)
  {
  }

  lemma ResidualLater(s: State, now: int, c: Command)
    requires c.RecordResidual? && ApplyResidual(s, now, c).Ok?
    ensures LaterAt(s, ApplyResidual(s, now, c).value, s.lastNow)
  {
  }

  lemma EvaluateLater(s: State, now: int, c: Command)
    requires c.EvaluateClean? && ApplyEvaluate(s, now, c).Ok?
    ensures LaterAt(s, ApplyEvaluate(s, now, c).value, now)
  {
  }

  lemma AdmitLater(s: State, call: Call)
    requires call.command.AdmitSlot? && ApplyAdmit(s, call).Ok?
    ensures LaterAt(s, ApplyAdmit(s, call).value.state, call.now)
  {
    AdmitCases(s, call);
    hide ApplyAdmit, LaterAt, MayConsume, DeliveryReady, OwnerAvailable, ReserveHolds, Consume;
    var c, s2 := call.command, Admitting(s, call.now);
    if c.intentId in s.intents {
      ClockLater(s, call.now);
    } else {
      var d :| AdmittedAs(s2, call.now, c, d, ApplyAdmit(s, call).value);
      ConsumeLater(s, call.now, c, d);
    }
  }

  lemma ClockLater(s: State, now: int)
    requires s.lastNow <= now
    ensures LaterAt(s, s.(lastNow := now), now)
  {
  }

  lemma ConsumeLater(s: State, now: int, c: Command, d: Decision)
    requires s.lastNow <= now && MayConsume(Admitting(s, now), now, c)
    ensures LaterAt(s, Consume(Admitting(s, now), now, c, d), now)
  {
    hide IsToken, AllSucceededBelow;
  }

  lemma RecordedLater(s: State, t: State, id: string, r: Completion)
    requires Recorded(s, t, id, r) && KeepsProofs(s, t)
    ensures LaterAt(s, t, s.lastNow)
  {
  }

  lemma OutcomeLater(s: State, now: int, c: Command)
    requires c.RecordOutcome? && ApplyOutcome(s, now, c).Ok? && s.lastNow == now
    requires MutuallyInverse(s.intents, s.slotIntent)
    requires ProofIsAnswer(s, DiscoveryProof, CephStatus) && ProofIsAnswer(s, RevalidationProof, Revalidation)
    ensures LaterAt(s, ApplyOutcome(s, now, c).value.state, now)
  {
    OutcomeCases(s, now, c);
    var r := ApplyOutcome(s, now, c).value;
    if !r.advice.replay {
      RecordedKeepsProofs(s, r.state, c.intentId, CompletionOf(c));
      RecordedLater(s, r.state, c.intentId, CompletionOf(c));
    }
  }

  lemma ExecuteRouteKeeps(s: State, now: int, c: Command)
    requires Inv(s) && s.lastNow == now && IsRouteCommand(c) && ExecuteRoute(s, now, c).Ok?
    ensures Inv(ExecuteRoute(s, now, c).value)
  {
    if c.PrepareCandidate? { PrepareKeeps(s, now, c); }
    else if c.SelectCandidate? { SelectKeeps(s, now, c); }
    else if c.RecordMerge? { MergeKeeps(s, c); }
    else if c.RecordReversal? { ReversalKeeps(s, c); }
    else { DeliveryKeeps(s, c); }
  }

  lemma ExecuteRouteLater(s: State, now: int, c: Command)
    requires SelectionSound(s) && s.lastNow == now && IsRouteCommand(c) && ExecuteRoute(s, now, c).Ok?
    ensures LaterAt(s, ExecuteRoute(s, now, c).value, now)
  {
    if c.PrepareCandidate? { PrepareLater(s, now, c); }
    else if c.SelectCandidate? { SelectLater(s, now, c); }
    else if c.RecordMerge? { MergeLater(s, c); }
    else if c.RecordReversal? { ReversalLater(s, c); }
    else { DeliveryLater(s, c); }
  }

  lemma ExecuteCleanupKeeps(s: State, call: Call)
    requires Inv(s) && (StagesItself(call.command) || s.lastNow == call.now)
    requires IsCleanupCommand(call.command) && ExecuteCleanup(s, call).Ok?
    ensures Inv(ExecuteCleanup(s, call).value)
  {
    var c, now := call.command, call.now;
    if c.ReserveCleanup? { ReserveKeeps(s, now, c); }
    else if c.RecordBlocker? { BlockerKeeps(s, now, c); }
    else if c.ResolveBlocker? { ResolveKeeps(s, call); }
    else if c.RecordResidual? { ResidualKeeps(s, now, c); }
    else { EvaluateKeeps(s, now, c); }
  }

  lemma ExecuteCleanupLater(s: State, call: Call)
    requires StagesItself(call.command) || s.lastNow == call.now
    requires IsCleanupCommand(call.command) && ExecuteCleanup(s, call).Ok?
    ensures LaterAt(s, ExecuteCleanup(s, call).value, call.now)
  {
    var c, now := call.command, call.now;
    if c.ReserveCleanup? { ReserveLater(s, now, c); }
    else if c.RecordBlocker? { BlockerLater(s, now, c); }
    else if c.ResolveBlocker? { ResolveLater(s, call); }
    else if c.RecordResidual? { ResidualLater(s, now, c); }
    else { EvaluateLater(s, now, c); }
  }

  lemma ExecuteKeeps(s: State, call: Call)
    requires Inv(s) && (StagesItself(call.command) || s.lastNow == call.now) && Execute(s, call).Ok?
    ensures Inv(Execute(s, call).value.state) && LaterAt(s, Execute(s, call).value.state, call.now)
  {
    var c, now := call.command, call.now;
    if c.AdmitSlot? {
      AdmitKeeps(s, call);
      AdmitLater(s, call);
    } else if c.RecordOutcome? {
      OutcomeKeeps(s, now, c);
      OutcomeLater(s, now, c);
    } else if IsRouteCommand(c) {
      ExecuteRouteKeeps(s, now, c);
      ExecuteRouteLater(s, now, c);
    } else {
      ExecuteCleanupKeeps(s, call);
      ExecuteCleanupLater(s, call);
    }
  }

  lemma ApplyKeeps(s: State, call: Call)
    requires Inv(s) && Apply(s, call).Ok?
    ensures var t := Apply(s, call).value.state;
            Inv(t) && LaterAt(s, t, call.now)
  {
    var s1 := Staged(s, call).value;
    StagedKeeps(s, call);
    ExecuteKeeps(s1, call);
    LaterTransitive(s, s1, Execute(s1, call).value.state);
  }

  lemma RevisionKeeps(s: State)
    requires Inv(s)
    ensures Inv(s.(revision := s.revision + 1))
  {
    var t := s.(revision := s.revision + 1);
    assert Readable(t);
    RevisionReads(s);
    RevisionRoute(s);
  }

  lemma RevisionReads(s: State)
    requires ReadsInv(s)
    ensures ReadsInv(s.(revision := s.revision + 1))
  {
    var t := s.(revision := s.revision + 1);
    assert forall x: Slot :: Succeeded(s, x) == Succeeded(t, x);
    assert forall a, b | AnsweredBefore(s, a, b) :: AnsweredBefore(t, a, b);
  }

  lemma RevisionRoute(s: State)
    requires RouteInv(s)
    ensures RouteInv(s.(revision := s.revision + 1))
  {
    var t := s.(revision := s.revision + 1);
    assert forall x: Slot :: Succeeded(s, x) == Succeeded(t, x);
    assert forall i | 0 <= i < |s.candidates| ::
      CandidateSound(s.candidates[i], s) ==> CandidateSound(t.candidates[i], t);
    if s.branch == Some(New) {
      var i :| OnlyCandidate(s, i);
      assert OnlyCandidate(t, i);
    }
  }

  // ---- Loading again, from any ledger that loads ----

  lemma ExecuteRouteLoads(s: State, now: int, c: Command)
    requires Readable(s) && IsRouteCommand(c) && ExecuteRoute(s, now, c).Ok?
    ensures Readable(ExecuteRoute(s, now, c).value)
  {
    hide Readable;
    LoadsCandidates(s);
    RouteFrame(s, now, c);
    LoadsUnchanged(s, ExecuteRoute(s, now, c).value);
  }

  lemma LoadsCandidates(s: State)
    requires Readable(s)
    ensures |s.candidates| <= MAX_CANDIDATES
  {
  }

  lemma RouteFrame(s: State, now: int, c: Command)
    requires IsRouteCommand(c) && ExecuteRoute(s, now, c).Ok? && |s.candidates| <= MAX_CANDIDATES
    ensures var t := ExecuteRoute(s, now, c).value;
            SameReads(s, t) && SameCleanup(s, t) && |t.candidates| <= MAX_CANDIDATES
  {
  }

  lemma ExecuteCleanupLoads(s: State, call: Call)
    requires Readable(s) && IsCleanupCommand(call.command) && ExecuteCleanup(s, call).Ok?
    ensures Readable(ExecuteCleanup(s, call).value)
  {
    var c, now := call.command, call.now;
    LoadsCandidates(s);
    hide Readable;
    if c.ReserveCleanup? { LoadsUnchanged(s, ApplyReserve(s, now, c).value); }
    else if c.RecordBlocker? { BlockerLoadsAgain(s, now, c); }
    else if c.ResolveBlocker? { ResolveLoads(s, call); }
    else if c.RecordResidual? { ResidualLoads(s, now, c); }
    else { EvaluateLoads(s, now, c); }
  }

  lemma AdmitLoads(s: State, call: Call)
    requires Readable(s) && call.command.AdmitSlot? && ApplyAdmit(s, call).Ok?
    ensures Readable(ApplyAdmit(s, call).value.state)
  {
    var c, r, s2 := call.command, ApplyAdmit(s, call).value, Admitting(s, call.now);
    AdmitCases(s, call);
    hide Readable, ApplyAdmit, MayConsume, OwnerAvailable, MetricsDeadlines;
    LoadsUnderClock(s, s.(lastNow := call.now));
    if c.intentId !in s.intents {
      LoadsUnderClock(s, s2);
      var d: Decision :| AdmittedAs(s2, call.now, c, d, r);
      ConsumeLoads(s2, call.now, c, d);
    }
  }

  lemma OutcomeLoads(s: State, now: int, c: Command)
    requires Readable(s) && s.lastNow == now && c.RecordOutcome? && ApplyOutcome(s, now, c).Ok?
    ensures Readable(ApplyOutcome(s, now, c).value.state)
  {
    hide Readable;
    OutcomeCases(s, now, c);
    var r := ApplyOutcome(s, now, c).value;
    if !r.advice.replay { RecordedLoads(s, r.state, c.intentId, CompletionOf(c)); }
  }

  lemma StagedClock(s: State, call: Call)
    requires Staged(s, call).Ok?
    ensures OnlyClock(s, Staged(s, call).value)
    ensures StagesItself(call.command) || Staged(s, call).value.lastNow == call.now
  {
  }

  lemma ApplyLoads(s: State, call: Call)
    requires Readable(s) && Apply(s, call).Ok?
    ensures Readable(Apply(s, call).value.state)
  {
    var s1 := Staged(s, call).value;
    hide Readable, Staged, OnlyClock, ApplyAdmit, ApplyOutcome, ExecuteRoute, ExecuteCleanup;
    StagedClock(s, call);
    LoadsUnderClock(s, s1);
    if call.command.AdmitSlot? { AdmitLoads(s1, call); }
    else if call.command.RecordOutcome? { OutcomeLoads(s1, call.now, call.command); }
    else if IsRouteCommand(call.command) { ExecuteRouteLoads(s1, call.now, call.command); }
    else { ExecuteCleanupLoads(s1, call); }
  }
}
