/** Every command keeps the invariant and only adds to what the ledger already records. */
module LedgerSteps {
  import opened Common
  import opened LedgerModel
  import opened LedgerInvariant

  /** A step that leaves the reads alone. */
  ghost predicate SameReads(s: State, t: State) {
    && t.lastNow == s.lastNow && t.binding == s.binding && t.contract == s.contract && t.revision == s.revision
    && t.proof == s.proof && t.intents == s.intents && t.slotIntent == s.slotIntent
  }

  lemma ReadsUnchanged(s: State, t: State)
    requires ReadsInv(s) && SameReads(s, t)
    ensures ReadsInv(t)
    ensures forall x: Slot :: Succeeded(s, x) == Succeeded(t, x)
  {
    assert forall x: Slot :: Succeeded(s, x) == Succeeded(t, x);
    assert forall a, b | AnsweredBefore(s, a, b) :: AnsweredBefore(t, a, b);
  }

  /** A step that leaves reads and route alone. */
  ghost predicate SameRoute(s: State, t: State) {
    && SameReads(s, t) && t.candidates == s.candidates && t.branch == s.branch && t.merge == s.merge
    && t.delivery == s.delivery && t.selectedHead == s.selectedHead && t.selectedManager == s.selectedManager
    && t.selectedEndpoint == s.selectedEndpoint
  }

  lemma RouteUnchanged(s: State, t: State)
    requires ReadsInv(s) && RouteInv(s) && SameRoute(s, t)
    ensures ReadsInv(t) && RouteInv(t)
  {
    ReadsUnchanged(s, t);
    assert forall i | 0 <= i < |s.candidates| ::
      CandidateSound(s.candidates[i], s) ==> CandidateSound(t.candidates[i], t);
    if s.branch == Some(New) {
      var i :| OnlyCandidate(s, i);
      assert OnlyCandidate(t, i);
    }
  }

  /** A step that leaves the cleanup records alone. */
  ghost predicate SameCleanup(s: State, t: State) {
    && t.cleanup.grants == s.cleanup.grants && t.cleanup.evaluation == s.cleanup.evaluation
    && t.blockers == s.blockers && t.owner == s.owner && t.binding == s.binding && t.lastNow == s.lastNow
  }

  lemma CleanupUnchanged(s: State, t: State)
    requires CleanupInv(s) && SameCleanup(s, t)
    ensures CleanupInv(t)
  {
  }

  /** Loading depends on the reads, on the grants and blockers, and on how many candidates there are. */
  lemma LoadsUnchanged(s: State, t: State)
    requires Readable(s) && SameReads(s, t) && |t.candidates| <= MAX_CANDIDATES
    requires t.cleanup.grants == s.cleanup.grants && t.blockers == s.blockers
    ensures Readable(t)
  {
  }

  /** Assembles the parts for a step that leaves the reads alone. */
  lemma Assemble(s: State, t: State)
    requires Inv(s) && SameReads(s, t) && Readable(t) && RouteInv(t) && CleanupInv(t)
    ensures Inv(t)
  {
    ReadsUnchanged(s, t);
  }

  // ---- reserve-cleanup ----

  lemma ReserveKeeps(s: State, now: int, c: Command)
    requires Inv(s) && c.ReserveCleanup? && ApplyReserve(s, now, c).Ok?
    ensures Inv(ApplyReserve(s, now, c).value)
  {
    var t := ApplyReserve(s, now, c).value;
    RouteUnchanged(s, t);
    CleanupUnchanged(s, t);
    LoadsUnchanged(s, t);
    Assemble(s, t);
  }

  // ---- prepare-candidate ----

  lemma PrepareRoute(s: State, now: int, c: Command)
    requires RouteInv(s) && ReadsInv(s) && s.lastNow == now && c.PrepareCandidate? && ApplyPrepare(s, now, c).Ok?
    ensures RouteInv(ApplyPrepare(s, now, c).value)
  {
    var t := ApplyPrepare(s, now, c).value;
    forall i | 0 <= i < |t.candidates|
      ensures CandidateSound(t.candidates[i], t)
    {
      if i < |s.candidates| { assert CandidateSound(s.candidates[i], s); }
    }
  }

  lemma PrepareKeeps(s: State, now: int, c: Command)
    requires Inv(s) && s.lastNow == now && c.PrepareCandidate? && ApplyPrepare(s, now, c).Ok?
    ensures Inv(ApplyPrepare(s, now, c).value)
  {
    var t := ApplyPrepare(s, now, c).value;
    hide ReadsInv, RouteInv, CleanupInv, IsHex, IsToken, IsEndpoint;
    PrepareRoute(s, now, c);
    CleanupUnchanged(s, t);
    LoadsUnchanged(s, t);
    Assemble(s, t);
  }

  // ---- select-candidate, record-merge, record-reversal, observe-delivery ----

  lemma {:induction false} EligibleFinds(cs: seq<Candidate>, p: Proof)
    ensures |Eligible(cs, p)| == 0 ==> forall j | 0 <= j < |cs| :: !OnRoute(cs[j], p)
    ensures |Eligible(cs, p)| == 1 ==>
              exists i :: 0 <= i < |cs| && OnRoute(cs[i], p) && Eligible(cs, p) == [cs[i]]
                          && forall j | 0 <= j < |cs| && j != i :: !OnRoute(cs[j], p)
  {
    if cs != [] {
      EligibleFinds(cs[1..], p);
      if OnRoute(cs[0], p) {
        if |Eligible(cs, p)| == 1 {
          assert Eligible(cs[1..], p) == [];
          assert forall j | 0 < j < |cs| :: cs[j] == cs[1..][j - 1];
          assert Eligible(cs, p) == [cs[0]];
        }
      } else {
        assert Eligible(cs, p) == Eligible(cs[1..], p);
        assert forall j | 0 < j < |cs| :: cs[j] == cs[1..][j - 1];
        if |Eligible(cs, p)| == 1 {
          var i :| 0 <= i < |cs[1..]| && OnRoute(cs[1..][i], p) && Eligible(cs[1..], p) == [cs[1..][i]]
                   && forall j | 0 <= j < |cs[1..]| && j != i :: !OnRoute(cs[1..][j], p);
          assert OnRoute(cs[i + 1], p) && Eligible(cs, p) == [cs[i + 1]];
        }
      }
    }
  }

  /** Candidates stay sound under a step that leaves the reads and the candidates alone. */
  lemma CandidatesUnchanged(s: State, t: State)
    requires CandidatesSound(s) && SameReads(s, t) && t.candidates == s.candidates
    ensures CandidatesSound(t)
  {
    forall i | 0 <= i < |t.candidates|
      ensures CandidateSound(t.candidates[i], t)
    {
      assert CandidateSound(s.candidates[i], s);
    }
  }

  lemma MetricsUnchanged(s: State, t: State)
    requires MetricsSound(s) && SameReads(s, t)
    ensures MetricsSound(t)
  {
  }

  /** A step that changes only the selection, the merge, the delivery or the reversal. */
  lemma RouteStep(s: State, t: State)
    requires Inv(s) && SameReads(s, t) && SameCleanup(s, t) && t.candidates == s.candidates && SelectionSound(t)
    ensures Inv(t)
  {
    CandidatesUnchanged(s, t);
    MetricsUnchanged(s, t);
    CleanupUnchanged(s, t);
    LoadsUnchanged(s, t);
    Assemble(s, t);
  }

  lemma SelectedNew(s: State, now: int, c: Command)
    requires c.SelectCandidate? && ApplySelect(s, now, c).Ok? && c.branch == New
    ensures exists i :: OnlyCandidate(ApplySelect(s, now, c).value, i)
  {
    var p := s.proof[DiscoveryProof];
    EligibleFinds(s.candidates, p);
    var i :| 0 <= i < |s.candidates| && OnRoute(s.candidates[i], p) && Eligible(s.candidates, p) == [s.candidates[i]]
             && forall j | 0 <= j < |s.candidates| && j != i :: !OnRoute(s.candidates[j], p);
    assert OnlyCandidate(ApplySelect(s, now, c).value, i);
  }

  lemma SelectRoute(s: State, now: int, c: Command)
    requires SelectionSound(s) && c.SelectCandidate? && ApplySelect(s, now, c).Ok?
    ensures SelectionSound(ApplySelect(s, now, c).value)
  {
    var t := ApplySelect(s, now, c).value;
    assert forall x: Slot :: Succeeded(s, x) == Succeeded(t, x);
    if c.branch == New { SelectedNew(s, now, c); }
    assert SelectedRoute(t);
  }

  lemma SelectFrame(s: State, now: int, c: Command)
    requires c.SelectCandidate? && ApplySelect(s, now, c).Ok?
    ensures var t := ApplySelect(s, now, c).value;
            SameReads(s, t) && SameCleanup(s, t) && t.candidates == s.candidates
  {
  }

  lemma SelectKeeps(s: State, now: int, c: Command)
    requires Inv(s) && c.SelectCandidate? && ApplySelect(s, now, c).Ok?
    ensures Inv(ApplySelect(s, now, c).value)
  {
    SelectRoute(s, now, c);
    SelectFrame(s, now, c);
    RouteStep(s, ApplySelect(s, now, c).value);
  }

  lemma MergeRoute(s: State, c: Command)
    requires SelectionSound(s) && c.RecordMerge? && ApplyMerge(s, c).Ok?
    ensures SelectionSound(ApplyMerge(s, c).value)
  {
    var t := ApplyMerge(s, c).value;
    assert forall x: Slot :: Succeeded(s, x) == Succeeded(t, x);
    var i :| OnlyCandidate(s, i);
    assert OnlyCandidate(t, i);
  }

  lemma MergeFrame(s: State, c: Command)
    requires c.RecordMerge? && ApplyMerge(s, c).Ok?
    ensures var t := ApplyMerge(s, c).value;
            SameReads(s, t) && SameCleanup(s, t) && t.candidates == s.candidates
  {
  }

  lemma MergeKeeps(s: State, c: Command)
    requires Inv(s) && c.RecordMerge? && ApplyMerge(s, c).Ok?
    ensures Inv(ApplyMerge(s, c).value)
  {
    MergeRoute(s, c);
    MergeFrame(s, c);
    RouteStep(s, ApplyMerge(s, c).value);
  }

  lemma ReversalKeeps(s: State, c: Command)
    requires Inv(s) && c.RecordReversal? && ApplyReversal(s, c).Ok?
    ensures Inv(ApplyReversal(s, c).value)
  {
    var t := ApplyReversal(s, c).value;
    RouteUnchanged(s, t);
    CleanupUnchanged(s, t);
    LoadsUnchanged(s, t);
    Assemble(s, t);
  }

  lemma DeliveryRoute(s: State, c: Command)
    requires SelectionSound(s) && c.ObserveDelivery? && ApplyDelivery(s, c).Ok?
    ensures SelectionSound(ApplyDelivery(s, c).value)
  {
    var t := ApplyDelivery(s, c).value;
    assert forall x: Slot :: Succeeded(s, x) == Succeeded(t, x);
    if s.branch == Some(New) {
      var i :| OnlyCandidate(s, i);
      assert OnlyCandidate(t, i);
    }
  }

  lemma DeliveryFrame(s: State, c: Command)
    requires c.ObserveDelivery? && ApplyDelivery(s, c).Ok?
    ensures var t := ApplyDelivery(s, c).value;
            SameReads(s, t) && SameCleanup(s, t) && t.candidates == s.candidates
  {
  }

  lemma DeliveryKeeps(s: State, c: Command)
    requires Inv(s) && c.ObserveDelivery? && ApplyDelivery(s, c).Ok?
    ensures Inv(ApplyDelivery(s, c).value)
  {
    DeliveryRoute(s, c);
    DeliveryFrame(s, c);
    RouteStep(s, ApplyDelivery(s, c).value);
  }

  // ---- record-blocker, resolve-blocker ----

  /** A step that changes only the clock, the cleanup records, the blockers and the owner. */
  lemma CleanupStep(s: State, t: State)
    requires Inv(s) && s.lastNow <= t.lastNow && SameRoute(s.(lastNow := t.lastNow), t)
    requires Readable(t) && CleanupInv(t)
    ensures Inv(t)
  {
    var s1 := s.(lastNow := t.lastNow);
    ReadsUnderClock(s, s1);
    RouteUnderClock(s, s1);
    RouteUnchanged(s1, t);
  }

  lemma BlockerLoadsAgain(s: State, now: int, c: Command)
    requires Readable(s) && c.RecordBlocker? && ApplyBlocker(s, now, c).Ok?
    ensures Readable(ApplyBlocker(s, now, c).value)
  {
  }

  lemma BlockerCleanup(s: State, now: int, c: Command)
    requires CleanupInv(s) && s.lastNow == now && c.RecordBlocker? && ApplyBlocker(s, now, c).Ok?
    ensures CleanupInv(ApplyBlocker(s, now, c).value)
  {
    var t := ApplyBlocker(s, now, c).value;
    assert t.blockers[|s.blockers|].kind == c.kind;
    if s.owner.lost {
      var i :| 0 <= i < |s.blockers| && s.blockers[i].kind == LostOwner;
      assert t.blockers[i].kind == LostOwner;
    }
  }

  lemma BlockerKeeps(s: State, now: int, c: Command)
    requires Inv(s) && s.lastNow == now && c.RecordBlocker? && ApplyBlocker(s, now, c).Ok?
    ensures Inv(ApplyBlocker(s, now, c).value)
  {
    BlockerCleanup(s, now, c);
    BlockerLoadsAgain(s, now, c);
    CleanupStep(s, ApplyBlocker(s, now, c).value);
  }

  lemma ResolveCleanup(s: State, call: Call)
    requires CleanupInv(s) && call.command.ResolveBlocker? && ApplyResolve(s, call).Ok?
    ensures CleanupInv(ApplyResolve(s, call).value)
  {
  }

  lemma ResolveLoads(s: State, call: Call)
    requires Readable(s) && call.command.ResolveBlocker? && ApplyResolve(s, call).Ok?
    ensures Readable(ApplyResolve(s, call).value)
  {
  }

  lemma ResolveFrame(s: State, call: Call)
    requires call.command.ResolveBlocker? && ApplyResolve(s, call).Ok?
    ensures var t := ApplyResolve(s, call).value;
            s.lastNow <= t.lastNow && SameRoute(s.(lastNow := t.lastNow), t)
  {
  }

  lemma ResolveKeeps(s: State, call: Call)
    requires Inv(s) && call.command.ResolveBlocker? && ApplyResolve(s, call).Ok?
    ensures Inv(ApplyResolve(s, call).value)
  {
    ResolveCleanup(s, call);
    ResolveLoads(s, call);
    ResolveFrame(s, call);
    CleanupStep(s, ApplyResolve(s, call).value);
  }

  // ---- record-residual, evaluate-clean ----

  lemma ResidualLoads(s: State, now: int, c: Command)
    requires Readable(s) && c.RecordResidual? && ApplyResidual(s, now, c).Ok?
    ensures Readable(ApplyResidual(s, now, c).value)
  {
  }

  lemma ResidualCleanup(s: State, now: int, c: Command)
    requires CleanupInv(s) && s.lastNow == now && c.RecordResidual? && ApplyResidual(s, now, c).Ok?
    ensures CleanupInv(ApplyResidual(s, now, c).value)
  {
  }

  lemma ResidualFrame(s: State, now: int, c: Command)
    requires c.RecordResidual? && ApplyResidual(s, now, c).Ok?
    ensures var t := ApplyResidual(s, now, c).value;
            s.lastNow <= t.lastNow && SameRoute(s.(lastNow := t.lastNow), t)
  {
  }

  lemma ResidualKeeps(s: State, now: int, c: Command)
    requires Inv(s) && s.lastNow == now && c.RecordResidual? && ApplyResidual(s, now, c).Ok?
    ensures Inv(ApplyResidual(s, now, c).value)
  {
    ResidualCleanup(s, now, c);
    ResidualLoads(s, now, c);
    ResidualFrame(s, now, c);
    CleanupStep(s, ApplyResidual(s, now, c).value);
  }

  lemma CleanMeansGone(rows: seq<AuditRow>, gs: seq<Grant>)
    requires RowUids(rows) == GrantUids(gs) && RowsDescribe(rows, gs)
    requires forall i | 0 <= i < |rows| :: !rows[i].active && !rows[i].cnpPresent
    ensures forall j | 0 <= j < |gs| :: GrantGone(gs[j])
  {
    forall j | 0 <= j < |gs|
      ensures GrantGone(gs[j])
    {
      assert gs[j].uid in GrantUids(gs);
      assert gs[j].uid in RowUids(rows);
      var i :| 0 <= i < |rows| && rows[i].uid == gs[j].uid;
      assert SameObservation(rows[i], gs[j]);
    }
  }

  lemma EvaluateCleanup(s: State, now: int, c: Command)
    requires CleanupInv(s) && c.EvaluateClean? && ApplyEvaluate(s, now, c).Ok?
    ensures CleanupInv(ApplyEvaluate(s, now, c).value)
  {
    if AuditClean(c.audit) { CleanMeansGone(c.audit.grants, s.cleanup.grants); }
  }

  lemma EvaluateLoads(s: State, now: int, c: Command)
    requires Readable(s) && c.EvaluateClean? && ApplyEvaluate(s, now, c).Ok?
    ensures Readable(ApplyEvaluate(s, now, c).value)
  {
  }

  lemma EvaluateFrame(s: State, now: int, c: Command)
    requires c.EvaluateClean? && ApplyEvaluate(s, now, c).Ok?
    ensures var t := ApplyEvaluate(s, now, c).value;
            s.lastNow <= t.lastNow && SameRoute(s.(lastNow := t.lastNow), t)
  {
  }

  lemma EvaluateKeeps(s: State, now: int, c: Command)
    requires Inv(s) && c.EvaluateClean? && ApplyEvaluate(s, now, c).Ok?
    ensures Inv(ApplyEvaluate(s, now, c).value)
  {
    EvaluateCleanup(s, now, c);
    EvaluateLoads(s, now, c);
    EvaluateFrame(s, now, c);
    CleanupStep(s, ApplyEvaluate(s, now, c).value);
  }
}
