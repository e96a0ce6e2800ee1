/** What the intent ledger promises over every run. */
module LedgerTheorems {
  import opened Common
  import opened LedgerModel
  import opened LedgerInvariant
  import opened LedgerReads
  import opened LedgerRuns

  // ---- Runs ----

  /** The stored ledger after one call: a refused call leaves it as it was. */
  function After(size: State -> nat, s: State, call: Call): State {
    var r := Cas(size, s, call);
    if r.Ok? then r.value.state else s
  }

  function Run(size: State -> nat, s: State, calls: seq<Call>): State
    decreases |calls|
  {
    if calls == [] then s else After(size, Run(size, s, calls[..|calls| - 1]), calls[|calls| - 1])
  }

  /** The answer to call number i of a run. */
  function Reply(size: State -> nat, s: State, calls: seq<Call>, i: nat): Result<Accepted, Refusal>
    requires i < |calls|
  {
    Cas(size, Run(size, s, calls[..i]), calls[i])
  }

  ghost predicate Dispatches(r: Result<Accepted, Refusal>) { r.Ok? && r.value.advice.dispatch }

  // ---- One call ----

  lemma InitialHolds(size: State -> nat, c: InitCall)
    requires Initial(size, c).Ok?
    ensures Inv(Initial(size, c).value) && size(Initial(size, c).value) <= MAX_LEDGER_BYTES
  {
    FreshLoads(size, c);
    FreshReads(c);
    FreshRoute(size, c);
    hide Readable, ReadsInv, RouteInv, AllEndpoints, Distinct;
    assert CleanupInv(Fresh(c));
  }

  lemma FreshLoads(size: State -> nat, c: InitCall)
    requires Initial(size, c).Ok?
    ensures Readable(Fresh(c))
  {
    hide AllEndpoints;
    CoveredIsSmall(c.covered, c.endpoints);
  }

  lemma {:induction false} CoveredIsSmall(xs: seq<string>, ys: seq<string>)
    requires Distinct(xs) && forall e | e in xs :: e in ys
    ensures |xs| <= |ys|
  {
    if xs != [] {
      assert xs[0] in ys;
      var k :| 0 <= k < |ys| && ys[k] == xs[0];
      var less := ys[..k] + ys[k + 1..];
      forall e | e in xs[1..]
        ensures e in less
      {
        var i :| 0 <= i < |xs[1..]| && xs[1..][i] == e;
        assert xs[i + 1] == e && xs[i + 1] != xs[0];
        assert e in xs && e in ys;
        var j :| 0 <= j < |ys| && ys[j] == e;
        assert e == if j < k then less[j] else less[j - 1];
      }
      CoveredIsSmall(xs[1..], less);
    }
  }

  lemma FreshReads(c: InitCall)
    ensures ReadsInv(Fresh(c))
  {
  }

  lemma FreshRoute(size: State -> nat, c: InitCall)
    requires Initial(size, c).Ok?
    ensures RouteInv(Fresh(c))
  {
    hide AllEndpoints;
  }

  lemma InvParts(s: State)
    requires Inv(s)
    ensures Loads(s) && ReadsInv(s) && RouteInv(s) && CleanupInv(s)
  {
    hide Readable, ReadsInv, RouteInv, CleanupInv;
    ReadableLoads(s);
  }

  lemma LaterKeepsProofs(s: State, t: State)
    requires Later(s, t)
    ensures KeepsProofs(s, t)
  {
  }

  /** The guard against changed proofs and the load checks never refuse a call on a reachable ledger. */
  lemma OnlyRealRefusals(size: State -> nat, s: State, call: Call)
    requires Inv(s) && size(s) <= MAX_LEDGER_BYTES
    requires call.now >= 0 && call.stageBudget > 0 && call.caller == s.binding && call.expectRevision == s.revision
    ensures Cas(size, s, call) == Store(size, s, Apply(s, call))
    ensures Apply(s, call).Ok? ==> KeepsProofs(s, Apply(s, call).value.state)
  {
    hide Inv, Loads, Later, Apply, IsBinding, KeepsProofs, Store;
    InvParts(s);
    LoadsBinding(s);
    if Apply(s, call).Ok? {
      ApplyKeeps(s, call);
      LaterKeepsProofs(s, Apply(s, call).value.state);
    }
  }

  lemma LoadsBinding(s: State)
    requires Loads(s)
    ensures IsBinding(s.binding)
  {
  }

  /** Whatever an accepted call writes loads again, one revision later, with a clock that did not go back. */
  lemma CasKeeps(size: State -> nat, s: State, call: Call)
    requires Inv(s) && Cas(size, s, call).Ok?
    ensures var t := Cas(size, s, call).value.state;
            && Inv(t) && Later(s, t) && Loads(t) && size(t) <= MAX_LEDGER_BYTES
            && t.revision == s.revision + 1 == call.expectRevision + 1 && s.lastNow <= t.lastNow == call.now
  {
    hide Inv, Loads, Later, Apply, IsBinding, KeepsProofs;
    ApplyKeeps(s, call);
    RevisionKeeps(Apply(s, call).value.state);
    LaterRevision(s, Apply(s, call).value.state);
    InvParts(Cas(size, s, call).value.state);
    LaterClock(s, Apply(s, call).value.state);
  }

  lemma CasStores(size: State -> nat, s: State, call: Call)
    requires Cas(size, s, call).Ok?
    ensures Loads(s) && Apply(s, call).Ok?
    ensures var t, a := Cas(size, s, call).value.state, Apply(s, call).value.state;
            t == a.(revision := a.revision + 1) && size(t) <= MAX_LEDGER_BYTES
  {
    hide Apply, KeepsProofs, Loads, IsBinding;
  }

  lemma RevisionReadable(s: State)
    requires Readable(s)
    ensures Readable(s.(revision := s.revision + 1))
  {
    hide AllEndpoints, BlockerLoads, GrantLoads, IntentLoads, ProofLoads, MutuallyInverse, IsToken, IsBinding;
  }

  /** Even from a ledger no run reaches, such as one with blockers of the earlier format, what is written loads. */
  lemma WrittenLoadsAgain(size: State -> nat, s: State, call: Call)
    requires Cas(size, s, call).Ok?
    ensures Loads(s) && Loads(Cas(size, s, call).value.state)
            && size(Cas(size, s, call).value.state) <= MAX_LEDGER_BYTES
  {
    CasStores(size, s, call);
    assert Readable(s);
    hide Apply, Cas, Readable;
    ApplyLoads(s, call);
    RevisionReadable(Apply(s, call).value.state);
    ReadableLoads(Cas(size, s, call).value.state);
  }

  lemma LaterClock(s: State, t: State)
    requires Later(s, t)
    ensures s.lastNow <= t.lastNow && s.revision <= t.revision
  {
  }

  lemma LaterRevision(s: State, t: State)
    requires Later(s, t)
    ensures Later(s, t.(revision := t.revision + 1))
  {
  }

  lemma LaterReflexive(s: State)
    ensures Later(s, s)
  {
  }

  lemma {:induction false} RunKeeps(size: State -> nat, s: State, calls: seq<Call>)
    requires Inv(s)
    ensures Inv(Run(size, s, calls)) && Later(s, Run(size, s, calls))
    decreases |calls|
  {
    hide Inv, Loads, Later, Cas;
    if calls == [] {
      LaterReflexive(s);
    } else {
      var before := calls[..|calls| - 1];
      RunKeeps(size, s, before);
      var m := Run(size, s, before);
      if Cas(size, m, calls[|calls| - 1]).Ok? {
        CasKeeps(size, m, calls[|calls| - 1]);
        LaterTransitive(s, m, After(size, m, calls[|calls| - 1]));
      }
    }
  }

  /** A longer run continues a shorter one. */
  lemma {:induction false} RunContinues(size: State -> nat, s: State, calls: seq<Call>, i: nat)
    requires i <= |calls|
    ensures Run(size, s, calls) == Run(size, Run(size, s, calls[..i]), calls[i..])
    decreases |calls|
  {
    if i == |calls| {
      assert calls[..i] == calls;
    } else {
      var before := calls[..|calls| - 1];
      RunContinues(size, s, before, i);
      assert before[..i] == calls[..i];
      var rest := calls[i..];
      assert rest[..|rest| - 1] == before[i..];
    }
  }

  /** After a call that was accepted, the run goes on from the ledger that call wrote. */
  lemma {:induction false} RunAfter(size: State -> nat, s: State, calls: seq<Call>, i: nat, j: nat)
    requires Inv(s) && i < j < |calls| && Reply(size, s, calls, i).Ok?
    ensures var t := Reply(size, s, calls, i).value.state;
            Inv(t) && Inv(Run(size, s, calls[..j])) && Later(t, Run(size, s, calls[..j]))
  {
    hide Inv, Loads, Later, Cas;
    RunKeeps(size, s, calls[..i]);
    RunKeeps(size, s, calls[..j]);
    CasKeeps(size, Run(size, s, calls[..i]), calls[i]);
    var t := Reply(size, s, calls, i).value.state;
    var upto := calls[..j];
    RunContinues(size, s, upto, i + 1);
    var first := upto[..i + 1];
    assert first[..|first| - 1] == calls[..i] && first[|first| - 1] == calls[i];
    assert Run(size, s, first) == t;
    RunKeeps(size, t, upto[i + 1..]);
  }

  // ---- Revisions ----

  /** Of two accepted calls the later one named a higher revision: nobody wins twice with the same one. */
  lemma OneWinnerPerRevision(size: State -> nat, s: State, calls: seq<Call>, i: nat, j: nat)
    requires Inv(s) && i < j < |calls| && Reply(size, s, calls, i).Ok? && Reply(size, s, calls, j).Ok?
    ensures calls[i].expectRevision < calls[j].expectRevision
    ensures calls[i].now <= calls[j].now
  {
    hide Inv, Loads, Later, Cas;
    RunKeeps(size, s, calls[..i]);
    CasKeeps(size, Run(size, s, calls[..i]), calls[i]);
    RunAfter(size, s, calls, i, j);
    LaterClock(Reply(size, s, calls, i).value.state, Run(size, s, calls[..j]));
    CasKeeps(size, Run(size, s, calls[..j]), calls[j]);
  }

  // ---- Slots ----

  lemma EarlierSucceeded(s: State, a: Slot, b: Slot)
    requires InOrder(s) && b in s.slotIntent && Rank(a) < Rank(b)
    ensures Succeeded(s, a) && a in s.slotIntent
  {
    assert a in ALL_SLOTS && AllSucceededBelow(s, Rank(b));
  }

  /** The number of consumed slots. */
  function ConsumedCount(s: State): nat {
    if Version !in s.slotIntent then 0
    else if Permissions !in s.slotIntent then 1
    else if CephStatus !in s.slotIntent then 2
    else if CephPool !in s.slotIntent then 3
    else if Revalidation !in s.slotIntent then 4
    else if Metrics !in s.slotIntent then 5
    else 6
  }

  lemma OrderIsAPrefix(s: State)
    requires InOrder(s)
    ensures forall x: Slot :: x in s.slotIntent <==> Rank(x) < ConsumedCount(s)
    ensures forall x: Slot | Rank(x) + 1 < ConsumedCount(s) :: Succeeded(s, x)
  {
    forall a: Slot, b: Slot | b in s.slotIntent && Rank(a) < Rank(b)
      ensures Succeeded(s, a) && a in s.slotIntent
    {
      EarlierSucceeded(s, a, b);
    }
    hide InOrder, Succeeded;
  }

  /** Consumed slots are a prefix of the fixed order and all but the last one succeeded. */
  lemma ConsumedSlotsFormAPrefix(size: State -> nat, s: State, calls: seq<Call>)
    requires Inv(s)
    ensures var t := Run(size, s, calls);
            && (forall x: Slot :: x in t.slotIntent <==> Rank(x) < ConsumedCount(t))
            && (forall x: Slot | Rank(x) + 1 < ConsumedCount(t) :: Succeeded(t, x))
            && MutuallyInverse(t.intents, t.slotIntent) && ConsumedCount(s) <= ConsumedCount(t)
  {
    hide Inv, Later, InOrder, Succeeded, MutuallyInverse, ConsumedCount;
    RunKeeps(size, s, calls);
    InvOrder(Run(size, s, calls));
    OrderIsAPrefix(Run(size, s, calls));
    LaterCount(s, Run(size, s, calls));
  }

  lemma LaterCount(s: State, t: State)
    requires Later(s, t)
    requires forall x: Slot :: x in t.slotIntent <==> Rank(x) < ConsumedCount(t)
    ensures ConsumedCount(s) <= ConsumedCount(t)
  {
    hide KeepsProofs, IntentKept, BlockerKept, GrantKept;
  }

  ghost predicate Interval(s: State, x: Slot, from: int, to: int) {
    && Succeeded(s, x) && IntentOf(s, x).result.value.requestAt == Some(from)
    && IntentOf(s, x).result.value.observedAt == Some(to)
  }

  /** Successful reads occupy intervals of time in slot order; two of them share at most one instant. */
  lemma IntervalsFollowTheSlots(s: State, a: Slot, b: Slot)
    requires Inv(s) && Succeeded(s, a) && Succeeded(s, b) && Rank(a) < Rank(b)
    ensures exists fa, ta, fb, tb ::
              Interval(s, a, fa, ta) && Interval(s, b, fb, tb) && fa <= ta <= fb <= tb <= s.lastNow
  {
    assert AnsweredBefore(s, a, b);
    assert IntentSound(IntentOf(s, a), s.lastNow) && IntentSound(IntentOf(s, b), s.lastNow);
    var ra, rb := IntentOf(s, a).result.value, IntentOf(s, b).result.value;
    assert Interval(s, a, ra.requestAt.value, ra.observedAt.value);
    assert Interval(s, b, rb.requestAt.value, rb.observedAt.value);
  }

  /** The later read starts strictly after the earlier one was observed exactly when its slot was admitted after that
      observation, or its request came after its own admission. */
  lemma DisjointExactlyWhen(s: State, a: Slot, b: Slot, fa: int, ta: int, fb: int, tb: int)
    requires Inv(s) && Rank(a) < Rank(b) && Interval(s, a, fa, ta) && Interval(s, b, fb, tb)
    ensures ta < fb <==> ta < IntentOf(s, b).admittedAt || IntentOf(s, b).admittedAt < fb
    ensures ta <= IntentOf(s, b).admittedAt <= fb
  {
    assert AnsweredBefore(s, a, b);
    assert IntentSound(IntentOf(s, b), s.lastNow);
  }

  // ---- Dispatch ----

  /** A dispatch is always the first admission of its slot, on a ledger whose owner is there and whose every blocker was
      resolved. */
  lemma DispatchConsumes(size: State -> nat, s: State, call: Call)
    requires Inv(s) && Dispatches(Cas(size, s, call))
    ensures call.command.AdmitSlot? && call.command.slot !in s.slotIntent && call.command.intentId !in s.intents
    ensures s.owner.kind == Persistent && s.owner.ready && s.owner.live && !s.owner.lost
    ensures forall i | 0 <= i < |s.blockers| :: s.blockers[i].meta.Some? && s.blockers[i].meta.value.resolution.Some?
    ensures OwnerAvailable(s) && AllSucceededBelow(s, Rank(call.command.slot))
    ensures var t := Cas(size, s, call).value.state;
            Consumed(t, call.command.slot) && IntentOf(t, call.command.slot).dispatch
            && IntentOf(t, call.command.slot).admittedAt == call.now
  {
    hide Inv, ApplyAdmit, ApplyOutcome, ExecuteRoute, ExecuteCleanup, NormalStage, Loads;
    if call.command.AdmitSlot? {
      AdmitFirst(s, call);
    } else if call.command.RecordOutcome? {
      OutcomeCases(Staged(s, call).value, call.now, call.command);
    }
  }

  /** What a dispatching admission found and what it leaves. */
  lemma AdmitFirst(s: State, call: Call)
    requires call.command.AdmitSlot? && ApplyAdmit(s, call).Ok? && ApplyAdmit(s, call).value.advice.dispatch
    ensures var c, t := call.command, ApplyAdmit(s, call).value.state;
            && c.slot !in s.slotIntent && c.intentId !in s.intents
            && OwnerAvailable(s) && AllSucceededBelow(s, Rank(c.slot)) && (!IsDiscovery(c.slot) ==> DeliveryReady(s))
            && Consumed(t, c.slot) && IntentOf(t, c.slot).dispatch && IntentOf(t, c.slot).admittedAt == call.now
  {
    AdmitCases(s, call);
    hide ApplyAdmit, OwnerAvailable;
    assert forall x: Slot :: Succeeded(s, x) == Succeeded(Admitting(s, call.now), x);
  }

  /** Over a whole run every slot is dispatched at most once, and slots are dispatched in order. */
  lemma DispatchAtMostOnce(size: State -> nat, s: State, calls: seq<Call>, i: nat, j: nat)
    requires Inv(s) && i < j < |calls| && Dispatches(Reply(size, s, calls, i)) && Dispatches(Reply(size, s, calls, j))
    ensures calls[i].command.AdmitSlot? && calls[j].command.AdmitSlot?
    ensures Rank(calls[i].command.slot) < Rank(calls[j].command.slot)
  {
    hide Inv, Loads, Later, Cas, OwnerAvailable, AllSucceededBelow;
    var m := Run(size, s, calls[..j]);
    RunKeeps(size, s, calls[..i]);
    DispatchConsumes(size, Run(size, s, calls[..i]), calls[i]);
    RunAfter(size, s, calls, i, j);
    DispatchConsumes(size, m, calls[j]);
    var a, b := calls[i].command.slot, calls[j].command.slot;
    LaterSlot(Reply(size, s, calls, i).value.state, m, a);
    InvOrder(m);
    if Rank(b) < Rank(a) { EarlierSucceeded(m, b, a); }
  }

  lemma LaterSlot(s: State, t: State, x: Slot)
    requires Later(s, t) && x in s.slotIntent
    ensures x in t.slotIntent
  {
  }

  lemma InvOrder(s: State)
    requires Inv(s)
    ensures InOrder(s) && MutuallyInverse(s.intents, s.slotIntent)
  {
  }

  /** Replaying an intent never dispatches, whatever its first admission did, and moves only the clock and the
      revision. */
  lemma ReplayNeverDispatches(size: State -> nat, s: State, call: Call)
    requires Inv(s) && call.command.AdmitSlot? && call.command.intentId in s.intents
    ensures !Dispatches(Cas(size, s, call))
    ensures Cas(size, s, call).Ok? ==>
              Cas(size, s, call).value.state == s.(lastNow := call.now, revision := s.revision + 1)
  {
    if Cas(size, s, call).Ok? {
      CasAnswers(size, s, call);
      hide Inv, Cas, ApplyAdmit, MayConsume, Apply;
      AdmitCases(s, call);
    }
  }

  /** An accepted admission answers with the admission's own ledger and advice. */
  lemma CasAnswers(size: State -> nat, s: State, call: Call)
    requires call.command.AdmitSlot? && Cas(size, s, call).Ok?
    ensures ApplyAdmit(s, call).Ok?
    ensures var a, t := ApplyAdmit(s, call).value, Cas(size, s, call).value;
            t.state == a.state.(revision := a.state.revision + 1) && t.advice == a.advice
  {
    hide ApplyAdmit, KeepsProofs, Loads, IsBinding;
  }

  // ---- The metrics read ----

  /** Everything that holds of the ledger and the advice when the one metrics read is dispatched. */
  ghost predicate MetricsReadAllowed(s: State, now: int, d: Deadlines) {
    && DiscoveryProof in s.proof && RevalidationProof in s.proof && DeliveryReady(s) && s.cleanup.deadline.Some?
    && var p, r := s.proof[DiscoveryProof], s.proof[RevalidationProof];
    && r.fsid == p.fsid == s.contract.fsid && r.manager == p.manager
    && r.endpoint == p.endpoint && r.endpoint in s.contract.endpoints
    && p.observedAt <= r.requestAt <= r.observedAt <= now
    && (s.branch == Some(New) ==> FluxOnMerge(s) && exists i ::
          OnlyCandidate(s, i) && CandidateSound(s.candidates[i], s))
    && d.proofDeadline == r.requestAt + PROOF_GUARD_S && d.readBudget == METRICS_BUDGET_S
    && d.transportDeadline == Min(d.proofDeadline, s.cleanup.deadline.value - s.cleanup.reserved)
    && now + METRICS_BUDGET_S <= d.transportDeadline
  }

  /** The advice of an admitted metrics read is the one computed from the revalidation proof. */
  lemma MetricsAdvice(s: State, call: Call)
    requires call.command.AdmitSlot? && call.command.slot == Metrics
    requires ApplyAdmit(s, call).Ok? && ApplyAdmit(s, call).value.advice.dispatch
    ensures var s2 := Admitting(s, call.now);
            && RevalidationProof in s2.proof && s2.cleanup.deadline.Some?
                 && MetricsDeadlines(s2, call.now, call.command).Ok?
            && ApplyAdmit(s, call).value.advice.deadlines == Some(MetricsDeadlines(s2, call.now, call.command).value)
            && ReserveHolds(s.cleanup, call.now, METRICS_BUDGET_S) && s.lastNow <= call.now
  {
    AdmitCases(s, call);
    hide ApplyAdmit, MetricsDeadlines, OwnerAvailable, MayConsume, Consume;
  }

  lemma AdvisedDeadlines(s: State, now: int, c: Command)
    requires c.AdmitSlot? && RevalidationProof in s.proof && s.cleanup.deadline.Some? && MetricsDeadlines(s, now, c).Ok?
    requires ReserveHolds(s.cleanup, now, METRICS_BUDGET_S)
    ensures var d, r := MetricsDeadlines(s, now, c).value, s.proof[RevalidationProof];
            && d.proofDeadline == r.requestAt + PROOF_GUARD_S && d.readBudget == METRICS_BUDGET_S
            && d.transportDeadline == Min(d.proofDeadline, s.cleanup.deadline.value - s.cleanup.reserved)
            && now + METRICS_BUDGET_S <= d.transportDeadline
  {
  }

  lemma SelectedForMetrics(s: State, now: int)
    requires SelectionSound(s) && DeliveryReady(s)
    ensures SelectedRoute(s) && SelectedRoute(Admitting(s, now))
  {
    var s2 := Admitting(s, now);
    assert forall x: Slot :: Succeeded(s, x) == Succeeded(s2, x);
    if s.branch == Some(New) {
      var i :| OnlyCandidate(s, i);
      assert OnlyCandidate(s2, i);
    }
  }

  lemma RevalidationAfterDiscovery(s: State)
    requires IntentsSound(s) && TimesOrdered(s) && Succeeded(s, Revalidation) && Succeeded(s, CephStatus)
    requires ProofIsAnswer(s, DiscoveryProof, CephStatus) && ProofIsAnswer(s, RevalidationProof, Revalidation)
    ensures s.proof[DiscoveryProof].observedAt <= s.proof[RevalidationProof].requestAt
                                               <= s.proof[RevalidationProof].observedAt <= s.lastNow
  {
    assert AnsweredBefore(s, CephStatus, Revalidation);
    assert IntentSound(IntentOf(s, Revalidation), s.lastNow);
  }

  lemma SelectedCandidate(s: State)
    requires CandidatesSound(s) && SelectedRoute(s) && s.branch == Some(New)
    ensures exists i :: OnlyCandidate(s, i) && CandidateSound(s.candidates[i], s)
  {
    var i :| OnlyCandidate(s, i);
    assert CandidateSound(s.candidates[i], s);
  }

  lemma DiscoveryLoads(s: State)
    requires Readable(s) && DiscoveryProof in s.proof
    ensures ProofLoads(s.proof[DiscoveryProof])
  {
  }

  lemma MetricsDispatchIsSafe(size: State -> nat, s: State, call: Call)
    requires Inv(s) && Dispatches(Cas(size, s, call)) && call.command.AdmitSlot? && call.command.slot == Metrics
    ensures Cas(size, s, call).value.advice.deadlines.Some?
    ensures MetricsReadAllowed(s, call.now, Cas(size, s, call).value.advice.deadlines.value)
  {
    hide Readable, InOrder, CleanupInv, ApplyAdmit, MetricsDeadlines, CandidatesSound, SelectionSound, MetricsSound,
         CandidateSound, FluxOnMerge, OnlyCandidate, KeepsProofs, IntentsSound, TimesOrdered, ProofIsAnswer, ProofLoads,
         OwnerAvailable;
    var c, s2 := call.command, Admitting(s, call.now);
    AdmitFirst(s, call);
    assert Succeeded(s, Revalidation) && Succeeded(s, CephStatus);
    MetricsAdvice(s, call);
    AdvisedDeadlines(s2, call.now, c);
    SelectedForMetrics(s, call.now);
    DiscoveryLoads(s);
    MatchedRoute(s2, call.now, c);
    RevalidationAfterDiscovery(s);
    if s.branch == Some(New) { SelectedCandidate(s); }
  }

  // ---- Dead ends ----

  /** A slot was consumed without a read, or its read did not succeed. */
  ghost predicate Spoiled(s: State, x: Slot) {
    && Consumed(s, x)
    && (!IntentOf(s, x).dispatch
        || (IntentOf(s, x).result.Some? && IntentOf(s, x).result.value.outcome != "success"))
  }

  ghost predicate DeadEnd(s: State) {
    || (exists x: Slot :: Spoiled(s, x))
    || exists i :: 0 <= i < |s.blockers| && s.blockers[i].kind != Recoverable
  }

  lemma DeadEndStays(s: State, t: State)
    requires DeadEnd(s) && Later(s, t) && MutuallyInverse(s.intents, s.slotIntent)
    ensures DeadEnd(t)
  {
    if x: Slot :| Spoiled(s, x) {
      assert IntentKept(IntentOf(s, x), t.intents[s.slotIntent[x]]);
      assert Spoiled(t, x);
    } else {
      var i :| 0 <= i < |s.blockers| && s.blockers[i].kind != Recoverable;
      assert BlockerKept(s.blockers[i], t.blockers[i]);
    }
  }

  lemma OwnedHasNoFinalBlocker(s: State)
    requires OwnerAvailable(s) && forall i | 0 <= i < |s.blockers| :: BlockerLoads(s.blockers[i], s.binding)
    ensures forall i | 0 <= i < |s.blockers| :: s.blockers[i].kind == Recoverable
  {
    forall i | 0 <= i < |s.blockers|
      ensures s.blockers[i].kind == Recoverable
    {
      assert BlockerLoads(s.blockers[i], s.binding) && !Unresolved(s.blockers[i]);
    }
  }

  lemma DeadEndRefuses(s: State, c: Command)
    requires InOrder(s) && IntentsSound(s) && DeadEnd(s) && c.AdmitSlot?
    requires forall i | 0 <= i < |s.blockers| :: BlockerLoads(s.blockers[i], s.binding)
    requires OwnerAvailable(s) && c.slot !in s.slotIntent
    ensures !AllSucceededBelow(s, Rank(c.slot))
  {
    OwnedHasNoFinalBlocker(s);
    hide BlockerLoads, OwnerAvailable, InOrder, IntentsSound, Spoiled;
    var x: Slot :| Spoiled(s, x);
    SpoiledStops(s, x, c.slot);
  }

  lemma SpoiledStops(s: State, x: Slot, next: Slot)
    requires InOrder(s) && IntentsSound(s) && Spoiled(s, x) && next !in s.slotIntent
    ensures !AllSucceededBelow(s, Rank(next))
  {
    SpoiledNotSucceeded(s, x);
    if Rank(next) < Rank(x) { EarlierSucceeded(s, next, x); }
    hide InOrder, IntentsSound, Succeeded;
    assert x in ALL_SLOTS && Rank(x) < Rank(next);
  }

  lemma SpoiledNotSucceeded(s: State, x: Slot)
    requires IntentsSound(s) && Spoiled(s, x)
    ensures !Succeeded(s, x)
  {
    assert IntentSound(IntentOf(s, x), s.lastNow);
  }

  lemma OnlyAdmitConsumes(s: State, call: Call)
    requires Execute(s, call).Ok? && (call.command.RecordOutcome? ==> s.lastNow == call.now)
    ensures var r := Execute(s, call).value;
            r.state.slotIntent == s.slotIntent
            || (call.command.AdmitSlot? && call.command.intentId !in s.intents)
  {
    if call.command.AdmitSlot? {
      AdmitCases(s, call);
    } else if call.command.RecordOutcome? {
      OutcomeCases(s, call.now, call.command);
    } else if IsRouteCommand(call.command) {
      RouteSlots(s, call.now, call.command);
    } else {
      CleanupSlots(s, call);
    }
  }

  lemma RouteSlots(s: State, now: int, c: Command)
    requires IsRouteCommand(c) && ExecuteRoute(s, now, c).Ok?
    ensures ExecuteRoute(s, now, c).value.slotIntent == s.slotIntent
  {
  }

  lemma CleanupSlots(s: State, call: Call)
    requires IsCleanupCommand(call.command) && ExecuteCleanup(s, call).Ok?
    ensures ExecuteCleanup(s, call).value.slotIntent == s.slotIntent
    ensures ExecuteCleanup(s, call).value.intents == s.intents
  {
  }

  lemma DeadEndAdmission(s: State, call: Call)
    requires Inv(s) && DeadEnd(s) && call.command.AdmitSlot? && ApplyAdmit(s, call).Ok?
    ensures ApplyAdmit(s, call).value == Accepted(s.(lastNow := call.now), Advice(true, false, None))
  {
    AdmitCases(s, call);
    hide ApplyAdmit, RouteInv, CleanupInv, AllEndpoints, TimesOrdered, ProofIsAnswer, MutuallyInverse, OwnerAvailable,
        DeadEnd,
         InOrder, IntentsSound, BlockerLoads;
    if call.command.intentId !in s.intents {
      AdmittingSuccess(s, call.now, Rank(call.command.slot));
      DeadEndRefuses(s, call.command);
      assert false;
    }
  }

  lemma AdmittingSuccess(s: State, now: int, rank: nat)
    ensures AllSucceededBelow(s, rank) == AllSucceededBelow(Admitting(s, now), rank)
  {
    assert forall x: Slot :: Succeeded(s, x) == Succeeded(Admitting(s, now), x);
  }

  lemma DeadEndStep(size: State -> nat, s: State, call: Call)
    requires Inv(s) && DeadEnd(s)
    ensures !Dispatches(Cas(size, s, call))
    ensures After(size, s, call).slotIntent == s.slotIntent && DeadEnd(After(size, s, call))
  {
    hide Inv, DeadEnd, Cas, Later, Loads;
    if Cas(size, s, call).Ok? {
      CasKeeps(size, s, call);
      InvOrder(s);
      DeadEndStays(s, After(size, s, call));
      if call.command.AdmitSlot? { DeadEndCasAdmit(size, s, call); }
      else { OtherCas(size, s, call); }
    }
  }

  lemma DeadEndCasAdmit(size: State -> nat, s: State, call: Call)
    requires Inv(s) && DeadEnd(s) && call.command.AdmitSlot? && Cas(size, s, call).Ok?
    ensures !Cas(size, s, call).value.advice.dispatch && Cas(size, s, call).value.state.slotIntent == s.slotIntent
  {
    hide Inv, DeadEnd, Loads, ApplyAdmit, KeepsProofs;
    DeadEndAdmission(s, call);
  }

  lemma OtherCas(size: State -> nat, s: State, call: Call)
    requires Inv(s) && !call.command.AdmitSlot? && Cas(size, s, call).Ok?
    ensures !Cas(size, s, call).value.advice.dispatch && Cas(size, s, call).value.state.slotIntent == s.slotIntent
  {
    hide Inv, Loads, Execute, KeepsProofs, NormalStage;
    StagedKeeps(s, call);
    OnlyAdmitConsumes(Staged(s, call).value, call);
    if Dispatches(Cas(size, s, call)) { DispatchConsumes(size, s, call); }
  }

  /** From a dead end no continuation consumes or dispatches another slot. */
  lemma {:induction false} DeadEndsAbsorb(size: State -> nat, s: State, calls: seq<Call>)
    requires Inv(s) && DeadEnd(s)
    ensures Run(size, s, calls).slotIntent == s.slotIntent && DeadEnd(Run(size, s, calls))
    ensures forall i | 0 <= i < |calls| :: !Dispatches(Reply(size, s, calls, i))
    decreases |calls|
  {
    hide Inv, DeadEnd, Cas, Later;
    if calls != [] {
      var before := calls[..|calls| - 1];
      DeadEndsAbsorb(size, s, before);
      RunKeeps(size, s, before);
      DeadEndStep(size, Run(size, s, before), calls[|calls| - 1]);
      forall i | 0 <= i < |calls|
        ensures !Dispatches(Reply(size, s, calls, i))
      {
        if i < |before| {
          assert before[..i] == calls[..i];
          assert !Dispatches(Reply(size, s, before, i));
        }
      }
    }
  }

  /** Resolving a blocker gives back no slot, and is refused in every dead end. */
  lemma ResolvingRefundsNothing(size: State -> nat, s: State, call: Call)
    requires Inv(s) && call.command.ResolveBlocker? && Cas(size, s, call).Ok?
    ensures var t := Cas(size, s, call).value.state;
            t.slotIntent == s.slotIntent && t.intents == s.intents && t.proof == s.proof
    ensures !DeadEnd(s)
  {
    hide Inv, Loads, KeepsProofs, ReserveHolds, FindBlocker;
    CleanupSlots(s, call);
    NothingSpoiledMeansNoSpoiledSlot(s);
  }

  lemma NothingSpoiledMeansNoSpoiledSlot(s: State)
    ensures NothingSpoiled(s) ==> forall x: Slot :: !Spoiled(s, x)
  {
  }

  // ---- Proofs and candidates ----

  /** A proof exists exactly when its slot succeeded and is that slot's recorded answer; proofs never change, and no
      code path looks for a missing one. */
  lemma ProofsAreAnswers(size: State -> nat, s: State, calls: seq<Call>)
    requires Inv(s)
    ensures var t := Run(size, s, calls);
            && ProofIsAnswer(t, DiscoveryProof, CephStatus) && ProofIsAnswer(t, RevalidationProof, Revalidation)
            && KeepsProofs(s, t)
            && (AllSucceededBelow(t, 4) ==> DiscoveryProof in t.proof)
            && (AllSucceededBelow(t, 5) ==> RevalidationProof in t.proof)
  {
    hide Inv, Later, ProofIsAnswer, KeepsProofs;
    RunKeeps(size, s, calls);
    LaterKeepsProofs(s, Run(size, s, calls));
    InvProofs(Run(size, s, calls));
  }

  lemma InvProofs(s: State)
    requires Inv(s)
    ensures ProofIsAnswer(s, DiscoveryProof, CephStatus) && ProofIsAnswer(s, RevalidationProof, Revalidation)
    ensures AllSucceededBelow(s, 4) ==> DiscoveryProof in s.proof
    ensures AllSucceededBelow(s, 5) ==> RevalidationProof in s.proof
  {
    hide Readable, RouteInv, CleanupInv, InOrder, IntentsSound, TimesOrdered;
    assert CephStatus in ALL_SLOTS && Revalidation in ALL_SLOTS;
  }

  /** Every prepared candidate finished its checks before the first discovery read was admitted. */
  lemma CandidatesPrecedeDiscovery(s: State, i: nat, x: Slot)
    requires Inv(s) && i < |s.candidates| && Consumed(s, x)
    ensures s.candidates[i].ciStartedAt < s.candidates[i].ciFinishedAt <= IntentOf(s, x).admittedAt
    ensures s.candidates[i].endpoint in s.contract.endpoints && s.candidates[i].reviewedHead == s.candidates[i].head
  {
    assert CandidateSound(s.candidates[i], s);
    if x != Version {
      assert AnsweredBefore(s, Version, x) by {
        assert AllSucceededBelow(s, Rank(x)) && Version in ALL_SLOTS;
      }
      assert IntentSound(IntentOf(s, Version), s.lastNow);
    }
  }

  // ---- Cleanup ----

  /** A stored clean evaluation describes the grants as they are: every one inactive, its CNP absent. */
  lemma CleanMeansEveryGrantGone(size: State -> nat, s: State, calls: seq<Call>)
    requires Inv(s)
    ensures var t := Run(size, s, calls);
            t.cleanup.evaluation.Some? && t.cleanup.evaluation.value.clean ==>
              && t.cleanup.evaluation.value.audit.binding == t.binding
              && forall i | 0 <= i < |t.cleanup.grants| :: GrantGone(t.cleanup.grants[i])
  {
    RunKeeps(size, s, calls);
  }

  /** Grants keep their place, UID, class, expiry and CNP; another owner's grant is recorded gone only once expired. */
  lemma GrantsKeepTheirIdentity(size: State -> nat, s: State, calls: seq<Call>, i: nat)
    requires Inv(s) && i < |s.cleanup.grants|
    ensures var t := Run(size, s, calls);
            && i < |t.cleanup.grants| && GrantKept(s.cleanup.grants[i], t.cleanup.grants[i])
            && (forall j | 0 <= j < |t.cleanup.grants| && j != i :: t.cleanup.grants[j].uid != t.cleanup.grants[i].uid)
            && (t.cleanup.grants[i].ownerClass == Other && !t.cleanup.grants[i].active ==>
                  t.cleanup.grants[i].expiresAt <= t.cleanup.grants[i].observedAt)
  {
    RunKeeps(size, s, calls);
    var t := Run(size, s, calls);
    assert GrantSound(t.cleanup.grants[i], t.lastNow);
  }
}
