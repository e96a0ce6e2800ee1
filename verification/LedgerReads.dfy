/** Consuming a slot and recording its outcome keep the invariant. */
module LedgerReads {
  import opened Common
  import opened LedgerModel
  import opened LedgerInvariant
  import opened LedgerSteps

  // ---- admit: consuming a slot ----

  /** The slot is free, the intent is new, and everything before the slot succeeded. */
  ghost predicate MayConsume(s: State, now: int, c: Command) {
    && c.AdmitSlot? && s.lastNow == now && c.intentId !in s.intents && c.slot !in s.slotIntent
    && IsToken(c.intentId) && AllSucceededBelow(s, Rank(c.slot))
  }

  lemma ConsumeAt(s: State, now: int, c: Command, d: Decision, x: Slot)
    requires MayConsume(s, now, c) && MutuallyInverse(s.intents, s.slotIntent)
    ensures var t := Consume(s, now, c, d);
            && Succeeded(s, x) == Succeeded(t, x)
            && (x in s.slotIntent ==> Consumed(s, x) && Consumed(t, x) && IntentOf(t, x) == IntentOf(s, x))
            && Consumed(t, c.slot) && IntentOf(t, c.slot).admittedAt == now
            && t.slotIntent.Keys == s.slotIntent.Keys + {c.slot}
  {
    hide IsToken, AllSucceededBelow;
  }

  lemma ConsumeSucceeded(s: State, now: int, c: Command, d: Decision)
    requires MayConsume(s, now, c) && MutuallyInverse(s.intents, s.slotIntent)
    ensures var t := Consume(s, now, c, d);
            && (forall x: Slot :: Succeeded(s, x) == Succeeded(t, x))
            && (forall x: Slot | x in s.slotIntent :: Consumed(s, x) && Consumed(t, x)
                 && IntentOf(t, x) == IntentOf(s, x))
            && Consumed(t, c.slot) && IntentOf(t, c.slot).admittedAt == now
  {
    assert c.AdmitSlot?;
    hide Consume, MayConsume, MutuallyInverse, Succeeded, Consumed;
    var t := Consume(s, now, c, d);
    forall x: Slot
      ensures Succeeded(s, x) == Succeeded(t, x)
      ensures x in s.slotIntent ==> Consumed(s, x) && Consumed(t, x) && IntentOf(t, x) == IntentOf(s, x)
    {
      ConsumeAt(s, now, c, d, x);
    }
    ConsumeAt(s, now, c, d, Version);
  }

  lemma {:induction false} InversePigeonhole(intents: map<string, Intent>, slotIntent: map<Slot, string>)
    requires MutuallyInverse(intents, slotIntent)
    ensures |intents| == |slotIntent| <= 6
  {
    SameSize(intents.Keys, slotIntent.Keys, intents);
    assert slotIntent.Keys <= ALL_SLOTS;
    SubsetSize(slotIntent.Keys, ALL_SLOTS);
  }

  lemma {:induction false} SubsetSize<T>(a: set<T>, b: set<T>)
    requires a <= b
    ensures |a| <= |b|
  {
    if a != {} {
      var x :| x in a;
      SubsetSize(a - {x}, b - {x});
    }
  }

  /** Distinct intents name distinct slots, so there are as many of the one as of the other. */
  lemma {:induction false} SameSize(ids: set<string>, slots: set<Slot>, intents: map<string, Intent>)
    requires ids <= intents.Keys
    requires forall a, b | a in ids && b in ids && a != b :: intents[a].slot != intents[b].slot
    requires forall x :: x in slots <==> exists id :: id in ids && intents[id].slot == x
    ensures |ids| == |slots|
  {
    if ids == {} {
      if x :| x in slots { assert false; }
    } else {
      var id :| id in ids;
      var x := intents[id].slot;
      forall y | y in slots - {x}
        ensures exists k :: k in ids - {id} && intents[k].slot == y
      {
        var k :| k in ids && intents[k].slot == y;
        assert k in ids - {id};
      }
      SameSize(ids - {id}, slots - {x}, intents);
    }
  }

  /** There are six slots and each intent has its own, so the bound on intents needs no check of its own. */
  lemma ReadableLoads(s: State)
    requires Readable(s)
    ensures Loads(s)
  {
    InversePigeonhole(s.intents, s.slotIntent);
  }

  lemma ConsumeInverse(s: State, now: int, c: Command, d: Decision)
    requires MayConsume(s, now, c) && MutuallyInverse(s.intents, s.slotIntent)
    ensures var t := Consume(s, now, c, d); MutuallyInverse(t.intents, t.slotIntent)
  {
  }

  lemma ConsumeLoads(s: State, now: int, c: Command, d: Decision)
    requires MayConsume(s, now, c) && Readable(s)
    ensures Readable(Consume(s, now, c, d))
  {
    ConsumeInverse(s, now, c, d);
  }

  lemma ConsumeOrder(s: State, now: int, c: Command, d: Decision)
    requires MayConsume(s, now, c) && MutuallyInverse(s.intents, s.slotIntent) && InOrder(s)
    ensures InOrder(Consume(s, now, c, d))
  {
    var t := Consume(s, now, c, d);
    ConsumeSucceeded(s, now, c, d);
    forall b | b in t.slotIntent
      ensures AllSucceededBelow(t, Rank(b))
    {
      if b in s.slotIntent { assert AllSucceededBelow(s, Rank(b)); }
    }
  }

  lemma ConsumeTimesBefore(s: State, now: int, c: Command, d: Decision, a: Slot, b: Slot)
    requires MayConsume(s, now, c) && MutuallyInverse(s.intents, s.slotIntent) && AnsweredBefore(s, a, b)
    ensures AnsweredBefore(Consume(s, now, c, d), a, b)
  {
    ConsumeAt(s, now, c, d, a);
    ConsumeAt(s, now, c, d, b);
    hide Consume, MayConsume, MutuallyInverse;
  }

  lemma ConsumeTimesNew(s: State, now: int, c: Command, d: Decision, a: Slot)
    requires MayConsume(s, now, c) && MutuallyInverse(s.intents, s.slotIntent)
    requires Succeeded(s, a) && IntentSound(IntentOf(s, a), s.lastNow)
    ensures AnsweredBefore(Consume(s, now, c, d), a, c.slot)
  {
    ConsumeAt(s, now, c, d, a);
    assert s.lastNow == now;
    hide Consume, MayConsume, MutuallyInverse;
  }

  lemma ConsumeTimes(s: State, now: int, c: Command, d: Decision)
    requires MayConsume(s, now, c) && MutuallyInverse(s.intents, s.slotIntent)
    requires InOrder(s) && IntentsSound(s) && TimesOrdered(s)
    ensures TimesOrdered(Consume(s, now, c, d))
  {
    var t := Consume(s, now, c, d);
    ConsumeAt(s, now, c, d, c.slot);
    hide Consume, MayConsume, MutuallyInverse, AnsweredBefore, InOrder, IntentsSound, Rank, Succeeded, Consumed;
    forall a, b | a in t.slotIntent && b in t.slotIntent && Rank(a) < Rank(b)
      ensures AnsweredBefore(t, a, b)
    {
      ConsumePair(s, now, c, d, a, b);
    }
  }

  lemma ConsumePair(s: State, now: int, c: Command, d: Decision, a: Slot, b: Slot)
    requires MayConsume(s, now, c) && MutuallyInverse(s.intents, s.slotIntent)
    requires InOrder(s) && IntentsSound(s) && TimesOrdered(s)
    requires Rank(a) < Rank(b) && (b in s.slotIntent || b == c.slot)
    ensures AnsweredBefore(Consume(s, now, c, d), a, b)
  {
    if b in s.slotIntent {
      EarlierSlot(s, a, b);
      ConsumeTimesBefore(s, now, c, d, a, b);
    } else {
      EarlierSucceeds(s, a, Rank(c.slot));
      ConsumeTimesNew(s, now, c, d, a);
    }
  }

  lemma EarlierSucceeds(s: State, a: Slot, rank: nat)
    requires AllSucceededBelow(s, rank) && Rank(a) < rank && IntentsSound(s)
    ensures Succeeded(s, a) && IntentSound(IntentOf(s, a), s.lastNow)
  {
    assert a in ALL_SLOTS;
  }

  lemma EarlierSlot(s: State, a: Slot, b: Slot)
    requires InOrder(s) && TimesOrdered(s) && b in s.slotIntent && Rank(a) < Rank(b)
    ensures AnsweredBefore(s, a, b)
  {
    assert AllSucceededBelow(s, Rank(b)) && a in ALL_SLOTS;
    assert Succeeded(s, a);
  }

  lemma ConsumeProofs(s: State, now: int, c: Command, d: Decision, key: ProofKey, slot: Slot)
    requires MayConsume(s, now, c) && MutuallyInverse(s.intents, s.slotIntent) && ProofIsAnswer(s, key, slot)
    ensures ProofIsAnswer(Consume(s, now, c, d), key, slot)
  {
    ConsumeSucceeded(s, now, c, d);
  }

  lemma ConsumeReads(s: State, now: int, c: Command, d: Decision)
    requires MayConsume(s, now, c) && MutuallyInverse(s.intents, s.slotIntent) && ReadsInv(s)
    ensures ReadsInv(Consume(s, now, c, d))
  {
    ConsumeOrder(s, now, c, d);
    ConsumeTimes(s, now, c, d);
    ConsumeProofs(s, now, c, d, DiscoveryProof, CephStatus);
    ConsumeProofs(s, now, c, d, RevalidationProof, Revalidation);
  }

  lemma ConsumeSelection(s: State, now: int, c: Command, d: Decision)
    requires MayConsume(s, now, c) && MutuallyInverse(s.intents, s.slotIntent) && SelectionSound(s)
    requires !IsDiscovery(c.slot) ==> DeliveryReady(s)
    ensures SelectionSound(Consume(s, now, c, d))
  {
    var t := Consume(s, now, c, d);
    ConsumeSucceeded(s, now, c, d);
    if s.branch == Some(New) {
      var i :| OnlyCandidate(s, i);
      assert OnlyCandidate(t, i);
    }
  }

  lemma ConsumeCandidates(s: State, now: int, c: Command, d: Decision)
    requires MayConsume(s, now, c) && MutuallyInverse(s.intents, s.slotIntent) && CandidatesSound(s)
    ensures CandidatesSound(Consume(s, now, c, d))
  {
    var t := Consume(s, now, c, d);
    ConsumeSucceeded(s, now, c, d);
    forall i | 0 <= i < |t.candidates|
      ensures CandidateSound(t.candidates[i], t)
    {
      assert CandidateSound(s.candidates[i], s);
    }
  }

  /** A metrics read is advised only when the revalidation answer names the selected, discovered route. */
  lemma MatchedRoute(s: State, now: int, c: Command)
    requires c.AdmitSlot? && RevalidationProof in s.proof && s.cleanup.deadline.Some? && SelectedRoute(s)
    requires MetricsDeadlines(s, now, c).Ok? && ProofLoads(s.proof[DiscoveryProof])
    ensures var d, r := s.proof[DiscoveryProof], s.proof[RevalidationProof];
            && r.fsid == d.fsid == s.contract.fsid && r.manager == d.manager && r.endpoint == d.endpoint
            && r.endpoint in s.contract.endpoints && now + METRICS_BUDGET_S <= r.requestAt + PROOF_GUARD_S
  {
  }

  lemma ConsumeMetrics(s: State, now: int, c: Command, d: Decision)
    requires MayConsume(s, now, c) && MutuallyInverse(s.intents, s.slotIntent) && MetricsSound(s)
    requires c.slot == Metrics && d == Admit ==>
               RevalidationProof in s.proof && s.cleanup.deadline.Some? && MetricsDeadlines(s, now, c).Ok?
               && SelectedRoute(s) && ProofLoads(s.proof[DiscoveryProof])
    ensures MetricsSound(Consume(s, now, c, d))
  {
    ConsumeSucceeded(s, now, c, d);
    if c.slot == Metrics && d == Admit { MatchedRoute(s, now, c); }
  }

  lemma ConsumeKeeps(s: State, now: int, c: Command, d: Decision)
    requires Inv(s) && MayConsume(s, now, c) && (!IsDiscovery(c.slot) ==> DeliveryReady(s))
    requires c.slot == Metrics && d == Admit ==>
               RevalidationProof in s.proof && s.cleanup.deadline.Some? && MetricsDeadlines(s, now, c).Ok?
    ensures Inv(Consume(s, now, c, d))
  {
    ConsumeLoads(s, now, c, d);
    ConsumeReads(s, now, c, d);
    ConsumeSelection(s, now, c, d);
    ConsumeCandidates(s, now, c, d);
    ConsumeMetrics(s, now, c, d);
    CleanupUnchanged(s, Consume(s, now, c, d));
  }

  /** The ledger on which an admission is decided: the clock advanced and the evaluation cleared. */
  function Admitting(s: State, now: int): State {
    s.(lastNow := now, cleanup := s.cleanup.(evaluation := None))
  }

  /** What an accepted admission does: nothing to a replay, and otherwise it consumes the slot. */
  lemma AdmitCases(s: State, call: Call)
    requires call.command.AdmitSlot? && ApplyAdmit(s, call).Ok?
    ensures var c, r, s2 := call.command, ApplyAdmit(s, call).value, Admitting(s, call.now);
            && s.lastNow <= call.now
            && (c.intentId in s.intents ==> r == Accepted(s.(lastNow := call.now), Advice(true, false, None)))
            && (c.intentId !in s.intents ==>
                  && MayConsume(s2, call.now, c) && (!IsDiscovery(c.slot) ==> DeliveryReady(s2))
                  && OwnerAvailable(s) && ReserveHolds(s.cleanup, call.now, StageOf(c.slot))
                  && exists d: Decision :: AdmittedAs(s2, call.now, c, d, r))
  {
    var c, s2 := call.command, Admitting(s, call.now);
    if c.intentId !in s.intents {
      var d := if c.slot == Metrics && c.decision == Admit && MetricsDeadlines(s2, call.now, c).Err? then Denied
               else c.decision;
      assert AdmittedAs(s2, call.now, c, d, ApplyAdmit(s, call).value);
    }
  }

  ghost predicate AdmittedAs(s: State, now: int, c: Command, d: Decision, r: Accepted)
    requires c.AdmitSlot?
  {
    && r.state == Consume(s, now, c, d)
    && (r.advice.dispatch <==> d == Admit) && !r.advice.replay
    && (c.slot == Metrics && d == Admit ==>
          && RevalidationProof in s.proof && s.cleanup.deadline.Some? && MetricsDeadlines(s, now, c).Ok?
          && r.advice.deadlines == Some(MetricsDeadlines(s, now, c).value))
  }

  lemma AdmitKeeps(s: State, call: Call)
    requires Inv(s) && call.command.AdmitSlot? && ApplyAdmit(s, call).Ok?
    ensures Inv(ApplyAdmit(s, call).value.state)
  {
    var c, r, s2 := call.command, ApplyAdmit(s, call).value, Admitting(s, call.now);
    AdmitCases(s, call);
    if c.intentId in s.intents {
      ClockKeepsInv(s, r.state);
    } else {
      ClockKeepsInv(s, s2);
      var d: Decision :| AdmittedAs(s2, call.now, c, d, r);
      ConsumeKeeps(s2, call.now, c, d);
    }
  }

  // ---- record-outcome ----

  /** The one intent that receives its outcome, and the proof that outcome may add. */
  ghost predicate Recorded(s: State, t: State, id: string, r: Completion) {
    && id in s.intents && s.intents[id].result.None? && s.intents[id].dispatch && r.outcome in OUTCOMES
    && t == s.(intents := s.intents[id := s.intents[id].(result := Some(r))], proof := t.proof)
    && (r.outcome == "success" ==>
          && IntervalAfter(s.intents[id].admittedAt, r, s.lastNow) && BodyHashed(r)
          && t.proof == WithProof(s.proof, s.intents[id].slot, ProofOf(s.binding, r))
          && (s.intents[id].slot in {CephStatus, Revalidation} ==>
                IsToken(r.fsid) && IsToken(r.manager) && IsEndpoint(r.endpoint) && IsToken(r.receipt)))
    && (r.outcome != "success" ==> t.proof == s.proof)
  }

  lemma OutcomeCases(s: State, now: int, c: Command)
    requires s.lastNow == now && c.RecordOutcome? && ApplyOutcome(s, now, c).Ok?
    ensures var r := ApplyOutcome(s, now, c).value;
            !r.advice.dispatch && (if r.advice.replay then r.state == s
                else Recorded(s, r.state, c.intentId, CompletionOf(c)))
  {
  }

  lemma RecordedSlots(s: State, t: State, id: string, r: Completion)
    requires Recorded(s, t, id, r) && MutuallyInverse(s.intents, s.slotIntent)
    ensures var x := s.intents[id].slot;
            && MutuallyInverse(t.intents, t.slotIntent) && |t.intents| == |s.intents|
            && Consumed(s, x) && s.slotIntent[x] == id && !Succeeded(s, x)
            && (forall y: Slot | y != x :: Consumed(t, y) == Consumed(s, y) && Succeeded(t, y) == Succeeded(s, y))
            && (forall y: Slot | y != x && Consumed(s, y) :: IntentOf(t, y) == IntentOf(s, y))
            && Consumed(t, x) && IntentOf(t, x) == IntentOf(s, x).(result := Some(r))
            && (Succeeded(t, x) <==> r.outcome == "success")
  {
    assert t.intents.Keys == s.intents.Keys;
  }

  lemma RecordedProofLoads(s: State, t: State, id: string, r: Completion)
    requires Recorded(s, t, id, r) && IsBinding(s.binding) && forall k | k in s.proof :: ProofLoads(s.proof[k])
    ensures forall k | k in t.proof :: ProofLoads(t.proof[k])
  {
  }

  lemma RecordedLoads(s: State, t: State, id: string, r: Completion)
    requires Recorded(s, t, id, r) && Readable(s)
    ensures Readable(t)
  {
    RecordedSlots(s, t, id, r);
    RecordedProofLoads(s, t, id, r);
  }

  /** While a slot still waits for its outcome, no later slot is consumed. */
  lemma WaitingIsLast(s: State, id: string)
    requires MutuallyInverse(s.intents, s.slotIntent) && InOrder(s) && id in s.intents && s.intents[id].result.None?
    ensures forall b | b in s.slotIntent :: Rank(b) <= Rank(s.intents[id].slot)
  {
    var x := s.intents[id].slot;
    assert x in ALL_SLOTS && !Succeeded(s, x);
    assert forall b | b in s.slotIntent :: AllSucceededBelow(s, Rank(b));
  }

  lemma RecordedOrder(s: State, t: State, id: string, r: Completion)
    requires Recorded(s, t, id, r) && MutuallyInverse(s.intents, s.slotIntent) && InOrder(s)
    ensures InOrder(t)
  {
    RecordedSlots(s, t, id, r);
    WaitingIsLast(s, id);
    assert forall b | b in s.slotIntent :: AllSucceededBelow(s, Rank(b));
  }

  lemma RecordedTimes(s: State, t: State, id: string, r: Completion)
    requires Recorded(s, t, id, r) && MutuallyInverse(s.intents, s.slotIntent) && TimesOrdered(s)
    ensures TimesOrdered(t)
  {
    RecordedSlots(s, t, id, r);
    forall a, b | a in t.slotIntent && b in t.slotIntent && Rank(a) < Rank(b)
      ensures AnsweredBefore(t, a, b)
    {
      assert AnsweredBefore(s, a, b);
    }
  }

  lemma RecordedProofs(s: State, t: State, id: string, r: Completion)
    requires Recorded(s, t, id, r) && MutuallyInverse(s.intents, s.slotIntent)
    requires ProofIsAnswer(s, DiscoveryProof, CephStatus) && ProofIsAnswer(s, RevalidationProof, Revalidation)
    ensures ProofIsAnswer(t, DiscoveryProof, CephStatus) && ProofIsAnswer(t, RevalidationProof, Revalidation)
  {
    RecordedSlots(s, t, id, r);
  }

  lemma RecordedReads(s: State, t: State, id: string, r: Completion)
    requires Recorded(s, t, id, r) && MutuallyInverse(s.intents, s.slotIntent) && ReadsInv(s)
    ensures ReadsInv(t)
  {
    RecordedOrder(s, t, id, r);
    RecordedTimes(s, t, id, r);
    RecordedProofs(s, t, id, r);
  }

  lemma RecordedKeepsProofs(s: State, t: State, id: string, r: Completion)
    requires Recorded(s, t, id, r) && MutuallyInverse(s.intents, s.slotIntent)
    requires ProofIsAnswer(s, DiscoveryProof, CephStatus) && ProofIsAnswer(s, RevalidationProof, Revalidation)
    ensures KeepsProofs(s, t)
  {
    RecordedSlots(s, t, id, r);
  }

  lemma RecordedSelection(s: State, t: State, id: string, r: Completion)
    requires Recorded(s, t, id, r) && MutuallyInverse(s.intents, s.slotIntent) && ReadsInv(s) && SelectionSound(s)
    ensures SelectionSound(t)
  {
    RecordedKeepsProofs(s, t, id, r);
    RecordedSuccesses(s, t, id, r);
    hide ReadsInv, MutuallyInverse, SelectionSound, AllSucceededBelow, KeepsProofs;
    SelectionFollows(s, t);
  }

  lemma RecordedSuccesses(s: State, t: State, id: string, r: Completion)
    requires Recorded(s, t, id, r) && MutuallyInverse(s.intents, s.slotIntent)
    ensures AllSucceededBelow(s, 4) ==> AllSucceededBelow(t, 4)
  {
    RecordedSlots(s, t, id, r);
    hide Recorded, MutuallyInverse, Consumed;
    if AllSucceededBelow(s, 4) {
      forall y | y in ALL_SLOTS && Rank(y) < 4 ensures Succeeded(t, y) { assert Succeeded(s, y); }
    }
  }

  /** A selection stays sound while its route, its proof and the discovery successes stay. */
  lemma SelectionFollows(s: State, t: State)
    requires SelectionSound(s) && KeepsProofs(s, t) && (AllSucceededBelow(s, 4) ==> AllSucceededBelow(t, 4))
    requires t == s.(intents := t.intents, proof := t.proof)
    ensures SelectionSound(t)
  {
    hide AllSucceededBelow;
    if s.branch == Some(New) {
      var i :| OnlyCandidate(s, i);
      assert OnlyCandidate(t, i);
    }
  }

  lemma RecordedCandidates(s: State, t: State, id: string, r: Completion)
    requires Recorded(s, t, id, r) && MutuallyInverse(s.intents, s.slotIntent) && CandidatesSound(s)
    ensures CandidatesSound(t)
  {
    RecordedSlots(s, t, id, r);
    forall i | 0 <= i < |t.candidates|
      ensures CandidateSound(t.candidates[i], t)
    {
      assert CandidateSound(s.candidates[i], s);
    }
  }

  lemma RecordedMetrics(s: State, t: State, id: string, r: Completion)
    requires Recorded(s, t, id, r) && MutuallyInverse(s.intents, s.slotIntent) && MetricsSound(s)
    requires ProofIsAnswer(s, DiscoveryProof, CephStatus) && ProofIsAnswer(s, RevalidationProof, Revalidation)
    ensures MetricsSound(t)
  {
    RecordedSlots(s, t, id, r);
    RecordedKeepsProofs(s, t, id, r);
  }

  lemma RecordedKeeps(s: State, t: State, id: string, r: Completion)
    requires Inv(s) && Recorded(s, t, id, r)
    ensures Inv(t)
  {
    RecordedLoads(s, t, id, r);
    RecordedReads(s, t, id, r);
    RecordedSelection(s, t, id, r);
    RecordedCandidates(s, t, id, r);
    RecordedMetrics(s, t, id, r);
    CleanupUnchanged(s, t);
  }

  lemma OutcomeKeeps(s: State, now: int, c: Command)
    requires Inv(s) && s.lastNow == now && c.RecordOutcome? && ApplyOutcome(s, now, c).Ok?
    ensures Inv(ApplyOutcome(s, now, c).value.state)
  {
    OutcomeCases(s, now, c);
    var r := ApplyOutcome(s, now, c).value;
    if !r.advice.replay { RecordedKeeps(s, r.state, c.intentId, CompletionOf(c)); }
  }
}
