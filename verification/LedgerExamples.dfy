/** One run of the ledger, from any initialisation with a covered endpoint to a dispatched metrics read, all at one
    reading of the clock: it shows that the read is reachable and that the intervals of two reads may touch. */
module LedgerExamples {
  import opened Common
  import opened LedgerModel
  import opened LedgerInvariant
  import opened LedgerReads
  import opened LedgerTheorems

  // ---- Runs that fit ----

  function NoSize(s: State): nat { 0 }

  /** Every ledger the calls would write is within the size bound. */
  predicate Fits(size: State -> nat, s: State, calls: seq<Call>) {
    forall k | 0 <= k <= |calls| :: size(Run(NoSize, s, calls[..k])) <= MAX_LEDGER_BYTES
  }

  lemma {:induction false} FittingCall(size: State -> nat, s: State, call: Call)
    requires size(s) <= MAX_LEDGER_BYTES && size(After(NoSize, s, call)) <= MAX_LEDGER_BYTES
    ensures Cas(size, s, call) == Cas(NoSize, s, call)
  {
    hide Apply, Loads, KeepsProofs, IsBinding;
  }

  lemma {:induction false} FittingRun(size: State -> nat, s: State, calls: seq<Call>, k: nat)
    requires Fits(size, s, calls) && k <= |calls|
    ensures Run(size, s, calls[..k]) == Run(NoSize, s, calls[..k])
    ensures k < |calls| ==> Reply(size, s, calls, k) == Reply(NoSize, s, calls, k)
    decreases k
  {
    hide Cas;
    assert calls[..0] == [];
    if k > 0 {
      assert calls[..k][..k - 1] == calls[..k - 1];
      FittingRun(size, s, calls, k - 1);
    }
    if k < |calls| {
      assert calls[..k + 1][..k] == calls[..k];
      FittingCall(size, Run(NoSize, s, calls[..k]), calls[k]);
    }
  }

  // ---- The calls ----

  /** What the run is about: six intent IDs, a manager, and a body hash. */
  datatype Names = Names(ids: seq<string>, manager: string, body: string)

  predicate Proper(n: Names) {
    |n.ids| == 6 && Distinct(n.ids) && (forall i | 0 <= i < 6 :: IsToken(n.ids[i])) && IsToken(n.manager)
        && IsHex(n.body, 64)
  }

  function AdmitRead(c: InitCall, n: Names, slot: Slot): Command
    requires |n.ids| == 6 && c.covered != []
  {
    AdmitSlot(slot, n.ids[Rank(slot)], Admit, c.fsid, n.manager, c.covered[0], n.ids[4])
  }

  function Answer(c: InitCall, n: Names, slot: Slot): Command
    requires |n.ids| == 6 && c.covered != []
  {
    RecordOutcome(n.ids[Rank(slot)], "success", n.ids[Rank(slot)], Some(n.body), Some(c.now), Some(c.now), c.fsid,
        n.manager, c.covered[0])
  }

  function SlotAt(r: nat): (slot: Slot)
    requires r < 6
    ensures Rank(slot) == r
  {
    [Version, Permissions, CephStatus, CephPool, Revalidation, Metrics][r]
  }

  /** Reserve, the four discovery reads, select the covered branch, observe the delivery, revalidate, read metrics. */
  function CommandAt(c: InitCall, n: Names, k: nat): Command
    requires |n.ids| == 6 && c.covered != [] && k < 14
  {
    if k == 0 then ReserveCleanup(1, c.now + 1000, None)
    else if k == 9 then SelectCandidate(Existing, c.fsid, n.manager, c.covered[0], n.ids[2])
    else if k == 10 then ObserveDelivery(Ready, Ready, Ready)
    else
      var slot := if k < 9 then SlotAt((k - 1) / 2) else SlotAt((k - 3) / 2);
      if k % 2 == 1 then AdmitRead(c, n, slot) else Answer(c, n, slot)
  }

  /** Call number k expects the revision its predecessors leave. */
  function CallAt(c: InitCall, n: Names, k: nat): Call
    requires |n.ids| == 6 && c.covered != [] && k < 14
  {
    Call(c.caller, c.now, 1, k + 1, CommandAt(c, n, k))
  }

  function Calls(c: InitCall, n: Names): (calls: seq<Call>)
    requires |n.ids| == 6 && c.covered != []
    ensures |calls| == 14 && forall k | 0 <= k < 14 :: calls[k] == CallAt(c, n, k)
  {
    seq(14, k requires 0 <= k < 14 => CallAt(c, n, k))
  }

  // ---- Where the run is after k calls ----

  /** Call number k of the run is accepted. */
  predicate Accepts(c: InitCall, n: Names, k: nat)
    requires |n.ids| == 6 && c.covered != [] && k < 14
  {
    Reply(NoSize, Fresh(c), Calls(c, n), k).Ok?
  }

  /** The first k calls are accepted and leave this ledger. */
  predicate Path(c: InitCall, n: Names, k: nat, s: State)
    requires |n.ids| == 6 && c.covered != [] && k <= 14
  {
    Run(NoSize, Fresh(c), Calls(c, n)[..k]) == s && forall j | 0 <= j < k :: Accepts(c, n, j)
  }

  predicate At(c: InitCall, n: Names, k: nat, s: State) {
    && |n.ids| == 6 && c.covered != [] && k <= 14 && Path(c, n, k, s)
    && s.revision == k + 1 && s.binding == c.caller && s.lastNow == c.now >= 0
    && s.contract == Contract(c.fsid, c.endpoints, c.covered) && OwnerAvailable(s)
  }

  function Stored(s: State): State { s.(revision := s.revision + 1) }

  lemma {:induction false} NextPath(c: InitCall, n: Names, k: nat, s: State, a: Accepted)
    requires |n.ids| == 6 && c.covered != [] && k < 14 && Path(c, n, k, s)
    requires Cas(NoSize, s, CallAt(c, n, k)) == Ok(a)
    ensures Path(c, n, k + 1, a.state) && Reply(NoSize, Fresh(c), Calls(c, n), k) == Ok(a)
  {
    hide Cas, CallAt;
    var calls := Calls(c, n);
    assert calls[..k + 1][..k] == calls[..k];
    assert Accepts(c, n, k);
  }

  /** What no call of this run changes. */
  predicate Framed(s: State, t: State) {
    && t.revision == s.revision && t.binding == s.binding && t.lastNow == s.lastNow
    && t.contract == s.contract && t.owner == s.owner && t.blockers == s.blockers
  }

  /** An accepted call carries the run one call further. */
  lemma {:induction false} NextCall(c: InitCall, n: Names, k: nat, s: State, a: Accepted)
    requires Inv(s) && At(c, n, k, s) && k < 14 && Apply(s, CallAt(c, n, k)) == Ok(a)
    requires Framed(s, a.state)
    ensures At(c, n, k + 1, Stored(a.state)) && Inv(Stored(a.state))
    ensures Reply(NoSize, Fresh(c), Calls(c, n), k) == Ok(Accepted(Stored(a.state), a.advice))
  {
    hide Inv, Apply, Path, CommandAt, Reply, Cas, Calls;
    NoSizeCas(s, CallAt(c, n, k), a);
    NextPath(c, n, k, s, Accepted(Stored(a.state), a.advice));
  }

  lemma {:induction false} NoSizeCas(s: State, call: Call, a: Accepted)
    requires Inv(s) && Apply(s, call) == Ok(a)
    requires call.now >= 0 && call.stageBudget > 0 && call.caller == s.binding && call.expectRevision == s.revision
    ensures Cas(NoSize, s, call) == Ok(Accepted(Stored(a.state), a.advice)) && Inv(Stored(a.state))
  {
    hide Inv, Apply, Loads, KeepsProofs, IsBinding;
    OnlyRealRefusals(NoSize, s, call);
    CasKeeps(NoSize, s, call);
  }

  // ---- One read: admitted and answered ----

  function Completed(c: InitCall, n: Names, slot: Slot): Intent
    requires |n.ids| == 6 && c.covered != []
  {
    Intent(slot, FingerprintOf(AdmitRead(c, n, slot)), c.now, true, Admit, Some(CompletionOf(Answer(c, n, slot))))
  }

  function SlotsRead(n: Names, r: nat): map<Slot, string>
    requires |n.ids| == 6 && r <= 6
  {
    if r == 0 then map[] else SlotsRead(n, r - 1)[SlotAt(r - 1) := n.ids[r - 1]]
  }

  function IntentsRead(c: InitCall, n: Names, r: nat): map<string, Intent>
    requires |n.ids| == 6 && r <= 6 && c.covered != []
  {
    if r == 0 then map[] else IntentsRead(c, n, r - 1)[n.ids[r - 1] := Completed(c, n, SlotAt(r - 1))]
  }

  /** The first r slots have been read and no other. */
  predicate ReadBelow(c: InitCall, n: Names, r: nat, s: State)
    requires |n.ids| == 6 && c.covered != [] && r <= 6
  {
    s.slotIntent == SlotsRead(n, r) && s.intents == IntentsRead(c, n, r)
  }

  lemma {:induction false} ReadEntries(c: InitCall, n: Names, r: nat)
    requires |n.ids| == 6 && Distinct(n.ids) && r <= 6 && c.covered != []
    ensures forall x: Slot :: x in SlotsRead(n, r) <==> Rank(x) < r
    ensures forall x: Slot | Rank(x) < r :: SlotsRead(n, r)[x] == n.ids[Rank(x)]
    ensures forall i | 0 <= i < 6 :: n.ids[i] in IntentsRead(c, n, r) <==> i < r
    ensures forall x: Slot | Rank(x) < r :: IntentsRead(c, n, r)[n.ids[Rank(x)]] == Completed(c, n, x)
  {
    if r > 0 {
      ReadEntries(c, n, r - 1);
      hide Completed;
      forall x: Slot | Rank(x) == r - 1 ensures x == SlotAt(r - 1) { }
      forall i | 0 <= i < 6 && i != r - 1 ensures n.ids[i] != n.ids[r - 1] { }
    }
  }

  predicate Budgeted(c: InitCall, s: State) { s.cleanup.reserved == 1 && s.cleanup.deadline == Some(c.now + 1000) }

  lemma {:induction false} ReadInterval(c: InitCall, n: Names, r: nat, s: State, x: Slot)
    requires Proper(n) && c.covered != [] && r <= 6 && ReadBelow(c, n, r, s) && Rank(x) < r
    ensures Interval(s, x, c.now, c.now)
  {
    ReadEntries(c, n, r);
    hide SlotsRead, IntentsRead, Proper;
  }

  lemma {:induction false} ReadSlots(c: InitCall, n: Names, r: nat, s: State)
    requires Proper(n) && c.covered != [] && r < 6 && ReadBelow(c, n, r, s)
    ensures AllSucceededBelow(s, r) && SlotAt(r) !in s.slotIntent && n.ids[r] !in s.intents
  {
    forall x | x in ALL_SLOTS && Rank(x) < r ensures Succeeded(s, x) { ReadInterval(c, n, r, s, x); }
    ReadEntries(c, n, r);
  }

  function Asked(c: InitCall, n: Names, slot: Slot, s: State): State
    requires |n.ids| == 6 && c.covered != []
  {
    Consume(Admitting(s, c.now), c.now, AdmitRead(c, n, slot), Admit)
  }

  lemma {:induction false} StageOpen(c: InitCall, n: Names, k: nat, s: State, stage: int)
    requires At(c, n, k, s) && k < 14 && Budgeted(c, s) && stage <= PVE_BUDGET_S
    ensures NormalStage(s, CallAt(c, n, k), stage) == Ok(Admitting(s, c.now))
  {
    hide Path, OwnerAvailable, CommandAt;
    assert s.(lastNow := c.now) == s;
  }

  lemma {:induction false} StillSucceeded(s: State, now: int, rank: nat)
    requires AllSucceededBelow(s, rank)
    ensures AllSucceededBelow(Admitting(s, now), rank)
  {
    forall x | x in ALL_SLOTS && Rank(x) < rank
      ensures Succeeded(Admitting(s, now), x)
    {
      assert Succeeded(s, x);
    }
  }

  lemma {:induction false} AtNow(c: InitCall, n: Names, k: nat, s: State)
    requires At(c, n, k, s)
    ensures s.(lastNow := c.now) == s && AdvanceClock(s, c.now) == Ok(s)
  {
    hide Path, OwnerAvailable;
  }

  lemma {:induction false} AdmitAccepted(c: InitCall, n: Names, k: nat, s: State, slot: Slot)
    requires At(c, n, k, s) && k < 14 && CommandAt(c, n, k) == AdmitRead(c, n, slot) && slot != Metrics
    requires Proper(n) && Budgeted(c, s) && n.ids[Rank(slot)] !in s.intents && slot !in s.slotIntent
    requires AllSucceededBelow(s, Rank(slot)) && (!IsDiscovery(slot) ==> DeliveryReady(s))
    ensures Apply(s, CallAt(c, n, k)) == Ok(Accepted(Asked(c, n, slot, s), Advice(false, true, None)))
  {
    AtFacts(c, n, k, s);
    AtNow(c, n, k, s);
    StageOpen(c, n, k, s, StageOf(slot));
    StillSucceeded(s, c.now, Rank(slot));
    assert IsToken(n.ids[Rank(slot)]);
    hide At, Proper, IsToken, CommandAt, NormalStage, AdvanceClock, AllSucceededBelow, Budgeted, DeliveryReady,
         MetricsDeadlines, ExecuteRoute, ExecuteCleanup, ApplyOutcome;
  }

  function Replied(c: InitCall, n: Names, slot: Slot, s: State): State
    requires |n.ids| == 6 && c.covered != [] && n.ids[Rank(slot)] in s.intents
  {
    var completion := CompletionOf(Answer(c, n, slot));
    s.(intents := s.intents[n.ids[Rank(slot)] := s.intents[n.ids[Rank(slot)]].(result := Some(completion))],
       proof := WithProof(s.proof, slot, ProofOf(s.binding, completion)))
  }

  lemma {:induction false} AnswerAccepted(c: InitCall, n: Names, k: nat, s: State, slot: Slot)
    requires At(c, n, k, s) && k < 14 && CommandAt(c, n, k) == Answer(c, n, slot) && Proper(n)
    requires IsToken(c.fsid) && IsEndpoint(c.covered[0])
    requires n.ids[Rank(slot)] in s.intents && s.intents[n.ids[Rank(slot)]] == Completed(c, n, slot).(result := None)
    ensures Apply(s, CallAt(c, n, k)) == Ok(Accepted(Replied(c, n, slot, s), NO_ADVICE))
  {
    hide OwnerAvailable, IsToken, IsHex, IsEndpoint, Run, Calls, CommandAt, Distinct;
    assert s.(lastNow := c.now) == s;
  }

  /** A read leaves everything but its slot, its intent and its proof. */
  lemma {:induction false} ReadLeaves(c: InitCall, n: Names, slot: Slot, s: State)
    requires |n.ids| == 6 && c.covered != [] && s.binding == c.caller && s.lastNow == c.now
    ensures var a := Stored(Asked(c, n, slot, s));
            && n.ids[Rank(slot)] in a.intents && a.intents[n.ids[Rank(slot)]] == Completed(c, n, slot).(result := None)
            && var t := Stored(Replied(c, n, slot, a));
               && t.proof == WithProof(s.proof, slot, ReadProof(c, n, slot))
               && t.branch == s.branch && t.delivery == s.delivery && t.selectedManager == s.selectedManager
               && t.selectedEndpoint == s.selectedEndpoint
               && t.slotIntent == s.slotIntent[slot := n.ids[Rank(slot)]]
               && t.intents == s.intents[n.ids[Rank(slot)] := Completed(c, n, slot)]
               && (Budgeted(c, s) ==> Budgeted(c, t))
  {
    hide OwnerAvailable;
  }

  function ReadProof(c: InitCall, n: Names, slot: Slot): Proof
    requires |n.ids| == 6 && c.covered != []
  {
    ProofOf(c.caller, CompletionOf(Answer(c, n, slot)))
  }

  lemma {:induction false} EarlySlot(r: nat)
    requires r < 5
    ensures SlotAt(r) != Metrics
  {
  }

  lemma {:induction false} AtFacts(c: InitCall, n: Names, k: nat, s: State)
    requires At(c, n, k, s)
    ensures |n.ids| == 6 && c.covered != [] && k <= 14 && s.binding == c.caller && s.lastNow == c.now
  {
    hide Run, Calls, OwnerAvailable;
  }

  /** The two calls of one read, whose slot is the next in order. */
  lemma {:induction false} ReadNext(c: InitCall, n: Names, k: nat, r: nat, s: State) returns (t: State)
    requires Inv(s) && At(c, n, k, s) && k < 13 && Proper(n) && IsToken(c.fsid) && IsEndpoint(c.covered[0]) && r < 5
    requires CommandAt(c, n, k) == AdmitRead(c, n, SlotAt(r)) && CommandAt(c, n, k + 1) == Answer(c, n, SlotAt(r))
    requires ReadBelow(c, n, r, s) && Budgeted(c, s) && (!IsDiscovery(SlotAt(r)) ==> DeliveryReady(s))
    ensures Inv(t) && At(c, n, k + 2, t) && ReadBelow(c, n, r + 1, t) && Budgeted(c, t)
    ensures t.proof == WithProof(s.proof, SlotAt(r), ReadProof(c, n, SlotAt(r)))
    ensures t.branch == s.branch && t.delivery == s.delivery
    ensures t.selectedManager == s.selectedManager && t.selectedEndpoint == s.selectedEndpoint
  {
    hide *;
    AtFacts(c, n, k, s);
    EarlySlot(r);
    var slot := SlotAt(r);
    ReadSlots(c, n, r, s);
    ReadLeaves(c, n, slot, s);
    AdmitStep(c, n, k, s, slot);
    var asked := Stored(Asked(c, n, slot, s));
    AnswerStep(c, n, k + 1, asked, slot);
    t := Stored(Replied(c, n, slot, asked));
    OneMoreRead(c, n, r, s, t);
  }

  lemma {:induction false} AdmitStep(c: InitCall, n: Names, k: nat, s: State, slot: Slot)
    requires Inv(s) && At(c, n, k, s) && k < 14 && CommandAt(c, n, k) == AdmitRead(c, n, slot) && slot != Metrics
    requires Proper(n) && Budgeted(c, s) && n.ids[Rank(slot)] !in s.intents && slot !in s.slotIntent
    requires AllSucceededBelow(s, Rank(slot)) && (!IsDiscovery(slot) ==> DeliveryReady(s))
    ensures At(c, n, k + 1, Stored(Asked(c, n, slot, s))) && Inv(Stored(Asked(c, n, slot, s)))
  {
    AdmitAccepted(c, n, k, s, slot);
    assert s.lastNow == c.now;
    hide Inv, At, Apply, CommandAt, Calls, Reply, AllSucceededBelow, DeliveryReady, Proper, AdmitRead;
    NextCall(c, n, k, s, Accepted(Asked(c, n, slot, s), Advice(false, true, None)));
  }

  lemma {:induction false} AnswerStep(c: InitCall, n: Names, k: nat, s: State, slot: Slot)
    requires Inv(s) && At(c, n, k, s) && k < 14 && CommandAt(c, n, k) == Answer(c, n, slot) && Proper(n)
    requires IsToken(c.fsid) && IsEndpoint(c.covered[0])
    requires n.ids[Rank(slot)] in s.intents && s.intents[n.ids[Rank(slot)]] == Completed(c, n, slot).(result := None)
    ensures At(c, n, k + 1, Stored(Replied(c, n, slot, s))) && Inv(Stored(Replied(c, n, slot, s)))
  {
    AnswerAccepted(c, n, k, s, slot);
    hide Inv, At, Apply, CommandAt, Calls, Reply, IsToken, IsEndpoint, Proper, Completed, Answer;
    NextCall(c, n, k, s, Accepted(Replied(c, n, slot, s), NO_ADVICE));
  }

  lemma {:induction false} OneMoreRead(c: InitCall, n: Names, r: nat, s: State, t: State)
    requires |n.ids| == 6 && c.covered != [] && r < 6 && ReadBelow(c, n, r, s)
    requires t.slotIntent == s.slotIntent[SlotAt(r) := n.ids[r]]
             && t.intents == s.intents[n.ids[r] := Completed(c, n, SlotAt(r))]
    ensures ReadBelow(c, n, r + 1, t)
  {
    assert SlotsRead(n, r + 1) == SlotsRead(n, r)[SlotAt(r) := n.ids[r]];
    assert IntentsRead(c, n, r + 1) == IntentsRead(c, n, r)[n.ids[r] := Completed(c, n, SlotAt(r))];
  }

  // ---- The run ----

  predicate Usable(c: InitCall) {
    MayInitialise(c) && c.covered != []
  }

  lemma {:induction false} UsableNames(c: InitCall)
    requires Usable(c)
    ensures c.covered != [] && c.now >= 0 && IsToken(c.fsid) && IsEndpoint(c.covered[0]) && c.covered[0] in c.endpoints
    ensures Initial(NoSize, c) == Ok(Fresh(c)) && Inv(Fresh(c))
  {
    InitialHolds(NoSize, c);
    assert c.covered[0] in c.covered;
    hide Inv;
  }

  lemma {:induction false} ProperNames(n: Names)
    requires Proper(n)
    ensures |n.ids| == 6
  {
  }

  function Held(c: InitCall): State {
    Fresh(c).(cleanup := Fresh(c).cleanup.(reserved := 1, deadline := Some(c.now + 1000), ciEstimate := None))
  }

  lemma {:induction false} AtStart(c: InitCall, n: Names)
    requires Usable(c) && |n.ids| == 6
    ensures At(c, n, 0, Fresh(c))
  {
    assert Calls(c, n)[..0] == [];
    hide Calls;
    assert Run(NoSize, Fresh(c), []) == Fresh(c);
  }

  lemma {:induction false} HoldAccepted(c: InitCall, n: Names)
    requires c.covered != [] && |n.ids| == 6
    ensures Apply(Fresh(c), CallAt(c, n, 0)) == Ok(Accepted(Held(c), NO_ADVICE))
  {
  }

  lemma {:induction false} HeldFacts(c: InitCall, n: Names)
    requires |n.ids| == 6 && c.covered != []
    ensures var s, t := Fresh(c), Stored(Held(c));
            && Framed(s, Held(c)) && ReadBelow(c, n, 0, t) && Budgeted(c, t)
            && t.proof == map[] && t.branch.None? && t.selectedManager.None?
  {
  }

  lemma {:induction false} Reserved(c: InitCall, n: Names) returns (t: State)
    requires Usable(c) && Proper(n)
    ensures Inv(t) && At(c, n, 1, t) && ReadBelow(c, n, 0, t) && Budgeted(c, t)
    ensures t.proof == map[] && t.branch.None? && t.selectedManager.None?
  {
    hide *;
    UsableNames(c);
    ProperNames(n);
    AtStart(c, n);
    HoldAccepted(c, n);
    HeldFacts(c, n);
    NextCall(c, n, 0, Fresh(c), Accepted(Held(c), NO_ADVICE));
    t := Stored(Held(c));
  }

  lemma {:induction false} DiscoveryCalls(c: InitCall, n: Names)
    requires |n.ids| == 6 && c.covered != []
    ensures IsDiscovery(SlotAt(0)) && IsDiscovery(SlotAt(1)) && IsDiscovery(SlotAt(2)) && IsDiscovery(SlotAt(3))
    ensures SlotAt(0) == Version && SlotAt(1) == Permissions && SlotAt(2) == CephStatus && SlotAt(3) == CephPool
    ensures CommandAt(c, n, 1) == AdmitRead(c, n, SlotAt(0)) && CommandAt(c, n, 2) == Answer(c, n, SlotAt(0))
    ensures CommandAt(c, n, 3) == AdmitRead(c, n, SlotAt(1)) && CommandAt(c, n, 4) == Answer(c, n, SlotAt(1))
    ensures CommandAt(c, n, 5) == AdmitRead(c, n, SlotAt(2)) && CommandAt(c, n, 6) == Answer(c, n, SlotAt(2))
    ensures CommandAt(c, n, 7) == AdmitRead(c, n, SlotAt(3)) && CommandAt(c, n, 8) == Answer(c, n, SlotAt(3))
    ensures Rank(Version) == 0 && Rank(Permissions) == 1
  {
    hide AdmitRead, Answer;
  }

  lemma {:induction false} OneProof(p: Proof, a: Proof, b: Proof, d: Proof)
    ensures WithProof(WithProof(WithProof(WithProof(map[], Version, a), Permissions, b), CephStatus, p), CephPool, d)
            == map[DiscoveryProof := p]
  {
  }

  /** The four discovery reads; after the first two, two intervals are one and the same instant. */
  lemma {:induction false} DiscoveryReads(c: InitCall, n: Names) returns (early: State, t: State)
    requires Usable(c) && Proper(n)
    ensures At(c, n, 5, early) && Interval(early, Version, c.now, c.now) && Interval(early, Permissions, c.now, c.now)
    ensures Inv(t) && At(c, n, 9, t) && ReadBelow(c, n, 4, t) && Budgeted(c, t)
    ensures t.proof == map[DiscoveryProof := ReadProof(c, n, CephStatus)] && t.branch.None? && t.selectedManager.None?
  {
    hide *;
    UsableNames(c);
    ProperNames(n);
    var s1 := Reserved(c, n);
    DiscoveryCalls(c, n);
    var s2 := ReadNext(c, n, 1, 0, s1);
    early := ReadNext(c, n, 3, 1, s2);
    var s4 := ReadNext(c, n, 5, 2, early);
    t := ReadNext(c, n, 7, 3, s4);
    OneProof(ReadProof(c, n, CephStatus), ReadProof(c, n, Version), ReadProof(c, n, Permissions),
        ReadProof(c, n, CephPool));
    ReadInterval(c, n, 2, early, Version);
    ReadInterval(c, n, 2, early, Permissions);
  }

  function Routed(c: InitCall, n: Names, s: State): State
    requires c.covered != []
  {
    Admitting(s, c.now).(branch := Some(Existing), selectedManager := Some(n.manager),
        selectedEndpoint := Some(c.covered[0]))
  }

  lemma {:induction false} SelectAccepted(c: InitCall, n: Names, s: State)
    requires At(c, n, 9, s) && Budgeted(c, s) && AllSucceededBelow(s, 4) && s.branch.None? && s.selectedManager.None?
    requires s.proof == map[DiscoveryProof := ReadProof(c, n, CephStatus)] && c.covered[0] in c.endpoints
    ensures Apply(s, CallAt(c, n, 9)) == Ok(Accepted(Routed(c, n, s), NO_ADVICE))
  {
    StageOpen(c, n, 9, s, 1);
    StillSucceeded(s, c.now, 4);
    assert s.contract == Contract(c.fsid, c.endpoints, c.covered) && s.binding == c.caller && c.now >= 0;
    hide At, NormalStage, Eligible, AllSucceededBelow;
    assert c.covered[0] in c.covered;
  }

  lemma {:induction false} RoutedFacts(c: InitCall, n: Names, s: State)
    requires |n.ids| == 6 && c.covered != [] && Budgeted(c, s) && ReadBelow(c, n, 4, s) && s.lastNow == c.now
    ensures var t := Stored(Routed(c, n, s));
            && Framed(s, Routed(c, n, s)) && Budgeted(c, t) && ReadBelow(c, n, 4, t) && t.proof == s.proof
            && t.branch == Some(Existing) && t.selectedManager == Some(n.manager)
            && t.selectedEndpoint == Some(c.covered[0])
  {
    hide SlotsRead, IntentsRead;
  }

  lemma {:induction false} Selected(c: InitCall, n: Names, s: State) returns (t: State)
    requires Inv(s) && At(c, n, 9, s) && Budgeted(c, s) && ReadBelow(c, n, 4, s) && Proper(n)
    requires s.branch.None? && s.selectedManager.None? && c.covered[0] in c.endpoints
    requires s.proof == map[DiscoveryProof := ReadProof(c, n, CephStatus)]
    ensures Inv(t) && At(c, n, 10, t) && Budgeted(c, t) && ReadBelow(c, n, 4, t) && t.proof == s.proof
    ensures t.branch == Some(Existing) && t.selectedManager == Some(n.manager)
            && t.selectedEndpoint == Some(c.covered[0])
  {
    hide *;
    AtFacts(c, n, 9, s);
    ReadSlots(c, n, 4, s);
    SelectAccepted(c, n, s);
    RoutedFacts(c, n, s);
    NextCall(c, n, 9, s, Accepted(Routed(c, n, s), NO_ADVICE));
    t := Stored(Routed(c, n, s));
  }

  function Delivered(c: InitCall, s: State): State {
    Admitting(s, c.now).(delivery := Some(Delivery(Ready, Ready, Ready)))
  }

  lemma {:induction false} DeliveryAccepted(c: InitCall, n: Names, s: State)
    requires At(c, n, 10, s) && Budgeted(c, s) && s.branch == Some(Existing) && Revalidation !in s.slotIntent
    ensures Apply(s, CallAt(c, n, 10)) == Ok(Accepted(Delivered(c, s), NO_ADVICE))
  {
    StageOpen(c, n, 10, s, 1);
    hide Path, OwnerAvailable, NormalStage, Calls;
  }

  lemma {:induction false} DeliveredFacts(c: InitCall, n: Names, s: State)
    requires |n.ids| == 6 && c.covered != [] && Budgeted(c, s) && ReadBelow(c, n, 4, s) && s.lastNow == c.now
    requires s.branch == Some(Existing)
    ensures var t := Stored(Delivered(c, s));
            && Framed(s, Delivered(c, s)) && Budgeted(c, t) && ReadBelow(c, n, 4, t) && t.proof == s.proof
            && DeliveryReady(t) && t.branch == s.branch
            && t.selectedManager == s.selectedManager && t.selectedEndpoint == s.selectedEndpoint
    ensures SlotAt(4) == Revalidation
  {
    hide SlotsRead, IntentsRead;
  }

  lemma {:induction false} Observed(c: InitCall, n: Names, s: State) returns (t: State)
    requires Inv(s) && At(c, n, 10, s) && Budgeted(c, s) && ReadBelow(c, n, 4, s) && Proper(n)
    requires s.branch == Some(Existing)
    ensures Inv(t) && At(c, n, 11, t) && Budgeted(c, t) && ReadBelow(c, n, 4, t) && t.proof == s.proof
    ensures DeliveryReady(t) && t.branch == s.branch
    ensures t.selectedManager == s.selectedManager && t.selectedEndpoint == s.selectedEndpoint
  {
    hide *;
    AtFacts(c, n, 10, s);
    ReadSlots(c, n, 4, s);
    DeliveredFacts(c, n, s);
    DeliveryAccepted(c, n, s);
    NextCall(c, n, 10, s, Accepted(Delivered(c, s), NO_ADVICE));
    t := Stored(Delivered(c, s));
  }

  /** Everything the metrics admission asks for. */
  predicate MetricsReady(c: InitCall, n: Names, s: State)
    requires |n.ids| == 6 && c.covered != []
  {
    && Budgeted(c, s) && DeliveryReady(s)
    && s.selectedManager == Some(n.manager) && s.selectedEndpoint == Some(c.covered[0])
    && RevalidationProof in s.proof && s.proof[RevalidationProof] == ReadProof(c, n, Revalidation)
  }

  lemma {:induction false} Revalidated(c: InitCall, n: Names) returns (early: State, t: State)
    requires Usable(c) && Proper(n)
    ensures At(c, n, 5, early) && Interval(early, Version, c.now, c.now) && Interval(early, Permissions, c.now, c.now)
    ensures Inv(t) && At(c, n, 13, t) && ReadBelow(c, n, 5, t) && MetricsReady(c, n, t)
  {
    hide *;
    UsableNames(c);
    ProperNames(n);
    var s9: State;
    early, s9 := DiscoveryReads(c, n);
    var s10 := Selected(c, n, s9);
    var s11 := Observed(c, n, s10);
    LastCalls(c, n);
    t := ReadNext(c, n, 11, 4, s11);
    ReadyForMetrics(c, n, s11, t);
  }

  lemma {:induction false} LastCalls(c: InitCall, n: Names)
    requires |n.ids| == 6 && c.covered != []
    ensures SlotAt(4) == Revalidation
    ensures CommandAt(c, n, 11) == AdmitRead(c, n, SlotAt(4)) && CommandAt(c, n, 12) == Answer(c, n, SlotAt(4))
  {
    hide AdmitRead, Answer;
  }

  lemma {:induction false} ReadyForMetrics(c: InitCall, n: Names, s: State, t: State)
    requires |n.ids| == 6 && c.covered != [] && DeliveryReady(s) && s.branch == Some(Existing) && Budgeted(c, t)
    requires s.selectedManager == Some(n.manager) && s.selectedEndpoint == Some(c.covered[0])
    requires t.proof == WithProof(s.proof, Revalidation, ReadProof(c, n, Revalidation))
    requires t.branch == s.branch && t.delivery == s.delivery
    requires t.selectedManager == s.selectedManager && t.selectedEndpoint == s.selectedEndpoint
    ensures MetricsReady(c, n, t)
  {
  }

  /** The last-moment proof check passes, with both deadlines five minutes away. */
  lemma {:induction false} MetricsInTime(c: InitCall, n: Names, s: State)
    requires At(c, n, 13, s) && MetricsReady(c, n, s) && c.covered[0] in c.endpoints
    ensures RevalidationProof in s.proof && s.cleanup.deadline.Some?
    ensures MetricsDeadlines(Admitting(s, c.now), c.now, AdmitRead(c, n, Metrics))
            == Ok(Deadlines(c.now + 300, c.now + 300, METRICS_BUDGET_S))
  {
    hide Path, OwnerAvailable;
  }

  lemma {:induction false} MetricsAccepted(c: InitCall, n: Names, s: State)
    requires At(c, n, 13, s) && MetricsReady(c, n, s) && Proper(n) && c.covered[0] in c.endpoints
    requires AllSucceededBelow(s, 5) && Metrics !in s.slotIntent && n.ids[5] !in s.intents
    ensures Apply(s, CallAt(c, n, 13))
            == Ok(Accepted(Asked(c, n, Metrics, s), Advice(false, true,
                Some(Deadlines(c.now + 300, c.now + 300, METRICS_BUDGET_S)))))
  {
    AtNow(c, n, 13, s);
    StageOpen(c, n, 13, s, METRICS_BUDGET_S);
    StillSucceeded(s, c.now, 5);
    MetricsInTime(c, n, s);
    assert IsToken(n.ids[5]) && DeliveryReady(Admitting(s, c.now));
    hide At, Proper, IsToken, NormalStage, AdvanceClock, AllSucceededBelow, MetricsDeadlines, MetricsReady,
        DeliveryReady;
  }

  lemma {:induction false} MetricsRead(c: InitCall, n: Names, s: State)
    requires Usable(c) && Proper(n) && Inv(s) && At(c, n, 13, s) && ReadBelow(c, n, 5, s) && MetricsReady(c, n, s)
    ensures Dispatches(Reply(NoSize, Fresh(c), Calls(c, n), 13)) && Path(c, n, 14, Stored(Asked(c, n, Metrics, s)))
  {
    UsableNames(c);
    ReadSlots(c, n, 5, s);
    assert SlotAt(5) == Metrics;
    MetricsAccepted(c, n, s);
    hide Inv, Apply, CallAt, Proper, Usable, AllSucceededBelow, SlotsRead, IntentsRead, Path, Calls, Reply;
    NextCall(c, n, 13, s, Accepted(Asked(c, n, Metrics, s), Advice(false, true,
        Some(Deadlines(c.now + 300, c.now + 300, METRICS_BUDGET_S)))));
  }

  // ---- What it shows ----

  /** A metrics read is reachable: whatever the encoding, if the fifteen ledgers of this run fit, all its fourteen calls
      are accepted and the last of them dispatches the read. */
  lemma {:induction false} MetricsReadReachable(size: State -> nat, c: InitCall, n: Names)
    requires Usable(c) && Proper(n) && Fits(size, Fresh(c), Calls(c, n))
    ensures forall k | 0 <= k < 14 :: Reply(size, Fresh(c), Calls(c, n), k).Ok?
    ensures Calls(c, n)[13].command.AdmitSlot? && Calls(c, n)[13].command.slot == Metrics
    ensures Dispatches(Reply(size, Fresh(c), Calls(c, n), 13))
  {
    hide *;
    UsableNames(c);
    ProperNames(n);
    var early, s := Revalidated(c, n);
    MetricsRead(c, n, s);
    LastIsMetrics(c, n);
    forall k | 0 <= k < 14
      ensures Reply(size, Fresh(c), Calls(c, n), k) == Reply(NoSize, Fresh(c), Calls(c, n), k)
    {
      FittingRun(size, Fresh(c), Calls(c, n), k);
    }
    PathAccepts(c, n, 14, Stored(Asked(c, n, Metrics, s)));
  }

  lemma {:induction false} LastIsMetrics(c: InitCall, n: Names)
    requires |n.ids| == 6 && c.covered != []
    ensures Calls(c, n)[13].command.AdmitSlot? && Calls(c, n)[13].command.slot == Metrics
  {
  }

  lemma {:induction false} PathAccepts(c: InitCall, n: Names, k: nat, s: State)
    requires |n.ids| == 6 && c.covered != [] && k <= 14 && Path(c, n, k, s)
    ensures Run(NoSize, Fresh(c), Calls(c, n)[..k]) == s
    ensures forall j | 0 <= j < k :: Reply(NoSize, Fresh(c), Calls(c, n), j).Ok?
  {
    hide Cas, Run, Calls;
    forall j | 0 <= j < k ensures Reply(NoSize, Fresh(c), Calls(c, n), j).Ok? { assert Accepts(c, n, j); }
  }

  /** Strict disjointness fails: the first five calls of the same run are accepted, and after them two slots have
      succeeded over the same single instant. */
  lemma {:induction false} IntervalsMayTouch(size: State -> nat, c: InitCall, n: Names)
    requires Usable(c) && Proper(n) && Fits(size, Fresh(c), Calls(c, n)[..5])
    ensures forall k | 0 <= k < 5 :: Reply(size, Fresh(c), Calls(c, n)[..5], k).Ok?
    ensures var s := Run(size, Fresh(c), Calls(c, n)[..5]);
            Interval(s, Version, c.now, c.now) && Interval(s, Permissions, c.now, c.now)
  {
    hide *;
    UsableNames(c);
    ProperNames(n);
    var early, s := DiscoveryReads(c, n);
    AtPath(c, n, 5, early);
    PathAccepts(c, n, 5, early);
    var calls := Calls(c, n);
    assert calls[..5][..5] == calls[..5];
    FittingRun(size, Fresh(c), calls[..5], 5);
    forall k | 0 <= k < 5
      ensures Reply(size, Fresh(c), calls[..5], k).Ok?
    {
      FittingRun(size, Fresh(c), calls[..5], k);
      SameReply(Fresh(c), calls, k);
    }
  }

  lemma {:induction false} AtPath(c: InitCall, n: Names, k: nat, s: State)
    requires At(c, n, k, s)
    ensures |n.ids| == 6 && c.covered != [] && k <= 14 && Path(c, n, k, s)
  {
    hide Path, OwnerAvailable;
  }

  lemma {:induction false} SameReply(s: State, calls: seq<Call>, k: nat)
    requires |calls| >= 5 && k < 5
    ensures Reply(NoSize, s, calls[..5], k) == Reply(NoSize, s, calls, k)
  {
    hide Cas, Run;
    assert calls[..5][..k] == calls[..k];
  }
}
