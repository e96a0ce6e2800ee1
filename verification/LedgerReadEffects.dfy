/** The reading commands and the cleanup reports once more, in terms of the stored ledger and the caller's words alone,
    and what an open blocker or a refused call means for a whole run. */
module LedgerReadEffects {
  import opened Common
  import opened LedgerModel
  import opened LedgerInvariant
  import opened LedgerReads
  import opened LedgerTheorems
  import opened LedgerEffects

  // ---- Admitting a slot ----

  predicate SameWords(f: Fingerprint, c: Command)
    requires c.AdmitSlot?
  {
    && f.slot == c.slot && f.decision == c.decision && f.fsid == c.fsid && f.manager == c.manager
    && f.endpoint == c.endpoint && f.receipt == c.receipt
  }

  /** A known intent is answered as a replay, whatever became of it, and only in its own words. */
  lemma ReplayDoes(size: State -> nat, s: State, call: Call)
    requires call.command.AdmitSlot? && call.command.intentId in s.intents
    ensures var c := call.command;
            Does(size, s, call,
                 s.lastNow <= call.now && IsToken(c.intentId) && SameWords(s.intents[c.intentId].fingerprint, c),
                 Ticked(s, call), Advice(true, false, None))
  {
    var c := call.command;
    hide IsToken, NormalStage;
    Answers(size, s, call,
            s.lastNow <= call.now && IsToken(c.intentId) && SameWords(s.intents[c.intentId].fingerprint, c),
            Ticked(s, call), Advice(true, false, None));
  }

  /** A branch was selected, everything on it was observed ready, and a new branch runs its own squash merge. */
  predicate Delivered(s: State) {
    && s.branch.Some? && s.delivery.Some?
    && s.delivery.value.deployment == Ready && s.delivery.value.grant == Ready && s.delivery.value.cnp == Ready
    && (s.branch == Some(New) ==>
          && s.merge.Some? && s.selectedHead == Some(s.merge.value.prHead)
          && s.merge.value.merged != s.merge.value.prHead
          && s.merge.value.fluxSource == s.merge.value.merged && s.merge.value.fluxApplied == s.merge.value.merged)
  }

  /** The slot is free and it is its turn. */
  predicate Admittable(s: State, call: Call)
    requires call.command.AdmitSlot?
  {
    var c := call.command;
    && IsToken(c.intentId) && c.slot !in s.slotIntent && AllDone(s, Before(c.slot))
    && MayStage(s, call, if c.slot == Metrics then 10 else 12)
    && (c.slot in {Version, Permissions, CephStatus, CephPool} ==> s.candidates != [] || s.contract.covered != [])
    && (c.slot in {Revalidation, Metrics} ==> Delivered(s))
  }

  function Consuming(s: State, call: Call, d: Decision): State
    requires call.command.AdmitSlot?
  {
    var c := call.command;
    var f := Fingerprint(c.slot, c.decision, c.fsid, c.manager, c.endpoint, c.receipt);
    Restaged(s, call).(slotIntent := s.slotIntent[c.slot := c.intentId],
                       intents := s.intents[c.intentId := Intent(c.slot, f, call.now, d == Admit, d, None)])
  }

  lemma DeliveredExactly(s: State)
    ensures DeliveryReady(s) <==> Delivered(s)
  {
  }

  lemma AdmitApplies(s: State, call: Call)
    requires call.command.AdmitSlot? && call.command.intentId !in s.intents
    requires !(call.command.slot == Metrics && call.command.decision == Admit)
    ensures ApplyAdmit(s, call).Ok? <==> Admittable(s, call)
    ensures var c := call.command;
            ApplyAdmit(s, call).Ok? ==>
              ApplyAdmit(s, call).value == Accepted(Consuming(s, call, c.decision).(revision := s.revision),
                                                    Advice(false, c.decision == Admit, None))
  {
    AdmitOpens(s, call);
    hide NormalStage, MayStage, AllDone, AllSucceededBelow, DeliveryReady, Delivered, IsToken;
  }

  /** The checks of an admission, one after the other. */
  lemma AdmitOpens(s: State, call: Call)
    requires call.command.AdmitSlot?
    ensures var c, t := call.command, s.(lastNow := call.now);
            var stage := if c.slot == Metrics then 10 else 12;
            && StageOf(c.slot) == stage
            && (s.lastNow <= call.now ==>
                  && (NormalStage(t, call, stage).Ok? <==> MayStage(s, call, stage))
                  && (NormalStage(t, call, stage).Ok? ==> NormalStage(t, call, stage).value == Admitting(s, call.now)))
            && (MayStage(s, call, stage) ==> s.lastNow <= call.now)
            && (IsDiscovery(c.slot) <==> c.slot in {Version, Permissions, CephStatus, CephPool})
            && (!IsDiscovery(c.slot) <==> c.slot in {Revalidation, Metrics})
            && (AllSucceededBelow(Admitting(s, call.now), Rank(c.slot)) <==> AllDone(s, Before(c.slot)))
            && (DeliveryReady(Admitting(s, call.now)) <==> Delivered(s))
  {
    var c, t := call.command, s.(lastNow := call.now);
    var stage := if c.slot == Metrics then 10 else 12;
    StagesExactly(t, call, stage);
    DoneBelow(Admitting(s, call.now), c.slot);
    assert forall x: Slot :: Done(Admitting(s, call.now), x) == Done(s, x);
    DeliveredExactly(Admitting(s, call.now));
    hide NormalStage, AllDone, AllSucceededBelow, DeliveryReady;
    assert AllDone(Admitting(s, call.now), Before(c.slot)) <==> AllDone(s, Before(c.slot)) by {
      SameDone(Admitting(s, call.now), s, Before(c.slot));
    }
  }

  lemma SameDone(s: State, t: State, xs: seq<Slot>)
    requires s.slotIntent == t.slotIntent && s.intents == t.intents
    ensures AllDone(s, xs) <==> AllDone(t, xs)
  {
  }

  lemma AdmitDoes(size: State -> nat, s: State, call: Call)
    requires call.command.AdmitSlot? && call.command.intentId !in s.intents
    requires !(call.command.slot == Metrics && call.command.decision == Admit)
    ensures Does(size, s, call, Admittable(s, call), Consuming(s, call, call.command.decision),
                 Advice(false, call.command.decision == Admit, None))
  {
    AdmitApplies(s, call);
    hide ApplyAdmit, Admittable;
    assert Consuming(s, call, call.command.decision).revision == s.revision + 1;
    Answers(size, s, call, Admittable(s, call), Consuming(s, call, call.command.decision),
            Advice(false, call.command.decision == Admit, None));
  }

  /** The two deadlines of a metrics read and its own budget. */
  function ReadBy(s: State): Deadlines
    requires RevalidationProof in s.proof && s.cleanup.deadline.Some?
  {
    var until, close := s.proof[RevalidationProof].requestAt + 300, s.cleanup.deadline.value - s.cleanup.reserved;
    Deadlines(until, if close < until then close else until, 10)
  }

  /** The revalidation is quoted word for word and has ten more seconds to live. */
  predicate Revalidated(s: State, call: Call)
    requires call.command.AdmitSlot? && RevalidationProof in s.proof
  {
    var c := call.command;
    Quoted(s, call.now, 10, s.proof[RevalidationProof], c.fsid, c.manager, c.endpoint, c.receipt)
  }

  lemma MetricsApplies(s: State, call: Call)
    requires call.command.AdmitSlot? && call.command.intentId !in s.intents
    requires call.command.slot == Metrics && call.command.decision == Admit
    ensures ApplyAdmit(s, call).Ok? <==> Admittable(s, call) && RevalidationProof in s.proof
    ensures ApplyAdmit(s, call).Ok? ==>
              && RevalidationProof in s.proof && s.cleanup.deadline.Some?
              && ApplyAdmit(s, call).value
                 == (if Revalidated(s, call)
                     then Accepted(Consuming(s, call, Admit).(revision := s.revision),
                                   Advice(false, true, Some(ReadBy(s))))
                     else Accepted(Consuming(s, call, Denied).(revision := s.revision), Advice(false, false, None)))
  {
    var c, s2 := call.command, Admitting(s, call.now);
    AdmitOpens(s, call);
    assert MayStage(s, call, 10) ==> s.cleanup.deadline.Some?;
    hide NormalStage, MayStage, AllDone, AllSucceededBelow, DeliveryReady, Delivered, IsToken;
    if RevalidationProof in s.proof {
      QuotesExactly(s2, call.now, 10, s.proof[RevalidationProof], c.fsid, c.manager, c.endpoint, c.receipt);
      hide ClassifyProof, ProofMatches;
    }
  }

  /** An admitted metrics read: dispatched with its deadlines when revalidated, and otherwise denied, its slot spent. */
  lemma MetricsDoes(size: State -> nat, s: State, call: Call)
    requires call.command.AdmitSlot? && call.command.intentId !in s.intents
    requires call.command.slot == Metrics && call.command.decision == Admit
    requires RevalidationProof in s.proof && s.cleanup.deadline.Some?
    ensures Revalidated(s, call) ==>
              Does(size, s, call, Admittable(s, call), Consuming(s, call, Admit), Advice(false, true, Some(ReadBy(s))))
    ensures !Revalidated(s, call) ==>
              Does(size, s, call, Admittable(s, call), Consuming(s, call, Denied), Advice(false, false, None))
  {
    MetricsApplies(s, call);
    hide ApplyAdmit, Admittable, Revalidated, ReadBy;
    if Revalidated(s, call) {
      assert Consuming(s, call, Admit).revision == s.revision + 1;
      Answers(size, s, call, Admittable(s, call), Consuming(s, call, Admit), Advice(false, true, Some(ReadBy(s))));
    } else {
      assert Consuming(s, call, Denied).revision == s.revision + 1;
      Answers(size, s, call, Admittable(s, call), Consuming(s, call, Denied), Advice(false, false, None));
    }
  }

  lemma MetricsNeedsProof(size: State -> nat, s: State, call: Call)
    requires call.command.AdmitSlot? && call.command.intentId !in s.intents
    requires call.command.slot == Metrics && call.command.decision == Admit && Cas(size, s, call).Ok?
    ensures RevalidationProof in s.proof && s.cleanup.deadline.Some?
  {
    CasAnswers(size, s, call);
    MetricsApplies(s, call);
  }

  // ---- Recording an outcome ----

  function Answer(call: Call): Completion
    requires call.command.RecordOutcome?
  {
    var c := call.command;
    Completion(c.outcome, c.requestAt, c.observedAt, c.receipt, c.body, c.fsid, c.manager, c.endpoint)
  }

  predicate Answerable(s: State, call: Call)
    requires call.command.RecordOutcome?
  {
    var c := call.command;
    && c.outcome in {"success", "denied", "unknown", "uncertain", "failure"} && IsToken(c.receipt)
    && c.intentId in s.intents && s.intents[c.intentId].dispatch && s.intents[c.intentId].decision == Admit
  }

  /** An answered intent keeps its first answer: the same words are a replay and other words are refused. */
  lemma AnsweredDoes(size: State -> nat, s: State, call: Call)
    requires call.command.RecordOutcome? && call.command.intentId in s.intents
    requires s.intents[call.command.intentId].result.Some?
    ensures Does(size, s, call,
                 s.lastNow <= call.now && Answerable(s, call)
                 && s.intents[call.command.intentId].result == Some(Answer(call)),
                 Ticked(s, call), Advice(true, false, None))
  {
    hide IsToken;
    Answers(size, s, call, s.lastNow <= call.now && Answerable(s, call)
            && s.intents[call.command.intentId].result == Some(Answer(call)), Ticked(s, call),
            Advice(true, false, None));
  }

  /** A successful read was asked for after its admission, answered by now, with a body hash; Ceph answers name a
      route. */
  predicate Proving(s: State, call: Call)
    requires call.command.RecordOutcome? && call.command.intentId in s.intents
  {
    var c, i := call.command, s.intents[call.command.intentId];
    && c.requestAt.Some? && c.observedAt.Some? && c.body.Some? && IsHex(c.body.value, 64)
    && i.admittedAt <= c.requestAt.value <= c.observedAt.value <= call.now
    && (i.slot in {CephStatus, Revalidation} ==> IsToken(c.fsid) && IsToken(c.manager) && IsEndpoint(c.endpoint))
  }

  function Answered(s: State, call: Call): State
    requires call.command.RecordOutcome? && call.command.intentId in s.intents
  {
    var id := call.command.intentId;
    Ticked(s, call).(intents := s.intents[id := s.intents[id].(result := Some(Answer(call)))])
  }

  /** The proof a successful Ceph read leaves: its own answer under this ledger's binding. */
  function Proved(s: State, call: Call): map<ProofKey, Proof>
    requires call.command.RecordOutcome? && call.command.intentId in s.intents && Proving(s, call)
  {
    var c := call.command;
    var p := Proof(s.binding, c.requestAt.value, c.observedAt.value, c.receipt, c.body.value,
                   c.fsid, c.manager, c.endpoint);
    match s.intents[c.intentId].slot
    case CephStatus => s.proof[DiscoveryProof := p]
    case Revalidation => s.proof[RevalidationProof := p]
    case _ => s.proof
  }

  lemma OutcomeDoes(size: State -> nat, s: State, call: Call)
    requires call.command.RecordOutcome? && call.command.intentId in s.intents
    requires s.intents[call.command.intentId].result.None? && call.command.outcome != "success"
    ensures Does(size, s, call, s.lastNow <= call.now && Answerable(s, call), Answered(s, call), NO_ADVICE)
  {
    hide IsToken;
    Answers(size, s, call, s.lastNow <= call.now && Answerable(s, call), Answered(s, call), NO_ADVICE);
  }

  lemma SuccessApplies(s: State, call: Call)
    requires call.command.RecordOutcome? && call.command.intentId in s.intents && call.command.outcome == "success"
    requires s.intents[call.command.intentId].result.None? && s.lastNow <= call.now
    ensures var t := s.(lastNow := call.now);
            && (ApplyOutcome(t, call.now, call.command).Ok? <==> Answerable(s, call) && Proving(s, call))
            && (Proving(s, call) && ApplyOutcome(t, call.now, call.command).Ok? ==>
                  ApplyOutcome(t, call.now, call.command).value
                  == Accepted(Answered(s, call).(revision := s.revision, proof := Proved(s, call)), NO_ADVICE))
  {
    hide IsToken, IsEndpoint, IsHex;
  }

  /** An open read has no proof yet, so recording its answer overwrites none. */
  lemma OpenReadHasNoProof(s: State, call: Call)
    requires call.command.RecordOutcome? && call.command.intentId in s.intents && Proving(s, call)
    requires s.intents[call.command.intentId].result.None? && MutuallyInverse(s.intents, s.slotIntent)
    requires ProofIsAnswer(s, DiscoveryProof, CephStatus) && ProofIsAnswer(s, RevalidationProof, Revalidation)
    ensures KeepsProofs(s, s.(proof := Proved(s, call)))
  {
    assert !Succeeded(s, s.intents[call.command.intentId].slot) by { hide Proving; }
    hide MutuallyInverse, IsToken, IsEndpoint, IsHex;
  }

  lemma SuccessAnswers(size: State -> nat, s: State, call: Call)
    requires call.command.RecordOutcome? && call.command.intentId in s.intents && call.command.outcome == "success"
    requires s.intents[call.command.intentId].result.None? && Proving(s, call)
    requires KeepsProofs(s, s.(proof := Proved(s, call)))
    ensures Does(size, s, call, s.lastNow <= call.now && Answerable(s, call),
                 Answered(s, call).(proof := Proved(s, call)), NO_ADVICE)
  {
    if s.lastNow <= call.now { SuccessApplies(s, call); }
    hide ApplyOutcome, Proving, Answerable, Proved, IsToken;
    Answers(size, s, call, s.lastNow <= call.now && Answerable(s, call),
            Answered(s, call).(proof := Proved(s, call)), NO_ADVICE);
  }

  /** A success is recorded with its proof, and nothing else of the ledger moves. */
  lemma SuccessDoes(size: State -> nat, s: State, call: Call)
    requires call.command.RecordOutcome? && call.command.intentId in s.intents && call.command.outcome == "success"
    requires s.intents[call.command.intentId].result.None? && Proving(s, call) && Inv(s)
    ensures Does(size, s, call, s.lastNow <= call.now && Answerable(s, call),
                 Answered(s, call).(proof := Proved(s, call)), NO_ADVICE)
  {
    hide Inv, ProofIsAnswer, MutuallyInverse, AllSucceededBelow, Proving;
    InvProofs(s);
    InvOrder(s);
    OpenReadHasNoProof(s, call);
    SuccessAnswers(size, s, call);
  }

  /** Only a proving success is accepted. */
  lemma SuccessNeedsProof(size: State -> nat, s: State, call: Call)
    requires call.command.RecordOutcome? && call.command.outcome == "success" && Cas(size, s, call).Ok?
    ensures call.command.intentId in s.intents
    ensures s.intents[call.command.intentId].result.Some? || Proving(s, call)
  {
    CasStores(size, s, call);
    hide Cas;
    if call.command.intentId in s.intents && s.intents[call.command.intentId].result.None? { SuccessApplies(s, call); }
  }

  lemma UnknownOutcomeIsRefused(size: State -> nat, s: State, call: Call)
    requires call.command.RecordOutcome? && call.command.intentId !in s.intents
    ensures Cas(size, s, call).Err?
  {
  }

  // ---- Reporting a grant ----

  /** Grant i is the first with this UID; i is their number when none has it. */
  predicate PlaceOf(s: State, uid: string, i: int) {
    && 0 <= i <= |s.cleanup.grants| && (i < |s.cleanup.grants| ==> s.cleanup.grants[i].uid == uid)
    && forall j | 0 <= j < i :: s.cleanup.grants[j].uid != uid
  }

  /** A known grant keeps its class, expiry and CNP; a grant is gone only with its CNP, for a reason its owner may give,
      and naturally only once expired; a seventeenth grant has no place. */
  predicate Reportable(s: State, call: Call, i: int)
    requires call.command.RecordResidual? && PlaceOf(s, call.command.uid, i)
  {
    var c, grants := call.command, s.cleanup.grants;
    && IsToken(c.uid) && IsToken(c.receipt) && IsToken(c.cnpUid) && s.lastNow <= call.now && i < 16
    && (i < |grants| ==>
          grants[i].ownerClass == c.ownerClass && grants[i].expiresAt == c.expiresAt && grants[i].cnpUid == c.cnpUid)
    && (c.active
        || (c.cnpState == Absent
            && ((c.reason == "natural-expiry" && c.expiresAt <= call.now)
                || (c.reason == "released" && c.ownerClass == Own))))
  }

  function Reported(s: State, call: Call, i: int): State
    requires call.command.RecordResidual? && PlaceOf(s, call.command.uid, i)
  {
    var c, grants := call.command, s.cleanup.grants;
    var g := Grant(c.uid, c.ownerClass, c.expiresAt, c.active, c.cnpState, c.cnpUid, c.reason, c.receipt, call.now);
    Restaged(s, call).(cleanup := s.cleanup.(evaluation := None,
                                             grants := if i < |grants| then grants[i := g] else grants + [g]))
  }

  lemma ResidualApplies(s: State, call: Call, i: int)
    requires call.command.RecordResidual? && PlaceOf(s, call.command.uid, i) && s.lastNow <= call.now
    requires |s.cleanup.grants| <= 16
    ensures var t := s.(lastNow := call.now);
            && (ApplyResidual(t, call.now, call.command).Ok? <==> Reportable(s, call, i))
            && (ApplyResidual(t, call.now, call.command).Ok? ==>
                  ApplyResidual(t, call.now, call.command).value == Reported(s, call, i).(revision := s.revision))
  {
    assert FindGrant(s.cleanup.grants, call.command.uid) == i;
    hide FindGrant, IsToken;
  }

  lemma ResidualDoes(size: State -> nat, s: State, call: Call, i: int)
    requires call.command.RecordResidual? && PlaceOf(s, call.command.uid, i) && |s.cleanup.grants| <= 16
    ensures Does(size, s, call, Reportable(s, call, i), Reported(s, call, i), NO_ADVICE)
  {
    if s.lastNow <= call.now { ResidualApplies(s, call, i); }
    assert Reported(s, call, i).revision == s.revision + 1;
    assert Reportable(s, call, i) ==> s.lastNow <= call.now;
    hide ApplyResidual, Reportable, Reported;
    Answers(size, s, call, Reportable(s, call, i), Reported(s, call, i), NO_ADVICE);
  }

  // ---- Evaluating an audit ----

  /** The audit row and the reported grant say the same of one class grant. */
  predicate Agrees(row: AuditRow, g: Grant) {
    && row.uid == g.uid && row.ownerClass == g.ownerClass && row.expiresAt == g.expiresAt && row.cnpUid == g.cnpUid
    && row.active == g.active && row.cnpPresent == (g.cnp == Present)
  }

  ghost predicate GrantFor(row: AuditRow, gs: seq<Grant>) { exists j :: 0 <= j < |gs| && Agrees(row, gs[j]) }

  ghost predicate RowFor(rows: seq<AuditRow>, g: Grant) { exists i :: 0 <= i < |rows| && Agrees(rows[i], g) }

  /** One row for each grant and one grant for each row, no UID twice. */
  ghost predicate Enumerates(rows: seq<AuditRow>, gs: seq<Grant>) {
    && (forall i, j | 0 <= i < j < |rows| :: rows[i].uid != rows[j].uid)
    && (forall i | 0 <= i < |rows| :: GrantFor(rows[i], gs))
    && (forall j | 0 <= j < |gs| :: RowFor(rows, gs[j]))
  }

  predicate Found(c: AuditCnp, row: AuditRow) { c.uid == row.cnpUid && c.present == row.cnpPresent }

  ghost predicate Listed(cnps: seq<AuditCnp>, row: AuditRow) { exists j :: 0 <= j < |cnps| && Found(cnps[j], row) }

  /** Each row's CNP was looked at, once, and found as the row says. */
  ghost predicate Inventories(cnps: seq<AuditCnp>, rows: seq<AuditRow>) {
    && (forall i, j | 0 <= i < j < |cnps| :: cnps[i].uid != cnps[j].uid)
    && (forall i | 0 <= i < |rows| :: Listed(cnps, rows[i]))
  }

  ghost predicate Evaluable(s: State, call: Call)
    requires call.command.EvaluateClean?
  {
    var a := call.command.audit;
    && a.binding == s.binding && s.lastNow <= a.observedAt <= call.now && |a.grants| <= 16 && |a.cnps| <= 16
    && IsToken(a.receipt) && IsToken(a.policyRef)
    && (forall i | 0 <= i < |a.grants| :: IsToken(a.grants[i].uid) && IsToken(a.grants[i].cnpUid))
    && (forall i | 0 <= i < |a.cnps| :: IsToken(a.cnps[i].uid))
    && Enumerates(a.grants, s.cleanup.grants) && Inventories(a.cnps, a.grants)
  }

  /** Complete, no policy left, no CNP left, every grant inactive. */
  predicate Clean(a: Audit) {
    && a.complete && !a.policyPresent && (forall i | 0 <= i < |a.cnps| :: a.cnps[i].present == false)
    && (forall i | 0 <= i < |a.grants| :: a.grants[i].active == false && a.grants[i].cnpPresent == false)
  }

  lemma EnumeratesExactly(rows: seq<AuditRow>, gs: seq<Grant>)
    requires forall i, j | 0 <= i < j < |gs| :: gs[i].uid != gs[j].uid
    ensures DistinctRows(rows) && RowUids(rows) == GrantUids(gs) && RowsDescribe(rows, gs) <==> Enumerates(rows, gs)
  {
    hide DistinctRows, RowUids, GrantUids, RowsDescribe, Enumerates;
    if DistinctRows(rows) && RowUids(rows) == GrantUids(gs) && RowsDescribe(rows, gs) { DescribedRows(rows, gs); }
    if Enumerates(rows, gs) {
      EnumeratedUids(rows, gs);
      EnumeratedRows(rows, gs);
    }
  }

  lemma {:induction false} DescribedRows(rows: seq<AuditRow>, gs: seq<Grant>)
    requires DistinctRows(rows) && RowUids(rows) == GrantUids(gs) && RowsDescribe(rows, gs)
    ensures Enumerates(rows, gs)
  {
    forall i | 0 <= i < |rows| ensures GrantFor(rows[i], gs) {
      assert rows[i].uid in RowUids(rows);
      var j :| 0 <= j < |gs| && gs[j].uid == rows[i].uid;
      assert Agrees(rows[i], gs[j]);
    }
    forall j | 0 <= j < |gs| ensures RowFor(rows, gs[j]) {
      assert gs[j].uid in GrantUids(gs);
      var i :| 0 <= i < |rows| && rows[i].uid == gs[j].uid;
      assert Agrees(rows[i], gs[j]);
    }
  }

  lemma {:induction false} EnumeratedUids(rows: seq<AuditRow>, gs: seq<Grant>)
    requires Enumerates(rows, gs)
    ensures DistinctRows(rows) && RowUids(rows) == GrantUids(gs)
  {
    forall u | u in RowUids(rows) ensures u in GrantUids(gs) {
      var i :| 0 <= i < |rows| && rows[i].uid == u;
      assert GrantFor(rows[i], gs);
    }
    forall u | u in GrantUids(gs) ensures u in RowUids(rows) {
      var j :| 0 <= j < |gs| && gs[j].uid == u;
      assert RowFor(rows, gs[j]);
    }
  }

  lemma {:induction false} EnumeratedRows(rows: seq<AuditRow>, gs: seq<Grant>)
    requires Enumerates(rows, gs) && forall i, j | 0 <= i < j < |gs| :: gs[i].uid != gs[j].uid
    ensures RowsDescribe(rows, gs)
  {
    forall i, j | 0 <= i < |rows| && 0 <= j < |gs| && rows[i].uid == gs[j].uid
      ensures SameReference(rows[i], gs[j]) && SameObservation(rows[i], gs[j])
    {
      assert GrantFor(rows[i], gs);
      var k :| 0 <= k < |gs| && Agrees(rows[i], gs[k]);
      assert k == j;
    }
  }

  lemma {:induction false} InventoriesExactly(cnps: seq<AuditCnp>, rows: seq<AuditRow>)
    ensures DistinctCnps(cnps) && CnpsDescribe(cnps, rows) <==> Inventories(cnps, rows)
  {
    forall i | 0 <= i < |rows|
      ensures Listed(cnps, rows[i]) <==> CnpDescribes(cnps, rows[i])
    {
      if CnpDescribes(cnps, rows[i]) {
        var j :| 0 <= j < |cnps| && cnps[j].uid == rows[i].cnpUid && cnps[j].present == rows[i].cnpPresent;
        assert Found(cnps[j], rows[i]);
      }
    }
  }

  lemma EvaluateApplies(s: State, call: Call)
    requires call.command.EvaluateClean?
    requires var a := call.command.audit;
             && (Enumerates(a.grants, s.cleanup.grants)
                 <==> DistinctRows(a.grants) && RowUids(a.grants) == GrantUids(s.cleanup.grants)
                      && RowsDescribe(a.grants, s.cleanup.grants))
             && (Inventories(a.cnps, a.grants) <==> DistinctCnps(a.cnps) && CnpsDescribe(a.cnps, a.grants))
    ensures ApplyEvaluate(s, call.now, call.command).Ok? <==> Evaluable(s, call)
    ensures var a := call.command.audit;
            ApplyEvaluate(s, call.now, call.command).Ok? ==>
              ApplyEvaluate(s, call.now, call.command).value
              == s.(lastNow := call.now, cleanup := s.cleanup.(evaluation := Some(Evaluation(AuditClean(a), a))))
  {
    hide AuditClean, IsToken, DistinctRows, RowUids, GrantUids, RowsDescribe, DistinctCnps, CnpsDescribe,
         Enumerates, Inventories;
  }

  /** On a ledger whose grants have distinct UIDs, as every reachable one. */
  lemma EvaluateDoes(size: State -> nat, s: State, call: Call)
    requires call.command.EvaluateClean?
    requires forall i, j | 0 <= i < j < |s.cleanup.grants| :: s.cleanup.grants[i].uid != s.cleanup.grants[j].uid
    ensures var a := call.command.audit;
            Does(size, s, call, Evaluable(s, call),
                 Ticked(s, call).(cleanup := s.cleanup.(evaluation := Some(Evaluation(Clean(a), a)))), NO_ADVICE)
  {
    var a := call.command.audit;
    EnumeratesExactly(a.grants, s.cleanup.grants);
    InventoriesExactly(a.cnps, a.grants);
    EvaluateApplies(s, call);
    assert AuditClean(a) == Clean(a);
    hide ApplyEvaluate, Evaluable, Clean, AuditClean, DistinctRows, RowUids, GrantUids, RowsDescribe, DistinctCnps,
         CnpsDescribe, Enumerates, Inventories;
    Answers(size, s, call, Evaluable(s, call),
            Ticked(s, call).(cleanup := s.cleanup.(evaluation := Some(Evaluation(Clean(a), a)))), NO_ADVICE);
  }
}
