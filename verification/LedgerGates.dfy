/** What stops a call: an open blocker over a whole run, values the ledger does not take, and the class of a refusal. */
module LedgerGates {
  import opened Common
  import opened LedgerModel
  import opened LedgerInvariant
  import opened LedgerReads
  import opened LedgerTheorems
  import opened LedgerEffects
  import opened LedgerReadEffects

  // ---- The owner ----

  /** An admission that is not a replay, and every command on the route. */
  predicate NeedsStage(s: State, c: Command) {
    || c.PrepareCandidate? || c.SelectCandidate? || c.RecordMerge? || c.RecordReversal? || c.ObserveDelivery?
    || (c.AdmitSlot? && c.intentId !in s.intents)
  }

  lemma StagedCallIsFree(size: State -> nat, s: State, call: Call)
    requires Cas(size, s, call).Ok? && NeedsStage(s, call.command)
    ensures s.owner.kind == Persistent && s.owner.ready && s.owner.live && !s.owner.lost
    ensures forall i | 0 <= i < |s.blockers| :: s.blockers[i].meta.Some? && s.blockers[i].meta.value.resolution.Some?
    ensures s.lastNow <= call.now && s.cleanup.deadline.Some?
    ensures call.now + s.cleanup.reserved + call.stageBudget <= s.cleanup.deadline.value
  {
    if call.command.AdmitSlot? {
      CasAnswers(size, s, call);
      hide Cas, ApplyAdmit, AllDone, Delivered;
      if call.command.slot == Metrics && call.command.decision == Admit { MetricsApplies(s, call); }
      else { AdmitApplies(s, call); }
    } else {
      CasStores(size, s, call);
      StagesExactly(s, call, 1);
      hide Cas, NormalStage, Execute;
    }
  }

  lemma OnlyNewAdmissionsDispatch(size: State -> nat, s: State, call: Call)
    requires Dispatches(Cas(size, s, call))
    ensures call.command.AdmitSlot? && call.command.decision == Admit && call.command.intentId !in s.intents
  {
    hide NormalStage, ExecuteRoute, ExecuteCleanup, Loads, KeepsProofs, IsBinding, IsToken, AllSucceededBelow;
  }

  /** Nothing is dispatched unless the owner is persistent, ready, live and not lost, every blocker is recoverable and
      was resolved under this binding, the caller is the ledger's own, and the reserve stays whole behind the read. */
  lemma DispatchNeedsFreeOwner(size: State -> nat, s: State, call: Call)
    requires Inv(s) && Dispatches(Cas(size, s, call))
    ensures call.command.AdmitSlot? && call.command.decision == Admit && call.caller == s.binding
    ensures s.owner.kind == Persistent && s.owner.ready && s.owner.live && !s.owner.lost
    ensures forall i | 0 <= i < |s.blockers| ::
              && s.blockers[i].meta.Some? && s.blockers[i].meta.value.resolution.Some?
              && s.blockers[i].kind == Recoverable && s.blockers[i].meta.value.resolution.value.binding == s.binding
    ensures s.lastNow <= call.now && s.cleanup.deadline.Some?
    ensures call.now + s.cleanup.reserved + (if call.command.slot == Metrics then 10 else 12)
            <= s.cleanup.deadline.value
  {
    OnlyNewAdmissionsDispatch(size, s, call);
    StagedCallIsFree(size, s, call);
    LoadedResolutions(s);
    CasAnswers(size, s, call);
    CasCaller(size, s, call);
    hide Cas, Inv, ApplyAdmit, AllDone, Delivered;
    if call.command.slot == Metrics { MetricsApplies(s, call); } else { AdmitApplies(s, call); }
  }

  lemma LoadedResolutions(s: State)
    requires Inv(s)
    ensures forall i | 0 <= i < |s.blockers| && s.blockers[i].meta.Some? && s.blockers[i].meta.value.resolution.Some? ::
              s.blockers[i].kind == Recoverable && s.blockers[i].meta.value.resolution.value.binding == s.binding
  {
    hide ReadsInv, RouteInv, CleanupInv, MutuallyInverse, AllEndpoints;
    forall i | 0 <= i < |s.blockers| ensures BlockerLoads(s.blockers[i], s.binding) {}
  }

  lemma CasCaller(size: State -> nat, s: State, call: Call)
    requires Cas(size, s, call).Ok?
    ensures call.caller == s.binding && call.expectRevision == s.revision
  {
    hide Apply, KeepsProofs, Loads, IsBinding;
  }

  /** Blocker k has no resolution, or is of the earlier format, which never has one. */
  predicate Open(s: State, k: int) {
    && 0 <= k < |s.blockers|
    && (s.blockers[k].meta.None? || s.blockers[k].meta.value.resolution.None?)
  }

  lemma BlockersStay(size: State -> nat, s: State, call: Call)
    requires Cas(size, s, call).Ok? && !call.command.ResolveBlocker?
    ensures s.blockers <= Cas(size, s, call).value.state.blockers
  {
    CasStores(size, s, call);
    hide Cas, Loads, NormalStage, Execute;
    var t := Staged(s, call).value;
    StagesExactly(s, call, 1);
    assert t.blockers == s.blockers;
    CommandKeepsBlockers(t, call);
  }

  lemma CommandKeepsBlockers(s: State, call: Call)
    requires Execute(s, call).Ok? && !call.command.ResolveBlocker?
    ensures s.blockers <= Execute(s, call).value.state.blockers
  {
    if call.command.AdmitSlot? {
      AdmitCases(s, call);
    } else if call.command.RecordOutcome? {
      hide IsToken, IsEndpoint, IsHex;
    } else if IsRouteCommand(call.command) {
      RouteKeepsBlockers(s, call.now, call.command);
    } else {
      CleanupKeepsBlockers(s, call);
    }
  }

  lemma RouteKeepsBlockers(s: State, now: int, c: Command)
    requires IsRouteCommand(c) && ExecuteRoute(s, now, c).Ok?
    ensures ExecuteRoute(s, now, c).value.blockers == s.blockers
  {
    hide IsToken, IsEndpoint, IsHex, AllSucceededBelow, ProofMatches, Eligible;
  }

  lemma CleanupKeepsBlockers(s: State, call: Call)
    requires IsCleanupCommand(call.command) && ExecuteCleanup(s, call).Ok? && !call.command.ResolveBlocker?
    ensures s.blockers <= ExecuteCleanup(s, call).value.blockers
  {
    hide IsToken, RowsDescribe, CnpsDescribe, FindGrant;
  }

  /** An open blocker stays open until somebody resolves it, and stops every staged command: without a resolution no run
      dispatches, admits a new intent or moves along the route. */
  lemma {:induction false} OpenBlockerStops(size: State -> nat, s: State, calls: seq<Call>, k: int)
    requires Open(s, k) && forall i | 0 <= i < |calls| :: !calls[i].command.ResolveBlocker?
    ensures Open(Run(size, s, calls), k)
    ensures forall i | 0 <= i < |calls| ::
              && !Dispatches(Reply(size, s, calls, i))
              && (Reply(size, s, calls, i).Ok? ==> !NeedsStage(Run(size, s, calls[..i]), calls[i].command))
    decreases |calls|
  {
    hide Cas;
    if calls != [] {
      var before, last := calls[..|calls| - 1], calls[|calls| - 1];
      OpenBlockerStops(size, s, before, k);
      var m := Run(size, s, before);
      OpenBlockerRefuses(size, m, last, k);
      forall i | 0 <= i < |calls|
        ensures !Dispatches(Reply(size, s, calls, i))
        ensures Reply(size, s, calls, i).Ok? ==> !NeedsStage(Run(size, s, calls[..i]), calls[i].command)
      {
        if i < |before| {
          assert before[..i] == calls[..i];
          assert !Dispatches(Reply(size, s, before, i));
        }
      }
    }
  }

  lemma OpenBlockerRefuses(size: State -> nat, s: State, call: Call, k: int)
    requires Open(s, k) && !call.command.ResolveBlocker?
    ensures Open(After(size, s, call), k)
    ensures !Dispatches(Cas(size, s, call)) && (Cas(size, s, call).Ok? ==> !NeedsStage(s, call.command))
  {
    if Cas(size, s, call).Ok? {
      BlockersStay(size, s, call);
      if NeedsStage(s, call.command) { StagedCallIsFree(size, s, call); }
      if Dispatches(Cas(size, s, call)) { OnlyNewAdmissionsDispatch(size, s, call); }
    }
    hide Cas;
  }

  // ---- A new ledger ----

  /** Nothing was reserved, prepared, selected, read or blocked yet. */
  predicate Untouched(t: State) {
    && t.revision == 1 && t.cleanup.reserved == 0 && t.cleanup.deadline.None? && t.cleanup.ciEstimate.None?
    && t.cleanup.grants == [] && t.cleanup.evaluation.None? && t.candidates == [] && t.blockers == []
    && t.selectedHead.None? && t.selectedManager.None? && t.selectedEndpoint.None? && t.branch.None? && t.merge.None?
    && t.delivery.None? && t.reversal.None? && t.proof == map[] && t.intents == map[] && t.slotIntent == map[]
    && t.owner.kind == Persistent && t.owner.ready && t.owner.live && !t.owner.lost
  }

  /** Initialisation takes an observed persistent owner, a planned revalidation and one to four distinct endpoints, the
      covered ones among them, and starts with everything still to do. */
  lemma InitDoes(size: State -> nat, c: InitCall)
    ensures Untouched(Fresh(c)) && Fresh(c).binding == c.caller && Fresh(c).lastNow == c.now
    ensures Fresh(c).contract.fsid == c.fsid && Fresh(c).contract.endpoints == c.endpoints
            && Fresh(c).contract.covered == c.covered
    ensures && (Initial(size, c).Ok? ==> Initial(size, c).value == Fresh(c))
            && (Initial(size, c).Ok? <==>
                  && c.now >= 0 && c.stageBudget > 0 && c.ownerKind == Persistent && c.observed && c.ready && c.live
                  && c.plannedRevalidation && 1 <= |c.endpoints| <= 4
                  && (forall i | 0 <= i < |c.endpoints| :: IsEndpoint(c.endpoints[i]))
                  && (forall i, j | 0 <= i < j < |c.endpoints| :: c.endpoints[i] != c.endpoints[j])
                  && (forall i, j | 0 <= i < j < |c.covered| :: c.covered[i] != c.covered[j])
                  && (forall i | 0 <= i < |c.covered| :: c.covered[i] in c.endpoints)
                  && IsToken(c.caller.identity) && IsToken(c.caller.scope) && IsToken(c.caller.attempt)
                  && IsToken(c.fsid) && size(Fresh(c)) <= 65536)
  {
    hide IsEndpoint, IsToken;
    assert forall i | 0 <= i < |c.covered| :: c.covered[i] in c.covered;
  }

  // ---- Values ----

  /** One to eighty characters: letters, digits, underscore, full stop, colon or hyphen. */
  lemma TokensExactly(s: string)
    ensures IsToken(s) <==>
            && 0 < |s| < 81
            && forall i | 0 <= i < |s| ::
                 var n := s[i] as int;
                 65 <= n <= 90 || 97 <= n <= 122 || 48 <= n <= 57 || n == 95 || n == 46 || n == 58 || n == 45
  {
  }

  /** The number a run of decimal digits stands for. */
  function Decimal(s: string): int {
    if s == "" then 0 else 10 * Decimal(s[..|s| - 1]) + (s[|s| - 1] as int - '0' as int)
  }

  /** Digits without a leading zero that stand for at most 255. */
  predicate IsOctet(s: string) {
    && 1 <= |s| <= 3 && (forall i | 0 <= i < |s| :: '0' <= s[i] <= '9')
    && (s[0] == '0' ==> |s| == 1) && Decimal(s) <= 255
  }

  lemma DecimalShort(s: string)
    requires 1 <= |s| <= 3
    ensures |s| == 1 ==> Decimal(s) == s[0] as int - 48
    ensures |s| == 2 ==> Decimal(s) == 10 * (s[0] as int - 48) + (s[1] as int - 48)
    ensures |s| == 3 ==> Decimal(s) == 100 * (s[0] as int - 48) + 10 * (s[1] as int - 48) + (s[2] as int - 48)
  {
    if |s| == 3 { assert s[..2][..1] == s[..1] && s[..1][..0] == ""; }
    if |s| == 2 { assert s[..1][..0] == ""; }
  }

  lemma DigitIs(n: int)
    requires 0 <= n < 10
    ensures Digit(n) as int == 48 + n
  {
  }

  lemma OctetIsDecimal(n: int)
    requires 0 <= n < 256
    ensures IsOctet(Octet(n)) && Decimal(Octet(n)) == n
  {
    if n < 10 { ShortOctet(n); } else if n < 100 { MiddleOctet(n); } else { LongOctet(n); }
    hide Octet, IsOctet, Decimal;
  }

  lemma ShortOctet(n: int)
    requires 0 <= n < 10
    ensures IsOctet(Octet(n)) && Decimal(Octet(n)) == n
  {
    DecimalShort(Octet(n));
    DigitIs(n);
    hide Digit, Decimal;
  }

  lemma MiddleOctet(n: int)
    requires 10 <= n < 100
    ensures IsOctet(Octet(n)) && Decimal(Octet(n)) == n
  {
    DecimalShort(Octet(n));
    DigitIs(n / 10);
    DigitIs(n % 10);
    hide Digit, Decimal;
  }

  lemma LongOctet(n: int)
    requires 100 <= n < 256
    ensures IsOctet(Octet(n)) && Decimal(Octet(n)) == n
  {
    DecimalShort(Octet(n));
    DigitIs(n / 100);
    DigitIs(n / 10 % 10);
    DigitIs(n % 10);
    hide Digit, Decimal;
  }

  lemma DigitOf(c: char)
    requires '0' <= c <= '9'
    ensures 0 <= c as int - 48 < 10 && Digit(c as int - 48) == c
  {
    DigitIs(c as int - 48);
  }

  lemma Parts(a: int, b: int, c: int)
    requires 0 <= a < 10 && 0 <= b < 10 && 0 <= c < 10
    ensures var n := 100 * a + 10 * b + c; n / 100 == a && n / 10 % 10 == b && n % 10 == c
    ensures (10 * b + c) / 10 == b && (10 * b + c) % 10 == c
  {
  }

  lemma OctetOfDigits(a: int, b: int, c: int)
    requires 0 <= a < 10 && 0 <= b < 10 && 0 <= c < 10 && 100 * a + 10 * b + c < 256
    ensures a > 0 ==> Octet(100 * a + 10 * b + c) == [Digit(a), Digit(b), Digit(c)]
    ensures b > 0 ==> Octet(10 * b + c) == [Digit(b), Digit(c)]
  {
    Parts(a, b, c);
    hide Digit;
  }

  lemma OctetOfOne(s: string)
    requires IsOctet(s) && |s| == 1
    ensures 0 <= Decimal(s) < 256 && Octet(Decimal(s)) == s
  {
    DecimalShort(s);
    DigitOf(s[0]);
    hide Decimal, Digit;
    assert s == [s[0]];
  }

  lemma OctetOfTwo(s: string)
    requires IsOctet(s) && |s| == 2
    ensures 0 <= Decimal(s) < 256 && Octet(Decimal(s)) == s
  {
    DecimalShort(s);
    DigitOf(s[0]);
    DigitOf(s[1]);
    hide Decimal, Digit, Octet;
    var x, y := s[0] as int - 48, s[1] as int - 48;
    assert x != 0 && Decimal(s) == 10 * x + y && s == [s[0], s[1]];
    OctetOfDigits(0, x, y);
  }

  lemma ThreeDigits(s: string)
    requires IsOctet(s) && |s| == 3
    ensures var x, y, z := s[0] as int - 48, s[1] as int - 48, s[2] as int - 48;
            && 0 < x < 10 && 0 <= y < 10 && 0 <= z < 10 && Decimal(s) == 100 * x + 10 * y + z < 256
            && s == [Digit(x), Digit(y), Digit(z)]
  {
    DecimalShort(s);
    DigitOf(s[0]);
    DigitOf(s[1]);
    DigitOf(s[2]);
    hide Decimal, Digit;
  }

  lemma OctetOfThree(s: string)
    requires IsOctet(s) && |s| == 3
    ensures 0 <= Decimal(s) < 256 && Octet(Decimal(s)) == s
  {
    ThreeDigits(s);
    hide IsOctet, Decimal, Digit, Octet;
    OctetOfDigits(s[0] as int - 48, s[1] as int - 48, s[2] as int - 48);
  }

  lemma OctetOfDecimal(s: string)
    requires IsOctet(s)
    ensures 0 <= Decimal(s) < 256 && Octet(Decimal(s)) == s
  {
    assert 1 <= |s| <= 3;
    hide Decimal, Octet, IsOctet;
    if |s| == 1 { OctetOfOne(s); } else if |s| == 2 { OctetOfTwo(s); } else { OctetOfThree(s); }
  }

  /** An endpoint is a canonical dotted address and the one port and path. */
  lemma EndpointsExactly(s: string)
    ensures IsEndpoint(s) <==>
            exists w, x, y, z :: IsOctet(w) && IsOctet(x) && IsOctet(y) && IsOctet(z)
                                 && s == w + "." + x + "." + y + "." + z + ":9283/metrics"
  {
    if IsEndpoint(s) {
      var a, b, c, d :| 0 <= a < 256 && 0 <= b < 256 && 0 <= c < 256 && 0 <= d < 256
        && s == Dotted(a, b, c, d) + ":9283/metrics";
      OctetIsDecimal(a); OctetIsDecimal(b); OctetIsDecimal(c); OctetIsDecimal(d);
      hide IsOctet, Octet;
      assert s == Octet(a) + "." + Octet(b) + "." + Octet(c) + "." + Octet(d) + ":9283/metrics";
    }
    if w, x, y, z :| IsOctet(w) && IsOctet(x) && IsOctet(y) && IsOctet(z)
                     && s == w + "." + x + "." + y + "." + z + ":9283/metrics" {
      OctetOfDecimal(w); OctetOfDecimal(x); OctetOfDecimal(y); OctetOfDecimal(z);
      hide IsOctet, Octet, Decimal;
      assert s == Dotted(Decimal(w), Decimal(x), Decimal(y), Decimal(z)) + ":9283/metrics";
    }
  }

  // ---- The stored file ----

  /** The bounds on a stored ledger, the two maps that name each other, and resolutions of recoverable blockers only. */
  predicate Bounded(s: State) {
    && |s.candidates| <= 3 && |s.blockers| <= 8 && |s.cleanup.grants| <= 16 && |s.intents| <= 6
    && 1 <= |s.contract.endpoints| <= 4 && |s.contract.covered| <= 4 && s.revision > 0 && s.lastNow >= 0
    && (forall x | x in s.slotIntent :: s.slotIntent[x] in s.intents && s.intents[s.slotIntent[x]].slot == x)
    && (forall id | id in s.intents :: s.intents[id].slot in s.slotIntent && s.slotIntent[s.intents[id].slot] == id)
    && (forall i | 0 <= i < |s.blockers| && s.blockers[i].meta.Some? && s.blockers[i].meta.value.resolution.Some? ::
          s.blockers[i].kind == Recoverable && s.blockers[i].meta.value.resolution.value.binding == s.binding)
    && (forall id | id in s.intents && s.intents[id].result.Some? ::
          s.intents[id].result.value.outcome in {"success", "denied", "unknown", "uncertain", "failure"})
  }

  predicate NamedBinding(b: Binding) { IsToken(b.identity) && IsToken(b.scope) && IsToken(b.attempt) }

  /** What a stored ledger holds is named by tokens, and its routes are endpoints. */
  predicate WellNamed(s: State) {
    && IsToken(s.contract.fsid) && NamedBinding(s.binding)
    && (forall id | id in s.intents :: IsToken(id))
    && (forall i | 0 <= i < |s.contract.endpoints| :: IsEndpoint(s.contract.endpoints[i]))
    && (forall i | 0 <= i < |s.contract.covered| :: IsEndpoint(s.contract.covered[i]))
    && (forall k | k in s.proof ::
          && NamedBinding(s.proof[k].binding) && IsToken(s.proof[k].receipt) && IsToken(s.proof[k].fsid)
          && IsToken(s.proof[k].manager) && IsEndpoint(s.proof[k].endpoint))
    && (forall i | 0 <= i < |s.cleanup.grants| ::
          && IsToken(s.cleanup.grants[i].uid) && IsToken(s.cleanup.grants[i].cnpUid)
          && IsToken(s.cleanup.grants[i].receipt))
    && (forall i | 0 <= i < |s.blockers| && s.blockers[i].meta.Some? :: IsToken(s.blockers[i].meta.value.id))
  }

  /** A stored ledger is read exactly when it keeps its bounds and its names; blockers of the earlier format, which have
      no recovery record, are read too. */
  lemma LoadsExactly(s: State)
    ensures Loads(s) <==> Bounded(s) && WellNamed(s)
  {
    hide IsToken, IsEndpoint;
    if Loads(s) {
      forall i | 0 <= i < |s.blockers| ensures BlockerLoads(s.blockers[i], s.binding) {}
      forall id | id in s.intents ensures IntentLoads(s.intents[id]) {}
      forall k | k in s.proof ensures ProofLoads(s.proof[k]) {}
      forall i | 0 <= i < |s.cleanup.grants| ensures GrantLoads(s.cleanup.grants[i]) {}
    }
    if Bounded(s) && WellNamed(s) { LoadsWhenNamed(s); }
  }

  lemma LoadsWhenNamed(s: State)
    requires Bounded(s) && WellNamed(s)
    ensures Loads(s)
  {
    hide IsToken, IsEndpoint;
  }

  // ---- Proofs ----

  /** Whatever the ledger, reachable or not, an accepted call keeps every proof as it was; a command that would change
      one is rejected although the command itself would go through. */
  lemma ProofsAreFixed(size: State -> nat, s: State, call: Call)
    ensures Cas(size, s, call).Ok? ==>
              forall k | k in s.proof ::
                k in Cas(size, s, call).value.state.proof && Cas(size, s, call).value.state.proof[k] == s.proof[k]
    ensures Called(size, s, call) && Apply(s, call).Ok?
            && (exists k | k in s.proof ::
                  k !in Apply(s, call).value.state.proof || Apply(s, call).value.state.proof[k] != s.proof[k])
            ==> Cas(size, s, call) == Err(Reject)
  {
    hide Apply, Loads, IsBinding;
  }

  // ---- Refusals ----

  /** A call is first checked for what it says of itself and of the ledger, then for the revision it knows. */
  lemma CallRefusals(size: State -> nat, s: State, call: Call)
    ensures !Called(size, s, call.(expectRevision := s.revision)) ==> Cas(size, s, call) == Err(Reject)
    ensures Called(size, s, call.(expectRevision := s.revision)) && call.expectRevision != s.revision ==>
              Cas(size, s, call) == Err(Conflict)
  {
    hide Apply, Loads, IsBinding;
  }

  /** A route command without a free owner, a clock that stands or moves on and room before the deadline is a gate. */
  lemma StageRefusals(size: State -> nat, s: State, call: Call)
    requires Called(size, s, call) && !MayStage(s, call, 1)
    requires call.command.PrepareCandidate? || call.command.SelectCandidate? || call.command.RecordMerge?
             || call.command.RecordReversal? || call.command.ObserveDelivery?
    ensures Cas(size, s, call) == Err(Gate)
  {
    StageFails(s, call, 1);
    hide NormalStage, MayStage, Execute, Loads, IsBinding;
  }

  lemma StageFails(s: State, call: Call, stage: int)
    requires stage >= 1 && !MayStage(s, call, stage)
    ensures NormalStage(s, call, stage) == Err(Gate)
  {
  }

  /** An admission conflicts with a slot already spent and with other words of the same intent, nothing else. */
  lemma AdmissionConflicts(s: State, call: Call)
    requires call.command.AdmitSlot?
    ensures var c := call.command;
            ApplyAdmit(s, call) == Err(Conflict) <==>
            && s.lastNow <= call.now && IsToken(c.intentId)
            && (if c.intentId in s.intents then !SameWords(s.intents[c.intentId].fingerprint, c)
                else c.slot in s.slotIntent)
    ensures s.lastNow <= call.now && IsToken(call.command.intentId) && call.command.intentId !in s.intents
            && call.command.slot !in s.slotIntent && !MayStage(s, call, if call.command.slot == Metrics then 10 else 12)
            ==> ApplyAdmit(s, call) == Err(Gate)
  {
    var c, t := call.command, s.(lastNow := call.now);
    if s.lastNow <= call.now {
      var stage := if c.slot == Metrics then 10 else 12;
      assert StageOf(c.slot) == stage && (MayStage(t, call, stage) <==> MayStage(s, call, stage));
      StagesExactly(t, call, stage);
      if !MayStage(s, call, stage) { StageFails(t, call, stage); }
    }
    hide NormalStage, MayStage, IsToken, AllSucceededBelow, DeliveryReady, MetricsDeadlines;
  }

  lemma AdmissionRefusals(size: State -> nat, s: State, call: Call)
    requires Called(size, s, call) && call.command.AdmitSlot?
    ensures var c := call.command;
            Cas(size, s, call) == Err(Conflict) <==>
            && s.lastNow <= call.now && IsToken(c.intentId)
            && (if c.intentId in s.intents then !SameWords(s.intents[c.intentId].fingerprint, c)
                else c.slot in s.slotIntent)
    ensures s.lastNow <= call.now && IsToken(call.command.intentId) && call.command.intentId !in s.intents
            && call.command.slot !in s.slotIntent && !MayStage(s, call, if call.command.slot == Metrics then 10 else 12)
            ==> Cas(size, s, call) == Err(Gate)
  {
    AdmissionConflicts(s, call);
    hide ApplyAdmit, MayStage, Loads, IsBinding, IsToken, KeepsProofs, SameWords;
  }

  /** An answered read conflicts with any other answer. */
  lemma OutcomeRefusals(size: State -> nat, s: State, call: Call)
    requires Called(size, s, call) && call.command.RecordOutcome? && s.lastNow <= call.now && Answerable(s, call)
    requires s.intents[call.command.intentId].result.Some?
    ensures Cas(size, s, call) == Err(Conflict) <==> s.intents[call.command.intentId].result != Some(Answer(call))
  {
    hide Loads, IsBinding, IsToken, KeepsProofs;
  }
}
