/** Safety of the key installer over every series of runs, each cut off after any number of writes. */
module KeyInstallTheorems {
  import opened Common
  import opened KeyInstall

  /** A run cut off after `power` writes, or an edit of authorized_keys by somebody else between runs. */
  datatype Op = RunInstall(public: Bytes, power: nat) | RunRollback(power: nat) | Edit(keys: Option<Bytes>)

  function Step(env: Env, d: Disk, op: Op): Disk {
    match op
    case RunInstall(public, power) => Reached(d, InstallPlan(env, d, public), power)
    case RunRollback(power) => Reached(d, RollbackPlan(env, d), power)
    case Edit(keys) => d.(keys := keys)
  }

  function Run(env: Env, d: Disk, ops: seq<Op>): Disk
    decreases |ops|
  {
    if ops == [] then d else Step(env, Run(env, d, ops[..|ops| - 1]), ops[|ops| - 1])
  }

  // ---- What a receipt always says ----

  /** The receipt describes the backed-up bytes `base` and the entry for `public`. */
  ghost predicate Describes(env: Env, d: Disk, base: Bytes, public: Bytes) {
    && d.receipt.Some?
    && d.receipt.value == ReceiptFor(env, base, public, d.receipt.value.backup, d.receipt.value.phase)
    && d.receipt.value.backup in d.files && d.files[d.receipt.value.backup] == base && |base| <= MAX_AUTHORIZED
  }

  ghost predicate ReceiptSound(env: Env, d: Disk) {
    d.receipt.Some? ==> exists base, public :: Describes(env, d, base, public)
  }

  /** The disk after some prefix of the writes a plan may hold. */
  lemma Prefixes(d: Disk, p: Plan, power: nat)
    requires |p.writes| <= 2
    ensures Reached(d, p, power) == if power == 0 || p.writes == [] then d
                                    else if power == 1 || |p.writes| == 1 then Put(d, p.writes[0])
                                    else Put(Put(d, p.writes[0]), p.writes[1])
  {
    var ws := p.writes;
    if ws != [] {
      assert ws[..1][..0] == [] && PutAll(d, ws[..1]) == Put(d, ws[0]);
      assert ws[..0] == [];
      if |ws| == 1 { assert ws[..1] == ws; }
    }
  }

  lemma FinishReaches(d: Disk, expected: Bytes, r: Receipt, power: nat)
    ensures var t := Reached(d, FinishPlan(expected, r), power);
            t == if power == 0 then d
                 else if power == 1 || |expected| > MAX_AUTHORIZED then d.(keys := Some(expected))
                 else d.(keys := Some(expected), receipt := Some(r.(phase := Installed)))
  {
    Prefixes(d, FinishPlan(expected, r), power);
  }

  /** What a first installation leaves, whatever its last write. */
  lemma StartReaches(env: Env, d: Disk, current: Bytes, public: Bytes, power: nat)
    requires !Contains(current, public) && !Contains(current, Ascii(MARKER)) && d.receipt.None?
    ensures var t, backup := Reached(d, StartPlan(env, d, current, public), power), env.unused(d.files.Keys);
            var saved := ReceiptFor(env, current, public, backup, Prepared);
            var ready := d.(files := d.files[backup := current], receipt := Some(saved));
            && (power < 3 ==> t.receipt.None? && t.keys == d.keys)
            && (power >= 3 ==> t == Reached(ready, FinishPlan(WithEntry(current, public), saved), power - 3))
            && (power == 0 ==> t == d)
  {
    var backup := env.unused(d.files.Keys);
    var saved := ReceiptFor(env, current, public, backup, Prepared);
    var first := [PutFile(backup, []), PutFile(backup, current), PutReceipt(saved)];
    FirstWrites(d, first, FinishPlan(WithEntry(current, public), saved), power);
    assert d.files[backup := []][backup := current] == d.files[backup := current];
  }

  lemma InstallKeepsReceipt(env: Env, d: Disk, public: Bytes, power: nat)
    requires Sound(env) && ReceiptSound(env, d)
    ensures ReceiptSound(env, Step(env, d, RunInstall(public, power)))
  {
    var t := Step(env, d, RunInstall(public, power));
    if d.receipt.Some? {
      var base, p :| Describes(env, d, base, p);
      if InstallPlan(env, d, public).writes == [] {
        Prefixes(d, InstallPlan(env, d, public), power);
      } else {
        Prefixes(d, InstallPlan(env, d, public), power);
        assert Describes(env, t, base, p);
      }
    } else if InstallPlan(env, d, public).writes == [] {
      Prefixes(d, InstallPlan(env, d, public), power);
    } else {
      var current := d.keys.value;
      StartReaches(env, d, current, public, power);
      if power >= 3 {
        var saved := ReceiptFor(env, current, public, env.unused(d.files.Keys), Prepared);
        var ready := d.(files := d.files[env.unused(d.files.Keys) := current], receipt := Some(saved));
        FinishReaches(ready, WithEntry(current, public), saved, power - 3);
        assert Describes(env, t, current, public);
      }
    }
  }

  lemma RollbackKeepsReceipt(env: Env, d: Disk, power: nat)
    requires ReceiptSound(env, d)
    ensures ReceiptSound(env, Step(env, d, RunRollback(power)))
  {
    Prefixes(d, RollbackPlan(env, d), power);
    if d.receipt.Some? {
      var base, p :| Describes(env, d, base, p);
      assert Describes(env, Step(env, d, RunRollback(power)), base, p);
    }
  }

  /** Whenever a receipt exists its backup holds the baseline whose hash and installed hash it records,
      whatever edits, installations and rollbacks came before. */
  lemma {:induction false} ReceiptAlwaysSound(env: Env, d: Disk, ops: seq<Op>)
    requires Sound(env) && ReceiptSound(env, d)
    ensures ReceiptSound(env, Run(env, d, ops))
    decreases |ops|
  {
    if ops != [] {
      var before := ops[..|ops| - 1];
      ReceiptAlwaysSound(env, d, before);
      var m := Run(env, d, before);
      match ops[|ops| - 1]
      case RunInstall(public, power) => InstallKeepsReceipt(env, m, public, power);
      case RunRollback(power) => RollbackKeepsReceipt(env, m, power);
      case Edit(keys) =>
        if m.receipt.Some? {
          var base, p :| Describes(env, m, base, p);
          assert Describes(env, m.(keys := keys), base, p);
        }
    }
  }

  // ---- A later edit is never overwritten ----

  /** Somebody else changed the file to something that is neither the original nor the installed bytes. */
  ghost predicate LaterEdited(env: Env, d: Disk) {
    exists base, public :: Describes(env, d, base, public)
                           && d.keys != Some(base) && d.keys != Some(WithEntry(base, public))
  }

  lemma LaterEditRefused(env: Env, d: Disk, op: Op)
    requires Sound(env) && LaterEdited(env, d) && !op.Edit?
    ensures Step(env, d, op) == d
    ensures op.RunInstall? ==> Ended(InstallPlan(env, d, op.public), op.power).Refused?
    ensures op.RunRollback? ==> Ended(RollbackPlan(env, d), op.power).Refused?
  {
    var base, public :| Describes(env, d, base, public) && d.keys != Some(base)
        && d.keys != Some(WithEntry(base, public));
    if op.RunInstall? {
      Prefixes(d, InstallPlan(env, d, op.public), op.power);
    } else {
      Prefixes(d, RollbackPlan(env, d), op.power);
    }
  }

  /** After a later edit every series of installations and rollbacks leaves the whole disk unchanged. */
  lemma {:induction false} LaterEditSurvives(env: Env, d: Disk, ops: seq<Op>)
    requires Sound(env) && LaterEdited(env, d) && forall i | 0 <= i < |ops| :: !ops[i].Edit?
    ensures Run(env, d, ops) == d
    decreases |ops|
  {
    if ops != [] {
      LaterEditSurvives(env, d, ops[..|ops| - 1]);
      LaterEditRefused(env, d, ops[|ops| - 1]);
    }
  }

  // ---- Without outside edits ----

  /** The file is the original or the original with one entry, and the receipt, if any, describes exactly that. */
  ghost predicate Tracked(env: Env, d: Disk, base: Bytes, public: Bytes) {
    && Describes(env, d, base, public)
    && d.keys in {Some(base), Some(WithEntry(base, public))}
    && (d.receipt.value.phase == RolledBack ==> d.keys == Some(base))
  }

  ghost predicate Untouched(d: Disk, base: Bytes) { d.receipt.None? && d.keys == Some(base) }

  ghost predicate Safe(env: Env, d: Disk, base: Bytes) {
    Untouched(d, base) || exists public :: Tracked(env, d, base, public)
  }

  lemma FinishTracked(env: Env, d: Disk, base: Bytes, public: Bytes, power: nat)
    requires Tracked(env, d, base, public) && d.receipt.value.phase == Prepared
    ensures Tracked(env, Reached(d, FinishPlan(WithEntry(base, public), d.receipt.value), power), base, public)
  {
    FinishReaches(d, WithEntry(base, public), d.receipt.value, power);
  }

  lemma SameLineSamePublic(env: Env, base: Bytes, a: Bytes, b: Bytes)
    requires Sound(env) && env.sha(AuthorizedLine(a)) == env.sha(AuthorizedLine(b))
    ensures WithEntry(base, a) == WithEntry(base, b)
  {
  }

  lemma InstallSafe(env: Env, d: Disk, base: Bytes, public: Bytes, power: nat)
    requires Sound(env) && Safe(env, d, base)
    ensures Safe(env, Step(env, d, RunInstall(public, power)), base)
  {
    var plan := InstallPlan(env, d, public);
    var t := Step(env, d, RunInstall(public, power));
    if Untouched(d, base) {
      if plan.writes == [] {
        Prefixes(d, plan, power);
      } else {
        StartReaches(env, d, base, public, power);
        if power >= 3 {
          var backup := env.unused(d.files.Keys);
          var saved := ReceiptFor(env, base, public, backup, Prepared);
          var ready := d.(files := d.files[backup := base], receipt := Some(saved));
          FinishTracked(env, ready, base, public, power - 3);
          assert Tracked(env, t, base, public);
        }
      }
    } else {
      var p :| Tracked(env, d, base, p);
      Prefixes(d, plan, power);
      assert Tracked(env, t, base, p);
    }
  }

  lemma RollbackSafe(env: Env, d: Disk, base: Bytes, power: nat)
    requires Sound(env) && Safe(env, d, base)
    ensures Safe(env, Step(env, d, RunRollback(power)), base)
  {
    Prefixes(d, RollbackPlan(env, d), power);
    if !Untouched(d, base) {
      var p :| Tracked(env, d, base, p);
      assert Tracked(env, Step(env, d, RunRollback(power)), base, p);
    }
  }

  /** Under any series of runs, each cut off anywhere, authorized_keys is the original or the original with one
      entry. */
  lemma {:induction false} AlwaysOriginalOrOneEntry(env: Env, d: Disk, base: Bytes, ops: seq<Op>)
    requires Sound(env) && Safe(env, d, base) && forall i | 0 <= i < |ops| :: !ops[i].Edit?
    ensures Safe(env, Run(env, d, ops), base)
    ensures var keys := Run(env, d, ops).keys;
            keys == Some(base) || exists public :: keys == Some(WithEntry(base, public))
    decreases |ops|
  {
    if ops != [] {
      var before := ops[..|ops| - 1];
      AlwaysOriginalOrOneEntry(env, d, base, before);
      var m := Run(env, d, before);
      match ops[|ops| - 1]
      case RunInstall(public, power) => InstallSafe(env, m, base, public, power);
      case RunRollback(power) => RollbackSafe(env, m, base, power);
    }
  }

  // ---- Exactly when a run completes ----

  /** An installation that is not cut off completes exactly when: the file and its extension fit the limit; and
      either nothing was installed and the file names neither the key nor the marker, or the receipt is for this
      entry, was not rolled back, and is not the one left by a rollback interrupted after an installation. */
  ghost predicate CanInstall(env: Env, d: Disk, base: Bytes, public: Bytes) {
    && |WithEntry(base, public)| <= MAX_AUTHORIZED
    && (d.receipt.None? ==> !Contains(base, public) && !Contains(base, Ascii(MARKER)))
    && (d.receipt.Some? ==>
          && d.receipt.value.phase != RolledBack && d.receipt.value.entry == env.sha(AuthorizedLine(public))
          && (d.receipt.value.phase == Installed ==> d.keys != Some(base)))
  }

  lemma TrackedInstall(env: Env, d: Disk, base: Bytes, p: Bytes, public: Bytes, power: nat)
    requires Sound(env) && Tracked(env, d, base, p) && power >= 5
    ensures var t, o := Step(env, d, RunInstall(public, power)), Ended(InstallPlan(env, d, public), power);
            && (o.Done? <==> CanInstall(env, d, base, public))
            && (o.Done? ==> t.keys == Some(WithEntry(base, public)) && t.receipt.value.phase == Installed)
            && !o.Crashed?
  {
    Prefixes(d, InstallPlan(env, d, public), power);
    if d.receipt.value.entry == env.sha(AuthorizedLine(public)) { SameLineSamePublic(env, base, p, public); }
  }

  lemma UntouchedInstall(env: Env, d: Disk, base: Bytes, public: Bytes, power: nat)
    requires Untouched(d, base) && power >= 5
    ensures var t, o := Step(env, d, RunInstall(public, power)), Ended(InstallPlan(env, d, public), power);
            && (o.Done? <==> CanInstall(env, d, base, public))
            && (o.Done? ==>
                  t.keys == Some(WithEntry(base, public)) && t.receipt.Some? && t.receipt.value.phase == Installed)
            && !o.Crashed?
  {
    if InstallPlan(env, d, public).writes != [] {
      StartReaches(env, d, base, public, power);
      var backup := env.unused(d.files.Keys);
      var saved := ReceiptFor(env, base, public, backup, Prepared);
      FinishReaches(d.(files := d.files[backup := base], receipt := Some(saved)), WithEntry(base, public), saved,
          power - 3);
    }
  }

  lemma InstallCompletesExactlyWhen(env: Env, d: Disk, base: Bytes, public: Bytes, power: nat)
    requires Sound(env) && Safe(env, d, base) && power >= 5
    ensures var t, o := Step(env, d, RunInstall(public, power)), Ended(InstallPlan(env, d, public), power);
            && (o.Done? <==> CanInstall(env, d, base, public))
            && (o.Done? ==>
                  t.keys == Some(WithEntry(base, public)) && t.receipt.Some? && t.receipt.value.phase == Installed)
            && !o.Crashed?
  {
    if Untouched(d, base) {
      UntouchedInstall(env, d, base, public, power);
    } else {
      var p :| Tracked(env, d, base, p);
      TrackedInstall(env, d, base, p, public, power);
    }
  }

  /** Interrupted installations, however many and wherever cut, are finished by one more run and append once. */
  lemma {:induction false} InterruptedInstallResumes(env: Env, d: Disk, base: Bytes, public: Bytes, cuts: seq<nat>,
      power: nat)
    requires Sound(env) && Untouched(d, base) && CanInstall(env, d, base, public) && power >= 5
    ensures var m := Run(env, d, InstallAttempts(public, cuts));
            && Ended(InstallPlan(env, m, public), power).Done?
            && Step(env, m, RunInstall(public, power)).keys == Some(WithEntry(base, public))
  {
    AttemptsCanInstall(env, d, base, public, cuts);
    InstallCompletesExactlyWhen(env, Run(env, d, InstallAttempts(public, cuts)), base, public, power);
  }

  function InstallAttempts(public: Bytes, cuts: seq<nat>): seq<Op> {
    seq(|cuts|, i requires 0 <= i < |cuts| => RunInstall(public, cuts[i]))
  }

  lemma {:induction false} AttemptsCanInstall(env: Env, d: Disk, base: Bytes, public: Bytes, cuts: seq<nat>)
    requires Sound(env) && Untouched(d, base) && CanInstall(env, d, base, public)
    ensures var m := Run(env, d, InstallAttempts(public, cuts)); Safe(env, m, base) && CanInstall(env, m, base, public)
    decreases |cuts|
  {
    var ops := InstallAttempts(public, cuts);
    if cuts != [] {
      var less := cuts[..|cuts| - 1];
      assert ops[..|ops| - 1] == InstallAttempts(public, less);
      AttemptsCanInstall(env, d, base, public, less);
      var m := Run(env, d, InstallAttempts(public, less));
      InstallSafe(env, m, base, public, cuts[|cuts| - 1]);
      AttemptKeepsCanInstall(env, m, base, public, cuts[|cuts| - 1]);
    }
  }

  lemma AttemptKeepsCanInstall(env: Env, d: Disk, base: Bytes, public: Bytes, power: nat)
    requires Sound(env) && Safe(env, d, base) && CanInstall(env, d, base, public)
    ensures CanInstall(env, Step(env, d, RunInstall(public, power)), base, public)
  {
    if Untouched(d, base) {
      StartReaches(env, d, base, public, power);
      if power >= 3 {
        var backup := env.unused(d.files.Keys);
        var saved := ReceiptFor(env, base, public, backup, Prepared);
        FinishReaches(d.(files := d.files[backup := base], receipt := Some(saved)), WithEntry(base, public), saved,
            power - 3);
      }
    } else {
      var p :| Tracked(env, d, base, p);
      SameLineSamePublic(env, base, p, public);
      Prefixes(d, InstallPlan(env, d, public), power);
    }
  }

  /** A rollback that is not cut off completes exactly when there is a receipt, the file is within the limit, and the
      receipt is not the one left by a rollback interrupted after an installation; it restores the original bytes. */
  lemma RollbackCompletesExactlyWhen(env: Env, d: Disk, base: Bytes, power: nat)
    requires Sound(env) && Safe(env, d, base) && power >= 2
    ensures var t, o := Step(env, d, RunRollback(power)), Ended(RollbackPlan(env, d), power);
            && (o.Done? <==> d.receipt.Some? && |d.keys.value| <= MAX_AUTHORIZED
                             && !(d.receipt.value.phase == Installed && d.keys == Some(base)))
            && (o.Done? ==> t.keys == Some(base) && t.receipt.value.phase == RolledBack)
            && !o.Crashed?
  {
    Prefixes(d, RollbackPlan(env, d), power);
    if !Untouched(d, base) {
      var p :| Tracked(env, d, base, p);
    }
  }

  /** The window: a rollback of a completed installation cut off between its two writes leaves the original bytes
      under an Installed receipt, and from there every installation and rollback refuses and changes nothing. */
  lemma InterruptedRollbackIsStuck(env: Env, d: Disk, base: Bytes, public: Bytes, ops: seq<Op>)
    requires Sound(env) && Tracked(env, d, base, public) && d.receipt.value.phase == Installed
    requires d.keys == Some(WithEntry(base, public)) && |WithEntry(base, public)| <= MAX_AUTHORIZED
    requires forall i | 0 <= i < |ops| :: !ops[i].Edit?
    ensures var t := Step(env, d, RunRollback(1));
            && t.keys == Some(base) && t.receipt == d.receipt
            && Run(env, t, ops) == t
            && forall q: Bytes :: InstallPlan(env, t, q).end.Refused? && RollbackPlan(env, t).end == Refused(LaterEdit)
  {
    var t := Step(env, d, RunRollback(1));
    Prefixes(d, RollbackPlan(env, d), 1);
    assert Tracked(env, t, base, public) && t.keys == Some(base) && t.receipt == d.receipt;
    hide InstallPlan, RollbackPlan, Step, WithEntry;
    StuckStays(env, t, base, public, ops);
    forall q: Bytes
      ensures InstallPlan(env, t, q).end.Refused?
    {
      StuckRefuses(env, t, base, public, q);
    }
    StuckRefuses(env, t, base, public, public);
  }

  lemma StuckRefuses(env: Env, d: Disk, base: Bytes, public: Bytes, q: Bytes)
    requires Sound(env) && Tracked(env, d, base, public) && d.receipt.value.phase == Installed && d.keys == Some(base)
    ensures InstallPlan(env, d, q).end.Refused? && RollbackPlan(env, d).end == Refused(LaterEdit)
  {
  }

  lemma {:induction false} StuckStays(env: Env, d: Disk, base: Bytes, public: Bytes, ops: seq<Op>)
    requires Sound(env) && Tracked(env, d, base, public) && d.receipt.value.phase == Installed && d.keys == Some(base)
    requires forall i | 0 <= i < |ops| :: !ops[i].Edit?
    ensures Run(env, d, ops) == d
    decreases |ops|
  {
    if ops != [] {
      StuckStays(env, d, base, public, ops[..|ops| - 1]);
      match ops[|ops| - 1]
      case RunInstall(q, power) => Prefixes(d, InstallPlan(env, d, q), power);
      case RunRollback(power) => Prefixes(d, RollbackPlan(env, d), power);
    }
  }

  /** The limit: a first installation whose result exceeds the read limit writes the extended file, is refused by its
      own read back, and from there no rollback and no installation can read the file again. */
  lemma OversizedInstallLocksOut(env: Env, d: Disk, base: Bytes, public: Bytes, power: nat, op: Op)
    requires Untouched(d, base) && power >= 4 && !op.Edit?
    requires |base| <= MAX_AUTHORIZED < |WithEntry(base, public)|
    requires !Contains(base, public) && !Contains(base, Ascii(MARKER))
    ensures var t := Step(env, d, RunInstall(public, power));
            && Ended(InstallPlan(env, d, public), power) == Refused(FileSize)
            && t.keys == Some(WithEntry(base, public)) && t.receipt.Some? && t.receipt.value.phase == Prepared
            && Step(env, t, op) == t && RollbackPlan(env, t).end == Refused(FileSize)
  {
    var t := Step(env, d, RunInstall(public, power));
    StartReaches(env, d, base, public, power);
    var backup := env.unused(d.files.Keys);
    var saved := ReceiptFor(env, base, public, backup, Prepared);
    FinishReaches(d.(files := d.files[backup := base], receipt := Some(saved)), WithEntry(base, public), saved,
        power - 3);
    Prefixes(t, RollbackPlan(env, t), if op.RunRollback? then op.power else 0);
    if op.RunInstall? { Prefixes(t, InstallPlan(env, t, op.public), op.power); }
  }
}
