/** The crash-safe installer of one authorised key.  A run is a plan of durable writes, each one atomic;
    a crash keeps a prefix of them.  The imperative installer is proved to follow its plan. */
module KeyInstall {
  import opened Common

  const MAX_AUTHORIZED := 65536
  const PRINCIPAL := "dev-env-keeper-proxmox-minter"
  const MARKER := "dev-env-keeper-proxmox-minter-ca"

  datatype Phase = Prepared | Installed | RolledBack
  datatype Receipt = Receipt(phase: Phase, backup: string, baseline: string, installed: string, entry: string)

  /** authorized_keys (absent when None), the receipt, and the private files beside them. */
  datatype Disk = Disk(keys: Option<Bytes>, receipt: Option<Receipt>, files: map<string, Bytes>)

  datatype Write = PutFile(name: string, bytes: Bytes) | PutKeys(keys: Bytes) | PutReceipt(receipt: Receipt)

  datatype Reason = FileSize | MissingFile | ReceiptConflict | BackupIdentity | LaterEdit | ExistingKeyConflict
                  | MissingReceipt
  datatype Success = NewlyInstalled | AlreadyInstalled | RolledBackNow | AlreadyRolledBack
  datatype Outcome = Done(success: Success) | Refused(reason: Reason) | Crashed

  datatype Plan = Plan(writes: seq<Write>, end: Outcome)

  /** What the program takes from outside: SHA-256 and the choice of an unused backup name. */
  datatype Env = Env(sha: Bytes -> string, unused: set<string> -> string)

  /** The assumptions: no two byte strings in play share a digest; a chosen name is unused. */
  ghost predicate Sound(env: Env) {
    && (forall a, b | env.sha(a) == env.sha(b) :: a == b)
    && (forall names :: env.unused(names) !in names)
  }

  function AuthorizedLine(public: Bytes): Bytes {
    Ascii("restrict,cert-authority,principals=\"" + PRINCIPAL + "\" ") + public + Ascii(" " + MARKER)
  }

  /** The original bytes followed by exactly one appended entry on its own line. */
  function WithEntry(original: Bytes, public: Bytes): (entry: Bytes)
    ensures original <= entry && |original| < |entry|
  {
    original + [10] + AuthorizedLine(public) + [10]
  }

  function ReceiptFor(env: Env, original: Bytes, public: Bytes, backup: string, phase: Phase): Receipt {
    Receipt(phase, backup, env.sha(original), env.sha(WithEntry(original, public)), env.sha(AuthorizedLine(public)))
  }

  // ---- Plans ----

  function Stop(reason: Reason): Plan { Plan([], Refused(reason)) }

  /** The last two writes of an installation; the read back refuses a file over the limit. */
  function FinishPlan(expected: Bytes, receipt: Receipt): Plan {
    if |expected| > MAX_AUTHORIZED then Plan([PutKeys(expected)], Refused(FileSize))
    else Plan([PutKeys(expected), PutReceipt(receipt.(phase := Installed))], Done(NewlyInstalled))
  }

  function ResumePlan(env: Env, d: Disk, current: Bytes, r: Receipt, public: Bytes): Plan {
    if r.phase == RolledBack || r.entry != env.sha(AuthorizedLine(public)) then Stop(ReceiptConflict)
    else if r.backup !in d.files then Stop(MissingFile)
    else if |d.files[r.backup]| > MAX_AUTHORIZED then Stop(FileSize)
    else
      var original := d.files[r.backup];
      var expected := WithEntry(original, public);
      if env.sha(original) != r.baseline || env.sha(expected) != r.installed then Stop(BackupIdentity)
      else if current == expected then Plan([PutReceipt(r.(phase := Installed))], Done(AlreadyInstalled))
      else if r.phase != Prepared || current != original then Stop(LaterEdit)
      else FinishPlan(expected, r)
  }

  function StartPlan(env: Env, d: Disk, current: Bytes, public: Bytes): Plan {
    if Contains(current, public) || Contains(current, Ascii(MARKER)) then Stop(ExistingKeyConflict)
    else
      var backup := env.unused(d.files.Keys);
      var receipt := ReceiptFor(env, current, public, backup, Prepared);
      var finish := FinishPlan(WithEntry(current, public), receipt);
      Plan([PutFile(backup, []), PutFile(backup, current), PutReceipt(receipt)] + finish.writes, finish.end)
  }

  function InstallPlan(env: Env, d: Disk, public: Bytes): Plan {
    if d.keys.None? then Stop(MissingFile)
    else if |d.keys.value| > MAX_AUTHORIZED then Stop(FileSize)
    else if d.receipt.Some? then ResumePlan(env, d, d.keys.value, d.receipt.value, public)
    else StartPlan(env, d, d.keys.value, public)
  }

  function RollbackPlan(env: Env, d: Disk): Plan {
    if d.receipt.None? then Stop(MissingReceipt)
    else
      var r := d.receipt.value;
      if r.backup !in d.files then Stop(MissingFile)
      else if |d.files[r.backup]| > MAX_AUTHORIZED then Stop(FileSize)
      else if env.sha(d.files[r.backup]) != r.baseline then Stop(BackupIdentity)
      else if d.keys.None? then Stop(MissingFile)
      else if |d.keys.value| > MAX_AUTHORIZED then Stop(FileSize)
      else
        var original, current := d.files[r.backup], d.keys.value;
        var last := PutReceipt(r.(phase := RolledBack));
        if r.phase == RolledBack && current == original then Plan([], Done(AlreadyRolledBack))
        else if r.phase == Prepared && current == original then Plan([last], Done(RolledBackNow))
        else if env.sha(current) == r.installed then Plan([PutKeys(original), last], Done(RolledBackNow))
        else Stop(LaterEdit)
  }

  // ---- Running a plan until power fails ----

  function Put(d: Disk, w: Write): Disk {
    match w
    case PutFile(name, bytes) => d.(files := d.files[name := bytes])
    case PutKeys(keys) => d.(keys := Some(keys))
    case PutReceipt(receipt) => d.(receipt := Some(receipt))
  }

  function PutAll(d: Disk, ws: seq<Write>): Disk
    decreases |ws|
  {
    if ws == [] then d else Put(PutAll(d, ws[..|ws| - 1]), ws[|ws| - 1])
  }

  /** The disk when power fails after `power` durable writes; enough power completes the plan. */
  function Reached(d: Disk, p: Plan, power: nat): Disk {
    if power < |p.writes| then PutAll(d, p.writes[..power]) else PutAll(d, p.writes)
  }

  function Ended(p: Plan, power: nat): Outcome {
    if power < |p.writes| then Crashed else p.end
  }

  // ---- The installer, one write at a time ----

  class Installer {
    const env: Env
    var keys: Option<Bytes>
    var receipt: Option<Receipt>
    var files: map<string, Bytes>
    var power: nat

    function Contents(): Disk
      reads this
    {
      Disk(keys, receipt, files)
    }

    constructor (env: Env, d: Disk, power: nat)
      ensures Contents() == d && this.env == env && this.power == power
    {
      this.env, keys, receipt, files, this.power := env, d.keys, d.receipt, d.files, power;
    }

    /** One atomic write: stage file, fsync, rename, directory fsync. */
    method AtomicWrite(w: Write) returns (alive: bool)
      modifies this
      ensures alive == (old(power) > 0)
      ensures Contents() == if alive then Put(old(Contents()), w) else old(Contents())
      ensures power == if alive then old(power) - 1 else 0
    {
      if power == 0 { return false; }
      power := power - 1;
      match w {
        case PutFile(name, bytes) => files := files[name := bytes];
        case PutKeys(bytes) => keys := Some(bytes);
        case PutReceipt(saved) => receipt := Some(saved);
      }
      return true;
    }

    method Finish(expected: Bytes, saved: Receipt) returns (o: Outcome)
      modifies this
      ensures Contents() == Reached(old(Contents()), FinishPlan(expected, saved), old(power))
      ensures o == Ended(FinishPlan(expected, saved), old(power))
    {
      ghost var start := Contents();
      ghost var ws := FinishPlan(expected, saved).writes;
      assert ws[..0] == [] && ws[..1] == [PutKeys(expected)];
      var alive := AtomicWrite(PutKeys(expected));
      if !alive { return Crashed; }
      assert PutAll(start, ws[..1]) == Put(start, PutKeys(expected));
      if |expected| > MAX_AUTHORIZED { return Refused(FileSize); }
      alive := AtomicWrite(PutReceipt(saved.(phase := Installed)));
      if !alive { return Crashed; }
      assert ws[..|ws| - 1] == ws[..1];
      return Done(NewlyInstalled);
    }

    method Install(public: Bytes) returns (o: Outcome)
      modifies this
      ensures Contents() == Reached(old(Contents()), InstallPlan(env, old(Contents()), public), old(power))
      ensures o == Ended(InstallPlan(env, old(Contents()), public), old(power))
    {
      if keys.None? { return Refused(MissingFile); }
      var current := keys.value;
      if |current| > MAX_AUTHORIZED { return Refused(FileSize); }
      if receipt.Some? {
        o := Resume(current, receipt.value, public);
      } else {
        o := Start(current, public);
      }
    }

    method Resume(current: Bytes, r: Receipt, public: Bytes) returns (o: Outcome)
      requires receipt == Some(r) && keys == Some(current)
      modifies this
      ensures Contents() == Reached(old(Contents()), ResumePlan(env, old(Contents()), current, r, public), old(power))
      ensures o == Ended(ResumePlan(env, old(Contents()), current, r, public), old(power))
    {
      if r.phase == RolledBack || r.entry != env.sha(AuthorizedLine(public)) { return Refused(ReceiptConflict); }
      if r.backup !in files { return Refused(MissingFile); }
      var original := files[r.backup];
      if |original| > MAX_AUTHORIZED { return Refused(FileSize); }
      var expected := WithEntry(original, public);
      if env.sha(original) != r.baseline || env.sha(expected) != r.installed { return Refused(BackupIdentity); }
      if current == expected {
        ghost var start := Contents();
        var last := PutReceipt(r.(phase := Installed));
        assert [last][..0] == [] && PutAll(start, [last]) == Put(start, last);
        var alive := AtomicWrite(last);
        return if alive then Done(AlreadyInstalled) else Crashed;
      }
      if r.phase != Prepared || current != original { return Refused(LaterEdit); }
      o := Finish(expected, r);
    }

    method Start(current: Bytes, public: Bytes) returns (o: Outcome)
      requires receipt.None? && keys == Some(current)
      modifies this
      ensures Contents() == Reached(old(Contents()), StartPlan(env, old(Contents()), current, public), old(power))
      ensures o == Ended(StartPlan(env, old(Contents()), current, public), old(power))
    {
      if Contains(current, public) || Contains(current, Ascii(MARKER)) { return Refused(ExistingKeyConflict); }
      ghost var start, full := Contents(), power;
      ghost var plan := StartPlan(env, start, current, public);
      var backup := env.unused(files.Keys);
      var saved := ReceiptFor(env, current, public, backup, Prepared);
      ghost var rest := FinishPlan(WithEntry(current, public), saved);
      ghost var first := [PutFile(backup, []), PutFile(backup, current), PutReceipt(saved)];
      FirstWrites(start, first, rest, full);
      var alive := AtomicWrite(PutFile(backup, []));
      if !alive { return Crashed; }
      alive := AtomicWrite(PutFile(backup, current));
      if !alive { return Crashed; }
      alive := AtomicWrite(PutReceipt(saved));
      if !alive { return Crashed; }
      o := Finish(WithEntry(current, public), saved);
    }

    method Rollback() returns (o: Outcome)
      modifies this
      ensures Contents() == Reached(old(Contents()), RollbackPlan(env, old(Contents())), old(power))
      ensures o == Ended(RollbackPlan(env, old(Contents())), old(power))
    {
      if receipt.None? { return Refused(MissingReceipt); }
      var r := receipt.value;
      if r.backup !in files { return Refused(MissingFile); }
      var original := files[r.backup];
      if |original| > MAX_AUTHORIZED { return Refused(FileSize); }
      if env.sha(original) != r.baseline { return Refused(BackupIdentity); }
      if keys.None? { return Refused(MissingFile); }
      var current := keys.value;
      if |current| > MAX_AUTHORIZED { return Refused(FileSize); }
      if r.phase == RolledBack && current == original { return Done(AlreadyRolledBack); }
      ghost var start := Contents();
      ghost var ws := RollbackPlan(env, start).writes;
      var alive;
      if r.phase == Prepared && current == original {
        assert ws[..0] == [];
      } else if env.sha(current) == r.installed {
        assert ws[..0] == [] && ws[..1] == [PutKeys(original)];
        alive := AtomicWrite(PutKeys(original));
        if !alive { return Crashed; }
        assert Contents() == PutAll(start, ws[..1]);
      } else {
        return Refused(LaterEdit);
      }
      assert Contents() == PutAll(start, ws[..|ws| - 1]);
      alive := AtomicWrite(PutReceipt(r.(phase := RolledBack)));
      return if alive then Done(RolledBackNow) else Crashed;
    }
  }

  /** Writing a plan in two parts comes to the same disk. */
  lemma {:induction false} PutAllSplits(d: Disk, xs: seq<Write>, ys: seq<Write>)
    ensures PutAll(d, xs + ys) == PutAll(PutAll(d, xs), ys)
    decreases |ys|
  {
    if ys == [] {
      assert xs + ys == xs;
    } else {
      var zs := ys[..|ys| - 1];
      assert (xs + ys)[..|xs + ys| - 1] == xs + zs;
      PutAllSplits(d, xs, zs);
    }
  }

  lemma FirstWrites(d: Disk, first: seq<Write>, rest: Plan, power: nat)
    requires |first| == 3
    ensures var plan := Plan(first + rest.writes, rest.end);
            && PutAll(d, first) == Put(Put(Put(d, first[0]), first[1]), first[2])
            && (power == 0 ==> Reached(d, plan, power) == d)
            && (power == 1 ==> Reached(d, plan, power) == Put(d, first[0]))
            && (power == 2 ==> Reached(d, plan, power) == Put(Put(d, first[0]), first[1]))
            && (power >= 3 ==> Reached(d, plan, power) == Reached(PutAll(d, first), rest, power - 3)
                               && Ended(plan, power) == Ended(rest, power - 3))
  {
    var ws := first + rest.writes;
    assert first[..2][..1] == first[..1] && first[..1][..0] == [] && first[..3] == first;
    assert PutAll(d, first[..1]) == Put(d, first[0]);
    assert PutAll(d, first[..2]) == Put(Put(d, first[0]), first[1]);
    assert power <= 2 ==> ws[..power] == first[..power];
    if power >= 3 {
      PutAllSplits(d, first, rest.writes);
      if power < |ws| {
        assert ws[..power] == first + rest.writes[..power - 3];
        PutAllSplits(d, first, rest.writes[..power - 3]);
      }
    }
  }
}
