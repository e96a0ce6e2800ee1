/** What the installer leaves in authorized_keys, byte by byte, what its receipt says of those bytes, and the reason for
    each refusal. */
module KeyInstallEffects {
  import opened Common
  import opened KeyInstall
  import opened KeyInstallTheorems

  // ---- The installed bytes ----

  const OPTIONS := "restrict,cert-authority,principals=\"dev-env-keeper-proxmox-minter\" "
  const TRAILER := " dev-env-keeper-proxmox-minter-ca"
  const NAME := "dev-env-keeper-proxmox-minter-ca"

  /** Byte for byte the characters of a string. */
  predicate Spells(b: Bytes, s: string) { |b| == |s| && forall i | 0 <= i < |s| :: b[i] == s[i] as int }

  /** The file is `base`, untouched, then one newline, the restricting options with the principal, the key, the marker
      and one newline. */
  ghost predicate Appended(base: Bytes, public: Bytes, file: Bytes) {
    var n, k := |base|, |public|;
    && |file| == n + 1 + 67 + k + 33 + 1
    && file[..n] == base && file[n] == 10
    && Spells(file[n + 1..n + 68], OPTIONS)
    && file[n + 68..n + 68 + k] == public
    && Spells(file[n + 68 + k..n + 68 + k + 33], TRAILER)
    && file[n + 68 + k + 33] == 10
  }

  lemma OptionsText()
    ensures OPTIONS == "restrict,cert-authority,principals=\"" + PRINCIPAL + "\" "
  {
  }

  lemma OptionsAscii()
    ensures IsAscii("restrict,cert-authority,principals=\"" + PRINCIPAL + "\" ")
  {
  }

  /** The options name nothing that starts with a d before the principal. */
  lemma OptionsBegin()
    ensures |OPTIONS| == 67 && OPTIONS[66] == ' ' && OPTIONS[..35] == "restrict,cert-authority,principals="
    ensures 'd' !in "restrict,cert-authority,principals="
  {
  }

  lemma TrailerText()
    ensures |TRAILER| == 33 && IsAscii(TRAILER) && TRAILER == " " + MARKER
  {
  }

  lemma NameText()
    ensures |NAME| == 32 && TRAILER[1..] == NAME && TRAILER[0] == ' '
  {
  }

  lemma {:induction false} LineBytes(public: Bytes)
    ensures IsAscii(OPTIONS) && IsAscii(TRAILER) && |OPTIONS| == 67 && |TRAILER| == 33
    ensures AuthorizedLine(public) == Ascii(OPTIONS) + public + Ascii(TRAILER)
  {
    OptionsText();
    OptionsBegin();
    OptionsAscii();
    TrailerText();
    hide Ascii, IsAscii;
  }

  lemma {:induction false} EntryParts(base: Bytes, head: Bytes, public: Bytes, tail: Bytes)
    requires |head| == 67 && |tail| == 33
    ensures var file, n, k := base + [10] + (head + public + tail) + [10], |base|, |public|;
            && |file| == n + 102 + k && file[..n] == base && file[n] == 10 && file[n + 1..n + 68] == head
            && file[n + 68..n + 68 + k] == public && file[n + 68 + k..n + 68 + k + 33] == tail
            && file[n + 68 + k + 33] == 10
  {
  }

  lemma {:induction false} EntryBytes(base: Bytes, public: Bytes)
    ensures Appended(base, public, WithEntry(base, public))
  {
    LineBytes(public);
    SpellsAscii(OPTIONS);
    SpellsAscii(TRAILER);
    EntryParts(base, Ascii(OPTIONS), public, Ascii(TRAILER));
    hide Ascii, IsAscii, AuthorizedLine, Spells;
  }

  lemma {:induction false} SpellsAscii(s: string)
    requires IsAscii(s)
    ensures Spells(Ascii(s), s)
  {
  }

  /** Only one file is `base` with this key appended. */
  lemma {:induction false} AppendedOnce(base: Bytes, public: Bytes, file: Bytes)
    requires Appended(base, public, file)
    ensures file == WithEntry(base, public)
  {
    EntryBytes(base, public);
    hide WithEntry;
    var g, n, k := WithEntry(base, public), |base|, |public|;
    forall i | 0 <= i < |file| ensures file[i] == g[i] {
      if i < n { assert file[..n][i] == g[..n][i]; }
      else if n < i < n + 68 { assert file[n + 1..n + 68][i - n - 1] == g[n + 1..n + 68][i - n - 1]; }
      else if n + 68 <= i < n + 68 + k {
        assert file[n + 68..n + 68 + k][i - n - 68] == g[n + 68..n + 68 + k][i - n - 68];
      }
      else if n + 68 + k <= i < n + 68 + k + 33 {
        assert file[n + 68 + k..n + 68 + k + 33][i - n - 68 - k] == g[n + 68 + k..n + 68 + k + 33][i - n - 68 - k];
      }
    }
  }

  /** A completed installation keeps every byte of the original and appends exactly the one entry for this key. */
  lemma {:induction false} InstalledBytes(env: Env, d: Disk, base: Bytes, public: Bytes, power: nat)
    requires Sound(env) && Safe(env, d, base) && power >= 5
    requires Ended(InstallPlan(env, d, public), power).Done?
    ensures var t := Step(env, d, RunInstall(public, power));
            t.keys.Some? && Appended(base, public, t.keys.value)
            && |base| + |public| + 102 == |t.keys.value| <= 65536
  {
    InstallCompletesExactlyWhen(env, d, base, public, power);
    EntryBytes(base, public);
  }

  /** Whatever was run and wherever it was cut, the file is the original or the original with one entry. */
  lemma {:induction false} AlwaysTheseBytes(env: Env, d: Disk, base: Bytes, ops: seq<Op>)
    requires Sound(env) && Safe(env, d, base) && forall i | 0 <= i < |ops| :: !ops[i].Edit?
    ensures var keys := Run(env, d, ops).keys;
            keys == Some(base) || (keys.Some? && exists public :: Appended(base, public, keys.value))
  {
    AlwaysOriginalOrOneEntry(env, d, base, ops);
    hide Run, Safe, Sound, Appended, WithEntry;
    var keys := Run(env, d, ops).keys;
    if keys != Some(base) {
      var public :| keys == Some(WithEntry(base, public));
      EntryBytes(base, public);
    }
  }

  // ---- The marker ----

  lemma ContainsExactly(hay: Bytes, needle: Bytes)
    ensures Contains(hay, needle) <==> exists a, b :: hay == a + needle + b
  {
    if Contains(hay, needle) {
      var i :| 0 <= i <= |hay| && OccursAt(hay, needle, i);
      assert hay == hay[..i] + needle + hay[i + |needle|..];
    }
    if a, b :| hay == a + needle + b { assert OccursAt(hay, needle, |a|); }
  }

  lemma MarkerBytes(m: Bytes)
    requires Spells(m, NAME)
    ensures |m| == 32 && m[0] == 100 && forall j | 0 <= j < 32 :: m[j] != 10 && m[j] != 32
  {
  }

  lemma NoMarkerInOptions(b: Bytes)
    requires Spells(b, OPTIONS)
    ensures |b| == 67 && b[66] == 32 && forall j | 0 <= j < 35 :: b[j] != 100
  {
    OptionsBegin();
    assert forall j | 0 <= j < 35 :: OPTIONS[..35][j] == OPTIONS[j];
  }

  /** When the original does not name the marker, the installed file names it exactly once, at its end, if and only if
      the key does not name it either. */
  lemma {:induction false} MarkerOnce(base: Bytes, public: Bytes, file: Bytes, m: Bytes)
    requires Appended(base, public, file) && Spells(m, NAME) && !Contains(base, m)
    ensures OccursAt(file, m, |file| - 33)
    ensures (forall i: nat | OccursAt(file, m, i) :: i == |file| - 33) <==> !Contains(public, m)
  {
    MarkerBytes(m);
    MarkerIsLast(base, public, file, m);
    MarkerStops(base, public, file);
    hide Appended, Spells;
    if Contains(public, m) {
      var j :| 0 <= j <= |public| && OccursAt(public, m, j);
      MarkerInKey(base, public, file, m, j);
    } else {
      forall i: nat | OccursAt(file, m, i) ensures i == |file| - 33 { MarkerAt(base, public, file, m, i); }
    }
  }

  lemma {:induction false} MarkerInKey(base: Bytes, public: Bytes, file: Bytes, m: Bytes, j: nat)
    requires Appended(base, public, file) && OccursAt(public, m, j)
    ensures OccursAt(file, m, |base| + 68 + j) && |base| + 68 + j + |m| <= |base| + 68 + |public| == |file| - 34
  {
    var n, k := |base|, |public|;
    assert file[n + 68 + j..n + 68 + j + |m|] == file[n + 68..n + 68 + k][j..j + |m|];
  }

  lemma {:induction false} MarkerIsLast(base: Bytes, public: Bytes, file: Bytes, m: Bytes)
    requires Appended(base, public, file) && Spells(m, NAME)
    ensures |m| == 32 && OccursAt(file, m, |file| - 33)
  {
    NameText();
    var at := |file| - 33;
    var tail := file[at - 1..at + 32];
    assert Spells(tail, TRAILER);
    forall j | 0 <= j < 32 ensures file[at..at + 32][j] == m[j] {
      assert tail[j + 1] == TRAILER[j + 1] as int && TRAILER[1..][j] == TRAILER[j + 1];
    }
  }

  /** Where the marker cannot be: at the two newlines and the two spaces, and it cannot start in the options. */
  lemma {:induction false} MarkerStops(base: Bytes, public: Bytes, file: Bytes)
    requires Appended(base, public, file)
    ensures var n, k := |base|, |public|;
            && |file| == n + k + 102 && file[n] == 10 && file[n + 67] == 32 && file[n + 68 + k] == 32
            && file[|file| - 1] == 10 && forall j | n < j < n + 36 :: file[j] != 100
  {
    var n, k := |base|, |public|;
    var options := file[n + 1..n + 68];
    NoMarkerInOptions(options);
    NameText();
    assert forall j | n < j < n + 68 :: options[j - n - 1] == file[j];
    assert file[n + 68 + k..n + 68 + k + 33][0] == file[n + 68 + k];
  }

  lemma {:induction false} MarkerAt(base: Bytes, public: Bytes, file: Bytes, m: Bytes, i: nat)
    requires |file| == |base| + |public| + 102 && file[..|base|] == base && file[|base|] == 10
    requires file[|base| + 67] == 32 && file[|base| + 68 + |public|] == 32 && file[|file| - 1] == 10
    requires file[|base| + 68..|base| + 68 + |public|] == public
    requires forall j | |base| < j < |base| + 36 :: file[j] != 100
    requires |m| == 32 && m[0] == 100 && forall j | 0 <= j < 32 :: m[j] != 10 && m[j] != 32
    requires OccursAt(file, m, i)
    ensures i == |file| - 33 || Contains(base, m) || Contains(public, m)
  {
    var n, k := |base|, |public|;
    BytesAt(file, m, i);
    if i + 32 <= n {
      OccursWithin(file, m, i, 0, n);
    } else if n + 67 < i < n + 68 + k {
      OccursWithin(file, m, i, n + 68, n + 68 + k);
    }
  }

  lemma {:induction false} OccursWithin(file: Bytes, m: Bytes, i: nat, from: nat, to: nat)
    requires OccursAt(file, m, i) && from <= i && i + |m| <= to <= |file|
    ensures Contains(file[from..to], m)
  {
    var part, j := file[from..to], i - from;
    forall p | 0 <= p < |m|
      ensures part[j..j + |m|][p] == m[p]
    {
      assert part[j + p] == file[i + p] && file[i..i + |m|][p] == file[i + p];
    }
    assert part[j..j + |m|] == m;
    assert OccursAt(part, m, j);
  }

  lemma {:induction false} BytesAt(file: Bytes, m: Bytes, i: nat)
    requires OccursAt(file, m, i) && |m| == 32 && m[0] == 100 && forall j | 0 <= j < 32 :: m[j] != 10 && m[j] != 32
    ensures file[i] == 100 && forall p | i <= p < i + 32 :: file[p] != 10 && file[p] != 32
  {
    assert file[i..i + 32][0] == file[i];
    forall p | i <= p < i + 32 ensures file[p] != 10 && file[p] != 32 { assert file[i..i + 32][p - i] == file[p]; }
  }

  lemma MarkerIs(m: Bytes)
    requires Spells(m, NAME)
    ensures m == Ascii(MARKER)
  {
    NameText();
    TrailerText();
    assert TRAILER[1..] == MARKER;
    assert forall j | 0 <= j < 32 :: NAME[j] == MARKER[j];
  }

  /** A first installation of a key that does not name the marker leaves the marker in the file exactly once. */
  lemma InstalledOnce(env: Env, d: Disk, base: Bytes, public: Bytes, power: nat, m: Bytes)
    requires Sound(env) && Untouched(d, base) && power >= 5 && Spells(m, NAME) && !Contains(public, m)
    requires Ended(InstallPlan(env, d, public), power).Done?
    ensures var t := Step(env, d, RunInstall(public, power));
            && t.keys.Some? && |t.keys.value| >= 33 && !Contains(base, m) && !Contains(base, public)
            && forall i: nat :: OccursAt(t.keys.value, m, i) <==> i == |t.keys.value| - 33
  {
    MarkerIs(m);
    assert Safe(env, d, base);
    InstallCompletesExactlyWhen(env, d, base, public, power);
    InstalledBytes(env, d, base, public, power);
    var file := Step(env, d, RunInstall(public, power)).keys.value;
    hide Step, InstallPlan, Appended, Spells;
    MarkerOnce(base, public, file, m);
  }

  // ---- The receipt ----

  /** The receipt holds the three digests: of the backed-up original, of the original with its entry, and of the entry
      alone. */
  ghost predicate ReceiptSays(env: Env, d: Disk) {
    d.receipt.Some? ==>
      var r := d.receipt.value;
      && r.backup in d.files && |d.files[r.backup]| <= 65536 && r.baseline == env.sha(d.files[r.backup])
      && exists public, file ::
           && Appended(d.files[r.backup], public, file) && r.installed == env.sha(file)
           && r.entry == env.sha(file[|d.files[r.backup]| + 1..|file| - 1])
  }

  lemma {:induction false} EntryLine(base: Bytes, public: Bytes)
    ensures var file := WithEntry(base, public);
            |file| >= |base| + 2 && file[|base| + 1..|file| - 1] == AuthorizedLine(public)
  {
  }

  lemma ReceiptIsExact(env: Env, d: Disk)
    requires ReceiptSound(env, d)
    ensures ReceiptSays(env, d)
  {
    if d.receipt.Some? {
      var base, public :| Describes(env, d, base, public);
      EntryBytes(base, public);
      EntryLine(base, public);
      hide Appended, WithEntry, AuthorizedLine;
      assert Appended(base, public, WithEntry(base, public));
    }
  }

  /** Whatever edits, installations and rollbacks came before, and wherever each was cut. */
  lemma ReceiptAlwaysSays(env: Env, d: Disk, ops: seq<Op>)
    requires Sound(env) && d.receipt.None?
    ensures ReceiptSays(env, Run(env, d, ops))
  {
    ReceiptAlwaysSound(env, d, ops);
    ReceiptIsExact(env, Run(env, d, ops));
  }

  // ---- Backups ----

  lemma {:induction false} WritesKeepFile(d: Disk, ws: seq<Write>, name: string)
    requires name in d.files && forall i | 0 <= i < |ws| && ws[i].PutFile? :: ws[i].name != name
    ensures name in PutAll(d, ws).files && PutAll(d, ws).files[name] == d.files[name]
    decreases |ws|
  {
    if ws != [] { WritesKeepFile(d, ws[..|ws| - 1], name); }
  }

  lemma StepKeepsFile(env: Env, d: Disk, op: Op, name: string)
    requires Sound(env) && name in d.files
    ensures name in Step(env, d, op).files && Step(env, d, op).files[name] == d.files[name]
  {
    if !op.Edit? {
      var p := if op.RunInstall? then InstallPlan(env, d, op.public) else RollbackPlan(env, d);
      assert env.unused(d.files.Keys) !in d.files.Keys;
      PlansKeepFile(env, d, op, name);
      var ws := if op.power < |p.writes| then p.writes[..op.power] else p.writes;
      hide InstallPlan, RollbackPlan;
      WritesKeepFile(d, ws, name);
    }
  }

  lemma PlansKeepFile(env: Env, d: Disk, op: Op, name: string)
    requires Sound(env) && name in d.files && !op.Edit?
    ensures var p := if op.RunInstall? then InstallPlan(env, d, op.public) else RollbackPlan(env, d);
            forall i | 0 <= i < |p.writes| && p.writes[i].PutFile? :: p.writes[i].name != name
  {
    hide WithEntry, AuthorizedLine, Contains, Ascii;
  }

  /** No run, whole or cut off, and no edit ever changes or removes a file that is already there: a backup made once
      keeps the original for good. */
  lemma {:induction false} BackupsStay(env: Env, d: Disk, ops: seq<Op>, name: string)
    requires Sound(env) && name in d.files
    ensures name in Run(env, d, ops).files && Run(env, d, ops).files[name] == d.files[name]
    decreases |ops|
  {
    if ops != [] {
      hide Step, Sound;
      BackupsStay(env, d, ops[..|ops| - 1], name);
      StepKeepsFile(env, Run(env, d, ops[..|ops| - 1]), ops[|ops| - 1], name);
    }
  }

  // ---- Crash points ----

  /** A first installation writes, in this order: an empty backup, the backup, the receipt, the extended file, the
      receipt again.  Power lost before write number `power` + 1 leaves exactly the first `power` of them. */
  lemma CrashPoints(env: Env, d: Disk, base: Bytes, public: Bytes, power: nat, m: Bytes)
    requires Untouched(d, base) && Spells(m, NAME) && !Contains(base, public) && !Contains(base, m)
    requires |base| + |public| + 102 <= 65536
    ensures var t, b := Step(env, d, RunInstall(public, power)), env.unused(d.files.Keys);
            && t.files == (if power == 0 then d.files else d.files[b := if power == 1 then [] else base])
            && (power < 3 ==> t.receipt.None?)
            && (power >= 3 ==> t.receipt.Some? && t.receipt.value.backup == b
                               && t.receipt.value.phase == if power < 5 then Prepared else Installed)
            && (power < 4 ==> t.keys == Some(base))
            && (power >= 4 ==> t.keys.Some? && Appended(base, public, t.keys.value))
            && Ended(InstallPlan(env, d, public), power) == if power < 5 then Crashed else Done(NewlyInstalled)
  {
    MarkerIs(m);
    EntryBytes(base, public);
    hide Appended, Spells, WithEntry, AuthorizedLine, Contains;
    var backup := env.unused(d.files.Keys);
    var saved := ReceiptFor(env, base, public, backup, Prepared);
    var first := [PutFile(backup, []), PutFile(backup, base), PutReceipt(saved)];
    var ready := d.(files := d.files[backup := base], receipt := Some(saved));
    assert |WithEntry(base, public)| == |base| + |public| + 102 by { EntryLength(base, public); }
    FirstWrites(d, first, FinishPlan(WithEntry(base, public), saved), power);
    assert d.files[backup := []][backup := base] == d.files[backup := base];
    if power >= 3 { FinishReaches(ready, WithEntry(base, public), saved, power - 3); }
  }

  lemma {:induction false} EntryLength(base: Bytes, public: Bytes)
    ensures |WithEntry(base, public)| == |base| + |public| + 102
  {
    EntryBytes(base, public);
  }

  // ---- Reasons ----

  /** Why a whole installation ends as it does: a file too long to read, a key or marker that is there already, a
      receipt of another key or of a rollback, a rollback cut off before, a result too long, or success. */
  lemma WhyInstallEnds(env: Env, d: Disk, base: Bytes, public: Bytes, power: nat, m: Bytes)
    requires Sound(env) && Safe(env, d, base) && power >= 5 && Spells(m, NAME)
    ensures Ended(InstallPlan(env, d, public), power)
            == if |d.keys.value| > 65536 then Refused(FileSize)
               else if d.receipt.None? && (Contains(base, public) || Contains(base, m))
                   then Refused(ExistingKeyConflict)
               else if d.receipt.Some? && d.receipt.value.phase == RolledBack then Refused(ReceiptConflict)
               else if d.receipt.Some? && d.receipt.value.entry != env.sha(AuthorizedLine(public))
                    then Refused(ReceiptConflict)
               else if d.keys.value != base then Done(AlreadyInstalled)
               else if d.receipt.Some? && d.receipt.value.phase == Installed then Refused(LaterEdit)
               else if |base| + |public| + 102 > 65536 then Refused(FileSize)
               else Done(NewlyInstalled)
  {
    MarkerIs(m);
    EntryBytes(base, public);
    assert |WithEntry(base, public)| == |base| + |public| + 102;
    hide Appended, Spells;
    if d.receipt.Some? {
      var p :| Tracked(env, d, base, p);
      if d.receipt.value.entry == env.sha(AuthorizedLine(public)) { SameLineSamePublic(env, base, p, public); }
      hide AuthorizedLine;
      assert WithEntry(base, p) != base;
      hide WithEntry, Contains;
    } else {
      hide WithEntry, AuthorizedLine, Contains;
    }
  }

  lemma WhyRollbackEnds(env: Env, d: Disk, base: Bytes, power: nat)
    requires Sound(env) && Safe(env, d, base) && power >= 2
    ensures Ended(RollbackPlan(env, d), power)
            == if d.receipt.None? then Refused(MissingReceipt)
               else if |d.keys.value| > 65536 then Refused(FileSize)
               else if d.receipt.value.phase == RolledBack then Done(AlreadyRolledBack)
               else if d.receipt.value.phase == Installed && d.keys.value == base then Refused(LaterEdit)
               else Done(RolledBackNow)
  {
    if d.receipt.Some? {
      var p :| Tracked(env, d, base, p);
      assert WithEntry(base, p) != base;
      hide WithEntry;
    }
  }
}
