/** What every interleaving of receivers and the waiter keeps, and what the waiter may rely on. */
module PublicationTheorems {
  import opened Common
  import opened ProofFrame
  import opened Publication

  // ---- Progress of one receiver ----

  function Created(p: Place): nat {
    match p
    case Arrived => 0
    case Making(i) => i
    case Writing(i) => i + 1
    case _ => 3
  }

  function Finished(p: Place): nat {
    match p
    case Arrived => 0
    case Making(i) => i
    case Writing(i) => i
    case _ => 3
  }

  function FrozenFiles(p: Place): nat {
    match p
    case Sealing(j) => j
    case Staged => 3
    case Filled => 3
    case Linked => 3
    case Unlinked => 3
    case Done => 3
    case _ => 0
  }

  predicate Measured(p: Place) { p.Sealing? || FrozenFiles(p) == 3 }
  predicate HoldsStage(p: Place) { p.Staged? || p.Filled? || p.Linked? }
  predicate HoldsMarker(p: Place) { p.Linked? || p.Unlinked? || p.Done? }
  predicate Published(p: Place) { p.Unlinked? || p.Done? }

  predicate GoodReceiver(g: Gate, p: Receiver) {
    && RowsApproved(g, p.rows) && Created(p.place) <= 3 && FrozenFiles(p.place) <= 3
  }

  // ---- The invariant ----

  /** File `i` of a receiver that has come this far is its own, finished and frozen as far as it has got. */
  ghost predicate Owned(env: Env, s: Sys, r: nat, i: nat)
    requires r in s.receivers && i < |s.receivers[r].rows|
  {
    var p := s.receivers[r];
    var name := p.rows[i].name;
    i < Created(p.place) ==>
      && name in s.files && s.files[name].owner == r
      && (i < Finished(p.place) ==> Matches(env, p.rows[i], s.files[name]) && s.files[name].synced)
      && (i < FrozenFiles(p.place) ==> s.files[name].frozen)
  }

  ghost predicate OwnsAll(env: Env, s: Sys, r: nat)
    requires r in s.receivers
  {
    forall i | 0 <= i < |s.receivers[r].rows| :: Owned(env, s, r, i)
  }

  ghost predicate Creates(p: Receiver, name: string) {
    exists i :: 0 <= i < |p.rows| && i < Created(p.place) && p.rows[i].name == name
  }

  ghost predicate ReceiversSound(env: Env, g: Gate, s: Sys) {
    forall r | r in s.receivers :: GoodReceiver(g, s.receivers[r]) && OwnsAll(env, s, r)
  }

  ghost predicate FilesSound(s: Sys) {
    forall n | n in s.files :: s.files[n].owner in s.receivers && Creates(s.receivers[s.files[n].owner], n)
  }

  ghost predicate NamesSound(s: Sys) {
    && (forall r :: r in s.staged <==> r in s.receivers && HoldsStage(s.receivers[r].place))
    && (s.marker.Some? ==> s.marker.value in s.receivers)
    && (forall r | r in s.receivers :: HoldsMarker(s.receivers[r].place) <==> s.marker == Some(r))
  }

  predicate SizesFit(s: Sys, sizes: map<string, nat>) {
    sizes.Keys == AllNames() && forall n | n in sizes :: n in s.files && sizes[n] == |s.files[n].content|
  }

  ghost predicate TextSound(s: Sys, r: nat)
    requires r in s.receivers
  {
    var p := s.receivers[r];
    && (Measured(p.place) ==> SizesFit(s, p.sizes))
    && (p.place.Filled? || HoldsMarker(p.place) ==> r in s.texts && s.texts[r] == p.sizes)
  }

  ghost predicate TextsSound(s: Sys) { forall r | r in s.receivers :: TextSound(s, r) }

  ghost predicate DirSound(s: Sys) {
    && (s.waiter.Absent? <==> !s.dir) && !s.waiter.Refused?
    && (!s.dir ==> forall r | r in s.receivers :: s.receivers[r].place.Arrived?)
  }

  ghost predicate WaiterSound(s: Sys) {
    s.waiter.Checking? || s.waiter.Accepted? ==>
      && s.marker.Some? && s.marker.value in s.receivers && Published(s.receivers[s.marker.value].place)
      && (s.waiter.Checking? ==> s.waiter.k <= 5)
  }

  ghost predicate Base(env: Env, g: Gate, s: Sys) { ReceiversSound(env, g, s) && FilesSound(s) }

  ghost predicate Inv(env: Env, g: Gate, s: Sys) {
    Base(env, g, s) && NamesSound(s) && TextsSound(s) && DirSound(s) && WaiterSound(s)
  }

  // ---- One receiver moves ----

  /** Receiver `r` becomes `p` and touches at most one file, its own or a new one. */
  ghost predicate Touches(s: Sys, t: Sys, r: nat, p: Receiver) {
    && r in s.receivers && t.receivers == s.receivers[r := p]
    && (forall n | n in s.files ::
          n in t.files && (t.files[n] == s.files[n] || (s.files[n].owner == r && t.files[n].owner == r)))
    && (forall n | n in t.files && n !in s.files :: t.files[n].owner == r)
  }

  lemma OthersKeepFiles(env: Env, g: Gate, s: Sys, t: Sys, r: nat, p: Receiver)
    requires Touches(s, t, r, p) && ReceiversSound(env, g, s) && GoodReceiver(g, p) && OwnsAll(env, t, r)
    ensures ReceiversSound(env, g, t)
  {
    forall q | q in t.receivers && q != r
      ensures OwnsAll(env, t, q)
    {
      forall i | 0 <= i < |t.receivers[q].rows|
        ensures Owned(env, t, q, i)
      {
        assert Owned(env, s, q, i);
      }
    }
  }

  lemma FilesStayCreated(s: Sys, t: Sys, r: nat, p: Receiver)
    requires Touches(s, t, r, p) && FilesSound(s)
    requires p.rows == s.receivers[r].rows && Created(p.place) >= Created(s.receivers[r].place)
    requires forall n | n in t.files && n !in s.files :: Creates(p, n)
    ensures FilesSound(t)
  {
    forall n | n in t.files
      ensures t.files[n].owner in t.receivers && Creates(t.receivers[t.files[n].owner], n)
    {
      if n in s.files {
        assert Creates(s.receivers[s.files[n].owner], n);
        var i :| 0 <= i < |s.receivers[s.files[n].owner].rows| && i < Created(s.receivers[s.files[n].owner].place)
                 && s.receivers[s.files[n].owner].rows[i].name == n;
        assert t.receivers[t.files[n].owner].rows[i].name == n;
      }
    }
  }

  /** Who has created all three files has them all; nobody else has any. */
  lemma SoleOwner(env: Env, g: Gate, s: Sys, r: nat)
    requires ReceiversSound(env, g, s) && FilesSound(s) && r in s.receivers && Created(s.receivers[r].place) == 3
    ensures s.files.Keys == AllNames() && forall n | n in s.files :: s.files[n].owner == r
    ensures forall q | q in s.receivers && q != r :: Created(s.receivers[q].place) == 0
  {
    var p := s.receivers[r];
    assert forall i | 0 <= i < 3 :: RowApproved(g, p.rows[i]);
    EveryNameOnce(p.rows);
    forall n | n in NAMES
      ensures n in s.files && s.files[n].owner == r
    {
      var i :| 0 <= i < 3 && p.rows[i].name == n;
      assert Owned(env, s, r, i);
    }
    assert NAMES[0] in NAMES && NAMES[1] in NAMES && NAMES[2] in NAMES;
    forall n | n in s.files
      ensures n in NAMES
    {
      var q := s.files[n].owner;
      assert Creates(s.receivers[q], n) && GoodReceiver(g, s.receivers[q]);
      var i :| 0 <= i < |s.receivers[q].rows| && i < Created(s.receivers[q].place) && s.receivers[q].rows[i].name == n;
      assert RowApproved(g, s.receivers[q].rows[i]);
    }
    forall q | q in s.receivers && q != r
      ensures Created(s.receivers[q].place) == 0
    {
      assert GoodReceiver(g, s.receivers[q]);
      assert RowApproved(g, s.receivers[q].rows[0]);
      assert Owned(env, s, q, 0);
    }
  }

  // ---- Files and receivers, step by step ----

  /** A step that leaves every file alone and takes its receiver no further than it has verified. */
  lemma MoveKeeps(env: Env, g: Gate, s: Sys, t: Sys, r: nat, p: Receiver)
    requires Base(env, g, s) && r in s.receivers && t.receivers == s.receivers[r := p] && t.files == s.files
    requires p.rows == s.receivers[r].rows && GoodReceiver(g, p)
    requires Created(p.place) == Created(s.receivers[r].place) && Finished(p.place) == Finished(s.receivers[r].place)
    requires FrozenFiles(p.place) == FrozenFiles(s.receivers[r].place)
    ensures Base(env, g, t)
  {
    forall i | 0 <= i < |p.rows|
      ensures Owned(env, t, r, i)
    {
      assert Owned(env, s, r, i);
    }
    OthersKeepFiles(env, g, s, t, r, p);
    FilesStayCreated(s, t, r, p);
  }

  lemma CreateKeeps(env: Env, g: Gate, s: Sys, r: nat, i: nat)
    requires Base(env, g, s) && r in s.receivers && s.receivers[r].place == Making(i) && i < |s.receivers[r].rows|
    requires s.receivers[r].rows[i].name !in s.files
    ensures Base(env, g, Create(s, r, i))
  {
    var t := Create(s, r, i);
    var p := t.receivers[r];
    forall k | 0 <= k < |p.rows|
      ensures Owned(env, t, r, k)
    {
      assert Owned(env, s, r, k);
    }
    OthersKeepFiles(env, g, s, t, r, p);
    forall n | n in t.files && n !in s.files
      ensures Creates(p, n)
    {
      assert p.rows[i].name == n;
    }
    FilesStayCreated(s, t, r, p);
  }

  lemma FinishKeeps(env: Env, g: Gate, s: Sys, r: nat, i: nat)
    requires Base(env, g, s) && r in s.receivers && s.receivers[r].place == Writing(i) && i < |s.receivers[r].rows|
    requires s.receivers[r].rows[i].name in s.files && Matches(env, s.receivers[r].rows[i],
             s.files[s.receivers[r].rows[i].name])
    ensures Base(env, g, Finish(env, s, r, i))
  {
    var t := Finish(env, s, r, i);
    var p := t.receivers[r];
    assert Owned(env, s, r, i);
    GoodAt(env, g, s, r);
    assert GoodReceiver(g, p);
    hide RowsApproved, FilesSound;
    forall k | 0 <= k < |p.rows|
      ensures Owned(env, t, r, k)
    {
      assert Owned(env, s, r, k);
    }
    OthersKeepFiles(env, g, s, t, r, p);
    FilesStayCreated(s, t, r, p);
  }

  lemma SealKeeps(env: Env, g: Gate, s: Sys, r: nat, j: nat)
    requires Base(env, g, s) && r in s.receivers && s.receivers[r].place == Sealing(j) && j < |s.receivers[r].rows|
    ensures s.receivers[r].rows[j].name in s.files && Base(env, g, Seal(s, r, j))
  {
    assert Owned(env, s, r, j);
    var t := Seal(s, r, j);
    var p := t.receivers[r];
    forall k | 0 <= k < |p.rows|
      ensures Owned(env, t, r, k)
    {
      assert Owned(env, s, r, k);
    }
    OthersKeepFiles(env, g, s, t, r, p);
    FilesStayCreated(s, t, r, p);
  }

  lemma AppendKeeps(env: Env, g: Gate, s: Sys, r: nat, chunk: Bytes)
    requires Base(env, g, s) && r in s.receivers
    ensures Base(env, g, Appended(s, r, chunk))
  {
    var t := Appended(s, r, chunk);
    if t != s {
      var p := s.receivers[r];
      assert Owned(env, s, r, p.place.i);
      assert t.receivers == s.receivers[r := p];
      forall k | 0 <= k < |p.rows|
        ensures Owned(env, t, r, k)
      {
        assert Owned(env, s, r, k);
      }
      OthersKeepFiles(env, g, s, t, r, p);
      FilesStayCreated(s, t, r, p);
    }
  }

  lemma GoodAt(env: Env, g: Gate, s: Sys, r: nat)
    requires Base(env, g, s) && r in s.receivers
    ensures GoodReceiver(g, s.receivers[r]) && |s.receivers[r].rows| == 3
  {
  }

  lemma HaltKeeps(env: Env, g: Gate, s: Sys, r: nat)
    requires Base(env, g, s) && r in s.receivers
    ensures Base(env, g, Halted(s, r))
  {
    GoodAt(env, g, s, r);
    hide Base, RowsApproved;
    MoveKeeps(env, g, s, Halted(s, r), r, s.receivers[r].(alive := false));
  }

  /** Any change of place that neither creates, finishes nor freezes a file, whatever it does to the marker's names. */
  lemma PlaceKeeps(env: Env, g: Gate, s: Sys, t: Sys, r: nat, place: Place)
    requires Base(env, g, s) && r in s.receivers && t.files == s.files
    requires t.receivers == s.receivers[r := s.receivers[r].(place := place)]
    requires Created(place) == Created(s.receivers[r].place) && Finished(place) == Finished(s.receivers[r].place)
    requires FrozenFiles(place) == FrozenFiles(s.receivers[r].place)
    ensures Base(env, g, t)
  {
    GoodAt(env, g, s, r);
    hide Base, RowsApproved;
    MoveKeeps(env, g, s, t, r, s.receivers[r].(place := place));
  }

  lemma ListKeeps(env: Env, g: Gate, s: Sys, r: nat)
    requires Base(env, g, s) && r in s.receivers && s.receivers[r].place == Making(3)
    ensures Base(env, g, ListAll(s, r))
  {
    GoodAt(env, g, s, r);
    if OnlyProofs(s) {
      hide Base, RowsApproved;
      MoveKeeps(env, g, s, ListAll(s, r), r, s.receivers[r].(place := Sealing(0), sizes := Sizes(s)));
    } else {
      HaltKeeps(env, g, s, r);
    }
  }

  lemma FileStepKeeps(env: Env, g: Gate, s: Sys, r: nat)
    requires Base(env, g, s) && r in s.receivers
    requires s.receivers[r].place.Making? || s.receivers[r].place.Writing? || s.receivers[r].place.Sealing?
    ensures Base(env, g, Next(env, s, r))
  {
    GoodAt(env, g, s, r);
    HaltKeeps(env, g, s, r);
    var p := s.receivers[r];
    hide Base, Matches, ListAll, RowsApproved, Halted;
    match p.place
    case Making(i) =>
      if i == 3 { ListKeeps(env, g, s, r); } else if p.rows[i].name !in s.files { CreateKeeps(env, g, s, r, i); }
    case Writing(i) =>
      if p.rows[i].name in s.files && Matches(env, p.rows[i], s.files[p.rows[i].name]) { FinishKeeps(env, g, s, r, i); }
    case Sealing(j) =>
      if j < 3 { SealKeeps(env, g, s, r, j); } else { PlaceKeeps(env, g, s, Next(env, s, r), r, Staged); }
  }

  lemma NameStepKeeps(env: Env, g: Gate, s: Sys, r: nat)
    requires Base(env, g, s) && r in s.receivers
    requires !s.receivers[r].place.Making? && !s.receivers[r].place.Writing? && !s.receivers[r].place.Sealing?
    ensures Base(env, g, Next(env, s, r))
  {
    HaltKeeps(env, g, s, r);
    hide Base, EmptyDir, Halted;
    var t := Next(env, s, r);
    match s.receivers[r].place
    case Arrived => if s.dir && EmptyDir(s) { PlaceKeeps(env, g, s, t, r, Making(0)); }
    case Staged => PlaceKeeps(env, g, s, t, r, Filled);
    case Filled => if s.marker.None? { PlaceKeeps(env, g, s, t, r, Linked); }
    case Linked => PlaceKeeps(env, g, s, t, r, Unlinked);
    case Unlinked => PlaceKeeps(env, g, s, t, r, Done);
    case Done =>
  }

  lemma NextKeepsBase(env: Env, g: Gate, s: Sys, r: nat)
    requires Base(env, g, s) && r in s.receivers
    ensures Base(env, g, Next(env, s, r))
  {
    hide Base, Next;
    if s.receivers[r].place.Making? || s.receivers[r].place.Writing? || s.receivers[r].place.Sealing? {
      FileStepKeeps(env, g, s, r);
    } else {
      NameStepKeeps(env, g, s, r);
    }
  }

  // ---- The marker's two names, and what is written in it ----

  /** Sizes noted by the others stay right while no file changes length. */
  lemma TextsFrame(s: Sys, t: Sys, r: nat, p: Receiver)
    requires TextsSound(s) && r in s.receivers && t.receivers == s.receivers[r := p]
    requires forall n | n in s.files :: n in t.files && |t.files[n].content| == |s.files[n].content|
    requires forall q | q in s.texts && q != r :: q in t.texts && t.texts[q] == s.texts[q]
    requires TextSound(t, r)
    ensures TextsSound(t)
  {
    forall q | q in t.receivers && q != r
      ensures TextSound(t, q)
    {
      assert TextSound(s, q);
    }
  }

  ghost predicate NamesMoved(s: Sys, t: Sys, r: nat) {
    && r in s.receivers && r in t.receivers && t.receivers == s.receivers[r := t.receivers[r]]
    && t.staged == (if HoldsStage(t.receivers[r].place) then s.staged + {r} else s.staged - {r})
    && t.marker == (if HoldsMarker(t.receivers[r].place) then Some(r) else s.marker)
    && (HoldsMarker(t.receivers[r].place) ==> s.marker.None? || HoldsMarker(s.receivers[r].place))
    && (HoldsMarker(s.receivers[r].place) ==> HoldsMarker(t.receivers[r].place))
  }

  lemma NamesFollow(s: Sys, t: Sys, r: nat)
    requires NamesSound(s) && NamesMoved(s, t, r)
    ensures NamesSound(t)
  {
  }

  /** A step on the files alone: `r` holds no name of the marker before or after, no length changes, and any sizes `r`
      carries are right. */
  ghost predicate Quiet(s: Sys, t: Sys, r: nat) {
    && r in s.receivers && r in t.receivers && t.receivers == s.receivers[r := t.receivers[r]]
    && t.staged == s.staged && t.marker == s.marker && t.texts == s.texts && t.dir == s.dir && t.waiter == s.waiter
    && !HoldsStage(s.receivers[r].place) && !HoldsMarker(s.receivers[r].place)
    && !HoldsStage(t.receivers[r].place) && !HoldsMarker(t.receivers[r].place)
    && (forall n | n in s.files :: n in t.files && |t.files[n].content| == |s.files[n].content|)
    && TextSound(t, r)
  }

  lemma CreateIsQuiet(s: Sys, r: nat, i: nat)
    requires r in s.receivers && s.receivers[r].place == Making(i) && i < |s.receivers[r].rows|
    ensures Quiet(s, Create(s, r, i), r)
  {
  }

  lemma FinishIsQuiet(env: Env, s: Sys, r: nat, i: nat)
    requires r in s.receivers && s.receivers[r].place == Writing(i) && i < |s.receivers[r].rows|
    ensures Quiet(s, Finish(env, s, r, i), r)
  {
    hide Matches;
  }

  lemma ListIsQuiet(s: Sys, r: nat)
    requires r in s.receivers && s.receivers[r].place.Making?
    ensures Quiet(s, ListAll(s, r), r)
  {
  }

  lemma SealIsQuiet(s: Sys, r: nat, j: nat)
    requires r in s.receivers && s.receivers[r].place == Sealing(j) && j < |s.receivers[r].rows| <= 3 && TextSound(s, r)
    ensures Quiet(s, Seal(s, r, j), r)
  {
  }

  predicate OnFiles(p: Receiver) {
    p.place.Making? || (p.place.Writing? && p.place.i < |p.rows|) || (p.place.Sealing? && p.place.j < |p.rows|)
  }

  lemma FileStepIsQuiet(env: Env, s: Sys, r: nat)
    requires r in s.receivers && OnFiles(s.receivers[r]) && |s.receivers[r].rows| == 3 && TextSound(s, r)
    ensures Quiet(s, Next(env, s, r), r)
  {
    hide Quiet, Create, Finish, ListAll, Seal, TextSound;
    match s.receivers[r].place
    case Making(i) => if i < 3 { CreateIsQuiet(s, r, i); } else { ListIsQuiet(s, r); }
    case Writing(i) => FinishIsQuiet(env, s, r, i);
    case Sealing(j) => SealIsQuiet(s, r, j);
  }

  lemma QuietKeeps(s: Sys, t: Sys, r: nat)
    requires Quiet(s, t, r) && NamesSound(s) && TextsSound(s)
    ensures NamesSound(t) && TextsSound(t)
  {
    TextsFrame(s, t, r, t.receivers[r]);
    assert t.staged == s.staged - {r};
    hide TextsSound, TextSound;
    NamesFollow(s, t, r);
  }

  lemma NameStepNames(env: Env, s: Sys, r: nat)
    requires NamesSound(s) && r in s.receivers && !OnFiles(s.receivers[r])
    ensures NamesSound(Next(env, s, r))
  {
    assert r in s.staged <==> HoldsStage(s.receivers[r].place);
    assert HoldsMarker(s.receivers[r].place) <==> s.marker == Some(r);
    assert NamesMoved(s, Next(env, s, r), r) by { hide EmptyDir, NamesSound; }
    hide Next, NamesSound, NamesMoved;
    NamesFollow(s, Next(env, s, r), r);
  }

  lemma PlaceTexts(s: Sys, t: Sys, r: nat, place: Place)
    requires TextsSound(s) && r in s.receivers && t.files == s.files
    requires t.receivers == s.receivers[r := s.receivers[r].(place := place)]
    requires forall q | q in s.texts && q != r :: q in t.texts && t.texts[q] == s.texts[q]
    requires Measured(place) ==> Measured(s.receivers[r].place)
    requires place.Filled? || HoldsMarker(place) ==> r in t.texts && t.texts[r] == s.receivers[r].sizes
    ensures TextsSound(t)
  {
    assert TextSound(s, r);
    TextsFrame(s, t, r, s.receivers[r].(place := place));
  }

  lemma HaltTexts(s: Sys, r: nat)
    requires TextsSound(s) && r in s.receivers
    ensures TextsSound(Halted(s, r))
  {
    assert TextSound(s, r);
    TextsFrame(s, Halted(s, r), r, s.receivers[r].(alive := false));
  }

  lemma NameStepTexts(env: Env, s: Sys, r: nat)
    requires r in s.receivers && !OnFiles(s.receivers[r]) && TextSound(s, r) && TextsSound(s)
    ensures TextsSound(Next(env, s, r))
  {
    HaltTexts(s, r);
    hide TextsSound, EmptyDir, Halted, SizesFit;
    var t := Next(env, s, r);
    match s.receivers[r].place
    case Arrived => if s.dir && EmptyDir(s) { PlaceTexts(s, t, r, Making(0)); }
    case Writing(i) =>
    case Sealing(j) => PlaceTexts(s, t, r, Staged);
    case Staged => PlaceTexts(s, t, r, Filled);
    case Filled => if s.marker.None? { PlaceTexts(s, t, r, Linked); }
    case Linked => PlaceTexts(s, t, r, Unlinked);
    case Unlinked => PlaceTexts(s, t, r, Done);
    case Done =>
  }

  lemma NextKeepsMarker(env: Env, g: Gate, s: Sys, r: nat)
    requires Base(env, g, s) && NamesSound(s) && TextsSound(s) && r in s.receivers
    ensures NamesSound(Next(env, s, r)) && TextsSound(Next(env, s, r))
  {
    GoodAt(env, g, s, r);
    assert TextSound(s, r);
    hide Base, NamesSound, TextsSound, Next, TextSound, GoodReceiver, Quiet;
    if OnFiles(s.receivers[r]) {
      FileStepIsQuiet(env, s, r);
      QuietKeeps(s, Next(env, s, r), r);
    } else {
      NameStepNames(env, s, r);
      NameStepTexts(env, s, r);
    }
  }

  lemma AppendKeepsTexts(env: Env, g: Gate, s: Sys, r: nat, chunk: Bytes)
    requires Base(env, g, s) && TextsSound(s) && r in s.receivers
    ensures TextsSound(Appended(s, r, chunk))
  {
    var t := Appended(s, r, chunk);
    if t != s {
      forall q | q in t.receivers
        ensures TextSound(t, q)
      {
        GoodAt(env, g, s, q);
        if Created(s.receivers[q].place) == 3 && q != r {
          SoleOwner(env, g, s, q);
          assert false;
        }
      }
    }
  }

  // ---- The waiter ----

  /** Once the marker has its one name, every check of the waiter passes. */
  lemma ChecksPass(env: Env, g: Gate, s: Sys, k: nat)
    requires Base(env, g, s) && NamesSound(s) && TextsSound(s) && k <= 5
    requires s.marker.Some? && Published(s.receivers[s.marker.value].place)
    ensures CheckPasses(env, g, s, k)
  {
    var o := s.marker.value;
    SoleOwner(env, g, s, o);
    GoodAt(env, g, s, o);
    assert TextSound(s, o);
    assert s.staged == {} by {
      assert forall q | q in s.receivers :: !HoldsStage(s.receivers[q].place);
    }
    if k == 1 {
      forall n | n in s.texts[o]
        ensures 0 < s.texts[o][n] <= Limit(n)
      {
        PublishedFile(env, g, s, o, n);
      }
    } else if 2 <= k < 5 {
      assert NAMES[k - 2] in AllNames();
      PublishedFile(env, g, s, o, NAMES[k - 2]);
    }
  }

  /** Each file under a published marker is exactly what the gate approved, on disk and read-only. */
  lemma PublishedFile(env: Env, g: Gate, s: Sys, o: nat, n: string)
    requires Base(env, g, s) && o in s.receivers && FrozenFiles(s.receivers[o].place) == 3 && n in AllNames()
    ensures n in s.files && n in g.hashes && s.files[n].owner == o && s.files[n].synced && s.files[n].frozen
    ensures env.sha(s.files[n].content) == g.hashes[n] && 0 < |s.files[n].content| <= Limit(n)
  {
    var p := s.receivers[o];
    GoodAt(env, g, s, o);
    assert forall i | 0 <= i < 3 :: RowApproved(g, p.rows[i]);
    EveryNameOnce(p.rows);
    assert n in NAMES;
    var i :| 0 <= i < 3 && p.rows[i].name == n;
    assert Owned(env, s, o, i);
  }

  // ---- Every step, every run ----

  /** The directory and the waiter's own part of the invariant, under any step of a receiver. */
  lemma NextKeepsWaiter(env: Env, g: Gate, s: Sys, r: nat)
    requires NamesSound(s) && DirSound(s) && WaiterSound(s) && r in s.receivers
    ensures DirSound(Next(env, s, r)) && WaiterSound(Next(env, s, r))
  {
    hide Matches, Sizes, OnlyProofs, EmptyDir;
    if OnFiles(s.receivers[r]) {
      NextOnFilesWaits(env, s, r);
    } else {
      NextOnNamesWaits(env, s, r);
    }
  }

  lemma NextOnFilesWaits(env: Env, s: Sys, r: nat)
    requires NamesSound(s) && DirSound(s) && WaiterSound(s) && r in s.receivers && OnFiles(s.receivers[r])
    ensures DirSound(Next(env, s, r)) && WaiterSound(Next(env, s, r))
  {
    hide Matches, Sizes, OnlyProofs;
    var t := Next(env, s, r);
    assert t.dir == s.dir && t.waiter == s.waiter && t.marker == s.marker && s.dir;
    assert t.receivers == s.receivers[r := t.receivers[r]];
    assert !HoldsMarker(s.receivers[r].place);
  }

  lemma NextOnNamesWaits(env: Env, s: Sys, r: nat)
    requires NamesSound(s) && DirSound(s) && WaiterSound(s) && r in s.receivers && !OnFiles(s.receivers[r])
    ensures DirSound(Next(env, s, r)) && WaiterSound(Next(env, s, r))
  {
    hide EmptyDir;
    var t := Next(env, s, r);
    assert t.dir == s.dir && t.waiter == s.waiter && (s.marker.Some? ==> t.marker == s.marker);
    assert t.receivers == s.receivers[r := t.receivers[r]];
    assert Published(s.receivers[r].place) ==> Published(t.receivers[r].place);
  }

  lemma HaltKeepsNames(s: Sys, r: nat)
    requires NamesSound(s) && DirSound(s) && WaiterSound(s) && r in s.receivers
    ensures NamesSound(Halted(s, r)) && DirSound(Halted(s, r)) && WaiterSound(Halted(s, r))
  {
  }

  lemma HaltKeepsInv(env: Env, g: Gate, s: Sys, r: nat)
    requires Inv(env, g, s) && r in s.receivers
    ensures Inv(env, g, Halted(s, r))
  {
    hide Base, NamesSound, TextsSound, DirSound, WaiterSound, Halted;
    HaltKeeps(env, g, s, r);
    HaltTexts(s, r);
    HaltKeepsNames(s, r);
  }

  lemma ReceiverKeepsInv(env: Env, g: Gate, s: Sys, r: nat)
    requires Inv(env, g, s) && r in s.receivers
    ensures Inv(env, g, Next(env, s, r))
  {
    hide Base, NamesSound, TextsSound, DirSound, WaiterSound, Next;
    NextKeepsBase(env, g, s, r);
    NextKeepsMarker(env, g, s, r);
    NextKeepsWaiter(env, g, s, r);
  }

  lemma AppendKeepsNames(s: Sys, r: nat, chunk: Bytes)
    requires NamesSound(s) && DirSound(s) && WaiterSound(s) && r in s.receivers
    ensures var t := Appended(s, r, chunk); NamesSound(t) && DirSound(t) && WaiterSound(t)
  {
  }

  lemma AppendKeepsInv(env: Env, g: Gate, s: Sys, r: nat, chunk: Bytes)
    requires Inv(env, g, s) && r in s.receivers
    ensures Inv(env, g, Appended(s, r, chunk))
  {
    hide Base, NamesSound, TextsSound, DirSound, WaiterSound, Appended;
    AppendKeeps(env, g, s, r, chunk);
    AppendKeepsTexts(env, g, s, r, chunk);
    AppendKeepsNames(s, r, chunk);
  }

  function WithReceiver(s: Sys, r: nat, rows: seq<Row>): Sys {
    s.(receivers := s.receivers[r := Receiver(rows, Arrived, true, map[])])
  }

  lemma ArrivalKeepsBase(env: Env, g: Gate, s: Sys, r: nat, rows: seq<Row>)
    requires Base(env, g, s) && TextsSound(s) && r !in s.receivers && RowsApproved(g, rows)
    ensures Base(env, g, WithReceiver(s, r, rows)) && TextsSound(WithReceiver(s, r, rows))
  {
    var t := WithReceiver(s, r, rows);
    hide RowsApproved;
    forall q | q in t.receivers
      ensures OwnsAll(env, t, q) && TextSound(t, q)
    {
      if q != r {
        assert TextSound(s, q);
        forall i | 0 <= i < |t.receivers[q].rows| ensures Owned(env, t, q, i) { assert Owned(env, s, q, i); }
      }
    }
    hide TextSound, OwnsAll;
    forall n | n in t.files
      ensures Creates(t.receivers[t.files[n].owner], n)
    {
      assert Creates(s.receivers[s.files[n].owner], n);
    }
  }

  lemma ArrivalKeepsNames(s: Sys, r: nat, rows: seq<Row>)
    requires NamesSound(s) && DirSound(s) && WaiterSound(s) && r !in s.receivers
    ensures var t := WithReceiver(s, r, rows); NamesSound(t) && DirSound(t) && WaiterSound(t)
  {
  }

  lemma ArrivalKeepsInv(env: Env, g: Gate, s: Sys, r: nat, rows: seq<Row>)
    requires Inv(env, g, s) && r !in s.receivers && RowsApproved(g, rows)
    ensures Inv(env, g, WithReceiver(s, r, rows))
  {
    hide Base, NamesSound, TextsSound, DirSound, WaiterSound, WithReceiver, RowsApproved;
    ArrivalKeepsBase(env, g, s, r, rows);
    ArrivalKeepsNames(s, r, rows);
  }

  lemma WaiterKeepsNames(env: Env, g: Gate, s: Sys, op: Op)
    requires NamesSound(s) && DirSound(s) && WaiterSound(s) && (op.WaiterStep? || op.WaiterExpires?)
    requires s.waiter.Checking? ==> CheckPasses(env, g, s, s.waiter.k)
    ensures var t := Step(env, g, s, op); NamesSound(t) && DirSound(t) && WaiterSound(t)
    ensures var t := Step(env, g, s, op); t.files == s.files && t.receivers == s.receivers && t.texts == s.texts
  {
    hide CheckPasses;
  }

  lemma WaiterKeepsInv(env: Env, g: Gate, s: Sys, op: Op)
    requires Inv(env, g, s) && (op.WaiterStep? || op.WaiterExpires?)
    ensures Inv(env, g, Step(env, g, s, op))
  {
    assert WaiterSound(s);
    hide Base, NamesSound, TextsSound, DirSound, Step, CheckPasses;
    if s.waiter.Checking? { ChecksPass(env, g, s, s.waiter.k); }
    hide WaiterSound;
    WaiterKeepsNames(env, g, s, op);
    SameFilesSame(env, g, s, Step(env, g, s, op));
  }

  lemma SameFilesSame(env: Env, g: Gate, s: Sys, t: Sys)
    requires Base(env, g, s) && TextsSound(s)
    requires t.files == s.files && t.receivers == s.receivers && t.texts == s.texts
    ensures Base(env, g, t) && TextsSound(t)
  {
    forall q | q in t.receivers
      ensures OwnsAll(env, t, q) && TextSound(t, q)
    {
      assert TextSound(s, q);
      forall i | 0 <= i < |t.receivers[q].rows| ensures Owned(env, t, q, i) { assert Owned(env, s, q, i); }
    }
  }

  lemma StepKeeps(env: Env, g: Gate, s: Sys, op: Op)
    requires Inv(env, g, s)
    ensures Inv(env, g, Step(env, g, s, op))
  {
    hide Inv, Next, Appended, Halted, Waited, RowsApproved;
    match op
    case Arrive(r, rows) => if r !in s.receivers && RowsApproved(g, rows) { ArrivalKeepsInv(env, g, s, r, rows); }
    case Append(r, chunk) => if r in s.receivers { AppendKeepsInv(env, g, s, r, chunk); }
    case Advance(r) => if r in s.receivers { ReceiverKeepsInv(env, g, s, r); }
    case Stop(r) => if r in s.receivers { HaltKeepsInv(env, g, s, r); }
    case WaiterStep => WaiterKeepsInv(env, g, s, op);
    case WaiterExpires => WaiterKeepsInv(env, g, s, op);
  }

  lemma {:induction false} RunKeeps(env: Env, g: Gate, s: Sys, ops: seq<Op>)
    requires Inv(env, g, s)
    ensures Inv(env, g, Run(env, g, s, ops))
    decreases |ops|
  {
    if ops != [] {
      RunKeeps(env, g, s, ops[..|ops| - 1]);
      StepKeeps(env, g, Run(env, g, s, ops[..|ops| - 1]), ops[|ops| - 1]);
    }
  }

  // ---- Theorems ----

  lemma InitialHolds(env: Env, g: Gate)
    ensures Inv(env, g, Start())
  {
  }

  lemma {:induction false} RunSplits(env: Env, g: Gate, s: Sys, a: seq<Op>, b: seq<Op>)
    ensures Run(env, g, s, a + b) == Run(env, g, Run(env, g, s, a), b)
    decreases |b|
  {
    if b == [] {
      assert a + b == a;
    } else {
      assert (a + b)[..|a + b| - 1] == a + b[..|b| - 1];
      RunSplits(env, g, s, a, b[..|b| - 1]);
    }
  }

  lemma OneStepKeepsMarker(env: Env, g: Gate, s: Sys, op: Op)
    requires s.marker.Some?
    ensures Step(env, g, s, op).marker == s.marker
  {
    hide Matches, Sizes, OnlyProofs, EmptyDir, CheckPasses;
  }

  lemma {:induction false} MarkerStays(env: Env, g: Gate, s: Sys, ops: seq<Op>)
    requires s.marker.Some?
    ensures Run(env, g, s, ops).marker == s.marker
    decreases |ops|
  {
    hide Step;
    if ops != [] {
      MarkerStays(env, g, s, ops[..|ops| - 1]);
      OneStepKeepsMarker(env, g, Run(env, g, s, ops[..|ops| - 1]), ops[|ops| - 1]);
    }
  }

  /** Two receivers that get as far as linking the marker, at whatever moments of one run, are the same receiver. */
  lemma AtMostOnePublishes(env: Env, g: Gate, ops: seq<Op>, more: seq<Op>, a: nat, b: nat)
    requires var early := Run(env, g, Start(), ops); a in early.receivers && HoldsMarker(early.receivers[a].place)
    requires var late := Run(env, g, Start(), ops + more); b in late.receivers && HoldsMarker(late.receivers[b].place)
    ensures a == b
  {
    InitialHolds(env, g);
    RunKeeps(env, g, Start(), ops);
    RunKeeps(env, g, Start(), ops + more);
    RunSplits(env, g, Start(), ops, more);
    MarkerStays(env, g, Run(env, g, Start(), ops), more);
  }

  /** The waiter looks past the link count only at what one receiver has verified, synced, frozen and fully
      published. */
  lemma ConsumedIsPublished(env: Env, g: Gate, ops: seq<Op>, n: string)
    requires Run(env, g, Start(), ops).waiter.Checking? || Run(env, g, Start(), ops).waiter.Accepted?
    requires n in NAMES
    ensures var s := Run(env, g, Start(), ops);
            && s.marker.Some? && s.marker.value in s.receivers && Published(s.receivers[s.marker.value].place)
            && s.staged == {} && s.files.Keys == AllNames()
            && s.files[n].owner == s.marker.value && s.files[n].synced && s.files[n].frozen
            && n in g.hashes && env.sha(s.files[n].content) == g.hashes[n] && 0 < |s.files[n].content| <= Limit(n)
  {
    var s := Run(env, g, Start(), ops);
    InitialHolds(env, g);
    RunKeeps(env, g, Start(), ops);
    hide Run, ReceiversSound, FilesSound;
    ChecksPass(env, g, s, 0);
    PublishedFile(env, g, s, s.marker.value, n);
  }

  /** No interleaving makes the waiter refuse: once it looks, every listing and every file is right. */
  lemma WaiterNeverRefuses(env: Env, g: Gate, ops: seq<Op>)
    ensures !Run(env, g, Start(), ops).waiter.Refused?
  {
    InitialHolds(env, g);
    RunKeeps(env, g, Start(), ops);
  }

  lemma OtherHasNothing(env: Env, g: Gate, s: Sys, r: nat)
    requires Inv(env, g, s) && s.marker.Some? && r in s.receivers
    ensures var p := s.receivers[r];
            HoldsMarker(p.place) || (Created(p.place) == 0 && |p.rows| == 3 && p.rows[0].name in s.files)
  {
    SoleOwner(env, g, s, s.marker.value);
    GoodAt(env, g, s, r);
    assert RowApproved(g, s.receivers[r].rows[0]);
  }

  lemma StepKeepsFiles(env: Env, g: Gate, s: Sys, op: Op)
    requires Inv(env, g, s) && s.marker.Some?
    ensures Step(env, g, s, op).files == s.files
  {
    hide Inv, Next, Appended, CheckPasses, RowsApproved;
    if (op.Append? || op.Advance?) && op.r in s.receivers {
      OtherHasNothing(env, g, s, op.r);
      FirstFileTaken(env, s, op);
    }
  }

  lemma FirstFileTaken(env: Env, s: Sys, op: Op)
    requires (op.Append? || op.Advance?) && op.r in s.receivers
    requires var p := s.receivers[op.r];
             HoldsMarker(p.place) || (Created(p.place) == 0 && |p.rows| == 3 && p.rows[0].name in s.files)
    ensures op.Append? ==> Appended(s, op.r, op.chunk).files == s.files
    ensures op.Advance? ==> Next(env, s, op.r).files == s.files
  {
  }

  /** From the link on, nothing changes the three files in any continuation: what was verified is what is read. */
  lemma {:induction false} PublishedFilesStay(env: Env, g: Gate, ops: seq<Op>, more: seq<Op>)
    requires Run(env, g, Start(), ops).marker.Some?
    ensures Run(env, g, Start(), ops + more).files == Run(env, g, Start(), ops).files
    decreases |more|
  {
    if more == [] {
      assert ops + more == ops;
    } else {
      var less := more[..|more| - 1];
      assert (ops + more)[..|ops + more| - 1] == ops + less;
      PublishedFilesStay(env, g, ops, less);
      InitialHolds(env, g);
      RunKeeps(env, g, Start(), ops + less);
      RunSplits(env, g, Start(), ops, less);
      MarkerStays(env, g, Run(env, g, Start(), ops), less);
      hide Step;
      StepKeepsFiles(env, g, Run(env, g, Start(), ops + less), more[|more| - 1]);
    }
  }

  lemma StoppedStays(env: Env, g: Gate, s: Sys, op: Op, r: nat)
    requires r in s.receivers && !s.receivers[r].alive
    ensures r in Step(env, g, s, op).receivers && Step(env, g, s, op).receivers[r] == s.receivers[r]
  {
    hide Matches, Sizes, OnlyProofs, EmptyDir, CheckPasses;
    if op.Advance? && op.r != r && op.r in s.receivers { OnlyItself(env, s, op.r, r); }
  }

  lemma OnlyItself(env: Env, s: Sys, q: nat, r: nat)
    requires q in s.receivers && r in s.receivers && q != r
    ensures r in Next(env, s, q).receivers && Next(env, s, q).receivers[r] == s.receivers[r]
  {
    hide Matches, Sizes, OnlyProofs, EmptyDir;
    if OnFiles(s.receivers[q]) { OnlyItselfOnFiles(env, s, q, r); }
  }

  lemma OnlyItselfOnFiles(env: Env, s: Sys, q: nat, r: nat)
    requires q in s.receivers && r in s.receivers && q != r && OnFiles(s.receivers[q])
    ensures r in Next(env, s, q).receivers && Next(env, s, q).receivers[r] == s.receivers[r]
  {
    hide Matches, Sizes, OnlyProofs;
  }

  lemma LinkedIsHeld(env: Env, g: Gate, s: Sys, r: nat)
    requires Inv(env, g, s) && r in s.receivers && s.receivers[r].place.Linked?
    ensures s.marker == Some(r) && MarkerLinks(s) == 2 && !s.waiter.Checking? && !s.waiter.Accepted?
  {
    hide Base, TextsSound, DirSound;
  }

  /** A receiver stopped between its link and its unlink leaves two links for ever: the waiter never looks. */
  lemma {:induction false} HalfPublishedIsNeverConsumed(env: Env, g: Gate, ops: seq<Op>, more: seq<Op>, r: nat)
    requires var s := Run(env, g, Start(), ops);
             r in s.receivers && s.receivers[r].place.Linked? && !s.receivers[r].alive
    ensures var t := Run(env, g, Start(), ops + more);
            && r in t.receivers && t.receivers[r] == Run(env, g, Start(), ops).receivers[r]
            && t.marker == Some(r) && MarkerLinks(t) == 2 && !t.waiter.Checking? && !t.waiter.Accepted?
    decreases |more|
  {
    if more == [] {
      assert ops + more == ops;
    } else {
      var less := more[..|more| - 1];
      assert (ops + more)[..|ops + more| - 1] == ops + less;
      HalfPublishedIsNeverConsumed(env, g, ops, less, r);
      hide Step;
      StoppedStays(env, g, Run(env, g, Start(), ops + less), more[|more| - 1], r);
    }
    InitialHolds(env, g);
    RunKeeps(env, g, Start(), ops + more);
    hide Inv;
    LinkedIsHeld(env, g, Run(env, g, Start(), ops + more), r);
  }

  lemma KnowsPublished(env: Env, g: Gate, s: Sys, k: nat)
    requires Inv(env, g, s) && k <= 5 && s.marker.Some? && Published(s.receivers[s.marker.value].place)
    ensures CheckPasses(env, g, s, k)
  {
    hide Base, NamesSound, TextsSound, DirSound, WaiterSound, CheckPasses;
    ChecksPass(env, g, s, k);
  }

  lemma CheckMoves(env: Env, g: Gate, s: Sys, k: nat)
    requires s.waiter == Checking(k) && CheckPasses(env, g, s, k)
    ensures Waited(env, g, s) == s.(waiter := if k == 5 then Accepted else Checking(k + 1))
  {
    hide CheckPasses;
  }

  ghost predicate OnceUp(s: Sys) {
    s.marker.Some? && s.marker.value in s.receivers && Published(s.receivers[s.marker.value].place)
  }

  lemma WaitedKeeps(env: Env, g: Gate, s: Sys)
    requires Inv(env, g, s)
    ensures Inv(env, g, Waited(env, g, s))
  {
    hide Inv, Waited;
    StepKeeps(env, g, s, WaiterStep);
  }

  lemma OneCheck(env: Env, g: Gate, s: Sys, k: nat)
    requires Inv(env, g, s) && s.waiter == Checking(k) && k <= 5 && OnceUp(s)
    ensures Waited(env, g, s) == s.(waiter := if k == 5 then Accepted else Checking(k + 1))
    ensures Inv(env, g, Waited(env, g, s)) && OnceUp(Waited(env, g, s))
  {
    hide Inv, CheckPasses, Waited, OnceUp;
    PublishedKnown(env, g, s, k);
    CheckMoves(env, g, s, k);
    WaitedKeeps(env, g, s);
    SameMarkerUp(s, Waited(env, g, s));
  }

  lemma PublishedKnown(env: Env, g: Gate, s: Sys, k: nat)
    requires Inv(env, g, s) && k <= 5 && OnceUp(s)
    ensures CheckPasses(env, g, s, k)
  {
    hide Inv, CheckPasses;
    KnowsPublished(env, g, s, k);
  }

  lemma SameMarkerUp(s: Sys, t: Sys)
    requires OnceUp(s) && t.marker == s.marker && t.receivers == s.receivers
    ensures OnceUp(t)
  {
  }

  function Waits(env: Env, g: Gate, s: Sys, n: nat): Sys {
    if n == 0 then s else Waited(env, g, Waits(env, g, s, n - 1))
  }

  /** And from the moment the staging name is gone, the waiter left to itself accepts. */
  lemma WaiterAccepts(env: Env, g: Gate, s: Sys)
    requires Inv(env, g, s) && s.waiter.Polling? && s.marker.Some? && MarkerLinks(s) == 1
    ensures Waits(env, g, s, 7).waiter == Accepted
  {
    FirstLook(env, g, s);
    hide Inv, Waited, OnceUp, MarkerLinks;
    var t := Waits(env, g, s, 1);
    assert t == Waited(env, g, Waits(env, g, s, 0));
    OneCheck(env, g, t, 0);
    t := Waits(env, g, s, 2);
    OneCheck(env, g, t, 1);
    t := Waits(env, g, s, 3);
    OneCheck(env, g, t, 2);
    t := Waits(env, g, s, 4);
    OneCheck(env, g, t, 3);
    t := Waits(env, g, s, 5);
    OneCheck(env, g, t, 4);
    t := Waits(env, g, s, 6);
    OneCheck(env, g, t, 5);
  }

  lemma OneNameIsUp(s: Sys)
    requires NamesSound(s) && s.marker.Some? && MarkerLinks(s) == 1
    ensures OnceUp(s)
  {
  }

  lemma FirstLook(env: Env, g: Gate, s: Sys)
    requires Inv(env, g, s) && s.waiter.Polling? && s.marker.Some? && MarkerLinks(s) == 1
    ensures Waited(env, g, s) == s.(waiter := Checking(0)) && Inv(env, g, Waited(env, g, s))
            && OnceUp(Waited(env, g, s))
  {
    hide Base, NamesSound, TextsSound, DirSound, WaiterSound, OnceUp;
    OneNameIsUp(s);
    StepKeeps(env, g, s, WaiterStep);
    OneNameIsUp(Waited(env, g, s));
  }
}
