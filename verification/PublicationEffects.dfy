/** Each step of the publication once more, in terms of the directory and the processes alone, and that a receiver left
    to itself publishes its bundle and the waiter takes it. */
module PublicationEffects {
  import opened Common
  import opened ProofFrame
  import opened Publication
  import opened PublicationTheorems

  // ---- One step of a receiver ----

  function Following(p: Place): Place {
    match p
    case Arrived => Making(0)
    case Making(i) => if i < 3 then Writing(i) else Sealing(0)
    case Writing(i) => Making(i + 1)
    case Sealing(j) => if j < 3 then Sealing(j + 1) else Staged
    case Staged => Filled
    case Filled => Linked
    case Linked => Unlinked
    case Unlinked => Done
    case Done => Done
  }

  /** What stops a receiver: a directory that is missing or not new, a file that is there already, a file that is not
      the one declared, other names beside the three files, a marker that is there already. */
  predicate Barred(env: Env, s: Sys, r: nat)
    requires r in s.receivers && |s.receivers[r].rows| == 3
  {
    var p := s.receivers[r];
    match p.place
    case Arrived => !s.dir || s.files != map[] || s.staged != {} || s.marker.Some?
    case Making(i) =>
      if i < 3 then p.rows[i].name in s.files
      else s.files.Keys != {NAMES[0], NAMES[1], NAMES[2]} || s.staged != {} || s.marker.Some?
    case Writing(i) =>
      i < 3 && (p.rows[i].name !in s.files || |s.files[p.rows[i].name].content| != p.rows[i].bytes
                || env.sha(s.files[p.rows[i].name].content) != p.rows[i].sha)
    case Sealing(j) => j < 3 && p.rows[j].name !in s.files
    case Filled => s.marker.Some?
    case _ => false
  }

  /** The files after the step. */
  function FilesAfter(s: Sys, r: nat): map<string, Proof>
    requires r in s.receivers && |s.receivers[r].rows| == 3
  {
    var p := s.receivers[r];
    match p.place
    case Making(i) => if i < 3 then s.files[p.rows[i].name := Proof(r, [], false, false)] else s.files
    case Writing(i) =>
      if i < 3 && p.rows[i].name in s.files then
        var f := s.files[p.rows[i].name];
        s.files[p.rows[i].name := Proof(f.owner, f.content, true, f.frozen)]
      else s.files
    case Sealing(j) =>
      if j < 3 && p.rows[j].name in s.files then
        var f := s.files[p.rows[j].name];
        s.files[p.rows[j].name := Proof(f.owner, f.content, true, true)]
      else s.files
    case _ => s.files
  }

  /** The one next step of a receiver that is not barred. */
  ghost predicate Moves(s: Sys, r: nat, t: Sys)
    requires r in s.receivers && |s.receivers[r].rows| == 3
  {
    var p := s.receivers[r];
    && t.files == FilesAfter(s, r) && t.dir == s.dir && t.waiter == s.waiter
    && t.staged == (if p.place.Sealing? && p.place.j >= 3 then s.staged + {r}
                    else if p.place == Linked then s.staged - {r} else s.staged)
    && t.marker == (if p.place == Filled then Some(r) else s.marker)
    && t.texts == (if p.place.Sealing? && p.place.j >= 3 then s.texts[r := map[]]
                   else if p.place == Staged then s.texts[r := p.sizes] else s.texts)
    && t.receivers == s.receivers[r := p.(place := Following(p.place),
                                          sizes := if p.place.Making? && p.place.i >= 3 then Sizes(s) else p.sizes)]
  }

  /** A living receiver either stops where it is, exactly when it is barred, or takes its one next step. */
  lemma AdvanceExactly(env: Env, g: Gate, s: Sys, r: nat)
    requires r in s.receivers && s.receivers[r].alive && |s.receivers[r].rows| == 3
    requires s.receivers[r].place.Writing? ==> s.receivers[r].place.i < 3
    ensures var t := Step(env, g, s, Advance(r));
            && (Barred(env, s, r) ==> t == s.(receivers := s.receivers[r := s.receivers[r].(alive := false)]))
            && (!Barred(env, s, r) ==> Moves(s, r, t))
  {
    assert Step(env, g, s, Advance(r)) == Next(env, s, r);
    hide Step, Moves, Barred;
    var place := s.receivers[r].place;
    if place.Making? || place.Writing? { NextWrites(env, s, r); }
    else if place.Arrived? || place.Sealing? { NextSeals(env, s, r); }
    else { NextNames(env, s, r); }
    hide Next;
  }

  lemma NextWrites(env: Env, s: Sys, r: nat)
    requires r in s.receivers && s.receivers[r].alive && |s.receivers[r].rows| == 3
    requires s.receivers[r].place.Making? || (s.receivers[r].place.Writing? && s.receivers[r].place.i < 3)
    ensures Barred(env, s, r) ==> Next(env, s, r) == Halted(s, r)
    ensures !Barred(env, s, r) ==> Moves(s, r, Next(env, s, r))
  {
    hide Sizes;
  }

  lemma NextSeals(env: Env, s: Sys, r: nat)
    requires r in s.receivers && s.receivers[r].alive && |s.receivers[r].rows| == 3
    requires s.receivers[r].place.Arrived? || s.receivers[r].place.Sealing?
    ensures Barred(env, s, r) ==> Next(env, s, r) == Halted(s, r)
    ensures !Barred(env, s, r) ==> Moves(s, r, Next(env, s, r))
  {
    assert s.files.Keys == {} <==> s.files == map[];
    hide Sizes;
  }

  lemma NextNames(env: Env, s: Sys, r: nat)
    requires r in s.receivers && s.receivers[r].alive && |s.receivers[r].rows| == 3
    requires !s.receivers[r].place.Arrived? && !s.receivers[r].place.Sealing? && !s.receivers[r].place.Making?
    requires !s.receivers[r].place.Writing?
    ensures Barred(env, s, r) ==> Next(env, s, r) == Halted(s, r)
    ensures !Barred(env, s, r) ==> Moves(s, r, Next(env, s, r))
  {
    if s.receivers[r].place == Done { assert s.receivers == s.receivers[r := s.receivers[r]]; }
    hide Sizes;
  }

  /** Bytes of the stream go to the file in hand, and never past the length declared for it. */
  lemma AppendExactly(env: Env, g: Gate, s: Sys, r: nat, chunk: Bytes, i: nat)
    requires r in s.receivers && s.receivers[r].alive && s.receivers[r].place == Writing(i) && i < |s.receivers[r].rows|
    requires s.receivers[r].rows[i].name in s.files
    ensures var row, t := s.receivers[r].rows[i], Step(env, g, s, Append(r, chunk));
            var f := s.files[row.name];
            t == if |f.content| + |chunk| <= row.bytes
                 then s.(files := s.files[row.name := Proof(f.owner, f.content + chunk, false, f.frozen)])
                 else s
  {
  }

  /** A receiver gets in once, and only with the three approved rows. */
  lemma ArriveExactly(env: Env, g: Gate, s: Sys, r: nat, rows: seq<Row>)
    ensures Step(env, g, s, Arrive(r, rows))
            == if r !in s.receivers && |rows| == 3
                  && rows[0].name != rows[1].name && rows[0].name != rows[2].name && rows[1].name != rows[2].name
                  && (forall i | 0 <= i < 3 ::
                        && rows[i].name in NAMES && 0 < rows[i].bytes <= Limit(rows[i].name)
                        && rows[i].name in g.hashes && rows[i].sha == g.hashes[rows[i].name])
               then s.(receivers := s.receivers[r := Receiver(rows, Arrived, true, map[])])
               else s
  {
    hide Limit;
  }

  /** A stopped receiver stays where it is for good, and a waiter that is looking may run out of time. */
  lemma StopsExactly(env: Env, g: Gate, s: Sys, r: nat, op: Op)
    ensures r in s.receivers ==>
              Step(env, g, s, Op.Stop(r)) == s.(receivers := s.receivers[r := s.receivers[r].(alive := false)])
    ensures r in s.receivers && !s.receivers[r].alive ==>
              Step(env, g, s, Advance(r)) == s && forall chunk :: Step(env, g, s, Append(r, chunk)) == s
    ensures Step(env, g, s, WaiterExpires)
            == if s.waiter.Polling? || s.waiter.Checking? then s.(waiter := Expired) else s
  {
  }

  // ---- One step of the waiter ----

  /** The marker says these lengths under its one name. */
  predicate MarkerSays(s: Sys, lengths: map<string, nat>) {
    && s.marker.Some? && s.marker.value !in s.staged && s.marker.value in s.texts
    && s.texts[s.marker.value] == lengths
  }

  predicate ListsFour(s: Sys) {
    s.files.Keys == {"snapshot.json", "selection.json", "app-capture.json"} && s.staged == {} && s.marker.Some?
  }

  predicate BoundedLengths(lengths: map<string, nat>) {
    && lengths.Keys == {"snapshot.json", "selection.json", "app-capture.json"}
    && 0 < lengths["snapshot.json"] <= 16777216 && 0 < lengths["selection.json"] <= 1048576
    && 0 < lengths["app-capture.json"] <= 33554432
  }

  /** The file is read-only, as long as the marker says and has the approved hash. */
  predicate ApprovedFile(env: Env, g: Gate, s: Sys, n: string, lengths: map<string, nat>) {
    && n in s.files && s.files[n].frozen && n in lengths && |s.files[n].content| == lengths[n]
    && n in g.hashes && env.sha(s.files[n].content) == g.hashes[n]
  }

  /** The waiter waits for a marker with one name, and then accepts only after six checks in a row: the listing, the
      marker, each file, the listing again. */
  lemma WaiterExactly(env: Env, g: Gate, s: Sys, lengths: map<string, nat>)
    requires s.waiter.Checking? ==> s.waiter.k <= 5
    requires s.waiter.Checking? && s.waiter.k in {2, 3, 4} ==> MarkerSays(s, lengths)
    ensures var t := Step(env, g, s, WaiterStep);
            && (s.waiter == Absent ==> t == if s.dir then s.(waiter := Refused) else s.(dir := true, waiter := Polling))
            && (s.waiter == Polling ==>
                  t == if s.marker.Some? && s.marker.value !in s.staged then s.(waiter := Checking(0)) else s)
            && (s.waiter == Checking(0) ==> t == s.(waiter := if ListsFour(s) then Checking(1) else Refused))
            && (s.waiter == Checking(2) ==>
                  t == s.(waiter := if ApprovedFile(env, g, s, "snapshot.json", lengths) then Checking(3) else Refused))
            && (s.waiter == Checking(3) ==>
                  t == s.(waiter := if ApprovedFile(env, g, s, "selection.json", lengths) then Checking(4)
                                    else Refused))
            && (s.waiter == Checking(4) ==>
                  t == s.(waiter := if ApprovedFile(env, g, s, "app-capture.json", lengths) then Checking(5)
                                    else Refused))
            && (s.waiter == Checking(5) ==> t == s.(waiter := if ListsFour(s) then Accepted else Refused))
            && (s.waiter in {Accepted, Refused, Expired} ==> t == s)
  {
    hide MarkerReads, Sizes;
  }

  lemma MarkerCheck(env: Env, g: Gate, s: Sys)
    requires s.waiter == Checking(1)
    ensures Step(env, g, s, WaiterStep) == s.(waiter := Checking(2)) <==>
              s.marker.Some? && s.marker.value in s.texts && MarkerSays(s, s.texts[s.marker.value])
              && BoundedLengths(s.texts[s.marker.value])
    ensures Step(env, g, s, WaiterStep) in {s.(waiter := Checking(2)), s.(waiter := Refused)}
  {
    if s.marker.Some? && s.marker.value in s.texts { LengthsExactly(s.texts[s.marker.value]); }
    hide Limit, AllNames, BoundedLengths;
  }

  lemma LengthsExactly(lengths: map<string, nat>)
    ensures BoundedLengths(lengths) <==>
              lengths.Keys == AllNames() && forall n | n in lengths :: 0 < lengths[n] <= Limit(n)
  {
    assert AllNames() == {"snapshot.json", "selection.json", "app-capture.json"};
  }

  // ---- A receiver left to itself ----

  function Appends(r: nat, chunks: seq<Bytes>): seq<Op> {
    seq(|chunks|, i requires 0 <= i < |chunks| => Append(r, chunks[i]))
  }

  function FileOps(r: nat, chunks: seq<Bytes>): seq<Op> { [Advance(r)] + Appends(r, chunks) + [Advance(r)] }

  function Advances(r: nat, n: nat): seq<Op> { seq(n, i => Advance(r)) }

  /** Everything a receiver does between two steps of anybody else: it looks at the directory, writes its three files in
      any chunks, lists, seals, stages, fills, links and unlinks. */
  function Delivery(r: nat, rows: seq<Row>, chunks: seq<seq<Bytes>>): seq<Op>
    requires |chunks| == 3
  {
    [Arrive(r, rows), Advance(r)] + FileOps(r, chunks[0]) + FileOps(r, chunks[1]) + FileOps(r, chunks[2])
        + Advances(r, 9)
  }

  /** The chunks of each file are the declared bytes. */
  ghost predicate Carries(env: Env, rows: seq<Row>, chunks: seq<seq<Bytes>>) {
    && |rows| == 3 && |chunks| == 3
    && forall i | 0 <= i < 3 :: |Joined(chunks[i])| == rows[i].bytes && env.sha(Joined(chunks[i])) == rows[i].sha
  }

  function Held(s: Sys, r: nat, rows: seq<Row>, files: map<string, Proof>, place: Place, sizes: map<string, nat>): Sys {
    s.(files := files, receivers := s.receivers[r := Receiver(rows, place, true, sizes)])
  }

  lemma {:induction false} RunOne(env: Env, g: Gate, s: Sys, op: Op)
    ensures Run(env, g, s, [op]) == Step(env, g, s, op)
  {
    assert [op][..0] == [];
  }

  lemma {:induction false} RunNext(env: Env, g: Gate, s: Sys, ops: seq<Op>, op: Op)
    ensures Run(env, g, s, ops + [op]) == Step(env, g, Run(env, g, s, ops), op)
  {
    assert (ops + [op])[..|ops|] == ops;
  }

  lemma {:induction false} JoinedGrows(blocks: seq<Bytes>, i: nat)
    requires i <= |blocks|
    ensures |Joined(blocks[..i])| <= |Joined(blocks)|
    decreases |blocks|
  {
    if i == |blocks| {
      assert blocks[..i] == blocks;
    } else {
      assert blocks[..|blocks| - 1][..i] == blocks[..i];
      JoinedGrows(blocks[..|blocks| - 1], i);
    }
  }

  /** The state while a file is being filled. */
  function Filling(s: Sys, r: nat, rows: seq<Row>, files: map<string, Proof>, i: nat, content: Bytes): Sys
    requires i < |rows|
  {
    Held(s, r, rows, files[rows[i].name := Proof(r, content, false, false)], Writing(i), map[])
  }

  lemma FillsOnce(env: Env, g: Gate, s: Sys, r: nat, rows: seq<Row>, files: map<string, Proof>, i: nat, content: Bytes,
      chunk: Bytes)
    requires i < |rows| && |content| + |chunk| <= rows[i].bytes
    ensures Step(env, g, Filling(s, r, rows, files, i, content), Append(r, chunk))
            == Filling(s, r, rows, files, i, content + chunk)
  {
    var t := Filling(s, r, rows, files, i, content);
    AppendExactly(env, g, t, r, chunk, i);
    hide Step;
    assert t.files[rows[i].name := Proof(r, content + chunk, false, false)]
        == files[rows[i].name := Proof(r, content + chunk, false, false)];
  }

  /** Chunk by chunk the file grows to the whole of its chunks. */
  lemma {:induction false} Fills(env: Env, g: Gate, s: Sys, r: nat, rows: seq<Row>, files: map<string, Proof>, i: nat,
      chunks: seq<Bytes>, k: nat)
    requires i < |rows| && k <= |chunks| && |Joined(chunks)| == rows[i].bytes
    ensures Run(env, g, Filling(s, r, rows, files, i, []), Appends(r, chunks[..k]))
            == Filling(s, r, rows, files, i, Joined(chunks[..k]))
    decreases k
  {
    hide Step, Filling;
    var start := Filling(s, r, rows, files, i, []);
    if k > 0 {
      hide Run, Joined;
      Fills(env, g, s, r, rows, files, i, chunks, k - 1);
      assert Appends(r, chunks[..k]) == Appends(r, chunks[..k - 1]) + [Append(r, chunks[k - 1])];
      RunNext(env, g, start, Appends(r, chunks[..k - 1]), Append(r, chunks[k - 1]));
      JoinedNext(chunks, k - 1);
      JoinedGrows(chunks, k);
      FillsOnce(env, g, s, r, rows, files, i, Joined(chunks[..k - 1]), chunks[k - 1]);
    } else {
      assert chunks[..0] == [] && Appends(r, []) == [];
    }
  }

  /** One file: created, filled, compared and flushed. */
  lemma {:induction false} MakesFile(env: Env, g: Gate, s: Sys, r: nat, rows: seq<Row>, files: map<string, Proof>,
      i: nat, chunks: seq<Bytes>)
    requires i < 3 == |rows| && |Joined(chunks)| == rows[i].bytes && env.sha(Joined(chunks)) == rows[i].sha
    requires rows[i].name !in files
    ensures Run(env, g, Held(s, r, rows, files, Making(i), map[]), FileOps(r, chunks))
            == Held(s, r, rows, files[rows[i].name := Proof(r, Joined(chunks), true, false)], Making(i + 1), map[])
  {
    hide Joined, Run, Step;
    var name := rows[i].name;
    var s0 := Held(s, r, rows, files, Making(i), map[]);
    var s1 := Held(s, r, rows, files[name := Proof(r, [], false, false)], Writing(i), map[]);
    var s2 := Held(s, r, rows, files[name := Proof(r, Joined(chunks), false, false)], Writing(i), map[]);
    var s3 := Held(s, r, rows, files[name := Proof(r, Joined(chunks), true, false)], Making(i + 1), map[]);
    AdvanceExactly(env, g, s0, r);
    assert Step(env, g, s0, Advance(r)) == s1;
    RunOne(env, g, s0, Advance(r));
    RunSplits(env, g, s0, [Advance(r)], Appends(r, chunks));
    assert chunks[..|chunks|] == chunks;
    Fills(env, g, s, r, rows, files, i, chunks, |chunks|);
    AdvanceExactly(env, g, s2, r);
    assert s2.files[name := Proof(r, Joined(chunks), true, false)] == s3.files;
    assert Step(env, g, s2, Advance(r)) == s3;
    RunNext(env, g, s0, [Advance(r)] + Appends(r, chunks), Advance(r));
  }

  function ThreeFiles(r: nat, rows: seq<Row>, chunks: seq<seq<Bytes>>, frozen: bool): map<string, Proof>
    requires |rows| == 3 && |chunks| == 3
  {
    map[rows[0].name := Proof(r, Joined(chunks[0]), true, frozen),
        rows[1].name := Proof(r, Joined(chunks[1]), true, frozen),
        rows[2].name := Proof(r, Joined(chunks[2]), true, frozen)]
  }

  lemma {:induction false} MakesThree(env: Env, g: Gate, s: Sys, r: nat, rows: seq<Row>, chunks: seq<seq<Bytes>>)
    requires Carries(env, rows, chunks) && DistinctNames(rows)
    ensures Run(env, g, Held(s, r, rows, map[], Making(0), map[]),
                FileOps(r, chunks[0]) + FileOps(r, chunks[1]) + FileOps(r, chunks[2]))
            == Held(s, r, rows, ThreeFiles(r, rows, chunks, false), Making(3), map[])
  {
    hide Joined, Run, Step, FileOps;
    var s0 := Held(s, r, rows, map[], Making(0), map[]);
    var one := map[rows[0].name := Proof(r, Joined(chunks[0]), true, false)];
    var two := one[rows[1].name := Proof(r, Joined(chunks[1]), true, false)];
    MakesFile(env, g, s, r, rows, map[], 0, chunks[0]);
    assert map[][rows[0].name := Proof(r, Joined(chunks[0]), true, false)] == one;
    MakesFile(env, g, s, r, rows, one, 1, chunks[1]);
    MakesFile(env, g, s, r, rows, two, 2, chunks[2]);
    assert two[rows[2].name := Proof(r, Joined(chunks[2]), true, false)] == ThreeFiles(r, rows, chunks, false);
    RunSplits(env, g, s0, FileOps(r, chunks[0]), FileOps(r, chunks[1]));
    RunSplits(env, g, s0, FileOps(r, chunks[0]) + FileOps(r, chunks[1]), FileOps(r, chunks[2]));
  }

  lemma {:induction false} ThreeNamed(r: nat, rows: seq<Row>, chunks: seq<seq<Bytes>>, frozen: bool)
    requires |rows| == 3 && |chunks| == 3 && DistinctNames(rows) && forall i | 0 <= i < 3 :: rows[i].name in NAMES
    ensures ThreeFiles(r, rows, chunks, frozen).Keys == {NAMES[0], NAMES[1], NAMES[2]}
  {
    EveryNameOnce(rows);
    hide Joined;
    var keys := ThreeFiles(r, rows, chunks, frozen).Keys;
    forall n | n in {NAMES[0], NAMES[1], NAMES[2]} ensures n in keys {
      assert n in NAMES;
      var i :| 0 <= i < 3 && rows[i].name == n;
    }
  }

  /** Once all three files are written, the listing is right and each is made read-only. */
  lemma {:induction false} SealsFile(env: Env, g: Gate, s: Sys, r: nat, rows: seq<Row>, files: map<string, Proof>,
      j: nat, content: Bytes, sizes: map<string, nat>)
    requires j < 3 == |rows| && rows[j].name in files && files[rows[j].name] == Proof(r, content, true, false)
    ensures Step(env, g, Held(s, r, rows, files, Sealing(j), sizes), Advance(r))
            == Held(s, r, rows, files[rows[j].name := Proof(r, content, true, true)], Sealing(j + 1), sizes)
  {
    AdvanceExactly(env, g, Held(s, r, rows, files, Sealing(j), sizes), r);
    hide Step;
  }

  lemma {:induction false} ListsFiles(env: Env, g: Gate, s: Sys, r: nat, rows: seq<Row>, files: map<string, Proof>)
    requires |rows| == 3 && s.staged == {} && s.marker.None? && files.Keys == {NAMES[0], NAMES[1], NAMES[2]}
    ensures var written := Held(s, r, rows, files, Making(3), map[]);
            Step(env, g, written, Advance(r)) == Held(s, r, rows, files, Sealing(0), Sizes(written))
  {
    AdvanceExactly(env, g, Held(s, r, rows, files, Making(3), map[]), r);
    hide Step, Sizes;
  }

  lemma {:induction false} FrozenThree(r: nat, rows: seq<Row>, chunks: seq<seq<Bytes>>)
    requires |rows| == 3 && |chunks| == 3 && DistinctNames(rows)
    ensures var f0 := ThreeFiles(r, rows, chunks, false);
            var f1 := f0[rows[0].name := Proof(r, Joined(chunks[0]), true, true)];
            var f2 := f1[rows[1].name := Proof(r, Joined(chunks[1]), true, true)];
            && rows[0].name in f0 && f0[rows[0].name] == Proof(r, Joined(chunks[0]), true, false)
            && rows[1].name in f1 && f1[rows[1].name] == Proof(r, Joined(chunks[1]), true, false)
            && rows[2].name in f2 && f2[rows[2].name] == Proof(r, Joined(chunks[2]), true, false)
            && f2[rows[2].name := Proof(r, Joined(chunks[2]), true, true)] == ThreeFiles(r, rows, chunks, true)
  {
    hide Joined;
  }

  lemma {:induction false} SealsThree(env: Env, g: Gate, s: Sys, r: nat, rows: seq<Row>, chunks: seq<seq<Bytes>>)
    requires |rows| == 3 && |chunks| == 3 && DistinctNames(rows) && forall i | 0 <= i < 3 :: rows[i].name in NAMES
    requires s.staged == {} && s.marker.None?
    ensures var written := Held(s, r, rows, ThreeFiles(r, rows, chunks, false), Making(3), map[]);
            Run(env, g, written, Advances(r, 4))
            == Held(s, r, rows, ThreeFiles(r, rows, chunks, true), Sealing(3), Sizes(written))
  {
    ThreeNamed(r, rows, chunks, false);
    FrozenThree(r, rows, chunks);
    hide *;
    var f0 := ThreeFiles(r, rows, chunks, false);
    var t0 := Held(s, r, rows, f0, Making(3), map[]);
    ListsFiles(env, g, s, r, rows, f0);
    SealSteps(env, g, s, r, rows, f0, Joined(chunks[0]), Joined(chunks[1]), Joined(chunks[2]), Sizes(t0));
    FourAdvances(env, g, t0, r);
  }

  lemma {:induction false} SealSteps(env: Env, g: Gate, s: Sys, r: nat, rows: seq<Row>, f0: map<string, Proof>,
      x: Bytes, y: Bytes, z: Bytes, sizes: map<string, nat>)
    requires |rows| == 3 && rows[0].name in f0 && f0[rows[0].name] == Proof(r, x, true, false)
    requires var f1 := f0[rows[0].name := Proof(r, x, true, true)];
             && rows[1].name in f1 && f1[rows[1].name] == Proof(r, y, true, false)
             && var f2 := f1[rows[1].name := Proof(r, y, true, true)];
             rows[2].name in f2 && f2[rows[2].name] == Proof(r, z, true, false)
    ensures var f3 := f0[rows[0].name := Proof(r, x, true, true)][rows[1].name := Proof(r, y, true, true)]
                        [rows[2].name := Proof(r, z, true, true)];
            var t1 := Step(env, g, Held(s, r, rows, f0, Sealing(0), sizes), Advance(r));
            Step(env, g, Step(env, g, t1, Advance(r)), Advance(r)) == Held(s, r, rows, f3, Sealing(3), sizes)
  {
    hide *;
    var f1 := f0[rows[0].name := Proof(r, x, true, true)];
    var f2 := f1[rows[1].name := Proof(r, y, true, true)];
    SealsFile(env, g, s, r, rows, f0, 0, x, sizes);
    SealsFile(env, g, s, r, rows, f1, 1, y, sizes);
    SealsFile(env, g, s, r, rows, f2, 2, z, sizes);
  }

  lemma {:induction false} FourAdvances(env: Env, g: Gate, s: Sys, r: nat)
    ensures var s1 := Step(env, g, s, Advance(r));
            var s2 := Step(env, g, s1, Advance(r));
            var s3 := Step(env, g, s2, Advance(r));
            Run(env, g, s, Advances(r, 4)) == Step(env, g, s3, Advance(r))
  {
    var a := Advance(r);
    hide Step;
    assert Advances(r, 4) == [a] + [a] + [a] + [a];
    RunOne(env, g, s, a);
    RunNext(env, g, s, [a], a);
    RunNext(env, g, s, [a] + [a], a);
    RunNext(env, g, s, [a] + [a] + [a], a);
    hide Run;
  }

  /** The names around a bundle that is written and sealed. */
  function Marked(t: Sys, r: nat, place: Place, staged: set<nat>, marker: Option<nat>, text: map<string, nat>): Sys
    requires r in t.receivers
  {
    t.(staged := staged, marker := marker, texts := t.texts[r := text],
       receivers := t.receivers[r := t.receivers[r].(place := place)])
  }

  lemma Stages(env: Env, g: Gate, t: Sys, r: nat)
    requires r in t.receivers && t.receivers[r].alive && |t.receivers[r].rows| == 3
    requires t.receivers[r].place == Sealing(3) && t.staged == {} && t.marker.None?
    ensures Step(env, g, t, Advance(r)) == Marked(t, r, Staged, {r}, None, map[])
  {
    AdvanceExactly(env, g, t, r);
    hide Step;
  }

  lemma FillsMarker(env: Env, g: Gate, t: Sys, r: nat)
    requires r in t.receivers && t.receivers[r].alive && |t.receivers[r].rows| == 3
    ensures Step(env, g, Marked(t, r, Staged, {r}, None, map[]), Advance(r))
            == Marked(t, r, Filled, {r}, None, t.receivers[r].sizes)
  {
    AdvanceExactly(env, g, Marked(t, r, Staged, {r}, None, map[]), r);
    hide Step;
    assert t.texts[r := map[]][r := t.receivers[r].sizes] == t.texts[r := t.receivers[r].sizes];
  }

  lemma LinksMarker(env: Env, g: Gate, t: Sys, r: nat, text: map<string, nat>)
    requires r in t.receivers && t.receivers[r].alive && |t.receivers[r].rows| == 3
    ensures Step(env, g, Marked(t, r, Filled, {r}, None, text), Advance(r)) == Marked(t, r, Linked, {r}, Some(r), text)
  {
    AdvanceExactly(env, g, Marked(t, r, Filled, {r}, None, text), r);
    hide Step;
  }

  lemma UnlinksStage(env: Env, g: Gate, t: Sys, r: nat, text: map<string, nat>)
    requires r in t.receivers && t.receivers[r].alive && |t.receivers[r].rows| == 3
    ensures Step(env, g, Marked(t, r, Linked, {r}, Some(r), text), Advance(r))
            == Marked(t, r, Unlinked, {}, Some(r), text)
  {
    AdvanceExactly(env, g, Marked(t, r, Linked, {r}, Some(r), text), r);
    hide Step;
    assert {r} - {r} == {};
  }

  lemma Finishes(env: Env, g: Gate, t: Sys, r: nat, text: map<string, nat>)
    requires r in t.receivers && t.receivers[r].alive && |t.receivers[r].rows| == 3
    ensures Step(env, g, Marked(t, r, Unlinked, {}, Some(r), text), Advance(r)) == Marked(t, r, Done, {}, Some(r), text)
  {
    AdvanceExactly(env, g, Marked(t, r, Unlinked, {}, Some(r), text), r);
    hide Step;
  }

  lemma {:induction false} Links(env: Env, g: Gate, t: Sys, r: nat)
    requires r in t.receivers && t.receivers[r].alive && |t.receivers[r].rows| == 3
    requires t.receivers[r].place == Sealing(3) && t.staged == {} && t.marker.None?
    ensures Run(env, g, t, Advances(r, 5)) == Marked(t, r, Done, {}, Some(r), t.receivers[r].sizes)
  {
    hide Run, Step, Marked;
    var text := t.receivers[r].sizes;
    Stages(env, g, t, r);
    FillsMarker(env, g, t, r);
    LinksMarker(env, g, t, r, text);
    UnlinksStage(env, g, t, r, text);
    Finishes(env, g, t, r, text);
    FourAdvances(env, g, t, r);
    assert Advances(r, 5) == Advances(r, 4) + [Advance(r)];
    RunNext(env, g, t, Advances(r, 4), Advance(r));
  }

  /** The bundle is published: all three files are this receiver's, whole, flushed and read-only, under one marker. */
  ghost predicate Bundle(s: Sys, r: nat, rows: seq<Row>, chunks: seq<seq<Bytes>>)
    requires |rows| == 3 && |chunks| == 3
  {
    && s.files == ThreeFiles(r, rows, chunks, true) && s.staged == {} && s.marker == Some(r)
    && r in s.receivers && s.receivers[r].place == Done
  }

  lemma {:induction false} RunFour(env: Env, g: Gate, s: Sys, a: seq<Op>, b: seq<Op>, c: seq<Op>, d: seq<Op>)
    ensures Run(env, g, s, a + (b + (c + d)))
            == Run(env, g, Run(env, g, Run(env, g, Run(env, g, s, a), b), c), d)
  {
    hide Run;
    RunSplits(env, g, s, a, b + (c + d));
    RunSplits(env, g, Run(env, g, s, a), b, c + d);
    RunSplits(env, g, Run(env, g, Run(env, g, s, a), b), c, d);
  }

  lemma {:induction false} DeliveryParts(r: nat, rows: seq<Row>, chunks: seq<seq<Bytes>>)
    requires |chunks| == 3
    ensures Delivery(r, rows, chunks)
            == [Arrive(r, rows), Advance(r)] + ((FileOps(r, chunks[0]) + FileOps(r, chunks[1]) + FileOps(r, chunks[2]))
                                                + (Advances(r, 4) + Advances(r, 5)))
  {
    hide FileOps;
    assert Advances(r, 9) == Advances(r, 4) + Advances(r, 5);
  }

  lemma ApprovedNames(g: Gate, rows: seq<Row>)
    requires RowsApproved(g, rows)
    ensures |rows| == 3 && DistinctNames(rows) && forall i | 0 <= i < 3 :: rows[i].name in NAMES
  {
    forall i | 0 <= i < 3 ensures rows[i].name in NAMES { assert RowApproved(g, rows[i]); }
  }

  lemma {:induction false} Delivers(env: Env, g: Gate, s: Sys, r: nat, rows: seq<Row>, chunks: seq<seq<Bytes>>)
    requires s.dir && s.files == map[] && s.staged == {} && s.marker.None? && r !in s.receivers
    requires |rows| == 3 && |chunks| == 3 && RowsApproved(g, rows) && Carries(env, rows, chunks)
    ensures var t := Run(env, g, s, Delivery(r, rows, chunks));
            Bundle(t, r, rows, chunks) && t.waiter == s.waiter
  {
    ApprovedNames(g, rows);
    DeliveryParts(r, rows, chunks);
    hide RowsApproved, Carries, Run, Step, FileOps, Advances, Delivery, ThreeFiles, Sizes, DistinctNames;
    Begins(env, g, s, r, rows);
    MakesThree(env, g, s, r, rows, chunks);
    SealsThree(env, g, s, r, rows, chunks);
    var written := Held(s, r, rows, ThreeFiles(r, rows, chunks, false), Making(3), map[]);
    var ready := Held(s, r, rows, ThreeFiles(r, rows, chunks, true), Sealing(3), Sizes(written));
    Links(env, g, ready, r);
    RunFour(env, g, s, [Arrive(r, rows), Advance(r)],
            FileOps(r, chunks[0]) + FileOps(r, chunks[1]) + FileOps(r, chunks[2]), Advances(r, 4), Advances(r, 5));
  }

  lemma {:induction false} Begins(env: Env, g: Gate, s: Sys, r: nat, rows: seq<Row>)
    requires s.dir && s.files == map[] && s.staged == {} && s.marker.None? && r !in s.receivers && RowsApproved(g, rows)
    ensures Run(env, g, s, [Arrive(r, rows), Advance(r)]) == Held(s, r, rows, map[], Making(0), map[])
  {
    var t := Step(env, g, s, Arrive(r, rows));
    assert t == Held(s, r, rows, map[], Arrived, map[]);
    RunOne(env, g, s, Arrive(r, rows));
    RunNext(env, g, s, [Arrive(r, rows)], Advance(r));
    assert [Arrive(r, rows)] + [Advance(r)] == [Arrive(r, rows), Advance(r)];
    hide Run;
    AdvanceExactly(env, g, t, r);
    hide Step, RowsApproved;
  }

  function Looks(n: nat): seq<Op> { seq(n, i => WaiterStep) }

  lemma {:induction false} LooksAreWaits(env: Env, g: Gate, s: Sys, n: nat)
    ensures Run(env, g, s, Looks(n)) == Waits(env, g, s, n)
  {
    if n == 0 {
      assert Looks(0) == [];
    } else {
      LooksAreWaits(env, g, s, n - 1);
      assert Looks(n) == Looks(n - 1) + [WaiterStep];
      RunNext(env, g, s, Looks(n - 1), WaiterStep);
      hide Waited;
    }
  }

  /** Whatever happened before: with the directory made and still empty, a receiver whose rows are approved and whose
      stream carries them, left to itself, publishes its bundle; and the waiter, left to itself, then accepts it. */
  lemma {:induction false} LeftAloneIsAccepted(env: Env, g: Gate, ops: seq<Op>, r: nat, rows: seq<Row>,
      chunks: seq<seq<Bytes>>)
    requires var s := Run(env, g, Start(), ops);
             s.waiter == Polling && s.files == map[] && s.staged == {} && s.marker.None? && r !in s.receivers
    requires |rows| == 3 && |chunks| == 3 && RowsApproved(g, rows) && Carries(env, rows, chunks)
    ensures var s := Run(env, g, Start(), ops);
            && Bundle(Run(env, g, s, Delivery(r, rows, chunks)), r, rows, chunks)
            && Run(env, g, s, Delivery(r, rows, chunks) + Looks(7)).waiter == Accepted
  {
    hide Run, Step, Delivery, Carries, RowsApproved, Waits, Looks, ThreeFiles;
    var s := Run(env, g, Start(), ops);
    InitialHolds(env, g);
    RunKeeps(env, g, Start(), ops);
    assert s.dir by { hide Base, NamesSound, TextsSound, WaiterSound; }
    hide Inv;
    Delivers(env, g, s, r, rows, chunks);
    RunKeeps(env, g, s, Delivery(r, rows, chunks));
    var t := Run(env, g, s, Delivery(r, rows, chunks));
    WaiterAccepts(env, g, t);
    LooksAreWaits(env, g, t, 7);
    RunSplits(env, g, s, Delivery(r, rows, chunks), Looks(7));
  }
}
