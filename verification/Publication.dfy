/** Publishing a received bundle to the one process waiting for it.  Any number of receivers and one waiter share one
    directory; every operation on it is one step, in any interleaving, and any process may stop between two steps. */
module Publication {
  import opened Common
  import opened ProofFrame

  /** One proof file: who created it, what is in it, whether that is flushed to disk and whether it is read-only. */
  datatype Proof = Proof(owner: nat, content: Bytes, synced: bool, frozen: bool)

  /** Where a receiver is: creating and filling file `i`, making file `j` read-only, then staging and linking the
      marker. */
  datatype Place =
    | Arrived
    | Making(i: nat)
    | Writing(i: nat)
    | Sealing(j: nat)
    | Staged
    | Filled
    | Linked
    | Unlinked
    | Done

  datatype Receiver = Receiver(rows: seq<Row>, place: Place, alive: bool, sizes: map<string, nat>)

  datatype Waiter = Absent | Polling | Checking(k: nat) | Accepted | Refused | Expired

  /** `staged` holds the receivers whose private staging name still exists, `marker` the one whose staged file is also
      named ready.json, and `texts` what is in those files. */
  datatype Sys = Sys(dir: bool, files: map<string, Proof>, staged: set<nat>, marker: Option<nat>,
                     texts: map<nat, map<string, nat>>, receivers: map<nat, Receiver>, waiter: Waiter)

  datatype Op =
    | Arrive(r: nat, rows: seq<Row>)
    | Append(r: nat, chunk: Bytes)
    | Advance(r: nat)
    | Stop(r: nat)
    | WaiterStep
    | WaiterExpires

  function Start(): Sys { Sys(false, map[], {}, None, map[], map[], Absent) }

  function AllNames(): set<string> { {NAMES[0], NAMES[1], NAMES[2]} }

  predicate EmptyDir(s: Sys) { s.files.Keys == {} && s.staged == {} && s.marker.None? }
  predicate OnlyProofs(s: Sys) { s.files.Keys == AllNames() && s.staged == {} && s.marker.None? }
  predicate ReadyListing(s: Sys) { s.files.Keys == AllNames() && s.staged == {} && s.marker.Some? }

  /** Link count of ready.json: the staged file under its two names, or under the published name alone. */
  function MarkerLinks(s: Sys): nat {
    if s.marker.None? then 0 else if s.marker.value in s.staged then 2 else 1
  }

  // ---- One receiver ----

  function At(s: Sys, r: nat, place: Place): Sys
    requires r in s.receivers
  {
    s.(receivers := s.receivers[r := s.receivers[r].(place := place)])
  }

  function Halted(s: Sys, r: nat): Sys
    requires r in s.receivers
  {
    s.(receivers := s.receivers[r := s.receivers[r].(alive := false)])
  }

  function Sizes(s: Sys): map<string, nat> { map n | n in s.files :: |s.files[n].content| }

  predicate Matches(env: Env, row: Row, f: Proof) { |f.content| == row.bytes && env.sha(f.content) == row.sha }

  function Create(s: Sys, r: nat, i: nat): Sys
    requires r in s.receivers && i < |s.receivers[r].rows|
  {
    var name := s.receivers[r].rows[i].name;
    if name in s.files then Halted(s, r)
    else At(s.(files := s.files[name := Proof(r, [], false, false)]), r, Writing(i))
  }

  /** Flush the file and compare it with its header row. */
  function Finish(env: Env, s: Sys, r: nat, i: nat): Sys
    requires r in s.receivers && i < |s.receivers[r].rows|
  {
    var row := s.receivers[r].rows[i];
    if row.name !in s.files || !Matches(env, row, s.files[row.name]) then Halted(s, r)
    else At(s.(files := s.files[row.name := s.files[row.name].(synced := true)]), r, Making(i + 1))
  }

  function ListAll(s: Sys, r: nat): Sys
    requires r in s.receivers
  {
    if !OnlyProofs(s) then Halted(s, r)
    else s.(receivers := s.receivers[r := s.receivers[r].(place := Sealing(0), sizes := Sizes(s))])
  }

  function Seal(s: Sys, r: nat, j: nat): Sys
    requires r in s.receivers && j < |s.receivers[r].rows|
  {
    var name := s.receivers[r].rows[j].name;
    if name !in s.files then Halted(s, r)
    else At(s.(files := s.files[name := s.files[name].(frozen := true, synced := true)]), r, Sealing(j + 1))
  }

  function Link(s: Sys, r: nat): Sys
    requires r in s.receivers
  {
    if s.marker.Some? then Halted(s, r) else At(s.(marker := Some(r)), r, Linked)
  }

  function Next(env: Env, s: Sys, r: nat): Sys
    requires r in s.receivers
  {
    var p := s.receivers[r];
    match p.place
    case Arrived => if s.dir && EmptyDir(s) then At(s, r, Making(0)) else Halted(s, r)
    case Making(i) => if i < |p.rows| then Create(s, r, i) else ListAll(s, r)
    case Writing(i) => if i < |p.rows| then Finish(env, s, r, i) else s
    case Sealing(j) =>
      if j < |p.rows| then Seal(s, r, j)
      else At(s.(staged := s.staged + {r}, texts := s.texts[r := map[]]), r, Staged)
    case Staged => At(s.(texts := s.texts[r := p.sizes]), r, Filled)
    case Filled => Link(s, r)
    case Linked => At(s.(staged := s.staged - {r}), r, Unlinked)
    case Unlinked => At(s, r, Done)
    case Done => s
  }

  /** More bytes of the stream, never past the declared length. */
  function Appended(s: Sys, r: nat, chunk: Bytes): Sys
    requires r in s.receivers
  {
    var p := s.receivers[r];
    if p.place.Writing? && p.place.i < |p.rows| && p.rows[p.place.i].name in s.files
       && |s.files[p.rows[p.place.i].name].content| + |chunk| <= p.rows[p.place.i].bytes then
      var name := p.rows[p.place.i].name;
      s.(files := s.files[name := s.files[name].(content := s.files[name].content + chunk, synced := false)])
    else s
  }

  // ---- The waiter ----

  predicate MarkerReads(s: Sys) {
    && MarkerLinks(s) == 1 && s.marker.value in s.texts && s.texts[s.marker.value].Keys == AllNames()
    && forall n | n in s.texts[s.marker.value] :: 0 < s.texts[s.marker.value][n] <= Limit(n)
  }

  predicate FileReads(env: Env, g: Gate, s: Sys, n: string) {
    && n in s.files && s.files[n].frozen && n in g.hashes && env.sha(s.files[n].content) == g.hashes[n]
    && s.marker.Some? && s.marker.value in s.texts && n in s.texts[s.marker.value]
    && |s.files[n].content| == s.texts[s.marker.value][n]
  }

  /** The listing, the marker, the three files and the listing again, each looked at in its own step. */
  predicate CheckPasses(env: Env, g: Gate, s: Sys, k: nat) {
    if k == 0 || k == 5 then ReadyListing(s)
    else if k == 1 then MarkerReads(s)
    else if k < 5 then FileReads(env, g, s, NAMES[k - 2])
    else false
  }

  function Waited(env: Env, g: Gate, s: Sys): Sys {
    match s.waiter
    case Absent => if s.dir then s.(waiter := Refused) else s.(dir := true, waiter := Polling)
    case Polling => if s.marker.Some? && MarkerLinks(s) != 2 then s.(waiter := Checking(0)) else s
    case Checking(k) =>
      if !CheckPasses(env, g, s, k) then s.(waiter := Refused)
      else s.(waiter := if k == 5 then Accepted else Checking(k + 1))
    case Accepted => s
    case Refused => s
    case Expired => s
  }

  predicate RowsApproved(g: Gate, rows: seq<Row>) {
    |rows| == 3 && DistinctNames(rows) && forall i | 0 <= i < |rows| :: RowApproved(g, rows[i])
  }

  /** A step of a process that is not there, has stopped, or was refused at its header, changes nothing. */
  function Step(env: Env, g: Gate, s: Sys, op: Op): Sys {
    match op
    case Arrive(r, rows) =>
      if r in s.receivers || !RowsApproved(g, rows) then s
      else s.(receivers := s.receivers[r := Receiver(rows, Arrived, true, map[])])
    case Append(r, chunk) => if r in s.receivers && s.receivers[r].alive then Appended(s, r, chunk) else s
    case Advance(r) => if r in s.receivers && s.receivers[r].alive then Next(env, s, r) else s
    case Stop(r) => if r in s.receivers then Halted(s, r) else s
    case WaiterStep => Waited(env, g, s)
    case WaiterExpires => if s.waiter.Polling? || s.waiter.Checking? then s.(waiter := Expired) else s
  }

  function Run(env: Env, g: Gate, s: Sys, ops: seq<Op>): Sys
    decreases |ops|
  {
    if ops == [] then s else Step(env, g, Run(env, g, s, ops[..|ops| - 1]), ops[|ops| - 1])
  }
}
