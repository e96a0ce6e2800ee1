/** The length- and hash-bound stream that carries three proof files: its sender, its receiver, and what an accepted
    stream can be.  Reads return any nonempty part of what was asked for, so every chunking is covered. */
module ProofFrame {
  import opened Common

  const CHUNK := 65536
  const MAX_HEADER := 4096
  const NEWLINE: Byte := 10

  const NAMES := ["snapshot.json", "selection.json", "app-capture.json"]

  function Limit(name: string): nat {
    if name == "snapshot.json" then 16 * 1024 * 1024
    else if name == "selection.json" then 1024 * 1024
    else 32 * 1024 * 1024
  }

  datatype Row = Row(name: string, bytes: int, sha: string)

  /** The one phase, Job and Pod a transfer belongs to. */
  datatype Binding = Binding(phase: string, jobUid: string, podUid: string)
  datatype Header = Header(schema: int, binding: Binding, rows: seq<Row>)

  /** What the receiver's environment approved: the binding and the three hashes. */
  datatype Gate = Gate(binding: Binding, hashes: map<string, string>)

  /** SHA-256 and the JSON header text in both directions. */
  datatype Env = Env(sha: Bytes -> string, encode: Header -> Bytes, parse: Bytes -> Option<Header>)

  predicate NoNewline(b: Bytes) { forall i | 0 <= i < |b| :: b[i] != NEWLINE }

  predicate IsUid(s: string) {
    |s| == 36 && forall i | 0 <= i < 36 :: if i in {8, 13, 18, 23} then s[i] == '-' else IsHexDigit(s[i])
  }

  predicate Bound(b: Binding) { IsHex(b.phase, 32) && IsUid(b.jobUid) && IsUid(b.podUid) }

  /** The headers a sender can write; there are finitely many, each a few hundred bytes of JSON. */
  ghost predicate Regular(h: Header) {
    && h.schema == 1 && Bound(h.binding) && |h.rows| == 3
    && forall i | 0 <= i < 3 :: h.rows[i].name in NAMES && 0 < h.rows[i].bytes <= Limit(h.rows[i].name)
         && IsHex(h.rows[i].sha, 64)
  }

  /** The assumptions: digests are 64 hex digits, a regular header is one line below the bound, and parsing reads it
      back. */
  ghost predicate Sound(env: Env) {
    && (forall b :: IsHex(env.sha(b), 64))
    && (forall h | Regular(h) :: NoNewline(env.encode(h)) && |env.encode(h)| < MAX_HEADER)
    && (forall h | Regular(h) :: env.parse(env.encode(h) + [NEWLINE]) == Some(h))
  }

  // ---- Sending ----

  predicate Sendable(b: Binding, files: map<string, Bytes>) {
    files.Keys == {NAMES[0], NAMES[1], NAMES[2]} && Bound(b)
  }

  predicate WithinLimits(files: map<string, Bytes>) {
    forall n | n in NAMES :: n in files && 0 < |files[n]| <= Limit(n)
  }

  function RowFor(env: Env, name: string, bytes: Bytes): Row { Row(name, |bytes|, env.sha(bytes)) }

  function HeaderFor(env: Env, b: Binding, files: map<string, Bytes>): Header
    requires WithinLimits(files)
  {
    Header(1, b, [RowFor(env, NAMES[0], files[NAMES[0]]), RowFor(env, NAMES[1], files[NAMES[1]]),
        RowFor(env, NAMES[2], files[NAMES[2]])])
  }

  function Sent(env: Env, b: Binding, files: map<string, Bytes>): Bytes
    requires WithinLimits(files)
  {
    env.encode(HeaderFor(env, b, files)) + [NEWLINE] + files[NAMES[0]] + files[NAMES[1]] + files[NAMES[2]]
  }

  // ---- Receiving ----

  /** The bytes up to and including the first newline, cut after `limit` bytes. */
  function FirstLine(data: Bytes, limit: nat): (line: Bytes)
    ensures |line| <= |data| && line == data[..|line|] && |line| <= limit
    ensures line != [] && line[|line| - 1] == NEWLINE ==> NoNewline(line[..|line| - 1])
    decreases limit
  {
    if data == [] || limit == 0 then []
    else if data[0] == NEWLINE then [NEWLINE]
    else
      var rest := FirstLine(data[1..], limit - 1);
      var line := [data[0]] + rest;
      assert rest != [] ==> line[..|line| - 1] == [data[0]] + rest[..|rest| - 1];
      line
  }

  /** The gate itself must be complete before anything is read. */
  predicate GateOpen(g: Gate) {
    && Bound(g.binding) && g.hashes.Keys == {NAMES[0], NAMES[1], NAMES[2]}
    && forall n | n in g.hashes :: IsHex(g.hashes[n], 64)
  }

  predicate RowApproved(g: Gate, row: Row) {
    row.name in NAMES && 0 < row.bytes <= Limit(row.name) && row.name in g.hashes && row.sha == g.hashes[row.name]
  }

  predicate DistinctNames(rows: seq<Row>) {
    forall i, j | 0 <= i < j < |rows| :: rows[i].name != rows[j].name
  }

  predicate HeaderApproved(g: Gate, h: Header) {
    && h.schema == 1 && h.binding == g.binding
    && |h.rows| == 3 && (forall i | 0 <= i < |h.rows| :: RowApproved(g, h.rows[i])) && DistinctNames(h.rows)
  }

  /** The files taken off the front of the stream in header order, and what is left of the stream. */
  function TakeFiles(env: Env, rows: seq<Row>, data: Bytes): Option<(map<string, Bytes>, Bytes)>
    decreases |rows|
  {
    if rows == [] then Some((map[], data))
    else
      var before := TakeFiles(env, rows[..|rows| - 1], data);
      var row := rows[|rows| - 1];
      if before.None? || row.bytes < 0 || |before.value.1| < row.bytes then None
      else
        var bytes := before.value.1[..row.bytes];
        if env.sha(bytes) != row.sha then None
        else Some((before.value.0[row.name := bytes], before.value.1[row.bytes..]))
  }

  function HeaderLine(data: Bytes): Option<Bytes> {
    var line := FirstLine(data, MAX_HEADER + 1);
    if |line| > MAX_HEADER || line == [] || line[|line| - 1] != NEWLINE then None else Some(line)
  }

  function Receive(env: Env, g: Gate, data: Bytes): Option<map<string, Bytes>> {
    var line := HeaderLine(data);
    if !GateOpen(g) || line.None? then None
    else
      var h := env.parse(line.value);
      if h.None? || !HeaderApproved(g, h.value) then None
      else
        var taken := TakeFiles(env, h.value.rows, data[|line.value|..]);
        if taken.None? || taken.value.1 != [] then None else Some(taken.value.0)
  }

  // ---- The two ends, read by read ----

  class Stream {
    const data: Bytes
    var pos: nat

    ghost predicate Valid()
      reads this
    {
      pos <= |data|
    }

    constructor (data: Bytes)
      ensures Valid() && this.data == data && pos == 0
    {
      this.data := data;
      pos := 0;
    }

    /** At least one byte unless the stream is at its end, and at most `n`. */
    method Read(n: nat) returns (chunk: Bytes)
      requires Valid() && n > 0
      modifies this
      ensures Valid() && old(pos) <= pos <= old(pos) + n && chunk == data[old(pos)..pos]
      ensures chunk == [] <==> old(pos) == |data|
    {
      if pos == |data| { return []; }
      var k: nat :| 1 <= k <= n && pos + k <= |data|;
      chunk := data[pos..pos + k];
      pos := pos + k;
    }

    method ReadLine(limit: nat) returns (line: Bytes)
      requires Valid()
      modifies this
      ensures Valid() && line == FirstLine(data[old(pos)..], limit) && pos == old(pos) + |line|
    {
      line := FirstLine(data[pos..], limit);
      pos := pos + |line|;
    }
  }

  /** Reads exactly `left` bytes in any chunks, hashing what it writes; None when the stream ends first. */
  method ReadExactly(stream: Stream, count: nat) returns (written: Option<Bytes>)
    requires stream.Valid()
    modifies stream
    ensures stream.Valid()
    ensures old(stream.pos) + count <= |stream.data| ==>
              written == Some(stream.data[old(stream.pos)..old(stream.pos) + count])
                  && stream.pos == old(stream.pos) + count
    ensures old(stream.pos) + count > |stream.data| ==> written.None?
  {
    var left, output := count, [];
    while left > 0
      invariant stream.Valid() && 0 <= left <= count && stream.pos == old(stream.pos) + (count - left)
      invariant output == stream.data[old(stream.pos)..stream.pos]
    {
      var chunk := stream.Read(if CHUNK < left then CHUNK else left);
      if chunk == [] { return None; }
      output := output + chunk;
      left := left - |chunk|;
    }
    return Some(output);
  }

  /** The files of an approved header, each read and hashed in its turn. */
  method ReceiveAll(env: Env, rows: seq<Row>, stream: Stream) returns (paths: Option<map<string, Bytes>>)
    requires stream.Valid() && forall i | 0 <= i < |rows| :: rows[i].bytes > 0
    modifies stream
    ensures stream.Valid()
    ensures TakeFiles(env, rows, stream.data[old(stream.pos)..])
            == if paths.None? then None else Some((paths.value, stream.data[stream.pos..]))
  {
    hide TakeFiles;
    ghost var body := stream.data[stream.pos..];
    var files: map<string, Bytes> := map[];
    var i := 0;
    assert TakeFiles(env, rows[..0], body) == Some((files, body)) by { NothingTaken(env, rows[..0], body); }
    while i < |rows|
      invariant i <= |rows| && stream.Valid()
      invariant TakeFiles(env, rows[..i], body) == Some((files, stream.data[stream.pos..]))
    {
      ghost var rest := stream.data[stream.pos..];
      OneTaken(env, rows, i, body, files, rest);
      NeverTaken(env, rows, i + 1, body);
      var written := ReadExactly(stream, rows[i].bytes);
      if written.None? { return None; }
      assert rest[..rows[i].bytes] == written.value && rest[rows[i].bytes..] == stream.data[stream.pos..];
      if env.sha(written.value) != rows[i].sha { return None; }
      files := files[rows[i].name := written.value];
      i := i + 1;
    }
    assert rows[..i] == rows;
    return Some(files);
  }

  method ReceiveFiles(env: Env, g: Gate, stream: Stream) returns (files: Option<map<string, Bytes>>)
    requires stream.Valid() && stream.pos == 0
    modifies stream
    ensures files == Receive(env, g, stream.data)
  {
    if !GateOpen(g) { return None; }
    var line := stream.ReadLine(MAX_HEADER + 1);
    assert stream.data[0..] == stream.data;
    if |line| > MAX_HEADER || line == [] || line[|line| - 1] != NEWLINE { return None; }
    var parsed := env.parse(line);
    if parsed.None? || !HeaderApproved(g, parsed.value) { return None; }
    assert forall i | 0 <= i < |parsed.value.rows| :: RowApproved(g, parsed.value.rows[i]);
    hide TakeFiles, FirstLine, GateOpen, HeaderApproved, RowApproved, DistinctNames;
    var paths := ReceiveAll(env, parsed.value.rows, stream);
    if paths.None? { return None; }
    var trailing := stream.Read(1);
    if trailing != [] { return None; }
    return paths;
  }

  lemma NothingTaken(env: Env, rows: seq<Row>, data: Bytes)
    requires rows == []
    ensures TakeFiles(env, rows, data) == Some((map[], data))
  {
  }

  lemma OneTaken(env: Env, rows: seq<Row>, i: nat, data: Bytes, paths: map<string, Bytes>, rest: Bytes)
    requires i < |rows| && rows[i].bytes >= 0 && TakeFiles(env, rows[..i], data) == Some((paths, rest))
    ensures TakeFiles(env, rows[..i + 1], data)
            == if |rest| < rows[i].bytes || env.sha(rest[..rows[i].bytes]) != rows[i].sha then None
               else Some((paths[rows[i].name := rest[..rows[i].bytes]], rest[rows[i].bytes..]))
  {
    assert rows[..i + 1][..i] == rows[..i] && rows[..i + 1][i] == rows[i];
  }

  /** Once one file is refused the whole bundle is. */
  lemma {:induction false} NeverTaken(env: Env, rows: seq<Row>, i: nat, data: Bytes)
    requires i <= |rows|
    ensures TakeFiles(env, rows[..i], data).None? ==> TakeFiles(env, rows, data).None?
    decreases |rows|
  {
    if i < |rows| {
      assert rows[..|rows| - 1][..i] == rows[..i];
      NeverTaken(env, rows[..|rows| - 1], i, data);
    } else {
      assert rows[..i] == rows;
    }
  }

  /** Streams one file in any chunks after hashing it; what is written is the file. */
  method Copy(source: Bytes) returns (out: Bytes)
    ensures out == source
  {
    var reader := new Stream(source);
    var left := |source|;
    out := [];
    while left > 0
      invariant reader.Valid() && reader.data == source && left == |source| - reader.pos && out == source[..reader.pos]
    {
      var chunk := reader.Read(if CHUNK < left then CHUNK else left);
      out := out + chunk;
      left := left - |chunk|;
    }
  }

  method Send(env: Env, b: Binding, files: map<string, Bytes>) returns (stream: Option<Bytes>)
    ensures stream == if Sendable(b, files) && WithinLimits(files) then Some(Sent(env, b, files)) else None
  {
    if !Sendable(b, files) { return None; }
    var rows: seq<Row> := [];
    var i := 0;
    while i < |NAMES|
      invariant i <= |NAMES| && |rows| == i
      invariant forall j | 0 <= j < i :: NAMES[j] in files && 0 < |files[NAMES[j]]| <= Limit(NAMES[j])
                                         && rows[j] == RowFor(env, NAMES[j], files[NAMES[j]])
    {
      assert NAMES[i] in NAMES;
      var bytes := files[NAMES[i]];
      if |bytes| == 0 || |bytes| > Limit(NAMES[i]) { return None; }
      var hashed := Copy(bytes);
      rows := rows + [Row(NAMES[i], |bytes|, env.sha(hashed))];
      i := i + 1;
    }
    assert rows == HeaderFor(env, b, files).rows;
    var out := env.encode(Header(1, b, rows)) + [NEWLINE];
    var first := Copy(files[NAMES[0]]);
    var second := Copy(files[NAMES[1]]);
    var third := Copy(files[NAMES[2]]);
    return Some(out + first + second + third);
  }

  // ---- What it means ----

  lemma FirstLineStep(c: Byte, data: Bytes, limit: nat)
    requires limit > 0
    ensures FirstLine([c] + data, limit) == if c == NEWLINE then [c] else [c] + FirstLine(data, limit - 1)
  {
    assert ([c] + data)[1..] == data;
  }

  lemma {:induction false} LineOfSent(line: Bytes, rest: Bytes, limit: nat)
    requires NoNewline(line) && |line| < limit
    ensures FirstLine(line + [NEWLINE] + rest, limit) == line + [NEWLINE]
    decreases |line|
  {
    hide FirstLine;
    var data := line + [NEWLINE] + rest;
    if line != [] {
      var tail := line[1..] + [NEWLINE] + rest;
      assert data == [line[0]] + tail;
      FirstLineStep(line[0], tail, limit);
      LineOfSent(line[1..], rest, limit - 1);
      assert [line[0]] + (line[1..] + [NEWLINE]) == line + [NEWLINE];
    } else {
      assert data == [NEWLINE] + rest && line + [NEWLINE] == [NEWLINE];
      FirstLineStep(NEWLINE, rest, limit);
    }
  }

  lemma TakesThree(env: Env, rows: seq<Row>, a: Bytes, b: Bytes, c: Bytes)
    requires |rows| == 3 && DistinctNames(rows)
    requires rows[0] == RowFor(env, rows[0].name, a) && rows[1] == RowFor(env, rows[1].name, b)
    requires rows[2] == RowFor(env, rows[2].name, c)
    ensures TakeFiles(env, rows, a + b + c) == Some((map[rows[0].name := a, rows[1].name := b, rows[2].name := c], []))
  {
    var data := a + b + c;
    assert rows[..1][..0] == [] && rows[..2][..1] == rows[..1];
    assert data[..|a|] == a && data[|a|..] == b + c;
    assert TakeFiles(env, rows[..1], data) == Some((map[rows[0].name := a], b + c));
    assert (b + c)[..|b|] == b && (b + c)[|b|..] == c;
    assert TakeFiles(env, rows[..2], data) == Some((map[rows[0].name := a, rows[1].name := b], c));
    assert rows[..|rows| - 1] == rows[..2] && c[..|c|] == c && c[|c|..] == [];
  }

  /** The receiver recovers exactly the files that were sent, if and only if its gate carries the sender's binding and
      the three hashes of those files. */
  lemma ReceiveInvertsSend(env: Env, b: Binding, g: Gate, files: map<string, Bytes>)
    requires Sound(env) && Sendable(b, files) && WithinLimits(files) && GateOpen(g)
    ensures Receive(env, g, Sent(env, b, files)) == Some(files) <==>
              g.binding == b && forall n | n in NAMES :: g.hashes[n] == env.sha(files[n])
  {
    hide FirstLine, TakeFiles, Limit, Bound, IsHex;
    var h := HeaderFor(env, b, files);
    var one, two, three := files[NAMES[0]], files[NAMES[1]], files[NAMES[2]];
    var line := env.encode(h);
    var data := Sent(env, b, files);
    assert data == line + [NEWLINE] + (one + two + three);
    HeaderIsRegular(env, b, files);
    LineOfSent(line, one + two + three, MAX_HEADER + 1);
    assert HeaderLine(data) == Some(line + [NEWLINE]);
    HeaderIsApproved(env, b, g, files);
    assert data[|line + [NEWLINE]|..] == one + two + three;
    TakesThree(env, h.rows, one, two, three);
    assert files == map[NAMES[0] := one, NAMES[1] := two, NAMES[2] := three];
  }

  lemma HeaderIsRegular(env: Env, b: Binding, files: map<string, Bytes>)
    requires Sound(env) && Sendable(b, files) && WithinLimits(files)
    ensures Regular(HeaderFor(env, b, files))
  {
    hide IsHex, IsUid;
    assert NAMES[0] in NAMES && NAMES[1] in NAMES && NAMES[2] in NAMES;
  }

  lemma HeaderIsApproved(env: Env, b: Binding, g: Gate, files: map<string, Bytes>)
    requires WithinLimits(files) && GateOpen(g)
    ensures HeaderApproved(g, HeaderFor(env, b, files)) <==>
              g.binding == b && forall n | n in NAMES :: g.hashes[n] == env.sha(files[n])
  {
    hide IsHex, IsUid;
    var h := HeaderFor(env, b, files);
    assert NAMES[0] in NAMES && NAMES[1] in NAMES && NAMES[2] in NAMES;
    forall i | 0 <= i < 3
      ensures RowApproved(g, h.rows[i]) <==> g.hashes[NAMES[i]] == env.sha(files[NAMES[i]])
    {
      assert NAMES[i] in files && 0 < |files[NAMES[i]]| <= Limit(NAMES[i]);
    }
  }

  /** The contents of the rows one after the other. */
  function Bodies(rows: seq<Row>, files: map<string, Bytes>): Bytes
    requires forall i | 0 <= i < |rows| :: rows[i].name in files
    decreases |rows|
  {
    if rows == [] then [] else Bodies(rows[..|rows| - 1], files) + files[rows[|rows| - 1].name]
  }

  ghost predicate Fits(env: Env, row: Row, files: map<string, Bytes>) {
    row.name in files && |files[row.name]| == row.bytes && env.sha(files[row.name]) == row.sha
  }

  /** What taking `rows` off the front of `data` leaves: those names, fitting contents, and no byte unaccounted for. */
  ghost predicate Exact(env: Env, rows: seq<Row>, data: Bytes, files: map<string, Bytes>, rest: Bytes) {
    && (forall n | n in files :: exists i :: 0 <= i < |rows| && rows[i].name == n)
    && (forall i | 0 <= i < |rows| :: Fits(env, rows[i], files))
    && data == Bodies(rows, files) + rest
  }

  lemma {:induction false} TakenIsExact(env: Env, rows: seq<Row>, data: Bytes)
    requires TakeFiles(env, rows, data).Some? && DistinctNames(rows)
    ensures Exact(env, rows, data, TakeFiles(env, rows, data).value.0, TakeFiles(env, rows, data).value.1)
    decreases |rows|
  {
    if rows != [] {
      var n := |rows| - 1;
      TakeLast(env, rows, data);
      TakenIsExact(env, rows[..n], data);
      var (before, middle) := TakeFiles(env, rows[..n], data).value;
      hide TakeFiles;
      ExactOneMore(env, rows, data, before, middle);
    }
  }

  lemma {:induction false} ExactOneMore(env: Env, rows: seq<Row>, data: Bytes, before: map<string, Bytes>,
      middle: Bytes)
    requires rows != [] && DistinctNames(rows)
    requires var n := |rows| - 1;
             && Exact(env, rows[..n], data, before, middle)
             && 0 <= rows[n].bytes <= |middle| && env.sha(middle[..rows[n].bytes]) == rows[n].sha
    ensures var n := |rows| - 1;
            Exact(env, rows, data, before[rows[n].name := middle[..rows[n].bytes]], middle[rows[n].bytes..])
  {
    var n := |rows| - 1;
    var less := rows[..n];
    var files, rest := before[rows[n].name := middle[..rows[n].bytes]], middle[rows[n].bytes..];
    StillFits(env, rows, before, middle[..rows[n].bytes]);
    StillNamed(rows, before, files);
    hide Fits, DistinctNames, Bodies;
    OneMoreBody(rows, less, files);
    assert middle == files[rows[n].name] + rest;
    Regroup(Bodies(less, files), files[rows[n].name], rest);
  }

  lemma {:induction false} OneMoreBody(rows: seq<Row>, less: seq<Row>, files: map<string, Bytes>)
    requires rows != [] && less == rows[..|rows| - 1] && forall i | 0 <= i < |rows| :: rows[i].name in files
    ensures forall i | 0 <= i < |less| :: less[i].name in files
    ensures Bodies(rows, files) == Bodies(less, files) + files[rows[|rows| - 1].name]
  {
  }

  lemma {:induction false} StillNamed(rows: seq<Row>, before: map<string, Bytes>, files: map<string, Bytes>)
    requires rows != [] && files.Keys == before.Keys + {rows[|rows| - 1].name}
    requires var less := rows[..|rows| - 1]; forall x | x in before :: exists i :: 0 <= i < |less| && less[i].name == x
    ensures forall x | x in files :: exists i :: 0 <= i < |rows| && rows[i].name == x
  {
    var n := |rows| - 1;
    var less := rows[..n];
    forall x | x in files
      ensures exists i :: 0 <= i < |rows| && rows[i].name == x
    {
      if x == rows[n].name { assert rows[n].name == x; }
      else { var i :| 0 <= i < |less| && less[i].name == x; assert rows[i].name == x; }
    }
  }

  lemma {:induction false} StillFits(env: Env, rows: seq<Row>, before: map<string, Bytes>, bytes: Bytes)
    requires rows != [] && DistinctNames(rows)
    requires var n := |rows| - 1;
             && (forall i | 0 <= i < n :: Fits(env, rows[..n][i], before))
             && |bytes| == rows[n].bytes && env.sha(bytes) == rows[n].sha
    ensures var n := |rows| - 1;
            && (forall i | 0 <= i < |rows| :: Fits(env, rows[i], before[rows[n].name := bytes]))
            && (forall i | 0 <= i < n :: Fits(env, rows[..n][i], before[rows[n].name := bytes]))
            && Bodies(rows[..n], before[rows[n].name := bytes]) == Bodies(rows[..n], before)
  {
    var n := |rows| - 1;
    var files := before[rows[n].name := bytes];
    forall i | 0 <= i < n
      ensures Fits(env, rows[i], files) && files[rows[i].name] == before[rows[i].name]
    {
      assert rows[..n][i] == rows[i] && Fits(env, rows[..n][i], before);
    }
    SameBodies(rows[..n], before, files);
  }

  lemma TakeLast(env: Env, rows: seq<Row>, data: Bytes)
    requires rows != [] && TakeFiles(env, rows, data).Some?
    ensures var n := |rows| - 1;
            var (before, middle) := TakeFiles(env, rows[..n], data).value;
            && 0 <= rows[n].bytes <= |middle| && env.sha(middle[..rows[n].bytes]) == rows[n].sha
            && TakeFiles(env, rows, data).value == (before[rows[n].name := middle[..rows[n].bytes]],
                 middle[rows[n].bytes..])
  {
  }

  lemma {:induction false} SameBodies(rows: seq<Row>, a: map<string, Bytes>, b: map<string, Bytes>)
    requires forall i | 0 <= i < |rows| :: rows[i].name in a && rows[i].name in b && a[rows[i].name] == b[rows[i].name]
    ensures Bodies(rows, a) == Bodies(rows, b)
    decreases |rows|
  {
    if rows != [] { SameBodies(rows[..|rows| - 1], a, b); }
  }

  /** An accepted stream is one approved header line followed by exactly the declared bytes of the three files,
      with nothing missing and nothing after, and every file has the approved hash. */
  lemma {:induction false} AcceptedIsExact(env: Env, g: Gate, data: Bytes)
    requires Receive(env, g, data).Some?
    ensures var files := Receive(env, g, data).value;
            exists line, h :: AcceptedAs(env, g, data, files, line, h)
    ensures forall n | n in NAMES :: n in Receive(env, g, data).value && n in g.hashes
                                     && env.sha(Receive(env, g, data).value[n]) == g.hashes[n]
                                     && 0 < |Receive(env, g, data).value[n]| <= Limit(n)
    ensures forall n | n in Receive(env, g, data).value :: n in NAMES
  {
    var line := HeaderLine(data).value;
    var h := env.parse(line).value;
    var body := data[|line|..];
    TakenIsExact(env, h.rows, body);
    var files := Receive(env, g, data).value;
    assert body == Bodies(h.rows, files) + [];
    assert data == line + Bodies(h.rows, files);
    EveryNameOnce(h.rows);
    assert AcceptedAs(env, g, data, files, line, h);
    forall n | n in NAMES
      ensures n in files && n in g.hashes && env.sha(files[n]) == g.hashes[n] && 0 < |files[n]| <= Limit(n)
    {
      var i :| 0 <= i < |h.rows| && h.rows[i].name == n;
      assert RowApproved(g, h.rows[i]) && Fits(env, h.rows[i], files);
    }
    forall n | n in files
      ensures n in NAMES
    {
      var i :| 0 <= i < |h.rows| && h.rows[i].name == n;
      assert RowApproved(g, h.rows[i]);
    }
  }

  ghost predicate AcceptedAs(env: Env, g: Gate, data: Bytes, files: map<string, Bytes>, line: Bytes, h: Header) {
    && line != [] && line[|line| - 1] == NEWLINE && NoNewline(line[..|line| - 1]) && |line| <= MAX_HEADER
    && env.parse(line) == Some(h) && HeaderApproved(g, h)
    && (forall i | 0 <= i < |h.rows| :: Fits(env, h.rows[i], files))
    && data == line + Bodies(h.rows, files)
  }

  /** Three distinct names out of three are all of them. */
  lemma EveryNameOnce(rows: seq<Row>)
    requires |rows| == 3 && DistinctNames(rows) && forall i | 0 <= i < 3 :: rows[i].name in NAMES
    ensures forall n | n in NAMES :: exists i :: 0 <= i < 3 && rows[i].name == n
  {
    var a, b, c := rows[0].name, rows[1].name, rows[2].name;
    assert a in NAMES && b in NAMES && c in NAMES;
    assert a != b && a != c && b != c;
  }

  /** While SHA-256 does not collide, one gate lets through one set of files, whatever stream brings them. */
  lemma GateDeterminesFiles(env: Env, g: Gate, d1: Bytes, d2: Bytes)
    requires forall a, b | env.sha(a) == env.sha(b) :: a == b
    requires Receive(env, g, d1).Some? && Receive(env, g, d2).Some?
    ensures Receive(env, g, d1) == Receive(env, g, d2)
  {
    hide Receive, Limit;
    AcceptedIsExact(env, g, d1);
    AcceptedIsExact(env, g, d2);
    var one, two := Receive(env, g, d1).value, Receive(env, g, d2).value;
    forall n | n in one
      ensures n in two && one[n] == two[n]
    {
      assert n in NAMES;
    }
    assert one.Keys == two.Keys by {
      assert forall n | n in two :: n in NAMES && n in one;
    }
    assert one == two;
  }
}
