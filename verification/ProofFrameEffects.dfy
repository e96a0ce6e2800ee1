/** The receiver and the sender once more, in terms of the bytes on the stream alone: exactly which streams are accepted
    and what exactly is sent. */
module ProofFrameEffects {
  import opened Common
  import opened ProofFrame

  /** The three files and how long each may be. */
  const FILES: map<string, int> :=
    map["snapshot.json" := 16777216, "selection.json" := 1048576, "app-capture.json" := 33554432]

  predicate HexText(s: string, width: nat) { |s| == width && forall c | c in s :: c in "0123456789abcdef" }

  predicate UidText(s: string) {
    && |s| == 36 && s[8] == '-' && s[13] == '-' && s[18] == '-' && s[23] == '-'
    && HexText(s[..8] + s[9..13] + s[14..18] + s[19..23] + s[24..], 32)
  }

  predicate Named(b: Binding) { HexText(b.phase, 32) && UidText(b.jobUid) && UidText(b.podUid) }

  predicate Complete(g: Gate) {
    Named(g.binding) && g.hashes.Keys == FILES.Keys && forall n | n in FILES :: HexText(g.hashes[n], 64)
  }

  predicate RowAllowed(g: Gate, row: Row) {
    row.name in FILES && 0 < row.bytes <= FILES[row.name] && row.name in g.hashes && row.sha == g.hashes[row.name]
  }

  /** One line that ends in the only newline, of at most 4096 bytes. */
  predicate IsLine(line: Bytes) {
    1 <= |line| <= 4096 && line[|line| - 1] == 10 && forall i | 0 <= i < |line| - 1 :: line[i] != 10
  }

  /** An approved header line and then exactly the three files, each as long and with the hash its row says. */
  ghost predicate Accepts(env: Env, g: Gate, data: Bytes, files: map<string, Bytes>, line: Bytes, h: Header) {
    && Complete(g) && IsLine(line) && env.parse(line) == Some(h)
    && h.schema == 1 && h.binding == g.binding && |h.rows| == 3
    && h.rows[0].name != h.rows[1].name && h.rows[0].name != h.rows[2].name && h.rows[1].name != h.rows[2].name
    && files.Keys == FILES.Keys
    && (forall i | 0 <= i < 3 ::
          && RowAllowed(g, h.rows[i]) && |files[h.rows[i].name]| == h.rows[i].bytes
          && env.sha(files[h.rows[i].name]) == h.rows[i].sha)
    && data == line + files[h.rows[0].name] + files[h.rows[1].name] + files[h.rows[2].name]
  }

  lemma TheFiles()
    ensures forall n :: n in NAMES <==> n in FILES
    ensures forall n | n in FILES :: Limit(n) == FILES[n]
    ensures {NAMES[0], NAMES[1], NAMES[2]} == FILES.Keys
    ensures NAMES == ["snapshot.json", "selection.json", "app-capture.json"]
  {
  }

  /** Where character number i of a UID stands without its hyphens. */
  function Unhyphened(i: int): int {
    i - (if i < 8 then 0 else if i < 13 then 1 else if i < 18 then 2 else if i < 23 then 3 else 4)
  }

  lemma {:induction false} UnhyphenedAt(s: string, i: int)
    requires |s| == 36 && 0 <= i < 36 && i !in {8, 13, 18, 23}
    ensures var rest := s[..8] + s[9..13] + s[14..18] + s[19..23] + s[24..];
            |rest| == 32 && 0 <= Unhyphened(i) < 32 && rest[Unhyphened(i)] == s[i]
  {
  }

  lemma {:induction false} UidExactly(s: string)
    ensures IsUid(s) <==> UidText(s)
  {
    if |s| == 36 {
      var rest := s[..8] + s[9..13] + s[14..18] + s[19..23] + s[24..];
      HexExactly(rest, 32);
      forall i | 0 <= i < 36 && i !in {8, 13, 18, 23}
        ensures 0 <= Unhyphened(i) < |rest| && rest[Unhyphened(i)] == s[i]
      {
        UnhyphenedAt(s, i);
      }
      hide IsHexDigit;
      if IsUid(s) {
        forall k | 0 <= k < 32
          ensures IsHexDigit(rest[k])
        {
          var i := k + (if k < 8 then 0 else if k < 12 then 1 else if k < 16 then 2 else if k < 20 then 3 else 4);
          assert Unhyphened(i) == k;
        }
      }
    }
  }

  lemma BoundExactly(b: Binding)
    ensures Bound(b) <==> Named(b)
  {
    HexExactly(b.phase, 32);
    UidExactly(b.jobUid);
    UidExactly(b.podUid);
    hide IsHex, IsUid, UidText;
  }

  lemma GateExactly(g: Gate)
    ensures GateOpen(g) <==> Complete(g)
  {
    TheFiles();
    BoundExactly(g.binding);
    forall n | n in g.hashes
      ensures IsHex(g.hashes[n], 64) <==> HexText(g.hashes[n], 64)
    {
      HexExactly(g.hashes[n], 64);
    }
    hide IsHex, HexText, Bound, Named;
  }

  lemma HeaderExactly(g: Gate, h: Header)
    ensures HeaderApproved(g, h) <==>
            && h.schema == 1 && h.binding == g.binding && |h.rows| == 3
            && h.rows[0].name != h.rows[1].name && h.rows[0].name != h.rows[2].name && h.rows[1].name != h.rows[2].name
            && forall i | 0 <= i < 3 :: RowAllowed(g, h.rows[i])
  {
    TheFiles();
    hide Limit;
  }

  // ---- The header line ----

  /** A line that is read: no newline before its end, and as long as it may be when it ends in none. */
  predicate ReadAs(data: Bytes, limit: nat, line: Bytes) {
    && line <= data && |line| <= limit
    && (forall i | 0 <= i < |line| - 1 :: line[i] != 10)
    && (line == [] || line[|line| - 1] != 10 ==> |line| == if |data| < limit then |data| else limit)
  }

  lemma {:induction false} ReadOneMore(c: Byte, data: Bytes, limit: nat, line: Bytes)
    requires limit > 0 && c != 10 && ReadAs(data, limit - 1, line)
    ensures ReadAs([c] + data, limit, [c] + line)
  {
    var longer := [c] + line;
    forall i | 0 <= i < |longer| - 1 ensures longer[i] != 10 { if i > 0 { assert longer[i] == line[i - 1]; } }
    if line != [] { assert longer[|longer| - 1] == line[|line| - 1]; }
  }

  /** The line that is read goes up to the first newline, or as far as the limit and the data allow. */
  lemma {:induction false} FirstLineExactly(data: Bytes, limit: nat)
    ensures ReadAs(data, limit, FirstLine(data, limit))
    decreases limit
  {
    hide FirstLine;
    if data == [] || limit == 0 {
      NoLine(data, limit);
    } else {
      var c, rest := data[0], data[1..];
      assert data == [c] + rest;
      FirstLineStep(c, rest, limit);
      if c != 10 {
        FirstLineExactly(rest, limit - 1);
        ReadOneMore(c, rest, limit, FirstLine(rest, limit - 1));
      }
    }
  }

  lemma {:induction false} NoLine(data: Bytes, limit: nat)
    requires data == [] || limit == 0
    ensures FirstLine(data, limit) == []
  {
  }

  lemma {:induction false} LineFound(line: Bytes, rest: Bytes)
    requires IsLine(line)
    ensures HeaderLine(line + rest) == Some(line)
  {
    var text := line[..|line| - 1];
    assert line == text + [10] && line + rest == text + [10] + rest;
    LineOfSent(text, rest, 4097);
    hide FirstLine;
  }

  lemma {:induction false} LineRead(data: Bytes)
    requires HeaderLine(data).Some?
    ensures IsLine(HeaderLine(data).value) && HeaderLine(data).value <= data
  {
    FirstLineExactly(data, 4097);
    hide FirstLine;
  }

  // ---- Receiving ----

  lemma {:induction false} ThreeBodies(rows: seq<Row>, files: map<string, Bytes>)
    requires |rows| == 3 && forall i | 0 <= i < 3 :: rows[i].name in files
    ensures Bodies(rows, files) == files[rows[0].name] + files[rows[1].name] + files[rows[2].name]
  {
    assert rows[..2][..1] == rows[..1] && rows[..1][..0] == [];
    assert Bodies(rows[..1], files) == files[rows[0].name];
    assert Bodies(rows[..2], files) == files[rows[0].name] + files[rows[1].name];
  }

  lemma {:induction false} ReceivedIsAccepted(env: Env, g: Gate, data: Bytes)
    requires Receive(env, g, data).Some?
    ensures exists line, h :: Accepts(env, g, data, Receive(env, g, data).value, line, h)
  {
    ReceivedNames(env, g, data);
    var files := Receive(env, g, data).value;
    assert GateOpen(g);
    hide Receive, AcceptedAs, Accepts;
    var line, h :| AcceptedAs(env, g, data, files, line, h);
    AcceptedMeans(env, g, data, files, line, h);
  }

  lemma {:induction false} ReceivedNames(env: Env, g: Gate, data: Bytes)
    requires Receive(env, g, data).Some?
    ensures Receive(env, g, data).value.Keys == FILES.Keys
    ensures exists line, h :: AcceptedAs(env, g, data, Receive(env, g, data).value, line, h)
  {
    AcceptedIsExact(env, g, data);
    TheFiles();
    hide *;
  }

  lemma {:induction false} AcceptedMeans(env: Env, g: Gate, data: Bytes, files: map<string, Bytes>, line: Bytes,
      h: Header)
    requires GateOpen(g) && AcceptedAs(env, g, data, files, line, h) && files.Keys == FILES.Keys
    ensures Accepts(env, g, data, files, line, h)
  {
    GateExactly(g);
    HeaderExactly(g, h);
    hide GateOpen, Complete, HeaderApproved, RowAllowed;
    ThreeBodies(h.rows, files);
    assert forall i | 0 <= i < 3 :: Fits(env, h.rows[i], files);
    var a, b, c := files[h.rows[0].name], files[h.rows[1].name], files[h.rows[2].name];
    hide Bodies;
    assert data == line + a + b + c;
  }

  lemma {:induction false} AcceptedIsReceived(env: Env, g: Gate, data: Bytes, files: map<string, Bytes>, line: Bytes,
      h: Header)
    requires Accepts(env, g, data, files, line, h)
    ensures Receive(env, g, data) == Some(files)
  {
    GateExactly(g);
    HeaderExactly(g, h);
    var a, b, c := files[h.rows[0].name], files[h.rows[1].name], files[h.rows[2].name];
    assert forall i | 0 <= i < 3 :: h.rows[i].name in files;
    hide GateOpen, HeaderApproved, IsLine, Complete, TakeFiles, RowAllowed, HeaderLine;
    assert data == line + (a + b + c);
    LineFound(line, a + b + c);
    FileCount();
    hide FILES;
    BodyTaken(env, h.rows, files, a, b, c);
    assert data[|line|..] == a + b + c;
  }

  lemma {:induction false} BodyTaken(env: Env, rows: seq<Row>, files: map<string, Bytes>, a: Bytes, b: Bytes, c: Bytes)
    requires |rows| == 3 && |files.Keys| == 3
    requires rows[0].name != rows[1].name && rows[0].name != rows[2].name && rows[1].name != rows[2].name
    requires forall i | 0 <= i < 3 ::
               && rows[i].name in files && |files[rows[i].name]| == rows[i].bytes
               && env.sha(files[rows[i].name]) == rows[i].sha
    requires a == files[rows[0].name] && b == files[rows[1].name] && c == files[rows[2].name]
    ensures TakeFiles(env, rows, a + b + c) == Some((files, []))
  {
    TakesThree(env, rows, a, b, c);
    hide TakeFiles;
    ThreeNames(files.Keys, rows[0].name, rows[1].name, rows[2].name);
    assert files == map[rows[0].name := a, rows[1].name := b, rows[2].name := c];
  }

  lemma FileCount()
    ensures |FILES.Keys| == 3
  {
    assert FILES.Keys == {"snapshot.json", "selection.json", "app-capture.json"};
  }

  lemma ThreeNames(names: set<string>, a: string, b: string, c: string)
    requires |names| == 3 && a in names && b in names && c in names && a != b && a != c && b != c
    ensures names == {a, b, c}
  {
    var three := {a, b, c};
    assert |three| == 3;
    assert names == three + (names - three) && |names| == |three| + |names - three|;
  }

  /** A stream is accepted as these files exactly when it is an approved header line followed by them and no more. */
  lemma AcceptsExactly(env: Env, g: Gate, data: Bytes, files: map<string, Bytes>)
    ensures Receive(env, g, data) == Some(files) <==> exists line, h :: Accepts(env, g, data, files, line, h)
  {
    hide Receive, Accepts;
    if Receive(env, g, data) == Some(files) { ReceivedIsAccepted(env, g, data); }
    if line, h :| Accepts(env, g, data, files, line, h) { AcceptedIsReceived(env, g, data, files, line, h); }
  }

  // ---- Sending ----

  /** Which bundles a sender takes. */
  lemma SendsExactly(b: Binding, files: map<string, Bytes>)
    ensures Sendable(b, files) && WithinLimits(files) <==>
            Named(b) && files.Keys == FILES.Keys && forall n | n in FILES :: 0 < |files[n]| <= FILES[n]
  {
    TheFiles();
    BoundExactly(b);
    hide Bound, Named, Limit;
  }

  /** What it sends: the header of the three files in their fixed order, one newline, and the files. */
  lemma SentBytes(env: Env, b: Binding, files: map<string, Bytes>)
    requires WithinLimits(files)
    ensures var x, y, z := files["snapshot.json"], files["selection.json"], files["app-capture.json"];
            var rows := [Row("snapshot.json", |x|, env.sha(x)), Row("selection.json", |y|, env.sha(y)),
                         Row("app-capture.json", |z|, env.sha(z))];
            Sent(env, b, files) == env.encode(Header(1, b, rows)) + [10] + x + y + z
  {
    TheFiles();
  }
}
