/** What an accepted journal is, line by line and byte by byte, and where every other one stops. */
module StageJournalEffects {
  import opened Common
  import opened StageJournal

  // ---- One line ----

  /** The line is an event with its own hash, for this phase, with this number, after this hash, of a known kind. */
  predicate Carries(env: Env, a: Approval, line: Bytes, number: nat, previous: string) {
    match env.frame(line)
    case Some(Event(needsAck, raw, sha)) =>
      && needsAck && sha == env.sha(raw)
      && (match env.event(raw)
          case Some(b) =>
            && b.phase == a.phase && b.number == number && b.previous == previous
            && (b.kind == "before" || b.kind == "intent" || b.kind == "response" || b.kind == "readback"
                || b.kind == "complete")
          case None => false)
    case _ => false
  }

  function KindOf(env: Env, line: Bytes): string {
    match env.frame(line)
    case Some(Event(_, raw, _)) => (match env.event(raw) case Some(b) => b.kind case None => "")
    case _ => ""
  }

  function WorkerOf(env: Env, line: Bytes): string {
    match env.frame(line)
    case Some(Event(_, raw, _)) => (match env.event(raw) case Some(b) => b.worker case None => "")
    case _ => ""
  }

  function ShaOf(env: Env, line: Bytes): string {
    match env.frame(line)
    case Some(Event(_, _, sha)) => sha
    case _ => ""
  }

  /** Before an acknowledgement the host admits a read or a write anew, knows the child's source, and can reach it. */
  predicate Admits(env: Env, a: Approval, line: Bytes, n: nat) {
    && (KindOf(env, line) == "before" ==> env.admits(n) && WorkerOf(env, line) == a.worker)
    && (KindOf(env, line) == "intent" ==> env.admits(n)) && env.delivers(n)
  }

  /** Line by line: over 32 MiB nothing is written; the refusal of the child is written and ends the run; a line that
      does not carry on the chain is not written; one that does is written, and acknowledged only when admitted. */
  lemma LineExactly(env: Env, a: Approval, core: Core, line: Bytes)
    ensures var step, total, n := OneLine(env, a, core, line), core.total + |line|, core.sequence + 1;
            if total > 33554432 then step == Stopped(core.(total := total))
            else if env.frame(line) == Some(Fatal) then
              step == Stopped(core.(total := total, trace := core.trace + [Persisted(n, line)]))
            else if !Carries(env, a, line, n, core.previous) then step == Stopped(core.(total := total))
            else if !Admits(env, a, line, n) then
              step == Stopped(core.(total := total, sequence := n, trace := core.trace + [Persisted(n, line)]))
            else
              step == Running([], Core(ShaOf(env, line), n, total, KindOf(env, line) == "complete",
                                       core.trace + [Persisted(n, line), Acked(n, ShaOf(env, line))]))
  {
    CarriesExactly(env, a, line, core.sequence, core.previous);
    hide Continues, KINDS;
    assert core.trace + [Persisted(core.sequence + 1, line)] + [Acked(core.sequence + 1, ShaOf(env, line))]
        == core.trace + [Persisted(core.sequence + 1, line), Acked(core.sequence + 1, ShaOf(env, line))];
  }

  lemma CarriesExactly(env: Env, a: Approval, line: Bytes, sequence: nat, previous: string)
    ensures Continues(env, a, previous, sequence, line) <==> Carries(env, a, line, sequence + 1, previous)
  {
    forall kind: string
      ensures kind in KINDS <==> kind == "before" || kind == "intent" || kind == "response" || kind == "readback"
                                 || kind == "complete"
    {
      KindsExactly(kind);
    }
    hide KINDS;
  }

  lemma KindsExactly(kind: string)
    ensures kind in KINDS <==> kind == "before" || kind == "intent" || kind == "response" || kind == "readback"
                               || kind == "complete"
  {
  }

  // ---- Lines of bytes ----

  predicate OneLined(line: Bytes) { forall i | 0 <= i < |line| :: line[i] != 10 }

  lemma {:induction false} FirstCut(line: Bytes, rest: Bytes)
    requires OneLined(line)
    ensures var data := line + [10] + rest;
            Find(data) == |line| && data[..|line|] == line && data[|line| + 1..] == rest
  {
    var data := line + [10] + rest;
    assert data[|line|] == 10 && forall j | 0 <= j < |line| :: data[j] == line[j];
    FindIsFirst(data, |line|);
    hide Find;
  }

  lemma {:induction false} NoCut(tail: Bytes)
    requires OneLined(tail)
    ensures Find(tail) == |tail|
  {
    FindIsFirst(tail, |tail|);
  }

  /** The lines of some bytes are the only way to cut them at their newlines. */
  lemma {:induction false} LinesExactly(lines: seq<Bytes>, tail: Bytes)
    requires OneLined(tail) && forall i | 0 <= i < |lines| :: OneLined(lines[i])
    ensures Lines(Rejoined(lines) + tail) == lines && Rest(Rejoined(lines) + tail) == tail
  {
    hide Find, Lines, Rest, Rejoined, OneLined;
    var data := Rejoined(lines) + tail;
    LinesStep(data);
    if lines == [] {
      NothingRejoined(tail);
      NoCut(tail);
    } else {
      var line, more := lines[0], lines[1..];
      assert lines == [line] + more;
      RejoinFirst(line, more);
      Regroup(line + [10], Rejoined(more), tail);
      FirstCut(line, Rejoined(more) + tail);
      assert forall i | 0 <= i < |more| :: more[i] == lines[i + 1];
      LinesExactly(more, tail);
    }
  }

  lemma {:induction false} LinesAreLines(data: Bytes)
    ensures OneLined(Rest(data)) && forall i | 0 <= i < |Lines(data)| :: OneLined(Lines(data)[i])
    decreases |data|
  {
    var i := Find(data);
    FindIsFirst(data, i);
    LinesStep(data);
    if i < |data| {
      LinesAreLines(data[i + 1..]);
      assert OneLined(data[..i]);
    }
    hide Find, Lines, Rest;
  }

  // ---- A whole journal ----

  function Length(lines: seq<Bytes>): nat { if lines == [] then 0 else |lines[0]| + Length(lines[1..]) }

  lemma {:induction false} LengthIsSize(lines: seq<Bytes>)
    ensures Length(lines) == Size(lines)
  {
    if lines != [] {
      LengthIsSize(lines[1..]);
      SizeFirst(lines);
    }
  }

  lemma {:induction false} SizeFirst(lines: seq<Bytes>)
    requires lines != []
    ensures Size(lines) == |lines[0]| + Size(lines[1..])
    decreases |lines|
  {
    var n := |lines| - 1;
    if n > 0 {
      SizeFirst(lines[..n]);
      assert lines[..n][1..] == lines[1..][..n - 1] && lines[1..][n - 1] == lines[n];
    } else {
      assert lines[..0] == [] && lines[1..] == [];
    }
  }

  /** Line number k + 1 of a journal: after the hash of the line before, or after sixty-four zeros. */
  predicate Entry(env: Env, a: Approval, lines: seq<Bytes>, k: nat)
    requires k < |lines|
  {
    && Carries(env, a, lines[k], k + 1,
               if k == 0 then "0000000000000000000000000000000000000000000000000000000000000000"
               else ShaOf(env, lines[k - 1]))
    && Admits(env, a, lines[k], k + 1) && Length(lines[..k + 1]) <= 33554432
  }

  lemma ZerosExactly()
    ensures ZEROS == "0000000000000000000000000000000000000000000000000000000000000000" && |ZEROS| == 64
  {
  }

  lemma {:induction false} EntryExactly(env: Env, a: Approval, lines: seq<Bytes>, k: nat)
    requires k < |lines|
    ensures GoodLine(env, a, lines, k) <==> Entry(env, a, lines, k)
  {
    ZerosExactly();
    LengthIsSize(lines[..k + 1]);
    CarriesExactly(env, a, lines[k], k, Link(env, lines, k));
    var previous := if k == 0 then ZEROS else ShaOf(env, lines[k - 1]);
    assert Link(env, lines, k) == previous;
    hide KINDS, Length, Size, ZEROS;
  }

  /** A stage succeeds exactly when the child ended with status zero and sent, in reads that never held more than 8 MiB
      undelimited, one chain of admitted entries that ends with a completion, and not one byte besides. */
  lemma {:induction false} SucceedsExactly(env: Env, a: Approval, chunks: seq<Bytes>, status: int)
    ensures Succeeds(FeedAll(env, a, chunks), status) <==>
            && status == 0 && WithinReads(chunks)
            && exists lines :: Journal(env, a, lines) && Joined(chunks) == Rejoined(lines)
  {
    var data := Joined(chunks);
    ReadThroughExactlyWhen(env, a, chunks);
    if Succeeds(FeedAll(env, a, chunks), status) {
      AcceptedExactly(env, a, chunks);
      LinesRejoin(data);
      LinesAreLines(data);
      ChainIsEntries(env, a, Lines(data));
      LastKind(env, Lines(data));
      WithinExactly(env, a, chunks);
      hide Chain, Entry, Lines, Rest, FeedAll, WithinBound, WithinReads, OneLined;
      assert Rejoined(Lines(data)) + [] == Rejoined(Lines(data));
      assert Journal(env, a, Lines(data));
    }
    if status == 0 && WithinReads(chunks) && exists lines :: Journal(env, a, lines) && data == Rejoined(lines) {
      var lines :| Journal(env, a, lines) && data == Rejoined(lines);
      assert Rejoined(lines) + [] == Rejoined(lines);
      LinesExactly(lines, []);
      ChainIsEntries(env, a, lines);
      LastKind(env, lines);
      WithinExactly(env, a, chunks);
      hide Chain, Entry, Lines, Rest, FeedAll, WithinBound, WithinReads, OneLined;
      AcceptedExactly(env, a, chunks);
    }
  }

  /** One or more whole lines, each an entry of the chain, the last of them a completion. */
  predicate Journal(env: Env, a: Approval, lines: seq<Bytes>) {
    && lines != [] && (forall k | 0 <= k < |lines| :: OneLined(lines[k]) && Entry(env, a, lines, k))
    && KindOf(env, lines[|lines| - 1]) == "complete"
  }

  lemma {:induction false} ChainIsEntries(env: Env, a: Approval, lines: seq<Bytes>)
    ensures Chain(env, a, lines) <==> forall k | 0 <= k < |lines| :: Entry(env, a, lines, k)
  {
    forall k | 0 <= k < |lines| ensures GoodLine(env, a, lines, k) <==> Entry(env, a, lines, k) {
      EntryExactly(env, a, lines, k);
    }
    hide GoodLine, Entry;
  }

  lemma {:induction false} LastKind(env: Env, lines: seq<Bytes>)
    ensures EndsComplete(env, lines) <==> lines != [] && KindOf(env, lines[|lines| - 1]) == "complete"
  {
  }

  /** With what is left after the last newline, no read ever makes more than 8 MiB. */
  predicate WithinReads(chunks: seq<Bytes>) {
    forall k | 0 <= k < |chunks| :: |Rest(Joined(chunks[..k]))| + |chunks[k]| <= 8388608
  }

  lemma {:induction false} ReadsSplit(chunks: seq<Bytes>)
    requires chunks != []
    ensures var n := |chunks| - 1;
            WithinReads(chunks) <==>
              WithinReads(chunks[..n]) && |Rest(Joined(chunks[..n]))| + |chunks[n]| <= 8388608
  {
    hide Rest, Joined;
    var n := |chunks| - 1;
    assert forall k | 0 <= k < n :: chunks[..n][..k] == chunks[..k] && chunks[..n][k] == chunks[k];
  }

  lemma {:induction false} BoundSplit(env: Env, a: Approval, chunks: seq<Bytes>)
    requires chunks != [] && Chain(env, a, Lines(Joined(chunks[..|chunks| - 1])))
    ensures var n := |chunks| - 1;
            WithinBound(env, a, chunks) <==>
              WithinBound(env, a, chunks[..n]) && |Rest(Joined(chunks[..n]))| + |chunks[n]| <= 8388608
  {
    var less := chunks[..|chunks| - 1];
    hide Chain, Lines, Rest, FeedAll, Joined;
    if WithinBound(env, a, less) { AcceptedExactly(env, a, less); }
  }

  lemma {:induction false} WithinExactly(env: Env, a: Approval, chunks: seq<Bytes>)
    requires Chain(env, a, Lines(Joined(chunks)))
    ensures WithinBound(env, a, chunks) <==> WithinReads(chunks)
    decreases |chunks|
  {
    if chunks != [] {
      var n := |chunks| - 1;
      assert Joined(chunks) == Joined(chunks[..n]) + chunks[n];
      hide Joined, Chain, Lines, WithinBound, WithinReads, Rest;
      ShorterChain(env, a, Joined(chunks[..n]), chunks[n]);
      WithinExactly(env, a, chunks[..n]);
      ReadsSplit(chunks);
      BoundSplit(env, a, chunks);
    }
  }

  lemma {:induction false} ShorterChain(env: Env, a: Approval, x: Bytes, y: Bytes)
    requires Chain(env, a, Lines(x + y))
    ensures Chain(env, a, Lines(x))
  {
    LinesGrow(x, y);
    ChainPrefix(env, a, Lines(x), Lines(Rest(x) + y));
  }

  lemma {:induction false} RegroupLines(a: seq<Bytes>, b: seq<Bytes>, c: seq<Bytes>)
    ensures a + (b + c) == (a + b) + c
  {
  }

  lemma {:induction false} LinesGrow(x: Bytes, y: Bytes)
    ensures Lines(x + y) == Lines(x) + Lines(Rest(x) + y)
    decreases |x|
  {
    hide Find, Lines, Rest;
    var i := Find(x);
    LinesStep(x);
    if i < |x| {
      SplitFirst(x, y);
      LinesStep(x + y);
      LinesGrow(x[i + 1..], y);
      RegroupLines([x[..i]], Lines(x[i + 1..]), Lines(Rest(x) + y));
    }
  }
}
