/** The host side of a stage: journal lines arriving in arbitrary chunks, checked as a hash chain, each written to disk
    before it is acknowledged. */
module StageJournal {
  import opened Common

  const MAX_EVENT := 8 * 1024 * 1024
  const MAX_JOURNAL := 32 * 1024 * 1024
  const NEWLINE: Byte := 10
  const ZEROS := "0000000000000000000000000000000000000000000000000000000000000000"
  const KINDS := ["before", "intent", "response", "readback", "complete"]

  /** One line: the child's refusal, or an event text with its declared hash. */
  datatype Frame = Fatal | Event(needsAck: bool, raw: Bytes, sha: string)
  datatype Body = Body(phase: string, number: int, previous: string, kind: string, worker: string)

  /** SHA-256, the two JSON readers, the admission checks made before an acknowledgement, and whether it could be
      sent. */
  datatype Env = Env(sha: Bytes -> string, frame: Bytes -> Option<Frame>, event: Bytes -> Option<Body>,
                     admits: nat -> bool, delivers: nat -> bool)

  /** What the approval fixes: the phase and the hash of the child's source. */
  datatype Approval = Approval(phase: string, worker: string)

  datatype Action = Persisted(n: nat, line: Bytes) | Acked(n: nat, sha: string)

  datatype Core = Core(previous: string, sequence: nat, total: nat, complete: bool, trace: seq<Action>)
  datatype Loop = Running(pending: Bytes, core: Core) | Stopped(core: Core)

  function Start(): Core { Core(ZEROS, 0, 0, false, []) }

  /** The frame and its event agree with the approval and continue the chain. */
  predicate Continues(env: Env, a: Approval, previous: string, sequence: nat, line: Bytes) {
    var f := env.frame(line);
    f.Some? && f.value.Event? && f.value.needsAck && env.sha(f.value.raw) == f.value.sha
    && var b := env.event(f.value.raw);
       b.Some? && b.value.phase == a.phase && b.value.number == sequence + 1 && b.value.previous == previous
           && b.value.kind in KINDS
  }

  function BodyOf(env: Env, line: Bytes): Body
    requires env.frame(line).Some? && env.frame(line).value.Event? && env.event(env.frame(line).value.raw).Some?
  {
    env.event(env.frame(line).value.raw).value
  }

  /** What stands between writing entry `n` and acknowledging it. */
  predicate MayAck(env: Env, a: Approval, b: Body, n: nat) {
    && (b.kind == "before" || b.kind == "intent" ==> env.admits(n))
    && (b.kind == "before" ==> b.worker == a.worker)
    && env.delivers(n)
  }

  function OneLine(env: Env, a: Approval, core: Core, line: Bytes): Loop {
    var total := core.total + |line|;
    var n := core.sequence + 1;
    if total > MAX_JOURNAL then Stopped(core.(total := total))
    else
      var f := env.frame(line);
      if f == Some(Fatal) then Stopped(core.(total := total, trace := core.trace + [Persisted(n, line)]))
      else if !Continues(env, a, core.previous, core.sequence, line) then Stopped(core.(total := total))
      else
        var b := BodyOf(env, line);
        var written := core.(total := total, sequence := n, trace := core.trace + [Persisted(n, line)]);
        if !MayAck(env, a, b, n) then Stopped(written)
        else
          Running([], written.(previous := f.value.sha, complete := b.kind == "complete",
                               trace := written.trace + [Acked(n, f.value.sha)]))
  }

  function Find(data: Bytes): (i: nat)
    ensures i <= |data|
  {
    if data == [] || data[0] == NEWLINE then 0 else 1 + Find(data[1..])
  }

  lemma {:induction false} FindIsFirst(data: Bytes, k: nat)
    requires k <= |data|
    ensures Find(data) == k <==> (forall j | 0 <= j < k :: data[j] != NEWLINE) && (k < |data| ==> data[k] == NEWLINE)
  {
    if data != [] && data[0] != NEWLINE && k > 0 {
      FindIsFirst(data[1..], k - 1);
      assert forall j | 0 <= j < k - 1 :: data[1..][j] == data[j + 1];
    }
  }

  /** Takes whole lines off the front until none is left. */
  function Consume(env: Env, a: Approval, core: Core, data: Bytes): Loop
    decreases |data|
  {
    var i := Find(data);
    if i == |data| then Running(data, core)
    else
      var step := OneLine(env, a, core, data[..i]);
      if step.Stopped? then step else Consume(env, a, step.core, data[i + 1..])
  }

  /** One read: the bound applies to everything pending, before it is split into lines. */
  function Feed(env: Env, a: Approval, loop: Loop, chunk: Bytes): Loop {
    if loop.Stopped? then loop
    else if |loop.pending + chunk| > MAX_EVENT then Stopped(loop.core)
    else Consume(env, a, loop.core, loop.pending + chunk)
  }

  function FeedAll(env: Env, a: Approval, chunks: seq<Bytes>): Loop
    decreases |chunks|
  {
    if chunks == [] then Running([], Start())
    else Feed(env, a, FeedAll(env, a, chunks[..|chunks| - 1]), chunks[|chunks| - 1])
  }

  predicate Succeeds(loop: Loop, status: int) {
    loop.Running? && loop.pending == [] && status == 0 && loop.core.complete
  }

  // ---- The event loop ----

  class Session {
    var pending: Bytes
    var previous: string
    var sequence: nat
    var total: nat
    var complete: bool
    var trace: seq<Action>

    constructor ()
      ensures State() == Start() && pending == []
    {
      pending, previous, sequence, total, complete, trace := [], ZEROS, 0, 0, false, [];
    }

    function State(): Core
      reads this
    {
      Core(previous, sequence, total, complete, trace)
    }

    method WriteEvent(n: nat, line: Bytes)
      modifies `trace
      ensures trace == old(trace) + [Persisted(n, line)]
    {
      trace := trace + [Persisted(n, line)];
    }

    method TakeLine(env: Env, a: Approval, line: Bytes) returns (ok: bool)
      modifies this
      ensures pending == old(pending)
      ensures OneLine(env, a, old(State()), line) == if ok then Running([], State()) else Stopped(State())
    {
      total := total + |line|;
      if total > MAX_JOURNAL { return false; }
      var f := env.frame(line);
      if f == Some(Fatal) {
        WriteEvent(sequence + 1, line);
        return false;
      }
      if !Continues(env, a, previous, sequence, line) { return false; }
      sequence := sequence + 1;
      WriteEvent(sequence, line);
      var b := BodyOf(env, line);
      if !MayAck(env, a, b, sequence) { return false; }
      trace := trace + [Acked(sequence, f.value.sha)];
      previous := f.value.sha;
      complete := b.kind == "complete";
      return true;
    }

    method TakeChunk(env: Env, a: Approval, raw: Bytes) returns (ok: bool)
      modifies this
      ensures Feed(env, a, old(Running(pending, State())), raw)
              == if ok then Running(pending, State()) else Stopped(State())
    {
      pending := pending + raw;
      if |pending| > MAX_EVENT { return false; }
      ghost var result := Consume(env, a, State(), pending);
      while Find(pending) < |pending|
        invariant Consume(env, a, State(), pending) == result
        decreases |pending|
      {
        var i := Find(pending);
        var line := pending[..i];
        pending := pending[i + 1..];
        var taken := TakeLine(env, a, line);
        if !taken { return false; }
      }
      return true;
    }

    /** The whole loop: the outcome is that of feeding every chunk, and success is a clean end after `complete`. */
    method Execute(env: Env, a: Approval, chunks: seq<Bytes>, status: int) returns (ok: bool)
      requires State() == Start() && pending == []
      modifies this
      ensures ok <==> Succeeds(FeedAll(env, a, chunks), status)
      ensures FeedAll(env, a, chunks).core.trace == trace
      ensures ok ==> FeedAll(env, a, chunks) == Running(pending, State())
    {
      var i := 0;
      while i < |chunks|
        invariant 0 <= i <= |chunks| && FeedAll(env, a, chunks[..i]) == Running(pending, State())
      {
        assert chunks[..i + 1][..i] == chunks[..i];
        var taken := TakeChunk(env, a, chunks[i]);
        if !taken {
          StaysStopped(env, a, chunks, i + 1);
          return false;
        }
        i := i + 1;
      }
      assert chunks[..i] == chunks;
      return pending == [] && status == 0 && complete;
    }
  }

  lemma {:induction false} StaysStopped(env: Env, a: Approval, chunks: seq<Bytes>, i: nat)
    requires i <= |chunks| && FeedAll(env, a, chunks[..i]).Stopped?
    ensures FeedAll(env, a, chunks) == FeedAll(env, a, chunks[..i])
    decreases |chunks|
  {
    if i < |chunks| {
      assert chunks[..|chunks| - 1][..i] == chunks[..i];
      StaysStopped(env, a, chunks[..|chunks| - 1], i);
    } else {
      assert chunks[..i] == chunks;
    }
  }

  // ---- Chunking does not matter ----

  /** No read finds more than the bound pending. */
  predicate WithinBound(env: Env, a: Approval, chunks: seq<Bytes>)
    decreases |chunks|
  {
    chunks == [] ||
    (var before := FeedAll(env, a, chunks[..|chunks| - 1]);
     && WithinBound(env, a, chunks[..|chunks| - 1])
     && (before.Running? ==> |before.pending + chunks[|chunks| - 1]| <= MAX_EVENT))
  }

  lemma {:induction false} ConsumeInTwo(env: Env, a: Approval, core: Core, x: Bytes, y: Bytes)
    ensures var first := Consume(env, a, core, x);
            Consume(env, a, core, x + y)
            == if first.Stopped? then first else Consume(env, a, first.core, first.pending + y)
    decreases |x|
  {
    hide OneLine, Find, Consume;
    var i := Find(x);
    ConsumeStep(env, a, core, x);
    if i < |x| {
      var step := OneLine(env, a, core, x[..i]);
      SplitFirst(x, y);
      ConsumeStep(env, a, core, x + y);
      if step.Running? { ConsumeInTwo(env, a, step.core, x[i + 1..], y); }
    }
  }

  lemma {:induction false} ConsumeStep(env: Env, a: Approval, core: Core, data: Bytes)
    ensures var i := Find(data);
            Consume(env, a, core, data)
            == if i == |data| then Running(data, core)
               else
                 var step := OneLine(env, a, core, data[..i]);
                 if step.Stopped? then step else Consume(env, a, step.core, data[i + 1..])
  {
    hide OneLine, Find;
  }

  lemma {:induction false} SplitFirst(x: Bytes, y: Bytes)
    requires Find(x) < |x|
    ensures var i := Find(x);
            Find(x + y) == i && (x + y)[..i] == x[..i] && (x + y)[i + 1..] == x[i + 1..] + y
  {
    SameFirst(x, x + y);
  }

  lemma {:induction false} SameFirst(x: Bytes, z: Bytes)
    requires Find(x) < |x| <= |z| && z[..|x|] == x
    ensures Find(z) == Find(x)
  {
    assert forall j | 0 <= j < |x| :: z[j] == z[..|x|][j];
    FindIsFirst(x, Find(x));
    FindIsFirst(z, Find(x));
  }

  lemma {:induction false} FeedIsConsume(env: Env, a: Approval, chunks: seq<Bytes>)
    requires WithinBound(env, a, chunks)
    ensures FeedAll(env, a, chunks) == Consume(env, a, Start(), Joined(chunks))
    decreases |chunks|
  {
    if chunks != [] {
      var less, last := chunks[..|chunks| - 1], chunks[|chunks| - 1];
      FeedIsConsume(env, a, less);
      ConsumeInTwo(env, a, Start(), Joined(less), last);
    }
  }

  /** Two ways of cutting the same bytes give the same outcome, journal and acknowledgements, as long as both stay
      within the bound on what is pending. */
  lemma ChunkingDoesNotMatter(env: Env, a: Approval, one: seq<Bytes>, two: seq<Bytes>)
    requires WithinBound(env, a, one) && WithinBound(env, a, two) && Joined(one) == Joined(two)
    ensures FeedAll(env, a, one) == FeedAll(env, a, two)
  {
    FeedIsConsume(env, a, one);
    FeedIsConsume(env, a, two);
  }

  lemma {:induction false} FeedBoth(env: Env, a: Approval, chunks: seq<Bytes>, x: Bytes, y: Bytes)
    ensures FeedAll(env, a, chunks + [x, y]) == Feed(env, a, Feed(env, a, FeedAll(env, a, chunks), x), y)
    ensures Joined(chunks + [x, y]) == Joined(chunks) + x + y
  {
    hide Feed;
    assert (chunks + [x, y])[..|chunks| + 1] == chunks + [x] && (chunks + [x])[..|chunks|] == chunks;
  }

  lemma {:induction false} OneWholeLine(env: Env, a: Approval, core: Core, line: Bytes)
    requires Find(line) == |line| && OneLine(env, a, core, line).Running?
    ensures Consume(env, a, core, line + [NEWLINE]) == Running([], OneLine(env, a, core, line).core)
  {
    var whole := line + [NEWLINE];
    assert Find(whole) == |line| by {
      assert whole[|line|] == NEWLINE && forall j | 0 <= j < |line| :: whole[j] == line[j];
      FindIsFirst(line, |line|);
      FindIsFirst(whole, |line|);
    }
    assert whole[..|line|] == line && whole[|line| + 1..] == [];
    hide OneLine, Find;
    assert Consume(env, a, OneLine(env, a, core, line).core, []) == Running([], OneLine(env, a, core, line).core);
  }

  lemma {:induction false} OneLineWrites(env: Env, a: Approval, core: Core, line: Bytes)
    ensures core.trace <= OneLine(env, a, core, line).core.trace
    ensures OneLine(env, a, core, line).Running? ==> |core.trace| < |OneLine(env, a, core, line).core.trace|
  {
  }

  lemma {:induction false} ConsumeOnlyWrites(env: Env, a: Approval, core: Core, data: Bytes)
    ensures core.trace <= Consume(env, a, core, data).core.trace
    decreases |data|
  {
    hide OneLine;
    var i := Find(data);
    if i < |data| {
      OneLineWrites(env, a, core, data[..i]);
      var step := OneLine(env, a, core, data[..i]);
      if step.Running? { ConsumeOnlyWrites(env, a, step.core, data[i + 1..]); }
    }
  }

  /** At the bound chunking does matter.  After any run so far, take an acceptable line one byte short of the bound:
      when its newline comes with anything more, the run stops without it; when the newline comes alone, the line is
      written and read on from. */
  lemma {:induction false} BoundDependsOnChunking(env: Env, a: Approval, chunks: seq<Bytes>, core: Core, line: Bytes,
      more: Bytes)
    requires FeedAll(env, a, chunks) == Running([], core)
    requires |line| == MAX_EVENT - 1 && Find(line) == |line| && 0 < |more| <= MAX_EVENT
    requires OneLine(env, a, core, line).Running?
    ensures var one, two := chunks + [line] + [[NEWLINE] + more], chunks + [line + [NEWLINE], more];
            && Joined(one) == Joined(two)
            && FeedAll(env, a, one) == Stopped(core)
            && FeedAll(env, a, two) == Consume(env, a, OneLine(env, a, core, line).core, more)
            && FeedAll(env, a, one) != FeedAll(env, a, two)
  {
    hide *;
    FeedBoth(env, a, chunks, line, [NEWLINE] + more);
    FeedBoth(env, a, chunks, line + [NEWLINE], more);
    RegroupedCuts(chunks, line, more);
    OneWholeLine(env, a, core, line);
    OneLineWrites(env, a, core, line);
    var next := OneLine(env, a, core, line).core;
    ConsumeOnlyWrites(env, a, next, more);
    FeedsAtBound(env, a, core, line, more);
    FeedWhole(env, a, core, line + [NEWLINE]);
    FeedWhole(env, a, next, more);
  }

  lemma {:induction false} RegroupedCuts(chunks: seq<Bytes>, line: Bytes, more: Bytes)
    ensures chunks + [line] + [[NEWLINE] + more] == chunks + [line, [NEWLINE] + more]
    ensures Joined(chunks) + line + ([NEWLINE] + more) == Joined(chunks) + (line + [NEWLINE]) + more
  {
    hide Joined;
  }

  lemma {:induction false} FeedWhole(env: Env, a: Approval, core: Core, data: Bytes)
    requires |data| <= MAX_EVENT
    ensures Feed(env, a, Running([], core), data) == Consume(env, a, core, data)
  {
    hide Consume;
    assert [] + data == data;
  }

  lemma {:induction false} FeedsAtBound(env: Env, a: Approval, core: Core, line: Bytes, more: Bytes)
    requires |line| == MAX_EVENT - 1 && Find(line) == |line| && more != []
    ensures Feed(env, a, Feed(env, a, Running([], core), line), [NEWLINE] + more) == Stopped(core)
  {
    FeedWhole(env, a, core, line);
    ConsumeStep(env, a, core, line);
    hide Consume, OneLine, Find;
  }

  // ---- What an accepted journal is ----

  /** The complete lines of some bytes, and what is left after the last newline. */
  function Lines(data: Bytes): seq<Bytes>
    decreases |data|
  {
    var i := Find(data);
    if i == |data| then [] else [data[..i]] + Lines(data[i + 1..])
  }

  function Rest(data: Bytes): Bytes
    decreases |data|
  {
    var i := Find(data);
    if i == |data| then data else Rest(data[i + 1..])
  }

  function Rejoined(lines: seq<Bytes>): Bytes {
    if lines == [] then [] else lines[0] + [NEWLINE] + Rejoined(lines[1..])
  }

  function Size(lines: seq<Bytes>): nat
    decreases |lines|
  {
    if lines == [] then 0 else Size(lines[..|lines| - 1]) + |lines[|lines| - 1]|
  }

  /** The hash a line declares for its event. */
  function DigestOf(env: Env, line: Bytes): string {
    var f := env.frame(line);
    if f.Some? && f.value.Event? then f.value.sha else ""
  }

  /** The hash entry `k` has to refer back to. */
  function Link(env: Env, lines: seq<Bytes>, k: nat): string
    requires k <= |lines|
  {
    if k == 0 then ZEROS else DigestOf(env, lines[k - 1])
  }

  predicate GoodLine(env: Env, a: Approval, lines: seq<Bytes>, k: nat)
    requires k < |lines|
  {
    Size(lines[..k + 1]) <= MAX_JOURNAL && Continues(env, a, Link(env, lines, k), k, lines[k])
    && MayAck(env, a, BodyOf(env, lines[k]), k + 1)
  }

  /** A contiguous chain from the zeros: entry k+1 carries number k+1 and the hash of entry k. */
  predicate Chain(env: Env, a: Approval, lines: seq<Bytes>) {
    forall k | 0 <= k < |lines| :: GoodLine(env, a, lines, k)
  }

  predicate EndsComplete(env: Env, lines: seq<Bytes>) {
    lines != [] && var f := env.frame(lines[|lines| - 1]);
    f.Some? && f.value.Event? && env.event(f.value.raw).Some? && env.event(f.value.raw).value.kind == "complete"
  }

  /** Each entry written, then acknowledged, then the next. */
  function Trace(env: Env, lines: seq<Bytes>): (trace: seq<Action>)
    ensures |trace| == 2 * |lines|
    decreases |lines|
  {
    if lines == [] then []
    else
      var n := |lines|;
      Trace(env, lines[..n - 1]) + [Persisted(n, lines[n - 1]), Acked(n, DigestOf(env, lines[n - 1]))]
  }

  function After(env: Env, lines: seq<Bytes>): Core {
    Core(Link(env, lines, |lines|), |lines|, Size(lines), EndsComplete(env, lines), Trace(env, lines))
  }

  lemma {:induction false} ChainPrefix(env: Env, a: Approval, lines: seq<Bytes>, more: seq<Bytes>)
    requires Chain(env, a, lines + more)
    ensures Chain(env, a, lines)
  {
    forall k | 0 <= k < |lines|
      ensures GoodLine(env, a, lines, k)
    {
      assert GoodLine(env, a, lines + more, k);
      assert (lines + more)[..k + 1] == lines[..k + 1];
      assert k > 0 ==> (lines + more)[k - 1] == lines[k - 1];
    }
  }

  lemma {:induction false} ChainGrows(env: Env, a: Approval, lines: seq<Bytes>, line: Bytes)
    requires Chain(env, a, lines)
    ensures Chain(env, a, lines + [line]) <==> GoodLine(env, a, lines + [line], |lines|)
  {
    var longer := lines + [line];
    forall k | 0 <= k < |lines|
      ensures GoodLine(env, a, longer, k)
    {
      assert GoodLine(env, a, lines, k);
      assert longer[..k + 1] == lines[..k + 1];
      assert k > 0 ==> longer[k - 1] == lines[k - 1];
    }
  }

  /** One more line keeps the loop running exactly when it continues the chain. */
  lemma {:induction false} OneMoreLine(env: Env, a: Approval, lines: seq<Bytes>, line: Bytes)
    ensures OneLine(env, a, After(env, lines), line).Running? <==> GoodLine(env, a, lines + [line], |lines|)
    ensures OneLine(env, a, After(env, lines), line).Running? ==>
              OneLine(env, a, After(env, lines), line) == Running([], After(env, lines + [line]))
  {
    var longer := lines + [line];
    assert longer[..|lines| + 1] == longer && longer[..|longer| - 1] == lines;
    assert |lines| > 0 ==> longer[|lines| - 1] == lines[|lines| - 1];
    assert Link(env, longer, |lines|) == Link(env, lines, |lines|);
    var step := OneLine(env, a, After(env, lines), line);
    if step.Running? {
      assert Trace(env, lines) + [Persisted(|lines| + 1, line)] + [Acked(|lines| + 1, DigestOf(env, line))]
          == Trace(env, longer);
    }
  }

  lemma {:induction false} ConsumeChains(env: Env, a: Approval, lines: seq<Bytes>, data: Bytes)
    requires Chain(env, a, lines)
    ensures Consume(env, a, After(env, lines), data).Running? <==> Chain(env, a, lines + Lines(data))
    ensures Chain(env, a, lines + Lines(data)) ==>
              Consume(env, a, After(env, lines), data) == Running(Rest(data), After(env, lines + Lines(data)))
    decreases |data|
  {
    hide OneLine, GoodLine, After, Find, Consume, Lines, Rest, Chain;
    var i := Find(data);
    LinesStep(data);
    ConsumeStep(env, a, After(env, lines), data);
    if i == |data| {
      assert lines + Lines(data) == lines;
    } else {
      var line, rest := data[..i], data[i + 1..];
      var longer := lines + [line];
      assert lines + Lines(data) == longer + Lines(rest);
      OneMoreLine(env, a, lines, line);
      ChainGrows(env, a, lines, line);
      if OneLine(env, a, After(env, lines), line).Running? {
        ConsumeChains(env, a, longer, rest);
      } else if Chain(env, a, longer + Lines(rest)) {
        ChainPrefix(env, a, longer, Lines(rest));
        assert false;
      }
    }
  }

  /** Bytes are read through to their end exactly when their lines form the chain; the state then says so. */
  lemma {:induction false} AcceptedExactly(env: Env, a: Approval, chunks: seq<Bytes>)
    requires WithinBound(env, a, chunks)
    ensures var data := Joined(chunks);
            && (FeedAll(env, a, chunks).Running? <==> Chain(env, a, Lines(data)))
            && (Chain(env, a, Lines(data)) ==> FeedAll(env, a, chunks) == Running(Rest(data), After(env, Lines(data))))
  {
    FeedIsConsume(env, a, chunks);
    assert After(env, []) == Start();
    ConsumeChains(env, a, [], Joined(chunks));
    assert [] + Lines(Joined(chunks)) == Lines(Joined(chunks));
  }

  lemma {:induction false} LinesStep(data: Bytes)
    ensures var i := Find(data);
            if i == |data| then Lines(data) == [] && Rest(data) == data
            else Lines(data) == [data[..i]] + Lines(data[i + 1..]) && Rest(data) == Rest(data[i + 1..])
  {
    hide Find;
  }

  lemma {:induction false} CutAtNewline(data: Bytes)
    requires Find(data) < |data|
    ensures data == data[..Find(data)] + [NEWLINE] + data[Find(data) + 1..]
  {
    FindIsFirst(data, Find(data));
    hide Find;
    SplitAt(data, Find(data));
  }

  lemma {:induction false} SplitAt(data: Bytes, i: nat)
    requires i < |data|
    ensures data == data[..i] + [data[i]] + data[i + 1..]
  {
  }

  lemma {:induction false} NothingRejoined(data: Bytes)
    ensures Rejoined([]) + data == data
  {
  }

  lemma {:induction false} RejoinFirst(line: Bytes, lines: seq<Bytes>)
    ensures Rejoined([line] + lines) == line + [NEWLINE] + Rejoined(lines)
  {
    assert ([line] + lines)[1..] == lines;
  }

  lemma {:induction false} LinesRejoin(data: Bytes)
    ensures data == Rejoined(Lines(data)) + Rest(data)
    decreases |data|
  {
    hide Lines, Rest, Rejoined, Find;
    var i := Find(data);
    LinesStep(data);
    if i < |data| {
      var line, rest := data[..i] + [NEWLINE], data[i + 1..];
      LinesRejoin(rest);
      CutAtNewline(data);
      RejoinFirst(data[..i], Lines(rest));
      Regroup(line, Rejoined(Lines(rest)), Rest(rest));
    } else {
      NothingRejoined(data);
    }
  }

  /** A read that was refused for its size leaves the loop stopped, so a run that ends well stayed within the bound. */
  lemma {:induction false} RunningStayedWithin(env: Env, a: Approval, chunks: seq<Bytes>)
    requires FeedAll(env, a, chunks).Running?
    ensures WithinBound(env, a, chunks)
    decreases |chunks|
  {
    if chunks != [] { RunningStayedWithin(env, a, chunks[..|chunks| - 1]); }
  }

  /** The exact form: a run is read through if and only if no read overran the bound and the lines form the chain. */
  lemma {:induction false} ReadThroughExactlyWhen(env: Env, a: Approval, chunks: seq<Bytes>)
    ensures FeedAll(env, a, chunks).Running? <==> WithinBound(env, a, chunks) && Chain(env, a, Lines(Joined(chunks)))
  {
    hide FeedAll, Chain, Lines, Joined;
    if FeedAll(env, a, chunks).Running? { RunningStayedWithin(env, a, chunks); }
    if WithinBound(env, a, chunks) { AcceptedExactly(env, a, chunks); }
  }

  /** A successful stage received exactly its journal: one contiguous chain from the zeros to `complete`, every entry on
      disk before its acknowledgement, and not one byte besides. */
  lemma {:induction false} SuccessIsAChain(env: Env, a: Approval, chunks: seq<Bytes>, status: int)
    requires Succeeds(FeedAll(env, a, chunks), status)
    ensures exists lines :: Chain(env, a, lines) && EndsComplete(env, lines) && Joined(chunks) == Rejoined(lines)
                            && FeedAll(env, a, chunks).core.trace == Trace(env, lines)
  {
    RunningStayedWithin(env, a, chunks);
    AcceptedExactly(env, a, chunks);
    LinesRejoin(Joined(chunks));
    var lines := Lines(Joined(chunks));
    assert Joined(chunks) == Rejoined(lines);
    assert Chain(env, a, lines) && EndsComplete(env, lines);
  }

  // ---- Acknowledgements, whatever happens ----

  ghost predicate AcksFollow(env: Env, trace: seq<Action>) {
    forall i | 0 <= i < |trace| && trace[i].Acked? ::
      i > 0 && trace[i - 1].Persisted? && trace[i - 1].n == trace[i].n
          && DigestOf(env, trace[i - 1].line) == trace[i].sha
  }

  lemma {:induction false} OneLineAcks(env: Env, a: Approval, core: Core, line: Bytes)
    requires AcksFollow(env, core.trace)
    ensures AcksFollow(env, OneLine(env, a, core, line).core.trace)
  {
  }

  lemma {:induction false} ConsumeAcks(env: Env, a: Approval, core: Core, data: Bytes)
    requires AcksFollow(env, core.trace)
    ensures AcksFollow(env, Consume(env, a, core, data).core.trace)
    decreases |data|
  {
    hide OneLine, AcksFollow;
    var i := Find(data);
    if i < |data| {
      OneLineAcks(env, a, core, data[..i]);
      var step := OneLine(env, a, core, data[..i]);
      if step.Running? { ConsumeAcks(env, a, step.core, data[i + 1..]); }
    }
  }

  /** However a run ends, each acknowledgement sent was for the entry written just before it. */
  lemma {:induction false} EveryAckFollowsItsEntry(env: Env, a: Approval, chunks: seq<Bytes>)
    ensures AcksFollow(env, FeedAll(env, a, chunks).core.trace)
    decreases |chunks|
  {
    if chunks != [] {
      var before := FeedAll(env, a, chunks[..|chunks| - 1]);
      EveryAckFollowsItsEntry(env, a, chunks[..|chunks| - 1]);
      hide AcksFollow;
      if before.Running? { ConsumeAcks(env, a, before.core, before.pending + chunks[|chunks| - 1]); }
    }
  }

  // ---- The final hash fixes the whole journal ----

  function EventText(env: Env, line: Bytes): Option<Bytes> {
    var f := env.frame(line);
    if f.Some? && f.value.Event? then Some(f.value.raw) else None
  }

  lemma {:induction false} SameDigestSameEvent(env: Env, a: Approval, one: seq<Bytes>, i: nat, two: seq<Bytes>, j: nat)
    requires forall x, y | env.sha(x) == env.sha(y) :: x == y
    requires Chain(env, a, one) && Chain(env, a, two) && i < |one| && j < |two|
             && DigestOf(env, one[i]) == DigestOf(env, two[j])
    ensures i == j && forall k | 0 <= k <= i :: EventText(env, one[k]) == EventText(env, two[k])
    decreases i
  {
    assert GoodLine(env, a, one, i) && GoodLine(env, a, two, j);
    assert EventText(env, one[i]) == EventText(env, two[j]);
    if i > 0 { SameDigestSameEvent(env, a, one, i - 1, two, j - 1); }
  }

  /** While SHA-256 does not collide, two successful runs that report the same final hash hold the same events. */
  lemma FinalHashFixesJournal(env: Env, a: Approval, one: seq<Bytes>, two: seq<Bytes>)
    requires forall x, y | env.sha(x) == env.sha(y) :: x == y
    requires Chain(env, a, one) && Chain(env, a, two) && one != [] && two != []
    requires Link(env, one, |one|) == Link(env, two, |two|)
    ensures |one| == |two| && forall k | 0 <= k < |one| :: EventText(env, one[k]) == EventText(env, two[k])
  {
    SameDigestSameEvent(env, a, one, |one| - 1, two, |two| - 1);
  }
}
