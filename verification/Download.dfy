/** A download that resumes its partial file over several attempts and replaces the destination once. */
module Download {
  import opened Common

  /** An HTTP error status, an error of the connection or the operating system, or anything else. */
  datatype Error = Http(code: int) | Transport | Unexpected

  predicate IsRetryable(e: Error) {
    match e
    case Http(code) => code in {408, 425, 429, 500, 502, 503, 504}
    case Transport => true
    case Unexpected => false
  }

  /** What one attempt met: the request refused, or a reply whose body arrived in blocks and then ended or broke off. */
  datatype Answer =
    | Refused(error: Error)
    | Reply(status: int, rangeTotal: Option<nat>, length: Option<nat>, blocks: seq<Bytes>, broken: Option<Error>)

  datatype Attempt = Attempt(unreadable: bool, answer: Answer)

  /** SHA-256. */
  type Hash = Bytes -> string

  datatype Outcome = Done(content: Bytes) | Failed(part: Option<Bytes>) | Spent(part: Option<Bytes>)
  datatype Step = Again(part: Option<Bytes>) | Stop(part: Option<Bytes>) | Got(content: Bytes)

  function Prefix(part: Option<Bytes>): Bytes { if part.Some? then part.value else [] }

  /** The partial file is dropped when it cannot be read back. */
  function Seeded(part: Option<Bytes>, unreadable: bool): Option<Bytes> {
    if unreadable && Prefix(part) != [] then None else part
  }

  /** What the body is appended to: nothing when the server ignored the range. */
  function Base(part: Option<Bytes>, status: int): Bytes {
    if Prefix(part) != [] && status != 206 then [] else Prefix(part)
  }

  function TotalSize(a: Answer, offset: nat): Option<nat>
    requires a.Reply?
  {
    if a.rangeTotal.Some? then a.rangeTotal else if a.length.Some? then Some(a.length.value + offset) else None
  }

  predicate Short(a: Answer, offset: nat, written: nat)
    requires a.Reply?
  {
    var total := TotalSize(a, offset);
    total.Some? && total.value != 0 && written < total.value
  }

  function Once(sha: Hash, expected: Option<string>, last: bool, part: Option<Bytes>, t: Attempt): Step {
    var seeded := Seeded(part, t.unreadable);
    match t.answer
    case Refused(error) => if !IsRetryable(error) || last then Stop(seeded) else Again(seeded)
    case Reply(status, _, _, blocks, broken) =>
      var base := Base(seeded, status);
      var content := base + Joined(blocks);
      if broken.Some? then (if !IsRetryable(broken.value) || last then Stop(Some(content)) else Again(Some(content)))
      else if Short(t.answer, |base|, |content|) then (if last then Stop(Some(content)) else Again(Some(content)))
      else if expected.Some? && expected.value != "" && sha(content) != expected.value then Stop(None)
      else Got(content)
  }

  /** The attempts from number `n` on. */
  function Run(sha: Hash, expected: Option<string>, retries: int, attempts: seq<Attempt>, n: nat,
      part: Option<Bytes>): Outcome
    requires retries < |attempts|
    decreases retries - n
  {
    if n > retries then Spent(part)
    else
      match Once(sha, expected, n + 1 > retries, part, attempts[n])
      case Again(p) => Run(sha, expected, retries, attempts, n + 1, p)
      case Stop(p) => Failed(p)
      case Got(content) => Done(content)
  }

  /** The files a download touches.  `digest` is what has been fed to the running hash, `requests` counts GETs. */
  class Files {
    var part: Option<Bytes>
    var destination: Option<Bytes>
    var digest: Bytes
    ghost var requests: nat

    constructor (part: Option<Bytes>, destination: Option<Bytes>)
      ensures this.part == part && this.destination == destination && requests == 0
    {
      this.part, this.destination, this.digest, this.requests := part, destination, [], 0;
    }

    /** Re-reads the partial file to seed the hash; on a read error starts over without it. */
    method Seed(unreadable: bool) returns (offset: nat)
      modifies `part, `digest
      ensures part == Seeded(old(part), unreadable) && digest == Prefix(part) && offset == |digest|
    {
      digest := [];
      offset := |Prefix(part)|;
      if offset > 0 {
        if unreadable {
          part := None;
          offset := 0;
        } else {
          digest := Prefix(part);
        }
      }
    }

    /** Appends the body block by block to the file and to the hash. */
    method Transfer(status: int, offset: nat, blocks: seq<Bytes>) returns (start: nat, written: nat)
      requires digest == Prefix(part) && offset == |digest|
      modifies `part, `digest
      ensures start == |Base(old(part), status)|
      ensures part == Some(Base(old(part), status) + Joined(blocks)) && digest == part.value && written == |digest|
    {
      start := offset;
      if offset > 0 && status != 206 {
        start := 0;
        digest := [];
        part := Some([]);
      }
      written := start;
      part := Some(Prefix(part));
      ghost var base := Base(old(part), status);
      assert base + Joined(blocks[..0]) == base;
      var i := 0;
      while i < |blocks|
        invariant 0 <= i <= |blocks| && part == Some(base + Joined(blocks[..i])) && digest == part.value
        invariant written == |digest|
      {
        assert blocks[..i + 1][..i] == blocks[..i];
        assert base + (Joined(blocks[..i]) + blocks[i]) == base + Joined(blocks[..i]) + blocks[i];
        part := Some(part.value + blocks[i]);
        digest := digest + blocks[i];
        written := written + |blocks[i]|;
        i := i + 1;
      }
      assert blocks[..i] == blocks;
    }

    /** One attempt up to its verdict.  At its end the running hash has covered exactly the partial file that is
        left. */
    method TryOnce(sha: Hash, expected: Option<string>, last: bool, t: Attempt) returns (step: Step)
      modifies `part, `digest, `requests
      ensures step == Once(sha, expected, last, old(part), t) && requests == old(requests) + 1
      ensures part == if step.Got? then Some(step.content) else step.part
      ensures part.Some? ==> digest == part.value
    {
      var offset := Seed(t.unreadable);
      requests := requests + 1;
      if t.answer.Refused? { return if !IsRetryable(t.answer.error) || last then Stop(part) else Again(part); }
      var start, written := Transfer(t.answer.status, offset, t.answer.blocks);
      if t.answer.broken.Some? {
        return if !IsRetryable(t.answer.broken.value) || last then Stop(part) else Again(part);
      }
      if Short(t.answer, start, written) { return if last then Stop(part) else Again(part); }
      if expected.Some? && expected.value != "" && sha(digest) != expected.value {
        part := None;
        return Stop(None);
      }
      return Got(digest);
    }

    /** The destination is written only by the final replace, with the returned size and hash; a failure leaves it alone
        and the running hash on what is left of the partial file; and there are at most `retries + 1` requests. */
    method DownloadFile(sha: Hash, expected: Option<string>, retries: int, attempts: seq<Attempt>)
      returns (outcome: Outcome, size: nat, hash: string)
      requires retries < |attempts|
      modifies this
      ensures outcome == Run(sha, expected, retries, attempts, 0, old(part))
      ensures outcome.Done? ==>
                part.None? && destination == Some(outcome.content) && size == |outcome.content|
                    && hash == sha(outcome.content)
      ensures outcome.Done? && expected.Some? && expected.value != "" ==> hash == expected.value
      ensures outcome.Failed? || outcome.Spent? ==> part == outcome.part && destination == old(destination)
      ensures outcome.Failed? && part.Some? ==> digest == part.value
      ensures outcome.Spent? <==> retries < 0
      ensures requests - old(requests) <= if retries < 0 then 0 else retries + 1
    {
      size, hash := 0, "";
      var attempt := 0;
      while attempt <= retries
        invariant 0 <= attempt && (attempt > 0 ==> attempt <= retries)
        invariant destination == old(destination) && requests == old(requests) + attempt
        invariant Run(sha, expected, retries, attempts, 0, old(part))
                  == Run(sha, expected, retries, attempts, attempt, part)
        decreases retries + 1 - attempt
      {
        var t := attempts[attempt];
        attempt := attempt + 1;
        var step := TryOnce(sha, expected, attempt > retries, t);
        match step {
          case Stop(p) => return Failed(p), 0, "";
          case Again(_) =>
          case Got(content) =>
            destination := part;
            part := None;
            return Done(content), |digest|, sha(digest);
        }
      }
      return Spent(part), 0, "";
    }
  }

  // ---- An honest server ----

  predicate IsPrefix(a: Bytes, b: Bytes) { |a| <= |b| && a == b[..|a|] }

  /** A reply for the content `x` that tells its full size and sends, after what it resumes from, only bytes of `x`. */
  predicate Honest(x: Bytes, part: Option<Bytes>, a: Answer) {
    a.Reply? ==>
      var base := Base(part, a.status);
      TotalSize(a, |base|) == Some(|x|) && IsPrefix(base + Joined(a.blocks), x)
  }

  /** Every attempt meets an honest answer to the request it makes. */
  ghost predicate HonestFrom(sha: Hash, expected: Option<string>, retries: int, attempts: seq<Attempt>, n: nat,
      part: Option<Bytes>, x: Bytes)
    requires retries < |attempts|
    decreases retries - n
  {
    n > retries ||
    (&& Honest(x, Seeded(part, attempts[n].unreadable), attempts[n].answer)
     && var step := Once(sha, expected, n + 1 > retries, part, attempts[n]);
        step.Again? ==> HonestFrom(sha, expected, retries, attempts, n + 1, step.part, x))
  }

  /** From any prefix of the content, an honest server can only deliver the whole content, and what is left behind by a
      failure is a prefix again. */
  lemma {:induction false} HonestDelivers(sha: Hash, expected: Option<string>, retries: int, attempts: seq<Attempt>,
      n: nat, part: Option<Bytes>, x: Bytes)
    requires retries < |attempts| && IsPrefix(Prefix(part), x)
             && HonestFrom(sha, expected, retries, attempts, n, part, x)
    ensures var out := Run(sha, expected, retries, attempts, n, part);
            if out.Done? then out.content == x else IsPrefix(Prefix(out.part), x)
    decreases retries - n
  {
    if n <= retries {
      var step := Once(sha, expected, n + 1 > retries, part, attempts[n]);
      if step.Again? { HonestDelivers(sha, expected, retries, attempts, n + 1, step.part, x); }
    }
  }

  /** And it does deliver as soon as one attempt completes, provided every earlier one could be retried. */
  predicate Completes(x: Bytes, part: Option<Bytes>, t: Attempt) {
    t.answer.Reply? && t.answer.broken.None? && Base(Seeded(part, t.unreadable), t.answer.status)
        + Joined(t.answer.blocks) == x
  }

  ghost predicate ReachesCompletion(sha: Hash, expected: Option<string>, retries: int, attempts: seq<Attempt>, n: nat,
      part: Option<Bytes>, x: Bytes)
    requires retries < |attempts|
    decreases retries - n
  {
    n <= retries &&
    (|| Completes(x, part, attempts[n])
     || (var step := Once(sha, expected, n + 1 > retries, part, attempts[n]);
         step.Again? && ReachesCompletion(sha, expected, retries, attempts, n + 1, step.part, x)))
  }

  /** With an honest server the download succeeds exactly when an attempt completes the content before an error that
      ends the retries, and the content has the expected hash. */
  lemma {:induction false} SucceedsExactlyWhen(sha: Hash, expected: Option<string>, retries: int,
      attempts: seq<Attempt>, n: nat, part: Option<Bytes>, x: Bytes)
    requires retries < |attempts| && IsPrefix(Prefix(part), x)
             && HonestFrom(sha, expected, retries, attempts, n, part, x)
    ensures Run(sha, expected, retries, attempts, n, part) == Done(x) <==>
              ReachesCompletion(sha, expected, retries, attempts, n, part, x)
              && (expected.Some? && expected.value != "" ==> sha(x) == expected.value)
    decreases retries - n
  {
    hide Joined, IsRetryable;
    if n <= retries {
      var step := Once(sha, expected, n + 1 > retries, part, attempts[n]);
      if step.Again? { SucceedsExactlyWhen(sha, expected, retries, attempts, n + 1, step.part, x); }
    }
  }

  // ---- A server that honours ranges ----

  /** Sections 14.2 and 15.5.17 of RFC 9110: the rest of the content, or 416 when the range starts at or past its
      end. */
  function RangeAnswer(x: Bytes, offset: nat): Answer {
    if offset == 0 then Reply(200, None, Some(|x|), [x], None)
    else if offset < |x| then Reply(206, Some(|x|), Some(|x| - offset), [x[offset..]], None)
    else Refused(Http(416))
  }

  /** Resuming any proper prefix succeeds at once; a partial file that is already complete, as a crash just before the
      replace leaves it, is refused with 416 on this and every later run, and nothing changes. */
  lemma {:induction false} RangeServerDelivers(sha: Hash, expected: Option<string>, retries: int, part: Option<Bytes>,
      x: Bytes,
      attempts: seq<Attempt>)
    requires 0 <= retries < |attempts| && IsPrefix(Prefix(part), x)
    requires expected.Some? && expected.value != "" ==> sha(x) == expected.value
    requires attempts[0] == Attempt(false, RangeAnswer(x, |Prefix(part)|))
    ensures Run(sha, expected, retries, attempts, 0, part).Done? <==> (|Prefix(part)| < |x| || x == [])
    ensures Run(sha, expected, retries, attempts, 0, part)
            == if |Prefix(part)| < |x| || x == [] then Done(x) else Failed(part)
  {
    var p := Prefix(part);
    assert Joined([x]) == [] + x by { assert [x][..0] == []; }
    if 0 < |p| < |x| {
      assert Joined([x[|p|..]]) == [] + x[|p|..] by { assert [x[|p|..]][..0] == []; }
      assert p + Joined([x[|p|..]]) == p + x[|p|..] == x;
      assert Base(part, 206) == p;
    } else if p == [] {
      assert [] + Joined([x]) == x;
    } else {
      assert p == x;
    }
  }

  // ---- Bodies cut short ----

  /** The partial file attempt number k starts from; None when the run is over before it. */
  function PartAt(sha: Hash, expected: Option<string>, retries: int, attempts: seq<Attempt>, part: Option<Bytes>,
      k: nat): Option<Option<Bytes>>
    requires k <= |attempts|
  {
    if k == 0 then Some(part)
    else
      var before := PartAt(sha, expected, retries, attempts, part, k - 1);
      if before.None? then None
      else
        match Once(sha, expected, k > retries, before.value, attempts[k - 1])
        case Again(p) => Some(p)
        case _ => None
  }

  function ContentOf(part: Option<Bytes>, t: Attempt): Bytes
    requires t.answer.Reply?
  {
    Base(Seeded(part, t.unreadable), t.answer.status) + Joined(t.answer.blocks)
  }

  /** Every reply sends, after what it resumes from, only bytes of `x`; it may stop short and need not tell a size. */
  ghost predicate SendsOnly(sha: Hash, expected: Option<string>, retries: int, attempts: seq<Attempt>,
      part: Option<Bytes>, x: Bytes)
    requires retries < |attempts|
  {
    forall k | 0 <= k <= retries && PartAt(sha, expected, retries, attempts, part, k).Some?
        && attempts[k].answer.Reply? ::
      IsPrefix(ContentOf(PartAt(sha, expected, retries, attempts, part, k).value, attempts[k]), x)
  }

  /** A reply that ends cleanly before the end of `x`, tells no total or one its bytes already reach, and passes the
      hash when one is expected. */
  predicate CutShort(sha: Hash, expected: Option<string>, x: Bytes, part: Option<Bytes>, t: Attempt) {
    && t.answer.Reply? && t.answer.broken.None?
    && var base, content := Base(Seeded(part, t.unreadable), t.answer.status), ContentOf(part, t);
    && |content| < |x|
    && var told := TotalSize(t.answer, |base|);
    && (told.None? || told.value == 0 || told.value <= |content|)
    && (expected.Some? && expected.value != "" ==> sha(content) == expected.value)
  }

  lemma {:induction false} RunsThrough(sha: Hash, expected: Option<string>, retries: int, attempts: seq<Attempt>,
      part: Option<Bytes>, k: nat)
    requires k <= retries < |attempts| && PartAt(sha, expected, retries, attempts, part, k).Some?
    ensures Run(sha, expected, retries, attempts, 0, part)
            == Run(sha, expected, retries, attempts, k, PartAt(sha, expected, retries, attempts, part, k).value)
  {
    if k > 0 { RunsThrough(sha, expected, retries, attempts, part, k - 1); }
  }

  /** A run that ends well does so at some attempt it reached. */
  lemma {:induction false} DoneAt(sha: Hash, expected: Option<string>, retries: int, attempts: seq<Attempt>,
      part: Option<Bytes>, n: nat) returns (k: nat)
    requires n <= retries < |attempts| && PartAt(sha, expected, retries, attempts, part, n).Some?
    requires Run(sha, expected, retries, attempts, n, PartAt(sha, expected, retries, attempts, part, n).value).Done?
    ensures k <= retries && PartAt(sha, expected, retries, attempts, part, k).Some?
    ensures Once(sha, expected, k + 1 > retries, PartAt(sha, expected, retries, attempts, part, k).value, attempts[k])
            == Got(Run(sha, expected, retries, attempts, n, PartAt(sha, expected, retries, attempts, part,
                n).value).content)
    decreases retries - n
  {
    var p := PartAt(sha, expected, retries, attempts, part, n).value;
    var step := Once(sha, expected, n + 1 > retries, p, attempts[n]);
    if step.Again? {
      k := DoneAt(sha, expected, retries, attempts, part, n + 1);
    } else {
      k := n;
    }
  }

  /** Over a whole run against replies that send nothing but bytes of `x`, the download ends well with something else
      than `x` exactly when some attempt it reaches meets such a reply: a proxy that drops the size, or tells one no
      larger than what it sent, goes unnoticed unless a hash is expected. */
  lemma {:induction false} TruncationUndetectedExactlyWhen(sha: Hash, expected: Option<string>, retries: int,
      attempts: seq<Attempt>,
                                        part: Option<Bytes>, x: Bytes)
    requires retries < |attempts| && SendsOnly(sha, expected, retries, attempts, part, x)
    ensures var out := Run(sha, expected, retries, attempts, 0, part);
            (out.Done? && out.content != x) <==>
            exists k | 0 <= k <= retries ::
              && PartAt(sha, expected, retries, attempts, part, k).Some?
              && CutShort(sha, expected, x, PartAt(sha, expected, retries, attempts, part, k).value, attempts[k])
  {
    var out := Run(sha, expected, retries, attempts, 0, part);
    if out.Done? {
      var k := DoneAt(sha, expected, retries, attempts, part, 0);
      var p := PartAt(sha, expected, retries, attempts, part, k).value;
      assert out.content == ContentOf(p, attempts[k]) && IsPrefix(out.content, x);
      if out.content != x { assert CutShort(sha, expected, x, p, attempts[k]); }
    }
    forall k | 0 <= k <= retries && PartAt(sha, expected, retries, attempts, part, k).Some?
               && CutShort(sha, expected, x, PartAt(sha, expected, retries, attempts, part, k).value, attempts[k])
      ensures out.Done? && out.content != x
    {
      RunsThrough(sha, expected, retries, attempts, part, k);
    }
  }
}
