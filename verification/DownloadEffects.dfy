/** One attempt of a download and a whole run once more, in terms of the bytes kept and received alone. */
module DownloadEffects {
  import opened Common
  import opened Download

  // ---- One attempt ----

  /** The partial file the attempt starts from: dropped when it holds something that cannot be read back. */
  function Kept(part: Option<Bytes>, unreadable: bool): Option<Bytes> {
    match part
    case None => None
    case Some(bytes) => if bytes != [] && unreadable then None else part
  }

  /** What the body is appended to: the kept bytes after a 206, and nothing after any other status. */
  function Start(part: Option<Bytes>, t: Attempt): Bytes
    requires t.answer.Reply?
  {
    match Kept(part, t.unreadable)
    case None => []
    case Some(bytes) => if t.answer.status == 206 then bytes else []
  }

  /** The size the server told: the total of its content range, or else what it announced after what is kept. */
  function Told(a: Answer, start: nat): int
    requires a.Reply?
  {
    if a.rangeTotal.Some? then a.rangeTotal.value
    else if a.length.Some? then start + a.length.value
    else 0
  }

  predicate MayRetry(e: Error) {
    e.Transport? || (e.Http? && (e.code == 408 || e.code == 425 || e.code == 429 || e.code == 500 || e.code == 502
                                 || e.code == 503 || e.code == 504))
  }

  function Ends(again: bool, part: Option<Bytes>): Step { if again then Again(part) else Stop(part) }

  /** A refused request leaves what was kept, and is tried again unless the error is final or this was the last try. */
  lemma RefusedExactly(sha: Hash, expected: Option<string>, last: bool, part: Option<Bytes>, t: Attempt)
    requires t.answer.Refused?
    ensures Once(sha, expected, last, part, t) == Ends(MayRetry(t.answer.error) && !last, Kept(part, t.unreadable))
  {
  }

  /** A reply leaves what it was appended to and its whole body: to be continued when it broke off or is shorter than
      told, dropped when the hash differs, and otherwise the content. */
  lemma {:induction false} ReplyExactly(sha: Hash, expected: Option<string>, last: bool, part: Option<Bytes>,
      t: Attempt)
    requires t.answer.Reply?
    ensures var start := Start(part, t);
            var content := start + Joined(t.answer.blocks);
            Once(sha, expected, last, part, t)
            == if t.answer.broken.Some? then Ends(MayRetry(t.answer.broken.value) && !last, Some(content))
               else if |content| < Told(t.answer, |start|) then Ends(!last, Some(content))
               else if expected.Some? && expected.value != "" && expected.value != sha(content) then Stop(None)
               else Got(content)
  {
    assert Base(Seeded(part, t.unreadable), t.answer.status) == Start(part, t);
    hide Joined;
  }

  // ---- A whole run ----

  /** The attempts are made one after the other, each on what the one before left, and only the one that uses up the
      retries is the last. */
  lemma RunsOn(sha: Hash, expected: Option<string>, retries: int, attempts: seq<Attempt>, n: nat, part: Option<Bytes>)
    requires n <= retries < |attempts|
    ensures var step, out := Once(sha, expected, n == retries, part, attempts[n]),
                             Run(sha, expected, retries, attempts, n, part);
            && (step.Again? ==> out == Run(sha, expected, retries, attempts, n + 1, step.part))
            && (step.Stop? ==> out == Failed(step.part))
            && (step.Got? ==> out == Done(step.content))
            && (n == retries ==> !step.Again?)
  {
  }

  /** A connection that breaks off every time still makes progress: whatever arrived stays, and once the pieces make up
      the content the download is done. */
  lemma {:induction false} PiecesAddUp(sha: Hash, expected: Option<string>, retries: int, attempts: seq<Attempt>,
      n: nat, part: Option<Bytes>, x: Bytes)
    requires n <= retries < |attempts|
    requires forall k | n <= k <= retries ::
               && !attempts[k].unreadable && attempts[k].answer.Reply? && attempts[k].answer.status == 206
               && attempts[k].answer.broken == (if k < retries then Some(Transport) else None)
               && attempts[k].answer.rangeTotal == Some(|x|)
    requires x == Prefix(part) + Pieces(attempts, n, retries)
    requires expected.Some? && expected.value != "" ==> sha(x) == expected.value
    ensures Run(sha, expected, retries, attempts, n, part) == Done(x)
    decreases retries - n
  {
    var t := attempts[n];
    var content := Prefix(part) + Joined(t.answer.blocks);
    ReplyExactly(sha, expected, n == retries, part, t);
    RunsOn(sha, expected, retries, attempts, n, part);
    assert Start(part, t) == Prefix(part);
    hide Once, Run, Joined;
    if n < retries {
      Regroup(Prefix(part), Joined(t.answer.blocks), Pieces(attempts, n + 1, retries));
      PiecesAddUp(sha, expected, retries, attempts, n + 1, Some(content), x);
    }
  }

  /** The bodies of attempts n to m, one after the other. */
  function Pieces(attempts: seq<Attempt>, n: nat, m: nat): Bytes
    requires n <= m < |attempts| && forall k | n <= k <= m :: attempts[k].answer.Reply?
    decreases m - n
  {
    if n == m then Joined(attempts[n].answer.blocks) else Joined(attempts[n].answer.blocks) + Pieces(attempts, n + 1, m)
  }

  /** What blocks make up together: nothing for none, and two series one after the other for both. */
  lemma {:induction false} JoinedExactly(a: seq<Bytes>, b: seq<Bytes>)
    ensures Joined([]) == [] && Joined(a + b) == Joined(a) + Joined(b)
    ensures forall block: Bytes :: Joined([block]) == block
    decreases |b|
  {
    forall block: Bytes ensures Joined([block]) == block { assert [block][..0] == []; }
    if b == [] {
      assert a + b == a;
    } else {
      var less, last := b[..|b| - 1], b[|b| - 1];
      assert (a + b)[..|a + b| - 1] == a + less;
      JoinedExactly(a, less);
      Regroup(Joined(a), Joined(less), last);
    }
  }
}
