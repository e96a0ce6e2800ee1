/** At most one delivery and no lost note, over every series of saves and flushes. */
module NoteFlushTheorems {
  import opened NoteFlush

  // ---- One flush of one record, by cases ----

  /** Either the record stays as it was, or only its marker changed, or it was removed because its token landed;
      and a POST happens at most once, only from an unmarked record whose token had not landed. */
  ghost predicate FlushEffect(w: World, path: string, o: Oracle, t: World)
    requires path in w.store
  {
    var rec := w.store[path];
    && t.saved == w.saved
    && (t.store == w.store
        || (t.store == w.store - {path} && rec.token in t.landed)
        || (exists s, a :: t.store == w.store[path := rec.(started := s, accepted := a)]))
    && ((t.attempts == w.attempts && t.landed == w.landed
         && (rec.started || rec.accepted ==> t.store == w.store || path !in t.store))
        || (!rec.started && !rec.accepted && rec.token !in w.landed
            && t.attempts == w.attempts + [Attempt(rec.token, ByFlush, AnswerOf(o.reply), true)]
            && t.landed == (if Lands(o.reply) then w.landed + multiset{rec.token} else w.landed)
            && (path in t.store && !o.reply.PostRejected? ==> t.store[path].started || t.store[path].accepted)))
  }

  lemma SettleEffect(w: World, w2: World, path: string, o: Oracle)
    requires path in w.store && Honest(w, w.store[path].token, o)
    requires var rec := w.store[path];
             !rec.started && !rec.accepted && rec.token !in w.landed
             && w2 == Posted(w.(store := w.store[path := rec.(started := true)]), rec.token, ByFlush, o.reply)
    ensures FlushEffect(w, path, o, SettlePost(w2, path, w.store[path], o).world)
  {
    var rec := w.store[path];
    var t := SettlePost(w2, path, rec, o).world;
    if path in t.store {
      assert t.store == w.store[path := rec.(started := t.store[path].started, accepted := t.store[path].accepted)];
    } else {
      assert t.store == w.store - {path};
    }
  }

  lemma PostEffect(w: World, path: string, o: Oracle)
    requires path in w.store && Honest(w, w.store[path].token, o)
    requires !w.store[path].started && !w.store[path].accepted && w.store[path].token !in w.landed
    ensures FlushEffect(w, path, o, PostOnce(w, path, w.store[path], o).world)
  {
    var rec := w.store[path];
    var w1 := w.(store := w.store[path := rec.(started := true)]);
    var t := PostOnce(w, path, rec, o).world;
    if o.crash == BeforeMarker || o.marker != Saved || o.crash == BeforePost {
      assert t.store == w.store || t.store == w.store[path := rec.(started := true, accepted := rec.accepted)];
    } else if o.crash == AfterPost {
      assert t.store == w.store[path := rec.(started := true, accepted := rec.accepted)];
    } else {
      SettleEffect(w, Posted(w1, rec.token, ByFlush, o.reply), path, o);
    }
  }

  lemma FlushNoteEffect(w: World, path: string, o: Oracle)
    requires path in w.store && w.store[path].kind != Intent && Honest(w, w.store[path].token, o)
    ensures FlushEffect(w, path, o, FlushNote(w, path, o).world)
  {
    var rec := w.store[path];
    if o.page.Page? && !o.page.seen && !rec.started && !rec.accepted && o.page.complete {
      PostEffect(w, path, o);
    }
  }

  // ---- The invariant over every run ----

  lemma FlushKeepsMarks(w: World, path: string, o: Oracle, t: World)
    requires path in w.store && FlushEffect(w, path, o, t) && Marked(w) && RepostsSound(w) && OnePerToken(w)
    ensures Marked(t) && RepostsSound(t)
  {
    var rec := w.store[path];
    assert forall i | 0 <= i < |w.attempts| :: t.attempts[i] == w.attempts[i];
    assert !rec.started && !rec.accepted ==>
        forall i | 0 <= i < |w.attempts| && w.attempts[i].token == rec.token :: Repostable(w.attempts[i]);
  }

  lemma FlushKeepsNotes(w: World, path: string, o: Oracle, t: World)
    requires path in w.store && FlushEffect(w, path, o, t) && NothingLost(w) && OnePerToken(w) && LandedOnce(w)
    ensures NothingLost(t) && OnePerToken(t) && LandedOnce(t)
  {
    forall x | x in t.saved
      ensures x in t.landed || exists p :: p in t.store && t.store[p].token == x
    {
      if x !in t.landed {
        var p :| p in w.store && w.store[p].token == x;
        assert p in t.store && t.store[p].token == x;
      }
    }
  }

  lemma SaveKeeps(w: World, t: World, path: string, rec: Record)
    requires Inv(w) && path !in w.store && !Known(w, rec.token) && !rec.started
    requires t.store in {w.store, w.store[path := rec]}
    requires t.attempts == w.attempts
             || exists answer :: t.attempts == w.attempts + [Attempt(rec.token, ByCommand, answer, true)]
                                 && (path in t.store ==> rec.accepted || answer in {NoAnswer, Answered(false)})
    requires t.landed in {w.landed, w.landed + multiset{rec.token}}
    requires t.saved == if t.store == w.store then w.saved else w.saved + {rec.token}
    ensures Inv(t)
  {
    assert forall i | 0 <= i < |w.attempts| :: w.attempts[i].token != rec.token;
    forall x | x in t.saved
      ensures x in t.landed || exists p :: p in t.store && t.store[p].token == x
    {
      if x !in t.landed {
        if x == rec.token && path in t.store {
          assert t.store[path].token == x;
        } else {
          var p :| p in w.store && w.store[p].token == x;
          assert p in t.store && t.store[p].token == x;
        }
      }
    }
  }

  lemma StepKeeps(w: World, op: Op)
    requires Inv(w) && Allowed(w, op)
    ensures Inv(Step(w, op))
  {
    match op
    case Checkpoint(path, token) => SaveKeeps(w, Step(w, op), path, Record(Note, token, false, false));
    case Comment(path, kind, token, reply, saves) =>
      var rec := SavedFrom(reply, kind, token);
      SaveKeeps(w, Step(w, op), path, if rec.Some? then rec.value else Record(kind, token, false, false));
    case FlushOp(path, o) =>
      if path in w.store && w.store[path].kind != Intent {
        FlushNoteEffect(w, path, o);
        FlushKeepsMarks(w, path, o, Step(w, op));
        FlushKeepsNotes(w, path, o, Step(w, op));
      }
  }

  lemma {:induction false} RunKeeps(w: World, ops: seq<Op>)
    requires Inv(w) && AllowedRun(w, ops)
    ensures Inv(Run(w, ops))
    decreases |ops|
  {
    if ops != [] {
      var before := ops[..|ops| - 1];
      forall i | 0 <= i < |before|
        ensures Allowed(Run(w, before[..i]), before[i])
      {
        assert before[..i] == ops[..i] && before[i] == ops[i];
      }
      RunKeeps(w, before);
      assert Allowed(Run(w, ops[..|ops| - 1]), ops[|ops| - 1]);
      StepKeeps(Run(w, before), ops[|ops| - 1]);
    }
  }

  // ---- What the flush promises ----

  /** A second POST of a note is always sent by flush, with the token absent from the history.  The try before it was
      cleanly refused exactly when flush sent that one too; otherwise it is the very first POST, by the command that
      wrote the note, and got no answer or one that is neither a 2xx nor a 4xx. */
  lemma RepostAfterRefusalExactlyWhen(ops: seq<Op>, i: nat, j: nat)
    requires AllowedRun(START, ops)
    requires i < j < |Run(START, ops).attempts|
    requires Run(START, ops).attempts[i].token == Run(START, ops).attempts[j].token
    ensures var tries := Run(START, ops).attempts;
            && tries[j].sender == ByFlush && tries[j].absent
            && (tries[i].answer == Refused <==> tries[i].sender == ByFlush)
            && (tries[i].sender == ByCommand ==>
                  tries[i].answer in {NoAnswer, Answered(false)}
                  && forall k | 0 <= k < i :: tries[k].token != tries[i].token)
  {
    RunKeeps(START, ops);
  }

  /** So a refusal is not always there: a comment whose own POST was lost is sent again, and nothing was refused. */
  lemma LostCommentIsPostedAgain(o: Oracle)
    requires o.page == Page(false, true) && o.marker == Saved && o.crash == AfterPost && o.reply == PostLost(false)
    ensures var ops := [Comment("p", Note, "t", PostLost(false), true), FlushOp("p", o)];
            && AllowedRun(START, ops)
            && Run(START, ops).attempts == [Attempt("t", ByCommand, NoAnswer, true),
                 Attempt("t", ByFlush, NoAnswer, true)]
  {
    var ops := [Comment("p", Note, "t", PostLost(false), true), FlushOp("p", o)];
    assert ops[..1] == [ops[0]] && ops[..1][..0] == [];
    var w := Step(START, ops[0]);
    assert Run(START, ops[..0]) == START && Run(START, ops[..1]) == w;
    assert w.store == map["p" := Record(Note, "t", false, false)] && w.landed == multiset{};
    assert w.attempts == [Attempt("t", ByCommand, NoAnswer, true)];
    assert Allowed(START, ops[0]) && Allowed(w, ops[1]);
    forall i | 0 <= i < |ops| ensures Allowed(Run(START, ops[..i]), ops[i]) { assert i == 0 || i == 1; }
    assert Run(START, ops) == Step(w, ops[1]);
  }

  /** Every saved note is in the store or in the history, and no note is in the history twice. */
  lemma NeverLostNeverTwice(ops: seq<Op>, token: string)
    requires AllowedRun(START, ops)
    ensures var w := Run(START, ops);
            && w.landed[token] <= 1
            && (token in w.saved ==> token in w.landed || exists p :: p in w.store && w.store[p].token == token)
  {
    RunKeeps(START, ops);
  }

  /** A record leaves the store only with its token in the history, exactly when flush says so. */
  lemma RemovedOnlyOnceLanded(w: World, path: string, o: Oracle)
    requires path in w.store && w.store[path].kind != Intent && Honest(w, w.store[path].token, o)
    ensures var r := FlushNote(w, path, o);
            && (path !in r.world.store <==> r.outcome == Flushed)
            && (r.outcome == Flushed ==> w.store[path].token in r.world.landed)
            && forall p | p != path && p in w.store :: p in r.world.store && r.world.store[p] == w.store[p]
  {
    FlushNoteEffect(w, path, o);
  }

  /** The tracker lets this record be looked up: an unmarked structured note passes its checks and the page is read. */
  predicate LooksUp(rec: Record, o: Oracle) {
    o.page.Page? && (rec.kind == StructuredNote && !rec.accepted && !rec.started ==> o.precheck == Proceed)
  }

  /** Flush may POST it, does, and reads it back: no mark, a complete page, nothing newer, a durable marker, no
      crash. */
  predicate Delivers(rec: Record, o: Oracle)
    requires o.page.Page?
  {
    && !rec.accepted && !rec.started && o.page.complete && (rec.kind == StructuredNote ==> !o.superseded)
    && o.marker == Saved && o.crash in {NoCrash, BeforeRemove} && o.reply.PostAnswered? && o.reply.readBack == Visible
  }

  /** A flush of any note, structured or not, reports success exactly when the token was in the history already or is
      delivered now, and the record can be removed; the token is then in the history exactly once. */
  lemma FlushedExactlyWhen(w: World, path: string, o: Oracle)
    requires path in w.store && w.store[path].kind != Intent && Honest(w, w.store[path].token, o) && LandedOnce(w)
    ensures var r, rec := FlushNote(w, path, o), w.store[path];
            && (r.outcome == Flushed <==>
                  LooksUp(rec, o) && (o.page.seen || Delivers(rec, o)) && o.removed && o.crash != BeforeRemove)
            && (r.outcome == Flushed ==> r.world.store == w.store - {path} && r.world.landed[rec.token] == 1)
            && (r.outcome == Flushed && rec.token in w.landed ==> r.world.attempts == w.attempts)
  {
    var rec := w.store[path];
    assert w.store[path := rec.(started := true)] - {path} == w.store - {path};
  }

  lemma {:induction false} RunOneMore(w: World, ops: seq<Op>, op: Op)
    ensures Run(w, ops + [op]) == Step(Run(w, ops), op)
  {
    hide Step;
    assert (ops + [op])[..|ops|] == ops;
  }

  /** A whole flush is a series of flushes of single records, so everything above holds of it too. */
  lemma {:induction false} WholeFlushIsARun(w: World, names: seq<string>, os: seq<Oracle>)
    requires |names| == |os|
    ensures FlushAll(w, names, os).world == Run(w, SingleFlushes(w, names, os))
    decreases |names|
  {
    hide FlushNote, Stops;
    if names != [] {
      var n := |names| - 1;
      WholeFlushIsARun(w, names[..n], os[..n]);
      var before := SingleFlushes(w, names[..n], os[..n]);
      RunOneMore(w, before, FlushOp(names[n], os[n]));
    }
  }

  /** The single flushes of a whole flush: those before it stopped. */
  function SingleFlushes(w: World, names: seq<string>, os: seq<Oracle>): seq<Op>
    requires |names| == |os|
    decreases |names|
  {
    if names == [] then []
    else
      var n := |names| - 1;
      var before := SingleFlushes(w, names[..n], os[..n]);
      if Stops(FlushAll(w, names[..n], os[..n]).outcome) then before else before + [FlushOp(names[n], os[n])]
  }
}
