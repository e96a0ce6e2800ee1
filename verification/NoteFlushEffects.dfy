/** What every save and every flush leaves behind, reply by reply, and that a refused note is sent again. */
module NoteFlushEffects {
  import opened NoteFlush
  import opened NoteFlushTheorems

  // ---- When a POST is sent ----

  /** No mark, a complete page without the token, and for a structured note a passed check and nothing newer. */
  predicate MaySend(rec: Record, o: Oracle) {
    && !rec.started && !rec.accepted && o.page == Page(false, true)
    && (rec.kind == StructuredNote ==> o.precheck == Proceed && !o.superseded)
  }

  predicate Sends(rec: Record, o: Oracle) {
    MaySend(rec, o) && o.marker == Saved && o.crash != BeforeMarker && o.crash != BeforePost
  }

  /** A flush sends its note exactly once when nothing bars it, and otherwise not at all. */
  lemma SendsExactly(w: World, path: string, o: Oracle)
    requires path in w.store && w.store[path].kind != Intent
    ensures var t, rec := FlushNote(w, path, o).world, w.store[path];
            && (Sends(rec, o) ==>
                  && |t.attempts| == |w.attempts| + 1 && t.attempts[..|w.attempts|] == w.attempts
                  && t.attempts[|w.attempts|].token == rec.token && t.attempts[|w.attempts|].sender == ByFlush
                  && (t.attempts[|w.attempts|].absent <==> rec.token !in w.landed)
                  && (t.attempts[|w.attempts|].answer == NoAnswer <==> o.reply.PostLost?)
                  && (t.attempts[|w.attempts|].answer == Refused <==> o.reply.PostRejected?)
                  && (o.reply.PostAnswered? ==> t.attempts[|w.attempts|].answer == Answered(o.reply.ok)))
            && (!Sends(rec, o) ==> t.attempts == w.attempts && t.landed == w.landed)
            && t.saved == w.saved
  {
    AppendsExactly(w, path, o);
    hide FlushNote, Sends;
  }

  lemma AppendsExactly(w: World, path: string, o: Oracle)
    requires path in w.store && w.store[path].kind != Intent
    ensures var t, rec := FlushNote(w, path, o).world, w.store[path];
            && t.saved == w.saved
            && (!Sends(rec, o) ==> t.attempts == w.attempts && t.landed == w.landed)
            && (Sends(rec, o) ==>
                  t.attempts == w.attempts + [Attempt(rec.token, ByFlush, AnswerOf(o.reply), rec.token !in w.landed)])
  {
    PostAppends(w, path, w.store[path], o);
    hide PostOnce, AnswerOf;
  }

  lemma PostAppends(w: World, path: string, rec: Record, o: Oracle)
    ensures var t := PostOnce(w, path, rec, o).world;
            && t.saved == w.saved
            && (if o.crash != BeforeMarker && o.marker == Saved && o.crash != BeforePost then
                  t.attempts == w.attempts + [Attempt(rec.token, ByFlush, AnswerOf(o.reply), rec.token !in w.landed)]
                else t.attempts == w.attempts && t.landed == w.landed)
  {
    hide AnswerOf, Lands;
  }

  /** The history grows by this note exactly when the server says it landed. */
  lemma LandsExactly(w: World, path: string, o: Oracle)
    requires path in w.store && w.store[path].kind != Intent && Sends(w.store[path], o)
    ensures var t, token := FlushNote(w, path, o).world, w.store[path].token;
            && (o.reply.PostRejected? ==> t.landed == w.landed)
            && (!o.reply.PostRejected? ==>
                  t.landed == if o.reply.landed then w.landed + multiset{token} else w.landed)
  {
  }

  // ---- What stays in the store ----

  /** A flush that does not get as far as its marker leaves the store alone, unless the token is in the history. */
  lemma UnsentLeaves(w: World, path: string, o: Oracle)
    requires path in w.store && w.store[path].kind != Intent && !MaySend(w.store[path], o)
    ensures var r, rec := FlushNote(w, path, o), w.store[path];
            var checked := rec.kind == StructuredNote && !rec.accepted && !rec.started;
            if checked && o.precheck == Refuse then r == After(w, Kept(false))
            else if checked && o.precheck == TrackerDown then r == After(w, Unavailable)
            else if o.page == PageDown then r == After(w, Unavailable)
            else if o.page == PageMalformed then r == After(w, Kept(false))
            else if !o.page.seen then r == After(w, Kept(true))
            else if o.crash == BeforeRemove then r == After(w, Crashed)
            else if !o.removed then r == After(w, LocalFailure)
            else r.outcome == Flushed && r.world.store == w.store - {path}
  {
  }

  function Mark(rec: Record, started: bool, accepted: bool): Record { Record(rec.kind, rec.token, started, accepted) }

  /** Before the POST only the marker is at stake: it is on disk unless its write failed early or never began. */
  lemma MarkerLeaves(w: World, path: string, o: Oracle)
    requires path in w.store && w.store[path].kind != Intent && MaySend(w.store[path], o) && !Sends(w.store[path], o)
    ensures var r, rec := FlushNote(w, path, o), w.store[path];
            && (o.crash == BeforeMarker ==> r.outcome == Crashed && r.world.store == w.store)
            && (o.crash != BeforeMarker ==>
                  && (o.marker == FailedBefore ==> r.world.store == w.store)
                  && (o.marker != FailedBefore ==> r.world.store == w.store[path := Mark(rec, true, false)])
                  && (r.outcome == LocalFailure <==> o.marker != Saved)
                  && (r.outcome == Crashed <==> o.marker == Saved))
  {
    var rec := w.store[path];
    assert rec.(started := true) == Mark(rec, true, false);
  }

  /** What rewriting the marked record to `rec` leaves: the started mark stays only when the write failed early. */
  function Rewritten(w: World, path: string, rec: Record, settle: Save): map<string, Record> {
    w.store[path := if settle == FailedBefore then Mark(rec, true, false) else rec]
  }

  /** After the POST, reply by reply: a lost reply leaves the started mark, a clean refusal takes it back, an answer not
      read back leaves started, and accepted too if it was a 2xx, and a note read back is removed. */
  lemma ReplyLeaves(w: World, path: string, o: Oracle)
    requires path in w.store && w.store[path].kind != Intent && Sends(w.store[path], o) && o.crash != AfterPost
    ensures var r, rec := FlushNote(w, path, o), w.store[path];
            match o.reply
            case PostLost(_) =>
              r.outcome == Unavailable && r.world.store == w.store[path := Mark(rec, true, false)]
            case PostRejected =>
              && r.world.store == Rewritten(w, path, rec, o.settle)
              && r.outcome == if o.settle == Saved then Kept(false) else LocalFailure
            case PostAnswered(ok, _, Visible) =>
              if o.crash == BeforeRemove then
                r.outcome == Crashed && r.world.store == w.store[path := Mark(rec, true, false)]
              else if o.removed then r.outcome == Flushed && r.world.store == w.store - {path}
              else r.outcome == LocalFailure && r.world.store == w.store[path := Mark(rec, true, false)]
            case PostAnswered(ok, _, readBack) =>
              && r.world.store == (if ok then Rewritten(w, path, Mark(rec, true, true), o.settle)
                                   else w.store[path := Mark(rec, true, false)])
              && r.outcome == if ok && o.settle != Saved then LocalFailure
                              else if readBack == ReadDown then Unavailable else Kept(true)
  {
    var rec := w.store[path];
    assert rec.(started := true) == Mark(rec, true, false);
    assert rec.(started := true, accepted := true) == Mark(rec, true, true);
    assert w.store[path := Mark(rec, true, false)][path := rec] == w.store[path := rec] == w.store;
    assert w.store[path := Mark(rec, true, false)][path := Mark(rec, true, true)]
        == w.store[path := Mark(rec, true, true)];
    assert w.store[path := Mark(rec, true, false)] - {path} == w.store - {path};
  }

  /** A crash right after the POST leaves the started mark. */
  lemma CrashLeaves(w: World, path: string, o: Oracle)
    requires path in w.store && w.store[path].kind != Intent && Sends(w.store[path], o) && o.crash == AfterPost
    ensures var r, rec := FlushNote(w, path, o), w.store[path];
            r.world.store == w.store[path := Mark(rec, true, false)] && r.outcome == Crashed
  {
    var rec := w.store[path];
    assert rec.(started := true) == Mark(rec, true, false);
  }

  // ---- A refused note is sent again ----

  /** A clean refusal is forgotten: the store is as before, and the next flush with a complete page sends the note once
      more, exactly once; whatever the second reply is. */
  lemma RefusedNoteIsSentAgain(w: World, path: string, first: Oracle, second: Oracle)
    requires path in w.store && w.store[path].kind != Intent
    requires Sends(w.store[path], first) && first.crash == NoCrash && first.reply == PostRejected
             && first.settle == Saved
    requires Honest(w, w.store[path].token, first)
    requires second.page.Page? && second.page.complete
    requires Honest(FlushNote(w, path, first).world, w.store[path].token, second)
    requires w.store[path].kind == StructuredNote ==> second.precheck == Proceed && !second.superseded
    requires second.marker == Saved && second.crash == NoCrash
    ensures var t := FlushNote(w, path, first).world;
            && t.store == w.store && t.landed == w.landed
            && var u, token := FlushNote(t, path, second).world, w.store[path].token;
               && |u.attempts| == |w.attempts| + 2 && u.attempts[..|w.attempts|] == w.attempts
               && u.attempts[|w.attempts|] == Attempt(token, ByFlush, Refused, true)
               && u.attempts[|w.attempts| + 1].token == token && u.attempts[|w.attempts| + 1].sender == ByFlush
  {
    var t := FlushNote(w, path, first).world;
    SendsExactly(w, path, first);
    LandsExactly(w, path, first);
    ReplyLeaves(w, path, first);
    hide FlushNote;
    SendsExactly(t, path, second);
    var u := FlushNote(t, path, second).world;
    assert u.attempts[..|w.attempts|] == t.attempts[..|w.attempts|];
    assert u.attempts[|w.attempts|] == t.attempts[|w.attempts|];
  }

  /** The note is sent and cleanly refused, and its record rewritten. */
  predicate RefusedBy(rec: Record, o: Oracle) {
    Sends(rec, o) && o.crash == NoCrash && o.reply == PostRejected && o.settle == Saved
  }

  lemma RefusedOnce(w: World, path: string, o: Oracle)
    requires path in w.store && w.store[path].kind != Intent && RefusedBy(w.store[path], o)
    ensures var t := FlushNote(w, path, o).world;
            t.store == w.store && t.landed == w.landed && |t.attempts| == |w.attempts| + 1
  {
    SendsExactly(w, path, o);
    LandsExactly(w, path, o);
    ReplyLeaves(w, path, o);
    hide FlushNote;
  }

  /** And any number of refusals later the note is still unmarked and unsent to the history. */
  lemma {:induction false} RefusalsChangeNothing(w: World, path: string, os: seq<Oracle>)
    requires path in w.store && w.store[path].kind != Intent
    requires forall i | 0 <= i < |os| :: RefusedBy(w.store[path], os[i])
    ensures var t := Run(w, seq(|os|, i requires 0 <= i < |os| => FlushOp(path, os[i])));
            t.store == w.store && t.landed == w.landed && |t.attempts| == |w.attempts| + |os|
    decreases |os|
  {
    hide FlushNote, RefusedBy;
    var ops := seq(|os|, i requires 0 <= i < |os| => FlushOp(path, os[i]));
    if os != [] {
      var n := |os| - 1;
      var less := os[..n];
      RefusalsChangeNothing(w, path, less);
      assert ops[..n] == seq(|less|, i requires 0 <= i < |less| => FlushOp(path, less[i]));
      RefusedOnce(Run(w, ops[..n]), path, os[n]);
    }
  }

  // ---- Saving ----

  /** What a comment leaves: nothing when it was refused or read back, and otherwise an unstarted record that remembers
      a 2xx. */
  lemma CommentLeaves(w: World, path: string, kind: Kind, token: string, reply: PostReply, saves: bool)
    ensures var t := Step(w, Comment(path, kind, token, reply, saves));
            && (saves && (reply.PostLost? || (reply.PostAnswered? && reply.readBack != Visible)) ==>
                  && t.store == w.store[path := Record(kind, token, false, reply.PostAnswered? && reply.ok)]
                  && t.saved == w.saved + {token})
            && (!saves || reply.PostRejected? || (reply.PostAnswered? && reply.readBack == Visible) ==>
                  t.store == w.store && t.saved == w.saved)
            && |t.attempts| == |w.attempts| + 1 && t.attempts[..|w.attempts|] == w.attempts
            && t.attempts[|w.attempts|].token == token && t.attempts[|w.attempts|].sender == ByCommand
            && (t.attempts[|w.attempts|].answer == NoAnswer <==> reply.PostLost?)
            && (t.attempts[|w.attempts|].answer == Refused <==> reply.PostRejected?)
            && (reply.PostAnswered? ==> t.attempts[|w.attempts|].answer == Answered(reply.ok))
            && t.landed == if !reply.PostRejected? && reply.landed then w.landed + multiset{token} else w.landed
  {
  }

  /** An offline note is stored unmarked, and nothing is sent. */
  lemma CheckpointLeaves(w: World, path: string, token: string)
    ensures var t := Step(w, Checkpoint(path, token));
            && t.store == w.store[path := Record(Note, token, false, false)] && t.saved == w.saved + {token}
            && t.attempts == w.attempts && t.landed == w.landed
  {
  }

  // ---- A whole flush ----

  /** A failing local store, an unreachable tracker or a crash ends the whole flush: no later record is touched. */
  lemma {:induction false} NothingAfterAStop(w: World, names: seq<string>, os: seq<Oracle>, i: nat)
    requires |names| == |os| && i <= |names|
    requires FlushAll(w, names[..i], os[..i]).outcome in {LocalFailure, Unavailable, Crashed}
    ensures FlushAll(w, names, os) == FlushAll(w, names[..i], os[..i])
    decreases |names|
  {
    hide FlushNote;
    if i == |names| {
      assert names[..i] == names && os[..i] == os;
    } else {
      var n := |names| - 1;
      assert names[..n][..i] == names[..i] && os[..n][..i] == os[..i];
      NothingAfterAStop(w, names[..n], os[..n], i);
    }
  }

  /** A flushed or kept record lets the flush go on: the next stored note gets its turn, intents and missing files do
      not. */
  lemma {:induction false} OtherwiseTheNext(w: World, names: seq<string>, os: seq<Oracle>, i: nat)
    requires i < |names| == |os|
    requires FlushAll(w, names[..i], os[..i]).outcome.Flushed? || FlushAll(w, names[..i], os[..i]).outcome.Kept?
    ensures var so, next := FlushAll(w, names[..i], os[..i]), FlushAll(w, names[..i + 1], os[..i + 1]);
            && (names[i] in so.world.store && so.world.store[names[i]].kind in {Note, StructuredNote} ==>
                  next == FlushNote(so.world, names[i], os[i]))
            && (names[i] !in so.world.store || so.world.store[names[i]].kind == Intent ==> next == so)
  {
    FlushNext(w, names, os, i);
    hide FlushNote, FlushAll;
  }
}
