/** Flushing locally saved notes to the tracker.  Every answer of the server, every failed local write and every
    crash point is an input; the imperative flush is proved to do what FlushNote says. */
module NoteFlush {
  import opened Common

  datatype Kind = Note | StructuredNote | Intent
  /** started: the POST-started marker is on disk; accepted: a 2xx answer was remembered. */
  datatype Record = Record(kind: Kind, token: string, started: bool, accepted: bool)

  /** Who sends a POST: the command that first wrote the note, or a later flush. */
  datatype Sender = ByCommand | ByFlush
  /** What its sender learns: nothing, a clean 4xx, or an answer that is or is not a 2xx. */
  datatype Answer = NoAnswer | Refused | Answered(ok: bool)
  /** One POST; `absent` says that the token was not in the history when it was sent. */
  datatype Attempt = Attempt(token: string, sender: Sender, answer: Answer, absent: bool)

  /** The local store, and what the server and an observer of the wire know. */
  datatype World = World(store: map<string, Record>, landed: multiset<string>, attempts: seq<Attempt>,
      saved: set<string>)

  datatype Precheck = Proceed | Refuse | TrackerDown
  datatype Page = PageDown | PageMalformed | Page(seen: bool, complete: bool)
  datatype ReadBack = Visible | NotVisible | ReadDown | ReadBroken
  datatype PostReply = PostLost(landed: bool) | PostRejected | PostAnswered(ok: bool, landed: bool, readBack: ReadBack)
  /** A failed atomic write leaves the old record, or the new one when only the directory sync failed. */
  datatype Save = Saved | FailedBefore | FailedAfter
  datatype CrashPoint = NoCrash | BeforeMarker | BeforePost | AfterPost | BeforeRemove

  datatype Oracle = Oracle(precheck: Precheck, page: Page, superseded: bool, marker: Save, reply: PostReply,
                           settle: Save, removed: bool, crash: CrashPoint)

  datatype Outcome = Flushed | Kept(review: bool) | LocalFailure | Unavailable | Crashed

  datatype After = After(world: World, outcome: Outcome)

  function Lands(reply: PostReply): bool {
    match reply
    case PostLost(landed) => landed
    case PostRejected => false
    case PostAnswered(_, landed, _) => landed
  }

  function AnswerOf(reply: PostReply): Answer {
    match reply
    case PostLost(_) => NoAnswer
    case PostRejected => Refused
    case PostAnswered(ok, _, _) => Answered(ok)
  }

  function Written(w: World, path: string, rec: Record, save: Save): World {
    if save == FailedBefore then w else w.(store := w.store[path := rec])
  }

  function Posted(w: World, token: string, sender: Sender, reply: PostReply): World {
    w.(landed := if Lands(reply) then w.landed + multiset{token} else w.landed,
       attempts := w.attempts + [Attempt(token, sender, AnswerOf(reply), token !in w.landed)])
  }

  /** The last act: the record goes only now. */
  function Remove(w: World, path: string, o: Oracle): After {
    if o.crash == BeforeRemove then After(w, Crashed)
    else if o.removed then After(w.(store := w.store - {path}), Flushed)
    else After(w, LocalFailure)
  }

  /** What the flush remembers of an answered POST that it could not read back. */
  function Uncertain(w: World, path: string, rec: Record, o: Oracle): After
    requires o.reply.PostAnswered?
  {
    var after := if o.reply.readBack == ReadDown then Unavailable else Kept(true);
    if !o.reply.ok then After(w, after)
    else After(Written(w, path, rec.(started := true, accepted := true), o.settle),
                 if o.settle == Saved then after else LocalFailure)
  }

  function SettlePost(w: World, path: string, rec: Record, o: Oracle): After {
    match o.reply
    case PostLost(_) => After(w, Unavailable)
    case PostRejected => After(Written(w, path, rec, o.settle), if o.settle == Saved then Kept(false) else LocalFailure)
    case PostAnswered(_, _, readBack) =>
      if readBack == Visible then Remove(w, path, o) else Uncertain(w, path, rec, o)
  }

  /** The marker is durable before the POST is sent. */
  function PostOnce(w: World, path: string, rec: Record, o: Oracle): After {
    if o.crash == BeforeMarker then After(w, Crashed)
    else
      var w1 := Written(w, path, rec.(started := true), o.marker);
      if o.marker != Saved then After(w1, LocalFailure)
      else if o.crash == BeforePost then After(w1, Crashed)
      else
        var w2 := Posted(w1, rec.token, ByFlush, o.reply);
        if o.crash == AfterPost then After(w2, Crashed) else SettlePost(w2, path, rec, o)
  }

  function FlushNote(w: World, path: string, o: Oracle): After
    requires path in w.store && w.store[path].kind != Intent
  {
    var rec := w.store[path];
    if rec.kind == StructuredNote && !rec.accepted && !rec.started && o.precheck != Proceed then
      After(w, if o.precheck == Refuse then Kept(false) else Unavailable)
    else if o.page == PageDown then After(w, Unavailable)
    else if o.page == PageMalformed then After(w, Kept(false))
    else if o.page.seen then Remove(w, path, o)
    else if rec.accepted || rec.started || !o.page.complete || (rec.kind == StructuredNote && o.superseded) then
      After(w, Kept(true))
    else PostOnce(w, path, rec, o)
  }

  /** Flush goes through the listed records in order and stops at a failing local store or an unreachable tracker. */
  function FlushAll(w: World, names: seq<string>, os: seq<Oracle>): After
    requires |names| == |os|
    decreases |names|
  {
    if names == [] then After(w, Flushed)
    else
      var rest := FlushAll(w, names[..|names| - 1], os[..|os| - 1]);
      var name, o := names[|names| - 1], os[|os| - 1];
      if Stops(rest.outcome) || name !in rest.world.store || rest.world.store[name].kind == Intent then rest
      else FlushNote(rest.world, name, o)
  }

  lemma {:induction false} FlushNext(w: World, names: seq<string>, os: seq<Oracle>, i: nat)
    requires i < |names| == |os|
    ensures var so := FlushAll(w, names[..i], os[..i]);
            FlushAll(w, names[..i + 1], os[..i + 1])
            == if Stops(so.outcome) || names[i] !in so.world.store || so.world.store[names[i]].kind == Intent then so
               else FlushNote(so.world, names[i], os[i])
  {
    hide FlushNote;
    assert names[..i + 1][..i] == names[..i] && os[..i + 1][..i] == os[..i];
  }

  predicate Stops(o: Outcome) { o == LocalFailure || o == Unavailable || o == Crashed }

  // ---- The flush, step by step ----

  class Flusher {
    var store: map<string, Record>
    ghost var landed: multiset<string>
    ghost var attempts: seq<Attempt>
    ghost var saved: set<string>

    ghost function Contents(): World
      reads this
    {
      World(store, landed, attempts, saved)
    }

    constructor (w: World)
      ensures Contents() == w
    {
      store, landed, attempts, saved := w.store, w.landed, w.attempts, w.saved;
    }

    method WriteRecord(path: string, rec: Record, save: Save) returns (ok: bool)
      modifies this`store
      ensures Contents() == Written(old(Contents()), path, rec, save) && ok == (save == Saved)
    {
      if save != FailedBefore { store := store[path := rec]; }
      return save == Saved;
    }

    method SendPost(token: string, reply: PostReply)
      modifies this`landed, this`attempts
      ensures Contents() == Posted(old(Contents()), token, ByFlush, reply)
    {
      ghost var absent := token !in landed;
      landed := if Lands(reply) then landed + multiset{token} else landed;
      attempts := attempts + [Attempt(token, ByFlush, AnswerOf(reply), absent)];
    }

    method RemoveRecord(path: string, o: Oracle) returns (out: Outcome)
      modifies this`store
      ensures After(Contents(), out) == Remove(old(Contents()), path, o)
    {
      if o.crash == BeforeRemove { return Crashed; }
      if !o.removed { return LocalFailure; }
      store := store - {path};
      return Flushed;
    }

    method FlushOne(path: string, o: Oracle) returns (out: Outcome)
      requires path in store && store[path].kind != Intent
      modifies this
      ensures After(Contents(), out) == FlushNote(old(Contents()), path, o)
      ensures out == Kept(false) ==> store == old(store)
    {
      var rec := store[path];
      if rec.kind == StructuredNote && !rec.accepted && !rec.started {
        if o.precheck == Refuse { return Kept(false); }
        if o.precheck == TrackerDown { return Unavailable; }
      }
      if o.page == PageDown { return Unavailable; }
      if o.page == PageMalformed { return Kept(false); }
      if !o.page.seen {
        if rec.accepted { return Kept(true); }
        if rec.started { return Kept(true); }
        if !o.page.complete { return Kept(true); }
        if rec.kind == StructuredNote && o.superseded { return Kept(true); }
        if o.crash == BeforeMarker { return Crashed; }
        var ok := WriteRecord(path, rec.(started := true), o.marker);
        if !ok { return LocalFailure; }
        if o.crash == BeforePost { return Crashed; }
        SendPost(rec.token, o.reply);
        if o.crash == AfterPost { return Crashed; }
        match o.reply {
          case PostLost(_) => return Unavailable;
          case PostRejected =>
            ok := WriteRecord(path, rec, o.settle);
            return if ok then Kept(false) else LocalFailure;
          case PostAnswered(accepted, _, readBack) =>
            if readBack != Visible {
              if accepted {
                ok := WriteRecord(path, rec.(started := true, accepted := true), o.settle);
                if !ok { return LocalFailure; }
              }
              return if readBack == ReadDown then Unavailable else Kept(true);
            }
        }
      }
      out := RemoveRecord(path, o);
    }

    method Flush(names: seq<string>, os: seq<Oracle>) returns (out: Outcome)
      requires |names| == |os|
      modifies this
      ensures After(Contents(), out) == FlushAll(old(Contents()), names, os)
    {
      hide FlushNote;
      out := Flushed;
      ghost var start := Contents();
      var i := 0;
      assert FlushAll(start, names[..0], os[..0]) == After(start, Flushed);
      hide FlushAll;
      while i < |names|
        invariant i <= |names|
        invariant After(Contents(), out) == FlushAll(start, names[..i], os[..i])
      {
        FlushNext(start, names, os, i);
        if !Stops(out) && names[i] in store && store[names[i]].kind != Intent {
          out := FlushOne(names[i], os[i]);
        }
        i := i + 1;
      }
      assert names[..i] == names && os[..i] == os;
    }
  }

  // ---- Runs ----

  /** How a note first reaches the store: written offline, or after its own POST by another command. */
  datatype Op =
    | Checkpoint(path: string, token: string)
    | Comment(path: string, kind: Kind, token: string, reply: PostReply, saves: bool)
    | FlushOp(path: string, oracle: Oracle)

  function SavedFrom(reply: PostReply, kind: Kind, token: string): Option<Record> {
    match reply
    case PostLost(_) => Some(Record(kind, token, false, false))
    case PostRejected => None
    case PostAnswered(ok, _, readBack) => if readBack == Visible then None else Some(Record(kind, token, false, ok))
  }

  function SaveRecord(w: World, path: string, rec: Record): World {
    w.(store := w.store[path := rec], saved := w.saved + {rec.token})
  }

  function Step(w: World, op: Op): World {
    match op
    case Checkpoint(path, token) => SaveRecord(w, path, Record(Note, token, false, false))
    case Comment(path, kind, token, reply, saves) =>
      var w1 := Posted(w, token, ByCommand, reply);
      var rec := SavedFrom(reply, kind, token);
      if rec.Some? && saves then SaveRecord(w1, path, rec.value) else w1
    case FlushOp(path, o) =>
      if path in w.store && w.store[path].kind != Intent then FlushNote(w, path, o).world else w
  }

  ghost predicate Tried(w: World, token: string) {
    exists i :: 0 <= i < |w.attempts| && w.attempts[i].token == token
  }

  ghost predicate Known(w: World, token: string) {
    token in w.landed || token in w.saved || Tried(w, token) || exists p :: p in w.store && w.store[p].token == token
  }

  /** An honest server shows only what landed, and a page it calls complete shows all of it. */
  ghost predicate Honest(w: World, token: string, o: Oracle) {
    && (o.page.Page? ==> (o.page.seen ==> token in w.landed) && (o.page.complete && token in w.landed ==> o.page.seen))
    && (o.reply.PostAnswered? && o.reply.readBack == Visible ==> o.reply.landed || token in w.landed)
  }

  /** New notes use new tokens and file names; the server answers honestly. */
  ghost predicate Allowed(w: World, op: Op) {
    match op
    case Checkpoint(path, token) => path !in w.store && !Known(w, token)
    case Comment(path, kind, token, reply, _) =>
      && path !in w.store && !Known(w, token)
      && (reply.PostAnswered? && reply.readBack == Visible ==> reply.landed)
    case FlushOp(path, o) => path in w.store ==> Honest(w, w.store[path].token, o)
  }

  function Run(w: World, ops: seq<Op>): World
    decreases |ops|
  {
    if ops == [] then w else Step(Run(w, ops[..|ops| - 1]), ops[|ops| - 1])
  }

  ghost predicate AllowedRun(w: World, ops: seq<Op>) {
    forall i | 0 <= i < |ops| :: Allowed(Run(w, ops[..i]), ops[i])
  }

  // ---- The invariant ----

  /** A POST after which flush may still send the note: its own try cleanly refused, or the first command's POST lost
      or answered with neither a 2xx nor a 4xx. */
  predicate Repostable(a: Attempt) {
    if a.sender == ByFlush then a.answer == Refused else a.answer in {NoAnswer, Answered(false)}
  }

  /** Any other POST leaves its mark on every record of that token. */
  ghost predicate Marked(w: World) {
    forall i, p | 0 <= i < |w.attempts| && p in w.store && w.attempts[i].token == w.store[p].token ::
      Repostable(w.attempts[i]) || w.store[p].started || w.store[p].accepted
  }

  /** Every POST was sent while its token was absent from the history, and every POST but the first of a token by
      flush, after nothing but repostable ones. */
  ghost predicate RepostsSound(w: World) {
    && (forall i | 0 <= i < |w.attempts| :: w.attempts[i].absent)
    && forall i, j | 0 <= i < j < |w.attempts| && w.attempts[i].token == w.attempts[j].token ::
         Repostable(w.attempts[i]) && w.attempts[j].sender == ByFlush
  }

  ghost predicate NothingLost(w: World) {
    forall t | t in w.saved :: t in w.landed || exists p :: p in w.store && w.store[p].token == t
  }

  ghost predicate OnePerToken(w: World) {
    forall p, q | p in w.store && q in w.store && w.store[p].token == w.store[q].token :: p == q
  }

  ghost predicate LandedOnce(w: World) { forall t :: w.landed[t] <= 1 }

  ghost predicate Inv(w: World) {
    Marked(w) && RepostsSound(w) && NothingLost(w) && OnePerToken(w) && LandedOnce(w)
  }

  const START := World(map[], multiset{}, [], {})
}
