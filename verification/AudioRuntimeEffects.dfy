/** Every step of the job runtime once more, by what it does to the records a client can see: when a job takes on each
    status, in which order jobs are run, which children are ended, and how one job runs from the queue to its end. */
module AudioRuntimeEffects {
  import opened Common
  import opened AudioRuntime
  import opened AudioRuntimeTheorems

  // ---- Status ----

  /** The step gives this job this status on disk, where it was not known or had another one before. */
  predicate Becomes(s: Sys, t: Sys, id: Id, st: Status) {
    && id in t.disk && t.disk[id] == st && !(id in s.disk && s.disk[id] == st)
  }

  // ---- What each kind of step writes ----

  predicate ClientWrites(s: Sys, op: Op, t: Sys)
    requires IsClientOp(op)
  {
    var accepted := op.SubmitOp? && op.modelReady && s.worker != Gone && !s.stopping && |s.queue| < 4;
    && t.disk == (if accepted then s.disk[op.id := Queued]
                  else if op.CancelOp? && op.id in s.jobs && s.jobs[op.id] in {Queued, Running}
                  then s.disk[op.id := Cancelled]
                  else s.disk)
    && t.queue == if accepted then s.queue + [op.id] else s.queue
  }

  predicate WorkerWrites(s: Sys, op: Op, t: Sys) {
    && s.phase == Up && (op == WorkerTake ==> s.worker.Taken?) && (op == WorkerFail ==> s.worker.Failing?)
    && (op.WorkerFinish? ==> s.worker.Judging?)
    && t.disk == if op == WorkerTake && s.worker.id in s.jobs && s.jobs[s.worker.id] == Queued
                 then s.disk[s.worker.id := Running]
                 else if op == WorkerFail && s.worker.id in s.jobs && s.jobs[s.worker.id] in {Queued, Running}
                 then s.disk[s.worker.id := Failed]
                 else if op.WorkerFinish? && s.worker.id in s.jobs && s.jobs[s.worker.id] !in {Cancelled, Interrupted}
                 then s.disk[s.worker.id := if !s.worker.timedOut && s.worker.code == 0 && op.wavValid then Completed
                                            else Failed]
                 else s.disk
  }

  predicate LifeWrites(s: Sys, op: Op, id: Id, t: Sys) {
    && t.disk.Keys == s.disk.Keys
    && (id in s.disk ==>
          t.disk[id] == if s.disk[id] in {Queued, Running}
                           && (op == StopLocks || (op.CrashWhileStopping? && id in op.written) || op == RecoverOp(id))
                        then Interrupted else s.disk[id])
  }

  lemma ClientsWrite(s: Sys, op: Op)
    requires DiskSound(s) && IsClientOp(op) && Enabled(s, op)
    ensures ClientWrites(s, op, Do(s, op))
  {
    if op.PersistOp? { assert s.disk[op.id := s.jobs[op.id]] == s.disk; }
  }

  lemma WorkersWrite(s: Sys, op: Op)
    requires !IsClientOp(op) && !IsLifeOp(op) && Enabled(s, op)
    ensures WorkerWrites(s, op, Do(s, op))
  {
  }

  lemma LifeWritten(s: Sys, op: Op, id: Id)
    requires DiskSound(s) && IsLifeOp(op) && Enabled(s, op)
    ensures LifeWrites(s, op, id, Do(s, op))
  {
    hide DoClient, DoWorker;
  }

  lemma Writes(s: Sys, op: Op, id: Id)
    requires DiskSound(s) && Enabled(s, op)
    ensures IsClientOp(op) ==> ClientWrites(s, op, Do(s, op))
    ensures IsLifeOp(op) ==> LifeWrites(s, op, id, Do(s, op))
    ensures !IsClientOp(op) && !IsLifeOp(op) ==> WorkerWrites(s, op, Do(s, op))
  {
    hide DiskSound, Do, Enabled, ClientWrites, LifeWrites, WorkerWrites;
    if IsClientOp(op) { ClientsWrite(s, op); }
    else if IsLifeOp(op) { LifeWritten(s, op, id); }
    else { WorkersWrite(s, op); }
  }

  /** Every record stays, and only an unfinished one changes. */
  lemma RecordsStay(s: Sys, op: Op, id: Id)
    requires Inv(s) && id in s.disk
    ensures id in Step(s, op).disk
    ensures Step(s, op).disk[id] != s.disk[id] ==> s.disk[id] in {Queued, Running}
  {
    hide QueueSound, ChildSound, OffSound, WorkerSound, Do;
    if Terminal(s.disk[id]) { StepKeepsFinished(s, op, id); }
    if Enabled(s, op) { Writes(s, op, id); }
    hide DiskSound;
  }

  /** A job is queued exactly by a submission to a ready, running service with room, and joins the end of the queue. */
  lemma QueuedExactly(s: Sys, op: Op, id: Id)
    requires Inv(s)
    ensures Becomes(s, Step(s, op), id, Queued) <==>
            && op == SubmitOp(id, true) && s.phase == Up && id !in s.jobs && id !in s.disk && id !in s.reported
            && s.worker != Gone && !s.stopping && |s.queue| < 4
    ensures Becomes(s, Step(s, op), id, Queued) ==> Step(s, op).queue == s.queue + [id]
  {
    hide QueueSound, ChildSound, OffSound, WorkerSound, Do;
    if Enabled(s, op) { Writes(s, op, id); }
    hide DiskSound;
  }

  /** A job is running exactly from the worker's first section on, when it was still queued. */
  lemma RunningExactly(s: Sys, op: Op, id: Id)
    requires Inv(s)
    ensures Becomes(s, Step(s, op), id, Running) <==>
            op == WorkerTake && s.phase == Up && s.worker == Taken(id) && id in s.disk && s.disk[id] == Queued
  {
    hide QueueSound, ChildSound, OffSound, WorkerSound, Do;
    if Enabled(s, op) { Writes(s, op, id); }
  }

  /** A job is completed exactly by the verdict on a child that ended in time with code zero and a valid artifact. */
  lemma CompletedExactly(s: Sys, op: Op, id: Id)
    requires Inv(s)
    ensures Becomes(s, Step(s, op), id, Completed) <==>
            && op == WorkerFinish(true) && s.phase == Up && s.worker == Judging(id, false, 0)
            && id in s.disk && s.disk[id] == Running
  {
    hide QueueSound, ChildSound, OffSound, Do;
    if Enabled(s, op) { Writes(s, op, id); }
  }

  /** A job is failed exactly by the verdict on any other end of its child, or by an unexpected error of the worker. */
  lemma FailedExactly(s: Sys, op: Op, id: Id)
    requires Inv(s)
    ensures Becomes(s, Step(s, op), id, Failed) <==>
            && s.phase == Up && id in s.disk && s.disk[id] == Running
            && ((op == WorkerFail && s.worker == Failing(id))
                || (op.WorkerFinish? && s.worker.Judging? && s.worker.id == id
                    && (s.worker.timedOut || s.worker.code != 0 || !op.wavValid)))
  {
    hide QueueSound, ChildSound, OffSound, Do;
    if Enabled(s, op) { Writes(s, op, id); }
  }

  /** A job is cancelled exactly by a cancellation of an unfinished job. */
  lemma CancelledExactly(s: Sys, op: Op, id: Id)
    requires Inv(s)
    ensures Becomes(s, Step(s, op), id, Cancelled) <==>
            op == CancelOp(id) && s.phase == Up && id in s.disk && s.disk[id] in {Queued, Running}
  {
    hide QueueSound, ChildSound, OffSound, WorkerSound, Do;
    if Enabled(s, op) { Writes(s, op, id); }
  }

  /** A job is interrupted exactly by a shutdown or a restart that finds it unfinished. */
  lemma InterruptedExactly(s: Sys, op: Op, id: Id)
    requires Inv(s)
    ensures Becomes(s, Step(s, op), id, Interrupted) <==>
            && id in s.disk && s.disk[id] in {Queued, Running}
            && ((op == StopLocks && s.phase == Up && s.stopping)
                || (op.CrashWhileStopping? && s.phase == Up && s.stopping && id in op.written)
                || (op == RecoverOp(id) && s.phase.Recovering? && id in s.phase.todo))
  {
    hide QueueSound, ChildSound, OffSound, WorkerSound, Do;
    if Enabled(s, op) {
      Writes(s, op, id);
      if IsClientOp(op) { ClientInterruptsNone(s, op, id, Do(s, op)); }
      else if !IsLifeOp(op) { WorkerInterruptsNone(s, op, id, Do(s, op)); }
    }
    hide DiskSound, ClientWrites, WorkerWrites;
  }

  lemma ClientInterruptsNone(s: Sys, op: Op, id: Id, t: Sys)
    requires IsClientOp(op) && ClientWrites(s, op, t)
    ensures !Becomes(s, t, id, Interrupted)
  {
  }

  lemma WorkerInterruptsNone(s: Sys, op: Op, id: Id, t: Sys)
    requires WorkerWrites(s, op, t)
    ensures !Becomes(s, t, id, Interrupted)
  {
  }

  /** Cancelling writes one status, and only over an unfinished job's. */
  lemma CancelWrites(s: Sys, id: Id)
    ensures id in s.jobs && s.jobs[id] in {Queued, Running} ==>
              ReportOf(Cancel(s, id), id).disk == s.disk[id := Cancelled]
              && ReportOf(Cancel(s, id), id).jobs == s.jobs[id := Cancelled]
    ensures !(id in s.jobs && s.jobs[id] in {Queued, Running}) ==>
              ReportOf(Cancel(s, id), id).disk == s.disk && ReportOf(Cancel(s, id), id).jobs == s.jobs
  {
  }

  /** The verdict on a child: a withdrawn job keeps its status, and any other one is completed or failed on the merits,
      in memory and on disk alike.  No other job changes. */
  lemma VerdictDecides(s: Sys, id: Id, timedOut: bool, code: int, wavValid: bool)
    requires Inv(s) && s.phase == Up && s.worker == Judging(id, timedOut, code)
    ensures var t := Step(s, WorkerFinish(wavValid));
            && id in s.jobs && s.jobs == s.disk && t.jobs == t.disk && t.worker == Idle
            && (s.jobs[id] in {Cancelled, Interrupted} ==> t.jobs == s.jobs)
            && (s.jobs[id] !in {Cancelled, Interrupted} ==>
                  && t.jobs.Keys == s.jobs.Keys && (forall x | x in s.jobs && x != id :: t.jobs[x] == s.jobs[x])
                  && (t.jobs[id] == Completed <==> !timedOut && code == 0 && wavValid)
                  && (t.jobs[id] == Failed <==> timedOut || code != 0 || !wavValid))
  {
    assert Holds(s.worker, id);
    hide QueueSound, ChildSound;
  }

  /** While the service is up a client reads from memory exactly what is on disk. */
  lemma MemoryIsDisk(ops: seq<Op>)
    requires Run(FIRST_BOOT, ops).phase == Up
    ensures Run(FIRST_BOOT, ops).jobs == Run(FIRST_BOOT, ops).disk
  {
    FirstBootHolds();
    RunKeeps(FIRST_BOOT, ops);
  }

  /** A status is reported exactly by asking for, or cancelling, a job that is then finished; it is the job's own. */
  lemma ReportedExactly(s: Sys, op: Op, id: Id)
    requires Inv(s)
    ensures var t := Step(s, op);
            && (forall x | x in s.reported :: x in t.reported && t.reported[x] == s.reported[x])
            && (id in t.reported && id !in s.reported <==>
                  && op in {GetOp(id), CancelOp(id)} && s.phase == Up && id in t.jobs && id !in s.reported
                  && t.jobs[id] !in {Queued, Running})
            && (id in t.reported && s.phase == Up && op in {GetOp(id), CancelOp(id)} ==> t.reported[id] == t.jobs[id])
  {
    hide QueueSound, ChildSound, OffSound, WorkerSound;
    if op.CancelOp? { CancelWrites(s, op.id); }
    hide DoWorker, Cancel;
    if Enabled(s, op) && !op.CancelOp? && !op.GetOp? { OthersReportNone(s, op); }
  }

  lemma OthersReportNone(s: Sys, op: Op)
    requires Enabled(s, op) && !op.CancelOp? && !op.GetOp?
    ensures Do(s, op).reported == s.reported
  {
    if IsLifeOp(op) { LifeMovesWorker(s, op); } else if !IsClientOp(op) { WorkersKeep(s, op); }
    hide DoLife, DoWorker;
  }

  // ---- The queue ----

  lemma QueueMoves(s: Sys, op: Op)
    requires Inv(s)
    ensures var t := Step(s, op);
            && (op == WorkerGet && s.phase == Up && s.worker == Idle && s.queue != [] ==>
                  t.queue == s.queue[1..] && t.worker == Taken(s.queue[0]))
            && (op == WorkerGet && !(s.phase == Up && s.worker == Idle && s.queue != []) ==> t == s)
            && (op.SubmitOp? ==> t.queue == if Becomes(s, t, op.id, Queued) then s.queue + [op.id] else s.queue)
            && (!op.WorkerGet? && !op.SubmitOp? && !op.Crash? && !op.CrashWhileStopping? ==> t.queue == s.queue)
  {
    hide QueueSound, ChildSound, OffSound, WorkerSound;
  }

  /** A crash leaves nothing in memory: no job, no queue, no child anybody knows of; what is on disk and what was
      reported stays, but for the interruptions a shutdown had already written. */
  lemma CrashExactly(s: Sys, op: Op)
    requires op == Crash || (op.CrashWhileStopping? && s.phase == Up && s.stopping)
    ensures var t := Step(s, op);
            && t.jobs == map[] && t.queue == [] && t.alive == {} && t.committed == {} && t.reported == s.reported
            && (op == Crash ==> t.disk == s.disk)
  {
  }

  predicate Crashes(op: Op) { op.Crash? || op.CrashWhileStopping? }

  function AcceptedBy(s: Sys, op: Op): seq<Id> {
    if op.SubmitOp? && Becomes(s, Step(s, op), op.id, Queued) then [op.id] else []
  }

  function HandedBy(s: Sys, op: Op): seq<Id> {
    if s.worker == Idle && Step(s, op).worker.Taken? then [Step(s, op).worker.id] else []
  }

  /** The jobs accepted during a run, in the order they were. */
  function Accepted(s: Sys, ops: seq<Op>): seq<Id>
    decreases |ops|
  {
    if ops == [] then []
    else Accepted(s, ops[..|ops| - 1]) + AcceptedBy(Run(s, ops[..|ops| - 1]), ops[|ops| - 1])
  }

  /** The jobs the worker took into its hand during a run, in the order it did. */
  function Handed(s: Sys, ops: seq<Op>): seq<Id>
    decreases |ops|
  {
    if ops == [] then []
    else Handed(s, ops[..|ops| - 1]) + HandedBy(Run(s, ops[..|ops| - 1]), ops[|ops| - 1])
  }

  lemma OnlyGetTakes(s: Sys, op: Op)
    requires Inv(s) && s.worker == Idle && Step(s, op).worker.Taken?
    ensures op == WorkerGet && s.phase == Up && s.queue != []
  {
    hide QueueSound, ChildSound, DiskSound, WorkerSound;
  }

  lemma OneInOneOut(s: Sys, op: Op)
    requires Inv(s) && !Crashes(op)
    ensures s.queue + AcceptedBy(s, op) == HandedBy(s, op) + Step(s, op).queue
  {
    QueueMoves(s, op);
    if s.worker == Idle && Step(s, op).worker.Taken? { OnlyGetTakes(s, op); }
    hide Inv, Step, Becomes;
    if op == WorkerGet && s.phase == Up && s.worker == Idle && s.queue != [] {
      assert s.queue == [s.queue[0]] + s.queue[1..];
    }
  }

  /** First in, first out: between two crashes the worker takes the jobs in exactly the order they were accepted. */
  lemma {:induction false} FirstInFirstOut(s: Sys, ops: seq<Op>)
    requires Inv(s) && forall i | 0 <= i < |ops| :: !Crashes(ops[i])
    ensures s.queue + Accepted(s, ops) == Handed(s, ops) + Run(s, ops).queue
    decreases |ops|
  {
    if ops == [] {
      assert s.queue + [] == [] + s.queue;
    } else {
      hide Inv, Step, AcceptedBy, HandedBy;
      var n := |ops| - 1;
      var m, op := Run(s, ops[..n]), ops[n];
      FirstInFirstOut(s, ops[..n]);
      RunKeeps(s, ops[..n]);
      OneInOneOut(m, op);
      Exchange(s.queue, Accepted(s, ops[..n]), AcceptedBy(m, op), Handed(s, ops[..n]), m.queue, HandedBy(m, op),
               Step(m, op).queue);
    }
  }

  lemma {:induction false} Exchange(q: seq<Id>, a: seq<Id>, x: seq<Id>, h: seq<Id>, r: seq<Id>, y: seq<Id>, t: seq<Id>)
    requires q + a == h + r && r + x == y + t
    ensures q + (a + x) == (h + y) + t
  {
    calc {
      q + (a + x);
      (q + a) + x;
      h + (r + x);
      h + (y + t);
    }
  }

  // ---- Children ----

  /** Somebody undertakes to end a child exactly when its job is cancelled while it is the current one, when it is late,
      when the service shuts down, or when it only became addressable after its job was withdrawn or shutdown began. */
  lemma CondemnedExactly(s: Sys, op: Op, pid: Pid)
    requires Inv(s)
    ensures pid in Step(s, op).committed && pid !in s.committed <==>
            && s.phase == Up && pid !in s.committed
            && ((op.CancelOp? && op.id in s.jobs && s.jobs[op.id] in {Queued, Running}
                 && s.currentJob == Some(op.id) && s.currentProcess == Some(pid))
                || (op == Timeout && s.worker.Watching? && s.worker.pid == pid)
                || (op == StopLocks && s.stopping && s.currentProcess == Some(pid))
                || (op == WorkerAssign && s.worker.Launched? && s.worker.pid == pid
                    && (s.stopping || s.worker.id !in s.jobs || s.jobs[s.worker.id] != Running)))
  {
    hide QueueSound, ChildSound, DiskSound, WorkerSound, OffSound;
    if Enabled(s, op) && !op.CancelOp? && !op.StopLocks? { CondemnedOtherwise(s, op, pid); }
    hide DoWorker;
  }

  lemma CondemnedOtherwise(s: Sys, op: Op, pid: Pid)
    requires Enabled(s, op) && !op.CancelOp? && !op.StopLocks?
    ensures pid in Do(s, op).committed && pid !in s.committed <==>
            && s.phase == Up && pid !in s.committed
            && ((op == Timeout && s.worker.Watching? && s.worker.pid == pid)
                || (op == WorkerAssign && s.worker.Launched? && s.worker.pid == pid
                    && (s.stopping || s.worker.id !in s.jobs || s.jobs[s.worker.id] != Running)))
  {
  }

  /** A child lives from its spawning to its own end; only a crash of the whole service loses sight of it. */
  lemma AliveExactly(s: Sys, op: Op, pid: Pid)
    requires Inv(s)
    ensures pid in Step(s, op).alive && pid !in s.alive <==>
            op == WorkerSpawn(pid) && s.phase == Up && s.worker.Launching? && pid !in s.launched
    ensures pid in s.alive && pid !in Step(s, op).alive <==>
            pid in s.alive && (op == ProcessEnds(pid) || op.Crash? || (op.CrashWhileStopping? && Enabled(s, op)))
  {
    hide QueueSound, DiskSound, WorkerSound, OffSound;
    if Enabled(s, op) && !op.WorkerSpawn? && !op.ProcessEnds? && !op.Crash? && !op.CrashWhileStopping? {
      OthersKeepAlive(s, op);
      hide Do;
    }
  }

  lemma OthersKeepAlive(s: Sys, op: Op)
    requires Enabled(s, op) && !op.WorkerSpawn? && !op.ProcessEnds? && !op.Crash? && !op.CrashWhileStopping?
    ensures Do(s, op).alive == s.alive
  {
  }

  // ---- The worker ----

  /** Where the worker goes from where it is; a section that finds it elsewhere does not happen. */
  function WorkerAfter(s: Sys, op: Op): Worker {
    var up := s.phase == Up;
    match (op, s.worker)
    case (WorkerGet, Idle) => if up && s.queue != [] then Taken(s.queue[0]) else s.worker
    case (WorkerTake, Taken(id)) =>
      if !up then s.worker else if id in s.jobs && s.jobs[id] == Queued then Launching(id) else Idle
    case (WorkerSpawn(pid), Launching(id)) => if up && pid !in s.launched then Launched(id, pid) else s.worker
    case (WorkerError, Launching(id)) => if up then Failing(id) else s.worker
    case (WorkerError, Ended(id, _, _)) => if up then Failing(id) else s.worker
    case (WorkerError, Cleared(id, _, _)) => if up then Failing(id) else s.worker
    case (WorkerError, Judging(id, _, _)) => if up then Failing(id) else s.worker
    case (WorkerAssign, Launched(id, pid)) => if up then Watching(id, pid, false) else s.worker
    case (Timeout, Watching(id, pid, _)) => if up then Watching(id, pid, true) else s.worker
    case (WorkerEnds(code), Watching(id, pid, late)) =>
      if up && pid !in s.alive then Ended(id, late, code) else s.worker
    case (WorkerClear, Ended(id, late, code)) => if up then Cleared(id, late, code) else s.worker
    case (WorkerReview, Cleared(id, late, code)) =>
      if !up then s.worker
      else if id in s.jobs && s.jobs[id] in {Cancelled, Interrupted} then Idle else Judging(id, late, code)
    case (WorkerFinish(_), Judging(_, _, _)) => if up then Idle else s.worker
    case (WorkerFail, Failing(_)) => if up then Idle else s.worker
    case (WorkerCancelled, _) =>
      if up && s.stopping && forall id | id in s.jobs :: s.jobs[id] !in {Queued, Running} then Gone else s.worker
    case (Crash, _) => Gone
    case (CrashWhileStopping(_), _) => if up && s.stopping then Gone else s.worker
    case (RecoverDone, _) => if s.phase == Recovering({}) then Idle else s.worker
    case _ => s.worker
  }

  lemma WorkerExactly(s: Sys, op: Op)
    ensures Step(s, op).worker == WorkerAfter(s, op)
  {
    if !Enabled(s, op) { NotEnabled(s, op); }
    else if IsClientOp(op) { ClientsKeep(s, op); }
    else if IsLifeOp(op) { LifeMovesWorker(s, op); }
    else { WorkerMoves(s, op); }
    hide Do, Enabled;
  }

  lemma NotEnabled(s: Sys, op: Op)
    requires !Enabled(s, op)
    ensures WorkerAfter(s, op) == s.worker
  {
    hide Do;
  }

  /** A client's step leaves the worker, its child and the life of the service alone. */
  lemma ClientsKeep(s: Sys, op: Op)
    requires IsClientOp(op) && Enabled(s, op)
    ensures Do(s, op).worker == s.worker == WorkerAfter(s, op)
    ensures Do(s, op).phase == s.phase && Do(s, op).stopping == s.stopping && Do(s, op).launched == s.launched
    ensures Do(s, op).currentJob == s.currentJob && Do(s, op).currentProcess == s.currentProcess
  {
  }

  /** A step of the worker leaves the life of the service and what was reported alone. */
  lemma WorkersKeep(s: Sys, op: Op)
    requires !IsClientOp(op) && !IsLifeOp(op) && Enabled(s, op)
    ensures Do(s, op).phase == s.phase && Do(s, op).stopping == s.stopping && Do(s, op).reported == s.reported
  {
  }

  lemma LifeMovesWorker(s: Sys, op: Op)
    requires IsLifeOp(op) && Enabled(s, op)
    ensures Do(s, op).worker == WorkerAfter(s, op) && Do(s, op).reported == s.reported
  {
  }

  lemma WorkerMoves(s: Sys, op: Op)
    requires !IsClientOp(op) && !IsLifeOp(op) && Enabled(s, op)
    ensures Do(s, op).worker == WorkerAfter(s, op)
  {
  }

  /** The current child is known from the worker's assignment to its clearing of the same job, or to a crash. */
  lemma CurrentExactly(s: Sys, op: Op)
    ensures var t := Step(s, op);
            (t.currentJob, t.currentProcess)
            == if op == WorkerAssign && s.phase == Up && s.worker.Launched? then (Some(s.worker.id), Some(s.worker.pid))
               else if (op == WorkerClear && s.phase == Up && s.worker.Ended? && s.currentJob == Some(s.worker.id))
                       || op == Crash || (op.CrashWhileStopping? && s.phase == Up && s.stopping) then (None, None)
               else (s.currentJob, s.currentProcess)
  {
    if IsClientOp(op) && Enabled(s, op) { ClientsKeep(s, op); }
    hide DoClient;
  }

  /** The life of the service: shutdown begins once, a crash ends everything, and a restart serves again only when no
      job is left to recover. */
  lemma PhaseExactly(s: Sys, op: Op)
    ensures var t := Step(s, op);
            var crashes := op == Crash || (op.CrashWhileStopping? && s.phase == Up && s.stopping);
            && (t.stopping <==> !crashes && (s.stopping || (op == StopBegins && s.phase == Up)))
            && t.phase == if crashes then Down
                          else if op == Boot && s.phase == Down then Recovering(s.disk.Keys)
                          else if op.RecoverOp? && s.phase.Recovering? && op.id in s.phase.todo && op.id in s.disk
                               then Recovering(s.phase.todo - {op.id})
                          else if op == RecoverDone && s.phase == Recovering({}) then Up
                          else s.phase
  {
    if Enabled(s, op) && IsClientOp(op) { ClientsKeep(s, op); }
    else if Enabled(s, op) && !IsLifeOp(op) { WorkersKeep(s, op); }
    hide DoClient, DoWorker;
  }

  // ---- One job from the queue to its end ----

  function JobOps(pid: Pid, late: bool, code: int, wavValid: bool): seq<Op> {
    [WorkerTake, WorkerSpawn(pid), WorkerAssign] + (if late then [Timeout] else [])
    + [ProcessEnds(pid), WorkerEnds(code), WorkerClear, WorkerReview, WorkerFinish(wavValid)]
  }

  /** A queued job in the worker's hand, left alone, ends completed or failed on the merits of its child, and leaves
      nothing behind: no current process, no child alive, and the worker free for the next job. */
  lemma JobRunsThrough(s: Sys, id: Id, pid: Pid, late: bool, code: int, wavValid: bool)
    requires Inv(s) && s.phase == Up && !s.stopping && s.worker == Taken(id) && id in s.jobs && s.jobs[id] == Queued
    requires pid !in s.launched
    ensures var end := if !late && code == 0 && wavValid then Completed else Failed;
            Run(s, JobOps(pid, late, code, wavValid))
            == s.(jobs := s.jobs[id := end], disk := s.disk[id := end], worker := Idle, currentJob := None,
                  currentProcess := None, launched := s.launched + {pid},
                  committed := if late then s.committed + {pid} else s.committed)
  {
    assert pid !in s.alive;
    hide Inv, Step, Run;
    var first := [WorkerTake, WorkerSpawn(pid), WorkerAssign] + (if late then [Timeout] else []);
    var last := [ProcessEnds(pid), WorkerEnds(code), WorkerClear, WorkerReview, WorkerFinish(wavValid)];
    var m := Underway(s, id, pid, late);
    RunContinues(s, first, last);
    JobWaits(s, id, pid, late);
    RunFive(m, ProcessEnds(pid), WorkerEnds(code), WorkerClear, WorkerReview, WorkerFinish(wavValid));
    JobEnds(m, id, pid, late, code, wavValid);
    LeavesNothing(s, id, pid, late, if !late && code == 0 && wavValid then Completed else Failed);
    hide Underway;
  }

  lemma LeavesNothing(s: Sys, id: Id, pid: Pid, late: bool, end: Status)
    requires pid !in s.alive
    ensures var m := Underway(s, id, pid, late);
            m.(jobs := m.jobs[id := end], disk := m.disk[id := end], worker := Idle, currentJob := None,
               currentProcess := None, alive := m.alive - {pid})
            == s.(jobs := s.jobs[id := end], disk := s.disk[id := end], worker := Idle, currentJob := None,
                  currentProcess := None, launched := s.launched + {pid},
                  committed := if late then s.committed + {pid} else s.committed)
  {
    assert s.alive + {pid} - {pid} == s.alive;
    assert s.jobs[id := Running][id := end] == s.jobs[id := end];
    assert s.disk[id := Running][id := end] == s.disk[id := end];
  }

  lemma JobWaits(s: Sys, id: Id, pid: Pid, late: bool)
    requires s.phase == Up && !s.stopping && s.worker == Taken(id) && id in s.jobs && s.jobs[id] == Queued
    requires pid !in s.launched
    ensures Run(s, [WorkerTake, WorkerSpawn(pid), WorkerAssign] + (if late then [Timeout] else []))
            == Underway(s, id, pid, late)
  {
    hide Step, Run;
    var first := [WorkerTake, WorkerSpawn(pid), WorkerAssign];
    JobStarts(s, id, pid);
    RunThree(s, WorkerTake, WorkerSpawn(pid), WorkerAssign);
    if late {
      RunNext(s, first, Timeout);
      JobIsLate(s, id, pid);
    } else {
      assert first + [] == first;
    }
  }

  /** The job is running and its child under watch. */
  function Underway(s: Sys, id: Id, pid: Pid, late: bool): Sys {
    s.(jobs := s.jobs[id := Running], disk := s.disk[id := Running], launched := s.launched + {pid},
       alive := s.alive + {pid}, currentJob := Some(id), currentProcess := Some(pid), worker := Watching(id, pid, late),
       committed := if late then s.committed + {pid} else s.committed)
  }

  lemma JobStarts(s: Sys, id: Id, pid: Pid)
    requires s.phase == Up && !s.stopping && s.worker == Taken(id) && id in s.jobs && s.jobs[id] == Queued
    requires pid !in s.launched
    ensures Step(Step(Step(s, WorkerTake), WorkerSpawn(pid)), WorkerAssign) == Underway(s, id, pid, false)
  {
    var s1 := Step(s, WorkerTake);
    assert s1 == s.(jobs := s.jobs[id := Running], disk := s.disk[id := Running], worker := Launching(id));
    var s2 := Step(s1, WorkerSpawn(pid));
    assert s2 == s1.(alive := s.alive + {pid}, launched := s.launched + {pid}, worker := Launched(id, pid));
  }

  lemma JobIsLate(s: Sys, id: Id, pid: Pid)
    requires s.phase == Up
    ensures Step(Underway(s, id, pid, false), Timeout) == Underway(s, id, pid, true)
  {
  }

  lemma JobEnds(s: Sys, id: Id, pid: Pid, late: bool, code: int, wavValid: bool)
    requires s.phase == Up && s.worker == Watching(id, pid, late) && s.currentJob == Some(id)
    requires id in s.jobs && s.jobs[id] == Running && pid in s.alive
    ensures var end := if !late && code == 0 && wavValid then Completed else Failed;
            var judging := Step(Step(Step(Step(s, ProcessEnds(pid)), WorkerEnds(code)), WorkerClear), WorkerReview);
            Step(judging, WorkerFinish(wavValid))
            == s.(jobs := s.jobs[id := end], disk := s.disk[id := end], worker := Idle, currentJob := None,
                  currentProcess := None, alive := s.alive - {pid})
  {
    ChildEnds(s, id, pid, late, code);
    JobIsJudged(s.(worker := Cleared(id, late, code), currentJob := None, currentProcess := None,
                   alive := s.alive - {pid}), id, late, code, wavValid);
    hide Step;
  }

  lemma ChildEnds(s: Sys, id: Id, pid: Pid, late: bool, code: int)
    requires s.phase == Up && s.worker == Watching(id, pid, late) && s.currentJob == Some(id) && pid in s.alive
    ensures Step(Step(Step(s, ProcessEnds(pid)), WorkerEnds(code)), WorkerClear)
            == s.(worker := Cleared(id, late, code), currentJob := None, currentProcess := None,
                  alive := s.alive - {pid})
  {
    var s1 := Step(s, ProcessEnds(pid));
    assert s1 == s.(alive := s.alive - {pid});
    var s2 := Step(s1, WorkerEnds(code));
    assert s2 == s1.(worker := Ended(id, late, code));
  }

  lemma JobIsJudged(s: Sys, id: Id, late: bool, code: int, wavValid: bool)
    requires s.phase == Up && s.worker == Cleared(id, late, code) && id in s.jobs && s.jobs[id] == Running
    ensures var end := if !late && code == 0 && wavValid then Completed else Failed;
            Step(Step(s, WorkerReview), WorkerFinish(wavValid))
            == s.(jobs := s.jobs[id := end], disk := s.disk[id := end], worker := Idle)
  {
    var s1 := Step(s, WorkerReview);
    assert s1 == s.(worker := Judging(id, late, code));
  }

  lemma {:induction false} RunOne(s: Sys, op: Op)
    ensures Run(s, [op]) == Step(s, op)
  {
    assert [op][..0] == [];
  }

  lemma {:induction false} RunNext(s: Sys, ops: seq<Op>, op: Op)
    ensures Run(s, ops + [op]) == Step(Run(s, ops), op)
  {
    assert (ops + [op])[..|ops|] == ops;
  }

  lemma {:induction false} RunThree(s: Sys, a: Op, b: Op, c: Op)
    ensures Run(s, [a, b, c]) == Step(Step(Step(s, a), b), c)
  {
    hide Step;
    RunOne(s, a);
    RunNext(s, [a], b);
    RunNext(s, [a] + [b], c);
    hide Run;
    assert [a] + [b] + [c] == [a, b, c];
  }

  lemma {:induction false} RunFive(s: Sys, a: Op, b: Op, c: Op, d: Op, e: Op)
    ensures Run(s, [a, b, c, d, e]) == Step(Step(Step(Step(Step(s, a), b), c), d), e)
  {
    hide Step;
    RunThree(s, a, b, c);
    RunNext(s, [a, b, c], d);
    RunNext(s, [a, b, c] + [d], e);
    hide Run;
    assert [a, b, c] + [d] + [e] == [a, b, c, d, e];
  }

  // ---- The kept output ----

  /** What is kept is the end of the output: all of a short one, and 16 KiB of a longer one. */
  lemma {:induction false} TailIsTheEnd(all: Bytes)
    ensures |Tail(all)| == if |all| < 16384 then |all| else 16384
    ensures Tail(all) == all[|all| - |Tail(all)|..]
  {
  }
}
