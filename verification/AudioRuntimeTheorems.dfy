/** Safety of the job runtime under every interleaving of lock sections, process events, shutdowns and crashes. */
module AudioRuntimeTheorems {
  import opened Common
  import opened AudioRuntime

  // ---- The invariant ----

  /** The job the worker has started and not yet let go. */
  predicate Holds(w: Worker, id: Id) {
    match w
    case Launching(x) => x == id
    case Launched(x, _) => x == id
    case Watching(x, _, _) => x == id
    case Ended(x, _, _) => x == id
    case Cleared(x, _, _) => x == id
    case Judging(x, _, _) => x == id
    case Failing(x) => x == id
    case _ => false
  }

  predicate Unstarted(st: Status) { st == Queued || Withdrawn(st) }

  predicate Started(st: Status) { st == Running || Withdrawn(st) }

  predicate InQueue(s: Sys, id: Id) { exists i :: 0 <= i < |s.queue| && s.queue[i] == id }

  ghost predicate QueueSound(s: Sys) {
    && |s.queue| <= QUEUE_CAPACITY
    && (forall i, j | 0 <= i < j < |s.queue| :: s.queue[i] != s.queue[j])
    && (forall i | 0 <= i < |s.queue| ::
          s.queue[i] in s.jobs && Unstarted(s.jobs[s.queue[i]]) && s.worker != Taken(s.queue[i])
          && !Holds(s.worker, s.queue[i]))
  }

  ghost predicate WorkerSound(s: Sys) {
    && (s.worker.Taken? ==> s.worker.id in s.jobs && Unstarted(s.jobs[s.worker.id]))
    && (forall id | Holds(s.worker, id) :: id in s.jobs && Started(s.jobs[id]))
    && (forall id | id in s.jobs :: (s.jobs[id] == Running ==> Holds(s.worker, id))
                                    && (s.jobs[id] == Queued ==> InQueue(s, id) || s.worker == Taken(id)))
  }

  /** The child under watch is addressable, and once its job is withdrawn somebody is committed to end it. */
  ghost predicate ChildSound(s: Sys) {
    && (s.worker.Watching? ==>
          && s.currentJob == Some(s.worker.id) && s.currentProcess == Some(s.worker.pid)
          && (s.worker.id in s.jobs && Withdrawn(s.jobs[s.worker.id]) ==> s.worker.pid in s.committed))
    && (s.worker != Gone ==>
          forall p | p in s.alive :: (s.worker.Launched? || s.worker.Watching?) && s.worker.pid == p)
    && s.alive <= s.launched
  }

  ghost predicate DiskSound(s: Sys) {
    && (forall id | id in s.reported :: id in s.disk && s.disk[id] == s.reported[id] && Terminal(s.reported[id]))
    && match s.phase
       case Up => s.jobs == s.disk
       case Down => s.jobs == map[]
       case Recovering(todo) =>
         && todo <= s.disk.Keys && s.jobs.Keys == s.disk.Keys - todo
         && forall id | id in s.jobs :: s.jobs[id] == s.disk[id] && Terminal(s.jobs[id])
  }

  ghost predicate OffSound(s: Sys) {
    s.phase != Up ==> s.queue == [] && s.worker == Gone && !s.stopping && s.alive == {}
  }

  ghost predicate Inv(s: Sys) {
    DiskSound(s) && OffSound(s) && QueueSound(s) && (s.phase == Up ==> WorkerSound(s)) && ChildSound(s)
  }

  // ---- Every step keeps it ----

  /** What queue, worker and disk records depend on. */
  ghost predicate CoreSound(s: Sys) {
    QueueSound(s) && DiskSound(s) && OffSound(s) && (s.phase == Up ==> WorkerSound(s))
  }

  /** Nothing but the worker's position, its child and the current process changed, and it holds the same job. */
  ghost predicate OnlyMoved(s: Sys, t: Sys) {
    && t.jobs == s.jobs && t.disk == s.disk && t.queue == s.queue && t.phase == s.phase && t.reported == s.reported
    && t.stopping == s.stopping
    && (forall id :: Holds(t.worker, id) == Holds(s.worker, id))
         && (forall id :: (t.worker == Taken(id)) == (s.worker == Taken(id)))
    && (t.worker == Gone <==> s.worker == Gone) && (t.alive == s.alive || s.phase == Up)
  }

  lemma MoveKeeps(s: Sys, t: Sys)
    requires CoreSound(s) && OnlyMoved(s, t)
    ensures CoreSound(t)
  {
    InQueueKept(s, t);
  }

  /** One job changed its status, on disk too. */
  ghost predicate Changed(s: Sys, t: Sys, id: Id, st: Status) {
    && t.jobs == s.jobs[id := st] && t.disk == s.disk[id := st] && t.phase == s.phase == Up
  }

  lemma ChangeKeepsDisk(s: Sys, t: Sys, id: Id, st: Status)
    requires DiskSound(s) && Changed(s, t, id, st) && t.reported == s.reported
    requires id in s.jobs ==> !Terminal(s.jobs[id])
    requires id !in s.jobs ==> id !in s.reported
    ensures DiskSound(t)
    ensures forall x | x in s.disk && Terminal(s.disk[x]) :: x in t.disk && t.disk[x] == s.disk[x]
  {
  }

  lemma ReportKeepsCore(s: Sys, id: Id)
    requires CoreSound(s) && s.phase == Up
    ensures CoreSound(ReportOf(s, id))
  {
    MoveKeeps(s, ReportOf(s, id).(reported := s.reported));
    hide QueueSound, WorkerSound;
  }

  // ---- Client steps ----

  lemma SubmitKeeps(s: Sys, id: Id, modelReady: bool)
    requires CoreSound(s) && Enabled(s, SubmitOp(id, modelReady)) && Submit(s, id, modelReady).Ok?
    ensures CoreSound(Submit(s, id, modelReady).value)
  {
    var t := Submit(s, id, modelReady).value;
    assert t.queue[|s.queue|] == id;
    SubmitQueue(s, t, id);
    ChangeKeepsDisk(s, t, id, Queued);
  }

  lemma SubmitQueue(s: Sys, t: Sys, id: Id)
    requires QueueSound(s) && WorkerSound(s) && |s.queue| < QUEUE_CAPACITY && id !in s.jobs
    requires t.queue == s.queue + [id] && t.jobs == s.jobs[id := Queued] && t.worker == s.worker
    ensures QueueSound(t) && WorkerSound(t)
  {
    assert t.queue[|s.queue|] == id;
    forall x | InQueue(s, x)
      ensures InQueue(t, x)
    {
      var i :| 0 <= i < |s.queue| && s.queue[i] == x;
      assert t.queue[i] == x;
    }
  }

  lemma CancelKeeps(s: Sys, id: Id)
    requires CoreSound(s) && s.phase == Up
    ensures CoreSound(Cancel(s, id))
  {
    if id in s.jobs && !Terminal(s.jobs[id]) {
      ChangeKeepsDisk(s, Cancel(s, id), id, Cancelled);
      CancelQueue(s, Cancel(s, id), id);
    }
  }

  lemma CancelQueue(s: Sys, t: Sys, id: Id)
    requires QueueSound(s) && WorkerSound(s) && id in s.jobs
    requires t.queue == s.queue && t.jobs == s.jobs[id := Cancelled] && t.worker == s.worker
    ensures QueueSound(t) && WorkerSound(t)
  {
    InQueueKept(s, t);
  }

  lemma ClientCore(s: Sys, op: Op)
    requires CoreSound(s) && IsClientOp(op) && Enabled(s, op)
    ensures CoreSound(DoClient(s, op))
  {
    if op.SubmitOp? {
      if Submit(s, op.id, op.modelReady).Ok? { SubmitKeeps(s, op.id, op.modelReady); }
    } else if op.CancelOp? {
      CancelKeeps(s, op.id);
      ReportKeepsCore(Cancel(s, op.id), op.id);
    } else if op.GetOp? {
      ReportKeepsCore(s, op.id);
    } else if op.PersistOp? {
      assert s.disk[op.id := s.jobs[op.id]] == s.disk;
    } else {
      MoveKeeps(s, DoClient(s, op));
    }
  }

  lemma ClientChild(s: Sys, op: Op)
    requires ChildSound(s) && IsClientOp(op) && Enabled(s, op)
    ensures ChildSound(DoClient(s, op)) && DoClient(s, op).phase == s.phase
  {
  }

  lemma ClientFinished(s: Sys, op: Op)
    requires DiskSound(s) && IsClientOp(op) && Enabled(s, op)
    ensures forall id | id in s.disk && Terminal(s.disk[id]) ::
              id in DoClient(s, op).disk && DoClient(s, op).disk[id] == s.disk[id]
  {
  }

  // ---- Worker steps ----

  lemma GetKeeps(s: Sys)
    requires CoreSound(s) && Enabled(s, WorkerGet)
    ensures CoreSound(DoWorker(s, WorkerGet))
  {
    var t := DoWorker(s, WorkerGet);
    assert forall i | 0 <= i < |t.queue| :: t.queue[i] == s.queue[i + 1];
    forall id | id in s.jobs && s.jobs[id] == Queued
      ensures InQueue(t, id) || t.worker == Taken(id)
    {
      var i :| 0 <= i < |s.queue| && s.queue[i] == id;
      if i > 0 { assert t.queue[i - 1] == id; }
    }
  }

  lemma TakeKeeps(s: Sys)
    requires CoreSound(s) && Enabled(s, WorkerTake)
    ensures CoreSound(TakeJob(s, s.worker.id))
  {
    var t := TakeJob(s, s.worker.id);
    TakeQueue(s);
    if t.worker.Launching? { ChangeKeepsDisk(s, t, s.worker.id, Running); }
  }

  lemma TakeQueue(s: Sys)
    requires QueueSound(s) && WorkerSound(s) && s.worker.Taken?
    ensures var t := TakeJob(s, s.worker.id); QueueSound(t) && WorkerSound(t)
  {
    InQueueKept(s, TakeJob(s, s.worker.id));
  }

  /** The worker lets go of its job, which becomes finished unless it already was. */
  lemma ReleaseKeeps(s: Sys, t: Sys, id: Id, st: Status)
    requires CoreSound(s) && s.phase == Up && Holds(s.worker, id) && Terminal(st)
    requires t == (if Withdrawn(s.jobs[id]) then s else SetStatus(s, id, st)).(worker := Idle)
    ensures CoreSound(t)
  {
    ReleaseQueue(s, t, id, st);
    if !Withdrawn(s.jobs[id]) { ChangeKeepsDisk(s, t, id, st); }
  }

  lemma ReleaseQueue(s: Sys, t: Sys, id: Id, st: Status)
    requires QueueSound(s) && WorkerSound(s) && Holds(s.worker, id) && Terminal(st)
    requires t.jobs == (if Withdrawn(s.jobs[id]) then s.jobs else s.jobs[id := st]) && t.queue == s.queue
             && t.worker == Idle
    ensures QueueSound(t) && WorkerSound(t)
  {
    InQueueKept(s, t);
  }

  lemma WorkerCore(s: Sys, op: Op)
    requires CoreSound(s) && !IsClientOp(op) && !IsLifeOp(op) && Enabled(s, op)
    ensures CoreSound(DoWorker(s, op))
  {
    if op.WorkerGet? { GetKeeps(s); }
    else if op.WorkerTake? { TakeKeeps(s); }
    else {
      var t := DoWorker(s, op);
      WorkerHolds(s, op);
      hide QueueSound, DiskSound;
      if op.WorkerFinish? {
        var good := !s.worker.timedOut && s.worker.code == 0 && op.wavValid;
        ReleaseKeeps(s, t, s.worker.id, if good then Completed else Failed);
      } else if op.WorkerFail? {
        ReleaseKeeps(s, t, s.worker.id, Failed);
      } else if op.WorkerReview? && t.worker == Idle {
        ReleaseKeeps(s, t, s.worker.id, Failed);
      } else {
        MoveKeeps(s, t);
      }
    }
  }

  lemma WorkerHolds(s: Sys, op: Op)
    requires !IsClientOp(op) && !IsLifeOp(op) && Enabled(s, op) && !op.WorkerGet? && !op.WorkerTake?
    ensures s.phase == Up && (s.worker.Launching? || s.worker.Launched? || s.worker.Watching? || s.worker.Ended?
                              || s.worker.Cleared? || s.worker.Judging? || s.worker.Failing?)
    ensures Holds(s.worker, s.worker.id)
    ensures !op.WorkerFinish? && !op.WorkerFail? && DoWorker(s, op).worker != Idle ==> OnlyMoved(s, DoWorker(s, op))
  {
  }

  lemma WorkerChild(s: Sys, op: Op)
    requires ChildSound(s) && !IsClientOp(op) && !IsLifeOp(op) && Enabled(s, op)
    ensures ChildSound(DoWorker(s, op))
  {
  }

  lemma WorkerFinished(s: Sys, op: Op)
    requires DiskSound(s) && WorkerSound(s) && !IsClientOp(op) && !IsLifeOp(op) && Enabled(s, op)
    ensures forall id | id in s.disk && Terminal(s.disk[id]) ::
              id in DoWorker(s, op).disk && DoWorker(s, op).disk[id] == s.disk[id]
  {
  }

  // ---- Shutdown, crash and recovery steps ----

  lemma LifeQueue(s: Sys, op: Op)
    requires QueueSound(s) && DiskSound(s) && OffSound(s) && IsLifeOp(op) && Enabled(s, op)
    ensures QueueSound(DoLife(s, op))
  {
  }

  lemma LifeWorker(s: Sys, op: Op)
    requires (s.phase == Up ==> WorkerSound(s)) && DiskSound(s) && OffSound(s) && IsLifeOp(op) && Enabled(s, op)
    requires DoLife(s, op).phase == Up
    ensures WorkerSound(DoLife(s, op))
  {
    if s.phase == Up {
      InQueueKept(s, DoLife(s, op));
    } else {
      RecoveredMeansFinished(s);
    }
  }

  lemma LifeChild(s: Sys, op: Op)
    requires ChildSound(s) && OffSound(s) && (s.phase == Up ==> WorkerSound(s)) && IsLifeOp(op) && Enabled(s, op)
    ensures ChildSound(DoLife(s, op))
  {
  }

  lemma LifeDisk(s: Sys, op: Op)
    requires DiskSound(s) && OffSound(s) && IsLifeOp(op) && Enabled(s, op)
    ensures var t := DoLife(s, op);
            && DiskSound(t) && OffSound(t)
            && forall id | id in s.disk && Terminal(s.disk[id]) :: id in t.disk && t.disk[id] == s.disk[id]
  {
    if op.RecoverDone? { RecoveredMeansFinished(s); }
  }

  lemma InQueueKept(s: Sys, t: Sys)
    requires s.queue == t.queue
    ensures forall id :: InQueue(s, id) == InQueue(t, id)
  {
  }

  /** Once recovery has nothing left to do, every job on disk and in memory is terminal. */
  lemma RecoveredMeansFinished(s: Sys)
    requires DiskSound(s) && s.phase == Recovering({})
    ensures s.jobs == s.disk && forall id | id in s.disk :: Terminal(s.disk[id])
  {
    assert s.jobs.Keys == s.disk.Keys;
  }

  // ---- All steps ----

  lemma DoKeeps(s: Sys, op: Op)
    requires Inv(s) && Enabled(s, op)
    ensures Inv(Do(s, op))
    ensures forall id | id in s.disk && Terminal(s.disk[id]) :: id in Do(s, op).disk && Do(s, op).disk[id] == s.disk[id]
  {
    hide DoClient, DoWorker, DoLife, DiskSound, OffSound, QueueSound, WorkerSound, ChildSound;
    if IsClientOp(op) {
      ClientCore(s, op);
      ClientChild(s, op);
      ClientFinished(s, op);
    } else if IsLifeOp(op) {
      LifeQueue(s, op);
      if DoLife(s, op).phase == Up { LifeWorker(s, op); }
      LifeChild(s, op);
      LifeDisk(s, op);
    } else {
      WorkerUp(s, op);
      WorkerCore(s, op);
      WorkerChild(s, op);
      WorkerFinished(s, op);
    }
  }

  lemma WorkerUp(s: Sys, op: Op)
    requires !IsClientOp(op) && !IsLifeOp(op) && Enabled(s, op)
    ensures s.phase == Up && DoWorker(s, op).phase == Up
  {
  }

  /** A finished job keeps its status on disk through every step. */
  lemma StepKeepsFinished(s: Sys, op: Op, id: Id)
    requires Inv(s) && id in s.disk && Terminal(s.disk[id])
    ensures id in Step(s, op).disk && Step(s, op).disk[id] == s.disk[id]
  {
    hide Inv, Do;
    if Enabled(s, op) { DoKeeps(s, op); }
  }

  lemma StepKeeps(s: Sys, op: Op)
    requires Inv(s)
    ensures Inv(Step(s, op))
  {
    hide Inv, Do;
    if Enabled(s, op) { DoKeeps(s, op); }
  }

  lemma {:induction false} RunKeeps(s: Sys, ops: seq<Op>)
    requires Inv(s)
    ensures Inv(Run(s, ops))
    decreases |ops|
  {
    if ops != [] {
      hide Inv, Step;
      RunKeeps(s, ops[..|ops| - 1]);
      StepKeeps(Run(s, ops[..|ops| - 1]), ops[|ops| - 1]);
    }
  }

  lemma FirstBootHolds()
    ensures Inv(FIRST_BOOT)
  {
  }

  // ---- What every run keeps ----

  /** A terminal status on disk never changes: not by the worker, by cancel, by shutdown, by a crash or by recovery. */
  lemma {:induction false} FinishedStaysFinished(s: Sys, ops: seq<Op>, id: Id)
    requires Inv(s) && id in s.disk && Terminal(s.disk[id])
    ensures id in Run(s, ops).disk && Run(s, ops).disk[id] == s.disk[id]
    ensures Run(s, ops).phase == Up ==> id in Run(s, ops).jobs && Run(s, ops).jobs[id] == s.disk[id]
    decreases |ops|
  {
    RunKeeps(s, ops);
    if ops != [] {
      var m := Run(s, ops[..|ops| - 1]);
      FinishedStaysFinished(s, ops[..|ops| - 1], id);
      RunKeeps(s, ops[..|ops| - 1]);
      StepKeepsFinished(m, ops[|ops| - 1], id);
      hide Step, QueueSound, WorkerSound, ChildSound;
    }
  }

  /** A terminal status once returned to a caller is the status for ever after. */
  lemma ReportedStatusIsFinal(s: Sys, ops: seq<Op>, id: Id)
    requires Inv(s) && id in s.reported
    ensures Terminal(s.reported[id]) && id in Run(s, ops).disk && Run(s, ops).disk[id] == s.reported[id]
    ensures Run(s, ops).phase == Up ==> id in Run(s, ops).jobs && Run(s, ops).jobs[id] == s.reported[id]
  {
    FinishedStaysFinished(s, ops, id);
  }

  lemma AtMostOneRunning(ops: seq<Op>, a: Id, b: Id)
    requires var s := Run(FIRST_BOOT, ops);
             s.phase == Up && a in s.jobs && b in s.jobs && s.jobs[a] == Running && s.jobs[b] == Running
    ensures a == b
  {
    FirstBootHolds();
    RunKeeps(FIRST_BOOT, ops);
  }

  /** A queued job is in the bounded queue at exactly one place, or in the worker's hand and not in the queue. */
  lemma QueuedOnceOrInHand(ops: seq<Op>, id: Id)
    requires var s := Run(FIRST_BOOT, ops); s.phase == Up && id in s.jobs && s.jobs[id] == Queued
    ensures var s := Run(FIRST_BOOT, ops);
            && |s.queue| <= QUEUE_CAPACITY
            && (InQueue(s, id) <==> s.worker != Taken(id))
            && forall i, j | 0 <= i < |s.queue| && 0 <= j < |s.queue| && s.queue[i] == id && s.queue[j] == id :: i == j
  {
    FirstBootHolds();
    RunKeeps(FIRST_BOOT, ops);
  }

  // ---- Crash and recovery ----

  function RecoverOps(order: seq<Id>): seq<Op> { seq(|order|, i requires 0 <= i < |order| => RecoverOp(order[i])) }

  lemma {:induction false} RecoverySteps(s: Sys, order: seq<Id>)
    requires Inv(s) && s.phase == Recovering(s.disk.Keys) && Visited(order) <= s.disk.Keys
    ensures var t := Run(s, RecoverOps(order));
            && t.phase == Recovering(s.disk.Keys - Visited(order))
                 && t.disk == InterruptedIn(s.disk, s.disk, Visited(order))
            && t.reported == s.reported
    decreases |order|
  {
    var ops := RecoverOps(order);
    if order == [] {
      NobodyVisited(s.disk, s.disk);
    } else {
      var n := |order| - 1;
      var id := order[n];
      assert ops[..n] == RecoverOps(order[..n]);
      assert order[..n + 1] == order;
      VisitNext(order, n);
      assert Visited(order[..n]) <= Visited(order);
      RecoverySteps(s, order[..n]);
      RunKeeps(s, ops[..n]);
      RecoverNext(s, Run(s, ops[..n]), Visited(order[..n]), id);
    }
  }

  lemma RecoverNext(s: Sys, m: Sys, done: set<Id>, id: Id)
    requires Inv(m) && m.phase == Recovering(s.disk.Keys - done) && id in s.disk
    requires m.disk == InterruptedIn(s.disk, s.disk, done)
    ensures var t := Step(m, RecoverOp(id));
            && t.phase == Recovering(s.disk.Keys - (done + {id}))
                 && t.disk == InterruptedIn(s.disk, s.disk, done + {id})
            && t.reported == m.reported
  {
    VisitOne(s.disk, s.disk, done, id);
    if id in done {
      assert s.disk.Keys - (done + {id}) == s.disk.Keys - done;
    } else {
      assert s.disk.Keys - (done + {id}) == s.disk.Keys - done - {id};
      if Terminal(s.disk[id]) { assert m.disk[id := m.disk[id]] == m.disk; }
    }
  }

  /** A crash at any point followed by a restart makes every job terminal and changes no finished one; the recovered
      jobs are exactly those RecoverJobs computes, whatever order the directory is read in. */
  lemma CrashThenRecovery(s: Sys, order: seq<Id>)
    requires Inv(s) && Visited(order) == s.disk.Keys
    ensures var t := Run(s, [Crash, Boot] + RecoverOps(order) + [RecoverDone]);
            && t.phase == Up && t.worker == Idle && t.queue == []
            && t.jobs == t.disk == InterruptedIn(s.disk, s.disk, s.disk.Keys)
            && (forall id | id in t.jobs :: Terminal(t.jobs[id]))
            && (forall id | id in s.reported :: id in t.jobs && t.jobs[id] == s.reported[id])
  {
    hide Inv, Step;
    var ops := [Crash, Boot] + RecoverOps(order) + [RecoverDone];
    var booted := Run(s, [Crash, Boot]);
    BootedFrom(s);
    RunKeeps(s, [Crash, Boot]);
    RecoverySteps(booted, order);
    RunKeeps(booted, RecoverOps(order));
    RunContinues(s, [Crash, Boot], RecoverOps(order));
    assert ops[..|ops| - 1] == [Crash, Boot] + RecoverOps(order);
    ServingAgain(Run(booted, RecoverOps(order)));
  }

  lemma BootedFrom(s: Sys)
    ensures var t := Run(s, [Crash, Boot]);
            t.phase == Recovering(s.disk.Keys) && t.disk == s.disk && t.reported == s.reported
  {
    assert [Crash, Boot][..1] == [Crash] && [Crash][..0] == [];
    assert Run(s, [Crash]) == Step(s, Crash) && Run(s, [Crash, Boot]) == Step(Step(s, Crash), Boot);
  }

  lemma ServingAgain(s: Sys)
    requires Inv(s) && s.phase == Recovering({})
    ensures var t := Step(s, RecoverDone);
            && t.phase == Up && t.worker == Idle && t.queue == [] && t.jobs == t.disk == s.disk
            && (forall id | id in t.jobs :: Terminal(t.jobs[id]))
            && (forall id | id in s.reported :: id in t.jobs && t.jobs[id] == s.reported[id])
  {
    RecoveredMeansFinished(s);
  }

  lemma {:induction false} RunContinues(s: Sys, a: seq<Op>, b: seq<Op>)
    ensures Run(s, a + b) == Run(Run(s, a), b)
    decreases |b|
  {
    if b == [] {
      assert a + b == a;
    } else {
      var c := b[..|b| - 1];
      assert (a + b)[..|a + b| - 1] == a + c;
      RunContinues(s, a, c);
    }
  }

  // ---- Cancellation ----

  /** A cancelled job whose child lives is never missed: the child under watch is already condemned, and a child not
      yet addressable is condemned by the very next section of the worker.  The worker stays until the child is gone. */
  lemma CancellationNeverMissed(ops: seq<Op>, id: Id, pid: Pid)
    requires var s := Run(FIRST_BOOT, ops);
             s.phase == Up && id in s.jobs && s.jobs[id] == Cancelled && pid in s.alive && Holds(s.worker, id)
    ensures var s := Run(FIRST_BOOT, ops);
            && ((s.worker.Watching? && s.worker.pid == pid && pid in s.committed)
                || (s.worker == Launched(id, pid) && pid in Step(s, WorkerAssign).committed))
            && (forall code :: !Enabled(s, WorkerEnds(code)))
  {
    FirstBootHolds();
    RunKeeps(FIRST_BOOT, ops);
  }

  /** And it never ends as completed, failed or interrupted. */
  lemma CancelledStaysCancelled(s: Sys, id: Id, ops: seq<Op>)
    requires Inv(s) && s.phase == Up && id in s.jobs && !Terminal(s.jobs[id])
    ensures var t := Run(Step(s, CancelOp(id)), ops);
            id in t.disk && t.disk[id] == Cancelled && (t.phase == Up ==> id in t.jobs && t.jobs[id] == Cancelled)
  {
    StepKeeps(s, CancelOp(id));
    FinishedStaysFinished(Step(s, CancelOp(id)), ops, id);
  }

  /** A job completes only from running, with a child that exited zero in time and a valid artifact. */
  lemma CompletedOnlyByAGoodRun(s: Sys, op: Op, id: Id)
    requires Inv(s) && id in s.disk && s.disk[id] != Completed
    requires id in Step(s, op).disk && Step(s, op).disk[id] == Completed
    ensures op == WorkerFinish(true) && s.worker == Judging(id, false, 0) && id in s.jobs && s.jobs[id] == Running
  {
    hide QueueSound, ChildSound, OffSound;
    if IsClientOp(op) { ClientCompletesNone(s, op, id); }
    else if IsLifeOp(op) { LifeCompletesNone(s, op, id); }
  }

  lemma ClientCompletesNone(s: Sys, op: Op, id: Id)
    requires DiskSound(s) && IsClientOp(op) && Enabled(s, op) && id in DoClient(s, op).disk
    ensures DoClient(s, op).disk[id] == Completed ==> id in s.disk && s.disk[id] == Completed
  {
    if op.CancelOp? { CancelCompletesNone(s, op.id); }
    hide Cancel;
  }

  lemma CancelCompletesNone(s: Sys, cancelled: Id)
    ensures forall id | id in Cancel(s, cancelled).disk && Cancel(s, cancelled).disk[id] == Completed ::
              id in s.disk && s.disk[id] == Completed
  {
  }

  lemma LifeCompletesNone(s: Sys, op: Op, id: Id)
    requires IsLifeOp(op) && Enabled(s, op) && id in DoLife(s, op).disk
    ensures DoLife(s, op).disk[id] == Completed ==> id in s.disk && s.disk[id] == Completed
  {
  }
}
