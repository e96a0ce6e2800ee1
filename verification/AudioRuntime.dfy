/** The audio job runtime at the granularity of its lock sections: one queue, one worker, cancellation, shutdown,
    crash and restart.  Each section of the class is proved equal to the function that specifies it. */
module AudioRuntime {
  import opened Common

  const QUEUE_CAPACITY := 4
  const LOG_TAIL := 16384

  type Id = string
  type Pid = nat

  datatype Status = Queued | Running | Completed | Failed | Cancelled | Interrupted

  predicate Terminal(st: Status) { st != Queued && st != Running }

  predicate Withdrawn(st: Status) { st == Cancelled || st == Interrupted }

  /** Where the worker is between two of its lock sections. */
  datatype Worker =
    | Idle
    | Taken(id: Id)
    | Launching(id: Id)
    | Launched(id: Id, pid: Pid)
    | Watching(id: Id, pid: Pid, timedOut: bool)
    | Ended(id: Id, timedOut: bool, code: int)
    | Cleared(id: Id, timedOut: bool, code: int)
    | Judging(id: Id, timedOut: bool, code: int)
    | Failing(id: Id)
    | Gone

  datatype Phase = Down | Recovering(todo: set<Id>) | Up

  datatype Sys = Sys(
    phase: Phase, jobs: map<Id, Status>, disk: map<Id, Status>, queue: seq<Id>,
    currentJob: Option<Id>, currentProcess: Option<Pid>, stopping: bool,
    worker: Worker, alive: set<Pid>, committed: set<Pid>, launched: set<Pid>,
    reported: map<Id, Status>)

  // ---- Lock sections as functions ----

  /** Every change of status is written to disk in the same section. */
  function SetStatus(s: Sys, id: Id, st: Status): Sys {
    s.(jobs := s.jobs[id := st], disk := s.disk[id := st])
  }

  function ReportOf(s: Sys, id: Id): Sys {
    if id in s.jobs && Terminal(s.jobs[id]) then s.(reported := s.reported[id := s.jobs[id]]) else s
  }

  predicate Ready(s: Sys, modelReady: bool) { modelReady && s.worker != Gone && !s.stopping }

  function Submit(s: Sys, id: Id, modelReady: bool): Result<Sys, ()> {
    var room := |s.queue| < QUEUE_CAPACITY;
    :- Need(Ready(s, modelReady), ());
    :- Need(room, ());
    Ok(SetStatus(s, id, Queued).(queue := s.queue + [id]))
  }

  function Commit(s: Sys): Sys {
    if s.currentProcess.Some? then s.(committed := s.committed + {s.currentProcess.value}) else s
  }

  function Cancel(s: Sys, id: Id): Sys {
    if id !in s.jobs || Terminal(s.jobs[id]) then s
    else
      var s1 := SetStatus(s, id, Cancelled);
      if s1.currentJob == Some(id) then Commit(s1) else s1
  }

  function TakeJob(s: Sys, id: Id): Sys {
    if id !in s.jobs || s.jobs[id] != Queued then s.(worker := Idle)
    else SetStatus(s, id, Running).(worker := Launching(id))
  }

  function AssignProcess(s: Sys, id: Id, pid: Pid): Sys {
    var s1 := s.(currentJob := Some(id), currentProcess := Some(pid), worker := Watching(id, pid, false));
    if s.stopping || id !in s.jobs || s.jobs[id] != Running then s1.(committed := s1.committed + {pid}) else s1
  }

  function ClearProcess(s: Sys, id: Id, timedOut: bool, code: int): Sys {
    var s1 := s.(worker := Cleared(id, timedOut, code));
    if s.currentJob == Some(id) then s1.(currentJob := None, currentProcess := None) else s1
  }

  function Review(s: Sys, id: Id, timedOut: bool, code: int): Sys {
    if id in s.jobs && Withdrawn(s.jobs[id]) then s.(worker := Idle) else s.(worker := Judging(id, timedOut, code))
  }

  function Finish(s: Sys, id: Id, good: bool): Sys {
    var s1 := s.(worker := Idle);
    if id in s.jobs && !Withdrawn(s.jobs[id]) then SetStatus(s1, id, if good then Completed else Failed) else s1
  }

  function MarkFailed(s: Sys, id: Id): Sys {
    var s1 := s.(worker := Idle);
    if id in s.jobs && !Terminal(s.jobs[id]) then SetStatus(s1, id, Failed) else s1
  }

  /** The jobs among `visited` that shutdown still finds unfinished, each now interrupted. */
  function Interruptions(jobs: map<Id, Status>, visited: set<Id>): map<Id, Status> {
    map id | id in jobs && id in visited && !Terminal(jobs[id]) :: Interrupted
  }

  function InterruptedIn(base: map<Id, Status>, jobs: map<Id, Status>, visited: set<Id>): map<Id, Status> {
    base + Interruptions(jobs, visited)
  }

  function StopSection(s: Sys): Sys {
    Commit(s.(jobs := InterruptedIn(s.jobs, s.jobs, s.jobs.Keys), disk := InterruptedIn(s.disk, s.jobs, s.jobs.Keys)))
  }

  function RecoverOne(s: Sys, id: Id): Sys
    requires s.phase.Recovering? && id in s.disk
  {
    var st := if Terminal(s.disk[id]) then s.disk[id] else Interrupted;
    SetStatus(s, id, st).(phase := Recovering(s.phase.todo - {id}))
  }

  function Crashed(s: Sys): Sys {
    s.(phase := Down, jobs := map[], queue := [], currentJob := None, currentProcess := None, stopping := false,
       worker := Gone, alive := {}, committed := {})
  }

  // ---- The transition system ----

  datatype Op =
    | SubmitOp(id: Id, modelReady: bool)
    | CancelOp(id: Id)
    | GetOp(id: Id)
    | PersistOp(id: Id)                    // the memory monitor rewrites a job as it is
    | WorkerGet | WorkerTake | WorkerSpawn(pid: Pid) | WorkerError | WorkerAssign
    | ProcessEnds(pid: Pid)
    | Timeout | WorkerEnds(code: int) | WorkerClear | WorkerReview | WorkerFinish(wavValid: bool) | WorkerFail
    | StopBegins | StopLocks | WorkerCancelled
    | Crash | CrashWhileStopping(written: set<Id>) | Boot | RecoverOp(id: Id) | RecoverDone

  predicate Errs(w: Worker) { w.Launching? || w.Ended? || w.Cleared? || w.Judging? }

  predicate IsClientOp(op: Op) {
    op.SubmitOp? || op.CancelOp? || op.GetOp? || op.PersistOp? || op.ProcessEnds?
  }

  predicate IsLifeOp(op: Op) {
    op.StopBegins? || op.StopLocks? || op.WorkerCancelled? || op.Crash? || op.CrashWhileStopping? || op.Boot?
        || op.RecoverOp? || op.RecoverDone?
  }

  predicate Enabled(s: Sys, op: Op) {
    match op
    case SubmitOp(id, _) => s.phase == Up && id !in s.jobs && id !in s.disk && id !in s.reported
    case CancelOp(_) => s.phase == Up
    case GetOp(_) => s.phase == Up
    case PersistOp(id) => s.phase == Up && id in s.jobs
    case WorkerGet => s.phase == Up && s.worker.Idle? && s.queue != []
    case WorkerTake => s.phase == Up && s.worker.Taken?
    case WorkerSpawn(pid) => s.phase == Up && s.worker.Launching? && pid !in s.launched
    case WorkerError => s.phase == Up && Errs(s.worker)
    case WorkerAssign => s.phase == Up && s.worker.Launched?
    case ProcessEnds(pid) => pid in s.alive
    case Timeout => s.phase == Up && s.worker.Watching?
    case WorkerEnds(_) => s.phase == Up && s.worker.Watching? && s.worker.pid !in s.alive
    case WorkerClear => s.phase == Up && s.worker.Ended?
    case WorkerReview => s.phase == Up && s.worker.Cleared?
    case WorkerFinish(_) => s.phase == Up && s.worker.Judging?
    case WorkerFail => s.phase == Up && s.worker.Failing?
    case StopBegins => s.phase == Up
    case StopLocks => s.phase == Up && s.stopping
    case WorkerCancelled => s.phase == Up && s.stopping && forall id | id in s.jobs :: Terminal(s.jobs[id])
    case Crash => true
    case CrashWhileStopping(_) => s.phase == Up && s.stopping
    case Boot => s.phase == Down
    case RecoverOp(id) => s.phase.Recovering? && id in s.phase.todo && id in s.disk
    case RecoverDone => s.phase == Recovering({})
  }

  function DoClient(s: Sys, op: Op): Sys
    requires IsClientOp(op) && Enabled(s, op)
  {
    match op
    case SubmitOp(id, modelReady) => var r := Submit(s, id, modelReady); if r.Ok? then r.value else s
    case CancelOp(id) => ReportOf(Cancel(s, id), id)
    case GetOp(id) => ReportOf(s, id)
    case PersistOp(id) => s.(disk := s.disk[id := s.jobs[id]])
    case ProcessEnds(pid) => s.(alive := s.alive - {pid})
  }

  function DoWorker(s: Sys, op: Op): Sys
    requires !IsClientOp(op) && !IsLifeOp(op) && Enabled(s, op)
  {
    match op
    case WorkerGet => s.(queue := s.queue[1..], worker := Taken(s.queue[0]))
    case WorkerTake => TakeJob(s, s.worker.id)
    case WorkerSpawn(pid) =>
      s.(alive := s.alive + {pid}, launched := s.launched + {pid}, worker := Launched(s.worker.id, pid))
    case WorkerError => s.(worker := Failing(s.worker.id))
    case WorkerAssign => AssignProcess(s, s.worker.id, s.worker.pid)
    case Timeout => s.(worker := Watching(s.worker.id, s.worker.pid, true), committed := s.committed + {s.worker.pid})
    case WorkerEnds(code) => s.(worker := Ended(s.worker.id, s.worker.timedOut, code))
    case WorkerClear => ClearProcess(s, s.worker.id, s.worker.timedOut, s.worker.code)
    case WorkerReview => Review(s, s.worker.id, s.worker.timedOut, s.worker.code)
    case WorkerFinish(wavValid) => Finish(s, s.worker.id, !s.worker.timedOut && s.worker.code == 0 && wavValid)
    case WorkerFail => MarkFailed(s, s.worker.id)
  }

  function DoLife(s: Sys, op: Op): Sys
    requires IsLifeOp(op) && Enabled(s, op)
  {
    match op
    case StopBegins => s.(stopping := true)
    case StopLocks => StopSection(s)
    case WorkerCancelled => s.(worker := Gone)
    case Crash => Crashed(s)
    case CrashWhileStopping(written) => Crashed(s.(disk := InterruptedIn(s.disk, s.jobs, written)))
    case Boot => s.(phase := Recovering(s.disk.Keys))
    case RecoverOp(id) => RecoverOne(s, id)
    case RecoverDone => s.(phase := Up, worker := Idle)
  }

  function Do(s: Sys, op: Op): Sys
    requires Enabled(s, op)
  {
    if IsClientOp(op) then DoClient(s, op) else if IsLifeOp(op) then DoLife(s, op) else DoWorker(s, op)
  }

  /** A step whose guard is off does not happen. */
  function Step(s: Sys, op: Op): Sys { if Enabled(s, op) then Do(s, op) else s }

  function Run(s: Sys, ops: seq<Op>): Sys
    decreases |ops|
  {
    if ops == [] then s else Step(Run(s, ops[..|ops| - 1]), ops[|ops| - 1])
  }

  const FIRST_BOOT := Sys(Down, map[], map[], [], None, None, false, Gone, {}, {}, {}, map[])

  // ---- The runtime object ----

  class Runtime {
    var jobs: map<Id, Status>
    var disk: map<Id, Status>
    var queue: seq<Id>
    var currentJob: Option<Id>
    var currentProcess: Option<Pid>
    var stopping: bool

    /** The fields of the object in a system whose other parts are those of `rest`. */
    ghost predicate Is(s: Sys)
      reads this
    {
      jobs == s.jobs && disk == s.disk && queue == s.queue && currentJob == s.currentJob
      && currentProcess == s.currentProcess && stopping == s.stopping
    }

    constructor ()
      ensures Is(FIRST_BOOT)
    {
      jobs, disk, queue, currentJob, currentProcess, stopping := map[], map[], [], None, None, false;
    }

    method WriteJob(id: Id)
      requires id in jobs
      modifies this`disk
      ensures disk == old(disk)[id := jobs[id]]
    {
      disk := disk[id := jobs[id]];
    }

    method SubmitJob(id: Id, modelReady: bool, ghost s: Sys, workerGone: bool) returns (accepted: bool)
      requires Is(s) && workerGone == (s.worker == Gone)
      modifies this
      ensures accepted == Submit(s, id, modelReady).Ok?
      ensures Is(if accepted then Submit(s, id, modelReady).value else s)
    {
      if !modelReady || workerGone || stopping { return false; }
      if |queue| >= QUEUE_CAPACITY { return false; }
      jobs := jobs[id := Queued];
      WriteJob(id);
      queue := queue + [id];
      return true;
    }

    /** Answers the process this call is now committed to terminate. */
    method CancelJob(id: Id, ghost s: Sys) returns (process: Option<Pid>)
      requires Is(s)
      modifies this
      ensures Is(Cancel(s, id))
      ensures Cancel(s, id).committed == s.committed + (if process.Some? then {process.value} else {})
    {
      process := None;
      if id !in jobs || Terminal(jobs[id]) { return; }
      jobs := jobs[id := Cancelled];
      WriteJob(id);
      if currentJob == Some(id) { process := currentProcess; }
    }

    /** The worker's first section: answers whether the job is to be run. */
    method Take(id: Id, ghost s: Sys) returns (run: bool)
      requires Is(s)
      modifies this
      ensures Is(TakeJob(s, id)) && run == (TakeJob(s, id).worker == Launching(id))
    {
      if id !in jobs || jobs[id] != Queued { return false; }
      jobs := jobs[id := Running];
      WriteJob(id);
      return true;
    }

    /** Makes the child addressable and answers whether it must be terminated at once. */
    method Assign(id: Id, pid: Pid, ghost s: Sys) returns (terminate: bool)
      requires Is(s)
      modifies this
      ensures Is(AssignProcess(s, id, pid))
      ensures AssignProcess(s, id, pid).committed == s.committed + (if terminate then {pid} else {})
    {
      currentJob, currentProcess := Some(id), Some(pid);
      terminate := stopping || id !in jobs || jobs[id] != Running;
    }

    method Clear(id: Id, timedOut: bool, code: int, ghost s: Sys)
      requires Is(s)
      modifies this
      ensures Is(ClearProcess(s, id, timedOut, code))
    {
      if currentJob == Some(id) { currentJob, currentProcess := None, None; }
    }

    method FinishJob(id: Id, good: bool, ghost s: Sys)
      requires Is(s)
      modifies this
      ensures Is(Finish(s, id, good))
      ensures id in old(jobs) && old(jobs)[id] !in {Cancelled, Interrupted} ==>
                jobs == old(jobs)[id := if good then Completed else Failed] && disk == old(disk)[id := jobs[id]]
      ensures id !in old(jobs) || old(jobs)[id] in {Cancelled, Interrupted} ==> jobs == old(jobs) && disk == old(disk)
    {
      if id in jobs && !Withdrawn(jobs[id]) {
        jobs := jobs[id := if good then Completed else Failed];
        WriteJob(id);
      }
    }

    method FailJob(id: Id, ghost s: Sys)
      requires Is(s)
      modifies this
      ensures Is(MarkFailed(s, id))
    {
      if id in jobs && !Terminal(jobs[id]) {
        jobs := jobs[id := Failed];
        WriteJob(id);
      }
    }

    /** Shutdown visits every job, in the order of the dictionary. */
    method Stop(order: seq<Id>, ghost s: Sys) returns (process: Option<Pid>)
      requires Is(s) && Visited(order) == s.jobs.Keys
      modifies this
      ensures Is(StopSection(s)) && process == s.currentProcess
    {
      hide InterruptedIn, Visited;
      var i := 0;
      NobodyVisited(s.jobs, s.jobs);
      NobodyVisited(s.jobs, s.disk);
      while i < |order|
        invariant i <= |order|
        invariant jobs == InterruptedIn(s.jobs, s.jobs, Visited(order[..i]))
        invariant disk == InterruptedIn(s.disk, s.jobs, Visited(order[..i]))
        invariant queue == s.queue && currentJob == s.currentJob && currentProcess == s.currentProcess
        invariant stopping == s.stopping
      {
        VisitNext(order, i);
        VisitOne(s.jobs, s.jobs, Visited(order[..i]), order[i]);
        VisitOne(s.jobs, s.disk, Visited(order[..i]), order[i]);
        if !Terminal(jobs[order[i]]) {
          jobs := jobs[order[i] := Interrupted];
          WriteJob(order[i]);
        }
        i := i + 1;
      }
      assert order[..i] == order;
      return currentProcess;
    }

    /** Restart reads every persisted job and makes the unfinished ones terminal before anything is served. */
    method RecoverJobs(entries: seq<Id>, ghost s: Sys)
      requires Is(s) && jobs == map[] && Visited(entries) == s.disk.Keys
      modifies this
      ensures jobs == disk == InterruptedIn(s.disk, s.disk, s.disk.Keys)
      ensures queue == s.queue && currentJob == s.currentJob && currentProcess == s.currentProcess
    {
      hide InterruptedIn, Visited;
      var i := 0;
      NobodyVisited(s.disk, s.disk);
      while i < |entries|
        invariant i <= |entries|
        invariant disk == InterruptedIn(s.disk, s.disk, Visited(entries[..i]))
        invariant jobs.Keys == Visited(entries[..i])
        invariant forall id | id in jobs :: id in disk && jobs[id] == disk[id]
        invariant queue == s.queue && currentJob == s.currentJob && currentProcess == s.currentProcess
      {
        var id := entries[i];
        VisitNext(entries, i);
        VisitOne(s.disk, s.disk, Visited(entries[..i]), id);
        jobs := jobs[id := disk[id]];
        if !Terminal(jobs[id]) {
          jobs := jobs[id := Interrupted];
          WriteJob(id);
        }
        i := i + 1;
      }
      assert entries[..i] == entries;
      SameKeys(s.disk, s.disk, s.disk.Keys);
    }
  }

  ghost function Visited(order: seq<Id>): set<Id> { set i | 0 <= i < |order| :: order[i] }

  lemma NobodyVisited(jobs: map<Id, Status>, base: map<Id, Status>)
    ensures InterruptedIn(base, jobs, {}) == base && Visited([]) == {}
    ensures forall order: seq<Id> :: Visited(order[..0]) == {}
  {
    assert Interruptions(jobs, {}) == map[];
  }

  lemma VisitNext(order: seq<Id>, i: nat)
    requires i < |order|
    ensures Visited(order[..i + 1]) == Visited(order[..i]) + {order[i]} && order[i] in Visited(order)
  {
    assert order[..i + 1] == order[..i] + [order[i]];
  }

  lemma SameKeys(base: map<Id, Status>, jobs: map<Id, Status>, visited: set<Id>)
    requires jobs.Keys <= base.Keys
    ensures InterruptedIn(base, jobs, visited).Keys == base.Keys
  {
  }

  /** Visiting one more job interrupts it unless it was visited before or is finished. */
  lemma VisitOne(jobs: map<Id, Status>, base: map<Id, Status>, visited: set<Id>, id: Id)
    requires id in jobs
    ensures var m, n := InterruptedIn(base, jobs, visited), InterruptedIn(base, jobs, visited + {id});
            && (Terminal(jobs[id]) || id in visited ==> n == m)
            && (!Terminal(jobs[id]) && id !in visited ==> n == m[id := Interrupted])
            && (id in visited && !Terminal(jobs[id]) ==> id in m && m[id] == Interrupted)
            && (id !in visited || Terminal(jobs[id]) ==>
                  (id in base <==> id in m) && (id in base ==> m[id] == base[id]))
  {
    if Terminal(jobs[id]) || id in visited {
      assert Interruptions(jobs, visited + {id}) == Interruptions(jobs, visited);
    } else {
      assert Interruptions(jobs, visited + {id}) == Interruptions(jobs, visited)[id := Interrupted];
    }
  }

  // ---- Draining the child's output ----

  function Tail(all: Bytes): Bytes { if |all| > LOG_TAIL then all[|all| - LOG_TAIL..] else all }

  lemma {:induction false} DropAppend(a: Bytes, b: Bytes, cut: nat)
    requires cut <= |a|
    ensures a[cut..] + b == (a + b)[cut..]
  {
  }

  lemma {:induction false} DropTwice(s: Bytes, i: nat, j: nat)
    requires i + j <= |s|
    ensures s[i..][j..] == s[i + j..]
  {
  }

  lemma {:induction false} TailOf(s: Bytes, k: nat)
    requires |s| == LOG_TAIL + k
    ensures Tail(s) == s[k..]
  {
  }

  lemma {:induction false} TailAppend(a: Bytes, b: Bytes)
    ensures Tail(Tail(a) + b) == Tail(a + b)
  {
    if |a| > LOG_TAIL {
      var cut := |a| - LOG_TAIL;
      TailOf(a, cut);
      TailOf(a[cut..] + b, |b|);
      TailOf(a + b, cut + |b|);
      DropAppend(a, b, cut);
      DropTwice(a + b, cut, |b|);
      hide Tail;
    }
  }

  lemma {:induction false} NothingJoined(blocks: seq<Bytes>)
    ensures Tail(Joined(blocks[..0])) == []
  {
  }

  /** However the output is cut into blocks, what is kept is the last 16 KiB of all of it. */
  method DrainOutput(blocks: seq<Bytes>) returns (tail: Bytes)
    ensures tail == Tail(Joined(blocks))
  {
    hide Joined;
    tail := [];
    var i := 0;
    assert Tail(Joined(blocks[..0])) == [] by { NothingJoined(blocks); }
    while i < |blocks|
      invariant i <= |blocks| && tail == Tail(Joined(blocks[..i]))
    {
      JoinedNext(blocks, i);
      TailAppend(Joined(blocks[..i]), blocks[i]);
      tail := tail + blocks[i];
      if |tail| > LOG_TAIL { tail := tail[|tail| - LOG_TAIL..]; }
      i := i + 1;
    }
    assert blocks[..i] == blocks;
  }
}
