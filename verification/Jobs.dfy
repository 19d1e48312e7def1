/** The durable job queue: rows survive crashes, the runner's memory does not. */
module Jobs {
  import opened Wrappers

  datatype Status = Queued | Running | Succeeded | Failed | Canceled | Unknown

  predicate Terminal(s: Status) { s != Queued && s != Running }

  /** An idempotency key: a client may choose any text. */
  type Key = string

  datatype Job = Job(id: string, key: Key, command: string, cwd: string, status: Status,
                     execId: Option<string>, exitCode: Option<int>, cancelRequested: bool,
                     outputBytes: nat, outputTruncated: bool, createdAt: int, finishedAt: Option<int>)

  /** fs_job in rowid order. */
  type Table = seq<Job>

  // --- Statements ----------------------------------------------------------------

  function FindId(t: Table, id: string): (i: nat)
    ensures i <= |t| && (i < |t| ==> t[i].id == id) && forall k | 0 <= k < i :: t[k].id != id
  {
    if t == [] || t[0].id == id then 0 else 1 + FindId(t[1..], id)
  }

  function FindKey(t: Table, key: Key): (i: nat)
    ensures i <= |t| && (i < |t| ==> t[i].key == key) && forall k | 0 <= k < i :: t[k].key != key
  {
    if t == [] || t[0].key == key then 0 else 1 + FindKey(t[1..], key)
  }

  datatype Submission = Created(job: Job) | Existing(job: Job) | Conflict

  function Submit(t: Table, id: string, key: Key, command: string, cwd: string, now: int): (Table, Submission) {
    var i := FindKey(t, key);
    if i < |t| then
      if t[i].command != command || t[i].cwd != cwd then (t, Conflict) else (t, Existing(t[i]))
    else
      var job := Job(id, key, command, cwd, Queued, None, None, false, 0, false, now, None);
      (t + [job], Created(job))
  }

  function Interrupted(j: Job, now: int): Job {
    if j.status == Running then j.(status := Unknown, finishedAt := Some(now)) else j
  }

  function RecoverOrphans(t: Table, now: int): (r: Table)
    ensures |r| == |t| && forall i | 0 <= i < |t| :: r[i] == Interrupted(t[i], now)
  {
    seq(|t|, i requires 0 <= i < |t| => Interrupted(t[i], now))
  }

  /** Row `i` is the queued job with the least (created_at, rowid). */
  predicate Oldest(t: Table, i: nat) {
    && i < |t| && t[i].status == Queued
    && (forall k | 0 <= k < |t| && t[k].status == Queued ::
          t[i].createdAt < t[k].createdAt || (t[i].createdAt == t[k].createdAt && i <= k))
  }

  function OldestFrom(t: Table, i: nat, best: Option<nat>): (r: Option<nat>)
    requires i <= |t| && (best.Some? ==> best.value < i && t[best.value].status == Queued)
    requires best.None? ==> forall k | 0 <= k < i :: t[k].status != Queued
    requires best.Some? ==> forall k | 0 <= k < i && t[k].status == Queued ::
               t[best.value].createdAt < t[k].createdAt
                 || (t[best.value].createdAt == t[k].createdAt && best.value <= k)
    ensures match r
            case Some(k) => Oldest(t, k)
            case None => forall k | 0 <= k < |t| :: t[k].status != Queued
    decreases |t| - i
  {
    if i == |t| then best
    else if t[i].status == Queued && (best.None? || t[i].createdAt < t[best.value].createdAt)
    then OldestFrom(t, i + 1, Some(i))
    else OldestFrom(t, i + 1, best)
  }

  function NextQueued(t: Table): (r: Option<nat>)
    ensures match r
            case Some(k) => Oldest(t, k)
            case None => forall k | 0 <= k < |t| :: t[k].status != Queued
  {
    OldestFrom(t, 0, None)
  }

  function Update(t: Table, id: string, f: Job -> Job): (r: Table)
    ensures |r| == |t| && forall i | 0 <= i < |t| :: r[i] == if t[i].id == id then f(t[i]) else t[i]
  {
    seq(|t|, i requires 0 <= i < |t| => if t[i].id == id then f(t[i]) else t[i])
  }

  function Finalize(t: Table, id: string, status: Status, exitCode: Option<int>,
                    outputBytes: nat, truncated: bool, now: int): Table {
    Update(t, id, (j: Job) => j.(status := status, exitCode := exitCode, outputBytes := outputBytes,
                                 outputTruncated := truncated, finishedAt := Some(now)))
  }

  function RequestCancel(t: Table, id: string, now: int): Table {
    Update(t, id, (j: Job) =>
      match j.status
      case Queued => j.(status := Canceled, cancelRequested := true, finishedAt := Some(now))
      case Running => j.(cancelRequested := true)
      case _ => j)
  }

  function SetExecId(t: Table, id: string, execId: string): Table {
    Update(t, id, (j: Job) => j.(execId := Some(execId)))
  }

  // --- The runner, between its awaits ------------------------------------------------

  /** Where runNextJob stands. Starting has called execStream and waits for it,
      Streaming reads its events. */
  datatype Runner =
    | Idle | Recycling | Deferring | Starting(id: string)
    | Streaming(id: string, exitCode: Option<int>, outputBytes: nat, truncated: bool)
    | Advancing

  /** `started` logs the jobs whose command was handed to the container. */
  datatype State = State(jobs: Table, runner: Runner, started: seq<string>)

  const EMPTY := State([], Idle, [])

  datatype Event =
    | Submitting(id: string, key: Key, command: string, cwd: string, now: int)
    | Canceling(id: string, now: int)
    | Waking(busy: bool, now: int)
    | Recycled(ok: bool, busy: bool, now: int)
    | StartFailed(unknown: bool, now: int)
    | StartSucceeded
    | ExecStarted(execId: string)
    | OutputStored(outputBytes: nat, truncated: bool)
    | Exited(exitCode: int)
    | StreamFailed(unknown: bool, now: int)
    | StreamEnded(now: int)
    | Scheduled
    | Crash

  /** Past recovery: defer, or claim the oldest queued job and start its command. */
  function Claim(s: State, busy: bool): State {
    if busy then s.(runner := Deferring)
    else
      match NextQueued(s.jobs)
      case None => s.(runner := Idle)
      case Some(i) =>
        var id := s.jobs[i].id;
        s.(jobs := s.jobs[i := s.jobs[i].(status := Running)], runner := Starting(id), started := s.started + [id])
  }

  function Finish(s: State, id: string, status: Status, exitCode: Option<int>, outputBytes: nat,
    truncated: bool, now: int): State {
    s.(jobs := Finalize(s.jobs, id, status, exitCode, outputBytes, truncated, now), runner := Advancing)
  }

  function Outcome(canceled: bool, exitCode: Option<int>): Status {
    if canceled then Canceled
    else if exitCode == Some(0) then Succeeded
    else if exitCode.None? then Unknown else Failed
  }

  /** An event the runner is not waiting for does nothing. */
  function Step(s: State, e: Event): State {
    match e
    case Submitting(id, key, command, cwd, now) => s.(jobs := Submit(s.jobs, id, key, command, cwd, now).0)
    case Canceling(id, now) => s.(jobs := RequestCancel(s.jobs, id, now))
    case Waking(busy, now) =>
      if s.runner != Idle then s
      else
        var s' := s.(jobs := RecoverOrphans(s.jobs, now));
        if exists i | 0 <= i < |s.jobs| :: s.jobs[i].status == Running then s'.(runner := Recycling)
        else Claim(s', busy)
    case Recycled(ok, busy, now) =>
      if s.runner != Recycling then s else if !ok then s.(runner := Idle) else Claim(s, busy)
    case StartFailed(unknown, now) =>
      if !s.runner.Starting? then s
      else Finish(s, s.runner.id, if unknown then Unknown else Failed, None, 0, false, now)
    case StartSucceeded =>
      if !s.runner.Starting? then s else s.(runner := Streaming(s.runner.id, None, 0, false))
    case ExecStarted(execId) =>
      if !s.runner.Streaming? then s else s.(jobs := SetExecId(s.jobs, s.runner.id, execId))
    case OutputStored(outputBytes, truncated) =>
      if !s.runner.Streaming? then s
      else s.(runner := s.runner.(outputBytes := outputBytes, truncated := truncated))
    case Exited(exitCode) =>
      if !s.runner.Streaming? then s else s.(runner := s.runner.(exitCode := Some(exitCode)))
    case StreamFailed(unknown, now) =>
      if !s.runner.Streaming? then s
      else Finish(s, s.runner.id, if unknown then Unknown else Failed, s.runner.exitCode,
                  s.runner.outputBytes, s.runner.truncated, now)
    case StreamEnded(now) =>
      if !s.runner.Streaming? then s
      else
        var i := FindId(s.jobs, s.runner.id);
        var canceled := i < |s.jobs| && s.jobs[i].cancelRequested;
        Finish(s, s.runner.id, Outcome(canceled, s.runner.exitCode), s.runner.exitCode,
               s.runner.outputBytes, s.runner.truncated, now)
    case Scheduled => if s.runner == Advancing || s.runner == Deferring then s.(runner := Idle) else s
    case Crash => s.(runner := Idle)
  }

  function Run(s: State, es: seq<Event>): State
    decreases |es|
  {
    if es == [] then s else Run(Step(s, es[0]), es[1..])
  }

  /** Each submission brings an id no row has: they are random UUIDs. */
  predicate Fresh(s: State, e: Event) { e.Submitting? ==> FindId(s.jobs, e.id) == |s.jobs| }

  ghost predicate FreshIds(s: State, es: seq<Event>)
    decreases |es|
  {
    es == [] || (Fresh(s, es[0]) && FreshIds(Step(s, es[0]), es[1..]))
  }

  // --- The invariant ---------------------------------------------------------------------

  /** The job the runner has in hand, if any. */
  function InHand(r: Runner): Option<string> {
    match r
    case Starting(id) => Some(id)
    case Streaming(id, _, _, _) => Some(id)
    case _ => None
  }

  /** A terminal state tells what happened. */
  predicate Honest(j: Job) {
    && (j.status == Succeeded ==> j.exitCode == Some(0))
    && (j.status == Canceled ==> j.cancelRequested)
    && (Terminal(j.status) <==> j.finishedAt.Some?)
  }

  ghost predicate Unique(t: Table) {
    forall i, j | 0 <= i < j < |t| :: t[i].id != t[j].id && t[i].key != t[j].key
  }

  /** Which rows may be running: the one in hand, or a crashed runner's, found idle. */
  ghost predicate RunningRows(t: Table, r: Runner) {
    && (forall i, j | 0 <= i < |t| && 0 <= j < |t| && t[i].status == Running && t[j].status == Running :: i == j)
    && (InHand(r).Some? ==> exists i :: 0 <= i < |t| && t[i].id == InHand(r).value && t[i].status == Running)
    && (InHand(r).None? && r != Idle ==> forall i | 0 <= i < |t| :: t[i].status != Running)
  }

  /** A started job is not queued, and was started once. */
  ghost predicate StartedOnce(t: Table, started: seq<string>) {
    && (forall i, j | 0 <= i < j < |started| :: started[i] != started[j])
    && (forall i | 0 <= i < |t| && t[i].status == Queued :: t[i].id !in started)
    && (forall k | 0 <= k < |started| :: HasId(t, started[k]))
  }

  ghost predicate HasId(t: Table, id: string) { exists i :: 0 <= i < |t| && t[i].id == id }

  ghost predicate SameIds(t: Table, t': Table) {
    |t| <= |t'| && forall i | 0 <= i < |t| :: t'[i].id == t[i].id
  }

  lemma HasIdKept(t: Table, t': Table, started: seq<string>)
    requires SameIds(t, t') && forall k | 0 <= k < |started| :: HasId(t, started[k])
    ensures forall k | 0 <= k < |started| :: HasId(t', started[k])
  {
    forall k | 0 <= k < |started| ensures HasId(t', started[k]) {
      var x :| 0 <= x < |t| && t[x].id == started[k];
      assert t'[x].id == started[k];
    }
  }

  ghost predicate Sound(s: State) {
    && Unique(s.jobs) && RunningRows(s.jobs, s.runner) && StartedOnce(s.jobs, s.started)
    && (forall i | 0 <= i < |s.jobs| :: Honest(s.jobs[i]))
  }

  /** Rows are only added, keep who they are, and never leave a terminal state. */
  ghost predicate Follows(t: Table, t': Table) {
    && |t| <= |t'|
    && (forall i | 0 <= i < |t| ::
          && t'[i].id == t[i].id && t'[i].key == t[i].key && t'[i].command == t[i].command && t'[i].cwd == t[i].cwd
          && (Terminal(t[i].status) ==> t'[i] == t[i])
          && (t[i].status == Running ==> t'[i].status != Queued))
  }

  // --- Rows change one at a time ------------------------------------------------------------

  /** Row `i` becomes `j`, for a job that is not finished. */
  lemma RowSound(s: State, i: nat, j: Job, runner: Runner, started: seq<string>)
    requires Sound(s) && i < |s.jobs| && !Terminal(s.jobs[i].status) && Honest(j)
    requires j.id == s.jobs[i].id && j.key == s.jobs[i].key && j.command == s.jobs[i].command && j.cwd == s.jobs[i].cwd
    requires j.status == Queued ==> s.jobs[i].status == Queued
    requires RunningRows(s.jobs[i := j], runner) && StartedOnce(s.jobs[i := j], started)
    ensures Sound(State(s.jobs[i := j], runner, started)) && Follows(s.jobs, s.jobs[i := j])
  {
  }

  lemma SameStarted(t: Table, i: nat, j: Job, started: seq<string>)
    requires StartedOnce(t, started) && i < |t| && j.id == t[i].id && (j.status == Queued ==> t[i].status == Queued)
    ensures StartedOnce(t[i := j], started)
  {
    HasIdKept(t, t[i := j], started);
  }

  lemma SubmitSound(s: State, id: string, key: Key, command: string, cwd: string, now: int)
    requires Sound(s) && FindId(s.jobs, id) == |s.jobs|
    ensures Sound(s.(jobs := Submit(s.jobs, id, key, command, cwd, now).0))
    ensures Follows(s.jobs, Submit(s.jobs, id, key, command, cwd, now).0)
  {
    if FindKey(s.jobs, key) == |s.jobs| {
      RowAdded(s, Submit(s.jobs, id, key, command, cwd, now).0[|s.jobs|]);
    }
  }

  lemma RowAdded(s: State, j: Job)
    requires Sound(s) && FindId(s.jobs, j.id) == |s.jobs| == FindKey(s.jobs, j.key) && j.status == Queued && Honest(j)
    ensures Sound(s.(jobs := s.jobs + [j])) && Follows(s.jobs, s.jobs + [j])
  {
    HasIdKept(s.jobs, s.jobs + [j], s.started);
    AddedUnique(s.jobs, j);
    AddedRunning(s.jobs, j, s.runner);
    AddedStarted(s.jobs, j, s.started);
  }

  lemma AddedUnique(t: Table, j: Job)
    requires Unique(t) && FindId(t, j.id) == |t| == FindKey(t, j.key)
    ensures Unique(t + [j])
  {
  }

  lemma AddedRunning(t: Table, j: Job, r: Runner)
    requires RunningRows(t, r) && j.status == Queued
    ensures RunningRows(t + [j], r)
  {
    if InHand(r).Some? {
      var i :| 0 <= i < |t| && t[i].id == InHand(r).value && t[i].status == Running;
      assert (t + [j])[i] == t[i];
    }
  }

  lemma AddedStarted(t: Table, j: Job, started: seq<string>)
    requires StartedOnce(t, started) && FindId(t, j.id) == |t|
    ensures j.id !in started
  {
    forall k | 0 <= k < |started| ensures started[k] != j.id { assert HasId(t, started[k]); }
  }

  lemma CancelSound(s: State, id: string, now: int)
    requires Sound(s)
    ensures Sound(s.(jobs := RequestCancel(s.jobs, id, now))) && Follows(s.jobs, RequestCancel(s.jobs, id, now))
  {
    var t, i := s.jobs, FindId(s.jobs, id);
    var t' := RequestCancel(t, id, now);
    if i < |t| && !Terminal(t[i].status) {
      assert t' == t[i := t'[i]];
      SameStarted(t, i, t'[i], s.started);
      RunningKept(t, s.runner, i, t'[i]);
      RowSound(s, i, t'[i], s.runner, s.started);
    } else {
      assert t' == t;
    }
  }

  lemma RunningKept(t: Table, r: Runner, i: nat, j: Job)
    requires RunningRows(t, r) && i < |t| && j.id == t[i].id && (j.status == Running <==> t[i].status == Running)
    ensures RunningRows(t[i := j], r)
  {
    if InHand(r).Some? {
      var k :| 0 <= k < |t| && t[k].id == InHand(r).value && t[k].status == Running;
      assert t[i := j][k].id == t[k].id && t[i := j][k].status == Running;
    }
  }

  lemma RecoverSound(s: State, now: int)
    requires Sound(s) && s.runner == Idle
    ensures var t := RecoverOrphans(s.jobs, now);
            && Sound(s.(jobs := t, runner := Recycling)) && Follows(s.jobs, t)
  {
    var t := RecoverOrphans(s.jobs, now);
    HasIdKept(s.jobs, t, s.started);
  }

  lemma NothingToRecover(t: Table, now: int)
    requires forall i | 0 <= i < |t| :: t[i].status != Running
    ensures RecoverOrphans(t, now) == t
  {
  }

  /** The oldest queued job starts; it had not been started before. */
  lemma ClaimSound(s: State, busy: bool)
    requires Sound(s) && forall i | 0 <= i < |s.jobs| :: s.jobs[i].status != Running
    ensures Sound(Claim(s, busy)) && Follows(s.jobs, Claim(s, busy).jobs)
  {
    if !busy && NextQueued(s.jobs).Some? {
      var i := NextQueued(s.jobs).value;
      var j := s.jobs[i].(status := Running);
      ClaimStarted(s.jobs, i, j, s.started);
      assert s.jobs[i := j][i].status == Running;
      RowSound(s, i, j, Starting(j.id), s.started + [j.id]);
    }
  }

  lemma ClaimStarted(t: Table, i: nat, j: Job, started: seq<string>)
    requires Unique(t) && StartedOnce(t, started) && i < |t| && t[i].status == Queued && j == t[i].(status := Running)
    ensures StartedOnce(t[i := j], started + [j.id])
  {
    SameStarted(t, i, j, started);
    assert t[i := j][i].id == j.id;
    assert HasId(t[i := j], j.id);
  }

  /** The job in hand is still running, so finalizing it without a guard is safe. */
  lemma FinishSound(s: State, status: Status, exitCode: Option<int>, outputBytes: nat, truncated: bool, now: int)
    requires Sound(s) && InHand(s.runner).Some? && Terminal(status)
    requires status == Succeeded ==> exitCode == Some(0)
    requires status == Canceled ==>
               var i := FindId(s.jobs, InHand(s.runner).value); i < |s.jobs| && s.jobs[i].cancelRequested
    ensures var s' := Finish(s, InHand(s.runner).value, status, exitCode, outputBytes, truncated, now);
            Sound(s') && Follows(s.jobs, s'.jobs)
  {
    var id := InHand(s.runner).value;
    var i :| 0 <= i < |s.jobs| && s.jobs[i].id == id && s.jobs[i].status == Running;
    assert FindId(s.jobs, id) == i;
    var t' := Finalize(s.jobs, id, status, exitCode, outputBytes, truncated, now);
    assert t' == s.jobs[i := t'[i]];
    SameStarted(s.jobs, i, t'[i], s.started);
    NoneRunning(s.jobs, s.runner, i, t'[i]);
    RowSound(s, i, t'[i], Advancing, s.started);
  }

  lemma NoneRunning(t: Table, r: Runner, i: nat, j: Job)
    requires RunningRows(t, r) && i < |t| && t[i].status == Running && j.status != Running
    ensures RunningRows(t[i := j], Advancing)
  {
  }

  lemma SetExecIdSound(s: State, execId: string)
    requires Sound(s) && s.runner.Streaming?
    ensures var t' := SetExecId(s.jobs, s.runner.id, execId);
            Sound(s.(jobs := t')) && Follows(s.jobs, t')
  {
    var i :| 0 <= i < |s.jobs| && s.jobs[i].id == s.runner.id && s.jobs[i].status == Running;
    var t' := SetExecId(s.jobs, s.runner.id, execId);
    assert t' == s.jobs[i := t'[i]];
    SameStarted(s.jobs, i, t'[i], s.started);
    assert t'[i].status == Running;
    RowSound(s, i, t'[i], s.runner, s.started);
  }

  // --- Every run ----------------------------------------------------------------------------

  lemma FollowsRefl(t: Table)
    ensures Follows(t, t)
  {
  }

  lemma FollowsCompose(a: Table, b: Table, c: Table)
    requires Follows(a, b) && Follows(b, c)
    ensures Follows(a, c)
  {
  }

  lemma WakingSound(s: State, busy: bool, now: int)
    requires Sound(s)
    ensures var s' := Step(s, Waking(busy, now)); Sound(s') && Follows(s.jobs, s'.jobs)
  {
    if s.runner == Idle {
      if exists i | 0 <= i < |s.jobs| :: s.jobs[i].status == Running {
        RecoverSound(s, now);
      } else {
        NothingToRecover(s.jobs, now);
        ClaimSound(s, busy);
      }
    } else {
      FollowsRefl(s.jobs);
    }
  }

  lemma EndingSound(s: State, e: Event)
    requires Sound(s) && (e.StartFailed? || e.StreamFailed? || e.StreamEnded?)
    ensures Sound(Step(s, e)) && Follows(s.jobs, Step(s, e).jobs)
  {
    FollowsRefl(s.jobs);
    if s.runner.Starting? && e.StartFailed? {
      FinishSound(s, if e.unknown then Unknown else Failed, None, 0, false, e.now);
    }
    if s.runner.Streaming? && e.StreamFailed? {
      FinishSound(s, if e.unknown then Unknown else Failed, s.runner.exitCode, s.runner.outputBytes,
        s.runner.truncated, e.now);
    }
    if s.runner.Streaming? && e.StreamEnded? {
      var i := FindId(s.jobs, s.runner.id);
      var canceled := i < |s.jobs| && s.jobs[i].cancelRequested;
      FinishSound(s, Outcome(canceled, s.runner.exitCode), s.runner.exitCode, s.runner.outputBytes,
        s.runner.truncated, e.now);
    }
  }

  lemma RunnerMoveSound(s: State, e: Event)
    requires Sound(s)
    requires e.StartSucceeded? || e.OutputStored? || e.Exited? || e.Scheduled? || e.Crash?
    ensures Sound(Step(s, e)) && Follows(s.jobs, Step(s, e).jobs)
  {
    assert Step(s, e).jobs == s.jobs && Step(s, e).started == s.started;
    assert InHand(Step(s, e).runner) == InHand(s.runner) || Step(s, e).runner == Idle;
  }

  lemma StepSound(s: State, e: Event)
    requires Sound(s) && Fresh(s, e)
    ensures Sound(Step(s, e)) && Follows(s.jobs, Step(s, e).jobs)
  {
    FollowsRefl(s.jobs);
    match e
    case Submitting(id, key, command, cwd, now) => SubmitSound(s, id, key, command, cwd, now);
    case Canceling(id, now) => CancelSound(s, id, now);
    case Waking(busy, now) => WakingSound(s, busy, now);
    case Recycled(ok, busy, now) => if s.runner == Recycling && ok { ClaimSound(s, busy); }
    case StartFailed(_, _) => EndingSound(s, e);
    case StreamFailed(_, _) => EndingSound(s, e);
    case StreamEnded(_) => EndingSound(s, e);
    case ExecStarted(execId) => if s.runner.Streaming? { SetExecIdSound(s, execId); }
    case StartSucceeded => RunnerMoveSound(s, e);
    case OutputStored(_, _) => RunnerMoveSound(s, e);
    case Exited(_) => RunnerMoveSound(s, e);
    case Scheduled => RunnerMoveSound(s, e);
    case Crash => RunnerMoveSound(s, e);
  }

  /** Over every run of submissions, cancellations, runner steps and crashes: one row
      per idempotency key, at most one job running, terminal rows never change, and
      each command is started at most once. */
  lemma {:induction false} RunSound(s: State, es: seq<Event>)
    requires Sound(s) && FreshIds(s, es)
    ensures Sound(Run(s, es)) && Follows(s.jobs, Run(s, es).jobs)
    decreases |es|
  {
    FollowsRefl(s.jobs);
    if es != [] {
      StepSound(s, es[0]);
      RunSound(Step(s, es[0]), es[1..]);
      FollowsCompose(s.jobs, Step(s, es[0]).jobs, Run(s, es).jobs);
    }
  }

  lemma EveryRun(es: seq<Event>)
    requires FreshIds(EMPTY, es)
    ensures Sound(Run(EMPTY, es))
  {
    RunSound(EMPTY, es);
  }

  /** A job canceled while queued is never started afterwards. */
  lemma {:induction false} FinishedNeverStarts(s: State, es: seq<Event>, i: nat)
    requires Sound(s) && FreshIds(s, es) && i < |s.jobs| && Terminal(s.jobs[i].status)
    requires s.jobs[i].id !in s.started
    ensures s.jobs[i].id !in Run(s, es).started
    decreases |es|
  {
    if es != [] {
      var s' := Step(s, es[0]);
      StepSound(s, es[0]);
      assert s'.jobs[i] == s.jobs[i];
      StartsOnlyQueued(s, es[0], i);
      FinishedNeverStarts(s', es[1..], i);
    }
  }

  lemma StartsOnlyQueued(s: State, e: Event, i: nat)
    requires Sound(s) && i < |s.jobs| && Terminal(s.jobs[i].status) && s.jobs[i].id !in s.started
    ensures s.jobs[i].id !in Step(s, e).started
  {
  }

  /** Submitting a known key again adds nothing; a new key adds one row. */
  lemma SubmitIdempotent(t: Table, id: string, id': string, key: Key, command: string, cwd: string, now: int, now': int)
    ensures var (t1, r1) := Submit(t, id, key, command, cwd, now);
            var (t2, r2) := Submit(t1, id', key, command, cwd, now');
            && t2 == t1 && !r2.Created?
            && (r1.Created? ==> t1 == t + [r1.job] && r2 == Existing(r1.job))
            && (r1.Existing? ==> r2 == r1 && t1 == t)
  {
    var t1 := Submit(t, id, key, command, cwd, now).0;
    if FindKey(t, key) == |t| {
      assert t1[|t|].key == key;
      var i := FindKey(t1, key);
      assert i == |t|;
    }
  }

  // --- What becomes of a row ----------------------------------------------------------------------

  /** Every row but the one with this id is as it was. */
  ghost predicate OnlyRow(t: Table, t': Table, i: nat) {
    && i < |t| == |t'| && t'[i].id == t[i].id && t'[i].key == t[i].key
    && t'[i].command == t[i].command && t'[i].cwd == t[i].cwd && t'[i].createdAt == t[i].createdAt
    && forall k | 0 <= k < |t| && k != i :: t'[k] == t[k]
  }

  /** A status says how a command whose output was read to the end came out: canceled if
      that was asked for, otherwise by the exit code, if there was one. */
  predicate Tells(status: Status, canceled: bool, exitCode: Option<int>) {
    && (status == Canceled <==> canceled)
    && (!canceled ==> (status == Succeeded <==> exitCode == Some(0)))
    && (!canceled ==> (status == Failed <==> exitCode.Some? && exitCode.value != 0))
    && (!canceled ==> (status == Unknown <==> exitCode == None))
  }

  lemma InHandRow(s: State)
    requires Sound(s) && InHand(s.runner).Some?
    ensures var i := FindId(s.jobs, InHand(s.runner).value);
            && i < |s.jobs| && s.jobs[i].status == Running
            && forall k | 0 <= k < |s.jobs| && s.jobs[k].id == s.jobs[i].id :: k == i
  {
    var i :| 0 <= i < |s.jobs| && s.jobs[i].id == InHand(s.runner).value && s.jobs[i].status == Running;
    FindIdIs(s.jobs, InHand(s.runner).value, i);
  }

  /** The row a stream leaves that was read to its end. */
  lemma EndedRow(s: State, now: int)
    requires Sound(s) && s.runner.Streaming?
    ensures var i, t := FindId(s.jobs, s.runner.id), Step(s, StreamEnded(now)).jobs;
            && OnlyRow(s.jobs, t, i) && Tells(t[i].status, s.jobs[i].cancelRequested, s.runner.exitCode)
            && t[i].exitCode == s.runner.exitCode && t[i].finishedAt == Some(now)
            && t[i].outputBytes == s.runner.outputBytes && t[i].outputTruncated == s.runner.truncated
  {
    InHandRow(s);
  }

  /** The row of a command that could not be started or whose stream broke: unknown if the
      error says that the outcome is, failed otherwise. */
  lemma BrokenRow(s: State, unknown: bool, now: int)
    requires Sound(s) && (s.runner.Starting? || s.runner.Streaming?)
    ensures var i := FindId(s.jobs, s.runner.id);
            var t := Step(s, if s.runner.Starting? then StartFailed(unknown, now) else StreamFailed(unknown, now)).jobs;
            && OnlyRow(s.jobs, t, i) && t[i].finishedAt == Some(now)
            && (t[i].status == Unknown <==> unknown) && (t[i].status == Failed <==> !unknown)
            && (s.runner.Starting? ==> t[i].exitCode == None && t[i].outputBytes == 0 && !t[i].outputTruncated)
            && (s.runner.Streaming? ==>
                  && t[i].exitCode == s.runner.exitCode && t[i].outputBytes == s.runner.outputBytes
                  && t[i].outputTruncated == s.runner.truncated)
  {
    InHandRow(s);
  }

  /** Waking up, the runner gives up the rows a crashed one left running: their outcome is
      unknown. If there are any, it recycles the container first and starts nothing. */
  lemma OrphanRows(s: State, busy: bool, now: int)
    requires s.runner == Idle && exists i :: 0 <= i < |s.jobs| && s.jobs[i].status == Running
    ensures var s' := Step(s, Waking(busy, now));
            && s'.runner == Recycling && s'.started == s.started && |s'.jobs| == |s.jobs|
            && forall k | 0 <= k < |s.jobs| ::
                 if s.jobs[k].status == Running
                 then s'.jobs[k] == s.jobs[k].(status := Unknown, finishedAt := Some(now)) else s'.jobs[k] == s.jobs[k]
  {
  }

  /** What the runner does once no row is running: nothing while the container is busy or
      nothing is queued, otherwise it starts the queued job that was created first. */
  lemma ClaimedRow(s: State, busy: bool, now: int)
    requires s.runner == Idle && forall i | 0 <= i < |s.jobs| :: s.jobs[i].status != Running
    ensures var s' := Step(s, Waking(busy, now));
            if busy || forall i | 0 <= i < |s.jobs| :: s.jobs[i].status != Queued
            then s'.jobs == s.jobs && s'.started == s.started && s'.runner == if busy then Deferring else Idle
            else
              exists i: nat ::
                && OnlyRow(s.jobs, s'.jobs, i) && s.jobs[i].status == Queued && s'.jobs[i].status == Running
                && s'.started == s.started + [s.jobs[i].id] && s'.runner == Starting(s.jobs[i].id)
                && forall k | 0 <= k < |s.jobs| && s.jobs[k].status == Queued ::
                     s.jobs[k].createdAt > s.jobs[i].createdAt || (s.jobs[k].createdAt == s.jobs[i].createdAt && k >= i)
  {
    NothingToRecover(s.jobs, now);
    if !busy && NextQueued(s.jobs).Some? {
      var i := NextQueued(s.jobs).value;
      assert OnlyRow(s.jobs, Step(s, Waking(busy, now)).jobs, i);
    }
  }

  /** While a command runs the runner keeps what it has been told; before, there is no exit
      code and no output. When the job is done the runner is free for the next. */
  lemma RunnerKeepsTrack(s: State, code: int, n: nat, cut: bool, now: int)
    ensures s.runner.Starting? ==> Step(s, StartSucceeded) == s.(runner := Streaming(s.runner.id, None, 0, false))
    ensures s.runner.Streaming? ==>
              && Step(s, Exited(code)) == s.(runner := s.runner.(exitCode := Some(code)))
              && Step(s, OutputStored(n, cut)) == s.(runner := s.runner.(outputBytes := n, truncated := cut))
    ensures InHand(s.runner).Some? ==>
              && (s.runner.Starting? ==> Step(Step(s, StartFailed(cut, now)), Scheduled).runner == Idle)
              && (s.runner.Streaming? ==> Step(Step(s, StreamEnded(now)), Scheduled).runner == Idle)
              && (s.runner.Streaming? ==> Step(Step(s, StreamFailed(cut, now)), Scheduled).runner == Idle)
    ensures s.runner == Deferring ==> Step(s, Scheduled).runner == Idle
    ensures InHand(s.runner).Some? || s.runner == Recycling ==> Step(s, Scheduled) == s
  {
  }

  /** One command from the queue to its end. */
  lemma OneJob(s: State, code: int, n: nat, cut: bool, now: int) returns (i: nat)
    requires Sound(s) && s.runner == Idle && NextQueued(s.jobs).Some?
    requires forall k | 0 <= k < |s.jobs| :: s.jobs[k].status != Running
    ensures var t := Run(s, [Waking(false, now), StartSucceeded, Exited(code), OutputStored(n, cut), StreamEnded(now),
                             Scheduled]);
            t.runner == Idle && DoneRow(s, t.jobs, i, code, n, cut, now) && t.started == s.started + [s.jobs[i].id]
  {
    i := NextQueued(s.jobs).value;
    WakingSound(s, false, now);
    NothingToRecover(s.jobs, now);
    var s1 := Step(s, Waking(false, now));
    OneCommand(s, s1, i, code, n, cut, now);
    SixSteps(s, s1, s1.(runner := Streaming(s1.runner.id, Some(code), n, cut)), code, n, cut, now);
  }

  ghost predicate DoneRow(s: State, t: Table, i: nat, code: int, n: nat, cut: bool, now: int) {
    && OnlyRow(s.jobs, t, i) && s.jobs[i].status == Queued
    && Tells(t[i].status, s.jobs[i].cancelRequested, Some(code)) && t[i].exitCode == Some(code)
    && t[i].outputBytes == n && t[i].outputTruncated == cut && t[i].finishedAt == Some(now)
  }

  lemma OneCommand(s: State, s1: State, i: nat, code: int, n: nat, cut: bool, now: int)
    requires Sound(s1) && i < |s.jobs| && s.jobs[i].status == Queued
    requires s1.jobs == s.jobs[i := s.jobs[i].(status := Running)]
    requires s1.runner == Starting(s.jobs[i].id) && s1.started == s.started + [s.jobs[i].id]
    ensures var s2 := s1.(runner := Streaming(s1.runner.id, Some(code), n, cut));
            var t := Step(Step(s2, StreamEnded(now)), Scheduled);
            t.runner == Idle && DoneRow(s, t.jobs, i, code, n, cut, now) && t.started == s.started + [s.jobs[i].id]
  {
    var s2 := s1.(runner := Streaming(s1.runner.id, Some(code), n, cut));
    StreamingSound(s1, s2);
    InHandRow(s2);
    assert s1.jobs[i].id == s2.runner.id;
    EndedRow(s2, now);
    DoneFrom(s, s1.jobs, Step(s2, StreamEnded(now)).jobs, i, code, n, cut, now);
  }

  lemma StreamingSound(s: State, s': State)
    requires Sound(s) && s.runner.Starting? && s'.runner.Streaming? && s'.runner.id == s.runner.id
    requires s' == s.(runner := s'.runner)
    ensures Sound(s')
  {
    assert InHand(s'.runner) == InHand(s.runner);
  }

  lemma DoneFrom(s: State, t1: Table, t: Table, i: nat, code: int, n: nat, cut: bool, now: int)
    requires i < |s.jobs| && s.jobs[i].status == Queued && t1 == s.jobs[i := s.jobs[i].(status := Running)]
    requires OnlyRow(t1, t, i) && Tells(t[i].status, s.jobs[i].cancelRequested, Some(code))
    requires t[i].exitCode == Some(code) && t[i].outputBytes == n && t[i].outputTruncated == cut
    requires t[i].finishedAt == Some(now)
    ensures DoneRow(s, t, i, code, n, cut, now)
  {
  }

  lemma SixSteps(s: State, s1: State, s2: State, code: int, n: nat, cut: bool, now: int)
    requires s1 == Step(s, Waking(false, now)) && s1.runner.Starting?
    requires s2 == s1.(runner := Streaming(s1.runner.id, Some(code), n, cut))
    ensures Run(s, [Waking(false, now), StartSucceeded, Exited(code), OutputStored(n, cut), StreamEnded(now),
                    Scheduled])
         == Step(Step(s2, StreamEnded(now)), Scheduled)
  {
    var e := [StreamEnded(now), Scheduled];
    var t := Step(s2, StreamEnded(now));
    assert e[1..] == [Scheduled] && [Scheduled][1..] == [];
    assert Run(t, [Scheduled]) == Run(Step(t, Scheduled), []);
    assert Run(s2, e) == Run(t, [Scheduled]);
    var f := [Waking(false, now), StartSucceeded, Exited(code), OutputStored(n, cut)] + e;
    assert f[1..][1..][1..][1..] == e;
    var a := Step(s1, StartSucceeded);
    var b := Step(a, Exited(code));
    assert Step(b, OutputStored(n, cut)) == s2;
    assert Run(b, f[3..]) == Run(s2, e) by { assert f[3..][1..] == e; }
    assert Run(a, f[2..]) == Run(b, f[3..]) by { assert f[2..][1..] == f[3..]; }
    assert Run(s1, f[1..]) == Run(a, f[2..]) by { assert f[1..][1..] == f[2..]; }
    assert f == [Waking(false, now), StartSucceeded, Exited(code), OutputStored(n, cut), StreamEnded(now), Scheduled];
  }

  /** Canceling: a queued job is finished, a running one flagged, any other left alone. */
  lemma CanceledRow(s: State, id: string, now: int)
    requires Sound(s) && FindId(s.jobs, id) < |s.jobs|
    ensures var i, s' := FindId(s.jobs, id), Step(s, Canceling(id, now));
            && OnlyRow(s.jobs, s'.jobs, i) && s'.runner == s.runner
            && (s.jobs[i].status == Queued ==>
                  s'.jobs[i].status == Canceled && s'.jobs[i].cancelRequested && s'.jobs[i].finishedAt == Some(now))
            && (s.jobs[i].status == Running ==> s'.jobs[i] == s.jobs[i].(cancelRequested := true))
            && (s.jobs[i].status != Queued && s.jobs[i].status != Running ==> s'.jobs[i] == s.jobs[i])
  {
  }

  /** Submitting: a known key with the same command and directory gives the job that is
      there, with others a conflict; a new key queues a job. */
  lemma SubmittedRow(t: Table, id: string, key: Key, command: string, cwd: string, now: int)
    ensures var (t', r) := Submit(t, id, key, command, cwd, now);
            && ((exists i :: 0 <= i < |t| && t[i].key == key) ==> t' == t && !r.Created?)
            && (r.Existing? ==> r.job in t && r.job.key == key && r.job.command == command && r.job.cwd == cwd)
            && (r.Conflict? ==>
                  exists i :: 0 <= i < |t| && t[i].key == key && (t[i].command != command || t[i].cwd != cwd))
            && (r.Created? <==> forall i | 0 <= i < |t| :: t[i].key != key)
            && (r.Created? ==>
                  && t' == t + [r.job] && r.job.id == id && r.job.key == key && r.job.command == command
                  && r.job.cwd == cwd && r.job.status == Queued && r.job.createdAt == now && !r.job.cancelRequested
                  && r.job.execId == None && r.job.exitCode == None && r.job.finishedAt == None)
  {
    var i := FindKey(t, key);
    if i < |t| { assert t[i] in t; }
  }

  // --- The table's operations, row by row ------------------------------------------------------

  class JobTable {
    var rows: Table

    constructor ()
      ensures rows == []
    {
      rows := [];
    }

    method Select(id: string) returns (i: nat)
      ensures i == FindId(rows, id)
    {
      i := 0;
      while i < |rows| && rows[i].id != id
        invariant i <= |rows|
        invariant forall k | 0 <= k < i :: rows[k].id != id
      {
        i := i + 1;
      }
      FindIdIs(rows, id, i);
    }

    method SubmitJob(id: string, key: Key, command: string, cwd: string, now: int) returns (result: Submission)
      modifies this
      ensures (rows, result) == Submit(old(rows), id, key, command, cwd, now)
    {
      var i := 0;
      while i < |rows|
        invariant i <= |rows|
        invariant forall k | 0 <= k < i :: rows[k].key != key
      {
        if rows[i].key == key {
          FindKeyIs(rows, key, i);
          if rows[i].command != command || rows[i].cwd != cwd { return Conflict; }
          return Existing(rows[i]);
        }
        i := i + 1;
      }
      FindKeyIs(rows, key, |rows|);
      var job := Job(id, key, command, cwd, Queued, None, None, false, 0, false, now, None);
      rows := rows + [job];
      return Created(job);
    }

    method RecoverOrphanRows(now: int) returns (recovered: nat)
      modifies this
      ensures rows == RecoverOrphans(old(rows), now)
      ensures recovered > 0 <==> exists i :: 0 <= i < |old(rows)| && old(rows)[i].status == Running
    {
      recovered := 0;
      for i := 0 to |rows|
        invariant |rows| == |old(rows)|
        invariant forall k | 0 <= k < |rows| ::
                    rows[k] == if k < i then Interrupted(old(rows)[k], now) else old(rows)[k]
        invariant recovered > 0 <==> exists k :: 0 <= k < i && old(rows)[k].status == Running
      {
        if rows[i].status == Running {
          rows := rows[i := rows[i].(status := Unknown, finishedAt := Some(now))];
          recovered := recovered + 1;
        }
      }
    }

    /** ORDER BY created_at, rowid LIMIT 1. */
    method ClaimNextJob() returns (claimed: Option<string>)
      modifies this
      ensures match NextQueued(old(rows))
              case Some(i) =>
                claimed == Some(old(rows)[i].id) && rows == old(rows)[i := old(rows)[i].(status := Running)]
              case None => claimed == None && rows == old(rows)
    {
      var best: Option<nat> := None;
      for i := 0 to |rows|
        invariant rows == old(rows)
        invariant best.Some? ==> best.value < i && rows[best.value].status == Queued
        invariant best.None? ==> forall k | 0 <= k < i :: rows[k].status != Queued
        invariant best.Some? ==> forall k | 0 <= k < i && rows[k].status == Queued ::
                    rows[best.value].createdAt < rows[k].createdAt
                    || (rows[best.value].createdAt == rows[k].createdAt && best.value <= k)
        invariant NextQueued(rows) == OldestFrom(rows, i, best)
      {
        if rows[i].status == Queued && (best.None? || rows[i].createdAt < rows[best.value].createdAt) {
          best := Some(i);
        }
      }
      if best.None? { return None; }
      claimed := Some(rows[best.value].id);
      rows := rows[best.value := rows[best.value].(status := Running)];
    }

    method CancelJob(id: string, now: int) returns (execToCancel: Option<string>)
      requires Unique(rows)
      modifies this
      ensures rows == RequestCancel(old(rows), id, now)
      ensures execToCancel.Some? ==> exists i :: 0 <= i < |rows| && rows[i].id == id && rows[i].status == Running
    {
      var i := Select(id);
      if i == |rows| { return None; }
      var row := rows[i];
      match row.status {
        case Queued => rows := rows[i := row.(status := Canceled, cancelRequested := true, finishedAt := Some(now))];
        case Running =>
          rows := rows[i := row.(cancelRequested := true)];
          execToCancel := row.execId;
          assert rows[i].id == id && rows[i].status == Running;
          return;
        case _ =>
      }
      execToCancel := None;
    }

    method FinalizeJob(id: string, status: Status, exitCode: Option<int>, outputBytes: nat, truncated: bool, now: int)
      requires Unique(rows)
      modifies this
      ensures rows == Finalize(old(rows), id, status, exitCode, outputBytes, truncated, now)
    {
      var i := Select(id);
      if i < |rows| {
        rows := rows[i := rows[i].(status := status, exitCode := exitCode, outputBytes := outputBytes,
                                   outputTruncated := truncated, finishedAt := Some(now))];
      }
    }
  }

  lemma FindIdIs(t: Table, id: string, i: nat)
    requires i <= |t| && (i < |t| ==> t[i].id == id) && forall k | 0 <= k < i :: t[k].id != id
    ensures FindId(t, id) == i
  {
  }

  lemma FindKeyIs(t: Table, key: Key, i: nat)
    requires i <= |t| && (i < |t| ==> t[i].key == key) && forall k | 0 <= k < i :: t[k].key != key
    ensures FindKey(t, key) == i
  {
  }
}
