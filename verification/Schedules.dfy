/** Cron schedules that submit jobs: which occurrences are submitted, whatever crashes
    fall between submitting one and moving the schedule on. */
module Schedules {
  import opened Wrappers
  import Cron
  import J = Jobs

  datatype Schedule = Schedule(spec: Cron.Spec, command: string, cwd: string, enabled: bool,
                               nextRun: Option<int>, lastRun: Option<int>, createdAt: int)

  /** A row as listDueSchedules read it. */
  datatype Due = Due(id: string, at: int, schedule: Schedule)

  /** `due` is what the active runner has left, None when there is no runner;
      `submitted` says that its first entry's job is in the queue. */
  datatype State = State(table: map<string, Schedule>, jobs: J.Table, due: Option<seq<Due>>, submitted: bool)

  /** The next match of an expression strictly after a time: Cron.NextCronTime. */
  type NextTime = (Cron.Spec, int) -> Option<int>

  // --- Keys ------------------------------------------------------------------------

  function Digits(n: nat): string { if n < 10 then ["0123456789"[n]] else Digits(n / 10) + ["0123456789"[n % 10]] }

  function Decimal(n: int): string { if n < 0 then "-" + Digits(-n) else Digits(n) }

  /** The idempotency key a schedule derives from its id and the occurrence. */
  function ScheduleKey(id: string, at: int): string { KeyPrefix(id) + Decimal(at) }

  function KeyPrefix(id: string): string { "schedule:" + id + ":" }

  lemma DigitsPlain(n: nat)
    ensures Digits(n) != "" && forall c | c in Digits(n) :: c in "0123456789"
  {
  }

  lemma DigitsDiffer(c: nat, d: nat)
    requires c < 10 && d < 10 && "0123456789"[c] == "0123456789"[d]
    ensures c == d
  {
  }

  lemma {:induction false} DigitsInjective(m: nat, n: nat)
    requires Digits(m) == Digits(n)
    ensures m == n
  {
    var s, t := Digits(m), Digits(n);
    DigitsPlain(m / 10);
    DigitsPlain(n / 10);
    assert s[|s| - 1] == "0123456789"[m % 10] && t[|t| - 1] == "0123456789"[n % 10];
    DigitsDiffer(m % 10, n % 10);
    if m >= 10 && n >= 10 {
      assert s[..|s| - 1] == Digits(m / 10) && t[..|t| - 1] == Digits(n / 10);
      DigitsInjective(m / 10, n / 10);
    }
  }

  lemma DecimalInjective(m: int, n: int)
    requires Decimal(m) == Decimal(n)
    ensures m == n
  {
    DigitsPlain(if m < 0 then -m else m);
    DigitsPlain(if n < 0 then -n else n);
    assert m < 0 ==> Decimal(m)[0] == '-' && Decimal(m)[1..] == Digits(-m);
    assert n < 0 ==> Decimal(n)[0] == '-' && Decimal(n)[1..] == Digits(-n);
    assert m >= 0 ==> Decimal(m)[0] in Digits(m);
    assert n >= 0 ==> Decimal(n)[0] in Digits(n);
    DigitsInjective(if m < 0 then -m else m, if n < 0 then -n else n);
  }

  lemma NoColon(n: int)
    ensures ':' !in Decimal(n)
  {
    DigitsPlain(if n < 0 then -n else n);
  }

  /** Cut at the last colon. */
  lemma LastColon(a: string, d: string, b: string, e: string)
    requires a + ":" + d == b + ":" + e && ':' !in d && ':' !in e
    ensures a == b && d == e
  {
    var s, t := a + ":" + d, b + ":" + e;
    assert s[|a|] == ':' && t[|b|] == ':';
    forall i | |a| < i < |s| ensures s[i] != ':' { assert s[i] == d[i - |a| - 1]; }
    forall i | |b| < i < |t| ensures t[i] != ':' { assert t[i] == e[i - |b| - 1]; }
    assert s[..|a|] == a && t[..|b|] == b;
    assert s[|a| + 1..] == d && t[|b| + 1..] == e;
  }

  /** Different occurrences have different keys, whatever the ids are. */
  lemma KeyInjective(id: string, at: int, id': string, at': int)
    ensures ScheduleKey(id, at) == ScheduleKey(id', at') <==> id == id' && at == at'
  {
    if ScheduleKey(id, at) == ScheduleKey(id', at') {
      var a, b := "schedule:" + id, "schedule:" + id';
      NoColon(at);
      NoColon(at');
      assert a + ":" + Decimal(at) == ScheduleKey(id, at) && b + ":" + Decimal(at') == ScheduleKey(id', at');
      LastColon(a, Decimal(at), b, Decimal(at'));
      assert a[9..] == id && b[9..] == id';
      DecimalInjective(at, at');
    }
  }

  /** The key is that of some time of schedule `id`. */
  ghost predicate Imitates(key: string, id: string) { exists at :: key == ScheduleKey(id, at) }

  // --- Operations ------------------------------------------------------------------

  function CreateSchedule(next: NextTime, t: map<string, Schedule>, id: string, spec: Cron.Spec,
                          command: string, cwd: string, now: int)
    : map<string, Schedule>
  {
    match next(spec, now)
    case None => t
    case Some(n) => t[id := Schedule(spec, command, cwd, true, Some(n), None, now)]
  }

  function SetScheduleEnabled(next: NextTime, t: map<string, Schedule>, id: string, enabled: bool,
    now: int): map<string, Schedule> {
    if id !in t then t
    else if !enabled then t[id := t[id].(enabled := false, nextRun := None)]
    else
      match next(t[id].spec, now)
      case None => t
      case Some(n) => t[id := t[id].(enabled := true, nextRun := Some(n))]
  }

  predicate IsDue(s: Schedule, now: int) { s.enabled && s.nextRun.Some? && s.nextRun.value <= now }

  /** SELECT ... WHERE enabled = 1 AND next_run <= now ORDER BY next_run. */
  ghost predicate Lists(t: map<string, Schedule>, now: int, due: seq<Due>) {
    && (forall i | 0 <= i < |due| ::
          due[i].id in t && due[i].schedule == t[due[i].id] && IsDue(due[i].schedule, now)
          && due[i].schedule.nextRun == Some(due[i].at))
    && (forall i, j | 0 <= i < j < |due| :: due[i].id != due[j].id && due[i].at <= due[j].at)
    && (forall id | id in t && IsDue(t[id], now) :: exists i :: 0 <= i < |due| && due[i].id == id)
  }

  /** None when the expression has no next match: the error INVALID_CRON. */
  function AdvanceSchedule(next: NextTime, t: map<string, Schedule>, d: Due): Option<map<string, Schedule>> {
    match next(d.schedule.spec, d.at)
    case None => None
    case Some(n) =>
      if d.id in t && t[d.id].enabled && t[d.id].nextRun == Some(d.at)
      then Some(t[d.id := t[d.id].(lastRun := Some(d.at), nextRun := Some(n))]) else Some(t)
  }

  // --- Runs -------------------------------------------------------------------------

  datatype Event =
    | Creating(id: string, spec: Cron.Spec, command: string, cwd: string, now: int)
    | Deleting(id: string)
    | Enabling(id: string, enabled: bool, now: int)
    | Waking(now: int, due: seq<Due>)
    | SubmittingFirst(jobId: string, now: int)
    | AdvancingFirst
    | Finishing
    | ClientSubmitting(jobId: string, key: string, command: string, cwd: string, now: int)
    | JobsMove(jobs: J.Table)
    | Crash

  /** Everything else that happens to the job table: rows follow their life cycle. */
  ghost predicate Elsewhere(t: J.Table, t': J.Table) { J.Follows(t, t') && |t'| == |t| && J.Unique(t') }

  ghost predicate Enabled(s: State, e: Event) {
    match e
    case Waking(now, due) => s.due.None? ==> Lists(s.table, now, due)
    case SubmittingFirst(jobId, now) => J.FindId(s.jobs, jobId) == |s.jobs|
    case ClientSubmitting(jobId, _, _, _, _) => J.FindId(s.jobs, jobId) == |s.jobs|
    case JobsMove(jobs) => Elsewhere(s.jobs, jobs)
    case _ => true
  }

  function Step(next: NextTime, s: State, e: Event): State {
    match e
    case Creating(id, spec, command, cwd, now) =>
      s.(table := CreateSchedule(next, s.table, id, spec, command, cwd, now))
    case Deleting(id) => s.(table := s.table - {id})
    case Enabling(id, enabled, now) => s.(table := SetScheduleEnabled(next, s.table, id, enabled, now))
    case Waking(now, due) => if s.due.Some? then s else s.(due := Some(due), submitted := false)
    case SubmittingFirst(jobId, now) =>
      if s.due.None? || s.due.value == [] || s.submitted then s
      else
        var d := s.due.value[0];
        var (jobs, result) := J.Submit(s.jobs, jobId, ScheduleKey(d.id, d.at), d.schedule.command,
          d.schedule.cwd, now);
        if result.Conflict? then s.(due := None) else s.(jobs := jobs, submitted := true)
    case AdvancingFirst =>
      if s.due.None? || s.due.value == [] || !s.submitted then s
      else
        (match AdvanceSchedule(next, s.table, s.due.value[0])
         case None => s.(due := None, submitted := false)
         case Some(t) => s.(table := t, due := Some(s.due.value[1..]), submitted := false))
    case Finishing => if s.due == Some([]) then s.(due := None, submitted := false) else s
    case ClientSubmitting(jobId, key, command, cwd, now) =>
      s.(jobs := J.Submit(s.jobs, jobId, key, command, cwd, now).0)
    case JobsMove(jobs) => s.(jobs := jobs)
    case Crash => s.(due := None, submitted := false)
  }

  ghost predicate CanRun(next: NextTime, s: State, es: seq<Event>)
    decreases |es|
  {
    es == [] || (Enabled(s, es[0]) && CanRun(next, Step(next, s, es[0]), es[1..]))
  }

  function Run(next: NextTime, s: State, es: seq<Event>): State
    decreases |es|
  {
    if es == [] then s else Run(next, Step(next, s, es[0]), es[1..])
  }

  /** Nobody creates, deletes, enables or disables schedule `id`. */
  predicate Untouched(e: Event, id: string) {
    match e
    case Creating(i, _, _, _, _) => i != id
    case Deleting(i) => i != id
    case Enabling(i, _, _) => i != id
    case _ => true
  }

  /** ... and no client submits one of the schedule's own keys. */
  ghost predicate LeavesAlone(e: Event, id: string) {
    Untouched(e, id) && (e.ClientSubmitting? ==> !Imitates(e.key, id))
  }

  // --- What has been submitted ------------------------------------------------------------

  ghost predicate Submitted(jobs: J.Table, id: string, at: int) {
    exists i :: 0 <= i < |jobs| && jobs[i].key == ScheduleKey(id, at)
  }

  /** `next` finds the least time after its argument at which `occurs` holds. */
  ghost predicate Finds(next: NextTime, spec: Cron.Spec, occurs: int -> bool) {
    forall a :: match next(spec, a)
                case Some(n) => n > a && occurs(n) && forall x | a < x < n :: !occurs(x)
                case None => true
  }

  /** An occurrence after creation before which all others have been submitted. */
  ghost predicate Ready(jobs: J.Table, id: string, at: int, occurs: int -> bool, created: int) {
    && at > created && occurs(at)
    && (forall x | created < x < at && occurs(x) :: Submitted(jobs, id, x))
  }

  /** Only occurrences after creation are submitted, and none before all earlier ones. */
  ghost predicate Consecutive(jobs: J.Table, id: string, occurs: int -> bool, created: int) {
    forall x | Submitted(jobs, id, x) :: Ready(jobs, id, x, occurs, created)
  }

  /** The schedule is as created, but for its last and next run. */
  ghost predicate Stands(t: map<string, Schedule>, id: string, spec: Cron.Spec) {
    id in t && t[id].spec == spec && t[id].enabled && t[id].nextRun.Some?
  }

  /** No schedule is listed twice, and the first entry's job is there once submitted. */
  ghost predicate Listed(due: seq<Due>, submitted: bool, jobs: J.Table) {
    && (forall i, j | 0 <= i < j < |due| :: due[i].id != due[j].id)
    && (submitted && due != [] ==> Submitted(jobs, due[0].id, due[0].at))
  }

  /** What the runner has left to do for the schedule, it may do. */
  ghost predicate InStep(due: seq<Due>, id: string, schedule: Schedule, jobs: J.Table, occurs: int -> bool,
                         created: int)
  {
    forall i | 0 <= i < |due| && due[i].id == id ::
      && Ready(jobs, id, due[i].at, occurs, created)
      && due[i].schedule.spec == schedule.spec
      && due[i].schedule.command == schedule.command && due[i].schedule.cwd == schedule.cwd
  }

  /** Its jobs all carry its command, so none is ever refused. */
  ghost predicate OwnCommand(jobs: J.Table, id: string, command: string, cwd: string) {
    forall i, at | 0 <= i < |jobs| && jobs[i].key == ScheduleKey(id, at) ::
      jobs[i].command == command && jobs[i].cwd == cwd
  }

  ghost predicate Kept(s: State, id: string, spec: Cron.Spec, occurs: int -> bool, created: int) {
    && J.Unique(s.jobs)
    && Stands(s.table, id, spec)
    && Consecutive(s.jobs, id, occurs, created)
    && Ready(s.jobs, id, s.table[id].nextRun.value, occurs, created)
    && OwnCommand(s.jobs, id, s.table[id].command, s.table[id].cwd)
    && (s.due.Some? ==>
          Listed(s.due.value, s.submitted, s.jobs) && InStep(s.due.value, id, s.table[id], s.jobs, occurs, created))
  }

  // --- Creation ------------------------------------------------------------------------------

  /** A random id no job or listed row refers to. */
  ghost predicate Unused(s: State, id: string) {
    && id !in s.table
    && (forall at :: !Submitted(s.jobs, id, at))
    && (s.due.Some? ==> forall i | 0 <= i < |s.due.value| :: s.due.value[i].id != id)
  }

  ghost predicate Tidy(s: State) {
    J.Unique(s.jobs) && (s.due.Some? ==> Listed(s.due.value, s.submitted, s.jobs))
  }

  lemma CreatedKept(next: NextTime, s: State, id: string, spec: Cron.Spec, occurs: int -> bool,
                    command: string, cwd: string, now: int)
    requires Tidy(s) && Unused(s, id) && Finds(next, spec, occurs) && next(spec, now).Some?
    ensures Kept(Step(next, s, Creating(id, spec, command, cwd, now)), id, spec, occurs, now)
  {
    forall i, at | 0 <= i < |s.jobs| ensures s.jobs[i].key != ScheduleKey(id, at) {
      assert !Submitted(s.jobs, id, at);
    }
  }

  // --- Every step keeps it ----------------------------------------------------------------------

  lemma SubmittedKept(t: J.Table, t': J.Table)
    requires |t| <= |t'| && forall i | 0 <= i < |t| :: t'[i].key == t[i].key
    ensures forall id, at | Submitted(t, id, at) :: Submitted(t', id, at)
  {
    forall id, at | Submitted(t, id, at) ensures Submitted(t', id, at) {
      var i :| 0 <= i < |t| && t[i].key == ScheduleKey(id, at);
      assert t'[i].key == ScheduleKey(id, at);
    }
  }

  /** The parts of Kept that speak of jobs, for a table with the same submissions. */
  lemma SameSubmissions(s: State, jobs: J.Table, id: string, spec: Cron.Spec, occurs: int -> bool, created: int)
    requires Kept(s, id, spec, occurs, created) && J.Unique(jobs)
    requires forall i, at | Submitted(s.jobs, i, at) :: Submitted(jobs, i, at)
    requires forall at | Submitted(jobs, id, at) :: Submitted(s.jobs, id, at)
    requires OwnCommand(jobs, id, s.table[id].command, s.table[id].cwd)
    ensures Kept(s.(jobs := jobs), id, spec, occurs, created)
  {
    forall at | Ready(s.jobs, id, at, occurs, created) ensures Ready(jobs, id, at, occurs, created) { }
  }

  lemma JobsMoveKept(s: State, jobs: J.Table, id: string, spec: Cron.Spec, occurs: int -> bool, created: int)
    requires Kept(s, id, spec, occurs, created) && Elsewhere(s.jobs, jobs)
    ensures Kept(s.(jobs := jobs), id, spec, occurs, created)
  {
    SubmittedKept(s.jobs, jobs);
    SubmittedKept(jobs, s.jobs);
    SameSubmissions(s, jobs, id, spec, occurs, created);
  }

  /** What one more row submits. */
  lemma NewRow(t: J.Table, job: J.Job)
    ensures forall id, at :: Submitted(t + [job], id, at) <==> Submitted(t, id, at) || job.key == ScheduleKey(id, at)
  {
    var t' := t + [job];
    SubmittedKept(t, t');
    assert t'[|t|] == job;
    forall id, at | Submitted(t', id, at) ensures Submitted(t, id, at) || job.key == ScheduleKey(id, at) {
      var i :| 0 <= i < |t'| && t'[i].key == ScheduleKey(id, at);
      if i < |t| { assert t[i].key == ScheduleKey(id, at); }
    }
  }

  /** A row that is not the schedule's. */
  lemma ForeignRowKept(s: State, job: J.Job, id: string, spec: Cron.Spec, occurs: int -> bool, created: int)
    requires Kept(s, id, spec, occurs, created) && J.Unique(s.jobs + [job])
    requires forall at :: job.key != ScheduleKey(id, at)
    ensures Kept(s.(jobs := s.jobs + [job]), id, spec, occurs, created)
  {
    NewRow(s.jobs, job);
    SameSubmissions(s, s.jobs + [job], id, spec, occurs, created);
  }

  /** What Submit does. */
  lemma SubmitCases(t: J.Table, jobId: string, key: string, command: string, cwd: string, now: int)
    requires J.Unique(t) && J.FindId(t, jobId) == |t|
    ensures var (t', r) := J.Submit(t, jobId, key, command, cwd, now);
            && J.Unique(t')
            && (r.Created? ==> t' == t + [r.job] && r.job.key == key && r.job.command == command && r.job.cwd == cwd)
            && (!r.Created? ==> t' == t)
            && (r.Conflict? <==> exists i :: Refuses(t, i, key, command, cwd))
            && (!r.Conflict? ==> exists i :: 0 <= i < |t'| && t'[i].key == key)
  {
    var i := J.FindKey(t, key);
    var t' := J.Submit(t, jobId, key, command, cwd, now).0;
    if i < |t| {
      assert Refuses(t, i, key, command, cwd) || (t[i].command == command && t[i].cwd == cwd);
      forall k | Refuses(t, k, key, command, cwd) ensures k == i { }
    } else {
      assert t'[|t|].key == key;
    }
  }

  predicate Refuses(t: J.Table, i: int, key: string, command: string, cwd: string) {
    0 <= i < |t| && t[i].key == key && (t[i].command != command || t[i].cwd != cwd)
  }

  lemma ClientKept(s: State, e: Event, id: string, spec: Cron.Spec, occurs: int -> bool, created: int)
    requires Kept(s, id, spec, occurs, created) && e.ClientSubmitting? && Enabled(s, e) && LeavesAlone(e, id)
    ensures Kept(s.(jobs := J.Submit(s.jobs, e.jobId, e.key, e.command, e.cwd, e.now).0), id, spec, occurs, created)
  {
    SubmitCases(s.jobs, e.jobId, e.key, e.command, e.cwd, e.now);
    var r := J.Submit(s.jobs, e.jobId, e.key, e.command, e.cwd, e.now).1;
    if r.Created? {
      forall at ensures e.key != ScheduleKey(id, at) { assert KeyPrefix(id) <= ScheduleKey(id, at); }
      ForeignRowKept(s, r.job, id, spec, occurs, created);
    }
  }

  /** A row of the schedule itself, for an occurrence that is its turn. */
  lemma OwnRowKept(s: State, job: J.Job, at: int, id: string, spec: Cron.Spec, occurs: int -> bool, created: int)
    requires Kept(s, id, spec, occurs, created) && J.Unique(s.jobs + [job])
    requires job.key == ScheduleKey(id, at) && Ready(s.jobs, id, at, occurs, created)
    requires job.command == s.table[id].command && job.cwd == s.table[id].cwd
    ensures Kept(s.(jobs := s.jobs + [job]), id, spec, occurs, created) && Submitted(s.jobs + [job], id, at)
  {
    var jobs := s.jobs + [job];
    NewRow(s.jobs, job);
    forall x | Ready(s.jobs, id, x, occurs, created) ensures Ready(jobs, id, x, occurs, created) { }
    forall x | Submitted(jobs, id, x) ensures Ready(jobs, id, x, occurs, created) { KeyInjective(id, at, id, x); }
  }

  /** A row of schedule `id` is only ever submitted in its turn, and is never refused. */
  lemma SubmittingKept(next: NextTime, s: State, jobId: string, now: int, id: string, spec: Cron.Spec,
                       occurs: int -> bool, created: int)
    requires Kept(s, id, spec, occurs, created) && Enabled(s, SubmittingFirst(jobId, now))
    ensures Kept(Step(next, s, SubmittingFirst(jobId, now)), id, spec, occurs, created)
    ensures s.due.Some? && s.due.value != [] && s.due.value[0].id == id ==>
              Step(next, s, SubmittingFirst(jobId, now)).submitted
  {
    if s.due.Some? && s.due.value != [] && !s.submitted {
      var d := s.due.value[0];
      var key := ScheduleKey(d.id, d.at);
      SubmitCases(s.jobs, jobId, key, d.schedule.command, d.schedule.cwd, now);
      var (jobs, r) := J.Submit(s.jobs, jobId, key, d.schedule.command, d.schedule.cwd, now);
      if r.Created? {
        if d.id == id {
          OwnRowKept(s, r.job, d.at, id, spec, occurs, created);
        } else {
          forall at ensures key != ScheduleKey(id, at) { KeyInjective(d.id, d.at, id, at); }
          ForeignRowKept(s, r.job, id, spec, occurs, created);
        }
      }
      if !r.Conflict? { assert Submitted(jobs, d.id, d.at); }
    }
  }

  /** Moving on skips no occurrence. */
  lemma AdvancingKept(next: NextTime, s: State, id: string, spec: Cron.Spec, occurs: int -> bool, created: int)
    requires Kept(s, id, spec, occurs, created) && Finds(next, spec, occurs)
    ensures Kept(Step(next, s, AdvancingFirst), id, spec, occurs, created)
  {
    if s.due.Some? && s.due.value != [] && s.submitted {
      var d := s.due.value[0];
      if d.id == id { NextOccurrence(next, s.jobs, id, spec, occurs, created, d.at); }
      var t := AdvanceSchedule(next, s.table, d);
      if t.Some? { MovedOnKept(s, t.value, id, spec, occurs, created); }
    }
  }

  /** The first entry is done, and the schedule's own row may have moved on with it. */
  lemma MovedOnKept(s: State, t: map<string, Schedule>, id: string, spec: Cron.Spec, occurs: int -> bool, created: int)
    requires Kept(s, id, spec, occurs, created) && s.due.Some? && s.due.value != []
    requires Stands(t, id, spec) && t[id].command == s.table[id].command && t[id].cwd == s.table[id].cwd
    requires Ready(s.jobs, id, t[id].nextRun.value, occurs, created)
    ensures Kept(s.(table := t, due := Some(s.due.value[1..]), submitted := false), id, spec, occurs, created)
  {
    var rest := s.due.value[1..];
    assert forall i | 0 <= i < |rest| :: rest[i] == s.due.value[i + 1];
  }

  lemma NextOccurrence(next: NextTime, jobs: J.Table, id: string, spec: Cron.Spec, occurs: int -> bool,
                       created: int, at: int)
    requires Ready(jobs, id, at, occurs, created) && Submitted(jobs, id, at) && Finds(next, spec, occurs)
    ensures next(spec, at).Some? ==> Ready(jobs, id, next(spec, at).value, occurs, created)
  {
  }

  lemma WakingKept(s: State, now: int, due: seq<Due>, id: string, spec: Cron.Spec, occurs: int -> bool, created: int)
    requires Kept(s, id, spec, occurs, created) && Lists(s.table, now, due)
    ensures Kept(s.(due := Some(due), submitted := false), id, spec, occurs, created)
  {
  }

  lemma OthersKept(next: NextTime, s: State, e: Event, id: string, spec: Cron.Spec, occurs: int -> bool, created: int)
    requires Kept(s, id, spec, occurs, created) && LeavesAlone(e, id)
    requires e.Creating? || e.Deleting? || e.Enabling?
    ensures Kept(Step(next, s, e), id, spec, occurs, created)
  {
    assert Step(next, s, e).table[id] == s.table[id];
  }

  lemma StepKept(next: NextTime, s: State, e: Event, id: string, spec: Cron.Spec, occurs: int -> bool, created: int)
    requires Kept(s, id, spec, occurs, created) && Enabled(s, e) && LeavesAlone(e, id) && Finds(next, spec, occurs)
    ensures Kept(Step(next, s, e), id, spec, occurs, created)
  {
    match e
    case Creating(_, _, _, _, _) => OthersKept(next, s, e, id, spec, occurs, created);
    case Deleting(_) => OthersKept(next, s, e, id, spec, occurs, created);
    case Enabling(_, _, _) => OthersKept(next, s, e, id, spec, occurs, created);
    case Waking(now, due) => if s.due.None? { WakingKept(s, now, due, id, spec, occurs, created); }
    case SubmittingFirst(jobId, now) => SubmittingKept(next, s, jobId, now, id, spec, occurs, created);
    case AdvancingFirst => AdvancingKept(next, s, id, spec, occurs, created);
    case Finishing =>
    case ClientSubmitting(_, _, _, _, _) => ClientKept(s, e, id, spec, occurs, created);
    case JobsMove(jobs) => JobsMoveKept(s, jobs, id, spec, occurs, created);
    case Crash =>
  }

  // --- Enabling an enabled schedule again ----------------------------------------------------------

  /** No occurrence up to `now` is still to be submitted, and the clock has not gone back
      behind the creation. */
  ghost predicate NothingDue(next: NextTime, jobs: J.Table, id: string, spec: Cron.Spec, occurs: int -> bool,
                             created: int, now: int)
  {
    && (forall x | created < x <= now && occurs(x) :: Submitted(jobs, id, x))
    && (next(spec, now).Some? ==> next(spec, now).value > created)
  }

  /** Enabling again recomputes the next run from now. That keeps the schedule gapless
      exactly when nothing up to now is still to be submitted. */
  lemma EnablingExactly(next: NextTime, s: State, id: string, spec: Cron.Spec, occurs: int -> bool, created: int,
                        now: int)
    requires Kept(s, id, spec, occurs, created) && Finds(next, spec, occurs) && next(spec, now).Some?
    ensures Kept(Step(next, s, Enabling(id, true, now)), id, spec, occurs, created)
            <==> NothingDue(next, s.jobs, id, spec, occurs, created, now)
  {
  }

  /** While the next run is still to come, nothing is due. */
  lemma NotYetDue(next: NextTime, s: State, id: string, spec: Cron.Spec, occurs: int -> bool, created: int, now: int)
    requires Kept(s, id, spec, occurs, created) && Finds(next, spec, occurs) && created <= now
    requires s.table[id].nextRun.value > now
    ensures NothingDue(next, s.jobs, id, spec, occurs, created, now)
  {
  }

  /** What may happen to a schedule that stays enabled. */
  ghost predicate Harmless(next: NextTime, s: State, e: Event, id: string, spec: Cron.Spec, occurs: int -> bool,
                           created: int)
  {
    || LeavesAlone(e, id)
    || (e.Enabling? && e.id == id && e.enabled && NothingDue(next, s.jobs, id, spec, occurs, created, e.now))
  }

  ghost predicate AllHarmless(next: NextTime, s: State, es: seq<Event>, id: string, spec: Cron.Spec,
                              occurs: int -> bool, created: int)
    decreases |es|
  {
    es == [] || (Harmless(next, s, es[0], id, spec, occurs, created)
                 && AllHarmless(next, Step(next, s, es[0]), es[1..], id, spec, occurs, created))
  }

  lemma {:induction false} RunKept(next: NextTime, s: State, es: seq<Event>, id: string, spec: Cron.Spec,
                                   occurs: int -> bool, created: int)
    requires Kept(s, id, spec, occurs, created) && Finds(next, spec, occurs)
    requires CanRun(next, s, es) && AllHarmless(next, s, es, id, spec, occurs, created)
    ensures Kept(Run(next, s, es), id, spec, occurs, created)
    decreases |es|
  {
    if es != [] {
      if LeavesAlone(es[0], id) {
        StepKept(next, s, es[0], id, spec, occurs, created);
      } else if next(spec, es[0].now).Some? {
        EnablingExactly(next, s, id, spec, occurs, created, es[0].now);
      }
      RunKept(next, Step(next, s, es[0]), es[1..], id, spec, occurs, created);
    }
  }

  lemma OnlyEntry(t: map<string, Schedule>, now: int, d: Due)
    requires t.Keys == {d.id} && t[d.id] == d.schedule && IsDue(d.schedule, now) && d.schedule.nextRun == Some(d.at)
    ensures Lists(t, now, [d])
  {
    forall id | id in t ensures exists i :: 0 <= i < |[d]| && [d][i].id == id { assert [d][0].id == id; }
  }

  lemma {:induction false} RunAppend(next: NextTime, s: State, es: seq<Event>, fs: seq<Event>)
    requires CanRun(next, s, es) && CanRun(next, Run(next, s, es), fs)
    ensures CanRun(next, s, es + fs) && Run(next, s, es + fs) == Run(next, Run(next, s, es), fs)
    decreases |es|
  {
    if es == [] {
      assert es + fs == fs;
    } else {
      assert (es + fs)[0] == es[0] && (es + fs)[1..] == es[1..] + fs;
      RunAppend(next, Step(next, s, es[0]), es[1..], fs);
    }
  }

  lemma TwoSteps(next: NextTime, s: State, e: Event, f: Event)
    requires Enabled(s, e) && Enabled(Step(next, s, e), f)
    ensures CanRun(next, s, [e, f]) && Run(next, s, [e, f]) == Step(next, Step(next, s, e), f)
  {
    var t := Step(next, s, e);
    assert [e, f][1..] == [f] && [f][1..] == [];
    assert CanRun(next, Step(next, t, f), []) && Run(next, Step(next, t, f), []) == Step(next, t, f);
    assert CanRun(next, t, [f]) && Run(next, t, [f]) == Step(next, t, f);
  }

  /** All other schedules are deleted. */
  lemma {:induction false} DeleteOthers(next: NextTime, s: State, id: string, others: set<string>)
    returns (es: seq<Event>)
    requires id !in others
    ensures CanRun(next, s, es) && Run(next, s, es) == s.(table := s.table - others)
    ensures (forall e | e in es :: LeavesAlone(e, id)) && (others == {} ==> es == [])
    decreases others
  {
    if others == {} {
      es := [];
      assert s.table - others == s.table;
    } else {
      var x := Pick(others);
      var t := Step(next, s, Deleting(x));
      var rest := DeleteOthers(next, t, id, others - {x});
      es := [Deleting(x)] + rest;
      assert es[0] == Deleting(x) && es[1..] == rest;
      assert t.table - (others - {x}) == s.table - others;
    }
  }

  /** The runner submits what it has listed, and nothing else. */
  lemma LaterOnly(next: NextTime, s: State, d: Due, id: string, jobId: string)
    requires J.Unique(s.jobs) && J.FindId(s.jobs, jobId) == |s.jobs| && s.due == Some([d]) && !s.submitted
    requires OwnCommand(s.jobs, id, d.schedule.command, d.schedule.cwd) && d.id == id
    ensures var jobs := Step(next, s, SubmittingFirst(jobId, d.at)).jobs;
            && Submitted(jobs, id, d.at)
            && forall x | x != d.at && Submitted(jobs, id, x) :: Submitted(s.jobs, id, x)
  {
    var key := ScheduleKey(id, d.at);
    SubmitCases(s.jobs, jobId, key, d.schedule.command, d.schedule.cwd, d.at);
    var (jobs, r) := J.Submit(s.jobs, jobId, key, d.schedule.command, d.schedule.cwd, d.at);
    assert Submitted(jobs, id, d.at);
    if r.Created? {
      NewRow(s.jobs, r.job);
      forall x | x != d.at && Submitted(jobs, id, x) ensures Submitted(s.jobs, id, x) {
        KeyInjective(id, d.at, id, x);
      }
    }
  }

  /** Woken at its next run, a schedule that is alone has that run submitted. */
  lemma SubmittedNext(next: NextTime, s: State, id: string, jobId: string) returns (es: seq<Event>)
    requires J.Unique(s.jobs) && J.FindId(s.jobs, jobId) == |s.jobs| && s.due == None && s.table.Keys == {id}
    requires s.table[id].enabled && s.table[id].nextRun.Some?
    requires OwnCommand(s.jobs, id, s.table[id].command, s.table[id].cwd)
    ensures |es| == 2 && es[0].Waking? && es[1].SubmittingFirst? && CanRun(next, s, es)
    ensures var at, jobs := s.table[id].nextRun.value, Run(next, s, es).jobs;
            && Submitted(jobs, id, at) && forall x | x != at && Submitted(jobs, id, x) :: Submitted(s.jobs, id, x)
  {
    var at := s.table[id].nextRun.value;
    var d := Due(id, at, s.table[id]);
    var wake, submit := Waking(at, [d]), SubmittingFirst(jobId, at);
    es := [wake, submit];
    OnlyEntry(s.table, at, d);
    TwoSteps(next, s, wake, submit);
    LaterOnly(next, Step(next, s, wake), d, id, jobId);
  }

  /** In every other case enabling again does harm: a run follows, with nothing more done
      to the schedule, that breaks the order. Either an occurrence that was due is passed
      over by a later one, or the clock has gone back behind the creation. */
  lemma PassedOver(next: NextTime, s: State, id: string, spec: Cron.Spec, occurs: int -> bool, created: int,
                   now: int, jobId: string)
    returns (es: seq<Event>)
    requires Kept(s, id, spec, occurs, created) && Finds(next, spec, occurs) && next(spec, now).Some?
    requires J.FindId(s.jobs, jobId) == |s.jobs| && !NothingDue(next, s.jobs, id, spec, occurs, created, now)
    ensures CanRun(next, s, es) && !Consecutive(Run(next, s, es).jobs, id, occurs, created)
    ensures |es| >= 4 && es[0] == Enabling(id, true, now) && forall k | 1 <= k < |es| :: LeavesAlone(es[k], id)
    ensures var later, jobs := next(spec, now).value, Run(next, s, es).jobs;
            && Submitted(jobs, id, later)
            && forall x | x != later && Submitted(jobs, id, x) :: Submitted(s.jobs, id, x)
    ensures s.table.Keys == {id} ==> |es| == 4 && es[1] == Crash && es[2].Waking? && es[3].SubmittingFirst?
  {
    var enable := Enabling(id, true, now);
    var t := Step(next, Step(next, s, enable), Crash);
    var deletes := DeleteOthers(next, t, id, t.table.Keys - {id});
    var u := t.(table := t.table - (t.table.Keys - {id}));
    var last := SubmittedNext(next, u, id, jobId);
    es := [enable, Crash] + deletes + last;
    ThreeParts(next, s, enable, deletes, u, last, id);
    assert t.table.Keys == s.table.Keys;
    Unready(s.jobs, Run(next, s, es).jobs, next, id, spec, occurs, created, now);
  }

  lemma ThreeParts(next: NextTime, s: State, enable: Event, deletes: seq<Event>, u: State, last: seq<Event>,
                   id: string)
    requires enable.Enabling? && CanRun(next, Step(next, Step(next, s, enable), Crash), deletes)
    requires Run(next, Step(next, Step(next, s, enable), Crash), deletes) == u && CanRun(next, u, last)
    requires (forall e | e in deletes :: LeavesAlone(e, id))
    requires |last| == 2 && last[0].Waking? && last[1].SubmittingFirst?
    ensures var es := [enable, Crash] + deletes + last;
            && CanRun(next, s, es) && Run(next, s, es) == Run(next, u, last)
            && forall k | 1 <= k < |es| :: LeavesAlone(es[k], id)
  {
    TwoSteps(next, s, enable, Crash);
    RunAppend(next, s, [enable, Crash], deletes);
    RunAppend(next, s, [enable, Crash] + deletes, last);
    var es := [enable, Crash] + deletes + last;
    forall k | 1 <= k < |es| ensures LeavesAlone(es[k], id) {
      if 2 <= k < 2 + |deletes| { assert es[k] == deletes[k - 2] && deletes[k - 2] in deletes; }
    }
  }

  lemma Unready(jobs: J.Table, jobs': J.Table, next: NextTime, id: string, spec: Cron.Spec, occurs: int -> bool,
                created: int, now: int)
    requires Finds(next, spec, occurs) && next(spec, now).Some?
    requires !NothingDue(next, jobs, id, spec, occurs, created, now)
    requires Submitted(jobs', id, next(spec, now).value)
    requires forall x | x != next(spec, now).value && Submitted(jobs', id, x) :: Submitted(jobs, id, x)
    ensures !Consecutive(jobs', id, occurs, created)
  {
    var later := next(spec, now).value;
    if later > created {
      var x :| created < x <= now && occurs(x) && !Submitted(jobs, id, x);
      assert x < later && !Submitted(jobs', id, x);
    }
    assert !Ready(jobs', id, later, occurs, created);
  }

  // --- What has been passed over ---------------------------------------------------------------------

  /** Time `x` is behind the schedule, and was not submitted. */
  ghost predicate Behind(s: State, id: string, spec: Cron.Spec, x: int) {
    && Stands(s.table, id, spec) && s.table[id].nextRun.value > x && !Submitted(s.jobs, id, x)
    && (s.due.Some? ==> forall i | 0 <= i < |s.due.value| && s.due.value[i].id == id ::
          s.due.value[i].at > x && s.due.value[i].schedule.spec == spec)
  }

  /** Enabling again is allowed here, as long as the clock does not go back. */
  predicate Forward(e: Event, id: string, x: int) { e.Enabling? && e.id == id && e.enabled && e.now >= x }

  lemma StillUnsubmitted(t: J.Table, jobId: string, key: string, command: string, cwd: string, now: int,
                         id: string, x: int)
    requires J.Unique(t) && J.FindId(t, jobId) == |t| && !Submitted(t, id, x) && key != ScheduleKey(id, x)
    ensures !Submitted(J.Submit(t, jobId, key, command, cwd, now).0, id, x)
  {
    SubmitCases(t, jobId, key, command, cwd, now);
    var (jobs, r) := J.Submit(t, jobId, key, command, cwd, now);
    if r.Created? { NewRow(t, r.job); }
  }

  lemma BehindStep(next: NextTime, s: State, e: Event, id: string, spec: Cron.Spec, occurs: int -> bool, x: int)
    requires Behind(s, id, spec, x) && Finds(next, spec, occurs) && J.Unique(s.jobs) && Enabled(s, e)
    requires LeavesAlone(e, id) || Forward(e, id, x)
    ensures Behind(Step(next, s, e), id, spec, x) && J.Unique(Step(next, s, e).jobs)
  {
    match e
    case SubmittingFirst(jobId, now) =>
      if s.due.Some? && s.due.value != [] && !s.submitted {
        var d := s.due.value[0];
        KeyInjectiveOr(d.id, d.at, id, x);
        SubmitCases(s.jobs, jobId, ScheduleKey(d.id, d.at), d.schedule.command, d.schedule.cwd, now);
        StillUnsubmitted(s.jobs, jobId, ScheduleKey(d.id, d.at), d.schedule.command, d.schedule.cwd, now, id, x);
      }
    case ClientSubmitting(jobId, key, command, cwd, now) =>
      SubmitCases(s.jobs, jobId, key, command, cwd, now);
      StillUnsubmitted(s.jobs, jobId, key, command, cwd, now, id, x);
    case JobsMove(jobs) => SubmittedKept(jobs, s.jobs);
    case AdvancingFirst =>
      if s.due.Some? && s.due.value != [] && s.submitted {
        assert forall i | 0 <= i < |s.due.value[1..]| :: s.due.value[1..][i] == s.due.value[i + 1];
      }
    case Creating(_, _, _, _, _) => assert Step(next, s, e).table[id] == s.table[id];
    case _ =>
  }

  lemma KeyInjectiveOr(a: string, at: int, b: string, x: int)
    requires a == b ==> at != x
    ensures ScheduleKey(a, at) != ScheduleKey(b, x)
  {
    if ScheduleKey(a, at) == ScheduleKey(b, x) { KeyInjective(a, at, b, x); }
  }

  lemma {:induction false} BehindRun(next: NextTime, s: State, es: seq<Event>, id: string, spec: Cron.Spec,
                                     occurs: int -> bool, x: int)
    requires Behind(s, id, spec, x) && Finds(next, spec, occurs) && J.Unique(s.jobs) && CanRun(next, s, es)
    requires forall e | e in es :: LeavesAlone(e, id) || Forward(e, id, x)
    ensures !Submitted(Run(next, s, es).jobs, id, x)
    decreases |es|
  {
    if es != [] {
      BehindStep(next, s, es[0], id, spec, occurs, x);
      BehindRun(next, Step(next, s, es[0]), es[1..], id, spec, occurs, x);
    }
  }

  /** A gap is never closed: when no runner is at work, an occurrence that enabling again
      passes over is not submitted in any run that follows. */
  lemma NeverMadeUp(next: NextTime, s: State, es: seq<Event>, id: string, spec: Cron.Spec, occurs: int -> bool,
                    created: int, now: int, missed: int)
    requires Kept(s, id, spec, occurs, created) && Finds(next, spec, occurs) && next(spec, now).Some?
    requires s.due == None && missed <= now && !Submitted(s.jobs, id, missed)
    requires CanRun(next, Step(next, s, Enabling(id, true, now)), es)
    requires forall e | e in es :: LeavesAlone(e, id) || Forward(e, id, missed)
    ensures !Submitted(Run(next, Step(next, s, Enabling(id, true, now)), es).jobs, id, missed)
  {
    BehindRun(next, Step(next, s, Enabling(id, true, now)), es, id, spec, occurs, missed);
  }

  // --- A client that takes a schedule's key ---------------------------------------------------------

  /** A row of another command carries the key of the schedule's next run. */
  ghost predicate Blocked(s: State, id: string, at: int) {
    && J.Unique(s.jobs) && id in s.table && s.table[id].enabled && s.table[id].nextRun == Some(at)
    && (exists i :: Refuses(s.jobs, i, ScheduleKey(id, at), s.table[id].command, s.table[id].cwd))
    && (s.due.Some? ==>
          && (forall i, j | 0 <= i < j < |s.due.value| :: s.due.value[i].id != s.due.value[j].id)
          && (s.submitted && s.due.value != [] ==> s.due.value[0].id != id)
          && (forall i | 0 <= i < |s.due.value| && s.due.value[i].id == id ::
                s.due.value[i].at == at && s.due.value[i].schedule.command == s.table[id].command
                && s.due.value[i].schedule.cwd == s.table[id].cwd))
  }

  /** Any client can do this: the key of an occurrence is no secret and not reserved. */
  lemma ClientBlocks(next: NextTime, s: State, id: string, jobId: string, command: string, cwd: string, now: int)
    requires J.Unique(s.jobs) && s.due.None? && J.FindId(s.jobs, jobId) == |s.jobs|
    requires id in s.table && s.table[id].enabled && s.table[id].nextRun.Some?
    requires !Submitted(s.jobs, id, s.table[id].nextRun.value)
    requires command != s.table[id].command || cwd != s.table[id].cwd
    ensures var at := s.table[id].nextRun.value;
            Blocked(Step(next, s, ClientSubmitting(jobId, ScheduleKey(id, at), command, cwd, now)), id, at)
  {
    var at := s.table[id].nextRun.value;
    var key := ScheduleKey(id, at);
    SubmitCases(s.jobs, jobId, key, command, cwd, now);
    var (jobs, r) := J.Submit(s.jobs, jobId, key, command, cwd, now);
    assert J.FindKey(s.jobs, key) == |s.jobs|;
    assert Refuses(jobs, |s.jobs|, key, s.table[id].command, s.table[id].cwd);
  }

  /** The runner that meets a blocked schedule gives up, with the rest of its list. */
  lemma RunnerGivesUp(next: NextTime, s: State, id: string, at: int, jobId: string, now: int)
    requires Blocked(s, id, at) && J.FindId(s.jobs, jobId) == |s.jobs|
    requires s.due.Some? && s.due.value != [] && s.due.value[0].id == id
    ensures Step(next, s, SubmittingFirst(jobId, now)) == s.(due := None)
  {
    var d := s.due.value[0];
    SubmitCases(s.jobs, jobId, ScheduleKey(d.id, d.at), d.schedule.command, d.schedule.cwd, now);
  }

  lemma RefusedKept(t: J.Table, t': J.Table, key: string, command: string, cwd: string)
    requires exists i :: Refuses(t, i, key, command, cwd)
    requires |t| <= |t'| && forall i | 0 <= i < |t| ::
               t'[i].key == t[i].key && t'[i].command == t[i].command && t'[i].cwd == t[i].cwd
    ensures exists i :: Refuses(t', i, key, command, cwd)
  {
    var i :| Refuses(t, i, key, command, cwd);
    assert Refuses(t', i, key, command, cwd);
  }

  lemma BlockedSubmitting(next: NextTime, s: State, jobId: string, now: int, id: string, at: int)
    requires Blocked(s, id, at) && J.FindId(s.jobs, jobId) == |s.jobs|
    ensures Blocked(Step(next, s, SubmittingFirst(jobId, now)), id, at)
  {
    if s.due.Some? && s.due.value != [] && !s.submitted {
      var d := s.due.value[0];
      SubmitCases(s.jobs, jobId, ScheduleKey(d.id, d.at), d.schedule.command, d.schedule.cwd, now);
      if d.id == id { RunnerGivesUp(next, s, id, at, jobId, now); }
      RefusedKept(s.jobs, Step(next, s, SubmittingFirst(jobId, now)).jobs, ScheduleKey(id, at),
                  s.table[id].command, s.table[id].cwd);
    }
  }

  lemma BlockedStep(next: NextTime, s: State, e: Event, id: string, at: int)
    requires Blocked(s, id, at) && Enabled(s, e) && Untouched(e, id)
    ensures Blocked(Step(next, s, e), id, at)
  {
    var t := Step(next, s, e);
    match e
    case SubmittingFirst(jobId, now) => BlockedSubmitting(next, s, jobId, now, id, at);
    case ClientSubmitting(jobId, key, command, cwd, now) =>
      SubmitCases(s.jobs, jobId, key, command, cwd, now);
      RefusedKept(s.jobs, t.jobs, ScheduleKey(id, at), s.table[id].command, s.table[id].cwd);
    case JobsMove(jobs) =>
      RefusedKept(s.jobs, jobs, ScheduleKey(id, at), s.table[id].command, s.table[id].cwd);
    case AdvancingFirst =>
      if s.due.Some? && s.due.value != [] && s.submitted {
        assert forall i | 0 <= i < |s.due.value[1..]| :: s.due.value[1..][i] == s.due.value[i + 1];
      }
    case _ =>
  }

  /** From then on the schedule never moves: whatever wakes, submits, finishes or crashes,
      until someone touches the schedule itself. */
  lemma {:induction false} BlockedForever(next: NextTime, s: State, es: seq<Event>, id: string, at: int)
    requires Blocked(s, id, at) && CanRun(next, s, es) && forall e | e in es :: Untouched(e, id)
    ensures Blocked(Run(next, s, es), id, at)
    decreases |es|
  {
    if es != [] {
      BlockedStep(next, s, es[0], id, at);
      BlockedForever(next, Step(next, s, es[0]), es[1..], id, at);
    }
  }

  // --- Progress ------------------------------------------------------------------------------------

  /** A listed schedule that is processed has its job, and moves on to the next match. */
  lemma DueIsSubmitted(next: NextTime, s: State, id: string, spec: Cron.Spec, occurs: int -> bool, created: int,
                       jobId: string, now: int)
    requires Kept(s, id, spec, occurs, created) && Enabled(s, SubmittingFirst(jobId, now))
    requires s.due.Some? && s.due.value != [] && s.due.value[0].id == id && !s.submitted
    requires s.due.value[0].at == s.table[id].nextRun.value && next(spec, s.due.value[0].at).Some?
    ensures var t := Step(next, Step(next, s, SubmittingFirst(jobId, now)), AdvancingFirst);
            && Submitted(t.jobs, id, s.due.value[0].at)
            && t.due == Some(s.due.value[1..])
            && id in t.table && t.table[id].nextRun == next(spec, s.due.value[0].at)
            && t.table[id].lastRun == Some(s.due.value[0].at)
  {
    SubmittingKept(next, s, jobId, now, id, spec, occurs, created);
  }

  /** A runner stops once its list is empty, and at a crash; then the next wake-up lists
      what is due and starts over. */
  lemma RunnerStops(next: NextTime, s: State, now: int, due: seq<Due>)
    ensures s.due == Some([]) ==> Step(next, s, Finishing).due == None
    ensures s.due != Some([]) ==> Step(next, s, Finishing) == s
    ensures var t := Step(next, s, Crash); t.due == None && t.table == s.table && t.jobs == s.jobs
    ensures s.due == None ==> Step(next, s, Waking(now, due)) == s.(due := Some(due), submitted := false)
    ensures s.due != None ==> Step(next, s, Waking(now, due)) == s
  {
  }

  /** One row for each submitted occurrence, none missing before it. */
  lemma NoGapNoRepeat(s: State, id: string, spec: Cron.Spec, occurs: int -> bool, created: int)
    requires Kept(s, id, spec, occurs, created)
    ensures forall x, y | Submitted(s.jobs, id, x) && created < y <= x && occurs(y) :: Submitted(s.jobs, id, y)
    ensures forall x | Submitted(s.jobs, id, x) :: x > created && occurs(x)
    ensures forall i, j | 0 <= i < |s.jobs| && 0 <= j < |s.jobs| && s.jobs[i].key == s.jobs[j].key :: i == j
  {
  }

  // --- With the real calendar --------------------------------------------------------------------

  /** A whole minute, in seconds, that the expression matches. */
  predicate Occurrence(spec: Cron.Spec, x: int) { x % 60 == 0 && Cron.Matches(spec, x / 60) }

  const CRON: NextTime := (spec, after) => Cron.NextCronTime(spec, after)

  lemma CronFinds(spec: Cron.Spec)
    ensures Finds(CRON, spec, x => Occurrence(spec, x))
  {
    forall a
      ensures match CRON(spec, a)
              case Some(n) => n > a && Occurrence(spec, n) && forall x | a < x < n :: !Occurrence(spec, x)
              case None => true
    {
      Cron.NextIsLeast(spec, a);
    }
  }

  /** While a schedule stays enabled after its creation, every run of the scheduler, with
      crashes between submitting and moving on and with harmless re-enablings, has
      submitted exactly its consecutive occurrences from creation on, one job row for
      each. */
  lemma ConsecutiveOccurrences(s: State, id: string, spec: Cron.Spec, command: string, cwd: string, now: int,
                               es: seq<Event>)
    requires Tidy(s) && Unused(s, id) && CRON(spec, now).Some?
    requires var t := Step(CRON, s, Creating(id, spec, command, cwd, now));
             CanRun(CRON, t, es) && AllHarmless(CRON, t, es, id, spec, x => Occurrence(spec, x), now)
    ensures var jobs := Run(CRON, Step(CRON, s, Creating(id, spec, command, cwd, now)), es).jobs;
            && (forall x, y | Submitted(jobs, id, x) && now < y <= x && Occurrence(spec, y) :: Submitted(jobs, id, y))
            && (forall x | Submitted(jobs, id, x) :: x > now && Occurrence(spec, x))
            && (forall i, j | 0 <= i < |jobs| && 0 <= j < |jobs| && jobs[i].key == jobs[j].key :: i == j)
  {
    var occurs := x => Occurrence(spec, x);
    CronFinds(spec);
    CreatedKept(CRON, s, id, spec, occurs, command, cwd, now);
    var t := Step(CRON, s, Creating(id, spec, command, cwd, now));
    RunKept(CRON, t, es, id, spec, occurs, now);
    NoGapNoRepeat(Run(CRON, t, es), id, spec, occurs, now);
  }

  const NOTHING := State(map[], [], None, false)

  /** A schedule for every minute, enabled again one minute after its creation, when its
      first occurrence is due: that one is never submitted, but the second is. */
  lemma MinuteLost(spec: Cron.Spec, id: string, command: string, cwd: string, now: int, jobId: string)
    returns (es: seq<Event>)
    requires Cron.WellFormed(spec) && (forall m :: Cron.Matches(spec, m)) && now % 60 == 0
    ensures CanRun(CRON, NOTHING, es) && Occurrence(spec, now + 60)
    ensures |es| == 5 && es[0] == Creating(id, spec, command, cwd, now) && es[1] == Enabling(id, true, now + 60)
            && es[2] == Crash && es[3].Waking? && es[4].SubmittingFirst?
    ensures Submitted(Run(CRON, NOTHING, es).jobs, id, now + 120)
    ensures !Submitted(Run(CRON, NOTHING, es).jobs, id, now + 60)
  {
    CronFinds(spec);
    EveryMinute(spec, now);
    EveryMinute(spec, now + 60);
    es := FirstLost(CRON, spec, x => Occurrence(spec, x), id, command, cwd, now, now + 60, now + 120, jobId);
  }

  lemma FirstLost(next: NextTime, spec: Cron.Spec, occurs: int -> bool, id: string, command: string, cwd: string,
                  now: int, first: int, second: int, jobId: string)
    returns (es: seq<Event>)
    requires Finds(next, spec, occurs) && next(spec, now) == Some(first) && next(spec, first) == Some(second)
    ensures CanRun(next, NOTHING, es) && occurs(first)
    ensures |es| == 5 && es[0] == Creating(id, spec, command, cwd, now) && es[1] == Enabling(id, true, first)
            && es[2] == Crash && es[3].Waking? && es[4].SubmittingFirst?
    ensures Submitted(Run(next, NOTHING, es).jobs, id, second)
    ensures !Submitted(Run(next, NOTHING, es).jobs, id, first)
  {
    var create := Creating(id, spec, command, cwd, now);
    var s := Step(next, NOTHING, create);
    assert forall at :: !Submitted(NOTHING.jobs, id, at);
    CreatedKept(next, NOTHING, id, spec, occurs, command, cwd, now);
    assert occurs(first) && !Submitted(s.jobs, id, first);
    var rest := PassedOver(next, s, id, spec, occurs, now, first, jobId);
    es := [create] + rest;
    assert es[0] == create && es[1..] == rest;
  }

  lemma EveryMinute(spec: Cron.Spec, after: int)
    requires (forall m :: Cron.Matches(spec, m)) && after % 60 == 0
    ensures CRON(spec, after) == Some(after + 60)
  {
    Cron.NextIsLeast(spec, after);
    Cron.StartBeforeDeadline(after);
  }

  // --- The table's operations --------------------------------------------------------------------------

  class ScheduleTable {
    var rows: map<string, Schedule>

    ghost predicate Valid()
      reads this
    {
      forall id | id in rows :: Cron.WellFormed(rows[id].spec)
    }

    constructor ()
      ensures Valid() && rows == map[]
    {
      rows := map[];
    }

    method Create(id: string, spec: Cron.Spec, command: string, cwd: string, now: int) returns (created: bool)
      requires Valid() && Cron.WellFormed(spec)
      modifies this
      ensures Valid() && rows == CreateSchedule(CRON, old(rows), id, spec, command, cwd, now)
      ensures created <==> CRON(spec, now).Some?
    {
      var next := Cron.SearchCronTime(spec, now);
      if next.None? { return false; }
      rows := rows[id := Schedule(spec, command, cwd, true, next, None, now)];
      return true;
    }

    method SetEnabled(id: string, enabled: bool, now: int)
      requires Valid()
      modifies this
      ensures Valid() && rows == SetScheduleEnabled(CRON, old(rows), id, enabled, now)
    {
      if id !in rows { return; }
      var next: Option<int> := None;
      if enabled {
        next := Cron.SearchCronTime(rows[id].spec, now);
        if next.None? { return; }
      }
      rows := rows[id := rows[id].(enabled := enabled, nextRun := next)];
    }

    /** The update is conditional: a row disabled or moved on meanwhile stays. */
    method Advance(d: Due) returns (found: bool)
      requires Valid() && Cron.WellFormed(d.schedule.spec)
      modifies this
      ensures Valid() && found == AdvanceSchedule(CRON, old(rows), d).Some?
      ensures rows == if found then AdvanceSchedule(CRON, old(rows), d).value else old(rows)
    {
      var next := Cron.SearchCronTime(d.schedule.spec, d.at);
      if next.None? { return false; }
      if d.id in rows && rows[d.id].enabled && rows[d.id].nextRun == Some(d.at) {
        rows := rows[d.id := rows[d.id].(lastRun := Some(d.at), nextRun := next)];
      }
      return true;
    }
  }
}
