/** Batches of conditional SQL steps: the step-by-step interpreter, the fast path for
    a canonical transaction, and the database with real transactions both stand for. */
module Batch {
  import opened Wrappers

  datatype StmtResult = StmtResult(cols: seq<string>, rows: seq<seq<string>>, rowsWritten: nat)

  const EMPTY_RESULT := StmtResult([], [], 0)

  /** What a statement's text is recognised as. OtherBlocked are BEGIN IMMEDIATE,
      SAVEPOINT and the like, Compound the airyfs_* calls. */
  datatype Stmt =
    | BeginTransaction | Commit | Rollback | OtherBlocked | Pragma
    | Compound(sql: string)
    | Query(sql: string, readOnly: bool)

  datatype Cond =
    | OkStep(step: nat) | ErrorStep(step: nat)
    | Not(cond: Cond) | And(conds: seq<Cond>) | Or(conds: seq<Cond>)
    | IsAutocommit

  datatype Step = Step(condition: Option<Cond>, stmt: Stmt)

  /** One statement on the engine: it takes effect or fails without any. */
  datatype Exec<D> = Done(db: D, result: StmtResult) | Failed(message: string)

  type Results = seq<Option<StmtResult>>
  type Errors = seq<Option<string>>

  function Nones<T>(n: nat): (s: seq<Option<T>>)
    ensures |s| == n && forall i | 0 <= i < n :: s[i] == None
  {
    seq(n, _ => None)
  }

  function Somes<T>(xs: seq<T>): (s: seq<Option<T>>)
    ensures |s| == |xs| && forall i | 0 <= i < |xs| :: s[i] == Some(xs[i])
  {
    seq(|xs|, i requires 0 <= i < |xs| => Some(xs[i]))
  }

  // --- Conditions --------------------------------------------------------------

  function Evaluate(c: Cond, results: Results, errors: Errors, autocommit: bool): bool
    decreases c
  {
    match c
    case OkStep(k) => k < |results| && results[k].Some?
    case ErrorStep(k) => k < |errors| && errors[k].Some?
    case Not(d) => !Evaluate(d, results, errors, autocommit)
    case And(cs) => forall i | 0 <= i < |cs| :: Evaluate(cs[i], results, errors, autocommit)
    case Or(cs) => exists i | 0 <= i < |cs| :: Evaluate(cs[i], results, errors, autocommit)
    case IsAutocommit => autocommit
  }

  predicate Taken(step: Step, results: Results, errors: Errors, autocommit: bool) {
    step.condition.None? || Evaluate(step.condition.value, results, errors, autocommit)
  }

  /** What the batch call returns, with the database it leaves. */
  datatype Outcome<D> = Outcome(db: D, results: Results, errors: Errors, executed: nat)

  // --- The reference: a connection on which transactions work -----------------------

  /** `saved` is the state to go back to, while a transaction is open. */
  datatype Session<D> = Session(db: D, saved: Option<D>)

  function Perform<D>(exec: (D, Stmt) -> Exec<D>, s: Session<D>, stmt: Stmt): (Session<D>, Result<StmtResult, string>) {
    match stmt
    case BeginTransaction =>
      if s.saved.Some? then (s, Err("cannot start a transaction within a transaction"))
      else (s.(saved := Some(s.db)), Ok(EMPTY_RESULT))
    case Commit =>
      if s.saved.None? then (s, Err("cannot commit - no transaction is active"))
      else (s.(saved := None), Ok(EMPTY_RESULT))
    case Rollback =>
      if s.saved.None? then (s, Err("cannot rollback - no transaction is active"))
      else (Session(s.saved.value, None), Ok(EMPTY_RESULT))
    case _ =>
      match exec(s.db, stmt)
      case Done(db, result) => (s.(db := db), Ok(result))
      case Failed(message) => (s, Err(message))
  }

  function Interpret<D>(exec: (D, Stmt) -> Exec<D>, steps: seq<Step>, s: Session<D>,
                        results: Results, errors: Errors, executed: nat): (Session<D>, Outcome<D>)
    requires |results| == |errors| <= |steps|
    decreases |steps| - |results|
  {
    var n := |results|;
    if n == |steps| then (s, Outcome(s.db, results, errors, executed))
    else if !Taken(steps[n], results, errors, s.saved.None?)
    then Interpret(exec, steps, s, results + [None], errors + [None], executed)
    else
      match Perform(exec, s, steps[n].stmt)
      case (s', Ok(r)) => Interpret(exec, steps, s', results + [Some(r)], errors + [None], executed + 1)
      case (s', Err(e)) => Interpret(exec, steps, s', results + [None], errors + [Some(e)], executed + 1)
  }

  /** A batch on a fresh connection. */
  function Reference<D>(exec: (D, Stmt) -> Exec<D>, steps: seq<Step>, db: D): (Session<D>, Outcome<D>) {
    Interpret(exec, steps, Session(db, None), [], [], 0)
  }

  // --- The server's step loop ---------------------------------------------------------

  /** executeStmtSync: transaction control and pragmas are no-ops, and the compound
      calls need the transaction callback. */
  function ExecuteStmt<D>(exec: (D, Stmt) -> Exec<D>, db: D, stmt: Stmt, transactions: bool): Exec<D> {
    match stmt
    case Query(_, _) => exec(db, stmt)
    case Compound(_) => if transactions then exec(db, stmt) else Failed("requires transaction support")
    case _ => Done(db, EMPTY_RESULT)
  }

  function StepLoop<D>(exec: (D, Stmt) -> Exec<D>, steps: seq<Step>, db: D, transactions: bool,
                       results: Results, errors: Errors, executed: nat): Outcome<D>
    requires |results| == |errors| <= |steps|
    decreases |steps| - |results|
  {
    var n := |results|;
    if n == |steps| then Outcome(db, results, errors, executed)
    else if !Taken(steps[n], results, errors, true)
    then StepLoop(exec, steps, db, transactions, results + [None], errors + [None], executed)
    else
      match ExecuteStmt(exec, db, steps[n].stmt, transactions)
      case Done(db', r) =>
        StepLoop(exec, steps, db', transactions, results + [Some(r)], errors + [None], executed + 1)
      case Failed(e) =>
        StepLoop(exec, steps, db, transactions, results + [None], errors + [Some(e)], executed + 1)
  }

  // --- The fast path ------------------------------------------------------------------------

  /** BEGIN TRANSACTION, steps each conditional on the one before, COMMIT if the last
      of them went well, ROLLBACK if the COMMIT did not run. */
  predicate Canonical(steps: seq<Step>) {
    && |steps| >= 3
    && steps[0] == Step(None, BeginTransaction)
    && steps[|steps| - 2].stmt == Commit && steps[|steps| - 1].stmt == Rollback
    && (forall k | 1 <= k < |steps| - 1 :: steps[k].condition == Some(OkStep(k - 1)))
    && steps[|steps| - 1].condition == Some(Not(OkStep(|steps| - 2)))
  }

  datatype BodyRun<D> = AllDone(db: D, results: seq<StmtResult>) | FailedAt(results: seq<StmtResult>, message: string)

  /** The statements in order, up to the first that fails. */
  function RunBody<D>(exec: (D, Stmt) -> Exec<D>, db: D, steps: seq<Step>): BodyRun<D>
    decreases |steps|
  {
    if steps == [] then AllDone(db, [])
    else
      match ExecuteStmt(exec, db, steps[0].stmt, false)
      case Failed(e) => FailedAt([], e)
      case Done(db', r) =>
        match RunBody(exec, db', steps[1..])
        case AllDone(db'', rs) => AllDone(db'', [r] + rs)
        case FailedAt(rs, e) => FailedAt([r] + rs, e)
  }

  /** One transaction around the body, all or nothing. */
  function Transactional<D>(exec: (D, Stmt) -> Exec<D>, steps: seq<Step>, db: D): Outcome<D>
    requires Canonical(steps)
  {
    var commit := |steps| - 2;
    match RunBody(exec, db, steps[1..commit])
    case AllDone(db', rs) =>
      Outcome(db', [Some(EMPTY_RESULT)] + Somes(rs) + [Some(EMPTY_RESULT), None], Nones(3 + |rs|), 2 + |rs|)
    case FailedAt(rs, e) =>
      var skipped := if |rs| + 2 <= commit then commit - 2 - |rs| else 0;
      Outcome(db,
              [Some(EMPTY_RESULT)] + Somes(rs) + [None] + Nones(skipped) + [None, Some(EMPTY_RESULT)],
              Nones(1 + |rs|) + [Some(e)] + Nones(skipped) + [None, None],
              3 + |rs|)
  }

  // --- The fast path is a real transaction -----------------------------------------------------

  predicate Ordinary(steps: seq<Step>) { forall k | 0 <= k < |steps| :: steps[k].stmt.Query? }

  /** After a failure nothing else runs but the rollback. */
  lemma {:induction false} RestSkipped<D>(exec: (D, Stmt) -> Exec<D>, steps: seq<Step>, db: D, start: D,
                                          results: Results, errors: Errors, executed: nat)
    requires Canonical(steps) && 2 <= |results| == |errors| < |steps|
    requires results[|results| - 1] == None
    ensures var skipped := |steps| - 2 - |results|;
            Interpret(exec, steps, Session(db, Some(start)), results, errors, executed) ==
            if skipped >= 0
            then (Session(start, None),
                  Outcome(start, results + Nones(skipped) + [None, Some(EMPTY_RESULT)],
                          errors + Nones(skipped) + [None, None], executed + 1))
            else (Session(start, None),
                  Outcome(start, results + [Some(EMPTY_RESULT)], errors + [None], executed + 1))
    decreases |steps| - |results|
  {
    var n := |results|;
    if n < |steps| - 1 {
      RestSkipped(exec, steps, db, start, results + [None], errors + [None], executed);
      var skipped := |steps| - 2 - n;
      if skipped > 0 {
        assert [None] + Nones<StmtResult>(skipped - 1) == Nones(skipped);
        assert [None] + Nones<string>(skipped - 1) == Nones(skipped);
        Regroup(results, None, Nones(skipped - 1), [None, Some(EMPTY_RESULT)]);
        Regroup(errors, None, Nones(skipped - 1), [None, None]);
      } else {
        assert results + [None] + [Some(EMPTY_RESULT)] == results + Nones(0) + [None, Some(EMPTY_RESULT)];
        assert errors + [None] + [None] == errors + Nones(0) + [None, None];
      }
    } else {
      var s := Perform(exec, Session(db, Some(start)), Rollback);
      assert Taken(steps[n], results, errors, false);
    }
  }

  lemma Regroup<T>(a: seq<T>, x: T, b: seq<T>, c: seq<T>)
    ensures a + [x] + b + c == a + ([x] + b) + c
  {
  }

  /** `done` in front of what the rest of the body gives. */
  function AfterDone<D>(done: seq<StmtResult>, rest: BodyRun<D>): BodyRun<D> {
    match rest
    case AllDone(db, rs) => AllDone(db, done + rs)
    case FailedAt(rs, e) => FailedAt(done + rs, e)
  }

  lemma AfterDoneStep<D>(exec: (D, Stmt) -> Exec<D>, db: D, done: seq<StmtResult>, steps: seq<Step>)
    requires steps != []
    ensures AfterDone(done, RunBody(exec, db, steps)) ==
            match ExecuteStmt(exec, db, steps[0].stmt, false)
            case Failed(e) => FailedAt(done, e)
            case Done(db', r) => AfterDone(done + [r], RunBody(exec, db', steps[1..]))
  {
    match ExecuteStmt(exec, db, steps[0].stmt, false)
    case Failed(e) => assert done + [] == done;
    case Done(db', r) =>
      match RunBody(exec, db', steps[1..])
      case AllDone(_, rs) => assert done + ([r] + rs) == done + [r] + rs;
      case FailedAt(rs, _) => assert done + ([r] + rs) == done + [r] + rs;
  }

  /** What the interpreter has seen after `done` body statements went well. */
  function Begun(done: seq<StmtResult>): Results { [Some(EMPTY_RESULT)] + Somes(done) }

  lemma BegunMore(done: seq<StmtResult>, r: StmtResult)
    ensures Begun(done) + [Some(r)] == Begun(done + [r])
    ensures Nones<string>(1 + |done|) + [None] == Nones(1 + |done + [r]|)
  {
  }

  function Committed<D>(db: D, done: seq<StmtResult>): (Session<D>, Outcome<D>) {
    (Session(db, None),
     Outcome(db, Begun(done) + [Some(EMPTY_RESULT), None], Nones(3 + |done|), 2 + |done|))
  }

  function RolledBack<D>(start: D, done: seq<StmtResult>, message: string, commit: nat): (Session<D>, Outcome<D>)
    requires |done| + 2 <= commit
  {
    var skipped := commit - 2 - |done|;
    (Session(start, None),
     Outcome(start, Begun(done) + [None] + Nones(skipped) + [None, Some(EMPTY_RESULT)],
             Nones(1 + |done|) + [Some(message)] + Nones(skipped) + [None, None], 3 + |done|))
  }

  function Finished<D>(start: D, run: BodyRun<D>, commit: nat): (Session<D>, Outcome<D>) {
    match run
    case AllDone(db, rs) => Committed(db, rs)
    case FailedAt(rs, e) => if |rs| + 2 <= commit then RolledBack(start, rs, e, commit) else Committed(start, [])
  }

  /** The body: up to the COMMIT if all goes well, to the ROLLBACK otherwise. */
  lemma {:induction false} BodyInterpreted<D>(exec: (D, Stmt) -> Exec<D>, steps: seq<Step>, db: D, start: D,
                                              done: seq<StmtResult>)
    requires Canonical(steps) && Ordinary(steps[1..|steps| - 2]) && |done| <= |steps| - 3
    ensures Interpret(exec, steps, Session(db, Some(start)), Begun(done), Nones(1 + |done|), 1 + |done|) ==
            Finished(start, AfterDone(done, RunBody(exec, db, steps[1 + |done|..|steps| - 2])), |steps| - 2)
    decreases |steps| - |done|
  {
    var n, commit := 1 + |done|, |steps| - 2;
    if n == commit {
      CommitInterpreted(exec, steps, db, start, done);
      assert steps[n..commit] == [] && done + [] == done;
    } else {
      assert Begun(done)[n - 1].Some? && Taken(steps[n], Begun(done), Nones(n), false);
      assert steps[1..commit][n - 1] == steps[n];
      assert steps[n..commit][1..] == steps[n + 1..commit];
      AfterDoneStep(exec, db, done, steps[n..commit]);
      match exec(db, steps[n].stmt) {
        case Failed(e) =>
          RestSkipped(exec, steps, db, start, Begun(done) + [None], Nones(n) + [Some(e)], n + 1);
        case Done(db', r) =>
          BegunMore(done, r);
          BodyInterpreted(exec, steps, db', start, done + [r]);
      }
    }
  }

  lemma CommitInterpreted<D>(exec: (D, Stmt) -> Exec<D>, steps: seq<Step>, db: D, start: D, done: seq<StmtResult>)
    requires Canonical(steps) && |done| == |steps| - 3
    ensures Interpret(exec, steps, Session(db, Some(start)), Begun(done), Nones(1 + |done|), 1 + |done|)
            == Committed(db, done)
  {
    var n, rs, es := 1 + |done|, Begun(done), Nones<string>(1 + |done|);
    assert rs[n - 1].Some? && Taken(steps[n], rs, es, false);
    var rs', es' := rs + [Some(EMPTY_RESULT)], es + [None];
    assert rs'[n].Some? && Evaluate(OkStep(n), rs', es', true);
    assert !Taken(steps[n + 1], rs', es', true);
    assert rs' + [None] == rs + [Some(EMPTY_RESULT), None] && es' + [None] == Nones(n + 2);
    assert Interpret(exec, steps, Session(db, None), rs' + [None], es' + [None], n + 1) == Committed(db, done);
    assert Interpret(exec, steps, Session(db, None), rs', es', n + 1) == Committed(db, done);
  }

  /** A canonical batch of ordinary SQL does on the fast path exactly what its
      conditions say on a connection where transactions work: same step results,
      same errors, same number of statements run, same database, none left open. */
  lemma CanonicalIsTransaction<D>(exec: (D, Stmt) -> Exec<D>, steps: seq<Step>, db: D)
    requires Canonical(steps) && Ordinary(steps[1..|steps| - 2])
    ensures Reference(exec, steps, db) == (Session(Transactional(exec, steps, db).db, None),
            Transactional(exec, steps, db))
  {
    assert Begun([]) == [] + [Some(EMPTY_RESULT)] && Nones<string>(1) == [] + [None];
    BodyInterpreted(exec, steps, db, db, []);
    RunBodyLength(exec, db, steps[1..|steps| - 2]);
    match RunBody(exec, db, steps[1..|steps| - 2])
    case AllDone(_, rs) =>
      assert [] + rs == rs;
      assert Begun(rs) + [Some(EMPTY_RESULT), None] == [Some(EMPTY_RESULT)] + Somes(rs) + [Some(EMPTY_RESULT), None];
    case FailedAt(rs, _) => assert [] + rs == rs;
  }

  /** All or nothing: the batch reports its COMMIT or leaves the database alone. */
  lemma FastPathAtomic<D>(exec: (D, Stmt) -> Exec<D>, steps: seq<Step>, db: D)
    requires Canonical(steps) && Ordinary(steps[1..|steps| - 2])
    ensures var o := Transactional(exec, steps, db);
            && |o.results| == |o.errors| == |steps|
            && (o.results[|steps| - 2].Some? <==> forall k | 0 <= k < |steps| :: o.errors[k] == None)
            && (o.results[|steps| - 2].None? ==> o.db == db)
  {
    RunBodyLength(exec, db, steps[1..|steps| - 2]);
    match RunBody(exec, db, steps[1..|steps| - 2])
    case AllDone(_, rs) =>
    case FailedAt(rs, e) => assert Transactional(exec, steps, db).errors[1 + |rs|] == Some(e);
  }

  lemma {:induction false} RunBodyLength<D>(exec: (D, Stmt) -> Exec<D>, db: D, steps: seq<Step>)
    ensures match RunBody(exec, db, steps)
            case AllDone(_, rs) => |rs| == |steps|
            case FailedAt(rs, _) => |rs| < |steps|
    decreases |steps|
  {
    if steps != [] {
      match ExecuteStmt(exec, db, steps[0].stmt, false)
      case Failed(_) =>
      case Done(db', _) => RunBodyLength(exec, db', steps[1..]);
    }
  }

  // --- The step loop is autocommit -------------------------------------------------------------

  predicate NoControl(steps: seq<Step>) {
    forall k | 0 <= k < |steps| :: steps[k].stmt.Query? || steps[k].stmt.Compound?
  }

  /** Any batch without transaction control, whatever its conditions. */
  lemma {:induction false} LoopIsAutocommit<D>(exec: (D, Stmt) -> Exec<D>, steps: seq<Step>, db: D,
                                               results: Results, errors: Errors, executed: nat)
    requires NoControl(steps) && |results| == |errors| <= |steps|
    ensures var o := StepLoop(exec, steps, db, true, results, errors, executed);
            Interpret(exec, steps, Session(db, None), results, errors, executed) == (Session(o.db, None), o)
    decreases |steps| - |results|
  {
    var n := |results|;
    if n < |steps| {
      if !Taken(steps[n], results, errors, true) {
        LoopIsAutocommit(exec, steps, db, results + [None], errors + [None], executed);
      } else {
        match exec(db, steps[n].stmt)
        case Done(db', r) => LoopIsAutocommit(exec, steps, db', results + [Some(r)], errors + [None], executed + 1);
        case Failed(e) => LoopIsAutocommit(exec, steps, db, results + [None], errors + [Some(e)], executed + 1);
      }
    }
  }

  // --- Batches with transaction control in any shape --------------------------------------------

  /** What one step did: its result, its error, and the database after it. */
  datatype Seen<D> = Seen(result: Option<StmtResult>, error: Option<string>, db: D)

  /** Step `n` on a connection where transactions work. */
  function RealStep<D>(exec: (D, Stmt) -> Exec<D>, step: Step, s: Session<D>, results: Results, errors: Errors)
    : (Session<D>, Seen<D>)
  {
    if !Taken(step, results, errors, s.saved.None?) then (s, Seen(None, None, s.db))
    else match Perform(exec, s, step.stmt)
         case (s', Ok(r)) => (s', Seen(Some(r), None, s'.db))
         case (s', Err(e)) => (s', Seen(None, Some(e), s'.db))
  }

  /** Step `n` of the server's loop. */
  function LoopStep<D>(exec: (D, Stmt) -> Exec<D>, step: Step, db: D, transactions: bool, results: Results,
                       errors: Errors): Seen<D>
  {
    if !Taken(step, results, errors, true) then Seen(None, None, db)
    else match ExecuteStmt(exec, db, step.stmt, transactions)
         case Done(db', r) => Seen(Some(r), None, db')
         case Failed(e) => Seen(None, Some(e), db)
  }

  /** The two runs, step by step; the first also tells whether a transaction is left open. */
  function RealTrace<D>(exec: (D, Stmt) -> Exec<D>, steps: seq<Step>, s: Session<D>, results: Results,
                        errors: Errors): (seq<Seen<D>>, bool)
    requires |results| == |errors| <= |steps|
    decreases |steps| - |results|
  {
    if |results| == |steps| then ([], s.saved.Some?)
    else
      var (s', seen) := RealStep(exec, steps[|results|], s, results, errors);
      var (rest, open) := RealTrace(exec, steps, s', results + [seen.result], errors + [seen.error]);
      ([seen] + rest, open)
  }

  function LoopTrace<D>(exec: (D, Stmt) -> Exec<D>, steps: seq<Step>, db: D, transactions: bool, results: Results,
                        errors: Errors): seq<Seen<D>>
    requires |results| == |errors| <= |steps|
    decreases |steps| - |results|
  {
    if |results| == |steps| then []
    else
      var seen := LoopStep(exec, steps[|results|], db, transactions, results, errors);
      [seen] + LoopTrace(exec, steps, seen.db, transactions, results + [seen.result], errors + [seen.error])
  }

  /** What the loop does with a statement is right: no BEGIN inside an open transaction,
      COMMIT and ROLLBACK only inside one, a ROLLBACK that finds what its BEGIN saw, a
      compound call only with the callback it needs, and nothing else skipped that would
      have had an effect. */
  ghost predicate HarmlessStmt<D(!new)>(exec: (D, Stmt) -> Exec<D>, s: Session<D>, stmt: Stmt, transactions: bool) {
    match stmt
    case BeginTransaction => s.saved.None?
    case Commit => s.saved.Some?
    case Rollback => s.saved == Some(s.db)
    case Query(_, _) => true
    case Compound(_) => transactions || exec(s.db, stmt) == Failed("requires transaction support")
    case _ => exec(s.db, stmt) == Done(s.db, EMPTY_RESULT)
  }

  /** The condition is not decided by an is_autocommit read in an open transaction. */
  predicate HarmlessCondition(step: Step, results: Results, errors: Errors, autocommit: bool) {
    Taken(step, results, errors, autocommit) == Taken(step, results, errors, true)
  }

  /** Every step up to the end is harmless, and no transaction is left open. */
  ghost predicate Harmless<D(!new)>(exec: (D, Stmt) -> Exec<D>, steps: seq<Step>, s: Session<D>, transactions: bool,
                                    results: Results, errors: Errors)
    requires |results| == |errors| <= |steps|
    decreases |steps| - |results|
  {
    if |results| == |steps| then s.saved.None?
    else
      var step := steps[|results|];
      var (s', seen) := RealStep(exec, step, s, results, errors);
      && HarmlessCondition(step, results, errors, s.saved.None?)
      && (Taken(step, results, errors, true) ==> HarmlessStmt(exec, s, step.stmt, transactions))
      && Harmless(exec, steps, s', transactions, results + [seen.result], errors + [seen.error])
  }

  lemma StepAgrees<D(!new)>(exec: (D, Stmt) -> Exec<D>, step: Step, s: Session<D>, transactions: bool,
                            results: Results, errors: Errors)
    ensures RealStep(exec, step, s, results, errors).1 == LoopStep(exec, step, s.db, transactions, results, errors)
            <==> HarmlessCondition(step, results, errors, s.saved.None?)
                 && (Taken(step, results, errors, true) ==> HarmlessStmt(exec, s, step.stmt, transactions))
  {
  }

  lemma HeadsAgree<T>(x: T, xs: seq<T>, y: T, ys: seq<T>)
    ensures [x] + xs == [y] + ys <==> x == y && xs == ys
  {
    if [x] + xs == [y] + ys {
      assert ([x] + xs)[0] == x && ([y] + ys)[0] == y;
      assert ([x] + xs)[1..] == xs && ([y] + ys)[1..] == ys;
    }
  }

  /** For every batch whatsoever, the step loop does at every step what a real connection
      does, and nothing is left open, exactly when every step is harmless. */
  lemma {:induction false} LoopIsRealExactly<D(!new)>(exec: (D, Stmt) -> Exec<D>, steps: seq<Step>, s: Session<D>,
                                                      transactions: bool, results: Results, errors: Errors)
    requires |results| == |errors| <= |steps|
    ensures RealTrace(exec, steps, s, results, errors)
              == (LoopTrace(exec, steps, s.db, transactions, results, errors), false)
            <==> Harmless(exec, steps, s, transactions, results, errors)
    decreases |steps| - |results|
  {
    if |results| < |steps| {
      var step := steps[|results|];
      var (s', seen) := RealStep(exec, step, s, results, errors);
      var seen' := LoopStep(exec, step, s.db, transactions, results, errors);
      StepAgrees(exec, step, s, transactions, results, errors);
      HeadsAgree(seen, RealTrace(exec, steps, s', results + [seen.result], errors + [seen.error]).0,
                 seen', LoopTrace(exec, steps, seen'.db, transactions, results + [seen'.result],
                                  errors + [seen'.error]));
      if seen == seen' {
        LoopIsRealExactly(exec, steps, s', transactions, results + [seen.result], errors + [seen.error]);
      }
    }
  }

  /** ... and then the outcome is the same, with the database committed. */
  lemma {:induction false} HarmlessOutcome<D(!new)>(exec: (D, Stmt) -> Exec<D>, steps: seq<Step>, s: Session<D>,
                                                    transactions: bool, results: Results, errors: Errors, executed: nat)
    requires |results| == |errors| <= |steps| && Harmless(exec, steps, s, transactions, results, errors)
    ensures var o := StepLoop(exec, steps, s.db, transactions, results, errors, executed);
            Interpret(exec, steps, s, results, errors, executed) == (Session(o.db, None), o)
    decreases |steps| - |results|
  {
    if |results| < |steps| {
      var step := steps[|results|];
      var (s', seen) := RealStep(exec, step, s, results, errors);
      StepAgrees(exec, step, s, transactions, results, errors);
      var more := if Taken(step, results, errors, true) then 1 else 0;
      HarmlessOutcome(exec, steps, s', transactions, results + [seen.result], errors + [seen.error], executed + more);
    }
  }

  /** The two runs first part at a step of which both record the same, but which leaves
      them different databases. */
  ghost predicate PartUnseen<D(!new)>(exec: (D, Stmt) -> Exec<D>, steps: seq<Step>, s: Session<D>, transactions: bool,
                                      results: Results, errors: Errors)
    requires |results| == |errors| <= |steps|
    decreases |steps| - |results|
  {
    && |results| < |steps|
    && var (s', seen) := RealStep(exec, steps[|results|], s, results, errors);
       var seen' := LoopStep(exec, steps[|results|], s.db, transactions, results, errors);
       if seen != seen' then seen.result == seen'.result && seen.error == seen'.error
       else PartUnseen(exec, steps, s', transactions, results + [seen.result], errors + [seen.error])
  }

  /** What has been recorded is not taken back. */
  lemma {:induction false} LoopKeeps<D>(exec: (D, Stmt) -> Exec<D>, steps: seq<Step>, db: D, transactions: bool,
                                        results: Results, errors: Errors, executed: nat)
    requires |results| == |errors| <= |steps|
    ensures var o := StepLoop(exec, steps, db, transactions, results, errors, executed);
            results <= o.results && errors <= o.errors
    decreases |steps| - |results|
  {
    if |results| < |steps| {
      var seen := LoopStep(exec, steps[|results|], db, transactions, results, errors);
      var more := if Taken(steps[|results|], results, errors, true) then 1 else 0;
      LoopKeeps(exec, steps, seen.db, transactions, results + [seen.result], errors + [seen.error], executed + more);
    }
  }

  lemma {:induction false} RealKeeps<D>(exec: (D, Stmt) -> Exec<D>, steps: seq<Step>, s: Session<D>,
                                        results: Results, errors: Errors, executed: nat)
    requires |results| == |errors| <= |steps|
    ensures var o := Interpret(exec, steps, s, results, errors, executed).1;
            results <= o.results && errors <= o.errors
    decreases |steps| - |results|
  {
    if |results| < |steps| {
      var (s', seen) := RealStep(exec, steps[|results|], s, results, errors);
      var more := if Taken(steps[|results|], results, errors, s.saved.None?) then 1 else 0;
      RealKeeps(exec, steps, s', results + [seen.result], errors + [seen.error], executed + more);
    }
  }

  /** Equal outcomes without an open transaction mean that every step was harmless, or
      that the runs parted unseen and perhaps met again. */
  lemma {:induction false} OutcomeTells<D(!new)>(exec: (D, Stmt) -> Exec<D>, steps: seq<Step>, s: Session<D>,
                                                 transactions: bool, results: Results, errors: Errors, executed: nat)
    requires |results| == |errors| <= |steps|
    requires var o := StepLoop(exec, steps, s.db, transactions, results, errors, executed);
             Interpret(exec, steps, s, results, errors, executed) == (Session(o.db, None), o)
    ensures Harmless(exec, steps, s, transactions, results, errors)
            || PartUnseen(exec, steps, s, transactions, results, errors)
    decreases |steps| - |results|
  {
    var n := |results|;
    if n < |steps| {
      var (s', seen) := RealStep(exec, steps[n], s, results, errors);
      var seen' := LoopStep(exec, steps[n], s.db, transactions, results, errors);
      StepAgrees(exec, steps[n], s, transactions, results, errors);
      var more := if Taken(steps[n], results, errors, s.saved.None?) then 1 else 0;
      var more' := if Taken(steps[n], results, errors, true) then 1 else 0;
      RealKeeps(exec, steps, s', results + [seen.result], errors + [seen.error], executed + more);
      LoopKeeps(exec, steps, seen'.db, transactions, results + [seen'.result], errors + [seen'.error],
                executed + more');
      var o := StepLoop(exec, steps, s.db, transactions, results, errors, executed);
      assert o.results[n] == seen.result == seen'.result && o.errors[n] == seen.error == seen'.error;
      if seen == seen' {
        OutcomeTells(exec, steps, s', transactions, results + [seen.result], errors + [seen.error], executed + more);
      }
    }
  }

  /** The first harmful step is a ROLLBACK, taken in an open transaction, that finds
      another database than its BEGIN saw. */
  ghost predicate UndoesFirst<D(!new)>(exec: (D, Stmt) -> Exec<D>, steps: seq<Step>, s: Session<D>, transactions: bool,
                                       results: Results, errors: Errors)
    requires |results| == |errors| <= |steps|
    decreases |steps| - |results|
  {
    && |results| < |steps|
    && var step := steps[|results|];
       var (s', seen) := RealStep(exec, step, s, results, errors);
       && HarmlessCondition(step, results, errors, s.saved.None?)
       && if Taken(step, results, errors, true) && !HarmlessStmt(exec, s, step.stmt, transactions)
          then step.stmt == Rollback && s.saved.Some?
          else UndoesFirst(exec, steps, s', transactions, results + [seen.result], errors + [seen.error])
  }

  predicate PlainOrControl(steps: seq<Step>) {
    forall k | 0 <= k < |steps| ::
      steps[k].stmt.Query? || steps[k].stmt == BeginTransaction || steps[k].stmt == Commit || steps[k].stmt == Rollback
  }

  /** With nothing but plain SQL and transaction control that is the only way. */
  lemma {:induction false} OnlyRollbackParts<D(!new)>(exec: (D, Stmt) -> Exec<D>, steps: seq<Step>, s: Session<D>,
                                                      transactions: bool, results: Results, errors: Errors)
    requires |results| == |errors| <= |steps| && PlainOrControl(steps)
    ensures PartUnseen(exec, steps, s, transactions, results, errors)
            <==> UndoesFirst(exec, steps, s, transactions, results, errors)
    decreases |steps| - |results|
  {
    if |results| < |steps| {
      var (s', seen) := RealStep(exec, steps[|results|], s, results, errors);
      StepAgrees(exec, steps[|results|], s, transactions, results, errors);
      if seen == LoopStep(exec, steps[|results|], s.db, transactions, results, errors) {
        OnlyRollbackParts(exec, steps, s', transactions, results + [seen.result], errors + [seen.error]);
      }
    }
  }

  /** So a transaction that is only ever committed is right without any conditions. */
  lemma BareTransaction<D(!new)>(exec: (D, Stmt) -> Exec<D>, steps: seq<Step>, db: D, sql: string)
    requires steps == [Step(None, BeginTransaction), Step(None, Query(sql, false)), Step(None, Commit)]
    ensures !Canonical(steps)
    ensures var o := StepLoop(exec, steps, db, true, [], [], 0); Reference(exec, steps, db) == (Session(o.db, None), o)
  {
    var s0 := Session(db, None);
    var r: Option<StmtResult> := Some(EMPTY_RESULT);
    var s1 := Session(db, Some(db));
    assert RealStep(exec, steps[0], s0, [], []) == (s1, Seen(r, None, db));
    var (s2, seen) := RealStep(exec, steps[1], s1, [] + [r], [] + [None]);
    var rs, es := [] + [r] + [seen.result], [] + [None] + [seen.error];
    var (s3, last) := RealStep(exec, steps[2], s2, rs, es);
    assert s2.saved == Some(db) && s3.saved == None;
    assert Harmless(exec, steps, s3, true, rs + [last.result], es + [last.error]);
    assert Harmless(exec, steps, s2, true, rs, es);
    assert Harmless(exec, steps, s1, true, [] + [r], [] + [None]);
    HarmlessOutcome(exec, steps, s0, true, [], [], 0);
  }

  /** Counts the statements that took effect. */
  function Counting(db: int, stmt: Stmt): Exec<int> { Done(db + 1, EMPTY_RESULT) }

  /** A batch that a real connection undoes and the step loop keeps. */
  lemma RollbackNotUndone(steps: seq<Step>)
    requires steps == [Step(None, BeginTransaction), Step(None, Query("INSERT", false)), Step(None, Rollback)]
    ensures !Canonical(steps)
    ensures StepLoop(Counting, steps, 0, true, [], [], 0).db == 1
    ensures Reference(Counting, steps, 0).0.db == 0
  {
    var r: Option<StmtResult> := Some(EMPTY_RESULT);
    var none: Option<string> := None;
    assert [] + [r] == [r] && [r] + [r] == [r, r] && [r, r] + [r] == [r, r, r];
    assert [] + [none] == [none] && [none] + [none] == [none, none] && [none, none] + [none] == [none, none, none];
    assert StepLoop(Counting, steps, 1, true, [r, r, r], [none, none, none], 3).db == 1;
    assert StepLoop(Counting, steps, 1, true, [r, r], [none, none], 2).db == 1;
    assert StepLoop(Counting, steps, 0, true, [r], [none], 1).db == 1;
    assert Interpret(Counting, steps, Session(0, None), [r, r, r], [none, none, none], 3).0.db == 0;
    assert Interpret(Counting, steps, Session(1, Some(0)), [r, r], [none, none], 2).0.db == 0;
    assert Interpret(Counting, steps, Session(0, Some(0)), [r], [none], 1).0.db == 0;
  }

  // --- What makes a step run ---------------------------------------------------------------------

  /** A step that ran left its result or its error. */
  predicate Ran<D>(o: Outcome<D>, n: nat)
    requires n < |o.results| && n < |o.errors|
  {
    o.results[n].Some? || o.errors[n].Some?
  }

  lemma {:induction false} LoopLength<D>(exec: (D, Stmt) -> Exec<D>, steps: seq<Step>, db: D, transactions: bool,
                                         results: Results, errors: Errors, executed: nat)
    requires |results| == |errors| <= |steps|
    ensures var o := StepLoop(exec, steps, db, transactions, results, errors, executed);
            |o.results| == |o.errors| == |steps|
    decreases |steps| - |results|
  {
    if |results| < |steps| {
      var seen := LoopStep(exec, steps[|results|], db, transactions, results, errors);
      var more := if Taken(steps[|results|], results, errors, true) then 1 else 0;
      LoopLength(exec, steps, seen.db, transactions, results + [seen.result], errors + [seen.error], executed + more);
    }
  }

  /** Step `n` runs when its condition says so of what the steps before it left. */
  lemma {:induction false} LoopRuns<D>(exec: (D, Stmt) -> Exec<D>, steps: seq<Step>, db: D, transactions: bool,
                                       results: Results, errors: Errors, executed: nat, n: nat)
    requires |results| == |errors| <= n < |steps|
    ensures var o := StepLoop(exec, steps, db, transactions, results, errors, executed);
            && |o.results| == |o.errors| == |steps|
            && (Ran(o, n) <==> Taken(steps[n], o.results[..n], o.errors[..n], true))
    decreases |steps| - |results|
  {
    var m := |results|;
    var seen := LoopStep(exec, steps[m], db, transactions, results, errors);
    var more := if Taken(steps[m], results, errors, true) then 1 else 0;
    var results', errors' := results + [seen.result], errors + [seen.error];
    LoopLength(exec, steps, db, transactions, results, errors, executed);
    if m < n {
      LoopRuns(exec, steps, seen.db, transactions, results', errors', executed + more, n);
    } else {
      LoopKeeps(exec, steps, seen.db, transactions, results', errors', executed + more);
      var o := StepLoop(exec, steps, seen.db, transactions, results', errors', executed + more);
      assert o.results[..n] == results && o.errors[..n] == errors;
      assert o.results[n] == results'[n] && o.errors[n] == errors'[n];
    }
  }

  /** The steps before `n` do not depend on the condition of step `n`. */
  lemma {:induction false} LoopBefore<D>(exec: (D, Stmt) -> Exec<D>, steps: seq<Step>, steps': seq<Step>, db: D,
                                         transactions: bool, results: Results, errors: Errors, executed: nat, n: nat)
    requires |results| == |errors| <= n < |steps| == |steps'| && steps[..n] == steps'[..n]
    ensures var o := StepLoop(exec, steps, db, transactions, results, errors, executed);
            var o' := StepLoop(exec, steps', db, transactions, results, errors, executed);
            && |o.results| == |o.errors| == |o'.results| == |o'.errors| == |steps|
            && o.results[..n] == o'.results[..n] && o.errors[..n] == o'.errors[..n]
    decreases |steps| - |results|
  {
    var m := |results|;
    LoopLength(exec, steps, db, transactions, results, errors, executed);
    LoopLength(exec, steps', db, transactions, results, errors, executed);
    if m < n {
      assert steps[m] == steps[..n][m] == steps'[m];
      var seen := LoopStep(exec, steps[m], db, transactions, results, errors);
      var more := if Taken(steps[m], results, errors, true) then 1 else 0;
      LoopBefore(exec, steps, steps', seen.db, transactions, results + [seen.result], errors + [seen.error],
                 executed + more, n);
    } else {
      LoopKeeps(exec, steps, db, transactions, results, errors, executed);
      LoopKeeps(exec, steps', db, transactions, results, errors, executed);
    }
  }

  /** Step `n` of the batch, under this condition, runs. */
  ghost predicate Runs<D>(exec: (D, Stmt) -> Exec<D>, steps: seq<Step>, db: D, transactions: bool, n: nat, c: Cond)
    requires n < |steps|
  {
    var o := StepLoop(exec, steps[n := Step(Some(c), steps[n].stmt)], db, transactions, [], [], 0);
    n < |o.results| && n < |o.errors| && Ran(o, n)
  }

  lemma RunsIsEvaluate<D>(exec: (D, Stmt) -> Exec<D>, steps: seq<Step>, db: D, transactions: bool, n: nat, c: Cond)
    requires n < |steps|
    ensures var o := StepLoop(exec, steps, db, transactions, [], [], 0);
            && |o.results| == |o.errors| == |steps|
            && (Runs(exec, steps, db, transactions, n, c) <==> Evaluate(c, o.results[..n], o.errors[..n], true))
  {
    var steps' := steps[n := Step(Some(c), steps[n].stmt)];
    LoopRuns(exec, steps', db, transactions, [], [], 0, n);
    LoopBefore(exec, steps, steps', db, transactions, [], [], 0, n);
  }

  /** What makes a step run, by what the steps before it left: a step without a condition
      always runs, `ok` after a result, `error` after an error, and the connectives mean
      what they say. */
  lemma ConditionsMean<D>(exec: (D, Stmt) -> Exec<D>, steps: seq<Step>, db: D, transactions: bool, n: nat, k: nat)
    requires n < |steps|
    ensures var o := StepLoop(exec, steps, db, transactions, [], [], 0);
            && |o.results| == |o.errors| == |steps|
            && (steps[n].condition == None ==> Ran(o, n))
            && (steps[n].condition.Some? ==>
                  (Ran(o, n) <==> Runs(exec, steps, db, transactions, n, steps[n].condition.value)))
            && (Runs(exec, steps, db, transactions, n, OkStep(k)) <==> k < n && o.results[k] != None)
            && (Runs(exec, steps, db, transactions, n, ErrorStep(k)) <==> k < n && o.errors[k] != None)
    ensures Runs(exec, steps, db, transactions, n, IsAutocommit)
    ensures Runs(exec, steps, db, transactions, n, And([])) && !Runs(exec, steps, db, transactions, n, Or([]))
  {
    RunsIsEvaluate(exec, steps, db, transactions, n, OkStep(k));
    RunsIsEvaluate(exec, steps, db, transactions, n, ErrorStep(k));
    RunsIsEvaluate(exec, steps, db, transactions, n, IsAutocommit);
    RunsIsEvaluate(exec, steps, db, transactions, n, And([]));
    RunsIsEvaluate(exec, steps, db, transactions, n, Or([]));
    LoopRuns(exec, steps, db, transactions, [], [], 0, n);
    if steps[n].condition.Some? {
      assert steps[n := Step(Some(steps[n].condition.value), steps[n].stmt)] == steps;
    }
  }

  lemma ConnectivesMean<D>(exec: (D, Stmt) -> Exec<D>, steps: seq<Step>, db: D, transactions: bool, n: nat,
                           c: Cond, cs: seq<Cond>)
    requires n < |steps|
    ensures Runs(exec, steps, db, transactions, n, Not(c)) <==> !Runs(exec, steps, db, transactions, n, c)
    ensures Runs(exec, steps, db, transactions, n, And([c] + cs)) <==>
            Runs(exec, steps, db, transactions, n, c) && Runs(exec, steps, db, transactions, n, And(cs))
    ensures Runs(exec, steps, db, transactions, n, Or([c] + cs)) <==>
            Runs(exec, steps, db, transactions, n, c) || Runs(exec, steps, db, transactions, n, Or(cs))
  {
    RunsIsEvaluate(exec, steps, db, transactions, n, c);
    RunsIsEvaluate(exec, steps, db, transactions, n, Not(c));
    RunsIsEvaluate(exec, steps, db, transactions, n, And(cs));
    RunsIsEvaluate(exec, steps, db, transactions, n, Or(cs));
    RunsIsEvaluate(exec, steps, db, transactions, n, And([c] + cs));
    RunsIsEvaluate(exec, steps, db, transactions, n, Or([c] + cs));
    var o := StepLoop(exec, steps, db, transactions, [], [], 0);
    ListsMean(c, cs, o.results[..n], o.errors[..n], true);
  }

  lemma ListsMean(c: Cond, cs: seq<Cond>, results: Results, errors: Errors, autocommit: bool)
    ensures Evaluate(And([c] + cs), results, errors, autocommit) <==>
            Evaluate(c, results, errors, autocommit) && Evaluate(And(cs), results, errors, autocommit)
    ensures Evaluate(Or([c] + cs), results, errors, autocommit) <==>
            Evaluate(c, results, errors, autocommit) || Evaluate(Or(cs), results, errors, autocommit)
  {
    var all := [c] + cs;
    assert all[0] == c && forall i | 0 <= i < |cs| :: all[i + 1] == cs[i];
  }

  /** On a connection where transactions work, `is_autocommit` runs a step exactly outside
      of one. */
  lemma RealAutocommit<D>(exec: (D, Stmt) -> Exec<D>, stmt: Stmt, s: Session<D>, results: Results, errors: Errors)
    ensures var seen := RealStep(exec, Step(Some(IsAutocommit), stmt), s, results, errors).1;
            seen.result != None || seen.error != None <==> s.saved == None
  {
  }

  // --- The server ------------------------------------------------------------------------------

  predicate Mutating(stmt: Stmt) {
    match stmt
    case Query(_, readOnly) => !readOnly
    case Compound(_) => true
    case _ => false
  }

  /** The server reports a write when a mutating step went well and was not undone. */
  predicate Wrote(steps: seq<Step>, results: Results, transactions: bool)
    requires |results| == |steps|
  {
    && (exists k | 0 <= k < |steps| :: results[k].Some? && Mutating(steps[k].stmt))
    && !(transactions && Canonical(steps) && results[|steps| - 1].Some?)
  }

  function Batch<D>(exec: (D, Stmt) -> Exec<D>, steps: seq<Step>, db: D, transactions: bool): Outcome<D> {
    if transactions && Canonical(steps) then Transactional(exec, steps, db)
    else StepLoop(exec, steps, db, transactions, [], [], 0)
  }

  ghost predicate ReadsOnly<D(!new)>(exec: (D, Stmt) -> Exec<D>) {
    forall db: D, sql: string :: match exec(db, Query(sql, true))
                                 case Done(db', _) => db' == db
                                 case Failed(_) => true
  }

  lemma {:induction false} LoopWrites<D(!new)>(exec: (D, Stmt) -> Exec<D>, steps: seq<Step>, db: D, transactions: bool,
                                               results: Results, errors: Errors, executed: nat)
    requires ReadsOnly(exec) && |results| == |errors| <= |steps|
    ensures var o := StepLoop(exec, steps, db, transactions, results, errors, executed);
            && |o.results| == |steps| && results <= o.results
            && (o.db == db || exists k :: |results| <= k < |steps| && o.results[k].Some? && Mutating(steps[k].stmt))
    decreases |steps| - |results|
  {
    var n := |results|;
    if n < |steps| {
      if !Taken(steps[n], results, errors, true) {
        LoopWrites(exec, steps, db, transactions, results + [None], errors + [None], executed);
      } else {
        match ExecuteStmt(exec, db, steps[n].stmt, transactions)
        case Done(db', r) =>
          LoopWrites(exec, steps, db', transactions, results + [Some(r)], errors + [None], executed + 1);
          var o := StepLoop(exec, steps, db', transactions, results + [Some(r)], errors + [None], executed + 1);
          assert o.results[n] == (results + [Some(r)])[n];
        case Failed(e) =>
          LoopWrites(exec, steps, db, transactions, results + [None], errors + [Some(e)], executed + 1);
      }
    }
  }

  lemma {:induction false} BodyWrites<D(!new)>(exec: (D, Stmt) -> Exec<D>, db: D, steps: seq<Step>)
    requires ReadsOnly(exec)
    ensures match RunBody(exec, db, steps)
            case AllDone(db', _) => db' == db || exists k :: 0 <= k < |steps| && Mutating(steps[k].stmt)
            case FailedAt(_, _) => true
    decreases |steps|
  {
    if steps != [] {
      match ExecuteStmt(exec, db, steps[0].stmt, false)
      case Failed(_) =>
      case Done(db', _) =>
        BodyWrites(exec, db', steps[1..]);
        if RunBody(exec, db', steps[1..]).AllDone? && RunBody(exec, db', steps[1..]).db != db' {
          var k :| 0 <= k < |steps[1..]| && Mutating(steps[1..][k].stmt);
          assert Mutating(steps[k + 1].stmt);
        }
    }
  }

  /** Whoever is told of no write need not look: the database is as it was. */
  lemma UnreportedUnchanged<D(!new)>(exec: (D, Stmt) -> Exec<D>, steps: seq<Step>, db: D, transactions: bool)
    requires ReadsOnly(exec)
    ensures var o := Batch(exec, steps, db, transactions);
            |o.results| == |steps| && (!Wrote(steps, o.results, transactions) ==> o.db == db)
  {
    if transactions && Canonical(steps) {
      var body := steps[1..|steps| - 2];
      BodyWrites(exec, db, body);
      RunBodyLength(exec, db, body);
      var o := Transactional(exec, steps, db);
      if o.db != db {
        var k :| 0 <= k < |body| && Mutating(body[k].stmt);
        assert o.results[k + 1].Some? && steps[k + 1] == body[k];
      }
    } else {
      LoopWrites(exec, steps, db, transactions, [], [], 0);
    }
  }

  class HranaServer<D(!new)> {
    const exec: (D, Stmt) -> Exec<D>
    const transactions: bool
    var db: D
    var statementCount: nat

    constructor (exec: (D, Stmt) -> Exec<D>, transactions: bool, db: D)
      ensures this.exec == exec && this.transactions == transactions && this.db == db && statementCount == 0
    {
      this.exec, this.transactions, this.db, statementCount := exec, transactions, db, 0;
    }

    method CanonicalTransactionalBody(steps: seq<Step>) returns (canonical: bool)
      ensures canonical <==> Canonical(steps)
    {
      if |steps| < 3 { return false; }
      var last := |steps| - 1;
      var commit := last - 1;
      if steps[0].condition.Some? || steps[0].stmt != BeginTransaction { return false; }
      if steps[commit].stmt != Commit { return false; }
      if steps[last].stmt != Rollback { return false; }
      for index := 1 to commit
        invariant forall k :: 1 <= k < index ==> steps[k].condition == Some(OkStep(k - 1))
      {
        if steps[index].condition != Some(OkStep(index - 1)) { return false; }
      }
      if steps[commit].condition != Some(OkStep(commit - 1)) { return false; }
      return steps[last].condition == Some(Not(OkStep(commit)));
    }

    method ExecuteBatch(steps: seq<Step>) returns (results: Results, errors: Errors, wrote: bool)
      modifies this
      ensures var o := Batch(exec, steps, old(db), transactions);
              && db == o.db && results == o.results && errors == o.errors
              && statementCount == old(statementCount) + o.executed
      ensures |results| == |steps| && (wrote <==> Wrote(steps, results, transactions))
    {
      if transactions {
        var canonical := CanonicalTransactionalBody(steps);
        if canonical {
          results, errors, wrote := ExecuteTransactionalBatch(steps);
          return;
        }
      }
      results, errors, wrote := [], [], false;
      ghost var executed := 0;
      while |results| < |steps|
        invariant |results| == |errors| <= |steps|
        invariant statementCount == old(statementCount) + executed
        invariant wrote <==> exists k :: 0 <= k < |results| && results[k].Some? && Mutating(steps[k].stmt)
        invariant StepLoop(exec, steps, db, transactions, results, errors, executed)
                  == StepLoop(exec, steps, old(db), transactions, [], [], 0)
        decreases |steps| - |results|
      {
        var step := steps[|results|];
        if step.condition.Some? && !Evaluate(step.condition.value, results, errors, true) {
          results, errors := results + [None], errors + [None];
          continue;
        }
        statementCount := statementCount + 1;
        executed := executed + 1;
        match ExecuteStmt(exec, db, step.stmt, transactions) {
          case Done(after, result) =>
            db := after;
            results, errors := results + [Some(result)], errors + [None];
            wrote := wrote || Mutating(step.stmt);
          case Failed(message) =>
            results, errors := results + [None], errors + [Some(message)];
        }
      }
    }

    method ExecuteTransactionalBatch(steps: seq<Step>) returns (results: Results, errors: Errors, wrote: bool)
      requires Canonical(steps)
      modifies this
      ensures var o := Transactional(exec, steps, old(db));
              && db == o.db && results == o.results && errors == o.errors
              && statementCount == old(statementCount) + o.executed
      ensures |results| == |steps| && (wrote <==> Wrote(steps, results, true))
    {
      var commit, saved, failure := |steps| - 2, db, None;
      var done: seq<StmtResult> := [];
      statementCount := statementCount + 1;
      while 1 + |done| < commit && failure == None
        invariant |done| + (if failure.Some? then 2 else 1) <= commit
        invariant statementCount == old(statementCount) + 1 + |done| + (if failure.Some? then 1 else 0)
        invariant RunBody(exec, saved, steps[1..commit]) ==
                  if failure.Some? then FailedAt(done, failure.value)
                  else AfterDone(done, RunBody(exec, db, steps[1 + |done|..commit]))
        decreases failure.None?, commit - |done|
      {
        assert steps[1 + |done|..commit][1..] == steps[2 + |done|..commit];
        AfterDoneStep(exec, db, done, steps[1 + |done|..commit]);
        statementCount := statementCount + 1;
        match ExecuteStmt(exec, db, steps[1 + |done|].stmt, false) {
          case Done(after, result) =>
            db := after;
            done := done + [result];
          case Failed(message) => failure := Some(message);
        }
      }
      statementCount := statementCount + 1;
      if failure.None? {
        assert steps[commit..commit] == [] && done + [] == done;
        results, errors, wrote := CommitResults(steps, done);
      } else {
        db := saved;
        results, errors, wrote := RollbackResults(steps, done, failure.value);
      }
    }

    method CommitResults(steps: seq<Step>, done: seq<StmtResult>)
      returns (results: Results, errors: Errors, wrote: bool)
      requires Canonical(steps) && |done| == |steps| - 3
      ensures results == [Some(EMPTY_RESULT)] + Somes(done) + [Some(EMPTY_RESULT), None]
      ensures |results| == |steps| && errors == Nones(3 + |done|) && (wrote <==> Wrote(steps, results, true))
    {
      results := [Some(EMPTY_RESULT)] + Somes(done) + [Some(EMPTY_RESULT), None];
      errors := Nones(|results|);
      wrote := exists k | 1 <= k < |steps| - 2 :: Mutating(steps[k].stmt);
      assert forall k | 1 <= k < |steps| - 2 :: results[k].Some?;
    }

    /** The failed step's error; the steps not reached are skipped, ROLLBACK succeeds. */
    method RollbackResults(steps: seq<Step>, done: seq<StmtResult>, message: string)
      returns (results: Results, errors: Errors, wrote: bool)
      requires Canonical(steps) && |done| + 4 <= |steps|
      ensures var n := |steps| - 4 - |done|;
              && results == [Some(EMPTY_RESULT)] + Somes(done) + [None] + Nones(n) + [None, Some(EMPTY_RESULT)]
              && errors == Nones(1 + |done|) + [Some(message)] + Nones(n) + [None, None]
      ensures |results| == |steps| && (wrote <==> Wrote(steps, results, true))
    {
      results := [Some(EMPTY_RESULT)] + Somes(done) + [None];
      errors := Nones(1 + |done|) + [Some(message)];
      var skipped := |steps| - 2 - |results|;
      results := results + Nones(skipped) + [None, Some(EMPTY_RESULT)];
      errors := errors + Nones(skipped) + [None, None];
      wrote := false;
      assert results[|steps| - 1].Some?;
    }
  }
}
