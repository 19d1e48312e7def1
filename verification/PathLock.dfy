/** The fair subtree lock of a volume: who holds it is a function of the requests
    that have arrived and have not been released, in arrival order. */
module PathLock {
  import opened Paths

  datatype Mode = Read | Write

  /** One acquire call; `id` is its place in arrival order. */
  datatype Request = Request(id: nat, mode: Mode, paths: seq<string>)

  // --- Path overlap ------------------------------------------------------------

  function NormalizeLockPath(path: string): string {
    if path == "*" then path else "/" + Join(Components(path))
  }

  function StripSlashes(s: string): string {
    if s != "" && s[|s| - 1] == '/' then StripSlashes(s[..|s| - 1]) else s
  }

  function Stripped(s: string): string { if s == "/" then "/" else StripSlashes(s) }

  predicate PathsOverlap(a: string, b: string) {
    if a == "*" || b == "*" then true
    else
      var left, right := Stripped(a), Stripped(b);
      || left == right || left == "/" || right == "/"
      || right + "/" <= left || left + "/" <= right
  }

  lemma {:induction false} RootedEnd(cs: seq<string>)
    requires AllComponents(cs) && cs != []
    ensures |Rooted(cs)| > 1 && Rooted(cs)[0] == '/' && Rooted(cs)[|Rooted(cs)| - 1] != '/'
  {
    if |cs| > 1 {
      RootedEnd(cs[1..]);
    } else {
      assert Rooted(cs[1..]) == "";
      assert Rooted(cs)[|cs[0]|] == cs[0][|cs[0]| - 1];
    }
  }

  lemma NormalForm(path: string)
    requires path != "*"
    ensures NormalizeLockPath(path) != "*"
    ensures Stripped(NormalizeLockPath(path)) ==
            if Components(path) == [] then "/" else Rooted(Components(path))
    ensures Components(path) != [] ==> Rooted(Components(path)) != "/"
  {
    var cs, text := Components(path), NormalizeLockPath(path);
    if cs == [] {
      assert text == "/" + "" == "/";
    } else {
      RootedIsJoin(cs);
      RootedEnd(cs);
      assert text == Rooted(cs) && |text| > 1 && text[|text| - 1] != '/';
      assert text[1..] != "" && "*"[0] == '*' && text[0] == '/';
      assert StripSlashes(text) == text;
    }
  }

  /** The string test means: one path is the other or lies under it, by whole
      components; '*' overlaps everything. */
  lemma OverlapIsSubtree(p: string, q: string)
    ensures PathsOverlap(NormalizeLockPath(p), NormalizeLockPath(q)) <==>
            p == "*" || q == "*" || Components(p) <= Components(q) || Components(q) <= Components(p)
  {
    if p != "*" && q != "*" {
      NormalForm(p);
      NormalForm(q);
      var x, y := Components(p), Components(q);
      if x != [] && y != [] {
        RootedPrefix(x, y);
        RootedPrefix(y, x);
        ProperWholePrefix(Rooted(x), Rooted(y));
        ProperWholePrefix(Rooted(y), Rooted(x));
      }
    }
  }

  lemma ProperWholePrefix(x: string, y: string)
    ensures WholePrefix(x, y) <==> x == y || x + "/" <= y
  {
    if x < y { assert y[..|x| + 1] == x + [y[|x|]]; }
  }

  predicate Conflicts(a: Request, b: Request) {
    && !(a.mode.Read? && b.mode.Read?)
    && exists i, j | 0 <= i < |a.paths| && 0 <= j < |b.paths| :: PathsOverlap(a.paths[i], b.paths[j])
  }

  lemma ConflictsSymmetric(a: Request, b: Request)
    ensures Conflicts(a, b) <==> Conflicts(b, a)
  {
    if Conflicts(a, b) {
      var i, j :| 0 <= i < |a.paths| && 0 <= j < |b.paths| && PathsOverlap(a.paths[i], b.paths[j]);
      assert PathsOverlap(b.paths[j], a.paths[i]);
    }
    if Conflicts(b, a) {
      var i, j :| 0 <= i < |b.paths| && 0 <= j < |a.paths| && PathsOverlap(b.paths[i], a.paths[j]);
      assert PathsOverlap(a.paths[j], b.paths[i]);
    }
  }

  // --- The coordinator's state ----------------------------------------------------

  /** `arrived` and `released` record the history; the code keeps only the two lists. */
  datatype State = State(active: seq<Request>, waiters: seq<Request>, arrived: seq<Request>, released: set<nat>)

  predicate ConflictsAny(r: Request, s: seq<Request>) { exists x | x in s :: Conflicts(r, x) }

  /** One pass over the waiters, oldest first. */
  function Pass(active: seq<Request>, kept: seq<Request>, rest: seq<Request>): (seq<Request>, seq<Request>)
    decreases |rest|
  {
    if rest == [] then (active, kept)
    else if ConflictsAny(rest[0], active) || ConflictsAny(rest[0], kept)
    then Pass(active, kept + [rest[0]], rest[1..])
    else Pass(active + [rest[0]], kept, rest[1..])
  }

  function Drain(s: State): State {
    var (active, waiters) := Pass(s.active, [], s.waiters);
    s.(active := active, waiters := waiters)
  }

  function NormalizeAll(paths: seq<string>): (r: seq<string>)
    ensures |r| == |paths| && forall i | 0 <= i < |r| :: r[i] == NormalizeLockPath(paths[i])
  {
    if paths == [] then [] else [NormalizeLockPath(paths[0])] + NormalizeAll(paths[1..])
  }

  function Joined(s: State, r: Request): State {
    s.(waiters := s.waiters + [r], arrived := s.arrived + [r])
  }

  function Acquire(s: State, mode: Mode, paths: seq<string>): State {
    var r := Request(|s.arrived|, mode, NormalizeAll(paths));
    Drain(Joined(s, r))
  }

  /** `s` without its first entry for request `id`. */
  function Without(s: seq<Request>, id: nat): seq<Request> {
    if s == [] then [] else if s[0].id == id then s[1..] else [s[0]] + Without(s[1..], id)
  }

  predicate Granted(s: State, id: nat) { id in s.released || exists r | r in s.active :: r.id == id }

  /** Calling the function a granted request was resolved with. */
  function Release(s: State, id: nat): State {
    if id in s.released || !Granted(s, id) then s
    else Drain(s.(active := Without(s.active, id), released := s.released + {id}))
  }

  datatype Op = Arrive(mode: Mode, paths: seq<string>) | Leave(id: nat)

  function Step(s: State, op: Op): State {
    match op
    case Arrive(mode, paths) => Acquire(s, mode, paths)
    case Leave(id) => Release(s, id)
  }

  function Run(s: State, ops: seq<Op>): State
    decreases |ops|
  {
    if ops == [] then s else Run(Step(s, ops[0]), ops[1..])
  }

  const EMPTY := State([], [], [], {})

  // --- The specification: arrival order alone decides ---------------------------------

  ghost predicate Arrived(s: State, r: Request) { r.id < |s.arrived| && s.arrived[r.id] == r }

  /** Arrived and not yet released. */
  ghost predicate Outstanding(s: State, r: Request) { Arrived(s, r) && r.id !in s.released }

  /** No outstanding earlier request conflicts with `r`. */
  ghost predicate Clear(s: State, r: Request) {
    forall e | Outstanding(s, e) && e.id < r.id :: !Conflicts(e, r)
  }

  predicate Increasing(s: seq<Request>) { forall i, j | 0 <= i < j < |s| :: s[i].id < s[j].id }

  predicate Distinct(s: seq<Request>) { forall i, j | 0 <= i < j < |s| :: s[i].id != s[j].id }

  /** The two lists are exactly the outstanding requests, split by Clear. */
  ghost predicate Fair(s: State) {
    && Distinct(s.active) && Increasing(s.waiters)
    && (forall i | 0 <= i < |s.arrived| :: s.arrived[i].id == i)
    && (forall r :: r in s.active <==> Outstanding(s, r) && Clear(s, r))
    && (forall r :: r in s.waiters <==> Outstanding(s, r) && !Clear(s, r))
    && (forall id | id in s.released :: id < |s.arrived|)
  }

  /** A pass half done: `kept` has been looked at, `rest` has not. */
  ghost predicate Passing(s: State, active: seq<Request>, kept: seq<Request>, rest: seq<Request>) {
    && Distinct(active) && Increasing(kept + rest)
    && (forall i | 0 <= i < |s.arrived| :: s.arrived[i].id == i)
    && (forall r | r in active :: Outstanding(s, r) && Clear(s, r) && r !in rest)
    && (forall r | r in kept :: Outstanding(s, r) && !Clear(s, r))
    && (forall r | r in rest :: Outstanding(s, r))
    && (forall r | Outstanding(s, r) :: r in active || r in kept || r in rest)
  }

  lemma PassStep(s: State, active: seq<Request>, kept: seq<Request>, rest: seq<Request>)
    requires Passing(s, active, kept, rest) && rest != []
    ensures ConflictsAny(rest[0], active) || ConflictsAny(rest[0], kept) <==> !Clear(s, rest[0])
  {
    var w := rest[0];
    forall x: Request ensures Conflicts(w, x) <==> Conflicts(x, w) { ConflictsSymmetric(w, x); }
    assert (kept + rest)[|kept|] == w;
    forall r | r in kept ensures r.id < w.id {
      var i :| 0 <= i < |kept| && kept[i] == r;
      assert (kept + rest)[i] == r;
    }
    forall r | r in rest ensures r.id >= w.id {
      var i :| 0 <= i < |rest| && rest[i] == r;
      assert (kept + rest)[|kept| + i] == r;
    }
    assert w in rest;
  }

  lemma {:induction false} PassIsFair(s: State, active: seq<Request>, kept: seq<Request>, rest: seq<Request>)
    requires Passing(s, active, kept, rest) && forall id | id in s.released :: id < |s.arrived|
    ensures var (a, w) := Pass(active, kept, rest); Fair(s.(active := a, waiters := w))
    decreases |rest|
  {
    if rest == [] {
      assert kept + rest == kept;
      var t := s.(active := active, waiters := kept);
      forall r ensures Outstanding(t, r) == Outstanding(s, r) && Clear(t, r) == Clear(s, r) { }
    } else {
      PassStep(s, active, kept, rest);
      PassAdvance(s, active, kept, rest);
      assert kept + rest == (kept + [rest[0]]) + rest[1..];
      if Clear(s, rest[0]) {
        PassIsFair(s, active + [rest[0]], kept, rest[1..]);
      } else {
        PassIsFair(s, active, kept + [rest[0]], rest[1..]);
      }
    }
  }

  lemma PassAdvance(s: State, active: seq<Request>, kept: seq<Request>, rest: seq<Request>)
    requires Passing(s, active, kept, rest) && rest != []
    ensures Clear(s, rest[0]) ==> Passing(s, active + [rest[0]], kept, rest[1..])
    ensures !Clear(s, rest[0]) ==> Passing(s, active, kept + [rest[0]], rest[1..])
  {
    var w, all := rest[0], kept + rest;
    assert w in rest;
    forall r | r in rest[1..] ensures r in rest && r.id > w.id {
      var i :| 0 <= i < |rest[1..]| && rest[1..][i] == r;
      assert all[|kept|] == w && all[|kept| + i + 1] == r;
    }
    assert all == (kept + [w]) + rest[1..];
    forall i, j | 0 <= i < j < |kept + rest[1..]| ensures (kept + rest[1..])[i].id < (kept + rest[1..])[j].id {
      assert (kept + rest[1..])[i] == all[if i < |kept| then i else i + 1];
      assert (kept + rest[1..])[j] == all[if j < |kept| then j else j + 1];
    }
    forall i | 0 <= i < |active| ensures active[i].id != w.id { assert active[i] in active; }
    forall r | r in rest ensures r == w || r in rest[1..] {
      var i :| 0 <= i < |rest| && rest[i] == r;
      if i > 0 { assert rest[1..][i - 1] == r; }
    }
  }

  // --- Every step keeps it -------------------------------------------------------------

  lemma JoinedOutstanding(s: State, r: Request)
    requires Fair(s) && r.id == |s.arrived|
    ensures forall x :: Outstanding(Joined(s, r), x) <==> Outstanding(s, x) || x == r
    ensures forall x | Outstanding(s, x) :: Clear(Joined(s, r), x) == Clear(s, x)
  {
    assert Joined(s, r).arrived[r.id] == r;
  }

  lemma JoinedIncreasing(s: State, r: Request)
    requires Fair(s) && r.id == |s.arrived|
    ensures Increasing([] + Joined(s, r).waiters)
  {
    assert [] + Joined(s, r).waiters == s.waiters + [r];
    assert forall x | x in s.waiters :: Outstanding(s, x) && Arrived(s, x);
    IncreasingSnoc(s.waiters, r);
  }

  lemma IncreasingSnoc(s: seq<Request>, r: Request)
    requires Increasing(s) && forall x | x in s :: x.id < r.id
    ensures Increasing(s + [r])
  {
    forall i | 0 <= i < |s| ensures s[i].id < r.id { assert s[i] in s; }
  }

  lemma AcquireFair(s: State, mode: Mode, paths: seq<string>)
    requires Fair(s)
    ensures Fair(Acquire(s, mode, paths))
  {
    var r := Request(|s.arrived|, mode, NormalizeAll(paths));
    var t := Joined(s, r);
    JoinedOutstanding(s, r);
    JoinedIncreasing(s, r);
    forall x ensures x in t.waiters <==> x in s.waiters || x == r { }
    PassIsFair(t, t.active, [], t.waiters);
  }

  lemma {:induction false} WithoutRemoves(s: seq<Request>, id: nat)
    requires Distinct(s)
    ensures Distinct(Without(s, id))
    ensures forall r :: r in Without(s, id) <==> r in s && r.id != id
  {
    if s != [] {
      DistinctTail(s);
      WithoutRemoves(s[1..], id);
      if s[0].id != id { DistinctCons(s[0], Without(s[1..], id)); }
    }
  }

  lemma DistinctTail(s: seq<Request>)
    requires Distinct(s) && s != []
    ensures Distinct(s[1..])
    ensures forall r :: r in s <==> r == s[0] || r in s[1..]
    ensures forall r | r in s[1..] :: r.id != s[0].id
  {
    assert s == [s[0]] + s[1..];
    forall r | r in s[1..] ensures r.id != s[0].id {
      var i :| 0 <= i < |s[1..]| && s[1..][i] == r;
      assert s[i + 1] == r;
    }
  }

  lemma DistinctCons(x: Request, rest: seq<Request>)
    requires Distinct(rest) && forall r | r in rest :: r.id != x.id
    ensures Distinct([x] + rest) && forall r :: r in [x] + rest <==> r == x || r in rest
  {
    forall i, j | 0 <= i < j < |[x] + rest| ensures ([x] + rest)[i].id != ([x] + rest)[j].id {
      assert rest[j - 1] in rest;
    }
  }

  lemma ReleaseFair(s: State, id: nat)
    requires Fair(s)
    ensures Fair(Release(s, id))
  {
    if id !in s.released && Granted(s, id) {
      WithoutRemoves(s.active, id);
      var t := s.(active := Without(s.active, id), released := s.released + {id});
      forall x ensures Outstanding(t, x) <==> Outstanding(s, x) && x.id != id { }
      forall x | x in s.waiters ensures x.id != id {
        var r :| r in s.active && r.id == id;
        assert Arrived(s, x) && Arrived(s, r);
      }
      assert [] + t.waiters == t.waiters;
      PassIsFair(t, t.active, [], t.waiters);
    }
  }

  lemma StepFair(s: State, op: Op)
    requires Fair(s)
    ensures Fair(Step(s, op))
  {
    match op
    case Arrive(mode, paths) => AcquireFair(s, mode, paths);
    case Leave(id) => ReleaseFair(s, id);
  }

  lemma {:induction false} RunFair(s: State, ops: seq<Op>)
    requires Fair(s)
    ensures Fair(Run(s, ops))
    decreases |ops|
  {
    if ops != [] {
      StepFair(s, ops[0]);
      RunFair(Step(s, ops[0]), ops[1..]);
    }
  }

  /** After any calls whatever, a request is active exactly when no outstanding
      earlier one conflicts with it, and waits in arrival order otherwise. */
  lemma EveryRunIsFair(ops: seq<Op>)
    ensures Fair(Run(EMPTY, ops))
  {
    RunFair(EMPTY, ops);
  }

  // --- The history is what was called -----------------------------------------------------

  function Arrivals(ops: seq<Op>, first: nat): seq<Request> {
    if ops == [] then []
    else match ops[0]
         case Arrive(mode, paths) => [Request(first, mode, NormalizeAll(paths))] + Arrivals(ops[1..], first + 1)
         case Leave(_) => Arrivals(ops[1..], first)
  }

  lemma {:induction false} RunRecordsArrivals(s: State, ops: seq<Op>)
    ensures Run(s, ops).arrived == s.arrived + Arrivals(ops, |s.arrived|)
    ensures s.released <= Run(s, ops).released
    ensures forall id | id in Run(s, ops).released :: id in s.released || Leave(id) in ops
    decreases |ops|
  {
    if ops != [] {
      RunRecordsArrivals(Step(s, ops[0]), ops[1..]);
      assert ops[0] in ops && forall op | op in ops[1..] :: op in ops;
    }
  }

  // --- What callers rely on -----------------------------------------------------------------

  /** Mutual exclusion, and no overtaking of a conflicting earlier request. */
  lemma Safety(s: State)
    requires Fair(s)
    ensures forall a, b | a in s.active && b in s.active && a != b :: !Conflicts(a, b)
    ensures forall a, w | a in s.active && w in s.waiters && Conflicts(a, w) :: a.id < w.id
  {
    forall a, b ensures Conflicts(a, b) <==> Conflicts(b, a) { ConflictsSymmetric(a, b); }
    forall a, b | a in s.active && b in s.active && a != b ensures !Conflicts(a, b) {
      assert Outstanding(s, a) && Outstanding(s, b) && a.id != b.id;
    }
    forall a, w | a in s.active && w in s.waiters && Conflicts(a, w) ensures a.id < w.id {
      assert Outstanding(s, a) && Outstanding(s, w);
      assert a.id != w.id;
    }
  }

  /** Nobody waits for nothing, and somebody holds what the oldest waiter needs. */
  lemma Progress(s: State)
    requires Fair(s)
    ensures forall w | w in s.waiters ::
              exists e :: (e in s.active || e in s.waiters) && e.id < w.id && Conflicts(e, w)
    ensures s.waiters != [] ==> exists a :: a in s.active && a.id < s.waiters[0].id && Conflicts(a, s.waiters[0])
  {
    forall w | w in s.waiters
      ensures exists e :: (e in s.active || e in s.waiters) && e.id < w.id && Conflicts(e, w)
    {
      assert Outstanding(s, w) && !Clear(s, w);
      var e :| Outstanding(s, e) && e.id < w.id && Conflicts(e, w);
      assert e in s.active || e in s.waiters;
    }
    if s.waiters != [] {
      var w := s.waiters[0];
      var e :| (e in s.active || e in s.waiters) && e.id < w.id && Conflicts(e, w);
      assert e !in s.waiters;
    }
  }

  // --- In terms of the calls alone -----------------------------------------------------------

  /** The acquire calls, in the order in which they were made. */
  function Calls(ops: seq<Op>): seq<Op> {
    if ops == [] then [] else (if ops[0].Arrive? then [ops[0]] else []) + Calls(ops[1..])
  }

  lemma {:induction false} ArrivalsAreCalls(ops: seq<Op>, first: nat)
    ensures |Arrivals(ops, first)| == |Calls(ops)|
    ensures forall k | 0 <= k < |Calls(ops)| ::
              && Calls(ops)[k].Arrive? && Arrivals(ops, first)[k].id == first + k
              && Arrivals(ops, first)[k].mode == Calls(ops)[k].mode
              && Arrivals(ops, first)[k].paths == NormalizeAll(Calls(ops)[k].paths)
  {
    if ops != [] {
      match ops[0]
      case Arrive(_, _) => ArrivalsAreCalls(ops[1..], first + 1);
      case Leave(_) =>
        ArrivalsAreCalls(ops[1..], first);
        assert [] + Calls(ops[1..]) == Calls(ops[1..]);
    }
  }

  /** One of the two is everything, or one path is the other or lies below it. */
  ghost predicate Touch(p: string, q: string) {
    p == "*" || q == "*" || Components(p) <= Components(q) || Components(q) <= Components(p)
  }

  ghost predicate Meet(ps: seq<string>, qs: seq<string>) {
    exists i, j :: 0 <= i < |ps| && 0 <= j < |qs| && Touch(ps[i], qs[j])
  }

  /** Two calls exclude each other: one of them writes, and their paths meet. */
  lemma ConflictMeans(a: Request, b: Request, ps: seq<string>, qs: seq<string>)
    requires a.paths == NormalizeAll(ps) && b.paths == NormalizeAll(qs)
    ensures Conflicts(a, b) <==> (a.mode == Write || b.mode == Write) && Meet(ps, qs)
  {
    forall i, j | 0 <= i < |ps| && 0 <= j < |qs| ensures PathsOverlap(a.paths[i], b.paths[j]) <==> Touch(ps[i], qs[j]) {
      OverlapIsSubtree(ps[i], qs[j]);
    }
  }

  ghost predicate Holds(s: State, k: nat) { exists r :: r in s.active && r.id == k }

  ghost predicate Waits(s: State, k: nat) { exists r :: r in s.waiters && r.id == k }

  lemma Recorded(ops: seq<Op>)
    ensures var t, calls := Run(EMPTY, ops), Calls(ops);
            && |t.arrived| == |calls|
            && forall k | 0 <= k < |calls| ::
                 && calls[k].Arrive? && t.arrived[k].id == k && t.arrived[k].mode == calls[k].mode
                 && t.arrived[k].paths == NormalizeAll(calls[k].paths)
  {
    RunRecordsArrivals(EMPTY, ops);
    ArrivalsAreCalls(ops, 0);
    assert [] + Arrivals(ops, 0) == Arrivals(ops, 0);
  }

  /** After any calls whatever, no two that hold the lock at once meet if one of them
      writes. */
  lemma Exclusion(ops: seq<Op>, j: nat, k: nat)
    requires Holds(Run(EMPTY, ops), j) && Holds(Run(EMPTY, ops), k) && j != k
    ensures var calls := Calls(ops);
            && j < |calls| && k < |calls| && calls[j].Arrive? && calls[k].Arrive?
            && (calls[j].mode == Write || calls[k].mode == Write ==> !Meet(calls[j].paths, calls[k].paths))
  {
    var t, calls := Run(EMPTY, ops), Calls(ops);
    EveryRunIsFair(ops);
    Recorded(ops);
    Safety(t);
    var a :| a in t.active && a.id == j;
    var b :| b in t.active && b.id == k;
    assert Outstanding(t, a) && Outstanding(t, b);
    ConflictMeans(a, b, calls[j].paths, calls[k].paths);
  }

  /** And nobody waits otherwise: a call that has not been released holds the lock exactly
      when every earlier one that has not been released either reads as it does or does not
      meet it. */
  lemma HoldsExactly(ops: seq<Op>, k: nat)
    requires k < |Calls(ops)| && k !in Run(EMPTY, ops).released
    ensures var t, calls := Run(EMPTY, ops), Calls(ops);
            && (forall j | 0 <= j <= k :: calls[j].Arrive?)
            && (Holds(t, k) <==> forall j | 0 <= j < k && j !in t.released ::
                  (calls[j].mode == Read && calls[k].mode == Read) || !Meet(calls[j].paths, calls[k].paths))
            && (Waits(t, k) <==> !Holds(t, k))
  {
    var t, calls := Run(EMPTY, ops), Calls(ops);
    EveryRunIsFair(ops);
    Recorded(ops);
    var r := t.arrived[k];
    assert Outstanding(t, r);
    forall j | 0 <= j < k ensures Conflicts(t.arrived[j], r) <==>
        (calls[j].mode == Write || calls[k].mode == Write) && Meet(calls[j].paths, calls[k].paths)
    {
      ConflictMeans(t.arrived[j], r, calls[j].paths, calls[k].paths);
    }
    assert Clear(t, r) <==> forall j | 0 <= j < k && j !in t.released :: !Conflicts(t.arrived[j], r) by {
      forall j | 0 <= j < k && j !in t.released ensures Outstanding(t, t.arrived[j]) { }
    }
    assert Holds(t, k) <==> r in t.active;
    assert Waits(t, k) <==> r in t.waiters;
  }

  /** Only whoever holds the lock can release it, and then has released it. */
  lemma ReleasedExactly(s: State, id: nat)
    ensures Step(s, Leave(id)).released == s.released + if Holds(s, id) then {id} else {}
    ensures Step(s, Leave(id)).arrived == s.arrived
  {
  }

  /** Once granted, a request stays granted until its own release. */
  lemma {:induction false} GrantsLast(s: State, ops: seq<Op>, r: Request)
    requires Fair(s) && r in s.active
    ensures r in Run(s, ops).active || r.id in Run(s, ops).released
    ensures Leave(r.id) !in ops ==> r in Run(s, ops).active
  {
    RunFair(s, ops);
    RunRecordsArrivals(s, ops);
    var t := Run(s, ops);
    assert Outstanding(s, r) && Clear(s, r);
    assert Arrived(t, r);
    forall e | Outstanding(t, e) && e.id < r.id ensures !Conflicts(e, r) {
      assert Outstanding(s, e);
    }
  }

  /** Bounded waiting: whatever arrives later, a request is granted no later than the
      moment the earlier requests that conflict with it have been released. */
  lemma BoundedWaiting(s: State, ops: seq<Op>, w: Request)
    requires Fair(s) && w in s.waiters
    requires forall e | Arrived(s, e) && e.id < w.id && Conflicts(e, w) :: e.id in Run(s, ops).released
    ensures Granted(Run(s, ops), w.id)
  {
    RunFair(s, ops);
    RunRecordsArrivals(s, ops);
    var t := Run(s, ops);
    assert Arrived(t, w);
    forall e | Outstanding(t, e) && e.id < w.id ensures !Conflicts(e, w) {
      assert Arrived(s, e);
    }
    if w.id !in t.released { assert w in t.active; }
  }

  /** A second release, at any later moment, does nothing. */
  lemma ReleaseTwice(s: State, id: nat, ops: seq<Op>)
    requires Granted(s, id)
    ensures Step(Run(Step(s, Leave(id)), ops), Leave(id)) == Run(Step(s, Leave(id)), ops)
  {
    RunRecordsArrivals(Step(s, Leave(id)), ops);
  }

  // --- The coordinator -------------------------------------------------------------------------

  class VolumeAccessCoordinator {
    var active: seq<Request>
    var waiters: seq<Request>
    /** The flags the release functions close over. */
    var released: set<nat>
    ghost var arrived: seq<Request>
    var nextId: nat

    ghost function View(): State
      reads this
    {
      State(active, waiters, arrived, released)
    }

    ghost predicate Valid()
      reads this
    {
      nextId == |arrived|
    }

    constructor ()
      ensures Valid() && View() == EMPTY
    {
      active, waiters, released, arrived, nextId := [], [], {}, [], 0;
    }

    method Acquire(mode: Mode, paths: seq<string>) returns (id: nat)
      requires Valid()
      modifies this
      ensures Valid() && id == |old(arrived)|
      ensures View() == Step(old(View()), Arrive(mode, paths))
    {
      id := nextId;
      var r := Request(id, mode, NormalizeAll(paths));
      waiters := waiters + [r];
      arrived := arrived + [r];
      nextId := nextId + 1;
      DrainWaiters();
    }

    method ReleaseOnce(id: nat)
      requires Valid()
      modifies this`active, this`waiters, this`released
      ensures Valid() && View() == Step(old(View()), Leave(id))
    {
      if id in released || !(exists r | r in active :: r.id == id) { return; }
      released := released + {id};
      active := Without(active, id);
      DrainWaiters();
    }

    /** Restarts from the oldest waiter after every grant. */
    method DrainWaiters()
      modifies this`active, this`waiters
      ensures View() == Drain(old(View()))
    {
      var index := 0;
      ghost var goal := Pass(active, [], waiters);
      while index < |waiters|
        invariant 0 <= index <= |waiters|
        invariant AllBlocked(active, waiters[..index])
        invariant Pass(active, [], waiters) == goal
        decreases |waiters|, |waiters| - index
      {
        var waiter := waiters[index];
        if ConflictsAny(waiter, active) || ConflictsAny(waiter, waiters[..index]) {
          BlockedSnoc(active, waiters[..index], waiter);
          index := index + 1;
          assert waiters[..index] == waiters[..index - 1] + [waiter];
        } else {
          GrantStep(active, waiters, index);
          waiters := waiters[..index] + waiters[index + 1..];
          active := active + [waiter];
          index := 0;
          assert waiters[..0] == [];
        }
      }
      assert waiters[..|waiters|] == waiters;
      PassKeepsAll(active, waiters);
    }
  }

  predicate AllBlocked(active: seq<Request>, kept: seq<Request>) {
    forall i | 0 <= i < |kept| :: ConflictsAny(kept[i], active) || ConflictsAny(kept[i], kept[..i])
  }

  lemma BlockedSnoc(active: seq<Request>, kept: seq<Request>, r: Request)
    requires AllBlocked(active, kept) && (ConflictsAny(r, active) || ConflictsAny(r, kept))
    ensures AllBlocked(active, kept + [r])
  {
    forall i | 0 <= i < |kept + [r]|
      ensures ConflictsAny((kept + [r])[i], active) || ConflictsAny((kept + [r])[i], (kept + [r])[..i])
    {
      assert (kept + [r])[..i] == kept[..i];
      assert kept[..|kept|] == kept;
    }
  }

  /** A pass skips the waiters already found blocked. */
  lemma {:induction false} PassFromStart(active: seq<Request>, all: seq<Request>, n: nat)
    requires n <= |all| && AllBlocked(active, all[..n])
    ensures Pass(active, [], all) == Pass(active, all[..n], all[n..])
  {
    if n == 0 {
      assert all[..0] == [] && all[0..] == all;
    } else {
      var kept := all[..n - 1];
      forall i | 0 <= i < |kept| ensures ConflictsAny(kept[i], active) || ConflictsAny(kept[i], kept[..i]) {
        assert all[..n][i] == kept[i] && all[..n][..i] == kept[..i];
      }
      PassFromStart(active, all, n - 1);
      assert all[..n][n - 1] == all[n - 1] && all[..n][..n - 1] == all[..n - 1];
      assert all[..n - 1] + [all[n - 1]] == all[..n] && all[n - 1..][1..] == all[n..];
    }
  }

  lemma PassKeepsAll(active: seq<Request>, all: seq<Request>)
    requires AllBlocked(active, all)
    ensures Pass(active, [], all) == (active, all)
  {
    assert all[..|all|] == all && all[|all|..] == [];
    PassFromStart(active, all, |all|);
    assert Pass(active, all, []) == (active, all);
  }

  /** Granting one waiter and starting over gives what going on would have given. */
  lemma GrantStep(active: seq<Request>, all: seq<Request>, n: nat)
    requires n < |all| && AllBlocked(active, all[..n])
    requires !ConflictsAny(all[n], active) && !ConflictsAny(all[n], all[..n])
    ensures Pass(active + [all[n]], [], all[..n] + all[n + 1..]) == Pass(active, [], all)
  {
    PassFromStart(active, all, n);
    assert all[n..][0] == all[n] && all[n..][1..] == all[n + 1..];
    var left, wider := all[..n] + all[n + 1..], active + [all[n]];
    assert left[..n] == all[..n] && left[n..] == all[n + 1..];
    forall i | 0 <= i < n
      ensures ConflictsAny(left[..n][i], wider) || ConflictsAny(left[..n][i], left[..n][..i])
    {
      assert ConflictsAny(all[..n][i], active) || ConflictsAny(all[..n][i], all[..n][..i]);
      assert forall x | x in active :: x in wider;
    }
    PassFromStart(wider, left, n);
  }
}
