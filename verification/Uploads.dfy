/** The resumable upload of one target path: sessions, their hidden temp files, and the
    requests that interleave between their awaits. Every append carries the source's
    own bytes at its offset. */
module Uploads {
  import opened Wrappers

  type Byte = b: int | 0 <= b < 256
  type Bytes = seq<Byte>

  /** The fs_upload row; `temp` is the temp path, fresh for each session. */
  datatype Row = Row(temp: nat, offset: nat)

  /** What a request asked for; `lock` is the temp path it saw on arrival. */
  datatype Ask = AppendAsk(lock: nat, offset: nat, length: nat) | CompleteAsk(lock: nat)
    | AbortAsk(lock: nat) | BeginAsk

  /** A request and where it stands: waiting for its locks, holding them but not gone
      on yet, or between two later awaits. Appends lock their temp path, begins the
      target, completes and aborts both. */
  datatype Request =
    | Waiting(ask: Ask)
    | Held(ask: Ask)
    | AppendWriting(lock: nat, temp: nat, at: nat, length: nat)
    | AppendWrote(lock: nat, temp: nat, at: nat, length: nat)
    | CompleteVerifying(lock: nat, temp: nat)
    | CompletePublishing(lock: nat, temp: nat)
    | AbortRemoving(lock: nat)
    | BeginCreating

  datatype State = State(row: Option<Row>, files: map<nat, Bytes>, nextTemp: nat,
                         target: Option<Bytes>, requests: map<nat, Request>)

  const EMPTY := State(None, map[], 0, None, map[])

  datatype Event =
    | Begin(id: nat)
    | Append(id: nat, offset: nat, length: nat)
    | Complete(id: nat)
    | Abort(id: nat)
    | Go(id: nat)

  // --- Locks ------------------------------------------------------------------

  /** The temp path a request locks. */
  function LockOf(ask: Ask): Option<nat> { if ask.BeginAsk? then None else Some(ask.lock) }

  /** The lock on a temp path, when a request has it. */
  function TempOf(r: Request): Option<nat> {
    match r
    case Waiting(_) => None
    case Held(ask) => LockOf(ask)
    case BeginCreating => None
    case _ => Some(r.lock)
  }

  predicate HoldsTarget(r: Request) {
    match r
    case Waiting(_) => false
    case Held(ask) => !ask.AppendAsk?
    case AppendWriting(_, _, _, _) => false
    case AppendWrote(_, _, _, _) => false
    case _ => true
  }

  /** No request holds what this one asks for. */
  predicate Grantable(s: State, ask: Ask) {
    forall x | x in s.requests ::
      && (LockOf(ask).Some? ==> TempOf(s.requests[x]) != LockOf(ask))
      && (!ask.AppendAsk? ==> !HoldsTarget(s.requests[x]))
  }

  // --- Steps ----------------------------------------------------------------------

  function PadTo(s: Bytes, n: nat): Bytes { if |s| >= n then s else s + seq(n - |s|, _ => 0) }

  function Pwrite(s: Bytes, at: nat, data: Bytes): Bytes {
    PadTo(s, at)[..at] + data + if at + |data| <= |s| then s[at + |data|..] else []
  }

  function Finish(s: State, id: nat): State { s.(requests := s.requests - {id}) }

  function Become(s: State, id: nat, r: Request): State { s.(requests := s.requests[id := r]) }

  /** With its locks held a request reads the row again; on any mismatch it ends. An
      abort goes on with what it saw on arrival. */
  function GoOn(s: State, id: nat, ask: Ask, size: nat): State {
    match ask
    case AppendAsk(lock, offset, length) =>
      if s.row.None? || offset != s.row.value.offset || offset + length > size then Finish(s, id)
      else Become(s, id, AppendWriting(lock, s.row.value.temp, offset, length))
    case CompleteAsk(lock) =>
      if s.row.None? || s.row.value.offset != size then Finish(s, id)
      else Become(s, id, CompleteVerifying(lock, s.row.value.temp))
    case AbortAsk(lock) => Become(s, id, AbortRemoving(lock))
    case BeginAsk => if s.row.Some? then Finish(s, id) else Become(s, id, BeginCreating)
  }

  /** UPDATE fs_upload SET offset = ... WHERE path = ...: whatever session is there. */
  function SetOffset(s: State, offset: nat): State {
    if s.row.None? then s else s.(row := Some(s.row.value.(offset := offset)))
  }

  function Proceed(s: State, id: nat, r: Request, source: Bytes): State {
    match r
    case Waiting(ask) => if Grantable(s, ask) then Become(s, id, Held(ask)) else s
    case Held(ask) => GoOn(s, id, ask, |source|)
    case AppendWriting(lock, temp, at, length) =>
      if temp !in s.files || at + length > |source| then Finish(s, id)
      else Become(s.(files := s.files[temp := Pwrite(s.files[temp], at, source[at..at + length])]), id,
                  AppendWrote(lock, temp, at, length))
    case AppendWrote(_, _, at, length) => Finish(SetOffset(s, at + length), id)
    case CompleteVerifying(lock, temp) =>
      if temp !in s.files || s.files[temp] != source then Finish(s, id)
      else Become(s, id, CompletePublishing(lock, temp))
    case CompletePublishing(_, temp) =>
      if temp !in s.files then Finish(s, id)
      else Finish(s.(target := Some(s.files[temp]), files := s.files - {temp}, row := None), id)
    case AbortRemoving(lock) => Finish(s.(files := s.files - {lock}, row := None), id)
    case BeginCreating =>
      Finish(s.(row := Some(Row(s.nextTemp, 0)), files := s.files[s.nextTemp := []], nextTemp := s.nextTemp + 1), id)
  }

  /** A request that finds no session is answered at once; one that must wait for a
      lock does nothing yet. */
  function Step(s: State, e: Event, source: Bytes): State {
    match e
    case Begin(id) => if id in s.requests then s else Become(s, id, Waiting(BeginAsk))
    case Append(id, offset, length) =>
      if id in s.requests || s.row.None? || length == 0 then s
      else Become(s, id, Waiting(AppendAsk(s.row.value.temp, offset, length)))
    case Complete(id) =>
      if id in s.requests || s.row.None? then s else Become(s, id, Waiting(CompleteAsk(s.row.value.temp)))
    case Abort(id) =>
      if id in s.requests || s.row.None? then s else Become(s, id, Waiting(AbortAsk(s.row.value.temp)))
    case Go(id) => if id !in s.requests then s else Proceed(s, id, s.requests[id], source)
  }

  function Run(s: State, es: seq<Event>, source: Bytes): State
    decreases |es|
  {
    if es == [] then s else Run(Step(s, es[0], source), es[1..], source)
  }

  // --- What must hold ------------------------------------------------------------------

  /** The session's temp file starts with the source up to the offset. */
  ghost predicate Faithful(s: State, source: Bytes) {
    s.row.Some? ==>
      && s.row.value.temp in s.files && s.row.value.offset <= |source|
      && s.row.value.offset <= |s.files[s.row.value.temp]|
      && s.files[s.row.value.temp][..s.row.value.offset] == source[..s.row.value.offset]
  }

  /** A temp file never holds anything but a prefix of the source. */
  ghost predicate Prefixes(files: map<nat, Bytes>, source: Bytes) {
    forall t | t in files :: files[t] <= source
  }

  // --- Exactly when it holds ---------------------------------------------------------------

  /** An append is about to record its offset in a session other than the one it wrote
      to, whose temp file is shorter. */
  predicate Overtaken(s: State, e: Event) {
    && e.Go? && e.id in s.requests && s.requests[e.id].AppendWrote?
    && s.row.Some? && s.row.value.temp != s.requests[e.id].temp && s.row.value.temp in s.files
    && s.requests[e.id].at + s.requests[e.id].length > |s.files[s.row.value.temp]|
  }

  /** What a request that has read the row relies on. */
  ghost predicate Prepared(files: map<nat, Bytes>, nextTemp: nat, r: Request, source: Bytes) {
    match r
    case AppendWriting(_, temp, at, length) => temp < nextTemp && (temp in files ==> at <= |files[temp]|)
    case AppendWrote(_, temp, at, length) => temp < nextTemp && (temp in files ==> at + length <= |files[temp]|)
    case CompletePublishing(_, temp) => temp < nextTemp && (temp in files ==> files[temp] == source)
    case _ => true
  }

  /** Whatever interleaves, files hold prefixes of the source and what is published is
      the source. */
  ghost predicate Sane(s: State, source: Bytes) {
    && Prefixes(s.files, source)
    && (forall t | t in s.files :: t < s.nextTemp)
    && (s.row.Some? ==> s.row.value.temp < s.nextTemp)
    && (forall x | x in s.requests :: Prepared(s.files, s.nextTemp, s.requests[x], source))
    && (s.target.Some? ==> s.target.value == source)
  }

  lemma PwriteSource(f: Bytes, at: nat, length: nat, source: Bytes)
    requires f <= source && at <= |f| && at + length <= |source|
    ensures var g := Pwrite(f, at, source[at..at + length]);
            g <= source && |g| >= at + length && |g| >= |f|
  {
    var g := Pwrite(f, at, source[at..at + length]);
    forall i | 0 <= i < |g| ensures g[i] == source[i] { }
  }

  lemma PrefixAgrees(f: Bytes, source: Bytes, n: nat)
    requires f <= source && n <= |f|
    ensures f[..n] == source[..n]
  {
    assert source[..|f|][..n] == source[..n];
  }

  /** Files only grow, or go together with the row that names them. */
  lemma WriteSane(s: State, id: nat, source: Bytes)
    requires Sane(s, source) && Faithful(s, source) && id in s.requests && s.requests[id].AppendWriting?
    ensures Sane(Proceed(s, id, s.requests[id], source), source)
    ensures Faithful(Proceed(s, id, s.requests[id], source), source)
  {
    var r := s.requests[id];
    if r.temp in s.files && r.at + r.length <= |source| {
      PwriteSource(s.files[r.temp], r.at, r.length, source);
      WrittenSane(s, id, Pwrite(s.files[r.temp], r.at, source[r.at..r.at + r.length]), source);
    }
  }

  lemma WrittenSane(s: State, id: nat, g: Bytes, source: Bytes)
    requires Sane(s, source) && Faithful(s, source) && id in s.requests && s.requests[id].AppendWriting?
    requires var r := s.requests[id];
             r.temp in s.files && g <= source && |g| >= |s.files[r.temp]| && |g| >= r.at + r.length
    ensures var r := s.requests[id];
            var t := Become(s.(files := s.files[r.temp := g]), id, AppendWrote(r.lock, r.temp, r.at, r.length));
            Sane(t, source) && Faithful(t, source)
  {
    var r := s.requests[id];
    FileGrown(s, r.temp, g, source);
    if s.row.Some? && s.row.value.temp == r.temp { PrefixAgrees(g, source, s.row.value.offset); }
  }

  lemma FileGrown(s: State, temp: nat, g: Bytes, source: Bytes)
    requires Sane(s, source) && temp in s.files && g <= source && |g| >= |s.files[temp]|
    ensures Prefixes(s.files[temp := g], source)
    ensures forall x | x in s.requests :: Prepared(s.files[temp := g], s.nextTemp, s.requests[x], source)
  {
    forall x | x in s.requests ensures Prepared(s.files[temp := g], s.nextTemp, s.requests[x], source) {
      assert Prepared(s.files, s.nextTemp, s.requests[x], source);
    }
  }

  /** Recording the offset keeps the session faithful exactly when its own temp file
      has that many bytes. */
  lemma RecordExactly(s: State, id: nat, source: Bytes)
    requires Sane(s, source) && Faithful(s, source) && id in s.requests && s.requests[id].AppendWrote?
    ensures Sane(Proceed(s, id, s.requests[id], source), source)
    ensures Faithful(Proceed(s, id, s.requests[id], source), source) <==> !Overtaken(s, Go(id))
  {
    var r := s.requests[id];
    if s.row.Some? {
      var f := s.files[s.row.value.temp];
      if r.at + r.length <= |f| { PrefixAgrees(f, source, r.at + r.length); }
    }
  }

  lemma ProceedExactly(s: State, id: nat, source: Bytes)
    requires Sane(s, source) && Faithful(s, source) && id in s.requests
    ensures Sane(Proceed(s, id, s.requests[id], source), source)
    ensures Faithful(Proceed(s, id, s.requests[id], source), source) <==> !Overtaken(s, Go(id))
  {
    match s.requests[id]
    case Waiting(_) =>
    case Held(_) =>
    case AppendWriting(_, _, _, _) => WriteSane(s, id, source);
    case AppendWrote(_, _, _, _) => RecordExactly(s, id, source);
    case BeginCreating => CreateSane(s, id, source);
    case _ => RemoveSane(s, id, source);
  }

  lemma CreateSane(s: State, id: nat, source: Bytes)
    requires Sane(s, source) && id in s.requests && s.requests[id].BeginCreating?
    ensures Sane(Proceed(s, id, s.requests[id], source), source)
    ensures Faithful(Proceed(s, id, s.requests[id], source), source)
  {
    var files := s.files[s.nextTemp := []];
    forall x | x in s.requests ensures Prepared(files, s.nextTemp + 1, s.requests[x], source) {
      assert Prepared(s.files, s.nextTemp, s.requests[x], source);
    }
  }

  lemma RemoveSane(s: State, id: nat, source: Bytes)
    requires Sane(s, source) && Faithful(s, source) && id in s.requests
    requires var r := s.requests[id]; r.CompleteVerifying? || r.CompletePublishing? || r.AbortRemoving?
    ensures Sane(Proceed(s, id, s.requests[id], source), source)
    ensures Faithful(Proceed(s, id, s.requests[id], source), source)
  {
    var s' := Proceed(s, id, s.requests[id], source);
    assert Prepared(s.files, s.nextTemp, s.requests[id], source);
    forall x | x in s'.requests ensures Prepared(s'.files, s'.nextTemp, s'.requests[x], source) {
      assert Prepared(s.files, s.nextTemp, s.requests[x], source);
    }
  }

  /** In any state that interleaving can reach, a step keeps the session faithful
      exactly when it is not an overtaken append. */
  lemma StepExactly(s: State, e: Event, source: Bytes)
    requires Sane(s, source) && Faithful(s, source)
    ensures Sane(Step(s, e, source), source)
    ensures Faithful(Step(s, e, source), source) <==> !Overtaken(s, e)
  {
    if e.Go? && e.id in s.requests { ProceedExactly(s, e.id, source); }
  }

  ghost predicate AlwaysFaithful(s: State, es: seq<Event>, source: Bytes)
    decreases |es|
  {
    Faithful(s, source) && (es == [] || AlwaysFaithful(Step(s, es[0], source), es[1..], source))
  }

  ghost predicate NeverOvertaken(s: State, es: seq<Event>, source: Bytes)
    decreases |es|
  {
    es == [] || (!Overtaken(s, es[0]) && NeverOvertaken(Step(s, es[0], source), es[1..], source))
  }

  /** Over every interleaving of begins, appends, completes and aborts, the temp file
      agrees with the source up to the offset throughout exactly when no append is
      overtaken. */
  lemma {:induction false} FaithfulExactly(s: State, es: seq<Event>, source: Bytes)
    requires Sane(s, source) && Faithful(s, source)
    ensures AlwaysFaithful(s, es, source) <==> NeverOvertaken(s, es, source)
    ensures NeverOvertaken(s, es, source) ==> Sane(Run(s, es, source), source)
    decreases |es|
  {
    if es != [] {
      StepExactly(s, es[0], source);
      if !Overtaken(s, es[0]) { FaithfulExactly(Step(s, es[0], source), es[1..], source); }
    }
  }

  // --- Locks that are not stale are enough -----------------------------------------------------

  /** The request is about to go on under locks that are not those of the session it
      finds: the temp path it saw on arrival is no longer the row's. */
  predicate Stale(s: State, e: Event, size: nat) {
    && e.Go? && e.id in s.requests && s.requests[e.id].Held? && !s.requests[e.id].ask.BeginAsk?
    && s.row.Some? && s.row.value.temp != s.requests[e.id].ask.lock
    && e.id in GoOn(s, e.id, s.requests[e.id].ask, size).requests
  }

  ghost predicate NeverStale(s: State, es: seq<Event>, source: Bytes)
    decreases |es|
  {
    es == [] || (!Stale(s, es[0], |source|) && NeverStale(Step(s, es[0], source), es[1..], source))
  }

  /** What a request past its lock knows of the session. */
  ghost predicate Knows(row: Option<Row>, files: map<nat, Bytes>, r: Request, source: Bytes) {
    match r
    case AppendWriting(lock, temp, at, length) => temp == lock && row == Some(Row(temp, at)) && at + length <= |source|
    case AppendWrote(lock, temp, at, length) =>
      temp == lock && row == Some(Row(temp, at)) && temp in files && at + length <= |files[temp]|
    case CompleteVerifying(lock, temp) => temp == lock && row == Some(Row(temp, |source|))
    case CompletePublishing(lock, temp) => temp == lock && row == Some(Row(temp, |source|))
    case AbortRemoving(lock) => row.Some? ==> row.value.temp == lock
    case BeginCreating => row.None?
    case _ => true
  }

  /** No two requests hold the same temp path, or both the target. */
  ghost predicate Exclusive(requests: map<nat, Request>) {
    forall x, y | x in requests && y in requests && x != y ::
      && !(HoldsTarget(requests[x]) && HoldsTarget(requests[y]))
      && (TempOf(requests[x]).Some? ==> TempOf(requests[x]) != TempOf(requests[y]))
  }

  ghost predicate Orderly(s: State, source: Bytes) {
    && Sane(s, source) && Faithful(s, source) && Exclusive(s.requests)
    && (forall x | x in s.requests :: Knows(s.row, s.files, s.requests[x], source))
  }

  lemma FinishOrderly(s: State, s': State, id: nat, source: Bytes)
    requires Exclusive(s.requests) && s'.requests == s.requests - {id}
    requires forall x | x in s.requests && x != id :: Knows(s'.row, s'.files, s.requests[x], source)
    ensures Exclusive(s'.requests) && forall x | x in s'.requests :: Knows(s'.row, s'.files, s'.requests[x], source)
  {
  }

  lemma LocksKept(requests: map<nat, Request>, id: nat, r: Request)
    requires Exclusive(requests) && id in requests
    requires TempOf(r) == TempOf(requests[id]) && HoldsTarget(r) == HoldsTarget(requests[id])
    ensures Exclusive(requests[id := r])
  {
  }

  lemma GrantedOrderly(s: State, id: nat, source: Bytes)
    requires Orderly(s, source) && id in s.requests && s.requests[id].Waiting? && Grantable(s, s.requests[id].ask)
    ensures var s' := Proceed(s, id, s.requests[id], source);
            Exclusive(s'.requests) && forall x | x in s'.requests :: Knows(s'.row, s'.files, s'.requests[x], source)
  {
  }

  lemma HeldOrderly(s: State, id: nat, source: Bytes)
    requires Orderly(s, source) && id in s.requests && s.requests[id].Held? && !Stale(s, Go(id), |source|)
    ensures var s' := Proceed(s, id, s.requests[id], source);
            Exclusive(s'.requests) && forall x | x in s'.requests :: Knows(s'.row, s'.files, s'.requests[x], source)
  {
    var s' := Proceed(s, id, s.requests[id], source);
    if id !in s'.requests {
      FinishOrderly(s, s', id, source);
    } else {
      assert s'.row == s.row && s'.files == s.files;
      LocksKept(s.requests, id, s'.requests[id]);
      assert Knows(s.row, s.files, s'.requests[id], source);
    }
  }

  /** While one request holds the session's temp path or the target, no other can be
      between its lock and its end on that session. */
  lemma OthersKnow(s: State, id: nat, x: nat, source: Bytes)
    requires Orderly(s, source) && id in s.requests && x in s.requests && x != id
    requires !s.requests[id].Waiting? && !s.requests[id].Held?
    ensures var s' := Proceed(s, id, s.requests[id], source);
            Knows(s'.row, s'.files, s.requests[x], source)
  {
    var r, q := s.requests[id], s.requests[x];
    assert Knows(s.row, s.files, r, source) && Knows(s.row, s.files, q, source);
    assert TempOf(r).Some? ==> TempOf(r) != TempOf(q);
    assert !(HoldsTarget(r) && HoldsTarget(q));
  }

  lemma ProceedOrderly(s: State, id: nat, source: Bytes)
    requires Orderly(s, source) && id in s.requests && !s.requests[id].Waiting? && !s.requests[id].Held?
    ensures !Overtaken(s, Go(id))
    ensures var s' := Proceed(s, id, s.requests[id], source);
            Exclusive(s'.requests) && forall x | x in s'.requests :: Knows(s'.row, s'.files, s'.requests[x], source)
  {
    var r, s' := s.requests[id], Proceed(s, id, s.requests[id], source);
    assert Knows(s.row, s.files, r, source);
    forall x | x in s.requests && x != id ensures Knows(s'.row, s'.files, s.requests[x], source) {
      OthersKnow(s, id, x, source);
    }
    if id !in s'.requests {
      FinishOrderly(s, s', id, source);
    } else {
      OwnKnows(s, id, source);
      LocksKept(s.requests, id, s'.requests[id]);
    }
  }

  lemma OwnKnows(s: State, id: nat, source: Bytes)
    requires Orderly(s, source) && id in s.requests && !s.requests[id].Waiting? && !s.requests[id].Held?
    ensures var s' := Proceed(s, id, s.requests[id], source);
            id in s'.requests ==>
              && Knows(s'.row, s'.files, s'.requests[id], source) && s'.requests == s.requests[id := s'.requests[id]]
              && TempOf(s'.requests[id]) == TempOf(s.requests[id])
              && HoldsTarget(s'.requests[id]) == HoldsTarget(s.requests[id])
  {
    var r := s.requests[id];
    assert Knows(s.row, s.files, r, source);
    if r.AppendWriting? && r.temp in s.files && r.at + r.length <= |source| {
      PwriteSource(s.files[r.temp], r.at, r.length, source);
    }
  }

  lemma StepOrderly(s: State, e: Event, source: Bytes)
    requires Orderly(s, source) && !Stale(s, e, |source|)
    ensures Orderly(Step(s, e, source), source) && !Overtaken(s, e)
  {
    StepExactly(s, e, source);
    if e.Go? && e.id in s.requests {
      if s.requests[e.id].Waiting? {
        if Grantable(s, s.requests[e.id].ask) { GrantedOrderly(s, e.id, source); }
      } else if s.requests[e.id].Held? {
        HeldOrderly(s, e.id, source);
      } else {
        ProceedOrderly(s, e.id, source);
      }
    }
  }

  /** When every request that goes on still finds the session whose locks it waited
      for, the temp file agrees with the source throughout, and a complete publishes
      exactly the source. */
  lemma {:induction false} NotStaleIsEnough(s: State, es: seq<Event>, source: Bytes)
    requires Orderly(s, source) && NeverStale(s, es, source)
    ensures AlwaysFaithful(s, es, source) && Orderly(Run(s, es, source), source)
    decreases |es|
  {
    if es != [] {
      StepOrderly(s, es[0], source);
      NotStaleIsEnough(Step(s, es[0], source), es[1..], source);
    }
  }

  lemma FreshTargetOrderly(source: Bytes)
    ensures Orderly(EMPTY, source) && Verified(EMPTY, source)
  {
  }

  // --- What is published -------------------------------------------------------------------------

  /** Whatever interleaves, stale locks included: what a complete has verified stays
      so until it is published. */
  ghost predicate Verified(s: State, source: Bytes) {
    && (s.target.Some? ==> s.target.value == source)
    && (forall t | t in s.files :: t < s.nextTemp)
    && (forall x | x in s.requests && s.requests[x].CompletePublishing? ::
          var t := s.requests[x].temp; t < s.nextTemp && (t in s.files ==> s.files[t] == source))
  }

  lemma VerifiedStep(s: State, e: Event, source: Bytes)
    requires Verified(s, source)
    ensures Verified(Step(s, e, source), source)
  {
    if e.Go? && e.id in s.requests { VerifiedProceed(s, e.id, source); }
  }

  lemma VerifiedProceed(s: State, id: nat, source: Bytes)
    requires Verified(s, source) && id in s.requests
    ensures Verified(Proceed(s, id, s.requests[id], source), source)
  {
    var r := s.requests[id];
    if r.AppendWriting? && r.temp in s.files && s.files[r.temp] == source && r.at + r.length <= |source| {
      PwriteSource(source, r.at, r.length, source);
    }
  }

  /** A successful complete publishes exactly the source, over every interleaving. */
  lemma {:induction false} PublishedIsSource(s: State, es: seq<Event>, source: Bytes)
    requires Verified(s, source)
    ensures Verified(Run(s, es, source), source)
    decreases |es|
  {
    if es != [] {
      VerifiedStep(s, es[0], source);
      PublishedIsSource(Step(s, es[0], source), es[1..], source);
    }
  }

  // --- A run that goes wrong ---------------------------------------------------------------------

  /** The step grants a request its locks. */
  predicate Grants(s: State, e: Event) {
    e.Go? && e.id in s.requests && s.requests[e.id].Waiting? && Grantable(s, s.requests[e.id].ask)
  }

  /** Whoever is granted its locks goes on at once, as the coordinator has it. */
  ghost predicate Prompt(s: State, es: seq<Event>, source: Bytes)
    decreases |es|
  {
    es == [] || (Prompt(Step(s, es[0], source), es[1..], source) && (Grants(s, es[0]) ==> |es| > 1 && es[1] == es[0]))
  }

  /** Taking up `es` in `s` comes to taking up `es'` in `s'`. */
  ghost predicate Leads(s: State, es: seq<Event>, s': State, es': seq<Event>, source: Bytes) {
    && Run(s, es, source) == Run(s', es', source)
    && (Prompt(s', es', source) ==> Prompt(s, es, source))
  }

  lemma One(s: State, e: Event, es: seq<Event>, source: Bytes)
    requires Grants(s, e) ==> es != [] && es[0] == e
    ensures Leads(s, [e] + es, Step(s, e, source), es, source)
  {
    assert ([e] + es)[1..] == es;
  }

  function Gos(id: nat, n: nat, es: seq<Event>): seq<Event> { if n == 0 then es else [Go(id)] + Gos(id, n - 1, es) }

  lemma Unroll(id: nat, es: seq<Event>)
    ensures Gos(id, 1, es) == [Go(id)] + es
    ensures Gos(id, 2, es) == [Go(id)] + Gos(id, 1, es)
    ensures Gos(id, 3, es) == [Go(id)] + Gos(id, 2, es)
  {
    assert Gos(id, 0, es) == es;
  }

  /** A begin that meets no one. */
  lemma BeginAlone(s: State, id: nat, rest: seq<Event>, source: Bytes)
    requires id !in s.requests && s.row.None? && forall x | x in s.requests :: !HoldsTarget(s.requests[x])
    ensures Leads(s, [Begin(id)] + Gos(id, 3, rest),
                  s.(row := Some(Row(s.nextTemp, 0)), files := s.files[s.nextTemp := []], nextTemp := s.nextTemp + 1),
                  rest, source)
  {
    One(s, Begin(id), Gos(id, 3, rest), source);
    BeginGranted(s, Become(s, id, Waiting(BeginAsk)), id, rest, source);
  }

  lemma BeginGranted(s: State, t: State, id: nat, rest: seq<Event>, source: Bytes)
    requires id !in s.requests && s.row.None? && forall x | x in s.requests :: !HoldsTarget(s.requests[x])
    requires t == Become(s, id, Waiting(BeginAsk))
    ensures Leads(t, Gos(id, 3, rest),
                  s.(row := Some(Row(s.nextTemp, 0)), files := s.files[s.nextTemp := []], nextTemp := s.nextTemp + 1),
                  rest, source)
  {
    var u, v := Become(t, id, Held(BeginAsk)), Become(t, id, BeginCreating);
    Unroll(id, rest);
    One(t, Go(id), Gos(id, 2, rest), source);
    assert Step(t, Go(id), source) == u;
    One(u, Go(id), Gos(id, 1, rest), source);
    assert Step(u, Go(id), source) == v;
    One(v, Go(id), rest, source);
    assert v.requests - {id} == s.requests;
  }

  /** The first abort holds its locks, a begin and a second abort wait behind it; when it
      is done the second session is there, and the second abort goes on with the locks of
      the first. */
  lemma StaleAbort(s: State, rest: seq<Event>, source: Bytes)
    requires s == State(Some(Row(0, 0)), s.files, 1, None, map[]) && s.files == map[0 := []]
    ensures Leads(s, [Abort(1)] + Gos(1, 2, [Begin(2)] + ([Abort(3)] + Gos(1, 1, Gos(2, 3, Gos(3, 2, rest))))),
                  State(Some(Row(1, 0)), map[1 := []], 2, None, map[3 := AbortRemoving(0)]), rest, source)
  {
    var ask := AbortAsk(0);
    Unroll(1, [Begin(2)] + ([Abort(3)] + Gos(1, 1, Gos(2, 3, Gos(3, 2, rest)))));
    var after := [Begin(2)] + ([Abort(3)] + Gos(1, 1, Gos(2, 3, Gos(3, 2, rest))));
    var t := Become(s, 1, Waiting(ask));
    One(s, Abort(1), Gos(1, 2, after), source);
    var u := Become(t, 1, Held(ask));
    One(t, Go(1), Gos(1, 1, after), source);
    assert Step(t, Go(1), source) == u;
    var v := Become(u, 1, AbortRemoving(0));
    One(u, Go(1), after, source);
    assert v.requests == map[1 := AbortRemoving(0)];
    TwoWait(v, rest, source);
  }

  lemma TwoWait(s: State, rest: seq<Event>, source: Bytes)
    requires s == State(Some(Row(0, 0)), s.files, 1, None, s.requests)
    requires s.files == map[0 := []] && s.requests == map[1 := AbortRemoving(0)]
    ensures Leads(s, [Begin(2)] + ([Abort(3)] + Gos(1, 1, Gos(2, 3, Gos(3, 2, rest)))),
                  State(Some(Row(1, 0)), map[1 := []], 2, None, map[3 := AbortRemoving(0)]), rest, source)
  {
    var last := Gos(2, 3, Gos(3, 2, rest));
    Unroll(1, last);
    var t := Become(s, 2, Waiting(BeginAsk));
    One(s, Begin(2), [Abort(3)] + Gos(1, 1, last), source);
    var u := Become(t, 3, Waiting(AbortAsk(0)));
    One(t, Abort(3), Gos(1, 1, last), source);
    One(u, Go(1), last, source);
    var v := State(None, map[], 1, None, map[2 := Waiting(BeginAsk), 3 := Waiting(AbortAsk(0))]);
    assert u.requests - {1} == v.requests && u.files - {0} == v.files;
    assert Step(u, Go(1), source) == v;
    SecondBegins(v, rest, source);
  }

  lemma SecondBegins(s: State, rest: seq<Event>, source: Bytes)
    requires s == State(None, map[], 1, None, s.requests)
    requires s.requests == map[2 := Waiting(BeginAsk), 3 := Waiting(AbortAsk(0))]
    ensures Leads(s, Gos(2, 3, Gos(3, 2, rest)),
                  State(Some(Row(1, 0)), map[1 := []], 2, None, map[3 := AbortRemoving(0)]), rest, source)
  {
    var ask := AbortAsk(0);
    var before := State(None, map[], 1, None, map[3 := Waiting(ask)]);
    assert s == Become(before, 2, Waiting(BeginAsk));
    BeginGranted(before, s, 2, Gos(3, 2, rest), source);
    var t := State(Some(Row(1, 0)), map[1 := []], 2, None, map[3 := Waiting(ask)]);
    assert before.files[1 := []] == t.files;
    Unroll(3, rest);
    var u := Become(t, 3, Held(ask));
    One(t, Go(3), Gos(3, 1, rest), source);
    assert Step(t, Go(3), source) == u;
    One(u, Go(3), rest, source);
    assert Become(u, 3, AbortRemoving(0)).requests == map[3 := AbortRemoving(0)];
  }

  /** An append to the second session, under that session's lock, has written when the
      second abort ends it and a third session begins: it records its offset there. */
  lemma LateRecord(s: State, source: Bytes)
    requires |source| == 1
    requires s == State(Some(Row(1, 0)), map[1 := []], 2, None, map[3 := AbortRemoving(0)])
    ensures var es := [Append(4, 0, 1)] + Gos(4, 3, Gos(3, 1, [Begin(5)] + Gos(5, 3, Gos(4, 1, []))));
            !Faithful(Run(s, es, source), source) && Prompt(s, es, source)
  {
    var ask, last := AppendAsk(1, 0, 1), [Begin(5)] + Gos(5, 3, Gos(4, 1, []));
    Unroll(4, Gos(3, 1, last));
    var t := Become(s, 4, Waiting(ask));
    One(s, Append(4, 0, 1), Gos(4, 3, Gos(3, 1, last)), source);
    var u := Become(t, 4, Held(ask));
    One(t, Go(4), Gos(4, 2, Gos(3, 1, last)), source);
    assert Step(t, Go(4), source) == u;
    var v := Become(u, 4, AppendWriting(1, 1, 0, 1));
    One(u, Go(4), Gos(4, 1, Gos(3, 1, last)), source);
    assert Step(u, Go(4), source) == v;
    One(v, Go(4), Gos(3, 1, last), source);
    var w := Step(v, Go(4), source);
    assert w.requests == map[3 := AbortRemoving(0), 4 := AppendWrote(1, 1, 0, 1)];
    RecordsInThird(w, last, source);
  }

  lemma RecordsInThird(s: State, last: seq<Event>, source: Bytes)
    requires s.row == Some(Row(1, 0)) && s.files.Keys == {1} && s.nextTemp == 2
    requires s.requests == map[3 := AbortRemoving(0), 4 := AppendWrote(1, 1, 0, 1)]
    requires last == [Begin(5)] + Gos(5, 3, Gos(4, 1, []))
    ensures !Faithful(Run(s, Gos(3, 1, last), source), source) && Prompt(s, Gos(3, 1, last), source)
  {
    Unroll(3, last);
    Unroll(4, []);
    One(s, Go(3), last, source);
    var t := Step(s, Go(3), source);
    assert t.requests == map[4 := AppendWrote(1, 1, 0, 1)] && t.row == None && t.files.Keys == {1};
    BeginAlone(t, 5, Gos(4, 1, []), source);
    var u := t.(row := Some(Row(2, 0)), files := t.files[2 := []], nextTemp := 3);
    One(u, Go(4), [], source);
    assert Run(u, Gos(4, 1, []), source) == Step(u, Go(4), source);
  }

  /** So the agreement of temp file and offset can break, with every append carrying the
      source's own bytes, every append under the lock of its own session, and everyone who
      is granted a lock going on at once. */
  lemma StaleAbortDiverges(source: Bytes) returns (es: seq<Event>)
    requires |source| == 1
    ensures !Faithful(Run(EMPTY, es, source), source) && Prompt(EMPTY, es, source)
  {
    var late := [Append(4, 0, 1)] + Gos(4, 3, Gos(3, 1, [Begin(5)] + Gos(5, 3, Gos(4, 1, []))));
    var aborts := [Abort(1)] + Gos(1, 2, [Begin(2)] + ([Abort(3)] + Gos(1, 1, Gos(2, 3, Gos(3, 2, late)))));
    es := [Begin(0)] + Gos(0, 3, aborts);
    BeginAlone(EMPTY, 0, aborts, source);
    assert EMPTY.files[0 := []] == map[0 := []];
    StaleAbort(State(Some(Row(0, 0)), map[0 := []], 1, None, map[]), late, source);
    LateRecord(State(Some(Row(1, 0)), map[1 := []], 2, None, map[3 := AbortRemoving(0)]), source);
  }

  // --- What requests are told ------------------------------------------------------------------------

  datatype Reply = At(offset: nat) | Mismatch | Done | Refused

  /** What the step that ends a request answers it. */
  function Answer(row: Option<Row>, files: map<nat, Bytes>, r: Request): Reply {
    match r
    case Held(ask) =>
      if ask.AppendAsk? && row.Some? && ask.offset != row.value.offset then Mismatch
      else if ask.BeginAsk? && row.Some? then At(row.value.offset) else Refused
    case AppendWrote(_, _, at, length) => if row.Some? then At(at + length) else Refused
    case CompletePublishing(_, temp) => if temp in files then Done else Refused
    case AbortRemoving(_) => Done
    case BeginCreating => At(0)
    case _ => Refused
  }

  /** Where a request may stand that asked for `ask`. */
  predicate Stage(r: Request, ask: Ask) {
    || r == Waiting(ask) || r == Held(ask)
    || (match ask
        case AppendAsk(_, offset, length) =>
          (r.AppendWriting? || r.AppendWrote?) && r.at == offset && r.length == length
        case CompleteAsk(_) => r.CompleteVerifying? || r.CompletePublishing?
        case AbortAsk(_) => r.AbortRemoving?
        case BeginAsk => r.BeginCreating?)
  }

  /** The session is still there, and no further back. */
  predicate Onward(row: Option<Row>, row': Option<Row>) {
    row.Some? ==> row'.Some? && row'.value.temp == row.value.temp && row.value.offset <= row'.value.offset
  }

  /** The step ends the session, or takes its offset back. */
  predicate SetsBack(s: State, e: Event, source: Bytes) { !Onward(s.row, Step(s, e, source).row) }

  function Setbacks(s: State, es: seq<Event>, source: Bytes): nat
    decreases |es|
  {
    if es == [] then 0
    else (if SetsBack(s, es[0], source) then 1 else 0) + Setbacks(Step(s, es[0], source), es[1..], source)
  }

  /** As long as no request goes on under another session's locks, only the end of the
      session sets anybody back. */
  lemma SetBackIsEnd(s: State, e: Event, source: Bytes)
    requires Orderly(s, source) && !Stale(s, e, |source|)
    ensures SetsBack(s, e, source) ==> Step(s, e, source).row.None?
  {
    if e.Go? && e.id in s.requests { assert Knows(s.row, s.files, s.requests[e.id], source); }
  }

  lemma {:induction false} RunMore(s: State, es: seq<Event>, e: Event, source: Bytes)
    ensures Run(s, es + [e], source) == Step(Run(s, es, source), e, source)
    ensures Setbacks(s, es + [e], source)
            == Setbacks(s, es, source) + if SetsBack(Run(s, es, source), e, source) then 1 else 0
    decreases |es|
  {
    if es == [] {
      assert [] + [e] == [e] && [e][1..] == [];
    } else {
      assert (es + [e])[0] == es[0] && (es + [e])[1..] == es[1..] + [e];
      RunMore(Step(s, es[0], source), es[1..], e, source);
    }
  }

  /** A session replaced by another client: its offset is gone. */
  lemma OffsetGoesBack(s: State, source: Bytes, id: nat) returns (es: seq<Event>)
    requires s.requests == map[] && s.row.Some?
    ensures Run(s, es, source).row == Some(Row(s.nextTemp, 0)) && Run(s, es, source).requests == map[]
    ensures Prompt(s, es, source) && forall e | e in es :: e.id == id
  {
    var begin := [Begin(id)] + Gos(id, 3, []);
    var t := s.(row := None, files := s.files - {s.row.value.temp});
    es := [Abort(id)] + Gos(id, 3, begin);
    GosIds(id, 3, []);
    GosIds(id, 3, begin);
    AbortAlone(s, id, begin, source);
    BeginAlone(t, id, [], source);
  }

  lemma {:induction false} GosIds(id: nat, n: nat, es: seq<Event>)
    requires forall e | e in es :: e.id == id
    ensures forall e | e in Gos(id, n, es) :: e.id == id
  {
    if n > 0 { GosIds(id, n - 1, es); }
  }

  /** An abort that meets no one. */
  lemma AbortAlone(s: State, id: nat, rest: seq<Event>, source: Bytes)
    requires s.requests == map[] && s.row.Some?
    ensures Leads(s, [Abort(id)] + Gos(id, 3, rest),
                  s.(row := None, files := s.files - {s.row.value.temp}), rest, source)
  {
    var ask := AbortAsk(s.row.value.temp);
    Unroll(id, rest);
    var t := Become(s, id, Waiting(ask));
    One(s, Abort(id), Gos(id, 3, rest), source);
    var u := Become(t, id, Held(ask));
    One(t, Go(id), Gos(id, 2, rest), source);
    assert Step(t, Go(id), source) == u;
    var v := Become(u, id, AbortRemoving(ask.lock));
    One(u, Go(id), Gos(id, 1, rest), source);
    assert Step(u, Go(id), source) == v;
    One(v, Go(id), rest, source);
    assert v.requests - {id} == s.requests;
  }

  // --- The client's loop -------------------------------------------------------------------------------

  /** All that goes on around the client: what others do before its call `c` and before
      each step of the server on it, the id its request gets, and how many steps it waits
      for an answer before it counts it as lost. */
  datatype World = World(others: (nat, nat) -> seq<Event>, pick: nat -> nat, patience: nat -> nat)

  /** Nobody else is there, and every answer arrives. */
  ghost predicate Quiet(w: World) { (forall c, k :: w.others(c, k) == []) && forall c :: w.patience(c) >= 4 }

  /** The server's state and its history since the client came. */
  class Server {
    const source: Bytes
    ghost const start: State
    var state: State
    ghost var history: seq<Event>
    ghost var setbacks: nat
    var calls: nat

    ghost predicate Valid()
      reads this
    {
      && state == Run(start, history, source) && setbacks == Setbacks(start, history, source)
      && Verified(state, source)
    }

    constructor (source: Bytes, state: State)
      requires Verified(state, source)
      ensures Valid() && this.source == source && this.state == state && start == state && setbacks == 0
    {
      this.source, this.start, this.state, history, setbacks, calls := source, state, state, [], 0, 0;
    }

    method Happens(e: Event)
      requires Valid()
      modifies `state, `history, `setbacks
      ensures Valid() && state == Step(old(state), e, source) && history == old(history) + [e]
      ensures setbacks == old(setbacks) + if SetsBack(old(state), e, source) then 1 else 0
    {
      RunMore(start, history, e, source);
      VerifiedStep(state, e, source);
      state := Step(state, e, source);
      history := history + [e];
      setbacks := Setbacks(start, history, source);
    }

    /** What others do; the client's own request is not theirs. */
    method Others(es: seq<Event>, mine: nat)
      requires Valid()
      modifies `state, `history, `setbacks
      ensures Valid() && setbacks >= old(setbacks) && (es == [] ==> state == old(state) && setbacks == old(setbacks))
      ensures setbacks == old(setbacks) ==> Onward(old(state).row, state.row)
      ensures mine in state.requests <==> mine in old(state).requests
      ensures mine in state.requests ==> state.requests[mine] == old(state).requests[mine]
    {
      for k := 0 to |es|
        invariant Valid() && setbacks >= old(setbacks)
        invariant es == [] ==> state == old(state) && setbacks == old(setbacks)
        invariant setbacks == old(setbacks) ==> Onward(old(state).row, state.row)
        invariant mine in state.requests <==> mine in old(state).requests
        invariant mine in state.requests ==> state.requests[mine] == old(state).requests[mine]
      {
        if es[k].id != mine { Other(es[k], mine); }
      }
    }

    method Other(e: Event, mine: nat)
      requires Valid() && e.id != mine
      modifies `state, `history, `setbacks
      ensures Valid() && setbacks >= old(setbacks)
      ensures setbacks == old(setbacks) ==> Onward(old(state).row, state.row)
      ensures mine in state.requests <==> mine in old(state).requests
      ensures mine in state.requests ==> state.requests[mine] == old(state).requests[mine]
    {
      OthersStay(state, e, mine, source);
      Happens(e);
    }

    /** The server works on request `id`, others in between, until it answers or the
        client has waited long enough. `n` is how many steps it would take alone. */
    method Await(id: nat, ghost ask: Ask, w: World, ghost n: nat) returns (reply: Reply)
      requires Valid() && id in state.requests && state.requests[id] == Waiting(ask)
      modifies `state, `history, `setbacks
      ensures Valid() && setbacks >= old(setbacks)
      ensures setbacks == old(setbacks) ==> Onward(old(state).row, state.row)
      ensures Fits(ask, reply, old(state).row, state, setbacks == old(setbacks), source)
      ensures Quiet(w) && Takes(old(state), id, n, GoOf(id, source)) ==>
                Alone(old(state), id, n, source, reply, state)
    {
      var c := calls;
      ghost var go := GoOf(id, source);
      for k := 0 to w.patience(c)
        invariant Valid() && setbacks >= old(setbacks)
        invariant setbacks == old(setbacks) ==> Onward(old(state).row, state.row)
        invariant UnderWay(state, id, ask, source)
        invariant Quiet(w) ==> StillAlone(old(state), state, id, k, go)
      {
        ghost var row, so, before := state.row, setbacks, state;
        var ended, answer := OneStep(id, ask, w.others(c, k + 1));
        if ended {
          FitsEarlier(ask, answer, old(state).row, row, state, setbacks == old(setbacks), setbacks == so, source);
          if Quiet(w) { EndsNow(old(state), before, id, n, k, source, answer, state); }
          return answer;
        }
        if Quiet(w) { StillMore(old(state), before, state, id, k, go); }
      }
      if Quiet(w) { NotEnded(old(state), state, id, n, w.patience(c), go); }
      reply := Refused;
    }

    /** Others do something, then the server takes the request one step further. */
    method OneStep(id: nat, ghost ask: Ask, es: seq<Event>) returns (ended: bool, reply: Reply)
      requires Valid() && UnderWay(state, id, ask, source)
      modifies `state, `history, `setbacks
      ensures Valid() && setbacks >= old(setbacks)
      ensures setbacks == old(setbacks) ==> Onward(old(state).row, state.row)
      ensures ended <==> id !in state.requests
      ensures !ended ==> UnderWay(state, id, ask, source)
      ensures ended ==> Fits(ask, reply, old(state).row, state, setbacks == old(setbacks), source)
      ensures es == [] ==> state == GoOf(id, source)(old(state))
      ensures es == [] && ended ==> reply == Answer(old(state).row, old(state).files, old(state).requests[id])
    {
      Others(es, id);
      var r, row, files := state.requests[id], state.row, state.files;
      if id in Step(state, Go(id), source).requests { StageStep(state, id, ask, source); }
      else { AnswerFits(state, id, ask, source); }
      Happens(Go(id));
      return id !in state.requests, Answer(row, files, r);
    }

    /** The client reads the session's row; others have gone on meanwhile. */
    method Status(w: World, id: nat) returns (row: Option<Row>)
      requires Valid()
      modifies this
      ensures Valid() && setbacks >= old(setbacks) && row == state.row
      ensures setbacks == old(setbacks) ==> Onward(old(state).row, state.row)
    {
      calls := calls + 1;
      Others(w.others(calls, 0), id);
      row := state.row;
    }

    /** One request of the client, from its sending to its answer. */
    method Call(e: Event, w: World, ghost n: nat) returns (reply: Reply)
      requires Valid() && !e.Go?
      modifies this
      ensures Valid() && setbacks >= old(setbacks)
      ensures setbacks == old(setbacks) ==> Onward(old(state).row, state.row)
      ensures reply.At? ==> state.row.Some? && state.row.value.offset == reply.offset
      ensures reply.At? && e.Append? ==> reply.offset == e.offset + e.length <= |source|
      ensures reply.Mismatch? ==> e.Append?
      ensures reply.Mismatch? && setbacks == old(setbacks) && AtLeast(old(state).row, e.offset) ==>
                AtLeast(state.row, e.offset + 1)
      ensures reply.Done? && e.Complete? ==> state.target == Some(source)
      ensures Quiet(w) && e.id !in old(state).requests
              && Takes(Step(old(state), e, source), e.id, n, GoOf(e.id, source)) ==>
                Alone(Step(old(state), e, source), e.id, n, source, reply, state)
    {
      calls := calls + 1;
      Others(w.others(calls, 0), e.id);
      if e.id in state.requests { return Refused; }
      Happens(e);
      assert Later(state, 0, GoOf(e.id, source)) == state;
      if e.id !in state.requests { return Refused; }
      reply := Await(e.id, state.requests[e.id].ask, w, n);
    }
  }

  /** What a reply says of the state it leaves. */
  ghost predicate Fits(ask: Ask, reply: Reply, row: Option<Row>, s: State, undisturbed: bool, source: Bytes) {
    && (reply.At? ==> s.row.Some? && s.row.value.offset == reply.offset)
    && (reply.At? && ask.AppendAsk? ==> reply.offset == ask.offset + ask.length <= |source|)
    && (reply.Mismatch? ==> ask.AppendAsk?)
    && (reply.Mismatch? && undisturbed && AtLeast(row, ask.offset) ==> AtLeast(s.row, ask.offset + 1))
    && (reply.Done? && ask.CompleteAsk? ==> s.target == Some(source))
  }

  predicate AtLeast(row: Option<Row>, offset: nat) { row.Some? && row.value.offset >= offset }

  lemma OthersStay(s: State, e: Event, mine: nat, source: Bytes)
    requires e.id != mine
    ensures mine in Step(s, e, source).requests <==> mine in s.requests
    ensures mine in s.requests ==> Step(s, e, source).requests[mine] == s.requests[mine]
  {
  }

  /** An append past its checks ends within the source. */
  predicate Bounded(r: Request, source: Bytes) {
    r.AppendWriting? || r.AppendWrote? ==> r.at + r.length <= |source|
  }

  predicate UnderWay(s: State, id: nat, ask: Ask, source: Bytes) {
    id in s.requests && Stage(s.requests[id], ask) && Bounded(s.requests[id], source)
  }

  lemma StageStep(s: State, id: nat, ask: Ask, source: Bytes)
    requires id in s.requests && Stage(s.requests[id], ask) && Bounded(s.requests[id], source)
    requires id in Step(s, Go(id), source).requests
    ensures var r := Step(s, Go(id), source).requests[id]; Stage(r, ask) && Bounded(r, source)
  {
  }

  lemma AnswerFits(s: State, id: nat, ask: Ask, source: Bytes)
    requires Verified(s, source) && id in s.requests && Stage(s.requests[id], ask) && Bounded(s.requests[id], source)
    requires id !in Step(s, Go(id), source).requests
    ensures Fits(ask, Answer(s.row, s.files, s.requests[id]), s.row, Step(s, Go(id), source), true, source)
  {
  }

  // --- The client alone --------------------------------------------------------------------------------

  /** One step of the server on request `id`. */
  function GoOf(id: nat, source: Bytes): State -> State { s => Step(s, Go(id), source) }

  function Later(s: State, n: nat, go: State -> State): State { if n == 0 then s else go(Later(s, n - 1, go)) }

  /** Alone, the request takes `n` steps, at most four. */
  ghost predicate Takes(s: State, id: nat, n: nat, go: State -> State) {
    && 1 <= n <= 4 && (forall j | 0 <= j < n :: id in Later(s, j, go).requests)
    && id !in Later(s, n, go).requests
  }

  lemma FitsEarlier(ask: Ask, reply: Reply, row: Option<Row>, row': Option<Row>, s: State, undisturbed: bool,
                    undisturbed': bool, source: Bytes)
    requires Fits(ask, reply, row', s, undisturbed', source)
    requires undisturbed ==> undisturbed' && Onward(row, row')
    ensures Fits(ask, reply, row, s, undisturbed, source)
  {
  }

  ghost function LastAnswer(s: State, id: nat, n: nat, go: State -> State): Reply
    requires Takes(s, id, n, go)
  {
    var t := Later(s, n - 1, go);
    Answer(t.row, t.files, t.requests[id])
  }

  /** So far request `id` has had the server for itself, for `k` steps. */
  ghost predicate StillAlone(s: State, t: State, id: nat, k: nat, go: State -> State) {
    t == Later(s, k, go) && forall j | 0 <= j <= k :: id in Later(s, j, go).requests
  }

  lemma StillMore(s: State, t: State, t': State, id: nat, k: nat, go: State -> State)
    requires StillAlone(s, t, id, k, go) && t' == go(t) && id in t'.requests
    ensures StillAlone(s, t', id, k + 1, go)
  {
    assert Later(s, k + 1, go) == go(Later(s, k, go));
  }

  lemma EndsNow(s: State, t: State, id: nat, n: nat, k: nat, source: Bytes, reply: Reply, t': State)
    requires StillAlone(s, t, id, k, GoOf(id, source)) && t' == GoOf(id, source)(t) && id !in t'.requests
    requires id in t.requests && reply == Answer(t.row, t.files, t.requests[id])
    ensures Takes(s, id, n, GoOf(id, source)) ==> Alone(s, id, n, source, reply, t')
  {
    var go := GoOf(id, source);
    assert Later(s, k + 1, go) == go(Later(s, k, go));
  }

  lemma NotEnded(s: State, t: State, id: nat, n: nat, k: nat, go: State -> State)
    requires k >= 4 && StillAlone(s, t, id, k, go)
    ensures !Takes(s, id, n, go)
  {
  }

  /** Whoever is alone with the server is answered so. */
  ghost predicate Alone(s: State, id: nat, n: nat, source: Bytes, reply: Reply, t: State) {
    var go := GoOf(id, source);
    Takes(s, id, n, go) && LastAnswer(s, id, n, go) == reply && Later(s, n, go) == t
  }

  /** A session at rest whose temp file starts with the source up to its offset. */
  predicate Resting(s: State, source: Bytes) {
    && s.requests == map[] && s.row.Some? && s.row.value.temp in s.files
    && s.files[s.row.value.temp] <= source && s.row.value.offset <= |s.files[s.row.value.temp]|
  }

  /** The states of a request, one after the other. */
  lemma FourTakes(s: State, id: nat, a: State, b: State, c: State, d: State, go: State -> State)
    requires a == go(s) && b == go(a) && c == go(b) && d == go(c)
    requires id in s.requests && id in a.requests && id in b.requests && id in c.requests && id !in d.requests
    ensures Takes(s, id, 4, go) && Later(s, 4, go) == d
    ensures LastAnswer(s, id, 4, go) == Answer(c.row, c.files, c.requests[id])
  {
    ThreeLater(s, a, b, c, go);
    assert Later(s, 4, go) == d;
  }

  lemma ThreeTakes(s: State, id: nat, a: State, b: State, c: State, go: State -> State)
    requires a == go(s) && b == go(a) && c == go(b)
    requires id in s.requests && id in a.requests && id in b.requests && id !in c.requests
    ensures Takes(s, id, 3, go) && Later(s, 3, go) == c
    ensures LastAnswer(s, id, 3, go) == Answer(b.row, b.files, b.requests[id])
  {
    ThreeLater(s, a, b, c, go);
  }

  lemma TwoTakes(s: State, id: nat, a: State, b: State, go: State -> State)
    requires a == go(s) && b == go(a) && id in s.requests && id in a.requests && id !in b.requests
    ensures Takes(s, id, 2, go) && Later(s, 2, go) == b
    ensures LastAnswer(s, id, 2, go) == Answer(a.row, a.files, a.requests[id])
  {
    ThreeLater(s, a, b, go(b), go);
  }

  lemma ThreeLater(s: State, a: State, b: State, c: State, go: State -> State)
    requires a == go(s) && b == go(a) && c == go(b)
    ensures Later(s, 0, go) == s && Later(s, 1, go) == a && Later(s, 2, go) == b && Later(s, 3, go) == c
  {
  }

  lemma AppendAlone(s: State, id: nat, length: nat, source: Bytes) returns (d: State)
    requires Resting(s, source) && 0 < length && s.row.value.offset + length <= |source|
    ensures Alone(Step(s, Append(id, s.row.value.offset, length), source), id, 4, source,
                  At(s.row.value.offset + length), d)
    ensures Resting(d, source) && d.row == Some(Row(s.row.value.temp, s.row.value.offset + length))
  {
    var temp, offset := s.row.value.temp, s.row.value.offset;
    var ask := AppendAsk(temp, offset, length);
    var t, a := Become(s, id, Waiting(ask)), Become(s, id, Held(ask));
    var b := Become(s, id, AppendWriting(temp, temp, offset, length));
    var files := s.files[temp := Pwrite(s.files[temp], offset, source[offset..offset + length])];
    var c := Become(s.(files := files), id, AppendWrote(temp, temp, offset, length));
    d := s.(files := files, row := Some(Row(temp, offset + length)));
    PwriteSource(s.files[temp], offset, length, source);
    assert t == Step(s, Append(id, offset, length), source);
    AppendStarts(s, id, offset, length, source);
    AppendEnds(s, id, offset, length, c, d, source);
    FourTakes(t, id, a, b, c, d, GoOf(id, source));
  }

  lemma AppendStarts(s: State, id: nat, offset: nat, length: nat, source: Bytes)
    requires s.requests == map[] && s.row.Some? && offset == s.row.value.offset && offset + length <= |source|
    ensures var temp, go := s.row.value.temp, GoOf(id, source);
            var ask := AppendAsk(temp, offset, length);
            && go(Become(s, id, Waiting(ask))) == Become(s, id, Held(ask))
            && go(Become(s, id, Held(ask))) == Become(s, id, AppendWriting(temp, temp, offset, length))
  {
    var ask := AppendAsk(s.row.value.temp, offset, length);
    Replaced(s, id, Waiting(ask), Held(ask));
    Replaced(s, id, Held(ask), AppendWriting(ask.lock, ask.lock, offset, length));
    assert Grantable(Become(s, id, Waiting(ask)), ask);
  }

  lemma AppendEnds(s: State, id: nat, offset: nat, length: nat, c: State, d: State, source: Bytes)
    requires Resting(s, source) && offset == s.row.value.offset && offset + length <= |source|
    requires var temp := s.row.value.temp;
             var files := s.files[temp := Pwrite(s.files[temp], offset, source[offset..offset + length])];
             && c == Become(s.(files := files), id, AppendWrote(temp, temp, offset, length))
             && d == s.(files := files, row := Some(Row(temp, offset + length)))
    ensures var temp, go := s.row.value.temp, GoOf(id, source);
            go(Become(s, id, AppendWriting(temp, temp, offset, length))) == c && go(c) == d
  {
    var temp := s.row.value.temp;
    Replaced(s, id, AppendWriting(temp, temp, offset, length), AppendWrote(temp, temp, offset, length));
    assert c.requests - {id} == d.requests;
  }

  lemma Replaced(s: State, id: nat, r: Request, r': Request)
    ensures Become(Become(s, id, r), id, r') == Become(s, id, r')
    ensures s.requests[id := r][id := r'] == s.requests[id := r']
  {
  }

  lemma BeginAnew(s: State, id: nat, source: Bytes) returns (c: State)
    requires s.requests == map[] && s.row.None?
    ensures Alone(Step(s, Begin(id), source), id, 3, source, At(0), c)
    ensures Resting(c, source) && c.row.value.offset == 0
  {
    var t, a, b := Become(s, id, Waiting(BeginAsk)), Become(s, id, Held(BeginAsk)), Become(s, id, BeginCreating);
    c := s.(row := Some(Row(s.nextTemp, 0)), files := s.files[s.nextTemp := []], nextTemp := s.nextTemp + 1);
    Replaced(s, id, Waiting(BeginAsk), Held(BeginAsk));
    Replaced(s, id, Held(BeginAsk), BeginCreating);
    assert b.requests - {id} == c.requests;
    ThreeTakes(t, id, a, b, c, GoOf(id, source));
  }

  lemma BeginAgain(s: State, id: nat, source: Bytes)
    requires Resting(s, source)
    ensures Alone(Step(s, Begin(id), source), id, 2, source, At(s.row.value.offset), s)
  {
    var t, a := Become(s, id, Waiting(BeginAsk)), Become(s, id, Held(BeginAsk));
    Replaced(s, id, Waiting(BeginAsk), Held(BeginAsk));
    assert a.requests - {id} == s.requests;
    TwoTakes(t, id, a, s, GoOf(id, source));
  }

  /** So a client that goes on from where it was is sent back to the start. */
  lemma ClientSentBack(s: State, other: nat, id: nat, length: nat, source: Bytes) returns (es: seq<Event>)
    requires s.requests == map[] && s.row.Some? && s.row.value.offset > 0 && length > 0
    ensures Prompt(s, es, source) && forall e | e in es :: e.id == other
    ensures var t := Run(s, es, source);
            && t.row == Some(Row(s.nextTemp, 0))
            && Alone(Step(t, Append(id, s.row.value.offset, length), source), id, 2, source, Mismatch, t)
  {
    es := OffsetGoesBack(s, source, other);
    MismatchAlone(Run(s, es, source), id, s.row.value.offset, length, source);
  }

  lemma MismatchAlone(s: State, id: nat, offset: nat, length: nat, source: Bytes)
    requires s.requests == map[] && s.row.Some? && s.row.value.offset != offset && length > 0
    ensures Alone(Step(s, Append(id, offset, length), source), id, 2, source, Mismatch, s)
  {
    var ask := AppendAsk(s.row.value.temp, offset, length);
    var t, a := Become(s, id, Waiting(ask)), Become(s, id, Held(ask));
    Replaced(s, id, Waiting(ask), Held(ask));
    assert a.requests - {id} == s.requests;
    TwoTakes(t, id, a, s, GoOf(id, source));
  }

  lemma CompleteAlone(s: State, id: nat, source: Bytes) returns (d: State)
    requires Resting(s, source) && s.row.value.offset == |source|
    ensures Alone(Step(s, Complete(id), source), id, 4, source, Done, d)
  {
    var temp := s.row.value.temp;
    var ask := CompleteAsk(temp);
    var t, a := Become(s, id, Waiting(ask)), Become(s, id, Held(ask));
    var b, c := Become(s, id, CompleteVerifying(temp, temp)), Become(s, id, CompletePublishing(temp, temp));
    d := Step(c, Go(id), source);
    Replaced(s, id, Waiting(ask), Held(ask));
    Replaced(s, id, Held(ask), CompleteVerifying(temp, temp));
    Replaced(s, id, CompleteVerifying(temp, temp), CompletePublishing(temp, temp));
    FourTakes(t, id, a, b, c, d, GoOf(id, source));
  }

  // --- The loop ------------------------------------------------------------------------------------------

  const CHUNK := 1024 * 1024

  /** StillGoing: the loop has made all the turns it was given. */
  datatype Ending = Published | Failed | StillGoing

  /** The turns that so many setbacks can cost: each at most size + 1. */
  function Cost(setbacks: nat, size: nat): nat { if setbacks == 0 then 0 else Cost(setbacks - 1, size) + size + 1 }

  lemma {:induction false} CostIs(setbacks: nat, size: nat)
    ensures Cost(setbacks, size) == setbacks * (size + 1)
  {
    if setbacks > 0 {
      CostIs(setbacks - 1, size);
      assert (setbacks - 1) * (size + 1) + (size + 1) == setbacks * (size + 1);
    }
  }

  lemma {:induction false} CostGrows(d: nat, d': nat, size: nat)
    requires d < d'
    ensures Cost(d, size) + size + 1 <= Cost(d', size)
    decreases d'
  {
    if d + 1 < d' { CostGrows(d, d' - 1, size); }
  }

  lemma TurnCounted(turns: nat, d: nat, d': nat, offset: nat, offset': nat, size: nat)
    requires turns <= Cost(d, size) + offset && offset <= size && d <= d' && (d == d' ==> offset < offset')
    ensures turns + 1 <= Cost(d', size) + offset'
  {
    if d < d' { CostGrows(d, d', size); }
  }

  /** One turn of the loop: `ok` is false when it throws. A turn that does not move the
      offset on was set back. */
  method Turn(server: Server, w: World, id: nat, offset: nat, reconciledAt: int)
    returns (ok: bool, offset': nat, reconciledAt': int)
    requires server.Valid() && offset < |server.source|
    requires server.state.row.Some? && server.state.row.value.offset == offset
    modifies server
    ensures server.Valid() && server.setbacks >= old(server.setbacks)
    ensures ok ==> offset' <= |server.source| && server.state.row.Some? && server.state.row.value.offset == offset'
    ensures ok && server.setbacks == old(server.setbacks) ==> offset' > offset
    ensures Quiet(w) && Resting(old(server.state), server.source) ==>
              ok && offset' > offset && Resting(server.state, server.source)
  {
    var source := server.source;
    var end := if offset + CHUNK <= |source| then offset + CHUNK else |source|;
    ghost var alone;
    if Resting(server.state, source) { alone := AppendAlone(server.state, id, end - offset, source); }
    var reply := server.Call(Append(id, offset, end - offset), w, 4);
    match reply {
      case At(next) =>
        if next <= offset { return false, offset, -1; }
        return true, next, -1;
      case Mismatch =>
        if reconciledAt == offset { return false, offset, reconciledAt; }
        var row := server.Status(w, id);
        if row.None? || row.value.offset > |source| { return false, offset, offset; }
        return true, row.value.offset, offset;
      case _ => return false, offset, reconciledAt;
    }
  }

  method Start(server: Server, w: World) returns (ok: bool, offset: nat)
    requires server.Valid()
    modifies server
    ensures server.Valid() && server.setbacks >= old(server.setbacks)
    ensures ok ==> offset <= |server.source| && server.state.row.Some? && server.state.row.value.offset == offset
    ensures Quiet(w) && Ready(old(server.state), server.source) ==> ok && Resting(server.state, server.source)
  {
    var source := server.source;
    ghost var n := if server.state.row.None? then 3 else 2;
    if Ready(server.state, source) {
      if server.state.row.None? {
        ghost var alone := BeginAnew(server.state, w.pick(0), source);
      } else {
        BeginAgain(server.state, w.pick(0), source);
      }
    }
    var begun := server.Call(Begin(w.pick(0)), w, n);
    if !begun.At? || begun.offset > |source| { return false, 0; }
    return true, begun.offset;
  }

  /** No request is under way, and a session that is there is in order. */
  predicate Ready(s: State, source: Bytes) { s.requests == map[] && (s.row.Some? ==> Resting(s, source)) }

  predicate Whole(s: State, source: Bytes) { Resting(s, source) && s.row.value.offset == |source| }

  method Publish(server: Server, w: World, id: nat) returns (published: bool)
    requires server.Valid()
    modifies server
    ensures server.Valid() && server.setbacks >= old(server.setbacks)
    ensures published ==> server.state.target == Some(server.source)
    ensures Quiet(w) && Whole(old(server.state), server.source) ==> published
  {
    if Whole(server.state, server.source) {
      ghost var alone := CompleteAlone(server.state, id, server.source);
    }
    var reply := server.Call(Complete(id), w, 4);
    return reply.Done?;
  }

  /** The loop, from an offset the server has just told. */
  method Feed(server: Server, w: World, start: nat, turns: nat, ghost quiet: bool) returns (ending: Ending, turn: nat)
    requires server.Valid() && start <= |server.source|
    requires server.state.row.Some? && server.state.row.value.offset == start
    requires quiet ==> Quiet(w) && Resting(server.state, server.source)
    modifies server
    ensures server.Valid() && server.setbacks >= old(server.setbacks)
    ensures ending.Published? ==> server.state.row.Some? && server.state.row.value.offset == |server.source|
    ensures ending.StillGoing? ==>
              turns < Cost(server.setbacks - old(server.setbacks), |server.source|) + |server.source|
    ensures quiet && turns >= |server.source| ==> ending.Published? && Resting(server.state, server.source)
  {
    var size := |server.source|;
    ghost var was := server.setbacks;
    var offset, reconciledAt := start, -1;
    turn := 0;
    while offset < size
      invariant server.Valid() && size == |server.source| && server.setbacks >= was
      invariant offset <= size && server.state.row.Some? && server.state.row.value.offset == offset
      invariant turn <= Cost(server.setbacks - was, size) + offset && turn <= turns
      invariant quiet ==> Resting(server.state, server.source) && turn <= offset
      decreases turns - turn
    {
      if turn == turns { return StillGoing, turn; }
      ghost var d, from := server.setbacks - was, offset;
      var ok;
      ok, offset, reconciledAt := Turn(server, w, w.pick(turn + 1), offset, reconciledAt);
      if !ok { return Failed, turn; }
      TurnCounted(turn, d, server.setbacks - was, from, offset, size);
      turn := turn + 1;
    }
    ending := Published;
  }

  /** resumableUploadBlob over the server's own steps, whatever others do in between. The
      loop makes at most size + 1 turns for each time it is set back, and size more. If it
      ends well the source is published; alone, with every answer arriving, it does. */
  method ResumableUpload(server: Server, w: World, turns: nat) returns (ending: Ending)
    requires server.Valid()
    modifies server
    ensures server.Valid() && server.setbacks >= old(server.setbacks)
    ensures ending.Published? ==> server.state.target == Some(server.source)
    ensures ending.StillGoing? ==>
              turns < (server.setbacks - old(server.setbacks)) * (|server.source| + 1) + |server.source|
    ensures Quiet(w) && Ready(old(server.state), server.source) && turns >= |server.source| ==> ending.Published?
  {
    ghost var was := server.setbacks;
    ghost var quiet := Quiet(w) && Ready(server.state, server.source);
    var ok, offset := Start(server, w);
    if !ok { return Failed; }
    ghost var begun := server.setbacks;
    var turn;
    ending, turn := Feed(server, w, offset, turns, quiet);
    if ending.StillGoing? { MoreSetbacks(server.setbacks - begun, server.setbacks - was, |server.source|); }
    if !ending.Published? { return; }
    var published := Publish(server, w, w.pick(turn + 1));
    return if published then Published else Failed;
  }

  lemma MoreSetbacks(d: nat, d': nat, size: nat)
    requires d <= d'
    ensures Cost(d, size) <= d' * (size + 1)
  {
    CostIs(d, size);
    assert (d' - d) * (size + 1) >= 0;
    assert d' * (size + 1) == d * (size + 1) + (d' - d) * (size + 1);
  }
}
