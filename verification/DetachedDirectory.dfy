/** Runs in which an open handle keeps a directory that has lost its name, and a
    caller goes on using it as a parent. */
module DetachedDirectory {
  import opened Wrappers
  import opened DentryGraph
  import opened Tables
  import opened NamespaceInvariants
  import opened NamespaceRuns
  import opened FeedReplay

  /** The names and times of a run do not matter, as long as the lease lasts. */
  datatype Names = Names(a: string, b: string, session: string, expiresAt: int, now: Time)

  ghost predicate Usable(n: Names) { n.a != n.b && n.a != "" && n.b != "" && n.expiresAt > n.now.secs }

  function MakeDir(parent: int, name: string, now: Time): Op { OpCreate(Mkdir, parent, name, 0x1ed, 0, 0, 0, now) }

  /** mkdir /a; mkdir /b; open /b; rename /a to /b. */
  function Detach(n: Names): seq<Op> {
    [MakeDir(ROOT, n.a, n.now), MakeDir(ROOT, n.b, n.now), OpPin(n.session, 3, n.expiresAt),
     OpRename(ROOT, n.a, ROOT, n.b, n.now)]
  }

  /** Inodes 1 to `count`, all directories. */
  ghost predicate Folders(t: Tables, count: int) {
    && (forall i :: i in t.inode <==> 1 <= i <= count) && (forall i | i in t.inode :: IsDir(t.inode, i))
    && t.nextIno == count + 1 && t.quotaBytes == None && t.quotaInodes == None
  }

  lemma MkdirFolders(t: Tables, count: int, parent: int, name: string, now: Time)
    requires Folders(t, count) && 1 <= parent <= count && (parent, name) !in t.dentry
    ensures var t' := Apply(t, MakeDir(parent, name, now)).tables;
            Folders(t', count + 1) && t'.dentry == t.dentry[(parent, name) := count + 1] && t'.leases == t.leases
  {
    assert NewNode(Mkdir, 0x1ed, 0, 0, 0, now).mode == 0x41ed;
    assert FileType(0x41ed) == 4;
  }

  /** The row of `k` now leads where the row of `k'` led, and its old inode, which is
      held open, has neither name nor links. */
  lemma ReplaceHeld(t: Tables, a: string, b: string, session: string, now: Time)
    requires Folders(t, 3) && a != b && a != "" && b != ""
    requires (ROOT, a) in t.dentry && t.dentry[(ROOT, a)] == 2 && (ROOT, b) in t.dentry && t.dentry[(ROOT, b)] == 3
    requires forall k | k in t.dentry :: k.0 == ROOT && t.dentry[k] != ROOT
    requires (session, 3) in t.leases && t.leases[(session, 3)].openCount > 0
    requires t.leases[(session, 3)].expiresAt > now.secs
    ensures var t' := Apply(t, OpRename(ROOT, a, ROOT, b, now)).tables;
            && Folders(t', 3) && t'.inode[3].nlink == 0 && t'.leases == t.leases
            && t'.dentry == (t.dentry - {(ROOT, b)} - {(ROOT, a)})[(ROOT, b) := 2]
  {
    var k, k' := (ROOT, a), (ROOT, b);
    NotAbove(t.dentry, 2, ROOT);
    assert Renames(t, k, k');
    RenameCases(t, k, k', now);
    HeldStays(t, k', session, now);
    var t1 := Displace(t, k', now);
    assert t1.dentry[k] == 2;
  }

  lemma HeldStays(t: Tables, k: Key, session: string, now: Time)
    requires Folders(t, 3) && k in t.dentry && t.dentry[k] == 3 && k.0 == ROOT
    requires (session, 3) in t.leases && t.leases[(session, 3)].openCount > 0
    requires t.leases[(session, 3)].expiresAt > now.secs
    ensures var t' := Displace(t, k, now);
            && Folders(t', 3) && t'.inode[3].nlink == 0 && t'.leases == t.leases && t'.dentry == t.dentry - {k}
  {
    assert Leased(t.leases, 3, now);
  }

  /** `a` is not above `b` when no row names `b`. */
  lemma NotAbove(d: Graph, a: int, b: int)
    requires a != b && forall k | k in d :: d[k] != b
    ensures a !in Ancestors(d, {b})
  {
    AncestorsExact(d, a, b);
    forall p ensures Walk(d, a, p) != Some(b) { }
  }

  lemma RunFour(t: Tables, ops: seq<Op>, t1: Tables, t2: Tables, t3: Tables)
    requires |ops| == 4
    requires t1 == Apply(t, ops[0]).tables && t2 == Apply(t1, ops[1]).tables && t3 == Apply(t2, ops[2]).tables
    ensures Run(t, ops) == Apply(t3, ops[3]).tables
  {
    assert ops[1..][0] == ops[1] && ops[1..][1..] == ops[2..];
    assert ops[2..][0] == ops[2] && ops[2..][1..] == ops[3..];
    assert ops[3..][0] == ops[3] && ops[3..][1..] == [];
    assert Run(t3, ops[3..]) == Run(Apply(t3, ops[3]).tables, []);
    assert Run(t2, ops[2..]) == Run(t3, ops[3..]);
    assert Run(t1, ops[1..]) == Run(t2, ops[2..]);
  }

  ghost function AfterDetach(n: Names): Tables { Run(Seed(n.now, None, None), Detach(n)) }

  /** After the four calls inode 3 has no name and no links, but is still there. */
  lemma Detached(n: Names)
    requires Usable(n)
    ensures var t := AfterDetach(n);
            && Sound(t) && Folders(t, 3) && t.inode[3].nlink == 0
            && t.dentry == map[(ROOT, n.b) := 2] && t.leases == map[(n.session, 3) := Lease(1, n.expiresAt)]
  {
    var t0, ops := Seed(n.now, None, None), Detach(n);
    SeedFolders(n.now);
    var t1 := Apply(t0, ops[0]).tables;
    MkdirFolders(t0, 1, ROOT, n.a, n.now);
    var t2 := Apply(t1, ops[1]).tables;
    MkdirFolders(t1, 2, ROOT, n.b, n.now);
    var t3 := Apply(t2, ops[2]).tables;
    assert t3 == t2.(leases := map[(n.session, 3) := Lease(1, n.expiresAt)]);
    ReplaceHeld(t3, n.a, n.b, n.session, n.now);
    RunFour(t0, ops, t1, t2, t3);
    SeedTidy(n.now, None, None);
    NoCloseSound(t0, ops);
  }

  lemma SeedFolders(now: Time)
    ensures Folders(Seed(now, None, None), 1)
  {
    assert FileType(0x41ed) == 4;
  }

  lemma {:induction false} NoCloseSound(t: Tables, ops: seq<Op>)
    requires Sound(t) && forall op | op in ops :: !op.OpUnpin?
    ensures Sound(Run(t, ops))
    decreases |ops|
  {
    if ops != [] {
      ApplySound(t, ops[0]);
      NoCloseSound(Apply(t, ops[0]).tables, ops[1..]);
    }
  }

  function MakeFile(parent: int, name: string, now: Time): Op {
    OpCreate(Mknod, parent, name, DEFAULT_FILE_MODE, 0, 0, 0, now)
  }

  /** A file made in the unnamed directory loses its parent when the handle is closed:
      its row dangles. */
  lemma ReapLeavesRow(n: Names, x: string)
    requires Usable(n)
    ensures var used := Apply(AfterDetach(n), MakeFile(3, x, n.now)).tables;
            Sound(used) && !Sound(Apply(used, OpUnpin(n.session, 3, n.now)).tables)
  {
    var t, make, close := AfterDetach(n), MakeFile(3, x, n.now), OpUnpin(n.session, 3, n.now);
    Detached(n);
    FileMade(t, x, n.now);
    ApplySound(t, make);
    assert t.leases.Keys == {(n.session, 3)};
    assert ReapsUsedDirectory(Apply(t, make).tables, close);
    ApplySound(Apply(t, make).tables, close);
  }

  lemma FileMade(t: Tables, x: string, now: Time)
    requires Folders(t, 3) && (3, x) !in t.dentry
    ensures var t' := Apply(t, MakeFile(3, x, now)).tables;
            && (3, x) in t'.dentry && IsDir(t'.inode, 3) && t'.inode[3].nlink == t.inode[3].nlink
            && t'.leases == t.leases
  {
    CreateNodeFields(t, Mknod, 3, x, DEFAULT_FILE_MODE, 0, 0, 0, now);
  }

  /** A rename into the unnamed directory takes a live path away without an event. */
  lemma MoveAwayUnseen(n: Names, y: string)
    requires Usable(n) && y != ""
    ensures !InStep(AfterDetach(n), Apply(AfterDetach(n), OpRename(ROOT, n.b, 3, y, n.now)).tables)
  {
    var t, op := AfterDetach(n), OpRename(ROOT, n.b, 3, y, n.now);
    Detached(n);
    NotAbove(t.dentry, 2, 3);
    assert Walk(t.dentry, ROOT, []) == Some(ROOT);
    forall p ensures Walk(t.dentry, ROOT, p) != Some(3) { }
    assert CrossesReach(t, op);
    ApplyInStep(t, op);
  }
}
