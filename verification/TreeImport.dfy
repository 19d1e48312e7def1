/** Publishing a staged tree by renames, with rollback when one of them fails. */
module TreeImport {
  import opened Wrappers

  /** Top-level names and what is there. A failed rename changes nothing. */
  type Names<T> = map<string, T>

  /** The calls that fail: the swap's `failAt`-th call if there is one, then removals
      and renames of the rollback by name, the listing and the removal of the backup,
      and the journal entry. */
  datatype Faults = Faults(failAt: Option<nat>, removals: set<string>, restores: set<string>,
                           listing: bool, discard: bool, record: bool)

  /** One of the `n` calls from number `first` on fails. */
  predicate FailsWithin(faults: Faults, first: nat, n: nat) {
    faults.failAt.Some? && first <= faults.failAt.value < first + n
  }

  function Listed(names: seq<string>): set<string> { set n | n in names }

  /** A directory listing: every name once. */
  predicate Lists<T>(names: seq<string>, dir: Names<T>) {
    Listed(names) == dir.Keys && forall i, j | 0 <= i < j < |names| :: names[i] != names[j]
  }

  ghost predicate Holds<T>(dir: Names<T>, name: string, item: T) { name in dir && dir[name] == item }

  /** The volume root without the two hidden directories, and these. */
  class RootImporter<T> {
    var root: Names<T>
    var staging: Names<T>
    var backup: Option<Names<T>>
    /** Calls the swap has made so far. */
    var calls: nat

    constructor (root: Names<T>, staging: Names<T>)
      ensures this.root == root && this.staging == staging && backup == None && calls == 0
    {
      this.root, this.staging, backup, calls := root, staging, None, 0;
    }

    method Call(faults: Faults) returns (ok: bool)
      modifies this`calls
      ensures calls == old(calls) + 1 && (ok <==> faults.failAt != Some(old(calls)))
    {
      ok := faults.failAt != Some(calls);
      calls := calls + 1;
    }

    /** One rename into the backup; `gone` have been moved before. */
    method MoveOneAside(name: string, ghost before: Names<T>, ghost gone: set<string>)
      requires root == before - gone && backup == Some(Only(before, gone)) && name in before && name !in gone
      modifies this`root, this`backup
      ensures root == before - (gone + {name}) && backup == Some(Only(before, gone + {name}))
    {
      MovedOne(before, gone, name);
      backup := Some(backup.value[name := root[name]]);
      root := root - {name};
    }

    /** Moves every name from the root into the backup, up to the first failure. */
    method MoveAside(existing: seq<string>, faults: Faults) returns (n: nat, ok: bool)
      requires Lists(existing, root) && backup == Some(map[])
      modifies this`root, this`backup, this`calls
      ensures n <= |existing| && (ok <==> n == |existing|)
      ensures root == old(root) - Listed(existing[..n]) && backup == Some(Only(old(root), Listed(existing[..n])))
      ensures ok <==> !FailsWithin(faults, old(calls), |existing|)
      ensures !ok ==> faults.failAt == Some(old(calls) + n)
      ensures ok ==> calls == old(calls) + |existing|
    {
      ghost var before := root;
      n, ok := 0, true;
      NothingMoved(before);
      while n < |existing|
        invariant n <= |existing| && ok && calls == old(calls) + n && !FailsWithin(faults, old(calls), n)
        invariant root == before - Listed(existing[..n]) && backup == Some(Only(before, Listed(existing[..n])))
      {
        ok := Call(faults);
        if !ok { return; }
        NextListed(existing, before, n);
        MoveOneAside(existing[n], before, Listed(existing[..n]));
        n := n + 1;
      }
    }

    ghost predicate Published(before: Names<T>, names: seq<string>)
      reads this
    {
      staging == before - Listed(names) && root == Only(before, Listed(names))
    }

    method PublishOne(staged: seq<string>, n: nat, ghost before: Names<T>)
      requires Lists(staged, before) && n < |staged| && Published(before, staged[..n])
      modifies this`root, this`staging
      ensures Published(before, staged[..n + 1])
    {
      NextListed(staged, before, n);
      MovedOne(before, Listed(staged[..n]), staged[n]);
      root := root[staged[n] := staging[staged[n]]];
      staging := staging - {staged[n]};
    }

    /** Moves every staged name up to the root, up to the first failure. */
    method Publish(staged: seq<string>, faults: Faults) returns (n: nat, ok: bool)
      requires Lists(staged, staging) && root == map[]
      modifies this`root, this`staging, this`calls
      ensures n <= |staged| && (ok <==> n == |staged|)
      ensures Published(old(staging), staged[..n])
      ensures ok <==> !FailsWithin(faults, old(calls), |staged|)
    {
      ghost var before := staging;
      n, ok := 0, true;
      NothingMoved(before);
      assert staged[..0] == [];
      while n < |staged|
        invariant n <= |staged| && ok && calls == old(calls) + n && !FailsWithin(faults, old(calls), n)
        invariant Published(before, staged[..n])
      {
        ok := Call(faults);
        if !ok { return; }
        PublishOne(staged, n, before);
        n := n + 1;
      }
    }

    /** Removes what was published; each removal may fail. */
    method Unpublish(published: seq<string>, faults: Faults)
      modifies this`root
      ensures root == old(root) - (Listed(published) - faults.removals)
    {
      for i := 0 to |published|
        invariant root == old(root) - (Listed(published[..i]) - faults.removals)
      {
        assert published[..i + 1] == published[..i] + [published[i]];
        if published[i] !in faults.removals { root := root - {published[i]}; }
      }
      assert published[..|published|] == published;
    }

    /** Moves the old names back, last first, over whatever is there; each rename may
        fail. */
    method Restore(moved: seq<string>, faults: Faults)
      requires backup.Some? && backup.value.Keys == Listed(moved)
      requires forall i, j | 0 <= i < j < |moved| :: moved[i] != moved[j]
      modifies this`root, this`backup
      ensures var back := old(backup).value; var restored := Listed(moved) - faults.restores;
              root == old(root) + Only(back, restored) && backup == Some(back - restored)
    {
      ghost var before, back := root, backup.value;
      var k := |moved|;
      assert moved[k..] == [] && Listed([]) - faults.restores == {};
      assert backup.value - {} == backup.value;
      while k > 0
        invariant 0 <= k <= |moved| && Restored(before, back, Listed(moved[k..]) - faults.restores)
      {
        k := k - 1;
        RestoreOne(moved, k, faults, before, back);
      }
      assert moved[0..] == moved;
    }

    ghost predicate Restored(before: Names<T>, back: Names<T>, restored: set<string>)
      reads this
    {
      root == before + Only(back, restored) && backup == Some(back - restored)
    }

    method RestoreOne(moved: seq<string>, k: nat, faults: Faults, ghost before: Names<T>, ghost back: Names<T>)
      requires k < |moved| && back.Keys == Listed(moved)
      requires forall i, j | 0 <= i < j < |moved| :: moved[i] != moved[j]
      requires Restored(before, back, Listed(moved[k + 1..]) - faults.restores)
      modifies this`root, this`backup
      ensures Restored(before, back, Listed(moved[k..]) - faults.restores)
    {
      RestoreSplit(moved, k);
      var name := moved[k];
      ghost var restored := Listed(moved[k + 1..]) - faults.restores;
      if name !in faults.restores {
        assert Listed(moved[k..]) - faults.restores == restored + {name};
        assert name in Listed(moved);
        OneMore(before, back, restored, name);
        root := root[name := backup.value[name]];
        backup := Some(backup.value - {name});
      } else {
        assert Listed(moved[k..]) - faults.restores == restored;
      }
    }

    /** The swap proper: the backup is made, the old names go there, the staged ones
        come up. `created`, `moved` and `published` say how far it came. */
    method Swap(existing: seq<string>, staged: seq<string>, faults: Faults)
      returns (created: bool, moved: seq<string>, published: seq<string>, ok: bool)
      requires Lists(existing, root) && Lists(staged, staging) && backup == None && calls == 0
      modifies this
      ensures moved <= existing && published <= staged
      ensures !created ==> !ok && root == old(root) && backup == None
      ensures created ==> backup == Some(Only(old(root), Listed(moved)))
      ensures created ==> root == if moved == existing then Only(old(staging), Listed(published))
              else old(root) - Listed(moved)
      ensures moved != existing ==> published == [] && !ok
      ensures Listed(moved) == Aside(existing, faults) && (created <==> faults.failAt != Some(0))
      ensures ok ==> created && root == old(staging) && backup == Some(old(root))
      ensures ok <==> !FailsWithin(faults, 0, 2 + |existing| + |staged|)
    {
      moved, published := [], [];
      created := Call(faults);
      if !created { return created, moved, published, false; }
      backup := Some(map[]);
      var n;
      n, ok := MoveAside(existing, faults);
      moved := existing[..n];
      if !ok { return; }
      assert root == map[] && Only(old(staging), Listed([])) == map[];
      assert Only(old(root), Listed(existing)) == old(root);
      ok := Call(faults);
      if !ok { return; }
      n, ok := Publish(staged, faults);
      published := staged[..n];
      assert Only(old(staging), Listed(staged)) == old(staging);
    }

    /** After a failed swap: the rollback, then the backup is removed if its listing
        shows it empty. A listing that fails shows nothing. */
    method Recover(moved: seq<string>, published: seq<string>, faults: Faults,
                   ghost before: Names<T>, ghost stagedTree: Names<T>, ghost existing: seq<string>)
      requires Lists(existing, before) && moved <= existing && Listed(published) <= stagedTree.Keys
      requires moved != existing ==> published == []
      requires backup == Some(Only(before, Listed(moved)))
      requires root == if moved == existing then Only(stagedTree, Listed(published)) else before - Listed(moved)
      modifies this`root, this`backup
      ensures !Loses(faults, Listed(moved)) ==> Survive(before, root, backup)
      ensures Loses(faults, Listed(moved)) && Apart(before, stagedTree) ==> !Survive(before, root, backup)
      ensures faults.removals == {} && faults.restores == {} ==> root == before && (backup == None || faults.discard)
    {
      assert forall i | 0 <= i < |moved| :: moved[i] == existing[i];
      Unpublish(published, faults);
      Restore(moved, faults);
      AfterRollBack(before, stagedTree, existing, moved, published, root, backup.value, faults);
      var remaining := if faults.listing then {} else backup.value.Keys;
      ghost var kept := backup.value;
      if remaining == {} && !faults.discard { backup := None; }
      if backup == None && kept.Keys != {} && Apart(before, stagedTree) {
        ghost var n := Pick(kept.Keys);
        assert n in before && !Holds(root, n, before[n]);
      }
    }

    /** importTreeRoot once staging is extracted. */
    method Import(existing: seq<string>, staged: seq<string>, replace: bool, faults: Faults) returns (ok: bool)
      requires Lists(existing, root) && Lists(staged, staging) && backup == None && calls == 0
      modifies this
      ensures ok <==> Swaps(existing, staged, replace, faults) && !faults.record
      // The swap publishes exactly the staged tree, even if the import then fails.
      ensures Swaps(existing, staged, replace, faults) ==>
                root == old(staging) && backup == if faults.discard then Some(old(root)) else None
      // After a failure every entry survives in the root or the backup exactly when the
      // backup is not removed with entries still in it.
      ensures !ok && !Drops(existing, staged, replace, faults) ==> Survive(old(root), root, backup)
      ensures !ok && Drops(existing, staged, replace, faults) && Apart(old(root), old(staging)) ==>
                !Survive(old(root), root, backup)
      // When every call of the rollback succeeds, the root is as it was.
      ensures !Swaps(existing, staged, replace, faults) && faults.removals == {} && faults.restores == {} ==>
                root == old(root) && (backup == None || faults.discard)
    {
      assert old(root) == map[] <==> existing == [] by {
        if existing != [] { assert existing[0] in Listed(existing); }
      }
      if |existing| > 0 && !replace {
        assert existing[0] in Listed(existing);
        return false;
      }
      ghost var before, stagedTree := root, staging;
      var created, movedToBackup, published;
      created, movedToBackup, published, ok := Swap(existing, staged, faults);
      assert forall i | 0 <= i < |movedToBackup| :: movedToBackup[i] == existing[i];
      assert forall i | 0 <= i < |published| :: published[i] == staged[i];
      if ok {
        if !faults.discard { backup := None; }
        if existing != [] { assert existing[0] in before; }
        return !faults.record;
      }
      if created { Recover(movedToBackup, published, faults, before, stagedTree, existing); }
      staging := map[];
    }
  }

  /** What the swap has moved aside before its failing call: call 0 makes the backup,
      the next |existing| move one name each. */
  function Aside(existing: seq<string>, faults: Faults): set<string> {
    match faults.failAt
    case None => Listed(existing)
    case Some(k) =>
      if k == 0 then {} else if k <= |existing| then Listed(existing[..k - 1]) else Listed(existing)
  }

  /** A restoring rename failed, the backup could not be listed, and its removal went
      through. */
  predicate Loses(faults: Faults, moved: set<string>) {
    faults.listing && !faults.discard && moved * faults.restores != {}
  }

  /** The swap goes through. */
  predicate Swaps(existing: seq<string>, staged: seq<string>, replace: bool, faults: Faults) {
    (existing == [] || replace) && !FailsWithin(faults, 0, 2 + |existing| + |staged|)
  }

  /** Entries are lost: by a rollback, or because after the swap, with the backup
      removed, the journal entry fails. */
  predicate Drops(existing: seq<string>, staged: seq<string>, replace: bool, faults: Faults) {
    if Swaps(existing, staged, replace, faults) then existing != [] && faults.record && !faults.discard
    else replace && Loses(faults, Aside(existing, faults))
  }

  /** No staged object is one of the old ones. */
  ghost predicate Apart<T>(before: Names<T>, staging: Names<T>) {
    forall n, m | n in before && m in staging :: before[n] != staging[m]
  }

  /** Each entry is still at the root, or kept in the hidden backup. */
  ghost predicate Survive<T>(before: Names<T>, root: Names<T>, backup: Option<Names<T>>) {
    forall n | n in before :: Holds(root, n, before[n]) || (backup.Some? && Holds(backup.value, n, before[n]))
  }

  /** One name at the root, one staged: publishing fails, so does restoring, and the
      backup that still holds the name is listed as empty and removed. */
  method OneLoss<T>(x: T, y: T) returns (root: Names<T>, backup: Option<Names<T>>)
    requires x != y
    ensures !Survive(map["a" := x], root, backup)
  {
    var importer := new RootImporter(map["a" := x], map["b" := y]);
    var faults := Faults(Some(3), {}, {"a"}, true, false, false);
    assert Aside(["a"], faults) == {"a"};
    assert "a" in Aside(["a"], faults) * faults.restores;
    var ok := importer.Import(["a"], ["b"], true, faults);
    root, backup := importer.root, importer.backup;
  }

  /** Every call on the volume succeeds and the journal entry fails: the import reports
      a failure, and the old tree is gone for the new one. */
  method UnrecordedLoss<T>(x: T, y: T) returns (ok: bool, root: Names<T>, backup: Option<Names<T>>)
    requires x != y
    ensures !ok && root == map["b" := y] && backup == None && !Survive(map["a" := x], root, backup)
  {
    var importer := new RootImporter(map["a" := x], map["b" := y]);
    ok := importer.Import(["a"], ["b"], true, Faults(None, {}, {}, false, false, true));
    root, backup := importer.root, importer.backup;
  }

  /** Where the entries are after the rollback: exactly those whose restoring rename
      failed are in the backup. */
  lemma AfterRollBack<T>(before: Names<T>, staging: Names<T>, existing: seq<string>, moved: seq<string>,
                         published: seq<string>, root: Names<T>, backup: Names<T>, faults: Faults)
    requires Listed(existing) == before.Keys && moved <= existing && Listed(published) <= staging.Keys
    requires moved != existing ==> published == []
    requires backup == Only(before, Listed(moved)) - (Listed(moved) - faults.restores)
    requires root == (if moved == existing then Only(staging, Listed(published)) else before - Listed(moved))
                     - (Listed(published) - faults.removals)
                     + Only(Only(before, Listed(moved)), Listed(moved) - faults.restores)
    ensures backup.Keys == Listed(moved) * faults.restores && forall n | n in backup :: backup[n] == before[n]
    ensures forall n | n in before && n !in backup :: Holds(root, n, before[n])
    ensures Apart(before, staging) ==> forall n | n in backup :: !Holds(root, n, before[n])
    ensures faults.removals == {} && faults.restores == {} ==> root == before
  {
  }

  /** The part of a directory with these names. */
  function Only<T>(dir: Names<T>, names: set<string>): Names<T> { dir - (dir.Keys - names) }

  lemma OneMore<T>(root: Names<T>, back: Names<T>, restored: set<string>, name: string)
    requires name in back && name !in restored
    ensures root + Only(back, restored + {name}) == (root + Only(back, restored))[name := back[name]]
    ensures back - (restored + {name}) == (back - restored) - {name}
  {
  }

  lemma NothingMoved<T>(dir: Names<T>)
    ensures Listed([]) == {} && dir - Listed([]) == dir && Only(dir, Listed([])) == map[]
  {
  }

  lemma MovedOne<T>(dir: Names<T>, gone: set<string>, name: string)
    requires name in dir && name !in gone
    ensures name in dir - gone && (dir - gone)[name] == dir[name]
    ensures (dir - gone) - {name} == dir - (gone + {name})
    ensures Only(dir, gone)[name := dir[name]] == Only(dir, gone + {name})
  {
  }

  lemma NextListed<T>(names: seq<string>, dir: Names<T>, n: nat)
    requires Lists(names, dir) && n < |names|
    ensures Listed(names[..n + 1]) == Listed(names[..n]) + {names[n]}
    ensures names[n] !in Listed(names[..n]) && names[n] in dir
  {
    RestoreSplit(names, n);
    assert names[n] in Listed(names);
  }

  lemma RestoreSplit(moved: seq<string>, k: nat)
    requires k < |moved| && forall i, j | 0 <= i < j < |moved| :: moved[i] != moved[j]
    ensures Listed(moved[..k + 1]) == Listed(moved[..k]) + {moved[k]}
    ensures Listed(moved[k..]) == Listed(moved[k + 1..]) + {moved[k]}
    ensures moved[k] !in Listed(moved[..k]) && moved[k] !in Listed(moved[k + 1..])
  {
    assert moved[..k + 1] == moved[..k] + [moved[k]];
    assert moved[k..] == [moved[k]] + moved[k + 1..];
  }

  // --- Below the root ------------------------------------------------------------------

  datatype SwapFaults = SwapFaults(aside: bool, publish: bool, restore: bool, record: bool, discard: bool)

  /** One target directory with its two hidden siblings. */
  class DirectoryImporter<T> {
    var target: Option<T>
    var staging: Option<T>
    var backup: Option<T>

    constructor (target: Option<T>, staging: T)
      ensures this.target == target && this.staging == Some(staging) && backup == None
    {
      this.target, this.staging, backup := target, Some(staging), None;
    }

    /** importTree once staging is extracted. */
    method Import(replace: bool, faults: SwapFaults) returns (ok: bool)
      requires staging.Some? && backup == None
      modifies this
      ensures ok <==> (old(target) == None || (replace && !faults.aside)) && !faults.publish && !faults.record
      ensures ok ==> target == old(staging) && backup == if faults.discard then old(target) else None
      // The old tree is in place or in the backup, whatever fails.
      ensures !ok ==> target == old(target) || backup == old(target)
      // It is in place unless its own restoring, or only the journal entry, failed.
      ensures !ok && !faults.restore
              && !(faults.record && !faults.publish && (old(target) == None || (replace && !faults.aside))) ==>
                target == old(target) && backup == None
      ensures !ok ==> staging == None
    {
      var existed := target.Some?;
      if existed && (!replace || faults.aside) {
        staging := None;
        return false;
      }
      if existed { target, backup := None, target; }
      if faults.publish {
        if existed && !faults.restore { target, backup := backup, None; }
        staging := None;
        return false;
      }
      target, staging := staging, None;
      if faults.record { return false; }
      if !faults.discard { backup := None; }
      return true;
    }
  }
}
