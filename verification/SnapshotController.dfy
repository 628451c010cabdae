/**
 The controller's volume and snapshot operations, call by call, against the storage server's
 tables. How each call ends is decided by the environment and therefore a parameter.
 */
module SnapshotController {
  import opened Basics
  import opened ZfsPool

  class Controller {
    var datasets: map<string, Dataset>
    var snapshots: map<SnapId, Snap>
    var nextBirth: nat

    function Value(): (p: Pool)
      reads this
    {
      Pool(datasets, snapshots, nextBirth)
    }

    constructor ()
      ensures Value() == Pool(map[], map[], 0)
    {
      datasets, snapshots, nextBirth := map[], map[], 0;
    }

    // ---------- calls ----------

    method Store(p: Pool)
      modifies this
      ensures Value() == p
    {
      datasets, snapshots, nextBirth := p.datasets, p.snapshots, p.nextBirth;
    }

    method CallCreateSnapshot(id: SnapId, owner: Property, call: Call) returns (ok: bool)
      modifies this
      ensures Value() == When(call, AddSnapshot(old(Value()), id, owner), old(Value()))
      ensures ok <==> call.Works? && id !in old(snapshots) && id.dataset in old(datasets)
    {
      ok := call.Works? && id !in snapshots && id.dataset in datasets;
      if !call.Fails? && id !in snapshots && id.dataset in datasets {
        snapshots := snapshots[id := Snap(owner, false)];
      }
    }

    method CallClone(id: SnapId, d: string, call: Call) returns (ok: bool)
      modifies this
      ensures Value() == Cloned(old(Value()), id, d, call) && ok == CloneOk(old(Value()), id, d, call)
    {
      ok := call.Works? && id in snapshots && d !in datasets;
      if !call.Fails? && id in snapshots && d !in datasets {
        datasets := datasets[d := Dataset(nextBirth, Some(id))];
        nextBirth := nextBirth + 1;
      }
    }

    method CallDeleteSnapshot(id: SnapId, call: Call) returns (ok: bool)
      modifies this
      ensures Value() == When(call, DropSnapshot(old(Value()), id), old(Value()))
      ensures ok <==> call.Works?
    {
      ok := call.Works?;
      if !call.Fails? {
        Store(DropSnapshot(Value(), id));
      }
    }

    method CallDeleteDataset(d: string, call: Call) returns (ok: bool)
      modifies this
      ensures Value() == When(call, DropDataset(old(Value()), d), old(Value()))
      ensures ok <==> call.Works?
    {
      ok := call.Works?;
      if !call.Fails? {
        Store(DropDataset(Value(), d));
      }
    }

    method CallListSnapshots(d: string) returns (list: seq<Listing>)
      ensures forall l :: l in list <==>
                exists id :: id in snapshots && id.dataset == d && l == ListingOf(id, snapshots[id])
    {
      var rest := snapshots.Keys;
      list := [];
      while rest != {}
        invariant rest <= snapshots.Keys
        invariant forall l :: l in list <==>
                    exists id :: id in snapshots.Keys - rest && id.dataset == d && l == ListingOf(id, snapshots[id])
      {
        var id :| id in rest;
        ghost var before := list;
        if id.dataset == d {
          list := list + [ListingOf(id, snapshots[id])];
        }
        forall l ensures l in list <==>
                   exists i :: i in snapshots.Keys - (rest - {id}) && i.dataset == d && l == ListingOf(i, snapshots[i])
        {
          assert l in list <==> l in before || (id.dataset == d && l == ListingOf(id, snapshots[id]));
        }
        rest := rest - {id};
      }
    }

    method CallFindSnapshotByName(name: string) returns (found: Option<SnapId>)
      ensures found.Some? ==> found.value in snapshots && found.value.name == name
      ensures found.None? ==> forall id :: id in snapshots ==> id.name != name
    {
      found := None;
      if exists id | id in snapshots :: id.name == name {
        var id :| id in snapshots && id.name == name;
        found := Some(id);
      }
    }

    // ---------- operations ----------

    /** CreateSnapshot; `search` says whether the search for the name works, and a failure of it is ignored. */
    method CreateSnapshot(d: string, name: string, search: bool, call: Call) returns (r: Option<SnapId>, ghost op: Op)
      modifies this
      ensures op.CreateSnapshot? && op == ZfsPool.CreateSnapshot(d, name, op.found, call) && Legal(old(Value()), op)
      ensures d in old(datasets) && op.found.None? ==> !search || forall id :: id in old(snapshots) ==> id.name != name
      ensures Value() == Apply(old(Value()), op) && r == Returned(old(Value()), op)
    {
      op := ZfsPool.CreateSnapshot(d, name, None, call);
      if d !in datasets {
        return None, op;
      }
      var id, found := SnapId(d, name), None;
      if search {
        found := CallFindSnapshotByName(name);
      }
      op := ZfsPool.CreateSnapshot(d, name, found, call);
      if found.Some? {
        return if found.value == id then Some(id) else None, op;
      }
      var ok := CallCreateSnapshot(id, Managed, call);
      r := if ok then Some(id) else None;
    }

    /**
     Restoring a volume. Setting the description or exporting the volume may fail (`abort`), and
     then the clone is deleted again; resizing may fail too (`!resized`), and then it is left.
     */
    method RestoreSnapshot(id: SnapId, d: string, probe: bool, clone: Call, abort: bool, resized: bool, undo: Call)
      returns (ok: bool)
      modifies this
      ensures Value() == Apply(old(Value()), ZfsPool.RestoreSnapshot(id, d, probe, clone, abort, undo))
      ensures ok <==> (probe && d in old(datasets)) || (CloneOk(old(Value()), id, d, clone) && !abort && resized)
      ensures ok ==> d in datasets
    {
      if probe && d in datasets {
        return true;
      }
      ok := CallClone(id, d, clone);
      if !ok {
        return;
      }
      ok := FinishClone(d, abort, resized, undo);
    }

    method FinishClone(d: string, abort: bool, resized: bool, undo: Call) returns (ok: bool)
      modifies this
      ensures Value() == Undone(old(Value()), d, abort, undo)
      ensures ok <==> !abort && resized
    {
      if abort {
        var _ := CallDeleteDataset(d, undo);
      }
      ok := !abort && resized;
    }

    /** Cloning a volume through a private managed snapshot, which is given up whether or not the clone succeeds. */
    method CloneVolume(source: string, stamp: string, d: string, probe: bool,
                       snap: Call, clone: Call, drop: Call, abort: bool, resized: bool, undo: Call)
      returns (ok: bool)
      modifies this
      ensures Value() ==
              Apply(old(Value()), ZfsPool.CloneVolume(source, stamp, d, probe, snap, clone, drop, abort, undo))
      ensures ok ==> d in datasets
      ensures !ok ==> !(probe && d in old(datasets)) &&
                      !(d !in old(datasets) && source in old(datasets) && CloneSnapId(source, stamp) !in old(snapshots)
                        && snap.Works? && clone.Works? && !abort && resized)
    {
      if probe && d in datasets {
        return true;
      }
      if source !in datasets {
        return false;
      }
      var id := CloneSnapId(source, stamp);
      ok := CallCreateSnapshot(id, Managed, snap);
      if !ok {
        return;
      }
      ok := CallClone(id, d, clone);
      var _ := CallDeleteSnapshot(id, drop);
      if !ok {
        return;
      }
      ok := FinishClone(d, abort, resized, undo);
    }

    method DeleteSnapshot(id: SnapId, call: Call) returns (ok: bool)
      modifies this
      ensures Value() == Apply(old(Value()), ZfsPool.DeleteSnapshot(id, call)) && ok == call.Works?
      ensures ok ==> id !in snapshots || (HasClone(datasets, id) && snapshots[id].deferred)
    {
      ok := CallDeleteSnapshot(id, call);
    }

    /** DeleteVolume; `list` says whether the volume and its snapshots can be listed. */
    method DeleteVolume(d: string, list: bool, call: Call) returns (ok: bool)
      modifies this
      ensures Value() == Apply(old(Value()), ZfsPool.DeleteVolume(d, list, call))
      ensures ok <==> d !in old(datasets) || (list && !Guarded(old(Value()), d) && call.Works?)
      ensures ok ==> d !in datasets
      ensures Guarded(old(Value()), d) && d in old(datasets) ==> Value() == old(Value())
    {
      if d !in datasets {
        return true;
      }
      if !list {
        return false;
      }
      var snaps := CallListSnapshots(d);
      var dependent := HasSourceDependentSnapshot(snaps);
      GuardedByListing(Value(), d, snaps);
      if dependent {
        return false;
      }
      ok := CallDeleteDataset(d, call);
    }
  }

  lemma GuardedByListing(p: Pool, d: string, list: seq<Listing>)
    requires forall l :: l in list <==>
               exists id :: id in p.snapshots && id.dataset == d && l == ListingOf(id, p.snapshots[id])
    ensures Guarded(p, d) <==> exists i :: 0 <= i < |list| && Dependent(list[i])
  {
    if Guarded(p, d) {
      var id :| id in p.snapshots && id.dataset == d && Protected(id, p.snapshots[id]);
      assert ListingOf(id, p.snapshots[id]) in list;
    }
    if i :| 0 <= i < |list| && Dependent(list[i]) {
      assert list[i] in list;
    }
  }

  // ---------- what cloning leaves on its source ----------

  predicate LeftBehind(p: Pool, id: SnapId) {
    id in p.snapshots && !(p.snapshots[id].deferred && HasClone(p.datasets, id))
  }

  /**
   CloneVolume leaves its private snapshot behind, neither gone nor waiting for its clone to go,
   exactly when the call that creates it fails after its effect or the call that drops it fails.
   */
  lemma PrivateSnapshotLeftBehind(p: Pool, op: Op)
    requires Intact(p) && op.CloneVolume? && CloneSnapId(op.source, op.stamp) !in p.snapshots
    requires op.source in p.datasets && !(op.probe && op.d in p.datasets)
    ensures LeftBehind(Apply(p, op), CloneSnapId(op.source, op.stamp)) <==>
            op.snap.FailsLate? || (op.snap.Works? && op.drop.Fails?)
  {
    var id := CloneSnapId(op.source, op.stamp);
    var s := AddSnapshot(p, id, Managed);
    var c := Cloned(s, id, op.d, op.clone);
    assert !HasClone(p.datasets, id) by { NoCloneOfMissing(p, id); }
    if op.clone.Fails? || op.d in p.datasets {
      assert c == s;
    } else {
      assert c.datasets[op.d].origin == Some(id);
      assert c.datasets - {op.d} == p.datasets;
    }
  }

  lemma NoCloneOfMissing(p: Pool, id: SnapId)
    requires Intact(p) && id !in p.snapshots
    ensures !HasClone(p.datasets, id)
  {
    forall d | d in p.datasets ensures p.datasets[d].origin != Some(id) { assert OriginIntact(p, d); }
  }

  // cloning with every call working
  function WorkingClone(source: string, stamp: string, d: string): Op {
    CloneVolume(source, stamp, d, true, Works, Works, Works, false, Works)
  }

  // a dataset cloned from a snapshot that goes with it
  function WithDeferredClone(p: Pool, id: SnapId, d: string): Pool {
    var datasets := p.datasets[d := Dataset(p.nextBirth, Some(id))];
    Pool(datasets, p.snapshots[id := Snap(Managed, true)], p.nextBirth + 1)
  }

  lemma WorkingCloneIs(p: Pool, source: string, stamp: string, d: string)
    requires Intact(p) && source in p.datasets && d !in p.datasets && CloneSnapId(source, stamp) !in p.snapshots
    ensures var id := CloneSnapId(source, stamp);
            Apply(p, WorkingClone(source, stamp, d)) == WithDeferredClone(p, id, d)
  {
    var id := CloneSnapId(source, stamp);
    var c := AddClone(AddSnapshot(p, id, Managed), id, d);
    assert c.datasets[d].origin == Some(id);
    assert c.snapshots[id := Snap(Managed, true)] == p.snapshots[id := Snap(Managed, true)];
  }

  /** Cloning a volume and deleting the clone, with every call working, leaves the source as deletable as before. */
  lemma CloneThenDeleteUnguards(p: Pool, source: string, stamp: string, d: string)
    requires Intact(p) && source in p.datasets && d !in p.datasets && CloneSnapId(source, stamp) !in p.snapshots
    ensures var q := Apply(Apply(p, WorkingClone(source, stamp, d)), DeleteVolume(d, true, Works));
            && d !in q.datasets && q.datasets == p.datasets && q.snapshots == p.snapshots
            && (Guarded(q, source) <==> Guarded(p, source))
  {
    var id := CloneSnapId(source, stamp);
    WorkingCloneIs(p, source, stamp, d);
    DropLastClone(p, id, d);
  }

  lemma DropLastClone(p: Pool, id: SnapId, d: string)
    requires Intact(p) && id.dataset in p.datasets && d !in p.datasets && id !in p.snapshots
    ensures var c := WithDeferredClone(p, id, d);
            && !Guarded(c, d) && DropDataset(c, d).datasets == p.datasets && DropDataset(c, d).snapshots == p.snapshots
  {
    var c := WithDeferredClone(p, id, d);
    NoCloneOfMissing(p, id);
    assert c.datasets - {d} == p.datasets;
    assert forall x :: x in p.snapshots ==> x.dataset in p.datasets;
    assert GoesWith(c, d, id);
    assert DropDataset(c, d).snapshots == p.snapshots;
  }

  /** A restore that is given up, with the deletion working, leaves the datasets and snapshots as they were. */
  lemma AbortedRestoreLeavesNothing(p: Pool, op: Op)
    requires Intact(p) && op.RestoreSnapshot? && CloneOk(p, op.id, op.d, op.clone) && op.abort && !op.undo.Fails?
    ensures Apply(p, op).datasets == p.datasets && Apply(p, op).snapshots == p.snapshots
  {
    var c := AddClone(p, op.id, op.d);
    var q := DropDataset(c, op.d);
    assert c.datasets - {op.d} == p.datasets;
    assert forall x :: x in p.snapshots ==> x.dataset in p.datasets;
    assert q.snapshots == p.snapshots;
  }

  /** Deleting a snapshot that nothing was cloned from removes it and nothing else; otherwise it only waits. */
  lemma DeletedSnapshotGoesOrWaits(p: Pool, id: SnapId)
    requires id in p.snapshots
    ensures var q := Apply(p, DeleteSnapshot(id, Works));
            && q.datasets == p.datasets
            && if HasClone(p.datasets, id) then q.snapshots.Keys == p.snapshots.Keys && q.snapshots[id].deferred
               else q.snapshots == p.snapshots - {id}
  {
  }

  /** The listing of a clone's private snapshot shows the dependency by its name alone and by its ID alone. */
  lemma PrivateSnapshotIsDependent(source: string, stamp: string, name: string, owner: Property)
    ensures var id := CloneSnapId(source, stamp);
            && Dependent(Listing("", id.name, owner))
            && Dependent(Listing(id.dataset + "@" + id.name, name, owner))
  {
    var id, mark := source + "@" + CloneSnapId(source, stamp).name, "@csi-clone-";
    assert id[|source|..] == mark + stamp;
    assert Contains(id, mark);
  }
}
