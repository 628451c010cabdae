/** What snapshots and clones keep over every run of controller operations, whichever calls fail. */
module SnapshotSafety {
  import opened Basics
  import opened ZfsPool

  function Run(p: Pool, ops: seq<Op>): Pool
    decreases |ops|
  {
    if ops == [] then p else Run(Apply(p, ops[0]), ops[1..])
  }

  predicate AllLegal(p: Pool, ops: seq<Op>)
    decreases |ops|
  {
    ops == [] || (Legal(p, ops[0]) && AllLegal(Apply(p, ops[0]), ops[1..]))
  }

  lemma {:induction false} RunAppend(p: Pool, a: seq<Op>, b: seq<Op>)
    ensures Run(p, a + b) == Run(Run(p, a), b)
    ensures AllLegal(p, a + b) <==> AllLegal(p, a) && AllLegal(Run(p, a), b)
    decreases |a|
  {
    if a == [] {
      assert a + b == b;
    } else {
      assert (a + b)[1..] == a[1..] + b;
      RunAppend(Apply(p, a[0]), a[1..], b);
    }
  }

  // ---------- every operation keeps every link ----------

  lemma FreshIsChildless(p: Pool, id: SnapId, d: string)
    requires Intact(p) && d !in p.datasets
    ensures Childless(AddClone(p, id, d), d)
  {
    forall e | e in p.datasets && p.datasets[e].origin.Some? ensures p.datasets[e].origin.value.dataset != d {
      assert OriginIntact(p, e);
    }
    assert id in p.snapshots ==> id.dataset in p.datasets;
  }

  lemma RestoreKeeps(p: Pool, op: Op)
    requires Intact(p) && op.RestoreSnapshot? && Legal(p, op)
    ensures Intact(Apply(p, op))
  {
    if op.id in p.snapshots { AddDatasetKeeps(p, op.d, Some(op.id)); }
    if op.d !in p.datasets {
      FreshIsChildless(p, op.id, op.d);
      DropDatasetKeeps(AddClone(p, op.id, op.d), op.d);
    }
  }

  // the three calls that make a clone and give up its private snapshot
  function Chain(p: Pool, id: SnapId, d: string, clone: Call, drop: Call): Pool {
    var c := Cloned(p, id, d, clone);
    When(drop, DropSnapshot(c, id), c)
  }

  lemma ChainKeeps(p: Pool, id: SnapId, d: string, clone: Call, drop: Call)
    requires Intact(p) && id in p.snapshots && Protected(id, p.snapshots[id])
    ensures Intact(Chain(p, id, d, clone, drop))
    ensures d !in p.datasets ==> Childless(Chain(p, id, d, clone, drop), d)
  {
    AddDatasetKeeps(p, d, Some(id));
    DropSnapshotKeeps(Cloned(p, id, d, clone), id);
    if d !in p.datasets {
      FreshIsChildless(p, id, d);
      assert Childless(p, d) by { FreshIsChildless(p, id, d); }
    }
  }

  lemma CloneVolumeKeeps(p: Pool, op: Op)
    requires Intact(p) && op.CloneVolume?
    ensures Intact(Apply(p, op))
  {
    var id := CloneSnapId(op.source, op.stamp);
    AddSnapshotKeeps(p, id, Managed);
    var s := When(op.snap, AddSnapshot(p, id, Managed), p);
    if op.source in p.datasets && op.snap.Works? && id !in p.snapshots {
      ChainKeeps(s, id, op.d, op.clone, op.drop);
      if op.d !in s.datasets {
        DropDatasetKeeps(Chain(s, id, op.d, op.clone, op.drop), op.d);
      }
    }
  }

  lemma OpKeeps(p: Pool, op: Op)
    requires Intact(p) && Legal(p, op)
    ensures Intact(Apply(p, op))
  {
    match op
    case CreateVolume(d, call) => AddDatasetKeeps(p, d, None);
    case CreateSnapshot(d, name, found, call) => AddSnapshotKeeps(p, SnapId(d, name), Managed);
    case RestoreSnapshot(_, _, _, _, _, _) => RestoreKeeps(p, op);
    case CloneVolume(_, _, _, _, _, _, _, _, _) => CloneVolumeKeeps(p, op);
    case DeleteSnapshot(id, call) => DropSnapshotKeeps(p, id);
    case DeleteVolume(d, list, call) => if !Guarded(p, d) { UnguardedIsChildless(p, d); DropDatasetKeeps(p, d); }
    case ForeignCreate(id, owner) => AddSnapshotKeeps(p, id, owner);
    case ForeignDelete(id) => DropSnapshotKeeps(p, id);
  }

  /** In every run every live clone keeps its origin snapshot and the dataset that snapshot is of. */
  lemma {:induction false} ClonesKeepTheirOrigin(p: Pool, ops: seq<Op>, d: string)
    requires Intact(p) && AllLegal(p, ops) && d in Run(p, ops).datasets
    ensures Intact(Run(p, ops))
    ensures var q := Run(p, ops);
            var origin := q.datasets[d].origin;
            origin.Some? ==> origin.value in q.snapshots && origin.value.dataset in q.datasets
    decreases |ops|
  {
    RunKeeps(p, ops);
    assert OriginIntact(Run(p, ops), d);
  }

  lemma {:induction false} RunKeeps(p: Pool, ops: seq<Op>)
    requires Intact(p) && AllLegal(p, ops)
    ensures Intact(Run(p, ops))
    decreases |ops|
  {
    if ops != [] {
      OpKeeps(p, ops[0]);
      RunKeeps(Apply(p, ops[0]), ops[1..]);
    }
  }

  // ---------- returned snapshots ----------

  // kept from going with its volume, and not waiting to be destroyed
  predicate Safe(p: Pool, id: SnapId) {
    id in p.snapshots && Protected(id, p.snapshots[id]) && !p.snapshots[id].deferred
  }

  predicate Spares(op: Op, id: SnapId) { !(op.DeleteSnapshot? && op.id == id) }

  lemma DropDatasetSpares(p: Pool, d: string, id: SnapId)
    requires Safe(p, id) && id.dataset != d
    ensures Safe(DropDataset(p, d), id)
  {
  }

  lemma CloneVolumeSpares(p: Pool, op: Op, id: SnapId)
    requires Intact(p) && Safe(p, id) && op.CloneVolume?
    ensures Safe(Apply(p, op), id)
  {
    var own := CloneSnapId(op.source, op.stamp);
    var s := When(op.snap, AddSnapshot(p, own, Managed), p);
    if op.source in p.datasets && op.snap.Works? && own !in p.snapshots && op.d !in s.datasets {
      var r := Chain(s, own, op.d, op.clone, op.drop);
      assert Safe(r, id);
      DropDatasetSpares(r, op.d, id);
    }
  }

  lemma OpSpares(p: Pool, op: Op, id: SnapId)
    requires Intact(p) && Legal(p, op) && Safe(p, id) && Spares(op, id)
    ensures Safe(Apply(p, op), id)
  {
    match op
    case CloneVolume(_, _, _, _, _, _, _, _, _) => CloneVolumeSpares(p, op, id);
    case RestoreSnapshot(from, d, _, _, _, _) =>
      if d !in p.datasets { DropDatasetSpares(AddClone(p, from, d), d, id); }
    case DeleteVolume(d, _, _) => if d != id.dataset { DropDatasetSpares(p, d, id); }
    case _ =>
  }

  lemma {:induction false} SafeStaysSafe(p: Pool, ops: seq<Op>, id: SnapId)
    requires Intact(p) && AllLegal(p, ops) && Safe(p, id)
    requires forall i :: 0 <= i < |ops| ==> Spares(ops[i], id)
    ensures Safe(Run(p, ops), id)
    decreases |ops|
  {
    if ops != [] {
      OpKeeps(p, ops[0]);
      OpSpares(p, ops[0], id);
      SafeStaysSafe(Apply(p, ops[0]), ops[1..], id);
    }
  }

  // whatever happens next, the snapshot is there until it is deleted itself
  ghost predicate Survives(p: Pool, id: SnapId) {
    forall ops :: AllLegal(p, ops) && (forall i :: 0 <= i < |ops| ==> Spares(ops[i], id)) ==>
                    id in Run(p, ops).snapshots
  }

  // ---------- the other direction: a run that loses an unsafe snapshot ----------

  // deleting, one by one, the snapshots of a dataset that nothing was cloned from
  lemma {:induction false} ClearSnapshots(p: Pool, d: string, keep: SnapId, todo: set<SnapId>) returns (ops: seq<Op>)
    requires Childless(p, d) && keep !in todo
    requires forall id :: id in todo ==> id.dataset == d && id in p.snapshots
    ensures AllLegal(p, ops) && forall i :: 0 <= i < |ops| ==> Spares(ops[i], keep)
    ensures Run(p, ops) == p.(snapshots := p.snapshots - todo)
    decreases todo
  {
    ops := [];
    if todo == {} {
      assert p.snapshots - todo == p.snapshots;
    } else {
      var id :| id in todo;
      var op := DeleteSnapshot(id, Works);
      var q := Apply(p, op);
      assert !HasClone(p.datasets, id);
      assert q == p.(snapshots := p.snapshots - {id});
      var rest := ClearSnapshots(q, d, keep, todo - {id});
      ops := [op] + rest;
      assert ops[1..] == rest;
      assert p.snapshots - {id} - (todo - {id}) == p.snapshots - todo;
    }
  }

  // deleting a dataset that nothing was cloned from, with every snapshot it has but one that is not protected
  lemma RemoveDataset(p: Pool, d: string, keep: SnapId) returns (ops: seq<Op>)
    requires Intact(p) && Childless(p, d) && d in p.datasets
    requires keep in p.snapshots && keep.dataset == d ==> !Protected(keep, p.snapshots[keep])
    ensures AllLegal(p, ops) && forall i :: 0 <= i < |ops| ==> Spares(ops[i], keep)
    ensures Run(p, ops).datasets == p.datasets - {d} && Run(p, ops).snapshots.Keys <= p.snapshots.Keys
    ensures forall id :: id in Run(p, ops).snapshots ==> id.dataset != d && Run(p, ops).snapshots[id] == p.snapshots[id]
  {
    var todo := set id | id in p.snapshots && id.dataset == d && id != keep;
    var clear := ClearSnapshots(p, d, keep, todo);
    var q := Run(p, clear);
    var op := DeleteVolume(d, true, Works);
    ops := clear + [op];
    RunAppend(p, clear, [op]);
    assert !Guarded(q, d);
    assert Run(Apply(q, op), []) == Apply(q, op);
    assert [op][1..] == [];
    assert Run(q, [op]) == DropDataset(q, d);
  }

  ghost predicate Newest(p: Pool, d: string) {
    d in p.datasets && forall e :: e in p.datasets ==> p.datasets[e].birth <= p.datasets[d].birth
  }

  lemma {:induction false} FindNewest(p: Pool, names: set<string>) returns (d: string)
    requires names <= p.datasets.Keys && names != {}
    ensures d in names && forall e :: e in names ==> p.datasets[e].birth <= p.datasets[d].birth
    decreases names
  {
    d :| d in names;
    if names != {d} {
      var e := FindNewest(p, names - {d});
      if p.datasets[e].birth > p.datasets[d].birth { d := e; }
    }
  }

  lemma NewestIsChildless(p: Pool, d: string)
    requires Intact(p) && Newest(p, d)
    ensures Childless(p, d)
  {
    forall e | e in p.datasets && p.datasets[e].origin.Some? ensures p.datasets[e].origin.value.dataset != d {
      assert OriginIntact(p, e);
    }
  }

  // deleting, newest first, every dataset younger than that of `keep`
  lemma {:induction false} RemoveYounger(p: Pool, keep: SnapId) returns (ops: seq<Op>)
    requires Intact(p) && keep.dataset in p.datasets
    ensures AllLegal(p, ops) && forall i :: 0 <= i < |ops| ==> Spares(ops[i], keep)
    ensures var q := Run(p, ops);
            && Intact(q) && keep.dataset in q.datasets
            && (keep in q.snapshots ==> keep in p.snapshots && q.snapshots[keep] == p.snapshots[keep])
            && Newest(q, keep.dataset)
    decreases p.datasets.Keys
  {
    ops := [];
    var d := FindNewest(p, p.datasets.Keys);
    if p.datasets[d].birth > p.datasets[keep.dataset].birth {
      NewestIsChildless(p, d);
      var first := RemoveDataset(p, d, keep);
      var q := Run(p, first);
      RunKeeps(p, first);
      assert q.datasets.Keys < p.datasets.Keys by { assert d in p.datasets.Keys && d !in q.datasets.Keys; }
      var rest := RemoveYounger(q, keep);
      ops := first + rest;
      RunAppend(p, first, rest);
    }
  }

  lemma UnsafeCanVanish(p: Pool, id: SnapId) returns (ops: seq<Op>)
    requires Intact(p) && id in p.snapshots && !Safe(p, id)
    ensures AllLegal(p, ops) && forall i :: 0 <= i < |ops| ==> Spares(ops[i], id)
    ensures id !in Run(p, ops).snapshots
  {
    ops := RemoveYounger(p, id);
    var q := Run(p, ops);
    NewestIsChildless(q, id.dataset);
    assert id in q.snapshots && q.snapshots[id].deferred ==> HasClone(q.datasets, id);
    if id in q.snapshots {
      var last := RemoveDataset(q, id.dataset, id);
      RunAppend(p, ops, last);
      ops := ops + last;
    }
  }

  /**
   A snapshot outlives everything but its own DeleteSnapshot exactly when it is protected and
   not already waiting to be destroyed.
   */
  lemma SurvivesExactlyWhenSafe(p: Pool, id: SnapId)
    requires Intact(p) && id in p.snapshots
    ensures Survives(p, id) <==> Safe(p, id)
  {
    if Safe(p, id) {
      forall ops | AllLegal(p, ops) && (forall i :: 0 <= i < |ops| ==> Spares(ops[i], id))
        ensures id in Run(p, ops).snapshots
      {
        SafeStaysSafe(p, ops, id);
      }
    } else {
      var ops := UnsafeCanVanish(p, id);
      assert AllLegal(p, ops) && id !in Run(p, ops).snapshots;
    }
  }

  /**
   A snapshot that CreateSnapshot returns survives until its own DeleteSnapshot whenever it was
   created by that call; one that the call merely found does so exactly when it is safe.
   */
  lemma ReturnedSnapshotSurvives(p: Pool, op: Op)
    requires Intact(p) && op.CreateSnapshot? && Legal(p, op) && Returned(p, op).Some?
    ensures var id := Returned(p, op).value;
            Survives(Apply(p, op), id) <==> op.found.None? || Safe(p, id)
  {
    var id := Returned(p, op).value;
    OpKeeps(p, op);
    SurvivesExactlyWhenSafe(Apply(p, op), id);
  }

  /**
   The exception is reachable by the driver's own operations: a snapshot is deleted while a
   volume restored from it exists, created again under its name, found and returned, and
   disappears with that volume.
   */
  lemma FoundSnapshotCanVanish(a: string, b: string, name: string)
    requires a != b
    ensures var p := Pool(map[], map[], 0);
            var id := SnapId(a, name);
            var before := [CreateVolume(a, Works), CreateSnapshot(a, name, None, Works),
                           RestoreSnapshot(id, b, true, Works, false, Works), DeleteSnapshot(id, Works)];
            var again, delete := CreateSnapshot(a, name, Some(id), Works), DeleteVolume(b, true, Works);
            var q := Run(p, before);
            && Intact(p) && AllLegal(p, before) && Legal(q, again)
            && Returned(q, again) == Some(id)
            && id !in Apply(Apply(q, again), delete).snapshots
  {
    var id := SnapId(a, name);
    var ops := [CreateVolume(a, Works), CreateSnapshot(a, name, None, Works),
                RestoreSnapshot(id, b, true, Works, false, Works), DeleteSnapshot(id, Works)];
    var p1 := Pool(map[a := Dataset(0, None)], map[], 1);
    var p2 := Pool(p1.datasets, map[id := Snap(Managed, false)], 1);
    var p3 := Pool(p1.datasets[b := Dataset(1, Some(id))], p2.snapshots, 2);
    var p4 := Pool(p3.datasets, map[id := Snap(Managed, true)], 2);
    assert p3.datasets[b].origin == Some(id);
    assert Apply(p3, ops[3]) == p4;
    FourSteps(Pool(map[], map[], 0), p1, p2, p3, p4, ops);
    assert GoesWith(p4, b, id);
  }

  lemma FourSteps(p0: Pool, p1: Pool, p2: Pool, p3: Pool, p4: Pool, ops: seq<Op>)
    requires |ops| == 4 && Legal(p0, ops[0]) && Legal(p1, ops[1]) && Legal(p2, ops[2]) && Legal(p3, ops[3])
    requires Apply(p0, ops[0]) == p1 && Apply(p1, ops[1]) == p2 && Apply(p2, ops[2]) == p3 && Apply(p3, ops[3]) == p4
    ensures AllLegal(p0, ops) && Run(p0, ops) == p4
  {
    assert ops == [ops[0]] + ([ops[1]] + ([ops[2]] + [ops[3]]));
    OneStep(p0, ops[0]);
    OneStep(p1, ops[1]);
    OneStep(p2, ops[2]);
    OneStep(p3, ops[3]);
    RunAppend(p2, [ops[2]], [ops[3]]);
    RunAppend(p1, [ops[1]], [ops[2]] + [ops[3]]);
    RunAppend(p0, [ops[0]], [ops[1]] + ([ops[2]] + [ops[3]]));
  }

  lemma OneStep(p: Pool, op: Op)
    ensures Run(p, [op]) == Apply(p, op) && (AllLegal(p, [op]) <==> Legal(p, op))
  {
    assert [op][1..] == [];
    assert AllLegal(Apply(p, op), []);
  }
}
