/**
 Volumes, snapshots and clones on the storage server, and what each controller operation
 does to them, whichever of its calls fail. Volumes are not nested.
 */
module ZfsPool {
  import opened Basics
  import opened PathText

  datatype SnapId = SnapId(dataset: string, name: string)

  // the value of a snapshot's ownership property in the server's reply
  datatype Property = Absent | Malformed | Text(value: string)

  datatype Snap = Snap(owner: Property, deferred: bool)

  // `birth` orders datasets by creation; a clone has an origin snapshot
  datatype Dataset = Dataset(birth: nat, origin: Option<SnapId>)

  datatype Pool = Pool(datasets: map<string, Dataset>, snapshots: map<SnapId, Snap>, nextBirth: nat)

  const Managed := Text("true")

  // ---------- what a snapshot listing says about dependants ----------

  datatype Listing = Listing(id: string, name: string, owner: Property)

  predicate Contains(s: string, t: string) { exists i | 0 <= i <= |s| :: HasPrefix(s[i..], t) }

  predicate Dependent(l: Listing) {
    HasPrefix(l.name, "csi-clone-") || Contains(l.id, "@csi-clone-") || l.owner == Managed
  }

  method HasSourceDependentSnapshot(listing: seq<Listing>) returns (found: bool)
    ensures found <==> exists i :: 0 <= i < |listing| && Dependent(listing[i])
  {
    for k := 0 to |listing|
      invariant forall i :: 0 <= i < k ==> !Dependent(listing[i])
    {
      if HasPrefix(listing[k].name, "csi-clone-") || Contains(listing[k].id, "@csi-clone-") {
        return true;
      }
      if !listing[k].owner.Text? {
        continue;
      }
      if listing[k].owner.value == "true" {
        return true;
      }
    }
    found := false;
  }

  function ListingOf(id: SnapId, s: Snap): Listing {
    Listing(id.dataset + "@" + id.name, id.name, s.owner)
  }

  // the snapshot keeps its volume from being deleted
  predicate Protected(id: SnapId, s: Snap) { Dependent(ListingOf(id, s)) }

  predicate Guarded(p: Pool, dataset: string) {
    exists id | id in p.snapshots :: id.dataset == dataset && Protected(id, p.snapshots[id])
  }

  // ---------- calls ----------

  predicate HasClone(datasets: map<string, Dataset>, id: SnapId) {
    exists d | d in datasets :: datasets[d].origin == Some(id)
  }

  function AddDataset(p: Pool, d: string, origin: Option<SnapId>): Pool {
    if d in p.datasets then p
    else p.(datasets := p.datasets[d := Dataset(p.nextBirth, origin)], nextBirth := p.nextBirth + 1)
  }

  function AddSnapshot(p: Pool, id: SnapId, owner: Property): Pool {
    if id in p.snapshots || id.dataset !in p.datasets then p
    else p.(snapshots := p.snapshots[id := Snap(owner, false)])
  }

  function AddClone(p: Pool, id: SnapId, d: string): Pool {
    if id !in p.snapshots then p else AddDataset(p, d, Some(id))
  }

  // deferred destroy: a snapshot with clones stays, to go with its last clone
  function DropSnapshot(p: Pool, id: SnapId): Pool {
    if id !in p.snapshots then p
    else if HasClone(p.datasets, id) then p.(snapshots := p.snapshots[id := p.snapshots[id].(deferred := true)])
    else p.(snapshots := p.snapshots - {id})
  }

  predicate GoesWith(p: Pool, d: string, id: SnapId)
    requires d in p.datasets && id in p.snapshots
  {
    || id.dataset == d
    || (p.datasets[d].origin == Some(id) && p.snapshots[id].deferred && !HasClone(p.datasets - {d}, id))
  }

  // a dataset with its snapshots, and the deferred origin it was the last clone of
  function DropDataset(p: Pool, d: string): Pool {
    if d !in p.datasets then p
    else p.(datasets := p.datasets - {d},
            snapshots := map id | id in p.snapshots && !GoesWith(p, d, id) :: p.snapshots[id])
  }

  // ---------- operations ----------

  datatype Op =
    | CreateVolume(d: string, call: Call)
    // `found` is what the search for the name returned, None also when the search failed
    | CreateSnapshot(d: string, name: string, found: Option<SnapId>, call: Call)
    // a later step of the operation may fail, and `undo` removes the clone again
    | RestoreSnapshot(id: SnapId, d: string, probe: bool, clone: Call, abort: bool, undo: Call)
    | CloneVolume(source: string, stamp: string, d: string, probe: bool,
                  snap: Call, clone: Call, drop: Call, abort: bool, undo: Call)
    | DeleteSnapshot(id: SnapId, call: Call)
    | DeleteVolume(d: string, list: bool, call: Call)
    // snapshots of other origin, such as the temporary ones of a replication
    | ForeignCreate(id: SnapId, owner: Property)
    | ForeignDelete(id: SnapId)

  function When(call: Call, after: Pool, before: Pool): Pool { if call.Fails? then before else after }

  function Cloned(p: Pool, id: SnapId, d: string, clone: Call): Pool { When(clone, AddClone(p, id, d), p) }

  predicate CloneOk(p: Pool, id: SnapId, d: string, clone: Call) {
    clone.Works? && id in p.snapshots && d !in p.datasets
  }

  function Undone(p: Pool, d: string, abort: bool, undo: Call): Pool {
    if abort then When(undo, DropDataset(p, d), p) else p
  }

  function CloneSnapId(source: string, stamp: string): SnapId { SnapId(source, "csi-clone-" + stamp) }

  function Apply(p: Pool, op: Op): Pool {
    match op
    case CreateVolume(d, call) => When(call, AddDataset(p, d, None), p)
    case CreateSnapshot(d, name, found, call) =>
      if found.Some? || d !in p.datasets then p else When(call, AddSnapshot(p, SnapId(d, name), Managed), p)
    case RestoreSnapshot(id, d, probe, clone, abort, undo) =>
      if probe && d in p.datasets then p
      else
        var c := Cloned(p, id, d, clone);
        if CloneOk(p, id, d, clone) then Undone(c, d, abort, undo) else c
    case CloneVolume(source, stamp, d, probe, snap, clone, drop, abort, undo) =>
      if (probe && d in p.datasets) || source !in p.datasets then p
      else
        var id := CloneSnapId(source, stamp);
        var s := When(snap, AddSnapshot(p, id, Managed), p);
        if !snap.Works? || id in p.snapshots then s
        else
          var c := Cloned(s, id, d, clone);
          var r := When(drop, DropSnapshot(c, id), c);
          if CloneOk(s, id, d, clone) then Undone(r, d, abort, undo) else r
    case DeleteSnapshot(id, call) => When(call, DropSnapshot(p, id), p)
    case DeleteVolume(d, list, call) =>
      if d !in p.datasets || !list || Guarded(p, d) then p else When(call, DropDataset(p, d), p)
    case ForeignCreate(id, owner) => AddSnapshot(p, id, owner)
    case ForeignDelete(id) => DropSnapshot(p, id)
  }

  // A search finds what is there; volumes are restored from snapshots that the driver made;
  // others delete only snapshots that are not the driver's.
  predicate Legal(p: Pool, op: Op) {
    match op
    case CreateSnapshot(d, name, found, call) =>
      found.Some? ==> found.value in p.snapshots && found.value.name == name
    case RestoreSnapshot(id, _, _, _, _, _) => id in p.snapshots ==> Protected(id, p.snapshots[id])
    case ForeignDelete(id) => id in p.snapshots ==> !Protected(id, p.snapshots[id])
    case _ => true
  }

  // the snapshot that CreateSnapshot returns, if it succeeds
  function Returned(p: Pool, op: Op): Option<SnapId>
    requires op.CreateSnapshot?
  {
    var id := SnapId(op.d, op.name);
    if op.d !in p.datasets then None
    else if op.found.Some? then if op.found == Some(id) then Some(id) else None
    else if op.call.Works? && id !in p.snapshots then Some(id) else None
  }

  // ---------- links stay intact ----------

  // every snapshot has its dataset; every clone has its origin, which is older and protected;
  // a snapshot waiting to be destroyed still has a clone
  ghost predicate Intact(p: Pool) {
    && (forall id :: id in p.snapshots ==> id.dataset in p.datasets)
    && (forall d :: d in p.datasets ==> p.datasets[d].birth < p.nextBirth && OriginIntact(p, d))
    && (forall id :: id in p.snapshots && p.snapshots[id].deferred ==> HasClone(p.datasets, id))
  }

  predicate OriginIntact(p: Pool, d: string)
    requires d in p.datasets
  {
    var origin := p.datasets[d].origin;
    origin.Some? ==>
      && origin.value in p.snapshots && Protected(origin.value, p.snapshots[origin.value])
      && origin.value.dataset in p.datasets && p.datasets[origin.value.dataset].birth < p.datasets[d].birth
  }

  lemma AddDatasetKeeps(p: Pool, d: string, origin: Option<SnapId>)
    requires Intact(p)
    requires origin.Some? ==> origin.value in p.snapshots && Protected(origin.value, p.snapshots[origin.value])
    ensures Intact(AddDataset(p, d, origin))
  {
    var q := AddDataset(p, d, origin);
    if d !in p.datasets {
      forall e | e in q.datasets ensures OriginIntact(q, e) {
        assert e != d ==> OriginIntact(p, e);
      }
      forall id | id in p.snapshots && p.snapshots[id].deferred ensures HasClone(q.datasets, id) {
        var e :| e in p.datasets && p.datasets[e].origin == Some(id);
        assert e in q.datasets && q.datasets[e].origin == Some(id);
      }
    }
  }

  lemma AddSnapshotKeeps(p: Pool, id: SnapId, owner: Property)
    requires Intact(p)
    ensures Intact(AddSnapshot(p, id, owner))
  {
    var q := AddSnapshot(p, id, owner);
    forall e | e in q.datasets ensures OriginIntact(q, e) {
      assert OriginIntact(p, e);
    }
  }

  lemma DropSnapshotKeeps(p: Pool, id: SnapId)
    requires Intact(p)
    ensures Intact(DropSnapshot(p, id))
  {
    var q := DropSnapshot(p, id);
    forall e | e in q.datasets ensures OriginIntact(q, e) {
      assert OriginIntact(p, e);
      assert p.datasets[e].origin == Some(id) ==> HasClone(p.datasets, id);
    }
  }

  // what keeps a dataset from having clones of its own snapshots
  ghost predicate Childless(p: Pool, d: string) {
    forall e :: e in p.datasets && p.datasets[e].origin.Some? ==> p.datasets[e].origin.value.dataset != d
  }

  /** The guard of DeleteVolume keeps every volume with clones: without protected snapshots it has none. */
  lemma UnguardedIsChildless(p: Pool, d: string)
    requires Intact(p) && !Guarded(p, d)
    ensures Childless(p, d)
  {
    forall e | e in p.datasets && p.datasets[e].origin.Some? ensures p.datasets[e].origin.value.dataset != d {
      assert OriginIntact(p, e);
    }
  }

  lemma DropDatasetKeeps(p: Pool, d: string)
    requires Intact(p) && Childless(p, d)
    ensures Intact(DropDataset(p, d))
  {
    if d in p.datasets {
      var q := DropDataset(p, d);
      forall e | e in q.datasets ensures OriginIntact(q, e) {
        assert OriginIntact(p, e);
        if p.datasets[e].origin.Some? {
          assert e in p.datasets - {d};
          assert HasClone(p.datasets - {d}, p.datasets[e].origin.value);
        }
      }
      forall id | id in q.snapshots && q.snapshots[id].deferred ensures HasClone(q.datasets, id) {
        StillCloned(p, d, id);
      }
    }
  }

  lemma StillCloned(p: Pool, d: string, id: SnapId)
    requires d in p.datasets && HasClone(p.datasets, id) && id in p.snapshots
    requires p.datasets[d].origin == Some(id) ==> HasClone(p.datasets - {d}, id)
    ensures HasClone(p.datasets - {d}, id)
  {
    var e :| e in p.datasets && p.datasets[e].origin == Some(id);
    assert e != d ==> e in p.datasets - {d};
  }
}
