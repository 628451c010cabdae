/** The storage server, and the controller's operations on detached snapshots, call by call. */
module DetachedServer {
  import opened Basics
  import opened PathText
  import opened DetachedPaths
  import opened DetachedOverlap
  import opened DetachedSnapshots

  datatype Snapshot = Snapshot(dataset: string, name: string)

  datatype Answer = Found(marked: bool) | NotFound | Failed

  datatype Outcome = Done | Missing | Refused

  // the paths are valid, the name is one component, and whatever has the name is this very snapshot
  ghost predicate Creatable(d: Datasets, parent: string, source: string, name: string, sourceDataset: string) {
    var id := source + "/" + name;
    && Validated(parent, sourceDataset) && DatasetOf(parent, id).Ok? && '/' !in name
    && (DatasetOf(parent, id).value in d ==> d[DatasetOf(parent, id).value])
    && forall p :: MarkedIn(d, p) && Listed(parent, "", Entry(p, true)).Some? ==>
                     var i := Listed(parent, "", Entry(p, true)).value; i.name == name ==> i.id == id
  }

  lemma GrownTwice(a: Datasets, b: Datasets, c: Datasets, x: string, y: string, target: string)
    requires Grown(a, b, x) && Grown(b, c, y) && Under(target, x) && Under(target, y)
    ensures Grown(a, c, target)
  {
  }

  lemma GrownWider(a: Datasets, b: Datasets, x: string, target: string)
    requires Grown(a, b, x) && Under(target, x)
    ensures Grown(a, b, target)
  {
  }

  lemma ParentIsAbove(path: string)
    requires CutLast(path).Some?
    ensures Under(path, CutLast(path).value.0)
  {
    CutLastSplits(path);
  }

  lemma ContainerIsAbove(parent: string, source: string, name: string)
    requires DatasetOf(parent, source + "/" + name).Ok?
    ensures var target := DatasetOf(parent, source + "/" + name).value;
            Under(target, parent) && Under(target, parent + "/" + source)
  {
    DatasetOfIsBeneath(parent, source + "/" + name, "");
    SplitAppend(source, name);
    SplitAppend(parent, source);
    PrefixOfThree(Split(parent), Split(source), Split(name));
  }

  lemma PrefixOfThree(a: seq<string>, b: seq<string>, c: seq<string>)
    ensures a <= a + (b + c) && a + b <= a + (b + c)
  {
    assert a + (b + c) == (a + b) + c;
  }

  lemma BeneathSharesPool(parent: string, path: string)
    requires HasPrefix(path, parent + "/")
    ensures Split(path)[0] == Split(parent)[0]
  {
    PrefixIsComponentPrefix(parent, path);
  }

  function TempName(name: string): (temp: string)
    ensures '/' in temp <==> '/' in name
  {
    var prefix := "csi-detached-snapshot-";
    assert '/' !in prefix;
    prefix + name
  }

  // Which calls may fail: queries and creations, replications, and deletions.
  datatype Faults = Faults(calls: bool, transfers: bool, deletes: bool)

  const NoFaults := Faults(false, false, false)

  // the path of a detached snapshot is a valid dataset path
  lemma TargetIsValid(parent: string, id: string)
    requires DatasetOf(parent, id).Ok?
    ensures ValidPath(DatasetOf(parent, id).value)
  {
    var d := DatasetOf(parent, id).value;
    DatasetOfIsBeneath(parent, id, id);
    PartsByComponents(id);
    forall i | 0 <= i < |Split(d)| ensures ValidPart(Split(d)[i]) {
      assert i >= |Split(parent)| ==> Split(d)[i] == Split(id)[i - |Split(parent)|];
    }
    ValidPartsMakePath(d);
  }

  class Server {
    const faults: Faults
    const parent: string
    var datasets: Datasets
    var snapshots: set<Snapshot>

    constructor (faults: Faults, parent: string, datasets: Datasets, snapshots: set<Snapshot>)
      ensures this.faults == faults && this.parent == parent && this.datasets == datasets && this.snapshots == snapshots
    {
      this.faults, this.parent, this.datasets, this.snapshots := faults, parent, datasets, snapshots;
    }

    method CallWorks(mayFail: bool) returns (ok: bool)
      ensures !mayFail ==> ok
    {
      ok := *;
      ok := ok || !mayFail;
    }

    // ---------- calls ----------

    method GetDataset(path: string) returns (r: Answer)
      ensures r.Found? ==> path in datasets && r.marked == datasets[path]
      ensures r.NotFound? ==> path !in datasets
      ensures r.Failed? ==> faults.calls
    {
      var reachable := CallWorks(faults.calls);
      r := if !reachable then Failed else if path in datasets then Found(datasets[path]) else NotFound;
    }

    method CreateDataset(path: string) returns (ok: bool)
      modifies this`datasets
      ensures Grown(old(datasets), datasets, path)
      ensures ok ==> path in datasets
      ensures !ok ==> faults.calls
    {
      ok := CallWorks(faults.calls);
      var done: bool := *;
      done := done || ok;
      if done {
        var parts := Split(path);
        var ancestors := set i | 0 < i <= |parts| :: Join(parts[..i]);
        SplitHasNoSlash(path);
        forall i | 0 < i <= |parts| ensures Split(Join(parts[..i])) == parts[..i] {
          SplitJoin(parts[..i]);
        }
        JoinSplit(path);
        assert parts[..|parts|] == parts;
        datasets := map p | p in datasets.Keys + ancestors :: p in datasets && datasets[p];
      }
    }

    // an existing snapshot of that name is accepted; ZFS refuses a slash in the name of a snapshot
    method CreateTemporarySnapshot(s: Snapshot) returns (ok: bool)
      modifies this`snapshots
      ensures snapshots == old(snapshots) || snapshots == old(snapshots) + {s}
      ensures ok ==> s in snapshots && '/' !in s.name
      ensures !ok && '/' !in s.name ==> faults.calls
    {
      ok := false;
      if '/' !in s.name {
        ok := CallWorks(faults.calls);
        var done: bool := *;
        if ok || done {
          snapshots := snapshots + {s};
        }
      }
    }

    // a snapshot that is not there counts as deleted
    method DeleteSnapshotIfPresent(s: Snapshot) returns (ok: bool)
      modifies this`snapshots
      ensures snapshots == old(snapshots) || snapshots == old(snapshots) - {s}
      ensures ok ==> s !in snapshots
      ensures !ok ==> faults.deletes
    {
      ok := CallWorks(faults.deletes);
      var done: bool := *;
      if ok || done {
        snapshots := snapshots - {s};
      }
    }

    // the job may fail after it has created the target or received the snapshot
    method Replicate(s: Snapshot, target: string) returns (ok: bool)
      requires target !in datasets
      modifies this`datasets, this`snapshots
      ensures datasets == old(datasets) || datasets == old(datasets)[target := false]
      ensures snapshots == old(snapshots) || snapshots == old(snapshots) + {Snapshot(target, s.name)}
      ensures ok ==> target in datasets
      ensures !ok ==> faults.transfers
    {
      ok := CallWorks(faults.transfers);
      var created: bool := *;
      var received: bool := *;
      created := created || ok;
      if created {
        datasets := datasets[target := false];
      }
      if created && received {
        snapshots := snapshots + {Snapshot(target, s.name)};
      }
    }

    method Mark(path: string) returns (ok: bool)
      modifies this`datasets
      ensures datasets == old(datasets) || (path in old(datasets) && datasets == old(datasets)[path := true])
      ensures ok ==> MarkedIn(datasets, path)
      ensures !ok && path in old(datasets) ==> faults.calls
    {
      ok := CallWorks(faults.calls);
      ok := ok && path in datasets;
      var done: bool := *;
      if (ok || done) && path in datasets {
        datasets := datasets[path := true];
      }
    }

    method DeleteDataset(root: string) returns (r: Outcome)
      modifies this`datasets
      ensures Shrunk(old(datasets), datasets, root)
      ensures r.Missing? ==> root !in old(datasets) && datasets == old(datasets)
      ensures r.Done? ==> forall p :: p in datasets ==> !Under(p, root)
      ensures r.Refused? ==> faults.deletes
    {
      var reachable := CallWorks(faults.deletes);
      if reachable && root !in datasets {
        return Missing;
      }
      var gone: set<string> := *;
      r := if reachable then Done else Refused;
      datasets := map p | p in datasets && !(Under(p, root) && (reachable || p in gone)) :: datasets[p];
    }

    method ListDatasets(pool: string) returns (r: Option<seq<Entry>>)
      ensures r.Some? ==> forall e :: e in r.value <==>
                            e.path in datasets && e.marked == datasets[e.path] && Split(e.path)[0] == pool
      ensures r.None? ==> faults.calls
    {
      var reachable := CallWorks(faults.calls);
      if !reachable {
        return None;
      }
      var rest, entries: seq<Entry> := datasets.Keys, [];
      while rest != {}
        invariant rest <= datasets.Keys
        invariant forall e :: e in entries <==>
                    e.path in datasets.Keys - rest && e.marked == datasets[e.path] && Split(e.path)[0] == pool
      {
        var p :| p in rest;
        rest := rest - {p};
        if Split(p)[0] == pool {
          entries := entries + [Entry(p, datasets[p])];
        }
      }
      r := Some(entries);
    }

    // ---------- operations of the controller ----------

    method EnsureDataset(path: string) returns (ok: bool)
      modifies this`datasets
      ensures Grown(old(datasets), datasets, path)
      ensures ok ==> path in datasets
      ensures !ok ==> faults.calls
    {
      var r := GetDataset(path);
      if !r.NotFound? {
        return r.Found?;
      }
      ok := CreateDataset(path);
      if !ok {
        r := GetDataset(path);
        ok := r.Found?;
      }
    }

    method FindByName(name: string) returns (r: Result<Option<Info>>)
      ensures r.Ok? && r.value.None? ==> NameIsFree(datasets, parent, name)
      ensures r.Ok? && r.value.Some? ==>
                var i := r.value.value;
                i.name == name && exists p :: MarkedIn(datasets, p) && Listed(parent, "", Entry(p, true)) == Some(i)
      ensures r.Err? && ValidPath(parent) ==> faults.calls
    {
      if !ValidPath(parent) {
        return Err;
      }
      var entries := ListDatasets(Split(parent)[0]);
      if entries.None? {
        return Err;
      }
      var infos := ListDetached(parent, "", entries.value);
      ghost var es := entries.value;
      for k := 0 to |infos|
        invariant forall j :: 0 <= j < k ==> infos[j].name != name
      {
        if infos[k].name == name {
          ListAllMembers(parent, "", es, infos[k]);
          ghost var e :| e in es && Listed(parent, "", e) == Some(infos[k]);
          assert e == Entry(e.path, true) && MarkedIn(datasets, e.path);
          return Ok(Some(infos[k]));
        }
      }
      forall p | MarkedIn(datasets, p) && Listed(parent, "", Entry(p, true)).Some?
        ensures Listed(parent, "", Entry(p, true)).value.name != name
      {
        var i := Listed(parent, "", Entry(p, true)).value;
        BeneathSharesPool(parent, p);
        assert Entry(p, true) in es;
        ListAllMembers(parent, "", es, i);
      }
      r := Ok(None);
    }

    method EnsureTargetParent(target: string) returns (ok: bool)
      modifies this`datasets
      ensures Grown(old(datasets), datasets, target)
      ensures !ok ==> faults.calls
    {
      var cut := CutLast(target);
      if cut.None? || cut.value.0 == "" {
        return true;
      }
      ParentIsAbove(target);
      ok := EnsureDataset(cut.value.0);
      GrownWider(old(datasets), datasets, cut.value.0, target);
    }

    // a target that is already there counts as sent
    method Send(s: Snapshot, target: string) returns (ok: bool)
      modifies this`datasets, this`snapshots
      ensures Grown(old(datasets), datasets, target)
      ensures snapshots == old(snapshots) || snapshots == old(snapshots) + {Snapshot(target, s.name)}
      ensures ok ==> target in datasets
      ensures !ok ==> faults.calls || faults.transfers
    {
      var there := GetDataset(target);
      ok := there.Found?;
      if there.NotFound? {
        ok := Replicate(s, target);
      }
    }

    // transferDetachedSnapshot: send one snapshot, then remove what was received with it, sent or not
    method Transfer(s: Snapshot, target: string, deleteSource: bool) returns (ok: bool)
      modifies this`datasets, this`snapshots
      ensures Grown(old(datasets), datasets, target)
      ensures old(snapshots) - {s, Snapshot(target, s.name)} <= snapshots <= old(snapshots) + {Snapshot(target, s.name)}
      ensures !deleteSource && s.dataset != target && s in old(snapshots) ==> s in snapshots
      ensures ok ==> target in datasets && Snapshot(target, s.name) !in snapshots
      ensures ok && deleteSource ==> s !in snapshots
      ensures ValidPath(target) && !faults.calls && !faults.deletes ==>
                (ok || faults.transfers) && Snapshot(target, s.name) !in snapshots && (deleteSource ==> s !in snapshots)
    {
      if !ValidPath(target) {
        return false;
      }
      ok := EnsureTargetParent(target);
      if !ok {
        return;
      }
      ghost var middle := datasets;
      ok := Send(s, target);
      GrownTwice(old(datasets), middle, datasets, target, target, target);
      var cleaned := DeleteSnapshotIfPresent(Snapshot(target, s.name));
      ok := ok && cleaned;
      if deleteSource {
        cleaned := DeleteSnapshotIfPresent(s);
        ok := ok && cleaned;
      }
    }

    method PrepareTarget(source: string, name: string, from: Snapshot, target: string) returns (ok: bool)
      requires DatasetOf(parent, source + "/" + name) == Ok(target)
      modifies this`datasets, this`snapshots
      ensures Grown(old(datasets), datasets, target)
      ensures snapshots == old(snapshots) || snapshots == old(snapshots) + {from}
      ensures ok ==> '/' !in from.name
      ensures !ok && '/' !in from.name ==> faults.calls
    {
      ContainerIsAbove(parent, source, name);
      ok := EnsureDataset(parent);
      if !ok {
        return;
      }
      ghost var middle := datasets;
      ok := EnsureDataset(TrimSlash(parent) + "/" + source);
      GrownTwice(old(datasets), middle, datasets, parent, parent + "/" + source, target);
      if !ok {
        return;
      }
      ok := CreateTemporarySnapshot(from);
    }

    /**
     createDetachedSnapshot. Whatever fails, only ancestors of the target appear beside it, an
     existing marked target is left alone, and the marker is only set under a free name. On
     success, and after a replication that failed, no snapshot made on the way is left. Without
     faults it succeeds whenever the paths are valid and neither the name nor the target is taken.
     */
    method CreateDetached(source: string, name: string, sourceDataset: string) returns (r: Result<string>)
      modifies this`datasets, this`snapshots
      ensures CreateChange(old(datasets), datasets, parent, source, name)
      ensures r.Ok? ==>
                && r.value == source + "/" + name && Validated(parent, sourceDataset)
                && DatasetOf(parent, r.value).Ok? && MarkedIn(datasets, DatasetOf(parent, r.value).value)
      ensures var target := DatasetOf(parent, source + "/" + name);
              !Validated(parent, sourceDataset) || target.Err? || MarkedIn(old(datasets), target.value) ==>
                datasets == old(datasets) && snapshots == old(snapshots)
      ensures r.Ok? && !MarkedIn(old(datasets), DatasetOf(parent, r.value).value) ==>
                var temp := TempName(name);
                && Snapshot(sourceDataset, temp) !in snapshots
                && Snapshot(DatasetOf(parent, r.value).value, temp) !in snapshots
      ensures var target := DatasetOf(parent, source + "/" + name);
              && !faults.calls && !faults.deletes && NameIsFree(old(datasets), parent, name)
              && Creatable(old(datasets), parent, source, name, sourceDataset) && target.value !in old(datasets) ==>
                && Snapshot(sourceDataset, TempName(name)) !in snapshots
                && Snapshot(target.value, TempName(name)) !in snapshots
      ensures faults == NoFaults && Creatable(old(datasets), parent, source, name, sourceDataset) ==> r.Ok?
    {
      if !Validated(parent, sourceDataset) {
        return Err;
      }
      var id := source + "/" + name;
      var target := DatasetOf(parent, id);
      if target.Err? {
        return Err;
      }
      var existing := FindByName(name);
      if existing.Err? {
        return Err;
      }
      if existing.value.Some? {
        ghost var i := existing.value.value;
        if existing.value.value.id == id {
          ghost var p :| MarkedIn(datasets, p) && Listed(parent, "", Entry(p, true)) == Some(i);
          ListedIsBeneath(parent, "", Entry(p, true));
          return Ok(id);
        }
        return Err;
      }
      var there := GetDataset(target.value);
      if there.Found? {
        return if there.marked then Ok(id) else Err;
      }
      if there.Failed? {
        return Err;
      }
      r := CreateFresh(source, name, sourceDataset, target.value);
    }

    method CreateFresh(source: string, name: string, sourceDataset: string, target: string) returns (r: Result<string>)
      requires DatasetOf(parent, source + "/" + name) == Ok(target) && target !in datasets
      modifies this`datasets, this`snapshots
      ensures GrownAndMarked(old(datasets), datasets, target)
      ensures MarkedIn(datasets, target) ==> '/' !in name
      ensures r.Ok? ==> r.value == source + "/" + name && MarkedIn(datasets, target)
      ensures r.Ok? || (!faults.calls && !faults.deletes && '/' !in name) ==>
                var temp := TempName(name);
                Snapshot(sourceDataset, temp) !in snapshots && Snapshot(target, temp) !in snapshots
      ensures faults == NoFaults && '/' !in name ==> r.Ok?
    {
      TargetIsValid(parent, source + "/" + name);
      var from := Snapshot(sourceDataset, TempName(name));
      var ok := PrepareTarget(source, name, from, target);
      ghost var middle := datasets;
      if !ok {
        return Err;
      }
      ok := Transfer(from, target, true);
      GrownTwice(old(datasets), middle, datasets, target, target, target);
      if !ok {
        return Err;
      }
      ok := Mark(target);
      r := if ok then Ok(source + "/" + name) else Err;
    }

    /**
     DeleteSnapshot for an ID that is not a ZFS snapshot. An ID that cannot be parsed counts as
     deleted; a dataset without the marker is refused; success leaves nothing of the snapshot.
     */
    method DeleteDetached(id: string) returns (ok: bool)
      modifies this`datasets
      ensures DeleteChange(old(datasets), datasets, parent, id)
      ensures ok && DatasetOf(parent, id).Ok? ==> DatasetOf(parent, id).value !in datasets
      ensures ok && DatasetOf(parent, id).Ok? && DatasetOf(parent, id).value in old(datasets) ==>
                forall p :: p in datasets <==> p in old(datasets) && !Under(p, DatasetOf(parent, id).value)
      ensures var target := DatasetOf(parent, id);
              target.Ok? && target.value in old(datasets) && !MarkedIn(old(datasets), target.value) ==>
                !ok && datasets == old(datasets)
      ensures id == "" || parent == "" ==> !ok && datasets == old(datasets)
      ensures id != "" && parent != "" && DatasetOf(parent, id).Err? ==> ok && datasets == old(datasets)
      ensures var target := DatasetOf(parent, id);
              faults == NoFaults && id != "" && parent != "" && target.Ok? ==>
                (ok <==> (target.value in old(datasets) ==> MarkedIn(old(datasets), target.value)))
    {
      if id == "" || parent == "" {
        return false;
      }
      var target := DatasetOf(parent, id);
      if target.Err? {
        return true;
      }
      var there := GetDataset(target.value);
      if !there.Found? {
        return there.NotFound?;
      }
      if !there.marked {
        return false;
      }
      var r := DeleteDataset(target.value);
      ok := !r.Refused?;
      assert Under(target.value, target.value);
    }
  }
}
