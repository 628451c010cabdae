/**
 The tables of the storage server that creating a volume touches, and the calls that change
 them. A call that fails may have had its effect, and then its caller does not learn the ID of
 the row it made. Dataset paths are lists of components.
 */
module Backend {
  import opened Basics
  import opened IscsiTables

  type Path = seq<string>

  datatype Target = Target(name: string, authTag: int, initiator: int, mutual: bool)

  datatype Namespace = Namespace(subsys: int, disk: string)

  // a port link or a host link
  datatype Join = Join(peer: int, subsys: int)

  datatype Contents = Contents(
    datasets: set<Path>,
    shares: map<int, Path>,
    auths: map<int, int>, initiators: map<int, string>,
    targets: map<int, Target>, extents: map<int, Extent>, links: map<int, Link>,
    subsystems: map<int, string>, namespaces: map<int, Namespace>, portLinks: map<int, Join>,
    hosts: map<int, string>, hostLinks: map<int, Join>)

  // datasets form a tree: whatever lies above a dataset is one too
  predicate Tree(datasets: set<Path>) {
    forall p :: p in datasets ==> forall n :: 0 < n <= |p| ==> p[..n] in datasets
  }

  function Above(p: Path): set<Path> { set n | 0 < n < |p| :: p[..n] }

  // apart from ancestors of `p` that were created, the datasets are as before
  predicate SameTree(before: set<Path>, after: set<Path>, p: Path) { before <= after <= before + Above(p) }

  // `p` was created, with ancestors if they were missing
  predicate Made(before: set<Path>, after: set<Path>, p: Path) {
    p != [] && p !in before && p in after && SameTree(before, after - {p}, p)
  }

  function Pruned(datasets: set<Path>, p: Path): set<Path> { set q | q in datasets && !(p <= q) }

  lemma FreshSubtree(before: set<Path>, after: set<Path>, p: Path)
    requires Tree(before) && Made(before, after, p)
    ensures SameTree(before, Pruned(after, p), p)
  {
    NothingBelow(before, p);
  }

  lemma NothingBelow(datasets: set<Path>, p: Path)
    requires Tree(datasets) && p != []
    ensures p in datasets || forall q :: q in datasets ==> !(p <= q)
  {
    forall q | q in datasets && p <= q ensures p in datasets {
      assert q[..|p|] == p;
    }
  }

  lemma PrunedTree(datasets: set<Path>, p: Path)
    requires Tree(datasets)
    ensures Tree(Pruned(datasets, p))
  {
    forall q, n | q in Pruned(datasets, p) && 0 < n <= |q| ensures q[..n] in Pruned(datasets, p) {
      assert p <= q[..n] ==> p <= q;
    }
  }

  lemma PutDrop<K, V>(m: map<K, V>, k: K, v: V)
    requires k !in m
    ensures m[k := v] - {k} == m
  {
  }

  // ---------- calls that create and delete a row ----------

  // a number above all of these
  ghost function BoundOf(s: set<int>): (b: int)
    ensures b > 0 && forall i :: i in s ==> i < b
  {
    if s == {} then 1
    else
      assert (forall i :: i !in s) ==> s == {};
      var i :| i in s;
      var c := BoundOf(s - {i});
      assert forall j :: j in s ==> j == i || j in s - {i};
      if i < c then c else i + 1
  }

  // a table with the row that a call made, if it made one
  function Added<V>(table: map<int, V>, id: Option<int>, row: V): map<int, V> {
    if id.Some? then table[id.value := row] else table
  }

  /**
   Which calls may fail: queries, creations, creations after their effect, and deletions with
   the queries they need.
   */
  datatype Faults = Faults(queries: bool, creates: bool, late: bool, undo: bool) {
    predicate Forward() { queries || creates }
  }

  method CallCreate(faults: Faults) returns (call: Call)
    ensures !call.Works? ==> faults.creates
    ensures call.FailsLate? ==> faults.late
  {
    call := *;
    if !faults.creates || (call.FailsLate? && !faults.late) {
      call := Works;
    }
  }

  method CallQuery(faults: Faults) returns (ok: bool)
    ensures !ok ==> faults.queries
  {
    ok := *;
    ok := ok || !faults.queries;
  }

  method CallUndo(faults: Faults) returns (call: Call)
    ensures !call.Works? ==> faults.undo
  {
    call := *;
    if !faults.undo {
      call := Works;
    }
  }

  // `lost` is the row of a call that failed after its effect
  method Create<V>(faults: Faults, table: map<int, V>, row: V)
    returns (id: Option<int>, after: map<int, V>, ghost lost: Option<int>)
    ensures id.Some? ==> lost.None? && id.value > 0 && id.value !in table && after == table[id.value := row]
    ensures id.None? ==> after == Added(table, lost, row) && (lost.Some? ==> lost.value !in table)
    ensures id.None? ==> faults.creates
    ensures lost.Some? ==> faults.late
  {
    var call := CallCreate(faults);
    if call.Fails? {
      return None, table, None;
    }
    ghost var b := BoundOf(table.Keys);
    assert b > 0 && b !in table;
    var n :| n > 0 && n !in table;
    after := table[n := row];
    id, lost := if call.Works? then Some(n) else None, if call.Works? then None else Some(n);
  }

  // a row is gone, or the call failed and left it
  predicate Deleted<V(==)>(table: map<int, V>, after: map<int, V>, id: int, ok: bool) {
    after == table - {id} || (!ok && after == table)
  }

  method Delete<V(==)>(faults: Faults, table: map<int, V>, id: int) returns (ok: bool, after: map<int, V>)
    ensures Deleted(table, after, id, ok) && (!ok ==> faults.undo)
  {
    var call := CallUndo(faults);
    ok := call.Works?;
    after := if call.Fails? then table else table - {id};
  }

  /** GetNextISCSIAuthTag: one more than the largest tag, so a tag that no credential has. */
  method NextAuthTag(tags: seq<int>) returns (next: int)
    ensures next > 0 && forall tag :: tag in tags ==> tag < next
    ensures next == 1 || next - 1 in tags
  {
    var maxTag := 0;
    for i := 0 to |tags|
      invariant maxTag >= 0 && forall k :: 0 <= k < i ==> tags[k] <= maxTag
      invariant maxTag == 0 || maxTag in tags
    {
      if tags[i] > maxTag {
        maxTag := tags[i];
      }
    }
    next := maxTag + 1;
  }

  predicate Unlinked(links: map<int, Link>, target: int) { forall l :: l in links ==> links[l].target != target }

  // a dataset that is new, with its parent there unless ancestors are created too
  predicate Creatable(datasets: set<Path>, p: Path, createAncestors: bool) {
    p != [] && p !in datasets && (createAncestors || |p| == 1 || p[..|p| - 1] in datasets)
  }

  class Server {
    const faults: Faults
    var datasets: set<Path>
    var shares: map<int, Path>
    var auths: map<int, int>
    var initiators: map<int, string>
    var targets: map<int, Target>
    var extents: map<int, Extent>
    var links: map<int, Link>
    var subsystems: map<int, string>
    var namespaces: map<int, Namespace>
    var portLinks: map<int, Join>
    var hosts: map<int, string>
    var hostLinks: map<int, Join>

    function Value(): (t: Contents)
      reads this
    {
      Contents(datasets, shares, auths, initiators, targets, extents, links,
               subsystems, namespaces, portLinks, hosts, hostLinks)
    }

    // datasets form a tree, and associations lead to targets that exist
    predicate Valid()
      reads this
    {
      Tree(datasets) && forall l :: l in links ==> links[l].target in targets
    }

    constructor (faults: Faults)
      ensures Valid() && this.faults == faults
    {
      this.faults := faults;
      datasets, shares, auths, initiators, targets, extents, links := {}, map[], map[], map[], map[], map[], map[];
      subsystems, namespaces, portLinks, hosts, hostLinks := map[], map[], map[], map[], map[];
    }

    method CreateDataset(p: Path, createAncestors: bool) returns (ok: bool, ghost late: bool)
      requires Tree(datasets)
      modifies this`datasets
      ensures Tree(datasets) && !(ok && late)
      ensures !ok && !late ==> datasets == old(datasets)
      ensures ok || late ==> Made(old(datasets), datasets, p)
      ensures !createAncestors && (ok || late) ==> datasets == old(datasets) + {p}
      ensures ok ==> Creatable(old(datasets), p, createAncestors)
      ensures !ok && Creatable(old(datasets), p, createAncestors) ==> faults.creates
      ensures late ==> faults.late
    {
      var call := CallCreate(faults);
      var possible := Creatable(datasets, p, createAncestors);
      ok, late := call.Works? && possible, call.FailsLate? && possible;
      if possible && (call.Works? || call.FailsLate?) {
        TreeGrows(datasets, p, createAncestors);
        datasets := datasets + {p} + if createAncestors then Above(p) else {};
      }
    }

    method DeleteDataset(p: Path) returns (ok: bool)
      requires Tree(datasets)
      modifies this`datasets
      ensures Tree(datasets)
      ensures datasets == Pruned(old(datasets), p) || (!ok && datasets == old(datasets))
      ensures !ok ==> faults.undo
    {
      var call := CallUndo(faults);
      ok := call.Works?;
      if !call.Fails? {
        PrunedTree(datasets, p);
        datasets := Pruned(datasets, p);
      }
    }

    /** DeleteISCSITarget: first every association of the target, then the target; the first failure ends it. */
    method DeleteTarget(id: int) returns (ok: bool)
      modifies this`targets, this`links
      ensures Deleted(old(targets), targets, id, ok) && (!ok ==> faults.undo)
      ensures forall l :: l in links ==> l in old(links) && links[l] == old(links)[l]
      ensures forall l :: l in old(links) && old(links)[l].target != id ==> l in links
      ensures ok || targets != old(targets) ==> Unlinked(links, id)
    {
      var listed := CallUndo(faults);
      ok := listed.Works?;
      if !ok {
        return;
      }
      var todo := set l | l in links && links[l].target == id;
      while todo != {}
        invariant targets == old(targets)
        invariant todo <= set l | l in old(links) && old(links)[l].target == id
        invariant forall l :: l in links ==> l in old(links) && links[l] == old(links)[l]
        invariant forall l :: l in old(links) && old(links)[l].target != id ==> l in links
        invariant forall l :: l in links && links[l].target == id ==> l in todo
      {
        assert (forall l :: l !in todo) ==> todo == {};
        var l :| l in todo;
        ok, links := Delete(faults, links, l);
        if !ok {
          return;
        }
        todo := todo - {l};
      }
      ok, targets := Delete(faults, targets, id);
    }

    // None stands for a failed query
    method FindHost(nqn: string) returns (r: Option<Option<int>>)
      ensures r.Some? && r.value.Some? ==> r.value.value in hosts && hosts[r.value.value] == nqn
      ensures r.Some? && r.value.None? ==> forall h :: h in hosts ==> hosts[h] != nqn
      ensures r.None? ==> faults.queries
    {
      var ok := CallQuery(faults);
      if !ok {
        return None;
      }
      if exists h | h in hosts :: hosts[h] == nqn {
        var h :| h in hosts && hosts[h] == nqn;
        return Some(Some(h));
      }
      r := Some(None);
    }

    // the tags of all CHAP credentials, in some order
    method ListTags() returns (r: Option<seq<int>>)
      ensures r.Some? ==> forall i :: i in auths ==> auths[i] in r.value
      ensures r.Some? ==> forall tag :: tag in r.value ==> tag in auths.Values
      ensures r.None? ==> faults.queries
    {
      var ok := CallQuery(faults);
      if !ok {
        return None;
      }
      var rest, tags: seq<int> := auths.Keys, [];
      while rest != {}
        invariant rest <= auths.Keys
        invariant forall i :: i in auths && i !in rest ==> auths[i] in tags
        invariant forall tag :: tag in tags ==> tag in auths.Values
      {
        assert (forall i :: i !in rest) ==> rest == {};
        var i :| i in rest;
        tags := tags + [auths[i]];
        rest := rest - {i};
      }
      r := Some(tags);
    }
  }

  lemma TreeGrows(datasets: set<Path>, p: Path, createAncestors: bool)
    requires p != [] && (createAncestors || |p| == 1 || p[..|p| - 1] in datasets)
    ensures Tree(datasets) ==> Tree(datasets + {p} + if createAncestors then Above(p) else {})
  {
    if Tree(datasets) {
      var after := datasets + {p} + if createAncestors then Above(p) else {};
      forall n | 0 < n <= |p| ensures p[..n] in after {
        if n == |p| {
          assert p[..n] == p;
        } else if !createAncestors {
          var parent := p[..|p| - 1];
          assert parent[..n] == p[..n];
        }
      }
      forall q, n | q in after && 0 < n <= |q| ensures q[..n] in after {
        if q !in datasets {
          var m :| 0 < m <= |p| && q == p[..m];
          assert p[..m][..n] == p[..n];
        }
      }
    }
  }
}
