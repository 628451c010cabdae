/**
 resolveBlockDevices: the physical devices below a mapped block device. The walk is a
 depth-first search of the slave directories with a set of names on the current path.
 A directory that cannot be read is absent from `slaves`.
 */
module BlockDevices {
  import opened Basics
  import opened PathText

  type Graph = map<string, seq<string>>

  const DeviceDir := "/dev"

  function DevicePath(name: string): string { DeviceDir + "/" + name }

  // ---------- what the walk is meant to find ----------

  // each name on the path has a readable slave directory that lists the next one
  ghost predicate IsPath(g: Graph, p: seq<string>) {
    p != [] && forall i :: 0 <= i < |p| - 1 ==> p[i] in g && p[i + 1] in g[p[i]]
  }

  ghost predicate PathFrom(g: Graph, a: string, p: seq<string>) {
    IsPath(g, p) && p[0] == a
  }

  // the path returns to a name it has already passed
  ghost predicate Revisits(p: seq<string>) {
    exists i :: 0 <= i < |p| - 1 && p[i] == p[|p| - 1]
  }

  ghost predicate CycleReachable(g: Graph, a: string) {
    exists p :: PathFrom(g, a, p) && Revisits(p)
  }

  ghost predicate AllReadable(g: Graph, a: string) {
    forall p :: PathFrom(g, a, p) ==> p[|p| - 1] in g
  }

  ghost predicate ReachesLeaf(g: Graph, a: string, leaf: string) {
    leaf in g && g[leaf] == [] && exists p :: PathFrom(g, a, p) && p[|p| - 1] == leaf
  }

  ghost predicate IsLeafDevice(g: Graph, a: string, device: string) {
    exists leaf :: ReachesLeaf(g, a, leaf) && device == DevicePath(leaf)
  }

  // ---------- the walk ----------

  function Walk(g: Graph, name: string, visiting: set<string>): Option<seq<string>>
    decreases g.Keys - visiting, 0
  {
    if name in visiting || name !in g then None
    else if g[name] == [] then Some([DevicePath(name)])
    else
      assert name in g.Keys - visiting && name !in g.Keys - (visiting + {name});
      WalkAll(g, g[name], visiting + {name})
  }

  function WalkAll(g: Graph, names: seq<string>, visiting: set<string>): Option<seq<string>>
    decreases g.Keys - visiting, |names| + 1
  {
    if names == [] then Some([])
    else
      var first := Walk(g, names[0], visiting);
      var rest := WalkAll(g, names[1..], visiting);
      if first.None? || rest.None? then None else Some(first.value + rest.value)
  }

  lemma {:induction false} WalkAllEach(g: Graph, names: seq<string>, visiting: set<string>, c: string)
    requires WalkAll(g, names, visiting).Some? && c in names
    ensures Walk(g, c, visiting).Some?
    ensures forall x :: x in Walk(g, c, visiting).value ==> x in WalkAll(g, names, visiting).value
  {
    if c != names[0] {
      WalkAllEach(g, names[1..], visiting, c);
    }
  }

  lemma {:induction false} WalkAllOrigin(g: Graph, names: seq<string>, visiting: set<string>, x: string)
    returns (c: string)
    requires WalkAll(g, names, visiting).Some? && x in WalkAll(g, names, visiting).value
    ensures c in names && Walk(g, c, visiting).Some? && x in Walk(g, c, visiting).value
  {
    if x in Walk(g, names[0], visiting).value {
      c := names[0];
    } else {
      c := WalkAllOrigin(g, names[1..], visiting, x);
    }
  }

  lemma {:induction false} WalkAllBlame(g: Graph, names: seq<string>, visiting: set<string>) returns (c: string)
    requires WalkAll(g, names, visiting).None?
    ensures c in names && Walk(g, c, visiting).None?
  {
    if Walk(g, names[0], visiting).None? {
      c := names[0];
    } else {
      c := WalkAllBlame(g, names[1..], visiting);
    }
  }

  lemma PathTail(g: Graph, p: seq<string>)
    requires IsPath(g, p) && |p| > 1
    ensures PathFrom(g, p[1], p[1..]) && p[0] in g && p[1] in g[p[0]]
  {
    var q := p[1..];
    forall i | 0 <= i < |q| - 1 ensures q[i] in g && q[i + 1] in g[q[i]] {
      assert q[i] == p[i + 1] && q[i + 1] == p[i + 2];
    }
  }

  lemma PathCons(g: Graph, name: string, q: seq<string>)
    requires name in g && q != [] && q[0] in g[name] && IsPath(g, q)
    ensures PathFrom(g, name, [name] + q)
  {
    var p := [name] + q;
    forall i | 0 <= i < |p| - 1 ensures p[i] in g && p[i + 1] in g[p[i]] {
      if i > 0 { assert p[i] == q[i - 1] && p[i + 1] == q[i]; }
    }
  }

  /** A walk that succeeds has seen only new, readable names on every path, and reports every leaf. */
  lemma {:induction false} WalkCovers(g: Graph, name: string, visiting: set<string>, p: seq<string>)
    requires Walk(g, name, visiting).Some? && PathFrom(g, name, p)
    ensures forall i :: 0 <= i < |p| ==> p[i] !in visiting
    ensures !Revisits(p) && p[|p| - 1] in g
    ensures g[p[|p| - 1]] == [] ==> DevicePath(p[|p| - 1]) in Walk(g, name, visiting).value
    decreases |p|
  {
    if |p| > 1 {
      PathTail(g, p);
      WalkAllEach(g, g[name], visiting + {name}, p[1]);
      WalkCovers(g, p[1], visiting + {name}, p[1..]);
      var q := p[1..];
      assert q[|q| - 1] == p[|p| - 1];
      forall i | 0 <= i < |p| - 1 ensures p[i] != p[|p| - 1] {
        if i > 0 { assert q[i - 1] == p[i]; }
      }
    }
  }

  /** A walk that fails has a path to blame: to an unreadable name, to one being visited, or back to itself. */
  lemma {:induction false} WalkBlame(g: Graph, name: string, visiting: set<string>) returns (p: seq<string>)
    requires Walk(g, name, visiting).None?
    ensures PathFrom(g, name, p) && (p[|p| - 1] !in g || p[|p| - 1] in visiting || Revisits(p))
    decreases g.Keys - visiting
  {
    if name in visiting || name !in g {
      p := [name];
    } else {
      var c := WalkAllBlame(g, g[name], visiting + {name});
      assert name in g.Keys - visiting && name !in g.Keys - (visiting + {name});
      var q := WalkBlame(g, c, visiting + {name});
      PathCons(g, name, q);
      p := [name] + q;
      if q[|q| - 1] == name {
        assert p[0] == p[|p| - 1];
      } else if Revisits(q) {
        var i :| 0 <= i < |q| - 1 && q[i] == q[|q| - 1];
        assert p[i + 1] == p[|p| - 1];
      }
    }
  }

  /** Everything a walk reports is a leaf at the end of a path. */
  lemma {:induction false} WalkReportsLeaves(g: Graph, name: string, visiting: set<string>, x: string)
    requires Walk(g, name, visiting).Some? && x in Walk(g, name, visiting).value
    ensures IsLeafDevice(g, name, x)
    decreases g.Keys - visiting
  {
    if g[name] == [] {
      assert PathFrom(g, name, [name]) && [name][|[name]| - 1] == name;
      assert ReachesLeaf(g, name, name);
    } else {
      var c := WalkAllOrigin(g, g[name], visiting + {name}, x);
      assert name in g.Keys - visiting && name !in g.Keys - (visiting + {name});
      WalkReportsLeaves(g, c, visiting + {name}, x);
      var leaf :| ReachesLeaf(g, c, leaf) && x == DevicePath(leaf);
      var q :| PathFrom(g, c, q) && q[|q| - 1] == leaf;
      PathCons(g, name, q);
      assert ([name] + q)[|[name] + q| - 1] == leaf;
      assert ReachesLeaf(g, name, leaf);
    }
  }

  /** The walk fails exactly when a cycle or an unreadable directory is reachable, and else finds exactly the leaves. */
  lemma WalkIsExact(g: Graph, name: string)
    ensures Walk(g, name, {}).Some? <==> AllReadable(g, name) && !CycleReachable(g, name)
    ensures Walk(g, name, {}).Some? ==> forall x :: x in Walk(g, name, {}).value <==> IsLeafDevice(g, name, x)
  {
    if Walk(g, name, {}).Some? {
      forall p | PathFrom(g, name, p) ensures p[|p| - 1] in g && !Revisits(p) {
        WalkCovers(g, name, {}, p);
      }
      forall x ensures x in Walk(g, name, {}).value <==> IsLeafDevice(g, name, x) {
        if x in Walk(g, name, {}).value { WalkReportsLeaves(g, name, {}, x); }
        if IsLeafDevice(g, name, x) {
          var leaf :| ReachesLeaf(g, name, leaf) && x == DevicePath(leaf);
          var p :| PathFrom(g, name, p) && p[|p| - 1] == leaf;
          WalkCovers(g, name, {}, p);
        }
      }
    } else {
      var p := WalkBlame(g, name, {});
    }
  }

  // ---------- the code ----------

  class Walker {
    const slaves: Graph
    var leaves: seq<string>
    var visiting: set<string>

    constructor (slaves: Graph)
      ensures this.slaves == slaves && leaves == [] && visiting == {}
    {
      this.slaves, leaves, visiting := slaves, [], {};
    }

    method Visit(name: string) returns (ok: bool)
      modifies this
      ensures visiting == old(visiting)
      ensures ok == Walk(slaves, name, old(visiting)).Some?
      ensures ok ==> leaves == old(leaves) + Walk(slaves, name, old(visiting)).value
      decreases slaves.Keys - visiting
    {
      if name in visiting {
        return false;
      }
      visiting := visiting + {name};
      if name !in slaves {
        visiting := visiting - {name};
        return false;
      }
      var entries := slaves[name];
      if |entries| == 0 {
        leaves := leaves + [DevicePath(name)];
        visiting := visiting - {name};
        return true;
      }
      assert name in slaves.Keys - old(visiting) && name !in slaves.Keys - visiting;
      var i := 0;
      ghost var found: seq<string> := [];
      assert entries[0..] == entries;
      while i < |entries|
        invariant 0 <= i <= |entries|
        invariant visiting == old(visiting) + {name}
        invariant leaves == old(leaves) + found
        invariant var all := WalkAll(slaves, entries, old(visiting) + {name});
                  var rest := WalkAll(slaves, entries[i..], old(visiting) + {name});
                  (all.Some? <==> rest.Some?) && (all.Some? ==> all.value == found + rest.value)
      {
        assert entries[i..][1..] == entries[i + 1..];
        var good := Visit(entries[i]);
        if !good {
          visiting := visiting - {name};
          return false;
        }
        found := found + Walk(slaves, entries[i], old(visiting) + {name}).value;
        i := i + 1;
      }
      visiting := visiting - {name};
      ok := true;
    }
  }

  datatype Resolution = Resolution(path: string, devices: seq<string>)

  function BaseName(path: string): string { var parts := Split(path); parts[|parts| - 1] }

  /**
   `evaluated` is the cleaned path the device symlink resolves to, if it resolves. On success the devices
   are exactly the leaves reachable from it, each once and in increasing order, although the compaction
   works in place on the sorted list.
   */
  method ResolveBlockDevices(evaluated: Option<string>, slaves: Graph) returns (r: Result<Resolution>)
    ensures r.Ok? <==>
              evaluated.Some? && HasPrefix(evaluated.value, DeviceDir + "/") && BaseName(evaluated.value) != "" &&
              AllReadable(slaves, BaseName(evaluated.value)) && !CycleReachable(slaves, BaseName(evaluated.value))
    ensures r.Ok? ==>
              r.value.path == evaluated.value && Increasing(r.value.devices) &&
              forall x :: x in r.value.devices <==> IsLeafDevice(slaves, BaseName(evaluated.value), x)
  {
    if evaluated.None? || !HasPrefix(evaluated.value, DeviceDir + "/") {
      return Err;
    }
    var name := BaseName(evaluated.value);
    if name == "" {
      return Err;
    }
    var walker := new Walker(slaves);
    var ok := walker.Visit(name);
    WalkIsExact(slaves, name);
    if !ok {
      return Err;
    }
    var leaves := Sort(walker.leaves);
    var buffer := new string[|leaves|](i requires 0 <= i < |leaves| => leaves[i]);
    assert buffer[..] == leaves;
    var n := CompactStrings(buffer);
    SortCompact(walker.leaves);
    r := Ok(Resolution(evaluated.value, buffer[..n]));
  }
}
