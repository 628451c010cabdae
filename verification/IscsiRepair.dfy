/** ensureISCSIChain, call by call; unless the server works, any call may fail, with or without its effect. */
module IscsiRepair {
  import opened Basics
  import opened IscsiTables

  class Server {
    const works: bool
    var targets: map<int, string>
    var extents: map<int, Extent>
    var links: map<int, Link>
    var next: int

    function Value(): (t: Tables)
      reads this
    {
      Tables(targets, extents, links, next)
    }

    constructor (works: bool, t: Tables)
      ensures this.works == works && Value() == t
    {
      this.works := works;
      targets, extents, links, next := t.targets, t.extents, t.links, t.next;
    }

    // ---------- calls ----------

    method CallEnds() returns (call: Call)
      ensures works ==> call.Works?
    {
      call := *;
      if works {
        call := Works;
      }
    }

    method CreateTarget(name: string) returns (r: Option<int>)
      requires Intact(Value())
      modifies this
      ensures || Value() == old(Value())
              || (TargetNamed(old(Value()), name).None? && Value() == AddTarget(old(Value()), name))
      ensures r.Some? ==> Value() == AddTarget(old(Value()), name) && r.value == old(next)
                          && TargetNamed(old(Value()), name).None?
      ensures works ==> (r.Some? <==> TargetNamed(old(Value()), name).None?) && (r.None? ==> Value() == old(Value()))
    {
      var call := CallEnds();
      if exists i | i in targets :: targets[i] == name {
        return None;
      }
      r := if call.Works? then Some(next) else None;
      if !call.Fails? {
        targets := targets[next := name];
        next := next + 1;
      }
    }

    method CreateExtent(e: Extent) returns (r: Option<int>)
      requires Intact(Value())
      modifies this
      ensures Value() == old(Value()) || (ExtentFree(old(Value()), e) && Value() == AddExtent(old(Value()), e))
      ensures r.Some? ==> Value() == AddExtent(old(Value()), e) && r.value == old(next) && ExtentFree(old(Value()), e)
      ensures works ==> (r.Some? <==> ExtentFree(old(Value()), e)) && (r.None? ==> Value() == old(Value()))
    {
      var call := CallEnds();
      if !ExtentFree(Value(), e) {
        return None;
      }
      r := if call.Works? then Some(next) else None;
      if !call.Fails? {
        extents := extents[next := e];
        next := next + 1;
      }
    }

    method CreateLink(l: Link) returns (ok: bool)
      requires Intact(Value())
      modifies this
      ensures Value() == old(Value()) || (LinkFree(old(Value()), l) && Value() == AddLink(old(Value()), l))
      ensures ok ==> Value() == AddLink(old(Value()), l) && LinkFree(old(Value()), l)
      ensures works ==> (ok <==> LinkFree(old(Value()), l)) && (!ok ==> Value() == old(Value()))
    {
      var call := CallEnds();
      if !LinkFree(Value(), l) {
        return false;
      }
      ok := call.Works?;
      if !call.Fails? {
        links := links[next := l];
        next := next + 1;
      }
    }

    method GetTargetByName(name: string) returns (r: Option<int>)
      requires Intact(Value())
      ensures r.Some? || works ==> r == TargetNamed(Value(), name)
    {
      var call := CallEnds();
      r := None;
      if call.Works? && exists i | i in targets :: targets[i] == name {
        var i :| i in targets && targets[i] == name;
        r := Some(i);
      }
    }

    method GetExtentByDisk(disk: string) returns (r: Option<int>)
      requires Intact(Value())
      ensures r.Some? || works ==> r == ExtentOn(Value(), disk)
    {
      var call := CallEnds();
      r := None;
      if call.Works? && exists i | i in extents :: extents[i].disk == disk {
        var i :| i in extents && extents[i].disk == disk;
        r := Some(i);
      }
    }

    method GetLinkByExtent(extent: int) returns (r: Option<int>)
      requires Intact(Value())
      ensures r.Some? || works ==> r == LinkOf(Value(), extent)
    {
      var call := CallEnds();
      r := None;
      if call.Works? && exists i | i in links :: links[i].extent == extent {
        var i :| i in links && links[i].extent == extent;
        r := Some(i);
      }
    }

    // ---------- the repair ----------

    // a target that cannot be created may exist from a partial creation
    method EnsureTarget(c: Chain) returns (r: Option<int>)
      requires Intact(Value())
      modifies this
      ensures Intact(Value()) && GrownByChain(old(Value()), Value(), c)
      ensures r.Some? ==> (Value(), r.value) == WithTarget(old(Value()), c.target)
      ensures works ==> r.Some?
    {
      WithTargetKeeps(Value(), c);
      r := CreateTarget(c.target);
      if r.None? {
        r := GetTargetByName(c.target);
      }
    }

    method CreateOwnExtent(c: Chain) returns (r: Option<int>)
      requires Intact(Value())
      modifies this
      ensures Intact(Value()) && GrownByChain(old(Value()), Value(), c)
      ensures var t, e := old(Value()), Extent(c.extent, c.disk);
              && (r.Some? ==> Value() == AddExtent(t, e) && r.value == t.next && ExtentFree(t, e))
              && (works ==> (r.Some? <==> ExtentFree(t, e)) && (r.None? ==> Value() == t))
    {
      var e := Extent(c.extent, c.disk);
      if ExtentFree(Value(), e) { AddExtentKeeps(Value(), c); AddExtentIntact(Value(), e); }
      r := CreateExtent(e);
    }

    method Connect(target: int, extent: int, c: Chain) returns (r: Result<Context>)
      requires Intact(Value()) && target in targets && targets[target] == c.target
      requires extent in extents && extents[extent].disk == c.disk
      modifies this
      ensures Intact(Value()) && GrownByChain(old(Value()), Value(), c)
      ensures r.Ok? || works ==> (Value(), r) == Connected(old(Value()), target, extent, c.target)
      ensures r.Ok? ==> LinkOf(old(Value()), extent).None?
    {
      var l := Link(target, extent, 0);
      var ok := CreateLink(l);
      if LinkFree(old(Value()), l) { AddLinkIntact(old(Value()), l); }
      r := if ok then Ok(Context(c.target, 0)) else Err;
    }

    method ExtendAndConnect(target: int, c: Chain) returns (r: Result<Context>)
      requires Intact(Value()) && target in targets && targets[target] == c.target
      modifies this
      ensures Intact(Value()) && GrownByChain(old(Value()), Value(), c)
      ensures r.Ok? || works ==> (Value(), r) == Extended(old(Value()), target, c)
      ensures r.Ok? ==> ExtentFree(old(Value()), Extent(c.extent, c.disk))
    {
      var x := CreateOwnExtent(c);
      ghost var middle := Value();
      if x.None? {
        return Err;
      }
      r := Connect(target, x.value, c);
      GrownByChainTwice(old(Value()), middle, Value(), c);
    }

    method CompleteWithoutExtent(c: Chain) returns (r: Result<Context>)
      requires Intact(Value())
      modifies this
      ensures Intact(Value()) && GrownByChain(old(Value()), Value(), c)
      ensures r.Ok? || (works && ExtentOn(old(Value()), c.disk).None?) ==> (Value(), r) == Repaired(old(Value()), c)
    {
      var g := EnsureTarget(c);
      ghost var middle := Value();
      if g.None? {
        return Err;
      }
      r := ExtendAndConnect(g.value, c);
      GrownByChainTwice(old(Value()), middle, Value(), c);
      DiskIsFree(old(Value()), c);
    }

    method CompleteWithoutLink(x: int, c: Chain) returns (r: Result<Context>)
      requires Intact(Value()) && ExtentOn(Value(), c.disk) == Some(x)
      modifies this
      ensures Intact(Value()) && GrownByChain(old(Value()), Value(), c)
      ensures r.Ok? || (works && LinkOf(old(Value()), x).None?) ==> (Value(), r) == Repaired(old(Value()), c)
    {
      ghost var t := Value();
      var g := EnsureTarget(c);
      if g.None? {
        return Err;
      }
      ghost var t1 := Value();
      r := Connect(g.value, x, c);
      GrownByChainTwice(t, t1, Value(), c);
      RepairedByLink(t, c, x);
    }

    /**
     ensureISCSIChain. Whatever fails, the tables stay intact and grow only by rows of this chain;
     success, like every end on a server that works, is the outcome of the repair.
     */
    method EnsureISCSIChain(c: Chain) returns (r: Result<Context>)
      requires Intact(Value())
      modifies this
      ensures Intact(Value()) && GrownByChain(old(Value()), Value(), c)
      ensures r.Ok? || works ==> (Value(), r) == Repaired(old(Value()), c)
      ensures r.Ok? ==> Complete(Value(), c, r.value)
    {
      ghost var t := Value();
      RepairConverges(t, c);
      var x := GetExtentByDisk(c.disk);
      if x.None? {
        r := CompleteWithoutExtent(c);
        return;
      }
      var l := GetLinkByExtent(x.value);
      if l.None? {
        r := CompleteWithoutLink(x.value, c);
        return;
      }
      var call := CallEnds();
      if !call.Works? {
        return Err;
      }
      var link := links[l.value];
      r := Ok(Context(targets[link.target], link.lun));
    }
  }

  lemma DiskIsFree(t: Tables, c: Chain)
    ensures ExtentFree(WithTarget(t, c.target).0, Extent(c.extent, c.disk)) ==> ExtentOn(t, c.disk).None?
  {
    assert WithTarget(t, c.target).0.extents == t.extents;
  }
}
