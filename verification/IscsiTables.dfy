/**
 The iSCSI tables of the storage server, and what completing the chain of one volume means:
 one extent on its disk, linked once, to a target.
 */
module IscsiTables {
  import opened Basics

  datatype Extent = Extent(name: string, disk: string)

  datatype Link = Link(target: int, extent: int, lun: int)

  // `next` is an ID that no row has used
  datatype Tables = Tables(targets: map<int, string>, extents: map<int, Extent>, links: map<int, Link>, next: int)

  // the names a volume's chain is made under
  datatype Chain = Chain(target: string, extent: string, disk: string)

  // what the caller is told: the target's name, which ends its IQN, and the LUN
  datatype Context = Context(name: string, lun: int)

  // ---------- the server's own rules ----------

  predicate TargetsOk(t: Tables) {
    && (forall i :: i in t.targets ==> i < t.next)
    && (forall i, j :: i in t.targets && j in t.targets && t.targets[i] == t.targets[j] ==> i == j)
  }

  predicate ExtentsOk(t: Tables) {
    && (forall i :: i in t.extents ==> i < t.next)
    && (forall i, j :: i in t.extents && j in t.extents && t.extents[i].disk == t.extents[j].disk ==> i == j)
    && (forall i, j :: i in t.extents && j in t.extents && t.extents[i].name == t.extents[j].name ==> i == j)
  }

  predicate SamePlace(l: Link, m: Link) { l.target == m.target && l.lun == m.lun }

  predicate LinksOk(t: Tables) {
    && (forall i :: i in t.links ==> i < t.next && t.links[i].target in t.targets && t.links[i].extent in t.extents)
    && (forall i, j :: i in t.links && j in t.links && t.links[i].extent == t.links[j].extent ==> i == j)
    && (forall i, j :: i in t.links && j in t.links && SamePlace(t.links[i], t.links[j]) ==> i == j)
  }

  predicate Intact(t: Tables) { TargetsOk(t) && ExtentsOk(t) && LinksOk(t) }

  // ---------- lookups: by the rules there is at most one row ----------

  ghost function TargetNamed(t: Tables, name: string): (r: Option<int>)
    ensures r.Some? ==> r.value in t.targets && t.targets[r.value] == name
    ensures r.None? ==> forall i :: i in t.targets ==> t.targets[i] != name
  {
    if i :| i in t.targets && t.targets[i] == name then Some(i) else None
  }

  ghost function ExtentOn(t: Tables, disk: string): (r: Option<int>)
    ensures r.Some? ==> r.value in t.extents && t.extents[r.value].disk == disk
    ensures r.None? ==> forall i :: i in t.extents ==> t.extents[i].disk != disk
  {
    if i :| i in t.extents && t.extents[i].disk == disk then Some(i) else None
  }

  ghost function LinkOf(t: Tables, extent: int): (r: Option<int>)
    ensures r.Some? ==> r.value in t.links && t.links[r.value].extent == extent
    ensures r.None? ==> forall i :: i in t.links ==> t.links[i].extent != extent
  {
    if i :| i in t.links && t.links[i].extent == extent then Some(i) else None
  }

  // ---------- creating rows ----------

  function AddTarget(t: Tables, name: string): Tables { t.(targets := t.targets[t.next := name], next := t.next + 1) }

  function AddExtent(t: Tables, e: Extent): Tables { t.(extents := t.extents[t.next := e], next := t.next + 1) }

  function AddLink(t: Tables, l: Link): Tables { t.(links := t.links[t.next := l], next := t.next + 1) }

  predicate ExtentFree(t: Tables, e: Extent) {
    forall i :: i in t.extents ==> t.extents[i].name != e.name && t.extents[i].disk != e.disk
  }

  predicate LinkFree(t: Tables, l: Link) {
    && l.target in t.targets && l.extent in t.extents
    && forall i :: i in t.links ==> t.links[i].extent != l.extent && !SamePlace(t.links[i], l)
  }

  lemma AddTargetIntact(t: Tables, name: string)
    requires Intact(t) && TargetNamed(t, name).None?
    ensures Intact(AddTarget(t, name)) && TargetNamed(AddTarget(t, name), name) == Some(t.next)
  {
    assert AddTarget(t, name).targets[t.next] == name;
  }

  lemma AddExtentIntact(t: Tables, e: Extent)
    requires Intact(t) && ExtentFree(t, e)
    ensures Intact(AddExtent(t, e)) && ExtentOn(AddExtent(t, e), e.disk) == Some(t.next)
    ensures LinkOf(AddExtent(t, e), t.next).None?
  {
    assert AddExtent(t, e).extents[t.next] == e;
  }

  lemma AddLinkIntact(t: Tables, l: Link)
    requires Intact(t) && LinkFree(t, l)
    ensures Intact(AddLink(t, l)) && LinkOf(AddLink(t, l), l.extent) == Some(t.next)
  {
    assert AddLink(t, l).links[t.next] == l;
  }

  // ---------- a complete chain ----------

  // Exactly one extent is on the disk, exactly one link has it, and that link leads to an
  // existing target, the only one of its name, at this LUN.
  ghost predicate Complete(t: Tables, c: Chain, ctx: Context) {
    exists x, l :: IsChain(t, c, ctx, x, l)
  }

  predicate IsChain(t: Tables, c: Chain, ctx: Context, x: int, l: int) {
    && x in t.extents && t.extents[x].disk == c.disk
    && (forall i :: i in t.extents && t.extents[i].disk == c.disk ==> i == x)
    && l in t.links && t.links[l].extent == x && t.links[l].lun == ctx.lun
    && (forall i :: i in t.links && t.links[i].extent == x ==> i == l)
    && t.links[l].target in t.targets && t.targets[t.links[l].target] == ctx.name
    && (forall i :: i in t.targets && t.targets[i] == ctx.name ==> i == t.links[l].target)
  }

  // rows are only added, and only rows of this chain
  ghost predicate GrownByChain(t: Tables, t': Tables, c: Chain) {
    && (forall i :: i in t.targets ==> i in t'.targets && t'.targets[i] == t.targets[i])
    && (forall i :: i in t.extents ==> i in t'.extents && t'.extents[i] == t.extents[i])
    && (forall i :: i in t.links ==> i in t'.links && t'.links[i] == t.links[i])
    && (forall i :: i in t'.targets && i !in t.targets ==> t'.targets[i] == c.target)
    && (forall i :: i in t'.extents && i !in t.extents ==> t'.extents[i] == Extent(c.extent, c.disk))
    && (forall i :: i in t'.links && i !in t.links ==>
                      && t'.links[i].extent in t'.extents && t'.extents[t'.links[i].extent].disk == c.disk
                      && t'.links[i].target in t'.targets && t'.targets[t'.links[i].target] == c.target
                      && t'.links[i].lun == 0)
  }

  // ---------- the repair with working calls ----------

  ghost function WithTarget(t: Tables, name: string): (r: (Tables, int))
    ensures r.1 in r.0.targets && r.0.targets[r.1] == name
  {
    match TargetNamed(t, name)
    case Some(g) => (t, g)
    case None => (AddTarget(t, name), t.next)
  }

  // link an extent to a target at LUN 0
  ghost function Connected(t: Tables, target: int, extent: int, name: string): (Tables, Result<Context>) {
    var l := Link(target, extent, 0);
    if LinkFree(t, l) then (AddLink(t, l), Ok(Context(name, 0))) else (t, Err)
  }

  // make the extent, then link it
  ghost function Extended(t: Tables, target: int, c: Chain): (Tables, Result<Context>) {
    var e := Extent(c.extent, c.disk);
    if ExtentFree(t, e) then Connected(AddExtent(t, e), target, t.next, c.target) else (t, Err)
  }

  ghost function Repaired(t: Tables, c: Chain): (Tables, Result<Context>)
    requires Intact(t)
  {
    match ExtentOn(t, c.disk)
    case None =>
      var (t1, g) := WithTarget(t, c.target);
      Extended(t1, g, c)
    case Some(x) =>
      match LinkOf(t, x)
      case None =>
        var (t1, g) := WithTarget(t, c.target);
        Connected(t1, g, x, c.target)
      case Some(l) => (t, Ok(Context(t.targets[t.links[l].target], t.links[l].lun)))
  }

  // The repair can succeed: the extent is linked already, or LUN 0 of the volume's target is
  // free and, if there is no extent, so is the extent's name.
  ghost predicate CanComplete(t: Tables, c: Chain) {
    || (exists l :: l in t.links && t.links[l].extent in t.extents && t.extents[t.links[l].extent].disk == c.disk)
    || ((ExtentOn(t, c.disk).Some? || forall i :: i in t.extents ==> t.extents[i].name != c.extent)
        && forall l :: l in t.links && t.links[l].target in t.targets && t.targets[t.links[l].target] == c.target ==>
                         t.links[l].lun != 0)
  }

  lemma LinkedOrNot(t: Tables, c: Chain)
    requires Intact(t)
    ensures (exists l :: l in t.links && t.links[l].extent in t.extents && t.extents[t.links[l].extent].disk == c.disk)
            <==> ExtentOn(t, c.disk).Some? && LinkOf(t, ExtentOn(t, c.disk).value).Some?
  {
  }

  lemma ConnectedKeeps(t: Tables, c: Chain, target: int, extent: int)
    requires Intact(t) && target in t.targets && t.targets[target] == c.target
    requires ExtentOn(t, c.disk) == Some(extent) && LinkOf(t, extent).None?
    ensures var (t', r) := Connected(t, target, extent, c.target);
            && Intact(t') && GrownByChain(t, t', c)
            && (r.Ok? ==> Complete(t', c, r.value))
            && (r.Ok? <==> CanComplete(t, c))
  {
    var l := Link(target, extent, 0);
    LinkedOrNot(t, c);
    if LinkFree(t, l) {
      AddLinkIntact(t, l);
      assert IsChain(AddLink(t, l), c, Context(c.target, 0), extent, t.next);
    }
  }

  lemma WithTargetKeeps(t: Tables, c: Chain)
    requires Intact(t)
    ensures var t1 := WithTarget(t, c.target).0;
            Intact(t1) && GrownByChain(t, t1, c) && (CanComplete(t, c) <==> CanComplete(t1, c))
  {
    if TargetNamed(t, c.target).None? {
      AddTargetIntact(t, c.target);
      NewTargetIsFree(t, c);
    }
  }

  // a new target has no LUN in use, and changes nothing else
  lemma NewTargetIsFree(t: Tables, c: Chain)
    requires Intact(t)
    ensures CanComplete(t, c) <==> CanComplete(AddTarget(t, c.target), c)
  {
    var t1 := AddTarget(t, c.target);
    SameRows(t, t1, c);
    forall l | l in t.links ensures t1.targets[t.links[l].target] == t.targets[t.links[l].target] {
      assert t.links[l].target in t.targets;
    }
  }

  // lookups of extents and links depend on their tables alone
  lemma SameRows(t: Tables, t1: Tables, c: Chain)
    requires t1.extents == t.extents && t1.links == t.links
    ensures ExtentOn(t1, c.disk).Some? <==> ExtentOn(t, c.disk).Some?
    ensures forall x :: LinkOf(t1, x).None? <==> LinkOf(t, x).None?
  {
  }

  // with the extent there and not linked, the repair is to link it
  lemma RepairedByLink(t: Tables, c: Chain, x: int)
    requires Intact(t) && ExtentOn(t, c.disk) == Some(x)
    ensures var (t1, g) := WithTarget(t, c.target);
            && (LinkOf(t1, x).None? <==> LinkOf(t, x).None?)
            && (LinkOf(t, x).None? ==> Repaired(t, c) == Connected(t1, g, x, c.target))
  {
    SameRows(t, WithTarget(t, c.target).0, c);
  }

  lemma GrownByChainTwice(a: Tables, b: Tables, d: Tables, c: Chain)
    requires GrownByChain(a, b, c) && GrownByChain(b, d, c)
    ensures GrownByChain(a, d, c)
  {
  }

  lemma AddExtentKeeps(t: Tables, c: Chain)
    requires Intact(t) && ExtentFree(t, Extent(c.extent, c.disk))
    ensures var t1 := AddExtent(t, Extent(c.extent, c.disk));
            Intact(t1) && GrownByChain(t, t1, c) && (CanComplete(t, c) <==> CanComplete(t1, c))
  {
    var t1 := AddExtent(t, Extent(c.extent, c.disk));
    AddExtentIntact(t, Extent(c.extent, c.disk));
    LinkedOrNot(t, c);
    LinkedOrNot(t1, c);
  }

  lemma RepairWithoutExtent(t: Tables, c: Chain)
    requires Intact(t) && ExtentOn(t, c.disk).None?
    ensures var (t', r) := Repaired(t, c);
            && Intact(t') && GrownByChain(t, t', c)
            && (r.Ok? ==> Complete(t', c, r.value))
            && (r.Ok? <==> CanComplete(t, c))
  {
    var (t1, g) := WithTarget(t, c.target);
    WithTargetKeeps(t, c);
    LinkedOrNot(t, c);
    var e := Extent(c.extent, c.disk);
    if ExtentFree(t1, e) {
      var t2 := AddExtent(t1, e);
      AddExtentIntact(t1, e);
      AddExtentKeeps(t1, c);
      ConnectedKeeps(t2, c, g, t1.next);
      GrownByChainTwice(t, t1, t2, c);
      GrownByChainTwice(t, t2, Repaired(t, c).0, c);
    }
  }

  lemma RepairWithoutLink(t: Tables, c: Chain)
    requires Intact(t) && ExtentOn(t, c.disk).Some? && LinkOf(t, ExtentOn(t, c.disk).value).None?
    ensures var (t', r) := Repaired(t, c);
            && Intact(t') && GrownByChain(t, t', c)
            && (r.Ok? ==> Complete(t', c, r.value))
            && (r.Ok? <==> CanComplete(t, c))
  {
    var (t1, g) := WithTarget(t, c.target);
    WithTargetKeeps(t, c);
    var x := ExtentOn(t, c.disk).value;
    assert t1.extents == t.extents && t1.links == t.links;
    assert ExtentOn(t1, c.disk) == Some(x) && LinkOf(t1, x).None?;
    ConnectedKeeps(t1, c, g, x);
    GrownByChainTwice(t, t1, Repaired(t, c).0, c);
  }

  /**
   With working calls the repair succeeds exactly when it can. Success leaves exactly one extent
   on the disk, linked exactly once, to a target that exists; every other row is untouched.
   */
  lemma RepairConverges(t: Tables, c: Chain)
    requires Intact(t)
    ensures var (t', r) := Repaired(t, c);
            && Intact(t') && GrownByChain(t, t', c)
            && (r.Ok? ==> Complete(t', c, r.value))
            && (r.Ok? <==> CanComplete(t, c))
  {
    match ExtentOn(t, c.disk)
    case None => RepairWithoutExtent(t, c);
    case Some(x) =>
      match LinkOf(t, x)
      case None => RepairWithoutLink(t, c);
      case Some(l) =>
        LinkedOrNot(t, c);
        assert IsChain(t, c, Context(t.targets[t.links[l].target], t.links[l].lun), x, l);
  }

  /** Running the repair on a complete chain changes nothing and tells the caller the same target and LUN. */
  lemma RepairIsIdempotent(t: Tables, c: Chain)
    requires Intact(t) && Repaired(t, c).1.Ok?
    ensures var (t', r) := Repaired(t, c);
            Intact(t') && Repaired(t', c) == (t', r)
  {
    RepairConverges(t, c);
    var (t', r) := Repaired(t, c);
    CompleteIsFixed(t', c, r.value);
  }

  lemma CompleteIsFixed(t: Tables, c: Chain, ctx: Context)
    requires Intact(t) && Complete(t, c, ctx)
    ensures Repaired(t, c) == (t, Ok(ctx))
  {
    var x, l :| IsChain(t, c, ctx, x, l);
    assert ExtentOn(t, c.disk) == Some(x) && LinkOf(t, x) == Some(l);
  }

  /** Rows that an interrupted attempt leaves behind never keep a later attempt from succeeding. */
  lemma RetryStillPossible(t: Tables, t': Tables, c: Chain)
    requires Intact(t) && Intact(t') && GrownByChain(t, t', c) && CanComplete(t, c)
    ensures CanComplete(t', c)
  {
    LinkedOrNot(t, c);
    if l :| l in t'.links && l !in t.links {
      assert t'.extents[t'.links[l].extent].disk == c.disk;
    } else if l :| l in t.links && t.links[l].extent in t.extents && t.extents[t.links[l].extent].disk == c.disk {
      assert t'.extents[t'.links[l].extent].disk == c.disk;
    } else if ExtentOn(t, c.disk).Some? {
      assert t'.extents[ExtentOn(t, c.disk).value].disk == c.disk;
    } else if i :| i in t'.extents && i !in t.extents {
      assert t'.extents[i].disk == c.disk;
    }
  }
}
