/** Creating an iSCSI volume: the ZVOL, its access rows, target, extent and association, with compensation. */
module IscsiProvisioning {
  import opened Basics
  import opened IscsiTables
  import opened Backend
  import opened Provisioning

  // zero for a row that was not asked for
  datatype IscsiRows = IscsiRows(auth: int, tag: int, initiator: int, target: int, extent: int, link: int)

  // an own CHAP tag if a user is given
  ghost predicate Authenticated(before: map<int, int>, after: map<int, int>, q: Request, auth: int, tag: int) {
    if q.chapUser
    then auth > 0 && auth !in before && after == before[auth := tag] && tag > 0 && IsFreeTag(before, tag)
    else auth == 0 && tag == 0 && after == before
  }

  predicate IsFreeTag(auths: map<int, int>, tag: int) { forall i :: i in auths ==> auths[i] != tag }

  // an own initiator group if one is asked for
  ghost predicate Grouped(before: map<int, string>, after: map<int, string>, q: Request, initiator: int) {
    if q.initiators != ""
    then initiator > 0 && initiator !in before && after == before[initiator := q.initiators]
    else initiator == 0 && after == before
  }

  // the request can be met: a dataset that can be created, and a secret for every user
  predicate Feasible(datasets: set<Path>, q: Request) {
    Creatable(datasets, q.dataset, q.createAncestors) && (q.chapUser ==> q.chapSecret)
  }

  // every row of the chain is new and refers to the others, with LUN 0 of the target on the disk
  ghost predicate Chained(t: Contents, t': Contents, q: Request, r: IscsiRows) {
    && Made(t.datasets, t'.datasets, q.dataset)
    && Authenticated(t.auths, t'.auths, q, r.auth, r.tag)
    && Grouped(t.initiators, t'.initiators, q, r.initiator)
    && Exported(t, t', q, r)
  }

  // the target is called as asked and names the credential and the group that were made for it
  ghost predicate Names(x: Target, auths: map<int, int>, initiators: map<int, string>, q: Request, r: IscsiRows) {
    && x.name == q.name
    && (if q.chapUser then r.auth in auths && x.authTag == auths[r.auth] else x.authTag == 0)
    && (if q.initiators != "" then x.initiator in initiators && initiators[x.initiator] == q.initiators
        else x.initiator == 0)
    && (x.mutual <==> q.chapUser && q.chapPeer)
  }

  ghost predicate Exported(t: Contents, t': Contents, q: Request, r: IscsiRows) {
    && r.target !in t.targets && r.target in t'.targets && t'.targets == t.targets[r.target := t'.targets[r.target]]
    && Names(t'.targets[r.target], t'.auths, t'.initiators, q, r)
    && r.extent !in t.extents && t'.extents == t.extents[r.extent := Extent(q.extentName, q.disk)]
    && r.link !in t.links && t'.links == t.links[r.link := Link(r.target, r.extent, 0)]
  }

  // what any failure may leave of the credential, the group, the target, the extent and the association
  ghost predicate AuthLeft(before: map<int, int>, after: map<int, int>) {
    RowLeft(before, after, (tag: int) => IsFreeTag(before, tag))
  }

  ghost predicate GroupLeft(before: map<int, string>, after: map<int, string>, q: Request) {
    RowLeft(before, after, (group: string) => group == q.initiators)
  }

  ghost predicate TargetLeft(before: map<int, Target>, after: map<int, Target>, q: Request) {
    RowLeft(before, after, (x: Target) => x.name == q.name)
  }

  ghost predicate ExtentLeft(before: map<int, Extent>, after: map<int, Extent>, q: Request) {
    RowLeft(before, after, (x: Extent) => x == Extent(q.extentName, q.disk))
  }

  // an association that is left leads from a target to an extent that are both new
  ghost predicate LinkLeft(before: map<int, Link>, after: map<int, Link>,
                           targets: map<int, Target>, extents: map<int, Extent>)
  {
    RowLeft(before, after, (x: Link) => x.target !in targets && x.extent !in extents)
  }

  ghost predicate IscsiLeft(t: Contents, t': Contents, q: Request) {
    && TreeLeft(t.datasets, t'.datasets, q.dataset)
    && AuthLeft(t.auths, t'.auths) && GroupLeft(t.initiators, t'.initiators, q)
    && TargetLeft(t.targets, t'.targets, q) && ExtentLeft(t.extents, t'.extents, q)
    && LinkLeft(t.links, t'.links, t.targets, t.extents)
  }

  // nothing but created ancestors and the lost row
  ghost predicate IscsiRestored(t: Contents, t': Contents, q: Request, lost: Lost) {
    && SameTree(KeptDataset(t.datasets, q, lost), t'.datasets, q.dataset)
    && t'.auths == KeptAuth(t.auths, lost) && t'.initiators == KeptInitiator(t.initiators, q, lost)
    && t'.targets == KeptTarget(t.targets, lost) && t'.extents == KeptExtent(t.extents, q, lost)
    && t'.links == t.links
  }

  // a credential without a secret is refused
  method CreateChap(s: Server, q: Request) returns (ok: bool, auth: int, tag: int, ghost lost: Lost)
    requires q.chapUser
    modifies s`auths
    ensures ok ==> Authenticated(old(s.auths), s.auths, q, auth, tag)
    ensures !ok ==> s.auths == KeptAuth(old(s.auths), lost) && (lost.NoneLost? || lost.LostAuth?)
    ensures !ok ==> AuthLeft(old(s.auths), s.auths)
    ensures ok ==> q.chapSecret
    ensures !ok && q.chapSecret ==> s.faults.Forward()
    ensures !lost.NoneLost? ==> s.faults.late
  {
    ok, auth, tag, lost := false, 0, 0, NoneLost;
    if !q.chapSecret {
      return;
    }
    var tags := s.ListTags();
    if tags.None? {
      return;
    }
    tag := NextAuthTag(tags.value);
    var id;
    ghost var gone;
    id, s.auths, gone := Create(s.faults, s.auths, tag);
    if id.None? {
      if gone.Some? {
        lost := LostAuth(gone.value, tag);
        OneRowLeft(old(s.auths), s.auths, (x: int) => IsFreeTag(old(s.auths), x), gone.value, tag);
      }
      return;
    }
    ok, auth := true, id.value;
  }

  // only a credential that was created is deleted
  method UndoAuth(s: Server, q: Request, auth: int, tag: int, ghost before: map<int, int>)
    requires Authenticated(before, s.auths, q, auth, tag)
    modifies s`auths
    ensures !s.faults.undo ==> s.auths == before
    ensures AuthLeft(before, s.auths)
  {
    if auth > 0 {
      PutDrop(before, auth, tag);
      var _, after := Delete(s.faults, s.auths, auth);
      s.auths := after;
      OneRowLeft(before, s.auths, (x: int) => IsFreeTag(before, x), auth, tag);
    }
  }

  method UndoInitiator(s: Server, q: Request, initiator: int, ghost before: map<int, string>)
    requires Grouped(before, s.initiators, q, initiator)
    modifies s`initiators
    ensures !s.faults.undo ==> s.initiators == before
    ensures GroupLeft(before, s.initiators, q)
  {
    if initiator > 0 {
      PutDrop(before, initiator, q.initiators);
      var _, after := Delete(s.faults, s.initiators, initiator);
      s.initiators := after;
      OneRowLeft(before, s.initiators, (x: string) => x == q.initiators, initiator, q.initiators);
    }
  }

  method UndoAccess(s: Server, q: Request, auth: int, tag: int, initiator: int,
                    ghost auths: map<int, int>, ghost initiators: map<int, string>)
    requires Authenticated(auths, s.auths, q, auth, tag) && Grouped(initiators, s.initiators, q, initiator)
    modifies s`auths, s`initiators
    ensures !s.faults.undo ==> s.auths == auths && s.initiators == initiators
    ensures AuthLeft(auths, s.auths) && GroupLeft(initiators, s.initiators, q)
  {
    UndoInitiator(s, q, initiator, initiators);
    UndoAuth(s, q, auth, tag, auths);
  }

  method CreateGroup(s: Server, q: Request) returns (initiator: Option<int>, ghost lost: Lost)
    modifies s`initiators
    ensures initiator.Some? ==> Grouped(old(s.initiators), s.initiators, q, initiator.value)
    ensures initiator.None? ==> lost.NoneLost? || lost.LostInitiator?
    ensures initiator.None? ==> s.initiators == KeptInitiator(old(s.initiators), q, lost)
    ensures initiator.None? ==> GroupLeft(old(s.initiators), s.initiators, q)
    ensures initiator.None? ==> s.faults.Forward()
    ensures !lost.NoneLost? ==> s.faults.late
  {
    initiator, lost := Some(0), NoneLost;
    if q.initiators == "" {
      return;
    }
    ghost var gone;
    initiator, s.initiators, gone := Create(s.faults, s.initiators, q.initiators);
    if initiator.None? && gone.Some? {
      lost := LostInitiator(gone.value);
      OneRowLeft(old(s.initiators), s.initiators, (x: string) => x == q.initiators, gone.value, q.initiators);
    }
  }

  /** A CHAP credential under a tag of its own and an initiator group, as far as they are asked for. */
  method CreateAccess(s: Server, q: Request)
    returns (ok: bool, auth: int, tag: int, initiator: int, ghost lost: Lost)
    modifies s`auths, s`initiators
    ensures ok ==> Authenticated(old(s.auths), s.auths, q, auth, tag)
    ensures ok ==> Grouped(old(s.initiators), s.initiators, q, initiator)
    ensures !ok ==> lost.NoneLost? || lost.LostAuth? || lost.LostInitiator?
    ensures !ok ==> AuthLeft(old(s.auths), s.auths) && GroupLeft(old(s.initiators), s.initiators, q)
    ensures !ok && !s.faults.undo ==> s.auths == KeptAuth(old(s.auths), lost)
    ensures !ok && !s.faults.undo ==> s.initiators == KeptInitiator(old(s.initiators), q, lost)
    ensures ok && q.chapUser ==> q.chapSecret
    ensures !ok && (q.chapUser ==> q.chapSecret) ==> s.faults.Forward()
    ensures !lost.NoneLost? ==> s.faults.late
  {
    ok, auth, tag, initiator, lost := true, 0, 0, 0, NoneLost;
    if q.chapUser {
      ok, auth, tag, lost := CreateChap(s, q);
      if !ok {
        return;
      }
    }
    var group;
    group, lost := CreateGroup(s, q);
    if group.None? {
      ok := false;
      UndoAuth(s, q, auth, tag, old(s.auths));
      return;
    }
    initiator := group.value;
  }

  // the target goes with whatever association it has; no other is touched
  method UndoTarget(s: Server, id: int, ghost row: Target, ghost link: Option<int>, ghost extent: int,
                    ghost t: Contents)
    requires id !in t.targets && s.targets == t.targets[id := row]
    requires forall l :: l in t.links ==> t.links[l].target != id
    requires link.Some? ==> link.value !in t.links
    requires s.links == Added(t.links, link, Link(id, extent, 0))
    modifies s`targets, s`links
    ensures !s.faults.undo ==> s.targets == t.targets && s.links == t.links
    ensures s.targets == t.targets || s.targets == t.targets[id := row]
    ensures || s.links == t.links
            || (s.links == Added(t.links, link, Link(id, extent, 0)) && s.targets == t.targets[id := row])
  {
    PutDrop(t.targets, id, row);
    var _ := s.DeleteTarget(id);
    WithoutLink(t.links, s.links, link, Link(id, extent, 0));
    assert id in old(s.targets) && id !in t.targets;
    if link.Some? {
      ghost var l: int := link.value;
      assert l in s.links ==> s.links[l].target == id;
      assert l in s.links ==> !Unlinked(s.links, id);
    }
  }

  lemma WithoutLink(before: map<int, Link>, after: map<int, Link>, link: Option<int>, row: Link)
    requires link.Some? ==> link.value !in before
    requires forall l :: l in after ==> l in Added(before, link, row) && after[l] == Added(before, link, row)[l]
    requires forall l :: l in before ==> l in after
    ensures after == if link.Some? && link.value in after then Added(before, link, row) else before
  {
    var whole := if link.Some? && link.value in after then Added(before, link, row) else before;
    assert forall l :: l in after ==> l in whole && whole[l] == after[l];
    assert forall l :: l in whole ==> l in after;
  }

  ghost predicate ExportLeft(t: Contents, t': Contents, q: Request) {
    && TargetLeft(t.targets, t'.targets, q) && ExtentLeft(t.extents, t'.extents, q)
    && LinkLeft(t.links, t'.links, t.targets, t.extents)
  }

  // every association leads to a target that exists
  predicate LinksLead(links: map<int, Link>, targets: map<int, Target>) {
    forall l :: l in links ==> links[l].target in targets
  }

  // the extent and its association with the target; a failure removes both and the target
  method ExportDisk(s: Server, q: Request, target: int, row: Target, ghost t: Contents)
    returns (extent: int, link: Option<int>, ghost lost: Lost)
    requires row.name == q.name && target !in t.targets && LinksLead(t.links, t.targets)
    requires s.targets == t.targets[target := row] && s.extents == t.extents && s.links == t.links
    modifies s`targets, s`extents, s`links
    ensures LinksLead(s.links, s.targets)
    ensures link.Some? ==>
              && s.targets == t.targets[target := row]
              && extent !in t.extents && s.extents == t.extents[extent := Extent(q.extentName, q.disk)]
              && link.value !in t.links && s.links == t.links[link.value := Link(target, extent, 0)]
    ensures link.None? ==> ExportLeft(t, s.Value(), q) && (lost.NoneLost? || lost.LostExtent?)
    ensures link.None? && !s.faults.undo ==>
              s.targets == t.targets && s.extents == KeptExtent(t.extents, q, lost) && s.links == t.links
    ensures link.None? ==> s.faults.Forward()
    ensures !lost.NoneLost? ==> s.faults.late
  {
    extent, link, lost := 0, None, NoneLost;
    var id;
    ghost var gone;
    id, s.extents, gone := Create(s.faults, s.extents, Extent(q.extentName, q.disk));
    if id.None? {
      lost := if gone.Some? then LostExtent(gone.value) else NoneLost;
      UndoTarget(s, target, row, None, 0, t);
      ExportLeftBy(t, s.Value(), q, target, row, gone, None, Link(target, 0, 0));
      return;
    }
    extent := id.value;
    link := LinkDisk(s, q, target, row, extent, t);
  }

  method LinkDisk(s: Server, q: Request, target: int, row: Target, extent: int, ghost t: Contents)
    returns (link: Option<int>)
    requires row.name == q.name && target !in t.targets && LinksLead(t.links, t.targets) && extent !in t.extents
    requires s.targets == t.targets[target := row] && s.links == t.links
    requires s.extents == t.extents[extent := Extent(q.extentName, q.disk)]
    modifies s`targets, s`extents, s`links
    ensures LinksLead(s.links, s.targets)
    ensures link.Some? ==>
              && s.targets == t.targets[target := row] && s.extents == old(s.extents)
              && link.value !in t.links && s.links == t.links[link.value := Link(target, extent, 0)]
    ensures link.None? ==> ExportLeft(t, s.Value(), q)
    ensures link.None? && !s.faults.undo ==> s.targets == t.targets && s.extents == t.extents && s.links == t.links
    ensures link.None? ==> s.faults.Forward()
  {
    ghost var gone;
    link, s.links, gone := Create(s.faults, s.links, Link(target, extent, 0));
    if link.None? {
      PutDrop(t.extents, extent, Extent(q.extentName, q.disk));
      var _, after := Delete(s.faults, s.extents, extent);
      s.extents := after;
      UndoTarget(s, target, row, gone, extent, t);
      ExportLeftBy(t, s.Value(), q, target, row, Some(extent), gone, Link(target, extent, 0));
    }
  }

  lemma ExportLeftBy(t: Contents, t': Contents, q: Request, target: int, row: Target,
                     extent: Option<int>, link: Option<int>, l: Link)
    requires row.name == q.name && target !in t.targets
    requires extent.Some? ==> extent.value !in t.extents
    requires link.Some? ==> link.value !in t.links && l.target == target && extent == Some(l.extent)
    requires t'.targets == t.targets || t'.targets == t.targets[target := row]
    requires t'.extents == t.extents || t'.extents == Added(t.extents, extent, Extent(q.extentName, q.disk))
    requires t'.links == t.links || t'.links == Added(t.links, link, l)
    ensures ExportLeft(t, t', q)
  {
    OneRowLeft(t.targets, t'.targets, (x: Target) => x.name == q.name, target, row);
    if extent.Some? {
      var e := Extent(q.extentName, q.disk);
      OneRowLeft(t.extents, t'.extents, (x: Extent) => x == e, extent.value, e);
    }
    if link.Some? {
      OneRowLeft(t.links, t'.links, (x: Link) => x.target !in t.targets && x.extent !in t.extents, link.value, l);
    }
  }

  /** The target, the extent and their association; a failure removes what was created. */
  method ExportTarget(s: Server, q: Request, row: Target)
    returns (target: int, extent: int, link: Option<int>, ghost lost: Lost)
    requires row.name == q.name && LinksLead(s.links, s.targets)
    modifies s`targets, s`extents, s`links
    ensures LinksLead(s.links, s.targets)
    ensures link.Some? ==>
              && target !in old(s.targets) && s.targets == old(s.targets)[target := row]
              && extent !in old(s.extents) && s.extents == old(s.extents)[extent := Extent(q.extentName, q.disk)]
              && link.value !in old(s.links) && s.links == old(s.links)[link.value := Link(target, extent, 0)]
    ensures link.None? ==> ExportLeft(old(s.Value()), s.Value(), q)
    ensures link.None? ==> lost.NoneLost? || lost.LostTarget? || lost.LostExtent?
    ensures link.None? && !s.faults.undo ==>
              && s.targets == KeptTarget(old(s.targets), lost) && s.extents == KeptExtent(old(s.extents), q, lost)
              && s.links == old(s.links)
    ensures link.None? ==> s.faults.Forward()
    ensures !lost.NoneLost? ==> s.faults.late
  {
    ghost var t := s.Value();
    target, extent, link, lost := 0, 0, None, NoneLost;
    var id;
    ghost var gone;
    id, s.targets, gone := Create(s.faults, s.targets, row);
    if id.None? {
      if gone.Some? {
        lost := LostTarget(gone.value, row);
        OneRowLeft(t.targets, s.targets, (x: Target) => x.name == q.name, gone.value, row);
      }
      return;
    }
    target := id.value;
    extent, link, lost := ExportDisk(s, q, target, row, t);
  }

  lemma NamesOwn(t: Contents, t': Contents, q: Request, r: IscsiRows)
    requires Authenticated(t.auths, t'.auths, q, r.auth, r.tag) && Grouped(t.initiators, t'.initiators, q, r.initiator)
    ensures Names(Target(q.name, r.tag, r.initiator, q.chapUser && q.chapPeer), t'.auths, t'.initiators, q, r)
  {
  }

  // the rows of the chain without the dataset
  method CreateIscsiRows(s: Server, q: Request) returns (rows: Option<IscsiRows>, ghost lost: Lost)
    requires LinksLead(s.links, s.targets)
    modifies s`auths, s`initiators, s`targets, s`extents, s`links
    ensures LinksLead(s.links, s.targets)
    ensures rows.Some? ==>
              var r, t, t' := rows.value, old(s.Value()), s.Value();
              && Authenticated(t.auths, t'.auths, q, r.auth, r.tag)
              && Grouped(t.initiators, t'.initiators, q, r.initiator)
              && Exported(t, t', q, r)
    ensures rows.None? ==> AuthLeft(old(s.auths), s.auths) && GroupLeft(old(s.initiators), s.initiators, q)
    ensures rows.None? ==> ExportLeft(old(s.Value()), s.Value(), q)
    ensures rows.None? ==>
              lost.NoneLost? || lost.LostAuth? || lost.LostInitiator? || lost.LostTarget? || lost.LostExtent?
    ensures rows.None? && !s.faults.undo ==>
              && s.auths == KeptAuth(old(s.auths), lost) && s.initiators == KeptInitiator(old(s.initiators), q, lost)
              && s.targets == KeptTarget(old(s.targets), lost) && s.extents == KeptExtent(old(s.extents), q, lost)
              && s.links == old(s.links)
    ensures rows.Some? && q.chapUser ==> q.chapSecret
    ensures rows.None? && (q.chapUser ==> q.chapSecret) ==> s.faults.Forward()
    ensures !lost.NoneLost? ==> s.faults.late
  {
    var ok, auth, tag, initiator;
    ok, auth, tag, initiator, lost := CreateAccess(s, q);
    if !ok {
      return None, lost;
    }
    var row := Target(q.name, tag, initiator, q.chapUser && q.chapPeer);
    var target, extent, link;
    target, extent, link, lost := ExportTarget(s, q, row);
    if link.None? {
      UndoAccess(s, q, auth, tag, initiator, old(s.auths), old(s.initiators));
      return None, lost;
    }
    rows := Some(IscsiRows(auth, tag, initiator, target, extent, link.value));
    NamesOwn(old(s.Value()), s.Value(), q, rows.value);
  }

  /** createISCSIVolume: the whole chain; or nothing, but for deletions that failed and a row that was lost. */
  method CreateISCSIVolume(s: Server, q: Request)
    returns (rows: Option<IscsiRows>, ghost lost: Lost)
    requires s.Valid()
    modifies s`datasets, s`auths, s`initiators, s`targets, s`extents, s`links
    ensures s.Valid()
    ensures rows.Some? ==> Chained(old(s.Value()), s.Value(), q, rows.value)
    ensures rows.None? ==> IscsiLeft(old(s.Value()), s.Value(), q)
    ensures rows.None? && !s.faults.undo ==> IscsiRestored(old(s.Value()), s.Value(), q, lost)
    ensures rows.Some? ==> Feasible(old(s.datasets), q)
    ensures rows.None? && Feasible(old(s.datasets), q) ==> s.faults.Forward()
    ensures !lost.NoneLost? ==> s.faults.late
  {
    var ok;
    ok, lost := CreateOwnDataset(s, q);
    if !ok {
      return None, lost;
    }
    rows, lost := CreateIscsiRows(s, q);
    if rows.None? {
      UndoDataset(s, q, old(s.datasets));
    }
  }
}
