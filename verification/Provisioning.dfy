/**
 Creating a volume over NFS, iSCSI or NVMe-oF: one row after another, and on a failure the
 compensating deletions in reverse order. Any call the server is unreliable for may fail, with
 or without its effect. `lost` names the row of the creating call that failed after its effect,
 whose ID nobody learned.
 */
module Provisioning {
  import opened Basics
  import opened IscsiTables
  import opened Backend

  datatype Request = Request(
    name: string,                 // the name of the target or the subsystem
    extentName: string,
    dataset: Path,
    disk: string,                 // the device path of the ZVOL
    createAncestors: bool,
    chapUser: bool, chapSecret: bool, chapPeer: bool,
    initiators: string,           // empty when no group is asked for
    port: int,
    hostNQN: string)              // empty when any host may connect

  // ---------- what a failed creation leaves ----------

  datatype Lost =
    | NoneLost | LostDataset | LostShare(id: int)
    | LostAuth(id: int, tag: int) | LostInitiator(id: int) | LostTarget(id: int, target: Target) | LostExtent(id: int)
    | LostSubsystem(id: int) | LostNamespace(id: int, subsys: int)
    | LostPortLink(id: int, subsys: int) | LostHostLink(id: int, link: Join)

  // a table with the lost row, if it is one of this table
  function KeptDataset(datasets: set<Path>, q: Request, lost: Lost): set<Path> {
    if lost.LostDataset? then datasets + {q.dataset} else datasets
  }

  function KeptShare(shares: map<int, Path>, q: Request, lost: Lost): map<int, Path> {
    if lost.LostShare? then shares[lost.id := q.dataset] else shares
  }

  function KeptAuth(auths: map<int, int>, lost: Lost): map<int, int> {
    if lost.LostAuth? then auths[lost.id := lost.tag] else auths
  }

  function KeptInitiator(initiators: map<int, string>, q: Request, lost: Lost): map<int, string> {
    if lost.LostInitiator? then initiators[lost.id := q.initiators] else initiators
  }

  function KeptTarget(targets: map<int, Target>, lost: Lost): map<int, Target> {
    if lost.LostTarget? then targets[lost.id := lost.target] else targets
  }

  function KeptExtent(extents: map<int, Extent>, q: Request, lost: Lost): map<int, Extent> {
    if lost.LostExtent? then extents[lost.id := Extent(q.extentName, q.disk)] else extents
  }

  function KeptSubsystem(subsystems: map<int, string>, q: Request, lost: Lost): map<int, string> {
    if lost.LostSubsystem? then subsystems[lost.id := q.name] else subsystems
  }

  function KeptNamespace(namespaces: map<int, Namespace>, q: Request, lost: Lost): map<int, Namespace> {
    if lost.LostNamespace? then namespaces[lost.id := Namespace(lost.subsys, q.disk)] else namespaces
  }

  function KeptPortLink(portLinks: map<int, Join>, q: Request, lost: Lost): map<int, Join> {
    if lost.LostPortLink? then portLinks[lost.id := Join(q.port, lost.subsys)] else portLinks
  }

  function KeptHostLink(hostLinks: map<int, Join>, lost: Lost): map<int, Join> {
    if lost.LostHostLink? then hostLinks[lost.id := lost.link] else hostLinks
  }

  // every earlier dataset stays, and only the volume's own and its ancestors can be left
  ghost predicate TreeLeft(before: set<Path>, after: set<Path>, p: Path) {
    before <= after <= before + Above(p) + {p}
  }

  // every earlier row stays, and at most one row is left, an own one
  ghost predicate RowLeft<V(!new)>(before: map<int, V>, after: map<int, V>, own: V -> bool) {
    after == before || exists id :: IsRowLeft(before, after, own, id)
  }

  ghost predicate IsRowLeft<V(!new)>(before: map<int, V>, after: map<int, V>, own: V -> bool, id: int) {
    id !in before && id in after && own(after[id]) && after == before[id := after[id]]
  }

  lemma OneRowLeft<V(!new)>(before: map<int, V>, after: map<int, V>, own: V -> bool, id: int, row: V)
    requires id !in before && own(row)
    requires after == before || after == before[id := row]
    ensures RowLeft(before, after, own)
  {
    assert after != before ==> IsRowLeft(before, after, own, id);
  }

  // ---------- the dataset ----------

  method CreateOwnDataset(s: Server, q: Request) returns (ok: bool, ghost lost: Lost)
    requires Tree(s.datasets)
    modifies s`datasets
    ensures Tree(s.datasets)
    ensures ok ==> Made(old(s.datasets), s.datasets, q.dataset)
    ensures !ok ==> (lost.NoneLost? || lost.LostDataset?) && TreeLeft(old(s.datasets), s.datasets, q.dataset)
    ensures !ok ==> SameTree(KeptDataset(old(s.datasets), q, lost), s.datasets, q.dataset)
    ensures ok ==> Creatable(old(s.datasets), q.dataset, q.createAncestors)
    ensures !ok && Creatable(old(s.datasets), q.dataset, q.createAncestors) ==> s.faults.creates
    ensures !lost.NoneLost? ==> s.faults.late
  {
    ghost var late;
    ok, late := s.CreateDataset(q.dataset, q.createAncestors);
    lost := if late then LostDataset else NoneLost;
  }

  method UndoDataset(s: Server, q: Request, ghost before: set<Path>)
    requires Tree(before) && Tree(s.datasets) && Made(before, s.datasets, q.dataset)
    modifies s`datasets
    ensures Tree(s.datasets) && TreeLeft(before, s.datasets, q.dataset)
    ensures !s.faults.undo ==> SameTree(before, s.datasets, q.dataset)
  {
    FreshSubtree(before, s.datasets, q.dataset);
    var _ := s.DeleteDataset(q.dataset);
  }

  // ---------- NFS ----------

  ghost predicate Shared(t: Contents, t': Contents, q: Request, share: int) {
    && Made(t.datasets, t'.datasets, q.dataset)
    && share !in t.shares && t'.shares == t.shares[share := q.dataset]
  }

  // what any failure may leave
  ghost predicate NfsLeft(t: Contents, t': Contents, q: Request) {
    && TreeLeft(t.datasets, t'.datasets, q.dataset)
    && RowLeft(t.shares, t'.shares, (p: Path) => p == q.dataset)
  }

  // nothing but created ancestors and the lost row
  ghost predicate NfsRestored(t: Contents, t': Contents, q: Request, lost: Lost) {
    SameTree(KeptDataset(t.datasets, q, lost), t'.datasets, q.dataset) && t'.shares == KeptShare(t.shares, q, lost)
  }

  /** createNFSVolume: a dataset with a share; or nothing, but for deletions that failed and a row that was lost. */
  method CreateNFSVolume(s: Server, q: Request) returns (share: Option<int>, ghost lost: Lost)
    requires s.Valid()
    modifies s`datasets, s`shares
    ensures s.Valid()
    ensures share.Some? ==> Shared(old(s.Value()), s.Value(), q, share.value)
    ensures share.None? ==> NfsLeft(old(s.Value()), s.Value(), q)
    ensures share.None? && !s.faults.undo ==> NfsRestored(old(s.Value()), s.Value(), q, lost)
    ensures !lost.NoneLost? ==> s.faults.late
    ensures share.Some? ==> Creatable(old(s.datasets), q.dataset, q.createAncestors)
    ensures share.None? && Creatable(old(s.datasets), q.dataset, q.createAncestors) ==> s.faults.creates
  {
    var ok;
    ok, lost := CreateOwnDataset(s, q);
    if !ok {
      return None, lost;
    }
    ghost var gone;
    share, s.shares, gone := Create(s.faults, s.shares, q.dataset);
    lost := if gone.Some? then LostShare(gone.value) else NoneLost;
    if share.None? {
      UndoDataset(s, q, old(s.datasets));
      if gone.Some? { OneRowLeft(old(s.shares), s.shares, (p: Path) => p == q.dataset, gone.value, q.dataset); }
    }
  }
}
