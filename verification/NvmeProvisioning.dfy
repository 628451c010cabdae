/** Creating an NVMe-oF volume: the ZVOL, its subsystem, namespace, port link and host link, with compensation. */
module NvmeProvisioning {
  import opened Basics
  import opened Backend
  import opened Provisioning

  // zero for rows that were not asked for
  datatype NvmeRows = NvmeRows(subsys: int, namespace: int, portLink: int, host: int, hostLink: int)

  // hosts are shared between volumes: one of this NQN may have been added
  ghost predicate HostsKept(before: map<int, string>, after: map<int, string>, q: Request) {
    RowLeft(before, after, (nqn: string) => nqn == q.hostNQN)
  }

  // the subsystem with its namespace and port link
  ghost predicate Attached(t: Contents, t': Contents, q: Request, r: NvmeRows) {
    && r.subsys !in t.subsystems && t'.subsystems == t.subsystems[r.subsys := q.name]
    && r.namespace !in t.namespaces && t'.namespaces == t.namespaces[r.namespace := Namespace(r.subsys, q.disk)]
    && r.portLink !in t.portLinks && t'.portLinks == t.portLinks[r.portLink := Join(q.port, r.subsys)]
  }

  // the host of the NQN is authorized, if one is given
  ghost predicate Authorized(t: Contents, t': Contents, q: Request, r: NvmeRows) {
    && HostsKept(t.hosts, t'.hosts, q)
    && if q.hostNQN == "" then t'.hostLinks == t.hostLinks && t'.hosts == t.hosts
       else && r.host in t'.hosts && t'.hosts[r.host] == q.hostNQN
            && r.hostLink !in t.hostLinks && t'.hostLinks == t.hostLinks[r.hostLink := Join(r.host, r.subsys)]
  }

  ghost predicate Exposed(t: Contents, t': Contents, q: Request, r: NvmeRows) {
    Made(t.datasets, t'.datasets, q.dataset) && Attached(t, t', q, r) && Authorized(t, t', q, r)
  }

  // what any failure may leave of the subsystem, and of the rows below it, all of which name a new subsystem
  ghost predicate SubsystemLeft(before: map<int, string>, after: map<int, string>, q: Request) {
    RowLeft(before, after, (name: string) => name == q.name)
  }

  ghost predicate NamespaceLeft(t: Contents, after: map<int, Namespace>, q: Request) {
    RowLeft(t.namespaces, after, (x: Namespace) => x.subsys !in t.subsystems && x.disk == q.disk)
  }

  ghost predicate PortLinkLeft(t: Contents, after: map<int, Join>, q: Request) {
    RowLeft(t.portLinks, after, (x: Join) => x.subsys !in t.subsystems && x.peer == q.port)
  }

  ghost predicate HostLinkLeft(t: Contents, after: map<int, Join>) {
    RowLeft(t.hostLinks, after, (x: Join) => x.subsys !in t.subsystems)
  }

  ghost predicate NvmeLeft(t: Contents, t': Contents, q: Request) {
    && TreeLeft(t.datasets, t'.datasets, q.dataset) && NvmeRowsLeft(t, t', q)
  }

  ghost predicate NvmeRowsLeft(t: Contents, t': Contents, q: Request) {
    && SubsystemLeft(t.subsystems, t'.subsystems, q) && NamespaceLeft(t, t'.namespaces, q)
    && PortLinkLeft(t, t'.portLinks, q) && HostsKept(t.hosts, t'.hosts, q) && HostLinkLeft(t, t'.hostLinks)
  }

  // nothing but created ancestors, a shared host and the lost row
  ghost predicate NvmeRestored(t: Contents, t': Contents, q: Request, lost: Lost) {
    SameTree(KeptDataset(t.datasets, q, lost), t'.datasets, q.dataset) && NvmeRowsRestored(t, t', q, lost)
  }

  ghost predicate NvmeRowsRestored(t: Contents, t': Contents, q: Request, lost: Lost) {
    && t'.subsystems == KeptSubsystem(t.subsystems, q, lost) && t'.namespaces == KeptNamespace(t.namespaces, q, lost)
    && t'.portLinks == KeptPortLink(t.portLinks, q, lost) && HostsKept(t.hosts, t'.hosts, q)
    && t'.hostLinks == KeptHostLink(t.hostLinks, lost)
  }

  /** An existing host is used; one that cannot be created may have been created by another request. */
  method EnsureHost(s: Server, q: Request) returns (host: Option<int>)
    modifies s`hosts
    ensures HostsKept(old(s.hosts), s.hosts, q)
    ensures host.Some? ==> host.value in s.hosts && s.hosts[host.value] == q.hostNQN
    ensures host.None? && q.hostNQN != "" ==> s.faults.Forward()
    ensures host.None? && q.hostNQN != "" && !s.faults.queries ==> forall h :: h in s.hosts ==> s.hosts[h] != q.hostNQN
  {
    if q.hostNQN == "" {
      return None;
    }
    var found := s.FindHost(q.hostNQN);
    if found.None? || found.value.Some? {
      return if found.Some? then found.value else None;
    }
    ghost var gone;
    host, s.hosts, gone := Create(s.faults, s.hosts, q.hostNQN);
    ghost var made := if host.Some? then host else gone;
    if made.Some? { OneRowLeft(old(s.hosts), s.hosts, (nqn: string) => nqn == q.hostNQN, made.value, q.hostNQN); }
    if host.None? {
      found := s.FindHost(q.hostNQN);
      host := if found.Some? then found.value else None;
    }
  }

  // the namespace and the link to the shared port; a failure removes the namespace
  method AttachPort(s: Server, q: Request, subsys: int, ghost t: Contents)
    returns (r: Option<(int, int)>, ghost lost: Lost)
    requires subsys !in t.subsystems && s.namespaces == t.namespaces && s.portLinks == t.portLinks
    modifies s`namespaces, s`portLinks
    ensures r.Some? ==>
              && r.value.0 !in t.namespaces && s.namespaces == t.namespaces[r.value.0 := Namespace(subsys, q.disk)]
              && r.value.1 !in t.portLinks && s.portLinks == t.portLinks[r.value.1 := Join(q.port, subsys)]
    ensures r.None? ==> lost.NoneLost? || lost.LostNamespace? || lost.LostPortLink?
    ensures r.None? ==> NamespaceLeft(t, s.namespaces, q) && PortLinkLeft(t, s.portLinks, q)
    ensures r.None? && !s.faults.undo ==> s.namespaces == KeptNamespace(t.namespaces, q, lost)
    ensures r.None? && !s.faults.undo ==> s.portLinks == KeptPortLink(t.portLinks, q, lost)
    ensures r.None? ==> s.faults.Forward()
    ensures !lost.NoneLost? ==> s.faults.late
  {
    r, lost := None, NoneLost;
    var n := Namespace(subsys, q.disk);
    var namespace, portLink;
    ghost var gone;
    namespace, s.namespaces, gone := Create(s.faults, s.namespaces, n);
    if namespace.None? {
      if gone.Some? {
        lost := LostNamespace(gone.value, subsys);
        NamespaceLeftBy(t, s.namespaces, q, gone.value, subsys);
      }
      return;
    }
    portLink, s.portLinks, gone := Create(s.faults, s.portLinks, Join(q.port, subsys));
    if portLink.None? {
      if gone.Some? {
        lost := LostPortLink(gone.value, subsys);
        PortLinkLeftBy(t, s.portLinks, q, gone.value, subsys);
      }
      PutDrop(t.namespaces, namespace.value, n);
      var _, after := Delete(s.faults, s.namespaces, namespace.value);
      s.namespaces := after;
      NamespaceLeftBy(t, s.namespaces, q, namespace.value, subsys);
      return;
    }
    r := Some((namespace.value, portLink.value));
  }

  lemma NamespaceLeftBy(t: Contents, after: map<int, Namespace>, q: Request, id: int, subsys: int)
    requires id !in t.namespaces && subsys !in t.subsystems
    requires after == t.namespaces || after == t.namespaces[id := Namespace(subsys, q.disk)]
    ensures NamespaceLeft(t, after, q)
  {
    OneRowLeft(t.namespaces, after, (x: Namespace) => x.subsys !in t.subsystems && x.disk == q.disk,
               id, Namespace(subsys, q.disk));
  }

  lemma PortLinkLeftBy(t: Contents, after: map<int, Join>, q: Request, id: int, subsys: int)
    requires id !in t.portLinks && subsys !in t.subsystems
    requires after == t.portLinks || after == t.portLinks[id := Join(q.port, subsys)]
    ensures PortLinkLeft(t, after, q)
  {
    OneRowLeft(t.portLinks, after, (x: Join) => x.subsys !in t.subsystems && x.peer == q.port,
               id, Join(q.port, subsys));
  }

  method DetachPort(s: Server, q: Request, r: NvmeRows, ghost t: Contents)
    requires r.subsys !in t.subsystems
    requires r.namespace !in t.namespaces && s.namespaces == t.namespaces[r.namespace := Namespace(r.subsys, q.disk)]
    requires r.portLink !in t.portLinks && s.portLinks == t.portLinks[r.portLink := Join(q.port, r.subsys)]
    modifies s`namespaces, s`portLinks
    ensures NamespaceLeft(t, s.namespaces, q) && PortLinkLeft(t, s.portLinks, q)
    ensures !s.faults.undo ==> s.namespaces == t.namespaces && s.portLinks == t.portLinks
  {
    PutDrop(t.namespaces, r.namespace, Namespace(r.subsys, q.disk));
    PutDrop(t.portLinks, r.portLink, Join(q.port, r.subsys));
    var _, portLinks := Delete(s.faults, s.portLinks, r.portLink);
    s.portLinks := portLinks;
    var _, namespaces := Delete(s.faults, s.namespaces, r.namespace);
    s.namespaces := namespaces;
    NamespaceLeftBy(t, s.namespaces, q, r.namespace, r.subsys);
    PortLinkLeftBy(t, s.portLinks, q, r.portLink, r.subsys);
  }

  method AttachHost(s: Server, q: Request, subsys: int, ghost t: Contents)
    returns (host: int, hostLink: Option<int>, ghost lost: Lost)
    requires subsys !in t.subsystems && s.hosts == t.hosts && s.hostLinks == t.hostLinks
    modifies s`hosts, s`hostLinks
    ensures HostsKept(t.hosts, s.hosts, q)
    ensures hostLink.Some? ==>
              && host in s.hosts && s.hosts[host] == q.hostNQN
              && hostLink.value !in t.hostLinks && s.hostLinks == t.hostLinks[hostLink.value := Join(host, subsys)]
    ensures hostLink.None? ==> s.hostLinks == KeptHostLink(t.hostLinks, lost) && (lost.NoneLost? || lost.LostHostLink?)
    ensures hostLink.None? ==> HostLinkLeft(t, s.hostLinks)
    ensures hostLink.None? && q.hostNQN != "" ==> s.faults.Forward()
    ensures !lost.NoneLost? ==> s.faults.late
  {
    lost := NoneLost;
    var h := EnsureHost(s, q);
    if h.None? {
      return 0, None, lost;
    }
    host := h.value;
    ghost var gone;
    hostLink, s.hostLinks, gone := Create(s.faults, s.hostLinks, Join(host, subsys));
    if hostLink.None? && gone.Some? {
      lost := LostHostLink(gone.value, Join(host, subsys));
      OneRowLeft(t.hostLinks, s.hostLinks, (x: Join) => x.subsys !in t.subsystems, gone.value, Join(host, subsys));
    }
  }

  method UndoSubsystem(s: Server, q: Request, subsys: int, ghost before: map<int, string>)
    requires subsys !in before && s.subsystems == before[subsys := q.name]
    modifies s`subsystems
    ensures !s.faults.undo ==> s.subsystems == before
    ensures SubsystemLeft(before, s.subsystems, q)
  {
    PutDrop(before, subsys, q.name);
    var _, after := Delete(s.faults, s.subsystems, subsys);
    s.subsystems := after;
    OneRowLeft(before, s.subsystems, (name: string) => name == q.name, subsys, q.name);
  }

  // the subsystem with its namespace and port link; a failure removes what was created
  method AttachVolume(s: Server, q: Request) returns (rows: Option<NvmeRows>, ghost lost: Lost)
    modifies s`subsystems, s`namespaces, s`portLinks
    ensures rows.Some? ==> Attached(old(s.Value()), s.Value(), q, rows.value)
    ensures rows.None? ==> NvmeRowsLeft(old(s.Value()), s.Value(), q)
    ensures rows.None? ==> lost.NoneLost? || lost.LostSubsystem? || lost.LostNamespace? || lost.LostPortLink?
    ensures rows.None? && !s.faults.undo ==> NvmeRowsRestored(old(s.Value()), s.Value(), q, lost)
    ensures rows.None? ==> s.faults.Forward()
    ensures !lost.NoneLost? ==> s.faults.late
  {
    ghost var t := s.Value();
    rows, lost := None, NoneLost;
    var subsys;
    ghost var gone;
    subsys, s.subsystems, gone := Create(s.faults, s.subsystems, q.name);
    if subsys.None? {
      if gone.Some? {
        lost := LostSubsystem(gone.value);
        OneRowLeft(t.subsystems, s.subsystems, (name: string) => name == q.name, gone.value, q.name);
      }
      return;
    }
    var ports;
    ports, lost := AttachPort(s, q, subsys.value, t);
    if ports.None? {
      UndoSubsystem(s, q, subsys.value, t.subsystems);
      return None, lost;
    }
    rows := Some(NvmeRows(subsys.value, ports.value.0, ports.value.1, 0, 0));
  }

  method CreateNvmeRows(s: Server, q: Request) returns (rows: Option<NvmeRows>, ghost lost: Lost)
    modifies s`subsystems, s`namespaces, s`portLinks, s`hosts, s`hostLinks
    ensures rows.Some? ==> Attached(old(s.Value()), s.Value(), q, rows.value)
    ensures rows.Some? ==> Authorized(old(s.Value()), s.Value(), q, rows.value)
    ensures rows.None? ==> NvmeRowsLeft(old(s.Value()), s.Value(), q) && !lost.LostDataset?
    ensures rows.None? && !s.faults.undo ==> NvmeRowsRestored(old(s.Value()), s.Value(), q, lost)
    ensures rows.None? ==> s.faults.Forward()
    ensures !lost.NoneLost? ==> s.faults.late
  {
    ghost var t := s.Value();
    rows, lost := AttachVolume(s, q);
    if rows.None? || q.hostNQN == "" {
      return;
    }
    var r := rows.value;
    var host, hostLink;
    host, hostLink, lost := AttachHost(s, q, r.subsys, t);
    if hostLink.None? {
      DetachPort(s, q, r, t);
      UndoSubsystem(s, q, r.subsys, t.subsystems);
      return None, lost;
    }
    rows := Some(r.(host := host, hostLink := hostLink.value));
  }

  /**
   createNVMeOFVolume: the whole chain; or nothing but a shared host, deletions that failed and
   a row that was lost.
   */
  method CreateNVMeOFVolume(s: Server, q: Request)
    returns (rows: Option<NvmeRows>, ghost lost: Lost)
    requires s.Valid()
    modifies s`datasets, s`subsystems, s`namespaces, s`portLinks, s`hosts, s`hostLinks
    ensures s.Valid()
    ensures rows.Some? ==> Exposed(old(s.Value()), s.Value(), q, rows.value)
    ensures rows.None? ==> NvmeLeft(old(s.Value()), s.Value(), q)
    ensures rows.None? && !s.faults.undo ==> NvmeRestored(old(s.Value()), s.Value(), q, lost)
    ensures rows.Some? ==> Creatable(old(s.datasets), q.dataset, q.createAncestors)
    ensures rows.None? && Creatable(old(s.datasets), q.dataset, q.createAncestors) ==> s.faults.Forward()
    ensures !lost.NoneLost? ==> s.faults.late
  {
    var ok;
    ok, lost := CreateOwnDataset(s, q);
    if !ok {
      return None, lost;
    }
    rows, lost := CreateNvmeRows(s, q);
    if rows.None? {
      UndoDataset(s, q, old(s.datasets));
    }
  }
}
