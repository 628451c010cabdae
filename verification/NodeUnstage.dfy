/**
 NodeUnstageVolume on the tables of a node. Unless the node works, every look at a table and
 every command may fail; a command that fails may have done part of its work.
 */
module NodeUnstage {
  import opened Basics
  import opened PathText
  import opened BlockDevices
  import opened MountTable
  import opened VolumeNames
  import opened NodeDiscovery
  import opened NodeIdentity

  function Anchor(staging: string): string { Clean(staging + "/block_device") }

  // no mount is left at the path, here or through the host mirror
  predicate NotMounted(mounts: seq<MountPoint>, path: string) { EffectiveCanonicalMount(mounts, path).None? }

  // mounts at one canonical path, and no others, may be gone
  ghost predicate Unmounted(m: seq<MountPoint>, m': seq<MountPoint>, path: string) {
    && (forall e :: e in m' ==> e in m)
    && (forall e :: e in m && Canonical(e.path) != Canonical(path) ==> e in m')
  }

  // two rows show the same part of the same filesystem
  predicate SameMount(e: MountPoint, f: MountPoint) { e.root == f.root && e.number == f.number }

  // the mount is visible at other places, host mirrors folded in
  ghost predicate Published(mounts: seq<MountPoint>, entry: MountPoint) {
    exists e :: e in mounts && SameMount(e, entry) && Canonical(e.path) != Canonical(entry.path)
  }

  // the one staging mount, if there is one; mounts at both places, or a mirror alone, are refused
  ghost predicate StagedAs(mounts: seq<MountPoint>, staging: string, entry: Option<MountPoint>) {
    var filesystem, block := EffectiveMount(mounts, staging), EffectiveMount(mounts, Anchor(staging));
    && (filesystem.None? ==> NotMounted(mounts, staging)) && (block.None? ==> NotMounted(mounts, Anchor(staging)))
    && (filesystem.None? || block.None?) && entry == (if filesystem.Some? then filesystem else block)
  }

  /** A mount left at the host's view of a path counts as a mount at the path. */
  lemma MirrorIsSeen(mounts: seq<MountPoint>, path: string, mirror: MountPoint)
    requires Mirrored(path) && mirror in mounts && Clean(mirror.path) == "/host" + Clean(path)
    ensures !NotMounted(mounts, path)
  {
    MirrorIsFolded(path);
    CleanIdempotent(path);
    assert HasPrefix(Clean(mirror.path), "/host/");
    assert Canonical(mirror.path) == Clean(path);
  }

  /** The host's view of the staging mount does not make a volume published. */
  lemma MirrorIsNoPublication(mounts: seq<MountPoint>, entry: MountPoint)
    requires Mirrored(entry.path)
    requires forall e :: e in mounts && SameMount(e, entry) ==>
                           Clean(e.path) == Clean(entry.path) || Clean(e.path) == "/host" + Clean(entry.path)
    ensures !Published(mounts, entry)
  {
    forall e | e in mounts && SameMount(e, entry) ensures Canonical(e.path) == Canonical(entry.path) {
      if Clean(e.path) != Clean(entry.path) {
        CleanIdempotent(entry.path);
        assert HasPrefix(Clean(e.path), "/host/");
      }
    }
  }

  // What an unstage may do to mounts and transports, given the staging mount it discovered, if its
  // discovery succeeded: nothing to a volume that is published, and nothing to the transport
  // before the mount is gone.
  ghost predicate Touched(m: seq<MountPoint>, m': seq<MountPoint>, t: Transports, t': Transports, staging: string,
                          discovered: Option<Option<MountPoint>>)
  {
    match discovered
    case None => m' == m && t' == t
    case Some(entry) =>
      && StagedAs(m, staging, entry)
      && match entry
         case None => m' == m
         case Some(e) =>
           && Unmounted(m, m', e.path) && (t' != t ==> NotMounted(m', e.path))
           && (Published(m, e) ==> m' == m && t' == t)
  }

  // no evidence of the transport is left
  ghost predicate Cleared(t: Transports, id: string, found: Found) {
    match found
    case Iscsi(c) =>
      && (forall x :: x in t.sessions ==> x.iqn != c.iqn) && c.iqn !in t.sysfs && IscsiEvidence(t, id) == {}
    case Nvme(nqn) => forall c :: c in t.controllers && c.nqn == nqn ==> !IsRemote(c.transport)
    case Nothing => IscsiEvidence(t, id) == {} && Subsystem(t, id) == Ok(None)
    case Nfs => true
  }

  // Working commands can remove the transport: the portals found cover all sessions of the target,
  // sysfs shows it only with a session, and no other target is taken for the volume's.
  ghost predicate Removable(t: Transports, id: string, found: Found) {
    match found
    case Iscsi(c) => c.iqn != "" && Covers(t, c) && IscsiEvidence(t, id) <= {c.iqn}
    case Nvme(nqn) => nqn != "" && RemoteControllers(t.controllers, nqn).Ok?
    case _ => true
  }

  ghost predicate Covers(t: Transports, c: Connection) {
    && (forall x :: x in t.sessions && x.iqn == c.iqn ==> x.portal in c.portals)
    && (c.portals == [] ==> c.iqn !in t.sysfs)
  }

  predicate Connected(t: Transports, iqn: string) { iqn in t.sysfs || exists x | x in t.sessions :: x.iqn == iqn }

  predicate Distinct(xs: seq<string>) { forall i, j :: 0 <= i < j < |xs| ==> xs[i] != xs[j] }

  function Filter<T>(xs: seq<T>, keep: T -> bool): seq<T> {
    if xs == [] then [] else Filter(xs[..|xs| - 1], keep) + if keep(xs[|xs| - 1]) then [xs[|xs| - 1]] else []
  }

  lemma {:induction false} FilterMembers<T>(xs: seq<T>, keep: T -> bool)
    ensures forall x :: x in Filter(xs, keep) <==> x in xs && keep(x)
  {
    if xs != [] {
      FilterMembers(xs[..|xs| - 1], keep);
      assert xs == xs[..|xs| - 1] + [xs[|xs| - 1]];
    }
  }

  lemma {:induction false} FilterDistinct(xs: seq<string>, keep: string -> bool)
    requires Distinct(xs)
    ensures Distinct(Filter(xs, keep))
  {
    if xs != [] {
      FilterDistinct(xs[..|xs| - 1], keep);
      FilterMembers(xs[..|xs| - 1], keep);
    }
  }

  lemma LostTwice(a: Transports, b: Transports, c: Transports, x: string)
    requires LostTarget(a, b, x) && LostTarget(b, c, x)
    ensures LostTarget(a, c, x)
  {
  }

  lemma LastEvidence(t: Transports, t': Transports, id: string, iqn: string)
    requires LostTarget(t, t', iqn) && IscsiEvidence(t, id) <= {iqn}
    requires !Connected(t', iqn) && iqn !in t'.records
    ensures FoundEvidence(t', TargetSuffix(id)) == Ok(None)
  {
    var name := TargetSuffix(id);
    var before := Matching(t.records, name) + Matching(t.sysfs, name);
    var after := Matching(t'.records, name) + Matching(t'.sysfs, name);
    assert forall x :: x in after ==> x in before && x != iqn;
    assert after == {} && Matching(t'.records, name) == {};
  }

  // with the one staging mount gone, nothing is left at either place
  lemma NothingStaged(m: seq<MountPoint>, m': seq<MountPoint>, staging: string, e: MountPoint)
    requires StagedAs(m, staging, Some(e)) && Unmounted(m, m', e.path) && NotMounted(m', e.path)
    ensures NotMounted(m', staging) && NotMounted(m', Anchor(staging))
  {
    var filesystem, block := EffectiveMount(m, staging), EffectiveMount(m, Anchor(staging));
    if filesystem.Some? {
      assert Canonical(e.path) == Canonical(staging);
    } else {
      assert Canonical(e.path) == Canonical(Anchor(staging));
    }
  }

  datatype Discovery = Discovery(found: Found, entry: Option<MountPoint>)

  class Node {
    const works: bool                         // tables can be read, and commands do what they are asked to
    var mounts: seq<MountPoint>
    var sessions: seq<Session>
    var sysfs: seq<string>
    var records: seq<string>
    var controllers: seq<Controller>
    const slaves: Graph
    const symlinks: map<string, string>       // where a device path leads
    const sources: map<string, string>        // the block device mounted at a path
    const devices: map<string, Device>        // the transport of a leaf device

    constructor (works: bool, mounts: seq<MountPoint>, t: Transports, slaves: Graph,
                 symlinks: map<string, string>, sources: map<string, string>, devices: map<string, Device>)
      requires Distinct(t.records)
      ensures Valid() && this.works == works && this.mounts == mounts && Live() == t
    {
      this.works := works;
      this.mounts, sessions, sysfs, records, controllers := mounts, t.sessions, t.sysfs, t.records, t.controllers;
      this.slaves, this.symlinks, this.sources, this.devices := slaves, symlinks, sources, devices;
    }

    function Live(): (t: Transports)
      reads this
    {
      Transports(sessions, sysfs, records, controllers)
    }

    predicate Valid()
      reads this
    {
      Distinct(records)
    }

    // ---------- discovery ----------

    // a device whose transport cannot be read is an error of its own
    function Probed(path: string): Device { if path in devices then devices[path] else Device(Broken, Broken) }

    function AllProbed(paths: seq<string>): seq<Device> {
      seq(|paths|, i requires 0 <= i < |paths| => Probed(paths[i]))
    }

    // a source beneath /dev names the block device; for another the mount itself is asked
    function DeviceAt(entry: MountPoint, source: string): Option<string> {
      var path := if IsAbs(source) && HasPrefix(Clean(source), "/dev/") then Some(source)
                  else if entry.path in sources then Some(sources[entry.path]) else None;
      if path.Some? && path.value in symlinks then Some(symlinks[path.value]) else None
    }

    // the leaf devices below a mount, in order, if they can all be found
    ghost predicate AreLeaves(entry: MountPoint, source: string, leaves: seq<string>) {
      var device := DeviceAt(entry, source);
      && device.Some? && HasPrefix(device.value, DeviceDir + "/") && BaseName(device.value) != ""
      && AllReadable(slaves, BaseName(device.value)) && !CycleReachable(slaves, BaseName(device.value))
      && Increasing(leaves) && forall x :: x in leaves <==> IsLeafDevice(slaves, BaseName(device.value), x)
    }

    // what the mount resolves to decides the protocol: NFS by its type, the others by all leaf devices
    ghost predicate LeadsTo(id: string, entry: MountPoint, found: Found)
      reads this
    {
      var source := Resolve(mounts, entry);
      source.Ok? &&
      if HasPrefix(source.value.fsType, "nfs") then found == Nfs
      else exists leaves :: (
             AreLeaves(entry, source.value.source, leaves) && Mounted(id, AllProbed(leaves), Live()) == Ok(found))
    }

    // the transports of the leaves below a device
    method ProbeAll(paths: seq<string>) returns (probes: seq<Device>)
      ensures probes == AllProbed(paths)
    {
      probes := [];
      for i := 0 to |paths|
        invariant |probes| == i
        invariant forall k :: 0 <= k < i ==> probes[k] == Probed(paths[k])
      {
        probes := probes + [Probed(paths[i])];
      }
    }

    method DiscoverMounted(id: string, entry: MountPoint) returns (r: Result<Found>)
      ensures r.Ok? ==> LeadsTo(id, entry, r.value)
      ensures r.Err? ==> forall found :: !LeadsTo(id, entry, found)
    {
      var source := ResolveMountSource(mounts, Some(entry));
      if source.Err? {
        return Err;
      }
      if HasPrefix(source.value.fsType, "nfs") {
        return Ok(Nfs);
      }
      var path := source.value.source;
      if !IsAbs(path) || !HasPrefix(Clean(path), "/dev/") {
        if entry.path !in sources {
          return Err;
        }
        path := sources[entry.path];
      }
      var leaves := ResolveBlockDevices(if path in symlinks then Some(symlinks[path]) else None, slaves);
      if leaves.Err? {
        return Err;
      }
      ghost var devs := leaves.value.devices;
      assert AreLeaves(entry, source.value.source, devs);
      forall other | AreLeaves(entry, source.value.source, other) ensures other == devs { SameIncreasing(other, devs); }
      var probes := ProbeAll(leaves.value.devices);
      r := Classify(id, probes);
    }

    // the end of discoverMountedVolume
    method Classify(id: string, probes: seq<Device>) returns (r: Result<Found>)
      ensures r == Mounted(id, probes, Live())
    {
      var nvme := NvmeForDevices(id, probes, controllers);
      if nvme.Err? {
        return Err;
      }
      if nvme.value.Some? {
        return Ok(Nvme(nvme.value.value));
      }
      var iscsi := IscsiForDevices(id, probes, sessions);
      if iscsi.Err? || iscsi.value.None? {
        return Err;
      }
      r := Ok(Iscsi(iscsi.value.value));
    }

    // what discoverUnstageState reports
    ghost predicate Discovered(id: string, staging: string, d: Discovery)
      reads this
    {
      StagedAs(mounts, staging, d.entry) &&
      if d.entry.Some? then LeadsTo(id, d.entry.value, d.found) else Detached(Live(), id) == Ok(d.found)
    }

    ghost predicate Discoverable(id: string, staging: string)
      reads this
    {
      exists d :: Discovered(id, staging, d)
    }

    method Readable() returns (readable: bool)
      ensures works ==> readable
    {
      readable := *;
      readable := works || readable;
    }

    method DiscoverUnstageState(id: string, staging: string) returns (r: Result<Discovery>)
      requires Valid() && staging != ""
      ensures r.Ok? ==> Discovered(id, staging, r.value)
      ensures works && r.Err? ==> !Discoverable(id, staging)
    {
      var readable := Readable();
      if !readable {
        return Err;
      }
      var filesystem := FindEffectiveMount(mounts, staging);
      var block := FindEffectiveMount(mounts, Anchor(staging));
      if filesystem.None? && EffectiveCanonicalMount(mounts, staging).Some? {
        return Err;
      }
      if block.None? && EffectiveCanonicalMount(mounts, Anchor(staging)).Some? {
        return Err;
      }
      if filesystem.Some? && block.Some? {
        return Err;
      }
      var entry := if filesystem.Some? then filesystem else block;
      if entry.Some? {
        var found := DiscoverMounted(id, entry.value);
        return if found.Err? then Err else Ok(Discovery(found.value, entry));
      }
      var found := DiscoverDetached(Live(), id);
      r := if found.Err? then Err else Ok(Discovery(found.value, None));
    }

    // ---------- commands ----------

    method GetMountRefs(entry: MountPoint) returns (r: Option<seq<string>>)
      ensures r.Some? ==> forall p :: p in r.value <==> exists e :: e in mounts && SameMount(e, entry) && e.path == p
      ensures works ==> r.Some?
    {
      var readable := Readable();
      if !readable {
        return None;
      }
      var refs: seq<string> := [];
      for i := 0 to |mounts|
        invariant forall p :: p in refs <==> exists e :: e in mounts[..i] && SameMount(e, entry) && e.path == p
      {
        assert mounts[..i + 1] == mounts[..i] + [mounts[i]];
        if SameMount(mounts[i], entry) {
          refs := refs + [mounts[i].path];
        }
      }
      assert mounts[..|mounts|] == mounts;
      r := Some(refs);
    }

    method Unmount(path: string) returns (ok: bool)
      modifies this`mounts
      ensures Unmounted(old(mounts), mounts, path)
      ensures works ==> ok && NotMounted(mounts, path)
    {
      ok := *;
      var kept: seq<MountPoint> := *;
      if works {
        ok, kept := true, [];
      }
      FilterMembers(mounts, (e: MountPoint) => Canonical(e.path) != Canonical(path) || e in kept);
      mounts := Filter(mounts, (e: MountPoint) => Canonical(e.path) != Canonical(path) || e in kept);
    }

    // sysfs shows a target as long as it has a session
    method Logout(iqn: string, portal: string) returns (ok: bool)
      modifies this`sessions, this`sysfs
      ensures LostTarget(old(Live()), Live(), iqn)
      ensures works ==> ok && (forall x :: x in sessions && x.iqn == iqn ==> x.portal != portal)
      ensures works && (forall x :: x in sessions ==> x.iqn != iqn) ==> iqn !in sysfs
    {
      ok := *;
      var done: bool := *;
      ok, done := works || ok, works || done;
      FilterMembers(sessions, (x: Session) => !(done && x.iqn == iqn && x.portal == portal));
      sessions := Filter(sessions, (x: Session) => !(done && x.iqn == iqn && x.portal == portal));
      var seen: bool := *;
      if works {
        seen := exists x | x in sessions :: x.iqn == iqn;
      }
      FilterMembers(sysfs, (x: string) => seen || x != iqn);
      sysfs := Filter(sysfs, (x: string) => seen || x != iqn);
    }

    method DeleteRecord(iqn: string) returns (ok: bool)
      requires Valid()
      modifies this`records
      ensures Valid() && LostTarget(old(Live()), Live(), iqn)
      ensures works ==> ok && iqn !in records
    {
      ok := *;
      var done: bool := *;
      ok, done := works || ok, works || done;
      FilterMembers(records, (x: string) => !done || x != iqn);
      FilterDistinct(records, (x: string) => !done || x != iqn);
      records := Filter(records, (x: string) => !done || x != iqn);
    }

    // logoutISCSITargetImpl: every portal, then the record; the first failure ends it
    method LogoutTarget(c: Connection) returns (ok: bool)
      requires Valid()
      modifies this`sessions, this`sysfs, this`records
      ensures Valid() && LostTarget(old(Live()), Live(), c.iqn)
      ensures works && old(Covers(Live(), c)) ==> ok && !Connected(Live(), c.iqn) && c.iqn !in records
    {
      for i := 0 to |c.portals|
        invariant Valid() && LostTarget(old(Live()), Live(), c.iqn)
        invariant works ==> forall k, x :: 0 <= k < i && x in sessions && x.iqn == c.iqn ==> x.portal != c.portals[k]
        invariant works && 0 < i && (forall x :: x in sessions ==> x.iqn != c.iqn) ==> c.iqn !in sysfs
      {
        ghost var before := Live();
        ok := Logout(c.iqn, c.portals[i]);
        LostTwice(old(Live()), before, Live(), c.iqn);
        if !ok {
          return;
        }
      }
      ghost var before := Live();
      ok := DeleteRecord(c.iqn);
      LostTwice(old(Live()), before, Live(), c.iqn);
    }

    // iscsiTargetConnected; None when a table cannot be read
    method TargetConnected(iqn: string) returns (r: Option<bool>)
      ensures r.Some? ==> r.value == Connected(Live(), iqn)
      ensures works ==> r.Some?
    {
      var readable := Readable();
      if !readable {
        return None;
      }
      for i := 0 to |sessions|
        invariant forall k :: 0 <= k < i ==> sessions[k].iqn != iqn
      {
        if sessions[i].iqn == iqn {
          assert sessions[i] in sessions;
          return Some(true);
        }
      }
      r := Some(iqn in sysfs);
    }

    method UnstageIscsi(id: string, c: Connection) returns (ok: bool)
      requires Valid()
      modifies this`sessions, this`sysfs, this`records
      ensures Valid() && LostTarget(old(Live()), Live(), c.iqn)
      ensures ok ==> Cleared(Live(), id, Iscsi(c))
      ensures works && old(Removable(Live(), id, Iscsi(c))) ==> ok
    {
      if c.iqn == "" {
        return false;
      }
      ok := LogoutTarget(c);
      if !ok {
        return;
      }
      var connected := TargetConnected(c.iqn);
      if connected != Some(false) {
        return false;
      }
      var name := MakeName(id, true, 120);
      var evidence := FindEvidence(Live(), name);
      if works && old(Removable(Live(), id, Iscsi(c))) { LastEvidence(old(Live()), Live(), id, c.iqn); }
      ok := evidence == Ok(None);
    }

    method Disconnect(nqn: string) returns (ok: bool)
      modifies this`controllers
      ensures LostSubsystem(old(Live()), Live(), nqn)
      ensures works ==> ok && forall c :: c in controllers && c.nqn == nqn ==> !IsRemote(c.transport)
    {
      ok := *;
      var left: seq<Controller> := *;
      if works {
        ok := true;
        FilterMembers(controllers, (c: Controller) => !IsRemote(c.transport));
        left := Filter(controllers, (c: Controller) => !IsRemote(c.transport));
      }
      FilterMembers(controllers, (c: Controller) => c.nqn != nqn || c in left);
      controllers := Filter(controllers, (c: Controller) => c.nqn != nqn || c in left);
    }

    method UnstageNvme(id: string, nqn: string) returns (ok: bool)
      modifies this`controllers
      ensures LostSubsystem(old(Live()), Live(), nqn)
      ensures ok ==> Cleared(Live(), id, Nvme(nqn))
      ensures works && old(Removable(Live(), id, Nvme(nqn))) ==> ok
    {
      if nqn == "" {
        return false;
      }
      var connected := HasRemoteControllers(controllers, nqn);
      if connected.Err? {
        return false;
      }
      if connected.value {
        ok := Disconnect(nqn);
        if !ok {
          return;
        }
      }
      connected := HasRemoteControllers(controllers, nqn);
      ok := connected == Ok(false);
    }

    // ---------- the operation ----------

    // unmount the staging mount unless it is published elsewhere
    method ReleaseMount(entry: MountPoint) returns (ok: bool)
      requires entry in mounts
      modifies this`mounts
      ensures Unmounted(old(mounts), mounts, entry.path)
      ensures ok ==> NotMounted(mounts, entry.path)
      ensures Published(old(mounts), entry) ==> !ok && mounts == old(mounts)
      ensures works ==> (ok <==> !Published(old(mounts), entry))
    {
      var refs := GetMountRefs(entry);
      if refs.None? {
        return false;
      }
      var external := ExternalMountReferences(entry.path, refs.value);
      if |external| > 0 {
        assert external[0] in external;
        return false;
      }
      assert forall e :: e in mounts && SameMount(e, entry) ==> Canonical(e.path) !in external;
      ok := Unmount(entry.path);
      if !ok {
        return;
      }
      var readable := Readable();
      ok := readable && EffectiveCanonicalMount(mounts, entry.path).None?;
    }

    // after the discovery
    method Unstage(id: string, staging: string, d: Discovery) returns (ok: bool)
      requires Valid() && Discovered(id, staging, d)
      modifies this`mounts, this`sessions, this`sysfs, this`records, this`controllers
      ensures Valid() && Lost(old(Live()), Live(), d.found)
      ensures Touched(old(mounts), mounts, old(Live()), Live(), staging, Some(d.entry))
      ensures d.entry.Some? && Published(old(mounts), d.entry.value) ==> !ok
      ensures ok ==> NotMounted(mounts, staging) && NotMounted(mounts, Anchor(staging)) && Cleared(Live(), id, d.found)
      ensures works && old(Removable(Live(), id, d.found)) ==>
                (ok <==> (d.entry.Some? ==> !Published(old(mounts), d.entry.value)))
    {
      if d.entry.Some? {
        ok := ReleaseMount(d.entry.value);
        if !ok {
          return;
        }
        NothingStaged(old(mounts), mounts, staging, d.entry.value);
      }
      ok := UnstageTransport(id, d.found);
      if !ok {
        return;
      }
      var readable := Readable();
      ok := readable && NotMounted(mounts, staging) && NotMounted(mounts, Anchor(staging));
    }

    /**
     NodeUnstageVolume. `d` is what was discovered, if discovery succeeded. Success leaves no
     mount at the staging path or the block anchor and no trace of the transport; failure has
     touched nothing but that one mount and that one transport, and the transport only after
     the mount was gone; a volume that is published anywhere else is left alone. A node that
     works unstages exactly the volumes that are not published, if their transport can be removed.
     */
    method NodeUnstageVolume(id: string, staging: string) returns (ok: bool, ghost d: Option<Discovery>)
      requires Valid()
      modifies this
      ensures Valid()
      ensures ok ==> d.Some?
      ensures d.Some? ==> old(Discovered(id, staging, d.value)) && Lost(old(Live()), Live(), d.value.found)
      ensures Touched(old(mounts), mounts, old(Live()), Live(), staging, if d.Some? then Some(d.value.entry) else None)
      ensures d.Some? && d.value.entry.Some? && Published(old(mounts), d.value.entry.value) ==> !ok
      ensures ok ==> && NotMounted(mounts, staging) && NotMounted(mounts, Anchor(staging))
                     && Cleared(Live(), id, d.value.found)
      ensures works && id != "" && staging != "" && d.None? ==> !old(Discoverable(id, staging))
      ensures works && d.Some? && old(Removable(Live(), id, d.value.found)) ==>
                (ok <==> (d.value.entry.Some? ==> !Published(old(mounts), d.value.entry.value)))
    {
      if id == "" || staging == "" {
        return false, None;
      }
      var state := DiscoverUnstageState(id, staging);
      if state.Err? {
        return false, None;
      }
      d := Some(state.value);
      ok := Unstage(id, staging, state.value);
    }

    // with nothing connected there is nothing to do
    method UnstageTransport(id: string, found: Found) returns (ok: bool)
      requires Valid() && (found == Nothing ==> Detached(Live(), id) == Ok(Nothing))
      modifies this`sessions, this`sysfs, this`records, this`controllers
      ensures Valid() && Lost(old(Live()), Live(), found)
      ensures ok ==> Cleared(Live(), id, found)
      ensures works && old(Removable(Live(), id, found)) ==> ok
    {
      match found
      case Iscsi(c) => ok := UnstageIscsi(id, c);
      case Nvme(nqn) => ok := UnstageNvme(id, nqn);
      case Nfs => ok := true;
      case Nothing =>
        NothingMeansNoTrace(Live(), id);
        ok := true;
    }
  }

  /**
   An unstage that failed after the mount was gone can be tried again: on a node that shows the
   volume only through the transport that was found, and whose session list and sysfs agree,
   discovery finds that transport from the volume ID, or nothing once it is gone.
   */
  lemma FailedUnstageIsRediscovered(n: Node, id: string, staging: string, t: Transports, found: Found)
    requires Unambiguous(t, id, found) && (found.Iscsi? || found.Nvme?)
    requires Lost(t, n.Live(), found) && Consistent(n.Live(), id)
    requires NotMounted(n.mounts, staging) && NotMounted(n.mounts, Anchor(staging))
    ensures exists again :: (
              && n.Discovered(id, staging, Discovery(again, None))
              && (again == Nothing || SameIdentity(found, again)))
    ensures forall d :: n.Discovered(id, staging, d) ==>
                          d.entry.None? && (d.found == Nothing || SameIdentity(found, d.found))
  {
    TransportIsRediscovered(id, t, n.Live(), found);
    var again := Detached(n.Live(), id).value;
    assert EffectiveMount(n.mounts, staging).None? && EffectiveMount(n.mounts, Anchor(staging)).None?;
    assert n.Discovered(id, staging, Discovery(again, None));
  }
}
