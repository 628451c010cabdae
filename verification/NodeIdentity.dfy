/**
 Which transport a volume uses on this node: from the devices of its staging mount while it
 is mounted, and from its ID alone once it is not. The second must find what the first found,
 so that an unstage that failed halfway can be tried again.
 */
module NodeIdentity {
  import opened Basics
  import opened PathText
  import opened VolumeNames
  import opened NodeDiscovery

  // ---------- from the volume ID alone ----------

  ghost function IscsiEvidence(t: Transports, id: string): set<string> {
    Matching(t.records, TargetSuffix(id)) + Matching(t.sysfs, TargetSuffix(id))
  }

  ghost function Subsystem(t: Transports, id: string): Result<Option<string>> {
    FoundSubsystem(t.controllers, SubsysName(id))
  }

  // discoverDetachedVolume
  ghost function Detached(t: Transports, id: string): Result<Found> {
    var nqn, evidence := Subsystem(t, id), FoundEvidence(t, TargetSuffix(id));
    if nqn.Err? || evidence.Err? then Err
    else if evidence.value.None? then Ok(if nqn.value.Some? then Nvme(nqn.value.value) else Nothing)
    else
      var c := FoundConnection(t, TargetSuffix(id));
      if c.Err? || c.value.None? || c.value.value.iqn != evidence.value.value || nqn.value.Some? then Err
      else Ok(Iscsi(c.value.value))
  }

  method DiscoverDetached(t: Transports, id: string) returns (r: Result<Found>)
    requires forall i, j :: 0 <= i < j < |t.records| ==> t.records[i] != t.records[j]
    ensures r == Detached(t, id)
  {
    var target := MakeName(id, true, 120);
    var subsys := MakeName(id, false, 200);
    var nqn := FindSubsystem(t.controllers, subsys);
    if nqn.Err? {
      return Err;
    }
    var evidence := FindEvidence(t, target);
    if evidence.Err? {
      return Err;
    }
    if evidence.value.None? {
      return Ok(if nqn.value.Some? then Nvme(nqn.value.value) else Nothing);
    }
    var c := FindConnection(t, target);
    if c.Err? || c.value.None? || c.value.value.iqn != evidence.value.value || nqn.value.Some? {
      return Err;
    }
    r := Ok(Iscsi(c.value.value));
  }

  // the session list and sysfs show the same targets of this volume
  ghost predicate Consistent(t: Transports, id: string) {
    Matching(t.sysfs, TargetSuffix(id)) == SessionTargets(t.sessions, TargetSuffix(id))
  }

  /** Nothing is reported only when no trace is left: discovery fails closed. */
  lemma NothingMeansNoTrace(t: Transports, id: string)
    ensures Detached(t, id) == Ok(Nothing) <==> IscsiEvidence(t, id) == {} && Subsystem(t, id) == Ok(None)
  {
    var records, sysfs := Matching(t.records, TargetSuffix(id)), Matching(t.sysfs, TargetSuffix(id));
    assert IscsiEvidence(t, id) == {} ==> records == {} && sysfs == {};
  }

  lemma SoleOfPart(xs: set<string>, ys: set<string>, x: string)
    requires xs + ys == {x}
    ensures Sole(xs) == if xs == {} then Ok(None) else Ok(Some(x))
  {
    if xs != {} {
      var y :| y in xs;
      assert y in xs + ys;
      assert xs == {x};
    }
  }

  /** On a consistent node the ID leads to a target exactly when all traces are of that target and none is NVMe. */
  lemma EvidenceIsFound(t: Transports, id: string, x: string)
    requires Consistent(t, id)
    ensures Detached(t, id) == Ok(Iscsi(ConnectionTo(t.sessions, x))) <==>
            Subsystem(t, id) == Ok(None) && IscsiEvidence(t, id) == {x}
  {
    if Subsystem(t, id) == Ok(None) && IscsiEvidence(t, id) == {x} { SoleEvidenceIsFound(t, id, x); }
  }

  lemma SoleEvidenceIsFound(t: Transports, id: string, x: string)
    requires Consistent(t, id) && Subsystem(t, id) == Ok(None) && IscsiEvidence(t, id) == {x}
    ensures Detached(t, id) == Ok(Iscsi(ConnectionTo(t.sessions, x)))
  {
    var name := TargetSuffix(id);
    var records, sysfs := Matching(t.records, name), Matching(t.sysfs, name);
    SoleOfPart(records, sysfs, x);
    assert sysfs + records == records + sysfs;
    SoleOfPart(sysfs, records, x);
    if sysfs == {} {
      assert records == {x};
      assert Belongs(x, name);
      forall y | y in t.sessions ensures y.iqn != x {
        assert Belongs(y.iqn, name) ==> y.iqn in SessionTargets(t.sessions, name);
      }
      NoPortals(t.sessions, x);
    }
  }

  // there is a session to the target through the portal
  ghost predicate Reaches(sessions: seq<Session>, iqn: string, portal: string) {
    exists x :: x in sessions && x.iqn == iqn && x.portal == portal
  }

  /** On any node, what the ID leads to is all that the node shows of the volume. */
  lemma DetachedIsAll(t: Transports, id: string)
    requires Detached(t, id).Ok?
    ensures match Detached(t, id).value
            case Iscsi(c) =>
              && IscsiEvidence(t, id) == {c.iqn} && Subsystem(t, id) == Ok(None)
              && (forall x :: x in t.sessions && Belongs(x.iqn, TargetSuffix(id)) ==> x.iqn == c.iqn)
              && (forall portal :: portal in c.portals <==> Reaches(t.sessions, c.iqn, portal))
            case Nvme(nqn) => IscsiEvidence(t, id) == {} && Subsystem(t, id) == Ok(Some(nqn))
            case Nothing => IscsiEvidence(t, id) == {} && Subsystem(t, id) == Ok(None)
            case Nfs => false
  {
    if Detached(t, id).value.Iscsi? {
      var c, targets := Detached(t, id).value.connection, SessionTargets(t.sessions, TargetSuffix(id));
      assert forall x :: x in t.sessions && Belongs(x.iqn, TargetSuffix(id)) ==> x.iqn in targets;
      assert c.iqn in IscsiEvidence(t, id) && Belongs(c.iqn, TargetSuffix(id));
      if targets != {} {
        forall portal ensures portal in c.portals <==> Reaches(t.sessions, c.iqn, portal) {
          ConnectionPortals(t.sessions, c.iqn, portal);
        }
      }
    }
  }

  // rows of the target `x`, and no others, may be gone
  ghost predicate LostTarget(t: Transports, t': Transports, x: string) {
    && t'.controllers == t.controllers
    && (forall y :: y in t'.sessions ==> y in t.sessions)
    && (forall y :: y in t.sessions && y.iqn != x ==> y in t'.sessions)
    && (forall y :: y in t'.sysfs ==> y in t.sysfs) && (forall y :: y in t.sysfs && y != x ==> y in t'.sysfs)
    && (forall y :: y in t'.records ==> y in t.records) && (forall y :: y in t.records && y != x ==> y in t'.records)
  }

  // controllers of the subsystem `x`, and no others, may be gone
  ghost predicate LostSubsystem(t: Transports, t': Transports, x: string) {
    && t' == t.(controllers := t'.controllers)
    && (forall c :: c in t'.controllers ==> c in t.controllers)
    && (forall c :: c in t.controllers && c.nqn != x ==> c in t'.controllers)
  }

  /**
   After a logout that stopped anywhere, the volume ID leads to the same target as long as a
   trace of it is left, with the portals that are still connected, and to nothing otherwise.
   */
  lemma LogoutCanBeRetried(t: Transports, t': Transports, id: string, x: string)
    requires IscsiEvidence(t, id) <= {x} && Subsystem(t, id) == Ok(None)
    requires LostTarget(t, t', x) && Consistent(t', id)
    ensures Detached(t', id) ==
            if IscsiEvidence(t', id) == {} then Ok(Nothing) else Ok(Iscsi(ConnectionTo(t'.sessions, x)))
  {
    assert IscsiEvidence(t', id) <= IscsiEvidence(t, id);
    NothingMeansNoTrace(t', id);
    if IscsiEvidence(t', id) != {} {
      assert IscsiEvidence(t', id) == {x};
      SoleEvidenceIsFound(t', id, x);
    }
  }

  /** The same for a disconnect from a subsystem. */
  lemma DisconnectCanBeRetried(t: Transports, t': Transports, id: string, x: string)
    requires IscsiEvidence(t, id) == {} && Subsystem(t, id) == Ok(Some(x)) && LostSubsystem(t, t', x)
    ensures Detached(t', id) == Ok(if Remotes(t'.controllers, SubsysName(id)) == {} then Nothing else Nvme(x))
  {
    var name := SubsysName(id);
    var before, after := Remotes(t.controllers, name), Remotes(t'.controllers, name);
    assert before == {x};
    assert after <= before;
    assert Locals(t'.controllers, name) <= Locals(t.controllers, name);
    assert after == {} || after == {x};
    NothingMeansNoTrace(t', id);
    assert IscsiEvidence(t', id) == {};
    assert Matching(t.records, TargetSuffix(id)) == {};
  }

  // ---------- from the devices of a mount ----------

  // a probe of sysfs: a value, nothing to find, or an error
  datatype Probe<T> = Hit(value: T) | Miss | Broken

  datatype Device = Device(nvme: Probe<string>, session: Probe<int>)

  // the controllers of one subsystem: whether there are remote ones, unless the set is not usable
  ghost function RemoteControllers(cs: seq<Controller>, nqn: string): Result<bool> {
    if exists c :: c in cs && c.nqn == nqn && c.transport != "pcie" && !IsRemote(c.transport) then Err
    else
      var local := exists c :: c in cs && c.nqn == nqn && c.transport == "pcie";
      var remote := exists c :: c in cs && c.nqn == nqn && IsRemote(c.transport);
      if local && remote then Err else Ok(remote)
  }

  // nvmeConnectionForDevices
  ghost function NvmeOf(id: string, devices: seq<Device>, cs: seq<Controller>): Result<Option<string>> {
    if exists d :: d in devices && d.nvme.Broken? then Err
    else if forall d :: d in devices ==> d.nvme.Miss? then Ok(None)
    else
      var first :| first in devices && first.nvme.Hit?;
      var nqn := first.nvme.value;
      if exists d :: d in devices && d.nvme != Hit(nqn) then Err
      else if !Belongs(nqn, SubsysName(id)) then Err
      else
        var remote := RemoteControllers(cs, nqn);
        if remote.Err? || !remote.value then Err else Ok(Some(nqn))
  }

  // the sessions the devices hang on; no answer as soon as one hangs on none
  function SessionIds(devices: seq<Device>): Result<Option<set<int>>> {
    if devices == [] then Ok(Some({}))
    else match devices[0].session
      case Broken => Err
      case Miss => Ok(None)
      case Hit(n) =>
        var rest := SessionIds(devices[1..]);
        if rest.Ok? && rest.value.Some? then Ok(Some({n} + rest.value.value)) else rest
  }

  function Used(sessions: seq<Session>, ids: set<int>): seq<Session> {
    if sessions == [] then []
    else
      var last := sessions[|sessions| - 1];
      Used(sessions[..|sessions| - 1], ids) + if last.id in ids then [last] else []
  }

  lemma {:induction false} UsedMembers(sessions: seq<Session>, ids: set<int>, x: Session)
    ensures x in Used(sessions, ids) <==> x in sessions && x.id in ids
  {
    if sessions != [] {
      var init, last := sessions[..|sessions| - 1], sessions[|sessions| - 1];
      assert sessions == init + [last];
      UsedMembers(init, ids, x);
    }
  }

  // iscsiConnectionForDevices, given the sessions its devices hang on
  ghost function ConnectionOver(id: string, used: seq<Session>, ids: set<int>): Result<Connection> {
    if used == [] || (exists n :: n in ids && forall x :: x in used ==> x.id != n) then Err
    else if exists x :: x in used && (x.iqn != used[0].iqn || !Belongs(x.iqn, TargetSuffix(id))) then Err
    else Ok(ConnectionTo(used, used[0].iqn))
  }

  ghost function IscsiOf(id: string, devices: seq<Device>, sessions: seq<Session>): Result<Option<Connection>> {
    var ids := SessionIds(devices);
    if ids.Err? then Err
    else if ids.value.None? || ids.value.value == {} then Ok(None)
    else
      var c := ConnectionOver(id, Used(sessions, ids.value.value), ids.value.value);
      if c.Err? then Err else Ok(Some(c.value))
  }

  // the end of discoverMountedVolume
  ghost function Mounted(id: string, devices: seq<Device>, t: Transports): Result<Found> {
    var nvme := NvmeOf(id, devices, t.controllers);
    if nvme.Err? then Err
    else if nvme.value.Some? then Ok(Nvme(nvme.value.value))
    else
      var iscsi := IscsiOf(id, devices, t.sessions);
      if iscsi.Err? || iscsi.value.None? then Err else Ok(Iscsi(iscsi.value.value))
  }

  // nvmeConnectionForDevices, up to the controllers
  method CommonSubsystem(devices: seq<Device>) returns (r: Result<Option<string>>)
    ensures r == Ok(None) <==> forall d :: d in devices ==> d.nvme.Miss?
    ensures forall nqn :: r == Ok(Some(nqn)) <==> devices != [] && forall d :: d in devices ==> d.nvme == Hit(nqn)
  {
    var subsys: Option<string>, found := None, 0;
    for i := 0 to |devices|
      invariant found <= i && (found == 0 <==> subsys.None?)
      invariant found == 0 ==> forall k :: 0 <= k < i ==> devices[k].nvme.Miss?
      invariant found == i ==> forall k :: 0 <= k < i ==> devices[k].nvme == Hit(subsys.value)
      invariant found > 0 ==> exists k :: 0 <= k < i && devices[k].nvme == Hit(subsys.value)
      invariant found < i ==> exists k :: 0 <= k < i && devices[k].nvme.Miss?
    {
      assert devices[i] in devices;
      match devices[i].nvme
      case Broken => return Err;
      case Miss =>
      case Hit(nqn) =>
        if subsys.Some? && subsys.value != nqn {
          return Err;
        }
        subsys := Some(nqn);
        found := found + 1;
    }
    if found == 0 {
      return Ok(None);
    }
    r := if found != |devices| then Err else Ok(subsys);
  }

  // remoteNVMeControllersForNQN
  method HasRemoteControllers(cs: seq<Controller>, nqn: string) returns (r: Result<bool>)
    ensures r == RemoteControllers(cs, nqn)
  {
    var local, remote := false, false;
    for i := 0 to |cs|
      invariant local <==> exists k :: 0 <= k < i && cs[k].nqn == nqn && cs[k].transport == "pcie"
      invariant remote <==> exists k :: 0 <= k < i && cs[k].nqn == nqn && IsRemote(cs[k].transport)
      invariant forall k :: 0 <= k < i && cs[k].nqn == nqn ==> cs[k].transport == "pcie" || IsRemote(cs[k].transport)
    {
      assert cs[i] in cs;
      if cs[i].nqn != nqn {
        continue;
      }
      if cs[i].transport == "pcie" {
        local := true;
      } else if cs[i].transport in ["tcp", "rdma", "fc", "loop"] {
        remote := true;
      } else {
        return Err;
      }
    }
    r := if local && remote then Err else Ok(remote);
  }

  method NvmeForDevices(id: string, devices: seq<Device>, cs: seq<Controller>) returns (r: Result<Option<string>>)
    ensures r == NvmeOf(id, devices, cs)
  {
    var nqn := CommonSubsystem(devices);
    if nqn.Err? || nqn.value.None? {
      return nqn;
    }
    var name := MakeName(id, false, 200);
    if !Belongs(nqn.value.value, name) {
      return Err;
    }
    var remote := HasRemoteControllers(cs, nqn.value.value);
    r := if remote.Err? || !remote.value then Err else nqn;
  }

  method CollectSessionIds(devices: seq<Device>) returns (r: Result<Option<set<int>>>)
    ensures r == SessionIds(devices)
  {
    var ids: set<int> := {};
    assert devices[0..] == devices;
    ghost var whole := SessionIds(devices);
    assert whole.Ok? && whole.value.Some? ==> ids + whole.value.value == whole.value.value;
    for i := 0 to |devices|
      invariant var rest := SessionIds(devices[i..]);
                SessionIds(devices) == if rest.Ok? && rest.value.Some? then Ok(Some(ids + rest.value.value)) else rest
    {
      assert devices[i..][1..] == devices[i + 1..];
      match devices[i].session
      case Broken => return Err;
      case Miss => return Ok(None);
      case Hit(n) =>
        ghost var rest := SessionIds(devices[i + 1..]);
        assert rest.Ok? && rest.value.Some? ==> ids + ({n} + rest.value.value) == (ids + {n}) + rest.value.value;
        ids := ids + {n};
    }
    assert devices[|devices|..] == [];
    r := Ok(Some(ids));
  }

  // what the loop over the sessions knows after those it has used
  ghost predicate Scanned(used: seq<Session>, name: string, target: string, portals: seq<string>, found: set<int>) {
    && (target == "" <==> used == [])
    && (forall x :: x in used ==> x.iqn == target && Belongs(x.iqn, name))
    && portals == PortalsOf(used, target)
    && found == set x | x in used :: x.id
  }

  lemma ScannedStep(used: seq<Session>, x: Session, name: string, target: string, portals: seq<string>, found: set<int>)
    requires Scanned(used, name, target, portals, found) && Belongs(x.iqn, name) && (target == "" || target == x.iqn)
    ensures Scanned(used + [x], name, x.iqn, portals + [x.portal], found + {x.id})
  {
    PortalsStep(used, x, x.iqn);
    if used == [] { NoPortals(used, x.iqn); NoPortals(used, target); }
    var after := used + [x];
    assert forall y :: y in after <==> y in used || y == x;
    var ids := set y | y in after :: y.id;
    assert x in after;
    assert forall n :: n in found ==> n in ids;
  }

  lemma ScanFails(id: string, all: seq<Session>, x: Session, target: string, used: seq<Session>, ids: set<int>)
    requires used <= all && x in all && (used != [] ==> used[0].iqn == target)
    requires !Belongs(x.iqn, TargetSuffix(id)) || (used != [] && target != x.iqn)
    ensures ConnectionOver(id, all, ids).Err?
  {
  }

  lemma ScanEnds(id: string, all: seq<Session>, ids: set<int>, target: string, portals: seq<string>, found: set<int>)
    requires Scanned(all, TargetSuffix(id), target, portals, found) && ids != {} && forall x :: x in all ==> x.id in ids
    ensures ConnectionOver(id, all, ids) == if found == ids then Ok(Connection(target, Compact(Sort(portals)))) else Err
  {
    assert found <= ids;
    if found == ids { AllCovered(all, found, ids); } else { MissingId(all, found, ids); }
  }

  // the loop over the live sessions
  method ConnectionFromSessions(id: string, sessions: seq<Session>, ids: set<int>) returns (r: Result<Connection>)
    requires ids != {}
    ensures r == ConnectionOver(id, Used(sessions, ids), ids)
  {
    var name := MakeName(id, true, 120);
    var target, portals: seq<string>, found: set<int> := "", [], {};
    for i := 0 to |sessions|
      invariant Scanned(Used(sessions[..i], ids), name, target, portals, found)
    {
      var x := sessions[i];
      ghost var used := Used(sessions[..i], ids);
      UsedStep(sessions, ids, i);
      if x.id in ids {
        if !Belongs(x.iqn, name) || (target != "" && target != x.iqn) {
          UsedGrows(sessions, ids, i);
          UsedMembers(sessions, ids, x);
          ScanFails(id, Used(sessions, ids), x, target, used, ids);
          return Err;
        }
        ScannedStep(used, x, name, target, portals, found);
        target := x.iqn;
        portals := portals + [x.portal];
        found := found + {x.id};
      }
    }
    assert sessions[..|sessions|] == sessions;
    UsedIds(sessions, ids);
    ScanEnds(id, Used(sessions, ids), ids, target, portals, found);
    r := if found != ids then Err else Ok(Connection(target, Compact(Sort(portals))));
  }

  lemma UsedStep(sessions: seq<Session>, ids: set<int>, i: nat)
    requires i < |sessions|
    ensures Used(sessions[..i + 1], ids) ==
            if sessions[i].id in ids then Used(sessions[..i], ids) + [sessions[i]] else Used(sessions[..i], ids)
  {
    assert sessions[..i + 1][..i] == sessions[..i];
  }

  lemma {:induction false} UsedGrows(sessions: seq<Session>, ids: set<int>, i: nat)
    requires i <= |sessions|
    ensures Used(sessions[..i], ids) <= Used(sessions, ids)
    decreases |sessions| - i
  {
    if i == |sessions| {
      assert sessions[..i] == sessions;
    } else {
      UsedGrows(sessions, ids, i + 1);
      assert sessions[..i + 1][..i] == sessions[..i];
    }
  }

  lemma UsedIds(sessions: seq<Session>, ids: set<int>)
    ensures forall x :: x in Used(sessions, ids) ==> x.id in ids
  {
    forall x | x in Used(sessions, ids) ensures x.id in ids { UsedMembers(sessions, ids, x); }
  }

  lemma MissingId(used: seq<Session>, found: set<int>, ids: set<int>)
    requires found == (set x | x in used :: x.id) && found <= ids && found != ids
    ensures exists n :: n in ids && forall x :: x in used ==> x.id != n
  {
    assert (forall n :: n in ids ==> n in found) ==> found == ids;
    var n :| n in ids && n !in found;
    assert forall x :: x in used ==> x.id in found;
  }

  lemma AllCovered(used: seq<Session>, found: set<int>, ids: set<int>)
    requires found == (set x | x in used :: x.id) && found == ids && ids != {}
    ensures used != [] && forall n :: n in ids ==> exists x :: x in used && x.id == n
  {
    assert (forall n :: n !in ids) ==> ids == {};
  }

  method IscsiForDevices(id: string, devices: seq<Device>, sessions: seq<Session>)
    returns (r: Result<Option<Connection>>)
    ensures r == IscsiOf(id, devices, sessions)
  {
    var ids := CollectSessionIds(devices);
    if ids.Err? {
      return Err;
    }
    if ids.value.None? || ids.value.value == {} {
      return Ok(None);
    }
    var c := ConnectionFromSessions(id, sessions, ids.value.value);
    r := if c.Err? then Err else Ok(Some(c.value));
  }

  /**
   What a mount leads to is live and the volume's own: a target with a session, or a subsystem
   with a fabrics controller and no local one, named for the volume.
   */
  lemma MountedIsOwn(id: string, devices: seq<Device>, t: Transports)
    requires Mounted(id, devices, t).Ok?
    ensures match Mounted(id, devices, t).value
            case Iscsi(c) => c.iqn in SessionTargets(t.sessions, TargetSuffix(id))
            case Nvme(nqn) =>
              nqn in Remotes(t.controllers, SubsysName(id)) && nqn !in Locals(t.controllers, SubsysName(id))
            case _ => false
  {
    var nvme := NvmeOf(id, devices, t.controllers);
    if nvme.value.Some? {
      var nqn := nvme.value.value;
      var c :| c in t.controllers && c.nqn == nqn && IsRemote(c.transport);
      assert nqn in Remotes(t.controllers, SubsysName(id));
    } else {
      var ids := SessionIds(devices).value.value;
      var used := Used(t.sessions, ids);
      UsedMembers(t.sessions, ids, used[0]);
      assert used[0].iqn in SessionTargets(t.sessions, TargetSuffix(id));
    }
  }

  // every device is one of the subsystem, which is the volume's and has only fabrics controllers
  ghost predicate AreOf(id: string, devices: seq<Device>, cs: seq<Controller>, nqn: string) {
    && devices != [] && (forall d :: d in devices ==> d.nvme == Hit(nqn)) && Belongs(nqn, SubsysName(id))
    && (exists c :: c in cs && c.nqn == nqn) && (forall c :: c in cs && c.nqn == nqn ==> IsRemote(c.transport))
  }

  // no device is NVMe, and every one hangs on a session, all of them to the target, which is the volume's
  ghost predicate HangOn(id: string, devices: seq<Device>, sessions: seq<Session>, iqn: string) {
    && devices != [] && Belongs(iqn, TargetSuffix(id))
    && (forall d :: d in devices ==> d.nvme.Miss? && d.session.Hit? && HasSession(sessions, d.session.value))
    && (forall d, x :: d in devices && x in sessions && d.session == Hit(x.id) ==> x.iqn == iqn)
  }

  ghost predicate HasSession(sessions: seq<Session>, n: int) { exists x :: x in sessions && x.id == n }

  lemma {:induction false} SessionIdsExactly(devices: seq<Device>)
    ensures var r := SessionIds(devices);
            && (r.Ok? && r.value.Some? <==> forall d :: d in devices ==> d.session.Hit?)
            && (r.Ok? && r.value.Some? ==>
                  forall n :: n in r.value.value <==> exists d :: d in devices && d.session == Hit(n))
  {
    if devices != [] {
      SessionIdsExactly(devices[1..]);
      assert devices == [devices[0]] + devices[1..];
    }
  }

  /** A mount leads to a subsystem, or to a target, exactly when all its devices do. */
  lemma MountedIsExact(id: string, devices: seq<Device>, t: Transports, name: string)
    ensures Mounted(id, devices, t) == Ok(Nvme(name)) <==> AreOf(id, devices, t.controllers, name)
    ensures LeadsToTarget(Mounted(id, devices, t), name) <==> HangOn(id, devices, t.sessions, name)
  {
    MountedNvme(id, devices, t, name);
    if LeadsToTarget(Mounted(id, devices, t), name) { MountedIscsi(id, devices, t, name); }
    if HangOn(id, devices, t.sessions, name) { HangingIsFound(id, devices, t, name); }
  }

  predicate LeadsToTarget(r: Result<Found>, iqn: string) {
    r.Ok? && r.value.Iscsi? && r.value.connection.iqn == iqn
  }

  lemma MountedNvme(id: string, devices: seq<Device>, t: Transports, nqn: string)
    ensures Mounted(id, devices, t) == Ok(Nvme(nqn)) <==> AreOf(id, devices, t.controllers, nqn)
  {
    if AreOf(id, devices, t.controllers, nqn) {
      assert devices[0] in devices;
    }
  }

  lemma MountedIscsi(id: string, devices: seq<Device>, t: Transports, iqn: string)
    requires LeadsToTarget(Mounted(id, devices, t), iqn)
    ensures HangOn(id, devices, t.sessions, iqn)
  {
    SessionIdsExactly(devices);
    var ids := SessionIds(devices).value.value;
    var used := Used(t.sessions, ids);
    UsedMembers(t.sessions, ids, used[0]);
    assert used[0] in used;
    forall d | d in devices ensures d.nvme.Miss? && d.session.Hit? && HasSession(t.sessions, d.session.value) {
      var n := d.session.value;
      assert n in ids;
      var x :| x in used && x.id == n;
      UsedMembers(t.sessions, ids, x);
    }
    forall d, x | d in devices && x in t.sessions && d.session == Hit(x.id) ensures x.iqn == iqn {
      assert x.id in ids;
      UsedMembers(t.sessions, ids, x);
    }
  }

  lemma HangingIsFound(id: string, devices: seq<Device>, t: Transports, iqn: string)
    requires HangOn(id, devices, t.sessions, iqn)
    ensures LeadsToTarget(Mounted(id, devices, t), iqn)
  {
    assert devices[0] in devices;
    SessionIdsExactly(devices);
    var ids := SessionIds(devices).value.value;
    var used := Used(t.sessions, ids);
    assert devices[0].session.value in ids;
    forall n | n in ids ensures exists x :: x in used && x.id == n {
      var d :| d in devices && d.session == Hit(n);
      var x :| x in t.sessions && x.id == n;
      UsedMembers(t.sessions, ids, x);
    }
    forall x | x in used ensures x.iqn == iqn {
      UsedMembers(t.sessions, ids, x);
      var d :| d in devices && d.session == Hit(x.id);
    }
  }

  // all that this node shows of the volume is this one transport
  ghost predicate Unambiguous(t: Transports, id: string, found: Found) {
    match found
    case Iscsi(c) => IscsiEvidence(t, id) <= {c.iqn} && Subsystem(t, id) == Ok(None)
    case Nvme(nqn) => IscsiEvidence(t, id) == {} && Subsystem(t, id) == Ok(Some(nqn))
    case _ => true
  }

  // the transport the discovery found is gone or going: nothing else is touched
  ghost predicate Lost(t: Transports, t': Transports, found: Found) {
    match found
    case Iscsi(c) => LostTarget(t, t', c.iqn)
    case Nvme(nqn) => LostSubsystem(t, t', nqn)
    case _ => t' == t
  }

  // the same identity, whatever portals are left
  predicate SameIdentity(a: Found, b: Found) {
    match a
    case Iscsi(c) => b.Iscsi? && b.connection.iqn == c.iqn
    case _ => a == b
  }

  /**
   After a disconnect that failed anywhere, the volume ID alone leads to the transport that was
   found before, whether through the mount or by an earlier retry, or to nothing once it is gone.
   */
  lemma TransportIsRediscovered(id: string, t: Transports, t': Transports, found: Found)
    requires (found.Iscsi? || found.Nvme?) && Unambiguous(t, id, found) && Lost(t, t', found) && Consistent(t', id)
    ensures var r := Detached(t', id); r.Ok? && (r.value == Nothing || SameIdentity(found, r.value))
  {
    match found
    case Iscsi(c) => LogoutCanBeRetried(t, t', id, c.iqn);
    case Nvme(nqn) => DisconnectCanBeRetried(t, t', id, nqn);
    case _ =>
  }
}
