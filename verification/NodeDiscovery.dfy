/**
 Finding a volume's live transport on a node from its ID alone: iSCSI sessions, session
 entries in sysfs, records of the iSCSI node database and NVMe controllers, each recognised
 by the end of its qualified name. `name` is the target or subsystem name of the volume.
 */
module NodeDiscovery {
  import opened Basics
  import opened PathText
  import opened VolumeNames

  datatype Session = Session(id: int, portal: string, iqn: string)

  datatype Controller = Controller(path: string, nqn: string, transport: string)

  datatype Transports = Transports(
    sessions: seq<Session>,
    sysfs: seq<string>,              // target names of the session entries
    records: seq<string>,            // directories of the node database
    controllers: seq<Controller>)

  datatype Connection = Connection(iqn: string, portals: seq<string>)

  datatype Found = Nothing | Nfs | Iscsi(connection: Connection) | Nvme(nqn: string)

  // ---------- what matches ----------

  function Matching(xs: seq<string>, name: string): set<string> { set x | x in xs && Belongs(x, name) }

  function SessionTargets(sessions: seq<Session>, name: string): set<string> {
    set x | x in sessions && Belongs(x.iqn, name) :: x.iqn
  }

  predicate IsRemote(transport: string) {
    transport == "tcp" || transport == "rdma" || transport == "fc" || transport == "loop"
  }

  function Remotes(cs: seq<Controller>, name: string): set<string> {
    set c | c in cs && Belongs(c.nqn, name) && IsRemote(c.transport) :: c.nqn
  }

  function Locals(cs: seq<Controller>, name: string): set<string> {
    set c | c in cs && Belongs(c.nqn, name) && c.transport == "pcie" :: c.nqn
  }

  predicate Supported(cs: seq<Controller>, name: string) {
    forall c :: c in cs && Belongs(c.nqn, name) ==> c.transport == "pcie" || IsRemote(c.transport)
  }

  // the only element, none, or an error when there are several
  ghost function Sole(xs: set<string>): (r: Result<Option<string>>)
    ensures r == Ok(None) <==> xs == {}
    ensures forall x :: r == Ok(Some(x)) <==> xs == {x}
  {
    if xs == {} then Ok(None)
    else
      var x :| x in xs;
      if xs == {x} then Ok(Some(x)) else Err
  }

  function PortalsOf(sessions: seq<Session>, iqn: string): seq<string> {
    if sessions == [] then []
    else
      var last := sessions[|sessions| - 1];
      PortalsOf(sessions[..|sessions| - 1], iqn) + if last.iqn == iqn then [last.portal] else []
  }

  function ConnectionTo(sessions: seq<Session>, iqn: string): Connection {
    Connection(iqn, Compact(Sort(PortalsOf(sessions, iqn))))
  }

  lemma {:induction false} PortalsOfMembers(sessions: seq<Session>, iqn: string, portal: string)
    ensures portal in PortalsOf(sessions, iqn) <==> exists x :: x in sessions && x.iqn == iqn && x.portal == portal
  {
    if sessions != [] {
      var init, last := sessions[..|sessions| - 1], sessions[|sessions| - 1];
      assert sessions == init + [last];
      PortalsOfMembers(init, iqn, portal);
    }
  }

  /** The portals of a connection are those of the target's sessions, each once, in order. */
  lemma ConnectionPortals(sessions: seq<Session>, iqn: string, portal: string)
    ensures Increasing(ConnectionTo(sessions, iqn).portals)
    ensures portal in ConnectionTo(sessions, iqn).portals <==>
            exists x :: x in sessions && x.iqn == iqn && x.portal == portal
  {
    SortCompact(PortalsOf(sessions, iqn));
    PortalsOfMembers(sessions, iqn, portal);
  }

  // ---------- the searches ----------

  ghost function FoundRecord(records: seq<string>, name: string): Result<Option<string>> {
    Sole(Matching(records, name))
  }

  ghost function FoundConnection(t: Transports, name: string): Result<Option<Connection>> {
    var targets := SessionTargets(t.sessions, name);
    if targets == {} then
      match FoundRecord(t.records, name)
      case Err => Err
      case Ok(None) => Ok(None)
      case Ok(Some(iqn)) => Ok(Some(Connection(iqn, [])))
    else
      match Sole(targets)
      case Ok(Some(iqn)) => Ok(Some(ConnectionTo(t.sessions, iqn)))
      case _ => Err
  }

  ghost function FoundEvidence(t: Transports, name: string): Result<Option<string>> {
    if FoundRecord(t.records, name).Err? then Err
    else Sole(Matching(t.records, name) + Matching(t.sysfs, name))
  }

  ghost function FoundSubsystem(cs: seq<Controller>, name: string): Result<Option<string>> {
    if !Supported(cs, name) || Remotes(cs, name) * Locals(cs, name) != {} then Err else Sole(Remotes(cs, name))
  }

  // the subsystem has all fabrics controllers named for the volume, and all others are local
  ghost predicate HasAllFabrics(cs: seq<Controller>, name: string, nqn: string) {
    && (exists c :: c in cs && c.nqn == nqn && Belongs(nqn, name))
    && (forall c :: c in cs && Belongs(c.nqn, name) ==>
                      if c.nqn == nqn then IsRemote(c.transport) else c.transport == "pcie")
  }

  ghost predicate AllLocal(cs: seq<Controller>, name: string) {
    forall c :: c in cs && Belongs(c.nqn, name) ==> c.transport == "pcie"
  }

  /** A subsystem is found exactly when the volume has no other fabrics controllers and no unknown ones. */
  lemma SubsystemIsFound(cs: seq<Controller>, name: string, nqn: string)
    ensures FoundSubsystem(cs, name) == Ok(Some(nqn)) <==> HasAllFabrics(cs, name, nqn)
    ensures FoundSubsystem(cs, name) == Ok(None) <==> AllLocal(cs, name)
  {
    var remotes, locals := Remotes(cs, name), Locals(cs, name);
    forall c | c in cs && Belongs(c.nqn, name)
      ensures IsRemote(c.transport) ==> c.nqn in remotes
      ensures c.transport == "pcie" ==> c.nqn in locals
    {
    }
    if FoundSubsystem(cs, name) == Ok(Some(nqn)) {
      assert nqn in remotes && nqn !in remotes * locals;
    }
    if HasAllFabrics(cs, name, nqn) {
      assert forall x :: x in remotes <==> x == nqn;
      assert remotes == {nqn} && remotes * locals == {};
    }
    if AllLocal(cs, name) {
      assert remotes == {} && remotes * locals == {};
    }
  }

  // findISCSINodeRecordByVolumeID, over the entries of a directory
  method FindNodeRecord(records: seq<string>, name: string) returns (r: Result<Option<string>>)
    requires forall i, j :: 0 <= i < j < |records| ==> records[i] != records[j]
    ensures r == FoundRecord(records, name)
  {
    var matches: seq<string> := [];
    for i := 0 to |records|
      invariant forall x :: x in matches <==> x in records[..i] && Belongs(x, name)
      invariant forall a, b :: 0 <= a < b < |matches| ==> matches[a] != matches[b]
    {
      if Belongs(records[i], name) {
        matches := matches + [records[i]];
      }
    }
    assert records[..|records|] == records;
    ghost var all := Matching(records, name);
    assert forall x :: x in matches <==> x in all;
    if |matches| == 0 {
      assert all == {};
      return Ok(None);
    }
    assert matches[0] in all;
    if |matches| > 1 {
      assert matches[1] in all;
      return Err;
    }
    assert all == {matches[0]};
    r := Ok(Some(matches[0]));
  }

  lemma {:induction false} NoPortals(sessions: seq<Session>, iqn: string)
    requires forall x :: x in sessions ==> x.iqn != iqn
    ensures PortalsOf(sessions, iqn) == []
  {
    if sessions != [] {
      assert sessions[|sessions| - 1] in sessions;
      NoPortals(sessions[..|sessions| - 1], iqn);
    }
  }

  // one more session
  lemma PortalsStep(sessions: seq<Session>, x: Session, iqn: string)
    ensures PortalsOf(sessions + [x], iqn) == PortalsOf(sessions, iqn) + if x.iqn == iqn then [x.portal] else []
  {
    assert (sessions + [x])[..|sessions|] == sessions;
  }

  function Groups(sessions: seq<Session>, name: string): map<string, seq<string>> {
    map iqn | iqn in SessionTargets(sessions, name) :: PortalsOf(sessions, iqn)
  }

  lemma TargetsStep(sessions: seq<Session>, x: Session, name: string)
    ensures SessionTargets(sessions + [x], name) ==
            SessionTargets(sessions, name) + if Belongs(x.iqn, name) then {x.iqn} else {}
  {
    var after := SessionTargets(sessions + [x], name);
    forall iqn | iqn in SessionTargets(sessions, name) ensures iqn in after {
      var y :| y in sessions && Belongs(y.iqn, name) && y.iqn == iqn;
      assert y in sessions + [x];
    }
    assert x in sessions + [x];
  }

  // the groups after one more session
  function Regrouped(g: map<string, seq<string>>, x: Session): map<string, seq<string>> {
    g[x.iqn := (if x.iqn in g then g[x.iqn] else []) + [x.portal]]
  }

  lemma GroupsSkip(sessions: seq<Session>, x: Session, name: string)
    requires !Belongs(x.iqn, name)
    ensures Groups(sessions + [x], name) == Groups(sessions, name)
  {
    TargetsStep(sessions, x, name);
    var g, g' := Groups(sessions, name), Groups(sessions + [x], name);
    assert g.Keys == g'.Keys;
    forall iqn | iqn in g ensures g'[iqn] == g[iqn] {
      assert Belongs(iqn, name);
      PortalsStep(sessions, x, iqn);
    }
  }

  lemma GroupsAdd(sessions: seq<Session>, x: Session, name: string)
    requires Belongs(x.iqn, name)
    ensures Groups(sessions + [x], name) == Regrouped(Groups(sessions, name), x)
  {
    TargetsStep(sessions, x, name);
    var r, g' := Regrouped(Groups(sessions, name), x), Groups(sessions + [x], name);
    assert r.Keys == g'.Keys;
    forall iqn | iqn in r ensures g'[iqn] == r[iqn] {
      PortalsStep(sessions, x, iqn);
      if iqn == x.iqn { PortalsBefore(sessions, x, name); }
    }
  }

  lemma PortalsBefore(sessions: seq<Session>, x: Session, name: string)
    requires Belongs(x.iqn, name)
    ensures PortalsOf(sessions, x.iqn) == if x.iqn in Groups(sessions, name) then Groups(sessions, name)[x.iqn] else []
  {
    if x.iqn !in Groups(sessions, name) { NoPortals(sessions, x.iqn); }
  }

  method GroupByTarget(sessions: seq<Session>, name: string) returns (byTarget: map<string, seq<string>>)
    ensures byTarget == Groups(sessions, name)
  {
    byTarget := map[];
    for i := 0 to |sessions|
      invariant byTarget == Groups(sessions[..i], name)
    {
      var x := sessions[i];
      assert sessions[..i + 1] == sessions[..i] + [x];
      if Belongs(x.iqn, name) {
        GroupsAdd(sessions[..i], x, name);
        byTarget := Regrouped(byTarget, x);
      } else {
        GroupsSkip(sessions[..i], x, name);
      }
    }
    assert sessions[..|sessions|] == sessions;
  }

  // findISCSIConnectionByVolumeID
  method FindConnection(t: Transports, name: string) returns (r: Result<Option<Connection>>)
    requires forall i, j :: 0 <= i < j < |t.records| ==> t.records[i] != t.records[j]
    ensures r == FoundConnection(t, name)
  {
    var byTarget := GroupByTarget(t.sessions, name);
    assert byTarget.Keys == SessionTargets(t.sessions, name);
    if |byTarget| == 0 {
      var record := FindNodeRecord(t.records, name);
      return match record case Err => Err case Ok(None) => Ok(None) case Ok(Some(iqn)) => Ok(Some(Connection(iqn, [])));
    }
    var iqn :| iqn in byTarget;
    if |byTarget| > 1 {
      SeveralAreNotSole(byTarget.Keys, iqn);
      return Err;
    }
    OneIsSole(byTarget.Keys, iqn);
    r := Ok(Some(Connection(iqn, Compact(Sort(byTarget[iqn])))));
  }

  lemma SeveralAreNotSole(xs: set<string>, x: string)
    requires x in xs && |xs| > 1
    ensures Sole(xs).Err?
  {
    assert forall y: string :: |{y}| == 1;
  }

  lemma OneIsSole(xs: set<string>, x: string)
    requires x in xs && |xs| <= 1
    ensures Sole(xs) == Ok(Some(x))
  {
    assert |xs - {x}| == 0;
    assert xs == {x};
  }

  // findISCSIEvidenceTargetByVolumeID
  method FindEvidence(t: Transports, name: string) returns (r: Result<Option<string>>)
    requires forall i, j :: 0 <= i < j < |t.records| ==> t.records[i] != t.records[j]
    ensures r == FoundEvidence(t, name)
  {
    var record := FindNodeRecord(t.records, name);
    if record.Err? {
      return Err;
    }
    var matching := if record.value.Some? then {record.value.value} else {};
    assert matching == Matching(t.records, name);
    for i := 0 to |t.sysfs|
      invariant matching == Matching(t.records, name) + Matching(t.sysfs[..i], name)
    {
      assert t.sysfs[..i + 1] == t.sysfs[..i] + [t.sysfs[i]];
      if Belongs(t.sysfs[i], name) {
        matching := matching + {t.sysfs[i]};
      }
    }
    assert t.sysfs[..|t.sysfs|] == t.sysfs;
    if |matching| == 0 {
      return Ok(None);
    }
    var x :| x in matching;
    if |matching| > 1 {
      SeveralAreNotSole(matching, x);
      return Err;
    }
    OneIsSole(matching, x);
    r := Ok(Some(x));
  }

  // findNVMeConnectionByVolumeID, without the paths of the controllers
  method FindSubsystem(cs: seq<Controller>, name: string) returns (r: Result<Option<string>>)
    ensures r == FoundSubsystem(cs, name)
  {
    var matching, local: set<string> := {}, {};
    for i := 0 to |cs|
      invariant matching == Remotes(cs[..i], name) && local == Locals(cs[..i], name) && Supported(cs[..i], name)
    {
      var c := cs[i];
      assert cs[..i + 1] == cs[..i] + [c];
      if !Belongs(c.nqn, name) {
        continue;
      }
      if c.transport == "pcie" {
        local := local + {c.nqn};
      } else if c.transport in ["tcp", "rdma", "fc", "loop"] {
        matching := matching + {c.nqn};
      } else {
        assert c in cs;
        return Err;
      }
    }
    assert cs[..|cs|] == cs;
    if matching * local != {} {
      return Err;
    }
    if |matching| == 0 {
      return Ok(None);
    }
    var x :| x in matching;
    if |matching| > 1 {
      SeveralAreNotSole(matching, x);
      return Err;
    }
    OneIsSole(matching, x);
    r := Ok(Some(x));
  }
}
