/**
 The two models of unstaging are of one operation: seen through the lifecycle's eyes, whatever
 NodeUnstageVolume does to the tables of a node is a sequence of the lifecycle's unstage steps.
 */
module NodeRefinement {
  import opened Basics
  import opened PathText
  import opened MountTable
  import opened NodeDiscovery
  import opened NodeUnstage
  import L = NodeLifecycle

  // the volume is number 0; `entry` is its staging mount, by which its publications are known
  function PlaceOf(staging: string, entry: Option<MountPoint>, e: MountPoint): Option<L.Place> {
    if Canonical(e.path) == Canonical(staging) then Some(L.Staging(0))
    else if Canonical(e.path) == Canonical(Anchor(staging)) then Some(L.Anchor(0))
    else if entry.Some? && SameMount(e, entry.value) then Some(L.Target(Canonical(e.path)))
    else None
  }

  // a staging mount that is seen at another path is seen through the mirror
  function IsMirror(staging: string, e: MountPoint): bool {
    Clean(e.path) != Clean(staging) && Clean(e.path) != Clean(Anchor(staging))
  }

  // what the lifecycle sees of a mount table
  ghost function Seen(mounts: seq<MountPoint>, staging: string, entry: Option<MountPoint>): set<L.Mount> {
    set e | e in mounts && PlaceOf(staging, entry, e).Some? ::
      L.Mount(PlaceOf(staging, entry, e).value, IsMirror(staging, e), 0)
  }

  ghost function WorldOf(mounts: seq<MountPoint>, staging: string, entry: Option<MountPoint>, connected: bool): L.World
  {
    L.World(Seen(mounts, staging, entry), if connected then {0} else {}, map[])
  }

  ghost function EntryOf(discovered: Option<Option<MountPoint>>): Option<MountPoint> {
    if discovered.Some? then discovered.value else None
  }

  /**
   Everything NodeUnstageVolume may do to mounts and transports is done by unstage steps of the
   lifecycle, whatever it takes for a transport to count as connected.
   */
  lemma UnstageIsStepwise(m: seq<MountPoint>, m': seq<MountPoint>, t: Transports, t': Transports, staging: string,
                          discovered: Option<Option<MountPoint>>, connected: Transports -> bool)
    returns (outcomes: seq<L.Outcome>)
    requires IsAbs(staging) && Touched(m, m', t, t', staging, discovered) && (connected(t') ==> connected(t))
    ensures var entry := EntryOf(discovered);
            L.Steps(WorldOf(m, staging, entry, connected(t)), L.UnstageLocked(0), outcomes) ==
            L.Effect(WorldOf(m', staging, entry, connected(t')), L.Ending(0))
  {
    var entry, c, c' := EntryOf(discovered), connected(t), connected(t');
    var w := WorldOf(m, staging, entry, c);
    AnchorIsElsewhere(staging);
    if discovered.None? {
      outcomes := [L.Bad] + [];
      L.StepsCons(w, L.UnstageLocked(0), L.Bad, []);
    } else if entry.None? {
      outcomes := WithoutMount(m, staging, c, c');
    } else {
      outcomes := WithMount(m, m', staging, c, c', entry.value);
    }
  }

  // ---------- the anchor lies below the staging path ----------

  // a child's path is longer by at least its name
  lemma ChildIsLonger(path: string, name: string)
    requires IsAbs(path) && IsName(name)
    ensures var child := path + "/" + name; IsAbs(child) && |Clean(child)| >= |Clean(path)| + |name|
  {
    CleanSteps(path, name);
    CleanIdempotent(path);
    KeptMore(path, name);
  }

  lemma CanonicalLength(path: string)
    ensures |Clean(path)| - 5 <= |Canonical(path)| <= |Clean(path)|
  {
  }

  lemma AnchorIsElsewhere(staging: string)
    requires IsAbs(staging)
    ensures Canonical(staging) != Canonical(Anchor(staging))
  {
    var child := staging + "/" + "block_device";
    assert child == staging + "/block_device";
    ChildIsLonger(staging, "block_device");
    CleanIdempotent(child);
    CanonicalLength(staging);
    CanonicalLength(Anchor(staging));
  }

  // ---------- what is seen ----------

  lemma SeenFrom(mounts: seq<MountPoint>, staging: string, entry: Option<MountPoint>, x: L.Mount)
    returns (e: MountPoint)
    requires x in Seen(mounts, staging, entry)
    ensures e in mounts && PlaceOf(staging, entry, e) == Some(x.place)
    ensures IsMirror(staging, e) == x.mirror && x.volume == 0
  {
    e :| e in mounts && PlaceOf(staging, entry, e).Some? &&
         x == L.Mount(PlaceOf(staging, entry, e).value, IsMirror(staging, e), 0);
  }

  lemma SeenBy(mounts: seq<MountPoint>, staging: string, entry: Option<MountPoint>, e: MountPoint)
    requires e in mounts && PlaceOf(staging, entry, e).Some?
    ensures L.Mount(PlaceOf(staging, entry, e).value, IsMirror(staging, e), 0) in Seen(mounts, staging, entry)
  {
  }

  // the path that a staging place stands for
  function PathOf(staging: string, p: L.Place): string { if p == L.Staging(0) then staging else Anchor(staging) }

  lemma AnchorIsPath(staging: string)
    requires IsAbs(staging)
    ensures Anchor(staging) != "" && staging != ""
  {
    assert (staging + "/block_device")[0] == staging[0];
  }

  lemma AnywhereIsMounted(mounts: seq<MountPoint>, staging: string, entry: Option<MountPoint>, c: bool, p: L.Place)
    requires L.IsStagingOf(p, 0) && Canonical(staging) != Canonical(Anchor(staging))
    ensures L.Anywhere(WorldOf(mounts, staging, entry, c), p) <==> !NotMounted(mounts, PathOf(staging, p))
  {
    if L.Anywhere(WorldOf(mounts, staging, entry, c), p) { AnywhereHasMount(mounts, staging, entry, c, p); }
    if !NotMounted(mounts, PathOf(staging, p)) {
      MountIsSeen(mounts, staging, entry, EffectiveCanonicalMount(mounts, PathOf(staging, p)).value, p);
    }
  }

  lemma AnywhereHasMount(mounts: seq<MountPoint>, staging: string, entry: Option<MountPoint>, c: bool, p: L.Place)
    requires L.IsStagingOf(p, 0) && L.Anywhere(WorldOf(mounts, staging, entry, c), p)
    ensures !NotMounted(mounts, PathOf(staging, p))
  {
    var x :| x in WorldOf(mounts, staging, entry, c).mounts && x.place == p;
    var e := SeenFrom(mounts, staging, entry, x);
  }

  lemma MountIsSeen(mounts: seq<MountPoint>, staging: string, entry: Option<MountPoint>, e: MountPoint, p: L.Place)
    requires e in mounts && L.IsStagingOf(p, 0) && Canonical(staging) != Canonical(Anchor(staging))
    requires Canonical(e.path) == Canonical(PathOf(staging, p))
    ensures L.Mount(p, IsMirror(staging, e), 0) in Seen(mounts, staging, entry)
  {
    SeenBy(mounts, staging, entry, e);
  }

  lemma HereIsEffective(mounts: seq<MountPoint>, staging: string, entry: Option<MountPoint>, c: bool, p: L.Place)
    requires L.IsStagingOf(p, 0) && IsAbs(staging) && Canonical(staging) != Canonical(Anchor(staging))
    ensures L.Here(WorldOf(mounts, staging, entry, c), p) <==> EffectiveMount(mounts, PathOf(staging, p)).Some?
  {
    AnchorIsPath(staging);
    var w, path := WorldOf(mounts, staging, entry, c), PathOf(staging, p);
    if L.Here(w, p) {
      var x :| x in w.mounts && x.place == p && !x.mirror;
      var e := SeenFrom(mounts, staging, entry, x);
      assert Clean(e.path) == Clean(path);
    }
    if EffectiveMount(mounts, path).Some? {
      var e := EffectiveMount(mounts, path).value;
      assert Canonical(e.path) == Canonical(path);
      SeenBy(mounts, staging, entry, e);
    }
  }

  // ---------- nothing mounted ----------

  lemma WithoutMount(m: seq<MountPoint>, staging: string, c: bool, c': bool) returns (outcomes: seq<L.Outcome>)
    requires IsAbs(staging) && Canonical(staging) != Canonical(Anchor(staging))
    requires (c' ==> c) && StagedAs(m, staging, None)
    ensures L.Steps(WorldOf(m, staging, None, c), L.UnstageLocked(0), outcomes) ==
            L.Effect(WorldOf(m, staging, None, c'), L.Ending(0))
  {
    var w, o := WorldOf(m, staging, None, c), if c' != c then L.Good else L.Bad;
    forall p | L.IsStagingOf(p, 0) ensures !L.Here(w, p) && !L.Anywhere(w, p) {
      AnywhereIsMounted(m, staging, None, c, p);
      HereIsEffective(m, staging, None, c, p);
    }
    assert L.IsStagingOf(L.Staging(0), 0) && L.IsStagingOf(L.Anchor(0), 0);
    outcomes := [L.Good] + ([o] + []);
    L.StepsCons(w, L.UnstageLocked(0), L.Good, [o] + []);
    L.StepsCons(w, L.UnstageDisconnecting(0), o, []);
  }

  // ---------- a staging mount ----------

  lemma FoundAt(m: seq<MountPoint>, staging: string, e: MountPoint, c: bool) returns (p: L.Place)
    requires IsAbs(staging) && Canonical(staging) != Canonical(Anchor(staging)) && StagedAs(m, staging, Some(e))
    ensures L.IsStagingOf(p, 0) && L.Discovered(WorldOf(m, staging, Some(e), c), 0) == L.UnstageReleasing(0, p)
    ensures Canonical(e.path) == Canonical(PathOf(staging, p))
    ensures forall other :: L.IsStagingOf(other, 0) && other != p ==> NotMounted(m, PathOf(staging, other))
  {
    p := if EffectiveMount(m, staging).Some? then L.Staging(0) else L.Anchor(0);
    HereIsEffective(m, staging, Some(e), c, L.Staging(0));
    HereIsEffective(m, staging, Some(e), c, L.Anchor(0));
    AnywhereIsMounted(m, staging, Some(e), c, L.Staging(0));
    AnywhereIsMounted(m, staging, Some(e), c, L.Anchor(0));
    assert Clean(e.path) == Clean(PathOf(staging, p));
  }

  lemma UnpublishedIsUnreferenced(m: seq<MountPoint>, staging: string, e: MountPoint, c: bool, p: L.Place)
    requires L.IsStagingOf(p, 0) && Canonical(e.path) == Canonical(PathOf(staging, p)) && !Published(m, e)
    requires forall other :: L.IsStagingOf(other, 0) && other != p ==> NotMounted(m, PathOf(staging, other))
    ensures !L.Referenced(WorldOf(m, staging, Some(e), c), 0, p)
  {
    var other := if p == L.Staging(0) then L.Anchor(0) else L.Staging(0);
    assert NotMounted(m, PathOf(staging, other));
    forall x | x in Seen(m, staging, Some(e)) ensures x.place == p {
      var f := SeenFrom(m, staging, Some(e), x);
    }
  }

  lemma UnmountedIsSeen(m: seq<MountPoint>, m': seq<MountPoint>, staging: string, e: MountPoint, c: bool, p: L.Place)
    requires L.IsStagingOf(p, 0) && Canonical(e.path) == Canonical(PathOf(staging, p)) && Unmounted(m, m', e.path)
    requires Canonical(staging) != Canonical(Anchor(staging))
    ensures var o := L.Good.(left := Seen(m', staging, Some(e)));
            L.Unmounted(WorldOf(m, staging, Some(e), c), p, o) == WorldOf(m', staging, Some(e), c)
  {
    var before, after := Seen(m, staging, Some(e)), Seen(m', staging, Some(e));
    forall x | x in after ensures x in before {
      var f := SeenFrom(m', staging, Some(e), x);
      SeenBy(m, staging, Some(e), f);
    }
    forall x | x in before && x.place != p ensures x in after {
      var f := SeenFrom(m, staging, Some(e), x);
      assert Canonical(f.path) != Canonical(e.path);
      SeenBy(m', staging, Some(e), f);
    }
  }

  lemma WithMount(m: seq<MountPoint>, m': seq<MountPoint>, staging: string, c: bool, c': bool, e: MountPoint)
    returns (outcomes: seq<L.Outcome>)
    requires IsAbs(staging) && Canonical(staging) != Canonical(Anchor(staging)) && (c' ==> c)
    requires StagedAs(m, staging, Some(e)) && Unmounted(m, m', e.path) && (c' != c ==> NotMounted(m', e.path))
    requires Published(m, e) ==> m' == m && c' == c
    ensures L.Steps(WorldOf(m, staging, Some(e), c), L.UnstageLocked(0), outcomes) ==
            L.Effect(WorldOf(m', staging, Some(e), c'), L.Ending(0))
  {
    var w := WorldOf(m, staging, Some(e), c);
    var p := FoundAt(m, staging, e, c);
    if Published(m, e) {
      outcomes := [L.Good] + ([L.Bad] + []);
      StepsRefused(w, p);
    } else {
      UnpublishedIsUnreferenced(m, staging, e, c, p);
      UnmountedIsSeen(m, m', staging, e, c, p);
      if c' != c { AnywhereIsMounted(m', staging, Some(e), c, p); }
      outcomes := StepsOfRelease(w, p, Seen(m', staging, Some(e)), c' != c);
    }
  }

  // ---------- sequences of steps ----------

  lemma StepsRefused(w: L.World, p: L.Place)
    requires L.Discovered(w, 0) == L.UnstageReleasing(0, p)
    ensures L.Steps(w, L.UnstageLocked(0), [L.Good] + ([L.Bad] + [])) == L.Effect(w, L.Ending(0))
  {
    L.StepsCons(w, L.UnstageLocked(0), L.Good, [L.Bad] + []);
    L.StepsCons(w, L.UnstageReleasing(0, p), L.Bad, []);
  }

  lemma StepsReleased(w: L.World, p: L.Place, rest: seq<L.Outcome>)
    requires L.Discovered(w, 0) == L.UnstageReleasing(0, p) && !L.Referenced(w, 0, p)
    ensures L.Steps(w, L.UnstageLocked(0), [L.Good] + ([L.Good] + rest)) == L.Steps(w, L.UnstageUnmounting(0, p), rest)
  {
    L.StepsCons(w, L.UnstageLocked(0), L.Good, [L.Good] + rest);
    L.StepsCons(w, L.UnstageReleasing(0, p), L.Good, rest);
  }

  // unmounting the staging mount, and disconnecting if nothing is left of it
  lemma StepsOfRelease(w: L.World, p: L.Place, left: set<L.Mount>, disconnect: bool) returns (outcomes: seq<L.Outcome>)
    requires L.Discovered(w, 0) == L.UnstageReleasing(0, p) && !L.Referenced(w, 0, p)
    requires disconnect ==> !L.Anywhere(L.Unmounted(w, p, L.Good.(left := left)), p)
    ensures var w' := L.Unmounted(w, p, L.Good.(left := left));
            L.Steps(w, L.UnstageLocked(0), outcomes) ==
            L.Effect(if disconnect then w'.(connected := w'.connected - {0}) else w', L.Ending(0))
  {
    var o := L.Good.(left := left);
    if disconnect {
      var rest := [o] + ([L.Good] + ([L.Good] + []));
      outcomes := [L.Good] + ([L.Good] + rest);
      StepsReleased(w, p, rest);
      StepsDisconnect(w, p, o);
    } else {
      var failed := o.(ok := false);
      outcomes := [L.Good] + ([L.Good] + ([failed] + []));
      StepsReleased(w, p, [failed] + []);
      L.StepsCons(w, L.UnstageUnmounting(0, p), failed, []);
    }
  }

  lemma StepsDisconnect(w: L.World, p: L.Place, o: L.Outcome)
    requires o.ok && !L.Anywhere(L.Unmounted(w, p, o), p)
    ensures var w' := L.Unmounted(w, p, o);
            L.Steps(w, L.UnstageUnmounting(0, p), [o] + ([L.Good] + ([L.Good] + []))) ==
            L.Effect(w'.(connected := w'.connected - {0}), L.Ending(0))
  {
    var w' := L.Unmounted(w, p, o);
    L.StepsCons(w, L.UnstageUnmounting(0, p), o, [L.Good] + ([L.Good] + []));
    L.StepsCons(w', L.UnstageVerifying(0, p), L.Good, [L.Good] + []);
    L.StepsCons(w', L.UnstageDisconnecting(0), L.Good, []);
  }
}
