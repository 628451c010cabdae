/**
 NodeStageVolume, NodePublishVolume and NodeUnpublishVolume for block protocols, call by call.
 Each is a sequence of the lifecycle's steps; NodeRefinement shows the same for unstaging.
 */
module NodeOperations {
  import opened NodeLifecycle

  class Plugin {
    var mounts: set<Mount>
    var connected: set<nat>

    function View(): (w: World)
      reads this
    {
      World(mounts, connected, map[])
    }

    // staging places show their own volume
    predicate Valid()
      reads this
    {
      forall m :: m in mounts && !m.place.Target? ==> m.volume == m.place.volume
    }

    constructor ()
      ensures Valid() && View() == World({}, {}, map[])
    {
      mounts, connected := {}, {};
    }

    // ---------- commands, with how they end ----------

    method Login(v: nat, o: Outcome)
      modifies this`connected
      ensures View() == Connect(old(View()), v, o)
    {
      if Took(o) {
        connected := connected + {v};
      }
    }

    method Logout(v: nat, o: Outcome)
      modifies this`connected
      ensures View() == Disconnect(old(View()), v, o)
    {
      if Took(o) {
        connected := connected - {v};
      }
    }

    method MountAt(p: Place, v: nat, o: Outcome)
      modifies this`mounts
      ensures View() == if Took(o) then Mounted(old(View()), p, v, o) else old(View())
      ensures Took(o) ==> Mount(p, false, v) in mounts && Here(View(), p)
    {
      if Took(o) {
        mounts := mounts + {Mount(p, false, v)} + if o.mirrored then {Mount(p, true, v)} else {};
        assert Mount(p, false, v) in mounts;
      }
    }

    method UnmountFrom(p: Place, o: Outcome)
      modifies this`mounts
      ensures View() == Unmounted(old(View()), p, o)
    {
      mounts := set m | m in mounts && (m.place != p || m in o.left);
    }

    // ---------- operations, within the lock of the volume ----------

    /**
     NodeStageVolume, given whether the tables can be read and agree and how each command ends:
     an existing staging mount is validated or refused, and never mounted over; a connection
     that brings no device is given up.
     */
    method Stage(v: nat, block: bool, readable: bool, login: Outcome, undo: Outcome, mounted: Outcome)
      returns (ok: bool)
      requires Valid()
      modifies this
      ensures var outcomes := [Inspected(readable), login, if login.device then mounted else undo];
              Valid() && Steps(old(View()), StageLocked(v, block), outcomes) == Effect(View(), Ending(v))
      ensures ok <==> readable && if old(IsStaged(View(), v)) then !old(Here(View(), Source(v, !block)))
                                  else login.ok && login.device && mounted.ok
      ensures ok ==> Here(View(), Source(v, block))
      ensures ok && !old(IsStaged(View(), v)) ==> v in connected && Mount(Source(v, block), false, v) in mounts
      ensures readable && !old(IsStaged(View(), v)) && login.ok && !login.device && Took(undo) ==>
                mounts == old(mounts) && connected == old(connected) - {v}
    {
      ghost var w, last := View(), if login.device then mounted else undo;
      StageSteps(w, v, block, readable, login, last);
      var filesystem, anchor := Here(View(), Staging(v)), Here(View(), Anchor(v));
      if !readable || filesystem || anchor {
        return readable && if block then anchor && !filesystem else filesystem && !anchor;
      }
      Login(v, login);
      if !login.ok {
        return false;
      }
      if !login.device {
        Logout(v, undo);
        return false;
      }
      MountAt(Source(v, block), v, mounted);
      ok := mounted.ok;
    }

    /** NodePublishVolume: an existing publication is validated, and nothing is bound unless it is staged. */
    method Publish(v: nat, block: bool, target: string, readable: bool, bound: Outcome) returns (ok: bool)
      requires Valid()
      modifies this`mounts
      ensures var outcomes := [Inspected(readable), bound];
              Valid() && Steps(old(View()), PublishLocked(v, block, target), outcomes) == Effect(View(), Ending(v))
      ensures ok <==> readable && if old(Here(View(), Target(target))) then true
                                  else old(Here(View(), Source(v, block))) && bound.ok
      ensures ok ==> Here(View(), Target(target))
      ensures ok && !old(Here(View(), Target(target))) ==> Mount(Target(target), false, v) in mounts
      ensures mounts != old(mounts) ==> Here(old(View()), Source(v, block)) && !old(Here(View(), Target(target)))
    {
      PublishSteps(View(), v, block, target, readable, bound);
      if !readable || Here(View(), Target(target)) || !Here(View(), Source(v, block)) {
        return readable && Here(View(), Target(target));
      }
      MountAt(Target(target), v, bound);
      ok := bound.ok;
    }

    /** NodeUnpublishVolume: the mounts at the target go, and no others. */
    method Unpublish(v: nat, target: string, gone: Outcome) returns (ok: bool)
      requires Valid()
      modifies this`mounts
      ensures Valid() && Steps(old(View()), UnpublishLocked(v, target), [gone]) == Effect(View(), Ending(v))
      ensures ok <==> gone.ok && !Here(View(), Target(target))
      ensures gone.left == {} ==> forall m :: m in mounts <==> m in old(mounts) && m.place != Target(target)
    {
      StepsCons(View(), UnpublishLocked(v, target), gone, []);
      assert [gone] + [] == [gone];
      UnmountFrom(Target(target), gone);
      ok := gone.ok && !Here(View(), Target(target));
    }
  }

  function Inspected(readable: bool): Outcome { if readable then Good else Bad }

  // the steps of staging, by what is mounted and how the connection ends
  lemma StageSteps(w: World, v: nat, block: bool, readable: bool, login: Outcome, last: Outcome)
    ensures var w' := Connect(w, v, login);
            Steps(w, StageLocked(v, block), [Inspected(readable), login, last]) ==
            if !readable || IsStaged(w, v) then Effect(w, Ending(v))
            else if !login.ok then Effect(w', Ending(v))
            else MoveOf(w', if login.device then StageMounting(v, block) else StageRollback(v), last)
  {
    var w' := Connect(w, v, login);
    assert [Inspected(readable), login, last] == [Inspected(readable)] + ([login] + ([last] + []));
    StepsCons(w, StageLocked(v, block), Inspected(readable), [login] + ([last] + []));
    if readable && !IsStaged(w, v) {
      StepsCons(w, StageConnecting(v, block), login, [last] + []);
      if login.ok {
        StepsCons(w', if login.device then StageMounting(v, block) else StageRollback(v), last, []);
      }
    }
  }

  lemma PublishSteps(w: World, v: nat, block: bool, target: string, readable: bool, bound: Outcome)
    ensures Steps(w, PublishLocked(v, block, target), [Inspected(readable), bound]) ==
            if !readable || Here(w, Target(target)) || !Here(w, Source(v, block)) then Effect(w, Ending(v))
            else MoveOf(w, PublishBinding(v, block, target), bound)
  {
    assert [Inspected(readable), bound] == [Inspected(readable)] + ([bound] + []);
    StepsCons(w, PublishLocked(v, block, target), Inspected(readable), [bound] + []);
    if readable && !Here(w, Target(target)) && Here(w, Source(v, block)) {
      StepsCons(w, PublishBinding(v, block, target), bound, []);
    }
  }
}
