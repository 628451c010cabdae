/**
 All interleavings of Stage, Publish, Unpublish, Unstage and Expand for block-protocol
 volumes on one node. An operation is a goroutine that holds the lock of its volume and goes
 through the steps of its handler; each look at the mount table and each command is one step.
 Commands may fail, with or without part of their effect, and the plugin may be restarted at
 any point, which ends every goroutine and forgets every lock.

 Each volume has one staging path with one block anchor below it, and a publish target is
 never one of those. A transport is named by its volume, since target names are distinct.
 */
module NodeLifecycle {

  datatype Place = Staging(volume: nat) | Anchor(volume: nat) | Target(name: string)

  // `mirror` marks the copy of a mount that is visible through the host's tree
  datatype Mount = Mount(place: Place, mirror: bool, volume: nat)

  datatype World = World(
    mounts: set<Mount>,
    connected: set<nat>,
    locks: map<nat, nat>)            // volume -> goroutine that holds its lock

  datatype Thread =
    | StageLocked(v: nat, block: bool)
    | StageConnecting(v: nat, block: bool)           // nothing is mounted yet
    | StageRollback(v: nat)                          // connected, but no device appeared
    | StageMounting(v: nat, block: bool)
    | PublishLocked(v: nat, block: bool, target: string)
    | PublishBinding(v: nat, block: bool, target: string)
    | UnpublishLocked(v: nat, target: string)
    | UnstageLocked(v: nat)
    | UnstageReleasing(v: nat, place: Place)         // the staging mount was found
    | UnstageUnmounting(v: nat, place: Place)        // it has no other reference
    | UnstageVerifying(v: nat, place: Place)
    | UnstageDisconnecting(v: nat)
    | ExpandLocked(v: nat)
    | Ending(v: nat)                                 // about to release the lock

  datatype State = State(w: World, threads: map<nat, Thread>)

  function Source(v: nat, block: bool): Place { if block then Anchor(v) else Staging(v) }

  predicate IsStagingOf(p: Place, v: nat) { p == Staging(v) || p == Anchor(v) }

  predicate Here(w: World, p: Place) { exists m | m in w.mounts :: m.place == p && !m.mirror }

  predicate Anywhere(w: World, p: Place) { exists m | m in w.mounts :: m.place == p }

  // ---------- steps ----------

  // How a command ends: `ok` for success, `done` for a failure that came after the effect. A
  // connection may bring no device, a mount may show through the mirror, an unmount may leave some.
  datatype Outcome = Outcome(ok: bool, done: bool, device: bool, mirrored: bool, left: set<Mount>)

  predicate Took(o: Outcome) { o.ok || o.done }

  datatype Step =
    | Start(t: nat, op: Thread)                      // the try-lock succeeds
    | Move(t: nat, o: Outcome)
    | Restart

  predicate IsEntry(op: Thread) {
    op.StageLocked? || op.PublishLocked? || op.UnpublishLocked? || op.UnstageLocked? || op.ExpandLocked?
  }

  predicate Enabled(s: State, a: Step) {
    match a
    case Start(t, op) => t !in s.threads && IsEntry(op) && op.v !in s.w.locks
    case Move(t, o) => t in s.threads
    case Restart => true
  }

  // the mounts at a place go, except those the command leaves
  function Unmounted(w: World, p: Place, o: Outcome): World {
    w.(mounts := set m | m in w.mounts && (m.place != p || m in o.left))
  }

  function Mounted(w: World, p: Place, v: nat, o: Outcome): World {
    w.(mounts := w.mounts + {Mount(p, false, v)} + if o.mirrored then {Mount(p, true, v)} else {})
  }

  function Connect(w: World, v: nat, o: Outcome): World {
    if Took(o) then w.(connected := w.connected + {v}) else w
  }

  function Disconnect(w: World, v: nat, o: Outcome): World {
    if Took(o) then w.(connected := w.connected - {v}) else w
  }

  // both forms of staging are inspected; the mirror alone does not count as staged
  function Discovered(w: World, v: nat): Thread {
    if Here(w, Staging(v)) && Here(w, Anchor(v)) then Ending(v)
    else if !Here(w, Staging(v)) && Anywhere(w, Staging(v)) then Ending(v)
    else if !Here(w, Anchor(v)) && Anywhere(w, Anchor(v)) then Ending(v)
    else if Here(w, Staging(v)) then UnstageReleasing(v, Staging(v))
    else if Here(w, Anchor(v)) then UnstageReleasing(v, Anchor(v))
    else UnstageDisconnecting(v)
  }

  // a bind mount shows the device that is mounted at its source
  ghost function Shown(w: World, p: Place): (v: nat)
    requires Here(w, p)
    ensures exists m :: m in w.mounts && m.place == p && m.volume == v
  {
    var m :| m in w.mounts && m.place == p && !m.mirror;
    m.volume
  }

  // the volume is mounted at a place other than this one
  predicate Referenced(w: World, v: nat, p: Place) { exists m | m in w.mounts :: m.volume == v && m.place != p }

  datatype Effect = Effect(w: World, th: Thread)

  ghost function StageMove(w: World, th: Thread, o: Outcome): Effect
    requires th.StageLocked? || th.StageConnecting? || th.StageRollback? || th.StageMounting?
  {
    match th
    case StageLocked(v, block) =>
      Effect(w, if o.ok && !Here(w, Staging(v)) && !Here(w, Anchor(v)) then StageConnecting(v, block) else Ending(v))
    case StageConnecting(v, block) =>
      // a connection without a device is rolled back
      var next := if o.device then StageMounting(v, block) else StageRollback(v);
      Effect(Connect(w, v, o), if o.ok then next else Ending(v))
    case StageRollback(v) => Effect(Disconnect(w, v, o), Ending(v))
    case StageMounting(v, block) => Effect(if Took(o) then Mounted(w, Source(v, block), v, o) else w, Ending(v))
  }

  ghost function PublishMove(w: World, th: Thread, o: Outcome): Effect
    requires th.PublishLocked? || th.PublishBinding? || th.UnpublishLocked?
  {
    match th
    case PublishLocked(v, block, target) =>
      var staged := o.ok && !Here(w, Target(target)) && Here(w, Source(v, block));
      Effect(w, if staged then PublishBinding(v, block, target) else Ending(v))
    case PublishBinding(v, block, target) =>
      var source := Source(v, block);
      Effect(if Took(o) && Here(w, source) then Mounted(w, Target(target), Shown(w, source), o) else w, Ending(v))
    case UnpublishLocked(v, target) => Effect(Unmounted(w, Target(target), o), Ending(v))
  }

  ghost function UnstageMove(w: World, th: Thread, o: Outcome): Effect
    requires || th.UnstageLocked? || th.UnstageReleasing? || th.UnstageUnmounting? || th.UnstageVerifying?
             || th.UnstageDisconnecting?
  {
    match th
    case UnstageLocked(v) => Effect(w, if o.ok then Discovered(w, v) else Ending(v))
    case UnstageReleasing(v, p) =>
      Effect(w, if o.ok && !Referenced(w, v, p) then UnstageUnmounting(v, p) else Ending(v))
    case UnstageUnmounting(v, p) => Effect(Unmounted(w, p, o), if o.ok then UnstageVerifying(v, p) else Ending(v))
    case UnstageVerifying(v, p) => Effect(w, if o.ok && !Anywhere(w, p) then UnstageDisconnecting(v) else Ending(v))
    case UnstageDisconnecting(v) => Effect(Disconnect(w, v, o), Ending(v))
  }

  ghost function MoveOf(w: World, th: Thread, o: Outcome): Effect
    requires !th.Ending?
  {
    if th.StageLocked? || th.StageConnecting? || th.StageRollback? || th.StageMounting? then StageMove(w, th, o)
    else if th.PublishLocked? || th.PublishBinding? || th.UnpublishLocked? then PublishMove(w, th, o)
    else if th.ExpandLocked? then Effect(w, Ending(th.v))
    else UnstageMove(w, th, o)
  }

  ghost function Do(s: State, a: Step): State
    requires Enabled(s, a)
  {
    match a
    case Start(t, op) => State(s.w.(locks := s.w.locks[op.v := t]), s.threads[t := op])
    case Move(t, o) =>
      var th := s.threads[t];
      if th.Ending? then State(s.w.(locks := s.w.locks - {th.v}), s.threads - {t})
      else
        var e := MoveOf(s.w, th, o);
        State(e.w, s.threads[t := e.th])
    case Restart => State(s.w.(locks := map[]), map[])
  }

  // ---------- the steps of one operation ----------

  const Good := Outcome(true, false, true, false, {})

  const Bad := Outcome(false, false, false, false, {})

  // one step for each outcome, until the operation ends
  ghost function Steps(w: World, th: Thread, outcomes: seq<Outcome>): Effect
    decreases |outcomes|
  {
    if outcomes == [] || th.Ending? then Effect(w, th)
    else
      var e := MoveOf(w, th, outcomes[0]);
      Steps(e.w, e.th, outcomes[1..])
  }

  lemma StepsCons(w: World, th: Thread, o: Outcome, rest: seq<Outcome>)
    requires !th.Ending?
    ensures var e := MoveOf(w, th, o); Steps(w, th, [o] + rest) == Steps(e.w, e.th, rest)
  {
    assert ([o] + rest)[1..] == rest;
  }

  // ---------- what every step keeps ----------

  ghost predicate IsStaged(w: World, v: nat) { Here(w, Staging(v)) || Here(w, Anchor(v)) }

  ghost predicate IsPublished(w: World, v: nat) {
    exists m :: m in w.mounts && m.place.Target? && m.volume == v
  }

  // staging places show their own volume; what is published is staged; what is staged is connected
  ghost predicate MountsOk(w: World) {
    && (forall m :: m in w.mounts && !m.place.Target? ==> m.volume == m.place.volume)
    && (forall v :: IsStaged(w, v) ==> v in w.connected)
    && (forall m :: m in w.mounts && m.place.Target? ==> IsStaged(w, m.volume))
  }

  // all staging mounts of the volume, mirrors included, are at this place
  ghost predicate OnlyStagedAt(w: World, v: nat, p: Place) {
    IsStagingOf(p, v) && forall m :: m in w.mounts && IsStagingOf(m.place, v) ==> m.place == p
  }

  // what a goroutine knows at each of its points
  ghost predicate Knows(w: World, th: Thread) {
    match th
    case StageConnecting(v, _) => !IsStaged(w, v)
    case StageRollback(v) => !IsStaged(w, v)
    case StageMounting(v, _) => !IsStaged(w, v) && v in w.connected
    case PublishBinding(v, block, _) => Here(w, Source(v, block))
    case UnstageReleasing(v, p) => OnlyStagedAt(w, v, p)
    case UnstageUnmounting(v, p) => OnlyStagedAt(w, v, p) && !IsPublished(w, v)
    case UnstageVerifying(v, p) => OnlyStagedAt(w, v, p) && !IsPublished(w, v)
    case UnstageDisconnecting(v) => !IsPublished(w, v) && !IsStaged(w, v)
    case _ => true
  }

  // the goroutine that works on a volume holds its lock, and every lock has such a goroutine
  ghost predicate LocksOk(s: State) {
    && (forall t :: t in s.threads ==> s.threads[t].v in s.w.locks && s.w.locks[s.threads[t].v] == t)
    && (forall v :: v in s.w.locks ==> s.w.locks[v] in s.threads && s.threads[s.w.locks[v]].v == v)
  }

  ghost predicate Inv(s: State) {
    && LocksOk(s) && MountsOk(s.w)
    && forall t :: t in s.threads ==> Knows(s.w, s.threads[t])
  }

  // a step for one volume leaves the staging and the connection of the others alone,
  // and publishes no other
  ghost predicate Touches(w: World, w': World, v: nat) {
    && w'.locks == w.locks
    && (forall m :: m in w'.mounts && m !in w.mounts ==> m.volume == v && (m.place.Target? || m.place.volume == v))
    && (forall m :: m in w.mounts && m !in w'.mounts ==> m.place.Target? || m.place.volume == v)
    && (forall u :: u != v ==> (u in w'.connected <==> u in w.connected))
  }

  lemma OthersUnmoved(w: World, w': World, v: nat, th: Thread)
    requires Touches(w, w', v) && th.v != v && Knows(w, th)
    ensures Knows(w', th)
  {
    assert forall p :: IsStagingOf(p, th.v) ==> (Here(w', p) <==> Here(w, p));
    assert IsPublished(w', th.v) ==> IsPublished(w, th.v);
  }

  // a goroutine's own step keeps the mounts in order and leads to what it knows next
  ghost predicate GoodMove(w: World, th: Thread, e: Effect) {
    Touches(w, e.w, th.v) && e.th.v == th.v && MountsOk(e.w) && Knows(e.w, e.th)
  }

  lemma StageGood(w: World, th: Thread, o: Outcome)
    requires th.StageLocked? || th.StageConnecting? || th.StageRollback? || th.StageMounting?
    requires MountsOk(w) && Knows(w, th)
    ensures GoodMove(w, th, StageMove(w, th, o))
  {
  }

  lemma PublishGood(w: World, th: Thread, o: Outcome)
    requires th.PublishLocked? || th.PublishBinding? || th.UnpublishLocked?
    requires MountsOk(w) && Knows(w, th)
    ensures GoodMove(w, th, PublishMove(w, th, o))
  {
  }

  lemma UnstageGood(w: World, th: Thread, o: Outcome)
    requires || th.UnstageLocked? || th.UnstageReleasing? || th.UnstageUnmounting? || th.UnstageVerifying?
             || th.UnstageDisconnecting?
    requires MountsOk(w) && Knows(w, th)
    ensures GoodMove(w, th, UnstageMove(w, th, o))
  {
  }

  lemma MoveGood(w: World, th: Thread, o: Outcome)
    requires !th.Ending? && MountsOk(w) && Knows(w, th)
    ensures GoodMove(w, th, MoveOf(w, th, o))
  {
    if th.StageLocked? || th.StageConnecting? || th.StageRollback? || th.StageMounting? {
      StageGood(w, th, o);
    } else if th.PublishLocked? || th.PublishBinding? || th.UnpublishLocked? {
      PublishGood(w, th, o);
    } else if !th.ExpandLocked? {
      UnstageGood(w, th, o);
    }
  }

  // only the lock table changes
  lemma SameWorld(w: World, locks: map<nat, nat>, th: Thread)
    ensures MountsOk(w.(locks := locks)) <==> MountsOk(w)
    ensures Knows(w.(locks := locks), th) <==> Knows(w, th)
  {
    var w' := w.(locks := locks);
    assert forall p :: Here(w', p) <==> Here(w, p);
    assert forall v :: IsStaged(w', v) <==> IsStaged(w, v);
    assert IsPublished(w', th.v) <==> IsPublished(w, th.v);
  }

  lemma StepKeeps(s: State, a: Step)
    requires Inv(s) && Enabled(s, a)
    ensures Inv(Do(s, a))
  {
    match a
    case Start(t, op) =>
      forall u | u in Do(s, a).threads ensures Knows(Do(s, a).w, Do(s, a).threads[u]) {
        SameWorld(s.w, s.w.locks[op.v := t], Do(s, a).threads[u]);
      }
      SameWorld(s.w, s.w.locks[op.v := t], op);
    case Move(t, o) =>
      if s.threads[t].Ending? { EndKeeps(s, t, o); } else { MoveKeeps(s, t, o); }
    case Restart =>
      SameWorld(s.w, map[], Ending(0));
  }

  lemma EndKeeps(s: State, t: nat, o: Outcome)
    requires Inv(s) && t in s.threads && s.threads[t].Ending?
    ensures Inv(Do(s, Move(t, o)))
  {
    var s' := Do(s, Move(t, o));
    SameWorld(s.w, s'.w.locks, s.threads[t]);
    forall u | u in s'.threads ensures Knows(s'.w, s'.threads[u]) {
      SameWorld(s.w, s'.w.locks, s'.threads[u]);
    }
  }

  lemma MoveKeeps(s: State, t: nat, o: Outcome)
    requires Inv(s) && t in s.threads && !s.threads[t].Ending?
    ensures Inv(Do(s, Move(t, o)))
  {
    var th := s.threads[t];
    MoveGood(s.w, th, o);
    var e := MoveOf(s.w, th, o);
    forall u | u in s.threads && u != t ensures Knows(e.w, s.threads[u]) {
      OthersUnmoved(s.w, e.w, th.v, s.threads[u]);
    }
  }

  // ---------- runs ----------

  ghost predicate IsRun(states: seq<State>, steps: seq<Step>) {
    && |states| == |steps| + 1
    && states[0] == State(World({}, {}, map[]), map[])
    && forall i :: 0 <= i < |steps| ==> Enabled(states[i], steps[i]) && states[i + 1] == Do(states[i], steps[i])
  }

  lemma {:induction false} Reachable(states: seq<State>, steps: seq<Step>, i: nat)
    requires IsRun(states, steps) && i < |states|
    ensures Inv(states[i])
  {
    if i > 0 {
      Reachable(states, steps, i - 1);
      StepKeeps(states[i - 1], steps[i - 1]);
    }
  }

  /** At every point of every run a published volume is still staged at its own place, and connected. */
  lemma PublishedStaysUsable(states: seq<State>, steps: seq<Step>, i: nat, m: Mount)
    requires IsRun(states, steps) && i < |states| && m in states[i].w.mounts && m.place.Target?
    ensures m.volume in states[i].w.connected
    ensures exists n :: n in states[i].w.mounts && IsStagingOf(n.place, m.volume) && n.volume == m.volume
  {
    Reachable(states, steps, i);
    var w, v := states[i].w, m.volume;
    var p := if Here(w, Staging(v)) then Staging(v) else Anchor(v);
    var n :| n in w.mounts && n.place == p && !n.mirror;
    assert IsStagingOf(n.place, v) && n.volume == v;
  }

  /** No step ever disconnects a volume or removes its staging mount while it is published anywhere. */
  lemma NoDisconnectUnderPublication(states: seq<State>, steps: seq<Step>, i: nat, v: nat)
    requires IsRun(states, steps) && i < |steps| && IsPublished(states[i].w, v)
    ensures v in states[i + 1].w.connected
    ensures forall m :: m in states[i].w.mounts && IsStagingOf(m.place, v) ==> m in states[i + 1].w.mounts
  {
    Reachable(states, steps, i);
    var s, a := states[i], steps[i];
    var pub :| pub in s.w.mounts && pub.place.Target? && pub.volume == v;
    assert IsStaged(s.w, v);
    if a.Move? && !s.threads[a.t].Ending? {
      MoveGood(s.w, s.threads[a.t], a.o);
      if s.threads[a.t].v == v { OwnStepSpares(s.w, s.threads[a.t], a.o); }
    }
  }

  lemma OwnStepSpares(w: World, th: Thread, o: Outcome)
    requires !th.Ending? && MountsOk(w) && Knows(w, th) && IsPublished(w, th.v)
    ensures var w' := MoveOf(w, th, o).w;
            && (th.v in w.connected ==> th.v in w'.connected)
            && forall m :: m in w.mounts && IsStagingOf(m.place, th.v) ==> m in w'.mounts
  {
    assert IsStaged(w, th.v);
  }

  /** Two operations never work on one volume at the same time, and a lock is released only by its holder. */
  lemma OneOperationPerVolume(states: seq<State>, steps: seq<Step>, i: nat, t: nat, u: nat)
    requires IsRun(states, steps) && i < |states| && t in states[i].threads && u in states[i].threads
    requires states[i].threads[t].v == states[i].threads[u].v
    ensures var w, v := states[i].w, states[i].threads[t].v; t == u && v in w.locks && w.locks[v] == t
  {
    Reachable(states, steps, i);
  }

  // ---------- the locks ----------

  class VolumeLocks {
    var held: map<string, bool>       // one mutex per volume ID that was ever asked for

    constructor ()
      ensures held == map[]
    {
      held := map[];
    }

    method TryAcquireLock(key: string) returns (ok: bool)
      modifies this
      ensures ok <==> !(key in old(held) && old(held)[key])
      ensures held == old(held)[key := true]
    {
      if key !in held {
        held := held[key := false];
      }
      ok := !held[key];
      held := held[key := true];
    }

    method ReleaseLock(key: string)
      requires key in held ==> held[key]
      modifies this
      ensures held == if key in old(held) then old(held)[key := false] else old(held)
    {
      if key in held {
        held := held[key := false];
      }
    }
  }
}
