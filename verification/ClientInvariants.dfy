/**
 What every reachable state of the client satisfies, over all interleavings.

 The invariant is proved one concern at a time. Each concern has a `...World` part
 about the shared fields and a `...Of` part about one goroutine. A lemma for each
 group of actions shows that an action of goroutine `t` keeps the world part, the part
 of `t` itself, that of a goroutine `u` it starts, and that of any bystander `v`.
 */
module ClientInvariants {
  import opened Basics
  import opened ClientCore
  import opened ClientSteps

  predicate HasId(th: Thread) {
    th.Registered? || th.Waiting? || th.Leaving? || th.Judging?
  }

  // the goroutine still needs a message in its reply channel
  predicate Expecting(th: Thread) {
    th.Registered? || th.Waiting?
  }

  predicate InDisconnect(th: Thread) {
    th.Disconnecting? || th.HangingUp? || th.Sweeping? || th.Failing? || th.Dropping? ||
    th.Restarting? || th.Claiming? || th.Spawning?
  }

  predicate InSweep(th: Thread) {
    th.Sweeping? || th.Failing? || th.Dropping?
  }

  // the goroutine runs Call and therefore holds a permit of the semaphore
  predicate IsCaller(th: Thread) {
    th.CallTop? || th.HasConn? || HasId(th) || (InDisconnect(th) && th.ret.Resume?)
  }

  // the goroutine is the reconnect loop, or has won the flag and is about to start it
  predicate HoldsFlag(th: Thread) {
    th.Spawning? || th.LoopTop? || th.LoopExit? ||
    ((th.Dialing? || th.Connecting? || th.Installed? || th.ReadStarted?) && th.origin.FromLoop?)
  }

  // halves of a teardown and of a call, to prove what they keep in smaller pieces
  predicate FirstHalf(a: TearAction) { a.DisconnectLock? || a.HangUp? || a.Visit? || a.SendLost? }

  predicate BeforeWrite(a: CallAction) { a.StartCall? || a.LoadConn? || a.GiveUp? || a.RegisterRequest? }

  // -- request identity: an ID belongs to one goroutine for good

  ghost predicate IdWorld(w: World) {
    && (forall id :: id in w.h.issued ==> id <= w.sh.nextId)
    && (forall id :: id in w.sh.pending || id in w.sh.slots || id in w.h.expecting || id in w.h.inHand ==>
                       id in w.h.issued)
    && (forall id :: id in w.h.inHand ==> id !in w.sh.pending)
  }

  predicate IdOf(w: World, v: nat, x: Thread) {
    && (HasId(x) ==>
          x.id in w.h.issued && w.h.issued[x.id] == Request(v, x.conn) && (x.id in w.h.expecting <==> Expecting(x)))
    && ((x.Failing? || x.Dropping? || x.Replying?) ==> x.id in w.h.issued)
    && (x.Replying? ==> x.id in w.h.inHand && w.h.inHand[x.id] == v)
  }

  lemma IdCall(w: World, t: nat, u: nat, th: Thread, a: CallAction, v: nat, x: Thread)
    requires IdWorld(w) && IdOf(w, t, th) && IdOf(w, v, x) && v != t && CallReady(w, th, a)
    ensures var e := CallEffect(w, t, th, a);
            IdWorld(e.w) && IdOf(e.w, t, e.th) && IdOf(e.w, u, e.spawned) && IdOf(e.w, v, x)
  {
  }

  lemma IdRead(w: World, t: nat, u: nat, th: Thread, a: ReadAction, v: nat, x: Thread)
    requires IdWorld(w) && IdOf(w, t, th) && IdOf(w, v, x) && v != t && ReadReady(w, th, a)
    ensures var e := ReadEffect(w, t, th, a);
            IdWorld(e.w) && IdOf(e.w, t, e.th) && IdOf(e.w, u, e.spawned) && IdOf(e.w, v, x)
  {
  }

  lemma IdTear(w: World, t: nat, u: nat, th: Thread, a: TearAction, v: nat, x: Thread)
    requires IdWorld(w) && IdOf(w, t, th) && IdOf(w, v, x) && v != t && TearReady(w, th, a)
    ensures var e := TearEffect(w, t, u, th, a);
            IdWorld(e.w) && IdOf(e.w, t, e.th) && IdOf(e.w, u, e.spawned) && IdOf(e.w, v, x)
  {
  }

  lemma IdDial(w: World, t: nat, u: nat, th: Thread, a: DialAction, v: nat, x: Thread)
    requires IdWorld(w) && IdOf(w, t, th) && IdOf(w, v, x) && v != t && DialReady(w, th, a)
    ensures var e := DialEffect(w, th, a);
            IdWorld(e.w) && IdOf(e.w, t, e.th) && IdOf(e.w, u, e.spawned) && IdOf(e.w, v, x)
  {
  }

  lemma IdClose(w: World, t: nat, u: nat, th: Thread, a: CloseAction, v: nat, x: Thread)
    requires IdWorld(w) && IdOf(w, t, th) && IdOf(w, v, x) && v != t && CloseReady(th, a)
    ensures var e := CloseEffect(w, t, th, a);
            IdWorld(e.w) && IdOf(e.w, t, e.th) && IdOf(e.w, u, e.spawned) && IdOf(e.w, v, x)
  {
  }

  ghost predicate IdInv(s: State) {
    IdWorld(s.w) && forall v: nat :: IdOf(s.w, v, Point(s, v))
  }

  lemma IdStep(w: World, t: nat, u: nat, th: Thread, a: Action, v: nat, x: Thread)
    requires IdWorld(w) && IdOf(w, t, th) && IdOf(w, v, x) && v != t && Ready(w, th, a)
    ensures var e := EffectOf(w, t, u, th, a);
            IdWorld(e.w) && IdOf(e.w, t, e.th) && IdOf(e.w, v, x) && IdOf(e.w, u, e.spawned)
  {
    match a
    case InCall(b) => IdCall(w, t, u, th, b, v, x);
    case InRead(b) => IdRead(w, t, u, th, b, v, x);
    case InTear(b) => IdTear(w, t, u, th, b, v, x);
    case InDial(b) => IdDial(w, t, u, th, b, v, x);
    case InClose(b) => IdClose(w, t, u, th, b, v, x);
  }

  lemma IdKept(s: State, t: nat, u: nat, a: Action)
    requires IdInv(s) && Enabled(s, t, u, a)
    ensures IdInv(Do(s, t, u, a))
  {
    var s' := Do(s, t, u, a);
    var o: nat := if t + 1 == u then t + 2 else t + 1;
    IdStep(s.w, t, u, Point(s, t), a, o, Point(s, o));
    forall v: nat ensures IdOf(s'.w, v, Point(s', v)) {
      if v != t && (Spawns(a) ==> v != u) {
        IdStep(s.w, t, u, Point(s, t), a, v, Point(s, v));
      }
    }
  }

  // -- replies: none is lost, none reaches another request

  ghost predicate ReplyWorld(w: World) {
    && (forall id :: id in w.h.expecting ==> id in w.sh.pending || id in w.sh.slots || id in w.h.inHand)
    && (forall id :: id in w.sh.slots ==> Fits(w, id, w.sh.slots[id]))
  }

  predicate Fits(w: World, id: nat, m: Message) {
    m.Reply? ==> m.id == id && (w.honest ==> id in w.h.issued && m.via == w.h.issued[id].conn)
  }

  predicate ReplyOf(w: World, v: nat, x: Thread) {
    && (x.Dropping? ==> x.id in w.sh.slots || x.id !in w.h.expecting)
    && (x.Replying? ==> Fits(w, x.id, Reply(x.id, x.conn)))
    && ((x.Leaving? || x.Judging?) && x.got.Some? ==> Fits(w, x.id, x.got.value))
  }

  lemma ReplyCall(w: World, t: nat, u: nat, th: Thread, a: CallAction, v: nat, x: Thread)
    requires IdWorld(w) && IdOf(w, t, th) && IdOf(w, v, x)
    requires ReplyWorld(w) && ReplyOf(w, t, th) && ReplyOf(w, v, x) && v != t && CallReady(w, th, a)
    ensures var e := CallEffect(w, t, th, a);
            ReplyWorld(e.w) && ReplyOf(e.w, t, e.th) && ReplyOf(e.w, u, e.spawned) && ReplyOf(e.w, v, x)
  {
  }

  lemma ReplyRead(w: World, t: nat, u: nat, th: Thread, a: ReadAction, v: nat, x: Thread)
    requires IdWorld(w) && IdOf(w, t, th) && IdOf(w, v, x)
    requires ReplyWorld(w) && ReplyOf(w, t, th) && ReplyOf(w, v, x) && v != t && ReadReady(w, th, a)
    ensures var e := ReadEffect(w, t, th, a);
            ReplyWorld(e.w) && ReplyOf(e.w, t, e.th) && ReplyOf(e.w, u, e.spawned) && ReplyOf(e.w, v, x)
  {
  }

  lemma ReplyTear(w: World, t: nat, u: nat, th: Thread, a: TearAction, v: nat, x: Thread)
    requires IdWorld(w) && IdOf(w, t, th) && IdOf(w, v, x)
    requires ReplyWorld(w) && ReplyOf(w, t, th) && ReplyOf(w, v, x) && v != t && TearReady(w, th, a)
    ensures var e := TearEffect(w, t, u, th, a);
            ReplyWorld(e.w) && ReplyOf(e.w, t, e.th) && ReplyOf(e.w, u, e.spawned) && ReplyOf(e.w, v, x)
  {
  }

  lemma ReplyDial(w: World, t: nat, u: nat, th: Thread, a: DialAction, v: nat, x: Thread)
    requires IdWorld(w) && IdOf(w, t, th) && IdOf(w, v, x)
    requires ReplyWorld(w) && ReplyOf(w, t, th) && ReplyOf(w, v, x) && v != t && DialReady(w, th, a)
    ensures var e := DialEffect(w, th, a);
            ReplyWorld(e.w) && ReplyOf(e.w, t, e.th) && ReplyOf(e.w, u, e.spawned) && ReplyOf(e.w, v, x)
  {
  }

  lemma ReplyClose(w: World, t: nat, u: nat, th: Thread, a: CloseAction, v: nat, x: Thread)
    requires IdWorld(w) && IdOf(w, t, th) && IdOf(w, v, x)
    requires ReplyWorld(w) && ReplyOf(w, t, th) && ReplyOf(w, v, x) && v != t && CloseReady(th, a)
    ensures var e := CloseEffect(w, t, th, a);
            ReplyWorld(e.w) && ReplyOf(e.w, t, e.th) && ReplyOf(e.w, u, e.spawned) && ReplyOf(e.w, v, x)
  {
  }

  ghost predicate ReplyInv(s: State) {
    ReplyWorld(s.w) && forall v: nat :: ReplyOf(s.w, v, Point(s, v))
  }

  lemma ReplyStep(w: World, t: nat, u: nat, th: Thread, a: Action, v: nat, x: Thread)
    requires IdWorld(w) && IdOf(w, t, th) && IdOf(w, v, x)
    requires ReplyWorld(w) && ReplyOf(w, t, th) && ReplyOf(w, v, x) && v != t && Ready(w, th, a)
    ensures var e := EffectOf(w, t, u, th, a);
            ReplyWorld(e.w) && ReplyOf(e.w, t, e.th) && ReplyOf(e.w, v, x) && ReplyOf(e.w, u, e.spawned)
  {
    match a
    case InCall(b) => ReplyCall(w, t, u, th, b, v, x);
    case InRead(b) => ReplyRead(w, t, u, th, b, v, x);
    case InTear(b) => ReplyTear(w, t, u, th, b, v, x);
    case InDial(b) => ReplyDial(w, t, u, th, b, v, x);
    case InClose(b) => ReplyClose(w, t, u, th, b, v, x);
  }

  lemma ReplyKept(s: State, t: nat, u: nat, a: Action)
    requires IdInv(s) && ReplyInv(s) && Enabled(s, t, u, a)
    ensures ReplyInv(Do(s, t, u, a))
  {
    var s' := Do(s, t, u, a);
    var o: nat := if t + 1 == u then t + 2 else t + 1;
    ReplyStep(s.w, t, u, Point(s, t), a, o, Point(s, o));
    forall v: nat ensures ReplyOf(s'.w, v, Point(s', v)) {
      if v != t && (Spawns(a) ==> v != u) {
        ReplyStep(s.w, t, u, Point(s, t), a, v, Point(s, v));
      }
    }
  }

  // -- connections: connDone channels are closed at most once

  ghost predicate ConnWorld(w: World) {
    && !w.sh.panicked
    && (w.sh.conn.Some? ==> w.sh.connDone == w.sh.conn && w.sh.conn.value !in w.sh.doneClosed)
    && (w.sh.connDone.Some? ==> w.sh.connDone.value < w.sh.nextConn)
    && (w.sh.connDone.Some? && w.sh.connDone.value in w.sh.doneClosed ==> w.h.closeRan)
    && (forall c :: c in w.sh.doneClosed ==> c < w.sh.nextConn)
    && (forall c :: c in w.h.torn ==> c in w.sh.doneClosed)
    && (w.h.closeRan ==> w.sh.closed)
    && (w.sh.closed <==> w.h.closer.Some?)
  }

  predicate ConnOf(w: World, v: nat, x: Thread) {
    x.ClosingDone? || x.ClosingLock? ==> w.h.closer == Some(v) && !w.h.closeRan
  }

  lemma ConnCall(w: World, t: nat, u: nat, th: Thread, a: CallAction, v: nat, x: Thread)
    requires ConnWorld(w) && ConnOf(w, t, th) && ConnOf(w, v, x) && v != t && CallReady(w, th, a)
    ensures var e := CallEffect(w, t, th, a);
            ConnWorld(e.w) && ConnOf(e.w, t, e.th) && ConnOf(e.w, u, e.spawned) && ConnOf(e.w, v, x)
  {
  }

  lemma ConnRead(w: World, t: nat, u: nat, th: Thread, a: ReadAction, v: nat, x: Thread)
    requires ConnWorld(w) && ConnOf(w, t, th) && ConnOf(w, v, x) && v != t && ReadReady(w, th, a)
    ensures var e := ReadEffect(w, t, th, a);
            ConnWorld(e.w) && ConnOf(e.w, t, e.th) && ConnOf(e.w, u, e.spawned) && ConnOf(e.w, v, x)
  {
  }

  lemma ConnTear(w: World, t: nat, u: nat, th: Thread, a: TearAction, v: nat, x: Thread)
    requires ConnWorld(w) && ConnOf(w, t, th) && ConnOf(w, v, x) && v != t && TearReady(w, th, a)
    ensures var e := TearEffect(w, t, u, th, a);
            ConnWorld(e.w) && ConnOf(e.w, t, e.th) && ConnOf(e.w, u, e.spawned) && ConnOf(e.w, v, x)
  {
  }

  lemma ConnDial(w: World, t: nat, u: nat, th: Thread, a: DialAction, v: nat, x: Thread)
    requires ConnWorld(w) && ConnOf(w, t, th) && ConnOf(w, v, x) && v != t && DialReady(w, th, a)
    ensures var e := DialEffect(w, th, a);
            ConnWorld(e.w) && ConnOf(e.w, t, e.th) && ConnOf(e.w, u, e.spawned) && ConnOf(e.w, v, x)
  {
  }

  lemma ConnClose(w: World, t: nat, u: nat, th: Thread, a: CloseAction, v: nat, x: Thread)
    requires ConnWorld(w) && ConnOf(w, t, th) && ConnOf(w, v, x) && v != t && CloseReady(th, a)
    ensures var e := CloseEffect(w, t, th, a);
            ConnWorld(e.w) && ConnOf(e.w, t, e.th) && ConnOf(e.w, u, e.spawned) && ConnOf(e.w, v, x)
  {
  }

  ghost predicate ConnInv(s: State) {
    ConnWorld(s.w) && forall v: nat :: ConnOf(s.w, v, Point(s, v))
  }

  lemma ConnStep(w: World, t: nat, u: nat, th: Thread, a: Action, v: nat, x: Thread)
    requires ConnWorld(w) && ConnOf(w, t, th) && ConnOf(w, v, x) && v != t && Ready(w, th, a)
    ensures var e := EffectOf(w, t, u, th, a);
            ConnWorld(e.w) && ConnOf(e.w, t, e.th) && ConnOf(e.w, v, x) && ConnOf(e.w, u, e.spawned)
  {
    match a
    case InCall(b) => ConnCall(w, t, u, th, b, v, x);
    case InRead(b) => ConnRead(w, t, u, th, b, v, x);
    case InTear(b) => ConnTear(w, t, u, th, b, v, x);
    case InDial(b) => ConnDial(w, t, u, th, b, v, x);
    case InClose(b) => ConnClose(w, t, u, th, b, v, x);
  }

  lemma ConnKept(s: State, t: nat, u: nat, a: Action)
    requires ConnInv(s) && Enabled(s, t, u, a)
    ensures ConnInv(Do(s, t, u, a))
  {
    var s' := Do(s, t, u, a);
    var o: nat := if t + 1 == u then t + 2 else t + 1;
    ConnStep(s.w, t, u, Point(s, t), a, o, Point(s, o));
    forall v: nat ensures ConnOf(s'.w, v, Point(s', v)) {
      if v != t && (Spawns(a) ==> v != u) {
        ConnStep(s.w, t, u, Point(s, t), a, v, Point(s, v));
      }
    }
  }

  // -- teardown: a torn connection has one sweep, which reaches every waiting request

  ghost predicate SweepWorld(w: World) {
    && (forall c :: c in w.sh.hungUp ==> c in w.h.torn)
    && (forall c :: c in w.h.sweep ==> c in w.sh.hungUp)
  }

  predicate SweepOf(w: World, v: nat, x: Thread) {
    && (x.HangingUp? || InSweep(x) ==> x.conn in w.h.torn && w.h.torn[x.conn] == v)
    && (x.HangingUp? ==> x.conn !in w.sh.hungUp)
    && (InSweep(x) ==> x.conn in w.h.sweep)
    && (x.Sweeping? ==> w.h.sweep[x.conn] == x.todo)
    && (x.Failing? || x.Dropping? ==> w.h.sweep[x.conn] == x.todo + {x.id})
    && (x.Waiting? && x.conn in w.sh.hungUp && x.id in w.sh.pending ==>
          x.conn in w.h.sweep && x.id in w.h.sweep[x.conn])
  }

  lemma SweepCallFirst(w: World, t: nat, u: nat, th: Thread, a: CallAction, v: nat, x: Thread)
    requires BeforeWrite(a)
    requires IdWorld(w) && IdOf(w, t, th) && IdOf(w, v, x)
    requires ConnWorld(w) && ConnOf(w, t, th) && ConnOf(w, v, x)
    requires SweepWorld(w) && SweepOf(w, t, th) && SweepOf(w, v, x) && v != t && CallReady(w, th, a)
    ensures var e := CallEffect(w, t, th, a);
            SweepWorld(e.w) && SweepOf(e.w, t, e.th) && SweepOf(e.w, u, e.spawned) && SweepOf(e.w, v, x)
  {
  }

  lemma SweepCallSecond(w: World, t: nat, u: nat, th: Thread, a: CallAction, v: nat, x: Thread)
    requires !BeforeWrite(a)
    requires IdWorld(w) && IdOf(w, t, th) && IdOf(w, v, x)
    requires ConnWorld(w) && ConnOf(w, t, th) && ConnOf(w, v, x)
    requires SweepWorld(w) && SweepOf(w, t, th) && SweepOf(w, v, x) && v != t && CallReady(w, th, a)
    ensures var e := CallEffect(w, t, th, a);
            SweepWorld(e.w) && SweepOf(e.w, t, e.th) && SweepOf(e.w, u, e.spawned) && SweepOf(e.w, v, x)
  {
  }

  lemma SweepCall(w: World, t: nat, u: nat, th: Thread, a: CallAction, v: nat, x: Thread)
    requires IdWorld(w) && IdOf(w, t, th) && IdOf(w, v, x)
    requires ConnWorld(w) && ConnOf(w, t, th) && ConnOf(w, v, x)
    requires SweepWorld(w) && SweepOf(w, t, th) && SweepOf(w, v, x) && v != t && CallReady(w, th, a)
    ensures var e := CallEffect(w, t, th, a);
            SweepWorld(e.w) && SweepOf(e.w, t, e.th) && SweepOf(e.w, u, e.spawned) && SweepOf(e.w, v, x)
  {
    if BeforeWrite(a) { SweepCallFirst(w, t, u, th, a, v, x); } else { SweepCallSecond(w, t, u, th, a, v, x); }
  }

  lemma SweepRead(w: World, t: nat, u: nat, th: Thread, a: ReadAction, v: nat, x: Thread)
    requires IdWorld(w) && IdOf(w, t, th) && IdOf(w, v, x)
    requires ConnWorld(w) && ConnOf(w, t, th) && ConnOf(w, v, x)
    requires SweepWorld(w) && SweepOf(w, t, th) && SweepOf(w, v, x) && v != t && ReadReady(w, th, a)
    ensures var e := ReadEffect(w, t, th, a);
            SweepWorld(e.w) && SweepOf(e.w, t, e.th) && SweepOf(e.w, u, e.spawned) && SweepOf(e.w, v, x)
  {
  }

  lemma SweepTearFirst(w: World, t: nat, u: nat, th: Thread, a: TearAction, v: nat, x: Thread)
    requires FirstHalf(a)
    requires IdWorld(w) && IdOf(w, t, th) && IdOf(w, v, x)
    requires ConnWorld(w) && ConnOf(w, t, th) && ConnOf(w, v, x)
    requires SweepWorld(w) && SweepOf(w, t, th) && SweepOf(w, v, x) && v != t && TearReady(w, th, a)
    ensures var e := TearEffect(w, t, u, th, a);
            SweepWorld(e.w) && SweepOf(e.w, t, e.th) && SweepOf(e.w, u, e.spawned) && SweepOf(e.w, v, x)
  {
  }

  lemma SweepTearSecond(w: World, t: nat, u: nat, th: Thread, a: TearAction, v: nat, x: Thread)
    requires !FirstHalf(a)
    requires IdWorld(w) && IdOf(w, t, th) && IdOf(w, v, x)
    requires ConnWorld(w) && ConnOf(w, t, th) && ConnOf(w, v, x)
    requires SweepWorld(w) && SweepOf(w, t, th) && SweepOf(w, v, x) && v != t && TearReady(w, th, a)
    ensures var e := TearEffect(w, t, u, th, a);
            SweepWorld(e.w) && SweepOf(e.w, t, e.th) && SweepOf(e.w, u, e.spawned) && SweepOf(e.w, v, x)
  {
  }

  lemma SweepTear(w: World, t: nat, u: nat, th: Thread, a: TearAction, v: nat, x: Thread)
    requires IdWorld(w) && IdOf(w, t, th) && IdOf(w, v, x)
    requires ConnWorld(w) && ConnOf(w, t, th) && ConnOf(w, v, x)
    requires SweepWorld(w) && SweepOf(w, t, th) && SweepOf(w, v, x) && v != t && TearReady(w, th, a)
    ensures var e := TearEffect(w, t, u, th, a);
            SweepWorld(e.w) && SweepOf(e.w, t, e.th) && SweepOf(e.w, u, e.spawned) && SweepOf(e.w, v, x)
  {
    if FirstHalf(a) { SweepTearFirst(w, t, u, th, a, v, x); } else { SweepTearSecond(w, t, u, th, a, v, x); }
  }

  lemma SweepDial(w: World, t: nat, u: nat, th: Thread, a: DialAction, v: nat, x: Thread)
    requires IdWorld(w) && IdOf(w, t, th) && IdOf(w, v, x)
    requires ConnWorld(w) && ConnOf(w, t, th) && ConnOf(w, v, x)
    requires SweepWorld(w) && SweepOf(w, t, th) && SweepOf(w, v, x) && v != t && DialReady(w, th, a)
    ensures var e := DialEffect(w, th, a);
            SweepWorld(e.w) && SweepOf(e.w, t, e.th) && SweepOf(e.w, u, e.spawned) && SweepOf(e.w, v, x)
  {
  }

  lemma SweepClose(w: World, t: nat, u: nat, th: Thread, a: CloseAction, v: nat, x: Thread)
    requires IdWorld(w) && IdOf(w, t, th) && IdOf(w, v, x)
    requires ConnWorld(w) && ConnOf(w, t, th) && ConnOf(w, v, x)
    requires SweepWorld(w) && SweepOf(w, t, th) && SweepOf(w, v, x) && v != t && CloseReady(th, a)
    ensures var e := CloseEffect(w, t, th, a);
            SweepWorld(e.w) && SweepOf(e.w, t, e.th) && SweepOf(e.w, u, e.spawned) && SweepOf(e.w, v, x)
  {
  }

  ghost predicate SweepInv(s: State) {
    SweepWorld(s.w) && forall v: nat :: SweepOf(s.w, v, Point(s, v))
  }

  lemma SweepStep(w: World, t: nat, u: nat, th: Thread, a: Action, v: nat, x: Thread)
    requires IdWorld(w) && IdOf(w, t, th) && IdOf(w, v, x)
    requires ConnWorld(w) && ConnOf(w, t, th) && ConnOf(w, v, x)
    requires SweepWorld(w) && SweepOf(w, t, th) && SweepOf(w, v, x) && v != t && Ready(w, th, a)
    ensures var e := EffectOf(w, t, u, th, a);
            SweepWorld(e.w) && SweepOf(e.w, t, e.th) && SweepOf(e.w, v, x) && SweepOf(e.w, u, e.spawned)
  {
    match a
    case InCall(b) => SweepCall(w, t, u, th, b, v, x);
    case InRead(b) => SweepRead(w, t, u, th, b, v, x);
    case InTear(b) => SweepTear(w, t, u, th, b, v, x);
    case InDial(b) => SweepDial(w, t, u, th, b, v, x);
    case InClose(b) => SweepClose(w, t, u, th, b, v, x);
  }

  lemma SweepKept(s: State, t: nat, u: nat, a: Action)
    requires IdInv(s) && ConnInv(s) && SweepInv(s) && Enabled(s, t, u, a)
    ensures SweepInv(Do(s, t, u, a))
  {
    var s' := Do(s, t, u, a);
    var o: nat := if t + 1 == u then t + 2 else t + 1;
    SweepStep(s.w, t, u, Point(s, t), a, o, Point(s, o));
    forall v: nat ensures SweepOf(s'.w, v, Point(s', v)) {
      if v != t && (Spawns(a) ==> v != u) {
        SweepStep(s.w, t, u, Point(s, t), a, v, Point(s, v));
      }
    }
  }

  // -- bookkeeping that names a goroutine is true of that goroutine

  predicate IsReplying(x: Thread, id: nat) {
    x.Replying? && x.id == id
  }

  predicate IsHangingUp(x: Thread, c: nat) {
    x.HangingUp? && x.conn == c
  }

  predicate IsSweeping(x: Thread, c: nat) {
    InSweep(x) && x.conn == c
  }

  ghost predicate NameOf(w: World, v: nat, x: Thread) {
    && (forall id :: id in w.h.inHand && w.h.inHand[id] == v ==> IsReplying(x, id))
    && (forall c :: c in w.h.torn && w.h.torn[c] == v && c !in w.sh.hungUp ==> IsHangingUp(x, c))
    && (forall c :: c in w.h.sweep && c in w.h.torn && w.h.torn[c] == v ==> IsSweeping(x, c))
  }

  lemma NameCallFirst(w: World, t: nat, th: Thread, a: CallAction, v: nat, x: Thread)
    requires BeforeWrite(a)
    requires ConnWorld(w) && SweepWorld(w) && SweepOf(w, t, th) && SweepOf(w, v, x)
    requires NameOf(w, t, th) && NameOf(w, v, x) && v != t && CallReady(w, th, a)
    ensures var e := CallEffect(w, t, th, a); NameOf(e.w, t, e.th) && NameOf(e.w, v, x)
  {
  }

  lemma NameCallSecond(w: World, t: nat, th: Thread, a: CallAction, v: nat, x: Thread)
    requires !BeforeWrite(a)
    requires ConnWorld(w) && SweepWorld(w) && SweepOf(w, t, th) && SweepOf(w, v, x)
    requires NameOf(w, t, th) && NameOf(w, v, x) && v != t && CallReady(w, th, a)
    ensures var e := CallEffect(w, t, th, a); NameOf(e.w, t, e.th) && NameOf(e.w, v, x)
  {
  }

  lemma NameCall(w: World, t: nat, th: Thread, a: CallAction, v: nat, x: Thread)
    requires ConnWorld(w) && SweepWorld(w) && SweepOf(w, t, th) && SweepOf(w, v, x)
    requires NameOf(w, t, th) && NameOf(w, v, x) && v != t && CallReady(w, th, a)
    ensures var e := CallEffect(w, t, th, a); NameOf(e.w, t, e.th) && NameOf(e.w, v, x)
  {
    if BeforeWrite(a) { NameCallFirst(w, t, th, a, v, x); } else { NameCallSecond(w, t, th, a, v, x); }
  }

  lemma NameRead(w: World, t: nat, th: Thread, a: ReadAction, v: nat, x: Thread)
    requires ConnWorld(w) && SweepWorld(w) && SweepOf(w, t, th) && SweepOf(w, v, x)
    requires NameOf(w, t, th) && NameOf(w, v, x) && v != t && ReadReady(w, th, a)
    ensures var e := ReadEffect(w, t, th, a); NameOf(e.w, t, e.th) && NameOf(e.w, v, x)
  {
  }

  lemma NameTearFirst(w: World, t: nat, u: nat, th: Thread, a: TearAction, v: nat, x: Thread)
    requires FirstHalf(a)
    requires ConnWorld(w) && SweepWorld(w) && SweepOf(w, t, th) && SweepOf(w, v, x)
    requires NameOf(w, t, th) && NameOf(w, v, x) && v != t && TearReady(w, th, a)
    ensures var e := TearEffect(w, t, u, th, a); NameOf(e.w, t, e.th) && NameOf(e.w, v, x)
  {
  }

  lemma NameTearSecond(w: World, t: nat, u: nat, th: Thread, a: TearAction, v: nat, x: Thread)
    requires !FirstHalf(a)
    requires ConnWorld(w) && SweepWorld(w) && SweepOf(w, t, th) && SweepOf(w, v, x)
    requires NameOf(w, t, th) && NameOf(w, v, x) && v != t && TearReady(w, th, a)
    ensures var e := TearEffect(w, t, u, th, a); NameOf(e.w, t, e.th) && NameOf(e.w, v, x)
  {
  }

  lemma NameTear(w: World, t: nat, u: nat, th: Thread, a: TearAction, v: nat, x: Thread)
    requires ConnWorld(w) && SweepWorld(w) && SweepOf(w, t, th) && SweepOf(w, v, x)
    requires NameOf(w, t, th) && NameOf(w, v, x) && v != t && TearReady(w, th, a)
    ensures var e := TearEffect(w, t, u, th, a); NameOf(e.w, t, e.th) && NameOf(e.w, v, x)
  {
    if FirstHalf(a) { NameTearFirst(w, t, u, th, a, v, x); } else { NameTearSecond(w, t, u, th, a, v, x); }
  }

  lemma NameDial(w: World, t: nat, th: Thread, a: DialAction, v: nat, x: Thread)
    requires ConnWorld(w) && SweepWorld(w) && SweepOf(w, t, th) && SweepOf(w, v, x)
    requires NameOf(w, t, th) && NameOf(w, v, x) && v != t && DialReady(w, th, a)
    ensures var e := DialEffect(w, th, a); NameOf(e.w, t, e.th) && NameOf(e.w, v, x)
  {
  }

  lemma NameClose(w: World, t: nat, th: Thread, a: CloseAction, v: nat, x: Thread)
    requires ConnWorld(w) && SweepWorld(w) && SweepOf(w, t, th) && SweepOf(w, v, x)
    requires NameOf(w, t, th) && NameOf(w, v, x) && v != t && CloseReady(th, a)
    ensures var e := CloseEffect(w, t, th, a); NameOf(e.w, t, e.th) && NameOf(e.w, v, x)
  {
  }

  ghost predicate NameInv(s: State) {
    forall v: nat :: NameOf(s.w, v, Point(s, v))
  }

  lemma NameStep(w: World, t: nat, u: nat, th: Thread, a: Action, v: nat, x: Thread)
    requires ConnWorld(w) && SweepWorld(w) && SweepOf(w, t, th) && SweepOf(w, v, x)
    requires NameOf(w, t, th) && NameOf(w, v, x) && v != t && Ready(w, th, a)
    ensures var e := EffectOf(w, t, u, th, a);
            NameOf(e.w, t, e.th) && NameOf(e.w, v, x)
  {
    match a
    case InCall(b) => NameCall(w, t, th, b, v, x);
    case InRead(b) => NameRead(w, t, th, b, v, x);
    case InTear(b) => NameTear(w, t, u, th, b, v, x);
    case InDial(b) => NameDial(w, t, th, b, v, x);
    case InClose(b) => NameClose(w, t, th, b, v, x);
  }

  lemma NameKept(s: State, t: nat, u: nat, a: Action)
    requires ConnWorld(s.w) && SweepInv(s) && NameInv(s) && Enabled(s, t, u, a)
    ensures NameInv(Do(s, t, u, a))
  {
    var s' := Do(s, t, u, a);
    var o: nat := if t + 1 == u then t + 2 else t + 1;
    NameStep(s.w, t, u, Point(s, t), a, o, Point(s, o));
    forall v: nat ensures NameOf(s'.w, v, Point(s', v)) {
      if v != t {
        NameStep(s.w, t, u, Point(s, t), a, v, Point(s, v));
        if Spawns(a) && v == u { Unnamed(s'.w, u, Point(s', u)); }
      }
    }
  }

  // a goroutine that was not there is named nowhere, so any it becomes will do
  lemma Unnamed(w: World, v: nat, x: Thread)
    requires NameOf(w, v, Finished)
    ensures NameOf(w, v, x)
  {
  }

  // -- the reconnect flag: one goroutine answers for it while it is set

  predicate FlagWorld(w: World) {
    w.sh.reconnecting <==> w.h.flagOwner.Some?
  }

  predicate FlagOf(w: World, v: nat, x: Thread) {
    HoldsFlag(x) <==> w.h.flagOwner == Some(v)
  }

  lemma FlagCall(w: World, t: nat, th: Thread, a: CallAction, v: nat, x: Thread)
    requires FlagWorld(w) && FlagOf(w, t, th) && CallReady(w, th, a)
    requires v != t && FlagOf(w, v, x)
    ensures var e := CallEffect(w, t, th, a);
            FlagWorld(e.w) && FlagOf(e.w, t, e.th) && FlagOf(e.w, v, x)
  {
  }

  lemma FlagRead(w: World, t: nat, th: Thread, a: ReadAction, v: nat, x: Thread)
    requires FlagWorld(w) && FlagOf(w, t, th) && ReadReady(w, th, a)
    requires v != t && FlagOf(w, v, x)
    ensures var e := ReadEffect(w, t, th, a);
            FlagWorld(e.w) && FlagOf(e.w, t, e.th) && FlagOf(e.w, v, x)
  {
  }

  lemma FlagTear(w: World, t: nat, u: nat, th: Thread, a: TearAction, v: nat, x: Thread)
    requires FlagWorld(w) && FlagOf(w, t, th) && TearReady(w, th, a)
    requires v != t && FlagOf(w, v, x)
    requires a.SpawnLoop? ==> v != u && u != t && FlagOf(w, u, Finished)
    ensures var e := TearEffect(w, t, u, th, a);
            FlagWorld(e.w) && FlagOf(e.w, t, e.th) && FlagOf(e.w, v, x) && (a.SpawnLoop? ==> FlagOf(e.w, u, e.spawned))
  {
  }

  lemma FlagDial(w: World, t: nat, u: nat, th: Thread, a: DialAction, v: nat, x: Thread)
    requires FlagWorld(w) && FlagOf(w, t, th) && DialReady(w, th, a)
    requires v != t && FlagOf(w, v, x)
    requires (a.StartRead? || a.StartPing?) ==> v != u && u != t && FlagOf(w, u, Finished)
    ensures var e := DialEffect(w, th, a);
            FlagWorld(e.w) && FlagOf(e.w, t, e.th) && FlagOf(e.w, v, x) &&
            ((a.StartRead? || a.StartPing?) ==> FlagOf(e.w, u, e.spawned))
  {
  }

  lemma FlagClose(w: World, t: nat, th: Thread, a: CloseAction, v: nat, x: Thread)
    requires FlagWorld(w) && FlagOf(w, t, th) && CloseReady(th, a)
    requires v != t && FlagOf(w, v, x)
    ensures var e := CloseEffect(w, t, th, a);
            FlagWorld(e.w) && FlagOf(e.w, t, e.th) && FlagOf(e.w, v, x)
  {
  }

  ghost predicate FlagInv(s: State) {
    FlagWorld(s.w) && forall v: nat :: FlagOf(s.w, v, Point(s, v))
  }

  lemma FlagStep(w: World, t: nat, u: nat, th: Thread, a: Action, v: nat, x: Thread)
    requires FlagWorld(w) && FlagOf(w, t, th) && FlagOf(w, v, x) && v != t && Ready(w, th, a)
    requires Spawns(a) ==> v != u && u != t && FlagOf(w, u, Finished)
    ensures var e := EffectOf(w, t, u, th, a);
            FlagWorld(e.w) && FlagOf(e.w, t, e.th) && FlagOf(e.w, v, x) && (Spawns(a) ==> FlagOf(e.w, u, e.spawned))
  {
    match a
    case InCall(b) => FlagCall(w, t, th, b, v, x);
    case InRead(b) => FlagRead(w, t, th, b, v, x);
    case InTear(b) => FlagTear(w, t, u, th, b, v, x);
    case InDial(b) => FlagDial(w, t, u, th, b, v, x);
    case InClose(b) => FlagClose(w, t, th, b, v, x);
  }

  lemma FlagKept(s: State, t: nat, u: nat, a: Action)
    requires FlagInv(s) && Enabled(s, t, u, a)
    ensures FlagInv(Do(s, t, u, a))
  {
    var s' := Do(s, t, u, a);
    var o: nat := if t + 1 == u then t + 2 else t + 1;
    assert Spawns(a) ==> FlagOf(s.w, u, Point(s, u));
    FlagStep(s.w, t, u, Point(s, t), a, o, Point(s, o));
    forall v: nat ensures FlagOf(s'.w, v, Point(s', v)) {
      if v != t && (Spawns(a) ==> v != u) {
        FlagStep(s.w, t, u, Point(s, t), a, v, Point(s, v));
      }
    }
  }

  // -- Call: one reauthentication, at most two rejections, at most one teardown

  predicate Fresh(b: Budget) { !b.reauthAttempted && b.rejections == 0 && b.teardowns == 0 }

  predicate Spent(b: Budget, most: nat) { b.reauthAttempted && b.rejections == 1 && b.teardowns <= most }

  predicate BudgetKept(x: Thread) {
    && (x.CallTop? || x.HasConn? || HasId(x) ==> Fresh(x.b) || Spent(x.b, 1))
    && (InDisconnect(x) && x.ret.Resume? ==> Spent(x.ret.budget, if x.Disconnecting? then 0 else 1))
    && (x.CallEnded? ==> x.b.rejections <= 2 && x.b.teardowns <= 1)
  }

  lemma BudgetCall(w: World, t: nat, th: Thread, a: CallAction)
    requires BudgetKept(th) && CallReady(w, th, a)
    ensures var e := CallEffect(w, t, th, a); BudgetKept(e.th) && BudgetKept(e.spawned)
  {
  }

  lemma BudgetRead(w: World, t: nat, th: Thread, a: ReadAction)
    requires BudgetKept(th) && ReadReady(w, th, a)
    ensures var e := ReadEffect(w, t, th, a); BudgetKept(e.th) && BudgetKept(e.spawned)
  {
  }

  lemma BudgetTear(w: World, t: nat, u: nat, th: Thread, a: TearAction)
    requires BudgetKept(th) && TearReady(w, th, a)
    ensures var e := TearEffect(w, t, u, th, a); BudgetKept(e.th) && BudgetKept(e.spawned)
  {
  }

  lemma BudgetDial(w: World, th: Thread, a: DialAction)
    requires BudgetKept(th) && DialReady(w, th, a)
    ensures var e := DialEffect(w, th, a); BudgetKept(e.th) && BudgetKept(e.spawned)
  {
  }

  ghost predicate BudgetInv(s: State) {
    forall v: nat :: BudgetKept(Point(s, v))
  }

  lemma BudgetStep(w: World, t: nat, u: nat, th: Thread, a: Action)
    requires BudgetKept(th) && Ready(w, th, a)
    ensures var e := EffectOf(w, t, u, th, a); BudgetKept(e.th) && BudgetKept(e.spawned)
  {
    match a
    case InCall(b) => BudgetCall(w, t, th, b);
    case InRead(b) => BudgetRead(w, t, th, b);
    case InTear(b) => BudgetTear(w, t, u, th, b);
    case InDial(b) => BudgetDial(w, th, b);
    case InClose(_) =>
  }

  lemma BudgetKeptBy(s: State, t: nat, u: nat, a: Action)
    requires BudgetInv(s) && Enabled(s, t, u, a)
    ensures BudgetInv(Do(s, t, u, a))
  {
    var s' := Do(s, t, u, a);
    BudgetStep(s.w, t, u, Point(s, t), a);
    forall v: nat ensures BudgetKept(Point(s', v)) {
      assert BudgetKept(Point(s, v));
    }
  }

  // -- the semaphore: every Call in progress holds exactly one permit

  function Held(x: Thread): int { if IsCaller(x) then 1 else 0 }

  ghost function Callers(threads: map<nat, Thread>): set<nat> {
    set v | v in threads && IsCaller(threads[v])
  }

  lemma CallersPut(threads: map<nat, Thread>, t: nat, x: Thread)
    ensures |Callers(threads[t := x])| == |Callers(threads)| + Held(x) - (if t in threads then Held(threads[t]) else 0)
  {
    if IsCaller(x) {
      assert Callers(threads[t := x]) == Callers(threads) + {t};
    } else {
      assert Callers(threads[t := x]) == Callers(threads) - {t};
    }
  }

  ghost predicate PermitInv(s: State) {
    s.w.sh.permits == |Callers(s.threads)| && s.w.sh.permits <= s.w.maxCalls
  }

  lemma PermitCallFirst(w: World, t: nat, th: Thread, a: CallAction)
    requires BeforeWrite(a)
    requires CallReady(w, th, a)
    ensures var e := CallEffect(w, t, th, a);
            && e.w.sh.permits - w.sh.permits == Held(e.th) - Held(th) && !IsCaller(e.spawned)
            && (w.sh.permits <= w.maxCalls ==> e.w.sh.permits <= e.w.maxCalls)
  {
  }

  lemma PermitCallSecond(w: World, t: nat, th: Thread, a: CallAction)
    requires !BeforeWrite(a)
    requires CallReady(w, th, a)
    ensures var e := CallEffect(w, t, th, a);
            && e.w.sh.permits - w.sh.permits == Held(e.th) - Held(th) && !IsCaller(e.spawned)
            && (w.sh.permits <= w.maxCalls ==> e.w.sh.permits <= e.w.maxCalls)
  {
  }

  lemma PermitCall(w: World, t: nat, th: Thread, a: CallAction)
    requires CallReady(w, th, a)
    ensures var e := CallEffect(w, t, th, a);
            && e.w.sh.permits - w.sh.permits == Held(e.th) - Held(th) && !IsCaller(e.spawned)
            && (w.sh.permits <= w.maxCalls ==> e.w.sh.permits <= e.w.maxCalls)
  {
    if BeforeWrite(a) { PermitCallFirst(w, t, th, a); } else { PermitCallSecond(w, t, th, a); }
  }

  lemma PermitRead(w: World, t: nat, th: Thread, a: ReadAction)
    requires ReadReady(w, th, a)
    ensures var e := ReadEffect(w, t, th, a);
            && e.w.sh.permits - w.sh.permits == Held(e.th) - Held(th) && !IsCaller(e.spawned)
            && (w.sh.permits <= w.maxCalls ==> e.w.sh.permits <= e.w.maxCalls)
  {
  }

  lemma PermitTearFirst(w: World, t: nat, u: nat, th: Thread, a: TearAction)
    requires FirstHalf(a)
    requires TearReady(w, th, a)
    ensures var e := TearEffect(w, t, u, th, a);
            && e.w.sh.permits - w.sh.permits == Held(e.th) - Held(th) && !IsCaller(e.spawned)
            && (w.sh.permits <= w.maxCalls ==> e.w.sh.permits <= e.w.maxCalls)
  {
  }

  lemma PermitTearSecond(w: World, t: nat, u: nat, th: Thread, a: TearAction)
    requires !FirstHalf(a)
    requires TearReady(w, th, a)
    ensures var e := TearEffect(w, t, u, th, a);
            && e.w.sh.permits - w.sh.permits == Held(e.th) - Held(th) && !IsCaller(e.spawned)
            && (w.sh.permits <= w.maxCalls ==> e.w.sh.permits <= e.w.maxCalls)
  {
  }

  lemma PermitTear(w: World, t: nat, u: nat, th: Thread, a: TearAction)
    requires TearReady(w, th, a)
    ensures var e := TearEffect(w, t, u, th, a);
            && e.w.sh.permits - w.sh.permits == Held(e.th) - Held(th) && !IsCaller(e.spawned)
            && (w.sh.permits <= w.maxCalls ==> e.w.sh.permits <= e.w.maxCalls)
  {
    if FirstHalf(a) { PermitTearFirst(w, t, u, th, a); } else { PermitTearSecond(w, t, u, th, a); }
  }

  lemma PermitDial(w: World, th: Thread, a: DialAction)
    requires DialReady(w, th, a)
    ensures var e := DialEffect(w, th, a);
            && e.w.sh.permits - w.sh.permits == Held(e.th) - Held(th) && !IsCaller(e.spawned)
            && (w.sh.permits <= w.maxCalls ==> e.w.sh.permits <= e.w.maxCalls)
  {
  }

  lemma PermitClose(w: World, t: nat, th: Thread, a: CloseAction)
    requires CloseReady(th, a)
    ensures var e := CloseEffect(w, t, th, a);
            && e.w.sh.permits - w.sh.permits == Held(e.th) - Held(th) && !IsCaller(e.spawned)
            && (w.sh.permits <= w.maxCalls ==> e.w.sh.permits <= e.w.maxCalls)
  {
  }

  lemma PermitStep(w: World, t: nat, u: nat, th: Thread, a: Action)
    requires Ready(w, th, a)
    ensures var e := EffectOf(w, t, u, th, a);
            && e.w.sh.permits - w.sh.permits == Held(e.th) - Held(th) && !IsCaller(e.spawned)
            && (w.sh.permits <= w.maxCalls ==> e.w.sh.permits <= e.w.maxCalls)
  {
    match a
    case InCall(b) => PermitCall(w, t, th, b);
    case InRead(b) => PermitRead(w, t, th, b);
    case InTear(b) => PermitTear(w, t, u, th, b);
    case InDial(b) => PermitDial(w, th, b);
    case InClose(b) => PermitClose(w, t, th, b);
  }

  lemma PermitKept(s: State, t: nat, u: nat, a: Action)
    requires PermitInv(s) && Enabled(s, t, u, a)
    ensures PermitInv(Do(s, t, u, a))
  {
    PermitStep(s.w, t, u, Point(s, t), a);
    var e := EffectOf(s.w, t, u, Point(s, t), a);
    CallersPut(s.threads, t, e.th);
    CallersPut(s.threads[t := e.th], u, e.spawned);
  }
}
