/**
 What the goroutines of the client are bound to do, over every run: a teardown restarts an open
 client, a failed or rejected connection is given up, Close is final, and a Call leaves its wait
 for a reason.
 */
module ClientProgress {
  import opened Basics
  import opened ClientCore
  import opened ClientSteps
  import opened ClientInvariants
  import opened ClientProtocol

  // another goroutine's step does not move a goroutine that is there
  lemma StandsStill(s: State, p: Step, s': State, t: nat)
    requires IsStep(s, p, s') && p.t != t && t in s.threads
    ensures t in s'.threads && s'.threads[t] == s.threads[t]
  {
  }

  lemma StaysThere(r: Run, k: nat, t: nat)
    requires IsRun(r) && k < |r.steps| && t in r.states[k].threads
    ensures t in r.states[k + 1].threads
    ensures r.steps[k].t != t ==> r.states[k + 1].threads[t] == r.states[k].threads[t]
  {
    assert IsStep(r.states[k], r.steps[k], r.states[k + 1]);
  }

  // ---------- a teardown restarts an open client ----------

  // past the lock of handleDisconnect, and not yet returned
  predicate TearingDown(x: Thread) {
    x.HangingUp? || InSweep(x) || x.Restarting? || x.Claiming? || x.Spawning?
  }

  lemma LeavesTeardown(w: World, t: nat, u: nat, th: Thread, a: Action)
    requires Ready(w, th, a) && TearingDown(th) && !TearingDown(EffectOf(w, t, u, th, a).th)
    ensures th.Restarting? || th.Claiming? || th.Spawning?
    ensures w.sh.closed || w.sh.reconnecting || th.Spawning?
  {
  }

  lemma {:induction false} FindReturn(r: Run, i: nat, j: nat, t: nat) returns (k: nat)
    requires i < j < |r.states| && TearingDown(Point(r.states[i], t)) && !TearingDown(Point(r.states[j], t))
    ensures i <= k < j && TearingDown(Point(r.states[k], t)) && !TearingDown(Point(r.states[k + 1], t))
    decreases j - i
  {
    k := i;
    if TearingDown(Point(r.states[i + 1], t)) { k := FindReturn(r, i + 1, j, t); }
  }

  /**
   A goroutine that tears a connection down does not return before the client is closed or has
   its reconnect flag set, so that an open client gets a reconnect loop.
   */
  lemma TeardownRestarts(r: Run, i: nat, j: nat, t: nat) returns (k: nat)
    requires IsRun(r) && i < j < |r.states| && t in r.states[i].threads
    requires r.states[i].threads[t].HangingUp? || InSweep(r.states[i].threads[t])
    requires !InDisconnect(Point(r.states[j], t))
    ensures i < k < j && (r.states[k].w.sh.closed || r.states[k].w.sh.reconnecting)
    ensures r.states[k].w.sh.reconnecting ==> |FlagHolders(r.states[k].threads)| == 1
  {
    k := FindReturn(r, i, j, t);
    var s, p := r.states[k], r.steps[k];
    StaysThere(r, k, t);
    assert p.t == t;
    assert IsStep(s, p, r.states[k + 1]);
    LeavesTeardown(s.w, t, p.u, s.threads[t], p.a);
    Reachable(r, k);
    assert FlagOf(s.w, t, Point(s, t));
    SingleReconnectLoop(r, k);
  }

  /** So does a Connect that failed for a transient reason; any other failure ends it at once. */
  lemma FailedConnectRestarts(r: Run, i: nat, j: nat, transient: bool) returns (k: nat)
    requires IsRun(r) && i < |r.steps| && i < j < |r.states| && r.steps[i].a == InDial(DialFails(transient))
    requires Point(r.states[i], r.steps[i].t) == Connecting(FromConnect)
    requires !InDisconnect(Point(r.states[j], r.steps[i].t))
    ensures !transient ==> Point(r.states[i + 1], r.steps[i].t).Finished?
    ensures transient ==> i < k < j && r.states[k].w.sh.reconnecting
  {
    assert IsStep(r.states[i], r.steps[i], r.states[i + 1]);
    k := i;
    if transient { k := ClaimEnds(r, i + 1, j, r.steps[i].t); }
  }

  lemma ClaimStep(w: World, t: nat, u: nat, th: Thread, a: Action)
    requires Ready(w, th, a) && (th.Claiming? || th.Spawning?)
    ensures EffectOf(w, t, u, th, a).th.Spawning? || w.sh.reconnecting || th.Spawning?
  {
  }

  lemma {:induction false} ClaimEnds(r: Run, i: nat, j: nat, t: nat) returns (k: nat)
    requires IsRun(r) && i <= j < |r.states| && t in r.states[i].threads
    requires r.states[i].threads[t].Claiming? || r.states[i].threads[t].Spawning?
    requires !InDisconnect(Point(r.states[j], t))
    ensures i <= k < j && r.states[k].w.sh.reconnecting
    decreases j - i
  {
    var s, p := r.states[i], r.steps[i];
    Reachable(r, i);
    assert FlagOf(s.w, t, Point(s, t));
    k := i;
    if !s.w.sh.reconnecting {
      StaysThere(r, i, t);
      assert IsStep(s, p, r.states[i + 1]);
      if p.t == t { ClaimStep(s.w, t, p.u, s.threads[t], p.a); }
      k := ClaimEnds(r, i + 1, j, t);
    }
  }

  // the goroutine is a reconnect loop that has not connected and not stopped
  predicate Looping(x: Thread) { x.LoopTop? || ((x.Dialing? || x.Connecting?) && x.origin.FromLoop?) }

  // a loop stops when it finds the client closed or connected or has used up its attempts, or connects
  predicate StopsLoop(s: State, p: Step, t: nat) {
    p.t == t && p.a.InDial? &&
    (p.a.dial.InstallConn? || (p.a.dial.LoopQuit? && (p.a.dial.exhausted || s.w.sh.closed || s.w.sh.conn.Some?)))
  }

  lemma LoopStep(s: State, t: nat, u: nat, th: Thread, a: Action)
    requires Ready(s.w, th, a) && Looping(th)
    ensures Looping(EffectOf(s.w, t, u, th, a).th) || StopsLoop(s, Step(t, u, a), t)
  {
  }

  /**
   A reconnect loop goes on after every failed dial: it ends only by connecting, or because it
   found the client closed or connected, or by a limit on its attempts.
   */
  lemma {:induction false} LoopGoesOn(r: Run, i: nat, j: nat, t: nat) returns (k: nat)
    requires IsRun(r) && i <= j < |r.states| && t in r.states[i].threads && Looping(r.states[i].threads[t])
    requires !Looping(Point(r.states[j], t))
    ensures i <= k < j && StopsLoop(r.states[k], r.steps[k], t)
    decreases j - i
  {
    var s, p := r.states[i], r.steps[i];
    StaysThere(r, i, t);
    k := i;
    if !StopsLoop(s, p, t) {
      assert IsStep(s, p, r.states[i + 1]);
      if p.t == t { LoopStep(s, t, p.u, s.threads[t], p.a); }
      k := LoopGoesOn(r, i + 1, j, t);
    }
  }

  // about to claim the flag, or on a way to it that does not look at `closed`
  predicate MayClaim(x: Thread) {
    x.Claiming? || x.Spawning? || ((x.Dialing? || x.Connecting?) && x.origin.FromConnect?)
  }

  lemma ClosedCall(w: World, t: nat, th: Thread, a: CallAction)
    requires CallReady(w, th, a)
    ensures !MayClaim(CallEffect(w, t, th, a).th)
  {
  }

  lemma ClosedTear(w: World, t: nat, u: nat, th: Thread, a: TearAction)
    requires TearReady(w, th, a) && w.sh.closed && !MayClaim(th)
    ensures !MayClaim(TearEffect(w, t, u, th, a).th)
  {
  }

  lemma ClosedDial(w: World, th: Thread, a: DialAction)
    requires DialReady(w, th, a) && w.sh.closed && !MayClaim(th) && !a.StartConnect?
    ensures !MayClaim(DialEffect(w, th, a).th)
  {
  }

  lemma ClosedStep(w: World, t: nat, u: nat, th: Thread, a: Action)
    requires Ready(w, th, a) && w.sh.closed && !MayClaim(th) && !IsStart(a)
    ensures !MayClaim(EffectOf(w, t, u, th, a).th)
  {
    match a
    case InCall(b) => ClosedCall(w, t, th, b);
    case InTear(b) => ClosedTear(w, t, u, th, b);
    case InDial(b) => ClosedDial(w, th, b);
    case _ =>
  }

  lemma {:induction false} ClosedForGood(r: Run, i: nat, j: nat)
    requires IsRun(r) && i <= j < |r.states| && r.states[i].w.sh.closed
    ensures r.states[j].w.sh.closed
  {
    if i < j {
      ClosedForGood(r, i, j - 1);
      var s, p := r.states[j - 1], r.steps[j - 1];
      assert IsStep(s, p, r.states[j]);
      MovesStep(s.w, p.t, p.u, Point(s, p.t), p.a);
    }
  }

  /** Once the client is closed, no goroutine that tears a connection down sets the flag any more. */
  lemma {:induction false} ClosedTeardownClaimsNothing(r: Run, i: nat, j: nat, t: nat)
    requires IsRun(r) && i <= j < |r.states| && r.states[i].w.sh.closed
    requires t in r.states[i].threads && !MayClaim(r.states[i].threads[t])
    ensures t in r.states[j].threads && !MayClaim(r.states[j].threads[t])
  {
    if i < j {
      ClosedTeardownClaimsNothing(r, i, j - 1, t);
      StaysThere(r, j - 1, t);
      var s, p := r.states[j - 1], r.steps[j - 1];
      if p.t == t {
        ClosedForGood(r, i, j - 1);
        assert IsStep(s, p, r.states[j]);
        ClosedStep(s.w, t, p.u, s.threads[t], p.a);
      }
    }
  }

  // ---------- a connection that failed or was rejected is given up ----------

  // the goroutine serves this connection, or is about to disconnect it
  predicate Serves(x: Thread, c: nat) {
    (x.Reading? || x.Replying? || x.Pinging? || x.Disconnecting?) && x.conn == c
  }

  lemma ServesOn(w: World, t: nat, u: nat, th: Thread, a: Action, c: nat)
    requires ConnWorld(w) && Ready(w, th, a) && Serves(th, c)
    ensures var e := EffectOf(w, t, u, th, a); Serves(e.th, c) || e.w.sh.conn != Some(c)
  {
  }

  // every connection number in use has been given out
  ghost predicate KnownInv(s: State) {
    forall v: nat :: Known(s.w, Point(s, v))
  }

  predicate NamesConnection(x: Thread) {
    || x.HasConn? || HasId(x) || x.Reading? || x.Replying? || x.Pinging? || x.Disconnecting?
    || x.Installed? || x.ReadStarted?
  }

  predicate Known(w: World, x: Thread) { NamesConnection(x) ==> x.conn < w.sh.nextConn }

  lemma KnownCall(w: World, t: nat, th: Thread, a: CallAction)
    requires ConnWorld(w) && Known(w, th) && CallReady(w, th, a)
    ensures var e := CallEffect(w, t, th, a); Known(e.w, e.th) && Known(e.w, e.spawned)
  {
  }

  lemma KnownRead(w: World, t: nat, th: Thread, a: ReadAction)
    requires Known(w, th) && ReadReady(w, th, a)
    ensures var e := ReadEffect(w, t, th, a); Known(e.w, e.th) && Known(e.w, e.spawned)
  {
  }

  lemma KnownTear(w: World, t: nat, u: nat, th: Thread, a: TearAction)
    requires TearReady(w, th, a)
    ensures var e := TearEffect(w, t, u, th, a); Known(e.w, e.th) && Known(e.w, e.spawned)
  {
  }

  lemma KnownDial(w: World, th: Thread, a: DialAction)
    requires Known(w, th) && DialReady(w, th, a)
    ensures var e := DialEffect(w, th, a); Known(e.w, e.th) && Known(e.w, e.spawned)
  {
  }

  lemma KnownStep(w: World, t: nat, u: nat, th: Thread, a: Action)
    requires ConnWorld(w) && Known(w, th) && Ready(w, th, a)
    ensures var e := EffectOf(w, t, u, th, a);
            Known(e.w, e.th) && Known(e.w, e.spawned) && w.sh.nextConn <= e.w.sh.nextConn
  {
    MovesStep(w, t, u, th, a);
    match a
    case InCall(b) => KnownCall(w, t, th, b);
    case InRead(b) => KnownRead(w, t, th, b);
    case InTear(b) => KnownTear(w, t, u, th, b);
    case InDial(b) => KnownDial(w, th, b);
    case InClose(_) =>
  }

  lemma {:induction false} KnownAlways(r: Run, i: nat)
    requires IsRun(r) && i < |r.states|
    ensures KnownInv(r.states[i])
  {
    if i > 0 {
      KnownAlways(r, i - 1);
      Reachable(r, i - 1);
      var s, p := r.states[i - 1], r.steps[i - 1];
      assert IsStep(s, p, r.states[i]);
      KnownStep(s.w, p.t, p.u, Point(s, p.t), p.a);
      forall v: nat ensures Known(r.states[i].w, Point(r.states[i], v)) {
        assert Known(s.w, Point(s, v));
      }
    }
  }

  lemma ServedStep(s: State, p: Step, s': State, t: nat, c: nat)
    requires IsStep(s, p, s') && ConnWorld(s.w) && c < s.w.sh.nextConn && t in s.threads
    requires Serves(s.threads[t], c) || s.w.sh.conn != Some(c)
    ensures t in s'.threads && (Serves(s'.threads[t], c) || s'.w.sh.conn != Some(c))
  {
    MovesStep(s.w, p.t, p.u, Point(s, p.t), p.a);
    if p.t != t {
      StandsStill(s, p, s', t);
    } else if s.w.sh.conn == Some(c) {
      ServesOn(s.w, t, p.u, s.threads[t], p.a, c);
    }
  }

  /** A goroutine that serves a connection goes on serving it, or the connection is no longer current. */
  lemma {:induction false} ServedUntilGone(r: Run, i: nat, j: nat, t: nat, c: nat)
    requires IsRun(r) && i <= j < |r.states| && t in r.states[i].threads && Serves(r.states[i].threads[t], c)
    ensures t in r.states[j].threads
    ensures Serves(r.states[j].threads[t], c) || r.states[j].w.sh.conn != Some(c)
  {
    if i < j {
      ServedUntilGone(r, i, j - 1, t, c);
      KnownAlways(r, i);
      assert Known(r.states[i].w, Point(r.states[i], t));
      NumbersGrow(r, i, j - 1);
      Reachable(r, j - 1);
      ServedStep(r.states[j - 1], r.steps[j - 1], r.states[j], t, c);
    }
  }

  lemma {:induction false} NumbersGrow(r: Run, i: nat, j: nat)
    requires IsRun(r) && i <= j < |r.states|
    ensures r.states[i].w.sh.nextConn <= r.states[j].w.sh.nextConn
  {
    if i < j {
      NumbersGrow(r, i, j - 1);
      var s, p := r.states[j - 1], r.steps[j - 1];
      assert IsStep(s, p, r.states[j]);
      MovesStep(s.w, p.t, p.u, Point(s, p.t), p.a);
    }
  }

  // the goroutine reads (or pings) the connection, will start the one that does, or gives it up
  predicate Attends(x: Thread, c: nat, ping: bool) {
    && (x.Installed? || x.Disconnecting? || if ping then x.ReadStarted? || x.Pinging? else x.Reading? || x.Replying?)
    && x.conn == c
  }

  lemma AttendStep(w: World, t: nat, u: nat, th: Thread, a: Action, c: nat, ping: bool)
    requires ConnWorld(w) && Ready(w, th, a) && Attends(th, c, ping) && EffectOf(w, t, u, th, a).w.sh.conn == Some(c)
    ensures var e := EffectOf(w, t, u, th, a); Attends(e.th, c, ping) || (Spawns(a) && Attends(e.spawned, c, ping))
  {
  }

  lemma TearInstallsNothing(w: World, t: nat, u: nat, th: Thread, a: TearAction)
    requires TearReady(w, th, a)
    ensures TearEffect(w, t, u, th, a).w.sh.conn in {w.sh.conn, None}
  {
  }

  lemma CallInstallsNothing(w: World, t: nat, th: Thread, a: CallAction)
    requires CallReady(w, th, a)
    ensures CallEffect(w, t, th, a).w.sh.conn == w.sh.conn
  {
  }

  lemma DialInstalls(w: World, th: Thread, a: DialAction, c: nat)
    requires DialReady(w, th, a) && w.sh.conn != Some(c) && DialEffect(w, th, a).w.sh.conn == Some(c)
    ensures var x := DialEffect(w, th, a).th; x.Installed? && x.conn == c
  {
  }

  lemma BecomesCurrent(w: World, t: nat, u: nat, th: Thread, a: Action, c: nat)
    requires Ready(w, th, a) && w.sh.conn != Some(c) && EffectOf(w, t, u, th, a).w.sh.conn == Some(c)
    ensures var x := EffectOf(w, t, u, th, a).th; x.Installed? && x.conn == c
  {
    match a
    case InCall(b) => CallInstallsNothing(w, t, th, b);
    case InTear(b) => TearInstallsNothing(w, t, u, th, b);
    case InDial(b) => DialInstalls(w, th, b, c);
    case _ =>
  }

  /** In every run, the current connection has a goroutine that reads it and one that pings it, or gives it up. */
  lemma {:induction false} CurrentIsAttended(r: Run, j: nat, c: nat, ping: bool) returns (t: nat)
    requires IsRun(r) && j < |r.states| && r.states[j].w.sh.conn == Some(c)
    ensures t in r.states[j].threads && Attends(r.states[j].threads[t], c, ping)
  {
    var s, p := r.states[j - 1], r.steps[j - 1];
    assert IsStep(s, p, r.states[j]);
    if s.w.sh.conn != Some(c) {
      t := p.t;
      BecomesCurrent(s.w, t, p.u, Point(s, t), p.a, c);
    } else {
      t := CurrentIsAttended(r, j - 1, c, ping);
      if p.t == t {
        Reachable(r, j - 1);
        AttendStep(s.w, t, p.u, s.threads[t], p.a, c, ping);
        if !Attends(r.states[j].threads[t], c, ping) { t := p.u; }
      }
    }
  }

  /** When the read loop or the ping loop of a connection has ended, that connection is not current. */
  lemma NoConnectionWithoutReader(r: Run, i: nat, j: nat, t: nat)
    requires IsRun(r) && i <= j < |r.states| && t in r.states[i].threads
    requires r.states[i].threads[t].Reading? || r.states[i].threads[t].Pinging?
    requires Point(r.states[j], t).Finished?
    ensures r.states[j].w.sh.conn != Some(r.states[i].threads[t].conn)
  {
    ServedUntilGone(r, i, j, t, r.states[i].threads[t].conn);
  }

  /** A Call whose first rejection came over a connection goes on only when that connection is not current. */
  lemma RejectedConnectionIsGivenUp(r: Run, i: nat, j: nat, t: nat)
    requires IsRun(r) && i < j < |r.states| && t in r.states[i].threads
    requires r.steps[i] == Step(t, r.steps[i].u, InCall(Judge(Rejected))) && r.states[i].threads[t].Judging?
    requires !r.states[i].threads[t].b.reauthAttempted && !Point(r.states[j], t).Disconnecting?
    ensures r.states[j].w.sh.conn != Some(r.states[i].threads[t].conn)
  {
    assert IsStep(r.states[i], r.steps[i], r.states[i + 1]);
    ServedUntilGone(r, i + 1, j, t, r.states[i].threads[t].conn);
    StaysCall(r, i + 1, j, t);
  }

  // a Call never reads or pings
  predicate IsCall(x: Thread) {
    x.CallTop? || x.HasConn? || HasId(x) || x.CallEnded? || (InDisconnect(x) && x.ret.Resume?)
  }

  lemma CallStaysInCall(w: World, t: nat, th: Thread, a: CallAction)
    requires CallReady(w, th, a)
    ensures IsCall(CallEffect(w, t, th, a).th)
  {
  }

  lemma CallStaysInTear(w: World, t: nat, u: nat, th: Thread, a: TearAction)
    requires TearReady(w, th, a) && IsCall(th)
    ensures IsCall(TearEffect(w, t, u, th, a).th)
  {
  }

  lemma CallStays(w: World, t: nat, u: nat, th: Thread, a: Action)
    requires Ready(w, th, a) && IsCall(th)
    ensures IsCall(EffectOf(w, t, u, th, a).th)
  {
    match a
    case InCall(b) => CallStaysInCall(w, t, th, b);
    case InTear(b) => CallStaysInTear(w, t, u, th, b);
    case _ =>
  }

  lemma {:induction false} StaysCall(r: Run, i: nat, j: nat, t: nat)
    requires IsRun(r) && i <= j < |r.states| && t in r.states[i].threads && IsCall(r.states[i].threads[t])
    ensures t in r.states[j].threads && IsCall(r.states[j].threads[t])
  {
    if i < j {
      StaysCall(r, i, j - 1, t);
      StaysThere(r, j - 1, t);
      var s, p := r.states[j - 1], r.steps[j - 1];
      assert IsStep(s, p, r.states[j]);
      if p.t == t { CallStays(s.w, t, p.u, s.threads[t], p.a); }
    }
  }

  // ---------- Close ----------

  /** Close leaves no current connection and tells the goroutines of the one that was. */
  lemma CloseStopsCurrent(r: Run, i: nat)
    requires IsRun(r) && i < |r.steps| && r.steps[i].a == InClose(CloseLock)
    ensures var sh, sh' := r.states[i].w.sh, r.states[i + 1].w.sh;
            sh'.conn.None? && (sh.conn.Some? ==> sh.conn.value in sh'.doneClosed)
  {
    Reachable(r, i);
    assert IsStep(r.states[i], r.steps[i], r.states[i + 1]);
  }

  lemma DialsOnlyWhileOpen(w: World, th: Thread, a: DialAction)
    requires DialReady(w, th, a) && !th.Connecting?
    ensures DialEffect(w, th, a).th.Connecting? <==> a.DialCheck? && !w.sh.closed
  {
  }

  lemma OthersDoNotDial(w: World, t: nat, u: nat, th: Thread, a: Action)
    requires Ready(w, th, a) && !a.InDial?
    ensures !EffectOf(w, t, u, th, a).th.Connecting?
  {
    match a
    case InCall(b) => CallStaysInCall(w, t, th, b);
    case _ =>
  }

  /** Once the client is closed, only a dial that was past its check can still connect. */
  lemma {:induction false} NoDialAfterClose(r: Run, i: nat, j: nat, t: nat)
    requires IsRun(r) && i <= j < |r.states| && r.states[i].w.sh.closed && !Point(r.states[i], t).Connecting?
    ensures !Point(r.states[j], t).Connecting?
  {
    if i < j {
      NoDialAfterClose(r, i, j - 1, t);
      ClosedForGood(r, i, j - 1);
      var s, p := r.states[j - 1], r.steps[j - 1];
      assert IsStep(s, p, r.states[j]);
      if p.t == t {
        match p.a
        case InDial(b) => DialsOnlyWhileOpen(s.w, Point(s, t), b);
        case _ => OthersDoNotDial(s.w, t, p.u, Point(s, t), p.a);
      }
    }
  }

  /** A dial of an open client is not refused, and one of a closed client is. */
  lemma DialCheckDecides(r: Run, i: nat)
    requires IsRun(r) && i < |r.steps| && r.steps[i].a == InDial(DialCheck)
    ensures Point(r.states[i + 1], r.steps[i].t).Connecting? <==> !r.states[i].w.sh.closed
  {
    var s, p := r.states[i], r.steps[i];
    assert IsStep(s, p, r.states[i + 1]);
    DialsOnlyWhileOpen(s.w, Point(s, p.t), DialCheck);
  }

  // past the swap of Close
  predicate IsClosing(x: Thread) { x.ClosingDone? || x.ClosingLock? }

  lemma ClosingStep(w: World, t: nat, u: nat, th: Thread, a: Action)
    requires Ready(w, th, a) && IsClosing(th)
    ensures IsClosing(EffectOf(w, t, u, th, a).th) || a == InClose(CloseLock)
  {
  }

  /** The goroutine that closes the client does not return before it has closed the current connection. */
  lemma {:induction false} CloseIsCarriedOut(r: Run, i: nat, j: nat, t: nat) returns (k: nat)
    requires IsRun(r) && i <= j < |r.states| && t in r.states[i].threads && IsClosing(r.states[i].threads[t])
    requires !IsClosing(Point(r.states[j], t))
    ensures i <= k < j && r.steps[k].t == t && r.steps[k].a == InClose(CloseLock) && r.states[k + 1].w.sh.conn.None?
    decreases j - i
  {
    var s, p := r.states[i], r.steps[i];
    StaysThere(r, i, t);
    k := i;
    if p.t == t && p.a == InClose(CloseLock) {
      CloseStopsCurrent(r, i);
    } else {
      assert IsStep(s, p, r.states[i + 1]);
      if p.t == t { ClosingStep(s.w, t, p.u, s.threads[t], p.a); }
      k := CloseIsCarriedOut(r, i + 1, j, t);
    }
  }

  // a Connect on its way to a connection
  predicate IsConnecting(x: Thread) { (x.Dialing? || x.Connecting?) && x.origin.FromConnect? }

  predicate EndsConnect(s: State, p: Step, t: nat) {
    p.t == t && p.a.InDial? &&
    (p.a.dial.InstallConn? || p.a.dial.DialFails? || (p.a.dial.DialCheck? && s.w.sh.closed))
  }

  lemma ConnectStep(s: State, t: nat, u: nat, th: Thread, a: Action)
    requires Ready(s.w, th, a) && (IsConnecting(th) || a == InDial(StartConnect))
    ensures IsConnecting(EffectOf(s.w, t, u, th, a).th) || EndsConnect(s, Step(t, u, a), t)
  {
  }

  /** A Connect ends with a connection, with a failed dial, or because it found the client closed. */
  lemma {:induction false} ConnectEndsForAReason(r: Run, i: nat, j: nat, t: nat) returns (k: nat)
    requires IsRun(r) && i < j < |r.states| && r.steps[i].t == t
    requires IsConnecting(Point(r.states[i], t)) || r.steps[i].a == InDial(StartConnect)
    requires !IsConnecting(Point(r.states[j], t))
    ensures i <= k < j && EndsConnect(r.states[k], r.steps[k], t)
    decreases j - i
  {
    var s, p := r.states[i], r.steps[i];
    assert IsStep(s, p, r.states[i + 1]);
    k := i;
    ConnectStep(s, t, p.u, Point(s, t), p.a);
    if !EndsConnect(s, p, t) {
      var next := NextStepOf(r, i + 1, j, t);
      k := ConnectEndsForAReason(r, next, j, t);
    }
  }

  // a goroutine that is elsewhere later takes a step in between
  lemma {:induction false} NextStepOf(r: Run, i: nat, j: nat, t: nat) returns (k: nat)
    requires IsRun(r) && i <= j < |r.states| && t in r.states[i].threads
    requires Point(r.states[j], t) != r.states[i].threads[t]
    ensures i <= k < j && r.steps[k].t == t && Point(r.states[k], t) == r.states[i].threads[t]
    decreases j - i
  {
    k := i;
    if r.steps[i].t != t {
      StaysThere(r, i, t);
      k := NextStepOf(r, i + 1, j, t);
    }
  }

  // ---------- a Call ----------

  lemma ReplyStep(w: World, t: nat, u: nat, th: Thread, a: Action)
    requires Ready(w, th, a) && th.Replying?
    ensures th.id in EffectOf(w, t, u, th, a).w.sh.slots
  {
  }

  /** A frame for a pending request reaches the channel of its Call before the read loop reads on. */
  lemma FrameReachesItsCall(r: Run, i: nat, j: nat, t: nat, id: nat) returns (k: nat)
    requires IsRun(r) && i < |r.steps| && i < j < |r.states| && r.steps[i].t == t
    requires r.steps[i].a == InRead(ReadFrame(id)) && id in r.states[i].w.sh.pending
    requires !Point(r.states[j], t).Replying?
    ensures i < k <= j && id in r.states[k].w.sh.slots
  {
    var s, p := r.states[i], r.steps[i];
    assert IsStep(s, p, r.states[i + 1]);
    var m := NextStepOf(r, i + 1, j, t);
    assert IsStep(r.states[m], r.steps[m], r.states[m + 1]);
    ReplyStep(r.states[m].w, t, r.steps[m].u, Point(r.states[m], t), r.steps[m].a);
    k := m + 1;
  }

  // the step that ended the wait of a goroutine with or without a message
  predicate EndsWait(p: Step, t: nat, answered: bool) {
    p.t == t && p.a.InCall? && if answered then p.a.call.Receive? else p.a.call.WriteFails? || p.a.call.ContextEnds?
  }

  predicate HasLeft(x: Thread) { x.Leaving? || x.Judging? }

  lemma LeavesByCall(w: World, t: nat, u: nat, th: Thread, a: CallAction)
    requires CallReady(w, th, a) && HasLeft(CallEffect(w, t, th, a).th)
    ensures || (HasLeft(th) && th.got == CallEffect(w, t, th, a).th.got)
            || EndsWait(Step(t, u, InCall(a)), t, CallEffect(w, t, th, a).th.got.Some?)
  {
  }

  /**
   A Call leaves its wait with a message only by receiving it, and without one only because the
   request could not be written or its context ended.
   */
  lemma {:induction false} WaitEndsForAReason(r: Run, j: nat, t: nat) returns (k: nat)
    requires IsRun(r) && j < |r.states| && HasLeft(Point(r.states[j], t))
    ensures k < j && EndsWait(r.steps[k], t, Point(r.states[j], t).got.Some?)
  {
    var s, p := r.states[j - 1], r.steps[j - 1];
    assert IsStep(s, p, r.states[j]);
    if p.t == t {
      match p.a
      case InCall(b) =>
        LeavesByCall(s.w, t, p.u, Point(s, t), b);
        if EndsWait(p, t, Point(r.states[j], t).got.Some?) {
          k := j - 1;
        } else {
          k := WaitEndsForAReason(r, j - 1, t);
        }
      case _ =>
        OthersDoNotCall(s.w, t, p.u, Point(s, t), p.a);
    } else {
      SpawnedDoNotCall(s, p, r.states[j], t);
      k := WaitEndsForAReason(r, j - 1, t);
    }
  }

  lemma SpawnedDoNotCall(s: State, p: Step, s': State, t: nat)
    requires IsStep(s, p, s') && p.t != t && IsCall(Point(s', t))
    ensures Point(s, t) == Point(s', t)
  {
  }

  // the goroutine works for a Call on this connection
  predicate CallsOn(x: Thread, c: nat) { (x.HasConn? || HasId(x)) && x.conn == c }

  lemma CallsOnBy(w: World, t: nat, th: Thread, a: CallAction, c: nat)
    requires CallReady(w, th, a) && CallsOn(CallEffect(w, t, th, a).th, c)
    ensures CallsOn(th, c) || w.sh.conn == Some(c)
  {
  }

  lemma TearDoesNotCall(w: World, t: nat, u: nat, th: Thread, a: TearAction)
    requires TearReady(w, th, a)
    ensures !TearEffect(w, t, u, th, a).th.HasConn? && !HasId(TearEffect(w, t, u, th, a).th)
  {
  }

  lemma OthersDoNotCall(w: World, t: nat, u: nat, th: Thread, a: Action)
    requires Ready(w, th, a) && !a.InCall?
    ensures !EffectOf(w, t, u, th, a).th.HasConn? && !HasId(EffectOf(w, t, u, th, a).th)
  {
    match a
    case InTear(b) => TearDoesNotCall(w, t, u, th, b);
    case _ =>
  }

  /** The connection that a Call uses was current when the Call took it. */
  lemma {:induction false} CallsUseCurrent(r: Run, j: nat, t: nat, c: nat) returns (k: nat)
    requires IsRun(r) && j < |r.states| && CallsOn(Point(r.states[j], t), c)
    ensures k < j && r.states[k].w.sh.conn == Some(c)
  {
    var s, p := r.states[j - 1], r.steps[j - 1];
    assert IsStep(s, p, r.states[j]);
    if p.t == t {
      match p.a
      case InCall(b) =>
        CallsOnBy(s.w, t, Point(s, t), b, c);
        if s.w.sh.conn == Some(c) {
          k := j - 1;
        } else {
          k := CallsUseCurrent(r, j - 1, t, c);
        }
      case _ =>
        OthersDoNotCall(s.w, t, p.u, Point(s, t), p.a);
    } else {
      SpawnedDoNotCall(s, p, r.states[j], t);
      k := CallsUseCurrent(r, j - 1, t, c);
    }
  }

  /**
   What the verdict on an attempt leads to: success and other errors end the Call, a lost
   connection is retried, the first rejection disconnects the connection it came over, the
   second ends the Call.
   */
  lemma VerdictDecides(r: Run, i: nat, v: Verdict)
    requires IsRun(r) && i < |r.steps| && r.steps[i].a == InCall(Judge(v))
    ensures var x, y := Point(r.states[i], r.steps[i].t), Point(r.states[i + 1], r.steps[i].t);
            && x.Judging?
            && (v.Success? || v.Fatal? ==> y.CallEnded?)
            && (v.Retryable? ==> y.CallTop?)
            && (v.Rejected? && x.b.rejections == 0 ==> y.Disconnecting? && y.conn == x.conn)
            && (v.Rejected? && x.b.rejections > 0 ==> y.CallEnded? && y.b.rejections == 2)
  {
    Reachable(r, i);
    var s, p := r.states[i], r.steps[i];
    assert IsStep(s, p, r.states[i + 1]);
    assert BudgetKept(Point(s, p.t));
  }
}
