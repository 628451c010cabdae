/**
 Whether an open client that has lost its connection is on its way to a new one, and whether a
 closed one stays without. The first is so unless a reconnect loop clears its flag while the
 connection it made is already gone again: the goroutine that tore that connection down has found
 the flag set and left the work to the loop. The second is so unless a dial is already past its
 look at `closed`.
 */
module ClientRecovery {
  import opened Basics
  import opened ClientCore
  import opened ClientSteps
  import opened ClientInvariants
  import opened ClientProtocol
  import opened ClientProgress

  // open, and without the connection it once had
  predicate Down(w: World) { !w.sh.closed && w.sh.conn.None? && w.sh.nextConn > 0 }

  // tearing down, and still to look at the flag
  predicate WillClaim(x: Thread) { x.HangingUp? || InSweep(x) || x.Restarting? || x.Claiming? }

  ghost predicate Recovering(s: State) {
    s.w.sh.reconnecting || exists t :: t in s.threads && WillClaim(s.threads[t])
  }

  // a reconnect loop clears the flag of a client that is down, and nobody will look at the flag again
  ghost predicate Strands(s: State, p: Step) {
    p.a == InDial(LoopStop) && Down(s.w) && forall t :: t in s.threads ==> !WillClaim(s.threads[t])
  }

  // ---------- one step ----------

  // a step takes the client down only by starting a teardown, and drops the flag only as a loop
  // stops; a teardown of an open client ends with the flag set
  predicate KeepsUp(w: World, th: Thread, a: Action, e: Effect) {
    Down(e.w) ==>
      && (Down(w) || WillClaim(e.th))
      && (w.sh.reconnecting && !e.w.sh.reconnecting ==> a == InDial(LoopStop))
      && (WillClaim(th) ==> WillClaim(e.th) || e.w.sh.reconnecting)
  }

  lemma KeepsUpCall(w: World, t: nat, th: Thread, a: CallAction)
    requires CallReady(w, th, a)
    ensures KeepsUp(w, th, InCall(a), CallEffect(w, t, th, a))
  {
  }

  lemma KeepsUpTear(w: World, t: nat, u: nat, th: Thread, a: TearAction)
    requires TearReady(w, th, a)
    ensures KeepsUp(w, th, InTear(a), TearEffect(w, t, u, th, a))
  {
  }

  lemma KeepsUpDial(w: World, th: Thread, a: DialAction)
    requires DialReady(w, th, a)
    ensures KeepsUp(w, th, InDial(a), DialEffect(w, th, a))
  {
  }

  lemma KeepsUpClose(w: World, t: nat, th: Thread, a: CloseAction)
    requires CloseReady(th, a) && (IsClosing(th) ==> w.sh.closed)
    ensures KeepsUp(w, th, InClose(a), CloseEffect(w, t, th, a))
  {
  }

  lemma KeepsUpStep(w: World, t: nat, u: nat, th: Thread, a: Action)
    requires Ready(w, th, a) && (IsClosing(th) ==> w.sh.closed)
    ensures KeepsUp(w, th, a, EffectOf(w, t, u, th, a))
  {
    match a
    case InCall(b) => KeepsUpCall(w, t, th, b);
    case InTear(b) => KeepsUpTear(w, t, u, th, b);
    case InDial(b) => KeepsUpDial(w, th, b);
    case InClose(b) => KeepsUpClose(w, t, th, b);
    case InRead(_) =>
  }

  /** A step leaves a client down and not recovering exactly when it strands it. */
  lemma StrandsExactly(s: State, p: Step, s': State)
    requires IsStep(s, p, s') && ConnInv(s) && (Down(s.w) ==> Recovering(s))
    ensures Down(s'.w) && !Recovering(s') <==> Strands(s, p)
  {
    var th := Point(s, p.t);
    assert ConnOf(s.w, p.t, th);
    KeepsUpStep(s.w, p.t, p.u, th, p.a);
    if Down(s'.w) && !Recovering(s') {
      assert s'.threads[p.t] == EffectOf(s.w, p.t, p.u, th, p.a).th;
      forall t | t in s.threads && t != p.t ensures !WillClaim(s.threads[t]) { StandsStill(s, p, s', t); }
    }
    if Strands(s, p) {
      forall t | t in s'.threads ensures !WillClaim(s'.threads[t]) {
        if t != p.t { assert s'.threads[t] == s.threads[t]; }
      }
    }
  }

  // ---------- every run ----------

  /**
   In every run, a client that is down is recovering, unless a loop has stranded it; and it is
   stranded from that step on.
   */
  lemma {:induction false} DownIsRecovering(r: Run, j: nat) returns (k: nat)
    requires IsRun(r) && j < |r.states| && Down(r.states[j].w) && !Recovering(r.states[j])
    ensures k < j && Strands(r.states[k], r.steps[k])
    ensures forall m :: k < m <= j ==> Down(r.states[m].w) && !Recovering(r.states[m])
  {
    assert j > 0;
    k := j - 1;
    if Down(r.states[k].w) && !Recovering(r.states[k]) {
      k := DownIsRecovering(r, j - 1);
    } else {
      Reachable(r, k);
      assert IsStep(r.states[k], r.steps[k], r.states[j]);
      StrandsExactly(r.states[k], r.steps[k], r.states[j]);
    }
  }

  // down, not recovering, and no Connect on its way
  ghost predicate Stranded(s: State) {
    Down(s.w) && !Recovering(s) && forall t :: t in s.threads ==> !IsConnecting(s.threads[t])
  }

  // no part in any recovery
  predicate Idle(x: Thread) { !WillClaim(x) && !IsConnecting(x) && !HoldsFlag(x) }

  predicate StaysDown(e: Effect) {
    Down(e.w) && !e.w.sh.reconnecting && !WillClaim(e.th) && !IsConnecting(e.th) &&
    !WillClaim(e.spawned) && !IsConnecting(e.spawned)
  }

  lemma StaysDownCall(w: World, t: nat, th: Thread, a: CallAction)
    requires CallReady(w, th, a) && Down(w) && !w.sh.reconnecting && Idle(th)
    ensures StaysDown(CallEffect(w, t, th, a))
  {
  }

  lemma StaysDownTear(w: World, t: nat, u: nat, th: Thread, a: TearAction)
    requires TearReady(w, th, a) && Down(w) && !w.sh.reconnecting && Idle(th)
    ensures StaysDown(TearEffect(w, t, u, th, a))
  {
  }

  lemma StaysDownDial(w: World, th: Thread, a: DialAction)
    requires DialReady(w, th, a) && Down(w) && !w.sh.reconnecting && Idle(th) && !a.StartConnect?
    ensures StaysDown(DialEffect(w, th, a))
  {
  }

  lemma StaysDownStep(w: World, t: nat, u: nat, th: Thread, a: Action)
    requires Ready(w, th, a) && Down(w) && !w.sh.reconnecting && Idle(th)
    requires a != InDial(StartConnect) && a != InClose(CloseSwap)
    ensures StaysDown(EffectOf(w, t, u, th, a))
  {
    match a
    case InCall(b) => StaysDownCall(w, t, th, b);
    case InTear(b) => StaysDownTear(w, t, u, th, b);
    case InDial(b) => StaysDownDial(w, th, b);
    case _ =>
  }

  lemma StrandedStep(s: State, p: Step, s': State)
    requires IsStep(s, p, s') && Stranded(s) && FlagInv(s)
    requires p.a != InDial(StartConnect) && p.a != InClose(CloseSwap)
    ensures Stranded(s')
  {
    assert FlagOf(s.w, p.t, Point(s, p.t));
    StaysDownStep(s.w, p.t, p.u, Point(s, p.t), p.a);
    var e := EffectOf(s.w, p.t, p.u, Point(s, p.t), p.a);
    forall t | t in s'.threads ensures !WillClaim(s'.threads[t]) && !IsConnecting(s'.threads[t]) {
      assert s'.threads[t] == e.th || s'.threads[t] == e.spawned || (t in s.threads && s'.threads[t] == s.threads[t]);
    }
  }

  // nobody calls Connect or Close
  ghost predicate Quiet(r: Run, i: nat, j: nat) {
    i <= j <= |r.steps| &&
    forall k :: i <= k < j ==> r.steps[k].a != InDial(StartConnect) && r.steps[k].a != InClose(CloseSwap)
  }

  /** A stranded client stays without a connection until somebody calls Connect or Close. */
  lemma {:induction false} StrandedForGood(r: Run, i: nat, j: nat)
    requires IsRun(r) && Quiet(r, i, j) && Stranded(r.states[i])
    ensures Stranded(r.states[j])
  {
    if i < j {
      StrandedForGood(r, i, j - 1);
      StrandedOn(r, j - 1);
    }
  }

  lemma StrandedOn(r: Run, j: nat)
    requires IsRun(r) && j < |r.steps| && Stranded(r.states[j])
    requires r.steps[j].a != InDial(StartConnect) && r.steps[j].a != InClose(CloseSwap)
    ensures Stranded(r.states[j + 1])
  {
    Reachable(r, j);
    assert IsStep(r.states[j], r.steps[j], r.states[j + 1]);
    StrandedStep(r.states[j], r.steps[j], r.states[j + 1]);
  }

  // ---------- a run that strands the client ----------

  // some run ends in this state
  ghost predicate Reached(s: State) { exists r :: IsRun(r) && r.states[|r.states| - 1] == s }

  lemma GoesOn(s: State, t: nat, u: nat, a: Action) returns (s': State)
    requires Reached(s) && Enabled(s, t, u, a)
    ensures Reached(s') && s' == Do(s, t, u, a)
  {
    s' := Do(s, t, u, a);
    var r :| IsRun(r) && r.states[|r.states| - 1] == s;
    var r' := Run(r.states + [s'], r.steps + [Step(t, u, a)]);
    forall i | 0 <= i < |r'.steps| ensures IsStep(r'.states[i], r'.steps[i], r'.states[i + 1]) {
      if i < |r.steps| { assert IsStep(r.states[i], r.steps[i], r.states[i + 1]); }
    }
    assert IsRun(r') && r'.states[|r'.states| - 1] == s';
  }

  lemma TearsOn(s: State, t: nat, a: TearAction) returns (s': State)
    requires Reached(s) && t in s.threads && TearReady(s.w, s.threads[t], a) && !a.SpawnLoop?
    ensures var e := TearEffect(s.w, t, t, s.threads[t], a); Reached(s') && s' == State(e.w, s.threads[t := e.th])
  {
    s' := GoesOn(s, t, t, InTear(a));
  }

  lemma DialsOn(s: State, t: nat, a: DialAction) returns (s': State)
    requires Reached(s) && t in s.threads && DialReady(s.w, s.threads[t], a)
    requires !a.StartConnect? && !a.StartRead? && !a.StartPing?
    ensures var e := DialEffect(s.w, s.threads[t], a); Reached(s') && s' == State(e.w, s.threads[t := e.th])
  {
    s' := GoesOn(s, t, t, InDial(a));
  }

  lemma ReachedIsGood(s: State)
    requires Reached(s)
    ensures Inv(s)
  {
    var r :| IsRun(r) && r.states[|r.states| - 1] == s;
    Reachable(r, |r.states| - 1);
  }

  // what the parts of the run below leave alone
  predicate SameBut(sh: Shared, sh': Shared) {
    sh'.closed == sh.closed && sh'.reconnecting == sh.reconnecting && sh'.pending == sh.pending
  }

  // a dial succeeds and starts its read loop
  lemma Connects(s: State, t: nat, u: nat, origin: Dialer) returns (s': State)
    requires Reached(s) && !s.w.sh.closed && u !in s.threads && t in s.threads && s.threads[t] == Dialing(origin)
    ensures Reached(s') && SameBut(s.w.sh, s'.w.sh)
    ensures s'.w.sh.conn == Some(s.w.sh.nextConn) && s'.w.sh.nextConn == s.w.sh.nextConn + 1
    ensures s'.threads == s.threads[t := ReadStarted(origin, s.w.sh.nextConn)][u := Reading(s.w.sh.nextConn)]
  {
    s' := DialsOn(s, t, DialCheck);
    s' := DialsOn(s', t, InstallConn);
    s' := GoesOn(s', t, u, InDial(StartRead));
  }

  // a read loop fails and takes its connection
  lemma LosesConnection(s: State, t: nat, c: nat) returns (s': State)
    requires Reached(s) && s.w.sh.conn == Some(c) && t in s.threads && s.threads[t] == Reading(c)
    ensures Reached(s') && SameBut(s.w.sh, s'.w.sh) && s'.w.sh.conn.None? && s'.w.sh.nextConn == s.w.sh.nextConn
    ensures s'.threads == s.threads[t := HangingUp(c, Exit)]
  {
    ReachedIsGood(s);
    s' := GoesOn(s, t, t, InRead(TransportFails));
    s' := TearsOn(s', t, DisconnectLock);
  }

  // without pending requests the teardown comes to the flag at once
  lemma TearsDown(s: State, t: nat, c: nat) returns (s': State)
    requires Reached(s) && !s.w.sh.closed && s.w.sh.pending == {}
    requires t in s.threads && s.threads[t] == HangingUp(c, Exit)
    ensures Reached(s') && SameBut(s.w.sh, s'.w.sh) && s'.w.sh.conn == s.w.sh.conn
    ensures s'.w.sh.nextConn == s.w.sh.nextConn && s'.threads == s.threads[t := Claiming(Exit)]
  {
    s' := TearsOn(s, t, HangUp);
    assert s'.threads == s.threads[t := Sweeping(c, {}, Exit)];
    s' := TearsOn(s', t, SweepDone);
    assert s'.threads == s.threads[t := Restarting(Exit)];
    s' := TearsOn(s', t, CheckClosed);
  }

  // the initial state, and one goroutine in Connect
  lemma Begins() returns (s: State)
    ensures Reached(s) && s.w.sh == Initial && s.threads == map[0 := Dialing(FromConnect)]
  {
    var w := World(Initial, History(map[], {}, map[], map[], map[], None, None, false), true, 1);
    s := State(w, map[]);
    assert IsRun(Run([s], []));
    s := GoesOn(s, 0, 0, InDial(StartConnect));
  }

  lemma FirstConnects() returns (s: State)
    ensures Reached(s) && !s.w.sh.closed && !s.w.sh.reconnecting && s.w.sh.pending == {}
    ensures s.w.sh.conn == Some(0) && s.w.sh.nextConn == 1
    ensures s.threads == map[0 := ReadStarted(FromConnect, 0), 1 := Reading(0)]
  {
    s := Begins();
    s := Connects(s, 0, 1, FromConnect);
  }

  // a first connection is made and lost
  lemma FirstIsLost() returns (s: State)
    ensures Reached(s) && !s.w.sh.closed && !s.w.sh.reconnecting && s.w.sh.pending == {}
    ensures s.w.sh.conn.None? && s.w.sh.nextConn == 1
    ensures s.threads == map[0 := ReadStarted(FromConnect, 0), 1 := Claiming(Exit)]
  {
    s := FirstConnects();
    s := LosesConnection(s, 1, 0);
    s := TearsDown(s, 1, 0);
  }

  // a reconnect loop starts and connects again
  lemma LoopConnects() returns (s: State)
    ensures Reached(s) && !s.w.sh.closed && s.w.sh.reconnecting && s.w.sh.pending == {}
    ensures s.w.sh.conn == Some(1) && s.w.sh.nextConn == 2
    ensures s.threads ==
            map[0 := ReadStarted(FromConnect, 0), 1 := Finished, 2 := ReadStarted(FromLoop, 1), 3 := Reading(1)]
  {
    s := FirstIsLost();
    s := TearsOn(s, 1, Claim);
    s := GoesOn(s, 1, 2, InTear(SpawnLoop));
    s := DialsOn(s, 2, LoopDial);
    s := Connects(s, 2, 3, FromLoop);
  }

  /**
   A run that strands the client: the connection that a reconnect loop has made fails before the
   loop has cleared its flag.
   */
  lemma LostWhileReconnecting() returns (s: State)
    ensures Reached(s) && Stranded(s)
  {
    s := LoopConnects();
    s := LosesConnection(s, 3, 1);
    s := TearsDown(s, 3, 1);
    s := TearsOn(s, 3, Claim);
    s := GoesOn(s, 2, 4, InDial(StartPing));
    s := DialsOn(s, 2, LoopStop);
  }

  // ---------- connections of a closed client ----------

  // closed, without a connection, and no dial is past its look at `closed`
  ghost predicate ShutDown(s: State) {
    s.w.sh.closed && s.w.sh.conn.None? && forall t :: t in s.threads ==> !s.threads[t].Connecting?
  }

  lemma InstallsOnlyConnecting(w: World, t: nat, u: nat, th: Thread, a: Action)
    requires Ready(w, th, a) && !th.Connecting? && w.sh.conn.None?
    ensures EffectOf(w, t, u, th, a).w.sh.conn.None?
  {
    match a
    case InCall(b) => CallInstallsNothing(w, t, th, b);
    case InTear(b) => TearInstallsNothing(w, t, u, th, b);
    case _ =>
  }

  lemma ShutDownStep(s: State, p: Step, s': State)
    requires IsStep(s, p, s') && ShutDown(s)
    ensures ShutDown(s')
  {
    var th := Point(s, p.t);
    MovesStep(s.w, p.t, p.u, th, p.a);
    InstallsOnlyConnecting(s.w, p.t, p.u, th, p.a);
    match p.a
    case InDial(b) => DialsOnlyWhileOpen(s.w, th, b);
    case _ => OthersDoNotDial(s.w, p.t, p.u, th, p.a);
  }

  /** A closed client never has a connection again, unless a dial was past its look at `closed`. */
  lemma {:induction false} ShutDownForGood(r: Run, i: nat, j: nat)
    requires IsRun(r) && i <= j < |r.states| && ShutDown(r.states[i])
    ensures ShutDown(r.states[j])
  {
    if i < j {
      ShutDownForGood(r, i, j - 1);
      ShutDownStep(r.states[j - 1], r.steps[j - 1], r.states[j]);
    }
  }

  /** Such a dial can always still connect the client, closed or not. */
  lemma LateDialConnects(s: State, t: nat) returns (s': State)
    requires Reached(s) && t in s.threads && s.threads[t].Connecting?
    ensures Reached(s') && s'.w.sh.closed == s.w.sh.closed && s'.w.sh.conn.Some?
  {
    s' := DialsOn(s, t, InstallConn);
  }

  /** A run that ends with a connection after Close has returned. */
  lemma ConnectedAfterClose() returns (s: State)
    ensures Reached(s) && s.w.sh.closed && s.w.h.closeRan && s.w.sh.conn.Some?
  {
    s := Begins();
    s := DialsOn(s, 0, DialCheck);
    s := GoesOn(s, 1, 1, InClose(CloseSwap));
    s := GoesOn(s, 1, 1, InClose(CloseDone));
    s := GoesOn(s, 1, 1, InClose(CloseLock));
    s := DialsOn(s, 0, InstallConn);
  }
}
