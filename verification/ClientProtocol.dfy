/**
 The guarantees of the client over every run: any number of goroutines, any
 interleaving of their atomic sections, any behaviour of the server.
 */
module ClientProtocol {
  import opened Basics
  import opened ClientCore
  import opened ClientSteps
  import opened ClientInvariants

  datatype Step = Step(t: nat, u: nat, a: Action)

  // A run: states, and the step that leads from each state to the next.
  datatype Run = Run(states: seq<State>, steps: seq<Step>)

  ghost predicate IsRun(r: Run) {
    && |r.states| == |r.steps| + 1
    && Init(r.states[0])
    && forall i :: 0 <= i < |r.steps| ==> IsStep(r.states[i], r.steps[i], r.states[i + 1])
  }

  predicate IsStep(s: State, p: Step, s': State) {
    Enabled(s, p.t, p.u, p.a) && s' == Do(s, p.t, p.u, p.a)
  }

  ghost predicate Inv(s: State) {
    IdInv(s) && ReplyInv(s) && ConnInv(s) && SweepInv(s) && NameInv(s) && FlagInv(s) && BudgetInv(s) && PermitInv(s)
  }

  lemma InitInv(s: State)
    requires Init(s)
    ensures Inv(s)
  {
    assert Callers(s.threads) == {};
  }

  lemma InvKept(s: State, t: nat, u: nat, a: Action)
    requires Inv(s) && Enabled(s, t, u, a)
    ensures Inv(Do(s, t, u, a))
  {
    IdKept(s, t, u, a);
    ReplyKept(s, t, u, a);
    ConnKept(s, t, u, a);
    SweepKept(s, t, u, a);
    NameKept(s, t, u, a);
    FlagKept(s, t, u, a);
    BudgetKeptBy(s, t, u, a);
    PermitKept(s, t, u, a);
  }

  lemma {:induction false} Reachable(r: Run, i: nat)
    requires IsRun(r) && i < |r.states|
    ensures Inv(r.states[i])
  {
    if i == 0 {
      InitInv(r.states[0]);
    } else {
      Reachable(r, i - 1);
      var p := r.steps[i - 1];
      assert IsStep(r.states[i - 1], p, r.states[i]);
      InvKept(r.states[i - 1], p.t, p.u, p.a);
    }
  }

  /**
   No reply is lost: as long as a call waits, its request is registered, or its channel
   holds a message, or the read loop that removed it is about to send to that channel.
   */
  lemma NoReplyLost(r: Run, i: nat, t: nat)
    requires IsRun(r) && i < |r.states| && t in r.states[i].threads && Expecting(r.states[i].threads[t])
    ensures var s, id := r.states[i], r.states[i].threads[t].id;
            || id in s.w.sh.pending
            || id in s.w.sh.slots
            || exists reader :: reader in s.threads && IsReplying(s.threads[reader], id)
  {
    Reachable(r, i);
    var s, id := r.states[i], r.states[i].threads[t].id;
    assert IdOf(s.w, t, Point(s, t));
    if id in s.w.h.inHand {
      var reader := s.w.h.inHand[id];
      assert NameOf(s.w, reader, Point(s, reader));
    }
  }

  /**
   No reply is crossed: what a call receives is the connection-lost error or a response
   that carries its own ID. When the server answers requests only on the connection
   they were sent on, the response came over the connection this call used, even while
   read loops of older connections are still alive.
   */
  lemma NoReplyCrossed(r: Run, i: nat, t: nat)
    requires IsRun(r) && i < |r.states| && t in r.states[i].threads
    requires var x := r.states[i].threads[t]; (x.Leaving? || x.Judging?) && x.got.Some?
    ensures var x := r.states[i].threads[t];
            match x.got.value
            case ConnectionLost => true
            case Reply(id, via) => id == x.id && (r.states[i].w.honest ==> via == x.conn)
  {
    Reachable(r, i);
    var s := r.states[i];
    assert IdOf(s.w, t, Point(s, t)) && ReplyOf(s.w, t, Point(s, t));
  }

  /** Two calls never share a request ID, whatever connections they use. */
  lemma IdsAreUnique(r: Run, i: nat, t: nat, t': nat)
    requires IsRun(r) && i < |r.states| && t in r.states[i].threads && t' in r.states[i].threads
    requires HasId(r.states[i].threads[t]) && HasId(r.states[i].threads[t'])
    requires r.states[i].threads[t].id == r.states[i].threads[t'].id
    ensures t == t'
  {
    Reachable(r, i);
    var s := r.states[i];
    assert IdOf(s.w, t, Point(s, t)) && IdOf(s.w, t', Point(s, t'));
  }

  /** No `connDone` channel is ever closed twice, although Close leaves connDone set. */
  lemma DoneChannelsClosedOnce(r: Run, i: nat)
    requires IsRun(r) && i < |r.states|
    ensures !r.states[i].w.sh.panicked
  {
    Reachable(r, i);
  }

  // Goroutine t is about to enter the locked section of handleDisconnect(c).
  predicate EntersDisconnect(s: State, p: Step, c: nat) {
    p.a == InTear(DisconnectLock) && p.t in s.threads && s.threads[p.t].Disconnecting? && s.threads[p.t].conn == c
  }

  /** A disconnect for a connection that is no longer current changes no shared field. */
  lemma StaleDisconnectChangesNothing(s: State, p: Step, c: nat)
    requires EntersDisconnect(s, p, c) && Enabled(s, p.t, p.u, p.a) && s.w.sh.conn != Some(c)
    ensures Do(s, p.t, p.u, p.a).w == s.w
    ensures Do(s, p.t, p.u, p.a).threads == s.threads[p.t := After(s.threads[p.t].ret)]
  {
  }

  // connection numbers only grow, only a fresh one becomes current, and Close is for good
  predicate Moves(w: World, w': World) {
    && w'.sh.conn in {w.sh.conn, None, Some(w.sh.nextConn)} && w.sh.nextConn <= w'.sh.nextConn
    && (w.sh.closed ==> w'.sh.closed)
  }

  lemma MovesCall(w: World, t: nat, th: Thread, a: CallAction)
    requires CallReady(w, th, a)
    ensures Moves(w, CallEffect(w, t, th, a).w)
  {
  }

  lemma MovesRead(w: World, t: nat, th: Thread, a: ReadAction)
    requires ReadReady(w, th, a)
    ensures Moves(w, ReadEffect(w, t, th, a).w)
  {
  }

  lemma MovesTear(w: World, t: nat, u: nat, th: Thread, a: TearAction)
    requires TearReady(w, th, a)
    ensures Moves(w, TearEffect(w, t, u, th, a).w)
  {
  }

  lemma MovesDial(w: World, th: Thread, a: DialAction)
    requires DialReady(w, th, a)
    ensures Moves(w, DialEffect(w, th, a).w)
  {
  }

  lemma MovesClose(w: World, t: nat, th: Thread, a: CloseAction)
    requires CloseReady(th, a)
    ensures Moves(w, CloseEffect(w, t, th, a).w)
  {
  }

  lemma MovesStep(w: World, t: nat, u: nat, th: Thread, a: Action)
    requires Ready(w, th, a)
    ensures Moves(w, EffectOf(w, t, u, th, a).w)
  {
    match a
    case InCall(b) => MovesCall(w, t, th, b);
    case InRead(b) => MovesRead(w, t, th, b);
    case InTear(b) => MovesTear(w, t, u, th, b);
    case InDial(b) => MovesDial(w, th, b);
    case InClose(b) => MovesClose(w, t, th, b);
  }

  lemma {:induction false} NeverCurrentAgain(r: Run, i: nat, j: nat, c: nat)
    requires IsRun(r) && i <= j < |r.states|
    requires r.states[i].w.sh.conn != Some(c) && c < r.states[i].w.sh.nextConn
    ensures r.states[j].w.sh.conn != Some(c) && c < r.states[j].w.sh.nextConn
  {
    if i < j {
      NeverCurrentAgain(r, i, j - 1, c);
      var p := r.steps[j - 1];
      assert IsStep(r.states[j - 1], p, r.states[j]);
      MovesStep(r.states[j - 1].w, p.t, p.u, Point(r.states[j - 1], p.t), p.a);
    }
  }

  /**
   However many goroutines are rejected or fail on one connection, only the first to
   reach handleDisconnect tears it down: every later one finds it gone and changes nothing.
   */
  lemma TornDownOnce(r: Run, i: nat, j: nat, c: nat)
    requires IsRun(r) && i < j < |r.steps|
    requires EntersDisconnect(r.states[i], r.steps[i], c) && EntersDisconnect(r.states[j], r.steps[j], c)
    requires r.states[i].w.sh.conn == Some(c)
    ensures c in r.states[i + 1].w.sh.doneClosed && c !in r.states[i].w.sh.doneClosed
    ensures r.states[j].w.sh.conn != Some(c) && r.states[j + 1].w == r.states[j].w
  {
    Reachable(r, i);
    var p, q := r.steps[i], r.steps[j];
    assert IsStep(r.states[i], p, r.states[i + 1]);
    assert IsStep(r.states[j], q, r.states[j + 1]);
    assert r.states[i + 1].w.sh.nextConn == r.states[i].w.sh.nextConn > c;
    NeverCurrentAgain(r, i + 1, j, c);
    StaleDisconnectChangesNothing(r.states[j], q, c);
  }

  /**
   No caller is forgotten: while a waiting request of a torn connection is still
   registered, a goroutine is tearing that connection down and has this request ahead.
   */
  lemma NoCallerForgotten(r: Run, i: nat, t: nat)
    requires IsRun(r) && i < |r.states| && t in r.states[i].threads
    requires var s, x := r.states[i], r.states[i].threads[t];
             x.Waiting? && x.conn in s.w.h.torn && x.id in s.w.sh.pending
    ensures var s, x := r.states[i], r.states[i].threads[t];
            exists g :: g in s.threads && WillFail(s.threads[g], x.conn, x.id)
  {
    Reachable(r, i);
    var s, x := r.states[i], r.states[i].threads[t];
    var g := s.w.h.torn[x.conn];
    assert SweepOf(s.w, t, Point(s, t)) && NameOf(s.w, g, Point(s, g)) && SweepOf(s.w, g, Point(s, g));
    assert WillFail(Point(s, g), x.conn, x.id);
  }

  // The goroutine tears `conn` down and has still to fail request `id`.
  predicate WillFail(g: Thread, conn: nat, id: nat) {
    || IsHangingUp(g, conn)
    || (IsSweeping(g, conn) && (id in g.todo || (!g.Sweeping? && g.id == id)))
  }

  /** Once teardowns and read loops are at rest, every waiting call of a torn connection has its answer. */
  lemma TornCallsAreAnswered(r: Run, i: nat, t: nat)
    requires IsRun(r) && i < |r.states| && t in r.states[i].threads
    requires var x := r.states[i].threads[t]; x.Waiting? && x.conn in r.states[i].w.h.torn
    requires forall g :: g in r.states[i].threads ==>
               var x := r.states[i].threads[g]; !x.HangingUp? && !InSweep(x) && !x.Replying?
    ensures r.states[i].threads[t].id in r.states[i].w.sh.slots
  {
    NoReplyLost(r, i, t);
    if r.states[i].threads[t].id in r.states[i].w.sh.pending {
      NoCallerForgotten(r, i, t);
    }
  }

  /** There is one reconnect loop while the flag is set and none otherwise. */
  lemma SingleReconnectLoop(r: Run, i: nat)
    requires IsRun(r) && i < |r.states|
    ensures var s := r.states[i];
            |FlagHolders(s.threads)| == if s.w.sh.reconnecting then 1 else 0
  {
    Reachable(r, i);
    var s := r.states[i];
    forall v: nat ensures v in FlagHolders(s.threads) <==> s.w.h.flagOwner == Some(v) {
      assert FlagOf(s.w, v, Point(s, v));
    }
    if s.w.sh.reconnecting {
      assert FlagHolders(s.threads) == {s.w.h.flagOwner.value};
    } else {
      assert FlagHolders(s.threads) == {};
    }
  }

  ghost function FlagHolders(threads: map<nat, Thread>): set<nat> {
    set t | t in threads && HoldsFlag(threads[t])
  }

  /** Never more than MaxConcurrentCalls Calls hold the semaphore, and its count is exact. */
  lemma ConcurrentCallsBounded(r: Run, i: nat)
    requires IsRun(r) && i < |r.states|
    ensures r.states[i].w.sh.permits == |Callers(r.states[i].threads)| <= r.states[i].w.maxCalls
  {
    Reachable(r, i);
  }

  /** Every Call, however it interleaves, sees at most two rejections and tears down at most one connection. */
  lemma ReauthenticationBounded(r: Run, i: nat, t: nat)
    requires IsRun(r) && i < |r.states| && t in r.states[i].threads
    ensures var x := r.states[i].threads[t];
            && (x.CallEnded? ==> x.b.rejections <= 2 && x.b.teardowns <= 1)
            && (x.CallTop? || HasId(x) ==> x.b.rejections <= 1 && x.b.teardowns <= 1)
  {
    Reachable(r, i);
    assert BudgetKept(Point(r.states[i], t));
  }
}
