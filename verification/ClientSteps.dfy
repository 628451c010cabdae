/**
 All interleavings of the client's goroutines. A state is the shared fields plus
 the program point of every goroutine; an action is one atomic section executed by
 one goroutine. `Enabled` says when an action can happen and `Do` what it does.

 The environment is adversarial: the server may answer any ID over any socket at any
 time, reads, pings and writes may fail, contexts may end, and any number of Call,
 Connect and Close goroutines may start. With `honest` set, a response frame only
 answers a request that was issued on the same connection, as section 5 of the
 JSON-RPC 2.0 specification asks of a server.

 `History` is bookkeeping that no goroutine reads. It lets each invariant be stated about
 the shared fields and about one goroutine at a time.
 */
module ClientSteps {
  import opened Basics
  import opened ClientCore

  // How often this Call has been rejected as unauthenticated and has torn a connection down.
  datatype Budget = Budget(reauthAttempted: bool, rejections: nat, teardowns: nat)

  // What a goroutine does after handleDisconnect returns.
  datatype Return = Exit | Resume(budget: Budget)

  datatype Dialer = FromConnect | FromLoop

  datatype Thread =
    // Call and callOn
    | CallTop(b: Budget)                                                     // top of Call's loop
    | HasConn(b: Budget, conn: nat)                                          // loaded c.conn
    | Registered(b: Budget, id: nat, conn: nat)                              // in pending, writing the request
    | Waiting(b: Budget, id: nat, conn: nat)                                 // in the select of callOn
    | Leaving(b: Budget, id: nat, conn: nat, got: Option<Message>)           // deferred pending.Delete still to run
    | Judging(b: Budget, id: nat, conn: nat, got: Option<Message>)           // callOn returned to Call
    | CallEnded(b: Budget)                                                   // permit released
    // readLoop and pingLoop
    | Reading(conn: nat)
    | Replying(conn: nat, id: nat)                                           // removed id from pending, about to send
    | Pinging(conn: nat)
    // handleDisconnect
    | Disconnecting(conn: nat, ret: Return)
    | HangingUp(conn: nat, ret: Return)                                      // left the lock, about to close the socket
    | Sweeping(conn: nat, todo: set<nat>, ret: Return)                       // inside pending.Range
    | Failing(conn: nat, todo: set<nat>, id: nat, ret: Return)               // Range handed over id, about to send
    | Dropping(conn: nat, todo: set<nat>, id: nat, ret: Return)              // sent, about to pending.Delete
    | Restarting(ret: Return)                                                // about to load closed
    | Claiming(ret: Return)                                                  // about to compare-and-swap reconnecting
    | Spawning(ret: Return)                                                  // won, about to start reconnectLoop
    // reconnectLoop and dial
    | LoopTop
    | LoopExit                                                               // about to clear reconnecting
    | Dialing(origin: Dialer)
    | Connecting(origin: Dialer)
    | Installed(origin: Dialer, conn: nat)                                       // about to start readLoop
    | ReadStarted(origin: Dialer, conn: nat)                                     // about to start pingLoop
    // Close
    | ClosingDone | ClosingLock
    | Finished

  datatype Request = Request(caller: nat, conn: nat)

  datatype History = History(
    issued: map<nat, Request>,      // request ID -> who issued it on which connection
    expecting: set<nat>,            // request IDs whose goroutine still needs an answer
    inHand: map<nat, nat>,          // request ID -> read loop that removed it and is about to send
    torn: map<nat, nat>,            // connection -> goroutine that tore it down
    sweep: map<nat, set<nat>>,      // torn connection -> requests its sweep has still to fail
    flagOwner: Option<nat>,         // goroutine responsible for clearing reconnecting
    closer: Option<nat>,            // goroutine that won Close
    closeRan: bool)                 // Close's critical section has run

  // Everything but the goroutines: shared fields, bookkeeping, and two constants.
  datatype World = World(sh: Shared, h: History, honest: bool, maxCalls: nat)

  datatype State = State(w: World, threads: map<nat, Thread>)

  datatype Verdict = Success | Rejected | Retryable | Fatal

  datatype CallAction =
    | StartCall | LoadConn | GiveUp | RegisterRequest | WriteOk | WriteFails | Receive | ContextEnds | Unregister
    | Judge(v: Verdict)

  datatype ReadAction = ReadFrame(id: nat) | Deliver | StopLoop | TransportFails

  datatype TearAction =
    | DisconnectLock | HangUp | Visit(id: nat) | SendLost | DropPending | SweepDone | CheckClosed | Claim | SpawnLoop

  datatype DialAction =
    | StartConnect | LoopQuit(exhausted: bool) | LoopDial | LoopStop | DialCheck | DialFails(transient: bool)
    | InstallConn | StartRead | StartPing

  datatype CloseAction = CloseSwap | CloseDone | CloseLock

  datatype Action =
    | InCall(call: CallAction) | InRead(read: ReadAction) | InTear(tear: TearAction) | InDial(dial: DialAction)
    | InClose(close: CloseAction)

  predicate Init(s: State) {
    s.w.sh == Initial && s.threads == map[] &&
    s.w.h == History(map[], {}, map[], map[], map[], None, None, false)
  }

  function After(ret: Return): Thread {
    if ret.Exit? then Finished else CallTop(ret.budget)
  }

  function DialFailed(origin: Dialer, transient: bool): Thread {
    if origin.FromLoop? then LoopTop else if transient then Claiming(Exit) else Finished
  }

  // Goroutines that start on their own begin as `Finished`.
  predicate IsStart(a: Action) {
    (a.InCall? && a.call.StartCall?) || (a.InDial? && a.dial.StartConnect?) || (a.InClose? && a.close.CloseSwap?)
  }

  predicate Spawns(a: Action) {
    (a.InTear? && a.tear.SpawnLoop?) || (a.InDial? && (a.dial.StartRead? || a.dial.StartPing?))
  }

  // What one action does: the new shared fields and bookkeeping, the acting goroutine's
  // next program point, and the program point of the goroutine it starts, if any.
  datatype Effect = Effect(w: World, th: Thread, spawned: Thread)

  // -- Call and callOn

  predicate CallReady(w: World, th: Thread, a: CallAction) {
    var sh := w.sh;
    match a
    case StartCall => th.Finished? && sh.permits < w.maxCalls
    case LoadConn => th.CallTop? && sh.conn.Some?
    case GiveUp => th.CallTop?
    case RegisterRequest => th.HasConn?
    case WriteOk => th.Registered? && th.conn !in sh.hungUp
    case WriteFails => th.Registered?
    case Receive => th.Waiting? && th.id in sh.slots
    case ContextEnds => th.Waiting?
    case Unregister => th.Leaving?
    // only a response can be a success or a rejection; a retry needs a lost connection
    case Judge(v) =>
      th.Judging? &&
      (v.Success? || v.Rejected? ==> th.got.Some? && th.got.value.Reply?) &&
      (v.Retryable? ==> sh.conn.None?)
  }

  function EndCall(w: World, b: Budget): Effect {
    Effect(w.(sh := w.sh.(permits := w.sh.permits - 1)), CallEnded(b), Finished)
  }

  function CallEffect(w: World, t: nat, th: Thread, a: CallAction): Effect
    requires CallReady(w, th, a)
  {
    var sh, h := w.sh, w.h;
    match a
    case StartCall => Effect(w.(sh := sh.(permits := sh.permits + 1)), CallTop(Budget(false, 0, 0)), Finished)
    case LoadConn => Effect(w, HasConn(th.b, sh.conn.value), Finished)
    case GiveUp => EndCall(w, th.b)
    case RegisterRequest =>
      var id := sh.nextId + 1;
      var h' := h.(issued := h.issued[id := Request(t, th.conn)], expecting := h.expecting + {id});
      Effect(w.(sh := Register(sh), h := h'), Registered(th.b, id, th.conn), Finished)
    case WriteOk => Effect(w, Waiting(th.b, th.id, th.conn), Finished)
    case WriteFails =>
      Effect(w.(h := h.(expecting := h.expecting - {th.id})), Leaving(th.b, th.id, th.conn, None), Finished)
    case Receive =>
      Effect(w.(sh := Take(sh, th.id), h := h.(expecting := h.expecting - {th.id})),
             Leaving(th.b, th.id, th.conn, Some(sh.slots[th.id])), Finished)
    case ContextEnds =>
      Effect(w.(h := h.(expecting := h.expecting - {th.id})), Leaving(th.b, th.id, th.conn, None), Finished)
    case Unregister => Effect(w.(sh := Forget(sh, th.id)), Judging(th.b, th.id, th.conn, th.got), Finished)
    case Judge(v) =>
      if v.Rejected? then
        var b := th.b.(rejections := th.b.rejections + 1);
        if b.reauthAttempted then EndCall(w, b)
        else Effect(w, Disconnecting(th.conn, Resume(b.(reauthAttempted := true))), Finished)
      else if v.Retryable? then Effect(w, CallTop(th.b), Finished)
      else EndCall(w, th.b)
  }

  // -- readLoop and pingLoop

  predicate ReadReady(w: World, th: Thread, a: ReadAction) {
    var sh, h := w.sh, w.h;
    match a
    case ReadFrame(id) => th.Reading? && (w.honest ==> id in h.issued && h.issued[id].conn == th.conn)
    case Deliver => th.Replying?
    case StopLoop => (th.Reading? || th.Pinging?) && th.conn in sh.doneClosed
    case TransportFails => (th.Reading? || th.Pinging?) && th.conn !in sh.doneClosed
  }

  function ReadEffect(w: World, t: nat, th: Thread, a: ReadAction): Effect
    requires ReadReady(w, th, a)
  {
    var sh, h := w.sh, w.h;
    match a
    case ReadFrame(id) =>
      if id in sh.pending
      then Effect(w.(sh := Forget(sh, id), h := h.(inHand := h.inHand[id := t])), Replying(th.conn, id), Finished)
      else Effect(w, th, Finished)
    case Deliver =>
      Effect(w.(sh := TrySend(sh, th.id, Reply(th.id, th.conn)), h := h.(inHand := h.inHand - {th.id})),
             Reading(th.conn), Finished)
    case StopLoop => Effect(w, Finished, Finished)
    case TransportFails => Effect(w, Disconnecting(th.conn, Exit), Finished)
  }

  // -- handleDisconnect

  predicate TearReady(w: World, th: Thread, a: TearAction) {
    var sh := w.sh;
    match a
    case DisconnectLock => th.Disconnecting?
    case HangUp => th.HangingUp?
    case Visit(id) => th.Sweeping? && id in sh.pending
    case SendLost => th.Failing?
    case DropPending => th.Dropping?
    // Range has visited every key that stayed in the map throughout
    case SweepDone => th.Sweeping? && th.todo !! sh.pending
    case CheckClosed => th.Restarting?
    case Claim => th.Claiming?
    case SpawnLoop => th.Spawning?
  }

  function TearEffect(w: World, t: nat, u: nat, th: Thread, a: TearAction): Effect
    requires TearReady(w, th, a)
  {
    var sh, h := w.sh, w.h;
    match a
    case DisconnectLock =>
      if sh.conn != Some(th.conn) then Effect(w, After(th.ret), Finished)
      else
        var ret := if th.ret.Exit? then Exit
                   else Resume(th.ret.budget.(teardowns := th.ret.budget.teardowns + 1));
        Effect(w.(sh := Disconnect(sh, th.conn), h := h.(torn := h.torn[th.conn := t])),
               HangingUp(th.conn, ret), Finished)
    case HangUp =>
      Effect(w.(sh := sh.(hungUp := sh.hungUp + {th.conn}), h := h.(sweep := h.sweep[th.conn := sh.pending])),
             Sweeping(th.conn, sh.pending, th.ret), Finished)
    case Visit(id) =>
      Effect(w.(h := h.(sweep := h.sweep[th.conn := th.todo + {id}])),
             Failing(th.conn, th.todo - {id}, id, th.ret), Finished)
    case SendLost =>
      Effect(w.(sh := TrySend(sh, th.id, ConnectionLost)), Dropping(th.conn, th.todo, th.id, th.ret), Finished)
    case DropPending =>
      Effect(w.(sh := Forget(sh, th.id), h := h.(sweep := h.sweep[th.conn := th.todo])),
             Sweeping(th.conn, th.todo, th.ret), Finished)
    case SweepDone => Effect(w.(h := h.(sweep := h.sweep - {th.conn})), Restarting(th.ret), Finished)
    case CheckClosed => Effect(w, if sh.closed then After(th.ret) else Claiming(th.ret), Finished)
    case Claim =>
      if sh.reconnecting then Effect(w, After(th.ret), Finished)
      else Effect(w.(sh := sh.(reconnecting := true), h := h.(flagOwner := Some(t))), Spawning(th.ret), Finished)
    case SpawnLoop => Effect(w.(h := h.(flagOwner := Some(u))), After(th.ret), LoopTop)
  }

  // -- Connect, reconnectLoop and dial

  predicate DialReady(w: World, th: Thread, a: DialAction) {
    var sh := w.sh;
    match a
    case StartConnect => th.Finished?
    // a loop may be limited to a number of attempts
    case LoopQuit(exhausted) => th.LoopTop? && (exhausted || sh.closed || sh.conn.Some?)
    case LoopDial => th.LoopTop? && !sh.closed && sh.conn.None?
    case LoopStop => th.LoopExit?
    case DialCheck => th.Dialing?
    case DialFails(_) => th.Connecting?
    case InstallConn => th.Connecting?
    case StartRead => th.Installed?
    case StartPing => th.ReadStarted?
  }

  function DialEffect(w: World, th: Thread, a: DialAction): Effect
    requires DialReady(w, th, a)
  {
    var sh, h := w.sh, w.h;
    match a
    case StartConnect => Effect(w, Dialing(FromConnect), Finished)
    case LoopQuit(_) => Effect(w, LoopExit, Finished)
    case LoopDial => Effect(w, Dialing(FromLoop), Finished)
    case LoopStop => Effect(w.(sh := sh.(reconnecting := false), h := h.(flagOwner := None)), Finished, Finished)
    case DialCheck =>
      if sh.closed then Effect(w, DialFailed(th.origin, false), Finished)
      // the login request takes an ID
      else Effect(w.(sh := sh.(nextId := sh.nextId + 1)), Connecting(th.origin), Finished)
    case DialFails(transient) => Effect(w, DialFailed(th.origin, transient), Finished)
    case InstallConn => Effect(w.(sh := Install(sh)), Installed(th.origin, sh.nextConn), Finished)
    case StartRead => Effect(w, ReadStarted(th.origin, th.conn), Reading(th.conn))
    case StartPing => Effect(w, if th.origin.FromLoop? then LoopExit else Finished, Pinging(th.conn))
  }

  // -- Close

  predicate CloseReady(th: Thread, a: CloseAction) {
    match a
    case CloseSwap => th.Finished?
    case CloseDone => th.ClosingDone?
    case CloseLock => th.ClosingLock?
  }

  function CloseEffect(w: World, t: nat, th: Thread, a: CloseAction): Effect
    requires CloseReady(th, a)
  {
    var sh, h := w.sh, w.h;
    match a
    case CloseSwap =>
      if sh.closed then Effect(w, Finished, Finished)
      else Effect(w.(sh := sh.(closed := true), h := h.(closer := Some(t))), ClosingDone, Finished)
    case CloseDone => Effect(w, ClosingLock, Finished)
    case CloseLock => Effect(w.(sh := CloseConnection(sh), h := h.(closeRan := true)), Finished, Finished)
  }

  predicate Ready(w: World, th: Thread, a: Action) {
    match a
    case InCall(c) => CallReady(w, th, c)
    case InRead(r) => ReadReady(w, th, r)
    case InTear(d) => TearReady(w, th, d)
    case InDial(d) => DialReady(w, th, d)
    case InClose(c) => CloseReady(th, c)
  }

  function EffectOf(w: World, t: nat, u: nat, th: Thread, a: Action): Effect
    requires Ready(w, th, a)
  {
    match a
    case InCall(c) => CallEffect(w, t, th, c)
    case InRead(r) => ReadEffect(w, t, th, r)
    case InTear(d) => TearEffect(w, t, u, th, d)
    case InDial(d) => DialEffect(w, th, d)
    case InClose(c) => CloseEffect(w, t, th, c)
  }

  function Point(s: State, t: nat): Thread {
    if t in s.threads then s.threads[t] else Finished
  }

  // Goroutine `t` performs `a`; `u` names the goroutine it starts, if it starts one.
  predicate Enabled(s: State, t: nat, u: nat, a: Action) {
    && (IsStart(a) <==> t !in s.threads)
    && (Spawns(a) ==> u !in s.threads && u != t)
    && Ready(s.w, Point(s, t), a)
  }

  function Do(s: State, t: nat, u: nat, a: Action): State
    requires Enabled(s, t, u, a)
  {
    var e := EffectOf(s.w, t, u, Point(s, t), a);
    var threads := s.threads[t := e.th];
    State(e.w, if Spawns(a) then threads[u := e.spawned] else threads)
  }
}
