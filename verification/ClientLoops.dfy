/**
 The two loops of the client as sequential code: reconnectLoop with its backoff, and
 Call with its retries. What the rest of the world does is a finite trace with one
 event for each iteration; a loop that outlives its trace reports `Unfinished`.
 */
module ClientLoops {

  // ---------- reconnectLoop ----------

  datatype Backoff = Backoff(min: nat, max: nat, factor: real, maxAttempts: nat)

  // One iteration: Close ends the wait, or the client is closed or connected after it, or a dial follows.
  datatype Tick = Closed | NotNeeded | Dial(ok: bool)

  datatype LoopResult = Stopped | GaveUp | Reconnected | LoopUnfinished

  function Min(a: int, b: int): int { if a <= b then a else b }

  // time.Duration(float64(delay) * factor) without rounding error: truncation of a non-negative product
  function Scale(delay: nat, factor: real): nat
    requires factor >= 0.0
  {
    (delay as real * factor).Floor
  }

  function Wait(c: Backoff, k: nat): nat
    requires c.factor >= 0.0
  {
    if k == 0 then c.min else Min(Scale(Wait(c, k - 1), c.factor), c.max)
  }

  // the first n waits
  function Waits(c: Backoff, n: nat): seq<nat>
    requires c.factor >= 0.0
  {
    if n == 0 then [] else Waits(c, n - 1) + [Wait(c, n - 1)]
  }

  // every dial so far has failed
  predicate Failing(env: seq<Tick>, n: nat) {
    n <= |env| && forall k :: 0 <= k < n ==> env[k] == Dial(false)
  }

  /**
   The loop waits before each dial and once more before it stops or gives up, dials until one
   succeeds, and with a limit dials at most that often.
   */
  method ReconnectLoop(c: Backoff, env: seq<Tick>) returns (waits: seq<nat>, dials: nat, result: LoopResult)
    requires c.factor >= 0.0
    ensures c.maxAttempts > 0 ==> dials <= c.maxAttempts
    ensures match result
            case Reconnected => dials > 0 && Failing(env, dials - 1) && dials <= |env| && env[dials - 1] == Dial(true)
            case _ => Failing(env, dials)
    ensures match result
            case Stopped => dials < |env| && !env[dials].Dial? && waits == Waits(c, dials + 1)
            case GaveUp => 0 < c.maxAttempts == dials < |env| && env[dials].Dial? && waits == Waits(c, dials + 1)
            case Reconnected => waits == Waits(c, dials)
            case LoopUnfinished => dials == |env| && waits == Waits(c, dials)
  {
    var delay, attempt := c.min, 0;
    waits, dials := [], 0;
    while dials < |env|
      invariant attempt == dials && Failing(env, dials)
      invariant delay == Wait(c, dials) && waits == Waits(c, dials)
      invariant c.maxAttempts > 0 ==> dials <= c.maxAttempts
    {
      waits := waits + [delay];
      var tick := env[dials];
      if !tick.Dial? {
        return waits, dials, Stopped;
      }
      attempt := attempt + 1;
      if c.maxAttempts > 0 && attempt > c.maxAttempts {
        return waits, dials, GaveUp;
      }
      dials := dials + 1;
      if tick.ok {
        return waits, dials, Reconnected;
      }
      delay := Scale(delay, c.factor);
      delay := Min(delay, c.max);
    }
    result := LoopUnfinished;
  }

  function Pow2(k: nat): nat { if k == 0 then 1 else 2 * Pow2(k - 1) }

  /** After the first wait, doubling with a cap at every step is one doubling with one cap. */
  lemma {:induction false} DoublingWait(c: Backoff, k: nat)
    requires c.factor == 2.0 && k > 0
    ensures Wait(c, k) == Min(c.min * Pow2(k), c.max)
  {
    assert forall d: nat :: Scale(d, 2.0) == 2 * d;
    if k == 1 {
      assert Wait(c, 0) == c.min;
      assert Pow2(1) == 2;
    } else {
      DoublingWait(c, k - 1);
      assert c.min * Pow2(k) == 2 * (c.min * Pow2(k - 1));
    }
  }

  /**
   The closed form min(min * 2^(k-1), max) holds for every wait exactly when min <= max:
   the first wait is the configured minimum and is never capped.
   */
  lemma BackoffClosedForm(c: Backoff)
    requires c.factor == 2.0
    ensures (forall k: nat :: Wait(c, k) == Min(c.min * Pow2(k), c.max)) <==> c.min <= c.max
  {
    if c.min <= c.max {
      forall k: nat ensures Wait(c, k) == Min(c.min * Pow2(k), c.max) {
        if k > 0 { DoublingWait(c, k); }
      }
    } else {
      assert Wait(c, 0) == c.min && Pow2(0) == 1;
      assert Wait(c, 0) != Min(c.min * Pow2(0), c.max);
    }
  }

  // ---------- Call ----------

  // How one callOn ends. A server may use RPC code -1, so `LostCode` alone does not prove a lost connection.
  datatype Outcome = Succeeded | Unauthenticated | Transport | LostCode | OtherError

  // One iteration of Call: without a connection it waits; otherwise it makes an attempt, after which
  // `connected` is what isRetryableError sees and `waitOk` how a following wait ends.
  datatype Event =
    | NoConnection(waitOk: bool)
    | Attempt(outcome: Outcome, connected: bool, waitOk: bool)

  datatype CallResult = Nil | Failed(outcome: Outcome) | NotConnected | Unfinished

  predicate IsRetryable(o: Outcome, connected: bool) {
    !connected && (o.Transport? || o.LostCode?)
  }

  // Unauthenticated rejections among the events
  function Rejections(env: seq<Event>): nat {
    if env == [] then 0
    else Rejections(env[..|env| - 1]) + (if Rejects(env[|env| - 1]) then 1 else 0)
  }

  predicate Rejects(e: Event) {
    e.Attempt? && e.outcome.Unauthenticated?
  }

  // What Call promises about when it tries again: after a wait for a connection that succeeds, and
  // then only if there was no attempt, the first rejection, or a loss of a connection that is really down.
  predicate TriesAgain(env: seq<Event>, k: nat)
    requires k < |env|
  {
    env[k].waitOk &&
    (env[k].NoConnection? || (Rejects(env[k]) && Rejections(env[..k]) == 0) ||
     (!env[k].connected && env[k].outcome in {Transport, LostCode}))
  }

  /** `used` events happen; the last of them, if any, decides the result. */
  method Call(env: seq<Event>) returns (result: CallResult, used: nat, teardowns: nat)
    ensures used <= |env|
    ensures Rejections(env[..used]) <= 2
    ensures teardowns == Min(Rejections(env[..used]), 1)
    ensures forall k :: 0 <= k < used - 1 ==> TriesAgain(env, k)
    ensures result.Unfinished? <==> used == |env| && (used > 0 ==> TriesAgain(env, used - 1))
    ensures !result.Unfinished? ==>
              used > 0 && !TriesAgain(env, used - 1) &&
              match env[used - 1] {
                case NoConnection(_) => result == NotConnected
                case Attempt(o, _, _) => result == if o.Succeeded? then Nil else Failed(o)
              }
  {
    var i, reauthAttempted := 0, false;
    teardowns := 0;
    while i < |env|
      invariant 0 <= i <= |env|
      invariant Rejections(env[..i]) == teardowns == if reauthAttempted then 1 else 0
      invariant forall k :: 0 <= k < i ==> TriesAgain(env, k)
    {
      assert env[..i + 1][..i] == env[..i];
      match env[i] {
        case NoConnection(waitOk) =>
          if !waitOk {
            return NotConnected, i + 1, teardowns;
          }
        case Attempt(outcome, connected, waitOk) =>
          if outcome.Succeeded? {
            return Nil, i + 1, teardowns;
          }
          if outcome.Unauthenticated? {
            if reauthAttempted {
              return Failed(outcome), i + 1, teardowns;
            }
            reauthAttempted := true;
            teardowns := teardowns + 1;
            if !waitOk {
              return Failed(outcome), i + 1, teardowns;
            }
          } else if IsRetryable(outcome, connected) {
            if !waitOk {
              return Failed(outcome), i + 1, teardowns;
            }
          } else {
            return Failed(outcome), i + 1, teardowns;
          }
      }
      i := i + 1;
    }
    result, used := Unfinished, |env|;
    assert env[..|env|] == env;
  }
}
