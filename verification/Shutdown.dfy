/** The handler createShutdownHandler returns, as an object with the variables its closure updates. */
module Shutdown {
  import opened Prelude
  import P = ShutdownProtocol

  class Handler {
    const terminates: bool
    const timeoutMs: nat
    var now: nat
    var shuttingDown: bool
    var startedAt: nat
    var timeout: Option<nat>
    var calls: seq<nat>
    var awaiting: Option<nat>
    var resolved: nat
    var exits: seq<P.Exit>
    ghost var timedOut: bool

    ghost function View(): P.Shutdown
      reads this
    {
      P.Shutdown(terminates, timeoutMs, now, shuttingDown, startedAt, calls, awaiting, resolved, timeout, exits,
          timedOut)
    }

    constructor (terminates: bool, timeoutMs: nat)
      ensures View() == P.Initial(terminates, timeoutMs)
    {
      this.terminates, this.timeoutMs := terminates, timeoutMs;
      now, shuttingDown, startedAt, timeout, calls, awaiting, resolved, exits, timedOut := 0, false, 0, None, [], None,
          0, [], false;
    }

    method Exit(code: nat)
      modifies this
      ensures View() == P.DoExit(old(View()), code)
    {
      exits := exits + [P.Exit(code, now)];
    }

    method CallCloser(k: nat)
      modifies this
      ensures View() == old(View()).(calls := old(calls) + [k], awaiting := Some(k))
    {
      calls := calls + [k];
      awaiting := Some(k);
    }

    method OnSignal()
      requires P.OrderInv(View())
      modifies this
      ensures View() == P.Begin(old(View()))
    {
      if shuttingDown {
        return;
      }
      shuttingDown := true;
      startedAt := now;
      timeout := Some(now + timeoutMs);
      CallCloser(0);
    }

    method OnResolved()
      requires awaiting.Some?
      modifies this
      ensures View() == P.Advance(old(View()))
    {
      var done := awaiting.value;
      resolved := resolved + 1;
      if done + 1 < P.CLOSERS {
        CallCloser(done + 1);
        return;
      }
      awaiting := None;
      timeout := None;
      Exit(0);
    }

    method OnRejected()
      requires awaiting.Some? && P.Alive(View())
      modifies this
      ensures View() == P.Step(old(View()), P.Reject)
    {
      awaiting := None;
      timeout := None;
      Exit(1);
    }

    /** Time goes on, up to the deadline. */
    method Wait(ms: nat)
      modifies this
      ensures View() == old(View()).(now := old(now) + ms)
    {
      now := now + ms;
    }

    method OnTimeout()
      requires P.Enabled(View(), P.Timeout)
      modifies this
      ensures View() == P.Step(old(View()), P.Timeout)
    {
      timeout := None;
      timedOut := true;
      Exit(1);
    }

    method Do(e: P.Event)
      requires P.Inv(View()) && P.Enabled(View(), e)
      modifies this
      ensures View() == P.Step(old(View()), e)
    {
      match e {
        case Signal => OnSignal();
        case Resolve => OnResolved();
        case Reject => OnRejected();
        case Timeout => OnTimeout();
        case Tick(ms) => Wait(ms);
      }
    }
  }

  /** Plays any run on a new handler whose exit terminates. In its fields: at most one exit, by the deadline, with
      code 0 exactly when all four closers resolved; and the closers called are the first of the fixed order. */
  method Play(timeoutMs: nat, es: seq<P.Event>) returns (handler: Handler)
    requires P.Run(P.Initial(true, timeoutMs), es).Some?
    ensures fresh(handler) && P.Run(P.Initial(true, timeoutMs), es) == Some(handler.View())
    ensures |handler.exits| <= 1 && handler.calls <= [0, 1, 2, 3]
    ensures handler.exits != [] ==>
              handler.exits[0].at <= handler.startedAt + timeoutMs
                  && (handler.exits[0].code == 0 <==> handler.resolved == P.CLOSERS)
    ensures handler.shuttingDown && handler.now > handler.startedAt + timeoutMs ==> |handler.exits| == 1
    ensures handler.shuttingDown <==> P.FirstSignal(es).Some?
    ensures handler.shuttingDown ==> Some(handler.startedAt) == P.FirstSignal(es) && handler.calls != []
    ensures handler.exits == P.Exits(es)
  {
    handler := new Handler(true, timeoutMs);
    var k := 0;
    while k < |es|
      invariant 0 <= k <= |es| && fresh(handler) && P.Inv(handler.View())
      invariant P.Run(P.Initial(true, timeoutMs), es) == P.Run(handler.View(), es[k..])
    {
      assert es[k..][1..] == es[k + 1..];
      P.StepKeepsInv(handler.View(), es[k]);
      handler.Do(es[k]);
      k := k + 1;
    }
    P.RunTells(true, timeoutMs, es);
    P.ClosersInOrder(true, timeoutMs, es);
    P.ExactlyOneExit(timeoutMs, es);
  }
}
