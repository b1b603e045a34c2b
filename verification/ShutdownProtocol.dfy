/**
 apps/api/src/shutdown.ts as steps: signals, four closers that resolve, reject or never settle, and a
 deadline timer. `terminates` says whether `exit` ends the process, as process.exit does, or returns.
 */
module ShutdownProtocol {
  import opened Prelude

  datatype Exit = Exit(code: nat, at: nat)

  /** `calls` lists the closers called so far (0 server, 1 worker, 2 Redis, 3 queue connection);
      `awaiting` is the one whose promise is pending; `resolved` counts those that resolved;
      `timedOut` is history: the deadline was reached. */
  datatype Shutdown = Shutdown(terminates: bool, timeoutMs: nat, now: nat, shuttingDown: bool, startedAt: nat,
                               calls: seq<nat>, awaiting: Option<nat>, resolved: nat, timer: Option<nat>,
                                   exits: seq<Exit>,
                               timedOut: bool)

  datatype Event = Signal | Resolve | Reject | Timeout | Tick(ms: nat)

  const CLOSERS: nat := 4

  function Initial(terminates: bool, timeoutMs: nat): Shutdown {
    Shutdown(terminates, timeoutMs, 0, false, 0, [], None, 0, None, [], false)
  }

  /** After an exit that terminates, the process runs nothing more. */
  predicate Alive(s: Shutdown) {
    !s.terminates || s.exits == []
  }

  predicate Enabled(s: Shutdown, e: Event) {
    match e
    case Signal => Alive(s)
    case Resolve => Alive(s) && s.awaiting.Some?
    case Reject => Alive(s) && s.awaiting.Some?
    case Timeout => Alive(s) && s.timer == Some(s.now)
    // a timer that is due fires before time goes on
    case Tick(ms) => Alive(s) && s.timer.Some? ==> s.now + ms <= s.timer.value
  }

  function DoExit(s: Shutdown, code: nat): Shutdown {
    s.(exits := s.exits + [Exit(code, s.now)])
  }

  function Begin(s: Shutdown): Shutdown {
    if s.shuttingDown then s
    else
      s.(shuttingDown := true, startedAt := s.now, timer := Some(s.now + s.timeoutMs), calls := [0],
          awaiting := Some(0))
  }

  /** The awaited closer resolved: call the next one, or clear the timer and exit cleanly. */
  function Advance(s: Shutdown): Shutdown
    requires s.awaiting.Some?
  {
    var s := s.(resolved := s.resolved + 1);
    var next := s.awaiting.value + 1;
    if next < CLOSERS then s.(calls := s.calls + [next], awaiting := Some(next))
    else DoExit(s.(awaiting := None, timer := None), 0)
  }

  function Step(s: Shutdown, e: Event): Shutdown
    requires Enabled(s, e)
  {
    match e
    case Signal => Begin(s)
    case Resolve => Advance(s)
    case Reject => DoExit(s.(awaiting := None, timer := None), 1)
    case Timeout => DoExit(s.(timer := None, timedOut := true), 1)
    case Tick(ms) => s.(now := s.now + ms)
  }

  function Run(s: Shutdown, es: seq<Event>): Option<Shutdown>
    decreases |es|
  {
    if es == [] then Some(s)
    else if Enabled(s, es[0]) then Run(Step(s, es[0]), es[1..])
    else None
  }

  /** The closers called so far are the first of the fixed order, each after the one before resolved. */
  ghost predicate OrderInv(s: Shutdown) {
    && |s.calls| <= CLOSERS && (forall k :: 0 <= k < |s.calls| ==> s.calls[k] == k)
    && (s.shuttingDown <==> s.calls != [])
    && (s.awaiting.Some? ==> s.awaiting.value == |s.calls| - 1 == s.resolved)
    && (s.awaiting.None? && s.shuttingDown ==> s.exits != [])
    && (s.awaiting.None? ==> s.resolved == |s.calls| == CLOSERS || s.resolved + 1 == |s.calls| || s.calls == [])
    && (s.calls == [] ==> s.resolved == 0 && s.awaiting.None?)
  }

  ghost predicate ExitInv(s: Shutdown) {
    && (!s.shuttingDown ==> s.exits == [] && s.timer.None?)
    && (s.timer.Some? ==>
        s.timer.value == s.startedAt + s.timeoutMs && s.now <= s.timer.value && s.exits == [] && s.awaiting.Some?)
    && (s.shuttingDown && s.timer.None? ==> s.exits != [])
    && (s.exits != [] ==> s.exits[0].at <= s.startedAt + s.timeoutMs)
    && |s.exits| <= 2 && (s.awaiting.Some? ==> |s.exits| <= 1)
    && (s.terminates ==> |s.exits| <= 1)
    && (|s.exits| == 1 && s.awaiting.None? ==> (s.exits[0].code == 0 <==> s.resolved == CLOSERS))
    && (|s.exits| == 1 && s.awaiting.Some? ==> s.exits[0].code == 1)
    && (|s.exits| == 2 ==>
        s.exits[0].code == 1 && s.awaiting.None? && (s.exits[1].code == 0 <==> s.resolved == CLOSERS))
    && (forall k :: 0 <= k < |s.exits| ==> s.exits[k].code <= 1)
    && |s.exits| == (if s.timedOut then 1 else 0) + (if s.shuttingDown && s.awaiting.None? then 1 else 0)
  }

  ghost predicate Inv(s: Shutdown) {
    OrderInv(s) && ExitInv(s)
  }

  lemma StepKeepsInv(s: Shutdown, e: Event)
    requires Inv(s) && Enabled(s, e)
    ensures Inv(Step(s, e))
  {
  }

  lemma {:induction false} RunKeepsInv(s: Shutdown, es: seq<Event>)
    requires Inv(s) && Run(s, es).Some?
    ensures Inv(Run(s, es).value)
    ensures Run(s, es).value.terminates == s.terminates && Run(s, es).value.timeoutMs == s.timeoutMs
    decreases |es|
  {
    if es != [] {
      StepKeepsInv(s, es[0]);
      RunKeepsInv(Step(s, es[0]), es[1..]);
    }
  }

  /** Whatever the signals, closers are called at most once each, in the fixed order, each only after
      the one before it resolved. */
  lemma ClosersInOrder(terminates: bool, timeoutMs: nat, es: seq<Event>)
    requires Run(Initial(terminates, timeoutMs), es).Some?
    ensures var s := Run(Initial(terminates, timeoutMs), es).value;
            && s.calls <= [0, 1, 2, 3]
            && (s.calls != [] ==> |s.calls| - 1 <= s.resolved <= |s.calls|)
  {
    RunKeepsInv(Initial(terminates, timeoutMs), es);
    var s := Run(Initial(terminates, timeoutMs), es).value;
    assert forall k :: 0 <= k < |s.calls| ==> s.calls[k] == [0, 1, 2, 3][k];
  }

  /** With an exit that terminates: at most one exit, no later than the deadline, with code 0 exactly when
      all four closers resolved before it; and once the deadline is past, it has happened. */
  lemma ExactlyOneExit(timeoutMs: nat, es: seq<Event>)
    requires Run(Initial(true, timeoutMs), es).Some?
    ensures var s := Run(Initial(true, timeoutMs), es).value;
            && |s.exits| <= 1
            && (s.exits != [] ==> s.exits[0].at <= s.startedAt + timeoutMs && s.exits[0].code <= 1)
            && (s.exits != [] ==> (s.exits[0].code == 0 <==> s.resolved == CLOSERS))
            && (s.shuttingDown && s.now > s.startedAt + timeoutMs ==> |s.exits| == 1)
  {
    RunKeepsInv(Initial(true, timeoutMs), es);
  }

  /** With an exit that returns, there are two exits exactly when the deadline was reached and the closers
      were over afterwards; the first of the two is the forced one. */
  lemma SecondExitExactlyAfterDeadline(timeoutMs: nat, es: seq<Event>)
    requires Run(Initial(false, timeoutMs), es).Some?
    ensures var s := Run(Initial(false, timeoutMs), es).value;
            && |s.exits| <= 2
            && (|s.exits| == 2 <==> s.timedOut && s.awaiting.None?)
            && (|s.exits| == 2 ==> s.exits[0].code == 1)
  {
    RunKeepsInv(Initial(false, timeoutMs), es);
  }

  // ----- what happens, told from the events -----

  function Clock(es: seq<Event>): nat {
    if es == [] then 0 else Clock(es[..|es| - 1]) + if es[|es| - 1].Tick? then es[|es| - 1].ms else 0
  }

  function Resolves(es: seq<Event>): nat {
    if es == [] then 0 else Resolves(es[..|es| - 1]) + if es[|es| - 1].Resolve? then 1 else 0
  }

  /** When the first signal came. */
  function FirstSignal(es: seq<Event>): Option<nat> {
    if es == [] then None
    else
      var before := FirstSignal(es[..|es| - 1]);
      if before.None? && es[|es| - 1].Signal? then Some(Clock(es)) else before
  }

  /** The exits a run has asked for: 1 at the deadline and at a rejection, 0 when the last closer resolved. */
  function Exits(es: seq<Event>): seq<Exit> {
    if es == [] then []
    else
      var last := es[|es| - 1];
      Exits(es[..|es| - 1])
      + (if last.Timeout? || last.Reject? then [Exit(1, Clock(es))]
         else if last.Resolve? && Resolves(es) == CLOSERS then [Exit(0, Clock(es))]
         else [])
  }

  ghost predicate Told(s: Shutdown, es: seq<Event>) {
    && s.now == Clock(es) && s.resolved == Resolves(es) && s.exits == Exits(es)
    && (s.shuttingDown <==> FirstSignal(es).Some?)
    && (s.shuttingDown ==> Some(s.startedAt) == FirstSignal(es) && s.calls != [] && s.calls[0] == 0)
    && (s.shuttingDown && s.awaiting.Some? ==> |s.calls| == Resolves(es) + 1)
    && (s.timer.Some? ==> s.timer == Some(s.startedAt + s.timeoutMs))
  }

  lemma RunLast(s: Shutdown, es: seq<Event>)
    requires es != [] && Run(s, es).Some?
    ensures var before := Run(s, es[..|es| - 1]);
            && before.Some? && Enabled(before.value, es[|es| - 1])
            && Run(s, es) == Some(Step(before.value, es[|es| - 1]))
    decreases |es|
  {
    if |es| > 1 {
      RunLast(Step(s, es[0]), es[1..]);
      assert es[1..][..|es| - 2] == es[..|es| - 1][1..];
    } else {
      assert es[..0] == [] && es[1..] == [];
      assert Run(Step(s, es[0]), []) == Some(Step(s, es[0]));
    }
  }

  lemma OneMore(es: seq<Event>, e: Event)
    ensures Clock(es + [e]) == Clock(es) + (if e.Tick? then e.ms else 0)
    ensures Resolves(es + [e]) == Resolves(es) + (if e.Resolve? then 1 else 0)
    ensures FirstSignal(es + [e]) == if FirstSignal(es).None? && e.Signal? then Some(Clock(es)) else FirstSignal(es)
    ensures Exits(es + [e]) == Exits(es)
                               + (if e.Timeout? || e.Reject? then [Exit(1, Clock(es))]
                                  else if e.Resolve? && Resolves(es) + 1 == CLOSERS then [Exit(0, Clock(es))]
                                  else [])
  {
    assert (es + [e])[..|es|] == es;
  }

  lemma StepTells(s: Shutdown, es: seq<Event>, e: Event)
    requires Inv(s) && Told(s, es) && Enabled(s, e)
    ensures Told(Step(s, e), es + [e])
  {
    OneMore(es, e);
  }

  /** Over every run: the first signal, and no other, starts the shutdown and calls the first closer at once; each
      resolved closer is followed by the next; and the exits are those the events ask for, at their times. */
  lemma {:induction false} RunTells(terminates: bool, timeoutMs: nat, es: seq<Event>)
    requires Run(Initial(terminates, timeoutMs), es).Some?
    ensures Told(Run(Initial(terminates, timeoutMs), es).value, es)
    decreases |es|
  {
    if es != [] {
      var start, init, last := Initial(terminates, timeoutMs), es[..|es| - 1], es[|es| - 1];
      RunLast(start, es);
      RunTells(terminates, timeoutMs, init);
      RunKeepsInv(start, init);
      StepTells(Run(start, init).value, init, last);
      assert es == init + [last];
    }
  }
}
