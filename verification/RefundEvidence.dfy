/**
 What a request that settles a refund as "not refunded" could check on the document it has read. It reads once
 and writes later, so the check has to hold for everything that may happen in between; here is the exact one.
 */
module RefundEvidence {
  import opened Prelude
  import opened RefundLedger
  import opened RefundWindows

  /** On stored fields alone: nothing was found after the claim's request was over, and either its amount was
      never marked reserved, so that it never called, or the provider gave no reference and nothing was found
      once no call could be sent any more and the last one could no longer take effect. */
  predicate SoundCopy(s: Service, c: Copy) {
    && c.seen.Some? && c.seen.value > c.createdAt + STALE_REFUND_CLAIM_MS
    && (!c.reserved || (!c.hasRef && c.seen.value > LastCall(s, c.createdAt) + s.landing))
  }

  /** A request passes its checks in `m` with this copy, and its write comes in `n`. */
  ghost predicate WritesLater(m: Ledger, j: nat, c: Copy, n: Ledger) {
    SafelyReached(m) && Enabled(m, Check(j, c)) && Leads(Step(m, Check(j, c)), n)
  }

  predicate WriteIsRight(n: Ledger, j: nat) {
    j < |n.refunds| && MayFail(n.service, n.now, n.refunds[j])
  }

  /** Whenever a request with this copy passes its checks at this time, its write is right, however late. */
  ghost predicate NeverWrong(s: Service, now: nat, c: Copy) {
    forall m, j: nat, n :: WritesLater(m, j, c, n) && m.service == s && m.now == now ==> WriteIsRight(n, j)
  }

  // ----- the check is enough -----

  /** The provider made nothing, nothing is at work, no call can land, and none can be sent again. */
  predicate Quiet(s: Service, now: nat, r: Refund) {
    && r.provider.NotMade? && r.owner.Idle? && !MayLandLate(r, now, s.landing)
    && (r.status.Pending? && r.reserved && CanReissue(s) ==> now - r.createdAt >= PROVIDER_IDEMPOTENCY_WINDOW_MS)
  }

  lemma SoundIsQuiet(s: Service, now: nat, r: Refund)
    requires RefundOk(s, now, r) && r.status.Pending? && SoundCopy(s, CopyOf(s, r))
    ensures Quiet(s, now, r)
  {
  }

  /** On a quiet refund nothing but readings, a status for "not refunded" and balance writes is left to do. */
  lemma QuietActions(s: Service, now: nat, r: Refund, a: Action)
    requires Quiet(s, now, r) && CanDo(s, now, r, a)
    ensures (IsReading(a) && !a.Lease?) || (IsSettling(a) && !a.Notice?)
  {
  }

  lemma ActionKeepsQuiet(s: Service, now: nat, r: Refund, a: Action, fits: bool)
    requires Quiet(s, now, r) && CanDo(s, now, r, a)
    ensures Quiet(s, now, Do(s, now, r, a, fits))
  {
    QuietActions(s, now, r, a);
    var counted := r.(inTotal := r.inTotal + BalanceChange(r, a, fits));
    if IsReading(a) {
      ReadingKeepsQuiet(s, now, counted, a);
    } else {
      SettlingKeepsQuiet(s, now, counted, a);
    }
  }

  lemma ReadingKeepsQuiet(s: Service, now: nat, r: Refund, a: Action)
    requires Quiet(s, now, r) && IsReading(a) && !a.Lease?
    ensures Quiet(s, now, Read(s, now, r, a))
  {
  }

  lemma SettlingKeepsQuiet(s: Service, now: nat, r: Refund, a: Action)
    requires Quiet(s, now, r) && IsSettling(a) && !a.Notice?
    ensures Quiet(s, now, Settling(r, a))
  {
  }

  lemma StepKeepsQuiet(l: Ledger, e: Event, i: nat)
    requires i < |l.refunds| && Enabled(l, e) && Quiet(l.service, l.now, l.refunds[i])
    ensures i < |Step(l, e).refunds| && Quiet(Step(l, e).service, Step(l, e).now, Step(l, e).refunds[i])
  {
    if e.At? {
      ActedRefund(l, e.i, e.action);
      if e.i == i {
        ActionKeepsQuiet(l.service, l.now, l.refunds[i], e.action, Fits(l, l.refunds[i]));
      }
    }
  }

  /** Every sound copy read so far is of a quiet refund. */
  ghost predicate DesksQuiet(l: Ledger) {
    forall i, c | 0 <= i < |l.desks| && i < |l.refunds| && c in l.desks[i].copies ::
      c.status.Pending? && SoundCopy(l.service, c) ==> Quiet(l.service, l.now, l.refunds[i])
  }

  lemma StepKeepsDesksQuiet(l: Ledger, e: Event)
    requires Inv(l) && DesksQuiet(l) && Enabled(l, e)
    ensures DesksQuiet(Step(l, e))
  {
    var m := Step(l, e);
    forall i, c | 0 <= i < |m.desks| && i < |m.refunds| && c in m.desks[i].copies && c.status.Pending?
        && SoundCopy(m.service, c)
      ensures Quiet(m.service, m.now, m.refunds[i])
    {
      if c in l.desks[i].copies {
        StepKeepsQuiet(l, e, i);
      } else {
        assert RefundOk(l.service, l.now, l.refunds[i]);
        SoundIsQuiet(l.service, l.now, l.refunds[i]);
      }
    }
  }

  lemma {:induction false} RunKeepsDesksQuiet(l: Ledger, es: seq<Event>)
    requires Inv(l) && DesksQuiet(l) && Run(l, es).Some? && SafeRun(l, es)
    ensures DesksQuiet(Run(l, es).value)
    decreases |es|
  {
    if es != [] {
      StepKeepsInv(l, es[0]);
      StepKeepsDesksQuiet(l, es[0]);
      RunKeepsDesksQuiet(Step(l, es[0]), es[1..]);
    }
  }

  lemma {:induction false} RunKeepsQuiet(l: Ledger, es: seq<Event>, i: nat)
    requires i < |l.refunds| && Run(l, es).Some? && Quiet(l.service, l.now, l.refunds[i])
    ensures var n := Run(l, es).value; i < |n.refunds| && Quiet(n.service, n.now, n.refunds[i])
    decreases |es|
  {
    if es != [] {
      StepKeepsQuiet(l, es[0], i);
      RunKeepsQuiet(Step(l, es[0]), es[1..], i);
    }
  }

  lemma CheckedMayFail(m: Ledger, j: nat, c: Copy, n: Ledger)
    requires WritesLater(m, j, c, n) && SoundCopy(m.service, c)
    ensures WriteIsRight(n, j)
  {
    assert j < |m.refunds| && Quiet(m.service, m.now, m.refunds[j]) by {
      var es :| Run(New(m.service), es) == Some(m) && SafeRun(New(m.service), es);
      RunKeepsDesksQuiet(New(m.service), es);
    }
    var fs :| Run(Step(m, Check(j, c)), fs) == Some(n) && SafeRun(Step(m, Check(j, c)), fs);
    assert j < |n.refunds| && Quiet(n.service, n.now, n.refunds[j]) by {
      RunKeepsQuiet(Step(m, Check(j, c)), fs, j);
    }
  }

  lemma SoundIsNeverWrong(s: Service, now: nat, c: Copy)
    requires SoundCopy(s, c)
    ensures NeverWrong(s, now, c)
  {
    forall m, j: nat, n | WritesLater(m, j, c, n) && m.service == s && m.now == now ensures WriteIsRight(n, j) {
      CheckedMayFail(m, j, c, n);
    }
  }

  // ----- what a copy says of the time it was read -----

  predicate CopyFits(s: Service, now: nat, c: Copy) {
    && (c.seen.Some? ==> c.seen.value <= now && (!s.lookups ==> c.createdAt <= c.seen.value))
    && (c.status.Pending? && c.hasRef && c.unknown && c.seen.Some? ==> c.seen.value <= LastCall(s, c.createdAt))
    && (c.status.Pending? && !c.reserved ==> !c.unknown && !c.hasRef)
    && (c.status.Pending? && c.reserved && c.hasRef && c.seen.Some? ==>
        c.seen.value <= LastCall(s, c.createdAt) + s.landing)
  }

  lemma ReadFits(s: Service, now: nat, r: Refund)
    requires RefundOk(s, now, r)
    ensures CopyFits(s, now, CopyOf(s, r))
  {
  }

  ghost predicate CopiesFit(l: Ledger) {
    forall i, c :: 0 <= i < |l.desks| && c in l.desks[i].copies ==> CopyFits(l.service, l.now, c)
  }

  lemma StepKeepsCopies(l: Ledger, e: Event)
    requires Inv(l) && CopiesFit(l) && Enabled(l, e)
    ensures CopiesFit(Step(l, e))
  {
    var m := Step(l, e);
    forall i, c | 0 <= i < |m.desks| && c in m.desks[i].copies ensures CopyFits(m.service, m.now, c) {
      if i < |l.desks| && c in l.desks[i].copies {
        assert CopyFits(l.service, l.now, c);
      } else {
        assert e.Load? && e.i == i;
        assert RefundOk(l.service, l.now, l.refunds[i]);
        ReadFits(l.service, l.now, l.refunds[i]);
      }
    }
  }

  lemma {:induction false} RunKeepsCopies(l: Ledger, es: seq<Event>)
    requires Inv(l) && CopiesFit(l) && Run(l, es).Some? && SafeRun(l, es)
    ensures CopiesFit(Run(l, es).value)
    decreases |es|
  {
    if es != [] {
      StepKeepsInv(l, es[0]);
      StepKeepsCopies(l, es[0]);
      RunKeepsCopies(Step(l, es[0]), es[1..]);
    }
  }

  // ----- without it, some history with the same copy is wrong -----

  lemma Reach(l: Ledger, e: Event) returns (m: Ledger)
    requires SafelyReached(l) && Enabled(l, e) && Safe(l, e)
    ensures m == Step(l, e) && SafelyReached(m)
  {
    LeadsByStep(l, e);
    LeadsOn(New(l.service), l, Step(l, e));
    m := Step(l, e);
  }

  /** A ledger with one refund, of the whole payment. */
  function One(s: Service, now: nat, r: Refund, copies: set<Copy>): Ledger {
    Ledger(s, now, s.amount, [r], [Desk(copies, false)])
  }

  /** That refund, reserved and pending, nothing found at `seen`. */
  function Held(s: Service, createdAt: nat, unknown: bool, seen: Option<nat>, owner: Owner, lease: Option<nat>,
                called: Option<nat>): Refund
  {
    Refund(0, s.amount, createdAt, Pending, true, unknown, false, if s.lookups then seen
        else None, seen, lease, owner, false, false,
           NotMade, called, s.lookups && seen.Some?, seen, 1)
  }

  lemma Claimed(s: Service, createdAt: nat) returns (l: Ledger)
    requires s.amount > 0
    ensures SafelyReached(l)
    ensures l == Ledger(s, createdAt, 0, [NewClaim(0, s.amount, createdAt)], [Desk({}, false)])
  {
    LeadsNowhere(New(s));
    l := Reach(New(s), Tick(createdAt));
    l := Reach(l, Claim(0, s.amount));
  }

  lemma MarkedRefund(s: Service, createdAt: nat) returns (l: Ledger)
    requires s.amount > 0
    ensures SafelyReached(l) && l == One(s, createdAt, Held(s, createdAt, false, None, Marked, None, None), {})
  {
    l := Claimed(s, createdAt);
    l := Reach(l, At(0, Reserve));
    l := Reach(l, At(0, MarkReserved));
  }

  /** At `seen`, someone looks and finds nothing. */
  lemma Look(l: Ledger, s: Service, createdAt: nat, unknown: bool, before: Option<nat>, owner: Owner,
      lease: Option<nat>,
             called: Option<nat>) returns (m: Ledger)
    requires SafelyReached(l) && l == One(s, l.now, Held(s, createdAt, unknown, before, owner, lease, called), {})
    requires s.lookups ==> l.now - createdAt > STALE_REFUND_CLAIM_MS
    ensures SafelyReached(m) && m == One(s, l.now, Held(s, createdAt, unknown, Some(l.now), owner, lease, called), {})
  {
    m := Reach(l, At(0, SeeNothing));
    if s.lookups {
      m := Reach(m, At(0, LookupNothing));
    }
  }

  /** A re-issue is leased at the last moment before the provider's window closes, or at `at` before that. */
  lemma LeasedRefund(s: Service, createdAt: nat, at: nat) returns (l: Ledger)
    requires s.amount > 0 && CanReissue(s) && createdAt + STALE_REFUND_CLAIM_MS < at < createdAt
        + PROVIDER_IDEMPOTENCY_WINDOW_MS
    ensures SafelyReached(l)
    ensures l == One(s, at, Held(s, createdAt, false, Some(at), Leased, Some(at + STALE_REFUND_CLAIM_MS), None), {})
  {
    l := MarkedRefund(s, createdAt);
    l := Reach(l, At(0, Crash));
    l := Reach(l, Tick(at - createdAt));
    l := Look(l, s, createdAt, false, None, Idle, None, None);
    l := Reach(l, At(0, Lease));
  }

  /** Nothing was found at `seen`, and a call sent then is awaited. */
  lemma CallAwaited(s: Service, createdAt: nat, seen: nat) returns (l: Ledger, o: Owner, lease: Option<nat>)
    requires s.amount > 0 && createdAt <= seen <= LastCall(s, createdAt)
    requires s.lookups ==> seen > createdAt + STALE_REFUND_CLAIM_MS
    ensures SafelyReached(l) && Awaiting(o) && o.sent == seen && !o.took
    ensures l == One(s, seen, Held(s, createdAt, false, Some(seen), o, lease, None), {})
  {
    if CanReissue(s) {
      var last := createdAt + PROVIDER_IDEMPOTENCY_WINDOW_MS - 1;
      var at := if seen <= last then seen else last;
      l := LeasedRefund(s, createdAt, at);
      lease := Some(at + STALE_REFUND_CLAIM_MS);
      l := Reach(l, Tick(seen - at));
      l := Look(l, s, createdAt, false, Some(at), Leased, lease, None);
      o := Reissuing(seen, false);
    } else {
      l := MarkedRefund(s, createdAt);
      l := Reach(l, Tick(seen - createdAt));
      l := Look(l, s, createdAt, false, None, Marked, None, None);
      o, lease := Calling(seen, false), None;
    }
    l := Reach(l, At(0, CallProvider));
  }

  /** The last call there can be, awaited. */
  lemma LastAwaited(s: Service, createdAt: nat) returns (l: Ledger, seen: Option<nat>, lease: Option<nat>, o: Owner)
    requires s.amount > 0
    ensures SafelyReached(l) && Awaiting(o) && o.sent == LastCall(s, createdAt) && !o.took
    ensures lease == if o.Reissuing? then Some(LastCall(s, createdAt)) else None
    ensures l == One(s, LastCall(s, createdAt), Held(s, createdAt, false, seen, o, lease, None), {})
  {
    var at := LastCall(s, createdAt);
    if CanReissue(s) {
      seen, lease, o := Some(at - STALE_REFUND_CLAIM_MS), Some(at), Reissuing(at, false);
      l := LeasedRefund(s, createdAt, at - STALE_REFUND_CLAIM_MS);
    } else {
      seen, lease, o := None, None, Calling(at, false);
      l := MarkedRefund(s, createdAt);
    }
    l := Reach(l, Tick(STALE_REFUND_CLAIM_MS));
    l := Reach(l, At(0, CallProvider));
  }

  /** It is given up: with an unknown outcome, or by a crash. */
  lemma CallLost(s: Service, createdAt: nat, unknown: bool) returns (l: Ledger, seen: Option<nat>, lease: Option<nat>)
    requires s.amount > 0
    ensures SafelyReached(l)
    ensures l == One(s, LastCall(s, createdAt), Held(s, createdAt, unknown, seen, Idle, lease,
        Some(LastCall(s, createdAt))), {})
  {
    var o: Owner;
    l, seen, lease, o := LastAwaited(s, createdAt);
    if unknown {
      l := Reach(l, At(0, AnswerUnknown));
      lease := None;
    } else {
      l := Reach(l, At(0, Crash));
    }
  }

  /** A refund whose money moves although the copy read of it could pass. */
  ghost predicate Trap(m: Ledger, s: Service, now: nat, c: Copy) {
    && SafelyReached(m) && m.service == s && m.now == now && |m.refunds| == 1 && |m.desks| == 1
    && c in m.desks[0].copies && m.refunds[0].status.Pending? && m.refunds[0].provider.Active?
        && m.refunds[0].owner.Idle?
  }

  function HeldCopy(createdAt: nat, unknown: bool, hasRef: bool, seen: nat): Copy {
    Copy(createdAt, Pending, true, unknown, hasRef, Some(seen))
  }

  lemma LateTrap(s: Service, createdAt: nat, unknown: bool, hasRef: bool, seen: nat) returns (m: Ledger)
    requires s.amount > 0 && LastCall(s, createdAt) < seen <= LastCall(s, createdAt) + s.landing && !(unknown && hasRef)
    ensures Trap(m, s, seen, HeldCopy(createdAt, unknown, hasRef, seen))
  {
    var last := LastCall(s, createdAt);
    var l, before, lease := CallLost(s, createdAt, unknown);
    m := Reach(l, Tick(seen - last));
    m := Look(m, s, createdAt, unknown, before, Idle, lease, Some(last));
    if hasRef {
      m := Reach(m, At(0, LandLate));
      m := Reach(m, At(0, Notice(Pending, true)));
      m := Reach(m, Load(0));
    } else {
      m := Reach(m, Load(0));
      m := Reach(m, At(0, LandLate));
    }
  }

  lemma AwaitedTrap(s: Service, createdAt: nat, unknown: bool, hasRef: bool, seen: nat) returns (m: Ledger)
    requires s.amount > 0 && createdAt <= seen <= LastCall(s, createdAt)
    requires s.lookups ==> seen > createdAt + STALE_REFUND_CLAIM_MS
    ensures Trap(m, s, seen, HeldCopy(createdAt, unknown, hasRef, seen))
  {
    var l, o, lease := CallAwaited(s, createdAt, seen);
    if hasRef {
      m := AwaitedRefTrap(l, s, createdAt, unknown, seen, o, lease);
    } else if unknown {
      m := UnknownTrap(l, s, createdAt, seen, o, lease);
    } else {
      m := CrashTrap(l, s, createdAt, seen, o, lease);
    }
  }

  lemma UnknownTrap(l: Ledger, s: Service, createdAt: nat, seen: nat, o: Owner, lease: Option<nat>) returns (m: Ledger)
    requires SafelyReached(l) && Awaiting(o) && o.sent == seen && !o.took
    requires l == One(s, seen, Held(s, createdAt, false, Some(seen), o, lease, None), {})
    ensures Trap(m, s, seen, HeldCopy(createdAt, true, false, seen))
  {
    m := Reach(l, At(0, AnswerUnknown));
    m := Reach(m, Load(0));
    m := Reach(m, At(0, LandLate));
  }

  lemma CrashTrap(l: Ledger, s: Service, createdAt: nat, seen: nat, o: Owner, lease: Option<nat>) returns (m: Ledger)
    requires SafelyReached(l) && Awaiting(o) && o.sent == seen && !o.took
    requires l == One(s, seen, Held(s, createdAt, false, Some(seen), o, lease, None), {})
    ensures Trap(m, s, seen, HeldCopy(createdAt, false, false, seen))
  {
    m := Reach(l, Load(0));
    m := Reach(m, At(0, LandNow));
    m := Reach(m, At(0, Crash));
  }

  /** The awaited call takes effect, and a webhook brings the reference. */
  lemma RefNoticed(l: Ledger, s: Service, createdAt: nat, seen: nat, o: Owner, lease: Option<nat>) returns (m: Ledger)
    requires SafelyReached(l) && Awaiting(o) && o.sent == seen && !o.took
    requires l == One(s, seen, Held(s, createdAt, false, Some(seen), o, lease, None), {})
    ensures SafelyReached(m)
    ensures var r := Held(s, createdAt, false, Some(seen), o.(took := true), lease, None);
            m == One(s, seen, r.(provider := Active, hasRef := true), {})
  {
    m := Reach(l, At(0, LandNow));
    m := Reach(m, At(0, Notice(Pending, true)));
  }

  lemma AwaitedRefTrap(l: Ledger, s: Service, createdAt: nat, unknown: bool, seen: nat, o: Owner, lease: Option<nat>)
    returns (m: Ledger)
    requires SafelyReached(l) && Awaiting(o) && o.sent == seen && !o.took
    requires l == One(s, seen, Held(s, createdAt, false, Some(seen), o, lease, None), {})
    ensures Trap(m, s, seen, HeldCopy(createdAt, unknown, true, seen))
  {
    m := RefNoticed(l, s, createdAt, seen, o, lease);
    m := Reach(m, At(0, if unknown then AnswerUnknown else Crash));
    m := Reach(m, Load(0));
  }

  /** Read while the claim's own request has still to reserve, mark and call. */
  lemma ReadEarly(s: Service, createdAt: nat, seen: nat) returns (m: Ledger)
    requires s.amount > 0 && !s.lookups && createdAt <= seen <= createdAt + STALE_REFUND_CLAIM_MS
    ensures SafelyReached(m)
    ensures var r := NewClaim(0, s.amount, createdAt).(checked := Some(seen), seen := Some(seen));
            m == Ledger(s, seen, 0, [r], [Desk({CopyOf(s, r)}, false)])
  {
    m := Claimed(s, createdAt);
    m := Reach(m, Tick(seen - createdAt));
    m := Reach(m, At(0, SeeNothing));
    var c := CopyOf(s, m.refunds[0]);
    m := Reach(m, Load(0));
    assert {} + {c} == {c};
    assert m.desks == [Desk({c}, false)];
  }

  lemma CallEarly(s: Service, createdAt: nat, seen: nat) returns (m: Ledger)
    requires s.amount > 0 && !s.lookups && createdAt <= seen <= createdAt + STALE_REFUND_CLAIM_MS
    ensures SafelyReached(m)
    ensures m == One(s, seen, Held(s, createdAt, false, Some(seen), Calling(seen, false), None, None),
                     {Copy(createdAt, Pending, false, false, false, Some(seen))})
  {
    m := ReadEarly(s, createdAt, seen);
    m := Reach(m, At(0, Reserve));
    m := Reach(m, At(0, MarkReserved));
    m := Reach(m, At(0, CallProvider));
  }

  lemma EarlyTrap(s: Service, createdAt: nat, seen: nat) returns (m: Ledger)
    requires s.amount > 0 && !s.lookups && createdAt <= seen <= createdAt + STALE_REFUND_CLAIM_MS
    ensures Trap(m, s, seen, Copy(createdAt, Pending, false, false, false, Some(seen)))
  {
    m := CallEarly(s, createdAt, seen);
    m := Reach(m, At(0, LandNow));
    m := Reach(m, At(0, Crash));
  }

  lemma TrapIsWrong(m: Ledger, s: Service, at: nat, now: nat, c: Copy)
    requires Trap(m, s, at, c) && at <= now && CanConfirm(s, now, c)
    ensures !NeverWrong(s, now, c)
  {
    var w := Reach(m, Tick(now - at));
    assert Enabled(w, Check(0, c));
    var n := Step(w, Check(0, c));
    LeadsNowhere(n);
    assert WritesLater(w, 0, c, n) && !WriteIsRight(n, 0);
  }

  lemma UnsoundIsWrong(s: Service, now: nat, c: Copy)
    requires s.amount > 0 && CanConfirm(s, now, c) && CopyFits(s, now, c) && !SoundCopy(s, c)
    ensures !NeverWrong(s, now, c)
  {
    var seen := c.seen.value;
    var m;
    if !c.reserved {
      m := EarlyTrap(s, c.createdAt, seen);
    } else if seen <= LastCall(s, c.createdAt) {
      m := AwaitedTrap(s, c.createdAt, c.unknown, c.hasRef, seen);
    } else {
      m := LateTrap(s, c.createdAt, c.unknown, c.hasRef, seen);
    }
    TrapIsWrong(m, s, seen, now, c);
  }

  /** The exact check: a copy that passes the service's own checks may be acted on, whatever happens before the
      write, if and only if it is sound. The service asks for less. */
  lemma SoundCopyExactly(l: Ledger, i: nat, c: Copy)
    requires SafelyReached(l) && l.service.amount > 0 && Enabled(l, Check(i, c))
    ensures SoundCopy(l.service, c) <==> NeverWrong(l.service, l.now, c)
  {
    if SoundCopy(l.service, c) {
      SoundIsNeverWrong(l.service, l.now, c);
    } else {
      assert CopyFits(l.service, l.now, c) by {
        var es :| Run(New(l.service), es) == Some(l) && SafeRun(New(l.service), es);
        RunKeepsCopies(New(l.service), es);
      }
      UnsoundIsWrong(l.service, l.now, c);
    }
  }

  // ----- the service accepts less -----

  /** Long after its call timed out, a refund is looked up, and nothing is found. */
  lemma CheckedRefund(s: Service, now: nat) returns (l: Ledger)
    requires s.amount > 0 && now >= MANUAL_NOT_REFUNDED_MIN_HOLD_MS
    ensures SafelyReached(l) && l == One(s, now, Held(s, 0, true, Some(now), Idle, None, Some(0)), {})
  {
    l := MarkedRefund(s, 0);
    l := Reach(l, At(0, CallProvider));
    l := Reach(l, At(0, AnswerUnknown));
    l := Reach(l, Tick(now));
    l := Look(l, s, 0, true, None, Idle, None, Some(0));
  }

  function Passed(s: Service, now: nat, r: Refund): Ledger {
    Ledger(s, now, s.amount, [r], [Desk({CopyOf(s, r)}, true)])
  }

  /** The document is read, and passes. */
  lemma PassedRefund(l: Ledger, s: Service, now: nat, r: Refund) returns (m: Ledger)
    requires SafelyReached(l) && l == One(s, now, r, {}) && r.checked.Some? && CanConfirm(s, now, CopyOf(s, r))
    ensures SafelyReached(m) && m == Passed(s, now, r)
  {
    var c := CopyOf(s, r);
    m := Reach(l, Load(0));
    assert {} + {c} == {c};
    assert m == One(s, now, r, {c});
    m := Reach(m, Check(0, c));
    assert m.desks == [Desk({c}, true)];
  }

  /** A retry re-issues it, and times out. */
  lemma RetriedRefund(s: Service, now: nat) returns (l: Ledger)
    requires s.amount > 0 && CanReissue(s) && MANUAL_NOT_REFUNDED_MIN_HOLD_MS <= now < PROVIDER_IDEMPOTENCY_WINDOW_MS
    ensures SafelyReached(l) && l == One(s, now, Held(s, 0, true, Some(now), Idle, None, Some(now)), {})
  {
    l := CheckedRefund(s, now);
    l := Reach(l, At(0, Lease));
    l := Reach(l, At(0, CallProvider));
    l := Reach(l, At(0, AnswerUnknown));
  }

  /** No race is needed: a retry looks the held refund up, re-issues it and times out; staff may then settle it
      as not refunded on the retry's own lookup, although the re-issued call can still land. */
  lemma TimedOutRetryCanBeSettled(s: Service) returns (l: Ledger)
    requires s.amount > 0 && CanReissue(s)
    ensures SafelyReached(l) && l.service == s && Enabled(l, At(0, WriteNotRefunded))
        && !Safe(l, At(0, WriteNotRefunded))
    ensures |l.refunds| == 1 && l.refunds[0].owner.Idle? && Stuck(l.refunds[0]) == 0
  {
    var now := MANUAL_NOT_REFUNDED_MIN_HOLD_MS;
    l := RetriedRefund(s, now);
    l := PassedRefund(l, s, now, Held(s, 0, true, Some(now), Idle, None, Some(now)));
  }

  /** So the whole payment, and more, can leave. */
  lemma TimedOutRetryOverRefunds(s: Service) returns (l: Ledger, m: Ledger)
    requires s.amount > 0 && CanReissue(s)
    ensures SafelyReached(l) && l.service == s && Enabled(l, At(0, WriteNotRefunded))
    ensures Leads(Step(l, At(0, WriteNotRefunded)), m) && Sum(m.refunds, Moving) > s.amount
  {
    l := TimedOutRetryCanBeSettled(s);
    SafelyReachedInv(l);
    assert l.refunds[1..] == [];
    m := UnsafeStepOverRefunds(l, At(0, WriteNotRefunded));
  }

  lemma Reissues(l: Ledger, s: Service, now: nat, r: Refund) returns (m: Ledger)
    requires SafelyReached(l) && l == Passed(s, now, r) && r == Held(s, 0, true, Some(now), Idle, None, Some(0))
    requires CanReissue(s) && now < PROVIDER_IDEMPOTENCY_WINDOW_MS
    ensures Leads(l, m) && SafelyReached(m)
    ensures m == Passed(s, now, r).(refunds := [r.(owner := Reissuing(now, false),
        lease := Some(now + STALE_REFUND_CLAIM_MS))])
  {
    var m1 := Go(l, l, Lease);
    m := Go(l, m1, CallProvider);
  }

  /** The refund of a retry that succeeds. */
  lemma Succeeds(l: Ledger, s: Service, now: nat, r: Refund) returns (m: Ledger)
    requires SafelyReached(l) && l == Passed(s, now, r) && r == Held(s, 0, true, Some(now), Idle, None, Some(0))
    requires CanReissue(s) && now < PROVIDER_IDEMPOTENCY_WINDOW_MS
    ensures Leads(l, m) && SafelyReached(m) && m == Passed(s, now, r).(refunds := m.refunds) && |m.refunds| == 1
    ensures var t := m.refunds[0]; t.status.Succeeded? && t.provider.Active? && t.owner.Idle? && t.createdAt == 0
  {
    var m1 := Reissues(l, s, now, r);
    var m2 := Go(l, m1, LandNow);
    m := Go(l, m2, AnswerStatus(Succeeded, true));
  }

  /** One more safe step of the single refund. */
  lemma Go(start: Ledger, l: Ledger, a: Action) returns (m: Ledger)
    requires SafelyReached(l) && (start == l || Leads(start, l)) && Enabled(l, At(0, a)) && Safe(l, At(0, a))
    ensures m == Step(l, At(0, a)) && SafelyReached(m) && Leads(start, m)
  {
    m := Reach(l, At(0, a));
    LeadsByStep(l, At(0, a));
    if start != l {
      LeadsOn(start, l, m);
    }
  }

  /** A check can be right when it passes and wrong when its write comes: nothing was made and nothing could land,
      yet before the write a retry re-issues the refund, and it succeeds. The write still turns the success
      into a failure, and more than the payment leaves. */
  lemma OvertakenCheckOverRefunds(s: Service) returns (l: Ledger, m: Ledger, n: Ledger)
    requires s.amount > 0 && CanReissue(s) && s.landing + MANUAL_NOT_REFUNDED_MIN_HOLD_MS
        + 1 < PROVIDER_IDEMPOTENCY_WINDOW_MS
    ensures SafelyReached(l) && l.service == s && |l.refunds| == 1 && Harmless(s, l.now, l.refunds[0])
    ensures l.desks == [Desk({CopyOf(s, l.refunds[0])}, true)]
    ensures Leads(l, m) && |m.refunds| == 1 && m.refunds[0].status.Succeeded? && m.total == s.amount
    ensures Enabled(m, At(0, WriteNotRefunded)) && Leads(Step(m, At(0, WriteNotRefunded)), n)
        && Sum(n.refunds, Moving) > s.amount
  {
    var now := s.landing + MANUAL_NOT_REFUNDED_MIN_HOLD_MS + 1;
    var r := Held(s, 0, true, Some(now), Idle, None, Some(0));
    l := CheckedRefund(s, now);
    l := PassedRefund(l, s, now, r);
    m := Succeeds(l, s, now, r);
    SafelyReachedInv(m);
    assert m.refunds[1..] == [] && Stuck(m.refunds[0]) == 0;
    n := UnsafeStepOverRefunds(m, At(0, WriteNotRefunded));
  }
}
