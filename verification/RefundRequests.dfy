/**
 What a refund request comes to, from any safely reached ledger: the claim that is turned down and its key freed,
 the refund that succeeds, fails, or is left on hold, and the retry that ends a hold.
 */
module RefundRequests {
  import opened Prelude
  import opened RefundLedger
  import opened RefundWindows

  // ----- runs, event by event -----

  ghost predicate Ran(l: Ledger, es: seq<Event>, m: Ledger) {
    Run(l, es) == Some(m) && SafeRun(l, es)
  }

  lemma RanNone(l: Ledger)
    ensures Ran(l, [], l)
  {
  }

  lemma RanOn(l: Ledger, es: seq<Event>, m: Ledger, e: Event)
    requires Ran(l, es, m) && Enabled(m, e) && Safe(m, e)
    ensures Ran(l, es + [e], Step(m, e))
  {
    assert [e][1..] == [];
    assert Run(Step(m, e), []) == Some(Step(m, e)) && SafeRun(Step(m, e), []);
    assert Run(m, [e]) == Some(Step(m, e)) && SafeRun(m, [e]);
    ConcatRuns(l, es, [e]);
  }

  /** The ledger with refund i as it is after one action, and the balance moved by so much. */
  ghost predicate Acted(l: Ledger, m: Ledger, i: nat, change: int) {
    && i < |l.refunds| && |m.refunds| == |l.refunds| && m == l.(total := l.total + change, refunds := m.refunds)
    && m.refunds == l.refunds[i := m.refunds[i]]
  }

  lemma Go(l: Ledger, es: seq<Event>, m: Ledger, i: nat, a: Action) returns (n: Ledger)
    requires Ran(l, es, m) && Inv(m) && Enabled(m, At(i, a)) && Safe(m, At(i, a))
    ensures n == Step(m, At(i, a)) && Ran(l, es + [At(i, a)], n) && Inv(n)
    ensures Acted(m, n, i, BalanceChange(m.refunds[i], a, Fits(m, m.refunds[i])) * m.refunds[i].amount)
    ensures n.refunds[i] == Do(m.service, m.now, m.refunds[i], a, Fits(m, m.refunds[i]))
  {
    n := Step(m, At(i, a));
    RanOn(l, es, m, At(i, a));
    StepKeepsInv(m, At(i, a));
  }

  // ----- statuses -----

  /** The status that an action brings from the provider, if it brings one. */
  function Tells(a: Action): Option<Status> {
    match a
    case AnswerStatus(status, _) => Some(status)
    case Notice(status, _) => Some(status)
    case _ => None
  }

  /** Where an action leaves a status, by the table of transitions. */
  function StatusAfter(was: Status, a: Action): Status {
    if was == Pending && Tells(a) == Some(Succeeded) then Succeeded
    else if (was == Pending || was == Succeeded) && (Tells(a) == Some(Failed) || a.WriteNotRefunded?) then Failed
    else if was == Pending && a.DeleteClaim? then Deleted
    else was
  }

  /** The transitions: pending to succeeded or failed, succeeded to failed, each told by the provider or, to failed,
      written by a person; a pending claim is deleted by its own request; and nothing else moves a status. */
  lemma StatusMovesExactly(l: Ledger, i: nat, a: Action)
    requires SafelyReached(l) && Enabled(l, At(i, a))
    ensures i < |Step(l, At(i, a)).refunds|
    ensures var was, now := l.refunds[i].status, Step(l, At(i, a)).refunds[i].status;
            now == StatusAfter(was, a)
  {
    ActedRefund(l, i, a);
    StatusOf(l.service, l.now, l.refunds[i], a, Fits(l, l.refunds[i]));
  }

  lemma StatusOfApply(r: Refund, to: Status, ref: bool)
    ensures Apply(r, to, ref).status ==
              if r.status == Pending && to == Succeeded then Succeeded
              else if (r.status == Pending || r.status == Succeeded) && to == Failed then Failed
              else r.status
  {
  }

  lemma StatusOfWork(now: nat, r: Refund, a: Action, fits: bool)
    requires IsWork(a) && (a.CallProvider? ==> r.owner.Marked? || r.owner.Leased?)
    ensures Work(now, r, a, fits).status == StatusAfter(r.status, a)
  {
    if a.AnswerStatus? {
      StatusOfApply(r, a.status, a.ref);
    }
  }

  lemma StatusOfSettling(r: Refund, a: Action)
    requires IsSettling(a)
    ensures Settling(r, a).status == StatusAfter(r.status, a)
  {
    if a.Notice? {
      StatusOfApply(r, a.status, a.ref);
    } else if a.WriteNotRefunded? {
      StatusOfApply(r, Failed, false);
    }
  }

  lemma StatusOfProvider(s: Service, now: nat, r: Refund, a: Action, fits: bool)
    requires CanDo(s, now, r, a) && (a.LandNow? || a.LandLate? || a.ProviderFails?)
    ensures Do(s, now, r, a, fits).status == StatusAfter(r.status, a)
  {
  }

  function Counted(r: Refund, a: Action, fits: bool): Refund {
    r.(inTotal := r.inTotal + BalanceChange(r, a, fits))
  }

  lemma DoesWork(s: Service, now: nat, r: Refund, a: Action, fits: bool)
    requires CanDo(s, now, r, a) && IsWork(a)
    ensures Do(s, now, r, a, fits).status == StatusAfter(r.status, a)
  {
    var counted := Counted(r, a, fits);
    assert Do(s, now, r, a, fits) == Work(now, counted, a, fits);
    StatusOfWork(now, counted, a, fits);
  }

  lemma DoesSettling(s: Service, now: nat, r: Refund, a: Action, fits: bool)
    requires CanDo(s, now, r, a) && IsSettling(a)
    ensures Do(s, now, r, a, fits).status == StatusAfter(r.status, a)
  {
    var counted := Counted(r, a, fits);
    assert Do(s, now, r, a, fits) == Settling(counted, a);
    StatusOfSettling(counted, a);
  }

  lemma DoesReading(s: Service, now: nat, r: Refund, a: Action, fits: bool)
    requires CanDo(s, now, r, a) && IsReading(a)
    ensures Do(s, now, r, a, fits).status == StatusAfter(r.status, a)
  {
    assert Do(s, now, r, a, fits) == Read(s, now, Counted(r, a, fits), a);
  }

  lemma StatusOf(s: Service, now: nat, r: Refund, a: Action, fits: bool)
    requires CanDo(s, now, r, a)
    ensures Do(s, now, r, a, fits).status == StatusAfter(r.status, a)
  {
    if IsWork(a) {
      DoesWork(s, now, r, a, fits);
    } else if IsSettling(a) {
      DoesSettling(s, now, r, a, fits);
    } else if IsReading(a) {
      DoesReading(s, now, r, a, fits);
    } else {
      StatusOfProvider(s, now, r, a, fits);
    }
  }

  // ----- claims that are turned down -----

  /** The reservation was refused, or the provider refused the call. */
  predicate TurnedDown(r: Refund) {
    r.owner.Dropping? || r.owner.Refused?
  }

  /** A reservation takes the amount exactly when it fits, and otherwise turns the claim down. */
  lemma ReservesExactly(l: Ledger, i: nat)
    requires SafelyReached(l) && Enabled(l, At(i, RefundLedger.Reserve))
    ensures var m, r := Step(l, At(i, RefundLedger.Reserve)), l.refunds[i];
            && |m.refunds| == |l.refunds| && m.refunds[i].status.Pending?
            && (l.total + r.amount <= l.service.amount ==>
                m.refunds[i].owner.Reserved? && m.total == l.total + r.amount)
            && (l.total + r.amount > l.service.amount ==> TurnedDown(m.refunds[i]) && m.total == l.total)
  {
    SafelyReachedInv(l);
    assert RefundOk(l.service, l.now, l.refunds[i]);
  }

  /** A refused call gives the reserved amount back and turns the claim down. */
  lemma RefusalReleases(l: Ledger, i: nat)
    requires SafelyReached(l) && Enabled(l, At(i, AnswerRejected)) && l.refunds[i].owner.Calling?
    ensures var m := Step(l, At(i, AnswerRejected));
            && |m.refunds| == |l.refunds| && TurnedDown(m.refunds[i]) && m.total == l.total - l.refunds[i].amount
  {
  }

  /** The request of a claim that was turned down ends by deleting it: nothing of it is left in the balance, no
      undeleted refund has its key, and the key can be claimed again for any amount. */
  lemma TurnedDownClaimIsRemoved(l: Ledger, i: nat)
    requires SafelyReached(l) && i < |l.refunds| && TurnedDown(l.refunds[i])
    ensures Enabled(l, At(i, DeleteClaim))
    ensures var m := Step(l, At(i, DeleteClaim));
            && |m.refunds| == |l.refunds| && m.refunds[i].status.Deleted? && m.refunds[i].owner.Idle?
            && m.total == l.total && Share(m.refunds[i]) == 0
            && (forall j :: 0 <= j < |m.refunds| && m.refunds[j].key == l.refunds[i].key ==>
                m.refunds[j].status.Deleted?)
            && (forall a: nat :: a > 0 ==> Enabled(m, Claim(l.refunds[i].key, a)))
  {
    SafelyReachedInv(l);
    assert RefundOk(l.service, l.now, l.refunds[i]);
    ActedRefund(l, i, DeleteClaim);
  }

  /** Until it crashes, a claim that was turned down waits for that deletion, and stays deleted after it. */
  ghost predicate DownOrGone(r: Refund, key: nat) {
    r.key == key && r.inTotal == 0 && ((TurnedDown(r) && r.status.Pending?) || (r.status.Deleted? && r.owner.Idle?))
  }

  lemma ActionKeepsDown(s: Service, now: nat, r: Refund, a: Action, fits: bool, key: nat)
    requires RefundOk(s, now, r) && CanDo(s, now, r, a) && DownOrGone(r, key) && !a.Crash? && !a.WriteNotRefunded?
    ensures DownOrGone(Do(s, now, r, a, fits), key)
    ensures a.DeleteClaim? ==> Do(s, now, r, a, fits).status.Deleted?
  {
  }

  lemma NoWriteWhileDown(l: Ledger, i: nat)
    requires Inv(l) && i < |l.refunds| && TurnedDown(l.refunds[i])
    ensures !Enabled(l, At(i, WriteNotRefunded))
  {
    assert RefundOk(l.service, l.now, l.refunds[i]);
  }

  /** A deleted record has no money in the balance whatever is written. */
  lemma DeletedKeepsDown(s: Service, now: nat, r: Refund, fits: bool, key: nat)
    requires RefundOk(s, now, r) && DownOrGone(r, key) && r.status.Deleted? && CanDo(s, now, r, WriteNotRefunded)
    ensures DownOrGone(Do(s, now, r, WriteNotRefunded, fits), key)
  {
  }

  lemma StepKeepsDown(l: Ledger, e: Event, i: nat, key: nat)
    requires Inv(l) && Enabled(l, e) && i < |l.refunds| && DownOrGone(l.refunds[i], key) && e != At(i, Crash)
    ensures i < |Step(l, e).refunds| && DownOrGone(Step(l, e).refunds[i], key)
    ensures l.refunds[i].status.Deleted? || e == At(i, DeleteClaim) ==> Step(l, e).refunds[i].status.Deleted?
  {
    if e.At? {
      ActedRefund(l, e.i, e.action);
      if e.i == i {
        assert RefundOk(l.service, l.now, l.refunds[i]);
        if e.action.WriteNotRefunded? {
          if TurnedDown(l.refunds[i]) {
            NoWriteWhileDown(l, i);
          } else {
            DeletedKeepsDown(l.service, l.now, l.refunds[i], Fits(l, l.refunds[i]), key);
          }
        } else {
          ActionKeepsDown(l.service, l.now, l.refunds[i], e.action, Fits(l, l.refunds[i]), key);
        }
      }
    }
  }

  /** Over every run in which its request does not crash: a claim that was turned down never counts in the balance,
      and once its request has ended it is deleted for good. */
  lemma {:induction false} TurnedDownOverRuns(l: Ledger, es: seq<Event>, i: nat, key: nat)
    requires Inv(l) && Run(l, es).Some? && SafeRun(l, es) && At(i, Crash) !in es
    requires i < |l.refunds| && DownOrGone(l.refunds[i], key)
    ensures i < |Run(l, es).value.refunds| && DownOrGone(Run(l, es).value.refunds[i], key)
    ensures l.refunds[i].status.Deleted? || At(i, DeleteClaim) in es ==> Run(l, es).value.refunds[i].status.Deleted?
    decreases |es|
  {
    if es != [] {
      StepKeepsInv(l, es[0]);
      StepKeepsDown(l, es[0], i, key);
      TurnedDownOverRuns(Step(l, es[0]), es[1..], i, key);
    }
  }

  // ----- a request that nothing disturbs -----

  /** A new claim, and what its request has done so far. */
  ghost predicate Opened(l: Ledger, m: Ledger, key: nat, amount: nat, change: int) {
    && Inv(m) && m.service == l.service && m.now == l.now && m.total == l.total + change
    && |m.refunds| == |l.refunds| + 1 && m.refunds[..|l.refunds|] == l.refunds
    && m.refunds[|l.refunds|].key == key && m.refunds[|l.refunds|].amount == amount
  }

  lemma OpenClaim(l: Ledger, key: nat, amount: nat) returns (m: Ledger)
    requires Inv(l) && Enabled(l, Claim(key, amount))
    ensures Ran(l, [Claim(key, amount)], m) && Opened(l, m, key, amount, 0)
    ensures m.refunds[|l.refunds|] == NewClaim(key, amount, l.now)
  {
    RanNone(l);
    RanOn(l, [], l, Claim(key, amount));
    StepKeepsInv(l, Claim(key, amount));
    assert [] + [Claim(key, amount)] == [Claim(key, amount)];
    m := Step(l, Claim(key, amount));
  }

  function CallEvents(key: nat, amount: nat, i: nat): seq<Event> {
    [Claim(key, amount), At(i, RefundLedger.Reserve), At(i, MarkReserved), At(i, CallProvider)]
  }

  /** An amount that fits is reserved, marked, and the provider called. */
  lemma CallsWhenItFits(l: Ledger, key: nat, amount: nat) returns (m: Ledger)
    requires Inv(l) && Enabled(l, Claim(key, amount)) && l.total + amount <= l.service.amount
    ensures Ran(l, CallEvents(key, amount, |l.refunds|), m) && Opened(l, m, key, amount, amount)
    ensures var t := m.refunds[|l.refunds|];
            t == NewClaim(key, amount, l.now).(owner := Calling(l.now, false), reserved := true, inTotal := 1)
  {
    var i := |l.refunds|;
    var m1 := OpenClaim(l, key, amount);
    var m2 := Go(l, [Claim(key, amount)], m1, i, RefundLedger.Reserve);
    var m3 := Go(l, [Claim(key, amount)] + [At(i, RefundLedger.Reserve)], m2, i, MarkReserved);
    m := Go(l, [Claim(key, amount)] + [At(i, RefundLedger.Reserve)] + [At(i, MarkReserved)], m3, i, CallProvider);
    assert [Claim(key, amount)] + [At(i, RefundLedger.Reserve)] + [At(i, MarkReserved)] + [At(i, CallProvider)]
        == CallEvents(key, amount, i);
  }

  /** A success settles the refund, with its amount counted. */
  lemma SuccessSettles(l: Ledger, key: nat, amount: nat) returns (m: Ledger)
    requires Inv(l) && Enabled(l, Claim(key, amount)) && l.total + amount <= l.service.amount
    ensures var i := |l.refunds|;
            && Ran(l, CallEvents(key, amount, i) + [At(i, LandNow)] + [At(i, AnswerStatus(Succeeded, true))], m)
            && Opened(l, m, key, amount, amount)
            && var t := m.refunds[i];
               t.status.Succeeded? && t.provider.Active? && t.owner.Idle? && t.reserved && t.hasRef && !t.unknown
               && !t.releasing && !t.counting && t.inTotal == 1
  {
    var i, es := |l.refunds|, CallEvents(key, amount, |l.refunds|);
    var m1 := CallsWhenItFits(l, key, amount);
    var m2 := Lands(l, es, m1, i);
    m := Go(l, es + [At(i, LandNow)], m2, i, AnswerStatus(Succeeded, true));
  }

  /** A failure at the provider settles the refund, and its amount comes back. */
  lemma FailureReleases(l: Ledger, key: nat, amount: nat) returns (m: Ledger)
    requires Inv(l) && Enabled(l, Claim(key, amount)) && l.total + amount <= l.service.amount
    ensures var i := |l.refunds|;
            && Ran(l, CallEvents(key, amount, i) + [At(i, LandNow)] + [At(i, ProviderFails)]
                      + [At(i, AnswerStatus(Failed, true))] + [At(i, WriteRelease)], m)
            && Opened(l, m, key, amount, 0)
            && var t := m.refunds[i];
               t.status.Failed? && t.owner.Idle? && !t.reserved && !t.releasing && !t.counting && t.inTotal == 0
  {
    var i, es := |l.refunds|, CallEvents(key, amount, |l.refunds|);
    var m1 := CallsWhenItFits(l, key, amount);
    var m2 := Lands(l, es, m1, i);
    var m3 := Go(l, es + [At(i, LandNow)], m2, i, ProviderFails);
    m := FailedRelease(l, es + [At(i, LandNow)] + [At(i, ProviderFails)], m3, i);
  }

  /** A refund that was just answered as failed. */
  predicate JustFailed(r: Refund, t: Refund) {
    && t.key == r.key && t.amount == r.amount && t.status.Failed? && t.owner.Idle? && !t.reserved
    && t.releasing && t.inTotal == 1 && t.counting == r.counting
  }

  lemma AnsweredFailed(l: Ledger, es: seq<Event>, m: Ledger, i: nat) returns (n: Ledger)
    requires Ran(l, es, m) && Inv(m) && i < |m.refunds| && |m.desks| == |m.refunds|
    requires Awaiting(m.refunds[i].owner) && m.refunds[i].provider.FailedThere?
    requires m.refunds[i].status.Pending? && m.refunds[i].reserved && m.refunds[i].inTotal == 1
    ensures Ran(l, es + [At(i, AnswerStatus(Failed, true))], n) && Inv(n) && Acted(m, n, i, 0)
    ensures JustFailed(m.refunds[i], n.refunds[i])
  {
    n := Go(l, es, m, i, AnswerStatus(Failed, true));
  }

  lemma Releases(l: Ledger, es: seq<Event>, m: Ledger, i: nat) returns (n: Ledger)
    requires Ran(l, es, m) && Inv(m) && i < |m.refunds| && |m.desks| == |m.refunds| && m.refunds[i].releasing
    ensures Ran(l, es + [At(i, WriteRelease)], n) && Inv(n)
    ensures var back: int := m.refunds[i].amount; Acted(m, n, i, 0 - back)
    ensures n.refunds[i] == Released(m.refunds[i])
  {
    n := Go(l, es, m, i, WriteRelease);
  }

  lemma FailedRelease(l: Ledger, es: seq<Event>, m: Ledger, i: nat) returns (n: Ledger)
    requires Ran(l, es, m) && Inv(m) && i < |m.refunds| && |m.desks| == |m.refunds|
    requires Awaiting(m.refunds[i].owner) && m.refunds[i].provider.FailedThere?
    requires m.refunds[i].status.Pending? && m.refunds[i].reserved && m.refunds[i].inTotal == 1
    ensures Ran(l, es + [At(i, AnswerStatus(Failed, true))] + [At(i, WriteRelease)], n) && Inv(n)
    ensures var back: int := m.refunds[i].amount; Acted(m, n, i, 0 - back)
    ensures var r, t := m.refunds[i], n.refunds[i];
            && t.key == r.key && t.amount == r.amount && t.status.Failed? && t.owner.Idle? && !t.reserved
            && !t.releasing && t.inTotal == 0 && t.counting == r.counting
  {
    var m1 := AnsweredFailed(l, es, m, i);
    n := Releases(l, es + [At(i, AnswerStatus(Failed, true))], m1, i);
  }

  /** An unknown outcome holds the refund at once, with its amount counted. */
  lemma UnknownHolds(l: Ledger, key: nat, amount: nat) returns (m: Ledger)
    requires Inv(l) && Enabled(l, Claim(key, amount)) && l.total + amount <= l.service.amount
    ensures var i := |l.refunds|;
            && Ran(l, CallEvents(key, amount, i) + [At(i, AnswerUnknown)], m) && Opened(l, m, key, amount, amount)
            && var t := m.refunds[i];
               RefundLedger.Held(t, m.now) && t.owner.Idle? && t.reserved && t.called == Some(l.now) && t.inTotal == 1
  {
    var m1 := CallsWhenItFits(l, key, amount);
    m := Go(l, CallEvents(key, amount, |l.refunds|), m1, |l.refunds|, AnswerUnknown);
  }

  // ----- what ends a hold -----

  /** A status the provider gives ends the hold: whatever it is, nobody waits for an unknown outcome any more; and a
      reference, once known, is kept. */
  lemma StatusEndsHold(l: Ledger, i: nat, status: Status, ref: bool)
    requires SafelyReached(l) && Enabled(l, At(i, Notice(status, ref))) && l.refunds[i].status.Pending?
    ensures var t := Step(l, At(i, Notice(status, ref))).refunds;
            && i < |t| && !t[i].unknown && (t[i].hasRef <==> l.refunds[i].hasRef || ref)
            && t[i].owner == l.refunds[i].owner && t[i].lookup == l.refunds[i].lookup
  {
  }

  /** A lookup that is not "not found" ends the evidence for "not refunded": where lookups are supported, what is
      read of the document after it never passes the checks. */
  lemma OtherLookupBarsConfirming(l: Ledger, i: nat, t: nat)
    requires SafelyReached(l) && Enabled(l, At(i, LookupElse))
    ensures var m := Step(l, At(i, LookupElse));
            i < |m.refunds| && !CanConfirm(m.service, t, CopyOf(m.service, m.refunds[i])) && m.total == l.total
  {
  }

  /** A success that is told of a claim without a reservation counts it now, once its update is written. */
  lemma UnreservedSuccessCounts(s: Service, now: nat, r: Refund, ref: bool, fits: bool)
    requires r.status.Pending? && !r.reserved && CanDo(s, now, r, Notice(Succeeded, ref))
    ensures var told := Do(s, now, r, Notice(Succeeded, ref), fits);
            && told.status.Succeeded? && told.reserved && told.inTotal == r.inTotal && CanDo(s, now, told, WriteCount)
            && Do(s, now, told, WriteCount, fits).inTotal == r.inTotal + 1
            && !CanDo(s, now, Do(s, now, told, WriteCount, fits), WriteCount)
  {
  }

  lemma LookedUp(l: Ledger, i: nat) returns (m: Ledger)
    requires Inv(l) && CanReissue(l.service) && i < |l.refunds| && RefundLedger.Held(l.refunds[i], l.now)
    requires l.refunds[i].provider.NotMade?
    ensures Ran(l, [At(i, LookupNothing)], m) && Inv(m) && Acted(l, m, i, 0)
    ensures m.refunds[i] == l.refunds[i].(lookup := Some(l.now), seen := Some(l.now), looked := true)
  {
    RanNone(l);
    assert [] + [At(i, LookupNothing)] == [At(i, LookupNothing)];
    m := Go(l, [], l, i, LookupNothing);
  }

  lemma ReissueSucceeds(l: Ledger, es: seq<Event>, m: Ledger, i: nat) returns (n: Ledger)
    requires Ran(l, es, m) && Inv(m) && i < |m.refunds| && |m.desks| == |m.refunds|
    requires m.refunds[i].owner == Reissuing(m.now, false) && m.refunds[i].provider.NotMade?
    requires m.refunds[i].status.Pending? && m.refunds[i].reserved && !m.refunds[i].counting
    ensures Ran(l, es + [At(i, LandNow)] + [At(i, AnswerStatus(Succeeded, true))], n) && Acted(m, n, i, 0)
    ensures var t := n.refunds[i];
            t.status.Succeeded? && t.provider.Active? && t.owner.Idle? && t.lease.None? && !t.counting
  {
    var m1 := Lands(l, es, m, i);
    n := Go(l, es + [At(i, LandNow)], m1, i, AnswerStatus(Succeeded, true));
  }

  lemma Lands(l: Ledger, es: seq<Event>, m: Ledger, i: nat) returns (n: Ledger)
    requires Ran(l, es, m) && Inv(m) && i < |m.refunds| && |m.desks| == |m.refunds|
    requires Awaiting(m.refunds[i].owner) && m.refunds[i].owner.sent == m.now && m.refunds[i].provider.NotMade?
    ensures Ran(l, es + [At(i, LandNow)], n) && Inv(n) && Acted(m, n, i, 0)
    ensures n.refunds[i] == m.refunds[i].(provider := Active, owner := m.refunds[i].owner.(took := true))
  {
    n := Go(l, es, m, i, LandNow);
  }

  /** A retry of a held refund that the provider does not know: looked up, leased and called again under the same key,
      and when it succeeds, settled, without another reservation and with the lease given back. */
  lemma RetrySettles(l: Ledger, i: nat) returns (m: Ledger)
    requires SafelyReached(l) && CanReissue(l.service) && i < |l.refunds| && RefundLedger.Held(l.refunds[i], l.now)
    requires l.refunds[i].reserved && l.refunds[i].provider.NotMade? && l.refunds[i].lease.None?
    requires !l.refunds[i].hasRef && l.now - l.refunds[i].createdAt < PROVIDER_IDEMPOTENCY_WINDOW_MS
    ensures Ran(l, [At(i, LookupNothing)] + [At(i, Lease)] + [At(i, CallProvider)] + [At(i, LandNow)]
                   + [At(i, AnswerStatus(Succeeded, true))], m)
    ensures Acted(l, m, i, 0)
    ensures var t := m.refunds[i];
            t.status.Succeeded? && t.provider.Active? && t.owner.Idle? && t.lease.None? && !t.counting
  {
    SafelyReachedInv(l);
    assert !l.refunds[i].counting by {
      assert RefundOk(l.service, l.now, l.refunds[i]);
    }
    var es := [At(i, LookupNothing)];
    var m1 := LookedUp(l, i);
    var m2 := LeaseAndCall(l, es, m1, i);
    m := ReissueSucceeds(l, es + [At(i, Lease)] + [At(i, CallProvider)], m2, i);
  }

  lemma LeaseAndCall(l: Ledger, es: seq<Event>, m: Ledger, i: nat) returns (n: Ledger)
    requires Ran(l, es, m) && Inv(m) && i < |m.refunds| && CanDo(m.service, m.now, m.refunds[i], Lease)
    requires |m.desks| == |m.refunds|
    ensures Ran(l, es + [At(i, Lease)] + [At(i, CallProvider)], n) && Inv(n) && Acted(m, n, i, 0)
    ensures n.refunds[i] == m.refunds[i].(owner := Reissuing(m.now, false),
        lease := Some(m.now + STALE_REFUND_CLAIM_MS))
  {
    var m1 := Go(l, es, m, i, Lease);
    n := Go(l, es + [At(i, Lease)], m1, i, CallProvider);
  }

  /** A re-issue that ends without a crash, however it is answered, gives its lease back, and leaves an unsettled
      refund on hold with its reservation. */
  lemma EndedReissueFreesLease(l: Ledger, i: nat, a: Action)
    requires SafelyReached(l) && Enabled(l, At(i, a)) && l.refunds[i].owner.Reissuing?
    requires a.AnswerRejected? || a.AnswerUnknown? || a.AnswerStatus?
    ensures var m := Step(l, At(i, a));
            && i < |m.refunds| && m.refunds[i].lease.None? && m.refunds[i].owner.Idle? && m.total == l.total
            && (m.refunds[i].status.Pending? ==> m.refunds[i].reserved && m.refunds[i].inTotal == 1)
            && (a.AnswerUnknown? && m.refunds[i].status.Pending? ==> RefundLedger.Held(m.refunds[i], m.now))
  {
    SafelyReachedInv(l);
    assert RefundOk(l.service, l.now, l.refunds[i]);
    ActedRefund(l, i, a);
  }
}
