/**
 The exact extent of the refund service's promise: from any state reached safely, a step is outside the
 two windows if and only if nothing that follows safely can move more money than the payment holds.
 */
module RefundWindows {
  import opened Prelude
  import opened RefundLedger

  /** Amounts that a crashed or lost balance update left counted although nothing backs them. */
  function Stuck(r: Refund): int {
    if r.inTotal == 1 && !r.provider.Active? && ((r.status.Failed? && !r.releasing)
        || (r.status.Pending? && r.owner.Idle? && !r.reserved))
    then r.amount else 0
  }

  // ----- safe continuations -----

  /** Some safe run leads from `l` to `m`. */
  ghost predicate Leads(l: Ledger, m: Ledger) {
    exists es :: Run(l, es) == Some(m) && SafeRun(l, es)
  }

  lemma LeadsNowhere(l: Ledger)
    ensures Leads(l, l)
  {
    assert Run(l, []) == Some(l) && SafeRun(l, []);
  }

  lemma {:induction false} ConcatRuns(l: Ledger, es: seq<Event>, fs: seq<Event>)
    requires Run(l, es).Some? && SafeRun(l, es) && SafeRun(Run(l, es).value, fs)
    ensures Run(l, es + fs) == Run(Run(l, es).value, fs) && SafeRun(l, es + fs)
    decreases |es|
  {
    if es == [] {
      assert es + fs == fs;
    } else {
      assert (es + fs)[0] == es[0] && (es + fs)[1..] == es[1..] + fs;
      ConcatRuns(Step(l, es[0]), es[1..], fs);
    }
  }

  lemma LeadsOn(l: Ledger, m: Ledger, n: Ledger)
    requires Leads(l, m) && Leads(m, n)
    ensures Leads(l, n)
  {
    var es :| Run(l, es) == Some(m) && SafeRun(l, es);
    var fs :| Run(m, fs) == Some(n) && SafeRun(m, fs);
    ConcatRuns(l, es, fs);
    assert Run(l, es + fs) == Some(n);
  }

  lemma LeadsByStep(l: Ledger, e: Event)
    requires Enabled(l, e) && Safe(l, e)
    ensures Leads(l, Step(l, e))
  {
    var m := Step(l, e);
    assert [e][1..] == [];
    assert Run(m, []) == Some(m) && SafeRun(m, []);
    assert Run(l, [e]) == Some(m) && SafeRun(l, [e]);
  }

  // ----- a ledger in which one refund may have lost its cover -----

  ghost predicate OthersOk(l: Ledger, i: nat) {
    && i < |l.refunds| && l.refunds[i].amount > 0 && !l.refunds[i].counting
    && (forall j :: 0 <= j < |l.refunds| && j != i ==> RefundOk(l.service, l.now, l.refunds[j]))
    && l.total == Sum(l.refunds, Share) && l.total <= l.service.amount && |l.desks| == |l.refunds|
  }

  /** `m` is `l` with refund j changed, and safely reached. */
  ghost predicate Moved(l: Ledger, m: Ledger, j: nat) {
    && Leads(l, m) && m.service == l.service && m.now == l.now && |m.refunds| == |l.refunds|
    && (forall k :: 0 <= k < |l.refunds| && k != j ==> m.refunds[k] == l.refunds[k])
  }

  lemma MovedOn(l: Ledger, m: Ledger, n: Ledger, j: nat)
    requires Moved(l, m, j) && Moved(m, n, j)
    ensures Moved(l, n, j)
  {
    LeadsOn(l, m, n);
  }

  lemma Act(l: Ledger, i: nat, j: nat, a: Action) returns (m: Ledger)
    requires OthersOk(l, i) && Enabled(l, At(j, a)) && Safe(l, At(j, a))
    requires j == i ==> !Do(l.service, l.now, l.refunds[j], a, Fits(l, l.refunds[j])).counting
    ensures Moved(l, m, j) && OthersOk(m, i) && m.desks == l.desks
    ensures m.refunds[j] == Do(l.service, l.now, l.refunds[j], a, Fits(l, l.refunds[j]))
  {
    var e := At(j, a);
    m := Step(l, e);
    ActedRefund(l, j, a);
    LeadsByStep(l, e);
    StepKeepsTotal(l, e);
    if j != i {
      assert RefundOk(l.service, l.now, l.refunds[j]);
      ActedRefundOk(l, j, a);
    }
    StepKeepsBalance(l, e);
  }

  lemma CrashRequest(l: Ledger, i: nat, j: nat) returns (m: Ledger)
    requires OthersOk(l, i) && j < |l.refunds| && !l.refunds[j].owner.Idle? && !l.refunds[j].owner.Refused?
    ensures Moved(l, m, j) && OthersOk(m, i) && m.refunds[j] == Spent(l.refunds[j]).(owner := Idle)
  {
    m := Act(l, i, j, Crash);
  }

  lemma Release(l: Ledger, i: nat, j: nat) returns (m: Ledger)
    requires OthersOk(l, i) && j < |l.refunds| && l.refunds[j].releasing
    ensures Moved(l, m, j) && OthersOk(m, i) && m.refunds[j] == Released(l.refunds[j])
  {
    m := Act(l, i, j, WriteRelease);
  }

  lemma Notify(l: Ledger, i: nat, j: nat, status: Status) returns (m: Ledger)
    requires OthersOk(l, i) && j < |l.refunds| && j != i && !l.refunds[j].status.Deleted?
        && Truthful(l.refunds[j], status)
    ensures Moved(l, m, j) && OthersOk(m, i) && m.refunds[j] == Apply(l.refunds[j], status, false)
  {
    m := Act(l, i, j, Notice(status, false));
  }

  // ----- every other request ends -----

  ghost predicate NoMoreStuck(r: Refund, s: Refund) {
    s.amount == r.amount && Stuck(s) <= Stuck(r)
  }

  lemma EndReservation(l: Ledger, i: nat, j: nat) returns (m: Ledger)
    requires OthersOk(l, i) && j < |l.refunds| && j != i && l.refunds[j].owner.Reserved?
    ensures Moved(l, m, j) && OthersOk(m, i) && m.refunds[j].owner.Idle? && NoMoreStuck(l.refunds[j], m.refunds[j])
  {
    assert RefundOk(l.service, l.now, l.refunds[j]);
    var m1 := Act(l, i, j, MarkReserved);
    m := CrashRequest(m1, i, j);
    MovedOn(l, m1, m, j);
  }

  lemma EndRequest(l: Ledger, i: nat, j: nat) returns (m: Ledger)
    requires OthersOk(l, i) && j < |l.refunds| && j != i
    ensures Moved(l, m, j) && OthersOk(m, i) && m.refunds[j].owner.Idle? && NoMoreStuck(l.refunds[j], m.refunds[j])
  {
    LeadsNowhere(l);
    m := l;
    assert RefundOk(l.service, l.now, l.refunds[j]);
    match l.refunds[j].owner
    case Idle =>
    case Dropping => m := Act(l, i, j, DeleteClaim);
    case Refused => m := Act(l, i, j, DeleteClaim);
    case Reserved => m := EndReservation(l, i, j);
    case _ =>
      CrashNotStuck(l.service, l.now, l.refunds[j]);
      m := CrashRequest(l, i, j);
  }

  /** Only a crash between the reservation and its mark leaves an amount stuck. */
  lemma CrashNotStuck(s: Service, now: nat, r: Refund)
    requires RefundOk(s, now, r) && !r.owner.Idle? && !r.owner.Reserved?
    ensures NoMoreStuck(r, Spent(r).(owner := Idle))
  {
  }

  lemma {:induction false} EndRequests(l: Ledger, i: nat, n: nat) returns (m: Ledger)
    requires OthersOk(l, i) && n <= |l.refunds|
    ensures Leads(l, m) && OthersOk(m, i) && m.service == l.service && m.now == l.now && |m.refunds| == |l.refunds|
    ensures m.refunds[i] == l.refunds[i]
    ensures forall j :: 0 <= j < n && j != i ==> m.refunds[j].owner.Idle?
    ensures forall j :: 0 <= j < |l.refunds| && j != i ==> NoMoreStuck(l.refunds[j], m.refunds[j])
  {
    if n == 0 {
      LeadsNowhere(l);
      m := l;
    } else {
      var m1 := EndRequests(l, i, n - 1);
      m := m1;
      if n - 1 != i {
        m := EndRequest(m1, i, n - 1);
        LeadsOn(l, m1, m);
      }
    }
  }

  // ----- time passes -----

  /** Nothing is at work on the refund, no call can land, and it has been held long enough. */
  predicate Aged(s: Service, now: nat, r: Refund) {
    && r.owner.Idle? && !MayLandLate(r, now, s.landing)
    && now - r.createdAt >= MANUAL_NOT_REFUNDED_MIN_HOLD_MS
  }

  lemma LetTimePass(l: Ledger, i: nat) returns (m: Ledger)
    requires OthersOk(l, i) && forall j :: 0 <= j < |l.refunds| ==> l.refunds[j].owner.Idle?
    requires l.refunds[i].createdAt <= l.now && (l.refunds[i].called.Some? ==> l.refunds[i].called.value <= l.now)
    ensures Leads(l, m) && OthersOk(m, i) && m.service == l.service && m.refunds == l.refunds
    ensures forall j :: 0 <= j < |l.refunds| ==> Aged(m.service, m.now, m.refunds[j])
  {
    var ms := MANUAL_NOT_REFUNDED_MIN_HOLD_MS + l.service.landing + 1;
    m := Step(l, Tick(ms));
    LeadsByStep(l, Tick(ms));
    forall j | 0 <= j < |l.refunds| && j != i ensures RefundOk(m.service, m.now, m.refunds[j])
        && Aged(m.service, m.now, m.refunds[j]) {
      assert RefundOk(l.service, l.now, l.refunds[j]);
      TickKeepsRefund(l.service, l.now, l.refunds[j], ms);
      AgedBy(l.service, l.now, l.refunds[j]);
    }
  }

  lemma AgedBy(s: Service, now: nat, r: Refund)
    requires RefundOk(s, now, r) && r.owner.Idle?
    ensures Aged(s, now + MANUAL_NOT_REFUNDED_MIN_HOLD_MS + s.landing + 1, r)
  {
  }

  // ----- every other refund settles -----

  /** A refund nothing came of, as a person finds it. */
  predicate Abandoned(s: Service, now: nat, r: Refund) {
    Aged(s, now, r) && r.status.Pending? && r.provider.NotMade? && !r.hasRef && !r.counting && !r.releasing
  }

  /** The evidence a confirmation needs: the dashboard seen, and a lookup where there is one. */
  lemma GatherEvidence(l: Ledger, i: nat, j: nat) returns (m: Ledger)
    requires OthersOk(l, i) && j < |l.refunds| && Abandoned(l.service, l.now, l.refunds[j])
    ensures Moved(l, m, j) && OthersOk(m, i) && m.refunds[j].checked.Some?
    ensures CanConfirm(m.service, m.now, CopyOf(m.service, m.refunds[j]))
    ensures var r, s := l.refunds[j], m.refunds[j];
            s == r.(checked := s.checked, lookup := s.lookup, looked := s.looked, seen := s.seen)
  {
    m := Act(l, i, j, SeeNothing);
    if l.service.lookups {
      var m1 := m;
      m := Act(m1, i, j, LookupNothing);
      MovedOn(l, m1, m, j);
    }
  }

  /** A request reads the document and passes its checks at once. */
  lemma PassChecks(l: Ledger, i: nat, j: nat) returns (m: Ledger)
    requires OthersOk(l, i) && j < |l.refunds| && l.refunds[j].checked.Some?
    requires CanConfirm(l.service, l.now, CopyOf(l.service, l.refunds[j]))
    ensures Moved(l, m, j) && OthersOk(m, i) && m.refunds == l.refunds && m.desks[j].passed
  {
    var c := CopyOf(l.service, l.refunds[j]);
    var m1 := Step(l, Load(j));
    LeadsByStep(l, Load(j));
    m := Step(m1, Check(j, c));
    LeadsByStep(m1, Check(j, c));
    LeadsOn(l, m1, m);
  }

  lemma Abandon(l: Ledger, i: nat, j: nat) returns (m: Ledger)
    requires OthersOk(l, i) && j < |l.refunds| && Abandoned(l.service, l.now, l.refunds[j])
    ensures Moved(l, m, j) && OthersOk(m, i)
    ensures var r, s := l.refunds[j], m.refunds[j];
            && s.status.Failed? && s.provider.NotMade? && s.owner.Idle? && !s.releasing && !s.counting
                && s.amount == r.amount
            && s.inTotal == r.inTotal - if r.reserved then 1 else 0
  {
    var m0 := GatherEvidence(l, i, j);
    var m1 := PassChecks(m0, i, j);
    MovedOn(l, m0, m1, j);
    var m2 := Act(m1, i, j, WriteNotRefunded);
    MovedOn(l, m1, m2, j);
    m := m2;
    if l.refunds[j].reserved {
      m := Release(m2, i, j);
      MovedOn(l, m2, m, j);
    }
  }

  /** At rest: what moves is what is counted, but for what is stuck. */
  predicate AtRest(r: Refund) {
    r.owner.Idle? && Moving(r) == Share(r) - Stuck(r)
  }

  lemma SettleMade(l: Ledger, i: nat, j: nat) returns (m: Ledger)
    requires OthersOk(l, i) && j < |l.refunds| && j != i && Aged(l.service, l.now, l.refunds[j])
        && !l.refunds[j].provider.NotMade?
    ensures Moved(l, m, j) && OthersOk(m, i) && AtRest(m.refunds[j]) && NoMoreStuck(l.refunds[j], m.refunds[j])
  {
    var r := l.refunds[j];
    assert RefundOk(l.service, l.now, r);
    LeadsNowhere(l);
    m := l;
    if r.provider.FailedThere? && (r.status.Pending? || r.status.Succeeded?) {
      var m1 := Notify(l, i, j, Failed);
      m := Release(m1, i, j);
      MovedOn(l, m1, m, j);
    } else if r.releasing {
      m := Release(l, i, j);
    } else if r.status.Pending? {
      m := Notify(l, i, j, Succeeded);
    }
    MadeAtRest(l.service, l.now, r, m.refunds[j]);
  }

  lemma MadeAtRest(s: Service, now: nat, r: Refund, t: Refund)
    requires RefundOk(s, now, r) && Aged(s, now, r) && !r.provider.NotMade?
    requires t == if r.provider.FailedThere? && (r.status.Pending? || r.status.Succeeded?)
        then Released(Apply(r, Failed, false))
                  else if r.releasing then Released(r)
                  else if r.status.Pending? then Apply(r, Succeeded, false)
                  else r
    ensures AtRest(t) && NoMoreStuck(r, t)
  {
  }

  lemma Settle(l: Ledger, i: nat, j: nat) returns (m: Ledger)
    requires OthersOk(l, i) && j < |l.refunds| && j != i && Aged(l.service, l.now, l.refunds[j])
    ensures Moved(l, m, j) && OthersOk(m, i) && AtRest(m.refunds[j]) && NoMoreStuck(l.refunds[j], m.refunds[j])
  {
    var r := l.refunds[j];
    assert RefundOk(l.service, l.now, r);
    if !r.provider.NotMade? {
      m := SettleMade(l, i, j);
    } else if r.status.Pending? {
      m := Abandon(l, i, j);
    } else if r.releasing {
      m := Release(l, i, j);
    } else {
      LeadsNowhere(l);
      m := l;
    }
  }

  lemma {:induction false} SettleOthers(l: Ledger, i: nat, n: nat) returns (m: Ledger)
    requires OthersOk(l, i) && n <= |l.refunds|
    requires forall j :: 0 <= j < |l.refunds| && j != i ==> Aged(l.service, l.now, l.refunds[j])
    ensures Leads(l, m) && OthersOk(m, i) && m.service == l.service && m.now == l.now && |m.refunds| == |l.refunds|
    ensures m.refunds[i] == l.refunds[i] && forall j :: n <= j < |l.refunds| ==> m.refunds[j] == l.refunds[j]
    ensures forall j :: 0 <= j < n && j != i ==> AtRest(m.refunds[j])
    ensures forall j :: 0 <= j < |l.refunds| && j != i ==> NoMoreStuck(l.refunds[j], m.refunds[j])
  {
    if n == 0 {
      LeadsNowhere(l);
      m := l;
    } else {
      var m1 := SettleOthers(l, i, n - 1);
      m := m1;
      if n - 1 != i {
        m := Settle(m1, i, n - 1);
        LeadsOn(l, m1, m);
      }
    }
  }

  // ----- the refund that lost its cover -----

  /** Settled as failed, yet short of its cover by its amount. */
  predicate Short(r: Refund) {
    r.owner.Idle? && r.status.Failed? && !r.releasing && !r.counting && r.amount > 0
        && Moving(r) - Share(r) == r.amount && Stuck(r) == 0
  }

  predicate Past(now: nat, r: Refund) {
    r.createdAt <= now && (r.called.Some? ==> r.called.value <= now)
  }

  /** A refund settled as not refunded whose money moves, or can be made to move. */
  predicate WronglySettled(s: Service, now: nat, r: Refund) {
    && r.status.Failed? && r.releasing && !r.counting && r.inTotal == 1 && r.amount > 0 && !Harmless(s, now, r)
    && r.createdAt <= now && (r.called.Some? ==> r.called.value <= now) && (Awaiting(r.owner) ==> r.owner.sent <= now)
    && !Claiming(r.owner)
  }

  lemma CallAgain(l: Ledger, i: nat, j: nat) returns (m: Ledger)
    requires OthersOk(l, i) && j < |l.refunds| && l.refunds[j].owner.Leased? && (j == i ==> !l.refunds[j].counting)
    ensures Moved(l, m, j) && OthersOk(m, i) && m.refunds[j] == l.refunds[j].(owner := Reissuing(l.now, false))
  {
    m := Act(l, i, j, CallProvider);
  }

  lemma Land(l: Ledger, i: nat, j: nat) returns (m: Ledger)
    requires OthersOk(l, i) && j < |l.refunds| && (j == i ==> !l.refunds[j].counting) && l.refunds[j].provider.NotMade?
    requires MayLandNow(l.refunds[j], l.now, l.service.landing) || MayLandLate(l.refunds[j], l.now, l.service.landing)
    ensures Moved(l, m, j) && OthersOk(m, i)
    ensures m.refunds[j] == l.refunds[j].(provider := Active, owner := m.refunds[j].owner)
    ensures m.refunds[j].owner == l.refunds[j].owner || (Awaiting(l.refunds[j].owner)
        && m.refunds[j].owner == l.refunds[j].owner.(took := true))
  {
    if MayLandNow(l.refunds[j], l.now, l.service.landing) {
      m := Act(l, i, j, LandNow);
    } else {
      m := Act(l, i, j, LandLate);
    }
  }

  lemma LandRefund(l: Ledger, i: nat) returns (m: Ledger)
    requires OthersOk(l, i) && var r := l.refunds[i]; WronglySettled(l.service, l.now, r)
    ensures Moved(l, m, i) && OthersOk(m, i)
    ensures WronglySettled(m.service, m.now, m.refunds[i]) && m.refunds[i].provider.Active?
        && m.refunds[i].amount == l.refunds[i].amount
  {
    LeadsNowhere(l);
    m := l;
    if l.refunds[i].provider.NotMade? {
      if l.refunds[i].owner.Leased? {
        var m1 := CallAgain(l, i, i);
        m := Land(m1, i, i);
        MovedOn(l, m1, m, i);
      } else {
        m := Land(l, i, i);
      }
    }
  }

  lemma MoneyMoves(l: Ledger, i: nat) returns (m: Ledger)
    requires OthersOk(l, i) && WronglySettled(l.service, l.now, l.refunds[i])
    ensures Moved(l, m, i) && OthersOk(m, i) && Short(m.refunds[i]) && Past(m.now, m.refunds[i])
        && m.refunds[i].amount == l.refunds[i].amount
  {
    var m1 := LandRefund(l, i);
    var m2 := Release(m1, i, i);
    MovedOn(l, m1, m2, i);
    m := m2;
    if !m2.refunds[i].owner.Idle? {
      m := CrashRequest(m2, i, i);
      MovedOn(l, m2, m, i);
    }
  }

  // ----- the payment is refunded once more -----

  function NewKey(rs: seq<Refund>): (k: nat)
    ensures forall i :: 0 <= i < |rs| ==> rs[i].key < k
  {
    if rs == [] then 0
    else
      var k, last := NewKey(rs[..|rs| - 1]), rs[|rs| - 1].key;
      if last < k then k else last + 1
  }

  lemma {:induction false} SumShort(rs: seq<Refund>, i: nat)
    requires i < |rs| && Short(rs[i]) && forall j :: 0 <= j < |rs| && j != i ==> AtRest(rs[j])
    ensures Sum(rs, Moving) == Sum(rs, Share) - Sum(rs, Stuck) + rs[i].amount
  {
    if i == 0 {
      SumRest(rs[1..]);
    } else {
      SumShort(rs[1..], i - 1);
    }
  }

  lemma {:induction false} SumRest(rs: seq<Refund>)
    requires forall j :: 0 <= j < |rs| ==> AtRest(rs[j])
    ensures Sum(rs, Moving) == Sum(rs, Share) - Sum(rs, Stuck)
  {
    if rs != [] {
      SumRest(rs[1..]);
    }
  }

  lemma {:induction false} SumNoMore(rs: seq<Refund>, ss: seq<Refund>)
    requires |rs| == |ss| && forall j :: 0 <= j < |rs| ==> Stuck(ss[j]) <= Stuck(rs[j])
    ensures Sum(ss, Stuck) <= Sum(rs, Stuck)
  {
    if rs != [] {
      SumNoMore(rs[1..], ss[1..]);
    }
  }

  /** The whole remaining balance is refunded. */
  lemma RefundTheRest(l: Ledger, i: nat) returns (m: Ledger)
    requires OthersOk(l, i)
    ensures Leads(l, m) && Sum(m.refunds, Moving) == Sum(l.refunds, Moving) + l.service.amount - l.total
  {
    LeadsNowhere(l);
    m := l;
    if l.total < l.service.amount {
      var n := |l.refunds|;
      var e := Claim(NewKey(l.refunds), l.service.amount - l.total);
      var m1 := Step(l, e);
      LeadsByStep(l, e);
      StepKeepsTotal(l, e);
      NewClaimOk(l, e);
      assert OthersOk(m1, i);
      var m2 := CompleteClaim(m1, i, n);
      LeadsOn(l, m1, m2);
      assert m2.refunds[..n] == l.refunds;
      assert m2.refunds == l.refunds + [m2.refunds[n]];
      SumAppend(l.refunds, m2.refunds[n], Moving);
      m := m2;
    }
  }

  lemma CompleteClaim(l: Ledger, i: nat, j: nat) returns (m: Ledger)
    requires OthersOk(l, i) && j < |l.refunds| && j != i && l.refunds[j].owner.Claimed?
        && l.refunds[j].provider.NotMade?
    requires Fits(l, l.refunds[j])
    ensures Moved(l, m, j) && m.refunds[j].provider.Active? && m.refunds[j].amount == l.refunds[j].amount
  {
    var m1 := Act(l, i, j, Reserve);
    var m2 := Act(m1, i, j, MarkReserved);
    var m3 := Act(m2, i, j, CallProvider);
    m := Land(m3, i, j);
    MovedOn(l, m1, m2, j);
    MovedOn(l, m2, m3, j);
    MovedOn(l, m3, m, j);
  }

  // ----- from an unsafe step to an over-refund -----

  lemma WriteWronglySettles(s: Service, now: nat, r: Refund)
    requires RefundOk(s, now, r) && CanDo(s, now, r, WriteNotRefunded) && !MayFail(s, now, r)
    ensures WronglySettled(s, now, Apply(r, Failed, false))
  {
  }

  lemma CrashAbandons(s: Service, now: nat, r: Refund, fits: bool)
    requires RefundOk(s, now, r) && r.owner.Refused?
    ensures var t := Do(s, now, r, Crash, fits);
            t == r.(owner := Idle) && t.status.Pending? && t.provider.NotMade? && !t.hasRef && !t.counting
                && !t.releasing
            && t.reserved && t.inTotal == 0 && t.amount > 0 && Past(now, t)
  {
  }

  lemma UnsafeLeavesOthers(l: Ledger, e: Event)
    requires Inv(l) && Enabled(l, e) && !Safe(l, e)
    ensures e.At? && Step(l, e).refunds[e.i] == Do(l.service, l.now, l.refunds[e.i], e.action, Fits(l, l.refunds[e.i]))
    ensures Step(l, e).service == l.service && Step(l, e).now == l.now && |Step(l, e).refunds| == |l.refunds|
    ensures forall j :: 0 <= j < |l.refunds| && j != e.i ==> Step(l, e).refunds[j] == l.refunds[j]
    ensures Step(l, e).refunds[e.i].counting == false ==> OthersOk(Step(l, e), e.i)
  {
    var r := l.refunds[e.i];
    assert RefundOk(l.service, l.now, r);
    ActedRefund(l, e.i, e.action);
    StepKeepsTotal(l, e);
    StepKeepsBalance(l, e);
  }

  /** One refund short, all others at rest: the state both windows lead to. */
  ghost predicate ShortAtRest(l: Ledger, m: Ledger, i: nat) {
    && OthersOk(m, i) && Short(m.refunds[i]) && m.service == l.service && |m.refunds| == |l.refunds|
    && (forall j :: 0 <= j < |m.refunds| && j != i ==> AtRest(m.refunds[j]) && NoMoreStuck(l.refunds[j], m.refunds[j]))
  }

  /** Ends every other request and lets the evidence age. */
  lemma RestAndWait(l: Ledger, i: nat) returns (m: Ledger)
    requires OthersOk(l, i) && l.refunds[i].owner.Idle? && Past(l.now, l.refunds[i])
    ensures Leads(l, m) && OthersOk(m, i) && m.service == l.service && |m.refunds| == |l.refunds|
        && m.refunds[i] == l.refunds[i]
    ensures forall j :: 0 <= j < |l.refunds| ==> Aged(m.service, m.now, m.refunds[j])
    ensures forall j :: 0 <= j < |l.refunds| && j != i ==> NoMoreStuck(l.refunds[j], m.refunds[j])
  {
    var m1 := EndRequests(l, i, |l.refunds|);
    m := LetTimePass(m1, i);
    LeadsOn(l, m1, m);
  }

  lemma SettleTheRest(l: Ledger, i: nat) returns (m: Ledger)
    requires OthersOk(l, i) && Short(l.refunds[i]) && forall j :: 0 <= j < |l.refunds| && j != i ==>
        Aged(l.service, l.now, l.refunds[j])
    ensures Leads(l, m) && ShortAtRest(l, m, i) && m.refunds[i] == l.refunds[i]
  {
    m := SettleOthers(l, i, |l.refunds|);
  }

  lemma WriteLeadsToShort(l: Ledger, i: nat) returns (m: Ledger)
    requires Inv(l) && Enabled(l, At(i, WriteNotRefunded)) && !Safe(l, At(i, WriteNotRefunded))
    ensures Leads(Step(l, At(i, WriteNotRefunded)), m) && ShortAtRest(l, m, i)
  {
    var e := At(i, WriteNotRefunded);
    var l1 := Step(l, e);
    assert RefundOk(l.service, l.now, l.refunds[i]);
    WriteWronglySettles(l.service, l.now, l.refunds[i]);
    UnsafeLeavesOthers(l, e);
    var m1 := MoneyMoves(l1, i);
    var m2 := RestAndWait(m1, i);
    m := SettleTheRest(m2, i);
    LeadsOn(l1, m1, m2);
    LeadsOn(l1, m2, m);
  }

  /** The crashed claim is left alone until a person gives it up. */
  lemma CrashIsAbandoned(l: Ledger, i: nat) returns (m: Ledger)
    requires Inv(l) && Enabled(l, At(i, Crash)) && !Safe(l, At(i, Crash))
    ensures Leads(Step(l, At(i, Crash)), m) && OthersOk(m, i) && m.service == l.service && |m.refunds| == |l.refunds|
    ensures Abandoned(m.service, m.now, m.refunds[i]) && m.refunds[i].reserved && m.refunds[i].inTotal == 0
    ensures forall j :: 0 <= j < |l.refunds| && j != i ==>
              Aged(m.service, m.now, m.refunds[j]) && NoMoreStuck(l.refunds[j], m.refunds[j])
  {
    var e := At(i, Crash);
    assert RefundOk(l.service, l.now, l.refunds[i]);
    CrashAbandons(l.service, l.now, l.refunds[i], Fits(l, l.refunds[i]));
    UnsafeLeavesOthers(l, e);
    m := RestAndWait(Step(l, e), i);
  }

  lemma CrashLeadsToShort(l: Ledger, i: nat) returns (m: Ledger)
    requires Inv(l) && Enabled(l, At(i, Crash)) && !Safe(l, At(i, Crash))
    ensures Leads(Step(l, At(i, Crash)), m) && ShortAtRest(l, m, i)
  {
    var l1 := Step(l, At(i, Crash));
    var m1 := CrashIsAbandoned(l, i);
    var m2 := Abandon(m1, i, i);
    m := SettleTheRest(m2, i);
    LeadsOn(l1, m1, m2);
    LeadsOn(l1, m2, m);
  }

  /** Every step into a window continues, by safe steps the code allows, to the provider moving more money
      than the payment holds, less what was stuck in the balance already. */
  lemma UnsafeStepOverRefunds(l: Ledger, e: Event) returns (m: Ledger)
    requires Inv(l) && Enabled(l, e) && !Safe(l, e)
    ensures Leads(Step(l, e), m) && Sum(m.refunds, Moving) > l.service.amount - Sum(l.refunds, Stuck)
  {
    var i := e.i;
    var m1;
    if e.action.Crash? {
      m1 := CrashLeadsToShort(l, i);
    } else {
      m1 := WriteLeadsToShort(l, i);
    }
    SumShort(m1.refunds, i);
    SumNoMore(l.refunds, m1.refunds);
    m := RefundTheRest(m1, i);
    LeadsOn(Step(l, e), m1, m);
  }

  // ----- and exactly those steps -----

  ghost predicate SafelyReached(l: Ledger) {
    Leads(New(l.service), l)
  }

  lemma SafelyReachedInv(l: Ledger)
    requires SafelyReached(l)
    ensures Inv(l)
  {
    var es :| Run(New(l.service), es) == Some(l) && SafeRun(New(l.service), es);
    SafeRunKeepsInv(New(l.service), es);
  }

  lemma StuckIsCounted(s: Service, now: nat, r: Refund)
    requires RefundOk(s, now, r)
    ensures Moving(r) + Stuck(r) <= Share(r)
  {
  }

  lemma ApplyKeepsStuck(s: Service, now: nat, r: Refund, status: Status, ref: bool)
    requires RefundOk(s, now, r) && (Truthful(r, status) || (status.Failed? && MayFail(s, now, r)))
    ensures Stuck(r) <= Stuck(Apply(r, status, ref)) && Stuck(Apply(r, status, ref)) <= Stuck(Apply(r, status,
        ref).(owner := Idle))
  {
  }

  /** What is stuck stays stuck. */
  lemma ActionKeepsStuck(s: Service, now: nat, r: Refund, a: Action, fits: bool)
    requires RefundOk(s, now, r) && CanDo(s, now, r, a) && SafeFor(s, now, r, a)
    ensures Stuck(r) <= Stuck(Do(s, now, r, a, fits))
  {
    if a.AnswerStatus? || a.Notice? {
      ApplyKeepsStuck(s, now, r, a.status, a.ref);
    } else if a.WriteNotRefunded? {
      ApplyKeepsStuck(s, now, r, Failed, false);
    } else {
      PlainActionKeepsStuck(s, now, r, a, fits);
    }
  }

  lemma PlainActionKeepsStuck(s: Service, now: nat, r: Refund, a: Action, fits: bool)
    requires RefundOk(s, now, r) && CanDo(s, now, r, a) && SafeFor(s, now, r, a)
    requires !a.AnswerStatus? && !a.Notice? && !a.WriteNotRefunded?
    ensures Stuck(r) <= Stuck(Do(s, now, r, a, fits))
  {
  }

  lemma StepKeepsStuck(l: Ledger, e: Event)
    requires Inv(l) && Enabled(l, e) && Safe(l, e)
    ensures Sum(l.refunds, Stuck) <= Sum(Step(l, e).refunds, Stuck)
  {
    match e
    case Claim(_, _) => SumAppend(l.refunds, Step(l, e).refunds[|l.refunds|], Stuck);
    case At(i, a) =>
      ActedRefund(l, i, a);
      assert RefundOk(l.service, l.now, l.refunds[i]);
      ActionKeepsStuck(l.service, l.now, l.refunds[i], a, Fits(l, l.refunds[i]));
      SumUpdate(l.refunds, i, Step(l, e).refunds[i], Stuck);
    case _ =>
  }

  lemma {:induction false} RunKeepsStuck(l: Ledger, es: seq<Event>)
    requires Inv(l) && Run(l, es).Some? && SafeRun(l, es)
    ensures Inv(Run(l, es).value) && Run(l, es).value.service == l.service
    ensures Sum(l.refunds, Stuck) <= Sum(Run(l, es).value.refunds, Stuck)
    decreases |es|
  {
    if es != [] {
      StepKeepsInv(l, es[0]);
      StepKeepsStuck(l, es[0]);
      RunKeepsStuck(Step(l, es[0]), es[1..]);
    }
  }

  function MovingOrStuck(r: Refund): int {
    Moving(r) + Stuck(r)
  }

  lemma {:induction false} SumBoth(rs: seq<Refund>)
    ensures Sum(rs, MovingOrStuck) == Sum(rs, Moving) + Sum(rs, Stuck)
  {
    if rs != [] {
      SumBoth(rs[1..]);
    }
  }

  lemma InvBoundsBoth(l: Ledger)
    requires Inv(l)
    ensures Sum(l.refunds, Moving) + Sum(l.refunds, Stuck) <= l.service.amount
  {
    forall i | 0 <= i < |l.refunds| ensures MovingOrStuck(l.refunds[i]) <= Share(l.refunds[i]) {
      StuckIsCounted(l.service, l.now, l.refunds[i]);
    }
    SumMonotone(l.refunds, MovingOrStuck, Share);
    SumBoth(l.refunds);
  }

  /** The promise, exactly: after a step from a safely reached state, the money the provider moves can
      never exceed the payment (less what is stuck) if and only if the step is outside the two windows. */
  lemma WindowsAreExact(l: Ledger, e: Event)
    requires SafelyReached(l) && Enabled(l, e)
    ensures Safe(l, e) <==>
              forall m :: Leads(Step(l, e), m) ==> Sum(m.refunds, Moving) <= l.service.amount - Sum(l.refunds, Stuck)
  {
    SafelyReachedInv(l);
    if Safe(l, e) {
      StepKeepsInv(l, e);
      StepKeepsStuck(l, e);
      forall m | Leads(Step(l, e), m) ensures Sum(m.refunds, Moving) <= l.service.amount - Sum(l.refunds, Stuck) {
        var es :| Run(Step(l, e), es) == Some(m) && SafeRun(Step(l, e), es);
        RunKeepsStuck(Step(l, e), es);
        InvBoundsBoth(m);
      }
    } else {
      var m := UnsafeStepOverRefunds(l, e);
    }
  }
}
