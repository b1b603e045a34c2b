/**
 apps/api/src/services/payment.service.ts, lines 383 to 876: how one payment's refunds claim a key,
 reserve their amount, call the provider, are looked up, re-issued and settled, on a clock. Every
 database operation, provider answer and human decision is one step, so requests, retries, webhooks,
 lookups, staff and crashes interleave freely. Amounts are in cents, times in milliseconds.
 */
module RefundLedger {
  import opened Prelude

  const STALE_REFUND_CLAIM_MS: nat := 300_000
  const MANUAL_NOT_REFUNDED_MIN_HOLD_MS: nat := 1_800_000
  const LOOKUP_EVIDENCE_MAX_AGE_MS: nat := 900_000
  const PROVIDER_IDEMPOTENCY_WINDOW_MS: nat := 82_800_000

  /** What does not change: the payment's amount, whether the provider supports lookups and idempotency
      keys, and how long after it was sent a call may still take effect there. */
  datatype Service = Service(amount: nat, lookups: bool, idempotent: bool, landing: nat)

  datatype Status = Pending | Succeeded | Failed | Deleted

  /** Where the request that works on a refund is; Idle when none does (finished, or crashed).
      `Refused` has released the reservation and is about to delete the claim; `took` is history: the
      call being awaited is the one the provider made the refund for. */
  datatype Owner = Claimed | Dropping | Reserved | Marked | Calling(sent: nat, took: bool) | Refused
                 | Leased | Reissuing(sent: nat, took: bool) | Idle

  /** The provider's own record under the refund's key: nothing, a refund that moves money, or one
      that failed there. */
  datatype Provider = NotMade | Active | FailedThere

  /** What a request that settles a refund by hand has read of the document: `seen` is the evidence it goes by,
      lastLookupAt of a "not_found" where the provider supports lookups, else the person's own check. */
  datatype Copy = Copy(createdAt: nat, status: Status, reserved: bool, unknown: bool, hasRef: bool, seen: Option<nat>)

  /** The document: `reserved`, `unknown` and `hasRef` are amountReserved, providerOutcomeUnknown and the
      presence of providerRefundRef; `lookup` is lastLookupAt while lastLookupResult is "not_found";
      `checked` is when a person last saw no such refund in the provider's dashboard; `lease` is
      reissueLeaseUntil; `releasing` and `counting` are balance updates decided by a status change but not
      yet written. History: `looked` says that some lookup found nothing; `seen` is when a lookup
      or a person last found nothing; `called` is when the last call that was not refused, and is no longer
      awaited, was sent; `inTotal` counts how often the amount is in totalRefunded. */
  datatype Refund = Refund(key: nat, amount: nat, createdAt: nat, status: Status, reserved: bool, unknown: bool,
                           hasRef: bool, lookup: Option<nat>, checked: Option<nat>, lease: Option<nat>,
                           owner: Owner, releasing: bool, counting: bool,
                           provider: Provider, called: Option<nat>, looked: bool, seen: Option<nat>, inTotal: int)

  /** The requests to settle one refund by hand: what they have read, and whether one passed its checks. */
  datatype Desk = Desk(copies: set<Copy>, passed: bool)

  datatype Ledger = Ledger(service: Service, now: nat, total: int, refunds: seq<Refund>, desks: seq<Desk>)

  datatype Action =
    | Reserve
    | MarkReserved
    | CallProvider
    | AnswerRejected
    | AnswerUnknown
    | AnswerStatus(status: Status, ref: bool)
    | DeleteClaim
    | Crash
    | Notice(status: Status, ref: bool)
    | WriteRelease
    | WriteCount
    | LoseBalanceWrite
    | LookupNothing
    | LookupElse
    | SeeNothing
    | Lease
    | WriteNotRefunded
    | LandNow
    | LandLate
    | ProviderFails

  datatype Event =
    | Claim(key: nat, amount: nat)
    | Tick(ms: nat)
    | Load(i: nat)
    | Check(i: nat, copy: Copy)
    | At(i: nat, action: Action)

  function New(service: Service): Ledger {
    Ledger(service, 0, 0, [], [])
  }

  // ----- one refund -----

  /** isHeld */
  predicate Held(r: Refund, now: nat) {
    r.status.Pending? && (r.unknown || (!r.hasRef && now - r.createdAt > STALE_REFUND_CLAIM_MS))
  }

  /** The gate of reconcileRefund and resolveHeldRefund. */
  predicate Open(r: Refund, now: nat) {
    r.status.Pending? && (Held(r, now) || r.hasRef)
  }

  /** What the provider may say: it reports a refund only if it made it, a failure only if it failed. */
  predicate Truthful(r: Refund, status: Status) {
    || (status.Failed? && r.provider.FailedThere?)
    || ((status.Succeeded? || status.Pending?) && !r.provider.NotMade?)
  }

  predicate Awaiting(o: Owner) {
    o.Calling? || o.Reissuing?
  }

  /** A call that is no longer awaited may still take effect. */
  predicate MayLandLate(r: Refund, now: nat, landing: nat) {
    r.called.Some? && now <= r.called.value + landing
  }

  predicate MayLandNow(r: Refund, now: nat, landing: nat) {
    Awaiting(r.owner) && now <= r.owner.sent + landing
  }

  /** Still the same claim, counted the same in the balance. */
  predicate SameClaim(r: Refund, a: Refund) {
    a.key == r.key && a.amount == r.amount && a.createdAt == r.createdAt && a.inTotal == r.inTotal
  }

  /** applyRefundOutcome up to its conditional update; the balance update it decides on is a later step. */
  function Apply(r: Refund, to: Status, ref: bool): (a: Refund)
    ensures SameClaim(r, a) && a.owner == r.owner && a.provider == r.provider
    ensures r.status.Deleted? ==> a.status.Deleted?
  {
    var ref := r.hasRef || ref;
    if r.status == to then r.(unknown := false, hasRef := ref)
    else if r.status.Pending? && to.Succeeded? then
      r.(status := Succeeded, counting := r.counting || !r.reserved, reserved := true, unknown := false, hasRef := ref)
    else if (r.status.Pending? || r.status.Succeeded?) && to.Failed? then
      r.(status := Failed, releasing := r.releasing || r.reserved || r.status.Succeeded?, reserved := false,
         unknown := false, hasRef := ref)
    else r
  }

  /** The end of a request: a re-issue gives its lease back. */
  function Finish(r: Refund): Refund {
    r.(owner := Idle, lease := if r.owner.Reissuing? then None else r.lease)
  }

  /** The awaited call is given up, or was answered; it may have taken effect. */
  function Spent(r: Refund): Refund {
    r.(called := if Awaiting(r.owner) then Some(r.owner.sent) else r.called)
  }

  function CopyOf(s: Service, r: Refund): Copy {
    Copy(r.createdAt, r.status, r.reserved, r.unknown, r.hasRef, if s.lookups then r.lookup else r.checked)
  }

  /** The checks of resolveHeldRefund for "not_refunded", on what was read and the clock of now. */
  predicate CanConfirm(s: Service, now: nat, c: Copy) {
    && c.status.Pending? && (c.unknown || c.hasRef || now - c.createdAt > STALE_REFUND_CLAIM_MS)
    && now - c.createdAt >= MANUAL_NOT_REFUNDED_MIN_HOLD_MS
    && c.seen.Some? && (s.lookups ==> now - c.seen.value <= LOOKUP_EVIDENCE_MAX_AGE_MS)
  }

  predicate CanDo(s: Service, now: nat, r: Refund, a: Action) {
    match a
    case Reserve => r.owner.Claimed?
    case MarkReserved => r.owner.Reserved?
    case CallProvider => r.owner.Marked? || r.owner.Leased?
    case AnswerRejected =>
      // the only call under a key is refused only if it did nothing; a re-issue may be refused for an earlier call
      (r.owner.Calling? && r.provider.NotMade?) || (r.owner.Reissuing? && !r.owner.took)
    case AnswerUnknown => Awaiting(r.owner)
    case AnswerStatus(status, _) => Awaiting(r.owner) && Truthful(r, status)
    case DeleteClaim => r.owner.Dropping? || r.owner.Refused?
    case Crash => !r.owner.Idle?
    case Notice(status, _) => !r.status.Deleted? && Truthful(r, status)
    case WriteRelease => r.releasing
    case WriteCount => r.counting
    case LoseBalanceWrite => r.releasing || r.counting
    case LookupNothing => s.lookups && Open(r, now) && r.provider.NotMade?
    case LookupElse => s.lookups && Open(r, now)
    case SeeNothing => r.status.Pending? && r.provider.NotMade?
    case Lease =>
      // a request leases on its own lookup, whatever another one has recorded since
      && s.lookups && s.idempotent && r.status.Pending? && r.looked && !r.hasRef && r.reserved
      && now - r.createdAt < PROVIDER_IDEMPOTENCY_WINDOW_MS
      && (r.lease.Some? ==> r.lease.value < now)
    // a request that passed its checks has found the claim this old
    case WriteNotRefunded => now - r.createdAt >= MANUAL_NOT_REFUNDED_MIN_HOLD_MS
    case LandNow => r.provider.NotMade? && MayLandNow(r, now, s.landing)
    case LandLate => r.provider.NotMade? && MayLandLate(r, now, s.landing)
    case ProviderFails => r.provider.Active?
  }

  /** How an action moves totalRefunded: up by the amount, down by it, or not. */
  function BalanceChange(r: Refund, a: Action, fits: bool): int {
    if (a.Reserve? && fits) || a.WriteCount? then 1
    else if (a.AnswerRejected? && r.owner.Calling?) || a.WriteRelease? then -1
    else 0
  }

  predicate IsWork(a: Action) {
    a.Reserve? || a.MarkReserved? || a.CallProvider? || a.AnswerRejected? || a.AnswerUnknown? || a.AnswerStatus?
    || a.DeleteClaim? || a.Crash?
  }

  /** The steps of the request at work on the refund; `fits` says whether a reservation succeeds. */
  function Work(now: nat, r: Refund, a: Action, fits: bool): (d: Refund)
    requires IsWork(a) && (a.CallProvider? ==> r.owner.Marked? || r.owner.Leased?)
    ensures SameClaim(r, d) && (r.status.Deleted? ==> d.status.Deleted?)
  {
    match a
    case Reserve => r.(owner := if fits then Reserved else Dropping)
    case MarkReserved => r.(owner := Marked, reserved := r.reserved || r.status.Pending?)
    case CallProvider => r.(owner := if r.owner.Marked? then Calling(now, false) else Reissuing(now, false))
    case AnswerRejected => if r.owner.Calling? then r.(owner := Refused) else Finish(r)
    case AnswerUnknown => Finish(Spent(r.(unknown := r.unknown || r.status.Pending?)))
    case AnswerStatus(status, ref) => Finish(Spent(Apply(r, status, ref)))
    case DeleteClaim => r.(owner := Idle, status := if r.status.Pending? then Deleted else r.status)
    case _ => Spent(r).(owner := Idle)
  }

  predicate IsReading(a: Action) {
    a.LookupNothing? || a.LookupElse? || a.SeeNothing? || a.Lease?
  }

  /** Lookups, checks and the lease: nothing that changes the status or the balance. */
  function Read(s: Service, now: nat, r: Refund, a: Action): (d: Refund)
    requires IsReading(a)
    ensures SameClaim(r, d) && d.status == r.status
  {
    match a
    case LookupNothing => r.(lookup := Some(now), seen := Some(now), looked := true)
    case LookupElse => r.(lookup := None)
    case SeeNothing => r.(checked := Some(now), seen := Some(now))
    case _ => r.(owner := Leased, lease := Some(now + STALE_REFUND_CLAIM_MS))
  }

  predicate IsSettling(a: Action) {
    a.Notice? || a.WriteNotRefunded? || a.WriteRelease? || a.WriteCount? || a.LoseBalanceWrite?
  }

  /** Status changes from elsewhere, and the balance updates they decided on. */
  function Settling(r: Refund, a: Action): (d: Refund)
    requires IsSettling(a)
    ensures SameClaim(r, d) && (r.status.Deleted? ==> d.status.Deleted?)
  {
    match a
    case Notice(status, ref) => Apply(r, status, ref)
    case WriteNotRefunded => Apply(r, Failed, false)
    case WriteRelease => r.(releasing := false)
    case WriteCount => r.(counting := false)
    case _ => r.(releasing := false, counting := false)
  }

  /** One action on a refund: still the same claim, its share of the balance as the balance changes. */
  function Do(s: Service, now: nat, r: Refund, a: Action, fits: bool): (d: Refund)
    requires CanDo(s, now, r, a)
    ensures d.key == r.key && d.amount == r.amount && d.createdAt == r.createdAt
    ensures d.inTotal == r.inTotal + BalanceChange(r, a, fits) && (r.status.Deleted? ==> d.status.Deleted?)
  {
    var r := r.(inTotal := r.inTotal + BalanceChange(r, a, fits));
    if IsWork(a) then Work(now, r, a, fits)
    else if IsReading(a) then Read(s, now, r, a)
    else if IsSettling(a) then Settling(r, a)
    else
      match a
      case LandNow => r.(provider := Active, owner := r.owner.(took := true))
      case LandLate => r.(provider := Active)
      case _ => r.(provider := FailedThere)
  }

  // ----- the ledger -----

  /** A request runs for less than the stale-claim time, a re-issue for less than its lease. */
  predicate InTime(r: Refund, now: nat) {
    match r.owner
    case Idle => true
    case Leased => r.lease.Some? && now <= r.lease.value
    case Reissuing(_, _) => r.lease.Some? && now <= r.lease.value
    case _ => now <= r.createdAt + STALE_REFUND_CLAIM_MS
  }

  predicate Enabled(l: Ledger, e: Event) {
    match e
    case Claim(key, amount) =>
      // the unique {restaurantId, idempotencyKey} index
      amount > 0 && forall i :: 0 <= i < |l.refunds| ==> l.refunds[i].key != key || l.refunds[i].status.Deleted?
    case Tick(ms) => forall i :: 0 <= i < |l.refunds| ==> InTime(l.refunds[i], l.now + ms)
    // the request says that a person looked, which can be at any time before
    case Load(i) => i < |l.refunds| && i < |l.desks| && l.refunds[i].checked.Some?
    case Check(i, copy) =>
      i < |l.refunds| && i < |l.desks| && copy in l.desks[i].copies && CanConfirm(l.service, l.now, copy)
    case At(i, a) =>
      && i < |l.refunds| && i < |l.desks| && CanDo(l.service, l.now, l.refunds[i], a)
      && (a.WriteNotRefunded? ==> l.desks[i].passed)
  }

  /** The balance still covers the amount, as the reservation's filter checks. */
  predicate Fits(l: Ledger, r: Refund) {
    l.total + r.amount <= l.service.amount
  }

  function NewClaim(key: nat, amount: nat, now: nat): Refund {
    Refund(key, amount, now, Pending, false, false, false, None, None, None, Claimed, false, false,
           NotMade, None, false, None, 0)
  }

  function Step(l: Ledger, e: Event): Ledger
    requires Enabled(l, e)
  {
    match e
    case Claim(key, amount) =>
      l.(refunds := l.refunds + [NewClaim(key, amount, l.now)], desks := l.desks + [Desk({}, false)])
    case Tick(ms) => l.(now := l.now + ms)
    case Load(i) =>
      l.(desks := l.desks[i := l.desks[i].(copies := l.desks[i].copies + {CopyOf(l.service, l.refunds[i])})])
    case Check(i, _) => l.(desks := l.desks[i := l.desks[i].(passed := true)])
    case At(i, a) =>
      var r := l.refunds[i];
      var fits := Fits(l, r);
      l.(total := l.total + BalanceChange(r, a, fits) * r.amount,
          refunds := l.refunds[i := Do(l.service, l.now, r, a, fits)])
  }

  function Run(l: Ledger, es: seq<Event>): Option<Ledger>
    decreases |es|
  {
    if es == [] then Some(l)
    else if Enabled(l, es[0]) then Run(Step(l, es[0]), es[1..])
    else None
  }

  // ----- the unsafe steps -----

  /** The provider has made no refund that moves money, and no call can make one any more. */
  predicate Harmless(s: Service, now: nat, r: Refund) {
    && !r.provider.Active?
    && (r.provider.NotMade? ==> !r.owner.Leased? && !MayLandNow(r, now, s.landing) && !MayLandLate(r, now, s.landing))
  }

  /** Writing "not refunded" changes nothing, or is right. */
  predicate MayFail(s: Service, now: nat, r: Refund) {
    r.status.Pending? || r.status.Succeeded? ==> Harmless(s, now, r)
  }

  /** The two windows: a crash between releasing a rejected claim and deleting it, and a "not refunded" that is
      written, whatever was checked before, on a refund that the provider made, or can still make. */
  predicate Safe(l: Ledger, e: Event)
    requires Enabled(l, e)
  {
    e.At? ==>
      && (e.action.Crash? ==> !l.refunds[e.i].owner.Refused?)
      && (e.action.WriteNotRefunded? ==> MayFail(l.service, l.now, l.refunds[e.i]))
  }

  // ----- the invariant of one refund -----

  predicate Claiming(o: Owner) {
    o.Claimed? || o.Dropping? || o.Reserved? || o.Marked? || o.Refused?
  }

  predicate CanReissue(s: Service) {
    s.lookups && s.idempotent
  }

  /** No call is sent later: a claim's own call goes out within the stale-claim time, a re-issue within its
      lease, which is taken inside the provider's idempotency window. */
  function LastCall(s: Service, createdAt: nat): nat {
    createdAt + STALE_REFUND_CLAIM_MS + if CanReissue(s) then PROVIDER_IDEMPOTENCY_WINDOW_MS - 1 else 0
  }

  /** Some call may have taken effect after `t`. */
  predicate CalledAfter(r: Refund, t: nat, landing: nat) {
    || (r.called.Some? && t <= r.called.value + landing)
    || (Awaiting(r.owner) && r.owner.took && t <= r.owner.sent + landing)
  }

  predicate TimesOk(s: Service, now: nat, r: Refund) {
    && r.createdAt <= now && InTime(r, now)
    && (r.called.Some? ==> r.called.value <= now)
    && (Awaiting(r.owner) ==> r.owner.sent <= now && (r.called.Some? ==> r.called.value <= r.owner.sent))
    && (r.seen.Some? ==> r.seen.value <= now && (!r.provider.NotMade? ==> CalledAfter(r, r.seen.value, s.landing)))
    && (r.checked.Some? ==> r.seen.Some? && r.createdAt <= r.checked.value <= r.seen.value)
    && (r.hasRef && r.unknown && r.seen.Some? ==> r.seen.value <= LastCall(s, r.createdAt))
    && (r.lookup.Some? ==> s.lookups && r.seen.Some? && r.lookup.value <= r.seen.value)
    && (r.looked ==> r.seen.Some?)
    && (r.called.Some? ==> r.called.value <= LastCall(s, r.createdAt))
    && (r.lease.Some? ==> CanReissue(s) && r.lease.value <= LastCall(s, r.createdAt))
    && (Awaiting(r.owner) && r.owner.took ==> !r.provider.NotMade?)
  }

  /** What is known of a claim before its call is answered. */
  predicate FreshClaim(r: Refund) {
    r.status.Pending? && r.provider.NotMade? && !r.unknown && !r.hasRef && !r.looked && r.called.None?
  }

  /** The provider can still make the refund: it waits in its reservation. */
  predicate Waiting(r: Refund) {
    r.status.Pending? && r.reserved && r.inTotal == 1
  }

  predicate OwnerOk(s: Service, now: nat, r: Refund) {
    match r.owner
    case Claimed => FreshClaim(r) && r.inTotal == 0 && !r.reserved
    case Dropping => FreshClaim(r) && r.inTotal == 0 && !r.reserved
    case Reserved => FreshClaim(r) && r.inTotal == 1 && !r.reserved
    case Marked => FreshClaim(r) && Waiting(r)
    case Refused => FreshClaim(r) && r.inTotal == 0 && r.reserved
    case Calling(_, _) => !r.looked && !r.unknown && r.called.None?
        && (r.provider.NotMade? ==> FreshClaim(r) && Waiting(r))
    case Leased => r.provider.NotMade? ==> Waiting(r)
    case Reissuing(_, _) => (r.status.Pending? ==> Waiting(r))
        && (r.provider.NotMade? && MayLandNow(r, now, s.landing) ==> r.status.Pending?)
    case Idle => true
  }

  predicate MoneyOk(s: Service, now: nat, r: Refund) {
    && r.amount > 0 && (r.inTotal == 0 || r.inTotal == 1) && !r.counting
    && (r.provider.Active? ==> r.inTotal == 1 && !r.releasing && !r.status.Failed? && !r.status.Deleted?)
    && (r.reserved ==> r.inTotal == 1 || r.owner.Refused? || r.status.Deleted?)
    && (r.releasing ==> r.status.Failed? && r.inTotal == 1)
    && (r.status.Succeeded? ==> r.reserved && !r.provider.NotMade?)
    && (r.status.Failed? ==> !r.reserved)
    && (r.status.Deleted? ==> r.provider.NotMade? && r.inTotal == 0 && r.called.None? && r.owner.Idle?)
    && (r.hasRef ==> !r.provider.NotMade?) && (r.unknown && r.status.Pending? ==> r.reserved)
    && (!r.provider.NotMade? && r.status.Pending? ==> r.reserved && r.inTotal == 1)
    && (r.provider.NotMade? && MayLandLate(r, now, s.landing) ==> Waiting(r))
    && (Claiming(r.owner) ==> r.status.Pending?)
  }

  predicate RefundOk(s: Service, now: nat, r: Refund) {
    TimesOk(s, now, r) && OwnerOk(s, now, r) && MoneyOk(s, now, r)
  }

  lemma TickKeepsRefund(s: Service, now: nat, r: Refund, ms: nat)
    requires RefundOk(s, now, r) && InTime(r, now + ms)
    ensures RefundOk(s, now + ms, r)
  {
  }

  predicate SafeFor(s: Service, now: nat, r: Refund, a: Action) {
    (a.Crash? ==> !r.owner.Refused?) && (a.WriteNotRefunded? ==> MayFail(s, now, r))
  }

  /** The steps of the request that claimed the refund. */
  lemma ClaimStepsKeepRefund(s: Service, now: nat, r: Refund, a: Action, fits: bool)
    requires RefundOk(s, now, r) && CanDo(s, now, r, a)
    requires a.Reserve? || a.MarkReserved? || a.CallProvider? || a.DeleteClaim?
    ensures RefundOk(s, now, Do(s, now, r, a, fits))
  {
  }

  lemma RefusalKeepsRefund(s: Service, now: nat, r: Refund)
    requires RefundOk(s, now, r) && r.owner.Calling? && r.provider.NotMade?
    ensures RefundOk(s, now, r.(inTotal := r.inTotal - 1, owner := Refused))
  {
  }

  lemma RefusedReissueKeepsRefund(s: Service, now: nat, r: Refund)
    requires RefundOk(s, now, r) && r.owner.Reissuing? && !r.owner.took
    ensures RefundOk(s, now, Finish(r))
  {
  }

  lemma UnknownKeepsRefund(s: Service, now: nat, r: Refund)
    requires RefundOk(s, now, r) && Awaiting(r.owner)
    ensures RefundOk(s, now, Finish(Spent(r.(unknown := r.unknown || r.status.Pending?))))
  {
  }

  /** An answered call ends its request. */
  lemma FinishKeepsRefund(s: Service, now: nat, r: Refund)
    requires RefundOk(s, now, r) && Awaiting(r.owner) && !r.provider.NotMade?
    ensures RefundOk(s, now, Finish(Spent(r)))
  {
  }

  lemma CrashKeepsRefund(s: Service, now: nat, r: Refund)
    requires RefundOk(s, now, r) && !r.owner.Refused?
    ensures RefundOk(s, now, Spent(r).(owner := Idle))
  {
  }

  lemma FailureKeepsRefund(s: Service, now: nat, r: Refund, ref: bool)
    requires RefundOk(s, now, r) && !r.status.Deleted? && r.provider.FailedThere?
    ensures RefundOk(s, now, Apply(r, Failed, ref))
  {
  }

  lemma SuccessKeepsRefund(s: Service, now: nat, r: Refund, status: Status, ref: bool)
    requires RefundOk(s, now, r) && !r.status.Deleted? && !r.provider.NotMade? && (status.Succeeded? || status.Pending?)
    ensures RefundOk(s, now, Apply(r, status, ref))
  {
  }

  /** A truthful status from the provider, by answer, lookup, webhook or a person with its reference. */
  lemma NoticeKeepsRefund(s: Service, now: nat, r: Refund, status: Status, ref: bool)
    requires RefundOk(s, now, r) && !r.status.Deleted? && Truthful(r, status)
    ensures RefundOk(s, now, Apply(r, status, ref))
  {
    if status.Failed? {
      FailureKeepsRefund(s, now, r, ref);
    } else {
      SuccessKeepsRefund(s, now, r, status, ref);
    }
  }

  lemma WriteKeepsRefund(s: Service, now: nat, r: Refund)
    requires RefundOk(s, now, r) && CanDo(s, now, r, WriteNotRefunded) && MayFail(s, now, r)
    ensures RefundOk(s, now, Apply(r, Failed, false))
  {
  }

  function Released(r: Refund): Refund {
    r.(releasing := false, inTotal := r.inTotal - 1)
  }

  lemma ReleaseKeepsRefund(s: Service, now: nat, r: Refund)
    requires RefundOk(s, now, r) && r.releasing
    ensures RefundOk(s, now, Released(r))
  {
  }

  lemma LostWriteKeepsRefund(s: Service, now: nat, r: Refund)
    requires RefundOk(s, now, r)
    ensures RefundOk(s, now, r.(releasing := false, counting := false)) && !r.counting
  {
  }

  lemma LookupStepsKeepRefund(s: Service, now: nat, r: Refund, a: Action, fits: bool)
    requires RefundOk(s, now, r) && CanDo(s, now, r, a)
    requires IsReading(a)
    ensures RefundOk(s, now, Do(s, now, r, a, fits))
  {
  }

  lemma ProviderStepsKeepRefund(s: Service, now: nat, r: Refund, a: Action, fits: bool)
    requires RefundOk(s, now, r) && CanDo(s, now, r, a)
    requires a.LandNow? || a.LandLate? || a.ProviderFails?
    ensures RefundOk(s, now, Do(s, now, r, a, fits))
  {
  }

  lemma StatusAnswerKeepsRefund(s: Service, now: nat, r: Refund, a: Action, fits: bool)
    requires RefundOk(s, now, r) && CanDo(s, now, r, a) && a.AnswerStatus?
    ensures RefundOk(s, now, Do(s, now, r, a, fits))
  {
    var applied := Apply(r, a.status, a.ref);
    assert RefundOk(s, now, applied) by {
      NoticeKeepsRefund(s, now, r, a.status, a.ref);
    }
    assert Do(s, now, r, a, fits) == Finish(Spent(applied));
    FinishKeepsRefund(s, now, applied);
  }

  lemma RefusedAnswerKeepsRefund(s: Service, now: nat, r: Refund, a: Action, fits: bool)
    requires RefundOk(s, now, r) && CanDo(s, now, r, a) && a.AnswerRejected?
    ensures RefundOk(s, now, Do(s, now, r, a, fits))
  {
    if r.owner.Calling? {
      RefusalKeepsRefund(s, now, r);
    } else {
      RefusedReissueKeepsRefund(s, now, r);
    }
  }

  lemma WorkKeepsRefund(s: Service, now: nat, r: Refund, a: Action, fits: bool)
    requires RefundOk(s, now, r) && CanDo(s, now, r, a) && IsWork(a) && (a.Crash? ==> !r.owner.Refused?)
    ensures RefundOk(s, now, Do(s, now, r, a, fits))
  {
    if a.AnswerStatus? {
      StatusAnswerKeepsRefund(s, now, r, a, fits);
    } else if a.AnswerRejected? {
      RefusedAnswerKeepsRefund(s, now, r, a, fits);
    } else if a.AnswerUnknown? {
      UnknownKeepsRefund(s, now, r);
    } else if a.Crash? {
      CrashKeepsRefund(s, now, r);
    } else {
      ClaimStepsKeepRefund(s, now, r, a, fits);
    }
  }

  lemma WritesKeepRefund(s: Service, now: nat, r: Refund, a: Action, fits: bool)
    requires RefundOk(s, now, r) && CanDo(s, now, r, a) && (a.WriteRelease? || a.WriteCount? || a.LoseBalanceWrite?)
    ensures RefundOk(s, now, Do(s, now, r, a, fits))
  {
    if a.WriteRelease? {
      ReleaseKeepsRefund(s, now, r);
    } else {
      LostWriteKeepsRefund(s, now, r);
    }
  }

  lemma SettlingKeepsRefund(s: Service, now: nat, r: Refund, a: Action, fits: bool)
    requires RefundOk(s, now, r) && CanDo(s, now, r, a) && SafeFor(s, now, r, a) && IsSettling(a)
    ensures RefundOk(s, now, Do(s, now, r, a, fits))
  {
    if a.Notice? {
      NoticeKeepsRefund(s, now, r, a.status, a.ref);
    } else if a.WriteNotRefunded? {
      WriteKeepsRefund(s, now, r);
    } else {
      WritesKeepRefund(s, now, r, a, fits);
    }
  }

  /** One step outside the two windows keeps what is known of a refund. */
  lemma ActionKeepsRefund(s: Service, now: nat, r: Refund, a: Action, fits: bool)
    requires RefundOk(s, now, r) && CanDo(s, now, r, a) && SafeFor(s, now, r, a)
    ensures RefundOk(s, now, Do(s, now, r, a, fits))
  {
    if IsWork(a) {
      WorkKeepsRefund(s, now, r, a, fits);
    } else if IsSettling(a) {
      SettlingKeepsRefund(s, now, r, a, fits);
    } else if IsReading(a) {
      LookupStepsKeepRefund(s, now, r, a, fits);
    } else {
      ProviderStepsKeepRefund(s, now, r, a, fits);
    }
  }

  /** The stale-claim rule and the lease admit one worker at a time: whoever takes the lease finds no
      other request at work on the refund. */
  lemma LeaseIsExclusive(s: Service, now: nat, r: Refund)
    requires RefundOk(s, now, r) && CanDo(s, now, r, Lease)
    ensures r.owner.Idle?
  {
  }

  // ----- sums over the refunds -----

  function Sum(rs: seq<Refund>, f: Refund -> int): int {
    if rs == [] then 0 else f(rs[0]) + Sum(rs[1..], f)
  }

  lemma {:induction false} SumUpdate(rs: seq<Refund>, i: nat, r: Refund, f: Refund -> int)
    requires i < |rs|
    ensures Sum(rs[i := r], f) == Sum(rs, f) - f(rs[i]) + f(r)
  {
    if i > 0 {
      SumUpdate(rs[1..], i - 1, r, f);
      assert rs[i := r][1..] == rs[1..][i - 1 := r];
    }
  }

  lemma {:induction false} SumAppend(rs: seq<Refund>, r: Refund, f: Refund -> int)
    ensures Sum(rs + [r], f) == Sum(rs, f) + f(r)
  {
    if rs == [] {
      assert rs + [r] == [r];
    } else {
      SumAppend(rs[1..], r, f);
      assert (rs + [r])[1..] == rs[1..] + [r];
    }
  }

  lemma {:induction false} SumMonotone(rs: seq<Refund>, f: Refund -> int, g: Refund -> int)
    requires forall i :: 0 <= i < |rs| ==> f(rs[i]) <= g(rs[i])
    ensures Sum(rs, f) <= Sum(rs, g)
  {
    if rs != [] {
      forall i | 0 <= i < |rs[1..]| ensures f(rs[1..][i]) <= g(rs[1..][i]) {
        assert rs[1..][i] == rs[i + 1];
      }
      SumMonotone(rs[1..], f, g);
    }
  }

  function Share(r: Refund): int {
    r.inTotal * r.amount
  }

  /** Money on its way back to the customer, as the provider sees it. */
  function Moving(r: Refund): int {
    if r.provider.Active? then r.amount else 0
  }

  // ----- the invariant of the ledger -----

  /** The unique index: of the refunds with one key, at most one is not deleted. */
  ghost predicate KeysClaimedOnce(rs: seq<Refund>) {
    forall i, j :: 0 <= i < j < |rs| && rs[i].key == rs[j].key ==> rs[i].status.Deleted? || rs[j].status.Deleted?
  }

  ghost predicate RefundsOk(l: Ledger) {
    forall i :: 0 <= i < |l.refunds| ==> RefundOk(l.service, l.now, l.refunds[i])
  }

  ghost predicate Inv(l: Ledger) {
    && RefundsOk(l) && KeysClaimedOnce(l.refunds) && DesksOk(l)
    && l.total == Sum(l.refunds, Share) && l.total <= l.service.amount
  }

  /** A desk's copies are of its own refund, and one that passed found it old enough. */
  ghost predicate DesksOk(l: Ledger) {
    && |l.desks| == |l.refunds|
    && forall i :: 0 <= i < |l.desks| ==>
         && (forall c :: c in l.desks[i].copies ==> c.createdAt == l.refunds[i].createdAt)
         && (l.desks[i].passed ==> l.now - l.refunds[i].createdAt >= MANUAL_NOT_REFUNDED_MIN_HOLD_MS)
  }

  lemma StepKeepsDesks(l: Ledger, e: Event)
    requires DesksOk(l) && Enabled(l, e)
    ensures DesksOk(Step(l, e))
  {
    if e.At? {
      ActedRefund(l, e.i, e.action);
    }
  }

  /** A request that passed its checks can always write: nothing is read again. */
  lemma PassedCanWrite(l: Ledger, i: nat)
    requires Inv(l) && i < |l.desks|
    ensures Enabled(l, At(i, WriteNotRefunded)) <==> l.desks[i].passed
  {
  }

  /** Every step moves totalRefunded by exactly what the refunds' shares in it change. */
  lemma StepKeepsTotal(l: Ledger, e: Event)
    requires Enabled(l, e) && l.total == Sum(l.refunds, Share)
    ensures Step(l, e).total == Sum(Step(l, e).refunds, Share)
  {
    match e
    case Claim(key, amount) => SumAppend(l.refunds, Step(l, e).refunds[|l.refunds|], Share);
    case At(i, a) =>
      var r, r' := l.refunds[i], Step(l, e).refunds[i];
      SumUpdate(l.refunds, i, r', Share);
      ShareMoves(r, r', r'.inTotal - r.inTotal);
    case _ =>
  }

  lemma ShareMoves(r: Refund, s: Refund, change: int)
    requires r.amount == s.amount && s.inTotal == r.inTotal + change
    ensures Share(s) == Share(r) + change * r.amount
  {
  }

  lemma StepKeepsKeys(l: Ledger, e: Event)
    requires Enabled(l, e) && KeysClaimedOnce(l.refunds)
    ensures KeysClaimedOnce(Step(l, e).refunds)
  {
  }

  lemma NewClaimOk(l: Ledger, e: Event)
    requires e.Claim? && Enabled(l, e)
    ensures RefundOk(l.service, l.now, Step(l, e).refunds[|l.refunds|])
  {
  }

  lemma ActedRefund(l: Ledger, i: nat, a: Action)
    requires Enabled(l, At(i, a))
    ensures Step(l, At(i, a)).refunds == l.refunds[i := Do(l.service, l.now, l.refunds[i], a, Fits(l, l.refunds[i]))]
    ensures Step(l, At(i, a)).now == l.now && Step(l, At(i, a)).service == l.service
  {
  }

  lemma ActedRefundOk(l: Ledger, i: nat, a: Action)
    requires Enabled(l, At(i, a)) && RefundOk(l.service, l.now, l.refunds[i])
        && SafeFor(l.service, l.now, l.refunds[i], a)
    ensures RefundOk(l.service, l.now, Step(l, At(i, a)).refunds[i])
  {
    ActionKeepsRefund(l.service, l.now, l.refunds[i], a, Fits(l, l.refunds[i]));
    ActedRefund(l, i, a);
  }

  lemma ActKeepsRefund(l: Ledger, e: Event, i: nat)
    requires i < |l.refunds| && RefundOk(l.service, l.now, l.refunds[i]) && Enabled(l, e) && Safe(l, e) && e.At?
    ensures i < |Step(l, e).refunds| && RefundOk(l.service, Step(l, e).now, Step(l, e).refunds[i])
  {
    ActedRefund(l, e.i, e.action);
    if e.i == i {
      ActedRefundOk(l, i, e.action);
    }
  }

  lemma StepKeepsRefund(l: Ledger, e: Event, i: nat)
    requires i < |l.refunds| && RefundOk(l.service, l.now, l.refunds[i]) && Enabled(l, e) && Safe(l, e)
    ensures i < |Step(l, e).refunds| && RefundOk(l.service, Step(l, e).now, Step(l, e).refunds[i])
  {
    match e
    case Tick(ms) => TickKeepsRefund(l.service, l.now, l.refunds[i], ms);
    case At(_, _) => ActKeepsRefund(l, e, i);
    case _ =>
  }

  lemma StepKeepsRefunds(l: Ledger, e: Event)
    requires RefundsOk(l) && Enabled(l, e) && Safe(l, e)
    ensures RefundsOk(Step(l, e))
  {
    forall i | 0 <= i < |Step(l, e).refunds| ensures RefundOk(l.service, Step(l, e).now, Step(l, e).refunds[i]) {
      if i < |l.refunds| {
        StepKeepsRefund(l, e, i);
      } else {
        NewClaimOk(l, e);
      }
    }
  }

  /** The balance never passes the payment: it only rises by a reservation that fits. */
  lemma StepKeepsBalance(l: Ledger, e: Event)
    requires Enabled(l, e) && l.total <= l.service.amount
    requires e.At? ==> l.refunds[e.i].amount > 0 && !l.refunds[e.i].counting
    ensures Step(l, e).total <= l.service.amount
  {
  }

  lemma StepKeepsInv(l: Ledger, e: Event)
    requires Inv(l) && Enabled(l, e) && Safe(l, e)
    ensures Inv(Step(l, e))
  {
    StepKeepsTotal(l, e);
    StepKeepsKeys(l, e);
    StepKeepsDesks(l, e);
    StepKeepsRefunds(l, e);
    assert e.At? ==> RefundOk(l.service, l.now, l.refunds[e.i]);
    StepKeepsBalance(l, e);
  }

  /** No step of the run falls into one of the two windows. */
  ghost predicate SafeRun(l: Ledger, es: seq<Event>)
    decreases |es|
  {
    es != [] && Enabled(l, es[0]) ==> Safe(l, es[0]) && SafeRun(Step(l, es[0]), es[1..])
  }

  lemma {:induction false} SafeRunKeepsInv(l: Ledger, es: seq<Event>)
    requires Inv(l) && Run(l, es).Some? && SafeRun(l, es)
    ensures Inv(Run(l, es).value) && Run(l, es).value.service == l.service
    decreases |es|
  {
    if es != [] {
      StepKeepsInv(l, es[0]);
      SafeRunKeepsInv(Step(l, es[0]), es[1..]);
    }
  }

  lemma OkCovers(s: Service, now: nat, r: Refund)
    requires RefundOk(s, now, r)
    ensures Moving(r) <= Share(r)
  {
  }

  lemma InvBoundsMoney(l: Ledger)
    requires Inv(l)
    ensures Sum(l.refunds, Moving) <= l.total <= l.service.amount
  {
    forall i | 0 <= i < |l.refunds| ensures Moving(l.refunds[i]) <= Share(l.refunds[i]) {
      OkCovers(l.service, l.now, l.refunds[i]);
    }
    SumMonotone(l.refunds, Moving, Share);
  }

  /** The promise of the refund service: over every interleaving of requests, retries, webhooks, lookups,
      re-issues, staff and crashes outside the two windows, the money the provider moves never exceeds
      the payment, and totalRefunded covers it. */
  lemma NeverOverRefunds(s: Service, es: seq<Event>)
    requires Run(New(s), es).Some? && SafeRun(New(s), es)
    ensures var l := Run(New(s), es).value;
            Sum(l.refunds, Moving) <= l.total <= l.service.amount == s.amount
  {
    SafeRunKeepsInv(New(s), es);
    InvBoundsMoney(Run(New(s), es).value);
  }

  /** Outside the windows every refund that moves money is covered by the total. */
  lemma EveryRefundCovered(s: Service, es: seq<Event>)
    requires Run(New(s), es).Some? && SafeRun(New(s), es)
    ensures forall i :: 0 <= i < |Run(New(s), es).value.refunds| ==>
              Moving(Run(New(s), es).value.refunds[i]) <= Share(Run(New(s), es).value.refunds[i])
  {
    SafeRunKeepsInv(New(s), es);
    var l := Run(New(s), es).value;
    forall i | 0 <= i < |l.refunds| ensures Moving(l.refunds[i]) <= Share(l.refunds[i]) {
      OkCovers(l.service, l.now, l.refunds[i]);
    }
  }

  /** The idempotency contract: under one key the provider makes at most one refund, however often
      the key is claimed, retried and re-issued. */
  lemma OneRefundPerKey(s: Service, es: seq<Event>, i: nat, j: nat)
    requires Run(New(s), es).Some? && SafeRun(New(s), es)
    requires i < |Run(New(s), es).value.refunds| && j < |Run(New(s), es).value.refunds|
    requires Run(New(s), es).value.refunds[i].key == Run(New(s), es).value.refunds[j].key
    requires !Run(New(s), es).value.refunds[i].provider.NotMade? && !Run(New(s), es).value.refunds[j].provider.NotMade?
    ensures i == j
  {
    SafeRunKeepsInv(New(s), es);
    var l := Run(New(s), es).value;
    assert RefundOk(l.service, l.now, l.refunds[i]) && RefundOk(l.service, l.now, l.refunds[j]);
  }
}
