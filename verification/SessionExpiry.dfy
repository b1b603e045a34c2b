/**
 What an expired session means. onSessionExpired stands for "the session is genuinely over"
 (apiClient.ts, lines 34 to 37 and 87 to 92); here is exactly when it is. The runs of TokenRefresh are
 traced: how each refresh was answered, and which token each request carried when it was last sent.
 */
module SessionExpiry {
  import opened Prelude
  import opened ApiClientProtocol
  import opened TokenRefresh

  /** One refresh round: the logins before it was sent; the changes to the server's tokens and the cookie
      before it was sent, moved on with the changes it makes itself as long as there are no others; how it
      was answered; whether the cookie it took could be used; and whether the handler deleted its token. */
  datatype Trail = Trail(logins: nat, changes: nat, answer: Option<Answer>, usable: bool, spent: bool)

  /** `stored` lists the values the access token took, one after another; `sentAfter[i]` says how many of
      them came before request i's last send. */
  datatype Past = Past(logins: nat, changes: nat, trail: seq<Trail>, stored: seq<Option<Token>>, sentAfter: seq<nat>)

  datatype Traced = Traced(sys: System, past: Past)

  const START: Traced := Traced(INITIAL, Past(0, 0, [], [], []))

  predicate Usable(s: System) {
    s.jar.Some? && s.jar.value in s.active
  }

  /** The session can go on: the account is open, and the browser's token can be used or its replacement is
      on its way. */
  predicate Alive(s: System) {
    && s.account.Open? && s.jar.Some?
    && (s.jar.value in s.active
        || (Spent(s.wire) && s.wire.cookie == s.jar && (s.wire.Answered? ==> s.wire.answer.cookie in s.active)))
  }

  /** The step changes the server's tokens, or the cookie other than by delivering a rotation. */
  predicate Touches(s: System, e: Event)
    requires Enabled(s, e)
  {
    Step(s, e).active != s.active || (Step(s, e).jar != s.jar && !e.DeliverRefresh?)
  }

  function Count(n: nat, b: bool): nat {
    if b then n + 1 else n
  }

  function Served(t: Trail, w: Wire, before: nat, after: nat): Trail {
    t.(changes := if t.changes == before then after else t.changes,
       answer := if w.Answered? then Some(w.answer) else t.answer,
       spent := t.spent || Spent(w))
  }

  function TrailAfter(p: Past, s: System, e: Event): seq<Trail>
    requires Enabled(s, e)
  {
    var t := Step(s, e);
    if |t.client.rounds| > |s.client.rounds| then p.trail + [Trail(p.logins, p.changes, None, Usable(s), false)]
    else if e.ServeRefresh? && p.trail != [] then
      var last := p.trail[|p.trail| - 1];
      p.trail[|p.trail| - 1 := Served(last, t.wire, p.changes, Count(p.changes, Touches(s, e)))]
    else p.trail
  }

  function StoredAfter(p: Past, s: System, t: System): seq<Option<Token>> {
    if t.client.accessToken == s.client.accessToken then p.stored else p.stored + [t.client.accessToken]
  }

  /** A request that is sent now carries the last value stored. */
  function SentAfter(p: Past, s: System, t: System): seq<nat> {
    var n := |StoredAfter(p, s, t)|;
    seq(|t.client.calls|, i requires 0 <= i < |t.client.calls| =>
      if i < |p.sentAfter| && i < |s.client.calls| && s.client.calls[i].sends == t.client.calls[i].sends
          then p.sentAfter[i] else n)
  }

  function Trace(x: Traced, e: Event): Traced
    requires Enabled(x.sys, e)
  {
    var t := Step(x.sys, e);
    Traced(t, Past(Count(x.past.logins, e.Login?), Count(x.past.changes, Touches(x.sys, e)),
        TrailAfter(x.past, x.sys, e),
                   StoredAfter(x.past, x.sys, t), SentAfter(x.past, x.sys, t)))
  }

  function TraceRun(x: Traced, es: seq<Event>): Option<Traced>
    decreases |es|
  {
    if es == [] then Some(x)
    else if Enabled(x.sys, es[0]) then TraceRun(Trace(x, es[0]), es[1..])
    else None
  }

  /** Every run can be traced, so what holds of traced runs holds of all. */
  lemma {:induction false} TracesEveryRun(x: Traced, es: seq<Event>)
    ensures TraceRun(x, es).Some? <==> Run(x.sys, es).Some?
    ensures Run(x.sys, es).Some? ==> TraceRun(x, es).value.sys == Run(x.sys, es).value
    decreases |es|
  {
    if es != [] && Enabled(x.sys, es[0]) {
      TracesEveryRun(Trace(x, es[0]), es[1..]);
    }
  }

  ghost predicate Traceable(x: Traced) {
    exists es :: TraceRun(START, es) == Some(x)
  }

  // ----- how refreshes were answered -----

  predicate HasAnswer(t: Trail, rotated: bool) {
    t.answer.Some? && t.answer.value.Rotated? == rotated
  }

  /** The answer of a round, as its outcome shows it. */
  predicate AnswerFits(round: Round, t: Trail) {
    match round
    case Fetching => true
    case Reading => HasAnswer(t, true)
    case Settled(outcome) =>
      match outcome
      case Refreshed => HasAnswer(t, true)
      case Refused => HasAnswer(t, false)
      case Threw => true
  }

  ghost predicate AnswersOk(s: System, trail: seq<Trail>) {
    && |trail| == |s.client.rounds| && (!s.wire.Idle? ==> trail != [])
    && (forall r :: 0 <= r < |trail| ==> AnswerFits(s.client.rounds[r], trail[r]))
    && (s.wire.Answered? ==> trail[|trail| - 1].answer == Some(s.wire.answer))
    && (!s.wire.Idle? && !s.wire.Answered? ==> trail[|trail| - 1].answer.None?)
  }

  ghost predicate CountsOk(past: Past) {
    && (forall r :: 0 <= r < |past.trail| ==>
          && past.trail[r].logins <= past.logins && past.trail[r].changes <= past.changes
          && (past.trail[r].changes == past.changes ==> past.trail[r].logins == past.logins))
    && (forall q, r :: 0 <= q < r < |past.trail| ==>
          past.trail[q].logins <= past.trail[r].logins && past.trail[q].changes <= past.trail[r].changes)
  }

  /** The call on the wire, as long as no login or nothing else at all came since it was sent. */
  ghost predicate WireOk(s: System, past: Past) {
    !s.wire.Idle? && past.trail != [] ==>
      var last := past.trail[|past.trail| - 1];
      && (last.logins == past.logins ==> s.jar == s.wire.cookie || s.jar.None?)
      && (!s.wire.Answered? || s.wire.answer.Rotated? ==> last.spent == Spent(s.wire))
      && (Spent(s.wire) ==> forall r :: 0 <= r < |past.trail| - 1 ==> past.trail[r].changes < past.changes)
      && (last.changes == past.changes ==>
            && s.jar == s.wire.cookie
            && (match s.wire
                case Sent(_, _) => last.usable == Usable(s)
                case Admitted(_) => last.usable && Usable(s)
                case Answered(_, Rotated(k1, _)) => k1 in s.active
                case _ => true))
  }

  /** Nothing can bring the session back but a login. */
  predicate Dead(s: System) {
    s.account.Gone?
    || (!Usable(s) && !s.wire.Admitted? && !Spent(s.wire)
        && (s.wire.Sent? && s.wire.cookie.Some? ==> s.wire.cookie.value !in s.active))
  }

  /** What an answered round says about the session, as long as its condition holds. */
  ghost predicate RoundOk(s: System, past: Past, r: nat) {
    r < |past.trail| && r < |s.client.rounds| && past.trail[r].answer.Some? ==>
      var trail := past.trail[r];
      && (trail.answer.value.Unauthorized? && trail.logins == past.logins ==> Dead(s))
      && (trail.changes == past.changes ==>
            match trail.answer.value
            case Unauthorized => true
            case Forbidden => Usable(s)
            case Unavailable => Usable(s) == (trail.usable && !trail.spent)
            case Rotated(_, _) => s.client.rounds[r].Reading? || s.client.rounds[r] == Settled(Refreshed) ==> Usable(s))
  }

  ghost predicate BookOk(x: Traced) {
    Inv(x.sys) && AnswersOk(x.sys, x.past.trail) && CountsOk(x.past) && WireOk(x.sys, x.past)
  }

  ghost predicate TrailInv(x: Traced) {
    BookOk(x) && forall r :: 0 <= r < |x.past.trail| ==> RoundOk(x.sys, x.past, r)
  }

  predicate ClientStep(e: Event) {
    e.StartRequest? || e.StartRefresh? || e.StoreToken? || e.DeliverReply? || e.FailFetch? || e.ResumeCaller?
  }

  /** A client step appends at most one round, and only when none is in flight; nothing else moves. */
  lemma ClientStepFrame(s: System, e: Event)
    requires Inv(s) && Enabled(s, e) && ClientStep(e)
    ensures var t := Step(s, e);
            && t.jar == s.jar && t.active == s.active && t.body == s.body && t.account == s.account
            && ((t.client.rounds == s.client.rounds && t.wire == s.wire)
                || (t.client.rounds == s.client.rounds + [Fetching] && s.wire.Idle?
                    && t.wire == Sent(s.jar, s.poisoned)))
  {
  }

  lemma ClientStepKeepsAnswers(x: Traced, e: Event)
    requires TrailInv(x) && Enabled(x.sys, e) && ClientStep(e)
    ensures AnswersOk(Trace(x, e).sys, Trace(x, e).past.trail)
  {
    ClientStepFrame(x.sys, e);
    var y := Trace(x, e);
    forall r | 0 <= r < |y.past.trail| ensures AnswerFits(y.sys.client.rounds[r], y.past.trail[r]) {
      if r < |x.past.trail| {
        assert AnswerFits(x.sys.client.rounds[r], x.past.trail[r]);
      }
    }
  }

  lemma ClientStepKeepsCounts(x: Traced, e: Event)
    requires TrailInv(x) && Enabled(x.sys, e) && ClientStep(e)
    ensures CountsOk(Trace(x, e).past)
  {
    ClientStepFrame(x.sys, e);
  }

  lemma ClientStepKeepsWire(x: Traced, e: Event)
    requires TrailInv(x) && Enabled(x.sys, e) && ClientStep(e)
    ensures WireOk(Trace(x, e).sys, Trace(x, e).past)
  {
    ClientStepFrame(x.sys, e);
  }

  lemma ClientStepKeepsBook(x: Traced, e: Event)
    requires TrailInv(x) && Enabled(x.sys, e) && ClientStep(e)
    ensures BookOk(Trace(x, e))
  {
    assert Inv(Trace(x, e).sys) by {
      StepKeepsInv(x.sys, e);
    }
    assert AnswersOk(Trace(x, e).sys, Trace(x, e).past.trail) by {
      ClientStepKeepsAnswers(x, e);
    }
    ClientStepKeepsCounts(x, e);
    ClientStepKeepsWire(x, e);
  }

  lemma ClientStepKeepsRound(x: Traced, e: Event, r: nat)
    requires TrailInv(x) && Enabled(x.sys, e) && ClientStep(e) && r < |Trace(x, e).past.trail|
    ensures RoundOk(Trace(x, e).sys, Trace(x, e).past, r)
  {
    ClientStepFrame(x.sys, e);
    if r < |x.past.trail| {
      assert RoundOk(x.sys, x.past, r);
    }
  }

  lemma ClientStepKeepsTrail(x: Traced, e: Event)
    requires TrailInv(x) && Enabled(x.sys, e) && ClientStep(e)
    ensures TrailInv(Trace(x, e))
  {
    ClientStepKeepsBook(x, e);
    forall r | 0 <= r < |Trace(x, e).past.trail| ensures RoundOk(Trace(x, e).sys, Trace(x, e).past, r) {
      ClientStepKeepsRound(x, e, r);
    }
  }

  lemma ServeKeepsAnswers(x: Traced, serving: Serving)
    requires TrailInv(x) && Enabled(x.sys, ServeRefresh(serving))
    ensures AnswersOk(Trace(x, ServeRefresh(serving)).sys, Trace(x, ServeRefresh(serving)).past.trail)
  {
    var y := Trace(x, ServeRefresh(serving));
    forall r | 0 <= r < |y.past.trail| ensures AnswerFits(y.sys.client.rounds[r], y.past.trail[r]) {
      assert AnswerFits(x.sys.client.rounds[r], x.past.trail[r]);
    }
  }

  lemma ServeKeepsCounts(x: Traced, serving: Serving)
    requires TrailInv(x) && Enabled(x.sys, ServeRefresh(serving))
    ensures CountsOk(Trace(x, ServeRefresh(serving)).past)
  {
  }

  lemma ServeKeepsWire(x: Traced, serving: Serving)
    requires TrailInv(x) && Enabled(x.sys, ServeRefresh(serving))
    ensures WireOk(Trace(x, ServeRefresh(serving)).sys, Trace(x, ServeRefresh(serving)).past)
  {
  }

  lemma ServeKeepsBook(x: Traced, serving: Serving)
    requires TrailInv(x) && Enabled(x.sys, ServeRefresh(serving))
    ensures BookOk(Trace(x, ServeRefresh(serving)))
  {
    StepKeepsInv(x.sys, ServeRefresh(serving));
    ServeKeepsAnswers(x, serving);
    ServeKeepsCounts(x, serving);
    ServeKeepsWire(x, serving);
  }

  lemma ServeKeepsOlderRound(x: Traced, serving: Serving, r: nat)
    requires TrailInv(x) && Enabled(x.sys, ServeRefresh(serving)) && r < |x.past.trail| - 1
    ensures RoundOk(Trace(x, ServeRefresh(serving)).sys, Trace(x, ServeRefresh(serving)).past, r)
  {
    assert RoundOk(x.sys, x.past, r);
  }

  lemma ServeKeepsLastRound(x: Traced, serving: Serving)
    requires TrailInv(x) && Enabled(x.sys, ServeRefresh(serving))
    ensures var r := |x.past.trail| - 1;
            r >= 0 && RoundOk(Trace(x, ServeRefresh(serving)).sys, Trace(x, ServeRefresh(serving)).past, r)
  {
    assert RoundOk(x.sys, x.past, |x.past.trail| - 1);
  }

  lemma ServeKeepsRound(x: Traced, serving: Serving, r: nat)
    requires TrailInv(x) && Enabled(x.sys, ServeRefresh(serving)) && r < |x.past.trail|
    ensures RoundOk(Trace(x, ServeRefresh(serving)).sys, Trace(x, ServeRefresh(serving)).past, r)
  {
    if r < |x.past.trail| - 1 {
      ServeKeepsOlderRound(x, serving, r);
    } else {
      ServeKeepsLastRound(x, serving);
    }
  }

  lemma ServeKeepsTrail(x: Traced, serving: Serving)
    requires TrailInv(x) && Enabled(x.sys, ServeRefresh(serving))
    ensures TrailInv(Trace(x, ServeRefresh(serving)))
  {
    ServeKeepsBook(x, serving);
    forall r | 0 <= r < |x.past.trail| ensures RoundOk(Trace(x, ServeRefresh(serving)).sys,
        Trace(x, ServeRefresh(serving)).past, r) {
      ServeKeepsRound(x, serving, r);
    }
  }

  lemma DeliveryKeepsBook(x: Traced, e: Event)
    requires TrailInv(x) && Enabled(x.sys, e) && (e.DeliverRefresh? || e.DropRefresh? || e.DeliverBody?)
    ensures BookOk(Trace(x, e)) && Trace(x, e).past.trail == x.past.trail
  {
    StepKeepsInv(x.sys, e);
    var y := Trace(x, e);
    forall r | 0 <= r < |y.past.trail| ensures AnswerFits(y.sys.client.rounds[r], y.past.trail[r]) {
      assert AnswerFits(x.sys.client.rounds[r], x.past.trail[r]);
    }
  }

  lemma DeliveryKeepsRound(x: Traced, e: Event, r: nat)
    requires TrailInv(x) && Enabled(x.sys, e) && (e.DeliverRefresh? || e.DropRefresh? || e.DeliverBody?)
        && r < |x.past.trail|
    ensures RoundOk(Trace(x, e).sys, Trace(x, e).past, r)
  {
    assert RoundOk(x.sys, x.past, r) && AnswerFits(x.sys.client.rounds[r], x.past.trail[r]);
  }

  lemma DeliveryKeepsTrail(x: Traced, e: Event)
    requires TrailInv(x) && Enabled(x.sys, e) && (e.DeliverRefresh? || e.DropRefresh? || e.DeliverBody?)
    ensures TrailInv(Trace(x, e))
  {
    DeliveryKeepsBook(x, e);
    forall r | 0 <= r < |x.past.trail| ensures RoundOk(Trace(x, e).sys, Trace(x, e).past, r) {
      DeliveryKeepsRound(x, e, r);
    }
  }

  lemma SessionStepKeepsBook(x: Traced, e: Event)
    requires TrailInv(x) && Enabled(x.sys, e) && (e.Login? || e.Logout? || e.Revoke? || e.SetAccount?)
    ensures BookOk(Trace(x, e)) && Trace(x, e).past.trail == x.past.trail
  {
    StepKeepsInv(x.sys, e);
    var y := Trace(x, e);
    forall r | 0 <= r < |x.past.trail| ensures AnswerFits(y.sys.client.rounds[r], y.past.trail[r]) {
      assert AnswerFits(x.sys.client.rounds[r], x.past.trail[r]);
    }
  }

  lemma SessionStepKeepsRound(x: Traced, e: Event, r: nat)
    requires TrailInv(x) && Enabled(x.sys, e) && (e.Login? || e.Logout? || e.Revoke? || e.SetAccount?)
    requires r < |x.past.trail|
    ensures RoundOk(Trace(x, e).sys, Trace(x, e).past, r)
  {
    assert RoundOk(x.sys, x.past, r);
  }

  lemma SessionStepKeepsTrail(x: Traced, e: Event)
    requires TrailInv(x) && Enabled(x.sys, e) && (e.Login? || e.Logout? || e.Revoke? || e.SetAccount?)
    ensures TrailInv(Trace(x, e))
  {
    SessionStepKeepsBook(x, e);
    forall r | 0 <= r < |x.past.trail| ensures RoundOk(Trace(x, e).sys, Trace(x, e).past, r) {
      SessionStepKeepsRound(x, e, r);
    }
  }

  lemma StepKeepsTrail(x: Traced, e: Event)
    requires TrailInv(x) && Enabled(x.sys, e)
    ensures TrailInv(Trace(x, e))
  {
    if ClientStep(e) {
      ClientStepKeepsTrail(x, e);
    } else if e.ServeRefresh? {
      ServeKeepsTrail(x, e.serving);
    } else if e.Login? || e.Logout? || e.Revoke? || e.SetAccount? {
      SessionStepKeepsTrail(x, e);
    } else {
      DeliveryKeepsTrail(x, e);
    }
  }

  // ----- which token each request carried -----

  /** The access token after the first k stores. */
  function At(stored: seq<Option<Token>>, k: nat): Option<Token>
    requires k <= |stored|
  {
    if k == 0 then None else stored[k - 1]
  }

  ghost predicate SentOk(s: System, past: Past, i: nat) {
    i < |s.client.calls| && i < |past.sentAfter| ==>
      past.sentAfter[i] <= |past.stored|
      && (s.client.calls[i].sends > 0 ==> s.client.calls[i].header == At(past.stored, past.sentAfter[i]))
  }

  /** A token that the server issued and the client has not stored. */
  ghost predicate Unstored(s: System, past: Past, t: Token) {
    t < s.next && Some(t) !in past.stored
  }

  ghost predicate FreshOk(s: System, past: Past) {
    && (forall t :: t in s.granted ==> Unstored(s, past, t))
    && (s.wire.Answered? && s.wire.answer.Rotated? ==>
        Unstored(s, past, s.wire.answer.access) && s.wire.answer.access !in s.granted)
    && (InPhase(s.client, Reading) && s.body.Some? ==> Unstored(s, past, s.body.value) && s.body.value !in s.granted)
    && (forall k :: 0 <= k < |past.stored| && past.stored[k].Some? ==> past.stored[k].value < s.next)
  }

  ghost predicate LogInv(x: Traced) {
    && Inv(x.sys) && FreshOk(x.sys, x.past)
    && |x.past.sentAfter| == |x.sys.client.calls|
    && x.sys.client.accessToken == At(x.past.stored, |x.past.stored|)
    && (forall j, k :: 0 <= j < k < |x.past.stored| && x.past.stored[j].Some? ==> x.past.stored[j] != x.past.stored[k])
    && (forall i :: 0 <= i < |x.sys.client.calls| ==> SentOk(x.sys, x.past, i))
  }

  /** The access token changes to a token never stored before, or to none. */
  lemma StepStoresFresh(x: Traced, e: Event)
    requires LogInv(x) && Enabled(x.sys, e)
    ensures var t := Step(x.sys, e).client.accessToken;
            t == x.sys.client.accessToken || t.None? || (Unstored(x.sys, x.past, t.value)
                && t.value < Step(x.sys, e).next)
  {
  }

  /** The server's steps issue only tokens beyond all others. */
  lemma IssueKeepsFresh(x: Traced, e: Event)
    requires LogInv(x) && Enabled(x.sys, e) && !ClientStep(e) && !e.DeliverBody?
    ensures FreshOk(Trace(x, e).sys, Trace(x, e).past)
  {
    assert StoredAfter(x.past, x.sys, Step(x.sys, e)) == x.past.stored;
  }

  lemma BodyKeepsFresh(x: Traced, readable: bool)
    requires LogInv(x) && Enabled(x.sys, DeliverBody(readable))
    ensures FreshOk(Trace(x, DeliverBody(readable)).sys, Trace(x, DeliverBody(readable)).past)
  {
  }

  lemma StoreKeepsFresh(x: Traced, e: Event)
    requires LogInv(x) && Enabled(x.sys, e) && ClientStep(e)
    ensures FreshOk(Trace(x, e).sys, Trace(x, e).past)
  {
    StepStoresFresh(x, e);
  }

  lemma StepKeepsFresh(x: Traced, e: Event)
    requires LogInv(x) && Enabled(x.sys, e)
    ensures FreshOk(Trace(x, e).sys, Trace(x, e).past)
  {
    if ClientStep(e) {
      ClientStepFrame(x.sys, e);
      StoreKeepsFresh(x, e);
    } else if e.DeliverBody? {
      BodyKeepsFresh(x, e.readable);
    } else {
      IssueKeepsFresh(x, e);
    }
  }

  lemma OldCallSends(s: System, e: Event, i: nat)
    requires Inv(s) && Enabled(s, e) && i < |s.client.calls|
    ensures var t := Step(s, e).client;
            && |s.client.calls| <= |t.calls|
            && (t.calls[i].sends == s.client.calls[i].sends ==> t.calls[i].header == s.client.calls[i].header)
            && (t.calls[i].sends != s.client.calls[i].sends ==> t.calls[i].header == t.accessToken)
  {
    assert CallOk(s.client.rounds, s.client.calls[i]);
  }

  lemma NewCallSends(s: System, e: Event)
    requires Inv(s) && Enabled(s, e)
    ensures var t := Step(s, e).client;
            && |s.client.calls| <= |t.calls| <= |s.client.calls| + 1
            && forall i :: |s.client.calls| <= i < |t.calls| && t.calls[i].sends > 0 ==>
                t.calls[i].header == t.accessToken
  {
  }

  lemma StepKeepsLog(x: Traced, e: Event)
    requires LogInv(x) && Enabled(x.sys, e)
    ensures LogInv(Trace(x, e))
  {
    var y := Trace(x, e);
    StepKeepsInv(x.sys, e);
    StepKeepsFresh(x, e);
    StepStoresFresh(x, e);
    forall i | 0 <= i < |y.sys.client.calls| ensures SentOk(y.sys, y.past, i) {
      NewCallSends(x.sys, e);
      if i < |x.sys.client.calls| {
        OldCallSends(x.sys, e, i);
        assert SentOk(x.sys, x.past, i);
      }
    }
  }

  lemma {:induction false} TraceRunKeeps(x: Traced, es: seq<Event>)
    requires TrailInv(x) && LogInv(x) && TraceRun(x, es).Some?
    ensures TrailInv(TraceRun(x, es).value) && LogInv(TraceRun(x, es).value)
    decreases |es|
  {
    if es != [] {
      StepKeepsTrail(x, es[0]);
      StepKeepsLog(x, es[0]);
      TraceRunKeeps(Trace(x, es[0]), es[1..]);
    }
  }

  lemma TraceableInv(x: Traced)
    requires Traceable(x)
    ensures TrailInv(x) && LogInv(x)
  {
    var es :| TraceRun(START, es) == Some(x);
    TraceRunKeeps(START, es);
  }

  // ----- what an expiry means -----

  /** The step in which request i is about to expire the session: it resumes from a refused refresh, or its
      retry is answered 401. */
  predicate Expires(s: System, e: Event, i: nat) {
    && Enabled(s, e) && i < |s.client.calls| && s.client.calls[i].kind.Request?
    && ((e == ResumeCaller(i) && CanResume(s.client, i)
        && s.client.rounds[s.client.calls[i].joined.value] == Settled(Refused))
        || (e == DeliverReply(i, UNAUTHORIZED) && AwaitsReply(s.client, i) && s.client.calls[i].pc.AwaitRetry?))
  }

  /** Those are exactly the steps that fire onSessionExpired for the request, and they drop the token. */
  lemma ExpiresExactly(s: System, e: Event, i: nat)
    requires Reachable(s) && Enabled(s, e) && i < |s.client.calls|
    ensures i < |Step(s, e).client.calls|
    ensures Expires(s, e, i) <==> !s.client.calls[i].expired && Step(s, e).client.calls[i].expired
    ensures Expires(s, e, i) ==> Step(s, e).client.accessToken.None?
  {
    ReachableInv(s);
    assert CallOk(s.client.rounds, s.client.calls[i]);
  }

  /** The refresh that the request waited for. */
  function RefreshOf(s: System, i: nat): nat
    requires i < |s.client.calls|
  {
    if s.client.calls[i].joined.Some? then s.client.calls[i].joined.value else 0
  }

  lemma ExpiryFollowsAnswer(x: Traced, e: Event, i: nat)
    requires Traceable(x) && Expires(x.sys, e, i)
    ensures var r := RefreshOf(x.sys, i);
            && r < |x.past.trail| && r < |x.sys.client.rounds| && x.past.trail[r].answer.Some?
            && (x.past.trail[r].answer.value.Rotated? <==> e.DeliverReply?)
            && (x.past.trail[r].answer.value.Rotated? ==> x.sys.client.rounds[r] == Settled(Refreshed))
  {
    TraceableInv(x);
    assert CallOk(x.sys.client.rounds, x.sys.client.calls[i]);
    var r := RefreshOf(x.sys, i);
    assert AnswerFits(x.sys.client.rounds[r], x.past.trail[r]);
  }

  /** Exactly when the session is alive at an expiry, if nothing else touched its tokens since the refresh was
      sent: the account is open, and the refresh succeeded (a rejected retry), or was refused with 403, or
      failed in any other way before the handler deleted a token that could be used. A 401 is a true end. */
  lemma SessionAtExpiryExactly(x: Traced, e: Event, i: nat)
    requires Traceable(x) && Expires(x.sys, e, i)
    requires var r := RefreshOf(x.sys, i);
             r < |x.past.trail| ==> x.past.trail[r].changes == x.past.changes
    ensures RefreshOf(x.sys, i) < |x.past.trail| && x.past.trail[RefreshOf(x.sys, i)].answer.Some?
    ensures var trail := x.past.trail[RefreshOf(x.sys, i)];
            Alive(x.sys) <==>
              && x.sys.account.Open?
              && (trail.answer.value.Rotated? || trail.answer.value.Forbidden?
                  || (trail.answer.value.Unavailable? && trail.usable && !trail.spent))
  {
    TraceableInv(x);
    ExpiryFollowsAnswer(x, e, i);
    var r := RefreshOf(x.sys, i);
    assert RoundOk(x.sys, x.past, r);
    QuietWire(x, r);
    assert x.past.trail[r].logins == x.past.logins;
  }

  /** Under the same condition no rotation is on its way, so being alive is having a usable token. */
  lemma QuietWire(x: Traced, r: nat)
    requires TrailInv(x) && r < |x.past.trail| && x.past.trail[r].changes == x.past.changes
    requires r < |x.sys.client.rounds| && !x.sys.client.rounds[r].Fetching?
    ensures Alive(x.sys) <==> Usable(x.sys) && x.sys.account.Open?
  {
  }

  /** Whatever else happens, a refresh answered 401 means that the session is over, unless someone logged in
      after it was sent. */
  lemma RefusalEndsSession(x: Traced, e: Event, i: nat)
    requires Traceable(x) && Expires(x.sys, e, i)
    requires var r := RefreshOf(x.sys, i);
             r < |x.past.trail| && x.past.trail[r].answer == Some(Unauthorized)
             && x.past.trail[r].logins == x.past.logins
    ensures !Alive(x.sys)
  {
    TraceableInv(x);
    ExpiryFollowsAnswer(x, e, i);
    assert RoundOk(x.sys, x.past, RefreshOf(x.sys, i));
  }

  /** In a session that no step has lost, an expiry is wrong exactly while the browser still has a cookie;
      and then the refresh was not answered 401, or someone logged in since. */
  lemma KeptSessionAtExpiry(x: Traced, e: Event, i: nat)
    requires Traceable(x) && Expires(x.sys, e, i) && SessionInv(x.sys)
    ensures Alive(x.sys) <==> x.sys.jar.Some?
    ensures var r := RefreshOf(x.sys, i);
            && r < |x.past.trail|
            && (x.sys.jar.Some? && x.past.trail[r].logins == x.past.logins ==>
                x.past.trail[r].answer != Some(Unauthorized))
  {
    TraceableInv(x);
    ExpiryFollowsAnswer(x, e, i);
    assert RoundOk(x.sys, x.past, RefreshOf(x.sys, i));
  }

  /** Tokens are stored once, so a stored token is the one a send carried exactly if it was not replaced. */
  lemma CarriedExactly(stored: seq<Option<Token>>, k: nat)
    requires k <= |stored| && At(stored, |stored|).Some?
    requires forall i, j :: 0 <= i < j < |stored| && stored[i].Some? ==> stored[i] != stored[j]
    ensures k < |stored| <==> At(stored, |stored|) != At(stored, k)
  {
  }

  /** Exactly when an expiry drops a token that was stored after the rejected request was sent: when the
      stored token is not the one the request carried. */
  lemma NewerTokenDroppedExactly(x: Traced, e: Event, i: nat)
    requires Traceable(x) && Expires(x.sys, e, i)
    ensures i < |x.past.sentAfter|
    ensures x.sys.client.accessToken.Some? ==>
              (x.past.sentAfter[i] < |x.past.stored| <==> x.sys.client.accessToken != x.sys.client.calls[i].header)
  {
    assert LogInv(x) && Inv(x.sys) by {
      TraceableInv(x);
    }
    assert SentOk(x.sys, x.past, i) && CallOk(x.sys.client.rounds, x.sys.client.calls[i]);
    if x.sys.client.accessToken.Some? {
      CarriedExactly(x.past.stored, x.past.sentAfter[i]);
    }
  }

  /** It happens: a refresh that the rate limiter turned away expires a live session. */
  lemma TurnedAwayExpiresLiveSession()
    ensures exists s, i: nat | Reachable(s) && Expires(s, ResumeCaller(i), i) :: Alive(s)
  {
    RefreshingIsReachable();
    var s := Advance(REFRESHING, ServeRefresh(Fail));
    s := Advance(s, DeliverRefresh);
    assert Expires(s, ResumeCaller(0), 0) && Alive(s);
  }

  lemma CheckedIsReachable() returns (s: System)
    ensures Reachable(s) && s == REFRESHING.(wire := Admitted(Some(0)))
  {
    RefreshingIsReachable();
    s := Advance(REFRESHING, ServeRefresh(Check));
  }

  lemma ForbiddenIsReachable() returns (s: System)
    ensures Reachable(s) && s == REFRESHING.(wire := Answered(Some(0), Forbidden), account := Deactivated)
  {
    s := CheckedIsReachable();
    s := Advance(s, SetAccount(Deactivated));
    s := Advance(s, ServeRefresh(Consume));
  }

  /** It happens: an account deactivated and reactivated meanwhile gets a 403, which ends a session whose cookie
      is as good as before. */
  lemma ForbiddenExpiresLiveSession()
    ensures exists s, i: nat | Reachable(s) && Expires(s, ResumeCaller(i), i) :: Alive(s) && s.jar == REFRESHING.jar
  {
    var s := ForbiddenIsReachable();
    s := Advance(s, DeliverRefresh);
    s := Advance(s, SetAccount(Open));
    assert Expires(s, ResumeCaller(0), 0) && Alive(s);
  }

  lemma FailedIsReachable() returns (s: System)
    ensures Reachable(s)
    ensures s == REFRESHING.(wire := Answered(Some(0), Unavailable), active := {}, used := {0}, poisoned := true)
  {
    s := CheckedIsReachable();
    s := Advance(s, ServeRefresh(Consume));
    s := Advance(s, ServeRefresh(Fail));
  }

  /** It happens: a handler that fails after deleting the token leaves a dead cookie, although no reply was
      lost; by PoisonedJarEndsEverySession, showing it again is taken for theft. */
  lemma FailedHandlerEndsSession()
    ensures exists s, i: nat | Reachable(s) && Expires(s, ResumeCaller(i), i) ::
              !Alive(s) && LockedOut(s) && s.poisoned && !s.reuse
  {
    var s := FailedIsReachable();
    s := Advance(s, DeliverRefresh);
    assert Expires(s, ResumeCaller(0), 0) && LockedOut(s);
  }
}
