/**
 The client protocol composed with the server it talks to: one browser cookie jar, a refresh handler
 that consumes the presented token and issues the next one (auth.controller.ts, token.service.ts),
 and a network and scheduler that may do anything they like in any order.
 */
module TokenRefresh {
  import opened Prelude
  import opened ApiClientProtocol

  /** How a refresh call is answered, as its status shows it: 200 with the new tokens; 401; 403; or anything
      else, such as the rate limiter's 429, a failure inside the handler, or a gateway's 5xx. The client's
      code tells none of the last three from another. */
  datatype Answer = Rotated(cookie: Token, access: Token) | Unauthorized | Forbidden | Unavailable

  /** The steps of the refresh handler, one per await: the token is looked up in the store; its expiry is
      noticed; the user is looked up and the token deleted (what comes between these two cannot matter);
      the next token is issued; or the call fails, in the handler, before it or on the way back. */
  datatype Serving = Check | Expire | Consume | Issue | Fail

  /** The one refresh call the client can have on the wire, with the cookie it carries and how far the
      handler is; `stale` is history: whether the jar was poisoned when the call was sent. */
  datatype Wire =
    | Idle
    | Sent(cookie: Option<Token>, stale: bool)
    | Admitted(cookie: Option<Token>)
    | Consumed(cookie: Option<Token>)
    | Answered(cookie: Option<Token>, answer: Answer)

  datatype Account = Open | Deactivated | Gone

  /** `active` is the server's store of unused refresh tokens, `jar` the browser's cookie, `granted` the
      access tokens that logins returned and the application has not stored yet.
      History: `used` holds every token a refresh consumed, `reuse` records that the server was
      shown a used one, `poisoned` that the jar kept a token whose replacement was lost. */
  datatype System = System(client: Client, active: set<Token>, jar: Option<Token>, next: Token, account: Account,
                           wire: Wire, body: Option<Token>, granted: set<Token>,
                           used: set<Token>, reuse: bool, poisoned: bool)

  datatype Event =
    // the application
    | StartRequest(skipRefresh: bool)
    | StartRefresh
    | StoreToken(token: Option<Token>)
    // the network and the event loop
    | DeliverReply(i: nat, status: nat)
    | FailFetch(i: nat)
    | ResumeCaller(i: nat)
    | ServeRefresh(serving: Serving)
    | DeliverRefresh
    | DropRefresh
    | DeliverBody(readable: bool)
    // other parts of the server
    | Login(revokeOthers: bool)
    | Logout
    | Revoke(gone: set<Token>)
    | SetAccount(account: Account)

  predicate IsProgress(e: Event) {
    e.DeliverReply? || e.FailFetch? || e.ResumeCaller? || e.ServeRefresh? || e.DeliverRefresh? || e.DropRefresh?
        || e.DeliverBody?
  }

  const INITIAL: System := System(Client(None, None, [], []), {}, None, 0, Open, Idle, None, {}, {}, false, false)

  /** The handler deleted the presented token, and its replacement is not in the browser yet. */
  predicate Spent(w: Wire) {
    w.Consumed? || (w.Answered? && w.answer.Rotated?)
  }

  predicate CanServe(s: System, serving: Serving) {
    match serving
    case Check => s.wire.Sent?
    case Expire => s.wire.Sent? && s.wire.cookie.Some?
    case Consume => s.wire.Admitted?
    case Issue => s.wire.Consumed?
    case Fail => s.wire.Sent? || s.wire.Admitted? || Spent(s.wire)
  }

  /** A client step may have put a refresh call on the wire; it carries the jar's cookie. */
  function Transmit(s: System, c: Client): System {
    s.(client := c, wire := if |c.rounds| > |s.client.rounds| then Sent(s.jar, s.poisoned) else s.wire)
  }

  predicate Enabled(s: System, e: Event) {
    match e
    case StartRequest(_) => true
    case StartRefresh => true
    // the application stores what a login returned, once, or null
    case StoreToken(t) => t.Some? ==> t.value in s.granted
    case DeliverReply(i, _) => AwaitsReply(s.client, i)
    case FailFetch(i) => AwaitsReply(s.client, i)
    case ResumeCaller(i) => CanResume(s.client, i)
    case ServeRefresh(serving) => CanServe(s, serving)
    case DeliverRefresh => s.wire.Answered? && InPhase(s.client, Fetching)
    case DropRefresh => !s.wire.Idle? && InPhase(s.client, Fetching)
    case DeliverBody(_) => InPhase(s.client, Reading)
    case Login(_) => s.account.Open?
    case Logout => true
    case Revoke(_) => true
    case SetAccount(_) => !s.account.Gone?
  }

  /** The call ends without its rotation reaching the browser: what was spent is lost, unless a login or
      logout replaced the cookie meanwhile. */
  function Lose(s: System): System {
    s.(poisoned := s.poisoned || (Spent(s.wire) && s.jar == s.wire.cookie))
  }

  /** The refresh handler. A token no longer in the store revokes every session; an expired one's store
      entry is gone; a deactivated account's token is refused but stays. */
  function Serve(s: System, serving: Serving): System
    requires CanServe(s, serving)
  {
    var k := s.wire.cookie;
    match serving
    case Check =>
      var s := s.(reuse := s.reuse || (k.Some? && k.value in s.used));
      if k.None? then s.(wire := Answered(k, Unauthorized))
      else if k.value !in s.active then s.(active := {}, wire := Answered(k, Unauthorized))
      else s.(wire := Admitted(k))
    case Expire => s.(active := s.active - {k.value}, wire := Answered(k, Unauthorized))
    case Consume =>
      (match s.account
       case Open => if k.Some? then s.(active := s.active - {k.value}, used := s.used + {k.value}, wire := Consumed(k))
           else s
       case Deactivated => s.(wire := Answered(k, Forbidden))
       case Gone => s.(wire := Answered(k, Unauthorized)))
    case Issue => s.(active := s.active + {s.next}, next := s.next + 2,
        wire := Answered(k, Rotated(s.next, s.next + 1)))
    case Fail => Lose(s).(wire := Answered(k, Unavailable))
  }

  function Deliver(s: System): System
    requires s.wire.Answered? && InPhase(s.client, Fetching)
  {
    match s.wire.answer
    case Rotated(cookie, access) =>
      s.(client := OnRefreshReply(s.client, true), wire := Idle, jar := Some(cookie), body := Some(access),
          poisoned := false)
    case _ => s.(client := OnRefreshReply(s.client, false), wire := Idle)
  }

  /** The browser gives up on the refresh call; the handler goes no further. */
  function Drop(s: System): System
    requires !s.wire.Idle? && InPhase(s.client, Fetching)
  {
    Lose(s).(client := OnRefreshError(s.client), wire := Idle)
  }

  function Step(s: System, e: Event): System
    requires Enabled(s, e)
  {
    match e
    case StartRequest(skip) => Transmit(s, BeginRequest(s.client, skip))
    case StartRefresh => Transmit(s, BeginRefresh(s.client))
    case StoreToken(t) =>
      s.(client := s.client.(accessToken := t), granted := if t.Some? then s.granted - {t.value} else s.granted)
    case DeliverReply(i, status) => Transmit(s, OnReply(s.client, i, status))
    case FailFetch(i) => Transmit(s, OnFetchError(s.client, i))
    case ResumeCaller(i) => Transmit(s, Resume(s.client, i))
    case ServeRefresh(serving) => Serve(s, serving)
    case DeliverRefresh => Deliver(s)
    case DropRefresh => Drop(s)
    case DeliverBody(readable) =>
      s.(client := if readable then OnRefreshBody(s.client, s.body) else OnRefreshError(s.client))
    case Login(revokeOthers) =>
      s.(active := (if revokeOthers then {} else s.active) + {s.next}, jar := Some(s.next),
          granted := s.granted + {s.next + 1},
         next := s.next + 2, poisoned := false)
    case Logout =>
      s.(active := if s.jar.Some? then s.active - {s.jar.value} else s.active, jar := None, poisoned := false)
    case Revoke(gone) => s.(active := s.active - gone)
    // a status change by an administrator revokes nothing; deleting an account is also a Revoke
    case SetAccount(account) => s.(account := account)
  }

  /** The state after a whole run, or None when some event of it could not happen. */
  function Run(s: System, es: seq<Event>): Option<System>
    decreases |es|
  {
    if es == [] then Some(s)
    else if Enabled(s, es[0]) then Run(Step(s, es[0]), es[1..])
    else None
  }

  // ----- the invariant -----

  /** The wire carries a refresh call exactly while the newest round awaits its fetch; its body follows. */
  ghost predicate WireInv(s: System) {
    (s.wire.Idle? <==> !InPhase(s.client, Fetching)) && (InPhase(s.client, Reading) ==> s.body.Some?)
  }

  /** Tokens are numbered as they are issued; the jar holds a used token only while its replacement
      is on the way, or once that replacement was lost. */
  ghost predicate TokenInv(s: System) {
    && (forall t :: t in s.active ==> t < s.next && t !in s.used)
    && (forall t :: t in s.used ==> t < s.next)
    && (s.jar.Some? ==> s.jar.value < s.next)
    && (!s.wire.Idle? && s.wire.cookie.Some? ==> s.wire.cookie.value < s.next)
    && match s.wire
       case Idle => s.poisoned == (s.jar.Some? && s.jar.value in s.used)
       case Sent(k, stale) =>
         && stale == (k.Some? && k.value in s.used)
         && s.poisoned == (s.jar.Some? && s.jar.value in s.used)
         && (k != s.jar ==> !s.poisoned)
       case Admitted(k) => k.Some? && k.value !in s.used && !s.poisoned && (s.jar.Some? ==> s.jar.value !in s.used)
       case Consumed(k) =>
         k.Some? && k.value in s.used && !s.poisoned && (s.jar.Some? && s.jar.value in s.used <==> s.jar == k)
       case Answered(k, Rotated(k1, _)) =>
         && k.Some? && k.value in s.used && k1 !in s.used && k1 < s.next && s.jar != Some(k1) && !s.poisoned
         && (s.jar.Some? && s.jar.value in s.used <==> s.jar == k)
       case Answered(_, _) => s.poisoned == (s.jar.Some? && s.jar.value in s.used)
  }

  ghost predicate Inv(s: System) {
    ClientInv(s.client) && WireInv(s) && TokenInv(s)
  }

  lemma TryRefreshKeepsInv(c: Client)
    requires ClientInv(c)
    ensures ClientInv(TryRefresh(c).0) && TryRefresh(c).0.calls == c.calls
    ensures TryRefresh(c).1 < |TryRefresh(c).0.rounds|
  {
    var c1 := TryRefresh(c).0;
    forall i | 0 <= i < |c1.calls| ensures CallOk(c1.rounds, c1.calls[i]) {
      assert CallOk(c.rounds, c.calls[i]);
    }
  }

  lemma BeginKeepsInv(c: Client, skip: bool)
    requires ClientInv(c)
    ensures ClientInv(BeginRequest(c, skip)) && ClientInv(BeginRefresh(c))
  {
    TryRefreshKeepsInv(c);
  }

  lemma ReplyKeepsInv(c: Client, i: nat, status: nat)
    requires ClientInv(c) && AwaitsReply(c, i)
    ensures ClientInv(OnFetchError(c, i)) && ClientInv(OnReply(c, i, status))
  {
    TryRefreshKeepsInv(c);
    assert CallOk(c.rounds, c.calls[i]);
  }

  lemma ResumeKeepsInv(c: Client, i: nat)
    requires ClientInv(c) && CanResume(c, i)
    ensures ClientInv(Resume(c, i))
  {
    assert CallOk(c.rounds, c.calls[i]);
  }

  lemma RefreshStepsKeepInv(c: Client, ok: bool, token: Option<Token>)
    requires ClientInv(c)
    ensures InPhase(c, Fetching) ==> ClientInv(OnRefreshReply(c, ok))
    ensures InPhase(c, Fetching) || InPhase(c, Reading) ==> ClientInv(OnRefreshError(c))
    ensures InPhase(c, Reading) ==> ClientInv(OnRefreshBody(c, token))
  {
  }

  lemma StepKeepsInv(s: System, e: Event)
    requires Inv(s) && Enabled(s, e)
    ensures Inv(Step(s, e))
  {
    StepKeepsClient(s, e);
    StepKeepsTokens(s, e);
  }

  lemma StepKeepsTokens(s: System, e: Event)
    requires Inv(s) && Enabled(s, e)
    ensures WireInv(Step(s, e)) && TokenInv(Step(s, e))
  {
    if e.ServeRefresh? {
      ServeKeepsTokens(s, e.serving);
    } else if e.DeliverRefresh? || e.DropRefresh? || e.Login? || e.Logout? || e.Revoke? {
      SessionStepsKeepTokens(s, e);
    }
  }

  lemma ServeKeepsTokens(s: System, serving: Serving)
    requires Inv(s) && CanServe(s, serving)
    ensures WireInv(Serve(s, serving)) && TokenInv(Serve(s, serving))
  {
  }

  lemma SessionStepsKeepTokens(s: System, e: Event)
    requires Inv(s) && Enabled(s, e) && (e.DeliverRefresh? || e.DropRefresh? || e.Login? || e.Logout? || e.Revoke?)
    ensures WireInv(Step(s, e)) && TokenInv(Step(s, e))
  {
  }

  lemma StepKeepsClient(s: System, e: Event)
    requires Inv(s) && Enabled(s, e)
    ensures ClientInv(Step(s, e).client)
  {
    match e
    case StartRequest(skip) => BeginKeepsInv(s.client, skip);
    case StartRefresh => BeginKeepsInv(s.client, false);
    case StoreToken(_) =>
    case DeliverReply(i, status) => ReplyKeepsInv(s.client, i, status);
    case FailFetch(i) => ReplyKeepsInv(s.client, i, 0);
    case ResumeCaller(i) => ResumeKeepsInv(s.client, i);
    case ServeRefresh(_) =>
    case DeliverRefresh => RefreshStepsKeepInv(s.client, s.wire.answer.Rotated?, None);
    case DropRefresh => RefreshStepsKeepInv(s.client, false, None);
    case DeliverBody(_) => RefreshStepsKeepInv(s.client, false, s.body);
    case Login(_) =>
    case Logout =>
    case Revoke(_) =>
    case SetAccount(_) =>
  }

  lemma {:induction false} RunKeepsInv(s: System, es: seq<Event>)
    requires Inv(s) && Run(s, es).Some?
    ensures Inv(Run(s, es).value)
    decreases |es|
  {
    if es != [] {
      StepKeepsInv(s, es[0]);
      RunKeepsInv(Step(s, es[0]), es[1..]);
    }
  }

  /** The states some interleaving of calls, replies, failures and logins leads to. */
  ghost predicate Reachable(s: System) {
    exists es :: Run(INITIAL, es) == Some(s)
  }

  lemma ReachableInv(s: System)
    requires Reachable(s)
    ensures Inv(s)
  {
    var es :| Run(INITIAL, es) == Some(s);
    RunKeepsInv(INITIAL, es);
  }

  // ----- one refresh at a time -----

  /** At most one round is unsettled; refreshPromise names it, and is null exactly when there is none;
      nothing is on the wire without it. */
  lemma OneRefreshInFlight(s: System)
    requires Reachable(s)
    ensures forall r, q | 0 <= r < |s.client.rounds| && 0 <= q < |s.client.rounds| ::
              !s.client.rounds[r].Settled? && !s.client.rounds[q].Settled? ==> r == q
    ensures s.client.refreshPromise.None? <==> forall r :: 0 <= r < |s.client.rounds| ==> s.client.rounds[r].Settled?
    ensures s.client.refreshPromise.Some? ==>
              s.client.refreshPromise.value < |s.client.rounds|
                  && !s.client.rounds[s.client.refreshPromise.value].Settled?
    ensures !s.wire.Idle? ==>
              s.client.refreshPromise.Some? && s.client.rounds[s.client.refreshPromise.value].Fetching?
  {
    ReachableInv(s);
  }

  /** However a round ended, the next caller that needs one can start the next, on the jar's cookie. */
  lemma SettledRefreshCanRestart(s: System)
    requires Reachable(s) && s.client.refreshPromise.None?
    ensures Step(s, StartRefresh).wire == Sent(s.jar, s.poisoned)
    ensures Step(s, StartRefresh).client.refreshPromise == Some(|s.client.rounds|)
    ensures s.wire.Idle?
  {
    ReachableInv(s);
  }

  // ----- what each caller sees -----

  /** Callers that awaited the same round saw the same outcome: the one it settled with. */
  lemma JoinersShareOneOutcome(s: System, i: nat, j: nat)
    requires Reachable(s) && i < |s.client.calls| && j < |s.client.calls|
    requires s.client.calls[i].joined.Some? && s.client.calls[i].joined == s.client.calls[j].joined
    requires s.client.calls[i].saw.Some? && s.client.calls[j].saw.Some?
    ensures s.client.calls[i].saw == s.client.calls[j].saw
    ensures s.client.calls[i].joined.value < |s.client.rounds|
    ensures s.client.rounds[s.client.calls[i].joined.value] == Settled(s.client.calls[i].saw.value)
  {
    ReachableInv(s);
    assert CallOk(s.client.rounds, s.client.calls[i]) && CallOk(s.client.rounds, s.client.calls[j]);
  }

  /** A request sends at most twice, the second time only after a refresh that succeeded. A finished
      one expired the session exactly when it may refresh and its last response was still 401; one
      that threw never did, and one that expired did so after a refresh that completed. */
  lemma RequestOutcome(s: System, i: nat)
    requires Reachable(s) && i < |s.client.calls|
    ensures var call := s.client.calls[i];
            && call.sends <= 2
            && (call.sends == 2 ==> call.saw == Some(Refreshed))
            && (call.kind.Request? && call.pc.Returned? ==>
                  (call.expired <==> !call.kind.skipRefresh && call.status == UNAUTHORIZED))
            && (call.expired ==> call.pc.Returned? && call.kind == Request(false)
                                 && call.saw.Some? && !call.saw.value.Threw?)
  {
    ReachableInv(s);
    assert CallOk(s.client.rounds, s.client.calls[i]);
  }

  /** What one step does to an earlier caller: a finished one stays as it is, and the round it
      joined is never exchanged for another. */
  ghost predicate CallAdvances(before: seq<Call>, after: seq<Call>, i: nat) {
    && i < |before| && i < |after|
    && (before[i].Done() ==> after[i] == before[i])
    && (before[i].joined.Some? ==> after[i].joined == before[i].joined)
  }

  lemma StepAdvancesCall(s: System, e: Event, i: nat)
    requires Inv(s) && Enabled(s, e) && i < |s.client.calls|
    ensures CallAdvances(s.client.calls, Step(s, e).client.calls, i)
  {
    assert CallOk(s.client.rounds, s.client.calls[i]);
  }

  /** Over any run a finished call is never touched again, so it expires the session at most once;
      and a caller awaits at most one refresh: the round it joined stays. */
  lemma {:induction false} FinishedCallsStay(s: System, es: seq<Event>, i: nat)
    requires Inv(s) && Run(s, es).Some? && i < |s.client.calls|
    ensures CallAdvances(s.client.calls, Run(s, es).value.client.calls, i)
    decreases |es|
  {
    if es != [] {
      StepKeepsInv(s, es[0]);
      StepAdvancesCall(s, es[0], i);
      FinishedCallsStay(Step(s, es[0]), es[1..], i);
    }
  }

  // ----- the rotated cookie -----

  /** No call whose token the handler deleted is lost anywhere in the run, nor fails before its answer. */
  ghost predicate RotationsArrive(s: System, es: seq<Event>)
    decreases |es|
  {
    es != [] && Enabled(s, es[0]) ==>
      && !((es[0].DropRefresh? || es[0] == ServeRefresh(Fail)) && Spent(s.wire))
      && RotationsArrive(Step(s, es[0]), es[1..])
  }

  lemma {:induction false} CleanRun(s: System, es: seq<Event>)
    requires Inv(s) && Run(s, es).Some? && RotationsArrive(s, es)
    requires !s.reuse && !s.poisoned && (s.wire.Sent? ==> !s.wire.stale)
    ensures !Run(s, es).value.reuse && !Run(s, es).value.poisoned
    decreases |es|
  {
    if es != [] {
      StepKeepsInv(s, es[0]);
      CleanRun(Step(s, es[0]), es[1..]);
    }
  }

  /** The point of the shared promise: as long as rotations arrive, the server is never shown a
      token that a refresh already consumed, whatever the interleaving. */
  lemma NoUsedTokenPresented(es: seq<Event>)
    requires Run(INITIAL, es).Some? && RotationsArrive(INITIAL, es)
    ensures !Run(INITIAL, es).value.reuse
  {
    CleanRun(INITIAL, es);
  }

  /** Reuse detection trips on a refresh exactly when the jar was poisoned as the call was sent:
      a lost rotation left its consumed token there and no login had replaced it. */
  lemma ReuseExactlyWhenPoisoned(s: System)
    requires Reachable(s) && s.wire.Sent? && !s.reuse
    ensures Step(s, ServeRefresh(Check)).reuse <==> s.wire.stale
  {
    ReachableInv(s);
  }

  /** From any poisoned idle state, the very next refresh is taken for theft and ends every session. */
  lemma PoisonedJarEndsEverySession(s: System)
    requires Reachable(s) && s.poisoned && s.wire.Idle? && s.client.refreshPromise.None?
    ensures var t := Step(Step(s, StartRefresh), ServeRefresh(Check));
            t.reuse && t.active == {} && t.wire == Answered(s.jar, Unauthorized)
  {
    ReachableInv(s);
  }

  /** Losing one rotation is enough to poison the jar, and so is a handler that fails between deleting the
      token and answering. */
  lemma LostRotationPoisons(s: System, e: Event)
    requires Reachable(s) && Spent(s.wire) && s.jar == s.wire.cookie && (e == DropRefresh || e == ServeRefresh(Fail))
    ensures Enabled(s, e) && Step(s, e).poisoned
    ensures e.DropRefresh? ==> Step(s, e).client.refreshPromise.None?
    ensures e.ServeRefresh? ==> Step(s, e).wire == Answered(s.jar, Unavailable)
  {
    ReachableInv(s);
  }

  // ----- the session survives -----

  /** What the browser holds, the server will rotate. */
  predicate Good(s: System) {
    s.jar.Some? ==> s.jar.value in s.active && s.account.Open?
  }

  /** The jar's token can be used, or its usable replacement is on the way; and a call that is still to be
      checked carries a token that can be used. */
  ghost predicate SessionInv(s: System) {
    match s.wire
    case Idle => Good(s)
    case Sent(k, _) => Good(s) && (k.Some? && !s.account.Gone? ==> k.value in s.active)
    case Admitted(_) => Good(s)
    case Consumed(k) => s.account.Open? && (s.jar == k || Good(s))
    case Answered(k, Rotated(k1, _)) => k1 in s.active && s.account.Open? && (s.jar == k || Good(s))
    case Answered(_, _) => Good(s)
  }

  /** The steps that lose a session, told from the state they are taken in: a call that is lost, or fails,
      once its token is deleted; a token that expires; a password change while a refresh with a cookie is
      to be checked or its rotation is on the way; a logout under a refresh of the same cookie that is to
      be checked; a revocation of a token still in play; and the account's deactivation or removal. */
  ghost predicate Loses(s: System, e: Event) {
    match e
    case DropRefresh => Spent(s.wire) && s.jar == s.wire.cookie
    case ServeRefresh(serving) =>
      (serving.Expire? && !s.wire.Idle? && s.jar == s.wire.cookie)
          || (serving.Fail? && Spent(s.wire) && s.jar == s.wire.cookie)
    case Login(revokeOthers) =>
      revokeOthers && ((s.wire.Sent? && s.wire.cookie.Some?) || (s.wire.Answered? && s.wire.answer.Rotated?))
    case Logout => s.wire.Sent? && s.jar.Some? && s.jar == s.wire.cookie
    case Revoke(gone) =>
      var jarGone := s.jar.Some? && s.jar.value in gone;
      (match s.wire
       case Sent(k, _) => jarGone || (k.Some? && !s.account.Gone? && k.value in gone)
       case Consumed(k) => s.jar != k && jarGone
       case Answered(k, Rotated(k1, _)) => k1 in gone || (s.jar != k && jarGone)
       case _ => jarGone)
    case SetAccount(account) => !account.Open? && (s.jar.Some? || Spent(s.wire))
    case _ => false
  }

  /** A step keeps the session if and only if it is not one of those. */
  lemma StepKeepsSessionExactly(s: System, e: Event)
    requires Inv(s) && SessionInv(s) && Enabled(s, e)
    ensures SessionInv(Step(s, e)) <==> !Loses(s, e)
  {
  }

  /** No step of the run loses the session. */
  ghost predicate KeepsSession(s: System, es: seq<Event>)
    decreases |es|
  {
    es != [] && Enabled(s, es[0]) ==> !Loses(s, es[0]) && KeepsSession(Step(s, es[0]), es[1..])
  }

  lemma {:induction false} RunKeepsSession(s: System, es: seq<Event>)
    requires Inv(s) && SessionInv(s) && Run(s, es).Some? && KeepsSession(s, es)
    ensures Inv(Run(s, es).value) && SessionInv(Run(s, es).value)
    decreases |es|
  {
    if es != [] {
      StepKeepsInv(s, es[0]);
      StepKeepsSessionExactly(s, es[0]);
      RunKeepsSession(Step(s, es[0]), es[1..]);
    }
  }

  /** After any run without a losing step, whatever its concurrent 401s, the next refresh the server handles
      rotates again: shared refreshes never lock a signed-in client out. */
  lemma SessionSurvives(es: seq<Event>)
    requires Run(INITIAL, es).Some? && KeepsSession(INITIAL, es)
    ensures var s := Run(INITIAL, es).value;
            s.client.refreshPromise.None? && s.jar.Some? ==>
              var t := Step(s, StartRefresh);
              && t.wire.Sent? && Step(t, ServeRefresh(Check)).wire.Admitted?
              && Step(Step(t, ServeRefresh(Check)), ServeRefresh(Consume)).wire.Consumed?
              && Step(Step(Step(t, ServeRefresh(Check)), ServeRefresh(Consume)),
                  ServeRefresh(Issue)).wire.answer.Rotated?
  {
    RunKeepsSession(INITIAL, es);
  }

  /** No refresh is under way, and the browser holds a token that the server will not rotate. */
  ghost predicate LockedOut(s: System) {
    s.wire.Idle? && s.client.refreshPromise.None? && s.jar.Some? && !Good(s)
  }

  /** Without any losing step, `s` may become a state in which the client is locked out. */
  ghost predicate MayLockOut(s: System) {
    exists es :: Run(s, es).Some? && KeepsSession(s, es) && LockedOut(Run(s, es).value)
  }

  lemma LockOutLater(s: System, e: Event)
    requires Enabled(s, e) && !Loses(s, e) && MayLockOut(Step(s, e))
    ensures MayLockOut(s)
  {
    var es :| Run(Step(s, e), es).Some? && KeepsSession(Step(s, e), es) && LockedOut(Run(Step(s, e), es).value);
    assert ([e] + es)[1..] == es;
    assert Run(s, [e] + es) == Run(Step(s, e), es);
  }

  lemma LockOutNow(s: System)
    requires LockedOut(s)
    ensures MayLockOut(s)
  {
    assert Run(s, []) == Some(s) && KeepsSession(s, []);
  }

  lemma IdleLocksOut(s: System)
    requires Inv(s) && s.wire.Idle? && !Good(s)
    ensures MayLockOut(s)
  {
    if s.client.refreshPromise.Some? {
      var e := DeliverBody(true);
      LockOutNow(Step(s, e));
      LockOutLater(s, e);
    } else {
      LockOutNow(s);
    }
  }

  /** A dropped call leaves the jar as it is. */
  lemma DroppedLocksOut(s: System)
    requires Inv(s) && !s.wire.Idle? && !Good(s) && !Loses(s, DropRefresh)
    ensures MayLockOut(s)
  {
    StepKeepsInv(s, DropRefresh);
    IdleLocksOut(Step(s, DropRefresh));
    LockOutLater(s, DropRefresh);
  }

  lemma AnsweredLocksOut(s: System)
    requires Inv(s) && !SessionInv(s) && s.wire.Answered?
    ensures MayLockOut(s)
  {
    if s.wire.answer.Rotated? && s.wire.answer.cookie in s.active && s.account.Open? {
      DroppedLocksOut(s);
    } else {
      StepKeepsInv(s, DeliverRefresh);
      IdleLocksOut(Step(s, DeliverRefresh));
      LockOutLater(s, DeliverRefresh);
    }
  }

  lemma ConsumedLocksOut(s: System)
    requires Inv(s) && !SessionInv(s) && s.wire.Consumed?
    ensures MayLockOut(s)
  {
    if s.account.Open? {
      DroppedLocksOut(s);
    } else {
      StepKeepsInv(s, ServeRefresh(Issue));
      AnsweredLocksOut(Step(s, ServeRefresh(Issue)));
      LockOutLater(s, ServeRefresh(Issue));
    }
  }

  /** A call with a dead token ends every session, a login that comes before it is checked included. */
  lemma DeadCallLocksOut(s: System)
    requires Inv(s) && s.wire.Sent? && s.wire.cookie.Some? && s.wire.cookie.value !in s.active && s.jar.Some?
    ensures MayLockOut(s)
  {
    var e := ServeRefresh(Check);
    StepKeepsInv(s, e);
    AnsweredLocksOut(Step(s, e));
    LockOutLater(s, e);
  }

  lemma LoginLocksOut(s: System)
    requires Inv(s) && s.wire.Sent? && s.wire.cookie.Some? && s.wire.cookie.value !in s.active && s.account.Open?
    ensures MayLockOut(s)
  {
    var e := Login(false);
    StepKeepsInv(s, e);
    DeadCallLocksOut(Step(s, e));
    LockOutLater(s, e);
  }

  lemma SentLocksOut(s: System)
    requires Inv(s) && !SessionInv(s) && s.wire.Sent?
    ensures MayLockOut(s)
  {
    if !Good(s) {
      DroppedLocksOut(s);
    } else if s.account.Open? {
      LoginLocksOut(s);
    } else {
      var e := SetAccount(Open);
      StepKeepsInv(s, e);
      LoginLocksOut(Step(s, e));
      LockOutLater(s, e);
    }
  }

  lemma BrokenSessionLocksOut(s: System)
    requires Inv(s) && !SessionInv(s)
    ensures MayLockOut(s)
  {
    match s.wire
    case Idle => IdleLocksOut(s);
    case Sent(_, _) => SentLocksOut(s);
    case Admitted(_) => DroppedLocksOut(s);
    case Consumed(_) => ConsumedLocksOut(s);
    case Answered(_, _) => AnsweredLocksOut(s);
  }

  /** The condition is exact: a step from a state with its session intact can end in a lock-out, without
      any further losing step, if and only if it is a losing step. */
  lemma SessionLostExactly(s: System, e: Event)
    requires Reachable(s) && SessionInv(s) && Enabled(s, e)
    ensures Loses(s, e) <==> MayLockOut(Step(s, e))
  {
    ReachableInv(s);
    StepKeepsInv(s, e);
    StepKeepsSessionExactly(s, e);
    var t := Step(s, e);
    if Loses(s, e) {
      BrokenSessionLocksOut(t);
    } else if MayLockOut(t) {
      var es :| Run(t, es).Some? && KeepsSession(t, es) && LockedOut(Run(t, es).value);
      RunKeepsSession(t, es);
    }
  }

  /** A password change is the sharpest of them: the server takes the refresh that was already on its way
      for reuse, and revokes the new session too. */
  lemma OverlappingPasswordChangeEndsSession(s: System)
    requires Reachable(s) && s.wire.Sent? && s.wire.cookie.Some?
    ensures s.account.Open? ==> Step(Step(s, Login(true)), ServeRefresh(Check)).active == {}
  {
    ReachableInv(s);
  }

  // ----- every caller ends -----

  function CallRank(call: Call): nat {
    match call.pc
    case AwaitReply => 9
    case AwaitRefresh => 2
    case AwaitRetry => 1
    case Returned => 0
    case Thrown => 0
  }

  function CallRanks(calls: seq<Call>): nat {
    if calls == [] then 0 else CallRank(calls[0]) + CallRanks(calls[1..])
  }

  /** Steps the network, the handler and the event loop still owe to the refresh in flight. */
  function RoundRank(s: System): nat {
    if InPhase(s.client, Reading) then 1
    else if !InPhase(s.client, Fetching) then 0
    else
      match s.wire
      case Idle => 0
      case Sent(_, _) => 6
      case Admitted(_) => 5
      case Consumed(_) => 4
      case Answered(_, answer) => if answer.Rotated? then 3 else 2
  }

  /** What is still owed to the callers, and to the refresh in flight. */
  function Measure(s: System): nat {
    CallRanks(s.client.calls) + RoundRank(s)
  }

  lemma {:induction false} CallRanksUpdate(calls: seq<Call>, i: nat, call: Call)
    requires i < |calls|
    ensures CallRanks(calls[i := call]) == CallRanks(calls) - CallRank(calls[i]) + CallRank(call)
  {
    if i > 0 {
      CallRanksUpdate(calls[1..], i - 1, call);
      assert calls[i := call][1..] == calls[1..][i - 1 := call];
    }
  }

  /** A caller's step leaves the refresh in flight alone, or starts the next one. */
  lemma CallerRound(s: System, e: Event)
    requires Inv(s) && Enabled(s, e) && (e.DeliverReply? || e.FailFetch? || e.ResumeCaller?)
    ensures RoundRank(Step(s, e)) <= RoundRank(s) + if Step(s, e).client.calls[e.i].pc.AwaitRefresh? then 6 else 0
  {
    var c, t := s.client, Step(s, e).client;
    assert t.rounds == c.rounds || (t.rounds == c.rounds + [Fetching] && t.calls[e.i].pc.AwaitRefresh?);
  }

  lemma CallerProgress(s: System, e: Event)
    requires Inv(s) && Enabled(s, e) && (e.DeliverReply? || e.FailFetch? || e.ResumeCaller?)
    ensures Measure(Step(s, e)) < Measure(s)
  {
    var c := s.client;
    var t := Step(s, e).client;
    assert CallOk(c.rounds, c.calls[e.i]);
    assert t.calls == c.calls[e.i := t.calls[e.i]];
    CallRanksUpdate(c.calls, e.i, t.calls[e.i]);
    assert RoundRank(Step(s, e)) <= RoundRank(s) + if t.calls[e.i].pc.AwaitRefresh? then 6 else 0 by {
      CallerRound(s, e);
    }
  }

  lemma ProgressDecreases(s: System, e: Event)
    requires Inv(s) && Enabled(s, e) && IsProgress(e)
    ensures Measure(Step(s, e)) < Measure(s)
  {
    if e.DeliverReply? || e.FailFetch? || e.ResumeCaller? {
      CallerProgress(s, e);
    }
  }

  /** While some caller is unfinished, the network or the event loop has a step to take. */
  lemma UnfinishedCallCanProgress(s: System, i: nat)
    requires Inv(s) && i < |s.client.calls| && !s.client.calls[i].Done()
    ensures exists e :: IsProgress(e) && Enabled(s, e)
  {
    assert CallOk(s.client.rounds, s.client.calls[i]);
    match s.client.calls[i].pc
    case AwaitReply => assert Enabled(s, DeliverReply(i, 200));
    case AwaitRetry => assert Enabled(s, DeliverReply(i, 200));
    case AwaitRefresh =>
      var r := s.client.calls[i].joined.value;
      match s.client.rounds[r]
      case Settled(_) => assert Enabled(s, ResumeCaller(i));
      case Fetching => assert Enabled(s, DropRefresh);
      case Reading => assert Enabled(s, DeliverBody(true));
  }

  /** From any reachable state, replies and continuations run out after at most Measure steps, and
      when they have, every caller has returned or thrown. */
  lemma {:induction false} EveryCallEnds(s: System, es: seq<Event>)
    requires Inv(s) && Run(s, es).Some? && (forall e :: e in es ==> IsProgress(e))
    ensures |es| <= Measure(s)
    ensures (forall e :: IsProgress(e) ==> !Enabled(Run(s, es).value, e)) ==>
              forall i :: 0 <= i < |Run(s, es).value.client.calls| ==> Run(s, es).value.client.calls[i].Done()
    decreases |es|
  {
    if es == [] {
      forall i | 0 <= i < |s.client.calls| && !s.client.calls[i].Done()
        ensures exists e :: IsProgress(e) && Enabled(s, e)
      {
        UnfinishedCallCanProgress(s, i);
      }
    } else {
      StepKeepsInv(s, es[0]);
      ProgressDecreases(s, es[0]);
      EveryCallEnds(Step(s, es[0]), es[1..]);
    }
  }

  // ----- the token a retry carries -----

  ghost predicate ResumesRound(s: System, es: seq<Event>, r: nat) {
    forall k :: 0 <= k < |es| ==>
      es[k].ResumeCaller? && es[k].i < |s.client.calls| && s.client.calls[es[k].i].joined == Some(r)
  }

  /** The callers of a round that stored a token resume in any order; each request among them goes
      out again under that very token. */
  lemma {:induction false} JoinersRetryWithNewToken(s: System, es: seq<Event>, r: nat, token: Token, k: nat)
    requires Inv(s) && Run(s, es).Some? && ResumesRound(s, es, r)
    requires r < |s.client.rounds| && s.client.rounds[r] == Settled(Refreshed) && s.client.accessToken == Some(token)
    requires k < |es| && s.client.calls[es[k].i].kind.Request?
    ensures es[k].i < |Run(s, es).value.client.calls|
    ensures Run(s, es).value.client.calls[es[k].i].pc.AwaitRetry?
    ensures Run(s, es).value.client.calls[es[k].i].header == Some(token)
    decreases |es|
  {
    var t := Step(s, es[0]);
    assert es[0] == ResumeCaller(es[0].i);
    StepKeepsInv(s, es[0]);
    assert ResumesRound(t, es[1..], r) by {
      forall q | 0 <= q < |es[1..]| ensures t.client.calls[es[1..][q].i].joined == Some(r) {
        assert es[1..][q] == es[q + 1];
      }
    }
    if k > 0 {
      JoinersRetryWithNewToken(t, es[1..], r, token, k - 1);
    } else {
      ResumesKeepRetry(t, es[1..], r, token, es[0].i);
    }
  }

  lemma {:induction false} ResumesKeepRetry(s: System, es: seq<Event>, r: nat, token: Token, i: nat)
    requires Inv(s) && Run(s, es).Some? && ResumesRound(s, es, r)
    requires r < |s.client.rounds| && s.client.rounds[r] == Settled(Refreshed) && s.client.accessToken == Some(token)
    requires i < |s.client.calls| && s.client.calls[i].pc.AwaitRetry? && s.client.calls[i].header == Some(token)
    ensures i < |Run(s, es).value.client.calls|
    ensures Run(s, es).value.client.calls[i] == s.client.calls[i]
    ensures Run(s, es).value.client.accessToken == Some(token)
    decreases |es|
  {
    if es != [] {
      var t := Step(s, es[0]);
      assert es[0] == ResumeCaller(es[0].i);
      StepKeepsInv(s, es[0]);
      assert ResumesRound(t, es[1..], r) by {
        forall q | 0 <= q < |es[1..]| ensures t.client.calls[es[1..][q].i].joined == Some(r) {
          assert es[1..][q] == es[q + 1];
        }
      }
      ResumesKeepRetry(t, es[1..], r, token, i);
    }
  }

  /** Once a round's body arrives, the server's new token is what goes out: on the retry of a caller that
      waited for the round, and on every request made from then on. */
  lemma RefreshedTokenIsUsed(s: System, i: nat)
    requires Reachable(s) && InPhase(s.client, Reading) && s.body.Some?
    requires i < |s.client.calls| && s.client.calls[i].pc.AwaitRefresh? && s.client.calls[i].kind.Request?
    requires s.client.calls[i].joined == Some(|s.client.rounds| - 1)
    ensures Enabled(Step(s, DeliverBody(true)), ResumeCaller(i))
    ensures i < |Step(Step(s, DeliverBody(true)), ResumeCaller(i)).client.calls|
    ensures Step(Step(s, DeliverBody(true)), ResumeCaller(i)).client.calls[i].header == s.body
    ensures var c := Step(Step(s, DeliverBody(true)), StartRequest(false)).client;
            c.calls != [] && c.calls[|c.calls| - 1].header == s.body && c.calls[|c.calls| - 1].sends == 1
  {
    ReachableInv(s);
  }

  /** Two requests went out without a token; the first one's 401 started a refresh. */
  const REFRESHING: System :=
    System(Client(None, Some(0), [Fetching],
                  [Call(Request(false), AwaitRefresh, 1, None, 401, Some(0), None, false),
                   Call(Request(false), AwaitReply, 1, None, 0, None, None, false)]),
           {0}, Some(0), 2, Open, Sent(Some(0), false), None, {1}, {}, false, false)

  /** The refresh stored a token and the first request is sent again. */
  const RETRYING: System :=
    System(Client(Some(3), None, [Settled(Refreshed)],
                  [Call(Request(false), AwaitRetry, 2, Some(3), 401, Some(0), Some(Refreshed), false),
                   Call(Request(false), AwaitReply, 1, None, 0, None, None, false)]),
           {2}, Some(2), 4, Open, Idle, Some(3), {1}, {0}, false, false)

  lemma RefreshingIsReachable()
    ensures Reachable(REFRESHING)
  {
    assert Run(INITIAL, []) == Some(INITIAL);
    var s := Advance(INITIAL, Login(false));
    s := Advance(s, StartRequest(false));
    s := Advance(s, StartRequest(false));
    s := Advance(s, DeliverReply(0, UNAUTHORIZED));
    assert s == REFRESHING;
  }

  lemma BodyIsReachable() returns (s: System)
    ensures Reachable(s) && s.client == REFRESHING.client.(rounds := [Reading])
    ensures s == System(s.client, {2}, Some(2), 4, Open, Idle, Some(3), {1}, {0}, false, false)
  {
    RefreshingIsReachable();
    s := Rotate(REFRESHING);
    s := Advance(s, DeliverRefresh);
  }

  lemma RetryingIsReachable()
    ensures Reachable(RETRYING)
  {
    var s := BodyIsReachable();
    s := Advance(s, DeliverBody(true));
    s := Advance(s, ResumeCaller(0));
    assert s == RETRYING;
  }

  /** The session may be ended for a token that is no longer the client's: a retry's 401 that arrives
      after a second refresh drops that refresh's token, although the jar still holds a live session. */
  lemma LateRejectionDropsNewerToken()
    ensures exists s, i: nat | Reachable(s) && AwaitsReply(s.client, i) && s.client.calls[i].pc.AwaitRetry? ::
              && s.client.accessToken.Some? && s.client.accessToken != s.client.calls[i].header
              && s.jar.Some? && s.jar.value in s.active
              && Step(s, DeliverReply(i, UNAUTHORIZED)).client.accessToken.None?
              && Step(s, DeliverReply(i, UNAUTHORIZED)).client.calls[i].expired
  {
    RetryingIsReachable();
    var s := Advance(RETRYING, DeliverReply(1, UNAUTHORIZED));
    s := Rotate(s);
    s := Advance(s, DeliverRefresh);
    s := Advance(s, DeliverBody(true));
    assert s.client.accessToken == Some(5) && s.jar == Some(4);
    assert AwaitsReply(s.client, 0) && s.client.calls[0] == RETRYING.client.calls[0];
  }

  /** The handler serves the call on the wire. */
  lemma Rotate(s: System) returns (t: System)
    requires Reachable(s) && s.wire.Sent? && s.wire.cookie.Some? && s.wire.cookie.value in s.active && s.account.Open?
    ensures Reachable(t)
    ensures var k := s.wire.cookie;
            t == s.(active := s.active - {k.value} + {s.next}, used := s.used + {k.value}, next := s.next + 2,
                    reuse := t.reuse, wire := Answered(k, Rotated(s.next, s.next + 1)))
    ensures t.reuse == (s.reuse || s.wire.cookie.value in s.used)
  {
    t := Advance(s, ServeRefresh(Check));
    t := Advance(t, ServeRefresh(Consume));
    t := Advance(t, ServeRefresh(Issue));
  }

  lemma Advance(s: System, e: Event) returns (t: System)
    requires Reachable(s) && Enabled(s, e)
    ensures t == Step(s, e) && Reachable(t)
  {
    t := Step(s, e);
    var es :| Run(INITIAL, es) == Some(s);
    RunConcat(INITIAL, es, [e]);
    assert Run(s, [e]) == Run(t, []);
    assert Run(INITIAL, es + [e]) == Some(t);
  }

  lemma {:induction false} RunConcat(s: System, es: seq<Event>, fs: seq<Event>)
    requires Run(s, es).Some?
    ensures Run(s, es + fs) == Run(Run(s, es).value, fs)
    decreases |es|
  {
    if es == [] {
      assert es + fs == fs;
    } else {
      assert (es + fs)[0] == es[0] && (es + fs)[1..] == es[1..] + fs;
      RunConcat(Step(s, es[0]), es[1..], fs);
    }
  }
}
