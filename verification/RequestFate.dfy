/**
 What becomes of every call of the API client, told from the events of a run alone: which replies, failures
 and continuations it got, and how the refresh it waited for ended.
 */
module RequestFate {
  import opened Prelude
  import opened ApiClientProtocol
  import opened TokenRefresh

  predicate Concerns(e: Event, i: nat) {
    (e.DeliverReply? && e.i == i) || (e.FailFetch? && e.i == i) || (e.ResumeCaller? && e.i == i)
  }

  /** The events of a run that call i took part in, in order. */
  function Own(es: seq<Event>, i: nat): seq<Event> {
    if es == [] then []
    else
      var last := es[|es| - 1];
      Own(es[..|es| - 1], i) + if Concerns(last, i) then [last] else []
  }

  /** The calls that the application made, in order. */
  function Made(es: seq<Event>): seq<Kind> {
    if es == [] then []
    else
      var last := es[|es| - 1];
      Made(es[..|es| - 1])
      + (if last.StartRequest? then [Request(last.skipRefresh)] else if last.StartRefresh? then [RefreshOnly] else [])
  }

  /** How the refresh that the call joined ended. */
  ghost predicate Joined(rounds: seq<Round>, call: Call, outcome: Outcome) {
    call.joined.Some? && call.joined.value < |rounds| && rounds[call.joined.value] == Settled(outcome)
  }

  /** A request that has got these events. Its first 401, unless it may not refresh, makes it wait for a refresh;
      any other reply returns it with the reply's status; a failed fetch throws. */
  ghost predicate RequestFate(rounds: seq<Round>, call: Call, skipRefresh: bool, own: seq<Event>) {
    if own == [] then call.pc.AwaitReply? && call.sends == 1 && call.joined.None? && !call.expired
    else if own[0].FailFetch? then |own| == 1 && call.pc.Thrown? && call.sends == 1 && !call.expired
    else if !own[0].DeliverReply? then false
    else if own[0].status == UNAUTHORIZED && !skipRefresh then
      if |own| == 1 then call.pc.AwaitRefresh? && call.sends == 1 && call.joined.Some? && !call.expired
      else RefreshedFate(rounds, call, own[1..])
    else |own| == 1 && call.pc.Returned? && call.status == own[0].status && call.sends == 1 && !call.expired
  }

  /** The request after the refresh: it throws as the refresh threw, expires the session as it was refused, and
      is sent again as it succeeded; then its second reply returns it, and a second 401 expires the session. */
  ghost predicate RefreshedFate(rounds: seq<Round>, call: Call, own: seq<Event>)
    requires own != []
  {
    && own[0].ResumeCaller?
    && ((Joined(rounds, call, Threw) && |own| == 1 && call.pc.Thrown? && call.sends == 1 && !call.expired)
        || (Joined(rounds, call, Refused) && |own| == 1 && call.pc.Returned? && call.status == UNAUTHORIZED
            && call.sends == 1 && call.expired)
        || (Joined(rounds, call, Refreshed) && call.sends == 2 && |own| <= 2
            && if |own| == 1 then call.pc.AwaitRetry? && !call.expired
               else if own[1].FailFetch? then call.pc.Thrown? && !call.expired
               else own[1].DeliverReply? && call.pc.Returned? && call.status == own[1].status
                    && (call.expired <==> own[1].status == UNAUTHORIZED)))
  }

  /** A bare tryRefresh waits, then returns or throws as its refresh did. */
  ghost predicate RefreshFate(rounds: seq<Round>, call: Call, own: seq<Event>) {
    && call.sends == 0 && call.joined.Some? && !call.expired
    && if own == [] then call.pc.AwaitRefresh?
       else |own| == 1 && own[0].ResumeCaller?
            && (if Joined(rounds, call, Threw) then call.pc.Thrown?
                else call.pc.Returned? && (Joined(rounds, call, Refused) || Joined(rounds, call, Refreshed)))
  }

  ghost predicate Fate(rounds: seq<Round>, call: Call, own: seq<Event>) {
    match call.kind
    case Request(skipRefresh) => RequestFate(rounds, call, skipRefresh, own)
    case RefreshOnly => RefreshFate(rounds, call, own)
  }

  ghost predicate Told(s: System, es: seq<Event>) {
    && Inv(s) && |s.client.calls| == |Made(es)|
    && forall i :: 0 <= i < |s.client.calls| ==>
         s.client.calls[i].kind == Made(es)[i] && Fate(s.client.rounds, s.client.calls[i], Own(es, i))
  }

  // ----- one step -----

  /** Settled rounds stay as they are. */
  lemma RoundsStay(s: System, e: Event)
    requires Inv(s) && Enabled(s, e)
    ensures |s.client.rounds| <= |Step(s, e).client.rounds|
    ensures forall r :: 0 <= r < |s.client.rounds| && s.client.rounds[r].Settled? ==>
              Step(s, e).client.rounds[r] == s.client.rounds[r]
  {
  }

  lemma OthersStay(s: System, e: Event, i: nat)
    requires Inv(s) && Enabled(s, e) && i < |s.client.calls| && !Concerns(e, i)
    ensures i < |Step(s, e).client.calls| && Step(s, e).client.calls[i] == s.client.calls[i]
  {
  }

  /** A call that waits for nothing more, or whose refresh is settled, does not care for new rounds. */
  lemma FateStays(s: System, e: Event, call: Call, own: seq<Event>)
    requires Inv(s) && Enabled(s, e) && Fate(s.client.rounds, call, own)
    ensures Fate(Step(s, e).client.rounds, call, own)
  {
    RoundsStay(s, e);
  }

  lemma ReplyFate(s: System, i: nat, status: nat, own: seq<Event>)
    requires Inv(s) && AwaitsReply(s.client, i) && Fate(s.client.rounds, s.client.calls[i], own)
    ensures var t := Step(s, DeliverReply(i, status)).client;
            i < |t.calls| && t.calls[i].kind == s.client.calls[i].kind
            && Fate(t.rounds, t.calls[i], own + [DeliverReply(i, status)])
  {
    RoundsStay(s, DeliverReply(i, status));
  }

  lemma FailureFate(s: System, i: nat, own: seq<Event>)
    requires Inv(s) && AwaitsReply(s.client, i) && Fate(s.client.rounds, s.client.calls[i], own)
    ensures var t := Step(s, FailFetch(i)).client;
            i < |t.calls| && t.calls[i].kind == s.client.calls[i].kind
                && Fate(t.rounds, t.calls[i], own + [FailFetch(i)])
  {
  }

  lemma ResumeFate(s: System, i: nat, own: seq<Event>)
    requires Inv(s) && CanResume(s.client, i) && Fate(s.client.rounds, s.client.calls[i], own)
    ensures var t := Step(s, ResumeCaller(i)).client;
            i < |t.calls| && t.calls[i].kind == s.client.calls[i].kind
            && Fate(t.rounds, t.calls[i], own + [ResumeCaller(i)])
  {
    assert CallOk(s.client.rounds, s.client.calls[i]);
  }

  lemma OwnFate(s: System, e: Event, i: nat, own: seq<Event>)
    requires Inv(s) && Enabled(s, e) && Concerns(e, i) && i < |s.client.calls|
    requires Fate(s.client.rounds, s.client.calls[i], own)
    ensures var t := Step(s, e).client;
            i < |t.calls| && t.calls[i].kind == s.client.calls[i].kind && Fate(t.rounds, t.calls[i], own + [e])
  {
    match e
    case DeliverReply(_, status) => ReplyFate(s, i, status, own);
    case FailFetch(_) => FailureFate(s, i, own);
    case ResumeCaller(_) => ResumeFate(s, i, own);
  }

  lemma NewCallFate(s: System, e: Event)
    requires Inv(s) && Enabled(s, e)
    ensures var t, made := Step(s, e).client, Made([e]);
            && |t.calls| == |s.client.calls| + |made|
            && (made != [] ==>
                t.calls[|s.client.calls|].kind == made[0] && Fate(t.rounds, t.calls[|s.client.calls|], []))
  {
    assert [e][..0] == [];
  }

  /** Before a call is made nothing concerns it. */
  lemma {:induction false} OwnNone(es: seq<Event>, i: nat)
    requires Run(INITIAL, es).Some? && i >= |Run(INITIAL, es).value.client.calls|
    ensures Own(es, i) == []
    decreases |es|
  {
    if es != [] {
      var init, last := es[..|es| - 1], es[|es| - 1];
      var s := RunLast(es);
      RunKeepsInv(INITIAL, init);
      CallsStay(s, last);
      OwnNone(init, i);
    }
  }

  lemma CallsStay(s: System, e: Event)
    requires Inv(s) && Enabled(s, e)
    ensures |s.client.calls| <= |Step(s, e).client.calls| && forall i: nat :: Concerns(e, i) ==> i < |s.client.calls|
  {
  }

  /** A run is its beginning and one more step. */
  lemma RunLast(es: seq<Event>) returns (s: System)
    requires es != [] && Run(INITIAL, es).Some?
    ensures Run(INITIAL, es[..|es| - 1]) == Some(s) && Enabled(s, es[|es| - 1])
    ensures Run(INITIAL, es) == Some(Step(s, es[|es| - 1]))
  {
    var init, last := es[..|es| - 1], es[|es| - 1];
    assert es == init + [last];
    RunPrefix(INITIAL, init, [last]);
    s := Run(INITIAL, init).value;
    RunConcat(INITIAL, init, [last]);
    assert [last][1..] == [];
    assert Run(s, [last]) == Run(Step(s, last), []);
  }

  lemma {:induction false} RunPrefix(s: System, es: seq<Event>, fs: seq<Event>)
    requires Run(s, es + fs).Some?
    ensures Run(s, es).Some? && Run(Run(s, es).value, fs).Some?
    decreases |es|
  {
    if es == [] {
      assert es + fs == fs;
    } else {
      assert (es + fs)[0] == es[0] && (es + fs)[1..] == es[1..] + fs;
      RunPrefix(Step(s, es[0]), es[1..], fs);
    }
  }

  lemma OneMore(es: seq<Event>, e: Event, i: nat)
    ensures Made(es + [e]) == Made(es) + Made([e])
    ensures Own(es + [e], i) == Own(es, i) + if Concerns(e, i) then [e] else []
  {
    assert (es + [e])[..|es|] == es && [e][..0] == [];
  }

  lemma OldCallTells(s: System, e: Event, i: nat, own: seq<Event>)
    requires Inv(s) && Enabled(s, e) && i < |s.client.calls| && Fate(s.client.rounds, s.client.calls[i], own)
    ensures var t := Step(s, e).client;
            && i < |t.calls| && t.calls[i].kind == s.client.calls[i].kind
            && Fate(t.rounds, t.calls[i], own + if Concerns(e, i) then [e] else [])
  {
    if Concerns(e, i) {
      OwnFate(s, e, i, own);
    } else {
      OthersStay(s, e, i);
      FateStays(s, e, s.client.calls[i], own);
    }
  }

  lemma StepTells(s: System, es: seq<Event>, e: Event, i: nat)
    requires Told(s, es) && Enabled(s, e) && Run(INITIAL, es) == Some(s) && i < |Step(s, e).client.calls|
    ensures var t := Step(s, e).client;
            && i < |Made(es + [e])| && t.calls[i].kind == Made(es + [e])[i]
            && Fate(t.rounds, t.calls[i], Own(es + [e], i))
  {
    OneMore(es, e, i);
    NewCallFate(s, e);
    if i < |s.client.calls| {
      assert Fate(s.client.rounds, s.client.calls[i], Own(es, i));
      OldCallTells(s, e, i, Own(es, i));
    } else {
      OwnNone(es, i);
      CallsStay(s, e);
    }
  }

  /** Over every run: the calls are those made, and each stands where its own events put it. */
  lemma {:induction false} RunTells(es: seq<Event>)
    requires Run(INITIAL, es).Some?
    ensures Told(Run(INITIAL, es).value, es)
    decreases |es|
  {
    if es != [] {
      var init, last := es[..|es| - 1], es[|es| - 1];
      var s := RunLast(es);
      RunTells(init);
      StepKeepsInv(s, last);
      assert es == init + [last];
      var c := Step(s, last).client;
      NewCallFate(s, last);
      OneMore(init, last, 0);
      forall i | 0 <= i < |c.calls|
        ensures i < |Made(es)| && c.calls[i].kind == Made(es)[i] && Fate(c.rounds, c.calls[i], Own(es, i))
      {
        StepTells(s, init, last, i);
      }
    }
  }

  // ----- what a caller can rely on -----

  /** A call throws if and only if the last thing that happened to it was its own failed fetch, or its resuming
      from a refresh that threw. */
  lemma ThrownExactly(es: seq<Event>, i: nat)
    requires Run(INITIAL, es).Some? && i < |Run(INITIAL, es).value.client.calls|
    ensures var c, own := Run(INITIAL, es).value.client, Own(es, i);
            c.calls[i].pc.Thrown? <==>
              own != [] && (own[|own| - 1] == FailFetch(i)
                            || (own[|own| - 1] == ResumeCaller(i) && Joined(c.rounds, c.calls[i], Threw)))
  {
    RunTells(es);
    OwnConcerns(es, i);
  }

  /** A request whose last awaited reply arrived, and was not a first 401 that it may refresh, has returned, with
      that very status. */
  lemma AnsweredReturns(es: seq<Event>, i: nat, status: nat)
    requires Run(INITIAL, es).Some? && i < |Run(INITIAL, es).value.client.calls|
    requires var own := Own(es, i);
             && own != [] && own[|own| - 1] == DeliverReply(i, status)
             && !(|own| == 1 && status == UNAUTHORIZED && i < |Made(es)| && Made(es)[i] == Request(false))
    ensures var call := Run(INITIAL, es).value.client.calls[i]; call.pc.Returned? && call.status == status
  {
    RunTells(es);
    OwnConcerns(es, i);
  }

  lemma {:induction false} OwnConcerns(es: seq<Event>, i: nat)
    ensures forall k :: 0 <= k < |Own(es, i)| ==> Concerns(Own(es, i)[k], i)
    decreases |es|
  {
    if es != [] {
      OwnConcerns(es[..|es| - 1], i);
    }
  }

  /** A caller that begins to wait joins the refresh in flight, or the one that this very step starts; and a
      round is started by nothing else, and never beside another. */
  lemma WaitsForTheNewest(s: System, e: Event, i: nat)
    requires Reachable(s) && Enabled(s, e) && i < |Step(s, e).client.calls|
    requires Step(s, e).client.calls[i].pc.AwaitRefresh?
    requires i < |s.client.calls| ==> !s.client.calls[i].pc.AwaitRefresh?
    ensures var c, t := s.client, Step(s, e).client;
            && t.rounds != [] && t.calls[i].joined == Some(|t.rounds| - 1) && t.refreshPromise == t.calls[i].joined
            && t.rounds == (if c.refreshPromise.Some? then c.rounds else c.rounds + [Fetching])
  {
    assert Inv(s) by {
      ReachableInv(s);
    }
    if i < |s.client.calls| {
      assert Concerns(e, i) by {
        if !Concerns(e, i) {
          OthersStay(s, e, i);
        }
      }
    } else {
      NewCallFate(s, e);
    }
  }

  /** How each round moves: by its answer, its loss and its body, and by nothing else. */
  lemma RoundMovesExactly(s: System, e: Event)
    requires Reachable(s) && Enabled(s, e)
    ensures var c, t := s.client, Step(s, e).client;
            match e
            case DropRefresh => c.rounds != [] && t.rounds == c.rounds[|c.rounds| - 1 := Settled(Threw)]
            case DeliverRefresh =>
              c.rounds != []
              && t.rounds == c.rounds[|c.rounds| - 1 := if s.wire.answer.Rotated? then Reading else Settled(Refused)]
            case DeliverBody(readable) =>
              c.rounds != [] && t.rounds == c.rounds[|c.rounds| - 1 := Settled(if readable then Refreshed else Threw)]
            case _ =>
              t.rounds == c.rounds
              || (c.refreshPromise.None? && t.rounds == c.rounds + [Fetching]
                  && (e.StartRefresh? || (e.DeliverReply? && e.status == UNAUTHORIZED)))
  {
    ReachableInv(s);
  }

  /** A body without a token refuses, on any client, and a body with one refreshes; only the latter touches the
      token, and neither touches a caller. */
  lemma BodySettlesExactly(c: Client, token: Option<Token>)
    requires InPhase(c, Reading)
    ensures var d := OnRefreshBody(c, token);
            && |d.rounds| == |c.rounds| && d.refreshPromise.None? && d.calls == c.calls
            && d.rounds[|d.rounds| - 1].Settled?
            && (d.rounds[|d.rounds| - 1].outcome.Refreshed? <==> token.Some?)
            && (d.rounds[|d.rounds| - 1].outcome.Refused? <==> token.None?)
            && d.accessToken == (if token.Some? then token else c.accessToken)
  {
  }

  ghost predicate SomeoneExpired(before: seq<Call>, after: seq<Call>) {
    exists i: nat :: i < |before| && i < |after| && !before[i].expired && after[i].expired
  }

  /** The access token moves by a store, by the body of a refresh, by an expiry, and by nothing else. */
  lemma TokenMovesExactly(s: System, e: Event)
    requires Reachable(s) && Enabled(s, e)
    ensures var c, t := s.client, Step(s, e).client;
            t.accessToken == if e.StoreToken? then e.token
                             else if e == DeliverBody(true) then s.body
                             else if SomeoneExpired(c.calls, t.calls) then None
                             else c.accessToken
  {
    ReachableInv(s);
    if e.DeliverReply? || e.ResumeCaller? {
      assert CallOk(s.client.rounds, s.client.calls[e.i]);
      var t := Step(s, e).client;
      assert t.accessToken != s.client.accessToken ==> t.calls[e.i].expired && !s.client.calls[e.i].expired;
      assert forall i :: 0 <= i < |s.client.calls| && i != e.i ==> t.calls[i] == s.client.calls[i];
    }
  }
}
