/**
 The client half of packages/utils/src/apiClient.ts: every stretch of code between two `await`s is
 one atomic transition. A request sends, may join or start the one shared refresh, and may send a
 second time.
 */
module ApiClientProtocol {
  import opened Prelude

  /** Access and refresh tokens, by identity. */
  type Token = nat

  /** How a refresh promise settled: resolved true, resolved false, or rejected. */
  datatype Outcome = Refreshed | Refused | Threw

  /** One run of the refresh body: awaiting the fetch, awaiting the JSON, or over. */
  datatype Round = Fetching | Reading | Settled(outcome: Outcome)

  datatype Kind = Request(skipRefresh: bool) | RefreshOnly

  datatype Pc =
    | AwaitReply
    | AwaitRefresh
    | AwaitRetry
    | Returned
    | Thrown

  /** One caller of `request` or `tryRefresh`. `joined` is the round whose promise it awaited,
      `saw` what that promise gave it, `status` the last HTTP status it received, `header` the
      bearer token of its last send, `expired` whether it fired onSessionExpired. */
  datatype Call = Call(kind: Kind, pc: Pc, sends: nat, header: Option<Token>, status: nat,
                       joined: Option<nat>, saw: Option<Outcome>, expired: bool)
  {
    predicate Done() {
      pc.Returned? || pc.Thrown?
    }
  }

  datatype Client = Client(accessToken: Option<Token>, refreshPromise: Option<nat>,
                           rounds: seq<Round>, calls: seq<Call>)

  const UNAUTHORIZED: nat := 401

  /** `tryRefresh` up to its first suspension: join the round in flight, else start one. The body
      always suspends on its fetch before the promise is assigned, so both happen in this step. */
  function TryRefresh(c: Client): (Client, nat) {
    match c.refreshPromise
    case Some(r) => (c, r)
    case None =>
      (c.(refreshPromise := Some(|c.rounds|), rounds := c.rounds + [Fetching]), |c.rounds|)
  }

  function SetCall(c: Client, i: nat, call: Call): Client
    requires i < |c.calls|
  {
    c.(calls := c.calls[i := call])
  }

  function BeginRequest(c: Client, skipRefresh: bool): Client {
    c.(calls := c.calls + [Call(Request(skipRefresh), AwaitReply, 1, c.accessToken, 0, None, None, false)])
  }

  function BeginRefresh(c: Client): Client {
    var (c1, r) := TryRefresh(c);
    c1.(calls := c1.calls + [Call(RefreshOnly, AwaitRefresh, 0, None, 0, Some(r), None, false)])
  }

  predicate AwaitsReply(c: Client, i: nat) {
    i < |c.calls| && (c.calls[i].pc.AwaitReply? || c.calls[i].pc.AwaitRetry?) && c.calls[i].kind.Request?
  }

  predicate CanResume(c: Client, i: nat) {
    && i < |c.calls| && c.calls[i].pc.AwaitRefresh?
    && c.calls[i].joined.Some? && c.calls[i].joined.value < |c.rounds|
    && c.rounds[c.calls[i].joined.value].Settled?
  }

  /** Line 93: a 401 that survived the refresh attempt ends the session. */
  function Expire(c: Client, i: nat, call: Call): Client
    requires i < |c.calls|
  {
    SetCall(c.(accessToken := None), i, call.(pc := Returned, expired := true))
  }

  function OnReply(c: Client, i: nat, status: nat): Client
    requires AwaitsReply(c, i)
  {
    var call := c.calls[i].(status := status);
    if call.pc.AwaitRetry? then
      if status == UNAUTHORIZED then Expire(c, i, call) else SetCall(c, i, call.(pc := Returned))
    else if status == UNAUTHORIZED && !call.kind.skipRefresh then
      var (c1, r) := TryRefresh(c);
      SetCall(c1, i, call.(pc := AwaitRefresh, joined := Some(r)))
    else
      SetCall(c, i, call.(pc := Returned))
  }

  function OnFetchError(c: Client, i: nat): Client
    requires AwaitsReply(c, i)
  {
    SetCall(c, i, c.calls[i].(pc := Thrown))
  }

  /** The `await tryRefresh()` of caller i continues. */
  function Resume(c: Client, i: nat): Client
    requires CanResume(c, i)
  {
    var outcome := c.rounds[c.calls[i].joined.value].outcome;
    var call := c.calls[i].(saw := Some(outcome));
    if outcome.Threw? then SetCall(c, i, call.(pc := Thrown))
    else if call.kind.RefreshOnly? then SetCall(c, i, call.(pc := Returned))
    else if outcome.Refreshed? then
      SetCall(c, i, call.(pc := AwaitRetry, sends := call.sends + 1, header := c.accessToken))
    else Expire(c, i, call)
  }

  predicate InPhase(c: Client, phase: Round) {
    c.rounds != [] && c.rounds[|c.rounds| - 1] == phase
  }

  function SetRound(c: Client, round: Round): Client
    requires c.rounds != []
  {
    c.(rounds := c.rounds[|c.rounds| - 1 := round])
  }

  /** The refresh body returns or throws: its `finally` clears the shared promise. */
  function Settle(c: Client, outcome: Outcome): Client
    requires c.rounds != []
  {
    SetRound(c, Settled(outcome)).(refreshPromise := None)
  }

  function OnRefreshReply(c: Client, ok: bool): Client
    requires InPhase(c, Fetching)
  {
    if ok then SetRound(c, Reading) else Settle(c, Refused)
  }

  function OnRefreshError(c: Client): Client
    requires InPhase(c, Fetching) || InPhase(c, Reading)
  {
    Settle(c, Threw)
  }

  /** The JSON body arrived: `success` with a token, or not. */
  function OnRefreshBody(c: Client, token: Option<Token>): Client
    requires InPhase(c, Reading)
  {
    match token
    case None => Settle(c, Refused)
    case Some(_) => Settle(c.(accessToken := token), Refreshed)
  }

  // ----- what every step keeps -----

  /** refreshPromise is non-null exactly while the newest round is in flight; older rounds are over. */
  ghost predicate SingleFlight(c: Client) {
    && (forall r :: 0 <= r < |c.rounds| - 1 ==> c.rounds[r].Settled?)
    && c.refreshPromise == (if c.rounds != [] && !c.rounds[|c.rounds| - 1].Settled? then Some(|c.rounds| - 1) else None)
  }

  /** What is known about a caller at each of its program points. */
  ghost predicate CallOk(rounds: seq<Round>, call: Call) {
    && (call.joined.Some? ==> call.joined.value < |rounds|)
    && (call.saw.Some? ==> call.joined.Some? && rounds[call.joined.value] == Settled(call.saw.value))
    && match call.pc
       case AwaitReply => call.kind.Request? && call.sends == 1 && call.joined.None? && call.saw.None? && !call.expired
       case AwaitRefresh =>
         && call.joined.Some? && call.saw.None? && !call.expired
         && (call.kind.Request? ==> call.sends == 1 && call.status == UNAUTHORIZED && !call.kind.skipRefresh)
         && (call.kind.RefreshOnly? ==> call.sends == 0)
       case AwaitRetry =>
         call.kind.Request? && !call.kind.skipRefresh && call.sends == 2 && call.saw == Some(Refreshed) && !call.expired
       case Returned =>
         && (call.kind.RefreshOnly? ==> call.sends == 0 && !call.expired)
         && (call.kind.Request? ==>
              && call.sends == (if call.saw == Some(Refreshed) then 2 else 1)
              && call.saw != Some(Threw)
              && (call.saw.None? ==> call.status != UNAUTHORIZED || call.kind.skipRefresh)
              && (call.saw.Some? ==> !call.kind.skipRefresh)
              && (call.saw == Some(Refused) ==> call.status == UNAUTHORIZED)
              && (call.expired <==> !call.kind.skipRefresh && call.status == UNAUTHORIZED))
       case Thrown => !call.expired && call.sends <= 2 && (call.sends == 2 ==> call.saw == Some(Refreshed))
  }

  ghost predicate ClientInv(c: Client) {
    && SingleFlight(c)
    && forall i :: 0 <= i < |c.calls| ==> CallOk(c.rounds, c.calls[i])
  }
}
