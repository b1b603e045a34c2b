/**
 The API client object played against server, network and scheduler: what every run leaves in its fields.
 */
module ApiClientRun {
  import opened Prelude
  import P = ApiClientProtocol
  import T = TokenRefresh
  import opened ApiClient
  import F = RequestFate

  /** One event: the client's own code runs for its share of it. */
  method Do(client: Client, s: T.System, e: T.Event)
    requires client.View() == s.client && T.Enabled(s, e) && T.Inv(s)
    modifies client
    ensures client.View() == T.Step(s, e).client
  {
    match e {
      case StartRequest(skipRefresh) => var _ := client.Request(skipRefresh);
      case StartRefresh => var _ := client.AwaitTryRefresh();
      case StoreToken(token) => client.SetAccessToken(token);
      case DeliverReply(i, status) => client.OnReply(i, status);
      case FailFetch(i) => client.OnFetchError(i);
      case ResumeCaller(i) => client.Resume(i);
      case DeliverRefresh => client.OnRefreshReply(s.wire.answer.Rotated?);
      case DropRefresh => client.OnRefreshError();
      case DeliverBody(readable) =>
        if readable {
          client.OnRefreshBody(s.body);
        } else {
          client.OnRefreshError();
        }
      case _ =>
    }
  }

  /** Plays any run on a new client. In its fields: refreshPromise is non-null exactly while one round is in
      flight; no request sent more than twice; a request that returned had expired the session exactly if
      its last response was a 401 it could refresh; and, as long as rotations arrive, the server never
      saw a used token. */
  method Play(es: seq<T.Event>) returns (client: Client, s: T.System)
    requires T.Run(T.INITIAL, es).Some?
    ensures fresh(client) && client.View() == s.client && T.Run(T.INITIAL, es) == Some(s)
    ensures client.refreshPromise.None? <==> forall r :: 0 <= r < |client.rounds| ==> client.rounds[r].Settled?
    ensures forall q, r | 0 <= q < r < |client.rounds| :: client.rounds[q].Settled? || client.rounds[r].Settled?
    ensures forall i :: 0 <= i < |client.calls| ==>
              client.calls[i].sends <= 2
              && (client.calls[i].kind.Request? && client.calls[i].pc.Returned? ==>
                    (client.calls[i].expired <==>
                        !client.calls[i].kind.skipRefresh && client.calls[i].status == P.UNAUTHORIZED))
    ensures T.RotationsArrive(T.INITIAL, es) ==> !s.reuse
    ensures |client.calls| == |F.Made(es)| && forall i :: 0 <= i < |client.calls| ==>
              client.calls[i].kind == F.Made(es)[i] && F.Fate(client.rounds, client.calls[i], F.Own(es, i))
  {
    client := new Client();
    s := T.INITIAL;
    var k := 0;
    while k < |es|
      invariant 0 <= k <= |es| && fresh(client) && client.View() == s.client && T.Inv(s)
      invariant T.Run(T.INITIAL, es) == T.Run(s, es[k..])
    {
      T.StepKeepsInv(s, es[k]);
      Do(client, s, es[k]);
      s := T.Step(s, es[k]);
      assert es[k..][1..] == es[k + 1..];
      k := k + 1;
    }
    F.RunTells(es);
    assert T.Reachable(s);
    T.OneRefreshInFlight(s);
    forall i | 0 <= i < |client.calls|
      ensures client.calls[i].sends <= 2
      ensures client.calls[i].kind.Request? && client.calls[i].pc.Returned? ==>
                (client.calls[i].expired <==>
                    !client.calls[i].kind.skipRefresh && client.calls[i].status == P.UNAUTHORIZED)
    {
      T.RequestOutcome(s, i);
    }
    if T.RotationsArrive(T.INITIAL, es) {
      T.NoUsedTokenPresented(es);
    }
  }
}
