/**
 packages/utils/src/apiClient.ts as the object it is: closure variables reassigned across awaits.
 Each method is the code between two suspensions; its contract ties the fields to the protocol
 function whose runs TokenRefresh reasons about.
 */
module ApiClient {
  import opened Prelude
  import P = ApiClientProtocol

  class Client {
    var accessToken: Option<P.Token>
    var refreshPromise: Option<nat>
    var rounds: seq<P.Round>
    var calls: seq<P.Call>

    ghost function View(): P.Client
      reads this
    {
      P.Client(accessToken, refreshPromise, rounds, calls)
    }

    constructor ()
      ensures View() == P.Client(None, None, [], [])
    {
      accessToken, refreshPromise, rounds, calls := None, None, [], [];
    }

    method SetAccessToken(token: Option<P.Token>)
      modifies this
      ensures View() == old(View()).(accessToken := token)
    {
      accessToken := token;
    }

    method TryRefresh() returns (round: nat)
      modifies this
      ensures (View(), round) == P.TryRefresh(old(View()))
    {
      if refreshPromise.Some? {
        return refreshPromise.value;
      }
      round := |rounds|;
      rounds := rounds + [P.Fetching];
      refreshPromise := Some(round);
    }

    method AwaitTryRefresh() returns (i: nat)
      modifies this
      ensures View() == P.BeginRefresh(old(View())) && i == |old(calls)|
    {
      i := |calls|;
      var round := TryRefresh();
      calls := calls + [P.Call(P.RefreshOnly, P.AwaitRefresh, 0, None, 0, Some(round), None, false)];
    }

    method Request(skipRefresh: bool) returns (i: nat)
      modifies this
      ensures View() == P.BeginRequest(old(View()), skipRefresh) && i == |old(calls)|
    {
      i := |calls|;
      calls := calls + [P.Call(P.Request(skipRefresh), P.AwaitReply, 1, accessToken, 0, None, None, false)];
    }

    method OnReply(i: nat, status: nat)
      requires P.AwaitsReply(View(), i)
      modifies this
      ensures View() == P.OnReply(old(View()), i, status)
    {
      var call := calls[i].(status := status);
      if call.pc.AwaitReply? && status == P.UNAUTHORIZED && !call.kind.skipRefresh {
        var round := TryRefresh();
        calls := calls[i := call.(pc := P.AwaitRefresh, joined := Some(round))];
        return;
      }
      if call.pc.AwaitRetry? && status == P.UNAUTHORIZED {
        SetAccessToken(None);
        call := call.(expired := true);
      }
      calls := calls[i := call.(pc := P.Returned)];
    }

    method OnFetchError(i: nat)
      requires P.AwaitsReply(View(), i)
      modifies this
      ensures View() == P.OnFetchError(old(View()), i)
    {
      calls := calls[i := calls[i].(pc := P.Thrown)];
    }

    method Resume(i: nat)
      requires P.CanResume(View(), i)
      modifies this
      ensures View() == P.Resume(old(View()), i)
    {
      var refreshed := rounds[calls[i].joined.value].outcome;
      var call := calls[i].(saw := Some(refreshed));
      if refreshed.Threw? {
        call := call.(pc := P.Thrown);
      } else if call.kind.RefreshOnly? {
        call := call.(pc := P.Returned);
      } else if refreshed.Refreshed? {
        call := call.(pc := P.AwaitRetry, sends := call.sends + 1, header := accessToken);
      } else {
        SetAccessToken(None);
        call := call.(pc := P.Returned, expired := true);
      }
      calls := calls[i := call];
    }

    /** `return` or `throw` inside the refresh body, followed by its `finally`. */
    method FinishRefresh(outcome: P.Outcome)
      requires rounds != []
      modifies this
      ensures View() == P.Settle(old(View()), outcome)
    {
      rounds := rounds[|rounds| - 1 := P.Settled(outcome)];
      refreshPromise := None;
    }

    method OnRefreshReply(ok: bool)
      requires P.InPhase(View(), P.Fetching)
      modifies this
      ensures View() == P.OnRefreshReply(old(View()), ok)
    {
      if !ok {
        FinishRefresh(P.Refused);
      } else {
        rounds := rounds[|rounds| - 1 := P.Reading];
      }
    }

    method OnRefreshError()
      requires P.InPhase(View(), P.Fetching) || P.InPhase(View(), P.Reading)
      modifies this
      ensures View() == P.OnRefreshError(old(View()))
    {
      FinishRefresh(P.Threw);
    }

    method OnRefreshBody(token: Option<P.Token>)
      requires P.InPhase(View(), P.Reading)
      modifies this
      ensures View() == P.OnRefreshBody(old(View()), token)
    {
      if token.None? {
        FinishRefresh(P.Refused);
      } else {
        SetAccessToken(token);
        FinishRefresh(P.Refreshed);
      }
    }
  }
}
