/**
 apps/admin/src/context/LocationContext.tsx and apps/admin/src/lib/socket.ts as objects: the provider's
 state is overwritten by its effect, and the module-level location is read back at each handshake.
 */
module LocationContext {
  import opened Prelude
  import P = LocationProtocol

  /** lib/socket.ts: one socket for the app and the location its handshakes send. */
  class SocketModule {
    var activeLocationId: Option<P.Id>
    var state: P.Socket

    constructor ()
      ensures activeLocationId == None && state == P.Off
    {
      activeLocationId, state := None, P.Off;
    }

    method SetActiveLocationId(id: Option<P.Id>)
      modifies this
      ensures activeLocationId == id && state == old(state)
    {
      activeLocationId := id;
    }

    method Connect()
      modifies this
      ensures activeLocationId == old(activeLocationId) && state == P.Connect(old(state))
    {
      if state.Off? {
        state := P.Connecting;
      }
    }

    method Disconnect()
      modifies this
      ensures activeLocationId == old(activeLocationId) && state == P.Off
    {
      state := P.Off;
    }

    /** A network blip: the client reconnects by itself. */
    method Lose()
      requires state.On?
      modifies this
      ensures activeLocationId == old(activeLocationId) && state == P.Connecting
    {
      state := P.Connecting;
    }

    method Handshake()
      requires state.Connecting?
      modifies this
      ensures activeLocationId == old(activeLocationId) && state == P.On(activeLocationId)
    {
      state := P.On(activeLocationId);
    }
  }

  class LocationProvider {
    const socket: SocketModule
    var user: Option<P.User>
    var business: Option<P.Id>
    var locations: seq<P.Id>
    var activeLocationId: Option<P.Id>
    var loading: bool
    var storage: map<P.Id, P.Id>
    var runs: seq<P.Fetch>
    var started: bool
    ghost var commits: seq<nat>

    ghost function View(): P.Context
      reads this, socket
    {
      P.Context(user, business, locations, activeLocationId, loading, storage, socket.activeLocationId, socket.state,
                runs, started, commits)
    }

    constructor (socket: SocketModule)
      requires socket.activeLocationId == None && socket.state == P.Off
      ensures this.socket == socket && View() == P.INITIAL
    {
      this.socket := socket;
      user, business, locations, activeLocationId, loading := None, None, [], None, true;
      storage, runs, started, commits := map[], [], false, [];
    }

    /** The effect: cancel the previous run, then resolve() up to its fetch. */
    method Resolve()
      modifies this, socket
      ensures View() == P.ResolveEffect(old(View()))
    {
      runs := P.CancelRuns(runs);
      started := true;
      if user.None? {
        locations := [];
        activeLocationId := None;
        loading := false;
        socket.Disconnect();
        return;
      }
      if business.None? {
        locations := [];
        activeLocationId := user.value.restaurantId;
        loading := false;
        socket.SetActiveLocationId(user.value.restaurantId);
        socket.Connect();
        return;
      }
      loading := true;
      runs := runs + [P.Fetch(user.value.id, user.value.restaurantId, business.value, false, true)];
    }

    method Render(newUser: Option<P.User>, newBusiness: Option<P.Id>)
      modifies this, socket
      ensures View() == P.OnRender(old(View()), newUser, newBusiness)
    {
      var rerun := !started || business != newBusiness || user.Some? != newUser.Some?
        || (user.Some? && (user.value.id != newUser.value.id
            || user.value.mustChangePassword != newUser.value.mustChangePassword));
      user, business := newUser, newBusiness;
      if rerun {
        Resolve();
      }
    }

    method OnFetched(k: nat, fetched: seq<P.Id>)
      requires k < |runs|
      modifies this, socket
      ensures View() == P.OnFetched(old(View()), k, fetched)
    {
      var run := runs[k];
      runs := runs[k := run.(pending := false)];
      if run.cancelled {
        return;
      }
      locations := fetched;
      var resolved: Option<P.Id> := None;
      if run.business in storage && storage[run.business] in fetched {
        resolved := Some(storage[run.business]);
      } else if run.own.Some? && run.own.value in fetched {
        resolved := run.own;
      } else if |fetched| > 0 {
        resolved := Some(fetched[0]);
      }
      activeLocationId := resolved;
      socket.SetActiveLocationId(resolved);
      socket.Connect();
      loading := false;
      commits := commits + [k];
    }

    method OnFetchFailed(k: nat)
      requires k < |runs|
      modifies this
      ensures View() == P.OnFetchFailed(old(View()), k)
    {
      var run := runs[k];
      runs := runs[k := run.(pending := false)];
      if !run.cancelled {
        loading := false;
      }
    }

    method SwitchLocation(locationId: P.Id)
      modifies this, socket
      ensures View() == P.OnSwitch(old(View()), locationId)
    {
      if business.None? || Some(locationId) == activeLocationId {
        return;
      }
      storage := storage[business.value := locationId];
      activeLocationId := Some(locationId);
      socket.SetActiveLocationId(Some(locationId));
      socket.Disconnect();
      socket.Connect();
    }

    method OnRefetched(fetched: seq<P.Id>)
      modifies this
      ensures View() == old(View()).(locations := fetched)
    {
      locations := fetched;
    }

    method Do(e: P.Event)
      requires P.Enabled(View(), e)
      modifies this, socket
      ensures View() == P.Step(old(View()), e)
    {
      match e {
        case Render(newUser, newBusiness) => Render(newUser, newBusiness);
        case Fetched(k, fetched) => OnFetched(k, fetched);
        case FetchFailed(k) => OnFetchFailed(k);
        case SwitchLocation(id) => SwitchLocation(id);
        case Handshake => socket.Handshake();
        case ConnectionLost => socket.Lose();
        case Refetched(fetched) => OnRefetched(fetched);
      }
    }
  }

  /** Plays any run on a new provider and socket. In their fields: whenever the socket is up or coming up, the
      location it would send is the active one; the spinner is on exactly before the first effect and while
      the newest run waits; without refetches a non-empty list holds the active location; and the live
      connection is in the active location's room unless a step left it. */
  method Play(es: seq<P.Event>) returns (provider: LocationProvider)
    requires P.Run(P.INITIAL, es).Some?
    ensures fresh(provider) && P.Run(P.INITIAL, es) == Some(provider.View())
    ensures !provider.socket.state.Off? ==> provider.socket.activeLocationId == provider.activeLocationId
    ensures provider.loading <==> !provider.started || P.LiveRun(provider.View())
    ensures provider.locations == P.ListAfter(P.INITIAL, es, [])
    ensures (forall e :: e in es ==> !e.Refetched?) && provider.locations != [] ==>
              provider.activeLocationId.Some? && provider.activeLocationId.value in provider.locations
    ensures P.NeverLeaves(P.INITIAL, es) && provider.socket.state.On? ==>
        provider.socket.state.presented == provider.activeLocationId
  {
    var socket := new SocketModule();
    provider := new LocationProvider(socket);
    P.StartReachable();
    var k := 0;
    while k < |es|
      invariant 0 <= k <= |es| && fresh(provider) && fresh(provider.socket)
      invariant P.Run(P.INITIAL, es) == P.Run(provider.View(), es[k..]) && P.Reachable(provider.View())
      invariant P.NeverLeaves(P.INITIAL, es) ==> P.InRoom(provider.View()) && P.NeverLeaves(provider.View(), es[k..])
    {
      assert es[k..][1..] == es[k + 1..];
      P.RoomExactly(provider.View(), es[k]);
      P.ReachStep(provider.View(), es[k]);
      provider.Do(es[k]);
      k := k + 1;
    }
    P.RunKeepsInv(P.INITIAL, es);
    P.StartReachable();
    P.ListOverRuns(P.INITIAL, es);
  }
}
