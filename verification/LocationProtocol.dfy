/**
 apps/admin/src/context/LocationContext.tsx and lib/socket.ts as steps: renders that re-run the
 resolve effect, fetches answered late or never, location switches, and a socket that reconnects.
 */
module LocationProtocol {
  import opened Prelude

  type Id = nat

  datatype User = User(id: Id, restaurantId: Option<Id>, mustChangePassword: bool)

  /** A resolve() run that reached its fetch, with the values its closure captured. */
  datatype Fetch = Fetch(userId: Id, own: Option<Id>, business: Id, cancelled: bool, pending: bool)

  /** `On(presented)`: the live connection handshook with that location. Connecting: the handshake is
      still to come, as after a dropped connection. */
  datatype Socket = Off | Connecting | On(presented: Option<Id>)

  /** `socketLocation` is lib/socket.ts's module variable; `stored` is localStorage by business;
      `started` is false until the first effect; `commits` is history: the fetches that committed. */
  datatype Context = Context(user: Option<User>, business: Option<Id>, locations: seq<Id>, active: Option<Id>,
      loading: bool,
                             stored: map<Id, Id>, socketLocation: Option<Id>, socket: Socket,
                             fetches: seq<Fetch>, started: bool, commits: seq<nat>)

  datatype Event =
    | Render(user: Option<User>, business: Option<Id>)
    | Fetched(k: nat, locations: seq<Id>)
    | FetchFailed(k: nat)
    | SwitchLocation(id: Id)
    | Handshake
    | ConnectionLost
    | Refetched(locations: seq<Id>)

  const INITIAL: Context := Context(None, None, [], None, true, map[], None, Off, [], false, [])

  function Connect(socket: Socket): Socket {
    if socket.Off? then Connecting else socket
  }

  /** The effect's cleanup: the run that is still waiting is cancelled. */
  function CancelRuns(fetches: seq<Fetch>): (r: seq<Fetch>)
    ensures |r| == |fetches| && forall k :: 0 <= k < |r| ==> r[k] == fetches[k].(cancelled := true)
  {
    seq(|fetches|, k requires 0 <= k < |fetches| => fetches[k].(cancelled := true))
  }

  /** The synchronous part of resolve(). */
  function ResolveEffect(c: Context): Context {
    var c := c.(fetches := CancelRuns(c.fetches), started := true);
    if c.user.None? then
      c.(locations := [], active := None, loading := false, socket := Off)
    else
      var own := c.user.value.restaurantId;
      if c.business.None? then
        c.(locations := [], active := own, loading := false, socketLocation := own, socket := Connect(c.socket))
      else
        c.(loading := true, fetches := c.fetches + [Fetch(c.user.value.id, own, c.business.value, false, true)])
  }

  /** The effect's dependencies: user id, mustChangePassword, business. */
  predicate SameDependencies(c: Context, user: Option<User>, business: Option<Id>) {
    && c.business == business
    && c.user.Some? == user.Some?
    && (user.Some? ==>
        c.user.value.id == user.value.id && c.user.value.mustChangePassword == user.value.mustChangePassword)
  }

  function OnRender(c: Context, user: Option<User>, business: Option<Id>): Context {
    var d := c.(user := user, business := business);
    if c.started && SameDependencies(c, user, business) then d else ResolveEffect(d)
  }

  /** Stored preference, own location, first location: the first of these that is in the list. */
  function Choose(stored: Option<Id>, own: Option<Id>, fetched: seq<Id>): Option<Id> {
    if stored.Some? && stored.value in fetched then stored
    else if own.Some? && own.value in fetched then own
    else if fetched != [] then Some(fetched[0])
    else None
  }

  function Lookup(m: map<Id, Id>, k: Id): Option<Id> {
    if k in m then Some(m[k]) else None
  }

  function OnFetched(c: Context, k: nat, fetched: seq<Id>): Context
    requires k < |c.fetches|
  {
    var run := c.fetches[k];
    var c := c.(fetches := c.fetches[k := run.(pending := false)]);
    if run.cancelled then c
    else
      var resolved := Choose(Lookup(c.stored, run.business), run.own, fetched);
      c.(locations := fetched, active := resolved, socketLocation := resolved, socket := Connect(c.socket),
         loading := false, commits := c.commits + [k])
  }

  function OnFetchFailed(c: Context, k: nat): Context
    requires k < |c.fetches|
  {
    var run := c.fetches[k];
    c.(fetches := c.fetches[k := run.(pending := false)], loading := c.loading && run.cancelled)
  }

  function OnSwitch(c: Context, id: Id): Context {
    if c.business.None? || c.active == Some(id) then c
    else
      c.(stored := c.stored[c.business.value := id], active := Some(id), socketLocation := Some(id),
          socket := Connecting)
  }

  predicate Enabled(c: Context, e: Event) {
    match e
    case Fetched(k, _) => k < |c.fetches| && c.fetches[k].pending
    case FetchFailed(k) => k < |c.fetches| && c.fetches[k].pending
    // the switcher lists the accessible locations
    case SwitchLocation(id) => id in c.locations
    case Handshake => c.socket.Connecting?
    case ConnectionLost => c.socket.On?
    case Refetched(_) => c.started
    case _ => true
  }

  function Step(c: Context, e: Event): Context
    requires Enabled(c, e)
  {
    match e
    case Render(user, business) => OnRender(c, user, business)
    case Fetched(k, fetched) => OnFetched(c, k, fetched)
    case FetchFailed(k) => OnFetchFailed(c, k)
    case SwitchLocation(id) => OnSwitch(c, id)
    case Handshake => c.(socket := On(c.socketLocation))
    case ConnectionLost => c.(socket := Connecting)
    case Refetched(fetched) => c.(locations := fetched)
  }

  function Run(c: Context, es: seq<Event>): Option<Context>
    decreases |es|
  {
    if es == [] then Some(c)
    else if Enabled(c, es[0]) then Run(Step(c, es[0]), es[1..])
    else None
  }

  // ----- the invariant -----

  /** The newest run still waits for its fetch and has not been superseded. */
  predicate LiveRun(c: Context) {
    c.fetches != [] && c.fetches[|c.fetches| - 1].pending && !c.fetches[|c.fetches| - 1].cancelled
  }

  /** Only the newest run can be live, and it was started for the user and business of now. */
  ghost predicate RunsInv(c: Context) {
    && (forall k :: 0 <= k < |c.fetches| && !c.fetches[k].cancelled ==>
          && k == |c.fetches| - 1 && c.user.Some? && c.business.Some?
          && c.fetches[k].userId == c.user.value.id && c.fetches[k].business == c.business.value)
    && (c.loading <==> !c.started || LiveRun(c))
    && (!c.started ==> c.fetches == [] && c.socket.Off? && c.locations == [])
    && (forall k :: 0 <= k < |c.commits| ==> c.commits[k] < |c.fetches| && !c.fetches[c.commits[k]].pending)
    && (forall j, k :: 0 <= j < k < |c.commits| ==> c.commits[j] < c.commits[k])
  }

  ghost predicate SocketInv(c: Context) {
    !c.socket.Off? ==> c.socketLocation == c.active
  }

  ghost predicate ListInv(c: Context) {
    c.locations != [] ==> c.active.Some? && c.active.value in c.locations
  }

  ghost predicate Inv(c: Context) {
    RunsInv(c) && SocketInv(c)
  }

  lemma RenderKeepsInv(c: Context, user: Option<User>, business: Option<Id>)
    requires Inv(c)
    ensures Inv(OnRender(c, user, business))
  {
  }

  lemma FetchKeepsInv(c: Context, k: nat, fetched: seq<Id>)
    requires Inv(c) && k < |c.fetches| && c.fetches[k].pending
    ensures Inv(OnFetched(c, k, fetched)) && Inv(OnFetchFailed(c, k))
  {
  }

  lemma StepKeepsInv(c: Context, e: Event)
    requires Inv(c) && Enabled(c, e)
    ensures Inv(Step(c, e))
    ensures ListInv(c) && !e.Refetched? ==> ListInv(Step(c, e))
  {
    match e
    case Render(user, business) => RenderKeepsInv(c, user, business);
    case Fetched(k, fetched) => FetchKeepsInv(c, k, fetched);
    case FetchFailed(k) => FetchKeepsInv(c, k, []);
    case _ =>
  }

  lemma {:induction false} RunKeepsInv(c: Context, es: seq<Event>)
    requires Inv(c) && Run(c, es).Some?
    ensures Inv(Run(c, es).value)
    ensures ListInv(c) && (forall e :: e in es ==> !e.Refetched?) ==> ListInv(Run(c, es).value)
    decreases |es|
  {
    if es != [] {
      StepKeepsInv(c, es[0]);
      RunKeepsInv(Step(c, es[0]), es[1..]);
    }
  }

  ghost predicate Reachable(c: Context) {
    exists es :: Run(INITIAL, es) == Some(c)
  }

  lemma ReachableInv(c: Context)
    requires Reachable(c)
    ensures Inv(c)
  {
    var es :| Run(INITIAL, es) == Some(c);
    RunKeepsInv(INITIAL, es);
  }

  // ----- safety over whole runs -----

  /** An answered fetch commits exactly when it belongs to the newest, uncancelled run, and that run was
      started for the user and business shown now; commits come in the order the runs were started. */
  lemma SupersededNeverCommits(c: Context, k: nat, fetched: seq<Id>)
    requires Reachable(c) && k < |c.fetches| && c.fetches[k].pending
    ensures var d := Step(c, Fetched(k, fetched));
            && (|d.commits| > |c.commits| <==> k == |c.fetches| - 1 && LiveRun(c))
            && (|d.commits| == |c.commits| ==> d == c.(fetches := d.fetches))
            && (|d.commits| > |c.commits| ==>
                  && c.user.Some? && c.fetches[k].userId == c.user.value.id && c.business == Some(c.fetches[k].business)
                  && forall j :: 0 <= j < |c.commits| ==> c.commits[j] < k)
  {
    ReachableInv(c);
    FetchKeepsInv(c, k, fetched);
  }

  /** What a run commits: null exactly for an empty list, otherwise a location of the list, by the
      precedence of stored preference, own location, first location. */
  lemma ChoicePrecedence(stored: Option<Id>, own: Option<Id>, fetched: seq<Id>)
    ensures var r := Choose(stored, own, fetched);
            && (r.None? <==> fetched == [])
            && (r.Some? ==> r.value in fetched)
            && (stored.Some? && stored.value in fetched ==> r == stored)
            && (!(stored.Some? && stored.value in fetched) && own.Some? && own.value in fetched ==> r == own)
            && (!(stored.Some? && stored.value in fetched) && !(own.Some? && own.value in fetched) && fetched != [] ==>
                r == Some(fetched[0]))
  {
  }

  /** Whenever the socket is up or coming up, the location its next handshake sends is the active one. */
  lemma SocketSendsActiveLocation(c: Context)
    requires Reachable(c) && !c.socket.Off?
    ensures c.socketLocation == c.active
    ensures c.socket.Connecting? ==> Step(c, Handshake).socket == On(c.active)
    ensures c.socket.On? ==> Step(Step(c, ConnectionLost), Handshake).socket == On(c.active)
  {
    ReachableInv(c);
  }

  /** Without refetches a non-empty list always holds the active location; one refetch keeps that
      exactly when its list holds it. */
  lemma ActiveIsListed(es: seq<Event>)
    requires Run(INITIAL, es).Some? && forall e :: e in es ==> !e.Refetched?
    ensures ListInv(Run(INITIAL, es).value)
    ensures var c := Run(INITIAL, es).value;
            forall fetched :: fetched != [] && c.started ==>
              (ListInv(Step(c, Refetched(fetched))) <==> c.active.Some? && c.active.value in fetched)
  {
    RunKeepsInv(INITIAL, es);
  }

  /** The spinner shows exactly before the first effect and while the newest run waits for its fetch. */
  lemma LoadingExactly(c: Context)
    requires Reachable(c)
    ensures c.loading <==> !c.started || LiveRun(c)
  {
    ReachableInv(c);
  }

  /** A switch is remembered: until the next switch, whatever else happens, a run for that business whose
      list still has the location commits it again. */
  lemma SwitchIsRemembered(c: Context, id: Id, es: seq<Event>, k: nat, fetched: seq<Id>)
    requires Reachable(c) && id in c.locations && c.business.Some? && c.active != Some(id)
    requires Run(Step(c, SwitchLocation(id)), es).Some? && forall e :: e in es ==> !e.SwitchLocation?
    requires var d := Run(Step(c, SwitchLocation(id)), es).value;
             k < |d.fetches| && d.fetches[k].pending && !d.fetches[k].cancelled
                 && d.fetches[k].business == c.business.value
    requires id in fetched
    ensures Step(Run(Step(c, SwitchLocation(id)), es).value, Fetched(k, fetched)).active == Some(id)
  {
    StoredStays(Step(c, SwitchLocation(id)), es);
  }

  lemma {:induction false} StoredStays(c: Context, es: seq<Event>)
    requires Run(c, es).Some? && forall e :: e in es ==> !e.SwitchLocation?
    ensures Run(c, es).value.stored == c.stored
    decreases |es|
  {
    if es != [] {
      StoredStays(Step(c, es[0]), es[1..]);
    }
  }

  // ----- the live connection -----

  /** The server joins a live connection to the room of the location its handshake presented. */
  predicate InRoom(c: Context) {
    c.socket.On? ==> c.socket.presented == c.active
  }

  /** The steps that leave the server in another room: on a live connection, where connect() does nothing, a
      fetch that commits a location other than the active one, and a render that takes a signed-in user out
      of a business to an own location other than the active one. */
  predicate LeavesRoom(c: Context, e: Event) {
    c.socket.On? &&
    match e
    case Fetched(k, fetched) =>
      k < |c.fetches| && !c.fetches[k].cancelled && Choose(Lookup(c.stored, c.fetches[k].business), c.fetches[k].own,
          fetched) != c.active
    case Render(user, business) =>
      user.Some? && business.None? && !SameDependencies(c, user, business) && user.value.restaurantId != c.active
    case _ => false
  }

  /** The steps that end such a state: the connection drops or is closed or restarted, or the active location
      becomes the presented one. */
  predicate Rejoins(c: Context, e: Event) {
    c.socket.On? &&
    match e
    case ConnectionLost => true
    case SwitchLocation(id) => c.business.Some? && c.active != Some(id)
    case Fetched(k, fetched) =>
      k < |c.fetches| && !c.fetches[k].cancelled
      && Choose(Lookup(c.stored, c.fetches[k].business), c.fetches[k].own, fetched) == c.socket.presented
    case Render(user, business) =>
      !SameDependencies(c, user, business) && (user.None?
          || (business.None? && user.value.restaurantId == c.socket.presented))
    case _ => false
  }

  /** The room is kept, and found again, exactly outside those steps and in these. */
  lemma RoomExactly(c: Context, e: Event)
    requires Reachable(c) && Enabled(c, e)
    ensures InRoom(c) ==> (InRoom(Step(c, e)) <==> !LeavesRoom(c, e))
    ensures !InRoom(c) ==> (InRoom(Step(c, e)) <==> Rejoins(c, e))
  {
    ReachableInv(c);
    if e.Render? && c.socket.On? {
      RenderRoom(c, e.user, e.business);
    }
  }

  lemma RenderRoom(c: Context, user: Option<User>, business: Option<Id>)
    requires RunsInv(c) && c.socket.On?
    ensures var d := OnRender(c, user, business);
            && d.socket == (if user.None? && !SameDependencies(c, user, business) then Off else c.socket)
            && d.active == (if SameDependencies(c, user, business) || (user.Some? && business.Some?) then c.active
                            else if user.None? then None else user.value.restaurantId)
  {
  }

  lemma ReachStep(c: Context, e: Event)
    requires Reachable(c) && Enabled(c, e)
    ensures Reachable(Step(c, e))
  {
    var es :| Run(INITIAL, es) == Some(c);
    RunOneMore(INITIAL, es, e);
  }

  lemma {:induction false} RunOneMore(c: Context, es: seq<Event>, e: Event)
    requires Run(c, es).Some? && Enabled(Run(c, es).value, e)
    ensures Run(c, es + [e]) == Some(Step(Run(c, es).value, e))
    decreases |es|
  {
    if es == [] {
      assert es + [e] == [e] && [e][1..] == [];
      assert Run(Step(c, e), []) == Some(Step(c, e));
    } else {
      assert (es + [e])[0] == es[0] && (es + [e])[1..] == es[1..] + [e];
      RunOneMore(Step(c, es[0]), es[1..], e);
    }
  }

  /** The room at the end of a run, told from its steps alone. */
  function RoomAfter(c: Context, es: seq<Event>, inRoom: bool): bool
    decreases |es|
  {
    if es == [] || !Enabled(c, es[0]) then inRoom
    else RoomAfter(Step(c, es[0]), es[1..], if inRoom then !LeavesRoom(c, es[0]) else Rejoins(c, es[0]))
  }

  /** Over whole runs: the server is in the active location's room at the end if and only if the last step
      that left a room was followed by one that rejoined. */
  lemma {:induction false} RoomOverRuns(c: Context, es: seq<Event>)
    requires Reachable(c) && Run(c, es).Some?
    ensures InRoom(Run(c, es).value) == RoomAfter(c, es, InRoom(c))
    decreases |es|
  {
    if es != [] {
      RoomExactly(c, es[0]);
      ReachStep(c, es[0]);
      RoomOverRuns(Step(c, es[0]), es[1..]);
    }
  }

  predicate NeverLeaves(c: Context, es: seq<Event>)
    decreases |es|
  {
    es != [] && Enabled(c, es[0]) ==> !LeavesRoom(c, es[0]) && NeverLeaves(Step(c, es[0]), es[1..])
  }

  /** Every state of a run is in the room. */
  ghost predicate AlwaysInRoom(c: Context, es: seq<Event>)
    decreases |es|
  {
    InRoom(c) && (es != [] && Enabled(c, es[0]) ==> AlwaysInRoom(Step(c, es[0]), es[1..]))
  }

  /** A whole run stays in the room if and only if none of its steps leaves it. */
  lemma {:induction false} RunStaysInRoomExactly(c: Context, es: seq<Event>)
    requires Reachable(c) && InRoom(c) && Run(c, es).Some?
    ensures AlwaysInRoom(c, es) <==> NeverLeaves(c, es)
    decreases |es|
  {
    if es != [] {
      RoomExactly(c, es[0]);
      ReachStep(c, es[0]);
      if InRoom(Step(c, es[0])) {
        RunStaysInRoomExactly(Step(c, es[0]), es[1..]);
      }
    }
  }

  /** A switch always handshakes afresh, with the location switched to. */
  lemma SwitchRejoins(c: Context, id: Id)
    requires id in c.locations && c.business.Some? && c.active != Some(id)
    ensures var d := Step(c, SwitchLocation(id));
            d.socket.Connecting? && Step(d, Handshake).socket == On(Some(id)) && Step(d, Handshake).active == Some(id)
  {
  }

  /** An agency member who signs in and then enters a business stays in no room although a location is
      active, until the connection next drops. */
  lemma EnteringBusinessCanStayOutOfRoom()
    ensures exists c :: Reachable(c) && c.socket.On? && c.active.Some? && c.socket.presented.None? && !c.loading
  {
    var u := Some(User(1, None, false));
    StartReachable();
    var c := Reach(INITIAL, Render(u, None));
    c := Reach(c, Handshake);
    c := Reach(c, Render(u, Some(7)));
    assert c.fetches == [Fetch(1, None, 7, false, true)];
    c := Reach(c, Fetched(0, [70]));
    assert c.active == Some(70);
  }

  /** A user who leaves the business stays in its location's room, with no active location. */
  lemma LeavingBusinessCanStayInRoom()
    ensures exists c :: Reachable(c) && c.socket.On? && c.active.None? && c.socket.presented.Some? && !c.loading
  {
    var u := Some(User(1, None, false));
    StartReachable();
    var c := Reach(INITIAL, Render(u, Some(7)));
    c := Reach(c, Fetched(0, [70]));
    c := Reach(c, Handshake);
    c := Reach(c, Render(u, None));
    assert c.socket == On(Some(70));
  }

  lemma StartReachable()
    ensures Reachable(INITIAL)
  {
    assert Run(INITIAL, []) == Some(INITIAL);
  }

  lemma Reach(c: Context, e: Event) returns (d: Context)
    requires Reachable(c) && Enabled(c, e)
    ensures d == Step(c, e) && Reachable(d)
  {
    ReachStep(c, e);
    d := Step(c, e);
  }

  // ----- what is shown -----

  /** A commit shows the answered list, makes the stored location active if it is in the list, else the run's own,
      else the first, else none, and gives the same to the socket. */
  lemma CommitShows(c: Context, k: nat, fetched: seq<Id>)
    requires Reachable(c) && k < |c.fetches| && c.fetches[k].pending && !c.fetches[k].cancelled
    ensures var d, run := Step(c, Fetched(k, fetched)), c.fetches[k];
            && d.locations == fetched && d.socketLocation == d.active && !d.loading && d.stored == c.stored
            && (if run.business in c.stored && c.stored[run.business] in fetched
                then d.active == Some(c.stored[run.business])
                else if run.own.Some? && run.own.value in fetched then d.active == run.own
                else if fetched != [] then d.active == Some(fetched[0])
                else d.active.None?)
  {
    ReachableInv(c);
  }

  /** A run is started for the user, own location and business of its render, and shows nothing yet. */
  lemma RenderStartsRun(c: Context, user: Option<User>, business: Option<Id>)
    requires Reachable(c) && user.Some? && business.Some? && !(c.started && SameDependencies(c, user, business))
    ensures var d := Step(c, Render(user, business));
            && |d.fetches| == |c.fetches| + 1
            && d.fetches[|c.fetches|] == Fetch(user.value.id, user.value.restaurantId, business.value, false, true)
            && d.loading && d.locations == c.locations && d.active == c.active && d.socket == c.socket
  {
  }

  /** Signing out, and being in no business, show no list at once: no location, or the user's own. */
  lemma RenderWithoutBusiness(c: Context, user: Option<User>, business: Option<Id>)
    requires Reachable(c) && (user.None? || business.None?) && !(c.started && SameDependencies(c, user, business))
    ensures var d := Step(c, Render(user, business));
            && d.locations == [] && !d.loading && |d.fetches| == |c.fetches|
            && d.active == (if user.None? then None else user.value.restaurantId)
            && (if user.None? then d.socket.Off? else !d.socket.Off? && d.socketLocation == d.active)
  {
  }

  /** What the effect looks at of a user. */
  function Watched(user: Option<User>): Option<(Id, bool)> {
    match user
    case None => None
    case Some(u) => Some((u.id, u.mustChangePassword))
  }

  /** The effect runs again exactly when the business, the user's id or their pending password change differs: then
      every earlier run is cancelled; otherwise the render changes nothing that is shown. */
  lemma RerunsExactly(c: Context, user: Option<User>, business: Option<Id>)
    requires Reachable(c) && c.started
    ensures var d := Step(c, Render(user, business));
            && d.user == user && d.business == business && |d.fetches| >= |c.fetches|
            && (c.business != business || Watched(c.user) != Watched(user) ==>
                  (forall k :: 0 <= k < |c.fetches| ==> d.fetches[k].cancelled)
                  && (d.loading <==> user.Some? && business.Some?))
            && (c.business == business && Watched(c.user) == Watched(user) ==>
                  d == c.(user := user, business := business))
  {
  }

  /** Everything else leaves the list, and everything but a switch the choice, alone. */
  lemma OthersKeepScreen(c: Context, e: Event)
    requires Reachable(c) && Enabled(c, e)
    requires e.FetchFailed? || e.Handshake? || e.ConnectionLost? || e.Refetched? || e.SwitchLocation?
             || (e.Fetched? && c.fetches[e.k].cancelled)
             || (e.Render? && c.started && SameDependencies(c, e.user, e.business))
    ensures var d := Step(c, e);
            && (!e.Refetched? ==> d.locations == c.locations) && (e.Refetched? ==> d.locations == e.locations)
            && (!e.SwitchLocation? ==>
                d.active == c.active && d.stored == c.stored && d.socketLocation == c.socketLocation)
            && |d.fetches| == |c.fetches|
  {
  }

  /** A switch does nothing without a business or to the active location; otherwise it is stored for the business. */
  lemma SwitchExactly(c: Context, id: Id)
    requires Reachable(c) && id in c.locations
    ensures var d := Step(c, SwitchLocation(id));
            if c.business.None? || c.active == Some(id) then d == c
            else d.active == Some(id) && d.stored == c.stored[c.business.value := id] && d.socketLocation == Some(id)
                 && d.loading == c.loading && d.fetches == c.fetches
  {
  }

  /** The list on the screen, told from the events: the last one committed or refetched, unless a render without a
      user or a business emptied it since. */
  function ListAfter(c: Context, es: seq<Event>, shown: seq<Id>): seq<Id>
    decreases |es|
  {
    if es == [] || !Enabled(c, es[0]) then shown
    else
      ListAfter(Step(c, es[0]), es[1..],
                match es[0]
                case Fetched(k, fetched) => if !c.fetches[k].cancelled then fetched else shown
                case Refetched(fetched) => fetched
                case Render(user, business) =>
                  if (user.None? || business.None?) && !(c.started && SameDependencies(c, user, business)) then []
                      else shown
                case _ => shown)
  }

  lemma {:induction false} ListOverRuns(c: Context, es: seq<Event>)
    requires Reachable(c) && Run(c, es).Some?
    ensures Run(c, es).value.locations == ListAfter(c, es, c.locations)
    decreases |es|
  {
    if es != [] {
      ReachStep(c, es[0]);
      StepShowsList(c, es[0]);
      ListOverRuns(Step(c, es[0]), es[1..]);
    }
  }

  lemma StepShowsList(c: Context, e: Event)
    requires Reachable(c) && Enabled(c, e)
    ensures Step(c, e).locations ==
              match e
              case Fetched(k, fetched) => if !c.fetches[k].cancelled then fetched else c.locations
              case Refetched(fetched) => fetched
              case Render(user, business) =>
                if (user.None? || business.None?) && !(c.started && SameDependencies(c, user, business)) then []
                else c.locations
              case _ => c.locations
  {
  }
}
