/**
 The debounced search of apps/admin/src/components/AddressAutocomplete.tsx as steps: keystrokes,
 a timer that fires or is cancelled, and replies in any order.
 */
module SearchProtocol {
  import opened Prelude
  import opened Text

  datatype Reply = Found(suggestions: seq<string>) | Failed(message: string)

  /** `asked[k]` is the query of request k + 1; `timer` the request whose debounce is running;
      `inFlight` those awaiting a reply; `settling` those whose callbacks ran but whose `finally` has
      not; `commits` is history: the requests whose replies reached the screen, oldest first. */
  datatype Box = Box(query: string, suggestions: seq<string>, open: bool, loading: bool, error: Option<string>,
                     requestId: nat, asked: seq<string>, timer: Option<nat>, inFlight: set<nat>, settling: set<nat>,
                     commits: seq<nat>)

  datatype Event =
    | SetQuery(text: string)
    | SetOpen(open: bool)
    | StartSelect
    | FinishSelect(address: string)
    | FailSelect(message: string)
    | FireTimer
    | Deliver(id: nat, reply: Reply)
    | Finally(id: nat)

  const MIN_QUERY: nat := 3

  const INITIAL: Box := Box("", [], false, false, None, 0, [], None, {}, {}, [])

  /** The effect of a changed query: the old timer is cleared; a long enough query takes the next
      request id and starts a timer, a short one clears the list and leaves the id alone. */
  function QueryEffect(b: Box, text: string): Box {
    if text == b.query then b
    else
      var trimmed := Trim(text);
      if |trimmed| < MIN_QUERY then
        b.(query := text, timer := None, suggestions := [], loading := false)
      else
        b.(query := text, requestId := b.requestId + 1, asked := b.asked + [trimmed], timer := Some(b.requestId + 1))
  }

  function Fire(b: Box): Box
    requires b.timer.Some?
  {
    b.(timer := None, loading := true, inFlight := b.inFlight + {b.timer.value})
  }

  /** `.then` or `.catch`: a superseded request changes nothing. */
  function Commit(b: Box, id: nat, reply: Reply): Box {
    var b := b.(inFlight := b.inFlight - {id}, settling := b.settling + {id});
    if id != b.requestId then b
    else
      match reply
      case Found(suggestions) => b.(suggestions := suggestions, error := None, open := true,
          commits := b.commits + [id])
      case Failed(message) => b.(suggestions := [], error := Some(message), open := true, commits := b.commits + [id])
  }

  function Settle(b: Box, id: nat): Box {
    b.(settling := b.settling - {id}, loading := b.loading && id != b.requestId)
  }

  function FinishSelection(b: Box, address: string): Box {
    QueryEffect(b.(suggestions := [], open := false), address)
  }

  predicate Enabled(b: Box, e: Event) {
    match e
    case FireTimer => b.timer.Some?
    case Deliver(id, _) => id in b.inFlight
    case Finally(id) => id in b.settling
    case _ => true
  }

  function Step(b: Box, e: Event): Box
    requires Enabled(b, e)
  {
    match e
    case SetQuery(text) => QueryEffect(b, text)
    case SetOpen(open) => b.(open := open)
    case StartSelect => b.(error := None)
    case FinishSelect(address) => FinishSelection(b, address)
    case FailSelect(message) => b.(error := Some(message))
    case FireTimer => Fire(b)
    case Deliver(id, reply) => Commit(b, id, reply)
    case Finally(id) => Settle(b, id)
  }

  function Run(b: Box, es: seq<Event>): Option<Box>
    decreases |es|
  {
    if es == [] then Some(b)
    else if Enabled(b, es[0]) then Run(Step(b, es[0]), es[1..])
    else None
  }

  // ----- the invariant -----

  /** The newest request still has a timer or a reply or a `finally` to come. */
  predicate NewestIsLive(b: Box) {
    b.timer == Some(b.requestId) || b.requestId in b.inFlight || b.requestId in b.settling
  }

  ghost predicate Inv(b: Box) {
    && |b.asked| == b.requestId
    && (forall k :: 0 <= k < |b.asked| ==> |b.asked[k]| >= MIN_QUERY)
    && (b.timer.Some? ==> b.timer.value == b.requestId >= 1 && b.requestId !in b.inFlight && b.requestId !in b.settling)
    && (forall id :: id in b.inFlight || id in b.settling ==> 1 <= id <= b.requestId)
    && b.inFlight !! b.settling
    && (|Trim(b.query)| >= MIN_QUERY ==> b.requestId >= 1 && b.asked[b.requestId - 1] == Trim(b.query))
    && (b.loading ==> NewestIsLive(b))
    && (forall k :: 0 <= k < |b.commits| ==>
        1 <= b.commits[k] <= b.requestId && b.commits[k] !in b.inFlight && b.timer != Some(b.commits[k]))
    && (forall j, k :: 0 <= j < k < |b.commits| ==> b.commits[j] < b.commits[k])
  }

  lemma EmptyTrims()
    ensures Trim("") == ""
  {
  }

  lemma QueryKeepsInv(b: Box, text: string)
    requires Inv(b)
    ensures Inv(QueryEffect(b, text))
  {
  }

  lemma FireKeepsInv(b: Box)
    requires Inv(b) && b.timer.Some?
    ensures Inv(Fire(b))
  {
  }

  lemma CommitKeepsInv(b: Box, id: nat, reply: Reply)
    requires Inv(b) && id in b.inFlight
    ensures Inv(Commit(b, id, reply))
  {
    var c := Commit(b, id, reply);
    if id == b.requestId {
      forall j | 0 <= j < |b.commits| ensures b.commits[j] < id {
        assert b.commits[j] !in b.inFlight;
      }
    }
  }

  lemma StepKeepsInv(b: Box, e: Event)
    requires Inv(b) && Enabled(b, e)
    ensures Inv(Step(b, e))
  {
    match e
    case SetQuery(text) => QueryKeepsInv(b, text);
    case FinishSelect(address) => QueryKeepsInv(b.(suggestions := [], open := false), address);
    case FireTimer => FireKeepsInv(b);
    case Deliver(id, reply) => CommitKeepsInv(b, id, reply);
    case _ =>
  }

  lemma {:induction false} RunKeepsInv(b: Box, es: seq<Event>)
    requires Inv(b) && Run(b, es).Some?
    ensures Inv(Run(b, es).value)
    decreases |es|
  {
    if es != [] {
      StepKeepsInv(b, es[0]);
      RunKeepsInv(Step(b, es[0]), es[1..]);
    }
  }

  ghost predicate Reachable(b: Box) {
    exists es :: Run(INITIAL, es) == Some(b)
  }

  lemma ReachableInv(b: Box)
    requires Reachable(b)
    ensures Inv(b)
  {
    EmptyTrims();
    var es :| Run(INITIAL, es) == Some(b);
    RunKeepsInv(INITIAL, es);
  }

  // ----- safety -----

  /** A reply reaches the screen exactly when no later request was made; the requests that did are
      strictly newer each time. */
  lemma OnlyNewestCommits(b: Box, id: nat, reply: Reply)
    requires Reachable(b) && id in b.inFlight
    ensures var c := Step(b, Deliver(id, reply));
            && (c.commits == b.commits + [id] <==> id == |b.asked|)
            && (id != |b.asked| ==>
                c.suggestions == b.suggestions && c.error == b.error && c.open == b.open && c.commits == b.commits)
            && forall j, k :: 0 <= j < k < |c.commits| ==> c.commits[j] < c.commits[k]
  {
    ReachableInv(b);
    StepKeepsInv(b, Deliver(id, reply));
    assert b.commits != b.commits + [id] by {
      assert |b.commits + [id]| == |b.commits| + 1;
    }
  }

  /** The spinner is never on without something to come that can turn it off. */
  lemma SpinnerIsLive(b: Box)
    requires Reachable(b) && b.loading
    ensures NewestIsLive(b)
  {
    ReachableInv(b);
  }

  /** Which query a committed reply answers: the one in the box, if and only if the box still holds
      enough characters. A query cut below three characters takes no new id, so the reply to the last
      long one still reaches the screen. */
  lemma CommitAnswersBoxExactlyWhenLong(b: Box, id: nat, reply: Reply)
    requires Reachable(b) && id in b.inFlight && id == b.requestId
    ensures id <= |b.asked| && id >= 1
    ensures Step(b, Deliver(id, reply)).commits == b.commits + [id]
    ensures b.asked[id - 1] == Trim(b.query) <==> |Trim(b.query)| >= MIN_QUERY
  {
    ReachableInv(b);
  }

  /** The other side happens: suggestions for a query can open under an emptied box. */
  lemma ClearedBoxCanShowResults()
    ensures exists b | Reachable(b) :: b.query == "" && 1 in b.inFlight
              && Step(b, Deliver(1, Found(["x"]))).open && Step(b, Deliver(1, Found(["x"]))).suggestions == ["x"]
  {
    EmptyTrims();
    assert TrimStart("abc") == "abc" && TrimEnd("abc") == "abc";
    var es := [SetQuery("abc"), FireTimer, SetQuery("")];
    var b1 := Step(INITIAL, es[0]);
    var b2 := Step(b1, FireTimer);
    var b3 := Step(b2, SetQuery(""));
    assert es[1..] == [FireTimer, SetQuery("")] && es[1..][1..] == [SetQuery("")] && es[1..][1..][1..] == [];
    assert Run(b3, []) == Some(b3);
    assert Run(b2, [SetQuery("")]) == Some(b3);
    assert Run(b1, es[1..]) == Some(b3);
    assert Run(INITIAL, es) == Some(b3);
  }

  // ----- liveness -----

  predicate IsProgress(e: Event) {
    e.FireTimer? || e.Deliver? || e.Finally?
  }

  function Measure(b: Box): nat {
    (if b.timer.Some? then 3 else 0) + 2 * |b.inFlight| + |b.settling|
  }

  lemma ProgressDecreases(b: Box, e: Event)
    requires Inv(b) && Enabled(b, e) && IsProgress(e)
    ensures Measure(Step(b, e)) < Measure(b)
  {
  }

  /** Once typing stops, the timer and the replies run out, and then the spinner is off. */
  lemma {:induction false} SpinnerEnds(b: Box, es: seq<Event>)
    requires Inv(b) && Run(b, es).Some? && (forall e :: e in es ==> IsProgress(e))
    ensures |es| <= Measure(b)
    ensures Measure(Run(b, es).value) == 0 ==> !Run(b, es).value.loading
    decreases |es|
  {
    if es != [] {
      StepKeepsInv(b, es[0]);
      ProgressDecreases(b, es[0]);
      SpinnerEnds(Step(b, es[0]), es[1..]);
    }
  }

  // ----- what reaches the screen -----

  /** The newest request's reply is shown: its suggestions without an error, or its error without suggestions. */
  lemma NewestReplyShows(b: Box, reply: Reply)
    requires Reachable(b) && b.requestId in b.inFlight
    ensures var c := Step(b, Deliver(b.requestId, reply));
            && c.open && c.query == b.query && c.loading == b.loading
            && (reply.Found? ==> c.suggestions == reply.suggestions && c.error.None?)
            && (reply.Failed? ==> c.suggestions == [] && c.error == Some(reply.message))
  {
    ReachableInv(b);
  }

  /** A long enough text asks for itself: its timer replaces any other; when it fires, the spinner comes on and the
      request is out, and once its reply and its finally are in, the spinner is off. */
  lemma LongQueryIsAsked(b: Box, text: string, reply: Reply)
    requires Reachable(b) && text != b.query && |Trim(text)| >= MIN_QUERY
    ensures var asked := Step(b, SetQuery(text));
            && asked.query == text && asked.asked == b.asked + [Trim(text)] && asked.timer == Some(|b.asked| + 1)
            && asked.suggestions == b.suggestions && asked.loading == b.loading && asked.inFlight == b.inFlight
            && var fired := Step(asked, FireTimer);
            && fired.loading && fired.timer.None? && |b.asked| + 1 in fired.inFlight
            && var answered := Step(fired, Deliver(|b.asked| + 1, reply));
            && answered.loading && |b.asked| + 1 !in answered.inFlight
            && !Step(answered, Finally(|b.asked| + 1)).loading
  {
    ReachableInv(b);
    QueryKeepsInv(b, text);
    FireKeepsInv(Step(b, SetQuery(text)));
  }

  /** A short text asks for nothing: no timer is left, the list and the spinner are cleared. */
  lemma ShortQueryClears(b: Box, text: string)
    requires Reachable(b) && text != b.query && |Trim(text)| < MIN_QUERY
    ensures var c := Step(b, SetQuery(text));
            c.query == text && c.timer.None? && c.suggestions == [] && !c.loading && c.asked == b.asked
                && c.open == b.open
  {
  }

  /** A superseded request's finally leaves the spinner alone, and so does every event of the list and the choice. */
  lemma OthersKeepSpinner(b: Box, e: Event)
    requires Reachable(b) && Enabled(b, e)
    requires e.SetOpen? || e.StartSelect? || e.FailSelect? || e.Deliver? || (e.Finally? && e.id != b.requestId)
    ensures Step(b, e).loading == b.loading && Step(b, e).query == b.query && Step(b, e).asked == b.asked
    ensures !e.Deliver? ==> Step(b, e).suggestions == b.suggestions
    ensures e.SetOpen? ==> Step(b, e).open == e.open && Step(b, e).error == b.error
    ensures e.StartSelect? ==> Step(b, e).error.None?
    ensures e.FailSelect? ==> Step(b, e).error == Some(e.message)
  {
  }

  /** A resolved choice closes the list, empties it and puts its address in the box. */
  lemma ChoiceFillsBox(b: Box, address: string)
    requires Reachable(b)
    ensures var c := Step(b, FinishSelect(address)); c.query == address && !c.open && c.suggestions == []
  {
  }
}
