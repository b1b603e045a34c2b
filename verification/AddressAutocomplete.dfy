/**
 apps/admin/src/components/AddressAutocomplete.tsx as a component object: refs and state overwritten
 by the effect and its callbacks.
 */
module AddressAutocomplete {
  import opened Prelude
  import opened Text
  import P = SearchProtocol

  class SearchBox {
    var query: string
    var suggestions: seq<string>
    var open: bool
    var loading: bool
    var error: Option<string>
    var requestIdRef: nat
    var timer: Option<nat>
    var asked: seq<string>
    var inFlight: set<nat>
    var settling: set<nat>
    ghost var commits: seq<nat>

    ghost function View(): P.Box
      reads this
    {
      P.Box(query, suggestions, open, loading, error, requestIdRef, asked, timer, inFlight, settling, commits)
    }

    constructor ()
      ensures View() == P.INITIAL
    {
      query, suggestions, open, loading, error := "", [], false, false, None;
      requestIdRef, timer, asked, inFlight, settling, commits := 0, None, [], {}, {}, [];
    }

    /** setQuery, the re-render, the old effect's cleanup and the new effect. */
    method SetQuery(text: string)
      modifies this
      ensures View() == P.Step(old(View()), P.SetQuery(text))
    {
      if text == query {
        return;
      }
      query := text;
      timer := None;
      var trimmed := Trim(query);
      if |trimmed| < P.MIN_QUERY {
        suggestions := [];
        loading := false;
        return;
      }
      requestIdRef := requestIdRef + 1;
      asked := asked + [trimmed];
      timer := Some(requestIdRef);
    }

    /** onFocus opens the list, a choice closes it. */
    method SetOpen(shown: bool)
      modifies this
      ensures View() == P.Step(old(View()), P.SetOpen(shown))
    {
      open := shown;
    }

    method StartSelect()
      modifies this
      ensures View() == P.Step(old(View()), P.StartSelect)
    {
      error := None;
    }

    method FailSelect(message: string)
      modifies this
      ensures View() == P.Step(old(View()), P.FailSelect(message))
    {
      error := Some(message);
    }

    method OnTimer()
      requires timer.Some?
      modifies this
      ensures View() == P.Step(old(View()), P.FireTimer)
    {
      loading := true;
      inFlight := inFlight + {timer.value};
      timer := None;
    }

    method OnFound(thisRequestId: nat, found: seq<string>)
      requires thisRequestId in inFlight
      modifies this
      ensures View() == P.Step(old(View()), P.Deliver(thisRequestId, P.Found(found)))
    {
      inFlight := inFlight - {thisRequestId};
      settling := settling + {thisRequestId};
      if requestIdRef != thisRequestId {
        return;
      }
      suggestions := found;
      error := None;
      open := true;
      commits := commits + [thisRequestId];
    }

    method OnFailed(thisRequestId: nat, message: string)
      requires thisRequestId in inFlight
      modifies this
      ensures View() == P.Step(old(View()), P.Deliver(thisRequestId, P.Failed(message)))
    {
      inFlight := inFlight - {thisRequestId};
      settling := settling + {thisRequestId};
      if requestIdRef != thisRequestId {
        return;
      }
      suggestions := [];
      error := Some(message);
      open := true;
      commits := commits + [thisRequestId];
    }

    method OnFinally(thisRequestId: nat)
      requires thisRequestId in settling
      modifies this
      ensures View() == P.Step(old(View()), P.Finally(thisRequestId))
    {
      settling := settling - {thisRequestId};
      if requestIdRef == thisRequestId {
        loading := false;
      }
    }

    /** selectSuggestion once the address is resolved: the batched state updates, then the effect of
        the changed query. */
    method FinishSelect(address: string)
      modifies this
      ensures View() == P.Step(old(View()), P.FinishSelect(address))
    {
      suggestions := [];
      open := false;
      SetQuery(address);
    }

    method Do(e: P.Event)
      requires P.Enabled(View(), e)
      modifies this
      ensures View() == P.Step(old(View()), e)
    {
      match e {
        case SetQuery(text) => SetQuery(text);
        case SetOpen(shown) => SetOpen(shown);
        case StartSelect => StartSelect();
        case FinishSelect(address) => FinishSelect(address);
        case FailSelect(message) => FailSelect(message);
        case FireTimer => OnTimer();
        case Deliver(id, reply) =>
          match reply {
            case Found(found) => OnFound(id, found);
            case Failed(message) => OnFailed(id, message);
          }
        case Finally(id) => OnFinally(id);
      }
    }
  }

  /** Plays any run on a new box. In its fields: the spinner is on only while the newest request has a timer, a
      reply or a finally to come, and off once none is left; committed ids strictly increase; and while
      the box holds a long enough text, the newest request asks for it. */
  method Play(es: seq<P.Event>) returns (box: SearchBox)
    requires P.Run(P.INITIAL, es).Some?
    ensures fresh(box) && P.Run(P.INITIAL, es) == Some(box.View())
    ensures box.loading ==>
        box.timer == Some(box.requestIdRef) || box.requestIdRef in box.inFlight || box.requestIdRef in box.settling
    ensures box.timer.None? && box.inFlight == {} && box.settling == {} ==> !box.loading
    ensures forall j, k :: 0 <= j < k < |box.commits| ==> box.commits[j] < box.commits[k] <= box.requestIdRef
    ensures |Trim(box.query)| >= P.MIN_QUERY ==>
        box.requestIdRef == |box.asked| >= 1 && box.asked[box.requestIdRef - 1] == Trim(box.query)
  {
    box := new SearchBox();
    var k := 0;
    while k < |es|
      invariant 0 <= k <= |es| && fresh(box)
      invariant P.Run(P.INITIAL, es) == P.Run(box.View(), es[k..])
    {
      assert es[k..][1..] == es[k + 1..];
      box.Do(es[k]);
      k := k + 1;
    }
    assert P.Reachable(box.View());
    P.ReachableInv(box.View());
  }
}
