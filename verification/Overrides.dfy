/**
 Per-location option overrides (apps/admin/src/components/ModifierGroupsEditor.tsx): every edit rebuilds
 the whole list that the PUT replaces, which packages/validation/src/override.ts then checks.
 */
module Overrides {
  import opened Prelude

  /** An absent field is None, as an undefined field is left out of the JSON body. Prices in cents. */
  datatype Override = Override(optionId: string, isActive: Option<bool>, price: Option<int>)

  datatype Edit = SavePrice(optionId: string, price: int) | Toggle(optionId: string, canonicalActive: bool)

  /** existing.filter((o) => o.optionId !== optionId) */
  function Others(os: seq<Override>, id: string): seq<Override> {
    if os == [] then []
    else if os[0].optionId != id then [os[0]] + Others(os[1..], id)
    else Others(os[1..], id)
  }

  /** existing.find((o) => o.optionId === optionId): the first match. */
  function FindFirst(os: seq<Override>, id: string): Option<Override> {
    if os == [] then None
    else if os[0].optionId == id then Some(os[0])
    else FindFirst(os[1..], id)
  }

  /** new Map(list.map((o) => [o.optionId, o])): the last entry of an id wins. */
  function Index(os: seq<Override>): map<string, Override> {
    if os == [] then map[]
    else Index(os[..|os| - 1])[os[|os| - 1].optionId := os[|os| - 1]]
  }

  function ActiveOf(o: Option<Override>): Option<bool> {
    if o.Some? then o.value.isActive else None
  }

  function PriceOf(o: Option<Override>): Option<int> {
    if o.Some? then o.value.price else None
  }

  function IsAvailable(o: Option<Override>, canonicalActive: bool): bool {
    if ActiveOf(o).Some? then ActiveOf(o).value else canonicalActive
  }

  /** saveOptionPriceOverride and toggleOptionAvailabilityOverride. */
  function Apply(os: seq<Override>, e: Edit): seq<Override> {
    var current := FindFirst(os, e.optionId);
    match e
    case SavePrice(id, price) => Others(os, id) + [Override(id, ActiveOf(current), Some(price))]
    case Toggle(id, canonicalActive) =>
      Others(os, id) + [Override(id, Some(!IsAvailable(current, canonicalActive)), PriceOf(current))]
  }

  function ApplyAll(os: seq<Override>, es: seq<Edit>): seq<Override> {
    if es == [] then os else Apply(ApplyAll(os, es[..|es| - 1]), es[|es| - 1])
  }

  ghost predicate DistinctIds(os: seq<Override>) {
    forall i, j :: 0 <= i < j < |os| ==> os[i].optionId != os[j].optionId
  }

  // ----- one edit -----

  lemma {:induction false} OthersMembers(os: seq<Override>, id: string)
    ensures forall o :: o in Others(os, id) <==> o in os && o.optionId != id
  {
    if os != [] {
      OthersMembers(os[1..], id);
      assert forall o :: o in os <==> o == os[0] || o in os[1..];
    }
  }

  lemma {:induction false} OthersFind(os: seq<Override>, id: string, k: string)
    ensures FindFirst(Others(os, id), k) == if k == id then None else FindFirst(os, k)
  {
    if os != [] {
      OthersFind(os[1..], id, k);
      if os[0].optionId != id {
        assert ([os[0]] + Others(os[1..], id))[1..] == Others(os[1..], id);
      }
    }
  }

  lemma {:induction false} OthersDistinct(os: seq<Override>, id: string)
    requires DistinctIds(os)
    ensures DistinctIds(Others(os, id))
  {
    if os != [] {
      OthersDistinct(os[1..], id);
      OthersMembers(os[1..], id);
      var rest := Others(os[1..], id);
      forall j | 0 <= j < |rest| ensures rest[j].optionId != os[0].optionId {
        assert rest[j] in os[1..];
      }
    }
  }

  lemma OthersFacts(os: seq<Override>, id: string, k: string)
    ensures forall o :: o in Others(os, id) <==> o in os && o.optionId != id
    ensures FindFirst(Others(os, id), k) == if k == id then None else FindFirst(os, k)
    ensures DistinctIds(os) ==> DistinctIds(Others(os, id))
  {
    OthersMembers(os, id);
    OthersFind(os, id, k);
    if DistinctIds(os) {
      OthersDistinct(os, id);
    }
  }

  lemma {:induction false} FindAppend(os: seq<Override>, o: Override, k: string)
    ensures FindFirst(os + [o], k)
            == if FindFirst(os, k).Some? then FindFirst(os, k) else if o.optionId == k then Some(o) else None
  {
    if os == [] {
      assert os + [o] == [o] && [o][1..] == [];
    } else {
      assert (os + [o])[1..] == os[1..] + [o];
      FindAppend(os[1..], o, k);
    }
  }

  lemma {:induction false} FindNone(os: seq<Override>, k: string)
    ensures FindFirst(os, k).None? <==> forall o :: o in os ==> o.optionId != k
    ensures FindFirst(os, k).Some? ==> FindFirst(os, k).value in os && FindFirst(os, k).value.optionId == k
  {
    if os != [] {
      FindNone(os[1..], k);
    }
  }

  /** What an edit makes of each option: its own entry changes, every other option's stays, whatever the
      list held before. */
  lemma EditedLookup(os: seq<Override>, e: Edit, k: string)
    ensures var before, after := FindFirst(os, k), FindFirst(Apply(os, e), k);
            && (k != e.optionId ==> after == before)
            && (k == e.optionId && e.SavePrice? ==> after == Some(Override(k, ActiveOf(before), Some(e.price))))
            && (k == e.optionId && e.Toggle? ==>
                  after == Some(Override(k, Some(!IsAvailable(before, e.canonicalActive)), PriceOf(before))))
  {
    OthersFacts(os, e.optionId, k);
    FindAppend(Others(os, e.optionId), Apply(os, e)[|Apply(os, e)| - 1], k);
  }

  lemma EditKeepsDistinct(os: seq<Override>, e: Edit)
    requires DistinctIds(os)
    ensures DistinctIds(Apply(os, e))
  {
    OthersFacts(os, e.optionId, e.optionId);
    assert forall o :: o in Others(os, e.optionId) ==> o.optionId != e.optionId;
  }

  // ----- any sequence of edits -----

  lemma {:induction false} EditsKeepDistinct(os: seq<Override>, es: seq<Edit>)
    requires DistinctIds(os)
    ensures DistinctIds(ApplyAll(os, es))
    decreases |es|
  {
    if es != [] {
      EditsKeepDistinct(os, es[..|es| - 1]);
      EditKeepsDistinct(ApplyAll(os, es[..|es| - 1]), es[|es| - 1]);
    }
  }

  /** On distinct ids the last-wins Map and the first-wins find are the same table. */
  lemma {:induction false} IndexAgreesWithFind(os: seq<Override>, k: string)
    requires DistinctIds(os)
    ensures k in Index(os) <==> FindFirst(os, k).Some?
    ensures k in Index(os) ==> FindFirst(os, k) == Some(Index(os)[k])
    decreases |os|
  {
    if os != [] {
      var init, last := os[..|os| - 1], os[|os| - 1];
      IndexAgreesWithFind(init, k);
      FindAppend(init, last, k);
      assert os == init + [last];
      if k == last.optionId {
        FindNone(init, k);
        assert forall o :: o in init ==> o.optionId != last.optionId;
      }
    }
  }

  /** The price and the number of toggles an edit sequence asks for one option. */
  function LastPrice(es: seq<Edit>, k: string): Option<int> {
    if es == [] then None
    else
      var e := es[|es| - 1];
      if e.SavePrice? && e.optionId == k then Some(e.price) else LastPrice(es[..|es| - 1], k)
  }

  function Toggles(es: seq<Edit>, k: string): nat {
    if es == [] then 0
    else
      var e := es[|es| - 1];
      Toggles(es[..|es| - 1], k) + if e.Toggle? && e.optionId == k then 1 else 0
  }

  ghost predicate CanonicalIs(es: seq<Edit>, k: string, canonicalActive: bool) {
    forall i :: 0 <= i < |es| && es[i].Toggle? && es[i].optionId == k ==> es[i].canonicalActive == canonicalActive
  }

  /** After any edits: the last saved price, else the one before; the availability flipped once per
      toggle. The interleaving of price and availability edits, and edits of other options, do not
      matter. */
  lemma {:induction false} EditsMean(os: seq<Override>, es: seq<Edit>, k: string, canonicalActive: bool)
    requires CanonicalIs(es, k, canonicalActive)
    ensures var before, after := FindFirst(os, k), FindFirst(ApplyAll(os, es), k);
            && PriceOf(after) == (if LastPrice(es, k).Some? then LastPrice(es, k) else PriceOf(before))
            && (IsAvailable(after, canonicalActive) <==>
                (IsAvailable(before, canonicalActive) <==> Toggles(es, k) % 2 == 0))
    decreases |es|
  {
    if es != [] {
      var init, e := es[..|es| - 1], es[|es| - 1];
      assert CanonicalIs(init, k, canonicalActive) by {
        assert forall i :: 0 <= i < |init| ==> init[i] == es[i];
      }
      EditsMean(os, init, k, canonicalActive);
      EditedLookup(ApplyAll(os, init), e, k);
    }
  }

  /** Two edits of which one is a price and one a toggle, or that concern different options, commute as
      tables. */
  lemma EditsCommute(os: seq<Override>, e: Edit, f: Edit, k: string)
    requires e.optionId != f.optionId || e.SavePrice? != f.SavePrice?
    ensures FindFirst(Apply(Apply(os, e), f), k) == FindFirst(Apply(Apply(os, f), e), k)
  {
    EditedLookup(os, e, k);
    EditedLookup(os, f, k);
    EditedLookup(Apply(os, e), f, k);
    EditedLookup(Apply(os, f), e, k);
  }

  /** Toggling twice restores what the customer sees, and keeps the price; the flag itself stays set. */
  lemma ToggleTwice(os: seq<Override>, id: string, canonicalActive: bool)
    ensures var t := Toggle(id, canonicalActive);
            var before, after := FindFirst(os, id), FindFirst(Apply(Apply(os, t), t), id);
            && IsAvailable(after, canonicalActive) == IsAvailable(before, canonicalActive)
            && PriceOf(after) == PriceOf(before)
            && ActiveOf(after) == Some(IsAvailable(before, canonicalActive))
  {
    var t := Toggle(id, canonicalActive);
    EditedLookup(os, t, id);
    EditedLookup(Apply(os, t), t, id);
  }

  // ----- the payload -----

  /** modifierOptionOverrideSchema */
  predicate ValidOverride(o: Override) {
    o.optionId != "" && (o.price.Some? ==> o.price.value >= 0) && (o.isActive.Some? || o.price.Some?)
  }

  /** modifierGroupOverrideSchema */
  predicate ValidGroup(groupActive: Option<bool>, os: seq<Override>) {
    (forall i :: 0 <= i < |os| ==> ValidOverride(os[i])) && (groupActive.Some? || |os| > 0)
  }

  predicate AcceptableEdit(e: Edit) {
    e.optionId != "" && (e.SavePrice? ==> e.price >= 0)
  }

  /** A payload built by an edit of valid overrides passes the schema exactly when the edit names an
      option and its price, if it has one, is not negative. */
  lemma PayloadValidExactly(groupActive: Option<bool>, os: seq<Override>, e: Edit)
    requires forall i :: 0 <= i < |os| ==> ValidOverride(os[i])
    ensures ValidGroup(groupActive, Apply(os, e)) <==> AcceptableEdit(e)
  {
    OthersFacts(os, e.optionId, e.optionId);
    FindNone(os, e.optionId);
    var others, last := Others(os, e.optionId), Apply(os, e)[|Apply(os, e)| - 1];
    assert Apply(os, e) == others + [last];
    forall i | 0 <= i < |others| ensures ValidOverride(others[i]) {
      assert others[i] in os;
    }
    assert ValidOverride(last) <==> AcceptableEdit(e);
  }

  lemma {:induction false} EditsStayValid(groupActive: Option<bool>, os: seq<Override>, es: seq<Edit>)
    requires forall i :: 0 <= i < |os| ==> ValidOverride(os[i])
    requires forall i :: 0 <= i < |es| ==> AcceptableEdit(es[i])
    ensures forall i :: 0 <= i < |ApplyAll(os, es)| ==> ValidOverride(ApplyAll(os, es)[i])
    ensures es != [] ==> ValidGroup(groupActive, ApplyAll(os, es))
    decreases |es|
  {
    if es != [] {
      var init := es[..|es| - 1];
      EditsStayValid(groupActive, os, init);
      PayloadValidExactly(groupActive, ApplyAll(os, init), es[|es| - 1]);
    }
  }
}
