/**
 Delivery fee tiers: the duplicate check of packages/validation/src/restaurant.ts, the editor of
 apps/admin/src/pages/DeliveryPage.tsx, and the fee rule both protect
 (apps/api/src/services/delivery.service.ts).
 */
module FeeTiers {
  import opened Prelude

  datatype Tier = Tier(maxDistanceKm: real, fee: real)

  ghost predicate Distinct(ts: seq<Tier>) {
    forall i, j :: 0 <= i < j < |ts| ==> ts[i].maxDistanceKm != ts[j].maxDistanceKm
  }

  function Distances(ts: seq<Tier>): set<real> {
    set t | t in ts :: t.maxDistanceKm
  }

  /** The schema's refinement: a Set filled while looping over the tiers. */
  method HasDistinctDistances(ts: seq<Tier>) returns (ok: bool)
    ensures ok <==> Distinct(ts)
  {
    var seen: set<real> := {};
    for i := 0 to |ts|
      invariant seen == Distances(ts[..i])
      invariant Distinct(ts[..i])
    {
      if ts[i].maxDistanceKm in seen {
        var t :| t in ts[..i] && t.maxDistanceKm == ts[i].maxDistanceKm;
        return false;
      }
      seen := seen + {ts[i].maxDistanceKm};
    }
    assert ts[..|ts|] == ts;
    return true;
  }

  lemma DistinctOneMore(ts: seq<Tier>)
    requires ts != []
    ensures Distinct(ts) <==> Distinct(ts[..|ts| - 1]) && ts[|ts| - 1].maxDistanceKm !in Distances(ts[..|ts| - 1])
  {
    var init, d := ts[..|ts| - 1], ts[|ts| - 1].maxDistanceKm;
    assert forall k :: 0 <= k < |init| ==> ts[k] == init[k] && init[k].maxDistanceKm in Distances(init);
    if d in Distances(init) {
      var t :| t in init && t.maxDistanceKm == d;
      var k :| 0 <= k < |init| && init[k] == t;
      assert ts[k].maxDistanceKm == ts[|ts| - 1].maxDistanceKm;
    }
  }

  lemma {:induction false} DistancesCount(ts: seq<Tier>)
    ensures |Distances(ts)| <= |ts| && (|Distances(ts)| == |ts| <==> Distinct(ts))
  {
    if ts != [] {
      var init, last := ts[..|ts| - 1], ts[|ts| - 1];
      DistancesCount(init);
      assert Distances(ts) == Distances(init) + {last.maxDistanceKm};
      DistinctOneMore(ts);
    }
  }

  /** The page's warning (`new Set(distances).size !== distances.length`) shows exactly for the lists the
      schema refuses. */
  lemma WarningAgreesWithSchema(ts: seq<Tier>)
    ensures |Distances(ts)| != |ts| <==> !Distinct(ts)
  {
    DistancesCount(ts);
  }

  // ----- the fee -----

  /** covering.reduce: the first of the tightest tiers that cover the distance, or the flat fee. */
  function Tightest(ts: seq<Tier>, km: real): Option<Tier> {
    if ts == [] then None
    else
      var best := Tightest(ts[..|ts| - 1], km);
      var t := ts[|ts| - 1];
      if km <= t.maxDistanceKm && (best.None? || t.maxDistanceKm < best.value.maxDistanceKm) then Some(t) else best
  }

  function ResolveFee(ts: seq<Tier>, km: real, flat: real): real {
    var t := Tightest(ts, km);
    if t.Some? then t.value.fee else flat
  }

  /** `t` covers km and no covering tier is tighter. */
  ghost predicate IsTightest(ts: seq<Tier>, km: real, t: Tier) {
    t in ts && km <= t.maxDistanceKm && forall u :: u in ts && km <= u.maxDistanceKm ==>
        t.maxDistanceKm <= u.maxDistanceKm
  }

  lemma {:induction false} TightestIsTightest(ts: seq<Tier>, km: real)
    ensures Tightest(ts, km).None? <==> forall t :: t in ts ==> km > t.maxDistanceKm
    ensures Tightest(ts, km).Some? ==> IsTightest(ts, km, Tightest(ts, km).value)
  {
    if ts != [] {
      var init, last := ts[..|ts| - 1], ts[|ts| - 1];
      TightestIsTightest(init, km);
      assert forall t :: t in ts <==> t in init || t == last;
      var best := Tightest(init, km);
      if best.Some? {
        assert IsTightest(init, km, best.value);
      }
    }
  }

  /** The fee is the flat one, whatever that is, exactly when no tier covers the distance; otherwise it is that of
      a tightest covering tier. */
  lemma FlatExactlyUncovered(ts: seq<Tier>, km: real)
    ensures (forall flat :: ResolveFee(ts, km, flat) == flat) <==> forall t :: t in ts ==> t.maxDistanceKm < km
    ensures forall flat :: (exists t :: t in ts && km <= t.maxDistanceKm) ==>
              exists t :: IsTightest(ts, km, t) && ResolveFee(ts, km, flat) == t.fee
  {
    TightestIsTightest(ts, km);
    if Tightest(ts, km).Some? {
      var t := Tightest(ts, km).value;
      assert ResolveFee(ts, km, t.fee + 1.0) == t.fee;
    }
  }

  ghost predicate Permutation(ts: seq<Tier>, us: seq<Tier>) {
    multiset(ts) == multiset(us)
  }

  lemma PermutationSameTiers(ts: seq<Tier>, us: seq<Tier>, t: Tier)
    requires Permutation(ts, us)
    ensures t in ts <==> t in us
  {
    assert t in ts <==> t in multiset(ts);
    assert t in us <==> t in multiset(us);
  }

  /** All tiers that are tightest for a distance carry one fee. */
  ghost predicate OneFee(ts: seq<Tier>, km: real) {
    forall t, u :: IsTightest(ts, km, t) && IsTightest(ts, km, u) ==> t.fee == u.fee
  }

  lemma OneFeeIsOrderFree(ts: seq<Tier>, us: seq<Tier>, km: real, flat: real)
    requires Permutation(ts, us) && OneFee(ts, km)
    ensures ResolveFee(us, km, flat) == ResolveFee(ts, km, flat)
  {
    TightestIsTightest(ts, km);
    TightestIsTightest(us, km);
    forall t ensures t in ts <==> t in us {
      PermutationSameTiers(ts, us, t);
    }
    if Tightest(us, km).Some? {
      var t := Tightest(us, km).value;
      assert t in ts;
      assert IsTightest(ts, km, t);
    }
  }

  /** A tightest tier put first is the one whose fee applies. */
  lemma {:induction false} FirstTightestWins(t: Tier, rest: seq<Tier>, km: real)
    requires km <= t.maxDistanceKm && forall u :: u in rest && km <= u.maxDistanceKm ==>
        t.maxDistanceKm <= u.maxDistanceKm
    ensures Tightest([t] + rest, km) == Some(t)
    decreases |rest|
  {
    var ts := [t] + rest;
    if rest == [] {
      assert ts[..0] == [] && ts == [t];
      assert Tightest([t][..0], km) == None;
    } else {
      assert ts[..|ts| - 1] == [t] + rest[..|rest| - 1];
      FirstTightestWins(t, rest[..|rest| - 1], km);
      assert rest[|rest| - 1] in rest;
    }
  }

  lemma MoveToFront(ts: seq<Tier>, t: Tier) returns (us: seq<Tier>)
    requires t in ts
    ensures Permutation(ts, us) && us != [] && us[0] == t && forall u :: u in us[1..] ==> u in ts
  {
    var k :| 0 <= k < |ts| && ts[k] == t;
    us := [t] + (ts[..k] + ts[k + 1..]);
    assert ts == ts[..k] + [t] + ts[k + 1..];
  }

  /** The fee for a distance does not depend on the storage order if and only if all its tightest tiers
      carry one fee. */
  lemma OrderFreeExactly(ts: seq<Tier>, km: real, flat: real)
    ensures (forall us | Permutation(ts, us) :: ResolveFee(us, km, flat) == ResolveFee(ts, km, flat)) <==>
        OneFee(ts, km)
  {
    forall us | Permutation(ts, us) && OneFee(ts, km) ensures ResolveFee(us, km, flat) == ResolveFee(ts, km, flat) {
      OneFeeIsOrderFree(ts, us, km, flat);
    }
    forall t, u | IsTightest(ts, km, t) && IsTightest(ts, km, u) && t.fee != u.fee
      ensures exists us | Permutation(ts, us) :: ResolveFee(us, km, flat) != ResolveFee(ts, km, flat)
    {
      var a := MoveToFront(ts, t);
      var b := MoveToFront(ts, u);
      assert a == [t] + a[1..] && b == [u] + b[1..];
      FirstTightestWins(t, a[1..], km);
      FirstTightestWins(u, b[1..], km);
      assert ResolveFee(a, km, flat) != ResolveFee(b, km, flat);
    }
  }

  /** On every list the schema accepts, every order gives every distance the same fee. */
  lemma AcceptedListsAreOrderFree(ts: seq<Tier>, us: seq<Tier>, km: real, flat: real)
    requires Distinct(ts) && Permutation(ts, us)
    ensures ResolveFee(us, km, flat) == ResolveFee(ts, km, flat)
  {
    forall t, u | IsTightest(ts, km, t) && IsTightest(ts, km, u) ensures t.fee == u.fee {
      var i :| 0 <= i < |ts| && ts[i] == t;
      var j :| 0 <= j < |ts| && ts[j] == u;
    }
    OneFeeIsOrderFree(ts, us, km, flat);
  }

  // ----- the editor -----

  function MaxDistance(ts: seq<Tier>): (m: real)
    requires ts != []
    ensures exists i :: 0 <= i < |ts| && ts[i].maxDistanceKm == m
    ensures forall i :: 0 <= i < |ts| ==> ts[i].maxDistanceKm <= m
  {
    var last := ts[|ts| - 1].maxDistanceKm;
    if |ts| == 1 then last
    else
      var m := MaxDistance(ts[..|ts| - 1]);
      if last > m then last else m
  }

  lemma FurtherTierIsDistinct(ts: seq<Tier>, t: Tier)
    requires forall i :: 0 <= i < |ts| ==> ts[i].maxDistanceKm < t.maxDistanceKm
    ensures Distinct(ts + [t]) <==> Distinct(ts)
  {
    assert forall i :: 0 <= i < |ts| ==> (ts + [t])[i] == ts[i];
  }

  class TierEditor {
    var tiers: seq<Tier>

    constructor (tiers: seq<Tier>)
      ensures this.tiers == tiers
    {
      this.tiers := tiers;
    }

    /** "Add tier": one kilometre past the furthest tier, or 1 for the first. */
    method AddTier()
      modifies this
      ensures |tiers| == |old(tiers)| + 1 && tiers[..|old(tiers)|] == old(tiers) && tiers[|old(tiers)|].fee == 0.0
      ensures tiers[|old(tiers)|].maxDistanceKm == if old(tiers) == [] then 1.0 else MaxDistance(old(tiers)) + 1.0
      ensures forall i :: 0 <= i < |old(tiers)| ==> tiers[i].maxDistanceKm < tiers[|old(tiers)|].maxDistanceKm
      ensures Distinct(tiers) <==> Distinct(old(tiers))
    {
      var nextDistance := 1.0;
      if |tiers| > 0 {
        nextDistance := MaxDistance(tiers) + 1.0;
      }
      FurtherTierIsDistinct(tiers, Tier(nextDistance, 0.0));
      tiers := tiers + [Tier(nextDistance, 0.0)];
    }

    /** A fee edit copies the array and assigns one element; it never makes distances collide. */
    method SetFee(i: nat, fee: real)
      requires i < |tiers|
      modifies this
      ensures tiers == old(tiers)[i := old(tiers)[i].(fee := fee)]
      ensures Distinct(tiers) <==> Distinct(old(tiers))
    {
      ghost var before := tiers;
      tiers := tiers[i := tiers[i].(fee := fee)];
      assert forall k :: 0 <= k < |tiers| ==> tiers[k].maxDistanceKm == before[k].maxDistanceKm;
    }

    /** A distance edit keeps distances distinct exactly when no other tier has the new one. */
    method SetDistance(i: nat, km: real)
      requires i < |tiers| && Distinct(tiers)
      modifies this
      ensures tiers == old(tiers)[i := old(tiers)[i].(maxDistanceKm := km)]
      ensures Distinct(tiers) <==> forall k :: 0 <= k < |tiers| && k != i ==> old(tiers)[k].maxDistanceKm != km
    {
      ghost var before := tiers;
      tiers := tiers[i := tiers[i].(maxDistanceKm := km)];
      assert tiers[i].maxDistanceKm == km && forall k :: 0 <= k < |tiers| && k != i ==> tiers[k] == before[k];
    }

    method RemoveTier(i: nat)
      requires i < |tiers|
      modifies this
      ensures tiers == old(tiers)[..i] + old(tiers)[i + 1..]
      ensures Distinct(old(tiers)) ==> Distinct(tiers)
    {
      tiers := tiers[..i] + tiers[i + 1..];
    }
  }
}
