/**
 Prices typed and shown in dollars but stored in cents: AgencyBusinessDetailPage.tsx opens an editor on
 cents / 100 and saves Math.round(dollars * 100), as ClientProvisioningWizard.tsx does. Each
 floating-point operation is any value within relative error 2^-53 of the exact one.
 */
module Money {
  import opened Prelude

  /** 2^-53 */
  const UNIT: real := 1.0 / 9_007_199_254_740_992.0

  /** The largest price the schema accepts, in cents. */
  const MAX_CENTS: nat := 10_000_000

  function Abs(x: real): real {
    if x < 0.0 then -x else x
  }

  /** `x` may be the double that an operation with exact result `exact` gives. */
  predicate Rounds(x: real, exact: real) {
    Abs(x - exact) <= UNIT * Abs(exact)
  }

  /** Math.round */
  function MathRound(x: real): int {
    (x + 0.5).Floor
  }

  /** An absent price shows as "", which saves as undefined. */
  datatype Draft = Empty | Dollars(amount: real)

  /** `openCommercialEditor`: some double for cents / 100. */
  ghost predicate Opens(cents: Option<nat>, draft: Draft) {
    match cents
    case None => draft.Empty?
    case Some(c) => draft.Dollars? && Rounds(draft.amount, c as real / 100.0)
  }

  /** `handleSaveCommercial`: Math.round of some double for dollars * 100. */
  ghost predicate Saves(draft: Draft, cents: Option<int>) {
    match draft
    case Empty => cents.None?
    case Dollars(amount) => cents.Some? && exists p :: Rounds(p, amount * 100.0) && cents.value == MathRound(p)
  }

  lemma RoundsNonnegative(x: real, exact: real)
    requires exact >= 0.0 && Rounds(x, exact)
    ensures exact - UNIT * exact <= x <= exact + UNIT * exact
  {
  }

  /** Two roundings move a whole number of cents by less than half a cent, up to 2^50 cents. */
  lemma TwoRoundings(c: nat, dollars: real, p: real)
    requires c < 1_125_899_906_842_624
    requires Rounds(dollars, c as real / 100.0) && Rounds(p, dollars * 100.0)
    ensures MathRound(p) == c
  {
    var x := c as real;
    RoundsNonnegative(dollars, x / 100.0);
    var y := dollars * 100.0;
    assert x - UNIT * x <= y <= x + UNIT * x by {
      assert UNIT * (x / 100.0) * 100.0 == UNIT * x;
    }
    assert y >= 0.0;
    RoundsNonnegative(p, y);
    assert UNIT * x < 0.125;
    assert UNIT * y <= UNIT * (x + 0.125);
    assert x - 0.5 < p < x + 0.5;
  }

  /** Opening the editor and saving it unchanged keeps every price the schema accepts, and the absence
      of one. */
  lemma EditorKeepsPrice(cents: Option<nat>, draft: Draft, saved: Option<int>)
    requires cents.Some? ==> cents.value <= MAX_CENTS
    requires Opens(cents, draft) && Saves(draft, saved)
    ensures cents.None? <==> saved.None?
    ensures cents.Some? ==> saved.value == cents.value
  {
    if cents.Some? {
      var p :| Rounds(p, draft.amount * 100.0) && saved.value == MathRound(p);
      TwoRoundings(cents.value, draft.amount, p);
    }
  }

  /** A price typed with at most two decimals is stored as exactly those cents: Number gives some double
      within the same error of the decimal. */
  lemma TypedPriceIsExact(whole: nat, hundredths: nat, typed: real, saved: Option<int>)
    requires hundredths < 100 && whole * 100 + hundredths <= MAX_CENTS
    requires Rounds(typed, whole as real + hundredths as real / 100.0) && Saves(Dollars(typed), saved)
    ensures saved == Some(whole * 100 + hundredths)
  {
    var p :| Rounds(p, typed * 100.0) && saved.value == MathRound(p);
    assert (whole * 100 + hundredths) as real / 100.0 == whole as real + hundredths as real / 100.0;
    TwoRoundings(whole * 100 + hundredths, typed, p);
  }
}
