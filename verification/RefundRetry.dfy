/**
 apps/admin/src/components/OrderPaymentAdmin.tsx: the idempotency key of a refund is minted on the
 first submit, kept across failed attempts and dropped on a success or an edit of the amount.
 RefundProtocol is its steps against a server that acts at most once per key (which is what
 RefundLedger.OneRefundPerKey proves of the refund service) and a network that may lose any reply.
 */
module RefundProtocol {
  import opened Prelude

  type Key = nat

  /** A submit that went out, with the number of resets that came before it. */
  datatype Submit = Submit(key: Key, resetsBefore: nat)

  /** `minted` counts crypto.randomUUID calls; `inFlight` is the submit awaiting its reply;
      `performed` the keys the server refunded under; `submits` and `resets` are history. */
  datatype Panel = Panel(refundKey: Option<Key>, refunding: bool, inFlight: Option<Key>, minted: nat,
                         performed: set<Key>, submits: seq<Submit>, resets: nat)

  datatype Event = PressConfirm | EditAmount | ServerRefunds(k: nat) | ReplyOk | ReplyError | Reloaded

  const INITIAL: Panel := Panel(None, false, None, 0, {}, [], 0)

  predicate Enabled(p: Panel, e: Event) {
    match e
    case PressConfirm => !p.refunding
    case EditAmount => true
    // any submit that went out may be processed, even long after its reply was given up
    case ServerRefunds(k) => k < |p.submits|
    case ReplyOk => p.inFlight.Some? && p.inFlight.value in p.performed
    case ReplyError => p.inFlight.Some?
    case Reloaded => p.refunding && p.inFlight.None?
  }

  function Step(p: Panel, e: Event): Panel
    requires Enabled(p, e)
  {
    match e
    case PressConfirm =>
      var key := if p.refundKey.Some? then p.refundKey.value else p.minted;
      p.(refundKey := Some(key), minted := if p.refundKey.Some? then p.minted else p.minted + 1,
         refunding := true, inFlight := Some(key), submits := p.submits + [Submit(key, p.resets)])
    case EditAmount => p.(refundKey := None, resets := p.resets + 1)
    case ServerRefunds(k) => p.(performed := p.performed + {p.submits[k].key})
    case ReplyOk => p.(refundKey := None, inFlight := None, resets := p.resets + 1)
    case ReplyError => p.(inFlight := None, refunding := false)
    case Reloaded => p.(refunding := false)
  }

  function Run(p: Panel, es: seq<Event>): Option<Panel>
    decreases |es|
  {
    if es == [] then Some(p)
    else if Enabled(p, es[0]) then Run(Step(p, es[0]), es[1..])
    else None
  }

  ghost predicate Inv(p: Panel) {
    && p.minted <= p.resets + (if p.refundKey.Some? then 1 else 0)
    && (p.refundKey.Some? ==> p.refundKey.value + 1 == p.minted)
    && (forall k :: k in p.performed ==> k < p.minted)
    && (forall i :: 0 <= i < |p.submits| ==>
          && p.submits[i].key < p.minted && p.submits[i].resetsBefore <= p.resets
          && (p.submits[i].resetsBefore == p.resets <==> p.refundKey == Some(p.submits[i].key)))
    && (forall i, j :: 0 <= i < |p.submits| && 0 <= j < |p.submits| ==>
          (p.submits[i].resetsBefore == p.submits[j].resetsBefore <==> p.submits[i].key == p.submits[j].key))
  }

  lemma StepKeepsInv(p: Panel, e: Event)
    requires Inv(p) && Enabled(p, e)
    ensures Inv(Step(p, e))
  {
  }

  lemma {:induction false} RunKeepsInv(p: Panel, es: seq<Event>)
    requires Inv(p) && Run(p, es).Some?
    ensures Inv(Run(p, es).value)
    decreases |es|
  {
    if es != [] {
      StepKeepsInv(p, es[0]);
      RunKeepsInv(Step(p, es[0]), es[1..]);
    }
  }

  /** Two submits carry the same key exactly when no reset came between them. */
  lemma OneKeyBetweenResets(es: seq<Event>, i: nat, j: nat)
    requires Run(INITIAL, es).Some?
    requires i < |Run(INITIAL, es).value.submits| && j < |Run(INITIAL, es).value.submits|
    ensures var submits := Run(INITIAL, es).value.submits;
            submits[i].key == submits[j].key <==> submits[i].resetsBefore == submits[j].resetsBefore
  {
    RunKeepsInv(INITIAL, es);
  }

  lemma {:induction false} BelowBound(ks: set<Key>, n: nat)
    requires forall k :: k in ks ==> k < n
    ensures |ks| <= n
  {
    if n == 0 {
      assert ks == {};
    } else {
      BelowBound(ks - {n - 1}, n - 1);
      assert ks <= (ks - {n - 1}) + {n - 1};
      assert |ks| <= |ks - {n - 1}| + 1;
    }
  }

  /** However many retries, lost replies and late deliveries: at most one refund more than resets. */
  lemma RefundsBoundedByResets(es: seq<Event>)
    requires Run(INITIAL, es).Some?
    ensures |Run(INITIAL, es).value.performed| <= 1 + Run(INITIAL, es).value.resets
  {
    RunKeepsInv(INITIAL, es);
    BelowBound(Run(INITIAL, es).value.performed, Run(INITIAL, es).value.minted);
  }

  // ----- what the events alone say -----

  /** A key is dropped by a success and by an edit of the amount. */
  predicate IsReset(e: Event) {
    e.ReplyOk? || e.EditAmount?
  }

  ghost predicate NoReset(es: seq<Event>) {
    forall k :: 0 <= k < |es| ==> !IsReset(es[k])
  }

  lemma {:induction false} KeyIsKept(p: Panel, es: seq<Event>, key: Key)
    requires p.refundKey == Some(key) && Run(p, es).Some? && NoReset(es)
    ensures Run(p, es).value.refundKey == Some(key)
    decreases |es|
  {
    if es != [] {
      assert !IsReset(es[0]);
      KeyIsKept(Step(p, es[0]), es[1..], key);
    }
  }

  lemma {:induction false} KeyStaysDropped(p: Panel, es: seq<Event>, key: Key)
    requires key < p.minted && p.refundKey != Some(key) && Run(p, es).Some?
    ensures Run(p, es).value.refundKey != Some(key) && key < Run(p, es).value.minted
    decreases |es|
  {
    if es != [] {
      KeyStaysDropped(Step(p, es[0]), es[1..], key);
    }
  }

  lemma {:induction false} ResetDropsKey(p: Panel, es: seq<Event>, key: Key)
    requires Inv(p) && p.refundKey == Some(key) && Run(p, es).Some? && !NoReset(es)
    ensures Run(p, es).value.refundKey != Some(key) && key < Run(p, es).value.minted
    decreases |es|
  {
    var q := Step(p, es[0]);
    StepKeepsInv(p, es[0]);
    if IsReset(es[0]) {
      KeyStaysDropped(q, es[1..], key);
    } else {
      var k :| 0 <= k < |es| && IsReset(es[k]);
      assert es[1..][k - 1] == es[k];
      ResetDropsKey(q, es[1..], key);
    }
  }

  /** Over every run: a confirm press sends the key of an earlier one exactly when no success and no edit of the
      amount came between them; failed and lost replies keep it. */
  lemma RetrySendsKeyExactly(before: seq<Event>, between: seq<Event>)
    requires Run(INITIAL, before).Some? && Enabled(Run(INITIAL, before).value, PressConfirm)
    requires var sent := Step(Run(INITIAL, before).value, PressConfirm);
             Run(sent, between).Some? && Enabled(Run(sent, between).value, PressConfirm)
    ensures var sent := Step(Run(INITIAL, before).value, PressConfirm);
            var again := Step(Run(sent, between).value, PressConfirm);
            && sent.inFlight.Some? && again.inFlight.Some? && sent.refunding && again.refunding
            && (again.inFlight == sent.inFlight <==> NoReset(between))
  {
    RunKeepsInv(INITIAL, before);
    var p := Run(INITIAL, before).value;
    StepKeepsInv(p, PressConfirm);
    var sent := Step(p, PressConfirm);
    if NoReset(between) {
      KeyIsKept(sent, between, sent.inFlight.value);
    } else {
      ResetDropsKey(sent, between, sent.inFlight.value);
    }
  }

  /** The number of keys a panel may have used up, counted on the events. */
  function CountResets(es: seq<Event>): nat {
    if es == [] then 0 else (if IsReset(es[0]) then 1 else 0) + CountResets(es[1..])
  }

  /** Whether the button is disabled: from a press to a failure or the end of the reload after a success. */
  function Busy(es: seq<Event>, was: bool): bool
    decreases |es|
  {
    if es == [] then was
    else Busy(es[1..], es[0].PressConfirm? || (was && !es[0].ReplyError? && !es[0].Reloaded?))
  }

  /** Whether a reply is awaited: from a press to its reply. */
  function AwaitsReply(es: seq<Event>, was: bool): bool
    decreases |es|
  {
    if es == [] then was
    else AwaitsReply(es[1..], es[0].PressConfirm? || (was && !es[0].ReplyOk? && !es[0].ReplyError?))
  }

  /** The resets, the disabled button and the awaited reply, read off any run. */
  lemma {:induction false} RunTells(p: Panel, es: seq<Event>)
    requires Run(p, es).Some?
    ensures var q := Run(p, es).value;
            && q.resets == p.resets + CountResets(es)
            && q.refunding == Busy(es, p.refunding) && q.inFlight.Some? == AwaitsReply(es, p.inFlight.Some?)
    decreases |es|
  {
    if es != [] {
      RunTells(Step(p, es[0]), es[1..]);
    }
  }

  lemma {:induction false} SubmitsGrow(p: Panel, es: seq<Event>)
    requires Run(p, es).Some?
    ensures p.submits <= Run(p, es).value.submits
    decreases |es|
  {
    if es != [] {
      SubmitsGrow(Step(p, es[0]), es[1..]);
    }
  }

  /** Some event of the run has the server perform a submit with this key. */
  ghost predicate Served(es: seq<Event>, submits: seq<Submit>, key: Key) {
    exists j :: 0 <= j < |es| && es[j].ServerRefunds? && es[j].k < |submits| && submits[es[j].k].key == key
  }

  lemma ServedSplits(es: seq<Event>, submits: seq<Submit>, key: Key)
    requires es != []
    ensures Served(es, submits, key) <==>
              Served(es[1..], submits, key)
              || (es[0].ServerRefunds? && es[0].k < |submits| && submits[es[0].k].key == key)
  {
    if Served(es[1..], submits, key) {
      var j :| 0 <= j < |es[1..]| && es[1..][j].ServerRefunds? && es[1..][j].k < |submits|
               && submits[es[1..][j].k].key == key;
      assert es[j + 1] == es[1..][j];
    }
    if Served(es, submits, key) {
      var j :| 0 <= j < |es| && es[j].ServerRefunds? && es[j].k < |submits| && submits[es[j].k].key == key;
      if j > 0 {
        assert es[1..][j - 1] == es[j];
      }
    }
  }

  /** The server has refunded under exactly the keys of the submits it performed. */
  lemma {:induction false} PerformedExactly(p: Panel, es: seq<Event>, key: Key)
    requires Run(p, es).Some?
    ensures key in Run(p, es).value.performed <==> key in p.performed || Served(es, Run(p, es).value.submits, key)
    decreases |es|
  {
    if es != [] {
      var q := Step(p, es[0]);
      PerformedExactly(q, es[1..], key);
      SubmitsGrow(q, es[1..]);
      ServedSplits(es, Run(p, es).value.submits, key);
    }
  }

  /** On the events alone: the server refunds under at most one key more than there were successes and edits. */
  lemma RefundsBoundedByEvents(es: seq<Event>)
    requires Run(INITIAL, es).Some?
    ensures |Run(INITIAL, es).value.performed| <= 1 + CountResets(es)
  {
    RefundsBoundedByResets(es);
    RunTells(INITIAL, es);
  }
}

module OrderPaymentAdmin {
  import opened Prelude
  import P = RefundProtocol

  class RefundPanel {
    var refundKeyRef: Option<P.Key>
    var refunding: bool
    var refundOpen: bool
    var refundAmount: string
    var refundReason: string
    var refundsVersion: nat
    var inFlight: Option<P.Key>
    var minted: nat
    ghost var performed: set<P.Key>
    ghost var submits: seq<P.Submit>
    ghost var resets: nat

    ghost function View(): P.Panel
      reads this
    {
      P.Panel(refundKeyRef, refunding, inFlight, minted, performed, submits, resets)
    }

    constructor ()
      ensures View() == P.INITIAL && !refundOpen && refundAmount == "" && refundReason == ""
    {
      refundKeyRef, refunding, refundOpen, refundAmount, refundReason := None, false, false, "", "";
      refundsVersion, inFlight, minted, performed, submits, resets := 0, None, 0, {}, [], 0;
    }

    /** submitRefund up to its await: `refundKeyRef.current ??= crypto.randomUUID()`. */
    method SubmitRefund()
      requires !refunding
      modifies this
      ensures View() == P.Step(old(View()), P.PressConfirm)
      ensures refundAmount == old(refundAmount) && refundReason == old(refundReason) && refundOpen == old(refundOpen)
    {
      refunding := true;
      if refundKeyRef.None? {
        refundKeyRef := Some(minted);
        minted := minted + 1;
      }
      inFlight := refundKeyRef;
      submits := submits + [P.Submit(refundKeyRef.value, resets)];
    }

    method OnReplyOk()
      requires P.Enabled(View(), P.ReplyOk)
      modifies this
      ensures View() == P.Step(old(View()), P.ReplyOk)
      ensures !refundOpen && refundAmount == "" && refundReason == "" && refundsVersion == old(refundsVersion)
    {
      inFlight := None;
      refundKeyRef := None;
      refundOpen := false;
      refundAmount := "";
      refundReason := "";
      resets := resets + 1;
    }

    method OnReplyError()
      requires P.Enabled(View(), P.ReplyError)
      modifies this
      ensures View() == P.Step(old(View()), P.ReplyError)
      ensures refundAmount == old(refundAmount) && refundReason == old(refundReason)
          && refundsVersion == old(refundsVersion) + 1
    {
      inFlight := None;
      refunding := false;
      refundsVersion := refundsVersion + 1;
    }

    /** The reload after a success is over; `finally` re-enables the button. */
    method OnReloaded()
      requires P.Enabled(View(), P.Reloaded)
      modifies this
      ensures View() == P.Step(old(View()), P.Reloaded) && refundsVersion == old(refundsVersion) + 1
    {
      refunding := false;
      refundsVersion := refundsVersion + 1;
    }

    method EditAmount(text: string)
      modifies this
      ensures View() == P.Step(old(View()), P.EditAmount) && refundAmount == text
    {
      refundKeyRef := None;
      refundAmount := text;
      resets := resets + 1;
    }

    /** A submit that went out reaches the server, perhaps long after its reply was given up. */
    method OnServed(k: nat)
      requires k < |submits|
      modifies this
      ensures View() == P.Step(old(View()), P.ServerRefunds(k)) && refundAmount == old(refundAmount)
    {
      performed := performed + {submits[k].key};
    }

    method Do(e: P.Event, text: string)
      requires P.Enabled(View(), e)
      modifies this
      ensures View() == P.Step(old(View()), e)
    {
      match e {
        case PressConfirm => SubmitRefund();
        case EditAmount => EditAmount(text);
        case ServerRefunds(k) => OnServed(k);
        case ReplyOk => OnReplyOk();
        case ReplyError => OnReplyError();
        case Reloaded => OnReloaded();
      }
    }
  }

  /** Plays any run on a new panel, with the amounts the user types. However many of its submits the server
      performs, there is at most one refund more than there were successes and edits, and a kept key is the newest one
      minted. */
  method Play(es: seq<P.Event>, typed: seq<string>) returns (panel: RefundPanel)
    requires P.Run(P.INITIAL, es).Some? && |typed| == |es|
    ensures fresh(panel) && P.Run(P.INITIAL, es) == Some(panel.View())
    ensures |panel.performed| <= 1 + P.CountResets(es) && panel.refunding == P.Busy(es, false)
    ensures panel.minted <= 1 + P.CountResets(es) && (panel.refundKeyRef.Some? ==>
        panel.refundKeyRef.value + 1 == panel.minted)
  {
    panel := new RefundPanel();
    var k := 0;
    while k < |es|
      invariant 0 <= k <= |es| && fresh(panel)
      invariant P.Run(P.INITIAL, es) == P.Run(panel.View(), es[k..])
    {
      assert es[k..][1..] == es[k + 1..];
      panel.Do(es[k], typed[k]);
      k := k + 1;
    }
    P.RunKeepsInv(P.INITIAL, es);
    P.RefundsBoundedByEvents(es);
    P.RunTells(P.INITIAL, es);
  }
}
