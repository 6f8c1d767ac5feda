/** One cancels the other: what becomes of the legs a closed trade still records, over whole runs in live mode. */
module LiveCancellation {
  import opened Common
  import opened LiveOrders
  import opened LiveRedelivery

  /** The id has been enqueued for cancellation or reported final. */
  predicate Settled(b: Book, id: OrderId) { id in b.cancels || id in b.reported }

  predicate LegsIn(t: Trade, cancels: seq<OrderId>, reported: set<OrderId>) {
    && (t.sl.Some? ==> t.sl.value in cancels || t.sl.value in reported)
    && (t.target.Some? ==> t.target.value in cancels || t.target.value in reported)
  }

  predicate LegsSettled(b: Book, t: Trade) { LegsIn(t, b.cancels, b.reported) }

  /** Every leg recorded on a closed trade is settled. */
  ghost predicate ClosedAreSettled(b: Book) {
    forall i :: 0 <= i < |b.trades| && b.trades[i].status == Closed ==> LegsSettled(b, b.trades[i])
  }

  /** A cancelled or rejected entry with nothing filled. */
  predicate DropsEntry(t: Trade, u: Update) {
    u.status in {OrderRejected, OrderCancelled} && u.filled <= 0 && !IsLeg(t, u.id)
  }

  /** Two ways to leave a live order on a closed trade: its entry order is cancelled or rejected with nothing
      filled while legs are recorded, or it is closed at the market once more and the broker accepts. */
  predicate Abandons(b: Book, e: Event) {
    match e
    case Webhook(u) =>
      var i := Find(b.trades, u.id);
      i < |b.trades| && DropsEntry(b.trades[i], u) && !LegsSettled(b, b.trades[i])
    case MarketClose(i, reply) =>
      && i < |b.trades| && b.trades[i].status == Closed && b.trades[i].hasInstrument
      && reply.CloseAccepted? && reply.id.Some? && !Settled(b, reply.id.value) && !IsLeg(b.trades[i], reply.id.value)
    case _ => false
  }

  lemma SettledStays(b: Book, e: Event, t: Trade)
    requires LegsSettled(b, t)
    ensures LegsSettled(Step(true, b, e), t)
  {
  }

  lemma EffectSettles(t: Trade, u: Update, cancels: seq<OrderId>, reported: set<OrderId>)
    requires t.status == Closed ==> LegsIn(t, cancels, reported)
    ensures var e := OnUpdate(true, t, u);
            (e.trade.status == Closed ==>
               LegsIn(e.trade, cancels + e.cancels, reported + if Final(u.status) then {u.id} else {}))
            <==> !(DropsEntry(t, u) && !LegsIn(t, cancels, reported))
  {
  }

  /** An update to a trade, with the ids it cancels and the one it reports. */
  lemma UpdateSettles(b: Book, i: nat, u: Update)
    requires i < |b.trades| && Find(b.trades, u.id) == i
    requires b.trades[i].status == Closed ==> LegsSettled(b, b.trades[i])
    ensures var c := Step(true, b, Webhook(u));
            (c.trades[i].status == Closed ==> LegsSettled(c, c.trades[i])) <==> !Abandons(b, Webhook(u))
  {
    EffectSettles(b.trades[i], u, b.cancels, b.reported);
    UpdatesOne(true, b, u);
  }

  lemma OthersSettle(b: Book, i: nat, e: Event)
    requires i < |b.trades| && (b.trades[i].status == Closed ==> LegsSettled(b, b.trades[i]))
    requires e.Protect? || e.Reconcile? || (e.MarketClose? && e.trade == i)
    ensures var c := Step(true, b, e);
            (c.trades[i].status == Closed ==> LegsSettled(c, c.trades[i])) <==> !Abandons(b, e)
  {
  }

  lemma OneTradeSettles(b: Book, e: Event, j: nat)
    requires j < |b.trades| && (b.trades[j].status == Closed ==> LegsSettled(b, b.trades[j]))
    requires Touches(b, e) != j
    ensures var c := Step(true, b, e); c.trades[j] == b.trades[j]
    ensures var c := Step(true, b, e); c.trades[j].status == Closed ==> LegsSettled(c, c.trades[j])
  {
    if b.trades[j].status == Closed { SettledStays(b, e, b.trades[j]); }
  }

  /** The trade an event is about. */
  function Touches(b: Book, e: Event): nat {
    match e
    case Webhook(u) => Find(b.trades, u.id)
    case Protect(i, _, _, _, _) => i
    case MarketClose(i, _) => i
    case Reconcile(i, _, _) => i
  }

  lemma TouchedSettles(b: Book, e: Event)
    requires var i := Touches(b, e); i < |b.trades| && (b.trades[i].status == Closed ==> LegsSettled(b, b.trades[i]))
    ensures var c, i := Step(true, b, e), Touches(b, e);
            (c.trades[i].status == Closed ==> LegsSettled(c, c.trades[i])) <==> !Abandons(b, e)
  {
    if e.Webhook? { UpdateSettles(b, Touches(b, e), e.update); } else { OthersSettle(b, Touches(b, e), e); }
  }

  /** An event leaves a live order on a closed trade exactly when it is of one of the two kinds. */
  lemma SettledIffNotAbandoned(b: Book, e: Event)
    requires ClosedAreSettled(b)
    ensures ClosedAreSettled(Step(true, b, e)) <==> !Abandons(b, e)
  {
    var c, i := Step(true, b, e), Touches(b, e);
    if i < |b.trades| { TouchedSettles(b, e); }
    forall j | 0 <= j < |b.trades| && j != i ensures c.trades[j].status == Closed ==> LegsSettled(c, c.trades[j]) {
      OneTradeSettles(b, e, j);
    }
  }

  /** One cancels the other: at every moment of a run every leg still recorded on a closed trade has been enqueued
      for cancellation or reported final, exactly when no event of the run is of the two kinds. */
  lemma {:induction false} OneCancelsOther(b: Book, es: seq<Event>)
    requires Initial(b)
    ensures (forall k :: 0 <= k <= |es| ==> ClosedAreSettled(Run(true, b, es[..k]))) <==>
            forall k :: 0 <= k < |es| ==> !Abandons(Run(true, b, es[..k]), es[k])
  {
    var holds := (k: nat) => k <= |es| && ClosedAreSettled(Run(true, b, es[..k]));
    var good := (k: nat) => k < |es| && !Abandons(Run(true, b, es[..k]), es[k]);
    forall k | 0 <= k < |es| && holds(k) ensures holds(k + 1) <==> good(k) {
      SettledIffNotAbandoned(Run(true, b, es[..k]), es[k]);
      RunSnoc(true, b, es, k);
    }
    Throughout(holds, good, |es|);
    assert holds(0);
    assert forall k :: 0 <= k <= |es| ==> (holds(k) <==> ClosedAreSettled(Run(true, b, es[..k])));
    assert forall k :: 0 <= k < |es| ==> (good(k) <==> !Abandons(Run(true, b, es[..k]), es[k]));
  }

  /** A cancelled or rejected entry with nothing filled closes its trade and leaves the legs as they were. */
  lemma DroppedEntryAbandons(b: Book, u: Update)
    requires Abandons(b, Webhook(u))
    ensures var c, i := Step(true, b, Webhook(u)), Find(b.trades, u.id);
            && c.trades[i].status == Closed && c.cancels == b.cancels
            && c.trades[i].sl == b.trades[i].sl && c.trades[i].target == b.trades[i].target
            && !LegsSettled(c, c.trades[i])
  {
    UpdatesOne(true, b, u);
  }

  /** One run in which it happens: five shares are filled and protected, then the entry is reported cancelled with
      nothing filled; both legs stay with the broker. */
  lemma AbandonedAfterPartialFill(t: Trade, b: Book)
    requires Initial(b) && b.trades == [t] && t.brokerId == "e" && t.stopLoss > 0.0 && t.targetPrice > 0.0
    ensures var fill := Update("e", Working, 5, 10.0, Some("s1"), Some("g1"));
            var after := Step(true, Step(true, b, Webhook(fill)),
                              Webhook(Update("e", OrderCancelled, 0, 0.0, None, None)));
            && after.trades[0].status == Closed && after.cancels == [] && after.reported == {"e"}
            && after.trades[0].sl == Some("s1") && after.trades[0].target == Some("g1")
            && after.placed == [(0, Leg("s1", 5)), (0, Leg("g1", 5))]
  {
    var fill := Update("e", Working, 5, 10.0, Some("s1"), Some("g1"));
    assert "e"[0] != "s1"[0] && "e"[0] != "g1"[0];
    UpdatesOne(true, b, fill);
    var first := Step(true, b, Webhook(fill));
    assert first.trades[0].sl == Some("s1") && first.trades[0].target == Some("g1");
    UpdatesOne(true, first, Update("e", OrderCancelled, 0, 0.0, None, None));
  }
}
