/** An entry order's `complete` update delivered again, after anything that may have happened in between. */
module LiveRedelivery {
  import opened Common
  import opened LiveOrders
  import opened LiveOrderTheorems

  /** Trades, cancel queue, booked P&L and placed legs are the same. */
  predicate SameOrders(a: Book, b: Book) {
    a.trades == b.trades && a.cancels == b.cancels && a.dailyPnl == b.dailyPnl && a.placed == b.placed
  }

  function Again(u: Update, slReply: Option<OrderId>, targetReply: Option<OrderId>): Event {
    Webhook(u.(slReply := slReply, targetReply := targetReply))
  }

  /** Delivered now, the update changes nothing, whatever the broker would answer. */
  ghost predicate Ignored(live: bool, b: Book, u: Update) {
    forall s, g :: SameOrders(Step(live, b, Again(u, s, g)), b)
  }

  /** The update is the completion of trade i's entry order. */
  predicate CompletesEntry(b: Book, i: nat, u: Update) {
    i < |b.trades| && u.status == Complete && Find(b.trades, u.id) == i && !IsLeg(b.trades[i], u.id)
  }

  /** The trade is open with the numbers of the update. */
  predicate Processed(t: Trade, u: Update) {
    t.status == Open && t.quantity == u.filled && t.filledQuantity == u.filled && t.averagePrice == u.average
  }

  /** It has a stop, or there is nothing to protect it with. */
  predicate Guarded(live: bool, t: Trade, u: Update) {
    Processed(t, u) &&
    (t.sl.Some? ||
     (t.entryPrice == u.average
      && (live ==> t.stopLoss <= 0.0 && t.targetPrice <= 0.0 && t.target.None?)))
  }

  /** A complete entry update is ignored for all broker replies exactly when the trade is open with its numbers
      and has a stop leg, or can have no leg at all. In particular a closed trade is opened again. */
  lemma RedeliveryIgnoredIff(live: bool, b: Book, i: nat, u: Update)
    requires CompletesEntry(b, i, u)
    ensures Ignored(live, b, u) <==> Guarded(live, b.trades[i], u)
  {
    forall s, g
      ensures SameOrders(Step(live, b, Again(u, s, g)), b)
              <==> OnUpdate(live, b.trades[i], u.(slReply := s, targetReply := g)) == Effect(b.trades[i], [], [], None)
    {
      OneStep(live, b, i, u.(slReply := s, targetReply := g));
    }
    var t := b.trades[i];
    if Ignored(live, b, u) {
      var both, none := u.(slReply := Some("s"), targetReply := Some("g")), u.(slReply := None, targetReply := None);
      assert SameOrders(Step(live, b, Again(u, Some("s"), Some("g"))), b)
             && SameOrders(Step(live, b, Again(u, None, None)), b);
      NothingHappensIff(live, t, both, none);
    }
  }

  /** A step on trade i changes nothing exactly when its effect is empty. */
  lemma OneStep(live: bool, b: Book, i: nat, v: Update)
    requires i < |b.trades| && Find(b.trades, v.id) == i
    ensures SameOrders(Step(live, b, Webhook(v)), b) <==>
            var e := OnUpdate(live, b.trades[i], v);
            e.trade == b.trades[i] && e.cancels == [] && e.legs == [] && Booked(b.dailyPnl, e.pnl) == b.dailyPnl
  {
  }

  lemma NothingHappensIff(live: bool, t: Trade, both: Update, none: Update)
    requires both.status == Complete && !IsLeg(t, both.id) && none == both.(slReply := None, targetReply := None)
    requires both.slReply.Some? && both.targetReply.Some?
    requires OnUpdate(live, t, both) == Effect(t, [], [], None) && OnUpdate(live, t, none) == Effect(t, [], [], None)
    ensures Guarded(live, t, both)
  {
  }

  // ---------------------------------------------------------------- what may happen in between

  /** The trade is as the update left it, with a stop. */
  predicate Standing(t: Trade, u: Update) { Processed(t, u) && t.sl.Some? }

  /** With a stop price in live mode, that is all that counts. */
  lemma GuardedIsStanding(t: Trade, u: Update)
    requires t.stopLoss > 0.0
    ensures Guarded(true, t, u) <==> Standing(t, u)
  {
  }

  /** The stop after a replacement of the legs. */
  function NewStop(live: bool, t: Trade, v: Update): Option<OrderId> {
    if live then PlaceLeg(live, t.stopLoss, v.slReply) else t.sl
  }

  /** Update v of a leg completes it, drops the stop, or fills it partially by another amount or without a
      new stop. */
  predicate LegDisturbs(live: bool, t: Trade, v: Update, u: Update) {
    match v.status
    case Complete => true
    case Working => v.filled > 0 && (v.filled != u.filled || NewStop(live, t, v).None?)
    case Other => false
    case _ => t.sl == Some(v.id)
  }

  /** Update v of the entry order reports other numbers, or replaces the stop by none, or drops the order. */
  predicate EntryDisturbs(live: bool, t: Trade, v: Update, u: Update) {
    v.filled != u.filled || v.average != u.average ||
    match v.status
    case Complete => false
    case Working => v.filled > 0 && NewStop(live, t, v).None?
    case Other => false
    case _ => v.filled <= 0 || NewStop(live, t, v).None?
  }

  /** Event e disturbs trade i: a leg of it completes or its stop is dropped, it is resized, or it is closed at
      the market. */
  predicate Disturbs(live: bool, b: Book, i: nat, e: Event, u: Update)
    requires i < |b.trades|
  {
    var t := b.trades[i];
    match e
    case Webhook(v) =>
      Find(b.trades, v.id) == i && if IsLeg(t, v.id) then LegDisturbs(live, t, v, u) else EntryDisturbs(live, t, v, u)
    case Protect(_, _, _, _, _) => false
    case MarketClose(j, _) => j == i && live && t.hasInstrument
    case Reconcile(j, slAnswer, targetAnswer) =>
      j == i && live && (slAnswer.LegComplete? || (t.target.Some? && targetAnswer.LegComplete?))
  }

  /** A standing trade keeps standing through an event exactly when the event does not disturb it. */
  lemma StandsIffUndisturbed(live: bool, b: Book, i: nat, e: Event, u: Update)
    requires i < |b.trades| && Standing(b.trades[i], u)
    ensures Standing(Step(live, b, e).trades[i], u) <==> !Disturbs(live, b, i, e, u)
  {
    match e
    case Webhook(v) =>
      if Find(b.trades, v.id) == i {
        UpdateStands(live, b.trades[i], v, u);
        UpdatesOne(live, b, v);
      } else {
        UpdatesOne(live, b, v);
      }
    case Protect(_, _, _, _, _) =>
    case MarketClose(_, _) =>
    case Reconcile(_, _, _) =>
  }

  lemma UpdatesOne(live: bool, b: Book, v: Update)
    ensures var i := Find(b.trades, v.id);
            Step(live, b, Webhook(v)).trades ==
            if i < |b.trades| then b.trades[i := OnUpdate(live, b.trades[i], v).trade] else b.trades
  {
  }

  lemma UpdateStands(live: bool, t: Trade, v: Update, u: Update)
    requires Standing(t, u)
    ensures Standing(OnUpdate(live, t, v).trade, u) <==>
            !(if IsLeg(t, v.id) then LegDisturbs(live, t, v, u) else EntryDisturbs(live, t, v, u))
  {
  }

  // ---------------------------------------------------------------- whole runs

  /** The broker never answers with the id of the entry order. */
  ghost predicate OtherReplies(es: seq<Event>, id: OrderId) {
    forall k :: 0 <= k < |es| ==> !Replied(es[k], id)
  }

  lemma EntryStays(live: bool, b: Book, i: nat, e: Event, u: Update)
    requires CompletesEntry(b, i, u) && !Replied(e, u.id)
    ensures CompletesEntry(Step(live, b, e), i, u)
  {
    var c := Step(live, b, e);
    forall j | 0 <= j < |b.trades|
      ensures c.trades[j].brokerId == b.trades[j].brokerId && (IsLeg(c.trades[j], u.id) ==> IsLeg(b.trades[j], u.id))
    {
      OwnsNothingNew(live, b, e, j, u.id);
    }
    FindFirst(c.trades, u.id, i);
  }

  lemma OwnsNothingNew(live: bool, b: Book, e: Event, j: nat, id: OrderId)
    requires j < |b.trades| && !Replied(e, id)
    ensures var t, c := b.trades[j], Step(live, b, e).trades[j];
            c.brokerId == t.brokerId && (IsLeg(c, id) ==> IsLeg(t, id))
  {
    if e.Webhook? {
      UpdatesOne(live, b, e.update);
      UpdateOwnsNothingNew(live, b.trades[j], e.update, id);
    } else {
      OthersOwnNothingNew(live, b, e, j, id);
    }
  }

  lemma ReprotectOwnsNothingNew(live: bool, t: Trade, s: Option<OrderId>, g: Option<OrderId>, id: OrderId)
    requires s != Some(id) && g != Some(id)
    ensures var c := Reprotect(live, t, s, g).trade;
            c.brokerId == t.brokerId && (IsLeg(c, id) ==> IsLeg(t, id))
  {
  }

  lemma UpdateOwnsNothingNew(live: bool, t: Trade, v: Update, id: OrderId)
    requires v.slReply != Some(id) && v.targetReply != Some(id)
    ensures var c := OnUpdate(live, t, v).trade;
            c.brokerId == t.brokerId && (IsLeg(c, id) ==> IsLeg(t, id))
  {
    var seen := if IsLeg(t, v.id) then t else t.(filledQuantity := v.filled, averagePrice := v.average);
    var filled := seen.(status := Open, quantity := v.filled);
    match v.status
    case Complete => ReprotectOwnsNothingNew(live, filled.(entryPrice := v.average), v.slReply, v.targetReply, id);
    case Working =>
      ReprotectOwnsNothingNew(live, PartiallyFill(seen, v.filled, v.average), v.slReply, v.targetReply, id);
    case Other =>
    case _ => ReprotectOwnsNothingNew(live, filled, v.slReply, v.targetReply, id);
  }

  lemma OthersOwnNothingNew(live: bool, b: Book, e: Event, j: nat, id: OrderId)
    requires j < |b.trades| && !Replied(e, id) && !e.Webhook?
    ensures var t, c := b.trades[j], Step(live, b, e).trades[j];
            c.brokerId == t.brokerId && (IsLeg(c, id) ==> IsLeg(t, id))
  {
  }

  lemma {:induction false} FindFirst(trades: seq<Trade>, id: OrderId, i: nat)
    requires i < |trades| && Owns(trades[i], id) && forall j :: 0 <= j < i ==> !Owns(trades[j], id)
    ensures Find(trades, id) == i
  {
    if i > 0 { FindFirst(trades[1..], id, i - 1); }
  }

  lemma {:induction false} EntryStaysOver(live: bool, b: Book, i: nat, es: seq<Event>, u: Update)
    requires CompletesEntry(b, i, u) && OtherReplies(es, u.id)
    ensures CompletesEntry(Run(live, b, es), i, u)
  {
    if es != [] {
      EntryStaysOver(live, b, i, es[..|es| - 1], u);
      EntryStays(live, Run(live, b, es[..|es| - 1]), i, es[|es| - 1], u);
    }
  }

  /** After any run of events a redelivery is ignored exactly when the trade is guarded at that moment. */
  lemma RedeliveryOverRuns(live: bool, b: Book, i: nat, u: Update, es: seq<Event>)
    requires CompletesEntry(b, i, u) && OtherReplies([Webhook(u)] + es, u.id)
    ensures var now := Run(live, Step(live, b, Webhook(u)), es);
            i < |now.trades| && (Ignored(live, now, u) <==> Guarded(live, now.trades[i], u))
  {
    var all := [Webhook(u)] + es;
    assert !Replied(all[0], u.id);
    assert forall k :: 0 <= k < |es| ==> es[k] == all[k + 1];
    EntryStays(live, b, i, Webhook(u), u);
    EntryStaysOver(live, Step(live, b, Webhook(u)), i, es, u);
    RedeliveryIgnoredIff(live, Run(live, Step(live, b, Webhook(u)), es), i, u);
  }

  /** What holds at first and is kept exactly by good steps holds throughout exactly when all steps are good. */
  lemma {:induction false} Throughout(holds: nat -> bool, good: nat -> bool, n: nat)
    requires forall k :: 0 <= k < n && holds(k) ==> (holds(k + 1) <==> good(k))
    ensures (forall k :: 0 <= k <= n ==> holds(k)) <==> holds(0) && forall k :: 0 <= k < n ==> good(k)
  {
    if n > 0 {
      Throughout(holds, good, n - 1);
      assert holds(n - 1) ==> (holds(n - 1 + 1) <==> good(n - 1));
    }
  }

  lemma RunSnoc(live: bool, b: Book, es: seq<Event>, k: nat)
    requires k < |es|
    ensures Run(live, b, es[..k + 1]) == Step(live, Run(live, b, es[..k]), es[k])
  {
    assert es[..k + 1][..k] == es[..k];
  }

  /** Trade i stands at every moment of a run exactly when it does at the start and no event disturbs it. */
  lemma {:induction false} StandsThroughout(live: bool, b: Book, i: nat, u: Update, es: seq<Event>)
    requires i < |b.trades|
    ensures (forall k :: 0 <= k <= |es| ==> Standing(Run(live, b, es[..k]).trades[i], u)) <==>
            Standing(b.trades[i], u)
            && forall k :: 0 <= k < |es| ==> !Disturbs(live, Run(live, b, es[..k]), i, es[k], u)
  {
    var holds := (k: nat) => k <= |es| && Standing(Run(live, b, es[..k]).trades[i], u);
    var good := (k: nat) => k < |es| && !Disturbs(live, Run(live, b, es[..k]), i, es[k], u);
    forall k | 0 <= k < |es| && holds(k) ensures holds(k + 1) <==> good(k) {
      StandsIffUndisturbed(live, Run(live, b, es[..k]), i, es[k], u);
      RunSnoc(live, b, es, k);
    }
    Throughout(holds, good, |es|);
    assert holds(0) <==> Standing(b.trades[i], u);
    assert forall k :: 0 <= k <= |es| ==> (holds(k) <==> Standing(Run(live, b, es[..k]).trades[i], u));
    assert forall k :: 0 <= k < |es| ==> (good(k) <==> !Disturbs(live, Run(live, b, es[..k]), i, es[k], u));
  }

  /** In live mode with a stop price: a redelivery is ignored at every moment after the first delivery exactly
      when that placed the stop, and no event since completed a leg or dropped the stop, resized the trade, or
      closed it at the market. */
  lemma RedeliveryIgnoredThroughout(b: Book, i: nat, u: Update, es: seq<Event>)
    requires CompletesEntry(b, i, u) && OtherReplies([Webhook(u)] + es, u.id) && b.trades[i].stopLoss > 0.0
    ensures var first := Step(true, b, Webhook(u));
            (forall k :: 0 <= k <= |es| ==> Ignored(true, Run(true, first, es[..k]), u)) <==>
            first.trades[i].sl.Some?
            && forall k :: 0 <= k < |es| ==> !Disturbs(true, Run(true, first, es[..k]), i, es[k], u)
  {
    var first := Step(true, b, Webhook(u));
    var all := [Webhook(u)] + es;
    var _ := StopPriceStep(b, i, Webhook(u));
    forall k | 0 <= k <= |es|
      ensures Ignored(true, Run(true, first, es[..k]), u) <==> Standing(Run(true, first, es[..k]).trades[i], u)
    {
      assert forall m :: 0 <= m <= k ==> ([Webhook(u)] + es[..k])[m] == all[m];
      RedeliveryOverRuns(true, b, i, u, es[..k]);
      var _ := StopPriceStays(first, i, es[..k]);
      GuardedIsStanding(Run(true, first, es[..k]).trades[i], u);
    }
    StandsThroughout(true, first, i, u, es);
    FirstDeliveryProcesses(b, i, u);
  }

  lemma FirstDeliveryProcesses(b: Book, i: nat, u: Update)
    requires CompletesEntry(b, i, u)
    ensures Processed(Step(true, b, Webhook(u)).trades[i], u)
  {
    UpdatesOne(true, b, u);
  }

  lemma StopPriceStep(b: Book, i: nat, e: Event) returns (c: Book)
    requires i < |b.trades|
    ensures c == Step(true, b, e) && c.trades[i].stopLoss == b.trades[i].stopLoss
  {
    c := Step(true, b, e);
    if e.Webhook? {
      UpdatesOne(true, b, e.update);
      UpdateKeepsStopPrice(b.trades[i], e.update);
    } else {
      OthersKeepStopPrice(b, i, e);
    }
  }

  lemma UpdateKeepsStopPrice(t: Trade, v: Update)
    ensures OnUpdate(true, t, v).trade.stopLoss == t.stopLoss
  {
  }

  lemma OthersKeepStopPrice(b: Book, i: nat, e: Event)
    requires i < |b.trades| && !e.Webhook?
    ensures Step(true, b, e).trades[i].stopLoss == b.trades[i].stopLoss
  {
  }

  lemma {:induction false} StopPriceStays(b: Book, i: nat, es: seq<Event>) returns (c: Book)
    requires i < |b.trades|
    ensures c == Run(true, b, es) && c.trades[i].stopLoss == b.trades[i].stopLoss
  {
    if es == [] {
      c := b;
    } else {
      c := StopPriceStays(b, i, es[..|es| - 1]);
      c := StopPriceStep(c, i, es[|es| - 1]);
    }
  }

  // ---------------------------------------------------------------- a closed trade opens again

  /** Closed is not terminal: a redelivery to a trade that is not open opens it again, and in live mode places
      a stop for a position that is gone. */
  lemma RedeliveryReopens(b: Book, i: nat, u: Update, stop: OrderId)
    requires CompletesEntry(b, i, u) && b.trades[i].status != Open && b.trades[i].stopLoss > 0.0
    ensures var after := Step(true, b, Again(u, Some(stop), None));
            && after.trades[i].status == Open && after.trades[i].sl == Some(stop)
            && after.placed == b.placed + [(i, Leg(stop, u.filled))]
  {
    UpdatesOne(true, b, u.(slReply := Some(stop), targetReply := None));
  }

  /** One run in which it happens: the entry completes, the stop fills, and the entry is reported once more. */
  lemma ReopenedAfterStop(t: Trade, b: Book)
    requires Initial(b) && b.trades == [t] && t.brokerId == "e" && t.stopLoss > 0.0 && t.targetPrice > 0.0
    ensures var u := Update("e", Complete, 5, 10.0, Some("s1"), Some("g1"));
            var stopFill := Update("s1", Complete, 5, 9.0, None, None);
            var before := Step(true, Step(true, b, Webhook(u)), Webhook(stopFill));
            var after := Step(true, before, Again(u, Some("s2"), Some("g2")));
            && before.trades[0].status == Closed && before.trades[0].sl == Some("s1")
            && after.trades[0].status == Open && after.trades[0].sl == Some("s2")
            && |after.placed| == 4 && |after.cancels| == 3
  {
    var u := Update("e", Complete, 5, 10.0, Some("s1"), Some("g1"));
    var stopFill := Update("s1", Complete, 5, 9.0, None, None);
    assert "e"[0] != "s1"[0] && "e"[0] != "g1"[0] && "g1"[0] != "s1"[0];
    UpdatesOne(true, b, u);
    var first := Step(true, b, Webhook(u));
    assert first.trades[0].sl == Some("s1") && first.trades[0].target == Some("g1");
    UpdatesOne(true, first, stopFill);
    var before := Step(true, first, Webhook(stopFill));
    UpdatesOne(true, before, u.(slReply := Some("s2"), targetReply := Some("g2")));
  }
}
