/** Laws of the live-order machine over all runs of atomic events. */
module LiveOrderTheorems {
  import opened Common
  import opened LiveOrders

  // ---------------------------------------------------------------- no orphaned protective order

  ghost predicate Accounted(b: Book, i: nat, id: OrderId)
    requires i < |b.trades|
  {
    IsLeg(b.trades[i], id) || id in b.cancels || id in b.reported
  }

  ghost predicate NoOrphan(b: Book) {
    forall p :: p in b.placed ==> p.0 < |b.trades| && Accounted(b, p.0, p.1.id)
  }

  /** An effect loses no leg: what it drops from the trade it cancels, and what it places it records. */
  ghost predicate LosesNothing(t: Trade, e: Effect, reported: set<OrderId>) {
    && (forall id :: IsLeg(t, id) ==> IsLeg(e.trade, id) || id in e.cancels || id in reported)
    && (forall l :: l in e.legs ==> IsLeg(e.trade, l.id))
  }

  lemma ReprotectLosesNothing(live: bool, t: Trade, s: Option<OrderId>, g: Option<OrderId>, reported: set<OrderId>)
    ensures LosesNothing(t, Reprotect(live, t, s, g), reported)
  {}

  lemma UpdateLosesNothing(live: bool, t: Trade, u: Update)
    ensures LosesNothing(t, OnUpdate(live, t, u), if Final(u.status) then {u.id} else {})
  {
    var reported := if Final(u.status) then {u.id} else {};
    var seen := if IsLeg(t, u.id) then t else t.(filledQuantity := u.filled, averagePrice := u.average);
    var filled := seen.(status := Open, quantity := u.filled);
    ReprotectLosesNothing(live, filled.(entryPrice := u.average), u.slReply, u.targetReply, reported);
    ReprotectLosesNothing(live, PartiallyFill(seen, u.filled, u.average), u.slReply, u.targetReply, reported);
    ReprotectLosesNothing(live, filled, u.slReply, u.targetReply, reported);
  }

  lemma ProtectLosesNothing(live: bool, t: Trade, stopLoss: real, targetPrice: real,
                            slReply: Option<OrderId>, targetReply: Option<OrderId>)
    ensures LosesNothing(t, OnProtect(live, t, stopLoss, targetPrice, slReply, targetReply), {})
  {}

  lemma MarketCloseLosesNothing(live: bool, t: Trade, reply: CloseReply)
    ensures LosesNothing(t, OnMarketClose(live, t, reply), {})
  {}

  lemma ApplyKeepsNoOrphan(b: Book, i: nat, e: Effect, reported: set<OrderId>)
    requires NoOrphan(b) && i < |b.trades| && LosesNothing(b.trades[i], e, reported)
    ensures NoOrphan(Apply(b.(reported := b.reported + reported), i, e))
  {
    var b' := Apply(b.(reported := b.reported + reported), i, e);
    forall p | p in b'.placed ensures p.0 < |b'.trades| && Accounted(b', p.0, p.1.id) {
      if p in b.placed {
        assert Accounted(b, p.0, p.1.id);
      } else {
        assert p in Placements(i, e.legs);
      }
    }
  }

  lemma StepKeepsNoOrphan(live: bool, b: Book, e: Event)
    requires NoOrphan(b)
    ensures NoOrphan(Step(live, b, e))
  {
    match e
    case Webhook(u) =>
      var i := Find(b.trades, u.id);
      var heard := if Final(u.status) then {u.id} else {};
      if i < |b.trades| {
        UpdateLosesNothing(live, b.trades[i], u);
        var c := b.(lastFill := if EntryFill(b.trades[i], u) then b.lastFill[i := u.filled] else b.lastFill);
        assert NoOrphan(c) by {
          assert forall j: nat, id :: j < |b.trades| && Accounted(b, j, id) ==> Accounted(c, j, id);
        }
        ApplyKeepsNoOrphan(c, i, OnUpdate(live, b.trades[i], u), heard);
      }
    case Protect(i, stopLoss, targetPrice, slReply, targetReply) =>
      if i < |b.trades| {
        ProtectLosesNothing(live, b.trades[i], stopLoss, targetPrice, slReply, targetReply);
        ApplyKeepsNoOrphan(b, i, OnProtect(live, b.trades[i], stopLoss, targetPrice, slReply, targetReply), {});
        assert b.(reported := b.reported + {}) == b;
      }
    case MarketClose(i, reply) =>
      if i < |b.trades| {
        MarketCloseLosesNothing(live, b.trades[i], reply);
        ApplyKeepsNoOrphan(b, i, OnMarketClose(live, b.trades[i], reply), {});
        assert b.(reported := b.reported + {}) == b;
      }
    case Reconcile(i, slAnswer, targetAnswer) =>
      if i < |b.trades| {
        var t := b.trades[i];
        var heard := if live && t.status == Open then ReportedIn(t, slAnswer, targetAnswer) else {};
        ApplyKeepsNoOrphan(b, i, OnReconcile(live, t, slAnswer, targetAnswer), heard);
      }
  }

  /** Over any run of webhooks, protection attempts, market closes and reconciliations, every stop, target
      or close order the broker ever accepted is recorded on its trade, enqueued for cancellation, or
      reported complete, cancelled or rejected. */
  lemma {:induction false} NoOrphanedOrder(live: bool, b: Book, es: seq<Event>)
    requires Initial(b)
    ensures NoOrphan(Run(live, b, es))
  {
    if es != [] {
      NoOrphanedOrder(live, b, es[..|es| - 1]);
      StepKeepsNoOrphan(live, Run(live, b, es[..|es| - 1]), es[|es| - 1]);
    }
  }

  // ---------------------------------------------------------------- leg sizes

  ghost predicate LegsSized(b: Book) {
    forall p :: p in b.placed ==>
      p.0 < |b.trades| && (IsLeg(b.trades[p.0], p.1.id) ==> p.1.quantity == b.trades[p.0].quantity)
  }

  ghost predicate FillsMatch(b: Book) {
    forall i :: i in b.lastFill ==> i < |b.trades| && b.trades[i].quantity == b.lastFill[i]
  }

  ghost predicate Replied(e: Event, id: OrderId) {
    match e
    case Webhook(u) => u.slReply == Some(id) || u.targetReply == Some(id)
    case Protect(_, _, _, s, t) => s == Some(id) || t == Some(id)
    case MarketClose(_, r) => r.CloseAccepted? && r.id == Some(id)
    case Reconcile(_, _, _) => false
  }

  /** The broker never hands out an id twice. */
  ghost predicate FreshIds(b: Book, e: Event) {
    forall p :: p in b.placed ==> !Replied(e, p.1.id)
  }

  /** A partial fill of a protective leg, told apart from one of the entry order by its id. */
  ghost predicate LegPartialFill(b: Book, e: Event) {
    && e.Webhook? && e.update.status == Working && e.update.filled > 0
    && var i := Find(b.trades, e.update.id);
       i < |b.trades| && IsLeg(b.trades[i], e.update.id)
  }

  lemma PlacementsMember(i: nat, legs: seq<Leg>, p: (nat, Leg))
    requires p in Placements(i, legs)
    ensures p.0 == i && p.1 in legs
  {
    var k :| 0 <= k < |legs| && Placements(i, legs)[k] == p;
    assert legs[k] == p.1;
  }

  /** The effect sizes what it places by the quantity it leaves, and keeps an old leg only at its size. */
  ghost predicate Resizes(t: Trade, e: Effect) {
    && (forall l :: l in e.legs ==> l.quantity == e.trade.quantity)
    && (e.trade.quantity == t.quantity
        || forall id :: IsLeg(e.trade, id) ==> exists l :: l in e.legs && l.id == id)
    && (forall id :: IsLeg(e.trade, id) ==> IsLeg(t, id) || exists l :: l in e.legs && l.id == id)
  }

  lemma ApplyKeepsSizes(b: Book, i: nat, e: Effect)
    requires LegsSized(b) && i < |b.trades| && Resizes(b.trades[i], e)
    requires forall p, l :: p in b.placed && l in e.legs ==> l.id != p.1.id
    ensures LegsSized(Apply(b, i, e))
  {
    var b' := Apply(b, i, e);
    forall p | p in b'.placed
      ensures p.0 < |b'.trades| && (IsLeg(b'.trades[p.0], p.1.id) ==> p.1.quantity == b'.trades[p.0].quantity)
    {
      if p !in b.placed { PlacementsMember(i, e.legs, p); }
    }
  }

  lemma LegsOfReprotect(live: bool, t: Trade, s: Option<OrderId>, g: Option<OrderId>)
    requires live
    ensures Resizes(t, Reprotect(live, t, s, g))
    ensures forall l :: l in Reprotect(live, t, s, g).legs ==> s == Some(l.id) || g == Some(l.id)
    ensures forall id :: IsLeg(Reprotect(live, t, s, g).trade, id) ==>
              exists l :: l in Reprotect(live, t, s, g).legs && l.id == id
  {
    var e := Reprotect(live, t, s, g);
    forall id | IsLeg(e.trade, id) ensures exists l :: l in e.legs && l.id == id {
      assert Leg(id, t.quantity) in e.legs;
    }
  }

  lemma UpdateResizes(t: Trade, u: Update)
    ensures var e := OnUpdate(true, t, u);
            Resizes(t, e) && forall l :: l in e.legs ==> u.slReply == Some(l.id) || u.targetReply == Some(l.id)
  {
    var isLeg := IsLeg(t, u.id);
    var seen := if isLeg then t else t.(filledQuantity := u.filled, averagePrice := u.average);
    match u.status
    case Complete =>
      LegsOfReprotect(true, seen.(status := Open, entryPrice := u.average, quantity := u.filled),
                      u.slReply, u.targetReply);
    case Working => LegsOfReprotect(true, PartiallyFill(seen, u.filled, u.average), u.slReply, u.targetReply);
    case Other =>
    case _ => LegsOfReprotect(true, seen.(status := Open, quantity := u.filled), u.slReply, u.targetReply);
  }

  lemma ProtectResizes(t: Trade, stopLoss: real, targetPrice: real, s: Option<OrderId>, g: Option<OrderId>)
    ensures var e := OnProtect(true, t, stopLoss, targetPrice, s, g);
            Resizes(t, e) && forall l :: l in e.legs ==> s == Some(l.id) || g == Some(l.id)
  {
    var e := OnProtect(true, t, stopLoss, targetPrice, s, g);
    forall id | IsLeg(e.trade, id) ensures IsLeg(t, id) || exists l :: l in e.legs && l.id == id {
      if !IsLeg(t, id) { assert Leg(id, t.quantity) in e.legs; }
    }
  }

  lemma MarketCloseResizes(t: Trade, reply: CloseReply)
    ensures var e := OnMarketClose(true, t, reply);
            Resizes(t, e) && forall l :: l in e.legs ==> reply.CloseAccepted? && reply.id == Some(l.id)
  {
    var e := OnMarketClose(true, t, reply);
    forall id | IsLeg(e.trade, id) ensures IsLeg(t, id) || exists l :: l in e.legs && l.id == id {
      if !IsLeg(t, id) { assert Leg(id, t.quantity) in e.legs; }
    }
  }

  lemma StepKeepsSizes(b: Book, e: Event)
    requires LegsSized(b) && FreshIds(b, e)
    ensures LegsSized(Step(true, b, e))
  {
    match e
    case Webhook(u) =>
      var i := Find(b.trades, u.id);
      if i < |b.trades| {
        UpdateResizes(b.trades[i], u);
        ApplyKeepsSizes(b, i, OnUpdate(true, b.trades[i], u));
        assert Step(true, b, e).placed == Apply(b, i, OnUpdate(true, b.trades[i], u)).placed;
        assert Step(true, b, e).trades == Apply(b, i, OnUpdate(true, b.trades[i], u)).trades;
      }
    case Protect(i, stopLoss, targetPrice, s, g) =>
      if i < |b.trades| {
        ProtectResizes(b.trades[i], stopLoss, targetPrice, s, g);
        ApplyKeepsSizes(b, i, OnProtect(true, b.trades[i], stopLoss, targetPrice, s, g));
      }
    case MarketClose(i, reply) =>
      if i < |b.trades| {
        MarketCloseResizes(b.trades[i], reply);
        ApplyKeepsSizes(b, i, OnMarketClose(true, b.trades[i], reply));
      }
    case Reconcile(i, slAnswer, targetAnswer) =>
      if i < |b.trades| {
        var f := OnReconcile(true, b.trades[i], slAnswer, targetAnswer);
        ApplyKeepsSizes(b, i, f);
        assert Step(true, b, e).placed == Apply(b, i, f).placed && Step(true, b, e).trades == Apply(b, i, f).trades;
      }
  }

  /** An update sets the quantity to what it says was filled, of the entry order or, partially, of a leg. */
  lemma QuantityAfterUpdate(t: Trade, u: Update)
    ensures OnUpdate(true, t, u).trade.quantity ==
            if EntryFill(t, u) || (IsLeg(t, u.id) && u.status == Working && u.filled > 0) then u.filled else t.quantity
  {
  }

  lemma OtherEventsKeepQuantity(b: Book, e: Event)
    requires !e.Webhook?
    ensures var c := Step(true, b, e);
            c.lastFill == b.lastFill && forall j :: 0 <= j < |b.trades| ==> c.trades[j].quantity == b.trades[j].quantity
  {
  }

  /** Exactly one kind of event makes a trade's quantity differ from the last reported fill of its entry
      order: a partial fill of one of its own protective legs, by another amount. */
  lemma FillsMatchExactly(b: Book, e: Event)
    requires FillsMatch(b)
    ensures FillsMatch(Step(true, b, e)) <==>
            !(LegPartialFill(b, e) && var i := Find(b.trades, e.update.id);
              i in b.lastFill && e.update.filled != b.lastFill[i])
  {
    if e.Webhook? {
      UpdateFillsMatch(b, e.update);
    } else {
      OtherEventsKeepQuantity(b, e);
    }
  }

  lemma UpdateFillsMatch(b: Book, u: Update)
    requires FillsMatch(b)
    ensures FillsMatch(Step(true, b, Webhook(u))) <==>
            !(LegPartialFill(b, Webhook(u)) && var i := Find(b.trades, u.id);
              i in b.lastFill && u.filled != b.lastFill[i])
  {
    var i := Find(b.trades, u.id);
    if i < |b.trades| {
      var c := Step(true, b, Webhook(u));
      QuantityAfterUpdate(b.trades[i], u);
      assert c.trades == b.trades[i := OnUpdate(true, b.trades[i], u).trade];
      assert c.lastFill == if EntryFill(b.trades[i], u) then b.lastFill[i := u.filled] else b.lastFill;
      assert i in c.lastFill ==> (i in b.lastFill || EntryFill(b.trades[i], u));
    }
  }

  /** Every leg a trade records was placed for it. */
  ghost predicate Recorded(b: Book) {
    forall i, id :: 0 <= i < |b.trades| && IsLeg(b.trades[i], id) ==> WasPlaced(b, i, id)
  }

  ghost predicate WasPlaced(b: Book, i: nat, id: OrderId) {
    exists p :: p in b.placed && p.0 == i && p.1.id == id
  }

  /** The trade records no leg that it did not record before and that the effect did not place. */
  ghost predicate RecordsOnlyPlaced(t: Trade, e: Effect) {
    forall id :: IsLeg(e.trade, id) ==> IsLeg(t, id) || exists l :: l in e.legs && l.id == id
  }

  lemma ReprotectRecords(live: bool, t: Trade, s: Option<OrderId>, g: Option<OrderId>)
    ensures RecordsOnlyPlaced(t, Reprotect(live, t, s, g))
  {
    if live { LegsOfReprotect(live, t, s, g); }
  }

  /** The same leg ids. */
  predicate SameIds(t: Trade, u: Trade) { t.sl == u.sl && t.target == u.target }

  lemma RecordsAsBefore(t: Trade, u: Trade, e: Effect)
    requires SameIds(t, u) && RecordsOnlyPlaced(u, e)
    ensures RecordsOnlyPlaced(t, e)
  {
  }

  lemma UpdateRecords(live: bool, t: Trade, u: Update)
    ensures RecordsOnlyPlaced(t, OnUpdate(live, t, u))
  {
    var seen := Seen(t, u);
    var filled := seen.(status := Open, entryPrice := u.average, quantity := u.filled);
    var partly := PartiallyFill(seen, u.filled, u.average);
    var kept := seen.(status := Open, quantity := u.filled);
    ReprotectRecords(live, filled, u.slReply, u.targetReply);
    ReprotectRecords(live, partly, u.slReply, u.targetReply);
    ReprotectRecords(live, kept, u.slReply, u.targetReply);
    RecordsAsBefore(t, filled, Reprotect(live, filled, u.slReply, u.targetReply));
    RecordsAsBefore(t, partly, Reprotect(live, partly, u.slReply, u.targetReply));
    RecordsAsBefore(t, kept, Reprotect(live, kept, u.slReply, u.targetReply));
  }

  lemma ProtectRecords(live: bool, t: Trade, stopLoss: real, targetPrice: real, s: Option<OrderId>, g: Option<OrderId>)
    ensures RecordsOnlyPlaced(t, OnProtect(live, t, stopLoss, targetPrice, s, g))
  {
    if live { ProtectResizes(t, stopLoss, targetPrice, s, g); }
  }

  lemma MarketCloseRecords(live: bool, t: Trade, reply: CloseReply)
    ensures RecordsOnlyPlaced(t, OnMarketClose(live, t, reply))
  {
    if live { MarketCloseResizes(t, reply); }
  }

  lemma ApplyKeepsRecorded(b: Book, i: nat, e: Effect)
    requires Recorded(b) && i < |b.trades| && RecordsOnlyPlaced(b.trades[i], e)
    ensures Recorded(Apply(b, i, e))
  {
    var c := Apply(b, i, e);
    forall j, id | 0 <= j < |c.trades| && IsLeg(c.trades[j], id) ensures WasPlaced(c, j, id) {
      if IsLeg(b.trades[j], id) {
        assert WasPlaced(b, j, id);
      } else {
        var l :| l in e.legs && l.id == id;
        var k :| 0 <= k < |e.legs| && e.legs[k] == l;
        assert c.placed[|b.placed| + k] == (i, l);
      }
    }
  }

  lemma StepKeepsRecorded(live: bool, b: Book, e: Event)
    requires Recorded(b)
    ensures Recorded(Step(live, b, e))
  {
    match e
    case Webhook(u) =>
      var i := Find(b.trades, u.id);
      if i < |b.trades| {
        UpdateRecords(live, b.trades[i], u);
        ApplyKeepsRecorded(b, i, OnUpdate(live, b.trades[i], u));
        SameLegs(Apply(b, i, OnUpdate(live, b.trades[i], u)), Step(live, b, e));
      } else {
        SameLegs(b, Step(live, b, e));
      }
    case Protect(i, stopLoss, targetPrice, s, g) =>
      if i < |b.trades| {
        ProtectRecords(live, b.trades[i], stopLoss, targetPrice, s, g);
        ApplyKeepsRecorded(b, i, OnProtect(live, b.trades[i], stopLoss, targetPrice, s, g));
      }
    case MarketClose(i, reply) =>
      if i < |b.trades| {
        MarketCloseRecords(live, b.trades[i], reply);
        ApplyKeepsRecorded(b, i, OnMarketClose(live, b.trades[i], reply));
      }
    case Reconcile(i, slAnswer, targetAnswer) =>
      if i < |b.trades| {
        var f := OnReconcile(live, b.trades[i], slAnswer, targetAnswer);
        ApplyKeepsRecorded(b, i, f);
        SameLegs(Apply(b, i, f), Step(live, b, e));
      }
  }

  lemma SameLegs(b: Book, c: Book)
    requires Recorded(b) && c.trades == b.trades && c.placed == b.placed
    ensures Recorded(c)
  {
    forall i, id | 0 <= i < |c.trades| && IsLeg(c.trades[i], id) ensures WasPlaced(c, i, id) {
      assert WasPlaced(b, i, id);
    }
  }

  /** In every run, live or not, a trade records only legs that were placed for it. */
  lemma {:induction false} RecordedLegsWerePlaced(live: bool, b: Book, es: seq<Event>)
    requires Initial(b)
    ensures Recorded(Run(live, b, es))
  {
    if es != [] {
      RecordedLegsWerePlaced(live, b, es[..|es| - 1]);
      StepKeepsRecorded(live, Run(live, b, es[..|es| - 1]), es[|es| - 1]);
    }
  }

  ghost predicate GoodRun(b: Book, es: seq<Event>) {
    es == [] ||
    (&& GoodRun(b, es[..|es| - 1])
     && var s := Run(true, b, es[..|es| - 1]);
        FreshIds(s, es[|es| - 1]) && !LegPartialFill(s, es[|es| - 1]))
  }

  lemma {:induction false} RunsSizeLegs(b: Book, es: seq<Event>)
    requires Initial(b) && GoodRun(b, es)
    ensures LegsSized(Run(true, b, es)) && FillsMatch(Run(true, b, es))
  {
    if es != [] {
      RunsSizeLegs(b, es[..|es| - 1]);
      var s := Run(true, b, es[..|es| - 1]);
      StepKeepsSizes(s, es[|es| - 1]);
      FillsMatchExactly(s, es[|es| - 1]);
    }
  }

  /** In live mode, when partial fills concern entry orders: each leg a trade records was placed with the
      trade's quantity, and once the entry order reported a fill, that quantity is the last fill reported. */
  lemma {:induction false} LegsMatchLastFill(b: Book, es: seq<Event>)
    requires Initial(b) && GoodRun(b, es)
    ensures var c := Run(true, b, es);
            && (forall i, id :: 0 <= i < |c.trades| && IsLeg(c.trades[i], id) ==>
                  (i, Leg(id, c.trades[i].quantity)) in c.placed)
            && (forall i :: i in c.lastFill ==> i < |c.trades| && c.trades[i].quantity == c.lastFill[i])
  {
    RunsSizeLegs(b, es);
    RecordedLegsWerePlaced(true, b, es);
    var c := Run(true, b, es);
    forall i, id | 0 <= i < |c.trades| && IsLeg(c.trades[i], id)
      ensures (i, Leg(id, c.trades[i].quantity)) in c.placed
    {
      assert WasPlaced(c, i, id);
    }
  }
}
