/** Live trades, their protective legs, and what each broker event does to them, on values. */
module LiveOrders {
  import opened Common

  type OrderId = string

  datatype Status = Pending | PartiallyFilled | Open | Closed | Rejected | Cancelled

  datatype CloseReason = NotClosed | StopLoss | Target | EntryRejected | EntryCancelled

  datatype Trade = Trade(
    isBuy: bool, hasInstrument: bool, brokerId: OrderId, stopLoss: real, targetPrice: real,
    status: Status, quantity: int, filledQuantity: int, entryPrice: real, averagePrice: real,
    riskAmount: real, exitPrice: real, closeReason: CloseReason, realisedPnl: real,
    sl: Option<OrderId>, target: Option<OrderId>)

  /** A leg the broker accepted: its id and the quantity that was sent. */
  datatype Leg = Leg(id: OrderId, quantity: int)

  /** What one event does: the trade afterwards, ids enqueued for cancellation, legs placed, P&L booked. */
  datatype Effect = Effect(trade: Trade, cancels: seq<OrderId>, legs: seq<Leg>, pnl: Option<real>)

  datatype OrderStatus = Complete | Working | OrderRejected | OrderCancelled | Other

  /** An order update. The replies are the ids the broker answers with should legs be placed. */
  datatype Update = Update(id: OrderId, status: OrderStatus, filled: int, average: real,
                           slReply: Option<OrderId>, targetReply: Option<OrderId>)

  datatype CloseReply = CloseFailed | CloseAccepted(id: Option<OrderId>)

  /** The broker's answer about one leg during reconciliation. */
  datatype LegAnswer = NotComplete | LegComplete(average: real)

  function Ids(o: Option<OrderId>): seq<OrderId> {
    if o.Some? then [o.value] else []
  }

  function LegOf(o: Option<OrderId>, quantity: int): seq<Leg> {
    if o.Some? then [Leg(o.value, quantity)] else []
  }

  /** Placing a leg at a price: nothing without credentials or a positive price, else the broker's reply. */
  function PlaceLeg(live: bool, price: real, reply: Option<OrderId>): Option<OrderId> {
    if live && price > 0.0 then reply else None
  }

  function NetPnl(t: Trade, exit: real): real {
    if t.entryPrice == 0.0 || exit == 0.0 then 0.0
    else
      var gross := (exit - t.entryPrice) * t.filledQuantity as real;
      (if t.isBuy then gross else -gross) - (40.0 + t.entryPrice * t.filledQuantity as real * 0.0005)
  }

  predicate IsLeg(t: Trade, id: OrderId) {
    t.sl == Some(id) || t.target == Some(id)
  }

  predicate Owns(t: Trade, id: OrderId) {
    t.brokerId == id || IsLeg(t, id)
  }

  /** A leg completed: the trade closes, the P&L is booked and the other leg is sent for cancellation. */
  function CloseByLeg(live: bool, t: Trade, isSl: bool, average: real): Effect {
    var pnl := NetPnl(t, average);
    Effect(t.(status := Closed, exitPrice := average, closeReason := if isSl then StopLoss else Target,
              realisedPnl := pnl),
           if live then Ids(if isSl then t.target else t.sl) else [], [], Some(pnl))
  }

  /** Both recorded legs are sent for cancellation and replaced by legs of the present quantity. */
  function Reprotect(live: bool, t: Trade, slReply: Option<OrderId>, targetReply: Option<OrderId>): Effect {
    if !live then Effect(t, [], [], None)
    else
      var sl := PlaceLeg(live, t.stopLoss, slReply);
      var target := PlaceLeg(live, t.targetPrice, targetReply);
      Effect(t.(sl := sl, target := target), Ids(t.sl) + Ids(t.target),
             LegOf(sl, t.quantity) + LegOf(target, t.quantity), None)
  }

  function RiskOf(filled: int, distance: real): real {
    Round2(Worth(filled, distance))
  }

  function PartiallyFill(t: Trade, filled: int, average: real): Trade {
    var entry := if average > 0.0 then average else t.entryPrice;
    var distance := Abs(entry - t.stopLoss);
    t.(status := Open, quantity := filled, filledQuantity := filled, entryPrice := entry,
       riskAmount := if distance > 0.0 then RiskOf(filled, distance) else t.riskAmount)
  }

  /** An update of the entry order is noted on the trade. */
  function Seen(t: Trade, u: Update): Trade {
    if IsLeg(t, u.id) then t else t.(filledQuantity := u.filled, averagePrice := u.average)
  }

  function OnUpdate(live: bool, t: Trade, u: Update): Effect {
    var isLeg := IsLeg(t, u.id);
    var seen := Seen(t, u);
    match u.status
    case Complete =>
      if isLeg then CloseByLeg(live, seen, t.sl == Some(u.id), u.average)
      else if seen.status == Open && seen.sl.Some? && seen.quantity == u.filled then Effect(seen, [], [], None)
      else Reprotect(live, seen.(status := Open, entryPrice := u.average, quantity := u.filled),
                     u.slReply, u.targetReply)
    case Working =>
      if u.filled > 0 then Reprotect(live, PartiallyFill(seen, u.filled, u.average), u.slReply, u.targetReply)
      else Effect(seen, [], [], None)
    case Other => Effect(seen, [], [], None)
    case _ =>
      if isLeg then
        Effect(seen.(sl := if t.sl == Some(u.id) then None else t.sl,
                     target := if t.target == Some(u.id) then None else t.target), [], [], None)
      else if u.filled > 0 then
        Reprotect(live, seen.(status := Open, quantity := u.filled), u.slReply, u.targetReply)
      else
        Effect(seen.(status := Closed,
                     closeReason := if u.status == OrderRejected then EntryRejected else EntryCancelled),
               [], [], None)
  }

  /** Only a leg that is missing is placed. */
  function PlaceMissing(live: bool, recorded: Option<OrderId>, price: real, reply: Option<OrderId>): Option<OrderId> {
    if recorded.Some? then None else PlaceLeg(live, price, reply)
  }

  function WithLeg(placed: Option<OrderId>, before: Option<OrderId>): Option<OrderId> {
    if placed.Some? then placed else before
  }

  /** One attempt of the protection retry: only missing legs are placed, and only while the trade lives. */
  function OnProtect(live: bool, t: Trade, stopLoss: real, targetPrice: real,
                     slReply: Option<OrderId>, targetReply: Option<OrderId>): Effect {
    if t.status in {Closed, Rejected, Cancelled} then Effect(t, [], [], None)
    else
      var sl := PlaceMissing(live, t.sl, stopLoss, slReply);
      var target := PlaceMissing(live, t.target, targetPrice, targetReply);
      Effect(t.(sl := WithLeg(sl, t.sl), target := WithLeg(target, t.target)),
             [], LegOf(sl, t.quantity) + LegOf(target, t.quantity), None)
  }

  /** A market order replaces both legs; its id is recorded in the place of the target leg. */
  function OnMarketClose(live: bool, t: Trade, reply: CloseReply): Effect {
    if !t.hasInstrument || !live then Effect(t, [], [], None)
    else
      var id := if reply.CloseAccepted? then reply.id else None;
      Effect(t.(sl := None, target := id), Ids(t.sl) + Ids(t.target), LegOf(id, t.quantity), None)
  }

  /** Reconciliation of an open trade asks about the stop leg first; the first complete leg closes the trade. */
  function OnReconcile(live: bool, t: Trade, slAnswer: LegAnswer, targetAnswer: LegAnswer): Effect {
    if !live || t.status != Open then Effect(t, [], [], None)
    else if t.sl.Some? && slAnswer.LegComplete? then CloseByLeg(live, t, true, slAnswer.average)
    else if t.target.Some? && targetAnswer.LegComplete? then CloseByLeg(live, t, false, targetAnswer.average)
    else Effect(t, [], [], None)
  }

  // ---------------------------------------------------------------- all trades, and the event log

  /** `placed`, `reported` and `lastFill` are the broker's side of the story: every leg it accepted for each
      trade, every id it reported complete, cancelled or rejected, and the last fill of each entry order. */
  datatype Book = Book(trades: seq<Trade>, cancels: seq<OrderId>, dailyPnl: Option<real>,
                       placed: seq<(nat, Leg)>, reported: set<OrderId>, lastFill: map<nat, int>)

  datatype Event =
    | Webhook(update: Update)
    | Protect(trade: nat, stopLoss: real, targetPrice: real, slReply: Option<OrderId>, targetReply: Option<OrderId>)
    | MarketClose(trade: nat, reply: CloseReply)
    | Reconcile(trade: nat, slAnswer: LegAnswer, targetAnswer: LegAnswer)

  /** The first trade that owns the id; the number of trades when there is none. */
  function Find(trades: seq<Trade>, id: OrderId): (i: nat)
    ensures i <= |trades|
    ensures i < |trades| ==> Owns(trades[i], id)
    ensures forall j :: 0 <= j < i ==> !Owns(trades[j], id)
  {
    if trades == [] then 0 else if Owns(trades[0], id) then 0 else Find(trades[1..], id) + 1
  }

  function Placements(i: nat, legs: seq<Leg>): (ps: seq<(nat, Leg)>)
    ensures |ps| == |legs| && forall k :: 0 <= k < |legs| ==> ps[k] == (i, legs[k])
  {
    seq(|legs|, k requires 0 <= k < |legs| => (i, legs[k]))
  }

  function Booked(dailyPnl: Option<real>, pnl: Option<real>): Option<real> {
    if dailyPnl.Some? && pnl.Some? then Some(Round2(dailyPnl.value + pnl.value)) else dailyPnl
  }

  function Apply(b: Book, i: nat, e: Effect): Book
    requires i < |b.trades|
  {
    b.(trades := b.trades[i := e.trade], cancels := b.cancels + e.cancels, dailyPnl := Booked(b.dailyPnl, e.pnl),
       placed := b.placed + Placements(i, e.legs))
  }

  predicate Final(s: OrderStatus) { s in {Complete, OrderRejected, OrderCancelled} }

  /** The update tells how much of the entry order is filled. */
  predicate EntryFill(t: Trade, u: Update) {
    !IsLeg(t, u.id) && (u.status == Complete || (u.filled > 0 && u.status != Other))
  }

  function ReportedIn(t: Trade, slAnswer: LegAnswer, targetAnswer: LegAnswer): set<OrderId> {
    if t.sl.Some? && slAnswer.LegComplete? then {t.sl.value}
    else if t.target.Some? && targetAnswer.LegComplete? then {t.target.value}
    else {}
  }

  function Step(live: bool, b: Book, e: Event): (r: Book)
    ensures |r.trades| == |b.trades|
  {
    match e
    case Webhook(u) =>
      var i := Find(b.trades, u.id);
      var heard := b.(reported := b.reported + if Final(u.status) then {u.id} else {});
      if i == |b.trades| then heard
      else
        Apply(heard.(lastFill := if EntryFill(b.trades[i], u) then b.lastFill[i := u.filled] else b.lastFill),
              i, OnUpdate(live, b.trades[i], u))
    case Protect(i, stopLoss, targetPrice, slReply, targetReply) =>
      if i >= |b.trades| then b
      else Apply(b, i, OnProtect(live, b.trades[i], stopLoss, targetPrice, slReply, targetReply))
    case MarketClose(i, reply) =>
      if i >= |b.trades| then b else Apply(b, i, OnMarketClose(live, b.trades[i], reply))
    case Reconcile(i, slAnswer, targetAnswer) =>
      if i >= |b.trades| then b
      else
        var t := b.trades[i];
        var heard := if live && t.status == Open then ReportedIn(t, slAnswer, targetAnswer) else {};
        Apply(b.(reported := b.reported + heard), i, OnReconcile(live, t, slAnswer, targetAnswer))
  }

  function Run(live: bool, b: Book, es: seq<Event>): (r: Book)
    ensures |r.trades| == |b.trades|
  {
    if es == [] then b else Step(live, Run(live, b, es[..|es| - 1]), es[|es| - 1])
  }

  /** Registered trades whose entry orders are with the broker; no leg exists yet. */
  predicate Initial(b: Book) {
    && b.cancels == [] && b.placed == [] && b.reported == {} && b.lastFill == map[]
    && forall i :: 0 <= i < |b.trades| ==> b.trades[i].sl == None && b.trades[i].target == None
  }
}
