/** Admission of signals by any number of workers: the section under the lease lock that reads the open
    trades, adds the live reservations, runs the rules and reserves. Reads of single reservations interleave
    with expiry and release; the lock is the lease protocol itself. */
module RiskAdmission {
  import opened Common
  import opened RedisKeys
  import opened RiskRules
  import opened Reservations
  import Lock = RedisLock

  const LOCK: string := "risk_eval:portfolio"

  /** Open trades plus live reservations. */
  function Loaded(open: Portfolio, seen: seq<Row>): Portfolio {
    if Risk(seen) > 0.0
    then open.(openPositions := open.openPositions + |seen|, committedRisk := open.committedRisk + Risk(seen),
               openValues := open.openValues + Notionals(seen))
    else open
  }

  /** The reservations after a signal went through the section. */
  function Admitted(book: Book, c: Config, counts: Counts, g: Signal, p: Portfolio, day: nat, others: Rule -> Status,
                    id: string, now: int): Book
  {
    if !Approves(c, counts, g, p, day, others) then book
    else
      var s := Granted(c, counts, g, p, day, others);
      if s.riskAmount <= 0.0 then book
      else book[id := Entry(Reservation(s.riskAmount, Worth(s.quantity, g.entry)), now + RESERVATION_TTL_MS)]
  }

  class RiskEngineWorker {
    const engine: RiskEngine
    const reservations: RiskReservations

    constructor (engine: RiskEngine, reservations: RiskReservations)
      ensures this.engine == engine && this.reservations == reservations
    {
      this.engine, this.reservations := engine, reservations;
    }

    /** The locked section; `keys` is what SCAN returned, in its order. */
    method Evaluate(g: Signal, open: Portfolio, keys: seq<string>, day: nat, others: Rule -> Status,
                    state: DailyRiskState, id: string, now: int)
      returns (published: Option<Sizing>)
      modifies engine, reservations, state
      ensures var p := Loaded(open, Found(keys, old(reservations.book), now));
              && reservations.book
                 == Admitted(old(reservations.book), engine.config, old(engine.counts), g, p, day, others, id, now)
              && published == if Approves(engine.config, old(engine.counts), g, p, day, others)
                              then Some(Granted(engine.config, old(engine.counts), g, p, day, others)) else None
    {
      var total, notionals := reservations.TotalReserved(keys, now);
      var p := open;
      if total > 0.0 {
        p := p.(openPositions := p.openPositions + |notionals|, committedRisk := p.committedRisk + total,
                openValues := p.openValues + notionals);
      }
      assert p == Loaded(open, Found(keys, reservations.book, now));
      var outcome := engine.Validate(g, p, day, others, state);
      published := None;
      if outcome.Approved? {
        var s := outcome.sizing.value;
        if s.riskAmount > 0.0 {
          reservations.Reserve(id, s.riskAmount, Worth(s.quantity, g.entry), now);
        }
        published := outcome.sizing;
      }
    }
  }

  // ---------------------------------------------------------------- the protocol

  /** A worker between its scan and its decision: keys still to read, reservations read. `nonce` names the
      lock tenure the scan belongs to. */
  datatype Work = Work(nonce: Lock.Nonce, open: Portfolio, todo: seq<string>, seen: seq<Row>)

  datatype State = State(lock: Lock.State, book: Book, works: map<nat, Work>)

  datatype Step =
    | LockStep(e: Lock.Step)                                    // time, starts, tries, releases, crashes
    | Scan(p: nat, open: Portfolio, keys: seq<string>)          // load the portfolio, list the keys
    | Get(p: nat)                                               // read one reservation
    | Decide(p: nat, id: string, g: Signal, counts: Counts, day: nat, others: Rule -> Status)
    | Release(id: string)                                       // the auto-trader is done with a signal

  const INITIAL := State(Lock.INITIAL, map[], map[])

  predicate InSection(s: State, p: nat) {
    Lock.Leased(s.lock, p) && s.lock.processes[p].name == LOCK
  }

  /** The worker's scan belongs to its present tenure. */
  predicate Working(s: State, p: nat) {
    InSection(s, p) && p in s.works && s.works[p].nonce == s.lock.processes[p].nonce
  }

  /** Sections run within their lease; SCAN lists every key that is there, perhaps more, perhaps twice. */
  predicate Enabled(s: State, e: Step, balance: real) {
    match e
    case LockStep(_) => true
    case Scan(p, open, keys) =>
      InSection(s, p) && open.balance == balance && open.openPositions >= 0 && open.committedRisk >= 0.0
      && forall k :: k in s.book ==> k in keys
    case Get(p) => Working(s, p) && |s.works[p].todo| > 0
    case Decide(p, _, _, _, _, _) => Working(s, p) && |s.works[p].todo| == 0
    case Release(_) => true
  }

  function Read(w: Work, book: Book, now: int): Work
    requires |w.todo| > 0
  {
    var k := w.todo[0];
    w.(todo := w.todo[1..], seen := if AliveAt(book, k, now) then w.seen + [Row(k, book[k].value)] else w.seen)
  }

  function Next(s: State, e: Step, c: Config, balance: real): State {
    if !Enabled(s, e, balance) then s
    else match e
      case LockStep(l) => s.(lock := Lock.Next(s.lock, l))
      case Scan(p, open, keys) => s.(works := s.works[p := Work(s.lock.processes[p].nonce, open, keys, [])])
      case Get(p) => s.(works := s.works[p := Read(s.works[p], s.book, s.lock.now)])
      case Decide(p, id, g, counts, day, others) =>
        var w := s.works[p];
        s.(book := Admitted(s.book, c, counts, g, Loaded(w.open, w.seen), day, others, id, s.lock.now),
           works := s.works - {p})
      case Release(id) => s.(book := s.book - {id})
  }

  ghost function Run(es: seq<Step>, c: Config, balance: real): State {
    if es == [] then INITIAL else Next(Run(es[..|es| - 1], c, balance), es[|es| - 1], c, balance)
  }

  // ---------------------------------------------------------------- invariants

  ghost predicate PositiveBook(book: Book) {
    forall k :: k in book ==> book[k].value.risk > 0.0 && book[k].value.notional >= 0.0
  }

  ghost predicate Covers(w: Work, book: Book, now: int) {
    forall id :: AliveAt(book, id, now) ==> id in w.todo || Row(id, book[id].value) in w.seen
  }

  ghost predicate SoundWork(s: State, p: nat, w: Work, balance: real) {
    && Positive(w.seen) && w.open.balance == balance && w.open.openPositions >= 0 && w.open.committedRisk >= 0.0
    && w.nonce < s.lock.nextNonce
    && (p in s.lock.processes && s.lock.processes[p].nonce == w.nonce ==> s.lock.processes[p].phase.Holding?)
    && (Working(s, p) ==> Covers(w, s.book, s.lock.now))
  }

  ghost predicate Inv(s: State, balance: real) {
    && Lock.Inv(s.lock) && PositiveBook(s.book)
    && forall p :: p in s.works ==> SoundWork(s, p, s.works[p], balance)
  }

  lemma OneSection(s: State, p: nat, q: nat)
    requires Lock.Inv(s.lock) && InSection(s, p) && InSection(s, q)
    ensures p == q
  {
  }

  lemma LockKeeps(s: State, l: Lock.Step, balance: real)
    requires Inv(s, balance)
    ensures Inv(s.(lock := Lock.Next(s.lock, l)), balance) && s.lock.now <= Lock.Next(s.lock, l).now
  {
    Lock.FreshStep(s.lock, l);
    Lock.BackedStep(s.lock, l);
    var t := s.(lock := Lock.Next(s.lock, l));
    forall p | p in t.works ensures SoundWork(t, p, t.works[p], balance) {
      assert SoundWork(s, p, s.works[p], balance);
      TenureStep(s.lock, l, p, s.works[p].nonce);
    }
  }

  /** A tenure that has begun neither begins anew nor comes back. */
  lemma TenureStep(s: Lock.State, l: Lock.Step, p: nat, nonce: Lock.Nonce)
    requires nonce < s.nextNonce
             && (p in s.processes && s.processes[p].nonce == nonce ==> s.processes[p].phase.Holding?)
    ensures var t := Lock.Next(s, l);
            && s.now <= t.now && s.nextNonce <= t.nextNonce
            && (p in t.processes && t.processes[p].nonce == nonce ==>
                  p in s.processes && t.processes[p] == s.processes[p])
  {
  }

  lemma ReadKeeps(w: Work, book: Book, now: int)
    requires |w.todo| > 0 && PositiveBook(book) && Positive(w.seen) && Covers(w, book, now)
    ensures Positive(Read(w, book, now).seen) && Covers(Read(w, book, now), book, now)
  {
    var r := Read(w, book, now);
    forall id | AliveAt(book, id, now) ensures id in r.todo || Row(id, book[id].value) in r.seen {
      if id == w.todo[0] {
        assert r.seen[|r.seen| - 1] == Row(id, book[id].value);
      } else if Row(id, book[id].value) !in w.seen {
        assert id in w.todo && w.todo == [w.todo[0]] + r.todo;
      } else {
        assert Row(id, book[id].value) in w.seen && w.seen <= r.seen;
      }
    }
  }

  lemma AdmittedIsPositive(book: Book, c: Config, counts: Counts, g: Signal, p: Portfolio, day: nat,
                           others: Rule -> Status,
                           id: string, now: int)
    requires PositiveBook(book)
    ensures PositiveBook(Admitted(book, c, counts, g, p, day, others, id, now))
  {
    if Approves(c, counts, g, p, day, others) {
      ApprovalFits(c, counts, g, p, day, others);
      ValueIsCapped(c, g, p);
    }
  }

  lemma StepKeeps(s: State, e: Step, c: Config, balance: real)
    requires Inv(s, balance)
    ensures Inv(Next(s, e, c, balance), balance)
  {
    if Enabled(s, e, balance) {
      var t := Next(s, e, c, balance);
      match e
      case LockStep(l) => LockKeeps(s, l, balance);
      case Scan(p, open, keys) =>
        forall q | q in t.works ensures SoundWork(t, q, t.works[q], balance) {
          if q != p { assert SoundWork(s, q, s.works[q], balance); }
        }
      case Get(p) =>
        forall q | q in t.works ensures SoundWork(t, q, t.works[q], balance) {
          assert SoundWork(s, q, s.works[q], balance);
          if q == p { ReadKeeps(s.works[p], s.book, s.lock.now); }
        }
      case Decide(p, id, g, counts, day, others) =>
        AdmittedIsPositive(s.book, c, counts, g, Loaded(s.works[p].open, s.works[p].seen), day, others, id, s.lock.now);
        forall q | q in t.works ensures SoundWork(t, q, t.works[q], balance) {
          assert SoundWork(s, q, s.works[q], balance);
          if Working(t, q) { OneSection(s, p, q); }
        }
      case Release(id) =>
        forall q | q in t.works ensures SoundWork(t, q, t.works[q], balance) {
          assert SoundWork(s, q, s.works[q], balance);
        }
    }
  }

  lemma {:induction false} RunKeeps(es: seq<Step>, c: Config, balance: real)
    ensures Inv(Run(es, c, balance), balance)
  {
    if es != [] {
      RunKeeps(es[..|es| - 1], c, balance);
      StepKeeps(Run(es[..|es| - 1], c, balance), es[|es| - 1], c, balance);
    }
  }

  // ---------------------------------------------------------------- the limits

  /** What rounding the reserved amount to hundredths may add. */
  function Slack(c: Config, balance: real): (r: real)
    ensures r <= 0.005
  {
    Round2Close(TradeRisk(c, balance));
    Round2(TradeRisk(c, balance)) - TradeRisk(c, balance)
  }

  /** Any choice of live reservations, from none to all, keeps within the risk limit and the slots. */
  ghost predicate Capped(s: State, c: Config, balance: real) {
    forall rows :: Among(rows, s.book, s.lock.now) && rows != [] ==>
      Risk(rows) <= RiskLimit(c, balance) + Slack(c, balance) && |rows| <= c.maxConcurrent
  }

  /** Reservations other than the new one were all seen by its section. */
  lemma {:induction false} OthersWereSeen(s: State, p: nat, id: string, rows: seq<Row>, book: Book, balance: real)
    requires Inv(s, balance) && Working(s, p) && |s.works[p].todo| == 0
    requires Among(rows, book, s.lock.now) && forall i :: 0 <= i < |rows| ==> rows[i].id != id
    requires forall k :: k != id && k in book ==> k in s.book && book[k] == s.book[k]
    ensures |rows| <= |s.works[p].seen|
            && Risk(rows) <= Risk(s.works[p].seen) && Notional(rows) <= Notional(s.works[p].seen)
  {
    var w := s.works[p];
    assert SoundWork(s, p, w, balance);
    forall r | r in rows ensures r in w.seen {
      assert AliveAt(s.book, r.id, s.lock.now);
    }
    PartIsLess(rows, w.seen);
  }

  lemma AmongWithout(rows: seq<Row>, book: Book, now: int, k: nat)
    requires Among(rows, book, now) && k < |rows|
    ensures Among(Without(rows, k), book, now)
    ensures forall i :: 0 <= i < |Without(rows, k)| ==> Without(rows, k)[i].id != rows[k].id
  {
    var w := Without(rows, k);
    forall i | 0 <= i < |w| ensures w[i] == if i < k then rows[i] else rows[i + 1] {}
  }

  /** What the portfolio shows the rules includes everything seen. */
  lemma LoadedCounts(open: Portfolio, seen: seq<Row>)
    requires Positive(seen)
    ensures var p := Loaded(open, seen);
            && p.balance == open.balance && p.openPositions == open.openPositions + |seen|
            && p.committedRisk == open.committedRisk + Risk(seen)
            && Sum(p.openValues) == Sum(open.openValues) + Notional(seen)
  {
    NotNegative(seen);
    SumConcat(open.openValues, Notionals(seen));
  }

  /** An approval leaves room for everything the portfolio showed and the new position. */
  lemma ApprovalLeavesRoom(c: Config, counts: Counts, g: Signal, open: Portfolio, seen: seq<Row>, day: nat,
                           others: Rule -> Status, n: nat, risk: real, notional: real)
    requires Positive(seen) && Approves(c, counts, g, Loaded(open, seen), day, others)
    requires n <= |seen| && risk <= Risk(seen) && notional <= Notional(seen)
    ensures var added := Granted(c, counts, g, Loaded(open, seen), day, others);
            && open.openPositions + n + 1 <= c.maxConcurrent
            && open.committedRisk + risk + added.riskAmount <= RiskLimit(c, open.balance) + Slack(c, open.balance)
            && Sum(open.openValues) + notional + Worth(added.quantity, g.entry)
               < ExposureCap(c, open.balance) + Max(PositionCap(c, open.balance), g.entry)
  {
    var loaded := Loaded(open, seen);
    LoadedCounts(open, seen);
    ApprovalFits(c, counts, g, loaded, day, others);
    ValueIsCapped(c, g, loaded);
  }

  /** A decision changes no other reservation. */
  lemma DecideTouchesOne(book: Book, c: Config, counts: Counts, g: Signal, p: Portfolio, day: nat,
                         others: Rule -> Status,
                         id: string, now: int)
    ensures var t := Admitted(book, c, counts, g, p, day, others, id, now);
            forall k :: k != id ==> (k in t <==> k in book) && (k in t ==> t[k] == book[k])
  {
  }

  lemma AmountIsClose(c: Config, g: Signal, p: Portfolio)
    requires CheckSize(c, g, p).sizing.Some?
    ensures var amount := CheckSize(c, g, p).sizing.value.riskAmount;
            p.balance * c.riskPerTrade - 0.005 <= amount <= p.balance * c.riskPerTrade + 0.005
  {
    Round2Close(TradeRisk(c, p.balance));
  }

  /** The reservation holds the amount and the value of the shares, and lives for two minutes. */
  ghost predicate Reserves(book: Book, id: string, amount: real, quantity: int, price: real, now: int) {
    && id in book && book[id].value.risk == amount && book[id].value.notional == quantity as real * price
    && forall later :: AliveAt(book, id, later) <==> later < now + 120_000
  }

  lemma {:induction false} AdmittedReserves(book: Book, c: Config, counts: Counts, g: Signal, p: Portfolio, day: nat,
                                            others: Rule -> Status, id: string, now: int)
    requires Approves(c, counts, g, p, day, others)
    ensures var t, s := Admitted(book, c, counts, g, p, day, others, id, now), Granted(c, counts, g, p, day, others);
            && p.balance * c.riskPerTrade - 0.005 <= s.riskAmount <= p.balance * c.riskPerTrade + 0.005
            && (s.riskAmount > 0.0 ==> Reserves(t, id, s.riskAmount, s.quantity, g.entry, now))
            && (s.riskAmount <= 0.0 ==> t == book)
  {
    ApprovalFits(c, counts, g, p, day, others);
    AmountIsClose(c, g, p);
  }

  /** An approval reserves the amount at risk, to the hundredth, and the value of the granted shares; a refusal
      changes no reservation. */
  lemma {:induction false} ReservesWhatItGrants(s: State, p: nat, id: string, g: Signal, counts: Counts, day: nat,
                                                others: Rule -> Status, c: Config, balance: real)
    requires Working(s, p) && |s.works[p].todo| == 0
    ensures var loaded := Loaded(s.works[p].open, s.works[p].seen);
            var t := Next(s, Decide(p, id, g, counts, day, others), c, balance);
            if !Approves(c, counts, g, loaded, day, others) then t.book == s.book
            else
              var granted := Granted(c, counts, g, loaded, day, others);
              var exact := loaded.balance * c.riskPerTrade;
              && exact - 0.005 <= granted.riskAmount <= exact + 0.005
              && (granted.riskAmount > 0.0 ==>
                    Reserves(t.book, id, granted.riskAmount, granted.quantity, g.entry, s.lock.now))
              && (granted.riskAmount <= 0.0 ==> t.book == s.book)
  {
    var loaded := Loaded(s.works[p].open, s.works[p].seen);
    if Approves(c, counts, g, loaded, day, others) {
      AdmittedReserves(s.book, c, counts, g, loaded, day, others, id, s.lock.now);
    }
  }

  /** Right after an approval, open trades, all other live reservations and the new position together fit
      the slots, the risk limit up to rounding, and the exposure cap up to one position. */
  lemma {:induction false} ApprovalFitsAll(s: State, p: nat, id: string, g: Signal, counts: Counts,
                                           day: nat, others: Rule -> Status,
                        c: Config, balance: real, rows: seq<Row>)
    requires Inv(s, balance) && Working(s, p) && |s.works[p].todo| == 0
    requires var w := s.works[p]; Approves(c, counts, g, Loaded(w.open, w.seen), day, others)
    requires var t := Next(s, Decide(p, id, g, counts, day, others), c, balance); Among(rows, t.book, t.lock.now)
    requires forall i :: 0 <= i < |rows| ==> rows[i].id != id
    ensures var open := s.works[p].open;
            var added := Granted(c, counts, g, Loaded(open, s.works[p].seen), day, others);
            && open.openPositions + |rows| + 1 <= c.maxConcurrent
            && open.committedRisk + Risk(rows) + added.riskAmount <= RiskLimit(c, balance) + Slack(c, balance)
            && Sum(open.openValues) + Notional(rows) + Worth(added.quantity, g.entry)
               < ExposureCap(c, balance) + Max(PositionCap(c, balance), g.entry)
  {
    var w := s.works[p];
    var t := Next(s, Decide(p, id, g, counts, day, others), c, balance);
    assert SoundWork(s, p, w, balance);
    DecideTouchesOne(s.book, c, counts, g, Loaded(w.open, w.seen), day, others, id, s.lock.now);
    OthersWereSeen(s, p, id, rows, t.book, balance);
    ApprovalLeavesRoom(c, counts, g, w.open, w.seen, day, others, |rows|, Risk(rows), Notional(rows));
  }

  /** A decision keeps the cap: its own reservation apart, all live ones were seen. */
  lemma {:induction false} DecideKeepsCap(s: State, e: Step, c: Config, balance: real)
    requires e.Decide? && Inv(s, balance) && Capped(s, c, balance) && Enabled(s, e, balance)
    ensures Capped(Next(s, e, c, balance), c, balance)
  {
    var t := Next(s, e, c, balance);
    var w := s.works[e.p];
    assert SoundWork(s, e.p, w, balance);
    if Approves(c, e.counts, e.g, Loaded(w.open, w.seen), e.day, e.others) {
      forall rows: seq<Row> | Among(rows, t.book, t.lock.now) && rows != []
        ensures Risk(rows) <= RiskLimit(c, balance) + Slack(c, balance) && |rows| <= c.maxConcurrent
      {
        if k: int :| 0 <= k < |rows| && rows[k].id == e.id {
          AmongWithout(rows, t.book, t.lock.now, k);
          TotalsWithout(rows, k);
          ApprovalFitsAll(s, e.p, e.id, e.g, e.counts, e.day, e.others, c, balance, Without(rows, k));
        } else {
          assert Among(rows, s.book, s.lock.now);
        }
      }
    }
  }

  lemma ShrinkingKeepsCap(s: State, t: State, c: Config, balance: real)
    requires Capped(s, c, balance) && s.lock.now <= t.lock.now
    requires forall k :: k in t.book ==> k in s.book && t.book[k] == s.book[k]
    ensures Capped(t, c, balance)
  {
    forall rows: seq<Row> | Among(rows, t.book, t.lock.now) && rows != []
      ensures Risk(rows) <= RiskLimit(c, balance) + Slack(c, balance) && |rows| <= c.maxConcurrent
    {
      assert Among(rows, s.book, s.lock.now);
    }
  }

  lemma {:induction false} RunIsCapped(es: seq<Step>, c: Config, balance: real)
    ensures Capped(Run(es, c, balance), c, balance)
  {
    if es == [] {
      forall rows: seq<Row> | Among(rows, INITIAL.book, 0) ensures rows == [] {
        assert rows == [] || AliveAt(INITIAL.book, rows[0].id, 0);
      }
    } else {
      var us, e := es[..|es| - 1], es[|es| - 1];
      var s := Run(us, c, balance);
      RunIsCapped(us, c, balance);
      RunKeeps(us, c, balance);
      if Enabled(s, e, balance) {
        if e.Decide? {
          DecideKeepsCap(s, e, c, balance);
        } else {
          if e.LockStep? { LockKeeps(s, e.e, balance); }
          ShrinkingKeepsCap(s, Next(s, e, c, balance), c, balance);
        }
      }
    }
  }

  /** In every reachable state the live reservations number at most max_concurrent_positions, and their risk
      exceeds the limit by no more than the rounding of one amount: not at all when that rounds down, and
      never by more than half a hundredth. */
  lemma {:induction false} ReservationsAreCapped(es: seq<Step>, c: Config, balance: real, rows: seq<Row>)
    requires var s := Run(es, c, balance); Among(rows, s.book, s.lock.now) && rows != []
    ensures |rows| <= c.maxConcurrent
    ensures Risk(rows) <= RiskLimit(c, balance) + Slack(c, balance) <= RiskLimit(c, balance) + 0.005
    ensures Round2(TradeRisk(c, balance)) <= TradeRisk(c, balance) ==> Risk(rows) <= RiskLimit(c, balance)
  {
    RunIsCapped(es, c, balance);
  }

  /** The sizing rule compares the exact amount and reserves the rounded one. Whatever is committed already, an
      approval never ends above the limit exactly when the amount does not round up. */
  lemma CapIsExactIffNotRoundedUp(distance: real, tradeRisk: real, limit: real)
    requires distance != 0.0 && FloorDiv(tradeRisk, distance) >= 1 && tradeRisk <= limit
    ensures (forall committed :: committed >= 0.0 && Size(distance, tradeRisk, committed, limit).sizing.Some? ==>
               committed + Size(distance, tradeRisk, committed, limit).sizing.value.riskAmount <= limit)
            <==> Round2(tradeRisk) <= tradeRisk
  {
    var most := Size(distance, tradeRisk, limit - tradeRisk, limit);
    assert most.sizing.Some? && most.sizing.value.riskAmount == Round2(tradeRisk);
  }

  /** Such an approval: 5.006 of 5.006 allowed is granted, and 5.01 reserved. */
  lemma RoundingCanExceed()
    ensures var g := Signal("S", 100.0, 99.0, 1.0, false);
            var c := Config(0.0, 1.0, 0.005, 0.005, 1.0, 1.0, 10, 3);
            var p := Portfolio(1001.2, 0, [], 0.0);
            && Approves(c, map[], g, p, 0, r => Pass) && RiskLimit(c, p.balance) == 5.006
            && Granted(c, map[], g, p, 0, r => Pass) == Sizing(5, 5.01)
  {
  }
}
