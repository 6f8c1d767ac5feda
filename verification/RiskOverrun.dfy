/** When live reservations can exceed the risk limit: every reservation is for the same rounded amount, so it is a
    matter of how many of them fit, and every number that fits is reached by some run. */
module RiskOverrun {
  import opened Common
  import opened RedisKeys
  import opened RiskRules
  import opened Reservations
  import opened RiskAdmission
  import Lock = RedisLock

  /** What every approval reserves. */
  function Unit(c: Config, balance: real): real { Round2(TradeRisk(c, balance)) }

  /** The n-th of n reservations is approved: beside the others there is a slot, and room for the exact amount. */
  predicate Room(c: Config, balance: real, n: int) {
    && TradeRisk(c, balance) > 0.0 && n <= c.maxConcurrent
    && Worth(n - 1, Unit(c, balance)) + TradeRisk(c, balance) <= RiskLimit(c, balance)
  }

  /** So are n reservations approved, but together they exceed the limit. */
  predicate Overruns(c: Config, balance: real, n: int) {
    n >= 1 && Room(c, balance, n) && RiskLimit(c, balance) < Worth(n, Unit(c, balance))
  }

  // ---------------------------------------------------------------- what every run keeps

  ghost predicate Even(book: Book, risk: real) {
    forall k :: k in book ==> book[k].value.risk == risk
  }

  ghost predicate Roomy(s: State, c: Config, balance: real) {
    forall rows :: Among(rows, s.book, s.lock.now) && rows != [] ==> Room(c, balance, |rows|)
  }

  lemma {:induction false} EvenRisk(rows: seq<Row>, book: Book, now: int, risk: real)
    requires Among(rows, book, now) && Even(book, risk)
    ensures Risk(rows) == Worth(|rows|, risk)
  {
    if rows != [] {
      EvenRisk(rows[..|rows| - 1], book, now, risk);
      OneMoreUnit(|rows| - 1, risk);
    }
  }

  lemma OneMoreUnit(n: int, risk: real)
    ensures Worth(n + 1, risk) == Worth(n, risk) + risk && Worth(0, risk) == 0.0 && Worth(1, risk) == risk
  {
    assert (n + 1) as real == n as real + 1.0;
  }

  lemma UnitIsGranted(c: Config, counts: Counts, g: Signal, p: Portfolio, day: nat, others: Rule -> Status)
    requires Approves(c, counts, g, p, day, others)
    ensures Granted(c, counts, g, p, day, others).riskAmount == Unit(c, p.balance) && TradeRisk(c, p.balance) > 0.0
  {
    ApprovalFits(c, counts, g, p, day, others);
    var distance, risk := Abs(g.entry - g.stop), TradeRisk(c, p.balance);
    FloorQuotient(risk, distance, 1);
  }

  lemma AdmittedIsEven(s: State, e: Step, c: Config, balance: real)
    requires Inv(s, balance) && e.Decide? && Enabled(s, e, balance) && Even(s.book, Unit(c, balance))
    ensures Even(Next(s, e, c, balance).book, Unit(c, balance))
  {
    var w := s.works[e.p];
    assert SoundWork(s, e.p, w, balance);
    LoadedCounts(w.open, w.seen);
    if Approves(c, e.counts, e.g, Loaded(w.open, w.seen), e.day, e.others) {
      UnitIsGranted(c, e.counts, e.g, Loaded(w.open, w.seen), e.day, e.others);
    }
  }

  /** The others of a new reservation were all seen, and counted at the unit each. */
  lemma NewOneHasRoom(s: State, e: Step, c: Config, balance: real, book: Book, others: seq<Row>, n: int)
    requires Inv(s, balance) && e.Decide? && Enabled(s, e, balance) && Even(book, Unit(c, balance))
    requires var w := s.works[e.p]; Approves(c, e.counts, e.g, Loaded(w.open, w.seen), e.day, e.others)
    requires forall k :: k != e.id && k in book ==> k in s.book && book[k] == s.book[k]
    requires Among(others, book, s.lock.now) && forall i :: 0 <= i < |others| ==> others[i].id != e.id
    requires n == |others| + 1
    ensures Room(c, balance, n)
  {
    var w := s.works[e.p];
    assert SoundWork(s, e.p, w, balance);
    LoadedCounts(w.open, w.seen);
    OthersWereSeen(s, e.p, e.id, others, book, balance);
    ApprovalFits(c, e.counts, e.g, Loaded(w.open, w.seen), e.day, e.others);
    UnitIsGranted(c, e.counts, e.g, Loaded(w.open, w.seen), e.day, e.others);
    EvenRisk(others, book, s.lock.now, Unit(c, balance));
  }

  lemma OldRowsHadRoom(s: State, book: Book, id: string, c: Config, balance: real, rows: seq<Row>)
    requires Roomy(s, c, balance) && Among(rows, book, s.lock.now) && rows != []
    requires forall i :: 0 <= i < |rows| ==> rows[i].id != id
    requires forall k :: k != id && k in book ==> k in s.book && book[k] == s.book[k]
    ensures Room(c, balance, |rows|)
  {
    assert Among(rows, s.book, s.lock.now);
  }

  lemma RowsHaveRoom(s: State, e: Step, c: Config, balance: real, book: Book, rows: seq<Row>)
    requires Inv(s, balance) && e.Decide? && Enabled(s, e, balance) && Roomy(s, c, balance)
    requires Even(book, Unit(c, balance))
    requires var w := s.works[e.p]; Approves(c, e.counts, e.g, Loaded(w.open, w.seen), e.day, e.others)
    requires forall k :: k != e.id && k in book ==> k in s.book && book[k] == s.book[k]
    requires Among(rows, book, s.lock.now) && rows != []
    ensures Room(c, balance, |rows|)
  {
    if k: int :| 0 <= k < |rows| && rows[k].id == e.id {
      AmongWithout(rows, book, s.lock.now, k);
      NewOneHasRoom(s, e, c, balance, book, Without(rows, k), |rows|);
    } else {
      OldRowsHadRoom(s, book, e.id, c, balance, rows);
    }
  }

  lemma {:induction false} DecideKeepsRoom(s: State, e: Step, c: Config, balance: real)
    requires Inv(s, balance) && e.Decide? && Enabled(s, e, balance) && Roomy(s, c, balance)
    requires Even(Next(s, e, c, balance).book, Unit(c, balance))
    ensures Roomy(Next(s, e, c, balance), c, balance)
  {
    var t := Next(s, e, c, balance);
    var w := s.works[e.p];
    if Approves(c, e.counts, e.g, Loaded(w.open, w.seen), e.day, e.others) {
      DecideTouchesOne(s.book, c, e.counts, e.g, Loaded(w.open, w.seen), e.day, e.others, e.id, s.lock.now);
      forall rows: seq<Row> | Among(rows, t.book, t.lock.now) && rows != [] ensures Room(c, balance, |rows|) {
        RowsHaveRoom(s, e, c, balance, t.book, rows);
      }
    }
  }

  lemma ShrinkingKeepsRoom(s: State, t: State, c: Config, balance: real)
    requires Roomy(s, c, balance) && Even(s.book, Unit(c, balance)) && s.lock.now <= t.lock.now
    requires forall k :: k in t.book ==> k in s.book && t.book[k] == s.book[k]
    ensures Roomy(t, c, balance) && Even(t.book, Unit(c, balance))
  {
    forall rows: seq<Row> | Among(rows, t.book, t.lock.now) && rows != [] ensures Room(c, balance, |rows|) {
      assert Among(rows, s.book, s.lock.now);
    }
  }

  lemma {:induction false} RunHasRoom(es: seq<Step>, c: Config, balance: real)
    ensures Roomy(Run(es, c, balance), c, balance) && Even(Run(es, c, balance).book, Unit(c, balance))
  {
    if es == [] {
      forall rows: seq<Row> | Among(rows, INITIAL.book, 0) ensures rows == [] {
        assert rows == [] || AliveAt(INITIAL.book, rows[0].id, 0);
      }
    } else {
      var us, e := es[..|es| - 1], es[|es| - 1];
      var s := Run(us, c, balance);
      RunHasRoom(us, c, balance);
      RunKeeps(us, c, balance);
      if Enabled(s, e, balance) {
        if e.Decide? {
          AdmittedIsEven(s, e, c, balance);
          DecideKeepsRoom(s, e, c, balance);
        } else {
          if e.LockStep? { LockKeeps(s, e.e, balance); }
          ShrinkingKeepsRoom(s, Next(s, e, c, balance), c, balance);
        }
      }
    }
  }

  /** In every reachable state n live reservations carry n times the unit, and had room. */
  lemma {:induction false} LiveHaveRoom(es: seq<Step>, c: Config, balance: real, rows: seq<Row>)
    requires var s := Run(es, c, balance); Among(rows, s.book, s.lock.now) && rows != []
    ensures Risk(rows) == Worth(|rows|, Unit(c, balance)) && Room(c, balance, |rows|)
  {
    RunHasRoom(es, c, balance);
    var s := Run(es, c, balance);
    EvenRisk(rows, s.book, s.lock.now, Unit(c, balance));
  }

  // ---------------------------------------------------------------- every number that has room is reached

  /** Different signals. */
  function Name(k: nat): string { if k == 0 then "s" else Name(k - 1) + "s" }

  lemma {:induction false} NamesDiffer(j: nat, k: nat)
    ensures |Name(k)| == k + 1
    ensures j != k ==> Name(j) != Name(k)
  {
    NameLength(j);
    NameLength(k);
  }

  lemma {:induction false} NameLength(k: nat)
    ensures |Name(k)| == k + 1
  {
    if k > 0 { NameLength(k - 1); }
  }

  function Names(k: nat): seq<string> { if k == 0 then [] else Names(k - 1) + [Name(k - 1)] }

  /** k reservations made at one moment. */
  function Made(k: nat, value: Reservation): Book {
    if k == 0 then map[] else Made(k - 1, value)[Name(k - 1) := Entry(value, RESERVATION_TTL_MS)]
  }

  function Copies(k: nat, value: Reservation): (rows: seq<Row>)
    ensures |rows| == k && forall i :: 0 <= i < k ==> rows[i] == Row(Name(i), value)
  {
    seq(k, i requires 0 <= i < k => Row(Name(i), value))
  }

  lemma {:induction false} NamesInOrder(k: nat)
    ensures |Names(k)| == k && forall i :: 0 <= i < k ==> Names(k)[i] == Name(i)
  {
    if k > 0 { NamesInOrder(k - 1); }
  }

  lemma {:induction false} MadeHasNames(k: nat, value: Reservation)
    ensures forall x :: x in Made(k, value) <==> x in Names(k)
  {
    if k > 0 { MadeHasNames(k - 1, value); }
  }

  lemma {:induction false} MadeHasValue(k: nat, value: Reservation)
    ensures forall x :: x in Made(k, value) ==> Made(k, value)[x] == Entry(value, RESERVATION_TTL_MS)
  {
    if k > 0 { MadeHasValue(k - 1, value); }
  }

  lemma {:induction false} MadeAreNamed(k: nat, value: Reservation)
    ensures |Names(k)| == k && forall i :: 0 <= i < k ==> Names(k)[i] == Name(i)
    ensures forall x :: x in Made(k, value) ==> x in Names(k)
    ensures forall i :: 0 <= i < k ==>
              Name(i) in Made(k, value) && Made(k, value)[Name(i)] == Entry(value, RESERVATION_TTL_MS)
  {
    NamesInOrder(k);
    MadeHasNames(k, value);
    MadeHasValue(k, value);
    forall i | 0 <= i < k ensures Name(i) in Made(k, value) { assert Names(k)[i] in Names(k); }
  }

  function AllPass(r: Rule): Status { Pass }

  /** The setting of the runs below: the signal every worker gets, and the open trades every one finds. */
  datatype Scene = Scene(c: Config, balance: real, g: Signal, open: Portfolio, value: Reservation)

  function Shown(w: Scene, k: nat): Portfolio { Loaded(w.open, Copies(k, w.value)) }

  /** With k reservations made, the signal is approved and reserves the same value again. */
  ghost predicate Ready(w: Scene, k: nat) {
    && w.open.balance == w.balance && w.open.openPositions >= 0 && w.open.committedRisk >= 0.0
    && Approves(w.c, map[], w.g, Shown(w, k), 0, AllPass)
    && var added := Granted(w.c, map[], w.g, Shown(w, k), 0, AllPass);
       added.riskAmount > 0.0 && w.value == Reservation(added.riskAmount, Worth(added.quantity, w.g.entry))
  }

  function Free(k: nat): Lock.State { Lock.State(0, map[], map[], k) }

  function Held(k: nat): Lock.State {
    Lock.State(0, map[LOCK := Entry(k, 1)], map[0 := Lock.Process(LOCK, 1, k, Lock.Holding(0))], k + 1)
  }

  lemma EnterAndLeave(k: nat)
    ensures Lock.Next(Lock.Next(Free(k), Lock.Start(0, LOCK, 1)), Lock.Try(0)) == Held(k)
    ensures Lock.Next(Held(k), Lock.Release(0)) == Free(k + 1)
  {
    var entering := Lock.Next(Free(k), Lock.Start(0, LOCK, 1));
    assert entering.processes == map[0 := Lock.Process(LOCK, 1, k, Lock.Spinning(0))];
    assert Held(k).store - {LOCK} == map[] && Held(k).processes - {0} == map[];
  }

  lemma Then(es: seq<Step>, e: Step, c: Config, balance: real)
    ensures Run(es + [e], c, balance) == Next(Run(es, c, balance), e, c, balance)
  {
    assert (es + [e])[..|es|] == es;
  }

  /** Between rounds, and within one after i reads. */
  function Idle(w: Scene, k: nat): State { State(Free(k), Made(k, w.value), map[]) }

  function Reading(w: Scene, k: nat, i: nat): State
    requires i <= |Names(k)|
  {
    State(Held(k), Made(k, w.value), map[0 := Progress(w, k, i)])
  }

  lemma StartsReading(w: Scene, k: nat, es: seq<Step>) returns (more: seq<Step>)
    requires Ready(w, k) && Run(es, w.c, w.balance) == Idle(w, k)
    ensures Run(more, w.c, w.balance) == Reading(w, k, 0)
  {
    EnterAndLeave(k);
    MadeAreNamed(k, w.value);
    var a, b, d := LockStep(Lock.Start(0, LOCK, 1)), LockStep(Lock.Try(0)), Scan(0, w.open, Names(k));
    Then(es, a, w.c, w.balance);
    Then(es + [a], b, w.c, w.balance);
    Then(es + [a] + [b], d, w.c, w.balance);
    more := es + [a] + [b] + [d];
    assert Names(k)[0..] == Names(k) && Copies(0, w.value) == [];
  }

  function Progress(w: Scene, k: nat, i: nat): Work
    requires i <= |Names(k)|
  {
    Work(k, w.open, Names(k)[i..], Copies(i, w.value))
  }

  lemma ReadsRow(w: Scene, k: nat, i: nat)
    requires i < k == |Names(k)|
    ensures Read(Progress(w, k, i), Made(k, w.value), 0) == Progress(w, k, i + 1)
  {
    MadeAreNamed(k, w.value);
    assert Names(k)[i..][0] == Name(i) && Names(k)[i..][1..] == Names(k)[i + 1..];
    assert Copies(i, w.value) + [Row(Name(i), w.value)] == Copies(i + 1, w.value);
  }

  lemma ReadsOne(w: Scene, k: nat, i: nat)
    requires i < k == |Names(k)|
    ensures Next(Reading(w, k, i), Get(0), w.c, w.balance) == Reading(w, k, i + 1)
  {
    ReadsRow(w, k, i);
    var s := Reading(w, k, i);
    assert s.works[0] == Progress(w, k, i) && |s.works[0].todo| > 0 && Working(s, 0);
    assert s.works[0 := Progress(w, k, i + 1)] == map[0 := Progress(w, k, i + 1)];
  }

  lemma {:induction false} ReadsAll(w: Scene, k: nat, i: nat, es: seq<Step>) returns (more: seq<Step>)
    requires i <= k == |Names(k)| && Run(es, w.c, w.balance) == Reading(w, k, i)
    ensures Run(more, w.c, w.balance) == Reading(w, k, k)
    decreases k - i
  {
    if i == k {
      more := es;
    } else {
      ReadsOne(w, k, i);
      Then(es, Get(0), w.c, w.balance);
      more := ReadsAll(w, k, i + 1, es + [Get(0)]);
    }
  }

  /** One more worker goes through the section. */
  lemma OneMoreRound(w: Scene, k: nat, es: seq<Step>) returns (more: seq<Step>)
    requires Ready(w, k) && Run(es, w.c, w.balance) == Idle(w, k)
    ensures Run(more, w.c, w.balance) == Idle(w, k + 1)
  {
    MadeAreNamed(k, w.value);
    var started := StartsReading(w, k, es);
    var read := ReadsAll(w, k, 0, started);
    Decides(w, k);
    var d, l := Decide(0, Name(k), w.g, map[], 0, AllPass), LockStep(Lock.Release(0));
    Then(read, d, w.c, w.balance);
    Then(read + [d], l, w.c, w.balance);
    more := read + [d] + [l];
  }

  lemma Admits(w: Scene, k: nat)
    requires Ready(w, k)
    ensures Admitted(Made(k, w.value), w.c, map[], w.g, Shown(w, k), 0, AllPass, Name(k), 0) == Made(k + 1, w.value)
  {
  }

  lemma DecisionLeaves(s: State, w: Work, id: string, g: Signal, c: Config, balance: real)
    requires s.works == map[0 := w] && w.todo == [] && Working(s, 0)
    ensures Next(s, Decide(0, id, g, map[], 0, AllPass), c, balance)
            == State(s.lock, Admitted(s.book, c, map[], g, Loaded(w.open, w.seen), 0, AllPass, id, s.lock.now), map[])
  {
    assert s.works - {0} == map[];
  }

  lemma DecisionIsMade(w: Scene, k: nat)
    requires Ready(w, k) && |Names(k)| == k
    ensures Next(Reading(w, k, k), Decide(0, Name(k), w.g, map[], 0, AllPass), w.c, w.balance)
            == State(Held(k), Made(k + 1, w.value), map[])
  {
    Admits(w, k);
    DecisionLeaves(Reading(w, k, k), Progress(w, k, k), Name(k), w.g, w.c, w.balance);
  }

  lemma Decides(w: Scene, k: nat)
    requires Ready(w, k)
    ensures |Names(k)| == k
    ensures Next(Next(Reading(w, k, k), Decide(0, Name(k), w.g, map[], 0, AllPass), w.c, w.balance),
                 LockStep(Lock.Release(0)), w.c, w.balance) == Idle(w, k + 1)
  {
    MadeAreNamed(k, w.value);
    DecisionIsMade(w, k);
    EnterAndLeave(k);
  }

  /** As long as the signal is approved, a run makes any number of reservations. */
  lemma {:induction false} Reaches(w: Scene, n: nat) returns (es: seq<Step>)
    requires forall k: nat :: k < n ==> Ready(w, k)
    ensures Run(es, w.c, w.balance) == Idle(w, n)
  {
    if n == 0 {
      es := [];
    } else {
      es := Reaches(w, n - 1);
      es := OneMoreRound(w, n - 1, es);
    }
  }

  lemma CopiesAreLive(n: nat, value: Reservation)
    ensures Among(Copies(n, value), Made(n, value), 0)
  {
    MadeAreNamed(n, value);
    forall i: nat, j: nat | i < j < n ensures Name(i) != Name(j) { NamesDiffer(i, j); }
  }

  // ---------------------------------------------------------------- a scene for any number that has room

  lemma {:induction false} CopiesAddUp(k: nat, value: Reservation)
    ensures Risk(Copies(k, value)) == Worth(k, value.risk) && Notional(Copies(k, value)) == Worth(k, value.notional)
  {
    if k > 0 {
      CopiesAddUp(k - 1, value);
      assert Copies(k, value) == Copies(k - 1, value) + [Row(Name(k - 1), value)];
      TotalsSnoc(Copies(k - 1, value), Row(Name(k - 1), value));
      OneMoreUnit(k - 1, value.risk);
      OneMoreUnit(k - 1, value.notional);
    } else {
      assert Copies(0, value) == [];
    }
  }

  lemma PassingIsApproved(c: Config, g: Signal, p: Portfolio)
    requires CheckVolatility(c, g) == PASS && CheckSize(c, g, p).status == Pass
    requires CheckConcurrent(c, p) == PASS && CheckExposure(c, p) == PASS
    ensures Approves(c, map[], g, p, 0, AllPass)
  {
    forall i | 0 <= i < |RULES| ensures Verdict(RULES[i], c, map[], g, p, 0, AllPass).status == Pass {
    }
  }

  /** One share, at whatever price, whose stop is the trade's risk away. */
  function OneShare(c: Config, risk: real, entry: real): Signal {
    Signal("s", entry, entry + risk, c.maxAtr * entry, true)
  }

  lemma OneShareIsCalm(c: Config, risk: real, entry: real)
    requires entry > 0.0
    ensures CheckVolatility(c, OneShare(c, risk, entry)) == PASS
  {
    var atr := c.maxAtr * entry;
    assert atr / entry == c.maxAtr;
  }

  lemma OneShareIsSized(risk: real, committed: real, limit: real)
    requires risk > 0.0 && committed + risk <= limit
    ensures Size(risk, risk, committed, limit) == Decision(Pass, "", Some(Sizing(1, Round2(risk))))
  {
    assert risk / risk == 1.0;
  }

  lemma ProductsGrow(k: nat, n: nat, x: real)
    requires k <= n && x >= 0.0
    ensures 0.0 <= Worth(k, x) <= Worth(n, x)
  {
    if x > 0.0 {
      Scales(k as real, n as real, x);
      Scales(0.0, k as real, x);
    } else {
      assert Worth(k, x) == 0.0 && Worth(n, x) == 0.0;
    }
  }

  /** Open trades that leave some exposure, and a price at which n shares fit into it. */
  function Values(cap: real): seq<real> { if cap > 0.0 then [] else [cap - 1.0] }

  lemma SomeExposure(cap: real, n: nat) returns (entry: real)
    requires n >= 1
    ensures entry > 0.0 && Sum(Values(cap)) + Worth(n - 1, entry) < cap
  {
    var gap := if cap > 0.0 then cap else 1.0;
    assert cap <= 0.0 ==> Values(cap)[..0] == [];
    assert gap == cap - Sum(Values(cap));
    entry := gap / n as real;
    assert entry * n as real == gap;
    OneMoreUnit(n - 1, entry);
  }

  function SceneAt(c: Config, balance: real, entry: real): Scene {
    Scene(c, balance, OneShare(c, TradeRisk(c, balance), entry),
          Portfolio(balance, 0, Values(ExposureCap(c, balance)), 0.0), Reservation(Unit(c, balance), entry))
  }

  lemma WhatIsShown(c: Config, balance: real, entry: real, k: nat)
    requires entry > 0.0 && Unit(c, balance) > 0.0
    ensures var p := Shown(SceneAt(c, balance, entry), k);
            && p.balance == balance && p.openPositions == k && p.committedRisk == Worth(k, Unit(c, balance))
            && Sum(p.openValues) == Sum(Values(ExposureCap(c, balance))) + Worth(k, entry)
  {
    var w := SceneAt(c, balance, entry);
    CopiesAddUp(k, w.value);
    LoadedCounts(w.open, Copies(k, w.value));
  }

  lemma SceneIsReady(c: Config, balance: real, entry: real, n: nat, k: nat)
    requires k < n && Room(c, balance, n) && Unit(c, balance) > 0.0 && entry > 0.0
    requires Sum(Values(ExposureCap(c, balance))) + Worth(n - 1, entry) < ExposureCap(c, balance)
    ensures Ready(SceneAt(c, balance, entry), k)
  {
    var w := SceneAt(c, balance, entry);
    var p := Shown(w, k);
    var risk := TradeRisk(c, balance);
    WhatIsShown(c, balance, entry, k);
    ProductsGrow(k, n - 1, Unit(c, balance));
    ProductsGrow(k, n - 1, entry);
    OneShareIsCalm(c, risk, entry);
    OneShareIsSized(risk, p.committedRisk, RiskLimit(c, balance));
    assert Abs(w.g.entry - w.g.stop) == risk;
    assert CheckSize(c, w.g, p) == Size(risk, risk, p.committedRisk, RiskLimit(c, balance));
    PassingIsApproved(c, w.g, p);
    CapIsLeast(PositionCap(c, balance), entry, 1);
    OneMoreUnit(0, entry);
  }

  // ---------------------------------------------------------------- the exact condition

  /** n live reservations are reached exactly when there is room for the n-th. */
  lemma {:induction false} ReachedIfRoom(c: Config, balance: real, n: nat) returns (es: seq<Step>, rows: seq<Row>)
    requires n >= 1 && Room(c, balance, n) && Unit(c, balance) > 0.0
    ensures var s := Run(es, c, balance); Among(rows, s.book, s.lock.now)
    ensures |rows| == n && Risk(rows) == Worth(n, Unit(c, balance))
  {
    var entry := SomeExposure(ExposureCap(c, balance), n);
    var w := SceneAt(c, balance, entry);
    forall k: nat | k < n ensures Ready(w, k) { SceneIsReady(c, balance, entry, n, k); }
    es := Reaches(w, n);
    rows := Copies(n, w.value);
    CopiesAreLive(n, w.value);
    CopiesAddUp(n, w.value);
  }

  lemma OverrunUnitIsPositive(c: Config, balance: real, n: int)
    requires Overruns(c, balance, n)
    ensures Unit(c, balance) > 0.0
  {
    OneMoreUnit(n - 1, Unit(c, balance));
  }

  ghost predicate Reached(c: Config, balance: real, es: seq<Step>, rows: seq<Row>, n: nat) {
    var s := Run(es, c, balance);
    Among(rows, s.book, s.lock.now) && |rows| == n
  }

  lemma {:induction false} LiveIsPositive(es: seq<Step>, c: Config, balance: real, rows: seq<Row>)
    requires var s := Run(es, c, balance); Among(rows, s.book, s.lock.now) && rows != []
    ensures Unit(c, balance) > 0.0
  {
    RunKeeps(es, c, balance);
    RunHasRoom(es, c, balance);
    assert AliveAt(Run(es, c, balance).book, rows[0].id, Run(es, c, balance).lock.now);
  }

  /** Some run has n live reservations exactly when the amount rounds to something and the n-th has room. */
  lemma {:induction false} NumberIsReachedIff(c: Config, balance: real, n: nat)
    requires n >= 1
    ensures (exists es, rows :: Reached(c, balance, es, rows, n)) <==> Room(c, balance, n) && Unit(c, balance) > 0.0
  {
    if es, rows :| Reached(c, balance, es, rows, n) {
      LiveHaveRoom(es, c, balance, rows);
      LiveIsPositive(es, c, balance, rows);
    }
    if Room(c, balance, n) && Unit(c, balance) > 0.0 {
      var es, rows := ReachedIfRoom(c, balance, n);
      assert Reached(c, balance, es, rows, n);
    }
  }

  ghost predicate Exceeds(c: Config, balance: real, es: seq<Step>, rows: seq<Row>) {
    var s := Run(es, c, balance);
    Among(rows, s.book, s.lock.now) && rows != [] && RiskLimit(c, balance) < Risk(rows)
  }

  /** Some run has live reservations above the limit exactly when some number of approvals fits at the exact
      amount and not at the rounded one: with T and R for the amount and its rounding, L for the limit and N for
      the slots, when T > 0 and some n from 1 to N has (n - 1) * R + T <= L < n * R. */
  lemma {:induction false} LimitIsExceededIff(c: Config, balance: real)
    ensures (exists es, rows :: Exceeds(c, balance, es, rows)) <==> (exists n :: Overruns(c, balance, n))
  {
    if es, rows :| Exceeds(c, balance, es, rows) {
      LiveHaveRoom(es, c, balance, rows);
      assert Overruns(c, balance, |rows|);
    }
    if n :| Overruns(c, balance, n) {
      OverrunUnitIsPositive(c, balance, n);
      var es, rows := ReachedIfRoom(c, balance, n);
      assert Exceeds(c, balance, es, rows);
    }
  }

  /** One such run: a worker enters, finds nothing, and approves 5.006 of 5.006; 5.01 are reserved. */
  lemma ExceedingRun()
    ensures var c := Config(0.0, 1.0, 0.005, 0.005, 1.0, 1.0, 10, 3);
            var g := Signal("S", 100.0, 99.0, 1.0, false);
            var es := [LockStep(Lock.Start(0, LOCK, 1)), LockStep(Lock.Try(0)),
                       Scan(0, Portfolio(1001.2, 0, [], 0.0), []), Decide(0, "id", g, map[], 0, AllPass)];
            RiskLimit(c, 1001.2) == 5.006 && Exceeds(c, 1001.2, es, [Row("id", Reservation(5.01, 500.0))])
  {
    var c := Config(0.0, 1.0, 0.005, 0.005, 1.0, 1.0, 10, 3);
    var g := Signal("S", 100.0, 99.0, 1.0, false);
    var open := Portfolio(1001.2, 0, [], 0.0);
    var a, b, d, e := LockStep(Lock.Start(0, LOCK, 1)), LockStep(Lock.Try(0)), Scan(0, open, []),
                      Decide(0, "id", g, map[], 0, AllPass);
    Then([], a, c, 1001.2);
    Then([] + [a], b, c, 1001.2);
    Then([] + [a] + [b], d, c, 1001.2);
    Then([] + [a] + [b] + [d], e, c, 1001.2);
    assert [] + [a] + [b] + [d] + [e] == [a, b, d, e];
    EnterAndLeave(0);
    var s := Run([] + [a] + [b] + [d], c, 1001.2);
    assert s == State(Held(0), map[], map[0 := Work(0, open, [], [])]);
    DecisionLeaves(s, Work(0, open, [], []), "id", g, c, 1001.2);
    ApprovedAtTheLimit();
    var row := Row("id", Reservation(5.01, 500.0));
    assert [row][..0] == [] && Risk([row]) == 5.01;
  }

  lemma ApprovedAtTheLimit()
    ensures var c := Config(0.0, 1.0, 0.005, 0.005, 1.0, 1.0, 10, 3);
            Admitted(map[], c, map[], Signal("S", 100.0, 99.0, 1.0, false), Portfolio(1001.2, 0, [], 0.0), 0, AllPass,
                     "id", 0)
            == map["id" := Entry(Reservation(5.01, 500.0), RESERVATION_TTL_MS)]
  {
  }
}
