/** From at-least-once delivery to at-most-once execution: stream consumer, recovery of the pending list, and
    the idempotency gate of the auto-trader, as a machine over interleaved steps on one clock (milliseconds). */
module Delivery {
  import opened Common
  import opened RedisKeys

  const IDLE_MS: int := 10_000
  const STALE_MS: int := 300_000
  const KEY_TTL_MS: int := 900_000
  const MAX_DELIVERIES: nat := 5
  const MAX_RETRIES: nat := 5

  type Id = nat

  /** A stream entry with all the group remembers of it. `deliveries` is 0 until the first delivery, which
      happens at `firstAt` and starts handler run `consumer`. */
  datatype Message = Message(
    publishedAt: int,
    traits: string,                 // what the idempotency key is built from
    deliveries: nat,                // the delivery counter
    firstAt: int,
    consumer: nat,
    pendingSince: Option<int>,      // last delivery, while not acknowledged
    claimed: bool,                  // claimed by recovery, not yet looked at
    starts: nat,                    // handler runs started
    retries: nat,                   // the retry_count key
    dead: bool)                     // written to the dead-letter stream

  /** A handler at work on a message; `first` when the group consumer delivered it. */
  datatype Attempt = Attempt(id: Id, startedAt: int, first: bool, gated: bool)

  datatype Pass = Pass(id: Id, traits: string, at: int)

  datatype State = State(
    now: int,
    messages: map<Id, Message>,
    attempts: map<nat, Attempt>,
    nextAttempt: nat,
    keys: Store<string>,            // executed_signal keys
    passes: seq<Pass>)

  const INITIAL := State(0, map[], map[], 0, map[], [])

  datatype Step =
    | Elapse(ms: nat)
    | Publish(id: Id, traits: string)
    | Deliver(id: Id)               // XREADGROUP ">"
    | Poison(id: Id)                // recovery acknowledges a message delivered too often
    | Claim(id: Id)                 // recovery claims an idle message
    | Look(id: Id)                  // recovery checks its age, then discards it or runs the handler
    | Forget(id: Id)                // recovery dies, or an earlier message of the batch raised
    | Gate(attempt: nat)            // SET NX of the idempotency key
    | Return(attempt: nat)          // the handler returns and the message is acknowledged
    | Raise(attempt: nat)           // the handler raises
    | Crash(attempt: nat)           // the process dies with the handler

  predicate IsStale(publishedAt: int, now: int) { now - publishedAt > STALE_MS }

  predicate Pending(s: State, id: Id) { id in s.messages && s.messages[id].pendingSince.Some? }

  /** When a step can happen. A handler reaches the gate less than `maxDelay` after it started. */
  predicate Enabled(s: State, e: Step, maxDelay: int) {
    match e
    case Elapse(_) => true
    case Publish(id, _) => id !in s.messages
    case Deliver(id) => id in s.messages && s.messages[id].deliveries == 0
    case Poison(id) => Pending(s, id) && s.messages[id].deliveries > MAX_DELIVERIES
    case Claim(id) =>
      Pending(s, id) && s.messages[id].deliveries <= MAX_DELIVERIES
      && s.now - s.messages[id].pendingSince.value >= IDLE_MS && !s.messages[id].claimed
    case Look(id) => id in s.messages && s.messages[id].claimed
    case Forget(id) => id in s.messages && s.messages[id].claimed
    case Gate(a) => a in s.attempts && !s.attempts[a].gated && s.attempts[a].id in s.messages
                    && s.now - s.attempts[a].startedAt < maxDelay
    case Return(a) => a in s.attempts && s.attempts[a].id in s.messages
    case Raise(a) => a in s.attempts && s.attempts[a].id in s.messages
    case Crash(a) => a in s.attempts
  }

  function Started(s: State, id: Id, m: Message, first: bool): State {
    s.(messages := s.messages[id := m.(starts := m.starts + 1)],
       attempts := s.attempts[s.nextAttempt := Attempt(id, s.now, first, false)],
       nextAttempt := s.nextAttempt + 1)
  }

  function With(s: State, id: Id, m: Message): State { s.(messages := s.messages[id := m]) }

  function Acknowledged(m: Message): Message { m.(pendingSince := None) }

  function TakenOver(m: Message, now: int): Message {
    m.(deliveries := m.deliveries + 1, pendingSince := Some(now), claimed := true)
  }

  /** The consumer's except branch: count the failure; beyond five, dead-letter and acknowledge. */
  function Failed(m: Message): Message {
    if m.retries + 1 > MAX_RETRIES then Acknowledged(m.(dead := true, retries := 0))
    else m.(retries := m.retries + 1)
  }

  function Next(s: State, e: Step, maxDelay: int): State {
    if !Enabled(s, e, maxDelay) then s
    else match e
      case Elapse(ms) => s.(now := s.now + ms)
      case Publish(id, traits) => With(s, id, Message(s.now, traits, 0, 0, 0, None, false, 0, 0, false))
      case Deliver(id) =>
        Started(s, id, s.messages[id].(deliveries := 1, firstAt := s.now, consumer := s.nextAttempt,
                                       pendingSince := Some(s.now)), true)
      case Poison(id) => With(s, id, Acknowledged(s.messages[id]))
      case Claim(id) => With(s, id, TakenOver(s.messages[id], s.now))
      case Look(id) =>
        var m := s.messages[id].(claimed := false);
        if IsStale(m.publishedAt, s.now) then With(s, id, Acknowledged(m)) else Started(s, id, m, false)
      case Forget(id) => With(s, id, s.messages[id].(claimed := false))
      case Gate(a) =>
        var id := s.attempts[a].id;
        var traits := s.messages[id].traits;
        var (keys, isNew) := SetIfAbsent(s.keys, traits, "1", KEY_TTL_MS, s.now);
        s.(keys := keys, attempts := s.attempts[a := s.attempts[a].(gated := true)],
           passes := if isNew then s.passes + [Pass(id, traits, s.now)] else s.passes)
      case Return(a) =>
        var id := s.attempts[a].id;
        With(s.(attempts := s.attempts - {a}), id, Acknowledged(s.messages[id]))
      case Raise(a) =>
        var id := s.attempts[a].id;
        With(s.(attempts := s.attempts - {a}), id,
             if s.attempts[a].first then Failed(s.messages[id]) else s.messages[id])
      case Crash(a) => s.(attempts := s.attempts - {a})
  }

  function Run(s: State, es: seq<Step>, maxDelay: int): State {
    if es == [] then s else Next(Run(s, es[..|es| - 1], maxDelay), es[|es| - 1], maxDelay)
  }

  // ---------------------------------------------------------------- what every run keeps

  /** Nothing happens before its cause; the delivery counter bounds the handler runs, strictly while a claim
      waits to be looked at; one retry at most. */
  ghost predicate Sound(m: Message, now: int) {
    && m.publishedAt <= now
    && (m.deliveries > 0 ==> m.publishedAt <= m.firstAt <= now)
    && (m.pendingSince.Some? ==> m.deliveries > 0)
    && m.starts <= m.deliveries <= MAX_DELIVERIES + 1
    && (m.claimed ==> m.starts < m.deliveries)
    && m.retries <= 1 && (m.deliveries == 0 ==> m.retries == 0) && !m.dead
  }

  /** A handler started within the stale limit of the first delivery of its message; the consumer's is the
      only one of its kind, and no retry is counted while it runs. */
  ghost predicate Timely(t: Attempt, a: nat, m: Message, now: int) {
    && m.deliveries > 0 && m.firstAt <= t.startedAt <= now && t.startedAt <= m.firstAt + STALE_MS
    && (t.first ==> m.consumer == a && m.retries == 0)
  }

  ghost predicate Inv(s: State) {
    && (forall id :: id in s.messages ==> Sound(s.messages[id], s.now))
    && (forall a :: a in s.attempts ==>
          var t := s.attempts[a];
          a < s.nextAttempt && t.id in s.messages && Timely(t, a, s.messages[t.id], s.now))
  }

  /** What every step but the gate does to the passes and what they rest on. */
  ghost predicate Extends(s: State, t: State) {
    && s.now <= t.now && t.keys == s.keys && t.passes == s.passes
    && (forall id :: id in s.messages ==>
          && id in t.messages && t.messages[id].traits == s.messages[id].traits
          && (s.messages[id].deliveries > 0 ==>
                t.messages[id].deliveries > 0 && t.messages[id].firstAt == s.messages[id].firstAt))
  }

  ghost predicate Keeps(s: State, t: State) { Inv(t) && Extends(s, t) }

  /** A step that rewrites one message and starts no handler. */
  lemma WithKeeps(s: State, id: Id, m: Message)
    requires Inv(s) && Sound(m, s.now)
    requires id in s.messages ==>
               var o := s.messages[id];
               && m.traits == o.traits && m.consumer == o.consumer && m.retries == o.retries
               && m.firstAt == o.firstAt && (o.deliveries > 0 ==> m.deliveries > 0)
    ensures Keeps(s, With(s, id, m))
  {
  }

  lemma StartKeeps(s: State, id: Id, m: Message, first: bool)
    requires Inv(s) && id in s.messages && Keeps(s, With(s, id, m))
    requires m.starts < m.deliveries && !m.claimed && s.now <= m.firstAt + STALE_MS
    requires first ==> m.consumer == s.nextAttempt && m.retries == 0
    ensures Keeps(s, Started(s, id, m, first))
  {
    var u := With(s, id, m);
    var t := Started(s, id, m, first);
    forall a | a in t.attempts
      ensures a < t.nextAttempt && t.attempts[a].id in t.messages
      ensures Timely(t.attempts[a], a, t.messages[t.attempts[a].id], t.now)
    {
      if a != s.nextAttempt { assert Timely(u.attempts[a], a, u.messages[u.attempts[a].id], u.now); }
    }
    forall i | i in t.messages ensures Sound(t.messages[i], t.now) {
      assert Sound(u.messages[i], u.now);
    }
    assert Extends(s, u) && Extends(u, t);
  }

  lemma DropKeeps(s: State, a: nat)
    requires Inv(s)
    ensures Keeps(s, s.(attempts := s.attempts - {a}))
  {
  }

  lemma DeliverStep(s: State, id: Id)
    requires Inv(s) && Enabled(s, Deliver(id), 0)
    ensures Keeps(s, Next(s, Deliver(id), 0))
  {
    var m := s.messages[id].(deliveries := 1, firstAt := s.now, consumer := s.nextAttempt, pendingSince := Some(s.now));
    assert Keeps(s, With(s, id, m));
    StartKeeps(s, id, m, true);
  }

  lemma LookStep(s: State, id: Id)
    requires Inv(s) && Enabled(s, Look(id), 0)
    ensures Keeps(s, Next(s, Look(id), 0))
  {
    var m := s.messages[id].(claimed := false);
    WithKeeps(s, id, m);
    if IsStale(m.publishedAt, s.now) {
      WithKeeps(s, id, Acknowledged(m));
    } else {
      StartKeeps(s, id, m, false);
    }
  }

  lemma ReturnStep(s: State, a: nat)
    requires Inv(s) && Enabled(s, Return(a), 0)
    ensures Keeps(s, Next(s, Return(a), 0))
  {
    DropKeeps(s, a);
    var id := s.attempts[a].id;
    WithKeeps(s.(attempts := s.attempts - {a}), id, Acknowledged(s.messages[id]));
  }

  lemma RaiseStep(s: State, a: nat)
    requires Inv(s) && Enabled(s, Raise(a), 0)
    ensures Keeps(s, Next(s, Raise(a), 0))
  {
    DropKeeps(s, a);
    var id := s.attempts[a].id;
    var u := s.(attempts := s.attempts - {a});
    assert Timely(s.attempts[a], a, s.messages[id], s.now);
    forall b | b in u.attempts && u.attempts[b].id == id && s.attempts[a].first ensures !u.attempts[b].first {
      assert Timely(s.attempts[b], b, s.messages[id], s.now);
    }
  }

  lemma TakenOverIsSound(m: Message, now: int)
    requires Sound(m, now) && m.pendingSince.Some? && m.deliveries <= MAX_DELIVERIES
    ensures Sound(TakenOver(m, now), now)
  {
  }

  lemma ClaimStep(s: State, id: Id)
    requires Inv(s) && Enabled(s, Claim(id), 0)
    ensures Keeps(s, With(s, id, TakenOver(s.messages[id], s.now)))
  {
    TakenOverIsSound(s.messages[id], s.now);
    WithKeeps(s, id, TakenOver(s.messages[id], s.now));
  }

  lemma AcknowledgeStep(s: State, id: Id)
    requires Inv(s) && id in s.messages
    ensures Keeps(s, With(s, id, Acknowledged(s.messages[id])))
    ensures Keeps(s, With(s, id, s.messages[id].(claimed := false)))
  {
    assert Sound(s.messages[id], s.now);
    WithKeeps(s, id, Acknowledged(s.messages[id]));
    WithKeeps(s, id, s.messages[id].(claimed := false));
  }

  lemma ElapseStep(s: State, ms: nat)
    requires Inv(s)
    ensures Keeps(s, s.(now := s.now + ms)) && Keeps(s, s)
  {
  }

  /** Steps that rewrite one message, and the passing of time. */
  lemma MessageStep(s: State, e: Step) returns (t: State)
    requires Inv(s) && Enabled(s, e, 0) && (e.Elapse? || e.Publish? || e.Poison? || e.Claim? || e.Forget?)
    ensures t == Next(s, e, 0) && Keeps(s, t)
  {
    t := Next(s, e, 0);
    match e
    case Elapse(ms) => ElapseStep(s, ms);
    case Publish(id, traits) => WithKeeps(s, id, Message(s.now, traits, 0, 0, 0, None, false, 0, 0, false));
    case Poison(id) => AcknowledgeStep(s, id);
    case Claim(id) => ClaimStep(s, id);
    case Forget(id) => AcknowledgeStep(s, id);
  }

  /** Steps of a handler, and its start. */
  lemma HandlerStep(s: State, e: Step) returns (t: State)
    requires Inv(s) && Enabled(s, e, 0) && (e.Deliver? || e.Look? || e.Return? || e.Raise? || e.Crash?)
    ensures t == Next(s, e, 0) && Keeps(s, t)
  {
    t := Next(s, e, 0);
    match e
    case Deliver(id) => DeliverStep(s, id);
    case Look(id) => LookStep(s, id);
    case Return(a) => ReturnStep(s, a);
    case Raise(a) => RaiseStep(s, a);
    case Crash(a) => DropKeeps(s, a);
  }

  lemma OnlyGatesAreTimed(s: State, e: Step, maxDelay: int)
    requires !e.Gate?
    ensures Enabled(s, e, maxDelay) == Enabled(s, e, 0) && Next(s, e, maxDelay) == Next(s, e, 0)
  {
  }

  /** Every step but the gate keeps the invariant and only extends what the passes rest on. */
  lemma QuietStep(s: State, e: Step, maxDelay: int)
    requires Inv(s) && !e.Gate?
    ensures Keeps(s, Next(s, e, maxDelay))
  {
    OnlyGatesAreTimed(s, e, maxDelay);
    if !Enabled(s, e, 0) {
      ElapseStep(s, 0);
    } else if e.Deliver? || e.Look? || e.Return? || e.Raise? || e.Crash? {
      var _ := HandlerStep(s, e);
    } else {
      var _ := MessageStep(s, e);
    }
  }

  lemma GateKeeps(s: State, a: nat, maxDelay: int)
    requires Inv(s)
    ensures Inv(Next(s, Gate(a), maxDelay))
  {
  }

  lemma {:induction false} RunKeeps(es: seq<Step>, maxDelay: int)
    ensures Inv(Run(INITIAL, es, maxDelay))
  {
    if es != [] {
      var s, e := Run(INITIAL, es[..|es| - 1], maxDelay), es[|es| - 1];
      RunKeeps(es[..|es| - 1], maxDelay);
      if e.Gate? {
        GateKeeps(s, e.attempt, maxDelay);
      } else {
        QuietStep(s, e, maxDelay);
      }
    }
  }

  /** Whatever happens, a message starts at most six handler runs, and none is ever dead-lettered: the
      consumer reads only new entries, so its retry counter never exceeds one. */
  lemma BoundedAndNeverDeadLettered(es: seq<Step>, maxDelay: int)
    ensures var s := Run(INITIAL, es, maxDelay);
            forall id :: id in s.messages ==>
              var m := s.messages[id];
              m.starts <= 6 && m.retries <= 1 && !m.dead
  {
    RunKeeps(es, maxDelay);
  }

  // ---------------------------------------------------------------- at most once

  const MAX_DELAY_MS: int := KEY_TTL_MS - STALE_MS

  /** A pass came after the first delivery, and its key lives one key life from then. */
  ghost predicate KeyedPass(s: State, p: Pass) {
    && p.id in s.messages && p.traits == s.messages[p.id].traits
    && s.messages[p.id].deliveries > 0 && s.messages[p.id].firstAt <= p.at <= s.now
    && p.traits in s.keys && p.at + KEY_TTL_MS <= s.keys[p.traits].expiresAt
  }

  ghost predicate KeyedPasses(s: State) {
    forall i :: 0 <= i < |s.passes| ==> KeyedPass(s, s.passes[i])
  }

  ghost predicate AtMostOnce(s: State) {
    forall i, j :: 0 <= i < j < |s.passes| ==> s.passes[i].id != s.passes[j].id
  }

  /** Messages with equal traits, whatever their ids, pass at least one key life apart. */
  ghost predicate Spaced(s: State) {
    forall i, j :: 0 <= i < j < |s.passes| && s.passes[i].traits == s.passes[j].traits ==>
      s.passes[i].at + KEY_TTL_MS <= s.passes[j].at
  }

  ghost predicate GateInv(s: State) { KeyedPasses(s) && AtMostOnce(s) && Spaced(s) }

  /** A message that has passed finds its own key alive whenever one of its handlers reaches the gate. */
  lemma PassedMeansShut(s: State, a: nat, p: Pass, maxDelay: int)
    requires maxDelay <= MAX_DELAY_MS
    requires Inv(s) && Enabled(s, Gate(a), maxDelay) && KeyedPass(s, p) && p.id == s.attempts[a].id
    ensures AliveAt(s.keys, s.messages[p.id].traits, s.now)
  {
    assert Timely(s.attempts[a], a, s.messages[p.id], s.now);
  }

  lemma GateStep(s: State, a: nat, maxDelay: int)
    requires maxDelay <= MAX_DELAY_MS
    requires Inv(s) && GateInv(s) && Enabled(s, Gate(a), maxDelay)
    ensures GateInv(Next(s, Gate(a), maxDelay))
  {
    var t := Next(s, Gate(a), maxDelay);
    forall i | 0 <= i < |s.passes| && s.passes[i].id == s.attempts[a].id
      ensures AliveAt(s.keys, s.messages[s.attempts[a].id].traits, s.now)
    {
      PassedMeansShut(s, a, s.passes[i], maxDelay);
    }
    forall i | 0 <= i < |t.passes| ensures KeyedPass(t, t.passes[i]) {
      assert i < |s.passes| ==> KeyedPass(s, s.passes[i]);
    }
  }

  lemma QuietPasses(s: State, t: State)
    requires GateInv(s) && Extends(s, t)
    ensures GateInv(t)
  {
    forall i | 0 <= i < |t.passes| ensures KeyedPass(t, t.passes[i]) {
      assert KeyedPass(s, s.passes[i]);
    }
  }

  lemma {:induction false} RunGated(es: seq<Step>, maxDelay: int)
    requires maxDelay <= MAX_DELAY_MS
    ensures GateInv(Run(INITIAL, es, maxDelay))
  {
    if es != [] {
      var us, e := es[..|es| - 1], es[|es| - 1];
      RunGated(us, maxDelay);
      var s := Run(INITIAL, us, maxDelay);
      RunKeeps(us, maxDelay);
      if e.Gate? {
        if Enabled(s, e, maxDelay) { GateStep(s, e.attempt, maxDelay); }
      } else {
        QuietStep(s, e, maxDelay);
        QuietPasses(s, Next(s, e, maxDelay));
      }
    }
  }

  /** Over any interleaving of deliveries, crashes, claims and redeliveries, when every handler reaches the
      gate less than 600 seconds after it started, one message passes the gate at most once ever, and
      messages with equal traits pass at least 900 seconds apart. */
  lemma ExecutesAtMostOnce(es: seq<Step>, maxDelay: int)
    requires maxDelay <= 600_000
    ensures var s := Run(INITIAL, es, maxDelay);
            && (forall i, j :: 0 <= i < j < |s.passes| ==> s.passes[i].id != s.passes[j].id)
            && (forall i, j :: 0 <= i < j < |s.passes| && s.passes[i].traits == s.passes[j].traits ==>
                  s.passes[i].at + 900_000 <= s.passes[j].at)
  {
    RunGated(es, maxDelay);
  }

  // ---------------------------------------------------------------- the bound is tight

  /** One millisecond more delay is too much: the first handler passes and dies; recovery looks at the message
      exactly at the stale limit, and its handler reaches the gate when the key has just expired. */
  function LateRun(): seq<Step> {
    [Publish(7, "k"), Deliver(7), Gate(0), Crash(0), Elapse(STALE_MS), Claim(7), Look(7), Elapse(MAX_DELAY_MS), Gate(1)]
  }

  /** After the first pass and the crash, the message is pending and its key is set. */
  lemma FirstHalf(d: int)
    requires d > MAX_DELAY_MS
    ensures var es := LateRun();
            Next(Next(Next(Next(INITIAL, es[0], d), es[1], d), es[2], d), es[3], d) ==
            State(0, map[7 := Message(0, "k", 1, 0, 0, Some(0), false, 1, 0, false)], map[], 1,
                  map["k" := Entry("1", KEY_TTL_MS)], [Pass(7, "k", 0)])
  {
    var es := LateRun();
    var s2 := Next(Next(INITIAL, es[0], d), es[1], d);
    var s3 := Next(s2, es[2], d);
    assert s3.passes == [Pass(7, "k", 0)];
    assert s3.attempts - {0} == map[];
  }

  lemma SecondHalf(s: State, d: int)
    requires d > MAX_DELAY_MS
    requires s.now == 0 && s.messages == map[7 := Message(0, "k", 1, 0, 0, Some(0), false, 1, 0, false)]
    requires s.keys == map["k" := Entry("1", KEY_TTL_MS)] && s.nextAttempt == 1
    ensures var es := LateRun();
            Next(Next(Next(Next(Next(s, es[4], d), es[5], d), es[6], d), es[7], d), es[8], d).passes
            == s.passes + [Pass(7, "k", KEY_TTL_MS)]
  {
    var es := LateRun();
    var s6 := Next(Next(s, es[4], d), es[5], d);
    assert s6.messages[7].claimed && s6.now == STALE_MS;
    var s7 := Next(s6, es[6], d);
    assert s7.attempts[1] == Attempt(7, STALE_MS, false, false);
  }

  lemma LaterIsTooLate(d: int)
    requires d > MAX_DELAY_MS
    ensures var s := Run(INITIAL, LateRun(), d); s.passes == [Pass(7, "k", 0), Pass(7, "k", KEY_TTL_MS)]
  {
    LateRunUnfolds(d);
    FirstHalf(d);
    var es := LateRun();
    var s := Next(Next(Next(Next(INITIAL, es[0], d), es[1], d), es[2], d), es[3], d);
    SecondHalf(s, d);
  }

  /** Every run executes each message at most once exactly when the bound on a handler's way to the gate is at
      most 600 seconds. */
  lemma AtMostOnceIff(maxDelay: int)
    ensures (forall es :: AtMostOnce(Run(INITIAL, es, maxDelay))) <==> maxDelay <= 600_000
  {
    if maxDelay <= MAX_DELAY_MS {
      forall es ensures AtMostOnce(Run(INITIAL, es, maxDelay)) { RunGated(es, maxDelay); }
    } else {
      LaterIsTooLate(maxDelay);
      var passes := Run(INITIAL, LateRun(), maxDelay).passes;
      assert |passes| == 2 && passes[0].id == passes[1].id;
      assert !AtMostOnce(Run(INITIAL, LateRun(), maxDelay));
    }
  }

  lemma LateRunUnfolds(d: int)
    ensures var es := LateRun();
            Run(INITIAL, es, d)
            == Next(Next(Next(Next(Next(Next(Next(Next(Next(INITIAL, es[0], d), es[1], d), es[2], d), es[3], d),
                              es[4], d), es[5], d), es[6], d), es[7], d), es[8], d)
  {
    var es := LateRun();
    Prefix(es, 0, d); Prefix(es, 1, d); Prefix(es, 2, d); Prefix(es, 3, d); Prefix(es, 4, d);
    Prefix(es, 5, d); Prefix(es, 6, d); Prefix(es, 7, d); Prefix(es, 8, d);
    assert es[..9] == es && es[..0] == [];
  }

  lemma Prefix(es: seq<Step>, n: nat, d: int)
    requires n < |es|
    ensures Run(INITIAL, es[..n + 1], d) == Next(Run(INITIAL, es[..n], d), es[n], d)
  {
    assert es[..n + 1][..n] == es[..n];
  }

  // ---------------------------------------------------------------- the consumer's bookkeeping

  function Settled(m: Message, raised: bool): Message { if raised then Failed(m) else Acknowledged(m) }

  function SettledAll(entries: map<Id, Message>, batch: seq<Id>, raised: set<Id>): (r: map<Id, Message>)
    requires forall id :: id in batch ==> id in entries
    ensures r.Keys == entries.Keys
  {
    if batch == [] then entries
    else
      var before := SettledAll(entries, batch[..|batch| - 1], raised);
      var id := batch[|batch| - 1];
      before[id := Settled(before[id], id in raised)]
  }

  class StreamConsumer {
    var entries: map<Id, Message>

    constructor (entries: map<Id, Message>)
      ensures this.entries == entries
    {
      this.entries := entries;
    }

    /** One batch: acknowledge what was handled; count each failure, and dead-letter the sixth. */
    method Consume(batch: seq<Id>, raised: set<Id>)
      requires forall id :: id in batch ==> id in entries
      modifies this
      ensures entries == SettledAll(old(entries), batch, raised)
    {
      for i := 0 to |batch|
        invariant entries == SettledAll(old(entries), batch[..i], raised)
      {
        assert batch[..i + 1][..i] == batch[..i];
        var id := batch[i];
        var m := entries[id];
        if id !in raised {
          m := m.(pendingSince := None);
        } else {
          var retries := m.retries + 1;
          m := m.(retries := retries);
          if retries > MAX_RETRIES {
            m := m.(dead := true, pendingSince := None, retries := 0);
          }
        }
        entries := entries[id := m];
      }
      assert batch[..|batch|] == batch;
    }
  }

  lemma SettleOne(s: State, a: nat, raised: bool, maxDelay: int)
    requires a in s.attempts && s.attempts[a].first && s.attempts[a].id in s.messages
    ensures var t, id := Next(s, if raised then Raise(a) else Return(a), maxDelay), s.attempts[a].id;
            t.messages == s.messages[id := Settled(s.messages[id], raised)] && t.attempts == s.attempts - {a}
  {
  }

  /** Settling a batch is letting the consumer's handler runs return or raise, one after the other. */
  lemma {:induction false} SettlingIsSteps(s: State, batch: seq<Id>, raised: set<Id>, maxDelay: int)
    returns (es: seq<Step>)
    requires forall id :: id in batch ==>
               id in s.messages && var a := s.messages[id].consumer;
               a in s.attempts && s.attempts[a].first && s.attempts[a].id == id
    requires forall i, j :: 0 <= i < j < |batch| ==> batch[i] != batch[j]
    ensures |es| == |batch| && Run(s, es, maxDelay).messages == SettledAll(s.messages, batch, raised)
    ensures forall a :: a in s.attempts && s.attempts[a].id !in batch ==>
              a in Run(s, es, maxDelay).attempts && Run(s, es, maxDelay).attempts[a] == s.attempts[a]
  {
    if batch == [] {
      es := [];
    } else {
      var id, rest := batch[|batch| - 1], batch[..|batch| - 1];
      var us := SettlingIsSteps(s, rest, raised, maxDelay);
      var t := Run(s, us, maxDelay);
      var a := s.messages[id].consumer;
      assert a in t.attempts && t.attempts[a] == s.attempts[a];
      SettleOne(t, a, id in raised, maxDelay);
      es := us + [if id in raised then Raise(a) else Return(a)];
      assert es[..|es| - 1] == us;
    }
  }

  // ---------------------------------------------------------------- the recovery scan

  /** One row of the pending list. */
  datatype Row = Row(id: Id, deliveries: nat, idleMs: int)

  function IdleIds(rows: seq<Row>, idleMs: int): seq<Id> {
    if rows == [] then []
    else
      var r := rows[|rows| - 1];
      IdleIds(rows[..|rows| - 1], idleMs) + if r.deliveries <= MAX_DELIVERIES && r.idleMs >= idleMs then [r.id] else []
  }

  function PoisonIds(rows: seq<Row>): seq<Id> {
    if rows == [] then []
    else
      var r := rows[|rows| - 1];
      PoisonIds(rows[..|rows| - 1]) + if r.deliveries > MAX_DELIVERIES then [r.id] else []
  }

  /** A claimed message, when it was published, and the clock when its age is checked. */
  datatype Claimed = Claimed(id: Id, publishedAt: int, checkedAt: int)

  /** What reprocessing acknowledges and hands to the handler; a handler that raises ends the pass. */
  datatype Progress = Progress(acknowledged: seq<Id>, handled: seq<Id>, raised: bool)

  function Reprocessed(batch: seq<Claimed>, raising: set<Id>): Progress {
    if batch == [] then Progress([], [], false)
    else
      var p, m := Reprocessed(batch[..|batch| - 1], raising), batch[|batch| - 1];
      if p.raised then p
      else if IsStale(m.publishedAt, m.checkedAt) then p.(acknowledged := p.acknowledged + [m.id])
      else if m.id in raising then p.(handled := p.handled + [m.id], raised := true)
      else Progress(p.acknowledged + [m.id], p.handled + [m.id], false)
  }

  class PelRecoveryWorker {
    const idleMs: int
    var acknowledged: seq<Id>

    constructor (idleMs: int)
      ensures this.idleMs == idleMs && acknowledged == []
    {
      this.idleMs, acknowledged := idleMs, [];
    }

    /** Poison pills are acknowledged; of the rest, those idle for long enough are to be claimed. */
    method Scan(rows: seq<Row>) returns (idle: seq<Id>)
      modifies this
      ensures idle == IdleIds(rows, idleMs)
      ensures acknowledged == old(acknowledged) + PoisonIds(rows)
    {
      idle := [];
      for i := 0 to |rows|
        invariant idle == IdleIds(rows[..i], idleMs)
        invariant acknowledged == old(acknowledged) + PoisonIds(rows[..i])
      {
        assert rows[..i + 1][..i] == rows[..i];
        var row := rows[i];
        if row.deliveries > MAX_DELIVERIES {
          acknowledged := acknowledged + [row.id];
          continue;
        }
        if row.idleMs >= idleMs {
          idle := idle + [row.id];
        }
      }
      assert rows[..|rows|] == rows;
    }

    /** Discard what is stale, run the handler on the rest and acknowledge what it returns from. */
    method Reprocess(batch: seq<Claimed>, raising: set<Id>) returns (handled: seq<Id>, raised: bool)
      modifies this
      ensures var p := Reprocessed(batch, raising);
              acknowledged == old(acknowledged) + p.acknowledged && handled == p.handled && raised == p.raised
    {
      handled, raised := [], false;
      ghost var done := [];
      for i := 0 to |batch|
        invariant Reprocessed(batch[..i], raising) == Progress(done, handled, raised)
        invariant acknowledged == old(acknowledged) + done
      {
        assert batch[..i + 1][..i] == batch[..i];
        if raised {
          continue;
        }
        var m := batch[i];
        if IsStale(m.publishedAt, m.checkedAt) {
          acknowledged, done := acknowledged + [m.id], done + [m.id];
          continue;
        }
        handled := handled + [m.id];
        if m.id in raising {
          raised := true;
        } else {
          acknowledged, done := acknowledged + [m.id], done + [m.id];
        }
      }
      assert batch[..|batch|] == batch;
    }
  }

  /** The rows recovery sees in a state. */
  ghost predicate RowsOf(rows: seq<Row>, s: State) {
    forall i :: 0 <= i < |rows| ==>
      var r := rows[i];
      && Pending(s, r.id) && r.deliveries == s.messages[r.id].deliveries
      && r.idleMs == s.now - s.messages[r.id].pendingSince.value
  }

  /** What the scan selects is what the protocol lets recovery claim or acknowledge. */
  lemma {:induction false} ScanAgrees(rows: seq<Row>, s: State, maxDelay: int)
    requires RowsOf(rows, s) && forall id :: id in s.messages ==> !s.messages[id].claimed
    ensures forall id :: id in IdleIds(rows, IDLE_MS) ==> Enabled(s, Claim(id), maxDelay)
    ensures forall id :: id in PoisonIds(rows) ==> Enabled(s, Poison(id), maxDelay)
    ensures forall i :: 0 <= i < |rows| && Enabled(s, Claim(rows[i].id), maxDelay) ==>
              rows[i].id in IdleIds(rows, IDLE_MS)
    ensures forall i :: 0 <= i < |rows| && Enabled(s, Poison(rows[i].id), maxDelay) ==> rows[i].id in PoisonIds(rows)
  {
    if rows != [] { ScanAgrees(rows[..|rows| - 1], s, maxDelay); }
  }

  /** Reprocessing a message is looking at it, and letting its handler return or raise: a stale one is
      acknowledged unhandled, a handled one exactly when its handler returns. */
  lemma ReprocessingIsSteps(s: State, m: Claimed, raises: bool, maxDelay: int)
    requires Inv(s) && Enabled(s, Look(m.id), maxDelay) && Pending(s, m.id)
    requires m.publishedAt == s.messages[m.id].publishedAt && m.checkedAt == s.now
    ensures var p := Reprocessed([m], if raises then {m.id} else {});
            var u := Next(s, Look(m.id), maxDelay);
            var t := if p.handled == [] then u
                     else Next(u, if raises then Raise(s.nextAttempt) else Return(s.nextAttempt), maxDelay);
            && (p.handled == [] <==> u.attempts == s.attempts)
            && (Pending(t, m.id) <==> p.acknowledged == [])
  {
    assert [m][..0] == [];
    assert s.nextAttempt !in s.attempts;
  }
}
