/** The lease lock: a spin loop on one key with a time to live, released only by its own nonce. The protocol
    interleaves any number of processes on one clock (milliseconds); names and nonces are strings and numbers. */
module RedisLock {
  import opened RedisKeys

  type Nonce = nat

  /** What a process is doing inside `redis_lock(name, timeout)`. */
  datatype Phase =
    | Spinning(startedAt: int)
    | Holding(acquiredAt: int)

  datatype Process = Process(name: string, timeout: nat, nonce: Nonce, phase: Phase)

  datatype State = State(now: int, store: Store<Nonce>, processes: map<nat, Process>, nextNonce: Nonce)

  const INITIAL := State(0, map[], map[], 0)

  datatype Step =
    | Elapse(ms: nat)
    | Start(p: nat, name: string, timeout: nat)   // enter with a fresh nonce
    | Try(p: nat)                                 // SET NX EX
    | GiveUp(p: nat)                              // TimeoutError
    | Release(p: nat)                             // compare and delete
    | Crash(p: nat)

  predicate Enabled(s: State, e: Step) {
    match e
    case Elapse(_) => true
    case Start(p, _, _) => p !in s.processes
    case Try(p) => p in s.processes && s.processes[p].phase.Spinning?
    case GiveUp(p) =>
      p in s.processes && s.processes[p].phase.Spinning?
      && s.now - s.processes[p].phase.startedAt > s.processes[p].timeout
    case Release(p) => p in s.processes && s.processes[p].phase.Holding?
    case Crash(p) => p in s.processes
  }

  function Next(s: State, e: Step): State {
    if !Enabled(s, e) then s
    else match e
      case Elapse(ms) => s.(now := s.now + ms)
      case Start(p, name, timeout) =>
        s.(processes := s.processes[p := Process(name, timeout, s.nextNonce, Spinning(s.now))],
           nextNonce := s.nextNonce + 1)
      case Try(p) =>
        var c := s.processes[p];
        var (store, acquired) := SetIfAbsent(s.store, c.name, c.nonce, c.timeout, s.now);
        if acquired then s.(store := store, processes := s.processes[p := c.(phase := Holding(s.now))]) else s
      case GiveUp(p) => s.(processes := s.processes - {p})
      case Release(p) =>
        var c := s.processes[p];
        s.(store := DeleteIfHolds(s.store, c.name, c.nonce, s.now), processes := s.processes - {p})
      case Crash(p) => s.(processes := s.processes - {p})
  }

  function Run(es: seq<Step>): State {
    if es == [] then INITIAL else Next(Run(es[..|es| - 1]), es[|es| - 1])
  }

  // ---------------------------------------------------------------- safety

  /** A process in the guarded section whose lease has not run out. */
  predicate Leased(s: State, p: nat) {
    p in s.processes && s.processes[p].phase.Holding?
    && s.now < s.processes[p].phase.acquiredAt + s.processes[p].timeout
  }

  ghost predicate Fresh(s: State) {
    && (forall p :: p in s.processes ==> s.processes[p].nonce < s.nextNonce)
    && (forall p, q :: p in s.processes && q in s.processes && s.processes[p].nonce == s.processes[q].nonce ==> p == q)
  }

  /** The key of an unexpired lease holds its nonce, until the lease runs out. */
  ghost predicate Backed(s: State) {
    forall p :: Leased(s, p) ==>
      var c := s.processes[p];
      c.name in s.store && s.store[c.name] == Entry(c.nonce, c.phase.acquiredAt + c.timeout)
  }

  ghost predicate Inv(s: State) { Fresh(s) && Backed(s) }

  lemma FreshStep(s: State, e: Step)
    requires Fresh(s)
    ensures Fresh(Next(s, e))
  {
    match e
    case Start(p, _, _) =>
    case Try(p) =>
    case Release(p) =>
    case _ =>
  }

  lemma BackedStep(s: State, e: Step)
    requires Inv(s)
    ensures Backed(Next(s, e))
  {
    var t := Next(s, e);
    forall p | Leased(t, p)
      ensures var c := t.processes[p];
              c.name in t.store && t.store[c.name] == Entry(c.nonce, c.phase.acquiredAt + c.timeout)
    {
      if p in s.processes && s.processes[p] == t.processes[p] { assert Leased(s, p); }
    }
  }

  lemma {:induction false} RunKeeps(es: seq<Step>)
    ensures Inv(Run(es))
  {
    if es != [] {
      RunKeeps(es[..|es| - 1]);
      FreshStep(Run(es[..|es| - 1]), es[|es| - 1]);
      BackedStep(Run(es[..|es| - 1]), es[|es| - 1]);
    }
  }

  /** In every reachable state at most one process holds an unexpired lease of a name. */
  lemma MutualExclusion(es: seq<Step>, p: nat, q: nat)
    requires var s := Run(es); Leased(s, p) && Leased(s, q) && s.processes[p].name == s.processes[q].name
    ensures p == q
  {
    RunKeeps(es);
  }

  /** Whenever a process leaves, at any time, an unexpired lease of another keeps its key; and the key of the
      one that leaves in time is free at once. */
  lemma ReleaseTakesOnlyItsOwn(es: seq<Step>, p: nat, q: nat)
    requires var s := Run(es); Enabled(s, Release(p)) && p != q && Leased(s, q)
    ensures var s, t := Run(es), Run(es + [Release(p)]);
            Leased(t, q) && s.processes[q].name in s.store && s.processes[q].name in t.store
            && t.store[s.processes[q].name] == s.store[s.processes[q].name]
  {
    RunKeeps(es);
    Then(es, Release(p));
  }

  lemma ReleaseInTimeFrees(es: seq<Step>, p: nat)
    requires var s := Run(es); Leased(s, p)
    ensures var s, t := Run(es), Run(es + [Release(p)]);
            !AliveAt(t.store, s.processes[p].name, t.now) && p !in t.processes
  {
    RunKeeps(es);
    Then(es, Release(p));
  }

  /** A key is taken for no longer than the last lease on it: once that has run out, the next try succeeds
      whatever happened to its holder. */
  lemma NoDeadlock(s: State, p: nat)
    requires Enabled(s, Try(p)) && var c := s.processes[p]; !AliveAt(s.store, c.name, s.now) && c.timeout > 0
    ensures Leased(Next(s, Try(p)), p)
  {
  }

  // ---------------------------------------------------------------- when sections overlap

  /** A stored nonce was handed out, and if a process of the present has it, that process took the key under its
      own name and the key lasts as long as its lease. */
  ghost predicate Issued(s: State) {
    && (forall name :: name in s.store ==> s.store[name].value < s.nextNonce)
    && (forall name, p :: name in s.store && p in s.processes && s.store[name].value == s.processes[p].nonce ==>
          var c := s.processes[p];
          c.phase.Holding? && c.name == name && s.store[name].expiresAt == c.phase.acquiredAt + c.timeout)
  }

  lemma IssuedStep(s: State, e: Step)
    requires Fresh(s) && Issued(s)
    ensures Issued(Next(s, e))
  {
    match e
    case Start(p, _, _) =>
    case Try(p) =>
    case Release(p) =>
    case _ =>
  }

  lemma {:induction false} RunIssues(es: seq<Step>)
    ensures Issued(Run(es))
  {
    if es != [] {
      RunIssues(es[..|es| - 1]);
      RunKeeps(es[..|es| - 1]);
      IssuedStep(Run(es[..|es| - 1]), es[|es| - 1]);
    }
  }

  /** The nonces of processes that crashed while their lease ran. */
  function Abandoned(es: seq<Step>): set<Nonce> {
    if es == [] then {}
    else
      var s, e := Run(es[..|es| - 1]), es[|es| - 1];
      Abandoned(es[..|es| - 1]) + if e.Crash? && Leased(s, e.p) then {s.processes[e.p].nonce} else {}
  }

  /** The process whose lease the key of `name` is. */
  ghost predicate Backs(s: State, p: nat, name: string) {
    Leased(s, p) && s.processes[p].name == name && name in s.store && s.store[name].value == s.processes[p].nonce
  }

  /** A key that a step sets is the lease just taken; any other that is there was there before. */
  lemma KeyStep(s: State, e: Step, name: string)
    requires AliveAt(Next(s, e).store, name, Next(s, e).now)
    ensures var t := Next(s, e);
            || (AliveAt(s.store, name, s.now) && s.store[name] == t.store[name])
            || (e.Try? && Backs(t, e.p, name))
  {
  }

  /** While its key lasts, a lease is lost to a crash only. */
  lemma BackingStep(s: State, e: Step, p: nat, name: string)
    requires Inv(s) && Issued(s) && Backs(s, p, name) && AliveAt(Next(s, e).store, name, Next(s, e).now)
    requires Next(s, e).store[name] == s.store[name]
    ensures Backs(Next(s, e), p, name) || e == Crash(p)
  {
  }

  /** A key that is there is the lease of a process in its section, or one left behind by a crash. */
  lemma {:induction false} KeyIsALease(es: seq<Step>, name: string)
    requires AliveAt(Run(es).store, name, Run(es).now)
    ensures Run(es).store[name].value in Abandoned(es) || exists p :: Backs(Run(es), p, name)
  {
    if es == [] {
    } else {
      var before, e := es[..|es| - 1], es[|es| - 1];
      var s := Run(before);
      var t := Next(s, e);
      assert t == Run(es);
      KeyStep(s, e, name);
      if AliveAt(s.store, name, s.now) && s.store[name] == t.store[name] {
        KeyIsALease(before, name);
        if s.store[name].value !in Abandoned(before) {
          var p :| Backs(s, p, name);
          RunKeeps(before);
          RunIssues(before);
          BackingStep(s, e, p, name);
        }
      }
    }
  }

  /** An unexpired lease of `name` that is not the one taken with `nonce`. */
  predicate OtherLease(s: State, name: string, nonce: Nonce) {
    AliveAt(s.store, name, s.now) && s.store[name].value != nonce
  }

  /** While p is in the section, another process that tries gets in exactly when the lease of p has run out and
      nobody else has taken one since. */
  lemma EntersIffLeaseIsOver(es: seq<Step>, p: nat, q: nat)
    requires var s := Run(es);
             && p in s.processes && s.processes[p].phase.Holding? && Enabled(s, Try(q))
             && s.processes[q].name == s.processes[p].name
    ensures var s, t := Run(es), Run(es + [Try(q)]);
            t.processes[q].phase.Holding?
            <==> !Leased(s, p) && !OtherLease(s, s.processes[p].name, s.processes[p].nonce)
  {
    RunKeeps(es);
    RunIssues(es);
    Then(es, Try(q));
  }

  /** Sections that outlive their lease do overlap: the lock excludes leases, not sections. */
  lemma OverstayingOverlaps()
    ensures var s := Run([Start(0, "k", 5), Start(1, "k", 5), Try(0), Elapse(5), Try(1)]);
            && 0 in s.processes && s.processes[0].phase.Holding? && 1 in s.processes && s.processes[1].phase.Holding?
            && !Leased(s, 0) && Leased(s, 1)
  {
    var e2 := [Start(0, "k", 5)] + [Start(1, "k", 5)];
    Then([], Start(0, "k", 5));
    Then([Start(0, "k", 5)], Start(1, "k", 5));
    Then(e2, Try(0));
    Then(e2 + [Try(0)], Elapse(5));
    Then(e2 + [Try(0)] + [Elapse(5)], Try(1));
    assert [] + [Start(0, "k", 5)] == [Start(0, "k", 5)];
    assert e2 + [Try(0)] + [Elapse(5)] + [Try(1)] == [Start(0, "k", 5), Start(1, "k", 5), Try(0), Elapse(5), Try(1)];
    var s3 := Run(e2 + [Try(0)]);
    assert s3.store == map["k" := Entry(0, 5)] && s3.now == 0;
  }

  lemma Then(es: seq<Step>, e: Step)
    ensures Run(es + [e]) == Next(Run(es), e)
  {
    assert (es + [e])[..|es|] == es;
  }

  // ---------------------------------------------------------------- the spin loop

  /** The shared key space and the clock, both moved by others while a process sleeps. A sleep lasts at least
      as long as asked for, and at most `slack` longer. */
  class World {
    const slack: nat
    const redis: Redis<Nonce>
    var now: int

    constructor (slack: nat, redis: Redis<Nonce>)
      ensures this.slack == slack && this.redis == redis && now == 0
    {
      this.slack, this.redis, now := slack, redis, 0;
    }

    method Sleep(ms: nat)
      modifies this, redis
      ensures old(now) + ms <= now <= old(now) + ms + slack
    {
      var late :| 0 <= late <= slack;
      var others: Store<Nonce> := *;
      now, redis.store := now + ms + late, others;
    }

    /** Whatever the others do, the loop ends within its timeout plus one retry; it ends with the lease just
        taken, or not before the timeout and with the key in another's hands. */
    method Acquire(name: string, nonce: Nonce, timeout: nat, retryDelay: nat) returns (acquired: bool, tries: nat)
      requires retryDelay > 0
      modifies this, redis
      ensures acquired ==> name in redis.store && redis.store[name] == Entry(nonce, now + timeout)
      ensures !acquired ==> now - old(now) > timeout && AliveAt(redis.store, name, now)
      ensures old(now) <= now <= old(now) + timeout + retryDelay + slack
      ensures 1 <= tries && (tries - 1) * retryDelay <= now - old(now)
    {
      var start := now;
      acquired, tries := false, 0;
      while true
        invariant start <= now <= start + timeout + retryDelay + slack
        invariant tries * retryDelay <= now - start
        decreases start + timeout + retryDelay + slack - now
      {
        acquired := redis.SetNxEx(name, nonce, timeout, now);
        tries := tries + 1;
        if acquired {
          break;
        }
        if now - start > timeout {
          break;
        }
        Sleep(retryDelay);
      }
    }

    method Release(name: string, nonce: Nonce) returns (deleted: bool)
      modifies redis
      ensures redis.store == DeleteIfHolds(old(redis.store), name, nonce, now)
      ensures deleted <==> old(AliveAt(redis.store, name, now) && redis.store[name].value == nonce)
    {
      deleted := redis.CompareAndDelete(name, nonce, now);
    }
  }
}
