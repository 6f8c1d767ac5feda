/** The distributed token bucket in front of the broker, kept under a key that expires after one second. */
module RateLimiter {
  import opened Common

  const TTL_MS: int := 1000
  const SLEEP_MS: int := 100

  datatype Bucket = Bucket(tokens: real, lastUpdate: int)

  /** Tokens that flow in during `ms` milliseconds. */
  function Refilled(rate: nat, ms: int): real {
    ms as real / 1000.0 * rate as real
  }

  /** Tokens available at `now`: the capacity when nothing is stored, else the stored ones refilled. */
  function Available(rate: nat, stored: Option<Bucket>, now: int): real {
    match stored
    case None => rate as real
    case Some(b) => Min(rate as real, b.tokens + Refilled(rate, now - b.lastUpdate))
  }

  /** One evaluation of the script: what is stored afterwards, and whether the call was granted. */
  function Take(rate: nat, stored: Option<Bucket>, now: int): (Bucket, bool) {
    var tokens := Available(rate, stored, now);
    if tokens >= 1.0 then (Bucket(tokens - 1.0, now), true) else (Bucket(tokens, now), false)
  }

  /** A stored bucket holds between nothing and the capacity and was written no later than `now`. */
  predicate Sound(rate: nat, stored: Option<Bucket>, now: int) {
    stored.Some? ==> 0.0 <= stored.value.tokens <= rate as real && stored.value.lastUpdate <= now
  }

  lemma Refill(rate: nat, ms: int)
    requires ms >= 0
    ensures Refilled(rate, ms) >= 0.0
    ensures ms >= TTL_MS ==> Refilled(rate, ms) >= rate as real
  {
    var k := ms as real / 1000.0;
    assert k >= 0.0;
    assert k * rate as real >= 0.0;
    if ms >= TTL_MS {
      assert k >= 1.0;
      assert (k - 1.0) * rate as real >= 0.0;
    }
  }

  lemma RefillAdds(rate: nat, a: int, b: int)
    ensures Refilled(rate, a + b) == Refilled(rate, a) + Refilled(rate, b)
  {}

  lemma TakeSound(rate: nat, stored: Option<Bucket>, now: int)
    requires Sound(rate, stored, now)
    ensures 0.0 <= Available(rate, stored, now) <= rate as real
    ensures Sound(rate, Some(Take(rate, stored, now).0), now)
  {
    if stored.Some? { Refill(rate, now - stored.value.lastUpdate); }
  }

  /** Losing the key shows exactly when the bucket had not refilled to capacity; after a full second it
      always has, so the expiry of the key can never be observed. */
  lemma ExpiryUnobservable(rate: nat, b: Bucket, now: int)
    requires Sound(rate, Some(b), now)
    ensures (Take(rate, None, now) == Take(rate, Some(b), now))
            <==> b.tokens + Refilled(rate, now - b.lastUpdate) >= rate as real
    ensures now - b.lastUpdate >= TTL_MS ==> Take(rate, None, now) == Take(rate, Some(b), now)
  {
    Refill(rate, now - b.lastUpdate);
  }

  // ---------------------------------------------------------------- runs

  function Grants(rate: nat, stored: Option<Bucket>, nows: seq<int>): nat
    decreases |nows|
  {
    if nows == [] then 0
    else
      var (b, granted) := Take(rate, stored, nows[0]);
      (if granted then 1 else 0) + Grants(rate, Some(b), nows[1..])
  }

  function After(rate: nat, stored: Option<Bucket>, nows: seq<int>): Option<Bucket>
    decreases |nows|
  {
    if nows == [] then stored else After(rate, Some(Take(rate, stored, nows[0]).0), nows[1..])
  }

  lemma {:induction false} OneMore(rate: nat, stored: Option<Bucket>, nows: seq<int>, now: int)
    ensures var (b, granted) := Take(rate, After(rate, stored, nows), now);
            && After(rate, stored, nows + [now]) == Some(b)
            && Grants(rate, stored, nows + [now]) == Grants(rate, stored, nows) + if granted then 1 else 0
    decreases |nows|
  {
    if nows == [] {
      assert [now][1..] == [];
    } else {
      assert (nows + [now])[1..] == nows[1..] + [now];
      OneMore(rate, Some(Take(rate, stored, nows[0]).0), nows[1..], now);
    }
  }

  /** The first n readings of a clock. */
  function Readings(clock: nat -> int, n: nat): seq<int> {
    if n == 0 then [] else Readings(clock, n - 1) + [clock(n - 1)]
  }

  /** A tenth of the rate for each sleep. */
  ghost function SleptOff(rate: nat, sleeps: nat): real {
    if sleeps == 0 then 0.0 else SleptOff(rate, sleeps - 1) + rate as real / 10.0
  }

  lemma FiveMoreSleeps(rate: nat, sleeps: nat)
    requires sleeps >= 5
    ensures SleptOff(rate, sleeps) == SleptOff(rate, sleeps - 5) + rate as real / 2.0
  {
    var tenth := rate as real / 10.0;
    assert SleptOff(rate, sleeps) == SleptOff(rate, sleeps - 1) + tenth;
    assert SleptOff(rate, sleeps - 1) == SleptOff(rate, sleeps - 2) + tenth;
    assert SleptOff(rate, sleeps - 2) == SleptOff(rate, sleeps - 3) + tenth;
    assert SleptOff(rate, sleeps - 3) == SleptOff(rate, sleeps - 4) + tenth;
    assert SleptOff(rate, sleeps - 4) == SleptOff(rate, sleeps - 5) + tenth;
  }

  lemma {:induction false} TenSleepsRefill(rate: nat, sleeps: nat)
    requires sleeps >= 10
    ensures SleptOff(rate, sleeps) >= rate as real
  {
    if sleeps == 10 {
      FiveMoreSleeps(rate, 10);
      FiveMoreSleeps(rate, 5);
    } else {
      TenSleepsRefill(rate, sleeps - 1);
    }
  }

  lemma SleepRefills(rate: nat, ms: int)
    requires ms >= SLEEP_MS
    ensures Refilled(rate, ms) >= rate as real / 10.0
  {
    var k := ms as real / 1000.0;
    assert (k - 0.1) * rate as real >= 0.0;
  }

  /** Each sleep refills at least a tenth of the rate, so the tenth is followed by a grant. */
  lemma OneSleep(rate: nat, b: Bucket, now: int, attempts: nat)
    requires rate >= 1 && attempts >= 1 && now >= b.lastUpdate + SLEEP_MS
    requires b.tokens >= SleptOff(rate, attempts - 1)
    ensures var available := Available(rate, Some(b), now);
            available < 1.0 ==> attempts < 10 && available >= SleptOff(rate, attempts)
  {
    SleepRefills(rate, now - b.lastUpdate);
    if attempts >= 10 { TenSleepsRefill(rate, attempts); }
  }

  class RedisRateLimiter {
    const callsPerSecond: nat
    var stored: Option<Bucket>
    var expiresAt: int

    /** The key lives one second from its last write. */
    ghost predicate Valid(now: int)
      reads this
    {
      Sound(callsPerSecond, stored, now) && (stored.Some? ==> expiresAt == stored.value.lastUpdate + TTL_MS)
    }

    constructor (callsPerSecond: nat)
      ensures this.callsPerSecond == callsPerSecond && stored == None
    {
      this.callsPerSecond := callsPerSecond;
      stored, expiresAt := None, 0;
    }

    /** The script, run on a key that Redis drops when its time is over. It behaves as on a key that never
        expires. */
    method Evaluate(now: int) returns (granted: bool)
      requires Valid(now)
      modifies this
      ensures Valid(now)
      ensures (stored, granted) == (var (b, g) := Take(callsPerSecond, old(stored), now); (Some(b), g))
    {
      TakeSound(callsPerSecond, stored, now);
      if stored.Some? && now > expiresAt {
        ExpiryUnobservable(callsPerSecond, stored.value, now);
        stored := None;
      }
      var (bucket, ok) := Take(callsPerSecond, stored, now);
      stored, expiresAt, granted := Some(bucket), now + TTL_MS, ok;
    }

    /** Before attempt i nothing has been granted, and every sleep has left its tenth in the bucket. */
    ghost predicate Waited(start: Option<Bucket>, clock: nat -> int, i: nat)
      reads this
    {
      && Valid(clock(i)) && stored == After(callsPerSecond, start, Readings(clock, i))
      && Grants(callsPerSecond, start, Readings(clock, i)) == 0
      && (i > 0 ==> && stored.Some? && stored.value.lastUpdate == clock(i - 1)
                    && stored.value.tokens >= SleptOff(callsPerSecond, i - 1))
    }

    method Attempt(clock: nat -> int, i: nat, ghost start: Option<Bucket>) returns (granted: bool)
      requires callsPerSecond >= 1 && i <= 10 && Waited(start, clock, i)
      requires clock(i + 1) >= clock(i) && (i > 0 ==> clock(i) >= clock(i - 1) + SLEEP_MS)
      modifies this
      ensures !granted ==> i < 10 && Waited(start, clock, i + 1)
      ensures granted ==> Valid(clock(i)) && stored == After(callsPerSecond, start, Readings(clock, i + 1))
                          && Grants(callsPerSecond, start, Readings(clock, i + 1)) == 1
    {
      OneMore(callsPerSecond, start, Readings(clock, i), clock(i));
      if i > 0 {
        OneSleep(callsPerSecond, stored.value, clock(i), i);
      }
      granted := Evaluate(clock(i));
    }

    /** A caller nobody competes with sleeps at most ten times, whatever was left in the bucket, and returns
        at the first grant.
        `clock(i)` is the reading at the i-th attempt, at least one sleep after the one before. */
    method Acquire(clock: nat -> int) returns (attempts: nat)
      requires callsPerSecond >= 1 && Valid(clock(0))
      requires forall i: nat :: clock(i + 1) >= clock(i) + SLEEP_MS
      modifies this
      ensures 1 <= attempts <= 11
      ensures Grants(callsPerSecond, old(stored), Readings(clock, attempts)) == 1
      ensures Grants(callsPerSecond, old(stored), Readings(clock, attempts - 1)) == 0
      ensures stored == After(callsPerSecond, old(stored), Readings(clock, attempts))
      ensures Valid(clock(attempts - 1))
    {
      attempts := 0;
      while true
        invariant attempts <= 10 && Waited(old(stored), clock, attempts)
        decreases 11 - attempts
      {
        assert attempts > 0 ==> clock(attempts - 1 + 1) >= clock(attempts - 1) + SLEEP_MS;
        var granted := Attempt(clock, attempts, old(stored));
        attempts := attempts + 1;
        if granted {
          return;
        }
      }
    }
  }

  // ---------------------------------------------------------------- the rate bound over whole runs

  predicate NonDecreasing(nows: seq<int>) {
    forall i, j :: 0 <= i < j < |nows| ==> nows[i] <= nows[j]
  }

  lemma {:induction false} AfterSound(rate: nat, stored: Option<Bucket>, nows: seq<int>, now: int)
    requires NonDecreasing(nows + [now]) && Sound(rate, stored, (nows + [now])[0])
    ensures Sound(rate, After(rate, stored, nows), now)
    decreases |nows|
  {
    if nows != [] {
      assert (nows + [now])[0] == nows[0];
      TakeSound(rate, stored, nows[0]);
      var rest := nows[1..];
      assert forall i :: 0 <= i < |rest + [now]| ==> (rest + [now])[i] == (nows + [now])[i + 1];
      assert Sound(rate, Some(Take(rate, stored, nows[0]).0), (rest + [now])[0]);
      AfterSound(rate, Some(Take(rate, stored, nows[0]).0), rest, now);
    }
  }

  /** Grants are paid from what is available at the start plus what is refilled on the way. */
  lemma {:induction false} GrantsArePaid(rate: nat, stored: Option<Bucket>, nows: seq<int>)
    requires nows != [] && NonDecreasing(nows) && Sound(rate, stored, nows[0])
    ensures Grants(rate, stored, nows) as real
            <= Available(rate, stored, nows[0]) + Refilled(rate, nows[|nows| - 1] - nows[0])
    decreases |nows|
  {
    var b := Take(rate, stored, nows[0]).0;
    TakeSound(rate, stored, nows[0]);
    if |nows| == 1 {
      assert nows[1..] == [];
      Refill(rate, 0);
    } else {
      var rest := nows[1..];
      GrantsArePaid(rate, Some(b), rest);
      RefillAdds(rate, rest[0] - nows[0], rest[|rest| - 1] - rest[0]);
      PaidStep(rate, stored, nows[0], rest[0]);
    }
  }

  lemma PaidStep(rate: nat, stored: Option<Bucket>, now: int, next: int)
    ensures var (b, granted) := Take(rate, stored, now);
            (if granted then 1.0 else 0.0) + Available(rate, Some(b), next)
            <= Available(rate, stored, now) + Refilled(rate, next - now)
  {}

  /** In any interval of any run, at most the capacity plus the refill of the interval is granted. */
  lemma RateBound(rate: nat, before: seq<int>, window: seq<int>)
    requires window != [] && NonDecreasing(before + window)
    ensures Grants(rate, After(rate, None, before), window) as real
            <= rate as real + rate as real * (window[|window| - 1] - window[0]) as real / 1000.0
  {
    var all := before + window;
    forall i, j | 0 <= i < j < |window| ensures window[i] <= window[j] {
      assert all[|before| + i] == window[i] && all[|before| + j] == window[j];
    }
    assert forall i :: 0 <= i < |before + [window[0]]| ==> (before + [window[0]])[i] == all[i];
    AfterSound(rate, None, before, window[0]);
    var stored := After(rate, None, before);
    TakeSound(rate, stored, window[0]);
    GrantsArePaid(rate, stored, window);
    var d := (window[|window| - 1] - window[0]) as real;
    assert d / 1000.0 * rate as real == rate as real * d / 1000.0;
  }

  // ---------------------------------------------------------------- exactly which calls are granted

  /** Grants among the first n calls, from a full bucket. */
  function Granted(rate: nat, nows: seq<int>, n: nat): nat
    requires n <= |nows|
  {
    Grants(rate, None, nows[..n])
  }

  /** What the window from call j leaves for call i. */
  ghost function Room(rate: nat, nows: seq<int>, j: nat, i: nat): real
    requires j <= i < |nows|
  {
    rate as real + Refilled(rate, nows[i] - nows[j]) - (Granted(rate, nows, i) - Granted(rate, nows, j)) as real
  }

  /** The tokens available are what the tightest window leaves. */
  ghost predicate IsLeastRoom(rate: nat, nows: seq<int>, i: nat, tokens: real)
    requires i < |nows|
  {
    && (forall j: nat | j <= i :: tokens <= Room(rate, nows, j, i))
    && exists j: nat | j <= i :: tokens == Room(rate, nows, j, i)
  }

  lemma RoomNow(rate: nat, nows: seq<int>, i: nat)
    requires i < |nows|
    ensures Room(rate, nows, i, i) == rate as real
  {
  }

  lemma RoomNext(rate: nat, nows: seq<int>, j: nat, i: nat)
    requires j <= i && i + 1 < |nows|
    ensures Room(rate, nows, j, i + 1)
            == Room(rate, nows, j, i) + Refilled(rate, nows[i + 1] - nows[i])
               - (Granted(rate, nows, i + 1) - Granted(rate, nows, i)) as real
  {
    RefillAdds(rate, nows[i] - nows[j], nows[i + 1] - nows[i]);
  }

  /** One call: what it leaves, and what is available to the next. */
  lemma {:induction false} NextAvailable(rate: nat, nows: seq<int>, i: nat)
    requires i < |nows|
    ensures var (b, granted) := Take(rate, After(rate, None, nows[..i]), nows[i]);
            && After(rate, None, nows[..i + 1]) == Some(b)
            && Granted(rate, nows, i + 1) == Granted(rate, nows, i) + if granted then 1 else 0
  {
    assert nows[..i + 1] == nows[..i] + [nows[i]];
    OneMore(rate, None, nows[..i], nows[i]);
  }

  lemma {:induction false} AvailableIsLeastRoom(rate: nat, nows: seq<int>, i: nat)
    requires i < |nows|
    ensures IsLeastRoom(rate, nows, i, Available(rate, After(rate, None, nows[..i]), nows[i]))
  {
    RoomNow(rate, nows, i);
    if i == 0 {
      assert nows[..0] == [];
    } else {
      AvailableIsLeastRoom(rate, nows, i - 1);
      var before := Available(rate, After(rate, None, nows[..i - 1]), nows[i - 1]);
      var tokens := Available(rate, After(rate, None, nows[..i]), nows[i]);
      NextAvailable(rate, nows, i - 1);
      var left := before - (Granted(rate, nows, i) - Granted(rate, nows, i - 1)) as real;
      assert tokens == Min(rate as real, left + Refilled(rate, nows[i] - nows[i - 1]));
      forall j: nat | j <= i ensures tokens <= Room(rate, nows, j, i) {
        if j < i { RoomNext(rate, nows, j, i - 1); }
      }
      var j: nat :| j <= i - 1 && before == Room(rate, nows, j, i - 1);
      RoomNext(rate, nows, j, i - 1);
      assert tokens == Room(rate, nows, i, i) || tokens == Room(rate, nows, j, i);
    }
  }

  /** With call i, the window from call j grants no more than its capacity and refill. */
  ghost predicate WindowAllows(rate: nat, nows: seq<int>, j: nat, i: nat)
    requires j <= i < |nows|
  {
    Granted(rate, nows, i) as real - Granted(rate, nows, j) as real + 1.0
    <= rate as real + rate as real * (nows[i] - nows[j]) as real / 1000.0
  }

  lemma WindowHasRoom(rate: nat, nows: seq<int>, j: nat, i: nat)
    requires j <= i < |nows|
    ensures WindowAllows(rate, nows, j, i) <==> Room(rate, nows, j, i) >= 1.0
  {
    var ms := (nows[i] - nows[j]) as real;
    assert ms / 1000.0 * rate as real == rate as real * ms / 1000.0;
  }

  /** A call is granted exactly when no window of calls up to it would grant more than the rate and the refill of its
      length: the limiter refuses nothing that the bound allows. */
  lemma {:induction false} GrantedIff(rate: nat, nows: seq<int>, i: nat)
    requires i < |nows|
    ensures Granted(rate, nows, i + 1)
            == Granted(rate, nows, i) + if forall j: nat | j <= i :: WindowAllows(rate, nows, j, i) then 1 else 0
  {
    AvailableIsLeastRoom(rate, nows, i);
    NextAvailable(rate, nows, i);
    forall j: nat | j <= i ensures WindowAllows(rate, nows, j, i) <==> Room(rate, nows, j, i) >= 1.0 {
      WindowHasRoom(rate, nows, j, i);
    }
  }

  /** So a burst of n calls at once grants exactly the smaller of n and the rate. */
  lemma {:induction false} BurstIsGranted(rate: nat, nows: seq<int>)
    requires forall i :: 0 <= i < |nows| ==> nows[i] == nows[0]
    ensures Grants(rate, None, nows) == if |nows| <= rate then |nows| else rate
  {
    BurstSoFar(rate, nows, |nows|);
    assert nows[..|nows|] == nows;
  }

  lemma {:induction false} BurstSoFar(rate: nat, nows: seq<int>, n: nat)
    requires n <= |nows| && forall i :: 0 <= i < |nows| ==> nows[i] == nows[0]
    ensures Granted(rate, nows, n) == if n <= rate then n else rate
  {
    if n > 0 {
      BurstSoFar(rate, nows, n - 1);
      GrantedIff(rate, nows, n - 1);
      forall j: nat | j <= n - 1 ensures Granted(rate, nows, j) == if j <= rate then j else rate {
        BurstSoFar(rate, nows, j);
      }
      assert WindowAllows(rate, nows, 0, n - 1) <==> Granted(rate, nows, n - 1) as real + 1.0 <= rate as real;
    }
  }
}
