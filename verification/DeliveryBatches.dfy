/** Whole batches of the consumer and of recovery: what becomes of each message, by its place in the batch. */
module DeliveryBatches {
  import opened Common
  import opened Delivery

  // ---------------------------------------------------------------- the scan

  /** Some row of the list with this id was delivered too often, or is to be taken up. */
  ghost predicate Listed(rows: seq<Row>, id: Id, poison: bool, idleMs: int) {
    exists i :: 0 <= i < |rows| && rows[i].id == id
                && if poison then rows[i].deliveries > 5 else rows[i].deliveries <= 5 && rows[i].idleMs >= idleMs
  }

  lemma ListedSnoc(us: seq<Row>, r: Row, id: Id, poison: bool, idleMs: int)
    ensures Listed(us + [r], id, poison, idleMs)
            <==> || Listed(us, id, poison, idleMs)
                 || (r.id == id && if poison then r.deliveries > 5 else r.deliveries <= 5 && r.idleMs >= idleMs)
  {
    var rows := us + [r];
    assert rows[|us|] == r;
    if Listed(us, id, poison, idleMs) {
      var i :| 0 <= i < |us| && us[i].id == id
               && if poison then us[i].deliveries > 5 else us[i].deliveries <= 5 && us[i].idleMs >= idleMs;
      assert rows[i] == us[i];
    }
  }

  /** Of the pending list, what was delivered more than five times is poison; of the rest, what has been idle long
      enough is taken up. */
  lemma {:induction false} ScanPicks(rows: seq<Row>, idleMs: int, id: Id)
    ensures id in IdleIds(rows, idleMs) <==> Listed(rows, id, false, idleMs)
    ensures id in PoisonIds(rows) <==> Listed(rows, id, true, idleMs)
  {
    if rows != [] {
      var us, r := rows[..|rows| - 1], rows[|rows| - 1];
      ScanPicks(us, idleMs, id);
      assert us + [r] == rows;
      ListedSnoc(us, r, id, false, idleMs);
      ListedSnoc(us, r, id, true, idleMs);
    }
  }

  // ---------------------------------------------------------------- recovery, by index

  /** Checked within 300 seconds of its publication. */
  predicate Fresh(m: Claimed) { m.checkedAt - m.publishedAt <= 300_000 }

  predicate Breaks(m: Claimed, raising: set<Id>) { Fresh(m) && m.id in raising }

  /** The place of the first message whose handler is run and raises, or the end of the batch. */
  predicate FirstBreak(batch: seq<Claimed>, raising: set<Id>, k: nat) {
    && k <= |batch| && (forall i :: 0 <= i < k ==> !Breaks(batch[i], raising))
    && (k < |batch| ==> Breaks(batch[k], raising))
  }

  function Ids(batch: seq<Claimed>): (r: seq<Id>)
    ensures |r| == |batch| && forall i :: 0 <= i < |r| ==> r[i] == batch[i].id
  {
    seq(|batch|, i requires 0 <= i < |batch| => batch[i].id)
  }

  function FreshIds(batch: seq<Claimed>): seq<Id> {
    if batch == [] then []
    else FreshIds(batch[..|batch| - 1]) + if Fresh(batch[|batch| - 1]) then [batch[|batch| - 1].id] else []
  }

  /** Before the first message whose handler raises, everything is acknowledged and the fresh ones are handled; that
      one is handled and not acknowledged; nothing after it is touched. */
  lemma {:induction false} PassByIndex(batch: seq<Claimed>, raising: set<Id>, k: nat)
    requires FirstBreak(batch, raising, k)
    ensures var p := Reprocessed(batch, raising);
            && (p.raised <==> k < |batch|) && p.acknowledged == Ids(batch[..k])
            && p.handled == FreshIds(batch[..k]) + if k < |batch| then [batch[k].id] else []
  {
    if batch == [] {
    } else {
      var us, m := batch[..|batch| - 1], batch[|batch| - 1];
      if k < |batch| - 1 {
        assert us[..k] == batch[..k] && us[k] == batch[k];
        PassByIndex(us, raising, k);
      } else {
        assert us[..|us|] == us && batch[..|us|] == us;
        PassByIndex(us, raising, |us|);
        if k == |batch| {
          assert batch[..k] == batch && Ids(batch) == Ids(us) + [m.id];
        }
      }
    }
  }

  // ---------------------------------------------------------------- recovery, as steps of the protocol

  lemma {:induction false} RunConcat(s: State, a: seq<Step>, b: seq<Step>, maxDelay: int)
    ensures Run(s, a + b, maxDelay) == Run(Run(s, a, maxDelay), b, maxDelay)
    decreases |b|
  {
    if b == [] {
      assert a + b == a;
    } else {
      assert (a + b)[..|a + b| - 1] == a + b[..|b| - 1];
      RunConcat(s, a, b[..|b| - 1], maxDelay);
    }
  }

  lemma RunOne(s: State, e: Step, maxDelay: int)
    ensures Run(s, [e], maxDelay) == Next(s, e, maxDelay)
  {
    assert [e][..0] == [] && Run(s, [], maxDelay) == s;
  }

  /** Claimed by recovery and pending, as the batch says. */
  predicate Awaits(s: State, m: Claimed) {
    && Pending(s, m.id) && s.messages[m.id].claimed && s.messages[m.id].publishedAt == m.publishedAt
    && s.now <= m.checkedAt
  }

  ghost predicate Ready(s: State, batch: seq<Claimed>) {
    && s.nextAttempt !in s.attempts
    && (forall i :: 0 <= i < |batch| ==> Awaits(s, batch[i]))
    && (forall i, j :: 0 <= i < j < |batch| ==> batch[i].id != batch[j].id && batch[i].checkedAt <= batch[j].checkedAt)
    && (forall a :: a in s.attempts ==> a < s.nextAttempt)
  }

  /** What becomes of a message whose turn comes, and of one whose turn does not. */
  function Ended(o: Message, m: Claimed, raises: bool): Message {
    if !Fresh(m) then o.(claimed := false, pendingSince := None)
    else if raises then o.(claimed := false, starts := o.starts + 1)
    else o.(claimed := false, starts := o.starts + 1, pendingSince := None)
  }

  /** Time passes until the message is checked. */
  function At(s: State, m: Claimed): State { s.(now := m.checkedAt) }

  lemma StaleEnds(s: State, m: Claimed, raises: bool, maxDelay: int)
    requires Awaits(s, m) && s.now == m.checkedAt && !Fresh(m)
    ensures Next(s, Look(m.id), maxDelay) == s.(messages := s.messages[m.id := Ended(s.messages[m.id], m, raises)])
  {
  }

  lemma FreshEnds(s: State, m: Claimed, raises: bool, maxDelay: int)
    requires Awaits(s, m) && s.now == m.checkedAt && Fresh(m) && s.nextAttempt !in s.attempts
    ensures var a := s.nextAttempt;
            Next(Next(s, Look(m.id), maxDelay), if raises then Raise(a) else Return(a), maxDelay)
            == s.(messages := s.messages[m.id := Ended(s.messages[m.id], m, raises)], nextAttempt := a + 1)
  {
    var o, v := s.messages[m.id], Next(s, Look(m.id), maxDelay);
    var begun := o.(claimed := false, starts := o.starts + 1);
    assert v == Started(s, m.id, o.(claimed := false), false);
    assert v.messages == s.messages[m.id := begun] && v.attempts - {s.nextAttempt} == s.attempts;
    assert v.messages[m.id := if raises then begun else Acknowledged(begun)]
           == s.messages[m.id := Ended(o, m, raises)];
  }

  lemma RunAfterWait(s: State, m: Claimed, es: seq<Step>, maxDelay: int)
    requires s.now <= m.checkedAt
    ensures Run(s, [Elapse(m.checkedAt - s.now)] + es, maxDelay) == Run(At(s, m), es, maxDelay)
  {
    RunOne(s, Elapse(m.checkedAt - s.now), maxDelay);
    RunConcat(s, [Elapse(m.checkedAt - s.now)], es, maxDelay);
  }

  lemma RunTwo(s: State, e: Step, f: Step, maxDelay: int)
    ensures Run(s, [e] + [f], maxDelay) == Next(Next(s, e, maxDelay), f, maxDelay)
  {
    RunConcat(s, [e], [f], maxDelay);
    RunOne(s, e, maxDelay);
    RunOne(Next(s, e, maxDelay), f, maxDelay);
  }

  lemma LookEnds(s: State, m: Claimed, raises: bool, maxDelay: int) returns (es: seq<Step>)
    requires Awaits(s, m) && s.nextAttempt !in s.attempts
    ensures var t := Run(s, es, maxDelay);
            && t.now == m.checkedAt && t.attempts == s.attempts && s.nextAttempt <= t.nextAttempt
            && t.messages == s.messages[m.id := Ended(s.messages[m.id], m, raises)]
  {
    var u := At(s, m);
    var turn;
    if !Fresh(m) {
      turn := [Look(m.id)];
      RunOne(u, Look(m.id), maxDelay);
      StaleEnds(u, m, raises, maxDelay);
    } else {
      var end := if raises then Raise(s.nextAttempt) else Return(s.nextAttempt);
      turn := [Look(m.id)] + [end];
      RunTwo(u, Look(m.id), end, maxDelay);
      FreshEnds(u, m, raises, maxDelay);
    }
    RunAfterWait(s, m, turn, maxDelay);
    es := [Elapse(m.checkedAt - s.now)] + turn;
  }

  lemma ForgetOne(s: State, id: Id, maxDelay: int)
    requires id in s.messages && s.messages[id].claimed
    ensures Next(s, Forget(id), maxDelay) == s.(messages := s.messages[id := s.messages[id].(claimed := false)])
  {
  }

  lemma {:induction false} ForgetRest(s: State, batch: seq<Claimed>, maxDelay: int) returns (es: seq<Step>)
    requires forall i :: 0 <= i < |batch| ==> batch[i].id in s.messages && s.messages[batch[i].id].claimed
    requires forall i, j :: 0 <= i < j < |batch| ==> batch[i].id != batch[j].id
    ensures var t := Run(s, es, maxDelay);
            && t.attempts == s.attempts && t.messages.Keys == s.messages.Keys
            && (forall i :: 0 <= i < |batch| ==> t.messages[batch[i].id] == s.messages[batch[i].id].(claimed := false))
            && (forall id :: id in s.messages && id !in Ids(batch) ==> t.messages[id] == s.messages[id])
  {
    if batch == [] {
      es := [];
    } else {
      var us, m := batch[..|batch| - 1], batch[|batch| - 1];
      var before := ForgetRest(s, us, maxDelay);
      var t := Run(s, before, maxDelay);
      assert m.id !in Ids(us);
      RunConcat(s, before, [Forget(m.id)], maxDelay);
      RunOne(t, Forget(m.id), maxDelay);
      ForgetOne(t, m.id, maxDelay);
      es := before + [Forget(m.id)];
      assert Ids(batch) == Ids(us) + [m.id];
    }
  }

  /** The message's turn comes: no handler of an earlier one has raised. */
  ghost predicate Reached(batch: seq<Claimed>, raising: set<Id>, i: nat)
    requires i <= |batch|
  {
    forall j :: 0 <= j < i ==> !Breaks(batch[j], raising)
  }

  /** Reprocessing a whole batch is a run of the protocol: message after message is looked at, discarded or handled,
      and the handler returns or raises; once one has raised, the later claims are forgotten. */
  lemma {:induction false} BatchIsSteps(s: State, batch: seq<Claimed>, raising: set<Id>, maxDelay: int)
    returns (es: seq<Step>)
    requires Ready(s, batch)
    ensures var t := Run(s, es, maxDelay);
            && t.attempts == s.attempts && t.messages.Keys == s.messages.Keys
            && (forall i :: 0 <= i < |batch| ==>
                  t.messages[batch[i].id]
                  == if Reached(batch, raising, i)
                     then Ended(s.messages[batch[i].id], batch[i], batch[i].id in raising)
                     else s.messages[batch[i].id].(claimed := false))
            && (forall id :: id in s.messages && id !in Ids(batch) ==> t.messages[id] == s.messages[id])
    decreases |batch|
  {
    if batch == [] {
      es := [];
    } else {
      var m, rest := batch[0], batch[1..];
      var first := LookEnds(s, m, m.id in raising, maxDelay);
      var u := Run(s, first, maxDelay);
      forall i | 0 <= i < |rest| ensures rest[i] == batch[i + 1] && rest[i].id != m.id {}
      assert m.id !in Ids(rest);
      var more;
      if Breaks(m, raising) {
        more := ForgetRest(u, rest, maxDelay);
      } else {
        assert Ready(u, rest);
        more := BatchIsSteps(u, rest, raising, maxDelay);
      }
      RunConcat(s, first, more, maxDelay);
      es := first + more;
      RestOfBatch(s, u, Run(s, es, maxDelay), batch, raising);
    }
  }

  lemma SplitIds(batch: seq<Claimed>)
    requires batch != [] && forall i, j :: 0 <= i < j < |batch| ==> batch[i].id != batch[j].id
    ensures batch[0].id !in Ids(batch[1..])
    ensures forall id :: id in Ids(batch) <==> id == batch[0].id || id in Ids(batch[1..])
  {
    var rest := batch[1..];
    forall k | 0 <= k < |rest| ensures Ids(rest)[k] != batch[0].id { assert rest[k] == batch[k + 1]; }
    assert Ids(batch) == [batch[0].id] + Ids(rest);
  }

  lemma RestOfBatch(s: State, u: State, t: State, batch: seq<Claimed>, raising: set<Id>)
    requires batch != [] && Ready(s, batch)
    requires u.messages == s.messages[batch[0].id := Ended(s.messages[batch[0].id], batch[0], batch[0].id in raising)]
    requires t.messages.Keys == u.messages.Keys
    requires forall i :: 0 <= i < |batch[1..]| ==>
               t.messages[batch[1..][i].id]
               == if !Breaks(batch[0], raising) && Reached(batch[1..], raising, i)
                  then Ended(u.messages[batch[1..][i].id], batch[1..][i], batch[1..][i].id in raising)
                  else u.messages[batch[1..][i].id].(claimed := false)
    requires forall id :: id in u.messages && id !in Ids(batch[1..]) ==> t.messages[id] == u.messages[id]
    ensures t.messages.Keys == s.messages.Keys
    ensures forall i :: 0 <= i < |batch| ==>
              t.messages[batch[i].id]
              == if Reached(batch, raising, i)
                 then Ended(s.messages[batch[i].id], batch[i], batch[i].id in raising)
                 else s.messages[batch[i].id].(claimed := false)
    ensures forall id :: id in s.messages && id !in Ids(batch) ==> t.messages[id] == s.messages[id]
  {
    var rest := batch[1..];
    SplitIds(batch);
    forall i | 0 <= i < |batch|
      ensures t.messages[batch[i].id]
              == if Reached(batch, raising, i)
                 then Ended(s.messages[batch[i].id], batch[i], batch[i].id in raising)
                 else s.messages[batch[i].id].(claimed := false)
    {
      if i > 0 {
        assert rest[i - 1] == batch[i];
        ReachedTail(batch, raising, i);
      }
    }
  }

  lemma ReachedTail(batch: seq<Claimed>, raising: set<Id>, i: nat)
    requires 0 < i < |batch|
    ensures Reached(batch, raising, i) <==> !Breaks(batch[0], raising) && Reached(batch[1..], raising, i - 1)
  {
    var rest := batch[1..];
    if Reached(batch, raising, i) {
      forall j | 0 <= j < i - 1 ensures !Breaks(rest[j], raising) { assert rest[j] == batch[j + 1]; }
    }
    if !Breaks(batch[0], raising) && Reached(rest, raising, i - 1) {
      forall j | 0 <= j < i ensures !Breaks(batch[j], raising) { assert j > 0 ==> rest[j - 1] == batch[j]; }
    }
  }

  // ---------------------------------------------------------------- the consumer's failures

  function FailTimes(m: Message, n: nat): Message {
    if n == 0 then m else Failed(FailTimes(m, n - 1))
  }

  /** Of a new message five failures are counted and change nothing else; the sixth dead-letters it, acknowledged and
      with its counter at zero. */
  lemma {:induction false} SixthFailureBuries(m: Message, n: nat)
    requires m.retries == 0 && !m.dead && n <= 6
    ensures FailTimes(m, n) == if n <= 5 then m.(retries := n) else m.(dead := true, pendingSince := None)
  {
    if n > 0 { SixthFailureBuries(m, n - 1); }
  }

  /** Of a batch in which no message comes twice, what returned is acknowledged and nothing else, and what raised has
      failed once more. */
  lemma {:induction false} BatchIsSettled(entries: map<Id, Message>, batch: seq<Id>, raised: set<Id>)
    requires forall id :: id in batch ==> id in entries
    requires forall i, j :: 0 <= i < j < |batch| ==> batch[i] != batch[j]
    ensures var r := SettledAll(entries, batch, raised);
            forall id :: id in entries ==>
              r[id] == if id !in batch then entries[id]
                       else if id in raised then FailTimes(entries[id], 1)
                       else entries[id].(pendingSince := None)
  {
    if batch != [] {
      BatchIsSettled(entries, batch[..|batch| - 1], raised);
    }
  }
}
