/** Risk reservations: keyed entries that live for two minutes, and the scan that adds them up. */
module Reservations {
  import opened Common
  import opened RedisKeys
  import opened RiskRules

  const RESERVATION_TTL_MS: int := 120_000

  datatype Reservation = Reservation(risk: real, notional: real)

  datatype Row = Row(id: string, value: Reservation)

  type Book = Store<Reservation>

  function Risk(rows: seq<Row>): real {
    if rows == [] then 0.0 else Risk(rows[..|rows| - 1]) + rows[|rows| - 1].value.risk
  }

  function Notionals(rows: seq<Row>): (r: seq<real>)
    ensures |r| == |rows|
  {
    if rows == [] then [] else Notionals(rows[..|rows| - 1]) + [rows[|rows| - 1].value.notional]
  }

  function Notional(rows: seq<Row>): real { Sum(Notionals(rows)) }

  /** What reading the given keys one after the other finds, at one moment. */
  function Found(keys: seq<string>, book: Book, now: int): seq<Row> {
    if keys == [] then []
    else
      var k := keys[|keys| - 1];
      Found(keys[..|keys| - 1], book, now) + if AliveAt(book, k, now) then [Row(k, book[k].value)] else []
  }

  class RiskReservations {
    var book: Book

    constructor ()
      ensures book == map[]
    {
      book := map[];
    }

    /** SETEX: a second reservation under one id replaces the first. */
    method Reserve(id: string, risk: real, notional: real, now: int)
      modifies this
      ensures book == old(book)[id := Entry(Reservation(risk, notional), now + RESERVATION_TTL_MS)]
    {
      book := book[id := Entry(Reservation(risk, notional), now + RESERVATION_TTL_MS)];
    }

    method Release(id: string)
      modifies this
      ensures book == old(book) - {id}
    {
      book := book - {id};
    }

    method TotalReserved(keys: seq<string>, now: int) returns (total: real, notionals: seq<real>)
      ensures total == Risk(Found(keys, book, now)) && notionals == Notionals(Found(keys, book, now))
    {
      total, notionals := 0.0, [];
      for i := 0 to |keys|
        invariant total == Risk(Found(keys[..i], book, now))
        invariant notionals == Notionals(Found(keys[..i], book, now))
      {
        assert keys[..i + 1][..i] == keys[..i];
        if AliveAt(book, keys[i], now) {
          var data := book[keys[i]].value;
          TotalsSnoc(Found(keys[..i], book, now), Row(keys[i], data));
          total := total + data.risk;
          notionals := notionals + [data.notional];
          assert Found(keys[..i + 1], book, now) == Found(keys[..i], book, now) + [Row(keys[i], data)];
        } else {
          assert Found(keys[..i + 1], book, now) == Found(keys[..i], book, now);
        }
      }
      assert keys[..|keys|] == keys;
    }
  }

  lemma TotalsSnoc(rows: seq<Row>, r: Row)
    ensures Risk(rows + [r]) == Risk(rows) + r.value.risk
    ensures Notionals(rows + [r]) == Notionals(rows) + [r.value.notional]
    ensures Notional(rows + [r]) == Notional(rows) + r.value.notional
  {
    assert (rows + [r])[..|rows|] == rows;
    assert (Notionals(rows) + [r.value.notional])[..|rows|] == Notionals(rows);
  }

  // ---------------------------------------------------------------- adding up distinct rows

  ghost predicate Distinct(rows: seq<Row>) {
    forall i, j :: 0 <= i < j < |rows| ==> rows[i].id != rows[j].id
  }

  ghost predicate Positive(rows: seq<Row>) {
    forall i :: 0 <= i < |rows| ==> rows[i].value.risk > 0.0 && rows[i].value.notional >= 0.0
  }

  /** Any choice of different reservations that are alive. */
  ghost predicate Among(rows: seq<Row>, book: Book, now: int) {
    Distinct(rows) && forall i :: 0 <= i < |rows| ==>
      AliveAt(book, rows[i].id, now) && book[rows[i].id].value == rows[i].value
  }

  function Without(rows: seq<Row>, k: nat): seq<Row>
    requires k < |rows|
  {
    rows[..k] + rows[k + 1..]
  }

  lemma {:induction false} TotalsWithout(rows: seq<Row>, k: nat)
    requires k < |rows|
    ensures Risk(rows) == Risk(Without(rows, k)) + rows[k].value.risk
    ensures Notional(rows) == Notional(Without(rows, k)) + rows[k].value.notional
  {
    var init := rows[..|rows| - 1];
    assert Notionals(rows)[..|rows| - 1] == Notionals(init);
    if k == |rows| - 1 {
      assert Without(rows, k) == init;
    } else {
      TotalsWithout(init, k);
      var w := Without(rows, k);
      assert w[..|w| - 1] == Without(init, k);
      assert Notionals(w)[..|w| - 1] == Notionals(Without(init, k));
    }
  }

  /** Different rows, all found in a longer list, add up to no more than the list, in whatever order and
      however often the list has them. */
  lemma {:induction false} PartIsLess(part: seq<Row>, all: seq<Row>)
    requires Distinct(part) && Positive(all) && forall r :: r in part ==> r in all
    ensures |part| <= |all| && Risk(part) <= Risk(all) && Notional(part) <= Notional(all)
    decreases |part|
  {
    if part == [] {
      NotNegative(all);
    } else {
      var n := |part| - 1;
      assert part[n] in all;
      var k :| 0 <= k < |all| && all[k] == part[n];
      var init, rest := part[..n], Without(all, k);
      forall r | r in init ensures r in rest {
        assert r in part && r in all;
        var j :| 0 <= j < |all| && all[j] == r;
        assert r != part[n];
        assert if j < k then rest[j] == r else rest[j - 1] == r;
      }
      PartIsLess(init, rest);
      TotalsWithout(part, n);
      TotalsWithout(all, k);
      assert Without(part, n) == init;
    }
  }

  lemma {:induction false} NotNegative(rows: seq<Row>)
    requires Positive(rows)
    ensures 0.0 <= Risk(rows) && 0.0 <= Notional(rows) && (rows != [] ==> 0.0 < Risk(rows))
  {
    if rows != [] {
      NotNegative(rows[..|rows| - 1]);
      TotalsWithout(rows, |rows| - 1);
      assert Without(rows, |rows| - 1) == rows[..|rows| - 1];
    }
  }

  lemma {:induction false} SumConcat(a: seq<real>, b: seq<real>)
    ensures Sum(a + b) == Sum(a) + Sum(b)
  {
    if b == [] {
      assert a + b == a;
    } else {
      SumConcat(a, b[..|b| - 1]);
      assert (a + b)[..|a + b| - 1] == a + b[..|b| - 1];
    }
  }

  /** Every live reservation is found by a scan over keys that include it, so the total is never too low; over
      keys without repetition it is exact. */
  lemma {:induction false} ScanIsComplete(keys: seq<string>, book: Book, now: int)
    ensures forall id :: AliveAt(book, id, now) && id in keys ==> Row(id, book[id].value) in Found(keys, book, now)
    ensures forall r :: r in Found(keys, book, now) ==>
              r.id in keys && AliveAt(book, r.id, now) && book[r.id].value == r.value
    ensures (forall i, j :: 0 <= i < j < |keys| ==> keys[i] != keys[j]) ==> Among(Found(keys, book, now), book, now)
  {
    if keys != [] { ScanIsComplete(keys[..|keys| - 1], book, now); }
  }

  /** The total does not depend on the order of the keys. */
  lemma {:induction false} OrderDoesNotMatter(a: seq<string>, b: seq<string>, book: Book, now: int)
    requires forall i, j :: 0 <= i < j < |a| ==> a[i] != a[j]
    requires forall i, j :: 0 <= i < j < |b| ==> b[i] != b[j]
    requires forall k :: k in a <==> k in b
    requires forall k :: k in book ==> book[k].value.risk > 0.0 && book[k].value.notional >= 0.0
    ensures Risk(Found(a, book, now)) == Risk(Found(b, book, now))
    ensures Notional(Found(a, book, now)) == Notional(Found(b, book, now))
  {
    ScanIsComplete(a, book, now);
    ScanIsComplete(b, book, now);
    PartIsLess(Found(a, book, now), Found(b, book, now));
    PartIsLess(Found(b, book, now), Found(a, book, now));
  }
}
