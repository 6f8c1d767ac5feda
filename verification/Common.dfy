/** Small vocabulary shared by every component. Prices and money are exact reals. */
module Common {
  datatype Option<+T> = None | Some(value: T)

  function Max(a: real, b: real): real { if a >= b then a else b }

  function Min(a: real, b: real): real { if a <= b then a else b }

  function Abs(a: real): real { if a >= 0.0 then a else -a }

  function Worth(quantity: int, price: real): real { quantity as real * price }

  function Sum(xs: seq<real>): real {
    if xs == [] then 0.0 else Sum(xs[..|xs| - 1]) + xs[|xs| - 1]
  }

  /** round(x, 2): the nearest hundredth, ties to the even one. */
  function Round2(x: real): real {
    var h := x * 100.0;
    var f := h.Floor;
    var d := h - f as real;
    (if d < 0.5 || (d == 0.5 && f % 2 == 0) then f else f + 1) as real / 100.0
  }

  lemma Round2Close(x: real)
    ensures x - 0.005 <= Round2(x) <= x + 0.005
    ensures x >= 0.0 ==> Round2(x) >= 0.0
  {}

  /** A whole number of hundredths. */
  ghost predicate Hundredths(x: real) { (x * 100.0).Floor as real == x * 100.0 }

  lemma Round2IsHundredths(x: real)
    ensures Hundredths(Round2(x))
  {
    var h := x * 100.0;
    var f := h.Floor;
    var d := h - f as real;
    var n := if d < 0.5 || (d == 0.5 && f % 2 == 0) then f else f + 1;
    assert Round2(x) * 100.0 == n as real;
  }

  lemma Scales(x: real, y: real, b: real)
    requires b > 0.0
    ensures x < y <==> x * b < y * b
    ensures x <= y <==> x * b <= y * b
  {
    var d := y - x;
    assert y * b == x * b + d * b;
    if d > 0.0 { assert d * b > 0.0; } else if d < 0.0 { assert d * b < 0.0; }
  }

  /** The contents of a deque(maxlen = n) that received the elements of s in order. */
  function LastN<T>(s: seq<T>, n: nat): seq<T> {
    if |s| <= n then s else s[|s| - n..]
  }

  /** deque(maxlen = n).append(x). */
  function Append<T>(s: seq<T>, x: T, n: nat): seq<T> {
    LastN(s + [x], n)
  }

  lemma AppendIsLastN<T>(s: seq<T>, x: T, n: nat)
    requires n > 0
    ensures Append(LastN(s, n), x, n) == LastN(s + [x], n)
  {
    if |s| > n {
      assert s[|s| - n..] + [x] == (s + [x])[|s| - n..];
    }
  }

  lemma Associate<T>(a: seq<T>, b: seq<T>, c: seq<T>)
    ensures a + (b + c) == a + b + c
  {}
}
