/**
 * Innings-pitched arithmetic.
 *
 * Box scores write innings in "outs notation": the fractional part .1 stands
 * for one out (a third of an inning) and .2 for two outs. sum_ip converts every
 * value to true thirds, adds them, and converts the total back. Reals here are
 * exact, so the guard band that the source puts around the back-conversion
 * only has to tell a whole number of innings from one with outs.
 */
module Innings {

  /** Python's int(x): truncation toward zero. */
  function Trunc(x: real): (n: int)
    ensures x >= 0.0 ==> n as real <= x < n as real + 1.0
  {
    if x >= 0.0 then x.Floor else -((-x).Floor)
  }

  /** Python's x % 1: the distance above the floor, always in [0, 1). */
  function Frac(x: real): (f: real)
    ensures 0.0 <= f < 1.0
    ensures (x - f).Floor as real == x - f
  {
    x - x.Floor as real
  }

  /** A value written in outs notation: non-negative, fractional part 0, .1 or .2. */
  predicate IsOutsNotation(v: real) {
    v >= 0.0 && (Frac(v) == 0.0 || Frac(v) == 0.1 || Frac(v) == 0.2)
  }

  /** A non-negative whole number of thirds of an inning. */
  predicate IsThirds(s: real) {
    s >= 0.0 && (3.0 * s).Floor as real == 3.0 * s
  }

  /** One step of the loop in sum_ip: an outs-notation value read as true thirds. */
  function OutsToThirds(v: real): real {
    Trunc(v) as real + Frac(v) * 10.0 / 3.0
  }

  /**
   * The back-conversion at the end of sum_ip: a total in thirds written in
   * outs notation, applied only when the fractional part is inside the band.
   */
  function DisplayOuts(s: real): real {
    if Frac(s) < 0.995 && Frac(s) > 0.05 then Trunc(s) as real + Frac(s) * 3.0 / 10.0 else s
  }

  /** Sum of the values read as thirds, in list order. */
  function SumThirds(xs: seq<real>): real {
    if xs == [] then 0.0 else SumThirds(xs[..|xs| - 1]) + OutsToThirds(xs[|xs| - 1])
  }

  predicate AllOutsNotation(xs: seq<real>) {
    forall i :: 0 <= i < |xs| ==> IsOutsNotation(xs[i])
  }

  /** sum_ip */
  method SumIp(ipList: seq<real>) returns (total: real)
    ensures total == DisplayOuts(SumThirds(ipList))
    ensures AllOutsNotation(ipList) ==>
      IsOutsNotation(total) && OutsToThirds(total) == SumThirds(ipList)
  {
    var sum := 0.0;
    var i := 0;
    while i < |ipList|
      invariant 0 <= i <= |ipList|
      invariant sum == SumThirds(ipList[..i])
    {
      var ip := ipList[i];
      assert ipList[..i + 1][..i] == ipList[..i];
      sum := sum + Trunc(ip) as real + Frac(ip) * 10.0 / 3.0;
      i := i + 1;
    }
    assert ipList[..i] == ipList;
    if Frac(sum) < 0.995 && Frac(sum) > 0.05 {
      total := Trunc(sum) as real + Frac(sum) * 3.0 / 10.0;
    } else {
      total := sum;
    }
    if AllOutsNotation(ipList) {
      SumThirdsIsThirds(ipList);
      DisplayOutsOfThirds(sum);
    }
  }

  /** A value that is a whole number plus a fraction in [0, 1) has that whole number as floor. */
  lemma FloorOf(n: int, f: real)
    requires 0.0 <= f < 1.0
    ensures (n as real + f).Floor == n
    ensures Frac(n as real + f) == f
  {
  }

  /** A whole number of thirds splits into whole innings and 0, 1 or 2 outs. */
  lemma ThirdsSplit(s: real) returns (q: int, outs: int)
    requires IsThirds(s)
    ensures q >= 0 && 0 <= outs < 3
    ensures s == q as real + outs as real / 3.0
    ensures s.Floor == q && Frac(s) == outs as real / 3.0
  {
    var k := (3.0 * s).Floor;
    q, outs := k / 3, k % 3;
    assert k == 3 * q + outs;
    assert s == q as real + outs as real / 3.0;
    FloorOf(q, outs as real / 3.0);
  }

  lemma OutsToThirdsOfOuts(v: real)
    requires IsOutsNotation(v)
    ensures IsThirds(OutsToThirds(v))
  {
    var n := v.Floor;
    var outs := if Frac(v) == 0.0 then 0 else if Frac(v) == 0.1 then 1 else 2;
    assert Frac(v) == outs as real / 10.0;
    assert OutsToThirds(v) == n as real + outs as real / 3.0;
    var k := 3 * n + outs;
    assert 3.0 * OutsToThirds(v) == k as real;
    FloorOf(k, 0.0);
  }

  lemma {:induction false} SumThirdsIsThirds(xs: seq<real>)
    requires AllOutsNotation(xs)
    ensures IsThirds(SumThirds(xs))
  {
    if xs != [] {
      var init := xs[..|xs| - 1];
      assert AllOutsNotation(init) by {
        forall i | 0 <= i < |init| ensures IsOutsNotation(init[i]) {
          assert init[i] == xs[i];
        }
      }
      SumThirdsIsThirds(init);
      OutsToThirdsOfOuts(xs[|xs| - 1]);
      ThirdsAdd(SumThirds(init), OutsToThirds(xs[|xs| - 1]));
    }
  }

  lemma ThirdsAdd(a: real, b: real)
    requires IsThirds(a) && IsThirds(b)
    ensures IsThirds(a + b)
  {
    var ka, kb := (3.0 * a).Floor, (3.0 * b).Floor;
    assert 3.0 * (a + b) == (ka + kb) as real;
    FloorOf(ka + kb, 0.0);
  }

  /** Converting a total of thirds to outs notation and back loses nothing. */
  lemma DisplayOutsOfThirds(s: real)
    requires IsThirds(s)
    ensures IsOutsNotation(DisplayOuts(s))
    ensures OutsToThirds(DisplayOuts(s)) == s
  {
    var q, outs := ThirdsSplit(s);
    if outs == 0 {
      assert DisplayOuts(s) == q as real;
      FloorOf(q, 0.0);
    } else {
      assert DisplayOuts(s) == q as real + outs as real / 10.0;
      FloorOf(q, outs as real / 10.0);
    }
  }

  /** Reading an outs-notation value as thirds and writing it back gives the value. */
  lemma OutsRoundTrip(v: real)
    requires IsOutsNotation(v)
    ensures DisplayOuts(OutsToThirds(v)) == v
  {
    var n := v.Floor;
    var f := Frac(v);
    assert v == n as real + f;
    OutsToThirdsOfOuts(v);
    var q, outs := ThirdsSplit(OutsToThirds(v));
    if f == 0.0 {
      assert OutsToThirds(v) == n as real;
      FloorOf(n, 0.0);
    } else if f == 0.1 {
      assert OutsToThirds(v) == n as real + 1.0 / 3.0;
      FloorOf(n, 1.0 / 3.0);
    } else {
      assert OutsToThirds(v) == n as real + 2.0 / 3.0;
      FloorOf(n, 2.0 / 3.0);
    }
  }

  /** sum_ip of a single outs-notation value returns that value. */
  lemma SumIpSingleton(v: real)
    requires IsOutsNotation(v)
    ensures DisplayOuts(SumThirds([v])) == v
  {
    assert [v][..0] == [];
    OutsRoundTrip(v);
  }

  /** 6 2/3 innings plus 3 1/3 innings is 10 innings. */
  lemma SumIpExample()
    ensures DisplayOuts(SumThirds([6.2, 3.1])) == 10.0
  {
    var xs := [6.2, 3.1];
    assert xs[..1] == [6.2] && [6.2][..0] == [];
    FloorOf(6, 0.2);
    FloorOf(3, 0.1);
    assert OutsToThirds(6.2) == 6.0 + 2.0 / 3.0;
    assert OutsToThirds(3.1) == 3.0 + 1.0 / 3.0;
    FloorOf(10, 0.0);
  }
}
