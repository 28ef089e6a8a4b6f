/** Jain's fairness index over the service each tenant received (internal/bench/stats.go:57-90), over real
    numbers. */
module Jain {
  import opened Text

  /** A product. The proofs below mostly hide what it is and use a few identities about it. */
  function Times(a: real, b: real): real {
    a * b
  }

  function Positive(v: real): real {
    if v < 0.0 then 0.0 else v
  }

  /** Total service; a negative entry counts as none. */
  ghost function Sum(x: seq<real>): (r: real)
    ensures r >= 0.0
  {
    if x == [] then 0.0 else Sum(x[..|x| - 1]) + if x[|x| - 1] > 0.0 then x[|x| - 1] else 0.0
  }

  ghost function SumOfSquares(x: seq<real>): real {
    if x == [] then 0.0
    else SumOfSquares(x[..|x| - 1]) + if x[|x| - 1] > 0.0 then Times(x[|x| - 1], x[|x| - 1]) else 0.0
  }

  /** Every tenant received the same. */
  ghost predicate AllEqual(x: seq<real>) {
    forall i, j :: 0 <= i < |x| && 0 <= j < |x| ==> x[i] == x[j] || (x[i] <= 0.0 && x[j] <= 0.0)
  }

  /** At most one tenant received anything. */
  ghost predicate AtMostOneServed(x: seq<real>) {
    forall i, j :: 0 <= i < j < |x| ==> x[i] <= 0.0 || x[j] <= 0.0
  }

  // ---------- identities ----------

  lemma SignOfProduct(a: real, b: real)
    ensures (a > 0.0 && b > 0.0) || (a < 0.0 && b < 0.0) ==> Times(a, b) > 0.0
    ensures a == 0.0 ==> Times(a, b) == 0.0
  {
  }

  lemma SquareIsNatural(d: real)
    ensures Times(d, d) >= 0.0 && (Times(d, d) == 0.0 <==> d == 0.0)
  {
    hide Times;
    SignOfProduct(d, d);
  }

  lemma OneMoreDistance(n: real, q: real, s: real, v: real, p: real)
    ensures q - 2.0 * Times(v, s) + Times(n, Times(v, v)) + Times(p - v, p - v) ==
            q + Times(p, p) - 2.0 * Times(v, s + p) + Times(n + 1.0, Times(v, v))
  {
  }

  lemma OneMoreExcess(n: real, q: real, s: real, v: real)
    ensures Times(n + 1.0, q + Times(v, v)) - Times(s + v, s + v) ==
            Times(n, q) - Times(s, s) + (q - 2.0 * Times(v, s) + Times(n, Times(v, v)))
  {
  }

  lemma OneMoreSquare(s: real, v: real)
    requires s >= 0.0 && v >= 0.0
    ensures Times(s + v, s + v) == Times(s, s) + Times(v, v) + 2.0 * Times(s, v)
    ensures Times(s, v) >= 0.0 && (Times(s, v) == 0.0 <==> s == 0.0 || v == 0.0)
  {
  }

  // ---------- the upper bound ----------

  /** The sum of squared distances from v. */
  ghost function Spread(x: seq<real>, v: real): real {
    if x == [] then 0.0
    else Spread(x[..|x| - 1], v) + Times(Positive(x[|x| - 1]) - v, Positive(x[|x| - 1]) - v)
  }

  lemma {:induction false} SpreadExpands(x: seq<real>, v: real)
    ensures Spread(x, v) == SumOfSquares(x) - 2.0 * Times(v, Sum(x)) + Times(|x| as real, Times(v, v))
  {
    if x != [] {
      hide Times;
      SpreadExpands(x[..|x| - 1], v);
      OneMoreDistance((|x| - 1) as real, SumOfSquares(x[..|x| - 1]), Sum(x[..|x| - 1]), v, Positive(x[|x| - 1]));
    }
  }

  lemma {:induction false} NoSpread(x: seq<real>, v: real)
    ensures Spread(x, v) >= 0.0
    ensures Spread(x, v) == 0.0 <==> forall i :: 0 <= i < |x| ==> Positive(x[i]) == v
  {
    hide Times;
    if x != [] {
      NoSpread(x[..|x| - 1], v);
      SquareIsNatural(Positive(x[|x| - 1]) - v);
    }
  }

  /** By how much n times the sum of squares exceeds the square of the sum. */
  ghost function Excess(x: seq<real>): real {
    Times(|x| as real, SumOfSquares(x)) - Times(Sum(x), Sum(x))
  }

  /** One more tenant adds its distance from all the others. */
  lemma ExcessOfMore(x: seq<real>)
    requires x != []
    ensures Excess(x) == Excess(x[..|x| - 1]) + Spread(x[..|x| - 1], Positive(x[|x| - 1]))
  {
    hide Times;
    SignOfProduct(0.0, 0.0);
    SpreadExpands(x[..|x| - 1], Positive(x[|x| - 1]));
    OneMoreExcess((|x| - 1) as real, SumOfSquares(x[..|x| - 1]), Sum(x[..|x| - 1]), Positive(x[|x| - 1]));
  }

  /** The square of the sum is at most n times the sum of squares, and equal to it just when all are equal. */
  lemma {:induction false} SquareOfSum(x: seq<real>)
    ensures Excess(x) >= 0.0
    ensures Excess(x) == 0.0 <==> AllEqual(x)
  {
    if x == [] {
      assert Excess(x) == 0.0;
    } else {
      hide Excess, Spread;
      var rest, v := x[..|x| - 1], Positive(x[|x| - 1]);
      SquareOfSum(rest);
      ExcessOfMore(x);
      NoSpread(rest, v);
      if AllEqual(x) {
        assert forall i :: 0 <= i < |rest| ==> Positive(rest[i]) == Positive(x[i]) == v;
      }
      if Excess(rest) == 0.0 && Spread(rest, v) == 0.0 {
        forall i | 0 <= i < |x| ensures Positive(x[i]) == v {
          assert i < |rest| ==> x[i] == rest[i];
        }
      }
    }
  }

  // ---------- the lower bound ----------

  lemma {:induction false} NoSum(x: seq<real>)
    ensures Sum(x) == 0.0 <==> forall i :: 0 <= i < |x| ==> Positive(x[i]) == 0.0
    ensures SumOfSquares(x) >= 0.0 && (SumOfSquares(x) == 0.0 <==> Sum(x) == 0.0)
  {
    hide Times;
    if x != [] {
      NoSum(x[..|x| - 1]);
      SquareIsNatural(Positive(x[|x| - 1]));
    }
  }

  /** The square of the sum is at least the sum of squares, and equal to it just when at most one is not zero. */
  lemma {:induction false} SumOfSquaresIsLess(x: seq<real>)
    ensures SumOfSquares(x) <= Times(Sum(x), Sum(x))
    ensures SumOfSquares(x) == Times(Sum(x), Sum(x)) <==> AtMostOneServed(x)
  {
    if x == [] {
      assert Times(Sum(x), Sum(x)) == 0.0;
    } else {
      hide Times;
      var rest, v := x[..|x| - 1], Positive(x[|x| - 1]);
      SumOfSquaresIsLess(rest);
      NoSum(rest);
      OneMoreSquare(Sum(rest), v);
      OneMoreServed(x);
    }
  }

  lemma OneMoreServed(x: seq<real>)
    requires x != []
    ensures var (rest, v) := (x[..|x| - 1], Positive(x[|x| - 1]));
            AtMostOneServed(x) <==>
              AtMostOneServed(rest) && (v == 0.0 || forall i :: 0 <= i < |rest| ==> Positive(rest[i]) == 0.0)
  {
    var rest := x[..|x| - 1];
    assert forall i :: 0 <= i < |rest| ==> rest[i] == x[i];
    if AtMostOneServed(x) {
      forall i, j | 0 <= i < j < |rest| ensures Positive(rest[i]) == 0.0 || Positive(rest[j]) == 0.0 {
        assert Positive(x[i]) == 0.0 || Positive(x[j]) == 0.0;
      }
    }
  }

  // ---------- the index ----------

  lemma QuotientBounds(n: real, s2: real, q: real)
    requires n > 0.0 && q > 0.0 && q <= s2 <= n * q
    ensures n * q > 0.0
    ensures var j := s2 / (n * q);
            && 1.0 / n <= j <= 1.0 && j * (n * q) == s2
            && (j == 1.0 <==> s2 == n * q) && (j == 1.0 / n <==> s2 == q)
  {
    var d := n * q;
    var j := s2 / d;
    assert j * d == s2;
    assert j <= 1.0;
    var m := 1.0 / n;
    assert m * n == 1.0;
    assert m * d == q;
    assert (j - m) * d == s2 - q;
  }

  /** The index is undefined for no tenants. Otherwise it lies between 1/n and 1; it is 1 exactly when every
      tenant received the same, and, when anybody received anything, 1/n exactly when one tenant received
      everything. Negative entries count as nothing received. */
  method JainFairness(x: seq<real>) returns (j: Option<real>)
    ensures j.None? <==> x == []
    ensures x != [] ==> 1.0 / |x| as real <= j.value <= 1.0
    ensures x != [] ==> (j.value == 1.0 <==> AllEqual(x))
    ensures x != [] && Sum(x) > 0.0 ==> (j.value == 1.0 / |x| as real <==> AtMostOneServed(x))
    ensures x != [] && Sum(x) > 0.0 ==> j.value * (|x| as real * SumOfSquares(x)) == Sum(x) * Sum(x)
  {
    hide Sum, SumOfSquares, AllEqual, AtMostOneServed;
    if |x| == 0 {
      return None;
    }
    SumsOfNone();
    var sum, sumSq := 0.0, 0.0;
    var i := 0;
    while i < |x|
      invariant 0 <= i <= |x| && sum == Sum(x[..i]) && sumSq == SumOfSquares(x[..i])
    {
      var v := x[i];
      SumsOfMore(x, i);
      if v < 0.0 {
        v := 0.0;
      }
      sum := sum + v;
      sumSq := sumSq + v * v;
      i := i + 1;
    }
    assert x[..i] == x;
    j := Some(1.0);
    IndexBounds(x, sum, sumSq);
    if sumSq == 0.0 {
      return;
    }
    j := Some(sum * sum / (|x| as real * sumSq));
  }

  lemma SumsOfNone()
    ensures Sum([]) == 0.0 == SumOfSquares([])
  {
  }

  lemma SumsOfMore(x: seq<real>, i: nat)
    requires i < |x|
    ensures Sum(x[..i + 1]) == Sum(x[..i]) + Positive(x[i])
    ensures SumOfSquares(x[..i + 1]) == SumOfSquares(x[..i]) + Positive(x[i]) * Positive(x[i])
  {
    assert x[..i + 1][..i] == x[..i];
  }

  lemma IndexBounds(x: seq<real>, sum: real, sumSq: real)
    requires x != [] && sum == Sum(x) && sumSq == SumOfSquares(x)
    ensures sumSq >= 0.0 && 1.0 / |x| as real <= 1.0
    ensures sumSq == 0.0 ==> AllEqual(x) && sum == 0.0
    ensures sumSq > 0.0 ==> |x| as real * sumSq > 0.0
    ensures sumSq > 0.0 ==>
              var j := sum * sum / (|x| as real * sumSq);
              && 1.0 / |x| as real <= j <= 1.0 && j * (|x| as real * sumSq) == sum * sum
              && (j == 1.0 <==> AllEqual(x)) && (j == 1.0 / |x| as real <==> AtMostOneServed(x))
  {
    NoSum(x);
    SquareOfSum(x);
    SumOfSquaresIsLess(x);
    hide Sum, SumOfSquares, AllEqual, AtMostOneServed;
    if sumSq > 0.0 {
      QuotientBounds(|x| as real, sum * sum, sumSq);
    }
  }
}
