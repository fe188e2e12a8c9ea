/**
 The IDF-weighted distance between two sorted lists of ids: a merge intersection and a cosine shrunk
 by the number of common elements. Weights are reals; a square root is any number that is one.
 */
module Idf {
  import opened Seqs

  ghost predicate Sorted(a: seq<nat>) {
    forall i, j :: 0 <= i < j < |a| ==> a[i] <= a[j]
  }

  /** Every listed id has a weight, and IDF weights are clamped to be positive. */
  predicate Weighted(idf: seq<real>, a: seq<nat>) {
    forall i :: 0 <= i < |a| ==> a[i] < |idf| && idf[a[i]] > 0.0
  }

  /** IDF weights are a logarithm clamped from below: the larger one of the logarithm and a thousandth. */
  function Clamp(log: real): (w: real)
    ensures w >= 0.001 && w >= log && (w == log || w == 0.001)
  {
    if log > 0.001 then log else 0.001
  }

  /** The loop over all ids that turns their logarithms into weights; it makes every list of valid ids weighted. */
  method Weights(logs: seq<real>) returns (idf: seq<real>)
    ensures |idf| == |logs| && forall i :: 0 <= i < |logs| ==> idf[i] == Clamp(logs[i])
    ensures forall a: seq<nat> :: (forall i :: 0 <= i < |a| ==> a[i] < |logs|) ==> Weighted(idf, a)
  {
    idf := [];
    for i := 0 to |logs|
      invariant |idf| == i && forall j :: 0 <= j < i ==> idf[j] == Clamp(logs[j])
    {
      idf := idf + [Clamp(logs[i])];
    }
  }

  function WeightedSum(idf: seq<real>, a: seq<nat>): (w: real)
    requires Weighted(idf, a)
    ensures w >= 0.0 && (w == 0.0 <==> a == [])
    ensures |a| == 1 ==> w == idf[a[0]]
  {
    if a == [] then 0.0 else idf[a[0]] + WeightedSum(idf, a[1..])
  }

  /** The weight of a list depends only on its bag of elements. */
  lemma {:induction false} WeightOfBag(idf: seq<real>, a: seq<nat>, b: seq<nat>)
    requires Weighted(idf, a) && Weighted(idf, b) && multiset(a) == multiset(b)
    ensures WeightedSum(idf, a) == WeightedSum(idf, b)
    decreases |a|
  {
    if a == [] {
      EmptyBag(a, b);
    } else {
      var j := TakeOut(a, b);
      WeightOfBag(idf, a[1..], b[..j] + b[j + 1..]);
      WeightOfConcat(idf, b[..j], [b[j]] + b[j + 1..]);
      WeightOfConcat(idf, [b[j]], b[j + 1..]);
      WeightOfConcat(idf, b[..j], b[j + 1..]);
    }
  }

  lemma {:induction false} WeightOfConcat(idf: seq<real>, a: seq<nat>, b: seq<nat>)
    requires Weighted(idf, a) && Weighted(idf, b)
    ensures WeightedSum(idf, a + b) == WeightedSum(idf, a) + WeightedSum(idf, b)
  {
    if a == [] {
      assert a + b == b;
    } else {
      assert (a + b)[1..] == a[1..] + b;
      WeightOfConcat(idf, a[1..], b);
    }
  }

  /** The elements on which a merge of two sorted lists agrees. */
  function Common(a: seq<nat>, b: seq<nat>): (c: seq<nat>)
    ensures |c| <= |a| && |c| <= |b|
    ensures forall idf :: Weighted(idf, a) ==> Weighted(idf, c)
    decreases |a| + |b|
  {
    if a == [] || b == [] then []
    else
      assert forall idf :: Weighted(idf, a) ==> Weighted(idf, a[1..]);
      if a[0] == b[0] then
        var c := Common(a[1..], b[1..]);
        assert forall idf :: Weighted(idf, a) ==> Weighted(idf, c) && Weighted(idf, [a[0]] + c);
        [a[0]] + c
      else if a[0] < b[0] then Common(a[1..], b)
      else Common(a, b[1..])
  }

  /** For sorted lists, duplicates included, the merge finds the bag intersection. */
  lemma {:induction false} CommonIsIntersection(a: seq<nat>, b: seq<nat>)
    requires Sorted(a) && Sorted(b)
    ensures multiset(Common(a, b)) == multiset(a) * multiset(b)
    decreases |a| + |b|
  {
    if a != [] && b != [] {
      assert a == [a[0]] + a[1..] && b == [b[0]] + b[1..];
      if a[0] == b[0] {
        CommonIsIntersection(a[1..], b[1..]);
        IntersectBoth(a[0], multiset(a[1..]), multiset(b[1..]));
      } else if a[0] < b[0] {
        CommonIsIntersection(a[1..], b);
        IntersectOne(a[0], multiset(a[1..]), multiset(b));
      } else {
        CommonIsIntersection(a, b[1..]);
        IntersectOne(b[0], multiset(b[1..]), multiset(a));
        IntersectSwap(multiset(a), multiset(b));
        IntersectSwap(multiset(a), multiset(b[1..]));
      }
    }
  }

  lemma IntersectBoth(x: nat, p: multiset<nat>, q: multiset<nat>)
    ensures (multiset{x} + p) * (multiset{x} + q) == multiset{x} + (p * q)
  {
  }

  lemma IntersectOne(x: nat, p: multiset<nat>, q: multiset<nat>)
    requires x !in q
    ensures (multiset{x} + p) * q == p * q
  {
  }

  lemma IntersectSwap(p: multiset<nat>, q: multiset<nat>)
    ensures p * q == q * p
  {
  }

  lemma {:induction false} CommonSymmetric(a: seq<nat>, b: seq<nat>)
    ensures Common(a, b) == Common(b, a)
    decreases |a| + |b|
  {
    if a != [] && b != [] {
      if a[0] == b[0] {
        CommonSymmetric(a[1..], b[1..]);
      } else if a[0] < b[0] {
        CommonSymmetric(a[1..], b);
      } else {
        CommonSymmetric(a, b[1..]);
      }
    }
  }

  /** The common weight is at most that of either list, and equal only if nothing is missing. */
  lemma {:induction false} CommonWeighsLess(idf: seq<real>, a: seq<nat>, b: seq<nat>)
    requires Weighted(idf, a)
    ensures WeightedSum(idf, Common(a, b)) <= WeightedSum(idf, a)
    ensures WeightedSum(idf, Common(a, b)) == WeightedSum(idf, a) ==> Common(a, b) == a
    decreases |a| + |b|
  {
    if a != [] && b != [] {
      assert Weighted(idf, a[1..]);
      if a[0] == b[0] {
        CommonWeighsLess(idf, a[1..], b[1..]);
      } else if a[0] < b[0] {
        CommonWeighsLess(idf, a[1..], b);
      } else {
        CommonWeighsLess(idf, a, b[1..]);
      }
    }
  }

  /** The merge loop: size and weight of the bag intersection. */
  method WeightedSumCommonElements(idf: seq<real>, a: seq<nat>, b: seq<nat>) returns (sum: real, count: nat)
    requires Weighted(idf, a)
    ensures sum == WeightedSum(idf, Common(a, b)) && count == |Common(a, b)|
    ensures Sorted(a) && Sorted(b) ==> count == |multiset(a) * multiset(b)|
    ensures forall c: seq<nat> :: Sorted(a) && Sorted(b) && Weighted(idf, c) && multiset(c) == multiset(a) * multiset(b) ==>
              sum == WeightedSum(idf, c)
  {
    var i, j := 0, 0;
    sum, count := 0.0, 0;
    while i < |a| && j < |b|
      invariant 0 <= i <= |a| && 0 <= j <= |b|
      invariant count + |Common(a[i..], b[j..])| == |Common(a, b)|
      invariant sum + WeightedSum(idf, Common(a[i..], b[j..])) == WeightedSum(idf, Common(a, b))
      decreases |a| - i + |b| - j
    {
      if a[i] == b[j] {
        sum := sum + idf[a[i]];
        count := count + 1;
        i := i + 1;
        j := j + 1;
      } else if a[i] < b[j] {
        i := i + 1;
      } else if a[i] > b[j] {
        j := j + 1;
      }
    }
    if Sorted(a) && Sorted(b) {
      CommonIsIntersection(a, b);
      assert |multiset(Common(a, b))| == |Common(a, b)|;
      forall c: seq<nat> | Weighted(idf, c) && multiset(c) == multiset(a) * multiset(b)
        ensures sum == WeightedSum(idf, c)
      {
        WeightOfBag(idf, c, Common(a, b));
      }
    }
  }

  method SumWeights(idf: seq<real>, a: seq<nat>) returns (sum: real)
    requires Weighted(idf, a)
    ensures sum == WeightedSum(idf, a)
  {
    sum := 0.0;
    for i := 0 to |a|
      invariant sum == WeightedSum(idf, a[..i])
    {
      assert a[..i + 1] == a[..i] + [a[i]];
      WeightOfConcat(idf, a[..i], [a[i]]);
      sum := sum + idf[a[i]];
    }
    assert a[..|a|] == a;
  }

  predicate IsRoot(s: real, w: real) {
    s >= 0.0 && s * s == w
  }

  /** One minus the cosine of common weight w, shrunk by k / (k + 100). */
  function Shrunk(w: real, k: real, ra: real, rb: real): real
    requires ra > 0.0 && rb > 0.0 && k >= 0.0
  {
    1.0 - w * k / ra / rb / (k + 100.0)
  }

  /** The distance, given the roots of the two total weights. */
  function Distance(idf: seq<real>, a: seq<nat>, b: seq<nat>, ra: real, rb: real): real
    requires Weighted(idf, a) && Weighted(idf, b)
    requires IsRoot(ra, WeightedSum(idf, a)) && IsRoot(rb, WeightedSum(idf, b))
  {
    var k := |Common(a, b)|;
    if |a| == |b| && k == |a| then 0.0
    else if k > 0 && |a| > 0 && |b| > 0 then
      Shrunk(WeightedSum(idf, Common(a, b)), k as real, ra, rb)
    else 1.0
  }

  method ComputeDistance(idf: seq<real>, a: seq<nat>, b: seq<nat>, ra: real, rb: real) returns (d: real)
    requires Weighted(idf, a) && Weighted(idf, b)
    requires IsRoot(ra, WeightedSum(idf, a)) && IsRoot(rb, WeightedSum(idf, b))
    ensures d == Distance(idf, a, b, ra, rb)
  {
    var sum, count := WeightedSumCommonElements(idf, a, b);
    if |a| == |b| && count == |a| {
      d := 0.0;
    } else if count > 0 && |a| > 0 && |b| > 0 {
      d := Shrunk(sum, count as real, ra, rb);
    } else {
      d := 1.0;
    }
  }

  lemma LessProduct(x: real, y: real, z: real)
    requires x < y && z > 0.0
    ensures x * z < y * z
  {
  }

  /** A weight below both squares, and strictly below one, is strictly below the product of the roots. */
  lemma BelowProduct(w: real, ra: real, rb: real)
    requires ra > 0.0 && rb > 0.0 && w <= ra * ra && w <= rb * rb && (w < ra * ra || w < rb * rb)
    ensures w < ra * rb
  {
    if ra < rb {
      LessProduct(ra, rb, ra);
    } else if rb < ra {
      LessProduct(rb, ra, rb);
    }
  }

  /** The shrunk cosine lies strictly between 0 and k / (k + 100), whichever list comes first. */
  lemma ShrunkLaws(w: real, k: real, ra: real, rb: real)
    requires 0.0 < w < ra * rb && k > 0.0 && ra > 0.0 && rb > 0.0
    ensures 100.0 / (k + 100.0) < Shrunk(w, k, ra, rb) < 1.0
    ensures Shrunk(w, k, ra, rb) == Shrunk(w, k, rb, ra)
  {
    assert k / (k + 100.0) + 100.0 / (k + 100.0) == 1.0;
  }

  /** A merge that finds as much as both lists hold has found equal lists. */
  lemma {:induction false} CommonOfEqual(a: seq<nat>, b: seq<nat>)
    ensures |a| == |b| == |Common(a, b)| <==> a == b
    decreases |a| + |b|
  {
    if a != [] && b != [] {
      if a[0] == b[0] {
        CommonOfEqual(a[1..], b[1..]);
        assert a == [a[0]] + a[1..] && b == [b[0]] + b[1..];
      } else if a[0] < b[0] {
        assert |Common(a[1..], b)| < |a|;
      } else {
        assert |Common(a, b[1..])| < |b|;
      }
    }
  }

  /** Of sorted lists the merge finds nothing exactly if they are disjoint. */
  lemma NothingCommon(a: seq<nat>, b: seq<nat>)
    requires Sorted(a) && Sorted(b)
    ensures |Common(a, b)| == |multiset(a) * multiset(b)|
    ensures |Common(a, b)| == 0 <==> multiset(a) !! multiset(b)
  {
    CommonIsIntersection(a, b);
    assert |multiset(Common(a, b))| == |Common(a, b)|;
    assert multiset(a) !! multiset(b) <==> multiset(a) * multiset(b) == multiset{};
  }

  /**
   The laws of the distance, for all weighted lists: it is symmetric and within [0, 1]; it is 0
   exactly for equal lists and 1 exactly for unequal lists without a common element; and for unequal
   lists with k common elements it stays strictly above 100 / (k + 100). For sorted lists, which is what
   the recommenders pass, k is the size of the bag intersection and the distance 1 means disjoint lists.
   */
  lemma DistanceLaws(idf: seq<real>, a: seq<nat>, b: seq<nat>, ra: real, rb: real)
    requires Weighted(idf, a) && Weighted(idf, b)
    requires IsRoot(ra, WeightedSum(idf, a)) && IsRoot(rb, WeightedSum(idf, b))
    ensures var d := Distance(idf, a, b, ra, rb);
            var k := |Common(a, b)|;
            && d == Distance(idf, b, a, rb, ra)
            && 0.0 <= d <= 1.0
            && (d == 0.0 <==> a == b)
            && (d == 1.0 <==> a != b && k == 0)
            && (a != b && k > 0 ==> 100.0 / (k as real + 100.0) < d < 1.0)
            && (Sorted(a) && Sorted(b) ==>
                  k == |multiset(a) * multiset(b)| && (d == 1.0 <==> a != b && multiset(a) !! multiset(b)))
  {
    CommonSymmetric(a, b);
    CommonOfEqual(a, b);
    if Sorted(a) && Sorted(b) {
      NothingCommon(a, b);
    }
    var c := Common(a, b);
    if a != b && |c| > 0 {
      CommonWeighsLess(idf, a, b);
      CommonWeighsLess(idf, b, a);
      BelowProduct(WeightedSum(idf, c), ra, rb);
      ShrunkLaws(WeightedSum(idf, c), |c| as real, ra, rb);
      assert 100.0 / (|c| as real + 100.0) > 0.0;
    }
  }

  /**
   The exact value for unequal lists with something in common: c is any list of the bag intersection, and the
   distance is one minus the cosine of its weight, shrunk by |c| / (|c| + 100).
   */
  lemma DistanceValue(idf: seq<real>, a: seq<nat>, b: seq<nat>, ra: real, rb: real, c: seq<nat>)
    requires Weighted(idf, a) && Weighted(idf, b) && Sorted(a) && Sorted(b) && a != b
    requires IsRoot(ra, WeightedSum(idf, a)) && IsRoot(rb, WeightedSum(idf, b))
    requires Weighted(idf, c) && multiset(c) == multiset(a) * multiset(b) && c != []
    ensures IsShrunk(1.0 - Distance(idf, a, b, ra, rb), WeightedSum(idf, c), |c| as real, ra * rb)
  {
    DistanceIsShrunk(idf, a, b, ra, rb, c);
    ShrunkValue(WeightedSum(idf, c), |c| as real, ra, rb);
  }

  /** The quotient of w and p, shrunk by k / (k + 100). */
  predicate IsShrunk(x: real, w: real, k: real, p: real) {
    x * (p * (k + 100.0)) == w * k
  }

  lemma DistanceIsShrunk(idf: seq<real>, a: seq<nat>, b: seq<nat>, ra: real, rb: real, c: seq<nat>)
    requires Weighted(idf, a) && Weighted(idf, b) && Sorted(a) && Sorted(b) && a != b
    requires IsRoot(ra, WeightedSum(idf, a)) && IsRoot(rb, WeightedSum(idf, b))
    requires Weighted(idf, c) && multiset(c) == multiset(a) * multiset(b) && c != []
    ensures ra > 0.0 && rb > 0.0 && Distance(idf, a, b, ra, rb) == Shrunk(WeightedSum(idf, c), |c| as real, ra, rb)
  {
    var d := Common(a, b);
    CommonIsIntersection(a, b);
    assert |multiset(c)| == |c| && |multiset(d)| == |d|;
    WeightOfBag(idf, c, d);
    CommonOfEqual(a, b);
  }

  lemma ShrunkValue(w: real, k: real, ra: real, rb: real)
    requires ra > 0.0 && rb > 0.0 && k >= 0.0
    ensures IsShrunk(1.0 - Shrunk(w, k, ra, rb), w, k, ra * rb)
  {
    var x := w * k;
    var y := x / ra;
    var z := y / rb;
    var t := z / (k + 100.0);
    assert t * (k + 100.0) == z && z * rb == y && y * ra == x;
    assert t * ((ra * rb) * (k + 100.0)) == (t * (k + 100.0)) * (ra * rb);
    assert z * (ra * rb) == (z * rb) * ra;
  }

  /** How a distance becomes the score of a neighbour. */
  function Score(d: real): (s: real)
    requires d >= 0.0
    ensures s * (1.0 + d) == 1.0
  {
    1.0 / (1.0 + d)
  }

  /**
   The score band: neighbours at distance 0 are pruned by the index search, every other score lies in
   [1/2, 1), and with k common elements it is strictly below (k + 100) / (k + 200).
   */
  lemma ScoreBand(idf: seq<real>, a: seq<nat>, b: seq<nat>, ra: real, rb: real)
    requires Weighted(idf, a) && Weighted(idf, b)
    requires IsRoot(ra, WeightedSum(idf, a)) && IsRoot(rb, WeightedSum(idf, b))
    ensures var d := Distance(idf, a, b, ra, rb);
            var k := |Common(a, b)| as real;
            d > 0.0 ==>
              && 0.5 <= Score(d) < 1.0
              && (Score(d) == 0.5 <==> Common(a, b) == [])
              && (k > 0.0 ==> Score(d) < (k + 100.0) / (k + 200.0))
  {
    DistanceLaws(idf, a, b, ra, rb);
    var d := Distance(idf, a, b, ra, rb);
    var k := |Common(a, b)| as real;
    if d > 0.0 {
      InverseStrictly(1.0, 1.0 + d);
    }
    if d > 0.0 && k > 0.0 {
      ScoreOfBound(k, d);
      InverseStrictly(1.0 + d, 2.0);
    }
  }

  lemma ScoreOfBound(k: real, d: real)
    requires k > 0.0 && d > 100.0 / (k + 100.0) > 0.0
    ensures Score(d) < (k + 100.0) / (k + 200.0)
  {
    var low := 100.0 / (k + 100.0);
    InverseStrictly(1.0 + low, 1.0 + d);
    assert (1.0 + low) * (k + 100.0) == k + 200.0;
  }

  lemma InverseStrictly(x: real, y: real)
    requires 0.0 < x < y
    ensures 1.0 / y < 1.0 / x
  {
    assert (1.0 / x - 1.0 / y) * (x * y) == y - x;
  }

  /** The distance that averages tags and users. */
  function AutoDistance(tags: real, users: real): real {
    (tags + users) / 2.0
  }

  /** It keeps the range and the zero law: 0 exactly when both lists agree, 1 exactly when both are disjoint. */
  lemma AutoLaws(tIdf: seq<real>, uIdf: seq<real>, ta: seq<nat>, tb: seq<nat>, ua: seq<nat>, ub: seq<nat>,
                 rta: real, rtb: real, rua: real, rub: real)
    requires Weighted(tIdf, ta) && Weighted(tIdf, tb) && Weighted(uIdf, ua) && Weighted(uIdf, ub)
    requires IsRoot(rta, WeightedSum(tIdf, ta)) && IsRoot(rtb, WeightedSum(tIdf, tb))
    requires IsRoot(rua, WeightedSum(uIdf, ua)) && IsRoot(rub, WeightedSum(uIdf, ub))
    ensures var d := AutoDistance(Distance(tIdf, ta, tb, rta, rtb), Distance(uIdf, ua, ub, rua, rub));
            && d + d == Distance(tIdf, ta, tb, rta, rtb) + Distance(uIdf, ua, ub, rua, rub)
            && d == AutoDistance(Distance(tIdf, tb, ta, rtb, rta), Distance(uIdf, ub, ua, rub, rua))
            && 0.0 <= d <= 1.0
            && (d == 0.0 <==> ta == tb && ua == ub)
            && (d == 1.0 <==> ta != tb && ua != ub && Common(ta, tb) == [] && Common(ua, ub) == [])
            && (Sorted(ta) && Sorted(tb) && Sorted(ua) && Sorted(ub) ==>
                  (d == 1.0 <==> ta != tb && ua != ub && multiset(ta) !! multiset(tb) && multiset(ua) !! multiset(ub)))
  {
    DistanceLaws(tIdf, ta, tb, rta, rtb);
    DistanceLaws(uIdf, ua, ub, rua, rub);
  }
}
