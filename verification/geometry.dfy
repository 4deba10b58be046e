/** src/utils/geometry.ts: centroid and bounding box of a list of points. */
module Geometry {
  import opened Types
  import Seqs

  /** Componentwise sum, folded left to right as `reduce` does. */
  function Sum(ps: seq<Position>): Position
    decreases |ps|
  {
    if |ps| == 0 then Origin
    else Sum(ps[..|ps| - 1]).Plus(ps[|ps| - 1])
  }

  function Xs(ps: seq<Position>): (xs: seq<real>)
    ensures |xs| == |ps| && forall i :: 0 <= i < |ps| ==> xs[i] == ps[i].x
  {
    seq(|ps|, i requires 0 <= i < |ps| => ps[i].x)
  }

  function Ys(ps: seq<Position>): (ys: seq<real>)
    ensures |ys| == |ps| && forall i :: 0 <= i < |ps| ==> ys[i] == ps[i].y
  {
    seq(|ps|, i requires 0 <= i < |ps| => ps[i].y)
  }

  /** The centroid of `ps`; the origin for an empty list. */
  function GetCenter(ps: seq<Position>): (r: Position)
    ensures |ps| == 0 ==> r == Origin
    ensures |ps| > 0 ==> r.x * |ps| as real == Sum(ps).x && r.y * |ps| as real == Sum(ps).y
  {
    if |ps| == 0 then Origin
    else
      var s := Sum(ps);
      Position(s.x / |ps| as real, s.y / |ps| as real)
  }

  /** A single point is its own centre. */
  lemma CenterOfSingleton(p: Position)
    ensures GetCenter([p]) == p
  {
    assert [p][..0] == [];
    assert Sum([p]) == p;
  }

  /**
   * The smallest box holding every point of `ps` (all zero for an empty list):
   * it has non-negative extent, contains each point, and each of its four
   * sides touches some point.
   */
  function GetBoundingBox(ps: seq<Position>): (r: Rect)
    ensures |ps| == 0 ==> r == Rect(0.0, 0.0, 0.0, 0.0)
    ensures r.width >= 0.0 && r.height >= 0.0
    ensures forall i :: 0 <= i < |ps| ==> r.Contains(ps[i])
    ensures |ps| > 0 ==> exists i :: 0 <= i < |ps| && ps[i].x == r.x
    ensures |ps| > 0 ==> exists i :: 0 <= i < |ps| && ps[i].x == r.x + r.width
    ensures |ps| > 0 ==> exists i :: 0 <= i < |ps| && ps[i].y == r.y
    ensures |ps| > 0 ==> exists i :: 0 <= i < |ps| && ps[i].y == r.y + r.height
  {
    if |ps| == 0 then Rect(0.0, 0.0, 0.0, 0.0)
    else
      var xs := Xs(ps);
      var ys := Ys(ps);
      var minX := Seqs.SeqMin(xs);
      var maxX := Seqs.SeqMax(xs);
      var minY := Seqs.SeqMin(ys);
      var maxY := Seqs.SeqMax(ys);
      assert minX <= xs[0] <= maxX && minY <= ys[0] <= maxY;
      Rect(minX, minY, maxX - minX, maxY - minY)
  }

  /** The sum of a list of numbers, folded left to right like `Sum`. */
  function Total(xs: seq<real>): real
    decreases |xs|
  {
    if |xs| == 0 then 0.0 else Total(xs[..|xs| - 1]) + xs[|xs| - 1]
  }

  /** Each coordinate of `Sum(ps)` is the total of that coordinate over `ps`. */
  lemma {:induction false} SumByCoordinate(ps: seq<Position>)
    ensures Sum(ps).x == Total(Xs(ps)) && Sum(ps).y == Total(Ys(ps))
    decreases |ps|
  {
    if |ps| > 0 {
      var init := ps[..|ps| - 1];
      SumByCoordinate(init);
      assert Xs(ps)[..|ps| - 1] == Xs(init);
      assert Ys(ps)[..|ps| - 1] == Ys(init);
    }
  }

  /** The total of `n` numbers in [lo, hi] lies in [n * lo, n * hi]. */
  lemma {:induction false} TotalBounds(xs: seq<real>, lo: real, hi: real)
    requires forall i :: 0 <= i < |xs| ==> lo <= xs[i] <= hi
    ensures |xs| as real * lo <= Total(xs) <= |xs| as real * hi
    decreases |xs|
  {
    if |xs| > 0 {
      var init := xs[..|xs| - 1];
      assert forall i :: 0 <= i < |init| ==> init[i] == xs[i];
      TotalBounds(init, lo, hi);
      var k := |init| as real;
      Distribute(k, lo);
      Distribute(k, hi);
    }
  }

  lemma Distribute(k: real, a: real)
    ensures (k + 1.0) * a == k * a + a
  {
  }

  /** The mean `sum / n` of `n` values in [lo, hi] lies in [lo, hi]. */
  lemma MeanBetween(n: real, sum: real, lo: real, hi: real)
    requires n > 0.0
    requires n * lo <= sum <= n * hi
    ensures lo <= sum / n <= hi
  {
    var c := sum / n;
    assert c * n == sum;
  }

  /** The mean of a non-empty list of numbers in [lo, hi] lies in [lo, hi]. */
  lemma MeanInside(xs: seq<real>, lo: real, hi: real)
    requires |xs| > 0
    requires forall i :: 0 <= i < |xs| ==> lo <= xs[i] <= hi
    ensures lo <= Total(xs) / |xs| as real <= hi
  {
    TotalBounds(xs, lo, hi);
    MeanBetween(|xs| as real, Total(xs), lo, hi);
  }

  /** The centroid of a non-empty list lies in every box that holds all its points. */
  lemma CenterInsideBox(ps: seq<Position>, box: Rect)
    requires |ps| > 0
    requires forall i :: 0 <= i < |ps| ==> box.Contains(ps[i])
    ensures box.Contains(GetCenter(ps))
  {
    SumByCoordinate(ps);
    MeanInside(Xs(ps), box.x, box.x + box.width);
    MeanInside(Ys(ps), box.y, box.y + box.height);
  }

  /** In particular the centroid lies inside the bounding box. */
  lemma CenterInBoundingBox(ps: seq<Position>)
    requires |ps| > 0
    ensures GetBoundingBox(ps).Contains(GetCenter(ps))
  {
    CenterInsideBox(ps, GetBoundingBox(ps));
  }
}
