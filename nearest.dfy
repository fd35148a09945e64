/** The nearest-available rule of the rebuild: among the candidates, the one
    with the smallest squared distance from the sample, strictly below 100
    squared, the first one in order winning a tie. */
module Nearest {

  datatype Option<T> = None | Some(value: T)

  /** A number of the source that starts out as `Infinity`. */
  datatype Bound = Infinity | Finite(v: real)

  datatype Point = Point(x: real, y: real)

  const SearchRadiusSq: real := 100.0 * 100.0

  function DistSq(p: Point, x: real, y: real): real
  {
    (p.x - x) * (p.x - x) + (p.y - y) * (p.y - y)
  }

  predicate Below(d: real, bound: Bound)
  {
    bound.Infinity? || d < bound.v
  }

  /** `found` is the answer the rule gives for the candidates `pts` and the
      sample (x, y): none when no candidate lies strictly inside the radius;
      otherwise a candidate inside the radius that is strictly nearer than
      every earlier one and no farther than every later one. */
  predicate IsNearest(pts: seq<Point>, x: real, y: real, found: Option<nat>)
  {
    NearestAmong(pts, |pts|, x, y, found)
  }

  /** The rule applied to the first `n` candidates. */
  predicate NearestAmong(pts: seq<Point>, n: nat, x: real, y: real, found: Option<nat>)
    requires n <= |pts|
  {
    match found
    case None => forall j :: 0 <= j < n ==> DistSq(pts[j], x, y) >= SearchRadiusSq
    case Some(k) =>
      k < n && DistSq(pts[k], x, y) < SearchRadiusSq
      && (forall j :: 0 <= j < k ==> DistSq(pts[j], x, y) > DistSq(pts[k], x, y))
      && (forall j :: k < j < n ==> DistSq(pts[j], x, y) >= DistSq(pts[k], x, y))
  }

  /** The rule has at most one answer. */
  lemma NearestIsUnique(pts: seq<Point>, x: real, y: real, a: Option<nat>, b: Option<nat>)
    requires IsNearest(pts, x, y, a) && IsNearest(pts, x, y, b)
    ensures a == b
  {
  }

  /** The best distance seen so far, as the source's `minDistSq`. */
  function BestDist(pts: seq<Point>, x: real, y: real, best: Option<nat>): Bound
    requires best.Some? ==> best.value < |pts|
  {
    match best
    case None => Infinity
    case Some(k) => Finite(DistSq(pts[k], x, y))
  }

  /** The scan of the first `n` candidates, one comparison per candidate. */
  function Scan(pts: seq<Point>, x: real, y: real, n: nat): (best: Option<nat>)
    requires n <= |pts|
    ensures best.Some? ==> best.value < n
  {
    if n == 0 then None
    else
      var best := Scan(pts, x, y, n - 1);
      var d := DistSq(pts[n - 1], x, y);
      if Below(d, BestDist(pts, x, y, best)) && d < SearchRadiusSq then Some(n - 1) else best
  }

  function NearestIn(pts: seq<Point>, x: real, y: real): (found: Option<nat>)
    ensures found.Some? ==> found.value < |pts|
  {
    Scan(pts, x, y, |pts|)
  }

  lemma {:induction false} ScanIsNearest(pts: seq<Point>, x: real, y: real, n: nat)
    requires n <= |pts|
    ensures NearestAmong(pts, n, x, y, Scan(pts, x, y, n))
  {
    if n > 0 {
      ScanIsNearest(pts, x, y, n - 1);
    }
  }

  /** The scan gives the rule's answer. */
  lemma NearestInIsNearest(pts: seq<Point>, x: real, y: real)
    ensures IsNearest(pts, x, y, NearestIn(pts, x, y))
  {
    ScanIsNearest(pts, x, y, |pts|);
  }
}
