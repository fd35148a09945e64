/** The rebuild's decisions on values: which old particle, by index in the old
    list, each sample reuses, and which old particles are still available. */
module Plan {
  import opened Nearest
  import opened Raster

  /** `avail`: the indices of the old particles still unclaimed, in their old
      order; `choices[i]`: the old particle sample `i` reuses, if any. */
  datatype Plan = Plan(avail: seq<nat>, choices: seq<Option<nat>>)

  predicate IndicesBelow(idx: seq<nat>, n: nat)
  {
    forall k :: 0 <= k < |idx| ==> idx[k] < n
  }

  predicate ChoicesBelow(choices: seq<Option<nat>>, n: nat)
  {
    forall i :: 0 <= i < |choices| && choices[i].Some? ==> choices[i].value < n
  }

  function Range(n: nat): (r: seq<nat>)
    ensures |r| == n && forall i :: 0 <= i < n ==> r[i] == i
  {
    seq(n, i => i)
  }

  /** The positions of the candidates with the given indices, in that order. */
  function Gather(pts: seq<Point>, idx: seq<nat>): (r: seq<Point>)
    requires IndicesBelow(idx, |pts|)
    ensures |r| == |idx| && forall k :: 0 <= k < |idx| ==> r[k] == pts[idx[k]]
  {
    seq(|idx|, k requires 0 <= k < |idx| => pts[idx[k]])
  }

  /** Deleting from the available set keeps the order of the rest. */
  function RemoveAt<T>(s: seq<T>, k: nat): (r: seq<T>)
    requires k < |s|
    ensures |r| == |s| - 1
    ensures forall i :: 0 <= i < k ==> r[i] == s[i]
    ensures forall i :: k <= i < |r| ==> r[i] == s[i + 1]
  {
    s[..k] + s[k + 1..]
  }

  /** The decision for one more sample `s`, with `pts` the positions of the old
      particles: when resizing and candidates remain, the nearest available one
      in range is claimed; otherwise a new particle is made. */
  function Advance(pts: seq<Point>, resizing: bool, plan: Plan, s: Sample): (next: Plan)
    requires IndicesBelow(plan.avail, |pts|) && ChoicesBelow(plan.choices, |pts|)
    ensures IndicesBelow(next.avail, |pts|) && ChoicesBelow(next.choices, |pts|)
    ensures |next.choices| == |plan.choices| + 1 && next.choices[..|plan.choices|] == plan.choices
  {
    var found := if resizing && |plan.avail| > 0
                 then NearestIn(Gather(pts, plan.avail), s.x as real, s.y as real) else None;
    match found
    case None => Plan(plan.avail, plan.choices + [None])
    case Some(k) => Plan(RemoveAt(plan.avail, k), plan.choices + [Some(plan.avail[k])])
  }

  /** The decisions for a whole sequence of samples, taken in order. */
  function Assign(pts: seq<Point>, resizing: bool, samples: seq<Sample>): (plan: Plan)
    ensures IndicesBelow(plan.avail, |pts|) && ChoicesBelow(plan.choices, |pts|)
    ensures |plan.choices| == |samples|
    decreases |samples|
  {
    if samples == [] then Plan(Range(|pts|), [])
    else Advance(pts, resizing, Assign(pts, resizing, samples[..|samples| - 1]), samples[|samples| - 1])
  }

  lemma AssignSnoc(pts: seq<Point>, resizing: bool, samples: seq<Sample>, s: Sample)
    ensures Assign(pts, resizing, samples + [s]) == Advance(pts, resizing, Assign(pts, resizing, samples), s)
  {
    assert (samples + [s])[..|samples|] == samples;
  }

  predicate Increasing(idx: seq<nat>)
  {
    forall k, k' :: 0 <= k < k' < |idx| ==> idx[k] < idx[k']
  }

  /** Every old index is either still available or claimed by exactly one
      sample, never both; the available ones keep their old order. */
  predicate Partitions(n: nat, plan: Plan)
  {
    IndicesBelow(plan.avail, n) && ChoicesBelow(plan.choices, n) && Increasing(plan.avail)
    && (forall i, i' :: 0 <= i < i' < |plan.choices| && plan.choices[i].Some? ==> plan.choices[i] != plan.choices[i'])
    && (forall i, k :: 0 <= i < |plan.choices| && 0 <= k < |plan.avail| ==> plan.choices[i] != Some(plan.avail[k]))
    && (forall j :: 0 <= j < n ==> j in plan.avail || Some(j) in plan.choices)
  }

  lemma AdvancePartitions(pts: seq<Point>, resizing: bool, plan: Plan, s: Sample)
    requires Partitions(|pts|, plan)
    ensures Partitions(|pts|, Advance(pts, resizing, plan, s))
  {
    var next := Advance(pts, resizing, plan, s);
    if next.avail != plan.avail {
      var found := NearestIn(Gather(pts, plan.avail), s.x as real, s.y as real);
      var k := found.value;
      assert next.choices == plan.choices + [Some(plan.avail[k])];
      assert next.avail == RemoveAt(plan.avail, k);
      forall j | 0 <= j < |pts|
        ensures j in next.avail || Some(j) in next.choices
      {
        if j in plan.avail {
          var m :| 0 <= m < |plan.avail| && plan.avail[m] == j;
          if m < k { assert next.avail[m] == j; }
          else if m > k { assert next.avail[m - 1] == j; }
          else { assert next.choices[|plan.choices|] == Some(j); }
        } else {
          var i :| 0 <= i < |plan.choices| && plan.choices[i] == Some(j);
          assert next.choices[i] == Some(j);
        }
      }
    } else {
      forall j | 0 <= j < |pts| && Some(j) in plan.choices
        ensures Some(j) in next.choices
      {
        var i :| 0 <= i < |plan.choices| && plan.choices[i] == Some(j);
        assert next.choices[i] == Some(j);
      }
    }
  }

  /** Each old particle is reused at most once, and only while available. */
  lemma {:induction false} AssignPartitions(pts: seq<Point>, resizing: bool, samples: seq<Sample>)
    ensures Partitions(|pts|, Assign(pts, resizing, samples))
    decreases |samples|
  {
    if samples == [] {
      var r := Range(|pts|);
      forall j | 0 <= j < |pts| ensures j in r { assert r[j] == j; }
    } else {
      var init := samples[..|samples| - 1];
      AssignPartitions(pts, resizing, init);
      AdvancePartitions(pts, resizing, Assign(pts, resizing, init), samples[|samples| - 1]);
    }
  }

  /** Without resizing nothing is reused and every old particle stays unclaimed. */
  lemma {:induction false} AssignWithoutResizing(pts: seq<Point>, samples: seq<Sample>)
    ensures var plan := Assign(pts, false, samples);
      plan.avail == Range(|pts|) && forall i :: 0 <= i < |samples| ==> plan.choices[i] == None
    decreases |samples|
  {
    if samples != [] {
      var init := samples[..|samples| - 1];
      AssignWithoutResizing(pts, init);
      var plan := Assign(pts, false, samples);
      assert plan.choices[..|init|] == Assign(pts, false, init).choices;
      forall i | 0 <= i < |init| ensures plan.choices[i] == None {
        assert plan.choices[..|init|][i] == plan.choices[i];
      }
    }
  }

  /** Later samples do not change earlier decisions. */
  lemma {:induction false} AssignPrefix(pts: seq<Point>, resizing: bool, samples: seq<Sample>, n: nat)
    requires n <= |samples|
    ensures Assign(pts, resizing, samples[..n]).choices == Assign(pts, resizing, samples).choices[..n]
    decreases |samples|
  {
    if n < |samples| {
      var init := samples[..|samples| - 1];
      AssignPrefix(pts, resizing, init, n);
      assert init[..n] == samples[..n];
      var c := Assign(pts, resizing, samples).choices;
      assert c[..|init|] == Assign(pts, resizing, init).choices;
      assert c[..n] == c[..|init|][..n];
    } else {
      assert samples[..n] == samples;
    }
  }

  /** The rule behind one decision, stated on the old indices. */
  predicate Decides(pts: seq<Point>, resizing: bool, before: seq<nat>, s: Sample, choice: Option<nat>)
    requires IndicesBelow(before, |pts|)
  {
    var x, y := s.x as real, s.y as real;
    match choice
    case Some(j) =>
      resizing && j in before && DistSq(pts[j], x, y) < SearchRadiusSq
      && (forall j' :: j' in before && j' < j ==> DistSq(pts[j'], x, y) > DistSq(pts[j], x, y))
      && (forall j' :: j' in before && j' > j ==> DistSq(pts[j'], x, y) >= DistSq(pts[j], x, y))
    case None =>
      !resizing || forall j' :: j' in before ==> DistSq(pts[j'], x, y) >= SearchRadiusSq
  }

  lemma AdvanceDecides(pts: seq<Point>, resizing: bool, plan: Plan, s: Sample)
    requires Partitions(|pts|, plan)
    ensures var next := Advance(pts, resizing, plan, s);
      Decides(pts, resizing, plan.avail, s, next.choices[|plan.choices|])
  {
    var before := plan.avail;
    var cands := Gather(pts, before);
    var x, y := s.x as real, s.y as real;
    NearestInIsNearest(cands, x, y);
    if resizing && |before| > 0 {
      var found := NearestIn(cands, x, y);
      match found
      case Some(k) =>
        forall j' | j' in before
          ensures j' < before[k] ==> DistSq(pts[j'], x, y) > DistSq(pts[before[k]], x, y)
          ensures j' > before[k] ==> DistSq(pts[j'], x, y) >= DistSq(pts[before[k]], x, y)
        {
          var m :| 0 <= m < |before| && before[m] == j';
          assert cands[m] == pts[j'];
        }
      case None =>
        forall j' | j' in before ensures DistSq(pts[j'], x, y) >= SearchRadiusSq {
          var m :| 0 <= m < |before| && before[m] == j';
          assert cands[m] == pts[j'];
        }
    }
  }

  /** What decided sample `i`, with `before` the old indices still available
      when it came: a reused old particle was available, strictly inside the
      search radius, strictly nearer than every available particle earlier in
      the old order and no farther than every later one; a new particle was
      made only when not resizing or when no available particle was in range. */
  lemma ChoiceIsNearest(pts: seq<Point>, resizing: bool, samples: seq<Sample>, i: nat)
    requires i < |samples|
    ensures var before := Assign(pts, resizing, samples[..i]).avail;
      Decides(pts, resizing, before, samples[i], Assign(pts, resizing, samples).choices[i])
  {
    var plan := Assign(pts, resizing, samples[..i]);
    var s := samples[i];
    var full := Assign(pts, resizing, samples).choices;
    var pre := samples[..i + 1];
    AssignPrefix(pts, resizing, samples, i + 1);
    assert pre == samples[..i] + [s];
    AssignSnoc(pts, resizing, samples[..i], s);
    AssignPartitions(pts, resizing, samples[..i]);
    AdvanceDecides(pts, resizing, plan, s);
    var next := Advance(pts, resizing, plan, s);
    assert next == Assign(pts, resizing, pre);
    assert next.choices == full[..i + 1];
    assert next.choices[|plan.choices|] == full[i];
  }
}
