/** The live swarm and its rebuild: rasterize the text, walk the samples, and
    for each one either retarget the nearest still-available old particle
    (only when resizing) or create a new one; unclaimed old particles are
    dropped. */
module Swarm {
  import opened Raster
  import opened Particles
  import opened Nearest
  import opened Plan
  import Sizing

  /** The text shown when the page loads. */
  const InitialText: string := "UABJO"

  predicate Distinct(ps: seq<Particle>)
  {
    forall i, j :: 0 <= i < j < |ps| ==> ps[i] != ps[j]
  }

  /** The host's rasterizer: the RGBA buffer for a text at a font size, always
      four bytes per pixel of a `width` by `height` canvas. */
  ghost predicate RenderFits(render: (string, real) -> seq<Byte>, width: nat, height: nat)
  {
    forall t, f :: WellSized(render(t, f), width, height)
  }

  /** The host's random source: every draw is uniform in [0, 1). */
  ghost predicate RandomFits(rand: nat -> Draw)
  {
    forall i :: rand(i).Valid()
  }

  /** The samples of a text on a `width` by `height` canvas, in visiting order. */
  function Layout(text: string, width: nat, height: nat, render: (string, real) -> seq<Byte>): (r: seq<Sample>)
    requires |text| >= 1 && RenderFits(render, width, height)
    ensures forall i :: 0 <= i < |r| ==> r[i].x < width && r[i].y < height
  {
    var data := render(text, Sizing.FontSize(Sizing.MinNat(width, height), Sizing.Utf16Length(text)));
    Samples(data, width, height, Sizing.PixelSkipForArea(width * height))
  }

  ghost function States(ps: seq<Particle>): (r: seq<ParticleState>)
    reads set p | p in ps
    ensures |r| == |ps| && forall i :: 0 <= i < |ps| ==> r[i] == ps[i].State()
  {
    if ps == [] then [] else [ps[0].State()] + States(ps[1..])
  }

  function Points(states: seq<ParticleState>): (r: seq<Point>)
    ensures |r| == |states| && forall i :: 0 <= i < |states| ==> r[i] == Point(states[i].x, states[i].y)
  {
    seq(|states|, i requires 0 <= i < |states| => Point(states[i].x, states[i].y))
  }

  ghost function PointsOf(ps: seq<Particle>): (r: seq<Point>)
    reads set p | p in ps
    ensures |r| == |ps| && forall i :: 0 <= i < |ps| ==> r[i] == Point(ps[i].x, ps[i].y)
  {
    if ps == [] then [] else [Point(ps[0].x, ps[0].y)] + PointsOf(ps[1..])
  }

  /** How a rebuild creates particles: entering from below the bottom edge of
      a canvas of height `canvasHeight`, or on their bases. */
  datatype Entry = Entry(fromBottom: bool, canvasHeight: real)

  /** The state of a particle created for sample `s`. */
  function Spawned(s: Sample, r: Draw, entry: Entry): (p: ParticleState)
    requires r.Valid()
    ensures p.baseX == s.x as real && p.baseY == s.y as real && p.color == s.color && p.velX == 0.0
    ensures entry.fromBottom ==> p == Entering(s.x as real, s.y as real, s.color, entry.canvasHeight, r)
    ensures !entry.fromBottom ==> p.x == p.baseX && p.y == p.baseY && p.velY == 0.0
  {
    if entry.fromBottom then Entering(s.x as real, s.y as real, s.color, entry.canvasHeight, r)
    else AtBase(s.x as real, s.y as real, s.color, r)
  }

  /** The state a sample's particle has after the rebuild: a reused old
      particle keeps everything but its base, which moves to the sample; a new
      one sits on the sample, motionless, with the sample's colour. */
  function Outcome(olds: seq<ParticleState>, s: Sample, choice: Option<nat>, r: Draw, entry: Entry): ParticleState
    requires choice.Some? ==> choice.value < |olds|
    requires r.Valid()
  {
    match choice
    case Some(j) => olds[j].(baseX := s.x as real, baseY := s.y as real)
    case None => Spawned(s, r, entry)
  }

  /** Entry `i` of `result` is what the rebuild makes of `samples[i]`: the
      reused old particle with its base moved, or a particle that was not live. */
  ghost predicate PlacedAt(olds: seq<Particle>, oldStates: seq<ParticleState>, choices: seq<Option<nat>>,
                           result: seq<Particle>, samples: seq<Sample>, rand: nat -> Draw, entry: Entry, i: nat)
    reads set p | p in result
  {
    i < |result| && i < |samples| && i < |choices| && rand(i).Valid()
    && (choices[i].Some? ==> choices[i].value < |oldStates| && choices[i].value < |olds|)
    && result[i].State() == Outcome(oldStates, samples[i], choices[i], rand(i), entry)
    && match choices[i]
       case Some(j) => result[i] == olds[j]
       case None => result[i] !in olds
  }

  /** `result` is what the rebuild makes of `samples` under `choices`, from the
      old particles `olds` whose states were `oldStates`: one distinct particle
      per sample, in order. */
  ghost predicate Rebuilt(olds: seq<Particle>, oldStates: seq<ParticleState>, choices: seq<Option<nat>>,
                          result: seq<Particle>, samples: seq<Sample>, rand: nat -> Draw, entry: Entry)
    reads set p | p in result
  {
    |olds| == |oldStates| && |choices| == |samples| && ChoicesBelow(choices, |olds|)
    && |result| == |samples| && Distinct(result)
    && forall i: nat :: i < |result| ==> PlacedAt(olds, oldStates, choices, result, samples, rand, entry, i)
  }

  /** An old particle in the result is exactly one some sample claimed. */
  lemma DroppedUnlessClaimed(olds: seq<Particle>, oldStates: seq<ParticleState>, choices: seq<Option<nat>>,
                             result: seq<Particle>, samples: seq<Sample>, rand: nat -> Draw, entry: Entry, j: nat)
    requires RandomFits(rand) && Distinct(olds) && j < |olds|
    requires Rebuilt(olds, oldStates, choices, result, samples, rand, entry)
    ensures olds[j] in result <==> Some(j) in choices
  {
    if olds[j] in result {
      var i :| 0 <= i < |result| && result[i] == olds[j];
      assert PlacedAt(olds, oldStates, choices, result, samples, rand, entry, i);
    }
    if Some(j) in choices {
      var i :| 0 <= i < |choices| && choices[i] == Some(j);
      assert PlacedAt(olds, oldStates, choices, result, samples, rand, entry, i);
    }
  }

  /** Every particle of a rebuild aims at its own sample, reused or not. */
  lemma RebuiltAimsAtSamples(olds: seq<Particle>, oldStates: seq<ParticleState>, choices: seq<Option<nat>>,
                             result: seq<Particle>, samples: seq<Sample>, rand: nat -> Draw, entry: Entry)
    requires RandomFits(rand) && Rebuilt(olds, oldStates, choices, result, samples, rand, entry)
    ensures |result| == |samples|
    ensures forall i :: 0 <= i < |result| ==>
      result[i].baseX == samples[i].x as real && result[i].baseY == samples[i].y as real
  {
    forall i | 0 <= i < |result|
      ensures result[i].baseX == samples[i].x as real && result[i].baseY == samples[i].y as real
    {
      assert PlacedAt(olds, oldStates, choices, result, samples, rand, entry, i);
    }
  }

  /** The unclaimed old particles, in their old order, are `available`. */
  ghost predicate Bookkeeping(olds: seq<Particle>, oldStates: seq<ParticleState>, plan: Plan, available: seq<Particle>)
  {
    |olds| == |oldStates| && Distinct(olds) && Partitions(|olds|, plan)
    && |available| == |plan.avail|
    && (forall k :: 0 <= k < |available| ==> available[k] == olds[plan.avail[k]])
  }

  /** Old particle `j` differs from its old state `oldStates[j]` at most in its base. */
  ghost predicate KeptAt(olds: seq<Particle>, oldStates: seq<ParticleState>, j: nat)
    reads set p | p in olds
  {
    j < |olds| && j < |oldStates|
    && olds[j].State().(baseX := 0.0, baseY := 0.0) == oldStates[j].(baseX := 0.0, baseY := 0.0)
  }

  /** During a rebuild an old particle changes at most its base. */
  ghost predicate Keeps(olds: seq<Particle>, oldStates: seq<ParticleState>)
    reads set p | p in olds
  {
    |olds| == |oldStates| && forall j: nat :: j < |olds| ==> KeptAt(olds, oldStates, j)
  }

  lemma BookkeepingAtStart(olds: seq<Particle>, oldStates: seq<ParticleState>, resizing: bool)
    requires Distinct(olds) && |olds| == |oldStates|
    ensures Bookkeeping(olds, oldStates, Assign(Points(oldStates), resizing, []), olds)
  {
    AssignPartitions(Points(oldStates), resizing, []);
  }

  /** A rebuild without resizing reuses nothing: every particle is new and
      spawned on its sample. */
  lemma FreshWithoutResizing(olds: seq<Particle>, oldStates: seq<ParticleState>, result: seq<Particle>,
                             samples: seq<Sample>, rand: nat -> Draw, entry: Entry)
    requires RandomFits(rand)
    requires Rebuilt(olds, oldStates, Assign(Points(oldStates), false, samples).choices, result, samples, rand, entry)
    ensures forall i :: 0 <= i < |result| ==>
      result[i] !in olds && result[i].State() == Spawned(samples[i], rand(i), entry)
  {
    var choices := Assign(Points(oldStates), false, samples).choices;
    AssignWithoutResizing(Points(oldStates), samples);
    assert forall i :: 0 <= i < |choices| ==> choices[i] == None;
    AllSpawned(olds, oldStates, choices, result, samples, rand, entry);
  }

  lemma AllSpawned(olds: seq<Particle>, oldStates: seq<ParticleState>, choices: seq<Option<nat>>,
                   result: seq<Particle>, samples: seq<Sample>, rand: nat -> Draw, entry: Entry)
    requires RandomFits(rand) && Rebuilt(olds, oldStates, choices, result, samples, rand, entry)
    requires forall i :: 0 <= i < |choices| ==> choices[i] == None
    ensures forall i :: 0 <= i < |result| ==>
      result[i] !in olds && result[i].State() == Spawned(samples[i], rand(i), entry)
  {
    forall i | 0 <= i < |result|
      ensures result[i] !in olds && result[i].State() == Spawned(samples[i], rand(i), entry)
    {
      assert PlacedAt(olds, oldStates, choices, result, samples, rand, entry, i);
    }
  }

  /** A particle a rebuild reused comes from a resize and was strictly inside
      the search radius of the sample it now aims at. */
  lemma ReusedWasNear(olds: seq<Particle>, oldStates: seq<ParticleState>, resizing: bool, result: seq<Particle>,
                      samples: seq<Sample>, rand: nat -> Draw, entry: Entry, i: nat)
    requires RandomFits(rand) && i < |result|
    requires Rebuilt(olds, oldStates, Assign(Points(oldStates), resizing, samples).choices, result, samples, rand, entry)
    requires result[i] in olds
    ensures resizing
    ensures DistSq(Point(result[i].x, result[i].y), samples[i].x as real, samples[i].y as real) < SearchRadiusSq
  {
    var pts := Points(oldStates);
    var choices := Assign(pts, resizing, samples).choices;
    assert PlacedAt(olds, oldStates, choices, result, samples, rand, entry, i);
    AssignPartitions(pts, resizing, samples[..i]);
    ChoiceIsNearest(pts, resizing, samples, i);
    var j := choices[i].value;
    assert Point(result[i].x, result[i].y) == pts[j];
  }

  class Simulation {
    var particles: seq<Particle>
    var lastText: string

    ghost predicate Valid()
      reads this
    {
      Distinct(particles)
    }

    /** The page's state before the first text: no particles, no text. */
    constructor ()
      ensures Valid() && particles == [] && lastText == ""
    {
      particles := [];
      lastText := "";
    }

    /** The nearest available particle to (x, y) strictly within the search
        radius, by its position in `available`. */
    static method FindNearest(available: seq<Particle>, x: real, y: real) returns (found: Option<nat>)
      ensures IsNearest(PointsOf(available), x, y, found)
      ensures found == NearestIn(PointsOf(available), x, y)
    {
      ghost var pts := PointsOf(available);
      var minDistSq: Bound := Infinity;
      found := None;
      var i := 0;
      while i < |available|
        invariant 0 <= i <= |available|
        invariant found == Scan(pts, x, y, i)
        invariant minDistSq == BestDist(pts, x, y, found)
      {
        var p := available[i];
        var dX := p.x - x;
        var dY := p.y - y;
        var distSq := dX * dX + dY * dY;
        assert pts[i] == Point(p.x, p.y);
        assert distSq == DistSq(pts[i], x, y);
        if Below(distSq, minDistSq) && distSq < SearchRadiusSq {
          minDistSq := Finite(distSq);
          found := Some(i);
        }
        i := i + 1;
      }
      NearestInIsNearest(pts, x, y);
    }

    /** The rebuild's handling of one accepted sample `s`, with `plan` the decisions so far. */
    static method PlaceSample(s: Sample, isResizing: bool, rand: nat -> Draw, entry: Entry,
                       available: seq<Particle>, result: seq<Particle>,
                       ghost olds: seq<Particle>, ghost oldStates: seq<ParticleState>,
                       ghost plan: Plan, ghost seen: seq<Sample>)
      returns (available': seq<Particle>, result': seq<Particle>, ghost plan': Plan)
      requires RandomFits(rand)
      requires Bookkeeping(olds, oldStates, plan, available) && Keeps(olds, oldStates)
      requires Rebuilt(olds, oldStates, plan.choices, result, seen, rand, entry)
      modifies set p | p in olds
      ensures plan' == Advance(Points(oldStates), isResizing, plan, s)
      ensures Bookkeeping(olds, oldStates, plan', available') && Keeps(olds, oldStates)
      ensures Rebuilt(olds, oldStates, plan'.choices, result', seen + [s], rand, entry)
    {
      ghost var pts := Points(oldStates);
      plan' := Advance(pts, isResizing, plan, s);
      AdvancePartitions(pts, isResizing, plan, s);
      var found: Option<nat> := None;
      if isResizing && |available| > 0 {
        AvailablePoints(olds, oldStates, plan, available);
        found := FindNearest(available, s.x as real, s.y as real);
        if found.Some? {
          var k := found.value;
          var p := available[k];
          ClaimedIsNotPlaced(olds, oldStates, plan, result, seen, rand, entry, k);
          Retarget(p, s, olds, oldStates, plan.avail[k], plan.choices, result, seen, rand, entry);
          result' := result + [p];
          available' := RemoveAt(available, k);
          ClaimBookkeeping(olds, oldStates, plan, available, k, plan');
        }
      }
      if found.None? {
        var p := new Particle(s.x as real, s.y as real, s.color, entry.fromBottom, entry.canvasHeight, rand(|result|));
        result' := result + [p];
        available' := available;
        RebuiltExtend(olds, oldStates, plan.choices, result, seen, rand, entry, s, None, p);
      }
    }

    /** The rebuild for `text`. The canvas is `width` by `height`; the host
        rasterizes with `render` and draws random numbers with `rand`, one
        `Draw` per sample. `lastText` already holds `text` when the bottom-entry
        test runs, so that test is false and new particles start on their bases. */
    method CreateTextParticles(text: string, isResizing: bool, width: nat, height: nat, canvasHeight: real,
                               render: (string, real) -> seq<Byte>, rand: nat -> Draw)
      requires Valid() && |text| >= 1 && RenderFits(render, width, height) && RandomFits(rand)
      modifies this, set p | p in particles
      ensures Valid() && lastText == text
      ensures var samples := Layout(text, width, height, render);
        Rebuilt(old(particles), old(States(particles)),
                Assign(Points(old(States(particles))), isResizing, samples).choices,
                particles, samples, rand, Entry(false, canvasHeight))
      ensures Keeps(old(particles), old(States(particles)))
    {
      ghost var olds := particles;
      ghost var oldStates := States(particles);
      lastText := text;
      var entry := Entry(lastText == "" && !isResizing, canvasHeight);
      var minDimension := Sizing.MinNat(width, height);
      var fontSize := Sizing.FontSize(minDimension, Sizing.Utf16Length(text));
      var data := render(text, fontSize);
      var currentArea := width * height;
      var calculatedPixelSkip := Sizing.CalculatedPixelSkip(Sizing.RoundedRoot(currentArea));
      var pixelSkip: nat := Sizing.PixelSkip(calculatedPixelSkip);
      ghost var pts := Points(oldStates);
      BookkeepingAtStart(olds, oldStates, isResizing);
      var newParticles, plan := WalkGrid(data, width, height, pixelSkip, isResizing, rand, entry, particles, oldStates);
      ghost var all := Samples(data, width, height, pixelSkip);
      ghost var samples := Layout(text, width, height, render);
      assert all == samples;
      assert Rebuilt(olds, oldStates, Assign(pts, isResizing, samples).choices, newParticles, samples, rand, entry);
      particles := newParticles;
      assert old(particles) == olds && old(States(particles)) == oldStates;
    }

    /** The resize handler, after the debounce and once the canvas is
        `width` by `height`: the shown text, if any, is rebuilt reusing nearby
        particles; new ones start on their bases. */
    method Resize(width: nat, height: nat, render: (string, real) -> seq<Byte>, rand: nat -> Draw)
      requires Valid() && RenderFits(render, width, height) && RandomFits(rand)
      modifies this, set p | p in particles
      ensures Valid() && lastText == old(lastText)
      ensures old(lastText) == "" ==> particles == old(particles)
      ensures old(lastText) == "" ==> States(particles) == old(States(particles))
      ensures old(lastText) != "" ==>
        var samples := Layout(lastText, width, height, render);
        Rebuilt(old(particles), old(States(particles)),
                Assign(Points(old(States(particles))), true, samples).choices,
                particles, samples, rand, Entry(false, height as real))
      ensures old(lastText) != "" ==> Keeps(old(particles), old(States(particles)))
    {
      if lastText != "" {
        CreateTextParticles(lastText, true, width, height, height as real, render, rand);
      }
    }

    /** The submit handler, given the trimmed input `value` and its upper-case
        form `upper`: blank input changes nothing; otherwise the old swarm is
        dropped and every particle of `upper` is new and starts on its base. */
    method Submit(value: string, upper: string, width: nat, height: nat, canvasHeight: real,
                  render: (string, real) -> seq<Byte>, rand: nat -> Draw)
      requires value != "" ==> |upper| >= 1
      requires Valid() && RenderFits(render, width, height) && RandomFits(rand)
      modifies this, set p | p in particles
      ensures Valid()
      ensures value == "" ==> particles == old(particles) && lastText == old(lastText)
      ensures value == "" ==> States(particles) == old(States(particles))
      ensures value != "" ==>
        var samples := Layout(upper, width, height, render);
        lastText == upper && |particles| == |samples|
        && forall i :: 0 <= i < |particles| ==>
             particles[i] !in old(particles)
             && particles[i].State() == AtBase(samples[i].x as real, samples[i].y as real, samples[i].color, rand(i))
    {
      if value != "" {
        lastText := "";
        ghost var olds := particles;
        ghost var oldStates := States(particles);
        CreateTextParticles(upper, false, width, height, canvasHeight, render, rand);
        FreshWithoutResizing(olds, oldStates, particles, Layout(upper, width, height, render), rand,
                             Entry(false, canvasHeight));
      }
    }

    /** The page load: the initial text, every particle new and on its base. */
    static method Boot(width: nat, height: nat, canvasHeight: real,
                       render: (string, real) -> seq<Byte>, rand: nat -> Draw) returns (sim: Simulation)
      requires RenderFits(render, width, height) && RandomFits(rand)
      ensures fresh(sim) && sim.Valid() && sim.lastText == InitialText
      ensures var samples := Layout(InitialText, width, height, render);
        |sim.particles| == |samples|
        && forall i :: 0 <= i < |sim.particles| ==>
             sim.particles[i].State() == AtBase(samples[i].x as real, samples[i].y as real, samples[i].color, rand(i))
    {
      sim := new Simulation();
      sim.CreateTextParticles(InitialText, false, width, height, canvasHeight, render, rand);
      FreshWithoutResizing([], [], sim.particles, Layout(InitialText, width, height, render), rand,
                           Entry(false, canvasHeight));
    }

    /** The rebuild's walk over the stride grid, row by row from the top:
        `result` holds one particle per accepted sample, taken from the old
        particles `olds` or made new. */
    static method WalkGrid(data: seq<Byte>, width: nat, height: nat, pixelSkip: nat, isResizing: bool,
                    rand: nat -> Draw, entry: Entry, olds: seq<Particle>, ghost oldStates: seq<ParticleState>)
      returns (result: seq<Particle>, ghost plan: Plan)
      requires WellSized(data, width, height) && pixelSkip > 0
      requires RandomFits(rand)
      requires Bookkeeping(olds, oldStates, Assign(Points(oldStates), isResizing, []), olds) && Keeps(olds, oldStates)
      modifies set p | p in olds
      ensures plan == Assign(Points(oldStates), isResizing, Samples(data, width, height, pixelSkip))
      ensures Rebuilt(olds, oldStates, plan.choices, result, Samples(data, width, height, pixelSkip), rand, entry)
      ensures Keeps(olds, oldStates)
    {
      ghost var all := Samples(data, width, height, pixelSkip);
      ghost var pts := Points(oldStates);
      result := [];
      var available := olds;
      ghost var seen: seq<Sample> := [];
      plan := Assign(pts, isResizing, seen);
      var y := 0;
      while y < height
        invariant seen + GridFrom(data, width, height, pixelSkip, y) == all
        invariant plan == Assign(pts, isResizing, seen)
        invariant Bookkeeping(olds, oldStates, plan, available) && Keeps(olds, oldStates)
        invariant Rebuilt(olds, oldStates, plan.choices, result, seen, rand, entry)
      {
        GridStep(data, width, height, pixelSkip, y, seen, all);
        available, result, plan, seen := WalkRow(data, width, height, pixelSkip, y, isResizing, rand, entry,
                                                 available, result, olds, oldStates, plan, seen);
        y := y + pixelSkip;
      }
      assert GridFrom(data, width, height, pixelSkip, y) == [];
      assert seen == all;
    }

    /** The rebuild's walk along row `y` of the stride grid, left to right. */
    static method WalkRow(data: seq<Byte>, width: nat, height: nat, pixelSkip: nat, y: nat, isResizing: bool,
                   rand: nat -> Draw, entry: Entry, available: seq<Particle>, result: seq<Particle>,
                   ghost olds: seq<Particle>, ghost oldStates: seq<ParticleState>,
                   ghost plan: Plan, ghost seen: seq<Sample>)
      returns (available': seq<Particle>, result': seq<Particle>, ghost plan': Plan, ghost seen': seq<Sample>)
      requires WellSized(data, width, height) && pixelSkip > 0 && y < height
      requires RandomFits(rand)
      requires plan == Assign(Points(oldStates), isResizing, seen)
      requires Bookkeeping(olds, oldStates, plan, available) && Keeps(olds, oldStates)
      requires Rebuilt(olds, oldStates, plan.choices, result, seen, rand, entry)
      modifies set p | p in olds
      ensures seen' == seen + RowFrom(data, width, height, pixelSkip, y, 0)
      ensures plan' == Assign(Points(oldStates), isResizing, seen')
      ensures Bookkeeping(olds, oldStates, plan', available') && Keeps(olds, oldStates)
      ensures Rebuilt(olds, oldStates, plan'.choices, result', seen', rand, entry)
    {
      ghost var pts := Points(oldStates);
      available', result', plan', seen' := available, result, plan, seen;
      var x := 0;
      while x < width
        invariant seen' + RowFrom(data, width, height, pixelSkip, y, x) == seen + RowFrom(data, width, height, pixelSkip, y, 0)
        invariant plan' == Assign(pts, isResizing, seen')
        invariant Bookkeeping(olds, oldStates, plan', available') && Keeps(olds, oldStates)
        invariant Rebuilt(olds, oldStates, plan'.choices, result', seen', rand, entry)
      {
        var alpha, color := ReadPixel(data, width, height, x, y);
        ghost var rest := RowFrom(data, width, height, pixelSkip, y, x + pixelSkip);
        if alpha > AlphaThreshold {
          var sample := Sample(x, y, color);
          assert RowFrom(data, width, height, pixelSkip, y, x) == [sample] + rest;
          AssignSnoc(pts, isResizing, seen', sample);
          available', result', plan' := PlaceSample(sample, isResizing, rand, entry,
                                                    available', result', olds, oldStates, plan', seen');
          assert seen' + [sample] + rest == seen' + ([sample] + rest);
          seen' := seen' + [sample];
        } else {
          assert RowFrom(data, width, height, pixelSkip, y, x) == rest;
        }
        x := x + pixelSkip;
      }
    }
  }

  /** The reuse of old particle `j` for sample `s`: only its base moves. */
  method Retarget(p: Particle, s: Sample, ghost olds: seq<Particle>, ghost oldStates: seq<ParticleState>, ghost j: nat,
                  ghost choices: seq<Option<nat>>, ghost result: seq<Particle>, ghost seen: seq<Sample>, ghost rand: nat -> Draw,
                  ghost entry: Entry)
    requires RandomFits(rand) && j < |olds| && p == olds[j] && p !in result
    requires Keeps(olds, oldStates) && Rebuilt(olds, oldStates, choices, result, seen, rand, entry)
    modifies p
    ensures Keeps(olds, oldStates)
    ensures Rebuilt(olds, oldStates, choices + [Some(j)], result + [p], seen + [s], rand, entry)
  {
    p.SetNewBasePosition(s.x as real, s.y as real);
    forall i: nat | i < |olds|
      ensures KeptAt(olds, oldStates, i)
    {
      assert old(KeptAt(olds, oldStates, i));
      if olds[i] != p {
        assert olds[i].State() == old(olds[i].State());
      }
    }
    assert KeptAt(olds, oldStates, j);
    assert Rebuilt(olds, oldStates, choices, result, seen, rand, entry);
    RebuiltExtend(olds, oldStates, choices, result, seen, rand, entry, s, Some(j), p);
  }

  lemma AvailablePoints(olds: seq<Particle>, oldStates: seq<ParticleState>, plan: Plan, available: seq<Particle>)
    requires Bookkeeping(olds, oldStates, plan, available) && Keeps(olds, oldStates)
    ensures PointsOf(available) == Gather(Points(oldStates), plan.avail)
  {
    forall k | 0 <= k < |available|
      ensures PointsOf(available)[k] == Gather(Points(oldStates), plan.avail)[k]
    {
      assert KeptAt(olds, oldStates, plan.avail[k]);
    }
  }

  lemma ClaimBookkeeping(olds: seq<Particle>, oldStates: seq<ParticleState>, plan: Plan, available: seq<Particle>,
                         k: nat, next: Plan)
    requires Bookkeeping(olds, oldStates, plan, available) && k < |available|
    requires next == Plan(RemoveAt(plan.avail, k), plan.choices + [Some(plan.avail[k])])
    requires Partitions(|olds|, next)
    ensures Bookkeeping(olds, oldStates, next, RemoveAt(available, k))
  {
  }

  lemma RebuiltExtend(olds: seq<Particle>, oldStates: seq<ParticleState>, choices: seq<Option<nat>>,
                       result: seq<Particle>, seen: seq<Sample>, rand: nat -> Draw, entry: Entry,
                       s: Sample, c: Option<nat>, p: Particle)
    requires RandomFits(rand) && Rebuilt(olds, oldStates, choices, result, seen, rand, entry)
    requires c.Some? ==> c.value < |olds| && p == olds[c.value]
    requires c.None? ==> p !in olds
    requires p !in result && p.State() == Outcome(oldStates, s, c, rand(|seen|), entry)
    ensures Rebuilt(olds, oldStates, choices + [c], result + [p], seen + [s], rand, entry)
  {
    var choices', result', seen' := choices + [c], result + [p], seen + [s];
    forall i: nat | i < |result'|
      ensures PlacedAt(olds, oldStates, choices', result', seen', rand, entry, i)
    {
      if i < |result| {
        assert PlacedAt(olds, oldStates, choices, result, seen, rand, entry, i);
      }
    }
  }

  lemma ClaimedIsNotPlaced(olds: seq<Particle>, oldStates: seq<ParticleState>, plan: Plan,
                           result: seq<Particle>, seen: seq<Sample>, rand: nat -> Draw, entry: Entry, k: nat)
    requires RandomFits(rand) && Distinct(olds) && Partitions(|olds|, plan) && k < |plan.avail|
    requires Rebuilt(olds, oldStates, plan.choices, result, seen, rand, entry)
    ensures olds[plan.avail[k]] !in result
  {
    forall i | 0 <= i < |result|
      ensures result[i] != olds[plan.avail[k]]
    {
      assert PlacedAt(olds, oldStates, plan.choices, result, seen, rand, entry, i);
    }
  }
}
