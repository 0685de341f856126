/**
 A power (Laguerre) diagram of weighted planar sites, built by lifting: the
 site (x, y) of weight w becomes the 3D particle (x, y, sqrt(C - w)) where
 C = 4 * max(weights), and an ordinary 3D Voronoi diagram of the particles,
 cut at z = 0, is the power diagram of the sites.

 Heights are represented by their squares, C - w, so no square root appears;
 since a height is the non-negative root, comparing squared heights compares
 heights. The 3D Voronoi computation and the cell cross-sections it yields
 are not modelled: `GetProjection` receives them as the parameter `section`.
 */
module PowerDiagrams {

  datatype Point = Point(x: real, y: real)

  /** A particle inserted into the 3D container: its id, its planar position
      and the square of its height. */
  datatype Particle = Particle(id: nat, x: real, y: real, heightSq: real)

  /** The container box [0, xMax] x [0, yMax] x [0, sqrt(zMaxSq)]. */
  datatype Container = Container(xMax: real, yMax: real, zMaxSq: real)

  datatype PowerDiagram = PowerDiagram(
    nbSites: nat,
    liftingConstant: real,
    sites: seq<Point>,
    weights: seq<real>,
    container: Container,
    particles: seq<Particle>,
    sitesEdges: seq<seq<Point>>)

  /** The largest weight. */
  function MaxWeight(w: seq<real>): (m: real)
    requires 0 < |w|
    ensures forall i :: 0 <= i < |w| ==> w[i] <= m
    ensures exists i :: 0 <= i < |w| && w[i] == m
  {
    if |w| == 1 then w[0]
    else
      var rest := MaxWeight(w[1..]);
      assert forall i :: 1 <= i < |w| ==> w[i] == w[1..][i - 1];
      if rest <= w[0] then w[0] else rest
  }

  /** The lifting constant: four times the largest weight. */
  function LiftingConstant(w: seq<real>): (c: real)
    requires 0 < |w|
    ensures forall i :: 0 <= i < |w| ==> 4.0 * w[i] <= c
    ensures exists i :: 0 <= i < |w| && 4.0 * w[i] == c
  {
    4.0 * MaxWeight(w)
  }

  /** Every square root the construction takes has a non-negative argument:
      the container height sqrt(C) and the particle heights sqrt(C - w[i]) of
      the first `n` weights. */
  predicate RadicandsNonNegative(w: seq<real>, n: nat)
    requires 0 < |w| && n <= |w|
  {
    && 0.0 <= LiftingConstant(w)
    && forall i :: 0 <= i < n ==> 0.0 <= LiftingConstant(w) - w[i]
  }

  /** The construction takes no square root of a negative number exactly when
      the largest weight is non-negative. With every weight negative the
      lifting constant and the radicand of the heaviest site are negative, so
      four times the maximum does not by itself keep the radicands in range. */
  lemma RadicandsNonNegativeIff(w: seq<real>, n: nat)
    requires 0 < |w| && n <= |w|
    ensures RadicandsNonNegative(w, n) <==> 0.0 <= MaxWeight(w)
  {
  }

  /** Every square root the construction takes has a strictly positive
      argument: the container height and the first `n` particle heights are
      all non-zero. */
  predicate RadicandsPositive(w: seq<real>, n: nat)
    requires 0 < |w| && n <= |w|
  {
    && 0.0 < LiftingConstant(w)
    && forall i :: 0 <= i < n ==> 0.0 < LiftingConstant(w) - w[i]
  }

  /** No square root of a non-positive number is taken exactly when the
      largest weight is positive. With a largest weight of 0 the lifting
      constant is 0, so the container height and the heaviest site's height
      are square roots of 0. */
  lemma RadicandsPositiveIff(w: seq<real>, n: nat)
    requires 0 < |w| && n <= |w|
    ensures RadicandsPositive(w, n) <==> 0.0 < MaxWeight(w)
  {
  }

  /** The heaviest site's radicand is 3 * max(w): negative exactly when every
      weight is. */
  lemma {:induction false} HeaviestRadicand(w: seq<real>)
    requires 0 < |w|
    ensures exists i :: 0 <= i < |w| && LiftingConstant(w) - w[i] == 3.0 * MaxWeight(w)
  {
    var i :| 0 <= i < |w| && w[i] == MaxWeight(w);
    assert LiftingConstant(w) - w[i] == 3.0 * MaxWeight(w);
  }

  /** The default `PowerDiagram()`: no sites, lifting constant 0, unit box. */
  function Default(): (d: PowerDiagram)
    ensures d.nbSites == 0 && d.liftingConstant == 0.0
    ensures d.particles == [] && d.sites == [] && d.weights == []
    ensures d.container == Container(1.0, 1.0, 1.0)
  {
    PowerDiagram(0, 0.0, [], [], Container(1.0, 1.0, 1.0), [], [])
  }

  /** The constructor `PowerDiagram(s, w, x_range, y_range)`. The largest
      weight is read from a non-empty list, weight i is read for every site i,
      and every square root must have a non-negative argument; all three are
      the caller's obligations. Site i becomes particle i, in order, at
      squared height C - w[i], which lies at least 3 * max(w) above zero. */
  function Construct(s: seq<Point>, w: seq<real>, xRange: real, yRange: real): (d: PowerDiagram)
    requires 0 < |w| && |s| <= |w|
    requires 0.0 <= MaxWeight(w)
    ensures d.nbSites == |s| && d.sites == s && d.weights == w
    ensures forall i :: 0 <= i < |w| ==> 4.0 * w[i] <= d.liftingConstant
    ensures exists i :: 0 <= i < |w| && 4.0 * w[i] == d.liftingConstant
    ensures d.container == Container(xRange, yRange, d.liftingConstant)
    ensures |d.particles| == d.nbSites
    ensures forall i :: 0 <= i < |s| ==>
              && d.particles[i].id == i
              && d.particles[i].x == s[i].x && d.particles[i].y == s[i].y
              && d.particles[i].heightSq + w[i] == d.liftingConstant
              && 3.0 * MaxWeight(w) <= d.particles[i].heightSq
              && 0.0 <= d.particles[i].heightSq
    ensures d.sitesEdges == []
  {
    var c := LiftingConstant(w);
    var particles := seq(|s|, i requires 0 <= i < |s| => Particle(i, s[i].x, s[i].y, c - w[i]));
    PowerDiagram(|s|, c, s, w, Container(xRange, yRange, c), particles, [])
  }

  /** A particle lies in its container box. */
  predicate InContainer(c: Container, p: Particle) {
    && 0.0 <= p.x <= c.xMax
    && 0.0 <= p.y <= c.yMax
    && 0.0 <= p.heightSq <= c.zMaxSq
  }

  /** A lifted site fits the container's height range exactly when its weight
      is non-negative; so with every weight non-negative each particle whose
      site lies in the rectangle lies in the box. */
  lemma LiftedInContainerIff(s: seq<Point>, w: seq<real>, xRange: real, yRange: real, i: nat)
    requires 0 < |w| && |s| <= |w| && 0.0 <= MaxWeight(w)
    requires i < |s|
    requires 0.0 <= s[i].x <= xRange && 0.0 <= s[i].y <= yRange
    ensures var d := Construct(s, w, xRange, yRange);
            InContainer(d.container, d.particles[i]) <==> 0.0 <= w[i]
  {
  }

  /** Squared Euclidean distance in the plane. */
  function SqDistance(p: Point, q: Point): real {
    (p.x - q.x) * (p.x - q.x) + (p.y - q.y) * (p.y - q.y)
  }

  /** Power distance of `p` to the site `q` of weight `wt`. */
  function PowerDistance(p: Point, q: Point, wt: real): real {
    SqDistance(p, q) - wt
  }

  /** Squared Euclidean distance of the planar point (`p`, 0) to particle `a`:
      the height term is the particle's squared height. */
  function LiftedDistance(p: Point, a: Particle): real {
    SqDistance(p, Point(a.x, a.y)) + a.heightSq
  }

  /** The lifting identity: the squared 3D distance from (`p`, 0) to lifted
      site i is the power distance of `p` to site i plus the lifting constant. */
  lemma LiftingIdentity(s: seq<Point>, w: seq<real>, xRange: real, yRange: real, p: Point, i: nat)
    requires 0 < |w| && |s| <= |w| && 0.0 <= MaxWeight(w)
    requires i < |s|
    ensures var d := Construct(s, w, xRange, yRange);
            LiftedDistance(p, d.particles[i]) == PowerDistance(p, s[i], w[i]) + d.liftingConstant
  {
    var d := Construct(s, w, xRange, yRange);
    assert Point(d.particles[i].x, d.particles[i].y) == s[i];
  }

  /** Site i owns `p` in the power diagram: no site has smaller power
      distance. */
  predicate PowerOwner(s: seq<Point>, w: seq<real>, p: Point, i: nat)
    requires |s| <= |w|
  {
    i < |s| && forall j :: 0 <= j < |s| ==> PowerDistance(p, s[i], w[i]) <= PowerDistance(p, s[j], w[j])
  }

  /** Particle i is a nearest particle to (`p`, 0): its 3D Voronoi cell holds
      that point. */
  predicate NearestParticle(d: PowerDiagram, p: Point, i: nat) {
    i < |d.particles| && forall j :: 0 <= j < |d.particles| ==>
      LiftedDistance(p, d.particles[i]) <= LiftedDistance(p, d.particles[j])
  }

  /** The cross-section at z = 0 of the 3D Voronoi diagram of the lifted
      sites is the power diagram: a particle is nearest to (`p`, 0) exactly
      when its site minimises power distance to `p`. */
  lemma CrossSectionIsPowerDiagram(s: seq<Point>, w: seq<real>, xRange: real, yRange: real, p: Point, i: nat)
    requires 0 < |w| && |s| <= |w| && 0.0 <= MaxWeight(w)
    ensures NearestParticle(Construct(s, w, xRange, yRange), p, i) <==> PowerOwner(s, w, p, i)
  {
    var d := Construct(s, w, xRange, yRange);
    forall j | 0 <= j < |s|
      ensures LiftedDistance(p, d.particles[j]) == PowerDistance(p, s[j], w[j]) + d.liftingConstant
    {
      LiftingIdentity(s, w, xRange, yRange, p, j);
    }
  }

  /** Heavier sites are lifted lower: squared heights are antitone in the
      weights. */
  lemma HeightsAntitone(s: seq<Point>, w: seq<real>, xRange: real, yRange: real, i: nat, j: nat)
    requires 0 < |w| && |s| <= |w| && 0.0 <= MaxWeight(w)
    requires i < |s| && j < |s|
    ensures var d := Construct(s, w, xRange, yRange);
            w[i] <= w[j] <==> d.particles[j].heightSq <= d.particles[i].heightSq
  {
  }

  /** Site i is a nearest site to `p` in the ordinary Voronoi sense. */
  predicate VoronoiOwner(s: seq<Point>, p: Point, i: nat) {
    i < |s| && forall j :: 0 <= j < |s| ==> SqDistance(p, s[i]) <= SqDistance(p, s[j])
  }

  /** With all weights equal every site is lifted to the same height, and
      the lifted diagram's cross-section is the ordinary Voronoi diagram. */
  lemma EqualWeightsGiveVoronoi(s: seq<Point>, w: seq<real>, xRange: real, yRange: real, p: Point, i: nat)
    requires 0 < |w| && |s| <= |w| && 0.0 <= MaxWeight(w)
    requires forall j :: 0 <= j < |w| ==> w[j] == w[0]
    ensures var d := Construct(s, w, xRange, yRange);
            forall j :: 0 <= j < |s| ==> d.particles[j].heightSq == 3.0 * w[0]
    ensures NearestParticle(Construct(s, w, xRange, yRange), p, i) <==> VoronoiOwner(s, p, i)
  {
    var d := Construct(s, w, xRange, yRange);
    var m :| 0 <= m < |w| && 4.0 * w[m] == d.liftingConstant;
    assert d.liftingConstant == 4.0 * w[0];
    forall j | 0 <= j < |s|
      ensures d.particles[j].heightSq == 3.0 * w[0]
      ensures LiftedDistance(p, d.particles[j]) == SqDistance(p, s[j]) + 3.0 * w[0]
    {
      assert Point(d.particles[j].x, d.particles[j].y) == s[j];
    }
    if i < |s| {
      assert NearestParticle(d, p, i) <==> VoronoiOwner(s, p, i) by {
        if NearestParticle(d, p, i) {
          forall j | 0 <= j < |s|
            ensures SqDistance(p, s[i]) <= SqDistance(p, s[j])
          {
            assert LiftedDistance(p, d.particles[i]) <= LiftedDistance(p, d.particles[j]);
          }
        }
        if VoronoiOwner(s, p, i) {
          forall j | 0 <= j < |d.particles|
            ensures LiftedDistance(p, d.particles[i]) <= LiftedDistance(p, d.particles[j])
          {
            assert SqDistance(p, s[i]) <= SqDistance(p, s[j]);
          }
        }
      }
    }
  }

  /** `get_projection`: the per-site vertex lists are reset to exactly one
      empty list per site id, and list i then receives the cross-section the
      3D Voronoi computation yields for particle i (`section(i)`). Nothing
      else in the diagram changes. */
  function GetProjection(d: PowerDiagram, section: nat -> seq<Point>): (r: PowerDiagram)
    ensures |r.sitesEdges| == d.nbSites
    ensures forall i :: 0 <= i < d.nbSites ==> r.sitesEdges[i] == section(i)
    ensures r.(sitesEdges := d.sitesEdges) == d
  {
    d.(sitesEdges := seq(d.nbSites, i requires 0 <= i => section(i)))
  }

  /** Projecting twice is projecting once: the reset discards whatever a
      previous projection left. */
  lemma GetProjectionIdempotent(d: PowerDiagram, section: nat -> seq<Point>)
    ensures GetProjection(GetProjection(d, section), section) == GetProjection(d, section)
  {
  }
}
