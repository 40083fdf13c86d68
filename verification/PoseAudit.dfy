/** Geometry of the pose audit: rays against boxes, distances to boxes, standing poses at a face. */
module PoseAudit {
  import opened Geometry

  const FLAT := 0.000000000001
  const SLACK := 0.000000001
  const SLIDE := 0.05
  const REAR := 0.35

  /** A furniture box seen from above. */
  datatype Box = Box(lo: Pt, hi: Pt) {
    predicate Valid() { lo.x <= hi.x && lo.y <= hi.y }

    predicate Contains(p: Pt) { lo.x <= p.x <= hi.x && lo.y <= p.y <= hi.y }
  }

  // --------------------------------------------------------------- slab test

  datatype Slab = Slab(p: real, d: real, lo: real, hi: real)

  /** A direction component below 1e-12 is taken as 0. */
  function Flattened(d: real): real { if Abs(d) < FLAT then 0.0 else d }

  function Coord(p: real, d: real, t: real): real { p + Times(t, Flattened(d)) }

  predicate InSlab(s: Slab, t: real) { s.lo <= Coord(s.p, s.d, t) <= s.hi }

  function Along(p: Pt, dx: real, dy: real, t: real): Pt { Pt(Coord(p.x, dx, t), Coord(p.y, dy, t)) }

  lemma FlatCoord(p: real, d: real, t: real)
    requires Abs(d) < FLAT
    ensures Coord(p, d, t) == p
  {
    TimesCommute(t, 0.0);
    TimesZero(t);
  }

  lemma Scale(a: real, b: real, d: real)
    requires d > 0.0
    ensures a <= b <==> Times(a, d) <= Times(b, d)
  {
    if a < b { assert (b - a) * d > 0.0; }
    if a > b { assert (a - b) * d > 0.0; }
  }

  /** Inside a slab exactly between its two crossings. */
  lemma Crossings(s: Slab, t: real)
    requires s.lo <= s.hi && Abs(s.d) >= FLAT
    ensures var t1, t2 := (s.lo - s.p) / s.d, (s.hi - s.p) / s.d;
      InSlab(s, t) <==> Min(t1, t2) <= t <= Max(t1, t2)
  {
    var t1, t2 := (s.lo - s.p) / s.d, (s.hi - s.p) / s.d;
    TimesQuotient(s.lo - s.p, s.d);
    TimesQuotient(s.hi - s.p, s.d);
    if s.d > 0.0 {
      Ordered(s.lo - s.p, s.hi - s.p, s.d, t1, t2, t);
    } else {
      Opposite(t1, s.d);
      Opposite(t2, s.d);
      Opposite(t, s.d);
      Ordered(s.p - s.hi, s.p - s.lo, -s.d, t2, t1, t);
    }
  }

  lemma Opposite(t: real, d: real)
    ensures Times(t, -d) == -Times(t, d)
  {
  }

  lemma Ordered(lo: real, hi: real, d: real, t1: real, t2: real, t: real)
    requires d > 0.0 && lo <= hi && Times(t1, d) == lo && Times(t2, d) == hi
    ensures t1 <= t2 && (lo <= Times(t, d) <= hi <==> t1 <= t <= t2)
  {
    Scale(t1, t2, d);
    Scale(t1, t, d);
    Scale(t, t2, d);
    OrderedAtoms(lo, hi, Times(t, d), t1, t2, t);
  }

  lemma OrderedAtoms(lo: real, hi: real, x: real, t1: real, t2: real, t: real)
    requires (t1 <= t <==> lo <= x) && (t <= t2 <==> x <= hi)
    ensures lo <= x <= hi <==> t1 <= t <= t2
  {
  }

  /** The parameters in [0, maxT] inside the first n slabs are those in [tmin, tmax]. */
  ghost predicate Between(slabs: seq<Slab>, n: nat, maxT: real, tmin: real, tmax: real)
    requires n <= |slabs|
  {
    forall t: real {:trigger InAll(slabs, n, t)} :: tmin <= t <= tmax <==> 0.0 <= t <= maxT && InAll(slabs, n, t)
  }

  predicate InAll(slabs: seq<Slab>, n: nat, t: real)
    requires n <= |slabs|
  {
    forall i :: 0 <= i < n ==> InSlab(slabs[i], t)
  }

  lemma InAllNext(slabs: seq<Slab>, n: nat, m: nat, t: real)
    requires n < |slabs| && m == n + 1
    ensures InAll(slabs, m, t) <==> InAll(slabs, n, t) && InSlab(slabs[n], t)
  {
  }

  lemma BetweenNext(slabs: seq<Slab>, n: nat, maxT: real, tmin: real, tmax: real, lo: real, hi: real)
    requires n < |slabs| && Between(slabs, n, maxT, tmin, tmax)
    requires forall t :: InSlab(slabs[n], t) <==> lo <= t <= hi
    ensures Between(slabs, n + 1, maxT, Max(tmin, lo), Min(tmax, hi))
  {
    var m := n + 1;
    forall t: real ensures Max(tmin, lo) <= t <= Min(tmax, hi) <==> 0.0 <= t <= maxT && InAll(slabs, m, t) {
      InAllNext(slabs, n, m, t);
    }
  }

  predicate HitsWithin(box: Box, p: Pt, dx: real, dy: real, maxT: real, t: real) {
    0.0 <= t <= maxT && box.Contains(Along(p, dx, dy, t))
  }

  function SlabsOf(box: Box, p: Pt, dx: real, dy: real): seq<Slab> {
    [Slab(p.x, dx, box.lo.x, box.hi.x), Slab(p.y, dy, box.lo.y, box.hi.y)]
  }

  lemma InBoth(slabs: seq<Slab>, t: real)
    requires |slabs| == 2
    ensures InAll(slabs, 2, t) <==> InSlab(slabs[0], t) && InSlab(slabs[1], t)
  {
  }

  lemma SlabsAreTheBox(box: Box, p: Pt, dx: real, dy: real, t: real)
    ensures InAll(SlabsOf(box, p, dx, dy), 2, t) <==> box.Contains(Along(p, dx, dy, t))
  {
    InBoth(SlabsOf(box, p, dx, dy), t);
  }

  /** The first n components are flat, and start inside their slabs. */
  predicate FlatInside(slabs: seq<Slab>, n: nat)
    requires n <= |slabs|
  {
    forall i :: 0 <= i < n ==> Abs(slabs[i].d) < FLAT && slabs[i].lo <= slabs[i].p <= slabs[i].hi
  }

  /** The slab test is exact: the ray hits the box within maxT if and only if some parameter in
      [0, maxT] puts the point inside it. With a negative maxT there is no such parameter, and the test
      is still true for a flat direction from a point inside. */
  method RayHitsBox(box: Box, p: Pt, dx: real, dy: real, maxT: real) returns (hits: bool)
    requires box.Valid()
    ensures hits <==>
      (exists t :: HitsWithin(box, p, dx, dy, maxT, t)) || (maxT < 0.0 && Abs(dx) < FLAT && Abs(dy) < FLAT && box.Contains(p))
  {
    var slabs := SlabsOf(box, p, dx, dy);
    var tmin, tmax := 0.0, maxT;
    for n := 0 to 2
      invariant Between(slabs, n, maxT, tmin, tmax)
      invariant tmin <= tmax || (maxT < 0.0 && tmin == 0.0 && tmax == maxT && FlatInside(slabs, n))
    {
      var s := slabs[n];
      if Abs(s.d) < FLAT {
        if s.p < s.lo || s.p > s.hi {
          forall t ensures !HitsWithin(box, p, dx, dy, maxT, t) {
            SlabsAreTheBox(box, p, dx, dy, t);
            FlatCoord(s.p, s.d, t);
          }
          return false;
        }
        BetweenFlat(slabs, n, maxT, tmin, tmax);
        continue;
      }
      var t1, t2 := (s.lo - s.p) / s.d, (s.hi - s.p) / s.d;
      forall t ensures InSlab(s, t) <==> Min(t1, t2) <= t <= Max(t1, t2) { Crossings(s, t); }
      BetweenNext(slabs, n, maxT, tmin, tmax, Min(t1, t2), Max(t1, t2));
      if t1 > t2 { t1, t2 := t2, t1; }
      tmin, tmax := Max(tmin, t1), Min(tmax, t2);
      if tmin > tmax {
        assert maxT < 0.0 ==> !(Abs(dx) < FLAT && Abs(dy) < FLAT);
        forall t ensures !HitsWithin(box, p, dx, dy, maxT, t) {
          SlabsAreTheBox(box, p, dx, dy, t);
          assert InAll(slabs, 2, t) ==> InAll(slabs, n + 1, t);
        }
        return false;
      }
    }
    SlabsAreTheBox(box, p, dx, dy, tmin);
    if tmin <= tmax {
      assert InAll(slabs, 2, tmin);
      assert HitsWithin(box, p, dx, dy, maxT, tmin);
    } else {
      assert Abs(slabs[0].d) < FLAT && Abs(slabs[1].d) < FLAT && box.Contains(p);
    }
    hits := true;
  }

  lemma BetweenFlat(slabs: seq<Slab>, n: nat, maxT: real, tmin: real, tmax: real)
    requires n < |slabs| && Between(slabs, n, maxT, tmin, tmax)
    requires Abs(slabs[n].d) < FLAT && slabs[n].lo <= slabs[n].p <= slabs[n].hi
    ensures Between(slabs, n + 1, maxT, tmin, tmax)
  {
    var m := n + 1;
    forall t: real ensures tmin <= t <= tmax <==> 0.0 <= t <= maxT && InAll(slabs, m, t) {
      FlatCoord(slabs[n].p, slabs[n].d, t);
      assert InSlab(slabs[n], t);
      InAllNext(slabs, n, m, t);
    }
    assert Between(slabs, m, maxT, tmin, tmax);
  }

  /** Flattening is invisible for components that are 0 or at least 1e-12, and only for those. */
  lemma FlatteningIsExact(d: real)
    ensures Flattened(d) == d <==> d == 0.0 || Abs(d) >= FLAT
  {
  }

  // --------------------------------------------------------------- distance

  function Overshoot(lo: real, hi: real, v: real): real { Max(Max(lo - v, 0.0), v - hi) }

  function Sq(a: real): real { Times(a, a) }

  /** The squared distance from p to the box. */
  function DistanceXy2(box: Box, p: Pt): real {
    Sq(Overshoot(box.lo.x, box.hi.x, p.x)) + Sq(Overshoot(box.lo.y, box.hi.y, p.y))
  }

  function PointDistance2(p: Pt, q: Pt): real { Sq(p.x - q.x) + Sq(p.y - q.y) }

  function NearestIn(box: Box, p: Pt): Pt {
    Pt(Max(box.lo.x, Min(box.hi.x, p.x)), Max(box.lo.y, Min(box.hi.y, p.y)))
  }

  lemma SqSame(a: real, b: real)
    requires a == b || a == -b
    ensures Sq(a) == Sq(b)
  {
    TimesNegated(b, b);
  }

  lemma SqGrows(a: real, b: real)
    requires 0.0 <= a <= b
    ensures Sq(a) <= Sq(b)
  {
    TimesMonotone(a, b, a);
    TimesMonotone(a, b, b);
    TimesCommute(a, b);
  }

  lemma SqMonotone(a: real, b: real)
    requires 0.0 <= a <= Abs(b)
    ensures Sq(a) <= Sq(b)
  {
    SqGrows(a, Abs(b));
    SqSame(b, Abs(b));
  }

  lemma SqSign(a: real)
    ensures a != 0.0 ==> Sq(a) > 0.0
    ensures Sq(0.0) == 0.0
  {
    TimesZero(0.0);
    if a != 0.0 {
      TimesPositive(Abs(a), Abs(a));
      SqSame(a, Abs(a));
    }
  }

  lemma DistanceAttained(box: Box, p: Pt)
    requires box.Valid()
    ensures box.Contains(NearestIn(box, p)) && PointDistance2(p, NearestIn(box, p)) == DistanceXy2(box, p)
  {
    var q := NearestIn(box, p);
    SqSame(p.x - q.x, Overshoot(box.lo.x, box.hi.x, p.x));
    SqSame(p.y - q.y, Overshoot(box.lo.y, box.hi.y, p.y));
  }

  /** The distance is the least over all points of the box, is attained, and is 0 inside only. */
  lemma DistanceIsLeast(box: Box, p: Pt)
    requires box.Valid()
    ensures box.Contains(NearestIn(box, p)) && PointDistance2(p, NearestIn(box, p)) == DistanceXy2(box, p)
    ensures forall q :: box.Contains(q) ==> DistanceXy2(box, p) <= PointDistance2(p, q)
    ensures DistanceXy2(box, p) == 0.0 <==> box.Contains(p)
  {
    var dx, dy := Overshoot(box.lo.x, box.hi.x, p.x), Overshoot(box.lo.y, box.hi.y, p.y);
    DistanceAttained(box, p);
    forall q | box.Contains(q) ensures DistanceXy2(box, p) <= PointDistance2(p, q) {
      SqMonotone(dx, p.x - q.x);
      SqMonotone(dy, p.y - q.y);
    }
    SqSign(dx);
    SqSign(dy);
  }

  // ---------------------------------------------------------- standing poses

  datatype Face = North | South | East | West

  function Normal(face: Face): Pt {
    match face
    case North => Pt(0.0, 1.0)
    case South => Pt(0.0, -1.0)
    case East => Pt(1.0, 0.0)
    case West => Pt(-1.0, 0.0)
  }

  function FaceCentre(box: Box, face: Face): Pt {
    var cx, cy := (box.lo.x + box.hi.x) / 2.0, (box.lo.y + box.hi.y) / 2.0;
    match face
    case North => Pt(cx, box.hi.y)
    case South => Pt(cx, box.lo.y)
    case East => Pt(box.hi.x, cy)
    case West => Pt(box.lo.x, cy)
  }

  function HalfLength(box: Box, face: Face): real {
    if face.North? || face.South? then (box.hi.x - box.lo.x) / 2.0 else (box.hi.y - box.lo.y) / 2.0
  }

  /** Standing standoff away from the face, slid along it by shift; the robot looks along -Normal. */
  function CandidateOnFace(box: Box, face: Face, standoff: real, shift: real): Pt {
    var n, f := Normal(face), FaceCentre(box, face);
    Pt(f.x + n.x * standoff - n.y * shift, f.y + n.y * standoff + n.x * shift)
  }

  /** Every obstacle is at least clearance away. */
  predicate Clear(obstacles: seq<Box>, p: Pt, clearance: real) {
    forall b :: b in obstacles ==> clearance <= 0.0 || DistanceXy2(b, p) >= Sq(clearance)
  }

  /** Clear, and the robot's rear not inside an obstacle. */
  predicate StandingClear(obstacles: seq<Box>, p: Pt, look: Pt, clearance: real) {
    var rear := Pt(p.x - look.x * REAR, p.y - look.y * REAR);
    Clear(obstacles, p, clearance) && forall b :: b in obstacles ==> !b.Contains(rear)
  }

  predicate FreeAt(box: Box, face: Face, obstacles: seq<Box>, standoff: real, clearance: real, shift: real) {
    var n := Normal(face);
    StandingClear(obstacles, CandidateOnFace(box, face, standoff, shift), Pt(-n.x, -n.y), clearance)
  }

  /** A candidate slid by at most half the face stands exactly standoff from the box; the slack in the
      slide can only add its own square. */
  lemma CandidateDistance(box: Box, face: Face, standoff: real, shift: real)
    requires box.Valid() && standoff >= 0.0
    ensures var past := Max(0.0, Abs(shift) - HalfLength(box, face));
      DistanceXy2(box, CandidateOnFace(box, face, standoff, shift)) == Sq(standoff) + Sq(past)
  {
    SqSign(0.0);
  }

  /** Where the robot stands: in front of the middle of the face, slid along it, a positive slide being to its left
      seen from the box. */
  predicate StandsAt(box: Box, face: Face, standoff: real, shift: real, p: Pt) {
    match face
    case North => p.x == (box.lo.x + box.hi.x) / 2.0 - shift && p.y == box.hi.y + standoff
    case South => p.x == (box.lo.x + box.hi.x) / 2.0 + shift && p.y == box.lo.y - standoff
    case East => p.x == box.hi.x + standoff && p.y == (box.lo.y + box.hi.y) / 2.0 + shift
    case West => p.x == box.lo.x - standoff && p.y == (box.lo.y + box.hi.y) / 2.0 - shift
  }

  /** Its rear: 0.35 m further away from the face, since it looks at the box. */
  predicate RearOf(face: Face, p: Pt, rear: Pt) {
    match face
    case North => rear == Pt(p.x, p.y + 0.35)
    case South => rear == Pt(p.x, p.y - 0.35)
    case East => rear == Pt(p.x + 0.35, p.y)
    case West => rear == Pt(p.x - 0.35, p.y)
  }

  /** A slide is free exactly if every point of every obstacle is at least clearance away from where the robot
      stands, and the robot's rear is in no obstacle. */
  lemma FreeExactly(box: Box, face: Face, obstacles: seq<Box>, standoff: real, clearance: real, shift: real, p: Pt, rear: Pt)
    requires StandsAt(box, face, standoff, shift, p) && RearOf(face, p, rear)
    requires forall b :: b in obstacles ==> b.Valid()
    ensures FreeAt(box, face, obstacles, standoff, clearance, shift) <==>
      && (forall b, q :: b in obstacles && b.Contains(q) ==> clearance <= 0.0 || PointDistance2(p, q) >= Sq(clearance))
      && forall b :: b in obstacles ==> !b.Contains(rear)
  {
    StandingPoint(box, face, standoff, shift, p, rear);
    forall b | b in obstacles
      ensures DistanceXy2(b, p) >= Sq(clearance) <==> forall q :: b.Contains(q) ==> PointDistance2(p, q) >= Sq(clearance)
    {
      DistanceIsLeast(b, p);
    }
  }

  lemma StandingPoint(box: Box, face: Face, standoff: real, shift: real, p: Pt, rear: Pt)
    requires StandsAt(box, face, standoff, shift, p) && RearOf(face, p, rear)
    ensures p == CandidateOnFace(box, face, standoff, shift)
    ensures var n := Normal(face); rear == Pt(p.x - (-n.x) * REAR, p.y - (-n.y) * REAR)
  {
  }

  /** The slides tried: multiples of 5 cm, up to the end of the face. */
  predicate Tried(half: real, j: int) { j == 0 || SLIDE * AbsInt(j) as real <= half + SLACK }

  function AbsInt(j: int): int { if j < 0 then -j else j }

  function Slides(half: real, m: nat): seq<int> {
    if m == 0 then [0]
    else
      var j: int := m;
      Slides(half, m - 1) + [j, -j]
  }

  /** Where slide j comes in that order. */
  function SlideIndex(j: int): nat { if j > 0 then 2 * j - 1 else -2 * j }

  /** The slides up to m steps, each once, in order of distance. */
  lemma {:induction false} SlidesAt(half: real, m: nat)
    ensures |Slides(half, m)| == 2 * m + 1
    ensures forall i :: 0 <= i < 2 * m + 1 ==> AbsInt(Slides(half, m)[i]) <= m && SlideIndex(Slides(half, m)[i]) == i
  {
    if m > 0 { SlidesAt(half, m - 1); }
  }

  lemma {:induction false} SlideFound(half: real, m: nat, j: int)
    requires AbsInt(j) <= m
    ensures SlideIndex(j) < |Slides(half, m)| && Slides(half, m)[SlideIndex(j)] == j
  {
    SlidesAt(half, m);
    if m > 0 {
      SlidesAt(half, m - 1);
      if AbsInt(j) < m { SlideFound(half, m - 1, j); }
    }
  }

  /** The slides in the order they are tried, in steps. */
  method ShiftList(half: real) returns (shifts: seq<int>, m: nat)
    ensures shifts == Slides(half, m)
    ensures forall j: int :: Tried(half, j) <==> AbsInt(j) <= m
  {
    shifts, m := [0], 0;
    var s := SLIDE;
    while s <= half + SLACK
      invariant s == SLIDE * (m + 1) as real && shifts == Slides(half, m)
      invariant m > 0 ==> SLIDE * m as real <= half + SLACK
      decreases (half + SLACK) / SLIDE - m as real
    {
      m := m + 1;
      var j: int := m;
      shifts := shifts + [j, -j];
      s := s + SLIDE;
    }
    forall j: int ensures Tried(half, j) <==> AbsInt(j) <= m {
      if AbsInt(j) > m { assert AbsInt(j) as real >= (m + 1) as real; }
      if AbsInt(j) <= m { assert AbsInt(j) as real <= m as real; }
    }
  }

  predicate FreeSlide(box: Box, face: Face, obstacles: seq<Box>, standoff: real, clearance: real, j: int) {
    FreeAt(box, face, obstacles, standoff, clearance, SLIDE * j as real)
  }

  /** No tried slide shorter than m steps is free. */
  ghost predicate NoneBelow(box: Box, face: Face, obstacles: seq<Box>, standoff: real, clearance: real, m: int) {
    forall k: int :: Tried(HalfLength(box, face), k) && AbsInt(k) < m ==>
      !FreeSlide(box, face, obstacles, standoff, clearance, k)
  }

  /** The slide chosen at a face: a free one of least length, to the side that is tried first if both are free, or
      none if no slide tried is free. */
  ghost predicate Chosen(box: Box, face: Face, obstacles: seq<Box>, standoff: real, clearance: real, slide: Option<int>) {
    match slide
    case None => forall m: int :: NoneBelow(box, face, obstacles, standoff, clearance, m)
    case Some(j) =>
      && Tried(HalfLength(box, face), j) && FreeSlide(box, face, obstacles, standoff, clearance, j)
      && NoneBelow(box, face, obstacles, standoff, clearance, AbsInt(j))
      && (j < 0 ==> !FreeSlide(box, face, obstacles, standoff, clearance, -j))
  }

  method FreeFaceCandidate(box: Box, face: Face, obstacles: seq<Box>, standoff: real, clearance: real)
    returns (slide: Option<int>)
    ensures Chosen(box, face, obstacles, standoff, clearance, slide)
  {
    var half := HalfLength(box, face);
    var shifts, m := ShiftList(half);
    SlidesAt(half, m);
    for i := 0 to |shifts|
      invariant forall k :: 0 <= k < i ==> !FreeSlide(box, face, obstacles, standoff, clearance, shifts[k])
    {
      var j := shifts[i];
      if FreeSlide(box, face, obstacles, standoff, clearance, j) {
        forall k: int | Tried(half, k) && AbsInt(k) < AbsInt(j)
          ensures !FreeSlide(box, face, obstacles, standoff, clearance, k)
        {
          SlideFound(half, m, k);
          assert SlideIndex(k) < i;
        }
        assert Tried(half, j);
        if j < 0 {
          SlideFound(half, m, -j);
          assert SlideIndex(-j) < i;
        }
        return Some(j);
      }
    }
    forall k: int | Tried(half, k) ensures !FreeSlide(box, face, obstacles, standoff, clearance, k) {
      SlideFound(half, m, k);
    }
    return None;
  }
}
