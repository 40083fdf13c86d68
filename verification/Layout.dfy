/** The stateful packer of one surface, proved against the functions of Packing. */
module Layout {
  import opened Geometry
  import opened Packing
  import opened PackingLaws

  lemma NegMul(i: int, b: real)
    ensures (-i) as real * b == -(i as real * b)
  {
  }

  lemma RingStep(lo: real, hi: real, s: real, step: real, i: int)
    requires i >= 1
    ensures var at, start := Lattice(s, step), Clamp(s, lo, hi);
      Axis(lo, hi, start, at, i) == Axis(lo, hi, start, at, i - 1)
        + Keep(s + i as real * step, lo, hi) + Keep(s - i as real * step, lo, hi)
  {
    AxisStep(lo, hi, Clamp(s, lo, hi), Lattice(s, step), i);
    LatticeUp(s, step, i);
    LatticeDown(s, step, i);
  }

  lemma AxisStep(lo: real, hi: real, start: real, at: int -> real, i: int)
    requires i >= 1
    ensures Axis(lo, hi, start, at, i) == Axis(lo, hi, start, at, i - 1) + Keep(at(i), lo, hi) + Keep(at(-i), lo, hi)
  {
  }

  lemma LatticeUp(s: real, step: real, i: int)
    ensures Lattice(s, step)(i) == s + i as real * step
  {
  }

  lemma LatticeDown(s: real, step: real, i: int)
    ensures Lattice(s, step)(-i) == s - i as real * step
  {
    NegMul(i, step);
  }

  /** The candidate order of the search, built as nested loops over the two axes and one sort. */
  method AxisValues(lo: real, hi: real, s: real, step: real) returns (values: seq<real>)
    requires step > EPS
    ensures values == FullAxis(lo, hi, s, step)
  {
    values := [Clamp(s, lo, hi)];
    var n := Trunc((hi - lo) / step) + 2;
    var i := 1;
    while i < n
      invariant 1 <= i && (i <= n || i == 1)
      invariant values == Axis(lo, hi, Clamp(s, lo, hi), Lattice(s, step), i - 1)
    {
      var up, down := s + i as real * step, s - i as real * step;
      RingStep(lo, hi, s, step, i);
      if lo - EPS <= up <= hi + EPS { values := values + [up]; }
      if lo - EPS <= down <= hi + EPS { values := values + [down]; }
      i := i + 1;
    }
  }

  method CandidateList(lo: Pt, hi: Pt, target: Pt, step: real) returns (cands: seq<Pt>)
    requires step > EPS
    ensures cands == Candidates(lo, hi, target, step)
  {
    if lo.x > hi.x + EPS || lo.y > hi.y + EPS { return []; }
    var xs := AxisValues(lo.x, hi.x, target.x, step);
    var ys := AxisValues(lo.y, hi.y, target.y, step);
    cands := SortByKey(Grid(xs, ys), KeyFor(target));
  }

  predicate AreMiddles(xs: seq<real>, ws: seq<real>, gap: real) {
    |xs| == |ws| && forall c :: 0 <= c < |ws| ==> xs[c] == Middle(ws, gap, c)
  }

  /** The centres of a block at origin o, from the middles of its columns and rows. */
  function CentresFrom(o: Pt, xs: seq<real>, ys: seq<real>, n: nat): (cs: seq<Pt>)
    requires |xs| > 0 && |ys| == Rows(n, |xs|)
  {
    seq(n, i requires 0 <= i < n => RowIndex(i, n, |xs|); Pt(o.x + xs[ColOf(i, |xs|)], o.y + ys[RowOf(i, |xs|)]))
  }

  lemma CentresAreCells(s: Surface, fs: seq<Size>, cols: nat, o: Pt, xs: seq<real>, ys: seq<real>)
    requires 0 < cols <= |fs|
    requires AreMiddles(xs, ColumnWidths(fs, cols), s.gap) && AreMiddles(ys, RowHeights(fs, cols), s.gap)
    ensures CentresFrom(o, xs, ys, |fs|) == Cells(s, fs, cols, o)
  {
    var a, b := CentresFrom(o, xs, ys, |fs|), Cells(s, fs, cols, o);
    forall i | 0 <= i < |fs| ensures a[i] == b[i] { RowIndex(i, |fs|, cols); }
  }

  /** Band centres, accumulated left to right. */
  method Middles(ws: seq<real>, gap: real) returns (xs: seq<real>)
    ensures AreMiddles(xs, ws, gap)
  {
    xs := [];
    var acc := 0.0;
    for c := 0 to |ws|
      invariant acc == Start(ws, gap, c)
      invariant |xs| == c && forall k :: 0 <= k < c ==> xs[k] == Middle(ws, gap, k)
    {
      xs := xs + [acc + ws[c] / 2.0];
      acc := acc + (ws[c] + gap);
    }
  }

  lemma ReserveAllStep(occupied: seq<Rect>, cs: seq<Option<Pt>>, fs: seq<Size>, c: Option<Pt>, f: Size)
    requires |cs| == |fs|
    ensures ReserveAll(occupied, cs + [c], fs + [f]) == Reserve(ReserveAll(occupied, cs, fs), c, f)
  {
    assert (cs + [c])[..|cs|] == cs && (fs + [f])[..|fs|] == fs;
  }

  lemma PlaceEachStep(s: Surface, occupied: seq<Rect>, fs: seq<Size>, i: nat)
    requires s.Valid() && i < |fs|
    ensures var cs, f := PlaceEach(s, occupied, fs[..i]), fs[i];
      var after := ReserveAll(occupied, cs, fs[..i]);
      var c := PlaceOne(s, after, f);
      && PlaceEach(s, occupied, fs[..i + 1]) == cs + [c]
      && ReserveAll(occupied, cs + [c], fs[..i + 1]) == Reserve(after, c, f)
  {
    var cs := PlaceEach(s, occupied, fs[..i]);
    assert fs[..i + 1] == fs[..i] + [fs[i]] && fs[..i + 1][..i] == fs[..i];
    ReserveAllStep(occupied, cs, fs[..i], PlaceOne(s, ReserveAll(occupied, cs, fs[..i]), fs[i]), fs[i]);
  }

  lemma RoundAllAppend(cs: seq<Option<Pt>>, c: Option<Pt>)
    ensures RoundAll(cs + [c]) == RoundAll(cs) + [RoundOne(c)]
  {
  }

  lemma NextCandidate(cands: seq<Pt>, k: nat, ok: Pt -> bool)
    requires k < |cands|
    ensures FirstWhere(cands[k..], ok) == if ok(cands[k]) then Some(cands[k]) else FirstWhere(cands[k + 1..], ok)
  {
    assert cands[k..][1..] == cands[k + 1..];
  }

  class SurfaceLayout {
    const surface: Surface
    var occupied: seq<Rect>
    ghost var given: set<nat>  // indices of the footprints registered by Occupy, which are not checked

    /** Whatever Place and PlaceAll put down is on the surface and clear of all registered before. */
    ghost predicate Valid()
      reads this
    {
      surface.Valid() && Packed(surface, occupied, given) && forall i :: i in given ==> i < |occupied|
    }

    constructor (centre: Pt, bbox: Rect, margin: real, gap: real, step: real)
      requires gap >= 0.0 && step > EPS
      ensures Valid() && occupied == [] && given == {}
      ensures surface == Surface(centre, Rect(bbox.x0 + margin, bbox.y0 + margin, bbox.x1 - margin, bbox.y1 - margin),
                                 gap, step)
    {
      surface := Surface(centre, Rect(bbox.x0 + margin, bbox.y0 + margin, bbox.x1 - margin, bbox.y1 - margin), gap, step);
      occupied, given := [], {};
    }

    /** Registers something already on the surface. */
    method Occupy(xy: Pt, f: Size)
      requires Valid()
      modifies this
      ensures Valid() && occupied == old(occupied) + [RectAt(xy, f)] && given == old(given) + {|old(occupied)|}
    {
      PackedAfterOne(surface, occupied, RectAt(xy, f), given + {|occupied|});
      occupied, given := occupied + [RectAt(xy, f)], given + {|occupied|};
    }

    method IsClear(r: Rect) returns (clear: bool)
      ensures clear == ClearOf(occupied, r, surface.gap)
    {
      for k := 0 to |occupied|
        invariant forall j :: 0 <= j < k ==> Apart(r, occupied[j], surface.gap)
      {
        var o, g := occupied[k], surface.gap;
        if r.x0 < o.x1 + g && r.x1 > o.x0 - g && r.y0 < o.y1 + g && r.y1 > o.y0 - g { return false; }
      }
      return true;
    }

    method Fits(xy: Pt, f: Size) returns (fits: bool)
      ensures fits <==> Within(RectAt(xy, f), surface.usable, EPS) && ClearOf(occupied, RectAt(xy, f), surface.gap)
    {
      var r, u := RectAt(xy, f), surface.usable;
      if r.x0 < u.x0 - EPS || r.y0 < u.y0 - EPS || r.x1 > u.x1 + EPS || r.y1 > u.y1 + EPS { return false; }
      fits := IsClear(r);
    }

    /** Reserves one footprint at the first clear candidate, or refuses it. */
    method Place(f: Size) returns (xy: Option<Pt>)
      requires Valid()
      modifies `occupied
      ensures Valid()
      ensures occupied == Reserve(old(occupied), PlaceOne(surface, old(occupied), f), f)
      ensures xy == RoundOne(PlaceOne(surface, old(occupied), f))
    {
      var lo, hi := CentreLo(surface, f), CentreHi(surface, f);
      if lo.x > hi.x + EPS || lo.y > hi.y + EPS { return None; }
      var cands := CandidateList(lo, hi, surface.centre, surface.step);
      ghost var ok := ClearAt(occupied, f, surface.gap);
      for k := 0 to |cands|
        invariant occupied == old(occupied)
        invariant FirstWhere(cands, ok) == FirstWhere(cands[k..], ok)
      {
        assert cands[k..][1..] == cands[k + 1..];
        var clear := IsClear(RectAt(cands[k], f));
        if clear {
          PlaceSound(surface, occupied, f);
          PackedAfterOne(surface, occupied, RectAt(cands[k], f), given);
          occupied := occupied + [RectAt(cands[k], f)];
          return Some(RoundPt(cands[k]));
        }
      }
      return None;
    }

    /** Reserves a batch: the widest block with a free origin, else one by one. */
    method PlaceAll(fs: seq<Size>) returns (xys: seq<Option<Pt>>)
      requires Valid() && SizesOk(fs)
      modifies `occupied
      ensures Valid()
      ensures occupied == ReserveAll(old(occupied), PackAll(surface, old(occupied), fs), fs)
      ensures xys == RoundAll(PackAll(surface, old(occupied), fs))
    {
      if fs == [] { return []; }
      var block := FindBlock(fs);
      if block.Some? {
        BatchSound(surface, occupied, fs);
        xys := ReserveBlock(fs, block.value);
      } else {
        xys := PlaceOneByOne(fs);
      }
    }

    /** The widest block with a free origin: all columns first, then one fewer, down to one. */
    method FindBlock(fs: seq<Size>) returns (block: Option<seq<Pt>>)
      requires surface.Valid()
      ensures PackAll(surface, occupied, fs) ==
              if block.Some? then Somes(block.value) else PlaceEach(surface, occupied, fs)
    {
      ghost var hasPlace := HasPlace(surface, occupied, fs);
      var cols := |fs|;
      while cols > 0
        invariant 0 <= cols <= |fs|
        invariant BestColumns(surface, occupied, fs) == Highest(cols, hasPlace)
      {
        var origin := FreeOrigin(fs, cols);
        assert origin.Some? == hasPlace(cols);
        if origin.Some? {
          BestIsFound(surface, occupied, fs, cols, origin.value);
          return Some(Cells(surface, fs, cols, origin.value));
        }
        cols := cols - 1;
      }
      return None;
    }

    /** The first origin at which the block of cols columns is clear. */
    method FreeOrigin(fs: seq<Size>, cols: nat) returns (origin: Option<Pt>)
      requires surface.Valid() && 0 < cols <= |fs|
      ensures origin == BlockOrigin(surface, occupied, fs, cols)
    {
      var ws, hs := ColumnWidths(fs, cols), RowHeights(fs, cols);
      var b := Size(Extent(ws, surface.gap), Extent(hs, surface.gap));
      if b.w > surface.usable.x1 - surface.usable.x0 + EPS || b.h > surface.usable.y1 - surface.usable.y0 + EPS {
        return None;
      }
      var xs := Middles(ws, surface.gap);
      var ys := Middles(hs, surface.gap);
      var cands := CandidateList(OriginLo(surface), OriginHi(surface, b), OriginTarget(surface, b), surface.step);
      ghost var ok := BlockClearAt(surface, occupied, fs, cols);
      for k := 0 to |cands|
        invariant FirstWhere(cands, ok) == FirstWhere(cands[k..], ok)
      {
        NextCandidate(cands, k, ok);
        var clear := BlockFitsAt(fs, cols, cands[k], xs, ys);
        if clear { return Some(cands[k]); }
      }
      return None;
    }

    /** Whether every footprint of the block at origin o is clear. */
    method BlockFitsAt(fs: seq<Size>, cols: nat, o: Pt, xs: seq<real>, ys: seq<real>) returns (clear: bool)
      requires 0 < cols <= |fs|
      requires AreMiddles(xs, ColumnWidths(fs, cols), surface.gap) && AreMiddles(ys, RowHeights(fs, cols), surface.gap)
      ensures clear == BlockClear(surface, occupied, fs, cols, o)
    {
      var centres := CentresFrom(o, xs, ys, |fs|);
      CentresAreCells(surface, fs, cols, o, xs, ys);
      clear := AreClear(centres, fs);
    }

    method AreClear(centres: seq<Pt>, fs: seq<Size>) returns (clear: bool)
      requires |centres| == |fs|
      ensures clear == AllClear(occupied, centres, fs, surface.gap)
    {
      for i := 0 to |fs|
        invariant forall j :: 0 <= j < i ==> ClearOf(occupied, RectAt(centres[j], fs[j]), surface.gap)
      {
        var free := IsClear(RectAt(centres[i], fs[i]));
        if !free { return false; }
      }
      return true;
    }

    method ReserveBlock(fs: seq<Size>, centres: seq<Pt>) returns (xys: seq<Option<Pt>>)
      requires Valid() && |centres| == |fs|
      requires forall i :: 0 <= i < |fs| ==> SoundAt(surface, occupied, fs, Somes(centres), i)
      modifies `occupied
      ensures Valid()
      ensures occupied == ReserveAll(old(occupied), Somes(centres), fs)
      ensures xys == RoundAll(Somes(centres))
    {
      ghost var cs := Somes(centres);
      xys := [];
      for i := 0 to |fs|
        invariant occupied == ReserveAll(old(occupied), cs[..i], fs[..i])
        invariant xys == RoundAll(cs[..i])
      {
        assert cs[..i + 1] == cs[..i] + [Some(centres[i])] && fs[..i + 1] == fs[..i] + [fs[i]];
        ReserveAllStep(old(occupied), cs[..i], fs[..i], Some(centres[i]), fs[i]);
        occupied := occupied + [RectAt(centres[i], fs[i])];
        xys := xys + [Some(RoundPt(centres[i]))];
      }
      assert cs[..|fs|] == cs && fs[..|fs|] == fs;
      PackedAfterBatch(surface, old(occupied), cs, fs, given);
    }

    method PlaceOneByOne(fs: seq<Size>) returns (xys: seq<Option<Pt>>)
      requires Valid()
      modifies `occupied
      ensures Valid()
      ensures var cs := PlaceEach(surface, old(occupied), fs);
        occupied == ReserveAll(old(occupied), cs, fs) && xys == RoundAll(cs)
    {
      xys := [];
      for i := 0 to |fs|
        invariant Valid()
        invariant var cs := PlaceEach(surface, old(occupied), fs[..i]);
          occupied == ReserveAll(old(occupied), cs, fs[..i]) && xys == RoundAll(cs)
      {
        ghost var occupiedBefore := occupied;
        PlaceEachStep(surface, old(occupied), fs, i);
        var xy := Place(fs[i]);
        RoundAllAppend(PlaceEach(surface, old(occupied), fs[..i]), PlaceOne(surface, occupiedBefore, fs[i]));
        xys := xys + [xy];
      }
      assert fs[..|fs|] == fs;
    }
  }
}
