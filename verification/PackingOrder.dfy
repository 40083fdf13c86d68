/** Which of the free places the packer takes, said without its sort key: the nearest one, up to rounding. */
module PackingOrder {
  import opened Geometry
  import opened Packing
  import opened PackingLaws

  /** The square of the distance from t. */
  function Far2(p: Pt, t: Pt): real { (p.x - t.x) * (p.x - t.x) + (p.y - t.y) * (p.y - t.y) }

  /** The distance from t, rounded to whole micrometres with ties to the even one, is n. */
  predicate Rounds(p: Pt, t: Pt, n: nat) {
    var m, low, high := 1000000000000.0 * Far2(p, t), n as real - 0.5, n as real + 0.5;
    && (n == 0 || low * low < m || (low * low == m && n % 2 == 0))
    && (m < high * high || (m == high * high && n % 2 == 0))
  }

  function Micros(v: real): int { RoundHalfEven(v * 1000000.0) }

  /** At the same rounded distance: less far up or down, then further left, then further down. */
  predicate EquallyFarAndFirst(c: Pt, p: Pt, t: Pt) {
    var cy, py := Micros(Abs(c.y - t.y)), Micros(Abs(p.y - t.y));
    cy < py || (cy == py && (Micros(c.x - t.x) < Micros(p.x - t.x)
      || (Micros(c.x - t.x) == Micros(p.x - t.x) && Micros(c.y - t.y) <= Micros(p.y - t.y))))
  }

  /** c comes no later than p: its rounded distance from t is less, or the same and c first. */
  ghost predicate Preferred(c: Pt, p: Pt, t: Pt) {
    exists n: nat, k: nat :: Rounds(c, t, n) && Rounds(p, t, k) && (n < k || (n == k && EquallyFarAndFirst(c, p, t)))
  }

  lemma RoundsBySquares(p: Pt, t: Pt, n: nat)
    requires NearestHalfRoot(4000000000000.0 * Far2(p, t), n)
    ensures Rounds(p, t, n)
  {
    HalfSquares(n);
  }

  lemma HalfSquares(n: nat)
    ensures OddSquare(n) as real == 4.0 * ((n as real + 0.5) * (n as real + 0.5))
    ensures n > 0 ==> OddSquare(n - 1) as real == 4.0 * ((n as real - 0.5) * (n as real - 0.5))
  {
    OddSquareIs(n);
    HalfAbove(n as real);
    if n > 0 { OddSquareIs(n - 1); }
    SquareAsReal(n);
  }

  lemma OddSquareIs(n: nat)
    ensures OddSquare(n) == 4 * (n * n) + 4 * n + 1
    ensures OddSquare(n) == 4 * ((n + 1) * (n + 1)) - 4 * (n + 1) + 1
  {
  }

  lemma HalfAbove(x: real)
    ensures 4.0 * ((x + 0.5) * (x + 0.5)) == 4.0 * (x * x) + 4.0 * x + 1.0
    ensures 4.0 * ((x - 0.5) * (x - 0.5)) == 4.0 * (x * x) - 4.0 * x + 1.0
  {
  }

  lemma SquareAsReal(n: nat)
    ensures (n * n) as real == (n as real) * (n as real)
  {
  }

  lemma KeyDistanceIs(c: Pt, t: Pt, m: real)
    requires m == 4000000000000.0 * Far2(c, t)
    ensures KeyOf(c, t).dist == RootFrom(m, 0)
  {
  }

  lemma KeyDistance(c: Pt, t: Pt) returns (n: nat)
    ensures KeyOf(c, t).dist == n && Rounds(c, t, n)
  {
    var m := 4000000000000.0 * Far2(c, t);
    n := RootFrom(m, 0);
    KeyDistanceIs(c, t, m);
    RoundsBySquares(c, t, n);
  }

  lemma KeyTies(c: Pt, p: Pt, t: Pt)
    requires KeyOf(c, t).dist == KeyOf(p, t).dist
    ensures KeyLe(KeyOf(c, t), KeyOf(p, t)) <==> EquallyFarAndFirst(c, p, t)
  {
  }

  /** The least key is what is preferred. */
  lemma KeyMeansPreferred(c: Pt, p: Pt, t: Pt)
    requires KeyLe(KeyOf(c, t), KeyOf(p, t))
    ensures Preferred(c, p, t)
  {
    var n := KeyDistance(c, t);
    var k := KeyDistance(p, t);
    if n == k { KeyTies(c, p, t); }
  }

  lemma SquareGrows(a: real, b: real)
    requires 0.0 <= a <= b
    ensures a * a <= b * b
  {
  }

  lemma RootGrows(a: real, b: real)
    requires 0.0 <= b && a * a <= b * b
    ensures a <= b
  {
    assert a * a - b * b == (a - b) * (a + b);
    if a > b { TimesPositive(a - b, a + b); }
  }

  /** What is preferred is at most a micrometre farther away than anything else. */
  lemma PreferredIsNearest(c: Pt, p: Pt, t: Pt, e: real)
    requires Preferred(c, p, t) && e >= 0.0 && Far2(p, t) <= e * e
    ensures Far2(c, t) <= (e + 0.000001) * (e + 0.000001)
  {
    var n: nat, k: nat :| Rounds(c, t, n) && Rounds(p, t, k) && n <= k;
    var scaled := e * 1000000.0;
    ScaledSquare(e, scaled);
    ScaledSquare(e + 0.000001, scaled + 1.0);
    WithinRounding(1000000000000.0 * Far2(c, t), 1000000000000.0 * Far2(p, t), n, k, scaled);
  }

  lemma WithinRounding(mc: real, mp: real, n: nat, k: nat, scaled: real)
    requires n <= k && scaled >= 0.0 && mp <= scaled * scaled
    requires mc <= (n as real + 0.5) * (n as real + 0.5)
    requires k == 0 || (k as real - 0.5) * (k as real - 0.5) <= mp
    ensures mc <= (scaled + 1.0) * (scaled + 1.0)
  {
    if k > 0 { RootGrows(k as real - 0.5, scaled); }
    SquareGrows(n as real + 0.5, scaled + 1.0);
  }

  lemma ScaledSquare(d: real, m: real)
    requires m == d * 1000000.0
    ensures m * m == 1000000000000.0 * (d * d)
  {
  }

  // ------------------------------------------------------- one footprint

  /** Footprint f can be placed at p: p is tried, and clear of everything there. */
  predicate Free(s: Surface, occupied: seq<Rect>, f: Size, p: Pt)
    requires s.Valid()
  {
    p in Spots(s, f) && ClearOf(occupied, RectAt(p, f), s.gap)
  }

  /** A footprint is refused exactly if it is free nowhere. Otherwise it gets the free place that is
      preferred to all others, so none is nearer to the surface point by more than a micrometre. */
  lemma PlaceNearest(s: Surface, occupied: seq<Rect>, f: Size, p: Pt, e: real)
    requires s.Valid()
    ensures PlaceOne(s, occupied, f).None? ==> !Free(s, occupied, f, p)
    ensures PlaceOne(s, occupied, f).Some? ==>
      var c := PlaceOne(s, occupied, f).value;
      && Free(s, occupied, f, c)
      && (Free(s, occupied, f, p) ==> Preferred(c, p, s.centre))
      && (Free(s, occupied, f, p) && e >= 0.0 && Far2(p, s.centre) <= e * e ==>
            Far2(c, s.centre) <= (e + 0.000001) * (e + 0.000001))
  {
    PlaceLeast(s, occupied, f);
    assert ClearAt(occupied, f, s.gap)(p) == ClearOf(occupied, RectAt(p, f), s.gap);
    if PlaceOne(s, occupied, f).Some? && Free(s, occupied, f, p) {
      var c := PlaceOne(s, occupied, f).value;
      KeyMeansPreferred(c, p, s.centre);
      if e >= 0.0 && Far2(p, s.centre) <= e * e { PreferredIsNearest(c, p, s.centre, e); }
    }
  }

  lemma CentreKey(p: Pt, t: Pt)
    ensures KeyLe(KeyOf(t, t), KeyOf(p, t))
  {
    var n := KeyDistance(t, t);
    var k := KeyDistance(p, t);
    if n > 0 { SquareGrows(0.5, n as real - 0.5); }
    assert n == 0;
    if k == 0 { NearlyThere(p, t); }
  }

  /** Less than half a micrometre away on either axis is no distance. */
  lemma NearlyThere(p: Pt, t: Pt)
    requires Rounds(p, t, 0)
    ensures Micros(p.x - t.x) == Micros(p.y - t.y) == Micros(Abs(p.y - t.y)) == 0
  {
    var dx, dy := p.x - t.x, p.y - t.y;
    assert dx * dx >= 0.0 && dy * dy >= 0.0;
    HalfMicro(dx);
    HalfMicro(dy);
  }

  lemma HalfMicro(d: real)
    requires 1000000000000.0 * (d * d) <= 0.25
    ensures Micros(d) == Micros(Abs(d)) == 0
  {
    var m := d * 1000000.0;
    ScaledSquare(d, m);
    RootGrows(m, 0.5);
    ScaledSquare(-d, -m);
    RootGrows(-m, 0.5);
    RoundsToNothing(m);
    RoundsToNothing(-m);
  }

  lemma RoundsToNothing(m: real)
    requires -0.5 <= m <= 0.5
    ensures RoundHalfEven(m) == 0
  {
  }

  /** The first candidate is the surface point itself, if that is in range. */
  lemma CentreFirst(lo: Pt, hi: Pt, t: Pt, step: real)
    requires step > EPS && lo.x <= t.x <= hi.x && lo.y <= t.y <= hi.y
    ensures Candidates(lo, hi, t, step) != [] && Candidates(lo, hi, t, step)[0] == t
  {
    var xs, ys := FullAxis(lo.x, hi.x, t.x, step), FullAxis(lo.y, hi.y, t.y, step);
    AxisStart(lo.x, hi.x, t.x, Lattice(t.x, step), Reach(lo.x, hi.x, step) - 1);
    AxisStart(lo.y, hi.y, t.y, Lattice(t.y, step), Reach(lo.y, hi.y, step) - 1);
    GridStart(xs, ys, t);
    forall p ensures KeyLe(KeyFor(t)(t), KeyFor(t)(p)) { CentreKey(p, t); }
    FirstStaysFirst(Grid(xs, ys), KeyFor(t), t);
  }

  lemma GridStart(xs: seq<real>, ys: seq<real>, t: Pt)
    requires xs != [] && ys != [] && xs[0] == t.x && ys[0] == t.y
    ensures Grid(xs, ys) != [] && Grid(xs, ys)[0] == t
  {
    assert Row(xs[0], ys)[0] == t;
  }

  lemma {:induction false} AxisStart(lo: real, hi: real, start: real, at: int -> real, n: int)
    ensures Axis(lo, hi, start, at, n) != [] && Axis(lo, hi, start, at, n)[0] == start
    decreases n
  {
    if n > 0 { AxisStart(lo, hi, start, at, n - 1); }
  }

  lemma FirstStaysFirst(s: seq<Pt>, key: Pt -> Key, t: Pt)
    requires s != [] && s[0] == t && forall p :: KeyLe(key(t), key(p))
    ensures SortByKey(s, key) != [] && SortByKey(s, key)[0] == t
  {
  }

  // The same over all lattice points, for a surface point at which the footprint stays on the surface.

  /** Footprint f stays on the surface at p, a lattice point around the surface point, clear of all there. */
  ghost predicate FreeOnLattice(s: Surface, occupied: seq<Rect>, f: Size, p: Pt) {
    OnLattice(s, f, p) && ClearOf(occupied, RectAt(p, f), s.gap)
  }

  lemma NearestOnLattice(s: Surface, occupied: seq<Rect>, f: Size, p: Pt, e: real)
    requires s.Valid() && Within(RectAt(s.centre, f), s.usable, 0.0)
    ensures PlaceOne(s, occupied, f).None? ==> !FreeOnLattice(s, occupied, f, p)
    ensures PlaceOne(s, occupied, f).Some? ==>
      var c := PlaceOne(s, occupied, f).value;
      && FreeOnLattice(s, occupied, f, c)
      && (FreeOnLattice(s, occupied, f, p) ==> Preferred(c, p, s.centre))
      && (FreeOnLattice(s, occupied, f, p) && e >= 0.0 && Far2(p, s.centre) <= e * e ==>
            Far2(c, s.centre) <= (e + 0.000001) * (e + 0.000001))
  {
    PlaceNearest(s, occupied, f, p, e);
    SpotsAreTheLattice(s, f, p);
    if PlaceOne(s, occupied, f).Some? { SpotsAreTheLattice(s, f, PlaceOne(s, occupied, f).value); }
  }

  lemma FirstIfFree(cands: seq<Pt>, ok: Pt -> bool, t: Pt)
    requires cands != [] && cands[0] == t && ok(t)
    ensures FirstWhere(cands, ok) == Some(t)
  {
  }

  /** So a footprint goes to the surface point itself while that is clear - always on an empty surface. */
  lemma CentreIfClear(s: Surface, occupied: seq<Rect>, f: Size)
    requires s.Valid() && Within(RectAt(s.centre, f), s.usable, 0.0)
    ensures ClearOf(occupied, RectAt(s.centre, f), s.gap) ==> PlaceOne(s, occupied, f) == Some(s.centre)
    ensures PlaceOne(s, [], f) == Some(s.centre)
  {
    CentreFirst(CentreLo(s, f), CentreHi(s, f), s.centre, s.step);
    if ClearOf(occupied, RectAt(s.centre, f), s.gap) { FirstIfFree(Spots(s, f), ClearAt(occupied, f, s.gap), s.centre); }
    FirstIfFree(Spots(s, f), ClearAt([], f, s.gap), s.centre);
  }

  // -------------------------------------------------------------- blocks

  /** The origin at which a block of size b is centred on the surface point. */
  function Centred(s: Surface, b: Size): Pt { Pt(s.centre.x - b.w / 2.0, s.centre.y - b.h / 2.0) }

  /** The origin taken for a number of columns is free, and preferred to all other free ones: none brings
      the block nearer to centred by more than a micrometre. None is taken only if none is free. */
  lemma BlockNearest(s: Surface, occupied: seq<Rect>, fs: seq<Size>, cols: nat, p: Pt, e: real)
    requires s.Valid() && 0 < cols <= |fs|
    ensures BlockOrigin(s, occupied, fs, cols).None? ==> !FreeBlock(s, occupied, fs, cols, p)
    ensures BlockOrigin(s, occupied, fs, cols).Some? ==>
      var o, t := BlockOrigin(s, occupied, fs, cols).value, Centred(s, BlockSize(s, fs, cols));
      && FreeBlock(s, occupied, fs, cols, o)
      && (FreeBlock(s, occupied, fs, cols, p) ==> Preferred(o, p, t))
      && (FreeBlock(s, occupied, fs, cols, p) && e >= 0.0 && Far2(p, t) <= e * e ==>
            Far2(o, t) <= (e + 0.000001) * (e + 0.000001))
  {
    BlockChoice(s, occupied, fs, cols);
    var got, t := BlockOrigin(s, occupied, fs, cols), Centred(s, BlockSize(s, fs, cols));
    if got.Some? && FreeBlock(s, occupied, fs, cols, p) {
      assert KeyLe(KeyFor(t)(got.value), KeyFor(t)(p));
      KeyMeansPreferred(got.value, p, t);
      if e >= 0.0 && Far2(p, t) <= e * e { PreferredIsNearest(got.value, p, t, e); }
    }
  }

  /** The block of cols columns fits on the surface with its origin at o. */
  predicate BlockInside(s: Surface, fs: seq<Size>, cols: nat, o: Pt)
    requires 0 < cols <= |fs|
  {
    var b := BlockSize(s, fs, cols);
    Within(Rect(o.x, o.y, o.x + b.w, o.y + b.h), s.usable, 0.0)
  }

  /** A block that can be centred and is clear there is centred. */
  lemma CentredIfClear(s: Surface, occupied: seq<Rect>, fs: seq<Size>, cols: nat)
    requires s.Valid() && 0 < cols <= |fs|
    ensures var o := Centred(s, BlockSize(s, fs, cols));
      BlockInside(s, fs, cols, o) && BlockClear(s, occupied, fs, cols, o) ==> BlockOrigin(s, occupied, fs, cols) == Some(o)
  {
    var o := Centred(s, BlockSize(s, fs, cols));
    if BlockInside(s, fs, cols, o) && BlockClear(s, occupied, fs, cols, o) {
      InsideFits(s, fs, cols, o, BlockSize(s, fs, cols));
      FirstIfFree(Origins(s, fs, cols), BlockClearAt(s, occupied, fs, cols), o);
    }
  }

  lemma InsideFits(s: Surface, fs: seq<Size>, cols: nat, o: Pt, b: Size)
    requires s.Valid() && 0 < cols <= |fs| && b == BlockSize(s, fs, cols) && o == Centred(s, b) && BlockInside(s, fs, cols, o)
    ensures BlockFits(s, fs, cols) && Origins(s, fs, cols) != [] && Origins(s, fs, cols)[0] == o
  {
    OriginFirst(s, b, o);
    assert Origins(s, fs, cols) == Candidates(OriginLo(s), OriginHi(s, b), OriginTarget(s, b), s.step);
  }

  lemma OriginFirst(s: Surface, b: Size, o: Pt)
    requires s.Valid() && o == Centred(s, b) && Within(Rect(o.x, o.y, o.x + b.w, o.y + b.h), s.usable, 0.0)
    ensures b.w <= s.usable.x1 - s.usable.x0 + EPS && b.h <= s.usable.y1 - s.usable.y0 + EPS
    ensures var cands := Candidates(OriginLo(s), OriginHi(s, b), OriginTarget(s, b), s.step); cands != [] && cands[0] == o
  {
    CentreFirst(OriginLo(s), OriginHi(s, b), o, s.step);
  }

  /** On an empty surface a batch whose widest fitting block can be centred is laid out as that block, centred. */
  lemma EmptyBatchCentred(s: Surface, fs: seq<Size>, cols: nat)
    requires s.Valid() && 0 < cols <= |fs| && BlockInside(s, fs, cols, Centred(s, BlockSize(s, fs, cols)))
    requires forall c :: cols < c <= |fs| ==> !BlockFits(s, fs, c)
    ensures PackAll(s, [], fs) == Somes(Cells(s, fs, cols, Centred(s, BlockSize(s, fs, cols))))
  {
    var o := Centred(s, BlockSize(s, fs, cols));
    CentredIfClear(s, [], fs, cols);
    assert BlockOrigin(s, [], fs, cols) == Some(o);
    HighestIs(|fs|, HasPlace(s, [], fs), cols);
  }

  lemma {:induction false} HighestIs(n: nat, ok: nat -> bool, best: nat)
    requires best <= n && ok(best) && forall c :: best < c <= n ==> !ok(c)
    ensures Highest(n, ok) == best
  {
    if n > best { HighestIs(n - 1, ok, best); }
  }

  // ---------------------------------------------------- what a block looks like

  lemma {:induction false} InColumnFrom(fs: seq<Size>, cols: nat, c: nat, n: nat, w: real) returns (i: nat)
    requires cols > 0 && n <= |fs| && w in InColumn(fs, cols, c, n)
    ensures i < n && ColOf(i, cols) == c && fs[i].w == w
  {
    if ColOf(n - 1, cols) == c && fs[n - 1].w == w { i := n - 1; } else { i := InColumnFrom(fs, cols, c, n - 1, w); }
  }

  lemma {:induction false} InRowFrom(fs: seq<Size>, cols: nat, r: nat, n: nat, h: real) returns (i: nat)
    requires cols > 0 && n <= |fs| && h in InRow(fs, cols, r, n)
    ensures i < n && RowOf(i, cols) == r && fs[i].h == h
  {
    if RowOf(n - 1, cols) == r && fs[n - 1].h == h { i := n - 1; } else { i := InRowFrom(fs, cols, r, n - 1, h); }
  }

  /** w is the width of the widest footprint in column c. */
  ghost predicate Widest(fs: seq<Size>, cols: nat, c: nat, w: real)
    requires cols > 0
  {
    && (forall i :: 0 <= i < |fs| && ColOf(i, cols) == c ==> fs[i].w <= w)
    && (exists i :: 0 <= i < |fs| && ColOf(i, cols) == c && fs[i].w == w)
  }

  /** h is the height of the tallest footprint in row r. */
  ghost predicate Tallest(fs: seq<Size>, cols: nat, r: nat, h: real)
    requires cols > 0
  {
    && (forall i :: 0 <= i < |fs| && RowOf(i, cols) == r ==> fs[i].h <= h)
    && (exists i :: 0 <= i < |fs| && RowOf(i, cols) == r && fs[i].h == h)
  }

  /** A column is as wide as its widest footprint, and a row as high as its tallest. */
  lemma BandsAreTight(fs: seq<Size>, cols: nat, c: nat, r: nat)
    requires 0 < cols <= |fs| && c < cols && r < Rows(|fs|, cols)
    ensures |ColumnWidths(fs, cols)| == cols && Widest(fs, cols, c, ColumnWidths(fs, cols)[c])
    ensures |RowHeights(fs, cols)| == Rows(|fs|, cols) && Tallest(fs, cols, r, RowHeights(fs, cols)[r])
  {
    InColumnHas(fs, cols, c, |fs|, c);
    var i := InColumnFrom(fs, cols, c, |fs|, ColumnWidth(fs, cols, c));
    var k := RowStart(|fs| - 1, cols, r);
    InRowHas(fs, cols, r, |fs|, k);
    var j := InRowFrom(fs, cols, r, |fs|, RowHeight(fs, cols, r));
  }

  /** The middle of band c: past the bands before it and as many gaps. */
  function BandCentre(ws: seq<real>, gap: real, c: nat): real
    requires c < |ws|
  {
    Sum(ws, c) + gap * c as real + ws[c] / 2.0
  }

  /** All bands and the gaps between them. */
  function BandTotal(ws: seq<real>, gap: real): real { Sum(ws, |ws|) + gap * (|ws| - 1) as real }

  /** A block is as large as its columns and rows and the gaps between them; each footprint is in the middle
      of its column and row; and a block can be taken at an origin that is tried exactly if it fits on the
      surface and all its footprints are clear of what is there. */
  lemma BlockLaw(s: Surface, occupied: seq<Rect>, fs: seq<Size>, cols: nat, o: Pt, i: nat)
    requires s.Valid() && 0 < cols <= |fs| && i < |fs|
    ensures BlockSize(s, fs, cols) == Size(BandTotal(ColumnWidths(fs, cols), s.gap), BandTotal(RowHeights(fs, cols), s.gap))
    ensures RowOf(i, cols) < |RowHeights(fs, cols)|
    ensures Cell(s, fs, cols, o, i) == Pt(o.x + BandCentre(ColumnWidths(fs, cols), s.gap, ColOf(i, cols)),
                                          o.y + BandCentre(RowHeights(fs, cols), s.gap, RowOf(i, cols)))
    ensures FreeBlock(s, occupied, fs, cols, o) <==> BlockFree(s, occupied, fs, cols, o)
  {
    SizeLaw(s, fs, cols);
    CellLaw(s, fs, cols, o, i);
    FreeBlockLaw(s, occupied, fs, cols, o);
  }

  predicate BlockFree(s: Surface, occupied: seq<Rect>, fs: seq<Size>, cols: nat, o: Pt)
    requires s.Valid() && 0 < cols <= |fs|
  {
    && BlockSize(s, fs, cols).w <= s.usable.x1 - s.usable.x0 + EPS
    && BlockSize(s, fs, cols).h <= s.usable.y1 - s.usable.y0 + EPS
    && o in Origins(s, fs, cols)
    && forall k :: 0 <= k < |fs| ==> ClearOf(occupied, RectAt(Cell(s, fs, cols, o, k), fs[k]), s.gap)
  }

  lemma SizeLaw(s: Surface, fs: seq<Size>, cols: nat)
    requires 0 < cols <= |fs|
    ensures BlockSize(s, fs, cols) == Size(BandTotal(ColumnWidths(fs, cols), s.gap), BandTotal(RowHeights(fs, cols), s.gap))
  {
    TotalIs(ColumnWidths(fs, cols), s.gap);
    TotalIs(RowHeights(fs, cols), s.gap);
  }

  lemma TotalIs(ws: seq<real>, gap: real)
    ensures Extent(ws, gap) == BandTotal(ws, gap)
  {
  }

  lemma MiddleIs(ws: seq<real>, gap: real, c: nat)
    requires c < |ws|
    ensures Middle(ws, gap, c) == BandCentre(ws, gap, c)
  {
    StartIsPrefixSum(ws, gap, c);
  }

  lemma CellLaw(s: Surface, fs: seq<Size>, cols: nat, o: Pt, i: nat)
    requires 0 < cols <= |fs| && i < |fs|
    ensures RowOf(i, cols) < |RowHeights(fs, cols)|
    ensures Cell(s, fs, cols, o, i) == Pt(o.x + BandCentre(ColumnWidths(fs, cols), s.gap, ColOf(i, cols)),
                                          o.y + BandCentre(RowHeights(fs, cols), s.gap, RowOf(i, cols)))
  {
    RowIndex(i, |fs|, cols);
    MiddleIs(ColumnWidths(fs, cols), s.gap, ColOf(i, cols));
    MiddleIs(RowHeights(fs, cols), s.gap, RowOf(i, cols));
  }

  lemma FreeBlockLaw(s: Surface, occupied: seq<Rect>, fs: seq<Size>, cols: nat, o: Pt)
    requires s.Valid() && 0 < cols <= |fs|
    ensures FreeBlock(s, occupied, fs, cols, o) <==> BlockFree(s, occupied, fs, cols, o)
  {
    forall k | 0 <= k < |fs| ensures Cells(s, fs, cols, o)[k] == Cell(s, fs, cols, o, k) { }
  }

  /** If the block can be centred, the origins tried are the lattice points around its centred origin at
      which it stays on the surface. */
  lemma OriginsAreTheLattice(s: Surface, fs: seq<Size>, cols: nat, p: Pt)
    requires s.Valid() && 0 < cols <= |fs| && BlockInside(s, fs, cols, Centred(s, BlockSize(s, fs, cols)))
    ensures var b, t := BlockSize(s, fs, cols), Centred(s, BlockSize(s, fs, cols));
      p in Origins(s, fs, cols) <==>
        && Within(Rect(p.x, p.y, p.x + b.w, p.y + b.h), s.usable, EPS)
        && (exists kx: int :: StepsFrom(p.x, t.x, s.step, kx)) && (exists ky: int :: StepsFrom(p.y, t.y, s.step, ky))
  {
    OriginMember(s, BlockSize(s, fs, cols), p);
  }

  lemma OriginMember(s: Surface, b: Size, p: Pt)
    requires s.Valid() && var o := Centred(s, b); Within(Rect(o.x, o.y, o.x + b.w, o.y + b.h), s.usable, 0.0)
    ensures var t := Centred(s, b);
      p in Candidates(OriginLo(s), OriginHi(s, b), OriginTarget(s, b), s.step) <==>
        && Within(Rect(p.x, p.y, p.x + b.w, p.y + b.h), s.usable, EPS)
        && (exists kx: int :: StepsFrom(p.x, t.x, s.step, kx)) && (exists ky: int :: StepsFrom(p.y, t.y, s.step, ky))
  {
    var lo, hi, t := OriginLo(s), OriginHi(s, b), OriginTarget(s, b);
    CandidateMember(lo, hi, t, s.step, p);
    AxisIsLattice(lo.x, hi.x, t.x, s.step, p.x);
    AxisIsLattice(lo.y, hi.y, t.y, s.step, p.y);
  }

  // ------------------------------------------------------ one after the other

  /** In the greedy fallback each footprint is placed as if alone, after those before it in the list. */
  lemma {:induction false} PlacedInTurn(s: Surface, occupied: seq<Rect>, fs: seq<Size>, i: nat)
    requires s.Valid() && i < |fs|
    ensures var cs := PlaceEach(s, occupied, fs);
      cs[i] == PlaceOne(s, ReserveAll(occupied, cs[..i], fs[..i]), fs[i])
    decreases |fs|
  {
    var n := |fs| - 1;
    var cs := PlaceEach(s, occupied, fs);
    LastInTurn(s, occupied, fs);
    if i < n {
      PlacedInTurn(s, occupied, fs[..n], i);
      SameTurn(s, occupied, fs, cs, n, i);
    }
  }

  lemma SameTurn(s: Surface, occupied: seq<Rect>, fs: seq<Size>, cs: seq<Option<Pt>>, n: nat, i: nat)
    requires s.Valid() && |cs| == |fs| && i < n <= |fs|
    ensures cs[..n][i] == PlaceOne(s, ReserveAll(occupied, cs[..n][..i], fs[..n][..i]), fs[..n][i]) ==>
      cs[i] == PlaceOne(s, ReserveAll(occupied, cs[..i], fs[..i]), fs[i])
  {
    assert cs[..n][..i] == cs[..i] && fs[..n][..i] == fs[..i];
  }

  lemma LastInTurn(s: Surface, occupied: seq<Rect>, fs: seq<Size>)
    requires s.Valid() && fs != []
    ensures var n, cs := |fs| - 1, PlaceEach(s, occupied, fs);
      cs[..n] == PlaceEach(s, occupied, fs[..n]) && cs[n] == PlaceOne(s, ReserveAll(occupied, cs[..n], fs[..n]), fs[n])
  {
  }

  /** What is reserved for a batch: what was there, and then the footprint of everything that was granted
      a centre, in order, and nothing else. */
  lemma {:induction false} ReservedForBatch(occupied: seq<Rect>, cs: seq<Option<Pt>>, fs: seq<Size>)
    requires |cs| == |fs|
    ensures occupied <= ReserveAll(occupied, cs, fs) && ReserveAll(occupied, cs, fs)[|occupied|..] == Granted(cs, fs)
  {
    if cs != [] { ReservedForBatch(occupied, cs[..|cs| - 1], fs[..|cs| - 1]); }
  }

  function Granted(cs: seq<Option<Pt>>, fs: seq<Size>): seq<Rect>
    requires |cs| == |fs|
  {
    if cs == [] then []
    else
      var n := |cs| - 1;
      if cs[n].None? then Granted(cs[..n], fs[..n]) else Granted(cs[..n], fs[..n]) + [RectAt(cs[n].value, fs[n])]
  }

  // --------------------------------------------------------------- rounding

  /** v is n ten-thousandths. */
  predicate TenThousandths(v: real, n: int) { v * 10000.0 == n as real }

  /** Centres are reported in ten-thousandths: the nearest, or the even one of two. */
  lemma ReportedIsNearest(v: real) returns (n: int)
    ensures TenThousandths(Round4(v), n)
    ensures -0.5 <= n as real - v * 10000.0 <= 0.5 && (Abs(n as real - v * 10000.0) == 0.5 ==> n % 2 == 0)
  {
    n := RoundHalfEven(v * 10000.0);
  }
}
