/** The tabletop packer: footprints on one measured surface. */
module Packing {
  import opened Geometry

  const EPS := 0.000000001

  /** One placement surface: its preferred point, the bounding box less the edge margin,
      the clearance between footprints and the pitch of the search lattice. */
  datatype Surface = Surface(centre: Pt, usable: Rect, gap: real, step: real) {
    predicate Valid() { gap >= 0.0 && step > EPS }
  }

  predicate SizeOk(f: Size) { f.w >= 0.0 && f.h >= 0.0 }

  predicate ClearOf(occupied: seq<Rect>, r: Rect, gap: real) {
    forall k :: 0 <= k < |occupied| ==> Apart(r, occupied[k], gap)
  }

  // ---------------------------------------------------------------- lattice

  /** int() of a real: truncation towards zero. */
  function Trunc(q: real): int { if q >= 0.0 then q.Floor else -((-q).Floor) }

  function Clamp(s: real, lo: real, hi: real): real { Min(Max(s, lo), hi) }

  predicate InRange(v: real, lo: real, hi: real) { lo - EPS <= v <= hi + EPS }

  function Reach(lo: real, hi: real, step: real): int
    requires step > 0.0
  {
    Trunc((hi - lo) / step) + 2
  }

  function Keep(v: real, lo: real, hi: real): seq<real> { if InRange(v, lo, hi) then [v] else [] }

  /** The coordinate k lattice steps away from s. */
  function Lattice(s: real, step: real): int -> real { k => s + k as real * step }

  /** Axis values after the first n rings: the clamped start, then k = 1, -1, 2, -2, ... */
  function Axis(lo: real, hi: real, start: real, at: int -> real, n: int): seq<real>
    decreases n
  {
    if n <= 0 then [start]
    else Axis(lo, hi, start, at, n - 1) + Keep(at(n), lo, hi) + Keep(at(-n), lo, hi)
  }

  function FullAxis(lo: real, hi: real, s: real, step: real): seq<real>
    requires step > 0.0
  {
    Axis(lo, hi, Clamp(s, lo, hi), Lattice(s, step), Reach(lo, hi, step) - 1)
  }

  function Row(x: real, ys: seq<real>): seq<Pt> { seq(|ys|, j requires 0 <= j < |ys| => Pt(x, ys[j])) }

  function Grid(xs: seq<real>, ys: seq<real>): seq<Pt> {
    if xs == [] then [] else Row(xs[0], ys) + Grid(xs[1..], ys)
  }

  // --------------------------------------------------------------- sort key

  function OddSquare(n: int): int { (2 * n + 1) * (2 * n + 1) }

  lemma OddSquareGrows(n: nat)
    ensures OddSquare(n) >= n + 1
  {
  }

  /** n is the integer nearest to sqrt(m) / 2, ties going to the even one. */
  predicate NearestHalfRoot(m: real, n: nat) {
    && (n > 0 ==> var below := OddSquare(n - 1) as real; below < m || (below == m && n % 2 == 0))
    && (var above := OddSquare(n) as real; m < above || (above == m && n % 2 == 0))
  }

  function RootFrom(m: real, n: nat): (r: nat)
    requires n == 0 || (var below := OddSquare(n - 1) as real; below < m || (below == m && n % 2 == 0))
    ensures NearestHalfRoot(m, r)
    decreases m.Floor - n
  {
    OddSquareGrows(n);
    var up := OddSquare(n) as real;
    if up < m || (up == m && n % 2 != 0) then RootFrom(m, n + 1) else n
  }

  datatype Key = Key(dist: int, row: int, dx: int, dy: int)

  function Micro(v: real): int { RoundHalfEven(v * 1000000.0) }

  /** (round(hypot, 6), round(|dy|, 6), round(dx, 6), round(dy, 6)), in micrometres. */
  function KeyOf(c: Pt, t: Pt): Key {
    var dx, dy := c.x - t.x, c.y - t.y;
    Key(RootFrom(4000000000000.0 * (dx * dx + dy * dy), 0), Micro(Abs(dy)), Micro(dx), Micro(dy))
  }

  predicate KeyLe(a: Key, b: Key) {
    a.dist < b.dist || (a.dist == b.dist && (a.row < b.row || (a.row == b.row
      && (a.dx < b.dx || (a.dx == b.dx && a.dy <= b.dy)))))
  }

  // A stable sort: an element goes in front of the equal keys that came after it.
  function Insert(c: Pt, s: seq<Pt>, key: Pt -> Key): seq<Pt> {
    if s == [] then [c]
    else if KeyLe(key(c), key(s[0])) then [c] + s
    else [s[0]] + Insert(c, s[1..], key)
  }

  function SortByKey(s: seq<Pt>, key: Pt -> Key): seq<Pt> {
    if s == [] then [] else Insert(s[0], SortByKey(s[1..], key), key)
  }

  function KeyFor(t: Pt): Pt -> Key { c => KeyOf(c, t) }

  function Candidates(lo: Pt, hi: Pt, t: Pt, step: real): seq<Pt>
    requires step > 0.0
  {
    if lo.x > hi.x + EPS || lo.y > hi.y + EPS then []
    else SortByKey(Grid(FullAxis(lo.x, hi.x, t.x, step), FullAxis(lo.y, hi.y, t.y, step)), KeyFor(t))
  }

  // ------------------------------------------------------- one footprint

  function CentreLo(s: Surface, f: Size): Pt { Pt(s.usable.x0 + f.w / 2.0, s.usable.y0 + f.h / 2.0) }

  function CentreHi(s: Surface, f: Size): Pt { Pt(s.usable.x1 - f.w / 2.0, s.usable.y1 - f.h / 2.0) }

  function Spots(s: Surface, f: Size): seq<Pt>
    requires s.Valid()
  {
    Candidates(CentreLo(s, f), CentreHi(s, f), s.centre, s.step)
  }

  /** The first point of cands that satisfies ok, if any. */
  function FirstWhere(cands: seq<Pt>, ok: Pt -> bool): Option<Pt> {
    if cands == [] then None
    else if ok(cands[0]) then Some(cands[0])
    else FirstWhere(cands[1..], ok)
  }

  function ClearAt(occupied: seq<Rect>, f: Size, gap: real): Pt -> bool {
    c => ClearOf(occupied, RectAt(c, f), gap)
  }

  /** The centre place() reserves, before it is rounded for the caller. */
  function PlaceOne(s: Surface, occupied: seq<Rect>, f: Size): Option<Pt>
    requires s.Valid()
  {
    FirstWhere(Spots(s, f), ClearAt(occupied, f, s.gap))
  }

  function Reserve(occupied: seq<Rect>, c: Option<Pt>, f: Size): seq<Rect> {
    if c.Some? then occupied + [RectAt(c.value, f)] else occupied
  }

  function ReserveAll(occupied: seq<Rect>, cs: seq<Option<Pt>>, fs: seq<Size>): (after: seq<Rect>)
    requires |cs| == |fs|
    ensures |after| >= |occupied|
  {
    if cs == [] then occupied
    else
      var n := |cs| - 1;
      Reserve(ReserveAll(occupied, cs[..n], fs[..n]), cs[n], fs[n])
  }

  /** Greedy fallback: the footprints one after another. */
  function PlaceEach(s: Surface, occupied: seq<Rect>, fs: seq<Size>): (cs: seq<Option<Pt>>)
    requires s.Valid()
    ensures |cs| == |fs|
  {
    if fs == [] then []
    else
      var n := |fs| - 1;
      var cs := PlaceEach(s, occupied, fs[..n]);
      cs + [PlaceOne(s, ReserveAll(occupied, cs, fs[..n]), fs[n])]
  }

  // ------------------------------------------------------------- blocks

  function MaxOf(vs: seq<real>): (m: real)
    requires vs != []
    ensures m in vs && forall k :: 0 <= k < |vs| ==> vs[k] <= m
  {
    if |vs| == 1 then vs[0] else Max(vs[0], MaxOf(vs[1..]))
  }

  // Row-major position of item i: ColOf(i, cols) and RowOf(i, cols), by repeated subtraction.
  function ColOf(i: nat, cols: nat): (c: nat)
    requires cols > 0
    ensures c < cols && (i < cols ==> c == i)
  {
    if i < cols then i else ColOf(i - cols, cols)
  }

  function RowOf(i: nat, cols: nat): nat
    requires cols > 0
  {
    if i < cols then 0 else 1 + RowOf(i - cols, cols)
  }

  function Rows(n: nat, cols: nat): nat
    requires cols > 0
  {
    if n == 0 then 0 else 1 + RowOf(n - 1, cols)
  }

  /** Widths of the footprints with index i < n in column c. */
  function InColumn(fs: seq<Size>, cols: nat, c: nat, n: nat): seq<real>
    requires cols > 0 && n <= |fs|
  {
    if n == 0 then [] else InColumn(fs, cols, c, n - 1) + if ColOf(n - 1, cols) == c then [fs[n - 1].w] else []
  }

  /** Heights of the footprints with index i < n in row r. */
  function InRow(fs: seq<Size>, cols: nat, r: nat, n: nat): seq<real>
    requires cols > 0 && n <= |fs|
  {
    if n == 0 then [] else InRow(fs, cols, r, n - 1) + if RowOf(n - 1, cols) == r then [fs[n - 1].h] else []
  }

  lemma InColumnHas(fs: seq<Size>, cols: nat, c: nat, n: nat, i: nat)
    requires cols > 0 && i < n <= |fs| && ColOf(i, cols) == c
    ensures fs[i].w in InColumn(fs, cols, c, n)
  {
    if i < n - 1 { InColumnHas(fs, cols, c, n - 1, i); }
  }

  lemma InRowHas(fs: seq<Size>, cols: nat, r: nat, n: nat, i: nat)
    requires cols > 0 && i < n <= |fs| && RowOf(i, cols) == r
    ensures fs[i].h in InRow(fs, cols, r, n)
  {
    if i < n - 1 { InRowHas(fs, cols, r, n - 1, i); }
  }

  lemma {:induction false} RowIndex(i: nat, n: nat, cols: nat)
    requires cols > 0 && i < n
    ensures RowOf(i, cols) < Rows(n, cols)
  {
    RowMonotone(i, n - 1, cols);
  }

  lemma {:induction false} RowMonotone(i: nat, j: nat, cols: nat)
    requires cols > 0 && i <= j
    ensures RowOf(i, cols) <= RowOf(j, cols)
  {
    if i >= cols { RowMonotone(i - cols, j - cols, cols); }
  }

  /** Every row up to that of j has an item. */
  lemma {:induction false} RowStart(j: nat, cols: nat, r: nat) returns (i: nat)
    requires 0 < cols && r <= RowOf(j, cols)
    ensures i <= j && RowOf(i, cols) == r
  {
    if r == RowOf(j, cols) { i := j; } else { i := RowStart(j - cols, cols, r); }
  }

  function ColumnWidth(fs: seq<Size>, cols: nat, c: nat): (w: real)
    requires c < cols <= |fs|
    ensures forall i :: 0 <= i < |fs| && ColOf(i, cols) == c ==> fs[i].w <= w
  {
    InColumnHas(fs, cols, c, |fs|, c);
    assert forall i {:trigger fs[i]} :: 0 <= i < |fs| && ColOf(i, cols) == c ==> fs[i].w in InColumn(fs, cols, c, |fs|) by {
      forall i | 0 <= i < |fs| && ColOf(i, cols) == c ensures fs[i].w in InColumn(fs, cols, c, |fs|) {
        InColumnHas(fs, cols, c, |fs|, i);
      }
    }
    MaxOf(InColumn(fs, cols, c, |fs|))
  }

  function RowHeight(fs: seq<Size>, cols: nat, r: nat): (h: real)
    requires 0 < cols && r < Rows(|fs|, cols)
    ensures forall i :: 0 <= i < |fs| && RowOf(i, cols) == r ==> fs[i].h <= h
  {
    assert InRow(fs, cols, r, |fs|) != [] by {
      var k := RowStart(|fs| - 1, cols, r);
      InRowHas(fs, cols, r, |fs|, k);
    }
    assert forall i {:trigger fs[i]} :: 0 <= i < |fs| && RowOf(i, cols) == r ==> fs[i].h in InRow(fs, cols, r, |fs|) by {
      forall i | 0 <= i < |fs| && RowOf(i, cols) == r ensures fs[i].h in InRow(fs, cols, r, |fs|) {
        InRowHas(fs, cols, r, |fs|, i);
      }
    }
    MaxOf(InRow(fs, cols, r, |fs|))
  }

  function ColumnWidths(fs: seq<Size>, cols: nat): seq<real>
    requires 0 < cols <= |fs|
  {
    seq(cols, c requires 0 <= c < cols => ColumnWidth(fs, cols, c))
  }

  function RowHeights(fs: seq<Size>, cols: nat): seq<real>
    requires 0 < cols <= |fs|
  {
    seq(Rows(|fs|, cols), r requires 0 <= r < Rows(|fs|, cols) => RowHeight(fs, cols, r))
  }

  function Sum(ws: seq<real>, c: nat): real
    requires c <= |ws|
  {
    if c == 0 then 0.0 else Sum(ws, c - 1) + ws[c - 1]
  }

  /** Near edge of band c, counted from the block origin. */
  function Start(ws: seq<real>, gap: real, c: nat): real
    requires c <= |ws|
  {
    if c == 0 then 0.0 else Start(ws, gap, c - 1) + ws[c - 1] + gap
  }

  function Middle(ws: seq<real>, gap: real, c: nat): real
    requires c < |ws|
  {
    Start(ws, gap, c) + ws[c] / 2.0
  }

  /** Total size of the bands and the gaps between them. */
  function Extent(ws: seq<real>, gap: real): real { Sum(ws, |ws|) + gap * (|ws| - 1) as real }

  function BlockSize(s: Surface, fs: seq<Size>, cols: nat): Size
    requires 0 < cols <= |fs|
  {
    Size(Extent(ColumnWidths(fs, cols), s.gap), Extent(RowHeights(fs, cols), s.gap))
  }

  predicate BlockFits(s: Surface, fs: seq<Size>, cols: nat)
    requires 0 < cols <= |fs|
  {
    var b := BlockSize(s, fs, cols);
    b.w <= s.usable.x1 - s.usable.x0 + EPS && b.h <= s.usable.y1 - s.usable.y0 + EPS
  }

  function Cell(s: Surface, fs: seq<Size>, cols: nat, o: Pt, i: nat): Pt
    requires 0 < cols <= |fs| && i < |fs|
  {
    RowIndex(i, |fs|, cols);
    Pt(o.x + Middle(ColumnWidths(fs, cols), s.gap, ColOf(i, cols)), o.y + Middle(RowHeights(fs, cols), s.gap, RowOf(i, cols)))
  }

  function Cells(s: Surface, fs: seq<Size>, cols: nat, o: Pt): seq<Pt>
    requires 0 < cols <= |fs|
  {
    seq(|fs|, i requires 0 <= i < |fs| => Cell(s, fs, cols, o, i))
  }

  // A block's origin is its min corner; the target centres the block on the surface point.
  function OriginLo(s: Surface): Pt { Pt(s.usable.x0, s.usable.y0) }

  function OriginHi(s: Surface, b: Size): Pt { Pt(s.usable.x1 - b.w, s.usable.y1 - b.h) }

  function OriginTarget(s: Surface, b: Size): Pt { Pt(s.centre.x - b.w / 2.0, s.centre.y - b.h / 2.0) }

  function Origins(s: Surface, fs: seq<Size>, cols: nat): seq<Pt>
    requires s.Valid() && 0 < cols <= |fs|
  {
    var b := BlockSize(s, fs, cols);
    Candidates(OriginLo(s), OriginHi(s, b), OriginTarget(s, b), s.step)
  }

  predicate AllClear(occupied: seq<Rect>, cs: seq<Pt>, fs: seq<Size>, gap: real)
    requires |cs| == |fs|
  {
    forall i :: 0 <= i < |fs| ==> ClearOf(occupied, RectAt(cs[i], fs[i]), gap)
  }

  predicate BlockClear(s: Surface, occupied: seq<Rect>, fs: seq<Size>, cols: nat, o: Pt)
    requires 0 < cols <= |fs|
  {
    AllClear(occupied, Cells(s, fs, cols, o), fs, s.gap)
  }

  function BlockClearAt(s: Surface, occupied: seq<Rect>, fs: seq<Size>, cols: nat): Pt -> bool
    requires 0 < cols <= |fs|
  {
    o => BlockClear(s, occupied, fs, cols, o)
  }

  /** The origin of the block with cols columns, if it fits and has a free position. */
  function BlockOrigin(s: Surface, occupied: seq<Rect>, fs: seq<Size>, cols: nat): Option<Pt>
    requires s.Valid() && 0 < cols <= |fs|
  {
    if !BlockFits(s, fs, cols) then None
    else FirstWhere(Origins(s, fs, cols), BlockClearAt(s, occupied, fs, cols))
  }

  /** The largest c in 1..n with ok(c), or 0. */
  function Highest(n: nat, ok: nat -> bool): (best: nat)
    ensures best <= n
    ensures best > 0 ==> ok(best)
    ensures forall c :: best < c <= n ==> !ok(c)
  {
    if n == 0 || ok(n) then n else Highest(n - 1, ok)
  }

  function HasPlace(s: Surface, occupied: seq<Rect>, fs: seq<Size>): nat -> bool
    requires s.Valid()
  {
    c => 0 < c <= |fs| && BlockOrigin(s, occupied, fs, c).Some?
  }

  /** The largest column count whose block has a place, or 0. */
  function BestColumns(s: Surface, occupied: seq<Rect>, fs: seq<Size>): nat
    requires s.Valid()
  {
    Highest(|fs|, HasPlace(s, occupied, fs))
  }

  function Somes(cs: seq<Pt>): seq<Option<Pt>> { seq(|cs|, i requires 0 <= i < |cs| => Some(cs[i])) }

  /** The centres place_all() reserves, before they are rounded for the caller. */
  function PackAll(s: Surface, occupied: seq<Rect>, fs: seq<Size>): (cs: seq<Option<Pt>>)
    requires s.Valid()
    ensures |cs| == |fs|
  {
    var cols := BestColumns(s, occupied, fs);
    if cols > 0 then Somes(Cells(s, fs, cols, BlockOrigin(s, occupied, fs, cols).value))
    else PlaceEach(s, occupied, fs)
  }

  // What the caller gets: centres rounded to 4 decimals (the reservation is not rounded).
  function RoundOne(c: Option<Pt>): Option<Pt> { if c.Some? then Some(RoundPt(c.value)) else None }

  function RoundAll(cs: seq<Option<Pt>>): seq<Option<Pt>> {
    seq(|cs|, i requires 0 <= i < |cs| => RoundOne(cs[i]))
  }
}
