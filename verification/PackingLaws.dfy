/** What the packer guarantees: complete search, containment and separation. */
module PackingLaws {
  import opened Geometry
  import opened Packing

  // ---------------------------------------------------------- the search

  lemma {:induction false} FirstWhereSpec(cands: seq<Pt>, ok: Pt -> bool)
    ensures FirstWhere(cands, ok).None? <==> forall k :: 0 <= k < |cands| ==> !ok(cands[k])
    ensures FirstWhere(cands, ok).Some? ==>
      exists k :: 0 <= k < |cands| && cands[k] == FirstWhere(cands, ok).value && ok(cands[k])
                  && forall j :: 0 <= j < k ==> !ok(cands[j])
  {
    if cands != [] && !ok(cands[0]) {
      var rest := cands[1..];
      FirstWhereSpec(rest, ok);
      assert forall k :: 0 < k < |cands| ==> cands[k] == rest[k - 1];
      if FirstWhere(rest, ok).Some? {
        var k :| 0 <= k < |rest| && rest[k] == FirstWhere(rest, ok).value && ok(rest[k])
                 && forall j :: 0 <= j < k ==> !ok(rest[j]);
        assert cands[k + 1] == rest[k];
      } else {
        assert forall k :: 0 <= k < |rest| ==> rest[k] == cands[k + 1];
      }
    }
  }

  predicate SortedByKey(s: seq<Pt>, key: Pt -> Key) {
    forall i, j :: 0 <= i < j < |s| ==> KeyLe(key(s[i]), key(s[j]))
  }

  lemma KeyOrder(a: Key, b: Key, c: Key)
    ensures KeyLe(a, b) || KeyLe(b, a)
    ensures KeyLe(a, b) && KeyLe(b, c) ==> KeyLe(a, c)
  {
  }

  lemma {:induction false} InsertSorted(c: Pt, s: seq<Pt>, key: Pt -> Key)
    requires SortedByKey(s, key)
    ensures SortedByKey(Insert(c, s, key), key)
    ensures multiset(Insert(c, s, key)) == multiset{c} + multiset(s)
  {
    if s == [] {
    } else if KeyLe(key(c), key(s[0])) {
      forall j | 0 <= j < |s| ensures KeyLe(key(c), key(s[j])) {
        KeyOrder(key(c), key(s[0]), key(s[j]));
      }
    } else {
      KeyOrder(key(c), key(s[0]), key(c));
      InsertSorted(c, s[1..], key);
      assert s == [s[0]] + s[1..];
      StillFirst(c, s, Insert(c, s[1..], key), key);
    }
  }

  lemma StillFirst(c: Pt, s: seq<Pt>, r: seq<Pt>, key: Pt -> Key)
    requires s != [] && SortedByKey(s, key) && KeyLe(key(s[0]), key(c))
    requires SortedByKey(r, key) && multiset(r) == multiset{c} + multiset(s[1..])
    ensures SortedByKey([s[0]] + r, key)
  {
    forall j | 0 <= j < |r| ensures KeyLe(key(s[0]), key(r[j])) {
      assert r[j] in multiset(r);
      assert r[j] == c || r[j] in s[1..];
    }
  }

  /** The candidate order is a permutation of the grid, ordered by the rounded key. */
  lemma {:induction false} SortByKeyLaw(s: seq<Pt>, key: Pt -> Key)
    ensures SortedByKey(SortByKey(s, key), key)
    ensures multiset(SortByKey(s, key)) == multiset(s)
  {
    if s != [] {
      SortByKeyLaw(s[1..], key);
      InsertSorted(s[0], SortByKey(s[1..], key), key);
      assert s == [s[0]] + s[1..];
    }
  }

  lemma {:induction false} SortByKeyMember(s: seq<Pt>, key: Pt -> Key, p: Pt)
    ensures p in SortByKey(s, key) <==> p in s
  {
    SortByKeyLaw(s, key);
    assert p in SortByKey(s, key) <==> p in multiset(SortByKey(s, key));
  }

  lemma {:induction false} GridMember(xs: seq<real>, ys: seq<real>, p: Pt)
    ensures p in Grid(xs, ys) <==> p.x in xs && p.y in ys
  {
    if xs != [] {
      GridMember(xs[1..], ys, p);
      assert xs == [xs[0]] + xs[1..];
      assert p in Row(xs[0], ys) <==> p.x == xs[0] && p.y in ys by {
        if p.x == xs[0] && p.y in ys {
          var j :| 0 <= j < |ys| && ys[j] == p.y;
          assert Row(xs[0], ys)[j] == p;
        }
      }
    }
  }

  function Size1(k: int): nat { if k < 0 then -k else k }

  lemma {:induction false} AxisMember(lo: real, hi: real, start: real, at: int -> real, n: int, v: real)
    ensures v in Axis(lo, hi, start, at, n) <==>
      v == start || (InRange(v, lo, hi) && exists k: int :: 1 <= Size1(k) <= n && at(k) == v)
    decreases n
  {
    if n > 0 {
      AxisMember(lo, hi, start, at, n - 1, v);
      assert v in Axis(lo, hi, start, at, n) <==>
        v in Axis(lo, hi, start, at, n - 1) || (InRange(v, lo, hi) && (v == at(n) || v == at(-n)));
      if v == at(n) || v == at(-n) { assert Size1(n) == n && Size1(-n) == n; }
    }
  }

  lemma RealMul(a: real, b: real, c: real)
    requires a <= b && c >= 0.0
    ensures a * c <= b * c
  {
  }

  lemma StepsBeyond(step: real, k: int, room: real)
    requires step > EPS && room >= -EPS && k >= Trunc(room / step) + 2
    ensures k as real * step > room + EPS
  {
    var q := room / step;
    RealMul(q + 1.0, k as real, step);
    assert (q + 1.0) * step == room + step;
  }

  lemma LatticeReach(lo: real, hi: real, s: real, step: real, k: int)
    requires step > EPS && lo <= s <= hi && InRange(Lattice(s, step)(k), lo, hi)
    ensures Size1(k) <= Reach(lo, hi, step) - 1
  {
    assert Size1(k) as real * step == if k < 0 then -(k as real * step) else k as real * step;
    if Size1(k) >= Reach(lo, hi, step) { StepsBeyond(step, Size1(k), hi - lo); }
  }

  /** With the start in range, the axis values are exactly the lattice points of the range. */
  lemma FullAxisExact(lo: real, hi: real, s: real, step: real, v: real)
    requires step > EPS && lo <= s <= hi
    ensures v in FullAxis(lo, hi, s, step) <==>
      InRange(v, lo, hi) && exists k: int :: Lattice(s, step)(k) == v
  {
    var at := Lattice(s, step);
    AxisMember(lo, hi, s, at, Reach(lo, hi, step) - 1, v);
    assert at(0) == s;
    if InRange(v, lo, hi) && exists k: int :: at(k) == v {
      var k: int :| at(k) == v;
      LatticeReach(lo, hi, s, step, k);
    }
  }

  lemma CandidateMember(lo: Pt, hi: Pt, t: Pt, step: real, p: Pt)
    requires step > EPS
    ensures p in Candidates(lo, hi, t, step) <==>
      lo.x <= hi.x + EPS && lo.y <= hi.y + EPS
      && p.x in FullAxis(lo.x, hi.x, t.x, step) && p.y in FullAxis(lo.y, hi.y, t.y, step)
  {
    var xs, ys := FullAxis(lo.x, hi.x, t.x, step), FullAxis(lo.y, hi.y, t.y, step);
    SortByKeyMember(Grid(xs, ys), KeyFor(t), p);
    GridMember(xs, ys, p);
  }

  lemma CandidateInRange(lo: Pt, hi: Pt, t: Pt, step: real, p: Pt)
    requires step > EPS && p in Candidates(lo, hi, t, step)
    ensures InRange(p.x, lo.x, hi.x) && InRange(p.y, lo.y, hi.y)
  {
    CandidateMember(lo, hi, t, step, p);
    AxisMember(lo.x, hi.x, Clamp(t.x, lo.x, hi.x), Lattice(t.x, step), Reach(lo.x, hi.x, step) - 1, p.x);
    AxisMember(lo.y, hi.y, Clamp(t.y, lo.y, hi.y), Lattice(t.y, step), Reach(lo.y, hi.y, step) - 1, p.y);
  }

  lemma CandidatesSorted(lo: Pt, hi: Pt, t: Pt, step: real)
    requires step > EPS
    ensures SortedByKey(Candidates(lo, hi, t, step), KeyFor(t))
  {
    var g := Grid(FullAxis(lo.x, hi.x, t.x, step), FullAxis(lo.y, hi.y, t.y, step));
    SortByKeyLaw(g, KeyFor(t));
  }

  /** First-in-order means least key, for any ordered candidate list. */
  lemma LeastKey(cands: seq<Pt>, ok: Pt -> bool, key: Pt -> Key)
    requires SortedByKey(cands, key)
    ensures FirstWhere(cands, ok).None? <==> forall p :: p in cands ==> !ok(p)
    ensures FirstWhere(cands, ok).Some? ==>
      var c := FirstWhere(cands, ok).value;
      c in cands && ok(c) && forall p :: p in cands && ok(p) ==> KeyLe(key(c), key(p))
  {
    FirstWhereSpec(cands, ok);
    if FirstWhere(cands, ok).Some? {
      var c := FirstWhere(cands, ok).value;
      var k :| 0 <= k < |cands| && cands[k] == c && ok(cands[k]) && forall j :: 0 <= j < k ==> !ok(cands[j]);
      forall p | p in cands && ok(p) ensures KeyLe(key(c), key(p)) {
        var j :| 0 <= j < |cands| && cands[j] == p;
        KeyOrder(key(c), key(c), key(c));
        assert j == k || k < j;
      }
    } else {
      assert forall k :: 0 <= k < |cands| ==> cands[k] in cands;
    }
  }

  // ------------------------------------------------------- one footprint

  /** p is a lattice point around the surface point at which f stays on the surface. */
  ghost predicate OnLattice(s: Surface, f: Size, p: Pt) {
    && Within(RectAt(p, f), s.usable, EPS)
    && (exists kx: int :: StepsFrom(p.x, s.centre.x, s.step, kx)) && (exists ky: int :: StepsFrom(p.y, s.centre.y, s.step, ky))
  }

  /** v is k steps from start. */
  predicate StepsFrom(v: real, start: real, step: real, k: int) { v == start + k as real * step }

  lemma SpotsAreTheLattice(s: Surface, f: Size, p: Pt)
    requires s.Valid()
    requires CentreLo(s, f).x <= s.centre.x <= CentreHi(s, f).x
    requires CentreLo(s, f).y <= s.centre.y <= CentreHi(s, f).y
    ensures p in Spots(s, f) <==> OnLattice(s, f, p)
  {
    var lo, hi := CentreLo(s, f), CentreHi(s, f);
    CandidateMember(lo, hi, s.centre, s.step, p);
    AxisIsLattice(lo.x, hi.x, s.centre.x, s.step, p.x);
    AxisIsLattice(lo.y, hi.y, s.centre.y, s.step, p.y);
  }

  lemma LatticeIsSteps(v: real, s: real, step: real, k: int)
    ensures Lattice(s, step)(k) == v <==> StepsFrom(v, s, step, k)
  {
  }

  lemma AxisIsLattice(lo: real, hi: real, s: real, step: real, v: real)
    requires step > EPS && lo <= s <= hi
    ensures v in FullAxis(lo, hi, s, step) <==> lo - EPS <= v <= hi + EPS && exists k: int :: StepsFrom(v, s, step, k)
  {
    FullAxisExact(lo, hi, s, step, v);
    forall k: int ensures Lattice(s, step)(k) == v <==> StepsFrom(v, s, step, k) { LatticeIsSteps(v, s, step, k); }
  }

  /** v is one of n rings around s: at most n steps away, and not s itself. */
  ghost predicate OnRings(v: real, s: real, step: real, n: int) {
    exists k: int :: StepsFrom(v, s, step, k) && 1 <= Size1(k) <= n
  }

  /** Wherever the start lies, the values tried are the nearest one in range and those of the rings around
      the start, of which there are as many as steps fit into the range, and one more. */
  lemma AxisTried(lo: real, hi: real, s: real, step: real, v: real)
    requires step > EPS
    ensures v in FullAxis(lo, hi, s, step) <==>
      v == Min(Max(s, lo), hi) || (lo - EPS <= v <= hi + EPS && OnRings(v, s, step, Trunc((hi - lo) / step) + 1))
  {
    var n := Reach(lo, hi, step) - 1;
    AxisMember(lo, hi, Clamp(s, lo, hi), Lattice(s, step), n, v);
    RingsAreLattice(v, s, step, n);
  }

  lemma RingsAreLattice(v: real, s: real, step: real, n: int)
    ensures OnRings(v, s, step, n) <==> exists k: int :: 1 <= Size1(k) <= n && Lattice(s, step)(k) == v
  {
    forall k: int ensures Lattice(s, step)(k) == v <==> StepsFrom(v, s, step, k) { LatticeIsSteps(v, s, step, k); }
  }

  /** place() refuses a footprint exactly when no lattice point is clear, and otherwise
      takes a clear one with the least key. */
  lemma PlaceComplete(s: Surface, occupied: seq<Rect>, f: Size)
    requires s.Valid()
    requires CentreLo(s, f).x <= s.centre.x <= CentreHi(s, f).x
    requires CentreLo(s, f).y <= s.centre.y <= CentreHi(s, f).y
    ensures var ok := ClearAt(occupied, f, s.gap);
      PlaceOne(s, occupied, f).None? <==> forall p :: OnLattice(s, f, p) ==> !ok(p)
    ensures PlaceOne(s, occupied, f).Some? ==>
      var ok, c := ClearAt(occupied, f, s.gap), PlaceOne(s, occupied, f).value;
      OnLattice(s, f, c) && ok(c)
      && forall p :: OnLattice(s, f, p) && ok(p) ==> KeyLe(KeyOf(c, s.centre), KeyOf(p, s.centre))
  {
    var spots, ok, key := Spots(s, f), ClearAt(occupied, f, s.gap), KeyFor(s.centre);
    CandidatesSorted(CentreLo(s, f), CentreHi(s, f), s.centre, s.step);
    LeastKey(spots, ok, key);
    forall p ensures p in spots <==> OnLattice(s, f, p) { SpotsAreTheLattice(s, f, p); }
    if PlaceOne(s, occupied, f).Some? {
      var c := PlaceOne(s, occupied, f).value;
      forall p | OnLattice(s, f, p) && ok(p) ensures KeyLe(KeyOf(c, s.centre), KeyOf(p, s.centre)) {
        assert KeyLe(key(c), key(p));
      }
    }
  }

  /** Wherever the target lies: refused exactly when no candidate is clear, otherwise a clear candidate
      with the least key. */
  lemma PlaceLeast(s: Surface, occupied: seq<Rect>, f: Size)
    requires s.Valid()
    ensures var ok := ClearAt(occupied, f, s.gap);
      PlaceOne(s, occupied, f).None? <==> forall p :: p in Spots(s, f) ==> !ok(p)
    ensures PlaceOne(s, occupied, f).Some? ==>
      var ok, c := ClearAt(occupied, f, s.gap), PlaceOne(s, occupied, f).value;
      c in Spots(s, f) && ok(c) && forall p :: p in Spots(s, f) && ok(p) ==> KeyLe(KeyOf(c, s.centre), KeyOf(p, s.centre))
  {
    var spots, ok, key := Spots(s, f), ClearAt(occupied, f, s.gap), KeyFor(s.centre);
    CandidatesSorted(CentreLo(s, f), CentreHi(s, f), s.centre, s.step);
    LeastKey(spots, ok, key);
    if PlaceOne(s, occupied, f).Some? {
      var c := PlaceOne(s, occupied, f).value;
      forall p | p in spots && ok(p) ensures KeyLe(KeyOf(c, s.centre), KeyOf(p, s.centre)) {
        assert KeyLe(key(c), key(p));
      }
    }
  }

  /** A reserved centre keeps its footprint on the surface and clear of all that was there. */
  lemma PlaceSound(s: Surface, occupied: seq<Rect>, f: Size)
    requires s.Valid() && PlaceOne(s, occupied, f).Some?
    ensures var r := RectAt(PlaceOne(s, occupied, f).value, f);
      Within(r, s.usable, EPS) && ClearOf(occupied, r, s.gap)
  {
    FirstWhereSpec(Spots(s, f), ClearAt(occupied, f, s.gap));
    CandidateInRange(CentreLo(s, f), CentreHi(s, f), s.centre, s.step, PlaceOne(s, occupied, f).value);
  }

  /** A refused footprint stays refused while the surface only fills up. */
  lemma RefusalIsStable(s: Surface, occupied: seq<Rect>, more: seq<Rect>, f: Size)
    requires s.Valid() && PlaceOne(s, occupied, f).None?
    ensures PlaceOne(s, occupied + more, f).None?
  {
    var spots := Spots(s, f);
    FirstWhereSpec(spots, ClearAt(occupied, f, s.gap));
    FirstWhereSpec(spots, ClearAt(occupied + more, f, s.gap));
    forall k | 0 <= k < |spots| ensures !ClearAt(occupied + more, f, s.gap)(spots[k]) {
      assert !ClearAt(occupied, f, s.gap)(spots[k]);
      var j :| 0 <= j < |occupied| && !Apart(RectAt(spots[k], f), occupied[j], s.gap);
      assert (occupied + more)[j] == occupied[j];
    }
  }

  // -------------------------------------------------------------- blocks

  lemma {:induction false} StartIsPrefixSum(ws: seq<real>, gap: real, c: nat)
    requires c <= |ws|
    ensures Start(ws, gap, c) == Sum(ws, c) + gap * c as real
  {
    if c > 0 { StartIsPrefixSum(ws, gap, c - 1); }
  }

  predicate NonNegative(ws: seq<real>) { forall k :: 0 <= k < |ws| ==> ws[k] >= 0.0 }

  lemma {:induction false} BandsInOrder(ws: seq<real>, gap: real, c: nat, d: nat)
    requires c < d <= |ws| && gap >= 0.0 && NonNegative(ws)
    ensures 0.0 <= Start(ws, gap, c)
    ensures Start(ws, gap, c) + ws[c] + gap <= Start(ws, gap, d)
  {
    if c > 0 { BandsInOrder(ws, gap, c - 1, c); }
    if c + 1 < d { BandsInOrder(ws, gap, c, d - 1); }
  }

  lemma BandInside(ws: seq<real>, gap: real, c: nat)
    requires c < |ws| && gap >= 0.0 && NonNegative(ws)
    ensures 0.0 <= Start(ws, gap, c) && Start(ws, gap, c) + ws[c] <= Extent(ws, gap)
  {
    BandsInOrder(ws, gap, c, |ws|);
    StartIsPrefixSum(ws, gap, |ws|);
  }

  predicate SizesOk(fs: seq<Size>) { forall i :: 0 <= i < |fs| ==> SizeOk(fs[i]) }

  lemma WidthsNonNegative(fs: seq<Size>, cols: nat)
    requires 0 < cols <= |fs| && SizesOk(fs)
    ensures NonNegative(ColumnWidths(fs, cols))
  {
    forall c | 0 <= c < cols ensures ColumnWidths(fs, cols)[c] >= 0.0 {
      assert fs[c].w <= ColumnWidth(fs, cols, c);
    }
  }

  lemma HeightsNonNegative(fs: seq<Size>, cols: nat)
    requires 0 < cols <= |fs| && SizesOk(fs)
    ensures NonNegative(RowHeights(fs, cols))
  {
    forall r | 0 <= r < Rows(|fs|, cols) ensures RowHeights(fs, cols)[r] >= 0.0 {
      var k := RowStart(|fs| - 1, cols, r);
      assert fs[k].h <= RowHeight(fs, cols, r);
    }
  }

  /** r lies inside band c of the columns and band d of the rows of a block at o. */
  predicate InBands(r: Rect, o: Pt, ws: seq<real>, hs: seq<real>, gap: real, c: nat, d: nat) {
    && c < |ws| && d < |hs|
    && o.x + Start(ws, gap, c) <= r.x0 && r.x1 <= o.x + Start(ws, gap, c) + ws[c]
    && o.y + Start(hs, gap, d) <= r.y0 && r.y1 <= o.y + Start(hs, gap, d) + hs[d]
  }

  /** A cell's footprint lies inside the band of its column and of its row. */
  lemma CellInBands(s: Surface, fs: seq<Size>, cols: nat, o: Pt, i: nat)
    requires 0 < cols <= |fs| && i < |fs|
    ensures InBands(RectAt(Cell(s, fs, cols, o, i), fs[i]), o, ColumnWidths(fs, cols), RowHeights(fs, cols),
                    s.gap, ColOf(i, cols), RowOf(i, cols))
  {
    RowIndex(i, |fs|, cols);
    assert fs[i].w <= ColumnWidth(fs, cols, ColOf(i, cols));
    assert fs[i].h <= RowHeight(fs, cols, RowOf(i, cols));
  }

  lemma {:induction false} CellIndices(i: nat, j: nat, cols: nat)
    requires cols > 0 && i != j
    ensures ColOf(i, cols) != ColOf(j, cols) || RowOf(i, cols) != RowOf(j, cols)
  {
    if i >= cols && j >= cols { CellIndices(i - cols, j - cols, cols); }
  }

  /** The row-major position is the remainder and the quotient the code computes. */
  lemma {:induction false} CellIndicesAreDivMod(i: nat, cols: nat)
    requires cols > 0
    ensures i == RowOf(i, cols) * cols + ColOf(i, cols)
  {
    if i >= cols {
      CellIndicesAreDivMod(i - cols, cols);
      assert RowOf(i, cols) * cols == RowOf(i - cols, cols) * cols + cols;
    }
  }

  lemma BandsApart(ws: seq<real>, gap: real, c: nat, d: nat)
    requires c < |ws| && d < |ws| && c != d && gap >= 0.0 && NonNegative(ws)
    ensures Start(ws, gap, c) >= Start(ws, gap, d) + ws[d] + gap || Start(ws, gap, c) + ws[c] + gap <= Start(ws, gap, d)
  {
    if c < d { BandsInOrder(ws, gap, c, d); } else { BandsInOrder(ws, gap, d, c); }
  }

  lemma InBandsApart(r: Rect, q: Rect, o: Pt, ws: seq<real>, hs: seq<real>, gap: real,
                     c: nat, d: nat, c': nat, d': nat)
    requires gap >= 0.0 && NonNegative(ws) && NonNegative(hs) && (c != c' || d != d')
    requires InBands(r, o, ws, hs, gap, c, d) && InBands(q, o, ws, hs, gap, c', d')
    ensures Apart(r, q, gap)
  {
    if c != c' { BandsApart(ws, gap, c, c'); } else { BandsApart(hs, gap, d, d'); }
  }

  lemma CellsApart(s: Surface, fs: seq<Size>, cols: nat, o: Pt, i: nat, j: nat)
    requires s.gap >= 0.0 && 0 < cols <= |fs| && SizesOk(fs) && j < i < |fs|
    ensures Apart(RectAt(Cell(s, fs, cols, o, i), fs[i]), RectAt(Cell(s, fs, cols, o, j), fs[j]), s.gap)
  {
    CellInBands(s, fs, cols, o, i);
    CellInBands(s, fs, cols, o, j);
    CellIndices(i, j, cols);
    WidthsNonNegative(fs, cols);
    HeightsNonNegative(fs, cols);
    InBandsApart(RectAt(Cell(s, fs, cols, o, i), fs[i]), RectAt(Cell(s, fs, cols, o, j), fs[j]), o,
                 ColumnWidths(fs, cols), RowHeights(fs, cols), s.gap, ColOf(i, cols), RowOf(i, cols), ColOf(j, cols), RowOf(j, cols));
  }

  lemma InBandsWithin(r: Rect, o: Pt, ws: seq<real>, hs: seq<real>, s: Surface, c: nat, d: nat)
    requires s.gap >= 0.0 && NonNegative(ws) && NonNegative(hs) && InBands(r, o, ws, hs, s.gap, c, d)
    requires InRange(o.x, s.usable.x0, s.usable.x1 - Extent(ws, s.gap))
    requires InRange(o.y, s.usable.y0, s.usable.y1 - Extent(hs, s.gap))
    ensures Within(r, s.usable, EPS)
  {
    BandInside(ws, s.gap, c);
    BandInside(hs, s.gap, d);
  }

  lemma CellWithin(s: Surface, fs: seq<Size>, cols: nat, o: Pt, i: nat)
    requires s.Valid() && 0 < cols <= |fs| && SizesOk(fs) && i < |fs|
    requires o in Origins(s, fs, cols)
    ensures Within(RectAt(Cell(s, fs, cols, o, i), fs[i]), s.usable, EPS)
  {
    var b := BlockSize(s, fs, cols);
    CandidateInRange(OriginLo(s), OriginHi(s, b), OriginTarget(s, b), s.step, o);
    CellInBands(s, fs, cols, o, i);
    WidthsNonNegative(fs, cols);
    HeightsNonNegative(fs, cols);
    InBandsWithin(RectAt(Cell(s, fs, cols, o, i), fs[i]), o, ColumnWidths(fs, cols), RowHeights(fs, cols), s,
                  ColOf(i, cols), RowOf(i, cols));
  }

  /** Footprint i of a batch is on the surface, clear of all that was there before the batch
      and clear of every earlier footprint of the batch. */
  predicate SoundAt(s: Surface, occupied: seq<Rect>, fs: seq<Size>, cs: seq<Option<Pt>>, i: nat)
    requires |cs| == |fs| && i < |fs|
  {
    cs[i].Some? ==>
      var r := RectAt(cs[i].value, fs[i]);
      && Within(r, s.usable, EPS)
      && ClearOf(occupied, r, s.gap)
      && forall j :: 0 <= j < i && cs[j].Some? ==> Apart(r, RectAt(cs[j].value, fs[j]), s.gap)
  }

  /** r is clear of what was on the surface and of every footprint granted in the batch. */
  predicate ClearOfBatch(occupied: seq<Rect>, cs: seq<Option<Pt>>, fs: seq<Size>, r: Rect, gap: real)
    requires |cs| == |fs|
  {
    ClearOf(occupied, r, gap)
    && forall j :: 0 <= j < |cs| && cs[j].Some? ==> Apart(r, RectAt(cs[j].value, fs[j]), gap)
  }

  /** Being clear after the batch is being clear before it and clear of all it granted. */
  lemma {:induction false} ClearAfterBatch(occupied: seq<Rect>, cs: seq<Option<Pt>>, fs: seq<Size>, r: Rect, gap: real)
    requires |cs| == |fs|
    ensures ClearOf(ReserveAll(occupied, cs, fs), r, gap) <==> ClearOfBatch(occupied, cs, fs, r, gap)
  {
    if cs != [] {
      var n := |cs| - 1;
      var before := ReserveAll(occupied, cs[..n], fs[..n]);
      ClearAfterBatch(occupied, cs[..n], fs[..n], r, gap);
      ClearAfterOne(before, cs[n], fs[n], r, gap);
      assert forall j :: 0 <= j < n ==> cs[..n][j] == cs[j] && fs[..n][j] == fs[j];
    }
  }

  lemma ClearAfterOne(occupied: seq<Rect>, c: Option<Pt>, f: Size, r: Rect, gap: real)
    ensures ClearOf(Reserve(occupied, c, f), r, gap) <==>
      ClearOf(occupied, r, gap) && (c.Some? ==> Apart(r, RectAt(c.value, f), gap))
  {
    if c.Some? {
      var after := occupied + [RectAt(c.value, f)];
      assert after[|occupied|] == RectAt(c.value, f);
      assert forall k :: 0 <= k < |occupied| ==> after[k] == occupied[k];
    }
  }

  lemma {:induction false} PlaceEachSound(s: Surface, occupied: seq<Rect>, fs: seq<Size>, i: nat)
    requires s.Valid() && i < |fs|
    ensures SoundAt(s, occupied, fs, PlaceEach(s, occupied, fs), i)
    decreases |fs|
  {
    var n := |fs| - 1;
    var cs := PlaceEach(s, occupied, fs);
    var before := PlaceEach(s, occupied, fs[..n]);
    if i < n {
      PlaceEachSound(s, occupied, fs[..n], i);
      SoundBefore(s, occupied, fs, cs, n, i);
    } else if cs[n].Some? {
      LastIsSound(s, occupied, fs, cs, before);
    }
  }

  lemma SoundBefore(s: Surface, occupied: seq<Rect>, fs: seq<Size>, cs: seq<Option<Pt>>, n: nat, i: nat)
    requires i < n <= |fs| == |cs| && SoundAt(s, occupied, fs[..n], cs[..n], i)
    ensures SoundAt(s, occupied, fs, cs, i)
  {
    assert forall j :: 0 <= j < n ==> cs[j] == cs[..n][j] && fs[j] == fs[..n][j];
  }

  lemma LastIsSound(s: Surface, occupied: seq<Rect>, fs: seq<Size>, cs: seq<Option<Pt>>, before: seq<Option<Pt>>)
    requires s.Valid() && fs != [] && |cs| == |fs| && |before| == |fs| - 1 && cs[..|fs| - 1] == before
    requires cs[|fs| - 1].Some? && cs[|fs| - 1] == PlaceOne(s, ReserveAll(occupied, before, fs[..|fs| - 1]), fs[|fs| - 1])
    ensures SoundAt(s, occupied, fs, cs, |fs| - 1)
  {
    var n := |fs| - 1;
    var occ := ReserveAll(occupied, before, fs[..n]);
    PlaceSound(s, occ, fs[n]);
    ClearAfterBatch(occupied, before, fs[..n], RectAt(cs[n].value, fs[n]), s.gap);
    assert forall j :: 0 <= j < n ==> cs[j] == before[j] && fs[j] == fs[..n][j];
  }

  /** The block branch and the greedy branch both give sound batches, though the code compares
      a block only with what was on the surface before it. */
  lemma PackAllSound(s: Surface, occupied: seq<Rect>, fs: seq<Size>, i: nat)
    requires s.Valid() && SizesOk(fs) && i < |fs|
    ensures SoundAt(s, occupied, fs, PackAll(s, occupied, fs), i)
  {
    var cols := BestColumns(s, occupied, fs);
    if cols == 0 {
      PlaceEachSound(s, occupied, fs, i);
    } else {
      var origins, ok := Origins(s, fs, cols), BlockClearAt(s, occupied, fs, cols);
      FirstWhereSpec(origins, ok);
      var o := BlockOrigin(s, occupied, fs, cols).value;
      assert ok(o) && o in origins;
      CellWithin(s, fs, cols, o, i);
      forall j | 0 <= j < i
        ensures Apart(RectAt(Cell(s, fs, cols, o, i), fs[i]), RectAt(Cell(s, fs, cols, o, j), fs[j]), s.gap)
      {
        CellsApart(s, fs, cols, o, i, j);
      }
    }
  }

  lemma BatchSound(s: Surface, occupied: seq<Rect>, fs: seq<Size>)
    requires s.Valid() && SizesOk(fs)
    ensures var cs := PackAll(s, occupied, fs);
      forall i :: 0 <= i < |fs| ==> SoundAt(s, occupied, fs, cs, i)
  {
    forall i | 0 <= i < |fs| ensures SoundAt(s, occupied, fs, PackAll(s, occupied, fs), i) {
      PackAllSound(s, occupied, fs, i);
    }
  }

  lemma BestIsFound(s: Surface, occupied: seq<Rect>, fs: seq<Size>, cols: nat, o: Pt)
    requires s.Valid() && 0 < cols <= |fs| && BlockOrigin(s, occupied, fs, cols) == Some(o)
    requires BestColumns(s, occupied, fs) == Highest(cols, HasPlace(s, occupied, fs))
    ensures PackAll(s, occupied, fs) == Somes(Cells(s, fs, cols, o))
  {
    assert HasPlace(s, occupied, fs)(cols);
  }

  /** A block of cols columns fits the surface and is clear at origin o. */
  predicate FreeBlock(s: Surface, occupied: seq<Rect>, fs: seq<Size>, cols: nat, o: Pt)
    requires s.Valid()
  {
    0 < cols <= |fs| && BlockFits(s, fs, cols) && o in Origins(s, fs, cols) && BlockClear(s, occupied, fs, cols, o)
  }

  lemma BlockChoice(s: Surface, occupied: seq<Rect>, fs: seq<Size>, cols: nat)
    requires s.Valid() && 0 < cols <= |fs|
    ensures var got := BlockOrigin(s, occupied, fs, cols);
      if got.None? then forall o :: !FreeBlock(s, occupied, fs, cols, o)
      else FreeBlock(s, occupied, fs, cols, got.value)
    ensures var got, key := BlockOrigin(s, occupied, fs, cols), KeyFor(OriginTarget(s, BlockSize(s, fs, cols)));
      forall o :: got.Some? && FreeBlock(s, occupied, fs, cols, o) ==> KeyLe(key(got.value), key(o))
  {
    var b := BlockSize(s, fs, cols);
    CandidatesSorted(OriginLo(s), OriginHi(s, b), OriginTarget(s, b), s.step);
    LeastKey(Origins(s, fs, cols), BlockClearAt(s, occupied, fs, cols), KeyFor(OriginTarget(s, b)));
    forall o ensures BlockClearAt(s, occupied, fs, cols)(o) == BlockClear(s, occupied, fs, cols, o) { }
  }

  lemma FreeBlockBounds(s: Surface, occupied: seq<Rect>, fs: seq<Size>, cols: nat, o: Pt)
    requires s.Valid() && FreeBlock(s, occupied, fs, cols, o)
    ensures cols <= BestColumns(s, occupied, fs)
  {
    BlockChoice(s, occupied, fs, cols);
    assert HasPlace(s, occupied, fs)(cols);
  }

  lemma BestBlock(s: Surface, occupied: seq<Rect>, fs: seq<Size>) returns (o: Pt)
    requires s.Valid() && BestColumns(s, occupied, fs) > 0
    ensures FreeBlock(s, occupied, fs, BestColumns(s, occupied, fs), o)
    ensures PackAll(s, occupied, fs) == Somes(Cells(s, fs, BestColumns(s, occupied, fs), o))
  {
    var best := BestColumns(s, occupied, fs);
    assert HasPlace(s, occupied, fs)(best);
    o := BlockOrigin(s, occupied, fs, best).value;
    BlockChoice(s, occupied, fs, best);
  }

  /** Whenever some block has a free origin, the batch is laid out in a free block with at least as
      many columns; when none has, it is placed greedily, left to right. */
  lemma PackAllChoice(s: Surface, occupied: seq<Rect>, fs: seq<Size>, cols: nat, o: Pt)
    requires s.Valid()
    ensures FreeBlock(s, occupied, fs, cols, o) ==>
      exists best, o' :: best >= cols && FreeBlock(s, occupied, fs, best, o')
                         && PackAll(s, occupied, fs) == Somes(Cells(s, fs, best, o'))
    ensures (forall c, p :: !FreeBlock(s, occupied, fs, c, p)) ==>
      PackAll(s, occupied, fs) == PlaceEach(s, occupied, fs)
  {
    if FreeBlock(s, occupied, fs, cols, o) { FreeBlockBounds(s, occupied, fs, cols, o); }
    if BestColumns(s, occupied, fs) > 0 { var o' := BestBlock(s, occupied, fs); }
  }

  /** Every footprint except the given ones (by index) is on the surface and at least the gap away
      from all that were registered before it. */
  ghost predicate Packed(s: Surface, occupied: seq<Rect>, given: set<nat>) {
    forall i: nat :: i < |occupied| && i !in given ==>
      Within(occupied[i], s.usable, EPS) && ClearOf(occupied[..i], occupied[i], s.gap)
  }

  lemma PackedAfterOne(s: Surface, occupied: seq<Rect>, r: Rect, given: set<nat>)
    requires Packed(s, occupied, given)
    requires |occupied| in given || (Within(r, s.usable, EPS) && ClearOf(occupied, r, s.gap))
    ensures Packed(s, occupied + [r], given)
  {
    var after := occupied + [r];
    forall i: nat | i < |after| && i !in given
      ensures Within(after[i], s.usable, EPS) && ClearOf(after[..i], after[i], s.gap)
    {
      assert after[..i] == occupied[..i];
      assert occupied[..|occupied|] == occupied;
    }
  }

  /** Reserving a sound batch keeps the surface packed. */
  lemma {:induction false} PackedAfterBatch(s: Surface, occupied: seq<Rect>, cs: seq<Option<Pt>>, fs: seq<Size>,
                                            given: set<nat>)
    requires |cs| == |fs| && Packed(s, occupied, given)
    requires forall i :: 0 <= i < |cs| ==> SoundAt(s, occupied, fs, cs, i)
    ensures Packed(s, ReserveAll(occupied, cs, fs), given)
  {
    if cs != [] {
      var n := |cs| - 1;
      forall i | 0 <= i < n ensures SoundAt(s, occupied, fs[..n], cs[..n], i) {
        assert SoundAt(s, occupied, fs, cs, i);
      }
      PackedAfterBatch(s, occupied, cs[..n], fs[..n], given);
      assert SoundAt(s, occupied, fs, cs, n);
      if cs[n].Some? {
        var r := RectAt(cs[n].value, fs[n]);
        ClearAfterBatch(occupied, cs[..n], fs[..n], r, s.gap);
        PackedAfterOne(s, ReserveAll(occupied, cs[..n], fs[..n]), r, given);
      }
    }
  }
}
