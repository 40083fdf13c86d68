/** Resuming alone can cause a refusal: a surface that two items fit on, but only as one batch. */
module SpawnTight {
  import opened Geometry
  import opened Packing
  import opened PackingLaws
  import opened Spawn
  import opened SpawnLaws
  import opened SpawnResume
  import opened SpawnFailures

  const BANANA := Size(0.109, 0.178)

  const TIGHT := Surface(Pt(0.139, 0.089), Rect(0.0, 0.0, 0.278, 0.178), GAP, STEP)

  const LEFT := Pt(0.0545, 0.089)

  const RIGHT := Pt(0.2235, 0.089)

  lemma OneOrigin()
    ensures Candidates(Pt(0.0, 0.0), Pt(0.0, 0.0), Pt(0.0, 0.0), STEP) == [Pt(0.0, 0.0)]
  {
    var at := Lattice(0.0, STEP);
    assert Reach(0.0, 0.0, STEP) == 2;
    assert Keep(at(1), 0.0, 0.0) == [] && Keep(at(-1), 0.0, 0.0) == [];
    assert Axis(0.0, 0.0, 0.0, at, 0) == [0.0];
    assert FullAxis(0.0, 0.0, 0.0, STEP) == [0.0];
    assert Row(0.0, [0.0]) == [Pt(0.0, 0.0)];
    assert Grid([0.0], [0.0]) == [Pt(0.0, 0.0)];
    assert SortByKey([Pt(0.0, 0.0)], KeyFor(Pt(0.0, 0.0))) == [Pt(0.0, 0.0)];
  }

  lemma TwoBands(fs: seq<Size>)
    requires fs == [BANANA, BANANA]
    ensures ColumnWidths(fs, 2) == [0.109, 0.109] && RowHeights(fs, 2) == [0.178]
  {
    assert ColOf(0, 2) == 0 && ColOf(1, 2) == 1 && RowOf(0, 2) == 0 && RowOf(1, 2) == 0 && Rows(2, 2) == 1;
    assert InColumn(fs, 2, 0, 1) == [0.109] && InColumn(fs, 2, 1, 1) == [];
    assert InColumn(fs, 2, 0, 2) == [0.109] && InColumn(fs, 2, 1, 2) == [0.109];
    assert InRow(fs, 2, 0, 1) == [0.178] && InRow(fs, 2, 0, 2) == [0.178, 0.178];
    assert ColumnWidth(fs, 2, 0) == 0.109 && ColumnWidth(fs, 2, 1) == 0.109 && RowHeight(fs, 2, 0) == 0.178;
  }

  lemma TwoBlock(fs: seq<Size>)
    requires fs == [BANANA, BANANA]
    ensures Origins(TIGHT, fs, 2) == [Pt(0.0, 0.0)] && BlockFits(TIGHT, fs, 2)
    ensures Cells(TIGHT, fs, 2, Pt(0.0, 0.0)) == [LEFT, RIGHT]
  {
    TwoBands(fs);
    BandSums(ColumnWidths(fs, 2), RowHeights(fs, 2));
    assert BlockSize(TIGHT, fs, 2) == Size(0.278, 0.178);
    OneOrigin();
    assert ColOf(0, 2) == 0 && ColOf(1, 2) == 1 && RowOf(0, 2) == 0 && RowOf(1, 2) == 0;
    assert Cell(TIGHT, fs, 2, Pt(0.0, 0.0), 0) == LEFT && Cell(TIGHT, fs, 2, Pt(0.0, 0.0), 1) == RIGHT;
  }

  lemma BandSums(ws: seq<real>, hs: seq<real>)
    requires ws == [0.109, 0.109] && hs == [0.178]
    ensures Extent(ws, GAP) == 0.278 && Extent(hs, GAP) == 0.178
    ensures Middle(ws, GAP, 0) == 0.0545 && Middle(ws, GAP, 1) == 0.2235 && Middle(hs, GAP, 0) == 0.089
  {
    assert Sum(ws, 1) == 0.109 && Sum(ws, 2) == 0.218 && Sum(hs, 1) == 0.178;
    assert Start(ws, GAP, 1) == 0.169 && Start(ws, GAP, 0) == 0.0;
  }

  lemma OnlyOne(cands: seq<Pt>, ok: Pt -> bool, c: Pt)
    requires cands == [c] && ok(c)
    ensures FirstWhere(cands, ok) == Some(c)
  {
  }

  lemma TwoFit(fs: seq<Size>)
    requires fs == [BANANA, BANANA]
    ensures PackAll(TIGHT, [], fs) == [Some(LEFT), Some(RIGHT)]
  {
    var o := Pt(0.0, 0.0);
    TwoBlock(fs);
    assert BlockClearAt(TIGHT, [], fs, 2)(o);
    OnlyOne(Origins(TIGHT, fs, 2), BlockClearAt(TIGHT, [], fs, 2), o);
    assert HasPlace(TIGHT, [], fs)(2);
    AllColumns(2, HasPlace(TIGHT, [], fs));
    assert Somes([LEFT, RIGHT]) == [Some(LEFT), Some(RIGHT)];
  }

  lemma AllColumns(n: nat, ok: nat -> bool)
    requires ok(n)
    ensures Highest(n, ok) == n
  {
  }

  // With the first of them there, the lattice for a single one has no clear point beside it.

  lemma StepsShort(v: real, start: real, k: int)
    requires v == start + k as real * STEP && v <= start + 0.0845 + EPS
    ensures v < start + 0.0845
  {
    assert k < 9;
  }

  lemma AxisShort(lo: real, hi: real, start: real, v: real)
    requires lo <= start && hi == start + 0.0845 && v in FullAxis(lo, hi, start, STEP)
    ensures v < hi && InRange(v, lo, hi)
  {
    FullAxisExact(lo, hi, start, STEP, v);
    var k: int :| Lattice(start, STEP)(k) == v;
    StepsShort(v, start, k);
  }

  lemma TooClose(p: Pt, occupied: seq<Rect>)
    requires 0.0545 - EPS <= p.x < 0.2235 && InRange(p.y, 0.089, 0.089) && occupied == [RectAt(LEFT, BANANA)]
    ensures !ClearOf(occupied, RectAt(p, BANANA), GAP)
  {
    assert !Apart(RectAt(p, BANANA), occupied[0], GAP);
  }

  lemma NoSpotLeft(occupied: seq<Rect>)
    requires occupied == [RectAt(LEFT, BANANA)]
    ensures PlaceOne(TIGHT, occupied, BANANA).None?
  {
    PlaceLeast(TIGHT, occupied, BANANA);
    forall p | p in Spots(TIGHT, BANANA) ensures !ClearAt(occupied, BANANA, GAP)(p) {
      SpotIsShort(p);
      TooClose(p, occupied);
    }
  }

  lemma SpotIsShort(p: Pt)
    requires p in Spots(TIGHT, BANANA)
    ensures 0.0545 - EPS <= p.x < 0.2235 && InRange(p.y, 0.089, 0.089)
  {
    var lo, hi := CentreLo(TIGHT, BANANA), CentreHi(TIGHT, BANANA);
    assert lo == LEFT && hi == RIGHT;
    CandidateMember(lo, hi, TIGHT.centre, STEP, p);
    CandidateInRange(lo, hi, TIGHT.centre, STEP, p);
    AxisShort(lo.x, hi.x, TIGHT.centre.x, p.x);
  }

  lemma OneBlock(fs: seq<Size>, o: Pt)
    requires fs == [BANANA]
    ensures BlockSize(TIGHT, fs, 1) == BANANA && Cells(TIGHT, fs, 1, o) == [Pt(o.x + 0.0545, o.y + 0.089)]
  {
    assert ColOf(0, 1) == 0 && RowOf(0, 1) == 0 && Rows(1, 1) == 1;
    assert InColumn(fs, 1, 0, 1) == [0.109] && InRow(fs, 1, 0, 1) == [0.178];
    assert ColumnWidth(fs, 1, 0) == 0.109 && RowHeight(fs, 1, 0) == 0.178;
    OneBand(ColumnWidths(fs, 1), 0.109);
    OneBand(RowHeights(fs, 1), 0.178);
  }

  lemma OneBand(ws: seq<real>, w: real)
    requires ws == [w]
    ensures Extent(ws, GAP) == w && Middle(ws, GAP, 0) == w / 2.0
  {
    assert Sum(ws, 1) == Sum(ws, 0) + w;
  }

  lemma NoBlockLeft(occupied: seq<Rect>, fs: seq<Size>)
    requires occupied == [RectAt(LEFT, BANANA)] && fs == [BANANA]
    ensures BlockOrigin(TIGHT, occupied, fs, 1).None?
  {
    FirstWhereSpec(Origins(TIGHT, fs, 1), BlockClearAt(TIGHT, occupied, fs, 1));
    forall o | o in Origins(TIGHT, fs, 1) ensures !BlockClearAt(TIGHT, occupied, fs, 1)(o) { OriginIsTaken(occupied, fs, o); }
  }

  lemma OriginIsTaken(occupied: seq<Rect>, fs: seq<Size>, o: Pt)
    requires occupied == [RectAt(LEFT, BANANA)] && fs == [BANANA] && o in Origins(TIGHT, fs, 1)
    ensures !BlockClear(TIGHT, occupied, fs, 1, o)
  {
    OneBlock(fs, o);
    OriginIsShort(fs, o);
    TooClose(Pt(o.x + 0.0545, o.y + 0.089), occupied);
    assert Cells(TIGHT, fs, 1, o)[0] == Pt(o.x + 0.0545, o.y + 0.089);
  }

  lemma OriginIsShort(fs: seq<Size>, o: Pt)
    requires fs == [BANANA] && o in Origins(TIGHT, fs, 1)
    ensures -EPS <= o.x < 0.169 && InRange(o.y, 0.0, 0.0)
  {
    OneBlock(fs, o);
    var lo, hi, t := OriginLo(TIGHT), OriginHi(TIGHT, BANANA), OriginTarget(TIGHT, BANANA);
    assert lo == Pt(0.0, 0.0) && hi == Pt(0.169, 0.0) && t == Pt(0.0845, 0.0);
    CandidateMember(lo, hi, t, STEP, o);
    CandidateInRange(lo, hi, t, STEP, o);
    AxisShort(lo.x, hi.x, t.x, o.x);
  }

  lemma NoneLeft(occupied: seq<Rect>, fs: seq<Size>)
    requires occupied == [RectAt(LEFT, BANANA)] && fs == [BANANA]
    ensures PackAll(TIGHT, occupied, fs) == [None]
  {
    NoBlockLeft(occupied, fs);
    NoSpotLeft(occupied);
    PackOne(TIGHT, occupied, BANANA);
  }

  lemma PackOne(s: Surface, occupied: seq<Rect>, f: Size)
    requires s.Valid() && BlockOrigin(s, occupied, [f], 1).None?
    ensures PackAll(s, occupied, [f]) == [PlaceOne(s, occupied, f)]
  {
    assert !HasPlace(s, occupied, [f])(1);
    NoColumns(HasPlace(s, occupied, [f]));
    PlaceEachOne(s, occupied, f);
  }

  lemma NoColumns(ok: nat -> bool)
    requires !ok(1)
    ensures Highest(1, ok) == 0
  {
  }

  lemma PlaceEachOne(s: Surface, occupied: seq<Rect>, f: Size)
    requires s.Valid()
    ensures PlaceEach(s, occupied, [f]) == [PlaceOne(s, occupied, f)]
  {
    assert [f][..0] == [] && PlaceEach(s, occupied, []) == [] && ReserveAll(occupied, [], []) == occupied;
  }

  // ------------------------------------------------------------- the two runs

  /** A world with that surface as its only spot, and nothing else. */
  function TightWorld(z: real): World {
    World(Scenario([], []), ["t"], map["t" := Spot(Xyz(0.139, 0.089, z), Rect(-0.02, -0.02, 0.298, 0.198))], [])
  }

  predicate Banana(item: Item) { item.asset == "ycb_011_banana" && item.spot == "t" }

  function At(item: Item, c: Pt, z: real): Item { item.(xyz := Xyz(c.x, c.y, z)) }

  lemma RoundedCentres()
    ensures RoundPt(LEFT) == LEFT && RoundPt(RIGHT) == RIGHT
  {
    RoundHalfEvenOfInt(545);
    RoundHalfEvenOfInt(890);
    RoundHalfEvenOfInt(2235);
    assert 0.0545 * 10000.0 == 545.0 && 0.089 * 10000.0 == 890.0 && 0.2235 * 10000.0 == 2235.0;
  }

  lemma BananaSize(item: Item)
    requires Banana(item)
    ensures Footprint(item.asset) == BANANA
  {
    assert "ycb_011_banana" in FOOTPRINTS;
  }

  lemma TightSurface(z: real)
    ensures TightWorld(z).Valid() && SurfaceOf(TightWorld(z).spots["t"]) == TIGHT
    ensures BaseGroups(TightWorld(z)) == [] && BaseRects(TightWorld(z), [], "t") == []
  {
  }

  /** Nothing is there yet: both are attempted, side by side. */
  lemma BothPlanned(a: Item, b: Item, z: real)
    requires Banana(a) && Banana(b)
    ensures TightWorld(z).Valid()
    ensures Decisions(TightWorld(z), [a, b], []) == [Attempt(At(a, LEFT, z)), Attempt(At(b, RIGHT, z))]
  {
    var w, plan, none := TightWorld(z), [a, b], Existing(TightWorld(z), []);
    TightSurface(z);
    BananaSize(a);
    BananaSize(b);
    assert none == multiset{} by { assert EntityGroups(Oks([])) == []; }
    assert !Skips(plan, none, 0) && !Skips(plan, none, 1);
    assert Pending(w, plan, none, "t", 0) == [] && Pending(w, plan, none, "t", 1) == [0];
    assert Pending(w, plan, none, "t", 2) == [0, 1];
    assert Sizes(plan, [0, 1]) == [BANANA, BANANA];
    assert Seed(w, [], "t") == [];
    TwoFit([BANANA, BANANA]);
    RoundedCentres();
    assert PackedCentres(w, plan, [], "t") == [Some(LEFT), Some(RIGHT)];
    assert Decide(w, plan, [], 0) == Attempt(At(a, LEFT, z)) && Decide(w, plan, [], 1) == Attempt(At(b, RIGHT, z));
  }

  /** What an outage at the second call leaves. */
  function Interrupted(a: Item, b: Item, z: real, reply: Reply): seq<Entity> {
    [Outcome(At(a, LEFT, z), reply), Outcome(At(b, RIGHT, z), Unavailable)]
  }

  lemma InterruptedRecords(a: Item, b: Item, z: real, reply: Reply)
    requires Banana(a) && Banana(b) && Success(reply)
    ensures var es := Interrupted(a, b, z, reply);
      && Tags(Oks(es)) == [TagOf(a)] && Tags(Fails(es)) == [TagOf(b)]
      && multiset(EntityGroups(Oks(es))) == multiset{GroupOf(a)} && EntityRects(es, "t") == [RectAt(LEFT, BANANA)]
  {
    var e, f := Outcome(At(a, LEFT, z), reply), Outcome(At(b, RIGHT, z), Unavailable);
    BananaSize(a);
    OkAndFailed(e, f);
    assert RectOf(e) == RectAt(LEFT, BANANA);
    RectsOfTwo(e, f, "t");
  }

  lemma OkAndFailed(e: Entity, f: Entity)
    requires e.ok && !f.ok
    ensures Tags(Oks([e, f])) == [Tag(e.id, e.InGroup())] && Tags(Fails([e, f])) == [Tag(f.id, f.InGroup())]
    ensures multiset(EntityGroups(Oks([e, f]))) == multiset{e.InGroup()}
  {
    assert [e] + [f] == [e, f];
    OksAppend([], e);
    OksAppend([e], f);
    assert [] + [e] == [e] && Oks([e]) == [e] && Fails([e]) == [];
    assert EntityGroups([e]) == [e.InGroup()];
  }

  lemma RectsOfTwo(e: Entity, f: Entity, where: string)
    requires e.ok && !f.ok && e.where == where
    ensures EntityRects([e, f], where) == [RectOf(e)]
  {
    assert [e, f][..1] == [e] && [e][..0] == [];
    assert EntityRects([e], where) == EntityRects([], where) + [RectOf(e)];
  }

  /** The second one is refused. */
  lemma SecondRefused(a: Item, b: Item, z: real, es: seq<Entity>)
    requires Banana(a) && Banana(b) && TightWorld(z).Valid()
    requires multiset(EntityGroups(Oks(es))) == multiset{GroupOf(a)} && EntityRects(es, "t") == [RectAt(LEFT, BANANA)]
    ensures Decisions(TightWorld(z), [a, b], es) == [Skip, Refuse]
  {
    var w, plan, one := TightWorld(z), [a, b], multiset{GroupOf(a)};
    TightSurface(z);
    assert Existing(w, es) == one;
    SecondPending(w, a, b, one);
    SeedOf(z, es);
    SecondDecisions(w, a, b, es, one);
  }

  lemma SecondDecisions(w: World, a: Item, b: Item, es: seq<Entity>, one: multiset<Group>)
    requires w.Valid() && Banana(a) && Banana(b) && "t" in w.spots && SurfaceOf(w.spots["t"]) == TIGHT
    requires Existing(w, es) == one && Skips([a, b], one, 0) && !Skips([a, b], one, 1)
    requires Pending(w, [a, b], one, "t", 1) == [] && Pending(w, [a, b], one, "t", 2) == [1]
    requires Seed(w, es, "t") == [RectAt(LEFT, BANANA)]
    ensures Decisions(w, [a, b], es) == [Skip, Refuse]
  {
    SecondPacked(w, a, b, es);
    SecondDecided(w, [a, b], es);
  }

  lemma SecondPacked(w: World, a: Item, b: Item, es: seq<Entity>)
    requires w.Valid() && Banana(b) && "t" in w.spots && SurfaceOf(w.spots["t"]) == TIGHT
    requires Pending(w, [a, b], Existing(w, es), "t", 2) == [1] && Seed(w, es, "t") == [RectAt(LEFT, BANANA)]
    ensures PackedCentres(w, [a, b], es, "t") == [None]
  {
    BananaSize(b);
    assert Sizes([a, b], [1]) == [BANANA];
    NoneLeft([RectAt(LEFT, BANANA)], [BANANA]);
  }

  lemma SecondDecided(w: World, plan: seq<Item>, es: seq<Entity>)
    requires w.Valid() && |plan| == 2 && Banana(plan[0]) && Banana(plan[1]) && "t" in w.spots
    requires Skips(plan, Existing(w, es), 0) && !Skips(plan, Existing(w, es), 1)
    requires Pending(w, plan, Existing(w, es), "t", 1) == [] && PackedCentres(w, plan, es, "t") == [None]
    ensures Decisions(w, plan, es) == [Skip, Refuse]
  {
    assert PlannedXy(w, plan, es, 1) == None;
    assert Decide(w, plan, es, 0) == Skip && Decide(w, plan, es, 1) == Refuse;
  }

  lemma SeedOf(z: real, es: seq<Entity>)
    requires TightWorld(z).Valid()
    ensures Seed(TightWorld(z), es, "t") == EntityRects(es, "t")
  {
    TightSurface(z);
    assert [] + EntityRects(es, "t") == EntityRects(es, "t");
  }

  lemma SecondPending(w: World, a: Item, b: Item, one: multiset<Group>)
    requires Banana(a) && Banana(b) && "t" in w.spots && one == multiset{GroupOf(a)}
    ensures Skips([a, b], one, 0) && !Skips([a, b], one, 1)
    ensures Pending(w, [a, b], one, "t", 1) == [] && Pending(w, [a, b], one, "t", 2) == [1]
  {
    var plan := [a, b];
    assert GroupOf(a) == GroupOf(b);
    assert Seen(plan, 0) == multiset{} && Seen(plan, 1) == multiset{GroupOf(a)};
    assert Skips(plan, one, 0) && !Skips(plan, one, 1);
    assert Pending(w, plan, one, "t", 0) == [] && Pending(w, plan, one, "t", 1) == [];
  }

  /** A run that only skips and refuses changes no record. */
  lemma NothingSent(a: Item, b: Item, es: seq<Entity>, script: nat -> Reply, p: nat)
    requires p <= 2
    ensures Run([a, b], [Skip, Refuse], es, script, p).Snapshot().entities == es
  {
    var plan, ds: seq<Decision> := [a, b], [Skip, Refuse];
    var none := Run(plan, ds, es, script, 0);
    assert none.kept == es && none.made == [];
    var one := Run(plan, ds, es, script, 1);
    assert one == Step(none, 0, a, Skip, script(0));
    var two := Run(plan, ds, es, script, 2);
    assert two == Step(one, 1, b, Refuse, script(0));
    assert es + [] == es;
  }

  /** One run places both. */
  lemma Uninterrupted(a: Item, b: Item, z: real, smooth: nat -> Reply)
    requires Banana(a) && Banana(b) && TightWorld(z).Valid() && Success(smooth(0)) && Success(smooth(1))
    ensures Tags(Oks(Apply(TightWorld(z), [a, b], [], smooth).entities)) == [TagOf(a), TagOf(b)]
  {
    BothPlanned(a, b, z);
    BothMade(a, b, At(a, LEFT, z), At(b, RIGHT, z), smooth);
  }

  lemma BothMade(a: Item, b: Item, x: Item, y: Item, script: nat -> Reply)
    requires x == a.(xyz := x.xyz) && y == b.(xyz := y.xyz) && Success(script(0)) && Success(script(1))
    ensures Tags(Oks(Run([a, b], [Attempt(x), Attempt(y)], [], script, 2).Snapshot().entities)) == [TagOf(a), TagOf(b)]
  {
    TwoAttempts(a, b, x, y, script);
    BothOk(Outcome(x, script(0)), Outcome(y, script(1)));
  }

  lemma BothOk(e: Entity, f: Entity)
    requires e.ok && f.ok
    ensures Tags(Oks([e, f])) == [Tag(e.id, e.InGroup()), Tag(f.id, f.InGroup())]
  {
    AllOk([e, f]);
  }

  lemma TwoAttempts(a: Item, b: Item, x: Item, y: Item, script: nat -> Reply)
    requires script(0) != Unavailable
    ensures Run([a, b], [Attempt(x), Attempt(y)], [], script, 2).Snapshot().entities
            == [Outcome(x, script(0)), Outcome(y, script(1))]
  {
    TwoItemRun(a, b, [Attempt(x), Attempt(y)], [], script);
    assert DropFailed([], GroupOf(a)) == [] && DropFailed([], GroupOf(b)) == [];
  }

  lemma OutageAtSecond(a: Item, b: Item, z: real, first: nat -> Reply)
    requires Banana(a) && Banana(b) && TightWorld(z).Valid() && Success(first(0)) && first(1) == Unavailable
    ensures Apply(TightWorld(z), [a, b], [], first).entities == Interrupted(a, b, z, first(0))
  {
    BothPlanned(a, b, z);
    TwoAttempts(a, b, At(a, LEFT, z), At(b, RIGHT, z), first);
  }

  /** Resuming is not always the same as not having been interrupted: one run places both items, but after
      an outage at the second call every further run, killed anywhere or not and however it is answered,
      refuses that item and leaves one ok record and one failed one. */
  lemma ResumingCanRefuse(a: Item, b: Item, z: real, smooth: nat -> Reply, first: nat -> Reply, tries: seq<Try>, n: nat)
    requires Banana(a) && Banana(b) && Success(smooth(0)) && Success(smooth(1))
    requires Success(first(0)) && first(1) == Unavailable && n <= |tries|
    ensures TightWorld(z).Valid()
    ensures Tags(Oks(Apply(TightWorld(z), [a, b], [], smooth).entities)) == [TagOf(a), TagOf(b)]
    ensures var es := History(TightWorld(z), [a, b], Apply(TightWorld(z), [a, b], [], first).entities, tries, n);
      && Decisions(TightWorld(z), [a, b], es) == [Skip, Refuse]
      && Tags(Oks(es)) == [TagOf(a)] && Tags(Fails(es)) == [TagOf(b)]
  {
    var w, plan, es := TightWorld(z), [a, b], Interrupted(a, b, z, first(0));
    TightSurface(z);
    Uninterrupted(a, b, z, smooth);
    OutageAtSecond(a, b, z, first);
    InterruptedRecords(a, b, z, first(0));
    SecondRefused(a, b, z, es);
    RetriesChangeNothing(w, a, b, es, tries, n);
  }

  lemma RetriesChangeNothing(w: World, a: Item, b: Item, es: seq<Entity>, tries: seq<Try>, n: nat)
    requires w.Valid() && n <= |tries| && Decisions(w, [a, b], es) == [Skip, Refuse]
    ensures History(w, [a, b], es, tries, n) == es
  {
    var next := Retry(w, [a, b]);
    forall t ensures next(es, t) == es { NothingSent(a, b, es, t.script, StopOf([a, b], t)); }
    SameAfterTries(next, es, tries, n);
  }

  lemma {:induction false} SameAfterTries(next: (seq<Entity>, Try) -> seq<Entity>, es: seq<Entity>, tries: seq<Try>, n: nat)
    requires n <= |tries| && forall t :: next(es, t) == es
    ensures AfterTries(next, es, tries, n) == es
  {
    if n > 0 { SameAfterTries(next, es, tries, n - 1); }
  }
}
