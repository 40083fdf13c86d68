/** What a run decides, item by item, said by counting base records, manifest records and items, and by the
    packer: nothing here goes through the multisets and lists the decisions are computed from. */
module SpawnCounts {
  import opened Geometry
  import opened Packing
  import opened PackingOrder
  import opened Spawn
  import opened SpawnLaws
  import opened SpawnMethods
  import opened SpawnRecords

  // ------------------------------------------------------------ counting indices

  ghost function Matching(n: nat, pick: nat -> bool): set<nat> { set i: nat | i < n && pick(i) }

  lemma MatchingNext(n: nat, pick: nat -> bool)
    ensures |Matching(n + 1, pick)| == |Matching(n, pick)| + if pick(n) then 1 else 0
    ensures Matching(0, pick) == {}
  {
    assert Matching(n + 1, pick) == if pick(n) then Matching(n, pick) + {n} else Matching(n, pick);
  }

  // ----------------------------------------------------------- the nearest place

  /** The table the base records are looked up in: every measured spot with its surface point, and then
      every room. */
  lemma TableLaw(w: World, i: nat)
    requires w.Valid()
    ensures |Table(w)| == |w.order| + |w.rooms|
    ensures i < |w.order| ==>
      w.order[i] in w.spots
      && Table(w)[i] == Place(w.order[i], Pt(w.spots[w.order[i]].xyz.x, w.spots[w.order[i]].xyz.y))
    ensures i < |w.rooms| ==> Table(w)[|w.order| + i] == w.rooms[i]
  {
  }

  lemma EverySpotIsInTheTable(w: World, where: string)
    requires w.Valid() && where in w.spots
    ensures exists i :: 0 <= i < |Table(w)| && Table(w)[i] == Place(where, Pt(w.spots[where].xyz.x, w.spots[where].xyz.y))
  {
    var i :| 0 <= i < |w.order| && w.order[i] == where;
    TableLaw(w, i);
  }

  /** Entry i is at least distance, and those before it are farther away. */
  predicate NearestEntry(table: seq<Place>, p: Pt, i: nat)
    requires i < |table|
  {
    && (forall k :: 0 <= k < |table| ==> Far2(p, table[i].xy) <= Far2(p, table[k].xy))
    && (forall k :: 0 <= k < i ==> Far2(p, table[i].xy) < Far2(p, table[k].xy))
  }

  /** where names the first of the places nearest to p. */
  ghost predicate NearestIs(w: World, p: Pt, where: string)
    requires w.Valid()
  {
    exists i: nat :: i < |Table(w)| && NearestEntry(Table(w), p, i) && Table(w)[i].name == where
  }

  lemma NearestEntryLaw(table: seq<Place>, p: Pt)
    requires table != []
    ensures NearestEntry(table, p, NearestOf(table, p))
    ensures forall i: nat :: i < |table| && NearestEntry(table, p, i) ==> i == NearestOf(table, p)
  {
    NearestIsFirst(table, p);
    forall k | 0 <= k < |table| ensures Distance2(p, table[k].xy) == Far2(p, table[k].xy) { }
    assert NearestEntry(table, p, NearestOf(table, p));
    forall i: nat | i < |table| && NearestEntry(table, p, i) ensures i == NearestOf(table, p) { }
  }

  lemma NearestLaw(w: World, p: Pt, where: string)
    requires w.Valid()
    ensures Nearest(w, p) == Some(where) <==> NearestIs(w, p, where)
  {
    if Table(w) != [] { NearestEntryLaw(Table(w), p); }
  }

  // ----------------------------------------------------------------- base records

  /** The base record is an asset of the group, nearest to the group's place. */
  ghost predicate RecordIn(w: World, r: Record, g: Group)
    requires w.Valid()
  {
    r.asset == g.asset && NearestIs(w, Pt(r.xyz.x, r.xyz.y), g.where)
  }

  ghost function PickRecords(w: World, rs: seq<Record>, g: Group): nat -> bool
    requires w.Valid()
  {
    (i: nat) => i < |rs| && RecordIn(w, rs[i], g)
  }

  lemma {:induction false} RecordCount(w: World, rs: seq<Record>, g: Group, n: nat)
    requires w.Valid() && n <= |rs|
    ensures multiset(RecordGroups(Near(w), rs[..n]))[g] == |Matching(n, PickRecords(w, rs, g))|
  {
    MatchingNext(if n > 0 then n - 1 else 0, PickRecords(w, rs, g));
    if n > 0 {
      RecordCount(w, rs, g, n - 1);
      RecordCountStep(w, rs, g, n - 1);
    }
  }

  lemma RecordCountStep(w: World, rs: seq<Record>, g: Group, i: nat)
    requires w.Valid() && i < |rs|
    ensures multiset(RecordGroups(Near(w), rs[..i + 1]))[g]
            == multiset(RecordGroups(Near(w), rs[..i]))[g] + if PickRecords(w, rs, g)(i) then 1 else 0
  {
    NearestLaw(w, rs[i].xyz.Xy(), g.where);
    assert rs[..i + 1][..i] == rs[..i];
  }

  /** The base count of a group: its actors and its objects. */
  lemma BaseCount(w: World, g: Group)
    requires w.Valid()
    ensures multiset(BaseGroups(w))[g]
            == |Matching(|w.base.actors|, PickRecords(w, w.base.actors, g))|
               + |Matching(|w.base.objects|, PickRecords(w, w.base.objects, g))|
  {
    var actors, objects := w.base.actors, w.base.objects;
    RecordCount(w, actors, g, |actors|);
    RecordCount(w, objects, g, |objects|);
    assert actors[..|actors|] == actors && objects[..|objects|] == objects;
  }

  // -------------------------------------------------------------- manifest records

  function PickOk(es: seq<Entity>, g: Group): nat -> bool {
    (i: nat) => i < |es| && es[i].ok && es[i].asset == g.asset && es[i].where == g.where
  }

  lemma {:induction false} OkCount(es: seq<Entity>, g: Group, n: nat)
    requires n <= |es|
    ensures multiset(EntityGroups(Oks(es[..n])))[g] == |Matching(n, PickOk(es, g))|
  {
    MatchingNext(if n > 0 then n - 1 else 0, PickOk(es, g));
    if n > 0 {
      OkCount(es, g, n - 1);
      OkCountStep(es, g, n - 1);
    }
  }

  lemma OkCountStep(es: seq<Entity>, g: Group, i: nat)
    requires i < |es|
    ensures multiset(EntityGroups(Oks(es[..i + 1])))[g]
            == multiset(EntityGroups(Oks(es[..i])))[g] + if PickOk(es, g)(i) then 1 else 0
  {
    assert es[..i + 1] == es[..i] + [es[i]];
    OksAppend(es[..i], es[i]);
    if es[i].ok { GroupsAppend(Oks(es[..i]), es[i]); }
  }

  /** What exists of a group: its base actors, its base objects, and its ok records. */
  lemma ExistingCount(w: World, prev: seq<Entity>, g: Group)
    requires w.Valid()
    ensures Existing(w, prev)[g]
            == |Matching(|w.base.actors|, PickRecords(w, w.base.actors, g))|
               + |Matching(|w.base.objects|, PickRecords(w, w.base.objects, g))| + |Matching(|prev|, PickOk(prev, g))|
  {
    BaseCount(w, g);
    OkCount(prev, g, |prev|);
    assert prev[..|prev|] == prev;
  }

  // ------------------------------------------------------------------------ items

  function PickItems(plan: seq<Item>, g: Group): nat -> bool {
    (i: nat) => i < |plan| && plan[i].asset == g.asset && CountedAt(plan[i], g.where)
  }

  lemma {:induction false} ItemCount(plan: seq<Item>, g: Group, n: nat)
    requires n <= |plan|
    ensures Seen(plan, n)[g] == |Matching(n, PickItems(plan, g))|
  {
    MatchingNext(if n > 0 then n - 1 else 0, PickItems(plan, g));
    if n > 0 {
      ItemCount(plan, g, n - 1);
      ItemCountStep(plan, g, n - 1);
    }
  }

  lemma ItemCountStep(plan: seq<Item>, g: Group, i: nat)
    requires i < |plan|
    ensures Seen(plan, i + 1)[g] == Seen(plan, i)[g] + if PickItems(plan, g)(i) then 1 else 0
  {
    assert GroupOf(plan[i]) == g <==> PickItems(plan, g)(i);
  }

  /** The group an item is counted in. */
  function Counted(item: Item): Group { Group(item.asset, if item.spot == "" then item.room else item.spot) }

  /** An item is skipped exactly if fewer items of its group come before it in the plan than base records
      and ok records of the group exist. */
  lemma SkipCount(w: World, plan: seq<Item>, prev: seq<Entity>, i: nat)
    requires w.Valid() && i < |plan|
    ensures var g := Counted(plan[i]);
      Decisions(w, plan, prev)[i].Skip? <==>
      |Matching(i, PickItems(plan, g))|
      < |Matching(|w.base.actors|, PickRecords(w, w.base.actors, g))|
        + |Matching(|w.base.objects|, PickRecords(w, w.base.objects, g))| + |Matching(|prev|, PickOk(prev, g))|
  {
    var g := Counted(plan[i]);
    assert GroupOf(plan[i]) == g;
    ItemCount(plan, g, i);
    ExistingCount(w, prev, g);
    DecisionsSkip(w, plan, prev);
    assert Decisions(w, plan, prev)[i].Skip? <==> Skips(plan, Existing(w, prev), i);
  }

  // ------------------------------------------------------------ where items are sent

  /** The surface of a spot: its box less 2 cm on every side, 6 cm between things, 1 cm steps. */
  lemma SurfaceIs(spot: Spot)
    ensures SurfaceOf(spot) == Surface(Pt(spot.xyz.x, spot.xyz.y),
                                       Rect(spot.bbox.x0 + 0.02, spot.bbox.y0 + 0.02, spot.bbox.x1 - 0.02, spot.bbox.y1 - 0.02),
                                       0.06, 0.01)
  {
  }

  /** The footprint of an asset is the one it is tabled with, and 10 cm by 10 cm if it is not. */
  lemma FootprintIs(asset: string, w: real, h: real)
    ensures asset in FOOTPRINTS && FOOTPRINTS[asset] == Size(w, h) ==> Footprint(asset).w == w && Footprint(asset).h == h
    ensures asset !in FOOTPRINTS ==> Footprint(asset) == Size(0.10, 0.10)
  {
  }

  /** The footprint of an asset at a place. */
  function RectHere(asset: string, xyz: Xyz): Rect { RectAt(Pt(xyz.x, xyz.y), Footprint(asset)) }

  /** What is on a spot before a batch is packed: exactly the base objects nearest to it, and the ok records
      there, each with the footprint of its asset. */
  lemma SeedLaw(w: World, prev: seq<Entity>, where: string, r: Rect)
    requires w.Valid()
    ensures r in Seed(w, prev, where) <==>
      || (exists i :: 0 <= i < |w.base.objects| && BaseRectAt(w, where, r, i))
      || (exists i :: 0 <= i < |prev| && OkRectAt(prev, where, r, i))
  {
    BaseRectsAre(w, where, r);
    OkRectsLaw(prev, where, r, |prev|);
    assert prev[..|prev|] == prev;
  }

  ghost predicate BaseRectAt(w: World, where: string, r: Rect, i: nat)
    requires w.Valid() && i < |w.base.objects|
  {
    var o := w.base.objects[i];
    NearestIs(w, Pt(o.xyz.x, o.xyz.y), where) && r == RectHere(o.asset, o.xyz)
  }

  predicate OkRectAt(es: seq<Entity>, where: string, r: Rect, i: nat)
    requires i < |es|
  {
    es[i].ok && es[i].where == where && r == RectHere(es[i].asset, es[i].xyz)
  }

  lemma BaseRectsAre(w: World, where: string, r: Rect)
    requires w.Valid()
    ensures r in BaseRects(w, w.base.objects, where) <==> exists i :: 0 <= i < |w.base.objects| && BaseRectAt(w, where, r, i)
  {
    var n, pick := |w.base.objects|, PickBaseRects(w, where, r);
    BaseRectsLaw(w, w.base.objects, where, r, n);
    assert w.base.objects[..n] == w.base.objects;
    forall i: nat | i < n ensures pick(i) <==> BaseRectAt(w, where, r, i) { }
  }

  ghost function PickBaseRects(w: World, where: string, r: Rect): nat -> bool
    requires w.Valid()
  {
    (i: nat) => i < |w.base.objects| && BaseRectAt(w, where, r, i)
  }

  ghost predicate SomeOf(n: nat, pick: nat -> bool) { exists i: nat :: i < n && pick(i) }

  lemma SomeNext(n: nat, pick: nat -> bool)
    ensures SomeOf(n + 1, pick) <==> SomeOf(n, pick) || pick(n)
    ensures !SomeOf(0, pick)
  {
  }

  lemma {:induction false} BaseRectsLaw(w: World, rs: seq<Record>, where: string, r: Rect, n: nat)
    requires w.Valid() && rs == w.base.objects && n <= |rs|
    ensures r in BaseRects(w, rs[..n], where) <==> SomeOf(n, PickBaseRects(w, where, r))
  {
    SomeNext(if n > 0 then n - 1 else 0, PickBaseRects(w, where, r));
    if n > 0 {
      BaseRectsLaw(w, rs, where, r, n - 1);
      BaseRectsStep(w, rs, where, r, n - 1);
    }
  }

  lemma BaseRectsStep(w: World, rs: seq<Record>, where: string, r: Rect, i: nat)
    requires w.Valid() && rs == w.base.objects && i < |rs|
    ensures r in BaseRects(w, rs[..i + 1], where) <==> r in BaseRects(w, rs[..i], where) || PickBaseRects(w, where, r)(i)
  {
    NearestLaw(w, rs[i].xyz.Xy(), where);
    assert rs[..i + 1][..i] == rs[..i];
    assert RectAt(rs[i].xyz.Xy(), Footprint(rs[i].asset)) == RectHere(rs[i].asset, rs[i].xyz);
  }

  lemma {:induction false} OkRectsLaw(es: seq<Entity>, where: string, r: Rect, n: nat)
    requires n <= |es|
    ensures r in EntityRects(es[..n], where) <==> exists i :: 0 <= i < n && OkRectAt(es, where, r, i)
  {
    if n > 0 {
      OkRectsLaw(es, where, r, n - 1);
      OkRectsStep(es, where, r, n - 1);
      var now := OkRectAt(es, where, r, n - 1);
      assert (exists i :: 0 <= i < n && OkRectAt(es, where, r, i))
        <==> (exists i :: 0 <= i < n - 1 && OkRectAt(es, where, r, i)) || now;
    }
  }

  lemma OkRectsStep(es: seq<Entity>, where: string, r: Rect, i: nat)
    requires i < |es|
    ensures r in EntityRects(es[..i + 1], where) <==> r in EntityRects(es[..i], where) || OkRectAt(es, where, r, i)
  {
    assert es[..i + 1][..i] == es[..i];
    assert RectOf(es[i]) == RectHere(es[i].asset, es[i].xyz);
  }

  /** The items packed as one batch at a spot: in plan order, exactly those for that measured spot which are
      not skipped, each with the footprint of its asset. */
  lemma BatchLaw(w: World, plan: seq<Item>, prev: seq<Entity>, where: string, i: nat)
    requires w.Valid() && where in w.spots && i < |plan|
    ensures var idx, ds := Pending(w, plan, Existing(w, prev), where, |plan|), Decisions(w, plan, prev);
      && (forall k, l :: 0 <= k < l < |idx| ==> idx[k] < idx[l])
      && (i in idx <==> plan[i].spot == where && where != "" && !ds[i].Skip?)
      && |Sizes(plan, idx)| == |idx| && forall k :: 0 <= k < |idx| ==> Sizes(plan, idx)[k] == Footprint(plan[idx[k]].asset)
  {
    var existing := Existing(w, prev);
    DecisionsSkip(w, plan, prev);
    assert Decisions(w, plan, prev)[i].Skip? <==> Skips(plan, existing, i);
    PendingLaw(w, plan, existing, where, i);
  }

  lemma PendingLaw(w: World, plan: seq<Item>, existing: multiset<Group>, where: string, i: nat)
    requires where in w.spots && i < |plan|
    ensures var idx := Pending(w, plan, existing, where, |plan|);
      && (forall k, l :: 0 <= k < l < |idx| ==> idx[k] < idx[l])
      && (i in idx <==> plan[i].spot == where && where != "" && !Skips(plan, existing, i))
  {
    var idx := Pending(w, plan, existing, where, |plan|);
    PendingItems(w, plan, existing, where, |plan|);
    if plan[i].spot == where && where != "" && !Skips(plan, existing, i) {
      PendingPosition(w, plan, existing, where, i, |plan|);
    }
    if i in idx {
      var k :| 0 <= k < |idx| && idx[k] == i;
      assert BoundAt(w, plan, existing, where, idx[k]);
    }
  }

  /** What is decided for the k-th item of a batch: refused if it got no centre, otherwise sent to its centre,
      rounded, at the height of the spot. */
  predicate DecidedBy(item: Item, spot: Spot, centre: Option<Pt>, d: Decision) {
    match centre
    case None => d == Refuse
    case Some(c) => d == Attempt(item.(xyz := Xyz(Round4(c.x), Round4(c.y), spot.xyz.z)))
  }

  /** An item that is not skipped is sent as it is if it has no measured spot; otherwise the packer decides,
      with the batch of its spot. */
  lemma SentWhere(w: World, plan: seq<Item>, prev: seq<Entity>, i: nat)
    requires w.Valid() && i < |plan| && !Decisions(w, plan, prev)[i].Skip?
    ensures var item, d := plan[i], Decisions(w, plan, prev)[i];
      if item.spot == "" || item.spot !in w.spots then d == Attempt(item)
      else
        var idx := Pending(w, plan, Existing(w, prev), item.spot, |plan|);
        var cs := PackAll(SurfaceOf(w.spots[item.spot]), Seed(w, prev, item.spot), Sizes(plan, idx));
        |cs| == |idx| && exists k :: 0 <= k < |idx| && idx[k] == i && DecidedBy(item, w.spots[item.spot], cs[k], d)
  {
    DecisionsSkip(w, plan, prev);
    assert Decisions(w, plan, prev)[i] == Decide(w, plan, prev, i);
    assert !Skips(plan, Existing(w, prev), i);
    if OnSpot(w, plan[i]) { SentToBatch(w, plan, prev, i, plan[i].spot); }
  }

  lemma SentToBatch(w: World, plan: seq<Item>, prev: seq<Entity>, i: nat, where: string)
    requires w.Valid() && i < |plan| && !Skips(plan, Existing(w, prev), i) && OnSpot(w, plan[i]) && where == plan[i].spot
    ensures var idx, cs := Pending(w, plan, Existing(w, prev), where, |plan|), PackedCentres(w, plan, prev, where);
      |cs| == |idx| && exists k :: 0 <= k < |idx| && idx[k] == i && DecidedBy(plan[i], w.spots[where], cs[k], Decide(w, plan, prev, i))
  {
    var idx, cs := Pending(w, plan, Existing(w, prev), where, |plan|), PackedCentres(w, plan, prev, where);
    var k := |Pending(w, plan, Existing(w, prev), where, i)|;
    PendingPosition(w, plan, Existing(w, prev), where, i, |plan|);
    assert PlannedXy(w, plan, prev, i) == RoundOne(cs[k]);
    assert DecidedBy(plan[i], w.spots[where], cs[k], Decide(w, plan, prev, i));
  }
}
