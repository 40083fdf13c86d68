/** Emitting a merged scenario as it runs: dictionaries of groups filled plan by plan, surface layouts
    made when first needed, and two record lists appended to; proved to compute module EmitScenario. */
module EmitMethods {
  import opened Geometry
  import opened Packing
  import opened PackingLaws
  import opened Layout
  import opened Spawn
  import opened SpawnMethods
  import opened EmitScenario

  // ------------------------------------------------------------ groups of plans

  /** A dictionary with the order its keys were inserted in. */
  datatype Groups = Groups(order: seq<Group>, items: map<Group, seq<Item>>) {
    function At(g: Group): seq<Item> { if g in items then items[g] else [] }
  }

  ghost predicate Holds(gs: Groups, order: seq<Group>, at: Group -> seq<Item>) {
    && gs.order == order
    && (forall g :: g in order <==> g in gs.items)
    && forall g {:trigger gs.At(g)} :: gs.At(g) == at(g)
  }

  function OfPlan(plan: seq<Item>): Group -> seq<Item> { (g: Group) => ItemsOf(plan, g) }

  function OfPlans(plans: seq<seq<Item>>): Group -> seq<Item> { (g: Group) => Best(plans, g) }

  method GroupPlan(plan: seq<Item>) returns (gs: Groups)
    ensures Holds(gs, MeetItems([], plan), OfPlan(plan))
  {
    gs := Groups([], map[]);
    for n := 0 to |plan|
      invariant Holds(gs, MeetItems([], plan[..n]), OfPlan(plan[..n]))
    {
      assert plan[..n + 1][..n] == plan[..n];
      var g := GroupOf(plan[n]);
      ghost var before := gs;
      gs := Groups(if g in gs.items then gs.order else gs.order + [g], gs.items[g := gs.At(g) + [plan[n]]]);
      forall h ensures gs.At(h) == OfPlan(plan[..n + 1])(h) { assert before.At(h) == OfPlan(plan[..n])(h); }
    }
    assert plan[..|plan|] == plan;
  }

  function MeetKeys(order: seq<Group>, keys: seq<Group>): seq<Group> {
    if keys == [] then order
    else
      var before, g := MeetKeys(order, keys[..|keys| - 1]), keys[|keys| - 1];
      if g in before then before else before + [g]
  }

  lemma {:induction false} MeetKeysHas(order: seq<Group>, keys: seq<Group>, g: Group)
    ensures g in MeetKeys(order, keys) <==> g in order || g in keys
  {
    if keys != [] {
      var n := |keys| - 1;
      MeetKeysHas(order, keys[..n], g);
      assert keys == keys[..n] + [keys[n]];
    }
  }

  lemma MeetKeysAppend(order: seq<Group>, keys: seq<Group>, g: Group)
    ensures MeetKeys(order, keys + [g])
            == if g in MeetKeys(order, keys) then MeetKeys(order, keys) else MeetKeys(order, keys) + [g]
  {
    assert (keys + [g])[..|keys|] == keys;
  }

  /** Meeting a plan item by item inserts the same keys as meeting its groups one by one. */
  lemma {:induction false} MeetByGroups(order: seq<Group>, plan: seq<Item>)
    ensures MeetItems(order, plan) == MeetKeys(order, MeetItems([], plan))
  {
    if plan != [] {
      var n := |plan| - 1;
      var keys, g := MeetItems([], plan[..n]), GroupOf(plan[n]);
      MeetByGroups(order, plan[..n]);
      MeetKeysHas(order, keys, g);
      MeetKeysAppend(order, keys, g);
    }
  }

  /** After k groups of the last plan: those groups hold their new best, the others the old one. */
  ghost predicate BestUpTo(best: Groups, order: seq<Group>, was: Groups, mine: Groups, k: nat)
    requires k <= |mine.order|
  {
    && best.order == MeetKeys(order, mine.order[..k])
    && (forall g :: g in best.order <==> g in best.items)
    && (forall g {:trigger best.At(g)} ::
          best.At(g) == if g in mine.order[..k] && |mine.At(g)| > |was.At(g)| then mine.At(g) else was.At(g))
  }

  lemma BestStep(order: seq<Group>, was: Groups, mine: Groups, k: nat, before: Groups, after: Groups)
    requires k < |mine.order| && Distinct(mine.order) && BestUpTo(before, order, was, mine, k)
    requires var g := mine.order[k];
      after == if g !in before.items || |mine.At(g)| > |before.At(g)|
               then Groups(if g in before.items then before.order else before.order + [g], before.items[g := mine.At(g)])
               else before
    requires mine.At(mine.order[k]) != []
    ensures BestUpTo(after, order, was, mine, k + 1)
  {
    var g, keys := mine.order[k], mine.order[..k];
    assert mine.order[..k + 1] == keys + [g];
    MeetKeysAppend(order, keys, g);
    assert before.At(g) == was.At(g);
    forall h ensures after.At(h) == if h in keys + [g] && |mine.At(h)| > |was.At(h)| then mine.At(h) else was.At(h) {
      if h != g { assert after.At(h) == before.At(h); }
    }
  }

  /** A group of the plan replaces the best one so far only if it is longer. */
  method MergeBest(best: Groups, mine: Groups) returns (after: Groups)
    requires (forall g :: g in best.order <==> g in best.items) && Distinct(mine.order)
    requires forall g :: g in mine.order ==> g in mine.items && mine.At(g) != []
    ensures BestUpTo(after, best.order, best, mine, |mine.order|)
  {
    after := best;
    for k := 0 to |mine.order|
      invariant BestUpTo(after, best.order, best, mine, k)
    {
      var g := mine.order[k];
      ghost var before := after;
      if g !in after.items || |mine.At(g)| > |after.At(g)| {
        after := Groups(if g in after.items then after.order else after.order + [g], after.items[g := mine.At(g)]);
      }
      BestStep(best.order, best, mine, k, before, after);
    }
  }

  lemma BestNext(plans: seq<seq<Item>>, n: nat, before: Groups, mine: Groups, after: Groups)
    requires n < |plans| && Holds(before, Order(plans[..n]), OfPlans(plans[..n]))
    requires Holds(mine, MeetItems([], plans[n]), OfPlan(plans[n]))
    requires BestUpTo(after, before.order, before, mine, |mine.order|)
    ensures Holds(after, Order(plans[..n + 1]), OfPlans(plans[..n + 1]))
  {
    var next := plans[..n + 1];
    assert next[..n] == plans[..n] && next[n] == plans[n] && mine.order[..|mine.order|] == mine.order;
    MeetByGroups(before.order, plans[n]);
    forall g ensures after.At(g) == OfPlans(next)(g) {
      assert before.At(g) == Best(plans[..n], g) && mine.At(g) == ItemsOf(plans[n], g);
    }
  }

  method BestGroups(plans: seq<seq<Item>>) returns (best: Groups)
    ensures Holds(best, Order(plans), OfPlans(plans))
  {
    best := Groups([], map[]);
    for n := 0 to |plans|
      invariant Holds(best, Order(plans[..n]), OfPlans(plans[..n]))
    {
      var mine := GroupPlan(plans[n]);
      forall g ensures Distinct(mine.order) && (g in mine.order ==> g in mine.items && mine.At(g) != []) {
        MeetItemsLaw([], plans[n], g);
        assert mine.At(g) == ItemsOf(plans[n], g);
      }
      ghost var before := best;
      best := MergeBest(best, mine);
      BestNext(plans, n, before, mine, best);
    }
    assert plans[..|plans|] == plans;
  }

  // ------------------------------------------------------------------- layouts

  /** The layout of spot k holds exactly rects. */
  ghost predicate BackedAt(w: World, k: string, layout: SurfaceLayout, rects: seq<Rect>)
    reads layout
  {
    k in w.spots && layout.Valid() && layout.surface == SurfaceOf(w.spots[k]) && layout.occupied == rects
  }

  /** The layout objects made so far hold exactly what is reserved. */
  ghost predicate Backs(w: World, layouts: map<string, SurfaceLayout>, reserved: map<string, seq<Rect>>)
    reads layouts.Values
  {
    && layouts.Keys == reserved.Keys
    && (forall k :: k in layouts ==> BackedAt(w, k, layouts[k], reserved[k]))
    && forall k, l :: k in layouts && l in layouts && k != l ==> layouts[k] != layouts[l]
  }

  method NewLayout(w: World, where: string) returns (layout: SurfaceLayout)
    requires w.Valid() && where in w.spots
    ensures fresh(layout) && BackedAt(w, where, layout, BaseRects(w, w.base.objects, where))
  {
    layout := SeedLayout(w, [], where);
  }

  method LayoutFor(w: World, layouts: map<string, SurfaceLayout>, where: string, ghost reserved: map<string, seq<Rect>>)
    returns (after: map<string, SurfaceLayout>)
    requires w.Valid() && where in w.spots && Backs(w, layouts, reserved)
    ensures where in after && fresh(after.Values - layouts.Values)
    ensures Backs(w, after, reserved[where := ReservedAt(w, reserved, where)])
  {
    if where in layouts {
      assert reserved[where := reserved[where]] == reserved;
      return layouts;
    }
    var layout := NewLayout(w, where);
    after := layouts[where := layout];
    assert forall k :: k in layouts ==> layouts[k] in layouts.Values;
  }

  method PlaceHere(w: World, layout: SurfaceLayout, where: string, fs: seq<Size>, ghost occupied: seq<Rect>)
    returns (xys: seq<Option<Pt>>)
    requires BackedAt(w, where, layout, occupied) && SizesOk(fs)
    modifies layout
    ensures var cs := PackAll(SurfaceOf(w.spots[where]), occupied, fs);
      xys == RoundAll(cs) && BackedAt(w, where, layout, ReserveAll(occupied, cs, fs))
  {
    xys := layout.PlaceAll(fs);
  }

  /** Packs a batch of footprints on one of the layouts. */
  method PlaceOn(w: World, layouts: map<string, SurfaceLayout>, where: string, fs: seq<Size>,
                 ghost reserved: map<string, seq<Rect>>) returns (xys: seq<Option<Pt>>)
    requires where in w.spots && where in layouts && Backs(w, layouts, reserved) && SizesOk(fs)
    modifies layouts.Values
    ensures var cs := PackAll(SurfaceOf(w.spots[where]), reserved[where], fs);
      xys == RoundAll(cs) && Backs(w, layouts, reserved[where := ReserveAll(reserved[where], cs, fs)])
  {
    assert layouts[where] in layouts.Values;
    xys := PlaceHere(w, layouts[where], where, fs, reserved[where]);
    forall k | k in layouts && k != where ensures BackedAt(w, k, layouts[k], reserved[k]) {
      assert layouts[k] in layouts.Values && layouts[k] != layouts[where];
      assert old(BackedAt(w, k, layouts[k], reserved[k]));
    }
  }

  lemma SetTwice(reserved: map<string, seq<Rect>>, where: string, a: seq<Rect>, b: seq<Rect>)
    ensures reserved[where := a][where := b] == reserved[where := b]
  {
  }

  /** Packs a group's footprints on the layout of its spot, which is made if there is none yet. */
  method PackGroup(w: World, layouts: map<string, SurfaceLayout>, where: string, fs: seq<Size>,
                   ghost reserved: map<string, seq<Rect>>)
    returns (xys: seq<Option<Pt>>, after: map<string, SurfaceLayout>)
    requires w.Valid() && where in w.spots && Backs(w, layouts, reserved) && SizesOk(fs)
    modifies layouts.Values
    ensures fresh(after.Values - layouts.Values)
    ensures var cs := PackAll(SurfaceOf(w.spots[where]), ReservedAt(w, reserved, where), fs);
      xys == RoundAll(cs) && Backs(w, after, reserved[where := ReserveAll(ReservedAt(w, reserved, where), cs, fs)])
  {
    ghost var occupied := ReservedAt(w, reserved, where);
    after := LayoutFor(w, layouts, where, reserved);
    xys := PlaceOn(w, after, where, fs, reserved[where := occupied]);
    SetTwice(reserved, where, occupied, ReserveAll(occupied, PackAll(SurfaceOf(w.spots[where]), occupied, fs), fs));
  }

  // ------------------------------------------------------------------ appending

  /** The scenario lists and the refused items. */
  datatype Lists = Lists(actors: seq<Record>, objects: seq<Record>, refused: seq<Item>)

  function ListsOf(m: Merge): Lists { Lists(m.actors, m.objects, m.refused) }

  lemma AppendNext(m: Merge, where: string, person: bool, slots: seq<Slot>, j: nat)
    requires j < |slots|
    ensures Append(m, where, person, slots[..j + 1]) == AppendOne(Append(m, where, person, slots[..j]), where, person, slots[j])
  {
    assert slots[..j + 1][..j] == slots[..j];
  }

  /** Appends a record for every item that has a place; xys is used only on a measured spot. */
  method AppendItems(w: World, lists: Lists, g: Group, person: bool, toAdd: seq<Item>, xys: seq<Option<Pt>>,
                     ghost m: Merge) returns (after: Lists)
    requires w.Valid() && toAdd != [] && lists == ListsOf(m) && WhereOf(toAdd[0]) == g.where
    requires OnSpot(w, toAdd[0]) ==> xys == RoundAll(PackAll(SurfaceOf(w.spots[g.where]), LayoutAt(w, m, g.where),
                                                             SameSize(Footprint(g.asset), |toAdd|)))
    ensures after == ListsOf(Append(m, g.where, person, Slots(w, m, g, toAdd)))
  {
    var onSpot := OnSpot(w, toAdd[0]);
    ghost var slots := Slots(w, m, g, toAdd);
    after := lists;
    for j := 0 to |toAdd|
      invariant after == ListsOf(Append(m, g.where, person, slots[..j]))
    {
      AppendNext(m, g.where, person, slots, j);
      var xyz := toAdd[j].xyz;
      if onSpot {
        if xys[j].None? {
          after := after.(refused := after.refused + [toAdd[j]]);
          continue;
        }
        xyz := Xyz(xys[j].value.x, xys[j].value.y, w.spots[g.where].xyz.z);
      }
      var record := RecordOf(toAdd[j], g.where, xyz);
      if person { after := after.(actors := after.actors + [record]); }
      else { after := after.(objects := after.objects + [record]); }
    }
    assert slots[..|toAdd|] == slots;
  }

  method AppendGroup(w: World, lists: Lists, layouts: map<string, SurfaceLayout>, g: Group, person: bool,
                     toAdd: seq<Item>, ghost m: Merge)
    returns (after: Lists, layoutsAfter: map<string, SurfaceLayout>)
    requires w.Valid() && lists == ListsOf(m) && Backs(w, layouts, m.layouts)
    requires toAdd != [] ==> WhereOf(toAdd[0]) == g.where
    modifies layouts.Values
    ensures fresh(layoutsAfter.Values - layouts.Values)
    ensures var next := MergeGroup(m, g, toAdd, person, Placer(w));
      after == ListsOf(next) && Backs(w, layoutsAfter, next.layouts)
  {
    if toAdd == [] { return lists, layouts; }
    ghost var next := MergeGroup(m, g, toAdd, person, Placer(w));
    var xys: seq<Option<Pt>> := [];
    layoutsAfter := layouts;
    if OnSpot(w, toAdd[0]) {
      xys, layoutsAfter := PackGroup(w, layouts, g.where, SameSize(Footprint(g.asset), |toAdd|), m.layouts);
    }
    after := AppendItems(w, lists, g, person, toAdd, xys, m);
  }

  /** What the dictionary holds for the k-th group. */
  lemma GroupIsBest(plans: seq<seq<Item>>, best: Groups, k: nat)
    requires Holds(best, Order(plans), OfPlans(plans)) && k < |best.order|
    ensures best.order == Order(plans) && best.order[k] in best.items
    ensures best.items[best.order[k]] == Best(plans, best.order[k]) != []
  {
    var g := best.order[k];
    assert best.At(g) == OfPlans(plans)(g);
    OrderLaw(plans, g);
  }

  /** emit-scenario: the base scenario's lists with every group's excess appended. */
  method EmitMerged(w: World, plans: seq<seq<Item>>) returns (merged: Scenario, refused: seq<Item>)
    requires w.Valid()
    ensures merged == MergedScenario(w, plans) && refused == Emitted(w, plans).refused
  {
    var existing := BaseScenarioCounts(w);
    var best := BestGroups(plans);
    var lists := Lists(w.base.actors, w.base.objects, []);
    lists := EmitGroups(w, plans, best, existing, lists);
    merged, refused := Scenario(lists.actors, lists.objects), lists.refused;
  }

  lemma EmitNext(start: Merge, counts: multiset<Group>, plans: seq<seq<Item>>, order: seq<Group>,
                 place: (Merge, Group, seq<Item>) -> Placement, k: nat, before: Merge, after: Merge)
    requires k < |order| && before == Emit(start, counts, plans, order, place, k)
    requires after == MergeGroup(before, order[k], GroupTarget(counts, plans, order[k]), GroupIsPersons(plans, order[k]), place)
    ensures after == Emit(start, counts, plans, order, place, k + 1)
  {
  }

  /** The merge after the first k groups. */
  function MergeAt(w: World, counts: multiset<Group>, plans: seq<seq<Item>>, order: seq<Group>, k: nat): Merge
    requires w.Valid() && k <= |order|
  {
    Emit(BaseMerge(w.base), counts, plans, order, Placer(w), k)
  }

  lemma MergeAtNext(w: World, counts: multiset<Group>, plans: seq<seq<Item>>, order: seq<Group>, k: nat)
    requires w.Valid() && k < |order|
    ensures MergeAt(w, counts, plans, order, k + 1)
            == MergeGroup(MergeAt(w, counts, plans, order, k), order[k], GroupTarget(counts, plans, order[k]),
                          GroupIsPersons(plans, order[k]), Placer(w))
  {
    var m := MergeAt(w, counts, plans, order, k);
    EmitNext(BaseMerge(w.base), counts, plans, order, Placer(w), k, m,
             MergeGroup(m, order[k], GroupTarget(counts, plans, order[k]), GroupIsPersons(plans, order[k]), Placer(w)));
  }

  /** The lists and the layout objects are those of a merge. */
  ghost predicate Shows(w: World, lists: Lists, layouts: map<string, SurfaceLayout>, m: Merge)
    reads layouts.Values
  {
    lists == ListsOf(m) && Backs(w, layouts, m.layouts)
  }

  /** Appends the excess of the k-th group. */
  method EmitGroup(w: World, plans: seq<seq<Item>>, order: seq<Group>, existing: multiset<Group>, k: nat, group: seq<Item>,
                   lists: Lists, layouts: map<string, SurfaceLayout>)
    returns (after: Lists, layoutsAfter: map<string, SurfaceLayout>)
    requires w.Valid() && k < |order| && group == Best(plans, order[k]) && group != []
    requires Shows(w, lists, layouts, MergeAt(w, existing, plans, order, k))
    modifies layouts.Values
    ensures fresh(layoutsAfter.Values - layouts.Values)
    ensures Shows(w, after, layoutsAfter, MergeAt(w, existing, plans, order, k + 1))
  {
    var g := order[k];
    ExcessAllOf(plans, g, existing[g]);
    MergeAtNext(w, existing, plans, order, k);
    var toAdd := Excess(group, existing[g]);
    after, layoutsAfter := AppendGroup(w, lists, layouts, g, group[0].person, toAdd,
                                       MergeAt(w, existing, plans, order, k));
  }

  method EmitGroups(w: World, plans: seq<seq<Item>>, best: Groups, existing: multiset<Group>, start: Lists)
    returns (lists: Lists)
    requires w.Valid() && Holds(best, Order(plans), OfPlans(plans)) && start == ListsOf(BaseMerge(w.base))
    ensures lists == ListsOf(MergeAt(w, existing, plans, Order(plans), |Order(plans)|))
  {
    lists := start;
    var layouts: map<string, SurfaceLayout> := map[];
    for k := 0 to |best.order|
      invariant fresh(layouts.Values) && Shows(w, lists, layouts, MergeAt(w, existing, plans, best.order, k))
    {
      GroupIsBest(plans, best, k);
      lists, layouts := EmitGroup(w, plans, best.order, existing, k, best.items[best.order[k]], lists, layouts);
    }
  }
}
