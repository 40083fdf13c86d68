/** Merging the plans of a battery into one scenario: per group the largest plan wins, and only its
    excess over the base scenario is appended. */
module EmitScenario {
  import opened Geometry
  import opened Packing
  import opened Spawn

  /** Items of a plan that belong to group g, in plan order. */
  function ItemsOf(plan: seq<Item>, g: Group): seq<Item> {
    if plan == [] then []
    else
      var before, item := ItemsOf(plan[..|plan| - 1], g), plan[|plan| - 1];
      if GroupOf(item) == g then before + [item] else before
  }

  /** The first of the longest groups g among the plans; [] if no plan has one. */
  function Best(plans: seq<seq<Item>>, g: Group): seq<Item> {
    if plans == [] then []
    else
      var before, last := Best(plans[..|plans| - 1], g), ItemsOf(plans[|plans| - 1], g);
      if |last| > |before| then last else before
  }

  /** Groups in the order in which they are first met. */
  function MeetItems(order: seq<Group>, plan: seq<Item>): seq<Group> {
    if plan == [] then order
    else
      var before, g := MeetItems(order, plan[..|plan| - 1]), GroupOf(plan[|plan| - 1]);
      if g in before then before else before + [g]
  }

  function Order(plans: seq<seq<Item>>): seq<Group> {
    if plans == [] then [] else MeetItems(Order(plans[..|plans| - 1]), plans[|plans| - 1])
  }

  /** What is appended for one group beyond the existing count. */
  function Excess(items: seq<Item>, existing: nat): seq<Item> {
    if existing >= |items| then [] else items[existing..]
  }

  /** A merge in progress: the two record lists, the items appended and refused so far, and what is
      reserved at the spots already used. */
  datatype Merge = Merge(actors: seq<Record>, objects: seq<Record>, added: seq<Item>, refused: seq<Item>,
                         layouts: map<string, seq<Rect>>)

  /** What is reserved at a spot: on first use, the base objects there. */
  function ReservedAt(w: World, reserved: map<string, seq<Rect>>, where: string): seq<Rect>
    requires w.Valid()
  {
    if where in reserved then reserved[where] else BaseRects(w, w.base.objects, where)
  }

  function LayoutAt(w: World, m: Merge, where: string): seq<Rect>
    requires w.Valid()
  {
    ReservedAt(w, m.layouts, where)
  }

  function RecordOf(item: Item, where: string, xyz: Xyz): Record { Record(Suffixed(item.id, where), item.asset, xyz) }

  /** The items with the centre each gets, None for a refused one. */
  datatype Slot = Slot(item: Item, xyz: Option<Xyz>)

  function Slots(w: World, m: Merge, g: Group, items: seq<Item>): (slots: seq<Slot>)
    requires w.Valid() && items != []
    ensures |slots| == |items| && forall i :: 0 <= i < |items| ==> slots[i].item == items[i]
  {
    if !OnSpot(w, items[0]) then seq(|items|, i requires 0 <= i < |items| => Slot(items[i], Some(items[i].xyz)))
    else
      var spot := w.spots[items[0].spot];
      var xys := RoundAll(PackAll(SurfaceOf(spot), LayoutAt(w, m, g.where), SameSize(Footprint(g.asset), |items|)));
      seq(|items|, i requires 0 <= i < |items| =>
        Slot(items[i], if xys[i].Some? then Some(Xyz(xys[i].value.x, xys[i].value.y, spot.xyz.z)) else None))
  }

  function SameSize(f: Size, n: nat): seq<Size> { seq(n, _ => f) }

  function ReservedAfter(w: World, m: Merge, g: Group, items: seq<Item>): map<string, seq<Rect>>
    requires w.Valid() && items != []
  {
    if !OnSpot(w, items[0]) then m.layouts
    else
      var occupied, fs := LayoutAt(w, m, g.where), SameSize(Footprint(g.asset), |items|);
      m.layouts[g.where := ReserveAll(occupied, PackAll(SurfaceOf(w.spots[items[0].spot]), occupied, fs), fs)]
  }

  /** One slot after the other: a placed item is appended as a record, a refused one is left out. */
  function Append(m: Merge, where: string, person: bool, slots: seq<Slot>): Merge {
    if slots == [] then m
    else
      var n := |slots| - 1;
      AppendOne(Append(m, where, person, slots[..n]), where, person, slots[n])
  }

  function AppendOne(m: Merge, where: string, person: bool, s: Slot): Merge {
    if s.xyz.None? then m.(refused := m.refused + [s.item])
    else if person then m.(actors := m.actors + [RecordOf(s.item, where, s.xyz.value)], added := m.added + [s.item])
    else m.(objects := m.objects + [RecordOf(s.item, where, s.xyz.value)], added := m.added + [s.item])
  }

  /** Where a group's items go: one slot per item, and the reservations afterwards. */
  datatype Placement = Placement(slots: seq<Slot>, layouts: map<string, seq<Rect>>)

  function Placer(w: World): (Merge, Group, seq<Item>) -> Placement
    requires w.Valid()
  {
    (m: Merge, g: Group, items: seq<Item>) =>
      if items == [] then Placement([], m.layouts) else Placement(Slots(w, m, g, items), ReservedAfter(w, m, g, items))
  }

  function MergeGroup(m: Merge, g: Group, items: seq<Item>, person: bool,
                      place: (Merge, Group, seq<Item>) -> Placement): Merge {
    if items == [] then m
    else
      var p := place(m, g, items);
      Append(m, g.where, person, p.slots).(layouts := p.layouts)
  }

  function GroupTarget(counts: multiset<Group>, plans: seq<seq<Item>>, g: Group): seq<Item> {
    Excess(Best(plans, g), counts[g])
  }

  function GroupIsPersons(plans: seq<seq<Item>>, g: Group): bool { Best(plans, g) != [] && Best(plans, g)[0].person }

  /** The merge after the first k groups, in the order they were met, over what counts says exists. */
  function Emit(start: Merge, counts: multiset<Group>, plans: seq<seq<Item>>, order: seq<Group>,
                place: (Merge, Group, seq<Item>) -> Placement, k: nat): Merge
    requires k <= |order|
  {
    if k == 0 then start
    else
      var g := order[k - 1];
      MergeGroup(Emit(start, counts, plans, order, place, k - 1), g, GroupTarget(counts, plans, g),
                 GroupIsPersons(plans, g), place)
  }

  function BaseCounts(w: World): multiset<Group>
    requires w.Valid()
  {
    multiset(BaseGroups(w))
  }

  function BaseMerge(base: Scenario): Merge { Merge(base.actors, base.objects, [], [], map[]) }

  function Emitted(w: World, plans: seq<seq<Item>>): Merge
    requires w.Valid()
  {
    Emit(BaseMerge(w.base), BaseCounts(w), plans, Order(plans), Placer(w), |Order(plans)|)
  }

  function MergedScenario(w: World, plans: seq<seq<Item>>): Scenario
    requires w.Valid()
  {
    Scenario(Emitted(w, plans).actors, Emitted(w, plans).objects)
  }

  // -------------------------------------------------------------------- laws

  /** The winning group is at least as long as any plan's, and is one of them (or there is none). */
  lemma {:induction false} BestIsLongest(plans: seq<seq<Item>>, g: Group)
    ensures forall k :: 0 <= k < |plans| ==> |ItemsOf(plans[k], g)| <= |Best(plans, g)|
    ensures Best(plans, g) == [] || exists k :: 0 <= k < |plans| && Best(plans, g) == ItemsOf(plans[k], g)
  {
    if plans != [] {
      var n := |plans| - 1;
      BestIsLongest(plans[..n], g);
      if Best(plans, g) != [] && |ItemsOf(plans[n], g)| <= |Best(plans[..n], g)| {
        var k :| 0 <= k < n && Best(plans[..n], g) == ItemsOf(plans[..n][k], g);
        assert plans[k] == plans[..n][k];
      }
    }
  }

  lemma LongestOrderFree(plans: seq<seq<Item>>, others: seq<seq<Item>>, g: Group)
    requires forall p :: p in plans ==> p in others
    ensures |Best(plans, g)| <= |Best(others, g)|
  {
    BestIsLongest(plans, g);
    BestIsLongest(others, g);
    if Best(plans, g) != [] {
      var k :| 0 <= k < |plans| && Best(plans, g) == ItemsOf(plans[k], g);
      assert plans[k] in others;
    }
  }

  lemma {:induction false} ItemsOfAreOf(plan: seq<Item>, g: Group)
    ensures forall i :: 0 <= i < |ItemsOf(plan, g)| ==> GroupOf(ItemsOf(plan, g)[i]) == g
    ensures |ItemsOf(plan, g)| == Wanted(plan)[g]
  {
    if plan != [] {
      var n := |plan| - 1;
      ItemsOfAreOf(plan[..n], g);
      SeenPrefix(plan, n, n);
    }
  }

  lemma {:induction false} SeenPrefix(plan: seq<Item>, n: nat, k: nat)
    requires k <= n <= |plan|
    ensures Seen(plan[..n], k) == Seen(plan, k)
  {
    if k > 0 { SeenPrefix(plan, n, k - 1); }
  }

  /** How many of the items belong to g. */
  function CountOf(items: seq<Item>, g: Group): nat { Wanted(items)[g] }

  lemma CountAppend(items: seq<Item>, item: Item, g: Group)
    ensures CountOf(items + [item], g) == CountOf(items, g) + if GroupOf(item) == g then 1 else 0
  {
    SeenPrefix(items + [item], |items|, |items|);
    assert (items + [item])[..|items|] == items;
  }

  predicate AllOf(slots: seq<Slot>, g: Group) { forall i :: 0 <= i < |slots| ==> GroupOf(slots[i].item) == g }

  /** Appending a group's slots accounts for each of them, and for nothing of another group. */
  lemma {:induction false} AppendCounts(m: Merge, person: bool, slots: seq<Slot>, g: Group, h: Group)
    requires AllOf(slots, g)
    ensures var after := Append(m, g.where, person, slots);
      CountOf(after.added, h) + CountOf(after.refused, h)
      == CountOf(m.added, h) + CountOf(m.refused, h) + if h == g then |slots| else 0
  {
    if slots != [] {
      var n := |slots| - 1;
      AppendCounts(m, person, slots[..n], g, h);
      var before := Append(m, g.where, person, slots[..n]);
      CountAppend(before.added, slots[n].item, h);
      CountAppend(before.refused, slots[n].item, h);
    }
  }

  // The groups of the merge, in the order they are met: each once, and exactly those with items.

  predicate Distinct(gs: seq<Group>) { forall i, j :: 0 <= i < j < |gs| ==> gs[i] != gs[j] }

  lemma {:induction false} MeetItemsLaw(order: seq<Group>, plan: seq<Item>, g: Group)
    requires Distinct(order)
    ensures Distinct(MeetItems(order, plan))
    ensures g in MeetItems(order, plan) <==> g in order || ItemsOf(plan, g) != []
  {
    if plan != [] { MeetItemsLaw(order, plan[..|plan| - 1], g); }
  }

  lemma {:induction false} OrderLaw(plans: seq<seq<Item>>, g: Group)
    ensures Distinct(Order(plans)) && (g in Order(plans) <==> Best(plans, g) != [])
  {
    if plans != [] {
      OrderLaw(plans[..|plans| - 1], g);
      MeetItemsLaw(Order(plans[..|plans| - 1]), plans[|plans| - 1], g);
    }
  }

  /** A placer answers with one slot per item, in order. */
  ghost predicate Honest(place: (Merge, Group, seq<Item>) -> Placement) {
    forall m, g, items :: SlotsOf(place(m, g, items).slots, items)
  }

  predicate SlotsOf(slots: seq<Slot>, items: seq<Item>) {
    |slots| == |items| && forall i :: 0 <= i < |items| ==> slots[i].item == items[i]
  }

  lemma PlacerHonest(w: World)
    requires w.Valid()
    ensures Honest(Placer(w))
  {
  }

  lemma ExcessAllOf(plans: seq<seq<Item>>, g: Group, existing: nat)
    ensures var items := Excess(Best(plans, g), existing);
      |items| == (if existing >= |Best(plans, g)| then 0 else |Best(plans, g)| - existing)
      && forall i :: 0 <= i < |items| ==> GroupOf(items[i]) == g
  {
    BestIsLongest(plans, g);
    if Best(plans, g) != [] {
      var k :| 0 <= k < |plans| && Best(plans, g) == ItemsOf(plans[k], g);
      ItemsOfAreOf(plans[k], g);
    }
  }

  function Handled(m: Merge, h: Group): nat { CountOf(m.added, h) + CountOf(m.refused, h) }

  lemma MergeGroupCounts(plans: seq<seq<Item>>, m: Merge, g: Group, counts: multiset<Group>, person: bool,
                         place: (Merge, Group, seq<Item>) -> Placement, h: Group, after: Merge)
    requires Honest(place) && after == MergeGroup(m, g, GroupTarget(counts, plans, g), person, place)
    ensures Handled(after, h) == Handled(m, h) + if h == g then |GroupTarget(counts, plans, g)| else 0
  {
    var items := GroupTarget(counts, plans, g);
    ExcessAllOf(plans, g, counts[g]);
    if items != [] {
      var slots := place(m, g, items).slots;
      assert SlotsOf(slots, items);
      assert AllOf(slots, g);
      AppendCounts(m, person, slots, g, h);
    }
  }

  lemma {:induction false} EmitCounts(start: Merge, counts: multiset<Group>, plans: seq<seq<Item>>, order: seq<Group>,
                                      place: (Merge, Group, seq<Item>) -> Placement, k: nat, h: Group)
    requires Honest(place) && k <= |order| && Distinct(order) && start.added == start.refused == []
    ensures Handled(Emit(start, counts, plans, order, place, k), h)
            == if h in order[..k] then |GroupTarget(counts, plans, h)| else 0
  {
    if k > 0 {
      var g := order[k - 1];
      EmitCounts(start, counts, plans, order, place, k - 1, h);
      MergeGroupCounts(plans, Emit(start, counts, plans, order, place, k - 1), g, counts, GroupIsPersons(plans, g), place,
                       h, Emit(start, counts, plans, order, place, k));
      PrefixHas(order, k, h);
    }
  }

  lemma PrefixHas(order: seq<Group>, k: nat, h: Group)
    requires 0 < k <= |order| && Distinct(order)
    ensures h in order[..k] <==> h in order[..k - 1] || h == order[k - 1]
    ensures !(h in order[..k - 1] && h == order[k - 1])
  {
    assert order[..k] == order[..k - 1] + [order[k - 1]];
  }

  lemma CountIsLength(plans: seq<seq<Item>>, g: Group)
    ensures forall k :: 0 <= k < |plans| ==> CountOf(plans[k], g) <= |Best(plans, g)|
    ensures plans != [] ==> exists k :: 0 <= k < |plans| && CountOf(plans[k], g) == |Best(plans, g)|
  {
    BestIsLongest(plans, g);
    forall k | 0 <= k < |plans| ensures CountOf(plans[k], g) == |ItemsOf(plans[k], g)| { ItemsOfAreOf(plans[k], g); }
    if plans != [] && Best(plans, g) == [] { assert |ItemsOf(plans[0], g)| == 0; }
  }

  /** Per group, the items appended and the items refused for room number together the excess of the
      largest plan - the largest count of the group in any one plan - over the base scenario. */
  lemma MergeTarget(w: World, plans: seq<seq<Item>>, g: Group)
    requires w.Valid()
    ensures var largest, base := |Best(plans, g)|, BaseCounts(w)[g];
      CountOf(Emitted(w, plans).added, g) + CountOf(Emitted(w, plans).refused, g)
      == if base >= largest then 0 else largest - base
    ensures forall k :: 0 <= k < |plans| ==> CountOf(plans[k], g) <= |Best(plans, g)|
    ensures plans != [] ==> exists k :: 0 <= k < |plans| && CountOf(plans[k], g) == |Best(plans, g)|
  {
    CountIsLength(plans, g);
    PlacerHonest(w);
    HandledIsTarget(BaseMerge(w.base), BaseCounts(w), plans, Placer(w), g);
  }

  lemma HandledIsTarget(start: Merge, counts: multiset<Group>, plans: seq<seq<Item>>,
                        place: (Merge, Group, seq<Item>) -> Placement, g: Group)
    requires Honest(place) && start.added == start.refused == []
    ensures Handled(Emit(start, counts, plans, Order(plans), place, |Order(plans)|), g)
            == if counts[g] >= |Best(plans, g)| then 0 else |Best(plans, g)| - counts[g]
  {
    var order := Order(plans);
    OrderLaw(plans, g);
    EmitCounts(start, counts, plans, order, place, |order|, g);
    assert order[..|order|] == order;
  }

  /** Two batteries with the same plans, in any order and multiplicity, handle equally many items of
      every group. */
  lemma MergeOrderFree(w: World, plans: seq<seq<Item>>, others: seq<seq<Item>>, g: Group)
    requires w.Valid() && (forall p :: p in plans <==> p in others)
    ensures Handled(Emitted(w, plans), g) == Handled(Emitted(w, others), g)
  {
    MergeTarget(w, plans, g);
    MergeTarget(w, others, g);
    LongestOrderFree(plans, others, g);
    LongestOrderFree(others, plans, g);
  }

  // --------------------------------------------------------- emitting again

  /** r was appended by a merge and its nearest place is the one it was merged for. */
  predicate Own(near: Pt -> Option<string>, r: Record) { r.id.Suffixed? && near(r.xyz.Xy()) == Some(r.id.where) }

  /** Every record after the first a actors and b objects is its own nearest. */
  predicate OwnBeyond(near: Pt -> Option<string>, base: Scenario, m: Merge) {
    && (forall i :: |base.actors| <= i < |m.actors| ==> Own(near, m.actors[i]))
    && (forall i :: |base.objects| <= i < |m.objects| ==> Own(near, m.objects[i]))
  }

  predicate Extends(base: Scenario, m: Merge) { base.actors <= m.actors && base.objects <= m.objects }

  function ScenarioOf(m: Merge): Scenario { Scenario(m.actors, m.objects) }

  /** What counts as present in a scenario. */
  function Counted(near: Pt -> Option<string>, s: Scenario): multiset<Group> {
    multiset(RecordGroups(near, s.actors)) + multiset(RecordGroups(near, s.objects))
  }

  /** All that counts is what the base counts and the added items. */
  predicate CountedRight(near: Pt -> Option<string>, base: Scenario, m: Merge) {
    Counted(near, ScenarioOf(m)) == Counted(near, base) + Wanted(m.added)
  }

  lemma RecordGroupsAppend(near: Pt -> Option<string>, rs: seq<Record>, r: Record)
    requires Own(near, r)
    ensures multiset(RecordGroups(near, rs + [r])) == multiset(RecordGroups(near, rs)) + multiset{Group(r.asset, r.id.where)}
  {
    assert (rs + [r])[..|rs|] == rs;
  }

  lemma WantedAppend(items: seq<Item>, item: Item)
    ensures Wanted(items + [item]) == Wanted(items) + multiset{GroupOf(item)}
  {
    SeenPrefix(items + [item], |items|, |items|);
    assert (items + [item])[..|items|] == items;
  }

  lemma AddedRecord(near: Pt -> Option<string>, base: Scenario, m: Merge, g: Group, person: bool, s: Slot, after: Merge)
    requires GroupOf(s.item) == g && s.xyz.Some? && after == AppendOne(m, g.where, person, s)
    requires Extends(base, m) && OwnBeyond(near, base, after)
    ensures var r := RecordOf(s.item, g.where, s.xyz.value);
      Own(near, r) && Group(r.asset, r.id.where) == g
      && Counted(near, ScenarioOf(after)) == Counted(near, ScenarioOf(m)) + multiset{g}
  {
    var r := RecordOf(s.item, g.where, s.xyz.value);
    if person {
      assert after.actors[|m.actors|] == r;
      RecordGroupsAppend(near, m.actors, r);
    } else {
      assert after.objects[|m.objects|] == r;
      RecordGroupsAppend(near, m.objects, r);
    }
  }

  lemma AppendOneCounted(near: Pt -> Option<string>, base: Scenario, m: Merge, g: Group, person: bool, s: Slot, after: Merge)
    requires GroupOf(s.item) == g && after == AppendOne(m, g.where, person, s)
    requires Extends(base, m) && OwnBeyond(near, base, after) && CountedRight(near, base, m)
    ensures CountedRight(near, base, after)
  {
    if s.xyz.Some? {
      AddedRecord(near, base, m, g, person, s, after);
      WantedAppend(m.added, s.item);
    }
  }

  lemma OwnBefore(near: Pt -> Option<string>, base: Scenario, a: Merge, b: Merge)
    requires a.actors <= b.actors && a.objects <= b.objects && OwnBeyond(near, base, b)
    ensures OwnBeyond(near, base, a)
  {
    assert forall i :: 0 <= i < |a.actors| ==> a.actors[i] == b.actors[i];
    assert forall i :: 0 <= i < |a.objects| ==> a.objects[i] == b.objects[i];
  }

  lemma {:induction false} AppendExtends(m: Merge, where: string, person: bool, slots: seq<Slot>)
    ensures Extends(ScenarioOf(m), Append(m, where, person, slots))
  {
    if slots != [] { AppendExtends(m, where, person, slots[..|slots| - 1]); }
  }

  /** What counts grows with what is added, as long as every appended record is its own nearest. */
  lemma {:induction false} AppendCounted(near: Pt -> Option<string>, base: Scenario, m: Merge, g: Group, person: bool,
                                         slots: seq<Slot>, after: Merge)
    requires AllOf(slots, g) && Extends(base, m) && after == Append(m, g.where, person, slots)
    requires OwnBeyond(near, base, after) && CountedRight(near, base, m)
    ensures CountedRight(near, base, after)
  {
    if slots != [] {
      var n := |slots| - 1;
      var before := Append(m, g.where, person, slots[..n]);
      AppendExtends(m, g.where, person, slots[..n]);
      OwnBefore(near, base, before, after);
      AppendCounted(near, base, m, g, person, slots[..n], before);
      AppendOneCounted(near, base, before, g, person, slots[n], after);
    }
  }

  lemma MergeGroupExtends(m: Merge, g: Group, items: seq<Item>, person: bool,
                          place: (Merge, Group, seq<Item>) -> Placement)
    ensures Extends(ScenarioOf(m), MergeGroup(m, g, items, person, place))
  {
    if items != [] { AppendExtends(m, g.where, person, place(m, g, items).slots); }
  }

  lemma MergeGroupCounted(near: Pt -> Option<string>, base: Scenario, counts: multiset<Group>, plans: seq<seq<Item>>,
                          m: Merge, g: Group, person: bool, place: (Merge, Group, seq<Item>) -> Placement, after: Merge)
    requires Honest(place) && Extends(base, m) && CountedRight(near, base, m)
    requires after == MergeGroup(m, g, GroupTarget(counts, plans, g), person, place) && OwnBeyond(near, base, after)
    ensures CountedRight(near, base, after)
  {
    var items := GroupTarget(counts, plans, g);
    if items != [] {
      ExcessAllOf(plans, g, counts[g]);
      var slots := place(m, g, items).slots;
      assert SlotsOf(slots, items);
      assert AllOf(slots, g);
      AppendCounted(near, base, m, g, person, slots, Append(m, g.where, person, slots));
    }
  }

  /** The base scenario is never changed: its records come first in the merged lists. */
  lemma {:induction false} BaseUnmodified(start: Merge, counts: multiset<Group>, plans: seq<seq<Item>>, order: seq<Group>,
                                          place: (Merge, Group, seq<Item>) -> Placement, k: nat)
    requires k <= |order|
    ensures Extends(ScenarioOf(start), Emit(start, counts, plans, order, place, k))
  {
    if k > 0 {
      var g := order[k - 1];
      BaseUnmodified(start, counts, plans, order, place, k - 1);
      MergeGroupExtends(Emit(start, counts, plans, order, place, k - 1), g, GroupTarget(counts, plans, g),
                        GroupIsPersons(plans, g), place);
    }
  }

  lemma {:induction false} EmitCounted(near: Pt -> Option<string>, start: Merge, counts: multiset<Group>,
                                       plans: seq<seq<Item>>, order: seq<Group>,
                                       place: (Merge, Group, seq<Item>) -> Placement, k: nat)
    requires Honest(place) && k <= |order| && start.added == []
    requires OwnBeyond(near, ScenarioOf(start), Emit(start, counts, plans, order, place, k))
    ensures CountedRight(near, ScenarioOf(start), Emit(start, counts, plans, order, place, k))
  {
    if k > 0 {
      var before := Emit(start, counts, plans, order, place, k - 1);
      EmitExtends(start, counts, plans, order, place, k);
      OwnBefore(near, ScenarioOf(start), before, Emit(start, counts, plans, order, place, k));
      EmitCounted(near, start, counts, plans, order, place, k - 1);
      MergeGroupCounted(near, ScenarioOf(start), counts, plans, before, order[k - 1], GroupIsPersons(plans, order[k - 1]),
                        place, Emit(start, counts, plans, order, place, k));
    }
  }

  lemma EmitExtends(start: Merge, counts: multiset<Group>, plans: seq<seq<Item>>, order: seq<Group>,
                    place: (Merge, Group, seq<Item>) -> Placement, k: nat)
    requires 0 < k <= |order|
    ensures var before, after := Emit(start, counts, plans, order, place, k - 1), Emit(start, counts, plans, order, place, k);
      Extends(ScenarioOf(start), before) && before.actors <= after.actors && before.objects <= after.objects
  {
    var g := order[k - 1];
    BaseUnmodified(start, counts, plans, order, place, k - 1);
    MergeGroupExtends(Emit(start, counts, plans, order, place, k - 1), g, GroupTarget(counts, plans, g),
                      GroupIsPersons(plans, g), place);
  }

  // The same placement table over another base scenario.

  lemma NearestKeeps(w: World, v: World, p: Pt)
    requires w.Valid() && v == w.(base := v.base)
    ensures Near(v)(p) == Near(w)(p)
  {
    assert Table(v) == Table(w);
  }

  lemma {:induction false} RecordGroupsKeep(w: World, v: World, rs: seq<Record>)
    requires w.Valid() && v == w.(base := v.base)
    ensures RecordGroups(Near(v), rs) == RecordGroups(Near(w), rs)
  {
    if rs != [] {
      RecordGroupsKeep(w, v, rs[..|rs| - 1]);
      NearestKeeps(w, v, rs[|rs| - 1].xyz.Xy());
    }
  }

  lemma CountsOver(w: World, s: Scenario)
    requires w.Valid()
    ensures BaseCounts(w.(base := s)) == Counted(Near(w), s)
  {
    RecordGroupsKeep(w, w.(base := s), s.actors);
    RecordGroupsKeep(w, w.(base := s), s.objects);
  }

  lemma {:induction false} NothingToEmit(start: Merge, counts: multiset<Group>, plans: seq<seq<Item>>, order: seq<Group>,
                                         place: (Merge, Group, seq<Item>) -> Placement, k: nat)
    requires k <= |order| && forall g {:trigger Best(plans, g)} :: |Best(plans, g)| <= counts[g]
    ensures Emit(start, counts, plans, order, place, k) == start
  {
    if k > 0 {
      NothingToEmit(start, counts, plans, order, place, k - 1);
      assert |Best(plans, order[k - 1])| <= counts[order[k - 1]];
    }
  }

  lemma EnoughMerged(w: World, plans: seq<seq<Item>>, g: Group)
    requires w.Valid() && Emitted(w, plans).refused == [] && OwnBeyond(Near(w), w.base, Emitted(w, plans))
    ensures |Best(plans, g)| <= BaseCounts(w.(base := MergedScenario(w, plans)))[g]
  {
    PlacerHonest(w);
    MergeTarget(w, plans, g);
    EmitCounted(Near(w), BaseMerge(w.base), BaseCounts(w), plans, Order(plans), Placer(w), |Order(plans)|);
    CountsOver(w, MergedScenario(w, plans));
    CountsOver(w, w.base);
    assert w.(base := w.base) == w;
  }

  /** Emitting the same plans onto the merged scenario changes nothing, provided nothing was refused
      and every appended pose is nearest to the place it was merged for. */
  lemma EmitTwice(w: World, plans: seq<seq<Item>>)
    requires w.Valid() && Emitted(w, plans).refused == [] && OwnBeyond(Near(w), w.base, Emitted(w, plans))
    ensures var merged := MergedScenario(w, plans);
      MergedScenario(w.(base := merged), plans) == merged
  {
    var v := w.(base := MergedScenario(w, plans));
    forall g ensures |Best(plans, g)| <= BaseCounts(v)[g] { EnoughMerged(w, plans, g); }
    NothingToEmit(BaseMerge(v.base), BaseCounts(v), plans, Order(plans), Placer(v), |Order(plans)|);
  }

  /** The merged scenario starts with the base scenario, record by record. */
  lemma BaseComesFirst(w: World, plans: seq<seq<Item>>)
    requires w.Valid()
    ensures w.base.actors <= MergedScenario(w, plans).actors && w.base.objects <= MergedScenario(w, plans).objects
  {
    BaseUnmodified(BaseMerge(w.base), BaseCounts(w), plans, Order(plans), Placer(w), |Order(plans)|);
  }
}
