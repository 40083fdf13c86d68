/** What a merged scenario holds beyond its base, record by record: which planned item each stands for, in
    which list it is, under which id, and where it was put. */
module EmitRecords {
  import opened Geometry
  import opened Packing
  import opened PackingLaws
  import opened Spawn
  import opened SpawnRecords
  import opened SpawnCounts
  import opened EmitScenario

  // ------------------------------------------------------------ one group

  /** Where item i of a group's items is put: where the plan says, unless the first of them has a measured
      spot; then at the centre the group's batch gives it, rounded, at the height of the spot. */
  ghost predicate PutAt(w: World, occupied: seq<Rect>, g: Group, items: seq<Item>, i: nat, xyz: Option<Xyz>)
    requires i < |items|
  {
    var spot := items[0].spot;
    if spot == "" || spot !in w.spots then xyz == Some(items[i].xyz)
    else
      var cs := PackAll(SurfaceOf(w.spots[spot]), occupied, seq(|items|, _ => Footprint(g.asset)));
      match cs[i]
      case None => xyz == None
      case Some(c) => xyz == Some(Xyz(Round4(c.x), Round4(c.y), w.spots[spot].xyz.z))
  }

  lemma SlotPut(w: World, m: Merge, g: Group, items: seq<Item>, i: nat)
    requires w.Valid() && i < |items|
    ensures PutAt(w, LayoutAt(w, m, g.where), g, items, i, Slots(w, m, g, items)[i].xyz)
  {
    assert SameSize(Footprint(g.asset), |items|) == seq(|items|, _ => Footprint(g.asset));
  }

  /** r is the record of an item of the group, put at a place. */
  predicate RecordFor(item: Item, where: string, xyz: Xyz, r: Record) {
    r.id == Suffixed(item.id, where) && r.asset == item.asset && r.xyz == xyz
  }

  /** Record r was appended for one of the slots. */
  predicate FromSlot(slots: seq<Slot>, where: string, r: Record, i: nat)
    requires i < |slots|
  {
    slots[i].xyz.Some? && RecordFor(slots[i].item, where, slots[i].xyz.value, r)
  }

  /** after is m with records appended for slots, all to the actors or all to the objects, and the items of
      the others refused; records has one per slot with a place, in order. */
  predicate Files(m: Merge, where: string, person: bool, slots: seq<Slot>, after: Merge) {
    && after.actors == m.actors + (if person then Filed(slots, where) else [])
    && after.objects == m.objects + (if person then [] else Filed(slots, where))
    && after.refused == m.refused + Unplaced(slots)
  }

  function Filed(slots: seq<Slot>, where: string): seq<Record> {
    if slots == [] then []
    else
      var before, s := Filed(slots[..|slots| - 1], where), slots[|slots| - 1];
      if s.xyz.None? then before else before + [Record(Suffixed(s.item.id, where), s.item.asset, s.xyz.value)]
  }

  function Unplaced(slots: seq<Slot>): seq<Item> {
    if slots == [] then []
    else
      var before, s := Unplaced(slots[..|slots| - 1]), slots[|slots| - 1];
      if s.xyz.None? then before + [s.item] else before
  }

  lemma {:induction false} AppendFiles(m: Merge, where: string, person: bool, slots: seq<Slot>)
    ensures Files(m, where, person, slots, Append(m, where, person, slots))
  {
    if slots != [] { AppendFiles(m, where, person, slots[..|slots| - 1]); }
  }

  lemma {:induction false} FiledHas(slots: seq<Slot>, where: string, r: Record, n: nat)
    requires n <= |slots|
    ensures r in Filed(slots[..n], where) <==> exists i :: 0 <= i < n && FromSlot(slots, where, r, i)
  {
    if n > 0 {
      FiledHas(slots, where, r, n - 1);
      assert slots[..n][..n - 1] == slots[..n - 1];
      var now := FromSlot(slots, where, r, n - 1);
      assert r in Filed(slots[..n], where) <==> r in Filed(slots[..n - 1], where) || now;
      assert (exists i :: 0 <= i < n && FromSlot(slots, where, r, i))
        <==> (exists i :: 0 <= i < n - 1 && FromSlot(slots, where, r, i)) || now;
    }
  }

  predicate NoPlace(slots: seq<Slot>, item: Item, i: nat)
    requires i < |slots|
  {
    slots[i].xyz.None? && slots[i].item == item
  }

  lemma {:induction false} UnplacedHas(slots: seq<Slot>, item: Item, n: nat)
    requires n <= |slots|
    ensures item in Unplaced(slots[..n]) <==> exists i :: 0 <= i < n && NoPlace(slots, item, i)
  {
    if n > 0 {
      UnplacedHas(slots, item, n - 1);
      assert slots[..n][..n - 1] == slots[..n - 1];
      var now := NoPlace(slots, item, n - 1);
      assert item in Unplaced(slots[..n]) <==> item in Unplaced(slots[..n - 1]) || now;
      assert (exists i :: 0 <= i < n && NoPlace(slots, item, i))
        <==> (exists i :: 0 <= i < n - 1 && NoPlace(slots, item, i)) || now;
    }
  }

  // ------------------------------------------------------------ the whole merge

  /** The merge after k groups. */
  ghost function At(w: World, plans: seq<seq<Item>>, k: nat): Merge
    requires w.Valid() && k <= |Order(plans)|
  {
    Emit(BaseMerge(w.base), BaseCounts(w), plans, Order(plans), Placer(w), k)
  }

  /** The items of a group that are beyond what the base scenario has of it. */
  function Beyond(group: seq<Item>, existing: nat): seq<Item> { if existing >= |group| then [] else group[existing..] }

  /** r stands for item j of the k-th group beyond the base; the group is led by a person, or it is not. */
  ghost predicate StandsFor(w: World, plans: seq<seq<Item>>, person: bool, r: Record, k: nat, j: nat)
    requires w.Valid()
  {
    && k < |Order(plans)|
    && var g := Order(plans)[k];
      var group := Best(plans, g);
      var items := Beyond(group, BaseCounts(w)[g]);
      && j < |items| && group[0].person == person
      && RecordFor(items[j], g.where, r.xyz, r)
      && PutAt(w, ReservedAt(w, At(w, plans, k).layouts, g.where), g, items, j, Some(r.xyz))
  }

  ghost predicate StandsForSome(w: World, plans: seq<seq<Item>>, person: bool, r: Record, n: nat)
    requires w.Valid()
  {
    exists k: nat, j: nat :: k < n && StandsFor(w, plans, person, r, k, j)
  }

  /** The k-th group is the longest of its kind and not empty. */
  lemma GroupAt(plans: seq<seq<Item>>, k: nat)
    requires k < |Order(plans)|
    ensures Best(plans, Order(plans)[k]) != []
  {
    OrderLaw(plans, Order(plans)[k]);
  }

  /** What the k-th group adds. */
  ghost predicate Adds(w: World, plans: seq<seq<Item>>, k: nat, slots: seq<Slot>)
    requires w.Valid() && k < |Order(plans)| && Best(plans, Order(plans)[k]) != []
  {
    var g := Order(plans)[k];
    var group, m := Best(plans, g), At(w, plans, k);
    var items := Beyond(group, BaseCounts(w)[g]);
    && |slots| == |items|
    && (forall i :: 0 <= i < |items| ==> slots[i].item == items[i])
    && (forall i :: 0 <= i < |items| ==> PutAt(w, ReservedAt(w, m.layouts, g.where), g, items, i, slots[i].xyz))
    && Files(m, g.where, group[0].person, slots, At(w, plans, k + 1))
  }

  /** Each group's items beyond the base are filed in one step, all in the list the first of the group
      belongs to. */
  lemma GroupAdds(w: World, plans: seq<seq<Item>>, k: nat) returns (slots: seq<Slot>)
    requires w.Valid() && k < |Order(plans)|
    ensures Best(plans, Order(plans)[k]) != [] && Adds(w, plans, k, slots)
  {
    GroupAt(plans, k);
    var g := Order(plans)[k];
    var m, items := At(w, plans, k), GroupTarget(BaseCounts(w), plans, g);
    if items == [] {
      slots := [];
      assert m.actors + [] == m.actors && m.objects + [] == m.objects && m.refused + [] == m.refused;
    } else {
      slots := Slots(w, m, g, items);
      forall i | 0 <= i < |items| ensures PutAt(w, ReservedAt(w, m.layouts, g.where), g, items, i, slots[i].xyz) {
        SlotPut(w, m, g, items, i);
      }
      AppendFiles(m, g.where, Best(plans, g)[0].person, slots);
    }
  }

  lemma PutOnce(w: World, occupied: seq<Rect>, g: Group, items: seq<Item>, i: nat, a: Option<Xyz>, b: Option<Xyz>)
    requires i < |items| && PutAt(w, occupied, g, items, i, a) && PutAt(w, occupied, g, items, i, b)
    ensures a == b
  {
  }

  /** What a group adds stands for its items. */
  lemma AddedStands(w: World, plans: seq<seq<Item>>, k: nat, slots: seq<Slot>, r: Record, person: bool)
    requires w.Valid() && k < |Order(plans)| && Best(plans, Order(plans)[k]) != [] && Adds(w, plans, k, slots)
    ensures person == Best(plans, Order(plans)[k])[0].person ==>
      (r in Filed(slots, Order(plans)[k].where) <==> exists j: nat :: StandsFor(w, plans, person, r, k, j))
    ensures person != Best(plans, Order(plans)[k])[0].person ==> forall j: nat :: !StandsFor(w, plans, person, r, k, j)
  {
    var g := Order(plans)[k];
    FiledHas(slots, g.where, r, |slots|);
    assert slots[..|slots|] == slots;
    forall j: nat | j < |slots| && person == Best(plans, g)[0].person
      ensures FromSlot(slots, g.where, r, j) <==> StandsFor(w, plans, person, r, k, j)
    {
      SlotStands(w, plans, k, slots, r, person, j);
    }
  }

  lemma SlotStands(w: World, plans: seq<seq<Item>>, k: nat, slots: seq<Slot>, r: Record, person: bool, j: nat)
    requires w.Valid() && k < |Order(plans)| && Best(plans, Order(plans)[k]) != [] && Adds(w, plans, k, slots)
    requires j < |slots| && person == Best(plans, Order(plans)[k])[0].person
    ensures FromSlot(slots, Order(plans)[k].where, r, j) <==> StandsFor(w, plans, person, r, k, j)
  {
    var g := Order(plans)[k];
    var items, occupied := Beyond(Best(plans, g), BaseCounts(w)[g]), ReservedAt(w, At(w, plans, k).layouts, g.where);
    if StandsFor(w, plans, person, r, k, j) { PutOnce(w, occupied, g, items, j, slots[j].xyz, Some(r.xyz)); }
  }

  /** The records of one list beyond the base. */
  function Appended(w: World, m: Merge, person: bool): seq<Record>
    requires |m.actors| >= |w.base.actors| && |m.objects| >= |w.base.objects|
  {
    if person then m.actors[|w.base.actors|..] else m.objects[|w.base.objects|..]
  }

  lemma AtLeastBase(w: World, plans: seq<seq<Item>>, k: nat)
    requires w.Valid() && k <= |Order(plans)|
    ensures |At(w, plans, k).actors| >= |w.base.actors| && |At(w, plans, k).objects| >= |w.base.objects|
  {
    BaseUnmodified(BaseMerge(w.base), BaseCounts(w), plans, Order(plans), Placer(w), k);
  }

  lemma AppendedNext(w: World, plans: seq<seq<Item>>, k: nat, slots: seq<Slot>, person: bool)
    requires w.Valid() && k < |Order(plans)| && Best(plans, Order(plans)[k]) != [] && Adds(w, plans, k, slots)
    requires |At(w, plans, k).actors| >= |w.base.actors| && |At(w, plans, k).objects| >= |w.base.objects|
    ensures |At(w, plans, k + 1).actors| >= |w.base.actors| && |At(w, plans, k + 1).objects| >= |w.base.objects|
    ensures Appended(w, At(w, plans, k + 1), person) == Appended(w, At(w, plans, k), person)
            + if person == Best(plans, Order(plans)[k])[0].person then Filed(slots, Order(plans)[k].where) else []
  {
    var g := Order(plans)[k];
    FiledAppended(w, At(w, plans, k), g.where, Best(plans, g)[0].person, slots, At(w, plans, k + 1), person);
  }

  lemma FiledAppended(w: World, m: Merge, where: string, first: bool, slots: seq<Slot>, after: Merge, person: bool)
    requires |m.actors| >= |w.base.actors| && |m.objects| >= |w.base.objects| && Files(m, where, first, slots, after)
    ensures |after.actors| >= |w.base.actors| && |after.objects| >= |w.base.objects|
    ensures Appended(w, after, person) == Appended(w, m, person) + if person == first then Filed(slots, where) else []
  {
    SuffixGrows(m.actors, if first then Filed(slots, where) else [], |w.base.actors|);
    SuffixGrows(m.objects, if first then [] else Filed(slots, where), |w.base.objects|);
  }

  lemma SuffixGrows(a: seq<Record>, b: seq<Record>, n: nat)
    requires n <= |a|
    ensures (a + b)[n..] == a[n..] + b
  {
  }

  lemma {:induction false} AppendedStand(w: World, plans: seq<seq<Item>>, person: bool, r: Record, n: nat)
    requires w.Valid() && n <= |Order(plans)|
    ensures |At(w, plans, n).actors| >= |w.base.actors| && |At(w, plans, n).objects| >= |w.base.objects|
    ensures r in Appended(w, At(w, plans, n), person) <==> StandsForSome(w, plans, person, r, n)
  {
    AtLeastBase(w, plans, n);
    if n > 0 {
      var k := n - 1;
      AppendedStand(w, plans, person, r, k);
      var slots := GroupAdds(w, plans, k);
      AppendedNext(w, plans, k, slots, person);
      AddedStands(w, plans, k, slots, r, person);
      StandsNext(w, plans, person, r, k);
    } else {
      assert At(w, plans, 0) == BaseMerge(w.base);
    }
  }

  lemma StandsNext(w: World, plans: seq<seq<Item>>, person: bool, r: Record, k: nat)
    requires w.Valid() && k < |Order(plans)|
    ensures StandsForSome(w, plans, person, r, k + 1) <==>
      StandsForSome(w, plans, person, r, k) || exists j: nat :: StandsFor(w, plans, person, r, k, j)
  {
    if StandsForSome(w, plans, person, r, k) {
      var i: nat, j: nat :| i < k && StandsFor(w, plans, person, r, i, j);
    }
  }

  /** The merged actors beyond the base are exactly the records of the items beyond the base of those groups
      whose first item is a person, and the merged objects those of the other groups - each under its own
      id and place, where its plan or its batch puts it. */
  lemma MergedStandsForItems(w: World, plans: seq<seq<Item>>, r: Record)
    requires w.Valid()
    ensures w.base.actors <= MergedScenario(w, plans).actors && w.base.objects <= MergedScenario(w, plans).objects
    ensures r in MergedScenario(w, plans).actors[|w.base.actors|..] <==> StandsForSome(w, plans, true, r, |Order(plans)|)
    ensures r in MergedScenario(w, plans).objects[|w.base.objects|..] <==> StandsForSome(w, plans, false, r, |Order(plans)|)
  {
    BaseComesFirst(w, plans);
    AppendedStand(w, plans, true, r, |Order(plans)|);
    AppendedStand(w, plans, false, r, |Order(plans)|);
    assert At(w, plans, |Order(plans)|) == Emitted(w, plans);
  }

  // ------------------------------------------------------------------- refusals

  /** Item j of the k-th group beyond the base got no centre. */
  ghost predicate RefusedAt(w: World, plans: seq<seq<Item>>, item: Item, k: nat, j: nat)
    requires w.Valid()
  {
    && k < |Order(plans)|
    && var g := Order(plans)[k];
      var items := Beyond(Best(plans, g), BaseCounts(w)[g]);
      j < |items| && items[j] == item && PutAt(w, ReservedAt(w, At(w, plans, k).layouts, g.where), g, items, j, None)
  }

  ghost predicate RefusedBelow(w: World, plans: seq<seq<Item>>, item: Item, n: nat)
    requires w.Valid()
  {
    exists k: nat, j: nat :: k < n && RefusedAt(w, plans, item, k, j)
  }

  lemma UnplacedRefused(w: World, plans: seq<seq<Item>>, k: nat, slots: seq<Slot>, item: Item)
    requires w.Valid() && k < |Order(plans)| && Best(plans, Order(plans)[k]) != [] && Adds(w, plans, k, slots)
    ensures item in Unplaced(slots) <==> exists j: nat :: RefusedAt(w, plans, item, k, j)
  {
    var g := Order(plans)[k];
    var items, occupied := Beyond(Best(plans, g), BaseCounts(w)[g]), ReservedAt(w, At(w, plans, k).layouts, g.where);
    UnplacedHas(slots, item, |slots|);
    assert slots[..|slots|] == slots;
    forall j: nat | j < |slots| ensures NoPlace(slots, item, j) <==> RefusedAt(w, plans, item, k, j) {
      if RefusedAt(w, plans, item, k, j) { PutOnce(w, occupied, g, items, j, slots[j].xyz, None); }
    }
  }

  /** An item is refused exactly if it is one of the items beyond the base and its batch gave it no centre. */
  lemma {:induction false} RefusedExactly(w: World, plans: seq<seq<Item>>, item: Item, n: nat)
    requires w.Valid() && n <= |Order(plans)|
    ensures item in At(w, plans, n).refused <==> RefusedBelow(w, plans, item, n)
  {
    if n > 0 {
      var k := n - 1;
      RefusedExactly(w, plans, item, k);
      var slots := GroupAdds(w, plans, k);
      UnplacedRefused(w, plans, k, slots, item);
      RefusedNext(w, plans, item, k);
    } else {
      assert At(w, plans, 0) == BaseMerge(w.base);
    }
  }

  lemma RefusedNext(w: World, plans: seq<seq<Item>>, item: Item, k: nat)
    requires w.Valid() && k < |Order(plans)|
    ensures RefusedBelow(w, plans, item, k + 1) <==>
      RefusedBelow(w, plans, item, k) || exists j: nat :: RefusedAt(w, plans, item, k, j)
  {
    if RefusedBelow(w, plans, item, k) {
      var i: nat, j: nat :| i < k && RefusedAt(w, plans, item, i, j);
    }
  }

  // --------------------------------------------------------------- reservations

  /** Before the first group, exactly the base objects nearest to a spot are on its surface; and the items of a
      group that the base has are as many as its actors and objects of the group. */
  lemma ReservedFirst(w: World, plans: seq<seq<Item>>, where: string, g: Group, r: Rect)
    requires w.Valid()
    ensures r in ReservedAt(w, At(w, plans, 0).layouts, where) <==>
      exists i :: 0 <= i < |w.base.objects| && BaseRectAt(w, where, r, i)
    ensures BaseCounts(w)[g]
            == |Matching(|w.base.actors|, PickRecords(w, w.base.actors, g))|
               + |Matching(|w.base.objects|, PickRecords(w, w.base.objects, g))|
  {
    BaseRectsAre(w, where, r);
    BaseCount(w, g);
  }

  /** What the k-th group's batch reserves: the footprints that got a centre, on top of what was there. */
  lemma ReservedNext(w: World, plans: seq<seq<Item>>, k: nat, where: string)
    requires w.Valid() && k < |Order(plans)|
    ensures var g := Order(plans)[k];
      var items := Beyond(Best(plans, g), BaseCounts(w)[g]);
      var before := ReservedAt(w, At(w, plans, k).layouts, where);
      ReservedAt(w, At(w, plans, k + 1).layouts, where) ==
      if items == [] || items[0].spot == "" || items[0].spot !in w.spots || g.where != where then before
      else
        var fs := SameSize(Footprint(g.asset), |items|);
        ReserveAll(before, PackAll(SurfaceOf(w.spots[items[0].spot]), before, fs), fs)
  {
  }

  lemma SameSizesAreOk(f: Size, n: nat)
    requires SizeOk(f)
    ensures SizesOk(SameSize(f, n))
  {
  }

  /** The items beyond the base are of their group; on a measured spot that is the group's place. */
  lemma BeyondAreOf(w: World, plans: seq<seq<Item>>, g: Group)
    requires w.Valid()
    ensures var items := Beyond(Best(plans, g), BaseCounts(w)[g]);
      items != [] && items[0].spot != "" ==> items[0].spot == g.where
  {
    ExcessAllOf(plans, g, BaseCounts(w)[g]);
    assert Beyond(Best(plans, g), BaseCounts(w)[g]) == Excess(Best(plans, g), BaseCounts(w)[g]);
  }

  function Below(n: nat): (s: set<nat>)
    ensures forall i: nat :: i in s <==> i < n
  {
    if n == 0 then {} else Below(n - 1) + {n - 1}
  }

  /** The base objects on the surface, by index. */
  function GivenAt(w: World, where: string): set<nat>
    requires w.Valid()
  {
    Below(|BaseRects(w, w.base.objects, where)|)
  }

  /** At every point of the merge, everything merged at a measured spot is on its surface and at least the gap
      away from the base objects there and from all that was merged there before. */
  lemma {:induction false} MergeStaysPacked(w: World, plans: seq<seq<Item>>, where: string, k: nat)
    requires w.Valid() && where in w.spots && k <= |Order(plans)|
    ensures Packed(SurfaceOf(w.spots[where]), ReservedAt(w, At(w, plans, k).layouts, where), GivenAt(w, where))
  {
    if k > 0 {
      var g := Order(plans)[k - 1];
      var items := Beyond(Best(plans, g), BaseCounts(w)[g]);
      MergeStaysPacked(w, plans, where, k - 1);
      ReservedNext(w, plans, k - 1, where);
      BeyondAreOf(w, plans, g);
      if items != [] && items[0].spot != "" && items[0].spot in w.spots && g.where == where {
        BatchStaysPacked(SurfaceOf(w.spots[where]), ReservedAt(w, At(w, plans, k - 1).layouts, where),
                         SameSize(Footprint(g.asset), |items|), GivenAt(w, where), Footprint(g.asset), |items|);
      }
    }
  }

  lemma BatchStaysPacked(s: Surface, occupied: seq<Rect>, fs: seq<Size>, given: set<nat>, f: Size, n: nat)
    requires s.Valid() && SizeOk(f) && fs == SameSize(f, n) && Packed(s, occupied, given)
    ensures Packed(s, ReserveAll(occupied, PackAll(s, occupied, fs), fs), given)
  {
    SameSizesAreOk(f, n);
    BatchSound(s, occupied, fs);
    PackedAfterBatch(s, occupied, PackAll(s, occupied, fs), fs, given);
  }

  // ------------------------------------------------------- groups of the plans

  /** Indices in order, of exactly the items of the group. */
  predicate IndicesOf(plan: seq<Item>, g: Group, idx: seq<nat>) {
    && (forall k :: 0 <= k < |idx| ==> idx[k] < |plan|) && (forall k, l :: 0 <= k < l < |idx| ==> idx[k] < idx[l])
    && (forall i: nat :: i < |plan| ==> (i in idx <==> plan[i].asset == g.asset && CountedAt(plan[i], g.where)))
  }

  predicate ItemsAt(items: seq<Item>, plan: seq<Item>, idx: seq<nat>) {
    |items| == |idx| && forall k :: 0 <= k < |idx| ==> idx[k] < |plan| && items[k] == plan[idx[k]]
  }

  /** A plan's group: its items of that asset and place, in plan order. */
  lemma {:induction false} GroupMembers(plan: seq<Item>, g: Group) returns (idx: seq<nat>)
    ensures IndicesOf(plan, g, idx) && ItemsAt(ItemsOf(plan, g), plan, idx)
  {
    idx := [];
    if plan != [] {
      var n := |plan| - 1;
      var before := GroupMembers(plan[..n], g);
      idx := if GroupOf(plan[n]) == g then before + [n] else before;
      IndicesNext(plan, g, before, idx);
      ItemsNext(ItemsOf(plan[..n], g), ItemsOf(plan, g), plan, g, before, idx);
    }
  }

  lemma IndicesNext(plan: seq<Item>, g: Group, before: seq<nat>, idx: seq<nat>)
    requires plan != [] && IndicesOf(plan[..|plan| - 1], g, before)
    requires idx == if GroupOf(plan[|plan| - 1]) == g then before + [|plan| - 1] else before
    ensures IndicesOf(plan, g, idx)
  {
    var n := |plan| - 1;
    assert GroupOf(plan[n]) == g <==> plan[n].asset == g.asset && CountedAt(plan[n], g.where);
    forall i: nat | i < |plan| ensures i in idx <==> plan[i].asset == g.asset && CountedAt(plan[i], g.where) {
      if i < n {
        assert plan[..n][i] == plan[i];
        assert i in idx <==> i in before;
      } else if GroupOf(plan[n]) == g {
        assert idx[|before|] == n;
      }
    }
  }

  lemma ItemsNext(items: seq<Item>, after: seq<Item>, plan: seq<Item>, g: Group, before: seq<nat>, idx: seq<nat>)
    requires plan != [] && ItemsAt(items, plan[..|plan| - 1], before)
    requires idx == if GroupOf(plan[|plan| - 1]) == g then before + [|plan| - 1] else before
    requires after == if GroupOf(plan[|plan| - 1]) == g then items + [plan[|plan| - 1]] else items
    ensures ItemsAt(after, plan, idx)
  {
  }

  /** The winning group is the first of the longest: it is longer than that of every earlier plan. */
  lemma {:induction false} BestIsFirst(plans: seq<seq<Item>>, g: Group) returns (k: nat)
    requires Best(plans, g) != []
    ensures k < |plans| && Best(plans, g) == ItemsOf(plans[k], g)
    ensures forall j :: 0 <= j < k ==> |ItemsOf(plans[j], g)| < |Best(plans, g)|
  {
    var n := |plans| - 1;
    BestIsLongest(plans[..n], g);
    assert forall j :: 0 <= j < n ==> plans[..n][j] == plans[j];
    if |ItemsOf(plans[n], g)| > |Best(plans[..n], g)| { k := n; } else { k := BestIsFirst(plans[..n], g); }
  }

  /** All items, plan after plan. */
  function Flat(plans: seq<seq<Item>>): seq<Item> {
    if plans == [] then [] else Flat(plans[..|plans| - 1]) + plans[|plans| - 1]
  }

  lemma {:induction false} MeetConcat(order: seq<Group>, a: seq<Item>, b: seq<Item>)
    ensures MeetItems(order, a + b) == MeetItems(MeetItems(order, a), b)
  {
    if b == [] {
      assert a + b == a;
    } else {
      var n := |b| - 1;
      assert (a + b)[..|a + b| - 1] == a + b[..n];
      MeetConcat(order, a, b[..n]);
    }
  }

  lemma {:induction false} OrderOfFlat(plans: seq<seq<Item>>)
    ensures Order(plans) == MeetItems([], Flat(plans))
  {
    if plans != [] {
      var n := |plans| - 1;
      OrderOfFlat(plans[..n]);
      MeetConcat([], Flat(plans[..n]), plans[n]);
    }
  }

  /** An item of group g comes before all items of group h. */
  ghost predicate MetBefore(items: seq<Item>, g: Group, h: Group) {
    exists j :: 0 <= j < |items| && GroupOf(items[j]) == g && forall i :: 0 <= i <= j ==> GroupOf(items[i]) != h
  }

  ghost predicate Meets(items: seq<Item>, g: Group) { exists j :: 0 <= j < |items| && GroupOf(items[j]) == g }

  lemma {:induction false} MetInOrder(items: seq<Item>)
    ensures forall g :: g in MeetItems([], items) <==> Meets(items, g)
    ensures forall a, b :: 0 <= a < b < |MeetItems([], items)| ==> MetBefore(items, MeetItems([], items)[a], MeetItems([], items)[b])
  {
    if items != [] {
      var n := |items| - 1;
      MetInOrder(items[..n]);
      MetNext(items, MeetItems([], items[..n]), MeetItems([], items));
    }
  }

  lemma MetNext(items: seq<Item>, before: seq<Group>, order: seq<Group>)
    requires items != [] && var g := GroupOf(items[|items| - 1]); order == if g in before then before else before + [g]
    requires forall g :: g in before <==> Meets(items[..|items| - 1], g)
    requires forall a, b :: 0 <= a < b < |before| ==> MetBefore(items[..|items| - 1], before[a], before[b])
    ensures forall g :: g in order <==> Meets(items, g)
    ensures forall a, b :: 0 <= a < b < |order| ==> MetBefore(items, order[a], order[b])
  {
    var n := |items| - 1;
    assert forall i :: 0 <= i < n ==> items[..n][i] == items[i];
    forall g ensures g in order <==> Meets(items, g) {
      assert Meets(items, g) <==> Meets(items[..n], g) || GroupOf(items[n]) == g;
    }
    forall a, b | 0 <= a < b < |order| ensures MetBefore(items, order[a], order[b]) {
      if b < |before| {
        MetStays(items, before[a], before[b]);
      } else {
        assert before[a] in before;
        var j :| 0 <= j < n && GroupOf(items[..n][j]) == before[a];
        assert GroupOf(items[j]) == order[a];
        forall i | 0 <= i <= j ensures GroupOf(items[i]) != order[b] { assert GroupOf(items[..n][i]) != order[b]; }
      }
    }
  }

  lemma MetStays(items: seq<Item>, g: Group, h: Group)
    requires items != [] && MetBefore(items[..|items| - 1], g, h)
    ensures MetBefore(items, g, h)
  {
    var n := |items| - 1;
    var j :| 0 <= j < n && GroupOf(items[..n][j]) == g && forall i :: 0 <= i <= j ==> GroupOf(items[..n][i]) != h;
    assert forall i :: 0 <= i <= j ==> items[i] == items[..n][i];
  }

  /** Groups are merged in the order in which the plans first name them, and only groups the plans name. */
  lemma GroupsInOrder(plans: seq<seq<Item>>, a: nat, b: nat)
    requires a < b < |Order(plans)|
    ensures MetBefore(Flat(plans), Order(plans)[a], Order(plans)[b])
  {
    OrderOfFlat(plans);
    MetInOrder(Flat(plans));
  }
}
