/** The scene reconciler: a plan is spawned into a running simulator, deduplicated by count
    against a base scenario and an earlier manifest. */
module Spawn {
  import opened Geometry
  import opened Packing

  const MARGIN := 0.02
  const GAP := 0.06
  const STEP := 0.01

  datatype Xyz = Xyz(x: real, y: real, z: real) {
    function Xy(): Pt { Pt(x, y) }
  }

  /** One planned spawn. asset is the asset's directory name; spot is "" for persons. */
  datatype Item = Item(id: string, person: bool, asset: string, spot: string, room: string, xyz: Xyz)

  /** What is counted: an asset at a placement spot or room. */
  datatype Group = Group(asset: string, where: string)

  /** The id of a scenario record; a merged one is suffixed by its spot or room. */
  datatype RecordId = Plain(id: string) | Suffixed(id: string, where: string)

  datatype Record = Record(id: RecordId, asset: string, xyz: Xyz)

  datatype Scenario = Scenario(actors: seq<Record>, objects: seq<Record>)

  datatype Spot = Spot(xyz: Xyz, bbox: Rect)

  datatype Place = Place(name: string, xy: Pt)

  /** The base scenario and the placement table: measured spots, in table order, then rooms. */
  datatype World = World(base: Scenario, order: seq<string>, spots: map<string, Spot>, rooms: seq<Place>) {
    predicate Valid() { (forall n :: n in order ==> n in spots) && (forall n :: n in spots ==> n in order) }
  }

  // -------------------------------------------------------------- footprints

  const FOOTPRINTS: map<string, Size> := map[
    "ycb_001_cheez-it" := Size(0.072, 0.164),
    "ycb_002_sugar_box" := Size(0.049, 0.094),
    "ycb_005_spam" := Size(0.102, 0.060),
    "ycb_006_mustard_bottle" := Size(0.097, 0.067),
    "ycb_008_pudding_box" := Size(0.138, 0.129),
    "ycb_010_tomato_soup_can" := Size(0.068, 0.068),
    "ycb_011_banana" := Size(0.109, 0.178),
    "ycb_021_bleach_cleanser" := Size(0.102, 0.068),
    "ycb_024_bowl" := Size(0.161, 0.161),
    "ycb_025_mug" := Size(0.117, 0.093)]

  function Footprint(asset: string): (f: Size)
    ensures f.w >= 0.049 && f.h >= 0.06
  {
    if asset in FOOTPRINTS then FOOTPRINTS[asset] else Size(0.10, 0.10)
  }

  // ------------------------------------------------------------ base scenario

  function Distance2(a: Pt, b: Pt): real { (a.x - b.x) * (a.x - b.x) + (a.y - b.y) * (a.y - b.y) }

  function Table(w: World): seq<Place>
    requires w.Valid()
  {
    seq(|w.order|, i requires 0 <= i < |w.order| => Place(w.order[i], w.spots[w.order[i]].xyz.Xy())) + w.rooms
  }

  /** Index of the first of the nearest places. */
  function NearestOf(table: seq<Place>, p: Pt): (i: nat)
    requires table != []
    ensures i < |table|
  {
    if |table| == 1 then 0
    else
      var n := |table| - 1;
      var best := NearestOf(table[..n], p);
      if Distance2(p, table[n].xy) < Distance2(p, table[best].xy) then n else best
  }

  function Nearest(w: World, p: Pt): Option<string>
    requires w.Valid()
  {
    if Table(w) == [] then None else Some(Table(w)[NearestOf(Table(w), p)].name)
  }

  /** The group of each record that has a nearest place. */
  function RecordGroups(near: Pt -> Option<string>, rs: seq<Record>): seq<Group> {
    if rs == [] then []
    else
      var r, gs := rs[|rs| - 1], RecordGroups(near, rs[..|rs| - 1]);
      var where := near(r.xyz.Xy());
      if where.Some? then gs + [Group(r.asset, where.value)] else gs
  }

  function Near(w: World): Pt -> Option<string>
    requires w.Valid()
  {
    p => Nearest(w, p)
  }

  function BaseGroups(w: World): seq<Group>
    requires w.Valid()
  {
    RecordGroups(Near(w), w.base.actors) + RecordGroups(Near(w), w.base.objects)
  }

  // ----------------------------------------------------------------- manifest

  /** The entity name the simulator reported, or the scenario path of the item's own id. */
  datatype Name = Reported(name: string) | ScenarioPath(id: string)

  datatype Entity = Entity(id: string, asset: string, where: string, name: Name, ok: bool, xyz: Xyz,
                           cleared: Option<bool>, clearError: bool) {
    function InGroup(): Group { Group(asset, where) }
  }

  datatype Skipped = Skipped(id: string, where: string)

  datatype Why = ServiceDown | NoRoom(where: string)

  datatype NotAttempted = NotAttempted(id: string, why: Why)

  datatype Manifest = Manifest(entities: seq<Entity>, skipped: seq<Skipped>, notAttempted: seq<NotAttempted>)

  /** The answer of the simulator to one spawn call. */
  datatype Reply = Spawned(name: string) | AlreadyExists | Unavailable | Failed

  function WhereOf(item: Item): string { if item.spot != "" then item.spot else item.room }

  function GroupOf(item: Item): Group { Group(item.asset, WhereOf(item)) }

  /** How many of the first n items each group has. */
  function Seen(plan: seq<Item>, n: nat): multiset<Group>
    requires n <= |plan|
  {
    if n == 0 then multiset{} else Seen(plan, n - 1) + multiset{GroupOf(plan[n - 1])}
  }

  function Wanted(plan: seq<Item>): multiset<Group> { Seen(plan, |plan|) }

  function Oks(es: seq<Entity>): seq<Entity> {
    if es == [] then []
    else
      var e, before := es[|es| - 1], Oks(es[..|es| - 1]);
      if e.ok then before + [e] else before
  }

  function Fails(es: seq<Entity>): seq<Entity> {
    if es == [] then []
    else
      var e, before := es[|es| - 1], Fails(es[..|es| - 1]);
      if e.ok then before else before + [e]
  }

  function EntityGroups(es: seq<Entity>): seq<Group> {
    seq(|es|, i requires 0 <= i < |es| => es[i].InGroup())
  }

  // ------------------------------------------------------------- the decisions

  /** How many records of each group are already there. */
  function Existing(w: World, prev: seq<Entity>): multiset<Group>
    requires w.Valid()
  {
    multiset(BaseGroups(w)) + multiset(EntityGroups(Oks(prev)))
  }

  /** The first existing[g] items of each group are skipped as already present. */
  predicate Skips(plan: seq<Item>, existing: multiset<Group>, i: nat)
    requires i < |plan|
  {
    Seen(plan, i)[GroupOf(plan[i])] < existing[GroupOf(plan[i])]
  }

  predicate OnSpot(w: World, item: Item) { item.spot != "" && item.spot in w.spots }

  function SurfaceOf(s: Spot): Surface {
    Surface(s.xyz.Xy(), Rect(s.bbox.x0 + MARGIN, s.bbox.y0 + MARGIN, s.bbox.x1 - MARGIN, s.bbox.y1 - MARGIN), GAP, STEP)
  }

  function BaseRects(w: World, rs: seq<Record>, where: string): seq<Rect>
    requires w.Valid()
  {
    if rs == [] then []
    else
      var r, before := rs[|rs| - 1], BaseRects(w, rs[..|rs| - 1], where);
      if Nearest(w, r.xyz.Xy()) == Some(where) then before + [RectAt(r.xyz.Xy(), Footprint(r.asset))] else before
  }

  function RectOf(e: Entity): Rect { RectAt(e.xyz.Xy(), Footprint(e.asset)) }

  function EntityRects(es: seq<Entity>, where: string): seq<Rect> {
    if es == [] then []
    else
      var e, before := es[|es| - 1], EntityRects(es[..|es| - 1], where);
      if e.ok && e.where == where then before + [RectOf(e)] else before
  }

  /** What a layout starts from: the base objects and the earlier ok entities at that spot. */
  function Seed(w: World, prev: seq<Entity>, where: string): seq<Rect>
    requires w.Valid()
  {
    BaseRects(w, w.base.objects, where) + EntityRects(prev, where)
  }

  /** Indices below n of the items that will be packed at the spot where. */
  function Pending(w: World, plan: seq<Item>, existing: multiset<Group>, where: string, n: nat): (idx: seq<nat>)
    requires n <= |plan|
    ensures forall k :: 0 <= k < |idx| ==> idx[k] < n
  {
    if n == 0 then []
    else
      var before := Pending(w, plan, existing, where, n - 1);
      if OnSpot(w, plan[n - 1]) && plan[n - 1].spot == where && !Skips(plan, existing, n - 1) then before + [n - 1]
      else before
  }

  function Sizes(plan: seq<Item>, idx: seq<nat>): seq<Size>
    requires forall k :: 0 <= k < |idx| ==> idx[k] < |plan|
  {
    seq(|idx|, k requires 0 <= k < |idx| => Footprint(plan[idx[k]].asset))
  }

  /** The centres packed at one spot, before rounding. */
  function PackedCentres(w: World, plan: seq<Item>, prev: seq<Entity>, where: string): (cs: seq<Option<Pt>>)
    requires w.Valid() && where in w.spots
    ensures |cs| == |Pending(w, plan, Existing(w, prev), where, |plan|)|
  {
    PackAll(SurfaceOf(w.spots[where]), Seed(w, prev, where),
            Sizes(plan, Pending(w, plan, Existing(w, prev), where, |plan|)))
  }

  /** Items bound for the spot that are not skipped, in plan order. */
  predicate Bound(w: World, plan: seq<Item>, existing: multiset<Group>, where: string, idx: seq<nat>) {
    && (forall k :: 0 <= k < |idx| ==> BoundAt(w, plan, existing, where, idx[k]))
    && forall k, l :: 0 <= k < l < |idx| ==> idx[k] < idx[l]
  }

  predicate BoundAt(w: World, plan: seq<Item>, existing: multiset<Group>, where: string, i: nat) {
    i < |plan| && OnSpot(w, plan[i]) && plan[i].spot == where && !Skips(plan, existing, i)
  }

  lemma {:induction false} PendingItems(w: World, plan: seq<Item>, existing: multiset<Group>, where: string, n: nat)
    requires n <= |plan|
    ensures Bound(w, plan, existing, where, Pending(w, plan, existing, where, n))
  {
    if n > 0 {
      PendingItems(w, plan, existing, where, n - 1);
      OneMoreBound(w, plan, existing, where, Pending(w, plan, existing, where, n - 1), n - 1);
    }
  }

  lemma OneMoreBound(w: World, plan: seq<Item>, existing: multiset<Group>, where: string, idx: seq<nat>, i: nat)
    requires Bound(w, plan, existing, where, idx) && forall k :: 0 <= k < |idx| ==> idx[k] < i
    ensures BoundAt(w, plan, existing, where, i) ==> Bound(w, plan, existing, where, idx + [i])
  {
  }

  lemma {:induction false} PendingPosition(w: World, plan: seq<Item>, existing: multiset<Group>, where: string,
                                           i: nat, n: nat)
    requires i < n <= |plan| && OnSpot(w, plan[i]) && plan[i].spot == where && !Skips(plan, existing, i)
    ensures var k := |Pending(w, plan, existing, where, i)|;
      k < |Pending(w, plan, existing, where, n)| && Pending(w, plan, existing, where, n)[k] == i
  {
    if i < n - 1 { PendingPosition(w, plan, existing, where, i, n - 1); }
  }

  /** The rounded centre planned for item i, None if its spot has no room for it. */
  function PlannedXy(w: World, plan: seq<Item>, prev: seq<Entity>, i: nat): Option<Pt>
    requires w.Valid() && i < |plan| && OnSpot(w, plan[i]) && !Skips(plan, Existing(w, prev), i)
  {
    var where, existing := plan[i].spot, Existing(w, prev);
    PendingPosition(w, plan, existing, where, i, |plan|);
    RoundOne(PackedCentres(w, plan, prev, where)[|Pending(w, plan, existing, where, i)|])
  }

  datatype Decision = Skip | Refuse | Attempt(item: Item)

  function Decide(w: World, plan: seq<Item>, prev: seq<Entity>, i: nat): Decision
    requires w.Valid() && i < |plan|
  {
    if Skips(plan, Existing(w, prev), i) then Skip
    else if !OnSpot(w, plan[i]) then Attempt(plan[i])
    else
      var xy := PlannedXy(w, plan, prev, i);
      if xy.None? then Refuse
      else Attempt(plan[i].(xyz := Xyz(xy.value.x, xy.value.y, w.spots[plan[i].spot].xyz.z)))
  }

  function Decisions(w: World, plan: seq<Item>, prev: seq<Entity>): (ds: seq<Decision>)
    requires w.Valid()
    ensures |ds| == |plan|
  {
    seq(|plan|, i requires 0 <= i < |plan| => Decide(w, plan, prev, i))
  }

  // -------------------------------------------------------------------- a run

  /** Progress of a run: the earlier records still kept, the ones made with the plan index they
      come from, the two lists of items without a record, whether the service is down and what
      was sent to the simulator. */
  datatype State = State(kept: seq<Entity>, made: seq<Entity>, origin: seq<nat>, skipped: seq<Skipped>,
                         notAttempted: seq<NotAttempted>, down: bool, sent: seq<Item>) {
    function Snapshot(): Manifest { Manifest(kept + made, skipped, notAttempted) }
  }

  predicate StaleAt(es: seq<Entity>, g: Group, k: nat)
    requires k < |es|
  {
    !es[k].ok && es[k].InGroup() == g
  }

  /** es without its first failed record of group g. */
  function DropFailed(es: seq<Entity>, g: Group): seq<Entity> {
    if es == [] then []
    else if StaleAt(es, g, 0) then es[1..]
    else [es[0]] + DropFailed(es[1..], g)
  }

  function EntityName(item: Item, reply: Reply): Name {
    if reply.Spawned? then Reported(reply.name) else ScenarioPath(item.id)
  }

  function Outcome(item: Item, reply: Reply): Entity {
    Entity(item.id, item.asset, WhereOf(item), EntityName(item, reply), reply.Spawned? || reply.AlreadyExists?,
           item.xyz, None, false)
  }

  function Step(st: State, i: nat, item: Item, d: Decision, reply: Reply): State {
    if st.down then st.(notAttempted := st.notAttempted + [NotAttempted(item.id, ServiceDown)])
    else match d
      case Skip => st.(skipped := st.skipped + [Skipped(item.id, WhereOf(item))])
      case Refuse => st.(notAttempted := st.notAttempted + [NotAttempted(item.id, NoRoom(WhereOf(item)))])
      case Attempt(send) =>
        State(DropFailed(st.kept, GroupOf(item)), st.made + [Outcome(send, reply)], st.origin + [i], st.skipped,
              st.notAttempted, reply.Unavailable?, st.sent + [send])
  }

  /** The state after the first p items; the k-th spawn call of the run is answered by script(k). */
  function Run(plan: seq<Item>, ds: seq<Decision>, prev: seq<Entity>, script: nat -> Reply, p: nat): State
    requires |ds| == |plan| && p <= |plan|
  {
    if p == 0 then State(prev, [], [], [], [], false, [])
    else
      var st := Run(plan, ds, prev, script, p - 1);
      Step(st, p - 1, plan[p - 1], ds[p - 1], script(|st.sent|))
  }

  /** The manifest apply_plan returns. */
  function Apply(w: World, plan: seq<Item>, prev: seq<Entity>, script: nat -> Reply): Manifest
    requires w.Valid()
  {
    Run(plan, Decisions(w, plan, prev), prev, script, |plan|).Snapshot()
  }

  /** The entities in the manifest file when a run is killed after it has reported stop items, or when it
      has run to the end; before the first report the file is still the one it started from. */
  function ApplyKilled(w: World, plan: seq<Item>, prev: seq<Entity>, script: nat -> Reply, stop: nat): seq<Entity>
    requires w.Valid()
  {
    Run(plan, Decisions(w, plan, prev), prev, script, if stop < |plan| then stop else |plan|).Snapshot().entities
  }

  // ----------------------------------------------------------------- clearing

  /** The answer of the simulator to one delete call. */
  datatype DeleteReply = Answered(deleted: bool) | Timeout | Error

  /** The last answer to a delete, which is retried once after a timeout; n calls were made before. */
  function DeleteOnce(script: nat -> DeleteReply, n: nat): DeleteReply {
    if script(n).Timeout? then script(n + 1) else script(n)
  }

  function DeleteCalls(script: nat -> DeleteReply, n: nat): nat { if script(n).Timeout? then 2 else 1 }

  function Mark(e: Entity, reply: DeleteReply): Entity {
    if reply.Answered? then e.(cleared := Some(reply.deleted), clearError := false)
    else e.(cleared := Some(false), clearError := true)
  }

  /** Records and delete calls after the first p entities. */
  datatype Clearing = Clearing(results: seq<Entity>, calls: seq<Name>)

  function ClearStep(c: Clearing, e: Entity, script: nat -> DeleteReply): Clearing {
    var n := |c.calls|;
    if !e.ok then c.(results := c.results + [e])
    else Clearing(c.results + [Mark(e, DeleteOnce(script, n))],
                  c.calls + (if DeleteCalls(script, n) == 2 then [e.name, e.name] else [e.name]))
  }

  function Clear(es: seq<Entity>, script: nat -> DeleteReply, p: nat): Clearing
    requires p <= |es|
  {
    if p == 0 then Clearing([], []) else ClearStep(Clear(es, script, p - 1), es[p - 1], script)
  }

  /** The entities in the manifest file when a clear is killed after it has reported stop entities. */
  function ClearKilled(es: seq<Entity>, script: nat -> DeleteReply, stop: nat): seq<Entity> {
    if stop == 0 then es else Clear(es, script, if stop < |es| then stop else |es|).results
  }
}
