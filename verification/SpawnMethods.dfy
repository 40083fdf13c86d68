/** The reconciler as it runs: counters, dictionaries, queues and lists updated item by item against a
    simulator, proved to compute the runs of module Spawn. */
module SpawnMethods {
  import opened Geometry
  import opened Packing
  import opened Layout
  import opened Spawn
  import opened SpawnLaws

  /** The simulator's services. Its answers are arbitrary but fixed in advance, by call number. */
  class Simulator {
    const replies: nat -> Reply
    const deletes: nat -> DeleteReply
    var sent: seq<Item>
    var deleted: seq<Name>

    constructor (replies: nat -> Reply, deletes: nat -> DeleteReply)
      ensures this.replies == replies && this.deletes == deletes && sent == [] && deleted == []
    {
      this.replies, this.deletes := replies, deletes;
      sent, deleted := [], [];
    }

    method Spawn(item: Item) returns (reply: Reply)
      modifies `sent
      ensures sent == old(sent) + [item] && reply == replies(|old(sent)|)
    {
      reply := replies(|sent|);
      sent := sent + [item];
    }

    method Delete(name: Name) returns (reply: DeleteReply)
      modifies `deleted
      ensures deleted == old(deleted) + [name] && reply == deletes(|old(deleted)|)
    {
      reply := deletes(|deleted|);
      deleted := deleted + [name];
    }
  }

  /** The answers from call n on. */
  function From<T>(script: nat -> T, n: nat): nat -> T { (k: nat) => script(n + k) }

  // --------------------------------------------------------------- base scenario

  /** Place i is nearest to p, and the places before it are farther away. */
  predicate FirstNearest(table: seq<Place>, p: Pt, i: nat)
    requires i < |table|
  {
    && (forall k :: 0 <= k < |table| ==> Distance2(p, table[i].xy) <= Distance2(p, table[k].xy))
    && (forall k :: 0 <= k < i ==> Distance2(p, table[i].xy) < Distance2(p, table[k].xy))
  }

  lemma {:induction false} NearestIsFirst(table: seq<Place>, p: Pt)
    requires table != []
    ensures FirstNearest(table, p, NearestOf(table, p))
  {
    if |table| > 1 {
      var n := |table| - 1;
      NearestIsFirst(table[..n], p);
      var best := NearestOf(table[..n], p);
      NearestNext(table, p, best, Distance2(p, table[n].xy), Distance2(p, table[best].xy));
    }
  }

  lemma NearestNext(table: seq<Place>, p: Pt, best: nat, last: real, least: real)
    requires best < |table| - 1 && FirstNearest(table[..|table| - 1], p, best)
    requires last == Distance2(p, table[|table| - 1].xy) && least == Distance2(p, table[best].xy)
    ensures FirstNearest(table, p, if last < least then |table| - 1 else best)
  {
    assert forall k :: 0 <= k < |table| - 1 ==> table[k] == table[..|table| - 1][k];
  }

  method NearestSpotOrRoom(w: World, xy: Pt) returns (best: Option<string>)
    requires w.Valid()
    ensures best == Nearest(w, xy) && (best.None? <==> Table(w) == [])
    ensures best.Some? ==> exists i: nat :: i < |Table(w)| && FirstNearest(Table(w), xy, i) && best.value == Table(w)[i].name
  {
    var table := Table(w);
    if table == [] { return None; }
    var b := 0;
    assert table[..1] == [table[0]];
    for n := 1 to |table|
      invariant b < n && b == NearestOf(table[..n], xy)
    {
      assert table[..n + 1][..n] == table[..n];
      if Distance2(xy, table[n].xy) < Distance2(xy, table[b].xy) { b := n; }
    }
    assert table[..|table|] == table;
    NearestIsFirst(table, xy);
    return Some(table[b].name);
  }

  method CountRecords(w: World, rs: seq<Record>) returns (counts: multiset<Group>)
    requires w.Valid()
    ensures counts == multiset(RecordGroups(Near(w), rs))
  {
    counts := multiset{};
    for n := 0 to |rs|
      invariant counts == multiset(RecordGroups(Near(w), rs[..n]))
    {
      assert rs[..n + 1][..n] == rs[..n];
      var where := NearestSpotOrRoom(w, rs[n].xyz.Xy());
      if where.Some? { counts := counts + multiset{Group(rs[n].asset, where.value)}; }
    }
    assert rs[..|rs|] == rs;
  }

  method BaseScenarioCounts(w: World) returns (counts: multiset<Group>)
    requires w.Valid()
    ensures counts == multiset(BaseGroups(w))
  {
    var actors := CountRecords(w, w.base.actors);
    var objects := CountRecords(w, w.base.objects);
    counts := actors + objects;
  }

  /** Registers the base objects whose nearest place is this spot. */
  method SeedBase(w: World, layout: SurfaceLayout, where: string)
    requires w.Valid() && layout.Valid() && layout.occupied == []
    modifies layout
    ensures layout.Valid() && layout.occupied == BaseRects(w, w.base.objects, where)
  {
    var rs := w.base.objects;
    for n := 0 to |rs|
      invariant layout.Valid() && layout.occupied == BaseRects(w, rs[..n], where)
    {
      assert rs[..n + 1][..n] == rs[..n];
      var at := NearestSpotOrRoom(w, rs[n].xyz.Xy());
      if at == Some(where) { layout.Occupy(rs[n].xyz.Xy(), Footprint(rs[n].asset)); }
    }
    assert rs[..|rs|] == rs;
  }

  /** Registers the ok entities at this spot. */
  method SeedEntities(layout: SurfaceLayout, es: seq<Entity>, where: string)
    requires layout.Valid()
    modifies layout
    ensures layout.Valid() && layout.occupied == old(layout.occupied) + EntityRects(es, where)
  {
    for n := 0 to |es|
      invariant layout.Valid() && layout.occupied == old(layout.occupied) + EntityRects(es[..n], where)
    {
      assert es[..n + 1][..n] == es[..n];
      if es[n].ok && es[n].where == where { layout.Occupy(es[n].xyz.Xy(), Footprint(es[n].asset)); }
    }
    assert es[..|es|] == es;
  }

  /** A layout for one spot, with the base objects and the earlier ok entities on it. */
  method SeedLayout(w: World, es: seq<Entity>, where: string) returns (layout: SurfaceLayout)
    requires w.Valid() && where in w.spots
    ensures fresh(layout) && layout.Valid()
    ensures layout.surface == SurfaceOf(w.spots[where]) && layout.occupied == Seed(w, es, where)
  {
    layout := new SurfaceLayout(w.spots[where].xyz.Xy(), w.spots[where].bbox, MARGIN, GAP, STEP);
    SeedBase(w, layout, where);
    SeedEntities(layout, es, where);
  }

  // -------------------------------------------------------------- planning pass

  function Listed(perSpot: map<string, seq<nat>>, where: string): seq<nat> {
    if where in perSpot then perSpot[where] else []
  }

  /** perSpot lists, for every spot, the items below n that will be packed there. */
  predicate Gathered(w: World, plan: seq<Item>, existing: multiset<Group>, perSpot: map<string, seq<nat>>, n: nat)
    requires n <= |plan|
  {
    && (forall where :: where in perSpot ==> where in w.spots)
    && (forall where {:trigger Listed(perSpot, where)} :: where in w.spots ==> Listed(perSpot, where) == Pending(w, plan, existing, where, n))
  }

  lemma PendingNext(w: World, plan: seq<Item>, existing: multiset<Group>, where: string, i: nat)
    requires i < |plan|
    ensures Pending(w, plan, existing, where, i + 1) ==
            if OnSpot(w, plan[i]) && plan[i].spot == where && !Skips(plan, existing, i)
            then Pending(w, plan, existing, where, i) + [i] else Pending(w, plan, existing, where, i)
  {
  }

  lemma GatheredNext(w: World, plan: seq<Item>, existing: multiset<Group>, perSpot: map<string, seq<nat>>, i: nat,
                     next: map<string, seq<nat>>)
    requires i < |plan| && Gathered(w, plan, existing, perSpot, i)
    requires next == if OnSpot(w, plan[i]) && !Skips(plan, existing, i)
                     then perSpot[plan[i].spot := Listed(perSpot, plan[i].spot) + [i]] else perSpot
    ensures Gathered(w, plan, existing, next, i + 1)
  {
    forall where {:trigger Listed(next, where)} | where in w.spots
      ensures Listed(next, where) == Pending(w, plan, existing, where, i + 1)
    {
      GatheredAt(w, plan, existing, perSpot, i, where);
    }
  }

  lemma GatheredAt(w: World, plan: seq<Item>, existing: multiset<Group>, perSpot: map<string, seq<nat>>, i: nat,
                   where: string)
    requires i < |plan| && Gathered(w, plan, existing, perSpot, i) && where in w.spots
    ensures Pending(w, plan, existing, where, i + 1) ==
            if OnSpot(w, plan[i]) && plan[i].spot == where && !Skips(plan, existing, i)
            then Listed(perSpot, where) + [i] else Listed(perSpot, where)
  {
    PendingNext(w, plan, existing, where, i);
  }

  method GatherPerSpot(w: World, plan: seq<Item>, existing: multiset<Group>) returns (perSpot: map<string, seq<nat>>)
    ensures Gathered(w, plan, existing, perSpot, |plan|)
  {
    perSpot := map[];
    var seen: multiset<Group> := multiset{};
    for i := 0 to |plan|
      invariant seen == Seen(plan, i) && Gathered(w, plan, existing, perSpot, i)
    {
      var item := plan[i];
      var g := GroupOf(item);
      var idxInGroup := seen[g];
      seen := seen + multiset{g};
      ghost var before := perSpot;
      if idxInGroup >= existing[g] && item.spot != "" && item.spot in w.spots {
        perSpot := perSpot[item.spot := Listed(perSpot, item.spot) + [i]];
      }
      GatheredNext(w, plan, existing, before, i, perSpot);
    }
  }

  /** If item i is packed at one of the spots done, planned[i] is its rounded centre. */
  predicate PlannedAt(w: World, plan: seq<Item>, prev: seq<Entity>, planned: map<nat, Option<Pt>>, done: set<string>, i: nat)
    requires w.Valid() && i < |plan|
  {
    OnSpot(w, plan[i]) && !Skips(plan, Existing(w, prev), i) && plan[i].spot in done ==>
      i in planned && planned[i] == PlannedXy(w, plan, prev, i)
  }

  predicate PlannedFor(w: World, plan: seq<Item>, prev: seq<Entity>, planned: map<nat, Option<Pt>>, done: set<string>)
    requires w.Valid()
  {
    forall i: nat :: i < |plan| ==> PlannedAt(w, plan, prev, planned, done, i)
  }

  lemma NothingPackedElsewhere(w: World, plan: seq<Item>, prev: seq<Entity>, perSpot: map<string, seq<nat>>)
    requires w.Valid() && Gathered(w, plan, Existing(w, prev), perSpot, |plan|)
    ensures PlannedFor(w, plan, prev, map[], w.spots.Keys - perSpot.Keys)
  {
    forall i: nat | i < |plan| ensures PlannedAt(w, plan, prev, map[], w.spots.Keys - perSpot.Keys, i) {
      if OnSpot(w, plan[i]) && !Skips(plan, Existing(w, prev), i) {
        PendingPosition(w, plan, Existing(w, prev), plan[i].spot, i, |plan|);
        assert Listed(perSpot, plan[i].spot) != [];
      }
    }
  }

  /** Item idx[k] gets the centre xys[k]; the other entries are those of before. */
  predicate Zipped(before: map<nat, Option<Pt>>, idx: seq<nat>, xys: seq<Option<Pt>>, k: nat, after: map<nat, Option<Pt>>)
    requires k <= |idx| == |xys|
  {
    && (forall j :: 0 <= j < k ==> idx[j] in after && after[idx[j]] == xys[j])
    && (forall i :: i in before && i !in idx[..k] ==> i in after && after[i] == before[i])
  }

  method ZipPlanned(before: map<nat, Option<Pt>>, idx: seq<nat>, xys: seq<Option<Pt>>)
    returns (after: map<nat, Option<Pt>>)
    requires |idx| == |xys| && forall k, l :: 0 <= k < l < |idx| ==> idx[k] < idx[l]
    ensures Zipped(before, idx, xys, |idx|, after)
  {
    after := before;
    for k := 0 to |idx|
      invariant Zipped(before, idx, xys, k, after)
    {
      after := after[idx[k] := xys[k]];
      assert idx[..k + 1] == idx[..k] + [idx[k]];
    }
  }

  /** Item i is packed at the spot where. */
  predicate PacksAt(w: World, plan: seq<Item>, existing: multiset<Group>, where: string, i: nat) {
    i < |plan| && OnSpot(w, plan[i]) && plan[i].spot == where && !Skips(plan, existing, i)
  }

  lemma ZippedHere(w: World, plan: seq<Item>, existing: multiset<Group>, where: string, i: nat,
                   before: map<nat, Option<Pt>>, xys: seq<Option<Pt>>, after: map<nat, Option<Pt>>)
    requires PacksAt(w, plan, existing, where, i)
    requires |xys| == |Pending(w, plan, existing, where, |plan|)|
    requires Zipped(before, Pending(w, plan, existing, where, |plan|), xys, |xys|, after)
    ensures var k := |Pending(w, plan, existing, where, i)|;
      k < |xys| && i in after && after[i] == xys[k]
  {
    PendingPosition(w, plan, existing, where, i, |plan|);
  }

  lemma ZippedElsewhere(w: World, plan: seq<Item>, existing: multiset<Group>, where: string, i: nat,
                        before: map<nat, Option<Pt>>, xys: seq<Option<Pt>>, after: map<nat, Option<Pt>>)
    requires i < |plan| && plan[i].spot != where && i in before
    requires |xys| == |Pending(w, plan, existing, where, |plan|)|
    requires Zipped(before, Pending(w, plan, existing, where, |plan|), xys, |xys|, after)
    ensures i in after && after[i] == before[i]
  {
    var idx := Pending(w, plan, existing, where, |plan|);
    assert idx[..|idx|] == idx;
    PendingItems(w, plan, existing, where, |plan|);
    assert forall k :: 0 <= k < |idx| ==> BoundAt(w, plan, existing, where, idx[k]);
  }

  lemma PlannedMore(w: World, plan: seq<Item>, prev: seq<Entity>, before: map<nat, Option<Pt>>, done: set<string>,
                    where: string, after: map<nat, Option<Pt>>)
    requires w.Valid() && where in w.spots && PlannedFor(w, plan, prev, before, done)
    requires var idx, xys := Pending(w, plan, Existing(w, prev), where, |plan|), RoundAll(PackedCentres(w, plan, prev, where));
      Zipped(before, idx, xys, |xys|, after)
    ensures PlannedFor(w, plan, prev, after, done + {where})
  {
    var existing, xys := Existing(w, prev), RoundAll(PackedCentres(w, plan, prev, where));
    forall i: nat | i < |plan| ensures PlannedAt(w, plan, prev, after, done + {where}, i) {
      if PacksAt(w, plan, existing, plan[i].spot, i) && plan[i].spot in done + {where} {
        if plan[i].spot == where {
          ZippedHere(w, plan, existing, where, i, before, xys, after);
        } else {
          assert PlannedAt(w, plan, prev, before, done, i);
          ZippedElsewhere(w, plan, existing, where, i, before, xys, after);
        }
      }
    }
  }

  /** Packs the items of one spot as a batch. */
  method PackSpot(w: World, plan: seq<Item>, prev: seq<Entity>, where: string, idx: seq<nat>)
    returns (xys: seq<Option<Pt>>)
    requires w.Valid() && where in w.spots && idx == Pending(w, plan, Existing(w, prev), where, |plan|)
    ensures xys == RoundAll(PackedCentres(w, plan, prev, where))
  {
    var layout := SeedLayout(w, prev, where);
    SizesAreOk(plan, idx);
    xys := layout.PlaceAll(Sizes(plan, idx));
  }

  /** Packs every spot's items as one batch and hands each item its centre. */
  method PlanSpots(w: World, plan: seq<Item>, prev: seq<Entity>, perSpot: map<string, seq<nat>>)
    returns (planned: map<nat, Option<Pt>>)
    requires w.Valid() && PlannedFor(w, plan, prev, map[], w.spots.Keys - perSpot.Keys)
    requires forall where {:trigger perSpot[where]} :: where in perSpot ==>
      where in w.spots && perSpot[where] == Pending(w, plan, Existing(w, prev), where, |plan|)
    ensures PlannedFor(w, plan, prev, planned, w.spots.Keys)
  {
    planned := map[];
    var todo := perSpot.Keys;
    ghost var done := w.spots.Keys - perSpot.Keys;
    while todo != {}
      invariant todo <= perSpot.Keys && done == w.spots.Keys - todo
      invariant PlannedFor(w, plan, prev, planned, done)
      decreases todo
    {
      var where :| where in todo;
      var idx := perSpot[where];
      planned := PlanOneSpot(w, plan, prev, planned, where, idx, done);
      todo, done := todo - {where}, done + {where};
    }
    assert done == w.spots.Keys;
  }

  method PlanOneSpot(w: World, plan: seq<Item>, prev: seq<Entity>, planned: map<nat, Option<Pt>>, where: string,
                     idx: seq<nat>, ghost done: set<string>) returns (after: map<nat, Option<Pt>>)
    requires w.Valid() && where in w.spots && idx == Pending(w, plan, Existing(w, prev), where, |plan|)
    requires PlannedFor(w, plan, prev, planned, done)
    ensures PlannedFor(w, plan, prev, after, done + {where})
  {
    var xys := PackSpot(w, plan, prev, where, idx);
    PendingItems(w, plan, Existing(w, prev), where, |plan|);
    after := ZipPlanned(planned, idx, xys);
    PlannedMore(w, plan, prev, planned, done, where, after);
  }

  // ------------------------------------------------------------- stale records

  /** A manifest record as an object: its identity and its value. */
  datatype Tagged = Tagged(tag: nat, e: Entity)

  function Untag(ts: seq<Tagged>): seq<Entity> { seq(|ts|, i requires 0 <= i < |ts| => ts[i].e) }

  /** Identities of the failed records of group g, oldest first. */
  function StaleTags(ts: seq<Tagged>, g: Group): seq<nat> {
    if ts == [] then []
    else if !ts[0].e.ok && ts[0].e.InGroup() == g then [ts[0].tag] + StaleTags(ts[1..], g)
    else StaleTags(ts[1..], g)
  }

  predicate DistinctTags(ts: seq<Tagged>) { forall i, j :: 0 <= i < j < |ts| ==> ts[i].tag < ts[j].tag }

  function Without(ts: seq<Tagged>, k: nat): seq<Tagged>
    requires k < |ts|
  {
    ts[..k] + ts[k + 1..]
  }

  lemma {:induction false} StaleTagsConcat(a: seq<Tagged>, b: seq<Tagged>, g: Group)
    ensures StaleTags(a + b, g) == StaleTags(a, g) + StaleTags(b, g)
  {
    if a == [] {
      assert a + b == b;
    } else {
      assert (a + b)[1..] == a[1..] + b && (a + b)[0] == a[0];
      StaleTagsConcat(a[1..], b, g);
    }
  }

  /** The first failed record of the group, and what DropFailed leaves. */
  lemma {:induction false} FirstStale(ts: seq<Tagged>, g: Group) returns (k: nat)
    requires StaleTags(ts, g) != []
    ensures k < |ts| && StaleTags(ts[..k], g) == [] && StaleTags([ts[k]], g) == [ts[k].tag]
    ensures DropFailed(Untag(ts), g) == Untag(Without(ts, k))
  {
    var t, rest := ts[0], ts[1..];
    assert Untag(ts)[1..] == Untag(rest);
    if StaleAt(Untag(ts), g, 0) {
      k := 0;
      assert Without(ts, 0) == rest;
    } else {
      var l := FirstStale(rest, g);
      k := l + 1;
      assert ts[..k] == [t] + rest[..l];
      assert Without(ts, k) == [t] + Without(rest, l);
      assert Untag(Without(ts, k)) == [t.e] + Untag(Without(rest, l));
    }
  }

  lemma QueuesWithout(ts: seq<Tagged>, k: nat, h: Group)
    requires k < |ts|
    ensures StaleTags(ts, h) == StaleTags(ts[..k], h) + (StaleTags([ts[k]], h) + StaleTags(ts[k + 1..], h))
    ensures StaleTags(Without(ts, k), h) == StaleTags(ts[..k], h) + StaleTags(ts[k + 1..], h)
  {
    assert ts == ts[..k] + ([ts[k]] + ts[k + 1..]);
    StaleTagsConcat(ts[..k], [ts[k]] + ts[k + 1..], h);
    StaleTagsConcat([ts[k]], ts[k + 1..], h);
    StaleTagsConcat(ts[..k], ts[k + 1..], h);
  }

  /** The record at the head of the group's queue is the one DropFailed drops; without it every
      queue is as it was, except that this one has lost its head. */
  lemma DropByTag(ts: seq<Tagged>, g: Group) returns (k: nat)
    requires StaleTags(ts, g) != []
    ensures k < |ts| && ts[k].tag == StaleTags(ts, g)[0]
    ensures DropFailed(Untag(ts), g) == Untag(Without(ts, k))
    ensures forall h :: StaleTags(Without(ts, k), h) == if h == g then StaleTags(ts, g)[1..] else StaleTags(ts, h)
  {
    k := FirstStale(ts, g);
    QueuesWithout(ts, k, g);
    forall h ensures StaleTags(Without(ts, k), h) == if h == g then StaleTags(ts, g)[1..] else StaleTags(ts, h) {
      QueuesWithout(ts, k, h);
      if h != g { assert StaleTags([ts[k]], h) == []; }
    }
  }

  lemma {:induction false} NothingStale(ts: seq<Tagged>, g: Group)
    requires StaleTags(ts, g) == []
    ensures DropFailed(Untag(ts), g) == Untag(ts)
  {
    if ts != [] {
      assert Untag(ts)[1..] == Untag(ts[1..]);
      NothingStale(ts[1..], g);
      assert Untag(ts) == [ts[0].e] + Untag(ts[1..]);
    }
  }

  function Queued(queues: map<Group, seq<nat>>, g: Group): seq<nat> { if g in queues then queues[g] else [] }

  /** records holds the kept and the fresh records as objects; queues holds, per group, the failed
      ones among the kept. */
  ghost predicate Tracks(records: seq<Tagged>, queues: map<Group, seq<nat>>, st: State, next: nat) {
    var n := |st.kept|;
    && DistinctTags(records) && (forall i :: 0 <= i < |records| ==> records[i].tag < next)
    && n <= |records| && Untag(records[..n]) == st.kept && Untag(records[n..]) == st.made
    && forall g :: Queued(queues, g) == StaleTags(records[..n], g)
  }

  lemma TracksEntities(records: seq<Tagged>, queues: map<Group, seq<nat>>, st: State, next: nat)
    requires Tracks(records, queues, st, next)
    ensures Untag(records) == st.kept + st.made
  {
    assert records == records[..|st.kept|] + records[|st.kept|..];
  }

  /** Drops the record at the head of the group's queue, found by identity. */
  method ReplaceStale(records: seq<Tagged>, queues: map<Group, seq<nat>>, g: Group, ghost st: State, ghost next: nat)
    returns (records': seq<Tagged>, queues': map<Group, seq<nat>>)
    requires Tracks(records, queues, st, next)
    ensures Tracks(records', queues', st.(kept := DropFailed(st.kept, g)), next)
  {
    ghost var n := |st.kept|;
    if Queued(queues, g) == [] {
      NothingStale(records[..n], g);
      return records, queues;
    }
    var stale := queues[g][0];
    queues' := queues[g := queues[g][1..]];
    ghost var k := DropByTag(records[..n], g);
    var i := 0;
    while records[i].tag != stale
      invariant i <= k
    {
      i := i + 1;
    }
    records' := Without(records, i);
    assert i == k;
    Removed(records, n, k);
  }

  lemma Removed(records: seq<Tagged>, n: nat, k: nat)
    requires k < n <= |records| && DistinctTags(records)
    ensures DistinctTags(Without(records, k))
    ensures Without(records, k)[..n - 1] == Without(records[..n], k)
    ensures Without(records, k)[n - 1..] == records[n..]
    ensures forall i :: 0 <= i < |Without(records, k)| ==> Without(records, k)[i] in records
  {
  }

  // ------------------------------------------------------------------ the run

  /** The state of the loops of ApplyPlan after p items. */
  datatype Progress = Progress(records: seq<Tagged>, queues: map<Group, seq<nat>>, next: nat, skipped: seq<Skipped>,
                               notAttempted: seq<NotAttempted>, down: bool) {
    function Snapshot(): Manifest { Manifest(Untag(records), skipped, notAttempted) }
  }

  ghost predicate Mirrors(g: Progress, st: State) {
    && Tracks(g.records, g.queues, st, g.next)
    && g.skipped == st.skipped && g.notAttempted == st.notAttempted && g.down == st.down
  }

  lemma MirrorsSnapshot(g: Progress, st: State)
    requires Mirrors(g, st)
    ensures g.Snapshot() == st.Snapshot()
  {
    TracksEntities(g.records, g.queues, st, g.next);
  }

  ghost predicate QueuesOf(records: seq<Tagged>, queues: map<Group, seq<nat>>) {
    forall g :: Queued(queues, g) == StaleTags(records, g)
  }

  lemma QueuesNext(records: seq<Tagged>, queues: map<Group, seq<nat>>, t: Tagged)
    requires QueuesOf(records, queues)
    ensures var g := t.e.InGroup();
      QueuesOf(records + [t], if t.e.ok then queues else queues[g := Queued(queues, g) + [t.tag]])
  {
    var g := t.e.InGroup();
    var after := if t.e.ok then queues else queues[g := Queued(queues, g) + [t.tag]];
    forall h ensures Queued(after, h) == StaleTags(records + [t], h) {
      StaleTagsConcat(records, [t], h);
      assert Queued(queues, h) == StaleTags(records, h);
    }
  }

  /** Reads the earlier manifest: its records as objects, the ok ones counted, the failed ones queued. */
  method ReadPrevious(prev: seq<Entity>) returns (records: seq<Tagged>, okCounts: multiset<Group>, queues: map<Group, seq<nat>>)
    ensures Tracks(records, queues, State(prev, [], [], [], [], false, []), |prev|)
    ensures okCounts == multiset(EntityGroups(Oks(prev)))
  {
    records, okCounts, queues := [], multiset{}, map[];
    for n := 0 to |prev|
      invariant |records| == n && Untag(records) == prev[..n]
      invariant forall i :: 0 <= i < n ==> records[i].tag == i
      invariant okCounts == multiset(EntityGroups(Oks(prev[..n])))
      invariant QueuesOf(records, queues)
    {
      var e := prev[n];
      assert prev[..n + 1] == prev[..n] + [e];
      OksAppend(prev[..n], e);
      QueuesNext(records, queues, Tagged(n, e));
      if e.ok {
        GroupsAppend(Oks(prev[..n]), e);
        okCounts := okCounts + multiset{e.InGroup()};
      } else {
        queues := queues[e.InGroup() := Queued(queues, e.InGroup()) + [n]];
      }
      records := records + [Tagged(n, e)];
    }
    assert prev[..|prev|] == prev && records[..|prev|] == records;
  }

  /** Records the outcome of an attempt: the group's oldest stale record makes way for it. */
  method RecordAttempt(g: Progress, item: Item, send: Item, reply: Reply, ghost st: State, ghost i: nat)
    returns (g': Progress)
    requires Mirrors(g, st) && !g.down
    ensures Mirrors(g', Step(st, i, item, Attempt(send), reply))
  {
    var records, queues := ReplaceStale(g.records, g.queues, GroupOf(item), st, g.next);
    ghost var mid := st.(kept := DropFailed(st.kept, GroupOf(item)));
    var e := Outcome(send, reply);
    g' := Progress(records + [Tagged(g.next, e)], queues, g.next + 1, g.skipped, g.notAttempted, reply.Unavailable?);
    TracksAppend(records, queues, mid, g.next, e, Step(st, i, item, Attempt(send), reply));
  }

  lemma TracksAppend(records: seq<Tagged>, queues: map<Group, seq<nat>>, st: State, next: nat, e: Entity, after: State)
    requires Tracks(records, queues, st, next) && after.kept == st.kept && after.made == st.made + [e]
    ensures Tracks(records + [Tagged(next, e)], queues, after, next + 1)
  {
    var n, more := |st.kept|, records + [Tagged(next, e)];
    assert more[..n] == records[..n] && more[n..] == records[n..] + [Tagged(next, e)];
    assert Untag(more[n..]) == Untag(records[n..]) + [e];
  }

  /** Skip, refuse or attempt: the checks of the spawn pass, in order. */
  method DecideItem(w: World, plan: seq<Item>, ghost prev: seq<Entity>, i: nat, idxInGroup: nat, existing: multiset<Group>,
                    planned: map<nat, Option<Pt>>)
    returns (d: Decision)
    requires w.Valid() && i < |plan| && existing == Existing(w, prev) && idxInGroup == Seen(plan, i)[GroupOf(plan[i])]
    requires PlannedAt(w, plan, prev, planned, w.spots.Keys, i)
    ensures d == Decide(w, plan, prev, i)
  {
    var item := plan[i];
    if idxInGroup < existing[GroupOf(item)] { return Skip; }
    if item.spot == "" || item.spot !in w.spots { return Attempt(item); }
    var xy := if i in planned then planned[i] else None;
    if xy.None? { return Refuse; }
    return Attempt(item.(xyz := Xyz(xy.value.x, xy.value.y, w.spots[item.spot].xyz.z)));
  }

  /** Carries out the decision on one item. */
  method DoItem(item: Item, d: Decision, sim: Simulator, g: Progress, ghost st: State, ghost i: nat)
    returns (g': Progress, ghost reply: Reply)
    requires Mirrors(g, st)
    modifies sim`sent
    ensures reply == sim.replies(|old(sim.sent)|)
    ensures var after := Step(st, i, item, d, reply);
      Mirrors(g', after) && st.sent <= after.sent && sim.sent == old(sim.sent) + after.sent[|st.sent|..]
  {
    reply := sim.replies(|sim.sent|);
    if g.down {
      g' := g.(notAttempted := g.notAttempted + [NotAttempted(item.id, ServiceDown)]);
      return;
    }
    match d
    case Skip =>
      g' := g.(skipped := g.skipped + [Skipped(item.id, WhereOf(item))]);
    case Refuse =>
      g' := g.(notAttempted := g.notAttempted + [NotAttempted(item.id, NoRoom(WhereOf(item)))]);
    case Attempt(send) =>
      var answer := sim.Spawn(send);
      g' := RecordAttempt(g, item, send, answer, st, i);
  }

  /** What a run has reported and sent after its first p items. */
  ghost predicate Reported(plan: seq<Item>, ds: seq<Decision>, prev: seq<Entity>, script: nat -> Reply, p: nat,
                           snapshots: seq<Manifest>, earlier: seq<Item>, sent: seq<Item>)
    requires |ds| == |plan| && p <= |plan|
  {
    && sent == earlier + Run(plan, ds, prev, script, p).sent && |snapshots| == p
    && forall k :: 0 <= k < p ==> snapshots[k] == Run(plan, ds, prev, script, k + 1).Snapshot()
  }

  lemma ReportedNext(plan: seq<Item>, ds: seq<Decision>, prev: seq<Entity>, script: nat -> Reply, i: nat,
                     snapshots: seq<Manifest>, earlier: seq<Item>, sent: seq<Item>, sent': seq<Item>, m: Manifest)
    requires |ds| == |plan| && i < |plan| && Reported(plan, ds, prev, script, i, snapshots, earlier, sent)
    requires var st, after := Run(plan, ds, prev, script, i), Run(plan, ds, prev, script, i + 1);
      st.sent <= after.sent && sent' == sent + after.sent[|st.sent|..] && m == after.Snapshot()
    ensures Reported(plan, ds, prev, script, i + 1, snapshots + [m], earlier, sent')
  {
    var st, after := Run(plan, ds, prev, script, i), Run(plan, ds, prev, script, i + 1);
    assert after.sent == st.sent + after.sent[|st.sent|..];
  }

  method SpawnAll(w: World, plan: seq<Item>, prev: seq<Entity>, existing: multiset<Group>, planned: map<nat, Option<Pt>>,
                  sim: Simulator, start: Progress, ghost ds: seq<Decision>, ghost script: nat -> Reply)
    returns (m: Manifest, snapshots: seq<Manifest>)
    requires w.Valid() && existing == Existing(w, prev) && PlannedFor(w, plan, prev, planned, w.spots.Keys)
    requires |ds| == |plan| && forall i {:trigger ds[i]} :: 0 <= i < |plan| ==> ds[i] == Decide(w, plan, prev, i)
    requires script == From(sim.replies, |sim.sent|)
    requires Mirrors(start, State(prev, [], [], [], [], false, []))
    modifies sim`sent
    ensures m == Run(plan, ds, prev, script, |plan|).Snapshot()
    ensures Reported(plan, ds, prev, script, |plan|, snapshots, old(sim.sent), sim.sent)
  {
    var seen: multiset<Group>, g := multiset{}, start;
    snapshots := [];
    for i := 0 to |plan|
      invariant seen == Seen(plan, i) && Mirrors(g, Run(plan, ds, prev, script, i))
      invariant Reported(plan, ds, prev, script, i, snapshots, old(sim.sent), sim.sent)
    {
      assert PlannedAt(w, plan, prev, planned, w.spots.Keys, i);
      var idxInGroup := seen[GroupOf(plan[i])];
      seen := seen + multiset{GroupOf(plan[i])};
      var d := DecideItem(w, plan, prev, i, idxInGroup, existing, planned);
      assert d == ds[i];
      g, snapshots := SpawnOne(plan, d, sim, g, snapshots, ds, prev, script, i, old(sim.sent));
    }
    m := g.Snapshot();
    MirrorsSnapshot(g, Run(plan, ds, prev, script, |plan|));
  }

  /** One round of the spawn pass: the decision carried out and the snapshot reported. */
  method SpawnOne(plan: seq<Item>, d: Decision, sim: Simulator, g: Progress, snapshots: seq<Manifest>,
                  ghost ds: seq<Decision>, ghost prev: seq<Entity>, ghost script: nat -> Reply, i: nat,
                  ghost earlier: seq<Item>)
    returns (g': Progress, snapshots': seq<Manifest>)
    requires |ds| == |plan| && i < |plan| && d == ds[i] && script == From(sim.replies, |earlier|)
    requires Mirrors(g, Run(plan, ds, prev, script, i))
    requires Reported(plan, ds, prev, script, i, snapshots, earlier, sim.sent)
    modifies sim`sent
    ensures Mirrors(g', Run(plan, ds, prev, script, i + 1))
    ensures Reported(plan, ds, prev, script, i + 1, snapshots', earlier, sim.sent)
  {
    ghost var st, after, sent := Run(plan, ds, prev, script, i), Run(plan, ds, prev, script, i + 1), sim.sent;
    ghost var reply;
    g', reply := DoItem(plan[i], d, sim, g, st, i);
    assert reply == script(|st.sent|) && after == Step(st, i, plan[i], d, reply);
    MirrorsSnapshot(g', after);
    ReportedNext(plan, ds, prev, script, i, snapshots, earlier, sent, sim.sent, g'.Snapshot());
    snapshots' := snapshots + [g'.Snapshot()];
  }

  function EntitiesOf(previous: Option<Manifest>): seq<Entity> {
    if previous.Some? then previous.value.entities else []
  }

  /** Spawns a plan against a simulator and an earlier manifest, reporting a snapshot after every item. */
  method ApplyPlan(w: World, plan: seq<Item>, sim: Simulator, previous: Option<Manifest>)
    returns (m: Manifest, snapshots: seq<Manifest>)
    requires w.Valid()
    modifies sim`sent
    ensures m == Apply(w, plan, EntitiesOf(previous), From(sim.replies, |old(sim.sent)|))
    ensures Reported(plan, Decisions(w, plan, EntitiesOf(previous)), EntitiesOf(previous),
                     From(sim.replies, |old(sim.sent)|), |plan|, snapshots, old(sim.sent), sim.sent)
  {
    var prev := EntitiesOf(previous);
    var base := BaseScenarioCounts(w);
    var records, okCounts, queues := ReadPrevious(prev);
    var existing := base + okCounts;
    var perSpot := GatherPerSpot(w, plan, existing);
    NothingPackedElsewhere(w, plan, prev, perSpot);
    forall where | where in perSpot
      ensures where in w.spots && perSpot[where] == Pending(w, plan, Existing(w, prev), where, |plan|)
    {
      assert Listed(perSpot, where) == perSpot[where];
    }
    var planned := PlanSpots(w, plan, prev, perSpot);
    m, snapshots := SpawnAll(w, plan, prev, existing, planned, sim, Progress(records, queues, |prev|, [], [], false),
                             Decisions(w, plan, prev), From(sim.replies, |sim.sent|));
  }

  // ------------------------------------------------------------------ clearing

  method DeleteWithOneRetry(sim: Simulator, name: Name) returns (reply: DeleteReply)
    modifies sim`deleted
    ensures reply == DeleteOnce(sim.deletes, |old(sim.deleted)|)
    ensures sim.deleted == old(sim.deleted)
            + if DeleteCalls(sim.deletes, |old(sim.deleted)|) == 2 then [name, name] else [name]
  {
    reply := sim.Delete(name);
    if reply.Timeout? { reply := sim.Delete(name); }
  }

  /** Deletes every ok entity; the skipped and not attempted lists pass through. */
  method ClearManifest(m: Manifest, sim: Simulator) returns (cleared: Manifest, snapshots: seq<Manifest>)
    modifies sim`deleted
    ensures var script := From(sim.deletes, |old(sim.deleted)|);
      && cleared == m.(entities := Clear(m.entities, script, |m.entities|).results)
      && sim.deleted == old(sim.deleted) + Clear(m.entities, script, |m.entities|).calls
      && |snapshots| == |m.entities|
      && forall p :: 0 <= p < |m.entities| ==> snapshots[p] == m.(entities := Clear(m.entities, script, p + 1).results)
  {
    ghost var script := From(sim.deletes, |sim.deleted|);
    var results: seq<Entity> := [];
    snapshots := [];
    for p := 0 to |m.entities|
      invariant results == Clear(m.entities, script, p).results
      invariant sim.deleted == old(sim.deleted) + Clear(m.entities, script, p).calls
      invariant |snapshots| == p
      invariant forall k :: 0 <= k < p ==> snapshots[k] == m.(entities := Clear(m.entities, script, k + 1).results)
    {
      var e := m.entities[p];
      if !e.ok {
        results := results + [e];
      } else {
        var reply := DeleteWithOneRetry(sim, e.name);
        results := results + [if reply.Answered? then e.(cleared := Some(reply.deleted), clearError := false)
                              else e.(cleared := Some(false), clearError := true)];
      }
      snapshots := snapshots + [m.(entities := results)];
    }
    cleared := m.(entities := results);
  }
}
