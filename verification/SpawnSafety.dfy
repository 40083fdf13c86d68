/** Geometry over whole histories: what is recorded as spawned on a surface stays on it and apart. */
module SpawnSafety {
  import opened Geometry
  import opened Packing
  import opened PackingLaws
  import opened Spawn
  import opened SpawnLaws
  import opened SpawnClear

  // A centre is reported rounded to 4 decimals: each coordinate moves by at most HALF_ULP.
  const HALF_ULP := 0.00005

  predicate OnSurface(w: World, e: Entity) { e.ok && e.where in w.spots }

  /** The rectangle recorded for e is on its usable surface, up to the rounding. */
  predicate Placed(w: World, e: Entity)
    requires e.where in w.spots
  {
    Within(RectOf(e), SurfaceOf(w.spots[e.where]).usable, EPS + HALF_ULP)
  }

  /** e is apart from every base object at its spot, up to the rounding. */
  predicate ClearOfBase(w: World, e: Entity)
    requires w.Valid() && e.where in w.spots
  {
    ClearOf(BaseRects(w, w.base.objects, e.where), RectOf(e), GAP - HALF_ULP)
  }

  predicate Separate(a: Entity, b: Entity) {
    a.ok && b.ok && a.where == b.where ==> Apart(RectOf(a), RectOf(b), GAP - 2.0 * HALF_ULP)
  }

  /** Every ok entity at a measured spot is on its surface, clear of the base objects and clear of
      every other ok entity there. */
  predicate Safe(w: World, es: seq<Entity>)
    requires w.Valid()
  {
    && (forall i :: 0 <= i < |es| && OnSurface(w, es[i]) ==> Placed(w, es[i]) && ClearOfBase(w, es[i]))
    && (forall i, j :: 0 <= i < j < |es| && OnSurface(w, es[i]) ==> Separate(es[i], es[j]))
  }

  /** A person's room is not the name of a measured spot. */
  predicate RoomsAreNoSpots(w: World, plan: seq<Item>) {
    forall i :: 0 <= i < |plan| && !OnSpot(w, plan[i]) ==> WhereOf(plan[i]) !in w.spots
  }

  // --------------------------------------------------- one planned placement

  lemma {:induction false} EntityRectsHas(es: seq<Entity>, where: string, e: Entity)
    requires e in es && e.ok && e.where == where
    ensures RectOf(e) in EntityRects(es, where)
  {
    var n := |es| - 1;
    if es[n] != e {
      assert e in es[..n];
      EntityRectsHas(es[..n], where, e);
    }
  }

  /** The centre packed for item i, before rounding. */
  function RawXy(w: World, plan: seq<Item>, prev: seq<Entity>, i: nat): Option<Pt>
    requires w.Valid() && i < |plan| && OnSpot(w, plan[i]) && !Skips(plan, Existing(w, prev), i)
  {
    PendingPosition(w, plan, Existing(w, prev), plan[i].spot, i, |plan|);
    PackedCentres(w, plan, prev, plan[i].spot)[|Pending(w, plan, Existing(w, prev), plan[i].spot, i)|]
  }

  /** The item is packed at its spot (not skipped, not a person). */
  predicate Packs(w: World, plan: seq<Item>, prev: seq<Entity>, i: nat)
    requires w.Valid() && i < |plan|
  {
    OnSpot(w, plan[i]) && !Skips(plan, Existing(w, prev), i)
  }

  /** A packed centre is on the surface and clear of everything the layout was seeded with. */
  lemma RawIsSound(w: World, plan: seq<Item>, prev: seq<Entity>, i: nat)
    requires w.Valid() && i < |plan| && Packs(w, plan, prev, i) && RawXy(w, plan, prev, i).Some?
    ensures var r := RectAt(RawXy(w, plan, prev, i).value, Footprint(plan[i].asset));
      var s := SurfaceOf(w.spots[plan[i].spot]);
      Within(r, s.usable, EPS) && ClearOf(Seed(w, prev, plan[i].spot), r, GAP)
  {
    var where, existing := plan[i].spot, Existing(w, prev);
    var idx := Pending(w, plan, existing, where, |plan|);
    PendingPosition(w, plan, existing, where, i, |plan|);
    var k := |Pending(w, plan, existing, where, i)|;
    SizesAreOk(plan, idx);
    PackAllSound(SurfaceOf(w.spots[where]), Seed(w, prev, where), Sizes(plan, idx), k);
  }

  lemma PositionsInOrder(w: World, plan: seq<Item>, existing: multiset<Group>, where: string, i: nat, j: nat)
    requires i < j < |plan| && OnSpot(w, plan[i]) && plan[i].spot == where && !Skips(plan, existing, i)
    requires OnSpot(w, plan[j]) && plan[j].spot == where && !Skips(plan, existing, j)
    ensures |Pending(w, plan, existing, where, i)| < |Pending(w, plan, existing, where, j)|
            < |Pending(w, plan, existing, where, |plan|)|
  {
    PendingPosition(w, plan, existing, where, i, j);
    PendingPosition(w, plan, existing, where, j, |plan|);
  }

  lemma BatchApart(s: Surface, occupied: seq<Rect>, fs: seq<Size>, a: nat, b: nat)
    requires s.Valid() && SizesOk(fs) && a < b < |fs|
    requires PackAll(s, occupied, fs)[a].Some? && PackAll(s, occupied, fs)[b].Some?
    ensures Apart(RectAt(PackAll(s, occupied, fs)[b].value, fs[b]), RectAt(PackAll(s, occupied, fs)[a].value, fs[a]), s.gap)
  {
    PackAllSound(s, occupied, fs, b);
  }

  /** Two packed centres at one spot are a full gap apart. */
  lemma RawsApart(w: World, plan: seq<Item>, prev: seq<Entity>, i: nat, j: nat)
    requires w.Valid() && i < j < |plan| && Packs(w, plan, prev, i) && Packs(w, plan, prev, j)
    requires plan[i].spot == plan[j].spot
    requires RawXy(w, plan, prev, i).Some? && RawXy(w, plan, prev, j).Some?
    ensures Apart(RectAt(RawXy(w, plan, prev, j).value, Footprint(plan[j].asset)),
                  RectAt(RawXy(w, plan, prev, i).value, Footprint(plan[i].asset)), GAP)
  {
    var where, existing := plan[i].spot, Existing(w, prev);
    var idx := Pending(w, plan, existing, where, |plan|);
    var a, b := |Pending(w, plan, existing, where, i)|, |Pending(w, plan, existing, where, j)|;
    PositionsInOrder(w, plan, existing, where, i, j);
    assert idx[a] == i && idx[b] == j by {
      PendingPosition(w, plan, existing, where, i, |plan|);
      PendingPosition(w, plan, existing, where, j, |plan|);
    }
    SizesAreOk(plan, idx);
    BatchApart(SurfaceOf(w.spots[where]), Seed(w, prev, where), Sizes(plan, idx), a, b);
  }

  // ------------------------------------------------------------ rounded records

  lemma Rounded(p: Pt)
    ensures var q := RoundPt(p);
      -HALF_ULP <= q.x - p.x <= HALF_ULP && -HALF_ULP <= q.y - p.y <= HALF_ULP
  {
  }

  lemma RoundedWithin(p: Pt, f: Size, u: Rect)
    requires Within(RectAt(p, f), u, EPS)
    ensures Within(RectAt(RoundPt(p), f), u, EPS + HALF_ULP)
  {
    Rounded(p);
  }

  lemma RoundedApart(p: Pt, f: Size, r: Rect)
    requires Apart(RectAt(p, f), r, GAP)
    ensures Apart(RectAt(RoundPt(p), f), r, GAP - HALF_ULP)
  {
    Rounded(p);
  }

  lemma BothRoundedApart(p: Pt, f: Size, q: Pt, h: Size)
    requires Apart(RectAt(p, f), RectAt(q, h), GAP)
    ensures Apart(RectAt(RoundPt(q), h), RectAt(RoundPt(p), f), GAP - 2.0 * HALF_ULP)
  {
    Rounded(p);
    Rounded(q);
    ApartAfterShift(p, RoundPt(p), f, q, RoundPt(q), h, GAP, HALF_ULP, HALF_ULP);
    ApartSymmetric(RectAt(RoundPt(p), f), RectAt(RoundPt(q), h), GAP - 2.0 * HALF_ULP);
  }

  /** e records the placement of plan item i. */
  predicate Records(w: World, plan: seq<Item>, prev: seq<Entity>, e: Entity, i: nat)
    requires w.Valid()
  {
    && i < |plan| && Packs(w, plan, prev, i) && RawXy(w, plan, prev, i).Some?
    && e.asset == plan[i].asset && e.where == plan[i].spot && e.xyz.Xy() == RoundPt(RawXy(w, plan, prev, i).value)
  }

  lemma AttemptRecords(w: World, plan: seq<Item>, prev: seq<Entity>, i: nat, send: Item, reply: Reply)
    requires w.Valid() && i < |plan| && Decide(w, plan, prev, i) == Attempt(send)
    requires RoomsAreNoSpots(w, plan) && OnSurface(w, Outcome(send, reply))
    ensures Records(w, plan, prev, Outcome(send, reply), i)
  {
  }

  /** What RawIsSound says of the record: near a centre that is on the surface and clear of the seed. */
  predicate NearSound(w: World, prev: seq<Entity>, e: Entity, raw: Pt)
    requires w.Valid() && e.where in w.spots
  {
    && e.xyz.Xy() == RoundPt(raw)
    && Within(RectAt(raw, Footprint(e.asset)), SurfaceOf(w.spots[e.where]).usable, EPS)
    && ClearOf(Seed(w, prev, e.where), RectAt(raw, Footprint(e.asset)), GAP)
  }

  lemma RecordNearSound(w: World, plan: seq<Item>, prev: seq<Entity>, e: Entity, i: nat)
    requires w.Valid() && Records(w, plan, prev, e, i) && OnSurface(w, e)
    ensures NearSound(w, prev, e, RawXy(w, plan, prev, i).value)
  {
    RawIsSound(w, plan, prev, i);
  }

  lemma NearSoundClearOfBase(w: World, prev: seq<Entity>, e: Entity, raw: Pt)
    requires w.Valid() && OnSurface(w, e) && NearSound(w, prev, e, raw)
    ensures Placed(w, e) && ClearOfBase(w, e)
  {
    var base, f := BaseRects(w, w.base.objects, e.where), Footprint(e.asset);
    RoundedWithin(raw, f, SurfaceOf(w.spots[e.where]).usable);
    forall k | 0 <= k < |base| ensures Apart(RectOf(e), base[k], GAP - HALF_ULP) {
      assert Seed(w, prev, e.where)[k] == base[k];
      RoundedApart(raw, f, base[k]);
    }
  }

  lemma NearSoundSeparate(w: World, prev: seq<Entity>, e: Entity, raw: Pt, d: Entity)
    requires w.Valid() && OnSurface(w, e) && NearSound(w, prev, e, raw) && d in prev
    ensures Separate(d, e)
  {
    if d.ok && d.where == e.where {
      var base, mine := BaseRects(w, w.base.objects, e.where), EntityRects(prev, e.where);
      EntityRectsHas(prev, e.where, d);
      var k :| 0 <= k < |mine| && mine[k] == RectOf(d);
      assert Seed(w, prev, e.where)[|base| + k] == mine[k];
      RoundedApart(raw, Footprint(e.asset), RectOf(d));
      ApartSymmetric(RectOf(e), RectOf(d), GAP - 2.0 * HALF_ULP);
    }
  }

  lemma RecordSafe(w: World, plan: seq<Item>, prev: seq<Entity>, e: Entity, i: nat)
    requires w.Valid() && Records(w, plan, prev, e, i) && OnSurface(w, e)
    ensures Placed(w, e) && ClearOfBase(w, e)
    ensures forall d :: d in prev ==> Separate(d, e)
  {
    var raw := RawXy(w, plan, prev, i).value;
    RecordNearSound(w, plan, prev, e, i);
    NearSoundClearOfBase(w, prev, e, raw);
    forall d | d in prev ensures Separate(d, e) { NearSoundSeparate(w, prev, e, raw, d); }
  }

  lemma RecordsSeparate(w: World, plan: seq<Item>, prev: seq<Entity>, a: Entity, i: nat, b: Entity, j: nat)
    requires w.Valid() && Records(w, plan, prev, a, i) && Records(w, plan, prev, b, j) && i < j
    ensures Separate(a, b)
  {
    if a.where == b.where {
      RawsApart(w, plan, prev, i, j);
      BothRoundedApart(RawXy(w, plan, prev, j).value, Footprint(b.asset), RawXy(w, plan, prev, i).value, Footprint(a.asset));
    }
  }

  // ------------------------------------------------------------------ one run

  lemma Reassociate(a: seq<Entity>, b: seq<Entity>, c: seq<Entity>)
    ensures a + (b + c) == a + b + c
  {
  }

  lemma {:induction false} DropFailedShape(es: seq<Entity>, g: Group) returns (k: nat)
    ensures k <= |es| && DropFailed(es, g) == if k == |es| then es else es[..k] + es[k + 1..]
  {
    if es == [] || StaleAt(es, g, 0) {
      k := 0;
    } else {
      var rest := es[1..];
      var l := DropFailedShape(rest, g);
      k := l + 1;
      if l == |rest| {
        assert [es[0]] + rest == es;
      } else {
        assert es[..k] == [es[0]] + rest[..l] && es[k + 1..] == rest[l + 1..];
        Reassociate([es[0]], rest[..l], rest[l + 1..]);
      }
    }
  }

  lemma SafeWithout(w: World, es: seq<Entity>, k: nat)
    requires w.Valid() && Safe(w, es) && k < |es|
    ensures Safe(w, es[..k] + es[k + 1..])
  {
    var r := es[..k] + es[k + 1..];
    assert forall i :: 0 <= i < |r| ==> r[i] == es[if i < k then i else i + 1];
  }

  /** kept holds some of prev's records, and is safe. */
  predicate KeptSafe(w: World, prev: seq<Entity>, kept: seq<Entity>)
    requires w.Valid()
  {
    Safe(w, kept) && forall e :: e in kept ==> e in prev
  }

  lemma DropKeepsSafe(w: World, prev: seq<Entity>, kept: seq<Entity>, g: Group)
    requires w.Valid() && KeptSafe(w, prev, kept)
    ensures KeptSafe(w, prev, DropFailed(kept, g))
  {
    var k := DropFailedShape(kept, g);
    if k < |kept| { SafeWithout(w, kept, k); }
  }

  lemma {:induction false} KeptStaysSafe(w: World, plan: seq<Item>, ds: seq<Decision>, prev: seq<Entity>,
                                         script: nat -> Reply, p: nat)
    requires w.Valid() && |ds| == |plan| && p <= |plan| && Safe(w, prev)
    ensures KeptSafe(w, prev, Run(plan, ds, prev, script, p).kept)
  {
    if p > 0 {
      KeptStaysSafe(w, plan, ds, prev, script, p - 1);
      DropKeepsSafe(w, prev, Run(plan, ds, prev, script, p - 1).kept, GroupOf(plan[p - 1]));
    }
  }

  /** The fresh records, each with the plan index it comes from, in increasing order. */
  predicate AllRecord(w: World, plan: seq<Item>, prev: seq<Entity>, made: seq<Entity>, origin: seq<nat>)
    requires w.Valid()
  {
    && |made| == |origin|
    && (forall k :: 0 <= k < |made| && OnSurface(w, made[k]) ==> Records(w, plan, prev, made[k], origin[k]))
    && (forall k, l :: 0 <= k < l < |origin| ==> origin[k] < origin[l])
  }

  lemma {:induction false} Increasing(ds: seq<Decision>, script: nat -> Reply, st: State, p: nat, k: nat, l: nat)
    requires FreshOk(ds, script, st, p) && k < l < |st.sent|
    ensures st.origin[k] < st.origin[l]
  {
    assert FreshAt(ds, script, st, p, l);
    if k < l - 1 { Increasing(ds, script, st, p, k, l - 1); }
  }

  lemma FreshAllRecord(w: World, plan: seq<Item>, prev: seq<Entity>, ds: seq<Decision>, script: nat -> Reply, st: State,
                       p: nat)
    requires w.Valid() && RoomsAreNoSpots(w, plan) && ds == Decisions(w, plan, prev)
    requires FreshOk(ds, script, st, p)
    ensures AllRecord(w, plan, prev, st.made, st.origin)
  {
    forall k | 0 <= k < |st.made| && OnSurface(w, st.made[k]) ensures Records(w, plan, prev, st.made[k], st.origin[k]) {
      assert FreshAt(ds, script, st, p, k);
      AttemptRecords(w, plan, prev, st.origin[k], st.sent[k], script(k));
    }
    forall k, l | 0 <= k < l < |st.origin| ensures st.origin[k] < st.origin[l] {
      Increasing(ds, script, st, p, k, l);
    }
  }

  lemma FreshPairSafe(w: World, plan: seq<Item>, prev: seq<Entity>, made: seq<Entity>, origin: seq<nat>, k: nat, l: nat)
    requires w.Valid() && AllRecord(w, plan, prev, made, origin) && k < l < |made| && OnSurface(w, made[k])
    ensures Separate(made[k], made[l])
  {
    if made[l].ok && made[l].where == made[k].where {
      RecordsSeparate(w, plan, prev, made[k], origin[k], made[l], origin[l]);
    }
  }

  lemma FreshSafe(w: World, plan: seq<Item>, prev: seq<Entity>, made: seq<Entity>, origin: seq<nat>, l: nat)
    requires w.Valid() && AllRecord(w, plan, prev, made, origin) && l < |made| && OnSurface(w, made[l])
    ensures Placed(w, made[l]) && ClearOfBase(w, made[l])
    ensures forall d :: d in prev ==> Separate(d, made[l])
  {
    RecordSafe(w, plan, prev, made[l], origin[l]);
  }

  lemma SafeTogether(w: World, plan: seq<Item>, prev: seq<Entity>, kept: seq<Entity>, made: seq<Entity>, origin: seq<nat>)
    requires w.Valid() && KeptSafe(w, prev, kept) && AllRecord(w, plan, prev, made, origin)
    ensures Safe(w, kept + made)
  {
    forall l | 0 <= l < |made| && OnSurface(w, made[l])
      ensures Placed(w, made[l]) && ClearOfBase(w, made[l]) && forall d :: d in prev ==> Separate(d, made[l])
    {
      FreshSafe(w, plan, prev, made, origin, l);
    }
    forall k, l | 0 <= k < l < |made| && OnSurface(w, made[k]) ensures Separate(made[k], made[l]) {
      FreshPairSafe(w, plan, prev, made, origin, k, l);
    }
    Joined(w, prev, kept, made);
  }

  lemma Joined(w: World, prev: seq<Entity>, kept: seq<Entity>, made: seq<Entity>)
    requires w.Valid() && KeptSafe(w, prev, kept)
    requires forall l :: 0 <= l < |made| && OnSurface(w, made[l]) ==> Placed(w, made[l]) && ClearOfBase(w, made[l])
    requires forall d, l :: d in prev && 0 <= l < |made| && OnSurface(w, made[l]) ==> Separate(d, made[l])
    requires forall k, l :: 0 <= k < l < |made| && OnSurface(w, made[k]) ==> Separate(made[k], made[l])
    ensures Safe(w, kept + made)
  {
    var es, n := kept + made, |kept|;
    forall i, j | 0 <= i < j < |es| && OnSurface(w, es[i]) ensures Separate(es[i], es[j]) {
      if i < n <= j && es[j].ok && es[j].where == es[i].where {
        assert es[i] in kept && OnSurface(w, made[j - n]);
      }
    }
  }

  /** Every snapshot of a run is safe, whatever the simulator answers: the manifest stays safe if the run
      is killed after any item. */
  lemma SnapshotsAreSafe(w: World, plan: seq<Item>, prev: seq<Entity>, script: nat -> Reply, p: nat)
    requires w.Valid() && RoomsAreNoSpots(w, plan) && Safe(w, prev) && p <= |plan|
    ensures Safe(w, Run(plan, Decisions(w, plan, prev), prev, script, p).Snapshot().entities)
  {
    var ds := Decisions(w, plan, prev);
    var st := Run(plan, ds, prev, script, p);
    KeptStaysSafe(w, plan, ds, prev, script, p);
    FreshRecords(plan, ds, prev, script, p);
    FreshAllRecord(w, plan, prev, ds, script, st, p);
    SafeTogether(w, plan, prev, st.kept, st.made, st.origin);
  }

  /** One run keeps the manifest safe, whatever the simulator answers. */
  lemma ApplyKeepsSafe(w: World, plan: seq<Item>, prev: seq<Entity>, script: nat -> Reply)
    requires w.Valid() && RoomsAreNoSpots(w, plan) && Safe(w, prev)
    ensures Safe(w, Apply(w, plan, prev, script).entities)
  {
    SnapshotsAreSafe(w, plan, prev, script, |plan|);
  }

  // ----------------------------------------------------------------- clearing

  /** A clear keeps the manifest safe, also if it is killed after any number of entities. */
  lemma ClearKeepsSafe(w: World, es: seq<Entity>, script: nat -> DeleteReply, stop: nat)
    requires w.Valid() && Safe(w, es)
    ensures Safe(w, ClearKilled(es, script, stop))
  {
    var p := if stop < |es| then stop else |es|;
    if stop > 0 {
      ClearKeepsRecords(es, script, p);
      SafeIfSame(w, es, Clear(es, script, p).results);
    }
  }

  /** b holds the first |b| records of a, up to their clearing marks. */
  lemma SafeIfSame(w: World, a: seq<Entity>, b: seq<Entity>)
    requires w.Valid() && Safe(w, a) && |a| >= |b| && forall i :: 0 <= i < |b| ==> SameRecord(a[i], b[i])
    ensures Safe(w, b)
  {
    forall i | 0 <= i < |b| && OnSurface(w, b[i]) ensures Placed(w, b[i]) && ClearOfBase(w, b[i]) {
      assert SameRecord(a[i], b[i]) && OnSurface(w, a[i]);
    }
    forall i, j | 0 <= i < j < |b| && OnSurface(w, b[i]) ensures Separate(b[i], b[j]) {
      assert SameRecord(a[i], b[i]) && SameRecord(a[j], b[j]) && OnSurface(w, a[i]);
      assert Separate(a[i], a[j]);
    }
  }

  // ---------------------------------------------------------------- histories

  /** One use of the manifest file: a plan applied to it, or everything in it cleared, by a process that
      is killed after it has reported stop items, if it gets that far not; or a process killed inside its
      last, plain write, which leaves nothing that can be read. */
  datatype Use =
    | ApplyUse(plan: seq<Item>, replies: nat -> Reply, stop: nat)
    | ClearUse(deletes: nat -> DeleteReply, stop: nat)
    | Torn

  function After(w: World, es: seq<Entity>, use: Use): seq<Entity>
    requires w.Valid()
  {
    match use
    case ApplyUse(plan, replies, stop) => ApplyKilled(w, plan, es, replies, stop)
    case ClearUse(deletes, stop) => ClearKilled(es, deletes, stop)
    case Torn => []
  }

  function Uses(w: World): (seq<Entity>, Use) -> seq<Entity>
    requires w.Valid()
  {
    (es: seq<Entity>, use: Use) => After(w, es, use)
  }

  /** The entities after the first n uses, starting from none. */
  function AfterAll(next: (seq<Entity>, Use) -> seq<Entity>, uses: seq<Use>, n: nat): seq<Entity>
    requires n <= |uses|
  {
    if n == 0 then [] else next(AfterAll(next, uses, n - 1), uses[n - 1])
  }

  lemma {:induction false} KeptByAll(next: (seq<Entity>, Use) -> seq<Entity>, safe: seq<Entity> -> bool, uses: seq<Use>,
                                     n: nat)
    requires n <= |uses| && safe([])
    requires forall es, k :: 0 <= k < |uses| && safe(es) ==> safe(next(es, uses[k]))
    ensures safe(AfterAll(next, uses, n))
  {
    if n > 0 { KeptByAll(next, safe, uses, n - 1); }
  }

  /** Every manifest reachable from an empty one - by any number of runs of any plans and any number
      of clears, each killed at any point or not, with any answers of the simulator - is safe. */
  lemma HistoriesAreSafe(w: World, uses: seq<Use>, n: nat)
    requires w.Valid() && n <= |uses| && UsesFit(w, uses)
    ensures Safe(w, AfterAll(Uses(w), uses, n))
  {
    var safe := es => Safe(w, es);
    NothingIsSafe(w);
    forall es, k | 0 <= k < |uses| && safe(es) ensures safe(Uses(w)(es, uses[k])) {
      FitsAt(w, uses, k);
      UseKeepsSafe(w, es, uses[k], After(w, es, uses[k]));
    }
    KeptByAll(Uses(w), safe, uses, n);
  }

  predicate UseFits(w: World, use: Use) { use.ApplyUse? ==> RoomsAreNoSpots(w, use.plan) }

  /** No plan of the history has a room named like a measured spot. */
  predicate UsesFit(w: World, uses: seq<Use>) { forall k {:trigger uses[k]} :: 0 <= k < |uses| ==> UseFits(w, uses[k]) }

  lemma FitsAt(w: World, uses: seq<Use>, k: nat)
    requires k < |uses| && UsesFit(w, uses)
    ensures UseFits(w, uses[k])
  {
  }

  lemma NothingIsSafe(w: World)
    requires w.Valid()
    ensures Safe(w, [])
  {
  }

  lemma UseKeepsSafe(w: World, es: seq<Entity>, use: Use, after: seq<Entity>)
    requires w.Valid() && Safe(w, es) && UseFits(w, use) && after == After(w, es, use)
    ensures Safe(w, after)
  {
    match use
    case ApplyUse(plan, replies, stop) => SnapshotsAreSafe(w, plan, es, replies, if stop < |plan| then stop else |plan|);
    case ClearUse(deletes, stop) => ClearKeepsSafe(w, es, deletes, stop);
    case Torn => NothingIsSafe(w);
  }
}
