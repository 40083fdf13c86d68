/** When histories are safe at all: an item without a measured spot, in a room named like one, is recorded at
    that spot without being packed there. */
module SpawnRooms {
  import opened Spawn
  import opened SpawnLaws
  import opened SpawnSafety

  /** No item without a measured spot has a room named like one. */
  predicate ItemsFit(w: World, items: set<Item>) {
    forall item :: item in items && !OnSpot(w, item) ==> WhereOf(item) !in w.spots
  }

  /** The plans of the history consist of these items. */
  predicate DrawnFrom(uses: seq<Use>, items: set<Item>) {
    forall k :: 0 <= k < |uses| ==> PlanFrom(uses[k], items)
  }

  predicate PlanFrom(use: Use, items: set<Item>) {
    use.ApplyUse? ==> forall i :: 0 <= i < |use.plan| ==> use.plan[i] in items
  }

  /** All manifests reachable with plans drawn from a set of items are safe if and only if no item of the
      set without a measured spot has a room named like one. */
  lemma RoomsDecideSafety(w: World, items: set<Item>)
    requires w.Valid()
    ensures ItemsFit(w, items) <==> AllSafe(w, items)
  {
    if ItemsFit(w, items) { FitIsSafe(w, items); } else { MisfitIsUnsafe(w, items); }
  }

  ghost predicate AllSafe(w: World, items: set<Item>)
    requires w.Valid()
  {
    forall uses: seq<Use>, n: nat :: n <= |uses| && DrawnFrom(uses, items) ==> Safe(w, AfterAll(Uses(w), uses, n))
  }

  lemma FitIsSafe(w: World, items: set<Item>)
    requires w.Valid() && ItemsFit(w, items)
    ensures AllSafe(w, items)
  {
    forall uses: seq<Use>, n: nat | n <= |uses| && DrawnFrom(uses, items) ensures Safe(w, AfterAll(Uses(w), uses, n)) {
      DrawnFits(w, items, uses);
      HistoriesAreSafe(w, uses, n);
    }
  }

  lemma DrawnFits(w: World, items: set<Item>, uses: seq<Use>)
    requires ItemsFit(w, items) && DrawnFrom(uses, items)
    ensures UsesFit(w, uses)
  {
    forall k | 0 <= k < |uses| ensures UseFits(w, uses[k]) { assert PlanFrom(uses[k], items); }
  }

  lemma MisfitIsUnsafe(w: World, items: set<Item>)
    requires w.Valid() && !ItemsFit(w, items)
    ensures !AllSafe(w, items)
  {
    var item :| item in items && !OnSpot(w, item) && WhereOf(item) in w.spots;
    var plan, script := CopiesAreUnsafe(w, item);
    var use := ApplyUse(plan, script, |plan|);
    assert DrawnFrom([use], items) by { assert PlanFrom(use, items); }
    OneUse(w, use);
  }

  lemma OneUse(w: World, use: Use)
    requires w.Valid()
    ensures AfterAll(Uses(w), [use], 1) == After(w, [], use)
  {
    assert AfterAll(Uses(w), [use], 0) == [];
  }

  function Copies(item: Item, n: nat): seq<Item> { seq(n, _ => item) }

  /** Two more copies of such an item than there are base records of its group, every call answered that
      the entity exists: two records at one pose. */
  lemma CopiesAreUnsafe(w: World, item: Item) returns (plan: seq<Item>, script: nat -> Reply)
    requires w.Valid() && !OnSpot(w, item) && WhereOf(item) in w.spots
    ensures (forall i :: 0 <= i < |plan| ==> plan[i] == item) && !Safe(w, Apply(w, plan, [], script).entities)
  {
    plan, script := Copies(item, Existing(w, [])[GroupOf(item)] + 2), (_: nat) => AlreadyExists;
    var ds, n := Decisions(w, plan, []), |plan|;
    var st := Run(plan, ds, [], script, n);
    CopiesAttempted(w, plan, item);
    DecisionsAreFor(w, plan, []);
    DecisionsSkip(w, plan, []);
    NothingLeft(plan, ds, [], script, n);
    TwoMade(plan, item, ds, script, Existing(w, []));
    FreshRecords(plan, ds, [], script, n);
    SameRecords(w, item, ds, script, st, n);
    TwoAlike(w, st.kept, st.made);
  }

  /** Copies of an item without a measured spot are skipped or sent as they are. */
  lemma CopiesAttempted(w: World, plan: seq<Item>, item: Item)
    requires w.Valid() && !OnSpot(w, item) && plan == Copies(item, |plan|)
    ensures OnlySends(Decisions(w, plan, []), item)
  {
    forall i | 0 <= i < |plan| ensures SkipsOrSends(Decisions(w, plan, [])[i], item) { assert plan[i] == item; }
  }

  predicate SkipsOrSends(d: Decision, item: Item) { d == Skip || d == Attempt(item) }

  predicate OnlySends(ds: seq<Decision>, item: Item) { forall i {:trigger ds[i]} :: 0 <= i < |ds| ==> SkipsOrSends(ds[i], item) }

  lemma TwoMade(plan: seq<Item>, item: Item, ds: seq<Decision>, script: nat -> Reply, existing: multiset<Group>)
    requires plan == Copies(item, existing[GroupOf(item)] + 2) && DecisionsFor(plan, ds) && SkipsAs(plan, ds, existing)
    requires Run(plan, ds, [], script, |plan|).notAttempted == []
    ensures |Run(plan, ds, [], script, |plan|).made| >= 2
  {
    var made := Run(plan, ds, [], script, |plan|).made;
    SeenCopies(item, |plan|, |plan|);
    FreshMeetsNeeds(plan, ds, [], script, existing, |plan|);
    NeedsAreTheExcess(plan, existing, |plan|);
    TwoNeeded(multiset(EntityGroups(made)), Seen(plan, |plan|), existing, GroupOf(item), |plan|);
    assert |multiset(EntityGroups(made))| == |EntityGroups(made)| == |made|;
  }

  lemma {:induction false} SeenCopies(item: Item, n: nat, k: nat)
    requires k <= n
    ensures Seen(Copies(item, n), k)[GroupOf(item)] == k
  {
    if k > 0 { SeenCopies(item, n, k - 1); }
  }

  lemma TwoNeeded(needs: multiset<Group>, seen: multiset<Group>, existing: multiset<Group>, g: Group, n: nat)
    requires needs == seen - existing && seen[g] == n && n == existing[g] + 2
    ensures |needs| >= 2
  {
    assert needs[g] == 2;
    assert needs == needs[g := 0] + multiset{g, g};
  }

  /** With no outage and nothing refused, nothing is left unattempted. */
  lemma {:induction false} NothingLeft(plan: seq<Item>, ds: seq<Decision>, prev: seq<Entity>, script: nat -> Reply, p: nat)
    requires |ds| == |plan| && p <= |plan| && (forall k: nat :: script(k) == AlreadyExists)
    requires forall i {:trigger ds[i]} :: 0 <= i < |ds| ==> !ds[i].Refuse?
    ensures Run(plan, ds, prev, script, p).notAttempted == [] && !Run(plan, ds, prev, script, p).down
  {
    if p > 0 {
      NothingLeft(plan, ds, prev, script, p - 1);
      assert !ds[p - 1].Refuse?;
    }
  }

  lemma SameRecords(w: World, item: Item, ds: seq<Decision>, script: nat -> Reply, st: State, p: nat)
    requires OnlySends(ds, item) && FreshOk(ds, script, st, p)
    requires WhereOf(item) in w.spots && forall k: nat :: script(k) == AlreadyExists
    ensures forall k :: 0 <= k < |st.made| ==> st.made[k] == Outcome(item, AlreadyExists) && OnSurface(w, st.made[k])
  {
    forall k | 0 <= k < |st.made| ensures st.made[k] == Outcome(item, AlreadyExists) && OnSurface(w, st.made[k]) {
      assert FreshAt(ds, script, st, p, k);
      assert SkipsOrSends(ds[st.origin[k]], item);
    }
  }

  lemma TwoAlike(w: World, kept: seq<Entity>, made: seq<Entity>)
    requires w.Valid() && |made| >= 2 && made[0] == made[1] && OnSurface(w, made[0])
    ensures !Safe(w, kept + made)
  {
    var es, n := kept + made, |kept|;
    assert es[n] == made[0] && es[n + 1] == made[1];
    assert !Separate(es[n], es[n + 1]);
  }
}
