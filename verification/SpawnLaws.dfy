/** Counting laws of one run of the reconciler, for every plan, manifest and simulator. */
module SpawnLaws {
  import opened PackingLaws
  import opened Spawn

  function EntityIds(es: seq<Entity>): seq<string> { seq(|es|, i requires 0 <= i < |es| => es[i].id) }

  function SkippedIds(s: seq<Skipped>): seq<string> { seq(|s|, i requires 0 <= i < |s| => s[i].id) }

  function NotAttemptedIds(s: seq<NotAttempted>): seq<string> { seq(|s|, i requires 0 <= i < |s| => s[i].id) }

  /** Each decision is about its own item: an attempt sends the item, re-placed at most. */
  predicate DecisionsFor(plan: seq<Item>, ds: seq<Decision>) {
    |ds| == |plan|
    && forall i {:trigger ds[i]} :: 0 <= i < |plan| ==> SameItem(plan[i], ds[i])
  }

  predicate SameItem(item: Item, d: Decision) { d.Attempt? ==> d.item == item.(xyz := d.item.xyz) }

  lemma DecisionIsFor(w: World, plan: seq<Item>, prev: seq<Entity>, i: nat)
    requires w.Valid() && i < |plan|
    ensures SameItem(plan[i], Decide(w, plan, prev, i))
  {
  }

  lemma DecisionsAreFor(w: World, plan: seq<Item>, prev: seq<Entity>)
    requires w.Valid()
    ensures DecisionsFor(plan, Decisions(w, plan, prev))
  {
    forall i | 0 <= i < |plan| ensures SameItem(plan[i], Decisions(w, plan, prev)[i]) { DecisionIsFor(w, plan, prev, i); }
  }

  lemma SizesAreOk(plan: seq<Item>, idx: seq<nat>)
    requires forall k :: 0 <= k < |idx| ==> idx[k] < |plan|
    ensures SizesOk(Sizes(plan, idx))
  {
  }

  lemma OksAppend(es: seq<Entity>, e: Entity)
    ensures Oks(es + [e]) == if e.ok then Oks(es) + [e] else Oks(es)
    ensures Fails(es + [e]) == if e.ok then Fails(es) else Fails(es) + [e]
  {
    assert (es + [e])[..|es|] == es;
  }

  lemma {:induction false} OksConcat(a: seq<Entity>, b: seq<Entity>)
    ensures Oks(a + b) == Oks(a) + Oks(b)
    ensures Fails(a + b) == Fails(a) + Fails(b)
  {
    if b == [] {
      assert a + b == a;
    } else {
      var n := |b| - 1;
      assert a + b == (a + b[..n]) + [b[n]] && b == b[..n] + [b[n]];
      OksConcat(a, b[..n]);
      OksAppend(a + b[..n], b[n]);
      OksAppend(b[..n], b[n]);
    }
  }

  lemma GroupsAppend(es: seq<Entity>, e: Entity)
    ensures multiset(EntityGroups(es + [e])) == multiset(EntityGroups(es)) + multiset{e.InGroup()}
  {
    assert EntityGroups(es + [e]) == EntityGroups(es) + [e.InGroup()];
  }

  lemma GroupsConcat(a: seq<Entity>, b: seq<Entity>)
    ensures multiset(EntityGroups(a + b)) == multiset(EntityGroups(a)) + multiset(EntityGroups(b))
  {
    assert EntityGroups(a + b) == EntityGroups(a) + EntityGroups(b);
  }

  // ------------------------------------------------------------ stale records

  lemma OksPrepend(e: Entity, es: seq<Entity>)
    ensures Oks([e] + es) == if e.ok then [e] + Oks(es) else Oks(es)
    ensures Fails([e] + es) == if e.ok then Fails(es) else [e] + Fails(es)
  {
    OksConcat([e], es);
    OksAppend([], e);
    assert [] + [e] == [e] && [] + Oks(es) == Oks(es) && [] + Fails(es) == Fails(es);
  }

  lemma GroupsPrepend(e: Entity, es: seq<Entity>)
    ensures multiset(EntityGroups([e] + es)) == multiset{e.InGroup()} + multiset(EntityGroups(es))
  {
    assert EntityGroups([e] + es) == [e.InGroup()] + EntityGroups(es);
  }

  function FailGroups(es: seq<Entity>): multiset<Group> { multiset(EntityGroups(Fails(es))) }

  lemma FailGroupsPrepend(e: Entity, es: seq<Entity>)
    ensures FailGroups([e] + es) == (if e.ok then multiset{} else multiset{e.InGroup()}) + FailGroups(es)
  {
    OksPrepend(e, es);
    if !e.ok { GroupsPrepend(e, Fails(es)); }
  }

  /** Dropping a stale record removes exactly the first failed one of the group, if there is one. */
  lemma {:induction false} DropFailedLaw(es: seq<Entity>, g: Group)
    ensures Oks(DropFailed(es, g)) == Oks(es)
    ensures FailGroups(DropFailed(es, g)) == FailGroups(es) - multiset{g}
  {
    if es != [] {
      var e, rest := es[0], es[1..];
      assert es == [e] + rest;
      OksPrepend(e, rest);
      FailGroupsPrepend(e, rest);
      if !StaleAt(es, g, 0) {
        DropFailedLaw(rest, g);
        OksPrepend(e, DropFailed(rest, g));
        FailGroupsPrepend(e, DropFailed(rest, g));
      }
    }
  }

  // ------------------------------------------------------------------- a run

  function IdsOf(st: State): multiset<string> {
    multiset(EntityIds(st.made)) + multiset(SkippedIds(st.skipped)) + multiset(NotAttemptedIds(st.notAttempted))
  }

  lemma StepAddsOneId(st: State, i: nat, item: Item, d: Decision, reply: Reply)
    requires SameItem(item, d)
    ensures IdsOf(Step(st, i, item, d, reply)) == IdsOf(st) + multiset{item.id}
  {
    var after := Step(st, i, item, d, reply);
    if st.down || d.Refuse? {
      assert NotAttemptedIds(after.notAttempted) == NotAttemptedIds(st.notAttempted) + [item.id];
    } else if d.Skip? {
      assert SkippedIds(after.skipped) == SkippedIds(st.skipped) + [item.id];
    } else {
      assert EntityIds(after.made) == EntityIds(st.made) + [item.id];
    }
  }

  /** Ids of the first n items. */
  function PlanIds(plan: seq<Item>, n: nat): multiset<string>
    requires n <= |plan|
  {
    if n == 0 then multiset{} else PlanIds(plan, n - 1) + multiset{plan[n - 1].id}
  }

  lemma IdsAfter(plan: seq<Item>, i: nat, st: State, after: State, d: Decision, reply: Reply)
    requires i < |plan| && SameItem(plan[i], d) && IdsOf(st) == PlanIds(plan, i)
    requires after == Step(st, i, plan[i], d, reply)
    ensures IdsOf(after) == PlanIds(plan, i + 1)
  {
    StepAddsOneId(st, i, plan[i], d, reply);
  }

  /** Every snapshot is a partition: the ids of the first p items are those of the fresh records, of
      the skipped and of the not attempted ones, each once. */
  lemma {:induction false} SnapshotPartition(plan: seq<Item>, ds: seq<Decision>, prev: seq<Entity>,
                                             script: nat -> Reply, p: nat)
    requires DecisionsFor(plan, ds) && p <= |plan|
    ensures IdsOf(Run(plan, ds, prev, script, p)) == PlanIds(plan, p)
  {
    if p > 0 {
      SnapshotPartition(plan, ds, prev, script, p - 1);
      var st := Run(plan, ds, prev, script, p - 1);
      IdsAfter(plan, p - 1, st, Run(plan, ds, prev, script, p), ds[p - 1], script(|st.sent|));
    } else {
      assert IdsOf(State(prev, [], [], [], [], false, [])) == multiset{};
    }
  }

  /** Fresh record k stands for an attempted item below p, after the earlier ones, and says what
      was answered. */
  predicate FreshAt(ds: seq<Decision>, script: nat -> Reply, st: State, p: nat, k: nat)
    requires |st.origin| == |st.made| == |st.sent| && k < |st.sent|
  {
    && st.origin[k] < p <= |ds| && ds[st.origin[k]] == Attempt(st.sent[k])
    && (k > 0 ==> st.origin[k - 1] < st.origin[k])
    && st.made[k] == Outcome(st.sent[k], script(k))
  }

  predicate FreshOk(ds: seq<Decision>, script: nat -> Reply, st: State, p: nat) {
    |st.origin| == |st.made| == |st.sent| && forall k :: 0 <= k < |st.sent| ==> FreshAt(ds, script, st, p, k)
  }

  lemma StepFresh(ds: seq<Decision>, script: nat -> Reply, st: State, p: nat, item: Item, after: State)
    requires p < |ds| && FreshOk(ds, script, st, p)
    requires after == Step(st, p, item, ds[p], script(|st.sent|))
    ensures FreshOk(ds, script, after, p + 1)
  {
    var n, q := |st.sent|, p + 1;
    forall k | 0 <= k < |after.sent| ensures FreshAt(ds, script, after, q, k) {
      if k < n { assert FreshAt(ds, script, st, p, k); }
      else if n > 0 { assert FreshAt(ds, script, st, p, n - 1); }
    }
  }

  lemma {:induction false} FreshRecords(plan: seq<Item>, ds: seq<Decision>, prev: seq<Entity>,
                                        script: nat -> Reply, p: nat)
    requires |ds| == |plan| && p <= |plan|
    ensures FreshOk(ds, script, Run(plan, ds, prev, script, p), p)
  {
    if p > 0 {
      FreshRecords(plan, ds, prev, script, p - 1);
      StepFresh(ds, script, Run(plan, ds, prev, script, p - 1), p - 1, plan[p - 1], Run(plan, ds, prev, script, p));
    }
  }

  predicate OutageLast(st: State, script: nat -> Reply) {
    && (st.down <==> st.sent != [] && script(|st.sent| - 1) == Unavailable)
    && forall k :: 0 <= k < |st.sent| - 1 ==> script(k) != Unavailable
  }

  lemma OutageAfter(st: State, script: nat -> Reply, after: State, i: nat, item: Item, d: Decision)
    requires OutageLast(st, script) && after == Step(st, i, item, d, script(|st.sent|))
    ensures OutageLast(after, script)
  {
  }

  /** The service-down flag is set exactly when the last call was answered by Unavailable, and no
      earlier call was: no spawn call follows an outage. */
  lemma {:induction false} NoCallAfterOutage(plan: seq<Item>, ds: seq<Decision>, prev: seq<Entity>,
                                             script: nat -> Reply, p: nat)
    requires |ds| == |plan| && p <= |plan|
    ensures OutageLast(Run(plan, ds, prev, script, p), script)
  {
    if p > 0 {
      NoCallAfterOutage(plan, ds, prev, script, p - 1);
      var st := Run(plan, ds, prev, script, p - 1);
      OutageAfter(st, script, Run(plan, ds, prev, script, p), p - 1, plan[p - 1], ds[p - 1]);
    }
  }

  predicate KeptOk(prev: seq<Entity>, st: State) {
    Oks(st.kept) == Oks(prev) && FailGroups(st.kept) == FailGroups(prev) - multiset(EntityGroups(st.made))
  }

  lemma KeptAtStart(prev: seq<Entity>, st: State)
    requires st.kept == prev && st.made == []
    ensures KeptOk(prev, st)
  {
    assert EntityGroups(st.made) == [];
  }

  lemma OneLess(left: multiset<Group>, had: multiset<Group>, made: multiset<Group>, g: Group)
    requires left == had - made
    ensures left - multiset{g} == had - (made + multiset{g})
  {
  }

  lemma StepKept(prev: seq<Entity>, st: State, after: State, i: nat, item: Item, d: Decision, reply: Reply)
    requires KeptOk(prev, st) && SameItem(item, d) && after == Step(st, i, item, d, reply)
    ensures KeptOk(prev, after)
  {
    if !st.down && d.Attempt? {
      AttemptKept(prev, st.kept, st.made, Outcome(d.item, reply), GroupOf(item));
    }
  }

  lemma AttemptKept(prev: seq<Entity>, kept: seq<Entity>, made: seq<Entity>, e: Entity, g: Group)
    requires Oks(kept) == Oks(prev) && FailGroups(kept) == FailGroups(prev) - multiset(EntityGroups(made)) && e.InGroup() == g
    ensures Oks(DropFailed(kept, g)) == Oks(prev)
    ensures FailGroups(DropFailed(kept, g)) == FailGroups(prev) - multiset(EntityGroups(made + [e]))
  {
    DropFailedLaw(kept, g);
    GroupsAppend(made, e);
    OneLess(FailGroups(kept), FailGroups(prev), multiset(EntityGroups(made)), g);
  }

  /** No earlier ok record is lost or reordered; each fresh attempt costs at most one failed record,
      of its own group. */
  lemma {:induction false} EarlierRecordsKept(plan: seq<Item>, ds: seq<Decision>, prev: seq<Entity>,
                                              script: nat -> Reply, p: nat)
    requires DecisionsFor(plan, ds) && p <= |plan|
    ensures KeptOk(prev, Run(plan, ds, prev, script, p))
  {
    if p > 0 {
      EarlierRecordsKept(plan, ds, prev, script, p - 1);
      var st := Run(plan, ds, prev, script, p - 1);
      StepKept(prev, st, Run(plan, ds, prev, script, p), p - 1, plan[p - 1], ds[p - 1], script(|st.sent|));
    } else {
      KeptAtStart(prev, Run(plan, ds, prev, script, 0));
    }
  }

  // -------------------------------------------------------- counting the needs

  /** Groups of the items below p that are not skipped. */
  function Needs(plan: seq<Item>, existing: multiset<Group>, p: nat): seq<Group>
    requires p <= |plan|
  {
    if p == 0 then []
    else if Skips(plan, existing, p - 1) then Needs(plan, existing, p - 1)
    else Needs(plan, existing, p - 1) + [GroupOf(plan[p - 1])]
  }

  lemma ExcessStep(seen: multiset<Group>, existing: multiset<Group>, g: Group)
    ensures (seen + multiset{g}) - existing ==
            (seen - existing) + (if seen[g] < existing[g] then multiset{} else multiset{g})
  {
  }

  /** Per group, the items that are not skipped are the excess of the plan over what exists. */
  lemma {:induction false} NeedsAreTheExcess(plan: seq<Item>, existing: multiset<Group>, p: nat)
    requires p <= |plan|
    ensures multiset(Needs(plan, existing, p)) == Seen(plan, p) - existing
  {
    if p > 0 {
      NeedsAreTheExcess(plan, existing, p - 1);
      ExcessStep(Seen(plan, p - 1), existing, GroupOf(plan[p - 1]));
    }
  }

  predicate SkipsAs(plan: seq<Item>, ds: seq<Decision>, existing: multiset<Group>) {
    |ds| == |plan| && forall i {:trigger ds[i]} :: 0 <= i < |plan| ==> (ds[i].Skip? <==> Skips(plan, existing, i))
  }

  lemma DecisionsSkip(w: World, plan: seq<Item>, prev: seq<Entity>)
    requires w.Valid()
    ensures SkipsAs(plan, Decisions(w, plan, prev), Existing(w, prev))
  {
    forall i | 0 <= i < |plan|
      ensures Decisions(w, plan, prev)[i].Skip? <==> Skips(plan, Existing(w, prev), i) { }
  }

  lemma NeedsAfter(plan: seq<Item>, existing: multiset<Group>, st: State, after: State, i: nat, d: Decision, reply: Reply)
    requires i < |plan| && SameItem(plan[i], d) && (d.Skip? <==> Skips(plan, existing, i))
    requires after == Step(st, i, plan[i], d, reply) && after.notAttempted == []
    requires EntityGroups(st.made) == Needs(plan, existing, i)
    ensures EntityGroups(after.made) == Needs(plan, existing, i + 1)
  {
    if d.Attempt? {
      assert EntityGroups(st.made + [Outcome(d.item, reply)]) == EntityGroups(st.made) + [GroupOf(plan[i])];
    }
  }

  /** While nothing is left unattempted, the fresh records are one per needed item. */
  lemma {:induction false} FreshMeetsNeeds(plan: seq<Item>, ds: seq<Decision>, prev: seq<Entity>,
                                           script: nat -> Reply, existing: multiset<Group>, p: nat)
    requires DecisionsFor(plan, ds) && SkipsAs(plan, ds, existing) && p <= |plan|
    requires Run(plan, ds, prev, script, p).notAttempted == []
    ensures EntityGroups(Run(plan, ds, prev, script, p).made) == Needs(plan, existing, p)
  {
    if p > 0 {
      var st, after := Run(plan, ds, prev, script, p - 1), Run(plan, ds, prev, script, p);
      NotAttemptedGrows(st, after, p - 1, plan[p - 1], ds[p - 1], script(|st.sent|));
      FreshMeetsNeeds(plan, ds, prev, script, existing, p - 1);
      NeedsAfter(plan, existing, st, after, p - 1, ds[p - 1], script(|st.sent|));
    } else {
      assert EntityGroups([]) == [];
    }
  }

  lemma NotAttemptedGrows(st: State, after: State, i: nat, item: Item, d: Decision, reply: Reply)
    requires after == Step(st, i, item, d, reply)
    ensures st.notAttempted <= after.notAttempted
  {
  }

  lemma {:induction false} AllOk(es: seq<Entity>)
    requires forall k :: 0 <= k < |es| ==> es[k].ok
    ensures Oks(es) == es && Fails(es) == []
  {
    if es != [] {
      var n := |es| - 1;
      assert es == es[..n] + [es[n]];
      AllOk(es[..n]);
      OksAppend(es[..n], es[n]);
    }
  }

  lemma {:induction false} OksAreOk(es: seq<Entity>)
    ensures forall k :: 0 <= k < |Oks(es)| ==> Oks(es)[k].ok
  {
    if es != [] { OksAreOk(es[..|es| - 1]); }
  }

  /** A run that leaves nothing unattempted and all of whose calls succeed. */
  predicate Complete(plan: seq<Item>, ds: seq<Decision>, prev: seq<Entity>, script: nat -> Reply)
    requires |ds| == |plan|
  {
    var st := Run(plan, ds, prev, script, |plan|);
    st.notAttempted == [] && forall k :: 0 <= k < |st.made| ==> st.made[k].ok
  }

  lemma CompleteRun(plan: seq<Item>, ds: seq<Decision>, prev: seq<Entity>, script: nat -> Reply, existing: multiset<Group>)
    requires DecisionsFor(plan, ds) && SkipsAs(plan, ds, existing) && Complete(plan, ds, prev, script)
    ensures multiset(EntityGroups(Oks(Run(plan, ds, prev, script, |plan|).Snapshot().entities)))
            == multiset(EntityGroups(Oks(prev))) + (Wanted(plan) - existing)
  {
    var st := Run(plan, ds, prev, script, |plan|);
    FreshMeetsNeeds(plan, ds, prev, script, existing, |plan|);
    NeedsAreTheExcess(plan, existing, |plan|);
    EarlierRecordsKept(plan, ds, prev, script, |plan|);
    OksConcat(st.kept, st.made);
    AllOk(st.made);
    GroupsConcat(Oks(prev), st.made);
  }

  lemma MaxOfCounts(base: multiset<Group>, had: multiset<Group>, wanted: multiset<Group>, g: Group)
    ensures (base + (had + (wanted - (base + had))))[g] ==
            if (base + had)[g] >= wanted[g] then (base + had)[g] else wanted[g]
  {
  }

  /** When every item that is not skipped ends ok, base records plus ok records number, per group,
      the larger of what existed and what the plan wants. */
  lemma TargetReached(w: World, plan: seq<Item>, prev: seq<Entity>, script: nat -> Reply, g: Group)
    requires w.Valid() && Complete(plan, Decisions(w, plan, prev), prev, script)
    ensures var existed, wanted := Existing(w, prev)[g], Wanted(plan)[g];
      Existing(w, Apply(w, plan, prev, script).entities)[g] == if existed >= wanted then existed else wanted
  {
    DecisionsAreFor(w, plan, prev);
    DecisionsSkip(w, plan, prev);
    CompleteRun(plan, Decisions(w, plan, prev), prev, script, Existing(w, prev));
    MaxOfCounts(multiset(BaseGroups(w)), multiset(EntityGroups(Oks(prev))), Wanted(plan), g);
  }

  lemma {:induction false} SeenGrows(plan: seq<Item>, i: nat, n: nat, g: Group)
    requires i <= n <= |plan|
    ensures Seen(plan, i)[g] <= Seen(plan, n)[g]
  {
    if i < n { SeenGrows(plan, i, n - 1, g); }
  }

  lemma SkipsWhenEnough(plan: seq<Item>, existing: multiset<Group>, i: nat)
    requires i < |plan| && Wanted(plan) <= existing
    ensures Skips(plan, existing, i)
  {
    SeenGrows(plan, i + 1, |plan|, GroupOf(plan[i]));
  }

  predicate Idle(prev: seq<Entity>, st: State) {
    st.kept == prev && st.made == [] && st.sent == [] && st.notAttempted == [] && !st.down
  }

  /** A run over a manifest that already holds all the plan wants sends nothing and changes nothing. */
  lemma {:induction false} NothingToDo(plan: seq<Item>, ds: seq<Decision>, prev: seq<Entity>, script: nat -> Reply,
                                       existing: multiset<Group>, p: nat)
    requires SkipsAs(plan, ds, existing) && Wanted(plan) <= existing && p <= |plan|
    ensures Idle(prev, Run(plan, ds, prev, script, p))
  {
    if p > 0 {
      NothingToDo(plan, ds, prev, script, existing, p - 1);
      SkipsWhenEnough(plan, existing, p - 1);
      assert ds[p - 1].Skip?;
      assert Idle(prev, Run(plan, ds, prev, script, p - 1));
    }
  }

  lemma EnoughAfterwards(w: World, plan: seq<Item>, prev: seq<Entity>, script: nat -> Reply)
    requires w.Valid() && Complete(plan, Decisions(w, plan, prev), prev, script)
    ensures Wanted(plan) <= Existing(w, Apply(w, plan, prev, script).entities)
  {
    forall g ensures Wanted(plan)[g] <= Existing(w, Apply(w, plan, prev, script).entities)[g] {
      TargetReached(w, plan, prev, script, g);
    }
  }

  lemma IdleRun(w: World, plan: seq<Item>, m: seq<Entity>, script: nat -> Reply)
    requires w.Valid() && Wanted(plan) <= Existing(w, m)
    ensures Apply(w, plan, m, script).entities == m && Run(plan, Decisions(w, plan, m), m, script, |plan|).sent == []
  {
    DecisionsSkip(w, plan, m);
    NothingToDo(plan, Decisions(w, plan, m), m, script, Existing(w, m), |plan|);
    assert m + [] == m;
  }

  /** A second run after a complete one sends nothing and leaves the entities as they are, whatever
      the simulator would answer. */
  lemma SecondRunIsIdle(w: World, plan: seq<Item>, prev: seq<Entity>, script: nat -> Reply, script': nat -> Reply)
    requires w.Valid() && Complete(plan, Decisions(w, plan, prev), prev, script)
    ensures var m := Apply(w, plan, prev, script).entities;
      Apply(w, plan, m, script').entities == m
      && Run(plan, Decisions(w, plan, m), m, script', |plan|).sent == []
  {
    EnoughAfterwards(w, plan, prev, script);
    IdleRun(w, plan, Apply(w, plan, prev, script).entities, script');
  }
}
