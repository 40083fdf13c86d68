/** Refusals for room: a resumed run starts where the earlier ones stopped, and ends as an uninterrupted one,
    exactly when it makes none. */
module SpawnRefusals {
  import opened Spawn
  import opened SpawnLaws
  import opened SpawnResume
  import opened SpawnFailures

  ghost predicate AllSucceeding(script: nat -> Reply) { forall k: nat :: Success(script(k)) }

  /** When all calls succeed and nothing is refused, nothing goes wrong. */
  lemma {:induction false} SmoothSteps(plan: seq<Item>, ds: seq<Decision>, es: seq<Entity>, script: nat -> Reply, p: nat)
    requires |ds| == |plan| && p <= |plan| && NoRefusals(ds) && AllSucceeding(script)
    ensures OnlyOutages(plan, ds, es, script, p)
  {
    if p > 0 {
      SmoothSteps(plan, ds, es, script, p - 1);
      assert Success(script(|Run(plan, ds, es, script, p - 1).sent|));
    }
  }

  lemma NeverDown(plan: seq<Item>, ds: seq<Decision>, es: seq<Entity>, script: nat -> Reply)
    requires |ds| == |plan| && AllSucceeding(script)
    ensures !Run(plan, ds, es, script, |plan|).down
  {
    NoCallAfterOutage(plan, ds, es, script, |plan|);
    var n := |Run(plan, ds, es, script, |plan|).sent|;
    if n > 0 { assert Success(script(n - 1)); }
  }

  lemma MadeAfter(st: State, after: State, i: nat, item: Item, d: Decision, reply: Reply)
    requires after == Step(st, i, item, d, reply)
    ensures |after.made| <= |st.made| + if d.Attempt? then 1 else 0
  {
  }

  // ------------------------------------------------------------ the first call

  /** Whatever is answered: items below m are skipped, so the first call is for m, unless m is refused. */
  lemma {:induction false} FirstOrigin(plan: seq<Item>, ds: seq<Decision>, es: seq<Entity>, script: nat -> Reply, m: nat,
                                       p: nat)
    requires |ds| == |plan| && m < |plan| && p <= |plan| && !ds[m].Skip?
    requires forall i {:trigger ds[i]} :: 0 <= i < m ==> ds[i].Skip?
    ensures var st := Run(plan, ds, es, script, p);
      if p <= m then st.origin == [] && !st.down
      else if ds[m].Attempt? then st.origin != [] && st.origin[0] == m
      else st.origin == [] || st.origin[0] > m
  {
    if p > 0 { FirstOrigin(plan, ds, es, script, m, p - 1); }
  }

  /** A re-run first attempts exactly the item where the earlier runs stopped if and only if its planning
      pass has room for that item. */
  lemma FirstCall(w: World, plan: seq<Item>, prev: seq<Entity>, es: seq<Entity>, m: nat, script: nat -> Reply, p: nat)
    requires w.Valid() && Reached(plan, prev, Existing(w, prev), es, m) && m < p <= |plan|
    ensures var st := Run(plan, Decisions(w, plan, es), es, script, p);
      st.origin != [] && st.origin[0] == m <==> !Decisions(w, plan, es)[m].Refuse?
  {
    DecisionsFromReached(w, plan, prev, es, m);
    FirstCallOf(plan, Decisions(w, plan, es), es, script, Existing(w, prev), m, p);
  }

  lemma FirstCallOf(plan: seq<Item>, ds: seq<Decision>, es: seq<Entity>, script: nat -> Reply, existing: multiset<Group>,
                    m: nat, p: nat)
    requires m < p <= |plan| && !Skips(plan, existing, m)
    requires SkipsAs(plan, ds, existing + multiset(Needs(plan, existing, m)))
    ensures var st := Run(plan, ds, es, script, p); st.origin != [] && st.origin[0] == m <==> !ds[m].Refuse?
  {
    ShiftedDecisions(plan, ds, existing, m);
    assert ds[m].Skip? <==> !Needed(plan, existing)(m);
    FirstOrigin(plan, ds, es, script, m, p);
  }

  // -------------------------------------------------------- counting the records

  function HowMany(pick: nat -> bool, p: nat): nat { if p == 0 then 0 else HowMany(pick, p - 1) + if pick(p - 1) then 1 else 0 }

  lemma {:induction false} NeedsCounted(plan: seq<Item>, existing: multiset<Group>, p: nat)
    requires p <= |plan|
    ensures |NeedTags(plan, existing, p)| == HowMany(Needed(plan, existing), p)
  {
    if p > 0 {
      NeedsCounted(plan, existing, p - 1);
      NeedMore(plan, existing, p - 1);
    }
  }

  lemma NeedMore(plan: seq<Item>, existing: multiset<Group>, p: nat)
    requires p < |plan|
    ensures |NeedTags(plan, existing, p + 1)| == |NeedTags(plan, existing, p)| + if Skips(plan, existing, p) then 0 else 1
  {
  }

  /** A re-run from m skips what is below m as well. */
  predicate SkipsFrom(ds: seq<Decision>, needed: nat -> bool, m: nat) {
    forall i {:trigger ds[i]} :: 0 <= i < |ds| ==> (ds[i].Skip? <==> i < m || !needed(i))
  }

  lemma ShiftedDecisions(plan: seq<Item>, ds: seq<Decision>, existing: multiset<Group>, m: nat)
    requires m <= |plan| && SkipsAs(plan, ds, existing + multiset(Needs(plan, existing, m)))
    ensures SkipsFrom(ds, Needed(plan, existing), m)
  {
    forall i | 0 <= i < |ds| ensures ds[i].Skip? <==> i < m || !Needed(plan, existing)(i) {
      ShiftedDecision(plan, ds, existing, m, i);
    }
  }

  /** At most one record per item needed from m on, and none for one that was refused. */
  lemma {:induction false} MadeAtMost(plan: seq<Item>, ds: seq<Decision>, es: seq<Entity>, script: nat -> Reply,
                                      needed: nat -> bool, m: nat, r: nat, p: nat)
    requires |ds| == |plan| && SkipsFrom(ds, needed, m) && r < |plan| && p <= |plan| && ds[r].Refuse?
    ensures |Run(plan, ds, es, script, p).made| + (if r < p then 1 else 0)
            <= if p <= m then 0 else HowMany(needed, p) - HowMany(needed, m)
  {
    if p > 0 {
      var i := p - 1;
      var st := Run(plan, ds, es, script, i);
      MadeAtMost(plan, ds, es, script, needed, m, r, i);
      MadeAfter(st, Run(plan, ds, es, script, p), i, plan[i], ds[i], script(|st.sent|));
      assert ds[i].Skip? <==> i < m || !needed(i);
    }
  }

  lemma {:induction false} OksFewer(es: seq<Entity>)
    ensures |Oks(es)| <= |es|
  {
    if es != [] { OksFewer(es[..|es| - 1]); }
  }

  /** A run that refuses an item leaves fewer ok records than the plan needs. */
  lemma RefusalLosesOne(plan: seq<Item>, prev: seq<Entity>, existing: multiset<Group>, es: seq<Entity>, m: nat,
                        ds: seq<Decision>, script: nat -> Reply, r: nat)
    requires Reached(plan, prev, existing, es, m) && DecisionsFor(plan, ds)
    requires SkipsAs(plan, ds, existing + multiset(Needs(plan, existing, m))) && r < |plan| && ds[r].Refuse?
    ensures |Oks(Run(plan, ds, es, script, |plan|).Snapshot().entities)| < |Oks(prev)| + |NeedTags(plan, existing, |plan|)|
  {
    var st := Run(plan, ds, es, script, |plan|);
    ShiftedDecisions(plan, ds, existing, m);
    MadeAtMost(plan, ds, es, script, Needed(plan, existing), m, r, |plan|);
    NeedsCounted(plan, existing, m);
    NeedsCounted(plan, existing, |plan|);
    KeptOks(plan, ds, es, script);
    OksConcat(st.kept, st.made);
    OksFewer(st.made);
    assert |Oks(es)| == |Tags(Oks(es))| == |Oks(prev)| + |NeedTags(plan, existing, m)|;
  }

  lemma RefusedShort(w: World, plan: seq<Item>, prev: seq<Entity>, es: seq<Entity>, m: nat, script: nat -> Reply)
    requires w.Valid() && Reached(plan, prev, Existing(w, prev), es, m)
    ensures !NoRefusals(Decisions(w, plan, es)) ==>
      |Oks(Apply(w, plan, es, script).entities)| < |Oks(prev)| + |NeedTags(plan, Existing(w, prev), |plan|)|
  {
    if !NoRefusals(Decisions(w, plan, es)) {
      var r :| 0 <= r < |plan| && Decisions(w, plan, es)[r].Refuse?;
      DecisionsAreFor(w, plan, es);
      DecisionsFromReached(w, plan, prev, es, m);
      RefusalLosesOne(plan, prev, Existing(w, prev), es, m, Decisions(w, plan, es), script, r);
    }
  }

  lemma UnrefusedFinishes(w: World, plan: seq<Item>, prev: seq<Entity>, es: seq<Entity>, m: nat, script: nat -> Reply)
    requires w.Valid() && Reached(plan, prev, Existing(w, prev), es, m) && AllSucceeding(script)
    ensures NoRefusals(Decisions(w, plan, es)) ==> Finished(plan, prev, Existing(w, prev), Apply(w, plan, es, script).entities)
  {
    if NoRefusals(Decisions(w, plan, es)) {
      SmoothSteps(plan, Decisions(w, plan, es), es, script, |plan|);
      NeverDown(plan, Decisions(w, plan, es), es, script);
      LastRun(w, plan, prev, es, m, script);
    }
  }

  /** From a manifest that interrupted runs left, a run whose calls all succeed records exactly what the plan
      needs if and only if its planning pass, before any call, refuses no item for room. */
  lemma FinishesExactly(w: World, plan: seq<Item>, prev: seq<Entity>, es: seq<Entity>, m: nat, script: nat -> Reply)
    requires w.Valid() && Reached(plan, prev, Existing(w, prev), es, m) && AllSucceeding(script)
    ensures Finished(plan, prev, Existing(w, prev), Apply(w, plan, es, script).entities) <==> NoRefusals(Decisions(w, plan, es))
  {
    RefusedShort(w, plan, prev, es, m, script);
    UnrefusedFinishes(w, plan, prev, es, m, script);
    FinishedLength(plan, prev, Existing(w, prev), Apply(w, plan, es, script).entities);
  }

  lemma FinishedLength(plan: seq<Item>, prev: seq<Entity>, existing: multiset<Group>, es: seq<Entity>)
    ensures Finished(plan, prev, existing, es) ==> |Oks(es)| == |Oks(prev)| + |NeedTags(plan, existing, |plan|)|
  {
    assert |Tags(Oks(es))| == |Oks(es)| && |Tags(Oks(prev))| == |Oks(prev)|;
  }

  /** So, if one uninterrupted run would refuse nothing, resuming ends with its records if and only if the
      resumed run refuses nothing either. */
  lemma ResumesExactly(w: World, plan: seq<Item>, prev: seq<Entity>, tries: seq<Try>, script: nat -> Reply,
                       smooth: nat -> Reply)
    requires w.Valid() && OutagesUpTo(w, plan, prev, tries, |tries|)
    requires AllSucceeding(script) && AllSucceeding(smooth) && NoRefusals(Decisions(w, plan, prev))
    ensures var es := History(w, plan, prev, tries, |tries|);
      Tags(Oks(Apply(w, plan, es, script).entities)) == Tags(Oks(Apply(w, plan, prev, smooth).entities))
      <==> NoRefusals(Decisions(w, plan, es))
  {
    var es, existing := History(w, plan, prev, tries, |tries|), Existing(w, prev);
    var m := HistoryReaches(w, plan, prev, tries, |tries|);
    var n := NothingYet(w, plan, prev);
    UnrefusedFinishes(w, plan, prev, prev, n, smooth);
    UnrefusedFinishes(w, plan, prev, es, m, script);
    RefusedShort(w, plan, prev, es, m, script);
    var resumed, single := Apply(w, plan, es, script).entities, Apply(w, plan, prev, smooth).entities;
    FinishedLength(plan, prev, existing, single);
    assert |Tags(Oks(resumed))| == |Oks(resumed)| && |Tags(Oks(single))| == |Oks(single)|;
  }
}
