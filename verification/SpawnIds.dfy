/** Which ids end up recorded after a failed run and its re-run, for a plan whose needed items have
    different ids. */
module SpawnIds {
  import opened Spawn
  import opened SpawnLaws
  import opened SpawnResume
  import opened SpawnFailures

  /** Tags of the picked items below p. */
  function TagsWhere(plan: seq<Item>, pick: nat -> bool, p: nat): multiset<Tag>
    requires p <= |plan|
  {
    if p == 0 then multiset{}
    else if pick(p - 1) then TagsWhere(plan, pick, p - 1) + multiset{TagOf(plan[p - 1])}
    else TagsWhere(plan, pick, p - 1)
  }

  function OkTags(es: seq<Entity>): multiset<Tag> { multiset(Tags(Oks(es))) }

  lemma OkTagsConcat(a: seq<Entity>, b: seq<Entity>)
    ensures OkTags(a + b) == OkTags(a) + OkTags(b)
  {
    OksConcat(a, b);
    TagsConcat(Oks(a), Oks(b));
  }

  lemma TagsAfter(st: State, after: State, i: nat, item: Item, d: Decision, reply: Reply)
    requires !st.down && SameItem(item, d) && reply != Unavailable && after == Step(st, i, item, d, reply)
    ensures !after.down
    ensures OkTags(after.made) == if !d.Attempt? || !Success(reply) then OkTags(st.made) else OkTags(st.made) + multiset{TagOf(item)}
  {
    if d.Attempt? {
      var e := Outcome(d.item, reply);
      OksAppend(st.made, e);
      if e.ok {
        TagsConcat(Oks(st.made), [e]);
        assert Tags([e]) == [TagOf(item)];
      }
    }
  }

  lemma {:induction false} TagsByRun(plan: seq<Item>, ds: seq<Decision>, prev: seq<Entity>, script: nat -> Reply,
                                     existing: multiset<Group>, pick: nat -> bool, p: nat)
    requires DecisionsFor(plan, ds) && SkipsAs(plan, ds, existing) && NoOutages(ds, script) && p <= |plan|
    requires pick == NeededOk(plan, existing, OkAt(plan, ds, prev, script))
    ensures !Run(plan, ds, prev, script, p).down
    ensures OkTags(Run(plan, ds, prev, script, p).made) == TagsWhere(plan, pick, p)
  {
    if p == 0 {
      assert Tags([]) == [];
    } else {
      var i := p - 1;
      TagsByRun(plan, ds, prev, script, existing, pick, i);
      var st := Run(plan, ds, prev, script, i);
      SentBound(plan, ds, prev, script, i);
      TagsAfter(st, Run(plan, ds, prev, script, p), i, plan[i], ds[i], script(|st.sent|));
      TagsStep(plan, pick, i, !ds[i].Attempt? || !Success(script(|st.sent|)));
    }
  }

  lemma TagsStep(plan: seq<Item>, pick: nat -> bool, i: nat, none: bool)
    requires i < |plan| && (none <==> !pick(i))
    ensures TagsWhere(plan, pick, i + 1)
            == if none then TagsWhere(plan, pick, i) else TagsWhere(plan, pick, i) + multiset{TagOf(plan[i])}
  {
  }

  lemma TagsOfRun(plan: seq<Item>, ds: seq<Decision>, prev: seq<Entity>, script: nat -> Reply, existing: multiset<Group>)
    requires DecisionsFor(plan, ds) && SkipsAs(plan, ds, existing) && NoOutages(ds, script)
    ensures OkTags(Run(plan, ds, prev, script, |plan|).Snapshot().entities)
            == OkTags(prev) + TagsWhere(plan, NeededOk(plan, existing, OkAt(plan, ds, prev, script)), |plan|)
  {
    var st := Run(plan, ds, prev, script, |plan|);
    KeptOks(plan, ds, prev, script);
    TagsByRun(plan, ds, prev, script, existing, NeededOk(plan, existing, OkAt(plan, ds, prev, script)), |plan|);
    OkTagsConcat(st.kept, st.made);
  }

  lemma TagsAfterRun(w: World, plan: seq<Item>, prev: seq<Entity>, script: nat -> Reply, ok: nat -> bool)
    requires w.Valid() && NoOutages(Decisions(w, plan, prev), script)
    requires ok == OkAt(plan, Decisions(w, plan, prev), prev, script)
    ensures OkTags(Apply(w, plan, prev, script).entities) == OkTags(prev)
            + TagsWhere(plan, NeededOk(plan, Existing(w, prev), ok), |plan|)
  {
    DecisionsAreFor(w, plan, prev);
    DecisionsSkip(w, plan, prev);
    TagsOfRun(plan, Decisions(w, plan, prev), prev, script, Existing(w, prev));
  }

  /** No two of the picked items have the same id and group. */
  predicate Different(plan: seq<Item>, pick: nat -> bool) {
    forall i, j {:trigger pick(i), pick(j)} :: 0 <= i < j < |plan| && pick(i) && pick(j) ==> TagOf(plan[i]) != TagOf(plan[j])
  }

  predicate Among(a: nat -> bool, c: nat -> bool, n: nat) { forall i {:trigger a(i)} :: 0 <= i < n && a(i) ==> c(i) }

  lemma {:induction false} TagCount(plan: seq<Item>, a: nat -> bool, c: nat -> bool, n: nat, i: nat)
    requires Different(plan, c) && Among(a, c, |plan|) && n <= |plan| && i < |plan| && c(i)
    ensures TagsWhere(plan, a, n)[TagOf(plan[i])] == if i < n && a(i) then 1 else 0
  {
    if n > 0 {
      TagCount(plan, a, c, n - 1, i);
      assert a(n - 1) ==> c(n - 1);
    }
  }

  /** Each of c's items is picked by exactly one of a and b. */
  predicate Splits(a: nat -> bool, b: nat -> bool, c: nat -> bool, n: nat) {
    forall i {:trigger c(i)} :: 0 <= i < n && c(i) ==> (a(i) <==> !b(i))
  }

  lemma {:induction false} SplitTags(plan: seq<Item>, a: nat -> bool, b: nat -> bool, c: nat -> bool, n: nat)
    requires n <= |plan| && Among(a, c, n) && Among(b, c, n) && Splits(a, b, c, n)
    ensures TagsWhere(plan, a, n) + TagsWhere(plan, b, n) == TagsWhere(plan, c, n)
  {
    if n > 0 {
      SplitTags(plan, a, b, c, n - 1);
      assert c(n - 1) ==> (a(n - 1) <==> !b(n - 1));
      assert (a(n - 1) ==> c(n - 1)) && (b(n - 1) ==> c(n - 1));
    }
  }

  lemma TagsSplit(plan: seq<Item>, a: nat -> bool, b: nat -> bool, c: nat -> bool)
    requires Different(plan, c) && Among(a, c, |plan|) && Among(b, c, |plan|)
    ensures TagsWhere(plan, a, |plan|) + TagsWhere(plan, b, |plan|) == TagsWhere(plan, c, |plan|) <==> Splits(a, b, c, |plan|)
  {
    if Splits(a, b, c, |plan|) {
      SplitTags(plan, a, b, c, |plan|);
    } else {
      var i :| 0 <= i < |plan| && c(i) && !(a(i) <==> !b(i));
      TagCount(plan, a, c, |plan|, i);
      TagCount(plan, b, c, |plan|, i);
      TagCount(plan, c, c, |plan|, i);
    }
  }

  /** A re-run whose calls all succeed, over a manifest that holds the items of a first run that did. */
  lemma SmoothRetry(w: World, plan: seq<Item>, existing: multiset<Group>, es: seq<Entity>, ok: nat -> bool, again: nat -> bool,
                    second: nat -> Reply, had: multiset<Tag>)
    requires w.Valid() && Different(plan, Needed(plan, existing))
    requires OkTags(es) == had + TagsWhere(plan, NeededOk(plan, existing, ok), |plan|)
    requires Existing(w, es) == existing + Gained(plan, existing, ok, |plan|)
    requires NoOutages(Decisions(w, plan, es), second) && again == OkAt(plan, Decisions(w, plan, es), es, second)
    ensures OkTags(Apply(w, plan, es, second).entities) == had + TagsWhere(plan, Needed(plan, existing), |plan|)
            <==> FailuresLast(plan, existing, ok) && AllAgain(plan, Existing(w, es), again)
  {
    TagsAfterRun(w, plan, es, second, again);
    RetriedTags(plan, existing, ok, again, had);
  }

  /** Every item a re-run needs is sent successfully. */
  predicate AllAgain(plan: seq<Item>, later: multiset<Group>, again: nat -> bool) {
    forall i {:trigger again(i)} :: 0 <= i < |plan| && !Skips(plan, later, i) ==> again(i)
  }

  lemma AllSucceed(w: World, plan: seq<Item>, es: seq<Entity>, script: nat -> Reply)
    requires w.Valid() && forall k: nat :: Success(script(k))
    ensures AllAgain(plan, Existing(w, es), OkAt(plan, Decisions(w, plan, es), es, script)) <==> NoRefusals(Decisions(w, plan, es))
  {
    var ds, again := Decisions(w, plan, es), OkAt(plan, Decisions(w, plan, es), es, script);
    DecisionsSkip(w, plan, es);
    forall i | 0 <= i < |plan| ensures again(i) <==> !ds[i].Refuse? { }
    assert forall i {:trigger ds[i]} :: 0 <= i < |plan| ==> (ds[i].Skip? <==> Skips(plan, Existing(w, es), i));
    if NoRefusals(ds) {
      assert AllAgain(plan, Existing(w, es), again);
    } else {
      var i :| 0 <= i < |ds| && ds[i].Refuse?;
      assert !again(i) && !Skips(plan, Existing(w, es), i);
    }
  }

  /** What a first run without outages leaves: its ok tags, and what counts from then on. */
  predicate Left(w: World, plan: seq<Item>, prev: seq<Entity>, es: seq<Entity>, ok: nat -> bool)
    requires w.Valid()
  {
    && OkTags(es) == OkTags(prev) + TagsWhere(plan, NeededOk(plan, Existing(w, prev), ok), |plan|)
    && Existing(w, es) == Existing(w, prev) + Gained(plan, Existing(w, prev), ok, |plan|)
  }

  lemma FirstRunTags(w: World, plan: seq<Item>, prev: seq<Entity>, first: nat -> Reply)
    requires w.Valid()
    ensures NoOutages(Decisions(w, plan, prev), first) ==>
      Left(w, plan, prev, Apply(w, plan, prev, first).entities, OkAt(plan, Decisions(w, plan, prev), prev, first))
  {
    if NoOutages(Decisions(w, plan, prev), first) {
      TagsAfterRun(w, plan, prev, first, OkAt(plan, Decisions(w, plan, prev), prev, first));
      ExistingAfterRun(w, plan, prev, first);
    }
  }

  predicate AllDifferent(w: World, plan: seq<Item>, prev: seq<Entity>)
    requires w.Valid()
  {
    Different(plan, Needed(plan, Existing(w, prev)))
  }

  ghost predicate Smooth(script: nat -> Reply) { forall k: nat :: Success(script(k)) }

  /** The needed items have different ids, the first run meets no outage, and all calls of the second one
      succeed. */
  ghost predicate RunsFor(w: World, plan: seq<Item>, prev: seq<Entity>, first: nat -> Reply, second: nat -> Reply)
    requires w.Valid()
  {
    AllDifferent(w, plan, prev) && NoOutages(Decisions(w, plan, prev), first) && Smooth(second)
  }

  lemma RetryTags(w: World, plan: seq<Item>, prev: seq<Entity>, second: nat -> Reply, es: seq<Entity>, ok: nat -> bool)
    requires w.Valid()
    ensures AllDifferent(w, plan, prev) && Left(w, plan, prev, es, ok) && Smooth(second) ==>
      (OkTags(Apply(w, plan, es, second).entities)
       == OkTags(prev) + TagsWhere(plan, Needed(plan, Existing(w, prev)), |plan|)
       <==> FailuresLast(plan, Existing(w, prev), ok) && NoRefusals(Decisions(w, plan, es)))
  {
    if AllDifferent(w, plan, prev) && Left(w, plan, prev, es, ok) && Smooth(second) {
      SmoothMeetsNone(Decisions(w, plan, es), second);
      AllSucceed(w, plan, es, second);
      SmoothRetry(w, plan, Existing(w, prev), es, ok, OkAt(plan, Decisions(w, plan, es), es, second), second, OkTags(prev));
    }
  }

  lemma SmoothMeetsNone(ds: seq<Decision>, script: nat -> Reply)
    requires Smooth(script)
    ensures NoOutages(ds, script)
  {
    forall k: nat | k < |ds| ensures script(k) != Unavailable { assert Success(script(k)); }
  }

  /** Ids converge exactly when the failures come last and there is room: after ordinary failures and a
      re-run whose calls all succeed, the ok records carry the id of each needed item exactly once if and
      only if, in the first run, no failed call or refused item was followed by a success for the same
      group, and the re-run refuses nothing. */
  lemma IdsConverge(w: World, plan: seq<Item>, prev: seq<Entity>, first: nat -> Reply, second: nat -> Reply)
    requires w.Valid()
    ensures RunsFor(w, plan, prev, first, second) ==>
      (OkTags(Apply(w, plan, Apply(w, plan, prev, first).entities, second).entities)
       == OkTags(prev) + TagsWhere(plan, Needed(plan, Existing(w, prev)), |plan|)
       <==> FailuresLast(plan, Existing(w, prev), OkAt(plan, Decisions(w, plan, prev), prev, first))
            && NoRefusals(Decisions(w, plan, Apply(w, plan, prev, first).entities)))
  {
    FirstRunTags(w, plan, prev, first);
    RetryTags(w, plan, prev, second, Apply(w, plan, prev, first).entities, OkAt(plan, Decisions(w, plan, prev), prev, first));
  }

  lemma RetriedTags(plan: seq<Item>, existing: multiset<Group>, ok: nat -> bool, again: nat -> bool, had: multiset<Tag>)
    requires Different(plan, Needed(plan, existing))
    ensures var later := existing + Gained(plan, existing, ok, |plan|);
      FailuresLast(plan, existing, ok) && AllAgain(plan, later, again) <==>
      had + TagsWhere(plan, NeededOk(plan, existing, ok), |plan|) + TagsWhere(plan, NeededOk(plan, later, again), |plan|)
      == had + TagsWhere(plan, Needed(plan, existing), |plan|)
  {
    var later := existing + Gained(plan, existing, ok, |plan|);
    var a, b, c := NeededOk(plan, existing, ok), NeededOk(plan, later, again), Needed(plan, existing);
    PartsAmong(plan, existing, ok, again);
    TagsSplit(plan, a, b, c);
    SplitsDecide(plan, existing, ok, again);
    SumCancels(had, TagsWhere(plan, a, |plan|), TagsWhere(plan, b, |plan|), TagsWhere(plan, c, |plan|));
  }

  /** What either run records is needed. */
  lemma PartsAmong(plan: seq<Item>, existing: multiset<Group>, ok: nat -> bool, again: nat -> bool)
    ensures var later, c := existing + Gained(plan, existing, ok, |plan|), Needed(plan, existing);
      Among(NeededOk(plan, existing, ok), c, |plan|) && Among(NeededOk(plan, later, again), c, |plan|)
  {
    var gained, c := Gained(plan, existing, ok, |plan|), Needed(plan, existing);
    forall i | 0 <= i < |plan| && NeededOk(plan, existing + gained, again)(i) ensures c(i) {
      SkipsMore(plan, existing, gained, i);
    }
  }

  lemma SkipsMore(plan: seq<Item>, existing: multiset<Group>, gained: multiset<Group>, i: nat)
    requires i < |plan|
    ensures Skips(plan, existing, i) ==> Skips(plan, existing + gained, i)
  {
  }

  /** Each needed item is recorded by exactly one of the two runs. */
  lemma SplitsDecide(plan: seq<Item>, existing: multiset<Group>, ok: nat -> bool, again: nat -> bool)
    ensures var later := existing + Gained(plan, existing, ok, |plan|);
      Splits(NeededOk(plan, existing, ok), NeededOk(plan, later, again), Needed(plan, existing), |plan|) <==>
      FailuresLast(plan, existing, ok) && AllAgain(plan, later, again)
  {
    var later := existing + Gained(plan, existing, ok, |plan|);
    if AllAgain(plan, later, again) {
      RerunRetriesExactlyFailures(plan, existing, ok);
      RetriesAsSkips(plan, existing, ok);
      SplitIsRetry(plan, existing, later, ok, NeededOk(plan, existing, ok), NeededOk(plan, later, again), Needed(plan, existing));
    } else {
      var r :| 0 <= r < |plan| && !Skips(plan, later, r) && !again(r);
      UnsentIsNoSplit(plan, existing, ok, again, r);
    }
  }

  lemma SplitIsRetry(plan: seq<Item>, existing: multiset<Group>, later: multiset<Group>, ok: nat -> bool, a: nat -> bool,
                     b: nat -> bool, c: nat -> bool)
    requires forall i: nat :: i < |plan| ==> (a(i) <==> !Skips(plan, existing, i) && ok(i))
    requires forall i: nat :: i < |plan| ==> (b(i) <==> !Skips(plan, later, i))
    requires forall i: nat :: i < |plan| ==> (c(i) <==> !Skips(plan, existing, i))
    ensures Splits(a, b, c, |plan|) <==>
      forall i :: 0 <= i < |plan| && !Skips(plan, existing, i) ==> (Skips(plan, later, i) <==> ok(i))
  {
    if Splits(a, b, c, |plan|) {
      forall i | 0 <= i < |plan| && !Skips(plan, existing, i) ensures Skips(plan, later, i) <==> ok(i) { assert c(i); }
    }
  }

  lemma {:induction false} CountSplit(plan: seq<Item>, a: nat -> bool, b: nat -> bool, c: nat -> bool, n: nat, g: Group)
    requires n <= |plan| && Among(a, c, n) && Among(b, c, n) && Splits(a, b, c, n)
    ensures Count(plan, a, n, g) + Count(plan, b, n, g) == Count(plan, c, n, g)
  {
    if n > 0 {
      CountSplit(plan, a, b, c, n - 1, g);
      assert c(n - 1) ==> (a(n - 1) <==> !b(n - 1));
      assert (a(n - 1) ==> c(n - 1)) && (b(n - 1) ==> c(n - 1));
    }
  }

  lemma {:induction false} CountLess(plan: seq<Item>, b: nat -> bool, c: nat -> bool, n: nat, r: nat)
    requires n <= |plan| && Among(b, c, n) && r < |plan| && c(r) && !b(r)
    ensures Count(plan, b, n, GroupOf(plan[r])) + (if r < n then 1 else 0) <= Count(plan, c, n, GroupOf(plan[r]))
  {
    if n > 0 {
      CountLess(plan, b, c, n - 1, r);
      assert b(n - 1) ==> c(n - 1);
    }
  }

  /** Per group, a re-run needs what was needed and not gained. */
  lemma NeededLater(plan: seq<Item>, existing: multiset<Group>, ok: nat -> bool, g: Group)
    ensures var later := existing + Gained(plan, existing, ok, |plan|);
      Count(plan, NeededOk(plan, existing, ok), |plan|, g) + Count(plan, Needed(plan, later), |plan|, g)
      == Count(plan, Needed(plan, existing), |plan|, g)
  {
    var gained := Gained(plan, existing, ok, |plan|);
    GainedIsCount(plan, existing, ok, |plan|, g);
    GainedAtMost(plan, existing, ok, |plan|, g);
    ExcessIsCount(plan, existing, |plan|, g);
    ExcessIsCount(plan, existing + gained, |plan|, g);
    ExcessLeft(Seen(plan, |plan|), existing, gained, g);
  }

  lemma ExcessLeft(seen: multiset<Group>, existing: multiset<Group>, gained: multiset<Group>, g: Group)
    requires gained[g] <= (seen - existing)[g]
    ensures gained[g] + (seen - (existing + gained))[g] == (seen - existing)[g]
  {
  }

  /** If the re-run does not send an item it needs, some item is recorded by neither run, or by both. */
  lemma UnsentIsNoSplit(plan: seq<Item>, existing: multiset<Group>, ok: nat -> bool, again: nat -> bool, r: nat)
    requires var later := existing + Gained(plan, existing, ok, |plan|);
      r < |plan| && !Skips(plan, later, r) && !again(r)
    ensures var later := existing + Gained(plan, existing, ok, |plan|);
      !Splits(NeededOk(plan, existing, ok), NeededOk(plan, later, again), Needed(plan, existing), |plan|)
  {
    var later, g := existing + Gained(plan, existing, ok, |plan|), GroupOf(plan[r]);
    var a, b, c := NeededOk(plan, existing, ok), NeededOk(plan, later, again), Needed(plan, existing);
    if Splits(a, b, c, |plan|) {
      PartsAmong(plan, existing, ok, again);
      CountSplit(plan, a, b, c, |plan|, g);
      CountLess(plan, b, Needed(plan, later), |plan|, r);
      NeededLater(plan, existing, ok, g);
      assert false;
    }
  }

  lemma SumCancels(prev: multiset<Tag>, a: multiset<Tag>, b: multiset<Tag>, c: multiset<Tag>)
    ensures prev + a + b == prev + c <==> a + b == c
  {
    if prev + a + b == prev + c {
      forall t ensures (a + b)[t] == c[t] { assert (prev + a + b)[t] == (prev + c)[t]; }
    }
    assert prev + a + b == prev + (a + b);
  }
}
