/** Re-runs after ordinary failures - calls that failed, items refused for room: which items they retry, and
    which ids end up recorded. */
module SpawnFailures {
  import opened Spawn
  import opened SpawnLaws
  import opened SpawnResume

  predicate Success(r: Reply) { r.Spawned? || r.AlreadyExists? }

  /** Groups of the needed items below p whose call succeeded. */
  function Gained(plan: seq<Item>, existing: multiset<Group>, ok: nat -> bool, p: nat): multiset<Group>
    requires p <= |plan|
  {
    if p == 0 then multiset{}
    else if Skips(plan, existing, p - 1) || !ok(p - 1) then Gained(plan, existing, ok, p - 1)
    else Gained(plan, existing, ok, p - 1) + multiset{GroupOf(plan[p - 1])}
  }

  /** Items i and j are both needed, and for the same group. */
  predicate SameNeed(plan: seq<Item>, existing: multiset<Group>, i: nat, j: nat)
    requires i < |plan| && j < |plan|
  {
    GroupOf(plan[i]) == GroupOf(plan[j]) && !Skips(plan, existing, i) && !Skips(plan, existing, j)
  }

  /** No failed call is followed by a successful one for the same group. */
  predicate FailuresLast(plan: seq<Item>, existing: multiset<Group>, ok: nat -> bool) {
    forall i, j {:trigger ok(i), ok(j)} :: 0 <= i < j < |plan| && SameNeed(plan, existing, i, j) && ok(j) ==> ok(i)
  }

  /** How many of the picked items below p belong to group g. */
  function Count(plan: seq<Item>, pick: nat -> bool, p: nat, g: Group): nat
    requires p <= |plan|
  {
    if p == 0 then 0 else Count(plan, pick, p - 1, g) + if GroupOf(plan[p - 1]) == g && pick(p - 1) then 1 else 0
  }

  /** The needed items, and those of them whose call succeeded. */
  function Needed(plan: seq<Item>, existing: multiset<Group>): nat -> bool {
    (i: nat) => i < |plan| && !Skips(plan, existing, i)
  }

  function NeededOk(plan: seq<Item>, existing: multiset<Group>, ok: nat -> bool): nat -> bool {
    (i: nat) => i < |plan| && !Skips(plan, existing, i) && ok(i)
  }

  lemma {:induction false} CountGrows(plan: seq<Item>, pick: nat -> bool, i: nat, n: nat, g: Group)
    requires i <= n <= |plan|
    ensures Count(plan, pick, i, g) <= Count(plan, pick, n, g)
    ensures (forall j {:trigger pick(j)} :: i <= j < n && GroupOf(plan[j]) == g ==> !pick(j)) ==>
      Count(plan, pick, i, g) == Count(plan, pick, n, g)
  {
    if i < n { CountGrows(plan, pick, i, n - 1, g); }
  }

  /** Picking more counts more; picking the same of a group counts the same. */
  lemma {:induction false} CountAmong(plan: seq<Item>, a: nat -> bool, c: nat -> bool, n: nat, g: Group)
    requires n <= |plan| && forall i {:trigger a(i)} :: 0 <= i < n && a(i) ==> c(i)
    ensures Count(plan, a, n, g) <= Count(plan, c, n, g)
    ensures (forall i {:trigger c(i)} :: 0 <= i < n && GroupOf(plan[i]) == g && c(i) ==> a(i)) ==>
      Count(plan, a, n, g) == Count(plan, c, n, g)
  {
    if n > 0 { CountAmong(plan, a, c, n - 1, g); }
  }

  lemma {:induction false} GainedIsCount(plan: seq<Item>, existing: multiset<Group>, ok: nat -> bool, p: nat, g: Group)
    requires p <= |plan|
    ensures Gained(plan, existing, ok, p)[g] == Count(plan, NeededOk(plan, existing, ok), p, g)
  {
    if p > 0 {
      var i, pick := p - 1, NeededOk(plan, existing, ok);
      GainedIsCount(plan, existing, ok, i, g);
      CountStep(Gained(plan, existing, ok, i), Gained(plan, existing, ok, p), GroupOf(plan[i]), g, pick(i),
                Count(plan, pick, i, g), Count(plan, pick, p, g));
    }
  }

  lemma CountStep(before: multiset<Group>, after: multiset<Group>, h: Group, g: Group, picked: bool, n: nat, m: nat)
    requires after == (if picked then before + multiset{h} else before) && before[g] == n
    requires m == n + if h == g && picked then 1 else 0
    ensures after[g] == m
  {
    OneMore(before, h, g);
  }

  lemma OneMore(m: multiset<Group>, h: Group, g: Group)
    ensures (m + multiset{h})[g] == m[g] + if h == g then 1 else 0
  {
  }

  lemma {:induction false} ExcessIsCount(plan: seq<Item>, existing: multiset<Group>, p: nat, g: Group)
    requires p <= |plan|
    ensures (Seen(plan, p) - existing)[g] == Count(plan, Needed(plan, existing), p, g)
  {
    if p > 0 {
      var i, pick := p - 1, Needed(plan, existing);
      ExcessIsCount(plan, existing, i, g);
      ExcessStep(Seen(plan, i), existing, GroupOf(plan[i]));
      CountStep(Seen(plan, i) - existing, Seen(plan, p) - existing, GroupOf(plan[i]), g, pick(i),
                Count(plan, pick, i, g), Count(plan, pick, p, g));
    }
  }

  lemma GainedGrows(plan: seq<Item>, existing: multiset<Group>, ok: nat -> bool, i: nat, n: nat, g: Group)
    requires i <= n <= |plan|
    ensures Gained(plan, existing, ok, i)[g] <= Gained(plan, existing, ok, n)[g]
  {
    CountGrows(plan, NeededOk(plan, existing, ok), i, n, g);
    GainedIsCount(plan, existing, ok, i, g);
    GainedIsCount(plan, existing, ok, n, g);
  }

  /** While all needed items of a group succeed, what is gained is all that is seen beyond what existed. */
  lemma GainedAll(plan: seq<Item>, existing: multiset<Group>, ok: nat -> bool, n: nat, g: Group)
    requires n <= |plan|
    requires forall i {:trigger ok(i)} :: 0 <= i < n && GroupOf(plan[i]) == g && !Skips(plan, existing, i) ==> ok(i)
    ensures Gained(plan, existing, ok, n)[g] == (Seen(plan, n) - existing)[g]
  {
    CountAmong(plan, NeededOk(plan, existing, ok), Needed(plan, existing), n, g);
    GainedIsCount(plan, existing, ok, n, g);
    ExcessIsCount(plan, existing, n, g);
  }

  lemma GainedAtMost(plan: seq<Item>, existing: multiset<Group>, ok: nat -> bool, n: nat, g: Group)
    requires n <= |plan|
    ensures Gained(plan, existing, ok, n)[g] <= (Seen(plan, n) - existing)[g]
  {
    CountAmong(plan, NeededOk(plan, existing, ok), Needed(plan, existing), n, g);
    GainedIsCount(plan, existing, ok, n, g);
    ExcessIsCount(plan, existing, n, g);
  }

  lemma GainedNoMore(plan: seq<Item>, existing: multiset<Group>, ok: nat -> bool, i: nat, n: nat, g: Group)
    requires i <= n <= |plan|
    requires forall j {:trigger ok(j)} :: i <= j < n && GroupOf(plan[j]) == g && !Skips(plan, existing, j) ==> !ok(j)
    ensures Gained(plan, existing, ok, n)[g] == Gained(plan, existing, ok, i)[g]
  {
    CountGrows(plan, NeededOk(plan, existing, ok), i, n, g);
    GainedIsCount(plan, existing, ok, i, g);
    GainedIsCount(plan, existing, ok, n, g);
  }

  lemma GainedUpToSuccess(plan: seq<Item>, existing: multiset<Group>, ok: nat -> bool, i: nat)
    requires FailuresLast(plan, existing, ok) && i < |plan| && !Skips(plan, existing, i) && ok(i)
    ensures Gained(plan, existing, ok, i + 1)[GroupOf(plan[i])] == (Seen(plan, i + 1) - existing)[GroupOf(plan[i])]
  {
    var n, g := i + 1, GroupOf(plan[i]);
    forall k | 0 <= k < n && GroupOf(plan[k]) == g && !Skips(plan, existing, k) ensures ok(k) {
      if k != i { assert SameNeed(plan, existing, k, i); }
    }
    GainedAll(plan, existing, ok, n, g);
  }

  lemma SkippedAfterSuccess(plan: seq<Item>, existing: multiset<Group>, ok: nat -> bool, i: nat)
    requires FailuresLast(plan, existing, ok) && i < |plan| && !Skips(plan, existing, i) && ok(i)
    ensures Skips(plan, existing + Gained(plan, existing, ok, |plan|), i)
  {
    var g := GroupOf(plan[i]);
    GainedUpToSuccess(plan, existing, ok, i);
    GainedGrows(plan, existing, ok, i + 1, |plan|, g);
    ExcessAt(plan, existing, i, Gained(plan, existing, ok, |plan|));
  }

  lemma ExcessAt(plan: seq<Item>, existing: multiset<Group>, i: nat, gained: multiset<Group>)
    requires i < |plan| && gained[GroupOf(plan[i])] >= (Seen(plan, i + 1) - existing)[GroupOf(plan[i])]
    ensures Skips(plan, existing + gained, i)
  {
    assert Seen(plan, i + 1)[GroupOf(plan[i])] == Seen(plan, i)[GroupOf(plan[i])] + 1;
  }

  lemma AttemptedAfterFailure(plan: seq<Item>, existing: multiset<Group>, ok: nat -> bool, i: nat)
    requires FailuresLast(plan, existing, ok) && i < |plan| && !Skips(plan, existing, i) && !ok(i)
    ensures !Skips(plan, existing + Gained(plan, existing, ok, |plan|), i)
  {
    var g := GroupOf(plan[i]);
    forall j | i <= j < |plan| && GroupOf(plan[j]) == g && !Skips(plan, existing, j) ensures !ok(j) {
      assert j == i || SameNeed(plan, existing, i, j);
    }
    GainedNoMore(plan, existing, ok, i, |plan|, g);
    GainedAtMost(plan, existing, ok, i, g);
  }

  /** Item i is attempted by a re-run exactly if its call had failed. */
  predicate RetriedRight(plan: seq<Item>, existing: multiset<Group>, ok: nat -> bool, i: nat)
    requires i < |plan|
  {
    Skips(plan, existing + Gained(plan, existing, ok, |plan|), i) <==> ok(i)
  }

  lemma OvertakenFailure(plan: seq<Item>, existing: multiset<Group>, ok: nat -> bool, i: nat, j: nat)
    requires i < j < |plan| && SameNeed(plan, existing, i, j) && ok(j) && !ok(i)
    ensures !RetriedRight(plan, existing, ok, i) || !RetriedRight(plan, existing, ok, j)
  {
    SeenGrows(plan, i, j, GroupOf(plan[i]));
  }

  /** A re-run after ordinary failures attempts exactly the items whose calls failed if and only if no
      failed call is followed by a successful one for the same group. */
  lemma RerunRetriesExactlyFailures(plan: seq<Item>, existing: multiset<Group>, ok: nat -> bool)
    ensures FailuresLast(plan, existing, ok) <==>
      forall i :: 0 <= i < |plan| && !Skips(plan, existing, i) ==> RetriedRight(plan, existing, ok, i)
  {
    if FailuresLast(plan, existing, ok) {
      forall i | 0 <= i < |plan| && !Skips(plan, existing, i) ensures RetriedRight(plan, existing, ok, i) {
        if ok(i) { SkippedAfterSuccess(plan, existing, ok, i); } else { AttemptedAfterFailure(plan, existing, ok, i); }
      }
    } else {
      var i, j :| 0 <= i < j < |plan| && SameNeed(plan, existing, i, j) && ok(j) && !ok(i);
      OvertakenFailure(plan, existing, ok, i, j);
    }
  }

  /** Whether item i was sent in the given run, and successfully; for items that are not skipped. */
  function OkAt(plan: seq<Item>, ds: seq<Decision>, prev: seq<Entity>, script: nat -> Reply): nat -> bool
    requires |ds| == |plan|
  {
    (i: nat) => i < |plan| && !ds[i].Refuse? && Success(script(|Run(plan, ds, prev, script, i).sent|))
  }

  predicate NoRefusals(ds: seq<Decision>) { forall i :: 0 <= i < |ds| ==> !ds[i].Refuse? }

  /** A run that meets no outage; calls may fail, and items may be refused for room. */
  predicate NoOutages(ds: seq<Decision>, script: nat -> Reply) { forall k: nat :: k < |ds| ==> script(k) != Unavailable }

  function OkGroups(es: seq<Entity>): multiset<Group> { multiset(EntityGroups(Oks(es))) }

  lemma OkGroupsConcat(a: seq<Entity>, b: seq<Entity>)
    ensures OkGroups(a + b) == OkGroups(a) + OkGroups(b)
  {
    OksConcat(a, b);
    GroupsConcat(Oks(a), Oks(b));
  }

  lemma NoOkGroups()
    ensures OkGroups([]) == multiset{}
  {
    assert EntityGroups([]) == [];
  }

  lemma GainedAfter(st: State, after: State, i: nat, item: Item, d: Decision, reply: Reply)
    requires !st.down && SameItem(item, d) && reply != Unavailable && after == Step(st, i, item, d, reply)
    ensures !after.down
    ensures OkGroups(after.made) ==
            if !d.Attempt? || !Success(reply) then OkGroups(st.made) else OkGroups(st.made) + multiset{GroupOf(item)}
  {
    if d.Attempt? {
      var e := Outcome(d.item, reply);
      OksAppend(st.made, e);
      if e.ok { GroupsAppend(Oks(st.made), e); }
    }
  }

  lemma {:induction false} GainedByRun(plan: seq<Item>, ds: seq<Decision>, prev: seq<Entity>, script: nat -> Reply,
                                       existing: multiset<Group>, ok: nat -> bool, p: nat)
    requires DecisionsFor(plan, ds) && SkipsAs(plan, ds, existing) && NoOutages(ds, script) && p <= |plan|
    requires ok == OkAt(plan, ds, prev, script)
    ensures !Run(plan, ds, prev, script, p).down
    ensures OkGroups(Run(plan, ds, prev, script, p).made) == Gained(plan, existing, ok, p)
  {
    if p == 0 {
      NoOkGroups();
    } else {
      var i := p - 1;
      GainedByRun(plan, ds, prev, script, existing, ok, i);
      var st := Run(plan, ds, prev, script, i);
      SentBound(plan, ds, prev, script, i);
      GainedAfter(st, Run(plan, ds, prev, script, p), i, plan[i], ds[i], script(|st.sent|));
      assert ok(i) == (!ds[i].Refuse? && Success(script(|st.sent|)));
      GainedStep(plan, existing, ok, i, !ds[i].Attempt? || !Success(script(|st.sent|)));
    }
  }

  lemma GainedStep(plan: seq<Item>, existing: multiset<Group>, ok: nat -> bool, i: nat, none: bool)
    requires i < |plan| && (none <==> Skips(plan, existing, i) || !ok(i))
    ensures Gained(plan, existing, ok, i + 1) ==
            if none then Gained(plan, existing, ok, i) else Gained(plan, existing, ok, i) + multiset{GroupOf(plan[i])}
  {
  }

  lemma KeptOks(plan: seq<Item>, ds: seq<Decision>, prev: seq<Entity>, script: nat -> Reply)
    requires DecisionsFor(plan, ds)
    ensures Oks(Run(plan, ds, prev, script, |plan|).kept) == Oks(prev)
  {
    EarlierRecordsKept(plan, ds, prev, script, |plan|);
  }

  lemma OkGroupsAfterRun(plan: seq<Item>, ds: seq<Decision>, prev: seq<Entity>, script: nat -> Reply,
                         existing: multiset<Group>)
    requires DecisionsFor(plan, ds) && SkipsAs(plan, ds, existing) && NoOutages(ds, script)
    ensures OkGroups(Run(plan, ds, prev, script, |plan|).Snapshot().entities)
            == OkGroups(prev) + Gained(plan, existing, OkAt(plan, ds, prev, script), |plan|)
  {
    var st := Run(plan, ds, prev, script, |plan|);
    KeptOks(plan, ds, prev, script);
    GainedByRun(plan, ds, prev, script, existing, OkAt(plan, ds, prev, script), |plan|);
    OkGroupsConcat(st.kept, st.made);
  }

  lemma ExistingAfter(w: World, plan: seq<Item>, prev: seq<Entity>, script: nat -> Reply, ds: seq<Decision>,
                      ok: nat -> bool)
    requires w.Valid() && DecisionsFor(plan, ds) && SkipsAs(plan, ds, Existing(w, prev)) && NoOutages(ds, script)
    requires ok == OkAt(plan, ds, prev, script)
    ensures Existing(w, Run(plan, ds, prev, script, |plan|).Snapshot().entities)
            == Existing(w, prev) + Gained(plan, Existing(w, prev), ok, |plan|)
  {
    OkGroupsAfterRun(plan, ds, prev, script, Existing(w, prev));
    ExistingGrows(w, prev, Run(plan, ds, prev, script, |plan|).Snapshot().entities,
                  Gained(plan, Existing(w, prev), ok, |plan|));
  }

  lemma ExistingAfterRun(w: World, plan: seq<Item>, prev: seq<Entity>, script: nat -> Reply)
    requires w.Valid() && NoOutages(Decisions(w, plan, prev), script)
    ensures Existing(w, Apply(w, plan, prev, script).entities) == Existing(w, prev)
            + Gained(plan, Existing(w, prev), OkAt(plan, Decisions(w, plan, prev), prev, script), |plan|)
  {
    var ds := Decisions(w, plan, prev);
    DecisionsAreFor(w, plan, prev);
    DecisionsSkip(w, plan, prev);
    ExistingAfter(w, plan, prev, script, ds, OkAt(plan, ds, prev, script));
  }

  lemma ExistingGrows(w: World, prev: seq<Entity>, es: seq<Entity>, gained: multiset<Group>)
    requires w.Valid() && OkGroups(es) == OkGroups(prev) + gained
    ensures Existing(w, es) == Existing(w, prev) + gained
  {
  }

  lemma RetriesAsSkips(plan: seq<Item>, existing: multiset<Group>, ok: nat -> bool)
    ensures var later := existing + Gained(plan, existing, ok, |plan|);
      (forall i :: 0 <= i < |plan| && !Skips(plan, existing, i) ==> RetriedRight(plan, existing, ok, i)) <==>
      (forall i :: 0 <= i < |plan| && !Skips(plan, existing, i) ==> (Skips(plan, later, i) <==> ok(i)))
  {
    forall i | 0 <= i < |plan|
      ensures RetriedRight(plan, existing, ok, i) <==> (Skips(plan, existing + Gained(plan, existing, ok, |plan|), i) <==> ok(i)) { }
  }

  /** After a run without outages, the next run skips each needed item exactly if its call succeeded - if
      and only if no failed call or refused item was followed by a success for the same group. Otherwise some
      item is not retried although it failed, or is sent again although it succeeded. */
  lemma RerunAfterFailures(w: World, plan: seq<Item>, prev: seq<Entity>, script: nat -> Reply)
    requires w.Valid() && NoOutages(Decisions(w, plan, prev), script)
    ensures var existing, ok := Existing(w, prev), OkAt(plan, Decisions(w, plan, prev), prev, script);
      var later := Existing(w, Apply(w, plan, prev, script).entities);
      FailuresLast(plan, existing, ok) <==>
      forall i :: 0 <= i < |plan| && !Skips(plan, existing, i) ==> (Skips(plan, later, i) <==> ok(i))
  {
    var existing, ok := Existing(w, prev), OkAt(plan, Decisions(w, plan, prev), prev, script);
    ExistingAfterRun(w, plan, prev, script);
    RerunRetriesExactlyFailures(plan, existing, ok);
    RetriesAsSkips(plan, existing, ok);
  }

  // The smallest diverging case: two persons of one group wanted, the first call fails.

  lemma TwoItemRun(a: Item, b: Item, ds: seq<Decision>, prev: seq<Entity>, script: nat -> Reply)
    requires |ds| == 2
    ensures var st := Step(State(prev, [], [], [], [], false, []), 0, a, ds[0], script(0));
      Run([a, b], ds, prev, script, 2) == Step(st, 1, b, ds[1], script(|st.sent|))
  {
    var plan := [a, b];
    assert plan[0] == a && plan[1] == b;
    assert Run(plan, ds, prev, script, 1) == Step(Run(plan, ds, prev, script, 0), 0, a, ds[0], script(0));
  }

  lemma FirstOfTwoFails(a: Item, b: Item, script: nat -> Reply)
    requires script(0) == Failed && script(1) == AlreadyExists
    ensures Run([a, b], [Attempt(a), Attempt(b)], [], script, 2).Snapshot().entities
            == [Outcome(a, Failed), Outcome(b, AlreadyExists)]
  {
    TwoItemRun(a, b, [Attempt(a), Attempt(b)], [], script);
    assert DropFailed([], GroupOf(a)) == [] && DropFailed([], GroupOf(b)) == [];
  }

  lemma SecondOfTwoAgain(a: Item, b: Item, script: nat -> Reply)
    requires GroupOf(a) == GroupOf(b) && script(0) == AlreadyExists
    ensures Run([a, b], [Skip, Attempt(b)], [Outcome(a, Failed), Outcome(b, AlreadyExists)], script, 2).Snapshot().entities
            == [Outcome(b, AlreadyExists), Outcome(b, AlreadyExists)]
  {
    var m := [Outcome(a, Failed), Outcome(b, AlreadyExists)];
    TwoItemRun(a, b, [Skip, Attempt(b)], m, script);
    assert StaleAt(m, GroupOf(b), 0) && DropFailed(m, GroupOf(b)) == [Outcome(b, AlreadyExists)];
  }

  /** Two persons of one group and no base record of it. */
  predicate TwoPersons(w: World, a: Item, b: Item)
    requires w.Valid()
  {
    a.spot == b.spot == "" && GroupOf(a) == GroupOf(b) && multiset(BaseGroups(w))[GroupOf(a)] == 0
  }

  lemma TwoDecisions(w: World, a: Item, b: Item, prev: seq<Entity>)
    requires w.Valid() && TwoPersons(w, a, b) && OkGroups(prev)[GroupOf(a)] <= 1
    ensures Decisions(w, [a, b], prev)
            == if OkGroups(prev)[GroupOf(a)] == 0 then [Attempt(a), Attempt(b)] else [Skip, Attempt(b)]
  {
    var plan, ds := [a, b], Decisions(w, [a, b], prev);
    assert Existing(w, prev)[GroupOf(a)] == OkGroups(prev)[GroupOf(a)];
    assert Seen(plan, 0)[GroupOf(a)] == 0 && Seen(plan, 1)[GroupOf(a)] == 1;
    assert ds[0] == Decide(w, plan, prev, 0) && ds[1] == Decide(w, plan, prev, 1);
  }

  lemma OkGroupsOfTwo(a: Item, b: Item)
    requires GroupOf(a) == GroupOf(b)
    ensures var ea, eb := Outcome(a, Failed), Outcome(b, AlreadyExists);
      OkGroups([ea, eb]) == multiset{GroupOf(a)} && OkGroups([eb, eb]) == multiset{GroupOf(a), GroupOf(a)}
      && Oks([eb, eb]) == [eb, eb]
  {
    var ea, eb := Outcome(a, Failed), Outcome(b, AlreadyExists);
    assert Oks([eb]) == [eb] && Oks([eb, eb]) == [eb, eb] by {
      AllOk([eb]);
      AllOk([eb, eb]);
    }
    assert Oks([ea, eb]) == [eb] by {
      assert [ea] + [eb] == [ea, eb];
      OksPrepend(ea, [eb]);
    }
    assert EntityGroups([eb]) == [GroupOf(a)];
    assert EntityGroups([eb, eb]) == [GroupOf(a), GroupOf(a)];
  }

  /** A re-run after an ordinary failure can converge on the counts and not on the ids: the second id
      is sent and recorded twice, and the first is never spawned. */
  lemma CountsConvergeIdsDoNot(w: World, a: Item, b: Item, first: nat -> Reply, second: nat -> Reply)
    requires w.Valid() && TwoPersons(w, a, b)
    requires first(0) == Failed && first(1) == AlreadyExists && second(0) == AlreadyExists
    ensures var es := Apply(w, [a, b], Apply(w, [a, b], [], first).entities, second).entities;
      OkGroups(es) == multiset{GroupOf(a), GroupOf(b)} && EntityIds(Oks(es)) == [b.id, b.id]
  {
    FirstRun(w, a, b, first);
    SecondRun(w, a, b, second);
    OkGroupsOfTwo(a, b);
    assert EntityIds([Outcome(b, AlreadyExists), Outcome(b, AlreadyExists)]) == [b.id, b.id];
  }

  lemma FirstRun(w: World, a: Item, b: Item, first: nat -> Reply)
    requires w.Valid() && TwoPersons(w, a, b) && first(0) == Failed && first(1) == AlreadyExists
    ensures Apply(w, [a, b], [], first).entities == [Outcome(a, Failed), Outcome(b, AlreadyExists)]
  {
    NoOkGroups();
    TwoDecisions(w, a, b, []);
    FirstOfTwoFails(a, b, first);
  }

  lemma SecondRun(w: World, a: Item, b: Item, second: nat -> Reply)
    requires w.Valid() && TwoPersons(w, a, b) && second(0) == AlreadyExists
    ensures Apply(w, [a, b], [Outcome(a, Failed), Outcome(b, AlreadyExists)], second).entities
            == [Outcome(b, AlreadyExists), Outcome(b, AlreadyExists)]
  {
    OkGroupsOfTwo(a, b);
    TwoDecisions(w, a, b, [Outcome(a, Failed), Outcome(b, AlreadyExists)]);
    SecondOfTwoAgain(a, b, second);
  }
}
