/** Interrupted runs: when a re-run completes the work, and when it does not. */
module SpawnResume {
  import opened Spawn
  import opened SpawnLaws

  /** What identifies a record: its id and its group. */
  datatype Tag = Tag(id: string, group: Group)

  function Tags(es: seq<Entity>): seq<Tag> {
    seq(|es|, i requires 0 <= i < |es| => Tag(es[i].id, es[i].InGroup()))
  }

  function TagOf(item: Item): Tag { Tag(item.id, GroupOf(item)) }

  /** Tags of the items below p that are not skipped, in plan order. */
  function NeedTags(plan: seq<Item>, existing: multiset<Group>, p: nat): seq<Tag>
    requires p <= |plan|
  {
    if p == 0 then []
    else if Skips(plan, existing, p - 1) then NeedTags(plan, existing, p - 1)
    else NeedTags(plan, existing, p - 1) + [TagOf(plan[p - 1])]
  }

  function TagGroups(ts: seq<Tag>): seq<Group> { seq(|ts|, i requires 0 <= i < |ts| => ts[i].group) }

  lemma {:induction false} NeedTagsGroups(plan: seq<Item>, existing: multiset<Group>, p: nat)
    requires p <= |plan|
    ensures TagGroups(NeedTags(plan, existing, p)) == Needs(plan, existing, p)
  {
    if p > 0 { NeedTagsGroups(plan, existing, p - 1); }
  }

  /** What a manifest held before a run: its ok records, and the groups of its failed ones. */
  datatype Before = Before(oks: seq<Tag>, fails: multiset<Group>)

  function BeforeOf(prev: seq<Entity>): Before { Before(Tags(Oks(prev)), FailGroups(prev)) }

  /** Groups of the earlier failed records that are left after one attempt per needed item below p. */
  function StaleAfter(plan: seq<Item>, earlier: Before, existing: multiset<Group>, p: nat): multiset<Group>
    requires p <= |plan|
  {
    earlier.fails - multiset(Needs(plan, existing, p))
  }

  /** es's last failed record is the one of item q; the others are stale ones. */
  predicate FailedAt(plan: seq<Item>, earlier: Before, existing: multiset<Group>, es: seq<Entity>, q: nat) {
    && q < |plan|
    && Fails(es) != [] && Tags(Fails(es))[|Fails(es)| - 1] == TagOf(plan[q])
    && FailGroups(es) == StaleAfter(plan, earlier, existing, q + 1) + multiset{GroupOf(plan[q])}
  }

  predicate FailsAt(plan: seq<Item>, earlier: Before, existing: multiset<Group>, es: seq<Entity>, q: nat)
    requires q <= |plan|
  {
    FailGroups(es) == StaleAfter(plan, earlier, existing, q) || FailedAt(plan, earlier, existing, es, q)
  }

  /** The ok records of es are those of prev followed by one per needed item below q, in plan order;
      es holds the failed records of prev less one of its group per such item - and, if an attempt of item
      q failed, less one of q's group, but with that of q as the last. */
  predicate Reached(plan: seq<Item>, prev: seq<Entity>, existing: multiset<Group>, es: seq<Entity>, q: nat) {
    && q <= |plan|
    && (q < |plan| ==> !Skips(plan, existing, q))
    && Tags(Oks(es)) == Tags(Oks(prev)) + NeedTags(plan, existing, q)
    && FailsAt(plan, BeforeOf(prev), existing, es, q)
  }

  /** If prev holds no failed record, es holds none but that of item q. */
  lemma ReachedFromClean(plan: seq<Item>, prev: seq<Entity>, existing: multiset<Group>, es: seq<Entity>, q: nat)
    requires Reached(plan, prev, existing, es, q) && Fails(prev) == []
    ensures Fails(es) == [] || (q < |plan| && Tags(Fails(es)) == [TagOf(plan[q])])
  {
    FailsEmpty(prev);
    FailsEmpty(es);
    assert |FailGroups(es)| == |EntityGroups(Fails(es))| == |Fails(es)|;
    if FailGroups(es) != multiset{} {
      assert FailGroups(es) == multiset{GroupOf(plan[q])};
      assert |Tags(Fails(es))| == 1;
    }
  }

  // ------------------------------------------------------- decisions of a re-run

  /** A re-run skips everything below m and decides the rest as the first run did. */
  lemma SkipsShift(plan: seq<Item>, existing: multiset<Group>, m: nat, i: nat)
    requires m <= |plan| && i < |plan|
    ensures Skips(plan, existing + multiset(Needs(plan, existing, m)), i) <==> i < m || Skips(plan, existing, i)
  {
    NeedsAreTheExcess(plan, existing, m);
    if i < m { SeenGrows(plan, i + 1, m, GroupOf(plan[i])); } else { SeenGrows(plan, m, i, GroupOf(plan[i])); }
  }

  lemma GroupsFromTags(a: seq<Entity>, b: seq<Entity>, ts: seq<Tag>)
    requires Tags(a) == Tags(b) + ts
    ensures multiset(EntityGroups(a)) == multiset(EntityGroups(b)) + multiset(TagGroups(ts))
  {
    assert TagGroups(Tags(b) + ts) == TagGroups(Tags(b)) + TagGroups(ts);
    assert TagGroups(Tags(a)) == EntityGroups(a) && TagGroups(Tags(b)) == EntityGroups(b);
  }

  lemma ExistingReached(w: World, plan: seq<Item>, prev: seq<Entity>, es: seq<Entity>, m: nat)
    requires w.Valid() && Reached(plan, prev, Existing(w, prev), es, m)
    ensures Existing(w, es) == Existing(w, prev) + multiset(Needs(plan, Existing(w, prev), m))
  {
    NeedTagsGroups(plan, Existing(w, prev), m);
    GroupsFromTags(Oks(es), Oks(prev), NeedTags(plan, Existing(w, prev), m));
  }

  // ------------------------------------------------------------ one more run

  /** At this step nothing goes wrong but an outage: no item is refused for room, no call fails. */
  predicate NoFailure(st: State, d: Decision, reply: Reply) {
    st.down || (!d.Refuse? && (d.Attempt? ==> reply != Failed))
  }

  /** In the first p steps of a run nothing goes wrong but an outage. */
  predicate OnlyOutages(plan: seq<Item>, ds: seq<Decision>, es: seq<Entity>, script: nat -> Reply, p: nat)
    requires |ds| == |plan| && p <= |plan|
  {
    p == 0 || (OnlyOutages(plan, ds, es, script, p - 1)
               && NoFailure(Run(plan, ds, es, script, p - 1), ds[p - 1], script(|Run(plan, ds, es, script, p - 1).sent|)))
  }

  lemma FailsEmpty(es: seq<Entity>)
    ensures FailGroups(es) == multiset{} <==> Fails(es) == []
  {
    assert |EntityGroups(Fails(es))| == |Fails(es)|;
    assert |FailGroups(es)| == |EntityGroups(Fails(es))|;
  }

  function SentTags(items: seq<Item>): seq<Tag> { seq(|items|, i requires 0 <= i < |items| => TagOf(items[i])) }

  lemma TagsConcat(a: seq<Entity>, b: seq<Entity>)
    ensures Tags(a + b) == Tags(a) + Tags(b)
  {
  }

  /** What matters of a run here: the groups of the failed records it keeps, the tags of its ok
      records, of its fresh failed records and of its calls, and whether the service is down. */
  datatype View = View(stale: multiset<Group>, oks: seq<Tag>, fails: seq<Tag>, sent: seq<Tag>, down: bool)

  function ViewOf(st: State): View {
    View(FailGroups(st.kept), Tags(Oks(st.kept)) + Tags(Oks(st.made)), Tags(Fails(st.made)), SentTags(st.sent), st.down)
  }

  lemma IdleView(st: State, i: nat, item: Item, d: Decision, reply: Reply)
    requires st.down || d.Skip?
    ensures ViewOf(Step(st, i, item, d, reply)) == ViewOf(st)
  {
  }

  function AfterAttempt(v: View, t: Tag, down: bool): View {
    View(v.stale - multiset{t.group}, if down then v.oks else v.oks + [t], if down then [t] else [], v.sent + [t], down)
  }

  /** An attempt answered by success or by an outage. */
  lemma AttemptView(st: State, i: nat, item: Item, send: Item, reply: Reply)
    requires !st.down && SameItem(item, Attempt(send)) && reply != Failed
    requires Fails(st.made) == []
    ensures ViewOf(Step(st, i, item, Attempt(send), reply)) == AfterAttempt(ViewOf(st), TagOf(item), reply.Unavailable?)
  {
    var e, kept := Outcome(send, reply), DropFailed(st.kept, GroupOf(item));
    DropFailedLaw(st.kept, GroupOf(item));
    MadeTags(st.made, e);
    assert Tag(e.id, e.InGroup()) == TagOf(item);
    SentAppend(st.sent, send);
    Assoc(Tags(Oks(st.kept)), Tags(Oks(st.made)), [TagOf(item)]);
  }

  lemma MadeTags(es: seq<Entity>, e: Entity)
    requires Fails(es) == []
    ensures Tags(Oks(es + [e])) == if e.ok then Tags(Oks(es)) + [Tag(e.id, e.InGroup())] else Tags(Oks(es))
    ensures Tags(Fails(es + [e])) == if e.ok then [] else [Tag(e.id, e.InGroup())]
  {
    OksAppend(es, e);
    TagsConcat(Oks(es), [e]);
    assert Tags([e]) == [Tag(e.id, e.InGroup())];
  }

  lemma SentAppend(sent: seq<Item>, send: Item)
    ensures SentTags(sent + [send]) == SentTags(sent) + [TagOf(send)]
  {
  }

  lemma Assoc(a: seq<Tag>, b: seq<Tag>, c: seq<Tag>)
    ensures a + (b + c) == (a + b) + c && a + [] == a
  {
  }

  /** What a re-run from m has recorded and sent once it has dealt with the items below p, item q
      being where it stopped if the service went down. */
  predicate Underway(plan: seq<Item>, earlier: Before, existing: multiset<Group>, v: View, m: nat, p: nat, q: nat) {
    && m <= q <= p <= |plan| && v.stale == StaleAfter(plan, earlier, existing, if v.down && q < p then q + 1 else q)
    && (if v.down then q < p && !Skips(plan, existing, q) && v.fails == [TagOf(plan[q])] else q == p && v.fails == [])
    && v.oks == earlier.oks + NeedTags(plan, existing, q)
    && NeedTags(plan, existing, m) + v.sent == NeedTags(plan, existing, if v.down then q + 1 else q)
  }

  lemma AttemptUnderway(plan: seq<Item>, earlier: Before, existing: multiset<Group>, v: View, m: nat, p: nat,
                        down: bool)
    requires m <= p < |plan| && !Skips(plan, existing, p)
    requires v.oks == earlier.oks + NeedTags(plan, existing, p)
    requires v.stale - multiset{GroupOf(plan[p])} == StaleAfter(plan, earlier, existing, p + 1)
    requires NeedTags(plan, existing, m) + v.sent == NeedTags(plan, existing, p)
    ensures Underway(plan, earlier, existing, AfterAttempt(v, TagOf(plan[p]), down), m, p + 1, if down then p else p + 1)
  {
    var t := [TagOf(plan[p])];
    assert NeedTags(plan, existing, p + 1) == NeedTags(plan, existing, p) + t;
    Assoc(earlier.oks, NeedTags(plan, existing, p), t);
    Assoc(NeedTags(plan, existing, m), v.sent, t);
  }

  /** One attempt per needed item takes one stale record of its group. */
  lemma StaleNext(plan: seq<Item>, earlier: Before, existing: multiset<Group>, p: nat)
    requires p < |plan|
    ensures StaleAfter(plan, earlier, existing, p + 1) ==
            if Skips(plan, existing, p) then StaleAfter(plan, earlier, existing, p)
            else StaleAfter(plan, earlier, existing, p) - multiset{GroupOf(plan[p])}
  {
    if !Skips(plan, existing, p) {
      NeedAppended(plan, existing, p);
      OneLess(StaleAfter(plan, earlier, existing, p), earlier.fails, multiset(Needs(plan, existing, p)), GroupOf(plan[p]));
    }
  }

  lemma NeedAppended(plan: seq<Item>, existing: multiset<Group>, p: nat)
    requires p < |plan| && !Skips(plan, existing, p)
    ensures multiset(Needs(plan, existing, p + 1)) == multiset(Needs(plan, existing, p)) + multiset{GroupOf(plan[p])}
  {
  }

  /** Where a re-run starts, its first attempt leaves the stale records of one more item. */
  lemma StaleFirst(plan: seq<Item>, prev: seq<Entity>, existing: multiset<Group>, es: seq<Entity>, m: nat)
    requires m < |plan| && Reached(plan, prev, existing, es, m)
    ensures FailGroups(es) - multiset{GroupOf(plan[m])} == StaleAfter(plan, BeforeOf(prev), existing, m + 1)
  {
    StaleNext(plan, BeforeOf(prev), existing, m);
  }

  predicate Untouched(st: State, es: seq<Entity>) { st.kept == es && st.made == [] && st.sent == [] && !st.down }

  lemma FirstAttempt(plan: seq<Item>, prev: seq<Entity>, existing: multiset<Group>, es: seq<Entity>, m: nat,
                     st: State, send: Item, reply: Reply)
    requires m < |plan| && Reached(plan, prev, existing, es, m) && Untouched(st, es)
    requires SameItem(plan[m], Attempt(send)) && reply != Failed
    ensures Underway(plan, BeforeOf(prev), existing, ViewOf(Step(st, m, plan[m], Attempt(send), reply)), m, m + 1,
                     if reply.Unavailable? then m else m + 1)
  {
    StaleFirst(plan, prev, existing, es, m);
    UntouchedView(st, es);
    AttemptView(st, m, plan[m], send, reply);
    Assoc(NeedTags(plan, existing, m), [], []);
    AttemptUnderway(plan, BeforeOf(prev), existing, ViewOf(st), m, m, reply.Unavailable?);
  }

  lemma UntouchedView(st: State, es: seq<Entity>)
    requires Untouched(st, es)
    ensures ViewOf(st) == View(FailGroups(es), Tags(Oks(es)), [], [], false) && Fails(st.made) == []
  {
    assert Tags(Oks(st.made)) == [] && SentTags(st.sent) == [] && Tags(Fails(st.made)) == [];
    Assoc(Tags(Oks(es)), [], []);
  }

  lemma NextAttempt(plan: seq<Item>, earlier: Before, existing: multiset<Group>, st: State, m: nat, p: nat, q: nat,
                    send: Item, reply: Reply)
    requires p < |plan| && Underway(plan, earlier, existing, ViewOf(st), m, p, q)
    requires !st.down && !Skips(plan, existing, p) && SameItem(plan[p], Attempt(send)) && reply != Failed
    ensures Underway(plan, earlier, existing, ViewOf(Step(st, p, plan[p], Attempt(send), reply)), m, p + 1,
                     if reply.Unavailable? then p else p + 1)
  {
    StaleNext(plan, earlier, existing, p);
    assert |Tags(Fails(st.made))| == |Fails(st.made)|;
    AttemptView(st, p, plan[p], send, reply);
    AttemptUnderway(plan, earlier, existing, ViewOf(st), m, p, reply.Unavailable?);
  }

  lemma DownUnderway(plan: seq<Item>, earlier: Before, existing: multiset<Group>, v: View, m: nat, p: nat, q: nat)
    requires p < |plan| && v.down
    ensures Underway(plan, earlier, existing, v, m, p, q) ==> Underway(plan, earlier, existing, v, m, p + 1, q)
  {
  }

  lemma SkipUnderway(plan: seq<Item>, earlier: Before, existing: multiset<Group>, v: View, m: nat, p: nat)
    requires p < |plan| && !v.down && Skips(plan, existing, p)
    ensures Underway(plan, earlier, existing, v, m, p, p) ==> Underway(plan, earlier, existing, v, m, p + 1, p + 1)
  {
    SkippedTags(plan, existing, p);
    StaleNext(plan, earlier, existing, p);
  }

  lemma IdleUnderway(plan: seq<Item>, earlier: Before, existing: multiset<Group>, v: View, m: nat, p: nat, q: nat)
    requires p < |plan| && Underway(plan, earlier, existing, v, m, p, q) && (v.down || Skips(plan, existing, p))
    ensures Underway(plan, earlier, existing, v, m, p + 1, if v.down then q else p + 1)
  {
    if v.down {
      DownUnderway(plan, earlier, existing, v, m, p, q);
    } else {
      assert q == p;
      SkipUnderway(plan, earlier, existing, v, m, p);
    }
  }

  lemma SkippedTags(plan: seq<Item>, existing: multiset<Group>, p: nat)
    requires p < |plan| && Skips(plan, existing, p)
    ensures NeedTags(plan, existing, p + 1) == NeedTags(plan, existing, p)
  {
  }

  /** Where a re-run stands after one more item. */
  function NextStop(st: State, p: nat, q: nat, d: Decision, reply: Reply): nat {
    if st.down then q else if d.Attempt? && reply.Unavailable? then p else p + 1
  }

  lemma NextStep(plan: seq<Item>, earlier: Before, existing: multiset<Group>, st: State, m: nat, p: nat, q: nat,
                 d: Decision, reply: Reply)
    requires p < |plan| && Underway(plan, earlier, existing, ViewOf(st), m, p, q)
    requires NoFailure(st, d, reply) && (d.Skip? <==> Skips(plan, existing, p)) && SameItem(plan[p], d)
    ensures Underway(plan, earlier, existing, ViewOf(Step(st, p, plan[p], d, reply)), m, p + 1, NextStop(st, p, q, d, reply))
  {
    if st.down || d.Skip? {
      IdleView(st, p, plan[p], d, reply);
      IdleUnderway(plan, earlier, existing, ViewOf(st), m, p, q);
    } else {
      assert d == Attempt(d.item);
      NextAttempt(plan, earlier, existing, st, m, p, q, d.item, reply);
    }
  }

  /** Where a re-run from m stands after the items below p. */
  predicate Standing(plan: seq<Item>, earlier: Before, existing: multiset<Group>, es: seq<Entity>, st: State,
                     m: nat, p: nat, q: nat) {
    if p <= m then Untouched(st, es) && q == m else Underway(plan, earlier, existing, ViewOf(st), m, p, q)
  }

  lemma StandingBelow(plan: seq<Item>, earlier: Before, existing: multiset<Group>, es: seq<Entity>, st: State,
                      after: State, m: nat, i: nat, d: Decision, reply: Reply)
    requires i < |plan| && i < m && Standing(plan, earlier, existing, es, st, m, i, m)
    requires d.Skip? && after == Step(st, i, plan[i], d, reply)
    ensures Standing(plan, earlier, existing, es, after, m, i + 1, m)
  {
  }

  lemma StandingAt(plan: seq<Item>, prev: seq<Entity>, existing: multiset<Group>, es: seq<Entity>, st: State,
                   after: State, m: nat, d: Decision, reply: Reply)
    requires m < |plan| && Reached(plan, prev, existing, es, m)
    requires Standing(plan, BeforeOf(prev), existing, es, st, m, m, m)
    requires d.Attempt? && SameItem(plan[m], d) && reply != Failed && after == Step(st, m, plan[m], d, reply)
    ensures Standing(plan, BeforeOf(prev), existing, es, after, m, m + 1, NextStop(st, m, m, d, reply))
  {
    assert d == Attempt(d.item);
    FirstAttempt(plan, prev, existing, es, m, st, d.item, reply);
  }

  lemma StandingAbove(plan: seq<Item>, earlier: Before, existing: multiset<Group>, es: seq<Entity>, st: State,
                      after: State, m: nat, i: nat, q: nat, d: Decision, reply: Reply)
    requires i < |plan| && i > m && Standing(plan, earlier, existing, es, st, m, i, q)
    requires NoFailure(st, d, reply) && (d.Skip? <==> Skips(plan, existing, i)) && SameItem(plan[i], d)
    requires after == Step(st, i, plan[i], d, reply)
    ensures Standing(plan, earlier, existing, es, after, m, i + 1, NextStop(st, i, q, d, reply))
  {
    NextStep(plan, earlier, existing, st, m, i, q, d, reply);
  }

  lemma ShiftedDecision(plan: seq<Item>, ds: seq<Decision>, existing: multiset<Group>, m: nat, i: nat)
    requires m <= |plan| && i < |plan| && SkipsAs(plan, ds, existing + multiset(Needs(plan, existing, m)))
    ensures ds[i].Skip? <==> i < m || Skips(plan, existing, i)
  {
    SkipsShift(plan, existing, m, i);
  }

  /** A re-run from m: below m it only skips, and then it goes on exactly where the failure was. */
  lemma {:induction false} ReRunProgress(plan: seq<Item>, ds: seq<Decision>, es: seq<Entity>, script: nat -> Reply,
                                         prev: seq<Entity>, existing: multiset<Group>, m: nat, p: nat) returns (q: nat)
    requires DecisionsFor(plan, ds) && p <= |plan| && OnlyOutages(plan, ds, es, script, p)
    requires Reached(plan, prev, existing, es, m)
    requires SkipsAs(plan, ds, existing + multiset(Needs(plan, existing, m)))
    ensures Standing(plan, BeforeOf(prev), existing, es, Run(plan, ds, es, script, p), m, p, q)
  {
    q := m;
    if p > 0 {
      var i := p - 1;
      q := ReRunProgress(plan, ds, es, script, prev, existing, m, i);
      var st := Run(plan, ds, es, script, i);
      ShiftedDecision(plan, ds, existing, m, i);
      q := ReRunStep(plan, es, prev, existing, m, i, q, st, Run(plan, ds, es, script, p), ds[i], script(|st.sent|));
    }
  }

  lemma ReRunStep(plan: seq<Item>, es: seq<Entity>, prev: seq<Entity>, existing: multiset<Group>, m: nat, i: nat, q: nat,
                  st: State, after: State, d: Decision, reply: Reply) returns (q': nat)
    requires i < |plan| && Reached(plan, prev, existing, es, m)
    requires SameItem(plan[i], d) && NoFailure(st, d, reply) && (d.Skip? <==> i < m || Skips(plan, existing, i))
    requires after == Step(st, i, plan[i], d, reply) && Standing(plan, BeforeOf(prev), existing, es, st, m, i, q)
    ensures Standing(plan, BeforeOf(prev), existing, es, after, m, i + 1, q')
  {
    if i < m {
      StandingBelow(plan, BeforeOf(prev), existing, es, st, after, m, i, d, reply);
      return m;
    } else if i == m {
      StandingAt(plan, prev, existing, es, st, after, m, d, reply);
    } else {
      StandingAbove(plan, BeforeOf(prev), existing, es, st, after, m, i, q, d, reply);
    }
    q' := NextStop(st, i, q, d, reply);
  }

  lemma {:induction false} SentBound(plan: seq<Item>, ds: seq<Decision>, es: seq<Entity>, script: nat -> Reply, p: nat)
    requires |ds| == |plan| && p <= |plan|
    ensures |Run(plan, ds, es, script, p).sent| <= p
  {
    if p > 0 { SentBound(plan, ds, es, script, p - 1); }
  }

  // ------------------------------------------------------ whole histories

  lemma {:induction false} NeedTagsPrefix(plan: seq<Item>, existing: multiset<Group>, m: nat, p: nat)
    requires m <= p <= |plan|
    ensures NeedTags(plan, existing, m) <= NeedTags(plan, existing, p)
  {
    if m < p { NeedTagsPrefix(plan, existing, m, p - 1); }
  }

  /** The calls of a re-run from m that got to q, the last one failing if q is an item. */
  predicate CallsBetween(plan: seq<Item>, existing: multiset<Group>, sent: seq<Item>, m: nat, q: nat) {
    && m <= q <= |plan|
    && NeedTags(plan, existing, m) + SentTags(sent) == NeedTags(plan, existing, if q < |plan| then q + 1 else q)
  }

  lemma CallsStartAt(plan: seq<Item>, existing: multiset<Group>, sent: seq<Item>, m: nat, q: nat)
    requires CallsBetween(plan, existing, sent, m, q) && m < |plan| && !Skips(plan, existing, m)
    ensures sent != [] && TagOf(sent[0]) == TagOf(plan[m])
  {
    var p := if q < |plan| then q + 1 else q;
    NeedTagsPrefix(plan, existing, m + 1, p);
    FirstOf(NeedTags(plan, existing, m), SentTags(sent), NeedTags(plan, existing, p), TagOf(plan[m]));
  }

  /** The next item that is not skipped, |plan| if there is none. */
  lemma {:induction false} NextNeeded(plan: seq<Item>, existing: multiset<Group>, p: nat) returns (m: nat)
    requires p <= |plan|
    ensures p <= m <= |plan| && NeedTags(plan, existing, m) == NeedTags(plan, existing, p)
    ensures Needs(plan, existing, m) == Needs(plan, existing, p)
    ensures m < |plan| ==> !Skips(plan, existing, m)
    decreases |plan| - p
  {
    if p == |plan| || !Skips(plan, existing, p) { m := p; } else { m := NextNeeded(plan, existing, p + 1); }
  }

  lemma SnapshotTags(st: State)
    ensures Tags(Oks(st.Snapshot().entities)) == Tags(Oks(st.kept)) + Tags(Oks(st.made))
    ensures Fails(st.Snapshot().entities) == Fails(st.kept) + Fails(st.made)
    ensures FailGroups(st.Snapshot().entities) == FailGroups(st.kept) + FailGroups(st.made)
  {
    OksConcat(st.kept, st.made);
    TagsConcat(Oks(st.kept), Oks(st.made));
    GroupsConcat(Fails(st.kept), Fails(st.made));
  }

  lemma OneFailed(es: seq<Entity>, t: Tag)
    requires Tags(Fails(es)) == [t]
    ensures |Fails(es)| == 1 && FailGroups(es) == multiset{t.group}
  {
    assert |Tags(Fails(es))| == |Fails(es)|;
    assert EntityGroups(Fails(es)) == [Tags(Fails(es))[0].group];
  }

  /** The failed records of a snapshot taken on the way. */
  lemma SnapshotFails(plan: seq<Item>, earlier: Before, existing: multiset<Group>, st: State, m: nat, p: nat, q: nat)
    requires Underway(plan, earlier, existing, ViewOf(st), m, p, q)
    ensures if st.down then FailedAt(plan, earlier, existing, st.Snapshot().entities, q)
            else FailGroups(st.Snapshot().entities) == StaleAfter(plan, earlier, existing, q)
  {
    SnapshotTags(st);
    if st.down {
      OneFailed(st.made, TagOf(plan[q]));
      LastTag(Fails(st.kept), Fails(st.made));
    } else {
      assert |Tags(Fails(st.made))| == |Fails(st.made)|;
      FailsEmpty(st.made);
    }
  }

  lemma LastTag(a: seq<Entity>, b: seq<Entity>)
    requires |b| == 1
    ensures Tags(a + b)[|a + b| - 1] == Tags(b)[0]
  {
  }

  /** The snapshot after p items is one a re-run can start from: it has reached item q. */
  lemma SnapshotReaches(plan: seq<Item>, prev: seq<Entity>, existing: multiset<Group>, es: seq<Entity>, st: State,
                        m: nat, p: nat, stop: nat) returns (q: nat)
    requires p <= |plan| && Reached(plan, prev, existing, es, m)
    requires Standing(plan, BeforeOf(prev), existing, es, st, m, p, stop)
    ensures m <= q && Reached(plan, prev, existing, st.Snapshot().entities, q)
    ensures st.sent == [] || (m < |plan| && TagOf(st.sent[0]) == TagOf(plan[m]))
  {
    if p <= m {
      q := m;
      assert es + [] == es;
    } else {
      q := UnderwayReaches(plan, prev, existing, st, m, p, stop);
      if m < |plan| { SentFrom(plan, existing, st.sent, m, if st.down then stop + 1 else stop); }
    }
  }

  lemma UnderwayReaches(plan: seq<Item>, prev: seq<Entity>, existing: multiset<Group>, st: State, m: nat, p: nat, stop: nat)
    returns (q: nat)
    requires Underway(plan, BeforeOf(prev), existing, ViewOf(st), m, p, stop)
    ensures m <= q && Reached(plan, prev, existing, st.Snapshot().entities, q)
  {
    SnapshotTags(st);
    SnapshotFails(plan, BeforeOf(prev), existing, st, m, p, stop);
    q := stop;
    if !st.down { q := NextNeeded(plan, existing, stop); }
  }

  lemma SentFrom(plan: seq<Item>, existing: multiset<Group>, sent: seq<Item>, m: nat, p: nat)
    requires m < |plan| && m <= p <= |plan| && !Skips(plan, existing, m)
    requires NeedTags(plan, existing, m) + SentTags(sent) == NeedTags(plan, existing, p)
    ensures sent == [] || TagOf(sent[0]) == TagOf(plan[m])
  {
    if m < p {
      NeedTagsPrefix(plan, existing, m + 1, p);
      FirstOf(NeedTags(plan, existing, m), SentTags(sent), NeedTags(plan, existing, p), TagOf(plan[m]));
    } else {
      assert |SentTags(sent)| == 0;
    }
  }

  lemma FirstOf(before: seq<Tag>, more: seq<Tag>, all: seq<Tag>, t: Tag)
    requires before + more == all && before + [t] <= all
    ensures more != [] && more[0] == t
  {
    assert all[|before|] == (before + [t])[|before|];
    assert (before + more)[|before|] == more[0];
  }

  lemma RunReaches(plan: seq<Item>, prev: seq<Entity>, existing: multiset<Group>, es: seq<Entity>, st: State,
                   m: nat, q: nat)
    requires Reached(plan, prev, existing, es, m)
    requires Standing(plan, BeforeOf(prev), existing, es, st, m, |plan|, q)
    ensures Reached(plan, prev, existing, st.Snapshot().entities, q) && CallsBetween(plan, existing, st.sent, m, q)
    ensures st.down <==> q < |plan| && m < |plan|
  {
    if m < |plan| {
      SnapshotTags(st);
      SnapshotFails(plan, BeforeOf(prev), existing, st, m, |plan|, q);
    } else {
      assert es + [] == es;
      assert NeedTags(plan, existing, m) + SentTags([]) == NeedTags(plan, existing, m);
    }
  }

  /** One re-run after an outage at item m: it first attempts exactly item m, and afterwards the ok
      records are one per needed item up to the next outage (or the end), with at most one new failed
      record, that of the item where it stopped. */
  lemma ReRun(w: World, plan: seq<Item>, prev: seq<Entity>, es: seq<Entity>, m: nat, script: nat -> Reply) returns (q: nat)
    requires w.Valid() && Reached(plan, prev, Existing(w, prev), es, m)
    requires OnlyOutages(plan, Decisions(w, plan, es), es, script, |plan|)
    ensures m <= q && Reached(plan, prev, Existing(w, prev), Apply(w, plan, es, script).entities, q)
    ensures var st := Run(plan, Decisions(w, plan, es), es, script, |plan|);
      && CallsBetween(plan, Existing(w, prev), st.sent, m, q)
      && (m < |plan| ==> st.sent != [] && TagOf(st.sent[0]) == TagOf(plan[m]) && (st.down <==> q < |plan|))
  {
    var ds, existing := Decisions(w, plan, es), Existing(w, prev);
    DecisionsAreFor(w, plan, es);
    DecisionsSkip(w, plan, es);
    ExistingReached(w, plan, prev, es, m);
    q := ReRunProgress(plan, ds, es, script, prev, existing, m, |plan|);
    var st := Run(plan, ds, es, script, |plan|);
    RunReaches(plan, prev, existing, es, st, m, q);
    if m < |plan| { CallsStartAt(plan, existing, st.sent, m, q); }
  }

  /** The same for a re-run that is killed after any number of items: whatever it sends starts with item
      m, and the manifest it leaves is again one to resume from. */
  lemma ReRunKilled(w: World, plan: seq<Item>, prev: seq<Entity>, es: seq<Entity>, m: nat, script: nat -> Reply, stop: nat)
    returns (q: nat)
    requires w.Valid() && Reached(plan, prev, Existing(w, prev), es, m) && stop <= |plan|
    requires OnlyOutages(plan, Decisions(w, plan, es), es, script, stop)
    ensures m <= q && Reached(plan, prev, Existing(w, prev), ApplyKilled(w, plan, es, script, stop), q)
    ensures var st := Run(plan, Decisions(w, plan, es), es, script, stop);
      st.sent == [] || (m < |plan| && TagOf(st.sent[0]) == TagOf(plan[m]))
  {
    DecisionsAreFor(w, plan, es);
    DecisionsFromReached(w, plan, prev, es, m);
    q := KilledReaches(plan, Decisions(w, plan, es), es, script, prev, Existing(w, prev), m, stop,
                       ApplyKilled(w, plan, es, script, stop));
  }

  lemma DecisionsFromReached(w: World, plan: seq<Item>, prev: seq<Entity>, es: seq<Entity>, m: nat)
    requires w.Valid()
    ensures Reached(plan, prev, Existing(w, prev), es, m) ==>
      SkipsAs(plan, Decisions(w, plan, es), Existing(w, prev) + multiset(Needs(plan, Existing(w, prev), m)))
  {
    if Reached(plan, prev, Existing(w, prev), es, m) {
      DecisionsSkip(w, plan, es);
      ExistingReached(w, plan, prev, es, m);
    }
  }

  lemma KilledReaches(plan: seq<Item>, ds: seq<Decision>, es: seq<Entity>, script: nat -> Reply, prev: seq<Entity>,
                      existing: multiset<Group>, m: nat, p: nat, after: seq<Entity>) returns (q: nat)
    requires DecisionsFor(plan, ds) && p <= |plan| && OnlyOutages(plan, ds, es, script, p)
    requires Reached(plan, prev, existing, es, m)
    requires SkipsAs(plan, ds, existing + multiset(Needs(plan, existing, m)))
    requires after == Run(plan, ds, es, script, p).Snapshot().entities
    ensures m <= q && Reached(plan, prev, existing, after, q)
    ensures var sent := Run(plan, ds, es, script, p).sent; sent == [] || (m < |plan| && TagOf(sent[0]) == TagOf(plan[m]))
  {
    var at := ReRunProgress(plan, ds, es, script, prev, existing, m, p);
    q := SnapshotReaches(plan, prev, existing, es, Run(plan, ds, es, script, p), m, p, at);
  }

  /** One run of the plan: the simulator's answers, and after how many items it is killed - not at all if
      these are all the plan has. */
  datatype Try = Try(script: nat -> Reply, stop: nat)

  function StopOf(plan: seq<Item>, t: Try): nat { if t.stop < |plan| then t.stop else |plan| }

  function Retry(w: World, plan: seq<Item>): (seq<Entity>, Try) -> seq<Entity>
    requires w.Valid()
  {
    (es: seq<Entity>, t: Try) => ApplyKilled(w, plan, es, t.script, t.stop)
  }

  /** In one run, as far as it gets, nothing is refused for room and no call fails but by an outage. */
  function MeetsOutages(w: World, plan: seq<Item>): (seq<Entity>, Try) -> bool
    requires w.Valid()
  {
    (es: seq<Entity>, t: Try) => OnlyOutages(plan, Decisions(w, plan, es), es, t.script, StopOf(plan, t))
  }

  /** The entities after n runs, each over the manifest the one before left. */
  function AfterTries(next: (seq<Entity>, Try) -> seq<Entity>, prev: seq<Entity>, tries: seq<Try>, n: nat): seq<Entity>
    requires n <= |tries|
  {
    if n == 0 then prev else next(AfterTries(next, prev, tries, n - 1), tries[n - 1])
  }

  /** Each of the first n runs meets a condition. */
  predicate AllMeet(next: (seq<Entity>, Try) -> seq<Entity>, meets: (seq<Entity>, Try) -> bool, prev: seq<Entity>,
                    tries: seq<Try>, n: nat)
    requires n <= |tries|
  {
    n == 0 || (AllMeet(next, meets, prev, tries, n - 1) && meets(AfterTries(next, prev, tries, n - 1), tries[n - 1]))
  }

  lemma {:induction false} KeptByTries(next: (seq<Entity>, Try) -> seq<Entity>, meets: (seq<Entity>, Try) -> bool,
                                       good: seq<Entity> -> bool, prev: seq<Entity>, tries: seq<Try>, n: nat)
    requires n <= |tries| && good(prev) && AllMeet(next, meets, prev, tries, n)
    requires forall es, t :: good(es) && meets(es, t) ==> good(next(es, t))
    ensures good(AfterTries(next, prev, tries, n))
  {
    if n > 0 { KeptByTries(next, meets, good, prev, tries, n - 1); }
  }

  /** The entities after n runs of the same plan. */
  function History(w: World, plan: seq<Item>, prev: seq<Entity>, tries: seq<Try>, n: nat): seq<Entity>
    requires w.Valid() && n <= |tries|
  {
    AfterTries(Retry(w, plan), prev, tries, n)
  }

  /** In each of the first n runs, as far as it gets, nothing goes wrong but an outage. */
  predicate OutagesUpTo(w: World, plan: seq<Item>, prev: seq<Entity>, tries: seq<Try>, n: nat)
    requires w.Valid() && n <= |tries|
  {
    AllMeet(Retry(w, plan), MeetsOutages(w, plan), prev, tries, n)
  }

  lemma NothingYet(w: World, plan: seq<Item>, prev: seq<Entity>) returns (q: nat)
    requires w.Valid()
    ensures Reached(plan, prev, Existing(w, prev), prev, q)
  {
    q := NextNeeded(plan, Existing(w, prev), 0);
    Assoc(Tags(Oks(prev)), [], []);
  }

  ghost predicate ReachedSome(plan: seq<Item>, prev: seq<Entity>, existing: multiset<Group>, es: seq<Entity>) {
    exists q: nat :: Reached(plan, prev, existing, es, q)
  }

  /** After any number of runs, each killed anywhere or stopped by an outage, the records are those of the
      plan's needs up to some item. */
  lemma HistoryReaches(w: World, plan: seq<Item>, prev: seq<Entity>, tries: seq<Try>, n: nat) returns (q: nat)
    requires w.Valid() && n <= |tries| && OutagesUpTo(w, plan, prev, tries, n)
    ensures Reached(plan, prev, Existing(w, prev), History(w, plan, prev, tries, n), q)
  {
    var good := es => ReachedSome(plan, prev, Existing(w, prev), es);
    StartReached(w, plan, prev);
    forall es, t | good(es) && MeetsOutages(w, plan)(es, t) ensures good(Retry(w, plan)(es, t)) {
      TryReaches(w, plan, prev, es, t);
    }
    KeptByTries(Retry(w, plan), MeetsOutages(w, plan), good, prev, tries, n);
    q :| Reached(plan, prev, Existing(w, prev), History(w, plan, prev, tries, n), q);
  }

  lemma StartReached(w: World, plan: seq<Item>, prev: seq<Entity>)
    requires w.Valid()
    ensures ReachedSome(plan, prev, Existing(w, prev), prev)
  {
    var q := NothingYet(w, plan, prev);
  }

  lemma TryReaches(w: World, plan: seq<Item>, prev: seq<Entity>, es: seq<Entity>, t: Try)
    requires w.Valid()
    ensures ReachedSome(plan, prev, Existing(w, prev), es) && MeetsOutages(w, plan)(es, t) ==>
      ReachedSome(plan, prev, Existing(w, prev), Retry(w, plan)(es, t))
  {
    if ReachedSome(plan, prev, Existing(w, prev), es) && MeetsOutages(w, plan)(es, t) {
      var m: nat :| Reached(plan, prev, Existing(w, prev), es, m);
      var q := ReRunKilled(w, plan, prev, es, m, t.script, StopOf(plan, t));
    }
  }

  /** All the plan needs is recorded, in order; the failed records are those of prev less one of its group
      per needed item. */
  predicate Finished(plan: seq<Item>, prev: seq<Entity>, existing: multiset<Group>, es: seq<Entity>) {
    && Tags(Oks(es)) == Tags(Oks(prev)) + NeedTags(plan, existing, |plan|)
    && FailGroups(es) == StaleAfter(plan, BeforeOf(prev), existing, |plan|)
  }

  /** Resuming equals not having been interrupted: whatever runs were killed or met an outage, if the
      last of a series runs to the end without an outage, then the ok records carry exactly the ids and
      groups, in the same order, that one uninterrupted run would have recorded, each once, and as many
      failed records of each group are left - none if there were none before. */
  lemma ResumeEqualsUninterrupted(w: World, plan: seq<Item>, prev: seq<Entity>, tries: seq<Try>, smooth: nat -> Reply)
    requires w.Valid() && tries != [] && OutagesUpTo(w, plan, prev, tries, |tries|)
    requires OnlyOutages(plan, Decisions(w, plan, prev), prev, smooth, |plan|)
    requires forall k: nat :: smooth(k) != Unavailable
    requires tries[|tries| - 1].stop >= |plan|
    requires var before := History(w, plan, prev, tries, |tries| - 1);
      !Run(plan, Decisions(w, plan, before), before, tries[|tries| - 1].script, |plan|).down
    ensures var resumed, single := History(w, plan, prev, tries, |tries|), Apply(w, plan, prev, smooth).entities;
      && Tags(Oks(resumed)) == Tags(Oks(single)) && FailGroups(resumed) == FailGroups(single)
      && (Fails(prev) == [] ==> Fails(resumed) == [] && Fails(single) == [])
  {
    var n := |tries| - 1;
    var before, existing := History(w, plan, prev, tries, n), Existing(w, prev);
    var m := HistoryReaches(w, plan, prev, tries, n);
    LastTry(w, plan, prev, before, m, tries[n]);
    SmoothRun(w, plan, prev, smooth);
    BothFinished(plan, prev, existing, History(w, plan, prev, tries, n + 1), Apply(w, plan, prev, smooth).entities);
  }

  /** The last of a series of runs. */
  lemma LastTry(w: World, plan: seq<Item>, prev: seq<Entity>, es: seq<Entity>, m: nat, t: Try)
    requires w.Valid() && Reached(plan, prev, Existing(w, prev), es, m) && t.stop >= |plan|
    ensures MeetsOutages(w, plan)(es, t) && !Run(plan, Decisions(w, plan, es), es, t.script, |plan|).down ==>
      Finished(plan, prev, Existing(w, prev), Retry(w, plan)(es, t))
  {
    if MeetsOutages(w, plan)(es, t) && !Run(plan, Decisions(w, plan, es), es, t.script, |plan|).down {
      LastRun(w, plan, prev, es, m, t.script);
    }
  }

  lemma BothFinished(plan: seq<Item>, prev: seq<Entity>, existing: multiset<Group>, a: seq<Entity>, b: seq<Entity>)
    ensures Finished(plan, prev, existing, a) && Finished(plan, prev, existing, b) ==>
      Tags(Oks(a)) == Tags(Oks(b)) && FailGroups(a) == FailGroups(b) && (Fails(prev) == [] ==> Fails(a) == [] && Fails(b) == [])
  {
    if Finished(plan, prev, existing, a) && Finished(plan, prev, existing, b) {
      FinishedClean(plan, prev, existing, a);
      FinishedClean(plan, prev, existing, b);
    }
  }

  lemma FinishedClean(plan: seq<Item>, prev: seq<Entity>, existing: multiset<Group>, es: seq<Entity>)
    requires Finished(plan, prev, existing, es)
    ensures Fails(prev) == [] ==> Fails(es) == []
  {
    FailsEmpty(prev);
    FailsEmpty(es);
  }

  /** A run to the end without an outage completes the records. */
  lemma LastRun(w: World, plan: seq<Item>, prev: seq<Entity>, es: seq<Entity>, m: nat, script: nat -> Reply)
    requires w.Valid() && Reached(plan, prev, Existing(w, prev), es, m)
    requires OnlyOutages(plan, Decisions(w, plan, es), es, script, |plan|)
    requires !Run(plan, Decisions(w, plan, es), es, script, |plan|).down
    ensures Finished(plan, prev, Existing(w, prev), Apply(w, plan, es, script).entities)
  {
    var q := ReRun(w, plan, prev, es, m, script);
    assert q == |plan|;
    ReachedEnd(plan, prev, Existing(w, prev), Apply(w, plan, es, script).entities);
  }

  lemma ReachedEnd(plan: seq<Item>, prev: seq<Entity>, existing: multiset<Group>, es: seq<Entity>)
    requires Reached(plan, prev, existing, es, |plan|)
    ensures Finished(plan, prev, existing, es)
  {
  }

  lemma SmoothRun(w: World, plan: seq<Item>, prev: seq<Entity>, smooth: nat -> Reply)
    requires w.Valid() && OnlyOutages(plan, Decisions(w, plan, prev), prev, smooth, |plan|)
    requires forall k: nat :: smooth(k) != Unavailable
    ensures Finished(plan, prev, Existing(w, prev), Apply(w, plan, prev, smooth).entities)
  {
    var m := NothingYet(w, plan, prev);
    NoCallAfterOutage(plan, Decisions(w, plan, prev), prev, smooth, |plan|);
    LastRun(w, plan, prev, prev, m, smooth);
  }
}
