/** What a run records and sends, field by field: each record against the item it stands for and the answer
    to its own call, each list of items without a record, and each decision against counts and the packer. */
module SpawnRecords {
  import opened Geometry
  import opened Packing
  import opened Spawn
  import opened SpawnLaws
  import opened SpawnMethods
  import opened SpawnClear

  // ------------------------------------------------------------- fresh records

  /** Where an item is counted: at its spot, or in its room if it has none. */
  predicate CountedAt(item: Item, where: string) { if item.spot == "" then where == item.room else where == item.spot }

  /** e records that item was sent as sent, and what was answered. */
  predicate Records(item: Item, sent: Item, reply: Reply, e: Entity) {
    && e.id == item.id && e.asset == item.asset && CountedAt(item, e.where) && e.xyz == sent.xyz
    && (reply.Spawned? ==> e.name == Reported(reply.name)) && (!reply.Spawned? ==> e.name == ScenarioPath(item.id))
    && (e.ok <==> reply.Spawned? || reply.AlreadyExists?)
    && e.cleared == None && !e.clearError
  }

  /** Fresh record k is that of an item below p, after those of the earlier ones, sent as decided, and answered
      by the k-th answer. */
  predicate RecordedAt(plan: seq<Item>, ds: seq<Decision>, script: nat -> Reply, st: State, p: nat, k: nat)
    requires |ds| == |plan| && p <= |plan| && |st.origin| == |st.made| == |st.sent| && k < |st.made|
  {
    && st.origin[k] < p && (k > 0 ==> st.origin[k - 1] < st.origin[k])
    && ds[st.origin[k]] == Attempt(st.sent[k]) && Records(plan[st.origin[k]], st.sent[k], script(k), st.made[k])
  }

  lemma OutcomeRecords(item: Item, sent: Item, reply: Reply)
    requires sent == item.(xyz := sent.xyz)
    ensures Records(item, sent, reply, Outcome(sent, reply))
  {
  }

  lemma RecordedFields(plan: seq<Item>, ds: seq<Decision>, prev: seq<Entity>, script: nat -> Reply, p: nat, k: nat)
    requires DecisionsFor(plan, ds) && p <= |plan|
    ensures var st := Run(plan, ds, prev, script, p);
      |st.origin| == |st.made| == |st.sent| && (k < |st.made| ==> RecordedAt(plan, ds, script, st, p, k))
  {
    var st := Run(plan, ds, prev, script, p);
    FreshRecords(plan, ds, prev, script, p);
    if k < |st.made| {
      assert FreshAt(ds, script, st, p, k);
      var i := st.origin[k];
      assert SameItem(plan[i], ds[i]);
      OutcomeRecords(plan[i], st.sent[k], script(k));
    }
  }

  // --------------------------------------------------------- items without a record

  predicate SkippedFor(plan: seq<Item>, ds: seq<Decision>, p: nat, s: Skipped)
    requires |ds| == |plan|
  {
    exists i :: 0 <= i < p <= |plan| && ds[i].Skip? && s.id == plan[i].id && CountedAt(plan[i], s.where)
  }

  /** Item i was left out because the service was down by then, or else because it was refused for room. */
  predicate LeftOutAt(plan: seq<Item>, ds: seq<Decision>, prev: seq<Entity>, script: nat -> Reply, n: NotAttempted, i: nat)
    requires |ds| == |plan| && i < |plan|
  {
    && n.id == plan[i].id
    && if Run(plan, ds, prev, script, i).down then n.why == ServiceDown
       else ds[i].Refuse? && n.why.NoRoom? && CountedAt(plan[i], n.why.where)
  }

  predicate LeftOutFor(plan: seq<Item>, ds: seq<Decision>, prev: seq<Entity>, script: nat -> Reply, p: nat, n: NotAttempted)
    requires |ds| == |plan|
  {
    exists i :: 0 <= i < p <= |plan| && LeftOutAt(plan, ds, prev, script, n, i)
  }

  /** What the two lists of a run say of the items they name. */
  predicate ListsRight(plan: seq<Item>, ds: seq<Decision>, prev: seq<Entity>, script: nat -> Reply, st: State, p: nat)
    requires |ds| == |plan|
  {
    && (forall k :: 0 <= k < |st.skipped| ==> SkippedFor(plan, ds, p, st.skipped[k]))
    && (forall k :: 0 <= k < |st.notAttempted| ==> LeftOutFor(plan, ds, prev, script, p, st.notAttempted[k]))
  }

  lemma {:induction false} ListsSayWhy(plan: seq<Item>, ds: seq<Decision>, prev: seq<Entity>, script: nat -> Reply, p: nat)
    requires |ds| == |plan| && p <= |plan|
    ensures ListsRight(plan, ds, prev, script, Run(plan, ds, prev, script, p), p)
  {
    if p > 0 {
      ListsSayWhy(plan, ds, prev, script, p - 1);
      ListsNext(plan, ds, prev, script, Run(plan, ds, prev, script, p - 1), Run(plan, ds, prev, script, p), p - 1);
    }
  }

  lemma ListsNext(plan: seq<Item>, ds: seq<Decision>, prev: seq<Entity>, script: nat -> Reply, st: State, after: State, i: nat)
    requires |ds| == |plan| && i < |plan| && st == Run(plan, ds, prev, script, i)
    requires after == Step(st, i, plan[i], ds[i], script(|st.sent|)) && ListsRight(plan, ds, prev, script, st, i)
    ensures ListsRight(plan, ds, prev, script, after, i + 1)
  {
    forall k | 0 <= k < |after.skipped| ensures SkippedFor(plan, ds, i + 1, after.skipped[k]) {
      if k < |st.skipped| { SkippedStays(plan, ds, i, st.skipped[k]); }
    }
    forall k | 0 <= k < |after.notAttempted| ensures LeftOutFor(plan, ds, prev, script, i + 1, after.notAttempted[k]) {
      if k < |st.notAttempted| {
        LeftOutStays(plan, ds, prev, script, i, st.notAttempted[k]);
      } else {
        assert LeftOutAt(plan, ds, prev, script, after.notAttempted[k], i);
      }
    }
  }

  lemma SkippedStays(plan: seq<Item>, ds: seq<Decision>, p: nat, s: Skipped)
    requires |ds| == |plan| && p < |plan| && SkippedFor(plan, ds, p, s)
    ensures SkippedFor(plan, ds, p + 1, s)
  {
  }

  lemma LeftOutStays(plan: seq<Item>, ds: seq<Decision>, prev: seq<Entity>, script: nat -> Reply, p: nat, n: NotAttempted)
    requires |ds| == |plan| && p < |plan| && LeftOutFor(plan, ds, prev, script, p, n)
    ensures LeftOutFor(plan, ds, prev, script, p + 1, n)
  {
  }

  /** What is written of a run, in the end or when it is killed: the earlier records it kept, its own in order, and
      the two lists. */
  lemma ManifestIs(w: World, plan: seq<Item>, prev: seq<Entity>, script: nat -> Reply, stop: nat)
    requires w.Valid()
    ensures var m, st := Apply(w, plan, prev, script), Run(plan, Decisions(w, plan, prev), prev, script, |plan|);
      m.entities == st.kept + st.made && m.skipped == st.skipped && m.notAttempted == st.notAttempted
    ensures stop <= |plan| ==>
      var st := Run(plan, Decisions(w, plan, prev), prev, script, stop);
      ApplyKilled(w, plan, prev, script, stop) == st.kept + st.made
    ensures stop > |plan| ==> ApplyKilled(w, plan, prev, script, stop) == Apply(w, plan, prev, script).entities
    ensures ApplyKilled(w, plan, prev, script, 0) == prev
  {
  }

  // ---------------------------------------------------------- dropping stale records

  /** es without its record k. */
  function Dropped(es: seq<Entity>, k: nat): seq<Entity>
    requires k < |es|
  {
    es[..k] + es[k + 1..]
  }

  predicate Stale(e: Entity, g: Group) { !e.ok && e.asset == g.asset && e.where == g.where }

  /** Exactly the first failed record of the group, at k, is dropped; nothing if there is none. */
  lemma {:induction false} FirstStaleDropped(es: seq<Entity>, g: Group, k: nat)
    requires k <= |es| && (forall j :: 0 <= j < k ==> !Stale(es[j], g)) && (k < |es| ==> Stale(es[k], g))
    ensures DropFailed(es, g) == if k == |es| then es else Dropped(es, k)
  {
    if k > 0 {
      var rest := es[1..];
      assert forall j :: 0 <= j < |rest| ==> rest[j] == es[j + 1];
      FirstStaleDropped(rest, g, k - 1);
      DroppedAfter(es, k);
    }
  }

  lemma DroppedAfter(es: seq<Entity>, k: nat)
    requires 0 < k <= |es|
    ensures [es[0]] + es[1..] == es && (k < |es| ==> [es[0]] + Dropped(es[1..], k - 1) == Dropped(es, k))
  {
  }

  // ------------------------------------------------------------------- clearing

  /** A clear asks for the names of the ok records and no others. */
  lemma {:induction false} CallsAreOkNames(es: seq<Entity>, deletes: nat -> DeleteReply, p: nat, name: Name)
    requires p <= |es|
    ensures name in Clear(es, deletes, p).calls <==> exists i :: 0 <= i < p && es[i].ok && es[i].name == name
  {
    if p > 0 { CallsAreOkNames(es, deletes, p - 1, name); }
  }

  /** The call of fresh record k went well, and name is the one reported, or if the entity existed already
      the path of the id. */
  predicate SpawnedAs(st: State, script: nat -> Reply, name: Name, k: nat)
    requires k < |st.sent|
  {
    script(k) == (if name.Reported? then Spawned(name.name) else AlreadyExists)
    && (name.ScenarioPath? ==> name.id == st.sent[k].id)
  }

  /** A clear after a run asks to delete exactly the names the simulator reported, the paths of the entities
      it said existed, and the names of the ok records that were there before. */
  lemma ClearAfterRun(w: World, plan: seq<Item>, prev: seq<Entity>, script: nat -> Reply, deletes: nat -> DeleteReply,
                      name: Name)
    requires w.Valid()
    ensures var st, es := Run(plan, Decisions(w, plan, prev), prev, script, |plan|), Apply(w, plan, prev, script).entities;
      name in Clear(es, deletes, |es|).calls <==>
      (exists i :: 0 <= i < |prev| && prev[i].ok && prev[i].name == name)
      || (exists k :: 0 <= k < |st.sent| && SpawnedAs(st, script, name, k))
  {
    var ds := Decisions(w, plan, prev);
    var st := Run(plan, ds, prev, script, |plan|);
    var es := st.kept + st.made;
    DecisionsAreFor(w, plan, prev);
    CallsAreOkNames(es, deletes, |es|, name);
    EarlierRecordsKept(plan, ds, prev, script, |plan|);
    OkNames(prev, st.kept, name);
    FreshNames(plan, ds, prev, script, st, name);
    OkNameOfEither(st.kept, st.made, name);
  }

  ghost predicate OkNamed(es: seq<Entity>, name: Name) { exists i :: 0 <= i < |es| && es[i].ok && es[i].name == name }

  lemma OkNameOfEither(a: seq<Entity>, b: seq<Entity>, name: Name)
    ensures OkNamed(a + b, name) <==> OkNamed(a, name) || OkNamed(b, name)
  {
    if OkNamed(b, name) {
      var i :| 0 <= i < |b| && b[i].ok && b[i].name == name;
      assert (a + b)[|a| + i] == b[i];
    }
    if OkNamed(a, name) {
      var i :| 0 <= i < |a| && a[i].ok && a[i].name == name;
      assert (a + b)[i] == a[i];
    }
  }

  lemma {:induction false} OksMember(es: seq<Entity>, e: Entity)
    ensures e in Oks(es) <==> e in es && e.ok
  {
    if es != [] {
      var n := |es| - 1;
      OksMember(es[..n], e);
      assert es == es[..n] + [es[n]];
    }
  }

  lemma OkNames(a: seq<Entity>, b: seq<Entity>, name: Name)
    requires Oks(a) == Oks(b)
    ensures OkNamed(a, name) <==> OkNamed(b, name)
  {
    forall e ensures e in a && e.ok <==> e in b && e.ok {
      OksMember(a, e);
      OksMember(b, e);
    }
    if OkNamed(a, name) {
      var i :| 0 <= i < |a| && a[i].ok && a[i].name == name;
      assert a[i] in b;
    }
    if OkNamed(b, name) {
      var i :| 0 <= i < |b| && b[i].ok && b[i].name == name;
      assert b[i] in a;
    }
  }

  lemma FreshNames(plan: seq<Item>, ds: seq<Decision>, prev: seq<Entity>, script: nat -> Reply, st: State, name: Name)
    requires DecisionsFor(plan, ds) && st == Run(plan, ds, prev, script, |plan|)
    ensures |st.made| == |st.sent|
    ensures OkNamed(st.made, name) <==> exists k :: 0 <= k < |st.sent| && SpawnedAs(st, script, name, k)
  {
    RecordedFields(plan, ds, prev, script, |plan|, 0);
    forall k | 0 <= k < |st.made| ensures st.made[k].ok && st.made[k].name == name <==> SpawnedAs(st, script, name, k) {
      RecordedFields(plan, ds, prev, script, |plan|, k);
      assert SameItem(plan[st.origin[k]], ds[st.origin[k]]);
      FreshName(plan[st.origin[k]], st, script, name, k);
    }
  }

  lemma FreshName(item: Item, st: State, script: nat -> Reply, name: Name, k: nat)
    requires k < |st.made| == |st.sent| && Records(item, st.sent[k], script(k), st.made[k]) && st.sent[k].id == item.id
    ensures st.made[k].ok && st.made[k].name == name <==> SpawnedAs(st, script, name, k)
  {
  }
}
