/** Clearing a manifest: which deletes are sent, what is recorded, and what a killed clear forgets. */
module SpawnClear {
  import opened Geometry
  import opened Spawn
  import opened SpawnLaws

  /** b is the record a with at most its clearing marks changed. */
  predicate SameRecord(a: Entity, b: Entity) { b == a.(cleared := b.cleared, clearError := b.clearError) }

  /** How many deletes were sent before entity i. */
  function CallsBefore(es: seq<Entity>, script: nat -> DeleteReply, i: nat): nat
    requires i <= |es|
  {
    |Clear(es, script, i).calls|
  }

  /** Record i is untouched if it had failed; otherwise it is marked with the last answer to its own
      delete: whether it was deleted, or that the delete failed. */
  predicate ClearedRight(es: seq<Entity>, script: nat -> DeleteReply, b: Entity, i: nat)
    requires i < |es|
  {
    if !es[i].ok then b == es[i]
    else
      var n := CallsBefore(es, script, i);
      match if script(n).Timeout? then script(n + 1) else script(n)
      case Answered(deleted) => b.cleared == Some(deleted) && !b.clearError
      case _ => b.cleared == Some(false) && b.clearError
  }

  /** Clearing keeps every record in its place: a failed one untouched, an ok one marked with the
      answer to its own delete, the second one after a timeout, and still ok. */
  lemma {:induction false} ClearKeepsRecords(es: seq<Entity>, script: nat -> DeleteReply, p: nat)
    requires p <= |es|
    ensures |Clear(es, script, p).results| == p
    ensures forall i :: 0 <= i < p ==>
      SameRecord(es[i], Clear(es, script, p).results[i]) && ClearedRight(es, script, Clear(es, script, p).results[i], i)
  {
    if p > 0 {
      var before := Clear(es, script, p - 1);
      ClearKeepsRecords(es, script, p - 1);
      ClearedNow(es, script, p - 1);
      assert Clear(es, script, p).results[..p - 1] == before.results;
    }
  }

  lemma ClearedNow(es: seq<Entity>, script: nat -> DeleteReply, i: nat)
    requires i < |es| && |Clear(es, script, i).results| == i
    ensures var c, n := Clear(es, script, i + 1), Clear(es, script, i).results;
      |c.results| == i + 1 && c.results[..i] == n && SameRecord(es[i], c.results[i]) && ClearedRight(es, script, c.results[i], i)
  {
  }

  /** The deletes sent for record i: none if it had failed, else one, and a second one for the same name
      exactly after a timeout. */
  predicate CalledRight(es: seq<Entity>, script: nat -> DeleteReply, i: nat)
    requires i < |es|
  {
    var n := CallsBefore(es, script, i);
    && n <= CallsBefore(es, script, i + 1)
    && Clear(es, script, i + 1).calls[n..] ==
      if !es[i].ok then [] else if script(n).Timeout? then [es[i].name, es[i].name] else [es[i].name]
  }

  /** The calls of a clear are those of its records, one record after the other, and no others. */
  lemma {:induction false} ClearCalls(es: seq<Entity>, script: nat -> DeleteReply, p: nat, i: nat)
    requires i < p <= |es|
    ensures CalledRight(es, script, i)
    ensures Clear(es, script, i).calls <= Clear(es, script, i + 1).calls <= Clear(es, script, p).calls
    ensures Clear(es, script, 0).calls == []
  {
    CallsGrow(es, script, i);
    if i + 1 < p {
      ClearCalls(es, script, p - 1, i);
      CallsGrow(es, script, p - 1);
    }
  }

  lemma CallsGrow(es: seq<Entity>, script: nat -> DeleteReply, i: nat)
    requires i < |es|
    ensures Clear(es, script, i).calls <= Clear(es, script, i + 1).calls && CalledRight(es, script, i)
  {
  }

  lemma {:induction false} OksOfSame(a: seq<Entity>, b: seq<Entity>)
    requires |a| == |b| && forall i :: 0 <= i < |a| ==> SameRecord(a[i], b[i])
    ensures EntityGroups(Oks(a)) == EntityGroups(Oks(b))
  {
    if a != [] {
      var n := |a| - 1;
      assert SameRecord(a[n], b[n]);
      OksOfSame(a[..n], b[..n]);
      assert EntityGroups(Oks(a[..n]) + [a[n]]) == EntityGroups(Oks(a[..n])) + [a[n].InGroup()];
      assert EntityGroups(Oks(b[..n]) + [b[n]]) == EntityGroups(Oks(b[..n])) + [b[n].InGroup()];
    }
  }

  /** Cleared records still count as present: after a clear, whatever was deleted, exactly as many
      records of each group count as before it, so nothing that was there is spawned again. */
  lemma ClearedStillCounts(w: World, es: seq<Entity>, script: nat -> DeleteReply)
    requires w.Valid()
    ensures Existing(w, Clear(es, script, |es|).results) == Existing(w, es)
  {
    ClearKeepsRecords(es, script, |es|);
    OksOfSame(es, Clear(es, script, |es|).results);
  }

  /** A killed clear forgets what it has not reached: after p > 0 entities the manifest holds as many ok
      records as before if and only if no ok record lies at or after p - otherwise the entities of the
      lost records are still in the simulator, and nothing counts them. */
  lemma KilledClearForgets(es: seq<Entity>, script: nat -> DeleteReply, p: nat)
    requires 0 < p <= |es|
    ensures EntityGroups(Oks(ClearKilled(es, script, p))) <= EntityGroups(Oks(es))
    ensures |Oks(ClearKilled(es, script, p))| == |Oks(es)| <==> NoneFrom(es, p)
  {
    ClearKeepsRecords(es, script, p);
    OksOfSame(es[..p], Clear(es, script, p).results);
    ForgetsAsPrefix(es, Clear(es, script, p).results, p);
  }

  lemma ForgetsAsPrefix(es: seq<Entity>, left: seq<Entity>, p: nat)
    requires p <= |es| && EntityGroups(Oks(left)) == EntityGroups(Oks(es[..p]))
    ensures EntityGroups(Oks(left)) <= EntityGroups(Oks(es))
    ensures |Oks(left)| == |Oks(es)| <==> NoneFrom(es, p)
  {
    OksSplit(es, p);
    assert |EntityGroups(Oks(left))| == |Oks(left)|;
  }

  /** No ok record at or after p. */
  predicate NoneFrom(es: seq<Entity>, p: nat) { forall i :: p <= i < |es| ==> !es[i].ok }

  lemma OksSplit(es: seq<Entity>, p: nat)
    requires p <= |es|
    ensures EntityGroups(Oks(es[..p])) <= EntityGroups(Oks(es))
    ensures |EntityGroups(Oks(es[..p]))| == |Oks(es)| <==> NoneFrom(es, p)
  {
    var a, b := es[..p], es[p..];
    assert es == a + b;
    OksConcat(a, b);
    NoneIsOk(b);
    NoneFromSuffix(es, p);
    GroupsSplit(Oks(a), Oks(b));
    assert |EntityGroups(Oks(a))| == |Oks(a)|;
  }

  lemma GroupsSplit(a: seq<Entity>, b: seq<Entity>)
    ensures EntityGroups(a) <= EntityGroups(a + b)
    ensures |a| == |a + b| <==> b == []
  {
  }

  lemma NoneFromSuffix(es: seq<Entity>, p: nat)
    requires p <= |es|
    ensures NoneFrom(es, p) <==> NoneFrom(es[p..], 0)
  {
    var b := es[p..];
    if NoneFrom(es, p) {
      forall j | 0 <= j < |b| ensures !b[j].ok { assert b[j] == es[j + p]; }
    }
    if NoneFrom(b, 0) {
      forall i | p <= i < |es| ensures !es[i].ok { assert es[i] == b[i - p]; }
    }
  }

  lemma {:induction false} NoneIsOk(es: seq<Entity>)
    ensures Oks(es) == [] <==> NoneFrom(es, 0)
  {
    if es != [] {
      var n := |es| - 1;
      NoneIsOk(es[..n]);
      assert forall i :: 0 <= i < n ==> es[..n][i] == es[i];
    }
  }

  /** The counts a later run starts from are those of before the clear under the same condition. */
  lemma KilledClearCounts(w: World, es: seq<Entity>, script: nat -> DeleteReply, p: nat)
    requires w.Valid() && 0 < p <= |es|
    ensures Existing(w, ClearKilled(es, script, p)) == Existing(w, es) <==> NoneFrom(es, p)
  {
    KilledClearForgets(es, script, p);
    var some, all := EntityGroups(Oks(ClearKilled(es, script, p))), EntityGroups(Oks(es));
    assert all == some + all[|some|..];
    assert multiset(all) == multiset(some) + multiset(all[|some|..]);
    assert |multiset(all)| == |all| && |multiset(some)| == |some|;
    SameIfSum(multiset(BaseGroups(w)), multiset(some), multiset(all));
    if |some| == |all| { assert some == all; }
  }

  lemma SameIfSum(base: multiset<Group>, a: multiset<Group>, b: multiset<Group>)
    ensures base + a == base + b <==> a == b
  {
    if base + a == base + b {
      forall g ensures a[g] == b[g] { assert (base + a)[g] == (base + b)[g]; }
    }
  }
}
