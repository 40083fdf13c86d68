/** The frame limiter of the run recorder: a frame is kept if enough time has passed since the last one. */
module FrameSink {
  import opened Geometry

  /** The stamps kept out of those offered, in order; max < 0 keeps none. */
  function Kept(stamps: seq<real>, interval: real, max: int): seq<real> {
    if stamps == [] then []
    else
      var before, s := Kept(stamps[..|stamps| - 1], interval, max), stamps[|stamps| - 1];
      if Accepts(before, s, interval, max) then before + [s] else before
  }

  predicate Accepts(kept: seq<real>, s: real, interval: real, max: int) {
    |kept| < max && (kept == [] || s >= kept[|kept| - 1] + interval)
  }

  class FrameSink {
    const interval: real
    const maxFrames: int
    var count: nat
    var lastAccepted: Option<real>
    var firstStamp: Option<real>
    var lastStamp: Option<real>
    ghost var offered: seq<real>
    ghost var kept: seq<real>

    ghost predicate Valid()
      reads this
    {
      && kept == Kept(offered, interval, maxFrames) && count == |kept|
      && firstStamp == (if kept == [] then None else Some(kept[0]))
      && lastAccepted == lastStamp == (if kept == [] then None else Some(kept[|kept| - 1]))
    }

    constructor (interval: real, maxFrames: int)
      ensures Valid() && offered == [] && this.interval == interval && this.maxFrames == maxFrames
    {
      this.interval, this.maxFrames := interval, maxFrames;
      count, lastAccepted, firstStamp, lastStamp := 0, None, None, None;
      offered, kept := [], [];
    }

    /** The sequence number the frame is written under, None if it is not kept. */
    method Offer(stamp: real) returns (written: Option<nat>)
      requires Valid()
      modifies this
      ensures Valid() && offered == old(offered) + [stamp]
      ensures written.Some? <==> Accepts(old(kept), stamp, interval, maxFrames)
      ensures kept == if written.Some? then old(kept) + [stamp] else old(kept)
      ensures written.Some? ==> written.value == |kept| - 1
    {
      offered := offered + [stamp];
      assert offered[..|offered| - 1] == old(offered);
      if count >= maxFrames { return None; }
      if lastAccepted.Some? && stamp < lastAccepted.value + interval { return None; }
      written := Some(count);
      count := count + 1;
      lastAccepted := Some(stamp);
      if firstStamp.None? { firstStamp := Some(stamp); }
      lastStamp := Some(stamp);
      kept := kept + [stamp];
    }
  }

  // --------------------------------------------------------------------- laws

  predicate Spaced(stamps: seq<real>, interval: real) {
    forall k :: 0 < k < |stamps| ==> stamps[k] >= stamps[k - 1] + interval
  }

  /** Whatever the order of the stamps, those kept are spaced and at most max. */
  lemma {:induction false} KeptAreSpaced(stamps: seq<real>, interval: real, max: int)
    ensures Spaced(Kept(stamps, interval, max), interval)
    ensures |Kept(stamps, interval, max)| <= if max < 0 then 0 else max
  {
    if stamps != [] { KeptAreSpaced(stamps[..|stamps| - 1], interval, max); }
  }

  /** Indices of stamps that could all be kept: in order, and spaced. */
  predicate Choice(c: seq<nat>, stamps: seq<real>, interval: real) {
    && (forall k :: 0 <= k < |c| ==> c[k] < |stamps|)
    && (forall k :: 0 < k < |c| ==> c[k - 1] < c[k] && stamps[c[k]] >= stamps[c[k - 1]] + interval)
  }

  predicate Nondecreasing(stamps: seq<real>) { forall i, j :: 0 <= i < j < |stamps| ==> stamps[i] <= stamps[j] }

  /** Stamps i < j < k of which j and k could both be kept, but i comes first and shuts out both. */
  predicate Blocks(stamps: seq<real>, interval: real, i: nat, j: nat, k: nat) {
    && i < j < k < |stamps|
    && stamps[k] >= stamps[j] + interval
    && stamps[j] < stamps[i] + interval && stamps[k] < stamps[i] + interval
  }

  predicate Unblocked(stamps: seq<real>, interval: real) {
    forall i: nat, j: nat, k: nat :: i < j < k < |stamps| ==> !Blocks(stamps, interval, i, j, k)
  }

  lemma InOrderIsUnblocked(stamps: seq<real>, interval: real)
    requires Nondecreasing(stamps)
    ensures Unblocked(stamps, interval)
  {
    forall i: nat, j: nat, k: nat | i < j < k < |stamps| ensures !Blocks(stamps, interval, i, j, k) {
      assert stamps[i] <= stamps[j];
    }
  }

  lemma UnblockedBefore(stamps: seq<real>, interval: real, n: nat)
    requires Unblocked(stamps, interval) && n <= |stamps|
    ensures Unblocked(stamps[..n], interval)
  {
    forall i: nat, j: nat, k: nat | i < j < k < n ensures !Blocks(stamps[..n], interval, i, j, k) {
      assert !Blocks(stamps, interval, i, j, k);
    }
  }

  /** The indices of the stamps kept when there is no cap. */
  function KeptAt(stamps: seq<real>, interval: real): (c: seq<nat>)
    ensures forall k :: 0 <= k < |c| ==> c[k] < |stamps|
    ensures forall k :: 0 < k < |c| ==> c[k - 1] < c[k]
  {
    if stamps == [] then []
    else
      var n := |stamps| - 1;
      var before := KeptAt(stamps[..n], interval);
      if before == [] || stamps[n] >= stamps[before[|before| - 1]] + interval then before + [n] else before
  }

  lemma {:induction false} KeptAtKeeps(stamps: seq<real>, interval: real, max: nat)
    requires |stamps| <= max
    ensures var c, kept := KeptAt(stamps, interval), Kept(stamps, interval, max);
      |c| == |kept| <= |stamps| && forall k :: 0 <= k < |c| ==> stamps[c[k]] == kept[k]
  {
    if stamps != [] { KeptAtKeeps(stamps[..|stamps| - 1], interval, max); }
  }

  lemma {:induction false} KeptAtIsAChoice(stamps: seq<real>, interval: real)
    ensures Choice(KeptAt(stamps, interval), stamps, interval)
  {
    if stamps != [] {
      var n := |stamps| - 1;
      var before := KeptAt(stamps[..n], interval);
      KeptAtIsAChoice(stamps[..n], interval);
      StillChoice(before, stamps, interval, n);
    }
  }

  /** No stamp after the last one kept could follow it. */
  lemma {:induction false} KeptLast(stamps: seq<real>, interval: real)
    requires stamps != []
    ensures var c := KeptAt(stamps, interval);
      c != [] && forall j :: c[|c| - 1] < j < |stamps| ==> stamps[j] < stamps[c[|c| - 1]] + interval
  {
    if |stamps| > 1 { KeptLast(stamps[..|stamps| - 1], interval); }
  }

  lemma StillChoice(c: seq<nat>, stamps: seq<real>, interval: real, n: nat)
    requires n <= |stamps| && Choice(c, stamps[..n], interval)
    ensures Choice(c, stamps, interval)
  {
  }

  /** A cap that is not reached by the length does not matter. */
  lemma {:induction false} CapDoesNotMatter(stamps: seq<real>, interval: real, a: nat, b: nat)
    requires |stamps| <= a <= b
    ensures Kept(stamps, interval, a) == Kept(stamps, interval, b) && |Kept(stamps, interval, a)| <= |stamps|
  {
    if stamps != [] { CapDoesNotMatter(stamps[..|stamps| - 1], interval, a, b); }
  }

  /** No longer than what is kept, and if as long then ending no earlier. */
  predicate Behind(c: seq<nat>, kept: seq<nat>) {
    |c| <= |kept| && (|c| == |kept| > 0 ==> kept[|kept| - 1] <= c[|c| - 1])
  }

  /** Keeping early stays ahead, if no stamp blocks: no choice is longer, and one as long ends no earlier. */
  lemma {:induction false} StaysAhead(c: seq<nat>, stamps: seq<real>, interval: real)
    requires Unblocked(stamps, interval) && Choice(c, stamps, interval)
    ensures Behind(c, KeptAt(stamps, interval))
  {
    if stamps != [] {
      var n := |stamps| - 1;
      UnblockedBefore(stamps, interval, n);
      if c != [] && c[|c| - 1] == n {
        ChoiceShorter(c, stamps, interval);
        StaysAhead(c[..|c| - 1], stamps[..n], interval);
        KeptNext(c[..|c| - 1], c, stamps, interval);
      } else {
        ChoiceBefore(c, stamps, interval);
        StaysAhead(c, stamps[..n], interval);
        KeptGrows(c, stamps, interval);
      }
    }
  }

  /** A choice among the stamps before the last. */
  lemma KeptGrows(c: seq<nat>, stamps: seq<real>, interval: real)
    requires stamps != [] && Behind(c, KeptAt(stamps[..|stamps| - 1], interval))
    ensures Behind(c, KeptAt(stamps, interval))
  {
  }

  /** If the last stamp can follow stamp j, and the last one kept before it is no later than j, then it can
      follow that one too. */
  lemma LastFollows(stamps: seq<real>, interval: real, j: nat)
    requires Unblocked(stamps, interval) && j < |stamps| - 1 && stamps[|stamps| - 1] >= stamps[j] + interval
    ensures var n, before := |stamps| - 1, KeptAt(stamps[..|stamps| - 1], interval);
      before != [] && (before[|before| - 1] <= j ==> stamps[n] >= stamps[before[|before| - 1]] + interval)
  {
    var n := |stamps| - 1;
    var i := KeptBefore(stamps, interval, j);
    if i < j { NotBlocked(stamps, interval, i, j, n); }
  }

  /** The last stamp kept before the last one; stamp j, if it is later, could not follow it. */
  lemma KeptBefore(stamps: seq<real>, interval: real, j: nat) returns (i: nat)
    requires j < |stamps| - 1
    ensures var before := KeptAt(stamps[..|stamps| - 1], interval);
      before != [] && i == before[|before| - 1] < |stamps| && (i < j ==> stamps[j] < stamps[i] + interval)
  {
    var rest := stamps[..|stamps| - 1];
    KeptLast(rest, interval);
    var before := KeptAt(rest, interval);
    i := before[|before| - 1];
    assert rest[i] == stamps[i] && rest[j] == stamps[j];
  }

  lemma NotBlocked(stamps: seq<real>, interval: real, i: nat, j: nat, k: nat)
    requires i < j < k < |stamps|
    ensures Unblocked(stamps, interval) ==> !Blocks(stamps, interval, i, j, k)
  {
  }

  /** A choice that ends with the last stamp. */
  lemma KeptNext(d: seq<nat>, c: seq<nat>, stamps: seq<real>, interval: real)
    requires Unblocked(stamps, interval) && Choice(c, stamps, interval) && stamps != []
    requires c == d + [|stamps| - 1] && (forall k :: 0 <= k < |d| ==> d[k] < |stamps| - 1)
    requires Behind(d, KeptAt(stamps[..|stamps| - 1], interval))
    ensures Behind(c, KeptAt(stamps, interval))
  {
    if d != [] {
      var n, j := |stamps| - 1, d[|d| - 1];
      assert c[|d|] == n && c[|d| - 1] == j;
      LastFollows(stamps, interval, j);
    }
  }

  lemma {:induction false} ChoiceIncreases(c: seq<nat>, stamps: seq<real>, interval: real, k: nat)
    requires Choice(c, stamps, interval) && k < |c|
    ensures c[k] <= c[|c| - 1]
    decreases |c| - k
  {
    if k < |c| - 1 { ChoiceIncreases(c, stamps, interval, k + 1); }
  }

  lemma ChoiceBefore(c: seq<nat>, stamps: seq<real>, interval: real)
    requires Choice(c, stamps, interval) && stamps != [] && (c == [] || c[|c| - 1] < |stamps| - 1)
    ensures Choice(c, stamps[..|stamps| - 1], interval)
  {
    forall k | 0 <= k < |c| ensures c[k] < |stamps| - 1 { ChoiceIncreases(c, stamps, interval, k); }
  }

  lemma ChoiceShorter(c: seq<nat>, stamps: seq<real>, interval: real)
    requires Choice(c, stamps, interval) && c != [] && c[|c| - 1] == |stamps| - 1
    ensures Choice(c[..|c| - 1], stamps[..|stamps| - 1], interval)
  {
    var d := c[..|c| - 1];
    assert Choice(d, stamps, interval);
    ChoiceBefore(d, stamps, interval);
  }

  /** n is the largest number of offered stamps that can all be kept. */
  ghost predicate Optimum(n: nat, stamps: seq<real>, interval: real) {
    && (exists c: seq<nat> :: Choice(c, stamps, interval) && |c| == n)
    && (forall c: seq<nat> :: Choice(c, stamps, interval) ==> |c| <= n)
  }

  /** With a cap, the first frames that would be kept without one. */
  lemma {:induction false} CapCutsOff(stamps: seq<real>, interval: real, max: int, free: nat)
    requires |stamps| <= free && max <= free
    ensures var all := Kept(stamps, interval, free);
      |all| <= |stamps| && Kept(stamps, interval, max) == all[..if max < 0 then 0 else if max <= |all| then max else |all|]
  {
    if stamps != [] { CapCutsOff(stamps[..|stamps| - 1], interval, max, free); }
  }

  /** Without a cap, keeping early is optimal if no stamp blocks, in particular for stamps in order. */
  lemma KeptIsOptimum(stamps: seq<real>, interval: real, max: nat)
    requires Unblocked(stamps, interval) && |stamps| <= max
    ensures Optimum(|Kept(stamps, interval, max)|, stamps, interval)
  {
    KeptAtKeeps(stamps, interval, max);
    KeptAtIsAChoice(stamps, interval);
    var n := |Kept(stamps, interval, max)|;
    forall c: seq<nat> | Choice(c, stamps, interval) ensures |c| <= n { StaysAhead(c, stamps, interval); }
  }

  /** As many frames are kept as can be, up to the cap, if no stamp blocks. */
  lemma UnblockedIsOptimal(stamps: seq<real>, interval: real, max: int, best: nat)
    requires Unblocked(stamps, interval) && Optimum(best, stamps, interval)
    ensures |Kept(stamps, interval, max)| == if max < 0 then 0 else if max <= best then max else best
  {
    var free := if max <= |stamps| then |stamps| else max;
    KeptIsOptimum(stamps, interval, free);
    CapCutsOff(stamps, interval, max, free);
  }

  /** For stamps in order as many frames are kept as can be, up to the cap. */
  lemma GreedyIsOptimal(stamps: seq<real>, interval: real, max: int, best: nat)
    requires Nondecreasing(stamps) && Optimum(best, stamps, interval)
    ensures |Kept(stamps, interval, max)| == if max < 0 then 0 else if max <= best then max else best
  {
    InOrderIsUnblocked(stamps, interval);
    UnblockedIsOptimal(stamps, interval, max, best);
  }

  /** Increasing indices of stamps, and the stamps they pick. */
  predicate Ascending(sub: seq<nat>, n: nat) {
    && (forall k :: 0 <= k < |sub| ==> sub[k] < n)
    && forall k, l :: 0 <= k < l < |sub| ==> sub[k] < sub[l]
  }

  function Part(stamps: seq<real>, sub: seq<nat>): seq<real>
    requires Ascending(sub, |stamps|)
  {
    seq(|sub|, k requires 0 <= k < |sub| => stamps[sub[k]])
  }

  /** Keeping early is optimal whichever of the stamps are offered. */
  ghost predicate OptimalOnParts(stamps: seq<real>, interval: real) {
    forall sub: seq<nat> :: Ascending(sub, |stamps|) ==>
      Optimum(|Kept(Part(stamps, sub), interval, |sub|)|, Part(stamps, sub), interval)
  }

  lemma BlockedPart(stamps: seq<real>, interval: real, i: nat, j: nat, k: nat)
    requires Blocks(stamps, interval, i, j, k)
    ensures !OptimalOnParts(stamps, interval)
  {
    var sub: seq<nat> := [i, j, k];
    assert Ascending(sub, |stamps|) && Part(stamps, sub) == [stamps[i], stamps[j], stamps[k]];
    BlockedTriple(stamps[i], stamps[j], stamps[k], interval);
  }

  lemma BlockedTriple(a: real, b: real, c: real, interval: real)
    requires c >= b + interval && b < a + interval && c < a + interval
    ensures Kept([a, b, c], interval, 3) == [a] && !Optimum(1, [a, b, c], interval)
  {
    KeptOne(a, interval);
    assert [a, b][..1] == [a] && [a, b, c][..2] == [a, b];
    assert Kept([a, b], interval, 3) == [a];
    assert Choice([1, 2], [a, b, c], interval);
  }

  lemma KeptOne(a: real, interval: real)
    ensures Kept([a], interval, 3) == [a]
  {
    assert [a][..0] == [];
  }

  /** The limiter is optimal on every part of a list of stamps if and only if none of them blocks: no stamp
      comes before two that cannot follow it, though the later one could follow the earlier one. */
  lemma OptimalExactlyUnblocked(stamps: seq<real>, interval: real)
    ensures OptimalOnParts(stamps, interval) <==> Unblocked(stamps, interval)
  {
    if Unblocked(stamps, interval) {
      forall sub: seq<nat> | Ascending(sub, |stamps|)
        ensures Optimum(|Kept(Part(stamps, sub), interval, |sub|)|, Part(stamps, sub), interval)
      {
        var part := Part(stamps, sub);
        forall i: nat, j: nat, k: nat | i < j < k < |part| ensures !Blocks(part, interval, i, j, k) {
          assert !Blocks(stamps, interval, sub[i], sub[j], sub[k]);
        }
        KeptIsOptimum(part, interval, |sub|);
      }
    } else {
      var i: nat, j: nat, k: nat :| i < j < k < |stamps| && Blocks(stamps, interval, i, j, k);
      BlockedPart(stamps, interval, i, j, k);
    }
  }

  /** Such a list: a late stamp that comes first shuts out two earlier ones. */
  lemma OutOfOrderLoses()
    ensures Blocks([10.0, 0.0, 1.0], 1.0, 0, 1, 2) && !OptimalOnParts([10.0, 0.0, 1.0], 1.0)
    ensures Kept([10.0, 0.0, 1.0], 1.0, 3) == [10.0] && Choice([1, 2], [10.0, 0.0, 1.0], 1.0)
  {
    BlockedTriple(10.0, 0.0, 1.0, 1.0);
    BlockedPart([10.0, 0.0, 1.0], 1.0, 0, 1, 2);
  }
}
