/** How a reclaim runs, whatever it finds: cluster by cluster, inactive pages are visited and
    then active ones moved down. */
module Clusters {
  import opened Common
  import opened Shifts
  import opened Queues
  import opened Pager
  import opened FlatMemory
  import opened Flow
  import opened Reclaim
  import opened Sweep
  import opened Starvation

  /** One cluster: the state it began in, the state after its visits, and the state it left. */
  datatype Cluster = Cluster(before: State, scanned: State, after: State, visits: nat)

  /** The active pages a cluster moves down if there were any still to be. */
  function MovesDown(c: Cluster, more: bool): nat {
    if more then Min(32, |c.scanned.lists.At(Active)|) else 0
  }

  /** So many visits, until 32 victims or the whole list were found, none was left, or a hundred
      times as many pages had been seen. */
  ghost predicate VisitedBy(s: State, s': State, visits: nat) {
    && Exec(s, Scans(visits)) == Some(s')
    && CallEnded(s, s', visits, Min(32, |s.lists.At(Inactive)|))
  }

  ghost predicate ClusterRan(c: Cluster, more: bool) {
    && VisitedBy(c.before, c.scanned, c.visits)
    && MovedDown(c.scanned.lists, c.after.lists, MovesDown(c, more))
  }

  /** The state after the first `i` clusters. */
  function StateAt(s: State, log: seq<Cluster>, i: nat): State
    requires i <= |log|
  {
    if i == 0 then s else log[i - 1].after
  }

  /** The victims found by the first `i` clusters. */
  function Found(s: State, log: seq<Cluster>, i: nat): int
    requires i <= |log|
  {
    |StateAt(s, log, i).lists.At(Eviction)| - |s.lists.At(Eviction)|
  }

  /** After `i` clusters there are inactive pages still to be visited and too few victims. */
  predicate WantsMore(s: State, log: seq<Cluster>, i: nat, nr: int, p: nat)
    requires i <= |log|
  {
    32 * i < ShiftRight(|s.lists.At(Inactive)|, p) && Found(s, log, i) < nr
  }

  /** Cluster `i` began where the one before it left, was wanted, and ran. */
  ghost predicate ClusterAt(s: State, log: seq<Cluster>, i: nat, nr: int, p: nat)
    requires i < |log|
  {
    && log[i].before == StateAt(s, log, i) && WantsMore(s, log, i, nr, p)
    && ClusterRan(log[i], 32 * i < ShiftRight(|s.lists.At(Active)|, p))
  }

  ghost predicate Going(s: State, s': State, log: seq<Cluster>, nr: int, p: nat) {
    s' == StateAt(s, log, |log|) && forall i :: 0 <= i < |log| ==> ClusterAt(s, log, i, nr, p)
  }

  /** A reclaim: clusters while more is wanted, and no longer. */
  ghost predicate ReclaimRan(s: State, s': State, log: seq<Cluster>, nr: int, p: nat) {
    Going(s, s', log, nr, p) && !WantsMore(s, log, |log|, nr, p)
  }

  /** The active pages moved down in all. */
  function MovedInAll(log: seq<Cluster>, toMove: nat): nat {
    if log == [] then 0
    else
      var n := |log| - 1;
      MovedInAll(log[..n], toMove) + MovesDown(log[n], 32 * n < toMove)
  }

  lemma SameAt(s: State, log: seq<Cluster>, c: Cluster, i: nat, nr: int, p: nat)
    requires i <= |log|
    ensures StateAt(s, log + [c], i) == StateAt(s, log, i)
    ensures WantsMore(s, log + [c], i, nr, p) == WantsMore(s, log, i, nr, p)
    ensures i < |log| ==> (ClusterAt(s, log + [c], i, nr, p) <==> ClusterAt(s, log, i, nr, p))
  {
  }

  lemma GoesOn(s: State, mid: State, log: seq<Cluster>, c: Cluster, nr: int, p: nat)
    requires Going(s, mid, log, nr, p) && WantsMore(s, log, |log|, nr, p) && c.before == mid
    requires ClusterRan(c, 32 * |log| < ShiftRight(|s.lists.At(Active)|, p))
    ensures Going(s, c.after, log + [c], nr, p)
  {
    forall i | 0 <= i < |log + [c]| ensures ClusterAt(s, log + [c], i, nr, p) {
      SameAt(s, log, c, i, nr, p);
      if i < |log| { assert ClusterAt(s, log, i, nr, p); }
    }
  }

  lemma MovedMore(log: seq<Cluster>, c: Cluster, toMove: nat)
    ensures MovedInAll(log + [c], toMove) == MovedInAll(log, toMove) + MovesDown(c, 32 * |log| < toMove)
  {
    assert (log + [c])[..|log|] == log;
  }

  /** The loop of a reclaim so far: `moved` counts active pages by clusters, and `found` is what
      it returns. */
  ghost predicate Reclaims(s: State, s': State, log: seq<Cluster>, nr: int, p: nat, found: nat, moved: nat) {
    && Going(s, s', log, nr, p) && found == Found(s, log, |log|) && (found == 0 || found < nr + SWAP_CLUSTER_COUNT)
    && (p > 0 && found == 0 ==> Reclaiming(s, s', p, |log|, moved))
    && (|log| <= 1 && Spared(s, Reach(Inactives(s))) ==> found == 0)
    && moved <= SWAP_CLUSTER_COUNT * |log|
    && (moved < ShiftRight(Actives(s), p) ==> moved == SWAP_CLUSTER_COUNT * |log|)
  }

  lemma ReclaimStarts(s: State, nr: int, p: nat)
    ensures Reclaims(s, s, [], nr, p, 0, 0)
  {
  }

  /** One more cluster. */
  lemma ReclaimGoesOn(s: State, mid: State, s': State, log: seq<Cluster>, c: Cluster, nr: int, p: nat,
                      found: nat, moved: nat, n: nat)
    requires Inv(mid) && Reclaims(s, mid, log, nr, p, found, moved) && WantsMore(s, log, |log|, nr, p)
    requires c.before == mid && c.after == s' && ClusterRan(c, moved < ShiftRight(Actives(s), p))
    requires n == |s'.lists.At(Eviction)| - |mid.lists.At(Eviction)| && n <= SWAP_CLUSTER_COUNT
    requires n == 0 <==> Spared(mid, Reach(Inactives(mid)))
    requires n == 0 ==> Clustered(mid, s', moved < ShiftRight(Actives(s), p))
    ensures Reclaims(s, s', log + [c], nr, p, found + n,
                     if moved < ShiftRight(Actives(s), p) then moved + SWAP_CLUSTER_COUNT else moved)
    ensures moved < ShiftRight(Actives(s), p) <==> 32 * |log| < ShiftRight(Actives(s), p)
  {
    GoesOn(s, mid, log, c, nr, p);
    if p > 0 && found == 0 && n == 0 { ClusterReclaims(s, mid, s', p, |log|, moved); }
  }

  lemma {:induction false} CountKind(before: seq<Step>, after: seq<Step>, made: Step -> bool, kind: Step -> bool,
                                     all: bool)
    requires Extends(before, after, made) && forall t :: made(t) ==> kind(t) == all
    ensures Count(after, kind) == Count(before, kind) + if all then |after| - |before| else 0
    decreases |after|
  {
    if |after| == |before| {
      assert after == before;
    } else {
      CountKind(before, after[..|after| - 1], made, kind, all);
    }
  }
}
