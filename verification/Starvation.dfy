/** When all the turns of a fetch find nothing cold. A turn at priority `p` reclaims if the
    length of the inactive list, shifted right by `p`, is not zero. */
module Starvation {
  import opened Common
  import opened Shifts
  import opened Queues
  import opened Pager
  import opened PagerInvariant
  import opened FlatMemory
  import opened Conservation
  import opened Reclaim
  import opened Sweep

  const SWAP_CLUSTER_COUNT := 32

  function Min(a: nat, b: nat): nat { if a < b then a else b }

  /** The target of an inactive scan: all of the list for zero or too many. */
  function ScanTarget(nr: nat, len: nat): (target: nat)
    ensures nr == 0 ==> target == len
    ensures nr > 0 ==> target == Min(nr, len)
  {
    if nr == 0 || nr > len then len else nr
  }

  /** The visits that one call of a reclaim may make. */
  function Reach(len: nat): nat { 100 * ScanTarget(SWAP_CLUSTER_COUNT, len) }

  function Inactives(s: State): nat { |s.lists.At(Inactive)| }

  function Actives(s: State): nat { |s.lists.At(Active)| }

  // ------------------------------------------------------------------- cooling

  /** `c` active pages were moved down. They are stale, whatever they were before. */
  ghost predicate Cooled(s: State, s': State, c: nat) {
    && SameVictims(s, s') && Inactives(s') == Inactives(s) + c && Actives(s') + c == Actives(s)
    && Stale(s) <= Stale(s') && |Stale(s')| >= |Stale(s)| + c && |Hot(s')| <= |Hot(s)| + c
  }

  lemma CoolMoves(s: State)
    requires Inv(s) && Enabled(s, Cool)
    ensures var s' := Next(s, Cool);
      SameVictims(s, s') && Inactives(s') == Inactives(s) + 1 && Actives(s') + 1 == Actives(s)
  {
    OnList(s, Active);
    MoveHead(s.lists, Active, Inactive);
  }

  lemma CoolMarks(s: State)
    requires Inv(s) && Enabled(s, Cool)
    ensures var (id, s') := (s.lists.At(Active)[0], Next(s, Cool));
      Stale(s) + {id} <= Stale(s') && id !in Stale(s) && Hot(s') <= Hot(s) + {id}
  {
    OnList(s, Active);
  }

  lemma CoolStep(s: State)
    requires Inv(s) && Enabled(s, Cool)
    ensures Cooled(s, Next(s, Cool), 1)
  {
    CoolMoves(s);
    CoolMarks(s);
    var (id, s') := (s.lists.At(Active)[0], Next(s, Cool));
    SubsetCard(Stale(s) + {id}, Stale(s'));
    SubsetCard(Hot(s'), Hot(s) + {id});
  }

  lemma CoolMore(s: State, mid: State, s': State, c: nat)
    requires Cooled(s, mid, c) && Cooled(mid, s', 1)
    ensures Cooled(s, s', c + 1)
  {
  }

  // ------------------------------------------------------------------- one turn

  /** What a reclaim has left after so many calls, with nothing cold found. */
  ghost predicate Reclaiming(s: State, s': State, p: nat, calls: nat, cooled: nat) {
    && SameVictims(s, s') && Actives(s') + Inactives(s') == Actives(s) + Inactives(s) && Stale(s) <= Stale(s')
    && (Stale(s) == {} || |Hot(s')| + 3168 * calls <= |Hot(s)|)
    && (calls == 0 ==> s' == s && cooled == 0)
    && (calls > 0 ==>
          && SWAP_CLUSTER_COUNT * (calls - 1) < ShiftRight(Inactives(s), p) && Spared(s, Reach(Inactives(s)))
          && if ShiftRight(Actives(s), p) > 0 then |Stale(s')| >= 2 else cooled == 0 && Drained(s, s', calls))
  }

  /** Nothing was moved down. After the first call the lists are exactly what it left. */
  ghost predicate Drained(s: State, s': State, calls: nat) {
    var left := LeftBy(s, Reach(Inactives(s)));
    && Actives(s') + left >= Actives(s) + Inactives(s) && Inactives(s') + 3200 * calls >= Inactives(s)
    && (calls == 1 ==> Inactives(s') == left && (Stale(s) == {} ==> Stale(s') == {}))
  }

  /** A call that met a stale page made all its visits, a hundred for each page of a cluster. */
  lemma VisitsPaid(s: State, mid: State, s': State, calls: nat)
    requires Inv(mid) && Stale(s) != {} && Stale(s) <= Stale(mid) && |Hot(mid)| + 3168 * calls <= |Hot(s)|
    requires Swept(mid, s', Reach(Inactives(mid)))
    ensures |Hot(s')| + 32 + 3168 * (calls + 1) <= |Hot(s)|
  {
    HotIsFew(mid);
  }

  lemma LeastLeft(s: State)
    ensures Inactives(s) >= LeftBy(s, Reach(Inactives(s))) >= Inactives(s) - 100 * SWAP_CLUSTER_COUNT
  {
  }

  /** Nothing cold was found, and then active pages were moved down. */
  ghost predicate ClusterCooled(s: State, mid: State, s': State) {
    Swept(s, mid, Reach(Inactives(s))) && Cooled(mid, s', Min(SWAP_CLUSTER_COUNT, Actives(mid)))
  }

  /** One cluster found nothing cold. */
  ghost predicate Clustered(s: State, s': State, more: bool) {
    if more then exists mid :: ClusterCooled(s, mid, s') else Swept(s, s', Reach(Inactives(s)))
  }

  lemma ClusterDrains(s: State, mid: State, s': State, p: nat, calls: nat)
    requires Inv(mid) && Reclaiming(s, mid, p, calls, 0) && SWAP_CLUSTER_COUNT * calls < ShiftRight(Inactives(s), p)
    requires ShiftRight(Actives(s), p) == 0 && Swept(mid, s', Reach(Inactives(mid)))
    ensures Reclaiming(s, s', p, calls + 1, 0)
  {
    if Stale(s) != {} { VisitsPaid(s, mid, s', calls); }
    LeastLeft(mid);
  }

  lemma ClusterKeeps(s: State, mid: State, s': State, p: nat, calls: nat, cooled: nat)
    requires Inv(mid) && Reclaiming(s, mid, p, calls, cooled)
      && SWAP_CLUSTER_COUNT * calls < ShiftRight(Inactives(s), p)
    requires ShiftRight(Actives(s), p) > 0 && calls > 0 && Swept(mid, s', Reach(Inactives(mid)))
    ensures Reclaiming(s, s', p, calls + 1, cooled)
  {
    if Stale(s) != {} { VisitsPaid(s, mid, s', calls); }
    SubsetCard(Stale(mid), Stale(s'));
  }

  lemma ClusterMovesDown(s: State, mid: State, end: State, s': State, p: nat, calls: nat, cooled: nat)
    requires Inv(mid) && Reclaiming(s, mid, p, calls, cooled)
      && SWAP_CLUSTER_COUNT * calls < ShiftRight(Inactives(s), p)
    requires p > 0 && ShiftRight(Actives(s), p) > 0 && ClusterCooled(mid, end, s')
    ensures Reclaiming(s, s', p, calls + 1, cooled + SWAP_CLUSTER_COUNT)
  {
    if Stale(s) != {} { VisitsPaid(s, mid, end, calls); }
    SubsetCard(Stale(mid), Stale(end));
    ShiftFurther(Actives(s), 1, p);
    LeastLeft(mid);
  }

  lemma ClusterReclaims(s: State, mid: State, s': State, p: nat, calls: nat, cooled: nat)
    requires Inv(mid) && Reclaiming(s, mid, p, calls, cooled)
      && SWAP_CLUSTER_COUNT * calls < ShiftRight(Inactives(s), p)
    requires p > 0 && Clustered(mid, s', cooled < ShiftRight(Actives(s), p))
    ensures Reclaiming(s, s', p, calls + 1,
                       if cooled < ShiftRight(Actives(s), p) then cooled + SWAP_CLUSTER_COUNT else cooled)
  {
    if cooled < ShiftRight(Actives(s), p) {
      var end :| ClusterCooled(mid, end, s');
      ClusterMovesDown(s, mid, end, s', p, calls, cooled);
    } else if ShiftRight(Actives(s), p) == 0 {
      ClusterDrains(s, mid, s', p, calls);
    } else {
      ClusterKeeps(s, mid, s', p, calls, cooled);
    }
  }

  /** A turn at priority `p` came to nothing. */
  ghost predicate Dud(s: State, s': State, p: nat) {
    var (n, a) := (ShiftRight(Inactives(s), p), ShiftRight(Actives(s), p));
    && Stale(s) <= Stale(s') && (n == 0 ==> s' == s)
    && (n > 0 ==> Spared(s, Reach(Inactives(s))) && (a > 0 ==> |Stale(s')| >= 2))
    && (n > 0 && a == 0 ==>
          exists calls: nat :: SWAP_CLUSTER_COUNT * (calls - 1) < n <= SWAP_CLUSTER_COUNT * calls
            && Drained(s, s', calls))
    && (p == 1 && Inactives(s) > 1 ==> Stale(s) == {})
  }

  /** The last priority makes enough visits to meet every inactive page twice. */
  lemma LastTurnMeetsAll(s: State, s': State, calls: nat, cooled: nat)
    requires Inv(s) && Inactives(s) > 1 && Reclaiming(s, s', 1, calls, cooled)
      && SWAP_CLUSTER_COUNT * calls >= ShiftRight(Inactives(s), 1)
    ensures Stale(s) == {}
  {
    HotIsFew(s);
    assert ShiftRight(Inactives(s), 1) == Inactives(s) / 2;
  }

  lemma ReclaimIsDud(s: State, s': State, p: nat, calls: nat, cooled: nat)
    requires Inv(s) && Reclaiming(s, s', p, calls, cooled) && SWAP_CLUSTER_COUNT * calls >= ShiftRight(Inactives(s), p)
    ensures Dud(s, s', p)
  {
    if p == 1 && Inactives(s) > 1 { LastTurnMeetsAll(s, s', calls, cooled); }
  }

  // ------------------------------------------------------------------ all turns

  /** The turns from priority 12 down find nothing cold: there is at most one inactive page;
      or there are at most three and all are promoted, by the last turn; or the first call
      finds nothing, there are too few active pages to move any down, and it leaves at most
      one page, or at most three that are promoted by the last turn. */
  ghost predicate RunsDry(s: State) {
    var n := Inactives(s);
    || n <= 1
    || (n <= 3 && Stale(s) == {})
    || (ShiftRight(Actives(s), Rank(n, 12)) == 0 && Spared(s, Reach(n))
        && LeftBy(s, Reach(n)) <= if Stale(s) == {} then 3 else 1)
  }

  /** So do the turns from priority `p` down. */
  ghost predicate Hopeless(s: State, p: nat) {
    var n := Inactives(s);
    var q := Rank(n, p);
    || q == 0
    || (q == 1 && n <= 3 && Stale(s) == {})
    || (ShiftRight(Actives(s), q) == 0 && ShiftRight(n, q) <= SWAP_CLUSTER_COUNT && Spared(s, Reach(n))
        && LeftBy(s, Reach(n)) <= if Stale(s) == {} then 3 else 1)
  }

  lemma LowRank(n: nat, p: nat)
    ensures n <= 1 ==> Rank(n, p) == 0
    ensures n <= 3 ==> Rank(n, p) <= 1
    ensures n >= 2 && p >= 1 ==> Rank(n, p) >= 1
    ensures n >= 4 && p >= 2 ==> Rank(n, p) >= 2
  {
    if p >= 1 {
      RankIsLargest(n, p, 1);
      assert ShiftRight(n, 1) == n / 2;
    }
    if p >= 2 {
      RankIsLargest(n, p, 2);
      assert ShiftRight(n, 2) == ShiftRight(n / 2, 1) == n / 2 / 2;
    }
  }

  lemma SameRank(n: nat, p: nat)
    requires p > 0 && ShiftRight(n, p) == 0
    ensures Rank(n, p) == Rank(n, p - 1) < p
  {
  }

  /** A reclaim that is called makes one call, which finds nothing. */
  lemma HopelessIsSpared(s: State, p: nat)
    requires p > 0 && Hopeless(s, p) && ShiftRight(Inactives(s), p) > 0
    ensures Spared(s, Reach(Inactives(s))) && ShiftRight(Inactives(s), p) <= SWAP_CLUSTER_COUNT
  {
    LowRank(Inactives(s), p);
  }

  lemma HopelessGoesOn(s: State, s': State, p: nat)
    requires p > 0 && Hopeless(s, p) && Dud(s, s', p)
    ensures Hopeless(s', p - 1)
  {
    LowRank(Inactives(s'), p - 1);
    if ShiftRight(Inactives(s), p) == 0 { SameRank(Inactives(s), p); } else { LowRank(Inactives(s), p); }
  }

  /** The turns from priority `p` down are sure to find something cold. */
  ghost predicate Fertile(s: State, p: nat) {
    var (n, a) := (Inactives(s), Actives(s));
    var q := Rank(n, p);
    && p > 0
    && (|| |Stale(s)| >= 2
        || (q >= 2 && ShiftRight(a, q) > 0)
        || (q >= 1 && !Spared(s, Reach(n)))
        || Leftover(s, p) || Plenty(s, p))
  }

  /** A stale page is left with another. */
  ghost predicate Leftover(s: State, p: nat) {
    var n := Inactives(s);
    n <= 3203 && Rank(n, p) == 11 && ShiftRight(Actives(s), 11) == 0 && LeftBy(s, Reach(n)) >= 2 && Stale(s) != {}
  }

  /** The list is longer than a call can visit, so there are pages to move down later. */
  ghost predicate Plenty(s: State, p: nat) {
    var n := Inactives(s);
    n >= 3204 && Rank(n, p) >= 11 && p <= 12 && (p == 12 || n < 4096)
  }

  lemma ThreeThousand(n: nat)
    ensures n >= 2048 ==> ShiftRight(n, 11) > 0
    ensures 2048 <= n < 4096 ==> ShiftRight(n, 11) == 1
    ensures n < 4096 <==> ShiftRight(n, 12) == 0
    ensures 4096 * ShiftRight(n, 12) <= n
  {
    ShiftsByPower(n, 11);
    ShiftsByPower(n, 12);
    Powers();
  }

  lemma Powers()
    ensures Pow2(11) == 2048 && Pow2(12) == 4096
  {
    assert Pow2(4) == 16 && Pow2(8) == 16 * Pow2(4);
  }

  /** Once pages are moved down with another turn to come, something cold will be found. */
  lemma StaleGoesOn(s: State, s': State, p: nat)
    requires Inv(s) && p > 0 && |Stale(s)| >= 2 && Dud(s, s', p)
    ensures p > 1 && |Stale(s')| >= 2
  {
    HotIsFew(s);
    SubsetCard(Stale(s), Stale(s'));
  }

  lemma LeftoverGoesOn(s: State, s': State, p: nat)
    requires Inv(s) && p == 11 && Leftover(s, p) && Dud(s, s', p)
    ensures Fertile(s', p - 1)
  {
    var n := Inactives(s);
    ThreeThousand(n);
    LowRank(Inactives(s'), p - 1);
    assert ShiftRight(n, p) == 1 && Inactives(s') == LeftBy(s, Reach(n)) >= 2;
    MostAreRipe(s, 3200);
    if |Stale(s)| >= 2 { SubsetCard(Stale(s), Stale(s')); }
  }

  lemma PlentyGoesOn(s: State, s': State, p: nat)
    requires Inv(s) && ShiftRight(Inactives(s), p) > 0 && Plenty(s, p) && |Stale(s)| < 2
      && ShiftRight(Actives(s), p) == 0 && Dud(s, s', p)
    ensures Inactives(s') >= 4 && Actives(s') >= 3199
  {
    ThreeThousand(Inactives(s));
    MostAreRipe(s, 3200);
  }

  lemma FertileGoesOn(s: State, s': State, p: nat)
    requires Inv(s) && Fertile(s, p) && Dud(s, s', p)
    ensures Fertile(s', p - 1)
  {
    var n := Inactives(s);
    if |Stale(s)| >= 2 {
      StaleGoesOn(s, s', p);
    } else if ShiftRight(n, p) == 0 {
      SameRank(n, p);
      ThreeThousand(n);
    } else if ShiftRight(Actives(s), p) > 0 {
      assert p > 1;
    } else if Plenty(s, p) {
      PlentyGoesOn(s, s', p);
      LowRank(Inactives(s'), p - 1);
      ThreeThousand(Actives(s'));
      ShiftFurther(Actives(s'), Rank(Inactives(s'), p - 1), 11);
    } else {
      LeftoverGoesOn(s, s', p);
    }
  }

  /** Nothing in between: from priority 12 the turns are sure to find nothing or to find something. */
  lemma DryOrFertile(s: State)
    requires Inv(s)
    ensures if RunsDry(s) then Hopeless(s, 12) else Fertile(s, 12)
  {
    var n := Inactives(s);
    LowRank(n, 12);
    ThreeThousand(n);
    MostAreRipe(s, Reach(n));
    RankIsLargest(n, 12, 11);
    RankIsLargest(n, 12, 12);
    if n < 4096 { RankLeavesOne(n, 12); }
  }

  /** In plain numbers: up to 3199 inactive pages a fetch runs dry if and only if every one is
      promoted and there are at most three of them or fewer active pages than the largest power
      of two up to their number. Above 3203 it never does. */
  lemma DryByLength(s: State)
    requires Inv(s) && Inactives(s) > 1
    ensures var (n, power) := (Inactives(s), Pow2(Rank(Inactives(s), 12)));
      && (n < 4096 ==> power <= n < 2 * power)
      && (n < 3200 ==> (RunsDry(s) <==> Stale(s) == {} && (n <= 3 || Actives(s) < power)))
      && (n > 3203 ==> !RunsDry(s))
  {
    var n := Inactives(s);
    LowRank(n, 12);
    ThreeThousand(n);
    MostAreRipe(s, Reach(n));
    ShiftIsZero(n, Rank(n, 12));
    ShiftIsZero(Actives(s), Rank(n, 12));
    if n < 4096 { RankLeavesOne(n, 12); }
  }
}
