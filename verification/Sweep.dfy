/** What one call of `shrink_inactive_list` finds: exactly when it finds nothing cold, and
    what it leaves behind when it does not. */
module Sweep {
  import opened Common
  import opened Queues
  import opened Pager
  import opened PagerInvariant
  import opened FlatMemory
  import opened Conservation
  import opened Reclaim

  /** A scan promotes the page: it was accessed, and seen accessed once before. */
  predicate Ripe(s: State, i: Id) {
    i < |s.pages| && s.pages[i].va in s.accessed && s.pages[i].naccesses > 0
  }

  /** The inactive pages that a scan would not promote. */
  ghost function Stale(s: State): set<Id> {
    set i | 0 <= i < |s.pages| && s.pages[i].list == Some(Inactive) && !Ripe(s, i)
  }

  /** The inactive pages with their accessed bit set. */
  ghost function Hot(s: State): set<Id> {
    set i | 0 <= i < |s.pages| && s.pages[i].list == Some(Inactive) && s.pages[i].va in s.accessed
  }

  /** The first `k` pages of the inactive list have their accessed bit set. */
  ghost predicate WarmTo(s: State, k: nat) {
    forall j :: 0 <= j < |s.lists.At(Inactive)| && j < k ==>
      s.lists.At(Inactive)[j] < |s.pages| && s.pages[s.lists.At(Inactive)[j]].va in s.accessed
  }

  /** How many of the first `k` inactive pages a scan would promote. */
  function Ripes(s: State, k: nat): (r: nat)
    ensures r <= k && r <= |s.lists.At(Inactive)|
  {
    if k == 0 then 0
    else
      var q := s.lists.At(Inactive);
      Ripes(s, k - 1) + if k <= |q| && Ripe(s, q[k - 1]) then 1 else 0
  }

  // ------------------------------------------------------------------ one visit

  /** An address is that of one descriptor. */
  lemma OneAddress(s: State, i: Id, j: Id)
    requires Inv(s) && i < |s.pages| && j < |s.pages| && i != j && s.pages[i].va != 0
    ensures s.pages[j].va != s.pages[i].va
  {
  }

  lemma InactiveHead(s: State)
    requires Inv(s) && Enabled(s, Scan)
    ensures var id := s.lists.At(Inactive)[0];
      s.pages[id].list == Some(Inactive) && s.pages[id].va != 0
  {
    OnList(s, Inactive);
    assert RoleOk(s.pages[s.lists.At(Inactive)[0]]);
  }

  /** A visit that does not find the page cold promotes it or puts it back, and the page is
      accessed no more. */
  lemma VisitMoves(s: State)
    requires Inv(s) && Enabled(s, Scan) && Look(s).fate != Cold
    ensures var (id, s') := (s.lists.At(Inactive)[0], Next(s, Scan));
      var (rest, active) := (s.lists.At(Inactive)[1..], s.lists.At(Active));
      && s'.lists.At(Eviction) == s.lists.At(Eviction)
      && s'.lists.At(Inactive) == (if Ripe(s, id) then rest else rest + [id])
      && s'.lists.At(Active) == (if Ripe(s, id) then active + [id] else active)
  {
    ScanMoves(s);
    MoveHead(s.lists, Inactive, Destination(Look(s).fate));
  }

  lemma VisitCools(s: State)
    requires Inv(s) && Enabled(s, Scan) && Look(s).fate != Cold
    ensures |Hot(Next(s, Scan))| < |Hot(s)|
  {
    InactiveHead(s);
    var id := s.lists.At(Inactive)[0];
    assert id in Hot(s);
    assert Hot(Next(s, Scan)) <= Hot(s) - {id};
    SubsetCard(Hot(Next(s, Scan)), Hot(s) - {id});
  }

  /** A page that a scan would not promote stays one, on the inactive list. */
  lemma VisitKeepsStale(s: State)
    requires Inv(s) && Enabled(s, Scan) && Look(s).fate != Cold
    ensures Stale(s) <= Stale(Next(s, Scan))
    ensures Stale(s) == {} ==> Stale(Next(s, Scan)) == {}
  {
    InactiveHead(s);
    var (id, s') := (s.lists.At(Inactive)[0], Next(s, Scan));
    forall i | i in Stale(s') && i != id ensures i in Stale(s) { OneAddress(s, id, i); }
    assert Ripe(s, id) ==> id !in Stale(s');
    assert id in Stale(s) || Ripe(s, id);
  }

  /** The pages from the `k`-th on have not been visited. */
  ghost predicate Untouched(s: State, s': State, k: nat) {
    var (q, q') := (s.lists.At(Inactive), s'.lists.At(Inactive));
    && k <= |q| <= k + |q'| && |s'.pages| == |s.pages|
    && (forall j :: k <= j < |q| ==> q[j] < |s.pages| && q'[j - k] == q[j] && SamePage(s, s', q[j]))
  }

  predicate SamePage(s: State, s': State, i: Id) {
    i < |s.pages| && i < |s'.pages| && s'.pages[i] == s.pages[i]
    && (s.pages[i].va in s'.accessed <==> s.pages[i].va in s.accessed)
  }

  lemma InactiveDistinct(s: State, i: nat, j: nat)
    requires Inv(s) && i < j < |s.lists.At(Inactive)|
    ensures s.lists.At(Inactive)[i] != s.lists.At(Inactive)[j] && s.lists.At(Inactive)[j] < |s.pages|
  {
    assert Distinct(s.lists.At(Inactive)) && s.lists.At(Inactive)[j] in s.lists.At(Inactive);
  }

  lemma ScanSpares(s: State, i: Id)
    requires Inv(s) && Enabled(s, Scan) && i < |s.pages| && i != s.lists.At(Inactive)[0]
    ensures SamePage(s, Next(s, Scan), i)
  {
    InactiveHead(s);
    OneAddress(s, s.lists.At(Inactive)[0], i);
  }

  lemma ScanAdvances(s: State)
    requires Inv(s) && Enabled(s, Scan)
    ensures s.lists.At(Inactive)[1..] <= Next(s, Scan).lists.At(Inactive)
  {
    ScanMoves(s);
    MoveHead(s.lists, Inactive, Destination(Look(s).fate));
  }

  /** The next visit leaves the pages behind the one it visits. */
  lemma TouchNext(s: State, mid: State, k: nat)
    requires Inv(mid) && Untouched(s, mid, k) && k < |s.lists.At(Inactive)|
    ensures Enabled(mid, Scan) && Untouched(s, Next(mid, Scan), k + 1)
    ensures var id := s.lists.At(Inactive)[k];
      && Look(mid).id == id && Ripe(mid, id) == Ripe(s, id)
      && (Look(mid).fate == Cold <==> s.pages[id].va !in s.accessed)
  {
    var (q, q') := (s.lists.At(Inactive), mid.lists.At(Inactive));
    assert q'[0] == q[k] && SamePage(s, mid, q[k]);
    ScanAdvances(mid);
    var s' := Next(mid, Scan);
    forall j | k + 1 <= j < |q| ensures s'.lists.At(Inactive)[j - (k + 1)] == q[j] && SamePage(s, s', q[j]) {
      assert q'[j - k] == q[j] && q'[1..][j - (k + 1)] == q'[j - k] && SamePage(s, mid, q[j]);
      InactiveDistinct(mid, 0, j - k);
      ScanSpares(mid, q[j]);
    }
  }

  // --------------------------------------------------------------- many visits

  lemma {:induction false} FewerScans(s: State, k: nat, v: nat)
    requires k <= v && Exec(s, Scans(v)).Some?
    ensures Exec(s, Scans(k)).Some?
  {
    if k < v {
      assert Scans(v)[..v - 1] == Scans(v - 1);
      FewerScans(s, k, v - 1);
    }
  }

  ghost predicate SameVictims(s: State, s': State) { |s'.lists.At(Eviction)| == |s.lists.At(Eviction)| }

  /** No more than the first `k` pages have been visited, and they were all accessed. */
  ghost predicate Passed(s: State, s': State, k: nat) {
    && SameVictims(s, s')
    && |s'.lists.At(Inactive)| == |s.lists.At(Inactive)| - Ripes(s, k)
    && |s'.lists.At(Active)| == |s.lists.At(Active)| + Ripes(s, k)
  }

  /** The pages met by the first `k` visits, and what came of them. */
  ghost predicate Toured(s: State, s': State, k: nat) {
    && Untouched(s, s', k) && |s'.lists.At(Eviction)| >= |s.lists.At(Eviction)|
    && (SameVictims(s, s') <==> WarmTo(s, k)) && (WarmTo(s, k) ==> Passed(s, s', k))
  }

  lemma TourNext(s: State, mid: State, k: nat)
    requires Inv(mid) && Toured(s, mid, k) && k < |s.lists.At(Inactive)|
    ensures Enabled(mid, Scan) && Toured(s, Next(mid, Scan), k + 1)
  {
    TouchNext(s, mid, k);
    ScanRescans(mid);
    WarmNext(s, k);
    if WarmTo(s, k + 1) { VisitMoves(mid); }
  }

  lemma WarmNext(s: State, k: nat)
    requires k < |s.lists.At(Inactive)| && s.lists.At(Inactive)[k] < |s.pages|
    ensures WarmTo(s, k + 1) <==> WarmTo(s, k) && s.pages[s.lists.At(Inactive)[k]].va in s.accessed
  {
  }

  lemma TourStarts(s: State)
    requires Inv(s)
    ensures Toured(s, s, 0)
  {
    forall j | 0 <= j < |s.lists.At(Inactive)| ensures s.lists.At(Inactive)[j] < |s.pages| {
      assert s.lists.At(Inactive)[j] in s.lists.At(Inactive);
    }
  }

  /** The first visits meet the pages of the list in order. They add no victim exactly if all
      those pages were accessed. */
  lemma {:induction false} FirstVisits(s: State, k: nat)
    requires Inv(s) && k <= |s.lists.At(Inactive)| && Exec(s, Scans(k)).Some?
    ensures Toured(s, Exec(s, Scans(k)).value, k)
  {
    if k > 0 {
      assert Scans(k)[..k - 1] == Scans(k - 1);
      FirstVisits(s, k - 1);
      ExecInv(s, Scans(k - 1));
      TourNext(s, Exec(s, Scans(k - 1)).value, k - 1);
    } else {
      TourStarts(s);
    }
  }

  /** Visits that add no victim each clear an accessed bit, and keep every stale page. */
  lemma {:induction false} QuietVisits(s: State, k: nat)
    requires Inv(s) && Exec(s, Scans(k)).Some? && SameVictims(s, Exec(s, Scans(k)).value)
    ensures var s' := Exec(s, Scans(k)).value;
      |Hot(s')| + k <= |Hot(s)| && Stale(s) <= Stale(s') && (Stale(s) == {} ==> Stale(s') == {})
  {
    if k > 0 {
      assert Scans(k)[..k - 1] == Scans(k - 1);
      ExecInv(s, Scans(k - 1));
      var mid := Exec(s, Scans(k - 1)).value;
      MoreVictims(s, k - 1);
      ScanRescans(mid);
      QuietVisits(s, k - 1);
      VisitCools(mid);
      VisitKeepsStale(mid);
    }
  }

  lemma {:induction false} MoreVictims(s: State, k: nat)
    requires Inv(s) && Exec(s, Scans(k)).Some?
    ensures |Exec(s, Scans(k)).value.lists.At(Eviction)| >= |s.lists.At(Eviction)|
  {
    if k > 0 {
      assert Scans(k)[..k - 1] == Scans(k - 1);
      MoreVictims(s, k - 1);
      ExecInv(s, Scans(k - 1));
      ScanRescans(Exec(s, Scans(k - 1)).value);
    }
  }

  lemma HotIsFew(s: State)
    requires Inv(s)
    ensures |Hot(s)| <= |s.lists.At(Inactive)| && |Stale(s)| <= |s.lists.At(Inactive)|
  {
    OnCount(s, Inactive);
    forall i | i in Hot(s) + Stale(s) ensures i in On(s.pages, true, Some(Inactive)) { assert RoleOk(s.pages[i]); }
    SubsetCard(Hot(s), On(s.pages, true, Some(Inactive)));
    SubsetCard(Stale(s), On(s.pages, true, Some(Inactive)));
  }

  // ---------------------------------------------------------------- the count

  lemma {:induction false} RipesBeyond(s: State, k: nat)
    requires k >= |s.lists.At(Inactive)|
    ensures Ripes(s, k) == Ripes(s, |s.lists.At(Inactive)|)
  {
    if k > |s.lists.At(Inactive)| { RipesBeyond(s, k - 1); }
  }

  /** The stale ones of the first `k` pages. */
  ghost function StaleTo(s: State, k: nat): set<Id>
    requires k <= |s.lists.At(Inactive)|
  {
    if k == 0 then {}
    else
      var id := s.lists.At(Inactive)[k - 1];
      if Ripe(s, id) then StaleTo(s, k - 1) else StaleTo(s, k - 1) + {id}
  }

  lemma {:induction false} StaleToAt(s: State, k: nat, id: Id)
    requires k <= |s.lists.At(Inactive)|
    ensures id in StaleTo(s, k) <==> !Ripe(s, id) && id in s.lists.At(Inactive)[..k]
  {
    if k > 0 {
      StaleToAt(s, k - 1, id);
      assert s.lists.At(Inactive)[..k] == s.lists.At(Inactive)[..k - 1] + [s.lists.At(Inactive)[k - 1]];
    }
  }

  lemma {:induction false} RipesCount(s: State, k: nat)
    requires Inv(s) && k <= |s.lists.At(Inactive)|
    ensures Ripes(s, k) + |StaleTo(s, k)| == k
  {
    if k > 0 {
      RipesCount(s, k - 1);
      var id := s.lists.At(Inactive)[k - 1];
      assert id !in StaleTo(s, k - 1) by {
        StaleToAt(s, k - 1, id);
        forall j | 0 <= j < k - 1 ensures s.lists.At(Inactive)[j] != id { InactiveDistinct(s, j, k - 1); }
      }
    }
  }

  lemma OnInactive(s: State, i: Id)
    requires Inv(s)
    ensures i in s.lists.At(Inactive) <==> i < |s.pages| && s.pages[i].list == Some(Inactive)
  {
    if i < |s.pages| { assert Homes(s.pages)[i] == s.pages[i].list; }
  }

  lemma StaleOnList(s: State, k: nat)
    requires Inv(s) && k <= |s.lists.At(Inactive)|
    ensures StaleTo(s, k) <= Stale(s) && (k == |s.lists.At(Inactive)| ==> StaleTo(s, k) == Stale(s))
  {
    var q := s.lists.At(Inactive);
    assert q[..|q|] == q;
    forall i: Id ensures (i in StaleTo(s, k) ==> i in Stale(s)) && (k == |q| && i in Stale(s) ==> i in StaleTo(s, k)) {
      StaleToAt(s, k, i);
      OnInactive(s, i);
    }
  }

  /** Of the first pages all but the stale ones are promoted. */
  lemma MostAreRipe(s: State, k: nat)
    requires Inv(s)
    ensures k <= |s.lists.At(Inactive)| ==> Ripes(s, k) + |Stale(s)| >= k
    ensures k >= |s.lists.At(Inactive)| ==> Ripes(s, k) + |Stale(s)| == |s.lists.At(Inactive)|
  {
    var n := |s.lists.At(Inactive)|;
    StaleOnList(s, n);
    RipesCount(s, n);
    if k <= n {
      StaleOnList(s, k);
      RipesCount(s, k);
      SubsetCard(StaleTo(s, k), Stale(s));
    } else {
      RipesBeyond(s, k);
    }
  }

  /** Nothing stale means everything is accessed. */
  lemma RipeIsWarm(s: State, k: nat)
    requires Inv(s) && Stale(s) == {}
    ensures WarmTo(s, k)
  {
    var q := s.lists.At(Inactive);
    forall j | 0 <= j < |q| ensures q[j] < |s.pages| && s.pages[q[j]].va in s.accessed {
      assert q[j] in q && q[j] !in Stale(s);
    }
  }

  // ----------------------------------------------------------------- one call

  /** A call that may make `reach` visits finds nothing cold: every page is promoted, or the
      visits end within the list and met accessed pages only. */
  ghost predicate Spared(s: State, reach: nat) {
    Stale(s) == {} || (reach <= |s.lists.At(Inactive)| && WarmTo(s, reach))
  }

  /** How many pages such a call leaves on the inactive list. */
  function LeftBy(s: State, reach: nat): nat { |s.lists.At(Inactive)| - Ripes(s, reach) }

  /** What it leaves: the stale pages, each visit paid for by an accessed bit. */
  ghost predicate Swept(s: State, s': State, reach: nat) {
    && SameVictims(s, s') && Spared(s, reach) && |s'.lists.At(Inactive)| == LeftBy(s, reach)
    && |s'.lists.At(Active)| + |s'.lists.At(Inactive)| == |s.lists.At(Active)| + |s.lists.At(Inactive)|
    && Stale(s) <= Stale(s') && (Stale(s) == {} ==> Stale(s') == {})
    && (Stale(s) == {} || |Hot(s')| + reach <= |Hot(s)|)
  }

  /** With nothing stale the visits end with the list. */
  lemma AllPromoted(s: State, v: nat)
    requires Inv(s) && Stale(s) == {} && Exec(s, Scans(v)).Some?
    ensures v <= |s.lists.At(Inactive)|
  {
    var n := |s.lists.At(Inactive)|;
    if v > n {
      FewerScans(s, n + 1, v);
      assert Scans(n + 1)[..n] == Scans(n);
      FirstVisits(s, n);
      RipeIsWarm(s, n);
      MostAreRipe(s, n);
    }
  }

  /** A call that made `v` visits and found nothing cold. */
  lemma QuietCall(s: State, v: nat, target: nat)
    requires Inv(s) && Exec(s, Scans(v)).Some? && SameVictims(s, Exec(s, Scans(v)).value)
    requires v <= 100 * target && target <= |s.lists.At(Inactive)| && (target == 0 ==> s.lists.At(Inactive) == [])
    requires Exec(s, Scans(v)).value.lists.At(Inactive) == [] || v == 100 * target
    ensures Swept(s, Exec(s, Scans(v)).value, 100 * target)
  {
    var (n, s') := (|s.lists.At(Inactive)|, Exec(s, Scans(v)).value);
    QuietVisits(s, v);
    HotIsFew(s);
    FirstVisits(s, v);
    MostAreRipe(s, v);
    MostAreRipe(s, 100 * target);
    if s'.lists.At(Inactive) == [] {
      assert Ripes(s, v) == n && v == n;
    }
  }

  /** And when it finds nothing. */
  lemma CallIsQuiet(s: State, v: nat, target: nat)
    requires Inv(s) && Exec(s, Scans(v)).Some? && v <= 100 * target && Spared(s, 100 * target)
    ensures SameVictims(s, Exec(s, Scans(v)).value)
  {
    if Stale(s) == {} {
      AllPromoted(s, v);
      RipeIsWarm(s, v);
    }
    FirstVisits(s, v);
  }

  /** The call ended: enough victims, an empty list, or all the visits it may make. */
  ghost predicate CallEnded(s: State, s': State, v: nat, target: nat) {
    && v <= 100 * target && target <= |s.lists.At(Inactive)| && (target == 0 ==> s.lists.At(Inactive) == [])
    && (|s'.lists.At(Eviction)| == |s.lists.At(Eviction)| + target || s'.lists.At(Inactive) == [] || v == 100 * target)
  }

  lemma CallExactly(s: State, s': State, v: nat, target: nat)
    requires Inv(s) && Exec(s, Scans(v)) == Some(s') && CallEnded(s, s', v, target)
    ensures SameVictims(s, s') <==> Spared(s, 100 * target)
    ensures SameVictims(s, s') ==> Swept(s, s', 100 * target)
  {
    if SameVictims(s, s') { QuietCall(s, v, target); }
    if Spared(s, 100 * target) { CallIsQuiet(s, v, target); }
  }
}
