/** Frames and swap slots are neither lost nor shared, and swap space lasts. */
module Conservation {
  import opened Common
  import opened Queues
  import opened Pager

  // ------------------------------------------------------------------ counting

  ghost predicate AllDistinct<T>(q: seq<T>) {
    forall i, j :: 0 <= i < j < |q| ==> q[i] != q[j]
  }

  ghost function SetOf<T>(q: seq<T>): set<T> { set x | x in q }

  lemma {:induction false} DistinctCard<T>(q: seq<T>)
    requires AllDistinct(q)
    ensures |SetOf(q)| == |q|
  {
    if q != [] {
      var n := |q| - 1;
      DistinctCard(q[..n]);
      assert q[n] !in q[..n];
      assert SetOf(q) == SetOf(q[..n]) + {q[n]};
    }
  }

  lemma SubsetCard<T>(a: set<T>, b: set<T>)
    requires a <= b
    ensures |a| <= |b|
    ensures |a| == |b| ==> a == b
  {
    assert |b - a| == |b| - |a|;
  }

  // -------------------------------------------------------------------- places

  ghost function Place(dramFrames: nat, k: nat): (bool, nat) {
    if k < dramFrames then (true, k * PAGE_SIZE) else (false, (k - dramFrames) * PAGE_SIZE)
  }

  ghost function Places(dramFrames: nat, n: nat): (r: seq<(bool, nat)>)
    ensures |r| == n && forall k :: 0 <= k < n ==> r[k] == Place(dramFrames, k)
  {
    seq(n, k requires 0 <= k < n => Place(dramFrames, k))
  }

  ghost function Slots(pages: seq<Desc>): (r: seq<(bool, nat)>)
    ensures |r| == |pages| && forall i :: 0 <= i < |pages| ==> r[i] == Slot(pages[i])
  {
    seq(|pages|, i requires 0 <= i < |pages| => Slot(pages[i]))
  }

  lemma SlotIsPlace(dramSize: nat, diskSize: nat, d: Desc)
    requires InRange(dramSize, diskSize, d)
    ensures var nd := dramSize / PAGE_SIZE;
      var k := (if d.inDram then 0 else nd) + d.offset / PAGE_SIZE;
      k < nd + diskSize / PAGE_SIZE && Slot(d) == Place(nd, k)
  {
  }

  /** The descriptors occupy every place there is. */
  lemma SlotsCover(s: State)
    requires Inv(s)
    ensures SetOf(Slots(s.pages)) == SetOf(Places(s.dramSize / PAGE_SIZE, |s.pages|))
  {
    var nd := s.dramSize / PAGE_SIZE;
    var places := Places(nd, |s.pages|);
    forall i | 0 <= i < |s.pages| ensures Slot(s.pages[i]) in SetOf(places) {
      assert InRange(s.dramSize, s.diskSize, s.pages[i]);
      SlotIsPlace(s.dramSize, s.diskSize, s.pages[i]);
      var k := (if s.pages[i].inDram then 0 else nd) + s.pages[i].offset / PAGE_SIZE;
      assert places[k] == Slot(s.pages[i]);
    }
    DistinctCard(Slots(s.pages));
    DistinctCard(places);
    SubsetCard(SetOf(Slots(s.pages)), SetOf(places));
  }

  /** Each DRAM frame and each disk slot belongs to exactly one descriptor. */
  lemma EachPlaceHasOneDescriptor(s: State, inDram: bool, k: nat)
    requires Inv(s) && k < if inDram then s.dramSize / PAGE_SIZE else s.diskSize / PAGE_SIZE
    ensures exists i: Id :: i < |s.pages| && Slot(s.pages[i]) == (inDram, k * PAGE_SIZE)
    ensures forall i, j | 0 <= i < |s.pages| && 0 <= j < |s.pages| ::
              Slot(s.pages[i]) == Slot(s.pages[j]) == (inDram, k * PAGE_SIZE) ==> i == j
  {
    SlotsCover(s);
    var nd := s.dramSize / PAGE_SIZE;
    var places := Places(nd, |s.pages|);
    var n := if inDram then k else nd + k;
    assert places[n] == (inDram, k * PAGE_SIZE);
    assert places[n] in SetOf(places);
    assert places[n] in Slots(s.pages);
    var i :| 0 <= i < |s.pages| && Slots(s.pages)[i] == places[n];
    assert Slot(s.pages[i]) == (inDram, k * PAGE_SIZE);
  }

  ghost function Owner(s: State, inDram: bool, k: nat): (i: Id)
    requires Inv(s) && k < if inDram then s.dramSize / PAGE_SIZE else s.diskSize / PAGE_SIZE
    ensures i < |s.pages| && Slot(s.pages[i]) == (inDram, k * PAGE_SIZE)
  {
    EachPlaceHasOneDescriptor(s, inDram, k);
    var i: Id :| i < |s.pages| && Slot(s.pages[i]) == (inDram, k * PAGE_SIZE);
    i
  }

  ghost function Owners(s: State, inDram: bool): (q: seq<Id>)
    requires Inv(s)
    ensures |q| == if inDram then s.dramSize / PAGE_SIZE else s.diskSize / PAGE_SIZE
    ensures forall k :: 0 <= k < |q| ==> q[k] == Owner(s, inDram, k)
  {
    var n := if inDram then s.dramSize / PAGE_SIZE else s.diskSize / PAGE_SIZE;
    seq(n, k requires 0 <= k < n => Owner(s, inDram, k))
  }

  ghost function Holders(pages: seq<Desc>, inDram: bool): set<Id> {
    set i: Id | i < |pages| && pages[i].inDram == inDram
  }

  /** There are always as many descriptors on each side as places. */
  lemma HoldersCount(s: State, inDram: bool)
    requires Inv(s)
    ensures AllDistinct(Owners(s, inDram)) && SetOf(Owners(s, inDram)) == Holders(s.pages, inDram)
    ensures |Holders(s.pages, inDram)| == if inDram then s.dramSize / PAGE_SIZE else s.diskSize / PAGE_SIZE
  {
    var q := Owners(s, inDram);
    forall i | i in Holders(s.pages, inDram) ensures i in q {
      assert InRange(s.dramSize, s.diskSize, s.pages[i]);
      SlotIsPlace(s.dramSize, s.diskSize, s.pages[i]);
      var k := s.pages[i].offset / PAGE_SIZE;
      assert Slot(s.pages[q[k]]) == Slot(s.pages[i]);
      assert q[k] == i;
    }
    DistinctCard(q);
  }

  /** The descriptors of one side that say they are on list `w`, or on none. */
  ghost function On(pages: seq<Desc>, inDram: bool, w: Option<ListName>): set<Id> {
    set i: Id | i < |pages| && pages[i].inDram == inDram && pages[i].list == w
  }

  predicate InDramList(w: ListName) { w in {Active, Inactive, Eviction, DramFree} }

  lemma OnCount(s: State, w: ListName)
    requires Inv(s)
    ensures |On(s.pages, InDramList(w), Some(w))| == |s.lists.At(w)|
  {
    DistinctCard(s.lists.At(w));
    forall i: Id ensures i in On(s.pages, InDramList(w), Some(w)) <==> i in s.lists.At(w) {
      if i < |s.pages| { assert RoleOk(s.pages[i]) && Homes(s.pages)[i] == s.pages[i].list; }
    }
    assert On(s.pages, InDramList(w), Some(w)) == SetOf(s.lists.At(w));
  }

  /** The list tells the side. */
  ghost predicate SidesOk(pages: seq<Desc>) {
    forall i :: 0 <= i < |pages| ==> pages[i].list.Some? ==> pages[i].inDram == InDramList(pages[i].list.value)
  }

  lemma RolesGiveSides(pages: seq<Desc>)
    requires RolesOk(pages)
    ensures SidesOk(pages)
  {
  }

  lemma RemoveCard<T>(a: set<T>, b: set<T>)
    requires b <= a
    ensures |a - b| == |a| - |b|
  {
  }

  /** Frames: every one is on exactly one of four lists or held by a handler. */
  lemma FramesAccounted(s: State)
    requires Inv(s)
    ensures s.dramSize / PAGE_SIZE
         == |s.lists.At(Active)| + |s.lists.At(Inactive)| + |s.lists.At(Eviction)| + |s.lists.At(DramFree)|
            + |On(s.pages, true, None)|
  {
    HoldersCount(s, true);
    OnCount(s, Active); OnCount(s, Inactive); OnCount(s, Eviction); OnCount(s, DramFree);
    RolesGiveSides(s.pages);
    PartitionDram(s.pages);
  }

  /** The descriptors of a side that are on none of these lists. */
  ghost function Beside(pages: seq<Desc>, inDram: bool, ws: set<ListName>): set<Id> {
    set i: Id | i < |pages| && pages[i].inDram == inDram && (pages[i].list.Some? ==> pages[i].list.value !in ws)
  }

  lemma Peel(pages: seq<Desc>, inDram: bool, ws: set<ListName>, w: ListName, ws': set<ListName>)
    requires w !in ws && ws' == ws + {w}
    ensures |Beside(pages, inDram, ws)| == |On(pages, inDram, Some(w))| + |Beside(pages, inDram, ws')|
  {
    RemoveCard(Beside(pages, inDram, ws), On(pages, inDram, Some(w)));
    assert Beside(pages, inDram, ws) - On(pages, inDram, Some(w)) == Beside(pages, inDram, ws');
  }

  lemma PartitionDram(pages: seq<Desc>)
    requires SidesOk(pages)
    ensures |Holders(pages, true)|
         == |On(pages, true, Some(Active))| + |On(pages, true, Some(Inactive))| + |On(pages, true, Some(Eviction))|
            + |On(pages, true, Some(DramFree))| + |On(pages, true, None)|
  {
    Peel(pages, true, {}, Active, {Active});
    Peel(pages, true, {Active}, Inactive, {Active, Inactive});
    Peel(pages, true, {Active, Inactive}, Eviction, {Active, Inactive, Eviction});
    Peel(pages, true, {Active, Inactive, Eviction}, DramFree, {Active, Inactive, Eviction, DramFree});
    assert Beside(pages, true, {}) == Holders(pages, true);
    assert Beside(pages, true, {Active, Inactive, Eviction, DramFree}) == On(pages, true, None);
  }

  /** Swap slots: every one is on exactly one of three lists or claimed by a handler. */
  lemma SlotsAccounted(s: State)
    requires Inv(s)
    ensures s.diskSize / PAGE_SIZE
         == |s.lists.At(DiskActive)| + |s.lists.At(DiskFree)| + |s.lists.At(DiskReserve)| + |On(s.pages, false, None)|
  {
    HoldersCount(s, false);
    OnCount(s, DiskActive); OnCount(s, DiskFree); OnCount(s, DiskReserve);
    RolesGiveSides(s.pages);
    PartitionDisk(s.pages);
  }

  lemma DiskListNames(w: ListName)
    ensures !InDramList(w) <==> w == DiskActive || w == DiskFree || w == DiskReserve
  {
  }

  lemma PartitionDisk(pages: seq<Desc>)
    requires SidesOk(pages)
    ensures |Holders(pages, false)|
         == |On(pages, false, Some(DiskActive))| + |On(pages, false, Some(DiskFree))|
            + |On(pages, false, Some(DiskReserve))| + |On(pages, false, None)|
  {
    Peel(pages, false, {}, DiskActive, {DiskActive});
    Peel(pages, false, {DiskActive}, DiskFree, {DiskActive, DiskFree});
    Peel(pages, false, {DiskActive, DiskFree}, DiskReserve, {DiskActive, DiskFree, DiskReserve});
    assert Beside(pages, false, {}) == Holders(pages, false);
    forall i | i in Holders(pages, false)
      ensures i in Beside(pages, false, {DiskActive, DiskFree, DiskReserve}) <==> i in On(pages, false, None)
    {
      if pages[i].list.Some? { DiskListNames(pages[i].list.value); }
    }
    assert Beside(pages, false, {DiskActive, DiskFree, DiskReserve}) == On(pages, false, None);
  }

  // ---------------------------------------------------------------- swap space

  /** The mapped page that a disk descriptor in use works for: itself, or the page it reserves. */
  ghost function ServedVa(pages: seq<Desc>, i: Id): nat
    requires i < |pages|
  {
    if pages[i].va != 0 then pages[i].va
    else if pages[i].reserve.Some? && pages[i].reserve.value < |pages| then pages[pages[i].reserve.value].va
    else 0
  }

  lemma ServedVaFacts(s: State, i: Id)
    requires Inv(s) && i < |s.pages| && !s.pages[i].inDram && s.pages[i].list != Some(DiskFree)
    ensures ServedVa(s.pages, i) in s.table
    ensures var p := s.table[ServedVa(s.pages, i)]; p == i || s.pages[i].reserve == Some(p)
  {
    assert RoleOk(s.pages[i]) && Linked(s.pages, i);
    if s.pages[i].va == 0 {
      var r := s.pages[i].reserve.value;
      assert RoleOk(s.pages[r]);
    }
  }

  /** A victim without a reserve on a full disk means that more pages are tracked than
      there are swap slots. */
  lemma FullDiskIsOvercommitted(s: State, v: Id)
    requires Inv(s) && s.lists.At(DiskFree) == []
    requires v < |s.pages| && s.pages[v].va != 0 && s.pages[v].inDram && s.pages[v].reserve == None
    ensures |s.table| > s.diskSize / PAGE_SIZE
  {
    var q := Owners(s, false);
    HoldersCount(s, false);
    var vas := seq(|q|, k requires 0 <= k < |q| => ServedVa(s.pages, q[k]));
    forall k | 0 <= k < |q| ensures vas[k] in s.table.Keys - {s.pages[v].va} { ServesOther(s, q[k], v); }
    forall j, k | 0 <= j < k < |q| ensures vas[j] != vas[k] { ServeApart(s, q[j], q[k]); }
    DistinctCard(vas);
    SubsetCard(SetOf(vas), s.table.Keys - {s.pages[v].va});
    RemoveCard(s.table.Keys, {s.pages[v].va});
  }

  lemma ServesOther(s: State, i: Id, v: Id)
    requires Inv(s) && s.lists.At(DiskFree) == [] && i < |s.pages| && !s.pages[i].inDram
    requires v < |s.pages| && s.pages[v].va != 0 && s.pages[v].inDram && s.pages[v].reserve == None
    ensures ServedVa(s.pages, i) in s.table && ServedVa(s.pages, i) != s.pages[v].va
  {
    InUse(s, i);
    ServedVaFacts(s, i);
    ReserveIsNotVictim(s, i, v);
  }

  lemma ServeApart(s: State, i: Id, j: Id)
    requires Inv(s) && s.lists.At(DiskFree) == [] && i < |s.pages| && j < |s.pages| && i != j
    requires !s.pages[i].inDram && !s.pages[j].inDram
    ensures ServedVa(s.pages, i) != ServedVa(s.pages, j)
  {
    InUse(s, i); InUse(s, j);
    ServedVaFacts(s, i); ServedVaFacts(s, j);
    ServeDifferent(s, i, j);
  }

  lemma InUse(s: State, i: Id)
    requires Inv(s) && i < |s.pages| && s.lists.At(DiskFree) == []
    ensures s.pages[i].list != Some(DiskFree)
  {
  }

  lemma ReserveIsNotVictim(s: State, i: Id, v: Id)
    requires Inv(s) && i < |s.pages| && v < |s.pages|
    requires !s.pages[i].inDram && s.pages[v].inDram && s.pages[v].reserve == None && s.pages[v].va != 0
    requires ServedVa(s.pages, i) in s.table
    requires var p := s.table[ServedVa(s.pages, i)]; p == i || s.pages[i].reserve == Some(p)
    ensures ServedVa(s.pages, i) != s.pages[v].va
  {
    assert Linked(s.pages, i);
  }

  lemma ServeDifferent(s: State, i: Id, j: Id)
    requires Inv(s) && i < |s.pages| && j < |s.pages| && i != j
    requires !s.pages[i].inDram && !s.pages[j].inDram
    requires ServedVa(s.pages, i) in s.table && ServedVa(s.pages, j) in s.table
    requires var p := s.table[ServedVa(s.pages, i)]; p == i || s.pages[i].reserve == Some(p)
    requires var p := s.table[ServedVa(s.pages, j)]; p == j || s.pages[j].reserve == Some(p)
    ensures ServedVa(s.pages, i) != ServedVa(s.pages, j)
  {
    assert Linked(s.pages, i) && Linked(s.pages, j);
  }

  /** While no more pages are tracked than there are swap slots, an eviction with a victim
      is never stopped by the "no disk page found" assert. */
  lemma EvictNeverBlocked(s: State, keep: bool)
    requires Inv(s) && s.lists.At(Eviction) != [] && |s.table| <= s.diskSize / PAGE_SIZE
    ensures Enabled(s, Evict(keep))
  {
    var v := s.lists.At(Eviction)[0];
    assert v in s.lists.At(Eviction);
    assert RoleOk(s.pages[v]) && Linked(s.pages, v) && Backed(s.pages, s.ram, s.dirty, s.store, v);
    if !s.pages[v].hasReserve {
      if s.lists.At(DiskFree) == [] { FullDiskIsOvercommitted(s, v); }
      assert s.lists.At(DiskFree)[0] in s.lists.At(DiskFree);
    }
  }
}
