/** When a fetch of a free frame ends, and with what. */
module Fetch {
  import opened Common
  import opened Queues
  import opened Pager
  import opened PagerInvariant
  import opened FlatMemory
  import opened Conservation
  import opened Reclaim
  import opened Sweep
  import opened Starvation

  /** The frames handlers may hold before the two scanned lists are too short for a reclaim. */
  function Half(dramSize: nat): nat
  {
    HalfBound(dramSize);
    dramSize / PAGE_SIZE - dramSize / (PAGE_SIZE * 2)
  }

  lemma HalfBound(dramSize: nat)
    ensures dramSize / (PAGE_SIZE * 2) <= dramSize / PAGE_SIZE
  {
  }

  /** A frame is free, a victim is waiting, or fewer than half of the frames are held. */
  ghost predicate CanFetch(s: State) {
    s.lists.At(DramFree) != [] || s.lists.At(Eviction) != [] || |On(s.pages, true, None)| < Half(s.dramSize)
  }

  /** No frame is free and no victim is waiting. */
  predicate Bare(s: State) { s.lists.At(DramFree) == [] && s.lists.At(Eviction) == [] }

  /** A turn of the fetch loop would take none of its branches. */
  predicate Stuck(s: State) {
    Bare(s) && |s.lists.At(Active)| + |s.lists.At(Inactive)| <= s.dramSize / (PAGE_SIZE * 2)
  }

  lemma StuckIffCannotFetch(s: State)
    requires Inv(s)
    ensures Stuck(s) <==> !CanFetch(s)
  {
    FramesAccounted(s);
  }

  /** A frame can be fetched, but there is none to take and no turn will find a page to evict. */
  ghost predicate Starved(s: State) { Bare(s) && CanFetch(s) && RunsDry(s) }

  // ------------------------------------------------------------- cold pages

  /** No scan between two points of a run found its page cold. */
  ghost predicate NothingCold(dramSize: nat, diskSize: nat, before: seq<Step>, after: seq<Step>) {
    forall j :: |before| <= j < |after| && after[j].Scan? ==> WarmVisit(dramSize, diskSize, after[..j])
  }

  ghost predicate WarmVisit(dramSize: nat, diskSize: nat, upTo: seq<Step>) {
    var r := Run(dramSize, diskSize, upTo);
    r.Some? && Enabled(r.value, Scan) && Look(r.value).fate != Cold
  }

  /** How many victims wait at the end of a run. */
  ghost function Waiting(dramSize: nat, diskSize: nat, steps: seq<Step>): nat
    requires Run(dramSize, diskSize, steps).Some?
  {
    |Run(dramSize, diskSize, steps).value.lists.At(Eviction)|
  }

  lemma LastGrowth(dramSize: nat, diskSize: nat, after: seq<Step>)
    requires after != [] && Run(dramSize, diskSize, after).Some? && Rescan(after[|after| - 1])
    ensures var n := |after| - 1;
      && Run(dramSize, diskSize, after[..n]).Some?
      && Waiting(dramSize, diskSize, after[..n]) <= Waiting(dramSize, diskSize, after)
      && (after[n].Scan? ==>
            Waiting(dramSize, diskSize, after[..n]) < Waiting(dramSize, diskSize, after)
            || WarmVisit(dramSize, diskSize, after[..n]))
  {
    var n := |after| - 1;
    RunInv(dramSize, diskSize, after[..n]);
    RescanGrowth(Run(dramSize, diskSize, after[..n]).value, after[n]);
  }

  lemma {:induction false} NeverFewer(dramSize: nat, diskSize: nat, before: seq<Step>, after: seq<Step>)
    requires Run(dramSize, diskSize, before).Some? && Run(dramSize, diskSize, after).Some?
    requires Extends(before, after, Rescan)
    ensures Waiting(dramSize, diskSize, before) <= Waiting(dramSize, diskSize, after)
    decreases |after|
  {
    if |before| == |after| {
      assert before == after;
    } else {
      LastGrowth(dramSize, diskSize, after);
      NeverFewer(dramSize, diskSize, before, after[..|after| - 1]);
    }
  }

  /** Rescans that add nothing to the eviction list found nothing cold. */
  lemma {:induction false} NoGrowthNothingCold(dramSize: nat, diskSize: nat, before: seq<Step>, after: seq<Step>)
    requires Run(dramSize, diskSize, before).Some? && Run(dramSize, diskSize, after).Some?
    requires Extends(before, after, Rescan)
    requires Waiting(dramSize, diskSize, after) == Waiting(dramSize, diskSize, before)
    ensures NothingCold(dramSize, diskSize, before, after)
    decreases |after|
  {
    if |before| < |after| {
      var n := |after| - 1;
      LastGrowth(dramSize, diskSize, after);
      NeverFewer(dramSize, diskSize, before, after[..n]);
      NoGrowthNothingCold(dramSize, diskSize, before, after[..n]);
      LastToo(dramSize, diskSize, before, after);
    }
  }

  lemma LastToo(dramSize: nat, diskSize: nat, before: seq<Step>, after: seq<Step>)
    requires after != [] && NothingCold(dramSize, diskSize, before, after[..|after| - 1])
    requires after[|after| - 1].Scan? ==> WarmVisit(dramSize, diskSize, after[..|after| - 1])
    ensures NothingCold(dramSize, diskSize, before, after)
  {
    var n := |after| - 1;
    forall j | |before| <= j < |after| && after[j].Scan? ensures WarmVisit(dramSize, diskSize, after[..j]) {
      if j < n { assert after[..n][..j] == after[..j] && after[..n][j] == after[j]; }
    }
  }

  lemma RescanGrowth(s: State, step: Step)
    requires Inv(s) && Enabled(s, step) && Rescan(step)
    ensures |Next(s, step).lists.At(Eviction)| == |s.lists.At(Eviction)| +
      if step.Scan? && Look(s).fate == Cold then 1 else 0
  {
    if step.Scan? { ScanRescans(s); } else { CoolRescans(s); }
  }

  // --------------------------------------------------------------- outcomes

  /** Why a fetch failed: two failed asserts, which end the process, and a loop that never ends. */
  datatype Failure = NoSlot | OutOfMemory | Hang

  datatype FetchResult = Frame(frame: Id) | Fails(why: Failure)

  /** `f` is now a frame held off every list, and no other frame is that was not before. */
  ghost predicate NewlyHeld(before: seq<Desc>, after: seq<Desc>, f: Id) {
    && |after| == |before| && f < |after|
    && after[f].list == None && after[f].va == 0 && !Still(before[f])
    && On(after, true, None) <= On(before, true, None) + {f}
  }

  /** A fetch that began in `s` after the steps `before` got frame `f`. */
  ghost predicate Fetched(f: Id, before: seq<Step>, s: State, after: seq<Step>, s': State) {
    && Run(s.dramSize, s.diskSize, after) == Some(s') && Extends(before, after, Fetching)
    && NewlyHeld(s.pages, s'.pages, f)
  }

  /** It found no frame: it only rescanned, and none of its scans found a cold page. */
  ghost predicate FoundNone(before: seq<Step>, s: State, after: seq<Step>, s': State) {
    && Run(s.dramSize, s.diskSize, after) == Some(s') && Extends(before, after, Rescan)
    && Starved(s) && Bare(s') && NothingCold(s.dramSize, s.diskSize, before, after)
  }

  /** At the end of a run a victim is waiting that has no slot to go to. */
  ghost predicate NoRoomAt(dramSize: nat, diskSize: nat, steps: seq<Step>) {
    var r := Run(dramSize, diskSize, steps);
    r.Some? && r.value.lists.At(Eviction) != [] && !Enabled(r.value, Evict(true))
  }

  /** Rescanning has led to such a point. */
  ghost predicate NoRoom(dramSize: nat, diskSize: nat, before: seq<Step>) {
    exists steps :: NoRoomAt(dramSize, diskSize, steps) && Extends(before, steps, Rescan)
  }

  lemma NoRoomSince(dramSize: nat, diskSize: nat, before: seq<Step>, from: seq<Step>)
    requires Extends(before, from, Rescan) && NoRoom(dramSize, diskSize, from)
    ensures NoRoom(dramSize, diskSize, before)
  {
    var steps :| NoRoomAt(dramSize, diskSize, steps) && Extends(from, steps, Rescan);
    forall j | |before| <= j < |steps| ensures Rescan(steps[j]) {
      if j < |from| { assert steps[j] == from[j]; }
    }
  }

  /** What its result tells. */
  ghost predicate FetchEnds(r: FetchResult, before: seq<Step>, s: State, after: seq<Step>, s': State) {
    match r
    case Frame(f) => Fetched(f, before, s, after, s')
    case Fails(NoSlot) => |s.table| > s.diskSize / PAGE_SIZE && NoRoom(s.dramSize, s.diskSize, before)
    case Fails(OutOfMemory) => FoundNone(before, s, after, s')
    case Fails(Hang) => !CanFetch(s) && s' == s && after == before
  }

  /** Two states alike in what a fetch looks at. */
  ghost predicate FetchAlike(s: State, s': State) {
    && s'.dramSize == s.dramSize && |s'.pages| == |s.pages| && s'.accessed == s.accessed
    && (forall w :: w != DiskActive ==> s'.lists.At(w) == s.lists.At(w))
    && (forall i :: 0 <= i < |s.pages| ==> ScannedAlike(s.pages[i], s'.pages[i]))
    && On(s'.pages, true, None) == On(s.pages, true, None)
  }

  predicate ScannedAlike(d: Desc, d': Desc) {
    d'.va == d.va && d'.naccesses == d.naccesses && (d'.list == Some(Inactive) <==> d.list == Some(Inactive))
  }

  lemma {:induction false} AlikeRipes(s: State, s': State, k: nat)
    requires FetchAlike(s, s')
    ensures Ripes(s', k) == Ripes(s, k)
  {
    if k > 0 {
      AlikeRipes(s, s', k - 1);
      var q := s.lists.At(Inactive);
      if k <= |q| && q[k - 1] < |s.pages| { assert ScannedAlike(s.pages[q[k - 1]], s'.pages[q[k - 1]]); }
    }
  }

  lemma AlikeStale(s: State, s': State)
    requires FetchAlike(s, s')
    ensures Stale(s') == Stale(s)
  {
    forall i | 0 <= i < |s.pages| ensures i in Stale(s') <==> i in Stale(s) {
      assert ScannedAlike(s.pages[i], s'.pages[i]);
    }
  }

  lemma AlikeWarm(s: State, s': State, k: nat)
    requires FetchAlike(s, s')
    ensures WarmTo(s', k) == WarmTo(s, k)
  {
    assert forall i :: 0 <= i < |s.pages| ==> s'.pages[i].va == s.pages[i].va by {
      assert forall i :: 0 <= i < |s.pages| ==> ScannedAlike(s.pages[i], s'.pages[i]);
    }
  }

  lemma AlikeFetch(s: State, s': State)
    requires FetchAlike(s, s')
    ensures CanFetch(s') == CanFetch(s) && Bare(s') == Bare(s) && Starved(s') == Starved(s)
  {
    AlikeStale(s, s');
    AlikeRipes(s, s', Reach(Inactives(s)));
    AlikeWarm(s, s', Reach(Inactives(s)));
  }

  /** With one frame, and that frame held, no further frame can be fetched. */
  lemma FetchCanHang()
    ensures var r := Run(PAGE_SIZE, PAGE_SIZE, [TakeFrame]);
      r.Some? && !CanFetch(r.value)
  {
    RunInv(PAGE_SIZE, PAGE_SIZE, [TakeFrame]);
    StuckIffCannotFetch(Run(PAGE_SIZE, PAGE_SIZE, [TakeFrame]).value);
  }

  /** A page mapped by first touch, with its accessed bit set. */
  function Touched(frame: Id, va: nat): Step { FirstTouch(frame, va, Bits(true, true)) }

  lemma OneFrameHeld()
    ensures var r := Run(PAGE_SIZE, PAGE_SIZE, [TakeFrame]);
      && r.Some? && Held(r.value, 0) && r.value.table == map[]
      && (forall w :: w != DiskFree ==> r.value.lists.At(w) == [])
  {
    var s := Init(PAGE_SIZE, PAGE_SIZE);
    assert Run(PAGE_SIZE, PAGE_SIZE, []) == Some(s) && [TakeFrame][..0] == [];
    assert s.lists.At(DramFree) == [0];
    DropHead(s.lists.At(DramFree));
  }

  lemma TouchQueues(s: State, va: nat)
    requires Enabled(s, Touched(0, va)) && forall w :: w != DiskFree ==> s.lists.At(w) == []
    ensures var s' := Next(s, Touched(0, va));
      Bare(s') && s'.dramSize == s.dramSize && s'.lists.At(Inactive) == [0] && s'.lists.At(Active) == []
  {
    var s' := Next(s, Touched(0, va));
    assert s'.lists == Move(s.lists, 0, None, Some(Inactive));
    assert s'.lists == s.lists.With(Inactive, s.lists.At(Inactive) + [0]);
    assert forall w :: w != Inactive ==> s'.lists.At(w) == s.lists.At(w);
  }

  /** With one frame, and a page mapped over it, the next fetch is out of memory. */
  lemma OneFrameStarves()
    ensures var r := Run(PAGE_SIZE, PAGE_SIZE, [TakeFrame, Touched(0, PAGE_SIZE)]);
      r.Some? && Starved(r.value)
  {
    var steps := [TakeFrame, Touched(0, PAGE_SIZE)];
    assert steps[..1] == [TakeFrame];
    OneFrameHeld();
    var s := Run(PAGE_SIZE, PAGE_SIZE, [TakeFrame]).value;
    assert Enabled(s, steps[1]);
    TouchQueues(s, PAGE_SIZE);
    var s' := Next(s, steps[1]);
    assert Run(PAGE_SIZE, PAGE_SIZE, steps) == Some(s');
    RunInv(PAGE_SIZE, PAGE_SIZE, steps);
    StuckIffCannotFetch(s');
  }
}
