/** What the flags of a descriptor, the kernel's bits, the order of the lists and the frames in
    handlers' hands say about the run that led to them. */
module History {
  import opened Common
  import opened Queues
  import opened Pager
  import opened PagerInvariant
  import opened FlatMemory
  import opened Conservation
  import opened Flow

  // ------------------------------------------------------------- frames in hand

  /** A handler gets a frame. */
  predicate Takes(step: Step) { step.TakeFrame? || step == Evict(true) }

  /** A handler puts a frame back or to use. */
  predicate Gives(step: Step) { step.PutFrame? || step.FirstTouch? || step.SwapIn? }

  lemma StepHands(s: State, step: Step)
    requires Inv(s) && Enabled(s, step)
    ensures |InHand(Next(s, step))| + (if Gives(step) then 1 else 0) == |InHand(s)| + if Takes(step) then 1 else 0
  {
    match step
    case Load(_) =>
    case Store(_, _) =>
    case Cool => CoolHands(s);
    case Scan => ScanFlow(s);
    case Evict(keep) => EvictHands(s, keep);
    case TakeFrame => TakeHands(s);
    case Protect(f) => MarkHands(s, f);
    case PutFrame(f) => PutHands(s, f);
    case FirstTouch(f, va, bits) => TouchHands(s, f, va, bits);
    case Claim(va) => MarkHands(s, s.table[va]);
    case Detach(p) => DetachHands(s, p);
    case SwapIn(p, f, bits) => SwapInHands(s, p, f, bits);
    case Unmap(va) => UnmapKeepsHands(s, va);
  }

  lemma CoolHands(s: State)
    requires Inv(s) && Enabled(s, Cool)
    ensures InHand(Next(s, Cool)) == InHand(s)
  {
    CoolFlow(s);
  }

  lemma TakeHands(s: State)
    requires Inv(s) && Enabled(s, TakeFrame)
    ensures |InHand(Next(s, TakeFrame))| == |InHand(s)| + 1
  {
    TakeFlow(s);
  }

  lemma MarkHands(s: State, id: Id)
    requires id < |s.pages|
    ensures InHand(Mark(s, id)) == InHand(s)
  {
  }

  lemma PutHands(s: State, f: Id)
    requires Inv(s) && Enabled(s, PutFrame(f))
    ensures |InHand(Next(s, PutFrame(f)))| + 1 == |InHand(s)|
  {
    PutFlow(s, f);
  }

  lemma TouchHands(s: State, f: Id, va: nat, bits: Bits)
    requires Inv(s) && Enabled(s, FirstTouch(f, va, bits))
    ensures |InHand(Next(s, FirstTouch(f, va, bits)))| + 1 == |InHand(s)|
  {
    TouchFlow(s, f, va, bits);
  }

  lemma DetachHands(s: State, p: Id)
    requires Inv(s) && Enabled(s, Detach(p))
    ensures InHand(Next(s, Detach(p))) == InHand(s)
  {
    DetachFlow(s, p);
  }

  lemma SwapInHands(s: State, p: Id, f: Id, bits: Bits)
    requires Inv(s) && Enabled(s, SwapIn(p, f, bits))
    ensures |InHand(Next(s, SwapIn(p, f, bits)))| + 1 == |InHand(s)|
  {
    SwapInFlow(s, p, f, bits);
  }

  lemma UnmapKeepsHands(s: State, va: nat)
    requires Inv(s) && Enabled(s, Unmap(va))
    ensures InHand(Next(s, Unmap(va))) == InHand(s)
  {
    UnmapFlow(s, va);
  }

  lemma EvictHands(s: State, keep: bool)
    requires Inv(s) && Enabled(s, Evict(keep))
    ensures |InHand(Next(s, Evict(keep)))| == |InHand(s)| + if keep then 1 else 0
  {
    EvictPair(s, keep);
    EvictTrade(s, keep);
    var v := s.lists.At(Eviction)[0];
    TradeHands(s.pages, v, Target(s, v).value, keep);
  }

  lemma TradeHands(pages: seq<Desc>, v: Id, t: Id, keep: bool)
    requires v < |pages| && t < |pages| && v != t && pages[v].inDram && !pages[t].inDram && pages[v].list.Some?
    ensures |On(TradedPages(pages, v, t, keep), true, None)| == |On(pages, true, None)| + if keep then 1 else 0
  {
    EvictPlaces(pages, v, t, keep);
    assert t !in On(pages, true, None);
  }

  /** In every run the frames in handlers' hands are those taken and not yet put back or to
      use: an eviction worker frees its frame, an unmapping frees the page's, and nothing else
      takes one off the lists. */
  lemma {:induction false} HeldIsTakenNotGiven(dramSize: nat, diskSize: nat, steps: seq<Step>)
    requires Run(dramSize, diskSize, steps).Some?
    ensures |InHand(Run(dramSize, diskSize, steps).value)| + Count(steps, Gives) == Count(steps, Takes)
  {
    if steps == [] {
      assert InHand(Init(dramSize, diskSize)) == {};
    } else {
      var n := |steps| - 1;
      HeldIsTakenNotGiven(dramSize, diskSize, steps[..n]);
      RunInv(dramSize, diskSize, steps[..n]);
      StepHands(Run(dramSize, diskSize, steps[..n]).value, steps[n]);
    }
  }

  // ---------------------------------------------------------------- access count

  /** The visits of the inactive scan that found page `id` accessed and put it back, since it
      was last moved down, or a visit last sent it elsewhere. */
  ghost function Hits(dramSize: nat, diskSize: nat, steps: seq<Step>, id: Id): nat
    requires Run(dramSize, diskSize, steps).Some?
  {
    if steps == [] then 0
    else
      var (front, step) := (steps[..|steps| - 1], steps[|steps| - 1]);
      var (s, s') := (Run(dramSize, diskSize, front).value, Run(dramSize, diskSize, steps).value);
      if step.Cool? && s.lists.At(Active)[0] == id then 0
      else if step.Scan? && s.lists.At(Inactive)[0] == id then
        if id in s'.lists.At(Inactive) then Hits(dramSize, diskSize, front, id) + 1 else 0
      else Hits(dramSize, diskSize, front, id)
  }

  lemma VisitCounts(s: State)
    requires Inv(s) && Enabled(s, Scan)
    ensures var (id, s') := (s.lists.At(Inactive)[0], Next(s, Scan));
      && (id in s'.lists.At(Inactive) <==> s.pages[id].va in s.accessed && s.pages[id].naccesses == 0)
      && (id in s'.lists.At(Active) <==> s.pages[id].va in s.accessed && s.pages[id].naccesses >= 1)
      && (id in s'.lists.At(Eviction) <==> s.pages[id].va !in s.accessed)
      && s'.pages[id].naccesses == (if id in s'.lists.At(Inactive) then s.pages[id].naccesses + 1 else 0)
  {
    OnList(s, Inactive);
    StepInv(s, Scan);
    var (id, s') := (s.lists.At(Inactive)[0], Next(s, Scan));
    forall w ensures id in s'.lists.At(w) <==> s'.pages[id].list == Some(w) { ListedWhere(s', id, w); }
  }

  lemma ListedWhere(s: State, id: Id, w: ListName)
    requires Filed(s.lists, Homes(s.pages)) && id < |s.pages|
    ensures id in s.lists.At(w) <==> s.pages[id].list == Some(w)
  {
    assert Homes(s.pages)[id] == s.pages[id].list;
  }

  lemma CountsKept(s: State, step: Step, id: Id)
    requires Inv(s) && Enabled(s, step) && id < |s.pages|
    requires !(step.Cool? && s.lists.At(Active)[0] == id) && !(step.Scan? && s.lists.At(Inactive)[0] == id)
    ensures |Next(s, step).pages| == |s.pages| && Next(s, step).pages[id].naccesses == s.pages[id].naccesses
  {
    match step
    case Evict(keep) => EvictCounts(s, keep, id);
    case SwapIn(p, f, bits) => SwapInCounts(s, p, f, bits, id);
    case Unmap(va) => UnmapCounts(s, va, id);
    case FirstTouch(f, va, bits) => TouchCounts(s, f, va, bits, id);
    case _ => OwnCounts(s, step, id);
  }

  /** Steps that change one descriptor's list or mark. */
  lemma OwnCounts(s: State, step: Step, id: Id)
    requires Enabled(s, step) && id < |s.pages| && !step.Evict? && !step.SwapIn? && !step.Unmap? && !step.FirstTouch?
    requires !(step.Cool? && s.lists.At(Active)[0] == id) && !(step.Scan? && s.lists.At(Inactive)[0] == id)
    ensures |Next(s, step).pages| == |s.pages| && Next(s, step).pages[id].naccesses == s.pages[id].naccesses
  {
  }

  lemma EvictCounts(s: State, keep: bool, id: Id)
    requires Inv(s) && Enabled(s, Evict(keep)) && id < |s.pages|
    ensures var s' := Next(s, Evict(keep)); |s'.pages| == |s.pages| && s'.pages[id].naccesses == s.pages[id].naccesses
  {
    EvictTrade(s, keep);
  }

  lemma TouchCounts(s: State, f: Id, va: nat, bits: Bits, id: Id)
    requires Inv(s) && Enabled(s, FirstTouch(f, va, bits)) && id < |s.pages|
    ensures var s' := Next(s, FirstTouch(f, va, bits));
      |s'.pages| == |s.pages| && s'.pages[id].naccesses == s.pages[id].naccesses
  {
    FirstTouchFiled(s, f, va, bits);
  }

  lemma SwapInCounts(s: State, p: Id, f: Id, bits: Bits, id: Id)
    requires Inv(s) && Enabled(s, SwapIn(p, f, bits)) && id < |s.pages|
    ensures var s' := Next(s, SwapIn(p, f, bits));
      |s'.pages| == |s.pages| && s'.pages[id].naccesses == s.pages[id].naccesses
  {
    SwapInFiled(s, p, f, bits, s.store[s.pages[p].offset]);
  }

  lemma UnmapCounts(s: State, va: nat, id: Id)
    requires Inv(s) && Enabled(s, Unmap(va)) && id < |s.pages|
    ensures var s' := Next(s, Unmap(va)); |s'.pages| == |s.pages| && s'.pages[id].naccesses == s.pages[id].naccesses
  {
    UnmapReserve(s, va);
    UnmapFiled(s, va);
  }

  lemma {:induction false} CountIsHits(dramSize: nat, diskSize: nat, steps: seq<Step>, id: Id)
    requires Run(dramSize, diskSize, steps).Some? && id < dramSize / PAGE_SIZE + diskSize / PAGE_SIZE
    ensures var s := Run(dramSize, diskSize, steps).value;
      id < |s.pages| && s.pages[id].naccesses == Hits(dramSize, diskSize, steps, id)
  {
    RunInv(dramSize, diskSize, steps);
    if steps != [] {
      var (front, step) := (steps[..|steps| - 1], steps[|steps| - 1]);
      CountIsHits(dramSize, diskSize, front, id);
      RunInv(dramSize, diskSize, front);
      var s := Run(dramSize, diskSize, front).value;
      if step.Scan? && s.lists.At(Inactive)[0] == id {
        VisitCounts(s);
      } else if !(step.Cool? && s.lists.At(Active)[0] == id) {
        CountsKept(s, step, id);
      }
    }
  }

  /** Whatever has gone before, a visit sends the page to the eviction list exactly if it was
      not accessed, to the active list exactly if it was and an earlier visit that put it back
      had found it accessed too, and back otherwise. */
  lemma SecondHitPromotes(dramSize: nat, diskSize: nat, steps: seq<Step>)
    requires Run(dramSize, diskSize, steps + [Scan]).Some?
    ensures Run(dramSize, diskSize, steps).Some?
    ensures var (s, s') := (Run(dramSize, diskSize, steps).value, Run(dramSize, diskSize, steps + [Scan]).value);
      && s.lists.At(Inactive) != []
      && var (id, hits) := (s.lists.At(Inactive)[0], Hits(dramSize, diskSize, steps, s.lists.At(Inactive)[0]));
      && id < |s.pages|
      && (id in s'.lists.At(Eviction) <==> s.pages[id].va !in s.accessed)
      && (id in s'.lists.At(Active) <==> s.pages[id].va in s.accessed && hits > 0)
      && (id in s'.lists.At(Inactive) <==> s.pages[id].va in s.accessed && hits == 0)
  {
    assert (steps + [Scan])[..|steps|] == steps;
    var s := Run(dramSize, diskSize, steps).value;
    RunInv(dramSize, diskSize, steps);
    OnList(s, Inactive);
    SameLength(dramSize, diskSize, steps);
    CountIsHits(dramSize, diskSize, steps, s.lists.At(Inactive)[0]);
    VisitCounts(s);
  }

  /** The scan visits descriptor `id`. */
  ghost predicate Visits(dramSize: nat, diskSize: nat, steps: seq<Step>, k: nat, id: Id)
    requires k < |steps|
  {
    var r := Run(dramSize, diskSize, steps[..k]);
    r.Some? && steps[k].Scan? && r.value.lists.At(Inactive) != [] && r.value.lists.At(Inactive)[0] == id
  }

  /** The `k`-th step neither visits `id` nor moves it down. */
  ghost predicate Passes(dramSize: nat, diskSize: nat, steps: seq<Step>, k: nat, id: Id)
    requires k < |steps|
  {
    var r := Run(dramSize, diskSize, steps[..k]);
    && !Visits(dramSize, diskSize, steps, k, id)
    && !(r.Some? && steps[k].Cool? && r.value.lists.At(Active) != [] && r.value.lists.At(Active)[0] == id)
  }

  ghost predicate PassedOver(dramSize: nat, diskSize: nat, steps: seq<Step>, i: nat, id: Id) {
    forall k :: i <= k < |steps| ==> Passes(dramSize, diskSize, steps, k, id)
  }

  lemma PassesPrefix(dramSize: nat, diskSize: nat, steps: seq<Step>, i: nat, id: Id)
    requires i < |steps| && PassedOver(dramSize, diskSize, steps, i, id)
    ensures PassedOver(dramSize, diskSize, steps[..|steps| - 1], i, id)
  {
    var n := |steps| - 1;
    forall k | i <= k < n ensures Passes(dramSize, diskSize, steps[..n], k, id) {
      assert Passes(dramSize, diskSize, steps, k, id) && steps[..n][..k] == steps[..k];
    }
  }

  lemma {:induction false} HitsStay(dramSize: nat, diskSize: nat, steps: seq<Step>, i: nat, id: Id)
    requires Run(dramSize, diskSize, steps).Some? && i <= |steps|
    requires PassedOver(dramSize, diskSize, steps, i, id)
    ensures Run(dramSize, diskSize, steps[..i]).Some?
    ensures Hits(dramSize, diskSize, steps, id) == Hits(dramSize, diskSize, steps[..i], id)
  {
    if i == |steps| {
      assert steps[..i] == steps;
    } else {
      var n := |steps| - 1;
      PassesPrefix(dramSize, diskSize, steps, i, id);
      HitsStay(dramSize, diskSize, steps[..n], i, id);
      assert Passes(dramSize, diskSize, steps, n, id) && steps[..n][..i] == steps[..i];
    }
  }

  /** A page that one visit put back and that the next visit finds accessed is promoted by it,
      whatever happens in between. */
  lemma SeenTwiceIsPromoted(dramSize: nat, diskSize: nat, steps: seq<Step>, i: nat, id: Id)
    requires Run(dramSize, diskSize, steps + [Scan]).Some? && i < |steps| && Visits(dramSize, diskSize, steps, i, id)
    requires var r := Run(dramSize, diskSize, steps[..i + 1]); r.Some? && id in r.value.lists.At(Inactive)
    requires PassedOver(dramSize, diskSize, steps, i + 1, id)
    requires var r := Run(dramSize, diskSize, steps);
      && r.Some? && r.value.lists.At(Inactive) != [] && r.value.lists.At(Inactive)[0] == id < |r.value.pages|
      && r.value.pages[id].va in r.value.accessed
    ensures id in Run(dramSize, diskSize, steps + [Scan]).value.lists.At(Active)
  {
    assert steps[..i + 1][..i] == steps[..i];
    assert Hits(dramSize, diskSize, steps[..i + 1], id) > 0;
    HitsStay(dramSize, diskSize, steps, i + 1, id);
    SecondHitPromotes(dramSize, diskSize, steps);
  }

  lemma StepSizes(s: State, step: Step)
    requires Enabled(s, step)
    ensures Next(s, step).dramSize == s.dramSize && Next(s, step).diskSize == s.diskSize
  {
  }

  lemma {:induction false} SameLength(dramSize: nat, diskSize: nat, steps: seq<Step>)
    requires Run(dramSize, diskSize, steps).Some?
    ensures var s := Run(dramSize, diskSize, steps).value;
      s.dramSize == dramSize && s.diskSize == diskSize && |s.pages| == dramSize / PAGE_SIZE + diskSize / PAGE_SIZE
  {
    RunInv(dramSize, diskSize, steps);
    if steps != [] {
      var n := |steps| - 1;
      SameLength(dramSize, diskSize, steps[..n]);
      StepSizes(Run(dramSize, diskSize, steps[..n]).value, steps[n]);
    }
  }

  // ------------------------------------------------------------------ kernel bits

  /** The address of the page at the head of a list. */
  ghost function HeadVa(s: State, w: ListName): nat
    requires s.lists.At(w) != [] && s.lists.At(w)[0] < |s.pages|
  {
    s.pages[s.lists.At(w)[0]].va
  }

  /** A set of addresses after a page was mapped with a bit. */
  function Mapping(vas: set<nat>, va: nat, bit: bool): set<nat> { if bit then vas + {va} else vas - {va} }

  /** What a step does to the set of pages in use: a load or store uses a page; a visit, an
      eviction and an unmapping end it; a mapping leaves what the kernel says. */
  ghost function Using(s: State, step: Step, used: set<nat>): set<nat>
    requires Enabled(s, step)
  {
    match step
    case Load(va) => used + {va}
    case Store(addr, _) => used + {PageOf(addr)}
    case Scan => used - {HeadVa(s, Inactive)}
    case Evict(_) => used - {HeadVa(s, Eviction)}
    case FirstTouch(_, va, bits) => Mapping(used, va, bits.accessed)
    case SwapIn(p, _, bits) => Mapping(used, s.pages[p].va, bits.accessed)
    case Unmap(va) => used - {va}
    case _ => used
  }

  /** What it does to the set of pages that differ from their copy on the store. */
  ghost function Altering(s: State, step: Step, altered: set<nat>): set<nat>
    requires Enabled(s, step)
  {
    match step
    case Store(addr, _) => altered + {PageOf(addr)}
    case Evict(_) => altered - {HeadVa(s, Eviction)}
    case FirstTouch(_, va, bits) => Mapping(altered, va, bits.dirty)
    case SwapIn(p, _, bits) => Mapping(altered, s.pages[p].va, bits.dirty)
    case Unmap(va) => altered - {va}
    case _ => altered
  }

  /** The pages used since they were last visited, or mapped without the bit. */
  ghost function Used(dramSize: nat, diskSize: nat, steps: seq<Step>): set<nat>
    requires Run(dramSize, diskSize, steps).Some?
  {
    if steps == [] then {}
    else
      var n := |steps| - 1;
      Using(Run(dramSize, diskSize, steps[..n]).value, steps[n], Used(dramSize, diskSize, steps[..n]))
  }

  /** The pages stored to since they were mapped, or mapped with the bit. */
  ghost function Altered(dramSize: nat, diskSize: nat, steps: seq<Step>): set<nat>
    requires Run(dramSize, diskSize, steps).Some?
  {
    if steps == [] then {}
    else
      var n := |steps| - 1;
      Altering(Run(dramSize, diskSize, steps[..n]).value, steps[n], Altered(dramSize, diskSize, steps[..n]))
  }

  lemma StepBits(s: State, step: Step)
    requires Enabled(s, step)
    ensures Next(s, step).accessed == Using(s, step, s.accessed)
    ensures Next(s, step).dirty == Altering(s, step, s.dirty)
  {
  }

  /** In every run the accessed bits tell which pages were used, and the dirty bits which were
      stored to. */
  lemma {:induction false} BitsTellUse(dramSize: nat, diskSize: nat, steps: seq<Step>)
    requires Run(dramSize, diskSize, steps).Some?
    ensures Run(dramSize, diskSize, steps).value.accessed == Used(dramSize, diskSize, steps)
    ensures Run(dramSize, diskSize, steps).value.dirty == Altered(dramSize, diskSize, steps)
  {
    if steps != [] {
      var n := |steps| - 1;
      BitsTellUse(dramSize, diskSize, steps[..n]);
      StepBits(Run(dramSize, diskSize, steps[..n]).value, steps[n]);
    }
  }

  /** The step visits, evicts, maps or unmaps the page at `va`. */
  ghost predicate Meets(s: State, step: Step, va: nat)
    requires Enabled(s, step)
  {
    match step
    case Scan => HeadVa(s, Inactive) == va
    case Evict(_) => HeadVa(s, Eviction) == va
    case FirstTouch(_, u, _) => u == va
    case SwapIn(p, _, _) => s.pages[p].va == va
    case Unmap(u) => u == va
    case _ => false
  }

  predicate Touches(step: Step, va: nat) {
    match step
    case Load(u) => u == va
    case Store(addr, _) => PageOf(addr) == va
    case _ => false
  }

  lemma StaysUsed(s: State, step: Step, va: nat)
    requires Enabled(s, step) && (Touches(step, va) || (va in s.accessed && !Meets(s, step, va)))
    ensures va in Next(s, step).accessed
  {
  }

  ghost predicate MissesAt(dramSize: nat, diskSize: nat, steps: seq<Step>, j: nat, va: nat)
    requires j < |steps|
  {
    var r := Run(dramSize, diskSize, steps[..j]);
    r.Some? && Enabled(r.value, steps[j]) && !Meets(r.value, steps[j], va)
  }

  /** No step of the run from the `k`-th on meets the page. */
  ghost predicate Unmet(dramSize: nat, diskSize: nat, steps: seq<Step>, k: nat, va: nat) {
    forall j :: k <= j < |steps| ==> MissesAt(dramSize, diskSize, steps, j, va)
  }

  lemma UnmetPrefix(dramSize: nat, diskSize: nat, steps: seq<Step>, k: nat, va: nat)
    requires steps != [] && Unmet(dramSize, diskSize, steps, k, va)
    ensures Unmet(dramSize, diskSize, steps[..|steps| - 1], k, va)
  {
    var n := |steps| - 1;
    forall j | k <= j < n ensures MissesAt(dramSize, diskSize, steps[..n], j, va) {
      assert MissesAt(dramSize, diskSize, steps, j, va) && steps[..n][..j] == steps[..j];
    }
  }

  /** A page used since the scan last met it is not found cold: the next visit spares it. */
  lemma {:induction false} UsedSinceIsSpared(dramSize: nat, diskSize: nat, steps: seq<Step>, k: nat, va: nat)
    requires Run(dramSize, diskSize, steps).Some? && k < |steps| && Touches(steps[k], va)
    requires Unmet(dramSize, diskSize, steps, k + 1, va)
    ensures var s := Run(dramSize, diskSize, steps).value;
      && va in s.accessed
      && (Enabled(s, Scan) && HeadVa(s, Inactive) == va ==>
            Next(s, Scan).lists.At(Eviction) == s.lists.At(Eviction))
  {
    var n := |steps| - 1;
    var s := Run(dramSize, diskSize, steps[..n]).value;
    if k < n {
      UnmetPrefix(dramSize, diskSize, steps, k + 1, va);
      UsedSinceIsSpared(dramSize, diskSize, steps[..n], k, va);
      assert MissesAt(dramSize, diskSize, steps, n, va);
    }
    StaysUsed(s, steps[n], va);
    SparedVisit(dramSize, diskSize, steps, va);
  }

  lemma SparedVisit(dramSize: nat, diskSize: nat, steps: seq<Step>, va: nat)
    requires Run(dramSize, diskSize, steps).Some? && va in Run(dramSize, diskSize, steps).value.accessed
    ensures var s := Run(dramSize, diskSize, steps).value;
      Enabled(s, Scan) && HeadVa(s, Inactive) == va ==> Next(s, Scan).lists.At(Eviction) == s.lists.At(Eviction)
  {
    var s := Run(dramSize, diskSize, steps).value;
    RunInv(dramSize, diskSize, steps);
    if Enabled(s, Scan) && HeadVa(s, Inactive) == va {
      OnList(s, Inactive);
      MoveHead(s.lists, Inactive, Destination(FateOf(s, s.lists.At(Inactive)[0])));
    }
  }

  // ---------------------------------------------------------------------- claims

  /** The pages claimed and not brought in since. */
  ghost function Claims(dramSize: nat, diskSize: nat, steps: seq<Step>): set<nat>
    requires Run(dramSize, diskSize, steps).Some?
  {
    if steps == [] then {}
    else
      var (front, step) := (steps[..|steps| - 1], steps[|steps| - 1]);
      var claims := Claims(dramSize, diskSize, front);
      match step
      case Claim(va) => claims + {va}
      case SwapIn(p, _, _) => claims - {Run(dramSize, diskSize, front).value.pages[p].va}
      case _ => claims
  }

  predicate IsClaimed(s: State, va: nat) {
    va in s.table && s.table[va] < |s.pages| && s.pages[s.table[va]].migrating
  }

  /** Only a claim marks a page, and only bringing it in releases it. */
  ghost predicate ClaimKept(s: State, step: Step, va: nat)
    requires Enabled(s, step)
  {
    IsClaimed(Next(s, step), va)
    <==> step == Claim(va) || (IsClaimed(s, va) && !(step.SwapIn? && s.pages[step.page].va == va))
  }

  lemma StepClaims(s: State, step: Step, va: nat)
    requires Inv(s) && Enabled(s, step)
    ensures ClaimKept(s, step, va)
  {
    match step
    case Evict(keep) => EvictClaims(s, keep, va);
    case SwapIn(p, f, bits) => SwapInClaims(s, p, f, bits, va);
    case Unmap(gone) => UnmapClaims(s, gone, va);
    case FirstTouch(f, first, bits) => TouchClaims(s, f, first, bits, va);
    case _ => OwnClaims(s, step, va);
  }

  lemma OwnClaims(s: State, step: Step, va: nat)
    requires Inv(s) && Enabled(s, step) && !step.Evict? && !step.SwapIn? && !step.Unmap? && !step.FirstTouch?
    ensures ClaimKept(s, step, va)
  {
    if step.Claim? || step.Protect? {
      MarkClaims(s, step, va);
    } else {
      MoveKeepsClaims(s, step, va);
    }
  }

  lemma MarkClaims(s: State, step: Step, va: nat)
    requires Inv(s) && Enabled(s, step) && (step.Claim? || step.Protect?)
    ensures ClaimKept(s, step, va)
  {
    if va in s.table { assert s.pages[s.table[va]].va == va; }
  }

  lemma MoveKeepsClaims(s: State, step: Step, va: nat)
    requires Enabled(s, step) && !step.Evict? && !step.SwapIn? && !step.Unmap? && !step.FirstTouch?
    requires !step.Claim? && !step.Protect?
    ensures ClaimKept(s, step, va)
  {
  }

  lemma TouchClaims(s: State, f: Id, first: nat, bits: Bits, va: nat)
    requires Inv(s) && Enabled(s, FirstTouch(f, first, bits))
    ensures ClaimKept(s, FirstTouch(f, first, bits), va)
  {
    FirstTouchFiled(s, f, first, bits);
    assert Next(s, FirstTouch(f, first, bits)).table == s.table[first := f];
    if va in s.table { assert s.pages[s.table[va]].va == va; }
  }

  lemma EvictClaims(s: State, keep: bool, va: nat)
    requires Inv(s) && Enabled(s, Evict(keep))
    ensures ClaimKept(s, Evict(keep), va)
  {
    EvictPair(s, keep);
    EvictTrade(s, keep);
    assert RoleOk(s.pages[s.lists.At(Eviction)[0]]);
    if va in s.table { assert s.pages[s.table[va]].va == va; }
  }

  lemma SwapInClaims(s: State, p: Id, f: Id, bits: Bits, va: nat)
    requires Inv(s) && Enabled(s, SwapIn(p, f, bits))
    ensures ClaimKept(s, SwapIn(p, f, bits), va)
  {
    SwapInFiled(s, p, f, bits, s.store[s.pages[p].offset]);
    assert Next(s, SwapIn(p, f, bits)).table == s.table && s.table[s.pages[p].va] == p;
    if va in s.table { assert s.pages[s.table[va]].va == va; }
  }

  lemma UnmapClaims(s: State, gone: nat, va: nat)
    requires Inv(s) && Enabled(s, Unmap(gone))
    ensures ClaimKept(s, Unmap(gone), va)
  {
    UnmapReserve(s, gone);
    UnmapFiled(s, gone);
    assert Next(s, Unmap(gone)).table == s.table - {gone};
    var (p, r) := (s.table[gone], s.pages[s.table[gone]].reserve);
    if r.Some? { assert RoleOk(s.pages[r.value]); }
    if va in s.table && va != gone { UnmapOther(s.pages, p, s.table[va]); }
  }

  lemma UnmapOther(pages: seq<Desc>, p: Id, q: Id)
    requires p < |pages| && RoleOk(pages[p]) && Linked(pages, p) && q < |pages| && q != p && pages[q].va != 0
    requires pages[p].reserve.Some? ==> pages[pages[p].reserve.value].va == 0
    ensures UnmappedPages(pages, p)[q] == pages[q]
  {
  }

  /** In every run the pages marked as migrating are exactly those claimed and not brought in
      since, so an evicted page can be claimed and a page brought in can be evicted again. */
  lemma {:induction false} MarkedIsClaimed(dramSize: nat, diskSize: nat, steps: seq<Step>, va: nat)
    requires Run(dramSize, diskSize, steps).Some?
    ensures IsClaimed(Run(dramSize, diskSize, steps).value, va) <==> va in Claims(dramSize, diskSize, steps)
  {
    if steps != [] {
      var n := |steps| - 1;
      MarkedIsClaimed(dramSize, diskSize, steps[..n], va);
      RunInv(dramSize, diskSize, steps[..n]);
      StepClaims(Run(dramSize, diskSize, steps[..n]).value, steps[n], va);
    }
  }

  // -------------------------------------------------------------- order of arrival

  /** The step has put descriptor `i` on a list, or taken it off one. */
  ghost predicate Rejoins(s: State, step: Step, i: Id)
    requires Enabled(s, step)
  {
    i < |s.pages| && |Next(s, step).pages| == |s.pages|
    && (Next(s, step).pages[i].list != s.pages[i].list || (step.Scan? && s.lists.At(Inactive)[0] == i))
  }

  /** For each descriptor, the number of the step that last put it where it is. */
  ghost function Arrivals(dramSize: nat, diskSize: nat, steps: seq<Step>): (r: seq<nat>)
    requires Run(dramSize, diskSize, steps).Some?
    ensures |r| == dramSize / PAGE_SIZE + diskSize / PAGE_SIZE && forall i :: 0 <= i < |r| ==> r[i] <= |steps|
  {
    if steps == [] then seq(dramSize / PAGE_SIZE + diskSize / PAGE_SIZE, _ => 0)
    else
      var (front, step) := (steps[..|steps| - 1], steps[|steps| - 1]);
      Restamp(Arrivals(dramSize, diskSize, front), Run(dramSize, diskSize, front).value, step, |steps|)
  }

  ghost function Restamp(stamps: seq<nat>, s: State, step: Step, now: nat): (r: seq<nat>)
    requires Enabled(s, step)
    ensures |r| == |stamps|
    ensures forall i :: 0 <= i < |stamps| ==> r[i] == if Rejoins(s, step, i) then now else stamps[i]
  {
    seq(|stamps|, i requires 0 <= i < |stamps| => if Rejoins(s, step, i) then now else stamps[i])
  }

  /** The ids of a list came to it in this order. */
  ghost predicate InOrder(q: seq<Id>, stamps: seq<nat>) {
    && (forall i :: 0 <= i < |q| ==> q[i] < |stamps|)
    && (forall i, j :: 0 <= i < j < |q| ==> stamps[q[i]] <= stamps[q[j]])
  }

  ghost predicate AllInOrder(lists: Lists, stamps: seq<nat>) { forall w :: InOrder(lists.At(w), stamps) }

  lemma {:induction false} DropInOrder(q: seq<Id>, id: Id, stamps: seq<nat>)
    requires InOrder(q, stamps)
    ensures InOrder(Drop(q, id), stamps)
    ensures forall x :: x in Drop(q, id) ==> x in q
  {
    if q != [] {
      TailInOrder(q, stamps);
      if q[0] != id {
        DropInOrder(q[1..], id, stamps);
        PrependInOrder(q[0], Drop(q[1..], id), stamps);
      }
    }
  }

  lemma TailInOrder(q: seq<Id>, stamps: seq<nat>)
    requires q != [] && InOrder(q, stamps)
    ensures InOrder(q[1..], stamps) && q[0] < |stamps|
    ensures forall x :: x in q[1..] ==> x < |stamps| && stamps[q[0]] <= stamps[x]
  {
    forall x | x in q[1..] ensures x < |stamps| && stamps[q[0]] <= stamps[x] {
      var k :| 0 <= k < |q[1..]| && q[1..][k] == x;
      assert q[k + 1] == x;
    }
  }

  lemma PrependInOrder(x: Id, rest: seq<Id>, stamps: seq<nat>)
    requires InOrder(rest, stamps) && x < |stamps|
    requires forall y :: y in rest ==> y < |stamps| && stamps[x] <= stamps[y]
    ensures InOrder([x] + rest, stamps)
  {
    var q := [x] + rest;
    forall i, j | 0 <= i < j < |q| ensures stamps[q[i]] <= stamps[q[j]] {
      assert q[j] == rest[j - 1];
      if i > 0 { assert q[i] == rest[i - 1]; }
    }
  }

  lemma AppendInOrder(q: seq<Id>, id: Id, stamps: seq<nat>, now: nat, joins: bool)
    requires InOrder(q, stamps) && id < |stamps| && id !in q && forall i :: 0 <= i < |stamps| ==> stamps[i] <= now
    ensures InOrder(q + (if joins then [id] else []), stamps[id := now])
  {
    var after := stamps[id := now];
    forall i | 0 <= i < |q| ensures after[q[i]] == stamps[q[i]] <= now {}
  }

  /** Moving one descriptor from its list to the end of another keeps all lists in order. */
  lemma MoveInOrder(lists: Lists, home: seq<Option<ListName>>, id: Id, to: Option<ListName>, stamps: seq<nat>, now: nat)
    requires Filed(lists, home) && id < |home| == |stamps| && AllInOrder(lists, stamps)
    requires forall i :: 0 <= i < |stamps| ==> stamps[i] <= now
    ensures AllInOrder(Move(lists, id, home[id], to), stamps[id := now])
  {
    forall w ensures InOrder(Move(lists, id, home[id], to).At(w), stamps[id := now]) {
      MovedInOrder(lists, home, id, to, stamps, now, w);
    }
  }

  lemma MovedInOrder(lists: Lists, home: seq<Option<ListName>>, id: Id, to: Option<ListName>, stamps: seq<nat>,
                     now: nat, w: ListName)
    requires Filed(lists, home) && id < |home| == |stamps| && InOrder(lists.At(w), stamps)
    requires forall i :: 0 <= i < |stamps| ==> stamps[i] <= now
    ensures InOrder(Move(lists, id, home[id], to).At(w), stamps[id := now])
  {
    var q := Leaves(lists, home, id, stamps, w);
    JoinInOrder(lists, id, home[id], to, q, stamps, now, w);
  }

  lemma JoinInOrder(lists: Lists, id: Id, from: Option<ListName>, to: Option<ListName>, q: seq<Id>, stamps: seq<nat>,
                    now: nat, w: ListName)
    requires q == (if from == Some(w) then Drop(lists.At(w), id) else lists.At(w)) && id !in q && InOrder(q, stamps)
    requires id < |stamps| && forall i :: 0 <= i < |stamps| ==> stamps[i] <= now
    ensures InOrder(Move(lists, id, from, to).At(w), stamps[id := now])
  {
    AppendInOrder(q, id, stamps, now, to == Some(w));
    assert Move(lists, id, from, to).At(w) == q + if to == Some(w) then [id] else [] by {
      MoveAt(lists, id, from, to, w);
    }
  }

  /** What a list is without `id`, if `id` is on it. */
  lemma Leaves(lists: Lists, home: seq<Option<ListName>>, id: Id, stamps: seq<nat>, w: ListName) returns (q: seq<Id>)
    requires Filed(lists, home) && id < |home| && InOrder(lists.At(w), stamps)
    ensures q == if home[id] == Some(w) then Drop(lists.At(w), id) else lists.At(w)
    ensures id !in q && InOrder(q, stamps)
  {
    if home[id] == Some(w) {
      q := Drop(lists.At(w), id);
      DropFacts(lists.At(w), id);
      DropInOrder(lists.At(w), id, stamps);
    } else {
      q := lists.At(w);
    }
  }

  /** The state in which a descriptor `id` may be moved at time `now`. */
  ghost predicate Timely(s: State, stamps: seq<nat>, now: nat) {
    && Filed(s.lists, Homes(s.pages)) && |stamps| == |s.pages| && AllInOrder(s.lists, stamps)
    && forall i :: 0 <= i < |stamps| ==> stamps[i] <= now
  }

  lemma RefileInOrder(s: State, id: Id, d: Desc, stamps: seq<nat>, now: nat)
    requires Timely(s, stamps, now) && id < |s.pages|
    ensures Timely(Refile(s, id, d), stamps[id := now], now)
  {
    MoveInOrder(s.lists, Homes(s.pages), id, d.list, stamps, now);
    RefileFiled(s, id, d);
  }

  /** A step that moves `id` alone. */
  lemma OneMoved(s: State, step: Step, id: Id, d: Desc, stamps: seq<nat>, now: nat)
    requires Timely(s, stamps, now) && Enabled(s, step) && id < |s.pages|
    requires Next(s, step).pages == s.pages[id := d] && Next(s, step).lists == Refile(s, id, d).lists
    requires d.list != s.pages[id].list || (step.Scan? && s.lists.At(Inactive)[0] == id)
    requires step.Scan? ==> s.lists.At(Inactive)[0] == id
    ensures AllInOrder(Next(s, step).lists, Restamp(stamps, s, step, now))
  {
    RefileInOrder(s, id, d, stamps, now);
    assert Restamp(stamps, s, step, now) == stamps[id := now];
  }

  /** A step that moves none. */
  lemma NoneMoved(s: State, step: Step, stamps: seq<nat>, now: nat)
    requires Timely(s, stamps, now) && Enabled(s, step) && !step.Scan?
    requires |Next(s, step).pages| == |s.pages| && Next(s, step).lists == s.lists
    requires forall i :: 0 <= i < |s.pages| ==> Next(s, step).pages[i].list == s.pages[i].list
    ensures AllInOrder(Next(s, step).lists, Restamp(stamps, s, step, now))
  {
    assert Restamp(stamps, s, step, now) == stamps;
  }

  /** A step that moves `a`, then `b`. */
  lemma TwoMoved(s: State, step: Step, a: Id, d: Desc, b: Id, e: Desc, stamps: seq<nat>, now: nat)
    requires Timely(s, stamps, now) && Enabled(s, step) && !step.Scan? && a < |s.pages| && b < |s.pages| && a != b
    requires Next(s, step).pages == s.pages[a := d][b := e]
    requires Next(s, step).lists == Refile(Refile(s, a, d), b, e).lists
    requires d.list != s.pages[a].list && e.list != s.pages[b].list
    ensures AllInOrder(Next(s, step).lists, Restamp(stamps, s, step, now))
  {
    RefileInOrder(s, a, d, stamps, now);
    RefileInOrder(Refile(s, a, d), b, e, stamps[a := now], now);
    TwoStamps(s, step, a, d, b, e, stamps, now);
  }

  lemma TwoStamps(s: State, step: Step, a: Id, d: Desc, b: Id, e: Desc, stamps: seq<nat>, now: nat)
    requires |stamps| == |s.pages| && Enabled(s, step) && !step.Scan? && a < |s.pages| && b < |s.pages| && a != b
    requires Next(s, step).pages == s.pages[a := d][b := e]
    requires d.list != s.pages[a].list && e.list != s.pages[b].list
    ensures Restamp(stamps, s, step, now) == stamps[a := now][b := now]
  {
  }

  lemma StepInOrder(s: State, step: Step, stamps: seq<nat>, now: nat)
    requires Inv(s) && Timely(s, stamps, now) && Enabled(s, step)
    ensures AllInOrder(Next(s, step).lists, Restamp(stamps, s, step, now))
  {
    match step
    case Evict(keep) => EvictInOrder(s, keep, stamps, now);
    case SwapIn(p, f, bits) => SwapInInOrder(s, p, f, bits, stamps, now);
    case Unmap(va) => UnmapInOrder(s, va, stamps, now);
    case FirstTouch(f, va, bits) => OneMoved(s, step, f, MappedPages(s.pages, f, va)[f], stamps, now);
    case Load(_) => NoneMoved(s, step, stamps, now);
    case Store(_, _) => NoneMoved(s, step, stamps, now);
    case Protect(_) => NoneMoved(s, step, stamps, now);
    case Claim(_) => NoneMoved(s, step, stamps, now);
    case _ => RequeueInOrder(s, step, stamps, now);
  }

  /** The steps that move one descriptor and change nothing else of it but its count. */
  lemma RequeueInOrder(s: State, step: Step, stamps: seq<nat>, now: nat)
    requires Inv(s) && Timely(s, stamps, now) && Enabled(s, step)
    requires step.Cool? || step.Scan? || step.TakeFrame? || step.PutFrame? || step.Detach?
    ensures AllInOrder(Next(s, step).lists, Restamp(stamps, s, step, now))
  {
    match step
    case Cool =>
      OnList(s, Active);
      var id := s.lists.At(Active)[0];
      OneMoved(s, step, id, s.pages[id].(naccesses := 0, list := Some(Inactive)), stamps, now);
    case Scan =>
      OnList(s, Inactive);
      var id := s.lists.At(Inactive)[0];
      OneMoved(s, step, id, Scanned(s.pages[id], FateOf(s, id)), stamps, now);
    case TakeFrame =>
      OnList(s, DramFree);
      var f := s.lists.At(DramFree)[0];
      OneMoved(s, step, f, s.pages[f].(list := None), stamps, now);
    case PutFrame(f) => OneMoved(s, step, f, s.pages[f].(list := Some(DramFree)), stamps, now);
    case Detach(p) => OneMoved(s, step, p, s.pages[p].(list := None), stamps, now);
  }

  lemma EvictInOrder(s: State, keep: bool, stamps: seq<nat>, now: nat)
    requires Inv(s) && Timely(s, stamps, now) && Enabled(s, Evict(keep))
    ensures AllInOrder(Next(s, Evict(keep)).lists, Restamp(stamps, s, Evict(keep), now))
  {
    EvictPair(s, keep);
    EvictTrade(s, keep);
    var v := s.lists.At(Eviction)[0];
    var t := Target(s, v).value;
    var (d, e) := (s.pages[v], s.pages[t]);
    TwoMoved(s, Evict(keep), v, Evicted(d, e), t, Vacated(e, d, keep), stamps, now);
  }

  lemma SwapInInOrder(s: State, p: Id, f: Id, bits: Bits, stamps: seq<nat>, now: nat)
    requires Inv(s) && Timely(s, stamps, now) && Enabled(s, SwapIn(p, f, bits))
    ensures AllInOrder(Next(s, SwapIn(p, f, bits)).lists, Restamp(stamps, s, SwapIn(p, f, bits), now))
  {
    SwapInFiled(s, p, f, bits, s.store[s.pages[p].offset]);
    var (d, e) := (s.pages[p], s.pages[f]);
    TwoMoved(s, SwapIn(p, f, bits), f, Reserving(e, d, p), p, BroughtIn(d, e, f), stamps, now);
  }

  lemma UnmapInOrder(s: State, va: nat, stamps: seq<nat>, now: nat)
    requires Inv(s) && Timely(s, stamps, now) && Enabled(s, Unmap(va))
    ensures AllInOrder(Next(s, Unmap(va)).lists, Restamp(stamps, s, Unmap(va), now))
  {
    UnmapReserve(s, va);
    UnmapFiled(s, va);
    var p := s.table[va];
    var d := s.pages[p];
    if d.reserve.Some? {
      var r := d.reserve.value;
      TwoMoved(s, Unmap(va), r, Unreserved(s.pages[r]), p, Unmapped(d), stamps, now);
    } else {
      OneMoved(s, Unmap(va), p, Unmapped(d), stamps, now);
    }
  }

  /** In every run each list is in the order in which its descriptors came to it, so the head,
      which is what leaves next, is the one that has waited longest. */
  lemma {:induction false} ListsAreQueues(dramSize: nat, diskSize: nat, steps: seq<Step>)
    requires Run(dramSize, diskSize, steps).Some?
    ensures AllInOrder(Run(dramSize, diskSize, steps).value.lists, Arrivals(dramSize, diskSize, steps))
  {
    if steps == [] {
      forall w ensures InOrder(Init(dramSize, diskSize).lists.At(w), Arrivals(dramSize, diskSize, [])) {}
    } else {
      var n := |steps| - 1;
      ListsAreQueues(dramSize, diskSize, steps[..n]);
      RunInv(dramSize, diskSize, steps[..n]);
      SameLength(dramSize, diskSize, steps[..n]);
      var stamps := Arrivals(dramSize, diskSize, steps[..n]);
      StepInOrder(Run(dramSize, diskSize, steps[..n]).value, steps[n], stamps, |steps|);
    }
  }

  // ------------------------------------------------------------- clean pages go back

  /** Page `p` at `va` is in DRAM, its reserve `f` has the slot at `off`, and the page has not
      been stored to since it came from there. */
  ghost predicate CleanCopy(s: State, p: Id, f: Id, va: nat, off: nat) {
    && p < |s.pages| && f < |s.pages| && p != f && va != 0 && va !in s.dirty
    && s.pages[p].va == va && s.pages[p].inDram && s.pages[p].reserve == Some(f)
    && s.pages[f].va == 0 && !s.pages[f].inDram && s.pages[f].offset == off
  }

  /** The step leaves the copy clean: it does not store to the page, evict it or unmap it. */
  ghost predicate Spares(s: State, step: Step, va: nat)
    requires Enabled(s, step)
  {
    match step
    case Store(addr, _) => PageOf(addr) != va
    case Evict(_) => HeadVa(s, Eviction) != va
    case Unmap(u) => u != va
    case _ => true
  }

  lemma StaysClean(s: State, step: Step, p: Id, f: Id, va: nat, off: nat)
    requires Inv(s) && Enabled(s, step) && CleanCopy(s, p, f, va, off) && Spares(s, step, va)
    ensures CleanCopy(Next(s, step), p, f, va, off)
  {
    match step
    case Evict(keep) => EvictStaysClean(s, keep, p, f, va, off);
    case SwapIn(q, g, bits) => SwapInStaysClean(s, q, g, bits, p, f, va, off);
    case Unmap(u) => UnmapStaysClean(s, u, p, f, va, off);
    case FirstTouch(g, u, bits) => TouchStaysClean(s, g, u, bits, p, f, va, off);
    case _ => OwnStaysClean(s, step, p, f, va, off);
  }

  lemma OwnStaysClean(s: State, step: Step, p: Id, f: Id, va: nat, off: nat)
    requires Enabled(s, step) && CleanCopy(s, p, f, va, off) && (step.Store? ==> PageOf(step.addr) != va)
    requires !step.Evict? && !step.SwapIn? && !step.Unmap? && !step.FirstTouch?
    ensures CleanCopy(Next(s, step), p, f, va, off)
  {
  }

  lemma SwapInStaysClean(s: State, q: Id, g: Id, bits: Bits, p: Id, f: Id, va: nat, off: nat)
    requires Inv(s) && Enabled(s, SwapIn(q, g, bits)) && CleanCopy(s, p, f, va, off)
    ensures CleanCopy(Next(s, SwapIn(q, g, bits)), p, f, va, off)
  {
    SwapInFiled(s, q, g, bits, s.store[s.pages[q].offset]);
    assert RoleOk(s.pages[q]) && RoleOk(s.pages[g]) && RoleOk(s.pages[p]) && s.table[va] == p;
  }

  lemma TouchStaysClean(s: State, g: Id, u: nat, bits: Bits, p: Id, f: Id, va: nat, off: nat)
    requires Inv(s) && Enabled(s, FirstTouch(g, u, bits)) && CleanCopy(s, p, f, va, off)
    ensures CleanCopy(Next(s, FirstTouch(g, u, bits)), p, f, va, off)
  {
    FirstTouchFiled(s, g, u, bits);
    assert RoleOk(s.pages[g]) && s.table[va] == p;
  }

  lemma EvictStaysClean(s: State, keep: bool, p: Id, f: Id, va: nat, off: nat)
    requires Inv(s) && Enabled(s, Evict(keep)) && CleanCopy(s, p, f, va, off) && HeadVa(s, Eviction) != va
    ensures CleanCopy(Next(s, Evict(keep)), p, f, va, off)
  {
    EvictApart(s, keep, p, f, va, off);
    EvictTrade(s, keep);
    assert Next(s, Evict(keep)).dirty <= s.dirty;
  }

  lemma EvictApart(s: State, keep: bool, p: Id, f: Id, va: nat, off: nat)
    requires Inv(s) && Enabled(s, Evict(keep)) && CleanCopy(s, p, f, va, off) && HeadVa(s, Eviction) != va
    ensures var v := s.lists.At(Eviction)[0];
      var t := Target(s, v).value;
      v < |s.pages| && t < |s.pages| && v != t && p != v && p != t && f != v && f != t
  {
    EvictPair(s, keep);
    assert Linked(s.pages, p) && Linked(s.pages, s.lists.At(Eviction)[0]);
    assert RoleOk(s.pages[f]);
  }

  lemma UnmapStaysClean(s: State, u: nat, p: Id, f: Id, va: nat, off: nat)
    requires Inv(s) && Enabled(s, Unmap(u)) && CleanCopy(s, p, f, va, off) && u != va
    ensures CleanCopy(Next(s, Unmap(u)), p, f, va, off)
  {
    UnmapReserve(s, u);
    UnmapFiled(s, u);
    assert Linked(s.pages, p) && Linked(s.pages, s.table[u]) && s.table[va] == p;
  }

  ghost predicate SparesAt(s: State, steps: seq<Step>, k: nat, va: nat)
    requires k < |steps|
  {
    var r := Exec(s, steps[..k]);
    r.Some? && Enabled(r.value, steps[k]) && Spares(r.value, steps[k], va)
  }

  ghost predicate AllSpare(s: State, steps: seq<Step>, va: nat) {
    forall k :: 0 <= k < |steps| ==> SparesAt(s, steps, k, va)
  }

  lemma SparePrefix(s: State, steps: seq<Step>, va: nat)
    requires steps != [] && AllSpare(s, steps, va)
    ensures AllSpare(s, steps[..|steps| - 1], va)
  {
    var n := |steps| - 1;
    forall k | 0 <= k < n ensures SparesAt(s, steps[..n], k, va) {
      assert SparesAt(s, steps, k, va) && steps[..n][..k] == steps[..k];
    }
  }

  lemma {:induction false} RunStaysClean(s: State, steps: seq<Step>, p: Id, f: Id, va: nat, off: nat)
    requires Inv(s) && CleanCopy(s, p, f, va, off) && Exec(s, steps).Some? && AllSpare(s, steps, va)
    ensures CleanCopy(Exec(s, steps).value, p, f, va, off)
  {
    if steps != [] {
      var n := |steps| - 1;
      SparePrefix(s, steps, va);
      RunStaysClean(s, steps[..n], p, f, va, off);
      ExecInv(s, steps[..n]);
      assert SparesAt(s, steps, n, va);
      StaysClean(Exec(s, steps[..n]).value, steps[n], p, f, va, off);
    }
  }

  /** A page brought in clean and evicted again without a store to it, whatever happens in
      between, goes back to the very slot it came from, and nothing is written. */
  lemma CleanPageGoesBack(s: State, p: Id, f: Id, bits: Bits, steps: seq<Step>, keep: bool)
    requires Inv(s) && Enabled(s, SwapIn(p, f, bits)) && !bits.dirty
    requires Exec(Next(s, SwapIn(p, f, bits)), steps).Some?
    requires AllSpare(Next(s, SwapIn(p, f, bits)), steps, s.pages[p].va)
    requires var s2 := Exec(Next(s, SwapIn(p, f, bits)), steps).value;
      Enabled(s2, Evict(keep)) && s2.lists.At(Eviction)[0] == p
    ensures var s2 := Exec(Next(s, SwapIn(p, f, bits)), steps).value;
      var s3 := Next(s2, Evict(keep));
      s3.store == s2.store && p < |s3.pages| && !s3.pages[p].inDram && s3.pages[p].offset == s.pages[p].offset
  {
    var (s1, va, off) := (Next(s, SwapIn(p, f, bits)), s.pages[p].va, s.pages[p].offset);
    assert RoleOk(s.pages[p]) && RoleOk(s.pages[f]);
    SwapInFiled(s, p, f, bits, s.store[off]);
    assert CleanCopy(s1, p, f, va, off);
    SwapInInv(s, p, f, bits);
    RunStaysClean(s1, steps, p, f, va, off);
    ExecInv(s1, steps);
    CleanEviction(Exec(s1, steps).value, keep, p, f, va, off);
  }

  lemma CleanEviction(s: State, keep: bool, p: Id, f: Id, va: nat, off: nat)
    requires Inv(s) && Enabled(s, Evict(keep)) && CleanCopy(s, p, f, va, off) && s.lists.At(Eviction)[0] == p
    ensures var s' := Next(s, Evict(keep));
      s'.store == s.store && p < |s'.pages| && !s'.pages[p].inDram && s'.pages[p].offset == off
  {
    EvictTrade(s, keep);
    assert RoleOk(s.pages[p]);
  }

  /** A page that was stored to, or has no reserve, is written to the slot it goes to. */
  lemma AlteredPageIsWritten(s: State, keep: bool)
    requires Inv(s) && Enabled(s, Evict(keep))
    requires var v := s.lists.At(Eviction)[0]; s.pages[v].va in s.dirty || s.pages[v].reserve.None?
    ensures var (s', v) := (Next(s, Evict(keep)), s.lists.At(Eviction)[0]);
      v < |s'.pages| && s'.store == s.store[s'.pages[v].offset := s.ram[s.pages[v].va]]
  {
    EvictTrade(s, keep);
    assert RoleOk(s.pages[s.lists.At(Eviction)[0]]);
  }
}
