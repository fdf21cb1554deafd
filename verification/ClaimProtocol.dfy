/** The claim protocol on one page under any interleaving of any number of fault handlers,
    prefetchers, scanners and eviction workers, with the user program storing to the page
    whenever it is mapped and writable. */
module ClaimProtocol {
  import opened Common

  type Tid = nat

  /** Where the page is filed: among resident pages, to be evicted, on disk, or on no list. */
  datatype Home = Resident | ToEvict | OnDisk | Nowhere

  /** Where a thread is in its dealings with the page. */
  datatype Pc =
    | Idle
    | Scanning
    | Taken | Marked | Protected | Decided(writeBack: bool) | Written | Zapped | Flagged | Requeued
    | Claimed | Detached | Fetched(buffer: Page) | Copied | Enlisted

  /** The descriptor's flags, the mapping, the slot on disk, and the last page stored. */
  datatype World = World(
    swappedOut: bool, migrating: bool, inDram: bool, home: Home, reserved: bool,
    mapped: bool, writable: bool, dirty: bool,
    memory: Page, slot: Page, last: Page,
    pcs: map<Tid, Pc>)
  {
    function Pc(t: Tid): Pc { if t in pcs then pcs[t] else Idle }

    function At(t: Tid, pc: Pc): World { this.(pcs := pcs[t := pc]) }
  }

  datatype Action =
    | UserStore(page: Page)
    | ScanTake(t: Tid) | ScanPut(t: Tid, cold: bool)
    | Take(t: Tid) | MarkMigrating(t: Tid) | WriteProtect(t: Tid) | ReadFlags(t: Tid) | WriteBack(t: Tid)
    | ZapPage(t: Tid) | SetSwappedOut(t: Tid) | Requeue(t: Tid) | ReleaseOut(t: Tid)
    | TryClaim(t: Tid) | Detach(t: Tid) | ReadSlot(t: Tid) | CopyIn(t: Tid, dirty: bool) | Finish(t: Tid)
    | Enlist(t: Tid) | ReleaseIn(t: Tid)

  predicate Enabled(w: World, a: Action) {
    match a
    case UserStore(_) => w.mapped && w.writable
    case ScanTake(t) => w.Pc(t).Idle? && w.home.Resident?
    case ScanPut(t, _) => w.Pc(t).Scanning?
    case Take(t) => w.Pc(t).Idle? && w.home.ToEvict?
    case MarkMigrating(t) => w.Pc(t).Taken?
    case WriteProtect(t) => w.Pc(t).Marked?
    case ReadFlags(t) => w.Pc(t).Protected?
    case WriteBack(t) => w.Pc(t).Decided?
    case ZapPage(t) => w.Pc(t).Written?
    case SetSwappedOut(t) => w.Pc(t).Zapped?
    case Requeue(t) => w.Pc(t).Flagged?
    case ReleaseOut(t) => w.Pc(t).Requeued?
    case TryClaim(t) => w.Pc(t).Idle? && !w.migrating && w.swappedOut
    case Detach(t) => w.Pc(t).Claimed?
    case ReadSlot(t) => w.Pc(t).Detached?
    case CopyIn(t, _) => w.Pc(t).Fetched?
    case Finish(t) => w.Pc(t).Copied?
    case Enlist(t) => w.Pc(t).Copied?
    case ReleaseIn(t) => w.Pc(t).Enlisted?
  }

  function Next(w: World, a: Action): World
    requires Enabled(w, a)
  {
    match a
    case UserStore(page) => w.(memory := page, last := page, dirty := true)
    case ScanTake(t) => w.(home := Nowhere).At(t, Scanning)
    case ScanPut(t, cold) => w.(home := if cold then ToEvict else Resident).At(t, Idle)
    case Take(t) => w.(home := Nowhere).At(t, Taken)
    case MarkMigrating(t) => w.(migrating := true).At(t, Marked)
    case WriteProtect(t) => w.(writable := false).At(t, Protected)
    case ReadFlags(t) => w.At(t, Decided(w.dirty || !w.reserved))
    case WriteBack(t) => w.(slot := if w.Pc(t).writeBack then w.memory else w.slot).At(t, Written)
    case ZapPage(t) => w.(mapped := false, dirty := false, inDram := false).At(t, Zapped)
    case SetSwappedOut(t) => w.(swappedOut := true).At(t, Flagged)
    case Requeue(t) => w.(home := OnDisk, reserved := false).At(t, Requeued)
    case ReleaseOut(t) => w.(migrating := false).At(t, Idle)
    case TryClaim(t) => w.(migrating := true).At(t, Claimed)
    case Detach(t) => w.(home := Nowhere).At(t, Detached)
    case ReadSlot(t) => w.At(t, Fetched(w.slot))
    case CopyIn(t, dirty) =>
      w.(mapped := true, writable := true, memory := w.Pc(t).buffer, dirty := dirty, inDram := true).At(t, Copied)
    case Finish(t) =>
      w.(home := Resident, reserved := true, swappedOut := false, migrating := false).At(t, Idle)
    case Enlist(t) => w.(home := Resident, reserved := true).At(t, Enlisted)
    case ReleaseIn(t) => w.(swappedOut := false, migrating := false).At(t, Idle)
  }

  /** The asserts on the way: the page a handler detaches is on the disk list, the page a
      worker writes out is resident, not swapped out and claimed. */
  predicate AssertsHold(w: World, a: Action)
    requires Enabled(w, a)
  {
    match a
    case Detach(_) => w.home == OnDisk
    case CopyIn(_, _) => !w.inDram
    case WriteBack(_) => w.inDram && w.migrating
    case SetSwappedOut(_) => !w.swappedOut && w.migrating
    case ReleaseOut(_) => w.migrating && w.swappedOut
    case _ => true
  }

  // ---------------------------------------------------------------- invariant

  predicate Busy(w: World, t: Tid) { !w.Pc(t).Idle? }

  /** Flags and home of the page while no thread is dealing with it. */
  predicate AtRest(w: World) {
    && !w.migrating && (w.swappedOut <==> !w.inDram)
    && (if w.inDram then w.writable && (w.home == Resident || w.home == ToEvict) else w.home == OnDisk)
  }

  /** Flags and home while the thread dealing with it is at `pc`. */
  predicate Holding(w: World, pc: Pc) {
    match pc
    case Idle => true
    case Scanning => !w.migrating && !w.swappedOut && w.inDram && w.home == Nowhere && w.writable
    case Taken => !w.migrating && !w.swappedOut && w.inDram && w.home == Nowhere && w.writable
    case Marked => w.migrating && !w.swappedOut && w.inDram && w.home == Nowhere && w.writable
    case Protected => w.migrating && !w.swappedOut && w.inDram && w.home == Nowhere && !w.writable
    case Decided(wb) =>
      && w.migrating && !w.swappedOut && w.inDram && w.home == Nowhere && !w.writable
      && wb == (w.dirty || !w.reserved)
    case Written =>
      w.migrating && !w.swappedOut && w.inDram && w.home == Nowhere && !w.writable && w.slot == w.last
    case Zapped => w.migrating && !w.swappedOut && !w.inDram && w.home == Nowhere
    case Flagged => w.migrating && w.swappedOut && !w.inDram && w.home == Nowhere
    case Requeued => w.migrating && w.swappedOut && !w.inDram && w.home == OnDisk
    case Claimed => w.migrating && w.swappedOut && !w.inDram && w.home == OnDisk
    case Detached => w.migrating && w.swappedOut && !w.inDram && w.home == Nowhere
    case Fetched(buffer) => w.migrating && w.swappedOut && !w.inDram && w.home == Nowhere && buffer == w.slot
    case Copied =>
      w.migrating && w.swappedOut && w.inDram && w.home == Nowhere && w.writable && (!w.dirty ==> w.slot == w.last)
    case Enlisted => false
  }

  /** The last page stored is in memory, or on disk when the page is not mapped; a clean
      reserved page is in both. */
  predicate Kept(w: World) {
    && w.mapped == w.inDram
    && (if w.mapped then w.memory == w.last else w.slot == w.last)
    && (w.mapped && w.reserved && !w.dirty ==> w.slot == w.last)
  }

  ghost predicate Inv(w: World) {
    && Kept(w)
    && (forall t, u :: Busy(w, t) && Busy(w, u) ==> t == u)
    && (forall t :: Busy(w, t) ==> Holding(w, w.Pc(t)))
    && ((forall t :: !Busy(w, t)) ==> AtRest(w))
  }

  /** A page just mapped by first touch. */
  function Start(page: Page): World {
    World(false, false, true, Resident, false, true, true, false, page, page, page, map[])
  }

  predicate Whole(a: Action) { !a.Enlist? }

  predicate Starts(a: Action) { a.ScanTake? || a.Take? || a.TryClaim? }

  /** What a thread needs before its step: the page to itself, or nobody at it. */
  predicate Ready(w: World, a: Action)
    requires !a.UserStore?
  {
    Kept(w) && if Starts(a) then AtRest(w) else Holding(w, w.Pc(a.t))
  }

  ghost predicate Done(w: World, a: Action)
    requires !a.UserStore? && Enabled(w, a)
  {
    var w' := Next(w, a);
    Kept(w') && AssertsHold(w, a) && if Busy(w', a.t) then Holding(w', w'.Pc(a.t)) else AtRest(w')
  }

  lemma ClaimerKeeps(w: World, a: Action)
    requires a.TryClaim? || a.Detach? || a.ReadSlot?
    requires Enabled(w, a) && Ready(w, a)
    ensures Done(w, a)
  {
  }

  lemma MapperKeeps(w: World, a: Action)
    requires a.CopyIn? || a.Finish? || a.ReleaseIn?
    requires Enabled(w, a) && Ready(w, a)
    ensures Done(w, a)
  {
  }

  lemma TakerKeeps(w: World, a: Action)
    requires a.ScanTake? || a.ScanPut? || a.Take? || a.MarkMigrating? || a.WriteProtect? || a.ReadFlags?
    requires Enabled(w, a) && Ready(w, a)
    ensures Done(w, a)
  {
  }

  lemma WriterKeeps(w: World, a: Action)
    requires a.WriteBack? || a.ZapPage? || a.SetSwappedOut? || a.Requeue? || a.ReleaseOut?
    requires Enabled(w, a) && Ready(w, a)
    ensures Done(w, a)
  {
  }

  lemma ThreadKeeps(w: World, a: Action)
    requires !a.UserStore? && Whole(a) && Enabled(w, a) && Ready(w, a)
    ensures Done(w, a)
  {
    if a.WriteBack? || a.ZapPage? || a.SetSwappedOut? || a.Requeue? || a.ReleaseOut? {
      WriterKeeps(w, a);
    } else if a.TryClaim? || a.Detach? || a.ReadSlot? {
      ClaimerKeeps(w, a);
    } else if a.CopyIn? || a.Finish? || a.ReleaseIn? {
      MapperKeeps(w, a);
    } else {
      TakerKeeps(w, a);
    }
  }

  lemma StoreKeeps(w: World, page: Page)
    requires Inv(w) && Enabled(w, UserStore(page))
    ensures Inv(Next(w, UserStore(page)))
  {
    var w' := Next(w, UserStore(page));
    assert forall t :: Busy(w', t) == Busy(w, t) && w'.Pc(t) == w.Pc(t);
  }

  lemma OthersStill(w: World, a: Action, u: Tid)
    requires !a.UserStore? && Enabled(w, a) && u != a.t
    ensures Next(w, a).Pc(u) == w.Pc(u)
  {
  }

  lemma StepKeeps(w: World, a: Action)
    requires Inv(w) && Enabled(w, a) && Whole(a)
    ensures Inv(Next(w, a)) && AssertsHold(w, a)
  {
    if a.UserStore? {
      StoreKeeps(w, a.page);
    } else {
      var (w', t) := (Next(w, a), a.t);
      if Starts(a) { Alone(w, a); } else { assert Busy(w, t); }
      ThreadKeeps(w, a);
      forall u | u != t ensures !Busy(w', u) {
        assert !Busy(w, u);
        OthersStill(w, a, u);
      }
    }
  }

  /** A thread that takes or claims the page finds nobody else at it. */
  lemma Alone(w: World, a: Action)
    requires Inv(w) && Enabled(w, a) && Starts(a)
    ensures forall t :: !Busy(w, t)
  {
  }

  function Exec(w: World, run: seq<Action>): Option<World> {
    if run == [] then Some(w)
    else
      match Exec(w, run[..|run| - 1])
      case None => None
      case Some(mid) =>
        if Enabled(mid, run[|run| - 1]) then Some(Next(mid, run[|run| - 1])) else None
  }

  lemma {:induction false} RunKeeps(page: Page, run: seq<Action>)
    requires Exec(Start(page), run).Some? && forall k :: 0 <= k < |run| ==> Whole(run[k])
    ensures Inv(Exec(Start(page), run).value)
  {
    if run != [] {
      RunKeeps(page, run[..|run| - 1]);
      StepKeeps(Exec(Start(page), run[..|run| - 1]).value, run[|run| - 1]);
    }
  }

  /** The page a run stored last, or the first one. */
  function LastStored(page: Page, run: seq<Action>): Page {
    if run == [] then page
    else if run[|run| - 1].UserStore? then run[|run| - 1].page
    else LastStored(page, run[..|run| - 1])
  }

  lemma {:induction false} LastIsTracked(page: Page, run: seq<Action>)
    requires Exec(Start(page), run).Some?
    ensures Exec(Start(page), run).value.last == LastStored(page, run)
  {
    if run != [] {
      LastIsTracked(page, run[..|run| - 1]);
      StepLast(Exec(Start(page), run[..|run| - 1]).value, run[|run| - 1]);
    }
  }

  lemma StepLast(w: World, a: Action)
    requires Enabled(w, a)
    ensures Next(w, a).last == if a.UserStore? then a.page else w.last
  {
  }

  /** Over every run in which listing a swapped-in page and releasing it is one step: at most
      one thread has the page; a swapped-out page that nobody claims is on the disk list; and
      no store is lost, whichever thread evicts or brings back the page meanwhile. */
  lemma ClaimProtocolIsSafe(page: Page, run: seq<Action>)
    requires Exec(Start(page), run).Some? && forall k :: 0 <= k < |run| ==> Whole(run[k])
    ensures var w := Exec(Start(page), run).value;
      && (forall t, u :: Busy(w, t) && Busy(w, u) ==> t == u)
      && (w.swappedOut && !w.migrating ==> w.home == OnDisk && !w.mapped)
      && (w.mapped && (forall t :: !Busy(w, t)) ==> w.writable)
      && (if w.mapped then w.memory else w.slot) == LastStored(page, run)
      && (forall a :: Enabled(w, a) && Whole(a) ==> AssertsHold(w, a))
  {
    RunKeeps(page, run);
    LastIsTracked(page, run);
    var w := Exec(Start(page), run).value;
    assert forall t :: Busy(w, t) ==> Holding(w, w.Pc(t));
    forall a | Enabled(w, a) && Whole(a) ensures AssertsHold(w, a) { StepKeeps(w, a); }
  }

  // ---------------------------------------------------------------- progress

  /** What a thread does next on its way to having the page back in DRAM. */
  function Onward(w: World, t: Tid): Action {
    match w.Pc(t)
    case Idle => TryClaim(t)
    case Scanning => ScanPut(t, false)
    case Taken => MarkMigrating(t)
    case Marked => WriteProtect(t)
    case Protected => ReadFlags(t)
    case Decided(_) => WriteBack(t)
    case Written => ZapPage(t)
    case Zapped => SetSwappedOut(t)
    case Flagged => Requeue(t)
    case Requeued => ReleaseOut(t)
    case Claimed => Detach(t)
    case Detached => ReadSlot(t)
    case Fetched(_) => CopyIn(t, false)
    case Copied => Finish(t)
    case Enlisted => ReleaseIn(t)
  }

  /** How many steps that takes. */
  function Remaining(w: World, t: Tid): nat {
    match w.Pc(t)
    case Idle => if w.inDram then 0 else 5
    case Scanning => 1
    case Taken => 13
    case Marked => 12
    case Protected => 11
    case Decided(_) => 10
    case Written => 9
    case Zapped => 8
    case Flagged => 7
    case Requeued => 6
    case Claimed => 4
    case Detached => 3
    case Fetched(_) => 2
    case Copied => 1
    case Enlisted => 0
  }

  lemma OnwardReady(w: World, t: Tid)
    requires Inv(w) && (Busy(w, t) || ((forall u :: !Busy(w, u)) && !w.inDram))
    ensures Enabled(w, Onward(w, t)) && Whole(Onward(w, t)) && !Onward(w, t).UserStore? && Onward(w, t).t == t
    ensures Remaining(w, t) > 0
  {
  }

  lemma OnwardNears(w: World, t: Tid)
    requires Inv(w) && (Busy(w, t) || ((forall u :: !Busy(w, u)) && !w.inDram)) && Enabled(w, Onward(w, t))
    ensures Remaining(Next(w, Onward(w, t)), t) + 1 == Remaining(w, t) && Next(w, Onward(w, t)).last == w.last
  {
    if Busy(w, t) { assert Holding(w, w.Pc(t)); }
  }

  lemma {:induction false} ExecFirst(w: World, a: Action, run: seq<Action>)
    requires Enabled(w, a)
    ensures Exec(w, [a] + run) == Exec(Next(w, a), run)
  {
    if run == [] {
      assert [a] + run == [a] && [a][..0] == [];
    } else {
      assert ([a] + run)[..|run|] == [a] + run[..|run| - 1];
      ExecFirst(w, a, run[..|run| - 1]);
    }
  }

  ghost predicate OwnSteps(run: seq<Action>, t: Tid) {
    forall k :: 0 <= k < |run| ==> Whole(run[k]) && !run[k].UserStore? && run[k].t == t
  }

  /** Nobody is at the page, and the program can load and store it, with nothing lost. */
  ghost predicate Usable(w: World, page: Page) {
    (forall t :: !Busy(w, t)) && w.mapped && w.writable && w.memory == page
  }

  lemma {:induction false} Finishes(w: World, t: Tid) returns (run: seq<Action>)
    requires Inv(w) && forall u :: Busy(w, u) ==> u == t
    ensures |run| == Remaining(w, t) <= 13 && OwnSteps(run, t)
    ensures Exec(w, run).Some? && Usable(Exec(w, run).value, w.last)
    decreases Remaining(w, t)
  {
    if !Busy(w, t) && w.inDram {
      run := [];
    } else {
      OnwardReady(w, t);
      var a := Onward(w, t);
      OnwardNears(w, t);
      StepKeeps(w, a);
      forall u | Busy(Next(w, a), u) ensures u == t { OthersBusy(w, a, u); }
      var rest := Finishes(Next(w, a), t);
      ExecFirst(w, a, rest);
      run := [a] + rest;
    }
  }

  lemma OthersBusy(w: World, a: Action, u: Tid)
    requires !a.UserStore? && Enabled(w, a) && Busy(Next(w, a), u)
    ensures u == a.t || Busy(w, u)
  {
    if u != a.t { OthersStill(w, a, u); }
  }

  /** From every state of every run the thread that has the page can by itself, in at most
      thirteen steps, bring it to where the program can load and store it with the last page
      stored in it; if no thread has it, any can. */
  lemma NeverStuck(page: Page, run: seq<Action>, t: Tid) returns (rest: seq<Action>)
    requires Exec(Start(page), run).Some? && forall k :: 0 <= k < |run| ==> Whole(run[k])
    requires forall u :: Busy(Exec(Start(page), run).value, u) ==> u == t
    ensures |rest| <= 13 && OwnSteps(rest, t)
    ensures var r := Exec(Exec(Start(page), run).value, rest); r.Some? && Usable(r.value, LastStored(page, run))
  {
    RunKeeps(page, run);
    LastIsTracked(page, run);
    rest := Finishes(Exec(Start(page), run).value, t);
  }

  // ------------------------------------------------------------- when it is written

  /** Whether the page is altered after this, given whether it was before. */
  function Alters(a: Action, altered: bool): bool {
    if a.CopyIn? then a.dirty else a.UserStore? || (altered && !a.ZapPage?)
  }

  /** Whether its slot is kept for it. */
  function Reserves(a: Action, reserved: bool): bool {
    a.Finish? || a.Enlist? || (reserved && !a.Requeue?)
  }

  /** The page was stored to, or the copy that brought it in left it dirty, since it was mapped. */
  function AlteredBy(run: seq<Action>): bool {
    if run == [] then false else Alters(run[|run| - 1], AlteredBy(run[..|run| - 1]))
  }

  /** The page has come from its slot, and the slot has been kept for it. */
  function ReservedBy(run: seq<Action>): bool {
    if run == [] then false else Reserves(run[|run| - 1], ReservedBy(run[..|run| - 1]))
  }

  lemma StepFlags(w: World, a: Action)
    requires Enabled(w, a)
    ensures Next(w, a).dirty == Alters(a, w.dirty) && Next(w, a).reserved == Reserves(a, w.reserved)
  {
    if a.UserStore? || a.CopyIn? || a.ZapPage? {
      MapperFlags(w, a);
    } else if a.Finish? || a.Enlist? || a.Requeue? {
      FilerFlags(w, a);
    } else if a.ScanTake? || a.ScanPut? || a.Take? || a.MarkMigrating? || a.WriteProtect? || a.ReadFlags? {
      TakerFlags(w, a);
    } else {
      MoverFlags(w, a);
    }
  }

  lemma MapperFlags(w: World, a: Action)
    requires Enabled(w, a) && (a.UserStore? || a.CopyIn? || a.ZapPage?)
    ensures Next(w, a).dirty == Alters(a, w.dirty) && Next(w, a).reserved == w.reserved
  {
  }

  lemma FilerFlags(w: World, a: Action)
    requires Enabled(w, a) && (a.Finish? || a.Enlist? || a.Requeue?)
    ensures Next(w, a).dirty == w.dirty && Next(w, a).reserved == !a.Requeue?
  {
  }

  lemma TakerFlags(w: World, a: Action)
    requires Enabled(w, a)
    requires a.ScanTake? || a.ScanPut? || a.Take? || a.MarkMigrating? || a.WriteProtect? || a.ReadFlags?
    ensures Next(w, a).dirty == w.dirty && Next(w, a).reserved == w.reserved
  {
  }

  lemma MoverFlags(w: World, a: Action)
    requires Enabled(w, a)
    requires || a.WriteBack? || a.SetSwappedOut? || a.ReleaseOut? || a.TryClaim? || a.Detach? || a.ReadSlot?
             || a.ReleaseIn?
    ensures Next(w, a).dirty == w.dirty && Next(w, a).reserved == w.reserved
  {
  }

  lemma {:induction false} FlagsTell(page: Page, run: seq<Action>)
    requires Exec(Start(page), run).Some?
    ensures var w := Exec(Start(page), run).value; w.dirty == AlteredBy(run) && w.reserved == ReservedBy(run)
  {
    if run != [] {
      FlagsTell(page, run[..|run| - 1]);
      StepFlags(Exec(Start(page), run[..|run| - 1]).value, run[|run| - 1]);
    }
  }

  /** In every run the slot changes only when a worker writes the page out, which it does exactly
      if the page was altered since it was mapped or has no slot kept for it. */
  lemma WrittenIfAltered(page: Page, run: seq<Action>, a: Action)
    requires Exec(Start(page), run).Some? && (forall k :: 0 <= k < |run| ==> Whole(run[k]))
    requires Enabled(Exec(Start(page), run).value, a) && Whole(a)
    ensures var w := Exec(Start(page), run).value;
      && (a.WriteBack? ==> (w.Pc(a.t).writeBack <==> AlteredBy(run) || !ReservedBy(run)))
      && Next(w, a).slot == if a.WriteBack? && w.Pc(a.t).writeBack then LastStored(page, run) else w.slot
  {
    FlagsTell(page, run);
    RunKeeps(page, run);
    LastIsTracked(page, run);
    var w := Exec(Start(page), run).value;
    SlotStep(w, a);
    if a.WriteBack? { assert Busy(w, a.t) && Holding(w, w.Pc(a.t)); }
  }

  lemma SlotStep(w: World, a: Action)
    requires Enabled(w, a)
    ensures Next(w, a).slot == if a.WriteBack? && w.Pc(a.t).writeBack then w.memory else w.slot
  {
  }

  /** Listing the page before releasing it is not safe: from every state in which a handler
      `h` has just mapped the page, a scanner and a worker can take it while `h` still holds
      it, and the worker then meets a page that is already marked swapped out. */
  lemma SplitReleaseRaces(w: World, h: Tid, e: Tid)
    requires Inv(w) && w.Pc(h).Copied? && h != e
    ensures var run := Race(h, e);
      && Exec(w, run).Some?
      && var w' := Exec(w, run).value;
         && Busy(w', h) && Busy(w', e)
         && Enabled(w', SetSwappedOut(e)) && !AssertsHold(w', SetSwappedOut(e))
  {
    assert Busy(w, h);
    assert !Busy(w, e);
    var m := Overtake(w, h, e);
    var k := ProtectHeld(w, h, e, m);
    var n := EvictHeld(w, h, e, k);
    assert Race(h, e)[..9] == Race(h, e);
  }

  ghost predicate Reached(page: Page, w: World) {
    exists run :: Exec(Start(page), run) == Some(w) && forall k :: 0 <= k < |run| ==> Whole(run[k])
  }

  lemma ReachNext(page: Page, w: World, a: Action)
    requires Reached(page, w) && Enabled(w, a) && Whole(a)
    ensures Reached(page, Next(w, a))
  {
    var run :| Exec(Start(page), run) == Some(w) && forall k :: 0 <= k < |run| ==> Whole(run[k]);
    assert (run + [a])[..|run|] == run;
    assert Exec(Start(page), run + [a]) == Some(Next(w, a));
  }

  /** A thread that has evicted the page and brought it back has just mapped it. */
  lemma CopiedIsReached(page: Page, t: Tid) returns (w: World)
    ensures Reached(page, w) && w.Pc(t).Copied?
  {
    w := TakenIsReached(page, t);
    w := DecidedIsReached(page, t, w);
    w := ZappedIsReached(page, t, w);
    w := ReleasedIsReached(page, t, w);
    ReachNext(page, w, TryClaim(t));
    w := Three(page, Next(w, TryClaim(t)), Detach(t), ReadSlot(t), CopyIn(t, false));
  }

  lemma TakenIsReached(page: Page, t: Tid) returns (w: World)
    ensures Reached(page, w) && w.Pc(t).Taken?
  {
    w := Start(page);
    assert Exec(w, []) == Some(w);
    w := Three(page, w, ScanTake(t), ScanPut(t, true), Take(t));
  }

  lemma DecidedIsReached(page: Page, t: Tid, w: World) returns (w': World)
    requires Reached(page, w) && w.Pc(t).Taken?
    ensures Reached(page, w') && w'.Pc(t).Decided?
  {
    w' := Three(page, w, MarkMigrating(t), WriteProtect(t), ReadFlags(t));
  }

  lemma ZappedIsReached(page: Page, t: Tid, w: World) returns (w': World)
    requires Reached(page, w) && w.Pc(t).Decided?
    ensures Reached(page, w') && w'.Pc(t).Zapped?
  {
    ReachNext(page, w, WriteBack(t));
    w' := Next(w, WriteBack(t));
    ReachNext(page, w', ZapPage(t));
    w' := Next(w', ZapPage(t));
  }

  lemma ReleasedIsReached(page: Page, t: Tid, w: World) returns (w': World)
    requires Reached(page, w) && w.Pc(t).Zapped?
    ensures Reached(page, w') && w'.Pc(t).Idle? && !w'.migrating && w'.swappedOut
  {
    w' := Three(page, w, SetSwappedOut(t), Requeue(t), ReleaseOut(t));
  }

  lemma Three(page: Page, w: World, a: Action, b: Action, c: Action) returns (w': World)
    requires Reached(page, w) && Whole(a) && Whole(b) && Whole(c)
    requires Enabled(w, a) && Enabled(Next(w, a), b) && Enabled(Next(Next(w, a), b), c)
    ensures w' == Next(Next(Next(w, a), b), c) && Reached(page, w')
  {
    ReachNext(page, w, a);
    ReachNext(page, Next(w, a), b);
    ReachNext(page, Next(Next(w, a), b), c);
    w' := Next(Next(Next(w, a), b), c);
  }

  /** The page is scanned and taken while `h` holds it. */
  lemma Overtake(w: World, h: Tid, e: Tid) returns (m: World)
    requires w.Pc(h).Copied? && w.Pc(e).Idle? && h != e && w.swappedOut
    ensures Exec(w, Race(h, e)[..4]) == Some(m)
    ensures m.Pc(h).Enlisted? && m.Pc(e).Taken? && m.swappedOut
  {
    assert Race(h, e)[..0] == [] && Exec(w, Race(h, e)[..0]) == Some(w);
    m := Extend(w, Race(h, e), 0, w);
    m := Extend(w, Race(h, e), 1, m);
    m := OvertakeOn(w, h, e, m);
  }

  lemma OvertakeOn(w: World, h: Tid, e: Tid, m: World) returns (n: World)
    requires Exec(w, Race(h, e)[..2]) == Some(m) && h != e
    requires m.Pc(h).Enlisted? && m.Pc(e).Scanning? && m.swappedOut
    ensures Exec(w, Race(h, e)[..4]) == Some(n)
    ensures n.Pc(h).Enlisted? && n.Pc(e).Taken? && n.swappedOut
  {
    n := Extend(w, Race(h, e), 2, m);
    n := Extend(w, Race(h, e), 3, n);
  }

  lemma ProtectHeld(w: World, h: Tid, e: Tid, m: World) returns (n: World)
    requires Exec(w, Race(h, e)[..4]) == Some(m) && h != e
    requires m.Pc(h).Enlisted? && m.Pc(e).Taken? && m.swappedOut
    ensures Exec(w, Race(h, e)[..6]) == Some(n)
    ensures n.Pc(h).Enlisted? && n.Pc(e).Protected? && n.swappedOut
  {
    n := Extend(w, Race(h, e), 4, m);
    n := Extend(w, Race(h, e), 5, n);
  }

  lemma EvictHeld(w: World, h: Tid, e: Tid, m: World) returns (n: World)
    requires Exec(w, Race(h, e)[..6]) == Some(m) && h != e
    requires m.Pc(h).Enlisted? && m.Pc(e).Protected? && m.swappedOut
    ensures Exec(w, Race(h, e)[..9]) == Some(n)
    ensures n.Pc(h).Enlisted? && n.Pc(e).Zapped? && n.swappedOut
  {
    n := Extend(w, Race(h, e), 6, m);
    n := SpillHeld(w, h, e, n);
  }

  lemma SpillHeld(w: World, h: Tid, e: Tid, m: World) returns (n: World)
    requires Exec(w, Race(h, e)[..7]) == Some(m) && h != e
    requires m.Pc(h).Enlisted? && m.Pc(e).Decided? && m.swappedOut
    ensures Exec(w, Race(h, e)[..9]) == Some(n)
    ensures n.Pc(h).Enlisted? && n.Pc(e).Zapped? && n.swappedOut
  {
    n := Extend(w, Race(h, e), 7, m);
    n := Extend(w, Race(h, e), 8, n);
  }

  function Race(h: Tid, e: Tid): seq<Action> {
    [Enlist(h), ScanTake(e), ScanPut(e, true), Take(e), MarkMigrating(e), WriteProtect(e), ReadFlags(e),
     WriteBack(e), ZapPage(e)]
  }

  lemma Extend(w: World, run: seq<Action>, k: nat, mid: World) returns (next: World)
    requires k < |run| && Exec(w, run[..k]) == Some(mid) && Enabled(mid, run[k])
    ensures next == Next(mid, run[k]) && Exec(w, run[..k + 1]) == Some(next)
  {
    assert run[..k + 1][..k] == run[..k];
    next := Next(mid, run[k]);
  }
}
