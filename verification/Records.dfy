/** The records of pointer prefetching: at most one per target page, each owning at most one
    block of remote memory. What the page table, the ring and the clock report are
    parameters of the steps; a record can always be had from the heap. */
module Records {
  import opened Common
  import opened Allocator

  const MAX_AGE := 30_000_000

  datatype Status = Requested | InProgress | Completed | Failed

  datatype Rec = Rec(source: nat, target: nat, remote: nat, status: Status, stamp: nat)

  /** What the page table says of the target of a prefetch. */
  datatype Where = Missing | Resident | Migrating | SwappedOut | Elsewhere

  /** The records from the head of the list, the arena, and how often a free found no block. */
  datatype Held = Held(records: seq<Rec>, blocks: seq<Block>, misses: nat)

  datatype Step =
    | Prefetch(target: nat, source: nat, place: Where, sent: bool, now: nat)
    | Retrieve(target: nat, arrived: bool, readBack: bool, copied: bool)
    | Expire(now: nat)
    | Shutdown
    | OtherAlloc(size: nat)
    | OtherFree(addr: nat)

  // --------------------------------------------------------------- operations

  function Find(rs: seq<Rec>, target: nat, i: nat): (k: nat)
    requires i <= |rs|
    ensures i <= k <= |rs| && (k < |rs| ==> rs[k].target == target)
    ensures forall j :: i <= j < k ==> rs[j].target != target
    decreases |rs| - i
  {
    if i == |rs| || rs[i].target == target then i else Find(rs, target, i + 1)
  }

  predicate Busy(r: Rec) { r.status.InProgress? || r.status.Completed? }

  /** Give a block back; a null address owns none. */
  function GiveBack(h: Held, remote: nat): Held {
    if remote == 0 then h
    else
      var (blocks, ok) := Dealloc(h.blocks, remote);
      h.(blocks := blocks, misses := if ok then h.misses else h.misses + 1)
  }

  /** The record of a target, at the head if it is new. */
  function Ensured(rs: seq<Rec>, target: nat, source: nat, now: nat): seq<Rec> {
    if Find(rs, target, 0) < |rs| then rs else [Rec(source, target, 0, Requested, now)] + rs
  }

  function Skips(rs: seq<Rec>, target: nat, place: Where): bool {
    var k := Find(rs, target, 0);
    place.Resident? || place.Migrating? || (k < |rs| && Busy(rs[k]))
  }

  /** The page of this target can be read back: its record is busy, the transfer arrived if it
      was still under way, and the record still has a block. */
  predicate Delivers(rs: seq<Rec>, target: nat, arrived: bool, readBack: bool) {
    var k := Find(rs, target, 0);
    k < |rs| && Busy(rs[k]) && (rs[k].status.InProgress? ==> arrived) && rs[k].remote != 0 && readBack
  }

  /** The record once the block at `addr` was had for it; only a page on the store needs the block. */
  function Answer(r: Rec, place: Where, sent: bool, addr: nat): Rec {
    if place.SwappedOut? then r.(remote := addr, status := if sent then InProgress else Failed)
    else r.(remote := 0, status := Failed)
  }

  /** `async_prefetch_page`; `sent` tells whether the transfer could be started. */
  function PrefetchTo(h: Held, target: nat, source: nat, place: Where, sent: bool, now: nat): Held {
    if Skips(h.records, target, place) then h
    else
      var (blocks, r) := Alloc(h.blocks, PAGE_SIZE);
      if !r.Got? then h
      else
        var rs := Ensured(h.records, target, source, now);
        var k := Find(rs, target, 0);
        if k == |rs| then h
        else
          var h' := h.(blocks := blocks, records := rs[k := Answer(rs[k], place, sent, r.addr)]);
          if place.SwappedOut? then h' else GiveBack(h', r.addr)
  }

  /** `handle_page_fault_with_prefetch`: a record that is busy is waited for and read back;
      a read at a null address is refused by the server. */
  function RetrieveFrom(h: Held, target: nat, arrived: bool, readBack: bool, copied: bool): Held {
    var k := Find(h.records, target, 0);
    if k == |h.records| || !Busy(h.records[k]) then h
    else
      var r := h.records[k];
      if (r.status.InProgress? && !arrived) || !readBack || r.remote == 0 then
        h.(records := h.records[k := r.(status := Failed)])
      else
        GiveBack(h.(records := h.records[k := r.(remote := 0, status := if copied then Completed else Failed)]),
          r.remote)
  }

  /** The age of a record on a 64-bit clock. */
  function Age(r: Rec, now: nat): nat { (now - r.stamp) % WORD }

  predicate Stale(r: Rec, now: nat) {
    match r.status
    case Failed => true
    case Completed => Age(r, now) > MAX_AGE
    case Requested => Age(r, now) > MAX_AGE
    case InProgress => Age(r, now) > 2 * MAX_AGE
  }

  /** `cleanup_old_prefetch_records` over the records still to be looked at. */
  function Sweep(h: Held, rest: seq<Rec>, now: nat): Held
    decreases |rest|
  {
    if rest == [] then h
    else if Stale(rest[0], now) then Sweep(GiveBack(h, rest[0].remote), rest[1..], now)
    else Sweep(h.(records := h.records + [rest[0]]), rest[1..], now)
  }

  lemma SweepNext(h: Held, rest: seq<Rec>, now: nat)
    requires rest != []
    ensures Sweep(h, rest, now)
      == Sweep(if Stale(rest[0], now) then GiveBack(h, rest[0].remote) else h.(records := h.records + [rest[0]]),
        rest[1..], now)
  {
  }

  /** `pointer_prefetch_cleanup`: failed records keep their block. */
  function Dismantle(h: Held, rest: seq<Rec>): Held
    decreases |rest|
  {
    if rest == [] then h
    else Dismantle(if Busy(rest[0]) then GiveBack(h, rest[0].remote) else h, rest[1..])
  }

  predicate Enabled(h: Held, t: Step) {
    match t
    case OtherAlloc(size) => size == 0 || RoundUp(size) > 0
    case OtherFree(addr) => Unowned(h.records, addr)
    case _ => true
  }

  /** No record has this block. */
  predicate Unowned(rs: seq<Rec>, addr: nat) {
    forall i :: 0 <= i < |rs| ==> rs[i].remote != addr
  }

  function Next(h: Held, t: Step): Held {
    match t
    case Prefetch(target, source, place, sent, now) => PrefetchTo(h, target, source, place, sent, now)
    case Retrieve(target, arrived, readBack, copied) => RetrieveFrom(h, target, arrived, readBack, copied)
    case Expire(now) => Sweep(h.(records := []), h.records, now)
    case Shutdown => Dismantle(h.(records := []), h.records)
    case OtherAlloc(size) => h.(blocks := Alloc(h.blocks, size).0)
    case OtherFree(addr) => h.(blocks := Dealloc(h.blocks, addr).0)
  }

  // ---------------------------------------------------------------- invariant

  ghost predicate Keyed(rs: seq<Rec>) {
    forall i, j :: 0 <= i < j < |rs| ==> rs[i].target != rs[j].target
  }

  /** Blocks held by records are live, and no two records share one. */
  ghost predicate Owns(rs: seq<Rec>, live: set<(nat, nat)>) {
    && (forall i :: 0 <= i < |rs| && rs[i].remote != 0 ==> (rs[i].remote, PAGE_SIZE) in live)
    && (forall i, j :: 0 <= i < j < |rs| && rs[i].remote != 0 ==> rs[i].remote != rs[j].remote)
  }

  ghost predicate Inv(h: Held) {
    Wf(h.blocks) && Keyed(h.records) && Owns(h.records, Live(h.blocks)) && h.misses == 0
  }

  lemma GiveBackOwns(h: Held, rs: seq<Rec>, remote: nat)
    requires Wf(h.blocks) && Owns(rs, Live(h.blocks)) && h.misses == 0
    requires remote != 0 ==> (remote, PAGE_SIZE) in Live(h.blocks) && Unowned(rs, remote)
    ensures var h' := GiveBack(h, remote);
      && Wf(h'.blocks) && h'.records == h.records && h'.misses == 0
      && Live(h'.blocks) == Live(h.blocks) - {(remote, PAGE_SIZE)} && Owns(rs, Live(h'.blocks))
  {
    OwnsLess(rs, Live(h.blocks), remote);
    if remote != 0 { DeallocTakes(h.blocks, (remote, PAGE_SIZE)); } else { NullIsFree(h.blocks); }
  }

  lemma OwnsLess(rs: seq<Rec>, live: set<(nat, nat)>, remote: nat)
    requires Owns(rs, live) && (remote != 0 ==> Unowned(rs, remote))
    ensures Owns(rs, live - {(remote, PAGE_SIZE)})
  {
  }

  lemma OwnsKept(rs: seq<Rec>, live: set<(nat, nat)>, live': set<(nat, nat)>, addr: nat)
    requires Owns(rs, live) && Unowned(rs, addr) && forall p :: p in live && p.0 != addr ==> p in live'
    ensures Owns(rs, live')
  {
  }

  lemma NullIsFree(blocks: seq<Block>)
    requires Tiles(blocks)
    ensures (0, PAGE_SIZE) !in Live(blocks)
  {
    if (0, PAGE_SIZE) in Live(blocks) { LiveDisjoint(blocks, (0, PAGE_SIZE), (0, PAGE_SIZE)); }
  }

  lemma ReplacedOwns(rs: seq<Rec>, live: set<(nat, nat)>, k: nat, r: Rec)
    requires Owns(rs, live) && k < |rs|
    requires r.remote == 0 || r.remote == rs[k].remote
    ensures Owns(rs[k := r], live)
    ensures rs[k].remote != 0 && r.remote == 0 ==> Unowned(rs[k := r], rs[k].remote)
  {
  }

  lemma GrantedOwns(rs: seq<Rec>, live: set<(nat, nat)>, k: nat, r: Rec)
    requires Owns(rs, live) && k < |rs| && (r.remote, PAGE_SIZE) !in live
    ensures Owns(rs[k := r], live + {(r.remote, PAGE_SIZE)})
    ensures rs[k].remote != 0 ==> Unowned(rs[k := r], rs[k].remote)
  {
  }

  lemma RefusedOwns(rs: seq<Rec>, live: set<(nat, nat)>, k: nat, r: Rec, addr: nat)
    requires Owns(rs, live) && k < |rs| && r.remote == 0 && addr != 0 && (addr, PAGE_SIZE) !in live
    ensures Owns(rs[k := r], live + {(addr, PAGE_SIZE)}) && Unowned(rs[k := r], addr)
  {
  }

  lemma EnsuredOwns(rs: seq<Rec>, live: set<(nat, nat)>, target: nat, source: nat, now: nat)
    requires Keyed(rs) && Owns(rs, live)
    ensures var rs' := Ensured(rs, target, source, now);
      Keyed(rs') && Owns(rs', live) && Find(rs', target, 0) < |rs'|
  {
  }

  lemma BlockNotNull(blocks: seq<Block>)
    requires Wf(blocks) && Alloc(blocks, PAGE_SIZE).1.Got?
    ensures Alloc(blocks, PAGE_SIZE).1.addr != 0
  {
    AllocAdds(blocks);
    var (blocks', r) := Alloc(blocks, PAGE_SIZE);
    LiveDisjoint(blocks', (r.addr, PAGE_SIZE), (r.addr, PAGE_SIZE));
  }

  lemma PrefetchInv(h: Held, target: nat, source: nat, place: Where, sent: bool, now: nat)
    requires Inv(h)
    ensures Inv(PrefetchTo(h, target, source, place, sent, now))
  {
    var (blocks, a) := Alloc(h.blocks, PAGE_SIZE);
    if !Skips(h.records, target, place) && a.Got? {
      EnsuredOwns(h.records, Live(h.blocks), target, source, now);
      var rs := Ensured(h.records, target, source, now);
      AnsweredInv(h.(records := rs), Find(rs, target, 0), place, sent);
    }
  }

  lemma AnsweredInv(h: Held, k: nat, place: Where, sent: bool)
    requires Inv(h) && k < |h.records| && Alloc(h.blocks, PAGE_SIZE).1.Got?
    ensures var (blocks, a) := Alloc(h.blocks, PAGE_SIZE);
      var h' := h.(blocks := blocks, records := h.records[k := Answer(h.records[k], place, sent, a.addr)]);
      Inv(if place.SwappedOut? then h' else GiveBack(h', a.addr))
  {
    var (blocks, a) := Alloc(h.blocks, PAGE_SIZE);
    AllocAdds(h.blocks);
    BlockNotNull(h.blocks);
    var (live, r) := (Live(h.blocks), Answer(h.records[k], place, sent, a.addr));
    if place.SwappedOut? {
      GrantedOwns(h.records, live, k, r);
    } else {
      RefusedOwns(h.records, live, k, r, a.addr);
      GiveBackOwns(h.(blocks := blocks, records := h.records[k := r]), h.records[k := r], a.addr);
    }
  }

  lemma RetrieveInv(h: Held, target: nat, arrived: bool, readBack: bool, copied: bool)
    requires Inv(h)
    ensures Inv(RetrieveFrom(h, target, arrived, readBack, copied))
  {
    var k := Find(h.records, target, 0);
    if k < |h.records| {
      MarkedInv(h, k, Failed);
      if h.records[k].remote != 0 { EmptiedInv(h, k, if copied then Completed else Failed); }
    }
  }

  lemma MarkedInv(h: Held, k: nat, status: Status)
    requires Inv(h) && k < |h.records|
    ensures Inv(h.(records := h.records[k := h.records[k].(status := status)]))
  {
  }

  lemma EmptiedInv(h: Held, k: nat, status: Status)
    requires Inv(h) && k < |h.records| && h.records[k].remote != 0
    ensures var r := h.records[k];
      Inv(GiveBack(h.(records := h.records[k := r.(remote := 0, status := status)]), r.remote))
  {
    var r := h.records[k];
    var rs := h.records[k := r.(remote := 0, status := status)];
    ReplacedOwns(h.records, Live(h.blocks), k, r.(remote := 0, status := status));
    GiveBackOwns(h.(records := rs), rs, r.remote);
  }

  lemma {:induction false} SweepInv(h: Held, rest: seq<Rec>, now: nat)
    requires Wf(h.blocks) && Keyed(h.records + rest) && Owns(h.records + rest, Live(h.blocks)) && h.misses == 0
    ensures Inv(Sweep(h, rest, now))
    decreases |rest|
  {
    if rest == [] {
      assert h.records + rest == h.records;
    } else if Stale(rest[0], now) {
      TakenOut(h.records, rest, Live(h.blocks));
      GiveBackOwns(h, h.records + rest[1..], rest[0].remote);
      SweepInv(GiveBack(h, rest[0].remote), rest[1..], now);
    } else {
      assert h.records + [rest[0]] + rest[1..] == h.records + rest;
      SweepInv(h.(records := h.records + [rest[0]]), rest[1..], now);
    }
  }

  lemma TakenOut(rs: seq<Rec>, rest: seq<Rec>, live: set<(nat, nat)>)
    requires rest != [] && Keyed(rs + rest) && Owns(rs + rest, live)
    ensures Keyed(rs + rest[1..]) && Owns(rs + rest[1..], live)
    ensures rest[0].remote != 0 ==> (rest[0].remote, PAGE_SIZE) in live && Unowned(rs + rest[1..], rest[0].remote)
  {
    var (all, less) := (rs + rest, rs + rest[1..]);
    assert all[|rs|] == rest[0];
    assert forall i :: 0 <= i < |less| ==> less[i] == all[if i < |rs| then i else i + 1];
  }

  lemma {:induction false} DismantleInv(h: Held, rest: seq<Rec>)
    requires Wf(h.blocks) && h.records == [] && Keyed(rest) && Owns(rest, Live(h.blocks)) && h.misses == 0
    ensures Inv(Dismantle(h, rest)) && Dismantle(h, rest).records == []
    decreases |rest|
  {
    if rest != [] {
      assert [] + rest == rest && [] + rest[1..] == rest[1..];
      TakenOut([], rest, Live(h.blocks));
      GiveBackOwns(h, rest[1..], rest[0].remote);
      DismantleInv(if Busy(rest[0]) then GiveBack(h, rest[0].remote) else h, rest[1..]);
    }
  }

  lemma OtherAllocInv(h: Held, size: nat)
    requires Inv(h) && (size == 0 || RoundUp(size) > 0)
    ensures Inv(h.(blocks := Alloc(h.blocks, size).0))
  {
    AllocKeepsLive(h.blocks, size);
  }

  lemma OtherFreeInv(h: Held, addr: nat)
    requires Inv(h) && Unowned(h.records, addr)
    ensures Inv(h.(blocks := Dealloc(h.blocks, addr).0))
  {
    DeallocKeepsLive(h.blocks, addr);
    OwnsKept(h.records, Live(h.blocks), Live(Dealloc(h.blocks, addr).0), addr);
  }

  lemma NextInv(h: Held, t: Step)
    requires Inv(h) && Enabled(h, t)
    ensures Inv(Next(h, t))
  {
    match t
    case Prefetch(target, source, place, sent, now) => PrefetchInv(h, target, source, place, sent, now);
    case Retrieve(target, arrived, readBack, copied) => RetrieveInv(h, target, arrived, readBack, copied);
    case Expire(now) =>
      assert [] + h.records == h.records;
      SweepInv(h.(records := []), h.records, now);
    case Shutdown => DismantleInv(h.(records := []), h.records);
    case OtherAlloc(size) => OtherAllocInv(h, size);
    case OtherFree(addr) => OtherFreeInv(h, addr);
  }

  // -------------------------------------------------------------------- runs

  function Exec(h: Held, trace: seq<Step>): Option<Held> {
    if trace == [] then Some(h)
    else
      var r := Exec(h, trace[..|trace| - 1]);
      var t := trace[|trace| - 1];
      if r.None? || !Enabled(r.value, t) then None else Some(Next(r.value, t))
  }

  /** In every run there is at most one record per target, the blocks the records hold are
      live and distinct, and no block is ever freed that is not allocated. */
  lemma {:induction false} RecordsOwnTheirBlocks(h: Held, trace: seq<Step>)
    requires Inv(h) && Exec(h, trace).Some?
    ensures Inv(Exec(h, trace).value)
  {
    if trace != [] {
      RecordsOwnTheirBlocks(h, trace[..|trace| - 1]);
      NextInv(Exec(h, trace[..|trace| - 1]).value, trace[|trace| - 1]);
    }
  }

  // -------------------------------------------------------------------- leaks

  /** A block that is allocated and that no record has. */
  ghost predicate Lost(h: Held, a: nat) {
    a != 0 && (a, PAGE_SIZE) in Live(h.blocks) && Unowned(h.records, a)
  }

  /** A step of the prefetcher loses a block: a record had it, now none does, and it is still allocated. */
  ghost predicate Loses(h: Held, t: Step, a: nat) {
    !Unowned(h.records, a) && Lost(Next(h, t), a)
  }

  /** A new request for a record that failed with its block still in hand overwrites the address. */
  predicate Overwrites(h: Held, t: Step, a: nat) {
    t.Prefetch? && !Skips(h.records, t.target, t.place) && Alloc(h.blocks, PAGE_SIZE).1.Got?
    && var k := Find(h.records, t.target, 0); k < |h.records| && h.records[k].remote == a
  }

  /** Shutdown forgets the blocks of the records that are not busy. */
  predicate Forgets(h: Held, t: Step, a: nat) {
    t.Shutdown? && Kept(h.records, a)
  }

  predicate Kept(rs: seq<Rec>, a: nat) {
    exists i :: 0 <= i < |rs| && rs[i].remote == a && !Busy(rs[i])
  }

  lemma GiveBackLive(h: Held, remote: nat)
    requires Wf(h.blocks) && (remote != 0 ==> (remote, PAGE_SIZE) in Live(h.blocks))
    ensures Wf(GiveBack(h, remote).blocks) && Live(GiveBack(h, remote).blocks) == Live(h.blocks) - {(remote, PAGE_SIZE)}
  {
    if remote != 0 { DeallocTakes(h.blocks, (remote, PAGE_SIZE)); } else { NullIsFree(h.blocks); }
  }

  /** A sweep frees what it takes off the list: a block of the rest stays with its record or goes. */
  lemma {:induction false} SweepLive(h: Held, rest: seq<Rec>, now: nat, a: nat)
    requires Wf(h.blocks) && Keyed(h.records + rest) && Owns(h.records + rest, Live(h.blocks)) && h.misses == 0
      && a != 0
    ensures var h' := Sweep(h, rest, now);
      && (Unowned(h.records + rest, a) ==>
            Unowned(h'.records, a) && ((a, PAGE_SIZE) in Live(h'.blocks) <==> (a, PAGE_SIZE) in Live(h.blocks)))
      && (!Unowned(h.records + rest, a) ==> !Unowned(h'.records, a) || (a, PAGE_SIZE) !in Live(h'.blocks))
    decreases |rest|
  {
    if rest == [] {
      assert h.records + rest == h.records;
    } else if Stale(rest[0], now) {
      TakenOut(h.records, rest, Live(h.blocks));
      GiveBackOwns(h, h.records + rest[1..], rest[0].remote);
      UnownedSplits(h.records, rest, a);
      SweepLive(GiveBack(h, rest[0].remote), rest[1..], now, a);
    } else {
      assert h.records + [rest[0]] + rest[1..] == h.records + rest;
      SweepLive(h.(records := h.records + [rest[0]]), rest[1..], now, a);
    }
  }

  lemma UnownedSplits(rs: seq<Rec>, rest: seq<Rec>, a: nat)
    requires rest != []
    ensures Unowned(rs + rest, a) <==> Unowned(rs + rest[1..], a) && rest[0].remote != a
  {
    var (all, less) := (rs + rest, rs + rest[1..]);
    assert all[|rs|] == rest[0];
    assert forall i :: 0 <= i < |less| ==> less[i] == all[if i < |rs| then i else i + 1];
    assert forall i :: 0 <= i < |all| && i != |rs| ==> all[i] == less[if i < |rs| then i else i - 1];
  }

  lemma {:induction false} DismantleLive(h: Held, rest: seq<Rec>, a: nat)
    requires Wf(h.blocks) && Keyed(rest) && Owns(rest, Live(h.blocks)) && h.misses == 0 && a != 0
    ensures var h' := Dismantle(h, rest);
      (a, PAGE_SIZE) in Live(h'.blocks) <==> (a, PAGE_SIZE) in Live(h.blocks) && (Unowned(rest, a) || Kept(rest, a))
    decreases |rest|
  {
    if rest != [] {
      var r := rest[0];
      assert [] + rest == rest && [] + rest[1..] == rest[1..];
      TakenOut([], rest, Live(h.blocks));
      FirstDismantled(rest, Live(h.blocks), a);
      if Busy(r) {
        GiveBackOwns(h, rest[1..], r.remote);
        DismantleLive(GiveBack(h, r.remote), rest[1..], a);
      } else {
        DismantleLive(h, rest[1..], a);
      }
    }
  }

  /** What the first record decides about block `a`. */
  lemma FirstDismantled(rest: seq<Rec>, live: set<(nat, nat)>, a: nat)
    requires rest != [] && Keyed(rest) && Owns(rest, live) && a != 0
    ensures var live' := if Busy(rest[0]) then live - {(rest[0].remote, PAGE_SIZE)} else live;
      (a, PAGE_SIZE) in live && (Unowned(rest, a) || Kept(rest, a))
      <==> (a, PAGE_SIZE) in live' && (Unowned(rest[1..], a) || Kept(rest[1..], a))
  {
  }

  /** A prefetch takes no block away from anyone. */
  lemma PrefetchArena(h: Held, target: nat, source: nat, place: Where, sent: bool, now: nat)
    requires Wf(h.blocks)
    ensures Live(h.blocks) <= Live(PrefetchTo(h, target, source, place, sent, now).blocks)
  {
    var (blocks, g) := Alloc(h.blocks, PAGE_SIZE);
    if g.Got? {
      AllocAdds(h.blocks);
      BlockNotNull(h.blocks);
      GiveBackLive(h.(blocks := blocks), g.addr);
    }
  }

  lemma PrefetchRecords(h: Held, target: nat, source: nat, place: Where, sent: bool, now: nat)
    requires !Skips(h.records, target, place) && Alloc(h.blocks, PAGE_SIZE).1.Got?
    ensures var rs := Ensured(h.records, target, source, now);
      var k := Find(rs, target, 0);
      && k < |rs|
      && PrefetchTo(h, target, source, place, sent, now).records
         == rs[k := Answer(rs[k], place, sent, Alloc(h.blocks, PAGE_SIZE).1.addr)]
  {
  }

  /** Who has block `a` once the record of `target` has been answered with block `addr`. */
  lemma AnswerUnowned(rs0: seq<Rec>, live: set<(nat, nat)>, target: nat, source: nat, place: Where, sent: bool,
                      now: nat, addr: nat, a: nat)
    requires Keyed(rs0) && Owns(rs0, live) && a != 0 && (a, PAGE_SIZE) in live && addr != 0
      && (addr, PAGE_SIZE) !in live
    ensures var rs := Ensured(rs0, target, source, now);
      var k := Find(rs, target, 0);
      && k < |rs|
      && (Unowned(rs[k := Answer(rs[k], place, sent, addr)], a)
          <==> Unowned(rs0, a) || (var j := Find(rs0, target, 0); j < |rs0| && rs0[j].remote == a))
  {
    EnsuredOwns(rs0, live, target, source, now);
    EnsuredUnowned(rs0, target, source, now, a);
    var rs := Ensured(rs0, target, source, now);
    var k := Find(rs, target, 0);
    ReplacedUnowned(rs, live, k, Answer(rs[k], place, sent, addr), a);
  }

  lemma PrefetchLive(h: Held, target: nat, source: nat, place: Where, sent: bool, now: nat, a: nat)
    requires Inv(h) && a != 0 && (a, PAGE_SIZE) in Live(h.blocks)
    ensures var h' := PrefetchTo(h, target, source, place, sent, now);
      && (a, PAGE_SIZE) in Live(h'.blocks)
      && (Unowned(h'.records, a)
        <==> Unowned(h.records, a) || Overwrites(h, Prefetch(target, source, place, sent, now), a))
  {
    PrefetchArena(h, target, source, place, sent, now);
    var g := Alloc(h.blocks, PAGE_SIZE).1;
    if !Skips(h.records, target, place) && g.Got? {
      AllocAdds(h.blocks);
      BlockNotNull(h.blocks);
      PrefetchRecords(h, target, source, place, sent, now);
      AnswerUnowned(h.records, Live(h.blocks), target, source, place, sent, now, g.addr, a);
    }
  }

  lemma OwnedIsLive(rs: seq<Rec>, live: set<(nat, nat)>, a: nat)
    requires Owns(rs, live) && a != 0
    ensures !Unowned(rs, a) ==> (a, PAGE_SIZE) in live
  {
  }

  lemma EnsuredUnowned(rs: seq<Rec>, target: nat, source: nat, now: nat, a: nat)
    requires a != 0
    ensures var rs' := Ensured(rs, target, source, now);
      && (Unowned(rs', a) <==> Unowned(rs, a))
      && (Find(rs, target, 0) < |rs| ==> rs' == rs)
      && (Find(rs, target, 0) == |rs| ==> Find(rs', target, 0) == 0 && rs'[0].remote == 0)
  {
    var rs' := Ensured(rs, target, source, now);
    if rs' != rs { assert rs'[1..] == rs; }
  }

  lemma ReplacedUnowned(rs: seq<Rec>, live: set<(nat, nat)>, k: nat, r: Rec, a: nat)
    requires Owns(rs, live) && k < |rs| && a != 0 && r.remote != a
    ensures Unowned(rs[k := r], a) <==> Unowned(rs, a) || rs[k].remote == a
  {
    var rs' := rs[k := r];
    assert rs'[k] == r;
    assert forall i :: 0 <= i < |rs| && i != k ==> rs'[i] == rs[i];
  }

  lemma MarkedUnowned(rs: seq<Rec>, k: nat, status: Status, a: nat)
    requires k < |rs|
    ensures Unowned(rs[k := rs[k].(status := status)], a) <==> Unowned(rs, a)
  {
    assert forall i :: 0 <= i < |rs| ==> rs[k := rs[k].(status := status)][i].remote == rs[i].remote;
  }

  lemma EmptiedLive(h: Held, k: nat, status: Status, a: nat)
    requires Inv(h) && a != 0 && k < |h.records| && h.records[k].remote != 0
    ensures var r := h.records[k];
      var h' := GiveBack(h.(records := h.records[k := r.(remote := 0, status := status)]), r.remote);
      && (Lost(h, a) ==> Lost(h', a)) && (!Unowned(h.records, a) ==> !Lost(h', a))
  {
    var r := h.records[k];
    var r' := r.(remote := 0, status := status);
    GiveBackLive(h.(records := h.records[k := r']), r.remote);
    EmptiedOwner(h.records, Live(h.blocks), k, r', a);
  }

  lemma EmptiedOwner(rs: seq<Rec>, live: set<(nat, nat)>, k: nat, r: Rec, a: nat)
    requires Owns(rs, live) && k < |rs| && a != 0 && rs[k].remote != 0 && r.remote == 0
    ensures Unowned(rs, a) ==> Unowned(rs[k := r], a) && rs[k].remote != a
    ensures !Unowned(rs, a) ==> !Unowned(rs[k := r], a) || rs[k].remote == a
  {
    ReplacedUnowned(rs, live, k, r, a);
  }

  lemma RetrieveLive(h: Held, target: nat, arrived: bool, readBack: bool, copied: bool, a: nat)
    requires Inv(h) && a != 0
    ensures var h' := RetrieveFrom(h, target, arrived, readBack, copied);
      && (Lost(h, a) ==> Lost(h', a)) && (!Unowned(h.records, a) ==> !Lost(h', a))
  {
    var k := Find(h.records, target, 0);
    if k < |h.records| {
      MarkedUnowned(h.records, k, Failed, a);
      if h.records[k].remote != 0 { EmptiedLive(h, k, if copied then Completed else Failed, a); }
    }
  }

  lemma ExpireLive(h: Held, now: nat, a: nat)
    requires Inv(h) && a != 0
    ensures var h' := Next(h, Expire(now));
      && (Lost(h, a) ==> Lost(h', a)) && (!Unowned(h.records, a) ==> !Lost(h', a))
  {
    assert [] + h.records == h.records;
    SweepLive(h.(records := []), h.records, now, a);
  }

  lemma ShutdownLive(h: Held, a: nat)
    requires Inv(h) && a != 0
    ensures var h' := Next(h, Shutdown);
      && (Lost(h, a) ==> Lost(h', a)) && (!Unowned(h.records, a) ==> (Lost(h', a) <==> Kept(h.records, a)))
  {
    DismantleInv(h.(records := []), h.records);
    DismantleLive(h.(records := []), h.records, a);
    OwnedIsLive(h.records, Live(h.blocks), a);
  }

  lemma PrefetchLost(h: Held, t: Step, a: nat)
    requires Inv(h) && a != 0 && t.Prefetch?
    ensures Lost(h, a) ==> Lost(Next(h, t), a)
    ensures !Unowned(h.records, a) ==> (Lost(Next(h, t), a) <==> Overwrites(h, t, a))
  {
    OwnedIsLive(h.records, Live(h.blocks), a);
    if (a, PAGE_SIZE) in Live(h.blocks) { PrefetchLive(h, t.target, t.source, t.place, t.sent, t.now, a); }
  }

  /** Exactly two steps lose a block: a repeated request after a failure, and shutdown. */
  lemma LosesExactly(h: Held, t: Step, a: nat)
    requires Inv(h) && a != 0 && !Unowned(h.records, a) && !t.OtherAlloc? && !t.OtherFree?
    ensures Loses(h, t, a) <==> Overwrites(h, t, a) || Forgets(h, t, a)
  {
    match t
    case Prefetch(_, _, _, _, _) => PrefetchLost(h, t, a);
    case Retrieve(target, arrived, readBack, copied) => RetrieveLive(h, target, arrived, readBack, copied, a);
    case Expire(now) => ExpireLive(h, now, a);
    case Shutdown => ShutdownLive(h, a);
  }

  lemma StaysLost(h: Held, t: Step, a: nat)
    requires Inv(h) && Enabled(h, t) && Lost(h, a) && t != OtherFree(a)
    ensures Lost(Next(h, t), a)
  {
    match t
    case Prefetch(_, _, _, _, _) => PrefetchLost(h, t, a);
    case Retrieve(target, arrived, readBack, copied) => RetrieveLive(h, target, arrived, readBack, copied, a);
    case Expire(now) => ExpireLive(h, now, a);
    case Shutdown => ShutdownLive(h, a);
    case OtherAlloc(size) => AllocKeepsLive(h.blocks, size);
    case OtherFree(addr) => DeallocKeepsLive(h.blocks, addr);
  }

  /** The record answered is the one of its target. */
  lemma StillFound(rs: seq<Rec>, target: nat, r: Rec)
    requires Find(rs, target, 0) < |rs| && r.target == target
    ensures Find(rs[Find(rs, target, 0) := r], target, 0) == Find(rs, target, 0)
  {
    var k := Find(rs, target, 0);
    assert rs[k := r][k].target == target;
  }

  /** A transfer that cannot be started, twice, loses the first block. */
  lemma FailingTwiceLoses(h: Held, target: nat, source: nat, now: nat)
    requires Inv(h) && Find(h.records, target, 0) == |h.records|
    requires var (blocks, r) := Alloc(h.blocks, PAGE_SIZE); r.Got? && Alloc(blocks, PAGE_SIZE).1.Got?
    ensures var t := Prefetch(target, source, SwappedOut, false, now);
      Lost(Next(Next(h, t), t), Alloc(h.blocks, PAGE_SIZE).1.addr)
  {
    var t := Prefetch(target, source, SwappedOut, false, now);
    var h' := Next(h, t);
    NextInv(h, t);
    var k := Find(h'.records, target, 0);
    assert h'.records[0].target == target && k == 0;
    var a := h'.records[0].remote;
    BlockNotNull(h.blocks);
    LosesExactly(h', t, a);
  }

  /** A lost block stays lost: nothing the prefetcher ever does frees it. */
  lemma {:induction false} LostForGood(h: Held, trace: seq<Step>, a: nat)
    requires Inv(h) && Exec(h, trace).Some? && Lost(h, a) && OtherFree(a) !in trace
    ensures Lost(Exec(h, trace).value, a)
  {
    if trace != [] {
      var (front, t) := (trace[..|trace| - 1], trace[|trace| - 1]);
      LostForGood(h, front, a);
      RecordsOwnTheirBlocks(h, front);
      StaysLost(Exec(h, front).value, t, a);
    }
  }

  // --------------------------------------------------------- what requests come to

  /** The record of a target. */
  function RecordOf(rs: seq<Rec>, target: nat): Option<Rec> {
    var k := Find(rs, target, 0);
    if k < |rs| then Some(rs[k]) else None
  }

  /** The records of all other targets are as they were. */
  ghost predicate OthersKept(rs: seq<Rec>, rs': seq<Rec>, target: nat) {
    forall u :: u != target ==> RecordOf(rs', u) == RecordOf(rs, u)
  }

  lemma RecordAt(rs: seq<Rec>, k: nat)
    requires Keyed(rs) && k < |rs|
    ensures RecordOf(rs, rs[k].target) == Some(rs[k])
  {
  }

  lemma NoRecord(rs: seq<Rec>, target: nat)
    requires forall k :: 0 <= k < |rs| ==> rs[k].target != target
    ensures RecordOf(rs, target) == None
  {
  }

  lemma ReplacedRecord(rs: seq<Rec>, k: nat, r: Rec)
    requires Keyed(rs) && k < |rs| && r.target == rs[k].target
    ensures RecordOf(rs[k := r], r.target) == Some(r) && OthersKept(rs, rs[k := r], r.target)
  {
    var rs' := rs[k := r];
    RecordAt(rs', k);
    forall u | u != r.target ensures RecordOf(rs', u) == RecordOf(rs, u) {
      var j := Find(rs, u, 0);
      if j < |rs| { RecordAt(rs', j); } else { NoRecord(rs', u); }
    }
  }

  lemma AddedRecord(rs: seq<Rec>, r: Rec)
    requires Keyed([r] + rs)
    ensures RecordOf([r] + rs, r.target) == Some(r) && OthersKept(rs, [r] + rs, r.target)
  {
    var rs' := [r] + rs;
    RecordAt(rs', 0);
    forall u | u != r.target ensures RecordOf(rs', u) == RecordOf(rs, u) {
      var j := Find(rs, u, 0);
      if j < |rs| {
        assert rs'[j + 1] == rs[j];
        RecordAt(rs', j + 1);
      } else {
        NoRecord(rs', u);
      }
    }
  }

  /** There is nothing to do for the target: its page is in or on its way in, or a transfer for
      it is under way or done. */
  predicate Idle(old_: Option<Rec>, place: Where) {
    || place.Resident? || place.Migrating?
    || (old_.Some? && (old_.value.status.InProgress? || old_.value.status.Completed?))
  }

  /** The transfer for the target is under way, into this block. */
  predicate Granted(rs: seq<Rec>, target: nat, a: AllocResult) {
    var r := RecordOf(rs, target);
    r.Some? && r.value.status.InProgress? && Got(r.value.remote) == a
  }

  /** The record that a request leaves for its target, given the one there was. */
  ghost predicate Answered(old_: Option<Rec>, r: Rec, target: nat, source: nat, place: Where, sent: bool, now: nat) {
    && r.target == target && r.status == (if place.SwappedOut? && sent then InProgress else Failed)
    && (if old_.Some? then r.source == old_.value.source && r.stamp == old_.value.stamp
        else r.source == source && r.stamp == now)
    && (place.SwappedOut? <==> r.remote != 0)
  }

  /** A request that is idle, or for which no page of the arena can be had, changes nothing.
      Any other leaves the target with a record that is under way exactly if its page is on the
      store and the transfer was started; it then has a block of its own, as it has after a
      transfer that could not be started. */
  lemma PrefetchOutcome(h: Held, target: nat, source: nat, place: Where, sent: bool, now: nat)
    requires Inv(h)
    ensures var h' := Next(h, Prefetch(target, source, place, sent, now));
      var old_ := RecordOf(h.records, target);
      if Idle(old_, place) || !exists a :: FreeRun(h.blocks, a, PAGE_SIZE) then h' == h
      else
        && RecordOf(h'.records, target).Some? && OthersKept(h.records, h'.records, target)
        && var r := RecordOf(h'.records, target).value;
        && Answered(old_, r, target, source, place, sent, now)
        && (place.SwappedOut? ==> (r.remote, PAGE_SIZE) !in Live(h.blocks))
        && Live(h'.blocks) == (if place.SwappedOut? then Live(h.blocks) + {(r.remote, PAGE_SIZE)} else Live(h.blocks))
  {
    PageRounds();
    AllocIsComplete(h.blocks, PAGE_SIZE);
    if !Skips(h.records, target, place) && Alloc(h.blocks, PAGE_SIZE).1.Got? {
      GrantedOutcome(h, target, source, place, sent, now);
    }
  }

  lemma GrantedOutcome(h: Held, target: nat, source: nat, place: Where, sent: bool, now: nat)
    requires Inv(h) && !Skips(h.records, target, place) && Alloc(h.blocks, PAGE_SIZE).1.Got?
    ensures var h' := Next(h, Prefetch(target, source, place, sent, now));
      && RecordOf(h'.records, target).Some? && OthersKept(h.records, h'.records, target)
      && var r := RecordOf(h'.records, target).value;
      && Answered(RecordOf(h.records, target), r, target, source, place, sent, now)
      && (place.SwappedOut? ==> (r.remote, PAGE_SIZE) !in Live(h.blocks))
      && Live(h'.blocks) == (if place.SwappedOut? then Live(h.blocks) + {(r.remote, PAGE_SIZE)} else Live(h.blocks))
  {
    var a := Alloc(h.blocks, PAGE_SIZE).1.addr;
    AllocAdds(h.blocks);
    BlockNotNull(h.blocks);
    EnsuredOwns(h.records, Live(h.blocks), target, source, now);
    PrefetchRecords(h, target, source, place, sent, now);
    AnsweredRecord(h.records, target, source, place, sent, now, a);
    PrefetchedBlocks(h, target, source, place, sent, now);
  }

  lemma PrefetchedBlocks(h: Held, target: nat, source: nat, place: Where, sent: bool, now: nat)
    requires Inv(h) && !Skips(h.records, target, place) && Alloc(h.blocks, PAGE_SIZE).1.Got?
    ensures var (h', a) := (PrefetchTo(h, target, source, place, sent, now), Alloc(h.blocks, PAGE_SIZE).1.addr);
      Live(h'.blocks) == (if place.SwappedOut? then Live(h.blocks) + {(a, PAGE_SIZE)} else Live(h.blocks))
  {
    var (blocks, r) := Alloc(h.blocks, PAGE_SIZE);
    AllocAdds(h.blocks);
    BlockNotNull(h.blocks);
    EnsuredOwns(h.records, Live(h.blocks), target, source, now);
    DeallocTakes(blocks, (r.addr, PAGE_SIZE));
    assert Live(h.blocks) + {(r.addr, PAGE_SIZE)} - {(r.addr, PAGE_SIZE)} == Live(h.blocks);
  }

  lemma AnsweredRecord(rs: seq<Rec>, target: nat, source: nat, place: Where, sent: bool, now: nat, a: nat)
    requires Keyed(rs) && a != 0
    ensures var all := Ensured(rs, target, source, now);
      var k := Find(all, target, 0);
      && k < |all|
      && var r := Answer(all[k], place, sent, a);
      && RecordOf(all[k := r], target) == Some(r) && OthersKept(rs, all[k := r], target)
      && Answered(RecordOf(rs, target), r, target, source, place, sent, now) && (place.SwappedOut? ==> r.remote == a)
  {
    var all := Ensured(rs, target, source, now);
    var k := Find(all, target, 0);
    var r := Answer(all[k], place, sent, a);
    if Find(rs, target, 0) < |rs| {
      ReplacedRecord(rs, k, r);
    } else {
      assert all[0].target == target && all[k := r] == [r] + rs;
      AddedRecord(rs, r);
    }
  }

  /** A transfer that is started, arrives and is read back delivers its page, and the arena is
      then exactly as it was before the request. */
  lemma PrefetchDelivers(h: Held, target: nat, source: nat, now: nat)
    requires Inv(h) && !Idle(RecordOf(h.records, target), SwappedOut) && Alloc(h.blocks, PAGE_SIZE).1.Got?
    ensures var h1 := Next(h, Prefetch(target, source, SwappedOut, true, now));
      var h2 := Next(h1, Retrieve(target, true, true, true));
      && Delivers(h1.records, target, true, true) && h2.blocks == h.blocks
      && RecordOf(h2.records, target).Some? && RecordOf(h2.records, target).value.status.Completed?
  {
    GrantedOutcome(h, target, source, SwappedOut, true, now);
    var h1 := Next(h, Prefetch(target, source, SwappedOut, true, now));
    NextInv(h, Prefetch(target, source, SwappedOut, true, now));
    RetrieveOutcome(h1, target, true, true, true);
    PageRounds();
    FreeUndoesAlloc(h.blocks, PAGE_SIZE);
    PrefetchRecords(h, target, source, SwappedOut, true, now);
    AnsweredRecord(h.records, target, source, SwappedOut, true, now, Alloc(h.blocks, PAGE_SIZE).1.addr);
  }

  /** A retrieval finds a busy record or does nothing. It delivers if the transfer is done or
      arrives, the read goes through and the record has a block; the block is freed then, and
      only then. What does not end in a copy leaves the record failed. */
  lemma RetrieveOutcome(h: Held, target: nat, arrived: bool, readBack: bool, copied: bool)
    requires Inv(h)
    ensures var h' := Next(h, Retrieve(target, arrived, readBack, copied));
      var old_ := RecordOf(h.records, target);
      if old_.None? || !(old_.value.status.InProgress? || old_.value.status.Completed?) then h' == h
      else
        && RecordOf(h'.records, target).Some? && OthersKept(h.records, h'.records, target)
        && var (r, r') := (old_.value, RecordOf(h'.records, target).value);
        var read := (r.status.Completed? || arrived) && readBack && r.remote != 0;
        && r' == r.(status := if read && copied then Completed else Failed, remote := if read then 0 else r.remote)
        && h'.blocks == if read then Dealloc(h.blocks, r.remote).0 else h.blocks
  {
    var k := Find(h.records, target, 0);
    if k < |h.records| {
      var r := h.records[k];
      ReplacedRecord(h.records, k, r.(status := Failed));
      ReplacedRecord(h.records, k, r.(remote := 0, status := if copied then Completed else Failed));
    }
  }

  /** The clean-up keeps a record that has not failed and is at most 30 seconds old, or 60 if
      its transfer is under way. */
  predicate Lasts(r: Rec, now: nat) {
    match r.status
    case Failed => false
    case InProgress => (now - r.stamp) % WORD <= 60_000_000
    case _ => (now - r.stamp) % WORD <= 30_000_000
  }

  function Survivors(rs: seq<Rec>, now: nat): seq<Rec> {
    if rs == [] then [] else (if Lasts(rs[0], now) then [rs[0]] else []) + Survivors(rs[1..], now)
  }

  lemma {:induction false} SweepKeeps(h: Held, rest: seq<Rec>, now: nat)
    ensures Sweep(h, rest, now).records == h.records + Survivors(rest, now)
    decreases |rest|
  {
    if rest == [] {
      assert h.records + [] == h.records;
    } else {
      SweepKeeps(GiveBack(h, rest[0].remote), rest[1..], now);
      SweepKeeps(h.(records := h.records + [rest[0]]), rest[1..], now);
      assert h.records + [rest[0]] + Survivors(rest[1..], now) == h.records + ([rest[0]] + Survivors(rest[1..], now));
      assert [] + Survivors(rest[1..], now) == Survivors(rest[1..], now);
    }
  }

  /** The records that are left, in order, and no other. */
  lemma ExpireOutcome(h: Held, now: nat)
    ensures Next(h, Expire(now)).records == Survivors(h.records, now)
  {
    SweepKeeps(h.(records := []), h.records, now);
    assert [] + Survivors(h.records, now) == Survivors(h.records, now);
  }

  lemma {:induction false} SurvivorsAre(rs: seq<Rec>, now: nat, r: Rec)
    ensures r in Survivors(rs, now) <==> r in rs && Lasts(r, now)
  {
    if rs != [] {
      SurvivorsAre(rs[1..], now, r);
      assert r in rs <==> r == rs[0] || r in rs[1..];
    }
  }

  // ---------------------------------------------------------------- the list

  class PrefetchList {
    const heap: RemoteMemory
    var records: seq<Rec>
    ghost var misses: nat

    ghost function View(): Held
      reads this, heap
    {
      Held(records, heap.blocks, misses)
    }

    constructor (heap: RemoteMemory)
      ensures this.heap == heap && View() == Held([], heap.blocks, 0)
    {
      this.heap, records, misses := heap, [], 0;
    }

    /** `find_prefetch_record` */
    method FindRecord(target: nat) returns (k: nat)
      ensures k == Find(records, target, 0)
    {
      k := 0;
      while k < |records| && records[k].target != target
        invariant k <= |records| && forall j :: 0 <= j < k ==> records[j].target != target
      {
        k := k + 1;
      }
    }

    /** `rdma_sim_free`, whose result the callers ignore. */
    method Return(remote: nat)
      requires heap.Valid()
      modifies heap, `misses
      ensures heap.Valid() && View() == GiveBack(old(View()), remote)
    {
      if remote != 0 {
        var ok := heap.Free(remote);
        if !ok { misses := misses + 1; }
      }
    }

    /** `find_prefetch_record`, then `add_prefetch_record` if there is none. */
    method EnsureRecord(target: nat, source: nat, now: nat) returns (k: nat)
      modifies `records
      ensures records == Ensured(old(records), target, source, now)
      ensures k == Find(records, target, 0) < |records|
    {
      k := FindRecord(target);
      if k == |records| {
        records := [Rec(source, target, 0, Requested, now)] + records;
        k := 0;
      }
    }

    /** Start the transfer of a page on the store; otherwise give the block back. */
    method Launch(k: nat, place: Where, sent: bool, addr: nat)
      requires heap.Valid() && k < |records|
      modifies this, heap
      ensures heap.Valid()
      ensures var h := old(View()).(records := old(records)[k := Answer(old(records[k]), place, sent, addr)]);
        View() == if place.SwappedOut? then h else GiveBack(h, addr)
    {
      records := records[k := records[k].(remote := addr, status := Requested)];
      if place.SwappedOut? {
        records := records[k := records[k].(status := if sent then InProgress else Failed)];
      } else {
        records := records[k := records[k].(status := Failed)];
        Return(addr);
        records := records[k := records[k].(remote := 0)];
      }
    }

    /** `async_prefetch_page`: it succeeds if there was nothing to do, or the transfer runs. */
    method AsyncPrefetch(target: nat, source: nat, place: Where, sent: bool, now: nat) returns (ok: bool)
      requires heap.Valid()
      modifies this, heap
      ensures heap.Valid() && View() == Next(old(View()), Prefetch(target, source, place, sent, now))
      ensures Idle(RecordOf(old(records), target), place) ==> ok
      ensures !Idle(RecordOf(old(records), target), place) ==>
        (ok <==> place.SwappedOut? && sent && Alloc(old(heap.blocks), PAGE_SIZE).1.Got?)
      ensures ok && !Idle(RecordOf(old(records), target), place) ==>
        Granted(records, target, Alloc(old(heap.blocks), PAGE_SIZE).1)
    {
      if place.Resident? || place.Migrating? { return true; }
      var k := FindRecord(target);
      if k < |records| && (records[k].status.InProgress? || records[k].status.Completed?) { return true; }
      ok := Request(target, source, place, sent, now);
    }

    /** A block is had for a new request, and the transfer started. */
    method Request(target: nat, source: nat, place: Where, sent: bool, now: nat) returns (ok: bool)
      requires heap.Valid() && !Skips(records, target, place)
      modifies this, heap
      ensures heap.Valid() && View() == Next(old(View()), Prefetch(target, source, place, sent, now))
      ensures ok <==> place.SwappedOut? && sent && Alloc(old(heap.blocks), PAGE_SIZE).1.Got?
      ensures ok ==> Granted(records, target, Alloc(old(heap.blocks), PAGE_SIZE).1)
    {
      var a := heap.Allocate(PAGE_SIZE);
      if !a.Got? { return false; }
      var k := EnsureRecord(target, source, now);
      StillFound(records, target, Answer(records[k], place, sent, a.addr));
      Launch(k, place, sent, a.addr);
      return place.SwappedOut? && sent;
    }

    /** `handle_page_fault_with_prefetch` with `retrieve_prefetched_data_to_local_buffer` */
    method RetrievePage(target: nat, arrived: bool, readBack: bool, copied: bool) returns (ok: bool)
      requires heap.Valid()
      modifies this, heap
      ensures heap.Valid() && View() == Next(old(View()), Retrieve(target, arrived, readBack, copied))
      ensures var r := RecordOf(old(records), target);
        ok <==> copied && readBack && r.Some? && r.value.remote != 0
                && (r.value.status.Completed? || (r.value.status.InProgress? && arrived))
    {
      var k := FindRecord(target);
      if k == |records| || !(records[k].status.InProgress? || records[k].status.Completed?) { return false; }
      if records[k].status.InProgress? {
        records := records[k := records[k].(status := if arrived then Completed else Failed)];
      }
      if !records[k].status.Completed? { return false; }
      if !readBack || records[k].remote == 0 {
        records := records[k := records[k].(status := Failed)];
        return false;
      }
      TakePage(k, copied);
      return copied;
    }

    /** The page was read back: its block is freed, and the record fails if the copy did. */
    method TakePage(k: nat, copied: bool)
      requires heap.Valid() && k < |records| && records[k].status.Completed?
      modifies this, heap
      ensures heap.Valid()
      ensures var r := old(records[k]);
        var rs := old(records)[k := r.(remote := 0, status := if copied then Completed else Failed)];
        View() == GiveBack(old(View()).(records := rs), r.remote)
    {
      Return(records[k].remote);
      records := records[k := records[k].(remote := 0)];
      if !copied { records := records[k := records[k].(status := Failed)]; }
    }

    /** `cleanup_old_prefetch_records` */
    method CleanupOld(now: nat)
      requires heap.Valid()
      modifies this, heap
      ensures heap.Valid() && View() == Next(old(View()), Expire(now)) && records == Survivors(old(records), now)
    {
      ExpireOutcome(View(), now);
      var i := 0;
      assert records[..0] == [] && records[0..] == records;
      while i < |records|
        invariant 0 <= i <= |records| && heap.Valid()
        invariant Sweep(View().(records := records[..i]), records[i..], now) == Next(old(View()), Expire(now))
        decreases |records| - i
      {
        var (done, rest) := (records[..i], records[i..]);
        SweepNext(View().(records := done), rest, now);
        if Stale(records[i], now) {
          Return(records[i].remote);
          records := records[..i] + records[i + 1..];
          assert records[..i] == done && records[i..] == rest[1..];
        } else {
          assert records[..i + 1] == done + [rest[0]] && records[i + 1..] == rest[1..];
          i := i + 1;
        }
      }
      assert records[..i] == records;
    }

    /** `pointer_prefetch_cleanup` */
    method Cleanup()
      requires heap.Valid()
      modifies this, heap
      ensures heap.Valid() && View() == Next(old(View()), Shutdown)
    {
      while records != []
        invariant heap.Valid()
        invariant Dismantle(View().(records := []), records) == Next(old(View()), Shutdown)
        decreases |records|
      {
        if records[0].status.InProgress? || records[0].status.Completed? { Return(records[0].remote); }
        records := records[1..];
      }
    }
  }
}
