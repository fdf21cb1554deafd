/** The simulated remote memory: a first-fit allocator over a list of blocks that are
    split on allocation and merged with their neighbours on release. The block list is one
    object shared by its clients, and a list node can always be had. */
module Allocator {
  import opened Common

  const BASE := 0x4000000000
  const SIZE := 0x40000000
  const END := BASE + SIZE

  datatype Block = Block(addr: nat, size: nat, free: bool)

  /** Rounding to the alignment in 64 bits: `(size + 4095) & ~4095`, which wraps to zero
      for the last 4095 sizes. */
  function RoundUp(size: nat): nat {
    (size + PAGE_SIZE - 1) % WORD / PAGE_SIZE * PAGE_SIZE
  }

  // ---------------------------------------------------------------- invariant

  function BlockEnd(b: Block): nat { b.addr + b.size }

  /** The blocks tile the arena in order, in whole pages, and no two free ones touch. */
  ghost predicate Tiles(bs: seq<Block>) {
    && bs != [] && bs[0].addr == BASE && BlockEnd(bs[|bs| - 1]) == END
    && (forall i :: 0 <= i < |bs| ==> bs[i].size > 0 && bs[i].addr % PAGE_SIZE == 0 && bs[i].size % PAGE_SIZE == 0)
    && (forall i :: 0 <= i < |bs| - 1 ==> BlockEnd(bs[i]) == bs[i + 1].addr)
  }

  ghost predicate Coalesced(bs: seq<Block>) {
    forall i :: 0 <= i < |bs| - 1 ==> !(bs[i].free && bs[i + 1].free)
  }

  ghost predicate Wf(bs: seq<Block>) { Tiles(bs) && Coalesced(bs) }

  function Fresh(): seq<Block> { [Block(BASE, SIZE, true)] }

  /** The allocations outstanding. */
  ghost function Live(bs: seq<Block>): set<(nat, nat)> {
    set b | b in bs && !b.free :: (b.addr, b.size)
  }

  function LiveSize(bs: seq<Block>): nat {
    if bs == [] then 0 else LiveSize(bs[..|bs| - 1]) + if bs[|bs| - 1].free then 0 else bs[|bs| - 1].size
  }

  ghost predicate Allocated(bs: seq<Block>, x: nat) {
    exists i :: 0 <= i < |bs| && !bs[i].free && bs[i].addr <= x < BlockEnd(bs[i])
  }

  /** `n` bytes from `a` lie in the arena and none of them is allocated. */
  ghost predicate FreeRun(bs: seq<Block>, a: nat, n: nat) {
    BASE <= a && a + n <= END && forall x :: a <= x < a + n ==> !Allocated(bs, x)
  }

  // --------------------------------------------------------------- operations

  predicate Fits(b: Block, n: nat) { b.free && b.size >= n }

  /** The first block at or after `i` that fits, or the length. */
  function FirstFit(bs: seq<Block>, n: nat, i: nat): (k: nat)
    requires i <= |bs|
    ensures i <= k <= |bs| && (k < |bs| ==> Fits(bs[k], n))
    ensures forall j :: i <= j < k ==> !Fits(bs[j], n)
    decreases |bs| - i
  {
    if i == |bs| || Fits(bs[i], n) then i else FirstFit(bs, n, i + 1)
  }

  function Split(bs: seq<Block>, k: nat, n: nat): seq<Block>
    requires k < |bs| && bs[k].size >= n
  {
    bs[..k] + [Block(bs[k].addr, n, false)]
    + (if bs[k].size > n then [Block(bs[k].addr + n, bs[k].size - n, true)] else [])
    + bs[k + 1..]
  }

  /** The first live block at `addr`, from `i` on. */
  function FindLive(bs: seq<Block>, addr: nat, i: nat): (k: nat)
    requires i <= |bs|
    ensures i <= k <= |bs| && (k < |bs| ==> !bs[k].free && bs[k].addr == addr)
    ensures forall j :: i <= j < k ==> bs[j].free || bs[j].addr != addr
    decreases |bs| - i
  {
    if i == |bs| || (!bs[i].free && bs[i].addr == addr) then i else FindLive(bs, addr, i + 1)
  }

  /** Absorb the next block if it is free and adjacent. */
  function MergeNext(bs: seq<Block>, k: nat): seq<Block>
    requires k < |bs|
  {
    if k + 1 < |bs| && bs[k + 1].free && BlockEnd(bs[k]) == bs[k + 1].addr
    then bs[..k] + [bs[k].(size := bs[k].size + bs[k + 1].size)] + bs[k + 2..]
    else bs
  }

  /** Let the previous block absorb this one if it is free and adjacent. */
  function MergePrev(bs: seq<Block>, k: nat): seq<Block>
    requires k < |bs|
  {
    if k > 0 && bs[k - 1].free && BlockEnd(bs[k - 1]) == bs[k].addr
    then bs[..k - 1] + [bs[k - 1].(size := bs[k - 1].size + bs[k].size)] + bs[k + 1..]
    else bs
  }

  function Release(bs: seq<Block>, k: nat): seq<Block>
    requires k < |bs|
  {
    MergePrev(MergeNext(bs[k := bs[k].(free := true)], k), k)
  }

  datatype AllocResult = Got(addr: nat) | Invalid | NoMemory

  function Alloc(bs: seq<Block>, size: nat): (seq<Block>, AllocResult) {
    var n := RoundUp(size);
    var k := FirstFit(bs, n, 0);
    if size == 0 then (bs, Invalid)
    else if k == |bs| then (bs, NoMemory)
    else (Split(bs, k, n), Got(bs[k].addr))
  }

  function Dealloc(bs: seq<Block>, addr: nat): (seq<Block>, bool) {
    var k := FindLive(bs, addr, 0);
    if k == |bs| then (bs, false) else (Release(bs, k), true)
  }

  class RemoteMemory {
    var blocks: seq<Block>
    var used: nat

    /** `remote_memory_used` is the sum of the live sizes. */
    ghost predicate Valid()
      reads this
    {
      used == LiveSize(blocks)
    }

    constructor ()
      ensures Valid() && blocks == Fresh()
    {
      blocks, used := Fresh(), 0;
      LiveSizeOne(Block(BASE, SIZE, true));
    }

    /** `rdma_sim_allocate` */
    method Allocate(size: nat) returns (r: AllocResult)
      requires Valid()
      modifies this
      ensures Valid() && (blocks, r) == Alloc(old(blocks), size)
    {
      if size == 0 { return Invalid; }
      var n := RoundUp(size);
      var i := 0;
      while i < |blocks|
        invariant 0 <= i <= |blocks| && blocks == old(blocks) && used == old(used)
        invariant forall j :: 0 <= j < i ==> !Fits(blocks[j], n)
      {
        if blocks[i].free && blocks[i].size >= n {
          r := Got(blocks[i].addr);
          SplitSize(blocks, i, n);
          Take(i, n);
          used := used + n;
          return;
        }
        i := i + 1;
      }
      return NoMemory;
    }

    method Take(i: nat, n: nat)
      requires i < |blocks| && blocks[i].size >= n
      modifies `blocks
      ensures blocks == Split(old(blocks), i, n)
    {
      if blocks[i].size > n {
        var rest := Block(blocks[i].addr + n, blocks[i].size - n, true);
        blocks := blocks[..i + 1] + [rest] + blocks[i + 1..];
      }
      blocks := blocks[i := Block(blocks[i].addr, n, false)];
    }

    method AbsorbNext(i: nat)
      requires i < |blocks|
      modifies `blocks
      ensures blocks == MergeNext(old(blocks), i)
    {
      if i + 1 < |blocks| && blocks[i + 1].free && blocks[i].addr + blocks[i].size == blocks[i + 1].addr {
        blocks := blocks[..i] + [blocks[i].(size := blocks[i].size + blocks[i + 1].size)] + blocks[i + 2..];
      }
    }

    method AbsorbIntoPrevious(i: nat)
      requires i < |blocks|
      modifies `blocks
      ensures blocks == MergePrev(old(blocks), i)
    {
      if i > 0 && blocks[i - 1].free && blocks[i - 1].addr + blocks[i - 1].size == blocks[i].addr {
        blocks := blocks[..i - 1] + [blocks[i - 1].(size := blocks[i - 1].size + blocks[i].size)] + blocks[i + 1..];
      }
    }

    /** `rdma_sim_free` */
    method Free(addr: nat) returns (ok: bool)
      requires Valid()
      modifies this
      ensures Valid() && (blocks, ok) == Dealloc(old(blocks), addr)
    {
      var i := 0;
      while i < |blocks|
        invariant 0 <= i <= |blocks| && blocks == old(blocks) && used == old(used)
        invariant forall j :: 0 <= j < i ==> blocks[j].free || blocks[j].addr != addr
      {
        if !blocks[i].free && blocks[i].addr == addr {
          ReleaseSize(blocks, i);
          blocks := blocks[i := blocks[i].(free := true)];
          used := used - blocks[i].size;
          AbsorbNext(i);
          AbsorbIntoPrevious(i);
          return true;
        }
        i := i + 1;
      }
      return false;
    }
  }

  // --------------------------------------------------------------------- sizes

  lemma LiveSizeOne(b: Block)
    ensures LiveSize([b]) == if b.free then 0 else b.size
  {
  }

  lemma {:induction false} LiveSizeConcat(a: seq<Block>, b: seq<Block>)
    ensures LiveSize(a + b) == LiveSize(a) + LiveSize(b)
  {
    if b == [] {
      assert a + b == a;
    } else {
      assert (a + b)[..|a + b| - 1] == a + b[..|b| - 1];
      LiveSizeConcat(a, b[..|b| - 1]);
    }
  }

  lemma LiveSizeTwo(b: Block, c: Block)
    ensures LiveSize([b, c]) == (if b.free then 0 else b.size) + if c.free then 0 else c.size
  {
    LiveSizeConcat([b], [c]);
    LiveSizeOne(b);
    LiveSizeOne(c);
    assert [b] + [c] == [b, c];
  }

  /** The sum with the stretch `x` between `a` and `b` replaced by `y`. */
  lemma LiveSizeReplace(bs: seq<Block>, bs': seq<Block>, a: seq<Block>, x: seq<Block>, y: seq<Block>, b: seq<Block>)
    requires bs == a + x + b && bs' == a + y + b
    ensures LiveSize(bs') == LiveSize(bs) - LiveSize(x) + LiveSize(y)
  {
    LiveSizeConcat(a + x, b);
    LiveSizeConcat(a, x);
    LiveSizeConcat(a + y, b);
    LiveSizeConcat(a, y);
  }

  lemma SplitSize(bs: seq<Block>, k: nat, n: nat)
    requires k < |bs| && bs[k].free && bs[k].size >= n
    ensures LiveSize(Split(bs, k, n)) == LiveSize(bs) + n
  {
    var used := Block(bs[k].addr, n, false);
    var rest := Block(bs[k].addr + n, bs[k].size - n, true);
    var y := if bs[k].size > n then [used, rest] else [used];
    LiveSizeReplace(bs, Split(bs, k, n), bs[..k], [bs[k]], y, bs[k + 1..]);
    LiveSizeOne(bs[k]);
    LiveSizeOne(used);
    LiveSizeTwo(used, rest);
  }

  lemma TwoAt(bs: seq<Block>, k: nat)
    requires k + 1 < |bs|
    ensures bs == bs[..k] + [bs[k], bs[k + 1]] + bs[k + 2..]
  {
  }

  lemma MergeNextSize(bs: seq<Block>, k: nat)
    requires k < |bs| && bs[k].free
    ensures LiveSize(MergeNext(bs, k)) == LiveSize(bs)
  {
    if k + 1 < |bs| && bs[k + 1].free && BlockEnd(bs[k]) == bs[k + 1].addr {
      var m := bs[k].(size := bs[k].size + bs[k + 1].size);
      TwoAt(bs, k);
      LiveSizeReplace(bs, MergeNext(bs, k), bs[..k], [bs[k], bs[k + 1]], [m], bs[k + 2..]);
      LiveSizeTwo(bs[k], bs[k + 1]);
      LiveSizeOne(m);
    }
  }

  lemma MergePrevIsNext(bs: seq<Block>, k: nat)
    requires k < |bs| && bs[k].free
    ensures MergePrev(bs, k) == if k > 0 && bs[k - 1].free then MergeNext(bs, k - 1) else bs
  {
  }

  lemma ReleaseSize(bs: seq<Block>, k: nat)
    requires k < |bs| && !bs[k].free
    ensures LiveSize(Release(bs, k)) == LiveSize(bs) - bs[k].size
  {
    FreedSize(bs, k);
    var freed := bs[k := bs[k].(free := true)];
    MergeNextSize(freed, k);
    MergePrevSize(MergeNext(freed, k), k);
  }

  lemma FreedSize(bs: seq<Block>, k: nat)
    requires k < |bs| && !bs[k].free
    ensures LiveSize(bs[k := bs[k].(free := true)]) == LiveSize(bs) - bs[k].size
  {
    var freed := bs[k].(free := true);
    LiveSizeReplace(bs, bs[k := freed], bs[..k], [bs[k]], [freed], bs[k + 1..]);
    LiveSizeOne(bs[k]);
    LiveSizeOne(freed);
  }

  lemma MergePrevSize(bs: seq<Block>, k: nat)
    requires k < |bs| && bs[k].free
    ensures LiveSize(MergePrev(bs, k)) == LiveSize(bs)
  {
    MergePrevIsNext(bs, k);
    if k > 0 && bs[k - 1].free { MergeNextSize(bs, k - 1); }
  }

  // -------------------------------------------------------------------- tiling

  lemma {:induction false} Ordered(bs: seq<Block>, i: nat, j: nat)
    requires Tiles(bs) && i < j < |bs|
    ensures BlockEnd(bs[i]) <= bs[j].addr
  {
    if i + 1 < j { Ordered(bs, i, j - 1); }
  }

  /** The block that holds an address of the arena. */
  ghost function Locate(bs: seq<Block>, x: nat, i: nat): (k: nat)
    requires Tiles(bs) && i < |bs| && bs[i].addr <= x < END
    ensures k < |bs| && bs[k].addr <= x < BlockEnd(bs[k])
    decreases |bs| - i
  {
    if x < BlockEnd(bs[i]) then i else Locate(bs, x, i + 1)
  }

  /** A byte is allocated exactly when the block that holds it is. */
  lemma AllocatedAt(bs: seq<Block>, k: nat, x: nat)
    requires Tiles(bs) && k < |bs| && bs[k].addr <= x < BlockEnd(bs[k])
    ensures Allocated(bs, x) <==> !bs[k].free
  {
    if Allocated(bs, x) {
      var i :| 0 <= i < |bs| && !bs[i].free && bs[i].addr <= x < BlockEnd(bs[i]);
      if i < k { Ordered(bs, i, k); }
      if k < i { Ordered(bs, k, i); }
    }
  }

  lemma WithinArena(bs: seq<Block>, k: nat)
    requires Tiles(bs) && k < |bs|
    ensures BASE <= bs[k].addr && BlockEnd(bs[k]) <= END
  {
    if k > 0 { Ordered(bs, 0, k); }
    if k < |bs| - 1 { Ordered(bs, k, |bs| - 1); }
  }

  lemma FitIsRun(bs: seq<Block>, k: nat, n: nat)
    requires Tiles(bs) && k < |bs| && Fits(bs[k], n)
    ensures FreeRun(bs, bs[k].addr, n)
  {
    WithinArena(bs, k);
    forall x | bs[k].addr <= x < bs[k].addr + n ensures !Allocated(bs, x) { AllocatedAt(bs, k, x); }
  }

  /** Because free neighbours are merged, a free run lies inside one block. */
  lemma RunIsFit(bs: seq<Block>, a: nat, n: nat)
    requires Wf(bs) && n > 0 && FreeRun(bs, a, n)
    ensures var k := Locate(bs, a, 0); Fits(bs[k], n) && bs[k].addr <= a && a + n <= BlockEnd(bs[k])
  {
    var k := Locate(bs, a, 0);
    AllocatedAt(bs, k, a);
    var e := BlockEnd(bs[k]);
    assert a < e < a + n ==> !Allocated(bs, e);
    if e < END { AllocatedAt(bs, k + 1, e); }
  }

  /** Allocation fails exactly when no run of unallocated bytes is long enough. */
  lemma AllocIsComplete(bs: seq<Block>, size: nat)
    requires Wf(bs) && RoundUp(size) > 0
    ensures Alloc(bs, size).1 == NoMemory <==> !exists a :: FreeRun(bs, a, RoundUp(size))
  {
    var n := RoundUp(size);
    var k := FirstFit(bs, n, 0);
    if k < |bs| {
      FitIsRun(bs, k, n);
    } else {
      forall a ensures !FreeRun(bs, a, n) {
        if FreeRun(bs, a, n) { RunIsFit(bs, a, n); }
      }
    }
  }

  /** First fit takes the lowest address at which the request fits. */
  lemma AllocIsLowest(bs: seq<Block>, size: nat)
    requires Wf(bs) && RoundUp(size) > 0 && Alloc(bs, size).1.Got?
    ensures var a := Alloc(bs, size).1.addr;
      && FreeRun(bs, a, RoundUp(size)) && a % PAGE_SIZE == 0
      && forall b :: FreeRun(bs, b, RoundUp(size)) ==> a <= b
  {
    var n := RoundUp(size);
    var k := FirstFit(bs, n, 0);
    FitIsRun(bs, k, n);
    forall b | FreeRun(bs, b, n) ensures bs[k].addr <= b {
      RunIsFit(bs, b, n);
      var j := Locate(bs, b, 0);
      if k < j { Ordered(bs, k, j); }
    }
  }

  ghost function SplitElem(bs: seq<Block>, k: nat, n: nat, i: nat): Block
    requires k < |bs| && bs[k].size >= n && i < |bs| + if bs[k].size > n then 1 else 0
  {
    if i < k then bs[i]
    else if i == k then Block(bs[k].addr, n, false)
    else if bs[k].size == n then bs[i]
    else if i == k + 1 then Block(bs[k].addr + n, bs[k].size - n, true)
    else bs[i - 1]
  }

  lemma SplitElems(bs: seq<Block>, k: nat, n: nat)
    requires k < |bs| && bs[k].size >= n
    ensures |Split(bs, k, n)| == |bs| + if bs[k].size > n then 1 else 0
    ensures forall i :: 0 <= i < |Split(bs, k, n)| ==> Split(bs, k, n)[i] == SplitElem(bs, k, n, i)
  {
  }

  lemma SplitTiles(bs: seq<Block>, k: nat, n: nat)
    requires Tiles(bs) && k < |bs| && bs[k].size >= n && n > 0 && n % PAGE_SIZE == 0
    ensures Tiles(Split(bs, k, n))
  {
    SplitElems(bs, k, n);
    var bs' := Split(bs, k, n);
    WholePages(bs[k].addr, bs[k].size, n);
    forall i | 0 <= i < |bs'| ensures bs'[i].size > 0 && bs'[i].addr % PAGE_SIZE == 0 && bs'[i].size % PAGE_SIZE == 0 {
      assert bs'[i] == SplitElem(bs, k, n, i);
    }
    forall i | 0 <= i < |bs'| - 1 ensures BlockEnd(bs'[i]) == bs'[i + 1].addr {
      assert bs'[i] == SplitElem(bs, k, n, i) && bs'[i + 1] == SplitElem(bs, k, n, i + 1);
    }
    assert bs'[|bs'| - 1] == SplitElem(bs, k, n, |bs'| - 1);
  }

  lemma WholePages(addr: nat, size: nat, n: nat)
    requires addr % PAGE_SIZE == 0 && size % PAGE_SIZE == 0 && n % PAGE_SIZE == 0 && n <= size
    ensures (addr + n) % PAGE_SIZE == 0 && (size - n) % PAGE_SIZE == 0
  {
  }

  /** Splitting keeps the tiling, and leaves no two free blocks side by side. */
  lemma SplitWf(bs: seq<Block>, k: nat, n: nat)
    requires Wf(bs) && k < |bs| && Fits(bs[k], n) && n > 0 && n % PAGE_SIZE == 0
    ensures Wf(Split(bs, k, n))
  {
    SplitTiles(bs, k, n);
    SplitElems(bs, k, n);
    var bs' := Split(bs, k, n);
    forall i | 0 <= i < |bs'| - 1 ensures !(bs'[i].free && bs'[i + 1].free) {
      assert bs'[i] == SplitElem(bs, k, n, i) && bs'[i + 1] == SplitElem(bs, k, n, i + 1);
    }
  }

  lemma SplitLive(bs: seq<Block>, k: nat, n: nat)
    requires Tiles(bs) && k < |bs| && Fits(bs[k], n) && n > 0
    ensures Live(Split(bs, k, n)) == Live(bs) + {(bs[k].addr, n)} && (bs[k].addr, n) !in Live(bs)
  {
    var bs' := Split(bs, k, n);
    var used := Block(bs[k].addr, n, false);
    assert used == bs'[k];
    forall p | p in Live(bs') ensures p in Live(bs) + {(bs[k].addr, n)} {
      var b :| b in bs' && !b.free && p == (b.addr, b.size);
      assert b == used || b in bs;
    }
    forall p | p in Live(bs) ensures p in Live(bs') {
      var b :| b in bs && !b.free && p == (b.addr, b.size);
      assert b in bs[..k] || b in bs[k + 1..];
    }
    forall b | b in bs && !b.free ensures b.addr != bs[k].addr {
      var i :| 0 <= i < |bs| && bs[i] == b;
      if i < k { Ordered(bs, i, k); }
      if k < i { Ordered(bs, k, i); }
    }
  }

  ghost predicate CoalescedBut(bs: seq<Block>, j: int) {
    forall i :: 0 <= i < |bs| - 1 && i != j ==> !(bs[i].free && bs[i + 1].free)
  }

  lemma MergeNextTiles(bs: seq<Block>, k: nat)
    requires Tiles(bs) && k < |bs|
    ensures Tiles(MergeNext(bs, k)) && k < |MergeNext(bs, k)|
    ensures MergeNext(bs, k)[k].free == bs[k].free && forall i :: 0 <= i < k ==> MergeNext(bs, k)[i] == bs[i]
  {
    var bs' := MergeNext(bs, k);
    if k + 1 < |bs| && bs[k + 1].free {
      var b := bs[k].(size := bs[k].size + bs[k + 1].size);
      assert bs' == bs[..k] + [b] + bs[k + 2..];
      Spliced(bs, k, b);
      forall i | 0 <= i < |bs'| ensures Whole(bs'[i]) && (i < |bs'| - 1 ==> BlockEnd(bs'[i]) == bs'[i + 1].addr) {
        MergedJoins(bs, k, b, i);
      }
    }
  }

  predicate Whole(b: Block) { b.size > 0 && b.addr % PAGE_SIZE == 0 && b.size % PAGE_SIZE == 0 }

  lemma MergedJoins(bs: seq<Block>, k: nat, b: Block, i: nat)
    requires Tiles(bs) && k + 1 < |bs| && b == bs[k].(size := bs[k].size + bs[k + 1].size) && i < |bs| - 1
    ensures var bs' := bs[..k] + [b] + bs[k + 2..];
      Whole(bs'[i]) && (i < |bs'| - 1 ==> BlockEnd(bs'[i]) == bs'[i + 1].addr)
  {
    Spliced(bs, k, b);
    assert Whole(bs[i]) && Whole(bs[i + 1]);
    assert BlockEnd(bs[k]) == bs[k + 1].addr;
  }

  lemma Spliced(bs: seq<Block>, k: nat, b: Block)
    requires k + 1 < |bs|
    ensures var bs' := bs[..k] + [b] + bs[k + 2..];
      && |bs'| == |bs| - 1 && bs'[k] == b
      && (forall i :: 0 <= i < k ==> bs'[i] == bs[i]) && (forall i :: k < i < |bs'| ==> bs'[i] == bs[i + 1])
  {
  }

  /** Merging a free block with a free next one leaves the block after that used. */
  lemma MergeNextCoalesces(bs: seq<Block>, k: nat, j: int)
    requires Tiles(bs) && k < |bs| && bs[k].free && (j < k)
    requires forall i :: 0 <= i < |bs| - 1 && i != k && i != j ==> !(bs[i].free && bs[i + 1].free)
    ensures CoalescedBut(MergeNext(bs, k), j)
  {
  }

  lemma ReleaseWf(bs: seq<Block>, k: nat)
    requires Wf(bs) && k < |bs| && !bs[k].free
    ensures Wf(Release(bs, k))
  {
    var freed := bs[k := bs[k].(free := true)];
    MergeNextTiles(freed, k);
    MergeNextCoalesces(freed, k, k - 1);
    MergePrevWf(MergeNext(freed, k), k);
  }

  lemma MergePrevWf(bs: seq<Block>, k: nat)
    requires Tiles(bs) && k < |bs| && bs[k].free && CoalescedBut(bs, k - 1)
    ensures Wf(MergePrev(bs, k))
  {
    MergePrevIsNext(bs, k);
    if k > 0 && bs[k - 1].free {
      MergeNextTiles(bs, k - 1);
      MergeNextCoalesces(bs, k - 1, -1);
    }
  }

  lemma MergeNextLive(bs: seq<Block>, k: nat)
    requires k < |bs| && bs[k].free
    ensures Live(MergeNext(bs, k)) == Live(bs)
  {
  }

  lemma FreedLive(bs: seq<Block>, k: nat)
    requires Tiles(bs) && k < |bs| && !bs[k].free
    ensures Live(bs[k := bs[k].(free := true)]) == Live(bs) - {(bs[k].addr, bs[k].size)}
  {
    var freed := bs[k := bs[k].(free := true)];
    forall p | p in Live(bs) && p != (bs[k].addr, bs[k].size) ensures p in Live(freed) {
      var b :| b in bs && !b.free && p == (b.addr, b.size);
      var i :| 0 <= i < |bs| && bs[i] == b;
      assert freed[i] == b;
    }
    forall p | p in Live(freed) ensures p in Live(bs) && p != (bs[k].addr, bs[k].size) {
      var b :| b in freed && !b.free && p == (b.addr, b.size);
      var i :| 0 <= i < |bs| && freed[i] == b;
      assert bs[i] == b;
      if i < k { Ordered(bs, i, k); }
      if k < i { Ordered(bs, k, i); }
    }
  }

  /** Freeing removes that allocation from the live ones, and no other. */
  lemma ReleaseLive(bs: seq<Block>, k: nat)
    requires Wf(bs) && k < |bs| && !bs[k].free
    ensures Live(Release(bs, k)) == Live(bs) - {(bs[k].addr, bs[k].size)}
  {
    FreedLive(bs, k);
    var freed := bs[k := bs[k].(free := true)];
    MergeNextLive(freed, k);
    MergeNextTiles(freed, k);
    var merged := MergeNext(freed, k);
    MergePrevIsNext(merged, k);
    if k > 0 && merged[k - 1].free { MergeNextLive(merged, k - 1); }
  }

  // ----------------------------------------------------------- main properties

  /** Freeing a block just allocated restores the block list exactly. */
  lemma FreeUndoesAlloc(bs: seq<Block>, size: nat)
    requires Wf(bs) && RoundUp(size) > 0 && Alloc(bs, size).1.Got?
    ensures Dealloc(Alloc(bs, size).0, Alloc(bs, size).1.addr) == (bs, true)
  {
    var n := RoundUp(size);
    var k := FirstFit(bs, n, 0);
    var bs' := Split(bs, k, n);
    SplitElems(bs, k, n);
    assert bs'[k] == Block(bs[k].addr, n, false);
    forall j | 0 <= j < k ensures bs'[j].free || bs'[j].addr != bs[k].addr {
      Ordered(bs, j, k);
      assert bs'[j] == bs[j];
    }
    assert FindLive(bs', bs[k].addr, 0) == k;
    SplitReleased(bs, k, n);
  }

  lemma SplitReleased(bs: seq<Block>, k: nat, n: nat)
    requires Wf(bs) && k < |bs| && Fits(bs[k], n) && n > 0
    ensures k < |Split(bs, k, n)| && Release(Split(bs, k, n), k) == bs
  {
    var bs' := Split(bs, k, n);
    var freed := bs'[k := bs'[k].(free := true)];
    SplitElems(bs, k, n);
    var merged := MergeNext(freed, k);
    if bs[k].size > n {
      assert freed[k + 1] == Block(bs[k].addr + n, bs[k].size - n, true);
      assert freed[k + 2..] == bs[k + 1..] && freed[..k] == bs[..k];
      assert merged == bs;
    } else {
      assert freed == bs;
      assert merged == bs;
    }
    assert k > 0 ==> !bs[k - 1].free;
  }

  /** With nothing allocated, the arena is one free block again. */
  lemma NothingLiveIsFresh(bs: seq<Block>)
    requires Wf(bs) && Live(bs) == {}
    ensures bs == Fresh()
  {
    TwoHaveALiveOne(bs);
    assert bs[0] in bs;
    assert !bs[0].free ==> (bs[0].addr, bs[0].size) in Live(bs);
  }

  lemma TwoHaveALiveOne(bs: seq<Block>)
    requires Coalesced(bs)
    ensures |bs| > 1 ==> Live(bs) != {}
  {
    if |bs| > 1 {
      var b := if bs[0].free then bs[1] else bs[0];
      assert b in bs && !b.free;
      assert (b.addr, b.size) in Live(bs);
    }
  }

  /** A request whose rounding wraps to zero puts an empty block in the list: the tiling
      survives an allocation exactly when it does not wrap, or there is nothing free. */
  lemma AllocKeepsTilingIffNoWrap(bs: seq<Block>, size: nat)
    requires Wf(bs)
    ensures Wf(Alloc(bs, size).0)
       <==> size == 0 || RoundUp(size) > 0 || forall i :: 0 <= i < |bs| ==> !bs[i].free
  {
    var n := RoundUp(size);
    var k := FirstFit(bs, n, 0);
    if size != 0 && k < |bs| {
      if n > 0 {
        SplitWf(bs, k, n);
      } else {
        SplitElems(bs, k, n);
        assert Split(bs, k, n)[k].size == 0;
      }
    }
  }

  /** It can wrap: the largest size is taken for an empty block. */
  lemma WrapBreaksTiling()
    ensures RoundUp(WORD - 1) == 0 && Alloc(Fresh(), WORD - 1).1.Got? && !Wf(Alloc(Fresh(), WORD - 1).0)
  {
  }

  datatype Op = AllocOp(size: nat) | FreeOp(addr: nat)

  function Apply(bs: seq<Block>, op: Op): seq<Block> {
    match op
    case AllocOp(size) => Alloc(bs, size).0
    case FreeOp(addr) => Dealloc(bs, addr).0
  }

  function History(ops: seq<Op>): seq<Block> {
    if ops == [] then Fresh() else Apply(History(ops[..|ops| - 1]), ops[|ops| - 1])
  }

  predicate NoWrap(op: Op) { op.AllocOp? ==> op.size == 0 || RoundUp(op.size) > 0 }

  /** Every history without wrapping requests keeps the arena tiled and merged. */
  lemma {:induction false} HistoryIsTiled(ops: seq<Op>)
    requires forall i :: 0 <= i < |ops| ==> NoWrap(ops[i])
    ensures Wf(History(ops))
  {
    if ops != [] {
      var (front, op) := (ops[..|ops| - 1], ops[|ops| - 1]);
      HistoryIsTiled(front);
      var bs := History(front);
      if op.AllocOp? {
        AllocKeepsTilingIffNoWrap(bs, op.size);
      } else if FindLive(bs, op.addr, 0) < |bs| {
        ReleaseWf(bs, FindLive(bs, op.addr, 0));
      }
    }
  }

  /** Any history that leaves nothing live ends in the single initial block. */
  lemma HistoryCollapses(ops: seq<Op>)
    requires forall i :: 0 <= i < |ops| ==> NoWrap(ops[i])
    requires Live(History(ops)) == {}
    ensures History(ops) == Fresh()
  {
    HistoryIsTiled(ops);
    NothingLiveIsFresh(History(ops));
  }

  // ------------------------------------------------------------------- clients

  /** Two allocations never overlap. */
  lemma LiveDisjoint(bs: seq<Block>, p: (nat, nat), q: (nat, nat))
    requires Tiles(bs) && p in Live(bs) && q in Live(bs)
    ensures p == q || p.0 + p.1 <= q.0 || q.0 + q.1 <= p.0
    ensures BASE <= p.0 && p.0 + p.1 <= END && p.1 > 0
  {
    var b :| b in bs && !b.free && p == (b.addr, b.size);
    var c :| c in bs && !c.free && q == (c.addr, c.size);
    var i :| 0 <= i < |bs| && bs[i] == b;
    var j :| 0 <= j < |bs| && bs[j] == c;
    WithinArena(bs, i);
    if i < j { Ordered(bs, i, j); }
    if j < i { Ordered(bs, j, i); }
  }

  lemma LiveAt(bs: seq<Block>, p: (nat, nat))
    requires Tiles(bs) && p in Live(bs)
    ensures var k := FindLive(bs, p.0, 0); k < |bs| && (bs[k].addr, bs[k].size) == p
  {
    var b :| b in bs && !b.free && p == (b.addr, b.size);
    var k := FindLive(bs, p.0, 0);
    assert bs[k] in bs && (bs[k].addr, bs[k].size) in Live(bs);
    LiveDisjoint(bs, p, (bs[k].addr, bs[k].size));
  }

  /** Freeing an allocation takes exactly it away. */
  lemma DeallocTakes(bs: seq<Block>, p: (nat, nat))
    requires Wf(bs) && p in Live(bs)
    ensures var (bs', ok) := Dealloc(bs, p.0);
      ok && Wf(bs') && Live(bs') == Live(bs) - {p} && LiveSize(bs') == LiveSize(bs) - p.1
  {
    LiveAt(bs, p);
    var k := FindLive(bs, p.0, 0);
    ReleaseWf(bs, k);
    ReleaseLive(bs, k);
    ReleaseSize(bs, k);
  }

  lemma PageRounds()
    ensures RoundUp(PAGE_SIZE) == PAGE_SIZE
  {
  }

  /** A page allocated is a new allocation, and nothing else changes. */
  lemma AllocAdds(bs: seq<Block>)
    requires Wf(bs) && Alloc(bs, PAGE_SIZE).1.Got?
    ensures var (bs', r) := Alloc(bs, PAGE_SIZE);
      && Wf(bs') && Live(bs') == Live(bs) + {(r.addr, PAGE_SIZE)} && (r.addr, PAGE_SIZE) !in Live(bs)
      && LiveSize(bs') == LiveSize(bs) + PAGE_SIZE
  {
    PageRounds();
    var k := FirstFit(bs, PAGE_SIZE, 0);
    SplitWf(bs, k, PAGE_SIZE);
    SplitLive(bs, k, PAGE_SIZE);
    SplitSize(bs, k, PAGE_SIZE);
  }

  lemma {:induction false} AllLiveSize(bs: seq<Block>, n: nat)
    requires Tiles(bs) && n <= |bs| && forall i :: 0 <= i < n ==> !bs[i].free
    ensures LiveSize(bs[..n]) == (if n < |bs| then bs[n].addr else END) - BASE
  {
    if n > 0 {
      AllLiveSize(bs, n - 1);
      assert bs[..n][..n - 1] == bs[..n - 1];
    }
  }

  /** While not all of the arena is allocated there is room for a page. */
  lemma RoomForPage(bs: seq<Block>)
    requires Wf(bs) && LiveSize(bs) < SIZE
    ensures Alloc(bs, PAGE_SIZE).1.Got?
  {
    PageRounds();
    assert bs[..|bs|] == bs;
    var k := FirstFit(bs, PAGE_SIZE, 0);
    if k == |bs| {
      forall i | 0 <= i < |bs| ensures !bs[i].free { assert !Fits(bs[i], PAGE_SIZE); }
      AllLiveSize(bs, |bs|);
    }
  }

  lemma {:induction false} LiveSizeBound(bs: seq<Block>, n: nat)
    requires Tiles(bs) && n <= |bs|
    ensures LiveSize(bs[..n]) <= (if n < |bs| then bs[n].addr else END) - BASE
  {
    if n > 0 {
      LiveSizeBound(bs, n - 1);
      assert bs[..n][..n - 1] == bs[..n - 1];
    }
  }

  /** Once a page has been freed, a page can be allocated. */
  lemma FreedMakesRoom(bs: seq<Block>, p: (nat, nat))
    requires Wf(bs) && p in Live(bs)
    ensures Alloc(Dealloc(bs, p.0).0, PAGE_SIZE).1.Got?
  {
    DeallocTakes(bs, p);
    LiveSizeBound(bs, |bs|);
    assert bs[..|bs|] == bs;
    LiveDisjoint(bs, p, p);
    RoomForPage(Dealloc(bs, p.0).0);
  }

  /** An allocation of any size leaves the others alone. */
  lemma AllocKeepsLive(bs: seq<Block>, size: nat)
    requires Wf(bs) && (size == 0 || RoundUp(size) > 0)
    ensures Wf(Alloc(bs, size).0) && Live(bs) <= Live(Alloc(bs, size).0)
  {
    AllocKeepsTilingIffNoWrap(bs, size);
    var k := FirstFit(bs, RoundUp(size), 0);
    if size != 0 && k < |bs| { SplitLive(bs, k, RoundUp(size)); }
  }

  /** So does a free of any address. */
  lemma DeallocKeepsLive(bs: seq<Block>, addr: nat)
    requires Wf(bs)
    ensures Wf(Dealloc(bs, addr).0)
    ensures forall p :: p in Live(bs) && p.0 != addr ==> p in Live(Dealloc(bs, addr).0)
  {
    var k := FindLive(bs, addr, 0);
    if k < |bs| {
      assert bs[k] in bs && bs[k].addr == addr;
      DeallocTakes(bs, (addr, bs[k].size));
    }
  }

  /** Rounding gives the least number of whole pages that hold the size, and zero exactly for
      no bytes and for the sizes at which it wraps. */
  lemma RoundUpHolds(size: nat)
    requires size < WORD
    ensures RoundUp(size) == 0 <==> size == 0 || size > WORD - PAGE_SIZE
    ensures RoundUp(size) > 0 ==> size <= RoundUp(size) < size + PAGE_SIZE && RoundUp(size) % PAGE_SIZE == 0
  {
  }

  /** A request is invalid exactly if it is for no bytes. One that is granted adds an allocation
      that holds it, and nothing else; one that is not changes nothing. */
  lemma AllocOutcome(bs: seq<Block>, size: nat)
    requires Wf(bs) && size <= WORD - PAGE_SIZE
    ensures Alloc(bs, size).1.Invalid? <==> size == 0
    ensures !Alloc(bs, size).1.Got? ==> Alloc(bs, size).0 == bs
    ensures Alloc(bs, size).1.Got? ==>
      var (bs', a) := Alloc(bs, size);
      exists n :: size <= n < size + PAGE_SIZE && Live(bs') == Live(bs) + {(a.addr, n)} && (a.addr, n) !in Live(bs)
        && LiveSize(bs') == LiveSize(bs) + n
  {
    RoundUpHolds(size);
    if Alloc(bs, size).1.Got? {
      var (n, k) := (RoundUp(size), FirstFit(bs, RoundUp(size), 0));
      SplitLive(bs, k, n);
      SplitSize(bs, k, n);
    }
  }

  /** A free succeeds exactly at the address of an allocation, and otherwise changes nothing. */
  lemma DeallocOutcome(bs: seq<Block>, addr: nat)
    requires Wf(bs)
    ensures Dealloc(bs, addr).1 <==> exists n :: (addr, n) in Live(bs)
    ensures !Dealloc(bs, addr).1 ==> Dealloc(bs, addr).0 == bs
  {
    var k := FindLive(bs, addr, 0);
    if k < |bs| {
      assert bs[k] in bs;
      assert (addr, bs[k].size) in Live(bs);
    }
    if n :| (addr, n) in Live(bs) { LiveAt(bs, (addr, n)); }
  }
}
