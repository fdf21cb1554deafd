/** The request ring between a client and the memory server: 128 slots, one page buffer
    shared by all transfers, and the server's memory. The client writes at `tail` and the
    server reads at `head`. Submitting and serving a request each hold the queue lock, so
    each is one step; a single client process draws the request ids. */
module Ring {
  import opened Common
  import opened Allocator

  const SLOTS := 128
  const BUFFER := 4096

  const ENOMEM := 12
  const EFAULT := 14
  const EINVAL := 22
  const ENOSYS := 38
  const EMSGSIZE := 90

  datatype Op = Read | Write | Init | Shutdown | Allocate | Free
  datatype Status = Pending | Processing | Completed | Failed

  datatype Slot = Slot(id: nat, op: Op, local: nat, remote: nat, size: nat, status: Status, error: nat, inBuffer: bool)

  datatype Request = Request(op: Op, local: nat, remote: nat, size: nat, data: Option<seq<Byte>>)

  datatype Chan = Chan(slots: seq<Slot>, head: nat, tail: nat, count: nat, nextId: nat,
                       buffer: seq<Byte>, memory: seq<Byte>, blocks: seq<Block>,
                       total: nat, completed: nat, failed: nat, shutdown: bool)

  /** What the client promises: data, if given, is as long as the request says. */
  predicate Proper(q: Request) { q.data.Some? ==> |q.data.value| == q.size }

  predicate Carries(q: Request) { q.op.Write? && q.data.Some? && q.size > 0 }

  /** A write too large for the page buffer is turned away after its slot is filled in. */
  predicate Oversize(q: Request) { Carries(q) && q.size > BUFFER }

  function Patch(s: seq<Byte>, at: nat, bytes: seq<Byte>): (r: seq<Byte>)
    requires at + |bytes| <= |s|
    ensures |r| == |s|
  {
    s[..at] + bytes + s[at + |bytes|..]
  }

  /** Sizes and indices are in range, and only a write that fits the buffer is marked as in it. */
  ghost predicate Shape(c: Chan) {
    && |c.slots| == SLOTS && |c.buffer| == BUFFER && |c.memory| == SIZE
    && c.head < SLOTS && c.tail < SLOTS
    && (forall i :: 0 <= i < SLOTS ==> c.slots[i].inBuffer ==> c.slots[i].size <= BUFFER)
  }

  function SlotOf(q: Request, id: nat): Slot {
    Slot(id, q.op, q.local, q.remote, q.size, Pending, 0, Carries(q) && !Oversize(q))
  }

  /** `rdma_submit_request`: the new state and the id, 0 if the request is turned away. */
  function Submit(c: Chan, q: Request): (Chan, nat)
    requires Shape(c) && Proper(q)
  {
    if c.count >= SLOTS then (c, 0)
    else
      var r := SlotOf(q, c.nextId);
      var d := c.(nextId := c.nextId + 1, slots := c.slots[c.tail := r]);
      if Oversize(q) then (d, 0)
      else
        (d.(buffer := if r.inBuffer then Patch(c.buffer, 0, q.data.value) else c.buffer,
            tail := (c.tail + 1) % SLOTS, count := c.count + 1, total := c.total + 1),
         c.nextId)
  }

  predicate InArena(r: Slot) { BASE <= r.remote && r.remote - BASE + r.size <= SIZE }

  /** `rdma_server_handle_request`: the new state, the slot as left by the handler, the result. */
  function Handle(c: Chan, r: Slot): (Chan, Slot, nat)
    requires Shape(c) && (r.inBuffer ==> r.size <= BUFFER)
  {
    match r.op
    case Init => (c, r, 0)
    case Read =>
      if r.size == 0 || r.size > BUFFER then (c, r, EINVAL)
      else if !InArena(r) then (c, r, EFAULT)
      else (c.(buffer := Patch(c.buffer, 0, c.memory[r.remote - BASE..r.remote - BASE + r.size])), r, 0)
    case Write =>
      if !r.inBuffer || r.size == 0 then (c, r, EINVAL)
      else if !InArena(r) then (c, r, EFAULT)
      else (c.(memory := Patch(c.memory, r.remote - BASE, c.buffer[..r.size])), r, 0)
    case Allocate =>
      var (blocks, a) := Alloc(c.blocks, r.size);
      if a.Got? then (c.(blocks := blocks), r.(remote := a.addr), 0)
      else (c, r, if a.Invalid? then EINVAL else ENOMEM)
    case Free => (c, r, ENOSYS)
    case Shutdown => (c.(shutdown := true), r, 0)
  }

  /** A handled request with its verdict. */
  function Judged(r: Slot, result: nat): Slot {
    if result == 0 then r.(status := Completed, error := 0) else r.(status := Failed, error := result)
  }

  /** One turn of the drain loop of `rdma_server_process_requests`. */
  function Serve(c: Chan): Chan
    requires Shape(c) && c.count > 0
  {
    (if c.slots[c.head].status.Pending? then Handled(c) else c).(head := (c.head + 1) % SLOTS, count := c.count - 1)
  }

  /** The request under `head` handled and judged. */
  function Handled(c: Chan): Chan
    requires Shape(c)
  {
    var (d, r, result) := Handle(c, c.slots[c.head]);
    var ok := if result == 0 then 1 else 0;
    d.(slots := c.slots[c.head := Judged(r, result)], completed := c.completed + ok, failed := c.failed + 1 - ok)
  }

  /** The slot a poll of `rdma_wait_request` looks at: the first with this id that has left PENDING. */
  function Search(slots: seq<Slot>, id: nat, i: nat): (k: nat)
    requires i <= |slots|
    ensures i <= k <= |slots| && (k < |slots| ==> slots[k].id == id && !slots[k].status.Pending?)
    ensures forall j :: i <= j < k ==> slots[j].id != id || slots[j].status.Pending?
    decreases |slots| - i
  {
    if i == |slots| || (slots[i].id == id && !slots[i].status.Pending?) then i else Search(slots, id, i + 1)
  }

  // ------------------------------------------------------------------ history

  /** The requests taken into the ring, those served with the slot each ended in, and whether
      a write has been turned away for its size since the last request was accepted. */
  datatype History = History(accepted: seq<Slot>, served: seq<Slot>, spoiled: bool)

  /** The client submits, the server answers, or the client frees a block itself. */
  datatype Step = Submitting(q: Request) | Serving | Freeing(addr: nat)

  function InitChan(): (c: Chan)
    ensures Shape(c)
  {
    Chan(seq(SLOTS, _ => Slot(0, Read, 0, 0, 0, Pending, 0, false)), 0, 0, 0, 1,
         seq(BUFFER, _ => 0), seq(SIZE, _ => 0), Fresh(), 0, 0, 0, false)
  }

  /** The server only runs when something is queued. */
  predicate Enabled(c: Chan, s: Step) {
    (s.Submitting? ==> Proper(s.q)) && (s.Serving? ==> c.count > 0)
  }

  function Next(c: Chan, s: Step): Chan
    requires Shape(c) && Enabled(c, s)
  {
    match s
    case Submitting(q) => Submit(c, q).0
    case Serving => Serve(c)
    case Freeing(addr) => c.(blocks := Dealloc(c.blocks, addr).0)
  }

  /** The record once a slot is filled in, for a request taken in or turned away. */
  function Enter(h: History, r: Slot, taken: bool): History {
    if taken then h.(accepted := h.accepted + [r], spoiled := false) else h.(spoiled := true)
  }

  /** What a step adds to the record: an accepted request, or the slot the server left. */
  function Recorded(c: Chan, h: History, s: Step): History
    requires Shape(c) && Enabled(c, s)
  {
    match s
    case Submitting(q) => if c.count >= SLOTS then h else Enter(h, SlotOf(q, c.nextId), !Oversize(q))
    case Serving => h.(served := h.served + [Serve(c).slots[c.head]])
    case Freeing(_) => h
  }

  // ---------------------------------------------------------------- invariant

  function Position(k: nat): nat { k % SLOTS }

  ghost predicate IdsGrow(accepted: seq<Slot>, nextId: nat) {
    && nextId > 0
    && (forall i :: 0 <= i < |accepted| ==> 0 < accepted[i].id < nextId && accepted[i].status.Pending?)
    && (forall i, j :: 0 <= i < j < |accepted| ==> accepted[i].id < accepted[j].id)
  }

  predicate AnswerTo(r: Slot, r': Slot) {
    r' == r.(remote := r'.remote, status := r'.status, error := r'.error)
    && if r'.error == 0 then r'.status.Completed? else r'.status.Failed?
  }

  /** Served requests are the oldest accepted ones, each judged. */
  ghost predicate Answers(h: History) {
    && |h.served| <= |h.accepted|
    && (forall k :: 0 <= k < |h.served| ==> AnswerTo(h.accepted[k], h.served[k]))
  }

  /** The slot of the `k`-th request has not been filled in again: fewer than 127 later
      requests were accepted, or exactly 127 and no write was turned away after them. */
  predicate Remains(h: History, k: nat) {
    |h.accepted| - k - 1 < 127 || (|h.accepted| - k - 1 == 127 && !h.spoiled)
  }

  /** Queued requests are in their slots, and so are the served ones that remain. */
  ghost predicate Retained(slots: seq<Slot>, h: History)
    requires |slots| == SLOTS
  {
    && (forall k :: |h.served| <= k < |h.accepted| ==> slots[Position(k)] == h.accepted[k])
    && (forall k :: 0 <= k < |h.served| && Remains(h, k) ==> slots[Position(k)] == h.served[k])
  }

  /** Only the slot at its own position can bear the id of an accepted request, if it remains. */
  ghost predicate Placed(slots: seq<Slot>, h: History, nextId: nat) {
    && (forall i :: 0 <= i < |slots| ==> slots[i].id < nextId)
    && (forall i, k :: 0 <= i < |slots| && 0 <= k < |h.accepted| && slots[i].id == h.accepted[k].id ==>
          Position(k) == i && Remains(h, k))
  }

  function Successes(served: seq<Slot>): nat {
    if served == [] then 0
    else Successes(served[..|served| - 1]) + if served[|served| - 1].status.Completed? then 1 else 0
  }

  ghost predicate Indexed(head: nat, tail: nat, count: nat, h: History) {
    && count == |h.accepted| - |h.served| <= SLOTS
    && head == Position(|h.served|) && tail == Position(|h.accepted|)
  }

  ghost predicate Counted(total: nat, completed: nat, failed: nat, h: History) {
    total == |h.accepted| && completed == Successes(h.served) && completed + failed == |h.served|
  }

  ghost predicate Inv(c: Chan, h: History) {
    && Shape(c) && Agree(c.slots, h, c.nextId)
    && Indexed(c.head, c.tail, c.count, h) && Counted(c.total, c.completed, c.failed, h)
  }

  lemma SamePosition(j: nat, k: nat)
    requires Position(j) == Position(k) && j < k
    ensures k - j >= SLOTS
  {
  }

  lemma NextPosition(k: nat)
    ensures Position(k + 1) == (Position(k) + 1) % SLOTS
  {
  }

  lemma WrapsAround(k: nat)
    ensures Position(k + SLOTS) == Position(k)
  {
  }

  // ------------------------------------------------------------ preservation

  /** Filling in the slot at `tail` disturbs no queued request while there is room. */
  lemma SlotWritten(slots: seq<Slot>, h: History, r: Slot, taken: bool)
    requires |slots| == SLOTS && Answers(h) && |h.accepted| - |h.served| < SLOTS
    requires Retained(slots, h)
    ensures Retained(slots[Position(|h.accepted|) := r], Enter(h, r, taken))
  {
    var t := Position(|h.accepted|);
    var slots' := slots[t := r];
    forall k | 0 <= k < |h.accepted| && (|h.served| <= k || |h.accepted| - k <= 127)
      ensures slots'[Position(k)] == slots[Position(k)]
    {
      if Position(k) == t { SamePosition(k, |h.accepted|); }
    }
    assert slots'[Position(|h.accepted|)] == r;
  }

  /** The fresh id it bears is that of no earlier request, and the id it covers is gone. */
  lemma SlotPlaced(slots: seq<Slot>, h: History, r: Slot, taken: bool)
    requires |slots| == SLOTS && Placed(slots, h, r.id) && IdsGrow(h.accepted, r.id)
    ensures Placed(slots[Position(|h.accepted|) := r], Enter(h, r, taken), r.id + 1)
  {
    var t := Position(|h.accepted|);
    forall i, k | 0 <= i < SLOTS && i != t && 0 <= k < |h.accepted| && slots[i].id == h.accepted[k].id
      ensures Position(k) == i && |h.accepted| - k <= 127
    {
      WrapsAround(k);
    }
  }

  lemma SlotAccepted(h: History, nextId: nat, q: Request, taken: bool)
    requires Answers(h) && IdsGrow(h.accepted, nextId)
    ensures var h' := Enter(h, SlotOf(q, nextId), taken); Answers(h') && IdsGrow(h'.accepted, nextId + 1)
  {
  }

  /** The slots and the record agree. */
  ghost predicate Agree(slots: seq<Slot>, h: History, nextId: nat) {
    && |slots| == SLOTS && Answers(h) && IdsGrow(h.accepted, nextId)
    && Retained(slots, h) && Placed(slots, h, nextId)
  }

  lemma SubmitAgrees(slots: seq<Slot>, h: History, nextId: nat, q: Request, taken: bool)
    requires Agree(slots, h, nextId) && |h.accepted| - |h.served| < SLOTS
    ensures var r := SlotOf(q, nextId); Agree(slots[Position(|h.accepted|) := r], Enter(h, r, taken), nextId + 1)
  {
    var r := SlotOf(q, nextId);
    SlotWritten(slots, h, r, taken);
    SlotPlaced(slots, h, r, taken);
    SlotAccepted(h, nextId, q, taken);
  }

  /** A request was written into the slot at `tail`, and taken in or turned away. */
  ghost predicate Entered(c: Chan, q: Request, d: Chan, taken: bool) {
    && d.slots == (if c.tail < |c.slots| then c.slots[c.tail := SlotOf(q, c.nextId)] else c.slots)
    && d.nextId == c.nextId + 1 && d.head == c.head && d.completed == c.completed && d.failed == c.failed
    && if taken then d.tail == (c.tail + 1) % SLOTS && d.count == c.count + 1 && d.total == c.total + 1
       else d.tail == c.tail && d.count == c.count && d.total == c.total
  }

  lemma SubmitEnters(c: Chan, q: Request)
    requires Shape(c) && Proper(q) && c.count < SLOTS
    ensures Shape(Submit(c, q).0) && Entered(c, q, Submit(c, q).0, !Oversize(q))
  {
  }

  lemma EnteredInv(c: Chan, h: History, q: Request, d: Chan, taken: bool)
    requires Inv(c, h) && c.count < SLOTS && Shape(d) && Entered(c, q, d, taken)
    ensures Inv(d, Enter(h, SlotOf(q, c.nextId), taken))
  {
    SubmitAgrees(c.slots, h, c.nextId, q, taken);
    EnteredIndexed(c.head, c.tail, c.count, h, SlotOf(q, c.nextId), taken);
  }

  lemma EnteredIndexed(head: nat, tail: nat, count: nat, h: History, r: Slot, taken: bool)
    requires Indexed(head, tail, count, h) && count < SLOTS
    ensures if taken then Indexed(head, (tail + 1) % SLOTS, count + 1, Enter(h, r, taken))
            else Indexed(head, tail, count, Enter(h, r, taken))
  {
    NextPosition(|h.accepted|);
  }

  lemma SubmitInv(c: Chan, h: History, q: Request)
    requires Inv(c, h) && Proper(q)
    ensures Inv(Submit(c, q).0, Recorded(c, h, Submitting(q)))
  {
    if c.count < SLOTS {
      SubmitEnters(c, q);
      EnteredInv(c, h, q, Submit(c, q).0, !Oversize(q));
    }
  }

  lemma HandleFrame(c: Chan, r: Slot)
    requires Shape(c) && (r.inBuffer ==> r.size <= BUFFER)
    ensures var (d, r', result) := Handle(c, r);
      && Shape(d) && r' == r.(remote := r'.remote)
      && d == c.(buffer := d.buffer, memory := d.memory, blocks := d.blocks, shutdown := d.shutdown)
  {
  }

  lemma ServeAgrees(slots: seq<Slot>, h: History, nextId: nat, r: Slot)
    requires Agree(slots, h, nextId) && |h.served| < |h.accepted| <= |h.served| + SLOTS
    requires AnswerTo(h.accepted[|h.served|], r)
    ensures Agree(slots[Position(|h.served|) := r], h.(served := h.served + [r]), nextId)
  {
  }

  lemma SuccessesGrow(served: seq<Slot>, r: Slot)
    ensures Successes(served + [r]) == Successes(served) + if r.status.Completed? then 1 else 0
  {
  }

  /** The request under `head` was answered with `r`. */
  ghost predicate Left(c: Chan, d: Chan, r: Slot)
    requires c.head < |c.slots|
  {
    var ok := if r.status.Completed? then 1 else 0;
    && d.slots == c.slots[c.head := r] && d.head == (c.head + 1) % SLOTS && d.count == c.count - 1
    && d.nextId == c.nextId && d.tail == c.tail && d.total == c.total
    && d.completed == c.completed + ok && d.failed == c.failed + 1 - ok
  }

  lemma ServeLeaves(c: Chan) returns (r: Slot)
    requires Shape(c) && c.count > 0 && c.slots[c.head].status.Pending?
    ensures Shape(Serve(c)) && Left(c, Serve(c), r) && AnswerTo(c.slots[c.head], r)
  {
    NextShape(c, Serving);
    HandleFrame(c, c.slots[c.head]);
    var (_, r', result) := Handle(c, c.slots[c.head]);
    r := Judged(r', result);
  }

  lemma LeftInv(c: Chan, h: History, d: Chan, r: Slot)
    requires Inv(c, h) && c.count > 0 && Shape(d) && Left(c, d, r) && AnswerTo(h.accepted[|h.served|], r)
    ensures Inv(d, h.(served := h.served + [r]))
  {
    ServeAgrees(c.slots, h, c.nextId, r);
    LeftIndexed(c.head, c.tail, c.count, h, r);
    LeftCounted(c.total, c.completed, c.failed, h, r);
  }

  lemma LeftCounted(total: nat, completed: nat, failed: nat, h: History, r: Slot)
    requires Counted(total, completed, failed, h)
    ensures var ok := if r.status.Completed? then 1 else 0;
      Counted(total, completed + ok, failed + 1 - ok, h.(served := h.served + [r]))
  {
    SuccessesGrow(h.served, r);
  }

  lemma LeftIndexed(head: nat, tail: nat, count: nat, h: History, r: Slot)
    requires Indexed(head, tail, count, h) && count > 0
    ensures Indexed((head + 1) % SLOTS, tail, count - 1, h.(served := h.served + [r]))
  {
    NextPosition(|h.served|);
  }

  lemma ServeInv(c: Chan, h: History)
    requires Inv(c, h) && c.count > 0
    ensures Inv(Serve(c), Recorded(c, h, Serving))
  {
    assert c.slots[c.head] == h.accepted[|h.served|] && h.accepted[|h.served|].status.Pending?;
    var r := ServeLeaves(c);
    LeftInv(c, h, Serve(c), r);
  }

  // ---------------------------------------------------------------- runs

  /** The state and the record after a run, if every step of it was possible. */
  function Run(steps: seq<Step>): (r: Option<(Chan, History)>)
    ensures r.Some? ==> Shape(r.value.0)
  {
    if steps == [] then Some((InitChan(), History([], [], false)))
    else
      var last := steps[|steps| - 1];
      var r := Run(steps[..|steps| - 1]);
      if r.None? || !Enabled(r.value.0, last) then None
      else
        var (c, h) := r.value;
        NextShape(c, last);
        Some((Next(c, last), Recorded(c, h, last)))
  }

  lemma NextShape(c: Chan, s: Step)
    requires Shape(c) && Enabled(c, s)
    ensures Shape(Next(c, s))
  {
    if s.Serving? { HandleFrame(c, c.slots[c.head]); }
  }

  lemma {:induction false} RunInv(steps: seq<Step>)
    requires Run(steps).Some?
    ensures Inv(Run(steps).value.0, Run(steps).value.1)
  {
    if steps == [] {
      assert Position(0) == 0;
    } else {
      var last := steps[|steps| - 1];
      RunInv(steps[..|steps| - 1]);
      var (c, h) := Run(steps[..|steps| - 1]).value;
      match last
      case Submitting(q) => SubmitInv(c, h, q);
      case Serving => ServeInv(c, h);
      case Freeing(_) =>
    }
  }

  lemma RunGrows(steps: seq<Step>, s: Step)
    requires Run(steps).Some? && Enabled(Run(steps).value.0, s)
    ensures var (c, h) := Run(steps).value; Run(steps + [s]) == Some((Next(c, s), Recorded(c, h, s)))
  {
  }

  /** The ring index of the `k`-th live slot. */
  function LiveAt(head: nat, k: nat): (i: nat)
    ensures i < SLOTS
  {
    (head + k) % SLOTS
  }

  lemma LivePosition(n: nat, k: nat)
    ensures LiveAt(Position(n), k) == Position(n + k)
  {
  }

  /** The live slots are the accepted requests not yet served, in order. */
  lemma LiveSlots(c: Chan, h: History)
    requires Inv(c, h)
    ensures c.tail == LiveAt(c.head, c.count)
    ensures forall k :: 0 <= k < c.count ==> c.slots[LiveAt(c.head, k)] == h.accepted[|h.served|..][k]
  {
    LivePosition(|h.served|, c.count);
    forall k | 0 <= k < c.count ensures c.slots[LiveAt(c.head, k)] == h.accepted[|h.served|..][k] {
      LivePosition(|h.served|, k);
    }
  }

  /** In every run: `tail` is `count` past `head`; the served requests are the first ones
      accepted, in order, each served once; the rest wait in the live slots, all PENDING;
      and every accepted request is completed, failed or waiting. */
  lemma RingProtocol(steps: seq<Step>)
    requires Run(steps).Some?
    ensures var (c, h) := Run(steps).value;
      && |h.accepted| == |h.served| + c.count && c.tail == LiveAt(c.head, c.count)
      && (forall k :: 0 <= k < |h.served| ==> AnswerTo(h.accepted[k], h.served[k]))
      && (forall k :: 0 <= k < c.count ==> c.slots[LiveAt(c.head, k)] == h.accepted[|h.served|..][k])
      && (forall k :: 0 <= k < |h.accepted| ==> h.accepted[k].status.Pending?)
      && (forall i, j :: 0 <= i < j < |h.accepted| ==> h.accepted[i].id < h.accepted[j].id)
      && c.total == c.completed + c.failed + c.count
  {
    RunInv(steps);
    var (c, h) := Run(steps).value;
    LiveSlots(c, h);
  }

  /** In every run a waiter finds the verdict of its request, and its own, exactly when the
      request was served and its slot has not been filled in again. */
  lemma AnswerIsKept(steps: seq<Step>, k: nat)
    requires Run(steps).Some? && k < |Run(steps).value.1.accepted|
    ensures var (c, h) := Run(steps).value;
      var i := Search(c.slots, h.accepted[k].id, 0);
      && (i < SLOTS <==> k < |h.served| && Remains(h, k))
      && (i < SLOTS ==> k < |h.served| && c.slots[i] == h.served[k])
  {
    RunInv(steps);
    var (c, h) := Run(steps).value;
    KeptAnswer(c.slots, h, c.nextId, k);
  }

  lemma KeptAnswer(slots: seq<Slot>, h: History, nextId: nat, k: nat)
    requires Agree(slots, h, nextId) && k < |h.accepted|
    ensures var i := Search(slots, h.accepted[k].id, 0);
      && (i < SLOTS <==> k < |h.served| && Remains(h, k))
      && (i < SLOTS ==> k < |h.served| && slots[i] == h.served[k])
  {
    if k < |h.served| && Remains(h, k) { assert slots[Position(k)] == h.served[k]; }
  }

  /** With 127 later requests accepted, the next write turned away for its size loses the verdict. */
  lemma OversizeLosesTheAnswer(steps: seq<Step>, k: nat, q: Request)
    requires Run(steps).Some? && Proper(q) && Oversize(q)
    requires var (c, h) := Run(steps).value; c.count < SLOTS && k < |h.accepted| && |h.accepted| - k - 1 == 127
    ensures var (c, h) := Run(steps).value;
      Submit(c, q).1 == 0 && Search(Submit(c, q).0.slots, h.accepted[k].id, 0) == SLOTS
  {
    RunGrows(steps, Submitting(q));
    RunInv(steps);
    RunInv(steps + [Submitting(q)]);
    AnswerIsKept(steps + [Submitting(q)], k);
  }

  /** The state when the server has answered everything queued. */
  function Drained(c: Chan): (d: Chan)
    requires Shape(c)
    ensures Shape(d)
    decreases c.count
  {
    if c.count == 0 then c else (NextShape(c, Serving); Drained(Serve(c)))
  }

  lemma HandleIgnoresSlots(c: Chan, slots: seq<Slot>, r: Slot)
    requires Shape(c) && Shape(c.(slots := slots)) && (r.inBuffer ==> r.size <= BUFFER)
    ensures var (d, r', result) := Handle(c, r); Handle(c.(slots := slots), r) == (d.(slots := slots), r', result)
  {
  }

  // ------------------------------------------------- submit, then wait

  /** The state once a request submitted to an idle ring has been answered, and its id. */
  function Exchange(c: Chan, q: Request): (Chan, nat)
    requires Shape(c) && Proper(q)
  {
    NextShape(c, Submitting(q));
    var (d, id) := Submit(c, q);
    (Drained(d), id)
  }

  /** The buffer as the handler finds it. */
  function Loaded(c: Chan, q: Request): Chan
    requires Shape(c) && Proper(q)
  {
    c.(buffer := if Carries(q) && !Oversize(q) then Patch(c.buffer, 0, q.data.value) else c.buffer)
  }

  /** The request was served at once, in the slot under `head`, the only one with its id. */
  ghost predicate Answered(c: Chan, q: Request, e: Chan, id: nat)
    requires Shape(c) && Proper(q)
  {
    var (d, r, result) := Handle(Loaded(c, q), SlotOf(q, c.nextId));
    && id == c.nextId > 0 && e.slots == c.slots[c.head := Judged(r, result)]
    && e.memory == d.memory && e.blocks == d.blocks && e.buffer == d.buffer
    && (forall i :: 0 <= i < |e.slots| && e.slots[i].id == id ==> i == c.head)
  }

  lemma ExchangeAnswered(steps: seq<Step>, q: Request)
    requires Run(steps).Some? && Run(steps).value.0.count == 0 && Proper(q) && !Oversize(q)
    ensures var c := Run(steps).value.0; Answered(c, q, Exchange(c, q).0, Exchange(c, q).1)
  {
    RunInv(steps);
    var (c, h) := Run(steps).value;
    IdleAnswered(c, h, q);
  }

  lemma IdleAnswered(c: Chan, h: History, q: Request)
    requires Inv(c, h) && c.count == 0 && Proper(q) && !Oversize(q)
    ensures Answered(c, q, Exchange(c, q).0, Exchange(c, q).1)
  {
    NextShape(c, Submitting(q));
    var d := Submit(c, q).0;
    assert d.head == c.tail && d.count == 1 && d.slots[d.head] == SlotOf(q, c.nextId);
    HandleIgnoresQueue(c, d, q);
    HandleFrame(d, SlotOf(q, c.nextId));
    assert Drained(d) == Serve(d) by { NextShape(d, Serving); }
  }

  lemma HandleIgnoresQueue(c: Chan, d: Chan, q: Request)
    requires Shape(c) && Proper(q) && Shape(d)
    requires d == Loaded(c, q).(slots := d.slots, tail := d.tail, count := d.count, nextId := d.nextId,
      total := d.total)
    ensures var r := SlotOf(q, c.nextId);
      var (l, r1, result1) := Handle(Loaded(c, q), r);
      var (e, r2, result2) := Handle(d, r);
      r1 == r2 && result1 == result2 && l.memory == e.memory && l.blocks == e.blocks && l.buffer == e.buffer
  {
  }

  lemma FoundAtHead(c: Chan, q: Request, e: Chan, id: nat)
    requires Shape(c) && Proper(q) && Answered(c, q, e, id)
    ensures Search(e.slots, id, 0) == c.head < |e.slots|
  {
    HandleFrame(Loaded(c, q), SlotOf(q, c.nextId));
    assert e.slots[c.head].id == id && !e.slots[c.head].status.Pending?;
  }

  lemma PatchPrefix(s: seq<Byte>, bytes: seq<Byte>)
    requires |bytes| <= |s|
    ensures Patch(s, 0, bytes)[..|bytes|] == bytes
  {
  }

  /** What a block request through the ring comes back with. */
  ghost predicate AllocateDone(c: Chan, size: nat, e: Chan, id: nat) {
    && |e.buffer| == BUFFER && e.memory == c.memory && e.blocks == Alloc(c.blocks, size).0
    && PollOf(e.slots, e.buffer, id) == match Alloc(c.blocks, size).1 {
      case Got(a) => Done(a, None)
      case Invalid => Refused(EINVAL)
      case NoMemory => Refused(ENOMEM)
    }
    && (exists i :: 0 <= i < |e.slots| && e.slots[i].id == id)
    && (Alloc(c.blocks, size).1.Got? ==>
          forall i :: 0 <= i < |e.slots| && e.slots[i].id == id ==> e.slots[i].remote == Alloc(c.blocks, size).1.addr)
  }

  lemma AllocateAnswered(c: Chan, size: nat, e: Chan, id: nat)
    requires Shape(c) && Answered(c, Request(Allocate, 0, 0, size, None), e, id)
    ensures AllocateDone(c, size, e, id)
  {
    FoundAtHead(c, Request(Allocate, 0, 0, size, None), e, id);
    assert e.slots[c.head].id == id;
  }

  /** Allocating through the ring is allocating. */
  lemma ExchangeAllocate(steps: seq<Step>, size: nat)
    requires Run(steps).Some? && Run(steps).value.0.count == 0
    ensures var c := Run(steps).value.0;
      var (e, id) := Exchange(c, Request(Allocate, 0, 0, size, None)); AllocateDone(c, size, e, id)
  {
    var (c, q) := (Run(steps).value.0, Request(Allocate, 0, 0, size, None));
    ExchangeAnswered(steps, q);
    AllocateAnswered(c, size, Exchange(c, q).0, Exchange(c, q).1);
  }

  ghost predicate WriteDone(c: Chan, remote: nat, data: seq<Byte>, e: Chan, id: nat)
    requires |c.memory| == SIZE && BASE <= remote && remote + |data| <= END
  {
    && e.memory == Patch(c.memory, remote - BASE, data) && e.blocks == c.blocks
    && |e.buffer| == BUFFER && PollOf(e.slots, e.buffer, id) == Done(remote, None)
  }

  lemma WriteAnswered(c: Chan, local: nat, remote: nat, data: seq<Byte>, e: Chan, id: nat)
    requires Shape(c) && 0 < |data| <= BUFFER && BASE <= remote && remote + |data| <= END
    requires Answered(c, Request(Write, local, remote, |data|, Some(data)), e, id)
    ensures WriteDone(c, remote, data, e, id)
  {
    FoundAtHead(c, Request(Write, local, remote, |data|, Some(data)), e, id);
    WriteLanded(c, local, remote, data, e, id);
  }

  lemma WriteLanded(c: Chan, local: nat, remote: nat, data: seq<Byte>, e: Chan, id: nat)
    requires Shape(c) && 0 < |data| <= BUFFER && BASE <= remote && remote + |data| <= END
    requires Answered(c, Request(Write, local, remote, |data|, Some(data)), e, id)
    ensures id > 0 && |e.buffer| == BUFFER && e.blocks == c.blocks
    ensures e.memory == Patch(c.memory, remote - BASE, data)
    ensures e.slots == c.slots[c.head := Slot(c.nextId, Write, local, remote, |data|, Completed, 0, true)]
  {
    PatchPrefix(c.buffer, data);
  }

  /** A write that fits and lies in the arena stores exactly its bytes. */
  lemma ExchangeWrite(steps: seq<Step>, local: nat, remote: nat, data: seq<Byte>)
    requires Run(steps).Some? && Run(steps).value.0.count == 0
    requires 0 < |data| <= BUFFER && BASE <= remote && remote + |data| <= END
    ensures var c := Run(steps).value.0;
      var (e, id) := Exchange(c, Request(Write, local, remote, |data|, Some(data))); WriteDone(c, remote, data, e, id)
  {
    var (c, q) := (Run(steps).value.0, Request(Write, local, remote, |data|, Some(data)));
    ExchangeAnswered(steps, q);
    WriteAnswered(c, local, remote, data, Exchange(c, q).0, Exchange(c, q).1);
  }

  ghost predicate ReadDone(c: Chan, local: nat, remote: nat, size: nat, e: Chan, id: nat)
    requires |c.memory| == SIZE && BASE <= remote && remote + size <= END
  {
    var bytes := c.memory[remote - BASE..remote - BASE + size];
    && e.memory == c.memory && e.blocks == c.blocks && |e.buffer| == BUFFER >= size
    && e.buffer[..size] == bytes && (size == BUFFER ==> e.buffer == bytes)
      && PollOf(e.slots, e.buffer, id) == Done(remote, if local != 0 then Some(bytes) else None)
  }

  lemma ReadAnswered(c: Chan, local: nat, remote: nat, size: nat, e: Chan, id: nat)
    requires Shape(c) && 0 < size <= BUFFER && BASE <= remote && remote + size <= END
    requires Answered(c, Request(Read, local, remote, size, None), e, id)
    ensures ReadDone(c, local, remote, size, e, id)
  {
    var q := Request(Read, local, remote, size, None);
    FoundAtHead(c, q, e, id);
    ReadLanded(c, local, remote, size, e, id);
    PatchPrefix(c.buffer, c.memory[remote - BASE..remote - BASE + size]);
  }

  lemma ReadLanded(c: Chan, local: nat, remote: nat, size: nat, e: Chan, id: nat)
    requires Shape(c) && 0 < size <= BUFFER && BASE <= remote && remote + size <= END
    requires Answered(c, Request(Read, local, remote, size, None), e, id)
    ensures id > 0 && e.memory == c.memory && e.blocks == c.blocks
    ensures e.buffer == Patch(c.buffer, 0, c.memory[remote - BASE..remote - BASE + size])
    ensures e.slots == c.slots[c.head := Slot(c.nextId, Read, local, remote, size, Completed, 0, false)]
  {
    ReadHandled(c, local, remote, size);
  }

  lemma ReadHandled(c: Chan, local: nat, remote: nat, size: nat)
    requires Shape(c) && 0 < size <= BUFFER && BASE <= remote && remote + size <= END
    ensures var q := Request(Read, local, remote, size, None);
      && Loaded(c, q) == c
      && Handle(c, SlotOf(q, c.nextId))
         == (c.(buffer := Patch(c.buffer, 0, c.memory[remote - BASE..remote - BASE + size])), SlotOf(q, c.nextId), 0)
  {
  }

  /** A read brings back exactly the bytes of the arena, if there is an address to copy them to. */
  lemma ExchangeRead(steps: seq<Step>, local: nat, remote: nat, size: nat)
    requires Run(steps).Some? && Run(steps).value.0.count == 0
    requires 0 < size <= BUFFER && BASE <= remote && remote + size <= END
    ensures var c := Run(steps).value.0;
      var (e, id) := Exchange(c, Request(Read, local, remote, size, None)); ReadDone(c, local, remote, size, e, id)
  {
    var (c, q) := (Run(steps).value.0, Request(Read, local, remote, size, None));
    ExchangeAnswered(steps, q);
    ReadAnswered(c, local, remote, size, Exchange(c, q).0, Exchange(c, q).1);
  }

  // ------------------------------------------------------- what requests come to

  /** In every run a request is accepted exactly if fewer than 128 are queued and it is not a
      write of more than 4096 bytes. An accepted one has an id that no other has had, and is
      queued as it was made; a full ring is left as it is. */
  lemma SubmitOutcome(steps: seq<Step>, q: Request)
    requires Run(steps).Some? && Proper(q)
    ensures var (c, h) := Run(steps).value;
      var ((c', id), h') := (Submit(c, q), Recorded(c, h, Submitting(q)));
      var queued := |h.accepted| - |h.served|;
      && (id != 0 <==> queued < 128 && !(q.op.Write? && q.data.Some? && q.size > 4096))
      && (id == 0 ==> h'.accepted == h.accepted) && (queued >= 128 ==> c' == c)
      && (id != 0 ==>
            && h'.accepted == h.accepted + [Slot(id, q.op, q.local, q.remote, q.size, Pending, 0, Carries(q))]
            && forall k :: 0 <= k < |h.accepted| ==> h.accepted[k].id != id)
  {
    RunInv(steps);
  }

  /** The last byte asked for is in the arena, and so is the first. */
  predicate Within(remote: nat, size: nat) { BASE <= remote && remote + size <= END }

  /** The verdict on each kind of request: which are carried out, and the error number of those
      that are not, which change nothing. */
  lemma HandleVerdict(c: Chan, r: Slot)
    requires Shape(c) && Wf(c.blocks) && (r.inBuffer ==> r.size <= BUFFER) && r.size <= WORD - PAGE_SIZE
    ensures var (d, r', result) := Handle(c, r);
      && (result != 0 ==> d == c && r' == r)
      && match r.op {
        case Read => result == if r.size == 0 || r.size > 4096 then 22 else if !Within(r.remote, r.size) then 14 else 0
        case Write => result == if !r.inBuffer || r.size == 0 then 22 else if !Within(r.remote, r.size) then 14 else 0
        case Allocate =>
          && (result == 22 <==> r.size == 0) && (result == 0 || result == 12 || result == 22)
          && (result == 12 <==> r.size > 0 && !exists a :: FreeRun(c.blocks, a, RoundUp(r.size)))
        case Free => result == 38
        case Init => result == 0
        case Shutdown => result == 0 && d.shutdown
      }
  {
    if r.op.Allocate? && r.size > 0 {
      RoundUpHolds(r.size);
      AllocIsComplete(c.blocks, r.size);
    }
  }

  /** The step puts other bytes into the page buffer: a write with data that is accepted, or a
      read that is carried out. */
  predicate Fills(c: Chan, s: Step)
    requires Shape(c) && Enabled(c, s)
  {
    match s
    case Submitting(q) => c.count < 128 && Carries(q) && q.size <= 4096
    case Serving =>
      var r := c.slots[c.head];
      r.status.Pending? && r.op.Read? && 0 < r.size <= 4096 && Within(r.remote, r.size)
    case Freeing(_) => false
  }

  lemma BufferStays(c: Chan, s: Step)
    requires Shape(c) && Enabled(c, s) && !Fills(c, s)
    ensures Next(c, s).buffer == c.buffer
  {
  }

  function Exec(c: Chan, steps: seq<Step>): (r: Option<Chan>)
    requires Shape(c)
    ensures r.Some? ==> Shape(r.value)
  {
    if steps == [] then Some(c)
    else
      var last := steps[|steps| - 1];
      var r := Exec(c, steps[..|steps| - 1]);
      if r.None? || !Enabled(r.value, last) then None
      else
        NextShape(r.value, last);
        Some(Next(r.value, last))
  }

  ghost predicate FillsAt(c: Chan, steps: seq<Step>, k: nat)
    requires Shape(c) && k < |steps|
  {
    var r := Exec(c, steps[..k]);
    r.Some? && Enabled(r.value, steps[k]) && Fills(r.value, steps[k])
  }

  ghost predicate NoneFills(c: Chan, steps: seq<Step>)
    requires Shape(c)
  {
    forall k :: 0 <= k < |steps| ==> !FillsAt(c, steps, k)
  }

  lemma {:induction false} BufferKept(c: Chan, steps: seq<Step>)
    requires Shape(c) && Exec(c, steps).Some? && NoneFills(c, steps)
    ensures Exec(c, steps).value.buffer == c.buffer
  {
    if steps != [] {
      var n := |steps| - 1;
      forall k | 0 <= k < n ensures !FillsAt(c, steps[..n], k) {
        assert !FillsAt(c, steps, k) && steps[..n][..k] == steps[..k];
      }
      BufferKept(c, steps[..n]);
      assert !FillsAt(c, steps, n);
      BufferStays(Exec(c, steps[..n]).value, steps[n]);
    }
  }

  predicate Writes(q: Request) {
    q.op.Write? && q.data.Some? && 0 < q.size <= 4096 && q.size == |q.data.value| && Within(q.remote, q.size)
  }

  lemma WriteServed(c: Chan, r: Slot)
    requires Shape(c) && c.count > 0 && c.slots[c.head] == r && r.status.Pending? && r.op.Write? && r.inBuffer
    requires 0 < r.size <= 4096 && Within(r.remote, r.size)
    ensures Serve(c).memory == Patch(c.memory, r.remote - BASE, c.buffer[..r.size])
  {
  }

  /** A write that has waited in the queue stores its own bytes, if nothing was put into the
      page buffer between its submission and its service. */
  lemma QueuedWriteLands(c: Chan, q: Request, steps: seq<Step>)
    requires Shape(c) && Writes(q) && c.count < 128 && Shape(Submit(c, q).0)
    requires Exec(Submit(c, q).0, steps).Some? && NoneFills(Submit(c, q).0, steps)
    requires var d := Exec(Submit(c, q).0, steps).value; d.count > 0 && d.slots[d.head] == SlotOf(q, c.nextId)
    ensures var d := Exec(Submit(c, q).0, steps).value;
      Serve(d).memory == Patch(d.memory, q.remote - BASE, q.data.value)
  {
    var d := Exec(Submit(c, q).0, steps).value;
    BufferKept(Submit(c, q).0, steps);
    PatchPrefix(c.buffer, q.data.value);
    WriteServed(d, SlotOf(q, c.nextId));
  }

  function TogetherThenOne(p: Request, q: Request): seq<Step> { [Submitting(p), Submitting(q), Serving] }

  /** Of two writes of one size queued together the first stores the bytes of the second: its
      own are stored if and only if they are the same. */
  lemma QueuedWritesCollide(steps: seq<Step>, p: Request, q: Request)
    requires Run(steps).Some? && Run(steps).value.0.count == 0 && Writes(p) && Writes(q) && p.size == q.size
    ensures var c := Run(steps).value.0;
      && Exec(c, TogetherThenOne(p, q)).Some?
      && var m := Exec(c, TogetherThenOne(p, q)).value.memory;
      && m == Patch(c.memory, p.remote - BASE, q.data.value)
      && (m == Patch(c.memory, p.remote - BASE, p.data.value) <==> p.data == q.data)
  {
    RunInv(steps);
    Collide(Run(steps).value.0, Run(steps).value.1, p, q);
  }

  lemma Collide(c: Chan, h: History, p: Request, q: Request)
    requires Inv(c, h) && c.count == 0 && Writes(p) && Writes(q) && p.size == q.size
    ensures Exec(c, TogetherThenOne(p, q)).Some?
    ensures var m := Exec(c, TogetherThenOne(p, q)).value.memory;
      && m == Patch(c.memory, p.remote - BASE, q.data.value)
      && (m == Patch(c.memory, p.remote - BASE, p.data.value) <==> p.data == q.data)
  {
    TwoQueued(c, h, p, q);
    TwoThenServe(c, p, q);
    FirstServed(c.memory, Submit(Submit(c, p).0, q).0, p, q, c.nextId);
  }

  lemma FirstServed(memory: seq<Byte>, c: Chan, p: Request, q: Request, id: nat)
    requires Shape(c) && Writes(p) && Writes(q) && p.size == q.size && c.count > 0
    requires c.slots[c.head] == SlotOf(p, id) && c.memory == memory && c.buffer[..p.size] == q.data.value
    ensures Serve(c).memory == Patch(memory, p.remote - BASE, q.data.value)
    ensures Serve(c).memory == Patch(memory, p.remote - BASE, p.data.value) <==> p.data == q.data
  {
    WriteServed(c, SlotOf(p, id));
    SamePatch(memory, p.remote - BASE, p.data.value, q.data.value);
  }

  lemma TwoQueued(c: Chan, h: History, p: Request, q: Request)
    requires Inv(c, h) && c.count == 0 && Writes(p) && Writes(q) && p.size == q.size
    ensures Shape(Submit(c, p).0) && Shape(Submit(Submit(c, p).0, q).0)
    ensures var c2 := Submit(Submit(c, p).0, q).0;
      && c2.count == 2 && c2.slots[c2.head] == SlotOf(p, c.nextId)
      && c2.memory == c.memory && c2.buffer[..p.size] == q.data.value
  {
    SubmitEnters(c, p);
    SubmitEnters(Submit(c, p).0, q);
    PatchPrefix(Submit(c, p).0.buffer, q.data.value);
  }

  lemma TwoThenServe(c: Chan, p: Request, q: Request)
    requires Shape(c) && Proper(p) && Proper(q) && Shape(Submit(c, p).0) && Shape(Submit(Submit(c, p).0, q).0)
    requires Submit(Submit(c, p).0, q).0.count > 0
    ensures Exec(c, TogetherThenOne(p, q)) == Some(Serve(Submit(Submit(c, p).0, q).0))
  {
    var run := TogetherThenOne(p, q);
    assert run[..2] == [Submitting(p), Submitting(q)] && run[..2][..1] == [Submitting(p)] && run[..2][..1][..0] == [];
    assert Exec(c, run[..2][..1]) == Some(Submit(c, p).0);
    assert Exec(c, run[..2]) == Some(Submit(Submit(c, p).0, q).0);
  }

  lemma SamePatch(s: seq<Byte>, at: nat, a: seq<Byte>, b: seq<Byte>)
    requires at + |a| <= |s| && |a| == |b|
    ensures Patch(s, at, a) == Patch(s, at, b) <==> a == b
  {
    assert Patch(s, at, a)[at..at + |a|] == a && Patch(s, at, b)[at..at + |b|] == b;
  }

  // ------------------------------------------------------------------ the ring

  method CopyBytes(dst: array<Byte>, at: nat, src: array<Byte>, from: nat, n: nat)
    requires dst != src && at + n <= dst.Length && from + n <= src.Length
    modifies dst
    ensures dst[..] == Patch(old(dst[..]), at, src[from..from + n])
  {
    for i := 0 to n
      invariant dst[..] == Patch(old(dst[..]), at, src[from..from + i])
    {
      PatchOne(old(dst[..]), at, src[from..from + i], src[from + i]);
      assert src[from..from + i + 1] == src[from..from + i] + [src[from + i]];
      dst[at + i] := src[from + i];
    }
  }

  lemma PatchOne(s: seq<Byte>, at: nat, bytes: seq<Byte>, b: Byte)
    requires at + |bytes| < |s|
    ensures Patch(s, at, bytes)[at + |bytes| := b] == Patch(s, at, bytes + [b])
  {
  }

  /** What one poll of `rdma_wait_request` tells the client; `data` is what it copied to
      the local address. */
  datatype Poll = NotYet | Done(remote: nat, data: Option<seq<Byte>>) | Refused(error: nat)

  function PollOf(slots: seq<Slot>, buffer: seq<Byte>, id: nat): Poll
    requires |buffer| == BUFFER
  {
    var k := Search(slots, id, 0);
    if id == 0 then Refused(EINVAL)
    else if k == |slots| then NotYet
    else
      var r := slots[k];
      match r.status
      case Completed =>
        if r.op.Read? && r.local != 0 && r.size > 0 then
          if r.size <= BUFFER then Done(r.remote, Some(buffer[..r.size])) else Refused(EMSGSIZE)
        else Done(r.remote, None)
      case Failed => Refused(r.error)
      case _ => NotYet
  }

  class Channel {
    const slots: array<Slot>
    const buffer: array<Byte>
    const memory: array<Byte>
    const heap: RemoteMemory
    var head: nat
    var tail: nat
    var count: nat
    var nextId: nat
    var total: nat
    var completed: nat
    var failed: nat
    var shutdown: bool
    ghost var history: History
    ghost var steps: seq<Step>

    ghost function View(): Chan
      reads this, slots, buffer, memory, heap
    {
      Chan(slots[..], head, tail, count, nextId, buffer[..], memory[..], heap.blocks, total, completed, failed,
        shutdown)
    }

    ghost predicate Valid()
      reads this, slots, buffer, memory, heap
    {
      buffer != memory && heap.Valid() && Run(steps) == Some((View(), history))
    }

    ghost function Repr(): set<object> { {this, slots, buffer, memory, heap} }

    constructor ()
      ensures Valid() && View() == InitChan() && steps == []
      ensures fresh(Repr())
    {
      slots := new Slot[SLOTS](_ => Slot(0, Read, 0, 0, 0, Pending, 0, false));
      buffer := new Byte[BUFFER](_ => 0);
      memory := new Byte[SIZE](_ => 0);
      heap := new RemoteMemory();
      head, tail, count, nextId, total, completed, failed, shutdown := 0, 0, 0, 1, 0, 0, 0, false;
      history, steps := History([], [], false), [];
      new;
      assert View() == InitChan();
    }

    /** The requests of a method call as the specification names them. */
    ghost function Asked(op: Op, local: nat, remote: nat, size: nat, data: array?<Byte>): Request
      reads data
    {
      Request(op, local, remote, size, if data == null then None else Some(data[..]))
    }

    method Fill(op: Op, local: nat, remote: nat, size: nat, inBuffer: bool)
      requires slots.Length == SLOTS && tail < SLOTS
      modifies `nextId, slots
      ensures nextId == old(nextId) + 1
      ensures slots[..] == old(slots[..])[tail := Slot(old(nextId), op, local, remote, size, Pending, 0, inBuffer)]
    {
      slots[tail] := Slot(nextId, op, local, remote, size, Pending, 0, inBuffer);
      nextId := nextId + 1;
    }

    method Enqueue(op: Op, local: nat, remote: nat, size: nat, data: array?<Byte>) returns (id: nat)
      requires Shape(View()) && (data != null ==> data.Length == size && data != buffer)
      modifies `nextId, `tail, `count, `total, slots, buffer
      ensures (View(), id) == Submit(old(View()), old(Asked(op, local, remote, size, data)))
    {
      if count >= SLOTS { return 0; }
      id := nextId;
      Fill(op, local, remote, size, op.Write? && data != null && size > 0 && size <= BUFFER);
      if op.Write? && data != null && size > 0 {
        if size > BUFFER { return 0; }
        CopyBytes(buffer, 0, data, 0, size);
        assert data[0..size] == data[..];
      }
      tail, count, total := (tail + 1) % SLOTS, count + 1, total + 1;
    }

    ghost method Log(s: Step, h: History)
      requires heap.Valid()
      modifies `steps, `history
      ensures steps == old(steps) + [s] && history == h && heap.Valid() && View() == old(View())
    {
      steps, history := steps + [s], h;
    }

    /** `rdma_submit_request` */
    method SubmitRequest(op: Op, local: nat, remote: nat, size: nat, data: array?<Byte>) returns (id: nat)
      requires Valid() && (data != null ==> data.Length == size && data != buffer && data != memory)
      modifies Repr()
      ensures Valid() && (View(), id) == Submit(old(View()), old(Asked(op, local, remote, size, data)))
      ensures steps == old(steps) + [Submitting(old(Asked(op, local, remote, size, data)))]
    {
      ghost var s := Submitting(Asked(op, local, remote, size, data));
      ghost var c := View();
      RunGrows(steps, s);
      id := Enqueue(op, local, remote, size, data);
      Log(s, Recorded(c, history, s));
    }

    /** The effect of `rdma_server_handle_request` on the buffer, the memory and the blocks. */
    method HandleRequest(r: Slot) returns (r': Slot, result: nat)
      requires Shape(View()) && buffer != memory && heap.Valid() && (r.inBuffer ==> r.size <= BUFFER)
      modifies `shutdown, buffer, memory, heap
      ensures (View(), r', result) == Handle(old(View()), r) && heap.Valid()
    {
      r', result := r, 0;
      match r.op
      case Init =>
      case Read =>
        if r.size == 0 || r.size > BUFFER { return r, EINVAL; }
        if r.remote < BASE || r.remote - BASE + r.size > SIZE { return r, EFAULT; }
        CopyBytes(buffer, 0, memory, r.remote - BASE, r.size);
      case Write =>
        if !r.inBuffer || r.size == 0 { return r, EINVAL; }
        if r.remote < BASE || r.remote - BASE + r.size > SIZE { return r, EFAULT; }
        CopyBytes(memory, r.remote - BASE, buffer, 0, r.size);
      case Allocate =>
        var a := heap.Allocate(r.size);
        if a.Got? { r' := r.(remote := a.addr); } else { result := if a.Invalid? then EINVAL else ENOMEM; }
      case Free => result := ENOSYS;
      case Shutdown => shutdown := true;
    }

    method ServeOne()
      requires Shape(View()) && buffer != memory && heap.Valid() && count > 0
      modifies `shutdown, `head, `count, `completed, `failed, slots, buffer, memory, heap
      ensures View() == Serve(old(View())) && heap.Valid()
    {
      if slots[head].status.Pending? { ServePending(); }
      head, count := (head + 1) % SLOTS, count - 1;
    }

    /** The request under `head` is handled and judged. */
    method ServePending()
      requires Shape(View()) && buffer != memory && heap.Valid() && slots[head].status.Pending?
      modifies `shutdown, `completed, `failed, slots, buffer, memory, heap
      ensures View() == Handled(old(View())) && heap.Valid()
    {
      ghost var c := View();
      var r := slots[head];
      slots[head] := r.(status := Processing, error := 0);
      ghost var begun := slots[..];
      HandleIgnoresSlots(c, begun, r);
      var r', result := HandleRequest(r);
      Judge(c, begun, r', result);
    }

    /** The verdict goes into the slot and is counted. */
    method Judge(ghost c: Chan, ghost begun: seq<Slot>, r: Slot, result: nat)
      requires Shape(c) && |begun| == |c.slots| && begun == c.slots[c.head := begun[c.head]] && Shape(View())
        && head == c.head
      requires var (d, r', result') := Handle(c, c.slots[c.head]);
        View() == d.(slots := begun) && r == r' && result == result'
      modifies `completed, `failed, slots
      ensures View() == Handled(c)
    {
      slots[head] := Judged(r, result);
      assert slots[..] == begun[c.head := Judged(r, result)] == c.slots[c.head := Judged(r, result)];
      if result == 0 { completed := completed + 1; } else { failed := failed + 1; }
    }

    /** The drain loop of `rdma_server_process_requests` answers everything queued. */
    method Drain()
      requires Valid()
      modifies Repr()
      ensures Valid() && count == 0 && View() == Drained(old(View()))
      ensures history.accepted == old(history.accepted)
    {
      while count > 0
        invariant Valid() && Drained(View()) == Drained(old(View()))
        invariant history.accepted == old(history.accepted)
        decreases count
      {
        ghost var c := View();
        RunGrows(steps, Serving);
        ServeOne();
        Log(Serving, Recorded(c, history, Serving));
      }
    }

    /** One look of `rdma_wait_request` at the slots. */
    method PollRequest(id: nat) returns (p: Poll)
      requires Shape(View())
      ensures p == PollOf(slots[..], buffer[..], id)
    {
      if id == 0 { return Refused(EINVAL); }
      var i := 0;
      while i < SLOTS && (slots[i].id != id || slots[i].status.Pending?)
        invariant 0 <= i <= SLOTS
        invariant forall j :: 0 <= j < i ==> slots[j].id != id || slots[j].status.Pending?
      {
        i := i + 1;
      }
      if i == SLOTS { return NotYet; }
      var r := slots[i];
      if r.status.Failed? { return Refused(r.error); }
      if r.status.Processing? { return NotYet; }
      if r.op.Read? && r.local != 0 && r.size > 0 {
        if r.size > BUFFER { return Refused(EMSGSIZE); }
        return Done(r.remote, Some(buffer[..r.size]));
      }
      return Done(r.remote, None);
    }

    /** Submit a request to an idle ring and let the server answer it. */
    method ExchangeRequest(op: Op, local: nat, remote: nat, size: nat, data: array?<Byte>) returns (id: nat)
      requires Valid() && count == 0
      requires data != null ==> data.Length == size && data != buffer && data != memory
      modifies Repr()
      ensures Valid() && count == 0
      ensures (View(), id) == Exchange(old(View()), old(Asked(op, local, remote, size, data)))
    {
      id := SubmitRequest(op, local, remote, size, data);
      Drain();
    }

    /** The address in the first slot with this id, 0 if there is none. */
    method AddressOf(id: nat) returns (a: nat)
      requires Shape(View())
      ensures (a == 0 && forall i :: 0 <= i < SLOTS ==> slots[i].id != id)
           || exists i :: 0 <= i < SLOTS && slots[i].id == id && slots[i].remote == a
    {
      for i := 0 to SLOTS
        invariant forall j :: 0 <= j < i ==> slots[j].id != id
      {
        if slots[i].id == id { return slots[i].remote; }
      }
      return 0;
    }

    /** `rdma_sim_free`, which the client calls itself. */
    method FreeBlock(addr: nat) returns (ok: bool)
      requires Valid()
      modifies heap, `steps, `history
      ensures Valid() && (heap.blocks, ok) == Dealloc(old(heap.blocks), addr)
    {
      RunGrows(steps, Freeing(addr));
      ok := heap.Free(addr);
      Log(Freeing(addr), history);
    }
  }
}
