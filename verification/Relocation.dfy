/** Relocation of pointers between the local and the remote address space, and the codec
    that rewrites the last word of a page on its way to the remote store and back. The
    translator is initialised; addresses are 64-bit words and sums wrap. */
module Relocation {
  import opened Common

  const LOCAL_HEAP_BASE := 0x7f00_0000_0000
  const LOCAL_HEAP_END := 0x7fff_ffff_ffff_ffff
  const REMOTE_HEAP_BASE := 0x20_0000_0000
  const REMOTE_HEAP_END := 0x3f_ffff_ffff

  type Address = a: nat | a < WORD

  /** A registered region; `local_end` is the wrapped sum kept when it was registered. */
  datatype Region = Region(localBase: Address, localEnd: Address, remoteBase: Address, size: Address)

  /** The 64-bit value of a sum of two words. */
  function Wrap(a: nat): Address
    requires a < 2 * WORD
  {
    if a < WORD then a else a - WORD
  }

  function NewRegion(local: Address, size: Address, remote: Address): Region {
    Region(local, Wrap(local + size), remote, size)
  }

  predicate HoldsLocal(r: Region, p: Address) { r.localBase <= p < r.localEnd }

  predicate HoldsRemote(r: Region, q: Address) { r.remoteBase <= q < Wrap(r.remoteBase + r.size) }

  // -------------------------------------------------------------- conversions

  /** `convert_local_to_remote_pointer`: the first region that holds the pointer decides. */
  function ToRemote(rs: seq<Region>, p: Address): Option<Address> {
    if p == 0 then Some(0)
    else if rs == [] then None
    else if HoldsLocal(rs[0], p) then Some(Wrap(rs[0].remoteBase + (p - rs[0].localBase)))
    else ToRemote(rs[1..], p)
  }

  /** `convert_remote_to_local_pointer` */
  function ToLocal(rs: seq<Region>, q: Address): Option<Address> {
    if q == 0 then Some(0)
    else if rs == [] then None
    else if HoldsRemote(rs[0], q) then Some(Wrap(rs[0].localBase + (q - rs[0].remoteBase)))
    else ToLocal(rs[1..], q)
  }

  predicate Apart(a: nat, b: nat, n: nat, m: nat) { a + n <= b || b + m <= a }

  /** Regions in which nothing wraps, disjoint from one another on both sides. */
  ghost predicate Disjoint(rs: seq<Region>) {
    && (forall i :: 0 <= i < |rs| ==> Straight(rs[i]))
    && (forall i, j :: 0 <= i < j < |rs| ==> Separate(rs[i], rs[j]))
  }

  predicate Straight(r: Region) {
    r.localEnd == r.localBase + r.size && r.remoteBase + r.size < WORD
  }

  predicate Separate(r: Region, s: Region) {
    Apart(r.localBase, s.localBase, r.size, s.size) && Apart(r.remoteBase, s.remoteBase, r.size, s.size)
  }

  /** `q` is the image of `p` in some registered region. */
  ghost predicate Image(rs: seq<Region>, p: Address, q: Address) {
    exists r :: r in rs && Maps(r, p, q)
  }

  predicate Maps(r: Region, p: Address, q: Address) {
    r.localBase <= p < r.localBase + r.size && q == Wrap(r.remoteBase + (p - r.localBase))
  }

  lemma {:induction false} ToRemoteIsImage(rs: seq<Region>, p: Address, q: Address)
    requires Disjoint(rs) && p != 0
    ensures ToRemote(rs, p) == Some(q) <==> Image(rs, p, q)
  {
    if rs != [] {
      ToRemoteIsImage(rs[1..], p, q);
      ImageSplits(rs, p, q);
    }
  }

  lemma ImageSplits(rs: seq<Region>, p: Address, q: Address)
    requires rs != []
    ensures Image(rs, p, q) <==> Maps(rs[0], p, q) || Image(rs[1..], p, q)
  {
  }

  lemma {:induction false} ToLocalIsImage(rs: seq<Region>, p: Address, q: Address)
    requires Disjoint(rs) && q != 0
    ensures ToLocal(rs, q) == Some(p) <==> Image(rs, p, q)
  {
    if rs != [] {
      ToLocalIsImage(rs[1..], p, q);
      ImageSplits(rs, p, q);
      StraightMaps(rs[0], p, q);
      if HoldsRemote(rs[0], q) { NoOtherImage(rs, p, q); }
    }
  }

  lemma StraightMaps(r: Region, p: Address, q: Address)
    requires Straight(r)
    ensures Maps(r, p, q) <==> HoldsRemote(r, q) && p == Wrap(r.localBase + (q - r.remoteBase))
  {
  }

  lemma NoOtherImage(rs: seq<Region>, p: Address, q: Address)
    requires Disjoint(rs) && rs != [] && HoldsRemote(rs[0], q)
    ensures !Image(rs[1..], p, q)
  {
  }

  /** Each conversion undoes the other. */
  lemma RoundTrip(rs: seq<Region>, p: Address, q: Address)
    requires Disjoint(rs) && p != 0 && q != 0
    ensures ToRemote(rs, p) == Some(q) <==> ToLocal(rs, q) == Some(p)
  {
    ToRemoteIsImage(rs, p, q);
    ToLocalIsImage(rs, p, q);
  }

  /** The order of registration does not matter. */
  lemma OrderIrrelevant(rs: seq<Region>, ss: seq<Region>, p: Address)
    requires Disjoint(rs) && Disjoint(ss) && forall r :: r in rs <==> r in ss
    ensures ToRemote(rs, p) == ToRemote(ss, p) && ToLocal(rs, p) == ToLocal(ss, p)
  {
    if p != 0 {
      forall q: Address ensures ToRemote(rs, p) == Some(q) <==> ToRemote(ss, p) == Some(q) {
        ToRemoteIsImage(rs, p, q);
        ToRemoteIsImage(ss, p, q);
      }
      forall q: Address ensures ToLocal(rs, p) == Some(q) <==> ToLocal(ss, p) == Some(q) {
        ToLocalIsImage(rs, q, p);
        ToLocalIsImage(ss, q, p);
      }
    }
  }

  // ------------------------------------------------ when a pointer comes back

  /** Region `i` is the first that holds the pointer, so it is the one that converts it. */
  ghost predicate Converts(rs: seq<Region>, i: nat, p: Address) {
    i < |rs| && HoldsLocal(rs[i], p) && forall k :: 0 <= k < i ==> !HoldsLocal(rs[k], p)
  }

  lemma {:induction false} ConvertedBy(rs: seq<Region>, p: Address)
    requires p != 0
    ensures ToRemote(rs, p).Some? <==> exists i: nat :: Converts(rs, i, p)
    ensures forall i: nat ::
      Converts(rs, i, p) ==> ToRemote(rs, p) == Some(Wrap(rs[i].remoteBase + (p - rs[i].localBase)))
  {
    if rs != [] {
      ConvertedBy(rs[1..], p);
      forall i: nat | Converts(rs, i, p) && i > 0 ensures Converts(rs[1..], i - 1, p) {}
      if HoldsLocal(rs[0], p) {
        assert Converts(rs, 0, p);
      } else {
        forall i: nat | Converts(rs[1..], i, p) ensures Converts(rs, i + 1, p) {}
      }
    }
  }

  lemma {:induction false} ToLocalAt(rs: seq<Region>, i: nat, q: Address)
    requires q != 0 && i < |rs| && HoldsRemote(rs[i], q) && forall k :: 0 <= k < i ==> !HoldsRemote(rs[k], q)
    ensures ToLocal(rs, q) == Some(Wrap(rs[i].localBase + (q - rs[i].remoteBase)))
  {
    if i > 0 { ToLocalAt(rs[1..], i - 1, q); }
  }

  function FirstRemote(rs: seq<Region>, q: Address, i: nat): (k: nat)
    requires i <= |rs|
    ensures i <= k <= |rs| && (k < |rs| ==> HoldsRemote(rs[k], q))
    ensures forall j :: i <= j < k ==> !HoldsRemote(rs[j], q)
    decreases |rs| - i
  {
    if i == |rs| || HoldsRemote(rs[i], q) then i else FirstRemote(rs, q, i + 1)
  }

  /** Regions in which nothing wraps, locally disjoint; their remote ranges may overlap. */
  ghost predicate LocallyDisjoint(rs: seq<Region>) {
    && (forall i :: 0 <= i < |rs| ==> Straight(rs[i]))
    && (forall i, j :: 0 <= i < j < |rs| ==> Apart(rs[i].localBase, rs[j].localBase, rs[i].size, rs[j].size))
  }

  /** Region `j` has this remote address to itself: it is not 0 and no earlier region holds it. */
  ghost predicate Own(rs: seq<Region>, j: nat, q: Address) {
    q != 0 && forall i :: 0 <= i < j && i < |rs| ==> !HoldsRemote(rs[i], q)
  }

  /** Every remote address is its region's own, but for the image of the null pointer. */
  ghost predicate AllOwn(rs: seq<Region>) {
    forall j, q: Address :: 0 <= j < |rs| && HoldsRemote(rs[j], q) && !Maps(rs[j], 0, q) ==> Own(rs, j, q)
  }

  ghost predicate ComesBack(rs: seq<Region>, p: Address) {
    var q := ToRemote(rs, p);
    q.Some? && ToLocal(rs, q.value) == Some(p)
  }

  /** A pointer comes back from its image exactly when the image is its region's own. */
  lemma ComesBackIffOwn(rs: seq<Region>, i: nat, p: Address)
    requires LocallyDisjoint(rs) && p != 0 && Converts(rs, i, p)
    ensures var q := rs[i].remoteBase + (p - rs[i].localBase);
      q < WORD && ToRemote(rs, p) == Some(q) && HoldsRemote(rs[i], q) && (ComesBack(rs, p) <==> Own(rs, i, q))
  {
    ConvertedBy(rs, p);
    var q: Address := rs[i].remoteBase + (p - rs[i].localBase);
    var k := FirstRemote(rs, q, 0);
    if q != 0 { ToLocalAt(rs, k, q); }
  }

  /** Every pointer comes back exactly when every remote address is its region's own. */
  lemma RoundTripIffOwn(rs: seq<Region>)
    requires LocallyDisjoint(rs)
    ensures (forall p: Address :: p != 0 && ToRemote(rs, p).Some? ==> ComesBack(rs, p)) <==> AllOwn(rs)
  {
    if AllOwn(rs) {
      forall p: Address | p != 0 && ToRemote(rs, p).Some? ensures ComesBack(rs, p) {
        ConvertedBy(rs, p);
        var i: nat :| Converts(rs, i, p);
        ComesBackIffOwn(rs, i, p);
      }
    } else {
      var j, q: Address :| 0 <= j < |rs| && HoldsRemote(rs[j], q) && !Maps(rs[j], 0, q) && !Own(rs, j, q);
      SharedIsLost(rs, j, q);
    }
  }

  /** The pointer behind a remote address that is not its region's own is lost. */
  lemma SharedIsLost(rs: seq<Region>, j: nat, q: Address)
    requires LocallyDisjoint(rs) && j < |rs| && HoldsRemote(rs[j], q) && !Maps(rs[j], 0, q) && !Own(rs, j, q)
    ensures var p := rs[j].localBase + (q - rs[j].remoteBase);
      0 < p < WORD && ToRemote(rs, p) == Some(q) && !ComesBack(rs, p)
  {
    var p: Address := rs[j].localBase + (q - rs[j].remoteBase);
    assert Converts(rs, j, p);
    ComesBackIffOwn(rs, j, p);
  }

  /** No address lies in two remote ranges. */
  ghost predicate RemotelyDisjoint(rs: seq<Region>) {
    forall i, j, q: Address :: 0 <= i < j < |rs| && HoldsRemote(rs[i], q) ==> !HoldsRemote(rs[j], q)
  }

  /** With no region at address 0, locally or remotely, that is when no two of them share a
      remote address. */
  lemma RoundTripIffRemotelyDisjoint(rs: seq<Region>)
    requires LocallyDisjoint(rs) && forall i :: 0 <= i < |rs| ==> rs[i].localBase > 0 && rs[i].remoteBase > 0
    ensures (forall p: Address :: p != 0 && ToRemote(rs, p).Some? ==> ComesBack(rs, p)) <==> RemotelyDisjoint(rs)
  {
    RoundTripIffOwn(rs);
    if AllOwn(rs) {
      forall i, j, q: Address | 0 <= i < j < |rs| && HoldsRemote(rs[i], q) ensures !HoldsRemote(rs[j], q) {
        assert HoldsRemote(rs[j], q) ==> Own(rs, j, q);
      }
    }
  }

  /** Two regions with one remote image: the pointers of the second are lost. */
  lemma OverlapBreaksRoundTrip(rs: seq<Region>, p: Address)
    requires rs == [NewRegion(0x1000, 0x1000, 0x9000), NewRegion(0x5000, 0x1000, 0x9000)]
    requires 0x5000 <= p < 0x6000
    ensures ToRemote(rs, p) == Some(p + 0x4000) && ToLocal(rs, p + 0x4000) == Some(p - 0x4000)
  {
    assert Converts(rs, 1, p);
    ComesBackIffOwn(rs, 1, p);
  }

  // ------------------------------------------------------------- registration

  /** The first region at or after `i` with this local base, or the length. */
  function Find(rs: seq<Region>, local: Address, i: nat): (k: nat)
    requires i <= |rs|
    ensures i <= k <= |rs| && (k < |rs| ==> rs[k].localBase == local)
    ensures forall j :: i <= j < k ==> rs[j].localBase != local
    decreases |rs| - i
  {
    if i == |rs| || rs[i].localBase == local then i else Find(rs, local, i + 1)
  }

  function Lookup(rs: seq<Region>, local: Address): Option<Region> {
    var k := Find(rs, local, 0);
    if k < |rs| then Some(rs[k]) else None
  }

  function Register(rs: seq<Region>, r: Region): seq<Region> {
    var k := Find(rs, r.localBase, 0);
    if k < |rs| then rs[k := r] else [r] + rs
  }

  function Unregister(rs: seq<Region>, local: Address): seq<Region> {
    var k := Find(rs, local, 0);
    if k < |rs| then rs[..k] + rs[k + 1..] else rs
  }

  /** No local base is registered twice. */
  ghost predicate Keyed(rs: seq<Region>) {
    forall i, j :: 0 <= i < j < |rs| ==> rs[i].localBase != rs[j].localBase
  }

  lemma FindAt(rs: seq<Region>, k: nat)
    requires Keyed(rs) && k < |rs|
    ensures Lookup(rs, rs[k].localBase) == Some(rs[k])
  {
  }

  lemma LookupNone(rs: seq<Region>, local: Address)
    ensures Lookup(rs, local).None? <==> forall i :: 0 <= i < |rs| ==> rs[i].localBase != local
  {
  }

  /** Registering updates one key of the table of regions and no other. */
  lemma RegisterUpdates(rs: seq<Region>, r: Region, local: Address)
    requires Keyed(rs)
    ensures Keyed(Register(rs, r))
    ensures Lookup(Register(rs, r), local) == if local == r.localBase then Some(r) else Lookup(rs, local)
  {
    var rs' := Register(rs, r);
    var k := Find(rs, r.localBase, 0);
    var j := Find(rs, local, 0);
    if local == r.localBase {
      FindAt(rs', if k < |rs| then k else 0);
    } else if j < |rs| {
      var j' := if k < |rs| then j else j + 1;
      assert rs'[j'] == rs[j];
      FindAt(rs', j');
    } else {
      LookupNone(rs', local);
    }
  }

  /** Of overlapping regions a new one comes first. */
  lemma NewestDecides(rs: seq<Region>, r: Region, p: Address)
    requires Lookup(rs, r.localBase) == None && p != 0
    ensures ToRemote(Register(rs, r), p)
         == if HoldsLocal(r, p) then Some(Wrap(r.remoteBase + (p - r.localBase))) else ToRemote(rs, p)
    ensures ToLocal(Register(rs, r), p)
         == if HoldsRemote(r, p) then Some(Wrap(r.localBase + (p - r.remoteBase))) else ToLocal(rs, p)
  {
    assert ([r] + rs)[1..] == rs;
  }

  /** Unregistering removes one key and no other. */
  lemma UnregisterRemoves(rs: seq<Region>, gone: Address, local: Address)
    requires Keyed(rs)
    ensures Keyed(Unregister(rs, gone))
    ensures Lookup(Unregister(rs, gone), local) == if local == gone then None else Lookup(rs, local)
  {
    var rs' := Unregister(rs, gone);
    var k := Find(rs, gone, 0);
    var j := Find(rs, local, 0);
    if local != gone && j < |rs| {
      var j' := if k < j then j - 1 else j;
      assert rs'[j'] == rs[j];
      FindAt(rs', j');
    } else {
      LookupNone(rs', local);
    }
  }

  // -------------------------------------------------------------------- codec

  predicate InLocalHeap(p: Address) { LOCAL_HEAP_BASE <= p < LOCAL_HEAP_END }

  predicate InRemoteHeap(p: Address) { REMOTE_HEAP_BASE <= p < REMOTE_HEAP_END }

  /** Little-endian words. */
  function WordOf(b: seq<Byte>): nat {
    if b == [] then 0 else b[0] + 256 * WordOf(b[1..])
  }

  function BytesOf(w: nat, n: nat): (b: seq<Byte>)
    ensures |b| == n
  {
    if n == 0 then [] else [w % 256] + BytesOf(w / 256, n - 1)
  }

  function Power(n: nat): nat { if n == 0 then 1 else 256 * Power(n - 1) }

  lemma {:induction false} BytesOfWord(b: seq<Byte>)
    ensures WordOf(b) < Power(|b|) && BytesOf(WordOf(b), |b|) == b
  {
    if b != [] {
      BytesOfWord(b[1..]);
      assert WordOf(b) % 256 == b[0] && WordOf(b) / 256 == WordOf(b[1..]);
    }
  }

  lemma {:induction false} WordOfBytes(w: nat, n: nat)
    requires w < Power(n)
    ensures WordOf(BytesOf(w, n)) == w
  {
    if n > 0 {
      assert w / 256 < Power(n - 1);
      WordOfBytes(w / 256, n - 1);
      assert BytesOf(w, n)[1..] == BytesOf(w / 256, n - 1);
    }
  }

  lemma PowerIsWord()
    ensures Power(8) == WORD
  {
  }

  const TAIL := PAGE_SIZE - 8

  /** The pointer kept in the last eight bytes of a page. */
  function Tail(page: Page): (w: Address) {
    BytesOfWord(page[TAIL..]);
    PowerIsWord();
    WordOf(page[TAIL..])
  }

  function WithTail(page: Page, w: Address): Page { page[..TAIL] + BytesOf(w, 8) }

  lemma TailFacts(page: Page, w: Address)
    ensures Tail(WithTail(page, w)) == w
    ensures WithTail(page, Tail(page)) == page
    ensures WithTail(page, w)[..TAIL] == page[..TAIL]
  {
    PowerIsWord();
    WordOfBytes(w, 8);
    assert WithTail(page, w)[TAIL..] == BytesOf(w, 8);
    BytesOfWord(page[TAIL..]);
    assert page == page[..TAIL] + page[TAIL..];
  }

  /** The tail word the codec stores for a local one, and the one it restores. */
  function Outgoing(rs: seq<Region>, w: Address): Address {
    if w != 0 && InLocalHeap(w) then (var q := ToRemote(rs, w); if q.Some? then q.value else 0) else w
  }

  function Incoming(rs: seq<Region>, w: Address): Address {
    if w != 0 && InRemoteHeap(w) then (var p := ToLocal(rs, w); if p.Some? then p.value else 0) else w
  }

  /** `convert_pointers_for_remote_storage` and `convert_pointers_from_remote_storage` */
  function Encode(rs: seq<Region>, page: Page): Page { WithTail(page, Outgoing(rs, Tail(page))) }

  function Decode(rs: seq<Region>, page: Page): Page { WithTail(page, Incoming(rs, Tail(page))) }

  /** The codec touches only the last eight bytes. */
  lemma CodecKeepsBody(rs: seq<Region>, page: Page)
    ensures Encode(rs, page)[..TAIL] == page[..TAIL] && Decode(rs, page)[..TAIL] == page[..TAIL]
  {
  }

  /** A tail word that survives: null, foreign to both heaps, a local pointer that maps
      into the remote heap, or one in a region mapped onto itself. */
  ghost predicate Survives(rs: seq<Region>, w: Address) {
    || w == 0
    || (!InLocalHeap(w) && !InRemoteHeap(w))
    || (InLocalHeap(w) && exists q: Address :: Image(rs, w, q) && (InRemoteHeap(q) || q == w))
    || (InRemoteHeap(w) && Image(rs, w, w))
  }

  /** The codec is the identity on a page exactly when its tail word survives. */
  lemma CodecRoundTrip(rs: seq<Region>, page: Page)
    requires Disjoint(rs)
    ensures Decode(rs, Encode(rs, page)) == page <==> Survives(rs, Tail(page))
  {
    var w := Tail(page);
    var v := Outgoing(rs, w);
    TailFacts(page, v);
    TailFacts(page, Incoming(rs, v));
    TailFacts(page, w);
    assert Decode(rs, Encode(rs, page)) == WithTail(page, Incoming(rs, v));
    TailRoundTrip(rs, w);
  }

  lemma TailRoundTrip(rs: seq<Region>, w: Address)
    requires Disjoint(rs)
    ensures Incoming(rs, Outgoing(rs, w)) == w <==> Survives(rs, w)
  {
    if InLocalHeap(w) {
      forall q: Address ensures ToRemote(rs, w) == Some(q) <==> Image(rs, w, q) { ToRemoteIsImage(rs, w, q); }
      var q := Outgoing(rs, w);
      if q != 0 { RoundTrip(rs, w, q); }
    } else if InRemoteHeap(w) {
      ToLocalIsImage(rs, w, w);
    }
  }

  // --------------------------------------------------------------- translator

  method LoadTail(page: array<Byte>) returns (w: Address)
    requires page.Length == PAGE_SIZE
    ensures w == Tail(page[..])
  {
    BytesOfWord(page[TAIL..]);
    PowerIsWord();
    assert page[..][TAIL..] == page[TAIL..];
    var acc: nat := 0;
    var i := PAGE_SIZE;
    while i > TAIL
      invariant TAIL <= i <= PAGE_SIZE && acc == WordOf(page[i..])
    {
      i := i - 1;
      assert page[i..][1..] == page[i + 1..];
      acc := page[i] + 256 * acc;
    }
    w := acc;
  }

  method StoreTail(page: array<Byte>, w: Address)
    requires page.Length == PAGE_SIZE
    modifies page
    ensures page[..] == WithTail(old(page[..]), w)
  {
    ghost var was := page[..];
    var rest: nat := w;
    for i := 0 to 8
      invariant page[..TAIL] == was[..TAIL]
      invariant page[TAIL..TAIL + i] + BytesOf(rest, 8 - i) == BytesOf(w, 8)
    {
      ghost var done := page[TAIL..TAIL + i];
      page[TAIL + i] := rest % 256;
      assert page[TAIL..TAIL + i + 1] == done + [page[TAIL + i]];
      rest := rest / 256;
    }
    assert page[..] == page[..TAIL] + page[TAIL..TAIL + 8];
  }

  class Translator {
    var regions: seq<Region>

    ghost predicate Valid()
      reads this
    {
      Keyed(regions)
    }

    constructor ()
      ensures Valid() && regions == []
    {
      regions := [];
    }

    /** `register_address_region` */
    method RegisterRegion(local: Address, size: Address, remote: Address)
      requires Valid()
      modifies this
      ensures Valid() && regions == Register(old(regions), NewRegion(local, size, remote))
    {
      ghost var r := NewRegion(local, size, remote);
      RegisterUpdates(regions, r, local);
      var i := 0;
      while i < |regions|
        invariant 0 <= i <= |regions| && regions == old(regions)
        invariant forall j :: 0 <= j < i ==> regions[j].localBase != local
      {
        if regions[i].localBase == local {
          regions := regions[i := regions[i].(localEnd := Wrap(local + size), remoteBase := remote, size := size)];
          return;
        }
        i := i + 1;
      }
      regions := [NewRegion(local, size, remote)] + regions;
    }

    /** `unregister_address_region` */
    method UnregisterRegion(local: Address) returns (found: bool)
      requires Valid()
      modifies this
      ensures Valid() && regions == Unregister(old(regions), local)
      ensures found <==> Lookup(old(regions), local).Some?
    {
      UnregisterRemoves(regions, local, local);
      var i := 0;
      while i < |regions|
        invariant 0 <= i <= |regions| && regions == old(regions)
        invariant forall j :: 0 <= j < i ==> regions[j].localBase != local
      {
        if regions[i].localBase == local {
          regions := regions[..i] + regions[i + 1..];
          return true;
        }
        i := i + 1;
      }
      return false;
    }

    method LocalToRemote(p: Address) returns (q: Option<Address>)
      ensures q == ToRemote(regions, p)
    {
      if p == 0 { return Some(0); }
      assert regions[0..] == regions;
      for i := 0 to |regions|
        invariant ToRemote(regions[i..], p) == ToRemote(regions, p)
      {
        if regions[i].localBase <= p < regions[i].localEnd {
          return Some(Wrap(regions[i].remoteBase + (p - regions[i].localBase)));
        }
        assert regions[i..][1..] == regions[i + 1..];
      }
      return None;
    }

    method RemoteToLocal(q: Address) returns (p: Option<Address>)
      ensures p == ToLocal(regions, q)
    {
      if q == 0 { return Some(0); }
      assert regions[0..] == regions;
      for i := 0 to |regions|
        invariant ToLocal(regions[i..], q) == ToLocal(regions, q)
      {
        if regions[i].remoteBase <= q < Wrap(regions[i].remoteBase + regions[i].size) {
          return Some(Wrap(regions[i].localBase + (q - regions[i].remoteBase)));
        }
        assert regions[i..][1..] == regions[i + 1..];
      }
      return None;
    }

    /** Rewrite the tail of a page for storage; a local pointer without a region becomes null. */
    method EncodePage(page: array<Byte>) returns (ok: bool)
      requires page.Length == PAGE_SIZE
      modifies page
      ensures page[..] == Encode(regions, old(page[..]))
      ensures !ok <==> InLocalHeap(old(Tail(page[..]))) && ToRemote(regions, old(Tail(page[..]))).None?
    {
      var w := LoadTail(page);
      TailFacts(page[..], w);
      if w == 0 { return true; }
      if LOCAL_HEAP_BASE <= w < LOCAL_HEAP_END {
        var q := LocalToRemote(w);
        StoreTail(page, if q.Some? then q.value else 0);
        return q.Some?;
      }
      return true;
    }

    /** Rewrite the tail of a page read back; a remote pointer without a region becomes null. */
    method DecodePage(page: array<Byte>) returns (ok: bool)
      requires page.Length == PAGE_SIZE
      modifies page
      ensures page[..] == Decode(regions, old(page[..]))
      ensures !ok <==> InRemoteHeap(old(Tail(page[..]))) && ToLocal(regions, old(Tail(page[..]))).None?
    {
      var w := LoadTail(page);
      TailFacts(page[..], w);
      if w == 0 { return true; }
      if REMOTE_HEAP_BASE <= w < REMOTE_HEAP_END {
        var p := RemoteToLocal(w);
        StoreTail(page, if p.Some? then p.value else 0);
        return p.Some?;
      }
      return true;
    }
  }
}
