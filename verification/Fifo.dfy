/** The intrusive doubly linked lists of page descriptors. A list refines the sequence of
    its pages, next to leave first. */
module Fifo {

  class UserPage {
    var next: UserPage?
    var prev: UserPage?
    var list: FifoList?

    constructor ()
      ensures next == null && prev == null && list == null
    {
      next, prev, list := null, null, null;
    }
  }

  class FifoList {
    var first: UserPage?
    var last: UserPage?
    var numentries: nat
    ghost var Contents: seq<UserPage>

    /** Links, count and every page's `list` field agree with `Contents`. */
    ghost predicate Valid()
      reads this, Contents
    {
      && numentries == |Contents|
      && (if Contents == [] then first == null && last == null
          else last == Contents[0] && first == Contents[|Contents| - 1])
      && (forall i, j :: 0 <= i < j < |Contents| ==> Contents[i] != Contents[j])
      && (forall i :: 0 <= i < |Contents| ==> LinkedAt(i))
    }

    ghost predicate LinkedAt(i: nat)
      requires i < |Contents|
      reads this, Contents
    {
      && Contents[i].list == this
      && Contents[i].prev == (if i + 1 < |Contents| then Contents[i + 1] else null)
      && Contents[i].next == (if i > 0 then Contents[i - 1] else null)
    }

    constructor ()
      ensures Valid() && Contents == []
    {
      first, last, numentries, Contents := null, null, 0, [];
    }

    /** A list none of whose objects changed is still what it was. */
    twostate lemma Untouched()
      requires old(Valid()) && unchanged(this) && unchanged(Contents)
      ensures Valid()
    {
      forall i | 0 <= i < |Contents| ensures LinkedAt(i) { assert old(LinkedAt(i)); }
    }

    /** `enqueue_fifo` */
    method Enqueue(entry: UserPage)
      requires Valid() && entry !in Contents && entry.prev == null
      modifies this, entry, if first == null then {} else {first}
      ensures Valid() && Contents == old(Contents) + [entry]
    {
      entry.next := first;
      if first != null {
        assert first == Contents[|Contents| - 1] && LinkedAt(|Contents| - 1);
        assert first.prev == null;
        first.prev := entry;
      } else {
        assert last == null && numentries == 0;
        last := entry;
      }
      first := entry;
      entry.list := this;
      numentries := numentries + 1;
      Contents := Contents + [entry];
      forall i | 0 <= i < |old(Contents)| ensures LinkedAt(i) { assert old(LinkedAt(i)); }
      assert LinkedAt(|old(Contents)|);
    }

    /** `dequeue_fifo` */
    method Dequeue() returns (ret: UserPage?)
      requires Valid()
      modifies this, Contents
      ensures Valid()
      ensures ret == null <==> old(Contents) == []
      ensures ret == null ==> Contents == []
      ensures ret != null ==> ret == old(Contents)[0] && Contents == old(Contents)[1..]
      ensures ret != null ==> ret.next == null && ret.prev == null && ret.list == null
    {
      ret := last;
      if ret == null { return; }
      assert LinkedAt(0) && (|Contents| > 1 ==> LinkedAt(1));
      last := ret.prev;
      if last != null {
        assert last == Contents[1];
        last.next := null;
      } else {
        first := null;
      }
      ret.prev, ret.next := null, null;
      ret.list := null;
      assert numentries > 0;
      numentries := numentries - 1;
      Contents := Contents[1..];
      forall i | 0 <= i < |Contents| ensures LinkedAt(i) { assert old(LinkedAt(i + 1)); }
    }

    /** Make the neighbours of a page name each other, and the page nobody. */
    method Bypass(page: UserPage)
      requires page.next != page && page.prev != page && (page.next != null ==> page.next != page.prev)
      modifies page, if page.next == null then {} else {page.next}, if page.prev == null then {} else {page.prev}
      ensures page.next == null && page.prev == null && page.list == null
      ensures var n := old(page.next);
        n != null ==> n.prev == old(page.prev) && n.next == old(n.next) && n.list == old(n.list)
      ensures var p := old(page.prev);
        p != null ==> p.next == old(page.next) && p.prev == old(p.prev) && p.list == old(p.list)
    {
      if page.next != null { page.next.prev := page.prev; }
      if page.prev != null { page.prev.next := page.next; }
      page.next, page.prev, page.list := null, null, null;
    }

    /** The pointer surgery shared by both removals. */
    method Unlink(page: UserPage, ghost k: nat)
      requires Valid() && k < |Contents| && Contents[k] == page
      modifies this, Contents
      ensures Valid() && Contents == old(Contents)[..k] + old(Contents)[k + 1..]
      ensures page.next == null && page.prev == null && page.list == null
    {
      assert LinkedAt(k) && (k > 0 ==> LinkedAt(k - 1)) && (k + 1 < |Contents| ==> LinkedAt(k + 1));
      if first == page { first := page.next; }
      if last == page { last := page.prev; }
      assert page.next != null ==> page.next == Contents[k - 1];
      assert page.prev != null ==> page.prev == Contents[k + 1];
      Bypass(page);
      assert numentries > 0;
      numentries := numentries - 1;
      Contents := Contents[..k] + Contents[k + 1..];
      forall i | 0 <= i < |Contents| ensures LinkedAt(i) {
        ghost var j := if i < k then i else i + 1;
        assert old(LinkedAt(j)) && Contents[i] == old(Contents)[j];
      }
    }

    /** `page_list_remove_page`: an empty list is left alone. */
    method Remove(page: UserPage, ghost k: nat)
      requires Valid() && (Contents != [] ==> k < |Contents| && Contents[k] == page)
      modifies this, Contents
      ensures Valid()
      ensures Contents == if old(Contents) == [] then [] else old(Contents)[..k] + old(Contents)[k + 1..]
      ensures old(Contents) != [] ==> page.next == null && page.prev == null && page.list == null
    {
      if first == null {
        assert last == null && numentries == 0;
        return;
      }
      Unlink(page, k);
    }

    /** `page_list_tryremove_page` on a list that is not null: only a page that says it is
        on this list is removed. */
    method TryRemove(page: UserPage) returns (ok: bool)
      requires Valid() && (page.list == this ==> page in Contents)
      modifies this, Contents
      ensures Valid() && ok == old(page.list == this)
      ensures !ok ==> Contents == old(Contents) && unchanged(this) && unchanged(old(Contents))
      ensures ok ==> page !in Contents && page.list == null
      ensures ok ==> exists k :: 0 <= k < |old(Contents)| && old(Contents)[k] == page
                       && Contents == old(Contents)[..k] + old(Contents)[k + 1..]
    {
      if page.list != this { return false; }
      if first == null { return false; }
      ghost var k :| 0 <= k < |Contents| && Contents[k] == page;
      Unlink(page, k);
      return true;
    }

    /** `next_page`: walk the list in leaving order. */
    method NextPage(page: UserPage?, ghost k: nat) returns (res: UserPage?)
      requires Valid() && (page != null ==> k < |Contents| && Contents[k] == page)
      ensures page == null ==> res == (if Contents == [] then null else Contents[0])
      ensures page != null ==> res == (if k + 1 < |Contents| then Contents[k + 1] else null)
    {
      if page == null {
        res := last;
      } else {
        assert LinkedAt(k);
        res := page.prev;
        assert page.list == this;
      }
    }

    method DequeueInto(vector: array<UserPage?>, k: nat) returns (ok: bool)
      requires Valid() && k < vector.Length
      modifies this, Contents, vector
      ensures Valid() && (ok <==> old(Contents) != [])
      ensures Contents == if ok then old(Contents)[1..] else []
      ensures ok ==> vector[k] == old(Contents)[0]
      ensures forall i :: 0 <= i < vector.Length && (i != k || !ok) ==> vector[i] == old(vector[i])
    {
      var page := Dequeue();
      if page == null { return false; }
      vector[k] := page;
      return true;
    }

    /** `dequeue_fifo_vector`: as many single dequeues, or until the list is empty. */
    method DequeueVector(vector: array<UserPage?>, nrFetch: int) returns (taken: nat)
      requires Valid() && nrFetch <= vector.Length
      modifies this, Contents, vector
      ensures Valid()
      ensures taken == (if nrFetch < 0 then 0 else if nrFetch < |old(Contents)| then nrFetch else |old(Contents)|)
      ensures Contents == old(Contents)[taken..]
      ensures forall i :: 0 <= i < taken ==> vector[i] == old(Contents)[i]
      ensures forall i :: taken <= i < vector.Length ==> vector[i] == old(vector[i])
    {
      taken := 0;
      while taken < nrFetch
        invariant Valid() && 0 <= taken <= |old(Contents)| && (taken == 0 || taken <= nrFetch)
        invariant Contents == old(Contents)[taken..]
        invariant forall i :: 0 <= i < taken ==> vector[i] == old(Contents)[i]
        invariant forall i :: taken <= i < vector.Length ==> vector[i] == old(vector[i])
        decreases nrFetch - taken
      {
        var ok := DequeueInto(vector, taken);
        if !ok { break; }
        taken := taken + 1;
      }
    }
  }

  /** `page_list_tryremove_page` with the list pointer it is given, which may be null. */
  method TryRemoveFrom(list: FifoList?, page: UserPage) returns (ok: bool)
    requires list != null ==> list.Valid() && (page.list == list ==> page in list.Contents)
    modifies list, if list == null then [] else list.Contents
    ensures ok <==> list != null && old(page.list) == list
    ensures list != null ==> list.Valid() && (ok ==> page !in list.Contents && page.list == null)
    ensures list != null && !ok ==> list.Contents == old(list.Contents)
  {
    if list == null { return false; }
    ok := list.TryRemove(page);
  }

  ghost predicate Apart(a: seq<UserPage>, b: seq<UserPage>) {
    forall i, j :: 0 <= i < |a| && 0 <= j < |b| ==> a[i] != b[j]
  }

  /** The policy's move: the oldest page of one list becomes the newest of another. Lists
      with no page in common, such as `other`, do not notice. */
  method Transfer(from: FifoList, to: FifoList, ghost other: FifoList) returns (moved: bool)
    requires from.Valid() && to.Valid() && other.Valid() && from != to && from != other && to != other
    requires Apart(from.Contents, to.Contents) && Apart(from.Contents, other.Contents)
      && Apart(to.Contents, other.Contents)
    modifies from, from.Contents, to, to.Contents
    ensures from.Valid() && to.Valid() && other.Valid() && other.Contents == old(other.Contents)
    ensures moved <==> old(from.Contents) != []
    ensures !moved ==> from.Contents == old(from.Contents) && to.Contents == old(to.Contents)
    ensures moved ==> from.Contents == old(from.Contents)[1..]
    ensures moved ==> to.Contents == old(to.Contents) + [old(from.Contents)[0]]
  {
    var page := from.Dequeue();
    to.Untouched();
    other.Untouched();
    if page == null { return false; }
    label taken:
    to.Enqueue(page);
    from.Untouched@taken();
    other.Untouched@taken();
    return true;
  }
}
