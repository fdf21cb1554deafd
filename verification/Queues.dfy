/** The seven policy lists as sequences of descriptor ids, next to leave first.
    `Fifo` proves the linked lists themselves against sequences. */
module Queues {
  import opened Common

  type Id = nat

  datatype ListName = Active | Inactive | Eviction | DiskActive | DramFree | DiskFree | DiskReserve

  datatype Lists = Lists(queues: map<ListName, seq<Id>>) {
    function At(w: ListName): seq<Id> { if w in queues then queues[w] else [] }

    function With(w: ListName, q: seq<Id>): Lists { Lists(queues[w := q]) }
  }

  lemma WithCommute(l: Lists, w: ListName, q: seq<Id>, u: ListName, r: seq<Id>)
    requires w != u
    ensures l.With(w, q).With(u, r) == l.With(u, r).With(w, q)
  {
  }

  ghost predicate Distinct(q: seq<Id>) {
    forall i, j :: 0 <= i < j < |q| ==> q[i] != q[j]
  }

  /** Removal from any position; the others keep their order. */
  function Drop(q: seq<Id>, id: Id): seq<Id> {
    if q == [] then []
    else if q[0] == id then q[1..]
    else [q[0]] + Drop(q[1..], id)
  }

  lemma {:induction false} DropFacts(q: seq<Id>, id: Id)
    requires Distinct(q)
    ensures Distinct(Drop(q, id))
    ensures forall x :: x in Drop(q, id) <==> x in q && x != id
    ensures |Drop(q, id)| == if id in q then |q| - 1 else |q|
  {
    if q != [] && q[0] != id {
      DropFacts(q[1..], id);
      assert q[0] !in q[1..];
      assert forall x :: x in q <==> x == q[0] || x in q[1..];
    } else if q != [] {
      assert forall x :: x in q <==> x == q[0] || x in q[1..];
    }
  }

  lemma DropHead(q: seq<Id>)
    requires q != []
    ensures Drop(q, q[0]) == q[1..]
  {
  }

  function Leave(lists: Lists, id: Id, from: Option<ListName>): Lists {
    if from.Some? then lists.With(from.value, Drop(lists.At(from.value), id)) else lists
  }

  function Join(lists: Lists, id: Id, to: Option<ListName>): Lists {
    if to.Some? then lists.With(to.value, lists.At(to.value) + [id]) else lists
  }

  function Move(lists: Lists, id: Id, from: Option<ListName>, to: Option<ListName>): Lists {
    Join(Leave(lists, id, from), id, to)
  }

  /** `home` gives the list each descriptor says it is on. The queues hold each
      descriptor exactly where it says it is, once. */
  ghost predicate Filed(lists: Lists, home: seq<Option<ListName>>) {
    && (forall w: ListName :: Distinct(lists.At(w)))
    && (forall w: ListName, id: Id {:trigger id in lists.At(w)} ::
          id in lists.At(w) ==> id < |home| && home[id] == Some(w))
    && (forall id: Id :: id < |home| && home[id].Some? ==> id in lists.At(home[id].value))
  }

  /** Moving one descriptor keeps the filing right. */
  lemma MoveFiled(lists: Lists, home: seq<Option<ListName>>, id: Id, to: Option<ListName>)
    requires Filed(lists, home) && id < |home|
    ensures Filed(Move(lists, id, home[id], to), home[id := to])
  {
    var mid := Leave(lists, id, home[id]);
    forall w: ListName
      ensures Distinct(mid.At(w))
      ensures forall x :: x in mid.At(w) <==> x in lists.At(w) && x != id
    {
      DropFacts(lists.At(w), id);
    }
    var end := Move(lists, id, home[id], to);
    var home' := home[id := to];
    forall w: ListName
      ensures Distinct(end.At(w))
      ensures forall x :: x in end.At(w) <==> x in mid.At(w) || (to == Some(w) && x == id)
    {
      assert id !in mid.At(w);
      assert end.At(w) == if to == Some(w) then mid.At(w) + [id] else mid.At(w);
    }
  }

  /** Moving the head of one queue to the tail of a queue. */
  lemma MoveHead(lists: Lists, from: ListName, to: ListName)
    requires lists.At(from) != []
    ensures var id := lists.At(from)[0];
      forall w :: Move(lists, id, Some(from), Some(to)).At(w)
               == (if w == from then lists.At(from)[1..] else lists.At(w)) + (if w == to then [id] else [])
  {
  }
}
