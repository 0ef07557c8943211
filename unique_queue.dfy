/** Utility.UniqueQueue: a FIFO queue that refuses duplicates and can be
    re-sorted ascending. The library only ever instantiates it with uint. */
module Utility {
  import opened Bytes
  import opened Outcomes

  predicate NoDuplicates(q: seq<uint32>) {
    forall i, j :: 0 <= i < j < |q| ==> q[i] != q[j]
  }

  predicate Ascending(q: seq<uint32>) {
    forall i, j :: 0 <= i < j < |q| ==> q[i] <= q[j]
  }

  predicate StrictlyAscending(q: seq<uint32>) {
    forall i, j :: 0 <= i < j < |q| ==> q[i] < q[j]
  }

  /** UniqueQueue.Enqueue on the queue's contents. */
  function Enqueued(q: seq<uint32>, x: uint32): seq<uint32> {
    if x in q then q else q + [x]
  }

  lemma EnqueuedKeepsNoDuplicates(q: seq<uint32>, x: uint32)
    requires NoDuplicates(q)
    ensures NoDuplicates(Enqueued(q, x))
    ensures x in Enqueued(q, x)
    ensures (set y | y in Enqueued(q, x)) == (set y | y in q) + {x}
  {
  }

  /** Places x in an ascending sequence after every element not greater than it. */
  function InsertAscending(x: uint32, s: seq<uint32>): (r: seq<uint32>)
    requires Ascending(s)
    ensures forall k :: 0 <= k < |r| ==> r[k] == x || r[k] in s
    ensures Ascending(r) && multiset(r) == multiset(s) + multiset{x}
  {
    if s == [] || x <= s[0] then [x] + s
    else
      var rest := InsertAscending(x, s[1..]);
      assert s == [s[0]] + s[1..];
      PrependAscending(s[0], rest);
      [s[0]] + rest
  }

  /** An element no greater than any of an ascending sequence may lead it. */
  lemma PrependAscending(a: uint32, rest: seq<uint32>)
    requires Ascending(rest) && forall k :: 0 <= k < |rest| ==> a <= rest[k]
    ensures Ascending([a] + rest)
  {
  }

  /** Enumerable.OrderBy(x => x) on uint: the same elements, in ascending order. */
  function SortAscending(s: seq<uint32>): (r: seq<uint32>)
    ensures Ascending(r) && multiset(r) == multiset(s)
  {
    if s == [] then []
    else
      assert s == [s[0]] + s[1..];
      InsertAscending(s[0], SortAscending(s[1..]))
  }

  lemma {:induction false} InsertAscendingKeepsNoDuplicates(x: uint32, s: seq<uint32>)
    requires Ascending(s) && NoDuplicates(s) && x !in s
    ensures NoDuplicates(InsertAscending(x, s))
  {
    if s != [] && x > s[0] {
      InsertAscendingKeepsNoDuplicates(x, s[1..]);
      var rest := InsertAscending(x, s[1..]);
      assert s[0] !in multiset(rest);
    }
  }

  /** Sorting a duplicate-free queue leaves it duplicate-free, hence strictly ascending. */
  lemma {:induction false} SortKeepsNoDuplicates(s: seq<uint32>)
    requires NoDuplicates(s)
    ensures NoDuplicates(SortAscending(s))
    ensures StrictlyAscending(SortAscending(s))
  {
    if s != [] {
      SortKeepsNoDuplicates(s[1..]);
      assert s[0] !in multiset(s[1..]);
      InsertAscendingKeepsNoDuplicates(s[0], SortAscending(s[1..]));
    }
  }

  /** OrderByAscending on a queue already in ascending order changes nothing. */
  lemma {:induction false} SortAscendingIdempotent(s: seq<uint32>)
    requires Ascending(s)
    ensures SortAscending(s) == s
  {
    if s != [] {
      SortAscendingIdempotent(s[1..]);
      assert s == [s[0]] + s[1..];
    }
  }

  /** The front of an ascending queue is its smallest element. */
  lemma FrontIsSmallest(q: seq<uint32>, x: uint32)
    requires Ascending(q) && x in q
    ensures q[0] <= x
  {
  }

  class UniqueQueue {
    /** The contents, in the order Dequeue hands them out. */
    var items: seq<uint32>

    ghost predicate Valid()
      reads this
    {
      NoDuplicates(items)
    }

    constructor ()
      ensures Valid() && items == []
    {
      items := [];
    }

    function Count(): nat
      reads this
    {
      |items|
    }

    function Contains(x: uint32): bool
      reads this
    {
      x in items
    }

    /** Enqueue: an element already present is not added again. */
    method Enqueue(x: uint32)
      requires Valid()
      modifies this
      ensures Valid()
      ensures items == Enqueued(old(items), x)
    {
      if x in items {
        return;
      }
      items := items + [x];
    }

    /** Dequeue: Queue.Dequeue, which throws on an empty queue. */
    method Dequeue() returns (r: Result<uint32>)
      requires Valid()
      modifies this
      ensures Valid()
      ensures old(items) == [] ==> r == Err(InvalidOperation) && items == old(items)
      ensures old(items) != [] ==> r == Ok(old(items)[0]) && items == old(items)[1..]
      ensures Count() == if old(items) == [] then 0 else old(Count()) - 1
    {
      if items == [] {
        return Err(InvalidOperation);
      }
      r := Ok(items[0]);
      items := items[1..];
    }

    /** OrderByAscending: copies the sorted elements into a temporary queue,
        clears the queue and enqueues them back one by one. */
    method OrderByAscending()
      requires Valid()
      modifies this
      ensures Valid()
      ensures items == SortAscending(old(items))
      ensures StrictlyAscending(items)
    {
      var ordered := SortAscending(items);
      SortKeepsNoDuplicates(items);
      var temp: seq<uint32> := [];
      var i := 0;
      while i < |ordered|
        invariant 0 <= i <= |ordered|
        invariant temp == ordered[..i]
      {
        temp := temp + [ordered[i]];
        i := i + 1;
      }
      items := [];
      var j := 0;
      while j < |temp|
        invariant 0 <= j <= |temp|
        invariant items == temp[..j]
      {
        items := items + [temp[j]];
        j := j + 1;
      }
    }
  }
}
