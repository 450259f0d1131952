/** The ring buffer `BlockingQueue`: `capacity + 1` slots of which one always stays free. */
module Queues {

  datatype Option<+T> = None | Some(value: T)

  /** The elements between the two marks, oldest first. */
  function Live<T>(vt: seq<T>, start: nat, end: nat): (r: seq<T>)
    requires start < |vt| && end < |vt|
    ensures |r| == if start <= end then end - start else |vt| - start + end
  {
    if start <= end then vt[start..end] else vt[start..] + vt[..end]
  }

  /** `%` as it is used here, on numbers below twice the divisor. */
  lemma ModOnce(a: nat, n: nat)
    requires n > 0 && a < 2 * n
    ensures a % n == if a < n then a else a - n
  {
    if a >= n {
      assert a / n == 1;
    }
  }

  /** The source's test for a full queue. */
  predicate TestsFull(capacity: nat, start: nat, end: nat)
    requires start <= capacity && end <= capacity
  {
    (start + capacity - end) % (capacity + 1) == 0
  }

  /** It holds exactly when the queue has `capacity` elements, and the marks meet exactly when it has none. */
  lemma TestsAreExact<T>(vt: seq<T>, start: nat, end: nat)
    requires start < |vt| && end < |vt|
    ensures TestsFull(|vt| - 1, start, end) <==> |Live(vt, start, end)| == |vt| - 1
    ensures start == end <==> Live(vt, start, end) == []
    ensures |Live(vt, start, end)| <= |vt| - 1
  {
    ModOnce(start + (|vt| - 1) - end, |vt|);
  }

  /** Storing at the end mark and moving it on appends, also across the end of the array. */
  lemma PushAppends<T>(vt: seq<T>, start: nat, end: nat, x: T)
    requires start < |vt| && end < |vt| && !TestsFull(|vt| - 1, start, end)
    ensures (end + 1) % |vt| < |vt|
    ensures Live(vt[end := x], start, (end + 1) % |vt|) == Live(vt, start, end) + [x]
  {
    TestsAreExact(vt, start, end);
    ModOnce(end + 1, |vt|);
  }

  /** Moving the start mark on takes the oldest element, also across the end of the array. */
  lemma PopTakesOldest<T>(vt: seq<T>, start: nat, end: nat)
    requires start < |vt| && end < |vt| && start != end
    ensures (start + 1) % |vt| < |vt|
    ensures Live(vt, start, end) == [vt[start]] + Live(vt, (start + 1) % |vt|, end)
  {
    ModOnce(start + 1, |vt|);
  }

  class BlockingQueue<T(0)> {
    const capacity: nat
    const vt: array<T>
    var start: nat
    var end: nat

    ghost predicate Valid()
      reads this
    {
      vt.Length == capacity + 1 && start <= capacity && end <= capacity
    }

    ghost function Contents(): seq<T>
      reads this, vt
      requires Valid()
    {
      Live(vt[..], start, end)
    }

    constructor (capacity: nat)
      ensures Valid() && fresh(vt) && this.capacity == capacity && Contents() == []
    {
      this.capacity := capacity;
      vt := new T[capacity + 1];
      start, end := 0, 0;
    }

    method IsEmpty() returns (r: bool)
      requires Valid()
      ensures r <==> Contents() == []
    {
      TestsAreExact(vt[..], start, end);
      r := end == start;
    }

    method IsFull() returns (r: bool)
      requires Valid()
      ensures r <==> |Contents()| == capacity
      ensures |Contents()| <= capacity
    {
      TestsAreExact(vt[..], start, end);
      r := (start + capacity - end) % (capacity + 1) == 0;
    }

    /** One turn of `push`: it goes on waiting while the queue is full. */
    method Push(x: T) returns (done: bool)
      requires Valid()
      modifies this`end, vt
      ensures Valid() && done == (|old(Contents())| < capacity)
      ensures Contents() == if done then old(Contents()) + [x] else old(Contents())
    {
      var full := IsFull();
      if full {
        return false;
      }
      PushAppends(vt[..], start, end, x);
      ghost var was := vt[..];
      vt[end] := x;
      assert vt[..] == was[end := x];
      end := (end + 1) % (capacity + 1);
      done := true;
    }

    /** One turn of `pop`: it goes on waiting while the queue is empty. */
    method Pop() returns (r: Option<T>)
      requires Valid()
      modifies this`start
      ensures Valid() && (r.None? <==> old(Contents()) == [])
      ensures old(Contents()) == (if r.Some? then [r.value] else []) + Contents()
    {
      var empty := IsEmpty();
      if empty {
        return None;
      }
      PopTakesOldest(vt[..], start, end);
      r := Some(vt[start]);
      start := (start + 1) % (capacity + 1);
    }
  }
}
