/**
 A network as a sequence of messages in flight; any of them may be the next to arrive.  Termination arguments
 give every message a weight and add them up.
 */
module Channels {

  /** What is left when message `i` has been taken out. */
  function Without<T>(net: seq<T>, i: nat): (r: seq<T>)
    requires i < |net|
    ensures |r| == |net| - 1
    ensures forall m :: m in r ==> m in net
    ensures forall m :: m in net ==> m in r || m == net[i]
  {
    assert net == net[..i] + [net[i]] + net[i + 1..];
    net[..i] + net[i + 1..]
  }

  function One(b: bool): nat {
    if b then 1 else 0
  }

  /** How taking out message `i` and sending `replies` change the number of copies of `f`. */
  lemma CountsAfter<T>(net: seq<T>, i: nat, back: seq<T>, replies: seq<T>, f: T)
    requires i < |net|
    ensures multiset(Without(net, i))[f] == multiset(net)[f] - One(net[i] == f)
    ensures multiset(back + replies)[f] == multiset(back)[f] + multiset(replies)[f]
  {
    assert net == net[..i] + [net[i]] + net[i + 1..];
  }

  function Sum<T>(weight: T -> nat, net: seq<T>): nat {
    if net == [] then 0 else weight(net[0]) + Sum(weight, net[1..])
  }

  lemma SumOne<T>(weight: T -> nat, m: T)
    ensures Sum(weight, [m]) == weight(m)
  {
    assert [m][1..] == [];
  }

  lemma {:induction false} SumSplits<T>(weight: T -> nat, a: seq<T>, b: seq<T>)
    ensures Sum(weight, a + b) == Sum(weight, a) + Sum(weight, b)
  {
    if a == [] {
      assert a + b == b;
    } else {
      assert (a + b)[1..] == a[1..] + b;
      SumSplits(weight, a[1..], b);
    }
  }

  /** The weight of the network without message `i`, with `replies` sent. */
  lemma SumAfter<T>(weight: T -> nat, net: seq<T>, i: nat, replies: seq<T>)
    requires i < |net|
    ensures Sum(weight, net) == Sum(weight, Without(net, i)) + weight(net[i])
    ensures Sum(weight, Without(net, i) + replies) == Sum(weight, net) - weight(net[i]) + Sum(weight, replies)
  {
    var front, back := net[..i], net[i + 1..];
    assert net == front + ([net[i]] + back);
    SumSplits(weight, front, [net[i]] + back);
    SumSplits(weight, [net[i]], back);
    SumSplits(weight, front, back);
    SumOne(weight, net[i]);
    SumSplits(weight, Without(net, i), replies);
  }

  lemma {:induction false} UniformSum<T>(weight: T -> nat, net: seq<T>, w: nat)
    requires forall m :: m in net ==> weight(m) == w
    ensures Sum(weight, net) == |net| * w
  {
    if net != [] {
      assert net[0] in net;
      UniformSum(weight, net[1..], w);
      OneMore(|net|, w);
    }
  }

  lemma OneMore(n: nat, w: nat)
    requires n > 0
    ensures n * w == (n - 1) * w + w
  {
  }
}
