// Sums of weights over sequences: what counting signatures and verifiers comes down to.
module Weights {
  function Weigh<T>(w: T -> nat, s: seq<T>): nat {
    if s == [] then 0 else Weigh(w, s[..|s| - 1]) + w(s[|s| - 1])
  }

  lemma {:induction false} WeighAppend<T>(w: T -> nat, a: seq<T>, b: seq<T>)
    ensures Weigh(w, a + b) == Weigh(w, a) + Weigh(w, b)
  {
    if b == [] {
      assert a + b == a;
    } else {
      assert (a + b)[..|a + b| - 1] == a + b[..|b| - 1];
      WeighAppend(w, a, b[..|b| - 1]);
    }
  }

  lemma WeighOne<T>(w: T -> nat, front: seq<T>, x: T)
    ensures Weigh(w, front + [x]) == Weigh(w, front) + w(x)
  {
    assert (front + [x])[..|front|] == front;
  }

  lemma WeighMiddle<T>(w: T -> nat, s: seq<T>, front: seq<T>, x: T, tail: seq<T>)
    requires s == front + [x] + tail
    ensures Weigh(w, s) == Weigh(w, front + tail) + w(x)
  {
    WeighOne(w, front, x);
    WeighAppend(w, front + [x], tail);
    WeighAppend(w, front, tail);
  }

  lemma WeighSplit<T>(w: T -> nat, s: seq<T>, j: nat)
    requires j < |s|
    ensures Weigh(w, s) == Weigh(w, s[..j] + s[j + 1..]) + w(s[j])
  {
    WeighMiddle(w, s, s[..j], s[j], s[j + 1..]);
  }

  lemma MultisetWithout<T>(s: seq<T>, j: nat)
    requires j < |s|
    ensures multiset(s) == multiset(s[..j] + s[j + 1..]) + multiset{s[j]}
  {
    assert s == s[..j] + [s[j]] + s[j + 1..];
  }

  lemma MultisetCancel<T>(a: multiset<T>, b: multiset<T>, x: T)
    requires a + multiset{x} <= b + multiset{x}
    ensures a <= b
  {
    forall y ensures a[y] <= b[y] {
      assert (a + multiset{x})[y] <= (b + multiset{x})[y];
    }
  }

  /** The weight depends on what is in the sequence and not on its order, and more elements never weigh less. */
  lemma {:induction false} WeighMultiset<T>(w: T -> nat, a: seq<T>, b: seq<T>)
    requires multiset(a) <= multiset(b)
    ensures Weigh(w, a) <= Weigh(w, b)
  {
    if a != [] {
      var last := |a| - 1;
      var front, x := a[..last], a[last];
      assert x in multiset(a);
      assert x in multiset(b);
      var j :| 0 <= j < |b| && b[j] == x;
      var rest := b[..j] + b[j + 1..];
      MultisetWithout(a, last);
      MultisetWithout(b, j);
      assert a[..last] + a[last + 1..] == front;
      MultisetCancel(multiset(front), multiset(rest), x);
      WeighMultiset(w, front, rest);
      WeighSplit(w, b, j);
    }
  }

  lemma {:induction false} WeighPointwise<T>(w1: T -> nat, w2: T -> nat, s: seq<T>)
    requires forall x :: x in s ==> w1(x) <= w2(x)
    ensures Weigh(w1, s) <= Weigh(w2, s)
    ensures (forall x :: x in s ==> w1(x) == w2(x)) ==> Weigh(w1, s) == Weigh(w2, s)
  {
    if s != [] {
      WeighPointwise(w1, w2, s[..|s| - 1]);
    }
  }

  lemma {:induction false} WeighAtLeast<T>(w: T -> nat, s: seq<T>)
    requires forall x :: x in s ==> w(x) >= 1
    ensures Weigh(w, s) >= |s|
  {
    if s != [] {
      WeighAtLeast(w, s[..|s| - 1]);
    }
  }
}
