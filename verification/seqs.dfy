/** Sequence helpers shared by the model. */
module Seqs {

  /** The elements of `q` in the opposite order, characterised index by index. */
  function Reverse<T>(q: seq<T>): (r: seq<T>)
    ensures |r| == |q|
    ensures forall i :: 0 <= i < |q| ==> r[i] == q[|q| - 1 - i]
  {
    if q == [] then [] else Reverse(q[1..]) + [q[0]]
  }

  /** Reversing keeps every element with its multiplicity. */
  lemma {:induction false} ReversePermutes<T>(q: seq<T>)
    ensures multiset(Reverse(q)) == multiset(q)
  {
    if q != [] {
      ReversePermutes(q[1..]);
      assert q == [q[0]] + q[1..];
    }
  }

  /** Removing the last element first and emitting it ahead of the reversal of
      the rest is the reversal of the whole. */
  lemma ReverseOfSnoc<T>(p: seq<T>, x: T)
    ensures Reverse(p + [x]) == [x] + Reverse(p)
  {
    var l, r := Reverse(p + [x]), [x] + Reverse(p);
    assert |l| == |r|;
    forall i | 0 <= i < |l|
      ensures l[i] == r[i]
    {
      if i > 0 {
        assert r[i] == Reverse(p)[i - 1];
      }
    }
  }
}
