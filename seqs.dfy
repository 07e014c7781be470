/** Flattening a sequence of sequences (`np.vstack` followed by `ravel`). */
module Seqs {

  /** Concatenation of a sequence of sequences, in order (`np.vstack` / `ravel`). */
  function Concat<T>(xss: seq<seq<T>>): seq<T>
  {
    if xss == [] then [] else xss[0] + Concat(xss[1..])
  }

  lemma {:induction false} ConcatAppend<T>(xss: seq<seq<T>>, yss: seq<seq<T>>)
    ensures Concat(xss + yss) == Concat(xss) + Concat(yss)
  {
    if xss == [] {
      assert xss + yss == yss;
    } else {
      assert (xss + yss)[1..] == xss[1..] + yss;
      ConcatAppend(xss[1..], yss);
    }
  }

  /** Appending one more sequence appends its elements after all earlier ones. */
  lemma ConcatSnoc<T>(xss: seq<seq<T>>, last: seq<T>)
    ensures Concat(xss + [last]) == Concat(xss) + last
  {
    ConcatAppend(xss, [last]);
    assert Concat([last]) == last + Concat([]);
  }
}
