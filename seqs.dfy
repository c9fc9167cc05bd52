/** Sequences built from blocks: `Stream.flatMap` and nested `forEach` loops that emit one
    block of output per element. */
module Seqs {
  /** The blocks, one after the other. */
  function Concat<T>(blocks: seq<seq<T>>): seq<T>
  {
    if |blocks| == 0 then [] else Concat(blocks[..|blocks| - 1]) + blocks[|blocks| - 1]
  }

  /** One more block at the end of a prefix of the blocks. */
  lemma {:induction false} ConcatPrefix<T>(blocks: seq<seq<T>>, k: nat)
    requires k < |blocks|
    ensures Concat(blocks[..k + 1]) == Concat(blocks[..k]) + blocks[k]
  {
    assert blocks[..k + 1][..k] == blocks[..k];
  }

  /** Concatenation distributes over appending blocks. */
  lemma {:induction false} ConcatAppend<T>(a: seq<seq<T>>, b: seq<seq<T>>)
    ensures Concat(a + b) == Concat(a) + Concat(b)
  {
    if |b| == 0 {
      assert a + b == a;
    } else {
      var n := |b| - 1;
      ConcatAppend(a, b[..n]);
      assert (a + b)[..|a| + n] == a + b[..n];
      assert (a + b)[|a| + n] == b[n];
      assert Concat(a + b) == Concat(a + b[..n]) + b[n];
      assert Concat(b) == Concat(b[..n]) + b[n];
      AppendAssoc(Concat(a), Concat(b[..n]), b[n]);
    }
  }

  /** Appending is associative; the one statement of it every module uses. */
  lemma {:induction false} AppendAssoc<T>(x: seq<T>, y: seq<T>, z: seq<T>)
    ensures x + y + z == x + (y + z)
  {
  }

  /** Every element of a concatenation comes from one of its blocks. */
  lemma {:induction false} ConcatAll<T>(blocks: seq<seq<T>>, p: T -> bool)
    requires forall k, i :: 0 <= k < |blocks| && 0 <= i < |blocks[k]| ==> p(blocks[k][i])
    ensures forall i :: 0 <= i < |Concat(blocks)| ==> p(Concat(blocks)[i])
  {
    if |blocks| > 0 {
      var n := |blocks| - 1;
      ConcatAll(blocks[..n], p);
      var front := Concat(blocks[..n]);
      assert Concat(blocks) == front + blocks[n];
      forall i | 0 <= i < |Concat(blocks)|
        ensures p(Concat(blocks)[i])
      {
        if i >= |front| {
          assert Concat(blocks)[i] == blocks[n][i - |front|];
        } else {
          assert Concat(blocks)[i] == front[i];
        }
      }
    }
  }
}
