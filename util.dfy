/** Failure-carrying wrappers shared by the model's modules. */
module Util {

  /** A value that may be missing: the source raised (an assert, a reshape, a torch.cat). */
  datatype Option<+T> = None | Some(value: T)

  /** A value or the reason the source stopped with an exception. */
  datatype Result<+R, +E> = Ok(value: R) | Err(error: E)

  /** Applies a per-token map (a Linear or LayerNorm layer) to every element. */
  function Map<A, B>(f: A -> B, s: seq<A>): (r: seq<B>)
    ensures |r| == |s| && forall k :: 0 <= k < |s| ==> r[k] == f(s[k])
  {
    seq(|s|, k requires 0 <= k < |s| => f(s[k]))
  }

  /** A sequence of n copies of v (torch.ones / torch.zeros / Tensor.repeat). */
  function Repeat<T>(v: T, n: nat): (r: seq<T>)
    ensures |r| == n && forall k :: 0 <= k < n ==> r[k] == v
  {
    seq(n, _ => v)
  }

  /** A constant sequence holds its value n times and nothing else. */
  lemma {:induction false} RepeatMultiset<T>(v: T, n: nat)
    ensures multiset(Repeat(v, n)) == multiset{} [v := n]
  {
    if n > 0 {
      RepeatMultiset(v, n - 1);
      assert Repeat(v, n) == Repeat(v, n - 1) + [v];
    }
  }

  /** Chunks joined in order (torch.cat along the first dimension, a list of calls). */
  function Concat<T>(blocks: seq<seq<T>>): seq<T>
  {
    if |blocks| == 0 then [] else Concat(blocks[..|blocks| - 1]) + blocks[|blocks| - 1]
  }

  /** Element j of chunk b sits after the elements of the chunks before b. */
  lemma {:induction false} ConcatAt<T>(blocks: seq<seq<T>>, b: nat, j: nat) returns (k: nat)
    requires b < |blocks| && j < |blocks[b]|
    ensures k == |Concat(blocks[..b])| + j && k < |Concat(blocks)| && Concat(blocks)[k] == blocks[b][j]
  {
    var n := |blocks| - 1;
    assert blocks[..n][..b] == blocks[..b];
    if b < n {
      k := ConcatAt(blocks[..n], b, j);
    } else {
      k := |Concat(blocks[..b])| + j;
    }
  }

  /** Chunks of the same sizes join to the same length. */
  lemma {:induction false} ConcatSameLength<A, B>(xs: seq<seq<A>>, ys: seq<seq<B>>)
    requires |xs| == |ys| && forall i :: 0 <= i < |xs| ==> |xs[i]| == |ys[i]|
    ensures |Concat(xs)| == |Concat(ys)|
  {
    if |xs| > 0 {
      ConcatSameLength(xs[..|xs| - 1], ys[..|ys| - 1]);
    }
  }
}
