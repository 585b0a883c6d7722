/**
 * Row-major reshapes of nested sequences: Flatten merges two leading axes into one,
 * Chunk splits one axis into n blocks of w. They are the two directions of
 * Tensor.reshape on contiguous data.
 */
module Reshape {
  import opened Arith

  /** The rows of t, each of width w, laid end to end. */
  function Flatten<T>(t: seq<seq<T>>, w: nat): (r: seq<T>)
    requires forall i :: 0 <= i < |t| ==> |t[i]| == w
    ensures |r| == |t| * w
  {
    if |t| == 0 then [] else Peel(|t|, w); t[0] + Flatten(t[1..], w)
  }

  /** One fewer block of w is w fewer elements. */
  lemma Peel(n: int, w: int)
    ensures (n - 1) * w == n * w - w
  {
  }

  /** s, of n * w elements, cut into n consecutive blocks of w. */
  function Chunk<T>(s: seq<T>, w: nat, n: nat): (r: seq<seq<T>>)
    requires |s| == n * w
    ensures |r| == n && forall i :: 0 <= i < n ==> |r[i]| == w
  {
    var r := seq(n, i requires 0 <= i < n => BlockEnd(i, w, n); s[i * w .. i * w + w]);
    assert forall i :: 0 <= i < n ==> |r[i]| == w by {
      forall i | 0 <= i < n
        ensures |r[i]| == w
      {
        BlockEnd(i, w, n);
      }
    }
    r
  }

  /** Element j of block i of a chunked sequence is element i * w + j of the original. */
  lemma ChunkAt<T>(s: seq<T>, w: nat, n: nat, i: nat, j: nat)
    requires |s| == n * w && i < n && j < w
    ensures i * w + j < |s| && Chunk(s, w, n)[i][j] == s[i * w + j]
  {
    BlockEnd(i, w, n);
  }

  /** Element i * w + j of a flattened sequence is element j of row i. */
  lemma {:induction false} FlattenAt<T>(t: seq<seq<T>>, w: nat, i: nat, j: nat)
    requires forall k :: 0 <= k < |t| ==> |t[k]| == w
    requires i < |t| && j < w
    ensures i * w + j < |t| * w && Flatten(t, w)[i * w + j] == t[i][j]
  {
    BlockEnd(i, w, |t|);
    if i > 0 {
      Peel(i, w);
      FlattenAt(t[1..], w, i - 1, j);
    }
  }

  /** Every element of a flattened sequence is element j of some row i, at k == i * w + j. */
  lemma {:induction false} FlattenIndex<T>(t: seq<seq<T>>, w: nat, k: nat) returns (i: nat, j: nat)
    requires forall i :: 0 <= i < |t| ==> |t[i]| == w
    requires k < |t| * w
    ensures i < |t| && j < w && k == i * w + j && Flatten(t, w)[k] == t[i][j]
  {
    Peel(|t|, w);
    if k < w {
      i, j := 0, k;
    } else {
      var i', j' := FlattenIndex(t[1..], w, k - w);
      i, j := i' + 1, j';
      Peel(i, w);
    }
  }

  /** Cutting into blocks and laying them end to end again gives back the sequence. */
  lemma FlattenChunk<T>(s: seq<T>, w: nat, n: nat)
    requires |s| == n * w
    ensures Flatten(Chunk(s, w, n), w) == s
  {
    var c := Chunk(s, w, n);
    var f := Flatten(c, w);
    forall k | 0 <= k < |s|
      ensures f[k] == s[k]
    {
      var i, j := FlattenIndex(c, w, k);
      ChunkAt(s, w, n, i, j);
    }
  }

  /** Laying rows end to end and cutting at the row width gives back the rows. */
  lemma ChunkFlatten<T>(t: seq<seq<T>>, w: nat)
    requires forall i :: 0 <= i < |t| ==> |t[i]| == w
    ensures Chunk(Flatten(t, w), w, |t|) == t
  {
    var f := Flatten(t, w);
    var c := Chunk(f, w, |t|);
    forall i | 0 <= i < |t|
      ensures c[i] == t[i]
    {
      forall j | 0 <= j < w
        ensures c[i][j] == t[i][j]
      {
        ChunkAt(f, w, |t|, i, j);
        FlattenAt(t, w, i, j);
      }
    }
  }

  /** Flattening distributes over concatenation of the rows. */
  lemma {:induction false} FlattenAppend<T>(a: seq<seq<T>>, b: seq<seq<T>>, w: nat)
    requires forall i :: 0 <= i < |a| ==> |a[i]| == w
    requires forall i :: 0 <= i < |b| ==> |b[i]| == w
    ensures Flatten(a + b, w) == Flatten(a, w) + Flatten(b, w)
  {
    if |a| > 0 {
      assert (a + b)[1..] == a[1..] + b;
      FlattenAppend(a[1..], b, w);
    } else {
      assert a + b == b;
    }
  }

  /** A single row flattens to itself. */
  lemma FlattenSingle<T>(row: seq<T>, w: nat)
    requires |row| == w
    ensures Flatten([row], w) == row
  {
    assert [row][1..] == [];
  }
}
