/**
 * Index permutations as torch.argsort and torch.gather produce and consume them.
 * argsort promises a permutation that orders its keys ascending and nothing about
 * ties, so it is specified here by IsArgsort rather than by one algorithm.
 */
module Permutations {

  /** p lists every position 0 .. |p|-1 exactly once. */
  predicate IsPermutation(p: seq<int>)
  {
    && (forall i :: 0 <= i < |p| ==> 0 <= p[i] < |p|)
    && (forall i, j :: 0 <= i < j < |p| ==> p[i] != p[j])
    && (forall v :: 0 <= v < |p| ==> v in p)
  }

  /** ids is a possible result of torch.argsort(keys): a permutation that reads keys in ascending order. */
  predicate IsArgsort(keys: seq<int>, ids: seq<int>)
  {
    && |ids| == |keys|
    && IsPermutation(ids)
    && forall i, j :: 0 <= i < j < |ids| ==> keys[ids[i]] <= keys[ids[j]]
  }

  /** torch.gather along the sequence axis: row k of the result is row idx[k] of s. */
  function Gather<T>(s: seq<T>, idx: seq<int>): (r: seq<T>)
    requires forall k :: 0 <= k < |idx| ==> 0 <= idx[k] < |s|
    ensures |r| == |idx| && forall k :: 0 <= k < |idx| ==> r[k] == s[idx[k]]
  {
    seq(|idx|, k requires 0 <= k < |idx| => s[idx[k]])
  }

  /** A strictly increasing integer sequence climbs by at least one per position. */
  lemma {:induction false} StrictGap(t: seq<int>, i: int, j: int)
    requires forall a :: 0 <= a < |t| - 1 ==> t[a] < t[a + 1]
    requires 0 <= i <= j < |t|
    ensures t[j] - t[i] >= j - i
  {
    if i < j {
      StrictGap(t, i, j - 1);
    }
  }

  /**
   * The argsort of a permutation is its inverse: argsort has no freedom left when the
   * keys are distinct, so ids_restore = argsort(ids_shuffle) undoes ids_shuffle.
   */
  lemma ArgsortOfPermutation(s: seq<int>, r: seq<int>)
    requires IsPermutation(s) && IsArgsort(s, r)
    ensures forall i :: 0 <= i < |r| ==> s[r[i]] == i
    ensures forall k :: 0 <= k < |s| ==> r[s[k]] == k
  {
    var n := |s|;
    var t := Gather(s, r);
    forall a | 0 <= a < n - 1
      ensures t[a] < t[a + 1]
    {
      assert r[a] != r[a + 1];
    }
    forall i | 0 <= i < n
      ensures s[r[i]] == i
    {
      StrictGap(t, 0, i);
      StrictGap(t, i, n - 1);
    }
    forall k | 0 <= k < n
      ensures r[s[k]] == k
    {
      var m := r[s[k]];
      assert s[m] == s[k];
    }
  }

  /** forward_l_decoder's argsort(ids_restore) gives back the ids_shuffle of the masking step. */
  lemma ArgsortRecoversShuffle(noise: seq<int>, shuffle: seq<int>, restore: seq<int>, recovered: seq<int>)
    requires IsArgsort(noise, shuffle) && IsArgsort(shuffle, restore)
    requires IsArgsort(restore, recovered)
    ensures recovered == shuffle
  {
    ArgsortOfPermutation(shuffle, restore);
    ArgsortOfPermutation(restore, recovered);
    forall i | 0 <= i < |shuffle|
      ensures recovered[i] == shuffle[i]
    {
      assert restore[recovered[i]] == i == restore[shuffle[i]];
    }
  }

  /** Dropping the position that holds the largest value leaves a permutation one shorter. */
  lemma DropTopIsPermutation(p: seq<int>, j: int)
    requires IsPermutation(p) && 0 <= j < |p| && p[j] == |p| - 1
    ensures IsPermutation(p[..j] + p[j + 1..])
  {
    var n := |p|;
    var q := p[..j] + p[j + 1..];
    assert |q| == n - 1;
    assert forall i :: 0 <= i < n - 1 ==> q[i] == (if i < j then p[i] else p[i + 1]);
    forall i | 0 <= i < n - 1
      ensures 0 <= q[i] < n - 1
    {
      if i < j { assert p[i] != p[j]; } else { assert p[i + 1] != p[j]; }
    }
    forall v | 0 <= v < n - 1
      ensures v in q
    {
      assert v in p;
      var i :| 0 <= i < n && p[i] == v;
      if i < j { assert q[i] == v; } else { assert i != j && q[i - 1] == v; }
    }
  }

  /** Gathering through p equals gathering through p with its top value dropped, plus that value's row. */
  lemma GatherSplitAtTop<T>(s: seq<T>, p: seq<int>, q: seq<int>, j: int)
    requires |p| == |s| && 0 <= j < |p| && p[j] == |p| - 1 && q == p[..j] + p[j + 1..]
    requires forall i :: 0 <= i < |p| ==> 0 <= p[i] < |p|
    requires forall i :: 0 <= i < |q| ==> 0 <= q[i] < |q|
    ensures Gather(s, p) == Gather(s[..|s| - 1], q)[..j] + [s[|s| - 1]] + Gather(s[..|s| - 1], q)[j..]
  {
    var n := |s|;
    var g, g' := Gather(s, p), Gather(s[..n - 1], q);
    var h := g'[..j] + [s[n - 1]] + g'[j..];
    assert |h| == n;
    forall k | 0 <= k < n
      ensures g[k] == h[k]
    {
      if k < j {
        assert q[k] == p[k];
      } else if k > j {
        assert q[k - 1] == p[k];
      }
    }
  }

  /** Putting x anywhere in a sequence adds exactly one x to its multiset. */
  lemma MultisetInsert<T>(g: seq<T>, j: int, x: T)
    requires 0 <= j <= |g|
    ensures multiset(g[..j] + [x] + g[j..]) == multiset(g) + multiset{x}
  {
    assert g[..j] + g[j..] == g;
  }

  /** Gathering through a permutation rearranges s without adding or losing an element. */
  lemma {:induction false} GatherPermutationMultiset<T>(s: seq<T>, p: seq<int>)
    requires IsPermutation(p) && |p| == |s|
    ensures multiset(Gather(s, p)) == multiset(s)
  {
    var n := |s|;
    if n > 0 {
      assert n - 1 in p;
      var j :| 0 <= j < n && p[j] == n - 1;
      var q := p[..j] + p[j + 1..];
      DropTopIsPermutation(p, j);
      var s' := s[..n - 1];
      GatherPermutationMultiset(s', q);
      var g := Gather(s', q);
      calc {
        multiset(Gather(s, p));
        { GatherSplitAtTop(s, p, q, j); }
        multiset(g[..j] + [s[n - 1]] + g[j..]);
        { MultisetInsert(g, j, s[n - 1]); }
        multiset(g) + multiset{s[n - 1]};
        multiset(s') + multiset{s[n - 1]};
        { assert s == s' + [s[n - 1]]; }
        multiset(s);
      }
    }
  }

  /** ids orders the first i positions of keys ascending, each exactly once. */
  predicate SortedPrefix(keys: seq<int>, ids: seq<int>, i: int)
  {
    && 0 <= i <= |keys| && |ids| == i
    && (forall k :: 0 <= k < i ==> 0 <= ids[k] < i)
    && (forall a, b :: 0 <= a < b < i ==> ids[a] != ids[b])
    && (forall v :: 0 <= v < i ==> v in ids)
    && (forall a, b :: 0 <= a < b < i ==> keys[ids[a]] <= keys[ids[b]])
  }

  /** Inserting position i after every key not above keys[i] and before every key above it keeps the order. */
  lemma InsertKeepsOrder(keys: seq<int>, ids: seq<int>, i: int, pos: int)
    requires SortedPrefix(keys, ids, i) && i < |keys| && 0 <= pos <= i
    requires forall k :: 0 <= k < pos ==> keys[ids[k]] <= keys[i]
    requires forall k :: pos <= k < i ==> keys[ids[k]] > keys[i]
    ensures SortedPrefix(keys, ids[..pos] + [i] + ids[pos..], i + 1)
  {
    var ids' := ids[..pos] + [i] + ids[pos..];
    InsertedAt(ids, i, pos);
    forall a, b | 0 <= a < b < i + 1
      ensures keys[ids'[a]] <= keys[ids'[b]] && ids'[a] != ids'[b]
    {
      if b < pos || a > pos {
      } else if a == pos {
        assert ids'[b] == ids[b - 1];
      } else if b == pos {
        assert ids'[a] == ids[a];
      } else {
        assert ids'[a] == ids[a] && ids'[b] == ids[b - 1];
      }
    }
    InsertedCovers(ids, i, pos);
  }

  /** Where each entry of ids lands once i is inserted at pos. */
  lemma InsertedAt(ids: seq<int>, i: int, pos: int)
    requires 0 <= pos <= |ids|
    ensures var ids' := ids[..pos] + [i] + ids[pos..];
      && |ids'| == |ids| + 1
      && (forall k :: 0 <= k < pos ==> ids'[k] == ids[k])
      && ids'[pos] == i
      && (forall k :: pos < k < |ids'| ==> ids'[k] == ids[k - 1])
  {
  }

  /** Inserting i into a sequence that covers 0 .. i-1 covers 0 .. i. */
  lemma InsertedCovers(ids: seq<int>, i: int, pos: int)
    requires 0 <= pos <= |ids| && forall v :: 0 <= v < i ==> v in ids
    ensures forall v :: 0 <= v < i + 1 ==> v in ids[..pos] + [i] + ids[pos..]
  {
    var ids' := ids[..pos] + [i] + ids[pos..];
    InsertedAt(ids, i, pos);
    forall v | 0 <= v < i + 1
      ensures v in ids'
    {
      if v == i {
        assert ids'[pos] == v;
      } else {
        assert v in ids;
        var k :| 0 <= k < |ids| && ids[k] == v;
        if k < pos { assert ids'[k] == v; } else { assert ids'[k + 1] == v; }
      }
    }
  }

  /** A stable insertion sort of positions by key; it stands in for torch.argsort. */
  method ArgSort(keys: seq<int>) returns (ids: seq<int>)
    ensures IsArgsort(keys, ids)
  {
    ids := [];
    var i := 0;
    while i < |keys|
      invariant SortedPrefix(keys, ids, i)
    {
      var pos := i;
      while pos > 0 && keys[ids[pos - 1]] > keys[i]
        invariant 0 <= pos <= i
        invariant forall k :: pos <= k < i ==> keys[ids[k]] > keys[i]
      {
        pos := pos - 1;
      }
      forall k | 0 <= k < pos
        ensures keys[ids[k]] <= keys[i]
      {
        if k < pos - 1 { assert keys[ids[k]] <= keys[ids[pos - 1]]; }
      }
      InsertKeepsOrder(keys, ids, i, pos);
      ids := ids[..pos] + [i] + ids[pos..];
      i := i + 1;
    }
  }
}
