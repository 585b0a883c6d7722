/**
 * random_masking of MaskedAutoencoderViT for one sample: choose the noise (random ranks
 * or the block grid), rank the patches with argsort, keep the len_keep lowest-noise
 * patches, and build the 0/1 mask in patch order through ids_restore.
 */
module Masking {
  import opened Util
  import opened Arith
  import opened Reshape
  import opened Permutations
  import opened BlockMask

  /** Where random_masking stops with an exception before returning. */
  datatype MaskError =
    | NoiseUnbound    // mask_type is neither "random" nor contains "block": noise is never assigned
    | RandintEmpty    // np.random.randint(sqL - wL) with sqL - wL <= 0
    | ReshapeMismatch // noise.reshape(N, L) of an int(sqrt(L)) x int(sqrt(L)) grid when L is not a square
    | KeptNotZero     // the assert that the len_keep smallest noise values are all 0
    | DroppedNotOne   // the assert that the remaining noise values are all 1

  /** x_masked, mask and ids_restore for one sample. */
  datatype MaskOutput<T> = MaskOutput(xMasked: seq<T>, mask: seq<int>, idsRestore: seq<int>)

  /** Python's `t in s` on strings: t occurs in s as a contiguous substring. */
  predicate Contains(s: string, t: string)
    decreases |s|
  {
    |t| <= |s| && (s[..|t|] == t || Contains(s[1..], t))
  }

  /** The |t| characters of s from position i spell t. */
  predicate OccursAt(s: string, t: string, i: int)
  {
    0 <= i <= |s| - |t| && s[i..i + |t|] == t
  }

  /** Contains finds t exactly when t occurs at some position of s. */
  lemma {:induction false} ContainsAt(s: string, t: string)
    ensures Contains(s, t) <==> exists i :: OccursAt(s, t, i)
  {
    if |t| <= |s| {
      if s[..|t|] == t {
        assert OccursAt(s, t, 0);
      } else {
        ContainsAt(s[1..], t);
        if Contains(s, t) {
          var i :| OccursAt(s[1..], t, i);
          assert s[1..][i..i + |t|] == s[i + 1..i + 1 + |t|];
          assert OccursAt(s, t, i + 1);
        }
        if exists i :: OccursAt(s, t, i) {
          var i :| OccursAt(s, t, i);
          assert i != 0;
          assert s[1..][i - 1..i - 1 + |t|] == s[i..i + |t|];
          assert OccursAt(s[1..], t, i - 1);
        }
      }
    }
  }

  /** The block branch runs for every mask_type other than "random" that contains "block". */
  predicate IsBlockType(maskType: string)
  {
    maskType != "random" && Contains(maskType, "block")
  }

  /** wL: the window side, int(sqrt(len_keep)) for "block" and int(sqrt(L - len_keep)) otherwise. */
  function WindowSide(L: nat, K: nat, maskType: string): nat
    requires K <= L
  {
    if maskType == "block" then Isqrt(K) else Isqrt(L - K)
  }

  /** The grid starts as ones for "block" and as zeros for the other block types. */
  function Background(maskType: string): int
  {
    if maskType == "block" then 1 else 0
  }

  /** The window is written with the other value. */
  function Foreground(maskType: string): int
  {
    if maskType == "block" then 0 else 1
  }

  /** wX and wY are values randint(sqL - wL) can return, whenever the block branch draws them. */
  predicate OffsetsDrawn(L: nat, K: nat, maskType: string, wX: int, wY: int)
    requires K <= L
  {
    IsBlockType(maskType) && Isqrt(L) > WindowSide(L, K, maskType) ==>
      0 <= wX < Isqrt(L) - WindowSide(L, K, maskType) && 0 <= wY < Isqrt(L) - WindowSide(L, K, maskType)
  }

  /** The noise random_masking ranks, or the exception it raises first. */
  function NoiseOf(L: nat, K: nat, maskType: string, randNoise: seq<int>, wX: int, wY: int)
    : (r: Result<seq<int>, MaskError>)
    requires K <= L && |randNoise| == L && OffsetsDrawn(L, K, maskType, wX, wY)
    ensures r.Ok? ==> |r.value| == L
    ensures r.Ok? && maskType != "random" ==> TwoValued(r.value, 0, 1) && multiset(r.value)[0] == K
  {
    if maskType == "random" then Ok(randNoise)
    else if !Contains(maskType, "block") then Err(NoiseUnbound)
    else
      var sqL, wL := Isqrt(L), WindowSide(L, K, maskType);
      if sqL <= wL then Err(RandintEmpty)
      else if sqL * sqL != L then Err(ReshapeMismatch)
      else
        var noise := Noise(sqL, wL, wX, wY, Background(maskType), Foreground(maskType));
        NoiseTwoValued(sqL, wL, wX, wY, Background(maskType), Foreground(maskType));
        SortedBitsIsSort(noise);
        var sorted := SortedBits(multiset(noise)[0], L);
        KeptAssert(multiset(noise)[0], L, K);
        DroppedAssert(multiset(noise)[0], L, K);
        if !(forall i :: 0 <= i < K ==> sorted[i] == 0) then Err(KeptNotZero)
        else if !(forall i :: K <= i < L ==> sorted[i] == 1) then Err(DroppedNotOne)
        else Ok(noise)
  }

  /** Only "random" and the block types produce noise; any other mask_type fails. */
  lemma NoiseBound(L: nat, K: nat, maskType: string, randNoise: seq<int>, wX: int, wY: int)
    requires K <= L && |randNoise| == L && OffsetsDrawn(L, K, maskType, wX, wY)
    ensures maskType == "random" ==> NoiseOf(L, K, maskType, randNoise, wX, wY) == Ok(randNoise)
    ensures NoiseOf(L, K, maskType, randNoise, wX, wY) == Err(NoiseUnbound)
            <==> maskType != "random" && forall i :: !OccursAt(maskType, "block", i)
  {
    ContainsAt(maskType, "block");
  }

  /** randint fails exactly when the window is as wide as the grid; it is never wider. */
  lemma RandintFails(L: nat, K: nat, maskType: string, randNoise: seq<int>, wX: int, wY: int)
    requires K <= L && |randNoise| == L && OffsetsDrawn(L, K, maskType, wX, wY)
    requires IsBlockType(maskType)
    ensures WindowSide(L, K, maskType) <= Isqrt(L)
    ensures NoiseOf(L, K, maskType, randNoise, wX, wY) == Err(RandintEmpty)
            <==> WindowSide(L, K, maskType) == Isqrt(L)
  {
    if maskType == "block" {
      IsqrtMono(K, L);
    } else {
      IsqrtMono(L - K, L);
    }
  }

  /** The zeros the block grid holds: the window for "block", everything else for the others. */
  function BlockZeros(L: nat, K: nat, maskType: string): int
    requires K <= L
  {
    var wL := WindowSide(L, K, maskType);
    if maskType == "block" then wL * wL else L - wL * wL
  }

  /**
   * Past randint, a non-square L fails at the reshape; a square L passes both asserts
   * exactly when the grid holds len_keep zeros, failing the first with fewer and the
   * second with more.
   */
  lemma BlockAsserts(L: nat, K: nat, maskType: string, randNoise: seq<int>, wX: int, wY: int)
    requires K <= L && |randNoise| == L && OffsetsDrawn(L, K, maskType, wX, wY)
    requires IsBlockType(maskType) && WindowSide(L, K, maskType) < Isqrt(L)
    ensures Isqrt(L) * Isqrt(L) != L ==> NoiseOf(L, K, maskType, randNoise, wX, wY) == Err(ReshapeMismatch)
    ensures Isqrt(L) * Isqrt(L) == L ==>
      var r := NoiseOf(L, K, maskType, randNoise, wX, wY);
      && (r == Err(KeptNotZero) <==> BlockZeros(L, K, maskType) < K)
      && (r == Err(DroppedNotOne) <==> BlockZeros(L, K, maskType) > K)
      && (r.Ok? <==> BlockZeros(L, K, maskType) == K)
  {
    var sqL, wL := Isqrt(L), WindowSide(L, K, maskType);
    if sqL * sqL == L {
      var bg, fg := Background(maskType), Foreground(maskType);
      var noise := Noise(sqL, wL, wX, wY, bg, fg);
      ZeroCount(sqL, wL, wX, wY, bg, fg);
      NoiseTwoValued(sqL, wL, wX, wY, bg, fg);
      SortedBitsIsSort(noise);
      var z := multiset(noise)[0];
      assert z == BlockZeros(L, K, maskType);
      KeptAssert(z, L, K);
      DroppedAssert(z, L, K);
    }
  }

  /** For mask_type "block" the noise exists exactly when L and len_keep are squares and the window is narrower than the grid. */
  lemma BlockAccepted(L: nat, K: nat, randNoise: seq<int>, wX: int, wY: int)
    requires K <= L && |randNoise| == L && OffsetsDrawn(L, K, "block", wX, wY)
    ensures NoiseOf(L, K, "block", randNoise, wX, wY).Ok?
            <==> Isqrt(L) * Isqrt(L) == L && Isqrt(K) * Isqrt(K) == K && Isqrt(K) < Isqrt(L)
  {
    assert Contains("block", "block");
    RandintFails(L, K, "block", randNoise, wX, wY);
    if Isqrt(K) < Isqrt(L) {
      BlockAsserts(L, K, "block", randNoise, wX, wY);
    }
  }

  /** Accepted block noise is the window grid: len_keep zeros, and nothing on the last row or column. */
  lemma BlockNoiseShape(L: nat, K: nat, maskType: string, randNoise: seq<int>, wX: int, wY: int)
    requires K <= L && |randNoise| == L && OffsetsDrawn(L, K, maskType, wX, wY)
    requires IsBlockType(maskType) && NoiseOf(L, K, maskType, randNoise, wX, wY).Ok?
    ensures var sqL, wL := Isqrt(L), WindowSide(L, K, maskType);
      && sqL * sqL == L && Fits(sqL, wL, wX, wY)
      && NoiseOf(L, K, maskType, randNoise, wX, wY).value
         == Noise(sqL, wL, wX, wY, Background(maskType), Foreground(maskType))
      && multiset(NoiseOf(L, K, maskType, randNoise, wX, wY).value)[0] == K
      && var g := Grid(sqL, wL, wX, wY, Background(maskType), Foreground(maskType));
         forall i :: 0 <= i < sqL ==> g[sqL - 1][i] == Background(maskType) && g[i][sqL - 1] == Background(maskType)
  {
    var sqL, wL := Isqrt(L), WindowSide(L, K, maskType);
    BlockAsserts(L, K, maskType, randNoise, wX, wY);
    WindowAwayFromEdge(sqL, wL, wX, wY, Background(maskType), Foreground(maskType));
    ZeroCount(sqL, wL, wX, wY, Background(maskType), Foreground(maskType));
  }

  // ------------------------------------------------------------ argsort and gather

  /** The gathers of random_masking given ids_shuffle and ids_restore. */
  function Masked<T>(x: seq<T>, K: nat, shuffle: seq<int>, restore: seq<int>): (m: MaskOutput<T>)
    requires K <= |x| && |shuffle| == |x| && |restore| == |x|
    requires IsPermutation(shuffle) && IsPermutation(restore)
    ensures |m.xMasked| == K && |m.mask| == |x| && m.idsRestore == restore
    ensures forall k :: 0 <= k < K ==> m.xMasked[k] == x[shuffle[k]]
    ensures forall i :: 0 <= i < |x| ==> m.mask[i] == if restore[i] < K then 0 else 1
  {
    MaskOutput(Gather(x, shuffle[..K]), Gather(SortedBits(K, |x|), restore), restore)
  }

  /**
   * What random_masking promises of its result for a given noise: ids_restore is a
   * permutation that ranks lower noise first; x_masked holds, at each kept rank, the
   * token of that rank; mask is 0 exactly at the kept positions.
   */
  ghost predicate ValidMasking<T>(x: seq<T>, K: nat, noise: seq<int>, m: MaskOutput<T>)
  {
    && |noise| == |x| && K <= |x|
    && |m.idsRestore| == |x| && IsPermutation(m.idsRestore)
    && (forall i, j :: 0 <= i < |x| && 0 <= j < |x| && noise[i] < noise[j] ==> m.idsRestore[i] < m.idsRestore[j])
    && |m.xMasked| == K
    && (forall i :: 0 <= i < |x| && m.idsRestore[i] < K ==> m.xMasked[m.idsRestore[i]] == x[i])
    && |m.mask| == |x|
    && (forall i :: 0 <= i < |x| ==> m.mask[i] == if m.idsRestore[i] < K then 0 else 1)
  }

  /**
   * With ids_shuffle = argsort(noise) and ids_restore = argsort(ids_shuffle), the gathers
   * give a valid masking, ids_restore inverts ids_shuffle, and row k of x_masked is the
   * token at ids_shuffle[k].
   */
  lemma MaskedIsValid<T>(x: seq<T>, K: nat, noise: seq<int>, shuffle: seq<int>, restore: seq<int>)
    requires |noise| == |x| && K <= |x| && IsArgsort(noise, shuffle) && IsArgsort(shuffle, restore)
    ensures forall i :: 0 <= i < |x| ==> restore[shuffle[i]] == i && shuffle[restore[i]] == i
    ensures ValidMasking(x, K, noise, Masked(x, K, shuffle, restore))
    ensures forall k :: 0 <= k < K ==> Masked(x, K, shuffle, restore).xMasked[k] == x[shuffle[k]]
  {
    ArgsortOfPermutation(shuffle, restore);
    var m := Masked(x, K, shuffle, restore);
    forall i | 0 <= i < |x| && restore[i] < K
      ensures m.xMasked[restore[i]] == x[i]
    {
      assert m.xMasked[restore[i]] == x[shuffle[restore[i]]];
    }
  }

  /** The mask has exactly len_keep zeros and L - len_keep ones. */
  lemma MaskCounts<T>(x: seq<T>, K: nat, noise: seq<int>, m: MaskOutput<T>)
    requires ValidMasking(x, K, noise, m)
    ensures multiset(m.mask) == multiset{}[0 := K][1 := |x| - K]
  {
    var t := SortedBits(K, |x|);
    assert m.mask == Gather(t, m.idsRestore);
    GatherPermutationMultiset(t, m.idsRestore);
    RepeatMultiset(0, K);
    RepeatMultiset(1, |x| - K);
    assert multiset(t) == multiset(Repeat(0, K)) + multiset(Repeat(1, |x| - K));
  }

  /** A kept position never has more noise than a removed one: the len_keep smallest are kept. */
  lemma KeptAreSmallest<T>(x: seq<T>, K: nat, noise: seq<int>, m: MaskOutput<T>)
    requires ValidMasking(x, K, noise, m)
    ensures forall i, j :: 0 <= i < |x| && 0 <= j < |x| && m.mask[i] == 0 && m.mask[j] == 1 ==> noise[i] <= noise[j]
  {
  }

  /** Row k of x_masked is the token of a kept position whose rank is k. */
  ghost predicate RowFromKept<T>(x: seq<T>, m: MaskOutput<T>, k: int)
  {
    exists i :: 0 <= i < |x| && i < |m.idsRestore| && i < |m.mask| && 0 <= k < |m.xMasked|
                && m.idsRestore[i] == k && m.mask[i] == 0 && m.xMasked[k] == x[i]
  }

  /** Every row of x_masked is a token of x, taken from a position the mask keeps. */
  lemma KeptRowsFromX<T>(x: seq<T>, K: nat, noise: seq<int>, m: MaskOutput<T>)
    requires ValidMasking(x, K, noise, m)
    ensures forall k :: 0 <= k < K ==> RowFromKept(x, m, k)
  {
    forall k | 0 <= k < K
      ensures RowFromKept(x, m, k)
    {
      assert k in m.idsRestore;
      var i :| 0 <= i < |x| && m.idsRestore[i] == k;
      assert m.mask[i] == 0 && m.xMasked[k] == x[i];
    }
  }

  /**
   * Zeros of a are zeros of b: b has at least as many zeros, and more when it has a zero
   * at a position j where a has none.
   */
  lemma {:induction false} ZerosIncluded(a: seq<int>, b: seq<int>, j: int)
    requires |a| == |b| && forall k :: 0 <= k < |a| && a[k] == 0 ==> b[k] == 0
    ensures multiset(a)[0] <= multiset(b)[0]
    ensures 0 <= j < |a| && a[j] != 0 && b[j] == 0 ==> multiset(a)[0] < multiset(b)[0]
  {
    if |a| > 0 {
      var n := |a| - 1;
      ZerosIncluded(a[..n], b[..n], j);
      assert a == a[..n] + [a[n]];
      assert b == b[..n] + [b[n]];
    }
  }

  /**
   * With block noise the mask is the noise itself: the len_keep zeros of the grid are
   * exactly the kept patches, whichever argsort breaks the ties.
   */
  lemma BlockMaskIsNoise<T>(x: seq<T>, K: nat, maskType: string, randNoise: seq<int>, wX: int, wY: int,
                            m: MaskOutput<T>)
    requires K <= |x| && |randNoise| == |x| && OffsetsDrawn(|x|, K, maskType, wX, wY)
    requires IsBlockType(maskType) && NoiseOf(|x|, K, maskType, randNoise, wX, wY).Ok?
    requires ValidMasking(x, K, NoiseOf(|x|, K, maskType, randNoise, wX, wY).value, m)
    ensures m.mask == NoiseOf(|x|, K, maskType, randNoise, wX, wY).value
  {
    var noise := NoiseOf(|x|, K, maskType, randNoise, wX, wY).value;
    MaskCounts(x, K, noise, m);
    assert multiset(m.mask)[0] == K;
    KeptAreSmallest(x, K, noise, m);
    forall i | 0 <= i < |x|
      ensures m.mask[i] == noise[i]
    {
      if m.mask[i] == 0 && noise[i] != 0 {
        assert forall k :: 0 <= k < |x| && noise[k] == 0 ==> m.mask[k] == 0;
        ZerosIncluded(noise, m.mask, i);
      }
      if m.mask[i] != 0 && noise[i] == 0 {
        assert forall k :: 0 <= k < |x| && m.mask[k] == 0 ==> noise[k] == 0;
        ZerosIncluded(m.mask, noise, i);
      }
    }
  }

  /**
   * Which patches the block types keep: for "block" exactly those in the window, for the
   * other block types exactly those outside it. Patch i is grid cell (i / sqL, i % sqL).
   */
  lemma BlockKeepsWindow<T>(x: seq<T>, K: nat, maskType: string, randNoise: seq<int>, wX: int, wY: int,
                            m: MaskOutput<T>)
    requires K <= |x| && |randNoise| == |x| && OffsetsDrawn(|x|, K, maskType, wX, wY)
    requires IsBlockType(maskType) && NoiseOf(|x|, K, maskType, randNoise, wX, wY).Ok?
    requires ValidMasking(x, K, NoiseOf(|x|, K, maskType, randNoise, wX, wY).value, m)
    ensures Isqrt(|x|) * Isqrt(|x|) == |x|
    ensures forall i :: 0 <= i < |x| ==>
      (m.mask[i] == 0 <==> (InWindow(i / Isqrt(|x|), i % Isqrt(|x|), wX, wY, WindowSide(|x|, K, maskType))
                            <==> maskType == "block"))
  {
    var sqL, wL := Isqrt(|x|), WindowSide(|x|, K, maskType);
    BlockNoiseShape(|x|, K, maskType, randNoise, wX, wY);
    BlockMaskIsNoise(x, K, maskType, randNoise, wX, wY, m);
    forall i | 0 <= i < |x|
      ensures m.mask[i] == 0 <==> (InWindow(i / sqL, i % sqL, wX, wY, wL) <==> maskType == "block")
    {
      NoiseAtCell(sqL, wL, wX, wY, Background(maskType), Foreground(maskType), i);
    }
  }

  // ------------------------------------------------------------ the method

  /** mask = torch.ones(L); mask[:len_keep] = 0, written in place. */
  method KeepMask(K: nat, L: nat) returns (mask: seq<int>)
    requires K <= L
    ensures mask == SortedBits(K, L)
  {
    var a := new int[L](_ => 1);
    for i := 0 to K
      invariant forall j :: 0 <= j < L ==> a[j] == if j < i then 0 else 1
    {
      a[i] := 0;
    }
    mask := a[..];
  }

  /**
   * random_masking for one sample. len_keep is K; randNoise stands for torch.rand and
   * wX, wY for the two randint draws.
   */
  method RandomMasking<T>(x: seq<T>, K: nat, maskType: string, randNoise: seq<int>, wX: int, wY: int)
    returns (r: Result<MaskOutput<T>, MaskError>)
    requires K <= |x| && |randNoise| == |x| && OffsetsDrawn(|x|, K, maskType, wX, wY)
    ensures var noise := NoiseOf(|x|, K, maskType, randNoise, wX, wY);
      && (noise.Err? ==> r == Err(noise.error))
      && (noise.Ok? ==> r.Ok? && ValidMasking(x, K, noise.value, r.value))
  {
    var L := |x|;
    var noise: seq<int>;
    if maskType == "random" {
      noise := randNoise;
    } else if !Contains(maskType, "block") {
      return Err(NoiseUnbound);
    } else {
      var sqL := Isqrt(L);
      var wL := WindowSide(L, K, maskType);
      if sqL <= wL {
        return Err(RandintEmpty);
      }
      var bg, fg := Background(maskType), Foreground(maskType);
      noise := FillNoise(sqL, wL, wX, wY, bg, fg);
      if sqL * sqL != L {
        return Err(ReshapeMismatch);
      }
      NoiseTwoValued(sqL, wL, wX, wY, bg, fg);
      SortedBitsIsSort(noise);
      var sorted := SortedBits(multiset(noise)[0], L);
      if !(forall i :: 0 <= i < K ==> sorted[i] == 0) {
        return Err(KeptNotZero);
      }
      if !(forall i :: K <= i < L ==> sorted[i] == 1) {
        return Err(DroppedNotOne);
      }
    }
    var shuffle := ArgSort(noise);
    var restore := ArgSort(shuffle);
    var template := KeepMask(K, L);
    MaskedIsValid(x, K, noise, shuffle, restore);
    r := Ok(MaskOutput(Gather(x, shuffle[..K]), Gather(template, restore), restore));
  }
}
