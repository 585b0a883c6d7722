/**
 * patchify / unpatchify of MaskedAutoencoderViT for one sample. patchify reshapes a
 * 3 x hp x hp image to (3, h, p, h, p), permutes the axes with einsum('nchpwq->nhwpqc')
 * and reshapes to h*h patches of p*p*3 values; unpatchify reshapes to (h, h, p, p, 3),
 * permutes back with einsum('nhwpqc->nchpwq') and reshapes to 3 x hp x hp.
 */
module PatchCodec {
  import opened Util
  import opened Arith
  import opened Reshape

  /** The channel count both directions hard-code. */
  const Channels: nat := 3

  type Tensor3<T> = seq<seq<seq<T>>>
  type Tensor4<T> = seq<Tensor3<T>>
  type Tensor5<T> = seq<Tensor4<T>>

  /** One image: pixels[c][y][x], with the height and width of its tensor. */
  datatype Image<T> = Image(height: nat, width: nat, pixels: Tensor3<T>)

  /** Every channel has height rows of width pixels, as a tensor does. */
  predicate WellFormed<T>(img: Image<T>)
  {
    forall c :: 0 <= c < |img.pixels| ==>
      |img.pixels[c]| == img.height &&
      forall y :: 0 <= y < img.height ==> |img.pixels[c][y]| == img.width
  }

  predicate Shape2<T>(t: seq<seq<T>>, d0: nat, d1: nat)
  {
    |t| == d0 && forall i :: 0 <= i < d0 ==> |t[i]| == d1
  }

  predicate Shape3<T>(t: Tensor3<T>, d0: nat, d1: nat, d2: nat)
  {
    |t| == d0 && forall i :: 0 <= i < d0 ==> Shape2(t[i], d1, d2)
  }

  predicate Shape4<T>(t: Tensor4<T>, d0: nat, d1: nat, d2: nat, d3: nat)
  {
    |t| == d0 && forall i :: 0 <= i < d0 ==> Shape3(t[i], d1, d2, d3)
  }

  predicate Shape5<T>(t: Tensor5<T>, d0: nat, d1: nat, d2: nat, d3: nat, d4: nat)
  {
    |t| == d0 && forall i :: 0 <= i < d0 ==> Shape4(t[i], d1, d2, d3, d4)
  }

  // ---------------------------------------------------------------- patchify

  /** Each row of hp pixels split into h runs of p: column wi * p + qi becomes [wi][qi]. */
  function SplitRows<T>(rows: seq<seq<T>>, p: nat, h: nat): (r: Tensor3<T>)
    requires forall y :: 0 <= y < |rows| ==> |rows[y]| == h * p
    ensures |r| == |rows| && forall y :: 0 <= y < |r| ==> Shape2(r[y], h, p)
  {
    seq(|rows|, y requires 0 <= y < |rows| => Chunk(rows[y], p, h))
  }

  /** One channel reshaped to (h, p, h, p): pixel [hi * p + pi][wi * p + qi] becomes [hi][pi][wi][qi]. */
  function SplitChannel<T>(rows: seq<seq<T>>, p: nat, h: nat): (r: Tensor4<T>)
    requires Shape2(rows, h * p, h * p)
    ensures Shape4(r, h, p, h, p)
  {
    var split := SplitRows(rows, p, h);
    var r := Chunk(split, p, h);
    assert forall hi, pi :: 0 <= hi < h && 0 <= pi < p ==> Shape2(r[hi][pi], h, p) by {
      forall hi, pi | 0 <= hi < h && 0 <= pi < p
        ensures Shape2(r[hi][pi], h, p)
      {
        RowOfChunk(split, p, h, hi, pi);
      }
    }
    r
  }

  /** Row [hi][pi] of the chunked rows is row hi * p + pi, which already has shape (h, p). */
  lemma RowOfChunk<T>(split: Tensor3<T>, p: nat, h: nat, hi: nat, pi: nat)
    requires |split| == h * p && forall y :: 0 <= y < |split| ==> Shape2(split[y], h, p)
    requires hi < h && pi < p
    ensures Shape2(Chunk(split, p, h)[hi][pi], h, p)
  {
    ChunkAt(split, p, h, hi, pi);
    var y := hi * p + pi;
    assert Chunk(split, p, h)[hi][pi] == split[y];
  }

  /** imgs.reshape(3, h, p, w, p) for one image. */
  function SplitImage<T>(px: Tensor3<T>, p: nat, h: nat): (r: Tensor5<T>)
    requires Shape3(px, Channels, h * p, h * p)
    ensures Shape5(r, Channels, h, p, h, p)
  {
    seq(Channels, c requires 0 <= c < Channels => SplitChannel(px[c], p, h))
  }

  /** einsum('nchpwq->nhwpqc'): [c][hi][pi][wi][qi] moves to [hi][wi][pi][qi][c]. */
  function ToPatchMajor<T>(r: Tensor5<T>, h: nat, p: nat): (e: Tensor5<T>)
    requires Shape5(r, Channels, h, p, h, p)
    ensures Shape5(e, h, h, p, p, Channels)
  {
    seq(h, hi requires 0 <= hi < h =>
      seq(h, wi requires 0 <= wi < h =>
        seq(p, pi requires 0 <= pi < p =>
          seq(p, qi requires 0 <= qi < p =>
            seq(Channels, c requires 0 <= c < Channels => r[c][hi][pi][wi][qi])))))
  }

  /** One p x p x 3 patch laid out as p*p*3 values, channel fastest. */
  function FlattenPatch<T>(q: Tensor3<T>, p: nat): (v: seq<T>)
    requires Shape3(q, p, p, Channels)
    ensures |v| == p * p * Channels
  {
    Flatten(seq(p, pi requires 0 <= pi < p => Flatten(q[pi], Channels)), p * Channels)
  }

  /** reshape(h * w, p**2 * 3): the h x h grid of patches in row-major order, each flattened. */
  function MergePatches<T>(e: Tensor5<T>, h: nat, p: nat): (x: seq<seq<T>>)
    requires Shape5(e, h, h, p, p, Channels)
    ensures Shape2(x, h * h, p * p * Channels)
  {
    var patches := Flatten(e, h);
    assert forall k :: 0 <= k < h * h ==> Shape3(patches[k], p, p, Channels) by {
      forall k | 0 <= k < h * h
        ensures Shape3(patches[k], p, p, Channels)
      {
        var hi, wi := FlattenIndex(e, h, k);
      }
    }
    seq(h * h, k requires 0 <= k < h * h => FlattenPatch(patches[k], p))
  }

  /** The three steps of patchify on 3 x hp x hp pixels. */
  function PatchesOf<T>(px: Tensor3<T>, p: nat, h: nat): (x: seq<seq<T>>)
    requires Shape3(px, Channels, h * p, h * p)
    ensures Shape2(x, h * h, p * p * Channels)
  {
    MergePatches(ToPatchMajor(SplitImage(px, p, h), h, p), h, p)
  }

  /**
   * patchify: fails (the assert, or the reshape to three channels) unless the image is
   * three square channels whose side p divides; otherwise (side/p)^2 patches of p*p*3 values.
   */
  function Patchify<T>(img: Image<T>, p: nat): (r: Option<seq<seq<T>>>)
    requires p > 0 && WellFormed(img)
    ensures r.Some? <==> img.height == img.width && img.height % p == 0 && |img.pixels| == Channels
    ensures r.Some? ==> Shape2(r.value, (img.height / p) * (img.height / p), p * p * Channels)
  {
    if !(img.height == img.width && img.height % p == 0) then None
    else if |img.pixels| != Channels then None
    else
      var h := img.height / p;
      assert img.height == h * p;
      Some(PatchesOf(img.pixels, p, h))
  }

  // -------------------------------------------------------------- unpatchify

  /** One patch of p*p*3 values reshaped to (p, p, 3). */
  function SplitPatch<T>(v: seq<T>, p: nat): (q: Tensor3<T>)
    requires |v| == p * p * Channels
    ensures Shape3(q, p, p, Channels)
  {
    var rows := Chunk(v, p * Channels, p);
    seq(p, pi requires 0 <= pi < p => Chunk(rows[pi], Channels, p))
  }

  /** Every patch of the list reshaped to (p, p, 3). */
  function SplitEach<T>(x: seq<seq<T>>, p: nat): (q: Tensor4<T>)
    requires forall k :: 0 <= k < |x| ==> |x[k]| == p * p * Channels
    ensures |q| == |x| && forall k :: 0 <= k < |q| ==> Shape3(q[k], p, p, Channels)
  {
    seq(|x|, k requires 0 <= k < |x| => SplitPatch(x[k], p))
  }

  /** x.reshape(h, h, p, p, 3): patch hi * h + wi becomes [hi][wi], each split to (p, p, 3). */
  function SplitPatches<T>(x: seq<seq<T>>, h: nat, p: nat): (e: Tensor5<T>)
    requires Shape2(x, h * h, p * p * Channels)
    ensures Shape5(e, h, h, p, p, Channels)
  {
    var patches := SplitEach(x, p);
    var e := Chunk(patches, h, h);
    assert forall hi, wi :: 0 <= hi < h && 0 <= wi < h ==> Shape3(e[hi][wi], p, p, Channels) by {
      forall hi, wi | 0 <= hi < h && 0 <= wi < h
        ensures Shape3(e[hi][wi], p, p, Channels)
      {
        ChunkAt(patches, h, h, hi, wi);
      }
    }
    e
  }

  /** einsum('nhwpqc->nchpwq'): [hi][wi][pi][qi][c] moves to [c][hi][pi][wi][qi]. */
  function ToChannelMajor<T>(e: Tensor5<T>, h: nat, p: nat): (r: Tensor5<T>)
    requires Shape5(e, h, h, p, p, Channels)
    ensures Shape5(r, Channels, h, p, h, p)
  {
    seq(Channels, c requires 0 <= c < Channels =>
      seq(h, hi requires 0 <= hi < h =>
        seq(p, pi requires 0 <= pi < p =>
          seq(h, wi requires 0 <= wi < h =>
            seq(p, qi requires 0 <= qi < p => e[hi][wi][pi][qi][c])))))
  }

  /** One channel of shape (h, p, h, p) reshaped to hp rows of hp pixels. */
  function MergeChannel<T>(r: Tensor4<T>, h: nat, p: nat): (rows: seq<seq<T>>)
    requires Shape4(r, h, p, h, p)
    ensures Shape2(rows, h * p, h * p)
  {
    var ys := Flatten(r, p);
    assert forall y :: 0 <= y < h * p ==> Shape2(ys[y], h, p) by {
      forall y | 0 <= y < h * p
        ensures Shape2(ys[y], h, p)
      {
        var hi, pi := FlattenIndex(r, p, y);
      }
    }
    seq(h * p, y requires 0 <= y < h * p => Flatten(ys[y], p))
  }

  /** reshape(3, h * p, h * p) for one image. */
  function MergeImage<T>(r: Tensor5<T>, h: nat, p: nat): (px: Tensor3<T>)
    requires Shape5(r, Channels, h, p, h, p)
    ensures Shape3(px, Channels, h * p, h * p)
  {
    seq(Channels, c requires 0 <= c < Channels => MergeChannel(r[c], h, p))
  }

  /** The three steps of unpatchify on h * h patches of p*p*3 values. */
  function PixelsOf<T>(x: seq<seq<T>>, p: nat, h: nat): (px: Tensor3<T>)
    requires Shape2(x, h * h, p * p * Channels)
    ensures Shape3(px, Channels, h * p, h * p)
  {
    MergeImage(ToChannelMajor(SplitPatches(x, h, p), h, p), h, p)
  }

  /**
   * unpatchify: fails (the assert, or the reshape to p x p x 3 patches) unless the patch count
   * is a perfect square h * h and every patch holds p*p*3 values; otherwise a 3 x hp x hp image.
   */
  function Unpatchify<T>(x: seq<seq<T>>, p: nat): (r: Option<Image<T>>)
    requires p > 0
    ensures r.Some? <==> Isqrt(|x|) * Isqrt(|x|) == |x| && forall k :: 0 <= k < |x| ==> |x[k]| == p * p * Channels
    ensures r.Some? ==> var side := Isqrt(|x|) * p;
      && r.value.height == side && r.value.width == side
      && Shape3(r.value.pixels, Channels, side, side) && WellFormed(r.value)
  {
    var h := Isqrt(|x|);
    if h * h != |x| then None
    else if exists k :: 0 <= k < |x| && |x[k]| != p * p * Channels then None
    else
      Some(Image(h * p, h * p, PixelsOf(x, p, h)))
  }

  /** A channel-last patch offset is row pi of p * 3 values, then column qi * 3 + c within it. */
  lemma OffsetSplit(p: nat, pi: nat, qi: nat, c: nat)
    ensures (pi * p + qi) * Channels + c == pi * (p * Channels) + (qi * Channels + c)
    ensures p * (p * Channels) == p * p * Channels
  {
  }

  /** Value [pi][qi][c] of a patch sits at offset (pi * p + qi) * 3 + c once flattened. */
  lemma FlattenPatchAt<T>(q: Tensor3<T>, p: nat, pi: nat, qi: nat, c: nat) returns (j: nat)
    requires Shape3(q, p, p, Channels) && pi < p && qi < p && c < Channels
    ensures j == (pi * p + qi) * Channels + c && j < p * p * Channels
    ensures FlattenPatch(q, p)[j] == q[pi][qi][c]
  {
    j := (pi * p + qi) * Channels + c;
    var rows := seq(p, i requires 0 <= i < p => Flatten(q[i], Channels));
    FlattenAt(q[pi], Channels, qi, c);
    FlattenAt(rows, p * Channels, pi, qi * Channels + c);
    OffsetSplit(p, pi, qi, c);
  }

  /** Value [hi][wi][pi][qi][c] of the patch grid is value (pi * p + qi) * 3 + c of patch hi * h + wi. */
  lemma MergePatchesAt<T>(e: Tensor5<T>, h: nat, p: nat, hi: nat, wi: nat, pi: nat, qi: nat, c: nat)
    returns (k: nat, j: nat)
    requires Shape5(e, h, h, p, p, Channels) && hi < h && wi < h && pi < p && qi < p && c < Channels
    ensures k == hi * h + wi && j == (pi * p + qi) * Channels + c
    ensures var x := MergePatches(e, h, p); k < |x| && j < |x[k]| && x[k][j] == e[hi][wi][pi][qi][c]
  {
    k := hi * h + wi;
    FlattenAt(e, h, hi, wi);
    j := FlattenPatchAt(e[hi][wi], p, pi, qi, c);
  }

  /** The einsum moves [c][hi][pi][wi][qi] to [hi][wi][pi][qi][c]. */
  lemma ToPatchMajorAt<T>(r: Tensor5<T>, h: nat, p: nat, hi: nat, wi: nat, pi: nat, qi: nat, c: nat)
    requires Shape5(r, Channels, h, p, h, p) && hi < h && wi < h && pi < p && qi < p && c < Channels
    ensures ToPatchMajor(r, h, p)[hi][wi][pi][qi][c] == r[c][hi][pi][wi][qi]
  {
  }

  /** Block [hi][pi][wi][qi] of a reshaped channel is pixel [hi * p + pi][wi * p + qi]. */
  lemma SplitChannelAt<T>(rows: seq<seq<T>>, p: nat, h: nat, hi: nat, pi: nat, wi: nat, qi: nat)
    returns (y: nat, x: nat)
    requires Shape2(rows, h * p, h * p)
    requires hi < h && pi < p && wi < h && qi < p
    ensures y == hi * p + pi && x == wi * p + qi
    ensures y < |rows| && x < |rows[y]| && SplitChannel(rows, p, h)[hi][pi][wi][qi] == rows[y][x]
  {
    y, x := hi * p + pi, wi * p + qi;
    var split := SplitRows(rows, p, h);
    ChunkAt(split, p, h, hi, pi);
    ChunkAt(rows[hi * p + pi], p, h, wi, qi);
  }

  /** The index map of patchify: pixel [c][hi*p+pi][wi*p+qi] lands in patch hi*h+wi at offset (pi*p+qi)*3+c. */
  lemma PatchesOfAt<T>(px: Tensor3<T>, p: nat, h: nat, hi: nat, wi: nat, pi: nat, qi: nat, c: nat)
    returns (patch: nat, offset: nat, y: nat, x: nat)
    requires Shape3(px, Channels, h * p, h * p)
    requires hi < h && wi < h && pi < p && qi < p && c < Channels
    ensures patch == hi * h + wi && offset == (pi * p + qi) * Channels + c
    ensures y == hi * p + pi && x == wi * p + qi
    ensures var patches := PatchesOf(px, p, h);
      && patch < |patches| && offset < |patches[patch]| && y < |px[c]| && x < |px[c][y]|
      && patches[patch][offset] == px[c][y][x]
  {
    var r := SplitImage(px, p, h);
    var e := ToPatchMajor(r, h, p);
    patch, offset := MergePatchesAt(e, h, p, hi, wi, pi, qi, c);
    ToPatchMajorAt(r, h, p, hi, wi, pi, qi, c);
    y, x := SplitChannelAt(px[c], p, h, hi, pi, wi, qi);
  }

  /** An accepted image of side h * p is patchified by the three steps with grid side h. */
  lemma PatchifyValue<T>(img: Image<T>, p: nat, h: nat)
    requires p > 0 && WellFormed(img) && |img.pixels| == Channels
    requires img.height == img.width == h * p
    ensures Shape3(img.pixels, Channels, h * p, h * p)
    ensures Patchify(img, p) == Some(PatchesOf(img.pixels, p, h))
  {
    DivModOf(h, 0, p);
  }

  // ------------------------------------------------------------- round trips

  /** Merging a split channel gives back its rows. */
  lemma MergeSplitChannel<T>(rows: seq<seq<T>>, p: nat, h: nat)
    requires Shape2(rows, h * p, h * p)
    ensures MergeChannel(SplitChannel(rows, p, h), h, p) == rows
  {
    var split := SplitRows(rows, p, h);
    FlattenChunk(split, p, h);
    var m := MergeChannel(SplitChannel(rows, p, h), h, p);
    forall y | 0 <= y < h * p
      ensures m[y] == rows[y]
    {
      FlattenChunk(rows[y], p, h);
    }
  }

  /** Splitting a merged channel gives back its (h, p, h, p) blocks. */
  lemma SplitMergeChannel<T>(r: Tensor4<T>, h: nat, p: nat)
    requires Shape4(r, h, p, h, p)
    ensures SplitChannel(MergeChannel(r, h, p), p, h) == r
  {
    var ys := Flatten(r, p);
    var rows := MergeChannel(r, h, p);
    var split := SplitRows(rows, p, h);
    forall y | 0 <= y < h * p
      ensures split[y] == ys[y]
    {
      var hi, pi := FlattenIndex(r, p, y);
      ChunkFlatten(ys[y], p);
    }
    assert split == ys;
    ChunkFlatten(r, p);
  }

  /** Splitting each channel and merging it back is the identity on images. */
  lemma MergeSplitImage<T>(px: Tensor3<T>, p: nat, h: nat)
    requires Shape3(px, Channels, h * p, h * p)
    ensures MergeImage(SplitImage(px, p, h), h, p) == px
  {
    forall c | 0 <= c < Channels
      ensures MergeImage(SplitImage(px, p, h), h, p)[c] == px[c]
    {
      MergeSplitChannel(px[c], p, h);
    }
  }

  /** Merging each channel and splitting it back is the identity on (3, h, p, h, p) tensors. */
  lemma SplitMergeImage<T>(r: Tensor5<T>, h: nat, p: nat)
    requires Shape5(r, Channels, h, p, h, p)
    ensures SplitImage(MergeImage(r, h, p), p, h) == r
  {
    forall c | 0 <= c < Channels
      ensures SplitImage(MergeImage(r, h, p), p, h)[c] == r[c]
    {
      SplitMergeChannel(r[c], h, p);
    }
  }

  /** The two einsum permutations are inverse: channel-major, patch-major, channel-major again. */
  lemma ChannelMajorOfPatchMajor<T>(r: Tensor5<T>, h: nat, p: nat)
    requires Shape5(r, Channels, h, p, h, p)
    ensures ToChannelMajor(ToPatchMajor(r, h, p), h, p) == r
  {
    var b := ToChannelMajor(ToPatchMajor(r, h, p), h, p);
    forall c, hi, pi, wi | 0 <= c < Channels && 0 <= hi < h && 0 <= pi < p && 0 <= wi < h
      ensures b[c][hi][pi][wi] == r[c][hi][pi][wi]
    {
    }
    forall c, hi, pi | 0 <= c < Channels && 0 <= hi < h && 0 <= pi < p
      ensures b[c][hi][pi] == r[c][hi][pi]
    {
    }
    forall c, hi | 0 <= c < Channels && 0 <= hi < h
      ensures b[c][hi] == r[c][hi]
    {
    }
    forall c | 0 <= c < Channels
      ensures b[c] == r[c]
    {
    }
  }

  /** The two einsum permutations are inverse: patch-major, channel-major, patch-major again. */
  lemma PatchMajorOfChannelMajor<T>(e: Tensor5<T>, h: nat, p: nat)
    requires Shape5(e, h, h, p, p, Channels)
    ensures ToPatchMajor(ToChannelMajor(e, h, p), h, p) == e
  {
    var b := ToPatchMajor(ToChannelMajor(e, h, p), h, p);
    forall hi, wi, pi, qi | 0 <= hi < h && 0 <= wi < h && 0 <= pi < p && 0 <= qi < p
      ensures b[hi][wi][pi][qi] == e[hi][wi][pi][qi]
    {
    }
    forall hi, wi, pi | 0 <= hi < h && 0 <= wi < h && 0 <= pi < p
      ensures b[hi][wi][pi] == e[hi][wi][pi]
    {
    }
    forall hi, wi | 0 <= hi < h && 0 <= wi < h
      ensures b[hi][wi] == e[hi][wi]
    {
    }
    forall hi | 0 <= hi < h
      ensures b[hi] == e[hi]
    {
    }
  }

  /** Reshaping a flattened patch to (p, p, 3) gives back the patch. */
  lemma SplitFlattenPatch<T>(q: Tensor3<T>, p: nat)
    requires Shape3(q, p, p, Channels)
    ensures SplitPatch(FlattenPatch(q, p), p) == q
  {
    var rows := seq(p, pi requires 0 <= pi < p => Flatten(q[pi], Channels));
    ChunkFlatten(rows, p * Channels);
    forall pi | 0 <= pi < p
      ensures SplitPatch(FlattenPatch(q, p), p)[pi] == q[pi]
    {
      ChunkFlatten(q[pi], Channels);
    }
  }

  /** Flattening a (p, p, 3) reshape of p*p*3 values gives back the values. */
  lemma FlattenSplitPatch<T>(v: seq<T>, p: nat)
    requires |v| == p * p * Channels
    ensures FlattenPatch(SplitPatch(v, p), p) == v
  {
    var rows := Chunk(v, p * Channels, p);
    var q := SplitPatch(v, p);
    var flat := seq(p, pi requires 0 <= pi < p => Flatten(q[pi], Channels));
    forall pi | 0 <= pi < p
      ensures flat[pi] == rows[pi]
    {
      FlattenChunk(rows[pi], Channels, p);
    }
    assert flat == rows;
    FlattenChunk(v, p * Channels, p);
  }

  /** Splitting the patch list of a patch-major tensor gives back the tensor. */
  lemma SplitMergePatches<T>(e: Tensor5<T>, h: nat, p: nat)
    requires Shape5(e, h, h, p, p, Channels)
    ensures SplitPatches(MergePatches(e, h, p), h, p) == e
  {
    var patches := Flatten(e, h);
    var x := MergePatches(e, h, p);
    var back := SplitEach(x, p);
    forall k | 0 <= k < h * h
      ensures back[k] == patches[k]
    {
      var hi, wi := FlattenIndex(e, h, k);
      SplitFlattenPatch(patches[k], p);
    }
    assert back == patches;
    ChunkFlatten(e, h);
  }

  /** Merging a split patch list gives back the list. */
  lemma MergeSplitPatches<T>(x: seq<seq<T>>, h: nat, p: nat)
    requires Shape2(x, h * h, p * p * Channels)
    ensures MergePatches(SplitPatches(x, h, p), h, p) == x
  {
    var patches := SplitEach(x, p);
    FlattenChunk(patches, h, h);
    forall k | 0 <= k < h * h
      ensures MergePatches(SplitPatches(x, h, p), h, p)[k] == x[k]
    {
      FlattenSplitPatch(x[k], p);
    }
  }

  /** unpatchify(patchify(img)) == img for every image patchify accepts. */
  lemma UnpatchifyPatchify<T>(img: Image<T>, p: nat)
    requires p > 0 && WellFormed(img) && Patchify(img, p).Some?
    ensures Unpatchify(Patchify(img, p).value, p) == Some(img)
  {
    var h := img.height / p;
    assert img.height == h * p;
    var r := SplitImage(img.pixels, p, h);
    var e := ToPatchMajor(r, h, p);
    var x := Patchify(img, p).value;
    assert x == MergePatches(e, h, p);
    IsqrtOfSquare(h);
    SplitMergePatches(e, h, p);
    ChannelMajorOfPatchMajor(r, h, p);
    MergeSplitImage(img.pixels, p, h);
  }

  /** patchify(unpatchify(x)) == x for every patch list unpatchify accepts. */
  lemma PatchifyUnpatchify<T>(x: seq<seq<T>>, p: nat)
    requires p > 0 && Unpatchify(x, p).Some?
    ensures Patchify(Unpatchify(x, p).value, p) == Some(x)
  {
    var h := Isqrt(|x|);
    var e := SplitPatches(x, h, p);
    var r := ToChannelMajor(e, h, p);
    var img := Unpatchify(x, p).value;
    assert img.pixels == MergeImage(r, h, p);
    DivModOf(h, 0, p);
    assert img.height / p == h;
    SplitMergeImage(r, h, p);
    PatchMajorOfChannelMajor(e, h, p);
    MergeSplitPatches(x, h, p);
  }
}
