/**
 * draw_mae_predictions for one sample: the masked input image (each removed patch blanked
 * out through patchify / unpatchify) and the input of the decoder that renders the latent
 * predictions (the class token followed by forward_l_decoder's rows).
 */
module Visualize {
  import opened Util
  import opened Arith
  import opened PatchCodec
  import opened Permutations
  import opened Masking
  import opened Decoders

  /** The factor (m - 1) * -1 keeps a value for m = 0 and zeroes it for m = 1. */
  lemma BlankFactor(v: real, m: int)
    ensures m == 0 ==> (v * (m as real - 1.0)) * -1.0 == v
    ensures m == 1 ==> (v * (m as real - 1.0)) * -1.0 == 0.0
  {
  }

  /** One patch multiplied by (mask - 1) and then by -1. */
  function BlankPatch(patch: seq<real>, m: int): (r: seq<real>)
    ensures |r| == |patch|
    ensures m == 0 ==> r == patch
    ensures m == 1 ==> r == Repeat(0.0, |patch|)
  {
    var r := seq(|patch|, j requires 0 <= j < |patch| => (patch[j] * (m as real - 1.0)) * -1.0);
    assert forall j :: 0 <= j < |r| ==> (m == 0 ==> r[j] == patch[j]) && (m == 1 ==> r[j] == 0.0) by {
      forall j | 0 <= j < |r| {
        BlankFactor(patch[j], m);
      }
    }
    r
  }

  /** patched_img * (mask.unsqueeze(2) - 1) * (-1): kept patches unchanged, removed ones zero. */
  function MaskedPatches(patches: seq<seq<real>>, mask: seq<int>): (r: seq<seq<real>>)
    requires |mask| == |patches|
    ensures |r| == |patches|
    ensures forall i :: 0 <= i < |patches| ==> |r[i]| == |patches[i]|
    ensures forall i :: 0 <= i < |patches| && mask[i] == 0 ==> r[i] == patches[i]
    ensures forall i :: 0 <= i < |patches| && mask[i] == 1 ==> r[i] == Repeat(0.0, |patches[i]|)
  {
    seq(|patches|, i requires 0 <= i < |patches| => BlankPatch(patches[i], mask[i]))
  }

  /**
   * masked_img = unpatchify(patchify(img) blanked by the mask). It fails when patchify does,
   * or when the mask does not have one entry per patch (the broadcast fails).
   */
  function MaskedImage(img: Image<real>, mask: seq<int>, p: nat): (r: Option<Image<real>>)
    requires p > 0 && WellFormed(img)
    ensures r.Some? <==> Patchify(img, p).Some? && |mask| == |Patchify(img, p).value|
    ensures r.Some? ==>
      && r.value.height == img.height && r.value.width == img.width && WellFormed(r.value)
      && Patchify(r.value, p) == Some(MaskedPatches(Patchify(img, p).value, mask))
  {
    match Patchify(img, p)
    case None => None
    case Some(x) =>
      if |mask| != |x| then None
      else
        var h := img.height / p;
        var y := MaskedPatches(x, mask);
        IsqrtOfSquare(h);
        DivModOf(h, 0, p);
        var u := Unpatchify(y, p);
        PatchifyUnpatchify(y, p);
        u
  }

  /** With nothing removed the masked image is the image itself. */
  lemma NothingMaskedIsIdentity(img: Image<real>, mask: seq<int>, p: nat)
    requires p > 0 && WellFormed(img) && Patchify(img, p).Some?
    requires |mask| == |Patchify(img, p).value| && forall i :: 0 <= i < |mask| ==> mask[i] == 0
    ensures MaskedImage(img, mask, p) == Some(img)
  {
    var x := Patchify(img, p).value;
    assert MaskedPatches(x, mask) == x;
    UnpatchifyPatchify(img, p);
  }

  /** The masked image of an accepted image of side h * p is patchified to the blanked patches. */
  lemma MaskedImagePatches(img: Image<real>, mask: seq<int>, p: nat, h: nat)
    requires p > 0 && WellFormed(img) && |img.pixels| == Channels
    requires img.height == img.width == h * p && |mask| == h * h
    ensures Shape3(img.pixels, Channels, h * p, h * p)
    ensures MaskedImage(img, mask, p).Some?
    ensures Shape3(MaskedImage(img, mask, p).value.pixels, Channels, h * p, h * p)
    ensures PatchesOf(MaskedImage(img, mask, p).value.pixels, p, h) == MaskedPatches(PatchesOf(img.pixels, p, h), mask)
  {
    PatchifyValue(img, p, h);
    var m := MaskedImage(img, mask, p).value;
    assert Shape3(m.pixels, Channels, h * p, h * p) by {
      IsqrtOfSquare(h);
    }
    PatchifyValue(m, p, h);
  }

  /**
   * Pixel [c][hi*p+pi][wi*p+qi] of the masked image is the image's pixel when patch
   * hi*h+wi is kept (mask 0) and 0 when it is removed (mask 1).
   */
  lemma MaskedImagePixel(img: Image<real>, mask: seq<int>, p: nat, h: nat,
                         hi: nat, wi: nat, pi: nat, qi: nat, c: nat)
    returns (patch: nat, y: nat, x: nat)
    requires p > 0 && WellFormed(img) && |img.pixels| == Channels
    requires img.height == img.width == h * p && |mask| == h * h
    requires forall i :: 0 <= i < |mask| ==> mask[i] == 0 || mask[i] == 1
    requires hi < h && wi < h && pi < p && qi < p && c < Channels
    ensures patch == hi * h + wi && y == hi * p + pi && x == wi * p + qi
    ensures MaskedImage(img, mask, p).Some?
    ensures var m := MaskedImage(img, mask, p).value;
      && patch < |mask| && y < |img.pixels[c]| && x < |img.pixels[c][y]|
      && c < |m.pixels| && y < |m.pixels[c]| && x < |m.pixels[c][y]|
      && m.pixels[c][y][x] == if mask[patch] == 0 then img.pixels[c][y][x] else 0.0
  {
    MaskedImagePatches(img, mask, p, h);
    var m := MaskedImage(img, mask, p).value;
    var offset;
    patch, offset, y, x := PatchesOfAt(img.pixels, p, h, hi, wi, pi, qi, c);
    var patch', offset', y', x' := PatchesOfAt(m.pixels, p, h, hi, wi, pi, qi, c);
    var blanked := MaskedPatches(PatchesOf(img.pixels, p, h), mask);
    assert patch' == patch && offset' == offset && y' == y && x' == x;
    assert PatchesOf(m.pixels, p, h)[patch][offset] == m.pixels[c][y][x];
    assert blanked[patch][offset] == m.pixels[c][y][x];
    if mask[patch] == 0 {
      assert blanked[patch] == PatchesOf(img.pixels, p, h)[patch];
    } else {
      assert blanked[patch] == Repeat(0.0, |blanked[patch]|);
    }
  }

  /**
   * d_input = cat(latent[:, :1], latent_pred) fed to forward_decoder: position 1 + i holds the
   * embedding of row ids_restore[i] of latent_pred when that row exists, the mask token
   * otherwise.
   */
  lemma LatentFeedAt<E, F>(latent: seq<E>, latentPred: seq<E>, restore: seq<int>, embed: E -> F, maskToken: F)
    requires 1 <= |latent| && IsPermutation(restore) && |latentPred| <= |restore|
    ensures var d := DecoderInput(latent[..1] + latentPred, restore, embed, maskToken);
      && d.Some? && |d.value| == |restore| + 1 && d.value[0] == embed(latent[0])
      && forall i :: 0 <= i < |restore| ==>
           d.value[i + 1] == if restore[i] < |latentPred| then embed(latentPred[restore[i]]) else maskToken
  {
    var feed := latent[..1] + latentPred;
    assert forall j :: 0 <= j < |latentPred| ==> feed[j + 1] == latentPred[j];
  }

  /**
   * With latent_pred the output of forward_l_decoder for the same masking, position 1 + i
   * of d_input holds, for a kept patch i (rank below len_keep, mask 0), the embedding of
   * forward_l_decoder's prediction at patch i, and the mask token for a removed patch.
   */
  lemma LatentDecoderInput<E, D(!new), F>(x: seq<E>, K: nat, noise: seq<int>, shuffle: seq<int>,
                                         restore: seq<int>, recovered: seq<int>, latent: seq<E>,
                                         lEmbed: E -> D, lMaskToken: D, lBody: seq<D> -> seq<E>,
                                         latentPred: seq<E>, embed: E -> F, maskToken: F)
    requires |noise| == |x| && K <= |x| && IsArgsort(noise, shuffle) && IsArgsort(shuffle, restore)
    requires IsArgsort(restore, recovered) && |latent| == K + 1 && KeepsLength(lBody)
    requires ForwardLDecoder(latent, restore, recovered, lEmbed, lMaskToken, lBody) == Some(latentPred)
    ensures var preds := lBody([lEmbed(latent[0])] + Repeat(lMaskToken, |x|));
      var d := DecoderInput(latent[..1] + latentPred, restore, embed, maskToken);
      && |preds| == |x| + 1 && d.Some? && |d.value| == |x| + 1 && d.value[0] == embed(latent[0])
      && forall i :: 0 <= i < |x| ==>
           d.value[i + 1] == if restore[i] < K then embed(preds[1 + i]) else maskToken
  {
    LatentRowsFollowShuffle(x, K, noise, shuffle, restore, recovered, latent, lEmbed, lMaskToken, lBody, latentPred);
    FeedFollowsPatches(latent, latentPred, lBody([lEmbed(latent[0])] + Repeat(lMaskToken, |x|)), restore, shuffle,
                       |x|, K, embed, maskToken);
  }

  /**
   * What the chase from d_input to the patches needs: row j of latent_pred is the prediction
   * at patch shuffle[j], and shuffle undoes restore.
   */
  ghost predicate ChaseFacts<E>(latentPred: seq<E>, preds: seq<E>, restore: seq<int>, shuffle: seq<int>, n: nat, K: nat)
  {
    && |restore| == |shuffle| == n && |preds| == n + 1 && |latentPred| == K <= n && IsPermutation(restore)
    && (forall i :: 0 <= i < n ==> 0 <= restore[i] < n && 0 <= shuffle[i] < n)
    && (forall j :: 0 <= j < K ==> latentPred[j] == preds[1 + shuffle[j]])
    && (forall i :: 0 <= i < n ==> shuffle[restore[i]] == i)
  }

  /** The facts about forward_l_decoder's rows and the two argsorts that LatentDecoderInput chases. */
  lemma LatentRowsFollowShuffle<E, D(!new)>(x: seq<E>, K: nat, noise: seq<int>, shuffle: seq<int>,
                                            restore: seq<int>, recovered: seq<int>, latent: seq<E>,
                                            lEmbed: E -> D, lMaskToken: D, lBody: seq<D> -> seq<E>,
                                            latentPred: seq<E>)
    requires |noise| == |x| && K <= |x| && IsArgsort(noise, shuffle) && IsArgsort(shuffle, restore)
    requires IsArgsort(restore, recovered) && |latent| == K + 1 && KeepsLength(lBody)
    requires ForwardLDecoder(latent, restore, recovered, lEmbed, lMaskToken, lBody) == Some(latentPred)
    ensures ChaseFacts(latentPred, lBody([lEmbed(latent[0])] + Repeat(lMaskToken, |x|)), restore, shuffle, |x|, K)
  {
    LatentPredictionAlignment(x, K, noise, shuffle, restore, recovered, latent, lEmbed, lMaskToken, lBody);
    ArgsortOfPermutation(shuffle, restore);
  }

  /** The index chase of LatentDecoderInput, apart from the argsort facts that yield its premises. */
  lemma FeedFollowsPatches<E, F>(latent: seq<E>, latentPred: seq<E>, preds: seq<E>, restore: seq<int>,
                                 shuffle: seq<int>, n: nat, K: nat, embed: E -> F, maskToken: F)
    requires 1 <= |latent| && ChaseFacts(latentPred, preds, restore, shuffle, n, K)
    ensures var d := DecoderInput(latent[..1] + latentPred, restore, embed, maskToken);
      && |preds| == n + 1 && d.Some? && |d.value| == n + 1 && d.value[0] == embed(latent[0])
      && forall i :: 0 <= i < n ==>
           d.value[i + 1] == if restore[i] < K then embed(preds[1 + i]) else maskToken
  {
    LatentFeedAt(latent, latentPred, restore, embed, maskToken);
    var d := DecoderInput(latent[..1] + latentPred, restore, embed, maskToken).value;
    RowsFollowPatches(d, latentPred, preds, restore, shuffle, n, K, embed, maskToken);
  }

  /** Row 1 + i of d_input, read through ids_restore and then ids_shuffle, is the prediction at patch i. */
  lemma RowsFollowPatches<E, F>(d: seq<F>, latentPred: seq<E>, preds: seq<E>, restore: seq<int>,
                                shuffle: seq<int>, n: nat, K: nat, embed: E -> F, maskToken: F)
    requires ChaseFacts(latentPred, preds, restore, shuffle, n, K) && |d| == n + 1
    requires forall i :: 0 <= i < |restore| ==>
      d[i + 1] == if restore[i] < |latentPred| then embed(latentPred[restore[i]]) else maskToken
    ensures forall i :: 0 <= i < n ==> d[i + 1] == if restore[i] < K then embed(preds[1 + i]) else maskToken
  {
    forall i | 0 <= i < n
      ensures d[i + 1] == if restore[i] < K then embed(preds[1 + i]) else maskToken
    {
      var j := restore[i];
      if j < K {
        assert latentPred[j] == preds[1 + shuffle[j]];
      }
    }
  }
}
