/**
 * The token bookkeeping of the two decoders of MaskedAutoencoderViT for one sample.
 * The embeddings are per-token maps; the positional embedding, the decoder blocks, the
 * norm and the prediction head together are one opaque map that keeps the token count.
 */
module Decoders {
  import opened Util
  import opened Permutations
  import opened Masking

  /** A map over token sequences that keeps their length (blocks, norm, head). */
  ghost predicate KeepsLength<D(!new), P>(body: seq<D> -> seq<P>)
  {
    forall s :: |body(s)| == |s|
  }

  /**
   * forward_decoder up to its blocks: the class token, then x[1:] with L + 1 - T mask
   * tokens appended, un-shuffled through ids_restore. There is no such sequence when the
   * mask-token count is negative.
   */
  function DecoderInput<E, D>(x: seq<E>, restore: seq<int>, embed: E -> D, maskToken: D): (r: Option<seq<D>>)
    requires 1 <= |x| && IsPermutation(restore)
    ensures r.Some? <==> |x| <= |restore| + 1
    ensures r.Some? ==>
      && |r.value| == |restore| + 1 && r.value[0] == embed(x[0])
      && forall i :: 0 <= i < |restore| ==>
           r.value[i + 1] == if restore[i] < |x| - 1 then embed(x[restore[i] + 1]) else maskToken
  {
    if |x| > |restore| + 1 then None
    else
      var y := Map(embed, x);
      var tokens := y[1..] + Repeat(maskToken, |restore| + 1 - |x|);
      Some(y[..1] + Gather(tokens, restore))
  }

  /** forward_decoder: one prediction per patch, in patch order, once the class token is dropped. */
  function ForwardDecoder<E, D(!new), P>(x: seq<E>, restore: seq<int>, embed: E -> D, maskToken: D,
                                   body: seq<D> -> seq<P>): (r: Option<seq<P>>)
    requires 1 <= |x| && IsPermutation(restore) && KeepsLength(body)
    ensures r.Some? <==> |x| <= |restore| + 1
    ensures r.Some? ==> |r.value| == |restore|
  {
    match DecoderInput(x, restore, embed, maskToken)
    case None => None
    case Some(d) => Some(body(d)[1..])
  }

  /**
   * Fed any encoder output for a masking (K + 1 tokens: the class token, then one token
   * per row of x_masked), the decoder input holds the embedded class token at 0 and, at
   * 1 + i, the embedded encoder token of row ids_restore[i] when patch i was kept (that row
   * of x_masked is x[i]) and the mask token when it was removed.
   */
  lemma UnshuffleRestoresPatchOrder<E, D>(x: seq<E>, K: nat, noise: seq<int>, m: MaskOutput<E>,
                                          enc: seq<E>, embed: E -> D, maskToken: D)
    requires ValidMasking(x, K, noise, m) && |enc| == K + 1
    ensures var d := DecoderInput(enc, m.idsRestore, embed, maskToken);
      && d.Some? && |d.value| == |x| + 1 && d.value[0] == embed(enc[0])
      && forall i :: 0 <= i < |x| ==>
           && (m.mask[i] == 0 ==> 0 <= m.idsRestore[i] < K && m.xMasked[m.idsRestore[i]] == x[i]
                                  && d.value[i + 1] == embed(enc[1 + m.idsRestore[i]]))
           && (m.mask[i] != 0 ==> d.value[i + 1] == maskToken)
  {
  }

  /**
   * forward_l_decoder: the class token followed by FT mask tokens go through the blocks;
   * the predictions are read back in ids_shuffle order, ids_shuffle being any argsort of
   * ids_restore, and the first T - 1 are kept. The slice [:T-1] stops at FT, so the final
   * shape assert fails when T - 1 > FT.
   */
  function ForwardLDecoder<E, D(!new), P>(x: seq<E>, restore: seq<int>, shuffle: seq<int>, embed: E -> D,
                                    maskToken: D, body: seq<D> -> seq<P>): (r: Option<seq<P>>)
    requires 1 <= |x| && IsPermutation(restore) && IsArgsort(restore, shuffle) && KeepsLength(body)
    ensures r.Some? <==> |x| - 1 <= |restore|
    ensures r.Some? ==> |r.value| == |x| - 1
  {
    var tokens := [embed(x[0])] + Repeat(maskToken, |restore|);
    var preds := body(tokens)[1..];
    var keep := if |x| - 1 <= |shuffle| then shuffle[..|x| - 1] else shuffle;
    var out := Gather(preds, keep);
    if |out| != |x| - 1 then None else Some(out)
  }

  /** Only the class token of the latent input reaches forward_l_decoder's output. */
  lemma LDecoderReadsOnlyClassToken<E, D(!new), P>(x: seq<E>, x': seq<E>, restore: seq<int>, shuffle: seq<int>,
                                             embed: E -> D, maskToken: D, body: seq<D> -> seq<P>)
    requires 1 <= |x| && IsPermutation(restore) && IsArgsort(restore, shuffle) && KeepsLength(body)
    requires |x'| == |x| && x'[0] == x[0]
    ensures ForwardLDecoder(x', restore, shuffle, embed, maskToken, body)
         == ForwardLDecoder(x, restore, shuffle, embed, maskToken, body)
  {
  }

  /**
   * Fed the encoder's K + 1 tokens and the ids_restore of a masking, forward_l_decoder
   * recovers ids_shuffle and returns K rows; row j is the prediction at patch
   * ids_shuffle[j], the patch whose token is row j of x_masked.
   */
  lemma LatentPredictionAlignment<E, D(!new), P>(x: seq<E>, K: nat, noise: seq<int>, shuffle: seq<int>,
                                           restore: seq<int>, recovered: seq<int>, enc: seq<E>,
                                           embed: E -> D, maskToken: D, body: seq<D> -> seq<P>)
    requires |noise| == |x| && K <= |x| && IsArgsort(noise, shuffle) && IsArgsort(shuffle, restore)
    requires IsArgsort(restore, recovered) && |enc| == K + 1 && KeepsLength(body)
    ensures recovered == shuffle
    ensures var r := ForwardLDecoder(enc, restore, recovered, embed, maskToken, body);
      var preds := body([embed(enc[0])] + Repeat(maskToken, |x|));
      && r.Some? && |r.value| == K
      && forall j :: 0 <= j < K ==>
           && r.value[j] == preds[1 + shuffle[j]]
           && Masked(x, K, shuffle, restore).xMasked[j] == x[shuffle[j]]
  {
    ArgsortRecoversShuffle(noise, shuffle, restore, recovered);
    MaskedIsValid(x, K, noise, shuffle, restore);
  }
}
