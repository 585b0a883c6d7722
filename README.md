# Masked-autoencoder index logic and fine-tuning loop, in Dafny

This project models the index-level core of a masked autoencoder for vision (MAE)
with a latent decoder, together with the control flow of its fine-tuning and
evaluation loops:

- `patch_codec.dfy` (module `PatchCodec`, built on `reshape.dfy`): `patchify` and
  `unpatchify` of `MaskedAutoencoderViT` for one image. Both are written as the
  reshape / einsum / reshape steps of the source. They are proved to be inverse
  to each other on every input they accept.
- `permutations.dfy` (module `Permutations`): `torch.argsort` and `torch.gather`
  on one row. An argsort is any permutation that reads its keys in ascending
  order, so nothing is assumed about ties. `ArgSort` is a stable insertion sort
  that meets this specification.
- `block_mask.dfy` (module `BlockMask`): the block branch of `random_masking`.
  It covers the window written into a `sqL x sqL` grid of noise, the reshape,
  and the two `sort` asserts.
- `masking.dfy` (module `Masking`): `random_masking` for one sample. It chooses
  the noise ("random" or one of the block types), takes the argsort twice, keeps
  `len_keep` rows, and builds the 0/1 mask through `ids_restore`. Every
  exception the source can raise is an error value.
- `decoders.dfy` (module `Decoders`): the token bookkeeping of
  `forward_decoder` (mask tokens appended, un-shuffle, class token) and
  `forward_l_decoder` (class token plus `FT` mask tokens, read back in
  `ids_shuffle` order, final shape assert).
- `train_loop.dfy` (module `FineTune`): `train_one_epoch`.
  - The optimizer is a class holding the param groups' learning rates and the
    calls made to it: `zero_grad`, `adjust_learning_rate`, and the loss
    scaler's backward/step.
  - The loop is a method whose result is tied to functions of the per-batch
    losses.
  - Lemmas prove the accumulation schedule those functions promise.
- `evaluation.dfy` (module `Evaluation`): the per-batch bookkeeping of
  `evaluate`. It covers argmax predictions, target and prediction chunks in
  batch order, and meter updates weighted by batch size. It also covers the
  final `torch.cat` that runs only when `return_targets_and_preds` is set.
- `visualize.dfy` (module `Visualize`): two parts of `draw_mae_predictions`.
  The first blanks the removed patches of the input image through patchify and
  unpatchify. The second builds the decoder input from `latent_pred`.
- `util.dfy` and `arith.dfy` hold the `Option` / `Result` wrappers, per-token
  maps, repetition, concatenation, and the division and integer square root
  facts the rest uses.

The model describes one sample of a batch; every batched operation of the core
treats its samples independently. The network layers are opaque maps:
- a patch or token embedding is a per-token function;
- the positional embedding, transformer blocks, norm and prediction head of a
  decoder are one length-preserving map on token sequences.

Random draws are parameters:
- `torch.rand` noise is a sequence of integer keys;
- the two `np.random.randint` offsets are integers constrained to the range
  `randint` can return.

## Model

| member | source | states |
|---|---|---|
| Arith.Isqrt | models_mae.py:144 | `int(n ** .5)` for an integer n: the largest r with r*r <= n |
| Arith.IsqrtOfSquare | models_mae.py:144-145 | the root of a perfect square h*h is h, so the unpatchify assert accepts every square patch count |
| PatchCodec.Patchify | models_mae.py:129-136 | succeeds exactly when the image is square, p divides its side, and it has three channels; the result is (side/p)^2 patches of p*p*3 values |
| PatchCodec.PatchesOfAt | models_mae.py:132-135 | pixel [c][hi*p+pi][wi*p+qi] lands in patch hi*h+wi at offset (pi*p+qi)*3+c |
| PatchCodec.PatchifyValue | models_mae.py:130-135 | a three-channel image of side h*p is accepted, and its patches are the reshape/einsum/reshape result with grid side h |
| PatchCodec.Unpatchify | models_mae.py:143-150 | succeeds exactly when the patch count is a perfect square h*h and every patch has p*p*3 values; the result is a well-formed three-channel image of side h*p |
| PatchCodec.UnpatchifyPatchify | models_mae.py:124-150 | unpatchify(patchify(img)) == img for every image patchify accepts |
| PatchCodec.PatchifyUnpatchify | models_mae.py:124-150 | patchify(unpatchify(x)) == x for every patch list unpatchify accepts |
| Reshape.FlattenChunk | models_mae.py:133-135 | splitting a flat sequence into rows and flattening them gives it back |
| Reshape.ChunkFlatten | models_mae.py:147-149 | flattening rows of equal width and splitting them again gives them back |
| Permutations.ArgsortOfPermutation | models_mae.py:185-186 | an argsort of a permutation is its inverse: s[r[i]] == i and r[s[k]] == k |
| Permutations.ArgsortRecoversShuffle | models_mae.py:183-185 | argsort(argsort(argsort(noise))) is the first argsort, whatever ties the noise has |
| Permutations.GatherPermutationMultiset | models_mae.py:197 | gathering through a permutation rearranges the values without adding or losing any |
| Permutations.ArgSort | models_mae.py:183 | returns an argsort of the keys: a permutation of the positions that reads the keys in ascending order |
| BlockMask.FillNoise | models_mae.py:167-176 | the in-place window write on an array grid, followed by the reshape, yields the flattened window grid `Noise` |
| BlockMask.WindowAwayFromEdge | models_mae.py:173-174 | offsets drawn from [0, sqL-wL) keep the wL x wL window inside the grid and off its last row and last column |
| BlockMask.WindowCount | models_mae.py:174 | the window holds exactly wL*wL cells of the written value |
| BlockMask.NoiseAtCell | models_mae.py:174-176 | noise value i, after the reshape, is grid cell (i / sqL, i % sqL): the written value inside the window, the background outside |
| BlockMask.ZeroCount | models_mae.py:167-174 | the grid holds wL*wL zeros for "block" and sqL*sqL - wL*wL zeros for the other block types |
| BlockMask.SortedBitsIsSort | models_mae.py:178-179 | for 0/1 noise, its zeros followed by its ones are ascending and a rearrangement of the noise |
| BlockMask.SortIsSortedBits | models_mae.py:178-179 | every ascending rearrangement of 0/1 noise is exactly its zeros followed by its ones |
| BlockMask.KeptAssert | models_mae.py:178 | the first assert, that the len_keep smallest values are 0, holds exactly when there are at least len_keep zeros |
| BlockMask.DroppedAssert | models_mae.py:179 | the second assert, that the rest are 1, holds exactly when there are at most len_keep zeros |
| Masking.ContainsAt | models_mae.py:163 | Python's `"block" in mask_type` holds exactly when "block" occurs at some position of mask_type |
| Masking.NoiseBound | models_mae.py:161-163 | "random" uses the drawn noise; noise stays unbound exactly when mask_type is not "random" and does not contain "block" |
| Masking.RandintFails | models_mae.py:164-173 | the window is never wider than the grid, and randint fails exactly when they are equally wide |
| Masking.BlockAsserts | models_mae.py:164-179 | once randint succeeds: a non-square L fails at the reshape; for a square L the first assert fails with fewer than len_keep zeros, the second with more, and the noise is accepted with exactly len_keep |
| Masking.BlockAccepted | models_mae.py:164-179 | for mask_type "block" the noise is accepted exactly when L and len_keep are perfect squares and sqrt(len_keep) < sqrt(L) |
| Masking.BlockNoiseShape | models_mae.py:164-179 | accepted block noise is the window grid on a square L: len_keep zeros, background on the last row and last column |
| Masking.NoiseOf | models_mae.py:161-179 | the noise random_masking ranks, or the first exception it raises, in the source's order; accepted noise has L values, and for a block type it is 0/1 with exactly len_keep zeros |
| Masking.BlockMaskIsNoise | models_mae.py:164-197 | with accepted block noise, the mask of every valid masking is the noise itself, whichever argsort breaks the ties |
| Masking.BlockKeepsWindow | models_mae.py:164-197 | for "block" the kept patches (mask 0) are exactly the window cells, for the other block types exactly the cells outside it, patch i being grid cell (i / sqL, i % sqL) |
| Masking.Masked | models_mae.py:190-197 | x_masked has len_keep rows with row k = x[ids_shuffle[k]]; the mask has L entries, 0 exactly where ids_restore is below len_keep; ids_restore is passed through |
| Masking.MaskedIsValid | models_mae.py:183-197 | ids_restore and ids_shuffle are inverse both ways; ids_restore ranks lower noise first; x_masked has len_keep rows with row k = x[ids_shuffle[k]]; mask[i] == 0 exactly when ids_restore[i] < len_keep |
| Masking.MaskCounts | models_mae.py:194-197 | the mask holds exactly len_keep zeros and L - len_keep ones |
| Masking.KeptAreSmallest | models_mae.py:183-197 | a kept position never has more noise than a removed one |
| Masking.KeptRowsFromX | models_mae.py:190-197 | every row k of x_masked is the token of a position whose mask is 0 and whose rank is k |
| Masking.KeepMask | models_mae.py:194-195 | `mask = ones(L); mask[:len_keep] = 0`, written in place, is len_keep zeros followed by ones, pointwise |
| Masking.RandomMasking | models_mae.py:152-199 | raises exactly the error the noise choice raises; otherwise returns a valid masking of x for that noise |
| Decoders.DecoderInput | models_mae.py:227-233 | defined exactly when the mask-token count L+1-T is non-negative; then L+1 tokens with the embedded class token first, and at 1+i the embedded token ids_restore[i]+1 when that is below T, the mask token otherwise |
| Decoders.ForwardDecoder | models_mae.py:225-249 | defined under the same condition; one prediction per patch (L rows) once the class token is dropped |
| Decoders.UnshuffleRestoresPatchOrder | models_mae.py:209-233 | for any encoder output of len_keep + 1 tokens and a valid masking, the un-shuffled input holds the embedded class token at 0; at 1+i, for a kept patch i, the embedded encoder token of row ids_restore[i], the row of x_masked that is x[i]; the mask token for a removed patch |
| Decoders.ForwardLDecoder | models_mae.py:251-305 | passes the final shape assert exactly when T-1 <= FT, and then returns T-1 rows |
| Decoders.LDecoderReadsOnlyClassToken | models_mae.py:269-270 | the output depends on the input only through its class token and its length |
| Decoders.LatentPredictionAlignment | models_mae.py:293-304 | argsort(ids_restore) recovers ids_shuffle; the output has len_keep rows, and row j is the prediction at patch ids_shuffle[j], the patch whose token is row j of x_masked |
| FineTune.Optimizer.ZeroGrad | engine_finetune.py:45 | records one zero_grad call; learning rates unchanged |
| FineTune.Optimizer.AdjustLearningRate | engine_finetune.py:53-54 | every param group gets the schedule's rate for it at the given fractional epoch; records the call |
| FineTune.Optimizer.Scale | engine_finetune.py:83-85 | records one loss-scaler call with its loss and update_grad flag; learning rates unchanged |
| FineTune.GroupMax | engine_finetune.py:94-97 | max_lr is at least 0 and at least every group's rate, and is 0 or some group's rate |
| FineTune.GroupMin | engine_finetune.py:93-96 | min_lr is at most 10 and at most every group's rate, and is 10 or some group's rate |
| FineTune.LrRange | engine_finetune.py:93-97 | the loop over the param groups computes min_lr and max_lr as above |
| FineTune.FirstNonFinite | engine_finetune.py:76-80 | the steps before it all have finite losses, and it is the first non-finite step or the number of batches |
| FineTune.EpochCalls | engine_finetune.py:45 | the epoch's first optimizer call is zero_grad, made before any batch |
| FineTune.LastAdjust | engine_finetune.py:53-54 | the rates of step s come from the latest step at or before s that is divisible by accum_iter |
| FineTune.LastAdjustIsCycleStart | engine_finetune.py:53-54 | for a positive accum_iter that step is s - s % accum_iter, the start of s's accumulation cycle |
| FineTune.RunStep | engine_finetune.py:53-99 | one iteration: adjust on a cycle start; for a finite loss, the loss divided by accum_iter goes to the scaler, then zero_grad at a cycle's end; for a non-finite loss nothing after the adjustment; returns max_lr of the current rates |
| FineTune.RunSteps | engine_finetune.py:50-99 | the loop stops at the first non-finite loss or the end; the calls, loss log and lr log are those of the steps that ran, and the optimizer ends with the rates of the last step that began, the aborted step included |
| FineTune.TrainOneEpoch | engine_finetune.py:32-113 | outcome (completed, aborted at a step, or division by zero for accum_iter 0), every optimizer call, the logged losses and learning rates, and the optimizer's final rates equal their specification functions |
| FineTune.LossLogAt | engine_finetune.py:76-92 | the loss log holds the loss of every step that ran, in step order |
| FineTune.LrLogAt | engine_finetune.py:53-99 | the lr logged at step s is the largest of the schedule's rates at the fractional epoch of the start of s's cycle |
| FineTune.FinalLrsAt | engine_finetune.py:50-54 | with a positive accum_iter the optimizer ends with the schedule's rates at the fractional epoch of the start of the cycle of the last step that began |
| FineTune.FinalLrsLogged | engine_finetune.py:53-99 | when every step runs, the last logged lr is the largest of the rates the optimizer ends with |
| FineTune.ScalersOfStep | engine_finetune.py:82-87 | a step with a finite loss makes one scaler call, which steps the optimizer exactly when the step ends a cycle |
| FineTune.ScalerSchedule | engine_finetune.py:76-85 | one scaler call per step that ran, in step order, with the batch loss divided by accum_iter; the aborted step makes none |
| FineTune.UpdatesPerEpoch | engine_finetune.py:83-87 | with a positive accum_iter, the optimizer steps floor(n / accum_iter) times over the n steps that ran |
| FineTune.EveryStepUpdates | engine_finetune.py:83-87 | with accum_iter == 1 every step that runs steps the optimizer |
| FineTune.ZeroGradPairing | engine_finetune.py:45-87 | zero_grad immediately follows every optimizer step, and happens nowhere else but at the start |
| Evaluation.ArgMax | engine_finetune.py:148 | the first index holding the largest logit of a row |
| Evaluation.Predictions | engine_finetune.py:148 | one prediction per sample, the argmax of its logits |
| Evaluation.EvalResult | engine_finetune.py:125-166 | fails exactly when targets and predictions are requested from an empty loader; they appear in the stats exactly when requested, each with one entry per sample |
| Evaluation.Evaluate | engine_finetune.py:116-168 | the loop's lists and meters, then the stats, equal EvalResult |
| Evaluation.MeterWeights | engine_finetune.py:152-155 | the acc@1 and acc@5 meters receive total weight equal to the sample count; the loss meter counts batches |
| Evaluation.SamplesOfTargets | engine_finetune.py:149-165 | the joined targets have one entry per sample |
| Evaluation.TargetsAndPredsAligned | engine_finetune.py:148-166 | sample j of batch b sits at the same position of the joined targets and the joined predictions, after all samples of earlier batches, with its target and its argmax |
| Visualize.BlankPatch | engine_finetune.py:216 | multiplying by (m - 1) and then by -1 keeps a patch for m == 0 and zeroes it for m == 1 |
| Visualize.MaskedPatches | engine_finetune.py:216 | kept patches are unchanged, removed patches become zero, and shapes are kept |
| Visualize.MaskedImage | engine_finetune.py:215-217 | defined exactly when patchify accepts the image and the mask has one entry per patch; the masked image has the image's size and patchifies to the blanked patches |
| Visualize.NothingMaskedIsIdentity | engine_finetune.py:215-217 | with nothing removed the masked image is the image itself |
| Visualize.MaskedImagePatches | engine_finetune.py:215-217 | for a three-channel image of side h*p, the masked image's patches are the image's patches blanked by the mask |
| Visualize.MaskedImagePixel | engine_finetune.py:215-217 | pixel [c][hi*p+pi][wi*p+qi] of the masked image is the image's pixel when patch hi*h+wi is kept and 0 when it is removed |
| Visualize.LatentFeedAt | engine_finetune.py:210-212 | feeding `cat(latent[:, :1], latent_pred)` to forward_decoder gives the class token at 0 and, at 1+i, row ids_restore[i] of latent_pred when it exists, the mask token otherwise |
| Visualize.LatentDecoderInput | engine_finetune.py:207-212 | with latent_pred from forward_l_decoder for the same masking, position 1+i holds the latent decoder's prediction at patch i when patch i was kept (rank below len_keep) and the mask token when it was removed |

## Left out

- Batch dimension: every operation is modelled for one sample. The block branch draws its offsets per sample, and the model takes one pair of offsets.
- Floating point:
  - `torch.rand` noise is a sequence of integer keys;
  - `len_keep = int(L * (1 - mask_ratio))` is an input K <= L;
  - `np.sqrt` and `** .5` followed by `int` are the exact integer square root, so rounding for very large L is not modelled;
  - fractional epochs, losses and learning rates are real numbers.
- Opaque numerics:
  - `PatchEmbed`, `Linear`, `LayerNorm`, the transformer blocks, positional embeddings and prediction heads are abstract maps, as are their weights and initialisation;
  - whether a positional-embedding table has the right length for the token count is not checked.
- `forward_encoder`, `forward`, `forward_loss` and the classification head: these are tensor arithmetic. Their only index-level facts are covered through `random_masking` and the decoders. The masked mean of `forward_loss` needs at least one removed patch, that is len_keep < L; this is not modelled.
- PatchCodec.Patchify: an image of side 0 with a channel count other than 3 is treated as rejected. A reshape of an empty tensor would accept it.
- Visualize.MaskedImage: treats a mask whose length differs from the patch count as a failure. The broadcasting of a one-entry mask, or of a one-patch image, is not modelled.
- `train_one_epoch`:
  - the model, the criterion, mixup, autocast, `accuracy` and the acc1/acc5 training meters are replaced by the per-batch losses;
  - `sys.exit(1)` is the `Aborted` outcome;
  - `torch.cuda.synchronize`, `all_reduce_mean`, `synchronize_between_processes`, tensorboard logging with its `epoch_1000x` axis, `tqdm` and printing are I/O or distributed code;
  - `lr_sched.adjust_learning_rate` is a function parameter from (fractional epoch, group index) to a rate; lr_sched is not part of this model;
  - the returned dictionary of global averages is not modelled, because misc (MetricLogger, SmoothedValue) is not part of this model. The model returns the sequence of values the meters are updated with instead.
- FineTune.LastAdjustIsCycleStart: stated for a positive accum_iter only. For a negative accum_iter the schedule itself is modelled; only this closed form is not proved.
- FineTune.LrLogAt: stated for a positive accum_iter only. For a negative accum_iter the schedule itself is modelled; only this closed form is not proved.
- FineTune.FinalLrsAt: stated for a positive accum_iter only. For a negative accum_iter the schedule itself is modelled; only this closed form is not proved.
- FineTune.UpdatesPerEpoch: stated for a positive accum_iter only. For a negative accum_iter the schedule itself is modelled; only this closed form is not proved.
- `evaluate`:
  - the model forward, the criterion and timm's `accuracy` are per-batch inputs (logits, loss, acc@1, acc@5);
  - `batch_size = images.shape[0]` is the number of logit rows;
  - argmax over NaN logits is not modelled;
  - what MetricLogger prints or averages for an empty loader is not part of this model; only the failing `torch.cat` is.
- `draw_mae_predictions`:
  - the 16 images are stacked from the dataset, and the model's forward is not re-run: mask, latent, ids_restore and latent_pred are inputs;
  - `unpatchify` of the predictions is `PatchCodec.Unpatchify`;
  - the final `cat` and the `einops.rearrange` tiling are left out, because rearrange is a foreign library call.
- `calculate_effrank` and `calculate_cls_cls_attention` are floating-point analysis. The model factory functions are configuration.
