/**
 * The bookkeeping of evaluate: per batch, the argmax predictions and the targets are
 * appended in batch order, the loss meter gets the batch loss and the accuracy meters get
 * acc@1 and acc@5 weighted by the batch size. The model's output, the criterion's loss
 * and the accuracies are what each batch gives.
 */
module Evaluation {
  import opened Util

  /** What one batch yields: the logits (one row per sample), the targets, loss, acc@1 and acc@5. */
  datatype BatchOutput = BatchOutput(logits: seq<seq<real>>, targets: seq<int>, loss: real, acc1: real, acc5: real)

  /** A batch the criterion accepts: one target per sample and one logit per class. */
  predicate WellShaped(b: BatchOutput, classes: nat)
  {
    |b.targets| == |b.logits| && forall i :: 0 <= i < |b.logits| ==> |b.logits[i]| == classes
  }

  /** output.argmax(dim=1) for one row: the first index holding the largest logit. */
  function ArgMax(row: seq<real>): (r: nat)
    requires |row| > 0
    ensures r < |row| && forall j :: 0 <= j < |row| ==> row[j] <= row[r]
    ensures forall j :: 0 <= j < r ==> row[j] < row[r]
  {
    if |row| == 1 then 0
    else
      var i := ArgMax(row[..|row| - 1]);
      if row[|row| - 1] > row[i] then |row| - 1 else i
  }

  /** The predicted class of every sample of a batch. */
  function Predictions(logits: seq<seq<real>>): (preds: seq<int>)
    requires forall i :: 0 <= i < |logits| ==> |logits[i]| > 0
    ensures |preds| == |logits| && forall i :: 0 <= i < |logits| ==> preds[i] == ArgMax(logits[i])
  {
    seq(|logits|, i requires 0 <= i < |logits| => ArgMax(logits[i]) as int)
  }

  /** One meter update: a value and the count n it stands for. */
  datatype MeterUpdate = MeterUpdate(value: real, n: nat)

  /** The stats evaluate returns: the meters' updates and, on request, the targets and predictions. */
  datatype EvalStats = EvalStats(loss: seq<MeterUpdate>, acc1: seq<MeterUpdate>, acc5: seq<MeterUpdate>,
                                 targetsAndPreds: Option<(seq<int>, seq<int>)>)

  /** torch.cat of the empty lists of an empty loader. */
  datatype EvalError = EmptyConcat

  predicate AllWellShaped(batches: seq<BatchOutput>, classes: nat)
  {
    forall b :: 0 <= b < |batches| ==> WellShaped(batches[b], classes)
  }

  function TargetChunks(batches: seq<BatchOutput>): (t: seq<seq<int>>)
    ensures |t| == |batches| && forall b :: 0 <= b < |batches| ==> t[b] == batches[b].targets
  {
    seq(|batches|, b requires 0 <= b < |batches| => batches[b].targets)
  }

  function PredChunks(batches: seq<BatchOutput>, classes: nat): (p: seq<seq<int>>)
    requires classes > 0 && AllWellShaped(batches, classes)
    ensures |p| == |batches| && forall b :: 0 <= b < |batches| ==> p[b] == Predictions(batches[b].logits)
  {
    seq(|batches|, b requires 0 <= b < |batches| => Predictions(batches[b].logits))
  }

  /** metric_logger.update(loss=...): the batch loss, counted once. */
  function LossUpdates(batches: seq<BatchOutput>): (u: seq<MeterUpdate>)
    ensures |u| == |batches| && forall b :: 0 <= b < |batches| ==> u[b] == MeterUpdate(batches[b].loss, 1)
  {
    seq(|batches|, b requires 0 <= b < |batches| => MeterUpdate(batches[b].loss, 1))
  }

  /** The acc1 (top5 false) or acc5 (top5 true) meter: each batch's accuracy, weighted by its size. */
  function AccUpdates(batches: seq<BatchOutput>, top5: bool): (u: seq<MeterUpdate>)
    ensures |u| == |batches|
    ensures forall b :: 0 <= b < |batches| ==>
      u[b] == MeterUpdate(if top5 then batches[b].acc5 else batches[b].acc1, |batches[b].logits|)
  {
    seq(|batches|, b requires 0 <= b < |batches| =>
      MeterUpdate(if top5 then batches[b].acc5 else batches[b].acc1, |batches[b].logits|))
  }

  /**
   * What evaluate returns for these batches: it fails only when asked for the targets and
   * predictions of an empty loader; the joined targets and predictions hold one entry per
   * sample.
   */
  function EvalResult(batches: seq<BatchOutput>, classes: nat, returnTargetsAndPreds: bool)
    : (r: Result<EvalStats, EvalError>)
    requires classes > 0 && AllWellShaped(batches, classes)
    ensures r.Err? <==> returnTargetsAndPreds && |batches| == 0
    ensures r.Ok? ==> (r.value.targetsAndPreds.Some? <==> returnTargetsAndPreds)
    ensures r.Ok? && r.value.targetsAndPreds.Some? ==>
      |r.value.targetsAndPreds.value.0| == |r.value.targetsAndPreds.value.1| == Samples(batches)
  {
    if returnTargetsAndPreds && |batches| == 0 then Err(EmptyConcat)
    else
      SamplesOfTargets(batches, classes);
      ConcatSameLength(TargetChunks(batches), PredChunks(batches, classes));
      Ok(EvalStats(LossUpdates(batches), AccUpdates(batches, false), AccUpdates(batches, true),
                   if returnTargetsAndPreds
                   then Some((Concat(TargetChunks(batches)), Concat(PredChunks(batches, classes))))
                   else None))
  }

  /** evaluate: the loop over the batches, then the stats. */
  method Evaluate(batches: seq<BatchOutput>, classes: nat, returnTargetsAndPreds: bool)
    returns (r: Result<EvalStats, EvalError>)
    requires classes > 0 && AllWellShaped(batches, classes)
    ensures r == EvalResult(batches, classes, returnTargetsAndPreds)
  {
    var targets: seq<seq<int>> := [];
    var preds: seq<seq<int>> := [];
    var lossMeter: seq<MeterUpdate> := [];
    var acc1Meter: seq<MeterUpdate> := [];
    var acc5Meter: seq<MeterUpdate> := [];
    for i := 0 to |batches|
      invariant targets == TargetChunks(batches[..i])
      invariant preds == PredChunks(batches[..i], classes)
      invariant lossMeter == LossUpdates(batches[..i])
      invariant acc1Meter == AccUpdates(batches[..i], false)
      invariant acc5Meter == AccUpdates(batches[..i], true)
    {
      var batch := batches[i];
      var pred := Predictions(batch.logits);
      targets := targets + [batch.targets];
      preds := preds + [pred];
      var batchSize := |batch.logits|;
      lossMeter := lossMeter + [MeterUpdate(batch.loss, 1)];
      acc1Meter := acc1Meter + [MeterUpdate(batch.acc1, batchSize)];
      acc5Meter := acc5Meter + [MeterUpdate(batch.acc5, batchSize)];
      assert batches[..i + 1] == batches[..i] + [batch];
    }
    assert batches[..|batches|] == batches;
    if returnTargetsAndPreds && |batches| == 0 {
      return Err(EmptyConcat);
    }
    var joined := if returnTargetsAndPreds then Some((Concat(targets), Concat(preds))) else None;
    r := Ok(EvalStats(lossMeter, acc1Meter, acc5Meter, joined));
  }

  /** The number of samples of some batches. */
  function Samples(batches: seq<BatchOutput>): nat
  {
    if |batches| == 0 then 0 else Samples(batches[..|batches| - 1]) + |batches[|batches| - 1].logits|
  }

  /** The total weight a meter has received. */
  function Weight(u: seq<MeterUpdate>): nat
  {
    if |u| == 0 then 0 else Weight(u[..|u| - 1]) + u[|u| - 1].n
  }

  /**
   * The accuracy meters are weighted by sample, not by batch: their total weight is the
   * number of samples, which is also the number of targets returned; the loss meter counts
   * batches.
   */
  lemma {:induction false} MeterWeights(batches: seq<BatchOutput>, top5: bool)
    ensures Weight(AccUpdates(batches, top5)) == Samples(batches)
    ensures Weight(LossUpdates(batches)) == |batches|
  {
    if |batches| > 0 {
      var n := |batches| - 1;
      MeterWeights(batches[..n], top5);
      assert AccUpdates(batches, top5)[..n] == AccUpdates(batches[..n], top5);
      assert LossUpdates(batches)[..n] == LossUpdates(batches[..n]);
    }
  }

  lemma {:induction false} SamplesOfTargets(batches: seq<BatchOutput>, classes: nat)
    requires AllWellShaped(batches, classes)
    ensures |Concat(TargetChunks(batches))| == Samples(batches)
  {
    if |batches| > 0 {
      var n := |batches| - 1;
      SamplesOfTargets(batches[..n], classes);
      assert TargetChunks(batches)[..n] == TargetChunks(batches[..n]);
    }
  }

  /** The chunks of the first b batches hold as many targets, and as many predictions, as those batches have samples. */
  lemma ChunkOffsets(batches: seq<BatchOutput>, classes: nat, b: nat)
    requires classes > 0 && AllWellShaped(batches, classes) && b <= |batches|
    ensures |Concat(TargetChunks(batches)[..b])| == Samples(batches[..b])
    ensures |Concat(PredChunks(batches, classes)[..b])| == Samples(batches[..b])
  {
    var tc, pc := TargetChunks(batches), PredChunks(batches, classes);
    assert tc[..b] == TargetChunks(batches[..b]);
    SamplesOfTargets(batches[..b], classes);
    ConcatSameLength(tc[..b], pc[..b]);
  }

  /**
   * The joined targets and predictions stay aligned: sample j of batch b sits at the same
   * position in both, after the samples of the batches before b, with its target and the
   * argmax of its logits.
   */
  lemma TargetsAndPredsAligned(batches: seq<BatchOutput>, classes: nat, b: nat, j: nat) returns (k: nat)
    requires classes > 0 && AllWellShaped(batches, classes)
    requires b < |batches| && j < |batches[b].logits|
    ensures |Concat(TargetChunks(batches))| == |Concat(PredChunks(batches, classes))| == Samples(batches)
    ensures k == Samples(batches[..b]) + j && k < Samples(batches)
    ensures Concat(TargetChunks(batches))[k] == batches[b].targets[j]
    ensures Concat(PredChunks(batches, classes))[k] == ArgMax(batches[b].logits[j])
  {
    var tc, pc := TargetChunks(batches), PredChunks(batches, classes);
    SamplesOfTargets(batches, classes);
    ConcatSameLength(tc, pc);
    ChunkOffsets(batches, classes, b);
    k := ConcatAt(tc, b, j);
    assert tc[b][j] == batches[b].targets[j];
    var kp := ConcatAt(pc, b, j);
    assert pc[b][j] == ArgMax(batches[b].logits[j]);
  }
}
