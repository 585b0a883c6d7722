/**
 * The step schedule of train_one_epoch: when the learning rate is adjusted, when the
 * loss scaler may step the optimizer, when gradients are zeroed and when a non-finite
 * loss stops the run. The optimizer, the scaler and the scheduler are a record of the
 * calls made to them; the model, the criterion and the data are the per-batch losses.
 */
module FineTune {
  import opened Util
  import opened Arith

  /** loss.item(): a finite value, or inf / nan. */
  datatype Loss = Finite(value: real) | NonFinite

  /** One call that changes the optimizer's state. */
  datatype Call =
    | ZeroGrad                                 // optimizer.zero_grad()
    | AdjustLr(epoch: real)                    // lr_sched.adjust_learning_rate at a fractional epoch
    | ScalerStep(loss: real, updateGrad: bool) // loss_scaler(loss, optimizer, update_grad=...)

  /** How the epoch ends. */
  datatype Outcome =
    | Completed
    | Aborted(step: nat) // sys.exit(1) after a non-finite loss at this step
    | DivisionByZero     // data_iter_step % accum_iter with accum_iter == 0

  /** The learning rates adjust_learning_rate gives the groups at a fractional epoch. */
  function SchedLrs(sched: (real, nat) -> real, epoch: real, groups: nat): (lrs: seq<real>)
    ensures |lrs| == groups && forall g :: 0 <= g < groups ==> lrs[g] == sched(epoch, g)
  {
    seq(groups, g requires 0 <= g < groups => sched(epoch, g))
  }

  /** The optimizer as the loop sees it: the param groups' learning rates and the calls so far. */
  class Optimizer {
    var groupLrs: seq<real>
    var calls: seq<Call>

    constructor (lrs: seq<real>)
      ensures groupLrs == lrs && calls == []
    {
      groupLrs := lrs;
      calls := [];
    }

    method ZeroGrad()
      modifies this
      ensures groupLrs == old(groupLrs) && calls == old(calls) + [Call.ZeroGrad]
    {
      calls := calls + [Call.ZeroGrad];
    }

    /** lr_sched.adjust_learning_rate: every group gets the schedule's rate for it at this epoch. */
    method AdjustLearningRate(epoch: real, sched: (real, nat) -> real)
      modifies this
      ensures groupLrs == SchedLrs(sched, epoch, |old(groupLrs)|)
      ensures calls == old(calls) + [AdjustLr(epoch)]
    {
      groupLrs := SchedLrs(sched, epoch, |groupLrs|);
      calls := calls + [AdjustLr(epoch)];
    }

    /** loss_scaler(...): backward, and an optimizer step when updateGrad holds. */
    method Scale(loss: real, updateGrad: bool)
      modifies this
      ensures groupLrs == old(groupLrs) && calls == old(calls) + [ScalerStep(loss, updateGrad)]
    {
      calls := calls + [ScalerStep(loss, updateGrad)];
    }
  }

  // ------------------------------------------------------------ the logged learning rate

  function Max(a: real, b: real): real
  {
    if a >= b then a else b
  }

  function Min(a: real, b: real): real
  {
    if a <= b then a else b
  }

  /** max_lr: 0. folded with max over the groups' rates. */
  function GroupMax(lrs: seq<real>): (m: real)
    ensures m >= 0.0 && forall g :: 0 <= g < |lrs| ==> lrs[g] <= m
    ensures m == 0.0 || exists g :: 0 <= g < |lrs| && lrs[g] == m
  {
    if |lrs| == 0 then 0.0 else Max(GroupMax(lrs[..|lrs| - 1]), lrs[|lrs| - 1])
  }

  /** min_lr: 10. folded with min over the groups' rates (computed, never logged). */
  function GroupMin(lrs: seq<real>): (m: real)
    ensures m <= 10.0 && forall g :: 0 <= g < |lrs| ==> m <= lrs[g]
    ensures m == 10.0 || exists g :: 0 <= g < |lrs| && lrs[g] == m
  {
    if |lrs| == 0 then 10.0 else Min(GroupMin(lrs[..|lrs| - 1]), lrs[|lrs| - 1])
  }

  /** The loop over optimizer.param_groups that finds min_lr and max_lr. */
  method LrRange(lrs: seq<real>) returns (minLr: real, maxLr: real)
    ensures minLr == GroupMin(lrs) && maxLr == GroupMax(lrs)
  {
    minLr, maxLr := 10.0, 0.0;
    for g := 0 to |lrs|
      invariant minLr == GroupMin(lrs[..g]) && maxLr == GroupMax(lrs[..g])
    {
      assert lrs[..g + 1][..g] == lrs[..g];
      minLr := Min(minLr, lrs[g]);
      maxLr := Max(maxLr, lrs[g]);
    }
    assert lrs[..|lrs|] == lrs;
  }

  // ------------------------------------------------------------ the schedule

  /** data_iter_step / len(data_loader) + epoch. */
  function FracEpoch(step: nat, n: nat, epoch: int): real
    requires n > 0
  {
    step as real / n as real + epoch as real
  }

  /**
   * The calls of one step whose loss is finite. Python's % and Dafny's % differ for a
   * negative accum_iter, but x % a == 0 means "a divides x" in both.
   */
  function StepCalls(loss: real, step: nat, n: nat, epoch: int, accum: int): seq<Call>
    requires n > 0 && accum != 0
  {
    AdjustCalls(step, n, epoch, accum) + TailCalls(loss, step, accum)
  }

  /** The head of a step: adjust_learning_rate when the step starts an accumulation cycle. */
  function AdjustCalls(step: nat, n: nat, epoch: int, accum: int): seq<Call>
    requires n > 0 && accum != 0
  {
    if step % accum == 0 then [AdjustLr(FracEpoch(step, n, epoch))] else []
  }

  /** The tail of a step with a finite loss: the scaled loss to the scaler, zero_grad at a cycle's end. */
  function TailCalls(loss: real, step: nat, accum: int): seq<Call>
    requires accum != 0
  {
    [ScalerStep(loss / accum as real, (step + 1) % accum == 0)]
    + (if (step + 1) % accum == 0 then [ZeroGrad] else [])
  }

  /** The number of leading finite losses: the step that aborts, or |losses|. */
  function FirstNonFinite(losses: seq<Loss>): (k: nat)
    ensures k <= |losses| && forall s :: 0 <= s < k ==> losses[s].Finite?
    ensures k < |losses| ==> losses[k] == NonFinite
  {
    if |losses| == 0 || losses[0] == NonFinite then 0 else 1 + FirstNonFinite(losses[1..])
  }

  /** The steps whose loss reaches the scaler: none when accum_iter is 0. */
  function StepsRun(losses: seq<Loss>, accum: int): (k: nat)
    ensures k <= |losses| && forall s :: 0 <= s < k ==> losses[s].Finite?
  {
    if accum == 0 then 0 else FirstNonFinite(losses)
  }

  /** The calls of steps 0 .. k-1, all with finite losses. */
  function Steps(losses: seq<Loss>, k: nat, epoch: int, accum: int): seq<Call>
    requires k <= |losses| && accum != 0 && forall s :: 0 <= s < k ==> losses[s].Finite?
  {
    if k == 0 then []
    else Steps(losses, k - 1, epoch, accum) + StepCalls(losses[k - 1].value, k - 1, |losses|, epoch, accum)
  }

  /** How train_one_epoch ends for these losses. */
  function EpochOutcome(losses: seq<Loss>, accum: int): Outcome
  {
    if |losses| == 0 then Completed
    else if accum == 0 then DivisionByZero
    else if FirstNonFinite(losses) < |losses| then Aborted(FirstNonFinite(losses))
    else Completed
  }

  /** Every call train_one_epoch makes on the optimizer, in order. */
  function EpochCalls(losses: seq<Loss>, epoch: int, accum: int): (c: seq<Call>)
    ensures |c| >= 1 && c[0] == ZeroGrad
  {
    if |losses| == 0 || accum == 0 then [ZeroGrad]
    else
      var k := FirstNonFinite(losses);
      [ZeroGrad] + Steps(losses, k, epoch, accum)
      + (if k < |losses| then AdjustCalls(k, |losses|, epoch, accum) else [])
  }

  /** The step whose adjust_learning_rate set the rates step `step` runs with. */
  function LastAdjust(step: nat, accum: int): (s: nat)
    requires accum != 0
    ensures s <= step && s % accum == 0
    ensures forall t :: s < t <= step ==> t % accum != 0
  {
    if step % accum == 0 then step else LastAdjust(step - 1, accum)
  }

  /** The rates step `s` runs with: those of the last adjustment at or before it. */
  function StepLrs(sched: (real, nat) -> real, s: nat, n: nat, epoch: int, accum: int, groups: nat): seq<real>
    requires n > 0 && accum != 0
  {
    SchedLrs(sched, FracEpoch(LastAdjust(s, accum), n, epoch), groups)
  }

  /** The loss values metric_logger records in steps 0 .. k-1. */
  function LossPrefix(losses: seq<Loss>, k: nat): (log: seq<real>)
    requires k <= |losses| && forall s :: 0 <= s < k ==> losses[s].Finite?
    ensures |log| == k
  {
    if k == 0 then [] else LossPrefix(losses, k - 1) + [losses[k - 1].value]
  }

  /** The max_lr values metric_logger records in steps 0 .. k-1. */
  function LrPrefix(sched: (real, nat) -> real, k: nat, n: nat, epoch: int, accum: int, groups: nat): (log: seq<real>)
    requires n > 0 && accum != 0
    ensures |log| == k
  {
    if k == 0 then [] else LrPrefix(sched, k - 1, n, epoch, accum, groups) + [GroupMax(StepLrs(sched, k - 1, n, epoch, accum, groups))]
  }

  /** The loss values metric_logger records, one per step that reaches it. */
  function LossLog(losses: seq<Loss>, accum: int): (log: seq<real>)
    ensures |log| == StepsRun(losses, accum)
  {
    LossPrefix(losses, StepsRun(losses, accum))
  }

  /** The learning rates metric_logger records: max_lr after each step's adjustment. */
  function LrLog(losses: seq<Loss>, epoch: int, accum: int, sched: (real, nat) -> real, groups: nat)
    : (log: seq<real>)
    ensures |log| == StepsRun(losses, accum)
  {
    if |losses| == 0 || accum == 0 then [] else LrPrefix(sched, StepsRun(losses, accum), |losses|, epoch, accum, groups)
  }

  /**
   * The last step whose head ran: the step that aborts, or the last step of the loader.
   * adjust_learning_rate runs before the loss is checked, so an aborted step has adjusted too.
   */
  function LastStepStarted(losses: seq<Loss>): (s: nat)
    requires |losses| > 0
    ensures s < |losses| && s <= FirstNonFinite(losses)
  {
    if FirstNonFinite(losses) < |losses| then FirstNonFinite(losses) else |losses| - 1
  }

  /** The param groups' rates when train_one_epoch returns, starting from lrs0. */
  function FinalLrs(losses: seq<Loss>, epoch: int, accum: int, sched: (real, nat) -> real, lrs0: seq<real>)
    : (lrs: seq<real>)
    ensures |lrs| == |lrs0|
  {
    if |losses| == 0 || accum == 0 then lrs0
    else StepLrs(sched, LastStepStarted(losses), |losses|, epoch, accum, |lrs0|)
  }

  // ------------------------------------------------------------ the loop

  /**
   * One iteration of the loop: adjust_learning_rate when the step starts an accumulation
   * cycle; then, unless the loss is non-finite, the scaled loss to the scaler, zero_grad at
   * the cycle's end, and max_lr over the groups.
   */
  method RunStep(opt: Optimizer, losses: seq<Loss>, step: nat, epoch: int, accum: int, sched: (real, nat) -> real)
    returns (finite: bool, maxLr: real)
    requires step < |losses| && accum != 0
    requires step > 0 ==> opt.groupLrs == StepLrs(sched, step - 1, |losses|, epoch, accum, |opt.groupLrs|)
    modifies opt
    ensures finite == losses[step].Finite?
    ensures opt.groupLrs == StepLrs(sched, step, |losses|, epoch, accum, |old(opt.groupLrs)|)
    ensures finite ==> opt.calls == old(opt.calls) + StepCalls(losses[step].value, step, |losses|, epoch, accum)
    ensures !finite ==> opt.calls == old(opt.calls) + AdjustCalls(step, |losses|, epoch, accum)
    ensures maxLr == GroupMax(opt.groupLrs)
  {
    var n := |losses|;
    if step % accum == 0 {
      opt.AdjustLearningRate(FracEpoch(step, n, epoch), sched);
    }
    ghost var adjusted := opt.calls;
    assert adjusted == old(opt.calls) + AdjustCalls(step, n, epoch, accum);
    assert opt.groupLrs == StepLrs(sched, step, n, epoch, accum, |old(opt.groupLrs)|);
    finite := losses[step].Finite?;
    if finite {
      var update := (step + 1) % accum == 0;
      opt.Scale(losses[step].value / accum as real, update);
      if update {
        opt.ZeroGrad();
      }
      assert opt.calls == adjusted + TailCalls(losses[step].value, step, accum);
      AppendAssoc(old(opt.calls), AdjustCalls(step, n, epoch, accum), TailCalls(losses[step].value, step, accum));
    }
    var minLr;
    minLr, maxLr := LrRange(opt.groupLrs);
  }

  /**
   * The loop of train_one_epoch: it runs the steps until a non-finite loss or the end of
   * the loader, and returns where it stopped with the logs so far.
   */
  method RunSteps(opt: Optimizer, losses: seq<Loss>, epoch: int, accum: int, sched: (real, nat) -> real)
    returns (stop: nat, lossLog: seq<real>, lrLog: seq<real>)
    requires 0 < |losses| && accum != 0
    modifies opt
    ensures stop <= |losses| && forall s :: 0 <= s < stop ==> losses[s].Finite?
    ensures stop < |losses| ==> losses[stop] == NonFinite
    ensures opt.groupLrs == StepLrs(sched, if stop < |losses| then stop else |losses| - 1, |losses|, epoch, accum,
                                    |old(opt.groupLrs)|)
    ensures opt.calls == old(opt.calls) + Steps(losses, stop, epoch, accum)
      + (if stop < |losses| then AdjustCalls(stop, |losses|, epoch, accum) else [])
    ensures lossLog == LossPrefix(losses, stop)
    ensures lrLog == LrPrefix(sched, stop, |losses|, epoch, accum, |old(opt.groupLrs)|)
  {
    var groups := |opt.groupLrs|;
    var n := |losses|;
    var calls0 := opt.calls;
    lossLog, lrLog := [], [];
    stop := 0;
    while stop < n
      invariant 0 <= stop <= FirstNonFinite(losses)
      invariant |opt.groupLrs| == groups
      invariant stop > 0 ==> opt.groupLrs == StepLrs(sched, stop - 1, n, epoch, accum, groups)
      invariant opt.calls == calls0 + Steps(losses, stop, epoch, accum)
      invariant lossLog == LossPrefix(losses, stop)
      invariant lrLog == LrPrefix(sched, stop, n, epoch, accum, groups)
    {
      var finite, maxLr := RunStep(opt, losses, stop, epoch, accum, sched);
      if !finite {
        return;
      }
      AppendAssoc(calls0, Steps(losses, stop, epoch, accum), StepCalls(losses[stop].value, stop, n, epoch, accum));
      lossLog := lossLog + [losses[stop].value];
      lrLog := lrLog + [maxLr];
      stop := stop + 1;
    }
  }

  /**
   * train_one_epoch over a loader whose batches give these losses. The returned logs are
   * the loss and lr values metric_logger is updated with.
   */
  method TrainOneEpoch(opt: Optimizer, losses: seq<Loss>, epoch: int, accum: int, sched: (real, nat) -> real)
    returns (outcome: Outcome, lossLog: seq<real>, lrLog: seq<real>)
    modifies opt
    ensures outcome == EpochOutcome(losses, accum)
    ensures opt.calls == old(opt.calls) + EpochCalls(losses, epoch, accum)
    ensures lossLog == LossLog(losses, accum)
    ensures lrLog == LrLog(losses, epoch, accum, sched, |old(opt.groupLrs)|)
    ensures opt.groupLrs == FinalLrs(losses, epoch, accum, sched, old(opt.groupLrs))
  {
    var calls0 := opt.calls;
    opt.ZeroGrad();
    if |losses| == 0 {
      return Completed, [], [];
    }
    if accum == 0 {
      return DivisionByZero, [], [];
    }
    var stop;
    stop, lossLog, lrLog := RunSteps(opt, losses, epoch, accum, sched);
    EpochEndsAt(losses, stop, epoch, accum, sched, |old(opt.groupLrs)|, calls0, lossLog, lrLog);
    FirstNonFiniteAt(losses, stop);
    outcome := if stop < |losses| then Aborted(stop) else Completed;
  }

  /** Where the loop stops at step k, the outcome, calls and logs are those of the epoch. */
  lemma EpochEndsAt(losses: seq<Loss>, k: nat, epoch: int, accum: int, sched: (real, nat) -> real, groups: nat,
                    prior: seq<Call>, lossLog: seq<real>, lrLog: seq<real>)
    requires 0 < |losses| && accum != 0 && k <= |losses| && forall s :: 0 <= s < k ==> losses[s].Finite?
    requires k < |losses| ==> losses[k] == NonFinite
    requires lossLog == LossPrefix(losses, k)
    requires lrLog == LrPrefix(sched, k, |losses|, epoch, accum, groups)
    ensures EpochOutcome(losses, accum) == if k < |losses| then Aborted(k) else Completed
    ensures prior + EpochCalls(losses, epoch, accum) == prior + [ZeroGrad] + Steps(losses, k, epoch, accum)
      + (if k < |losses| then AdjustCalls(k, |losses|, epoch, accum) else [])
    ensures lossLog == LossLog(losses, accum) && lrLog == LrLog(losses, epoch, accum, sched, groups)
  {
    FirstNonFiniteAt(losses, k);
    var steps := Steps(losses, k, epoch, accum);
    var tail := if k < |losses| then AdjustCalls(k, |losses|, epoch, accum) else [];
    AppendAssoc([ZeroGrad], steps, tail);
    AppendAssoc(prior, [ZeroGrad] + steps, tail);
    AppendAssoc(prior, [ZeroGrad], steps);
  }

  lemma AppendAssoc<T>(a: seq<T>, b: seq<T>, c: seq<T>)
    ensures (a + b) + c == a + (b + c)
  {
  }

  /** FirstNonFinite is the first step with a non-finite loss, or |losses| when there is none. */
  lemma FirstNonFiniteAt(losses: seq<Loss>, k: nat)
    requires k <= |losses| && forall s :: 0 <= s < k ==> losses[s].Finite?
    requires k < |losses| ==> losses[k] == NonFinite
    ensures FirstNonFinite(losses) == k
  {
  }

  // ------------------------------------------------------------ what the schedule promises

  /** The closed form of LastAdjust: for a positive accum_iter, the first step of the cycle holding `step`. */
  lemma {:induction false} LastAdjustIsCycleStart(step: nat, accum: int)
    requires accum > 0
    ensures LastAdjust(step, accum) == step - step % accum
  {
    if step % accum != 0 {
      PrevMod(step, accum);
      LastAdjustIsCycleStart(step - 1, accum);
    }
  }

  lemma {:induction false} LossPrefixAt(losses: seq<Loss>, k: nat, s: nat)
    requires k <= |losses| && forall t :: 0 <= t < k ==> losses[t].Finite?
    requires s < k
    ensures LossPrefix(losses, k)[s] == losses[s].value
  {
    if s < k - 1 {
      LossPrefixAt(losses, k - 1, s);
    }
  }

  lemma {:induction false} LrPrefixAt(sched: (real, nat) -> real, k: nat, n: nat, epoch: int, accum: int, groups: nat,
                                      s: nat)
    requires n > 0 && accum != 0 && s < k
    ensures LrPrefix(sched, k, n, epoch, accum, groups)[s] == GroupMax(StepLrs(sched, s, n, epoch, accum, groups))
  {
    if s < k - 1 {
      LrPrefixAt(sched, k - 1, n, epoch, accum, groups, s);
    }
  }

  /** The loss log holds the loss of every step that ran, in step order. */
  lemma LossLogAt(losses: seq<Loss>, accum: int, s: nat)
    requires s < StepsRun(losses, accum)
    ensures LossLog(losses, accum)[s] == losses[s].value
  {
    LossPrefixAt(losses, StepsRun(losses, accum), s);
  }

  /**
   * With a positive accum_iter, the max_lr logged at step s is the largest of the
   * schedule's rates at the fractional epoch of the first step of s's accumulation cycle.
   */
  lemma LrLogAt(losses: seq<Loss>, epoch: int, accum: int, sched: (real, nat) -> real, groups: nat, s: nat)
    requires accum > 0 && s < StepsRun(losses, accum)
    ensures LrLog(losses, epoch, accum, sched, groups)[s]
         == GroupMax(SchedLrs(sched, FracEpoch(s - s % accum, |losses|, epoch), groups))
  {
    LrPrefixAt(sched, StepsRun(losses, accum), |losses|, epoch, accum, groups, s);
    LastAdjustIsCycleStart(s, accum);
  }

  /**
   * With a positive accum_iter the optimizer ends the epoch with the schedule's rates at the
   * fractional epoch of the start of the accumulation cycle of the last step that began.
   */
  lemma FinalLrsAt(losses: seq<Loss>, epoch: int, accum: int, sched: (real, nat) -> real, lrs0: seq<real>)
    requires accum > 0 && |losses| > 0
    ensures var s := LastStepStarted(losses);
      FinalLrs(losses, epoch, accum, sched, lrs0)
      == SchedLrs(sched, FracEpoch(s - s % accum, |losses|, epoch), |lrs0|)
  {
    LastAdjustIsCycleStart(LastStepStarted(losses), accum);
  }

  /** When every step runs, the last logged lr is the largest of the rates the optimizer ends with. */
  lemma FinalLrsLogged(losses: seq<Loss>, epoch: int, accum: int, sched: (real, nat) -> real, lrs0: seq<real>)
    requires accum != 0 && |losses| > 0 && FirstNonFinite(losses) == |losses|
    ensures |LrLog(losses, epoch, accum, sched, |lrs0|)| == |losses|
    ensures LrLog(losses, epoch, accum, sched, |lrs0|)[|losses| - 1]
         == GroupMax(FinalLrs(losses, epoch, accum, sched, lrs0))
  {
    LrPrefixAt(sched, |losses|, |losses|, epoch, accum, |lrs0|, |losses| - 1);
  }

  /** The scaler calls among some calls, in order. */
  function Scalers(c: seq<Call>): (r: seq<Call>)
    ensures |r| <= |c| && forall i :: 0 <= i < |r| ==> r[i].ScalerStep?
  {
    if |c| == 0 then []
    else Scalers(c[..|c| - 1]) + (if c[|c| - 1].ScalerStep? then [c[|c| - 1]] else [])
  }

  /** How many scaler calls step the optimizer. */
  function UpdateCount(c: seq<Call>): (u: nat)
    ensures u <= |c|
  {
    if |c| == 0 then 0
    else UpdateCount(c[..|c| - 1]) + (if c[|c| - 1].ScalerStep? && c[|c| - 1].updateGrad then 1 else 0)
  }

  lemma {:induction false} ScalersAppend(a: seq<Call>, b: seq<Call>)
    ensures Scalers(a + b) == Scalers(a) + Scalers(b)
    ensures UpdateCount(a + b) == UpdateCount(a) + UpdateCount(b)
  {
    if |b| > 0 {
      assert (a + b)[..|a + b| - 1] == a + b[..|b| - 1];
      ScalersAppend(a, b[..|b| - 1]);
    } else {
      assert a + b == a;
    }
  }

  /** The scaler's call of step s: the loss divided by accum_iter, stepping at a cycle's end. */
  function ScalerOf(losses: seq<Loss>, s: nat, accum: int): Call
    requires s < |losses| && losses[s].Finite? && accum != 0
  {
    ScalerStep(losses[s].value / accum as real, (s + 1) % accum == 0)
  }

  /** A step's calls hold one scaler call, which steps the optimizer when the step ends a cycle. */
  lemma ScalersOfStep(losses: seq<Loss>, s: nat, epoch: int, accum: int)
    requires s < |losses| && losses[s].Finite? && accum != 0
    ensures Scalers(StepCalls(losses[s].value, s, |losses|, epoch, accum)) == [ScalerOf(losses, s, accum)]
    ensures UpdateCount(StepCalls(losses[s].value, s, |losses|, epoch, accum)) == if (s + 1) % accum == 0 then 1 else 0
  {
    var tail := TailCalls(losses[s].value, s, accum);
    ScalersAppend(AdjustCalls(s, |losses|, epoch, accum), tail);
    ScalersAppend([tail[0]], tail[1..]);
    assert [tail[0]] + tail[1..] == tail;
  }

  /** When every block holds one scaler call, the scaler calls of the whole are those, in order. */
  lemma {:induction false} ScalersOfConcat(blocks: seq<seq<Call>>, sc: seq<Call>)
    requires |sc| == |blocks| && forall i :: 0 <= i < |blocks| ==> Scalers(blocks[i]) == [sc[i]]
    ensures Scalers(Concat(blocks)) == sc
  {
    if |blocks| > 0 {
      var n := |blocks| - 1;
      ScalersOfConcat(blocks[..n], sc[..n]);
      ScalersAppend(Concat(blocks[..n]), blocks[n]);
      assert sc == sc[..n] + [sc[n]];
    }
  }

  /** Only scaler calls step the optimizer. */
  lemma {:induction false} UpdatesOfScalers(c: seq<Call>)
    ensures UpdateCount(Scalers(c)) == UpdateCount(c)
  {
    if |c| > 0 {
      var n := |c| - 1;
      UpdatesOfScalers(c[..n]);
      ScalersAppend(Scalers(c[..n]), if c[n].ScalerStep? then [c[n]] else []);
    }
  }

  /** The per-step blocks of calls of steps 0 .. k-1. */
  function Blocks(losses: seq<Loss>, k: nat, epoch: int, accum: int): (b: seq<seq<Call>>)
    requires k <= |losses| && accum != 0 && forall s :: 0 <= s < k ==> losses[s].Finite?
    ensures |b| == k && forall s :: 0 <= s < k ==> b[s] == StepCalls(losses[s].value, s, |losses|, epoch, accum)
  {
    seq(k, s requires 0 <= s < k => StepCalls(losses[s].value, s, |losses|, epoch, accum))
  }

  lemma {:induction false} StepsAsBlocks(losses: seq<Loss>, k: nat, epoch: int, accum: int)
    requires k <= |losses| && accum != 0 && forall s :: 0 <= s < k ==> losses[s].Finite?
    ensures Steps(losses, k, epoch, accum) == Concat(Blocks(losses, k, epoch, accum))
  {
    if k > 0 {
      StepsAsBlocks(losses, k - 1, epoch, accum);
      assert Blocks(losses, k, epoch, accum)[..k - 1] == Blocks(losses, k - 1, epoch, accum);
    }
  }

  /** The scaler calls of steps 0 .. k-1, one per step. */
  function ScalerSeq(losses: seq<Loss>, k: nat, accum: int): (sc: seq<Call>)
    requires k <= |losses| && accum != 0 && forall s :: 0 <= s < k ==> losses[s].Finite?
    ensures |sc| == k && forall s :: 0 <= s < k ==> sc[s] == ScalerOf(losses, s, accum)
  {
    seq(k, s requires 0 <= s < k => ScalerOf(losses, s, accum))
  }

  lemma ScalersOfSteps(losses: seq<Loss>, k: nat, epoch: int, accum: int)
    requires k <= |losses| && accum != 0 && forall s :: 0 <= s < k ==> losses[s].Finite?
    ensures Scalers(Steps(losses, k, epoch, accum)) == ScalerSeq(losses, k, accum)
  {
    StepsAsBlocks(losses, k, epoch, accum);
    var blocks := Blocks(losses, k, epoch, accum);
    forall s | 0 <= s < k
      ensures Scalers(blocks[s]) == [ScalerSeq(losses, k, accum)[s]]
    {
      ScalersOfStep(losses, s, epoch, accum);
    }
    ScalersOfConcat(blocks, ScalerSeq(losses, k, accum));
  }

  /** Of the first k steps, k / accum_iter end a cycle. */
  lemma {:induction false} UpdatesOfScalerSeq(losses: seq<Loss>, k: nat, accum: int)
    requires k <= |losses| && accum > 0 && forall s :: 0 <= s < k ==> losses[s].Finite?
    ensures UpdateCount(ScalerSeq(losses, k, accum)) == k / accum
  {
    if k > 0 {
      var sc := ScalerSeq(losses, k, accum);
      assert sc[..k - 1] == ScalerSeq(losses, k - 1, accum);
      UpdatesOfScalerSeq(losses, k - 1, accum);
      CycleCount(k - 1, k, accum);
    } else {
      DivModOf(0, 0, accum);
    }
  }

  lemma UpdatesOfSteps(losses: seq<Loss>, k: nat, epoch: int, accum: int)
    requires k <= |losses| && accum > 0 && forall s :: 0 <= s < k ==> losses[s].Finite?
    ensures UpdateCount(Steps(losses, k, epoch, accum)) == k / accum
  {
    UpdatesOfScalers(Steps(losses, k, epoch, accum));
    ScalersOfSteps(losses, k, epoch, accum);
    UpdatesOfScalerSeq(losses, k, accum);
  }

  /** One more step completes a cycle exactly when it is divisible by the cycle length. */
  lemma CycleCount(j: nat, k: nat, accum: int)
    requires k == j + 1 && accum > 0
    ensures k / accum == j / accum + (if (j + 1) % accum == 0 then 1 else 0)
  {
    NextDiv(j, accum);
  }

  /** Calls around a block that hold no scaler call leave its scaler calls as they are. */
  lemma ScalersAround(head: seq<Call>, mid: seq<Call>, tail: seq<Call>)
    requires Scalers(head) == [] && Scalers(tail) == [] && UpdateCount(head) == 0 && UpdateCount(tail) == 0
    ensures Scalers(head + mid + tail) == Scalers(mid) && UpdateCount(head + mid + tail) == UpdateCount(mid)
  {
    ScalersAppend(head, mid);
    ScalersAppend(head + mid, tail);
  }

  /** The calls of an epoch with losses and a non-zero accum_iter: the steps that ran between two ends. */
  lemma EpochCallsShape(losses: seq<Loss>, epoch: int, accum: int)
    requires |losses| > 0 && accum != 0
    ensures var k := FirstNonFinite(losses);
      EpochCalls(losses, epoch, accum) == [ZeroGrad] + Steps(losses, k, epoch, accum)
        + (if k < |losses| then AdjustCalls(k, |losses|, epoch, accum) else [])
  {
  }

  /** The scaler calls of an epoch are those of the steps that ran, in step order. */
  lemma ScalersOfEpoch(losses: seq<Loss>, epoch: int, accum: int)
    requires |losses| > 0 && accum != 0
    ensures Scalers(EpochCalls(losses, epoch, accum)) == ScalerSeq(losses, FirstNonFinite(losses), accum)
    ensures UpdateCount(EpochCalls(losses, epoch, accum)) == UpdateCount(Steps(losses, FirstNonFinite(losses), epoch, accum))
  {
    var k := FirstNonFinite(losses);
    var tail := if k < |losses| then AdjustCalls(k, |losses|, epoch, accum) else [];
    EpochCallsShape(losses, epoch, accum);
    assert Scalers([ZeroGrad]) == [] && UpdateCount([ZeroGrad]) == 0;
    assert Scalers(tail) == [] && UpdateCount(tail) == 0;
    ScalersAround([ZeroGrad], Steps(losses, k, epoch, accum), tail);
    ScalersOfSteps(losses, k, epoch, accum);
  }

  /**
   * Each step that runs makes exactly one scaler call, in step order, with its loss divided
   * by accum_iter; the aborted step makes none.
   */
  lemma ScalerSchedule(losses: seq<Loss>, epoch: int, accum: int)
    ensures |Scalers(EpochCalls(losses, epoch, accum))| == StepsRun(losses, accum)
    ensures accum != 0 ==> forall s :: 0 <= s < StepsRun(losses, accum) ==>
      Scalers(EpochCalls(losses, epoch, accum))[s] == ScalerOf(losses, s, accum)
  {
    if |losses| > 0 && accum != 0 {
      ScalersOfEpoch(losses, epoch, accum);
    }
  }

  /**
   * With a positive accum_iter the optimizer steps once per completed cycle of the steps
   * that ran, so a trailing partial cycle is never stepped.
   */
  lemma UpdatesPerEpoch(losses: seq<Loss>, epoch: int, accum: int)
    requires accum > 0
    ensures UpdateCount(EpochCalls(losses, epoch, accum)) == StepsRun(losses, accum) / accum
  {
    if |losses| > 0 {
      ScalersOfEpoch(losses, epoch, accum);
      UpdatesOfSteps(losses, FirstNonFinite(losses), epoch, accum);
    } else {
      DivModOf(0, 0, accum);
    }
  }

  /** With accum_iter == 1 every step that runs steps the optimizer. */
  lemma EveryStepUpdates(losses: seq<Loss>, epoch: int)
    ensures UpdateCount(EpochCalls(losses, epoch, 1)) == StepsRun(losses, 1)
  {
    UpdatesPerEpoch(losses, epoch, 1);
  }

  /** Every scaler call that steps the optimizer is followed at once by zero_grad. */
  predicate ZeroAfterUpdate(c: seq<Call>)
  {
    forall i :: 0 <= i < |c| && c[i].ScalerStep? && c[i].updateGrad ==> i + 1 < |c| && c[i + 1] == ZeroGrad
  }

  /** Every zero_grad but a leading one follows a scaler call that stepped the optimizer. */
  predicate ZeroOnlyAfterUpdate(c: seq<Call>)
  {
    forall i :: 0 < i < |c| && c[i] == ZeroGrad ==> c[i - 1].ScalerStep? && c[i - 1].updateGrad
  }

  lemma PairingAppend(a: seq<Call>, b: seq<Call>)
    requires ZeroAfterUpdate(a) && ZeroOnlyAfterUpdate(a) && ZeroAfterUpdate(b) && ZeroOnlyAfterUpdate(b)
    requires |b| > 0 ==> b[0] != ZeroGrad
    ensures ZeroAfterUpdate(a + b) && ZeroOnlyAfterUpdate(a + b)
  {
    var c := a + b;
    forall i | 0 <= i < |c| && c[i].ScalerStep? && c[i].updateGrad
      ensures i + 1 < |c| && c[i + 1] == ZeroGrad
    {
      if i < |a| {
        assert a[i] == c[i];
      } else {
        assert b[i - |a|] == c[i];
      }
    }
    forall i | 0 < i < |c| && c[i] == ZeroGrad
      ensures c[i - 1].ScalerStep? && c[i - 1].updateGrad
    {
      if i < |a| {
        assert a[i] == c[i];
      } else {
        assert b[i - |a|] == c[i];
      }
    }
  }

  /** One step's calls: never led by zero_grad, and zero_grad exactly after its updating scaler call. */
  lemma PairingOfStep(loss: real, s: nat, n: nat, epoch: int, accum: int)
    requires n > 0 && accum != 0
    ensures var c := StepCalls(loss, s, n, epoch, accum);
      ZeroAfterUpdate(c) && ZeroOnlyAfterUpdate(c) && |c| > 0 && c[0] != ZeroGrad
  {
    var a, b := AdjustCalls(s, n, epoch, accum), TailCalls(loss, s, accum);
    assert StepCalls(loss, s, n, epoch, accum) == a + b;
    PairingAppend(a, b);
  }

  lemma {:induction false} PairingOfSteps(losses: seq<Loss>, k: nat, epoch: int, accum: int)
    requires k <= |losses| && accum != 0 && forall s :: 0 <= s < k ==> losses[s].Finite?
    ensures ZeroAfterUpdate([ZeroGrad] + Steps(losses, k, epoch, accum))
    ensures ZeroOnlyAfterUpdate([ZeroGrad] + Steps(losses, k, epoch, accum))
  {
    if k > 0 {
      PairingOfSteps(losses, k - 1, epoch, accum);
      var step := StepCalls(losses[k - 1].value, k - 1, |losses|, epoch, accum);
      PairingOfStep(losses[k - 1].value, k - 1, |losses|, epoch, accum);
      PairingAppend([ZeroGrad] + Steps(losses, k - 1, epoch, accum), step);
      AppendAssoc([ZeroGrad], Steps(losses, k - 1, epoch, accum), step);
    }
  }

  /**
   * zero_grad comes right after every optimizer step, and at no other point but the start
   * of the epoch: gradients accumulate over a cycle and are cleared once it is stepped.
   */
  lemma ZeroGradPairing(losses: seq<Loss>, epoch: int, accum: int)
    ensures ZeroAfterUpdate(EpochCalls(losses, epoch, accum))
    ensures ZeroOnlyAfterUpdate(EpochCalls(losses, epoch, accum))
  {
    if |losses| > 0 && accum != 0 {
      var k := FirstNonFinite(losses);
      PairingOfSteps(losses, k, epoch, accum);
      var tail := if k < |losses| then AdjustCalls(k, |losses|, epoch, accum) else [];
      PairingAppend([ZeroGrad] + Steps(losses, k, epoch, accum), tail);
    }
  }
}
