// One delivery after another: the loop that emitter.sendBatch, scenario.RunMixed and
// scenario.RunPushN share, and what its order, times and results are.
module Schedule {
  import opened Objects
  import opened Sorting
  import opened Delivery

  /** What one delivery does: how far the clock moves meanwhile, what comes back, and whether the loop goes on. */
  datatype Ran<+R> = Ran(spent: int, result: R, ok: bool)

  /** When the loop waits before a delivery: until an offset from the start, or a gap after the one before. */
  datatype Policy = ByOffset(sendAt: seq<Duration>) | ByGap(gap: Duration, gapSet: bool)

  /** What happens around the loop at each position: at its wait, and on the clock just before it. */
  datatype Around = Around(
    ctx: nat -> Option<Time>,    // when the context ends, if it does
    drift: nat -> int,           // time passing in the loop itself, or the clock being set, forward or back
    late: nat -> int,            // how late the timer fires, or how early
    timerFirst: nat -> bool)     // which way select goes when both channels are ready

  /** The deliveries, each by its position and input index, and what happens around them. */
  datatype Batch<!R> = Batch(count: nat, policy: Policy, around: Around, run: (nat, nat, Time) -> Ran<R>)

  datatype Dispatch = Dispatch(index: nat, at: Time, done: Time)
  datatype Stop = Finished | Cancelled | Failed | Panicked
  datatype Played<+R> = Played(log: seq<Dispatch>, results: seq<R>, stop: Stop, end: Time)

  /** time.Time.Sub, which saturates. */
  function Elapsed(start: Time, now: Time): Duration {
    if now - start > MAX_DURATION then MAX_DURATION
    else if now - start < -MAX_DURATION - 1 then -MAX_DURATION - 1
    else now - start
  }

  /** What is left of an offset, in 64 bits. */
  function Remaining(sendAt: Duration, start: Time, now: Time): Duration {
    Wrap64(sendAt - Elapsed(start, now))
  }

  /** The timer set before delivery `i` at position `k`, if one is set. */
  function TimerFor(p: Policy, k: nat, i: int, start: Time, now: Time): Option<Duration> {
    match p
    case ByOffset(sendAt) =>
      if 0 <= i < |sendAt| && sendAt[i] > 0 && Remaining(sendAt[i], start, now) > 0 then
        Some(Remaining(sendAt[i], start, now))
      else
        None
    case ByGap(gap, gapSet) => if k > 0 && gapSet then Some(gap) else None
  }

  /** When the loop, reading the clock at `now`, moves on to position `k`, or that the context ended the wait. */
  function Wait<R>(b: Batch<R>, k: nat, i: int, start: Time, now: Time): Option<Time> {
    match TimerFor(b.policy, k, i, start, now)
    case None => Some(now)
    case Some(d) =>
      var fire := FiresAt(now, d, b.around.late(k));
      if TimerWins(now, fire, b.around.ctx(k), b.around.timerFirst(k)) then Some(fire) else None
  }

  /** The clock as position `k` reads it, after the previous delivery was done at `now`. */
  function Reading<R>(b: Batch<R>, k: nat, now: Time): Time {
    now + b.around.drift(k)
  }

  /** The loop from position `k` on, with `order` still to deliver. */
  function Play<R>(b: Batch<R>, k: nat, start: Time, now: Time, order: seq<int>): (p: Played<R>)
    ensures |p.log| == |p.results|
    decreases |order|
  {
    if order == [] then Played([], [], Finished, now)
    else
      var i, here := order[0], Reading(b, k, now);
      var w := Wait(b, k, i, start, here);
      if w.None? then Played([], [], Cancelled, Max(b.around.ctx(k).value, here))
      else if !(0 <= i < b.count) then Played([], [], Panicked, w.value)
      else
        var x := b.run(k, i, w.value);
        var done := w.value + x.spent;
        if !x.ok then Played([Dispatch(i, w.value, done)], [x.result], Failed, done)
        else Then(Dispatch(i, w.value, done), x.result, Play(b, k + 1, start, done, order[1..]))
  }

  function Then<R>(d: Dispatch, r: R, p: Played<R>): Played<R> {
    p.(log := [d] + p.log, results := [r] + p.results)
  }

  // ----- running the loop -----

  /** `p` is what the whole loop does once the first `k` deliveries have logged `log` and `results`. */
  ghost predicate Resumes<R>(p: Played<R>, log: seq<Dispatch>, results: seq<R>, b: Batch<R>, k: nat,
                             start: Time, now: Time, order: seq<int>)
  {
    && k <= |order| && |log| == |results| == k
    && var rest := Play(b, k, start, now, order[k..]);
       p == Played(log + rest.log, results + rest.results, rest.stop, rest.end)
  }

  lemma ResumesAtFirst<R>(b: Batch<R>, start: Time, order: seq<int>)
    ensures Resumes(Play(b, 0, start, start, order), [], [], b, 0, start, start, order)
  {
  }

  /** The first delivery of a loop that makes any, and the loop after it. */
  lemma PlayOpens<R>(b: Batch<R>, k: nat, start: Time, now: Time, order: seq<int>, p: Played<R>)
    returns (d: Dispatch, rest: Played<R>)
    requires p == Play(b, k, start, now, order) && p.log != []
    ensures order != [] && 0 <= order[0] < b.count && Wait(b, k, order[0], start, Reading(b, k, now)) == Some(d.at)
    ensures d.index == order[0] && d.done == d.at + b.run(k, order[0], d.at).spent
    ensures p.log[0] == d && p.results[0] == b.run(k, order[0], d.at).result
    ensures rest == Play(b, k + 1, start, d.done, order[1..])
    ensures |p.log| > 1 || p.stop != Failed ==>
              && p.log == [d] + rest.log && p.results == [p.results[0]] + rest.results
              && p.stop == rest.stop && p.end == rest.end
  {
    d := p.log[0];
    rest := Play(b, k + 1, start, d.done, order[1..]);
  }

  lemma ResumesAfter<R>(p: Played<R>, log: seq<Dispatch>, results: seq<R>, b: Batch<R>, k: nat,
                        start: Time, now: Time, order: seq<int>, i: int, at: Time, done: Time, r: R, ok: bool)
    requires Resumes(p, log, results, b, k, start, now, order) && k < |order| && order[k] == i && 0 <= i < b.count
    requires Wait(b, k, i, start, Reading(b, k, now)) == Some(at)
    requires b.run(k, i, at) == Ran(done - at, r, ok)
    ensures if ok then Resumes(p, log + [Dispatch(i, at, done)], results + [r], b, k + 1, start, done, order)
            else p == Played(log + [Dispatch(i, at, done)], results + [r], Failed, done)
  {
  }

  lemma ResumesAtEnd<R>(p: Played<R>, log: seq<Dispatch>, results: seq<R>, b: Batch<R>, k: nat,
                        start: Time, now: Time, order: seq<int>)
    requires Resumes(p, log, results, b, k, start, now, order)
    requires var w := if k < |order| then Wait(b, k, order[k], start, Reading(b, k, now)) else None;
             w.None? || !(0 <= order[k] < b.count)
    ensures p == if k == |order| then Played(log, results, Finished, now)
                 else match Wait(b, k, order[k], start, Reading(b, k, now))
                   case None => Played(log, results, Cancelled, Max(b.around.ctx(k).value, Reading(b, k, now)))
                   case Some(at) => Played(log, results, Panicked, at)
  {
  }

  /**
   * The wait of sendBatch and RunMixed before a delivery due at `start + sendAt`: until then, unless it is past
   * or the clock stands so far back that 64 bits cannot hold what is left.
   */
  method Pause(sendAt: Duration, start: Time, before: Time, ctx: Option<Time>, late: int, timerFirst: bool)
    returns (fired: bool, now: Time)
    ensures if sendAt > 0 && start + sendAt - MAX_DURATION <= before < start + sendAt then
              && (fired <==> TimerWins(before, start + sendAt + late, ctx, timerFirst))
              && now == if fired then start + sendAt + late else Max(ctx.value, before)
            else fired && now == before
  {
    fired, now := true, before;
    if sendAt > 0 {
      var remaining := Remaining(sendAt, start, now);
      if remaining > 0 {
        var fire := FiresAt(now, remaining, late);
        fired := TimerWins(now, fire, ctx, timerFirst);
        now := if fired then fire else Max(ctx.value, now);
      }
    }
  }

  lemma PauseIsWait<R>(b: Batch<R>, k: nat, i: nat, start: Time, now: Time)
    requires b.policy.ByOffset? && i < |b.policy.sendAt|
    ensures var sendAt := b.policy.sendAt[i];
            var fire := start + sendAt + b.around.late(k);
            Wait(b, k, i, start, now)
            == if !(sendAt > 0 && start + sendAt - MAX_DURATION <= now < start + sendAt) then Some(now)
               else if TimerWins(now, fire, b.around.ctx(k), b.around.timerFirst(k)) then Some(fire)
               else None
  {
  }

  // ----- what is delivered -----

  function Indices(log: seq<Dispatch>): (r: seq<int>)
    ensures |r| == |log| && forall k :: 0 <= k < |log| ==> r[k] == log[k].index
  {
    seq(|log|, k requires 0 <= k < |log| => log[k].index)
  }

  /**
   * Deliveries follow the given order; the loop ends early only by cancellation, a failing
   * delivery (which is the last one made) or an index outside the input.
   */
  lemma {:induction false} FollowsOrder<R>(b: Batch<R>, k: nat, start: Time, now: Time, order: seq<int>, p: Played<R>)
    requires p == Play(b, k, start, now, order)
    ensures var n := |p.log|;
            && n <= |order| && (forall j :: 0 <= j < n ==> p.log[j].index == order[j] && order[j] < b.count)
            && (p.stop == Finished ==> n == |order|)
            && (p.stop == Failed ==> 0 < n)
            && (p.stop == Cancelled ==> n < |order| && b.around.ctx(k + n).Some?)
            && (p.stop == Panicked ==> n < |order| && !(0 <= order[n] < b.count))
    decreases |order|
  {
    hide Wait, Reading;
    if order != [] {
      var i, w := order[0], Wait(b, k, order[0], start, Reading(b, k, now));
      NeedsContext(b, k, i, start, Reading(b, k, now));
      if w.Some? && 0 <= i < b.count && b.run(k, i, w.value).ok {
        var done := w.value + b.run(k, i, w.value).spent;
        var rest := Play(b, k + 1, start, done, order[1..]);
        FollowsOrder(b, k + 1, start, done, order[1..], rest);
        assert p.log == [Dispatch(i, w.value, done)] + rest.log;
      }
    }
  }

  lemma NeedsContext<R>(b: Batch<R>, k: nat, i: int, start: Time, now: Time)
    ensures Wait(b, k, i, start, now).None? ==> b.around.ctx(k).Some?
  {
  }

  /** A loop whose deliveries never stop it and whose indices exist ends only by finishing or by cancellation. */
  lemma {:induction false} NeverFails<R>(b: Batch<R>, k: nat, start: Time, now: Time, order: seq<int>, p: Played<R>)
    requires p == Play(b, k, start, now, order)
    requires forall k, i, t :: 0 <= i < b.count ==> b.run(k, i, t).ok
    requires forall j :: 0 <= j < |order| ==> 0 <= order[j] < b.count
    ensures p.stop in {Finished, Cancelled} && (p.stop == Finished <==> |p.log| == |order|)
    decreases |order|
  {
    if order != [] {
      var i, w := order[0], Wait(b, k, order[0], start, Reading(b, k, now));
      if w.Some? {
        var done := w.value + b.run(k, i, w.value).spent;
        var rest := Play(b, k + 1, start, done, order[1..]);
        NeverFails(b, k + 1, start, done, order[1..], rest);
        assert p.log == [Dispatch(i, w.value, done)] + rest.log;
      }
    }
  }

  /** Without failing deliveries or contexts that end, a loop panics exactly when an index does not exist. */
  lemma PanicsIff<R>(b: Batch<R>, start: Time, order: seq<int>, p: Played<R>)
    requires p == Play(b, 0, start, start, order)
    requires forall k, i, t :: 0 <= i < b.count ==> b.run(k, i, t).ok
    requires forall k :: b.around.ctx(k).None?
    ensures p.stop in {Finished, Panicked}
    ensures p.stop == Panicked <==> exists j :: 0 <= j < |order| && !(0 <= order[j] < b.count)
  {
    FollowsOrder(b, 0, start, start, order, p);
    FinishesOrPanics(b, 0, start, start, order);
    if p.stop == Finished {
      forall j | 0 <= j < |order|
        ensures 0 <= order[j] < b.count
      {
        assert p.log[j].index == order[j];
      }
    }
  }

  lemma {:induction false} FinishesOrPanics<R>(b: Batch<R>, k: nat, start: Time, now: Time, order: seq<int>)
    requires forall k, i, t :: 0 <= i < b.count ==> b.run(k, i, t).ok
    requires forall k :: b.around.ctx(k).None?
    ensures Play(b, k, start, now, order).stop in {Finished, Panicked}
    decreases |order|
  {
    if order != [] {
      var i, w := order[0], Wait(b, k, order[0], start, Reading(b, k, now));
      if w.Some? && 0 <= i < b.count {
        FinishesOrPanics(b, k + 1, start, w.value + b.run(k, i, w.value).spent, order[1..]);
      }
    }
  }

  // ----- when -----

  predicate Offsets<R>(b: Batch<R>, order: seq<int>) {
    b.policy.ByOffset? && |b.policy.sendAt| == b.count && forall j :: 0 <= j < |order| ==> 0 <= order[j] < b.count
  }

  function SendAt<R>(b: Batch<R>, i: int): Duration {
    if b.policy.ByOffset? && 0 <= i < |b.policy.sendAt| then b.policy.sendAt[i] else 0
  }

  /** The clock as the loop reads it before the delivery at position `j` of the log. */
  function Free<R>(b: Batch<R>, log: seq<Dispatch>, k: nat, now: Time, j: nat): Time
    requires j <= |log|
  {
    Reading(b, k + j, if j == 0 then now else log[j - 1].done)
  }

  /** Whether 64 bits hold what is left until `start + sendAt` when the clock reads `now`. */
  predicate InRange(sendAt: Duration, start: Time, now: Time) {
    now >= start + sendAt - MAX_DURATION
  }

  /** Whether the loop waits for the offset. */
  predicate Waits(sendAt: Duration, start: Time, now: Time) {
    sendAt > 0 && InRange(sendAt, start, now) && now < start + sendAt
  }

  /**
   * A delivery that waits goes out at its offset, off by its timer's lateness; any other goes out at once. So one
   * with a positive offset goes out no earlier than that exactly when it is past already or, the timer not being
   * early, 64 bits hold what is left of it.
   */
  lemma {:induction false} DispatchTimes<R>(b: Batch<R>, k: nat, start: Time, now: Time, order: seq<int>, p: Played<R>,
                                            j: nat)
    requires Offsets(b, order) && p == Play(b, k, start, now, order) && j < |p.log|
    ensures var d, late := p.log[j], b.around.late(k + j);
            var sendAt, free := SendAt(b, d.index), Free(b, p.log, k, now, j);
            && 0 <= d.index < b.count
            && d.at == (if Waits(sendAt, start, free) then start + sendAt + late else free)
            && (sendAt > 0 ==>
                  (d.at >= start + sendAt <==> free >= start + sendAt || (InRange(sendAt, start, free) && late >= 0)))
            && d.done == d.at + b.run(k + j, d.index, d.at).spent
            && p.results[j] == b.run(k + j, d.index, d.at).result
    decreases |order|
  {
    hide Play;
    var d, rest := PlayOpens(b, k, start, now, order, p);
    if j > 0 {
      DispatchTimes(b, k + 1, start, d.done, order[1..], rest, j - 1);
    } else {
      PauseIsWait(b, k, order[0], start, Reading(b, k, now));
    }
  }

  /** The clock only moves forward and no timer fires early, as with a monotonic clock. */
  ghost predicate Forward<R>(b: Batch<R>) {
    && (forall k :: b.around.drift(k) >= 0)
    && (forall k :: b.around.late(k) >= 0)
    && forall k, i, t :: b.run(k, i, t).spent >= 0
  }

  /** Then no delivery ever goes out before its offset, nor before the one ahead of it is done. */
  lemma {:induction false} NeverEarly<R>(b: Batch<R>, start: Time, order: seq<int>, p: Played<R>, j: nat)
    requires Offsets(b, order) && Forward(b) && p == Play(b, 0, start, start, order) && j < |p.log|
    ensures p.log[j].at >= start && p.log[j].at >= start + SendAt(b, p.log[j].index)
    ensures p.log[j].at >= Free(b, p.log, 0, start, j) >= start
  {
    hide Play;
    DispatchTimes(b, 0, start, start, order, p, j);
    if j > 0 {
      NeverEarly(b, start, order, p, j - 1);
      DispatchTimes(b, 0, start, start, order, p, j - 1);
    }
  }

  /** Every delivery made succeeds but the last of a loop that ends by a failing one. */
  lemma {:induction false} RunsAreOk<R>(b: Batch<R>, k: nat, start: Time, now: Time, order: seq<int>, p: Played<R>,
                                        j: nat)
    requires p == Play(b, k, start, now, order) && j < |p.log|
    ensures b.run(k + j, p.log[j].index, p.log[j].at).ok <==> !(p.stop == Failed && j == |p.log| - 1)
    decreases |order|
  {
    hide Play, Wait;
    var d, rest := PlayOpens(b, k, start, now, order, p);
    FirstRunIsOk(b, k, start, now, order, p);
    if j > 0 { RunsAreOk(b, k + 1, start, d.done, order[1..], rest, j - 1); }
  }

  lemma FirstRunIsOk<R>(b: Batch<R>, k: nat, start: Time, now: Time, order: seq<int>, p: Played<R>)
    requires p == Play(b, k, start, now, order) && p.log != []
    ensures b.run(k, p.log[0].index, p.log[0].at).ok <==> !(p.stop == Failed && |p.log| == 1)
  {
    var d, rest := PlayOpens(b, k, start, now, order, p);
    FollowsOrder(b, k + 1, start, d.done, order[1..], rest);
  }

  /** A position the loop comes to is delivered exactly when its wait is not cut short and its index exists. */
  lemma {:induction false} Reached<R>(b: Batch<R>, k: nat, start: Time, now: Time, order: seq<int>, p: Played<R>,
                                      j: nat)
    requires p == Play(b, k, start, now, order) && j <= |p.log| && j < |order| && (p.stop == Failed ==> j < |p.log|)
    ensures var free := Free(b, p.log, k, now, j); var w := Wait(b, k + j, order[j], start, free);
            && (j < |p.log| <==> w.Some? && 0 <= order[j] < b.count)
            && (j == |p.log| ==>
                  if w.Some? then p.stop == Panicked
                  else p.stop == Cancelled && p.end == Max(b.around.ctx(k + j).value, free))
    decreases |order|
  {
    hide Play, Wait;
    if j == 0 {
      ReachedFirst(b, k, start, now, order, p);
    } else {
      var d, rest := PlayOpens(b, k, start, now, order, p);
      Reached(b, k + 1, start, d.done, order[1..], rest, j - 1);
    }
  }

  lemma ReachedFirst<R>(b: Batch<R>, k: nat, start: Time, now: Time, order: seq<int>, p: Played<R>)
    requires p == Play(b, k, start, now, order) && order != []
    ensures var free := Reading(b, k, now); var w := Wait(b, k, order[0], start, free);
            && (p.log != [] <==> w.Some? && 0 <= order[0] < b.count)
            && (p.log == [] ==>
                  if w.Some? then p.stop == Panicked
                  else p.stop == Cancelled && p.end == Max(b.around.ctx(k).value, free))
  {
  }

  /** The context ends the wait for an offset before the clock, reading `now`, is there. */
  ghost predicate OffsetCut(a: Around, k: nat, sendAt: Duration, start: Time, now: Time) {
    Waits(sendAt, start, now) && CutShort(a.ctx(k), now, start + sendAt + a.late(k), a.timerFirst(k))
  }

  /**
   * A delivery by offset that the loop comes to is made exactly when no context cuts its wait short; otherwise the
   * loop is cancelled there, with what was delivered before, when the context ends.
   */
  lemma DeliveredIff<R>(b: Batch<R>, k: nat, start: Time, now: Time, order: seq<int>, p: Played<R>, j: nat)
    requires Offsets(b, order) && p == Play(b, k, start, now, order)
    requires j <= |p.log| && j < |order| && (p.stop == Failed ==> j < |p.log|)
    ensures var free, ctx := Free(b, p.log, k, now, j), b.around.ctx(k + j);
            && (j < |p.log| <==> !OffsetCut(b.around, k + j, SendAt(b, order[j]), start, free))
            && (j == |p.log| ==>
                  p.stop == Cancelled && ctx.Some? && p.end == if ctx.value < free then free else ctx.value)
  {
    hide Play;
    Reached(b, k, start, now, order, p, j);
    PauseIsWait(b, k + j, order[j], start, Free(b, p.log, k, now, j));
  }

  /** The time spent between going out at position `j` and being ready for position `k`. */
  function Busy<R>(b: Batch<R>, log: seq<Dispatch>, j: nat, k: nat): int
    requires j <= k <= |log|
  {
    if j == k then 0
    else Busy(b, log, j, k - 1) + log[k - 1].done - log[k - 1].at + b.around.drift(k)
  }

  /** When position `k` goes out if the loop was idle just before position `j` and busy from then on. */
  function ReadyAfter<R>(b: Batch<R>, start: Time, log: seq<Dispatch>, j: nat, k: nat): Time
    requires j <= k < |log|
  {
    start + Max(SendAt(b, log[j].index), 0) + Busy(b, log, j, k)
  }

  /** When it goes out if the loop never waited. */
  function ReadyAtOnce<R>(b: Batch<R>, start: Time, log: seq<Dispatch>, k: nat): Time
    requires k < |log|
  {
    Reading(b, 0, start) + Busy(b, log, 0, k)
  }

  ghost predicate LatestOf<R>(b: Batch<R>, start: Time, log: seq<Dispatch>, k: nat, at: Time)
    requires k < |log|
  {
    && at >= ReadyAtOnce(b, start, log, k)
    && (forall j :: 0 <= j <= k ==> at >= ReadyAfter(b, start, log, j, k))
    && (at == ReadyAtOnce(b, start, log, k) || IsOneOf(b, start, log, k, at))
  }

  ghost predicate IsOneOf<R>(b: Batch<R>, start: Time, log: seq<Dispatch>, k: nat, at: Time)
    requires k < |log|
  {
    exists j :: 0 <= j <= k && at == ReadyAfter(b, start, log, j, k)
  }

  /**
   * With exact timers the k-th delivery goes out at the latest of these, over all `j` up to `k`; the case of
   * never waiting matters only if time passes before the first delivery.
   */
  lemma DispatchTimeClosedForm<R>(b: Batch<R>, start: Time, order: seq<int>, p: Played<R>, k: nat)
    requires Offsets(b, order) && Forward(b) && forall j :: b.around.late(j) == 0
    requires p == Play(b, 0, start, start, order) && k < |p.log|
    ensures LatestOf(b, start, p.log, k, p.log[k].at)
    ensures b.around.drift(0) == 0 ==> IsOneOf(b, start, p.log, k, p.log[k].at)
  {
    LatestFrom(b, start, order, p, k);
    if p.log[k].at == ReadyAtOnce(b, start, p.log, k) && b.around.drift(0) == 0 {
      assert p.log[k].at >= ReadyAfter(b, start, p.log, 0, k);
      assert p.log[k].at == ReadyAfter(b, start, p.log, 0, k);
    }
  }

  lemma {:induction false} LatestFrom<R>(b: Batch<R>, start: Time, order: seq<int>, p: Played<R>, k: nat)
    requires Offsets(b, order) && Forward(b) && forall j :: b.around.late(j) == 0
    requires p == Play(b, 0, start, start, order) && k < |p.log|
    ensures LatestOf(b, start, p.log, k, p.log[k].at)
  {
    hide Play;
    NeverEarly(b, start, order, p, k);
    DispatchTimes(b, 0, start, start, order, p, k);
    if k == 0 {
      assert p.log[0].at == ReadyAfter(b, start, p.log, 0, 0) || p.log[0].at == ReadyAtOnce(b, start, p.log, 0);
    } else {
      LatestFrom(b, start, order, p, k - 1);
      DispatchTimes(b, 0, start, start, order, p, k - 1);
      LatestStep(b, start, p.log, k);
    }
  }

  lemma LatestStep<R>(b: Batch<R>, start: Time, log: seq<Dispatch>, k: nat)
    requires 0 < k < |log| && LatestOf(b, start, log, k - 1, log[k - 1].at)
    requires var free := log[k - 1].done + b.around.drift(k); var sendAt := SendAt(b, log[k].index);
             free >= start && log[k].at == Max(start + Max(sendAt, 0), free)
    ensures LatestOf(b, start, log, k, log[k].at)
  {
    var spent := log[k - 1].done - log[k - 1].at + b.around.drift(k);
    forall j | 0 <= j <= k
      ensures log[k].at >= ReadyAfter(b, start, log, j, k)
      ensures j < k ==> ReadyAfter(b, start, log, j, k) == ReadyAfter(b, start, log, j, k - 1) + spent
    {
      if j < k { assert log[k - 1].at >= ReadyAfter(b, start, log, j, k - 1); }
    }
    if IsOneOf(b, start, log, k - 1, log[k - 1].at) {
      var j :| 0 <= j <= k - 1 && log[k - 1].at == ReadyAfter(b, start, log, j, k - 1);
      assert log[k].at == ReadyAfter(b, start, log, j, k) || log[k].at == ReadyAfter(b, start, log, k, k);
    } else {
      assert log[k].at == ReadyAtOnce(b, start, log, k) || log[k].at == ReadyAfter(b, start, log, k, k);
    }
  }

  /** Cancellation only ever ends a wait for an offset that has not come. */
  lemma {:induction false} CancelledWhileWaiting<R>(b: Batch<R>, k: nat, start: Time, now: Time, order: seq<int>,
                                                    p: Played<R>)
    requires Offsets(b, order) && p == Play(b, k, start, now, order) && p.stop == Cancelled
    ensures var n := |p.log|; n < |order| && b.around.ctx(k + n).Some?
    ensures var n := |p.log|; var sendAt, free := SendAt(b, order[n]), Free(b, p.log, k, now, n);
            && sendAt > 0 && start + sendAt - MAX_DURATION <= free < start + sendAt
            && p.end == Max(b.around.ctx(k + n).value, free) <= start + sendAt + b.around.late(k + n)
    decreases |order|
  {
    hide Play, Wait;
    if p.log == [] {
      CancelledAtOnce(b, k, start, now, order, p);
    } else {
      var d, rest := PlayOpens(b, k, start, now, order, p);
      CancelledWhileWaiting(b, k + 1, start, d.done, order[1..], rest);
    }
  }

  lemma CancelledAtOnce<R>(b: Batch<R>, k: nat, start: Time, now: Time, order: seq<int>, p: Played<R>)
    requires Offsets(b, order) && p == Play(b, k, start, now, order) && p.stop == Cancelled && p.log == []
    ensures order != [] && b.around.ctx(k).Some?
    ensures var sendAt, here := SendAt(b, order[0]), Reading(b, k, now);
            && sendAt > 0 && start + sendAt - MAX_DURATION <= here < start + sendAt
            && p.end == Max(b.around.ctx(k).value, here) <= start + sendAt + b.around.late(k)
  {
    PauseIsWait(b, k, order[0], start, Reading(b, k, now));
  }

  // ----- where the results go -----

  function Fill<R>(n: nat, r: R): (s: seq<R>)
    ensures |s| == n && forall i :: 0 <= i < n ==> s[i] == r
  {
    seq(n, _ => r)
  }

  /** The results written back to their input positions. */
  function Scatter<R>(log: seq<Dispatch>, results: seq<R>, base: seq<R>): (r: seq<R>)
    requires |log| == |results|
    ensures |r| == |base|
  {
    if log == [] then base
    else
      var n := |log| - 1;
      var front := Scatter(log[..n], results[..n], base);
      if log[n].index < |base| then front[log[n].index := results[n]] else front
  }

  lemma ScatterOneMore<R>(log: seq<Dispatch>, results: seq<R>, base: seq<R>, d: Dispatch, r: R)
    requires |log| == |results| && d.index < |base|
    ensures Scatter(log + [d], results + [r], base) == Scatter(log, results, base)[d.index := r]
  {
    assert (log + [d])[..|log|] == log && (results + [r])[..|log|] == results;
  }

  /** A loop that has got through `k` deliveries and written each result to its slot. */
  ghost predicate Scattering<R>(p: Played<R>, log: seq<Dispatch>, results: seq<R>, b: Batch<R>, k: nat,
                                start: Time, now: Time, order: seq<int>, base: seq<R>, slots: seq<R>)
  {
    Resumes(p, log, results, b, k, start, now, order) && slots == Scatter(log, results, base)
  }

  lemma ScatteringAtFirst<R>(b: Batch<R>, start: Time, order: seq<int>, base: seq<R>)
    ensures Scattering(Play(b, 0, start, start, order), [], [], b, 0, start, start, order, base, base)
  {
    ResumesAtFirst(b, start, order);
  }

  lemma ScatteringAfter<R>(p: Played<R>, log: seq<Dispatch>, results: seq<R>, b: Batch<R>, k: nat, start: Time,
                           now: Time, order: seq<int>, base: seq<R>, slots: seq<R>, i: nat, at: Time, done: Time, r: R)
    requires Scattering(p, log, results, b, k, start, now, order, base, slots)
    requires k < |order| && order[k] == i && i < b.count && i < |base|
    requires Wait(b, k, i, start, Reading(b, k, now)) == Some(at)
    requires b.run(k, i, at) == Ran(done - at, r, true)
    ensures Scattering(p, log + [Dispatch(i, at, done)], results + [r], b, k + 1, start, done, order, base,
                       slots[i := r])
  {
    hide Play, Wait, Scatter;
    ResumesAfter(p, log, results, b, k, start, now, order, i, at, done, r, true);
    ScatterOneMore(log, results, base, Dispatch(i, at, done), r);
  }

  predicate Once(s: seq<int>) {
    forall j, k :: 0 <= j < k < |s| ==> s[j] != s[k]
  }

  /** Each delivery fills its own slot and no other slot changes. */
  lemma {:induction false} ScatterExact<R>(log: seq<Dispatch>, results: seq<R>, base: seq<R>)
    requires |log| == |results| && forall k :: 0 <= k < |log| ==> log[k].index < |base|
    requires Once(Indices(log))
    ensures forall k :: 0 <= k < |log| ==> Scatter(log, results, base)[log[k].index] == results[k]
    ensures forall i :: 0 <= i < |base| && i !in Indices(log) ==> Scatter(log, results, base)[i] == base[i]
  {
    if log != [] {
      var n := |log| - 1;
      ScatterExact(log[..n], results[..n], base);
      assert Indices(log) == Indices(log[..n]) + [log[n].index];
      forall k | 0 <= k < n
        ensures log[k].index != log[n].index
      {
        assert Indices(log)[k] != Indices(log)[n];
      }
    }
  }

  // ----- two loops, one schedule -----

  ghost predicate RunAlike<R, S>(a: Batch<R>, b: Batch<S>) {
    && a.count == b.count && a.policy == b.policy && a.around == b.around
    && forall k, i, t ::
         a.run(k, i, t).ok && b.run(k, i, t).ok && a.run(k, i, t).spent == b.run(k, i, t).spent
  }

  lemma SameWait<R, S>(a: Batch<R>, b: Batch<S>, k: nat, i: int, start: Time, now: Time)
    requires a.policy == b.policy && a.around == b.around
    ensures Wait(a, k, i, start, now) == Wait(b, k, i, start, now)
  {
  }

  lemma {:induction false} SameDispatches<R, S>(a: Batch<R>, b: Batch<S>, k: nat, start: Time, now: Time,
                                                order: seq<int>, p: Played<R>, q: Played<S>)
    requires RunAlike(a, b) && p == Play(a, k, start, now, order) && q == Play(b, k, start, now, order)
    ensures p.log == q.log && p.stop == q.stop && p.end == q.end && p.stop != Failed
    decreases |order|
  {
    hide Wait;
    if order != [] {
      var i, w := order[0], Wait(a, k, order[0], start, Reading(a, k, now));
      SameWait(a, b, k, i, start, Reading(a, k, now));
      if w.Some? && 0 <= i < a.count {
        assert a.run(k, i, w.value).spent == b.run(k, i, w.value).spent;
        var done := w.value + a.run(k, i, w.value).spent;
        SameDispatches(a, b, k + 1, start, done, order[1..],
                       Play(a, k + 1, start, done, order[1..]), Play(b, k + 1, start, done, order[1..]));
      }
    }
  }

  // ----- the order -----

  /** Sorted by send time, input order deciding between equal times. */
  ghost predicate InSendOrder(sendAt: seq<Duration>, order: seq<nat>) {
    && IsPermutation(order, |sendAt|)
    && forall i, j :: 0 <= i < j < |order| ==>
         sendAt[order[i]] < sendAt[order[j]] || (sendAt[order[i]] == sendAt[order[j]] && order[i] < order[j])
  }

  lemma SendOrderUnique(sendAt: seq<Duration>, p: seq<nat>, q: seq<nat>)
    requires InSendOrder(sendAt, p) && InSendOrder(sendAt, q)
    ensures p == q
  {
    StableOrderUnique(sendAt, p, q, (a: Duration, b: Duration) => a < b);
  }
}
