// The webhook loops of scenario.RunMixed and scenario.RunPushN.
module Firing {
  import opened Objects
  import opened Sorting
  import opened Delivery
  import opened Schedule
  import opened Emitter

  datatype WebhookResult = WebhookResult(status: int, body: Content, err: Option<string>)

  const ZERO_WEBHOOK := WebhookResult(0, [], None)

  /** FireFunc: posting the webhook of one SHA, by the call's position among the calls and its time. */
  type Fire = (nat, Sha, Time) -> Ran<WebhookResult>

  /** time.Duration(ms) * time.Millisecond, in 64 bits. */
  function Millis(ms: int): Duration {
    Wrap64(ms * 1_000_000)
  }

  /** The conversion is exact for |ms| up to 9223372036854 and for nothing else. */
  lemma MillisExactIff(ms: int)
    ensures Millis(ms) == ms * 1_000_000 <==> -9_223_372_036_854 <= ms <= 9_223_372_036_854
  {
  }

  /** The loop over the commits `shas` as the shared schedule sees it. */
  function Firings(fire: Fire, shas: seq<Sha>, policy: Policy, a: Around): Batch<WebhookResult> {
    Batch(|shas|, policy, a,
          (k: nat, i: nat, t: Time) => if i < |shas| then fire(k, shas[i], t) else Ran(0, ZERO_WEBHOOK, true))
  }

  datatype Job = Job(origIdx: nat, sha: Sha, sendAt: Duration)

  method SortedJobs(shas: seq<Sha>, sendAt: seq<Duration>) returns (jobs: seq<Job>, ghost order: seq<nat>)
    requires |shas| == |sendAt|
    ensures |jobs| == |order| == |shas| && InSendOrder(sendAt, order)
    ensures forall k :: 0 <= k < |shas| ==>
              order[k] < |shas| && jobs[k] == Job(order[k], shas[order[k]], sendAt[order[k]])
  {
    var all := seq(|shas|, i requires 0 <= i < |shas| => Job(i, shas[i], sendAt[i]));
    jobs, order := StableSort(all, (a: Job, b: Job) => a.sendAt < b.sendAt);
  }

  /** RunMixed's loop: a failing webhook or the context ends it. */
  method FireInOrder(fire: Fire, ghost shas: seq<Sha>, ghost sendAt: seq<Duration>, a: Around, start: Time,
                     jobs: seq<Job>, ghost order: seq<nat>, results: array<WebhookResult>)
    returns (stop: Stop, now: Time)
    requires |jobs| == |order| && |shas| == |sendAt| && results[..] == Fill(|shas|, ZERO_WEBHOOK)
    requires forall k :: 0 <= k < |order| ==>
               order[k] < |shas| && jobs[k] == Job(order[k], shas[order[k]], sendAt[order[k]])
    modifies results
    ensures var p := Play(Firings(fire, shas, ByOffset(sendAt), a), 0, start, start, order);
            && stop == p.stop && now == p.end
            && (stop == Finished ==> results[..] == Scatter(p.log, p.results, Fill(|shas|, ZERO_WEBHOOK)))
  {
    hide Play, Scatter, Wait;
    now := start;
    ghost var b := Firings(fire, shas, ByOffset(sendAt), a);
    ghost var p, zeros := Play(b, 0, start, start, order), Fill(|shas|, ZERO_WEBHOOK);
    ghost var log: seq<Dispatch>, sent: seq<WebhookResult> := [], [];
    ScatteringAtFirst(b, start, order, zeros);
    for k := 0 to |jobs|
      invariant Scattering(p, log, sent, b, k, start, now, order, zeros, results[..])
    {
      var j := jobs[k];
      ghost var before, slots := now, results[..];
      now := now + a.drift(k);
      PauseIsWait(b, k, order[k], start, now);
      var fired;
      fired, now := Pause(j.sendAt, start, now, a.ctx(k), a.late(k), a.timerFirst(k));
      if !fired {
        ResumesAtEnd(p, log, sent, b, k, start, before, order);
        return Cancelled, now;
      }
      ghost var at := now;
      var ran := fire(k, j.sha, now);
      now := now + ran.spent;
      if !ran.ok {
        ResumesAfter(p, log, sent, b, k, start, before, order, j.origIdx, at, now, ran.result, false);
        return Failed, now;
      }
      results[j.origIdx] := ran.result;
      ScatteringAfter(p, log, sent, b, k, start, before, order, zeros, slots, j.origIdx, at, now, ran.result);
      log, sent := log + [Dispatch(j.origIdx, at, now)], sent + [ran.result];
    }
    ResumesAtEnd(p, log, sent, b, |jobs|, start, now, order);
    stop := Finished;
  }

  /** RunPushN's gap policy. */
  function Gap(gapMs: int): Policy {
    ByGap(Millis(gapMs), gapMs > 0)
  }

  /** RunPushN's loop; an index outside the commits, possible with a custom order, panics. */
  method FireByGap(fire: Fire, shas: seq<Sha>, gapMs: int, a: Around, start: Time, order: array<int>,
                   responses: array<WebhookResult>)
    returns (stop: Stop, now: Time)
    requires order.Length == responses.Length == |shas|
    modifies responses
    ensures var p := Play(Firings(fire, shas, Gap(gapMs), a), 0, start, start, order[..]);
            && stop == p.stop && now == p.end && (stop == Finished ==> responses[..] == p.results)
  {
    now := start;
    ghost var b, ord := Firings(fire, shas, Gap(gapMs), a), order[..];
    ghost var p := Play(b, 0, start, start, ord);
    ghost var log: seq<Dispatch>, sent: seq<WebhookResult> := [], [];
    ResumesAtFirst(b, start, ord);
    for i := 0 to order.Length
      invariant Resumes(p, log, sent, b, i, start, now, ord) && responses[..i] == sent
    {
      var idx := order[i];
      ghost var before := now;
      now := now + a.drift(i);
      if i > 0 && gapMs > 0 {
        var timer := FiresAt(now, Millis(gapMs), a.late(i));
        if !TimerWins(now, timer, a.ctx(i), a.timerFirst(i)) {
          now := Max(a.ctx(i).value, now);
          ResumesAtEnd(p, log, sent, b, i, start, before, ord);
          return Cancelled, now;
        }
        now := timer;
      }
      if !(0 <= idx < |shas|) {
        ResumesAtEnd(p, log, sent, b, i, start, before, ord);
        return Panicked, now;
      }
      ghost var at := now;
      var ran := fire(i, shas[idx], now);
      now := now + ran.spent;
      ResumesAfter(p, log, sent, b, i, start, before, ord, idx, at, now, ran.result, ran.ok);
      if !ran.ok { return Failed, now; }
      responses[i] := ran.result;
      log, sent := log + [Dispatch(idx, at, now)], sent + [ran.result];
    }
    ResumesAtEnd(p, log, sent, b, order.Length, start, now, ord);
    assert responses[..] == sent;
    stop := Finished;
  }

  // ----- what the loops amount to -----

  /**
   * One schedule, two implementations: on equal send times and equally long deliveries that all
   * succeed, sendBatch and RunMixed make the same dispatches at the same times.
   */
  lemma OneSchedule(c: Config, ds: seq<Delivery>, nets: nat -> Net, fire: Fire, shas: seq<Sha>, a: Around, start: Time,
                    order: seq<nat>, order': seq<nat>)
    requires |ds| == |shas| && InSendOrder(SendTimes(ds), order) && InSendOrder(SendTimes(ds), order')
    requires forall k, i: nat, t :: i < |ds| ==>
               fire(k, shas[i], t).ok && fire(k, shas[i], t).spent == Send(c, ds[i], nets(i), t).done - t
    ensures order == order'
    ensures var p := Play(Sending(c, ds, nets, a), 0, start, start, order);
            var q := Play(Firings(fire, shas, ByOffset(SendTimes(ds)), a), 0, start, start, order');
            p.log == q.log && p.stop == q.stop && p.end == q.end
  {
    SendOrderUnique(SendTimes(ds), order, order');
    var b, b' := Sending(c, ds, nets, a), Firings(fire, shas, ByOffset(SendTimes(ds)), a);
    SameDispatches(b, b', 0, start, start, order, Play(b, 0, start, start, order), Play(b', 0, start, start, order));
  }

  /** Successive webhooks of RunPushN: one after another with the gap between them. */
  lemma {:induction false} GapTimes(fire: Fire, shas: seq<Sha>, gapMs: int, a: Around, start: Time, k: nat, now: Time,
                                    order: seq<int>, p: Played<WebhookResult>, j: nat)
    requires p == Play(Firings(fire, shas, Gap(gapMs), a), k, start, now, order) && j < |p.log|
    ensures var d := p.log[j]; var free := Free(Firings(fire, shas, Gap(gapMs), a), p.log, k, now, j);
            && j < |order| && d.index == order[j] && d.index < |shas|
            && d.at == (if k + j > 0 && gapMs > 0 then FiresAt(free, Millis(gapMs), a.late(k + j)) else free)
            && p.results[j] == fire(k + j, shas[d.index], d.at).result
            && d.done == d.at + fire(k + j, shas[d.index], d.at).spent
    decreases |order|
  {
    hide Play;
    var d, rest := PlayOpens(Firings(fire, shas, Gap(gapMs), a), k, start, now, order, p);
    if j > 0 { GapTimes(fire, shas, gapMs, a, start, k + 1, d.done, order[1..], rest, j - 1); }
  }

  /** The context ends the gap before position `k`, entered when the clock read `now`. */
  ghost predicate GapCut(a: Around, k: nat, gapMs: int, now: Time) {
    k > 0 && gapMs > 0
    && CutShort(a.ctx(k), now, now + (if Millis(gapMs) > 0 then Millis(gapMs) else 0) + a.late(k), a.timerFirst(k))
  }

  /**
   * A webhook of RunPushN that the loop comes to goes out exactly when no context cuts the gap short and the commit
   * exists; otherwise the loop is cancelled there, or panics.
   */
  lemma GapDeliveredIff(fire: Fire, shas: seq<Sha>, gapMs: int, a: Around, start: Time, order: seq<int>,
                        p: Played<WebhookResult>, j: nat)
    requires p == Play(Firings(fire, shas, Gap(gapMs), a), 0, start, start, order)
    requires j <= |p.log| && j < |order| && (p.stop == Failed ==> j < |p.log|)
    ensures var free := Free(Firings(fire, shas, Gap(gapMs), a), p.log, 0, start, j);
            && (j < |p.log| <==> !GapCut(a, j, gapMs, free) && 0 <= order[j] < |shas|)
            && (j == |p.log| ==>
                  if GapCut(a, j, gapMs, free) then
                    p.stop == Cancelled && p.end == if a.ctx(j).value < free then free else a.ctx(j).value
                  else p.stop == Panicked)
  {
    hide Play;
    Reached(Firings(fire, shas, Gap(gapMs), a), 0, start, start, order, p, j);
  }
}
