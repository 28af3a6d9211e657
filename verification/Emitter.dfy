// emitter.sendBatch: many webhooks, in the order and at the times they ask for.
module Emitter {
  import opened Objects
  import opened Sorting
  import opened Delivery
  import opened Schedule

  datatype Entry = Entry(origIdx: nat, d: Delivery)

  function SendTimes(ds: seq<Delivery>): (r: seq<Duration>)
    ensures |r| == |ds| && forall i :: 0 <= i < |ds| ==> r[i] == ds[i].sendAt
  {
    seq(|ds|, i requires 0 <= i < |ds| => ds[i].sendAt)
  }

  /** The batch as the shared loop sees it: a delivery that fails after its retries does not stop it. */
  function Sending(c: Config, ds: seq<Delivery>, nets: nat -> Net, a: Around): Batch<SendResult>
  {
    Batch(|ds|, ByOffset(SendTimes(ds)), a,
          (k: nat, i: nat, t: Time) =>
            if i < |ds| then var s := Send(c, ds[i], nets(i), t); Ran(s.done - t, s.result, true)
            else Ran(0, ZERO_RESULT, true))
  }

  method SortedEntries(ds: seq<Delivery>) returns (ordered: seq<Entry>, ghost order: seq<nat>)
    ensures |ordered| == |order| == |ds| && InSendOrder(SendTimes(ds), order)
    ensures forall k :: 0 <= k < |ds| ==> order[k] < |ds| && ordered[k] == Entry(order[k], ds[order[k]])
  {
    var entries := seq(|ds|, i requires 0 <= i < |ds| => Entry(i, ds[i]));
    ordered, order := StableSort(entries, (a: Entry, b: Entry) => a.d.sendAt < b.d.sendAt);
  }

  method SendInto(results: array<SendResult>, ent: Entry, c: Config, net: Net, at: Time)
    returns (r: SendResult, done: Time)
    requires ent.origIdx < results.Length
    modifies results
    ensures r == Send(c, ent.d, net, at).result && done == Send(c, ent.d, net, at).done
    ensures results[..] == old(results[..])[ent.origIdx := r]
  {
    var e, sends;
    r, e, sends, done := SendWithRetry(c, ent.d, net, at);
    results[ent.origIdx] := r;
  }

  method SendBatch(c: Config, ds: seq<Delivery>, nets: nat -> Net, a: Around, start: Time)
    returns (results: array<SendResult>, err: Option<SendError>, now: Time, ghost order: seq<nat>)
    ensures InSendOrder(SendTimes(ds), order) && fresh(results)
    ensures var p := Play(Sending(c, ds, nets, a), 0, start, start, order);
            && results[..] == Scatter(p.log, p.results, Fill(|ds|, ZERO_RESULT)) && now == p.end
            && err == if p.stop == Finished then None else Some(ContextDone)
  {
    var ordered;
    ordered, order := SortedEntries(ds);
    results := new SendResult[|ds|](_ => ZERO_RESULT);
    err, now := SendInOrder(c, ds, nets, a, start, ordered, order, results);
  }

  /** The loop over the sorted entries. */
  method SendInOrder(c: Config, ghost ds: seq<Delivery>, nets: nat -> Net, a: Around, start: Time,
                     ordered: seq<Entry>, ghost order: seq<nat>, results: array<SendResult>)
    returns (err: Option<SendError>, now: Time)
    requires |ordered| == |order| && results[..] == Fill(|ds|, ZERO_RESULT)
    requires forall k :: 0 <= k < |order| ==> order[k] < |ds| && ordered[k] == Entry(order[k], ds[order[k]])
    modifies results
    ensures var p := Play(Sending(c, ds, nets, a), 0, start, start, order);
            && results[..] == Scatter(p.log, p.results, Fill(|ds|, ZERO_RESULT)) && now == p.end
            && err == if p.stop == Finished then None else Some(ContextDone)
  {
    hide Play, Scatter, Wait;
    now, err := start, None;
    ghost var b := Sending(c, ds, nets, a);
    ghost var p, zeros := Play(b, 0, start, start, order), Fill(|ds|, ZERO_RESULT);
    ghost var log: seq<Dispatch>, sent: seq<SendResult> := [], [];
    ScatteringAtFirst(b, start, order, zeros);
    for k := 0 to |ordered|
      invariant Scattering(p, log, sent, b, k, start, now, order, zeros, results[..])
    {
      var ent := ordered[k];
      ghost var before, slots := now, results[..];
      now := now + a.drift(k);
      PauseIsWait(b, k, order[k], start, now);
      var fired;
      fired, now := Pause(ent.d.sendAt, start, now, a.ctx(k), a.late(k), a.timerFirst(k));
      if !fired {
        ResumesAtEnd(p, log, sent, b, k, start, before, order);
        return Some(ContextDone), now;
      }
      var at := now;
      var r;
      r, now := SendInto(results, ent, c, nets(ent.origIdx), at);
      ScatteringAfter(p, log, sent, b, k, start, before, order, zeros, slots, ent.origIdx, at, now, r);
      log, sent := log + [Dispatch(ent.origIdx, at, now)], sent + [r];
    }
    ResumesAtEnd(p, log, sent, b, |ordered|, start, now, order);
  }

  /**
   * What a batch amounts to: the deliveries made are a prefix of the send order, exactly their slots are
   * filled, each with its own result, and all are made unless the context ended during a wait.
   */
  lemma BatchOutcome(c: Config, ds: seq<Delivery>, nets: nat -> Net, a: Around, start: Time, order: seq<nat>,
                     p: Played<SendResult>)
    requires InSendOrder(SendTimes(ds), order)
    requires p == Play(Sending(c, ds, nets, a), 0, start, start, order)
    ensures var n := |p.log|;
            n <= |ds| && (p.stop == Finished <==> n == |ds|) && p.stop in {Finished, Cancelled}
    ensures forall k :: 0 <= k < |p.log| ==> order[k] < |ds| && SentAt(c, ds, nets, a, start, order[k], p, k)
    ensures forall i :: 0 <= i < |ds| && i !in order[..|p.log|] ==>
              Scatter(p.log, p.results, Fill(|ds|, ZERO_RESULT))[i] == ZERO_RESULT
  {
    hide Play, Send, Scatter;
    var b := Sending(c, ds, nets, a);
    FollowsOrder(b, 0, start, start, order, p);
    NeverFails(b, 0, start, start, order, p);
    assert Indices(p.log) == order[..|p.log|];
    ScatterExact(p.log, p.results, Fill(|ds|, ZERO_RESULT));
    forall k | 0 <= k < |p.log|
      ensures order[k] < |ds| && SentAt(c, ds, nets, a, start, order[k], p, k)
    {
      assert Scatter(p.log, p.results, Fill(|ds|, ZERO_RESULT))[p.log[k].index] == p.results[k];
      DispatchTimes(b, 0, start, start, order, p, k);
      if Forward(b) { NeverEarly(b, start, order, p, k); }
    }
  }

  /**
   * Delivery `i` went out `k`-th, at its offset with its timer's lateness if it had to wait and otherwise at once,
   * and its result is in its own slot. It went out early only if the timer did, or the clock was set back so far
   * that 64 bits cannot hold the rest; a clock that only moves forward rules that out.
   */
  ghost predicate SentAt(c: Config, ds: seq<Delivery>, nets: nat -> Net, a: Around, start: Time, i: nat,
                         p: Played<SendResult>, k: nat)
    requires i < |ds| && k < |p.log| == |p.results|
  {
    var at, free, sendAt := p.log[k].at, Free(Sending(c, ds, nets, a), p.log, 0, start, k), ds[i].sendAt;
    && p.log[k].index == i
    && at == (if Waits(sendAt, start, free) then start + sendAt + a.late(k) else free)
    && (sendAt > 0 ==>
          (at >= start + sendAt <==> free >= start + sendAt || (InRange(sendAt, start, free) && a.late(k) >= 0)))
    && (Forward(Sending(c, ds, nets, a)) ==> at >= start + sendAt && at >= free)
    && Scatter(p.log, p.results, Fill(|ds|, ZERO_RESULT))[i] == Send(c, ds[i], nets(i), at).result
  }

  /** The context ends the wait before delivery `i`, the `k`-th. */
  ghost predicate CutAt(c: Config, ds: seq<Delivery>, nets: nat -> Net, a: Around, start: Time, i: nat,
                        p: Played<SendResult>, k: nat)
    requires i < |ds| && k <= |p.log|
  {
    OffsetCut(a, k, ds[i].sendAt, start, Free(Sending(c, ds, nets, a), p.log, 0, start, k))
  }

  /**
   * A batch is cancelled exactly at the first wait the context cuts short, when that ends, with what went out
   * before; without one it is finished.
   */
  lemma BatchCutIff(c: Config, ds: seq<Delivery>, nets: nat -> Net, a: Around, start: Time, order: seq<nat>,
                    p: Played<SendResult>, k: nat)
    requires InSendOrder(SendTimes(ds), order) && p == Play(Sending(c, ds, nets, a), 0, start, start, order)
    requires k < |ds| && k <= |p.log|
    ensures order[k] < |ds| && (k == |p.log| <==> CutAt(c, ds, nets, a, start, order[k], p, k))
    ensures k == |p.log| ==>
              var free := Free(Sending(c, ds, nets, a), p.log, 0, start, k);
              p.stop == Cancelled && a.ctx(k).Some? && p.end == if a.ctx(k).value < free then free else a.ctx(k).value
  {
    hide Play, Send;
    assert order[k] in order;
    NeverFails(Sending(c, ds, nets, a), 0, start, start, order, p);
    DeliveredIff(Sending(c, ds, nets, a), 0, start, start, order, p, k);
  }

  /** When the clock only moves forward in a batch. */
  lemma BatchForward(c: Config, ds: seq<Delivery>, nets: nat -> Net, a: Around)
    requires (forall k :: a.drift(k) >= 0) && (forall k :: a.late(k) >= 0)
    requires forall i :: 0 <= i < |ds| ==> TakesTime(nets(i))
    ensures Forward(Sending(c, ds, nets, a))
  {
    forall i, t | 0 <= i < |ds|
      ensures Send(c, ds[i], nets(i), t).done >= t
    {
      if nets(i).built { DoneLater(c, ds[i], nets(i), 0, c.retryWait, t, ZERO_RESULT); }
    }
  }
}
