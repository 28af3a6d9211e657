// emitter.sendWithRetry: one webhook, bounded attempts and doubling backoff.
module Delivery {
  import opened Objects

  const MAX_DURATION := 0x7fff_ffff_ffff_ffff

  /** int64 arithmetic, as time.Duration wraps. */
  function Wrap64(x: int): (r: int)
    ensures -MAX_DURATION - 1 <= r <= MAX_DURATION && (r - x) % 0x1_0000_0000_0000_0000 == 0
  {
    (x + 0x8000_0000_0000_0000) % 0x1_0000_0000_0000_0000 - 0x8000_0000_0000_0000
  }

  function Pow2(n: nat): nat {
    if n == 0 then 1 else 2 * Pow2(n - 1)
  }

  function Max(a: int, b: int): int { if a < b then b else a }

  type Duration = x: int | -MAX_DURATION - 1 <= x <= MAX_DURATION

  datatype Delivery = Delivery(payload: string, sendAt: Duration)

  datatype SendError = BuildError | RequestError | NetworkError | ContextDone

  /** None as delivery is Go's zero Result. */
  datatype SendResult = SendResult(delivery: Option<Delivery>, status: int, body: Content, err: Option<SendError>)

  const ZERO_RESULT := SendResult(None, 0, [], None)

  datatype Reply = NoResponse | Response(status: int, body: Content)

  /** What the surroundings do to one delivery: per attempt, and at the wait before it. */
  datatype Net = Net(
    built: bool,                 // BuildWebhook succeeds
    requestOk: nat -> bool,      // the request can be formed
    reply: nat -> Reply,         // what the client gets
    latency: nat -> int,         // how far the clock moves meanwhile, back if it is set back
    late: nat -> int,            // how late the backoff timer fires, or how early
    timerFirst: nat -> bool,     // which way select goes when both channels are ready
    ctx: Option<Time>)           // when the context ends, if it does

  datatype Config = Config(maxRetries: int, retryWait: int)

  // ----- waiting for a timer or the context -----

  function FiresAt(now: Time, wait: int, late: int): Time {
    now + Max(wait, 0) + late
  }

  /** Whether select takes the timer, ready at `fire`, over a context done at `ctx`. */
  predicate TimerWins(now: Time, fire: Time, ctx: Option<Time>, timerFirst: bool) {
    ctx.None? || fire < Max(ctx.value, now) || (fire == Max(ctx.value, now) && timerFirst)
  }

  // ----- the attempts as a function -----

  /** Times of the requests sent, the time of return, and what is returned. */
  datatype Trace = Trace(sent: seq<Time>, done: Time, result: SendResult, err: Option<SendError>)

  function WithSent(at: Time, t: Trace): Trace {
    t.(sent := [at] + t.sent)
  }

  function GaveUp(d: Delivery, now: Time, e: SendError): Trace {
    Trace([], now, SendResult(Some(d), 0, [], Some(e)), Some(e))
  }

  function Outcome(d: Delivery, r: Reply): SendResult {
    match r
    case NoResponse => SendResult(Some(d), 0, [], Some(NetworkError))
    case Response(status, body) => SendResult(Some(d), status, body, None)
  }

  predicate Final(r: Reply) {
    r.Response? && r.status < 500
  }

  /** From attempt `m` on, with backoff `wait` before it and `last` as the result so far. */
  function Attempts(c: Config, d: Delivery, net: Net, m: nat, wait: int, now: Time, last: SendResult)
    : Trace
    decreases c.maxRetries + 1 - m
  {
    if m > c.maxRetries then Trace([], now, last, last.err)
    else
      var at := if m == 0 then now else FiresAt(now, wait, net.late(m));
      if m > 0 && !TimerWins(now, at, net.ctx, net.timerFirst(m)) then GaveUp(d, Max(net.ctx.value, now), ContextDone)
      else if !net.requestOk(m) then GaveUp(d, at, RequestError)
      else
        var r, done := net.reply(m), at + net.latency(m);
        if Final(r) then Trace([at], done, Outcome(d, r), None)
        else WithSent(at, Attempts(c, d, net, m + 1, if m == 0 then wait else Wrap64(wait * 2), done, Outcome(d, r)))
  }

  function Send(c: Config, d: Delivery, net: Net, now: Time): Trace {
    if !net.built then GaveUp(d, now, BuildError)
    else Attempts(c, d, net, 0, c.retryWait, now, ZERO_RESULT)
  }

  /** sendWithRetry's loop computes that trace. */
  method SendWithRetry(c: Config, d: Delivery, net: Net, start: Time)
    returns (result: SendResult, err: Option<SendError>, sent: seq<Time>, now: Time)
    ensures Trace(sent, now, result, err) == Send(c, d, net, start)
  {
    now, sent := start, [];
    if !net.built { return SendResult(Some(d), 0, [], Some(BuildError)), Some(BuildError), sent, now; }
    var wait := c.retryWait;
    var last := ZERO_RESULT;
    var attempt := 0;
    ghost var all := Send(c, d, net, start);
    while attempt <= c.maxRetries
      invariant attempt >= 0
      invariant var rest := Attempts(c, d, net, attempt, wait, now, last); all == rest.(sent := sent + rest.sent)
      decreases c.maxRetries + 1 - attempt
    {
      if attempt > 0 {
        var fire := FiresAt(now, wait, net.late(attempt));
        if !TimerWins(now, fire, net.ctx, net.timerFirst(attempt)) {
          now := Max(net.ctx.value, now);
          assert sent + [] == sent;
          return SendResult(Some(d), 0, [], Some(ContextDone)), Some(ContextDone), sent, now;
        }
        now := fire;
      }
      if !net.requestOk(attempt) {
        assert sent + [] == sent;
        return SendResult(Some(d), 0, [], Some(RequestError)), Some(RequestError), sent, now;
      }
      ghost var before, at := sent, now;
      sent := sent + [now];
      now := now + net.latency(attempt);
      last := Outcome(d, net.reply(attempt));
      if Final(net.reply(attempt)) { return last, None, sent, now; }
      wait := if attempt > 0 then Wrap64(wait * 2) else wait;
      attempt := attempt + 1;
      ghost var rest := Attempts(c, d, net, attempt, wait, now, last);
      assert before + ([at] + rest.sent) == sent + rest.sent;
    }
    assert sent + [] == sent;
    return last, last.err, sent, now;
  }

  /** Nothing that happens to one delivery turns the clock back or fires a timer early. */
  ghost predicate TakesTime(net: Net) {
    (forall m :: net.latency(m) >= 0) && (forall m :: net.late(m) >= 0)
  }

  /** Then the whole of it takes time too. */
  lemma {:induction false} DoneLater(c: Config, d: Delivery, net: Net, m: nat, wait: int, now: Time, last: SendResult)
    requires TakesTime(net)
    ensures Attempts(c, d, net, m, wait, now, last).done >= now
    decreases c.maxRetries + 1 - m
  {
    if m <= c.maxRetries {
      var at := if m == 0 then now else FiresAt(now, wait, net.late(m));
      DoneLater(c, d, net, m + 1, if m == 0 then wait else Wrap64(wait * 2), at + net.latency(m),
                Outcome(d, net.reply(m)));
    }
  }

  // ----- what is sent and how it ends -----

  /** The context is over, at `now` or later, before the timer fires, or at the same time and select takes it. */
  ghost predicate CutShort(ctx: Option<Time>, now: Time, fire: Time, timerFirst: bool) {
    ctx.Some? && var over := if ctx.value < now then now else ctx.value; over < fire || (over == fire && !timerFirst)
  }

  /** When the loop comes to attempt `i`, having made those before it. */
  function ReadyFor(net: Net, start: Time, sent: seq<Time>, i: nat): Time
    requires i <= |sent|
  {
    if i == 0 then start else sent[i - 1] + net.latency(i - 1)
  }

  /** When its backoff is over. */
  function GoesOutAt(c: Config, net: Net, start: Time, sent: seq<Time>, i: nat): Time
    requires i <= |sent|
  {
    var w := WaitBefore(c.retryWait, i);
    ReadyFor(net, start, sent, i) + if i == 0 then 0 else (if w > 0 then w else 0) + net.late(i)
  }

  /** The context ends the wait before attempt `i`. */
  ghost predicate BackoffCut(c: Config, net: Net, start: Time, sent: seq<Time>, i: nat)
    requires i <= |sent|
  {
    i > 0 && CutShort(net.ctx, ReadyFor(net, start, sent, i), GoesOutAt(c, net, start, sent, i), net.timerFirst(i))
  }

  ghost predicate Answered(r: Reply) {
    r.Response? && r.status < 500
  }

  /** Attempt `i` of those made went out when its backoff was over, uncut, and well formed. */
  ghost predicate WentOut(c: Config, net: Net, start: Time, sent: seq<Time>, i: nat)
    requires i < |sent|
  {
    sent[i] == GoesOutAt(c, net, start, sent, i) && !BackoffCut(c, net, start, sent, i) && net.requestOk(i)
  }

  /** What comes back when the last reply, if any, is `r`: the reply's own status and body, or a network error. */
  ghost predicate Returns(d: Delivery, r: Reply, t: Trace) {
    match r
    case Response(status, body) => t.result == SendResult(Some(d), status, body, None) && t.err == None
    case NoResponse => t.result == SendResult(Some(d), 0, [], Some(NetworkError)) && t.err == Some(NetworkError)
  }

  ghost predicate GivesUp(d: Delivery, e: SendError, at: Time, t: Trace) {
    t.done == at && t.result == SendResult(Some(d), 0, [], Some(e)) && t.err == Some(e)
  }

  /**
   * How the attempts end: at the first that is answered, or when there are none left, with the last reply; else
   * at a backoff the context cuts short, or a request that cannot be formed.
   */
  ghost predicate EndsRight(c: Config, d: Delivery, net: Net, start: Time, t: Trace) {
    var n := |t.sent|; var ready := ReadyFor(net, start, t.sent, n);
    if n > 0 && (Answered(net.reply(n - 1)) || n > c.maxRetries) then Returns(d, net.reply(n - 1), t) && t.done == ready
    else if n > c.maxRetries then t == Trace([], start, ZERO_RESULT, None)
    else if BackoffCut(c, net, start, t.sent, n) then
      GivesUp(d, ContextDone, if net.ctx.value < ready then ready else net.ctx.value, t)
    else !net.requestOk(n) && GivesUp(d, RequestError, GoesOutAt(c, net, start, t.sent, n), t)
  }

  /** Everything about one delivery: which requests go out and when, where it stops, and what it returns. */
  lemma SendExplained(c: Config, d: Delivery, net: Net, start: Time)
    ensures var t := Send(c, d, net, start); var n := |t.sent|;
            if !net.built then n == 0 && GivesUp(d, BuildError, start, t)
            else
              && (n > 0 ==> n <= c.maxRetries + 1)
              && (forall i :: 0 <= i < n ==> WentOut(c, net, start, t.sent, i))
              && (forall i :: 0 <= i < n - 1 ==> !Answered(net.reply(i)))
              && EndsRight(c, d, net, start, t)
  {
    if net.built {
      var t := Attempts(c, d, net, 0, c.retryWait, start, ZERO_RESULT);
      assert t == t.(sent := [] + t.sent);
      AttemptsExplained(c, d, net, start, t, [], c.retryWait, start, ZERO_RESULT);
    }
  }

  /** So far `sent` went out without an answer, and `rest` is what the loop does from then on. */
  ghost predicate Onward(c: Config, d: Delivery, net: Net, start: Time, sent: seq<Time>, wait: int, now: Time,
                         last: SendResult)
  {
    var m := |sent|;
    && wait == WaitBefore(c.retryWait, m) && now == ReadyFor(net, start, sent, m) && (m > 0 ==> m <= c.maxRetries + 1)
    && (forall i :: 0 <= i < m ==> WentOut(c, net, start, sent, i) && !Answered(net.reply(i)))
    && (if m == 0 then last == ZERO_RESULT else Returns(d, net.reply(m - 1), Trace([], now, last, last.err)))
  }

  lemma {:induction false} AttemptsExplained(c: Config, d: Delivery, net: Net, start: Time, t: Trace, sent: seq<Time>,
                                             wait: int, now: Time, last: SendResult)
    requires Onward(c, d, net, start, sent, wait, now, last)
    requires var rest := Attempts(c, d, net, |sent|, wait, now, last); t == rest.(sent := sent + rest.sent)
    ensures var n := |t.sent|;
            && (n > 0 ==> n <= c.maxRetries + 1)
            && (forall i :: 0 <= i < n ==> WentOut(c, net, start, t.sent, i))
            && (forall i :: 0 <= i < n - 1 ==> !Answered(net.reply(i)))
            && EndsRight(c, d, net, start, t)
    decreases c.maxRetries + 1 - |sent|
  {
    hide WaitBefore, Wrap64, GoesOutAt, BackoffCut, TimerWins, FiresAt, WentOut, ReadyFor, EndsRight, Returns;
    var m := |sent|;
    var at := if m == 0 then now else FiresAt(now, wait, net.late(m));
    WaitsThatLong(c, d, net, start, sent, wait, now, last, at);
    if m <= c.maxRetries && !BackoffCut(c, net, start, sent, m) && net.requestOk(m) {
      OneMoreSent(c, net, start, sent, at);
      if Final(net.reply(m)) {
        LastSent(c, d, net, start, t, sent, wait, now, last, at);
      } else {
        var wait', last' := if m == 0 then wait else Wrap64(wait * 2), Outcome(d, net.reply(m));
        Unanswered(c, d, net, start, sent, wait, now, last, at, wait');
        AttemptsExplained(c, d, net, start, t, sent + [at], wait', at + net.latency(m), last');
      }
    } else {
      NoMoreSent(c, d, net, start, t, sent, wait, now, last);
    }
  }

  lemma NoMoreSent(c: Config, d: Delivery, net: Net, start: Time, t: Trace, sent: seq<Time>, wait: int, now: Time,
                   last: SendResult)
    requires Onward(c, d, net, start, sent, wait, now, last)
    requires var rest := Attempts(c, d, net, |sent|, wait, now, last); t == rest.(sent := sent + rest.sent)
    requires |sent| > c.maxRetries || BackoffCut(c, net, start, sent, |sent|) || !net.requestOk(|sent|)
    ensures t.sent == sent && EndsRight(c, d, net, start, t)
  {
    hide WaitBefore, Wrap64, GoesOutAt, BackoffCut, TimerWins, FiresAt, WentOut;
    var at := if |sent| == 0 then now else FiresAt(now, wait, net.late(|sent|));
    WaitsThatLong(c, d, net, start, sent, wait, now, last, at);
    assert sent + [] == sent;
  }

  lemma LastSent(c: Config, d: Delivery, net: Net, start: Time, t: Trace, sent: seq<Time>, wait: int, now: Time,
                 last: SendResult, at: Time)
    requires Onward(c, d, net, start, sent, wait, now, last) && |sent| <= c.maxRetries
    requires var rest := Attempts(c, d, net, |sent|, wait, now, last); t == rest.(sent := sent + rest.sent)
    requires at == if |sent| == 0 then now else FiresAt(now, wait, net.late(|sent|))
    requires !BackoffCut(c, net, start, sent, |sent|) && net.requestOk(|sent|) && Final(net.reply(|sent|))
    ensures t.sent == sent + [at] && EndsRight(c, d, net, start, t)
  {
    hide WaitBefore, Wrap64, GoesOutAt, BackoffCut, TimerWins, FiresAt, WentOut;
    WaitsThatLong(c, d, net, start, sent, wait, now, last, at);
  }

  lemma Unanswered(c: Config, d: Delivery, net: Net, start: Time, sent: seq<Time>, wait: int, now: Time,
                   last: SendResult, at: Time, wait': int)
    requires Onward(c, d, net, start, sent, wait, now, last) && |sent| <= c.maxRetries
    requires forall i :: 0 <= i <= |sent| ==> WentOut(c, net, start, sent + [at], i)
    requires !Final(net.reply(|sent|)) && wait' == if |sent| == 0 then wait else Wrap64(wait * 2)
    ensures Onward(c, d, net, start, sent + [at], wait', at + net.latency(|sent|), Outcome(d, net.reply(|sent|)))
  {
    hide WaitBefore, Wrap64, WentOut;
    DoublesAfter(c.retryWait, |sent|);
  }

  lemma DoublesAfter(retryWait: int, m: nat)
    ensures WaitBefore(retryWait, m + 1)
         == if m == 0 then WaitBefore(retryWait, m) else Wrap64(WaitBefore(retryWait, m) * 2)
  {
  }

  lemma WaitsThatLong(c: Config, d: Delivery, net: Net, start: Time, sent: seq<Time>, wait: int, now: Time,
                      last: SendResult, at: Time)
    requires Onward(c, d, net, start, sent, wait, now, last)
    requires at == if |sent| == 0 then now else FiresAt(now, wait, net.late(|sent|))
    ensures at == GoesOutAt(c, net, start, sent, |sent|) && now == ReadyFor(net, start, sent, |sent|)
    ensures BackoffCut(c, net, start, sent, |sent|)
       <==> |sent| > 0 && !TimerWins(now, at, net.ctx, net.timerFirst(|sent|))
  {
  }

  /** What holds of the attempts made does not change with the next. */
  lemma OneMoreSent(c: Config, net: Net, start: Time, sent: seq<Time>, at: Time)
    requires forall i :: 0 <= i < |sent| ==> WentOut(c, net, start, sent, i)
    requires at == GoesOutAt(c, net, start, sent, |sent|) && !BackoffCut(c, net, start, sent, |sent|)
    requires net.requestOk(|sent|)
    ensures forall i :: 0 <= i <= |sent| ==> WentOut(c, net, start, sent + [at], i)
  {
    hide CutShort, WaitBefore;
    forall i | 0 <= i <= |sent|
      ensures WentOut(c, net, start, sent + [at], i)
    {
      assert ReadyFor(net, start, sent + [at], i) == ReadyFor(net, start, sent, i);
      assert i < |sent| ==> WentOut(c, net, start, sent, i);
    }
  }

  // ----- the bound on retries -----

  /** The wait before attempt `m`, as doubled and wrapped `m - 1` times. */
  function WaitBefore(retryWait: int, m: nat): int {
    if m <= 1 then retryWait else Wrap64(WaitBefore(retryWait, m - 1) * 2)
  }

  /** What holds of the attempts from `m` on, whatever happened before. */
  lemma {:induction false} AttemptsBound(c: Config, d: Delivery, net: Net, m: nat, wait: int, now: Time,
                                         last: SendResult)
    requires m <= c.maxRetries + 1
    ensures var t := Attempts(c, d, net, m, wait, now, last); var n := |t.sent|;
            && n <= c.maxRetries + 1 - m
            && (forall i :: m <= i < m + n - 1 ==> !Final(net.reply(i)))
            && (n > 0 && Final(net.reply(m + n - 1)) ==> t.result == Outcome(d, net.reply(m + n - 1)) && t.err == None)
            && ((forall i :: net.requestOk(i)) && t.err != Some(ContextDone) ==>
                  && (n == c.maxRetries + 1 - m || (n > 0 && Final(net.reply(m + n - 1))))
                  && t.result == (if n > 0 then Outcome(d, net.reply(m + n - 1)) else last) && t.err == t.result.err)
    decreases c.maxRetries + 1 - m
  {
    if m <= c.maxRetries {
      var at := if m == 0 then now else FiresAt(now, wait, net.late(m));
      if (m == 0 || TimerWins(now, at, net.ctx, net.timerFirst(m))) && net.requestOk(m) && !Final(net.reply(m)) {
        var wait', done := if m == 0 then wait else Wrap64(wait * 2), at + net.latency(m);
        AttemptsBound(c, d, net, m + 1, wait', done, Outcome(d, net.reply(m)));
        var rest := Attempts(c, d, net, m + 1, wait', done, Outcome(d, net.reply(m)));
        assert Attempts(c, d, net, m, wait, now, last) == WithSent(at, rest);
      }
    }
  }

  /** At most MaxRetries + 1 requests, stopping at the first status below 500; none at all when MaxRetries < 0. */
  lemma RetryBound(c: Config, d: Delivery, net: Net, now: Time)
    requires net.built
    ensures var t := Send(c, d, net, now); var n := |t.sent|;
            && n <= Max(c.maxRetries + 1, 0)
            && (forall i :: 0 <= i < n - 1 ==> !Final(net.reply(i)))
            && (n > 0 && Final(net.reply(n - 1)) ==> t.result == Outcome(d, net.reply(n - 1)) && t.err == None)
            && (c.maxRetries < 0 ==> t == Trace([], now, ZERO_RESULT, None))
  {
    if c.maxRetries >= 0 { AttemptsBound(c, d, net, 0, c.retryWait, now, ZERO_RESULT); }
  }

  /**
   * With requests that build, the error is nil exactly when the last attempt was answered, unless a wait
   * was cancelled.
   */
  lemma NilErrorIffAnswered(c: Config, d: Delivery, net: Net, now: Time)
    requires net.built && c.maxRetries >= 0 && forall i :: net.requestOk(i)
    ensures var t := Send(c, d, net, now); var n := |t.sent|;
            n > 0 && (t.err != Some(ContextDone) ==> (t.err == None <==> net.reply(n - 1).Response?))
  {
    AttemptsBound(c, d, net, 0, c.retryWait, now, ZERO_RESULT);
  }

  // ----- the backoff -----

  function Backoff(retryWait: int, m: nat): int {
    if m == 0 then 0 else Backoff(retryWait, m - 1) + Max(WaitBefore(retryWait, m), 0)
  }

  function Latencies(net: Net, m: nat): int {
    if m == 0 then 0 else Latencies(net, m - 1) + net.latency(m - 1)
  }

  /** With exact timers, attempt `i` goes out after the latencies and backoffs before it. */
  lemma AttemptTime(c: Config, d: Delivery, net: Net, start: Time, i: nat)
    requires forall k :: net.late(k) == 0
    requires i < |Send(c, d, net, start).sent|
    ensures Send(c, d, net, start).sent[i] == start + Latencies(net, i) + Backoff(c.retryWait, i)
  {
    LaterAttemptTime(c, d, net, 0, c.retryWait, start, start, ZERO_RESULT, Send(c, d, net, start), i, i);
  }

  lemma {:induction false} LaterAttemptTime(c: Config, d: Delivery, net: Net, m: nat, wait: int,
                                            now: Time, start: Time, last: SendResult, t: Trace, i: nat, e: nat)
    requires forall k :: net.late(k) == 0
    requires m <= c.maxRetries + 1 && wait == WaitBefore(c.retryWait, m)
    requires now == start + Latencies(net, m) + if m == 0 then 0 else Backoff(c.retryWait, m - 1)
    requires t == Attempts(c, d, net, m, wait, now, last) && i < |t.sent| && e == m + i
    ensures t.sent[i] == start + Latencies(net, e) + Backoff(c.retryWait, e)
    decreases i
  {
    var at := if m == 0 then now else FiresAt(now, wait, net.late(m));
    assert at == start + Latencies(net, m) + Backoff(c.retryWait, m);
    if i == 0 {
      FirstAttempt(c, d, net, m, wait, now, last, at);
    } else {
      var wait', done := if m == 0 then wait else Wrap64(wait * 2), at + net.latency(m);
      AttemptOpens(c, d, net, m, wait, now, last, at, wait');
      assert done == start + Latencies(net, m + 1) + Backoff(c.retryWait, m);
      var rest := Attempts(c, d, net, m + 1, wait', done, Outcome(d, net.reply(m)));
      LaterAttemptTime(c, d, net, m + 1, wait', done, start, Outcome(d, net.reply(m)), rest, i - 1, e);
    }
  }

  lemma FirstAttempt(c: Config, d: Delivery, net: Net, m: nat, wait: int, now: Time,
                     last: SendResult, at: Time)
    requires Attempts(c, d, net, m, wait, now, last).sent != []
    requires at == if m == 0 then now else FiresAt(now, wait, net.late(m))
    ensures Attempts(c, d, net, m, wait, now, last).sent[0] == at
  {
  }

  lemma AttemptOpens(c: Config, d: Delivery, net: Net, m: nat, wait: int, now: Time,
                     last: SendResult, at: Time, wait': int)
    requires |Attempts(c, d, net, m, wait, now, last).sent| > 1
    requires at == if m == 0 then now else FiresAt(now, wait, net.late(m))
    requires wait' == if m == 0 then wait else Wrap64(wait * 2)
    ensures m + 1 <= c.maxRetries + 1
    ensures Attempts(c, d, net, m, wait, now, last).sent
         == [at] + Attempts(c, d, net, m + 1, wait', at + net.latency(m), Outcome(d, net.reply(m))).sent
  {
  }

  /**
   * The backoff spent before attempt `m` is RetryWait * (2^m - 1) exactly when there was none to spend yet, or
   * RetryWait is not negative and doubling it has not overflowed; it is never more unless RetryWait is negative.
   */
  lemma BackoffTotal(retryWait: Duration, m: nat)
    ensures retryWait >= 0 ==> Backoff(retryWait, m) <= retryWait * (Pow2(m) - 1)
    ensures Backoff(retryWait, m) == retryWait * (Pow2(m) - 1)
       <==> m == 0 || (retryWait >= 0 && retryWait * Pow2(m - 1) <= MAX_DURATION)
  {
    if retryWait >= 0 {
      BackoffOfDoubling(retryWait, m);
    } else if m > 0 {
      NegativeFormula(retryWait, m);
    }
  }

  lemma BackoffOfDoubling(w: Duration, m: nat)
    requires w >= 0
    ensures Backoff(w, m) <= w * (Pow2(m) - 1)
    ensures Backoff(w, m) == w * (Pow2(m) - 1) <==> m == 0 || w * Pow2(m - 1) <= MAX_DURATION
  {
    BackoffIsDoubled(w, m);
    DoubledIsProduct(w, m);
    if m > 0 { DoubledIsProduct(w, m - 1); }
    assert w * (Pow2(m) - 1) == w * Pow2(m) - w;
  }

  lemma {:induction false} NegativeFormula(w: int, m: nat)
    requires w < 0 && m > 0
    ensures w * (Pow2(m) - 1) < 0 <= Backoff(w, m)
  {
    if m == 1 {
      assert Pow2(1) == 2;
    } else {
      NegativeFormula(w, m - 1);
      assert w * (2 * Pow2(m - 1) - 1) == w * (Pow2(m - 1) - 1) + w * Pow2(m - 1);
      assert w * Pow2(m - 1) == w * (Pow2(m - 1) - 1) + w;
    }
  }

  function Doubled(w: int, n: nat): int {
    if n == 0 then w else 2 * Doubled(w, n - 1)
  }

  lemma {:induction false} DoubledIsProduct(w: int, n: nat)
    ensures Doubled(w, n) == w * Pow2(n)
  {
    if n > 0 {
      DoubledIsProduct(w, n - 1);
      assert w * (2 * Pow2(n - 1)) == 2 * (w * Pow2(n - 1));
    }
  }

  lemma {:induction false} BackoffIsDoubled(w: nat, m: nat)
    requires w <= MAX_DURATION
    ensures Doubled(w, m) >= w && Backoff(w, m) <= Doubled(w, m) - w
    ensures Backoff(w, m) == Doubled(w, m) - w <==> m == 0 || Doubled(w, m - 1) <= MAX_DURATION
  {
    if m > 0 {
      BackoffIsDoubled(w, m - 1);
      WaitIsWrapped(w, m);
      WrappedTerm(Doubled(w, m - 1));
    }
  }

  lemma WrappedTerm(x: int)
    requires x >= 0
    ensures Max(Wrap64(x), 0) <= x && (Max(Wrap64(x), 0) == x <==> x <= MAX_DURATION)
  {
  }

  lemma {:induction false} WaitIsWrapped(w: nat, m: nat)
    requires m > 0 && w <= MAX_DURATION
    ensures WaitBefore(w, m) == Wrap64(Doubled(w, m - 1))
  {
    if m > 1 {
      WaitIsWrapped(w, m - 1);
      WrapTwice(Doubled(w, m - 2));
    }
  }

  lemma WrapTwice(x: int)
    ensures Wrap64(Wrap64(x) * 2) == Wrap64(2 * x)
  {
    var k := (x + 0x8000_0000_0000_0000) / 0x1_0000_0000_0000_0000;
    assert x == k * 0x1_0000_0000_0000_0000 + Wrap64(x);
    WrapPeriod(Wrap64(x) * 2, 2 * k);
  }

  lemma WrapPeriod(a: int, k: int)
    ensures Wrap64(a + k * 0x1_0000_0000_0000_0000) == Wrap64(a)
  {
  }
}
