// scenario.RunMixed, RunPushN and RunRace on a simulated repository.
module Scenarios {
  import opened Objects
  import opened RepoSpec
  import opened RepoInvariant
  import opened Timeline
  import opened RepoHistory
  import opened Pushes
  import opened SimRepository
  import opened PushRuns
  import opened Delivery
  import opened Schedule
  import opened Firing
  import opened DeliveryOrder

  datatype MixedCommit = MixedCommit(headDelayMs: int, sendAfterMs: int)
  datatype MixedSpec = MixedSpec(branch: string, commits: seq<MixedCommit>, target: string)
  datatype MixedResult = MixedResult(shas: seq<Sha>, webhookResults: seq<WebhookResult>)

  /** The branch a run works on: the one it names, or the repository's own. */
  function BranchOr(branch: string, defaultBranch: string): (b: string)
    ensures branch != "" ==> b == branch
    ensures branch == "" ==> b == defaultBranch
  {
    if branch == "" then defaultBranch else branch
  }

  /** The pushes of a Mixed run; `envs` says what each push meets, its delay comes from the spec. */
  function MixedPushes(commits: seq<MixedCommit>, envs: seq<Pushing>): (r: seq<Pushing>)
    requires |envs| == |commits|
    ensures |r| == |commits|
    ensures forall i :: 0 <= i < |commits| ==> r[i] == envs[i].(delay := Millis(commits[i].headDelayMs))
  {
    seq(|commits|, i requires 0 <= i < |commits| => envs[i].(delay := Millis(commits[i].headDelayMs)))
  }

  function SendOffsets(commits: seq<MixedCommit>): (r: seq<Duration>)
    ensures |r| == |commits| && forall i :: 0 <= i < |commits| ==> r[i] == Millis(commits[i].sendAfterMs)
  {
    seq(|commits|, i requires 0 <= i < |commits| => Millis(commits[i].sendAfterMs))
  }

  /** What a Mixed run returns once its commits are pushed. */
  ghost predicate MixedAnswers(spec: MixedSpec, fire: Fire, a: Around, start: Time, shas: seq<Sha>, order: seq<nat>,
                               res: Result<MixedResult>)
    requires |shas| == |spec.commits|
  {
    var p := Play(Firings(fire, shas, ByOffset(SendOffsets(spec.commits)), a), 0, start, start, order);
    && InSendOrder(SendOffsets(spec.commits), order)
    && (res.Ok? <==> p.stop == Finished)
    && (res.Ok? ==> res.value == MixedResult(shas, Scatter(p.log, p.results, Fill(|shas|, ZERO_WEBHOOK))))
  }

  method FireMixed(spec: MixedSpec, fire: Fire, a: Around, start: Time, shas: seq<Sha>)
    returns (res: Result<MixedResult>, ghost order: seq<nat>)
    requires |shas| == |spec.commits|
    ensures MixedAnswers(spec, fire, a, start, shas, order, res)
  {
    var jobs;
    jobs, order := SortedJobs(shas, SendOffsets(spec.commits));
    var results := new WebhookResult[|shas|](_ => ZERO_WEBHOOK);
    var stop, now := FireInOrder(fire, shas, SendOffsets(spec.commits), a, start, jobs, order, results);
    res := if stop == Finished then Ok(MixedResult(shas, results[..])) else Err("webhook");
  }

  method RunMixed(r: SimRepo, fire: Fire, spec: MixedSpec, envs: seq<Pushing>, a: Around, start: Time)
    returns (res: Result<MixedResult>, ghost order: seq<nat>)
    requires r.repo.Valid() && |envs| == |spec.commits|
    modifies r, r.repo.storer, r.repo.branches.Values
    ensures r.repo.Valid()
    ensures spec.commits == [] || spec.target == "" ==> res.Err? && r.repo.View() == old(r.repo.View())
    ensures spec.commits != [] && spec.target != "" ==>
              var hash, v := r.repo.storer.hash, old(r.repo.View());
              var branch, ps := BranchOr(spec.branch, r.repo.defaultBranch), MixedPushes(spec.commits, envs);
              && r.repo.View() == AfterPushes(hash, v, branch, ps, Made(v, branch, ps))
              && if Going(v, branch, ps) < |ps| then res.Err?
                 else MixedAnswers(spec, fire, a, start, PushedShas(hash, v, branch, ps, |ps|), order, res)
  {
    hide AfterPushes, PushedShas, BooksAfter, Going, Made, Sound, MixedAnswers;
    order := [];
    if |spec.commits| == 0 { return Err("Mixed requires at least one commit"), []; }
    if spec.target == "" { return Err("Mixed requires a Target URL"), []; }
    var branch := BranchOr(spec.branch, r.repo.defaultBranch);
    var shas, failed := PushAll(r, branch, MixedPushes(spec.commits, envs));
    if failed.Some? { return Err("push commit"), []; }
    res, order := FireMixed(spec, fire, a, start, shas);
  }

  /**
   * On success the result of commit `i` is in slot `i`, from one webhook, the `k`-th of the order; that went out
   * early only if its timer did or 64 bits could not hold the rest, and never on a clock that only moves forward.
   */
  lemma MixedOutcome(spec: MixedSpec, fire: Fire, a: Around, start: Time, shas: seq<Sha>, order: seq<nat>,
                     res: Result<MixedResult>, i: nat) returns (k: nat, at: Time, free: Time)
    requires |shas| == |spec.commits| && i < |shas|
    requires MixedAnswers(spec, fire, a, start, shas, order, res) && res.Ok?
    ensures res.value.shas == shas && |res.value.webhookResults| == |shas|
    ensures k < |order| && order[k] == i && res.value.webhookResults[i] == fire(k, shas[i], at).result
    ensures var b := Firings(fire, shas, ByOffset(SendOffsets(spec.commits)), a);
            var p := Play(b, 0, start, start, order);
            |p.log| == |order| && p.log[k].at == at && free == Free(b, p.log, 0, start, k)
    ensures var sendAt := Millis(spec.commits[i].sendAfterMs);
            && (sendAt > 0 ==>
                  (at >= start + sendAt
                   <==> free >= start + sendAt || (InRange(sendAt, start, free) && a.late(k) >= 0)))
            && (MovesForward(fire, a) ==> at >= start + sendAt && at >= free)
  {
    hide Play, Scatter;
    var b := Firings(fire, shas, ByOffset(SendOffsets(spec.commits)), a);
    var p := Play(b, 0, start, start, order);
    FollowsOrder(b, 0, start, start, order, p);
    assert Indices(p.log) == order;
    ScatterExact(p.log, p.results, Fill(|shas|, ZERO_WEBHOOK));
    assert i in order;
    k :| 0 <= k < |order| && order[k] == i;
    DispatchTimes(b, 0, start, start, order, p, k);
    if MovesForward(fire, a) { NeverEarly(b, start, order, p, k); }
    assert Scatter(p.log, p.results, Fill(|shas|, ZERO_WEBHOOK))[p.log[k].index] == p.results[k];
    at, free := p.log[k].at, Free(b, p.log, 0, start, k);
  }

  /** The webhook at position `k` of the log did not fail. */
  ghost predicate Fired(fire: Fire, shas: seq<Sha>, log: seq<Dispatch>, k: nat)
    requires k < |log|
  {
    log[k].index < |shas| && fire(k, shas[log[k].index], log[k].at).ok
  }

  /** The context cuts the wait before the next webhook of a Mixed run short. */
  ghost predicate NextIsCut(spec: MixedSpec, a: Around, start: Time, order: seq<nat>, log: seq<Dispatch>, free: Time) {
    && |log| < |order| && order[|log|] < |spec.commits|
    && OffsetCut(a, |log|, Millis(spec.commits[order[|log|]].sendAfterMs), start, free)
  }

  /** Only the last webhook of a loop can have failed, and it has exactly when that ended the loop. */
  lemma OnlyLastFails(fire: Fire, shas: seq<Sha>, policy: Policy, a: Around, start: Time, order: seq<int>,
                      p: Played<WebhookResult>)
    requires p == Play(Firings(fire, shas, policy, a), 0, start, start, order)
    ensures |p.log| <= |order| && forall k :: 0 <= k < |p.log| ==> p.log[k].index == order[k]
    ensures forall k :: 0 <= k < |p.log| - 1 ==> Fired(fire, shas, p.log, k)
    ensures p.stop == Failed <==> p.log != [] && !Fired(fire, shas, p.log, |p.log| - 1)
    ensures p.stop == Finished ==> |p.log| == |order|
    ensures p.stop in {Cancelled, Panicked} ==> |p.log| < |order|
  {
    hide Play;
    var b := Firings(fire, shas, policy, a);
    FollowsOrder(b, 0, start, start, order, p);
    forall k | 0 <= k < |p.log|
      ensures Fired(fire, shas, p.log, k) <==> !(p.stop == Failed && k == |p.log| - 1)
    {
      RunsAreOk(b, 0, start, start, order, p, k);
    }
  }

  /** Once its commits are pushed a Mixed run fails exactly when a webhook fails or a context cuts a wait short. */
  lemma MixedFailsIff(spec: MixedSpec, fire: Fire, a: Around, start: Time, shas: seq<Sha>, order: seq<nat>,
                      res: Result<MixedResult>, b: Batch<WebhookResult>, p: Played<WebhookResult>)
    requires |shas| == |spec.commits| && MixedAnswers(spec, fire, a, start, shas, order, res)
    requires b == Firings(fire, shas, ByOffset(SendOffsets(spec.commits)), a) && p == Play(b, 0, start, start, order)
    ensures |p.log| <= |order| == |shas| && forall k :: 0 <= k < |p.log| ==> p.log[k].index == order[k]
    ensures forall k :: 0 <= k < |p.log| - 1 ==> Fired(fire, shas, p.log, k)
    ensures res.Err? <==> (p.log != [] && !Fired(fire, shas, p.log, |p.log| - 1))
                          || NextIsCut(spec, a, start, order, p.log, Free(b, p.log, 0, start, |p.log|))
  {
    hide Play, Fired, Scatter, Free, NextIsCut, Firings, SendOffsets, InSendOrder;
    OnlyLastFails(fire, shas, ByOffset(SendOffsets(spec.commits)), a, start, order, p);
    CutsIff(spec, fire, a, start, shas, order, b, p);
  }

  lemma CutsIff(spec: MixedSpec, fire: Fire, a: Around, start: Time, shas: seq<Sha>, order: seq<nat>,
                b: Batch<WebhookResult>, p: Played<WebhookResult>)
    requires |shas| == |spec.commits| && InSendOrder(SendOffsets(spec.commits), order)
    requires b == Firings(fire, shas, ByOffset(SendOffsets(spec.commits)), a) && p == Play(b, 0, start, start, order)
    requires |p.log| <= |order|
    ensures |order| == |shas| && (NextIsCut(spec, a, start, order, p.log, Free(b, p.log, 0, start, |p.log|)) ==>
                                    |p.log| < |order|)
    ensures p.stop != Failed && |p.log| < |order| ==>
              p.stop == Cancelled && NextIsCut(spec, a, start, order, p.log, Free(b, p.log, 0, start, |p.log|))
  {
    hide Play, OffsetCut, Free;
    forall k | 0 <= k < |order|
      ensures order[k] < |shas|
    {
      assert order[k] in order;
    }
    if p.stop != Failed && |p.log| < |order| { DeliveredIff(b, 0, start, start, order, p, |p.log|); }
  }

  /** In a Mixed run neither the loop, nor a timer, nor a webhook moves the clock back. */
  ghost predicate MovesForward(fire: Fire, a: Around) {
    && (forall k :: a.drift(k) >= 0)
    && (forall k :: a.late(k) >= 0)
    && forall k, sha, t :: fire(k, sha, t).spent >= 0
  }

  /**
   * Commit `i` of a Mixed run joins the visible history exactly when its HEAD delay, as the spec gives it, has run
   * out by the latest reading of the next push when it asks for its commit, or, for the last one, by the time of
   * asking. `envs` gives the readings of the pushes.
   */
  lemma MixedSurfaces(o: Origin, files: Files, rt: Time, tr: Track, v: RepoView, commits: seq<MixedCommit>,
                      envs: seq<Pushing>, i: nat, at: Time)
    requires CollisionFree(o.hash) && RootedAt(o, files, rt) && Reachable(o, tr, v)
    requires i < |commits| == |envs| && AllRead(envs, |envs|)
    ensures v.defaultBranch in v.branches
    ensures var ps, n := MixedPushes(commits, envs), |envs|;
            var v', sha := AfterPushes(o.hash, v, o.branch, ps, n), PushedShas(o.hash, v, o.branch, ps, n)[i];
            var c := Chain(o, Grown(o.branch, tr, ps, n).adds, at);
            var delay := Millis(commits[i].headDelayMs);
            var decided := if i + 1 < n then Latest(Some(envs[i + 1].tv), envs[i + 1].t0) else at;
            && IsHistory(v'.objects, c) && Last(c) == RepoSpec.Resolve(Main(v'), at).visible
            && (sha in c <==> delay == 0 || decided >= envs[i].t2 + delay)
  {
    hide Reachable, AfterPushes, PushedShas, Grown, Chain, RepoSpec.Resolve, IsHistory, Latest;
    HasMain(o, tr, v);
    PushesSurface(o, files, rt, tr, v, MixedPushes(commits, envs), i, at);
    if i + 1 < |envs| { AsksAt(envs[i + 1]); }
  }

  lemma AsksAt(p: Pushing)
    ensures RequestedAt(None, p) == Latest(Some(p.tv), p.t0)
  {
  }

  /** The same for any pushes made one after another. */
  lemma {:induction false} PushesSurface(o: Origin, files: Files, rt: Time, tr: Track, v: RepoView, ps: seq<Pushing>,
                                         i: nat, at: Time)
    requires CollisionFree(o.hash) && RootedAt(o, files, rt) && Reachable(o, tr, v)
    requires i < |ps| && AllRead(ps, |ps|)
    ensures v.defaultBranch in v.branches
    ensures var v' := AfterPushes(o.hash, v, o.branch, ps, |ps|);
            var sha := PushedShas(o.hash, v, o.branch, ps, |ps|)[i];
            var c := Chain(o, Grown(o.branch, tr, ps, |ps|).adds, at);
            && IsHistory(v'.objects, c) && Last(c) == RepoSpec.Resolve(Main(v'), at).visible
            && (sha in c <==> DelayOver(ps[i], if i + 1 < |ps| then RequestedAt(None, ps[i + 1]) else at))
  {
    hide Reachable, AfterPush, PushedSha, RepoSpec.Resolve, AfterPushes, PushedShas, Chain, ShaOf, IsHistory, Grown;
    HasMain(o, tr, v);
    var n, all := |ps|, Grown(o.branch, tr, ps, |ps|);
    PushesReach(o, tr, v, ps, n);
    HistoryOf(o, all, AfterPushes(o.hash, v, o.branch, ps, n), at);
    GrownPrefix(o.branch, tr, ps, n, i);
    PushedOnTimeline(o, tr, v, ps, n, i);
    GrownSurfaces(o, files, rt, tr, ps, i, at);
  }

  /** The delay of the pushed commit has run out. */
  predicate DelayOver(p: Pushing, t: Time) {
    p.delay == 0 || t >= p.t2 + p.delay
  }

  lemma GrownSurfaces(o: Origin, files: Files, rt: Time, tr: Track, ps: seq<Pushing>, i: nat, at: Time)
    requires CollisionFree(o.hash) && RootedAt(o, files, rt) && i < |ps| && AllRead(ps, |ps|)
    ensures Grown(o.branch, tr, ps, i + 1).adds != []
    ensures ShaOf(o, Grown(o.branch, tr, ps, i + 1).adds) in Chain(o, Grown(o.branch, tr, ps, |ps|).adds, at)
       <==> DelayOver(ps[i], if i + 1 < |ps| then RequestedAt(None, ps[i + 1]) else at)
  {
    hide ShaOf, Grown, RequestedAt;
    var all := Grown(o.branch, tr, ps, |ps|).adds;
    GrownPrefix(o.branch, tr, ps, |ps|, i);
    GrownPrefix(o.branch, tr, ps, |ps|, i + 1);
    GrownPrefix(o.branch, tr, ps, i + 1, i + 1);
    SurfacesIff(o, files, rt, all, |tr.adds| + i + 1, at);
  }

  // ----- RunPushN -----

  datatype PushNSpec =
    PushNSpec(branch: string, n: int, order: string, customOrder: seq<int>, gapMs: int, target: string)
  /** How a run ends: a custom order may name an index out of range, and then it panics. */
  datatype Ending<+T> = Done(value: T) | Refused(error: string) | Panic
  datatype PushNResult = PushNResult(commits: seq<Sha>, deliveryOrder: seq<int>, responses: seq<WebhookResult>)

  function PushNPushes(envs: seq<Pushing>): (r: seq<Pushing>)
    ensures |r| == |envs| && forall i :: 0 <= i < |envs| ==> r[i] == envs[i].(delay := 0)
  {
    seq(|envs|, i requires 0 <= i < |envs| => envs[i].(delay := 0))
  }

  /**
   * The N commits of a run, whatever delays its environment would give them, extend the history shown and are on it
   * from then on.
   */
  lemma PushNShowsAll(o: Origin, tr: Track, v: RepoView, envs: seq<Pushing>, t: Time)
    requires CollisionFree(o.hash) && Reachable(o, tr, v) && envs != [] && AllRead(envs, |envs|)
    ensures v.defaultBranch in v.branches
    ensures var ps, n := PushNPushes(envs), |envs|;
            var v', shas := AfterPushes(o.hash, v, o.branch, ps, n), PushedShas(o.hash, v, o.branch, ps, n);
            var base := Chain(o, tr.adds, RequestedAt(tr.top, ps[0]));
            && Shown(o, tr.adds, Main(v)) <= base && IsHistory(v'.objects, base + shas)
            && RepoSpec.Resolve(Main(v'), t).visible == Last(shas) && RepoSpec.Resolve(Main(v'), t).pending.None?
  {
    hide Reachable, AfterPushes, PushedShas, Chain, IsHistory, Shown, RepoSpec.Resolve;
    PushNExtendsHistory(o, tr, v, PushNPushes(envs), t);
  }

  ghost predicate PushNAnswers(spec: PushNSpec, fire: Fire, a: Around, start: Time, shas: seq<Sha>,
                               swaps: seq<(nat, nat)>, res: Ending<PushNResult>)
    requires Within(swaps, |shas|)
  {
    var order := OrderFor(|shas|, spec.order, spec.customOrder, swaps);
    var p := Play(Firings(fire, shas, Gap(spec.gapMs), a), 0, start, start, order);
    && (res.Done? <==> p.stop == Finished) && (res.Panic? <==> p.stop == Panicked)
    && (res.Done? ==> res.value == PushNResult(shas, order, p.results))
  }

  method FirePushN(spec: PushNSpec, fire: Fire, a: Around, start: Time, shas: seq<Sha>, swaps: seq<(nat, nat)>)
    returns (res: Ending<PushNResult>)
    requires Within(swaps, |shas|)
    ensures PushNAnswers(spec, fire, a, start, shas, swaps, res)
  {
    var order := ResolveOrder(|shas|, spec.order, spec.customOrder, swaps);
    assert |order[..]| == |shas|;
    var responses := new WebhookResult[|shas|](_ => ZERO_WEBHOOK);
    var stop, now := FireByGap(fire, shas, spec.gapMs, a, start, order, responses);
    match stop
    case Finished => return Done(PushNResult(shas, order[..], responses[..]));
    case Panicked => return Panic;
    case _ => return Refused("webhook");
  }

  method RunPushN(r: SimRepo, fire: Fire, spec: PushNSpec, envs: seq<Pushing>, a: Around, start: Time,
                  swaps: seq<(nat, nat)>)
    returns (res: Ending<PushNResult>)
    requires r.repo.Valid() && (spec.n > 0 ==> |envs| == spec.n) && Within(swaps, |envs|)
    modifies r, r.repo.storer, r.repo.branches.Values
    ensures r.repo.Valid()
    ensures spec.n <= 0 || spec.target == "" ==> res.Refused? && r.repo.View() == old(r.repo.View())
    ensures spec.n > 0 && spec.target != "" ==>
              var hash, v := r.repo.storer.hash, old(r.repo.View());
              var branch, ps := BranchOr(spec.branch, r.repo.defaultBranch), PushNPushes(envs);
              && r.repo.View() == AfterPushes(hash, v, branch, ps, Made(v, branch, ps))
              && if Going(v, branch, ps) < |ps| then res.Refused?
                 else PushNAnswers(spec, fire, a, start, PushedShas(hash, v, branch, ps, |ps|), swaps, res)
  {
    hide AfterPushes, PushedShas, BooksAfter, Going, Made, Sound, PushNAnswers;
    if spec.n <= 0 { return Refused("PushN requires N > 0"); }
    if spec.target == "" { return Refused("PushN requires a Target URL"); }
    var branch := BranchOr(spec.branch, r.repo.defaultBranch);
    var shas, failed := PushAll(r, branch, PushNPushes(envs));
    if failed.Some? { return Refused("push commit"); }
    res := FirePushN(spec, fire, a, start, shas, swaps);
  }

  /** On success every response answers the commit at the same place of the delivery order. */
  lemma ResponsesAnswerCommits(spec: PushNSpec, fire: Fire, a: Around, start: Time, shas: seq<Sha>,
                               swaps: seq<(nat, nat)>, res: Ending<PushNResult>)
    requires Within(swaps, |shas|) && PushNAnswers(spec, fire, a, start, shas, swaps, res) && res.Done?
    ensures res.value.commits == shas && |res.value.responses| == |res.value.deliveryOrder| == |shas|
    ensures forall k :: 0 <= k < |shas| ==> Answered(fire, res.value, k)
    ensures EachOnce(res.value.deliveryOrder, |shas|)
       <==> (spec.order == "custom" && |spec.customOrder| == |shas| ==> Fair(spec.customOrder, |shas|))
  {
    var order := OrderFor(|shas|, spec.order, spec.customOrder, swaps);
    var p := Play(Firings(fire, shas, Gap(spec.gapMs), a), 0, start, start, order);
    FollowsOrder(Firings(fire, shas, Gap(spec.gapMs), a), 0, start, start, order, p);
    EachOnceIff(|shas|, spec.order, spec.customOrder, swaps);
    forall k | 0 <= k < |shas|
      ensures Answered(fire, res.value, k)
    {
      GapTimes(fire, shas, spec.gapMs, a, start, 0, start, order, p, k);
      assert res.value.responses[k] == fire(k, shas[order[k]], p.log[k].at).result;
    }
  }

  /**
   * How RunPushN ends once its commits are pushed: refused when a webhook fails or a context cuts a gap short, in a
   * panic when it comes to an index out of range before either, and done otherwise.
   */
  lemma PushNEnds(spec: PushNSpec, fire: Fire, a: Around, start: Time, shas: seq<Sha>, swaps: seq<(nat, nat)>,
                  res: Ending<PushNResult>, order: seq<int>, b: Batch<WebhookResult>, p: Played<WebhookResult>)
    requires Within(swaps, |shas|) && PushNAnswers(spec, fire, a, start, shas, swaps, res)
    requires order == OrderFor(|shas|, spec.order, spec.customOrder, swaps)
    requires b == Firings(fire, shas, Gap(spec.gapMs), a) && p == Play(b, 0, start, start, order)
    ensures |p.log| <= |order| == |shas| && forall k :: 0 <= k < |p.log| ==> p.log[k].index == order[k]
    ensures forall k :: 0 <= k < |p.log| - 1 ==> Fired(fire, shas, p.log, k)
    ensures var n := |p.log|;
            if n > 0 && !Fired(fire, shas, p.log, n - 1) then res.Refused?
            else if n == |shas| then res.Done?
            else if GapCut(a, n, spec.gapMs, Free(b, p.log, 0, start, n)) then res.Refused?
            else res.Panic? && !(0 <= order[n] < |shas|)
  {
    hide Play, GapCut, Fired, Free;
    OnlyLastFails(fire, shas, Gap(spec.gapMs), a, start, order, p);
    if p.stop != Failed && |p.log| < |order| { GapDeliveredIff(fire, shas, spec.gapMs, a, start, order, p, |p.log|); }
  }

  /** A custom order of the right length that leaves the range. */
  predicate LeavesRange(spec: PushNSpec, n: nat) {
    && spec.order == "custom" && |spec.customOrder| == n
    && exists k :: 0 <= k < n && !(0 <= spec.customOrder[k] < n)
  }

  /** Only such an order can make a run panic, and it does unless a webhook fails or the context ends. */
  lemma PanicsIffOutOfRange(spec: PushNSpec, fire: Fire, a: Around, start: Time, shas: seq<Sha>, swaps: seq<(nat, nat)>,
                         res: Ending<PushNResult>)
    requires Within(swaps, |shas|) && PushNAnswers(spec, fire, a, start, shas, swaps, res)
    ensures res.Panic? ==> LeavesRange(spec, |shas|)
    ensures (forall k, i, t :: 0 <= i < |shas| ==> fire(k, shas[i], t).ok) && (forall k :: a.ctx(k).None?) ==>
              (res.Panic? <==> LeavesRange(spec, |shas|)) && !res.Refused?
  {
    hide Play;
    var order := OrderFor(|shas|, spec.order, spec.customOrder, swaps);
    var b := Firings(fire, shas, Gap(spec.gapMs), a);
    var p := Play(b, 0, start, start, order);
    FollowsOrder(b, 0, start, start, order, p);
    LeavesRangeIff(spec, |shas|, swaps);
    if (forall k, i, t :: 0 <= i < |shas| ==> fire(k, shas[i], t).ok) && (forall k :: a.ctx(k).None?) {
      PanicsIff(b, start, order, p);
    }
  }

  /** The delivery order names an index that does not exist exactly when it is such a list. */
  lemma LeavesRangeIff(spec: PushNSpec, n: nat, swaps: seq<(nat, nat)>)
    requires Within(swaps, n)
    ensures var order := OrderFor(n, spec.order, spec.customOrder, swaps);
            |order| == n && ((exists j :: 0 <= j < n && !(0 <= order[j] < n)) <==> LeavesRange(spec, n))
  {
    var order := OrderFor(n, spec.order, spec.customOrder, swaps);
    EachOnceIff(n, spec.order, spec.customOrder, swaps);
    if EachOnce(order, n) { FairIffEachOnce(order, n); }
  }

  /** It does happen: two commits, the order [1, 2], and the run panics after its first webhook. */
  lemma CustomOrderPanics(fire: Fire, a: Around, start: Time, shas: seq<Sha>, res: Ending<PushNResult>)
    requires |shas| == 2 && fire(0, shas[1], start + a.drift(0)).ok
    requires PushNAnswers(PushNSpec("", 2, "custom", [1, 2], 0, "http://hook"), fire, a, start, shas, [], res)
    ensures res.Panic?
  {
    var spec := PushNSpec("", 2, "custom", [1, 2], 0, "http://hook");
    var b, now := Firings(fire, shas, Gap(spec.gapMs), a), start + a.drift(0);
    var done := now + fire(0, shas[1], now).spent;
    assert Play(b, 1, start, done, [2]).stop == Panicked;
    assert Play(b, 0, start, start, [1, 2]).stop == Panicked;
  }

  /** Response `k` is what the receiver said about the commit the delivery order puts at `k`. */
  ghost predicate Answered(fire: Fire, res: PushNResult, k: nat)
    requires k < |res.responses| && k < |res.deliveryOrder|
  {
    && 0 <= res.deliveryOrder[k] < |res.commits|
    && exists t :: res.responses[k] == fire(k, res.commits[res.deliveryOrder[k]], t).result
  }

  // ----- RunRace -----

  datatype RaceSpec = RaceSpec(branch: string, headDelayMs: int, target: string)
  datatype RaceResult = RaceResult(oldSHA: Sha, newSHA: Sha, webhookResult: WebhookResult)

  /** The look at `t` and the push that follows it. */
  ghost function AfterRace(hash: Object -> Sha, v: RepoView, branch: string, t: Time, p: Pushing): (r: RepoView)
    requires CollisionFree(hash) && v.defaultBranch in v.branches
    ensures r.defaultBranch == v.defaultBranch && r.branches.Keys == v.branches.Keys
  {
    AfterPush(hash, Step(hash, v, Look(branch, t)), branch, p)
  }

  /** RunRace; the webhook goes out at the clock reading that ended the push. */
  method RunRace(r: SimRepo, fire: Fire, spec: RaceSpec, t: Time, env: Pushing)
    returns (res: Result<RaceResult>)
    requires r.repo.Valid()
    modifies r, r.repo.storer, r.repo.branches.Values
    ensures r.repo.Valid()
    ensures spec.target == "" ==> res.Err? && r.repo.View() == old(r.repo.View())
    ensures spec.target != "" ==>
              var hash, v := r.repo.storer.hash, old(r.repo.View());
              var branch := BranchOr(spec.branch, r.repo.defaultBranch);
              var p := env.(delay := Millis(spec.headDelayMs));
              if branch !in v.branches then res.Err? && r.repo.View() == v
              else
                && r.repo.View() == AfterRace(hash, v, branch, t, p)
                && (res.Ok? <==>
                      p.files.Some? && fire(0, PushedSha(hash, Step(hash, v, Look(branch, t)), branch, p), p.t2).ok)
                && (res.Ok? ==>
                      && res.value.oldSHA == RepoSpec.Resolve(v.branches[branch], t).visible
                      && res.value.newSHA == PushedSha(hash, Step(hash, v, Look(branch, t)), branch, p)
                      && res.value.webhookResult == fire(0, res.value.newSHA, p.t2).result)
  {
    hide AfterPush, PushedSha, Sound;
    if spec.target == "" { return Err("Race requires a Target URL"); }
    var branch := BranchOr(spec.branch, r.repo.defaultBranch);
    var oldSHA, ok := r.repo.VisibleCommit(branch, t);
    if !ok { return Err("branch not found"); }
    var newSHA := r.Push(branch, env.(delay := Millis(spec.headDelayMs)));
    if newSHA.Err? { return Err("push"); }
    var ran := fire(0, newSHA.value, env.t2);
    if !ran.ok { return Err("webhook"); }
    res := Ok(RaceResult(oldSHA, newSHA.value, ran.result));
  }

  /**
   * The race window, at any readings: the branch shows the commit visible at the push until the delay is over and
   * the new commit from then on. That earlier commit is the OldSHA the run reported exactly when no commit that was
   * still pending at the look had fallen due by the push.
   */
  lemma RaceWindow(o: Origin, files: Files, rt: Time, tr: Track, v: RepoView, t: Time, p: Pushing, at: Time)
    requires CollisionFree(o.hash) && RootedAt(o, files, rt) && Reachable(o, tr, v) && p.files.Some?
    ensures v.defaultBranch == o.branch && v.defaultBranch in v.branches
    ensures var v' := AfterRace(o.hash, v, o.branch, t, p);
            var oldSHA, newSHA := RepoSpec.Resolve(Main(v), t).visible,
                                  PushedSha(o.hash, Step(o.hash, v, Look(o.branch, t)), o.branch, p);
            var looked := Latest(tr.top, t); var pushed := RequestedAt(Some(looked), p);
            var atPush := VisibleAt(o, tr.adds, pushed);
            && RepoSpec.Resolve(Main(v'), at).visible
               == (if p.delay == 0 || at >= p.t2 + p.delay then newSHA else atPush)
            && newSHA != atPush && newSHA != oldSHA
            && (atPush == oldSHA <==> !(StillPending(tr.adds, looked) && !StillPending(tr.adds, pushed)))
  {
    hide Reachable, AfterPush, PushedSha, RepoSpec.Resolve, Pushed;
    HasMain(o, tr, v);
    FlushKeepsReachable(o, tr, v, t);
    var tr' := Touch(tr, t);
    PushOnTimeline(o, tr', Flush(v, o.branch, t), p);
    PushAdds(o.branch, tr', p);
    HistoryOf(o, Pushed(o.branch, tr', p), AfterRace(o.hash, v, o.branch, t, p), at);
    RaceOnTimeline(o, files, rt, tr.adds, Last(Pushed(o.branch, tr', p).adds), tr'.top.value, at);
  }

  /** When the webhook goes out the branch still shows the earlier commit exactly when the delay is positive. */
  lemma RaceIsOpenIff(o: Origin, files: Files, rt: Time, tr: Track, v: RepoView, t: Time, p: Pushing)
    requires CollisionFree(o.hash) && RootedAt(o, files, rt) && Reachable(o, tr, v) && p.files.Some?
    ensures v.defaultBranch == o.branch && v.defaultBranch in v.branches
    ensures RepoSpec.Resolve(Main(AfterRace(o.hash, v, o.branch, t, p)), p.t2).visible
            == VisibleAt(o, tr.adds, RequestedAt(Some(Latest(tr.top, t)), p))
       <==> p.delay > 0
  {
    hide Reachable, VisibleAt, RepoSpec.Resolve, AfterRace, PushedSha, RequestedAt, Latest;
    RaceWindow(o, files, rt, tr, v, t, p, p.t2);
  }

  lemma RaceOnTimeline(o: Origin, files: Files, rt: Time, adds: seq<Added>, a: Added, t: Time, at: Time)
    requires CollisionFree(o.hash) && RootedAt(o, files, rt) && t <= a.t0
    ensures Last(Chain(o, adds + [a], at)) == if Due(a, at) then ShaOf(o, adds + [a]) else VisibleAt(o, adds, a.t0)
    ensures ShaOf(o, adds + [a]) != VisibleAt(o, adds, a.t0) && ShaOf(o, adds + [a]) != VisibleAt(o, adds, t)
    ensures VisibleAt(o, adds, a.t0) == VisibleAt(o, adds, t)
       <==> !(StillPending(adds, t) && !StillPending(adds, a.t0))
  {
    assert Front(adds + [a]) == adds && Last(adds + [a]) == a;
    NewestIsNew(o, files, rt, adds + [a], adds, a.t0);
    NewestIsNew(o, files, rt, adds + [a], adds, t);
    PrevIsParentIff(o, files, rt, adds, a, t);
  }
}
