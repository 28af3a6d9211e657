// What a look does to later answers: nothing on a clock that never goes back, and when it does on any clock.
module RepoLooks {
  import opened Objects
  import opened RepoSpec
  import opened RepoInvariant
  import opened Timeline
  import opened RepoHistory

  // ----- on a clock that never goes back -----

  /** The commit requests of a run that went through on `branch`, at the readings they were made. */
  function AddsOf(branch: string, es: seq<Event>): seq<Added> {
    if es == [] then []
    else
      var front := AddsOf(branch, es[..|es| - 1]);
      match es[|es| - 1]
      case Add(b, delay, files, t0, t1, t2) =>
        if b == branch && files.Some? then front + [Added(delay, files.value, t0, t1, t2)] else front
      case _ => front
  }

  /** On such a clock every commit counts as requested when it was. */
  lemma {:induction false} RequestedWhenMade(branch: string, es: seq<Event>, t: Time)
    requires Monotone(es, t)
    ensures Requests(branch, es) == AddsOf(branch, es)
    ensures TrackOf(branch, es).top.Some? ==> TrackOf(branch, es).top.value <= Clock(es, t)
  {
    if es != [] { RequestedWhenMade(branch, es[..|es| - 1], t); }
  }

  /** Every answer is the timeline's, read at the time of asking. */
  lemma {:induction false} AnswersOnTime(hash: Object -> Sha, branch: string, files: Files, t: Time, es: seq<Event>,
                                         now: Time)
    requires CollisionFree(hash) && Monotone(es, t) && Clock(es, t) <= now
    ensures Answer(hash, branch, files, t, es, now)
         == VisibleAt(OriginOf(hash, branch, files, t), AddsOf(branch, es), now)
  {
    LazyIsEager(hash, branch, files, t, es, now);
    RequestedWhenMade(branch, es, t);
  }

  /** Two runs with the same commits answer alike, however often each looked or tagged. */
  lemma {:induction false} LooksChangeNothing(hash: Object -> Sha, branch: string, files: Files, t: Time,
                                              es: seq<Event>, fs: seq<Event>, now: Time)
    requires CollisionFree(hash) && Monotone(es, t) && Monotone(fs, t)
    requires Clock(es, t) <= now && Clock(fs, t) <= now
    requires AddsOf(branch, es) == AddsOf(branch, fs)
    ensures Answer(hash, branch, files, t, es, now) == Answer(hash, branch, files, t, fs, now)
  {
    AnswersOnTime(hash, branch, files, t, es, now);
    AnswersOnTime(hash, branch, files, t, fs, now);
  }

  /** What was answered at `now` after the first `n` calls stays on the history whatever those after it do. */
  lemma {:induction false} AnswersOnlyExtend(hash: Object -> Sha, branch: string, files: Files, t: Time,
                                             es: seq<Event>, n: nat, now: Time, now': Time)
    requires CollisionFree(hash) && Monotone(es, t) && n <= |es|
    requires Clock(es[..n], t) <= now <= now' && Clock(es, t) <= now'
    requires n < |es| ==> InOrder(es[n], now)
    ensures var o := OriginOf(hash, branch, files, t);
            var c, c' := Chain(o, AddsOf(branch, es[..n]), now), Chain(o, AddsOf(branch, es), now');
            && c <= c' && IsHistory(After(hash, branch, files, t, es).objects, c')
            && Last(c) == Answer(hash, branch, files, t, es[..n], now)
            && Last(c') == Answer(hash, branch, files, t, es, now')
  {
    var o := OriginOf(hash, branch, files, t);
    MonotonePrefix(es, n, t);
    AnswersOnTime(hash, branch, files, t, es[..n], now);
    AnswersOnTime(hash, branch, files, t, es, now');
    RunIsReachable(hash, branch, files, t, es);
    RequestedWhenMade(branch, es, t);
    ChainIsHistory(o, AddsOf(branch, es), After(hash, branch, files, t, es).objects, now');
    var more := LaterAdds(branch, es, n, t, now);
    ChainOnlyGrows(o, AddsOf(branch, es[..n]), more, now, now');
  }

  lemma {:induction false} MonotonePrefix(es: seq<Event>, n: nat, t: Time)
    requires Monotone(es, t) && n <= |es|
    ensures Monotone(es[..n], t)
    decreases |es|
  {
    if n == |es| {
      assert es[..n] == es;
    } else {
      assert es[..|es| - 1][..n] == es[..n];
      MonotonePrefix(es[..|es| - 1], n, t);
    }
  }

  /** The requests after the first `n` calls, none of which starts before `now`. */
  lemma {:induction false} LaterAdds(branch: string, es: seq<Event>, n: nat, t: Time, now: Time)
    returns (more: seq<Added>)
    requires n <= |es| && Monotone(es, t)
    requires n < |es| ==> InOrder(es[n], now)
    ensures AddsOf(branch, es) == AddsOf(branch, es[..n]) + more
    ensures forall i :: 0 <= i < |more| ==> now <= more[i].t0
    ensures n < |es| ==> now <= Clock(es, t)
    decreases |es|
  {
    if n == |es| {
      more := [];
      assert es[..n] == es;
    } else {
      var front, e := es[..|es| - 1], es[|es| - 1];
      assert front[..n] == es[..n];
      more := LaterAdds(branch, front, n, t, now);
      more := more + if Commits(branch, e) then [Added(e.delay, e.files.value, e.t0, e.t1, e.t2)] else [];
    }
  }

  // ----- one call more, on any clock -----


  /** `tr'` is `tr` but for an extra reading of `t` after the first `n` requests. */
  predicate ReadOnceMore(tr: Track, tr': Track, n: nat, t: Time) {
    && n <= |tr.adds|
    && if n == |tr.adds| then tr' == Touch(tr, t)
       else tr' == Track(tr.adds[n := tr.adds[n].(t0 := Latest(Some(tr.adds[n].t0), t))], tr.top)
  }

  lemma FollowedOnceMore(branch: string, tr: Track, tr': Track, n: nat, t: Time, e: Event)
    requires ReadOnceMore(tr, tr', n, t)
    ensures ReadOnceMore(Follow(branch, tr, e), Follow(branch, tr', e), n, t)
    ensures tr.adds <= Follow(branch, tr, e).adds
  {
  }

  /** The extra reading counts for the next request, or if there is none for the time of asking. */
  lemma {:induction false} ExtraReading(branch: string, es: seq<Event>, e: Event, more: seq<Event>, t: Time)
    requires !Commits(branch, e) && ResolvedAt(branch, e) == Some(t)
    ensures ReadOnceMore(TrackOf(branch, es + more), TrackOf(branch, es + [e] + more), |Requests(branch, es)|, t)
    ensures Requests(branch, es) <= Requests(branch, es + more)
    decreases |more|
  {
    hide Follow, ReadOnceMore;
    if more == [] {
      assert es + more == es && es + [e] + more == es + [e] && (es + [e])[..|es|] == es;
      ReadAgain(branch, TrackOf(branch, es), e, t);
    } else {
      var m := |more| - 1;
      assert (es + more)[..|es| + m] == es + more[..m];
      assert (es + [e] + more)[..|es| + 1 + m] == es + [e] + more[..m];
      ExtraReading(branch, es, e, more[..m], t);
      FollowedOnceMore(branch, TrackOf(branch, es + more[..m]), TrackOf(branch, es + [e] + more[..m]),
                       |Requests(branch, es)|, t, more[m]);
    }
  }

  lemma ReadAgain(branch: string, tr: Track, e: Event, t: Time)
    requires !Commits(branch, e) && ResolvedAt(branch, e) == Some(t)
    ensures ReadOnceMore(tr, Follow(branch, tr, e), |tr.adds|, t)
  {
  }

  /**
   * On any clock, one more look, listing, tag or failed commit anywhere in a run changes the answer at its end
   * exactly when it promotes a commit that without it is superseded, or at the end still pending: the commit was
   * due at the extra reading, but not when its fate is decided.
   */
  lemma {:induction false} LookIsHarmlessIff(hash: Object -> Sha, branch: string, files: Files, rt: Time,
                                             es: seq<Event>, e: Event, more: seq<Event>, t: Time, now: Time)
    requires CollisionFree(hash) && !Commits(branch, e) && ResolvedAt(branch, e) == Some(t)
    ensures var pre, all := Requests(branch, es), Requests(branch, es + more);
            |pre| <= |all| &&
            (Answer(hash, branch, files, rt, es + [e] + more, now) == Answer(hash, branch, files, rt, es + more, now)
             <==> pre == [] || !Due(Last(pre), t)
                  || Due(Last(pre), DecidedAt(all, |pre|, AskedAt(branch, es + more, now))))
  {
    hide Answer, TrackOf, Commits, ResolvedAt;
    var o, tr := OriginOf(hash, branch, files, rt), TrackOf(branch, es + more);
    var n, asked := |Requests(branch, es)|, AskedAt(branch, es + more, now);
    ExtraReading(branch, es, e, more, t);
    LazyIsEager(hash, branch, files, rt, es + more, now);
    LazyIsEager(hash, branch, files, rt, es + [e] + more, now);
    if n < |tr.adds| {
      OneReadingMatters(o, files, rt, tr.adds, n, Latest(Some(tr.adds[n].t0), t), asked);
    } else if n > 0 {
      assert tr.adds == Requests(branch, es);
      NewestIsNew(o, files, rt, tr.adds, Front(tr.adds), Last(tr.adds).t0);
      assert AskedAt(branch, es + [e] + more, now) == Latest(Some(asked), t);
    }
  }

  /** It does happen: a look at 10 promotes a commit due at 5, and an answer at 0 would not have shown it. */
  lemma LookChangesAnswer(hash: Object -> Sha, branch: string, files: Files)
    requires CollisionFree(hash)
    ensures var add := Add(branch, 5, Some(files), 0, 0, 0);
            Answer(hash, branch, files, 0, [add, Look(branch, 10)], 0) != Answer(hash, branch, files, 0, [add], 0)
  {
    hide Answer, OriginOf;
    var add := Add(branch, 5, Some(files), 0, 0, 0);
    assert [add] + [] == [add] && [add] + [Look(branch, 10)] + [] == [add, Look(branch, 10)];
    OneAdd(branch, add);
    LookIsHarmlessIff(hash, branch, files, 0, [add], Look(branch, 10), [], 10, 0);
  }

  lemma OneAdd(branch: string, e: Event)
    requires Commits(branch, e)
    ensures TrackOf(branch, [e]) == Track([Added(e.delay, e.files.value, e.t0, e.t1, e.t2)], None)
  {
    assert [e][..0] == [];
    assert TrackOf(branch, [e]) == Follow(branch, TrackOf(branch, []), e);
  }
}
