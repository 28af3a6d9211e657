// core.ManualClock: a time kept as a token in a one-slot channel.
module ManualClocks {
  import opened Objects

  /** Used by one goroutine at a time. */
  class ManualClock {
    var now: Option<Time>   // the channel's one slot

    /** NewManualClock ignores the time it is given. */
    constructor (t: Time)
      ensures now == None
    {
      now := None;
    }

    method Now() returns (t: Time)
      modifies this
      ensures now == old(now) && t == if now.Some? then now.value else ZERO_TIME
    {
      match now
      case Some(token) =>
        now := None;
        now := Some(token);
        return token;
      case None => return ZERO_TIME;
    }

    method Set(t: Time)
      modifies this
      ensures now == Some(t)
    {
      now := None;
      now := Some(t);
    }

    method Advance(d: int)
      modifies this
      ensures now == Some((if old(now).Some? then old(now).value else ZERO_TIME) + d)
    {
      var t := Now();
      Set(t + d);
    }
  }

  // ----- any number of callers -----

  /**
   * The slot, the callers of Now that have taken the token and not put it back, and the callers of Set that
   * have drained the slot and not sent their time yet.
   */
  datatype Channel = Channel(slot: Option<Time>, held: map<nat, Time>, setting: map<nat, Time>)

  datatype Op = Take(caller: nat) | PutBack(caller: nat) | Drain(setter: nat, t: Time) | Refill(setter: nat)

  /** A step leads to a new state and, when it ends a call of Now, to its answer. */
  datatype Moved = Moved(next: Channel, answer: Option<Time>)

  /** None when the caller cannot take this step: a send to a full slot blocks. */
  function Move(c: Channel, a: Op): Option<Moved> {
    match a
    case Take(i) =>
      if i in c.held then None
      else if c.slot.None? then Some(Moved(c, Some(ZERO_TIME)))
      else Some(Moved(c.(slot := None, held := c.held[i := c.slot.value]), None))
    case PutBack(i) =>
      if i !in c.held || c.slot.Some? then None
      else Some(Moved(c.(slot := Some(c.held[i]), held := c.held - {i}), Some(c.held[i])))
    case Drain(i, t) =>
      if i in c.setting then None else Some(Moved(c.(slot := None, setting := c.setting[i := t]), None))
    case Refill(i) =>
      if i !in c.setting || c.slot.Some? then None
      else Some(Moved(c.(slot := Some(c.setting[i]), setting := c.setting - {i}), None))
  }

  /** The step belongs to a call of Now. */
  predicate IsNow(a: Op) {
    a.Take? || a.PutBack?
  }

  /** There is one token, of value `t`: in the slot or with one caller. */
  ghost predicate OneToken(c: Channel, t: Time) {
    if c.slot.Some? then c.slot == Some(t) && c.held == map[] else HeldByOne(c, t)
  }

  ghost predicate HeldByOne(c: Channel, t: Time) {
    c.slot == None && exists i: nat :: c.held == map[i := t]
  }

  /** Any interleaving of any number of calls of Now and Set, and the answers as they come. */
  ghost predicate ChannelRun(cs: seq<Channel>, acts: seq<Op>, answers: seq<Option<Time>>) {
    && |cs| == |acts| + 1 && |answers| == |acts|
    && forall k :: 0 <= k < |acts| ==> Move(cs[k], acts[k]) == Some(Moved(cs[k + 1], answers[k]))
  }

  /** Only calls of Now make the steps from `lo` to `hi`. */
  predicate OnlyNow(acts: seq<Op>, lo: nat, hi: nat)
    requires lo <= hi <= |acts|
  {
    forall k :: lo <= k < hi ==> IsNow(acts[k])
  }

  lemma MoveKeepsToken(c: Channel, a: Op, t: Time)
    requires OneToken(c, t) && IsNow(a)
    ensures Move(c, a).Some? ==> OneToken(Move(c, a).value.next, t) && Move(c, a).value.next.setting == c.setting
    ensures a.PutBack? && a.caller in c.held ==> Move(c, a).Some? && Move(c, a).value.answer == Some(t)
    ensures a.Take? && Move(c, a).Some? ==>
              Move(c, a).value.answer == (if c.slot.Some? then None else Some(ZERO_TIME))
              && (c.slot.None? ==> exists j :: j in c.held && j != a.caller)
  {
    if c.slot.None? {
      var i :| c.held == map[i := t];
      assert i in c.held;
      if a == PutBack(i) { assert c.held - {i} == map[]; }
    } else if Move(c, a).Some? {
      assert Move(c, a).value.next.held == map[a.caller := t];
    }
  }

  /** The call that takes this step finds the slot empty because another call of Now has the token. */
  ghost predicate HeldElsewhere(c: Channel, a: Op) {
    a.Take? && c.slot.None? && exists j :: j in c.held && j != a.caller
  }

  /** A call of Now answers the time, or zero because another call held the token at that moment. */
  ghost predicate AnswersWell(c: Channel, a: Op, answer: Option<Time>, t: Time) {
    match a
    case PutBack(_) => answer == Some(t)
    case Take(_) => answer.None? || (answer == Some(ZERO_TIME) && HeldElsewhere(c, a))
    case _ => true
  }

  /**
   * After a completed Set and without another one, in every interleaving of calls of Now there is exactly one
   * token of the value set, no put-back ever blocks, and each call answers that value or, while another call
   * holds the token, zero. When no call is under way the slot holds the value again.
   */
  lemma {:induction false} NowNeverLosesTheTime(cs: seq<Channel>, acts: seq<Op>, answers: seq<Option<Time>>, t: Time)
    requires ChannelRun(cs, acts, answers) && OnlyNow(acts, 0, |acts|) && cs[0].slot == Some(t) && cs[0].held == map[]
    ensures forall k :: 0 <= k < |cs| ==> OneToken(cs[k], t)
    ensures forall k, i :: 0 <= k < |cs| && i in cs[k].held ==> Move(cs[k], PutBack(i)).Some?
    ensures forall k :: 0 <= k < |acts| ==> AnswersWell(cs[k], acts[k], answers[k], t)
    ensures cs[|acts|].held == map[] ==> cs[|acts|].slot == Some(t)
  {
    TokenKept(cs, acts, answers, t, 0, |acts|);
    forall k, i | 0 <= k < |cs| && i in cs[k].held
      ensures Move(cs[k], PutBack(i)).Some?
    {
      MoveKeepsToken(cs[k], PutBack(i), t);
    }
    forall k | 0 <= k < |acts|
      ensures AnswersWell(cs[k], acts[k], answers[k], t)
    {
      MoveKeepsToken(cs[k], acts[k], t);
      assert Move(cs[k], acts[k]) == Some(Moved(cs[k + 1], answers[k]));
    }
    if cs[|acts|].slot.None? {
      var i :| cs[|acts|].held == map[i := t];
      assert i in cs[|acts|].held;
    }
  }

  lemma {:induction false} TokenKept(cs: seq<Channel>, acts: seq<Op>, answers: seq<Option<Time>>, t: Time,
                                     lo: nat, hi: nat)
    requires ChannelRun(cs, acts, answers) && lo <= hi <= |acts| && OnlyNow(acts, lo, hi) && OneToken(cs[lo], t)
    ensures forall k :: lo <= k <= hi ==> OneToken(cs[k], t) && cs[k].setting == cs[lo].setting
  {
    if lo < hi {
      TokenKept(cs, acts, answers, t, lo, hi - 1);
      MoveKeepsToken(cs[hi - 1], acts[hi - 1], t);
    }
  }

  /** While there is no token at all, as before any Set, every call of Now answers zero. */
  lemma {:induction false} UnsetClockIsZero(cs: seq<Channel>, acts: seq<Op>, answers: seq<Option<Time>>,
                                            lo: nat, hi: nat)
    requires ChannelRun(cs, acts, answers) && lo <= hi <= |acts| && OnlyNow(acts, lo, hi)
    requires cs[lo].slot == None && cs[lo].held == map[]
    ensures forall k :: lo <= k <= hi ==> cs[k] == cs[lo]
    ensures forall k :: lo <= k < hi ==> answers[k] == Some(ZERO_TIME)
  {
    if lo < hi {
      UnsetClockIsZero(cs, acts, answers, lo, hi - 1);
      assert IsNow(acts[hi - 1]) && Move(cs[hi - 1], acts[hi - 1]) == Some(Moved(cs[hi], answers[hi - 1]));
    }
  }

  // ----- a Set among the calls -----

  /** The whole interleaving is one Set, of time `t`, with any steps of calls of Now between its drain and its send. */
  ghost predicate SetAmongNows(cs: seq<Channel>, acts: seq<Op>, answers: seq<Option<Time>>, t: Time) {
    && ChannelRun(cs, acts, answers) && |acts| >= 2 && OnlyNow(acts, 1, |acts| - 1)
    && acts[0].Drain? && acts[0].t == t && acts[|acts| - 1] == Refill(acts[0].setter) && cs[0].setting == map[]
  }

  /**
   * A Set that completes keeps the protocol exactly when no call of Now held the token at its drain. Then no
   * moment before the send would have blocked it; otherwise there are two tokens and the holder's put-back blocks.
   */
  lemma SetKeepsTokenIff(cs: seq<Channel>, acts: seq<Op>, answers: seq<Option<Time>>, t: Time, t': Time)
    requires SetAmongNows(cs, acts, answers, t') && OneToken(cs[0], t)
    ensures OneToken(cs[|acts|], t') <==> cs[0].held == map[]
    ensures cs[0].held == map[] ==> forall k :: 0 < k < |acts| ==> Move(cs[k], Refill(acts[0].setter)).Some?
    ensures cs[0].held != map[] ==> exists i :: i in cs[|acts|].held && Move(cs[|acts|], PutBack(i)).None?
  {
    var n := |acts|;
    assert Move(cs[0], acts[0]) == Some(Moved(cs[1], answers[0]));
    assert Move(cs[n - 1], acts[n - 1]) == Some(Moved(cs[n], answers[n - 1]));
    if cs[0].held == map[] {
      UnsetClockIsZero(cs, acts, answers, 1, n - 1);
    } else {
      TokenKept(cs, acts, answers, t, 1, n - 1);
      var i :| cs[n - 1].held == map[i := t];
      assert i in cs[n].held;
    }
  }

  /** A Set about to send is blocked exactly when some call held the token at its drain and none holds it now. */
  lemma SetBlocksIff(cs: seq<Channel>, acts: seq<Op>, answers: seq<Option<Time>>, t: Time, i: nat)
    requires ChannelRun(cs, acts, answers) && acts != [] && OnlyNow(acts, 1, |acts|)
    requires acts[0].Drain? && acts[0].setter == i && OneToken(cs[0], t) && cs[0].setting == map[]
    ensures Move(cs[|acts|], Refill(i)).None? <==> cs[0].held != map[] && cs[|acts|].held == map[]
  {
    var n := |acts|;
    assert Move(cs[0], acts[0]) == Some(Moved(cs[1], answers[0]));
    if cs[0].held == map[] {
      UnsetClockIsZero(cs, acts, answers, 1, n);
    } else {
      TokenKept(cs, acts, answers, t, 1, n);
      if cs[n].slot.None? {
        var j :| cs[n].held == map[j := t];
        assert j in cs[n].held;
      }
    }
  }

  /** After a Set that met a holder a later call can let the old time back in. */
  lemma OverlappingSetGoesBack(t: Time, t': Time)
    returns (cs: seq<Channel>, acts: seq<Op>, answers: seq<Option<Time>>)
    ensures ChannelRun(cs, acts, answers) && cs[0] == Channel(Some(t), map[], map[])
    ensures acts == [Take(0), Drain(0, t'), Refill(0), Take(1), PutBack(0)]
    ensures cs[3].slot == Some(t') && cs[5].slot == Some(t)
  {
    var c0, c1 := Channel(Some(t), map[], map[]), Channel(None, map[0 := t], map[]);
    var c2, c3 := Channel(None, map[0 := t], map[0 := t']), Channel(Some(t'), map[0 := t], map[]);
    var c4, c5 := Channel(None, map[0 := t, 1 := t'], map[]), Channel(Some(t), map[1 := t'], map[]);
    cs := [c0, c1, c2, c3, c4, c5];
    acts := [Take(0), Drain(0, t'), Refill(0), Take(1), PutBack(0)];
    answers := [None, None, None, None, Some(t)];
    assert c4.held - {0} == c5.held && c2.setting - {0} == c3.setting;
  }

  // ----- After -----

  /** After(d), by the answers of its calls of Now: the first sets the deadline, the rest poll until one reaches it. */
  function Fires(readings: seq<Time>, d: int): Option<Time>
    requires readings != []
  {
    FirstFrom(readings[1..], readings[0] + d)
  }

  function FirstFrom(polls: seq<Time>, deadline: Time): Option<Time> {
    if polls == [] then None
    else if polls[0] >= deadline then Some(polls[0])
    else FirstFrom(polls[1..], deadline)
  }

  lemma {:induction false} FirstFromIff(polls: seq<Time>, deadline: Time)
    ensures FirstFrom(polls, deadline).Some? <==> exists i :: 0 <= i < |polls| && polls[i] >= deadline
    ensures FirstFrom(polls, deadline).Some? ==> FirstFrom(polls, deadline).value >= deadline
  {
    if polls != [] {
      FirstFromIff(polls[1..], deadline);
      if i :| 0 <= i < |polls| && polls[i] >= deadline && polls[0] < deadline {
        assert polls[1..][i - 1] == polls[i];
      }
    }
  }

  /** The calls of Now at the steps `ks` end there, one after the other. */
  predicate EndAt(answers: seq<Option<Time>>, ks: seq<nat>) {
    && (forall i :: 0 <= i < |ks| ==> ks[i] < |answers| && answers[ks[i]].Some?)
    && forall i, j :: 0 <= i < j < |ks| ==> ks[i] < ks[j]
  }

  function Readings(answers: seq<Option<Time>>, ks: seq<nat>): (r: seq<Time>)
    requires EndAt(answers, ks)
    ensures |r| == |ks| && forall i :: 0 <= i < |ks| ==> r[i] == answers[ks[i]].value
  {
    seq(|ks|, i requires 0 <= i < |ks| => answers[ks[i]].value)
  }

  /** One reading is zero where the other is the time set, and that makes up for `d`. */
  predicate ZeroMisleads(first: Time, poll: Time, t: Time, d: int) {
    || (first == ZERO_TIME && poll == t && ZERO_TIME + d <= t)
    || (first == t && poll == ZERO_TIME && t + d <= ZERO_TIME)
  }

  /**
   * While the clock stands at `t`, in every interleaving of calls of Now, After(d) fires for a positive `d` exactly
   * when its deadline was read as zero and a poll was not, or the other way round for a `t` before zero; and a call
   * answers zero then only because another one holds the token.
   */
  lemma AfterFiresIff(cs: seq<Channel>, acts: seq<Op>, answers: seq<Option<Time>>, t: Time, ks: seq<nat>, d: int)
    requires ChannelRun(cs, acts, answers) && OnlyNow(acts, 0, |acts|) && cs[0].slot == Some(t) && cs[0].held == map[]
    requires EndAt(answers, ks) && ks != [] && d > 0
    ensures Fires(Readings(answers, ks), d).Some?
       <==> exists i :: 0 < i < |ks| && ZeroMisleads(answers[ks[0]].value, answers[ks[i]].value, t, d)
    ensures forall i :: 0 <= i < |ks| && answers[ks[i]].value != t ==> HeldElsewhere(cs[ks[i]], acts[ks[i]])
  {
    var rs := Readings(answers, ks);
    NowNeverLosesTheTime(cs, acts, answers, t);
    forall i | 0 <= i < |ks|
      ensures rs[i] == t || (rs[i] == ZERO_TIME && HeldElsewhere(cs[ks[i]], acts[ks[i]]))
    {
      assert IsNow(acts[ks[i]]) && AnswersWell(cs[ks[i]], acts[ks[i]], answers[ks[i]], t);
    }
    FirstFromIff(rs[1..], rs[0] + d);
    forall i | 0 < i < |ks|
      ensures rs[1..][i - 1] >= rs[0] + d <==> ZeroMisleads(rs[0], rs[i], t, d)
    {
    }
    if Fires(rs, d).Some? {
      var i :| 0 <= i < |rs[1..]| && rs[1..][i] >= rs[0] + d;
      assert ZeroMisleads(rs[0], rs[i + 1], t, d);
    }
    if i :| 0 < i < |ks| && ZeroMisleads(rs[0], answers[ks[i]].value, t, d) {
      assert rs[1..][i - 1] >= rs[0] + d;
    }
  }

  /** It does happen: After(d) called at `t` fires at once, `d` too early, because its deadline reads as 0 + d. */
  lemma AfterFiresEarly(t: Time, d: int)
    returns (cs: seq<Channel>, acts: seq<Op>, answers: seq<Option<Time>>)
    requires 0 < d <= t
    ensures ChannelRun(cs, acts, answers) && cs[0] == Channel(Some(t), map[], map[])
    ensures acts == [Take(0), Take(1), PutBack(0), Take(1), PutBack(1)]
    ensures EndAt(answers, [1, 4]) && Fires(Readings(answers, [1, 4]), d) == Some(t)
  {
    var idle := Channel(Some(t), map[], map[]);
    var other, ours := Channel(None, map[0 := t], map[]), Channel(None, map[1 := t], map[]);
    cs := [idle, other, other, idle, ours, idle];
    acts := [Take(0), Take(1), PutBack(0), Take(1), PutBack(1)];
    answers := [None, Some(ZERO_TIME), Some(t), None, Some(t)];
    assert other.held - {0} == idle.held && ours.held - {1} == idle.held;
    assert Readings(answers, [1, 4]) == [ZERO_TIME, t];
    assert FirstFrom([t], ZERO_TIME + d) == Some(t);
  }
}
