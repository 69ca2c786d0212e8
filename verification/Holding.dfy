/** What a timer tick, a forced confirmation and an arriving press guarantee. */
module Holding {
  import opened Configuration
  import opened Automaton
  import opened LookAhead
  import opened Refinement
  import opened EntryPoints
  import opened WholeRuns
  import opened Timing

  /** The output never freezes during the call. */
  predicate Unfrozen(m: Machine, z: Freeze) {
    z.run >= TurnsLeft(m) && z.flush >= |m.Held()| && z.clock
  }

  /** The machine has become what the look-ahead definition makes of it. */
  ghost predicate Settles(c: Config, m: Machine, force: bool, r: Machine) {
    var settled := Settle(c, PatienceOf(m, force), m.core, Undecided(m));
    && Sound(c, r) && r.now == m.now && |r.first| <= |m.Held()|
    && r.first == m.first + settled.sent && r.core == settled.core && Undecided(r) == settled.held
    && (Stutters(c, r) <==> settled.stuck)
    && (!settled.stuck ==> r.third == [] && !Expired(r) && (force ==> r.guess.Normal?))
  }

  lemma RunSettles(c: Config, m: Machine, force: bool, thawed: nat)
    requires Sound(c, m) && thawed >= TurnsLeft(m)
    ensures Settles(c, m, force, Run(c, m, force, thawed))
  {
    RunRefinesLookAhead(c, m, force, thawed);
    RunComesToRest(c, m, force, thawed);
    RunKeepsTimes(c, m, force, thawed);
    var r := Run(c, m, force, thawed);
    assert |Times(r.Held())| == |r.Held()| && |Times(m.Held())| == |m.Held()|;
  }

  lemma FlushRelaysAll(s: System, z: Freeze)
    requires z.flush >= |s.m.first|
    ensures var r := FlushToNext(s, z);
      r.m == s.m.(first := [], now := r.m.now) && Decided(r) == Decided(s)
    ensures z.clock ==> FlushToNext(s, z) == PushTime(Flush(s, z.flush)) && Flush(s, z.flush).m == s.m.(first := [])
  {
    FlushKeepsDecided(s, z.flush);
    PushTimeKeepsDecided(Flush(s, z.flush));
  }

  /** After a run that settled everything decided is downstream, and the inner state is the loop's. */
  ghost predicate RelaysAll(c: Config, s: System, force: bool, r: System) {
    var settled := Settle(c, PatienceOf(s.m, force), s.m.core, Undecided(s.m));
    && r.m.first == [] && Sound(c, r.m)
    && Decided(r) == Decided(s) + settled.sent && r.m.core == settled.core && Undecided(r.m) == settled.held
    && (Stutters(c, r.m) <==> settled.stuck)
    && (!settled.stuck ==> r.m.third == [] && !Expired(r.m.(now := s.m.now)) && (force ==> r.m.guess.Normal?))
  }

  lemma FlushAfterSettling(c: Config, s: System, force: bool, m: Machine, z: Freeze)
    requires Settles(c, s.m, force, m) && z.flush >= |s.m.Held()|
    ensures RelaysAll(c, s, force, FlushToNext(s.(m := m), z))
  {
    FlushRelaysAll(s.(m := m), z);
    var settled := Settle(c, PatienceOf(s.m, force), s.m.core, Undecided(s.m));
    assert Decided(s.(m := m)) == Decided(s) + settled.sent;
  }

  lemma UnfrozenRunRelaysAll(c: Config, s: System, force: bool, z: Freeze)
    requires Inv(c, s) && Unfrozen(s.m, z)
    ensures RelaysAll(c, s, force, RunAndFlush(c, s, force, z))
  {
    RunSettles(c, s.m, force, z.run);
    FlushAfterSettling(c, s, force, Run(c, s.m, force, z.run), z);
  }

  lemma TickRelaysAll(c: Config, s: System, now: Time, z: Freeze)
    requires Inv(c, s) && s.m.now <= now && Unfrozen(s.m, z)
    ensures RelaysAll(c, s.(m := s.m.(now := now)), false, Step(c, s, Call(TimeIs(now), z)))
  {
    UnfrozenRunRelaysAll(c, s.(m := s.m.(now := now)), false, z);
  }

  /** The same for the tick of a reachable machine. */
  lemma UnfrozenTickRelaysAll(c: Config, calls: seq<Call>, now: Time, z: Freeze)
    requires now != 0 && Play(c, calls).m.now <= now && Unfrozen(Play(c, calls).m, z)
    ensures var s := Play(c, calls);
      RelaysAll(c, s.(m := s.m.(now := now)), false, Step(c, s, Call(TimeIs(now), z)))
  {
    PlayKeepsInv(c, calls);
    TickRelaysAll(c, Play(c, calls), now, z);
  }

  /** Bounded holding: after an unfrozen tick, the timer asked for is 0 exactly when nothing is held;
      otherwise it lies after `now` and within the oldest held key's verification interval. A spinning
      loop is the only exception. */
  lemma HoldingIsBounded(c: Config, calls: seq<Call>, now: Time, z: Freeze)
    requires now != 0 && Play(c, calls).m.now <= now
    requires Unfrozen(Play(c, calls).m, z)
    ensures var m := Step(c, Play(c, calls), Call(TimeIs(now), z)).m;
      !Stutters(c, m) ==>
        && (NextDecision(m) == 0 <==> m.Held() == [])
        && (m.Held() != [] ==>
              && now < NextDecision(m) <= m.Held()[0].time + c.IntervalOf(m.Held()[0].key, NO_KEY))
  {
    UnfrozenTickRelaysAll(c, calls, now, z);
    var m := Step(c, Play(c, calls), Call(TimeIs(now), z)).m;
    if !Stutters(c, m) {
      TimerAtRest(c, m, now);
    }
  }

  /** Nothing is held longer than that: after an unfrozen tick in a timely run, every event held is younger
      than the verification interval of the oldest held key. */
  lemma NothingIsHeldTooLong(c: Config, calls: seq<Call>, now: Time, z: Freeze, i: nat)
    requires Timely(calls) && LatestOf(calls) <= now && now != 0
    requires Unfrozen(Play(c, calls).m, z)
    ensures var m := Step(c, Play(c, calls), Call(TimeIs(now), z)).m;
      !Stutters(c, m) && i < |m.Held()| ==>
        now < m.Held()[i].time + c.IntervalOf(m.Held()[0].key, NO_KEY)
  {
    PlayKeepsInv(c, calls);
    DownstreamClockIsMonotone(c, calls);
    HoldingIsBounded(c, calls, now, z);
    StepIsMonotone(c, Play(c, calls), Call(TimeIs(now), z), LatestOf(calls), now);
    OldestIsHeldFirst(Step(c, Play(c, calls), Call(TimeIs(now), z)), now, i);
  }

  lemma OldestIsHeldFirst(s: System, latest: Time, i: nat)
    requires Clocked(s, latest)
    ensures i < |s.m.Held()| ==> s.m.Held()[0].time <= s.m.Held()[i].time
  {
    if 0 < i < |s.m.Held()| {
      var n := |s.trace|;
      assert Timeline(s)[n] == s.m.Held()[0].time && Timeline(s)[n + i] == s.m.Held()[i].time;
    }
  }

  lemma TimerAtRest(c: Config, m: Machine, now: Time)
    requires Sound(c, m) && m.first == [] && m.third == []
    requires now != 0 && !Expired(m.(now := now))
    ensures NextDecision(m) == 0 <==> m.Held() == []
    ensures m.Held() != [] ==> now < NextDecision(m) <= m.Held()[0].time + c.IntervalOf(m.Held()[0].key, NO_KEY)
  {
    assert m.Held() == m.middle;
    if !m.guess.Normal? {
      OpenGuessIsScanOfMiddle(c, m);
    }
  }

  /** While a guess is open the middle region starts with the suspicious press and holds neither its
      release nor anything else that would end the guess; the guess is what those events make it, and
      falls due within the suspect's own verification interval. */
  lemma OpenGuessIsScanOfMiddle(c: Config, m: Machine)
    requires Sound(c, m) && !m.guess.Normal?
    ensures var e, es := m.middle[0], m.middle[1..];
      && Suspicious(c, m.core, e)
      && (forall i: nat :: i < |es| ==> !Ends(c, m.core, e.key, e.time, es, i))
      && GuessAt(c, e.key, e.time, es, |es|, m.guess)
      && m.guess.decision <= e.time + c.IntervalOf(e.key, NO_KEY)
  {
    var e, es := m.middle[0], m.middle[1..];
    LookAheadRule(c, m.core, e, es);
    VerdictInClosedForm(c, m.core, e, es, |es|);
    DecisionTightens(c, e.key, e.time, es, 0, |es|);
  }

  /** At any moment of any run, with events still to be scanned or the output frozen: the timer is 0 if nothing is
      under investigation, else the running decision time of the oldest event there over the rest of them. */
  lemma TimerOfAnyMoment(c: Config, calls: seq<Call>)
    ensures var m := Play(c, calls).m;
      if m.middle == [] then NextDecision(m) == 0
      else
        var e, es := m.middle[0], m.middle[1..];
        NextDecision(m) == DecisionAt(c, e.key, e.time, es, |es|) && (es == [] ==>
          NextDecision(m) == e.time + c.IntervalOf(e.key, NO_KEY))
  {
    PlayKeepsInv(c, calls);
    if !Play(c, calls).m.guess.Normal? {
      OpenGuessIsScanOfMiddle(c, Play(c, calls).m);
    }
  }

  /** The timer is exact: a tick decides something if and only if it comes at or after the time asked
      for, and then the key under suspicion goes out as its fork. */
  lemma TimerIsExact(c: Config, calls: seq<Call>, now: Time, z: Freeze)
    requires var m := Play(c, calls).m; !m.guess.Normal? && m.third == [] && m.now <= now && Unfrozen(m, z)
    requires now != 0
    ensures var s := Play(c, calls);
      var d, after := Decided(s), Decided(Step(c, s, Call(TimeIs(now), z)));
      && d <= after
      && (now < NextDecision(s.m) ==> after == d)
      && (now >= NextDecision(s.m) ==>
            s.m.middle != [] && |after| > |d| &&
            after[|d|] == s.m.middle[0].(code := c.forkOf[s.m.middle[0].key]))
  {
    UnfrozenTickRelaysAll(c, calls, now, z);
    PlayKeepsInv(c, calls);
    var s := Play(c, calls);
    var t := s.(m := s.m.(now := now));
    assert Undecided(t.m) == s.m.middle && Decided(t) == Decided(s);
    SettleOpenGuess(c, t.m);
  }

  /** With an open guess and nothing left to scan, the reference definition sends something iff the
      clock has reached the decision time, and first of all the suspect as its fork. */
  lemma SettleOpenGuess(c: Config, m: Machine)
    requires Sound(c, m) && !m.guess.Normal? && m.third == [] && m.now != 0
    ensures var sent := Settle(c, PatienceOf(m, false), m.core, m.middle).sent;
      && (m.now < m.guess.decision ==> sent == [])
      && (m.now >= m.guess.decision ==>
            sent != [] && sent[0] == m.middle[0].(code := c.forkOf[m.middle[0].key]))
  {
  }

  /** The last signal is the time downstream may rely on: now, or that of the oldest event held. */
  ghost predicate TellsTime(now: Time, r: System) {
    var known := if r.m.Held() == [] then now else r.m.Held()[0].time;
    known != 0 ==> r.trace != [] && r.trace[|r.trace|-1] == Clock(known)
  }

  /** After an unfrozen tick the next layer knows the time: the last signal it got is the tick itself if
      nothing is held, else the time of the oldest event held back. */
  lemma TickReachesDownstream(c: Config, calls: seq<Call>, now: Time, z: Freeze)
    requires now != 0 && Play(c, calls).m.now <= now
    requires Unfrozen(Play(c, calls).m, z)
    ensures TellsTime(now, Step(c, Play(c, calls), Call(TimeIs(now), z)))
  {
    PlayKeepsInv(c, calls);
    var s := Play(c, calls);
    RunTellsTime(c, s.(m := s.m.(now := now)), z);
  }

  lemma RunTellsTime(c: Config, s: System, z: Freeze)
    requires Sound(c, s.m) && Unfrozen(s.m, z) && s.m.now != 0
    ensures TellsTime(s.m.now, RunAndFlush(c, s, false, z))
  {
    RunSettles(c, s.m, false, z.run);
    var ran := s.(m := Run(c, s.m, false, z.run));
    FlushRelaysAll(ran, z);
  }

  /** Force settles everything: after an unfrozen confirmation the machine is normal and empty, what
      was undecided has gone out by the look-ahead rule with every press it left waiting forked, and
      the press under suspicion at the call, if nothing was left to scan, went out as its fork. */
  lemma ConfirmationSettlesEverything(c: Config, calls: seq<Call>, z: Freeze)
    requires Unfrozen(Play(c, calls).m, z)
    ensures var s := Play(c, calls);
      var r := Step(c, s, Call(Confirm, z));
      var settled := Settle(c, Patience(s.m.now, true), s.m.core, Undecided(s.m));
      if settled.stuck then Stutters(c, r.m)
      else
        && r.m.guess.Normal? && r.m.Held() == []
        && Sent(r.trace) == Decided(s) + settled.sent
        && |settled.sent| == |Undecided(s.m)|
        && (s.m.middle != [] && s.m.third == [] ==>
              settled.sent[0] == s.m.middle[0].(code := c.forkOf[s.m.middle[0].key]))
  {
    PlayKeepsInv(c, calls);
    var s := Play(c, calls);
    UnfrozenRunRelaysAll(c, s, true, z);
    ForcedSettleHoldsNothing(c, s.m.now, s.m.core, Undecided(s.m));
    SettleConserves(c, Patience(s.m.now, true), s.m.core, Undecided(s.m));
    assert s.m.third == [] ==> Undecided(s.m) == s.m.middle;
  }

  /** After an unfrozen confirmation that did not spin, a run goes on as one that starts afresh from what is
      committed, up to the next confirmation: its decisions are those of the look-ahead definition on the
      events admitted since. */
  lemma DecisionsAfterConfirmation(c: Config, calls: seq<Call>, n: nat, ys: seq<Event>)
    requires 0 < n <= |calls| && Timely(calls) && NoForce(calls[n..])
    requires calls[n - 1].input.Confirm? && Unfrozen(Play(c, calls[..n - 1]).m, calls[n - 1].freeze)
    requires !Stutters(c, Play(c, calls[..n]).m)
    requires AllRaw(ys) && ys != [] && ys[0].time >= LatestOf(calls)
    ensures var s, t := Play(c, calls[..n]), Play(c, calls);
      && s.enqueued <= t.enqueued && s.m.Held() == []
      && Future(c, t, ys) ==
         Prepend(Decided(s), Settle(c, FOREVER, s.m.core, t.enqueued[|s.enqueued|..] + ys))
  {
    assert calls[..n][..n - 1] == calls[..n - 1] && calls[..n][n - 1] == calls[n - 1];
    ConfirmationSettlesEverything(c, calls[..n - 1], calls[n - 1].freeze);
    assert Play(c, calls[..n]).m.Held() == [];
    DecisionsSinceAreForetold(c, calls, n, ys);
  }

  /** How a forced confirmation sends the suspicious press `e` followed by `rest`: as its fork if no event
      ends its guess, or if the first to end it comes late or re-presses a forked key; as itself if the
      first to end it is its timely release or re-press. */
  ghost predicate ForcedRight(c: Config, core: Core, e: Event, rest: seq<Event>, out: Event) {
    && ((forall j: nat :: j < |rest| ==> !Ends(c, core, e.key, e.time, rest, j)) ==> out == e.(code := c.forkOf[e.key]))
    && (forall j: nat :: j < |rest| && EndsFirst(c, core, e, rest, j) ==>
          out == if Triggers(c, core, e.key, e.time, rest, j) then e.(code := c.forkOf[e.key]) else e)
  }

  lemma ForcedSentence(c: Config, core: Core, es: seq<Event>)
    requires es != [] && Suspicious(c, core, es[0]) && !Foresee(c, core, es).Stutter?
    ensures ForcedRight(c, core, es[0], es[1..], InTurn(c, core, es).0)
  {
    LookAheadRule(c, core, es[0], es[1..]);
    var rest := es[1..];
    forall j: nat | j < |rest| && EndsFirst(c, core, es[0], rest, j)
      ensures Foresee(c, core, es) == VerdictAt(c, core, es[0].key, es[0].time, rest, j)
    {
      VerdictInClosedForm(c, core, es[0], rest, j);
    }
  }

  /** Force forks exactly the presses that nothing held decides otherwise: every undecided press that is
      suspicious in its turn goes out forked if no held event ends its guess, and by the look-ahead rule
      if one does; a key already released in time stays the letter, even behind a frozen output. */
  lemma ConfirmationForksTheUndecided(c: Config, calls: seq<Call>, z: Freeze, i: nat)
    requires Unfrozen(Play(c, calls).m, z) && i < |Undecided(Play(c, calls).m)|
    requires !Stutters(c, Step(c, Play(c, calls), Call(Confirm, z)).m)
    ensures var s := Play(c, calls);
      var u, out := Undecided(s.m), Sent(Step(c, s, Call(Confirm, z)).trace);
      var before := CoreBefore(c, s.m.core, u, i);
      && |out| == |Decided(s)| + |u|
      && (Suspicious(c, before, u[i]) ==> ForcedRight(c, before, u[i], u[i + 1..], out[|Decided(s)| + i]))
  {
    var s := Play(c, calls);
    var u := Undecided(s.m);
    PlayKeepsInv(c, calls);
    UnfrozenRunRelaysAll(c, s, true, z);
    ConfirmationSettlesEverything(c, calls, z);
    SettleInTurn(c, PatienceOf(s.m, true), s.m.core, u, i);
    var before := CoreBefore(c, s.m.core, u, i);
    if Suspicious(c, before, u[i]) {
      ForcedSentence(c, before, u[i..]);
      assert u[i..][1..] == u[i + 1..];
    }
  }

  /** Whether the timer asked for lies in the future of the last event scanned: it does unless that event is
      the suspect itself with no interval, or was adopted as the verifier when the pair's interval had
      already passed, or with no overlap tolerance. */
  ghost predicate TimerAhead(c: Config, m: Machine)
    requires m.middle != []
  {
    var e, es := m.middle[0], m.middle[1..];
    if es == [] then c.IntervalOf(e.key, NO_KEY) > 0
    else
      var last := es[|es|-1];
      Adopted(e.key, es, |es| - 1) ==>
        e.time + c.IntervalOf(e.key, last.key) > last.time && c.ToleranceOf(e.key, last.key) > 0
  }

  lemma TimerAfterScan(c: Config, m: Machine)
    requires Sound(c, m) && !m.guess.Normal?
    ensures NextDecision(m) > m.middle[|m.middle|-1].time <==> TimerAhead(c, m)
  {
    OpenGuessIsScanOfMiddle(c, m);
    var e, es := m.middle[0], m.middle[1..];
    if es != [] {
      assert m.middle[|m.middle|-1] == es[|es|-1];
      assert !Ends(c, m.core, e.key, e.time, es, |es| - 1);
    }
  }

  /** After an unfrozen key event that was admitted the timer returned is 0 iff nothing is held; otherwise
      the event is the last one held, and the timer is later than the event exactly when TimerAhead says
      so. A spinning loop is the only exception. */
  lemma TimerAfterKeyEvent(c: Config, calls: seq<Call>, e: RawEvent, z: Freeze)
    requires !Dropped(Play(c, calls).m, e) && Unfrozen(Receive(Play(c, calls), e).m, z)
    ensures var m := Step(c, Play(c, calls), Call(KeyEvent(e), z)).m;
      !Stutters(c, m) ==>
        && (m.guess.Normal? <==> m.Held() == [])
        && (m.Held() != [] ==>
              && m.middle == m.Held() && m.middle[|m.middle|-1] == e
              && (NextDecision(m) > e.time <==> TimerAhead(c, m)))
  {
    PlayKeepsInv(c, calls);
    var s := Play(c, calls);
    var t := Receive(s, e);
    ReceiveKeepsInv(c, s, e);
    UnfrozenRunRelaysAll(c, t, false, z);
    KeyIsHeldLast(c, t, RunAndFlush(c, t, false, z), e);
  }

  lemma LastIsHeldLast(c: Config, p: Patience, core: Core, us: seq<Event>)
    requires us != []
    ensures var held := Settle(c, p, core, us).held; held != [] ==> held[|held|-1] == us[|us|-1]
  {
    SettleConserves(c, p, core, us);
  }

  lemma KeyIsHeldLast(c: Config, t: System, r: System, e: Event)
    requires RelaysAll(c, t, false, r) && t.m.third != [] && t.m.third[|t.m.third|-1] == e
    ensures !Stutters(c, r.m) ==>
        && (r.m.guess.Normal? <==> r.m.Held() == [])
        && (r.m.Held() != [] ==>
              && r.m.middle == r.m.Held() && r.m.middle[|r.m.middle|-1] == e
              && (NextDecision(r.m) > e.time <==> TimerAhead(c, r.m)))
  {
    var m, us := r.m, Undecided(t.m);
    assert us[|us|-1] == e;
    LastIsHeldLast(c, PatienceOf(t.m, false), t.m.core, us);
    if !Stutters(c, m) {
      assert m.third == [];
      assert m.Held() == m.middle == Undecided(m);
      if !m.guess.Normal? {
        TimerAfterScan(c, m);
      }
    }
  }
}
