/** Inputs on which the machine does not do what its comments promise. */
module Counterexamples {
  import opened Configuration
  import opened Automaton
  import opened Refinement
  import opened EntryPoints
  import opened WholeRuns
  import opened Timing
  import opened LookAhead
  import opened Admission
  import opened Downstream
  import opened Recoding

  function KeyPress(k: Key, at: Time): RawEvent { Event(k, k, at, Press, false) }
  function KeyRelease(k: Key, at: Time): RawEvent { Event(k, k, at, Release, false) }

  /** A forkable key that may not repeat, pressed again before its release and its decision time, stops
      the machine: the loop spins on the second press for as long as the output is not frozen. */
  lemma RepressSpins(c: Config, k: Key, at: Time, again: Time, thawed: nat)
    requires c.Forkable(k) && !c.repeatable[k] && k != NO_KEY
    requires again < at + c.IntervalOf(k, NO_KEY) && thawed > 0
    ensures var r := Run(c, Start().Enqueue([KeyPress(k, at), KeyPress(k, again)]), false, thawed);
      && OneTurn(c, r, false) == Go(r)
      && r.middle == [KeyPress(k, at)] && r.third == [KeyPress(k, again)]
  {
    var m := Start().Enqueue([KeyPress(k, at), KeyPress(k, again)]);
    var r := OneTurn(c, m, false).next;
    assert r.third == [KeyPress(k, again)];
    assert Stutters(c, r) && Sound(c, r);
    RestStays(c, r, false, thawed - 1);
  }

  const SHORTLY := Freeze(2, 1, false)

  lemma PressIsSuspected(c: Config, s: System, e: RawEvent)
    requires s.m.first == s.m.middle == s.m.third == [] && s.m.guess.Normal?
    requires Suspicious(c, s.m.core, e)
    ensures Step(c, s, Call(KeyEvent(e), SHORTLY)) ==
            s.(m := s.m.(guess := Opening(c, e), middle := [e], now := 0), arrivals := s.arrivals + [Arrival(e, false)],
              enqueued := s.enqueued + [e])
  {
    var m := Receive(s, e).m;
    var next := m.(guess := Opening(c, e), middle := [e], third := []);
    assert OneTurn(c, m, false) == Go(next) && OneTurn(c, next, false) == Halt;
    assert Run(c, m, false, 2) == Run(c, next, false, 1) == next;
  }

  lemma TickForks(c: Config, s: System, now: Time)
    requires s.m.first == s.m.third == [] && |s.m.middle| == 1 && s.m.guess.Suspect?
    requires now != 0 && s.m.now == 0 && now >= s.m.guess.decision
    ensures var (sent, core) := Sentence(c, s.m.core, s.m.middle[0], Fork);
      Step(c, s, Call(TimeIs(now), SHORTLY)) ==
      s.(m := Machine(core, Normal, [], [], [], now), trace := s.trace + [Relayed(sent)])
  {
    var (sent, core) := Sentence(c, s.m.core, s.m.middle[0], Fork);
    var m := s.m.(now := now);
    var next := Machine(core, Normal, [sent], [], [], now);
    assert OneTurn(c, m, false) == Go(next) && OneTurn(c, next, false) == Halt;
    assert Run(c, m, false, 2) == Run(c, next, false, 1) == next;
    var t := s.(m := next);
    assert Flush(t, 1) == Flush(RelayOne(t), 0);
  }

  lemma OtherReleaseWaits(c: Config, s: System, e: RawEvent)
    requires s.m.first == s.m.third == [] && s.m.guess.Suspect?
    requires e.kind.Release? && e.key != s.m.guess.key && e.time < s.m.guess.decision
    ensures Step(c, s, Call(KeyEvent(e), SHORTLY)) ==
            s.(m := s.m.(middle := s.m.middle + [e], now := 0), arrivals := s.arrivals + [Arrival(e, false)],
              enqueued := s.enqueued + [e])
  {
    var m := Receive(s, e).m;
    var next := m.(middle := s.m.middle + [e], third := []);
    assert OneTurn(c, m, false) == Go(next) && OneTurn(c, next, false) == Halt;
    assert Run(c, m, false, 2) == Run(c, next, false, 1) == next;
  }

  lemma PlayOneMore(c: Config, calls: seq<Call>, call: Call)
    ensures Play(c, calls + [call]) == Step(c, Play(c, calls), call)
  {
    assert (calls + [call])[..|calls|] == calls;
  }

  const FROZEN := Freeze(0, 0, false)

  lemma PressedOnce(c: Config, e: RawEvent)
    requires Suspicious(c, Start().core, e)
    ensures Play(c, [Call(KeyEvent(e), SHORTLY)]).m == Start().(guess := Opening(c, e), middle := [e])
  {
    var first := Call(KeyEvent(e), SHORTLY);
    PlayOneMore(c, [], first);
    assert [] + [first] == [first];
    PressIsSuspected(c, Idle(), e);
  }

  lemma FlushKeepsStutter(c: Config, s: System, z: Freeze)
    requires Stutters(c, s.m)
    ensures Stutters(c, FlushToNext(s, z).m)
  {
    FlushKeepsDecided(s, z.flush);
    PushTimeKeepsDecided(Flush(s, z.flush));
  }

  lemma StutteringCall(c: Config, s: System, e: RawEvent, z: Freeze)
    requires Sound(c, s.m) && s.m.third == [] && s.m.guess.Suspect? && e.Presses(s.m.guess.key)
    requires e.time < s.m.guess.decision && !c.repeatable[e.key] && !Forked(s.m.core, e.key)
    ensures Stutters(c, Step(c, s, Call(KeyEvent(e), z)).m)
  {
    var t := Receive(s, e);
    RestStays(c, t.m, false, z.run);
    FlushKeepsStutter(c, t, z);
  }

  /** The same as a run: after two calls, a press and its early re-press, the machine holds both and spins,
      however long the second call finds the output thawed. */
  lemma RepressSpinsInRun(c: Config, k: Key, at: Time, again: Time, z: Freeze)
    requires c.Forkable(k) && !c.repeatable[k] && k != NO_KEY && again < at + c.IntervalOf(k, NO_KEY)
    ensures Stutters(c, Play(c, [Call(KeyEvent(KeyPress(k, at)), SHORTLY)] + [Call(KeyEvent(KeyPress(k, again)), z)]).m)
  {
    var first := [Call(KeyEvent(KeyPress(k, at)), SHORTLY)];
    PressedOnce(c, KeyPress(k, at));
    PlayKeepsInv(c, first);
    StutteringCall(c, Play(c, first), KeyPress(k, again), z);
    PlayOneMore(c, first, Call(KeyEvent(KeyPress(k, again)), z));
  }

  /** Key `a` is pressed and held past its interval, until a tick forks it. */
  function Hold(a: Key, at: Time, tick: Time): seq<Call> {
    [Call(KeyEvent(KeyPress(a, at)), SHORTLY)] + [Call(TimeIs(tick), SHORTLY)]
  }

  /** The key forks away from itself, and the tick comes when it is due. */
  predicate HeldLongEnough(c: Config, a: Key, at: Time, tick: Time) {
    && a != NO_KEY && c.Forkable(a) && c.forkOf[a] != a
    && tick != 0 && at + c.IntervalOf(a, NO_KEY) <= tick
  }

  function HeldMachine(c: Config, a: Key, tick: Time): Machine {
    Start().(core := Mark(Start().core, a, c.forkOf[a]), now := tick)
  }

  lemma HoldingForks(c: Config, a: Key, at: Time, tick: Time)
    requires HeldLongEnough(c, a, at, tick)
    ensures Play(c, Hold(a, at, tick)).m == HeldMachine(c, a, tick)
    ensures Play(c, Hold(a, at, tick)).enqueued == [KeyPress(a, at)]
  {
    var calls := [Call(KeyEvent(KeyPress(a, at)), SHORTLY)];
    PlayOneMore(c, [], calls[0]);
    assert [] + calls == calls;
    PlayOneMore(c, calls, Call(TimeIs(tick), SHORTLY));
    PressIsSuspected(c, Idle(), KeyPress(a, at));
    TickForks(c, Play(c, calls), tick);
  }

  // ---- A genuine press is lost ----

  function ReleaseUnderSuspect(a: Key, at: Time, tick: Time, b: Key, down: Time, up: Time): seq<Call> {
    Hold(a, at, tick) + [Call(KeyEvent(KeyPress(b, down)), SHORTLY)] + [Call(KeyEvent(KeyRelease(a, up)), SHORTLY)]
  }

  lemma StillHeld(c: Config, s: System, a: Key, tick: Time, b: Key, down: Time, up: Time)
    requires a != b && b != NO_KEY && c.Forkable(b) && up < down + c.IntervalOf(b, NO_KEY)
    requires s.m == HeldMachine(c, a, tick)
    ensures var t := Step(c, Step(c, s, Call(KeyEvent(KeyPress(b, down)), SHORTLY)),
                          Call(KeyEvent(KeyRelease(a, up)), SHORTLY));
      t.m.core == s.m.core && t.enqueued == s.enqueued + [KeyPress(b, down)] + [KeyRelease(a, up)]
  {
    PressIsSuspected(c, s, KeyPress(b, down));
    OtherReleaseWaits(c, Step(c, s, Call(KeyEvent(KeyPress(b, down)), SHORTLY)), KeyRelease(a, up));
  }

  lemma TypedUnderSuspect(a: Key, at: Time, tick: Time, b: Key, down: Time, up: Time)
    ensures KeysOf(ReleaseUnderSuspect(a, at, tick, b, down, up)) ==
            [KeyPress(a, at)] + [KeyPress(b, down)] + [KeyRelease(a, up)]
  {
    var calls := Hold(a, at, tick);
    KeysOneMore([Call(KeyEvent(KeyPress(a, at)), SHORTLY)], Call(TimeIs(tick), SHORTLY));
    KeysOneMore([], Call(KeyEvent(KeyPress(a, at)), SHORTLY));
    assert [] + [Call(KeyEvent(KeyPress(a, at)), SHORTLY)] == [Call(KeyEvent(KeyPress(a, at)), SHORTLY)];
    KeysOneMore(calls, Call(KeyEvent(KeyPress(b, down)), SHORTLY));
    KeysOneMore(calls + [Call(KeyEvent(KeyPress(b, down)), SHORTLY)], Call(KeyEvent(KeyRelease(a, up)), SHORTLY));
  }

  lemma KeysOneMore(calls: seq<Call>, call: Call)
    ensures KeysOf(calls + [call]) == if call.input.KeyEvent? then KeysOf(calls) + [call.input.e] else KeysOf(calls)
  {
    assert (calls + [call])[..|calls|] == calls;
  }

  /** Key `a` is forked; while key `b` is under suspicion, `a` is released. Whenever `a` is pressed again
      before `b` is decided, that press is skipped as an auto-repeat although the key was up as typed. */
  lemma GenuinePressIsLost(c: Config, a: Key, at: Time, tick: Time, b: Key, down: Time, up: Time, again: Time)
    requires HeldLongEnough(c, a, at, tick) && a != b
    requires b != NO_KEY && c.Forkable(b) && up < down + c.IntervalOf(b, NO_KEY)
    ensures var calls := ReleaseUnderSuspect(a, at, tick, b, down, up);
      Dropped(Play(c, calls).m, KeyPress(a, again)) && StandingAfter(Up, KeysOf(calls), a) == Up
  {
    var held, pressed := Hold(a, at, tick), Call(KeyEvent(KeyPress(b, down)), SHORTLY);
    HoldingForks(c, a, at, tick);
    PlayOneMore(c, held, pressed);
    PlayOneMore(c, held + [pressed], Call(KeyEvent(KeyRelease(a, up)), SHORTLY));
    StillHeld(c, Play(c, held), a, tick, b, down, up);
    TypedUnderSuspect(a, at, tick, b, down, up);
  }

  // ---- What is admitted depends on freezing and on ticks ----

  lemma FrozenReleaseWaits(c: Config, s: System, e: RawEvent)
    requires e.kind.Release?
    ensures Step(c, s, Call(KeyEvent(e), FROZEN)).m.core == s.m.core
    ensures Step(c, s, Call(KeyEvent(e), FROZEN)).enqueued == s.enqueued + [e]
  {
  }

  lemma ForkedReleaseGoesOut(c: Config, s: System, e: RawEvent)
    requires s.m.first == s.m.middle == s.m.third == [] && s.m.guess.Normal?
    requires e.kind.Release? && s.m.core.active[e.key] != NO_KEY
    ensures Step(c, s, Call(KeyEvent(e), SHORTLY)).m.core.active[e.key] == NO_KEY
    ensures Step(c, s, Call(KeyEvent(e), SHORTLY)).enqueued == s.enqueued + [e]
  {
    var t := Receive(s, e);
    var (sent, core) := Passage(c, t.m.core, e);
    var next := t.m.(core := core, first := [sent], third := []);
    assert OneTurn(c, t.m, false) == Go(next) && OneTurn(c, next, false) == Halt;
    assert Run(c, t.m, false, 2) == Run(c, next, false, 1) == next;
    FlushKeepsDecided(t.(m := next), 1);
  }

  function Repressed(calls: seq<Call>, release: Call, press: RawEvent, z: Freeze): seq<Call> {
    calls + [release] + [Call(KeyEvent(press), z)]
  }

  lemma LastPressAdmitted(c: Config, calls: seq<Call>, e: RawEvent, z: Freeze)
    requires e.kind.Press?
    ensures Play(c, calls + [Call(KeyEvent(e), z)]).enqueued ==
            Play(c, calls).enqueued + if Forked(Play(c, calls).m.core, e.key) then [] else [e]
  {
    PlayOneMore(c, calls, Call(KeyEvent(e), z));
    InputsOfStep(c, Play(c, calls), Call(KeyEvent(e), z));
  }

  lemma SizeOfRun(c: Config, calls: seq<Call>)
    ensures |Decided(Play(c, calls))| + |Undecided(Play(c, calls).m)| == |Play(c, calls).enqueued|
  {
    NothingLost(c, calls);
  }

  /** Freezing changes what is decided: a forked key is released and pressed again. If the output is frozen
      during the release, the press is skipped; if not, it is admitted. The typing is the same and well
      formed, and only the freeze of one call differs; yet one run ends with an event less. */
  lemma FreezingChangesDecisions(c: Config, a: Key, at: Time, tick: Time, up: Time, again: Time, z: Freeze)
    requires HeldLongEnough(c, a, at, tick)
    ensures var e := KeyRelease(a, up);
      var frozen := Repressed(Hold(a, at, tick), Call(KeyEvent(e), FROZEN), KeyPress(a, again), z);
      var thawed := Repressed(Hold(a, at, tick), Call(KeyEvent(e), SHORTLY), KeyPress(a, again), z);
      && KeysOf(frozen) == KeysOf(thawed)
      && |Decided(Play(c, frozen))| + |Undecided(Play(c, frozen).m)| == 2
      && |Decided(Play(c, thawed))| + |Undecided(Play(c, thawed).m)| == 3
  {
    var e, held := KeyRelease(a, up), Hold(a, at, tick);
    HoldingForks(c, a, at, tick);
    PlayOneMore(c, held, Call(KeyEvent(e), FROZEN));
    PlayOneMore(c, held, Call(KeyEvent(e), SHORTLY));
    FrozenReleaseWaits(c, Play(c, held), e);
    ForkedReleaseGoesOut(c, Play(c, held), e);
    LastPressAdmitted(c, held + [Call(KeyEvent(e), FROZEN)], KeyPress(a, again), z);
    LastPressAdmitted(c, held + [Call(KeyEvent(e), SHORTLY)], KeyPress(a, again), z);
    SizeOfRun(c, Repressed(held, Call(KeyEvent(e), FROZEN), KeyPress(a, again), z));
    SizeOfRun(c, Repressed(held, Call(KeyEvent(e), SHORTLY), KeyPress(a, again), z));
    KeysOneMore(held, Call(KeyEvent(e), FROZEN));
    KeysOneMore(held, Call(KeyEvent(e), SHORTLY));
    KeysOneMore(held + [Call(KeyEvent(e), FROZEN)], Call(KeyEvent(KeyPress(a, again)), z));
    KeysOneMore(held + [Call(KeyEvent(e), SHORTLY)], Call(KeyEvent(KeyPress(a, again)), z));
  }

  /** Ticks change what is decided too: a key held past its interval repeats. If a tick came in between the
      repetition is skipped, else it is admitted. */
  lemma TickChangesDecisions(c: Config, a: Key, at: Time, tick: Time, again: Time, z: Freeze)
    requires HeldLongEnough(c, a, at, tick)
    ensures var repeat := [Call(KeyEvent(KeyPress(a, again)), z)];
      var ticked, unticked := Hold(a, at, tick) + repeat, [Call(KeyEvent(KeyPress(a, at)), SHORTLY)] + repeat;
      && KeysOf(ticked) == KeysOf(unticked)
      && |Decided(Play(c, ticked))| + |Undecided(Play(c, ticked).m)| == 1
      && |Decided(Play(c, unticked))| + |Undecided(Play(c, unticked).m)| == 2
  {
    var first, repeat := [Call(KeyEvent(KeyPress(a, at)), SHORTLY)], Call(KeyEvent(KeyPress(a, again)), z);
    HoldingForks(c, a, at, tick);
    PlayOneMore(c, [], first[0]);
    assert [] + first == first;
    PressIsSuspected(c, Idle(), KeyPress(a, at));
    LastPressAdmitted(c, Hold(a, at, tick), KeyPress(a, again), z);
    LastPressAdmitted(c, first, KeyPress(a, again), z);
    SizeOfRun(c, Hold(a, at, tick) + [repeat]);
    SizeOfRun(c, first + [repeat]);
    KeysOneMore(first, Call(TimeIs(tick), SHORTLY));
    KeysOneMore(Hold(a, at, tick), repeat);
    KeysOneMore(first, repeat);
  }

  // ---- A code stays pressed ----

  /** A forkable key `k` is pressed twice around a press of `v`, both times under suspicion. The release comes
      in time for the first press, but after the overlap with `w` made the second one a fork. */
  predicate RecodesBetween(c: Config, k: Key, v: Key, w: Key, t0: Time, t1: Time, t2: Time, t3: Time, t4: Time) {
    && k != NO_KEY && c.Forkable(k) && c.forkOf[k] != k
    && v != k && w != k && !c.Forkable(v) && !c.Forkable(w)
    && t0 <= t1 <= t2 <= t3 <= t4
    && t4 < t0 + c.IntervalOf(k, NO_KEY) && t4 < t0 + c.IntervalOf(k, v) && t4 < t1 + c.ToleranceOf(k, v)
    && (t4 >= t2 + c.IntervalOf(k, w) || t4 >= t3 + c.ToleranceOf(k, w))
  }

  function Twice(k: Key, v: Key, w: Key, t0: Time, t1: Time, t2: Time, t3: Time, t4: Time): seq<RawEvent> {
    [KeyPress(k, t0), KeyPress(v, t1), KeyPress(k, t2), KeyPress(w, t3), KeyRelease(k, t4)]
  }

  lemma SettledTwice(c: Config, k: Key, v: Key, w: Key, t0: Time, t1: Time, t2: Time, t3: Time, t4: Time)
    requires RecodesBetween(c, k, v, w, t0, t1, t2, t3, t4)
    ensures var es := Twice(k, v, w, t0, t1, t2, t3, t4);
      && Settle(c, FOREVER, Start().core, es[..4]).sent == []
      && Settle(c, FOREVER, Start().core, es).sent ==
         [es[0], es[1], AsCode(es[2], c.forkOf[k]), es[3], AsCode(es[4], c.forkOf[k])]
  {
    var core, es := Start().core, Twice(k, v, w, t0, t1, t2, t3, t4);
    FirstPressIsPlain(c, k, v, w, t0, t1, t2, t3, t4);
    var (sent, after) := Sentence(c, core, es[0], Plain);
    assert es[1..] == [es[1]] + es[2..] && es[2..] == [es[2], es[3], es[4]];
    RolloverVerdict(c, after, es[2], es[3], es[4]);
    OrdinaryBetween(c, Sentence(c, after, es[2], Fork).1, es[3], es[4]);
    assert es[2..][1..] == [es[3], es[4]] && es[1..][1..] == es[2..];
    assert Settle(c, FOREVER, after, es[1..]) == Prepend([es[1]], Settle(c, FOREVER, after, es[2..]));
  }

  lemma FirstPressIsPlain(c: Config, k: Key, v: Key, w: Key, t0: Time, t1: Time, t2: Time, t3: Time, t4: Time)
    requires RecodesBetween(c, k, v, w, t0, t1, t2, t3, t4)
    ensures var es := Twice(k, v, w, t0, t1, t2, t3, t4);
      Foresee(c, Start().core, es[..4]).Waiting? && Foresee(c, Start().core, es) == Plain
  {
    var core, es := Start().core, Twice(k, v, w, t0, t1, t2, t3, t4);
    var g := Examine(c, core, Opening(c, es[0]), es[1]).guess;
    assert g.Verify? && g.verifier == v;
    assert Examine(c, core, g, es[2]) == Examine(c, core, g, es[3]) == Waiting(g);
    assert [es[2], es[3]][1..] == [es[3]] && [es[3]][1..] == [];
    assert Outlook(c, core, g, [es[2], es[3]]) == Outlook(c, core, g, [es[3]]) == Waiting(g);
    assert es[..4][1..] == [es[1]] + [es[2], es[3]] && [es[1]][1..] == [];
    OutlookSplits(c, core, Opening(c, es[0]), [es[1]], [es[2], es[3]]);
    assert es[1..] == es[..4][1..] + [es[4]];
    OutlookSplits(c, core, Opening(c, es[0]), es[..4][1..], [es[4]]);
  }

  function Typing(es: seq<RawEvent>, zs: seq<Freeze>): seq<Call>
    requires |es| == |zs|
  {
    seq(|es|, i requires 0 <= i < |es| => Call(KeyEvent(es[i]), zs[i]))
  }

  lemma TypingOneMore(es: seq<RawEvent>, zs: seq<Freeze>)
    requires |es| == |zs| > 0
    ensures var last := |es| - 1;
      Typing(es, zs) == Typing(es[..last], zs[..last]) + [Call(KeyEvent(es[last]), zs[last])]
  {
  }

  lemma TypingIsKeysOnly(es: seq<RawEvent>, zs: seq<Freeze>)
    requires |es| == |zs|
    ensures NoForce(Typing(es, zs)) && NoTicks(Typing(es, zs))
  {
  }

  lemma OneMoreTakenIn(c: Config, calls: seq<Call>, e: RawEvent, z: Freeze)
    requires !Dropped(Play(c, calls).m, e)
    ensures var longer := calls + [Call(KeyEvent(e), z)];
      && Play(c, longer).enqueued == Play(c, calls).enqueued + [e]
      && (z.run >= TurnsLeft(Receive(Play(c, calls), e).m) ==> EndsThawed(c, longer))
  {
    PlayOneMore(c, calls, Call(KeyEvent(e), z));
    InputsOfStep(c, Play(c, calls), Call(KeyEvent(e), z));
    assert (calls + [Call(KeyEvent(e), z)])[..|calls|] == calls;
  }

  lemma NothingSkippedYet(c: Config, calls: seq<Call>, e: RawEvent)
    requires NoForce(calls) && NoTicks(calls)
    requires Settle(c, FOREVER, Start().core, Play(c, calls).enqueued).sent == []
    ensures !Dropped(Play(c, calls).m, e)
  {
    KeysAloneAreForetold(c, calls, []);
    assert Play(c, calls).enqueued + [] == Play(c, calls).enqueued;
    assert Decided(Play(c, calls)) == [];
    SkippedIffForkedDownstream(c, calls, e);
  }

  /** While nothing can be decided, however the output freezes, everything typed is taken in. */
  lemma {:induction false} AllTakenIn(c: Config, es: seq<RawEvent>, zs: seq<Freeze>)
    requires |es| == |zs| && Settle(c, FOREVER, Start().core, es).sent == []
    ensures Play(c, Typing(es, zs)).enqueued == es
    decreases |es|
  {
    if es != [] {
      var last := |es| - 1;
      var front := Typing(es[..last], zs[..last]);
      assert es == es[..last] + [es[last]];
      SettleSplits(c, FOREVER, Start().core, es[..last], [es[last]]);
      AllTakenIn(c, es[..last], zs[..last]);
      TypingIsKeysOnly(es[..last], zs[..last]);
      NothingSkippedYet(c, front, es[last]);
      TypingOneMore(es, zs);
      OneMoreTakenIn(c, front, es[last], zs[last]);
    }
  }

  lemma {:induction false} TypingIsTimely(es: seq<RawEvent>, zs: seq<Freeze>)
    requires |es| == |zs| && forall i :: 0 < i < |es| ==> es[i - 1].time <= es[i].time
    ensures Timely(Typing(es, zs)) && (es != [] ==> LatestOf(Typing(es, zs)) == es[|es|-1].time)
    decreases |es|
  {
    if es != [] {
      var last := |es| - 1;
      TypingOneMore(es, zs);
      assert Typing(es, zs)[..last] == Typing(es[..last], zs[..last]);
      TypingIsTimely(es[..last], zs[..last]);
    }
  }

  lemma LastIsThawed(c: Config, es: seq<RawEvent>, zs: seq<Freeze>)
    requires |es| == |zs| > 0 && Settle(c, FOREVER, Start().core, es[..|es|-1]).sent == []
    requires var front := Play(c, Typing(es[..|es|-1], zs[..|es|-1]));
      zs[|es|-1].run >= TurnsLeft(Receive(front, es[|es|-1]).m)
    ensures EndsThawed(c, Typing(es, zs)) && Play(c, Typing(es, zs)).enqueued == es
  {
    var last := |es| - 1;
    var front := Typing(es[..last], zs[..last]);
    AllTakenIn(c, es[..last], zs[..last]);
    TypingIsKeysOnly(es[..last], zs[..last]);
    NothingSkippedYet(c, front, es[last]);
    TypingOneMore(es, zs);
    OneMoreTakenIn(c, front, es[last], zs[last]);
    assert es[..last] + [es[last]] == es;
  }

  /** Typing of which only the last event decides anything, worked through: the look-ahead of it all. */
  lemma LastDecides(c: Config, es: seq<RawEvent>, zs: seq<Freeze>)
    requires |es| == |zs| > 0 && forall i :: 0 < i < |es| ==> es[i - 1].time <= es[i].time
    requires Settle(c, FOREVER, Start().core, es[..|es|-1]).sent == []
    requires var front := Play(c, Typing(es[..|es|-1], zs[..|es|-1]));
      zs[|es|-1].run >= TurnsLeft(Receive(front, es[|es|-1]).m)
    ensures Decided(Play(c, Typing(es, zs))) == Settle(c, FOREVER, Start().core, es).sent
  {
    LastIsThawed(c, es, zs);
    TypingIsKeysOnly(es, zs);
    TypingIsTimely(es, zs);
    ThawedRunIsLookAhead(c, Typing(es, zs));
  }

  lemma FewTurns(m: Machine)
    requires |Undecided(m)| <= 5
    ensures TurnsLeft(m) <= 20
  {
    var n := |Undecided(m)|;
    assert n * (n + 1) <= 5 * (n + 1);
  }

  lemma FewTurnsLeft(c: Config, es: seq<RawEvent>, zs: seq<Freeze>, e: RawEvent)
    requires |es| == |zs| == 4 && Settle(c, FOREVER, Start().core, es).sent == []
    ensures TurnsLeft(Receive(Play(c, Typing(es, zs)), e).m) <= 20
  {
    AllTakenIn(c, es, zs);
    SizeOfRun(c, Typing(es, zs));
    FewTurns(Receive(Play(c, Typing(es, zs)), e).m);
  }

  /** However the output freezes during the first four calls: once the release is worked through, code `k`
      has been pressed once and never released, although key `k`, its second press recoded, is up again. */
  lemma CodeStaysPressed(c: Config, k: Key, v: Key, w: Key, t0: Time, t1: Time, t2: Time, t3: Time, t4: Time,
                         zs: seq<Freeze>)
    requires RecodesBetween(c, k, v, w, t0, t1, t2, t3, t4) && |zs| == 5 && zs[4].run >= 20
    ensures var d := Decided(Play(c, Typing(Twice(k, v, w, t0, t1, t2, t3, t4), zs)));
      && Balance(d, k) == 1 && LastOfCode(d, k, 0)
      && StandingAfter(Up, d, k).Up? && RecodedBetween(d, k, 0, |d|)
  {
    var es := Twice(k, v, w, t0, t1, t2, t3, t4);
    SettledTwice(c, k, v, w, t0, t1, t2, t3, t4);
    FewTurnsLeft(c, es[..4], zs[..4], es[4]);
    LastDecides(c, es, zs);
    LeftPressed(Decided(Play(c, Typing(es, zs))), k);
  }

  lemma LeftPressed(d: seq<Event>, k: Key)
    requires |d| == 5 && d[0] == KeyPress(k, d[0].time) && d[2].Presses(k) && d[4].Releases(k)
    requires d[1].key != k && d[3].key != k && forall i :: 0 < i < 5 ==> d[i].code != k
    ensures Balance(d, k) == 1 && LastOfCode(d, k, 0)
    ensures StandingAfter(Up, d, k).Up? && RecodedBetween(d, k, 0, |d|)
  {
    assert d[..4][..3] == d[..3] && d[..3][..2] == d[..2] && d[..2][..1] == d[..1] && d[..1][..0] == d[..0];
    assert StandingAfter(Up, d[..1], k) == StandingAfter(Up, d[..2], k) == Down(k);
    assert Recoded(d, 2);
    assert Balance(d[..0], k) == 0 && Balance(d[..1], k) == Balance(d[..0], k) + 1;
    assert Balance(d[..2], k) == Balance(d[..1], k);
    assert Balance(d[..3], k) == Balance(d[..2], k);
    assert Balance(d[..4], k) == Balance(d[..3], k) && Balance(d, k) == Balance(d[..4], k);
  }

  // ---- The bound check ----

  /** The check of accept_event lets exactly one code without a table entry pass. */
  lemma BoundCheckAdmitsOneTooMany(core: Core, detail: Keycode)
    ensures PassesBoundCheck(detail) && detail >= |core.active| <==> detail == MAX_KEYCODE
  {
  }
}
