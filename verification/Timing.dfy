/** Time over whole runs: the clock seen downstream, what ticks may change, and how long events are held. */
module Timing {
  import opened Configuration
  import opened Automaton
  import opened LookAhead
  import opened Refinement
  import opened EntryPoints
  import opened WholeRuns

  // ---- The clock seen downstream ----

  /** The last time given to the machine. */
  function LatestOf(calls: seq<Call>): Time {
    if calls == [] then 0
    else match calls[|calls|-1].input
         case KeyEvent(e) => e.time
         case TimeIs(now) => now
         case _ => LatestOf(calls[..|calls|-1])
  }

  /** The times given to the machine never go backwards. */
  predicate Timely(calls: seq<Call>) {
    calls == [] ||
    (Timely(calls[..|calls|-1]) && LatestOf(calls[..|calls|-1]) <= LatestOf(calls))
  }

  ghost function Stamps(trace: seq<Signal>): seq<Time> {
    seq(|trace|, i requires 0 <= i < |trace| => trace[i].Stamp())
  }

  ghost function Times(es: seq<Event>): seq<Time> {
    seq(|es|, i requires 0 <= i < |es| => es[i].time)
  }

  /** All the times that have gone downstream or still will, in that order. */
  ghost function Timeline(s: System): seq<Time> { Stamps(s.trace) + Times(s.m.Held()) }

  ghost predicate Ordered(ts: seq<Time>) {
    forall i, j :: 0 <= i < j < |ts| ==> ts[i] <= ts[j]
  }

  ghost predicate NoneAfter(ts: seq<Time>, latest: Time) {
    forall i :: 0 <= i < |ts| ==> ts[i] <= latest
  }

  /** Every time relayed or pushed is no later than those after it and than every event still held. */
  ghost predicate Clocked(s: System, latest: Time) {
    && Ordered(Timeline(s)) && NoneAfter(Timeline(s), latest)
    && s.m.now <= latest && (s.m.now != 0 ==> NoneAfter(Timeline(s), s.m.now))
  }

  lemma TurnKeepsTimes(c: Config, m: Machine, force: bool)
    requires Sound(c, m) && OneTurn(c, m, force).Go?
    ensures Times(OneTurn(c, m, force).next.Held()) == Times(m.Held())
  {
    TurnScansOrEmits(c, m, force);
    EmissionKeepsTimes(c, m, OneTurn(c, m, force).next);
  }

  lemma EmissionKeepsTimes(c: Config, m: Machine, next: Machine)
    requires ScansOrEmits(c, m, next)
    ensures Times(next.Held()) == Times(m.Held())
  {
    assert m.Held() == m.first + Undecided(m) && next.Held() == next.first + Undecided(next);
    if |next.first| != |m.first| {
      var n := |m.first|;
      assert next.first == m.first + [next.first[n]];
      assert m.Held() == m.first + [Undecided(m)[0]] + Undecided(next);
    }
  }

  lemma {:induction false} RunKeepsTimes(c: Config, m: Machine, force: bool, thawed: nat)
    requires Sound(c, m)
    ensures Times(Run(c, m, force, thawed).Held()) == Times(m.Held())
    ensures Run(c, m, force, thawed).now == m.now
    decreases thawed
  {
    if thawed > 0 && OneTurn(c, m, force).Go? {
      TurnKeepsTimes(c, m, force);
      TurnKeepsMeaning(c, m, force);
      RunKeepsTimes(c, OneTurn(c, m, force).next, force, thawed - 1);
    }
  }

  lemma {:induction false} FlushKeepsTimeline(s: System, thawed: nat)
    ensures Timeline(Flush(s, thawed)) == Timeline(s) && Flush(s, thawed).m.now == s.m.now
    decreases thawed
  {
    if thawed > 0 && s.m.first != [] {
      var r := RelayOne(s);
      assert s.m.Held() == [s.m.first[0]] + r.m.Held();
      assert Timeline(r) == Timeline(s);
      FlushKeepsTimeline(r, thawed - 1);
    }
  }

  /** Telling the time of the next thing due keeps a timeline in order. */
  lemma RepeatingKeepsOrder(ts: seq<Time>, n: nat, latest: Time)
    requires n < |ts| && Ordered(ts) && NoneAfter(ts, latest)
    ensures Ordered(ts[..n] + [ts[n]] + ts[n..]) && NoneAfter(ts[..n] + [ts[n]] + ts[n..], latest)
  {
    var longer := ts[..n] + [ts[n]] + ts[n..];
    forall i | 0 <= i < |longer|
      ensures longer[i] == ts[if i <= n then i else i - 1]
    {
    }
  }

  lemma AppendingKeepsOrder(ts: seq<Time>, t: Time)
    requires Ordered(ts) && NoneAfter(ts, t)
    ensures Ordered(ts + [t]) && NoneAfter(ts + [t], t)
  {
  }

  lemma StampsAppend(trace: seq<Signal>, signal: Signal)
    ensures Stamps(trace + [signal]) == Stamps(trace) + [signal.Stamp()]
  {
  }

  lemma PushTimeIsMonotone(s: System, latest: Time)
    requires Clocked(s, latest)
    ensures Clocked(PushTime(s), latest)
  {
    var ts, stamps, h := Timeline(s), Stamps(s.trace), Times(s.m.Held());
    var t := PushTime(s);
    if s.m.Held() == [] {
      assert h == [] && stamps + h == stamps;
      if s.m.now != 0 {
        StampsAppend(s.trace, Clock(s.m.now));
        AppendingKeepsOrder(ts, s.m.now);
        assert Timeline(t) == ts + [s.m.now];
      }
    } else if |t.trace| > |s.trace| {
      var oldest := s.m.Held()[0].time;
      StampsAppend(s.trace, Clock(oldest));
      RepeatingKeepsOrder(ts, |stamps|, latest);
      assert ts[..|stamps|] == stamps && ts[|stamps|..] == h && ts[|stamps|] == oldest;
      assert Timeline(t) == stamps + [oldest] + h;
    }
  }

  lemma RunAndFlushIsMonotone(c: Config, s: System, force: bool, z: Freeze, latest: Time)
    requires Sound(c, s.m) && Clocked(s, latest)
    ensures Clocked(RunAndFlush(c, s, force, z), latest)
  {
    RunKeepsTimes(c, s.m, force, z.run);
    var r := s.(m := Run(c, s.m, force, z.run));
    FlushKeepsTimeline(r, z.flush);
    PushTimeIsMonotone(Flush(r, z.flush), latest);
  }

  lemma ReceiveIsMonotone(s: System, e: RawEvent, latest: Time)
    requires Clocked(s, latest) && latest <= e.time
    ensures Clocked(Receive(s, e), e.time)
  {
    var t := Receive(s, e);
    if Dropped(s.m, e) {
      assert Timeline(t) == Timeline(s);
    } else {
      assert t.m.Held() == s.m.Held() + [e];
      assert Timeline(t) == Timeline(s) + [e.time];
      AppendingKeepsOrder(Timeline(s), e.time);
    }
  }

  lemma StepIsMonotone(c: Config, s: System, call: Call, latest: Time, later: Time)
    requires Inv(c, s) && Clocked(s, latest) && latest <= later
    requires call.input.KeyEvent? ==> call.input.e.time == later
    requires call.input.TimeIs? ==> call.input.now == later
    ensures Clocked(Step(c, s, call), later)
  {
    match call.input {
      case KeyEvent(e) =>
        ReceiveIsMonotone(s, e, latest);
        ReceiveKeepsInv(c, s, e);
        RunAndFlushIsMonotone(c, Receive(s, e), false, call.freeze, later);
      case OutOfBounds =>
        assert Timeline(Step(c, s, call)) == Timeline(s);
      case TimeIs(now) =>
        var t := s.(m := s.m.(now := now));
        assert Timeline(t) == Timeline(s);
        RunAndFlushIsMonotone(c, t, false, call.freeze, later);
      case Confirm =>
        RunAndFlushIsMonotone(c, s, true, call.freeze, later);
    }
  }

  /** If the times given never decrease, neither do the times handed downstream, relayed and pushed
      together, under any freezing pattern; and none exceeds the time of an event still held. */
  lemma {:induction false} DownstreamClockIsMonotone(c: Config, calls: seq<Call>)
    requires Timely(calls)
    ensures Clocked(Play(c, calls), LatestOf(calls))
    decreases |calls|
  {
    if calls == [] {
      assert Timeline(Idle()) == [];
    } else {
      var front := calls[..|calls|-1];
      DownstreamClockIsMonotone(c, front);
      PlayKeepsInv(c, front);
      StepIsMonotone(c, Play(c, front), calls[|calls|-1], LatestOf(front), LatestOf(calls));
    }
  }

  // ---- Ticks and freezing over whole runs ----

  /** All that will ever be decided if `ys` come next and no tick, force or freeze interferes. */
  function Future(c: Config, s: System, ys: seq<Event>): Outcome {
    Prepend(Decided(s), Settle(c, FOREVER, s.m.core, Undecided(s.m) + ys))
  }

  lemma FutureIsMeaning(c: Config, s: System, ys: seq<Event>)
    ensures Future(c, s, ys) == Prepend(Sent(s.trace), Meaning(c, FOREVER, Later(s.m, ys)))
  {
    assert s.m.middle + (s.m.third + ys) == Undecided(s.m) + ys;
    PrependTwice(Sent(s.trace), s.m.first, Settle(c, FOREVER, s.m.core, Undecided(s.m) + ys));
  }

  lemma FlushKeepsFuture(c: Config, s: System, z: Freeze, ys: seq<Event>)
    ensures Future(c, FlushToNext(s, z), ys) == Future(c, s, ys)
  {
    FlushKeepsDecided(s, z.flush);
    PushTimeKeepsDecided(Flush(s, z.flush));
  }

  lemma RunAndFlushKeepsFuture(c: Config, s: System, z: Freeze, ys: seq<Event>)
    requires Sound(c, s.m) && AllRaw(ys)
    requires s.m.now == 0 || (ys != [] && ys[0].time >= s.m.now)
    ensures Future(c, RunAndFlush(c, s, false, z), ys) == Future(c, s, ys)
  {
    var r := Run(c, s.m, false, z.run);
    FutureIsMeaning(c, s, ys);
    FutureIsMeaning(c, s.(m := r), ys);
    if s.m.now == 0 {
      RunKeepsMeaning(c, s.m, false, z.run);
      EnqueueExtendsMeaning(c, r, s.m, ys);
    } else {
      TicksKeepMeaning(c, s.m, ys, z.run);
    }
    FlushKeepsFuture(c, s.(m := r), z, ys);
  }

  /** The events this call admits to the queue: the key event, unless it is skipped. */
  function Admitted(s: System, input: Input): seq<Event> {
    if input.KeyEvent? && !Dropped(s.m, input.e) then [input.e] else []
  }

  /** No call but Confirm changes the future: it only moves events from "next" to "enqueued". */
  lemma StepKeepsFuture(c: Config, s: System, call: Call, ys: seq<Event>)
    requires Inv(c, s) && AllRaw(ys) && !call.input.Confirm?
    requires call.input.TimeIs? ==> ys != [] && ys[0].time >= call.input.now
    ensures Future(c, Step(c, s, call), ys) == Future(c, s, Admitted(s, call.input) + ys)
  {
    assert [] + ys == ys;
    match call.input {
      case KeyEvent(e) => KeyKeepsFuture(c, s, e, call.freeze, ys);
      case OutOfBounds =>
      case TimeIs(now) =>
        if s.m.now <= now {
          RunAndFlushKeepsFuture(c, s.(m := s.m.(now := now)), call.freeze, ys);
        }
    }
  }

  lemma ReceiveKeepsFuture(c: Config, s: System, e: RawEvent, ys: seq<Event>)
    ensures Future(c, Receive(s, e), ys) == Future(c, s, Admitted(s, KeyEvent(e)) + ys)
  {
    assert Undecided(Receive(s, e).m) + ys == Undecided(s.m) + (Admitted(s, KeyEvent(e)) + ys);
  }

  lemma KeyKeepsFuture(c: Config, s: System, e: RawEvent, z: Freeze, ys: seq<Event>)
    requires Inv(c, s) && AllRaw(ys)
    ensures Future(c, RunAndFlush(c, Receive(s, e), false, z), ys) == Future(c, s, Admitted(s, KeyEvent(e)) + ys)
  {
    ReceiveKeepsInv(c, s, e);
    RunAndFlushKeepsFuture(c, Receive(s, e), z, ys);
    ReceiveKeepsFuture(c, s, e, ys);
  }

  lemma RunAndFlushKeepsInputs(c: Config, s: System, force: bool, z: Freeze)
    ensures RunAndFlush(c, s, force, z).enqueued == s.enqueued
    ensures RunAndFlush(c, s, force, z).arrivals == s.arrivals
  {
    var r := s.(m := Run(c, s.m, force, z.run));
    FlushKeepsDecided(r, z.flush);
    PushTimeKeepsDecided(Flush(r, z.flush));
  }

  lemma InputsOfStep(c: Config, s: System, call: Call)
    ensures Step(c, s, call).enqueued == s.enqueued + Admitted(s, call.input)
    ensures Step(c, s, call).arrivals == s.arrivals +
            if call.input.KeyEvent? then [Arrival(call.input.e, Dropped(s.m, call.input.e))] else []
  {
    match call.input {
      case KeyEvent(e) => RunAndFlushKeepsInputs(c, Receive(s, e), false, call.freeze);
      case OutOfBounds =>
      case TimeIs(now) => RunAndFlushKeepsInputs(c, s.(m := s.m.(now := now)), false, call.freeze);
      case Confirm => RunAndFlushKeepsInputs(c, s, true, call.freeze);
    }
  }

  predicate NoForce(calls: seq<Call>) {
    forall i :: 0 <= i < |calls| ==> !calls[i].input.Confirm?
  }

  predicate NoTicks(calls: seq<Call>) {
    forall i :: 0 <= i < |calls| ==> !calls[i].input.TimeIs?
  }

  lemma Regroup(a: seq<Event>, b: seq<Event>, d: seq<Event>)
    ensures a + b + d == a + (b + d)
  {
  }

  lemma AdmittedStepsBack(c: Config, calls: seq<Call>, ys: seq<Event>)
    requires calls != [] && AllRaw(ys)
    ensures var s := Play(c, calls[..|calls|-1]);
      var next := Admitted(s, calls[|calls|-1].input) + ys;
      AllRaw(next) && Play(c, calls).enqueued + ys == s.enqueued + next
  {
    var s, last := Play(c, calls[..|calls|-1]), calls[|calls|-1];
    InputsOfStep(c, s, last);
    Regroup(s.enqueued, Admitted(s, last.input), ys);
  }

  lemma FutureStepsBack(c: Config, calls: seq<Call>, ys: seq<Event>)
    requires calls != [] && AllRaw(ys) && !calls[|calls|-1].input.Confirm?
    requires calls[|calls|-1].input.TimeIs? ==> ys != [] && ys[0].time >= calls[|calls|-1].input.now
    ensures var s := Play(c, calls[..|calls|-1]);
      Future(c, Play(c, calls), ys) == Future(c, s, Admitted(s, calls[|calls|-1].input) + ys)
  {
    PlayKeepsInv(c, calls[..|calls|-1]);
    StepKeepsFuture(c, Play(c, calls[..|calls|-1]), calls[|calls|-1], ys);
  }

  /** For the events that were admitted, ticks and freezing change when, never what. After any run with a
      monotone clock and no force, whatever events come next (from the latest time on), all decisions,
      past and future, are those of the look-ahead definition on the admitted events alone. */
  lemma {:induction false} DecisionsAreForetold(c: Config, calls: seq<Call>, ys: seq<Event>)
    requires Timely(calls) && NoForce(calls)
    requires AllRaw(ys) && ys != [] && ys[0].time >= LatestOf(calls)
    ensures Future(c, Play(c, calls), ys) ==
            Settle(c, FOREVER, Start().core, Play(c, calls).enqueued + ys)
    decreases |calls|
  {
    if calls == [] {
      assert [] + ys == ys;
    } else {
      var front := calls[..|calls|-1];
      FutureStepsBack(c, calls, ys);
      AdmittedStepsBack(c, calls, ys);
      DecisionsAreForetold(c, front, Admitted(Play(c, front), calls[|calls|-1].input) + ys);
    }
  }

  lemma TailStepsBack(calls: seq<Call>, n: nat)
    requires n < |calls| && NoForce(calls[n..])
    ensures var front := calls[..|calls|-1];
      front[..n] == calls[..n] && NoForce(front[n..]) && !calls[|calls|-1].input.Confirm?
  {
    assert calls[n..][|calls| - 1 - n] == calls[|calls|-1];
    assert calls[..|calls|-1][n..] == calls[n..][..|calls| - 1 - n];
  }

  lemma SinceStepsBack(before: seq<Event>, xs: seq<Event>, x: seq<Event>, ys: seq<Event>)
    requires before <= xs
    ensures before <= xs + x && (xs + x)[|before|..] + ys == xs[|before|..] + (x + ys)
  {
    Regroup(xs[|before|..], x, ys);
    assert (xs + x)[|before|..] == xs[|before|..] + x;
  }

  lemma AdmittedSince(c: Config, calls: seq<Call>, before: seq<Event>, ys: seq<Event>)
    requires calls != [] && before <= Play(c, calls[..|calls|-1]).enqueued
    ensures var s := Play(c, calls[..|calls|-1]);
      && before <= Play(c, calls).enqueued
      && Play(c, calls).enqueued[|before|..] + ys ==
         s.enqueued[|before|..] + (Admitted(s, calls[|calls|-1].input) + ys)
  {
    var s, last := Play(c, calls[..|calls|-1]), calls[|calls|-1];
    InputsOfStep(c, s, last);
    SinceStepsBack(before, s.enqueued, Admitted(s, last.input), ys);
  }

  /** The same from any moment at which nothing is undecided, whatever came before it, confirmations
      included: from there on all decisions are those of the look-ahead definition on the events admitted
      since, starting from what was committed then. */
  lemma {:induction false} DecisionsSinceAreForetold(c: Config, calls: seq<Call>, n: nat, ys: seq<Event>)
    requires n <= |calls| && Timely(calls) && NoForce(calls[n..])
    requires Undecided(Play(c, calls[..n]).m) == []
    requires AllRaw(ys) && ys != [] && ys[0].time >= LatestOf(calls)
    ensures var s, t := Play(c, calls[..n]), Play(c, calls);
      && s.enqueued <= t.enqueued
      && Future(c, t, ys) ==
         Prepend(Decided(s), Settle(c, FOREVER, s.m.core, t.enqueued[|s.enqueued|..] + ys))
    decreases |calls|
  {
    var s := Play(c, calls[..n]);
    if |calls| == n {
      assert calls[..n] == calls;
      assert s.enqueued[|s.enqueued|..] + ys == ys == Undecided(s.m) + ys;
    } else {
      var front, last := calls[..|calls|-1], calls[|calls|-1];
      var next := Admitted(Play(c, front), last.input) + ys;
      TailStepsBack(calls, n);
      FutureStepsBack(c, calls, ys);
      AdmittedStepsBack(c, calls, ys);
      DecisionsSinceAreForetold(c, front, n, next);
      AdmittedSince(c, calls, s.enqueued, ys);
    }
  }

  /** The same for key events alone, clock or no clock: at any moment the run has decided exactly what
      the look-ahead definition decides on the events enqueued so far, or has yet to catch up with it. */
  lemma {:induction false} KeysAloneAreForetold(c: Config, calls: seq<Call>, ys: seq<Event>)
    requires NoForce(calls) && NoTicks(calls) && AllRaw(ys)
    ensures Future(c, Play(c, calls), ys) ==
            Settle(c, FOREVER, Start().core, Play(c, calls).enqueued + ys)
    decreases |calls|
  {
    if calls == [] {
      assert [] + ys == ys;
    } else {
      var front := calls[..|calls|-1];
      FutureStepsBack(c, calls, ys);
      AdmittedStepsBack(c, calls, ys);
      KeysAloneAreForetold(c, front, Admitted(Play(c, front), calls[|calls|-1].input) + ys);
    }
  }

  /** The last call was a key event that was taken in and worked through without the output freezing. */
  predicate EndsThawed(c: Config, calls: seq<Call>) {
    calls != [] &&
    var s, last := Play(c, calls[..|calls|-1]), calls[|calls|-1];
    && last.input.KeyEvent? && !Dropped(s.m, last.input.e)
    && last.freeze.run >= TurnsLeft(Receive(s, last.input.e).m)
  }

  /** The system shows the outcome: decided, committed and still held. */
  ghost predicate Shows(s: System, o: Outcome) {
    Decided(s) == o.sent && s.m.core == o.core && Undecided(s.m) == o.held
  }

  lemma RunShowsFuture(c: Config, s: System, z: Freeze)
    requires Inv(c, s) && s.m.now == 0 && z.run >= TurnsLeft(s.m)
    ensures Shows(RunAndFlush(c, s, false, z), Future(c, s, []))
  {
    assert Undecided(s.m) + [] == Undecided(s.m);
    RunRefinesLookAhead(c, s.m, false, z.run);
    var r := s.(m := Run(c, s.m, false, z.run));
    PrependTwice(Sent(s.trace), s.m.first, Settle(c, FOREVER, s.m.core, Undecided(s.m)));
    FlushKeepsDecided(r, z.flush);
    PushTimeKeepsDecided(Flush(r, z.flush));
  }

  /** The refinement theorem for whole runs: whatever ticks and freezing came before, once a key event
      has been worked through unfrozen, what has been decided, committed and held since the start is
      what the look-ahead definition says of all the events admitted. */
  lemma ThawedRunIsLookAhead(c: Config, calls: seq<Call>)
    requires Timely(calls) && NoForce(calls) && EndsThawed(c, calls)
    ensures Shows(Play(c, calls), Settle(c, FOREVER, Start().core, Play(c, calls).enqueued))
  {
    var front, last := calls[..|calls|-1], calls[|calls|-1];
    var s, e := Play(c, front), last.input.e;
    PlayKeepsInv(c, front);
    ReceiveKeepsInv(c, s, e);
    DecisionsAreForetold(c, front, [e]);
    ReceiveKeepsFuture(c, s, e, []);
    RunShowsFuture(c, Receive(s, e), last.freeze);
    InputsOfStep(c, s, last);
    assert [e] + [] == [e];
  }

  // ---- Runs that end with a tick ----

  /** All that is decided once the clock stands at p.now and nothing else comes. */
  function Present(c: Config, p: Patience, s: System): Outcome {
    Prepend(Decided(s), Settle(c, p, s.m.core, Undecided(s.m)))
  }

  lemma PresentIsMeaning(c: Config, p: Patience, s: System)
    ensures Present(c, p, s) == Prepend(Sent(s.trace), Meaning(c, p, s.m))
  {
    PrependTwice(Sent(s.trace), s.m.first, Settle(c, p, s.m.core, Undecided(s.m)));
  }

  /** What is decided with all the time in the world fixes what is decided under any patience. */
  lemma FutureFixesPresent(c: Config, p: Patience, core: Core, es: seq<Event>)
    ensures var o := Settle(c, FOREVER, core, es);
      Settle(c, p, core, es) == Prepend(o.sent, Settle(c, p, o.core, o.held))
  {
    assert es + [] == es;
    SettleSplits(c, p, core, es, []);
    assert Settle(c, FOREVER, core, es).held + [] == Settle(c, FOREVER, core, es).held;
  }

  lemma SameFutureSamePresent(c: Config, p: Patience, before: seq<Event>, core: Core, us: seq<Event>, es: seq<Event>)
    requires Prepend(before, Settle(c, FOREVER, core, us)) == Settle(c, FOREVER, Start().core, es)
    ensures Prepend(before, Settle(c, p, core, us)) == Settle(c, p, Start().core, es)
  {
    FutureFixesPresent(c, p, core, us);
    FutureFixesPresent(c, p, Start().core, es);
    var o := Settle(c, FOREVER, core, us);
    PrependTwice(before, o.sent, Settle(c, p, o.core, o.held));
  }

  /** A turn with the clock at m.now keeps the meaning under any patience that waits no less. */
  lemma {:induction false} EarlierTicksKeepMeaning(c: Config, p: Patience, m: Machine, thawed: nat)
    requires Sound(c, m) && !p.force && (m.now == 0 || m.now <= p.now)
    ensures Meaning(c, p, Run(c, m, false, thawed)) == Meaning(c, p, m)
    decreases thawed
  {
    if thawed > 0 && OneTurn(c, m, false).Go? {
      var next := OneTurn(c, m, false).next;
      TurnKeepsMeaning(c, m, false);
      if m.third != [] {
        ByKeyKeepsMeaning(c, p, m);
      } else {
        DecideKeepsMeaning(c, p, m, Fork);
      }
      EarlierTicksKeepMeaning(c, p, next, thawed - 1);
    }
  }

  lemma RunAndFlushKeepsPresent(c: Config, p: Patience, s: System, z: Freeze)
    requires Sound(c, s.m) && !p.force && (s.m.now == 0 || s.m.now <= p.now)
    ensures Present(c, p, RunAndFlush(c, s, false, z)) == Present(c, p, s)
  {
    var r := s.(m := Run(c, s.m, false, z.run));
    EarlierTicksKeepMeaning(c, p, s.m, z.run);
    PresentIsMeaning(c, p, s);
    PresentIsMeaning(c, p, r);
    FlushKeepsDecided(r, z.flush);
    PushTimeKeepsDecided(Flush(r, z.flush));
  }

  lemma AdmittedKeyIsPresent(c: Config, p: Patience, calls: seq<Call>, e: RawEvent)
    requires Timely(calls) && NoForce(calls) && LatestOf(calls) <= e.time
    requires !Dropped(Play(c, calls).m, e)
    ensures Present(c, p, Receive(Play(c, calls), e)) ==
            Settle(c, p, Start().core, Receive(Play(c, calls), e).enqueued)
  {
    var s := Play(c, calls);
    var t := Receive(s, e);
    DecisionsAreForetold(c, calls, [e]);
    assert Undecided(t.m) == Undecided(s.m) + [e] && Decided(t) == Decided(s);
    SameFutureSamePresent(c, p, Decided(s), s.m.core, Undecided(t.m), t.enqueued);
  }

  lemma SilentStepKeepsPresent(c: Config, p: Patience, s: System, call: Call)
    requires Inv(c, s) && !p.force && !call.input.Confirm?
    requires Admitted(s, call.input) == [] && (call.input.TimeIs? ==> call.input.now <= p.now)
    ensures Present(c, p, Step(c, s, call)) == Present(c, p, s)
  {
    match call.input {
      case KeyEvent(e) =>
        ReceiveKeepsInv(c, s, e);
        RunAndFlushKeepsPresent(c, p, Receive(s, e), call.freeze);
      case OutOfBounds =>
      case TimeIs(now) =>
        RunAndFlushKeepsPresent(c, p, s.(m := s.m.(now := now)), call.freeze);
    }
  }

  lemma AdmittingStepIsPresent(c: Config, p: Patience, calls: seq<Call>, e: RawEvent, z: Freeze)
    requires Timely(calls) && NoForce(calls) && LatestOf(calls) <= e.time && !p.force
    requires !Dropped(Play(c, calls).m, e)
    ensures Present(c, p, RunAndFlush(c, Receive(Play(c, calls), e), false, z)) ==
            Settle(c, p, Start().core, Play(c, calls).enqueued + [e])
  {
    PlayKeepsInv(c, calls);
    ReceiveKeepsInv(c, Play(c, calls), e);
    RunAndFlushKeepsPresent(c, p, Receive(Play(c, calls), e), z);
    AdmittedKeyIsPresent(c, p, calls, e);
  }

  /** At any moment of a timely, unforced run, what it has decided and what a clock at p.now would still
      decide are together what the look-ahead definition says of the admitted events at p.now. */
  lemma {:induction false} PresentIsForetold(c: Config, p: Patience, calls: seq<Call>)
    requires Timely(calls) && NoForce(calls)
    requires !p.force && p.now != 0 && LatestOf(calls) <= p.now
    ensures Present(c, p, Play(c, calls)) == Settle(c, p, Start().core, Play(c, calls).enqueued)
    decreases |calls|
  {
    if calls != [] {
      var front, last := calls[..|calls|-1], calls[|calls|-1];
      var s := Play(c, front);
      InputsOfStep(c, s, last);
      if Admitted(s, last.input) == [] {
        PlayKeepsInv(c, front);
        PresentIsForetold(c, p, front);
        SilentStepKeepsPresent(c, p, s, last);
        assert s.enqueued + [] == s.enqueued;
      } else {
        AdmittingStepIsPresent(c, p, front, last.input.e, last.freeze);
      }
    }
  }

  /** The last call was a tick at `now` worked through without the output freezing. */
  predicate EndsTicked(c: Config, calls: seq<Call>, now: Time) {
    && calls != [] && now != 0
    && calls[|calls|-1].input == TimeIs(now)
    && calls[|calls|-1].freeze.run >= TurnsLeft(Play(c, calls[..|calls|-1]).m)
  }

  lemma RunShowsPresent(c: Config, s: System, z: Freeze)
    requires Inv(c, s) && z.run >= TurnsLeft(s.m)
    ensures Shows(RunAndFlush(c, s, false, z), Present(c, PatienceOf(s.m, false), s))
  {
    RunRefinesLookAhead(c, s.m, false, z.run);
    var r := s.(m := Run(c, s.m, false, z.run));
    PresentIsMeaning(c, PatienceOf(s.m, false), s);
    FlushKeepsDecided(r, z.flush);
    PushTimeKeepsDecided(Flush(r, z.flush));
  }

  lemma TickShowsPresent(c: Config, s: System, now: Time, z: Freeze)
    requires Inv(c, s) && s.m.now <= now && z.run >= TurnsLeft(s.m)
    ensures Shows(Step(c, s, Call(TimeIs(now), z)), Present(c, Patience(now, false), s))
  {
    RunShowsPresent(c, s.(m := s.m.(now := now)), z);
  }

  /** The refinement theorem at a tick: whatever ticks and freezing came before, after an unfrozen tick at
      `now` the run has decided, committed and holds what the look-ahead definition says of the admitted
      events with the clock at `now`. */
  lemma TickedRunIsLookAhead(c: Config, calls: seq<Call>, now: Time)
    requires Timely(calls) && NoForce(calls) && EndsTicked(c, calls, now)
    ensures Shows(Play(c, calls), Settle(c, Patience(now, false), Start().core, Play(c, calls).enqueued))
  {
    var front, last := calls[..|calls|-1], calls[|calls|-1];
    var s := Play(c, front);
    PlayKeepsInv(c, front);
    DownstreamClockIsMonotone(c, front);
    PresentIsForetold(c, Patience(now, false), front);
    TickShowsPresent(c, s, now, last.freeze);
    InputsOfStep(c, s, last);
    assert s.enqueued + [] == s.enqueued;
  }

  /** The run has been worked through to the end: by a key event for good, or by a tick up to p.now. */
  predicate Finished(c: Config, calls: seq<Call>, p: Patience) {
    if p == FOREVER then EndsThawed(c, calls) else !p.force && EndsTicked(c, calls, p.now)
  }

  lemma FinishedRunIsLookAhead(c: Config, calls: seq<Call>, p: Patience)
    requires Timely(calls) && NoForce(calls) && Finished(c, calls, p)
    ensures Shows(Play(c, calls), Settle(c, p, Start().core, Play(c, calls).enqueued))
  {
    if p == FOREVER {
      ThawedRunIsLookAhead(c, calls);
    } else {
      TickedRunIsLookAhead(c, calls, p.now);
    }
  }
}
