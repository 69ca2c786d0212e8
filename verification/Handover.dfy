/** What one call hands to the next layer, signal by signal, wherever the output freezes. */
module Handover {
  import opened Configuration
  import opened Automaton
  import opened LookAhead
  import opened Refinement
  import opened EntryPoints
  import opened WholeRuns
  import opened Timing
  import opened Holding

  ghost function Relays(es: seq<Event>): seq<Signal> {
    seq(|es|, i requires 0 <= i < |es| => Relayed(es[i]))
  }

  /** The time told downstream: that of the oldest event held, else the last one heard; 0 is not told. */
  ghost function TimeTold(held: seq<Event>, now: Time): seq<Signal> {
    var known := if held == [] then now else held[0].time;
    if known == 0 then [] else [Clock(known)]
  }

  ghost function Least(a: nat, b: nat): nat { if a < b then a else b }

  /** The loop decides at most one event a turn, in order. */
  lemma {:induction false} RunDecidesInTurn(c: Config, m: Machine, force: bool, thawed: nat)
    ensures var r := Run(c, m, force, thawed);
      m.first <= r.first && |r.first| <= |m.first| + thawed && r.now == m.now
    decreases thawed
  {
    if thawed > 0 && OneTurn(c, m, force).Go? {
      RunDecidesInTurn(c, OneTurn(c, m, force).next, force, thawed - 1);
    }
  }

  lemma RelaysOneMore(trace: seq<Signal>, front: seq<Event>, last: Event)
    ensures trace + Relays(front + [last]) == trace + Relays(front) + [Relayed(last)]
  {
    assert Relays(front + [last]) == Relays(front) + [Relayed(last)];
  }

  lemma {:induction false} SentOfRelays(trace: seq<Signal>, es: seq<Event>)
    ensures Sent(trace + Relays(es)) == Sent(trace) + es
    decreases |es|
  {
    if es == [] {
      assert trace + Relays(es) == trace;
    } else {
      var front, last := es[..|es|-1], es[|es|-1];
      assert es == front + [last];
      SentOfRelays(trace, front);
      RelaysOneMore(trace, front, last);
      SentAppends(trace + Relays(front), Relayed(last));
    }
  }

  lemma {:induction false} FlushHandsOver(s: System, thawed: nat)
    ensures Flush(s, thawed).trace == s.trace + Relays(s.m.first[..Least(thawed, |s.m.first|)])
    decreases thawed
  {
    if thawed > 0 && s.m.first != [] {
      var n := Least(thawed, |s.m.first|);
      FlushHandsOver(RelayOne(s), thawed - 1);
      assert Relays(s.m.first[..n]) == [Relayed(s.m.first[0])] + Relays(s.m.first[1..][..n - 1]);
    }
  }

  /** What the call has relayed. */
  ghost function Passed(s: System, r: System): seq<Event>
    requires Sent(s.trace) <= Sent(r.trace)
  {
    Sent(r.trace)[|Sent(s.trace)|..]
  }

  /** The call relayed some events and then told the time, if the output was thawed for it. */
  ghost predicate HandsOver(s: System, r: System, now: Time, clock: bool) {
    && Sent(s.trace) <= Sent(r.trace)
    && r.trace == s.trace + Relays(Passed(s, r)) + (if clock then TimeTold(r.m.Held(), now) else [])
    && r.m.now == if clock && r.m.Held() != [] then 0 else now
  }

  lemma PushTimeTells(s: System)
    ensures var t := PushTime(s);
      && t.trace == s.trace + TimeTold(s.m.Held(), s.m.now) && Sent(t.trace) == Sent(s.trace)
      && t.m == s.m.(now := if s.m.Held() == [] then s.m.now else 0)
  {
    forall at: Time { SentAppends(s.trace, Clock(at)); }
  }

  lemma FlushToNextHandsOver(s: System, z: Freeze)
    ensures HandsOver(s, FlushToNext(s, z), s.m.now, z.clock)
    ensures Passed(s, FlushToNext(s, z)) == s.m.first[..Least(z.flush, |s.m.first|)]
  {
    var passed := s.m.first[..Least(z.flush, |s.m.first|)];
    FlushHandsOver(s, z.flush);
    FlushKeepsDecided(s, z.flush);
    SentOfRelays(s.trace, passed);
    PushTimeTells(Flush(s, z.flush));
    assert (Sent(s.trace) + passed)[|Sent(s.trace)|..] == passed;
    assert !z.clock ==> s.trace + Relays(passed) + [] == s.trace + Relays(passed);
  }

  lemma FlushToNextKeepsDecided(s: System, z: Freeze)
    ensures Decided(FlushToNext(s, z)) == Decided(s)
  {
    FlushKeepsDecided(s, z.flush);
    PushTimeKeepsDecided(Flush(s, z.flush));
  }

  /** As many events as the output lets through, of those decided; and no more decided than turns taken. */
  ghost predicate InBudget(s: System, r: System, z: Freeze) {
    && Sent(s.trace) <= Sent(r.trace)
    && |Passed(s, r)| == Least(z.flush, |Decided(r)| - |Sent(s.trace)|)
    && Decided(s) <= Decided(r) && |Decided(r)| <= |Decided(s)| + z.run
  }

  lemma RunAndFlushHandsOver(c: Config, s: System, force: bool, z: Freeze)
    ensures HandsOver(s, RunAndFlush(c, s, force, z), s.m.now, z.clock)
    ensures InBudget(s, RunAndFlush(c, s, force, z), z)
  {
    var ran := s.(m := Run(c, s.m, force, z.run));
    RunDecidesInTurn(c, s.m, force, z.run);
    FlushToNextHandsOver(ran, z);
    FlushToNextKeepsDecided(ran, z);
    assert Decided(ran) == Sent(s.trace) + ran.m.first;
  }

  /** The clock during a call: a key event sets it back, a confirmation leaves it. */
  function ClockIn(s: System, input: Input): Time {
    match input
    case TimeIs(now) => now
    case Confirm => s.m.now
    case _ => 0
  }

  /** Every call, wherever the output freezes: what is relayed are the oldest events decided, as many as the output
      lets through; then the time is told, once; and no more is decided than the loop had turns. Key events
      tell the time too, skipped ones included; a tick before the last one heard tells nothing. */
  lemma StepHandsOver(c: Config, s: System, call: Call)
    ensures var r := Step(c, s, call);
      if call.input.TimeIs? && call.input.now < s.m.now then r == s
      else if call.input.OutOfBounds? then r == s.(m := s.m.(now := 0))
      else HandsOver(s, r, ClockIn(s, call.input), call.freeze.clock) && InBudget(s, r, call.freeze)
  {
    match call.input {
      case KeyEvent(e) => RunAndFlushHandsOver(c, Receive(s, e), false, call.freeze);
      case OutOfBounds =>
      case TimeIs(now) => RunAndFlushHandsOver(c, s.(m := s.m.(now := now)), false, call.freeze);
      case Confirm => RunAndFlushHandsOver(c, s, true, call.freeze);
    }
  }

  /** What the loop starts from in a call. */
  function Entered(s: System, input: Input): System {
    match input
    case KeyEvent(e) => Receive(s, e)
    case TimeIs(now) => s.(m := s.m.(now := now))
    case _ => s
  }

  /** After any unfrozen call of a run, a key event, skipped or not, a tick or a confirmation, everything decided
      is downstream, and if something is held, the last signal is the time of the oldest event held, unless that
      is 0. If nothing is held, the last signal is the time of the tick. */
  lemma EveryCallTellsTime(c: Config, calls: seq<Call>, call: Call)
    requires !call.input.OutOfBounds? && (call.input.TimeIs? ==> Play(c, calls).m.now <= call.input.now)
    requires Unfrozen(Entered(Play(c, calls), call.input).m, call.freeze)
    ensures var s, r := Play(c, calls), Step(c, Play(c, calls), call);
      && Sent(r.trace) == Decided(r)
      && (r.m.Held() != [] && r.m.Held()[0].time != 0 ==>
            r.trace != [] && r.trace[|r.trace|-1] == Clock(r.m.Held()[0].time))
      && (r.m.Held() == [] && call.input.TimeIs? && call.input.now != 0 ==>
            r.trace != [] && r.trace[|r.trace|-1] == Clock(call.input.now))
      && (r.m.Held() == [] && call.input.KeyEvent? ==>
            Sent(s.trace) <= Decided(r) && r.trace == s.trace + Relays(Decided(r)[|Sent(s.trace)|..]))
  {
    PlayKeepsInv(c, calls);
    var s, r := Play(c, calls), Step(c, Play(c, calls), call);
    var t := Entered(s, call.input);
    if call.input.KeyEvent? {
      ReceiveKeepsInv(c, s, call.input.e);
    }
    UnfrozenRunRelaysAll(c, t, call.input.Confirm?, call.freeze);
    StepHandsOver(c, s, call);
    assert Sent(r.trace) + [] == Sent(r.trace);
  }
}
