/** A key that is let through repeats: once struck again, or repeated while held, all its presses up to its
    release go out as themselves. */
module Repeating {
  import opened Configuration
  import opened Automaton
  import opened LookAhead
  import opened Refinement
  import opened WholeRuns
  import opened Recoding
  import opened Downstream

  /** One turn sends every event of a key let through as itself, and keeps it let through until its release. */
  lemma TurnKeepsLetThrough(c: Config, core: Core, es: seq<Event>, k: Key)
    requires es != [] && core.active[k] == k != NO_KEY
    ensures !es[0].Releases(k) ==> InTurn(c, core, es).1.active[k] == k
    ensures es[0].key == k && es[0].Raw() ==> InTurn(c, core, es).0 == es[0]
    ensures es[0].key == k ==> !Suspicious(c, core, es[0])
  {
  }

  lemma {:induction false} LetThroughUpToRelease(c: Config, p: Patience, core: Core, k: Key, es: seq<Event>, i: nat)
    requires core.active[k] == k != NO_KEY && AllRaw(es)
    requires i < |es| && i < |Settle(c, p, core, es).sent| && es[i].key == k
    requires forall j :: 0 <= j < i ==> !es[j].Releases(k)
    ensures Settle(c, p, core, es).sent[i] == es[i]
    decreases i
  {
    TurnKeepsLetThrough(c, core, es, k);
    if i > 0 {
      LetThroughUpToRelease(c, p, InTurn(c, core, es).1, k, es[1..], i - 1);
    }
  }

  lemma {:induction false} LetThroughAlone(c: Config, p: Patience, core: Core, k: Key, es: seq<Event>)
    requires core.active[k] == k != NO_KEY && AllRaw(es)
    requires forall j :: 0 <= j < |es| ==> es[j].Presses(k)
    ensures var o := Settle(c, p, core, es); o.sent == es && o.held == [] && !o.stuck
    decreases |es|
  {
    if es != [] {
      TurnKeepsLetThrough(c, core, es, k);
      LetThroughAlone(c, p, InTurn(c, core, es).1, k, es[1..]);
    }
  }

  lemma RepressedInTime(c: Config, core: Core, es: seq<Event>, x: nat)
    requires es != [] && c.repeatable[es[0].key] && x < |es| - 1
    requires EndsInTime(c, core, es[0], es[1..], x) && es[1..][x].Presses(es[0].key)
    ensures Foresee(c, core, es) == SelfPlain
  {
    LookAheadRule(c, core, es[0], es[1..]);
  }

  /** A repeatable key under suspicion is re-pressed in time, with no verifier down: from that press on, whatever
      else is pressed in between, each of its events up to and with its release goes out as itself. No clock
      and no force changes that. */
  lemma RepeatedWhileHeld(c: Config, p: Patience, core: Core, es: seq<Event>, x: nat, i: nat)
    requires AllRaw(es) && es != [] && Suspicious(c, core, es[0]) && c.repeatable[es[0].key]
    requires x < |es| - 1 && EndsInTime(c, core, es[0], es[1..], x) && es[1..][x].Presses(es[0].key)
    requires i < |es| && es[i].key == es[0].key && forall j :: 0 <= j < i ==> !es[j].Releases(es[0].key)
    ensures var sent := Settle(c, p, core, es).sent;
      sent != [] && (i < |sent| ==> sent[i] == es[i])
  {
    RepressedInTime(c, core, es, x);
    var (first, after) := Sentence(c, core, es[0], SelfPlain);
    assert Settle(c, p, core, es) == Prepend([first], Settle(c, p, after, es[1..]));
    if 0 < i < |Settle(c, p, core, es).sent| {
      LetThroughUpToRelease(c, p, after, es[0].key, es[1..], i - 1);
    }
  }

  /** The auto-repeat of a repeatable key: a first repetition within its interval, and any number of further
      ones at any time, are all sent as the key itself, and nothing is held. */
  lemma AutoRepeatTypesItself(c: Config, p: Patience, core: Core, k: Key, at: Time, again: Time, rest: seq<Event>)
    requires Suspicious(c, core, Typed(k, at, Press)) && c.repeatable[k]
    requires again < at + c.IntervalOf(k, NO_KEY)
    requires AllRaw(rest) && forall j :: 0 <= j < |rest| ==> rest[j].Presses(k)
    ensures var es := [Typed(k, at, Press), Typed(k, again, Press)] + rest;
      var o := Settle(c, p, core, es);
      o.sent == es && o.held == [] && !o.stuck
  {
    var e, q := Typed(k, at, Press), Typed(k, again, Press);
    var es := [e, q] + rest;
    assert es[1..] == [q] + rest && es[1..][0] == q;
    assert Foresee(c, core, es) == SelfPlain;
    LetThroughAlone(c, p, Sentence(c, core, e, SelfPlain).1, k, es[1..]);
  }

  lemma PressedAndReleased(c: Config, p: Patience, core: Core, k: Key, at: Time, up: Time, tail: seq<Event>)
    returns (sent: seq<Event>, after: Core)
    requires Suspicious(c, core, Typed(k, at, Press))
    ensures Settle(c, p, core, [Typed(k, at, Press), Typed(k, up, Release)] + tail) ==
            Prepend(sent, Settle(c, p, after, tail))
    ensures |sent| == 2 && after.active[k] == NO_KEY
    ensures up < at + c.IntervalOf(k, NO_KEY) || c.considerForks ==>
              after.lastReleased == k && after.lastReleasedTime == up
  {
    var e, r := Typed(k, at, Press), Typed(k, up, Release);
    var es := [e, r] + tail;
    assert es[1..] == [r] + tail && es[1..][0] == r && es[1..][1..] == tail;
    var v := if up < at + c.IntervalOf(k, NO_KEY) then Plain else Fork;
    assert Foresee(c, core, es) == v;
    var (first, middle) := Sentence(c, core, e, v);
    var (second, last) := Passage(c, middle, r);
    sent, after := [first, second], last;
    assert Settle(c, p, middle, es[1..]) == Prepend([second], Settle(c, p, after, tail));
    PrependTwice([first], [second], Settle(c, p, after, tail));
  }

  lemma StruckAgainAlone(c: Config, p: Patience, core: Core, k: Key, again: Time, rest: seq<Event>)
    requires core.active[k] == NO_KEY && c.Forkable(k) && k != NO_KEY
    requires core.lastReleased == k && again <= core.lastReleasedTime + c.repeatMax
    requires AllRaw(rest) && forall j :: 0 <= j < |rest| ==> rest[j].Presses(k)
    ensures var o := Settle(c, p, core, [Typed(k, again, Press)] + rest);
      o.sent == [Typed(k, again, Press)] + rest && o.held == [] && !o.stuck
  {
    var q := Typed(k, again, Press);
    assert ([q] + rest)[1..] == rest;
    LetThroughAlone(c, p, Passage(c, core, q).1, k, rest);
  }

  /** A key struck again soon enough after its release is free to repeat: that press and all further ones, at
      any time, are sent as the key itself, and nothing is held. */
  lemma QuickRepressIsFree(c: Config, p: Patience, core: Core, k: Key, at: Time, up: Time, again: Time,
                           rest: seq<Event>)
    requires Suspicious(c, core, Typed(k, at, Press))
    requires again <= up + c.repeatMax && (up < at + c.IntervalOf(k, NO_KEY) || c.considerForks)
    requires AllRaw(rest) && forall j :: 0 <= j < |rest| ==> rest[j].Presses(k)
    ensures var tail := [Typed(k, again, Press)] + rest;
      var o := Settle(c, p, core, [Typed(k, at, Press), Typed(k, up, Release)] + tail);
      |o.sent| == 2 + |tail| && o.sent[2..] == tail && o.held == [] && !o.stuck
  {
    var tail := [Typed(k, again, Press)] + rest;
    var sent, after := PressedAndReleased(c, p, core, k, at, up, tail);
    StruckAgainAlone(c, p, after, k, again, rest);
  }
}
