/** What the machine has committed is a function of the past: of the events it took in and of the codes it
    sent them with. No state of the machine is needed to tell which press opens a guess and how every event
    goes out. */
module History {
  import opened Configuration
  import opened Automaton
  import opened LookAhead
  import opened Refinement
  import opened EntryPoints
  import opened WholeRuns
  import opened Timing
  import opened Holding
  import opened Recoding

  // ---- The past ----

  /** The release that counts for a re-press before position `i`: the last one sent. Unless forks are
      considered, the release of a key that was sent as its fork, or was let through, counts as none. */
  ghost function CountedRelease(c: Config, es: seq<Event>, out: seq<Event>, i: nat): (Keycode, Time)
    requires i <= |out| <= |es|
    decreases i, 0
  {
    if i == 0 then (NO_KEY, 0)
    else
      var k, before := es[i - 1].key, StandingAfter(Up, out[..i - 1], es[i - 1].key);
      if !es[i - 1].kind.Release? then CountedRelease(c, es, out, i - 1)
      else if c.considerForks || (before in {Up, Down(k)} && !LetThrough(c, es, out, k, i - 1)) then (k, es[i - 1].time)
      else (NO_KEY, 0)
  }

  /** Pressed again soon enough after its own release. */
  ghost predicate StruckAgain(c: Config, es: seq<Event>, out: seq<Event>, i: nat)
    requires i <= |out| <= |es| && i < |es|
    decreases i, 1
  {
    var (k, at) := CountedRelease(c, es, out, i);
    es[i].key == k && es[i].time <= at + c.repeatMax
  }

  /** The press at `j` went out as itself, not because it was released in time: it was struck again, or
      repeated while it was held. */
  ghost predicate Frees(c: Config, es: seq<Event>, out: seq<Event>, j: nat)
    requires j < |out| <= |es|
    decreases j, 2
  {
    && es[j].kind.Press? && out[j].code == es[j].key
    && es[j].key != NO_KEY && !es[j].ignored && c.forkOf[es[j].key] != NO_KEY
    && (StruckAgain(c, es, out, j) || !ReleasedInTime(c, CoreBefore(c, Start().core, es, j), es[j..]))
  }

  /** The first event to end a guess about es[0] is its release, in time. */
  ghost predicate ReleasedInTime(c: Config, core: Core, es: seq<Event>)
    requires es != []
  {
    exists x: nat :: x < |es| - 1 && EndsInTime(c, core, es[0], es[1..], x) && es[1..][x].Releases(es[0].key)
  }

  /** Before position `i` the key is let through for good, until it is released. */
  ghost predicate LetThrough(c: Config, es: seq<Event>, out: seq<Event>, k: Key, i: nat)
    requires i <= |out| <= |es|
    decreases i, 0
  {
    exists j: nat :: j < i && es[j].key == k && Frees(c, es, out, j) && NotReleased(es, k, j, i)
  }

  ghost predicate NotReleased(es: seq<Event>, k: Key, j: nat, i: nat)
    requires i <= |es|
  {
    forall x :: j < x < i ==> !es[x].Releases(k)
  }

  lemma LetThroughOneMore(c: Config, es: seq<Event>, out: seq<Event>, k: Key, i: nat)
    requires i < |out| <= |es|
    ensures LetThrough(c, es, out, k, i + 1) <==>
            (es[i].key == k && Frees(c, es, out, i)) || (LetThrough(c, es, out, k, i) && !es[i].Releases(k))
  {
    if LetThrough(c, es, out, k, i) && !es[i].Releases(k) {
      var j: nat :| j < i && es[j].key == k && Frees(c, es, out, j) && NotReleased(es, k, j, i);
      assert NotReleased(es, k, j, i + 1);
    }
    if es[i].key == k && Frees(c, es, out, i) {
      assert NotReleased(es, k, i, i + 1);
    }
    if LetThrough(c, es, out, k, i + 1) {
      var j: nat :| j < i + 1 && es[j].key == k && Frees(c, es, out, j) && NotReleased(es, k, j, i + 1);
      assert j < i ==> NotReleased(es, k, j, i) && !es[i].Releases(k);
    }
  }

  /** The entry of a key in the active table, from the past. */
  ghost function Active(c: Config, es: seq<Event>, out: seq<Event>, k: Key, i: nat): Keycode
    requires i <= |out| <= |es|
  {
    match StandingAfter(Up, out[..i], k)
    case Up => NO_KEY
    case Down(code) => if code != k then code else if LetThrough(c, es, out, k, i) then k else NO_KEY
  }

  /** The entry of a key is what the past says; a key let through is down as itself. */
  ghost predicate KeyRecorded(c: Config, core: Core, es: seq<Event>, out: seq<Event>, k: Key, i: nat)
    requires i <= |out| <= |es|
  {
    && core.active[k] == Active(c, es, out, k, i)
    && (LetThrough(c, es, out, k, i) ==> StandingAfter(Up, out[..i], k) == Down(k) && k != NO_KEY)
    && (StandingAfter(Up, out[..i], k) == Down(NO_KEY) ==> k == NO_KEY)
  }

  ghost predicate Recorded(c: Config, core: Core, es: seq<Event>, out: seq<Event>, i: nat)
    requires i <= |out| <= |es|
  {
    && (core.lastReleased, core.lastReleasedTime) == CountedRelease(c, es, out, i)
    && forall k: Key :: KeyRecorded(c, core, es, out, k, i)
  }

  /** Does the press at `i` open a guess? Not if its key is down with another code or let through, and not if
      it is struck again. */
  ghost predicate Opens(c: Config, es: seq<Event>, out: seq<Event>, i: nat)
    requires i <= |out| <= |es| && i < |es|
  {
    && es[i].kind.Press? && !es[i].ignored && es[i].key != NO_KEY && c.forkOf[es[i].key] != NO_KEY
    && StandingAfter(Up, out[..i], es[i].key) in {Up, Down(es[i].key)}
    && !LetThrough(c, es, out, es[i].key, i) && !StruckAgain(c, es, out, i)
  }

  lemma SuspiciousIffOpens(c: Config, core: Core, es: seq<Event>, out: seq<Event>, i: nat)
    requires i <= |out| <= |es| && i < |es| && Recorded(c, core, es, out, i)
    ensures Suspicious(c, core, es[i]) <==> Opens(c, es, out, i)
    ensures Forked(core, es[i].key) <==> StandingAfter(Up, out[..i], es[i].key) !in {Up, Down(es[i].key)}
  {
    var k := es[i].key;
    assert KeyRecorded(c, core, es, out, k, i);
  }

  /** One turn records a release as the last one, or forgets it. */
  lemma ReleaseIsRecorded(c: Config, core: Core, es: seq<Event>, out: seq<Event>, i: nat, after: Core)
    requires i < |out| <= |es| && Recorded(c, core, es, out, i) && Remembers(c, core, es[i], after)
    ensures (after.lastReleased, after.lastReleasedTime) == CountedRelease(c, es, out, i + 1)
  {
    var k := es[i].key;
    assert KeyRecorded(c, core, es, out, k, i);
  }

  lemma StandingOneOn(out: seq<Event>, k: Key, i: nat)
    requires i < |out|
    ensures StandingAfter(Up, out[..i + 1], k) ==
            if out[i].Presses(k) then Down(out[i].code)
            else if out[i].Releases(k) then Up
            else StandingAfter(Up, out[..i], k)
  {
    assert out[..i + 1][..i] == out[..i];
  }

  /** A press is marked as let through exactly when it frees its key. */
  lemma PressIsRecorded(c: Config, core: Core, es: seq<Event>, out: seq<Event>, i: nat)
    requires i < |out| <= |es| && Recorded(c, core, es, out, i) && core == CoreBefore(c, Start().core, es, i)
    requires CodesKnown(c, core) && es[i].Raw() && es[i].kind.Press?
    requires out[i] == InTurn(c, core, es[i..]).0 && out[i].code == es[i].key != NO_KEY
    requires Suspicious(c, core, es[i]) ==> !Foresee(c, core, es[i..]).Stutter?
    ensures InTurn(c, core, es[i..]).1.active[es[i].key] ==
            if Frees(c, es, out, i) || LetThrough(c, es, out, es[i].key, i) then es[i].key else NO_KEY
  {
    var e, k := es[i], es[i].key;
    SuspiciousIffOpens(c, core, es, out, i);
    assert KeyRecorded(c, core, es, out, k, i);
    assert core.active[k] in {NO_KEY, k, c.forkOf[k]};
    if Suspicious(c, core, e) {
      LookAheadRule(c, core, e, es[i..][1..]);
      assert ReleasedInTime(c, core, es[i..]) <==> Foresee(c, core, es[i..]).Plain?;
    }
  }

  lemma OtherKeyIsRecorded(c: Config, core: Core, after: Core, es: seq<Event>, out: seq<Event>, k: Key, i: nat)
    requires i < |out| <= |es| && KeyRecorded(c, core, es, out, k, i)
    requires k != es[i].key == out[i].key && after.active[k] == core.active[k]
    ensures KeyRecorded(c, after, es, out, k, i + 1)
  {
    LetThroughOneMore(c, es, out, k, i);
    StandingOneOn(out, k, i);
  }

  lemma OwnKeyIsRecorded(c: Config, core: Core, after: Core, es: seq<Event>, out: seq<Event>, i: nat)
    requires i < |out| <= |es| && KeyRecorded(c, core, es, out, es[i].key, i)
    requires Emits(c, core, es[i], out[i], after)
    requires es[i].kind.Press? && out[i].code == es[i].key != NO_KEY ==>
               after.active[es[i].key] ==
               if Frees(c, es, out, i) || LetThrough(c, es, out, es[i].key, i) then es[i].key else NO_KEY
    ensures KeyRecorded(c, after, es, out, es[i].key, i + 1)
  {
    LetThroughOneMore(c, es, out, es[i].key, i);
    StandingOneOn(out, es[i].key, i);
  }

  lemma TurnIsRecorded(c: Config, core: Core, es: seq<Event>, out: seq<Event>, i: nat)
    requires i < |out| <= |es| && Recorded(c, core, es, out, i) && core == CoreBefore(c, Start().core, es, i)
    requires CodesKnown(c, core) && es[i].Raw() && out[i] == InTurn(c, core, es[i..]).0
    requires Suspicious(c, core, es[i]) ==> !Foresee(c, core, es[i..]).Stutter?
    ensures Recorded(c, InTurn(c, core, es[i..]).1, es, out, i + 1)
  {
    var e, after, next := es[i], InTurn(c, core, es[i..]).1, i + 1;
    InTurnEmits(c, core, es[i..]);
    ReleaseIsRecorded(c, core, es, out, i, after);
    if e.kind.Press? && out[i].code == e.key != NO_KEY {
      PressIsRecorded(c, core, es, out, i);
    }
    forall k: Key
      ensures KeyRecorded(c, after, es, out, k, next)
    {
      if k == e.key {
        OwnKeyIsRecorded(c, core, after, es, out, i);
      } else {
        OtherKeyIsRecorded(c, core, after, es, out, k, i);
      }
    }
  }

  /** The committed state of the machine is what the past says, at every turn. */
  lemma {:induction false} CoreIsHistory(c: Config, p: Patience, es: seq<Event>, out: seq<Event>, i: nat)
    requires AllRaw(es) && i <= |out| <= |es| && out <= Settle(c, p, Start().core, es).sent
    ensures Recorded(c, CoreBefore(c, Start().core, es, i), es, out, i)
    decreases i
  {
    if i > 0 {
      var core := CoreBefore(c, Start().core, es, i - 1);
      CoreIsHistory(c, p, es, out, i - 1);
      CoreBeforeNext(c, Start().core, es, i - 1);
      CoreBeforeIsFaithful(c, p, es, i - 1);
      SettleInTurn(c, p, Start().core, es, i - 1);
      TurnIsRecorded(c, core, es, out, i - 1);
    }
  }

  // ---- How every event goes out ----

  /** The code of the event at `i`. A release, and a press of a key that is down with another code, take the
      code the key is down with. A press that opens a guess is itself if its release or a repetition of it
      ends the guess in time, else its fork. Everything else is itself. */
  ghost function CodeFromPast(c: Config, es: seq<Event>, out: seq<Event>, i: nat): Keycode
    requires i <= |out| <= |es| && i < |es|
  {
    var e, standing := es[i], StandingAfter(Up, out[..i], es[i].key);
    if !e.kind.Other? && standing.Down? && (e.kind.Release? || standing.code != e.key) then standing.code
    else if Opens(c, es, out, i) && !EndedInTime(c, CoreBefore(c, Start().core, es, i), es[i..]) then c.forkOf[e.key]
    else e.key
  }

  /** The first event to end a guess about es[0] comes in time and re-presses no forked key. */
  ghost predicate EndedInTime(c: Config, core: Core, es: seq<Event>)
    requires es != []
  {
    exists x: nat :: x < |es| - 1 && EndsInTime(c, core, es[0], es[1..], x)
  }

  lemma VerdictFromFuture(c: Config, core: Core, es: seq<Event>)
    requires es != []
    ensures var v := Foresee(c, core, es);
      EndedInTime(c, core, es) <==> v.Plain? || v.SelfPlain? || v.Stutter?
  {
    LookAheadRule(c, core, es[0], es[1..]);
    if x: nat :| x < |es| - 1 && EndsInTime(c, core, es[0], es[1..], x) {
      assert es[1..][x].Releases(es[0].key) || es[1..][x].Presses(es[0].key);
    }
  }

  lemma TurnSendsFromPast(c: Config, core: Core, es: seq<Event>, out: seq<Event>, i: nat)
    requires i <= |out| <= |es| && i < |es| && Recorded(c, core, es, out, i)
    requires CodesKnown(c, core) && es[i].Raw() && core == CoreBefore(c, Start().core, es, i)
    requires Suspicious(c, core, es[i]) ==> !Foresee(c, core, es[i..]).Stutter?
    ensures InTurn(c, core, es[i..]).0 == es[i].(code := CodeFromPast(c, es, out, i))
  {
    var e, k := es[i], es[i].key;
    SuspiciousIffOpens(c, core, es, out, i);
    InTurnEmits(c, core, es[i..]);
    assert KeyRecorded(c, core, es, out, k, i);
    assert core.active[k] in {NO_KEY, k, c.forkOf[k]};
    if Suspicious(c, core, e) {
      VerdictFromFuture(c, core, es[i..]);
    }
  }

  /** Every event is sent as the past and the events that follow it say. */
  lemma SentFromPast(c: Config, p: Patience, es: seq<Event>, out: seq<Event>, i: nat)
    requires AllRaw(es) && i < |out| <= |es| && out <= Settle(c, p, Start().core, es).sent
    ensures out[i] == es[i].(code := CodeFromPast(c, es, out, i))
  {
    CoreIsHistory(c, p, es, out, i);
    CoreBeforeIsFaithful(c, p, es, i);
    SettleInTurn(c, p, Start().core, es, i);
    TurnSendsFromPast(c, CoreBefore(c, Start().core, es, i), es, out, i);
  }

  /** In every timely run without confirmations, at any moment and under any freezing: each event decided so far
      was sent as the past and the events admitted since say. */
  lemma DecisionsAreHistory(c: Config, calls: seq<Call>, i: nat)
    requires Timely(calls) && NoForce(calls) && i < |Decided(Play(c, calls))|
    ensures var d, es := Decided(Play(c, calls)), Play(c, calls).enqueued;
      |d| <= |es| && d[i] == es[i].(code := CodeFromPast(c, es, d, i))
  {
    var s, p := Play(c, calls), Patience(LatestOf(calls) + 1, false);
    PlayKeepsInv(c, calls);
    NothingLost(c, calls);
    PresentIsForetold(c, p, calls);
    SentFromPast(c, p, s.enqueued, Decided(s), i);
  }

  // ---- What is held ----

  lemma {:induction false} StopsInTurn(c: Config, p: Patience, core: Core, es: seq<Event>)
    ensures var o, n := Settle(c, p, core, es), |Settle(c, p, core, es).sent|;
      && n <= |es| && (n == |es| ==> !o.stuck)
      && (n < |es| ==>
            var before := CoreBefore(c, core, es, n);
            var v := Foresee(c, before, es[n..]);
            && Suspicious(c, before, es[n])
            && (if o.stuck then v.Stutter? else v.Waiting? && !p.Expires(v.guess.decision)))
    decreases |es|
  {
    if es != [] {
      var o := Settle(c, p, core, es);
      if o.sent == [] {
        assert es[0..] == es;
      } else {
        var after := InTurn(c, core, es).1;
        StopsInTurn(c, p, after, es[1..]);
        var n := |o.sent| - 1;
        assert o.sent[1..] == Settle(c, p, after, es[1..]).sent;
        assert es[1..][n..] == es[n + 1..];
      }
    }
  }

  /** The first event held back is a press that opens a guess. Either nothing that follows ends the guess, and
      the clock has not reached its decision time; or it is stuck on an early re-press that may not repeat. */
  ghost predicate HeldRightly(c: Config, p: Patience, es: seq<Event>, out: seq<Event>, stuck: bool)
    requires |out| < |es|
  {
    var n := |out|;
    var before, e, rest := CoreBefore(c, Start().core, es, n), es[n], es[n + 1..];
    && Opens(c, es, out, n)
    && if stuck then
         !c.repeatable[e.key] &&
         exists x: nat :: x < |rest| && EndsInTime(c, before, e, rest, x) && rest[x].Presses(e.key)
       else
         && (forall x: nat :: x < |rest| ==> !Ends(c, before, e.key, e.time, rest, x))
         && !p.Expires(DecisionAt(c, e.key, e.time, rest, |rest|))
  }

  lemma HeldFromPast(c: Config, p: Patience, es: seq<Event>)
    requires AllRaw(es)
    ensures var o := Settle(c, p, Start().core, es);
      |o.sent| < |es| ==> HeldRightly(c, p, es, o.sent, o.stuck)
  {
    var o := Settle(c, p, Start().core, es);
    StopsInTurn(c, p, Start().core, es);
    var n := |o.sent|;
    if n < |es| {
      var before, rest := CoreBefore(c, Start().core, es, n), es[n + 1..];
      CoreIsHistory(c, p, es, o.sent, n);
      SuspiciousIffOpens(c, before, es, o.sent, n);
      assert es[n..][1..] == rest;
      LookAheadRule(c, before, es[n], rest);
      if !o.stuck {
        VerdictInClosedForm(c, before, es[n], rest, |rest|);
      }
    }
  }

  lemma ShownIsHeldRightly(c: Config, p: Patience, s: System)
    requires AllRaw(s.enqueued) && Shows(s, Settle(c, p, Start().core, s.enqueued))
    ensures |Decided(s)| <= |s.enqueued| && Undecided(s.m) == s.enqueued[|Decided(s)|..]
    ensures Undecided(s.m) != [] ==>
              HeldRightly(c, p, s.enqueued, Decided(s), Settle(c, p, Start().core, s.enqueued).stuck)
  {
    HeldFromPast(c, p, s.enqueued);
    SettleConserves(c, p, Start().core, s.enqueued);
  }

  /** A run worked through to the end holds back nothing else. */
  lemma FinishedRunHoldsRightly(c: Config, calls: seq<Call>, p: Patience)
    requires Timely(calls) && NoForce(calls) && Finished(c, calls, p)
    ensures var s := Play(c, calls);
      && |Decided(s)| <= |s.enqueued| && Undecided(s.m) == s.enqueued[|Decided(s)|..]
      && (Undecided(s.m) != [] ==>
            HeldRightly(c, p, s.enqueued, Decided(s), Settle(c, p, Start().core, s.enqueued).stuck))
  {
    PlayKeepsInv(c, calls);
    FinishedRunIsLookAhead(c, calls, p);
    ShownIsHeldRightly(c, p, Play(c, calls));
  }

  // ---- One event on an idle machine ----

  /** The event is all that is held, and the timer runs for the time its key has alone. */
  ghost predicate IsHeld(c: Config, s: System, r: System, e: Event) {
    && r.m.Held() == [e] && Sent(r.trace) == Decided(s)
    && NextDecision(r.m) == e.time +
         if c.interval[e.key][NO_KEY] != 0 then c.interval[e.key][NO_KEY] else c.interval[NO_KEY][NO_KEY]
  }

  ghost predicate GoesOut(s: System, r: System, out: Event) {
    r.m.Held() == [] && Sent(r.trace) == Decided(s) + [out] && NextDecision(r.m) == 0
  }

  lemma AloneIsHeld(c: Config, t: System, r: System, e: Event)
    requires RelaysAll(c, t, false, r) && Undecided(t.m) == [e] && Suspicious(c, t.m.core, e) && t.m.now == 0
    ensures IsHeld(c, t, r, e)
  {
    assert [e][1..] == [];
    assert Settle(c, PatienceOf(t.m, false), t.m.core, [e]) == Outcome([], t.m.core, [e], false);
    assert Decided(t) + [] == Decided(t) && r.m.middle == [e];
    assert Foresee(c, r.m.core, [e]) == Waiting(r.m.guess);
  }

  lemma AlonePasses(c: Config, t: System, r: System, e: Event)
    requires RelaysAll(c, t, false, r) && Undecided(t.m) == [e] && !Suspicious(c, t.m.core, e)
    ensures GoesOut(t, r, Passage(c, t.m.core, e).0)
  {
    var (sent, core) := Passage(c, t.m.core, e);
    assert [e][1..] == [];
    assert Settle(c, PatienceOf(t.m, false), t.m.core, [e]) == Prepend([sent], Outcome([], core, [], false));
    assert r.m.middle == [] && Sent(r.trace) + [] == Sent(r.trace);
  }

  lemma AloneOnIdle(c: Config, s: System, e: RawEvent, z: Freeze)
    requires Inv(c, s) && Undecided(s.m) == [] && !Dropped(s.m, e) && Unfrozen(Receive(s, e).m, z)
    ensures var r := Step(c, s, Call(KeyEvent(e), z));
      if Suspicious(c, s.m.core, e) then IsHeld(c, s, r, e) else GoesOut(s, r, Passage(c, s.m.core, e).0)
  {
    var t, r := Receive(s, e), Step(c, s, Call(KeyEvent(e), z));
    ReceiveKeepsInv(c, s, e);
    UnfrozenRunRelaysAll(c, t, false, z);
    assert Undecided(t.m) == [e] && Decided(t) == Decided(s);
    if Suspicious(c, s.m.core, e) {
      AloneIsHeld(c, t, r, e);
    } else {
      AlonePasses(c, t, r, e);
    }
  }

  /** A press of a key that is up, with nothing undecided: it is held, with the timer running, if and only if
      its key forks, it is not ignored, and the last release sent is not of this key or is too old; otherwise
      it goes out at once as itself. If forks are not considered, the last release may have been forgotten,
      and has been if it carried another code than its key's own. */
  lemma PressOnIdle(c: Config, calls: seq<Call>, e: RawEvent, z: Freeze)
    requires e.kind.Press? && Undecided(Play(c, calls).m) == []
    requires StandingAfter(Up, Decided(Play(c, calls)), e.key).Up? && Unfrozen(Receive(Play(c, calls), e).m, z)
    ensures var s, r := Play(c, calls), Step(c, Play(c, calls), Call(KeyEvent(e), z));
      var last := LastRelease(Decided(s));
      var forks := e.key != NO_KEY && c.forkOf[e.key] != NO_KEY && !e.ignored;
      var again := last.key == e.key && e.time <= last.time + c.repeatMax;
      && (IsHeld(c, s, r, e) || GoesOut(s, r, e))
      && (c.considerForks ==> (IsHeld(c, s, r, e) <==> forks && !again))
      && (IsHeld(c, s, r, e) ==> forks)
      && (forks && (!again || (!c.considerForks && last.code != last.key)) ==> IsHeld(c, s, r, e))
  {
    PlayKeepsInv(c, calls);
    var s := Play(c, calls);
    assert s.m.core.active[e.key] == NO_KEY;
    AloneOnIdle(c, s, e, z);
  }

  /** With nothing undecided a release goes out at once, with the code its key is down with, if any; and any
      other event as itself. */
  lemma NonPressOnIdle(c: Config, calls: seq<Call>, e: RawEvent, z: Freeze)
    requires !e.kind.Press? && Undecided(Play(c, calls).m) == [] && Unfrozen(Receive(Play(c, calls), e).m, z)
    ensures var s, r := Play(c, calls), Step(c, Play(c, calls), Call(KeyEvent(e), z));
      GoesOut(s, r, match StandingAfter(Up, Decided(s), e.key)
                    case Up => e
                    case Down(code) => if e.kind.Release? then e.(code := code) else e)
  {
    PlayKeepsInv(c, calls);
    var s := Play(c, calls);
    AloneOnIdle(c, s, e, z);
    assert match StandingAfter(Up, Decided(s), e.key)
           case Up => s.m.core.active[e.key] == NO_KEY
           case Down(code) => code == CodeOf(s.m.core.active[e.key], e.key);
  }
}
