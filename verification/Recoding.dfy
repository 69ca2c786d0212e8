/** Keys pressed again before their release: the one way a key that is down changes its code, and what that
    leaves downstream. */
module Recoding {
  import opened Configuration
  import opened Automaton
  import opened LookAhead
  import opened Refinement
  import opened EntryPoints
  import opened WholeRuns
  import opened Timing
  import opened Admission
  import opened Downstream

  /** A press of the key strictly between the two positions is recoded. */
  ghost predicate RecodedBetween(log: seq<Event>, k: Key, i: nat, j: nat)
    requires j <= |log|
  {
    exists r: nat :: i < r < j && log[r].key == k && Recoded(log, r)
  }

  lemma RecodedOneLater(log: seq<Event>, k: Key, i: nat, j: nat)
    requires i < j < |log|
    ensures RecodedBetween(log, k, i, j + 1) <==>
            RecodedBetween(log, k, i, j) || (log[j].key == k && Recoded(log, j))
  {
    if RecodedBetween(log, k, i, j) {
      var r: nat :| i < r < j && log[r].key == k && Recoded(log, r);
      assert i < r < j + 1;
    }
  }

  /** From a press up to its release the key keeps the code of the press, unless it is recoded, which can
      happen once, from its own code to its fork. */
  lemma {:induction false} StandingSincePress(c: Config, log: seq<Event>, k: Key, i: nat, j: nat)
    requires RecodesToFork(c, log) && i < j <= |log| && log[i].Presses(k)
    requires forall r :: i < r < j ==> !log[r].Releases(k)
    ensures var hit := RecodedBetween(log, k, i, j);
      && StandingAfter(Up, log[..j], k) == Down(if hit then c.forkOf[k] else log[i].code)
      && (hit ==> log[i].code == k != c.forkOf[k])
    decreases j
  {
    assert log[..j] == log[..j-1] + [log[j-1]];
    StandingOneMore(log[..j-1], log[j-1], k);
    if i + 1 < j {
      StandingSincePress(c, log, k, i, j - 1);
      RecodedOneLater(log, k, i, j - 1);
    }
  }

  /** In every run, whatever is typed: the first release sent after a press of a key carries the code of that
      press if and only if no press of the key sent in between was recoded. */
  lemma ReleaseMatchesUnlessRecoded(c: Config, calls: seq<Call>, k: Key, i: nat, j: nat)
    requires i < j < |Decided(Play(c, calls))|
    requires Decided(Play(c, calls))[i].Presses(k) && Decided(Play(c, calls))[j].Releases(k)
    requires forall r :: i < r < j ==> !Decided(Play(c, calls))[r].Releases(k)
    ensures Decided(Play(c, calls))[j].code == Decided(Play(c, calls))[i].code <==>
            !RecodedBetween(Decided(Play(c, calls)), k, i, j)
  {
    PlayKeepsInv(c, calls);
    StandingSincePress(c, Decided(Play(c, calls)), k, i, j);
  }

  // ---- Codes left pressed ----

  /** The press at `i` is the last event, press or release, that carries its code: the next layer takes the
      code to be down. */
  ghost predicate LastOfCode(log: seq<Event>, code: Keycode, i: nat)
    requires i < |log|
  {
    && log[i].kind.Press? && log[i].code == code
    && forall r :: i < r < |log| ==> log[r].code != code || log[r].kind.Other?
  }

  lemma {:induction false} NoReleaseSince(c: Config, log: seq<Event>, i: nat, j: nat)
    requires RecodesToFork(c, log) && WellPaired(log) && i < j <= |log| && LastOfCode(log, log[i].code, i)
    requires !RecodedBetween(log, log[i].key, i, j)
    ensures forall r :: i < r < j ==> !log[r].Releases(log[i].key)
    decreases j
  {
    if i + 1 < j {
      RecodedOneLater(log, log[i].key, i, j - 1);
      NoReleaseSince(c, log, i, j - 1);
      StandingSincePress(c, log, log[i].key, i, j - 1);
    }
  }

  /** If a key is down, some last press of it put it down with that code. */
  lemma {:induction false} DownByPress(log: seq<Event>, k: Key, code: Keycode) returns (l: nat)
    requires StandingAfter(Up, log, k) == Down(code)
    ensures l < |log| && log[l].Presses(k) && log[l].code == code
    ensures forall r :: l < r < |log| ==> !log[r].Presses(k)
    decreases |log|
  {
    var e := log[|log|-1];
    if e.Presses(k) {
      l := |log| - 1;
    } else {
      l := DownByPress(log[..|log|-1], k, code);
    }
  }

  lemma HeldUnlessRecoded(c: Config, log: seq<Event>, i: nat)
    requires RecodesToFork(c, log) && WellPaired(log) && i < |log| && LastOfCode(log, log[i].code, i)
    ensures StandingAfter(Up, log, log[i].key) == Down(log[i].code) <==>
            !RecodedBetween(log, log[i].key, i, |log|)
  {
    var k := log[i].key;
    assert log[..|log|] == log;
    if !RecodedBetween(log, k, i, |log|) {
      NoReleaseSince(c, log, i, |log|);
      StandingSincePress(c, log, k, i, |log|);
    } else if StandingAfter(Up, log, k) == Down(log[i].code) {
      var _ := DownByPress(log, k, log[i].code);
    }
  }

  /** In every run, whatever is typed: a code the next layer takes to be down is still held by the key that
      last pressed it, if and only if no later press of that key was recoded. */
  lemma PressedCodeIsHeldUnlessRecoded(c: Config, calls: seq<Call>, i: nat)
    requires i < |Decided(Play(c, calls))|
    requires LastOfCode(Decided(Play(c, calls)), Decided(Play(c, calls))[i].code, i)
    ensures var d := Decided(Play(c, calls));
      StandingAfter(Up, d, d[i].key) == Down(d[i].code) <==> !RecodedBetween(d, d[i].key, i, |d|)
  {
    PlayKeepsInv(c, calls);
    HeldUnlessRecoded(c, Decided(Play(c, calls)), i);
  }

  /** Once all the keys decided so far are up again, a code is left pressed downstream if and only if the key
      that last pressed it was recoded since. */
  lemma CodeStaysPressedIffRecoded(c: Config, calls: seq<Call>, code: Keycode)
    requires forall k: Key :: StandingAfter(Up, Decided(Play(c, calls)), k).Up?
    ensures var d := Decided(Play(c, calls));
      (exists i: nat :: i < |d| && LastOfCode(d, code, i)) <==>
      (exists i: nat :: i < |d| && LastOfCode(d, code, i) && RecodedBetween(d, d[i].key, i, |d|))
  {
    var d := Decided(Play(c, calls));
    if i: nat :| i < |d| && LastOfCode(d, code, i) {
      PressedCodeIsHeldUnlessRecoded(c, calls, i);
    }
  }

  /** With no key pressed twice without its release nothing is recoded, so once all keys are up no code is
      left pressed. */
  lemma WellTypedLeavesNothingPressed(c: Config, calls: seq<Call>, i: nat)
    requires NoDoublePress(KeysOf(calls)) && i < |Decided(Play(c, calls))|
    ensures !Recoded(Decided(Play(c, calls)), i)
    ensures (forall k: Key :: StandingAfter(Up, Decided(Play(c, calls)), k).Up?) ==>
              !LastOfCode(Decided(Play(c, calls)), Decided(Play(c, calls))[i].code, i)
  {
    var d := Decided(Play(c, calls));
    WellTypedFindsUp(c, calls);
    if LastOfCode(d, d[i].code, i) {
      PressedCodeIsHeldUnlessRecoded(c, calls, i);
    }
  }

  lemma WellTypedFindsUp(c: Config, calls: seq<Call>)
    requires NoDoublePress(KeysOf(calls))
    ensures PressesFindUp(Decided(Play(c, calls)))
  {
    var s := Play(c, calls);
    NothingLost(c, calls);
    TypedWellKeptWell(c, calls);
    PrefixFindsUp(s.enqueued, |Decided(s)|);
    FindingUpIgnoresCodes(Decided(s), s.enqueued[..|Decided(s)|]);
  }

  // ---- Which presses are recoded ----

  /** The press es[0], finding its key down, is sent with another code if and only if it is suspicious, its
      verdict is a fork, and the key forks to another code. That it is suspicious can be seen beforehand. */
  lemma RepressIsRecodedIff(c: Config, core: Core, log: seq<Event>, es: seq<Event>)
    requires CodesKnown(c, core) && Faithful(core, log)
    requires es != [] && es[0].Raw() && es[0].kind.Press? && StandingAfter(Up, log, es[0].key).Down?
    ensures InTurn(c, core, es).0.code != StandingAfter(Up, log, es[0].key).code <==>
            Suspicious(c, core, es[0]) && Forced(Foresee(c, core, es)).Fork? && c.forkOf[es[0].key] != es[0].key
  {
    var k := es[0].key;
    assert core.active[k] == NO_KEY || core.active[k] == k || core.active[k] == c.forkOf[k];
    assert StandingAfter(Up, log, k).code == CodeOf(core.active[k], k);
  }

  lemma {:induction false} CoreBeforeNext(c: Config, core: Core, es: seq<Event>, i: nat)
    requires i < |es|
    ensures CoreBefore(c, core, es, i + 1) == InTurn(c, CoreBefore(c, core, es, i), es[i..]).1
    decreases i
  {
    if i == 0 {
      assert es[0..] == es;
    } else {
      CoreBeforeNext(c, InTurn(c, core, es).1, es[1..], i - 1);
      assert es[1..][i - 1..] == es[i..];
    }
  }

  lemma InTurnEmits(c: Config, core: Core, es: seq<Event>)
    requires CodesKnown(c, core) && es != [] && es[0].Raw()
    ensures Emits(c, core, es[0], InTurn(c, core, es).0, InTurn(c, core, es).1)
    ensures CodesKnown(c, InTurn(c, core, es).1)
  {
    if Suspicious(c, core, es[0]) {
      SentenceEmits(c, core, es[0], Forced(Foresee(c, core, es)));
    } else {
      PassageEmits(c, core, es[0]);
      PassageKnowsCodes(c, core, es[0]);
    }
  }

  lemma InTurnKeepsFaithful(c: Config, core: Core, log: seq<Event>, es: seq<Event>)
    requires CodesKnown(c, core) && Faithful(core, log) && WellPaired(log) && es != [] && es[0].Raw()
    ensures var (out, after) := InTurn(c, core, es);
      CodesKnown(c, after) && Faithful(after, log + [out]) && WellPaired(log + [out])
  {
    InTurnEmits(c, core, es);
    EmissionKeepsPairing(c, core, log, es[0], InTurn(c, core, es).0, InTurn(c, core, es).1);
  }

  /** What is committed before each turn knows how the keys stand in what was sent before it. */
  lemma {:induction false} CoreBeforeIsFaithful(c: Config, p: Patience, es: seq<Event>, i: nat)
    requires AllRaw(es) && i <= |es| && i <= |Settle(c, p, Start().core, es).sent|
    ensures var sent, core := Settle(c, p, Start().core, es).sent, CoreBefore(c, Start().core, es, i);
      CodesKnown(c, core) && Faithful(core, sent[..i]) && WellPaired(sent[..i])
    decreases i
  {
    var sent := Settle(c, p, Start().core, es).sent;
    if i > 0 {
      CoreBeforeIsFaithful(c, p, es, i - 1);
      CoreBeforeNext(c, Start().core, es, i - 1);
      SettleInTurn(c, p, Start().core, es, i - 1);
      InTurnKeepsFaithful(c, CoreBefore(c, Start().core, es, i - 1), sent[..i - 1], es[i - 1..]);
      assert sent[..i] == sent[..i - 1] + [sent[i - 1]];
    }
  }

  /** Over a finished run: the press sent at `r` is recoded if and only if it finds its key down, is suspicious
      in its turn, is foreseen to fork, and its key forks to another code. */
  lemma RecodedInRunIff(c: Config, calls: seq<Call>, p: Patience, r: nat)
    requires Timely(calls) && NoForce(calls) && Finished(c, calls, p)
    requires r < |Decided(Play(c, calls))| && r < |Play(c, calls).enqueued|
    ensures var d, es := Decided(Play(c, calls)), Play(c, calls).enqueued;
      var before, e := CoreBefore(c, Start().core, es, r), es[r];
      Recoded(d, r) <==>
        && e.kind.Press? && StandingAfter(Up, d[..r], e.key).Down?
        && Suspicious(c, before, e) && Forced(Foresee(c, before, es[r..])).Fork? && c.forkOf[e.key] != e.key
  {
    var d, es := Decided(Play(c, calls)), Play(c, calls).enqueued;
    var before := CoreBefore(c, Start().core, es, r);
    PlayKeepsInv(c, calls);
    NothingLost(c, calls);
    FinishedRunIsLookAhead(c, calls, p);
    SettleInTurn(c, p, Start().core, es, r);
    CoreBeforeIsFaithful(c, p, es, r);
    assert d[r] == es[..|d|][r].(code := d[r].code);
    if es[r].kind.Press? && StandingAfter(Up, d[..r], es[r].key).Down? {
      RepressIsRecodedIff(c, before, d[..r], es[r..]);
    }
  }
}
