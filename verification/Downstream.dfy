/** What the layer below sees: over well-formed typing no code stays pressed, and the everyday gestures come
    out as meant. */
module Downstream {
  import opened Configuration
  import opened Automaton
  import opened LookAhead
  import opened Refinement
  import opened EntryPoints
  import opened WholeRuns
  import opened Admission

  /** Presses of a code minus its releases. */
  function Balance(log: seq<Event>, code: Keycode): int {
    if log == [] then 0
    else
      var e := log[|log|-1];
      Balance(log[..|log|-1], code) +
      if e.code != code || e.kind.Other? then 0 else if e.kind.Press? then 1 else -1
  }

  /** The releases of a key that found it up. */
  function Strays(log: seq<Event>, k: Key): nat {
    if log == [] then 0
    else
      var front, e := log[..|log|-1], log[|log|-1];
      Strays(front, k) + if e.Releases(k) && StandingAfter(Up, front, k).Up? then 1 else 0
  }

  /** The strays that carry this code: a stray release carries its key's own code. */
  function StraysOfCode(log: seq<Event>, code: Keycode): nat {
    if code < MAX_KEYCODE then Strays(log, code) else 0
  }

  /** The keys now down with this code. */
  ghost function DownWith(log: seq<Event>, code: Keycode): set<Key> {
    set k: Key | 0 <= k < MAX_KEYCODE && StandingAfter(Up, log, k) == Down(code)
  }

  lemma DownWithOneMore(front: seq<Event>, e: Event, code: Keycode, k: Key)
    ensures k in DownWith(front + [e], code) <==>
            if e.Presses(k) then e.code == code else !e.Releases(k) && k in DownWith(front, code)
  {
    StandingOneMore(front, e, k);
  }

  lemma PressAddsKey(front: seq<Event>, e: Event)
    requires e.kind.Press? && StandingAfter(Up, front, e.key).Up?
    ensures |DownWith(front + [e], e.code)| == |DownWith(front, e.code)| + 1
  {
    forall k: Key { DownWithOneMore(front, e, e.code, k); }
    assert DownWith(front + [e], e.code) == DownWith(front, e.code) + {e.key};
    assert e.key !in DownWith(front, e.code);
  }

  lemma ReleaseRemovesKey(front: seq<Event>, e: Event)
    requires e.kind.Release? && StandingAfter(Up, front, e.key) == Down(e.code)
    ensures |DownWith(front + [e], e.code)| == |DownWith(front, e.code)| - 1
  {
    forall k: Key { DownWithOneMore(front, e, e.code, k); }
    assert DownWith(front + [e], e.code) == DownWith(front, e.code) - {e.key};
    assert e.key in DownWith(front, e.code);
  }

  lemma OtherKeepsKeys(front: seq<Event>, e: Event, code: Keycode)
    requires e.kind.Press? ==> e.code != code && StandingAfter(Up, front, e.key).Up?
    requires e.kind.Release? ==> StandingAfter(Up, front, e.key) != Down(code)
    ensures DownWith(front + [e], code) == DownWith(front, code)
  {
    forall k: Key { DownWithOneMore(front, e, code, k); }
  }

  /** One more event changes the keys down with a code, the strays and the balance in step. */
  lemma OneMoreEvent(front: seq<Event>, e: Event, code: Keycode)
    requires e.kind.Press? ==> StandingAfter(Up, front, e.key).Up?
    requires e.kind.Release? ==>
      e.code == match StandingAfter(Up, front, e.key) case Up => e.key case Down(down) => down
    requires Balance(front, code) == |DownWith(front, code)| - StraysOfCode(front, code)
    ensures Balance(front + [e], code) == |DownWith(front + [e], code)| - StraysOfCode(front + [e], code)
  {
    assert (front + [e])[..|front|] == front;
    if e.kind.Press? && e.code == code {
      PressAddsKey(front, e);
    } else if e.kind.Release? && StandingAfter(Up, front, e.key) == Down(code) {
      ReleaseRemovesKey(front, e);
    } else {
      OtherKeepsKeys(front, e, code);
    }
  }

  lemma PairedOneMore(front: seq<Event>, e: Event)
    requires WellPaired(front + [e])
    ensures WellPaired(front)
    ensures e.kind.Release? ==>
      e.code == match StandingAfter(Up, front, e.key) case Up => e.key case Down(down) => down
  {
    var log := front + [e];
    assert log[..|front|] == front && log[|front|] == e;
    forall j: nat | j < |front|
      ensures front[..j] == log[..j] && front[j] == log[j]
    {
    }
  }

  /** A code is pressed downstream as often as it is released, but for the keys now down with it and the
      releases that found their key up. */
  lemma {:induction false} BalanceCountsKeys(log: seq<Event>, code: Keycode)
    requires PressesFindUp(log) && WellPaired(log)
    ensures Balance(log, code) == |DownWith(log, code)| - StraysOfCode(log, code)
    decreases |log|
  {
    if log == [] {
      assert DownWith(log, code) == {};
    } else {
      var front, e := log[..|log|-1], log[|log|-1];
      assert front + [e] == log;
      PairedOneMore(front, e);
      FindsUpOneMore(front, e);
      BalanceCountsKeys(front, code);
      OneMoreEvent(front, e, code);
    }
  }

  lemma PrefixButCodes(log: seq<Event>, es: seq<Event>, j: nat)
    requires SameButCodes(log, es) && j <= |log|
    ensures SameButCodes(log[..j], es[..j])
  {
    forall i | 0 <= i < j
      ensures log[..j][i] == es[..j][i].(code := log[..j][i].code)
    {
      assert log[i] == es[i].(code := log[i].code);
    }
  }

  lemma FindingUpIgnoresCodes(log: seq<Event>, es: seq<Event>)
    requires SameButCodes(log, es) && PressesFindUp(es)
    ensures PressesFindUp(log)
  {
    forall j: nat | j < |log| && log[j].kind.Press?
      ensures StandingAfter(Up, log[..j], log[j].key).Up?
    {
      assert log[j] == es[j].(code := log[j].code);
      PrefixButCodes(log, es, j);
      StandingIgnoresCodes(Up, Up, log[..j], es[..j], log[j].key);
    }
  }

  lemma {:induction false} StraysIgnoreCodes(log: seq<Event>, es: seq<Event>, k: Key)
    requires SameButCodes(log, es)
    ensures Strays(log, k) == Strays(es, k)
    decreases |log|
  {
    if log != [] {
      var n := |log| - 1;
      assert log[n] == es[n].(code := log[n].code);
      PrefixButCodes(log, es, n);
      StraysIgnoreCodes(log[..n], es[..n], k);
      StandingIgnoresCodes(Up, Up, log[..n], es[..n], k);
    }
  }

  lemma PrefixFindsUp(es: seq<Event>, n: nat)
    requires PressesFindUp(es) && n <= |es|
    ensures PressesFindUp(es[..n])
  {
    forall j: nat | j < n
      ensures es[..n][..j] == es[..j] && es[..n][j] == es[j]
    {
    }
  }

  lemma DecidedBalance(c: Config, calls: seq<Call>, code: Keycode)
    requires NoDoublePress(KeysOf(calls))
    ensures var d := Decided(Play(c, calls)); Balance(d, code) == |DownWith(d, code)| - StraysOfCode(d, code)
  {
    var s := Play(c, calls);
    var d := Decided(s);
    PlayKeepsInv(c, calls);
    NothingLost(c, calls);
    TypedWellKeptWell(c, calls);
    PrefixFindsUp(s.enqueued, |d|);
    FindingUpIgnoresCodes(d, s.enqueued[..|d|]);
    BalanceCountsKeys(d, code);
  }

  /** No code is left pressed: in every run over well-formed typing, whenever all the keys decided so far are
      up again, every code was released downstream at least as often as it was pressed; the excess is
      exactly the releases of the key of that code that found it up. */
  lemma NothingStaysPressed(c: Config, calls: seq<Call>, code: Keycode)
    requires NoDoublePress(KeysOf(calls))
    requires forall k: Key :: StandingAfter(Up, Decided(Play(c, calls)), k).Up?
    ensures Balance(Decided(Play(c, calls)), code) == 0 - StraysOfCode(Decided(Play(c, calls)), code)
  {
    DecidedBalance(c, calls, code);
    assert DownWith(Decided(Play(c, calls)), code) == {};
  }

  // ---- Strays are the skipped presses ----

  /** Every press finds its key up, every release finds it down. */
  ghost predicate Alternates(es: seq<Event>) {
    PressesFindUp(es) && ReleasesFindDown(es)
  }

  ghost predicate ReleasesFindDown(es: seq<Event>) {
    forall i: nat :: i < |es| && es[i].kind.Release? ==> StandingAfter(Up, es[..i], es[i].key).Down?
  }

  lemma FindsDownOneMore(es: seq<Event>, e: Event)
    ensures ReleasesFindDown(es + [e]) <==>
            ReleasesFindDown(es) && (e.kind.Release? ==> StandingAfter(Up, es, e.key).Down?)
  {
    var longer := es + [e];
    assert longer[..|es|] == es && longer[|es|] == e;
    forall j: nat | j < |es|
      ensures longer[..j] == es[..j] && longer[j] == es[j]
    {
    }
  }

  /** The presses of a key that were skipped. */
  function Skips(a: seq<Arrival>, k: Key): nat {
    if a == [] then 0
    else Skips(a[..|a|-1], k) + if a[|a|-1].skipped && a[|a|-1].e.Presses(k) then 1 else 0
  }

  /** The key is down as typed, but its press was skipped. */
  function Pending(a: seq<Arrival>, k: Key): nat {
    if StandingAfter(Up, Given(a), k).Down? && StandingAfter(Up, Kept(a), k).Up? then 1 else 0
  }

  /** Over well-formed typing each skipped press leaves one stray release, once that has arrived. */
  lemma {:induction false} StraysAreSkips(a: seq<Arrival>, k: Key)
    requires OnlyPressesSkipped(a) && Alternates(Given(a))
    ensures Strays(Kept(a), k) + Pending(a, k) == Skips(a, k)
    decreases |a|
  {
    if a != [] {
      var front, x := a[..|a|-1], a[|a|-1];
      assert a == front + [x];
      KeptOneMore(front, x);
      FindsUpOneMore(Given(front), x.e);
      FindsDownOneMore(Given(front), x.e);
      StraysAreSkips(front, k);
      SkipsOneMore(front, x, k);
    }
  }

  lemma SkipsOneMore(a: seq<Arrival>, x: Arrival, k: Key)
    requires OnlyPressesSkipped(a + [x])
    requires x.e.kind.Press? ==> StandingAfter(Up, Given(a), x.e.key).Up?
    requires x.e.kind.Release? ==> StandingAfter(Up, Given(a), x.e.key).Down?
    requires Strays(Kept(a), k) + Pending(a, k) == Skips(a, k)
    ensures Strays(Kept(a + [x]), k) + Pending(a + [x], k) == Skips(a + [x], k)
  {
    assert (a + [x])[..|a|] == a && (a + [x])[|a|] == x;
    assert OnlyPressesSkipped(a) by {
      forall i | 0 <= i < |a| ensures a[i] == (a + [x])[i] {}
    }
    KeptOneMore(a, x);
    DownAsTyped(a, k);
    StandingOneMore(Given(a), x.e, k);
    StandingOneMore(Kept(a), x.e, k);
    assert (Kept(a) + [x.e])[..|Kept(a)|] == Kept(a);
  }

  lemma AllUpAsTyped(c: Config, calls: seq<Call>, k: Key)
    requires StandingAfter(Up, KeysOf(calls), k).Up? && Undecided(Play(c, calls).m) == []
    ensures StandingAfter(Up, Decided(Play(c, calls)), k).Up? && Pending(Play(c, calls).arrivals, k) == 0
  {
    var s := Play(c, calls);
    PlayAccounts(c, calls);
    PlayKeepsInv(c, calls);
    DownAsTyped(s.arrivals, k);
    assert Decided(s) + [] == Decided(s);
    StandingIgnoresCodes(Up, Up, Decided(s), s.enqueued, k);
  }

  /** Once all keys typed are up and everything is decided, a key's own code is balanced downstream if and
      only if no press of that key was skipped; each skipped press leaves one release too many. Codes that
      belong to no key are always balanced. */
  lemma BalancedIffNothingSkipped(c: Config, calls: seq<Call>, code: Keycode)
    requires Alternates(KeysOf(calls)) && Undecided(Play(c, calls).m) == []
    requires forall k: Key :: StandingAfter(Up, KeysOf(calls), k).Up?
    ensures Balance(Decided(Play(c, calls)), code) ==
            if code < MAX_KEYCODE then 0 - Skips(Play(c, calls).arrivals, code) else 0
  {
    var s := Play(c, calls);
    NoDoublePressFindsUp(KeysOf(calls));
    forall k: Key
      ensures StandingAfter(Up, Decided(s), k).Up? && Pending(s.arrivals, k) == 0
    {
      AllUpAsTyped(c, calls, k);
    }
    NothingStaysPressed(c, calls, code);
    if code < MAX_KEYCODE {
      PlayAccounts(c, calls);
      PlayKeepsInv(c, calls);
      assert Decided(s) + [] == Decided(s);
      StraysIgnoreCodes(Decided(s), s.enqueued, code);
      StraysAreSkips(s.arrivals, code);
    }
  }

  /** With no key pressed twice without its release, the first release sent after a press of a key carries
      the code of that press, in every run. */
  lemma FirstReleaseMatchesPress(c: Config, calls: seq<Call>, k: Key, i: nat, j: nat)
    requires NoDoublePress(KeysOf(calls))
    requires i < j < |Decided(Play(c, calls))|
    requires Decided(Play(c, calls))[i].Presses(k) && Decided(Play(c, calls))[j].Releases(k)
    requires forall r :: i < r < j ==> !Decided(Play(c, calls))[r].Releases(k)
    ensures Decided(Play(c, calls))[j].code == Decided(Play(c, calls))[i].code
  {
    var s := Play(c, calls);
    var d := Decided(s);
    NothingLost(c, calls);
    TypedWellKeptWell(c, calls);
    forall r: nat | i <= r < j
      ensures d[r].kind == s.enqueued[r].kind && d[r].key == s.enqueued[r].key
    {
      assert d[r] == s.enqueued[..|d|][r].(code := d[r].code);
    }
    forall r: nat | i < r < j
      ensures !d[r].Presses(k)
    {
      assert !LetGo(s.enqueued, i, r);
    }
    NoStuckModifiers(c, calls, k, i, j);
  }

  /** With no key pressed twice without its release no run ever spins, whatever the ticks, forces and
      freezing. */
  lemma WellTypedNeverSpins(c: Config, calls: seq<Call>)
    requires NoDoublePress(KeysOf(calls))
    ensures !Stutters(c, Play(c, calls).m)
  {
    PlayKeepsInv(c, calls);
    NothingLost(c, calls);
    TypedWellKeptWell(c, calls);
    var s := Play(c, calls);
    SuffixHasNoDoublePress(s.enqueued, |Decided(s)|);
    if Stutters(c, s.m) {
      ForeseeFromGuess(c, s.m, s.m.third);
      StutterIsDoublePress(c, s.m.core, Undecided(s.m));
    }
  }

  lemma {:induction false} SuffixHasNoDoublePress(es: seq<Event>, n: nat)
    requires NoDoublePress(es) && n <= |es|
    ensures NoDoublePress(es[n..])
    decreases n
  {
    if n == 0 {
      assert es[0..] == es;
    } else {
      NoDoublePressInTail(es);
      SuffixHasNoDoublePress(es[1..], n - 1);
      assert es[1..][n - 1..] == es[n..];
    }
  }

  // ---- Everyday gestures ----

  function Typed(k: Key, at: Time, kind: Kind): Event { Event(k, k, at, kind, false) }
  function AsCode(e: Event, code: Keycode): Event { e.(code := code) }

  /** A key pressed under suspicion and released next is the letter if it comes up in time, else the
      modifier; press and release agree, nothing is left held, and the active table is as before. */
  lemma TapOrHold(c: Config, core: Core, k: Key, at: Time, up: Time)
    requires Suspicious(c, core, Typed(k, at, Press))
    ensures var p, r := Typed(k, at, Press), Typed(k, up, Release);
      var code := if up < at + c.IntervalOf(k, NO_KEY) then k else c.forkOf[k];
      var o := Settle(c, FOREVER, core, [p, r]);
      && o.sent == [AsCode(p, code), AsCode(r, code)] && o.held == [] && !o.stuck
      && o.core.active == core.active
  {
    var p, r := Typed(k, at, Press), Typed(k, up, Release);
    var v := Foresee(c, core, [p, r]);
    assert [p, r][1..] == [r] && [r][1..] == [];
    assert v == if up < at + c.IntervalOf(k, NO_KEY) then Plain else Fork;
    var (sent, middle) := Sentence(c, core, p, v);
    var (last, after) := Passage(c, middle, r);
    assert Settle(c, FOREVER, middle, [r]) == Prepend([last], Outcome([], after, [], false));
    assert after.active == core.active;
  }

  /** Two keys overlapping: the first, under suspicion, is a modifier exactly when the second is already
      forked or comes after the interval, or the first outlasts its interval, the pair's interval or the
      overlap tolerance. If the second is an ordinary key, all three events go out, the second unchanged. */
  lemma RolloverOrChord(c: Config, core: Core, k: Key, v: Key, at: Time, second: Time, up: Time)
    requires Suspicious(c, core, Typed(k, at, Press)) && v != k
    ensures var p, q, r := Typed(k, at, Press), Typed(v, second, Press), Typed(k, up, Release);
      var o := Settle(c, FOREVER, core, [p, q, r]);
      var chord := || Forked(core, v) || second >= at + c.IntervalOf(k, NO_KEY)
                   || up >= at + c.IntervalOf(k, NO_KEY)
                   || up >= at + c.IntervalOf(k, v)
                   || up >= second + c.ToleranceOf(k, v);
      var code := if chord then c.forkOf[k] else k;
      && o.sent != [] && o.sent[0] == AsCode(p, code)
      && (!c.Forkable(v) && !Forked(core, v) ==> o.sent == [AsCode(p, code), q, AsCode(r, code)] && o.held == [])
  {
    var p, q, r := Typed(k, at, Press), Typed(v, second, Press), Typed(k, up, Release);
    RolloverVerdict(c, core, p, q, r);
    assert [p, q, r][1..] == [q, r];
    if !c.Forkable(v) && !Forked(core, v) {
      OrdinaryBetween(c, Sentence(c, core, p, Foresee(c, core, [p, q, r])).1, q, r);
    }
  }

  lemma RolloverVerdict(c: Config, core: Core, p: Event, q: Event, r: Event)
    requires Suspicious(c, core, p) && q.kind.Press? && q.key != p.key && r.Releases(p.key)
    ensures var chord := || Forked(core, q.key) || q.time >= p.time + c.IntervalOf(p.key, NO_KEY)
                         || r.time >= p.time + c.IntervalOf(p.key, NO_KEY)
                         || r.time >= p.time + c.IntervalOf(p.key, q.key)
                         || r.time >= q.time + c.ToleranceOf(p.key, q.key);
      Foresee(c, core, [p, q, r]) == if chord then Fork else Plain
  {
    assert [p, q, r][1..] == [q, r] && [q, r][1..] == [r] && [r][1..] == [];
    var g := Opening(c, p);
    if !Forked(core, q.key) && q.time < p.time + c.IntervalOf(p.key, NO_KEY) {
      assert Outlook(c, core, g, [q, r]) == Outlook(c, core, Examine(c, core, g, q).guess, [r]);
    }
  }

  /** A press of an ordinary key and a release after it go out at once. */
  lemma OrdinaryBetween(c: Config, core: Core, q: Event, r: Event)
    requires q.kind.Press? && !c.Forkable(q.key) && !Forked(core, q.key) && r.kind.Release?
    ensures Settle(c, FOREVER, core, [q, r]) ==
            Outcome([q, Passage(c, core, r).0], Passage(c, core, r).1, [], false)
  {
    assert [q, r][1..] == [r] && [r][1..] == [];
    assert Settle(c, FOREVER, core, [r]) ==
           Prepend([Passage(c, core, r).0], Outcome([], Passage(c, core, r).1, [], false));
  }

  /** The quick re-press: struck again soon enough after its release, a forkable key comes out as the
      letter at once, free to repeat, instead of being held under suspicion. A release that ended a fork
      counts only when the configuration says so. */
  lemma QuickRepressRepeats(c: Config, core: Core, k: Key, at: Time, up: Time, again: Time)
    requires Suspicious(c, core, Typed(k, at, Press))
    ensures var p, r, q := Typed(k, at, Press), Typed(k, up, Release), Typed(k, again, Press);
      var o := Settle(c, FOREVER, core, [p, r, q]);
      var tapped := up < at + c.IntervalOf(k, NO_KEY);
      if again <= up + c.repeatMax && (tapped || c.considerForks)
      then |o.sent| == 3 && o.sent[2] == q && o.held == []
      else |o.sent| == 2 && o.held == [q]
  {
    var p, r, q := Typed(k, at, Press), Typed(k, up, Release), Typed(k, again, Press);
    assert [p, r, q][1..] == [r, q] && [r, q][1..] == [q] && [q][1..] == [];
    var v := Foresee(c, core, [p, r, q]);
    assert v == if up < at + c.IntervalOf(k, NO_KEY) then Plain else Fork;
    var (sent, middle) := Sentence(c, core, p, v);
    var (last, after) := Passage(c, middle, r);
    assert Settle(c, FOREVER, middle, [r, q]) == Prepend([last], Settle(c, FOREVER, after, [q]));
    assert after.active == core.active;
    assert !Suspicious(c, after, q) ==>
      Settle(c, FOREVER, after, [q]) ==
      Prepend([Passage(c, after, q).0], Outcome([], Passage(c, after, q).1, [], false));
  }
}
