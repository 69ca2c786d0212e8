/** What is given to the machine and what it admits to its queue. A press of a key that is forked downstream
    is skipped on arrival; which presses those are depends on what has been decided so far, so on ticks
    and on freezing. */
module Admission {
  import opened Configuration
  import opened Automaton
  import opened LookAhead
  import opened Refinement
  import opened EntryPoints
  import opened WholeRuns
  import opened Timing

  // ---- Given and kept ----

  function Given(a: seq<Arrival>): seq<Event> {
    seq(|a|, i requires 0 <= i < |a| => a[i].e)
  }

  function Kept(a: seq<Arrival>): seq<Event> {
    if a == [] then []
    else
      var front, last := Kept(a[..|a|-1]), a[|a|-1];
      if last.skipped then front else front + [last.e]
  }

  ghost predicate OnlyPressesSkipped(a: seq<Arrival>) {
    forall i :: 0 <= i < |a| && a[i].skipped ==> a[i].e.kind.Press?
  }

  /** Nothing but the arrivals not skipped is in the queue's history, and they are all that was typed. */
  ghost predicate Accounted(s: System, typed: seq<Event>) {
    Given(s.arrivals) == typed && Kept(s.arrivals) == s.enqueued && OnlyPressesSkipped(s.arrivals)
  }

  lemma KeptOneMore(a: seq<Arrival>, x: Arrival)
    ensures Kept(a + [x]) == if x.skipped then Kept(a) else Kept(a) + [x.e]
    ensures Given(a + [x]) == Given(a) + [x.e]
  {
    assert (a + [x])[..|a|] == a;
  }

  lemma {:induction false} PlayAccounts(c: Config, calls: seq<Call>)
    ensures Accounted(Play(c, calls), KeysOf(calls))
    decreases |calls|
  {
    if calls != [] {
      var front, last := calls[..|calls|-1], calls[|calls|-1];
      var s := Play(c, front);
      PlayAccounts(c, front);
      InputsOfStep(c, s, last);
      if last.input.KeyEvent? {
        KeptOneMore(s.arrivals, Arrival(last.input.e, Dropped(s.m, last.input.e)));
      } else {
        assert s.arrivals + [] == s.arrivals && s.enqueued + [] == s.enqueued;
      }
    }
  }

  // ---- How keys stand ----

  lemma {:induction false} StandingOfTwo(before: Standing, xs: seq<Event>, ys: seq<Event>, k: Key)
    ensures StandingAfter(before, xs + ys, k) == StandingAfter(StandingAfter(before, xs, k), ys, k)
    decreases |ys|
  {
    if ys == [] {
      assert xs + ys == xs;
    } else {
      assert (xs + ys)[..|xs + ys|-1] == xs + ys[..|ys|-1];
      StandingOfTwo(before, xs, ys[..|ys|-1], k);
    }
  }

  lemma {:induction false} StandingIgnoresCodes(a: Standing, b: Standing, xs: seq<Event>, ys: seq<Event>, k: Key)
    requires SameButCodes(xs, ys) && a.Down? == b.Down?
    ensures StandingAfter(a, xs, k).Down? == StandingAfter(b, ys, k).Down?
    decreases |xs|
  {
    if xs != [] {
      assert xs[|xs|-1] == ys[|ys|-1].(code := xs[|xs|-1].code);
      StandingIgnoresCodes(a, b, xs[..|xs|-1], ys[..|ys|-1], k);
    }
  }

  lemma StandingOneMore(log: seq<Event>, e: Event, k: Key)
    ensures StandingAfter(Up, log + [e], k) ==
            if e.Presses(k) then Down(e.code) else if e.Releases(k) then Up else StandingAfter(Up, log, k)
  {
    assert (log + [e])[..|log|] == log;
  }

  /** A press of the key was skipped and the key has not been released since. */
  ghost predicate SkippedSinceRelease(a: seq<Arrival>, k: Key) {
    exists i: nat :: i < |a| && SkippedHere(a, k, i)
  }

  ghost predicate SkippedHere(a: seq<Arrival>, k: Key, i: nat)
    requires i < |a|
  {
    a[i].skipped && a[i].e.Presses(k) && forall r :: i < r < |a| ==> !a[r].e.Releases(k)
  }

  lemma SkippedOneMore(a: seq<Arrival>, x: Arrival, k: Key)
    ensures SkippedSinceRelease(a + [x], k) <==>
            (x.skipped && x.e.Presses(k)) || (SkippedSinceRelease(a, k) && !x.e.Releases(k))
  {
    var b := a + [x];
    assert SkippedHere(b, k, |a|) <==> x.skipped && x.e.Presses(k);
    forall i: nat | i < |a|
      ensures SkippedHere(b, k, i) <==> SkippedHere(a, k, i) && !x.e.Releases(k)
    {
      assert b[|a|] == x;
      assert forall r :: 0 <= r < |a| ==> b[r] == a[r];
    }
  }

  /** A key is down for whoever types iff it is down in what was kept, or a press of it was skipped since
      its last release. */
  lemma {:induction false} DownAsTyped(a: seq<Arrival>, k: Key)
    requires OnlyPressesSkipped(a)
    ensures StandingAfter(Up, Given(a), k).Down? <==>
            StandingAfter(Up, Kept(a), k).Down? || SkippedSinceRelease(a, k)
    decreases |a|
  {
    if a != [] {
      var front, x := a[..|a|-1], a[|a|-1];
      assert a == front + [x];
      DownAsTyped(front, k);
      KeptOneMore(front, x);
      SkippedOneMore(front, x, k);
      StandingOneMore(Given(front), x.e, k);
      StandingOneMore(Kept(front), x.e, k);
    }
  }

  // ---- When a press is skipped ----

  /** Before the call: a press is skipped iff its key is down downstream with a code other than its own. */
  lemma SkippedIffForkedDownstream(c: Config, calls: seq<Call>, e: RawEvent)
    ensures Dropped(Play(c, calls).m, e) <==>
            e.kind.Press? && match StandingAfter(Up, Decided(Play(c, calls)), e.key)
                             case Up => false
                             case Down(code) => code != e.key
  {
    PlayKeepsInv(c, calls);
    var s := Play(c, calls);
    assert match StandingAfter(Up, Decided(s), e.key)
           case Up => s.m.core.active[e.key] == NO_KEY
           case Down(code) => code == CodeOf(s.m.core.active[e.key], e.key);
  }

  /** A skipped press finds its key down in what was kept iff the held events do not release the key. */
  lemma SkippedKeyInQueue(c: Config, calls: seq<Call>, e: RawEvent)
    requires Dropped(Play(c, calls).m, e)
    ensures var s := Play(c, calls);
      StandingAfter(Up, s.enqueued, e.key).Down? <==>
      StandingAfter(Down(NO_KEY), Undecided(s.m), e.key).Down?
  {
    PlayKeepsInv(c, calls);
    var s := Play(c, calls);
    StandingIgnoresCodes(Up, Up, Decided(s) + Undecided(s.m), s.enqueued, e.key);
    StandingOfTwo(Up, Decided(s), Undecided(s.m), e.key);
    assert StandingAfter(Up, Decided(s), e.key).Down?;
    forall i | 0 <= i < |Undecided(s.m)|
      ensures Undecided(s.m)[i] == Undecided(s.m)[i].(code := Undecided(s.m)[i].code)
    {
    }
    StandingIgnoresCodes(StandingAfter(Up, Decided(s), e.key), Down(NO_KEY), Undecided(s.m), Undecided(s.m), e.key);
  }

  /** A skipped press is the auto-repeat the code takes it for, its key being down as typed, if and only if
      the held events do not release the key, or a press of the key was already skipped since its last
      release arrived. Otherwise the key was up and a genuine press is lost. */
  lemma SkippedPressIsRepeat(c: Config, calls: seq<Call>, e: RawEvent)
    requires Dropped(Play(c, calls).m, e)
    ensures var s := Play(c, calls);
      StandingAfter(Up, KeysOf(calls), e.key).Down? <==>
      StandingAfter(Down(NO_KEY), Undecided(s.m), e.key).Down? || SkippedSinceRelease(s.arrivals, e.key)
  {
    PlayAccounts(c, calls);
    SkippedKeyInQueue(c, calls, e);
    DownAsTyped(Play(c, calls).arrivals, e.key);
  }

  // ---- Runs over the same typing ----

  /** Two systems show the same: decided, committed and still held. */
  ghost predicate Agree(a: System, b: System) {
    Decided(a) == Decided(b) && a.m.core == b.m.core && Undecided(a.m) == Undecided(b.m)
  }

  ghost predicate Distinct(es: seq<Event>) {
    forall i, j :: 0 <= i < j < |es| ==> es[i] != es[j]
  }

  lemma AgreementShowsEnqueued(c: Config, calls: seq<Call>, others: seq<Call>)
    requires Agree(Play(c, calls), Play(c, others))
    ensures Play(c, calls).enqueued == Play(c, others).enqueued
  {
    PlayKeepsInv(c, calls);
    PlayKeepsInv(c, others);
    var a, b := Play(c, calls), Play(c, others);
    var out := Decided(a) + Undecided(a.m);
    forall i | 0 <= i < |out|
      ensures a.enqueued[i] == b.enqueued[i]
    {
      assert out[i] == a.enqueued[i].(code := out[i].code) && out[i] == b.enqueued[i].(code := out[i].code);
      assert a.enqueued[i].Raw() && b.enqueued[i].Raw();
    }
  }

  lemma {:induction false} KeptAreUnskipped(a: seq<Arrival>, i: nat)
    requires i < |a| && Distinct(Given(a))
    ensures a[i].e in Kept(a) <==> !a[i].skipped
    decreases |a|
  {
    var front, x := a[..|a|-1], a[|a|-1];
    assert a == front + [x] && Given(a)[..|a|-1] == Given(front);
    KeptOneMore(front, x);
    if i < |front| {
      assert Given(a)[i] != Given(a)[|front|];
      KeptAreUnskipped(front, i);
    } else {
      forall j | 0 <= j < |front|
        ensures front[j].e != x.e
      {
        assert Given(a)[j] != Given(a)[|front|];
      }
      KeptAreGiven(front, x.e);
    }
  }

  lemma {:induction false} KeptAreGiven(a: seq<Arrival>, e: Event)
    requires forall j :: 0 <= j < |a| ==> a[j].e != e
    ensures e !in Kept(a)
    decreases |a|
  {
    if a != [] {
      KeptAreGiven(a[..|a|-1], e);
    }
  }

  lemma SameKeptSameSkips(a: seq<Arrival>, b: seq<Arrival>)
    requires Given(a) == Given(b) && Distinct(Given(a)) && Kept(a) == Kept(b)
    ensures a == b
  {
    assert |a| == |Given(a)| == |b|;
    forall i: nat | i < |a|
      ensures a[i] == b[i]
    {
      assert Given(a)[i] == Given(b)[i];
      KeptAreUnskipped(a, i);
      KeptAreUnskipped(b, i);
    }
  }

  /** Two timely, unforced runs over the same typing, worked through to the same end, with whatever ticks and
      freezing: they show the same if and only if they kept the same events. Skipping the same presses is
      enough, and is needed too when no two of the events typed are identical. */
  lemma RunsAgreeIffTheySkipAlike(c: Config, calls: seq<Call>, others: seq<Call>, p: Patience)
    requires Timely(calls) && NoForce(calls) && Finished(c, calls, p)
    requires Timely(others) && NoForce(others) && Finished(c, others, p)
    requires KeysOf(calls) == KeysOf(others)
    ensures Agree(Play(c, calls), Play(c, others)) <==>
            Kept(Play(c, calls).arrivals) == Kept(Play(c, others).arrivals)
    ensures Play(c, calls).arrivals == Play(c, others).arrivals ==> Agree(Play(c, calls), Play(c, others))
    ensures Distinct(KeysOf(calls)) ==>
              (Agree(Play(c, calls), Play(c, others)) <==> Play(c, calls).arrivals == Play(c, others).arrivals)
  {
    var a, b := Play(c, calls), Play(c, others);
    PlayAccounts(c, calls);
    PlayAccounts(c, others);
    FinishedRunIsLookAhead(c, calls, p);
    FinishedRunIsLookAhead(c, others, p);
    if Agree(a, b) {
      AgreementShowsEnqueued(c, calls, others);
      if Distinct(KeysOf(calls)) {
        SameKeptSameSkips(a.arrivals, b.arrivals);
      }
    }
  }

  /** In closed form: after a finished run, a press is skipped iff its key is forked by the look-ahead
      definition on the admitted events. */
  lemma SkippedIffForkedByLookAhead(c: Config, calls: seq<Call>, p: Patience, e: RawEvent)
    requires Timely(calls) && NoForce(calls) && Finished(c, calls, p)
    ensures Dropped(Play(c, calls).m, e) <==>
            e.kind.Press? && Forked(Settle(c, p, Start().core, Play(c, calls).enqueued).core, e.key)
  {
    FinishedRunIsLookAhead(c, calls, p);
  }

  ghost predicate NothingSkipped(a: seq<Arrival>) {
    forall i :: 0 <= i < |a| ==> !a[i].skipped
  }

  lemma {:induction false} AllKept(a: seq<Arrival>)
    requires NothingSkipped(a)
    ensures Kept(a) == Given(a)
    decreases |a|
  {
    if a != [] {
      var front, x := a[..|a|-1], a[|a|-1];
      assert a == front + [x];
      AllKept(front);
      KeptOneMore(front, x);
    }
  }

  /** As long as no press is skipped, ticks and freezing change when, never what: the run shows what the
      look-ahead definition says of everything typed. */
  lemma UnskippedRunIsLookAhead(c: Config, calls: seq<Call>, p: Patience)
    requires Timely(calls) && NoForce(calls) && Finished(c, calls, p)
    requires NothingSkipped(Play(c, calls).arrivals)
    ensures Shows(Play(c, calls), Settle(c, p, Start().core, KeysOf(calls)))
  {
    PlayAccounts(c, calls);
    AllKept(Play(c, calls).arrivals);
    FinishedRunIsLookAhead(c, calls, p);
  }

  // ---- Well-formed typing ----

  /** Every press finds its key up. */
  ghost predicate PressesFindUp(es: seq<Event>) {
    forall j: nat :: j < |es| && es[j].kind.Press? ==> StandingAfter(Up, es[..j], es[j].key).Up?
  }

  lemma {:induction false} DownSincePress(es: seq<Event>, k: Key, j: nat)
    requires j <= |es|
    ensures StandingAfter(Up, es[..j], k).Down? <==>
            exists i: nat :: i < j && es[i].Presses(k) && !LetGo(es, i, j)
    decreases j
  {
    if j > 0 {
      DownSincePress(es, k, j - 1);
      assert es[..j] == es[..j-1] + [es[j-1]];
      StandingOneMore(es[..j-1], es[j-1], k);
      forall i: nat | i < j - 1
        ensures LetGo(es, i, j) <==> LetGo(es, i, j - 1) || es[j-1].Releases(es[i].key)
      {
        LetGoOneMore(es, i, j - 1);
      }
      assert !LetGo(es, j - 1, j);
    }
  }

  lemma NoDoublePressFindsUp(es: seq<Event>)
    ensures NoDoublePress(es) <==> PressesFindUp(es)
  {
    forall j: nat | j < |es|
      ensures StandingAfter(Up, es[..j], es[j].key).Down? <==>
              exists i: nat :: i < j && es[i].Presses(es[j].key) && !LetGo(es, i, j)
    {
      DownSincePress(es, es[j].key, j);
    }
  }

  lemma FindsUpOneMore(es: seq<Event>, e: Event)
    ensures PressesFindUp(es + [e]) <==>
            PressesFindUp(es) && (e.kind.Press? ==> StandingAfter(Up, es, e.key).Up?)
  {
    var longer := es + [e];
    assert longer[..|es|] == es && longer[|es|] == e;
    forall j: nat | j < |es|
      ensures longer[..j] == es[..j] && longer[j] == es[j]
    {
    }
  }

  /** Skipping presses keeps well-formed typing well formed. */
  lemma {:induction false} KeptFindsUp(a: seq<Arrival>)
    requires OnlyPressesSkipped(a) && PressesFindUp(Given(a))
    ensures PressesFindUp(Kept(a))
    decreases |a|
  {
    if a != [] {
      var front, x := a[..|a|-1], a[|a|-1];
      assert a == front + [x];
      KeptOneMore(front, x);
      FindsUpOneMore(Given(front), x.e);
      FindsUpOneMore(Kept(front), x.e);
      KeptFindsUp(front);
      DownAsTyped(front, x.e.key);
    }
  }

  lemma TypedWellKeptWell(c: Config, calls: seq<Call>)
    requires NoDoublePress(KeysOf(calls))
    ensures NoDoublePress(Play(c, calls).enqueued) && PressesFindUp(Play(c, calls).enqueued)
  {
    PlayAccounts(c, calls);
    NoDoublePressFindsUp(KeysOf(calls));
    KeptFindsUp(Play(c, calls).arrivals);
    NoDoublePressFindsUp(Play(c, calls).enqueued);
  }

  /** Over well-formed typing a skipped press is always a genuine one: its key's release is still held. */
  lemma WellTypedSkipIsGenuine(c: Config, calls: seq<Call>, e: RawEvent)
    requires NoDoublePress(KeysOf(calls) + [e]) && Dropped(Play(c, calls).m, e)
    ensures StandingAfter(Down(NO_KEY), Undecided(Play(c, calls).m), e.key).Up?
  {
    NoDoublePressFindsUp(KeysOf(calls) + [e]);
    FindsUpOneMore(KeysOf(calls), e);
    SkippedPressIsRepeat(c, calls, e);
  }
}
