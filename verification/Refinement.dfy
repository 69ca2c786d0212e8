/** The loop over the three-region queue does exactly what the look-ahead definition says. */
module Refinement {
  import opened Configuration
  import opened Automaton
  import opened LookAhead

  /** `active[k]` is always unused, the key itself, or its configured fork. */
  ghost predicate CodesKnown(c: Config, core: Core) {
    forall k: Key :: core.active[k] == NO_KEY || core.active[k] == k || core.active[k] == c.forkOf[k]
  }

  ghost predicate AllRaw(es: seq<Event>) {
    forall i :: 0 <= i < |es| ==> es[i].Raw()
  }

  /** The guess is a function of the middle region: its head is the suspicious press, and looking
      through the rest of it gives exactly the guess held. */
  ghost predicate GuessIsScan(c: Config, m: Machine) {
    if m.guess.Normal? then m.middle == []
    else
      && m.middle != [] && Suspicious(c, m.core, m.middle[0])
      && Foresee(c, m.core, m.middle) == Waiting(m.guess)
  }

  ghost predicate Sound(c: Config, m: Machine) {
    CodesKnown(c, m.core) && AllRaw(m.middle) && AllRaw(m.third) && GuessIsScan(c, m)
  }

  /** What the machine will have sent, will commit and will hold, by the reference definition. */
  function Meaning(c: Config, p: Patience, m: Machine): Outcome {
    Prepend(m.first, Settle(c, p, m.core, m.middle + m.third))
  }

  function PatienceOf(m: Machine, force: bool): Patience { Patience(m.now, force) }

  lemma PassageKnowsCodes(c: Config, core: Core, e: Event)
    requires CodesKnown(c, core) && !Suspicious(c, core, e)
    ensures CodesKnown(c, Passage(c, core, e).1)
  {
    assert core.active[e.key] == NO_KEY || core.active[e.key] == e.key || core.active[e.key] == c.forkOf[e.key];
  }

  lemma EmissionKeepsMeaning(c: Config, p: Patience, m: Machine, sent: Event, core: Core, rest: seq<Event>)
    requires Settle(c, p, m.core, m.middle + m.third) == Prepend([sent], Settle(c, p, core, rest))
    ensures Meaning(c, p, m) == Prepend(m.first + [sent], Settle(c, p, core, rest))
  {
    PrependTwice(m.first, [sent], Settle(c, p, core, rest));
  }

  /** Sending the head out and rewinding loses nothing, when the verdict is the one foreseen. */
  lemma DecideKeepsMeaning(c: Config, p: Patience, m: Machine, v: Verdict)
    requires Sound(c, m) && !m.guess.Normal?
    requires v.Fork? || v.Plain? || v.SelfPlain?
    requires Foresee(c, m.core, m.middle + m.third) == v ||
             (v.Fork? && m.third == [] && p.Expires(m.guess.decision))
    ensures Sound(c, Decide(c, m, v))
    ensures Meaning(c, p, Decide(c, m, v)) == Meaning(c, p, m)
  {
    var all := m.middle + m.third;
    var (sent, core) := Sentence(c, m.core, m.middle[0], v);
    assert all[1..] == m.middle[1..] + m.third == [] + Decide(c, m, v).third;
    assert m.third == [] ==> all == m.middle;
    EmissionKeepsMeaning(c, p, m, sent, core, all[1..]);
  }

  /** Looking ahead from the suspect again is looking ahead from the guess. */
  lemma ForeseeFromGuess(c: Config, m: Machine, es: seq<Event>)
    requires Sound(c, m) && !m.guess.Normal?
    ensures Foresee(c, m.core, m.middle + es) == Outlook(c, m.core, m.guess, es)
  {
    assert (m.middle + es)[1..] == m.middle[1..] + es;
    OutlookSplits(c, m.core, Opening(c, m.middle[0]), m.middle[1..], es);
  }

  lemma ScanOnKeepsMeaning(c: Config, p: Patience, m: Machine, g: Guess)
    requires Sound(c, m) && m.third != [] && !m.guess.Normal?
    requires Examine(c, m.core, m.guess, m.third[0]) == Waiting(g)
    ensures Sound(c, ByKey(c, m))
    ensures Meaning(c, p, ByKey(c, m)) == Meaning(c, p, m)
  {
    var e := m.third[0];
    ForeseeFromGuess(c, m, [e]);
    assert [e][1..] == [];
    assert m.middle + [e] + m.third[1..] == m.middle + m.third;
  }

  lemma ByKeyKeepsMeaningScanning(c: Config, p: Patience, m: Machine)
    requires Sound(c, m) && m.third != [] && !m.guess.Normal?
    ensures Sound(c, ByKey(c, m))
    ensures Meaning(c, p, ByKey(c, m)) == Meaning(c, p, m)
  {
    match Examine(c, m.core, m.guess, m.third[0]) {
      case Waiting(g) => ScanOnKeepsMeaning(c, p, m, g);
      case Stutter =>
      case v =>
        ForeseeFromGuess(c, m, m.third);
        DecideKeepsMeaning(c, p, m, v);
    }
  }

  lemma OpeningKeepsMeaning(c: Config, p: Patience, m: Machine)
    requires Sound(c, m) && m.third != [] && m.guess.Normal?
    requires Suspicious(c, m.core, m.third[0])
    ensures Sound(c, ByKey(c, m))
    ensures Meaning(c, p, ByKey(c, m)) == Meaning(c, p, m)
  {
    var e, rest := m.third[0], m.third[1..];
    assert m.middle + [e] == [e] && [e][1..] == [];
    assert [e] + rest == m.third == m.middle + m.third;
  }

  lemma PassageKeepsMeaning(c: Config, p: Patience, m: Machine)
    requires Sound(c, m) && m.third != [] && m.guess.Normal?
    requires !Suspicious(c, m.core, m.third[0])
    ensures Sound(c, ByKey(c, m))
    ensures Meaning(c, p, ByKey(c, m)) == Meaning(c, p, m)
  {
    var (sent, core) := Passage(c, m.core, m.third[0]);
    PassageKnowsCodes(c, m.core, m.third[0]);
    assert m.middle + m.third == m.third && m.middle + m.third[1..] == m.third[1..];
    EmissionKeepsMeaning(c, p, m, sent, core, m.third[1..]);
  }

  lemma ByKeyKeepsMeaning(c: Config, p: Patience, m: Machine)
    requires Sound(c, m) && m.third != []
    ensures Sound(c, ByKey(c, m))
    ensures Meaning(c, p, ByKey(c, m)) == Meaning(c, p, m)
  {
    if !m.guess.Normal? {
      ByKeyKeepsMeaningScanning(c, p, m);
    } else if Suspicious(c, m.core, m.third[0]) {
      OpeningKeepsMeaning(c, p, m);
    } else {
      PassageKeepsMeaning(c, p, m);
    }
  }

  /** Every turn of the loop keeps the invariant and the meaning, under the patience of the run. */
  lemma TurnKeepsMeaning(c: Config, m: Machine, force: bool)
    requires Sound(c, m) && OneTurn(c, m, force).Go?
    ensures var next := OneTurn(c, m, force).next;
      Sound(c, next) && next.now == m.now &&
      Meaning(c, PatienceOf(m, force), next) == Meaning(c, PatienceOf(m, force), m)
  {
    if m.third != [] {
      ByKeyKeepsMeaning(c, PatienceOf(m, force), m);
    } else {
      DecideKeepsMeaning(c, PatienceOf(m, force), m, Fork);
    }
  }

  /** However early the output freezes, the run has kept the invariant and the meaning. */
  lemma {:induction false} RunKeepsMeaning(c: Config, m: Machine, force: bool, thawed: nat)
    requires Sound(c, m)
    ensures var r := Run(c, m, force, thawed);
      Sound(c, r) && r.now == m.now &&
      Meaning(c, PatienceOf(m, force), r) == Meaning(c, PatienceOf(m, force), m)
    decreases thawed
  {
    if thawed > 0 && OneTurn(c, m, force).Go? {
      TurnKeepsMeaning(c, m, force);
      RunKeepsMeaning(c, OneTurn(c, m, force).next, force, thawed - 1);
    }
  }

  // ---- Termination ----

  /** The number of turns left, at most. */
  function TurnsLeft(m: Machine): nat {
    var n := |m.middle| + |m.third|;
    n * (n + 1) / 2 + |m.third|
  }

  /** A turn either stutters, changing nothing, or uses up the measure: the events undecided, then
      the events unexamined. The guard of the stutter is exact. */
  lemma TurnProgresses(c: Config, m: Machine, force: bool)
    requires Sound(c, m) && OneTurn(c, m, force).Go?
    ensures var next := OneTurn(c, m, force).next;
      && (next == m <==> Stutters(c, m))
      && (!Stutters(c, m) ==>
            && TurnsLeft(next) < TurnsLeft(m)
            && var before, after := |m.middle| + |m.third|, |next.middle| + |next.third|;
               after < before || (after == before && |next.third| < |m.third|))
  {
    var next := OneTurn(c, m, force).next;
    var before, after := |m.middle| + |m.third|, |next.middle| + |next.third|;
    if after < before {
      assert after == before - 1;
      TriangleStep(before);
    }
  }

  lemma TriangleStep(n: nat)
    requires n > 0
    ensures n * (n + 1) / 2 == (n - 1) * n / 2 + n
  {
    assert n * (n + 1) == (n - 1) * n + 2 * n;
  }

  /** Has the loop nothing left to do, or is it spinning? */
  predicate AtRest(c: Config, m: Machine, force: bool) {
    OneTurn(c, m, force).Halt? || Stutters(c, m)
  }

  lemma {:induction false} RestStays(c: Config, m: Machine, force: bool, thawed: nat)
    requires Sound(c, m) && AtRest(c, m, force)
    ensures Run(c, m, force, thawed) == m
    decreases thawed
  {
    if thawed > 0 && OneTurn(c, m, force).Go? {
      TurnProgresses(c, m, force);
      RestStays(c, m, force, thawed - 1);
    }
  }

  /** Despite the rewinds the loop comes to rest within TurnsLeft turns, and stays there. */
  lemma {:induction false} RunComesToRest(c: Config, m: Machine, force: bool, thawed: nat)
    requires Sound(c, m) && thawed >= TurnsLeft(m)
    ensures AtRest(c, Run(c, m, force, thawed), force)
    ensures Run(c, m, force, thawed) == Run(c, m, force, TurnsLeft(m))
    decreases TurnsLeft(m)
  {
    if AtRest(c, m, force) {
      RestStays(c, m, force, thawed);
      RestStays(c, m, force, TurnsLeft(m));
    } else {
      TurnKeepsMeaning(c, m, force);
      TurnProgresses(c, m, force);
      var next := OneTurn(c, m, force).next;
      RunComesToRest(c, next, force, thawed - 1);
      RunComesToRest(c, next, force, TurnsLeft(m) - 1);
    }
  }

  /** With N undecided events that is at most (N+1)(N+2)/2 loop tests, the one that exits included. */
  lemma TurnsBounded(m: Machine)
    ensures var n := |m.middle| + |m.third|; TurnsLeft(m) + 1 <= (n + 1) * (n + 2) / 2
  {
    TriangleStep(|m.middle| + |m.third| + 1);
  }

  // ---- What a run amounts to ----

  lemma MeaningAtRest(c: Config, m: Machine, force: bool)
    requires Sound(c, m) && AtRest(c, m, force)
    ensures Meaning(c, PatienceOf(m, force), m) ==
            Outcome(m.first, m.core, m.middle + m.third, Stutters(c, m))
    ensures !Stutters(c, m) ==> m.third == []
  {
    var p := PatienceOf(m, force);
    if !m.guess.Normal? {
      ForeseeFromGuess(c, m, m.third);
      assert m.third == [] ==> m.middle + m.third == m.middle;
    }
  }

  /** The refinement theorem: an unfrozen run, with or without a clock or force, sends, commits and
      holds exactly what the look-ahead definition says; it spins iff that definition meets a
      stuttering press; and what it guesses is the outlook on what it holds. */
  lemma RunRefinesLookAhead(c: Config, m: Machine, force: bool, thawed: nat)
    requires Sound(c, m) && thawed >= TurnsLeft(m)
    ensures var r, o := Run(c, m, force, thawed), Meaning(c, PatienceOf(m, force), m);
      && o == Outcome(r.first, r.core, r.middle + r.third, Stutters(c, r))
      && Sound(c, r)
      && (!o.stuck ==> r.third == [] && r.middle == o.held)
  {
    RunComesToRest(c, m, force, thawed);
    RunKeepsMeaning(c, m, force, thawed);
    MeaningAtRest(c, Run(c, m, force, thawed), force);
  }

  /** Resting soundly leaves no freedom: equal outcomes are equal machines. */
  lemma RestIsDetermined(c: Config, a: Machine, b: Machine)
    requires Sound(c, a) && Sound(c, b)
    requires a.first == b.first && a.core == b.core && a.now == b.now
    requires a.middle + a.third == b.middle + b.third
    requires (a.third == [] && b.third == []) || (Stutters(c, a) && Stutters(c, b))
    ensures a == b
  {
    if a.third != [] {
      SameStutter(c, a, b);
      SameStutter(c, b, a);
      assert a.middle == (a.middle + a.third)[..|a.middle|] == b.middle;
      assert a.third == (a.middle + a.third)[|a.middle|..] == b.third;
    } else {
      assert a.middle == a.middle + a.third == b.middle + b.third == b.middle;
    }
  }

  lemma SameStutter(c: Config, a: Machine, b: Machine)
    requires Sound(c, a) && Sound(c, b) && a.core == b.core
    requires a.middle + a.third == b.middle + b.third
    requires Stutters(c, a) && Stutters(c, b)
    ensures |a.middle| <= |b.middle|
  {
    if |b.middle| < |a.middle| {
      var all := a.middle + a.third;
      assert b.middle == all[..|b.middle|];
      assert a.middle == b.middle + a.middle[|b.middle|..];
      assert a.middle[|b.middle|..][0] == all[|b.middle|] == b.third[0];
      assert a.middle[1..] == b.middle[1..] + a.middle[|b.middle|..];
      OutlookSplits(c, a.core, Opening(c, b.middle[0]), b.middle[1..], a.middle[|b.middle|..]);
      assert false;
    }
  }

  // ---- Batching and freezing ----

  lemma EnqueueTwice(m: Machine, xs: seq<Event>, ys: seq<Event>)
    ensures m.Enqueue(xs).Enqueue(ys) == m.Enqueue(xs + ys)
  {
    assert m.third + xs + ys == m.third + (xs + ys);
  }

  lemma HalfwayMeansTheSame(c: Config, m: Machine, half: Machine, ys: seq<Event>)
    requires Sound(c, half) && AllRaw(ys) && half.now == 0
    requires Meaning(c, FOREVER, half) == Meaning(c, FOREVER, m)
    ensures Sound(c, half.Enqueue(ys))
    ensures Meaning(c, FOREVER, half.Enqueue(ys)) == Meaning(c, FOREVER, m.Enqueue(ys))
  {
    EnqueueExtendsMeaning(c, half, m, ys);
  }

  /** Enqueuing in two batches, with the output frozen at any point of the first run, ends like
      enqueuing everything at once: same output, same state, same queues. */
  lemma BatchingIsInvisible(c: Config, m: Machine, xs: seq<Event>, ys: seq<Event>, frozenAfter: nat, thawed: nat)
    requires Sound(c, m) && m.now == 0 && AllRaw(xs) && AllRaw(ys)
    requires thawed >= TurnsLeft(m.Enqueue(xs + ys))
    requires thawed >= TurnsLeft(Run(c, m.Enqueue(xs), false, frozenAfter).Enqueue(ys))
    ensures Run(c, Run(c, m.Enqueue(xs), false, frozenAfter).Enqueue(ys), false, thawed) ==
            Run(c, m.Enqueue(xs + ys), false, thawed)
  {
    var half := Run(c, m.Enqueue(xs), false, frozenAfter);
    RunKeepsMeaning(c, m.Enqueue(xs), false, frozenAfter);
    HalfwayMeansTheSame(c, m.Enqueue(xs), half, ys);
    EnqueueTwice(m, xs, ys);
    SameMeaningSameRest(c, half.Enqueue(ys), m.Enqueue(xs + ys), false, thawed);
  }

  lemma EnqueueExtendsMeaning(c: Config, a: Machine, b: Machine, ys: seq<Event>)
    requires Meaning(c, FOREVER, a) == Meaning(c, FOREVER, b)
    ensures Meaning(c, FOREVER, a.Enqueue(ys)) == Meaning(c, FOREVER, b.Enqueue(ys))
  {
    MeaningSplits(c, a, ys);
    MeaningSplits(c, b, ys);
  }

  lemma MeaningSplits(c: Config, m: Machine, ys: seq<Event>)
    ensures var o := Meaning(c, FOREVER, m);
      Meaning(c, FOREVER, m.Enqueue(ys)) == Prepend(o.sent, Settle(c, FOREVER, o.core, o.held + ys))
  {
    var all := m.middle + m.third;
    assert m.middle + (m.third + ys) == all + ys;
    SettleSplits(c, FOREVER, m.core, all, ys);
    var o := Settle(c, FOREVER, m.core, all);
    PrependTwice(m.first, o.sent, Settle(c, FOREVER, o.core, o.held + ys));
    assert Meaning(c, FOREVER, m) == Prepend(m.first, o);
  }

  lemma SameMeaningSameRest(c: Config, a: Machine, b: Machine, force: bool, thawed: nat)
    requires Sound(c, a) && Sound(c, b) && a.now == b.now
    requires Meaning(c, PatienceOf(a, force), a) == Meaning(c, PatienceOf(b, force), b)
    requires thawed >= TurnsLeft(a) && thawed >= TurnsLeft(b)
    ensures Run(c, a, force, thawed) == Run(c, b, force, thawed)
  {
    RunRefinesLookAhead(c, a, force, thawed);
    RunRefinesLookAhead(c, b, force, thawed);
    RunKeepsMeaning(c, a, force, thawed);
    RunKeepsMeaning(c, b, force, thawed);
    RestIsDetermined(c, Run(c, a, force, thawed), Run(c, b, force, thawed));
  }

  // ---- Timer ticks ----

  /** What the machine will do with `ys` once the clock is forgotten, as every key event does. */
  function Later(m: Machine, ys: seq<Event>): Machine { m.Enqueue(ys).(now := 0) }

  /** One turn of a run with the clock at `now` is also the turn that the next event would have
      brought, if that event is not older than the clock. */
  lemma TickTurnIsKeyTurn(c: Config, m: Machine, ys: seq<Event>)
    requires OneTurn(c, m, false).Go?
    requires ys != [] && ys[0].time >= m.now
    ensures OneTurn(c, Later(m, ys), false) == Go(Later(OneTurn(c, m, false).next, ys))
  {
    var next := OneTurn(c, m, false).next;
    assert (m.third + ys)[0] == if m.third != [] then m.third[0] else ys[0];
    if m.third != [] {
      assert (m.third + ys)[1..] == m.third[1..] + ys;
      assert m.middle != [] ==> m.middle[1..] + (m.third + ys) == m.middle[1..] + m.third + ys;
    } else {
      assert m.third + ys == ys && ys == [] + ys;
      assert m.middle != [] ==> m.middle[1..] + ys == m.middle[1..] + [] + ys;
    }
  }

  /** A tick decides only what the look-ahead from the following events would decide alike. */
  lemma {:induction false} TicksKeepMeaning(c: Config, m: Machine, ys: seq<Event>, ticked: nat)
    requires Sound(c, m) && AllRaw(ys) && ys != [] && ys[0].time >= m.now
    ensures Meaning(c, FOREVER, Later(Run(c, m, false, ticked), ys)) == Meaning(c, FOREVER, Later(m, ys))
    decreases ticked
  {
    if ticked > 0 && OneTurn(c, m, false).Go? {
      var next := OneTurn(c, m, false).next;
      TurnKeepsMeaning(c, m, false);
      TickTurnIsKeyTurn(c, m, ys);
      TurnKeepsMeaning(c, Later(m, ys), false);
      TicksKeepMeaning(c, next, ys, ticked - 1);
    }
  }

  /** A tick changes when, never what: run with the clock at `now` as long as you like, then let
      events follow, the first no older than `now`; or let them follow at once. The machines come to
      rest equal, the clock apart. */
  lemma TicksAreInvisible(c: Config, m: Machine, ys: seq<Event>, ticked: nat, thawed: nat)
    requires Sound(c, m) && AllRaw(ys) && ys != [] && ys[0].time >= m.now
    requires thawed >= TurnsLeft(Later(m, ys)) && thawed >= TurnsLeft(Later(Run(c, m, false, ticked), ys))
    ensures Run(c, Later(Run(c, m, false, ticked), ys), false, thawed) == Run(c, Later(m, ys), false, thawed)
  {
    TicksKeepMeaning(c, m, ys, ticked);
    RunKeepsMeaning(c, m, false, ticked);
    SameMeaningSameRest(c, Later(Run(c, m, false, ticked), ys), Later(m, ys), false, thawed);
  }

  // ---- Force ----

  lemma {:induction false} ForcedSettleHoldsNothing(c: Config, now: Time, core: Core, es: seq<Event>)
    ensures var o := Settle(c, Patience(now, true), core, es);
      o.stuck <==> o.held != []
    decreases |es|
  {
    if es != [] {
      if Suspicious(c, core, es[0]) {
        var v := Foresee(c, core, es);
        if !v.Stutter? {
          ForcedSettleHoldsNothing(c, now, Sentence(c, core, es[0], if v.Waiting? then Fork else v).1, es[1..]);
        }
      } else {
        ForcedSettleHoldsNothing(c, now, Passage(c, core, es[0]).1, es[1..]);
      }
    }
  }

  /** A forced run leaves nothing undecided: it ends normal with both inner regions empty, unless it
      spins. */
  lemma ForceSettlesEverything(c: Config, m: Machine, thawed: nat)
    requires Sound(c, m) && thawed >= TurnsLeft(m)
    ensures var r := Run(c, m, true, thawed);
      if Stutters(c, r) then Meaning(c, PatienceOf(m, true), m).stuck
      else r.guess.Normal? && r.middle == [] && r.third == []
  {
    RunRefinesLookAhead(c, m, true, thawed);
    ForcedSettleHoldsNothing(c, m.now, m.core, m.middle + m.third);
  }

  // ---- When the loop spins ----

  /** Two presses of a key have its release between them. */
  ghost predicate NoDoublePress(es: seq<Event>) {
    forall i: nat, j: nat :: i < j < |es| && es[i].kind.Press? && es[j].Presses(es[i].key) ==> LetGo(es, i, j)
  }

  lemma NoDoublePressInTail(es: seq<Event>)
    requires NoDoublePress(es) && es != []
    ensures NoDoublePress(es[1..])
  {
    var t := es[1..];
    forall i: nat, j: nat | i < j < |t| && t[i].kind.Press? && t[j].Presses(t[i].key)
      ensures LetGo(t, i, j)
    {
      assert es[i + 1] == t[i] && es[j + 1] == t[j];
      assert LetGo(es, i + 1, j + 1);
      var r :| i + 1 < r < j + 1 && es[r].Releases(es[i + 1].key);
      assert t[r - 1] == es[r];
    }
  }

  /** The held press at the head is re-pressed in time, with no verifier down, and may not repeat. */
  ghost predicate HeadIsRepressed(c: Config, core: Core, es: seq<Event>) {
    && es != [] && Suspicious(c, core, es[0]) && !c.repeatable[es[0].key]
    && exists i: nat :: i < |es| - 1 && EndsInTime(c, core, es[0], es[1..], i) && es[1..][i].Presses(es[0].key)
  }

  /** The suspicious press es[0] cannot be decided: it stutters, or it waits and the patience lasts. */
  ghost predicate Blocks(c: Config, p: Patience, core: Core, es: seq<Event>) {
    && es != [] && Suspicious(c, core, es[0])
    && var v := Foresee(c, core, es);
       v.Stutter? || (v.Waiting? && !p.Expires(v.guess.decision))
  }

  /** Every event before the i-th is decided in its turn. */
  ghost predicate Reaches(c: Config, p: Patience, core: Core, es: seq<Event>, i: nat)
    requires i <= |es|
  {
    forall j: nat :: j < i ==> !Blocks(c, p, CoreBefore(c, core, es, j), es[j..])
  }

  ghost predicate RepressedAt(c: Config, p: Patience, core: Core, es: seq<Event>, i: nat)
    requires i <= |es|
  {
    Reaches(c, p, core, es, i) && HeadIsRepressed(c, CoreBefore(c, core, es, i), es[i..])
  }

  lemma RepressedOneLater(c: Config, p: Patience, core: Core, es: seq<Event>, i: nat)
    requires es != [] && !Blocks(c, p, core, es) && i < |es|
    ensures RepressedAt(c, p, core, es, i + 1) <==> RepressedAt(c, p, InTurn(c, core, es).1, es[1..], i)
  {
    var after, rest := InTurn(c, core, es).1, es[1..];
    forall j: nat | j <= i
      ensures CoreBefore(c, core, es, j + 1) == CoreBefore(c, after, rest, j) && es[j + 1..] == rest[j..]
    {
    }
    assert es[0..] == es;
    if Reaches(c, p, after, rest, i) {
      forall j: nat | j < i + 1
        ensures !Blocks(c, p, CoreBefore(c, core, es, j), es[j..])
      {
        if j > 0 {
          assert !Blocks(c, p, CoreBefore(c, after, rest, j - 1), rest[j - 1..]);
        }
      }
    }
    if Reaches(c, p, core, es, i + 1) {
      forall j: nat | j < i
        ensures !Blocks(c, p, CoreBefore(c, after, rest, j), rest[j..])
      {
        assert !Blocks(c, p, CoreBefore(c, core, es, j + 1), es[j + 1..]);
      }
    }
  }

  /** The loop gets stuck on given events exactly when some suspicious press, all before it being decided
      in their turn, is re-pressed in time with no verifier down and may not repeat. */
  lemma {:induction false} StuckExactlyWhenRepressed(c: Config, p: Patience, core: Core, es: seq<Event>)
    ensures Settle(c, p, core, es).stuck <==> exists i: nat :: i < |es| && RepressedAt(c, p, core, es, i)
    decreases |es|
  {
    if es != [] {
      assert es[0..] == es;
      if Blocks(c, p, core, es) {
        LookAheadRule(c, core, es[0], es[1..]);
        assert HeadIsRepressed(c, core, es) ==> RepressedAt(c, p, core, es, 0);
      } else {
        var after, rest := InTurn(c, core, es).1, es[1..];
        StuckExactlyWhenRepressed(c, p, after, rest);
        NotBlockedNotRepressed(c, p, core, es);
        forall i: nat | i < |rest|
          ensures RepressedAt(c, p, core, es, i + 1) <==> RepressedAt(c, p, after, rest, i)
        {
          RepressedOneLater(c, p, core, es, i);
        }
        RepressedShifts(c, p, core, es);
      }
    }
  }

  lemma NotBlockedNotRepressed(c: Config, p: Patience, core: Core, es: seq<Event>)
    requires es != [] && !Blocks(c, p, core, es)
    ensures !HeadIsRepressed(c, core, es) && !RepressedAt(c, p, core, es, 0)
  {
    LookAheadRule(c, core, es[0], es[1..]);
    assert es[0..] == es;
  }

  lemma RepressedShifts(c: Config, p: Patience, core: Core, es: seq<Event>)
    requires es != [] && !RepressedAt(c, p, core, es, 0)
    requires forall i: nat :: i < |es| - 1 ==>
      (RepressedAt(c, p, core, es, i + 1) <==> RepressedAt(c, p, InTurn(c, core, es).1, es[1..], i))
    ensures (exists i: nat :: i < |es| && RepressedAt(c, p, core, es, i)) <==>
            (exists i: nat :: i < |es| - 1 && RepressedAt(c, p, InTurn(c, core, es).1, es[1..], i))
  {
    if i: nat :| i < |es| && RepressedAt(c, p, core, es, i) {
      assert RepressedAt(c, p, core, es, i - 1 + 1);
      assert RepressedAt(c, p, InTurn(c, core, es).1, es[1..], i - 1);
    }
  }

  /** Only a re-press before the release makes the look-ahead stutter. */
  lemma StutterIsDoublePress(c: Config, core: Core, es: seq<Event>)
    requires es != [] && Suspicious(c, core, es[0]) && Foresee(c, core, es).Stutter?
    ensures !NoDoublePress(es)
  {
    LookAheadRule(c, core, es[0], es[1..]);
    var tail, k := es[1..], es[0].key;
    var i: nat :| i < |tail| && EndsInTime(c, core, es[0], tail, i) && tail[i].Presses(k);
    assert es[i + 1].Presses(k);
    forall r | 0 < r < i + 1
      ensures !es[r].Releases(k)
    {
      assert es[r] == tail[r - 1] && !Ends(c, core, k, es[0].time, tail, r - 1);
    }
    assert !LetGo(es, 0, i + 1);
  }

  /** With every press released before its repetition the loop never spins. */
  lemma {:induction false} NoDoublePressNeverSpins(c: Config, p: Patience, core: Core, es: seq<Event>)
    requires NoDoublePress(es)
    ensures !Settle(c, p, core, es).stuck
    decreases |es|
  {
    if es != [] {
      NoDoublePressInTail(es);
      if Suspicious(c, core, es[0]) {
        var v := Foresee(c, core, es);
        if v.Stutter? {
          StutterIsDoublePress(c, core, es);
        } else {
          NoDoublePressNeverSpins(c, p, Sentence(c, core, es[0], if v.Waiting? then Fork else v).1, es[1..]);
        }
      } else {
        NoDoublePressNeverSpins(c, p, Passage(c, core, es[0]).1, es[1..]);
      }
    }
  }
}
