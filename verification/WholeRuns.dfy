/** What holds of every run, whatever the calls and however the output freezes. */
module WholeRuns {
  import opened Configuration
  import opened Automaton
  import opened LookAhead
  import opened Refinement
  import opened EntryPoints

  // ---- One emission ----

  /** The code a key is down with, given its entry in the active table. */
  function CodeOf(active: Keycode, k: Key): Keycode {
    if active == NO_KEY then k else active
  }

  /** `e` goes out as `out`: a press with the code it is then down with, a release with the code it
      was down with, and only the key's own entry changes. A press goes out with another code than its
      key was down with only as the fork of a suspicious one. A release is remembered as the last one. */
  ghost predicate Emits(c: Config, core: Core, e: Event, out: Event, after: Core) {
    && out == e.(code := out.code)
    && (out.code == e.key || out.code == c.forkOf[e.key])
    && (forall k: Key :: k != e.key ==> after.active[k] == core.active[k])
    && (e.kind.Press? ==> out.code == CodeOf(after.active[e.key], e.key))
    && (e.kind.Press? && out.code != CodeOf(core.active[e.key], e.key) ==>
          Suspicious(c, core, e) && core.active[e.key] == NO_KEY && out.code == c.forkOf[e.key])
    && (e.kind.Release? ==> out.code == CodeOf(core.active[e.key], e.key) && after.active[e.key] == NO_KEY)
    && (e.kind.Other? ==> after.active[e.key] == core.active[e.key])
    && Remembers(c, core, e, after)
  }

  /** The release of a key that is forked, or goes through as itself, wipes the memory instead when the
      configuration does not consider forks. */
  ghost predicate Remembers(c: Config, core: Core, e: Event, after: Core) {
    (after.lastReleased, after.lastReleasedTime) ==
    if !e.kind.Release? then (core.lastReleased, core.lastReleasedTime)
    else if c.considerForks || core.active[e.key] == NO_KEY then (e.key, e.time)
    else (NO_KEY, 0)
  }

  lemma PassageEmits(c: Config, core: Core, e: Event)
    requires CodesKnown(c, core) && e.Raw() && !Suspicious(c, core, e)
    ensures Emits(c, core, e, Passage(c, core, e).0, Passage(c, core, e).1)
  {
    assert core.active[e.key] == NO_KEY || core.active[e.key] == e.key || core.active[e.key] == c.forkOf[e.key];
  }

  lemma SentenceEmits(c: Config, core: Core, e: Event, v: Verdict)
    requires e.Raw() && Suspicious(c, core, e)
    ensures Emits(c, core, e, Sentence(c, core, e, v).0, Sentence(c, core, e, v).1)
  {
  }

  /** While scanning, nothing is committed, sent, lost or reordered; otherwise exactly the oldest
      undecided event is sent, and the rest are undecided again. */
  ghost predicate ScansOrEmits(c: Config, m: Machine, next: Machine) {
    || (next.core == m.core && next.first == m.first && Undecided(next) == Undecided(m))
    || (&& Undecided(m) != [] && Undecided(next) == Undecided(m)[1..]
        && |next.first| == |m.first| + 1 && next.first[..|m.first|] == m.first
        && Emits(c, m.core, Undecided(m)[0], next.first[|m.first|], next.core))
  }

  lemma DecideEmits(c: Config, m: Machine, v: Verdict)
    requires Sound(c, m) && !m.guess.Normal?
    ensures ScansOrEmits(c, m, Decide(c, m, v))
  {
    SentenceEmits(c, m.core, m.middle[0], v);
    assert Undecided(m)[0] == m.middle[0] && Undecided(m)[1..] == m.middle[1..] + m.third;
    assert Undecided(Decide(c, m, v)) == Undecided(m)[1..];
  }

  lemma NormalTurnScansOrEmits(c: Config, m: Machine)
    requires Sound(c, m) && m.guess.Normal? && m.third != []
    ensures ScansOrEmits(c, m, ByKey(c, m))
  {
    var e, rest := m.third[0], m.third[1..];
    assert Undecided(m) == m.third == [e] + rest;
    if !Suspicious(c, m.core, e) {
      PassageEmits(c, m.core, e);
      assert Undecided(ByKey(c, m)) == rest;
    }
  }

  lemma TurnScansOrEmits(c: Config, m: Machine, force: bool)
    requires Sound(c, m) && OneTurn(c, m, force).Go?
    ensures ScansOrEmits(c, m, OneTurn(c, m, force).next)
  {
    if m.guess.Normal? {
      NormalTurnScansOrEmits(c, m);
    } else if m.third == [] {
      DecideEmits(c, m, Fork);
    } else {
      match Examine(c, m.core, m.guess, m.third[0]) {
        case Waiting(g) => assert m.middle + [m.third[0]] + m.third[1..] == Undecided(m);
        case Stutter =>
        case v => DecideEmits(c, m, v);
      }
    }
  }

  // ---- Presses and releases downstream ----

  datatype Standing = Up | Down(code: Keycode)

  /** How key `k` stands after `log`, by its last press or release; `before` is how it stood at first. */
  function StandingAfter(before: Standing, log: seq<Event>, k: Key): Standing {
    if log == [] then before
    else
      var e := log[|log|-1];
      if e.Presses(k) then Down(e.code)
      else if e.Releases(k) then Up
      else StandingAfter(before, log[..|log|-1], k)
  }

  /** Every release in the log carries the code its key was down with. */
  ghost predicate WellPaired(log: seq<Event>) {
    forall j: nat :: j < |log| && log[j].kind.Release? ==>
      log[j].code == match StandingAfter(Up, log[..j], log[j].key) case Up => log[j].key case Down(code) => code
  }

  /** The active table knows with which code each key is down downstream. */
  ghost predicate Faithful(core: Core, log: seq<Event>) {
    forall k: Key ::
      match StandingAfter(Up, log, k)
      case Up => core.active[k] == NO_KEY
      case Down(code) => code == CodeOf(core.active[k], k)
  }

  /** The press at `r` is sent with another code than its key is down with. */
  ghost predicate Recoded(log: seq<Event>, r: nat)
    requires r < |log|
  {
    log[r].kind.Press? &&
    match StandingAfter(Up, log[..r], log[r].key) case Up => false case Down(code) => code != log[r].code
  }

  /** A key that is down changes its code only from its own to its fork. */
  ghost predicate RecodesToFork(c: Config, log: seq<Event>) {
    forall r: nat :: r < |log| && Recoded(log, r) ==>
      && StandingAfter(Up, log[..r], log[r].key) == Down(log[r].key)
      && log[r].code == c.forkOf[log[r].key]
  }

  lemma EmissionKeepsRecodes(c: Config, core: Core, log: seq<Event>, e: Event, out: Event, after: Core)
    requires Faithful(core, log) && RecodesToFork(c, log) && Emits(c, core, e, out, after)
    ensures RecodesToFork(c, log + [out])
  {
    var longer := log + [out];
    assert longer[..|log|] == log && longer[|log|] == out;
    forall r: nat | r < |log|
      ensures longer[..r] == log[..r] && longer[r] == log[r]
    {
    }
    assert match StandingAfter(Up, log, e.key)
           case Up => core.active[e.key] == NO_KEY
           case Down(code) => code == CodeOf(core.active[e.key], e.key);
    forall r: nat | r < |longer| && Recoded(longer, r)
      ensures StandingAfter(Up, longer[..r], longer[r].key) == Down(longer[r].key)
      ensures longer[r].code == c.forkOf[longer[r].key]
    {
      if r < |log| {
        assert Recoded(log, r);
      }
    }
  }

  lemma EmissionKeepsPairing(c: Config, core: Core, log: seq<Event>, e: Event, out: Event, after: Core)
    requires Faithful(core, log) && WellPaired(log) && Emits(c, core, e, out, after)
    ensures Faithful(after, log + [out]) && WellPaired(log + [out])
  {
    var longer := log + [out];
    assert longer[..|log|] == log;
    forall j: nat | j < |log|
      ensures longer[..j] == log[..j]
    {
    }
    forall k: Key
      ensures match StandingAfter(Up, longer, k)
              case Up => after.active[k] == NO_KEY
              case Down(code) => code == CodeOf(after.active[k], k)
    {
      assert match StandingAfter(Up, log, k)
             case Up => core.active[k] == NO_KEY
             case Down(code) => code == CodeOf(core.active[k], k);
    }
  }

  // ---- The last release downstream ----

  const NEVER_RELEASED := Event(NO_KEY, NO_KEY, 0, Release, false)

  /** The last release in the log; to begin with, no key at time 0. */
  function LastRelease(log: seq<Event>): Event {
    if log == [] then NEVER_RELEASED
    else if log[|log|-1].kind.Release? then log[|log|-1]
    else LastRelease(log[..|log|-1])
  }

  /** The machine remembers the last release sent, of whatever key. If it does not consider forks it may have
      forgotten it, and has if that release carried another code than its key's own. */
  ghost predicate Recalls(c: Config, core: Core, log: seq<Event>) {
    var r := LastRelease(log);
    || (core.lastReleased == r.key && core.lastReleasedTime == r.time && (c.considerForks || r.code == r.key))
    || (core.lastReleased == NO_KEY && core.lastReleasedTime == 0 && !c.considerForks)
  }

  lemma EmissionKeepsRecall(c: Config, core: Core, log: seq<Event>, e: Event, out: Event, after: Core)
    requires Recalls(c, core, log) && Emits(c, core, e, out, after)
    ensures Recalls(c, after, log + [out])
  {
    assert (log + [out])[..|log|] == log;
  }

  lemma {:induction false} StandingSinceLastPress(log: seq<Event>, k: Key, i: nat, j: nat)
    requires i < j <= |log| && log[i].Presses(k)
    requires forall r :: i < r < j ==> !log[r].Presses(k) && !log[r].Releases(k)
    ensures StandingAfter(Up, log[..j], k) == Down(log[i].code)
    decreases j
  {
    assert log[..j][..j-1] == log[..j-1];
    if i + 1 < j {
      StandingSinceLastPress(log, k, i, j - 1);
    }
  }

  // ---- The invariant of the system ----

  ghost predicate CodesLegal(c: Config, log: seq<Event>) {
    forall i :: 0 <= i < |log| ==> log[i].code == log[i].key || log[i].code == c.forkOf[log[i].key]
  }

  /** Sound; nothing enqueued is lost, duplicated or reordered; every code sent is the raw one or the
      configured fork; presses and releases downstream pair up; a key that is down changes its code only
      from its own to its fork; and the last release sent is remembered. */
  ghost predicate Inv(c: Config, s: System) {
    && Sound(c, s.m)
    && SameButCodes(Decided(s) + Undecided(s.m), s.enqueued)
    && AllRaw(s.enqueued)
    && CodesLegal(c, Decided(s))
    && Faithful(s.m.core, Decided(s))
    && WellPaired(Decided(s))
    && RecodesToFork(c, Decided(s))
    && Recalls(c, s.m.core, Decided(s))
  }

  lemma EmissionKeepsInputs(d: seq<Event>, u: seq<Event>, out: Event, es: seq<Event>)
    requires u != [] && out == u[0].(code := out.code) && SameButCodes(d + u, es)
    ensures SameButCodes((d + [out]) + u[1..], es)
  {
    var before, after := d + u, (d + [out]) + u[1..];
    forall i | 0 <= i < |es|
      ensures after[i] == es[i].(code := after[i].code)
    {
      assert before[i] == es[i].(code := before[i].code);
      assert after[i] == if i == |d| then out else before[i];
    }
  }

  lemma EmissionKeepsInv(c: Config, s: System, next: Machine, out: Event)
    requires Inv(c, s) && Sound(c, next) && Undecided(s.m) != [] && Undecided(next) == Undecided(s.m)[1..]
    requires next.first == s.m.first + [out] && Emits(c, s.m.core, Undecided(s.m)[0], out, next.core)
    ensures Inv(c, s.(m := next))
  {
    var u := Undecided(s.m);
    assert Decided(s.(m := next)) == Decided(s) + [out];
    EmissionKeepsPairing(c, s.m.core, Decided(s), u[0], out, next.core);
    EmissionKeepsRecodes(c, s.m.core, Decided(s), u[0], out, next.core);
    EmissionKeepsRecall(c, s.m.core, Decided(s), u[0], out, next.core);
    EmissionKeepsInputs(Decided(s), u, out, s.enqueued);
  }

  lemma TurnKeepsInv(c: Config, s: System, force: bool)
    requires Inv(c, s) && OneTurn(c, s.m, force).Go?
    ensures Inv(c, s.(m := OneTurn(c, s.m, force).next))
  {
    var next := OneTurn(c, s.m, force).next;
    TurnKeepsMeaning(c, s.m, force);
    TurnScansOrEmits(c, s.m, force);
    if |next.first| != |s.m.first| {
      EmissionKeepsInv(c, s, next, next.first[|s.m.first|]);
    }
  }

  lemma {:induction false} RunKeepsInv(c: Config, s: System, force: bool, thawed: nat)
    requires Inv(c, s)
    ensures Inv(c, s.(m := Run(c, s.m, force, thawed)))
    decreases thawed
  {
    if thawed > 0 && OneTurn(c, s.m, force).Go? {
      var next := s.(m := OneTurn(c, s.m, force).next);
      TurnKeepsInv(c, s, force);
      RunKeepsInv(c, next, force, thawed - 1);
      assert s.(m := Run(c, s.m, force, thawed)) == next.(m := Run(c, next.m, force, thawed - 1));
    }
  }

  lemma SentAppends(trace: seq<Signal>, signal: Signal)
    ensures Sent(trace + [signal]) == if signal.Relayed? then Sent(trace) + [signal.sent] else Sent(trace)
  {
    assert (trace + [signal])[..|trace|] == trace;
  }

  lemma FrontierMoves(a: seq<Event>, b: seq<Event>)
    requires b != []
    ensures a + [b[0]] + b[1..] == a + b
  {
  }

  lemma RelayOneKeepsDecided(s: System)
    requires s.m.first != []
    ensures Decided(RelayOne(s)) == Decided(s)
  {
    SentAppends(s.trace, Relayed(s.m.first[0]));
    FrontierMoves(Sent(s.trace), s.m.first);
  }

  /** Relaying moves the frontier between sent and waiting; what is decided does not change. */
  lemma {:induction false} FlushKeepsDecided(s: System, thawed: nat)
    ensures var f := Flush(s, thawed);
      && Decided(f) == Decided(s) && f.enqueued == s.enqueued && f.arrivals == s.arrivals
      && f.m == s.m.(first := f.m.first)
      && f.m.first == s.m.first[if thawed <= |s.m.first| then thawed else |s.m.first|..]
    decreases thawed
  {
    if thawed > 0 && s.m.first != [] {
      RelayOneKeepsDecided(s);
      FlushKeepsDecided(RelayOne(s), thawed - 1);
    }
  }

  lemma PushTimeKeepsDecided(s: System)
    ensures var t := PushTime(s);
      && Decided(t) == Decided(s) && t.enqueued == s.enqueued && t.arrivals == s.arrivals
      && t.m == s.m.(now := t.m.now)
  {
    forall at: Time { SentAppends(s.trace, Clock(at)); }
  }

  lemma RunAndFlushKeepsInv(c: Config, s: System, force: bool, z: Freeze)
    requires Inv(c, s)
    ensures Inv(c, RunAndFlush(c, s, force, z))
  {
    RunKeepsInv(c, s, force, z.run);
    var r := s.(m := Run(c, s.m, force, z.run));
    FlushKeepsDecided(r, z.flush);
    PushTimeKeepsDecided(Flush(r, z.flush));
  }

  lemma ReceiveKeepsInv(c: Config, s: System, e: RawEvent)
    requires Inv(c, s)
    ensures Inv(c, Receive(s, e))
  {
    if !Dropped(s.m, e) {
      assert Decided(s) + (s.m.middle + (s.m.third + [e])) == Decided(s) + Undecided(s.m) + [e];
    }
  }

  lemma StepKeepsInv(c: Config, s: System, call: Call)
    requires Inv(c, s)
    ensures Inv(c, Step(c, s, call))
  {
    match call.input {
      case KeyEvent(e) =>
        ReceiveKeepsInv(c, s, e);
        RunAndFlushKeepsInv(c, Receive(s, e), false, call.freeze);
      case OutOfBounds =>
      case TimeIs(now) =>
        RunAndFlushKeepsInv(c, s.(m := s.m.(now := now)), false, call.freeze);
      case Confirm =>
        RunAndFlushKeepsInv(c, s, true, call.freeze);
    }
  }

  /** The invariant holds after any sequence of calls under any freezing pattern. */
  lemma {:induction false} PlayKeepsInv(c: Config, calls: seq<Call>)
    ensures Inv(c, Play(c, calls))
    decreases |calls|
  {
    if calls != [] {
      PlayKeepsInv(c, calls[..|calls|-1]);
      StepKeepsInv(c, Play(c, calls[..|calls|-1]), calls[|calls|-1]);
    }
  }

  /** No stuck modifiers: in every run, the first release of a key sent after a press of it carries
      the code of that press, be it forked, self-forked or plain. */
  lemma NoStuckModifiers(c: Config, calls: seq<Call>, k: Key, i: nat, j: nat)
    requires i < j < |Decided(Play(c, calls))|
    requires Decided(Play(c, calls))[i].Presses(k) && Decided(Play(c, calls))[j].Releases(k)
    requires forall r :: i < r < j ==>
               !Decided(Play(c, calls))[r].Presses(k) && !Decided(Play(c, calls))[r].Releases(k)
    ensures Decided(Play(c, calls))[j].code == Decided(Play(c, calls))[i].code
  {
    PlayKeepsInv(c, calls);
    StandingSinceLastPress(Decided(Play(c, calls)), k, i, j);
  }

  /** Nothing is lost, duplicated or reordered in any run, and what is still undecided is untouched. */
  lemma NothingLost(c: Config, calls: seq<Call>)
    ensures var s := Play(c, calls);
      && |Decided(s)| <= |s.enqueued|
      && SameButCodes(Decided(s), s.enqueued[..|Decided(s)|])
      && Undecided(s.m) == s.enqueued[|Decided(s)|..]
      && forall i :: 0 <= i < |Decided(s)| ==>
           Decided(s)[i].code in {s.enqueued[i].key, c.forkOf[s.enqueued[i].key]}
  {
    PlayKeepsInv(c, calls);
    var s := Play(c, calls);
    var d, u := Decided(s), Undecided(s.m);
    assert forall i :: 0 <= i < |d| ==> (d + u)[i] == d[i];
    forall i | 0 <= i < |u|
      ensures u[i] == s.enqueued[|d| + i]
    {
      assert (d + u)[|d| + i] == u[i];
      assert u[i].Raw();
    }
  }
}
