/** The machine itself: fields updated step by step over the ring, each method proved to do what the
    functions on values say. */
module ForkingMachine {
  import opened Configuration
  import opened Automaton
  import opened LookAhead
  import opened Refinement
  import opened EntryPoints
  import opened WholeRuns
  import opened Timing
  import opened TriQueue

  datatype ForkState = StNormal | StSuspect | StVerify

  // An event as it arrives, its code not yet checked against the tables.
  datatype Incoming = Incoming(detail: Keycode, time: Time, kind: Kind, ignored: bool)

  /** The surroundings of the machine: what it took in, and what it handed to the next layer. */
  class Environment {
    ghost var arrivals: seq<Arrival>
    ghost var taken: seq<Event>
    ghost var trace: seq<Signal>

    constructor ()
      ensures arrivals == [] && taken == [] && trace == []
    {
      arrivals, taken, trace := [], [], [];
    }

    method Take(e: Event, skipped: bool)
      modifies this`arrivals, this`taken
      ensures arrivals == old(arrivals) + [Arrival(e, skipped)]
      ensures taken == if skipped then old(taken) else old(taken) + [e]
    {
      arrivals := arrivals + [Arrival(e, skipped)];
      if !skipped {
        taken := taken + [e];
      }
    }

    method RelayEvent(e: Event)
      modifies this`trace
      ensures trace == old(trace) + [Relayed(e)]
    {
      trace := trace + [Relayed(e)];
    }

    method PushTime(now: Time)
      modifies this`trace
      ensures trace == old(trace) + [Clock(now)]
    {
      trace := trace + [Clock(now)];
    }
  }

  class Forking {
    const environment: Environment
    const config: Config
    const forkActive: array<Keycode>
    const tq: ThreeQueues<Event>
    var state: ForkState
    var suspect: Key
    var suspectTime: Time
    var verificatorKeycode: Key
    var verificatorTime: Time
    var lastReleased: Keycode
    var lastReleasedTime: Time
    var decisionTime: Time
    var currentTime: Time

    ghost predicate Wired()
      reads this, tq, tq.buffer, tq.buffer.data
    {
      forkActive.Length == MAX_KEYCODE && tq.Valid()
    }

    ghost function TheGuess(): Guess
      reads this
    {
      match state
      case StNormal => Normal
      case StSuspect => Suspect(suspect, suspectTime, decisionTime)
      case StVerify => Verify(suspect, suspectTime, decisionTime, verificatorKeycode)
    }

    ghost function View(): Machine
      requires Wired()
      reads this, forkActive, tq, tq.buffer, tq.buffer.data
    {
      Machine(Core(forkActive[..], lastReleased, lastReleasedTime), TheGuess(),
              tq.first, tq.middle, tq.third, currentTime)
    }

    ghost function Whole(): System
      requires Wired()
      reads this, environment, forkActive, tq, tq.buffer, tq.buffer.data
    {
      System(View(), environment.arrivals, environment.taken, environment.trace)
    }

    /** Between calls: wired up, and everything that every run keeps. */
    ghost predicate Valid()
      reads this, environment, forkActive, tq, tq.buffer, tq.buffer.data
    {
      Wired() && Inv(config, Whole())
    }

    constructor (environment: Environment, settings: ForkConfiguration, capacity: nat)
      requires 2 <= capacity && settings.Valid()
      requires environment.arrivals == [] && environment.taken == [] && environment.trace == []
      ensures Valid() && config == settings.Contents() && this.environment == environment
      ensures fresh(forkActive) && fresh(tq) && fresh(tq.buffer) && fresh(tq.buffer.data)
      ensures Whole() == Idle() && tq.buffer.data.Length == capacity
    {
      this.environment := environment;
      config := settings.Contents();
      forkActive := new Keycode[MAX_KEYCODE](_ => NO_KEY);
      tq := new ThreeQueues<Event>(capacity);
      state := StNormal;
      suspect, suspectTime := NO_KEY, 0;
      verificatorKeycode, verificatorTime := NO_KEY, 0;
      lastReleased, lastReleasedTime := NO_KEY, 0;
      decisionTime, currentTime := 0, 0;
      new;
      assert forkActive[..] == Start().core.active;
      assert tq.Holds([], [], []);
    }

    predicate KeyForked(k: Key)
      requires forkActive.Length == MAX_KEYCODE
      reads forkActive
    {
      forkActive[k] != k && forkActive[k] != NO_KEY
    }

    static predicate TimeDifferenceMore(now: Time, past: Time, limit: Time) { now > past + limit }

    method RecordLastRelease(e: Event)
      modifies this`lastReleased, this`lastReleasedTime
      ensures lastReleased == e.code && lastReleasedTime == e.time
    {
      lastReleased, lastReleasedTime := e.code, e.time;
    }

    method RewindMachine()
      requires Wired()
      modifies this, tq
      ensures Wired()
      ensures View() == old(View()).(guess := Normal, middle := [], third := old(tq.middle) + old(tq.third))
    {
      state := StNormal;
      suspect := NO_KEY;
      decisionTime := 0;
      verificatorKeycode := NO_KEY;
      tq.RewindMiddle();
      assert tq.Holds(old(tq.first), [], old(tq.middle) + old(tq.third));
    }

    /** The suspect was not a modifier: it goes out as it is. */
    method DoConfirmNonFork()
      requires Wired() && tq.middle != []
      modifies this, tq
      ensures Wired()
      ensures View() == Decide(config, old(View()), Plain)
    {
      tq.MoveToFirst();
      assert tq.Holds(old(tq.first) + [old(tq.middle)[0]], old(tq.middle)[1..], old(tq.third));
      RewindMachine();
    }

    /** The head of the middle region is a modifier: rewrite it, send it out, start again. */
    method ActivateForkRewind()
      requires Wired() && (tq.middle != [] ==> tq.middle[0].Raw())
      modifies this, forkActive, tq, tq.buffer.data
      ensures Wired()
      ensures View() == Decide(config, old(View()), Fork)
    {
      if tq.MiddleEmpty() {
        return;
      }
      ghost var first, middle, third := tq.first, tq.middle, tq.third;
      var pevent := tq.PeekMiddle();
      var originalKey: Key := pevent.code;
      forkActive[originalKey] := config.forkOf[originalKey];
      assert forkActive[..] == old(forkActive[..])[originalKey := config.forkOf[originalKey]];
      var forked := pevent.(code := forkActive[originalKey]);
      tq.RewriteMiddle(forked);
      assert tq.Holds(first, middle[0 := forked], third);
      tq.MoveToFirst();
      assert tq.Holds(first + [forked], middle[1..], third);
      RewindMachine();
    }

    /** Passes the head of the input through to the output. */
    method PassThrough()
      requires Wired() && tq.middle == [] && tq.third != []
      modifies tq
      ensures Wired()
      ensures View() == old(View()).(first := old(tq.first) + [old(tq.third)[0]], third := old(tq.third)[1..])
    {
      ghost var e, rest := tq.third[0], tq.third[1..];
      tq.MoveToSecond();
      assert tq.Holds(old(tq.first), [e], rest);
      tq.MoveToFirst();
    }

    /** A forked, or self-forked, key is let go: it is released with the code it was pressed with. */
    method ReleaseForked(e: Event)
      requires Wired() && tq.middle == []
      requires tq.third != [] && tq.third[0] == e && e.Raw()
      requires e.kind.Release? && forkActive[e.key] != NO_KEY
      modifies this, forkActive, tq, tq.buffer.data
      ensures Wired()
      ensures var (out, core) := Passage(config, old(View()).core, e);
        View() == old(View()).(core := core, first := old(tq.first) + [out], third := old(tq.third)[1..])
    {
      ghost var active := forkActive[..];
      var key: Key := e.code;
      if config.considerForks {
        RecordLastRelease(e);
      } else {
        lastReleased := NO_KEY;
        lastReleasedTime := 0;
      }
      tq.RewriteThird(e.(code := forkActive[key]));
      forkActive[key] := NO_KEY;
      PassThrough();
      assert forkActive[..] == active[key := NO_KEY];
    }

    method ApplyEventToNormal(e: Event)
      requires Wired() && state.StNormal? && tq.middle == []
      requires tq.third != [] && tq.third[0] == e && e.Raw()
      requires !(e.kind.Press? && KeyForked(e.key))
      modifies this, forkActive, tq, tq.buffer.data
      ensures Wired()
      ensures View() == ByKey(config, old(View()))
    {
      ghost var was := View();
      var key: Key := e.code;
      if config.Forkable(key) && e.kind.Press? && !e.ignored {
        if !KeyForked(key)
           && (lastReleased != key || TimeDifferenceMore(e.time, lastReleasedTime, config.repeatMax))
        {
          if forkActive[key] == key {
            PassThrough();
            return;
          }
          state := StSuspect;
          suspect := key;
          suspectTime := e.time;
          decisionTime := suspectTime + config.IntervalOf(key, NO_KEY);
          tq.MoveToSecond();
          assert tq.Holds(was.first, [e], was.third[1..]);
        } else {
          forkActive[key] := key;
          PassThrough();
          assert forkActive[..] == was.core.active[key := key];
        }
      } else if e.kind.Release? && forkActive[key] != NO_KEY {
        ReleaseForked(e);
      } else {
        if e.kind.Release? {
          RecordLastRelease(e);
        }
        PassThrough();
      }
    }

    /** Another key pressed under suspicion may bring the decision forward. */
    method AdoptVerificator(e: Event)
      requires Wired() && state.StSuspect?
      requires tq.third != [] && tq.third[0] == e && e.Raw()
      modifies this, tq
      ensures Wired()
      ensures var sooner := config.VerifierDecision(old(suspect), old(suspectTime), e.key, e.time);
        View() == old(View()).(
          guess := Verify(old(suspect), old(suspectTime),
                          if sooner < old(decisionTime) then sooner else old(decisionTime), e.key),
          middle := old(tq.middle) + [e], third := old(tq.third)[1..])
    {
      state := StVerify;
      verificatorTime := e.time;
      verificatorKeycode := e.code;
      var decision := config.VerifierDecision(suspect, suspectTime, verificatorKeycode, verificatorTime);
      if decision < decisionTime {
        decisionTime := decision;
      }
      tq.MoveToSecond();
    }

    method ApplyEventToSuspect(e: Event)
      requires Wired() && state.StSuspect? && tq.middle != []
      requires tq.middle[0].Raw() && tq.middle[0].key == suspect
      requires tq.third != [] && tq.third[0] == e && e.Raw() && !e.kind.Other?
      requires !(e.kind.Press? && KeyForked(e.key)) && e.time < decisionTime
      modifies this, forkActive, tq, tq.buffer.data
      ensures Wired()
      ensures View() == ByKey(config, old(View()))
    {
      ghost var was := View();
      var key: Key := e.code;
      if e.kind.Release? {
        if key == suspect {
          DoConfirmNonFork();
        } else {
          tq.MoveToSecond();
          assert tq.Holds(was.first, was.middle + [e], was.third[1..]);
        }
      } else if key == suspect {
        if config.repeatable[key] {
          forkActive[suspect] := suspect;
          assert forkActive[..] == was.core.active[suspect := suspect];
          DoConfirmNonFork();
        }
      } else {
        AdoptVerificator(e);
      }
    }

    method ApplyEventToVerifyState(e: Event)
      requires Wired() && state.StVerify? && tq.middle != []
      requires tq.third != [] && tq.third[0] == e && e.Raw() && !e.kind.Other?
      requires !(e.kind.Press? && KeyForked(e.key)) && e.time < decisionTime
      modifies this, tq
      ensures Wired()
      ensures View() == ByKey(config, old(View()))
    {
      ghost var was := View();
      var key: Key := e.code;
      if key == suspect && e.kind.Release? {
        DoConfirmNonFork();
      } else if verificatorKeycode == key && e.kind.Release? {
        state := StSuspect;
        verificatorKeycode := 0;
        tq.MoveToSecond();
        assert tq.Holds(was.first, was.middle + [e], was.third[1..]);
      } else {
        tq.MoveToSecond();
        assert tq.Holds(was.first, was.middle + [e], was.third[1..]);
      }
    }

    method TransitionByKey(e: Event)
      requires Wired() && Sound(config, View()) && tq.third != [] && tq.third[0] == e
      modifies this, forkActive, tq, tq.buffer.data
      ensures Wired()
      ensures View() == ByKey(config, old(View()))
    {
      ghost var was := View();
      assert was.third[0].Raw();
      var key: Key := e.code;
      if KeyForked(key) && e.kind.Press? && key != forkActive[key] {
        ghost var middle := tq.middle;
        tq.MoveToSecond();
        assert tq.Holds(was.first, was.middle + [e], was.third[1..]);
        assert View().middle == was.middle + [e];
        ActivateForkRewind();
        PressOfForkedKey(config, was);
        return;
      }
      if state.StNormal? {
        ApplyEventToNormal(e);
        return;
      }
      if e.time >= decisionTime {
        ActivateForkRewind();
        return;
      }
      if !e.kind.Press? && !e.kind.Release? {
        tq.MoveToSecond();
        assert tq.Holds(was.first, was.middle + [e], was.third[1..]);
        return;
      }
      if state.StSuspect? {
        ApplyEventToSuspect(e);
      } else {
        ApplyEventToVerifyState(e);
      }
    }

    /** The clock decides an open guess once it has reached the decision time. */
    method TransitionByTime(now: Time) returns (decided: bool)
      requires Wired() && Sound(config, View())
      modifies this, forkActive, tq, tq.buffer.data
      ensures Wired()
      ensures decided <==> old(!state.StNormal? && now >= decisionTime)
      ensures View() == if decided then Decide(config, old(View()), Fork) else old(View())
    {
      if state.StNormal? {
        return false;
      }
      if now >= decisionTime {
        ActivateForkRewind();
        return true;
      }
      return false;
    }

    method TransitionByForce()
      requires Wired() && Sound(config, View())
      modifies this, forkActive, tq, tq.buffer.data
      ensures Wired()
      ensures View() == if old(state).StNormal? then old(View()) else Decide(config, old(View()), Fork)
    {
      if state.StNormal? {
        return;
      }
      if !tq.MiddleEmpty() {
        ActivateForkRewind();
      }
    }

    /** One pass through the loop body; it halts when there is nothing to do. */
    method TakeTurn(force: bool) returns (halted: bool)
      requires Wired() && Sound(config, View())
      modifies this, forkActive, tq, tq.buffer.data
      ensures Wired()
      ensures OneTurn(config, old(View()), force) == if halted then Halt else Go(View())
      ensures halted ==> View() == old(View())
    {
      halted := false;
      if !tq.ThirdEmpty() {
        var e := tq.PeekThird();
        TransitionByKey(e);
      } else {
        if !state.StNormal? && currentTime != 0 {
          var decided := TransitionByTime(currentTime);
          if decided {
            return;
          }
        }
        if force && !state.StNormal? {
          TransitionByForce();
        } else {
          halted := true;
        }
      }
    }

    /** The loop of the automaton. `turns` counts its turns; they are bounded unless it spins. */
    method RunLoop(force: bool, thawed: nat) returns (turns: nat)
      requires Wired() && Sound(config, View())
      modifies this, forkActive, tq, tq.buffer.data
      ensures Wired() && Sound(config, View())
      ensures View() == Run(config, old(View()), force, thawed)
      ensures turns <= TurnsLeft(old(View())) || Stutters(config, View())
    {
      ghost var was := View();
      turns := 0;
      while turns < thawed
        invariant turns <= thawed && Wired() && OnTheWay(config, was, View(), force, turns, thawed)
        invariant tq.buffer.data == old(tq.buffer.data)
      {
        ghost var before := View();
        var halted := TakeTurn(force);
        if halted {
          break;
        }
        OneTurnOn(config, was, before, force, turns, thawed);
        turns := turns + 1;
      }
    }

    /** Relays the output region, as far as the next layer is ready for it. */
    method FlushEvents(thawed: nat)
      requires Wired()
      modifies environment, tq, tq.buffer
      ensures Wired() && tq.buffer.data == old(tq.buffer.data)
      ensures Whole() == Flush(old(Whole()), thawed)
    {
      ghost var was := Whole();
      var flushed := 0;
      while flushed < thawed
        invariant flushed <= thawed && Wired() && tq.buffer.data == old(tq.buffer.data)
        invariant Flush(Whole(), thawed - flushed) == Flush(was, thawed)
      {
        if !tq.CanPop() {
          break;
        }
        ghost var before := Whole();
        var event := tq.Pop();
        environment.RelayEvent(event);
        assert Whole() == RelayOne(before);
        flushed := flushed + 1;
      }
    }

    method PushTimeToNext()
      requires Wired()
      modifies environment, this`currentTime
      ensures Wired()
      ensures Whole() == PushTime(old(Whole()))
    {
      var found, item := tq.Oldest();
      var now := currentTime;
      if found {
        now := item.time;
        currentTime := 0;
      }
      if now != 0 {
        environment.PushTime(now);
      }
    }

    method RunAutomaton(force: bool, z: Freeze)
      requires Wired() && Sound(config, View())
      modifies this, environment, forkActive, tq, tq.buffer, tq.buffer.data
      ensures Wired() && tq.buffer.data == old(tq.buffer.data)
      ensures Whole() == RunAndFlush(config, old(Whole()), force, z)
    {
      var turns := RunLoop(force, z.run);
      FlushEvents(z.flush);
      if z.clock {
        PushTimeToNext();
      }
    }

    method NextDecisionTime() returns (next: Time)
      requires Wired()
      ensures next == NextDecision(View())
    {
      next := if state.StVerify? || state.StSuspect? then decisionTime else 0;
    }

    /** Either the event will not be stored, or the ring has a free slot for it. */
    ghost predicate HasRoomFor(detail: Keycode, kind: Kind)
      requires Wired()
      reads this, forkActive, tq, tq.buffer, tq.buffer.data
    {
      || detail >= MAX_KEYCODE || (kind.Press? && KeyForked(detail))
      || tq.buffer.size < tq.buffer.data.Length
    }

    /** Takes an event into the input region, unless it is the auto-repeat of a forked modifier. */
    method Enqueue(event: RawEvent)
      requires Wired() && HasRoomFor(event.key, event.kind)
      modifies this, environment, tq, tq.buffer, tq.buffer.data
      ensures Wired() && tq.buffer.data == old(tq.buffer.data)
      ensures Whole() == Receive(old(Whole()), event)
    {
      currentTime := 0;
      var skip := event.kind.Press? && KeyForked(event.key);
      environment.Take(event, skip);
      if !skip {
        tq.Push(event);
      }
    }

    method AcceptKey(event: RawEvent, z: Freeze) returns (next: Time)
      requires Valid() && HasRoomFor(event.key, event.kind)
      modifies this, environment, forkActive, tq, tq.buffer, tq.buffer.data
      ensures Valid() && tq.buffer.data == old(tq.buffer.data)
      ensures Whole() == Step(config, old(Whole()), Call(KeyEvent(event), z))
      ensures next == NextDecision(View())
    {
      ReceiveKeepsInv(config, Whole(), event);
      StepKeepsInv(config, Whole(), Call(KeyEvent(event), z));
      Enqueue(event);
      RunAutomaton(false, z);
      next := NextDecisionTime();
    }

    /** A key event arrives. The tables have no entry for MAX_KEYCODE, which the bound check lets pass,
        and the ring must have room. */
    method AcceptEvent(e: Incoming, z: Freeze) returns (next: Time)
      requires Valid() && e.detail != MAX_KEYCODE
      requires HasRoomFor(e.detail, e.kind)
      modifies this, environment, forkActive, tq, tq.buffer, tq.buffer.data
      ensures Valid() && tq.buffer.data == old(tq.buffer.data)
      ensures Whole() == Step(config, old(Whole()), Call(
                if !PassesBoundCheck(e.detail) then OutOfBounds
                else KeyEvent(Event(e.detail, e.detail, e.time, e.kind, e.ignored)), z))
      ensures next == if !PassesBoundCheck(e.detail) then 0 else NextDecision(View())
      ensures e.detail < 256 ==>
                && Whole() == Step(config, old(Whole()),
                                   Call(KeyEvent(Event(e.detail, e.detail, e.time, e.kind, e.ignored)), z))
                && environment.arrivals == old(environment.arrivals) +
                   [Arrival(Event(e.detail, e.detail, e.time, e.kind, e.ignored),
                            e.kind.Press? && old(KeyForked(e.detail)))]
                && next == NextDecision(View())
      ensures e.detail > 256 ==>
                && next == 0 && currentTime == 0
                && Whole() == old(Whole()).(m := old(Whole()).m.(now := 0))
    {
      if !PassesBoundCheck(e.detail) {
        currentTime := 0;
        return 0;
      }
      var event := Event(e.detail, e.detail, e.time, e.kind, e.ignored);
      InputsOfStep(config, Whole(), Call(KeyEvent(event), z));
      next := AcceptKey(event, z);
    }

    /** The time passes; a time before the last one heard is refused. */
    method AcceptTime(now: Time, z: Freeze) returns (next: Time)
      requires Valid()
      modifies this, environment, forkActive, tq, tq.buffer, tq.buffer.data
      ensures Valid() && tq.buffer.data == old(tq.buffer.data)
      ensures Whole() == Step(config, old(Whole()), Call(TimeIs(now), z))
      ensures now < old(currentTime) ==> Whole() == old(Whole())
      ensures next == NextDecision(View())
    {
      ghost var was := Whole();
      StepKeepsInv(config, was, Call(TimeIs(now), z));
      if currentTime > now {
        next := NextDecisionTime();
        return;
      }
      currentTime := now;
      assert Whole() == was.(m := was.m.(now := now));
      RunAutomaton(false, z);
      next := NextDecisionTime();
    }

    /** A mouse button confirms every key under suspicion as a modifier. */
    method AcceptConfirmation(z: Freeze)
      requires Valid()
      modifies this, environment, forkActive, tq, tq.buffer, tq.buffer.data
      ensures Valid() && tq.buffer.data == old(tq.buffer.data)
      ensures Whole() == Step(config, old(Whole()), Call(Confirm, z))
    {
      StepKeepsInv(config, Whole(), Call(Confirm, z));
      RunAutomaton(true, z);
    }
  }

  /** The loop, started at `was`, has come to `m` after some turns of those it may take. */
  ghost predicate OnTheWay(c: Config, was: Machine, m: Machine, force: bool, turns: nat, thawed: nat)
    requires turns <= thawed
  {
    && Sound(c, m) && Run(c, m, force, thawed - turns) == Run(c, was, force, thawed)
    && (turns + TurnsLeft(m) <= TurnsLeft(was) || Stutters(c, m))
  }

  lemma OneTurnOn(c: Config, was: Machine, m: Machine, force: bool, turns: nat, thawed: nat)
    requires turns < thawed && OnTheWay(c, was, m, force, turns, thawed) && OneTurn(c, m, force).Go?
    ensures OnTheWay(c, was, OneTurn(c, m, force).next, force, turns + 1, thawed)
  {
    TurnKeepsMeaning(c, m, force);
    TurnProgresses(c, m, force);
  }

  /** Re-pressing a forked key forks whatever heads the middle region: the suspect if there is one, else
      the key itself. */
  lemma PressOfForkedKey(c: Config, m: Machine)
    requires Sound(c, m) && m.third != []
    requires m.third[0].kind.Press? && Forked(m.core, m.third[0].key)
    ensures Decide(c, m.(middle := m.middle + [m.third[0]], third := m.third[1..]), Fork) == ByKey(c, m)
  {
    var e := m.third[0];
    if m.guess.Normal? {
      assert (m.middle + [e])[1..] + m.third[1..] == m.third[1..];
    } else {
      assert (m.middle + [e])[1..] + m.third[1..] == m.middle[1..] + m.third;
    }
  }
}
