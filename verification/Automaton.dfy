/** The decision machine as a value: what is committed, what is being guessed, the three regions of
    the queue, and one turn of the loop of `run_automaton`. */
module Automaton {
  import opened Configuration

  /** What the machine has settled. `active[k]` is 0 when `k` is up (or down untouched), else the
      code its press was sent out with. */
  datatype Core = Core(active: Table, lastReleased: Keycode, lastReleasedTime: Time)

  /** What it is guessing: about which key, since when, and when the guess turns into a fork. */
  datatype Guess =
    | Normal
    | Suspect(key: Key, since: Time, decision: Time)
    | Verify(key: Key, since: Time, decision: Time, verifier: Key)

  /** What one more event means for an open guess. */
  datatype Verdict =
    | Fork
    | Plain
    | SelfPlain
    | Stutter
    | Waiting(guess: Guess)

  datatype Machine = Machine(
    core: Core,
    guess: Guess,
    first: seq<Event>,
    middle: seq<Event>,
    third: seq<Event>,
    now: Time)
  {
    /** Everything not yet relayed, oldest first. */
    function Held(): seq<Event> { first + middle + third }
    function Enqueue(es: seq<Event>): Machine { this.(third := third + es) }
  }

  datatype Turn = Halt | Go(next: Machine)

  function Start(): Machine { Machine(Core(seq(MAX_KEYCODE, _ => NO_KEY), NO_KEY, 0), Normal, [], [], [], 0) }

  predicate Forked(core: Core, k: Key) {
    core.active[k] != k && core.active[k] != NO_KEY
  }

  // Pressed again so soon after its release that it should auto-repeat.
  predicate Quick(c: Config, core: Core, e: Event) {
    core.lastReleased == e.key && e.time <= core.lastReleasedTime + c.repeatMax
  }

  /** Does this event open a guess when nothing is being guessed? */
  predicate Suspicious(c: Config, core: Core, e: Event) {
    && e.kind.Press? && !e.ignored && c.Forkable(e.key)
    && core.active[e.key] != e.key && !Forked(core, e.key)
    && !Quick(c, core, e)
  }

  function Opening(c: Config, e: Event): Guess {
    Suspect(e.key, e.time, e.time + c.IntervalOf(e.key, NO_KEY))
  }

  function NoteRelease(core: Core, e: Event): Core {
    core.(lastReleased := e.key, lastReleasedTime := e.time)
  }

  function Mark(core: Core, k: Key, code: Keycode): Core {
    core.(active := core.active[k := code])
  }

  /** An event that opens no guess goes out at once. */
  function Passage(c: Config, core: Core, e: Event): (Event, Core) {
    if e.kind.Press? && Forked(core, e.key) then Sentence(c, core, e, Fork)
    else if e.kind.Press? && !e.ignored && c.Forkable(e.key) then
      (e, if Quick(c, core, e) then Mark(core, e.key, e.key) else core)
    else if e.kind.Release? && core.active[e.key] != NO_KEY then
      var noted := if c.considerForks then NoteRelease(core, e)
                   else core.(lastReleased := NO_KEY, lastReleasedTime := 0);
      (e.(code := core.active[e.key]), Mark(noted, e.key, NO_KEY))
    else
      (e, if e.kind.Release? then NoteRelease(core, e) else core)
  }

  /** How a decided key goes out. */
  function Sentence(c: Config, core: Core, e: Event, v: Verdict): (Event, Core) {
    match v
    case Fork => (e.(code := c.forkOf[e.key]), Mark(core, e.key, c.forkOf[e.key]))
    case SelfPlain => (e, Mark(core, e.key, e.key))
    case _ => (e, core)
  }

  /** Weigh one event against an open guess. */
  function Examine(c: Config, core: Core, g: Guess, e: Event): (v: Verdict)
    requires !g.Normal?
    ensures v.Waiting? ==> !v.guess.Normal? && v.guess.key == g.key && v.guess.since == g.since
  {
    if e.kind.Press? && Forked(core, e.key) then Fork
    else if e.time >= g.decision then Fork
    else if e.kind.Other? then Waiting(g)
    else if g.Suspect? then
      if e.kind.Release? then
        if e.key == g.key then Plain else Waiting(g)
      else if e.key == g.key then
        if c.repeatable[e.key] then SelfPlain else Stutter
      else
        var sooner := c.VerifierDecision(g.key, g.since, e.key, e.time);
        Waiting(Verify(g.key, g.since, if sooner < g.decision then sooner else g.decision, e.key))
    else if e.kind.Release? && e.key == g.key then Plain
    else if e.kind.Release? && e.key == g.verifier then Waiting(Suspect(g.key, g.since, g.decision))
    else Waiting(g)
  }

  /** Send out the head of the middle region, then give the rest of it back to the input. */
  function Decide(c: Config, m: Machine, v: Verdict): Machine {
    if m.middle == [] then m
    else
      var (sent, core) := Sentence(c, m.core, m.middle[0], v);
      m.(core := core, guess := Normal, first := m.first + [sent],
         middle := [], third := m.middle[1..] + m.third)
  }

  function ByKey(c: Config, m: Machine): Machine
    requires m.third != []
  {
    var e, rest := m.third[0], m.third[1..];
    if m.guess.Normal? then
      if Suspicious(c, m.core, e) then
        m.(guess := Opening(c, e), middle := m.middle + [e], third := rest)
      else
        var (sent, core) := Passage(c, m.core, e);
        m.(core := core, first := m.first + [sent], third := rest)
    else
      match Examine(c, m.core, m.guess, e)
      case Waiting(g) => m.(guess := g, middle := m.middle + [e], third := rest)
      case Stutter => m
      case v => Decide(c, m, v)
  }

  predicate Expired(m: Machine) {
    !m.guess.Normal? && m.now != 0 && m.now >= m.guess.decision
  }

  /** One turn of the loop, the output not being frozen. */
  function OneTurn(c: Config, m: Machine, force: bool): Turn {
    if m.third != [] then Go(ByKey(c, m))
    else if Expired(m) || (force && !m.guess.Normal?) then Go(Decide(c, m, Fork))
    else Halt
  }

  /** The loop, when the output freezes after it was found thawed `thawed` times. */
  function Run(c: Config, m: Machine, force: bool, thawed: nat): Machine
    decreases thawed
  {
    if thawed == 0 then m
    else match OneTurn(c, m, force)
         case Halt => m
         case Go(next) => Run(c, next, force, thawed - 1)
  }

  /** The turn that changes nothing: the suspect is pressed again, early, and may not repeat. */
  predicate Stutters(c: Config, m: Machine) {
    && m.third != [] && m.guess.Suspect?
    && m.third[0].Presses(m.guess.key)
    && !Forked(m.core, m.guess.key)
    && m.third[0].time < m.guess.decision
    && !c.repeatable[m.guess.key]
  }
}
