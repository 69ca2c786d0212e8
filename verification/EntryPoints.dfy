/** The entry points of the machine as functions on its state, its input history and the trace of
    what it handed downstream; and whole runs over them. */
module EntryPoints {
  import opened Configuration
  import opened Automaton

  datatype Signal = Relayed(sent: Event) | Clock(at: Time)
  {
    function Stamp(): Time { if Relayed? then sent.time else at }
  }

  /** When the output freezes during one call: how many loop tests and how many flush tests find it
      thawed, and whether it is thawed when the time is to be pushed. */
  datatype Freeze = Freeze(run: nat, flush: nat, clock: bool)

  type RawEvent = e: Event | e.Raw() witness Event(0, 0, 0, Press, false)

  datatype Input = KeyEvent(e: RawEvent) | OutOfBounds | TimeIs(now: Time) | Confirm

  datatype Call = Call(input: Input, freeze: Freeze)

  /** A key event as it was given to the machine, and whether it was skipped on the spot. */
  datatype Arrival = Arrival(e: Event, skipped: bool)

  /** `arrivals` is everything given, `enqueued` what was admitted to the queue. */
  datatype System = System(m: Machine, arrivals: seq<Arrival>, enqueued: seq<Event>, trace: seq<Signal>)

  function Idle(): System { System(Start(), [], [], []) }

  /** The events among the signals. */
  function Sent(trace: seq<Signal>): seq<Event> {
    if trace == [] then []
    else
      var front, last := trace[..|trace|-1], trace[|trace|-1];
      if last.Relayed? then Sent(front) + [last.sent] else Sent(front)
  }

  /** Everything decided, relayed or waiting for the output to thaw. */
  function Decided(s: System): seq<Event> { Sent(s.trace) + s.m.first }

  function Undecided(m: Machine): seq<Event> { m.middle + m.third }

  function RelayOne(s: System): System
    requires s.m.first != []
  {
    s.(m := s.m.(first := s.m.first[1..]), trace := s.trace + [Relayed(s.m.first[0])])
  }

  function Flush(s: System, thawed: nat): System
    decreases thawed
  {
    if thawed == 0 || s.m.first == [] then s else Flush(RelayOne(s), thawed - 1)
  }

  /** The time downstream may rely on: that of the oldest event still held, else the last one heard. */
  function PushTime(s: System): System {
    if s.m.Held() == [] then
      if s.m.now == 0 then s else s.(trace := s.trace + [Clock(s.m.now)])
    else
      var oldest := s.m.Held()[0].time;
      var t := s.(m := s.m.(now := 0));
      if oldest == 0 then t else t.(trace := t.trace + [Clock(oldest)])
  }

  function FlushToNext(s: System, z: Freeze): System {
    var flushed := Flush(s, z.flush);
    if z.clock then PushTime(flushed) else flushed
  }

  function RunAndFlush(c: Config, s: System, force: bool, z: Freeze): System {
    FlushToNext(s.(m := Run(c, s.m, force, z.run)), z)
  }

  /** The check of accept_event on the code of an event: it refuses only those above MAX_KEYCODE. */
  predicate PassesBoundCheck(detail: Keycode) { !(detail > MAX_KEYCODE) }

  /** Is this press skipped on arrival, as the auto-repeat of a forked modifier? */
  predicate Dropped(m: Machine, e: Event) { e.kind.Press? && Forked(m.core, e.key) }

  function Receive(s: System, e: Event): System {
    var t := s.(m := s.m.(now := 0), arrivals := s.arrivals + [Arrival(e, Dropped(s.m, e))]);
    if Dropped(s.m, e) then t
    else t.(m := t.m.(third := t.m.third + [e]), enqueued := t.enqueued + [e])
  }

  function Step(c: Config, s: System, call: Call): System {
    match call.input
    case KeyEvent(e) => RunAndFlush(c, Receive(s, e), false, call.freeze)
    case OutOfBounds => s.(m := s.m.(now := 0))
    case TimeIs(now) =>
      if s.m.now > now then s
      else RunAndFlush(c, s.(m := s.m.(now := now)), false, call.freeze)
    case Confirm => RunAndFlush(c, s, true, call.freeze)
  }

  function Play(c: Config, calls: seq<Call>): System {
    if calls == [] then Idle()
    else Step(c, Play(c, calls[..|calls|-1]), calls[|calls|-1])
  }

  /** The key events given by these calls, in order: what was typed. */
  function KeysOf(calls: seq<Call>): seq<Event> {
    if calls == [] then []
    else
      var front, last := KeysOf(calls[..|calls|-1]), calls[|calls|-1].input;
      if last.KeyEvent? then front + [last.e] else front
  }

  /** What accept_event and accept_time return: when the next timer is wanted, 0 for never. */
  function NextDecision(m: Machine): Time {
    if m.guess.Normal? then 0 else m.guess.decision
  }
}
