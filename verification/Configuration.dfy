/** Keys, times, events and the static configuration: the fork table and the timing matrices. */
module Configuration {
  const MAX_KEYCODE: nat := 256
  const NO_KEY: nat := 0
  const DEFAULT_INTERVAL: nat := 200
  const DEFAULT_OVERLAP: nat := 100
  const DEFAULT_REPEAT_MAX: nat := 80

  type Time = nat
  type Keycode = nat

  // A key of the keyboard; it indexes every table.
  type Key = k: nat | k < MAX_KEYCODE

  type Table = t: seq<Keycode> | |t| == MAX_KEYCODE witness seq(MAX_KEYCODE, _ => NO_KEY)
  type Flags = t: seq<bool> | |t| == MAX_KEYCODE witness seq(MAX_KEYCODE, _ => false)
  type Row = t: seq<Time> | |t| == MAX_KEYCODE witness seq(MAX_KEYCODE, _ => 0)
  const UNSET_ROW: Row := seq(MAX_KEYCODE, _ => 0)
  type Matrix = t: seq<Row> | |t| == MAX_KEYCODE witness seq<Row>(MAX_KEYCODE, _ => UNSET_ROW)

  // X events may be neither a press nor a release.
  datatype Kind = Press | Release | Other

  /** `key` is the physical key, `code` the keycode the event currently carries (what the
      environment reports and rewrites). `ignored` is the environment's answer to ignore_event. */
  datatype Event = Event(key: Key, code: Keycode, time: Time, kind: Kind, ignored: bool)
  {
    predicate Raw() { code == key }
    function Restored(): Event { this.(code := key) }
    predicate Presses(k: Key) { kind.Press? && key == k }
    predicate Releases(k: Key) { kind.Release? && key == k }
  }

  /** The time two keys give: pair-specific, else the key's own, else the global one (0 is "unset"). */
  function Lookup(m: Matrix, code: Key, verifier: Key): Time {
    if m[code][verifier] != 0 then m[code][verifier]
    else if m[code][NO_KEY] != 0 then m[code][NO_KEY]
    else m[NO_KEY][NO_KEY]
  }

  datatype Config = Config(
    forkOf: Table,
    repeatable: Flags,
    overlap: Matrix,
    interval: Matrix,
    repeatMax: Time,
    considerForks: bool)
  {
    predicate Forkable(k: Key) { forkOf[k] != NO_KEY }

    function IntervalOf(k: Key, verifier: Key): Time { Lookup(interval, k, verifier) }

    function ToleranceOf(k: Key, verifier: Key): Time { Lookup(overlap, k, verifier) }

    /** When a verifier pressed at `at` makes a key pressed at `since` fork. */
    function VerifierDecision(k: Key, since: Time, verifier: Key, at: Time): Time {
      var oneKey := since + IntervalOf(k, verifier);
      var overlapped := at + ToleranceOf(k, verifier);
      if overlapped < oneKey then overlapped else oneKey
    }
  }

  /** A matrix with one cell set. */
  function Timed(m: Matrix, k: Key, twin: Key, time: Time): Matrix { m[k := m[k][twin := time]] }

  /** A matrix that sets the global time only. */
  function Globally(time: Time): Matrix {
    var unset: Matrix := seq<Row>(MAX_KEYCODE, _ => UNSET_ROW);
    unset[NO_KEY := UNSET_ROW[NO_KEY := time]]
  }

  function NoForks(): Config {
    Config(seq(MAX_KEYCODE, _ => NO_KEY), seq(MAX_KEYCODE, _ => false),
           Globally(DEFAULT_OVERLAP), Globally(DEFAULT_INTERVAL), DEFAULT_REPEAT_MAX, true)
  }

  /** The mutable configuration object and its nested-loop constructor. */
  class ForkConfiguration {
    const forkKeycode: array<Keycode>
    const forkRepeatable: array<bool>
    const overlapTolerance: array2<Time>
    const verificationInterval: array2<Time>
    var repeatMax: Time
    var considerForks: bool

    ghost predicate Valid()
      reads this
    {
      && forkKeycode.Length == forkRepeatable.Length == MAX_KEYCODE
      && overlapTolerance.Length0 == overlapTolerance.Length1 == MAX_KEYCODE
      && verificationInterval.Length0 == verificationInterval.Length1 == MAX_KEYCODE
      && overlapTolerance != verificationInterval
    }

    static function Cells(m: array2<Time>): (r: Matrix)
      requires m.Length0 == m.Length1 == MAX_KEYCODE
      reads m
    {
      seq(MAX_KEYCODE, i requires 0 <= i < m.Length0 reads m =>
        seq(MAX_KEYCODE, j requires 0 <= j < m.Length1 reads m => m[i, j]))
    }

    /** The settings as a value, as a machine takes them for a run. */
    function Contents(): Config
      requires Valid()
      reads this, forkKeycode, forkRepeatable, overlapTolerance, verificationInterval
    {
      Config(forkKeycode[..], forkRepeatable[..], Cells(overlapTolerance), Cells(verificationInterval),
             repeatMax, considerForks)
    }

    constructor ()
      ensures Valid()
      ensures fresh(forkKeycode) && fresh(forkRepeatable)
      ensures fresh(overlapTolerance) && fresh(verificationInterval)
      ensures Contents() == NoForks()
    {
      forkKeycode := new Keycode[MAX_KEYCODE];
      forkRepeatable := new bool[MAX_KEYCODE];
      overlapTolerance := new Time[MAX_KEYCODE, MAX_KEYCODE];
      verificationInterval := new Time[MAX_KEYCODE, MAX_KEYCODE];
      repeatMax := DEFAULT_REPEAT_MAX;
      considerForks := true;
      new;
      for i := 0 to MAX_KEYCODE
        invariant repeatMax == DEFAULT_REPEAT_MAX && considerForks
        invariant forall a :: 0 <= a < i ==> forkKeycode[a] == NO_KEY && !forkRepeatable[a]
        invariant forall a, b :: 0 <= a < i && 0 <= b < MAX_KEYCODE ==> overlapTolerance[a, b] == 0
        invariant forall a, b :: 0 <= a < i && 0 <= b < MAX_KEYCODE ==> verificationInterval[a, b] == 0
      {
        for j := 0 to MAX_KEYCODE
          invariant repeatMax == DEFAULT_REPEAT_MAX && considerForks
          invariant forall a :: 0 <= a < i ==> forkKeycode[a] == NO_KEY && !forkRepeatable[a]
          invariant forall a, b :: 0 <= a < i && 0 <= b < MAX_KEYCODE ==> overlapTolerance[a, b] == 0
          invariant forall a, b :: 0 <= a < i && 0 <= b < MAX_KEYCODE ==> verificationInterval[a, b] == 0
          invariant forall b :: 0 <= b < j ==> overlapTolerance[i, b] == 0 && verificationInterval[i, b] == 0
        {
          overlapTolerance[i, j] := 0;
          verificationInterval[i, j] := 0;
        }
        forkKeycode[i] := NO_KEY;
        forkRepeatable[i] := false;
      }
      verificationInterval[0, 0] := DEFAULT_INTERVAL;
      overlapTolerance[0, 0] := DEFAULT_OVERLAP;
      CellsAreGlobal(verificationInterval, DEFAULT_INTERVAL);
      CellsAreGlobal(overlapTolerance, DEFAULT_OVERLAP);
      assert forkKeycode[..] == NoForks().forkOf;
      assert forkRepeatable[..] == NoForks().repeatable;
    }

    static lemma OneCellChanged(m: array2<Time>, before: Matrix, k: Key, twin: Key, time: Time)
      requires m.Length0 == m.Length1 == MAX_KEYCODE
      requires forall a, b :: 0 <= a < MAX_KEYCODE && 0 <= b < MAX_KEYCODE ==>
                 m[a, b] == if a == k && b == twin then time else before[a][b]
      ensures Cells(m) == Timed(before, k, twin, time)
    {
      forall i | 0 <= i < MAX_KEYCODE
        ensures Cells(m)[i] == Timed(before, k, twin, time)[i]
      {
      }
    }

    /** Sets a verification interval: of a pair, of a key (twin NO_KEY), or the global one (both NO_KEY). */
    method ConfigureInterval(k: Key, twin: Key, time: Time)
      requires Valid()
      modifies verificationInterval
      ensures Valid()
      ensures Contents() == old(Contents()).(interval := Timed(old(Contents()).interval, k, twin, time))
      ensures time != 0 ==> Contents().IntervalOf(k, twin) == time
    {
      ghost var before := Cells(verificationInterval);
      verificationInterval[k, twin] := time;
      OneCellChanged(verificationInterval, before, k, twin, time);
      assert Cells(overlapTolerance) == old(Cells(overlapTolerance));
    }

    /** Sets an overlap tolerance likewise. */
    method ConfigureTolerance(k: Key, twin: Key, time: Time)
      requires Valid()
      modifies overlapTolerance
      ensures Valid()
      ensures Contents() == old(Contents()).(overlap := Timed(old(Contents()).overlap, k, twin, time))
      ensures time != 0 ==> Contents().ToleranceOf(k, twin) == time
    {
      ghost var before := Cells(overlapTolerance);
      overlapTolerance[k, twin] := time;
      OneCellChanged(overlapTolerance, before, k, twin, time);
      assert Cells(verificationInterval) == old(Cells(verificationInterval));
    }

    method ConfigureFork(k: Key, fork: Keycode)
      requires Valid()
      modifies forkKeycode
      ensures Valid() && Contents() == old(Contents()).(forkOf := old(Contents()).forkOf[k := fork])
    {
      forkKeycode[k] := fork;
      assert Cells(overlapTolerance) == old(Cells(overlapTolerance));
      assert Cells(verificationInterval) == old(Cells(verificationInterval));
    }

    static lemma CellsAreGlobal(m: array2<Time>, time: Time)
      requires m.Length0 == m.Length1 == MAX_KEYCODE
      requires forall a, b :: 0 <= a < MAX_KEYCODE && 0 <= b < MAX_KEYCODE ==>
                 m[a, b] == if a == 0 && b == 0 then time else 0
      ensures Cells(m) == Globally(time)
    {
      forall i | 0 <= i < MAX_KEYCODE
        ensures Cells(m)[i] == Globally(time)[i]
      {
      }
    }
  }

  /** Timing one pair of keys leaves every other pair alone, and unsetting it falls back on the
      time the key has alone. */
  lemma PairTimingIsLocal(m: Matrix, k: Key, twin: Key, time: Time, a: Key, b: Key)
    requires k != NO_KEY && twin != NO_KEY
    ensures Lookup(Timed(m, k, twin, time), a, b) ==
      if a != k || b != twin then Lookup(m, a, b) else if time != 0 then time else Lookup(m, k, NO_KEY)
  {
  }

  /** Changing the global time changes exactly the pairs for which nothing more specific is set. */
  lemma GlobalTimingIsFallback(m: Matrix, time: Time, a: Key, b: Key)
    requires a != NO_KEY
    ensures Lookup(Timed(m, NO_KEY, NO_KEY, time), a, b) ==
            if m[a][b] == 0 && m[a][NO_KEY] == 0 then time else Lookup(m, a, b)
  {
  }
}
