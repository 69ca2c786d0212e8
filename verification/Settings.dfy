/** What each timing setting changes, told by what comes out. */
module Settings {
  import opened Configuration
  import opened Automaton
  import opened LookAhead
  import opened Downstream

  function WithInterval(c: Config, k: Key, twin: Key, time: Time): Config {
    c.(interval := Timed(c.interval, k, twin, time))
  }

  function WithTolerance(c: Config, k: Key, twin: Key, time: Time): Config {
    c.(overlap := Timed(c.overlap, k, twin, time))
  }

  /** The interval set for a key alone is the time within which a tap is the letter, whatever the tolerances. */
  lemma IntervalTimesTheTap(c: Config, core: Core, k: Key, time: Time, at: Time, up: Time)
    requires Suspicious(c, core, Typed(k, at, Press)) && time != 0
    ensures var p, r := Typed(k, at, Press), Typed(k, up, Release);
      var code := if up < at + time then k else c.forkOf[k];
      Settle(WithInterval(c, k, NO_KEY, time), FOREVER, core, [p, r]).sent == [AsCode(p, code), AsCode(r, code)]
  {
    TapOrHold(WithInterval(c, k, NO_KEY, time), core, k, at, up);
  }

  /** The global interval is, for exactly the keys that have no interval of their own. */
  lemma GlobalIntervalTimesTheTap(c: Config, core: Core, k: Key, time: Time, at: Time, up: Time)
    requires Suspicious(c, core, Typed(k, at, Press))
    ensures var p, r := Typed(k, at, Press), Typed(k, up, Release);
      var own := c.interval[k][NO_KEY];
      var code := if up < at + (if own != 0 then own else time) then k else c.forkOf[k];
      Settle(WithInterval(c, NO_KEY, NO_KEY, time), FOREVER, core, [p, r]).sent == [AsCode(p, code), AsCode(r, code)]
  {
    TapOrHold(WithInterval(c, NO_KEY, NO_KEY, time), core, k, at, up);
  }

  /** What the first key goes out as when an ordinary second one is pressed before it is released, given the
      interval of the key alone, the interval of the pair and its tolerance. */
  ghost predicate ChordsAt(c: Config, core: Core, k: Key, v: Key, alone: Time, pair: Time, tolerance: Time) {
    forall at: Time, second: Time, up: Time ::
      Suspicious(c, core, Typed(k, at, Press)) ==>
        var p, q, r := Typed(k, at, Press), Typed(v, second, Press), Typed(k, up, Release);
        var chord := || second >= at + alone || up >= at + alone
                     || up >= at + pair || up >= second + tolerance;
        var code := if chord then c.forkOf[k] else k;
        Settle(c, FOREVER, core, [p, q, r]).sent == [AsCode(p, code), q, AsCode(r, code)]
  }

  lemma ChordsAsConfigured(c: Config, core: Core, k: Key, v: Key)
    requires v != k && !c.Forkable(v) && !Forked(core, v)
    ensures ChordsAt(c, core, k, v, c.IntervalOf(k, NO_KEY), c.IntervalOf(k, v), c.ToleranceOf(k, v))
  {
    forall at: Time, second: Time, up: Time | Suspicious(c, core, Typed(k, at, Press))
      ensures var p, q, r := Typed(k, at, Press), Typed(v, second, Press), Typed(k, up, Release);
        var chord := || second >= at + c.IntervalOf(k, NO_KEY) || up >= at + c.IntervalOf(k, NO_KEY)
                     || up >= at + c.IntervalOf(k, v) || up >= second + c.ToleranceOf(k, v);
        var code := if chord then c.forkOf[k] else k;
        Settle(c, FOREVER, core, [p, q, r]).sent == [AsCode(p, code), q, AsCode(r, code)]
    {
      RolloverOrChord(c, core, k, v, at, second, up);
    }
  }

  /** Setting the interval of a pair moves the bound of the pair, and no other. */
  lemma PairIntervalTimesTheChord(c: Config, core: Core, k: Key, v: Key, time: Time)
    requires v != k && v != NO_KEY && !c.Forkable(v) && !Forked(core, v) && time != 0
    ensures ChordsAt(WithInterval(c, k, v, time), core, k, v, c.IntervalOf(k, NO_KEY), time, c.ToleranceOf(k, v))
  {
    ChordsAsConfigured(WithInterval(c, k, v, time), core, k, v);
  }

  /** Setting a tolerance, of the pair, or of the key alone when the pair has none, moves the bound after the
      second key, and no other. */
  lemma ToleranceTimesTheChord(c: Config, core: Core, k: Key, v: Key, twin: Key, time: Time)
    requires v != k && !c.Forkable(v) && !Forked(core, v) && time != 0
    requires twin == v || (twin == NO_KEY && c.overlap[k][v] == 0)
    ensures ChordsAt(WithTolerance(c, k, twin, time), core, k, v, c.IntervalOf(k, NO_KEY), c.IntervalOf(k, v), time)
  {
    ChordsAsConfigured(WithTolerance(c, k, twin, time), core, k, v);
  }

  /** The new configuration with one fork added to it. */
  function OneFork(k: Key, fork: Keycode): Config { NoForks().(forkOf := NoForks().forkOf[k := fork]) }

  /** On a new configuration with one fork: a tap takes less than 200 ms; a second key forks the first once both
      are down for 100 ms, or after 200 ms; and struck again within 80 ms the key is free to repeat, whether it
      was a letter or a fork before. */
  lemma DefaultTimes(k: Key, fork: Keycode, v: Key, at: Time, up: Time, again: Time)
    requires k != NO_KEY && fork != NO_KEY && v != k
    ensures var c, core := OneFork(k, fork), Start().core;
      var p, r, q := Typed(k, at, Press), Typed(k, up, Release), Typed(k, again, Press);
      var code := if up < at + 200 then k else fork;
      && Settle(c, FOREVER, core, [p, r]).sent == [AsCode(p, code), AsCode(r, code)]
      && ChordsAt(c, core, k, v, 200, 200, 100)
      && (Settle(c, FOREVER, core, [p, r, q]).held == if again <= up + 80 then [] else [q])
  {
    var c, core := OneFork(k, fork), Start().core;
    TapOrHold(c, core, k, at, up);
    ChordsAsConfigured(c, core, k, v);
    QuickRepressRepeats(c, core, k, at, up, again);
  }
}
