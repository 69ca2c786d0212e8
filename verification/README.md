# The forking machine, verified

The forking machine filters a keyboard. Each press of a *forkable* key is held back until it is clear
whether the key was a letter (released soon enough) or a modifier (held, or overlapping another key for
long enough). The machine keeps one ring of events cut into three regions: decided output, events under
investigation, and input. It scans ahead from a suspicious press, decides exactly one event, gives the
rest of the middle region back to the input, and starts over.

The project models that machine, the queue and the ring under it, the timing configuration, and the
packing of the fork table for storage, and proves what the machine promises over whole runs. The central
result is a refinement: the loop with its three regions, rewinds, timer ticks, forced confirmations and
freezing output computes what a short look-ahead definition says about the sequence of admitted events alone.
What is admitted is a second matter: a press can be skipped on arrival, and that does depend on ticks and freezing.
`Admission.dfy` says exactly when.

## How it is organised

| file | content |
|---|---|
| `Configuration.dfy` | keys, events, timing matrices, the configuration object |
| `Automaton.dfy` | the machine as a value and one turn of its loop |
| `LookAhead.dfy` | the reference definition (`Settle`) and the closed form of a verdict |
| `Refinement.dfy` | loop against reference: invariant, termination, batching, ticks, force, spinning |
| `EntryPoints.dfy` | the calls (key, time, confirmation), the flush, whole runs (`Play`) |
| `WholeRuns.dfy` | what every run keeps: conservation, legal codes, paired presses and releases |
| `Timing.dfy` | the downstream clock, and ticks and freezing over whole runs of admitted events |
| `Admission.dfy` | what is given against what is admitted: skipped presses, and when runs over the same typing agree |
| `History.dfy` | the committed state, and how every event goes out, as functions of past events and codes; one event on an idle machine |
| `Handover.dfy` | what one call hands downstream, signal by signal, wherever the output freezes |
| `Settings.dfy` | what each timing setting changes, told by what comes out |
| `Repeating.dfy` | keys that are let through and repeat |
| `Holding.dfy` | bounded holding, exact timers, forced confirmation, presses skipped on arrival |
| `Recoding.dfy` | keys pressed again before their release: when a key that is down changes its code, and what that leaves pressed |
| `Downstream.dfy` | the balance of presses and releases per code, over well-formed typing; tap, hold, rollover, chord and quick re-press |
| `Counterexamples.dfy` | inputs on which the code does not do what its comments say |
| `CircularBuffer.dfy`, `TriQueue.dfy` | the ring over an array, and the three-region queue over the ring |
| `ForkingMachine.dfy` | the mutable machine, each method proved against the functions above |
| `ForkTable.dfy` | saving and restoring the fork table |

The classes `Ring`, `ThreeQueues`, `ForkConfiguration` and `Forking` change their fields and arrays step by
step, as the source does. Their methods are specified by functions on values, and the lemmas are about
those functions.

## What stands for what

- `output_frozen` is an oracle. `Freeze(run, flush, clock)` says how many loop tests and how many flush tests
  of a call find the output thawed, and whether it is thawed when the time is pushed. Every result without a
  condition on the freeze holds for all of them.
- `ignore_event` is a fixed answer per event. `relay_event` and `push_time` append to the trace of an
  `Environment`; its trace and the sequence of events taken in are ghost.
- An event has its physical `key` and the `code` it currently carries. The code is what the source reads and
  rewrites; the key is a label that lets the model say which input an output came from.
- Times are natural numbers that do not wrap. The configuration is fixed during a run.
- `Guess` joins the fields `state`, `suspect`, `suspect_time`, `mDecision_time` and `verificator_keycode`. The
  class keeps them apart and has the source's values in all of them; the value model drops those the source
  does not read in the state at hand.

## Where the code departs from its comments

- **The loop can spin.** A re-press of the suspect before its release and its decision time, with no verifier
  down and the key not repeatable, returns without moving the event (`src/machine.h:658-664`), and the loop
  meets it again for as long as the output is not frozen. The guard to check is the one in `TurnProgresses`: a
  turn changes nothing exactly when it holds. `RepressSpins` and `RepressSpinsInRun` give the family of inputs,
  `StuckExactlyWhenRepressed` says of a queue beforehand whether the loop will end there, and
  `WellTypedNeverSpins` shows that releasing every key before pressing it again rules it out.
- **What is admitted depends on ticks and freezing.** `accept_event` skips a press of a key that is forked at that
  moment, as an auto-repeat (`src/machine.h:1282-1288`). Whether it is forked at that moment depends on what has
  been decided, so on ticks and freezing: `FreezingChangesDecisions` and `TickChangesDecisions` are pairs of runs
  over the same typing that end with different events. `SkippedIffForkedDownstream` says before the call whether
  a press is skipped, `RunsAgreeIffTheySkipAlike` that nothing else can make two timely, unforced runs over the
  same typing differ.
- **A genuine press can be lost.** If the release of the skipped key is still held, behind another suspect or a
  frozen output, and no press of the key was skipped since that release arrived, the key was up and the press is
  genuine; its own release then goes out as a stray.
  `SkippedPressIsRepeat` gives the exact condition for the skipped press to be an auto-repeat, `GenuinePressIsLost`
  a run that loses one, and `BalancedIffNothingSkipped` the effect downstream.
- **A code can stay pressed.** A release goes out with the code of the last press of its key (`src/machine.h:577-600`).
  If the key is pressed again before its release, and that press, suspicious again, becomes a fork, the press that is
  down as the letter is recoded: press and release of the fork follow, and the letter is never released.
  `CodeStaysPressed` gives the family of runs. `RepressIsRecodedIff` says of each press that finds its key down
  whether it is recoded (the guard to check: it is suspicious), `RecodedInRunIff` the same over finished runs. In
  every run a release carries the code of an earlier press of its key if and only if none in between was recoded
  (`ReleaseMatchesUnlessRecoded`), and codes stay pressed only through such presses (`PressedCodeIsHeldUnlessRecoded`,
  `CodeStaysPressedIffRecoded`). Releasing every key before pressing it again rules it out
  (`WellTypedLeavesNothingPressed`).
- **A full ring.** With `always_accept_data_when_full` false the documentation says that new data is not added;
  `push_back` stores nothing but still advances the tail and the count (`src/circular.h:380-398`). `PushBack`
  states that the ring stays valid if and only if there was room or it overwrites.
- **Bound checks.** (`BoundCheckAdmitsOneTooMany`) `accept_event` and the restoring loop let the key `MAX_KEYCODE` pass
  (`src/machine.h:1277`, `windows/sys/kbfiltr.cpp:448`), for which the tables have no entry. The model requires
  that it does not occur.

## Model

| member | source | states |
|---|---|---|
| Configuration.ForkConfiguration.constructor | src/fork_configuration.h:77-105 | A new configuration forks and repeats nothing and sets only the two global times, 200 ms and 100 ms. |
| Configuration.ForkConfiguration.ConfigureInterval | src/machine.h:1069-1078 | Changes exactly the one cell of the interval matrix and nothing else of the configuration. |
| Configuration.ForkConfiguration.ConfigureTolerance | src/machine.h:1079-1083 | Changes exactly the one cell of the tolerance matrix and nothing else. |
| Configuration.ForkConfiguration.ConfigureFork | src/machine.h:1106-1111 | Changes exactly the fork of that key. |
| Configuration.PairTimingIsLocal | src/fork_configuration.h:66-73 | Setting one pair's time leaves every other pair's effective time unchanged; setting it to 0 falls back to the time the key has alone. |
| Configuration.GlobalTimingIsFallback | src/fork_configuration.h:66-73 | Changing the global time changes the effective time of exactly the pairs for which neither the pair nor the key is set. |
| LookAhead.LookAheadRule | src/machine.h:617-757 | The verdict on a suspicious press, as five if-and-only-ifs: forked iff the first ending event comes at or past the running decision time or re-presses a forked key; plain iff it is the timely release of the key; self-forked or stuck iff it is a timely unverified re-press, by repeatability; undecided iff no event ends the guess. |
| LookAhead.VerdictInClosedForm | src/machine.h:771-835 | The verdict depends only on the events up to the first ending one; with none, the guess held is the closed form: running decision time, and as verifier the one adopted press not yet released. |
| LookAhead.SettleInTurn | src/machine.h:899-935 | Every event sent is sent as its own turn has it, at any position: passed through, or by the verdict foreseen from the events after it and what is committed by then. |
| LookAhead.DecisionTightens | src/machine.h:665-687 | The decision time never increases as events arrive, never precedes the suspect under a monotone clock, is bounded by the suspect's interval and by every adopted verifier's decision time, and equals one of these bounds. |
| LookAhead.SettleSplits | src/machine.h:899-935 | Settling a concatenation equals settling the first part without a deadline and then the rest from what it committed and held, for any patience of the second part. |
| LookAhead.SettleConserves | src/machine.h:432-491 | What is sent is a prefix of the events with at most the keycodes changed, and what is held is exactly the remaining suffix. |
| Refinement.TurnKeepsMeaning | src/machine.h:912-935 | Every turn of the loop, by key, clock or force, keeps the invariant (the guess is the scan of the middle region, codes known, inner events raw) and what the reference definition says will come out. |
| Refinement.RunKeepsMeaning | src/machine.h:899-936 | The same for any number of turns, so for a run cut short by freezing at any point. |
| Refinement.RunRefinesLookAhead | src/machine.h:896-943 | A run with time to finish has sent, committed and held exactly what the reference definition says, and spins iff that definition meets a stuttering press. |
| Refinement.TurnProgresses | src/machine.h:658-664 | A turn changes nothing iff the suspect is re-pressed, early, unforked and unrepeatable; every other turn decreases the pair (undecided events, unexamined events) and the turn bound. |
| Refinement.RunComesToRest | src/machine.h:914-935 | From any state of the invariant the loop comes to rest, halted or stuttering, within the turn bound despite the rewinds, forced or not, and more turns change nothing. |
| Refinement.TurnsBounded | src/machine.h:914-935 | With N undecided events the loop test is evaluated at most (N+1)(N+2)/2 times. |
| Refinement.StuckExactlyWhenRepressed | src/machine.h:658-664 | Given the committed state and the queue before a run, it gets stuck iff some suspicious press, everything before it being decided in turn, is re-pressed in time with no verifier down and may not repeat. |
| Refinement.NoDoublePressNeverSpins | src/machine.h:801-803 | If two presses of a key always have its release between them, nothing gets stuck. |
| Refinement.BatchingIsInvisible | src/machine.h:899-943 | Enqueuing in two batches, the first run frozen at any point, ends in the same machine as enqueuing everything at once. |
| Refinement.TicksKeepMeaning | src/machine.h:843-869 | Whatever a run with the clock at `now` decides, the look-ahead from any following events no older than `now` decides alike. |
| Refinement.TicksAreInvisible | src/machine.h:843-869 | Running with the clock at a time for any number of turns and then taking events no older than that time ends in the same machine as taking them without the tick. |
| Refinement.ForceSettlesEverything | src/machine.h:875-890 | A forced run with time to finish ends normal with both inner regions empty, unless it spins. |
| WholeRuns.TurnScansOrEmits | src/machine.h:444-491 | A turn either scans, with committed state, output and undecided events untouched, or sends exactly the oldest undecided event: a press with the code it is then down with, a release with the code it was down with, only that key's entry changing. |
| WholeRuns.PlayKeepsInv | src/machine.h:1250-1329 | After any calls under any freezing: the loop invariant, conservation of the enqueued events, codes raw or configured forks, the active table equal to how each key stands downstream, a key that is down changing its code only from its own to its fork, and the key and time of the last release sent remembered (forgotten only if forks are not considered, and then whenever it carried another code). |
| WholeRuns.NoStuckModifiers | src/machine.h:577-609 | In every run, double presses included, a release carries the code of the last press of its key sent before it. |
| WholeRuns.NothingLost | src/machine.h:961-1015 | In every run what is decided is a prefix of the enqueued events with codes raw or configured forks, and the undecided events are exactly the rest, unchanged. |
| History.CoreIsHistory | src/machine.h:515-609 | At every turn the active table and the remembered release are what the past says: the code each key is down with, whether it was let through (struck again, or repeated while held, and not released since), and the last release that counts. |
| History.SentFromPast | src/machine.h:515-757 | Every event sent, at any position: a release, or a press of a key down with another code, takes the code its key is down with; a press that by the past opens a guess is itself iff its release or repetition ends the guess in time, else its fork; everything else is itself. |
| History.DecisionsAreHistory | src/machine.h:1250-1315 | The same of every event decided at any moment of a timely run of keys and ticks, under any freezing. |
| History.FinishedRunHoldsRightly | src/machine.h:632-689 | What such a run, worked through, holds back starts with a press that by the past opens a guess, which no held event ends and the clock has not decided, or is stuck on an early re-press. |
| History.PressOnIdle | src/machine.h:523-576 | With nothing undecided, a press of a key that is up is held, the timer running for the key's own interval, iff the key (not code 0) forks, the event is not ignored, and the last release sent is not of this key or is more than the repeat limit ago; otherwise it goes out at once as itself. |
| History.NonPressOnIdle | src/machine.h:577-609 | With nothing undecided a release goes out at once with the code its key is down with, any other event as itself. |
| Timing.DownstreamClockIsMonotone | src/machine.h:990-1040 | If the times given never decrease, neither do the times relayed and pushed together, under any freezing, and none exceeds the time of an event still held. |
| Timing.DecisionsAreForetold | src/machine.h:899-943 | After any timely run of keys and ticks under any freezing, whatever events come next, all decisions past and future are those of the reference definition on the admitted events alone. |
| Timing.DecisionsSinceAreForetold | src/machine.h:899-943 | The same from any moment with nothing undecided, confirmations before it included: later decisions are the reference definition on the events admitted since, starting from what was committed then. |
| Timing.KeysAloneAreForetold | src/machine.h:899-943 | The same for key events without ticks, at any moment and for any clock. |
| Timing.ThawedRunIsLookAhead | src/machine.h:1250-1296 | After any timely run of keys and ticks under any freezing, once the last key event, an admitted one, has been worked through unfrozen, what has been decided, committed and held since the start equals the reference definition on all admitted events. |
| Timing.PresentIsForetold | src/machine.h:899-943 | At any moment of such a run, what it has decided together with what a clock at `now` would still decide is the reference definition on the admitted events with the clock at `now`. |
| Timing.TickedRunIsLookAhead | src/machine.h:1299-1315 | After such a run ending with an unfrozen tick at `now`, decided, committed and held are those of the reference definition at `now`. |
| Admission.RunsAgreeIffTheySkipAlike | src/machine.h:1282-1293 | Two timely unforced runs over the same typing, worked through to the same end, with any ticks and freezing, agree on output, committed state and held events iff they kept the same events; skipping the same presses suffices, and is necessary when no two typed events are identical. |
| Admission.UnskippedRunIsLookAhead | src/machine.h:1282-1293 | If no press is skipped such a run shows the reference definition on everything typed. |
| Admission.SkippedIffForkedDownstream | src/machine.h:1282-1288 | Before the call: a press is skipped iff its key is down downstream with a code other than its own. |
| Admission.SkippedIffForkedByLookAhead | src/machine.h:1282-1288 | After a finished run a press is skipped iff its key is forked by the reference definition on the admitted events. |
| Admission.SkippedPressIsRepeat | src/machine.h:1282-1288 | A skipped press finds its key down as typed iff the held events do not release the key, or a press of it was already skipped since its last release arrived. |
| Admission.WellTypedSkipIsGenuine | src/machine.h:1282-1288 | When no key is pressed twice without its release, every skipped press is a genuine one whose key's release is still held. |
| Holding.HoldingIsBounded | src/machine.h:1299-1315 | After an unfrozen tick the returned timer is 0 iff nothing is held; otherwise it is later than the tick and within the verification interval of the oldest held key. |
| Holding.NothingIsHeldTooLong | src/machine.h:1299-1315 | After an unfrozen tick of a timely run, every event still held is younger than the verification interval of the oldest held key, unless the run spins. |
| Holding.TimerIsExact | src/machine.h:1043-1051 | A tick before the requested time decides nothing; a tick at or after it sends the key under suspicion as its fork. |
| Holding.TimerOfAnyMoment | src/machine.h:1043-1051 | At any moment of any run, frozen input still unscanned included, the timer is 0 if the middle region is empty, else the running decision time of its oldest event over the rest of it. |
| Handover.StepHandsOver | src/machine.h:990-1040 | Every call, wherever it freezes: exactly the oldest decided events, as many as the flush tests let through, are relayed, then the time is told once, that of the oldest event held, else of the tick; no more is decided than the loop had turns; an earlier tick changes nothing. |
| Handover.EveryCallTellsTime | src/machine.h:1017-1040 | After any unfrozen key event, skipped or not, tick or confirmation, everything decided is relayed and the last signal is the time of the oldest event held, if any and not 0. |
| Holding.TickReachesDownstream | src/machine.h:1017-1040 | After an unfrozen tick the last signal downstream is the tick's time if nothing is held, else the time of the oldest held event. |
| Holding.OpenGuessIsScanOfMiddle | src/machine.h:444-457 | While a guess is open the middle region is its suspicious press followed by events none of which ends it, so not its release, and the guess is the closed form over them. |
| Holding.ConfirmationSettlesEverything | src/machine.h:1324-1329 | An unfrozen confirmation leaves the machine normal and empty with everything relayed, presses still waiting sent as forks, unless the reference definition is stuck, and then it spins. |
| Holding.DecisionsAfterConfirmation | src/machine.h:1324-1329 | After an unfrozen confirmation that did not spin, all decisions up to the next one are the reference definition on the events admitted since, from what it left committed. |
| Holding.ConfirmationForksTheUndecided | src/machine.h:1317-1329 | Every undecided press that is suspicious in its turn goes out as its fork if no held event ends its guess or the first to do so is late or re-presses a forked key, and as itself if the first is its timely release or re-press. |
| Holding.TimerAfterKeyEvent | src/machine.h:1250-1296 | After an unfrozen admitted key event nothing is held iff the machine is normal; otherwise the event is the last one held and the returned timer lies after it iff, if it is the suspect, its interval is positive, and, if it was adopted as verifier, the pair's interval has not passed and the tolerance is positive. |
| Recoding.ReleaseMatchesUnlessRecoded | src/machine.h:577-609 | In every run, double presses included: the first release sent after a press of its key carries that press's code iff no press of the key sent in between was recoded. |
| Recoding.PressedCodeIsHeldUnlessRecoded | src/machine.h:577-609 | In every run: a code the next layer takes to be down is still held by the key that last pressed it iff no later press of that key was recoded. |
| Recoding.CodeStaysPressedIffRecoded | src/machine.h:577-600 | With all decided keys up, a code is left pressed iff the key that last pressed it was recoded since. |
| Recoding.WellTypedLeavesNothingPressed | src/machine.h:577-600 | Over typing without double presses no press is recoded, and with all keys up no code is left pressed. |
| Recoding.RepressIsRecodedIff | src/machine.h:535-557 | A press that finds its key down downstream goes out under another code iff it is suspicious, its verdict is a fork, and the key forks to another code. |
| Recoding.RecodedInRunIff | src/machine.h:535-557 | The same of every press sent in a finished run, with what is committed in its turn and all events after it. |
| Downstream.BalanceCountsKeys | src/machine.h:197-199 | If every press finds its key up, presses minus releases of a code sent equals the number of keys now down with it minus the releases of that code that found their key up. |
| Downstream.NothingStaysPressed | src/machine.h:577-600 | In every run over typing without double presses, skipped presses included, whenever all decided keys are up every code was released at least as often as pressed, the excess being exactly the stray releases. |
| Downstream.BalancedIffNothingSkipped | src/machine.h:1282-1288 | Over alternating typing, once all keys are up and everything is decided, each skipped press of a key leaves exactly one release of its code too many, and every other code is balanced. |
| Downstream.FirstReleaseMatchesPress | src/machine.h:577-609 | Over typing without double presses the first release of a key sent after a press of it carries the code of that press. |
| Downstream.WellTypedNeverSpins | src/machine.h:801-803 | No run over typing that releases every key before re-pressing it ever spins, whatever the ticks, forces and freezing. |
| Downstream.TapOrHold | src/machine.h:632-640 | From any state in which its press is suspicious, a key released next is the letter iff it is released within its interval, else the fork; press and release agree, nothing is held, and the active table is as before. |
| Downstream.RolloverOrChord | src/fork_configuration.h:134-162 | With a second key pressed before the first is released, the first is forked iff the second is already forked or comes after the interval, or the first outlasts its interval, the pair's interval or the overlap tolerance; with an ordinary second key all three events go out accordingly. |
| Downstream.QuickRepressRepeats | src/machine.h:535-576 | From any state in which the first press is suspicious: re-pressed within the repeat limit of its release the key goes out at once as the letter, else it is held; a release that ended a fork counts iff so configured. |
| Repeating.RepeatedWhileHeld | src/machine.h:645-657 | A suspicious repeatable key re-pressed in time with no verifier down: each of its events from then on, up to and with its release and whatever lies in between, is sent as itself, for any clock and with or without force. |
| Repeating.AutoRepeatTypesItself | src/machine.h:542-657 | A repetition within the interval and any number of further ones at any time are all sent as the key, and nothing is held. |
| Repeating.QuickRepressIsFree | src/machine.h:535-576 | After a quick re-press any number of further presses at any time are sent as the key, and nothing is held. |
| Settings.IntervalTimesTheTap | src/fork_configuration.h:109-121 | With the interval of a key alone set to `t`, its tap is the letter iff released before `t` has passed, whatever the tolerances. |
| Settings.GlobalIntervalTimesTheTap | src/fork_configuration.h:66-73 | The global interval bounds the taps of exactly the keys without an interval of their own. |
| Settings.PairIntervalTimesTheChord | src/fork_configuration.h:134-162 | Setting the interval of a pair moves the pair's bound on the overlap of the two keys, and no other bound. |
| Settings.ToleranceTimesTheChord | src/fork_configuration.h:134-162 | Setting the tolerance of a pair, or of a key whose pair has none, moves the bound after the second press, and no other. |
| Settings.DefaultTimes | src/fork_configuration.h:53-113 | On a new configuration with one fork the bounds are 200 ms, 100 ms of overlap, and 80 ms for a quick re-press, a release that ended a fork included. |
| Counterexamples.RepressSpins | src/machine.h:658-664 | Two early presses of a forkable, unrepeatable key without a release leave the loop repeating one state for any number of turns. |
| Counterexamples.RepressSpinsInRun | src/machine.h:658-664 | The same as a run of two calls, however long the second finds the output thawed. |
| Counterexamples.GenuinePressIsLost | src/machine.h:1282-1288 | For any times and intervals: a run after which a press of a key that is up as typed is skipped. |
| Counterexamples.FreezingChangesDecisions | src/machine.h:1282-1288 | Two runs that differ only in the freezing of one call, over the same typing, end with two and with three events. |
| Counterexamples.TickChangesDecisions | src/machine.h:1282-1288 | Two runs that differ only in a tick, over the same typing, end with one and with two events. |
| Counterexamples.CodeStaysPressed | src/machine.h:577-600 | For any times and intervals that meet its bounds, and any freezing of the first four calls: a run of five key events, the last worked through, after which a code is pressed once and never released although all its key's presses are released. |
| Counterexamples.BoundCheckAdmitsOneTooMany | src/machine.h:1277-1280 | The one code that passes the bound check without a table entry is the table's size. |
| CircularBuffer.SlotIsNormalised | src/circular.h:441-448 | The subscript modulo the capacity is the ring slot at distance index from the head. |
| CircularBuffer.RingIsWindow | src/circular.h:379-404 | After any pushes and pops the overwriting ring holds the most recent items pushed, in order, and exactly as many as one per push less one per pop allows, a push on a full ring adding none. |
| CircularBuffer.Ring.Perform | src/circular.h:379-404 | Performing legal pushes and pops on the array-based ring yields that window. |
| CircularBuffer.RingHoldsLast | src/circular.h:379-398 | After n pushes alone it holds the last min(n, capacity) items in order. |
| CircularBuffer.Ring.PushBack | src/circular.h:380-398 | Appends, dropping the oldest only when full and overwriting; the ring stays valid iff there was room or it overwrites, and otherwise nothing is stored although the count grows past the capacity. |
| CircularBuffer.Ring.PopFront | src/circular.h:399-404 | Removes exactly the oldest item, across the wrap of the array. |
| CircularBuffer.Ring.AssignInto | src/circular.h:469-478 | The contents become the given items, or the last that fit for an overwriting ring. |
| CircularBuffer.Ring.Reserve | src/circular.h:363-371 | Growing keeps the contents and copies each item once; a smaller request changes nothing. |
| CircularBuffer.Ring.AssignIntoReserving | src/circular.h:481-495 | From capacity at least 2 any number of items is stored in order with none lost, under either policy, and the items copied by growing are at most 3 times the final capacity. |
| TriQueue.ThreeQueues.RewindMiddle | src/triqueue.h:116-119 | (A, B, C) becomes (A, [], B + C). |
| TriQueue.ThreeQueues.Push | src/triqueue.h:122-136 | Appends to the third region only if there was a free slot; into a full ring it stores nothing, leaves the cursors, and the queue is no longer valid. |
| TriQueue.ThreeQueues.Pop | src/triqueue.h:142-156 | Removes the head of the first region and leaves the other regions as they are. |
| TriQueue.ThreeQueues.MoveToFirst | src/triqueue.h:187-197 | The head of the middle becomes the last of the first region; an empty middle changes nothing. |
| TriQueue.ThreeQueues.MoveToSecond | src/triqueue.h:199-207 | The head of the third becomes the last of the middle region; an empty third changes nothing. |
| ForkingMachine.Forking.ActivateForkRewind | src/machine.h:463-491 | The head of the middle leaves rewritten to its fork, the table records it, the rest returns to the input. |
| ForkingMachine.Forking.ApplyEventToNormal | src/machine.h:515-610 | Refines the reference turn in the normal state. |
| ForkingMachine.Forking.ApplyEventToSuspect | src/machine.h:617-689 | Refines the reference turn in the suspect state. |
| ForkingMachine.Forking.ApplyEventToVerifyState | src/machine.h:704-757 | Refines the reference turn in the verify state. |
| ForkingMachine.Forking.TransitionByKey | src/machine.h:771-835 | Refines the reference turn on a key event in every state of the invariant, the re-press of a forked key included. |
| ForkingMachine.Forking.RunLoop | src/machine.h:912-936 | The loop over the fields equals the reference run, and takes no more turns than the bound unless it spins. |
| ForkingMachine.Forking.AcceptEvent | src/machine.h:1250-1296 | One call equals the step of the run model, keeps the invariant of all runs and returns the next timer. Every code below 256 is taken in, or skipped if a press of a forked key; of a code above nothing is kept, and the timer is 0. |
| ForkingMachine.Forking.AcceptTime | src/machine.h:1299-1315 | Likewise for a time; an earlier time than the last one heard changes nothing. |
| ForkingMachine.Forking.AcceptConfirmation | src/machine.h:1324-1329 | Likewise for a forced confirmation. |
| ForkTable.Save | windows/sys/kbfiltr.cpp:497-515 | Writes the packed words of the lowest-numbered forked keys, at most 16. |
| ForkTable.SavesLowestForks | windows/sys/kbfiltr.cpp:497-515 | The words are those of the lowest forked keys, ascending, at most 16 and none left out before; each is the key in the upper 16 bits and its fork in the lower. |
| ForkTable.Restore | windows/sys/kbfiltr.cpp:440-454 | Writes each word's fork at its key, later words winning, and skips keys beyond the table. |
| ForkTable.RestoreOverlays | windows/sys/kbfiltr.cpp:440-515 | Restoring a saved table into any table changes exactly the saved table's 16 lowest forked keys. |
| ForkTable.SaveRestoreRoundTrip | windows/sys/kbfiltr.cpp:440-515 | Into an empty table the round trip is the identity iff at most 16 keys fork. |

## Left out

- Platform glue: X server hooks, libinput services, Windows driver calls, registry access, timers, the console program.
- Logging, debug output, the archive of last events and its dump.
- Locks, threads and re-entrant calls during the flush: calls are atomic and sequential, and the early return of `accept_time` is modelled without its nested lock.
- Object lifetime and allocation in the ring: slots are values, so `clear` and the destructor have nothing to destroy. The checked access `at` is not modelled.
- Clock wrap-around, and reconfiguration during a run: a machine takes the settings as they are when it is made. The other switches of `configure_global` and `configure_key`.
- An answer of `ignore_event` that changes while an event is queued.
- Configuration.ForkConfiguration.constructor: stated for a table of 256 keys; the source clears 256 entries whatever `MAX_KEYCODE` is, so with the 512 of the Windows driver the upper half is not covered (`ForkTable` uses 512).
- The scancode prefix bits that the Windows environment folds into a key.
- ForkingMachine.Forking.AcceptEvent: requires a free slot for an event it stores and a code other than `MAX_KEYCODE`; what a push into a full ring does is stated by `Ring.PushBack` and `ThreeQueues.Push`, and writing past a table is not modelled.
- ForkingMachine.Forking.AcceptTime: the early return calls `next_decision_time` with the lock held; locks are not modelled, so it is an ordinary return.
- CircularBuffer.Ring.AssignInto: requires that the items fit a ring that does not overwrite, as they do for its callers, `reserve` and the copy constructor; a second push into an overfull ring is not modelled.
- ForkTable.Restore: requires that no stored word names the key `MAX_KEYCODE`, which would be written past the table.
- Holding.ConfirmationSettlesEverything: presses decided by force have no counterpart in the tick-free reference, so `DecisionsAreForetold` is stated for runs without confirmations; `DecisionsAfterConfirmation` starts it afresh after each unfrozen one, and a confirmation cut short by freezing has no such theorem.
- History.DecisionsAreHistory: presses decided by a confirmation are not covered; `ConfirmationForksTheUndecided` states them.
- History.PressOnIdle: if forks are not considered, the code a release was sent with does not show whether its key was let through before, so the two directions leave that case open; the exact condition is `Opens`, used by `SentFromPast`.
- Refinement.NoDoublePressNeverSpins: one direction only, since a re-press can also be decided before it matters; the exact condition is `StuckExactlyWhenRepressed`.
- Admission.RunsAgreeIffTheySkipAlike: when two typed events are identical in key, time and kind, skipping the one or the other leaves the same events, so only the kept events are compared then.
