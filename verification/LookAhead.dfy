/** The reference definition: what comes out of a sequence of events, found by looking ahead from
    each suspicious press. There is no middle region here, no rewinding and no loop. */
module LookAhead {
  import opened Configuration
  import opened Automaton

  /** What ends a wait when the events have run out: the clock (0 is "no time known"), or force. */
  datatype Patience = Patience(now: Time, force: bool)
  {
    predicate Expires(decision: Time) { force || (now != 0 && now >= decision) }
  }

  const FOREVER := Patience(0, false)

  /** Events sent, what is then committed, events still held, and whether a stuttering press was met. */
  datatype Outcome = Outcome(sent: seq<Event>, core: Core, held: seq<Event>, stuck: bool)

  function Outlook(c: Config, core: Core, g: Guess, es: seq<Event>): (v: Verdict)
    requires !g.Normal?
    ensures v.Waiting? ==> !v.guess.Normal? && v.guess.key == g.key && v.guess.since == g.since
    decreases |es|
  {
    if es == [] then Waiting(g)
    else
      match Examine(c, core, g, es[0])
      case Waiting(g') => Outlook(c, core, g', es[1..])
      case v => v
  }

  /** The verdict on the suspicious press es[0], given all that follows it. */
  function Foresee(c: Config, core: Core, es: seq<Event>): Verdict
    requires es != []
  {
    Outlook(c, core, Opening(c, es[0]), es[1..])
  }

  function Prepend(before: seq<Event>, o: Outcome): Outcome {
    o.(sent := before + o.sent)
  }

  function Settle(c: Config, p: Patience, core: Core, es: seq<Event>): Outcome
    decreases |es|
  {
    if es == [] then Outcome([], core, [], false)
    else if Suspicious(c, core, es[0]) then
      var v := Foresee(c, core, es);
      if v.Stutter? then Outcome([], core, es, true)
      else if v.Waiting? && !p.Expires(v.guess.decision) then Outcome([], core, es, false)
      else
        var (sent, after) := Sentence(c, core, es[0], if v.Waiting? then Fork else v);
        Prepend([sent], Settle(c, p, after, es[1..]))
    else
      var (sent, after) := Passage(c, core, es[0]);
      Prepend([sent], Settle(c, p, after, es[1..]))
  }

  // ---- Splitting the events ----

  lemma {:induction false} OutlookSplits(c: Config, core: Core, g: Guess, xs: seq<Event>, ys: seq<Event>)
    requires !g.Normal?
    ensures Outlook(c, core, g, xs + ys) ==
            match Outlook(c, core, g, xs)
            case Waiting(g') => Outlook(c, core, g', ys)
            case v => v
    decreases |xs|
  {
    if xs == [] {
      assert xs + ys == ys;
    } else {
      assert (xs + ys)[1..] == xs[1..] + ys;
      match Examine(c, core, g, xs[0]) {
        case Waiting(g') => OutlookSplits(c, core, g', xs[1..], ys);
        case _ =>
      }
    }
  }

  /** Settling in two goes is settling in one, when the first go has no deadline. */
  lemma {:induction false} SettleSplits(c: Config, p: Patience, core: Core, xs: seq<Event>, ys: seq<Event>)
    ensures var o := Settle(c, FOREVER, core, xs);
            Settle(c, p, core, xs + ys) == Prepend(o.sent, Settle(c, p, o.core, o.held + ys))
    decreases |xs|
  {
    var o := Settle(c, FOREVER, core, xs);
    if xs == [] {
      assert xs + ys == ys == o.held + ys;
    } else {
      assert (xs + ys)[1..] == xs[1..] + ys;
      if Suspicious(c, core, xs[0]) {
        OutlookSplits(c, core, Opening(c, xs[0]), xs[1..], ys);
        var v := Foresee(c, core, xs);
        if !v.Stutter? && !v.Waiting? {
          var (sent, after) := Sentence(c, core, xs[0], v);
          SettleSplits(c, p, after, xs[1..], ys);
          PrependTwice([sent], Settle(c, FOREVER, after, xs[1..]).sent,
                       Settle(c, p, o.core, o.held + ys));
        } else {
          assert o.sent == [];
        }
      } else {
        var (sent, after) := Passage(c, core, xs[0]);
        SettleSplits(c, p, after, xs[1..], ys);
        PrependTwice([sent], Settle(c, FOREVER, after, xs[1..]).sent,
                     Settle(c, p, o.core, o.held + ys));
      }
    }
  }

  lemma PrependTwice(a: seq<Event>, b: seq<Event>, o: Outcome)
    ensures Prepend(a, Prepend(b, o)) == Prepend(a + b, o)
  {
    assert a + (b + o.sent) == (a + b) + o.sent;
  }

  // ---- Conservation ----

  /** `out` is `es` with at most the keycodes changed. */
  ghost predicate SameButCodes(out: seq<Event>, es: seq<Event>) {
    |out| == |es| && forall i :: 0 <= i < |es| ==> out[i] == es[i].(code := out[i].code)
  }

  lemma {:induction false} SettleConserves(c: Config, p: Patience, core: Core, es: seq<Event>)
    ensures var o := Settle(c, p, core, es);
            && |o.sent| <= |es|
            && SameButCodes(o.sent, es[..|o.sent|])
            && o.held == es[|o.sent|..]
    decreases |es|
  {
    if es != [] {
      var o := Settle(c, p, core, es);
      if o.sent != [] {
        var after := if Suspicious(c, core, es[0])
          then Sentence(c, core, es[0], if Foresee(c, core, es).Waiting? then Fork else Foresee(c, core, es)).1
          else Passage(c, core, es[0]).1;
        SettleConserves(c, p, after, es[1..]);
        var rest := Settle(c, p, after, es[1..]);
        assert o.sent[1..] == rest.sent;
        assert es[1..][..|rest.sent|] == es[..|o.sent|][1..];
      }
    }
  }

  // ---- Each event in its turn ----

  /** A press left undecided to the end goes out as its fork, if it goes out at all. */
  function Forced(v: Verdict): Verdict { if v.Waiting? then Fork else v }

  /** What es[0] is sent as, and what is committed after it. */
  function InTurn(c: Config, core: Core, es: seq<Event>): (Event, Core)
    requires es != []
  {
    if Suspicious(c, core, es[0]) then Sentence(c, core, es[0], Forced(Foresee(c, core, es)))
    else Passage(c, core, es[0])
  }

  /** What is committed when it is the turn of es[i]. */
  function CoreBefore(c: Config, core: Core, es: seq<Event>, i: nat): Core
    requires i <= |es|
    decreases i
  {
    if i == 0 then core else CoreBefore(c, InTurn(c, core, es).1, es[1..], i - 1)
  }

  /** Every event sent is sent as its own turn has it, whatever the position. */
  lemma {:induction false} SettleInTurn(c: Config, p: Patience, core: Core, es: seq<Event>, i: nat)
    requires i < |Settle(c, p, core, es).sent| && i < |es|
    ensures var before := CoreBefore(c, core, es, i);
      && Settle(c, p, core, es).sent[i] == InTurn(c, before, es[i..]).0
      && (Suspicious(c, before, es[i]) ==> !Foresee(c, before, es[i..]).Stutter?)
    decreases i
  {
    if i == 0 {
      assert es[0..] == es;
    } else {
      SettleInTurn(c, p, InTurn(c, core, es).1, es[1..], i - 1);
      assert es[1..][i - 1..] == es[i..];
    }
  }

  // ---- The verdict in closed form ----

  /** After its press at `j`, the key was released before `i`. */
  ghost predicate LetGo(es: seq<Event>, j: nat, i: nat)
    requires j < |es| && i <= |es|
  {
    exists r :: j < r < i && es[r].Releases(es[j].key)
  }

  /** Event `i` becomes the verifier: a press of another key when every earlier verifier is up again. */
  ghost predicate Adopted(k: Key, es: seq<Event>, i: nat)
    requires i < |es|
    decreases i
  {
    && es[i].kind.Press? && es[i].key != k
    && forall j: nat :: j < i && Adopted(k, es, j) ==> LetGo(es, j, i)
  }

  /** No verifier is down just before event `i`. */
  ghost predicate Unverified(k: Key, es: seq<Event>, i: nat)
    requires i <= |es|
  {
    forall j: nat :: j < i && Adopted(k, es, j) ==> LetGo(es, j, i)
  }

  /** The running decision time before event `i`: the least of the suspect's own bound and of the
      decision time of each verifier adopted so far. */
  ghost function DecisionAt(c: Config, k: Key, since: Time, es: seq<Event>, i: nat): Time
    requires i <= |es|
  {
    if i == 0 then since + c.IntervalOf(k, NO_KEY)
    else
      var before := DecisionAt(c, k, since, es, i - 1);
      if Adopted(k, es, i - 1) then
        var sooner := c.VerifierDecision(k, since, es[i - 1].key, es[i - 1].time);
        if sooner < before then sooner else before
      else before
  }

  /** Event `i` makes the key a modifier: it is late enough, or it re-presses a key already forked. */
  ghost predicate Triggers(c: Config, core: Core, k: Key, since: Time, es: seq<Event>, i: nat)
    requires i < |es|
  {
    (es[i].kind.Press? && Forked(core, es[i].key)) || es[i].time >= DecisionAt(c, k, since, es, i)
  }

  ghost predicate Ends(c: Config, core: Core, k: Key, since: Time, es: seq<Event>, i: nat)
    requires i < |es|
  {
    || Triggers(c, core, k, since, es, i)
    || es[i].Releases(k)
    || (es[i].Presses(k) && Unverified(k, es, i))
  }

  ghost function VerdictAt(c: Config, core: Core, k: Key, since: Time, es: seq<Event>, i: nat): Verdict
    requires i < |es|
  {
    if Triggers(c, core, k, since, es, i) then Fork
    else if es[i].kind.Release? then Plain
    else if c.repeatable[k] then SelfPlain
    else Stutter
  }

  /** What is guessed after `i` events: the verifier is the one adopted press not yet let go. */
  ghost predicate GuessAt(c: Config, k: Key, since: Time, es: seq<Event>, i: nat, g: Guess)
    requires i <= |es|
  {
    && !g.Normal? && g.key == k && g.since == since
    && g.decision == DecisionAt(c, k, since, es, i)
    && (g.Suspect? ==> Unverified(k, es, i))
    && (g.Verify? ==> exists v: nat :: VerifierAt(k, es, v, i) && es[v].key == g.verifier)
  }

  ghost predicate VerifierAt(k: Key, es: seq<Event>, v: nat, i: nat)
    requires i <= |es|
  {
    && v < i && Adopted(k, es, v) && !LetGo(es, v, i)
    && forall j: nat :: j < i && j != v && Adopted(k, es, j) ==> LetGo(es, j, i)
  }

  lemma LetGoOneMore(es: seq<Event>, j: nat, i: nat)
    requires j < i < |es|
    ensures LetGo(es, j, i + 1) <==> LetGo(es, j, i) || es[i].Releases(es[j].key)
  {
    if LetGo(es, j, i) {
      var r :| j < r < i && es[r].Releases(es[j].key);
      assert j < r < i + 1;
    }
  }

  /** One event that does not end the guess moves the closed form as Examine moves the guess. */
  lemma GuessAdvances(c: Config, core: Core, k: Key, since: Time, es: seq<Event>, i: nat, g: Guess)
    requires i < |es| && GuessAt(c, k, since, es, i, g)
    ensures if Ends(c, core, k, since, es, i)
            then Examine(c, core, g, es[i]) == VerdictAt(c, core, k, since, es, i)
            else Examine(c, core, g, es[i]).Waiting? &&
                 GuessAt(c, k, since, es, i + 1, Examine(c, core, g, es[i]).guess)
  {
    forall j: nat | j < i
      ensures LetGo(es, j, i + 1) <==> LetGo(es, j, i) || es[i].Releases(es[j].key)
    {
      LetGoOneMore(es, j, i);
    }
    assert !LetGo(es, i, i + 1);
    if g.Verify? {
      var v: nat :| VerifierAt(k, es, v, i) && es[v].key == g.verifier;
      assert !Unverified(k, es, i) && !Adopted(k, es, i);
      assert !es[i].Releases(g.verifier) ==> VerifierAt(k, es, v, i + 1);
    } else if !Ends(c, core, k, since, es, i) && es[i].kind.Press? {
      assert Adopted(k, es, i);
      assert VerifierAt(k, es, i, i + 1);
    }
  }

  lemma {:induction false} GuessHolds(c: Config, core: Core, e: Event, es: seq<Event>, i: nat)
    requires i <= |es|
    requires forall j: nat :: j < i ==> !Ends(c, core, e.key, e.time, es, j)
    ensures var v := Outlook(c, core, Opening(c, e), es[..i]);
            v.Waiting? && GuessAt(c, e.key, e.time, es, i, v.guess)
  {
    if i == 0 {
      assert es[..i] == [];
    } else {
      GuessHolds(c, core, e, es, i - 1);
      assert es[..i] == es[..i-1] + [es[i-1]];
      OutlookSplits(c, core, Opening(c, e), es[..i-1], [es[i-1]]);
      GuessAdvances(c, core, e.key, e.time, es, i - 1, Outlook(c, core, Opening(c, e), es[..i-1]).guess);
    }
  }

  /** The verdict on a suspicious press is fixed by the first event that ends the guess, and by
      nothing before or after it; with no such event the press stays undecided. */
  lemma VerdictInClosedForm(c: Config, core: Core, e: Event, es: seq<Event>, i: nat)
    requires i <= |es|
    requires forall j: nat :: j < i ==> !Ends(c, core, e.key, e.time, es, j)
    ensures i < |es| && Ends(c, core, e.key, e.time, es, i) ==>
              Outlook(c, core, Opening(c, e), es) == VerdictAt(c, core, e.key, e.time, es, i)
    ensures i == |es| ==>
              var v := Outlook(c, core, Opening(c, e), es);
              v.Waiting? && GuessAt(c, e.key, e.time, es, i, v.guess)
  {
    GuessHolds(c, core, e, es, i);
    assert es == es[..i] + es[i..];
    OutlookSplits(c, core, Opening(c, e), es[..i], es[i..]);
    if i < |es| {
      GuessAdvances(c, core, e.key, e.time, es, i, Outlook(c, core, Opening(c, e), es[..i]).guess);
    }
  }

  ghost predicate EndsFirst(c: Config, core: Core, e: Event, es: seq<Event>, i: nat)
    requires i < |es|
  {
    && Ends(c, core, e.key, e.time, es, i)
    && forall j: nat :: j < i ==> !Ends(c, core, e.key, e.time, es, j)
  }

  ghost predicate EndsInTime(c: Config, core: Core, e: Event, es: seq<Event>, i: nat)
    requires i < |es|
  {
    EndsFirst(c, core, e, es, i) && !Triggers(c, core, e.key, e.time, es, i)
  }

  lemma {:induction false} EndsFirstOrNever(c: Config, core: Core, e: Event, es: seq<Event>, n: nat)
    requires n <= |es|
    ensures (exists i: nat :: i < n && EndsFirst(c, core, e, es, i)) ||
            (forall j: nat :: j < n ==> !Ends(c, core, e.key, e.time, es, j))
  {
    if n > 0 {
      EndsFirstOrNever(c, core, e, es, n - 1);
      if forall j: nat :: j < n - 1 ==> !Ends(c, core, e.key, e.time, es, j) {
        assert Ends(c, core, e.key, e.time, es, n - 1) ==> EndsFirst(c, core, e, es, n - 1);
      }
    }
  }

  /** The look-ahead rule, in full: forked iff the first ending event is late or re-presses a forked
      key, plain iff it is the key's own release in time, stuttering iff it is an early, unverified
      re-press of a key that may not repeat, undecided iff nothing ends the guess. */
  lemma LookAheadRule(c: Config, core: Core, e: Event, es: seq<Event>)
    ensures Outlook(c, core, Opening(c, e), es).Fork? <==>
              exists i: nat :: i < |es| && EndsFirst(c, core, e, es, i) && Triggers(c, core, e.key, e.time, es, i)
    ensures Outlook(c, core, Opening(c, e), es).Plain? <==>
              exists i: nat :: i < |es| && EndsInTime(c, core, e, es, i) && es[i].Releases(e.key)
    ensures Outlook(c, core, Opening(c, e), es).SelfPlain? <==>
              exists i: nat :: i < |es| && EndsInTime(c, core, e, es, i) && es[i].Presses(e.key) && c.repeatable[e.key]
    ensures Outlook(c, core, Opening(c, e), es).Stutter? <==>
              exists i: nat :: i < |es| && EndsInTime(c, core, e, es, i) && es[i].Presses(e.key) && !c.repeatable[e.key]
    ensures Outlook(c, core, Opening(c, e), es).Waiting? <==>
              forall i: nat :: i < |es| ==> !Ends(c, core, e.key, e.time, es, i)
  {
    EndsFirstOrNever(c, core, e, es, |es|);
    if i: nat :| i < |es| && EndsFirst(c, core, e, es, i) {
      VerdictInClosedForm(c, core, e, es, i);
      forall j: nat | j < |es| && EndsFirst(c, core, e, es, j)
        ensures j == i
      {
      }
    } else {
      VerdictInClosedForm(c, core, e, es, |es|);
    }
  }

  /** The decision time only tightens as events arrive, and is the least of its bounds: the
      suspect's own and that of each adopted verifier. */
  lemma DecisionTightens(c: Config, k: Key, since: Time, es: seq<Event>, i: nat, j: nat)
    requires i <= j <= |es|
    ensures DecisionAt(c, k, since, es, j) <= DecisionAt(c, k, since, es, i) <= since + c.IntervalOf(k, NO_KEY)
    ensures forall a: nat :: a < j && Adopted(k, es, a) ==>
              DecisionAt(c, k, since, es, j) <= c.VerifierDecision(k, since, es[a].key, es[a].time)
    ensures DecisionAt(c, k, since, es, j) == since + c.IntervalOf(k, NO_KEY) || BoundByVerifier(c, k, since, es, j)
    ensures (forall a :: 0 <= a < j ==> since <= es[a].time) ==> since <= DecisionAt(c, k, since, es, j)
  {
    DecisionNeverIncreases(c, k, since, es, i, j);
    DecisionNeverIncreases(c, k, since, es, 0, i);
    forall a: nat | a < j && Adopted(k, es, a)
      ensures DecisionAt(c, k, since, es, j) <= c.VerifierDecision(k, since, es[a].key, es[a].time)
    {
      DecisionNeverIncreases(c, k, since, es, a + 1, j);
    }
    DecisionIsSomeBound(c, k, since, es, j);
    if forall a :: 0 <= a < j ==> since <= es[a].time {
      DecisionFollowsPress(c, k, since, es, j);
    }
  }

  lemma {:induction false} DecisionNeverIncreases(c: Config, k: Key, since: Time, es: seq<Event>, i: nat, j: nat)
    requires i <= j <= |es|
    ensures DecisionAt(c, k, since, es, j) <= DecisionAt(c, k, since, es, i)
    decreases j
  {
    if i < j {
      DecisionNeverIncreases(c, k, since, es, i, j - 1);
    }
  }

  lemma {:induction false} DecisionIsSomeBound(c: Config, k: Key, since: Time, es: seq<Event>, j: nat)
    requires j <= |es|
    ensures DecisionAt(c, k, since, es, j) == since + c.IntervalOf(k, NO_KEY) || BoundByVerifier(c, k, since, es, j)
    decreases j
  {
    if j > 0 {
      DecisionIsSomeBound(c, k, since, es, j - 1);
      if DecisionAt(c, k, since, es, j) == DecisionAt(c, k, since, es, j - 1) {
        if BoundByVerifier(c, k, since, es, j - 1) {
          var a: nat :| a < j - 1 && Adopted(k, es, a) &&
            DecisionAt(c, k, since, es, j - 1) == c.VerifierDecision(k, since, es[a].key, es[a].time);
          assert a < j;
        }
      } else {
        assert Adopted(k, es, j - 1);
      }
    }
  }

  lemma {:induction false} DecisionFollowsPress(c: Config, k: Key, since: Time, es: seq<Event>, j: nat)
    requires j <= |es| && forall a :: 0 <= a < j ==> since <= es[a].time
    ensures since <= DecisionAt(c, k, since, es, j)
    decreases j
  {
    if j > 0 {
      DecisionFollowsPress(c, k, since, es, j - 1);
    }
  }

  /** The running decision time is that of some adopted verifier. */
  ghost predicate BoundByVerifier(c: Config, k: Key, since: Time, es: seq<Event>, j: nat)
    requires j <= |es|
  {
    exists a: nat ::
      a < j && Adopted(k, es, a) &&
      DecisionAt(c, k, since, es, j) == c.VerifierDecision(k, since, es[a].key, es[a].time)
  }
}
