/** What the invariant of ExactlyOnce says to someone who only sees the topics, the offsets and Redis. */
module EffectivelyOnce {
  import opened Cdr
  import opened Pipeline
  import opened Ideal
  import opened ExactlyOnce
  import Muting

  /** At every moment of a calm run the lasting state is that of handling some first k messages once each, plus the
      first state changes of the next one; k is at least the committed offset. */
  lemma StateIsExactlyOnce(c: Config, now: int, events: seq<Event>, early: int, late: int)
    requires Tuned(c, early, late) && CalmRun(c, Init(now), events, early, late)
    ensures var s := Run(c, Init(now), events);
            exists k, stage :: Progress(c, k, stage) && s.part.committed <= k && Lasting(s.store) == Expected(c, k, stage)
  {
    var k, stage := RunKeeps(c, now, events, early, late);
  }

  lemma Drained(c: Config, s: State, k: nat, stage: nat, early: int)
    requires World(c, s, k, stage, early) && s.part.committed == |c.log|
    ensures Lasting(s.store) == After(c, |c.log|)
  {
    assert k == |c.log| && stage == 0;
  }

  /** Once everything is committed, Redis holds exactly what handling each record once, in log order, gives. */
  lemma DrainedStateIsIdeal(c: Config, now: int, events: seq<Event>, early: int, late: int)
    requires Tuned(c, early, late) && CalmRun(c, Init(now), events, early, late)
    requires Run(c, Init(now), events).part.committed == |c.log|
    ensures Lasting(Run(c, Init(now), events).store) == After(c, |c.log|)
  {
    var k, stage := RunKeeps(c, now, events, early, late);
    Drained(c, Run(c, Init(now), events), k, stage, early);
  }

  /** Every alert in the topic, including every copy an ambiguous write left behind, is the verdict, with the score,
      that its rule reaches on the exactly-once state. */
  lemma EveryAlertIsAVerdict(c: Config, now: int, events: seq<Event>, early: int, late: int, j: nat)
    requires Tuned(c, early, late) && CalmRun(c, Init(now), events, early, late)
    requires j < |Run(c, Init(now), events).part.alerts|
    ensures Backed(c, Run(c, Init(now), events).part.alerts[j].alert)
  {
    var k, stage := RunKeeps(c, now, events, early, late);
  }

  /** For every record that completed and every rule that triggers on it, the alert was written, or the subscriber's
      cooldown flag for that rule was found live: then an alert of that rule on that subscriber had been written, and its
      flag set after that and less than a cooldown before. */
  lemma NoVerdictIsLost(c: Config, now: int, events: seq<Event>, early: int, late: int, i: nat, rule: Rule)
    requires Tuned(c, early, late) && CalmRun(c, Init(now), events, early, late)
    requires i in Run(c, Init(now), events).part.hist.handled || i < Run(c, Init(now), events).part.committed
    requires Fresh(c, i) && VerdictAt(c, i, rule).Some?
    ensures var part := Run(c, Init(now), events).part;
            || Emitted(part.alerts, AlertFor(c.log[i].rec, rule, VerdictAt(c, i, rule).value))
            || exists j :: Muting.MutedBy(c, part, i, rule, j)
  {
    var k, stage := RunKeeps(c, now, events, early, late);
    var part := Run(c, Init(now), events).part;
    assert Answered(c, part.alerts, part.hist.muted, i, rule);
    if (i, rule) in part.hist.muted {
      var j := Muting.MutedOnlyWithinCooldown(c, now, events, i, rule);
    }
  }
}
