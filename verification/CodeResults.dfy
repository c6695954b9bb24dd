/** What the theorems about runs say about the code: whatever its methods have done, across any number of restarts, is a
    run of the state machine, so its fields show what is proved of that run. */
module CodeResults {
  import opened Cdr
  import opened Pipeline
  import opened Ideal
  import opened Playground
  import opened CleanRun
  import opened PlaygroundRefinement
  import ExactlyOnce
  import EffectivelyOnce
  import CommitSafety
  import AlertRate
  import Consumer

  /** Run without faults, with each record handled at the moment it starts, the code has emitted exactly the playground's
      alerts whenever its loop is between two records. */
  lemma CodeAgreesWithPlayground(p: Consumer.Processor, recs: seq<Record>)
    requires p.Valid() && p.m.part.proc.pc == Fetch
    requires Comparable(p.c) && p.c.log == MessagesOf(recs) && WellBehaved(p.c, recs)
    requires OnTime.OnTimeRun(p.c, Init(p.start), p.trail.events)
    ensures p.committed == p.offset <= |recs| && AlertsOf(p.alerts) == ScoreAll(p.c, recs[..p.offset]).alerts
  {
    p.CodeIsARun();
    PlaygroundAgrees(p.c, recs, p.start, p.trail.events);
  }

  /** After a calm run that has committed everything, Redis holds what handling each record once gives. */
  lemma CodeIsEffectivelyOnce(p: Consumer.Processor, early: int, late: int)
    requires p.Valid() && p.committed == |p.c.log|
    requires ExactlyOnce.Tuned(p.c, early, late) && ExactlyOnce.CalmRun(p.c, Init(p.start), p.trail.events, early, late)
    ensures ExactlyOnce.Lasting(p.store) == After(p.c, |p.c.log|)
  {
    p.CodeIsARun();
    EffectivelyOnce.DrainedStateIsIdeal(p.c, p.start, p.trail.events, early, late);
  }

  /** The offset the code has committed is safe if it committed only while it had given up on nothing. */
  lemma CodeCommitsSafely(p: Consumer.Processor)
    requires p.Valid() && CommitSafety.CheckedRun(p.c, Init(p.start), p.trail.events)
    ensures CommitSafety.Safe(p.m.part) && p.committed == p.m.part.committed
  {
    p.CodeIsARun();
    CommitSafety.CheckedRunIsSafe(p.c, p.start, p.trail.events);
  }

  /** The code's alerts on one subscriber are a cooldown apart exactly if none was written behind one without its flag. */
  lemma CodeAlertsOncePerWindowIff(p: Consumer.Processor)
    requires p.Valid() && p.c.cooldownMs > 0
    ensures AlertRate.AllSpaced(p.alerts, p.c.cooldownMs) <==> AlertRate.GuardedRun(p.c, Init(p.start), p.trail.events)
  {
    p.CodeIsARun();
    AlertRate.OneAlertPerWindowIff(p.c, p.start, p.trail.events);
  }
}
