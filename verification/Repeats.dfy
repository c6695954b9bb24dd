/** The cooldown alone does not make alerts unique: a write whose outcome is ambiguous is repeated at once. */
module Repeats {
  import opened Cdr
  import opened Rules
  import opened Windows
  import opened Redis
  import opened Pipeline
  import opened CleanRun
  import CommitSafety

  /** The velocity window once this record has been counted. */
  function CountedStore(c: Config, s: State, rec: Record): Store {
    SlideKey(s.store, VelocityKey(rec.caller), rec.id, rec.Ms(), c.velocityWindowMs, s.now)
  }

  function VelocityOnce(c: Config, s: State, rec: Record): Option<real> {
    VelocityVerdict(c.velocityThreshold, |MembersIn(CountedStore(c, s, rec)[VelocityKey(rec.caller)].value)|)
  }

  /** Handling the record now would raise a velocity alert. */
  predicate WouldAlert(c: Config, s: State, rec: Record) {
    && OnMessage(c, s.part.proc, Parsed(rec)) && s.part.proc.pc == SeenCheck
    && !Exists(s.store, SeenKey(rec.id), s.now) && !Exists(s.store, AlertedKey(Velocity, rec.caller), s.now)
    && VelocityOnce(c, s, rec).Some?
  }

  /** Nothing but the velocity window has changed. */
  ghost predicate OnlyCounted(s: State, s': State) {
    && s'.now == s.now
    && forall key: Key | !key.VelocityKey? :: Exists(s'.store, key, s.now) <==> Exists(s.store, key, s.now)
  }

  lemma CountTriggers(c: Config, s: State, rec: Record)
    requires OnMessage(c, s.part.proc, Parsed(rec)) && s.part.proc.pc == Count && VelocityOnce(c, s, rec).Some?
    ensures var s' := Step(c, s, SMOOTH);
            && s'.store == CountedStore(c, s, rec) && OnlyCounted(s, s')
            && s'.part == s.part.(proc := s.part.proc.(pc := Guard(Velocity), score := VelocityOnce(c, s, rec).value))
  {
    StepOnRecord(c, s, rec);
    assert Effect(c, s, rec) == s.(store := CountedStore(c, s, rec));
  }

  lemma GuardPasses(c: Config, s: State, rec: Record)
    requires OnMessage(c, s.part.proc, Parsed(rec)) && s.part.proc.pc == Guard(Velocity)
    requires !Exists(s.store, AlertedKey(Velocity, rec.caller), s.now)
    ensures Step(c, s, SMOOTH) == Goto(s, Emit(Velocity))
  {
    StepOnRecord(c, s, rec);
    assert Effect(c, s, rec) == s;
  }

  lemma SeenPasses(c: Config, s: State, rec: Record)
    requires WouldAlert(c, s, rec)
    ensures Step(c, s, SMOOTH) == Goto(s, Count)
  {
    StepOnRecord(c, s, rec);
    assert Effect(c, s, rec) == s;
  }

  lemma ReachesEmit(c: Config, s0: State, before: seq<Event>, s: State, rec: Record)
      returns (events: seq<Event>, s': State)
    requires s == Run(c, s0, before) && WouldAlert(c, s, rec)
    ensures s' == Run(c, s0, events) && s'.store == CountedStore(c, s, rec) && OnlyCounted(s, s')
    ensures s'.part == s.part.(proc := s.part.proc.(pc := Emit(Velocity), score := VelocityOnce(c, s, rec).value))
  {
    SeenPasses(c, s, rec);
    events, s' := CommitSafety.Take(c, s0, before, s, SMOOTH);
    CountTriggers(c, s', rec);
    events, s' := CommitSafety.Take(c, s0, events, s', SMOOTH);
    GuardPasses(c, s', rec);
    events, s' := CommitSafety.Take(c, s0, events, s', SMOOTH);
  }

  lemma EmitTimesOut(c: Config, s: State, rec: Record)
    requires OnMessage(c, s.part.proc, Parsed(rec)) && s.part.proc.pc == Emit(Velocity) && !s.part.proc.cancelled
    ensures var s' := Step(c, s, Op(0, false, FailAfter));
            && s'.now == s.now && s'.store == s.store
            && s'.part.alerts == s.part.alerts + [Emission(AlertFor(rec, Velocity, s.part.proc.score), s.now)]
            && s'.part.proc == s.part.proc.(pc := Backoff, cause := Emit(Velocity))
  {
    assert Arrive(s, Op(0, false, FailAfter)) == s;
  }

  /** Counting the record a second time changes nothing, so the rule triggers again with the same score. */
  lemma WouldAlertAgain(c: Config, s: State, s': State, rec: Record)
    requires WouldAlert(c, s, rec) && c.velocityWindowMs > 0
    requires s'.store == CountedStore(c, s, rec) && OnlyCounted(s, s')
    requires OnMessage(c, s'.part.proc, Parsed(rec)) && s'.part.proc.pc == SeenCheck
    ensures WouldAlert(c, s', rec) && VelocityOnce(c, s', rec) == VelocityOnce(c, s, rec)
  {
    SlideTwice(ZSet(s.store, VelocityKey(rec.caller), s.now), rec.id, rec.Ms(), c.velocityWindowMs);
  }

  /** The first copy, and the pause after it. */
  lemma TimesOutOnce(c: Config, s0: State, before: seq<Event>, s: State, rec: Record)
      returns (events: seq<Event>, s': State)
    requires s == Run(c, s0, before) && WouldAlert(c, s, rec) && !s.part.proc.cancelled
    requires s.part.proc.attempt < c.maxAttempts
    ensures s' == Run(c, s0, events) && s'.store == CountedStore(c, s, rec) && OnlyCounted(s, s')
    ensures s'.part.alerts == s.part.alerts + [Emission(AlertFor(rec, Velocity, VelocityOnce(c, s, rec).value), s.now)]
    ensures OnMessage(c, s'.part.proc, Parsed(rec)) && s'.part.proc.pc == SeenCheck
  {
    events, s' := ReachesEmit(c, s0, before, s, rec);
    EmitTimesOut(c, s', rec);
    events, s' := CommitSafety.Take(c, s0, events, s', Op(0, false, FailAfter));
    CommitSafety.PauseEnds(c, s');
    events, s' := CommitSafety.Take(c, s0, events, s', Op(0, false, Ok));
  }

  /** From every reachable state in which a record is about to raise a velocity alert, and that leaves another attempt,
      a single timeout puts two copies of the alert into the topic at one instant, where the cooldown alone would
      allow one. */
  lemma AnAlertCanRepeat(c: Config, now: int, before: seq<Event>, rec: Record) returns (events: seq<Event>)
    requires var s := Run(c, Init(now), before);
             WouldAlert(c, s, rec) && !s.part.proc.cancelled && s.part.proc.attempt < c.maxAttempts
    requires c.velocityWindowMs > 0
    ensures var s := Run(c, Init(now), before);
            var e := Emission(AlertFor(rec, Velocity, VelocityOnce(c, s, rec).value), s.now);
            Run(c, Init(now), events).part.alerts == s.part.alerts + [e, e]
  {
    var s := Run(c, Init(now), before);
    var at;
    events, at := TimesOutOnce(c, Init(now), before, s, rec);
    WouldAlertAgain(c, s, at, rec);
    events, at := ReachesEmit(c, Init(now), events, at, rec);
    EmitMoves(c, at, rec, Velocity);
    events, at := CommitSafety.Take(c, Init(now), events, at, SMOOTH);
  }
}
