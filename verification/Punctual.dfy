/** Why seen flags live for three windows: when records are asked about in time, no flag has expired yet, so the calm
    runs of ExactlyOnce need no assumption about expiry. */
module Punctual {
  import opened Cdr
  import opened Redis
  import opened Pipeline
  import opened ExactlyOnce

  /** A redelivered record id comes with the start time it came with before. */
  predicate SameIdSameTime(c: Config) {
    forall i, j | 0 <= i < |c.log| && 0 <= j < |c.log| && c.log[i].Parsed? && c.log[j].Parsed?
                  && c.log[i].rec.id == c.log[j].rec.id :: c.log[i].rec.Ms() == c.log[j].rec.Ms()
  }

  /** Like Calm, but in place of unexpired seen flags it asks that the question whether a record was seen comes in time. */
  ghost predicate Prompt(c: Config, s: State, e: Event, early: int, late: int) {
    if e.Op? && s.part.proc.pc.SeenCheck?
    then OnRecord(c, s.part.proc) ==> Timely(Arrive(s, e).now, c.log[s.part.proc.pos].rec.Ms(), early, late)
    else Calm(c, s, e, early, late)
  }

  ghost predicate PromptRun(c: Config, s: State, events: seq<Event>, early: int, late: int) {
    events != [] ==>
      var n := |events| - 1;
      PromptRun(c, s, events[..n], early, late) && Prompt(c, Run(c, s, events[..n]), events[n], early, late)
  }

  /** The flag of a record was set after the earliest moment at which the record may be handled. */
  predicate FlagLasts(c: Config, store: Store, i: nat, early: int)
    requires i < |c.log| && c.log[i].Parsed?
  {
    var key := SeenKey(c.log[i].rec.id);
    key in store && store[key].deadline.At? ==> store[key].deadline.ms >= c.log[i].rec.Ms() - early + c.SeenTtlMs()
  }

  predicate FlagsLast(c: Config, store: Store, early: int) {
    forall i | 0 <= i < |c.log| && c.log[i].Parsed? :: FlagLasts(c, store, i, early)
  }

  predicate Begun(c: Config, s: State, early: int) {
    InHandle(s.part.proc.pc) && !s.part.proc.pc.SeenCheck? && OnRecord(c, s.part.proc) ==>
      s.now >= c.log[s.part.proc.pos].rec.Ms() - early
  }

  lemma WrittenFlagsLast(c: Config, s: State, i: nat, early: int)
    requires SameIdSameTime(c) && FlagsLast(c, s.store, early)
    requires i < |c.log| && c.log[i].Parsed? && s.now >= c.log[i].rec.Ms() - early
    ensures FlagsLast(c, Written(c, s.part.proc, s.store, s.now, c.log[i].rec), early)
  {
    var store' := Written(c, s.part.proc, s.store, s.now, c.log[i].rec);
    forall j | 0 <= j < |c.log| && c.log[j].Parsed? ensures FlagLasts(c, store', j, early) {
      assert FlagLasts(c, s.store, j, early);
    }
  }

  lemma HandleStore(c: Config, s: State, rec: Record, o: Outcome)
    ensures HandleStep(c, s, rec, o).now == s.now
    ensures HandleStep(c, s, rec, o).store in {s.store, Written(c, s.part.proc, s.store, s.now, rec)}
  {
  }

  lemma HandleKeepsFlags(c: Config, s: State, o: Outcome, early: int)
    requires SameIdSameTime(c) && FlagsLast(c, s.store, early) && Begun(c, s, early)
    requires InHandle(s.part.proc.pc) && OnRecord(c, s.part.proc)
    requires s.part.proc.pc.SeenCheck? ==> s.now >= c.log[s.part.proc.pos].rec.Ms() - early
    ensures var s' := HandleStep(c, s, c.log[s.part.proc.pos].rec, o); FlagsLast(c, s'.store, early) && Begun(c, s', early)
  {
    var i := s.part.proc.pos;
    HandleStore(c, s, c.log[i].rec, o);
    WrittenFlagsLast(c, s, i, early);
    HandleShape(c, s, c.log[i].rec, o);
  }

  lemma AttemptKeepsFlags(c: Config, s: State, o: Outcome, early: int)
    requires SameIdSameTime(c) && FlagsLast(c, s.store, early) && Begun(c, s, early)
    requires s.part.proc.pc.SeenCheck? && OnRecord(c, s.part.proc) ==> s.now >= c.log[s.part.proc.pos].rec.Ms() - early
    ensures var s' := Attempt(c, s, o); FlagsLast(c, s'.store, early) && Begun(c, s', early)
  {
    if InHandle(s.part.proc.pc) && OnRecord(c, s.part.proc) {
      HandleKeepsFlags(c, s, o, early);
    } else {
      OutsideHandle(c, s, o);
    }
  }

  lemma StepKeepsFlags(c: Config, s: State, e: Event, early: int, late: int)
    requires SameIdSameTime(c) && FlagsLast(c, s.store, early) && Begun(c, s, early) && Prompt(c, s, e, early, late)
    ensures FlagsLast(c, Step(c, s, e).store, early) && Begun(c, Step(c, s, e), early)
  {
    if e.Op? {
      AttemptKeepsFlags(c, Arrive(s, e), e.outcome, early);
    }
  }

  lemma PromptIsCalm(c: Config, s: State, e: Event, early: int, late: int)
    requires FlagsLast(c, s.store, early) && Prompt(c, s, e, early, late)
    requires c.velocityWindowMs > 0 && early + late <= c.velocityWindowMs
    ensures Calm(c, s, e, early, late)
  {
    if e.Op? && s.part.proc.pc.SeenCheck? && OnRecord(c, s.part.proc) {
      assert FlagLasts(c, s.store, s.part.proc.pos, early);
    }
  }

  lemma {:induction false} PromptRunKeeps(c: Config, now: int, events: seq<Event>, early: int, late: int)
    requires SameIdSameTime(c) && Tuned(c, early, late) && PromptRun(c, Init(now), events, early, late)
    ensures CalmRun(c, Init(now), events, early, late)
    ensures FlagsLast(c, Run(c, Init(now), events).store, early) && Begun(c, Run(c, Init(now), events), early)
  {
    if events != [] {
      var n := |events| - 1;
      PromptRunKeeps(c, now, events[..n], early, late);
      PromptIsCalm(c, Run(c, Init(now), events[..n]), events[n], early, late);
      StepKeepsFlags(c, Run(c, Init(now), events[..n]), events[n], early, late);
    }
  }

  /** A run whose records are asked about in time is calm: seen flags outlive every redelivery that comes in time. */
  lemma PromptRunIsCalm(c: Config, now: int, events: seq<Event>, early: int, late: int)
    requires SameIdSameTime(c) && Tuned(c, early, late) && PromptRun(c, Init(now), events, early, late)
    ensures CalmRun(c, Init(now), events, early, late)
  {
    PromptRunKeeps(c, now, events, early, late);
  }
}
