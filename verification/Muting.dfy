/** What a live cooldown flag tells: in every run whatsoever, a rule is muted only where its alert on the subscriber was
    written, and flagged, less than a cooldown before. */
module Muting {
  import opened Cdr
  import opened Redis
  import opened Pipeline
  import opened AlertRate

  /** Emission j was of that rule on that subscriber, and its flag took effect afterwards. */
  predicate FlaggedFor(part: Part, j: nat, rule: Rule, caller: string) {
    && j < |part.alerts| && Concerns(part.alerts[j].alert, rule, caller)
    && j in part.hist.flagged && part.alerts[j].at <= part.hist.flagged[j]
  }

  /** A flag written at this time is live at that time. */
  predicate Live(c: Config, written: int, now: int) {
    written <= now && (c.cooldownMs != 0 ==> now < written + c.cooldownMs)
  }

  ghost predicate FlagBacked(c: Config, s: State, rule: Rule, caller: string) {
    var key := AlertedKey(rule, caller);
    key in s.store ==>
      exists j :: && FlaggedFor(s.part, j, rule, caller)
                  && s.store[key].deadline == if c.cooldownMs == 0 then Never else At(s.part.hist.flagged[j] + c.cooldownMs)
  }

  /** The flag that muted the rule on message i at this time was that of emission j. */
  predicate MutedBy(c: Config, part: Part, i: nat, rule: Rule, j: nat) {
    && i < |c.log| && c.log[i].Parsed? && FlaggedFor(part, j, rule, c.log[i].rec.caller)
    && (i, rule) in part.hist.muted && Live(c, part.hist.flagged[j], part.hist.muted[(i, rule)])
  }

  ghost predicate MuteBacked(c: Config, part: Part, i: nat, rule: Rule) {
    (i, rule) in part.hist.muted ==> exists j :: MutedBy(c, part, i, rule, j)
  }

  predicate InPast(s: State) {
    && (forall j | 0 <= j < |s.part.alerts| :: s.part.alerts[j].at <= s.now)
    && (forall j | j in s.part.hist.flagged :: j < |s.part.alerts| && s.part.hist.flagged[j] <= s.now)
  }

  ghost predicate Backed(c: Config, s: State) {
    && InPast(s)
    && (forall rule, caller :: FlagBacked(c, s, rule, caller))
    && (forall i, rule :: MuteBacked(c, s.part, i, rule))
  }

  /** The alert whose flag is about to be written is the last one, and has none yet. */
  predicate Pending(c: Config, s: State) {
    s.part.proc.pc.SetFlag? && OnRecord(c, s.part.proc) ==>
      && s.part.alerts != [] && |s.part.alerts| - 1 !in s.part.hist.flagged
      && Concerns(s.part.alerts[|s.part.alerts| - 1].alert, s.part.proc.pc.rule, c.log[s.part.proc.pos].rec.caller)
  }

  /** More alerts and more flags back no less. */
  lemma BackedStill(c: Config, s: State, s': State)
    requires Backed(c, s) && InPast(s') && s.part.alerts <= s'.part.alerts
    requires forall j | j in s.part.hist.flagged :: j in s'.part.hist.flagged && s'.part.hist.flagged[j] == s.part.hist.flagged[j]
    requires s'.part.hist.muted == s.part.hist.muted
    requires forall rule, caller | AlertedKey(rule, caller) in s'.store ::
               AlertedKey(rule, caller) in s.store && s'.store[AlertedKey(rule, caller)] == s.store[AlertedKey(rule, caller)]
    ensures Backed(c, s')
  {
    forall rule, caller ensures FlagBacked(c, s', rule, caller) {
      assert FlagBacked(c, s, rule, caller);
      if AlertedKey(rule, caller) in s'.store {
        var j :| FlaggedFor(s.part, j, rule, caller)
                 && s.store[AlertedKey(rule, caller)].deadline
                    == if c.cooldownMs == 0 then Never else At(s.part.hist.flagged[j] + c.cooldownMs);
        assert FlaggedFor(s'.part, j, rule, caller);
      }
    }
    forall i: nat, rule ensures MuteBacked(c, s'.part, i, rule) {
      assert MuteBacked(c, s.part, i, rule);
      if (i, rule) in s'.part.hist.muted {
        var j :| MutedBy(c, s.part, i, rule, j);
        assert MutedBy(c, s'.part, i, rule, j);
      }
    }
  }

  lemma OtherEffect(c: Config, s: State, rec: Record)
    requires !s.part.proc.pc.SetFlag? && !s.part.proc.pc.Emit?
    ensures Effect(c, s, rec).part == s.part && Effect(c, s, rec).now == s.now
    ensures forall rule, caller | AlertedKey(rule, caller) in Effect(c, s, rec).store ::
              AlertedKey(rule, caller) in s.store
              && Effect(c, s, rec).store[AlertedKey(rule, caller)] == s.store[AlertedKey(rule, caller)]
  {
  }

  lemma FlagEffect(c: Config, s: State, rec: Record)
    requires s.part.proc.pc.SetFlag? && s.part.alerts != []
    ensures var key, s' := AlertedKey(s.part.proc.pc.rule, rec.caller), Effect(c, s, rec);
            && s'.store == s.store[key := Entry(Flag, if c.cooldownMs == 0 then Never else At(s.now + c.cooldownMs))]
            && s'.now == s.now && s'.part.alerts == s.part.alerts && s'.part.hist.muted == s.part.hist.muted
            && s'.part.hist.flagged == s.part.hist.flagged[|s.part.alerts| - 1 := s.now]
  {
  }

  lemma FlagBacks(c: Config, s: State, rec: Record)
    requires Backed(c, s) && Pending(c, s) && s.part.proc.pc.SetFlag? && OnMessage(c, s.part.proc, Parsed(rec))
    ensures Backed(c, Effect(c, s, rec))
  {
    FlagEffect(c, s, rec);
    var last, s', own := |s.part.alerts| - 1, Effect(c, s, rec), AlertedKey(s.part.proc.pc.rule, rec.caller);
    var elsewhere := s'.(store := s'.store - {own});
    BackedStill(c, s, elsewhere);
    forall rule, caller ensures FlagBacked(c, s', rule, caller) {
      assert FlagBacked(c, elsewhere, rule, caller);
      if AlertedKey(rule, caller) == own {
        assert FlaggedFor(s'.part, last, rule, caller);
      }
    }
    forall i: nat, rule ensures MuteBacked(c, s'.part, i, rule) {
      assert MuteBacked(c, elsewhere.part, i, rule);
    }
  }

  lemma EmitEffect(c: Config, s: State, rec: Record)
    requires s.part.proc.pc.Emit?
    ensures var s' := Effect(c, s, rec);
            && s'.store == s.store && s'.now == s.now && s'.part.hist == s.part.hist
            && s'.part.alerts == s.part.alerts + [Emission(AlertFor(rec, s.part.proc.pc.rule, s.part.proc.score), s.now)]
  {
  }

  lemma EffectBacks(c: Config, s: State, rec: Record)
    requires Backed(c, s) && Pending(c, s) && OnMessage(c, s.part.proc, Parsed(rec))
    ensures Backed(c, Effect(c, s, rec))
  {
    var s' := Effect(c, s, rec);
    if s.part.proc.pc.SetFlag? {
      FlagBacks(c, s, rec);
    } else if s.part.proc.pc.Emit? {
      EmitEffect(c, s, rec);
      BackedStill(c, s, s');
    } else {
      OtherEffect(c, s, rec);
      BackedStill(c, s, s');
    }
  }

  /** A guard that finds a live flag finds the flag of an alert on its subscriber. */
  lemma MuteBacks(c: Config, s: State, rule: Rule)
    requires Backed(c, s) && OnRecord(c, s.part.proc)
    requires Exists(s.store, AlertedKey(rule, c.log[s.part.proc.pos].rec.caller), s.now)
    ensures Backed(c, Obey(s, Muted(rule)))
  {
    var i, s' := s.part.proc.pos, Obey(s, Muted(rule));
    var caller := c.log[i].rec.caller;
    assert s'.part.alerts == s.part.alerts && s'.part.hist.flagged == s.part.hist.flagged && s'.store == s.store;
    assert FlagBacked(c, s, rule, caller);
    var j :| FlaggedFor(s.part, j, rule, caller)
             && s.store[AlertedKey(rule, caller)].deadline
                == if c.cooldownMs == 0 then Never else At(s.part.hist.flagged[j] + c.cooldownMs);
    assert MutedBy(c, s'.part, i, rule, j);
    forall rule', caller' ensures FlagBacked(c, s', rule', caller') {
      FlagStillBacked(c, s, s', rule', caller');
    }
    forall k: nat, rule' ensures MuteBacked(c, s'.part, k, rule') {
      if !(k == i && rule' == rule) {
        MuteStillBacked(c, s.part, s'.part, k, rule');
      }
    }
  }

  lemma FlagStillBacked(c: Config, s: State, s': State, rule: Rule, caller: string)
    requires FlagBacked(c, s, rule, caller) && s'.store == s.store
    requires s'.part.alerts == s.part.alerts && s'.part.hist.flagged == s.part.hist.flagged
    ensures FlagBacked(c, s', rule, caller)
  {
    if AlertedKey(rule, caller) in s.store {
      var j :| FlaggedFor(s.part, j, rule, caller)
               && s.store[AlertedKey(rule, caller)].deadline
                  == if c.cooldownMs == 0 then Never else At(s.part.hist.flagged[j] + c.cooldownMs);
      assert FlaggedFor(s'.part, j, rule, caller);
    }
  }

  lemma MuteStillBacked(c: Config, part: Part, part': Part, i: nat, rule: Rule)
    requires MuteBacked(c, part, i, rule) && part'.alerts == part.alerts && part'.hist.flagged == part.hist.flagged
    requires (i, rule) in part'.hist.muted ==>
               (i, rule) in part.hist.muted && part'.hist.muted[(i, rule)] == part.hist.muted[(i, rule)]
    ensures MuteBacked(c, part', i, rule)
  {
    if (i, rule) in part'.hist.muted {
      var j :| MutedBy(c, part, i, rule, j);
      assert MutedBy(c, part', i, rule, j);
    }
  }

  lemma ObeyKeeps(s: State, d: Decision)
    requires !d.Muted?
    ensures var s' := Obey(s, d);
            && s'.now == s.now && s'.store == s.store && s'.part.alerts == s.part.alerts
            && s'.part.hist.flagged == s.part.hist.flagged && s'.part.hist.muted == s.part.hist.muted
  {
  }

  lemma ContinueBacks(c: Config, s: State, rec: Record)
    requires Backed(c, s) && OnMessage(c, s.part.proc, Parsed(rec)) && InHandle(s.part.proc.pc)
    ensures Backed(c, Continue(c, s, rec))
  {
    var d := Decide(c, s.store, s.now, s.part.proc, rec);
    DecisionsComeFrom(c, s.store, s.now, s.part.proc, rec);
    if d.Muted? {
      MuteBacks(c, s, d.rule);
    } else {
      ObeyKeeps(s, d);
      BackedStill(c, s, Obey(s, d));
    }
  }

  lemma FailBacks(c: Config, s: State)
    requires Backed(c, s)
    ensures Backed(c, Fail(s))
  {
    BackedStill(c, s, Fail(s));
  }

  lemma SkipBacks(c: Config, s: State, pc: PC)
    requires Backed(c, s)
    ensures Backed(c, Goto(s, pc))
  {
    BackedStill(c, s, Goto(s, pc));
  }

  lemma HandleBacks(c: Config, s: State, rec: Record, o: Outcome)
    requires Backed(c, s) && Pending(c, s) && OnMessage(c, s.part.proc, Parsed(rec)) && InHandle(s.part.proc.pc)
    ensures Backed(c, HandleStep(c, s, rec, o))
  {
    EffectBacks(c, s, rec);
    var e := Effect(c, s, rec);
    if o.Ok? {
      EffectShape(c, s, rec);
      ContinueBacks(c, e, rec);
    } else {
      FailBacks(c, s);
      FailBacks(c, e);
      SkipBacks(c, s, Tariff);
      SkipBacks(c, s, Mark);
    }
  }

  lemma ObeyPends(c: Config, s: State, d: Decision)
    requires d.Go? && d.pc.SetFlag? ==> Pending(c, Goto(s, d.pc))
    ensures Pending(c, Obey(s, d))
  {
  }

  lemma HandlePends(c: Config, s: State, rec: Record, o: Outcome)
    requires InPast(s) && OnMessage(c, s.part.proc, Parsed(rec)) && InHandle(s.part.proc.pc)
    ensures Pending(c, HandleStep(c, s, rec, o))
  {
    if o.Ok? {
      var e := Effect(c, s, rec);
      EffectShape(c, s, rec);
      DecisionsComeFrom(c, e.store, e.now, e.part.proc, rec);
      if s.part.proc.pc.Emit? {
        EmitEffect(c, s, rec);
      }
      ObeyPends(c, e, Decide(c, e.store, e.now, e.part.proc, rec));
    }
  }

  lemma OutsidePends(c: Config, s: State, o: Outcome)
    requires Pending(c, s) && !(InHandle(s.part.proc.pc) && OnRecord(c, s.part.proc))
    ensures Pending(c, Attempt(c, s, o))
  {
    OutsideHandle(c, s, o);
  }

  lemma AttemptBacks(c: Config, s: State, o: Outcome)
    requires Backed(c, s) && Pending(c, s)
    ensures Backed(c, Attempt(c, s, o)) && Pending(c, Attempt(c, s, o))
  {
    if InHandle(s.part.proc.pc) && OnRecord(c, s.part.proc) {
      HandleBacks(c, s, c.log[s.part.proc.pos].rec, o);
      HandlePends(c, s, c.log[s.part.proc.pos].rec, o);
      assert Attempt(c, s, o) == HandleStep(c, s, c.log[s.part.proc.pos].rec, o);
    } else {
      OutsidePends(c, s, o);
      OutsideHandle(c, s, o);
      BackedStill(c, s, Attempt(c, s, o));
    }
  }

  lemma StepBacks(c: Config, s: State, e: Event)
    requires Backed(c, s) && Pending(c, s)
    ensures Backed(c, Step(c, s, e)) && Pending(c, Step(c, s, e))
  {
    var a := Arrive(s, e);
    BackedStill(c, s, a);
    match e
    case Wait(_) =>
    case Crash(_) => BackedStill(c, s, Step(c, s, e));
    case Op(_, _, o) => AttemptBacks(c, a, o);
  }

  lemma {:induction false} RunBacks(c: Config, now: int, events: seq<Event>)
    ensures Backed(c, Run(c, Init(now), events)) && Pending(c, Run(c, Init(now), events))
  {
    if events != [] {
      RunBacks(c, now, events[..|events| - 1]);
      StepBacks(c, Run(c, Init(now), events[..|events| - 1]), events[|events| - 1]);
    }
  }

  /** In every run: where a rule was muted, one of its alerts on the subscriber had been written, its flag had been set
      after that, and the flag was less than a cooldown old. */
  lemma MutedOnlyWithinCooldown(c: Config, now: int, events: seq<Event>, i: nat, rule: Rule) returns (j: nat)
    requires (i, rule) in Run(c, Init(now), events).part.hist.muted
    ensures MutedBy(c, Run(c, Init(now), events).part, i, rule, j)
  {
    RunBacks(c, now, events);
    assert MuteBacked(c, Run(c, Init(now), events).part, i, rule);
    j :| MutedBy(c, Run(c, Init(now), events).part, i, rule, j);
  }
}
