/** Only premium destinations accrue: whatever fails and however often the process restarts, a call to any other number,
    one that no catalog entry begins among them, touches no spend window and raises no spend alert. */
module Destinations {
  import opened Cdr
  import opened Redis
  import opened Pipeline
  import opened Playground
  import TariffCatalog

  // ---- one record, without faults -------------------------------------------------------------------------

  lemma UnlistedIsNotPremium(c: Config, rec: Record)
    requires TariffCatalog.Unlisted(c.tariffs, rec.callee)
    ensures !c.TariffOf(rec).premium
  {
    TariffCatalog.UnlistedIsOrdinary(c.tariffs, rec.callee);
  }

  /** The engine leaves every spend window as it was and raises no spend alert. */
  lemma EngineChargesNothing(c: Config, maps: Maps, rec: Record)
    requires TariffCatalog.Unlisted(c.tariffs, rec.callee)
    ensures Score(c, maps, rec).maps.spendWin == maps.spendWin
    ensures forall a | a in Score(c, maps, rec).alerts :: a.rule != Irsf
  {
    UnlistedIsNotPremium(c, rec);
  }

  // ---- every run of the service ---------------------------------------------------------------------------

  /** The operations of the spend rule past the tariff. */
  predicate Spending(pc: PC) {
    pc.Accrue? || pc == Guard(Irsf) || pc == Emit(Irsf) || pc == SetFlag(Irsf)
  }

  predicate OnlyPremium(c: Config, proc: Proc) {
    Spending(proc.pc) && OnRecord(c, proc) ==> c.TariffOf(c.log[proc.pos].rec).premium
  }

  lemma DecideOnlyPremium(c: Config, store: Store, now: int, proc: Proc, rec: Record)
    requires InHandle(proc.pc)
    ensures var d := Decide(c, store, now, proc, rec);
            && (d.Priced? ==> c.TariffOf(rec).premium)
            && (d.Judgement? && d.rule == Irsf ==> proc.pc.Accrue?)
            && (d.Go? && Spending(d.pc) ==> Spending(proc.pc))
  {
  }

  lemma ObeyOnlyPremium(s: State, d: Decision)
    ensures Spending(Obey(s, d).part.proc.pc) ==>
              d.Priced? || (d.Judgement? && d.rule == Irsf) || (d.Go? && Spending(d.pc))
    ensures Obey(s, d).part.proc.pos == s.part.proc.pos
  {
  }

  lemma HandleOnlyPremium(c: Config, s: State, rec: Record, o: Outcome)
    requires InHandle(s.part.proc.pc) && OnMessage(c, s.part.proc, Parsed(rec)) && OnlyPremium(c, s.part.proc)
    ensures OnlyPremium(c, HandleStep(c, s, rec, o).part.proc)
  {
    if o.Ok? {
      var e := Effect(c, s, rec);
      EffectShape(c, s, rec);
      DecideOnlyPremium(c, e.store, e.now, e.part.proc, rec);
      ObeyOnlyPremium(e, Decide(c, e.store, e.now, e.part.proc, rec));
    } else {
      EffectShape(c, s, rec);
    }
  }

  lemma StepOnlyPremium(c: Config, s: State, e: Event)
    requires OnlyPremium(c, s.part.proc)
    ensures OnlyPremium(c, Step(c, s, e).part.proc)
  {
    if e.Op? {
      var a := Arrive(s, e);
      if InHandle(a.part.proc.pc) && OnRecord(c, a.part.proc) {
        HandleOnlyPremium(c, a, c.log[a.part.proc.pos].rec, e.outcome);
      } else {
        OutsideHandle(c, a, e.outcome);
      }
    }
  }

  lemma {:induction false} RunOnlyPremium(c: Config, now: int, events: seq<Event>)
    ensures OnlyPremium(c, Run(c, Init(now), events).part.proc)
  {
    if events != [] {
      RunOnlyPremium(c, now, events[..|events| - 1]);
      StepOnlyPremium(c, Run(c, Init(now), events[..|events| - 1]), events[|events| - 1]);
    }
  }

  /** Nothing the spend rule is about has changed. */
  ghost predicate SpendUntouched(s: State, s': State) {
    && (forall caller :: (SpendKey(caller) in s'.store <==> SpendKey(caller) in s.store)
                         && (SpendKey(caller) in s.store ==> s'.store[SpendKey(caller)] == s.store[SpendKey(caller)]))
    && (s'.part.alerts == s.part.alerts
        || exists e: Emission :: e.alert.rule != Irsf && s'.part.alerts == s.part.alerts + [e])
  }

  lemma EffectUntouched(c: Config, s: State, rec: Record)
    requires !Spending(s.part.proc.pc)
    ensures SpendUntouched(s, Effect(c, s, rec))
  {
    if s.part.proc.pc.Emit? {
      assert Effect(c, s, rec).part.alerts
             == s.part.alerts + [Emission(AlertFor(rec, s.part.proc.pc.rule, s.part.proc.score), s.now)];
    }
  }

  lemma UntouchedStill(s: State, t: State, s': State)
    requires SpendUntouched(s, t) && s'.store == t.store && s'.part.alerts == t.part.alerts
    ensures SpendUntouched(s, s')
  {
  }

  lemma HandleUntouched(c: Config, s: State, rec: Record, o: Outcome)
    requires InHandle(s.part.proc.pc) && !Spending(s.part.proc.pc)
    ensures SpendUntouched(s, HandleStep(c, s, rec, o))
  {
    var e := Effect(c, s, rec);
    EffectUntouched(c, s, rec);
    if o.Ok? {
      ObeyShape(e, Decide(c, e.store, e.now, e.part.proc, rec));
      EffectShape(c, s, rec);
      UntouchedStill(s, e, HandleStep(c, s, rec, o));
    } else if o.FailAfter? && !s.part.proc.pc.Cell? && !s.part.proc.pc.Tariff? {
      UntouchedStill(s, e, HandleStep(c, s, rec, o));
    }
  }

  lemma ArriveUntouched(s: State, a: State, s': State)
    requires a.store == s.store && a.part.alerts == s.part.alerts && SpendUntouched(a, s')
    ensures SpendUntouched(s, s')
  {
  }

  lemma AttemptUntouched(c: Config, s: State, o: Outcome)
    requires !(Spending(s.part.proc.pc) && OnRecord(c, s.part.proc))
    ensures SpendUntouched(s, Attempt(c, s, o))
  {
    if InHandle(s.part.proc.pc) && OnRecord(c, s.part.proc) {
      HandleUntouched(c, s, c.log[s.part.proc.pos].rec, o);
      assert Attempt(c, s, o) == HandleStep(c, s, c.log[s.part.proc.pos].rec, o);
    } else {
      OutsideHandle(c, s, o);
    }
  }

  /** In every run, no event that happens while the consumer is on a call no catalog entry begins changes a spend window
      or writes a spend alert. */
  lemma UnlistedCallsAreFree(c: Config, now: int, events: seq<Event>, e: Event)
    requires OnRecord(c, Run(c, Init(now), events).part.proc)
    requires TariffCatalog.Unlisted(c.tariffs, c.log[Run(c, Init(now), events).part.proc.pos].rec.callee)
    ensures SpendUntouched(Run(c, Init(now), events), Run(c, Init(now), events + [e]))
  {
    var s := Run(c, Init(now), events);
    RunOnlyPremium(c, now, events);
    UnlistedIsNotPremium(c, c.log[s.part.proc.pos].rec);
    RunOneMore(c, Init(now), events, e);
    if e.Op? {
      var a := Arrive(s, e);
      AttemptUntouched(c, a, e.outcome);
      ArriveUntouched(s, a, Step(c, s, e));
    }
  }
}
