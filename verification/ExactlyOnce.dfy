/** Effectively-once processing: whatever fails and however often the consumer restarts, the lasting state is what
    handling each record once would give, every alert is a verdict on that state, and no verdict is lost. */
module ExactlyOnce {
  import opened Cdr
  import opened Rules
  import opened Redis
  import opened Pipeline
  import opened Ideal
  import Spend

  // ---- assumptions ----------------------------------------------------------------------------------------

  ghost predicate Metric(distance: (Point, Point) -> real) {
    forall p, q ::
      0.0 <= distance(p, q) == distance(q, p) <= HALF_CIRCLE_KM && (p == q ==> distance(p, q) == 0.0)
  }

  /** The windows outlast the time by which records may be early or late, and so does the last location. */
  ghost predicate Tuned(c: Config, early: int, late: int) {
    && c.velocityWindowMs > 0 && c.irsfWindowMs > 0
    && 0 <= early + late <= c.velocityWindowMs && early + late <= c.irsfWindowMs
    && Metric(c.distance)
    && (c.maxKmh > 0.0 ==> early + late < DAY_MS - 1 &&
                           HALF_CIRCLE_KM * 3_600_000.0 <= c.maxKmh * (DAY_MS - (early + late) - 1) as real)
    && forall i | 0 <= i < |c.log| && c.log[i].Parsed? :: c.log[i].rec.Ms() >= 0
  }

  /** Reference data is available, state is touched in time, no seen flag has expired when it is asked for, nothing
      is dead-lettered, and once a message has been given up on nothing more is fetched before the restart. */
  ghost predicate Calm(c: Config, s: State, e: Event, early: int, late: int) {
    e.Op? ==>
      var a, proc := Arrive(s, e), s.part.proc;
      match proc.pc
      case Fetch => e.outcome.Ok? ==> proc.holes == {}
      case DeadLetter => e.outcome.FailBefore?
      case Cell => e.outcome.Ok?
      case Tariff => e.outcome.Ok?
      case SeenCheck => OnRecord(c, proc) ==> Unexpired(s.store, SeenKey(c.log[proc.pos].rec.id), a.now)
      case Count => OnRecord(c, proc) ==> Timely(a.now, c.log[proc.pos].rec.Ms(), early, late)
      case LocGet => OnRecord(c, proc) ==> Timely(a.now, c.log[proc.pos].rec.Ms(), early, late)
      case LocSet => OnRecord(c, proc) ==> Timely(a.now, c.log[proc.pos].rec.Ms(), early, late)
      case Accrue => OnRecord(c, proc) ==> Timely(a.now, c.log[proc.pos].rec.Ms(), early, late)
      case _ => true
  }

  predicate Unexpired(store: Store, key: Key, now: int) {
    key in store ==> Alive(store[key], now)
  }

  ghost predicate CalmRun(c: Config, s: State, events: seq<Event>, early: int, late: int) {
    events != [] ==>
      var n := |events| - 1;
      CalmRun(c, s, events[..n], early, late) && Calm(c, Run(c, s, events[..n]), events[n], early, late)
  }

  // ---- the invariant --------------------------------------------------------------------------------------

  /** k messages are complete, and `stage` state changes of message k have taken effect. */
  predicate Progress(c: Config, k: nat, stage: nat) {
    k <= |c.log| && stage <= 3 && (stage > 0 ==> Fresh(c, k))
  }

  function Expected(c: Config, k: nat, stage: nat): Facts
    requires Progress(c, k, stage)
  {
    if stage == 0 then After(c, k) else Partly(c, After(c, k), c.log[k].rec, stage)
  }

  function Lasting(store: Store): Facts {
    map key | key in store && !key.AlertedKey? :: store[key].value
  }

  lemma LastingSet(store: Store, key: Key, e: Entry)
    ensures Lasting(store[key := e]) == if key.AlertedKey? then Lasting(store) else Lasting(store)[key := e.value]
  {
  }

  predicate TimedKey(c: Config, key: Key, e: Entry, now: int, early: int) {
    match key
    case VelocityKey(_) => Dated(e, c.velocityWindowMs, early) && e.deadline.ms <= now + 2 * c.velocityWindowMs
    case SpendKey(_) => Dated(e, c.irsfWindowMs, early) && e.deadline.ms <= now + 2 * c.irsfWindowMs
    case LastLocKey(_) =>
      && e.value.Place? && e.deadline.At?
      && e.value.location.atNs / NS_PER_MS <= e.deadline.ms - LAST_LOC_TTL_MS + early
    case SeenKey(_) => true
    case AlertedKey(_, _) => true
  }

  predicate Timed(c: Config, s: State, early: int) {
    forall key | key in s.store :: TimedKey(c, key, s.store[key], s.now, early)
  }

  /** The alert is the verdict on position i. */
  ghost predicate Backs(c: Config, i: nat, alert: Alert) {
    && Fresh(c, i)
    && VerdictAt(c, i, alert.rule).Some?
    && alert == AlertFor(c.log[i].rec, alert.rule, VerdictAt(c, i, alert.rule).value)
  }

  ghost predicate Backed(c: Config, alert: Alert) {
    exists i :: Backs(c, i, alert)
  }

  predicate Emitted(alerts: seq<Emission>, alert: Alert) {
    exists j | 0 <= j < |alerts| :: alerts[j].alert == alert
  }

  predicate Alerted(alerts: seq<Emission>, rule: Rule, caller: string) {
    exists j | 0 <= j < |alerts| :: alerts[j].alert.rule == rule && alerts[j].alert.caller == caller
  }

  /** If the rule triggers on position i, its alert was written or the cooldown flag was found live. */
  ghost predicate Answered(c: Config, alerts: seq<Emission>, muted: map<(nat, Rule), int>, i: nat, rule: Rule)
    requires i < |c.log| && c.log[i].Parsed?
  {
    match VerdictAt(c, i, rule)
    case None => true
    case Some(score) => Emitted(alerts, AlertFor(c.log[i].rec, rule, score)) || (i, rule) in muted
  }

  ghost predicate AllAnswered(c: Config, alerts: seq<Emission>, muted: map<(nat, Rule), int>, k: nat) {
    forall i, rule | 0 <= i < k && Fresh(c, i) :: Answered(c, alerts, muted, i, rule)
  }

  ghost predicate AllBacked(c: Config, alerts: seq<Emission>) {
    forall j | 0 <= j < |alerts| :: Backed(c, alerts[j].alert)
  }

  /** A cooldown flag is only ever set after an alert. */
  ghost predicate FlagsFollowAlerts(store: Store, alerts: seq<Emission>) {
    forall rule, caller | AlertedKey(rule, caller) in store :: Alerted(alerts, rule, caller)
  }

  predicate MutedByAlert(c: Config, alerts: seq<Emission>, i: nat, rule: Rule) {
    i < |c.log| && c.log[i].Parsed? && Alerted(alerts, rule, c.log[i].rec.caller)
  }

  ghost predicate MutedByAlerts(c: Config, alerts: seq<Emission>, muted: map<(nat, Rule), int>) {
    forall i, rule | (i, rule) in muted :: MutedByAlert(c, alerts, i, rule)
  }

  ghost predicate Reports(c: Config, store: Store, alerts: seq<Emission>, muted: map<(nat, Rule), int>, k: nat, stage: nat)
    requires Progress(c, k, stage)
  {
    && AllBacked(c, alerts)
    && AllAnswered(c, alerts, muted, k)
    && (stage >= 2 ==> Answered(c, alerts, muted, k, ImpossibleTravel))
    && FlagsFollowAlerts(store, alerts)
    && MutedByAlerts(c, alerts, muted)
  }

  /** Everything but the consumer's memory. */
  ghost predicate World(c: Config, s: State, k: nat, stage: nat, early: int) {
    && Progress(c, k, stage)
    && Lasting(s.store) == Expected(c, k, stage)
    && Timed(c, s, early)
    && s.part.committed <= k
    && (forall i | i in s.part.hist.handled :: i < k)
    && Reports(c, s.store, s.part.alerts, s.part.hist.muted, k, stage)
  }

  /** The least stage a consumer inside handle has reached. */
  function Reached(pc: PC): nat {
    match pc
    case Count => 0
    case Guard(rule) => if rule.Irsf? then 3 else 1
    case Emit(rule) => if rule.Irsf? then 3 else 1
    case SetFlag(rule) => if rule.Irsf? then 3 else 1
    case Tariff => 2
    case Accrue => 2
    case Mark => 3
    case _ => 1
  }

  predicate Inside(pc: PC) {
    !(pc.Fetch? || pc.SeenCheck? || pc.Backoff? || pc.DeadLetter? || pc.Commit?)
  }

  /** What the consumer knows about the record it is inside of. */
  ghost predicate Knows(c: Config, part: Part, k: nat, stage: nat)
    requires k < |c.log| && c.log[k].Parsed?
  {
    var proc, rec := part.proc, c.log[k].rec;
    match proc.pc
    case Guard(rule) => Judged(c, proc, k, stage, rule)
    case Emit(rule) => Judged(c, proc, k, stage, rule)
    case SetFlag(rule) =>
      && Judged(c, proc, k, stage, rule)
      && Answered(c, part.alerts, part.hist.muted, k, rule)
      && Alerted(part.alerts, rule, rec.caller)
    case LocGet => rec.cell in c.cells && proc.here == c.cells[rec.cell]
    case LocSet => rec.cell in c.cells && proc.here == c.cells[rec.cell] && Answered(c, part.alerts, part.hist.muted, k, ImpossibleTravel)
    case Accrue => c.TariffOf(rec).premium && proc.member == MemberFor(rec, c.TariffOf(rec).ratePerMin)
    case Mark => Answered(c, part.alerts, part.hist.muted, k, Irsf)
    case _ => true
  }

  ghost predicate Judged(c: Config, proc: Proc, k: nat, stage: nat, rule: Rule)
    requires k < |c.log| && c.log[k].Parsed?
  {
    && VerdictAt(c, k, rule) == Some(proc.score)
    && (rule.ImpossibleTravel? ==>
          stage == 1 && c.log[k].rec.cell in c.cells && proc.here == c.cells[c.log[k].rec.cell])
  }

  predicate PastVelocity(pc: PC) {
    Inside(pc) && !pc.Count? && pc != Guard(Velocity) && pc != Emit(Velocity) && pc != SetFlag(Velocity)
  }

  ghost predicate Memory(c: Config, part: Part, k: nat, stage: nat) {
    var proc := part.proc;
    && (!proc.pc.Fetch? ==> proc.holes == {})
    && (proc.holes == {} ==> proc.pos <= k)
    && (proc.pc.SeenCheck? || proc.pc.Backoff? || proc.pc.DeadLetter? ==> OnRecord(c, proc))
    && (proc.pc.Commit? ==> proc.pos < k)
    && (Inside(proc.pc) ==>
          && proc.pos == k && Fresh(c, k)
          && Reached(proc.pc) <= stage
          && Knows(c, part, k, stage)
          && (PastVelocity(proc.pc) ==> Answered(c, part.alerts, part.hist.muted, k, Velocity)))
  }

  ghost predicate Inv(c: Config, s: State, k: nat, stage: nat, early: int) {
    World(c, s, k, stage, early) && Memory(c, s.part, k, stage)
  }

  // ---- keeping it: everything but handle ------------------------------------------------------------------

  lemma ArriveKeeps(c: Config, s: State, e: Event, k: nat, stage: nat, early: int)
    requires Inv(c, s, k, stage, early)
    ensures Inv(c, Arrive(s, e), k, stage, early)
  {
  }

  lemma CrashKeeps(c: Config, s: State, e: Event, k: nat, stage: nat, early: int)
    requires Inv(c, s, k, stage, early)
    ensures Inv(c, s.(part := s.part.(proc := Boot(s.part.committed))), k, stage, early)
  {
  }

  lemma GiveUpKeeps(c: Config, s: State, k: nat, stage: nat, early: int)
    requires World(c, s, k, stage, early)
    ensures Inv(c, GiveUp(s), k, stage, early)
  {
  }

  lemma FailKeeps(c: Config, s: State, k: nat, stage: nat, early: int)
    requires World(c, s, k, stage, early)
    requires s.part.proc.pos <= k && OnRecord(c, s.part.proc) && s.part.proc.holes == {}
    ensures Inv(c, Fail(s), k, stage, early)
  {
  }

  lemma FaultSteps(c: Config, s: State, rec: Record, o: Outcome)
    requires Inside(s.part.proc.pc) && !s.part.proc.pc.Cell? && !s.part.proc.pc.Tariff? && !o.Ok?
    ensures HandleStep(c, s, rec, o) == Fail(if o.FailBefore? then s else Effect(c, s, rec))
    ensures Effect(c, s, rec).part.proc == s.part.proc
  {
  }

  /** An operation inside handle that reports an error, whether or not it took effect. */
  lemma FaultKeeps(c: Config, s: State, o: Outcome, k: nat, stage: nat, k': nat, stage': nat, early: int)
    requires Inv(c, s, k, stage, early) && Inside(s.part.proc.pc) && !s.part.proc.pc.Cell? && !s.part.proc.pc.Tariff?
    requires World(c, Effect(c, s, c.log[k].rec), k', stage', early) && k <= k'
    requires !o.Ok?
    ensures var s' := HandleStep(c, s, c.log[k].rec, o);
            if o.FailBefore? then Inv(c, s', k, stage, early) else Inv(c, s', k', stage', early)
  {
    FaultSteps(c, s, c.log[k].rec, o);
    if o.FailBefore? {
      FailKeeps(c, s, k, stage, early);
    } else {
      FailKeeps(c, Effect(c, s, c.log[k].rec), k', stage', early);
    }
  }

  lemma SkipAnswers(c: Config, alerts: seq<Emission>, muted: map<(nat, Rule), int>, k: nat)
    requires AllAnswered(c, alerts, muted, k) && !Fresh(c, k)
    ensures AllAnswered(c, alerts, muted, k + 1)
  {
  }

  /** A duplicate or a message that does not decode is complete without any state change. */
  lemma SkipKeeps(c: Config, s: State, k: nat, early: int)
    requires World(c, s, k, 0, early) && k < |c.log| && !Fresh(c, k)
    ensures World(c, s, k + 1, 0, early)
  {
    assert After(c, k + 1) == After(c, k);
    SkipAnswers(c, s.part.alerts, s.part.hist.muted, k);
  }

  lemma CompleteKeeps(c: Config, s: State, k: nat, stage: nat, early: int)
    requires World(c, s, k, stage, early) && s.part.proc.pos < k && s.part.proc.holes == {}
    ensures Inv(c, Finish(s), k, stage, early)
  {
  }

  lemma FinishKeeps(c: Config, s: State, k: nat, stage: nat, early: int) returns (k': nat, stage': nat)
    requires World(c, s, k, stage, early)
    requires s.part.proc.pos <= k && s.part.proc.pos < |c.log| && s.part.proc.holes == {}
    requires s.part.proc.pos == k ==> !Fresh(c, k)
    ensures Inv(c, Finish(s), k', stage', early)
  {
    if s.part.proc.pos == k {
      k', stage' := k + 1, 0;
      SkipKeeps(c, s, k, early);
    } else {
      k', stage' := k, stage;
    }
    CompleteKeeps(c, s, k', stage', early);
  }

  lemma FetchKeeps(c: Config, s: State, o: Outcome, k: nat, stage: nat, early: int) returns (k': nat, stage': nat)
    requires Inv(c, s, k, stage, early) && s.part.proc.pc.Fetch? && (o.Ok? ==> s.part.proc.holes == {})
    ensures Inv(c, FetchStep(c, s, o), k', stage', early)
  {
    k', stage' := k, stage;
    if o.Ok? && s.part.proc.pos < |c.log| && c.log[s.part.proc.pos].Unparseable? {
      k', stage' := FinishKeeps(c, s, k, stage, early);
    }
  }

  lemma BackoffKeeps(c: Config, s: State, o: Outcome, k: nat, stage: nat, early: int)
    requires Inv(c, s, k, stage, early) && s.part.proc.pc.Backoff?
    ensures Inv(c, BackoffStep(c, s, o), k, stage, early)
  {
  }

  lemma CommitKeeps(c: Config, s: State, o: Outcome, k: nat, stage: nat, early: int)
    requires Inv(c, s, k, stage, early) && s.part.proc.pc.Commit?
    ensures Inv(c, CommitStep(s, o), k, stage, early)
  {
  }

  // ---- keeping it: handle ---------------------------------------------------------------------------------

  lemma SeenKnown(c: Config, s: State, k: nat, stage: nat, early: int, id: string)
    requires World(c, s, k, stage, early)
    ensures SeenKey(id) in s.store <==> SeenKey(id) in After(c, k)
  {
    assert SeenKey(id) in s.store <==> SeenKey(id) in Lasting(s.store);
    if stage > 0 {
      PartlyKeepsSeen(c, After(c, k), c.log[k].rec, stage, id);
    }
  }

  /** The consumer's memory is not part of the world. */
  lemma WorldWithout(c: Config, s: State, proc: Proc, k: nat, stage: nat, early: int)
    requires World(c, s, k, stage, early)
    ensures World(c, s.(part := s.part.(proc := proc)), k, stage, early)
  {
  }

  lemma SeenCheckStep(c: Config, s: State, rec: Record)
    requires s.part.proc.pc.SeenCheck?
    ensures Continue(c, s, rec) == if Exists(s.store, SeenKey(rec.id), s.now) then Finish(s) else Goto(s, Count)
  {
  }

  lemma TurnToCount(c: Config, s: State, k: nat, stage: nat, early: int)
    requires World(c, s, k, stage, early) && s.part.proc.pos == k && Fresh(c, k) && s.part.proc.holes == {}
    ensures Inv(c, Goto(s, Count), k, stage, early)
  {
    WorldWithout(c, s, Goto(s, Count).part.proc, k, stage, early);
  }

  lemma SeenCheckKeeps(c: Config, s: State, k: nat, stage: nat, early: int) returns (k': nat, stage': nat)
    requires Inv(c, s, k, stage, early) && s.part.proc.pc.SeenCheck?
    requires Unexpired(s.store, SeenKey(c.log[s.part.proc.pos].rec.id), s.now)
    ensures Inv(c, Continue(c, s, c.log[s.part.proc.pos].rec), k', stage', early)
  {
    var proc := s.part.proc;
    var rec := c.log[proc.pos].rec;
    SeenKnown(c, s, k, stage, early, rec.id);
    SeenCheckStep(c, s, rec);
    if Exists(s.store, SeenKey(rec.id), s.now) {
      k', stage' := FinishKeeps(c, s, k, stage, early);
    } else {
      if proc.pos < k {
        SeenBelow(c, k, proc.pos);
      }
      k', stage' := k, stage;
      TurnToCount(c, s, k, stage, early);
    }
  }

  /** More alerts and more muted pairs answer no less. */
  lemma AnswersLast(c: Config, alerts: seq<Emission>, muted: map<(nat, Rule), int>,
                    alerts': seq<Emission>, muted': map<(nat, Rule), int>, i: nat, rule: Rule)
    requires alerts <= alerts' && muted.Keys <= muted'.Keys
    requires i < |c.log| && c.log[i].Parsed? && Answered(c, alerts, muted, i, rule)
    ensures Answered(c, alerts', muted', i, rule)
  {
    if VerdictAt(c, i, rule).Some? {
      var alert := AlertFor(c.log[i].rec, rule, VerdictAt(c, i, rule).value);
      if Emitted(alerts, alert) {
        var j :| 0 <= j < |alerts| && alerts[j].alert == alert;
        assert alerts'[j] == alerts[j];
      }
    }
  }

  lemma AlertedLasts(alerts: seq<Emission>, alerts': seq<Emission>, rule: Rule, caller: string)
    requires alerts <= alerts' && Alerted(alerts, rule, caller)
    ensures Alerted(alerts', rule, caller)
  {
    var j :| 0 <= j < |alerts| && alerts[j].alert.rule == rule && alerts[j].alert.caller == caller;
    assert alerts'[j] == alerts[j];
  }

  lemma AllAnsweredLasts(c: Config, alerts: seq<Emission>, muted: map<(nat, Rule), int>,
                         alerts': seq<Emission>, muted': map<(nat, Rule), int>, k: nat)
    requires alerts <= alerts' && muted.Keys <= muted'.Keys && AllAnswered(c, alerts, muted, k)
    ensures AllAnswered(c, alerts', muted', k)
  {
    forall i, rule | 0 <= i < k && Fresh(c, i) ensures Answered(c, alerts', muted', i, rule) {
      AnswersLast(c, alerts, muted, alerts', muted', i, rule);
    }
  }

  lemma FlagsFollowLasts(store: Store, alerts: seq<Emission>, alerts': seq<Emission>)
    requires alerts <= alerts' && FlagsFollowAlerts(store, alerts)
    ensures FlagsFollowAlerts(store, alerts')
  {
    forall rule, caller | AlertedKey(rule, caller) in store ensures Alerted(alerts', rule, caller) {
      AlertedLasts(alerts, alerts', rule, caller);
    }
  }

  lemma MutedByLasts(c: Config, alerts: seq<Emission>, alerts': seq<Emission>, muted: map<(nat, Rule), int>)
    requires alerts <= alerts' && MutedByAlerts(c, alerts, muted)
    ensures MutedByAlerts(c, alerts', muted)
  {
    forall i, rule | (i, rule) in muted ensures MutedByAlert(c, alerts', i, rule) {
      assert MutedByAlert(c, alerts, i, rule);
      AlertedLasts(alerts, alerts', rule, c.log[i].rec.caller);
    }
  }

  /** The state changes a record makes: which key, and the stage they lead to. */
  function NextStage(pc: PC, stage: nat): nat {
    match pc
    case Count => if stage < 1 then 1 else stage
    case LocSet => if stage < 2 then 2 else stage
    case Accrue => 3
    case _ => stage
  }

  lemma CountEffect(c: Config, s: State, k: nat, stage: nat, early: int, late: int)
    requires Inv(c, s, k, stage, early) && Tuned(c, early, late) && s.part.proc.pc.Count?
    requires Timely(s.now, c.log[k].rec.Ms(), early, late)
    ensures var s', stage' := Effect(c, s, c.log[k].rec), NextStage(Count, stage);
            && World(c, s', k, stage', early)
            && VelocityKey(c.log[k].rec.caller) in s'.store
            && MembersIn(s'.store[VelocityKey(c.log[k].rec.caller)].value)
               == WindowIn(Counted(c, After(c, k), c.log[k].rec), VelocityKey(c.log[k].rec.caller))
  {
    var rec := c.log[k].rec;
    var key, stage' := VelocityKey(rec.caller), NextStage(Count, stage);
    var store' := SlideKey(s.store, key, rec.id, rec.Ms(), c.velocityWindowMs, s.now);
    assert key in s.store ==> TimedKey(c, key, s.store[key], s.now, early);
    SlideIgnoresExpiry(s.store, key, rec.id, rec.Ms(), c.velocityWindowMs, s.now, early, late);
    assert key in s.store ==> Lasting(s.store)[key] == s.store[key].value;
    assert key in s.store <==> key in Lasting(s.store);
    LastingSet(s.store, key, store'[key]);
    assert Lasting(store') == Counted(c, Expected(c, k, stage), rec);
    if stage > 0 {
      RecountIsHarmless(c, After(c, k), rec, stage);
    }
    assert Lasting(store') == Expected(c, k, stage');
    assert Lasting(store')[key] == store'[key].value;
  }

  lemma CountStep(c: Config, s: State, k: nat)
    requires Fresh(c, k) && s.part.proc.pc.Count?
    requires var rec, s' := c.log[k].rec, Effect(c, s, c.log[k].rec);
             && VelocityKey(rec.caller) in s'.store
             && MembersIn(s'.store[VelocityKey(rec.caller)].value)
                == WindowIn(Counted(c, After(c, k), rec), VelocityKey(rec.caller))
    ensures var s' := Effect(c, s, c.log[k].rec);
            && HandleStep(c, s, c.log[k].rec, Ok) == Judge(s', Velocity, VerdictAt(c, k, Velocity))
            && s'.part == s.part
  {
  }

  lemma CountKeeps(c: Config, s: State, o: Outcome, k: nat, stage: nat, early: int, late: int) returns (stage': nat)
    requires Inv(c, s, k, stage, early) && Tuned(c, early, late) && s.part.proc.pc.Count?
    requires Timely(s.now, c.log[k].rec.Ms(), early, late)
    ensures Inv(c, HandleStep(c, s, c.log[k].rec, o), k, stage', early)
  {
    CountEffect(c, s, k, stage, early, late);
    stage' := if o.FailBefore? then stage else NextStage(Count, stage);
    if o.Ok? {
      CountStep(c, s, k);
      JudgeKeeps(c, Effect(c, s, c.log[k].rec), Velocity, k, stage', early);
    } else {
      FaultKeeps(c, s, o, k, stage, k, NextStage(Count, stage), early);
    }
  }

  /** Leaving a rule once it is answered. */
  lemma PastRule(c: Config, s: State, rule: Rule, k: nat, stage: nat, early: int)
    requires World(c, s, k, stage, early)
    requires s.part.proc.pos == k && Fresh(c, k) && s.part.proc.holes == {}
    requires Reached(Guard(rule)) <= stage && Answered(c, s.part.alerts, s.part.hist.muted, k, rule)
    requires rule.Velocity? || Answered(c, s.part.alerts, s.part.hist.muted, k, Velocity)
    requires rule.ImpossibleTravel? ==> c.log[k].rec.cell in c.cells && s.part.proc.here == c.cells[c.log[k].rec.cell]
    ensures Inv(c, Goto(s, AfterRule(rule)), k, stage, early)
  {
    WorldWithout(c, s, Goto(s, AfterRule(rule)).part.proc, k, stage, early);
    AfterRuleMemory(c, Goto(s, AfterRule(rule)).part, rule, k, stage);
  }

  lemma AfterRuleMemory(c: Config, part: Part, rule: Rule, k: nat, stage: nat)
    requires part.proc.pc == AfterRule(rule)
    requires part.proc.pos == k && Fresh(c, k) && part.proc.holes == {}
    requires Reached(Guard(rule)) <= stage && Answered(c, part.alerts, part.hist.muted, k, rule)
    requires rule.Velocity? || Answered(c, part.alerts, part.hist.muted, k, Velocity)
    requires rule.ImpossibleTravel? ==> c.log[k].rec.cell in c.cells && part.proc.here == c.cells[c.log[k].rec.cell]
    ensures Memory(c, part, k, stage)
  {
    match rule
    case Velocity => assert part.proc.pc == Cell;
    case ImpossibleTravel => assert part.proc.pc == LocSet;
    case Irsf => assert part.proc.pc == Mark;
  }

  /** Turning to a rule whose verdict has just been worked out. */
  lemma JudgeKeeps(c: Config, s: State, rule: Rule, k: nat, stage: nat, early: int)
    requires World(c, s, k, stage, early)
    requires s.part.proc.pos == k && Fresh(c, k) && s.part.proc.holes == {}
    requires Reached(Guard(rule)) <= stage
    requires rule.Velocity? || Answered(c, s.part.alerts, s.part.hist.muted, k, Velocity)
    requires rule.ImpossibleTravel? ==>
               stage == 1 && c.log[k].rec.cell in c.cells && s.part.proc.here == c.cells[c.log[k].rec.cell]
    ensures Inv(c, Judge(s, rule, VerdictAt(c, k, rule)), k, stage, early)
  {
    match VerdictAt(c, k, rule)
    case None => PastRule(c, s, rule, k, stage, early);
    case Some(score) =>
      var s' := Judge(s, rule, VerdictAt(c, k, rule));
      WorldWithout(c, s, s'.part.proc, k, stage, early);
      assert Judged(c, s'.part.proc, k, stage, rule);
  }

  /** What the consumer knows between the verdict and the flag. */
  ghost predicate Alerting(c: Config, part: Part, rule: Rule, k: nat, stage: nat) {
    && part.proc.pos == k && Fresh(c, k) && part.proc.holes == {}
    && Reached(Guard(rule)) <= stage && Judged(c, part.proc, k, stage, rule)
    && (rule.Velocity? || Answered(c, part.alerts, part.hist.muted, k, Velocity))
  }

  lemma GuardKnows(c: Config, part: Part, rule: Rule, k: nat, stage: nat)
    requires Memory(c, part, k, stage) && part.proc.pc == Guard(rule)
    ensures Alerting(c, part, rule, k, stage)
  {
    assert Knows(c, part, k, stage);
  }

  lemma EmitKnows(c: Config, part: Part, rule: Rule, k: nat, stage: nat)
    requires Alerting(c, part, rule, k, stage) && part.proc.pc == Emit(rule)
    ensures Memory(c, part, k, stage)
  {
    assert Knows(c, part, k, stage);
  }

  lemma TurnToEmit(c: Config, s: State, rule: Rule, k: nat, stage: nat, early: int)
    requires World(c, s, k, stage, early) && Alerting(c, s.part, rule, k, stage)
    ensures Inv(c, Goto(s, Emit(rule)), k, stage, early)
  {
    WorldWithout(c, s, Goto(s, Emit(rule)).part.proc, k, stage, early);
    EmitKnows(c, Goto(s, Emit(rule)).part, rule, k, stage);
  }

  lemma GuardStep(c: Config, s: State, rule: Rule, rec: Record)
    requires s.part.proc.pc == Guard(rule)
    ensures Effect(c, s, rec) == s
    ensures HandleStep(c, s, rec, Ok) == if Exists(s.store, AlertedKey(rule, rec.caller), s.now)
                                         then Goto(Noted(s, rule), AfterRule(rule)) else Goto(s, Emit(rule))
  {
  }

  lemma MuteKeeps(c: Config, s: State, rule: Rule, k: nat, stage: nat, early: int)
    requires World(c, s, k, stage, early) && s.part.proc.pos == k && OnRecord(c, s.part.proc)
    requires Alerted(s.part.alerts, rule, c.log[k].rec.caller)
    ensures World(c, Noted(s, rule), k, stage, early)
  {
    var alerts, muted := s.part.alerts, s.part.hist.muted[(k, rule) := s.now];
    forall i, r | (i, r) in muted ensures MutedByAlert(c, alerts, i, r) {
      assert (i, r) in s.part.hist.muted ==> MutedByAlert(c, alerts, i, r);
    }
    AllAnsweredLasts(c, alerts, s.part.hist.muted, alerts, muted, k);
    StillAnswered(c, s.part, alerts, muted, k);
  }

  /** The state with the muted pair noted. */
  function Noted(s: State, rule: Rule): State {
    var hist := s.part.hist;
    s.(part := s.part.(hist := hist.(muted := hist.muted[(s.part.proc.pos, rule) := s.now])))
  }

  lemma MutedAnswers(c: Config, s: State, rule: Rule, k: nat, stage: nat)
    requires Alerting(c, s.part, rule, k, stage)
    ensures var part := Noted(s, rule).part;
            && Answered(c, part.alerts, part.hist.muted, k, rule)
            && (rule.Velocity? || Answered(c, part.alerts, part.hist.muted, k, Velocity))
  {
    var part := Noted(s, rule).part;
    if !rule.Velocity? {
      AnswersLast(c, s.part.alerts, s.part.hist.muted, part.alerts, part.hist.muted, k, Velocity);
    }
  }

  lemma MutedIsAnswered(c: Config, s: State, rule: Rule, k: nat, stage: nat, early: int)
    requires World(c, s, k, stage, early) && Alerting(c, s.part, rule, k, stage)
    requires Alerted(s.part.alerts, rule, c.log[k].rec.caller)
    ensures Inv(c, Goto(Noted(s, rule), AfterRule(rule)), k, stage, early)
  {
    MuteKeeps(c, s, rule, k, stage, early);
    MutedAnswers(c, s, rule, k, stage);
    PastRule(c, Noted(s, rule), rule, k, stage, early);
  }

  lemma GuardKeeps(c: Config, s: State, o: Outcome, k: nat, stage: nat, early: int)
    requires Inv(c, s, k, stage, early) && s.part.proc.pc.Guard?
    ensures Inv(c, HandleStep(c, s, c.log[k].rec, o), k, stage, early)
  {
    var rec, rule := c.log[k].rec, s.part.proc.pc.rule;
    GuardStep(c, s, rule, rec);
    if !o.Ok? {
      FaultKeeps(c, s, o, k, stage, k, stage, early);
    } else {
      GuardKnows(c, s.part, rule, k, stage);
      if Exists(s.store, AlertedKey(rule, rec.caller), s.now) {
        MutedIsAnswered(c, s, rule, k, stage, early);
      } else {
        TurnToEmit(c, s, rule, k, stage, early);
      }
    }
  }

  lemma StillAnswered(c: Config, part: Part, alerts': seq<Emission>, muted': map<(nat, Rule), int>, k: nat)
    requires part.alerts <= alerts' && part.hist.muted.Keys <= muted'.Keys && OnRecord(c, part.proc) && part.proc.pos == k
    ensures forall rule | Answered(c, part.alerts, part.hist.muted, k, rule) :: Answered(c, alerts', muted', k, rule)
  {
    forall rule | Answered(c, part.alerts, part.hist.muted, k, rule) ensures Answered(c, alerts', muted', k, rule) {
      AnswersLast(c, part.alerts, part.hist.muted, alerts', muted', k, rule);
    }
  }

  lemma EmitEffect(c: Config, s: State, k: nat, stage: nat, early: int)
    requires Inv(c, s, k, stage, early) && s.part.proc.pc.Emit?
    ensures var s' := Effect(c, s, c.log[k].rec);
            && World(c, s', k, stage, early)
            && Answered(c, s'.part.alerts, s'.part.hist.muted, k, s.part.proc.pc.rule)
            && s.part.alerts <= s'.part.alerts
  {
    var rec, rule := c.log[k].rec, s.part.proc.pc.rule;
    var s' := Effect(c, s, rec);
    var alerts, alerts', muted := s.part.alerts, s'.part.alerts, s.part.hist.muted;
    var alert := AlertFor(rec, rule, s.part.proc.score);
    assert alerts' == alerts + [Emission(alert, s.now)];
    AllAnsweredLasts(c, alerts, muted, alerts', muted, k);
    StillAnswered(c, s.part, alerts', muted, k);
    FlagsFollowLasts(s.store, alerts, alerts');
    MutedByLasts(c, alerts, alerts', muted);
    assert Backs(c, k, alert);
    assert alerts'[|alerts|].alert == alert;
    assert AllBacked(c, alerts') by {
      forall j | 0 <= j < |alerts'| ensures Backed(c, alerts'[j].alert) {
        if j < |alerts| { assert Backed(c, alerts[j].alert); }
      }
    }
  }

  lemma EmitStep(c: Config, s: State, rule: Rule, rec: Record)
    requires s.part.proc.pc == Emit(rule)
    ensures var s' := Effect(c, s, rec);
            && HandleStep(c, s, rec, Ok) == Goto(s', SetFlag(rule))
            && s'.part.proc == s.part.proc && s'.part.hist.muted == s.part.hist.muted
            && Alerted(s'.part.alerts, rule, rec.caller)
  {
    assert Effect(c, s, rec).part.alerts[|s.part.alerts|].alert == AlertFor(rec, rule, s.part.proc.score);
  }

  lemma EmitMemory(c: Config, part: Part, part': Part, rule: Rule, k: nat, stage: nat)
    requires Memory(c, part, k, stage) && part.proc.pc == Emit(rule)
    requires part'.proc == part.proc.(pc := SetFlag(rule))
    requires part.alerts <= part'.alerts && part.hist.muted.Keys <= part'.hist.muted.Keys
    requires Answered(c, part'.alerts, part'.hist.muted, k, rule) && Alerted(part'.alerts, rule, c.log[k].rec.caller)
    ensures Memory(c, part', k, stage)
  {
    assert Judged(c, part.proc, k, stage, rule);
    assert Reached(SetFlag(rule)) == Reached(Emit(rule));
    if !rule.Velocity? {
      assert PastVelocity(part.proc.pc);
      AnswersLast(c, part.alerts, part.hist.muted, part'.alerts, part'.hist.muted, k, Velocity);
    }
  }

  lemma EmitKeeps(c: Config, s: State, rule: Rule, o: Outcome, k: nat, stage: nat, early: int)
    requires World(c, s, k, stage, early) && Memory(c, s.part, k, stage) && s.part.proc.pc == Emit(rule)
    ensures Inv(c, HandleStep(c, s, c.log[k].rec, o), k, stage, early)
  {
    EmitEffect(c, s, k, stage, early);
    if o.Ok? {
      var s' := Effect(c, s, c.log[k].rec);
      EmitStep(c, s, rule, c.log[k].rec);
      EmitMemory(c, s.part, Goto(s', SetFlag(rule)).part, rule, k, stage);
      assert World(c, Goto(s', SetFlag(rule)), k, stage, early);
    } else {
      FaultKeeps(c, s, o, k, stage, k, stage, early);
    }
  }

  lemma FlagTimed(c: Config, s: State, rule: Rule, caller: string, e: Entry, early: int)
    requires Timed(c, s, early)
    ensures Timed(c, s.(store := s.store[AlertedKey(rule, caller) := e]), early)
  {
  }

  lemma FlagFollows(store: Store, alerts: seq<Emission>, rule: Rule, caller: string, e: Entry)
    requires FlagsFollowAlerts(store, alerts) && Alerted(alerts, rule, caller)
    ensures FlagsFollowAlerts(store[AlertedKey(rule, caller) := e], alerts)
  {
  }

  lemma FlagWritten(c: Config, s: State, rule: Rule, rec: Record)
    requires s.part.proc.pc == SetFlag(rule)
    ensures var e := Entry(Flag, if c.cooldownMs == 0 then Never else At(s.now + c.cooldownMs));
            var s', key := Effect(c, s, rec), AlertedKey(rule, rec.caller);
            && s'.store == s.store[key := e] && s'.now == s.now
            && s'.part == s.part.(hist := s.part.hist.(flagged := s'.part.hist.flagged))
  {
  }

  lemma SetFlagEffect(c: Config, s: State, rule: Rule, k: nat, stage: nat, early: int)
    requires World(c, s, k, stage, early) && Fresh(c, k) && s.part.proc.pc == SetFlag(rule)
    requires Alerted(s.part.alerts, rule, c.log[k].rec.caller)
    ensures World(c, Effect(c, s, c.log[k].rec), k, stage, early)
  {
    var caller := c.log[k].rec.caller;
    var e := Entry(Flag, if c.cooldownMs == 0 then Never else At(s.now + c.cooldownMs));
    FlagWritten(c, s, rule, c.log[k].rec);
    LastingSet(s.store, AlertedKey(rule, caller), e);
    FlagTimed(c, s, rule, caller, e, early);
    FlagFollows(s.store, s.part.alerts, rule, caller, e);
  }

  lemma SetFlagStep(c: Config, s: State, rule: Rule, rec: Record)
    requires s.part.proc.pc == SetFlag(rule)
    ensures var s' := Effect(c, s, rec);
            && HandleStep(c, s, rec, Ok) == Goto(s', AfterRule(rule))
            && s'.part.proc == s.part.proc && s'.part.alerts == s.part.alerts && s'.part.hist.muted == s.part.hist.muted
  {
  }

  lemma SetFlagKnows(c: Config, part: Part, rule: Rule, k: nat, stage: nat)
    requires Memory(c, part, k, stage) && part.proc.pc == SetFlag(rule)
    ensures part.proc.pos == k && Fresh(c, k) && part.proc.holes == {}
    ensures Reached(Guard(rule)) <= stage && Answered(c, part.alerts, part.hist.muted, k, rule)
    ensures rule.Velocity? || Answered(c, part.alerts, part.hist.muted, k, Velocity)
    ensures rule.ImpossibleTravel? ==> c.log[k].rec.cell in c.cells && part.proc.here == c.cells[c.log[k].rec.cell]
    ensures Alerted(part.alerts, rule, c.log[k].rec.caller)
  {
    assert Knows(c, part, k, stage);
  }

  lemma SetFlagKeeps(c: Config, s: State, rule: Rule, o: Outcome, k: nat, stage: nat, early: int)
    requires World(c, s, k, stage, early) && Memory(c, s.part, k, stage) && s.part.proc.pc == SetFlag(rule)
    ensures Inv(c, HandleStep(c, s, c.log[k].rec, o), k, stage, early)
  {
    SetFlagKnows(c, s.part, rule, k, stage);
    SetFlagEffect(c, s, rule, k, stage, early);
    if o.Ok? {
      SetFlagStep(c, s, rule, c.log[k].rec);
      PastRule(c, Effect(c, s, c.log[k].rec), rule, k, stage, early);
    } else {
      FaultKeeps(c, s, o, k, stage, k, stage, early);
    }
  }

  lemma CellKnows(c: Config, part: Part, k: nat, stage: nat)
    requires Memory(c, part, k, stage) && part.proc.pc.Cell?
    ensures part.proc.pos == k && Fresh(c, k) && 1 <= stage && part.proc.holes == {}
    ensures Answered(c, part.alerts, part.hist.muted, k, Velocity)
  {
    assert PastVelocity(part.proc.pc);
  }

  lemma CellStep(c: Config, s: State, rec: Record)
    requires s.part.proc.pc.Cell?
    ensures Continue(c, s, rec) == if rec.cell in c.cells then Obey(s, AtCell(c.cells[rec.cell])) else Goto(s, Tariff)
  {
  }

  lemma TurnToLocation(c: Config, s: State, k: nat, stage: nat, early: int)
    requires World(c, s, k, stage, early) && s.part.proc.pos == k && Fresh(c, k) && 1 <= stage && s.part.proc.holes == {}
    requires Answered(c, s.part.alerts, s.part.hist.muted, k, Velocity) && c.log[k].rec.cell in c.cells
    ensures Inv(c, Obey(s, AtCell(c.cells[c.log[k].rec.cell])), k, stage, early)
  {
    WorldWithout(c, s, Obey(s, AtCell(c.cells[c.log[k].rec.cell])).part.proc, k, stage, early);
  }

  /** Without a known cell the record moves no location, and the travel rule does not trigger. */
  lemma NowhereToGo(c: Config, s: State, k: nat, stage: nat, early: int)
    requires World(c, s, k, stage, early) && 1 <= stage && Fresh(c, k) && c.log[k].rec.cell !in c.cells
    ensures World(c, s, k, if stage < 2 then 2 else stage, early)
  {
    assert Located(c, Expected(c, k, 1), c.log[k].rec) == Expected(c, k, 1);
  }

  lemma CellKeeps(c: Config, s: State, k: nat, stage: nat, early: int) returns (stage': nat)
    requires Inv(c, s, k, stage, early) && s.part.proc.pc.Cell?
    ensures Inv(c, Continue(c, s, c.log[k].rec), k, stage', early)
  {
    CellKnows(c, s.part, k, stage);
    CellStep(c, s, c.log[k].rec);
    if c.log[k].rec.cell in c.cells {
      stage' := stage;
      TurnToLocation(c, s, k, stage, early);
    } else {
      stage' := if stage < 2 then 2 else stage;
      NowhereToGo(c, s, k, stage, early);
      TurnToTariff(c, s, k, stage', early);
    }
  }

  function Remembered(c: Config, s: State, rec: Record): Option<real> {
    var key := LastLocKey(rec.caller);
    if Exists(s.store, key, s.now) then LocationVerdict(c, s.store[key].value, s.part.proc.here, rec.startNs) else None
  }

  lemma LocGetKnows(c: Config, part: Part, k: nat, stage: nat)
    requires Memory(c, part, k, stage) && part.proc.pc.LocGet?
    ensures part.proc.pos == k && Fresh(c, k) && 1 <= stage && part.proc.holes == {}
    ensures c.log[k].rec.cell in c.cells && part.proc.here == c.cells[c.log[k].rec.cell]
    ensures Answered(c, part.alerts, part.hist.muted, k, Velocity)
  {
    assert PastVelocity(part.proc.pc) && Knows(c, part, k, stage);
  }

  /** An attempt that already moved the location finds the record's own, at distance zero. */
  lemma OwnLocation(c: Config, s: State, k: nat, stage: nat)
    requires Progress(c, k, stage) && stage >= 2 && Lasting(s.store) == Expected(c, k, stage) && Metric(c.distance)
    requires c.log[k].rec.cell in c.cells && s.part.proc.here == c.cells[c.log[k].rec.cell]
    ensures Remembered(c, s, c.log[k].rec) == None
  {
    var key := LastLocKey(c.log[k].rec.caller);
    if key in s.store {
      assert s.store[key].value == Lasting(s.store)[key] == Place(Location(s.part.proc.here, c.log[k].rec.startNs));
      assert c.distance(s.part.proc.here, s.part.proc.here) == 0.0;
    }
  }

  /** A location that has expired would not have triggered. */
  lemma ForgottenLocation(c: Config, s: State, rec: Record, early: int, late: int)
    requires Tuned(c, early, late) && Timed(c, s, early) && Timely(s.now, rec.Ms(), early, late)
    requires LastLocKey(rec.caller) in s.store && !Alive(s.store[LastLocKey(rec.caller)], s.now)
    ensures LocationVerdict(c, s.store[LastLocKey(rec.caller)].value, s.part.proc.here, rec.startNs) == None
  {
    var key := LastLocKey(rec.caller);
    assert TimedKey(c, key, s.store[key], s.now, early);
    var last := s.store[key].value.location;
    if c.maxKmh > 0.0 {
      assert c.distance(last.point, s.part.proc.here) <= HALF_CIRCLE_KM;
      OldLocationIsHarmless(c.maxKmh, c.distance(last.point, s.part.proc.here), DAY_MS - (early + late),
                            last.atNs, rec.startNs);
    }
  }

  /** The first attempt to get this far sees the verdict, even if the previous location has expired. */
  lemma PreviousLocation(c: Config, s: State, k: nat, early: int, late: int)
    requires Fresh(c, k) && Lasting(s.store) == Expected(c, k, 1) && Tuned(c, early, late) && Timed(c, s, early)
    requires c.log[k].rec.cell in c.cells && s.part.proc.here == c.cells[c.log[k].rec.cell]
    requires Timely(s.now, c.log[k].rec.Ms(), early, late)
    ensures Remembered(c, s, c.log[k].rec) == VerdictAt(c, k, ImpossibleTravel)
  {
    var rec := c.log[k].rec;
    var key := LastLocKey(rec.caller);
    assert (key in s.store <==> key in Lasting(s.store)) && (key in Lasting(s.store) <==> key in After(c, k));
    if key in s.store {
      assert s.store[key].value == Lasting(s.store)[key] == After(c, k)[key];
      if !Alive(s.store[key], s.now) {
        ForgottenLocation(c, s, rec, early, late);
      }
    }
  }

  lemma LocGetStep(c: Config, s: State, rec: Record)
    requires s.part.proc.pc.LocGet?
    ensures Continue(c, s, rec) == Judge(s, ImpossibleTravel, Remembered(c, s, rec))
  {
  }

  lemma LocGetAgain(c: Config, s: State, k: nat, stage: nat, early: int)
    requires World(c, s, k, stage, early) && stage >= 2
    requires s.part.proc.pos == k && s.part.proc.holes == {}
    requires Answered(c, s.part.alerts, s.part.hist.muted, k, Velocity)
    requires c.log[k].rec.cell in c.cells && s.part.proc.here == c.cells[c.log[k].rec.cell]
    ensures Inv(c, Judge(s, ImpossibleTravel, None), k, stage, early)
  {
    PastRule(c, s, ImpossibleTravel, k, stage, early);
  }

  /** On the first attempt the verdict is the exactly-once one, on a later one there is none. */
  lemma LocGetVerdict(c: Config, s: State, k: nat, stage: nat, early: int, late: int)
    requires World(c, s, k, stage, early) && Memory(c, s.part, k, stage)
    requires Tuned(c, early, late) && s.part.proc.pc.LocGet?
    requires Timely(s.now, c.log[k].rec.Ms(), early, late)
    ensures Remembered(c, s, c.log[k].rec) == if stage >= 2 then None else VerdictAt(c, k, ImpossibleTravel)
  {
    LocGetKnows(c, s.part, k, stage);
    if stage >= 2 {
      OwnLocation(c, s, k, stage);
    } else {
      PreviousLocation(c, s, k, early, late);
    }
  }

  lemma LocGetKeeps(c: Config, s: State, k: nat, stage: nat, early: int, late: int)
    requires World(c, s, k, stage, early) && Memory(c, s.part, k, stage)
    requires Tuned(c, early, late) && s.part.proc.pc.LocGet?
    requires Timely(s.now, c.log[k].rec.Ms(), early, late)
    ensures Inv(c, Judge(s, ImpossibleTravel, Remembered(c, s, c.log[k].rec)), k, stage, early)
  {
    LocGetKnows(c, s.part, k, stage);
    LocGetVerdict(c, s, k, stage, early, late);
    if stage >= 2 {
      LocGetAgain(c, s, k, stage, early);
    } else {
      JudgeKeeps(c, s, ImpossibleTravel, k, stage, early);
    }
  }

  /** The state once the location has been stored. */
  function LocatedState(s: State, rec: Record): State {
    s.(store := Set(s.store, LastLocKey(rec.caller), Place(Location(s.part.proc.here, rec.startNs)), s.now, LAST_LOC_TTL_MS))
  }

  lemma LocatedLasts(c: Config, s: State, k: nat, stage: nat)
    requires Progress(c, k, stage) && 1 <= stage && Lasting(s.store) == Expected(c, k, stage)
    requires c.log[k].rec.cell in c.cells && s.part.proc.here == c.cells[c.log[k].rec.cell]
    ensures Lasting(LocatedState(s, c.log[k].rec).store) == Expected(c, k, NextStage(LocSet, stage))
  {
    var rec := c.log[k].rec;
    var key, s' := LastLocKey(rec.caller), LocatedState(s, rec);
    LastingSet(s.store, key, s'.store[key]);
    assert Lasting(s'.store) == Located(c, Expected(c, k, stage), rec);
    if stage >= 2 {
      RelocateIsHarmless(c, After(c, k), rec, stage);
    }
  }

  lemma LocatedTimed(c: Config, s: State, rec: Record, early: int, late: int)
    requires Timed(c, s, early) && Timely(s.now, rec.Ms(), early, late)
    ensures Timed(c, LocatedState(s, rec), early)
  {
  }

  lemma LocatedWorld(c: Config, s: State, k: nat, stage: nat, early: int, late: int)
    requires World(c, s, k, stage, early) && 1 <= stage && Answered(c, s.part.alerts, s.part.hist.muted, k, ImpossibleTravel)
    requires c.log[k].rec.cell in c.cells && s.part.proc.here == c.cells[c.log[k].rec.cell]
    requires Timely(s.now, c.log[k].rec.Ms(), early, late)
    ensures World(c, LocatedState(s, c.log[k].rec), k, NextStage(LocSet, stage), early)
  {
    LocatedLasts(c, s, k, stage);
    LocatedTimed(c, s, c.log[k].rec, early, late);
  }

  lemma LocSetEffect(c: Config, s: State, k: nat, stage: nat, early: int, late: int)
    requires Inv(c, s, k, stage, early) && s.part.proc.pc.LocSet?
    requires Timely(s.now, c.log[k].rec.Ms(), early, late)
    ensures Effect(c, s, c.log[k].rec) == LocatedState(s, c.log[k].rec)
    ensures World(c, LocatedState(s, c.log[k].rec), k, NextStage(LocSet, stage), early)
  {
    assert Knows(c, s.part, k, stage);
    LocatedWorld(c, s, k, stage, early, late);
  }

  lemma LocSetKnows(c: Config, part: Part, k: nat, stage: nat)
    requires Memory(c, part, k, stage) && part.proc.pc.LocSet?
    ensures part.proc.pos == k && Fresh(c, k) && part.proc.holes == {}
    ensures Answered(c, part.alerts, part.hist.muted, k, Velocity)
  {
    assert PastVelocity(part.proc.pc);
  }

  lemma LocSetStep(c: Config, s: State, rec: Record)
    requires s.part.proc.pc.LocSet?
    ensures HandleStep(c, s, rec, Ok) == Goto(Effect(c, s, rec), Tariff) && Effect(c, s, rec).part == s.part
  {
  }

  lemma LocSetKeeps(c: Config, s: State, o: Outcome, k: nat, stage: nat, early: int, late: int) returns (stage': nat)
    requires World(c, s, k, stage, early) && Memory(c, s.part, k, stage) && s.part.proc.pc.LocSet?
    requires Timely(s.now, c.log[k].rec.Ms(), early, late)
    ensures Inv(c, HandleStep(c, s, c.log[k].rec, o), k, stage', early)
  {
    LocSetKnows(c, s.part, k, stage);
    LocSetEffect(c, s, k, stage, early, late);
    stage' := if o.FailBefore? then stage else NextStage(LocSet, stage);
    if o.Ok? {
      LocSetStep(c, s, c.log[k].rec);
      TurnToTariff(c, Effect(c, s, c.log[k].rec), k, stage', early);
    } else {
      FaultKeeps(c, s, o, k, stage, k, NextStage(LocSet, stage), early);
    }
  }

  lemma TurnToTariff(c: Config, s: State, k: nat, stage: nat, early: int)
    requires World(c, s, k, stage, early) && 2 <= stage && s.part.proc.pos == k && s.part.proc.holes == {}
    requires Answered(c, s.part.alerts, s.part.hist.muted, k, Velocity)
    ensures Inv(c, Goto(s, Tariff), k, stage, early)
  {
    WorldWithout(c, s, Goto(s, Tariff).part.proc, k, stage, early);
  }

  lemma TariffKnows(c: Config, part: Part, k: nat, stage: nat)
    requires Memory(c, part, k, stage) && (part.proc.pc.Tariff? || part.proc.pc.Accrue?)
    ensures part.proc.pos == k && Fresh(c, k) && 2 <= stage && part.proc.holes == {}
    ensures Answered(c, part.alerts, part.hist.muted, k, Velocity)
    ensures part.proc.pc.Accrue? ==> c.TariffOf(c.log[k].rec).premium && part.proc.member == MemberFor(c.log[k].rec, c.TariffOf(c.log[k].rec).ratePerMin)
  {
    assert PastVelocity(part.proc.pc) && Knows(c, part, k, stage);
  }

  lemma NothingToCharge(c: Config, s: State, k: nat, stage: nat, early: int)
    requires World(c, s, k, stage, early) && 2 <= stage && !c.TariffOf(c.log[k].rec).premium
    ensures World(c, s, k, 3, early) && Answered(c, s.part.alerts, s.part.hist.muted, k, Irsf)
  {
    assert Expected(c, k, 3) == Expected(c, k, 2);
  }

  lemma SkipCharge(c: Config, s: State, k: nat, early: int)
    requires World(c, s, k, 3, early) && Answered(c, s.part.alerts, s.part.hist.muted, k, Irsf)
    requires s.part.proc.pos == k && s.part.proc.holes == {} && Answered(c, s.part.alerts, s.part.hist.muted, k, Velocity)
    ensures Inv(c, Goto(s, Mark), k, 3, early)
  {
    PastRule(c, s, Irsf, k, 3, early);
  }

  lemma StartCharge(c: Config, s: State, k: nat, stage: nat, early: int)
    requires World(c, s, k, stage, early) && 2 <= stage && c.TariffOf(c.log[k].rec).premium
    requires s.part.proc.pos == k && s.part.proc.holes == {} && Answered(c, s.part.alerts, s.part.hist.muted, k, Velocity)
    ensures Inv(c, Obey(s, Priced(MemberFor(c.log[k].rec, c.TariffOf(c.log[k].rec).ratePerMin))), k, stage, early)
  {
    WorldWithout(c, s, Obey(s, Priced(MemberFor(c.log[k].rec, c.TariffOf(c.log[k].rec).ratePerMin))).part.proc, k, stage, early);
  }

  lemma TariffStep(c: Config, s: State, rec: Record)
    requires s.part.proc.pc.Tariff?
    ensures Continue(c, s, rec) == if c.TariffOf(rec).premium then Obey(s, Priced(MemberFor(rec, c.TariffOf(rec).ratePerMin))) else Goto(s, Mark)
  {
  }

  lemma TariffKeeps(c: Config, s: State, k: nat, stage: nat, early: int) returns (stage': nat)
    requires World(c, s, k, stage, early) && Memory(c, s.part, k, stage) && s.part.proc.pc.Tariff?
    ensures Inv(c, Continue(c, s, c.log[k].rec), k, stage', early)
  {
    TariffKnows(c, s.part, k, stage);
    TariffStep(c, s, c.log[k].rec);
    if c.TariffOf(c.log[k].rec).premium {
      stage' := stage;
      StartCharge(c, s, k, stage, early);
    } else {
      stage' := 3;
      NothingToCharge(c, s, k, stage, early);
      SkipCharge(c, s, k, early);
    }
  }

  /** The state once the spend pipeline has taken effect. */
  function ChargedState(c: Config, s: State, rec: Record): State {
    s.(store := SlideKey(s.store, SpendKey(rec.caller), s.part.proc.member, rec.Ms(), c.irsfWindowMs, s.now))
  }

  lemma ChargedLasts(c: Config, s: State, k: nat, stage: nat, early: int, late: int)
    requires World(c, s, k, stage, early) && Tuned(c, early, late)
    requires 2 <= stage && c.TariffOf(c.log[k].rec).premium && s.part.proc.member == MemberFor(c.log[k].rec, c.TariffOf(c.log[k].rec).ratePerMin)
    requires Timely(s.now, c.log[k].rec.Ms(), early, late)
    ensures var rec, store := c.log[k].rec, ChargedState(c, s, c.log[k].rec).store;
            && Lasting(store) == Expected(c, k, 3) && Dated(store[SpendKey(rec.caller)], c.irsfWindowMs, early)
            && MembersIn(store[SpendKey(rec.caller)].value)
               == WindowIn(Charged(c, After(c, k), rec), SpendKey(rec.caller))
  {
    var rec := c.log[k].rec;
    var key, member := SpendKey(rec.caller), s.part.proc.member;
    var store' := ChargedState(c, s, rec).store;
    assert key in s.store ==> TimedKey(c, key, s.store[key], s.now, early);
    SlideIgnoresExpiry(s.store, key, member, rec.Ms(), c.irsfWindowMs, s.now, early, late);
    assert key in s.store ==> Lasting(s.store)[key] == s.store[key].value;
    assert key in s.store <==> key in Lasting(s.store);
    LastingSet(s.store, key, store'[key]);
    assert Lasting(store') == Charged(c, Expected(c, k, stage), rec);
    RechargeIsHarmless(c, After(c, k), rec, stage);
    assert Lasting(store') == Expected(c, k, 3);
    assert Lasting(store')[key] == store'[key].value;
  }

  lemma AccrueEffect(c: Config, s: State, k: nat, stage: nat, early: int, late: int)
    requires World(c, s, k, stage, early) && Tuned(c, early, late)
    requires 2 <= stage && c.TariffOf(c.log[k].rec).premium && s.part.proc.member == MemberFor(c.log[k].rec, c.TariffOf(c.log[k].rec).ratePerMin)
    requires Timely(s.now, c.log[k].rec.Ms(), early, late)
    ensures World(c, ChargedState(c, s, c.log[k].rec), k, 3, early)
  {
    ChargedLasts(c, s, k, stage, early, late);
  }

  lemma AccrueStep(c: Config, s: State, k: nat)
    requires Fresh(c, k) && s.part.proc.pc.Accrue? && c.TariffOf(c.log[k].rec).premium
    requires var rec, store := c.log[k].rec, ChargedState(c, s, c.log[k].rec).store;
             MembersIn(store[SpendKey(rec.caller)].value) == WindowIn(Charged(c, After(c, k), rec), SpendKey(rec.caller))
    ensures var s' := ChargedState(c, s, c.log[k].rec);
            && Effect(c, s, c.log[k].rec) == s'
            && HandleStep(c, s, c.log[k].rec, Ok) == Judge(s', Irsf, VerdictAt(c, k, Irsf))
  {
    ChargedVerdict(c, s, k);
  }

  lemma ChargedDecision(c: Config, s: State, rec: Record)
    requires s.part.proc.pc.Accrue?
    ensures var store := ChargedState(c, s, rec).store;
            Decide(c, store, s.now, s.part.proc, rec)
            == Judgement(Irsf, IrsfVerdict(c.irsfThreshold, Spend.SpendOf(MembersIn(store[SpendKey(rec.caller)].value).Keys)))
  {
  }

  lemma IrsfVerdictAt(c: Config, k: nat)
    requires Fresh(c, k) && c.TariffOf(c.log[k].rec).premium
    ensures VerdictAt(c, k, Irsf)
            == IrsfVerdict(c.irsfThreshold,
                           Spend.SpendOf(WindowIn(Charged(c, After(c, k), c.log[k].rec), SpendKey(c.log[k].rec.caller)).Keys))
  {
  }

  lemma ChargedVerdict(c: Config, s: State, k: nat)
    requires Fresh(c, k) && s.part.proc.pc.Accrue? && c.TariffOf(c.log[k].rec).premium
    requires var rec, store := c.log[k].rec, ChargedState(c, s, c.log[k].rec).store;
             MembersIn(store[SpendKey(rec.caller)].value) == WindowIn(Charged(c, After(c, k), rec), SpendKey(rec.caller))
    ensures Decide(c, ChargedState(c, s, c.log[k].rec).store, s.now, s.part.proc, c.log[k].rec)
            == Judgement(Irsf, VerdictAt(c, k, Irsf))
  {
    ChargedDecision(c, s, c.log[k].rec);
    IrsfVerdictAt(c, k);
  }

  lemma AccrueFails(c: Config, s: State, o: Outcome, k: nat, stage: nat, early: int)
    requires World(c, s, k, stage, early) && Memory(c, s.part, k, stage) && s.part.proc.pc.Accrue? && !o.Ok?
    requires World(c, ChargedState(c, s, c.log[k].rec), k, 3, early)
    requires Effect(c, s, c.log[k].rec) == ChargedState(c, s, c.log[k].rec)
    ensures Inv(c, HandleStep(c, s, c.log[k].rec, o), k, if o.FailBefore? then stage else 3, early)
  {
    FaultKeeps(c, s, o, k, stage, k, 3, early);
  }

  lemma AccrueSucceeds(c: Config, s: State, k: nat, early: int)
    requires Fresh(c, k) && s.part.proc.pos == k && s.part.proc.holes == {} && s.part.proc.pc.Accrue?
    requires World(c, ChargedState(c, s, c.log[k].rec), k, 3, early) && Answered(c, s.part.alerts, s.part.hist.muted, k, Velocity)
    requires HandleStep(c, s, c.log[k].rec, Ok) == Judge(ChargedState(c, s, c.log[k].rec), Irsf, VerdictAt(c, k, Irsf))
    ensures Inv(c, HandleStep(c, s, c.log[k].rec, Ok), k, 3, early)
  {
    JudgeKeeps(c, ChargedState(c, s, c.log[k].rec), Irsf, k, 3, early);
  }

  lemma AccrueKeeps(c: Config, s: State, o: Outcome, k: nat, stage: nat, early: int, late: int) returns (stage': nat)
    requires World(c, s, k, stage, early) && Memory(c, s.part, k, stage)
    requires Tuned(c, early, late) && s.part.proc.pc.Accrue?
    requires Timely(s.now, c.log[k].rec.Ms(), early, late)
    ensures Inv(c, HandleStep(c, s, c.log[k].rec, o), k, stage', early)
  {
    TariffKnows(c, s.part, k, stage);
    ChargedLasts(c, s, k, stage, early, late);
    AccrueStep(c, s, k);
    AccrueEffect(c, s, k, stage, early, late);
    stage' := if o.FailBefore? then stage else 3;
    if o.Ok? {
      AccrueSucceeds(c, s, k, early);
    } else {
      AccrueFails(c, s, o, k, stage, early);
    }
  }

  lemma AllThree(c: Config, alerts: seq<Emission>, muted: map<(nat, Rule), int>, k: nat)
    requires AllAnswered(c, alerts, muted, k) && Fresh(c, k)
    requires Answered(c, alerts, muted, k, Velocity) && Answered(c, alerts, muted, k, ImpossibleTravel)
    requires Answered(c, alerts, muted, k, Irsf)
    ensures AllAnswered(c, alerts, muted, k + 1)
  {
    forall i, rule | 0 <= i < k + 1 && Fresh(c, i) ensures Answered(c, alerts, muted, i, rule) {
      if i == k {
        match rule
        case Velocity =>
        case ImpossibleTravel =>
        case Irsf =>
      }
    }
  }

  lemma MarkKnows(c: Config, part: Part, k: nat, stage: nat)
    requires Memory(c, part, k, stage) && part.proc.pc.Mark?
    ensures part.proc.pos == k && Fresh(c, k) && stage >= 3 && part.proc.holes == {}
    ensures Answered(c, part.alerts, part.hist.muted, k, Velocity) && Answered(c, part.alerts, part.hist.muted, k, Irsf)
  {
    assert PastVelocity(part.proc.pc) && Knows(c, part, k, stage);
  }

  lemma MarkLasts(c: Config, s: State, k: nat)
    requires s.part.proc.pc.Mark? && Progress(c, k, 3) && Lasting(s.store) == Expected(c, k, 3)
    ensures Progress(c, k + 1, 0) && Lasting(Effect(c, s, c.log[k].rec).store) == Expected(c, k + 1, 0)
  {
    var rec := c.log[k].rec;
    LastingSet(s.store, SeenKey(rec.id), Effect(c, s, rec).store[SeenKey(rec.id)]);
    assert After(c, k + 1) == Once(c, After(c, k), rec);
  }

  lemma MarkTimed(c: Config, s: State, rec: Record, early: int)
    requires s.part.proc.pc.Mark? && Timed(c, s, early)
    ensures Timed(c, Effect(c, s, rec), early) && Effect(c, s, rec).part == s.part
  {
    var s' := Effect(c, s, rec);
    forall key | key in s'.store ensures TimedKey(c, key, s'.store[key], s'.now, early) {
      assert key in s.store ==> TimedKey(c, key, s.store[key], s.now, early);
    }
  }

  lemma MarkFollows(c: Config, s: State, rec: Record, alerts: seq<Emission>)
    requires s.part.proc.pc.Mark? && FlagsFollowAlerts(s.store, alerts)
    ensures FlagsFollowAlerts(Effect(c, s, rec).store, alerts)
  {
  }

  lemma MarkEffect(c: Config, s: State, k: nat, early: int)
    requires World(c, s, k, 3, early) && s.part.proc.pc.Mark?
    requires Answered(c, s.part.alerts, s.part.hist.muted, k, Velocity) && Answered(c, s.part.alerts, s.part.hist.muted, k, Irsf)
    ensures World(c, Effect(c, s, c.log[k].rec), k + 1, 0, early)
  {
    MarkLasts(c, s, k);
    MarkTimed(c, s, c.log[k].rec, early);
    MarkFollows(c, s, c.log[k].rec, s.part.alerts);
    AllThree(c, s.part.alerts, s.part.hist.muted, k);
  }

  lemma MarkStep(c: Config, s: State, rec: Record)
    requires s.part.proc.pc.Mark?
    ensures HandleStep(c, s, rec, Ok) == Finish(Effect(c, s, rec)) && Effect(c, s, rec).part == s.part
  {
  }

  lemma DoneKeeps(c: Config, s: State, k: nat, early: int)
    requires World(c, s, k + 1, 0, early) && s.part.proc.pos == k && s.part.proc.holes == {}
    ensures Inv(c, Finish(s), k + 1, 0, early)
  {
  }

  lemma MarkKeeps(c: Config, s: State, o: Outcome, k: nat, stage: nat, early: int) returns (k': nat, stage': nat)
    requires World(c, s, k, stage, early) && Memory(c, s.part, k, stage) && s.part.proc.pc.Mark?
    ensures Inv(c, HandleStep(c, s, c.log[k].rec, o), k', stage', early)
  {
    MarkKnows(c, s.part, k, stage);
    MarkEffect(c, s, k, early);
    k', stage' := if o.FailBefore? then k else k + 1, if o.FailBefore? then stage else 0;
    if o.Ok? {
      MarkStep(c, s, c.log[k].rec);
      DoneKeeps(c, Effect(c, s, c.log[k].rec), k, early);
    } else {
      FaultKeeps(c, s, o, k, stage, k + 1, 0, early);
    }
  }

  // ---- whole runs -----------------------------------------------------------------------------------------

  lemma ReadFails(c: Config, s: State, o: Outcome, k: nat, stage: nat, early: int)
    requires Inv(c, s, k, stage, early) && !o.Ok?
    requires s.part.proc.pc.SeenCheck? || s.part.proc.pc.LocGet?
    ensures Inv(c, HandleStep(c, s, c.log[s.part.proc.pos].rec, o), k, stage, early)
  {
    assert Effect(c, s, c.log[s.part.proc.pos].rec) == s;
    FailKeeps(c, s, k, stage, early);
  }

  lemma HandleKeeps(c: Config, s: State, o: Outcome, k: nat, stage: nat, early: int, late: int)
      returns (k': nat, stage': nat)
    requires Inv(c, s, k, stage, early) && Tuned(c, early, late)
    requires Inside(s.part.proc.pc) || s.part.proc.pc.SeenCheck?
    requires Calm(c, s, Op(0, false, o), early, late)
    ensures Inv(c, HandleStep(c, s, c.log[s.part.proc.pos].rec, o), k', stage', early)
  {
    k', stage' := k, stage;
    assert Arrive(s, Op(0, false, o)) == s;
    match s.part.proc.pc
    case SeenCheck =>
      if o.Ok? {
        assert Effect(c, s, c.log[s.part.proc.pos].rec) == s;
        k', stage' := SeenCheckKeeps(c, s, k, stage, early);
      } else {
        ReadFails(c, s, o, k, stage, early);
      }
    case Count => stage' := CountKeeps(c, s, o, k, stage, early, late);
    case Guard(rule) => GuardKeeps(c, s, o, k, stage, early);
    case Emit(rule) => EmitKeeps(c, s, rule, o, k, stage, early);
    case SetFlag(rule) => SetFlagKeeps(c, s, rule, o, k, stage, early);
    case Cell =>
      assert Effect(c, s, c.log[k].rec) == s;
      stage' := CellKeeps(c, s, k, stage, early);
    case LocGet =>
      if o.Ok? {
        assert Effect(c, s, c.log[k].rec) == s;
        LocGetStep(c, s, c.log[k].rec);
        LocGetKeeps(c, s, k, stage, early, late);
      } else {
        ReadFails(c, s, o, k, stage, early);
      }
    case LocSet => stage' := LocSetKeeps(c, s, o, k, stage, early, late);
    case Tariff =>
      assert Effect(c, s, c.log[k].rec) == s;
      stage' := TariffKeeps(c, s, k, stage, early);
    case Accrue => stage' := AccrueKeeps(c, s, o, k, stage, early, late);
    case Mark => k', stage' := MarkKeeps(c, s, o, k, stage, early);
  }

  lemma AttemptKeeps(c: Config, s: State, o: Outcome, k: nat, stage: nat, early: int, late: int)
      returns (k': nat, stage': nat)
    requires Inv(c, s, k, stage, early) && Tuned(c, early, late) && Calm(c, s, Op(0, false, o), early, late)
    ensures Inv(c, Attempt(c, s, o), k', stage', early)
  {
    k', stage' := k, stage;
    match s.part.proc.pc
    case Fetch =>
      k', stage' := FetchKeeps(c, s, o, k, stage, early);
      assert Attempt(c, s, o) == FetchStep(c, s, o);
    case Backoff =>
      BackoffKeeps(c, s, o, k, stage, early);
      assert Attempt(c, s, o) == BackoffStep(c, s, o);
    case Commit =>
      CommitKeeps(c, s, o, k, stage, early);
      assert Attempt(c, s, o) == CommitStep(s, o);
    case DeadLetter =>
      GiveUpKeeps(c, s, k, stage, early);
      assert Attempt(c, s, o) == GiveUp(s);
    case _ =>
      k', stage' := HandleKeeps(c, s, o, k, stage, early, late);
      assert Attempt(c, s, o) == HandleStep(c, s, c.log[s.part.proc.pos].rec, o);
  }

  /** Every step of a calm run keeps the invariant. */
  lemma StepKeeps(c: Config, s: State, e: Event, k: nat, stage: nat, early: int, late: int)
      returns (k': nat, stage': nat)
    requires Inv(c, s, k, stage, early) && Tuned(c, early, late) && Calm(c, s, e, early, late)
    ensures Inv(c, Step(c, s, e), k', stage', early)
  {
    ArriveKeeps(c, s, e, k, stage, early);
    var a := Arrive(s, e);
    k', stage' := k, stage;
    match e
    case Wait(_) =>
    case Crash(_) => CrashKeeps(c, a, e, k, stage, early);
    case Op(_, _, o) =>
      CalmOnArrival(c, s, e, early, late);
      k', stage' := AttemptKeeps(c, a, o, k, stage, early, late);
  }

  lemma CalmOnArrival(c: Config, s: State, e: Event, early: int, late: int)
    requires e.Op? && Calm(c, s, e, early, late)
    ensures Calm(c, Arrive(s, e), Op(0, false, e.outcome), early, late)
  {
  }

  lemma {:induction false} RunKeeps(c: Config, now: int, events: seq<Event>, early: int, late: int)
      returns (k: nat, stage: nat)
    requires Tuned(c, early, late) && CalmRun(c, Init(now), events, early, late)
    ensures Inv(c, Run(c, Init(now), events), k, stage, early)
  {
    if events == [] {
      k, stage := 0, 0;
    } else {
      var n := |events| - 1;
      k, stage := RunKeeps(c, now, events[..n], early, late);
      k, stage := StepKeeps(c, Run(c, Init(now), events[..n]), events[n], k, stage, early, late);
    }
  }
}
