/** One lemma for each operation of the consumer's code: the step the state machine of Pipeline takes for it, in the
    terms in which the code's methods state it. */
module ConsumerSteps {
  import opened Cdr
  import opened Rules
  import opened Redis
  import opened Pipeline

  /** How one operation turns out: time passes, the shutdown signal may arrive, and the operation succeeds or fails. */
  datatype Reply = Reply(dt: nat, cancel: bool, outcome: Outcome)

  function AsEvent(reply: Reply): Event {
    Op(reply.dt, reply.cancel, reply.outcome)
  }

  /** The environment decides, operation by operation. */
  type Environment = nat -> Reply

  function Schedule(env: Environment, n: nat): (events: seq<Event>)
    ensures |events| == n
  {
    seq(n, i requires 0 <= i < n => AsEvent(env(i)))
  }

  /** The operations of a run, without the crashes in between. */
  function Operations(events: seq<Event>): seq<Event> {
    if events == [] then []
    else
      var last := events[|events| - 1];
      Operations(events[..|events| - 1]) + if last.Crash? then [] else [last]
  }

  /** A run of the state machine, state by state, in which the environment has decided so many operations. */
  datatype Trace = Trace(c: Config, env: Environment, start: int, ticks: nat, events: seq<Event>, states: seq<State>)

  ghost predicate IsRun(t: Trace) {
    && |t.states| == |t.events| + 1 && t.states[0] == Init(t.start)
    && Operations(t.events) == Schedule(t.env, t.ticks)
    && forall i {:trigger Step(t.c, t.states[i], t.events[i])} :: 0 <= i < |t.events| ==>
         t.states[i + 1] == Step(t.c, t.states[i], t.events[i])
  }

  const NOTHING := Trace(Config([], map[], [], (p, q) => 0.0, 0, 0, 0.0, 0.0, 0, 0, 0), i => Reply(0, false, Ok), 0, 0, [], [Init(0)])

  type Trail = t: Trace | IsRun(t) ghost witness NOTHING

  /** The trail is one of these settings, and m is its last state. */
  ghost predicate Ends(c: Config, trail: Trail, m: State) {
    trail.c == c && trail.states[|trail.states| - 1] == m
  }

  /** One more event. */
  ghost predicate Extends(c: Config, trail: Trail, e: Event, trail': Trail, m': State) {
    && Ends(c, trail', m') && trail'.env == trail.env && trail'.start == trail.start
    && trail'.ticks == (if e.Crash? then trail.ticks else trail.ticks + 1) && trail'.events == trail.events + [e]
  }

  /** The last state is what the state machine's run leads to. */
  lemma {:induction false} StatesAreRun(c: Config, start: int, events: seq<Event>, states: seq<State>)
    requires |states| == |events| + 1 && states[0] == Init(start)
    requires forall i {:trigger Step(c, states[i], events[i])} :: 0 <= i < |events| ==>
               states[i + 1] == Step(c, states[i], events[i])
    ensures states[|events|] == Run(c, Init(start), events)
  {
    var n := |events|;
    if n > 0 {
      StatesAreRun(c, start, events[..n - 1], states[..n]);
      assert states[n] == Step(c, states[n - 1], events[n - 1]);
    }
  }

  lemma TrailIsRun(c: Config, trail: Trail, m: State)
    requires Ends(c, trail, m)
    ensures m == Run(c, Init(trail.start), trail.events)
    ensures Operations(trail.events) == Schedule(trail.env, trail.ticks)
  {
    StatesAreRun(c, trail.start, trail.events, trail.states);
  }

  lemma OperationsOneMore(env: Environment, n: nat, events: seq<Event>, e: Event)
    requires Operations(events) == Schedule(env, n)
    ensures e.Crash? ==> Operations(events + [e]) == Schedule(env, n)
    ensures e == AsEvent(env(n)) ==> Operations(events + [e]) == Schedule(env, n + 1)
  {
    assert (events + [e])[..|events|] == events;
    assert Schedule(env, n + 1) == Schedule(env, n) + [AsEvent(env(n))];
  }

  /** The environment decides the event, or it is a crash. */
  predicate Due(trail: Trace, e: Event) {
    e == AsEvent(trail.env(trail.ticks)) || e.Crash?
  }

  lemma Advance(c: Config, trail: Trail, m: State, e: Event) returns (trail': Trail, m': State)
    requires Ends(c, trail, m) && Due(trail, e)
    ensures Extends(c, trail, e, trail', m') && m' == Step(c, m, e)
  {
    m' := Step(c, m, e);
    var t := Trace(c, trail.env, trail.start, if e.Crash? then trail.ticks else trail.ticks + 1, trail.events + [e],
                   trail.states + [m']);
    forall i | 0 <= i < |t.events| ensures t.states[i + 1] == Step(c, t.states[i], t.events[i]) {
      if i < |trail.events| {
        assert trail.states[i + 1] == Step(c, trail.states[i], trail.events[i]);
      }
    }
    OperationsOneMore(trail.env, trail.ticks, trail.events, e);
    trail' := t;
  }

  lemma Begin(c: Config, env: Environment, start: int) returns (trail: Trail)
    ensures Ends(c, trail, Init(start)) && trail.env == env && trail.start == start && trail.ticks == 0 && trail.events == []
  {
    assert Schedule(env, 0) == [];
    trail := Trace(c, env, start, 0, [], [Init(start)]);
  }

  function Next(proc: Proc): nat {
    proc.pos + (if proc.pc.Fetch? then 0 else 1)
  }

  /** The machine is inside handle with this record. */
  predicate On(c: Config, m: State, rec: Record, pc: PC) {
    m.part.proc.pc == pc && InHandle(pc) && OnMessage(c, m.part.proc, Parsed(rec))
  }

  /** Time has passed and the signal may have arrived; the offsets, the dead letters and the message at hand are as before. */
  predicate Keeps(m: State, e: Event, s: State)
    requires e.Op?
  {
    && s.now == m.now + e.dt
    && s.part.dlq == m.part.dlq && s.part.committed == m.part.committed
    && s.part.proc.cancelled == (m.part.proc.cancelled || e.cancel)
    && s.part.proc.attempt == m.part.proc.attempt
    && Next(s.part.proc) == Next(m.part.proc)
  }

  /** After an error the machine pauses, or leaves the message if the signal has arrived; it remembers the cause. */
  predicate Broken(m: State, e: Event, s: State)
    requires e.Op?
  {
    && Keeps(m, e, s)
    && s.part.proc.cause == m.part.proc.pc
    && s.part.proc.pc == if m.part.proc.cancelled || e.cancel then Fetch else Backoff
  }

  predicate Reaches(m: State, e: Event, s: State, pc: PC)
    requires e.Op?
  {
    Keeps(m, e, s) && s.part.proc.pc == pc && s.part.proc.pos == m.part.proc.pos
  }

  /** An operation that only writes `store`, or fails with or without having done so. */
  predicate Wrote(m: State, e: Event, s: State, store: Store)
    requires e.Op?
  {
    && Keeps(m, e, s)
    && s.store == (if e.outcome.FailBefore? then m.store else store)
    && s.part.alerts == m.part.alerts
    && (e.outcome.Ok? || Broken(m, e, s))
  }

  lemma AdvanceHandle(c: Config, trail: Trail, m: State, e: Event, rec: Record)
      returns (trail': Trail, m': State)
    requires e == AsEvent(trail.env(trail.ticks)) && Ends(c, trail, m) && On(c, m, rec, m.part.proc.pc)
    ensures Extends(c, trail, e, trail', m')
    ensures m' == HandleStep(c, Arrive(m, e), rec, e.outcome)
  {
    trail', m' := Advance(c, trail, m, e);
  }

  /** An operation that fails. */
  lemma ErrorBreaks(c: Config, m: State, e: Event, rec: Record)
    requires e.Op? && !e.outcome.Ok?
    requires InHandle(m.part.proc.pc) && !m.part.proc.pc.Cell? && !m.part.proc.pc.Tariff?
    ensures var a := Arrive(m, e);
            var s := HandleStep(c, a, rec, e.outcome);
            && Broken(m, e, s)
            && s.store == (if e.outcome.FailBefore? then m.store else Written(c, m.part.proc, m.store, m.now + e.dt, rec))
            && s.part.alerts == (if e.outcome.FailBefore? || !m.part.proc.pc.Emit? then m.part.alerts
                                 else m.part.alerts + [Emission(AlertFor(rec, m.part.proc.pc.rule, m.part.proc.score), m.now + e.dt)])
            && s.part.proc.here == m.part.proc.here && s.part.proc.score == m.part.proc.score
  {
  }

  /** What an operation leaves in Redis and in the alert topic when it takes effect. */
  lemma EffectOn(c: Config, m: State, e: Event, rec: Record)
    requires e.Op?
    ensures var f := Effect(c, Arrive(m, e), rec);
            && f.store == Written(c, m.part.proc, m.store, m.now + e.dt, rec) && f.now == m.now + e.dt
            && f.part == m.part.(proc := f.part.proc, alerts := f.part.alerts, hist := f.part.hist)
            && f.part.proc == m.part.proc.(cancelled := m.part.proc.cancelled || e.cancel)
            && f.part.alerts == (if !m.part.proc.pc.Emit? then m.part.alerts
                                 else m.part.alerts + [Emission(AlertFor(rec, m.part.proc.pc.rule, m.part.proc.score), m.now + e.dt)])
  {
  }

  /** An operation that succeeds: its effect, then the decision. */
  lemma SuccessObeys(c: Config, m: State, e: Event, rec: Record)
    requires e.Op? && e.outcome.Ok? && InHandle(m.part.proc.pc)
    ensures var s, store := HandleStep(c, Arrive(m, e), rec, Ok), Written(c, m.part.proc, m.store, m.now + e.dt, rec);
            var d := Decide(c, store, m.now + e.dt, m.part.proc, rec);
            && s.store == store && Keeps(m, e, s)
            && s.part.alerts == (if !m.part.proc.pc.Emit? then m.part.alerts
                                 else m.part.alerts + [Emission(AlertFor(rec, m.part.proc.pc.rule, m.part.proc.score), m.now + e.dt)])
            && s.part.proc.pos == m.part.proc.pos && Follows(m.part.proc, d, s.part.proc)
  {
    var f := Effect(c, Arrive(m, e), rec);
    EffectOn(c, m, e, rec);
    DecideAlike(c, f.store, f.now, m.part.proc, f.part.proc, rec);
    ObeyFollows(f, Decide(c, f.store, f.now, f.part.proc, rec));
  }

  /** The decision does not depend on whether the signal has arrived. */
  lemma DecideAlike(c: Config, store: Store, now: int, proc: Proc, proc': Proc, rec: Record)
    requires proc' == proc.(cancelled := proc'.cancelled)
    ensures Decide(c, store, now, proc, rec) == Decide(c, store, now, proc', rec)
  {
  }

  /** The verdict of the rule is in. */
  predicate Judges(m: State, e: Event, s: State, rule: Rule, verdict: Option<real>)
    requires e.Op?
  {
    match verdict
    case None => Reaches(m, e, s, AfterRule(rule))
    case Some(score) => Reaches(m, e, s, Guard(rule)) && s.part.proc.score == score
  }

  /** Where a decision leads. */
  predicate Follows(proc: Proc, d: Decision, proc': Proc) {
    match d
    case Go(pc) => proc'.pc == pc && proc'.here == proc.here && proc'.score == proc.score
    case Judgement(rule, verdict) =>
      && proc'.here == proc.here
      && (match verdict
          case None => proc'.pc == AfterRule(rule)
          case Some(score) => proc'.pc == Guard(rule) && proc'.score == score)
    case AtCell(here) => proc'.pc == LocGet && proc'.here == here
    case Priced(member) => proc'.pc == Accrue && proc'.member == member
    case Muted(rule) => proc'.pc == AfterRule(rule) && proc'.here == proc.here && proc'.score == proc.score
    case Done => proc'.pc == Commit
  }

  lemma ObeyFollows(s: State, d: Decision)
    ensures var s' := Obey(s, d);
            && Follows(s.part.proc, d, s'.part.proc)
            && s'.now == s.now && s'.store == s.store && s'.part.alerts == s.part.alerts
            && s'.part.dlq == s.part.dlq && s'.part.committed == s.part.committed
            && s'.part.proc.cancelled == s.part.proc.cancelled && s'.part.proc.attempt == s.part.proc.attempt
            && s'.part.proc.pos == s.part.proc.pos
  {
  }

  lemma SeenOp(c: Config, trail: Trail, m: State, e: Event, rec: Record)
      returns (trail': Trail, m': State)
    requires e == AsEvent(trail.env(trail.ticks)) && Ends(c, trail, m) && On(c, m, rec, SeenCheck)
    ensures Extends(c, trail, e, trail', m')
    ensures var o, now := e.outcome, m.now + e.dt;
            && Wrote(m, e, m', m.store)
            && (o.Ok? ==> Reaches(m, e, m', if Exists(m.store, SeenKey(rec.id), now) then Commit else Count))
  {
    trail', m' := AdvanceHandle(c, trail, m, e, rec);
    if e.outcome.Ok? {
      SuccessObeys(c, m, e, rec);
    } else {
      ErrorBreaks(c, m, e, rec);
    }
  }

  lemma CountOp(c: Config, trail: Trail, m: State, e: Event, rec: Record)
      returns (trail': Trail, m': State)
    requires e == AsEvent(trail.env(trail.ticks)) && Ends(c, trail, m) && On(c, m, rec, Count)
    ensures Extends(c, trail, e, trail', m')
    ensures var o, now := e.outcome, m.now + e.dt;
            var store := SlideKey(m.store, VelocityKey(rec.caller), rec.id, rec.Ms(), c.velocityWindowMs, now);
            && Wrote(m, e, m', store)
            && (o.Ok? ==>
                  Judges(m, e, m', Velocity,
                         VelocityVerdict(c.velocityThreshold, |MembersIn(store[VelocityKey(rec.caller)].value)|)))
  {
    trail', m' := AdvanceHandle(c, trail, m, e, rec);
    if e.outcome.Ok? {
      SuccessObeys(c, m, e, rec);
    } else {
      ErrorBreaks(c, m, e, rec);
    }
  }

  lemma GuardOp(c: Config, trail: Trail, m: State, e: Event, rec: Record, rule: Rule)
      returns (trail': Trail, m': State)
    requires e == AsEvent(trail.env(trail.ticks)) && Ends(c, trail, m) && On(c, m, rec, Guard(rule))
    ensures Extends(c, trail, e, trail', m')
    ensures var o, now := e.outcome, m.now + e.dt;
            && Wrote(m, e, m', m.store)
            && (o.Ok? ==>
                  Reaches(m, e, m', if Exists(m.store, AlertedKey(rule, rec.caller), now) then AfterRule(rule) else Emit(rule)))
            && m'.part.proc.score == m.part.proc.score && m'.part.proc.here == m.part.proc.here
  {
    trail', m' := AdvanceHandle(c, trail, m, e, rec);
    if e.outcome.Ok? {
      SuccessObeys(c, m, e, rec);
    } else {
      ErrorBreaks(c, m, e, rec);
    }
  }

  lemma EmitOp(c: Config, trail: Trail, m: State, e: Event, rec: Record, rule: Rule)
      returns (trail': Trail, m': State)
    requires e == AsEvent(trail.env(trail.ticks)) && Ends(c, trail, m) && On(c, m, rec, Emit(rule))
    ensures Extends(c, trail, e, trail', m')
    ensures var o, now := e.outcome, m.now + e.dt;
            && Keeps(m, e, m') && m'.store == m.store
            && m'.part.alerts == (if o.FailBefore? then m.part.alerts
                                  else m.part.alerts + [Emission(AlertFor(rec, rule, m.part.proc.score), now)])
            && (if o.Ok? then Reaches(m, e, m', SetFlag(rule)) && On(c, m', rec, SetFlag(rule)) else Broken(m, e, m'))
            && m'.part.proc.here == m.part.proc.here
  {
    trail', m' := AdvanceHandle(c, trail, m, e, rec);
    if e.outcome.Ok? {
      SuccessObeys(c, m, e, rec);
    } else {
      ErrorBreaks(c, m, e, rec);
    }
  }

  lemma SetFlagOp(c: Config, trail: Trail, m: State, e: Event, rec: Record, rule: Rule)
      returns (trail': Trail, m': State)
    requires e == AsEvent(trail.env(trail.ticks)) && Ends(c, trail, m) && On(c, m, rec, SetFlag(rule))
    ensures Extends(c, trail, e, trail', m')
    ensures var o, now := e.outcome, m.now + e.dt;
            && Wrote(m, e, m', Set(m.store, AlertedKey(rule, rec.caller), Flag, now, c.cooldownMs))
            && (o.Ok? ==> Reaches(m, e, m', AfterRule(rule)))
            && m'.part.proc.here == m.part.proc.here
  {
    trail', m' := AdvanceHandle(c, trail, m, e, rec);
    if e.outcome.Ok? {
      SuccessObeys(c, m, e, rec);
    } else {
      ErrorBreaks(c, m, e, rec);
    }
  }

  lemma CellOp(c: Config, trail: Trail, m: State, e: Event, rec: Record)
      returns (trail': Trail, m': State)
    requires e == AsEvent(trail.env(trail.ticks)) && Ends(c, trail, m) && On(c, m, rec, Cell)
    ensures Extends(c, trail, e, trail', m')
    ensures var o, now := e.outcome, m.now + e.dt;
            && Keeps(m, e, m') && m'.store == m.store && m'.part.alerts == m.part.alerts
            && (if o.Ok? && rec.cell in c.cells
                then Reaches(m, e, m', LocGet) && m'.part.proc.here == c.cells[rec.cell]
                else Reaches(m, e, m', Tariff))
  {
    trail', m' := AdvanceHandle(c, trail, m, e, rec);
  }

  lemma LocGetOp(c: Config, trail: Trail, m: State, e: Event, rec: Record)
      returns (trail': Trail, m': State)
    requires e == AsEvent(trail.env(trail.ticks)) && Ends(c, trail, m) && On(c, m, rec, LocGet)
    ensures Extends(c, trail, e, trail', m')
    ensures var o, now := e.outcome, m.now + e.dt;
            var key := LastLocKey(rec.caller);
            && Wrote(m, e, m', m.store)
            && m'.part.proc.here == m.part.proc.here
            && (o.Ok? ==>
                  Judges(m, e, m', ImpossibleTravel,
                         if Exists(m.store, key, now)
                         then LocationVerdict(c, m.store[key].value, m.part.proc.here, rec.startNs) else None))
  {
    trail', m' := AdvanceHandle(c, trail, m, e, rec);
    if e.outcome.Ok? {
      SuccessObeys(c, m, e, rec);
    } else {
      ErrorBreaks(c, m, e, rec);
    }
  }

  lemma LocSetOp(c: Config, trail: Trail, m: State, e: Event, rec: Record)
      returns (trail': Trail, m': State)
    requires e == AsEvent(trail.env(trail.ticks)) && Ends(c, trail, m) && On(c, m, rec, LocSet)
    ensures Extends(c, trail, e, trail', m')
    ensures var o, now := e.outcome, m.now + e.dt;
            && Wrote(m, e, m', Set(m.store, LastLocKey(rec.caller), Place(Location(m.part.proc.here, rec.startNs)),
                                   now, LAST_LOC_TTL_MS))
            && (o.Ok? ==> Reaches(m, e, m', Tariff))
  {
    trail', m' := AdvanceHandle(c, trail, m, e, rec);
    if e.outcome.Ok? {
      SuccessObeys(c, m, e, rec);
    } else {
      ErrorBreaks(c, m, e, rec);
    }
  }

  lemma TariffOp(c: Config, trail: Trail, m: State, e: Event, rec: Record)
      returns (trail': Trail, m': State)
    requires e == AsEvent(trail.env(trail.ticks)) && Ends(c, trail, m) && On(c, m, rec, Tariff)
    ensures Extends(c, trail, e, trail', m')
    ensures var o, now := e.outcome, m.now + e.dt;
            && Keeps(m, e, m') && m'.store == m.store && m'.part.alerts == m.part.alerts
            && (if o.Ok? && c.TariffOf(rec).premium
                then Reaches(m, e, m', Accrue) && m'.part.proc.member == MemberFor(rec, c.TariffOf(rec).ratePerMin)
                else Reaches(m, e, m', Mark))
  {
    trail', m' := AdvanceHandle(c, trail, m, e, rec);
  }

  /** After the spend pipeline the machine judges the total of what the pipeline left. */
  lemma AccrueDecides(c: Config, store: Store, now: int, proc: Proc, rec: Record)
    requires proc.pc == Accrue && SpendKey(rec.caller) in store
    ensures Decide(c, store, now, proc, rec)
            == Judgement(Irsf, IrsfVerdict(c.irsfThreshold, Spend.SpendOf(MembersIn(store[SpendKey(rec.caller)].value).Keys)))
  {
  }

  lemma AccrueOp(c: Config, trail: Trail, m: State, e: Event, rec: Record)
      returns (trail': Trail, m': State)
    requires e == AsEvent(trail.env(trail.ticks)) && Ends(c, trail, m) && On(c, m, rec, Accrue)
    ensures Extends(c, trail, e, trail', m')
    ensures var store := SlideKey(m.store, SpendKey(rec.caller), m.part.proc.member, rec.Ms(), c.irsfWindowMs, m.now + e.dt);
            && Wrote(m, e, m', store)
            && (e.outcome.Ok? ==>
                  Judges(m, e, m', Irsf,
                         IrsfVerdict(c.irsfThreshold, Spend.SpendOf(MembersIn(store[SpendKey(rec.caller)].value).Keys))))
  {
    trail', m' := AdvanceHandle(c, trail, m, e, rec);
    var store := SlideKey(m.store, SpendKey(rec.caller), m.part.proc.member, rec.Ms(), c.irsfWindowMs, m.now + e.dt);
    assert Written(c, m.part.proc, m.store, m.now + e.dt, rec) == store;
    if e.outcome.Ok? {
      AccrueDecides(c, store, m.now + e.dt, m.part.proc, rec);
      SuccessObeys(c, m, e, rec);
    } else {
      ErrorBreaks(c, m, e, rec);
    }
  }

  lemma MarkOp(c: Config, trail: Trail, m: State, e: Event, rec: Record)
      returns (trail': Trail, m': State)
    requires e == AsEvent(trail.env(trail.ticks)) && Ends(c, trail, m) && On(c, m, rec, Mark)
    ensures Extends(c, trail, e, trail', m')
    ensures var o, now := e.outcome, m.now + e.dt;
            && Wrote(m, e, m', Set(m.store, SeenKey(rec.id), Flag, now, c.SeenTtlMs()))
            && (o.Ok? ==> Reaches(m, e, m', Commit))
  {
    trail', m' := AdvanceHandle(c, trail, m, e, rec);
    if e.outcome.Ok? {
      SuccessObeys(c, m, e, rec);
    } else {
      ErrorBreaks(c, m, e, rec);
    }
  }

  // ---- the loop around handle -----------------------------------------------------------------------------

  /** Neither Redis nor the alert topic is touched around handle. */
  predicate Around(m: State, e: Event, s: State)
    requires e.Op?
  {
    && s.now == m.now + e.dt && s.store == m.store && s.part.alerts == m.part.alerts
    && s.part.proc.cancelled == (m.part.proc.cancelled || e.cancel)
  }

  lemma FetchOp(c: Config, trail: Trail, m: State, e: Event)
      returns (trail': Trail, m': State)
    requires e == AsEvent(trail.env(trail.ticks)) && Ends(c, trail, m) && m.part.proc.pc.Fetch?
    ensures Extends(c, trail, e, trail', m')
    ensures var o, pos := e.outcome, m.part.proc.pos;
            && Around(m, e, m') && m'.part.dlq == m.part.dlq && m'.part.committed == m.part.committed
            && m'.part.proc.pos == pos
            && m'.part.proc.pc == (if !o.Ok? || pos >= |c.log| then Fetch
                                   else if c.log[pos].Unparseable? then Commit else SeenCheck)
            && (m'.part.proc.pc.SeenCheck? ==> m'.part.proc.attempt == 1)
  {
    trail', m' := Advance(c, trail, m, e);
  }

  lemma BackoffOp(c: Config, trail: Trail, m: State, e: Event)
      returns (trail': Trail, m': State)
    requires e == AsEvent(trail.env(trail.ticks)) && Ends(c, trail, m) && m.part.proc.pc.Backoff?
    ensures Extends(c, trail, e, trail', m')
    ensures var o, proc := e.outcome, m.part.proc;
            && Around(m, e, m') && m'.part.dlq == m.part.dlq && m'.part.committed == m.part.committed
            && m'.part.proc.cause == proc.cause && Next(m'.part.proc) == Next(proc)
            && m'.part.proc.pc == (if (proc.cancelled || e.cancel) && !o.Ok? then Fetch
                                   else if proc.attempt < c.maxAttempts then SeenCheck else DeadLetter)
            && (m'.part.proc.pc.SeenCheck? ==> m'.part.proc.attempt == proc.attempt + 1)
  {
    trail', m' := Advance(c, trail, m, e);
  }

  lemma DeadLetterOp(c: Config, trail: Trail, m: State, e: Event, message: Message)
      returns (trail': Trail, m': State)
    requires e == AsEvent(trail.env(trail.ticks)) && Ends(c, trail, m)
    requires m.part.proc.pc.DeadLetter? && OnMessage(c, m.part.proc, message)
    ensures Extends(c, trail, e, trail', m')
    ensures var o, proc := e.outcome, m.part.proc;
            && Around(m, e, m') && m'.part.committed == m.part.committed
            && m'.part.dlq == (if o.FailBefore? then m.part.dlq else m.part.dlq + [DeadRecord(message, proc.cause)])
            && Next(m'.part.proc) == Next(proc) && m'.part.proc.cause == proc.cause
            && m'.part.proc.pc == (if o.Ok? then Commit else Fetch)
  {
    trail', m' := Advance(c, trail, m, e);
  }

  lemma CommitOp(c: Config, trail: Trail, m: State, e: Event)
      returns (trail': Trail, m': State)
    requires e == AsEvent(trail.env(trail.ticks)) && Ends(c, trail, m) && m.part.proc.pc.Commit?
    ensures Extends(c, trail, e, trail', m')
    ensures var o, proc := e.outcome, m.part.proc;
            && Around(m, e, m') && m'.part.dlq == m.part.dlq
            && m'.part.committed == (if o.FailBefore? then m.part.committed else proc.pos + 1)
            && m'.part.proc.pc.Fetch? && m'.part.proc.pos == proc.pos + 1
  {
    trail', m' := Advance(c, trail, m, e);
  }
}
