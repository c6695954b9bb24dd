/** handle without faults, in one piece, and the proof that the state machine does just that when every operation
    succeeds and the clock stands still. */
module CleanRun {
  import opened Cdr
  import opened Rules
  import opened Redis
  import opened Pipeline

  datatype Result = Result(store: Store, alerts: seq<Alert>)

  function Flagging(c: Config, store: Store, now: int, rec: Record, rule: Rule, verdict: Option<real>): Result {
    var key := AlertedKey(rule, rec.caller);
    match verdict
    case None => Result(store, [])
    case Some(score) =>
      if Exists(store, key, now) then Result(store, [])
      else Result(Set(store, key, Flag, now, c.cooldownMs), [AlertFor(rec, rule, score)])
  }

  function CleanVelocity(c: Config, store: Store, now: int, rec: Record): Result {
    var key := VelocityKey(rec.caller);
    var counted := SlideKey(store, key, rec.id, rec.Ms(), c.velocityWindowMs, now);
    Flagging(c, counted, now, rec, Velocity, VelocityVerdict(c.velocityThreshold, |MembersIn(counted[key].value)|))
  }

  function LastVerdict(c: Config, store: Store, now: int, rec: Record): Option<real>
    requires rec.cell in c.cells
  {
    var key := LastLocKey(rec.caller);
    if Exists(store, key, now) then LocationVerdict(c, store[key].value, c.cells[rec.cell], rec.startNs) else None
  }

  function CleanTravel(c: Config, store: Store, now: int, rec: Record): Result {
    if rec.cell !in c.cells then Result(store, [])
    else
      var flagged := Flagging(c, store, now, rec, ImpossibleTravel, LastVerdict(c, store, now, rec));
      var here := Place(Location(c.cells[rec.cell], rec.startNs));
      flagged.(store := Set(flagged.store, LastLocKey(rec.caller), here, now, LAST_LOC_TTL_MS))
  }

  ghost function CleanIrsf(c: Config, store: Store, now: int, rec: Record): Result {
    var key, t := SpendKey(rec.caller), c.TariffOf(rec);
    if !t.premium then Result(store, [])
    else
      var charged := SlideKey(store, key, MemberFor(rec, t.ratePerMin), rec.Ms(), c.irsfWindowMs, now);
      Flagging(c, charged, now, rec, Irsf,
               IrsfVerdict(c.irsfThreshold, Spend.SpendOf(MembersIn(charged[key].value).Keys)))
  }

  ghost function CleanHandle(c: Config, store: Store, now: int, rec: Record): Result {
    if Exists(store, SeenKey(rec.id), now) then Result(store, [])
    else
      var first := CleanVelocity(c, store, now, rec);
      var second := CleanTravel(c, first.store, now, rec);
      var third := CleanIrsf(c, second.store, now, rec);
      Result(Set(third.store, SeenKey(rec.id), Flag, now, c.SeenTtlMs()), first.alerts + second.alerts + third.alerts)
  }

  // ---- the machine does it --------------------------------------------------------------------------------

  const SMOOTH := Op(0, false, Ok)

  predicate Smooth(events: seq<Event>) {
    forall e | e in events :: e == SMOOTH
  }

  function Stamped(alerts: seq<Alert>, now: int): (r: seq<Emission>)
    ensures |r| == |alerts|
  {
    seq(|alerts|, i requires 0 <= i < |alerts| => Emission(alerts[i], now))
  }

  lemma StampedConcat(a: seq<Alert>, b: seq<Alert>, now: int)
    ensures Stamped(a + b, now) == Stamped(a, now) + Stamped(b, now)
  {
  }

  /** From s to s' the record stays, the clock stands still, and this store and these alerts come about. */
  predicate Progressed(s: State, s': State, pc: PC, store: Store, alerts: seq<Alert>) {
    && s'.now == s.now && s'.store == store
    && s'.part.proc.pc == pc && s'.part.proc.pos == s.part.proc.pos && s'.part.proc.holes == s.part.proc.holes
    && s'.part.committed == s.part.committed
    && s'.part.alerts == s.part.alerts + Stamped(alerts, s.now)
    && ResolvesOnly(s.part, s'.part)
  }

  /** Of the messages, at most the one at hand has been handled since. */
  predicate ResolvesOnly(part: Part, part': Part) {
    part'.hist.dead == part.hist.dead && part'.hist.handled <= part.hist.handled + {part.proc.pos}
  }

  lemma ProgressedTwice(a: State, b: State, d: State, pc: PC, pc': PC, store: Store, store': Store,
                        first: seq<Alert>, second: seq<Alert>)
    requires Progressed(a, b, pc, store, first) && Progressed(b, d, pc', store', second)
    ensures Progressed(a, d, pc', store', first + second)
  {
    StampedConcat(first, second, a.now);
  }

  lemma StepOnRecord(c: Config, s: State, rec: Record)
    requires OnMessage(c, s.part.proc, Parsed(rec)) && InHandle(s.part.proc.pc)
    ensures Step(c, s, SMOOTH) == Continue(c, Effect(c, s, rec), rec)
  {
    assert Arrive(s, SMOOTH) == s;
  }

  lemma GuardMoves(c: Config, s: State, rec: Record, rule: Rule)
    requires OnMessage(c, s.part.proc, Parsed(rec)) && s.part.proc.pc == Guard(rule)
    ensures var live := Exists(s.store, AlertedKey(rule, rec.caller), s.now);
            var s' := Step(c, s, SMOOTH);
            Progressed(s, s', if live then AfterRule(rule) else Emit(rule), s.store, [])
            && s'.part.proc.score == s.part.proc.score && s'.part.proc.here == s.part.proc.here
  {
    StepOnRecord(c, s, rec);
  }

  lemma EmitMoves(c: Config, s: State, rec: Record, rule: Rule)
    requires OnMessage(c, s.part.proc, Parsed(rec)) && s.part.proc.pc == Emit(rule)
    ensures Progressed(s, Step(c, s, SMOOTH), SetFlag(rule), s.store, [AlertFor(rec, rule, s.part.proc.score)])
    ensures Step(c, s, SMOOTH).part.proc.here == s.part.proc.here
  {
    StepOnRecord(c, s, rec);
    assert Stamped([AlertFor(rec, rule, s.part.proc.score)], s.now)
           == [Emission(AlertFor(rec, rule, s.part.proc.score), s.now)];
  }

  lemma SetFlagMoves(c: Config, s: State, rec: Record, rule: Rule)
    requires OnMessage(c, s.part.proc, Parsed(rec)) && s.part.proc.pc == SetFlag(rule)
    ensures Progressed(s, Step(c, s, SMOOTH), AfterRule(rule),
                       Set(s.store, AlertedKey(rule, rec.caller), Flag, s.now, c.cooldownMs), [])
    ensures Step(c, s, SMOOTH).part.proc.here == s.part.proc.here
  {
    StepOnRecord(c, s, rec);
  }

  lemma RunSteps(c: Config, s: State)
    ensures Run(c, s, []) == s
    ensures Run(c, s, [SMOOTH]) == Step(c, s, SMOOTH)
    ensures Run(c, s, [SMOOTH, SMOOTH]) == Step(c, Step(c, s, SMOOTH), SMOOTH)
    ensures Run(c, s, [SMOOTH, SMOOTH, SMOOTH]) == Step(c, Step(c, Step(c, s, SMOOTH), SMOOTH), SMOOTH)
  {
    RunOneMore(c, s, [], SMOOTH);
    RunOneMore(c, s, [SMOOTH], SMOOTH);
    RunOneMore(c, s, [SMOOTH, SMOOTH], SMOOTH);
    assert [] + [SMOOTH] == [SMOOTH];
    assert [SMOOTH] + [SMOOTH] == [SMOOTH, SMOOTH];
    assert [SMOOTH, SMOOTH] + [SMOOTH] == [SMOOTH, SMOOTH, SMOOTH];
  }

  /** The machine, past a verdict, does what maybeEmit does. */
  lemma FlaggingRuns(c: Config, s: State, rec: Record, rule: Rule, verdict: Option<real>) returns (events: seq<Event>)
    requires OnMessage(c, s.part.proc, Parsed(rec))
    ensures Smooth(events)
    ensures var r := Flagging(c, s.store, s.now, rec, rule, verdict);
            var s' := Run(c, Judge(s, rule, verdict), events);
            Progressed(s, s', AfterRule(rule), r.store, r.alerts) && s'.part.proc.here == s.part.proc.here
  {
    var s0 := Judge(s, rule, verdict);
    RunSteps(c, s0);
    if verdict.None? {
      events := [];
    } else {
      GuardMoves(c, s0, rec, rule);
      var s1 := Step(c, s0, SMOOTH);
      if Exists(s.store, AlertedKey(rule, rec.caller), s.now) {
        events := [SMOOTH];
      } else {
        EmitMoves(c, s1, rec, rule);
        var s2 := Step(c, s1, SMOOTH);
        SetFlagMoves(c, s2, rec, rule);
        var alert := AlertFor(rec, rule, verdict.value);
        ProgressedTwice(s0, s1, s2, Emit(rule), SetFlag(rule), s.store, s.store, [], [alert]);
        assert [] + [alert] == [alert] && [alert] + [] == [alert];
        ProgressedTwice(s0, s2, Step(c, s2, SMOOTH), SetFlag(rule), AfterRule(rule), s.store,
                        Set(s.store, AlertedKey(rule, rec.caller), Flag, s.now, c.cooldownMs), [alert], []);
        events := [SMOOTH, SMOOTH, SMOOTH];
      }
    }
  }

  lemma {:induction false} RunFirst(c: Config, s: State, e: Event, events: seq<Event>)
    ensures Run(c, s, [e] + events) == Run(c, Step(c, s, e), events)
  {
    RunConcat(c, s, [e], events);
    RunOneMore(c, s, [], e);
    assert [] + [e] == [e];
  }

  lemma VelocityRuns(c: Config, s: State, rec: Record) returns (events: seq<Event>)
    requires OnMessage(c, s.part.proc, Parsed(rec)) && s.part.proc.pc == Count
    ensures Smooth(events)
    ensures var r := CleanVelocity(c, s.store, s.now, rec); Progressed(s, Run(c, s, events), Cell, r.store, r.alerts)
  {
    var key := VelocityKey(rec.caller);
    var counted := SlideKey(s.store, key, rec.id, rec.Ms(), c.velocityWindowMs, s.now);
    var verdict := VelocityVerdict(c.velocityThreshold, |MembersIn(counted[key].value)|);
    StepOnRecord(c, s, rec);
    var s1 := s.(store := counted);
    assert Effect(c, s, rec) == s1;
    assert Step(c, s, SMOOTH) == Judge(s1, Velocity, verdict);
    events := FlaggingRuns(c, s1, rec, Velocity, verdict);
    RunFirst(c, s, SMOOTH, events);
    events := [SMOOTH] + events;
  }

  lemma LocSetMoves(c: Config, s: State, rec: Record)
    requires OnMessage(c, s.part.proc, Parsed(rec)) && s.part.proc.pc == LocSet
    ensures Progressed(s, Step(c, s, SMOOTH), Tariff,
                       Set(s.store, LastLocKey(rec.caller), Place(Location(s.part.proc.here, rec.startNs)), s.now,
                           LAST_LOC_TTL_MS), [])
  {
    StepOnRecord(c, s, rec);
  }

  lemma CellMoves(c: Config, s: State, rec: Record)
    requires OnMessage(c, s.part.proc, Parsed(rec)) && s.part.proc.pc == Cell
    ensures var s' := Step(c, s, SMOOTH);
            && Progressed(s, s', if rec.cell in c.cells then LocGet else Tariff, s.store, [])
            && (rec.cell in c.cells ==> s'.part.proc.here == c.cells[rec.cell])
  {
    StepOnRecord(c, s, rec);
  }

  lemma TravelRuns(c: Config, s: State, rec: Record) returns (events: seq<Event>)
    requires OnMessage(c, s.part.proc, Parsed(rec)) && s.part.proc.pc == Cell
    ensures Smooth(events)
    ensures var r := CleanTravel(c, s.store, s.now, rec); Progressed(s, Run(c, s, events), Tariff, r.store, r.alerts)
  {
    CellMoves(c, s, rec);
    RunSteps(c, s);
    var s1 := Step(c, s, SMOOTH);
    if rec.cell !in c.cells {
      events := [SMOOTH];
    } else {
      events := LocationRuns(c, s1, rec);
      RunFirst(c, s, SMOOTH, events);
      var r := CleanTravel(c, s.store, s.now, rec);
      ProgressedTwice(s, s1, Run(c, s1, events), LocGet, Tariff, s.store, r.store, [], r.alerts);
      assert [] + r.alerts == r.alerts;
      events := [SMOOTH] + events;
    }
  }

  lemma LocationRuns(c: Config, s: State, rec: Record) returns (events: seq<Event>)
    requires OnMessage(c, s.part.proc, Parsed(rec)) && s.part.proc.pc == LocGet
    requires rec.cell in c.cells && s.part.proc.here == c.cells[rec.cell]
    ensures Smooth(events)
    ensures var r := CleanTravel(c, s.store, s.now, rec); Progressed(s, Run(c, s, events), Tariff, r.store, r.alerts)
  {
    var verdict := LastVerdict(c, s.store, s.now, rec);
    StepOnRecord(c, s, rec);
    assert Effect(c, s, rec) == s;
    assert Step(c, s, SMOOTH) == Judge(s, ImpossibleTravel, verdict);
    var more := FlaggingRuns(c, s, rec, ImpossibleTravel, verdict);
    var s1 := Run(c, Judge(s, ImpossibleTravel, verdict), more);
    LocSetMoves(c, s1, rec);
    RunOneMore(c, Judge(s, ImpossibleTravel, verdict), more, SMOOTH);
    RunFirst(c, s, SMOOTH, more + [SMOOTH]);
    var flagged, r := Flagging(c, s.store, s.now, rec, ImpossibleTravel, verdict), CleanTravel(c, s.store, s.now, rec);
    ProgressedTwice(s, s1, Step(c, s1, SMOOTH), LocSet, Tariff, flagged.store, r.store, flagged.alerts, []);
    assert flagged.alerts + [] == r.alerts;
    events := [SMOOTH] + (more + [SMOOTH]);
  }

  lemma TariffMoves(c: Config, s: State, rec: Record)
    requires OnMessage(c, s.part.proc, Parsed(rec)) && s.part.proc.pc == Tariff
    ensures var s', t := Step(c, s, SMOOTH), c.TariffOf(rec);
            && Progressed(s, s', if t.premium then Accrue else Mark, s.store, [])
            && (t.premium ==> s'.part.proc.member == MemberFor(rec, t.ratePerMin))
  {
    StepOnRecord(c, s, rec);
  }

  lemma IrsfRuns(c: Config, s: State, rec: Record) returns (events: seq<Event>)
    requires OnMessage(c, s.part.proc, Parsed(rec)) && s.part.proc.pc == Tariff
    ensures Smooth(events)
    ensures var r := CleanIrsf(c, s.store, s.now, rec); Progressed(s, Run(c, s, events), Mark, r.store, r.alerts)
  {
    TariffMoves(c, s, rec);
    RunSteps(c, s);
    if !c.TariffOf(rec).premium {
      events := [SMOOTH];
    } else {
      var s1 := Step(c, s, SMOOTH);
      events := ChargeRuns(c, s1, rec);
      RunFirst(c, s, SMOOTH, events);
      var r := CleanIrsf(c, s.store, s.now, rec);
      ProgressedTwice(s, s1, Run(c, s1, events), Accrue, Mark, s.store, r.store, [], r.alerts);
      assert [] + r.alerts == r.alerts;
      events := [SMOOTH] + events;
    }
  }

  lemma ChargeRuns(c: Config, s: State, rec: Record) returns (events: seq<Event>)
    requires OnMessage(c, s.part.proc, Parsed(rec)) && s.part.proc.pc == Accrue
    requires c.TariffOf(rec).premium && s.part.proc.member == MemberFor(rec, c.TariffOf(rec).ratePerMin)
    ensures Smooth(events)
    ensures var r := CleanIrsf(c, s.store, s.now, rec); Progressed(s, Run(c, s, events), Mark, r.store, r.alerts)
  {
    var key := SpendKey(rec.caller);
    var charged := SlideKey(s.store, key, s.part.proc.member, rec.Ms(), c.irsfWindowMs, s.now);
    var verdict := IrsfVerdict(c.irsfThreshold, Spend.SpendOf(MembersIn(charged[key].value).Keys));
    StepOnRecord(c, s, rec);
    var s1 := s.(store := charged);
    assert Effect(c, s, rec) == s1;
    assert Step(c, s, SMOOTH) == Judge(s1, Irsf, verdict);
    events := FlaggingRuns(c, s1, rec, Irsf, verdict);
    RunFirst(c, s, SMOOTH, events);
    events := [SMOOTH] + events;
  }

  lemma SeenMoves(c: Config, s: State, rec: Record)
    requires OnMessage(c, s.part.proc, Parsed(rec)) && s.part.proc.pc == SeenCheck
    ensures var seen := Exists(s.store, SeenKey(rec.id), s.now);
            Progressed(s, Step(c, s, SMOOTH), if seen then Commit else Count, s.store, [])
  {
    StepOnRecord(c, s, rec);
  }

  lemma MarkMoves(c: Config, s: State, rec: Record)
    requires OnMessage(c, s.part.proc, Parsed(rec)) && s.part.proc.pc == Mark
    ensures Progressed(s, Step(c, s, SMOOTH), Commit, Set(s.store, SeenKey(rec.id), Flag, s.now, c.SeenTtlMs()), [])
  {
    StepOnRecord(c, s, rec);
  }

  lemma ThreeRulesRun(c: Config, s: State, rec: Record) returns (events: seq<Event>)
    requires OnMessage(c, s.part.proc, Parsed(rec)) && s.part.proc.pc == Count
    ensures Smooth(events)
    ensures var first := CleanVelocity(c, s.store, s.now, rec);
            var second := CleanTravel(c, first.store, s.now, rec);
            var third := CleanIrsf(c, second.store, s.now, rec);
            Progressed(s, Run(c, s, events), Mark, third.store, first.alerts + second.alerts + third.alerts)
  {
    var first := CleanVelocity(c, s.store, s.now, rec);
    var second := CleanTravel(c, first.store, s.now, rec);
    var third := CleanIrsf(c, second.store, s.now, rec);
    var e1 := VelocityRuns(c, s, rec);
    var s1 := Run(c, s, e1);
    var e2 := TravelRuns(c, s1, rec);
    RunConcat(c, s, e1, e2);
    var s2 := Run(c, s1, e2);
    ProgressedTwice(s, s1, s2, Cell, Tariff, first.store, second.store, first.alerts, second.alerts);
    var e3 := IrsfRuns(c, s2, rec);
    RunConcat(c, s, e1 + e2, e3);
    ProgressedTwice(s, s2, Run(c, s2, e3), Tariff, Mark, second.store, third.store, first.alerts + second.alerts, third.alerts);
    events := e1 + e2 + e3;
  }

  lemma RestOfHandle(c: Config, s: State, rec: Record) returns (events: seq<Event>)
    requires OnMessage(c, s.part.proc, Parsed(rec)) && s.part.proc.pc == Count && !Exists(s.store, SeenKey(rec.id), s.now)
    ensures Smooth(events)
    ensures var r := CleanHandle(c, s.store, s.now, rec); Progressed(s, Run(c, s, events), Commit, r.store, r.alerts)
  {
    var more := ThreeRulesRun(c, s, rec);
    var s' := Run(c, s, more);
    var r := CleanHandle(c, s.store, s.now, rec);
    MarkMoves(c, s', rec);
    RunOneMore(c, s, more, SMOOTH);
    ProgressedTwice(s, s', Step(c, s', SMOOTH), Mark, Commit, s'.store, r.store, r.alerts, []);
    assert r.alerts + [] == r.alerts;
    events := more + [SMOOTH];
  }

  lemma SkipRuns(c: Config, s: State, rec: Record)
    requires OnMessage(c, s.part.proc, Parsed(rec)) && s.part.proc.pc == SeenCheck && Exists(s.store, SeenKey(rec.id), s.now)
    ensures Progressed(s, Run(c, s, [SMOOTH]), Commit, s.store, [])
  {
    SeenMoves(c, s, rec);
    RunSteps(c, s);
  }

  lemma FullRuns(c: Config, s: State, rec: Record) returns (events: seq<Event>)
    requires OnMessage(c, s.part.proc, Parsed(rec)) && s.part.proc.pc == SeenCheck && !Exists(s.store, SeenKey(rec.id), s.now)
    ensures Smooth(events)
    ensures var r := CleanHandle(c, s.store, s.now, rec); Progressed(s, Run(c, s, events), Commit, r.store, r.alerts)
  {
    SeenMoves(c, s, rec);
    var s1 := Step(c, s, SMOOTH);
    var more := RestOfHandle(c, s1, rec);
    RunFirst(c, s, SMOOTH, more);
    var r := CleanHandle(c, s.store, s.now, rec);
    ProgressedTwice(s, s1, Run(c, s1, more), Count, Commit, s.store, r.store, [], r.alerts);
    assert [] + r.alerts == r.alerts;
    events := [SMOOTH] + more;
  }

  lemma HandleRuns(c: Config, s: State, rec: Record) returns (events: seq<Event>)
    requires OnMessage(c, s.part.proc, Parsed(rec)) && s.part.proc.pc == SeenCheck
    ensures Smooth(events)
    ensures var r := CleanHandle(c, s.store, s.now, rec); Progressed(s, Run(c, s, events), Commit, r.store, r.alerts)
  {
    if Exists(s.store, SeenKey(rec.id), s.now) {
      SkipRuns(c, s, rec);
      events := [SMOOTH];
    } else {
      events := FullRuns(c, s, rec);
    }
  }

  lemma FetchMoves(c: Config, s: State, rec: Record)
    requires OnMessage(c, s.part.proc, Parsed(rec)) && s.part.proc.pc == Fetch
    ensures Step(c, s, SMOOTH) == s.(part := s.part.(proc := s.part.proc.(pc := SeenCheck, attempt := 1)))
  {
  }

  predicate Committed(s: State, s': State) {
    && s'.now == s.now && s'.store == s.store && s'.part.alerts == s.part.alerts && s'.part.hist == s.part.hist
    && s'.part.proc.pc == Fetch && s'.part.proc.pos == s'.part.committed == s.part.proc.pos + 1
  }

  lemma CommitMoves(c: Config, s: State)
    requires s.part.proc.pc == Commit
    ensures Committed(s, Step(c, s, SMOOTH))
  {
  }

  /** Fetched, handled and committed. */
  predicate Through(s: State, s': State, r: Result) {
    && s'.now == s.now && s'.store == r.store
    && s'.part.alerts == s.part.alerts + Stamped(r.alerts, s.now) && ResolvesOnly(s.part, s'.part)
    && s'.part.proc.pc == Fetch && s'.part.proc.pos == s'.part.committed == s.part.proc.pos + 1
  }

  lemma StepsThrough(s: State, s1: State, s2: State, s3: State, r: Result)
    requires s1 == s.(part := s.part.(proc := s.part.proc.(pc := SeenCheck, attempt := 1)))
    requires Progressed(s1, s2, Commit, r.store, r.alerts) && Committed(s2, s3)
    ensures Through(s, s3, r)
  {
  }

  /** A record's whole journey, from fetching it to committing it. */
  lemma RecordRuns(c: Config, s: State, rec: Record) returns (events: seq<Event>)
    requires OnMessage(c, s.part.proc, Parsed(rec)) && s.part.proc.pc == Fetch
    ensures Smooth(events) && Through(s, Run(c, s, events), CleanHandle(c, s.store, s.now, rec))
  {
    FetchMoves(c, s, rec);
    var s1 := s.(part := s.part.(proc := s.part.proc.(pc := SeenCheck, attempt := 1)));
    var more := HandleRuns(c, s1, rec);
    var s2 := Run(c, s1, more);
    CommitMoves(c, s2);
    RunOneMore(c, s1, more, SMOOTH);
    RunFirst(c, s, SMOOTH, more + [SMOOTH]);
    StepsThrough(s, s1, s2, Run(c, s1, more + [SMOOTH]), CleanHandle(c, s.store, s.now, rec));
    events := [SMOOTH] + (more + [SMOOTH]);
  }

  // ---- a whole log in one piece ---------------------------------------------------------------------------

  datatype Served = Served(store: Store, alerts: seq<Emission>)

  /** Each record handled in turn, at the moment it starts. */
  ghost function Serve(c: Config, recs: seq<Record>): Served {
    if recs == [] then Served(map[], [])
    else
      var before, last := Serve(c, recs[..|recs| - 1]), recs[|recs| - 1];
      var r := CleanHandle(c, before.store, last.Ms(), last);
      Served(r.store, before.alerts + Stamped(r.alerts, last.Ms()))
  }

  lemma ServeOneMore(c: Config, recs: seq<Record>, rec: Record)
    ensures var before := Serve(c, recs);
            var r := CleanHandle(c, before.store, rec.Ms(), rec);
            Serve(c, recs + [rec]) == Served(r.store, before.alerts + Stamped(r.alerts, rec.Ms()))
  {
    assert (recs + [rec])[..|recs|] == recs;
  }

  function AlertsOf(emissions: seq<Emission>): (alerts: seq<Alert>)
    ensures |alerts| == |emissions|
  {
    seq(|emissions|, i requires 0 <= i < |emissions| => emissions[i].alert)
  }

  lemma AlertsConcat(a: seq<Emission>, alerts: seq<Alert>, now: int)
    ensures AlertsOf(a + Stamped(alerts, now)) == AlertsOf(a) + alerts
  {
  }

  function MessagesOf(recs: seq<Record>): (log: seq<Message>)
    ensures |log| == |recs| && forall i | 0 <= i < |recs| :: log[i] == Parsed(recs[i])
  {
    seq(|recs|, i requires 0 <= i < |recs| => Parsed(recs[i]))
  }
}
