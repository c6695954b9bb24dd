/** The fraud consumer's code (services/fraud/main.go, window.go, spend.go, lastloc.go, dlq.go): structured methods
    with early returns over mutable state, proved to take exactly the steps of the state machine in Pipeline, so that
    whatever holds of every run of the machine holds of the code. */
module Consumer {
  import opened Cdr
  import opened Rules
  import opened Redis
  import opened Pipeline
  import opened ConsumerSteps

  class Processor {
    const c: Config
    const env: Environment
    ghost const start: int

    // Redis, the topics and the committed offset
    var store: Store
    var alerts: seq<Emission>
    var dlq: seq<DeadRecord>
    var committed: nat

    // the clock, the context and the reader
    var now: int
    var cancelled: bool
    var offset: nat      // what FetchMessage returns next
    var ticks: nat       // operations attempted so far

    // the state machine's run and its last state
    ghost var trail: Trail
    ghost var m: State

    ghost predicate Valid()
      reads this
    {
      && c.maxAttempts >= 1
      && trail.env == env && trail.start == start && trail.ticks == ticks && Ends(c, trail, m)
      && m.store == store && m.now == now
      && m.part.alerts == alerts && m.part.dlq == dlq && m.part.committed == committed
      && m.part.proc.cancelled == cancelled
      && Next(m.part.proc) == offset
    }

    /** The consumer is inside handle with this record, about to attempt the given operation. */
    ghost predicate At(rec: Record, pc: PC)
      reads this
    {
      Valid() && On(c, m, rec, pc)
    }

    /** The verdict of this rule is in, and the consumer is about to guard the alert or has gone past the rule. */
    ghost predicate Judging(rec: Record, rule: Rule, verdict: Option<real>)
      reads this
    {
      && Valid()
      && (match verdict
          case None => On(c, m, rec, AfterRule(rule))
          case Some(score) => On(c, m, rec, Guard(rule)) && m.part.proc.score == score)
    }

    /** handle has just returned the error of this operation. */
    ghost predicate Failed(cause: PC)
      reads this
    {
      Valid() && m.part.proc.cause == cause && m.part.proc.pc == if cancelled then Fetch else Backoff
    }

    ghost predicate Done()
      reads this
    {
      Valid() && m.part.proc.pc == Commit
    }

    /** handle leaves the offsets, the dead letters and the attempt alone. */
    twostate predicate Within()
      reads this
    {
      && offset == old(offset) && dlq == old(dlq) && committed == old(committed)
      && m.part.proc.attempt == old(m.part.proc.attempt)
    }

    constructor (c: Config, env: Environment, now: int)
      requires c.maxAttempts >= 1
      ensures Valid() && this.c == c && this.env == env && this.start == now && m == Init(now)
      ensures store == map[] && alerts == [] && dlq == [] && committed == 0 && offset == 0 && ticks == 0 && trail.events == []
    {
      this.c, this.env, this.start := c, env, now;
      store, alerts, dlq, committed := map[], [], [], 0;
      this.now, cancelled, offset, ticks := now, false, 0, 0;
      m := Init(now);
      ghost var nothing := Begin(c, env, now);
      trail := nothing;
    }

    /** Whatever the code has done so far, the state machine has a run that does it. */
    lemma CodeIsARun()
      requires Valid()
      ensures var s := Run(c, Init(start), trail.events);
              && s == m && s.store == store && s.now == now
              && s.part.alerts == alerts && s.part.dlq == dlq && s.part.committed == committed
      ensures Operations(trail.events) == Schedule(env, ticks)
    {
      TrailIsRun(c, trail, m);
    }

    /** The process dies and starts again: its memory is gone, fetching resumes at the committed offset. */
    method Restart(dt: nat)
      requires Valid()
      modifies this
      ensures Valid() && m.part.proc == Boot(committed) && offset == committed && !cancelled && now == old(now) + dt
      ensures store == old(store) && alerts == old(alerts) && dlq == old(dlq) && committed == old(committed)
      ensures trail.events == old(trail.events) + [Crash(dt)] && ticks == old(ticks)
    {
      ghost var trail', m' := Advance(c, trail, m, Crash(dt));
      now, cancelled, offset := now + dt, false, committed;
      Follow(trail', m');
    }

    /** What the code has just done is the state machine's next step. */
    ghost method Follow(trail': Trail, m': State)
      requires c.maxAttempts >= 1
      requires trail'.env == env && trail'.start == start && trail'.ticks == ticks && Ends(c, trail', m')
      requires m'.store == store && m'.now == now
      requires m'.part.alerts == alerts && m'.part.dlq == dlq && m'.part.committed == committed
      requires m'.part.proc.cancelled == cancelled && Next(m'.part.proc) == offset
      modifies this`trail, this`m
      ensures Valid() && m == m' && trail == trail'
    {
      trail, m := trail', m';
    }

    /** Time passes and the signal may arrive; the outcome of the operation at hand is decided. */
    method Await() returns (o: Outcome)
      requires Valid()
      modifies this`now, this`cancelled, this`ticks
      ensures now == old(now) + env(old(ticks)).dt
      ensures cancelled == (old(cancelled) || env(old(ticks)).cancel)
      ensures o == env(old(ticks)).outcome
      ensures ticks == old(ticks) + 1
    {
      var e := env(ticks);
      now := now + e.dt;
      cancelled := cancelled || e.cancel;
      ticks := ticks + 1;
      o := e.outcome;
    }

    // ---- the Redis client -------------------------------------------------------------------------------------

    /** The transaction ZADD, ZREMRANGEBYSCORE, EXPIRE. */
    method Exec(key: Key, member: string, ms: int, windowMs: int) returns (o: Outcome)
      requires Valid()
      modifies this`now, this`cancelled, this`ticks, this`store
      ensures now == old(now) + env(old(ticks)).dt
      ensures cancelled == (old(cancelled) || env(old(ticks)).cancel)
      ensures o == env(old(ticks)).outcome
      ensures ticks == old(ticks) + 1
      ensures store == if o.FailBefore? then old(store) else SlideKey(old(store), key, member, ms, windowMs, now)
    {
      o := Await();
      if !o.FailBefore? {
        store := SlideKey(store, key, member, ms, windowMs, now);
      }
    }

    method SetValue(key: Key, value: Value, ttlMs: int) returns (o: Outcome)
      requires Valid()
      modifies this`now, this`cancelled, this`ticks, this`store
      ensures now == old(now) + env(old(ticks)).dt
      ensures cancelled == (old(cancelled) || env(old(ticks)).cancel)
      ensures o == env(old(ticks)).outcome
      ensures ticks == old(ticks) + 1
      ensures store == if o.FailBefore? then old(store) else Set(old(store), key, value, now, ttlMs)
    {
      o := Await();
      if !o.FailBefore? {
        store := Set(store, key, value, now, ttlMs);
      }
    }

    // ---- window.go ----------------------------------------------------------------------------------------

    method Seen(rec: Record) returns (already: bool, err: Option<PC>)
      requires At(rec, SeenCheck)
      modifies this
      ensures Within()
      ensures if err.Some? then Failed(err.value) else if already then Done() else At(rec, Count)
    {
      ghost var trail', m' := SeenOp(c, trail, m, AsEvent(env(ticks)), rec);
      var o := Await();
      already, err := Exists(store, SeenKey(rec.id), now), if o.Ok? then None else Some(SeenCheck);
      Follow(trail', m');
    }

    method SlidingWindowCount(rec: Record) returns (count: nat, err: Option<PC>)
      requires At(rec, Count)
      modifies this
      ensures Within()
      ensures if err.Some? then Failed(err.value)
              else Judging(rec, Velocity, VelocityVerdict(c.velocityThreshold, count))
    {
      ghost var trail', m' := CountOp(c, trail, m, AsEvent(env(ticks)), rec);
      var key := VelocityKey(rec.caller);
      var o := Exec(key, rec.id, rec.Ms(), c.velocityWindowMs);
      count, err := if o.Ok? then |MembersIn(store[key].value)| else 0, if o.Ok? then None else Some(Count);
      Follow(trail', m');
    }

    method MarkSeen(rec: Record) returns (err: Option<PC>)
      requires At(rec, Mark)
      modifies this
      ensures Within()
      ensures if err.Some? then Failed(err.value) else Done()
    {
      ghost var trail', m' := MarkOp(c, trail, m, AsEvent(env(ticks)), rec);
      var o := SetValue(SeenKey(rec.id), Flag, c.SeenTtlMs());
      err := if o.Ok? then None else Some(Mark);
      Follow(trail', m');
    }

    // ---- spend.go -----------------------------------------------------------------------------------------

    /** ZRANGE key 0 -1: the members, in some order. */
    method Range(members: set<string>) returns (list: seq<string>)
      ensures Spend.Distinct(list) == members
      ensures forall i, j | 0 <= i < j < |list| :: list[i] != list[j]
    {
      list := [];
      var left := members;
      while left != {}
        invariant Spend.Distinct(list) == members - left && left <= members
        invariant forall i, j | 0 <= i < j < |list| :: list[i] != list[j]
        decreases |left|
      {
        var member :| member in left;
        assert member !in Spend.Distinct(list);
        assert Spend.Distinct(list + [member]) == Spend.Distinct(list) + {member};
        list, left := list + [member], left - {member};
      }
    }

    /** The transaction on the spend window; ZRANGE's reply comes with it. */
    method SpendPipeline(rec: Record, member: string) returns (members: set<string>, err: Option<PC>)
      requires At(rec, Accrue) && member == m.part.proc.member
      modifies this
      ensures Within()
      ensures if err.Some? then Failed(err.value)
              else Judging(rec, Irsf, IrsfVerdict(c.irsfThreshold, Spend.SpendOf(members)))
    {
      ghost var trail', m' := AccrueOp(c, trail, m, AsEvent(env(ticks)), rec);
      var key := SpendKey(rec.caller);
      var o := Exec(key, member, rec.Ms(), c.irsfWindowMs);
      Follow(trail', m');
      err := if o.Ok? then None else Some(Accrue);
      members := if key in store then MembersIn(store[key].value).Keys else {};
    }

    method PremiumSpendInWindow(rec: Record, cost: real) returns (spend: real, err: Option<PC>)
      requires At(rec, Accrue) && m.part.proc.member == Spend.Member(rec.id, Spend.Units(cost))
      modifies this
      ensures Within()
      ensures if err.Some? then Failed(err.value)
              else Judging(rec, Irsf, IrsfVerdict(c.irsfThreshold, spend))
    {
      var members;
      spend := 0.0;
      var member := Spend.Member(rec.id, Spend.Units(cost));
      members, err := SpendPipeline(rec, member);
      if err.Some? {
        return;
      }
      var list := Range(members);
      spend := Spend.SumMembers(list);
    }

    // ---- lastloc.go ---------------------------------------------------------------------------------------

    method GetLastLocation(rec: Record) returns (last: Option<Value>, err: Option<PC>)
      requires At(rec, LocGet)
      modifies this
      ensures Within() && m.part.proc.here == old(m.part.proc.here)
      ensures if err.Some? then Failed(err.value)
              else Judging(rec, ImpossibleTravel,
                           match last case None => None
                                      case Some(value) => LocationVerdict(c, value, m.part.proc.here, rec.startNs))
    {
      ghost var trail', m' := LocGetOp(c, trail, m, AsEvent(env(ticks)), rec);
      var o := Await();
      var key := LastLocKey(rec.caller);
      last, err := if Exists(store, key, now) then Some(store[key].value) else None, if o.Ok? then None else Some(LocGet);
      Follow(trail', m');
    }

    method SetLastLocation(rec: Record, current: Location) returns (err: Option<PC>)
      requires At(rec, LocSet) && current == Location(m.part.proc.here, rec.startNs)
      modifies this
      ensures Within()
      ensures if err.Some? then Failed(err.value) else At(rec, Tariff)
    {
      ghost var trail', m' := LocSetOp(c, trail, m, AsEvent(env(ticks)), rec);
      var o := SetValue(LastLocKey(rec.caller), Place(current), LAST_LOC_TTL_MS);
      err := if o.Ok? then None else Some(LocSet);
      Follow(trail', m');
    }

    // ---- main.go: enrichment ------------------------------------------------------------------------------

    method GetCellGeo(rec: Record) returns (here: Point, err: Option<PC>)
      requires At(rec, Cell)
      modifies this
      ensures Within()
      ensures if err.Some? then At(rec, Tariff) else At(rec, LocGet) && m.part.proc.here == here
    {
      ghost var trail', m' := CellOp(c, trail, m, AsEvent(env(ticks)), rec);
      var o := Await();
      err := if o.Ok? && rec.cell in c.cells then None else Some(Cell);
      here := if err.Some? then Point(0.0, 0.0) else c.cells[rec.cell];
      Follow(trail', m');
    }

    /** The subscriber service's answer. */
    method TariffFor(callee: string) returns (t: TariffCatalog.Tariff)
      ensures t == TariffCatalog.Best(c.tariffs, callee)
      ensures TariffCatalog.Unlisted(c.tariffs, callee) ==> !t.premium
    {
      t := TariffCatalog.Lookup(c.tariffs, callee);
    }

    method GetTariff(rec: Record) returns (premium: bool, rate: real, err: Option<PC>)
      requires At(rec, Tariff)
      modifies this
      ensures Within() && store == old(store) && alerts == old(alerts)
      ensures TariffCatalog.Unlisted(c.tariffs, rec.callee) ==> !premium
      ensures if err.Some? || !premium then At(rec, Mark) else At(rec, Accrue) && m.part.proc.member == MemberFor(rec, rate)
    {
      ghost var trail', m' := TariffOp(c, trail, m, AsEvent(env(ticks)), rec);
      var o := Await();
      var t := TariffFor(rec.callee);
      premium, rate, err := t.premium, t.ratePerMin, if o.Ok? then None else Some(Tariff);
      Follow(trail', m');
    }

    // ---- main.go: maybeEmit and the checks ----------------------------------------------------------------

    method AlertExists(rec: Record, rule: Rule) returns (live: bool, err: Option<PC>)
      requires At(rec, Guard(rule))
      modifies this
      ensures Within() && alerts == old(alerts)
      ensures m.part.proc.score == old(m.part.proc.score) && m.part.proc.here == old(m.part.proc.here)
      ensures if err.Some? then Failed(err.value) else At(rec, if live then AfterRule(rule) else Emit(rule))
    {
      ghost var trail', m' := GuardOp(c, trail, m, AsEvent(env(ticks)), rec, rule);
      var o := Await();
      live, err := Exists(store, AlertedKey(rule, rec.caller), now), if o.Ok? then None else Some(Guard(rule));
      Follow(trail', m');
    }

    method WriteAlert(rec: Record, rule: Rule, score: real) returns (err: Option<PC>)
      requires At(rec, Emit(rule)) && m.part.proc.score == score
      modifies this
      ensures Within() && m.part.proc.here == old(m.part.proc.here)
      ensures alerts == old(alerts) || alerts == old(alerts) + [Emission(AlertFor(rec, rule, score), now)]
      ensures if err.Some? then Failed(err.value) else At(rec, SetFlag(rule))
    {
      ghost var trail', m' := EmitOp(c, trail, m, AsEvent(env(ticks)), rec, rule);
      var o := Await();
      var emission := Emission(AlertFor(rec, rule, score), now);
      if !o.FailBefore? {
        alerts := alerts + [emission];
      }
      err := if o.Ok? then None else Some(Emit(rule));
      Follow(trail', m');
    }

    method SetAlerted(rec: Record, rule: Rule) returns (err: Option<PC>)
      requires At(rec, SetFlag(rule))
      modifies this
      ensures Within() && alerts == old(alerts) && m.part.proc.here == old(m.part.proc.here)
      ensures if err.Some? then Failed(err.value) else At(rec, AfterRule(rule))
    {
      ghost var trail', m' := SetFlagOp(c, trail, m, AsEvent(env(ticks)), rec, rule);
      var o := SetValue(AlertedKey(rule, rec.caller), Flag, c.cooldownMs);
      err := if o.Ok? then None else Some(SetFlag(rule));
      Follow(trail', m');
    }

    /** At most one alert, and the flag only after it. */
    method MaybeEmit(rec: Record, rule: Rule, score: real) returns (err: Option<PC>)
      requires At(rec, Guard(rule)) && m.part.proc.score == score
      modifies this
      ensures Within()
      ensures if err.Some? then Failed(err.value) else At(rec, AfterRule(rule)) && m.part.proc.here == old(m.part.proc.here)
      ensures alerts == old(alerts) ||
              exists at :: alerts == old(alerts) + [Emission(AlertFor(rec, rule, score), at)]
    {
      var live;
      live, err := AlertExists(rec, rule);
      if err.Some? || live {
        return;
      }
      err := WriteAlert(rec, rule, score);
      if err.Some? {
        return;
      }
      err := SetAlerted(rec, rule);
    }

    method CheckVelocity(rec: Record) returns (err: Option<PC>)
      requires At(rec, Count)
      modifies this
      ensures Within()
      ensures if err.Some? then Failed(err.value) else At(rec, Cell)
    {
      var count;
      count, err := SlidingWindowCount(rec);
      if err.Some? {
        return;
      }
      match VelocityVerdict(c.velocityThreshold, count) {
        case Some(score) => err := MaybeEmit(rec, Velocity, score);
        case None => err := None;
      }
    }

    method CheckImpossibleTravel(rec: Record) returns (err: Option<PC>)
      requires At(rec, Cell)
      modifies this
      ensures Within()
      ensures if err.Some? then Failed(err.value) else At(rec, Tariff)
    {
      var here, unavailable := GetCellGeo(rec);
      if unavailable.Some? {
        return None;
      }
      var current := Location(here, rec.startNs);
      var last;
      last, err := GetLastLocation(rec);
      if err.Some? {
        return;
      }
      match last {
        case Some(value) =>
          match LocationVerdict(c, value, here, rec.startNs) {
            case Some(score) =>
              err := MaybeEmit(rec, ImpossibleTravel, score);
              if err.Some? {
                return;
              }
            case None =>
          }
        case None =>
      }
      err := SetLastLocation(rec, current);
    }

    method CheckIRSF(rec: Record) returns (err: Option<PC>)
      requires At(rec, Tariff)
      modifies this
      ensures Within()
      ensures TariffCatalog.Unlisted(c.tariffs, rec.callee) ==> err.None? && store == old(store) && alerts == old(alerts)
      ensures if err.Some? then Failed(err.value) else At(rec, Mark)
    {
      var premium, rate, unavailable := GetTariff(rec);
      if unavailable.Some? || !premium {
        return None;
      }
      var spend;
      spend, err := PremiumSpendInWindow(rec, Spend.Cost(rec.durationSec, rate));
      if err.Some? {
        return;
      }
      match IrsfVerdict(c.irsfThreshold, spend) {
        case Some(score) => err := MaybeEmit(rec, Irsf, score);
        case None => err := None;
      }
    }

    /** The consumer holds this message, whose handling begins. */
    ghost predicate Holds(message: Message)
      reads this
    {
      && Valid() && Fetched(message)
      && match message
         case Unparseable => m.part.proc.pc == Commit
         case Parsed(rec) => m.part.proc.pc == SeenCheck
    }

    ghost predicate Fetched(message: Message)
      reads this
    {
      1 <= offset <= |c.log| && c.log[offset - 1] == message
    }

    method Handle(message: Message) returns (err: Option<PC>)
      requires Holds(message)
      modifies this
      ensures Within()
      ensures if err.Some? then Failed(err.value) && message.Parsed? else Done()
    {
      match message
      case Unparseable =>
        err := None;
      case Parsed(rec) =>
        var already;
        already, err := Seen(rec);
        if err.Some? || already {
          return;
        }
        err := CheckVelocity(rec);
        if err.Some? {
          return;
        }
        err := CheckImpossibleTravel(rec);
        if err.Some? {
          return;
        }
        err := CheckIRSF(rec);
        if err.Some? {
          return;
        }
        err := MarkSeen(rec);
    }

    // ---- dlq.go and the main loop -------------------------------------------------------------------------

    /** The pause between attempts; true if the context ended first. */
    method Pause(message: Message) returns (stopped: bool)
      requires Valid() && Fetched(message) && message.Parsed? && m.part.proc.pc == Backoff
      modifies this
      ensures Valid() && offset == old(offset) && dlq == old(dlq) && committed == old(committed)
      ensures m.part.proc.cause == old(m.part.proc.cause)
      ensures stopped ==> m.part.proc.pc == Fetch && cancelled
      ensures !stopped ==>
                if old(m.part.proc.attempt) < c.maxAttempts
                then Holds(message) && m.part.proc.attempt == old(m.part.proc.attempt) + 1
                else m.part.proc.pc == DeadLetter
    {
      ghost var trail', m' := BackoffOp(c, trail, m, AsEvent(env(ticks)));
      var o := Await();
      stopped := cancelled && !o.Ok?;
      Follow(trail', m');
    }

    method WriteDeadLetter(message: Message, cause: PC) returns (err: Option<PC>)
      requires Valid() && Fetched(message) && m.part.proc.pc == DeadLetter && m.part.proc.cause == cause
      modifies this
      ensures Valid() && offset == old(offset) && committed == old(committed)
      ensures dlq == old(dlq) || dlq == old(dlq) + [DeadRecord(message, cause)]
      ensures m.part.proc.cause == cause
      ensures if err.Some? then m.part.proc.pc == Fetch
              else Done() && dlq == old(dlq) + [DeadRecord(message, cause)]
    {
      ghost var trail', m' := DeadLetterOp(c, trail, m, AsEvent(env(ticks)), message);
      var o := Await();
      if !o.FailBefore? {
        dlq := dlq + [DeadRecord(message, cause)];
      }
      err := if o.Ok? then None else Some(DeadLetter);
      Follow(trail', m');
    }

    /** Bounded retries, then the dead-letter topic. `calls` counts the calls of handle, `succeeded` says that the
        last one returned nil, `cause` is the last error, and `buried` says that the dead-letter write succeeded. */
    method RunWithRetry(message: Message)
      returns (ok: bool, calls: nat, succeeded: bool, cause: PC, buried: bool)
      requires Holds(message) && (message.Parsed? ==> m.part.proc.attempt == 1)
      modifies this
      ensures Valid() && offset == old(offset) && committed == old(committed)
      ensures m.part.proc.pc == if ok then Commit else Fetch
      ensures 1 <= calls <= c.maxAttempts && (ok || cancelled || calls == c.maxAttempts)
      ensures ok <==> succeeded || buried
      ensures dlq == old(dlq) || (dlq == old(dlq) + [DeadRecord(message, cause)] && calls == c.maxAttempts && !succeeded)
      ensures buried ==> dlq == old(dlq) + [DeadRecord(message, cause)]
      ensures !succeeded ==> m.part.proc.cause == cause
    {
      calls, succeeded, cause, buried := 0, false, Fetch, false;
      var attempt := 1;
      while attempt <= c.maxAttempts
        invariant 1 <= attempt <= c.maxAttempts + 1 && calls == attempt - 1
        invariant Valid() && Fetched(message) && offset == old(offset) && committed == old(committed) && dlq == old(dlq)
        invariant attempt <= c.maxAttempts ==> Holds(message) && (message.Parsed? ==> m.part.proc.attempt == attempt)
        invariant attempt > c.maxAttempts ==> m.part.proc.pc == DeadLetter && m.part.proc.cause == cause
      {
        var err := Handle(message);
        calls := calls + 1;
        if err.None? {
          return true, calls, true, cause, false;
        }
        cause := err.value;
        if cancelled {
          return false, calls, false, cause, false;
        }
        var stopped := Pause(message);
        if stopped {
          return false, calls, false, cause, false;
        }
        attempt := attempt + 1;
      }
      var dlqErr := WriteDeadLetter(message, cause);
      buried := dlqErr.None?;
      ok := buried;
    }

    method FetchMessage() returns (message: Option<Message>)
      requires Valid() && m.part.proc.pc == Fetch
      modifies this
      ensures Valid() && dlq == old(dlq) && committed == old(committed)
      ensures match message
              case None => offset == old(offset) && m.part.proc.pc == Fetch
              case Some(value) =>
                && offset == old(offset) + 1 && Holds(value)
                && (value.Parsed? ==> m.part.proc.attempt == 1)
    {
      ghost var trail', m' := FetchOp(c, trail, m, AsEvent(env(ticks)));
      var o := Await();
      if o.Ok? && offset < |c.log| {
        message := Some(c.log[offset]);
        offset := offset + 1;
      } else {
        message := None;
      }
      Follow(trail', m');
    }

    /** The commit covers everything up to the message just handled; its error is only logged. */
    method CommitMessages()
      requires Done()
      modifies this
      ensures Valid() && m.part.proc.pc == Fetch && offset == old(offset) && dlq == old(dlq)
      ensures committed == old(committed) || committed == offset
    {
      ghost var trail', m' := CommitOp(c, trail, m, AsEvent(env(ticks)));
      var o := Await();
      if !o.FailBefore? {
        committed := offset;
      }
      Follow(trail', m');
    }

    /** The main loop, for any number of rounds: it leaves Redis, the topics and the offset exactly as the state
        machine's run of the operations attempted. */
    method Consume(rounds: nat)
      requires Valid() && m.part.proc.pc == Fetch
      modifies this
      ensures Valid() && m.part.proc.pc == Fetch
      ensures var s := Run(c, Init(start), trail.events);
              && s.store == store && s.now == now
              && s.part.alerts == alerts && s.part.dlq == dlq && s.part.committed == committed
    {
      for i := 0 to rounds
        invariant Valid() && m.part.proc.pc == Fetch
      {
        var message := FetchMessage();
        if message.Some? {
          var ok, _, _, _, _ := RunWithRetry(message.value);
          if ok {
            CommitMessages();
          }
        }
      }
      CodeIsARun();
    }
  }
}
