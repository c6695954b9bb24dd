/** The fraud consumer as a restartable state machine over single Redis and Kafka operations (services/fraud).

    One consumer owns one partition of cdr.raw. Its program counter says which remote operation comes next. Each
    operation may succeed, fail before its effect, or fail after it (an ambiguous timeout); the process may die
    between any two operations and restarts from the committed offset. */
module Pipeline {
  import opened Cdr
  import opened Rules
  import opened Redis
  import Spend
  import TariffCatalog
  import Histories

  const LAST_LOC_TTL_MS := DAY_MS

  /** The partition's log, the reference data and the settings, none of which change during a run. */
  datatype Config = Config(
    log: seq<Message>,
    cells: map<string, Point>,
    tariffs: seq<TariffCatalog.Tariff>,
    distance: (Point, Point) -> real,
    velocityThreshold: int,
    velocityWindowMs: int,
    maxKmh: real,
    irsfThreshold: real,
    irsfWindowMs: int,
    cooldownMs: int,
    maxAttempts: nat)
  {
    function SeenTtlMs(): int {
      3 * velocityWindowMs
    }

    function TariffOf(rec: Record): TariffCatalog.Tariff {
      TariffCatalog.Best(tariffs, rec.callee)
    }
  }

  datatype PC =
    | Fetch
    | SeenCheck                  // EXISTS seen:id
    | Count                      // the velocity pipeline
    | Guard(rule: Rule)          // EXISTS alerted:rule:caller
    | Emit(rule: Rule)           // write to cdr.fraud.alert
    | SetFlag(rule: Rule)        // SET alerted:rule:caller
    | Cell                       // gRPC GetCell
    | LocGet                     // GET lastloc:caller
    | LocSet                     // SET lastloc:caller
    | Tariff                     // gRPC GetTariff
    | Accrue                     // the spend pipeline
    | Mark                       // SET seen:id
    | Backoff                    // the pause after a failed attempt
    | DeadLetter                 // write to cdr.dlq
    | Commit                     // commit offset pos + 1

  /** The operation is one of those inside handle. */
  predicate InHandle(pc: PC) {
    !(pc.Fetch? || pc.Backoff? || pc.DeadLetter? || pc.Commit?)
  }

  /** The consumer's memory, lost in a crash. `holes` are the messages of this session that runWithRetry gave up on. */
  datatype Proc = Proc(pos: nat, pc: PC, attempt: nat, score: real, here: Point, member: string,
                       cause: PC, cancelled: bool, holes: set<nat>)

  datatype Emission = Emission(alert: Alert, at: int)

  datatype DeadRecord = DeadRecord(message: Message, cause: PC)

  /** The history of a run, which no operation reads: which positions were handled to the end, which were
      dead-lettered, which (position, rule) pairs last found the cooldown flag live and when, and which emissions were
      followed by a flag that took effect and when. */
  datatype History = History(handled: set<nat>, dead: set<nat>, muted: map<(nat, Rule), int>, flagged: map<nat, int>)

  /** What belongs to one partition: its committed offset, its consumer, what it wrote, and its history. */
  datatype Part = Part(committed: nat, proc: Proc, alerts: seq<Emission>, dlq: seq<DeadRecord>, hist: History)

  datatype State = State(now: int, store: Store, part: Part)

  datatype Outcome = Ok | FailBefore | FailAfter

  /** `Op` lets `dt` ms pass, optionally delivers the shutdown signal, and attempts the next operation. */
  datatype Event = Op(dt: nat, cancel: bool, outcome: Outcome) | Wait(dt: nat) | Crash(dt: nat)

  function Boot(committed: nat): Proc {
    Proc(committed, Fetch, 0, 0.0, Point(0.0, 0.0), "", Fetch, false, {})
  }

  function Init(now: int): State {
    State(now, map[], Part(0, Boot(0), [], [], History({}, {}, map[], map[])))
  }

  // ---- the effect of an operation on the outside world ----------------------------------------------------

  function MemberFor(rec: Record, rate: real): string {
    Spend.Member(rec.id, Spend.Units(Spend.Cost(rec.durationSec, rate)))
  }

  function Written(c: Config, proc: Proc, store: Store, now: int, rec: Record): Store {
    match proc.pc
    case Count => SlideKey(store, VelocityKey(rec.caller), rec.id, rec.Ms(), c.velocityWindowMs, now)
    case SetFlag(rule) => Set(store, AlertedKey(rule, rec.caller), Flag, now, c.cooldownMs)
    case LocSet => Set(store, LastLocKey(rec.caller), Place(Location(proc.here, rec.startNs)), now, LAST_LOC_TTL_MS)
    case Accrue => SlideKey(store, SpendKey(rec.caller), proc.member, rec.Ms(), c.irsfWindowMs, now)
    case Mark => Set(store, SeenKey(rec.id), Flag, now, c.SeenTtlMs())
    case _ => store
  }

  function Recorded(proc: Proc, part: Part, now: int, rec: Record): Part {
    match proc.pc
    case Emit(rule) => part.(alerts := part.alerts + [Emission(AlertFor(rec, rule, proc.score), now)])
    case SetFlag(rule) => if part.alerts == [] then part else part.(hist := part.hist.(flagged := part.hist.flagged[|part.alerts| - 1 := now]))
    case _ => part
  }

  function Effect(c: Config, s: State, rec: Record): State {
    s.(store := Written(c, s.part.proc, s.store, s.now, rec), part := Recorded(s.part.proc, s.part, s.now, rec))
  }

  /** How long what an operation writes is there: a seen flag for three velocity windows, a cooldown flag for the
      cooldown, a location for 24 hours, and a window for twice its length. A time to live of zero means for good. */
  lemma WritesLast(c: Config, proc: Proc, store: Store, now: int, rec: Record, later: int)
    ensures var store' := Written(c, proc, store, now, rec);
            match proc.pc
            case Mark =>
              Exists(store', SeenKey(rec.id), later) <==> c.velocityWindowMs == 0 || later < now + 3 * c.velocityWindowMs
            case SetFlag(rule) =>
              Exists(store', AlertedKey(rule, rec.caller), later) <==> c.cooldownMs == 0 || later < now + c.cooldownMs
            case LocSet => Exists(store', LastLocKey(rec.caller), later) <==> later < now + 86_400_000
            case Count => Exists(store', VelocityKey(rec.caller), later) <==> later < now + 2 * c.velocityWindowMs
            case Accrue => Exists(store', SpendKey(rec.caller), later) <==> later < now + 2 * c.irsfWindowMs
            case _ => store' == store
  {
  }

  // ---- what the program does next -------------------------------------------------------------------------

  function Goto(s: State, pc: PC): State {
    s.(part := s.part.(proc := s.part.proc.(pc := pc)))
  }

  function AfterRule(rule: Rule): PC {
    match rule
    case Velocity => Cell
    case ImpossibleTravel => LocSet
    case Irsf => Mark
  }

  /** Continue with maybeEmit if the rule triggered, past the rule otherwise. */
  function Judge(s: State, rule: Rule, verdict: Option<real>): State {
    match verdict
    case None => Goto(s, AfterRule(rule))
    case Some(score) => s.(part := s.part.(proc := s.part.proc.(pc := Guard(rule), score := score)))
  }

  /** handle returned nil. */
  function Finish(s: State): State {
    Goto(s.(part := s.part.(hist := s.part.hist.(handled := s.part.hist.handled + {s.part.proc.pos}))), Commit)
  }

  /** runWithRetry returned false: the loop moves on and leaves the message uncommitted. */
  function GiveUp(s: State): State {
    var proc := s.part.proc;
    s.(part := s.part.(proc := proc.(pc := Fetch, pos := proc.pos + 1, holes := proc.holes + {proc.pos})))
  }

  /** handle returned an error. */
  function Fail(s: State): State {
    var failed := s.(part := s.part.(proc := s.part.proc.(cause := s.part.proc.pc)));
    if s.part.proc.cancelled then GiveUp(failed) else Goto(failed, Backoff)
  }

  function LocationVerdict(c: Config, value: Value, here: Point, nowNs: int): Option<real> {
    if !value.Place? then None
    else TravelVerdict(c.maxKmh, c.distance(value.location.point, here), Gap(nowNs, value.location.atNs))
  }

  /** What handle makes of the reply to an operation. */
  datatype Decision =
    | Go(pc: PC)
    | Judgement(rule: Rule, verdict: Option<real>)
    | AtCell(here: Point)
    | Priced(member: string)     // the call is premium and enters the spend window under this name
    | Muted(rule: Rule)          // the cooldown flag is live
    | Done                       // handle returns nil

  /** The decision after an operation succeeded, with its effect in place. */
  ghost function Decide(c: Config, store: Store, now: int, proc: Proc, rec: Record): (d: Decision)
    ensures d.Go? && InHandle(proc.pc) ==> InHandle(d.pc)
  {
    match proc.pc
    case SeenCheck => if Exists(store, SeenKey(rec.id), now) then Done else Go(Count)
    case Count =>
      var key := VelocityKey(rec.caller);
      Judgement(Velocity, VelocityVerdict(c.velocityThreshold, if key in store then |MembersIn(store[key].value)| else 0))
    case Guard(rule) => if Exists(store, AlertedKey(rule, rec.caller), now) then Muted(rule) else Go(Emit(rule))
    case Emit(rule) => Go(SetFlag(rule))
    case SetFlag(rule) => Go(AfterRule(rule))
    case Cell => if rec.cell in c.cells then AtCell(c.cells[rec.cell]) else Go(Tariff)
    case LocGet =>
      var key := LastLocKey(rec.caller);
      if Exists(store, key, now)
      then Judgement(ImpossibleTravel, LocationVerdict(c, store[key].value, proc.here, rec.startNs))
      else Go(LocSet)
    case LocSet => Go(Tariff)
    case Tariff =>
      var t := c.TariffOf(rec);
      if t.premium then Priced(MemberFor(rec, t.ratePerMin)) else Go(Mark)
    case Accrue =>
      var key := SpendKey(rec.caller);
      Judgement(Irsf, IrsfVerdict(c.irsfThreshold,
                                  Spend.SpendOf(if key in store then MembersIn(store[key].value).Keys else {})))
    case Mark => Done
    case _ => Go(proc.pc)
  }

  function Obey(s: State, d: Decision): State {
    match d
    case Go(pc) => Goto(s, pc)
    case Judgement(rule, verdict) => Judge(s, rule, verdict)
    case AtCell(here) => s.(part := s.part.(proc := s.part.proc.(pc := LocGet, here := here)))
    case Priced(member) => s.(part := s.part.(proc := s.part.proc.(pc := Accrue, member := member)))
    case Muted(rule) =>
      var hist := s.part.hist;
      Goto(s.(part := s.part.(hist := hist.(muted := hist.muted[(s.part.proc.pos, rule) := s.now]))), AfterRule(rule))
    case Done => Finish(s)
  }

  ghost function Continue(c: Config, s: State, rec: Record): State {
    Obey(s, Decide(c, s.store, s.now, s.part.proc, rec))
  }

  /** An operation inside handle. Failed enrichment skips its rule; any other failure ends the attempt. */
  ghost function HandleStep(c: Config, s: State, rec: Record, o: Outcome): State {
    var pc := s.part.proc.pc;
    if o.Ok? then Continue(c, Effect(c, s, rec), rec)
    else if pc.Cell? then Goto(s, Tariff)
    else if pc.Tariff? then Goto(s, Mark)
    else if o.FailBefore? then Fail(s)
    else Fail(Effect(c, s, rec))
  }

  function FetchStep(c: Config, s: State, o: Outcome): State {
    var proc := s.part.proc;
    if !o.Ok? || proc.pos >= |c.log| then s
    else if c.log[proc.pos].Unparseable? then Finish(s)
    else s.(part := s.part.(proc := proc.(pc := SeenCheck, attempt := 1)))
  }

  /** The pause ends with the timer, or with the shutdown signal if that has arrived. */
  function BackoffStep(c: Config, s: State, o: Outcome): State {
    var proc := s.part.proc;
    if proc.cancelled && !o.Ok? then GiveUp(s)
    else if proc.attempt < c.maxAttempts
    then s.(part := s.part.(proc := proc.(pc := SeenCheck, attempt := proc.attempt + 1)))
    else Goto(s, DeadLetter)
  }

  function Buried(s: State, message: Message): State {
    s.(part := s.part.(dlq := s.part.dlq + [DeadRecord(message, s.part.proc.cause)],
                       hist := s.part.hist.(dead := s.part.hist.dead + {s.part.proc.pos})))
  }

  function DeadLetterStep(s: State, message: Message, o: Outcome): State {
    match o
    case Ok => Goto(Buried(s, message), Commit)
    case FailBefore => GiveUp(s)
    case FailAfter => GiveUp(Buried(s, message))
  }

  /** A failed commit is only logged; the loop fetches on. */
  function CommitStep(s: State, o: Outcome): State {
    var proc := s.part.proc;
    var next := proc.(pc := Fetch, pos := proc.pos + 1);
    if o.FailBefore? then s.(part := s.part.(proc := next))
    else s.(part := s.part.(proc := next, committed := proc.pos + 1))
  }

  /** The state when the operation is attempted: time has passed and the signal may have arrived. */
  function Arrive(s: State, e: Event): State {
    var later := s.(now := s.now + e.dt);
    if e.Op? && e.cancel then later.(part := later.part.(proc := later.part.proc.(cancelled := true))) else later
  }

  ghost function Attempt(c: Config, s: State, o: Outcome): State {
    var proc := s.part.proc;
    match proc.pc
    case Fetch => FetchStep(c, s, o)
    case Backoff => BackoffStep(c, s, o)
    case Commit => CommitStep(s, o)
    case DeadLetter => if proc.pos < |c.log| then DeadLetterStep(s, c.log[proc.pos], o) else s
    case _ =>
      if proc.pos < |c.log| && c.log[proc.pos].Parsed? then HandleStep(c, s, c.log[proc.pos].rec, o) else s
  }

  ghost function Step(c: Config, s: State, e: Event): State {
    var arrived := Arrive(s, e);
    match e
    case Wait(_) => arrived
    case Crash(_) => arrived.(part := arrived.part.(proc := Boot(arrived.part.committed)))
    case Op(_, _, o) => Attempt(c, arrived, o)
  }

  ghost function Run(c: Config, s: State, events: seq<Event>): State {
    if events == [] then s
    else Step(c, Run(c, s, events[..|events| - 1]), events[|events| - 1])
  }

  /** The machine's step as a function. */
  ghost function Stepper(c: Config): (State, Event) -> State {
    (s: State, e: Event) => Step(c, s, e)
  }

  lemma StepperSteps(c: Config, s: State, e: Event)
    ensures Stepper(c)(s, e) == Step(c, s, e)
  {
  }

  lemma {:induction false} RunIsFold(c: Config, s: State, events: seq<Event>)
    ensures Run(c, s, events) == Histories.Fold(Stepper(c), s, events)
  {
    if events != [] {
      RunIsFold(c, s, events[..|events| - 1]);
      StepperSteps(c, Run(c, s, events[..|events| - 1]), events[|events| - 1]);
    }
  }

  lemma RunConcat(c: Config, s: State, first: seq<Event>, second: seq<Event>)
    ensures Run(c, s, first + second) == Run(c, Run(c, s, first), second)
  {
    Histories.FoldConcat(Stepper(c), s, first, second);
    RunIsFold(c, s, first);
    RunIsFold(c, Run(c, s, first), second);
    RunIsFold(c, s, first + second);
  }

  lemma RunOneMore(c: Config, s: State, events: seq<Event>, e: Event)
    ensures Run(c, s, events + [e]) == Step(c, Run(c, s, events), e)
  {
    assert (events + [e])[..|events|] == events;
  }

  // ---- what one operation inside handle can do to the consumer's bookkeeping ------------------------------

  /** What one operation inside handle can add to the history: that its message was handled, or nothing of that kind. */
  predicate Adds(h: History, h': History, handled: set<nat>) {
    h'.handled == h.handled + handled && h'.dead == h.dead
  }

  /** The consumer stays with its message. */
  predicate Stays(part: Part, part': Part) {
    && part' == part.(proc := part'.proc, alerts := part'.alerts, hist := part'.hist) && Adds(part.hist, part'.hist, {})
    && part'.proc.pos == part.proc.pos && part'.proc.holes == part.proc.holes
    && part'.proc.attempt == part.proc.attempt && part'.proc.cancelled == part.proc.cancelled
    && !part'.proc.pc.Commit? && !part'.proc.pc.Fetch? && !part'.proc.pc.DeadLetter?
    && (part'.proc.pc.Backoff? ==> part'.proc.cause == part.proc.pc)
  }

  /** handle returned nil for its message. */
  predicate Finishes(part: Part, part': Part) {
    && part' == part.(proc := part.proc.(pc := Commit), alerts := part'.alerts, hist := part'.hist)
    && Adds(part.hist, part'.hist, {part.proc.pos})
  }

  /** handle failed under shutdown and the loop left its message. */
  predicate Leaves(part: Part, part': Part) {
    && part' == part.(proc := part'.proc, alerts := part'.alerts, hist := part'.hist) && Adds(part.hist, part'.hist, {})
    && part'.proc.pos == part.proc.pos + 1 && part'.proc.holes == part.proc.holes + {part.proc.pos}
    && part'.proc.pc.Fetch?
  }

  /** The message at the fetch position is this one. */
  predicate OnMessage(c: Config, proc: Proc, message: Message) {
    proc.pos < |c.log| && c.log[proc.pos] == message
  }

  /** The message at the fetch position is a record. */
  predicate OnRecord(c: Config, proc: Proc) {
    proc.pos < |c.log| && c.log[proc.pos].Parsed?
  }

  /** Fetching, pausing, dead-lettering and committing touch neither Redis nor the alert topic. */
  lemma OutsideHandle(c: Config, s: State, o: Outcome)
    requires !(InHandle(s.part.proc.pc) && OnRecord(c, s.part.proc))
    ensures var s' := Attempt(c, s, o);
            && s'.store == s.store && s'.now == s.now
            && s'.part.alerts == s.part.alerts && s'.part.hist.flagged == s.part.hist.flagged
            && (s' == s || !InHandle(s'.part.proc.pc) || s'.part.proc.pc.SeenCheck?)
            && s'.part.hist.muted == s.part.hist.muted
  {
  }

  lemma ObeyShape(s: State, d: Decision)
    requires InHandle(s.part.proc.pc) && (d.Go? ==> InHandle(d.pc))
    ensures Stays(s.part, Obey(s, d).part) || Finishes(s.part, Obey(s, d).part)
    ensures !Obey(s, d).part.proc.pc.Backoff? && Obey(s, d).now == s.now && Obey(s, d).store == s.store
    ensures Obey(s, d).part.alerts == s.part.alerts && Obey(s, d).part.hist.flagged == s.part.hist.flagged
  {
  }

  lemma ContinueShape(c: Config, s: State, rec: Record)
    requires InHandle(s.part.proc.pc)
    ensures Stays(s.part, Continue(c, s, rec).part) || Finishes(s.part, Continue(c, s, rec).part)
    ensures !Continue(c, s, rec).part.proc.pc.Backoff?
    ensures Continue(c, s, rec).now == s.now && Continue(c, s, rec).store == s.store
  {
    ObeyShape(s, Decide(c, s.store, s.now, s.part.proc, rec));
  }

  lemma EffectShape(c: Config, s: State, rec: Record)
    ensures var part := Effect(c, s, rec).part;
            part == s.part.(alerts := part.alerts, hist := s.part.hist.(flagged := part.hist.flagged))
  {
  }

  lemma FailShape(s: State)
    requires InHandle(s.part.proc.pc)
    ensures Stays(s.part, Fail(s).part) || Leaves(s.part, Fail(s).part)
  {
  }

  lemma SkipShape(s: State, pc: PC)
    requires InHandle(pc)
    ensures Stays(s.part, Goto(s, pc).part)
  {
  }

  /** The effect of an operation does not change what the operation does to the bookkeeping. */
  lemma ShapeAfterEffect(part: Part, effect: Part, part': Part)
    requires effect == part.(alerts := effect.alerts, hist := part.hist.(flagged := effect.hist.flagged))
    ensures Stays(effect, part') ==> Stays(part, part')
    ensures Finishes(effect, part') ==> Finishes(part, part')
    ensures Leaves(effect, part') ==> Leaves(part, part')
  {
  }

  lemma HandleShape(c: Config, s: State, rec: Record, o: Outcome)
    requires InHandle(s.part.proc.pc)
    ensures var part := HandleStep(c, s, rec, o).part;
            Stays(s.part, part) || Finishes(s.part, part) || Leaves(s.part, part)
  {
    var e := Effect(c, s, rec);
    EffectShape(c, s, rec);
    ShapeAfterEffect(s.part, e.part, HandleStep(c, s, rec, o).part);
    if o.Ok? {
      ContinueShape(c, e, rec);
    } else {
      FailShape(s);
      FailShape(e);
      SkipShape(s, Tariff);
      SkipShape(s, Mark);
    }
  }
}
