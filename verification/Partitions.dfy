/** Several consumers, one per partition, that share the clock and the Redis store. Their steps may interleave in
    any way: when the partitions carry different subscribers, no consumer can tell that it is not alone. */
module Partitions {
  import opened Cdr
  import opened Redis
  import opened Pipeline

  /** One settings-and-log pair and one part for each partition. */
  datatype Multi = Multi(now: int, store: Store, parts: seq<Part>)

  datatype Move = Move(who: nat, event: Event)

  function InitAll(cs: seq<Config>, now: int): (m: Multi)
    ensures |m.parts| == |cs|
  {
    Multi(now, map[], seq(|cs|, i => Init(now).part))
  }

  /** What the consumer of one partition sees. */
  function Alone(m: Multi, who: nat): State
    requires who < |m.parts|
  {
    State(m.now, m.store, m.parts[who])
  }

  ghost function MultiStep(cs: seq<Config>, m: Multi, move: Move): (m': Multi)
    requires |m.parts| == |cs| && move.who < |cs|
    ensures |m'.parts| == |cs|
  {
    var s := Step(cs[move.who], Alone(m, move.who), move.event);
    Multi(s.now, s.store, m.parts[move.who := s.part])
  }

  predicate Moves(cs: seq<Config>, moves: seq<Move>) {
    forall k | 0 <= k < |moves| :: moves[k].who < |cs|
  }

  ghost function MultiRun(cs: seq<Config>, m: Multi, moves: seq<Move>): (m': Multi)
    requires |m.parts| == |cs| && Moves(cs, moves)
    ensures |m'.parts| == |cs|
  {
    if moves == [] then m
    else MultiStep(cs, MultiRun(cs, m, moves[..|moves| - 1]), moves[|moves| - 1])
  }

  // ---- which keys belong to which partition ---------------------------------------------------------------

  predicate Owns(rec: Record, key: Key) {
    match key
    case VelocityKey(caller) => caller == rec.caller
    case SpendKey(caller) => caller == rec.caller
    case LastLocKey(caller) => caller == rec.caller
    case SeenKey(id) => id == rec.id
    case AlertedKey(_, caller) => caller == rec.caller
  }

  ghost predicate Touches(c: Config, key: Key) {
    exists i | 0 <= i < |c.log| :: c.log[i].Parsed? && Owns(c.log[i].rec, key)
  }

  predicate SameRecord(a: Record, b: Record) {
    a.caller == b.caller || a.id == b.id
  }

  predicate Apart(a: Config, b: Config) {
    forall k, l | 0 <= k < |a.log| && 0 <= l < |b.log| && a.log[k].Parsed? && b.log[l].Parsed? ::
      !SameRecord(a.log[k].rec, b.log[l].rec)
  }

  /** No subscriber, and no record id, occurs on two partitions. */
  predicate Separate(cs: seq<Config>) {
    forall i, j | 0 <= i < |cs| && 0 <= j < |cs| && i != j :: Apart(cs[i], cs[j])
  }

  lemma OneOwner(a: Config, b: Config, key: Key)
    requires Apart(a, b)
    ensures !(Touches(a, key) && Touches(b, key))
  {
    forall k, l | 0 <= k < |a.log| && 0 <= l < |b.log| && a.log[k].Parsed? && b.log[l].Parsed?
      ensures !(Owns(a.log[k].rec, key) && Owns(b.log[l].rec, key))
    {
      assert !SameRecord(a.log[k].rec, b.log[l].rec);
    }
  }

  // ---- a step depends on, and changes, the keys of its own partition only ---------------------------------

  predicate SameKey(a: Store, b: Store, key: Key) {
    (key in a <==> key in b) && (key in a ==> a[key] == b[key])
  }

  ghost predicate SameOn(c: Config, a: Store, b: Store) {
    forall key | Touches(c, key) :: SameKey(a, b, key)
  }

  ghost predicate SameOwned(rec: Record, a: Store, b: Store) {
    forall key | Owns(rec, key) :: SameKey(a, b, key)
  }

  lemma PutIsLocal(rec: Record, a: Store, b: Store, key: Key, e: Entry)
    requires SameOwned(rec, a, b) && Owns(rec, key)
    ensures SameOwned(rec, a[key := e], b[key := e])
    ensures forall key' | !Owns(rec, key') :: SameKey(a[key := e], a, key')
  {
    forall key' | Owns(rec, key') ensures SameKey(a[key := e], b[key := e], key') {
      assert SameKey(a, b, key');
    }
  }

  lemma SlideIsLocal(rec: Record, a: Store, b: Store, key: Key, member: string, ms: int, windowMs: int, now: int)
    requires SameOwned(rec, a, b) && Owns(rec, key)
    ensures var a', b' := SlideKey(a, key, member, ms, windowMs, now), SlideKey(b, key, member, ms, windowMs, now);
            SameOwned(rec, a', b') && (forall key' | !Owns(rec, key') :: SameKey(a', a, key'))
  {
    assert SameKey(a, b, key);
    assert ZSet(a, key, now) == ZSet(b, key, now);
    PutIsLocal(rec, a, b, key, SlideKey(a, key, member, ms, windowMs, now)[key]);
  }

  lemma SetIsLocal(rec: Record, a: Store, b: Store, key: Key, value: Value, now: int, ttlMs: int)
    requires SameOwned(rec, a, b) && Owns(rec, key)
    ensures var a', b' := Set(a, key, value, now, ttlMs), Set(b, key, value, now, ttlMs);
            SameOwned(rec, a', b') && (forall key' | !Owns(rec, key') :: SameKey(a', a, key'))
  {
    PutIsLocal(rec, a, b, key, Set(a, key, value, now, ttlMs)[key]);
  }

  lemma WrittenIsLocal(c: Config, proc: Proc, a: Store, b: Store, now: int, rec: Record)
    requires SameOwned(rec, a, b)
    ensures var a', b' := Written(c, proc, a, now, rec), Written(c, proc, b, now, rec);
            SameOwned(rec, a', b') && (forall key | !Owns(rec, key) :: SameKey(a', a, key))
  {
    match proc.pc
    case Count => SlideIsLocal(rec, a, b, VelocityKey(rec.caller), rec.id, rec.Ms(), c.velocityWindowMs, now);
    case SetFlag(rule) => SetIsLocal(rec, a, b, AlertedKey(rule, rec.caller), Flag, now, c.cooldownMs);
    case LocSet =>
      SetIsLocal(rec, a, b, LastLocKey(rec.caller), Place(Location(proc.here, rec.startNs)), now, LAST_LOC_TTL_MS);
    case Accrue =>
      SlideIsLocal(rec, a, b, SpendKey(rec.caller), proc.member, rec.Ms(), c.irsfWindowMs, now);
    case Mark => SetIsLocal(rec, a, b, SeenKey(rec.id), Flag, now, c.SeenTtlMs());
    case _ =>
  }

  lemma DecideIsLocal(c: Config, now: int, a: Store, b: Store, proc: Proc, rec: Record)
    requires SameOwned(rec, a, b)
    ensures Decide(c, a, now, proc, rec) == Decide(c, b, now, proc, rec)
  {
    match proc.pc
    case SeenCheck => assert SameKey(a, b, SeenKey(rec.id));
    case Count => assert SameKey(a, b, VelocityKey(rec.caller));
    case Guard(rule) => assert SameKey(a, b, AlertedKey(rule, rec.caller));
    case LocGet => assert SameKey(a, b, LastLocKey(rec.caller));
    case Accrue => assert SameKey(a, b, SpendKey(rec.caller));
    case _ =>
  }

  lemma ObeyIsLocal(now: int, a: Store, b: Store, part: Part, d: Decision)
    ensures var x, y := Obey(State(now, a, part), d), Obey(State(now, b, part), d);
            x.now == y.now == now && x.part == y.part && x.store == a && y.store == b
  {
  }

  lemma FailIsLocal(now: int, a: Store, b: Store, part: Part)
    ensures var x, y := Fail(State(now, a, part)), Fail(State(now, b, part));
            x.now == y.now == now && x.part == y.part && x.store == a && y.store == b
  {
  }

  /** With the same decision, what follows an operation is the same too. */
  lemma HandleFollows(c: Config, now: int, a: Store, b: Store, part: Part, rec: Record, o: Outcome)
    requires SameOwned(rec, a, b)
    ensures var x, y := HandleStep(c, State(now, a, part), rec, o), HandleStep(c, State(now, b, part), rec, o);
            && x.now == y.now == now && x.part == y.part
            && ((x.store == a && y.store == b)
                || (x.store == Written(c, part.proc, a, now, rec) && y.store == Written(c, part.proc, b, now, rec)))
  {
    var a', b', part' := Written(c, part.proc, a, now, rec), Written(c, part.proc, b, now, rec),
                         Recorded(part.proc, part, now, rec);
    WrittenIsLocal(c, part.proc, a, b, now, rec);
    if o.Ok? {
      DecideIsLocal(c, now, a', b', part'.proc, rec);
      ObeyIsLocal(now, a', b', part', Decide(c, a', now, part'.proc, rec));
    } else {
      FailIsLocal(now, a, b, part);
      FailIsLocal(now, a', b', part');
    }
  }

  lemma HandleIsLocal(c: Config, now: int, a: Store, b: Store, part: Part, rec: Record, o: Outcome)
    requires SameOwned(rec, a, b)
    ensures var x, y := HandleStep(c, State(now, a, part), rec, o), HandleStep(c, State(now, b, part), rec, o);
            && x.now == y.now == now && x.part == y.part
            && SameOwned(rec, x.store, y.store)
            && (forall key | !Owns(rec, key) :: SameKey(x.store, a, key))
  {
    HandleFollows(c, now, a, b, part, rec, o);
    WrittenIsLocal(c, part.proc, a, b, now, rec);
  }

  lemma OwnsTouches(c: Config, i: nat, key: Key)
    requires i < |c.log| && c.log[i].Parsed? && Owns(c.log[i].rec, key)
    ensures Touches(c, key)
  {
  }

  lemma SameOnOwned(c: Config, a: Store, b: Store, i: nat)
    requires SameOn(c, a, b) && i < |c.log| && c.log[i].Parsed?
    ensures SameOwned(c.log[i].rec, a, b)
  {
    forall key | Owns(c.log[i].rec, key) ensures SameKey(a, b, key) {
      OwnsTouches(c, i, key);
    }
  }

  lemma HandlingIsLocal(c: Config, now: int, a: Store, b: Store, part: Part, i: nat, o: Outcome)
    requires SameOn(c, a, b) && i < |c.log| && c.log[i].Parsed?
    ensures var rec := c.log[i].rec;
            var x, y := HandleStep(c, State(now, a, part), rec, o), HandleStep(c, State(now, b, part), rec, o);
            && x.now == y.now == now && x.part == y.part && SameOn(c, x.store, y.store)
            && (forall key | !Touches(c, key) :: SameKey(x.store, a, key))
  {
    var rec := c.log[i].rec;
    SameOnOwned(c, a, b, i);
    HandleIsLocal(c, now, a, b, part, rec, o);
    HandleFrame(c, now, b, part, rec, o);
    var x, y := HandleStep(c, State(now, a, part), rec, o), HandleStep(c, State(now, b, part), rec, o);
    forall key | Touches(c, key) ensures SameKey(x.store, y.store, key) {
      assert SameKey(a, b, key);
    }
    forall key | Owns(rec, key) ensures Touches(c, key) {
      OwnsTouches(c, i, key);
    }
  }

  lemma HandleFrame(c: Config, now: int, a: Store, part: Part, rec: Record, o: Outcome)
    ensures forall key | !Owns(rec, key) :: SameKey(HandleStep(c, State(now, a, part), rec, o).store, a, key)
  {
    assert SameOwned(rec, a, a);
    HandleIsLocal(c, now, a, a, part, rec, o);
  }

  /** What a consumer does depends only on the keys of its own records, and it changes no other keys. */
  lemma AttemptIsLocal(c: Config, now: int, a: Store, b: Store, part: Part, o: Outcome)
    requires SameOn(c, a, b)
    ensures var x, y := Attempt(c, State(now, a, part), o), Attempt(c, State(now, b, part), o);
            && x.now == y.now == now && x.part == y.part && SameOn(c, x.store, y.store)
            && (forall key | !Touches(c, key) :: SameKey(x.store, a, key))
  {
    var i := part.proc.pos;
    if InHandle(part.proc.pc) && i < |c.log| && c.log[i].Parsed? {
      HandlingIsLocal(c, now, a, b, part, i, o);
      assert Attempt(c, State(now, a, part), o) == HandleStep(c, State(now, a, part), c.log[i].rec, o);
      assert Attempt(c, State(now, b, part), o) == HandleStep(c, State(now, b, part), c.log[i].rec, o);
    } else {
      StoreStays(c, State(now, a, part), b, o);
    }
  }

  lemma StoreStays(c: Config, s: State, store: Store, o: Outcome)
    requires !(InHandle(s.part.proc.pc) && OnRecord(c, s.part.proc))
    ensures var x, y := Attempt(c, s, o), Attempt(c, s.(store := store), o);
            x.now == y.now == s.now && x.part == y.part && x.store == s.store && y.store == store
  {
    OutsideHandle(c, s, o);
    OutsideHandle(c, s.(store := store), o);
    OthersIgnoreTheStore(c, s, store, o);
  }

  lemma OthersIgnoreTheStore(c: Config, s: State, store: Store, o: Outcome)
    ensures FetchStep(c, s.(store := store), o) == FetchStep(c, s, o).(store := store)
    ensures BackoffStep(c, s.(store := store), o) == BackoffStep(c, s, o).(store := store)
    ensures CommitStep(s.(store := store), o) == CommitStep(s, o).(store := store)
    ensures s.part.proc.pos < |c.log| ==>
              DeadLetterStep(s.(store := store), c.log[s.part.proc.pos], o)
              == DeadLetterStep(s, c.log[s.part.proc.pos], o).(store := store)
  {
  }

  lemma StepIsLocal(c: Config, s: State, store: Store, e: Event)
    requires SameOn(c, s.store, store)
    ensures var x, y := Step(c, s, e), Step(c, s.(store := store), e);
            && x.now == y.now == s.now + e.dt && x.part == y.part && SameOn(c, x.store, y.store)
            && (forall key | !Touches(c, key) :: SameKey(x.store, s.store, key))
  {
    if e.Op? {
      var arrived := Arrive(s, e);
      AttemptIsLocal(c, arrived.now, s.store, store, arrived.part, e.outcome);
      assert arrived == State(arrived.now, s.store, arrived.part);
      assert Arrive(s.(store := store), e) == State(arrived.now, store, arrived.part);
    }
  }

  // ---- no consumer can tell that it is not alone ----------------------------------------------------------

  /** The moves as one consumer experiences them: its own events, and time passing while the others move. */
  function Experienced(moves: seq<Move>, who: nat): (events: seq<Event>)
    ensures |events| == |moves|
  {
    seq(|moves|, k requires 0 <= k < |moves| =>
      if moves[k].who == who then moves[k].event else Wait(moves[k].event.dt))
  }

  ghost predicate LooksLike(c: Config, m: Multi, who: nat, s: State)
    requires who < |m.parts|
  {
    m.now == s.now && m.parts[who] == s.part && SameOn(c, m.store, s.store)
  }

  lemma MoveLooksLike(cs: seq<Config>, m: Multi, move: Move, who: nat, s: State)
    requires Separate(cs) && |m.parts| == |cs| && move.who < |cs| && who < |cs|
    requires LooksLike(cs[who], m, who, s)
    ensures var e := if move.who == who then move.event else Wait(move.event.dt);
            LooksLike(cs[who], MultiStep(cs, m, move), who, Step(cs[who], s, e))
  {
    var store' := MultiStep(cs, m, move).store;
    if move.who == who {
      StepIsLocal(cs[who], Alone(m, who), s.store, move.event);
      assert Alone(m, who).(store := s.store) == s;
    } else {
      StepIsLocal(cs[move.who], Alone(m, move.who), m.store, move.event);
      forall key | Touches(cs[who], key) ensures SameKey(store', s.store, key) {
        OneOwner(cs[who], cs[move.who], key);
        assert SameKey(m.store, s.store, key);
      }
    }
  }

  /** Interleaving independence: in every interleaving, each consumer's offset, memory, alerts and dead letters, and
      everything the store holds about its records, are those of a run in which it is the only consumer. */
  lemma {:induction false} EachRunsAsIfAlone(cs: seq<Config>, now: int, moves: seq<Move>, who: nat)
    requires Separate(cs) && Moves(cs, moves) && who < |cs|
    ensures LooksLike(cs[who], MultiRun(cs, InitAll(cs, now), moves), who, Run(cs[who], Init(now), Experienced(moves, who)))
  {
    if moves != [] {
      var init, last := moves[..|moves| - 1], moves[|moves| - 1];
      EachRunsAsIfAlone(cs, now, init, who);
      MoveLooksLike(cs, MultiRun(cs, InitAll(cs, now), init), last, who, Run(cs[who], Init(now), Experienced(init, who)));
      assert Experienced(moves, who)[..|init|] == Experienced(init, who);
    }
  }
}
