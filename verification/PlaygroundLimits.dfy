/** Where the playground and the service part: each condition of PlaygroundRefinement that does any work is needed. */
module PlaygroundLimits {
  import opened Cdr
  import opened Rules
  import opened Redis
  import opened Pipeline
  import opened CleanRun
  import opened Playground
  import opened PlaygroundRefinement
  import opened Bursts

  predicate HasTravel(alerts: seq<Alert>) {
    exists a | a in alerts :: a.rule == ImpossibleTravel
  }

  // ---- the service's side ---------------------------------------------------------------------------------

  lemma FlaggingRaises(c: Config, store: Store, now: int, rec: Record, rule: Rule, verdict: Option<real>)
    ensures var r := Flagging(c, store, now, rec, rule, verdict);
            && (forall a | a in r.alerts :: a.rule == rule && verdict == Some(a.score))
            && (forall key: Key | !key.AlertedKey? :: (key in r.store <==> key in store) && (key in store ==> r.store[key] == store[key]))
  {
  }

  /** Only the travel rule raises travel alerts, and only on its own verdict. */
  lemma ServiceTravels(c: Config, store: Store, now: int, rec: Record)
    requires HasTravel(CleanHandle(c, store, now, rec).alerts)
    ensures !Exists(store, SeenKey(rec.id), now) && rec.cell in c.cells && LastVerdict(c, store, now, rec).Some?
  {
    var one := CleanVelocity(c, store, now, rec);
    CountedTravels(c, store, now, rec);
    var two := CleanTravel(c, one.store, now, rec);
    IrsfTravels(c, two.store, now, rec);
    if rec.cell in c.cells {
      FlaggingRaises(c, one.store, now, rec, ImpossibleTravel, LastVerdict(c, one.store, now, rec));
    }
  }

  lemma CountedTravels(c: Config, store: Store, now: int, rec: Record)
    ensures var r := CleanVelocity(c, store, now, rec);
            && !HasTravel(r.alerts)
            && (rec.cell in c.cells ==> LastVerdict(c, r.store, now, rec) == LastVerdict(c, store, now, rec))
  {
    var key := VelocityKey(rec.caller);
    var counted := SlideKey(store, key, rec.id, rec.Ms(), c.velocityWindowMs, now);
    FlaggingRaises(c, counted, now, rec, Velocity, VelocityVerdict(c.velocityThreshold, |MembersIn(counted[key].value)|));
  }

  lemma IrsfTravels(c: Config, store: Store, now: int, rec: Record)
    ensures var r := CleanIrsf(c, store, now, rec);
            && !HasTravel(r.alerts)
            && (forall key: Key | !key.AlertedKey? && !key.SpendKey? ::
                  (key in r.store <==> key in store) && (key in store ==> r.store[key] == store[key]))
  {
    var key, t := SpendKey(rec.caller), c.TariffOf(rec);
    if t.premium {
      var charged := SlideKey(store, key, MemberFor(rec, t.ratePerMin), rec.Ms(), c.irsfWindowMs, now);
      FlaggingRaises(c, charged, now, rec, Irsf,
                     IrsfVerdict(c.irsfThreshold, Spend.SpendOf(MembersIn(charged[key].value).Keys)));
    }
  }

  /** What handling a record leaves behind about where the subscriber was, and that the record was seen. */
  lemma ServiceRemembers(c: Config, store: Store, now: int, rec: Record)
    requires !Exists(store, SeenKey(rec.id), now) && rec.cell in c.cells && c.velocityWindowMs > 0
    ensures var store' := CleanHandle(c, store, now, rec).store;
            && LastLocKey(rec.caller) in store' && SeenKey(rec.id) in store'
            && store'[LastLocKey(rec.caller)] == Entry(Place(Location(c.cells[rec.cell], rec.startNs)), At(now + LAST_LOC_TTL_MS))
            && store'[SeenKey(rec.id)] == Entry(Flag, At(now + c.SeenTtlMs()))
  {
    var two := CleanTravel(c, CleanVelocity(c, store, now, rec).store, now, rec);
    IrsfTravels(c, two.store, now, rec);
  }

  lemma ServedOneMore(c: Config, recs: seq<Record>, rec: Record)
    ensures var r := CleanHandle(c, Serve(c, recs).store, rec.Ms(), rec);
            && Serve(c, recs + [rec]).store == r.store
            && AlertsOf(Serve(c, recs + [rec]).alerts) == AlertsOf(Serve(c, recs).alerts) + r.alerts
  {
    ServeOneMore(c, recs, rec);
    AlertsConcat(Serve(c, recs).alerts, CleanHandle(c, Serve(c, recs).store, rec.Ms(), rec).alerts, rec.Ms());
  }

  lemma ServedOne(c: Config, rec: Record)
    ensures var r := CleanHandle(c, map[], rec.Ms(), rec);
            Serve(c, [rec]).store == r.store && AlertsOf(Serve(c, [rec]).alerts) == r.alerts
  {
    ServedOneMore(c, [], rec);
    assert [] + [rec] == [rec];
    assert AlertsOf([]) == [];
  }

  lemma ServedTwo(c: Config, first: Record, second: Record)
    ensures var one := CleanHandle(c, map[], first.Ms(), first);
            var two := CleanHandle(c, one.store, second.Ms(), second);
            AlertsOf(Serve(c, [first, second]).alerts) == one.alerts + two.alerts
  {
    ServedOne(c, first);
    ServedOneMore(c, [first], second);
    assert [first] + [second] == [first, second];
  }

  // ---- the engine's side ----------------------------------------------------------------------------------

  /** Two calls of one subscriber whose cells are too far apart: the engine raises a travel alert. */
  lemma EngineTravels(c: Config, first: Record, second: Record)
    requires first.caller == second.caller && first.cell in c.cells && second.cell in c.cells
    requires TravelVerdict(c.maxKmh, c.distance(c.cells[first.cell], c.cells[second.cell]), Gap(second.startNs, first.startNs)).Some?
    ensures HasTravel(ScoreAll(c, [first, second]).alerts)
  {
    var score := TravelVerdict(c.maxKmh, c.distance(c.cells[first.cell], c.cells[second.cell]), Gap(second.startNs, first.startNs));
    var f := Score(c, Empty(), first);
    var g := Score(c, f.maps, second);
    ScoreRaises(c, Empty(), first);
    ScoreRaises(c, f.maps, second);
    NoTravelFlag(c, first, second.caller);
    PlaceKept(c, Empty(), first);
    assert Raised(c, f.maps, second, ImpossibleTravel) == score;
    assert AlertFor(second, ImpossibleTravel, score.value) in g.alerts;
    ScoreAllSnoc(c, [], first);
    ScoreAllSnoc(c, [first], second);
    assert [] + [first] == [first] && [first] + [second] == [first, second];
  }

  lemma PlaceKept(c: Config, maps: Maps, rec: Record)
    requires rec.cell in c.cells
    ensures var maps' := Score(c, maps, rec).maps;
            rec.caller in maps'.lastLoc && maps'.lastLoc[rec.caller] == Location(c.cells[rec.cell], rec.startNs)
  {
    var one := ScoreVelocity(c, maps, rec).maps;
    IrsfRaises(c, ScoreTravel(c, one, rec).maps, rec);
  }

  /** A subscriber's first record raises no travel alert. */
  lemma NoTravelFlag(c: Config, rec: Record, caller: string)
    ensures Keyspace.RuleCaller(ImpossibleTravel, caller) !in Score(c, Empty(), rec).maps.alerted
  {
    FlagMoves(c, Empty(), rec, ImpossibleTravel, caller);
  }

  // ---- a location must not be forgotten too soon ----------------------------------------------------------

  /** Two calls as close in time as they can be when the second finds the location of the first expired. */
  function Farewell(cell: string): Record {
    Record("0", "s", "", NS_PER_MS - 1, 0, cell)
  }

  function Return(cell: string): Record {
    Record("1", "s", "", DAY_MS * NS_PER_MS, 0, cell)
  }

  lemma FreeCallsAreExact(c: Config, rec: Record)
    requires rec.durationSec == 0
    ensures ExactCost(c, rec)
  {
    assert Spend.Cost(0, c.TariffOf(rec).ratePerMin) == 0.0;
    assert Spend.Units(0.0) == 0;
  }

  lemma FarewellIsWellBehaved(c: Config, a: string, b: string)
    ensures WellBehaved(c, [Farewell(a), Return(b)])
  {
    FreeCallsAreExact(c, Farewell(a));
    FreeCallsAreExact(c, Return(b));
  }

  lemma TooFarTriggers(maxKmh: real, distanceKm: real, atNs: int, nowNs: int)
    requires maxKmh > 0.0 && nowNs - atNs == FORGOTTEN_NS
    requires distanceKm * NS_PER_HOUR as real > maxKmh * FORGOTTEN_NS as real
    ensures TravelVerdict(maxKmh, distanceKm, Gap(nowNs, atNs)).Some?
  {
    TravelTriggers(maxKmh, distanceKm, FORGOTTEN_NS);
  }

  lemma ForgottenCallsDiffer(c: Config, a: string, b: string)
    requires Sound(c) && a in c.cells && b in c.cells && c.maxKmh > 0.0
    requires c.distance(c.cells[a], c.cells[b]) * NS_PER_HOUR as real > c.maxKmh * FORGOTTEN_NS as real
    ensures var recs := [Farewell(a), Return(b)];
            WellBehaved(c, recs) && AlertsOf(Serve(c, recs).alerts) != ScoreAll(c, recs).alerts
  {
    var first, second := Farewell(a), Return(b);
    FarewellIsWellBehaved(c, a, b);
    TooFarTriggers(c.maxKmh, c.distance(c.cells[a], c.cells[b]), first.startNs, second.startNs);
    EngineTravels(c, first, second);
    ServiceForgets(c, a, b);
  }

  lemma TravelInEither(a: seq<Alert>, b: seq<Alert>)
    ensures HasTravel(a + b) <==> HasTravel(a) || HasTravel(b)
  {
    if HasTravel(a) {
      var x :| x in a && x.rule == ImpossibleTravel;
      assert x in a + b;
    }
    if HasTravel(b) {
      var x :| x in b && x.rule == ImpossibleTravel;
      assert x in a + b;
    }
  }

  lemma FirstIsSilent(c: Config, rec: Record)
    ensures !HasTravel(CleanHandle(c, map[], rec.Ms(), rec).alerts)
  {
    if HasTravel(CleanHandle(c, map[], rec.Ms(), rec).alerts) {
      ServiceTravels(c, map[], rec.Ms(), rec);
    }
  }

  lemma ExpiredIsSilent(c: Config, store: Store, now: int, rec: Record)
    requires LastLocKey(rec.caller) in store && !Alive(store[LastLocKey(rec.caller)], now)
    ensures !HasTravel(CleanHandle(c, store, now, rec).alerts)
  {
    if HasTravel(CleanHandle(c, store, now, rec).alerts) {
      ServiceTravels(c, store, now, rec);
    }
  }

  lemma ServiceForgets(c: Config, a: string, b: string)
    requires Sound(c) && a in c.cells && b in c.cells
    ensures !HasTravel(AlertsOf(Serve(c, [Farewell(a), Return(b)]).alerts))
  {
    var first, second := Farewell(a), Return(b);
    var one := CleanHandle(c, map[], first.Ms(), first);
    ServedTwo(c, first, second);
    FirstIsSilent(c, first);
    ServiceRemembers(c, map[], first.Ms(), first);
    ExpiredIsSilent(c, one.store, second.Ms(), second);
    TravelInEither(one.alerts, CleanHandle(c, one.store, second.Ms(), second).alerts);
  }

  /** The exact condition on the maximum speed: playground and service agree on every well-behaved log if and only if
      any two cells can be travelled between in the time after which a location is forgotten. */
  lemma AgreementNeedsForgettable(c: Config)
    requires Sound(c)
    ensures (forall recs | WellBehaved(c, recs) :: AlertsOf(Serve(c, recs).alerts) == ScoreAll(c, recs).alerts)
            <==> Forgettable(c)
  {
    if Forgettable(c) {
      forall recs | WellBehaved(c, recs) ensures AlertsOf(Serve(c, recs).alerts) == ScoreAll(c, recs).alerts {
        ServiceAgrees(c, recs);
      }
    } else {
      var a, b :| a in c.cells && b in c.cells
                  && c.distance(c.cells[a], c.cells[b]) * NS_PER_HOUR as real > c.maxKmh * FORGOTTEN_NS as real;
      ForgottenCallsDiffer(c, a, b);
    }
  }

  // ---- record ids must be distinct ------------------------------------------------------------------------

  /** A record id that comes back, from a cell too far away and before the seen flag has expired: the service skips it and
      the playground raises an alert. */
  lemma RepeatedIdsDiffer(c: Config, first: Record, second: Record)
    requires first.id == second.id && first.caller == second.caller && first.cell in c.cells && second.cell in c.cells
    requires Sound(c) && first.Ms() <= second.Ms() < first.Ms() + c.SeenTtlMs()
    requires TravelVerdict(c.maxKmh, c.distance(c.cells[first.cell], c.cells[second.cell]), Gap(second.startNs, first.startNs)).Some?
    ensures AlertsOf(Serve(c, [first, second]).alerts) != ScoreAll(c, [first, second]).alerts
  {
    var one := CleanHandle(c, map[], first.Ms(), first);
    ServedTwo(c, first, second);
    ServiceRemembers(c, map[], first.Ms(), first);
    FirstIsSilent(c, first);
    TravelInEither(one.alerts, CleanHandle(c, one.store, second.Ms(), second).alerts);
    EngineTravels(c, first, second);
  }

  // ---- costs must be exact --------------------------------------------------------------------------------

  function CostOf(c: Config, rec: Record): real {
    Spend.Cost(rec.durationSec, c.TariffOf(rec).ratePerMin)
  }

  lemma OneTotal(m: string)
    ensures Spend.Total({m}) == Spend.AmountOf(m)
  {
    Spend.TotalRemove({m}, m);
    assert {m} - {m} == {};
  }

  lemma OneExactTotal(id: string, cost: real)
    ensures Spend.ExactTotal(map[id := cost]) == cost
  {
    Spend.ExactTotalRemove(map[id := cost], id);
    assert map[id := cost] - {id} == map[];
  }

  /** What the service judges the first premium call by. */
  lemma FirstCharge(c: Config, store: Store, now: int, rec: Record)
    requires Sound(c) && c.TariffOf(rec).premium && SpendKey(rec.caller) !in store
    ensures forall a | a in CleanIrsf(c, store, now, rec).alerts ::
              a.rule == Irsf && IrsfVerdict(c.irsfThreshold, Spend.Units(CostOf(c, rec)) as real / 10000.0) == Some(a.score)
  {
    var key, m := SpendKey(rec.caller), MemberFor(rec, c.TariffOf(rec).ratePerMin);
    var charged := SlideKey(store, key, m, rec.Ms(), c.irsfWindowMs, now);
    assert MembersIn(charged[key].value).Keys == {m};
    FirstTotal(c, rec);
    FlaggingRaises(c, charged, now, rec, Irsf, IrsfVerdict(c.irsfThreshold, Spend.SpendOf({m})));
  }

  lemma FirstTotal(c: Config, rec: Record)
    ensures Spend.SpendOf({MemberFor(rec, c.TariffOf(rec).ratePerMin)}) == Spend.Units(CostOf(c, rec)) as real / 10000.0
  {
    OneTotal(MemberFor(rec, c.TariffOf(rec).ratePerMin));
    Spend.MemberSplits(rec.id, Spend.Units(CostOf(c, rec)));
  }

  /** What the engine judges it by. */
  lemma FirstVerdict(c: Config, maps: Maps, rec: Record)
    requires Sound(c) && c.TariffOf(rec).premium && rec.caller !in maps.spendWin
    ensures EngineVerdict(c, maps, rec, Irsf) == IrsfVerdict(c.irsfThreshold, CostOf(c, rec))
  {
    var w := ShiftItems(map[], rec.id, SpendItem(rec.Ms(), CostOf(c, rec)), c.irsfWindowMs);
    assert CostsIn(w) == map[rec.id := CostOf(c, rec)];
    OneExactTotal(rec.id, CostOf(c, rec));
  }

  lemma ServiceCharges(c: Config, rec: Record, a: Alert)
    requires Sound(c) && c.TariffOf(rec).premium && a in CleanHandle(c, map[], rec.Ms(), rec).alerts && a.rule == Irsf
    ensures IrsfVerdict(c.irsfThreshold, Spend.Units(CostOf(c, rec)) as real / 10000.0) == Some(a.score)
  {
    var now := rec.Ms();
    var one := CleanVelocity(c, map[], now, rec);
    var counted := SlideKey(map[], VelocityKey(rec.caller), rec.id, now, c.velocityWindowMs, now);
    FlaggingRaises(c, counted, now, rec, Velocity,
                   VelocityVerdict(c.velocityThreshold, |MembersIn(counted[VelocityKey(rec.caller)].value)|));
    var two := CleanTravel(c, one.store, now, rec);
    if rec.cell in c.cells {
      FlaggingRaises(c, one.store, now, rec, ImpossibleTravel, LastVerdict(c, one.store, now, rec));
    }
    FirstCharge(c, two.store, now, rec);
  }

  /** One record on either side. */
  lemma OneRecord(c: Config, rec: Record)
    ensures AlertsOf(Serve(c, [rec]).alerts) == CleanHandle(c, map[], rec.Ms(), rec).alerts
    ensures ScoreAll(c, [rec]).alerts == Score(c, Empty(), rec).alerts
  {
    ServeOneMore(c, [], rec);
    AlertsConcat([], CleanHandle(c, map[], rec.Ms(), rec).alerts, rec.Ms());
    ScoreAllSnoc(c, [], rec);
    assert [] + [rec] == [rec] && AlertsOf([]) == [];
  }

  /** The exact condition on the cost of a premium call that exceeds the threshold by itself: the two agree on it if and
      only if the cost needs no rounding at four decimals. */
  lemma AgreementNeedsExactCost(c: Config, rec: Record)
    requires Comparable(c) && rec.Ms() >= 0 && c.TariffOf(rec).premium && 0.0 < c.irsfThreshold <= CostOf(c, rec)
    ensures AlertsOf(Serve(c, [rec]).alerts) == ScoreAll(c, [rec]).alerts <==> Exact(CostOf(c, rec))
  {
    if Exact(CostOf(c, rec)) {
      ServiceAgrees(c, [rec]);
    } else {
      OneRecord(c, rec);
      EngineCharges(c, rec);
      ServiceRounds(c, rec);
    }
  }

  function FullCharge(c: Config, rec: Record): Alert
    requires c.irsfThreshold > 0.0
  {
    AlertFor(rec, Irsf, CostOf(c, rec) / c.irsfThreshold)
  }

  lemma EngineCharges(c: Config, rec: Record)
    requires Sound(c) && c.TariffOf(rec).premium && 0.0 < c.irsfThreshold <= CostOf(c, rec)
    ensures FullCharge(c, rec) in Score(c, Empty(), rec).alerts
  {
    FirstVerdict(c, Empty(), rec);
    ScoreRaises(c, Empty(), rec);
  }

  lemma ServiceRounds(c: Config, rec: Record)
    requires Sound(c) && c.TariffOf(rec).premium && 0.0 < c.irsfThreshold && !Exact(CostOf(c, rec))
    ensures FullCharge(c, rec) !in CleanHandle(c, map[], rec.Ms(), rec).alerts
  {
    if FullCharge(c, rec) in CleanHandle(c, map[], rec.Ms(), rec).alerts {
      ServiceCharges(c, rec, FullCharge(c, rec));
      SameQuotient(Spend.Units(CostOf(c, rec)) as real / 10000.0, CostOf(c, rec), c.irsfThreshold);
    }
  }

  lemma SameQuotient(x: real, y: real, z: real)
    requires z > 0.0 && x / z == y / z
    ensures x == y
  {
    assert x == x / z * z && y == y / z * z;
  }
}
