/** The playground decides as the service does: on every log of distinct records in event-time order, with no faults
    and the wall clock equal to event time, the two produce the same alerts in the same order. */
module PlaygroundRefinement {
  import opened Cdr
  import opened Rules
  import opened Windows
  import opened Redis
  import opened Pipeline
  import opened CleanRun
  import opened OnTime
  import opened Playground

  // ---- the settings and logs on which they agree ----------------------------------------------------------

  /** The windows and the cooldown have a length. */
  predicate Sound(c: Config) {
    c.velocityWindowMs > 0 && c.irsfWindowMs > 0 && c.cooldownMs > 0
  }

  /** The least time that can lie between two calls when the later one finds the location of the earlier one expired:
      24 hours, less what is lost when both times are floored to milliseconds. */
  const FORGOTTEN_NS := DAY_MS * NS_PER_MS - (NS_PER_MS - 1)

  /** Any two cells can be travelled between in that time. */
  predicate Forgettable(c: Config) {
    c.maxKmh <= 0.0
    || forall a, b | a in c.cells && b in c.cells ::
         c.distance(c.cells[a], c.cells[b]) * NS_PER_HOUR as real <= c.maxKmh * FORGOTTEN_NS as real
  }

  predicate Comparable(c: Config) {
    Sound(c) && Forgettable(c)
  }

  /** From 834 km/h on any two points of the globe can be. */
  lemma FastIsForgettable(c: Config)
    requires c.maxKmh >= 834.0 && forall p, q :: c.distance(p, q) <= HALF_CIRCLE_KM
    ensures Forgettable(c)
  {
    TimesMonotone(FORGOTTEN_NS as real, 834.0, c.maxKmh);
  }

  /** The cost needs no rounding at four decimals. */
  predicate Exact(cost: real) {
    Spend.Units(cost) as real / 10000.0 == cost
  }

  predicate ExactCost(c: Config, rec: Record) {
    c.TariffOf(rec).premium ==> Exact(Spend.Cost(rec.durationSec, c.TariffOf(rec).ratePerMin))
  }

  // ---- the simulation relation ----------------------------------------------------------------------------

  predicate WindowsAgree(c: Config, maps: Maps, store: Store, now: int, caller: string) {
    var key := VelocityKey(caller);
    && (key in store <==> caller in maps.velWin)
    && (key in store ==>
          && store[key].value == Members(maps.velWin[caller])
          && Dated(store[key], c.velocityWindowMs, 0)
          && store[key].deadline.ms <= now + 2 * c.velocityWindowMs)
  }

  predicate AtCell(c: Config, point: Point) {
    exists cell | cell in c.cells :: c.cells[cell] == point
  }

  predicate PlacesAgree(c: Config, maps: Maps, store: Store, caller: string) {
    var key := LastLocKey(caller);
    && (key in store <==> caller in maps.lastLoc)
    && (key in store ==>
          && store[key].value == Place(maps.lastLoc[caller])
          && store[key].deadline.At?
          && AtCell(c, maps.lastLoc[caller].point)
          && maps.lastLoc[caller].atNs / NS_PER_MS <= store[key].deadline.ms - LAST_LOC_TTL_MS)
  }

  function NameOf(id: string, item: SpendItem): string {
    Spend.Member(id, Spend.Units(item.cost))
  }

  /** Some item of w goes by this name. */
  ghost predicate Stands(naming: (string, SpendItem) -> string, w: SpendWindow, name: string) {
    exists id :: id in w && name == naming(id, w[id])
  }

  predicate ItemIn(naming: (string, SpendItem) -> string, z: Window, id: string, item: SpendItem) {
    naming(id, item) in z && z[naming(id, item)] == item.ms && item.ms >= 0 && Exact(item.cost)
  }

  ghost predicate ItemsAgree(naming: (string, SpendItem) -> string, z: Window, w: SpendWindow) {
    && (forall id | id in w :: ItemIn(naming, z, id, w[id]))
    && (forall name | name in z :: Stands(naming, w, name))
  }

  ghost predicate SpendsAgree(c: Config, maps: Maps, store: Store, now: int, caller: string) {
    var key := SpendKey(caller);
    && (key in store <==> caller in maps.spendWin)
    && (key in store ==>
          && store[key].value.Members? && ItemsAgree(NameOf, store[key].value.members, maps.spendWin[caller])
          && Dated(store[key], c.irsfWindowMs, 0)
          && store[key].deadline.ms <= now + 2 * c.irsfWindowMs)
  }

  predicate FlagsAgree(c: Config, maps: Maps, store: Store, rule: Rule, caller: string) {
    var key, name := AlertedKey(rule, caller), Keyspace.RuleCaller(rule, caller);
    && (key in store <==> name in maps.alerted)
    && (key in store ==> store[key].deadline == At(maps.alerted[name] + c.cooldownMs))
  }

  ghost predicate Agree(c: Config, maps: Maps, store: Store, now: int) {
    && (forall caller :: WindowsAgree(c, maps, store, now, caller))
    && (forall caller :: PlacesAgree(c, maps, store, caller))
    && (forall caller :: SpendsAgree(c, maps, store, now, caller))
    && (forall rule, caller :: FlagsAgree(c, maps, store, rule, caller))
  }

  /** Only these ids have been seen or charged so far. */
  ghost predicate Touched(maps: Maps, store: Store, ids: set<string>) {
    && (forall id | SeenKey(id) in store :: id in ids)
    && (forall caller, id | caller in maps.spendWin && id in maps.spendWin[caller] :: id in ids)
  }

  // ---- one rule at a time ---------------------------------------------------------------------------------

  /** The two forms of maybeEmit agree, and keep the relation. */
  lemma FireAgrees(c: Config, maps: Maps, store: Store, now: int, rec: Record, rule: Rule, verdict: Option<real>)
    requires Comparable(c) && Agree(c, maps, store, now) && rec.Ms() == now
    ensures var r, f := Flagging(c, store, now, rec, rule, verdict), Fire(maps, c.cooldownMs, rec, rule, verdict);
            && r.alerts == f.alerts
            && Agree(c, f.maps, r.store, now)
            && f.maps == maps.(alerted := f.maps.alerted)
            && (forall key: Key | !key.AlertedKey? :: key in r.store <==> key in store)
  {
    var r, f := Flagging(c, store, now, rec, rule, verdict), Fire(maps, c.cooldownMs, rec, rule, verdict);
    assert FlagsAgree(c, maps, store, rule, rec.caller);
    if verdict.Some? && !Exists(store, AlertedKey(rule, rec.caller), now) {
      forall caller ensures WindowsAgree(c, f.maps, r.store, now, caller) {
        assert WindowsAgree(c, maps, store, now, caller);
      }
      forall caller ensures PlacesAgree(c, f.maps, r.store, caller) {
        assert PlacesAgree(c, maps, store, caller);
      }
      forall caller ensures SpendsAgree(c, f.maps, r.store, now, caller) {
        assert SpendsAgree(c, maps, store, now, caller);
      }
      forall rule', caller ensures FlagsAgree(c, f.maps, r.store, rule', caller) {
        assert FlagsAgree(c, maps, store, rule', caller);
        if Keyspace.RuleCaller(rule', caller) == Keyspace.RuleCaller(rule, rec.caller) {
          Keyspace.RuleCallerInjective(rule', caller, rule, rec.caller);
        }
      }
    }
  }

  lemma CountAgrees(c: Config, maps: Maps, store: Store, now: int, rec: Record)
    requires Comparable(c) && Agree(c, maps, store, now) && rec.Ms() == now && now >= 0
    ensures var w := Shift(VelocityOf(maps, rec.caller), rec.id, now, c.velocityWindowMs);
            var store' := SlideKey(store, VelocityKey(rec.caller), rec.id, now, c.velocityWindowMs, now);
            && store'[VelocityKey(rec.caller)].value == Members(w)
            && Agree(c, maps.(velWin := maps.velWin[rec.caller := w]), store', now)
  {
    var key := VelocityKey(rec.caller);
    var w := Shift(VelocityOf(maps, rec.caller), rec.id, now, c.velocityWindowMs);
    var store' := SlideKey(store, key, rec.id, now, c.velocityWindowMs, now);
    var maps' := maps.(velWin := maps.velWin[rec.caller := w]);
    assert WindowsAgree(c, maps, store, now, rec.caller);
    SlideIgnoresExpiry(store, key, rec.id, now, c.velocityWindowMs, now, 0, 0);
    SlideIsShift(VelocityOf(maps, rec.caller), rec.id, now, c.velocityWindowMs);
    forall caller ensures WindowsAgree(c, maps', store', now, caller) {
      assert WindowsAgree(c, maps, store, now, caller);
    }
    forall caller ensures PlacesAgree(c, maps', store', caller) {
      assert PlacesAgree(c, maps, store, caller);
    }
    forall caller ensures SpendsAgree(c, maps', store', now, caller) {
      assert SpendsAgree(c, maps, store, now, caller);
    }
    forall rule, caller ensures FlagsAgree(c, maps', store', rule, caller) {
      assert FlagsAgree(c, maps, store, rule, caller);
    }
  }

  lemma VelocityAgrees(c: Config, maps: Maps, store: Store, now: int, rec: Record)
    requires Comparable(c) && Agree(c, maps, store, now) && rec.Ms() == now && now >= 0
    ensures var r, f := CleanVelocity(c, store, now, rec), ScoreVelocity(c, maps, rec);
            && r.alerts == f.alerts && Agree(c, f.maps, r.store, now) && f.maps.spendWin == maps.spendWin
            && (forall id :: SeenKey(id) in r.store <==> SeenKey(id) in store)
  {
    CountAgrees(c, maps, store, now, rec);
    var w := Shift(VelocityOf(maps, rec.caller), rec.id, now, c.velocityWindowMs);
    var store' := SlideKey(store, VelocityKey(rec.caller), rec.id, now, c.velocityWindowMs, now);
    FireAgrees(c, maps.(velWin := maps.velWin[rec.caller := w]), store', now, rec, Velocity,
               VelocityVerdict(c.velocityThreshold, |w|));
  }

  /** The playground never forgets a location; what Redis has forgotten would not have triggered. */
  lemma TravelVerdictsAgree(c: Config, maps: Maps, store: Store, now: int, rec: Record)
    requires Comparable(c) && Agree(c, maps, store, now) && rec.Ms() == now && rec.cell in c.cells
    ensures LastVerdict(c, store, now, rec) == TravelVerdictOf(c, maps, rec)
  {
    var key := LastLocKey(rec.caller);
    assert PlacesAgree(c, maps, store, rec.caller);
    if key in store && !Alive(store[key], now) && c.maxKmh > 0.0 {
      var last := maps.lastLoc[rec.caller];
      var cell :| cell in c.cells && c.cells[cell] == last.point;
      LongAgoIsHarmless(c.maxKmh, c.distance(last.point, c.cells[rec.cell]), FORGOTTEN_NS, Gap(rec.startNs, last.atNs));
    }
  }

  lemma MoveAgrees(c: Config, maps: Maps, store: Store, now: int, rec: Record)
    requires Agree(c, maps, store, now) && rec.Ms() == now && rec.cell in c.cells
    ensures var here := Location(c.cells[rec.cell], rec.startNs);
            var store' := Set(store, LastLocKey(rec.caller), Place(here), now, LAST_LOC_TTL_MS);
            Agree(c, maps.(lastLoc := maps.lastLoc[rec.caller := here]), store', now)
  {
    var here := Location(c.cells[rec.cell], rec.startNs);
    var store' := Set(store, LastLocKey(rec.caller), Place(here), now, LAST_LOC_TTL_MS);
    var maps' := maps.(lastLoc := maps.lastLoc[rec.caller := here]);
    forall caller ensures WindowsAgree(c, maps', store', now, caller) {
      assert WindowsAgree(c, maps, store, now, caller);
    }
    forall caller ensures PlacesAgree(c, maps', store', caller) {
      assert PlacesAgree(c, maps, store, caller);
    }
    forall caller ensures SpendsAgree(c, maps', store', now, caller) {
      assert SpendsAgree(c, maps, store, now, caller);
    }
    forall rule, caller ensures FlagsAgree(c, maps', store', rule, caller) {
      assert FlagsAgree(c, maps, store, rule, caller);
    }
  }

  lemma TravelAgrees(c: Config, maps: Maps, store: Store, now: int, rec: Record)
    requires Comparable(c) && Agree(c, maps, store, now) && rec.Ms() == now
    ensures var r, f := CleanTravel(c, store, now, rec), ScoreTravel(c, maps, rec);
            && r.alerts == f.alerts && Agree(c, f.maps, r.store, now) && f.maps.spendWin == maps.spendWin
            && (forall id :: SeenKey(id) in r.store <==> SeenKey(id) in store)
  {
    if rec.cell in c.cells {
      TravelVerdictsAgree(c, maps, store, now, rec);
      var verdict := TravelVerdictOf(c, maps, rec);
      FireAgrees(c, maps, store, now, rec, ImpossibleTravel, verdict);
      var r := Flagging(c, store, now, rec, ImpossibleTravel, verdict);
      var f := Fire(maps, c.cooldownMs, rec, ImpossibleTravel, verdict);
      MoveAgrees(c, f.maps, r.store, now, rec);
    }
  }

  ghost predicate TellsApart(naming: (string, SpendItem) -> string) {
    forall i, a, j, b | naming(i, a) == naming(j, b) :: i == j
  }

  lemma NamesTellApart()
    ensures TellsApart(NameOf)
  {
    forall i, a, j, b | NameOf(i, a) == NameOf(j, b) ensures i == j {
      Spend.MemberInjective(i, Spend.Units(a.cost), j, Spend.Units(b.cost));
    }
  }

  lemma SameMembers(z: Window, w: SpendWindow)
    requires ItemsAgree(NameOf, z, w)
    ensures z.Keys == Spend.MembersOf(CostsIn(w))
  {
    forall name | name in z ensures name in Spend.MembersOf(CostsIn(w)) {
      assert Stands(NameOf, w, name);
      var i :| i in w && name == NameOf(i, w[i]);
      assert i in CostsIn(w) && CostsIn(w)[i] == w[i].cost;
    }
    forall name | name in Spend.MembersOf(CostsIn(w)) ensures name in z {
      var i :| i in CostsIn(w) && name == Spend.Member(i, Spend.Units(CostsIn(w)[i]));
      assert ItemIn(NameOf, z, i, w[i]);
    }
  }

  lemma TimesZero(n: nat)
    ensures Spend.Times(0.0, n) == 0.0
  {
  }

  lemma TotalsEqual(z: Window, w: SpendWindow)
    requires ItemsAgree(NameOf, z, w)
    ensures Spend.SpendOf(z.Keys) == Spend.ExactTotal(CostsIn(w))
  {
    var costs := CostsIn(w);
    SameMembers(z, w);
    forall id | id in costs ensures Spend.Near(Spend.Units(costs[id]) as real / 10000.0, costs[id], 0.0) {
      assert ItemIn(NameOf, z, id, w[id]);
    }
    Spend.TotalsAgree(costs, 0.0);
    TimesZero(|costs|);
  }

  function KeptItems(store: Store, caller: string): Window {
    if SpendKey(caller) in store then MembersIn(store[SpendKey(caller)].value) else map[]
  }

  lemma KeptAgree(c: Config, maps: Maps, store: Store, now: int, caller: string)
    requires SpendsAgree(c, maps, store, now, caller)
    ensures ItemsAgree(NameOf, KeptItems(store, caller), SpendingOf(maps, caller))
  {
  }

  function ChargedItems(naming: (string, SpendItem) -> string, z: Window, id: string, item: SpendItem, windowMs: int): Window {
    Evict(z[naming(id, item) := item.ms], item.ms - windowMs)
  }

  lemma ChargedItemsMatch(naming: (string, SpendItem) -> string, z: Window, w: SpendWindow, id: string, item: SpendItem,
                          windowMs: int)
    requires TellsApart(naming)
    requires ItemsAgree(naming, z, w) && id !in w && item.ms >= 0 && Exact(item.cost)
    ensures ItemsAgree(naming, ChargedItems(naming, z, id, item, windowMs), ShiftItems(w, id, item, windowMs))
  {
    var z', w' := ChargedItems(naming, z, id, item, windowMs), ShiftItems(w, id, item, windowMs);
    forall i | i in w' ensures ItemIn(naming, z', i, w'[i]) {
      if i != id {
        assert ItemIn(naming, z, i, w[i]);
      }
    }
    forall name | name in z' ensures Stands(naming, w', name) {
      if name == naming(id, item) {
        assert id in w' && name == naming(id, w'[id]);
      } else {
        assert Stands(naming, w, name);
        var i :| i in w && name == naming(i, w[i]);
        assert ItemIn(naming, z, i, w[i]);
        assert i in w' && name == naming(i, w'[i]);
      }
    }
  }

  lemma ChargedItemsAgree(z: Window, w: SpendWindow, id: string, item: SpendItem, windowMs: int)
    requires ItemsAgree(NameOf, z, w) && id !in w && item.ms >= 0 && Exact(item.cost)
    ensures ItemsAgree(NameOf, ChargedItems(NameOf, z, id, item, windowMs), ShiftItems(w, id, item, windowMs))
    ensures Spend.SpendOf(ChargedItems(NameOf, z, id, item, windowMs).Keys)
            == Spend.ExactTotal(CostsIn(ShiftItems(w, id, item, windowMs)))
  {
    NamesTellApart();
    ChargedItemsMatch(NameOf, z, w, id, item, windowMs);
    TotalsEqual(ChargedItems(NameOf, z, id, item, windowMs), ShiftItems(w, id, item, windowMs));
  }

  function ChargedEntry(z: Window, windowMs: int, now: int): Entry {
    Entry(Members(z), At(now + 2 * windowMs))
  }

  lemma ChargeSlides(c: Config, maps: Maps, store: Store, caller: string, id: string, item: SpendItem)
    requires Comparable(c) && SpendsAgree(c, maps, store, item.ms, caller) && item.ms >= 0
    ensures var z := ChargedItems(NameOf, KeptItems(store, caller), id, item, c.irsfWindowMs);
            && SlideKey(store, SpendKey(caller), NameOf(id, item), item.ms, c.irsfWindowMs, item.ms)
               == store[SpendKey(caller) := ChargedEntry(z, c.irsfWindowMs, item.ms)]
            && Dated(ChargedEntry(z, c.irsfWindowMs, item.ms), c.irsfWindowMs, 0)
  {
    SlideIgnoresExpiry(store, SpendKey(caller), NameOf(id, item), item.ms, c.irsfWindowMs, item.ms, 0, 0);
  }

  /** A change to one sorted set, last location or flag leaves the rest of the relation alone. */
  lemma SpendChangeAgrees(c: Config, maps: Maps, store: Store, now: int, caller: string, w: SpendWindow, e: Entry)
    requires Agree(c, maps, store, now)
    requires e.value.Members? && ItemsAgree(NameOf, e.value.members, w)
    requires Dated(e, c.irsfWindowMs, 0) && e.deadline.ms <= now + 2 * c.irsfWindowMs
    ensures Agree(c, maps.(spendWin := maps.spendWin[caller := w]), store[SpendKey(caller) := e], now)
  {
    var maps', store' := maps.(spendWin := maps.spendWin[caller := w]), store[SpendKey(caller) := e];
    forall other ensures WindowsAgree(c, maps', store', now, other) {
      assert WindowsAgree(c, maps, store, now, other);
    }
    forall other ensures PlacesAgree(c, maps', store', other) {
      assert PlacesAgree(c, maps, store, other);
    }
    forall other ensures SpendsAgree(c, maps', store', now, other) {
      assert SpendsAgree(c, maps, store, now, other);
    }
    forall rule, other ensures FlagsAgree(c, maps', store', rule, other) {
      assert FlagsAgree(c, maps, store, rule, other);
    }
  }

  lemma ChargeAgrees(c: Config, maps: Maps, store: Store, caller: string, id: string, item: SpendItem)
    requires Comparable(c) && Agree(c, maps, store, item.ms) && item.ms >= 0
    requires id !in SpendingOf(maps, caller) && Exact(item.cost)
    ensures var w, z := ShiftItems(SpendingOf(maps, caller), id, item, c.irsfWindowMs),
                        ChargedItems(NameOf, KeptItems(store, caller), id, item, c.irsfWindowMs);
            && Spend.SpendOf(z.Keys) == Spend.ExactTotal(CostsIn(w))
            && Agree(c, maps.(spendWin := maps.spendWin[caller := w]),
                     store[SpendKey(caller) := ChargedEntry(z, c.irsfWindowMs, item.ms)], item.ms)
  {
    assert SpendsAgree(c, maps, store, item.ms, caller);
    KeptAgree(c, maps, store, item.ms, caller);
    var w, z := ShiftItems(SpendingOf(maps, caller), id, item, c.irsfWindowMs),
                ChargedItems(NameOf, KeptItems(store, caller), id, item, c.irsfWindowMs);
    ChargedItemsAgree(KeptItems(store, caller), SpendingOf(maps, caller), id, item, c.irsfWindowMs);
    ChargeSlides(c, maps, store, caller, id, item);
    SpendChangeAgrees(c, maps, store, item.ms, caller, w, ChargedEntry(z, c.irsfWindowMs, item.ms));
  }

  /** The premium branch of the rule, on either side. */
  lemma IrsfForms(c: Config, maps: Maps, store: Store, now: int, rec: Record)
    requires Comparable(c) && Agree(c, maps, store, now) && rec.Ms() == now && now >= 0 && c.TariffOf(rec).premium
    ensures var item := SpendItem(now, Spend.Cost(rec.durationSec, c.TariffOf(rec).ratePerMin));
            var w, z := ShiftItems(SpendingOf(maps, rec.caller), rec.id, item, c.irsfWindowMs),
                        ChargedItems(NameOf, KeptItems(store, rec.caller), rec.id, item, c.irsfWindowMs);
            && CleanIrsf(c, store, now, rec)
               == Flagging(c, store[SpendKey(rec.caller) := ChargedEntry(z, c.irsfWindowMs, now)], now, rec, Irsf,
                           IrsfVerdict(c.irsfThreshold, Spend.SpendOf(z.Keys)))
            && ScoreIrsf(c, maps, rec)
               == Fire(maps.(spendWin := maps.spendWin[rec.caller := w]), c.cooldownMs, rec, Irsf,
                       IrsfVerdict(c.irsfThreshold, Spend.ExactTotal(CostsIn(w))))
  {
    assert SpendsAgree(c, maps, store, now, rec.caller);
    var item := SpendItem(now, Spend.Cost(rec.durationSec, c.TariffOf(rec).ratePerMin));
    ChargeSlides(c, maps, store, rec.caller, rec.id, item);
    assert MemberFor(rec, c.TariffOf(rec).ratePerMin) == NameOf(rec.id, item);
  }

  lemma IrsfAgrees(c: Config, maps: Maps, store: Store, now: int, rec: Record)
    requires Comparable(c) && Agree(c, maps, store, now) && rec.Ms() == now && now >= 0
    requires rec.id !in SpendingOf(maps, rec.caller) && ExactCost(c, rec)
    ensures var r, f := CleanIrsf(c, store, now, rec), ScoreIrsf(c, maps, rec);
            && r.alerts == f.alerts && Agree(c, f.maps, r.store, now)
            && (forall id :: SeenKey(id) in r.store <==> SeenKey(id) in store)
            && (forall caller, id | caller in f.maps.spendWin && id in f.maps.spendWin[caller] ::
                  id == rec.id || (caller in maps.spendWin && id in maps.spendWin[caller]))
  {
    if c.TariffOf(rec).premium {
      IrsfForms(c, maps, store, now, rec);
      var item := SpendItem(now, Spend.Cost(rec.durationSec, c.TariffOf(rec).ratePerMin));
      ChargeAgrees(c, maps, store, rec.caller, rec.id, item);
      var w, z := ShiftItems(SpendingOf(maps, rec.caller), rec.id, item, c.irsfWindowMs),
                  ChargedItems(NameOf, KeptItems(store, rec.caller), rec.id, item, c.irsfWindowMs);
      FireAgrees(c, maps.(spendWin := maps.spendWin[rec.caller := w]),
                 store[SpendKey(rec.caller) := ChargedEntry(z, c.irsfWindowMs, now)], now, rec, Irsf,
                 IrsfVerdict(c.irsfThreshold, Spend.ExactTotal(CostsIn(w))));
    }
  }

  // ---- whole records and whole logs -----------------------------------------------------------------------

  lemma TwoRulesAgree(c: Config, maps: Maps, store: Store, now: int, rec: Record)
    requires Comparable(c) && Agree(c, maps, store, now) && rec.Ms() == now && now >= 0
    ensures var r1, f1 := CleanVelocity(c, store, now, rec), ScoreVelocity(c, maps, rec);
            var r2, f2 := CleanTravel(c, r1.store, now, rec), ScoreTravel(c, f1.maps, rec);
            && r1.alerts == f1.alerts && r2.alerts == f2.alerts
            && Agree(c, f2.maps, r2.store, now) && f2.maps.spendWin == maps.spendWin
            && (forall id :: SeenKey(id) in r2.store <==> SeenKey(id) in store)
  {
    VelocityAgrees(c, maps, store, now, rec);
    TravelAgrees(c, ScoreVelocity(c, maps, rec).maps, CleanVelocity(c, store, now, rec).store, now, rec);
  }

  /** The state between the travel rule and the spend rule, on either side. */
  function ServedTwo(c: Config, store: Store, now: int, rec: Record): Store {
    CleanTravel(c, CleanVelocity(c, store, now, rec).store, now, rec).store
  }

  function ScoredTwo(c: Config, maps: Maps, rec: Record): Maps {
    ScoreTravel(c, ScoreVelocity(c, maps, rec).maps, rec).maps
  }

  /** Only the record's own id is newly seen or charged. */
  lemma TouchedOneMore(maps: Maps, store: Store, maps': Maps, store': Store, id: string, ids: set<string>, now: int, ttlMs: int)
    requires Touched(maps, store, ids)
    requires forall i :: SeenKey(i) in store' <==> SeenKey(i) in store
    requires forall caller, i | caller in maps'.spendWin && i in maps'.spendWin[caller] ::
               i == id || (caller in maps.spendWin && i in maps.spendWin[caller])
    ensures Touched(maps', Set(store', SeenKey(id), Flag, now, ttlMs), ids + {id})
  {
  }

  lemma TwoRulesTouch(c: Config, maps: Maps, store: Store, now: int, rec: Record, ids: set<string>)
    requires Comparable(c) && Agree(c, maps, store, now) && Touched(maps, store, ids)
    requires rec.Ms() == now && now >= 0 && rec.id !in ids
    ensures Agree(c, ScoredTwo(c, maps, rec), ServedTwo(c, store, now, rec), now)
    ensures Touched(ScoredTwo(c, maps, rec), ServedTwo(c, store, now, rec), ids)
    ensures rec.id !in SpendingOf(ScoredTwo(c, maps, rec), rec.caller)
  {
    TwoRulesAgree(c, maps, store, now, rec);
  }

  lemma RecordTouches(c: Config, maps: Maps, store: Store, now: int, rec: Record, ids: set<string>)
    requires Comparable(c) && Agree(c, maps, store, now) && Touched(maps, store, ids)
    requires rec.Ms() == now && now >= 0 && rec.id !in ids && ExactCost(c, rec)
    ensures var r, f := CleanIrsf(c, ServedTwo(c, store, now, rec), now, rec), ScoreIrsf(c, ScoredTwo(c, maps, rec), rec);
            && r.alerts == f.alerts && Agree(c, f.maps, r.store, now)
            && Touched(f.maps, Set(r.store, SeenKey(rec.id), Flag, now, c.SeenTtlMs()), ids + {rec.id})
  {
    var maps2, store2 := ScoredTwo(c, maps, rec), ServedTwo(c, store, now, rec);
    TwoRulesTouch(c, maps, store, now, rec, ids);
    IrsfAgrees(c, maps2, store2, now, rec);
    TouchedOneMore(maps2, store2, ScoreIrsf(c, maps2, rec).maps, CleanIrsf(c, store2, now, rec).store, rec.id, ids, now, c.SeenTtlMs());
  }

  /** One record: the same alerts, and the relation still holds. */
  lemma RecordAgrees(c: Config, maps: Maps, store: Store, now: int, rec: Record, ids: set<string>)
    requires Comparable(c) && Agree(c, maps, store, now) && Touched(maps, store, ids)
    requires rec.Ms() == now && now >= 0 && rec.id !in ids && ExactCost(c, rec)
    ensures var r, f := CleanHandle(c, store, now, rec), Score(c, maps, rec);
            r.alerts == f.alerts && Agree(c, f.maps, r.store, now) && Touched(f.maps, r.store, ids + {rec.id})
  {
    TwoRulesAgree(c, maps, store, now, rec);
    RecordTouches(c, maps, store, now, rec, ids);
    SeenAgrees(c, ScoreIrsf(c, ScoredTwo(c, maps, rec), rec).maps,
               CleanIrsf(c, ServedTwo(c, store, now, rec), now, rec).store, now, rec);
    assert SeenKey(rec.id) !in store;
  }

  lemma SeenAgrees(c: Config, maps: Maps, store: Store, now: int, rec: Record)
    requires Agree(c, maps, store, now)
    ensures Agree(c, maps, Set(store, SeenKey(rec.id), Flag, now, c.SeenTtlMs()), now)
  {
    var store' := Set(store, SeenKey(rec.id), Flag, now, c.SeenTtlMs());
    forall caller ensures WindowsAgree(c, maps, store', now, caller) {
      assert WindowsAgree(c, maps, store, now, caller);
    }
    forall caller ensures PlacesAgree(c, maps, store', caller) {
      assert PlacesAgree(c, maps, store, caller);
    }
    forall caller ensures SpendsAgree(c, maps, store', now, caller) {
      assert SpendsAgree(c, maps, store, now, caller);
    }
    forall rule, caller ensures FlagsAgree(c, maps, store', rule, caller) {
      assert FlagsAgree(c, maps, store, rule, caller);
    }
  }

  lemma LaterAgrees(c: Config, maps: Maps, store: Store, now: int, later: int)
    requires Agree(c, maps, store, now) && now <= later
    ensures Agree(c, maps, store, later)
  {
    forall caller ensures WindowsAgree(c, maps, store, later, caller) {
      assert WindowsAgree(c, maps, store, now, caller);
    }
    forall caller ensures SpendsAgree(c, maps, store, later, caller) {
      assert SpendsAgree(c, maps, store, now, caller);
    }
  }

  /** Distinct record ids, in event-time order from the epoch on, with costs of at most four decimals. */
  predicate WellBehaved(c: Config, recs: seq<Record>) {
    && (forall i | 0 <= i < |recs| :: recs[i].Ms() >= 0 && ExactCost(c, recs[i]))
    && (forall i, j | 0 <= i < j < |recs| :: recs[i].Ms() <= recs[j].Ms() && recs[i].id != recs[j].id)
  }

  function IdsOf(recs: seq<Record>): set<string> {
    set i | 0 <= i < |recs| :: recs[i].id
  }

  function LastMs(recs: seq<Record>): int {
    if recs == [] then 0 else recs[|recs| - 1].Ms()
  }

  ghost predicate InStep(c: Config, recs: seq<Record>) {
    && AlertsOf(Serve(c, recs).alerts) == ScoreAll(c, recs).alerts
    && Agree(c, ScoreAll(c, recs).maps, Serve(c, recs).store, LastMs(recs))
    && Touched(ScoreAll(c, recs).maps, Serve(c, recs).store, IdsOf(recs))
  }

  lemma StartInStep(c: Config)
    ensures InStep(c, [])
  {
    forall caller ensures SpendsAgree(c, Empty(), map[], 0, caller) {}
  }

  lemma WellBehavedLast(c: Config, recs: seq<Record>, rec: Record)
    requires WellBehaved(c, recs + [rec])
    ensures WellBehaved(c, recs)
    ensures LastMs(recs) <= rec.Ms() && rec.Ms() >= 0 && ExactCost(c, rec) && rec.id !in IdsOf(recs)
    ensures IdsOf(recs + [rec]) == IdsOf(recs) + {rec.id}
  {
    var all := recs + [rec];
    assert all[|recs|] == rec && forall i | 0 <= i < |recs| :: all[i] == recs[i];
    forall id | id in IdsOf(recs) + {rec.id} ensures id in IdsOf(all) {
      if id == rec.id {
        assert all[|recs|].id == id;
      } else {
        var i :| 0 <= i < |recs| && recs[i].id == id;
        assert all[i].id == id;
      }
    }
  }

  /** One more record, served and scored. */
  lemma RecordInStep(c: Config, recs: seq<Record>, rec: Record)
    requires Comparable(c) && WellBehaved(c, recs + [rec]) && InStep(c, recs)
    ensures InStep(c, recs + [rec])
  {
    WellBehavedLast(c, recs, rec);
    var maps, before := ScoreAll(c, recs).maps, Serve(c, recs);
    LaterAgrees(c, maps, before.store, LastMs(recs), rec.Ms());
    RecordAgrees(c, maps, before.store, rec.Ms(), rec, IdsOf(recs));
    AlertsConcat(before.alerts, CleanHandle(c, before.store, rec.Ms(), rec).alerts, rec.Ms());
    ScoreAllSnoc(c, recs, rec);
    ServeOneMore(c, recs, rec);
  }

  lemma {:induction false} ServiceInStep(c: Config, recs: seq<Record>)
    requires Comparable(c) && WellBehaved(c, recs)
    ensures InStep(c, recs)
  {
    if recs == [] {
      StartInStep(c);
    } else {
      var init, last := recs[..|recs| - 1], recs[|recs| - 1];
      assert recs == init + [last];
      WellBehavedLast(c, init, last);
      ServiceInStep(c, init);
      RecordInStep(c, init, last);
    }
  }

  /** Serving a log and scoring it raise the same alerts in the same order. */
  lemma ServiceAgrees(c: Config, recs: seq<Record>)
    requires Comparable(c) && WellBehaved(c, recs)
    ensures AlertsOf(Serve(c, recs).alerts) == ScoreAll(c, recs).alerts
  {
    ServiceInStep(c, recs);
  }

  lemma WellBehavedPrefix(c: Config, recs: seq<Record>, n: nat)
    requires WellBehaved(c, recs) && n <= |recs|
    ensures WellBehaved(c, recs[..n])
  {
  }

  /** The playground refinement: in every run without faults in which each record is handled at the moment it starts,
      whenever the service is between two records it has committed all so far and has emitted exactly the playground's
      alerts on them, in the same order. */
  lemma PlaygroundAgrees(c: Config, recs: seq<Record>, now: int, events: seq<Event>)
    requires Comparable(c) && c.log == MessagesOf(recs) && WellBehaved(c, recs)
    requires OnTimeRun(c, Init(now), events) && Run(c, Init(now), events).part.proc.pc == Fetch
    ensures var part := Run(c, Init(now), events).part;
            && part.committed == part.proc.pos <= |recs|
            && AlertsOf(part.alerts) == ScoreAll(c, recs[..part.proc.pos]).alerts
  {
    var n := Run(c, Init(now), events).part.proc.pos;
    OnTimeRunServes(c, recs, now, events);
    WellBehavedPrefix(c, recs, n);
    ServiceAgrees(c, recs[..n]);
  }
}
