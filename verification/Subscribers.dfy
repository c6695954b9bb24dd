/** Subscribers do not influence one another: scoring a list and keeping one subscriber's alerts gives the same as
    scoring that subscriber's records alone. */
module Subscribers {
  import opened Cdr
  import opened Rules
  import opened Windows
  import opened Pipeline
  import opened Playground

  function RecordsOf(recs: seq<Record>, caller: string): seq<Record> {
    if recs == [] then []
    else
      var last := recs[|recs| - 1];
      RecordsOf(recs[..|recs| - 1], caller) + if last.caller == caller then [last] else []
  }

  function AlertsFor(alerts: seq<Alert>, caller: string): seq<Alert> {
    if alerts == [] then []
    else
      var last := alerts[|alerts| - 1];
      AlertsFor(alerts[..|alerts| - 1], caller) + if last.caller == caller then [last] else []
  }

  lemma {:induction false} AlertsForConcat(a: seq<Alert>, b: seq<Alert>, caller: string)
    ensures AlertsFor(a + b, caller) == AlertsFor(a, caller) + AlertsFor(b, caller)
    decreases |b|
  {
    if b == [] {
      assert a + b == a;
    } else {
      AlertsForConcat(a, b[..|b| - 1], caller);
      assert (a + b)[..|a + b| - 1] == a + b[..|b| - 1];
    }
  }

  lemma {:induction false} AlertsForAll(alerts: seq<Alert>, caller: string)
    requires forall a | a in alerts :: a.caller == caller
    ensures AlertsFor(alerts, caller) == alerts
  {
    if alerts != [] {
      AlertsForAll(alerts[..|alerts| - 1], caller);
    }
  }

  lemma {:induction false} AlertsForNone(alerts: seq<Alert>, caller: string)
    requires forall a | a in alerts :: a.caller != caller
    ensures AlertsFor(alerts, caller) == []
  {
    if alerts != [] {
      AlertsForNone(alerts[..|alerts| - 1], caller);
    }
  }

  /** Two maps hold the same value, or none, under a key. */
  predicate SameAt<T(==)>(m: map<string, T>, m': map<string, T>, key: string) {
    (key in m <==> key in m') && (key in m ==> m[key] == m'[key])
  }

  /** The two states hold the same about this subscriber. */
  predicate SameFor(maps: Maps, maps': Maps, caller: string) {
    && SameAt(maps.velWin, maps'.velWin, caller)
    && SameAt(maps.lastLoc, maps'.lastLoc, caller)
    && SameAt(maps.spendWin, maps'.spendWin, caller)
    && forall rule :: SameAt(maps.alerted, maps'.alerted, Keyspace.RuleCaller(rule, caller))
  }

  lemma FireTouchesItsCaller(maps: Maps, cooldownMs: int, rec: Record, rule: Rule, verdict: Option<real>, caller: string)
    requires rec.caller != caller
    ensures SameFor(maps, Fire(maps, cooldownMs, rec, rule, verdict).maps, caller)
  {
    forall rule' ensures Keyspace.RuleCaller(rule', caller) != Keyspace.RuleCaller(rule, rec.caller) {
      if Keyspace.RuleCaller(rule', caller) == Keyspace.RuleCaller(rule, rec.caller) {
        Keyspace.RuleCallerInjective(rule', caller, rule, rec.caller);
      }
    }
  }

  lemma AlertedIsLocal(maps: Maps, maps': Maps, key: string, ms: int, caller: string)
    requires SameFor(maps, maps', caller)
    ensures SameFor(maps.(alerted := maps.alerted[key := ms]), maps'.(alerted := maps'.alerted[key := ms]), caller)
  {
    var a, b := maps.alerted[key := ms], maps'.alerted[key := ms];
    forall rule ensures SameAt(a, b, Keyspace.RuleCaller(rule, caller)) {
      assert SameAt(maps.alerted, maps'.alerted, Keyspace.RuleCaller(rule, caller));
    }
  }

  lemma FireIsLocal(maps: Maps, maps': Maps, cooldownMs: int, rec: Record, rule: Rule, verdict: Option<real>)
    requires SameFor(maps, maps', rec.caller)
    ensures var f, f' := Fire(maps, cooldownMs, rec, rule, verdict), Fire(maps', cooldownMs, rec, rule, verdict);
            f.alerts == f'.alerts && SameFor(f.maps, f'.maps, rec.caller)
  {
    assert SameAt(maps.alerted, maps'.alerted, Keyspace.RuleCaller(rule, rec.caller));
    AlertedIsLocal(maps, maps', Keyspace.RuleCaller(rule, rec.caller), rec.Ms(), rec.caller);
  }

  lemma ScoreIsLocal(c: Config, maps: Maps, maps': Maps, rec: Record)
    requires SameFor(maps, maps', rec.caller)
    ensures var f, f' := Score(c, maps, rec), Score(c, maps', rec);
            f.alerts == f'.alerts && SameFor(f.maps, f'.maps, rec.caller)
  {
    VelocityIsLocal(c, maps, maps', rec);
    var one, one' := ScoreVelocity(c, maps, rec).maps, ScoreVelocity(c, maps', rec).maps;
    TravelIsLocal(c, one, one', rec);
    IrsfIsLocal(c, ScoreTravel(c, one, rec).maps, ScoreTravel(c, one', rec).maps, rec);
  }

  lemma VelocityIsLocal(c: Config, maps: Maps, maps': Maps, rec: Record)
    requires SameFor(maps, maps', rec.caller)
    ensures var f, f' := ScoreVelocity(c, maps, rec), ScoreVelocity(c, maps', rec);
            f.alerts == f'.alerts && SameFor(f.maps, f'.maps, rec.caller)
  {
    var w := Shift(VelocityOf(maps, rec.caller), rec.id, rec.Ms(), c.velocityWindowMs);
    assert VelocityOf(maps', rec.caller) == VelocityOf(maps, rec.caller);
    FireIsLocal(maps.(velWin := maps.velWin[rec.caller := w]), maps'.(velWin := maps'.velWin[rec.caller := w]),
                c.cooldownMs, rec, Velocity, VelocityVerdict(c.velocityThreshold, |w|));
  }

  lemma TravelIsLocal(c: Config, maps: Maps, maps': Maps, rec: Record)
    requires SameFor(maps, maps', rec.caller)
    ensures var f, f' := ScoreTravel(c, maps, rec), ScoreTravel(c, maps', rec);
            f.alerts == f'.alerts && SameFor(f.maps, f'.maps, rec.caller)
  {
    if rec.cell in c.cells {
      FireIsLocal(maps, maps', c.cooldownMs, rec, ImpossibleTravel, TravelVerdictOf(c, maps, rec));
    }
  }

  lemma IrsfIsLocal(c: Config, maps: Maps, maps': Maps, rec: Record)
    requires SameFor(maps, maps', rec.caller)
    ensures var f, f' := ScoreIrsf(c, maps, rec), ScoreIrsf(c, maps', rec);
            f.alerts == f'.alerts && SameFor(f.maps, f'.maps, rec.caller)
  {
    var t := c.TariffOf(rec);
    if t.premium {
      var item := SpendItem(rec.Ms(), Spend.Cost(rec.durationSec, t.ratePerMin));
      var w := ShiftItems(SpendingOf(maps, rec.caller), rec.id, item, c.irsfWindowMs);
      assert SpendingOf(maps', rec.caller) == SpendingOf(maps, rec.caller);
      FireIsLocal(maps.(spendWin := maps.spendWin[rec.caller := w]), maps'.(spendWin := maps'.spendWin[rec.caller := w]),
                  c.cooldownMs, rec, Irsf, IrsfVerdict(c.irsfThreshold, Spend.ExactTotal(CostsIn(w))));
    }
  }

  lemma SameForTransitive(a: Maps, b: Maps, d: Maps, caller: string)
    requires SameFor(a, b, caller) && SameFor(b, d, caller)
    ensures SameFor(a, d, caller)
  {
    forall rule ensures SameAt(a.alerted, d.alerted, Keyspace.RuleCaller(rule, caller)) {
      assert SameAt(a.alerted, b.alerted, Keyspace.RuleCaller(rule, caller));
      assert SameAt(b.alerted, d.alerted, Keyspace.RuleCaller(rule, caller));
    }
  }

  /** A record leaves other subscribers' state alone. */
  lemma ScoreTouchesItsCaller(c: Config, maps: Maps, rec: Record, caller: string)
    requires rec.caller != caller
    ensures SameFor(maps, Score(c, maps, rec).maps, caller)
  {
    var one := ScoreVelocity(c, maps, rec).maps;
    var two := ScoreTravel(c, one, rec).maps;
    VelocityTouchesItsCaller(c, maps, rec, caller);
    TravelTouchesItsCaller(c, one, rec, caller);
    IrsfTouchesItsCaller(c, two, rec, caller);
    SameForTransitive(maps, one, two, caller);
    SameForTransitive(maps, two, ScoreIrsf(c, two, rec).maps, caller);
  }

  lemma VelocityTouchesItsCaller(c: Config, maps: Maps, rec: Record, caller: string)
    requires rec.caller != caller
    ensures SameFor(maps, ScoreVelocity(c, maps, rec).maps, caller)
  {
    var w := Shift(VelocityOf(maps, rec.caller), rec.id, rec.Ms(), c.velocityWindowMs);
    FireTouchesItsCaller(maps.(velWin := maps.velWin[rec.caller := w]), c.cooldownMs, rec, Velocity,
                         VelocityVerdict(c.velocityThreshold, |w|), caller);
  }

  lemma TravelTouchesItsCaller(c: Config, maps: Maps, rec: Record, caller: string)
    requires rec.caller != caller
    ensures SameFor(maps, ScoreTravel(c, maps, rec).maps, caller)
  {
    if rec.cell in c.cells {
      FireTouchesItsCaller(maps, c.cooldownMs, rec, ImpossibleTravel, TravelVerdictOf(c, maps, rec), caller);
    }
  }

  lemma IrsfTouchesItsCaller(c: Config, maps: Maps, rec: Record, caller: string)
    requires rec.caller != caller
    ensures SameFor(maps, ScoreIrsf(c, maps, rec).maps, caller)
  {
    var t := c.TariffOf(rec);
    if t.premium {
      var item := SpendItem(rec.Ms(), Spend.Cost(rec.durationSec, t.ratePerMin));
      var w := ShiftItems(SpendingOf(maps, rec.caller), rec.id, item, c.irsfWindowMs);
      FireTouchesItsCaller(maps.(spendWin := maps.spendWin[rec.caller := w]), c.cooldownMs, rec, Irsf,
                           IrsfVerdict(c.irsfThreshold, Spend.ExactTotal(CostsIn(w))), caller);
    }
  }

  lemma ScoreAlertsItsCaller(c: Config, maps: Maps, rec: Record)
    ensures forall a | a in Score(c, maps, rec).alerts :: a.caller == rec.caller && a.id == rec.id
  {
  }

  /** One more record changes both sides alike. */
  lemma FilteringStep(c: Config, maps: Maps, alone: Maps, rec: Record, caller: string)
    requires SameFor(maps, alone, caller)
    ensures rec.caller == caller ==>
              AlertsFor(Score(c, maps, rec).alerts, caller) == Score(c, alone, rec).alerts
              && SameFor(Score(c, maps, rec).maps, Score(c, alone, rec).maps, caller)
    ensures rec.caller != caller ==>
              AlertsFor(Score(c, maps, rec).alerts, caller) == [] && SameFor(Score(c, maps, rec).maps, alone, caller)
  {
    ScoreAlertsItsCaller(c, maps, rec);
    if rec.caller == caller {
      AlertsForAll(Score(c, maps, rec).alerts, caller);
      ScoreIsLocal(c, maps, alone, rec);
    } else {
      AlertsForNone(Score(c, maps, rec).alerts, caller);
      ScoreTouchesItsCaller(c, maps, rec, caller);
      SameForTransitive(alone, maps, Score(c, maps, rec).maps, caller);
      SameForSymmetric(alone, Score(c, maps, rec).maps, caller);
    }
  }

  lemma SameForSymmetric(a: Maps, b: Maps, caller: string)
    requires SameFor(a, b, caller)
    ensures SameFor(b, a, caller)
  {
  }

  lemma RecordsOfLast(recs: seq<Record>, caller: string)
    requires recs != []
    ensures var init, last := recs[..|recs| - 1], recs[|recs| - 1];
            RecordsOf(recs, caller) == if last.caller == caller then RecordsOf(init, caller) + [last] else RecordsOf(init, caller)
  {
  }

  /** The subscriber's records alone, with one more record of anyone. */
  lemma AloneOneMore(c: Config, recs: seq<Record>, caller: string)
    requires recs != []
    ensures var alone, last := ScoreAll(c, RecordsOf(recs[..|recs| - 1], caller)), recs[|recs| - 1];
            ScoreAll(c, RecordsOf(recs, caller))
            == if last.caller == caller
               then Scored(Score(c, alone.maps, last).maps, alone.alerts + Score(c, alone.maps, last).alerts)
               else alone
  {
    RecordsOfLast(recs, caller);
    ScoreAllSnoc(c, RecordsOf(recs[..|recs| - 1], caller), recs[|recs| - 1]);
  }

  /** Filtering by subscriber commutes with scoring: the same alerts in the same order, and the same state, however
      other subscribers' records are interleaved. */
  lemma {:induction false} FilteringCommutes(c: Config, recs: seq<Record>, caller: string)
    ensures var all, alone := ScoreAll(c, recs), ScoreAll(c, RecordsOf(recs, caller));
            AlertsFor(all.alerts, caller) == alone.alerts && SameFor(all.maps, alone.maps, caller)
  {
    if recs != [] {
      var init, last := recs[..|recs| - 1], recs[|recs| - 1];
      FilteringCommutes(c, init, caller);
      FilteringStep(c, ScoreAll(c, init).maps, ScoreAll(c, RecordsOf(init, caller)).maps, last, caller);
      AlertsForConcat(ScoreAll(c, init).alerts, Score(c, ScoreAll(c, init).maps, last).alerts, caller);
      AloneOneMore(c, recs, caller);
    }
  }

  /** Two logs that interleave the same per-subscriber lists differently raise the same alerts about each of them. */
  lemma InterleavingIsIrrelevant(c: Config, recs: seq<Record>, recs': seq<Record>, caller: string)
    requires RecordsOf(recs, caller) == RecordsOf(recs', caller)
    ensures AlertsFor(ScoreAll(c, recs).alerts, caller) == AlertsFor(ScoreAll(c, recs').alerts, caller)
  {
    FilteringCommutes(c, recs, caller);
    FilteringCommutes(c, recs', caller);
  }
}
