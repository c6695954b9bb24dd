/** What the playground's alerts mean over whole runs: an alert is raised exactly when its rule triggers and none was
    raised about the subscriber within the cooldown; for velocity, when a burst of distinct calls completes. */
module Bursts {
  import opened Cdr
  import opened Rules
  import opened Windows
  import opened Redis
  import opened Pipeline
  import opened Playground

  // ---- a rule's verdict, and what scoring one record raises -----------------------------------------------

  ghost function EngineVerdict(c: Config, maps: Maps, rec: Record, rule: Rule): Option<real> {
    match rule
    case Velocity =>
      VelocityVerdict(c.velocityThreshold, |Shift(VelocityOf(maps, rec.caller), rec.id, rec.Ms(), c.velocityWindowMs)|)
    case ImpossibleTravel => if rec.cell in c.cells then TravelVerdictOf(c, maps, rec) else None
    case Irsf =>
      var t := c.TariffOf(rec);
      if !t.premium then None
      else
        var item := SpendItem(rec.Ms(), Spend.Cost(rec.durationSec, t.ratePerMin));
        IrsfVerdict(c.irsfThreshold, Spend.ExactTotal(CostsIn(ShiftItems(SpendingOf(maps, rec.caller), rec.id, item, c.irsfWindowMs))))
  }

  predicate Cooling(c: Config, alerted: map<string, int>, rec: Record, rule: Rule) {
    var key := Keyspace.RuleCaller(rule, rec.caller);
    key in alerted && rec.Ms() - alerted[key] < c.cooldownMs
  }

  /** The score the rule raises on this record, if it raises one. */
  ghost function Raised(c: Config, maps: Maps, rec: Record, rule: Rule): Option<real> {
    if Cooling(c, maps.alerted, rec, rule) then None else EngineVerdict(c, maps, rec, rule)
  }

  function Flagged(alerted: map<string, int>, rec: Record, rule: Rule, raised: Option<real>): map<string, int> {
    if raised.None? then alerted else alerted[Keyspace.RuleCaller(rule, rec.caller) := rec.Ms()]
  }

  function AsAlerts(rec: Record, rule: Rule, raised: Option<real>): seq<Alert> {
    match raised
    case None => []
    case Some(score) => [AlertFor(rec, rule, score)]
  }

  predicate Raises(scored: Scored, maps: Maps, rec: Record, rule: Rule, raised: Option<real>) {
    && scored.alerts == AsAlerts(rec, rule, raised)
    && scored.maps.alerted == Flagged(maps.alerted, rec, rule, raised)
  }

  lemma VelocityRaises(c: Config, maps: Maps, rec: Record)
    ensures var scored := ScoreVelocity(c, maps, rec);
            && Raises(scored, maps, rec, Velocity, Raised(c, maps, rec, Velocity))
            && scored.maps == maps.(velWin := scored.maps.velWin, alerted := scored.maps.alerted)
            && VelocityOf(scored.maps, rec.caller)
               == Shift(VelocityOf(maps, rec.caller), rec.id, rec.Ms(), c.velocityWindowMs)
            && forall caller | caller != rec.caller :: VelocityOf(scored.maps, caller) == VelocityOf(maps, caller)
  {
  }

  lemma TravelRaises(c: Config, maps: Maps, rec: Record)
    ensures var scored := ScoreTravel(c, maps, rec);
            && Raises(scored, maps, rec, ImpossibleTravel, Raised(c, maps, rec, ImpossibleTravel))
            && scored.maps == maps.(lastLoc := scored.maps.lastLoc, alerted := scored.maps.alerted)
  {
  }

  lemma IrsfRaises(c: Config, maps: Maps, rec: Record)
    ensures var scored := ScoreIrsf(c, maps, rec);
            && Raises(scored, maps, rec, Irsf, Raised(c, maps, rec, Irsf))
            && scored.maps == maps.(spendWin := scored.maps.spendWin, alerted := scored.maps.alerted)
  {
  }

  lemma RaisedAlike(c: Config, maps: Maps, maps': Maps, rec: Record, rule: Rule, other: Rule, raised: Option<real>)
    requires rule != other && maps'.alerted == Flagged(maps.alerted, rec, other, raised)
    requires EngineVerdict(c, maps', rec, rule) == EngineVerdict(c, maps, rec, rule)
    ensures Raised(c, maps', rec, rule) == Raised(c, maps, rec, rule)
  {
    if Keyspace.RuleCaller(rule, rec.caller) == Keyspace.RuleCaller(other, rec.caller) {
      Keyspace.RuleCallerInjective(rule, rec.caller, other, rec.caller);
    }
  }

  /** The three rules of one record do not get in each other's way. */
  lemma ScoreRaises(c: Config, maps: Maps, rec: Record)
    ensures var v, t, i := Raised(c, maps, rec, Velocity), Raised(c, maps, rec, ImpossibleTravel), Raised(c, maps, rec, Irsf);
            var scored := Score(c, maps, rec);
            && scored.alerts == AsAlerts(rec, Velocity, v) + AsAlerts(rec, ImpossibleTravel, t) + AsAlerts(rec, Irsf, i)
            && scored.maps.alerted
               == Flagged(Flagged(Flagged(maps.alerted, rec, Velocity, v), rec, ImpossibleTravel, t), rec, Irsf, i)
  {
    var one := ScoreVelocity(c, maps, rec).maps;
    var two := ScoreTravel(c, one, rec).maps;
    VelocityRaises(c, maps, rec);
    TravelRaises(c, one, rec);
    IrsfRaises(c, two, rec);
    var v, t := Raised(c, maps, rec, Velocity), Raised(c, one, rec, ImpossibleTravel);
    RaisedAlike(c, maps, one, rec, ImpossibleTravel, Velocity, v);
    RaisedAlike(c, maps, one, rec, Irsf, Velocity, v);
    RaisedAlike(c, one, two, rec, Irsf, ImpossibleTravel, t);
  }

  function ShiftedWindow(c: Config, maps: Maps, rec: Record): Window {
    Shift(VelocityOf(maps, rec.caller), rec.id, rec.Ms(), c.velocityWindowMs)
  }

  function ItemOf(c: Config, rec: Record): SpendItem {
    SpendItem(rec.Ms(), Spend.Cost(rec.durationSec, c.TariffOf(rec).ratePerMin))
  }

  function ShiftedSpend(c: Config, maps: Maps, rec: Record): SpendWindow {
    ShiftItems(SpendingOf(maps, rec.caller), rec.id, ItemOf(c, rec), c.irsfWindowMs)
  }

  /** What scoring a record does to the maps, the cooldown map aside. */
  lemma ScoreMoves(c: Config, maps: Maps, rec: Record)
    ensures var maps' := Score(c, maps, rec).maps;
            && maps'.velWin == maps.velWin[rec.caller := ShiftedWindow(c, maps, rec)]
            && maps'.lastLoc == (if rec.cell in c.cells
                                 then maps.lastLoc[rec.caller := Location(c.cells[rec.cell], rec.startNs)] else maps.lastLoc)
            && maps'.spendWin == (if c.TariffOf(rec).premium
                                  then maps.spendWin[rec.caller := ShiftedSpend(c, maps, rec)] else maps.spendWin)
  {
    var one := ScoreVelocity(c, maps, rec).maps;
    assert one == maps.(velWin := maps.velWin[rec.caller := ShiftedWindow(c, maps, rec)], alerted := one.alerted);
    var two := ScoreTravel(c, one, rec).maps;
    TravelRaises(c, one, rec);
    IrsfRaises(c, two, rec);
  }

  /** Every alert on a record carries its rule's verdict. */
  lemma AlertsAreRaised(c: Config, maps: Maps, rec: Record, a: Alert)
    requires a in Score(c, maps, rec).alerts
    ensures EngineVerdict(c, maps, rec, a.rule).Some? && a == AlertFor(rec, a.rule, EngineVerdict(c, maps, rec, a.rule).value)
  {
    ScoreRaises(c, maps, rec);
  }

  // ---- whole runs -----------------------------------------------------------------------------------------

  ghost function MapsBefore(c: Config, recs: seq<Record>, i: nat): Maps
    requires i <= |recs|
  {
    ScoreAll(c, recs[..i]).maps
  }

  /** The alerts returned for record i. */
  ghost function AlertsAt(c: Config, recs: seq<Record>, i: nat): seq<Alert>
    requires i < |recs|
  {
    Score(c, MapsBefore(c, recs, i), recs[i]).alerts
  }

  ghost predicate AlertedAt(c: Config, recs: seq<Record>, i: nat, rule: Rule, caller: string)
    requires i < |recs|
  {
    recs[i].caller == caller && exists a | a in AlertsAt(c, recs, i) :: a.rule == rule
  }

  lemma AlertCarriesVerdict(c: Config, recs: seq<Record>, i: nat, a: Alert)
    requires i < |recs| && a in AlertsAt(c, recs, i)
    ensures a.id == recs[i].id && a.caller == recs[i].caller
    ensures EngineVerdict(c, MapsBefore(c, recs, i), recs[i], a.rule) == Some(a.score)
  {
    AlertsAreRaised(c, MapsBefore(c, recs, i), recs[i], a);
  }

  function Pick(rule: Rule, v: Option<real>, t: Option<real>, i: Option<real>): Option<real> {
    match rule
    case Velocity => v
    case ImpossibleTravel => t
    case Irsf => i
  }

  lemma AlertsByRule(rec: Record, v: Option<real>, t: Option<real>, i: Option<real>, rule: Rule)
    ensures var alerts := AsAlerts(rec, Velocity, v) + AsAlerts(rec, ImpossibleTravel, t) + AsAlerts(rec, Irsf, i);
            (exists a | a in alerts :: a.rule == rule) <==> Pick(rule, v, t, i).Some?
  {
    var first, second, third := AsAlerts(rec, Velocity, v), AsAlerts(rec, ImpossibleTravel, t), AsAlerts(rec, Irsf, i);
    if Pick(rule, v, t, i).Some? {
      var a := AlertFor(rec, rule, Pick(rule, v, t, i).value);
      assert a in first || a in second || a in third;
      assert a in first + second + third && a.rule == rule;
    }
  }

  lemma AlertedAtIs(c: Config, recs: seq<Record>, i: nat, rule: Rule, caller: string)
    requires i < |recs|
    ensures AlertedAt(c, recs, i, rule, caller) <==>
              recs[i].caller == caller && Raised(c, MapsBefore(c, recs, i), recs[i], rule).Some?
  {
    var maps, rec := MapsBefore(c, recs, i), recs[i];
    ScoreRaises(c, maps, rec);
    AlertsByRule(rec, Raised(c, maps, rec, Velocity), Raised(c, maps, rec, ImpossibleTravel), Raised(c, maps, rec, Irsf), rule);
  }

  /** The subscriber's records come in event-time order; other subscribers' may come in between at any time. */
  predicate CallerInOrder(recs: seq<Record>, caller: string) {
    forall i, j | 0 <= i < j < |recs| && recs[i].caller == caller && recs[j].caller == caller :: recs[i].Ms() <= recs[j].Ms()
  }

  ghost function Alerting(c: Config, recs: seq<Record>, rule: Rule, caller: string): nat -> bool {
    (j: nat) => j < |recs| && AlertedAt(c, recs, j, rule, caller)
  }

  /** Of the first n records, `last` is the time of the last one that `hit` picks. */
  ghost predicate IsLast(recs: seq<Record>, n: nat, hit: nat -> bool, last: Option<int>)
    requires n <= |recs|
  {
    && (last.Some? ==> exists j: nat :: j < n && hit(j) && recs[j].Ms() == last.value)
    && (forall j: nat | j < n && hit(j) :: last.Some? && recs[j].Ms() <= last.value)
  }

  lemma IsLastMoves(recs: seq<Record>, n: nat, hit: nat -> bool, last: Option<int>, last': Option<int>)
    requires n < |recs| && IsLast(recs, n, hit, last)
    requires hit(n) ==> forall j: nat | j < n && hit(j) :: recs[j].Ms() <= recs[n].Ms()
    requires last' == if hit(n) then Some(recs[n].Ms()) else last
    ensures IsLast(recs, n + 1, hit, last')
  {
    if last'.Some? && !hit(n) {
      var j: nat :| j < n && hit(j) && recs[j].Ms() == last.value;
      assert j < n + 1;
    }
  }

  function LastFlag(maps: Maps, rule: Rule, caller: string): Option<int> {
    var key := Keyspace.RuleCaller(rule, caller);
    if key in maps.alerted then Some(maps.alerted[key]) else None
  }

  /** The cooldown map holds the time of the last alert. */
  ghost predicate LastAlert(c: Config, recs: seq<Record>, n: nat, rule: Rule, caller: string)
    requires n <= |recs|
  {
    IsLast(recs, n, Alerting(c, recs, rule, caller), LastFlag(MapsBefore(c, recs, n), rule, caller))
  }

  lemma MapsOneMore(c: Config, recs: seq<Record>, n: nat)
    requires n < |recs|
    ensures MapsBefore(c, recs, n + 1) == Score(c, MapsBefore(c, recs, n), recs[n]).maps
  {
    assert recs[..n + 1] == recs[..n] + [recs[n]];
    ScoreAllSnoc(c, recs[..n], recs[n]);
  }

  lemma FlaggedMoves(alerted: map<string, int>, rec: Record, rule': Rule, raised: Option<real>, rule: Rule, caller: string)
    ensures var key, flagged := Keyspace.RuleCaller(rule, caller), Flagged(alerted, rec, rule', raised);
            if rec.caller == caller && rule == rule' && raised.Some? then key in flagged && flagged[key] == rec.Ms()
            else (key in flagged <==> key in alerted) && (key in flagged ==> flagged[key] == alerted[key])
  {
    if Keyspace.RuleCaller(rule, caller) == Keyspace.RuleCaller(rule', rec.caller) {
      Keyspace.RuleCallerInjective(rule, caller, rule', rec.caller);
    }
  }

  /** One record sets the subscriber's cooldown entry exactly if it raises an alert. */
  lemma FlagMoves(c: Config, maps: Maps, rec: Record, rule: Rule, caller: string)
    ensures var key, alerted := Keyspace.RuleCaller(rule, caller), Score(c, maps, rec).maps.alerted;
            if rec.caller == caller && Raised(c, maps, rec, rule).Some? then key in alerted && alerted[key] == rec.Ms()
            else (key in alerted <==> key in maps.alerted) && (key in alerted ==> alerted[key] == maps.alerted[key])
  {
    var v, t, i := Raised(c, maps, rec, Velocity), Raised(c, maps, rec, ImpossibleTravel), Raised(c, maps, rec, Irsf);
    ScoreRaises(c, maps, rec);
    var first := Flagged(maps.alerted, rec, Velocity, v);
    var second := Flagged(first, rec, ImpossibleTravel, t);
    FlaggedMoves(maps.alerted, rec, Velocity, v, rule, caller);
    FlaggedMoves(first, rec, ImpossibleTravel, t, rule, caller);
    FlaggedMoves(second, rec, Irsf, i, rule, caller);
  }

  lemma LastFlagMoves(c: Config, recs: seq<Record>, i: nat, rule: Rule, caller: string)
    requires i < |recs|
    ensures LastFlag(MapsBefore(c, recs, i + 1), rule, caller)
            == if AlertedAt(c, recs, i, rule, caller) then Some(recs[i].Ms()) else LastFlag(MapsBefore(c, recs, i), rule, caller)
  {
    MapsOneMore(c, recs, i);
    FlagMoves(c, MapsBefore(c, recs, i), recs[i], rule, caller);
    AlertedAtIs(c, recs, i, rule, caller);
  }

  lemma {:induction false} LastAlertHolds(c: Config, recs: seq<Record>, n: nat, rule: Rule, caller: string)
    requires CallerInOrder(recs, caller) && n <= |recs|
    ensures LastAlert(c, recs, n, rule, caller)
  {
    if n == 0 {
      assert recs[..0] == [];
    } else {
      var i := n - 1;
      var last, last' := LastFlag(MapsBefore(c, recs, i), rule, caller), LastFlag(MapsBefore(c, recs, n), rule, caller);
      LastAlertHolds(c, recs, i, rule, caller);
      LastFlagMoves(c, recs, i, rule, caller);
      IsLastMoves(recs, i, Alerting(c, recs, rule, caller), last, last');
    }
  }

  /** An alert about the subscriber under this rule was raised on an earlier record, less than a cooldown ago. */
  ghost predicate AlertedLately(c: Config, recs: seq<Record>, i: nat, rule: Rule)
    requires i < |recs|
  {
    exists j | 0 <= j < i :: AlertedAt(c, recs, j, rule, recs[i].caller) && recs[i].Ms() - recs[j].Ms() < c.cooldownMs
  }

  /** Record i raises an alert exactly when its rule triggers and none was raised within the cooldown. */
  lemma AlertsExactlyWhen(c: Config, recs: seq<Record>, i: nat, rule: Rule)
    requires i < |recs| && CallerInOrder(recs, recs[i].caller)
    ensures AlertedAt(c, recs, i, rule, recs[i].caller) <==>
              EngineVerdict(c, MapsBefore(c, recs, i), recs[i], rule).Some? && !AlertedLately(c, recs, i, rule)
  {
    AlertedAtIs(c, recs, i, rule, recs[i].caller);
    LastAlertHolds(c, recs, i, rule, recs[i].caller);
  }

  // ---- bursts of calls ------------------------------------------------------------------------------------

  function CallsBy(recs: seq<Record>, caller: string): seq<Call> {
    if recs == [] then []
    else
      var last := recs[|recs| - 1];
      CallsBy(recs[..|recs| - 1], caller) + if last.caller == caller then [Call(last.id, last.Ms())] else []
  }

  lemma ScoreMovesVelocity(c: Config, maps: Maps, rec: Record, caller: string)
    ensures VelocityOf(Score(c, maps, rec).maps, caller)
            == if rec.caller == caller then Shift(VelocityOf(maps, caller), rec.id, rec.Ms(), c.velocityWindowMs)
               else VelocityOf(maps, caller)
  {
    var one := ScoreVelocity(c, maps, rec).maps;
    VelocityRaises(c, maps, rec);
    TravelRaises(c, one, rec);
    IrsfRaises(c, ScoreTravel(c, one, rec).maps, rec);
  }

  lemma ShiftedSnoc(calls: seq<Call>, call: Call, windowMs: int)
    ensures Shifted(calls + [call], windowMs) == Shift(Shifted(calls, windowMs), call.id, call.ms, windowMs)
  {
    assert (calls + [call])[..|calls|] == calls;
  }

  /** The engine's window for a subscriber is the sliding window over that subscriber's calls. */
  lemma {:induction false} WindowIsShifted(c: Config, recs: seq<Record>, caller: string)
    ensures VelocityOf(ScoreAll(c, recs).maps, caller) == Shifted(CallsBy(recs, caller), c.velocityWindowMs)
  {
    if recs != [] {
      var init, last := recs[..|recs| - 1], recs[|recs| - 1];
      WindowIsShifted(c, init, caller);
      ScoreMovesVelocity(c, ScoreAll(c, init).maps, last, caller);
      ShiftedSnoc(CallsBy(init, caller), Call(last.id, last.Ms()), c.velocityWindowMs);
      assert CallsBy(init, caller) + [] == CallsBy(init, caller);
    }
  }

  lemma {:induction false} CallIn(recs: seq<Record>, caller: string, i: nat)
    requires i < |recs| && recs[i].caller == caller
    ensures Call(recs[i].id, recs[i].Ms()) in CallsBy(recs, caller)
  {
    if i < |recs| - 1 {
      CallIn(recs[..|recs| - 1], caller, i);
    }
  }

  lemma {:induction false} CallFrom(recs: seq<Record>, caller: string, call: Call) returns (i: nat)
    requires call in CallsBy(recs, caller)
    ensures i < |recs| && recs[i].caller == caller && call == Call(recs[i].id, recs[i].Ms())
  {
    var last := recs[|recs| - 1];
    if last.caller == caller && call == Call(last.id, last.Ms()) {
      i := |recs| - 1;
    } else {
      i := CallFrom(recs[..|recs| - 1], caller, call);
    }
  }

  lemma {:induction false} CallsInOrder(recs: seq<Record>, caller: string)
    requires CallerInOrder(recs, caller)
    ensures InOrder(CallsBy(recs, caller))
  {
    if recs != [] {
      var init, last := recs[..|recs| - 1], recs[|recs| - 1];
      CallsInOrder(init, caller);
      if last.caller == caller {
        forall k | 0 <= k < |CallsBy(init, caller)| ensures CallsBy(init, caller)[k].ms <= last.Ms() {
          var i := CallFrom(init, caller, CallsBy(init, caller)[k]);
        }
      }
    }
  }

  /** The distinct calls of record i's subscriber, up to and including record i, in the window that ends with it. */
  function Burst(recs: seq<Record>, i: nat, windowMs: int): set<string>
    requires i < |recs|
  {
    set j | 0 <= j <= i && recs[j].caller == recs[i].caller && recs[j].Ms() > recs[i].Ms() - windowMs :: recs[j].id
  }

  lemma BurstIsRecent(recs: seq<Record>, i: nat, windowMs: int)
    requires i < |recs|
    ensures var calls := CallsBy(recs[..i + 1], recs[i].caller);
            && calls != [] && calls[|calls| - 1] == Call(recs[i].id, recs[i].Ms())
            && Recent(calls, windowMs) == Burst(recs, i, windowMs)
  {
    var upTo, caller := recs[..i + 1], recs[i].caller;
    var calls := CallsBy(upTo, caller);
    assert upTo[|upTo| - 1] == recs[i];
    forall id | id in Recent(calls, windowMs) ensures id in Burst(recs, i, windowMs) {
      var k :| 0 <= k < |calls| && calls[k].ms > recs[i].Ms() - windowMs && calls[k].id == id;
      var j := CallFrom(upTo, caller, calls[k]);
      assert upTo[j] == recs[j];
    }
    forall id | id in Burst(recs, i, windowMs) ensures id in Recent(calls, windowMs) {
      var j :| 0 <= j <= i && recs[j].caller == caller && recs[j].Ms() > recs[i].Ms() - windowMs && recs[j].id == id;
      assert upTo[j] == recs[j];
      CallIn(upTo, caller, j);
    }
  }

  lemma CountIsBurst(c: Config, recs: seq<Record>, i: nat)
    requires i < |recs| && CallerInOrder(recs, recs[i].caller) && c.velocityWindowMs > 0
    ensures EngineVerdict(c, MapsBefore(c, recs, i), recs[i], Velocity)
            == VelocityVerdict(c.velocityThreshold, |Burst(recs, i, c.velocityWindowMs)|)
  {
    var upTo, caller := recs[..i + 1], recs[i].caller;
    var calls := CallsBy(upTo, caller);
    BurstIsRecent(recs, i, c.velocityWindowMs);
    CallsInOrder(upTo, caller);
    InOrderCount(calls, c.velocityWindowMs);
    WindowIsShifted(c, upTo, caller);
    MapsOneMore(c, recs, i);
    ScoreMovesVelocity(c, MapsBefore(c, recs, i), recs[i], caller);
    var w := Shifted(calls, c.velocityWindowMs);
    assert |w| == |w.Keys|;
  }

  predicate CompletesBurst(c: Config, recs: seq<Record>, i: nat)
    requires i < |recs|
  {
    0 < c.velocityThreshold <= |Burst(recs, i, c.velocityWindowMs)|
  }

  /** Sound: a velocity alert is backed by a burst, and its score is the size of the burst over the threshold. */
  lemma VelocityAlertIsBacked(c: Config, recs: seq<Record>, i: nat, a: Alert)
    requires i < |recs| && CallerInOrder(recs, recs[i].caller) && c.velocityWindowMs > 0
    requires a in AlertsAt(c, recs, i) && a.rule == Velocity
    ensures a.id == recs[i].id && a.caller == recs[i].caller && CompletesBurst(c, recs, i)
    ensures a.score == |Burst(recs, i, c.velocityWindowMs)| as real / c.velocityThreshold as real
  {
    CountIsBurst(c, recs, i);
    AlertCarriesVerdict(c, recs, i, a);
  }

  /** Complete: a record that completes a burst has a velocity alert about its subscriber within the cooldown that
      ends with it. */
  lemma BurstIsAlerted(c: Config, recs: seq<Record>, i: nat) returns (j: nat)
    requires i < |recs| && CallerInOrder(recs, recs[i].caller) && c.velocityWindowMs > 0 && c.cooldownMs > 0
    requires CompletesBurst(c, recs, i)
    ensures j <= i && AlertedAt(c, recs, j, Velocity, recs[i].caller)
    ensures recs[i].Ms() - c.cooldownMs < recs[j].Ms() <= recs[i].Ms()
  {
    CountIsBurst(c, recs, i);
    AlertsExactlyWhen(c, recs, i, Velocity);
    if AlertedLately(c, recs, i, Velocity) {
      j :| 0 <= j < i && AlertedAt(c, recs, j, Velocity, recs[i].caller) && recs[i].Ms() - recs[j].Ms() < c.cooldownMs;
    } else {
      j := i;
    }
  }
}
