/** The in-memory engine of cmd/playground: the same rules over maps instead of Redis, with event time as the clock. */
module Playground {
  import opened Cdr
  import opened Rules
  import opened Windows
  import opened Redis
  import opened Pipeline
  import Keyspace

  datatype SpendItem = SpendItem(ms: int, cost: real)

  type SpendWindow = map<string, SpendItem>

  /** The engine's four maps. The cooldown map is keyed by the string "rule:caller". */
  datatype Maps = Maps(velWin: map<string, Window>, lastLoc: map<string, Location>,
                       spendWin: map<string, SpendWindow>, alerted: map<string, int>)

  datatype Scored = Scored(maps: Maps, alerts: seq<Alert>)

  function Empty(): Maps {
    Maps(map[], map[], map[], map[])
  }

  function VelocityOf(maps: Maps, caller: string): Window {
    if caller in maps.velWin then maps.velWin[caller] else map[]
  }

  function SpendingOf(maps: Maps, caller: string): SpendWindow {
    if caller in maps.spendWin then maps.spendWin[caller] else map[]
  }

  function DropItems(w: SpendWindow, cutoff: int): SpendWindow {
    map id | id in w && w[id].ms > cutoff :: w[id]
  }

  function ShiftItems(w: SpendWindow, id: string, item: SpendItem, windowMs: int): SpendWindow {
    DropItems(w[id := item], item.ms - windowMs)
  }

  function CostsIn(w: SpendWindow): map<string, real> {
    map id | id in w :: w[id].cost
  }

  // ---- what scoring one record does -----------------------------------------------------------------------

  /** maybeEmit: at most one alert per rule and subscriber within the cooldown. */
  function Fire(maps: Maps, cooldownMs: int, rec: Record, rule: Rule, verdict: Option<real>): Scored {
    var key := Keyspace.RuleCaller(rule, rec.caller);
    match verdict
    case None => Scored(maps, [])
    case Some(score) =>
      if key in maps.alerted && rec.Ms() - maps.alerted[key] < cooldownMs then Scored(maps, [])
      else Scored(maps.(alerted := maps.alerted[key := rec.Ms()]), [AlertFor(rec, rule, score)])
  }

  function ScoreVelocity(c: Config, maps: Maps, rec: Record): Scored {
    var w := Shift(VelocityOf(maps, rec.caller), rec.id, rec.Ms(), c.velocityWindowMs);
    Fire(maps.(velWin := maps.velWin[rec.caller := w]), c.cooldownMs, rec, Velocity,
         VelocityVerdict(c.velocityThreshold, |w|))
  }

  function TravelVerdictOf(c: Config, maps: Maps, rec: Record): Option<real>
    requires rec.cell in c.cells
  {
    if rec.caller in maps.lastLoc
    then LocationVerdict(c, Place(maps.lastLoc[rec.caller]), c.cells[rec.cell], rec.startNs)
    else None
  }

  function ScoreTravel(c: Config, maps: Maps, rec: Record): Scored {
    if rec.cell !in c.cells then Scored(maps, [])
    else
      var fired := Fire(maps, c.cooldownMs, rec, ImpossibleTravel, TravelVerdictOf(c, maps, rec));
      var here := Location(c.cells[rec.cell], rec.startNs);
      fired.(maps := fired.maps.(lastLoc := fired.maps.lastLoc[rec.caller := here]))
  }

  ghost function ScoreIrsf(c: Config, maps: Maps, rec: Record): Scored {
    var t := c.TariffOf(rec);
    if !t.premium then Scored(maps, [])
    else
      var item := SpendItem(rec.Ms(), Spend.Cost(rec.durationSec, t.ratePerMin));
      var w := ShiftItems(SpendingOf(maps, rec.caller), rec.id, item, c.irsfWindowMs);
      Fire(maps.(spendWin := maps.spendWin[rec.caller := w]), c.cooldownMs, rec, Irsf,
           IrsfVerdict(c.irsfThreshold, Spend.ExactTotal(CostsIn(w))))
  }

  ghost function Score(c: Config, maps: Maps, rec: Record): Scored {
    var first := ScoreVelocity(c, maps, rec);
    var second := ScoreTravel(c, first.maps, rec);
    var third := ScoreIrsf(c, second.maps, rec);
    Scored(third.maps, first.alerts + second.alerts + third.alerts)
  }

  /** Scoring a list of records, one after the other. */
  ghost function ScoreAll(c: Config, recs: seq<Record>): Scored {
    if recs == [] then Scored(Empty(), [])
    else
      var before := ScoreAll(c, recs[..|recs| - 1]);
      var last := Score(c, before.maps, recs[|recs| - 1]);
      Scored(last.maps, before.alerts + last.alerts)
  }

  lemma ScoreAllSnoc(c: Config, recs: seq<Record>, rec: Record)
    ensures var f := Score(c, ScoreAll(c, recs).maps, rec);
            ScoreAll(c, recs + [rec]) == Scored(f.maps, ScoreAll(c, recs).alerts + f.alerts)
  {
    assert (recs + [rec])[..|recs|] == recs;
  }

  // ---- the engine -----------------------------------------------------------------------------------------

  class Engine {
    const c: Config
    var velWin: map<string, Window>
    var lastLoc: map<string, Location>
    var spendWin: map<string, SpendWindow>
    var alerted: map<string, int>

    constructor (c: Config)
      ensures this.c == c && Contents() == Empty()
    {
      this.c := c;
      velWin, lastLoc, spendWin, alerted := map[], map[], map[], map[];
    }

    function Contents(): Maps
      reads this
    {
      Maps(velWin, lastLoc, spendWin, alerted)
    }

    method VelocityCount(caller: string, id: string, ms: int) returns (count: nat)
      modifies this`velWin
      ensures velWin == old(velWin)[caller := Shift(VelocityOf(old(Contents()), caller), id, ms, c.velocityWindowMs)]
      ensures count == |velWin[caller]|
    {
      var w: Window := if caller in velWin then velWin[caller] else map[];
      w := w[id := ms];
      ghost var full := w;
      var cutoff := ms - c.velocityWindowMs;
      var left := w.Keys;
      while left != {}
        invariant left <= w.Keys <= full.Keys
        invariant forall i | i in full :: i in w <==> i in left || full[i] > cutoff
        invariant forall i | i in w :: w[i] == full[i]
        decreases |left|
      {
        var i :| i in left;
        left := left - {i};
        if w[i] <= cutoff {
          w := w - {i};
        }
      }
      assert w == Drop(full, cutoff);
      velWin := velWin[caller := w];
      count := |w|;
    }

    lemma SumOneMore(costs: map<string, real>, id: string, cost: real)
      requires id !in costs
      ensures Spend.ExactTotal(costs[id := cost]) == Spend.ExactTotal(costs) + cost
    {
      var more := costs[id := cost];
      Spend.ExactTotalRemove(more, id);
      assert more - {id} == costs;
    }

    /** The items not yet visited and the visited ones that stay are left, as they were. */
    ghost predicate Pruned(full: SpendWindow, w: SpendWindow, left: set<string>, cutoff: int) {
      && left <= w.Keys <= full.Keys
      && (forall i | i in full :: i in w <==> i in left || full[i].ms > cutoff)
      && (forall i | i in w :: w[i] == full[i])
    }

    /** The costs of the visited items that stay. */
    ghost predicate Summed(full: SpendWindow, w: SpendWindow, left: set<string>, summed: map<string, real>, sum: real) {
      && summed.Keys == w.Keys - left && (forall i | i in summed && i in full :: summed[i] == full[i].cost)
      && sum == Spend.ExactTotal(summed)
    }

    lemma Dropped(full: SpendWindow, w: SpendWindow, left: set<string>, cutoff: int, summed: map<string, real>, sum: real, i: string)
      requires Pruned(full, w, left, cutoff) && Summed(full, w, left, summed, sum) && i in left && w[i].ms <= cutoff
      ensures Pruned(full, w - {i}, left - {i}, cutoff) && Summed(full, w - {i}, left - {i}, summed, sum)
    {
    }

    lemma Kept(full: SpendWindow, w: SpendWindow, left: set<string>, cutoff: int, summed: map<string, real>, sum: real, i: string)
      requires Pruned(full, w, left, cutoff) && Summed(full, w, left, summed, sum) && i in left && w[i].ms > cutoff
      ensures Pruned(full, w, left - {i}, cutoff)
      ensures Summed(full, w, left - {i}, summed[i := w[i].cost], sum + w[i].cost)
    {
      SumOneMore(summed, i, w[i].cost);
    }

    lemma AllVisited(full: SpendWindow, w: SpendWindow, cutoff: int, summed: map<string, real>, sum: real)
      requires Pruned(full, w, {}, cutoff) && Summed(full, w, {}, summed, sum)
      ensures w == DropItems(full, cutoff) && sum == Spend.ExactTotal(CostsIn(w))
    {
      assert summed == CostsIn(w);
    }

    /** The loop that drops and sums. */
    method DropAndSum(full: SpendWindow, cutoff: int) returns (w: SpendWindow, sum: real)
      ensures w == DropItems(full, cutoff) && sum == Spend.ExactTotal(CostsIn(w))
    {
      w := full;
      sum := 0.0;
      var left := w.Keys;
      ghost var summed: map<string, real> := map[];
      while left != {}
        invariant Pruned(full, w, left, cutoff) && Summed(full, w, left, summed, sum)
        decreases |left|
      {
        var i :| i in left;
        if w[i].ms <= cutoff {
          Dropped(full, w, left, cutoff, summed, sum, i);
          w := w - {i};
        } else {
          Kept(full, w, left, cutoff, summed, sum, i);
          sum := sum + w[i].cost;
          summed := summed[i := w[i].cost];
        }
        left := left - {i};
      }
      AllVisited(full, w, cutoff, summed, sum);
    }

    method SpendInWindow(caller: string, id: string, ms: int, cost: real) returns (sum: real)
      modifies this`spendWin
      ensures spendWin == old(spendWin)[caller :=
                ShiftItems(SpendingOf(old(Contents()), caller), id, SpendItem(ms, cost), c.irsfWindowMs)]
      ensures sum == Spend.ExactTotal(CostsIn(spendWin[caller]))
    {
      var w: SpendWindow := if caller in spendWin then spendWin[caller] else map[];
      w, sum := DropAndSum(w[id := SpendItem(ms, cost)], ms - c.irsfWindowMs);
      spendWin := spendWin[caller := w];
    }

    method MaybeEmit(rec: Record, rule: Rule, score: real) returns (alert: Option<Alert>)
      modifies this`alerted
      ensures var fired := Fire(old(Contents()), c.cooldownMs, rec, rule, Some(score));
              && Contents() == fired.maps
              && fired.alerts == match alert case None => [] case Some(a) => [a]
    {
      var key := Keyspace.RuleCaller(rule, rec.caller);
      if key in alerted && rec.Ms() - alerted[key] < c.cooldownMs {
        return None;
      }
      alerted := alerted[key := rec.Ms()];
      return Some(AlertFor(rec, rule, score));
    }

    /** maybeEmit where the rule triggered, nothing where it did not. */
    method Judge(rec: Record, rule: Rule, verdict: Option<real>) returns (alerts: seq<Alert>)
      modifies this`alerted
      ensures Scored(Contents(), alerts) == Fire(old(Contents()), c.cooldownMs, rec, rule, verdict)
    {
      alerts := [];
      match verdict {
        case None =>
        case Some(score) =>
          var alert := MaybeEmit(rec, rule, score);
          if alert.Some? {
            alerts := [alert.value];
          }
      }
    }

    method ScoreRecord(rec: Record) returns (alerts: seq<Alert>)
      modifies this
      ensures Scored(Contents(), alerts) == Score(c, old(Contents()), rec)
    {
      var count := VelocityCount(rec.caller, rec.id, rec.Ms());
      alerts := Judge(rec, Velocity, VelocityVerdict(c.velocityThreshold, count));
      ghost var first := ScoreVelocity(c, old(Contents()), rec);
      assert Scored(Contents(), alerts) == first;

      var more := [];
      if rec.cell in c.cells {
        var here := c.cells[rec.cell];
        if rec.caller in lastLoc {
          more := Judge(rec, ImpossibleTravel, LocationVerdict(c, Place(lastLoc[rec.caller]), here, rec.startNs));
        }
        lastLoc := lastLoc[rec.caller := Location(here, rec.startNs)];
      }
      ghost var second := ScoreTravel(c, first.maps, rec);
      assert Scored(Contents(), more) == second;
      alerts := alerts + more;

      more := [];
      var t := TariffCatalog.Lookup(c.tariffs, rec.callee);
      if t.premium {
        var spend := SpendInWindow(rec.caller, rec.id, rec.Ms(), Spend.Cost(rec.durationSec, t.ratePerMin));
        more := Judge(rec, Irsf, IrsfVerdict(c.irsfThreshold, spend));
      }
      assert Scored(Contents(), more) == ScoreIrsf(c, second.maps, rec);
      alerts := alerts + more;
    }
  }
}
