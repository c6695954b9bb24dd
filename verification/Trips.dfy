/** The travel rule over whole runs of the engine: it compares a call with the subscriber's last call from a known cell. */
module Trips {
  import opened Cdr
  import opened Rules
  import opened Pipeline
  import opened Playground
  import opened Bursts

  /** Of the first n records, j is the last one of the subscriber from a known cell. */
  predicate IsLastFix(c: Config, recs: seq<Record>, n: nat, caller: string, j: nat) {
    && j < n <= |recs| && recs[j].caller == caller && recs[j].cell in c.cells
    && forall k | j < k < n && recs[k].caller == caller :: recs[k].cell !in c.cells
  }

  predicate NoFix(c: Config, recs: seq<Record>, n: nat, caller: string) {
    n <= |recs| && forall k | 0 <= k < n && recs[k].caller == caller :: recs[k].cell !in c.cells
  }

  /** The engine remembers that call's place and time, and nothing if there was none. */
  ghost predicate Remembers(c: Config, recs: seq<Record>, n: nat, caller: string, maps: Maps) {
    && (NoFix(c, recs, n, caller) ==> caller !in maps.lastLoc)
    && (forall j: nat | IsLastFix(c, recs, n, caller, j) ::
          caller in maps.lastLoc && maps.lastLoc[caller].point == c.cells[recs[j].cell]
          && maps.lastLoc[caller].atNs == recs[j].startNs)
  }

  lemma FixOneMore(c: Config, recs: seq<Record>, n: nat, caller: string, j: nat)
    requires n < |recs|
    ensures IsLastFix(c, recs, n + 1, caller, j) <==>
              if recs[n].caller == caller && recs[n].cell in c.cells then j == n else IsLastFix(c, recs, n, caller, j)
  {
    if recs[n].caller == caller && recs[n].cell in c.cells && j < n {
      assert !(j < n < n + 1 && recs[n].caller == caller && recs[n].cell !in c.cells);
    }
  }

  lemma {:induction false} LastFixIsRemembered(c: Config, recs: seq<Record>, n: nat, caller: string)
    requires n <= |recs|
    ensures Remembers(c, recs, n, caller, MapsBefore(c, recs, n))
  {
    if n == 0 {
      assert recs[..0] == [];
    } else {
      var i := n - 1;
      LastFixIsRemembered(c, recs, i, caller);
      MapsOneMore(c, recs, i);
      ScoreMoves(c, MapsBefore(c, recs, i), recs[i]);
      forall j: nat | IsLastFix(c, recs, n, caller, j)
        ensures var maps := MapsBefore(c, recs, n);
                caller in maps.lastLoc && maps.lastLoc[caller].point == c.cells[recs[j].cell]
                && maps.lastLoc[caller].atNs == recs[j].startNs
      {
        FixOneMore(c, recs, i, caller, j);
      }
    }
  }

  /** The time between two records in nanoseconds, at least one second. */
  function Between(a: Record, b: Record): (dt: int)
    ensures dt >= 1_000_000_000
    ensures dt == a.startNs - b.startNs || dt == b.startNs - a.startNs || dt == 1_000_000_000
    ensures dt >= a.startNs - b.startNs && dt >= b.startNs - a.startNs
  {
    FlooredGap(Gap(a.startNs, b.startNs))
  }

  /** The way from the place of record j to that of record i takes longer than the time between the two. */
  predicate TooFar(c: Config, recs: seq<Record>, i: nat, j: nat)
    requires i < |recs| && j < |recs| && recs[i].cell in c.cells && recs[j].cell in c.cells
  {
    && c.maxKmh > 0.0 && c.distance(c.cells[recs[j].cell], c.cells[recs[i].cell]) > 0.0
    && c.distance(c.cells[recs[j].cell], c.cells[recs[i].cell]) * 3_600_000_000_000.0
       > c.maxKmh * Between(recs[i], recs[j]) as real
  }

  lemma TravelIsJudged(c: Config, recs: seq<Record>, i: nat, j: nat)
    requires i < |recs| && recs[i].cell in c.cells && IsLastFix(c, recs, i, recs[i].caller, j)
    ensures EngineVerdict(c, MapsBefore(c, recs, i), recs[i], ImpossibleTravel)
            == TravelVerdict(c.maxKmh, c.distance(c.cells[recs[j].cell], c.cells[recs[i].cell]), Gap(recs[i].startNs, recs[j].startNs))
  {
    LastFixIsRemembered(c, recs, i, recs[i].caller);
  }

  lemma TooFarTriggers(c: Config, recs: seq<Record>, i: nat, j: nat, v: Option<real>)
    requires i < |recs| && j < |recs| && recs[i].cell in c.cells && recs[j].cell in c.cells
    requires v == TravelVerdict(c.maxKmh, c.distance(c.cells[recs[j].cell], c.cells[recs[i].cell]), Gap(recs[i].startNs, recs[j].startNs))
    ensures v.Some? <==> TooFar(c, recs, i, j)
    ensures v.Some? ==> v.value * c.maxKmh * Between(recs[i], recs[j]) as real
                        == c.distance(c.cells[recs[j].cell], c.cells[recs[i].cell]) * 3_600_000_000_000.0
  {
    TravelExactly(c.maxKmh, c.distance(c.cells[recs[j].cell], c.cells[recs[i].cell]), Gap(recs[i].startNs, recs[j].startNs));
  }

  lemma TravelAlertsAgainst(c: Config, recs: seq<Record>, i: nat, j: nat)
    requires i < |recs| && CallerInOrder(recs, recs[i].caller)
    requires recs[i].cell in c.cells && IsLastFix(c, recs, i, recs[i].caller, j)
    ensures AlertedAt(c, recs, i, ImpossibleTravel, recs[i].caller) <==>
              TooFar(c, recs, i, j) && !AlertedLately(c, recs, i, ImpossibleTravel)
  {
    TravelIsJudged(c, recs, i, j);
    TooFarTriggers(c, recs, i, j, EngineVerdict(c, MapsBefore(c, recs, i), recs[i], ImpossibleTravel));
    AlertsExactlyWhen(c, recs, i, ImpossibleTravel);
  }

  lemma {:induction false} TheLastFix(c: Config, recs: seq<Record>, n: nat, caller: string) returns (j: nat)
    requires n <= |recs| && !NoFix(c, recs, n, caller)
    ensures IsLastFix(c, recs, n, caller, j)
  {
    if recs[n - 1].caller == caller && recs[n - 1].cell in c.cells {
      j := n - 1;
    } else {
      j := TheLastFix(c, recs, n - 1, caller);
    }
  }

  lemma OneLastFix(c: Config, recs: seq<Record>, n: nat, caller: string, j: nat, k: nat)
    requires IsLastFix(c, recs, n, caller, j) && IsLastFix(c, recs, n, caller, k)
    ensures j == k
  {
  }

  lemma NoFixNoAlertAt(c: Config, recs: seq<Record>, i: nat)
    requires i < |recs| && (recs[i].cell !in c.cells || NoFix(c, recs, i, recs[i].caller))
    ensures !AlertedAt(c, recs, i, ImpossibleTravel, recs[i].caller)
  {
    forall a | a in AlertsAt(c, recs, i) ensures a.rule != ImpossibleTravel {
      NoFixNoTravelAlert(c, recs, i, a);
    }
  }

  /** A record raises a travel alert exactly when it comes from a known cell, its subscriber's last call from a known cell
      was too far away for the time between the two, and none was raised within the cooldown. */
  lemma TravelAlertsExactlyWhen(c: Config, recs: seq<Record>, i: nat)
    requires i < |recs| && CallerInOrder(recs, recs[i].caller)
    ensures AlertedAt(c, recs, i, ImpossibleTravel, recs[i].caller) <==>
              && recs[i].cell in c.cells
              && (exists j: nat :: IsLastFix(c, recs, i, recs[i].caller, j) && TooFar(c, recs, i, j))
              && !AlertedLately(c, recs, i, ImpossibleTravel)
  {
    var caller := recs[i].caller;
    if recs[i].cell !in c.cells || NoFix(c, recs, i, caller) {
      NoFixNoAlertAt(c, recs, i);
    } else {
      var j := TheLastFix(c, recs, i, caller);
      TravelAlertsAgainst(c, recs, i, j);
      forall k: nat | IsLastFix(c, recs, i, caller, k) ensures j == k {
        OneLastFix(c, recs, i, caller, j, k);
      }
    }
  }

  /** Sound: a travel alert is about a record that was too far away, and its score is the implied speed in kilometres per
      hour over the maximum speed. */
  lemma TravelAlertIsBacked(c: Config, recs: seq<Record>, i: nat, j: nat, a: Alert)
    requires i < |recs| && recs[i].cell in c.cells && IsLastFix(c, recs, i, recs[i].caller, j)
    requires a in AlertsAt(c, recs, i) && a.rule == ImpossibleTravel
    ensures a.id == recs[i].id && a.caller == recs[i].caller && TooFar(c, recs, i, j)
    ensures var km, hours := c.distance(c.cells[recs[j].cell], c.cells[recs[i].cell]),
                             Between(recs[i], recs[j]) as real / 3_600_000_000_000.0;
            a.score == km / hours / c.maxKmh
  {
    TravelIsJudged(c, recs, i, j);
    AlertCarriesVerdict(c, recs, i, a);
    SpeedScore(c, recs, i, j, a.score);
  }

  lemma SpeedScore(c: Config, recs: seq<Record>, i: nat, j: nat, score: real)
    requires i < |recs| && j < |recs| && recs[i].cell in c.cells && recs[j].cell in c.cells
    requires TravelVerdict(c.maxKmh, c.distance(c.cells[recs[j].cell], c.cells[recs[i].cell]), Gap(recs[i].startNs, recs[j].startNs))
             == Some(score)
    ensures TooFar(c, recs, i, j)
    ensures var km, hours := c.distance(c.cells[recs[j].cell], c.cells[recs[i].cell]),
                             Between(recs[i], recs[j]) as real / 3_600_000_000_000.0;
            score == km / hours / c.maxKmh
  {
    TooFarTriggers(c, recs, i, j, Some(score));
  }

  /** Without a known cell, now or before, there is no travel alert. */
  lemma NoFixNoTravelAlert(c: Config, recs: seq<Record>, i: nat, a: Alert)
    requires i < |recs| && (recs[i].cell !in c.cells || NoFix(c, recs, i, recs[i].caller)) && a in AlertsAt(c, recs, i)
    ensures a.rule != ImpossibleTravel
  {
    LastFixIsRemembered(c, recs, i, recs[i].caller);
    AlertCarriesVerdict(c, recs, i, a);
  }
}
