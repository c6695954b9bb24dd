/** The spend rule over whole runs of the engine: what its window holds, and that it alerts exactly when the premium calls
    of the last window cost as much as the threshold. */
module Charges {
  import opened Cdr
  import opened Rules
  import opened Pipeline
  import opened Playground
  import opened Bursts

  /** Record j is a premium call of this subscriber. */
  predicate IsCharge(c: Config, recs: seq<Record>, caller: string, j: nat)
    requires j < |recs|
  {
    recs[j].caller == caller && c.TariffOf(recs[j]).premium
  }

  /** Of the first n records, j is the last premium call of its subscriber with its id, and no later one lies a window
      or more after it. */
  predicate Stands(c: Config, recs: seq<Record>, n: nat, caller: string, j: nat) {
    && j < n <= |recs| && IsCharge(c, recs, caller, j)
    && forall k | j < k < n && IsCharge(c, recs, caller, k) ::
         recs[k].id != recs[j].id && recs[j].Ms() > recs[k].Ms() - c.irsfWindowMs
  }

  function ItemAt(c: Config, recs: seq<Record>, j: nat): SpendItem
    requires j < |recs|
  {
    SpendItem(recs[j].Ms(), Spend.Cost(recs[j].durationSec, c.TariffOf(recs[j]).ratePerMin))
  }

  /** The engine's spend window holds exactly the calls that stand, whatever the order of arrival. */
  ghost predicate HoldsStanding(c: Config, recs: seq<Record>, n: nat, caller: string, w: SpendWindow) {
    && n <= |recs|
    && (forall j: nat | Stands(c, recs, n, caller, j) :: recs[j].id in w && w[recs[j].id] == ItemAt(c, recs, j))
    && (forall id | id in w :: exists j: nat :: Stands(c, recs, n, caller, j) && recs[j].id == id)
  }

  /** A record that is no premium call of the subscriber changes nothing about what stands. */
  lemma OtherKeepsStanding(c: Config, recs: seq<Record>, n: nat, caller: string, w: SpendWindow)
    requires n < |recs| && HoldsStanding(c, recs, n, caller, w) && !IsCharge(c, recs, caller, n)
    ensures HoldsStanding(c, recs, n + 1, caller, w)
  {
    forall j: nat ensures Stands(c, recs, n + 1, caller, j) <==> Stands(c, recs, n, caller, j) {
    }
  }

  lemma StandsOneMore(c: Config, recs: seq<Record>, n: nat, caller: string, j: nat)
    requires n < |recs| && IsCharge(c, recs, caller, n)
    ensures Stands(c, recs, n + 1, caller, j) <==>
              j == n || (Stands(c, recs, n, caller, j)
                         && recs[n].id != recs[j].id && recs[j].Ms() > recs[n].Ms() - c.irsfWindowMs)
  {
  }

  lemma ChargeMovesStanding(c: Config, recs: seq<Record>, n: nat, caller: string, w: SpendWindow)
    requires n < |recs| && HoldsStanding(c, recs, n, caller, w) && IsCharge(c, recs, caller, n) && c.irsfWindowMs > 0
    ensures HoldsStanding(c, recs, n + 1, caller, ShiftItems(w, recs[n].id, ItemAt(c, recs, n), c.irsfWindowMs))
  {
    var w' := ShiftItems(w, recs[n].id, ItemAt(c, recs, n), c.irsfWindowMs);
    forall j: nat | Stands(c, recs, n + 1, caller, j) ensures recs[j].id in w' && w'[recs[j].id] == ItemAt(c, recs, j) {
      StandsOneMore(c, recs, n, caller, j);
    }
    forall id | id in w' ensures exists j: nat :: Stands(c, recs, n + 1, caller, j) && recs[j].id == id {
      if id == recs[n].id {
        StandsOneMore(c, recs, n, caller, n);
      } else {
        var j: nat :| Stands(c, recs, n, caller, j) && recs[j].id == id;
        StandsOneMore(c, recs, n, caller, j);
      }
    }
  }

  lemma {:induction false} SpendWindowContents(c: Config, recs: seq<Record>, n: nat, caller: string)
    requires n <= |recs| && c.irsfWindowMs > 0
    ensures HoldsStanding(c, recs, n, caller, SpendingOf(MapsBefore(c, recs, n), caller))
  {
    if n == 0 {
      assert recs[..0] == [];
    } else {
      var i := n - 1;
      SpendWindowContents(c, recs, i, caller);
      MapsOneMore(c, recs, i);
      ScoreMoves(c, MapsBefore(c, recs, i), recs[i]);
      var w := SpendingOf(MapsBefore(c, recs, i), caller);
      if IsCharge(c, recs, caller, i) {
        assert ItemOf(c, recs[i]) == ItemAt(c, recs, i);
        ChargeMovesStanding(c, recs, i, caller, w);
      } else {
        OtherKeepsStanding(c, recs, i, caller, w);
      }
    }
  }

  // ---- what the calls of the last window cost -------------------------------------------------------------

  /** Record j is a premium call of record i's subscriber in the window that ends with i. */
  predicate Recent(c: Config, recs: seq<Record>, i: nat, j: nat)
    requires i < |recs|
  {
    j <= i && IsCharge(c, recs, recs[i].caller, j) && recs[j].Ms() > recs[i].Ms() - c.irsfWindowMs
  }

  /** The last one with its id, which is all that counts when a record id comes back. */
  predicate LastRecent(c: Config, recs: seq<Record>, i: nat, j: nat)
    requires i < |recs|
  {
    Recent(c, recs, i, j) && forall k | j < k <= i && IsCharge(c, recs, recs[i].caller, k) :: recs[k].id != recs[j].id
  }

  /** Seconds times the rate per minute, over sixty. */
  predicate CostsAt(c: Config, recs: seq<Record>, j: nat, cost: real)
    requires j < |recs|
  {
    cost * 60.0 == recs[j].durationSec as real * c.TariffOf(recs[j]).ratePerMin
  }

  /** What each premium call of the last window costs, by record id. */
  ghost predicate IsBill(c: Config, recs: seq<Record>, i: nat, bill: map<string, real>)
    requires i < |recs|
  {
    && (forall j: nat | Recent(c, recs, i, j) :: recs[j].id in bill)
    && (forall id | id in bill ::
          exists j: nat :: LastRecent(c, recs, i, j) && recs[j].id == id && CostsAt(c, recs, j, bill[id]))
  }

  lemma StandingIsLastRecent(c: Config, recs: seq<Record>, i: nat, j: nat)
    requires i < |recs| && CallerInOrder(recs, recs[i].caller) && IsCharge(c, recs, recs[i].caller, i) && c.irsfWindowMs > 0
    ensures Stands(c, recs, i + 1, recs[i].caller, j) <==> LastRecent(c, recs, i, j)
  {
  }

  /** From each recent call on there is a last one with its id. */
  lemma {:induction false} LastWithId(c: Config, recs: seq<Record>, i: nat, j: nat) returns (k: nat)
    requires i < |recs| && CallerInOrder(recs, recs[i].caller) && Recent(c, recs, i, j)
    ensures LastRecent(c, recs, i, k) && recs[k].id == recs[j].id
    decreases i - j
  {
    if LastRecent(c, recs, i, j) {
      k := j;
    } else {
      var l :| j < l <= i && IsCharge(c, recs, recs[i].caller, l) && recs[l].id == recs[j].id;
      k := LastWithId(c, recs, i, l);
    }
  }

  lemma CostsAtIsUnique(c: Config, recs: seq<Record>, j: nat, cost: real)
    requires j < |recs| && CostsAt(c, recs, j, cost)
    ensures cost == Spend.Cost(recs[j].durationSec, c.TariffOf(recs[j]).ratePerMin)
  {
    Spend.CostByTheMinute(recs[j].durationSec, c.TariffOf(recs[j]).ratePerMin);
  }

  lemma ItemCosts(c: Config, recs: seq<Record>, j: nat)
    requires j < |recs|
    ensures CostsAt(c, recs, j, ItemAt(c, recs, j).cost)
  {
    Spend.CostByTheMinute(recs[j].durationSec, c.TariffOf(recs[j]).ratePerMin);
  }

  lemma RecentIsHeld(c: Config, recs: seq<Record>, i: nat, w: SpendWindow, j: nat)
    requires i < |recs| && CallerInOrder(recs, recs[i].caller) && IsCharge(c, recs, recs[i].caller, i) && c.irsfWindowMs > 0
    requires HoldsStanding(c, recs, i + 1, recs[i].caller, w) && Recent(c, recs, i, j)
    ensures recs[j].id in w
  {
    var k := LastWithId(c, recs, i, j);
    StandingIsLastRecent(c, recs, i, k);
  }

  lemma HeldIsLastRecent(c: Config, recs: seq<Record>, i: nat, w: SpendWindow, id: string) returns (j: nat)
    requires i < |recs| && CallerInOrder(recs, recs[i].caller) && IsCharge(c, recs, recs[i].caller, i) && c.irsfWindowMs > 0
    requires HoldsStanding(c, recs, i + 1, recs[i].caller, w) && id in w
    ensures LastRecent(c, recs, i, j) && recs[j].id == id && CostsAt(c, recs, j, w[id].cost)
  {
    j :| Stands(c, recs, i + 1, recs[i].caller, j) && recs[j].id == id;
    StandingIsLastRecent(c, recs, i, j);
    ItemCosts(c, recs, j);
  }

  /** The costs in the window are the bill. */
  lemma WindowIsBill(c: Config, recs: seq<Record>, i: nat, w: SpendWindow)
    requires i < |recs| && CallerInOrder(recs, recs[i].caller) && IsCharge(c, recs, recs[i].caller, i) && c.irsfWindowMs > 0
    requires HoldsStanding(c, recs, i + 1, recs[i].caller, w)
    ensures IsBill(c, recs, i, CostsIn(w))
  {
    forall j: nat | Recent(c, recs, i, j) ensures recs[j].id in CostsIn(w) {
      RecentIsHeld(c, recs, i, w, j);
    }
    forall id | id in CostsIn(w)
      ensures exists j: nat :: LastRecent(c, recs, i, j) && recs[j].id == id && CostsAt(c, recs, j, CostsIn(w)[id])
    {
      var j := HeldIsLastRecent(c, recs, i, w, id);
    }
  }

  lemma OneLastRecent(c: Config, recs: seq<Record>, i: nat, j: nat, k: nat)
    requires i < |recs| && LastRecent(c, recs, i, j) && LastRecent(c, recs, i, k) && recs[j].id == recs[k].id
    ensures j == k
  {
  }

  lemma OneEntry(c: Config, recs: seq<Record>, i: nat, a: map<string, real>, b: map<string, real>, id: string)
    requires i < |recs| && IsBill(c, recs, i, a) && IsBill(c, recs, i, b) && id in a
    ensures id in b && a[id] == b[id]
  {
    var j: nat :| LastRecent(c, recs, i, j) && recs[j].id == id && CostsAt(c, recs, j, a[id]);
    assert Recent(c, recs, i, j);
    var k: nat :| LastRecent(c, recs, i, k) && recs[k].id == id && CostsAt(c, recs, k, b[id]);
    OneLastRecent(c, recs, i, j, k);
    CostsAtIsUnique(c, recs, j, a[id]);
    CostsAtIsUnique(c, recs, j, b[id]);
  }

  /** There is only one bill. */
  lemma OneBill(c: Config, recs: seq<Record>, i: nat, a: map<string, real>, b: map<string, real>)
    requires i < |recs| && IsBill(c, recs, i, a) && IsBill(c, recs, i, b)
    ensures a == b
  {
    forall id | id in a ensures id in b && a[id] == b[id] {
      OneEntry(c, recs, i, a, b, id);
    }
    forall id | id in b ensures id in a {
      OneEntry(c, recs, i, b, a, id);
    }
  }

  lemma VerdictOnWindow(c: Config, maps: Maps, rec: Record)
    ensures EngineVerdict(c, maps, rec, Irsf)
            == if c.TariffOf(rec).premium then IrsfVerdict(c.irsfThreshold, Spend.ExactTotal(CostsIn(ShiftedSpend(c, maps, rec))))
               else None
  {
  }

  lemma WindowAfter(c: Config, recs: seq<Record>, i: nat)
    requires i < |recs| && c.TariffOf(recs[i]).premium
    ensures SpendingOf(MapsBefore(c, recs, i + 1), recs[i].caller) == ShiftedSpend(c, MapsBefore(c, recs, i), recs[i])
  {
    MapsOneMore(c, recs, i);
    ScoreMoves(c, MapsBefore(c, recs, i), recs[i]);
  }

  /** On a premium call the costs the engine adds up are the bill. */
  lemma ShiftedIsBill(c: Config, recs: seq<Record>, i: nat)
    requires i < |recs| && CallerInOrder(recs, recs[i].caller) && c.irsfWindowMs > 0 && c.TariffOf(recs[i]).premium
    ensures IsBill(c, recs, i, CostsIn(ShiftedSpend(c, MapsBefore(c, recs, i), recs[i])))
  {
    SpendWindowContents(c, recs, i + 1, recs[i].caller);
    WindowAfter(c, recs, i);
    WindowIsBill(c, recs, i, SpendingOf(MapsBefore(c, recs, i + 1), recs[i].caller));
  }

  /** The rule judges a premium call by the total of the bill. */
  lemma VerdictIsOnBill(c: Config, recs: seq<Record>, i: nat, bill: map<string, real>)
    requires i < |recs| && CallerInOrder(recs, recs[i].caller) && c.irsfWindowMs > 0 && IsBill(c, recs, i, bill)
    ensures EngineVerdict(c, MapsBefore(c, recs, i), recs[i], Irsf)
            == if c.TariffOf(recs[i]).premium then IrsfVerdict(c.irsfThreshold, Spend.ExactTotal(bill)) else None
  {
    VerdictOnWindow(c, MapsBefore(c, recs, i), recs[i]);
    if c.TariffOf(recs[i]).premium {
      ShiftedIsBill(c, recs, i);
      OneBill(c, recs, i, bill, CostsIn(ShiftedSpend(c, MapsBefore(c, recs, i), recs[i])));
    }
  }

  /** The bill of every premium call exists. */
  lemma ABillExists(c: Config, recs: seq<Record>, i: nat) returns (bill: map<string, real>)
    requires i < |recs| && CallerInOrder(recs, recs[i].caller) && c.irsfWindowMs > 0 && c.TariffOf(recs[i]).premium
    ensures IsBill(c, recs, i, bill)
  {
    ShiftedIsBill(c, recs, i);
    bill := CostsIn(ShiftedSpend(c, MapsBefore(c, recs, i), recs[i]));
  }

  /** A record raises a spend alert exactly when it is a premium call, the premium calls of its subscriber in the last
      window cost at least the threshold together, and none was raised within the cooldown. */
  lemma SpendAlertsExactlyWhen(c: Config, recs: seq<Record>, i: nat, bill: map<string, real>)
    requires i < |recs| && CallerInOrder(recs, recs[i].caller) && c.irsfWindowMs > 0 && IsBill(c, recs, i, bill)
    ensures AlertedAt(c, recs, i, Irsf, recs[i].caller) <==>
              && c.TariffOf(recs[i]).premium && c.irsfThreshold > 0.0 && Spend.ExactTotal(bill) >= c.irsfThreshold
              && !AlertedLately(c, recs, i, Irsf)
  {
    VerdictIsOnBill(c, recs, i, bill);
    IrsfTriggers(c.irsfThreshold, Spend.ExactTotal(bill));
    AlertsExactlyWhen(c, recs, i, Irsf);
  }

  /** Sound: a spend alert is about a premium call whose window costs at least the threshold, and its score is that cost
      over the threshold. */
  lemma SpendAlertIsBacked(c: Config, recs: seq<Record>, i: nat, a: Alert, bill: map<string, real>)
    requires i < |recs| && CallerInOrder(recs, recs[i].caller) && c.irsfWindowMs > 0 && IsBill(c, recs, i, bill)
    requires a in AlertsAt(c, recs, i) && a.rule == Irsf
    ensures a.id == recs[i].id && a.caller == recs[i].caller && c.TariffOf(recs[i]).premium
    ensures 0.0 < c.irsfThreshold <= Spend.ExactTotal(bill) && a.score == Spend.ExactTotal(bill) / c.irsfThreshold
  {
    AlertCarriesVerdict(c, recs, i, a);
    VerdictIsOnBill(c, recs, i, bill);
  }

  /** Complete: where the premium calls of the last window reach the threshold there is a spend alert about the
      subscriber within the cooldown that ends with the record. */
  lemma SpendIsAlerted(c: Config, recs: seq<Record>, i: nat, bill: map<string, real>) returns (j: nat)
    requires i < |recs| && CallerInOrder(recs, recs[i].caller) && c.irsfWindowMs > 0 && c.cooldownMs > 0
    requires IsBill(c, recs, i, bill) && c.TariffOf(recs[i]).premium && 0.0 < c.irsfThreshold <= Spend.ExactTotal(bill)
    ensures j <= i && AlertedAt(c, recs, j, Irsf, recs[i].caller)
    ensures recs[i].Ms() - c.cooldownMs < recs[j].Ms() <= recs[i].Ms()
  {
    SpendAlertsExactlyWhen(c, recs, i, bill);
    if AlertedLately(c, recs, i, Irsf) {
      j :| 0 <= j < i && AlertedAt(c, recs, j, Irsf, recs[i].caller) && recs[i].Ms() - recs[j].Ms() < c.cooldownMs;
    } else {
      j := i;
    }
  }
}
