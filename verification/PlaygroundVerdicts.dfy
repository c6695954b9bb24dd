/** The playground is exactly-once handling in miniature: on every well-behaved log its rules reach the verdicts of the
    exactly-once state, and it raises an alert for each of them that falls outside the cooldown of another. */
module PlaygroundVerdicts {
  import opened Cdr
  import opened Windows
  import opened Redis
  import opened Pipeline
  import opened Ideal
  import opened CleanRun
  import opened Playground
  import opened PlaygroundRefinement
  import opened Bursts
  import ExactlyOnce
  import EffectivelyOnce
  import Punctual

  // ---- the engine's maps and the exactly-once state -------------------------------------------------------

  predicate CountsMatch(maps: Maps, m: Facts, caller: string) {
    var key := VelocityKey(caller);
    && (key in m <==> caller in maps.velWin)
    && (key in m ==> m[key] == Members(maps.velWin[caller]) && NonNegative(maps.velWin[caller]))
  }

  predicate PlacesMatch(maps: Maps, m: Facts, caller: string) {
    var key := LastLocKey(caller);
    (key in m <==> caller in maps.lastLoc) && (key in m ==> m[key] == Place(maps.lastLoc[caller]))
  }

  ghost predicate SpendsMatch(maps: Maps, m: Facts, caller: string) {
    var key := SpendKey(caller);
    && (key in m <==> caller in maps.spendWin)
    && (key in m ==> m[key].Members? && ItemsAgree(NameOf, m[key].members, maps.spendWin[caller]))
  }

  ghost predicate Matches(maps: Maps, m: Facts) {
    && (forall caller :: CountsMatch(maps, m, caller))
    && (forall caller :: PlacesMatch(maps, m, caller))
    && (forall caller :: SpendsMatch(maps, m, caller))
  }

  /** Only these ids have been seen or charged so far. */
  ghost predicate Known(maps: Maps, m: Facts, ids: set<string>) {
    && (forall id | SeenKey(id) in m :: id in ids)
    && (forall caller, id | caller in maps.spendWin && id in maps.spendWin[caller] :: id in ids)
  }

  lemma CountMatches(c: Config, maps: Maps, m: Facts, rec: Record)
    requires Matches(maps, m) && rec.Ms() >= 0
    ensures WindowIn(Counted(c, m, rec), VelocityKey(rec.caller)) == ShiftedWindow(c, maps, rec)
    ensures NonNegative(ShiftedWindow(c, maps, rec))
  {
    assert CountsMatch(maps, m, rec.caller);
    SlideIsShift(VelocityOf(maps, rec.caller), rec.id, rec.Ms(), c.velocityWindowMs);
  }

  lemma ItemsMatch(maps: Maps, m: Facts, caller: string)
    requires Matches(maps, m)
    ensures ItemsAgree(NameOf, WindowIn(m, SpendKey(caller)), SpendingOf(maps, caller))
  {
    assert SpendsMatch(maps, m, caller);
  }

  lemma ChargedWindow(c: Config, m: Facts, rec: Record)
    requires c.TariffOf(rec).premium
    ensures WindowIn(Charged(c, m, rec), SpendKey(rec.caller))
            == ChargedItems(NameOf, WindowIn(m, SpendKey(rec.caller)), rec.id, ItemOf(c, rec), c.irsfWindowMs)
  {
  }

  lemma ChargeMatches(c: Config, maps: Maps, m: Facts, rec: Record)
    requires Matches(maps, m) && rec.Ms() >= 0 && ExactCost(c, rec) && c.TariffOf(rec).premium
    requires rec.id !in SpendingOf(maps, rec.caller)
    ensures var z := WindowIn(Charged(c, m, rec), SpendKey(rec.caller));
            && ItemsAgree(NameOf, z, ShiftedSpend(c, maps, rec))
            && Spend.SpendOf(z.Keys) == Spend.ExactTotal(CostsIn(ShiftedSpend(c, maps, rec)))
  {
    ItemsMatch(maps, m, rec.caller);
    ChargedWindow(c, m, rec);
    ChargedItemsAgree(WindowIn(m, SpendKey(rec.caller)), SpendingOf(maps, rec.caller), rec.id, ItemOf(c, rec), c.irsfWindowMs);
  }

  /** What exactly-once handling does to the facts. */
  lemma OnceMoves(c: Config, m: Facts, rec: Record)
    requires SeenKey(rec.id) !in m
    ensures var m' := Once(c, m, rec);
            && (forall caller | caller != rec.caller ::
                  && SameFact(m, m', VelocityKey(caller)) && SameFact(m, m', LastLocKey(caller)) && SameFact(m, m', SpendKey(caller)))
            && VelocityKey(rec.caller) in m'
            && m'[VelocityKey(rec.caller)] == Members(WindowIn(Counted(c, m, rec), VelocityKey(rec.caller)))
            && (if rec.cell in c.cells
                then LastLocKey(rec.caller) in m' && m'[LastLocKey(rec.caller)] == Place(Location(c.cells[rec.cell], rec.startNs))
                else SameFact(m, m', LastLocKey(rec.caller)))
            && (if c.TariffOf(rec).premium
                then SpendKey(rec.caller) in m'
                     && m'[SpendKey(rec.caller)] == Members(WindowIn(Charged(c, m, rec), SpendKey(rec.caller)))
                else SameFact(m, m', SpendKey(rec.caller)))
  {
  }

  /** The state changes of one record on either side. */
  lemma RecordMatches(c: Config, maps: Maps, m: Facts, rec: Record)
    requires Matches(maps, m) && rec.Ms() >= 0 && ExactCost(c, rec)
    requires rec.id !in SpendingOf(maps, rec.caller) && SeenKey(rec.id) !in m
    ensures Matches(Score(c, maps, rec).maps, Once(c, m, rec))
  {
    var maps', m' := Score(c, maps, rec).maps, Once(c, m, rec);
    ScoreMoves(c, maps, rec);
    OnceMoves(c, m, rec);
    forall caller ensures CountsMatch(maps', m', caller) {
      RecordCounts(c, maps, m, rec, maps', m', caller);
    }
    forall caller ensures PlacesMatch(maps', m', caller) {
      assert PlacesMatch(maps, m, caller);
    }
    forall caller ensures SpendsMatch(maps', m', caller) {
      RecordSpends(c, maps, m, rec, maps', m', caller);
    }
  }

  lemma RecordCounts(c: Config, maps: Maps, m: Facts, rec: Record, maps': Maps, m': Facts, caller: string)
    requires Matches(maps, m) && rec.Ms() >= 0
    requires maps'.velWin == maps.velWin[rec.caller := ShiftedWindow(c, maps, rec)]
    requires if caller != rec.caller then SameFact(m, m', VelocityKey(caller))
             else VelocityKey(caller) in m'
                  && m'[VelocityKey(caller)] == Members(WindowIn(Counted(c, m, rec), VelocityKey(caller)))
    ensures CountsMatch(maps', m', caller)
  {
    assert CountsMatch(maps, m, caller);
    CountMatches(c, maps, m, rec);
  }

  lemma RecordSpends(c: Config, maps: Maps, m: Facts, rec: Record, maps': Maps, m': Facts, caller: string)
    requires Matches(maps, m) && rec.Ms() >= 0 && ExactCost(c, rec) && rec.id !in SpendingOf(maps, rec.caller)
    requires maps'.spendWin == if c.TariffOf(rec).premium then maps.spendWin[rec.caller := ShiftedSpend(c, maps, rec)]
                               else maps.spendWin
    requires if caller != rec.caller || !c.TariffOf(rec).premium then SameFact(m, m', SpendKey(caller))
             else SpendKey(caller) in m' && m'[SpendKey(caller)] == Members(WindowIn(Charged(c, m, rec), SpendKey(caller)))
    ensures SpendsMatch(maps', m', caller)
  {
    assert SpendsMatch(maps, m, caller);
    if c.TariffOf(rec).premium {
      ChargeMatches(c, maps, m, rec);
    }
  }

  lemma KnownOneMore(c: Config, maps: Maps, m: Facts, rec: Record, ids: set<string>)
    requires Known(maps, m, ids)
    ensures Known(Score(c, maps, rec).maps, Once(c, m, rec), ids + {rec.id})
  {
    ScoreMoves(c, maps, rec);
  }

  lemma NextRecord(c: Config, recs: seq<Record>, i: nat)
    requires c.log == MessagesOf(recs) && WellBehaved(c, recs) && i < |recs|
    ensures c.log[i] == Parsed(recs[i]) && recs[i].Ms() >= 0 && ExactCost(c, recs[i]) && recs[i].id !in IdsOf(recs[..i])
    ensures IdsOf(recs[..i + 1]) == IdsOf(recs[..i]) + {recs[i].id}
  {
    assert recs[..i + 1] == recs[..i] + [recs[i]];
    WellBehavedPrefix(c, recs, i + 1);
    WellBehavedLast(c, recs[..i], recs[i]);
  }

  lemma NextMatches(c: Config, maps: Maps, m: Facts, rec: Record, ids: set<string>)
    requires Matches(maps, m) && Known(maps, m, ids) && rec.Ms() >= 0 && ExactCost(c, rec) && rec.id !in ids
    ensures Matches(Score(c, maps, rec).maps, Once(c, m, rec))
    ensures Known(Score(c, maps, rec).maps, Once(c, m, rec), ids + {rec.id})
  {
    RecordMatches(c, maps, m, rec);
    KnownOneMore(c, maps, m, rec, ids);
  }

  lemma {:induction false} PrefixMatches(c: Config, recs: seq<Record>, n: nat)
    requires c.log == MessagesOf(recs) && WellBehaved(c, recs) && n <= |recs|
    ensures Matches(MapsBefore(c, recs, n), After(c, n)) && Known(MapsBefore(c, recs, n), After(c, n), IdsOf(recs[..n]))
  {
    if n == 0 {
      assert recs[..0] == [];
    } else {
      var i := n - 1;
      PrefixMatches(c, recs, i);
      NextRecord(c, recs, i);
      MapsOneMore(c, recs, i);
      NextMatches(c, MapsBefore(c, recs, i), After(c, i), recs[i], IdsOf(recs[..i]));
    }
  }

  // ---- verdicts -------------------------------------------------------------------------------------------

  lemma VerdictsMatch(c: Config, maps: Maps, m: Facts, rec: Record, rule: Rule)
    requires Matches(maps, m) && rec.Ms() >= 0 && ExactCost(c, rec) && rec.id !in SpendingOf(maps, rec.caller)
    ensures EngineVerdict(c, maps, rec, rule) == Verdict(c, m, rec, rule)
  {
    match rule
    case Velocity => CountMatches(c, maps, m, rec);
    case ImpossibleTravel => assert PlacesMatch(maps, m, rec.caller);
    case Irsf =>
      if c.TariffOf(rec).premium {
        ChargeMatches(c, maps, m, rec);
      }
  }

  /** On every record the playground's rules reach the verdicts of the exactly-once state. */
  lemma EngineReachesTheVerdict(c: Config, recs: seq<Record>, i: nat, rule: Rule)
    requires c.log == MessagesOf(recs) && WellBehaved(c, recs) && i < |recs|
    ensures Fresh(c, i) && EngineVerdict(c, MapsBefore(c, recs, i), recs[i], rule) == VerdictAt(c, i, rule)
  {
    PrefixMatches(c, recs, i);
    NextRecord(c, recs, i);
    VerdictsMatch(c, MapsBefore(c, recs, i), After(c, i), recs[i], rule);
  }

  /** Every alert the playground raises on a record is the verdict of its rule on the exactly-once state. */
  lemma PlaygroundAlertsAreVerdicts(c: Config, recs: seq<Record>, i: nat, a: Alert)
    requires c.log == MessagesOf(recs) && WellBehaved(c, recs) && i < |recs| && a in AlertsAt(c, recs, i)
    ensures ExactlyOnce.Backs(c, i, a)
  {
    EngineReachesTheVerdict(c, recs, i, a.rule);
    AlertsAreRaised(c, MapsBefore(c, recs, i), recs[i], a);
    assert c.log[i] == Parsed(recs[i]);
  }

  /** The playground raises an alert on a record exactly when the rule triggers on the exactly-once state and no alert
      of that rule on the subscriber was raised less than a cooldown before. */
  lemma PlaygroundAlertsExactlyWhen(c: Config, recs: seq<Record>, i: nat, rule: Rule)
    requires c.log == MessagesOf(recs) && WellBehaved(c, recs) && i < |recs|
    ensures AlertedAt(c, recs, i, rule, recs[i].caller) <==>
              VerdictAt(c, i, rule).Some? && !AlertedLately(c, recs, i, rule)
  {
    EngineReachesTheVerdict(c, recs, i, rule);
    AlertsExactlyWhen(c, recs, i, rule);
  }

  // ---- calm runs exist ------------------------------------------------------------------------------------

  lemma WellBehavedIsPunctual(c: Config, recs: seq<Record>)
    requires c.log == MessagesOf(recs) && WellBehaved(c, recs)
    ensures Punctual.SameIdSameTime(c) && OnTime.InTurn(recs, 0)
  {
    forall i, j | 0 <= i < |c.log| && 0 <= j < |c.log| && c.log[i].rec.id == c.log[j].rec.id ensures i == j {
      assert c.log[i].rec == recs[i] && c.log[j].rec == recs[j];
    }
  }

  /** Every well-behaved log has a calm run that commits all of it; after it Redis holds the exactly-once state, and the
      alert topic the playground's alerts. */
  lemma ACalmRunDrains(c: Config, recs: seq<Record>) returns (events: seq<Event>)
    requires Comparable(c) && ExactlyOnce.Tuned(c, 0, 0) && c.log == MessagesOf(recs) && WellBehaved(c, recs)
    ensures ExactlyOnce.CalmRun(c, Init(0), events, 0, 0)
    ensures var s := Run(c, Init(0), events);
            && s.part.committed == |c.log| && ExactlyOnce.Lasting(s.store) == After(c, |c.log|)
            && AlertsOf(s.part.alerts) == ScoreAll(c, recs).alerts
  {
    WellBehavedIsPunctual(c, recs);
    events := OnTime.AnOnTimeRunExists(c, recs, 0, |recs|);
    OnTime.OnTimeRunIsPrompt(c, Init(0), events);
    Punctual.PromptRunIsCalm(c, 0, events, 0, 0);
    PlaygroundAgrees(c, recs, 0, events);
    assert recs[..|recs|] == recs;
    EffectivelyOnce.DrainedStateIsIdeal(c, 0, events, 0, 0);
  }
}
