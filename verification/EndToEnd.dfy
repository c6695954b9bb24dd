/** From call records to rows: the consumers of Partitions post their alerts, and the sink of AlertSink stores them. */
module EndToEnd {
  import opened Cdr
  import opened Pipeline
  import opened Ideal
  import opened ExactlyOnce
  import EffectivelyOnce
  import Muting
  import opened Partitions
  import AlertSink

  /** A partition of the fleet in a calm run. */
  ghost predicate CalmFleet(cs: seq<Config>, now: int, moves: seq<Move>, early: int, late: int) {
    && Separate(cs) && Moves(cs, moves)
    && forall who | 0 <= who < |cs| ::
         Tuned(cs[who], early, late) && CalmRun(cs[who], Init(now), Experienced(moves, who), early, late)
  }

  ghost predicate Posted(parts: seq<Part>, a: Alert) {
    exists who | 0 <= who < |parts| :: Emitted(parts[who].alerts, a)
  }

  /** The alert topic holds the alerts the consumers wrote, each on the partition its subscriber is routed to. */
  ghost predicate Routed(parts: seq<Part>, logs: seq<AlertSink.Postings>, route: string -> nat) {
    && (forall p, i | 0 <= p < |logs| && 0 <= i < |logs[p]| && logs[p][i].Decoded? ::
          Posted(parts, logs[p][i].alert) && route(logs[p][i].alert.caller) == p)
    && (forall who, j | 0 <= who < |parts| && 0 <= j < |parts[who].alerts| ::
          Holds(logs, parts[who].alerts[j].alert))
  }

  predicate Holds(logs: seq<AlertSink.Postings>, a: Alert) {
    exists p, i | 0 <= p < |logs| && 0 <= i < |logs[p]| :: logs[p][i] == AlertSink.Decoded(a)
  }

  /** Every alert the fleet wrote is backed by a record of its partition. */
  lemma PostedIsBacked(cs: seq<Config>, now: int, moves: seq<Move>, a: Alert, early: int, late: int)
      returns (who: nat, i: nat)
    requires CalmFleet(cs, now, moves, early, late) && Posted(MultiRun(cs, InitAll(cs, now), moves).parts, a)
    ensures who < |cs| && Backs(cs[who], i, a)
  {
    var parts := MultiRun(cs, InitAll(cs, now), moves).parts;
    who :| 0 <= who < |parts| && Emitted(parts[who].alerts, a);
    var j :| 0 <= j < |parts[who].alerts| && parts[who].alerts[j].alert == a;
    EachRunsAsIfAlone(cs, now, moves, who);
    EffectivelyOnce.EveryAlertIsAVerdict(cs[who], now, Experienced(moves, who), early, late, j);
    i :| Backs(cs[who], i, a);
  }

  lemma FreshAt(c: Config, i: nat, k: nat)
    requires Fresh(c, i) && Fresh(c, k) && c.log[i].rec.id == c.log[k].rec.id
    ensures i == k
  {
    if i < k {
      SeenBelow(c, k, i);
    } else if k < i {
      SeenBelow(c, i, k);
    }
  }

  /** Two backed alerts with one key are the same alert. */
  lemma OneVerdictPerKey(cs: seq<Config>, who: nat, i: nat, a: Alert, who': nat, i': nat, a': Alert)
    requires Separate(cs) && who < |cs| && who' < |cs| && Backs(cs[who], i, a) && Backs(cs[who'], i', a')
    requires AlertSink.KeyOf(a) == AlertSink.KeyOf(a')
    ensures who == who' && i == i' && a == a'
  {
    if who != who' {
      assert Apart(cs[who], cs[who']);
      assert SameRecord(cs[who].log[i].rec, cs[who'].log[i'].rec);
    } else {
      FreshAt(cs[who], i, i');
    }
  }

  lemma RoutedIsWellKeyed(cs: seq<Config>, now: int, moves: seq<Move>, logs: seq<AlertSink.Postings>, route: string -> nat,
                          early: int, late: int)
    requires CalmFleet(cs, now, moves, early, late)
    requires Routed(MultiRun(cs, InitAll(cs, now), moves).parts, logs, route)
    ensures AlertSink.WellKeyed(logs)
  {
    forall p, q, i, j | 0 <= p < |logs| && 0 <= q < |logs| && p != q && 0 <= i < |logs[p]| && 0 <= j < |logs[q]|
                        && logs[p][i].Decoded? && logs[q][j].Decoded?
      ensures AlertSink.KeyOf(logs[p][i].alert) != AlertSink.KeyOf(logs[q][j].alert)
    {
      var a, b := logs[p][i].alert, logs[q][j].alert;
      if AlertSink.KeyOf(a) == AlertSink.KeyOf(b) {
        var who, k := PostedIsBacked(cs, now, moves, a, early, late);
        var who', k' := PostedIsBacked(cs, now, moves, b, early, late);
        OneVerdictPerKey(cs, who, k, a, who', k', b);
      }
    }
  }

  /** Every row of the table is the verdict of its rule on its record, on the state that handling each record once
      gives: crashes, retries and redeliveries, on either side of the topic, leave no wrong row and no second one. */
  lemma RowsAreVerdicts(cs: seq<Config>, now: int, moves: seq<Move>, logs: seq<AlertSink.Postings>, route: string -> nat,
                        turns: seq<AlertSink.Turn>, key: AlertSink.RowKey, early: int, late: int)
      returns (who: nat, i: nat)
    requires CalmFleet(cs, now, moves, early, late)
    requires Routed(MultiRun(cs, InitAll(cs, now), moves).parts, logs, route)
    requires key in AlertSink.Turns(logs, turns).table
    ensures who < |cs| && Backs(cs[who], i, AlertSink.Turns(logs, turns).table[key])
    ensures AlertSink.KeyOf(AlertSink.Turns(logs, turns).table[key]) == key
  {
    RoutedIsWellKeyed(cs, now, moves, logs, route, early, late);
    var p, j := AlertSink.RowsComeFromTheTopic(logs, turns, key);
    who, i := PostedIsBacked(cs, now, moves, logs[p][j].alert, early, late);
  }

  /** Once both sides are drained, each triggering verdict on a completed record has exactly its row, unless the
      subscriber's cooldown flag for that rule was live; then the alert whose flag that was, written before it and
      flagged less than a cooldown before, has its row. */
  lemma VerdictsHaveRows(cs: seq<Config>, now: int, moves: seq<Move>, logs: seq<AlertSink.Postings>, route: string -> nat,
                         turns: seq<AlertSink.Turn>, who: nat, i: nat, rule: Rule, early: int, late: int)
    requires CalmFleet(cs, now, moves, early, late)
    requires Routed(MultiRun(cs, InitAll(cs, now), moves).parts, logs, route)
    requires AlertSink.SinkDrained(logs, AlertSink.Turns(logs, turns))
    requires who < |cs| && i < MultiRun(cs, InitAll(cs, now), moves).parts[who].committed
    requires Fresh(cs[who], i) && VerdictAt(cs[who], i, rule).Some?
    ensures var table, part := AlertSink.Turns(logs, turns).table, MultiRun(cs, InitAll(cs, now), moves).parts[who];
            || HasRow(table, AlertFor(cs[who].log[i].rec, rule, VerdictAt(cs[who], i, rule).value))
            || MuterHasRow(cs[who], part, i, rule, table)
  {
    var part := MultiRun(cs, InitAll(cs, now), moves).parts[who];
    var a := WrittenOrMuted(cs, now, moves, who, i, rule, early, late);
    assert Posted(MultiRun(cs, InitAll(cs, now), moves).parts, a);
    PostedHasRow(cs, now, moves, logs, route, turns, a, early, late);
  }

  predicate HasRow(table: AlertSink.Table, a: Alert) {
    AlertSink.KeyOf(a) in table && table[AlertSink.KeyOf(a)] == a
  }

  /** The alert whose flag muted the rule has its row. */
  predicate MuterHasRow(c: Config, part: Part, i: nat, rule: Rule, table: AlertSink.Table) {
    exists j | 0 <= j < |part.alerts| :: Muting.MutedBy(c, part, i, rule, j) && HasRow(table, part.alerts[j].alert)
  }

  /** The alert that answers a verdict: its own, or the one whose flag muted it. */
  lemma WrittenOrMuted(cs: seq<Config>, now: int, moves: seq<Move>, who: nat, i: nat, rule: Rule, early: int, late: int)
      returns (a: Alert)
    requires CalmFleet(cs, now, moves, early, late)
    requires who < |cs| && i < MultiRun(cs, InitAll(cs, now), moves).parts[who].committed
    requires Fresh(cs[who], i) && VerdictAt(cs[who], i, rule).Some?
    ensures var part := MultiRun(cs, InitAll(cs, now), moves).parts[who];
            && Emitted(part.alerts, a)
            && (a == AlertFor(cs[who].log[i].rec, rule, VerdictAt(cs[who], i, rule).value)
                || exists j | 0 <= j < |part.alerts| :: Muting.MutedBy(cs[who], part, i, rule, j) && part.alerts[j].alert == a)
  {
    var part := MultiRun(cs, InitAll(cs, now), moves).parts[who];
    EachRunsAsIfAlone(cs, now, moves, who);
    EffectivelyOnce.NoVerdictIsLost(cs[who], now, Experienced(moves, who), early, late, i, rule);
    a := AlertFor(cs[who].log[i].rec, rule, VerdictAt(cs[who], i, rule).value);
    if !Emitted(part.alerts, a) {
      var j: nat :| Muting.MutedBy(cs[who], part, i, rule, j);
      a := part.alerts[j].alert;
    }
  }

  /** A posted alert has its row once the sink is drained, whatever copies of it were posted. */
  lemma PostedHasRow(cs: seq<Config>, now: int, moves: seq<Move>, logs: seq<AlertSink.Postings>, route: string -> nat,
                     turns: seq<AlertSink.Turn>, a: Alert, early: int, late: int)
    requires CalmFleet(cs, now, moves, early, late)
    requires Routed(MultiRun(cs, InitAll(cs, now), moves).parts, logs, route)
    requires AlertSink.SinkDrained(logs, AlertSink.Turns(logs, turns))
    requires Posted(MultiRun(cs, InitAll(cs, now), moves).parts, a)
    ensures var table := AlertSink.Turns(logs, turns).table;
            HasRow(table, a)
  {
    var parts, key := MultiRun(cs, InitAll(cs, now), moves).parts, AlertSink.KeyOf(a);
    RoutedIsWellKeyed(cs, now, moves, logs, route, early, late);
    var who :| 0 <= who < |parts| && Emitted(parts[who].alerts, a);
    var j :| 0 <= j < |parts[who].alerts| && parts[who].alerts[j].alert == a;
    assert Holds(logs, parts[who].alerts[j].alert);
    var p, i :| 0 <= p < |logs| && 0 <= i < |logs[p]| && logs[p][i] == AlertSink.Decoded(a);
    var first := AlertSink.CommittedAlertsHaveRows(logs, turns, p, i);
    var row := AlertSink.Turns(logs, turns).table[key];
    var w, k := PostedIsBacked(cs, now, moves, a, early, late);
    var w', k' := RowsAreVerdicts(cs, now, moves, logs, route, turns, key, early, late);
    OneVerdictPerKey(cs, w, k, a, w', k', row);
  }
}
