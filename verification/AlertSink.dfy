/** The alert sink (services/read-api/main.go): alerts are read from the partitions of cdr.fraud.alert, inserted into a
    table keyed by record and rule unless the key is already there, and only then committed. */
module AlertSink {
  import opened Cdr
  import Pipeline

  datatype Posting = Garbled | Decoded(alert: Alert)

  type Postings = seq<Posting>

  type RowKey = (string, Rule)

  type Table = map<RowKey, Alert>

  function KeyOf(a: Alert): RowKey {
    (a.id, a.rule)
  }

  /** INSERT ... ON CONFLICT (record_id, rule) DO NOTHING. */
  function Insert(table: Table, a: Alert): Table {
    if KeyOf(a) in table then table else table[KeyOf(a) := a]
  }

  /** What the sink is doing with the message at the fetch position of a partition. */
  datatype Work = Idle | Storing(p: nat) | Committing(p: nat)

  datatype Sink = Sink(committed: seq<nat>, pos: seq<nat>, table: Table, work: Work)

  datatype Turn =
    | Fetch(p: nat, ok: bool)
    | Store(o: Pipeline.Outcome)
    | Commit(o: Pipeline.Outcome)
    | Restart                     // a crash or a shutdown: fetching resumes at the committed offsets
    | Reassign(p: nat)            // between two messages the group hands a partition over and back

  function Start(logs: seq<Postings>): Sink {
    var zeros := seq(|logs|, i => 0);
    Sink(zeros, zeros, map[], Idle)
  }

  predicate Fits(logs: seq<Postings>, s: Sink) {
    && |s.committed| == |s.pos| == |logs|
    && (forall p | 0 <= p < |logs| :: s.committed[p] <= |logs[p]| && s.pos[p] <= |logs[p]|)
    && match s.work
       case Idle => true
       case Storing(p) => p < |logs| && s.pos[p] < |logs[p]| && logs[p][s.pos[p]].Decoded?
       case Committing(p) => p < |logs| && s.pos[p] < |logs[p]|
  }

  function Turned(logs: seq<Postings>, s: Sink, turn: Turn): (s': Sink)
    requires Fits(logs, s)
    ensures Fits(logs, s')
  {
    match turn
    case Fetch(p, ok) =>
      if !s.work.Idle? || !ok || p >= |logs| || s.pos[p] >= |logs[p]| then s
      else if logs[p][s.pos[p]].Garbled? then s.(work := Committing(p))
      else s.(work := Storing(p))
    case Store(o) =>
      if !s.work.Storing? then s
      else
        var p := s.work.p;
        var stored := if o.FailBefore? then s.table else Insert(s.table, logs[p][s.pos[p]].alert);
        s.(table := stored, work := if o.Ok? then Committing(p) else s.work)
    case Commit(o) =>
      if !s.work.Committing? then s
      else
        var p := s.work.p;
        var next := s.pos[p] + 1;
        Sink(if o.FailBefore? then s.committed else s.committed[p := next], s.pos[p := next], s.table, Idle)
    case Restart => s.(pos := s.committed, work := Idle)
    case Reassign(p) => if s.work.Idle? && p < |logs| then s.(pos := s.pos[p := s.committed[p]]) else s
  }

  function Turns(logs: seq<Postings>, turns: seq<Turn>): (s: Sink)
    ensures Fits(logs, s)
  {
    if turns == [] then Start(logs) else Turned(logs, Turns(logs, turns[..|turns| - 1]), turns[|turns| - 1])
  }

  lemma OneMoreTurn(logs: seq<Postings>, turns: seq<Turn>, turn: Turn)
    ensures Turns(logs, turns + [turn]) == Turned(logs, Turns(logs, turns), turn)
  {
    assert (turns + [turn])[..|turns|] == turns;
  }

  /** What fetching, storing and committing one message do. */
  lemma FetchTurn(logs: seq<Postings>, turns: seq<Turn>, p: nat)
    requires p < |logs| && Turns(logs, turns).work.Idle? && Turns(logs, turns).pos[p] < |logs[p]|
    ensures var s := Turns(logs, turns);
            Turns(logs, turns + [Fetch(p, true)])
            == s.(work := if logs[p][s.pos[p]].Garbled? then Committing(p) else Storing(p))
  {
    OneMoreTurn(logs, turns, Fetch(p, true));
  }

  lemma NothingFetched(logs: seq<Postings>, s: Sink, p: nat, ok: bool)
    requires Fits(logs, s) && (!ok || p >= |logs|)
    ensures Turned(logs, s, Fetch(p, ok)) == s
  {
  }

  lemma EmptyFetchTurn(logs: seq<Postings>, turns: seq<Turn>, p: nat, ok: bool)
    requires !ok || p >= |logs|
    ensures Turns(logs, turns + [Fetch(p, ok)]) == Turns(logs, turns)
  {
    OneMoreTurn(logs, turns, Fetch(p, ok));
    NothingFetched(logs, Turns(logs, turns), p, ok);
  }

  lemma StoreTurn(logs: seq<Postings>, turns: seq<Turn>, o: Pipeline.Outcome)
    requires Turns(logs, turns).work.Storing?
    ensures var s := Turns(logs, turns);
            var p := s.work.p;
            Turns(logs, turns + [Store(o)])
            == s.(table := if o.FailBefore? then s.table else Insert(s.table, logs[p][s.pos[p]].alert),
                  work := if o.Ok? then Committing(p) else s.work)
  {
    OneMoreTurn(logs, turns, Store(o));
  }

  lemma CommitTurn(logs: seq<Postings>, turns: seq<Turn>, o: Pipeline.Outcome)
    requires Turns(logs, turns).work.Committing?
    ensures var s := Turns(logs, turns);
            var p := s.work.p;
            Turns(logs, turns + [Commit(o)])
            == Sink(if o.FailBefore? then s.committed else s.committed[p := s.pos[p] + 1], s.pos[p := s.pos[p] + 1], s.table, Idle)
  {
    OneMoreTurn(logs, turns, Commit(o));
  }

  lemma CommittingTurn(logs: seq<Postings>, turns: seq<Turn>, s: Sink, p: nat, o: Pipeline.Outcome)
    requires Turns(logs, turns) == s && s.work == Committing(p)
    ensures p < |s.pos| == |s.committed|
    ensures Turns(logs, turns + [Commit(o)])
            == Sink(if o.FailBefore? then s.committed else s.committed[p := s.pos[p] + 1], s.pos[p := s.pos[p] + 1], s.table, Idle)
  {
    CommitTurn(logs, turns, o);
  }

  lemma Returned(logs: seq<Postings>, s: Sink)
    requires Fits(logs, s)
    ensures Turned(logs, s, Restart) == Sink(s.committed, s.committed, s.table, Idle)
    ensures s.work.Idle? ==>
              forall p: nat | p < |logs| :: Turned(logs, s, Reassign(p)) == Sink(s.committed, s.pos[p := s.committed[p]], s.table, Idle)
  {
  }

  /** After a restart, and for a partition that was handed over and back, fetching resumes at the committed offset. */
  lemma RestartTurn(logs: seq<Postings>, turns: seq<Turn>)
    ensures var s := Turns(logs, turns); Turns(logs, turns + [Restart]) == Sink(s.committed, s.committed, s.table, Idle)
  {
    OneMoreTurn(logs, turns, Restart);
    Returned(logs, Turns(logs, turns));
  }

  lemma ReassignTurn(logs: seq<Postings>, turns: seq<Turn>, p: nat)
    requires Turns(logs, turns).work.Idle? && p < |logs|
    ensures var s := Turns(logs, turns);
            Turns(logs, turns + [Reassign(p)]) == Sink(s.committed, s.pos[p := s.committed[p]], s.table, Idle)
  {
    OneMoreTurn(logs, turns, Reassign(p));
    Returned(logs, Turns(logs, turns));
  }

  // ---- first wins -----------------------------------------------------------------------------------------

  /** The table that inserting a partition's alerts in order, once each, gives. */
  function FirstWins(log: Postings): Table {
    if log == [] then map[]
    else match log[|log| - 1]
      case Garbled => FirstWins(log[..|log| - 1])
      case Decoded(a) => Insert(FirstWins(log[..|log| - 1]), a)
  }

  lemma FirstWinsOneMore(log: Postings, n: nat)
    requires n < |log|
    ensures FirstWins(log[..n + 1]) == match log[n]
                                       case Garbled => FirstWins(log[..n])
                                       case Decoded(a) => Insert(FirstWins(log[..n]), a)
  {
    assert log[..n + 1][..n] == log[..n];
  }

  predicate Carries(posting: Posting, key: RowKey) {
    posting.Decoded? && KeyOf(posting.alert) == key
  }

  predicate IsFirst(log: Postings, i: nat, key: RowKey)
    requires i < |log|
  {
    Carries(log[i], key) && forall j | 0 <= j < i :: !Carries(log[j], key)
  }

  lemma {:induction false} FirstWinsFrom(log: Postings, key: RowKey) returns (i: nat)
    requires key in FirstWins(log)
    ensures i < |log| && IsFirst(log, i, key) && log[i].alert == FirstWins(log)[key]
  {
    var init, last := log[..|log| - 1], log[|log| - 1];
    if key in FirstWins(init) {
      i := FirstWinsFrom(init, key);
      assert forall j | 0 <= j <= i :: log[j] == init[j];
    } else {
      i := |log| - 1;
      FirstWinsHasAll(init, key);
      assert forall j | 0 <= j < i :: log[j] == init[j];
    }
  }

  /** The row under a key is the first alert with that key. */
  lemma FirstWinsIsFirst(log: Postings, key: RowKey, a: Alert)
    ensures (key in FirstWins(log) && FirstWins(log)[key] == a) <==>
              exists i | 0 <= i < |log| :: IsFirst(log, i, key) && log[i].alert == a
  {
    FirstWinsHasAll(log, key);
    if key in FirstWins(log) {
      var first := FirstWinsFrom(log, key);
      forall i | 0 <= i < |log| && IsFirst(log, i, key) ensures i == first {
        assert Carries(log[i], key) && Carries(log[first], key);
      }
    }
  }

  lemma {:induction false} FirstWinsHasAll(log: Postings, key: RowKey)
    ensures key in FirstWins(log) <==> exists i | 0 <= i < |log| :: Carries(log[i], key)
  {
    if log != [] {
      var init, last := log[..|log| - 1], log[|log| - 1];
      FirstWinsHasAll(init, key);
      assert log == init + [last];
      if Carries(last, key) {
        assert Carries(log[|log| - 1], key);
      }
    }
  }

  /** All alerts with one key are on one partition. */
  predicate WellKeyed(logs: seq<Postings>) {
    forall p, q, i, j | 0 <= p < |logs| && 0 <= q < |logs| && p != q && 0 <= i < |logs[p]| && 0 <= j < |logs[q]| ::
      logs[p][i].Decoded? && logs[q][j].Decoded? ==> KeyOf(logs[p][i].alert) != KeyOf(logs[q][j].alert)
  }

  predicate PrefixLengths(logs: seq<Postings>, n: seq<nat>) {
    |n| == |logs| && forall p | 0 <= p < |logs| :: n[p] <= |logs[p]|
  }

  function Won(logs: seq<Postings>, n: seq<nat>, p: nat): Table
    requires PrefixLengths(logs, n) && p < |logs|
  {
    FirstWins(logs[p][..n[p]])
  }

  predicate Holds(table: Table, part: Table) {
    forall key | key in part :: key in table && table[key] == part[key]
  }

  /** The table is the union of what won on a prefix of each partition. */
  ghost predicate IsFirstWins(logs: seq<Postings>, n: seq<nat>, table: Table)
    requires PrefixLengths(logs, n)
  {
    && (forall p | 0 <= p < |logs| :: Holds(table, Won(logs, n, p)))
    && (forall key | key in table :: exists p | 0 <= p < |logs| :: key in Won(logs, n, p))
  }

  // ---- the invariant --------------------------------------------------------------------------------------

  ghost predicate Sound(logs: seq<Postings>, s: Sink, n: seq<nat>) {
    && Fits(logs, s) && PrefixLengths(logs, n)
    && (forall p | 0 <= p < |logs| :: s.committed[p] <= s.pos[p] <= n[p])
    && (s.work.Committing? ==> s.pos[s.work.p] < n[s.work.p])
    && IsFirstWins(logs, n, s.table)
  }

  /** Storing an alert again changes nothing. */
  lemma StoreAgain(logs: seq<Postings>, n: seq<nat>, table: Table, p: nat, i: nat)
    requires PrefixLengths(logs, n) && IsFirstWins(logs, n, table)
    requires p < |logs| && i < n[p] && logs[p][i].Decoded?
    ensures Insert(table, logs[p][i].alert) == table
  {
    var key := KeyOf(logs[p][i].alert);
    FirstWinsHasAll(logs[p][..n[p]], key);
    assert Carries(logs[p][..n[p]][i], key);
    assert Holds(table, Won(logs, n, p));
  }

  lemma OnOnePartition(logs: seq<Postings>, n: seq<nat>, p: nat, q: nat, i: nat)
    requires WellKeyed(logs) && PrefixLengths(logs, n) && p < |logs| && q < |logs| && p != q
    requires i < |logs[p]| && logs[p][i].Decoded?
    ensures KeyOf(logs[p][i].alert) !in Won(logs, n, q)
  {
    var key := KeyOf(logs[p][i].alert);
    FirstWinsHasAll(logs[q][..n[q]], key);
    forall j | 0 <= j < n[q] ensures !Carries(logs[q][..n[q]][j], key) {
      assert logs[q][..n[q]][j] == logs[q][j];
    }
  }

  function Inserted(table: Table, posting: Posting): Table {
    match posting
    case Garbled => table
    case Decoded(a) => Insert(table, a)
  }

  lemma WonNext(logs: seq<Postings>, n: seq<nat>, p: nat)
    requires PrefixLengths(logs, n) && p < |logs| && n[p] < |logs[p]|
    ensures var n' := n[p := n[p] + 1];
            && PrefixLengths(logs, n')
            && Won(logs, n', p) == Inserted(Won(logs, n, p), logs[p][n[p]])
            && forall q | 0 <= q < |logs| && q != p :: Won(logs, n', q) == Won(logs, n, q)
  {
    FirstWinsOneMore(logs[p], n[p]);
  }

  lemma InsertHolds(table: Table, part: Table, posting: Posting)
    requires Holds(table, part)
    ensures Holds(Inserted(table, posting), part)
    ensures posting.Decoded? && KeyOf(posting.alert) !in table ==> Holds(Inserted(table, posting), Inserted(part, posting))
    ensures posting.Decoded? && KeyOf(posting.alert) in part ==> Holds(Inserted(table, posting), Inserted(part, posting))
    ensures posting.Garbled? ==> Holds(Inserted(table, posting), Inserted(part, posting))
  {
  }

  lemma StoreNextHolds(logs: seq<Postings>, n: seq<nat>, table: Table, p: nat, q: nat)
    requires WellKeyed(logs) && PrefixLengths(logs, n) && IsFirstWins(logs, n, table)
    requires p < |logs| && n[p] < |logs[p]| && q < |logs|
    ensures Holds(Inserted(table, logs[p][n[p]]), Won(logs, n, q))
    ensures Holds(Inserted(table, logs[p][n[p]]), Inserted(Won(logs, n, p), logs[p][n[p]]))
  {
    InsertHolds(table, Won(logs, n, p), logs[p][n[p]]);
    InsertHolds(table, Won(logs, n, q), logs[p][n[p]]);
    if logs[p][n[p]].Decoded? {
      NewKeyIsNew(logs, n, table, p);
    }
  }

  lemma InsertedKey(table: Table, part: Table, posting: Posting, key: RowKey)
    requires key in Inserted(table, posting)
    ensures key in table || key in Inserted(part, posting)
  {
  }

  lemma StoreNext(logs: seq<Postings>, n: seq<nat>, table: Table, p: nat)
    requires WellKeyed(logs) && PrefixLengths(logs, n) && IsFirstWins(logs, n, table)
    requires p < |logs| && n[p] < |logs[p]|
    ensures PrefixLengths(logs, n[p := n[p] + 1])
    ensures IsFirstWins(logs, n[p := n[p] + 1], Inserted(table, logs[p][n[p]]))
  {
    var n', posting := n[p := n[p] + 1], logs[p][n[p]];
    WonNext(logs, n, p);
    forall q | 0 <= q < |logs| ensures Holds(Inserted(table, posting), Won(logs, n', q)) {
      StoreNextHolds(logs, n, table, p, q);
    }
    forall key | key in Inserted(table, posting) ensures exists q | 0 <= q < |logs| :: key in Won(logs, n', q) {
      var q := StoreNextKey(logs, n, table, p, key);
    }
  }

  lemma StoreNextKey(logs: seq<Postings>, n: seq<nat>, table: Table, p: nat, key: RowKey) returns (q: nat)
    requires PrefixLengths(logs, n) && IsFirstWins(logs, n, table)
    requires p < |logs| && n[p] < |logs[p]| && key in Inserted(table, logs[p][n[p]])
    ensures PrefixLengths(logs, n[p := n[p] + 1])
    ensures q < |logs| && key in Won(logs, n[p := n[p] + 1], q)
  {
    var n', posting := n[p := n[p] + 1], logs[p][n[p]];
    WonNext(logs, n, p);
    InsertedKey(table, Won(logs, n, p), posting, key);
    if key in table {
      q :| 0 <= q < |logs| && key in Won(logs, n, q);
      assert q == p ==> key in Inserted(Won(logs, n, p), posting);
    } else {
      q := p;
    }
  }

  /** What the partition has not inserted, no other partition has. */
  lemma NewKeyIsNew(logs: seq<Postings>, n: seq<nat>, table: Table, p: nat)
    requires WellKeyed(logs) && PrefixLengths(logs, n) && IsFirstWins(logs, n, table)
    requires p < |logs| && n[p] < |logs[p]| && logs[p][n[p]].Decoded?
    ensures var key := KeyOf(logs[p][n[p]].alert); key in table <==> key in Won(logs, n, p)
  {
    var key := KeyOf(logs[p][n[p]].alert);
    forall q | 0 <= q < |logs| && q != p ensures key !in Won(logs, n, q) {
      OnOnePartition(logs, n, p, q, n[p]);
    }
    assert Holds(table, Won(logs, n, p));
  }

  function Further(n: seq<nat>, p: nat, i: nat): (n': seq<nat>)
    requires p < |n|
    ensures |n'| == |n| && n'[p] >= n[p] && n'[p] > i && forall q | 0 <= q < |n| && q != p :: n'[q] == n[q]
  {
    if i < n[p] then n else n[p := i + 1]
  }

  /** Storing an alert: the prefix grows, or the alert was in it already. */
  lemma StoreGrows(logs: seq<Postings>, n: seq<nat>, table: Table, p: nat, i: nat) returns (n': seq<nat>)
    requires WellKeyed(logs) && PrefixLengths(logs, n) && IsFirstWins(logs, n, table)
    requires p < |logs| && i < |logs[p]| && i <= n[p] && logs[p][i].Decoded?
    ensures n' == Further(n, p, i) && PrefixLengths(logs, n') && IsFirstWins(logs, n', Insert(table, logs[p][i].alert))
  {
    n' := Further(n, p, i);
    if i < n[p] {
      StoreAgain(logs, n, table, p, i);
    } else {
      StoreNext(logs, n, table, p);
    }
  }

  lemma StoreKeepsSound(logs: seq<Postings>, s: Sink, o: Pipeline.Outcome, n: seq<nat>) returns (n': seq<nat>)
    requires WellKeyed(logs) && Sound(logs, s, n) && s.work.Storing?
    ensures Sound(logs, Turned(logs, s, Store(o)), n')
  {
    n' := n;
    if !o.FailBefore? {
      n' := StoreGrows(logs, n, s.table, s.work.p, s.pos[s.work.p]);
    }
  }

  /** A garbled message is passed over: the prefix grows and the table stays. */
  lemma GarbledGrows(logs: seq<Postings>, n: seq<nat>, table: Table, p: nat, i: nat) returns (n': seq<nat>)
    requires WellKeyed(logs) && PrefixLengths(logs, n) && IsFirstWins(logs, n, table)
    requires p < |logs| && i < |logs[p]| && i <= n[p] && logs[p][i].Garbled?
    ensures n' == Further(n, p, i) && PrefixLengths(logs, n') && IsFirstWins(logs, n', table)
  {
    n' := Further(n, p, i);
    if i >= n[p] {
      StoreNext(logs, n, table, p);
    }
  }

  lemma GarbledKeepsSound(logs: seq<Postings>, s: Sink, p: nat, n: seq<nat>) returns (n': seq<nat>)
    requires WellKeyed(logs) && Sound(logs, s, n) && s.work.Idle?
    requires p < |logs| && s.pos[p] < |logs[p]| && logs[p][s.pos[p]].Garbled?
    ensures Sound(logs, Turned(logs, s, Fetch(p, true)), n')
  {
    n' := GarbledGrows(logs, n, s.table, p, s.pos[p]);
  }

  lemma CommitKeepsSound(logs: seq<Postings>, s: Sink, o: Pipeline.Outcome, n: seq<nat>)
    requires Sound(logs, s, n) && s.work.Committing?
    ensures Sound(logs, Turned(logs, s, Commit(o)), n)
  {
  }

  /** Every turn of the sink keeps the invariant. */
  lemma TurnKeepsSound(logs: seq<Postings>, s: Sink, turn: Turn, n: seq<nat>) returns (n': seq<nat>)
    requires WellKeyed(logs) && Sound(logs, s, n)
    ensures Sound(logs, Turned(logs, s, turn), n')
  {
    n' := n;
    match turn
    case Fetch(p, ok) =>
      if s.work.Idle? && ok && p < |logs| && s.pos[p] < |logs[p]| && logs[p][s.pos[p]].Garbled? {
        n' := GarbledKeepsSound(logs, s, p, n);
      }
    case Store(o) =>
      if s.work.Storing? {
        n' := StoreKeepsSound(logs, s, o, n);
      }
    case Commit(o) =>
      if s.work.Committing? {
        CommitKeepsSound(logs, s, o, n);
      }
    case Restart =>
    case Reassign(_) =>
  }

  /** Sink correctness: for any schedule of crashes, redeliveries and store or commit failures, the table is the
      first-wins fold over a prefix of each partition, and that prefix reaches at least the committed offset. */
  lemma {:induction false} TableIsFirstWins(logs: seq<Postings>, turns: seq<Turn>) returns (n: seq<nat>)
    requires WellKeyed(logs)
    ensures Sound(logs, Turns(logs, turns), n)
  {
    if turns == [] {
      n := Start(logs).pos;
      forall p | 0 <= p < |logs| ensures Holds(map[], Won(logs, n, p)) {
        assert logs[p][..0] == [];
      }
    } else {
      n := TableIsFirstWins(logs, turns[..|turns| - 1]);
      n := TurnKeepsSound(logs, Turns(logs, turns[..|turns| - 1]), turns[|turns| - 1], n);
    }
  }

  /** The first alert with the key of the alert at i is at or before i. */
  lemma FirstOf(log: Postings, i: nat) returns (first: nat)
    requires i < |log| && log[i].Decoded?
    ensures first <= i && IsFirst(log, first, KeyOf(log[i].alert))
    ensures KeyOf(log[i].alert) in FirstWins(log) && FirstWins(log)[KeyOf(log[i].alert)] == log[first].alert
  {
    var key := KeyOf(log[i].alert);
    assert Carries(log[i], key);
    FirstWinsHasAll(log, key);
    first := FirstWinsFrom(log, key);
  }

  /** Every alert below a committed offset has its row, and the row is the first alert posted with its key. */
  lemma CommittedAlertsHaveRows(logs: seq<Postings>, turns: seq<Turn>, p: nat, i: nat) returns (first: nat)
    requires WellKeyed(logs) && p < |logs| && i < |logs[p]| && i < Turns(logs, turns).committed[p]
    requires logs[p][i].Decoded?
    ensures var key, s := KeyOf(logs[p][i].alert), Turns(logs, turns);
            && first <= i && IsFirst(logs[p], first, key)
            && key in s.table && s.table[key] == logs[p][first].alert
  {
    var n := TableIsFirstWins(logs, turns);
    first := FirstOf(logs[p][..n[p]], i);
    assert forall j | 0 <= j < first :: logs[p][j] == logs[p][..n[p]][j];
    assert Holds(Turns(logs, turns).table, Won(logs, n, p));
  }

  lemma WonBy(logs: seq<Postings>, n: seq<nat>, table: Table, key: RowKey) returns (p: nat)
    requires PrefixLengths(logs, n) && IsFirstWins(logs, n, table) && key in table
    ensures p < |logs| && key in Won(logs, n, p) && table[key] == Won(logs, n, p)[key]
  {
    p :| 0 <= p < |logs| && key in Won(logs, n, p);
    assert Holds(table, Won(logs, n, p));
  }

  /** No row comes from anywhere but the topic. */
  lemma RowsComeFromTheTopic(logs: seq<Postings>, turns: seq<Turn>, key: RowKey) returns (p: nat, i: nat)
    requires WellKeyed(logs) && key in Turns(logs, turns).table
    ensures p < |logs| && i < |logs[p]| && Carries(logs[p][i], key)
    ensures logs[p][i] == Decoded(Turns(logs, turns).table[key])
  {
    var n := TableIsFirstWins(logs, turns);
    p := WonBy(logs, n, Turns(logs, turns).table, key);
    i := FirstWinsFrom(logs[p][..n[p]], key);
  }

  // ---- the sink moves on ----------------------------------------------------------------------------------

  /** A run in which every call succeeds and nothing is handed over. */
  predicate AllOk(turns: seq<Turn>) {
    forall i | 0 <= i < |turns| ::
      match turns[i]
      case Fetch(_, ok) => ok
      case Store(o) => o.Ok?
      case Commit(o) => o.Ok?
      case Restart => false
      case Reassign(_) => false
  }

  /** The messages of the first n partitions that are still to be fetched. */
  function RemainingIn(logs: seq<Postings>, pos: seq<nat>, n: nat): nat
    requires n <= |logs| == |pos| && forall p | 0 <= p < |logs| :: pos[p] <= |logs[p]|
  {
    if n == 0 then 0 else RemainingIn(logs, pos, n - 1) + |logs[n - 1]| - pos[n - 1]
  }

  function Remaining(logs: seq<Postings>, pos: seq<nat>): nat
    requires |logs| == |pos| && forall p | 0 <= p < |logs| :: pos[p] <= |logs[p]|
  {
    RemainingIn(logs, pos, |logs|)
  }

  lemma {:induction false} OneLess(logs: seq<Postings>, pos: seq<nat>, p: nat, n: nat)
    requires n <= |logs| == |pos| && forall q | 0 <= q < |logs| :: pos[q] <= |logs[q]|
    requires p < |logs| && pos[p] < |logs[p]|
    ensures RemainingIn(logs, pos[p := pos[p] + 1], n) == RemainingIn(logs, pos, n) - if p < n then 1 else 0
  {
    if n > 0 {
      OneLess(logs, pos, p, n - 1);
    }
  }

  lemma OneSettled(logs: seq<Postings>, pos: seq<nat>, p: nat)
    requires |logs| == |pos| && forall q | 0 <= q < |logs| :: pos[q] <= |logs[q]|
    requires p < |logs| && pos[p] < |logs[p]|
    ensures Remaining(logs, pos[p := pos[p] + 1]) + 1 == Remaining(logs, pos)
  {
    OneLess(logs, pos, p, |logs|);
  }

  lemma {:induction false} NothingRemains(logs: seq<Postings>, pos: seq<nat>, n: nat)
    requires n <= |logs| == |pos| && forall q | 0 <= q < |logs| :: pos[q] <= |logs[q]|
    ensures RemainingIn(logs, pos, n) == 0 <==> forall p | 0 <= p < n :: pos[p] == |logs[p]|
  {
    if n > 0 {
      NothingRemains(logs, pos, n - 1);
    }
  }

  predicate SinkDrained(logs: seq<Postings>, s: Sink)
    requires Fits(logs, s)
  {
    forall p | 0 <= p < |logs| :: s.committed[p] == |logs[p]|
  }

  /** Fetched, stored if it is an alert, and committed. */
  function Journey(posting: Posting, p: nat): seq<Turn> {
    if posting.Garbled? then [Fetch(p, true), Commit(Pipeline.Ok)]
    else [Fetch(p, true), Store(Pipeline.Ok), Commit(Pipeline.Ok)]
  }

  lemma GarbledGoesThrough(logs: seq<Postings>, turns: seq<Turn>, p: nat)
    requires p < |logs| && Turns(logs, turns).work.Idle? && Turns(logs, turns).pos[p] < |logs[p]|
    requires logs[p][Turns(logs, turns).pos[p]].Garbled?
    ensures var s := Turns(logs, turns);
            Turns(logs, turns + [Fetch(p, true), Commit(Pipeline.Ok)])
            == Sink(s.committed[p := s.pos[p] + 1], s.pos[p := s.pos[p] + 1], s.table, Idle)
  {
    var fetched := turns + [Fetch(p, true)];
    FetchTurn(logs, turns, p);
    CommitTurn(logs, fetched, Pipeline.Ok);
    assert fetched + [Commit(Pipeline.Ok)] == turns + [Fetch(p, true), Commit(Pipeline.Ok)];
  }

  lemma AlertIsStored(logs: seq<Postings>, turns: seq<Turn>, p: nat)
    requires p < |logs| && Turns(logs, turns).work.Idle? && Turns(logs, turns).pos[p] < |logs[p]|
    requires logs[p][Turns(logs, turns).pos[p]].Decoded?
    ensures var s := Turns(logs, turns);
            Turns(logs, turns + [Fetch(p, true), Store(Pipeline.Ok)])
            == s.(table := Insert(s.table, logs[p][s.pos[p]].alert), work := Committing(p))
  {
    var fetched := turns + [Fetch(p, true)];
    FetchTurn(logs, turns, p);
    StoreTurn(logs, fetched, Pipeline.Ok);
    assert fetched + [Store(Pipeline.Ok)] == turns + [Fetch(p, true), Store(Pipeline.Ok)];
  }

  lemma AlertGoesThrough(logs: seq<Postings>, turns: seq<Turn>, p: nat)
    requires p < |logs| && Turns(logs, turns).work.Idle? && Turns(logs, turns).pos[p] < |logs[p]|
    requires logs[p][Turns(logs, turns).pos[p]].Decoded?
    ensures var s := Turns(logs, turns);
            Turns(logs, turns + [Fetch(p, true), Store(Pipeline.Ok), Commit(Pipeline.Ok)])
            == Sink(s.committed[p := s.pos[p] + 1], s.pos[p := s.pos[p] + 1], Insert(s.table, logs[p][s.pos[p]].alert), Idle)
  {
    var stored := turns + [Fetch(p, true), Store(Pipeline.Ok)];
    AlertIsStored(logs, turns, p);
    CommitTurn(logs, stored, Pipeline.Ok);
    assert stored + [Commit(Pipeline.Ok)] == turns + [Fetch(p, true), Store(Pipeline.Ok), Commit(Pipeline.Ok)];
  }

  /** One message goes through: both offsets move past it, its alert has a row, and nothing else changes. */
  lemma MessageGoesThrough(logs: seq<Postings>, turns: seq<Turn>, p: nat)
    requires p < |logs| && Turns(logs, turns).work.Idle? && Turns(logs, turns).pos[p] < |logs[p]|
    ensures var s := Turns(logs, turns);
            var posting := logs[p][s.pos[p]];
            var next := s.pos[p] + 1;
            var table := match posting case Garbled => s.table case Decoded(a) => Insert(s.table, a);
            Turns(logs, turns + Journey(posting, p)) == Sink(s.committed[p := next], s.pos[p := next], table, Idle)
  {
    if logs[p][Turns(logs, turns).pos[p]].Garbled? {
      GarbledGoesThrough(logs, turns, p);
    } else {
      AlertGoesThrough(logs, turns, p);
    }
  }

  /** How many messages a run has committed. */
  function Commits(logs: seq<Postings>, turns: seq<Turn>): nat {
    if turns == [] then 0
    else
      var n := |turns| - 1;
      Commits(logs, turns[..n]) + if turns[n].Commit? && Turns(logs, turns[..n]).work.Committing? then 1 else 0
  }

  lemma OkTurnAdvances(logs: seq<Postings>, s: Sink, turn: Turn)
    requires Fits(logs, s) && s.committed == s.pos && AllOk([turn])
    ensures var s' := Turned(logs, s, turn);
            && s'.committed == s'.pos
            && Remaining(logs, s'.pos) + (if turn.Commit? && s.work.Committing? then 1 else 0) == Remaining(logs, s.pos)
  {
    assert AllOk([turn]) && [turn][0] == turn;
    if turn.Commit? && s.work.Committing? {
      OneLess(logs, s.pos, s.work.p, |logs|);
    }
  }

  /** In every run in which all calls succeed, each commit settles one message for good. */
  lemma {:induction false} OkRunAdvances(logs: seq<Postings>, turns: seq<Turn>)
    requires AllOk(turns)
    ensures var s := Turns(logs, turns);
            s.committed == s.pos && Remaining(logs, s.pos) + Commits(logs, turns) == Remaining(logs, Start(logs).pos)
  {
    if turns != [] {
      var n := |turns| - 1;
      OkRunAdvances(logs, turns[..n]);
      assert AllOk([turns[n]]);
      OkTurnAdvances(logs, Turns(logs, turns[..n]), turns[n]);
    }
  }

  /** Such a run drains the sink exactly when it has committed as many messages as there are, and then every alert that
      can be parsed has its row. */
  lemma OkRunDrainsWhenDone(logs: seq<Postings>, turns: seq<Turn>)
    requires AllOk(turns)
    ensures SinkDrained(logs, Turns(logs, turns)) <==> Commits(logs, turns) == Remaining(logs, Start(logs).pos)
  {
    OkRunAdvances(logs, turns);
    NothingRemains(logs, Turns(logs, turns).pos, |logs|);
  }

  lemma DrainedSinkHasAllRows(logs: seq<Postings>, turns: seq<Turn>, p: nat, i: nat)
    requires WellKeyed(logs) && SinkDrained(logs, Turns(logs, turns))
    requires p < |logs| && i < |logs[p]| && logs[p][i].Decoded?
    ensures KeyOf(logs[p][i].alert) in Turns(logs, turns).table
  {
    var first := CommittedAlertsHaveRows(logs, turns, p, i);
  }

  lemma OkConcat(a: seq<Turn>, b: seq<Turn>)
    requires AllOk(a) && AllOk(b)
    ensures AllOk(a + b)
  {
  }

  lemma OkJourney(logs: seq<Postings>, turns: seq<Turn>, p: nat) returns (journey: seq<Turn>)
    requires AllOk(turns) && Turns(logs, turns).work.Idle?
    requires p < |logs| && Turns(logs, turns).pos[p] < |logs[p]|
    ensures AllOk(turns + journey) && Turns(logs, turns + journey).work.Idle?
    ensures Remaining(logs, Turns(logs, turns + journey).pos) + 1 == Remaining(logs, Turns(logs, turns).pos)
  {
    var pos := Turns(logs, turns).pos;
    journey := Journey(logs[p][pos[p]], p);
    OneSettled(logs, pos, p);
    MessageGoesThrough(logs, turns, p);
    OkConcat(turns, journey);
  }

  /** From every state between two messages, a run of successful calls drains the sink. */
  lemma {:induction false} OkRunExists(logs: seq<Postings>, before: seq<Turn>) returns (turns: seq<Turn>)
    requires AllOk(before) && Turns(logs, before).work.Idle?
    ensures AllOk(turns) && before <= turns && SinkDrained(logs, Turns(logs, turns))
    decreases Remaining(logs, Turns(logs, before).pos)
  {
    var s := Turns(logs, before);
    OkRunAdvances(logs, before);
    NothingRemains(logs, s.pos, |logs|);
    if p: nat :| p < |logs| && s.pos[p] < |logs[p]| {
      var journey := OkJourney(logs, before, p);
      turns := OkRunExists(logs, before + journey);
    } else {
      turns := before;
    }
  }

  // ---- the code -------------------------------------------------------------------------------------------

  /** What the broker, the database and the operator decide, call by call. */
  datatype Reply = Reply(p: nat, outcome: Pipeline.Outcome, stop: bool)

  class Reader {
    const logs: seq<Postings>
    const env: nat -> Reply
    var table: Table
    var committed: seq<nat>
    var pos: seq<nat>
    var ticks: nat
    ghost var turns: seq<Turn>

    ghost predicate Valid()
      reads this
    {
      var s := Turns(logs, turns);
      s.table == table && s.committed == committed && s.pos == pos
    }

    /** The loop is between two messages. */
    ghost predicate Between()
      reads this
    {
      Valid() && Turns(logs, turns).work == Idle
    }

    constructor (logs: seq<Postings>, env: nat -> Reply)
      ensures Between() && table == map[] && turns == [] && this.logs == logs && this.env == env && ticks == 0
    {
      this.logs, this.env := logs, env;
      table, ticks := map[], 0;
      var zeros := seq(|logs|, i => 0);
      committed, pos := zeros, zeros;
      turns := [];
    }

    method StoreAlert(a: Alert, outcome: Pipeline.Outcome) returns (ok: bool)
      modifies this`table
      ensures ok == outcome.Ok?
      ensures table == if outcome.FailBefore? then old(table) else Insert(old(table), a)
    {
      if !outcome.FailBefore? && KeyOf(a) !in table {
        table := table[KeyOf(a) := a];
      }
      ok := outcome.Ok?;
    }

    /** The process is gone and comes back. */
    method RestartReader()
      requires Valid()
      modifies this`pos, this`turns
      ensures Between() && pos == committed && turns == old(turns) + [Restart]
    {
      RestartTurn(logs, turns);
      turns := turns + [Restart];
      assert Turns(logs, turns) == Sink(committed, committed, table, Idle);
      pos := committed;
    }

    /** Retry until the row is in; false if the context ended or the calls ran out first. */
    method StoreUntilDone(p: nat, a: Alert, limit: nat) returns (done: bool)
      requires Valid() && Turns(logs, turns).work == Storing(p) && p < |logs| == |pos| && pos[p] < |logs[p]|
      requires logs[p][pos[p]] == Decoded(a)
      modifies this`table, this`turns, this`ticks
      ensures Valid() && ticks >= old(ticks)
      ensures Turns(logs, turns).work == if done then Committing(p) else Storing(p)
      ensures Smooth() && old(ticks) < limit ==> done && ticks == old(ticks) + 1
    {
      done := false;
      while !done && ticks < limit
        invariant Valid() && ticks >= old(ticks)
        invariant Turns(logs, turns).work == if done then Committing(p) else Storing(p)
        invariant Smooth() ==> ticks == old(ticks) + if done then 1 else 0
        decreases !done, limit - ticks
      {
        var reply := env(ticks);
        ticks := ticks + 1;
        StoreTurn(logs, turns, reply.outcome);
        turns := turns + [Store(reply.outcome)];
        done := StoreAlert(a, reply.outcome);
        if !done && reply.stop {
          return;
        }
      }
    }

    method CommitMessages(p: nat, outcome: Pipeline.Outcome)
      requires Valid() && Turns(logs, turns).work == Committing(p)
      modifies this`committed, this`pos, this`turns
      ensures Between() && turns == old(turns) + [Commit(outcome)]
      ensures p < |pos| == |old(pos)| && pos == old(pos)[p := old(pos)[p] + 1]
      ensures committed == if outcome.FailBefore? then old(committed) else old(committed)[p := old(pos)[p] + 1]
    {
      CommittingTurn(logs, turns, Sink(committed, pos, table, Committing(p)), p, outcome);
      turns := turns + [Commit(outcome)];
      if !outcome.FailBefore? {
        committed := committed[p := pos[p] + 1];
      }
      pos := pos[p := pos[p] + 1];
    }

    /** Every call succeeds and the context does not end. */
    ghost predicate Smooth() {
      forall i :: env(i).outcome.Ok? && !env(i).stop
    }

    /** The partition the next message comes from: the one the broker prefers, if it has a message, or another that has. */
    method Available(preferred: nat) returns (p: nat)
      requires |pos| == |logs|
      ensures p < |logs| ==> pos[p] < |logs[p]|
      ensures p >= |logs| ==> forall q | 0 <= q < |logs| :: pos[q] >= |logs[q]|
    {
      if preferred < |logs| && pos[preferred] < |logs[preferred]| {
        return preferred;
      }
      p := 0;
      while p < |logs| && pos[p] >= |logs[p]|
        invariant p <= |logs| && forall q | 0 <= q < p :: pos[q] >= |logs[q]|
      {
        p := p + 1;
      }
    }

    /** The messages still to be settled. */
    ghost function Left(): nat
      requires Valid()
      reads this
    {
      Remaining(logs, pos)
    }

    /** All calls succeed, what was fetched is committed, and there is time for three calls per message. */
    ghost predicate InTime(limit: nat)
      requires Valid()
      reads this
    {
      Smooth() && committed == pos && limit >= ticks + 3 * Left()
    }

    /** The message just fetched is stored if it is an alert; false if the loop ended before that. */
    method StoreFetched(p: nat, limit: nat) returns (done: bool)
      requires Valid() && p < |logs| == |pos| && pos[p] < |logs[p]|
      requires Turns(logs, turns).work == if logs[p][pos[p]].Garbled? then Committing(p) else Storing(p)
      modifies this`table, this`turns, this`ticks
      ensures Valid() && ticks >= old(ticks) && (done ==> Turns(logs, turns).work == Committing(p))
      ensures Smooth() && old(ticks) < limit ==> done && ticks <= old(ticks) + 1
    {
      if logs[p][pos[p]].Garbled? {
        return true;
      }
      done := StoreUntilDone(p, logs[p][pos[p]].alert, limit);
    }

    /** With everything fetched so far committed, an accepted commit leaves it so, with one message less to settle. */
    method CommitNext(p: nat, outcome: Pipeline.Outcome)
      requires Valid() && Turns(logs, turns).work == Committing(p)
      modifies this`committed, this`pos, this`turns
      ensures Between()
      ensures outcome.Ok? && old(committed == pos) ==> committed == pos && Left() + 1 == old(Left())
    {
      OneSettled(logs, pos, p);
      CommitMessages(p, outcome);
    }

    /** A message has been delivered, or nothing has. */
    method Receive(p: nat)
      requires Between() && p < |logs| == |pos| && pos[p] < |logs[p]|
      modifies this`turns
      ensures Valid() && Turns(logs, turns).work == if logs[p][pos[p]].Garbled? then Committing(p) else Storing(p)
    {
      FetchTurn(logs, turns, p);
      turns := turns + [Fetch(p, true)];
    }

    method ReceiveNothing(p: nat, ok: bool)
      requires Between() && (!ok || p >= |logs|)
      modifies this`turns
      ensures Between()
    {
      EmptyFetchTurn(logs, turns, p, ok);
      turns := turns + [Fetch(p, ok)];
    }

    /** One round of the loop: a message is fetched, stored and committed. */
    method Round(limit: nat) returns (stopped: bool)
      requires Between() && ticks < limit
      modifies this
      ensures Valid() && ticks > old(ticks)
      ensures !stopped ==> Between()
      ensures old(InTime(limit)) ==> !stopped && InTime(limit)
    {
      var fetched := env(ticks);
      var p := Available(fetched.p);
      NothingRemains(logs, pos, |logs|);
      if !fetched.outcome.Ok? || p >= |logs| {
        ReceiveNothing(p, fetched.outcome.Ok?);
        ticks := ticks + 1;
        return fetched.stop;
      }
      Receive(p);
      ticks := ticks + 1;
      var done := StoreFetched(p, limit);
      if !done {
        return true;
      }
      CommitNext(p, env(ticks).outcome);
      ticks := ticks + 1;
      stopped := false;
    }

    /** consumeAlerts, until the context ends or `limit` calls have been made: whatever happened, table and offsets
        are those of a schedule of the sink. If all calls succeed and there is time for three calls per message, every
        message is settled. */
    method ConsumeAlerts(limit: nat)
      requires Between()
      modifies this
      ensures Valid() && ticks >= old(ticks)
      ensures old(InTime(limit)) ==> |committed| == |logs| && forall p | 0 <= p < |logs| :: committed[p] == |logs[p]|
    {
      var stopped := false;
      while !stopped && ticks < limit
        invariant Valid() && ticks >= old(ticks)
        invariant !stopped ==> Between()
        invariant old(InTime(limit)) ==> !stopped && InTime(limit)
        decreases !stopped, limit - ticks
      {
        stopped := Round(limit);
      }
      NothingRemains(logs, pos, |logs|);
    }

    /** With every message settled, every alert that can be parsed has its row. */
    lemma SettledAlertsHaveRows(p: nat, i: nat)
      requires Valid() && WellKeyed(logs) && |committed| == |logs|
      requires forall q | 0 <= q < |logs| :: committed[q] == |logs[q]|
      requires p < |logs| && i < |logs[p]| && logs[p][i].Decoded?
      ensures KeyOf(logs[p][i].alert) in table
    {
      DrainedSinkHasAllRows(logs, turns, p, i);
    }

    /** Hence the table is the first-wins fold over prefixes that reach the committed offsets. */
    lemma TableIsRight() returns (n: seq<nat>)
      requires Valid() && WellKeyed(logs)
      ensures PrefixLengths(logs, n) && IsFirstWins(logs, n, table)
      ensures |committed| == |logs| && forall p | 0 <= p < |logs| :: committed[p] <= n[p]
    {
      n := TableIsFirstWins(logs, turns);
    }
  }
}
