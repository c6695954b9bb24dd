/** Seen from one subscriber: handling a whole log exactly once leaves that subscriber's state as handling its records
    alone would, and so does a fleet of consumers under faults, however their steps interleave. */
module OneSubscriber {
  import opened Cdr
  import opened Redis
  import opened Pipeline
  import opened Ideal
  import opened ExactlyOnce
  import EffectivelyOnce
  import opened Partitions

  /** Handling a list of messages exactly once each. */
  function Folded(c: Config, log: seq<Message>): Facts {
    if log == [] then map[]
    else match log[|log| - 1]
      case Unparseable => Folded(c, log[..|log| - 1])
      case Parsed(rec) => Once(c, Folded(c, log[..|log| - 1]), rec)
  }

  lemma {:induction false} AfterIsFolded(c: Config, n: nat)
    requires n <= |c.log|
    ensures After(c, n) == Folded(c, c.log[..n])
  {
    if n > 0 {
      AfterIsFolded(c, n - 1);
      assert c.log[..n][..n - 1] == c.log[..n - 1];
    }
  }

  predicate By(message: Message, caller: string) {
    message.Parsed? && message.rec.caller == caller
  }

  function MessagesBy(log: seq<Message>, caller: string): seq<Message> {
    if log == [] then []
    else
      var last := log[|log| - 1];
      MessagesBy(log[..|log| - 1], caller) + if By(last, caller) then [last] else []
  }

  /** A record id is used by one subscriber only. */
  predicate OwnIds(log: seq<Message>) {
    forall i, j | 0 <= i < |log| && 0 <= j < |log| && log[i].Parsed? && log[j].Parsed? && log[i].rec.id == log[j].rec.id ::
      log[i].rec.caller == log[j].rec.caller
  }

  predicate Uses(log: seq<Message>, caller: string, id: string) {
    exists i | 0 <= i < |log| :: By(log[i], caller) && log[i].rec.id == id
  }

  /** The lasting facts about a subscriber: its windows, its last location and which of its records were seen. */
  predicate About(log: seq<Message>, caller: string, key: Key) {
    match key
    case VelocityKey(other) => other == caller
    case SpendKey(other) => other == caller
    case LastLocKey(other) => other == caller
    case SeenKey(id) => Uses(log, caller, id)
    case AlertedKey(_, _) => false
  }

  ghost predicate SameAbout(log: seq<Message>, caller: string, m: Facts, m': Facts) {
    forall key | About(log, caller, key) :: SameFact(m, m', key)
  }

  lemma OwnRecordMovesAlike(c: Config, log: seq<Message>, caller: string, m: Facts, m': Facts, rec: Record)
    requires SameAbout(log, caller, m, m') && rec.caller == caller && Uses(log, caller, rec.id)
    ensures SameAbout(log, caller, Once(c, m, rec), Once(c, m', rec))
  {
    assert SameFact(m, m', SeenKey(rec.id));
    assert SameFact(m, m', VelocityKey(caller)) && SameFact(m, m', SpendKey(caller)) && SameFact(m, m', LastLocKey(caller));
    forall key | About(log, caller, key) ensures SameFact(Once(c, m, rec), Once(c, m', rec), key) {
      assert SameFact(m, m', key);
    }
  }

  lemma OtherRecordMovesNothing(c: Config, log: seq<Message>, caller: string, m: Facts, rec: Record)
    requires rec.caller != caller && !Uses(log, caller, rec.id)
    ensures SameAbout(log, caller, m, Once(c, m, rec))
  {
  }

  lemma {:induction false} AloneStep(c: Config, log: seq<Message>, n: nat, caller: string)
    requires n <= |log| && OwnIds(log)
    ensures SameAbout(log, caller, Folded(c, log[..n]), Folded(c, MessagesBy(log[..n], caller)))
  {
    if n > 0 {
      AloneStep(c, log, n - 1, caller);
      var init, last := log[..n - 1], log[n - 1];
      assert log[..n][..n - 1] == init;
      var before, alone := Folded(c, init), Folded(c, MessagesBy(init, caller));
      if By(last, caller) {
        assert MessagesBy(log[..n], caller) == MessagesBy(init, caller) + [last];
        assert (MessagesBy(init, caller) + [last])[..|MessagesBy(init, caller)|] == MessagesBy(init, caller);
        OwnRecordMovesAlike(c, log, caller, before, alone, last.rec);
      } else {
        assert MessagesBy(log[..n], caller) == MessagesBy(init, caller);
        if last.Parsed? {
          OtherRecordMovesNothing(c, log, caller, before, last.rec);
          forall key | About(log, caller, key) ensures SameFact(Once(c, before, last.rec), alone, key) {
            assert SameFact(before, Once(c, before, last.rec), key) && SameFact(before, alone, key);
          }
        }
      }
    }
  }

  /** Exactly-once handling treats each subscriber as if its records were the whole log. */
  lemma SubscribersAreIndependent(c: Config, n: nat, caller: string)
    requires n <= |c.log| && OwnIds(c.log)
    ensures SameAbout(c.log, caller, After(c, n), Folded(c, MessagesBy(c.log[..n], caller)))
  {
    AfterIsFolded(c, n);
    AloneStep(c, c.log, n, caller);
  }

  /** Every rule reaches the verdict it would reach if the subscriber's records were the whole log. */
  lemma VerdictIsTheSubscribers(c: Config, i: nat, rule: Rule)
    requires i < |c.log| && c.log[i].Parsed? && OwnIds(c.log)
    ensures var rec := c.log[i].rec;
            VerdictAt(c, i, rule) == Verdict(c, Folded(c, MessagesBy(c.log[..i], rec.caller)), rec, rule)
  {
    var rec := c.log[i].rec;
    var m, m' := After(c, i), Folded(c, MessagesBy(c.log[..i], rec.caller));
    SubscribersAreIndependent(c, i, rec.caller);
    assert SameFact(m, m', VelocityKey(rec.caller)) && SameFact(m, m', LastLocKey(rec.caller));
    assert SameFact(m, m', SpendKey(rec.caller));
  }

  // ---- a fleet of consumers -------------------------------------------------------------------------------

  lemma OwnKeyIsTouched(c: Config, caller: string, key: Key, i: nat)
    requires i < |c.log| && By(c.log[i], caller) && About(c.log, caller, key)
    ensures Touches(c, key)
  {
    if key.SeenKey? {
      var k :| 0 <= k < |c.log| && By(c.log[k], caller) && c.log[k].rec.id == key.id;
      assert Owns(c.log[k].rec, key);
    } else {
      assert Owns(c.log[i].rec, key);
    }
  }

  lemma LastingFact(store: Store, store': Store, key: Key)
    requires SameKey(store, store', key)
    ensures SameFact(Lasting(store), Lasting(store'), key)
  {
  }

  /** A fleet of consumers over separate partitions, with every interleaving, every fault and every restart of a calm
      run: once a partition is drained, the shared store holds about each of its subscribers exactly what handling
      that subscriber's records alone, once each and in log order, gives. */
  lemma FleetIsExactlyOnce(cs: seq<Config>, now: int, moves: seq<Move>, who: nat, caller: string, early: int, late: int)
    requires Separate(cs) && Moves(cs, moves) && who < |cs|
    requires OwnIds(cs[who].log) && exists i | 0 <= i < |cs[who].log| :: By(cs[who].log[i], caller)
    requires Tuned(cs[who], early, late) && CalmRun(cs[who], Init(now), Experienced(moves, who), early, late)
    requires MultiRun(cs, InitAll(cs, now), moves).parts[who].committed == |cs[who].log|
    ensures SameAbout(cs[who].log, caller, Lasting(MultiRun(cs, InitAll(cs, now), moves).store),
                      Folded(cs[who], MessagesBy(cs[who].log, caller)))
  {
    var c, m, s := cs[who], MultiRun(cs, InitAll(cs, now), moves), Run(cs[who], Init(now), Experienced(moves, who));
    EachRunsAsIfAlone(cs, now, moves, who);
    EffectivelyOnce.DrainedStateIsIdeal(c, now, Experienced(moves, who), early, late);
    SubscribersAreIndependent(c, |c.log|, caller);
    assert c.log[..|c.log|] == c.log;
    var i :| 0 <= i < |c.log| && By(c.log[i], caller);
    forall key | About(c.log, caller, key)
      ensures SameFact(Lasting(m.store), Folded(c, MessagesBy(c.log, caller)), key)
    {
      OwnKeyIsTouched(c, caller, key, i);
      LastingFact(m.store, s.store, key);
      assert SameFact(After(c, |c.log|), Folded(c, MessagesBy(c.log, caller)), key);
    }
  }

  /** In the same fleet, every alert on every partition is the verdict that the subscriber's records alone give. */
  lemma FleetAlertsAreVerdicts(cs: seq<Config>, now: int, moves: seq<Move>, who: nat, j: nat, early: int, late: int)
      returns (i: nat)
    requires Separate(cs) && Moves(cs, moves) && who < |cs| && OwnIds(cs[who].log)
    requires Tuned(cs[who], early, late) && CalmRun(cs[who], Init(now), Experienced(moves, who), early, late)
    requires j < |MultiRun(cs, InitAll(cs, now), moves).parts[who].alerts|
    ensures i < |cs[who].log| && cs[who].log[i].Parsed?
    ensures var c, a := cs[who], MultiRun(cs, InitAll(cs, now), moves).parts[who].alerts[j].alert;
            var rec := c.log[i].rec;
            a.id == rec.id && a.caller == rec.caller
            && Verdict(c, Folded(c, MessagesBy(c.log[..i], rec.caller)), rec, a.rule) == Some(a.score)
  {
    var c, a := cs[who], MultiRun(cs, InitAll(cs, now), moves).parts[who].alerts[j].alert;
    EachRunsAsIfAlone(cs, now, moves, who);
    EffectivelyOnce.EveryAlertIsAVerdict(c, now, Experienced(moves, who), early, late, j);
    i :| Backs(c, i, a);
    VerdictIsTheSubscribers(c, i, a.rule);
  }
}
