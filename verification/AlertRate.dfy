/** How often one rule can alert on one subscriber, in any run whatsoever: crashes, shutdowns, dead letters, failed
    enrichment and late records included. */
module AlertRate {
  import opened Cdr
  import opened Redis
  import opened Pipeline

  predicate Concerns(a: Alert, rule: Rule, caller: string) {
    a.rule == rule && a.caller == caller
  }

  predicate SameKey(a: Alert, b: Alert) {
    Concerns(a, b.rule, b.caller)
  }

  /** The flag an emission left is still set, with a deadline of at least one cooldown after the emission. */
  predicate Flagged(store: Store, e: Emission, cooldownMs: int) {
    var key := AlertedKey(e.alert.rule, e.alert.caller);
    key in store && store[key].deadline.At? && e.at + cooldownMs <= store[key].deadline.ms
  }

  predicate Chronological(alerts: seq<Emission>, now: int) {
    && (forall i, j | 0 <= i < j < |alerts| :: alerts[i].at <= alerts[j].at)
    && (forall i | 0 <= i < |alerts| :: alerts[i].at <= now)
  }

  predicate FlagsSet(store: Store, alerts: seq<Emission>, flagged: map<nat, int>, cooldownMs: int) {
    forall i | i in flagged :: i < |alerts| && Flagged(store, alerts[i], cooldownMs)
  }

  /** After an emission whose flag took effect, the next one of that rule for that subscriber is a cooldown away. */
  predicate Spaced(alerts: seq<Emission>, flagged: map<nat, int>, cooldownMs: int) {
    forall i, j | i in flagged && i < j < |alerts| && SameKey(alerts[i].alert, alerts[j].alert) ::
      alerts[i].at + cooldownMs <= alerts[j].at
  }

  predicate Quiet(alerts: seq<Emission>, flagged: map<nat, int>, rule: Rule, caller: string, cooldownMs: int, now: int) {
    forall i | i in flagged && i < |alerts| && Concerns(alerts[i].alert, rule, caller) ::
      alerts[i].at + cooldownMs <= now
  }

  predicate Intent(c: Config, s: State) {
    var proc, alerts := s.part.proc, s.part.alerts;
    (proc.pos < |c.log| && c.log[proc.pos].Parsed?) ==>
      var caller := c.log[proc.pos].rec.caller;
      && (proc.pc.Emit? ==> Quiet(alerts, s.part.hist.flagged, proc.pc.rule, caller, c.cooldownMs, s.now))
      && (proc.pc.SetFlag? ==> alerts != [] && Concerns(alerts[|alerts| - 1].alert, proc.pc.rule, caller))
  }

  predicate Log(c: Config, s: State) {
    && Chronological(s.part.alerts, s.now)
    && FlagsSet(s.store, s.part.alerts, s.part.hist.flagged, c.cooldownMs)
    && Spaced(s.part.alerts, s.part.hist.flagged, c.cooldownMs)
  }

  lemma OtherKeyKeeps(store: Store, key: Key, e: Entry, alerts: seq<Emission>, flagged: map<nat, int>, cooldownMs: int)
    requires FlagsSet(store, alerts, flagged, cooldownMs) && !key.AlertedKey?
    ensures FlagsSet(store[key := e], alerts, flagged, cooldownMs)
  {
    forall i | i in flagged ensures i < |alerts| && Flagged(store[key := e], alerts[i], cooldownMs) {
      assert Flagged(store, alerts[i], cooldownMs);
    }
  }

  lemma SetFlagLogs(c: Config, s: State, rec: Record)
    requires Log(c, s) && s.part.proc.pc.SetFlag? && c.cooldownMs > 0
    requires s.part.alerts != [] && Concerns(s.part.alerts[|s.part.alerts| - 1].alert, s.part.proc.pc.rule, rec.caller)
    ensures Log(c, Effect(c, s, rec))
  {
    var alerts, s' := s.part.alerts, Effect(c, s, rec);
    var last := |alerts| - 1;
    assert s'.part.hist.flagged == s.part.hist.flagged[last := s.now];
    forall i | i in s'.part.hist.flagged ensures i < |alerts| && Flagged(s'.store, alerts[i], c.cooldownMs) {
      assert i in s.part.hist.flagged ==> Flagged(s.store, alerts[i], c.cooldownMs);
    }
  }

  lemma EmitLogs(c: Config, s: State, rec: Record)
    requires Log(c, s) && s.part.proc.pc.Emit?
    requires Quiet(s.part.alerts, s.part.hist.flagged, s.part.proc.pc.rule, rec.caller, c.cooldownMs, s.now)
    ensures Log(c, Effect(c, s, rec))
  {
    var alerts, alerts' := s.part.alerts, Effect(c, s, rec).part.alerts;
    assert forall i | 0 <= i < |alerts| :: alerts'[i] == alerts[i];
    forall i | i in s.part.hist.flagged ensures i < |alerts'| && Flagged(s.store, alerts'[i], c.cooldownMs) {
      assert Flagged(s.store, alerts[i], c.cooldownMs);
    }
  }

  lemma EffectLogs(c: Config, s: State, rec: Record)
    requires Log(c, s) && Intent(c, s) && c.cooldownMs > 0
    requires OnMessage(c, s.part.proc, Parsed(rec))
    ensures Log(c, Effect(c, s, rec))
  {
    var pc, s' := s.part.proc.pc, Effect(c, s, rec);
    match pc
    case SetFlag(_) => SetFlagLogs(c, s, rec);
    case Emit(_) => EmitLogs(c, s, rec);
    case Count => OtherKeyKeeps(s.store, VelocityKey(rec.caller), s'.store[VelocityKey(rec.caller)], s.part.alerts, s.part.hist.flagged, c.cooldownMs);
    case LocSet => OtherKeyKeeps(s.store, LastLocKey(rec.caller), s'.store[LastLocKey(rec.caller)], s.part.alerts, s.part.hist.flagged, c.cooldownMs);
    case Accrue => OtherKeyKeeps(s.store, SpendKey(rec.caller), s'.store[SpendKey(rec.caller)], s.part.alerts, s.part.hist.flagged, c.cooldownMs);
    case Mark => OtherKeyKeeps(s.store, SeenKey(rec.id), s'.store[SeenKey(rec.id)], s.part.alerts, s.part.hist.flagged, c.cooldownMs);
    case _ =>
  }

  /** A guard that finds no live flag has nothing flagged within the last cooldown. */
  lemma GuardIsQuiet(c: Config, s: State, rule: Rule, caller: string)
    requires Log(c, s) && !Exists(s.store, AlertedKey(rule, caller), s.now)
    ensures Quiet(s.part.alerts, s.part.hist.flagged, rule, caller, c.cooldownMs, s.now)
  {
    forall i | i in s.part.hist.flagged && i < |s.part.alerts| && Concerns(s.part.alerts[i].alert, rule, caller)
      ensures s.part.alerts[i].at + c.cooldownMs <= s.now
    {
      assert Flagged(s.store, s.part.alerts[i], c.cooldownMs);
    }
  }

  /** Only a guard leads to an emission, and only an emission to its flag. */
  lemma DecisionsComeFrom(c: Config, store: Store, now: int, proc: Proc, rec: Record)
    requires InHandle(proc.pc)
    ensures var d := Decide(c, store, now, proc, rec);
            && (d.Go? && d.pc.Emit? ==> proc.pc == Guard(d.pc.rule) && !Exists(store, AlertedKey(d.pc.rule, rec.caller), now))
            && (d.Go? && d.pc.SetFlag? ==> proc.pc == Emit(d.pc.rule))
            && (proc.pc.Emit? ==> d == Go(SetFlag(proc.pc.rule)))
            && (d.Muted? ==> Exists(store, AlertedKey(d.rule, rec.caller), now))
  {
  }

  lemma ObeyIntends(c: Config, s: State, d: Decision, rec: Record)
    requires OnMessage(c, s.part.proc, Parsed(rec))
    requires d.Go? && d.pc.Emit? ==>
               Quiet(s.part.alerts, s.part.hist.flagged, d.pc.rule, rec.caller, c.cooldownMs, s.now)
    requires d.Go? && d.pc.SetFlag? ==>
               s.part.alerts != [] && Concerns(s.part.alerts[|s.part.alerts| - 1].alert, d.pc.rule, rec.caller)
    ensures Intent(c, Obey(s, d))
  {
  }

  lemma ContinueIntends(c: Config, s: State, rec: Record)
    requires Log(c, s) && OnMessage(c, s.part.proc, Parsed(rec))
    requires InHandle(s.part.proc.pc)
    requires s.part.proc.pc.Emit? ==>
               s.part.alerts != [] && Concerns(s.part.alerts[|s.part.alerts| - 1].alert, s.part.proc.pc.rule, rec.caller)
    ensures var s' := Continue(c, s, rec);
            s'.part.alerts == s.part.alerts && s'.part.hist.flagged == s.part.hist.flagged && Intent(c, s')
  {
    var d := Decide(c, s.store, s.now, s.part.proc, rec);
    DecisionsComeFrom(c, s.store, s.now, s.part.proc, rec);
    if d.Go? && d.pc.Emit? {
      GuardIsQuiet(c, s, d.pc.rule, rec.caller);
    }
    ObeyIntends(c, s, d, rec);
    ObeyShape(s, d);
  }

  lemma FailLogs(c: Config, s: State)
    requires Log(c, s)
    ensures Log(c, Fail(s)) && Intent(c, Fail(s))
  {
  }

  lemma HandleFails(c: Config, s: State, rec: Record, o: Outcome)
    requires !o.Ok? && Log(c, s) && Log(c, Effect(c, s, rec)) && InHandle(s.part.proc.pc)
    ensures Log(c, HandleStep(c, s, rec, o)) && Intent(c, HandleStep(c, s, rec, o))
  {
    FailLogs(c, s);
    FailLogs(c, Effect(c, s, rec));
  }

  lemma HandleLogs(c: Config, s: State, rec: Record, o: Outcome)
    requires Log(c, s) && Intent(c, s) && c.cooldownMs > 0 && InHandle(s.part.proc.pc)
    requires OnMessage(c, s.part.proc, Parsed(rec))
    ensures Log(c, HandleStep(c, s, rec, o)) && Intent(c, HandleStep(c, s, rec, o))
  {
    EffectLogs(c, s, rec);
    if o.Ok? {
      var s' := Effect(c, s, rec);
      assert s'.part.proc == s.part.proc;
      ContinueIntends(c, s', rec);
      ContinueKeepsStore(c, s', rec);
    } else {
      HandleFails(c, s, rec, o);
    }
  }

  lemma ContinueKeepsStore(c: Config, s: State, rec: Record)
    ensures Continue(c, s, rec).store == s.store && Continue(c, s, rec).now == s.now
  {
  }

  lemma AttemptLogs(c: Config, s: State, o: Outcome)
    requires Log(c, s) && Intent(c, s) && c.cooldownMs > 0
    ensures Log(c, Attempt(c, s, o)) && Intent(c, Attempt(c, s, o))
  {
    if InHandle(s.part.proc.pc) && OnRecord(c, s.part.proc) {
      HandleLogs(c, s, c.log[s.part.proc.pos].rec, o);
      assert Attempt(c, s, o) == HandleStep(c, s, c.log[s.part.proc.pos].rec, o);
    } else {
      OutsideHandle(c, s, o);
    }
  }

  lemma StepLogs(c: Config, s: State, e: Event)
    requires Log(c, s) && Intent(c, s) && c.cooldownMs > 0
    ensures Log(c, Step(c, s, e)) && Intent(c, Step(c, s, e))
  {
    var a := Arrive(s, e);
    assert Log(c, a) && Intent(c, a);
    if e.Op? {
      AttemptLogs(c, a, e.outcome);
    }
  }

  lemma {:induction false} RunLogs(c: Config, now: int, events: seq<Event>)
    requires c.cooldownMs > 0
    ensures Log(c, Run(c, Init(now), events)) && Intent(c, Run(c, Init(now), events))
  {
    if events != [] {
      RunLogs(c, now, events[..|events| - 1]);
      StepLogs(c, Run(c, Init(now), events[..|events| - 1]), events[|events| - 1]);
    }
  }

  // ---- when alerts are a cooldown apart -------------------------------------------------------------------

  /** One alert per window: any two alerts of one rule on one subscriber are a cooldown apart. */
  predicate AllSpaced(alerts: seq<Emission>, cooldownMs: int) {
    forall i, j | 0 <= i < j < |alerts| && SameKey(alerts[i].alert, alerts[j].alert) ::
      alerts[i].at + cooldownMs <= alerts[j].at
  }

  /** An event by which an alert gets into the topic. */
  predicate Emits(c: Config, s: State, e: Event) {
    e.Op? && s.part.proc.pc.Emit? && OnRecord(c, s.part.proc) && !e.outcome.FailBefore?
  }

  /** No alert of that rule on that subscriber whose flag never took effect is younger than a cooldown. */
  predicate NoneUnflagged(alerts: seq<Emission>, flagged: map<nat, int>, rule: Rule, caller: string, cooldownMs: int, now: int) {
    forall i | 0 <= i < |alerts| && i !in flagged && Concerns(alerts[i].alert, rule, caller) ::
      alerts[i].at + cooldownMs <= now
  }

  predicate Guarded(c: Config, s: State, e: Event) {
    Emits(c, s, e) ==>
      NoneUnflagged(s.part.alerts, s.part.hist.flagged, s.part.proc.pc.rule, c.log[s.part.proc.pos].rec.caller,
                    c.cooldownMs, s.now + e.dt)
  }

  lemma EffectAlerts(c: Config, s: State, rec: Record)
    ensures Effect(c, s, rec).part.alerts ==
              if s.part.proc.pc.Emit? then s.part.alerts + [Emission(AlertFor(rec, s.part.proc.pc.rule, s.part.proc.score), s.now)]
              else s.part.alerts
  {
  }

  lemma HandleAlerts(c: Config, s: State, rec: Record, o: Outcome)
    requires InHandle(s.part.proc.pc)
    ensures HandleStep(c, s, rec, o).part.alerts == if o.FailBefore? then s.part.alerts else Effect(c, s, rec).part.alerts
  {
    if o.Ok? {
      ObeyShape(Effect(c, s, rec), Decide(c, Effect(c, s, rec).store, s.now, s.part.proc, rec));
    }
  }

  /** What an event does to the alert topic. */
  lemma StepAlerts(c: Config, s: State, e: Event)
    ensures Step(c, s, e).part.alerts ==
              if Emits(c, s, e)
              then s.part.alerts + [Emission(AlertFor(c.log[s.part.proc.pos].rec, s.part.proc.pc.rule, s.part.proc.score), s.now + e.dt)]
              else s.part.alerts
  {
    if e.Op? {
      var a := Arrive(s, e);
      if InHandle(a.part.proc.pc) && OnRecord(c, a.part.proc) {
        HandleAlerts(c, a, c.log[a.part.proc.pos].rec, e.outcome);
        EffectAlerts(c, a, c.log[a.part.proc.pos].rec);
      } else {
        OutsideHandle(c, a, e.outcome);
      }
    }
  }

  lemma SpacedOneMore(alerts: seq<Emission>, last: Emission, cooldownMs: int)
    requires AllSpaced(alerts, cooldownMs)
    ensures AllSpaced(alerts + [last], cooldownMs) <==>
              forall i | 0 <= i < |alerts| && SameKey(alerts[i].alert, last.alert) :: alerts[i].at + cooldownMs <= last.at
  {
    var all := alerts + [last];
    assert all[|alerts|] == last && forall i | 0 <= i < |alerts| :: all[i] == alerts[i];
  }

  lemma QuietLater(c: Config, s: State, e: Event)
    requires Intent(c, s) && Emits(c, s, e)
    ensures Quiet(s.part.alerts, s.part.hist.flagged, s.part.proc.pc.rule, c.log[s.part.proc.pos].rec.caller, c.cooldownMs,
                  s.now + e.dt)
  {
  }

  /** One event keeps the alerts a cooldown apart exactly when it emits none, or none behind an unflagged one. */
  lemma StepIsSpacedIff(c: Config, s: State, e: Event)
    requires Intent(c, s) && AllSpaced(s.part.alerts, c.cooldownMs)
    ensures AllSpaced(Step(c, s, e).part.alerts, c.cooldownMs) <==> Guarded(c, s, e)
  {
    StepAlerts(c, s, e);
    if Emits(c, s, e) {
      QuietLater(c, s, e);
      var last := Emission(AlertFor(c.log[s.part.proc.pos].rec, s.part.proc.pc.rule, s.part.proc.score), s.now + e.dt);
      SpacedOneMore(s.part.alerts, last, c.cooldownMs);
    }
  }

  ghost predicate GuardedRun(c: Config, s: State, events: seq<Event>) {
    events != [] ==>
      var n := |events| - 1;
      GuardedRun(c, s, events[..n]) && Guarded(c, Run(c, s, events[..n]), events[n])
  }

  lemma StillApart(c: Config, s: State, e: Event)
    requires AllSpaced(Step(c, s, e).part.alerts, c.cooldownMs)
    ensures AllSpaced(s.part.alerts, c.cooldownMs)
  {
    StepAlerts(c, s, e);
    assert s.part.alerts <= Step(c, s, e).part.alerts;
  }

  /** Over a whole run: there is one alert per window if and only if no alert was written while an earlier one of that
      rule on that subscriber, younger than a cooldown, was without its flag. */
  lemma {:induction false} OneAlertPerWindowIff(c: Config, now: int, events: seq<Event>)
    requires c.cooldownMs > 0
    ensures AllSpaced(Run(c, Init(now), events).part.alerts, c.cooldownMs) <==> GuardedRun(c, Init(now), events)
  {
    if events != [] {
      var n := |events| - 1;
      var s := Run(c, Init(now), events[..n]);
      OneAlertPerWindowIff(c, now, events[..n]);
      RunLogs(c, now, events[..n]);
      if AllSpaced(s.part.alerts, c.cooldownMs) {
        StepIsSpacedIff(c, s, events[n]);
      } else if AllSpaced(Run(c, Init(now), events).part.alerts, c.cooldownMs) {
        StillApart(c, s, events[n]);
      }
    }
  }

  /** No alert write times out after its effect, no flag write is lost, and no crash comes between the two. */
  predicate Careful(s: State, e: Event) {
    && (s.part.proc.pc.Emit? && e.Op? ==> !e.outcome.FailAfter?)
    && (s.part.proc.pc.SetFlag? ==> !e.Crash? && (e.Op? ==> !e.outcome.FailBefore?))
  }

  ghost predicate CarefulRun(c: Config, s: State, events: seq<Event>) {
    events != [] ==>
      var n := |events| - 1;
      CarefulRun(c, s, events[..n]) && Careful(Run(c, s, events[..n]), events[n])
  }

  /** Every alert has its flag, but for the one whose flag is being written. */
  predicate AllFlagged(c: Config, part: Part) {
    && (part.proc.pc.SetFlag? ==> OnRecord(c, part.proc))
    && forall i | 0 <= i < |part.alerts| ::
         i in part.hist.flagged || (i == |part.alerts| - 1 && part.proc.pc.SetFlag?)
  }

  lemma EffectFlags(c: Config, s: State, rec: Record)
    ensures Effect(c, s, rec).part.hist.flagged.Keys ==
              s.part.hist.flagged.Keys + if s.part.proc.pc.SetFlag? && s.part.alerts != [] then {|s.part.alerts| - 1} else {}
  {
  }

  lemma HandleFlags(c: Config, s: State, rec: Record, o: Outcome)
    requires InHandle(s.part.proc.pc)
    ensures HandleStep(c, s, rec, o).part.hist.flagged
            == if o.FailBefore? then s.part.hist.flagged else Effect(c, s, rec).part.hist.flagged
  {
    if o.Ok? {
      ObeyShape(Effect(c, s, rec), Decide(c, Effect(c, s, rec).store, s.now, s.part.proc, rec));
    }
  }

  lemma ObeyLeadsToFlag(s: State, d: Decision)
    ensures Obey(s, d).part.proc.pc.SetFlag? ==> d.Go? && d.pc == Obey(s, d).part.proc.pc
    ensures d.Go? ==> Obey(s, d).part.proc == s.part.proc.(pc := d.pc)
  {
  }

  lemma OnlyEmitLeadsToFlag(c: Config, s: State, rec: Record, o: Outcome)
    requires InHandle(s.part.proc.pc)
    ensures var proc := HandleStep(c, s, rec, o).part.proc;
            && (proc.pc.SetFlag? ==> s.part.proc.pc.Emit? && o.Ok? && proc.pos == s.part.proc.pos)
            && (s.part.proc.pc.Emit? && o.Ok? ==> proc.pc.SetFlag?)
  {
    if o.Ok? {
      var e := Effect(c, s, rec);
      EffectShape(c, s, rec);
      DecisionsComeFrom(c, e.store, e.now, e.part.proc, rec);
      ObeyLeadsToFlag(e, Decide(c, e.store, e.now, e.part.proc, rec));
    }
  }

  lemma CarefulHandle(c: Config, s: State, o: Outcome)
    requires AllFlagged(c, s.part) && InHandle(s.part.proc.pc) && OnRecord(c, s.part.proc)
    requires s.part.proc.pc.Emit? ==> !o.FailAfter?
    requires s.part.proc.pc.SetFlag? ==> !o.FailBefore?
    ensures AllFlagged(c, HandleStep(c, s, c.log[s.part.proc.pos].rec, o).part)
  {
    var rec := c.log[s.part.proc.pos].rec;
    HandleAlerts(c, s, rec, o);
    EffectAlerts(c, s, rec);
    HandleFlags(c, s, rec, o);
    EffectFlags(c, s, rec);
    OnlyEmitLeadsToFlag(c, s, rec, o);
  }

  lemma CarefulStep(c: Config, s: State, e: Event)
    requires AllFlagged(c, s.part) && Careful(s, e)
    ensures AllFlagged(c, Step(c, s, e).part)
  {
    if e.Op? {
      var a := Arrive(s, e);
      if InHandle(a.part.proc.pc) && OnRecord(c, a.part.proc) {
        CarefulHandle(c, a, e.outcome);
      } else {
        OutsideHandle(c, a, e.outcome);
      }
    }
  }

  lemma CarefulIsGuarded(c: Config, s: State, e: Event)
    requires AllFlagged(c, s.part)
    ensures Guarded(c, s, e)
  {
  }

  lemma {:induction false} CarefulRunIsGuarded(c: Config, now: int, events: seq<Event>)
    requires CarefulRun(c, Init(now), events)
    ensures GuardedRun(c, Init(now), events) && AllFlagged(c, Run(c, Init(now), events).part)
  {
    if events != [] {
      var n := |events| - 1;
      var s := Run(c, Init(now), events[..n]);
      CarefulRunIsGuarded(c, now, events[..n]);
      CarefulIsGuarded(c, s, events[n]);
      CarefulStep(c, s, events[n]);
    }
  }

  /** Hence one alert per window, whatever else goes wrong, unless an alert write times out, a flag write is lost, or a
      crash comes between the two. */
  lemma CarefulRunsAlertOncePerWindow(c: Config, now: int, events: seq<Event>)
    requires c.cooldownMs > 0 && CarefulRun(c, Init(now), events)
    ensures AllSpaced(Run(c, Init(now), events).part.alerts, c.cooldownMs)
  {
    CarefulRunIsGuarded(c, now, events);
    OneAlertPerWindowIff(c, now, events);
  }

  // ---- counting -------------------------------------------------------------------------------------------

  /** The emissions of one rule for one subscriber in the wall-clock interval [lo, hi]. */
  function Within(alerts: seq<Emission>, rule: Rule, caller: string, lo: int, hi: int): set<nat> {
    set i: nat | i < |alerts| && Concerns(alerts[i].alert, rule, caller) && lo <= alerts[i].at <= hi
  }

  lemma Greatest(s: set<nat>) returns (m: nat)
    requires s != {}
    ensures m in s && forall i | i in s :: i <= m
  {
    var k :| k in s;
    m := k;
    if s != {k} {
      var n := Greatest(s - {k});
      m := if n > k then n else k;
      assert forall i | i in s :: i == k || i in s - {k};
    }
  }

  /** The time n events take that are d apart. */
  function Span(n: nat, d: int): int {
    if n <= 1 then 0 else d + Span(n - 1, d)
  }

  lemma {:induction false} SpanIsProduct(n: nat, d: int)
    requires n > 0
    ensures Span(n, d) == (n - 1) * d
  {
    if n > 1 {
      SpanIsProduct(n - 1, d);
      OneMore(n - 2, d);
    }
  }

  lemma OneMore(n: int, d: int)
    ensures (n + 1) * d == n * d + d
  {
  }

  lemma {:induction false} SpacedAreFew(alerts: seq<Emission>, hits: set<nat>, cooldownMs: int, lo: int, hi: int)
    requires cooldownMs > 0 && lo <= hi
    requires forall i | i in hits :: i < |alerts| && lo <= alerts[i].at <= hi
    requires forall i, j | i in hits && j in hits && i < j :: alerts[i].at + cooldownMs <= alerts[j].at
    ensures Span(|hits|, cooldownMs) <= hi - lo
    decreases |hits|
  {
    if hits != {} {
      var m := Greatest(hits);
      var rest := hits - {m};
      if rest != {} {
        forall i | i in rest ensures alerts[i].at <= hi - cooldownMs {
          assert alerts[m].at <= hi;
        }
        var i :| i in rest;
        assert lo <= alerts[i].at;
        SpacedAreFew(alerts, rest, cooldownMs, lo, hi - cooldownMs);
      } else {
        assert hits == {m};
      }
    }
  }

  lemma ProductsCompare(a: int, b: int, d: int)
    requires d > 0
    ensures a <= b ==> a * d <= b * d
  {
  }

  lemma QuotientBound(n: int, d: int, x: int)
    requires d > 0 && n * d <= x
    ensures n <= x / d
  {
    ProductsCompare(x / d + 1, n, d);
  }

  lemma SpanBound(n: nat, d: int, x: int)
    requires d > 0 && 0 <= x && Span(n, d) <= x
    ensures n <= x / d + 1
  {
    if n > 0 {
      SpanIsProduct(n, d);
      QuotientBound(n - 1, d, x);
    }
  }

  lemma SplitCount(hits: set<nat>, flagged: set<nat>)
    ensures |hits| == |hits * flagged| + |hits - flagged|
  {
    assert hits == hits * flagged + (hits - flagged);
  }

  /** In any interval of length L the alerts of one rule for one subscriber number at most L / cooldown + 1, plus the
      emissions of that interval whose cooldown flag never took effect: the write failed or was cut off. */
  lemma AlertsAreRateLimited(c: Config, now: int, events: seq<Event>, rule: Rule, caller: string, lo: int, hi: int)
    requires c.cooldownMs > 0 && lo <= hi
    ensures var part := Run(c, Init(now), events).part;
            var hits := Within(part.alerts, rule, caller, lo, hi);
            |hits| <= (hi - lo) / c.cooldownMs + 1 + |hits - part.hist.flagged.Keys|
  {
    RunLogs(c, now, events);
    FlaggedAreFew(c, Run(c, Init(now), events), rule, caller, lo, hi);
  }

  lemma KeptAreSpaced(alerts: seq<Emission>, flagged: map<nat, int>, kept: set<nat>, rule: Rule, caller: string, cooldownMs: int)
    requires Spaced(alerts, flagged, cooldownMs)
    requires forall i | i in kept :: i in flagged && i < |alerts| && Concerns(alerts[i].alert, rule, caller)
    ensures forall i, j | i in kept && j in kept && i < j :: alerts[i].at + cooldownMs <= alerts[j].at
  {
    forall i, j | i in kept && j in kept && i < j ensures alerts[i].at + cooldownMs <= alerts[j].at {
      assert SameKey(alerts[i].alert, alerts[j].alert);
    }
  }

  lemma KeptAreFew(alerts: seq<Emission>, flagged: map<nat, int>, kept: set<nat>, rule: Rule, caller: string,
                   cooldownMs: int, lo: int, hi: int)
    requires Spaced(alerts, flagged, cooldownMs) && cooldownMs > 0 && lo <= hi
    requires forall i | i in kept :: i in flagged && i < |alerts| && Concerns(alerts[i].alert, rule, caller)
    requires forall i | i in kept :: lo <= alerts[i].at <= hi
    ensures |kept| <= (hi - lo) / cooldownMs + 1
  {
    KeptAreSpaced(alerts, flagged, kept, rule, caller, cooldownMs);
    SpacedAreFew(alerts, kept, cooldownMs, lo, hi);
    SpanBound(|kept|, cooldownMs, hi - lo);
  }

  lemma FlaggedAreFew(c: Config, s: State, rule: Rule, caller: string, lo: int, hi: int)
    requires Log(c, s) && c.cooldownMs > 0 && lo <= hi
    ensures var hits := Within(s.part.alerts, rule, caller, lo, hi);
            |hits| <= (hi - lo) / c.cooldownMs + 1 + |hits - s.part.hist.flagged.Keys|
  {
    var hits := Within(s.part.alerts, rule, caller, lo, hi);
    KeptAreFew(s.part.alerts, s.part.hist.flagged, hits * s.part.hist.flagged.Keys, rule, caller, c.cooldownMs, lo, hi);
    SplitCount(hits, s.part.hist.flagged.Keys);
  }
}
