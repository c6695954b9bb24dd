/** All runs without faults in which each record is handled at the moment it starts: they do exactly what Serve does,
    and they are in time in the sense of Punctual. */
module OnTime {
  import opened Cdr
  import opened Pipeline
  import opened Punctual
  import opened CleanRun

  /** The event is no fault, and an operation on a record is attempted at the record's time. */
  predicate OnTime(c: Config, s: State, e: Event) {
    match e
    case Wait(_) => true
    case Crash(_) => false
    case Op(dt, cancel, o) =>
      && o.Ok? && !cancel
      && (InHandle(s.part.proc.pc) && OnRecord(c, s.part.proc) ==> s.now + dt == c.log[s.part.proc.pos].rec.Ms())
  }

  ghost predicate OnTimeRun(c: Config, s: State, events: seq<Event>) {
    events != [] ==>
      var n := |events| - 1;
      OnTimeRun(c, s, events[..n]) && OnTime(c, Run(c, s, events[..n]), events[n])
  }

  /** Nothing has gone wrong in this session. */
  predicate Going(s: State) {
    s.part.proc.holes == {} && !s.part.proc.cancelled && !s.part.proc.pc.Backoff? && !s.part.proc.pc.DeadLetter?
  }

  // ---- smooth steps ---------------------------------------------------------------------------------------

  lemma SmoothHandle(c: Config, s: State, rec: Record)
    requires Going(s) && InHandle(s.part.proc.pc)
    ensures var s' := Continue(c, Effect(c, s, rec), rec);
            Going(s') && s'.now == s.now && s'.part.proc.pos == s.part.proc.pos && s'.part.proc.pc != Fetch
  {
    EffectShape(c, s, rec);
    ContinueShape(c, Effect(c, s, rec), rec);
  }

  lemma SmoothStep(c: Config, s: State)
    requires Going(s)
    ensures var s' := Step(c, s, SMOOTH);
            && Going(s') && s'.now == s.now
            && (s'.part.proc.pos == s.part.proc.pos || (s'.part.proc.pos == s.part.proc.pos + 1 && s.part.proc.pc == Commit))
            && (s.part.proc.pc != Fetch && s'.part.proc.pos == s.part.proc.pos ==> s'.part.proc.pc != Fetch)
  {
    assert Arrive(s, SMOOTH) == s;
    if InHandle(s.part.proc.pc) && OnRecord(c, s.part.proc) {
      SmoothHandle(c, s, c.log[s.part.proc.pos].rec);
    }
  }

  lemma SmoothPart(events: seq<Event>, i: nat, j: nat)
    requires Smooth(events) && i <= j <= |events|
    ensures Smooth(events[i..j]) && (i < |events| ==> events[i] == SMOOTH)
  {
    if i < |events| {
      assert events[i] in events;
    }
    forall e | e in events[i..j] ensures e == SMOOTH {
      assert e in events;
    }
  }

  /** The fetch position is past n, or n has been fetched. */
  predicate Past(s: State, n: nat) {
    s.part.proc.pos > n || (s.part.proc.pos == n && s.part.proc.pc != Fetch)
  }

  predicate Moved(s: State, s': State, n: nat) {
    Going(s') && s'.now == s.now && s'.part.proc.pos >= s.part.proc.pos && (Past(s, n) ==> Past(s', n))
  }

  lemma MovedOn(c: Config, s: State, p: State, n: nat)
    requires Moved(s, p, n)
    ensures Moved(s, Step(c, p, SMOOTH), n)
  {
    SmoothStep(c, p);
  }

  lemma {:induction false} SmoothRun(c: Config, s: State, events: seq<Event>, n: nat)
    requires Going(s) && Smooth(events)
    ensures Moved(s, Run(c, s, events), n)
  {
    if events != [] {
      var k := |events| - 1;
      SmoothPart(events, 0, k);
      SmoothPart(events, k, k);
      assert events[0..k] == events[..k];
      SmoothRun(c, s, events[..k], n);
      MovedOn(c, s, Run(c, s, events[..k]), n);
    }
  }

  // ---- on-time runs do what Serve does --------------------------------------------------------------------

  /** Between two records, with all before it served. */
  ghost predicate Between(c: Config, recs: seq<Record>, s: State) {
    && s.part.proc.pc == Fetch && Going(s)
    && s.part.committed == s.part.proc.pos <= |recs|
    && s.store == Serve(c, recs[..s.part.proc.pos]).store
    && s.part.alerts == Serve(c, recs[..s.part.proc.pos]).alerts
  }

  /** About to commit record n, with it and all before it served. */
  ghost predicate Handled(c: Config, recs: seq<Record>, s: State, n: nat)
    requires n < |recs|
  {
    && s.part.proc.pc == Commit && s.part.proc.pos == n
    && s.store == Serve(c, recs[..n + 1]).store
    && s.part.alerts == Serve(c, recs[..n + 1]).alerts
  }

  /** The same moment, with the clock at the given time. */
  function Timed(s: State, now: int): State {
    s.(now := now)
  }

  /** Inside record n: with the clock at the record's time, `more` smooth steps lead to its end. */
  ghost predicate Midway(c: Config, recs: seq<Record>, s: State, more: seq<Event>) {
    var n := s.part.proc.pos;
    && n < |recs| && Going(s) && Smooth(more) && s.part.proc.pc != Fetch
    && Handled(c, recs, Run(c, Timed(s, recs[n].Ms()), more), n)
  }

  ghost predicate Serving(c: Config, recs: seq<Record>, s: State, more: seq<Event>) {
    Between(c, recs, s) || Midway(c, recs, s, more)
  }

  /** An operation on a record in time is a smooth step with the clock at the record's time. */
  lemma OperationIsSmooth(c: Config, s: State, e: Event)
    requires e.Op? && OnTime(c, s, e) && InHandle(s.part.proc.pc) && OnRecord(c, s.part.proc)
    ensures var z := Timed(s, c.log[s.part.proc.pos].rec.Ms());
            Step(c, s, e) == Step(c, z, SMOOTH) && Step(c, s, e).now == z.now
  {
    var z := Timed(s, c.log[s.part.proc.pos].rec.Ms());
    assert Arrive(s, e) == z && Arrive(z, SMOOTH) == z;
    HandleTime(c, z, c.log[s.part.proc.pos].rec);
  }

  lemma HandleTime(c: Config, z: State, rec: Record)
    requires InHandle(z.part.proc.pc)
    ensures HandleStep(c, z, rec, Ok).now == z.now
  {
    ContinueShape(c, Effect(c, z, rec), rec);
  }

  lemma CommitAdvances(c: Config, s: State, e: Event)
    requires e.Op? && OnTime(c, s, e) && Going(s) && s.part.proc.pc == Commit
    ensures var s' := Step(c, s, e);
            && s'.part.proc.pc == Fetch && Going(s') && s'.part.committed == s'.part.proc.pos == s.part.proc.pos + 1
            && s'.store == s.store && s'.part.alerts == s.part.alerts
  {
    assert Step(c, s, e) == CommitStep(Arrive(s, e), Ok);
  }

  lemma CommitsInTime(c: Config, recs: seq<Record>, s: State, e: Event)
    requires e.Op? && OnTime(c, s, e) && Going(s) && s.part.proc.pos < |recs| && Handled(c, recs, s, s.part.proc.pos)
    ensures Between(c, recs, Step(c, s, e))
  {
    CommitAdvances(c, s, e);
  }

  /** A run from a commit leads past the record. */
  lemma StillBefore(c: Config, s: State, more: seq<Event>)
    requires Going(s) && Smooth(more) && more != [] && s.part.proc.pc == Commit
    ensures Run(c, s, more).part.proc.pos > s.part.proc.pos
  {
    SmoothPart(more, 0, |more|);
    SmoothPart(more, 1, |more|);
    assert more == [SMOOTH] + more[1..] && more[1..|more|] == more[1..];
    RunFirst(c, s, SMOOTH, more[1..]);
    CommitMoves(c, s);
    SmoothStep(c, s);
    SmoothRun(c, Step(c, s, SMOOTH), more[1..], 0);
  }

  lemma MidwayMoves(c: Config, recs: seq<Record>, s: State, e: Event, more: seq<Event>) returns (more': seq<Event>)
    requires c.log == MessagesOf(recs) && Midway(c, recs, s, more) && e.Op? && OnTime(c, s, e)
    ensures Serving(c, recs, Step(c, s, e), more')
  {
    var n := s.part.proc.pos;
    var z := Timed(s, recs[n].Ms());
    assert c.log[n] == Parsed(recs[n]) && Run(c, z, []) == z;
    if s.part.proc.pc == Commit {
      if more != [] {
        StillBefore(c, z, more);
      }
      CommitsInTime(c, recs, s, e);
      more' := [];
    } else {
      OperationIsSmooth(c, s, e);
      more' := FirstOfMore(c, z, more);
      HandleGoesOn(c, recs, s, z, Step(c, z, SMOOTH), more');
    }
  }

  lemma FirstOfMore(c: Config, z: State, more: seq<Event>) returns (more': seq<Event>)
    requires Smooth(more) && more != []
    ensures Smooth(more') && Run(c, z, more) == Run(c, Step(c, z, SMOOTH), more')
  {
    SmoothPart(more, 0, |more|);
    SmoothPart(more, 1, |more|);
    more' := more[1..];
    assert more == [SMOOTH] + more' && more[1..|more|] == more';
    RunFirst(c, z, SMOOTH, more');
  }

  lemma HandleGoesOn(c: Config, recs: seq<Record>, s: State, z: State, s': State, more: seq<Event>)
    requires c.log == MessagesOf(recs) && s.part.proc.pos < |recs| && Going(s) && Smooth(more)
    requires InHandle(s.part.proc.pc) && z == Timed(s, recs[s.part.proc.pos].Ms()) && s' == Step(c, z, SMOOTH)
    requires Handled(c, recs, Run(c, s', more), s.part.proc.pos)
    ensures Midway(c, recs, s', more)
  {
    SmoothStep(c, z);
    assert Timed(s', recs[s.part.proc.pos].Ms()) == s';
  }

  lemma FetchesInTime(c: Config, s: State, e: Event)
    requires e.Op? && OnTime(c, s, e) && s.part.proc.pc == Fetch
    ensures OnRecord(c, s.part.proc) ==>
              Step(c, s, e) == s.(now := s.now + e.dt,
                                  part := s.part.(proc := s.part.proc.(pc := SeenCheck, attempt := 1)))
    ensures s.part.proc.pos >= |c.log| ==> Step(c, s, e) == s.(now := s.now + e.dt)
  {
  }

  lemma ServeNext(c: Config, recs: seq<Record>, n: nat)
    requires n < |recs|
    ensures var before := Serve(c, recs[..n]);
            var r := CleanHandle(c, before.store, recs[n].Ms(), recs[n]);
            Serve(c, recs[..n + 1]) == Served(r.store, before.alerts + Stamped(r.alerts, recs[n].Ms()))
  {
    ServeOneMore(c, recs[..n], recs[n]);
    assert recs[..n + 1] == recs[..n] + [recs[n]];
  }

  /** From Progressed to Handled, whatever the record did. */
  lemma ProgressedIsHandled(z: State, z': State, n: nat, r: Result, before: Served, after: Served)
    requires z.store == before.store && z.part.alerts == before.alerts && z.part.proc.pos == n
    requires Progressed(z, z', Commit, r.store, r.alerts)
    requires after == Served(r.store, before.alerts + Stamped(r.alerts, z.now))
    ensures z'.part.proc.pc == Commit && z'.part.proc.pos == n && z'.store == after.store && z'.part.alerts == after.alerts
  {
  }

  lemma FetchedIsMidway(c: Config, recs: seq<Record>, s: State) returns (more: seq<Event>)
    requires c.log == MessagesOf(recs) && s.part.proc.pos < |recs| && s.part.proc.pc == SeenCheck && Going(s)
    requires s.store == Serve(c, recs[..s.part.proc.pos]).store && s.part.alerts == Serve(c, recs[..s.part.proc.pos]).alerts
    ensures Midway(c, recs, s, more)
  {
    var n := s.part.proc.pos;
    assert c.log[n] == Parsed(recs[n]);
    var z := Timed(s, recs[n].Ms());
    more := HandleRuns(c, z, recs[n]);
    ServeNext(c, recs, n);
    ProgressedIsHandled(z, Run(c, z, more), n, CleanHandle(c, z.store, z.now, recs[n]),
                        Serve(c, recs[..n]), Serve(c, recs[..n + 1]));
  }

  lemma FetchMovesOn(c: Config, recs: seq<Record>, s: State, e: Event) returns (more: seq<Event>)
    requires c.log == MessagesOf(recs) && Between(c, recs, s) && e.Op? && OnTime(c, s, e)
    ensures Serving(c, recs, Step(c, s, e), more)
  {
    FetchesInTime(c, s, e);
    more := [];
    if s.part.proc.pos < |recs| {
      more := FetchedIsMidway(c, recs, Step(c, s, e));
    }
  }

  lemma WaitServes(c: Config, recs: seq<Record>, s: State, dt: nat, more: seq<Event>)
    requires Serving(c, recs, s, more)
    ensures Serving(c, recs, Step(c, s, Wait(dt)), more)
  {
    var s' := Step(c, s, Wait(dt));
    assert s' == Timed(s, s.now + dt);
    if s.part.proc.pos < |recs| {
      assert Timed(s', recs[s.part.proc.pos].Ms()) == Timed(s, recs[s.part.proc.pos].Ms());
    }
  }

  lemma {:induction false} RunServes(c: Config, recs: seq<Record>, now: int, events: seq<Event>)
      returns (more: seq<Event>)
    requires c.log == MessagesOf(recs) && OnTimeRun(c, Init(now), events)
    ensures Serving(c, recs, Run(c, Init(now), events), more)
  {
    if events == [] {
      more := [];
    } else {
      var init, e := events[..|events| - 1], events[|events| - 1];
      more := RunServes(c, recs, now, init);
      var s := Run(c, Init(now), init);
      if e.Wait? {
        WaitServes(c, recs, s, e.dt, more);
      } else if s.part.proc.pc == Fetch {
        more := FetchMovesOn(c, recs, s, e);
      } else {
        more := MidwayMoves(c, recs, s, e, more);
      }
    }
  }

  /** Every on-time run, whenever it is between two records, has committed, stored and emitted exactly what Serve gives
      for the records so far. */
  lemma OnTimeRunServes(c: Config, recs: seq<Record>, now: int, events: seq<Event>)
    requires c.log == MessagesOf(recs) && OnTimeRun(c, Init(now), events)
    requires Run(c, Init(now), events).part.proc.pc == Fetch
    ensures Between(c, recs, Run(c, Init(now), events))
  {
    var more := RunServes(c, recs, now, events);
  }

  // ---- on-time runs are in time ---------------------------------------------------------------------------

  lemma OnTimeStep(c: Config, s: State, e: Event)
    requires Going(s) && OnTime(c, s, e)
    ensures Going(Step(c, s, e))
  {
    if e.Op? {
      var z := Timed(s, s.now + e.dt);
      assert Arrive(s, e) == z && Arrive(z, SMOOTH) == z;
      assert Step(c, s, e) == Step(c, z, SMOOTH);
      SmoothStep(c, z);
    }
  }

  lemma OnTimeIsPrompt(c: Config, s: State, e: Event)
    requires Going(s) && OnTime(c, s, e)
    ensures Prompt(c, s, e, 0, 0)
  {
    if e.Op? {
      assert Arrive(s, e).now == s.now + e.dt;
    }
  }

  lemma {:induction false} OnTimeRunIsPrompt(c: Config, s: State, events: seq<Event>)
    requires Going(s) && OnTimeRun(c, s, events)
    ensures Going(Run(c, s, events)) && PromptRun(c, s, events, 0, 0)
  {
    if events != [] {
      var n := |events| - 1;
      OnTimeRunIsPrompt(c, s, events[..n]);
      OnTimeStep(c, Run(c, s, events[..n]), events[n]);
      OnTimeIsPrompt(c, Run(c, s, events[..n]), events[n]);
    }
  }

  // ---- there is one for every log in event-time order -----------------------------------------------------

  /** The run ends with the next message about to be fetched. */
  predicate Arrives(s: State, s': State) {
    s'.part.proc.pc == Fetch && s'.part.proc.pos == s.part.proc.pos + 1
  }

  lemma NotPastYet(s: State, p: State, s': State)
    requires Arrives(s, s') && p.part.proc.pos >= s.part.proc.pos
    requires Moved(p, s', s.part.proc.pos + 1)
    ensures p.part.proc.pos == s.part.proc.pos || p.part.proc.pc == Fetch
  {
  }

  /** Until the run arrives at the next message it is on this one. */
  lemma PrefixStaysOnRecord(c: Config, s: State, events: seq<Event>, m: nat)
    requires Going(s) && Smooth(events) && m <= |events| && Arrives(s, Run(c, s, events))
    ensures var p := Run(c, s, events[..m]);
            Going(p) && p.now == s.now && (p.part.proc.pos == s.part.proc.pos || p.part.proc.pc == Fetch)
  {
    var n, first, second := s.part.proc.pos, events[..m], events[m..];
    SmoothPart(events, 0, m);
    SmoothPart(events, m, |events|);
    assert events[0..m] == first && events[m..|events|] == second && events == first + second;
    SmoothRun(c, s, first, n);
    RunConcat(c, s, first, second);
    SmoothRun(c, Run(c, s, first), second, n + 1);
    NotPastYet(s, Run(c, s, first), Run(c, s, events));
  }

  lemma OnTimeOneMore(c: Config, s: State, events: seq<Event>, e: Event)
    requires OnTimeRun(c, s, events) && OnTime(c, Run(c, s, events), e)
    ensures OnTimeRun(c, s, events + [e])
  {
    assert (events + [e])[..|events|] == events;
  }

  lemma {:induction false} SmoothIsOnTime(c: Config, s: State, rec: Record, events: seq<Event>, m: nat)
    requires Going(s) && OnMessage(c, s.part.proc, Parsed(rec)) && s.now == rec.Ms() && Smooth(events) && m <= |events|
    requires Arrives(s, Run(c, s, events))
    ensures OnTimeRun(c, s, events[..m])
  {
    if m > 0 {
      SmoothIsOnTime(c, s, rec, events, m - 1);
      PrefixStaysOnRecord(c, s, events, m - 1);
      SmoothPart(events, m - 1, m);
      OnTimeOneMore(c, s, events[..m - 1], SMOOTH);
      assert events[..m] == events[..m - 1] + [SMOOTH];
    }
  }

  lemma {:induction false} OnTimeIsThroughout(c: Config, s: State, events: seq<Event>)
    ensures OnTimeRun(c, s, events) <==>
              Histories.Throughout(Stepper(c), (s': State, e: Event) => OnTime(c, s', e), s, events)
  {
    if events != [] {
      OnTimeIsThroughout(c, s, events[..|events| - 1]);
      RunIsFold(c, s, events[..|events| - 1]);
    }
  }

  lemma OnTimeConcat(c: Config, s: State, first: seq<Event>, second: seq<Event>)
    requires OnTimeRun(c, s, first) && OnTimeRun(c, Run(c, s, first), second)
    ensures OnTimeRun(c, s, first + second)
  {
    OnTimeIsThroughout(c, s, first);
    OnTimeIsThroughout(c, Run(c, s, first), second);
    OnTimeIsThroughout(c, s, first + second);
    RunIsFold(c, s, first);
    Histories.ThroughoutConcat(Stepper(c), (s': State, e: Event) => OnTime(c, s', e), s, first, second);
  }

  /** The clock is set to the record's time, and the record goes through on time. */
  lemma RecordOnTime(c: Config, s: State, rec: Record) returns (events: seq<Event>)
    requires Going(s) && s.part.proc.pc == Fetch && OnMessage(c, s.part.proc, Parsed(rec)) && s.now <= rec.Ms()
    ensures OnTimeRun(c, s, events)
    ensures var s' := Run(c, s, events); Arrives(s, s') && Going(s') && s'.now == rec.Ms()
  {
    var wait := Wait(rec.Ms() - s.now);
    var s1 := Timed(s, rec.Ms());
    assert Step(c, s, wait) == s1;
    var more := RecordRuns(c, s1, rec);
    SmoothRun(c, s1, more, 0);
    assert more[..|more|] == more;
    SmoothIsOnTime(c, s1, rec, more, |more|);
    RunFirst(c, s, wait, more);
    RunFirst(c, s, wait, []);
    assert [wait] + [] == [wait] && [wait][..0] == [];
    OnTimeConcat(c, s, [wait], more);
    events := [wait] + more;
  }

  /** Event times do not decrease, and the clock starts no later than the first of them. */
  predicate InTurn(recs: seq<Record>, now: int) {
    && (recs != [] ==> now <= recs[0].Ms())
    && forall i, j | 0 <= i < j < |recs| :: recs[i].Ms() <= recs[j].Ms()
  }

  lemma {:induction false} AnOnTimeRunExists(c: Config, recs: seq<Record>, now: int, n: nat) returns (events: seq<Event>)
    requires c.log == MessagesOf(recs) && InTurn(recs, now) && n <= |recs|
    ensures OnTimeRun(c, Init(now), events)
    ensures var s := Run(c, Init(now), events);
            && s.part.proc.pc == Fetch && s.part.proc.pos == n && Going(s)
            && s.now == if n == 0 then now else recs[n - 1].Ms()
  {
    if n == 0 {
      events := [];
    } else {
      var before := AnOnTimeRunExists(c, recs, now, n - 1);
      var s := Run(c, Init(now), before);
      assert c.log[n - 1] == Parsed(recs[n - 1]);
      var more := RecordOnTime(c, s, recs[n - 1]);
      RunConcat(c, Init(now), before, more);
      OnTimeConcat(c, Init(now), before, more);
      events := before + more;
    }
  }
}
