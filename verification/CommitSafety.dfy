/** When a committed offset really means that everything below it has been dealt with. The loop fetches on after
    runWithRetry returned false, and Kafka's commits are cumulative, so the next commit covers the message it left. */
module CommitSafety {
  import opened Cdr
  import opened Pipeline
  import CleanRun

  /** handle returned nil for the message, or it was written to the dead-letter topic. */
  predicate Resolved(part: Part, i: nat) {
    i in part.hist.handled || i in part.hist.dead
  }

  predicate Safe(part: Part) {
    forall i | 0 <= i < part.committed :: Resolved(part, i)
  }

  /** No message this session gave up on is still unresolved. The process cannot always tell: a dead-letter write that
      failed may have taken effect, and the message may have been resolved before the last restart. */
  predicate NoOpenHole(part: Part) {
    forall i | i in part.proc.holes :: Resolved(part, i)
  }

  /** An event by which the broker accepts a commit. */
  predicate Commits(s: State, e: Event) {
    e.Op? && s.part.proc.pc.Commit? && !e.outcome.FailBefore?
  }

  ghost predicate GuardedRun(c: Config, s: State, events: seq<Event>) {
    events != [] ==>
      var n := |events| - 1;
      && GuardedRun(c, s, events[..n])
      && (Commits(Run(c, s, events[..n]), events[n]) ==> NoOpenHole(Run(c, s, events[..n]).part))
  }

  /** Between the committed offset and the fetch position, everything is resolved or one of this session's holes. */
  predicate Accounted(part: Part) {
    && part.committed <= part.proc.pos
    && (forall i | i in part.proc.holes :: i < part.proc.pos)
    && (forall i | part.committed <= i < part.proc.pos :: Resolved(part, i) || i in part.proc.holes)
    && (part.proc.pc.Commit? ==> Resolved(part, part.proc.pos))
  }

  lemma HandleAccounts(c: Config, s: State, rec: Record, o: Outcome)
    requires Accounted(s.part) && InHandle(s.part.proc.pc)
    ensures var s' := HandleStep(c, s, rec, o);
            && Accounted(s'.part) && s'.part.committed == s.part.committed
            && s.part.hist.handled <= s'.part.hist.handled && s.part.hist.dead <= s'.part.hist.dead
  {
    HandleShape(c, s, rec, o);
  }

  lemma AroundAccounts(c: Config, s: State, o: Outcome)
    requires Accounted(s.part)
    ensures s.part.proc.pc.Fetch? ==> Keeps(s.part, FetchStep(c, s, o).part, s.part.committed)
    ensures s.part.proc.pc.Backoff? ==> Keeps(s.part, BackoffStep(c, s, o).part, s.part.committed)
    ensures s.part.proc.pc.DeadLetter? && s.part.proc.pos < |c.log| ==>
              Keeps(s.part, DeadLetterStep(s, c.log[s.part.proc.pos], o).part, s.part.committed)
  {
  }

  /** The bookkeeping stays right, and nothing that was resolved becomes unresolved. */
  predicate Keeps(part: Part, part': Part, committed: nat) {
    && Accounted(part') && part'.committed == committed
    && part.hist.handled <= part'.hist.handled && part.hist.dead <= part'.hist.dead
  }

  lemma CommitAccounts(s: State, o: Outcome)
    requires Accounted(s.part) && s.part.proc.pc.Commit?
    ensures var part := CommitStep(s, o).part;
            Keeps(s.part, part, if o.FailBefore? then s.part.committed else s.part.proc.pos + 1) && part.hist == s.part.hist
  {
  }

  lemma AttemptAccounts(c: Config, s: State, o: Outcome)
    requires Accounted(s.part)
    ensures var part := Attempt(c, s, o).part;
            && Keeps(s.part, part, if s.part.proc.pc.Commit? && !o.FailBefore? then s.part.proc.pos + 1 else s.part.committed)
            && (s.part.proc.pc.Commit? ==> part.hist == s.part.hist)
  {
    if InHandle(s.part.proc.pc) {
      if OnRecord(c, s.part.proc) {
        HandleAccounts(c, s, c.log[s.part.proc.pos].rec, o);
        assert Attempt(c, s, o) == HandleStep(c, s, c.log[s.part.proc.pos].rec, o);
      }
    } else if s.part.proc.pc.Commit? {
      CommitAccounts(s, o);
    } else {
      AroundAccounts(c, s, o);
    }
  }

  lemma StepAccounts(c: Config, s: State, e: Event)
    requires Accounted(s.part)
    ensures var part := Step(c, s, e).part;
            && Accounted(part)
            && s.part.hist.handled <= part.hist.handled && s.part.hist.dead <= part.hist.dead
            && part.committed == (if Commits(s, e) then s.part.proc.pos + 1 else s.part.committed)
            && (Commits(s, e) ==> part.hist.handled == s.part.hist.handled && part.hist.dead == s.part.hist.dead)
  {
    if e.Op? {
      AttemptAccounts(c, Arrive(s, e), e.outcome);
    }
  }

  lemma {:induction false} RunAccounts(c: Config, now: int, events: seq<Event>)
    ensures Accounted(Run(c, Init(now), events).part)
  {
    if events != [] {
      var n := |events| - 1;
      RunAccounts(c, now, events[..n]);
      StepAccounts(c, Run(c, Init(now), events[..n]), events[n]);
    }
  }

  /** One accepted commit keeps safety exactly when no open hole lies behind it; every other event keeps it anyway. */
  lemma StepIsSafeIff(c: Config, s: State, e: Event)
    requires Accounted(s.part) && Safe(s.part)
    ensures Safe(Step(c, s, e).part) <==> (Commits(s, e) ==> NoOpenHole(s.part))
  {
    StepAccounts(c, s, e);
    var part := Step(c, s, e).part;
    if Commits(s, e) {
      if !NoOpenHole(s.part) {
        var i :| i in s.part.proc.holes && !Resolved(s.part, i);
        assert !Resolved(part, i) && i < part.committed;
      } else {
        forall i | 0 <= i < part.committed ensures Resolved(part, i) {
          assert Resolved(s.part, i);
        }
      }
    } else {
      forall i | 0 <= i < part.committed ensures Resolved(part, i) {
        assert Resolved(s.part, i);
      }
    }
  }

  /** The committed offset is safe at the end and at every moment before. */
  ghost predicate AlwaysSafe(c: Config, s: State, events: seq<Event>) {
    Safe(Run(c, s, events).part) && (events != [] ==> AlwaysSafe(c, s, events[..|events| - 1]))
  }

  /** Over a whole run: the committed offset is safe at every moment exactly when every accepted commit was guarded. */
  lemma {:induction false} AlwaysSafeIffGuarded(c: Config, now: int, events: seq<Event>)
    ensures AlwaysSafe(c, Init(now), events) <==> GuardedRun(c, Init(now), events)
  {
    if events != [] {
      var n := |events| - 1;
      var s := Run(c, Init(now), events[..n]);
      AlwaysSafeIffGuarded(c, now, events[..n]);
      RunAccounts(c, now, events[..n]);
      if Safe(s.part) {
        StepIsSafeIff(c, s, events[n]);
      }
    }
  }

  /** What the loop could check before it commits: it has given up on nothing since it started. */
  predicate Checked(s: State, e: Event) {
    Commits(s, e) ==> s.part.proc.holes == {}
  }

  ghost predicate CheckedRun(c: Config, s: State, events: seq<Event>) {
    events != [] ==>
      var n := |events| - 1;
      CheckedRun(c, s, events[..n]) && Checked(Run(c, s, events[..n]), events[n])
  }

  lemma {:induction false} CheckedIsGuarded(c: Config, s: State, events: seq<Event>)
    requires CheckedRun(c, s, events)
    ensures GuardedRun(c, s, events)
  {
    if events != [] {
      CheckedIsGuarded(c, s, events[..|events| - 1]);
    }
  }

  /** A loop that commits only while it has given up on nothing is safe at every moment of every run. */
  lemma CheckedRunIsSafe(c: Config, now: int, events: seq<Event>)
    requires CheckedRun(c, Init(now), events)
    ensures AlwaysSafe(c, Init(now), events)
  {
    CheckedIsGuarded(c, Init(now), events);
    AlwaysSafeIffGuarded(c, now, events);
  }

  /** The process does not restart, and no dead-letter write that fails takes effect. */
  predicate Plain(s: State, e: Event) {
    !e.Crash? && (e.Op? && s.part.proc.pc.DeadLetter? ==> !e.outcome.FailAfter?)
  }

  ghost predicate PlainRun(c: Config, s: State, events: seq<Event>) {
    events != [] ==>
      var n := |events| - 1;
      PlainRun(c, s, events[..n]) && Plain(Run(c, s, events[..n]), events[n])
  }

  /** The position is behind the fetch position, or its commit is next. */
  predicate Behind(part: Part, i: nat) {
    i < part.proc.pos || (i == part.proc.pos && part.proc.pc.Commit?)
  }

  /** What was given up on is unresolved, and nothing at or past the fetch position is resolved yet. */
  predicate Open(part: Part) {
    && (forall i | i in part.proc.holes :: i < part.proc.pos && !Resolved(part, i))
    && (forall i | i in part.hist.handled :: Behind(part, i))
    && (forall i | i in part.hist.dead :: Behind(part, i))
  }

  lemma HandleOpen(c: Config, s: State, rec: Record, o: Outcome)
    requires Open(s.part) && InHandle(s.part.proc.pc)
    ensures Open(HandleStep(c, s, rec, o).part)
  {
    HandleShape(c, s, rec, o);
  }

  lemma GiveUpOpen(s: State)
    requires Open(s.part) && !s.part.proc.pc.Commit?
    ensures Open(GiveUp(s).part)
  {
  }

  lemma AroundOpen(c: Config, s: State, o: Outcome)
    requires Open(s.part)
    ensures s.part.proc.pc.Fetch? ==> Open(FetchStep(c, s, o).part)
    ensures s.part.proc.pc.Backoff? ==> Open(BackoffStep(c, s, o).part)
    ensures s.part.proc.pc.Commit? ==> Open(CommitStep(s, o).part)
  {
    if !s.part.proc.pc.Commit? {
      GiveUpOpen(s);
    }
  }

  lemma BurialOpen(s: State, message: Message, o: Outcome)
    requires Open(s.part) && s.part.proc.pc.DeadLetter? && !o.FailAfter?
    ensures Open(DeadLetterStep(s, message, o).part)
  {
    GiveUpOpen(s);
  }

  lemma PlainStepKeepsOpen(c: Config, s: State, e: Event)
    requires Open(s.part) && Plain(s, e)
    ensures Open(Step(c, s, e).part)
  {
    if e.Op? {
      var a := Arrive(s, e);
      if InHandle(a.part.proc.pc) && OnRecord(c, a.part.proc) {
        HandleOpen(c, a, c.log[a.part.proc.pos].rec, e.outcome);
      } else {
        AroundOpen(c, a, e.outcome);
        if a.part.proc.pc.DeadLetter? && a.part.proc.pos < |c.log| {
          BurialOpen(a, c.log[a.part.proc.pos], e.outcome);
        }
      }
    }
  }

  lemma OpenGuard(part: Part)
    requires Open(part)
    ensures NoOpenHole(part) <==> part.proc.holes == {}
  {
  }

  lemma {:induction false} PlainGuardedIsChecked(c: Config, now: int, events: seq<Event>)
    requires PlainRun(c, Init(now), events)
    ensures Open(Run(c, Init(now), events).part)
    ensures GuardedRun(c, Init(now), events) <==> CheckedRun(c, Init(now), events)
  {
    if events != [] {
      var n := |events| - 1;
      var s := Run(c, Init(now), events[..n]);
      PlainGuardedIsChecked(c, now, events[..n]);
      PlainStepKeepsOpen(c, s, events[n]);
      OpenGuard(s.part);
    }
  }

  /** Within one session, and with no ambiguous dead-letter write, the check the loop could make is exact: the run is
      safe at every moment if and only if nothing was committed after a message was given up on. */
  lemma PlainRunIsSafeIffChecked(c: Config, now: int, events: seq<Event>)
    requires PlainRun(c, Init(now), events)
    ensures AlwaysSafe(c, Init(now), events) <==> CheckedRun(c, Init(now), events)
  {
    PlainGuardedIsChecked(c, now, events);
    AlwaysSafeIffGuarded(c, now, events);
  }

  // ---- the condition is needed ----------------------------------------------------------------------------

  lemma Take(c: Config, s0: State, events: seq<Event>, s: State, e: Event) returns (events': seq<Event>, s': State)
    requires s == Run(c, s0, events)
    ensures events' == events + [e] && s' == Step(c, s, e) == Run(c, s0, events')
  {
    RunOneMore(c, s0, events, e);
    events', s' := events + [e], Step(c, s, e);
  }

  predicate Asking(c: Config, s: State) {
    && s.part.proc.pc == SeenCheck && !s.part.proc.cancelled && 1 <= s.part.proc.attempt <= c.maxAttempts
    && OnRecord(c, s.part.proc)
  }

  lemma AskingFails(c: Config, s: State)
    requires Asking(c, s)
    ensures Step(c, s, Op(0, false, FailBefore))
            == s.(part := s.part.(proc := s.part.proc.(pc := Backoff, cause := SeenCheck)))
  {
    assert Arrive(s, Op(0, false, FailBefore)) == s;
  }

  lemma PauseEnds(c: Config, s: State)
    requires s.part.proc.pc == Backoff && !s.part.proc.cancelled
    ensures Step(c, s, Op(0, false, Ok)) == BackoffStep(c, s, Ok)
  {
    assert Arrive(s, Op(0, false, Ok)) == s;
  }

  /** Redis stays away for all attempts. */
  lemma {:induction false} Exhaust(c: Config, s0: State, before: seq<Event>, s: State) returns (events: seq<Event>, s': State)
    requires s == Run(c, s0, before) && Asking(c, s)
    ensures s' == Run(c, s0, events) && s'.part == s.part.(proc := s'.part.proc)
    ensures s'.part.proc.pc == DeadLetter && s'.part.proc.pos == s.part.proc.pos && s'.part.proc.holes == s.part.proc.holes
    ensures !s'.part.proc.cancelled
    decreases c.maxAttempts - s.part.proc.attempt
  {
    AskingFails(c, s);
    events, s' := Take(c, s0, before, s, Op(0, false, FailBefore));
    PauseEnds(c, s');
    events, s' := Take(c, s0, events, s', Op(0, false, Ok));
    if s.part.proc.attempt < c.maxAttempts {
      events, s' := Exhaust(c, s0, events, s');
    }
  }

  lemma BurialFails(c: Config, s: State)
    requires s.part.proc.pc == DeadLetter && s.part.proc.pos < |c.log|
    ensures Step(c, s, Op(0, false, FailBefore)) == GiveUp(s)
  {
    assert Arrive(s, Op(0, false, FailBefore)) == s;
  }

  lemma UnparseableIsDone(c: Config, s: State)
    requires s.part.proc.pc == Fetch && s.part.proc.pos < |c.log| && c.log[s.part.proc.pos].Unparseable?
    ensures Step(c, s, Op(0, false, Ok)) == Finish(s)
    ensures Step(c, Finish(s), Op(0, false, Ok)) == CommitStep(Finish(s), Ok)
  {
    assert Arrive(s, Op(0, false, Ok)) == s && Arrive(Finish(s), Op(0, false, Ok)) == Finish(s);
  }

  lemma FetchesRecord(c: Config, s: State)
    requires s.part.proc.pc == Fetch && OnRecord(c, s.part.proc)
    ensures Step(c, s, Op(0, false, Ok)) == s.(part := s.part.(proc := s.part.proc.(pc := SeenCheck, attempt := 1)))
  {
    assert Arrive(s, Op(0, false, Ok)) == s;
  }

  /** Redis is away for all attempts at the first message, and the dead-letter write fails too. */
  lemma FirstIsGivenUpOn(c: Config, now: int) returns (events: seq<Event>, s: State)
    requires c.maxAttempts >= 1 && c.log != [] && c.log[0].Parsed?
    ensures s == Run(c, Init(now), events) && s.part.proc.pc == Fetch && s.part.proc.pos == 1
    ensures s.part == Init(now).part.(proc := s.part.proc)
  {
    s := Init(now);
    FetchesRecord(c, s);
    events, s := Take(c, Init(now), [], s, Op(0, false, Ok));
    events, s := Exhaust(c, Init(now), events, s);
    BurialFails(c, s);
    events, s := Take(c, Init(now), events, s, Op(0, false, FailBefore));
  }

  /** Whatever the settings and the messages: once the loop has given up on the first of them, it goes on to the next and
      commits it, and the offset has passed a record that nobody handled and nobody dead-lettered. */
  lemma CommitCanLoseARecord(c: Config, now: int) returns (events: seq<Event>)
    requires c.maxAttempts >= 1 && |c.log| >= 2 && c.log[0].Parsed?
    ensures var part := Run(c, Init(now), events).part;
            part.committed == 2 && !Resolved(part, 0) && !Safe(part)
  {
    var s;
    events, s := FirstIsGivenUpOn(c, now);
    if c.log[1].Unparseable? {
      UnparseableIsDone(c, s);
      events, s := Take(c, Init(now), events, s, Op(0, false, Ok));
      events, s := Take(c, Init(now), events, s, Op(0, false, Ok));
    } else {
      var more := CleanRun.RecordRuns(c, s, c.log[1].rec);
      RunConcat(c, Init(now), events, more);
      events, s := events + more, Run(c, s, more);
    }
    assert s.part.committed == 2 && !Resolved(s.part, 0);
  }
}
