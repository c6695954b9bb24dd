/** Bounded retries over whole runs: how often a message is tried, and what it takes to dead-letter it. */
module Retries {
  import opened Cdr
  import opened Pipeline

  /** The event is a call of handle that fails and is answered with a pause. */
  ghost predicate Fails(c: Config, s: State, e: Event) {
    e.Op? && InHandle(s.part.proc.pc) && Step(c, s, e).part.proc.pc.Backoff?
  }

  /** The event begins a call of handle on a message that decodes. */
  ghost predicate Calls(c: Config, s: State, e: Event) {
    e.Op? && (s.part.proc.pc.Fetch? || s.part.proc.pc.Backoff?) && Step(c, s, e).part.proc.pc.SeenCheck?
  }

  /** How often handle was called on the message at hand, how often it failed, and with what error the last time. */
  datatype Tally = Tally(calls: nat, failures: nat, lastError: PC)

  ghost function Counted(c: Config, s: State, e: Event, t: Tally): Tally {
    var before := if s.part.proc.pc.Fetch? || e.Crash? then Tally(0, 0, Fetch) else t;
    if Calls(c, s, e) then before.(calls := before.calls + 1)
    else if Fails(c, s, e) then before.(failures := before.failures + 1, lastError := s.part.proc.pc)
    else before
  }

  ghost function TallyOf(c: Config, now: int, events: seq<Event>): Tally {
    if events == [] then Tally(0, 0, Fetch)
    else
      var n := |events| - 1;
      Counted(c, Run(c, Init(now), events[..n]), events[n], TallyOf(c, now, events[..n]))
  }

  /** The attempt counter counts the calls, all but a call in progress have failed, and the last error is remembered. */
  predicate Tallies(c: Config, proc: Proc, t: Tally) {
    && t.calls <= c.maxAttempts
    && (!proc.pc.Fetch? && !proc.pc.Commit? ==> OnRecord(c, proc))
    && (InHandle(proc.pc) ==> 1 <= t.calls == proc.attempt && t.failures == t.calls - 1)
    && (proc.pc.Backoff? ==> 1 <= t.calls == proc.attempt == t.failures && proc.cause == t.lastError)
    && (proc.pc.DeadLetter? ==> t.calls == c.maxAttempts == t.failures && proc.cause == t.lastError)
  }

  lemma HandleTallies(c: Config, s: State, e: Event, t: Tally)
    requires Tallies(c, s.part.proc, t) && e.Op? && InHandle(s.part.proc.pc)
    ensures Tallies(c, Step(c, s, e).part.proc, Counted(c, s, e, t)) && Step(c, s, e).part.dlq == s.part.dlq
  {
    var a := Arrive(s, e);
    HandleShape(c, a, c.log[a.part.proc.pos].rec, e.outcome);
    assert Step(c, s, e) == HandleStep(c, a, c.log[a.part.proc.pos].rec, e.outcome);
  }

  lemma FetchTallies(c: Config, s: State, e: Event, t: Tally)
    requires Tallies(c, s.part.proc, t) && e.Op? && s.part.proc.pc.Fetch? && c.maxAttempts >= 1
    ensures Tallies(c, Step(c, s, e).part.proc, Counted(c, s, e, t)) && Step(c, s, e).part.dlq == s.part.dlq
  {
    assert Step(c, s, e) == FetchStep(c, Arrive(s, e), e.outcome);
  }

  lemma BackoffTallies(c: Config, s: State, e: Event, t: Tally)
    requires Tallies(c, s.part.proc, t) && e.Op? && s.part.proc.pc.Backoff?
    ensures Tallies(c, Step(c, s, e).part.proc, Counted(c, s, e, t)) && Step(c, s, e).part.dlq == s.part.dlq
  {
    assert Step(c, s, e) == BackoffStep(c, Arrive(s, e), e.outcome);
  }

  /** What the dead-letter write adds. */
  predicate Buries(c: Config, s: State, s': State) {
    s'.part.dlq == s.part.dlq
    || (OnRecord(c, s.part.proc)
        && s'.part.dlq == s.part.dlq + [DeadRecord(c.log[s.part.proc.pos], s.part.proc.cause)])
  }

  lemma DeadLetterTallies(c: Config, s: State, e: Event, t: Tally)
    requires Tallies(c, s.part.proc, t) && e.Op? && s.part.proc.pc.DeadLetter?
    ensures Tallies(c, Step(c, s, e).part.proc, Counted(c, s, e, t)) && Buries(c, s, Step(c, s, e))
  {
    assert Step(c, s, e) == DeadLetterStep(Arrive(s, e), c.log[s.part.proc.pos], e.outcome);
  }

  lemma CommitTallies(c: Config, s: State, e: Event, t: Tally)
    requires Tallies(c, s.part.proc, t) && e.Op? && s.part.proc.pc.Commit?
    ensures Tallies(c, Step(c, s, e).part.proc, Counted(c, s, e, t)) && Step(c, s, e).part.dlq == s.part.dlq
  {
    assert Step(c, s, e) == CommitStep(Arrive(s, e), e.outcome);
  }

  lemma StepTallies(c: Config, s: State, e: Event, t: Tally)
    requires Tallies(c, s.part.proc, t) && c.maxAttempts >= 1
    ensures Tallies(c, Step(c, s, e).part.proc, Counted(c, s, e, t))
    ensures Step(c, s, e).part.dlq == s.part.dlq || (s.part.proc.pc.DeadLetter? && Buries(c, s, Step(c, s, e)))
  {
    if e.Op? {
      match s.part.proc.pc
      case Fetch => FetchTallies(c, s, e, t);
      case Backoff => BackoffTallies(c, s, e, t);
      case DeadLetter => DeadLetterTallies(c, s, e, t);
      case Commit => CommitTallies(c, s, e, t);
      case _ => HandleTallies(c, s, e, t);
    }
  }

  lemma {:induction false} RunTallies(c: Config, now: int, events: seq<Event>)
    requires c.maxAttempts >= 1
    ensures Tallies(c, Run(c, Init(now), events).part.proc, TallyOf(c, now, events))
  {
    if events != [] {
      var n := |events| - 1;
      RunTallies(c, now, events[..n]);
      StepTallies(c, Run(c, Init(now), events[..n]), events[n], TallyOf(c, now, events[..n]));
    }
  }

  /** In every run handle is called at most maxAttempts times on a message before it is fetched again, and again only
      after it failed. */
  lemma CallsAreBounded(c: Config, now: int, events: seq<Event>)
    requires c.maxAttempts >= 1
    ensures var t, proc := TallyOf(c, now, events), Run(c, Init(now), events).part.proc;
            t.calls <= c.maxAttempts && (InHandle(proc.pc) ==> t.failures == t.calls - 1)
  {
    RunTallies(c, now, events);
  }

  /** In every run an event that changes the dead-letter topic adds exactly one letter; the message, which it carries
      unchanged, was tried maxAttempts times since it was fetched, failed every time, and last with the error named. */
  lemma DeadLettersAreEarned(c: Config, now: int, events: seq<Event>, e: Event)
    requires c.maxAttempts >= 1
    requires Run(c, Init(now), events + [e]).part.dlq != Run(c, Init(now), events).part.dlq
    ensures var s, t := Run(c, Init(now), events), TallyOf(c, now, events);
            && OnRecord(c, s.part.proc) && t.calls == t.failures == c.maxAttempts
            && Run(c, Init(now), events + [e]).part.dlq
               == s.part.dlq + [DeadRecord(c.log[s.part.proc.pos], t.lastError)]
  {
    RunTallies(c, now, events);
    RunOneMore(c, Init(now), events, e);
    StepTallies(c, Run(c, Init(now), events), e, TallyOf(c, now, events));
  }

  // ---- what becomes of a message --------------------------------------------------------------------------

  /** The signal has arrived by the time of the operation. */
  predicate Stopping(s: State, e: Event) {
    s.part.proc.cancelled || (e.Op? && e.cancel)
  }

  predicate MovedOn(part: Part, part': Part) {
    part'.proc.pos == part.proc.pos + 1 && part'.proc.pc.Fetch? && part'.committed == part.committed
  }

  predicate Stayed(part: Part, part': Part) {
    part'.proc.pos == part.proc.pos && part'.committed == part.committed
  }

  lemma HandleMovesOn(c: Config, a: State, rec: Record, o: Outcome)
    requires InHandle(a.part.proc.pc)
    ensures var part' := HandleStep(c, a, rec, o).part;
            if !o.Ok? && !a.part.proc.pc.Cell? && !a.part.proc.pc.Tariff? && a.part.proc.cancelled then MovedOn(a.part, part')
            else Stayed(a.part, part')
  {
    var e := Effect(c, a, rec);
    EffectShape(c, a, rec);
    ContinueShape(c, e, rec);
  }

  /** The loop moves on from a record it was working on exactly when handle fails or its pause ends under shutdown, or
      the dead-letter write fails; the committed offset stays where it is. */
  lemma MovesOnExactlyWhen(c: Config, s: State, e: Event)
    requires e.Op? && OnRecord(c, s.part.proc) && !s.part.proc.pc.Fetch? && !s.part.proc.pc.Commit?
    ensures var pc := s.part.proc.pc;
            if !e.outcome.Ok? && !pc.Cell? && !pc.Tariff? && (pc.DeadLetter? || Stopping(s, e))
            then MovedOn(s.part, Step(c, s, e).part) else Stayed(s.part, Step(c, s, e).part)
  {
    var a := Arrive(s, e);
    var message := c.log[s.part.proc.pos];
    if InHandle(s.part.proc.pc) {
      assert Step(c, s, e) == HandleStep(c, a, message.rec, e.outcome);
      HandleMovesOn(c, a, message.rec, e.outcome);
    } else if s.part.proc.pc.Backoff? {
      assert Step(c, s, e) == BackoffStep(c, a, e.outcome);
    } else {
      assert Step(c, s, e) == DeadLetterStep(a, message, e.outcome);
    }
  }

  /** A pause leads to another call of handle while attempts are left, and to the dead-letter topic otherwise, unless
      shutdown ends it. */
  lemma AfterAPause(c: Config, s: State, e: Event)
    requires e.Op? && s.part.proc.pc.Backoff? && !(Stopping(s, e) && !e.outcome.Ok?)
    ensures var proc, proc' := s.part.proc, Step(c, s, e).part.proc;
            && proc'.pos == proc.pos
            && (proc.attempt < c.maxAttempts ==> proc'.pc.SeenCheck? && proc'.attempt == proc.attempt + 1)
            && (proc.attempt >= c.maxAttempts ==> proc'.pc.DeadLetter?)
  {
  }

  const OK := Op(0, false, Ok)
  const FAIL := Op(0, false, FailBefore)

  /** A message that does not decode is skipped and committed, and leaves no other trace. */
  lemma UnparseableIsSkipped(c: Config, s: State)
    requires s.part.proc.pc.Fetch? && OnMessage(c, s.part.proc, Unparseable)
    ensures var s', next := Step(c, Step(c, s, OK), OK), s.part.proc.pos + 1;
            && s'.part.proc.pc.Fetch? && s'.part.proc.pos == next && s'.part.committed == next
            && s'.store == s.store && s'.part.alerts == s.part.alerts && s'.part.dlq == s.part.dlq
  {
    assert Step(c, s, OK) == FetchStep(c, s, Ok);
    assert Step(c, Step(c, s, OK), OK) == CommitStep(Step(c, s, OK), Ok);
  }

  /** n failed calls of handle, each with its pause. */
  function Failures(n: nat): seq<Event> {
    if n == 0 then [] else Failures(n - 1) + [FAIL] + [OK]
  }

  lemma FailureAndPause(c: Config, s: State)
    requires s.part.proc.pc.SeenCheck? && OnRecord(c, s.part.proc) && !s.part.proc.cancelled
    ensures var s' := Step(c, Step(c, s, FAIL), OK);
            && s'.store == s.store && s'.part == s.part.(proc := s'.part.proc)
            && s'.part.proc == if s.part.proc.attempt < c.maxAttempts
                               then s.part.proc.(cause := SeenCheck, attempt := s.part.proc.attempt + 1)
                               else s.part.proc.(cause := SeenCheck, pc := DeadLetter)
  {
    assert Step(c, s, FAIL) == Fail(s);
    assert Step(c, Fail(s), OK) == BackoffStep(c, Fail(s), Ok);
  }

  lemma {:induction false} AfterFailures(c: Config, s: State, n: nat)
    requires s.part.proc.pc.SeenCheck? && OnRecord(c, s.part.proc) && !s.part.proc.cancelled && s.part.proc.attempt == 1
    requires 1 <= n <= c.maxAttempts
    ensures var s' := Run(c, s, Failures(n));
            && s'.store == s.store && s'.part == s.part.(proc := s'.part.proc)
            && s'.part.proc == if n < c.maxAttempts then s.part.proc.(cause := SeenCheck, attempt := n + 1)
                               else s.part.proc.(cause := SeenCheck, attempt := n, pc := DeadLetter)
  {
    var before := Run(c, s, Failures(n - 1));
    if n > 1 {
      AfterFailures(c, s, n - 1);
    }
    RunOneMore(c, s, Failures(n - 1), FAIL);
    RunOneMore(c, s, Failures(n - 1) + [FAIL], OK);
    FailureAndPause(c, before);
  }

  /** A poison record does not block the partition: when every call of handle fails, here at its first operation, the
      record is dead-lettered as it is, with the error, and committed. */
  lemma PoisonIsBuried(c: Config, s: State)
    requires s.part.proc.pc.SeenCheck? && OnRecord(c, s.part.proc) && !s.part.proc.cancelled && s.part.proc.attempt == 1
    requires c.maxAttempts >= 1
    ensures var s', pos := Run(c, s, Failures(c.maxAttempts) + [OK] + [OK]), s.part.proc.pos;
            && s'.part.dlq == s.part.dlq + [DeadRecord(c.log[pos], SeenCheck)]
            && s'.part.committed == pos + 1 && s'.part.proc.pos == pos + 1 && s'.part.proc.pc.Fetch?
            && s'.store == s.store && s'.part.alerts == s.part.alerts
  {
    var failed := Failures(c.maxAttempts);
    AfterFailures(c, s, c.maxAttempts);
    RunOneMore(c, s, failed, OK);
    RunOneMore(c, s, failed + [OK], OK);
    var worn := Run(c, s, failed);
    assert Step(c, worn, OK) == DeadLetterStep(worn, c.log[s.part.proc.pos], Ok);
    assert Step(c, Step(c, worn, OK), OK) == CommitStep(Step(c, worn, OK), Ok);
  }
}
