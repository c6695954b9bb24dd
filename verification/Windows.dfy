/** Sliding windows of (member, event millisecond) pairs: the Redis sorted set of services/fraud/window.go and
    services/fraud/spend.go, and its map twin in cmd/playground. */
module Windows {

  type Window = map<string, int>

  datatype Call = Call(id: string, ms: int)

  /** ZREMRANGEBYSCORE from "0": a member with a negative score is never removed. */
  function Evict(w: Window, cutoff: int): Window {
    map id | id in w && !(0 <= w[id] <= cutoff) :: w[id]
  }

  /** The playground's deletion loop, which has no lower bound. */
  function Drop(w: Window, cutoff: int): Window {
    map id | id in w && w[id] > cutoff :: w[id]
  }

  /** One pipeline on the sorted set: ZADD, then the trim. */
  function Slide(w: Window, id: string, ms: int, windowMs: int): Window {
    Evict(w[id := ms], ms - windowMs)
  }

  /** One call in the playground's map. */
  function Shift(w: Window, id: string, ms: int, windowMs: int): Window {
    Drop(w[id := ms], ms - windowMs)
  }

  predicate NonNegative(w: Window) {
    forall id | id in w :: w[id] >= 0
  }

  lemma SlideIsShift(w: Window, id: string, ms: int, windowMs: int)
    requires NonNegative(w) && ms >= 0
    ensures Slide(w, id, ms, windowMs) == Shift(w, id, ms, windowMs)
    ensures NonNegative(Slide(w, id, ms, windowMs))
  {
  }

  /** A redelivered call that is the latest one leaves the window as it was. */
  lemma SlideTwice(w: Window, id: string, ms: int, windowMs: int)
    requires windowMs > 0
    ensures Slide(Slide(w, id, ms, windowMs), id, ms, windowMs) == Slide(w, id, ms, windowMs)
    ensures id in Slide(w, id, ms, windowMs)
  {
  }

  /** The sorted set after a sequence of pipelines, in arrival order. */
  function Slid(calls: seq<Call>, windowMs: int): Window {
    if calls == [] then map[]
    else
      var last := calls[|calls| - 1];
      Slide(Slid(calls[..|calls| - 1], windowMs), last.id, last.ms, windowMs)
  }

  function Shifted(calls: seq<Call>, windowMs: int): Window {
    if calls == [] then map[]
    else
      var last := calls[|calls| - 1];
      Shift(Shifted(calls[..|calls| - 1], windowMs), last.id, last.ms, windowMs)
  }

  lemma {:induction false} SlidIsShifted(calls: seq<Call>, windowMs: int)
    requires forall c | c in calls :: c.ms >= 0
    ensures Slid(calls, windowMs) == Shifted(calls, windowMs) && NonNegative(Slid(calls, windowMs))
  {
    if calls != [] {
      var init, last := calls[..|calls| - 1], calls[|calls| - 1];
      SlidIsShifted(init, windowMs);
      SlideIsShift(Slid(init, windowMs), last.id, last.ms, windowMs);
    }
  }

  predicate IsLast(calls: seq<Call>, i: nat)
    requires i < |calls|
  {
    forall j | i < j < |calls| :: calls[j].id != calls[i].id
  }

  /** Call i is the last one with its id, and is younger than the window before every call from i on: its time
      exceeds the greatest of those times less the window. */
  predicate Survives(calls: seq<Call>, windowMs: int, i: nat)
    requires i < |calls|
  {
    IsLast(calls, i) && forall j | i <= j < |calls| :: calls[i].ms > calls[j].ms - windowMs
  }

  lemma SurvivesSnoc(init: seq<Call>, last: Call, windowMs: int, i: nat)
    requires i < |init|
    ensures Survives(init + [last], windowMs, i) <==>
              Survives(init, windowMs, i) && last.id != init[i].id && init[i].ms > last.ms - windowMs
  {
    var calls := init + [last];
    assert calls[|init|] == last && forall j | 0 <= j < |init| :: calls[j] == init[j];
  }

  /** A surviving call is in the window with its own time. */
  lemma {:induction false} SurvivorsStay(calls: seq<Call>, windowMs: int, i: nat)
    requires windowMs > 0 && i < |calls| && Survives(calls, windowMs, i)
    ensures calls[i].id in Shifted(calls, windowMs) && Shifted(calls, windowMs)[calls[i].id] == calls[i].ms
  {
    var n := |calls| - 1;
    var init, last := calls[..n], calls[n];
    if i < n {
      assert calls == init + [last];
      SurvivesSnoc(init, last, windowMs, i);
      SurvivorsStay(init, windowMs, i);
    }
  }

  /** Whatever is in the window is a surviving call. */
  lemma {:induction false} OnlySurvivorsStay(calls: seq<Call>, windowMs: int, id: string) returns (i: nat)
    requires windowMs > 0 && id in Shifted(calls, windowMs)
    ensures i < |calls| && calls[i].id == id && Survives(calls, windowMs, i)
  {
    var n := |calls| - 1;
    var init, last := calls[..n], calls[n];
    if id == last.id {
      i := n;
    } else {
      i := OnlySurvivorsStay(init, windowMs, id);
      SurvivorsStay(init, windowMs, i);
      assert calls == init + [last];
      SurvivesSnoc(init, last, windowMs, i);
    }
  }

  /** Exact contents for any arrival order: the window holds a call at a time exactly when the last call with that
      id has that time and survives. */
  lemma ShiftedContents(calls: seq<Call>, windowMs: int, id: string, ms: int)
    requires windowMs > 0
    ensures (id in Shifted(calls, windowMs) && Shifted(calls, windowMs)[id] == ms) <==>
              exists i | 0 <= i < |calls| :: calls[i] == Call(id, ms) && Survives(calls, windowMs, i)
  {
    if id in Shifted(calls, windowMs) {
      var i := OnlySurvivorsStay(calls, windowMs, id);
      SurvivorsStay(calls, windowMs, i);
    }
    forall i | 0 <= i < |calls| && calls[i] == Call(id, ms) && Survives(calls, windowMs, i)
      ensures id in Shifted(calls, windowMs) && Shifted(calls, windowMs)[id] == ms
    {
      SurvivorsStay(calls, windowMs, i);
    }
  }

  /** For the sorted set: its trim starts at zero, so a call from before the epoch is never pushed out. */
  predicate Remains(calls: seq<Call>, windowMs: int, i: nat)
    requires i < |calls|
  {
    IsLast(calls, i) && (calls[i].ms < 0 || forall j | i <= j < |calls| :: calls[i].ms > calls[j].ms - windowMs)
  }

  lemma RemainsSnoc(init: seq<Call>, last: Call, windowMs: int, i: nat)
    requires i < |init|
    ensures Remains(init + [last], windowMs, i) <==>
              Remains(init, windowMs, i) && last.id != init[i].id && (init[i].ms < 0 || init[i].ms > last.ms - windowMs)
  {
    var calls := init + [last];
    assert calls[|init|] == last && forall j | 0 <= j < |init| :: calls[j] == init[j];
  }

  lemma {:induction false} RemainingStay(calls: seq<Call>, windowMs: int, i: nat)
    requires windowMs > 0 && i < |calls| && Remains(calls, windowMs, i)
    ensures calls[i].id in Slid(calls, windowMs) && Slid(calls, windowMs)[calls[i].id] == calls[i].ms
  {
    var n := |calls| - 1;
    var init, last := calls[..n], calls[n];
    if i < n {
      assert calls == init + [last];
      RemainsSnoc(init, last, windowMs, i);
      RemainingStay(init, windowMs, i);
    }
  }

  lemma {:induction false} OnlyRemainingStay(calls: seq<Call>, windowMs: int, id: string) returns (i: nat)
    requires windowMs > 0 && id in Slid(calls, windowMs)
    ensures i < |calls| && calls[i].id == id && Remains(calls, windowMs, i)
  {
    var n := |calls| - 1;
    var init, last := calls[..n], calls[n];
    if id == last.id {
      i := n;
    } else {
      i := OnlyRemainingStay(init, windowMs, id);
      RemainingStay(init, windowMs, i);
      assert calls == init + [last];
      RemainsSnoc(init, last, windowMs, i);
    }
  }

  /** The same for the sorted set, before the epoch too. */
  lemma SlidContents(calls: seq<Call>, windowMs: int, id: string, ms: int)
    requires windowMs > 0
    ensures (id in Slid(calls, windowMs) && Slid(calls, windowMs)[id] == ms) <==>
              exists i | 0 <= i < |calls| :: calls[i] == Call(id, ms) && Remains(calls, windowMs, i)
  {
    if id in Slid(calls, windowMs) {
      var i := OnlyRemainingStay(calls, windowMs, id);
      RemainingStay(calls, windowMs, i);
    }
    forall i | 0 <= i < |calls| && calls[i] == Call(id, ms) && Remains(calls, windowMs, i)
      ensures id in Slid(calls, windowMs) && Slid(calls, windowMs)[id] == ms
    {
      RemainingStay(calls, windowMs, i);
    }
  }

  predicate InOrder(calls: seq<Call>) {
    forall i, j | 0 <= i < j < |calls| :: calls[i].ms <= calls[j].ms
  }

  /** The distinct calls of the half-open interval (t - windowMs, t]. */
  function Recent(calls: seq<Call>, windowMs: int): set<string>
    requires calls != []
  {
    set i | 0 <= i < |calls| && calls[i].ms > calls[|calls| - 1].ms - windowMs :: calls[i].id
  }

  lemma {:induction false} LastOf(calls: seq<Call>, i: nat) returns (j: nat)
    requires i < |calls|
    ensures i <= j < |calls| && calls[j].id == calls[i].id && IsLast(calls, j)
    decreases |calls| - i
  {
    if IsLast(calls, i) {
      j := i;
    } else {
      var k :| i < k < |calls| && calls[k].id == calls[i].id;
      j := LastOf(calls, k);
    }
  }

  /** For calls in event-time order the count is exactly the number of distinct calls of the last window. */
  lemma InOrderCount(calls: seq<Call>, windowMs: int)
    requires windowMs > 0 && calls != [] && InOrder(calls)
    ensures Shifted(calls, windowMs).Keys == Recent(calls, windowMs)
  {
    var w, last := Shifted(calls, windowMs), calls[|calls| - 1];
    forall id | id in w ensures id in Recent(calls, windowMs) {
      var i := OnlySurvivorsStay(calls, windowMs, id);
    }
    forall id | id in Recent(calls, windowMs) ensures id in w {
      var i :| 0 <= i < |calls| && calls[i].ms > last.ms - windowMs && calls[i].id == id;
      var j := LastOf(calls, i);
      SurvivorsStay(calls, windowMs, j);
    }
  }

  /** The same for the sorted set. */
  lemma InOrderSetCount(calls: seq<Call>, windowMs: int)
    requires windowMs > 0 && calls != [] && InOrder(calls) && calls[0].ms >= 0
    ensures Slid(calls, windowMs).Keys == Recent(calls, windowMs)
  {
    SlidIsShifted(calls, windowMs);
    InOrderCount(calls, windowMs);
  }
}
