/** The Redis keyspace the fraud service uses: sorted sets, last locations and flags, each with a time to live on
    the wall clock (in milliseconds). Expired entries stay in the map until they are overwritten; reads ignore them. */
module Redis {
  import opened Cdr
  import opened Windows

  datatype Location = Location(point: Point, atNs: int)

  /** The five key families. */
  datatype Key =
    | VelocityKey(caller: string)
    | SpendKey(caller: string)
    | LastLocKey(caller: string)
    | SeenKey(id: string)
    | AlertedKey(rule: Rule, caller: string)

  datatype Value = Members(members: Window) | Place(location: Location) | Flag

  datatype Deadline = Never | At(ms: int)

  datatype Entry = Entry(value: Value, deadline: Deadline)

  type Store = map<Key, Entry>

  predicate Alive(e: Entry, now: int) {
    e.deadline.Never? || now < e.deadline.ms
  }

  predicate Exists(store: Store, key: Key, now: int) {
    key in store && Alive(store[key], now)
  }

  function MembersIn(value: Value): Window {
    if value.Members? then value.members else map[]
  }

  function ZSet(store: Store, key: Key, now: int): Window {
    if Exists(store, key, now) then MembersIn(store[key].value) else map[]
  }

  /** SET with an expiration; an expiration of zero means none. */
  function Set(store: Store, key: Key, value: Value, now: int, ttlMs: int): Store {
    store[key := Entry(value, if ttlMs == 0 then Never else At(now + ttlMs))]
  }

  /** The transaction ZADD, ZREMRANGEBYSCORE, EXPIRE on one sorted set. */
  function SlideKey(store: Store, key: Key, member: string, ms: int, windowMs: int, now: int): Store {
    store[key := Entry(Members(Slide(ZSet(store, key, now), member, ms, windowMs)), At(now + 2 * windowMs))]
  }

  // ---- how long entries live -------------------------------------------------------------------------------

  /** SET: other keys are left alone, and the value is there until the expiration, or for good if that is zero. */
  lemma SetLives(store: Store, key: Key, value: Value, now: int, ttlMs: int, later: int)
    ensures Exists(Set(store, key, value, now, ttlMs), key, later) <==> ttlMs == 0 || later < now + ttlMs
    ensures Set(store, key, value, now, ttlMs) == store[key := Set(store, key, value, now, ttlMs)[key]]
    ensures Set(store, key, value, now, ttlMs)[key].value == value
  {
  }

  /** After two windows of silence a sorted set is gone, and the next pipeline starts from nothing. */
  lemma SilenceEmpties(store: Store, key: Key, member: string, ms: int, windowMs: int, now: int,
                       member': string, ms': int, now': int)
    requires windowMs > 0
    ensures var after := SlideKey(store, key, member, ms, windowMs, now);
            && (Exists(after, key, now') <==> now' < now + 2 * windowMs)
            && (now' >= now + 2 * windowMs ==>
                  SlideKey(after, key, member', ms', windowMs, now')[key].value == Members(map[member' := ms']))
  {
    var after := SlideKey(store, key, member, ms, windowMs, now);
    if now' >= now + 2 * windowMs {
      assert Slide(map[], member', ms', windowMs) == map[member' := ms'];
    }
  }

  // ---- when expiry cannot be noticed ----------------------------------------------------------------------

  /** A record is handled no more than `early` before and `late` after its start. */
  predicate Timely(now: int, ms: int, early: int, late: int) {
    ms - early <= now <= ms + late
  }

  /** Every member entered the set no earlier than `early` before its own time, and the key's deadline was set then
      or later. */
  predicate Dated(e: Entry, windowMs: int, early: int) {
    && e.value.Members?
    && e.deadline.At?
    && forall m | m in e.value.members :: 0 <= e.value.members[m] <= e.deadline.ms - 2 * windowMs + early
  }

  /** By the time the key has expired, a timely record would have pushed out all it held. */
  lemma ExpiredIsOutOfWindow(e: Entry, member: string, ms: int, windowMs: int, now: int, early: int, late: int)
    requires Dated(e, windowMs, early) && early + late <= windowMs
    requires Timely(now, ms, early, late) && !Alive(e, now)
    ensures Slide(e.value.members, member, ms, windowMs) == Slide(map[], member, ms, windowMs)
  {
  }

  /** One pipeline with expiry does to the members what it would do had the key never expired. */
  lemma SlideIgnoresExpiry(store: Store, key: Key, member: string, ms: int, windowMs: int, now: int,
                           early: int, late: int)
    requires key in store ==> Dated(store[key], windowMs, early) && (store[key].deadline.ms <= now + 2 * windowMs)
    requires early + late <= windowMs && ms >= 0 && Timely(now, ms, early, late)
    ensures var kept := if key in store then store[key].value.members else map[];
            var after := SlideKey(store, key, member, ms, windowMs, now);
            && MembersIn(after[key].value) == Slide(kept, member, ms, windowMs)
            && Dated(after[key], windowMs, early)
  {
    if key in store && !Alive(store[key], now) {
      ExpiredIsOutOfWindow(store[key], member, ms, windowMs, now, early, late);
    }
  }

  datatype Visit = Visit(now: int, call: Call)

  function CallsOf(visits: seq<Visit>): (calls: seq<Call>)
    ensures |calls| == |visits|
  {
    seq(|visits|, i requires 0 <= i < |visits| => visits[i].call)
  }

  function Visited(visits: seq<Visit>, key: Key, windowMs: int): Store {
    if visits == [] then map[]
    else
      var last := visits[|visits| - 1];
      SlideKey(Visited(visits[..|visits| - 1], key, windowMs), key, last.call.id, last.call.ms, windowMs, last.now)
  }

  predicate TimelyVisits(visits: seq<Visit>, early: int, late: int) {
    && (forall i | 0 <= i < |visits| :: Timely(visits[i].now, visits[i].call.ms, early, late))
    && (forall i | 0 <= i < |visits| :: visits[i].call.ms >= 0)
    && (forall i, j | 0 <= i < j < |visits| :: visits[i].now <= visits[j].now)
  }

  /** Expiry is invisible: if every call is handled at most `early` before and `late` after its start, and the two
      together do not exceed the window, the sorted set that expires after two windows always holds what one that
      never expires would hold, so every count and every sum read from it is the same. */
  lemma {:induction false} ExpiryIsInvisible(visits: seq<Visit>, key: Key, windowMs: int, early: int, late: int)
    requires TimelyVisits(visits, early, late) && early + late <= windowMs
    ensures visits != [] ==>
              var store := Visited(visits, key, windowMs);
              && key in store
              && Dated(store[key], windowMs, early)
              && store[key].deadline.ms == visits[|visits| - 1].now + 2 * windowMs
              && store[key].value.members == Slid(CallsOf(visits), windowMs)
  {
    if visits != [] {
      var n := |visits| - 1;
      var init, last := visits[..n], visits[n];
      ExpiryIsInvisible(init, key, windowMs, early, late);
      assert CallsOf(visits)[..n] == CallsOf(init);
      SlideIgnoresExpiry(Visited(init, key, windowMs), key, last.call.id, last.call.ms, windowMs, last.now, early, late);
    }
  }
}
