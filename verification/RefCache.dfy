/** The cache in front of the reference-data service (services/fraud/cache.go): a get checks, loads and stores, and
    lets go of the lock in between, so concurrent gets may interleave. */
module RefCache {
  import opened Cdr

  datatype CacheEntry<T> = CacheEntry(val: T, at: int)

  type Entries<T> = map<string, CacheEntry<T>>

  predicate Hit<T>(m: Entries<T>, ttl: int, key: string, now: int) {
    key in m && now - m[key].at < ttl
  }

  class Cache<T> {
    const ttl: int
    var m: Entries<T>

    constructor (ttl: int)
      ensures this.ttl == ttl && m == map[]
    {
      this.ttl, m := ttl, map[];
    }

    /** One get that nothing interleaves with; `backend` is what load() returns if it is called. An entry younger than the
        lifetime is served without a load, whatever the backend would do; otherwise the load's result is returned, and
        stored if there is one. */
    method Get(key: string, now: int, backend: Option<T>) returns (r: Option<T>, called: bool)
      modifies this`m
      ensures key in old(m) && now - old(m)[key].at < ttl ==> !called && r == Some(old(m)[key].val) && m == old(m)
      ensures key !in old(m) || now - old(m)[key].at >= ttl ==> called && r == backend
      ensures called && backend.Some? ==> m == old(m)[key := CacheEntry(backend.value, now)]
      ensures called && backend.None? ==> m == old(m)
    {
      if key in m && now - m[key].at < ttl {
        return Some(m[key].val), false;
      }
      if backend.None? {
        return None, true;
      }
      m := m[key := CacheEntry(backend.value, now)];
      return backend, true;
    }
  }

  /** What one get stored, a later one within the lifetime is served, with a get of any other key in between, and with the
      backend out of reach. */
  method GetThriceWithinLifetime<T>(cache: Cache<T>, key: string, t: int, v: T, other: string, s: int, fromOther: Option<T>,
                                    t': int, backend: Option<T>)
      returns (r: Option<T>, called: bool)
    requires key !in cache.m && other != key && t' - t < cache.ttl
    modifies cache
    ensures r == Some(v) && !called && key in cache.m && cache.m[key] == CacheEntry(v, t)
  {
    r, called := cache.Get(key, t, Some(v));
    r, called := cache.Get(other, s, fromOther);
    r, called := cache.Get(key, t', backend);
  }

  // ---- concurrent gets ------------------------------------------------------------------------------------

  /** Where one get has got to. `now` is the time its caller read before calling. */
  datatype Call<T> =
    | Started(key: string, now: int)
    | Missed(key: string, now: int)
    | Loaded(key: string, now: int, val: T)
    | Returned(key: string, now: int, result: Option<T>)

  datatype World<T> = World(clock: int, m: Entries<T>, calls: seq<Call<T>>)

  datatype Turn =
    | Tick(dt: nat)
    | Begin(key: string, lag: nat)     // a call with the time of `lag` milliseconds ago
    | Go(call: nat, ok: bool)          // the next locked section, or the load, of one call

  /** What the backend holds for a key at each moment. */
  type Backend<!T> = (string, int) -> T

  function GoOn<T>(held: Backend<T>, ttl: int, w: World<T>, i: nat, ok: bool): World<T>
    requires i < |w.calls|
  {
    match w.calls[i]
    case Started(key, now) =>
      w.(calls := w.calls[i := if Hit(w.m, ttl, key, now) then Returned(key, now, Some(w.m[key].val)) else Missed(key, now)])
    case Missed(key, now) =>
      w.(calls := w.calls[i := if ok then Loaded(key, now, held(key, w.clock)) else Returned(key, now, None)])
    case Loaded(key, now, val) =>
      w.(m := w.m[key := CacheEntry(val, now)], calls := w.calls[i := Returned(key, now, Some(val))])
    case Returned(_, _, _) => w
  }

  function Turned<T>(held: Backend<T>, ttl: int, w: World<T>, turn: Turn): World<T> {
    match turn
    case Tick(dt) => w.(clock := w.clock + dt)
    case Begin(key, lag) => w.(calls := w.calls + [Started(key, w.clock - lag)])
    case Go(i, ok) => if i < |w.calls| then GoOn(held, ttl, w, i, ok) else w
  }

  function Turns<T>(held: Backend<T>, ttl: int, start: int, turns: seq<Turn>): World<T> {
    if turns == [] then World(start, map[], [])
    else Turned(held, ttl, Turns(held, ttl, start, turns[..|turns| - 1]), turns[|turns| - 1])
  }

  // ---- how old a value can be -----------------------------------------------------------------------------

  /** The backend held v between `since` and `until`. */
  ghost predicate HeldSince<T>(held: Backend<T>, key: string, v: T, since: int, until: int) {
    exists t | since <= t <= until :: held(key, t) == v
  }

  lemma HeldStill<T>(held: Backend<T>, key: string, v: T, since: int, until: int, since': int, until': int)
    requires HeldSince(held, key, v, since, until) && since' <= since && until <= until'
    ensures HeldSince(held, key, v, since', until')
  {
  }

  /** Younger than the lifetime when the get was called, or loaded after that. */
  function Oldest(ttl: int, now: int): int {
    if ttl > 0 then now - ttl + 1 else now
  }

  ghost predicate CallIsFresh<T>(held: Backend<T>, ttl: int, call: Call<T>, clock: int) {
    && call.now <= clock
    && match call
       case Loaded(key, now, val) => HeldSince(held, key, val, now, clock)
       case Returned(key, now, Some(val)) => HeldSince(held, key, val, Oldest(ttl, now), clock)
       case _ => true
  }

  ghost predicate EntryIsFresh<T>(held: Backend<T>, key: string, e: CacheEntry<T>, clock: int) {
    HeldSince(held, key, e.val, e.at, clock)
  }

  ghost predicate AllFresh<T>(held: Backend<T>, ttl: int, w: World<T>) {
    && (forall key | key in w.m :: EntryIsFresh(held, key, w.m[key], w.clock))
    && (forall i | 0 <= i < |w.calls| :: CallIsFresh(held, ttl, w.calls[i], w.clock))
  }

  lemma GoKeepsFresh<T>(held: Backend<T>, ttl: int, w: World<T>, i: nat, ok: bool)
    requires AllFresh(held, ttl, w) && i < |w.calls|
    ensures AllFresh(held, ttl, GoOn(held, ttl, w, i, ok))
  {
    var w', call := GoOn(held, ttl, w, i, ok), w.calls[i];
    assert CallIsFresh(held, ttl, call, w.clock);
    assert CallIsFresh(held, ttl, w'.calls[i], w.clock) by {
      match call
      case Started(key, now) =>
        if Hit(w.m, ttl, key, now) {
          assert EntryIsFresh(held, key, w.m[key], w.clock);
          if ttl > 0 || w.m[key].at >= now {
            HeldStill(held, key, w.m[key].val, w.m[key].at, w.clock, Oldest(ttl, now), w.clock);
          }
        }
      case Missed(key, now) =>
        if ok {
          assert HeldSince(held, key, held(key, w.clock), now, w.clock);
        }
      case Loaded(key, now, val) => HeldStill(held, key, val, now, w.clock, Oldest(ttl, now), w.clock);
      case Returned(_, _, _) =>
    }
    forall j | 0 <= j < |w'.calls| ensures CallIsFresh(held, ttl, w'.calls[j], w.clock) {
      assert CallIsFresh(held, ttl, w.calls[j], w.clock);
    }
    forall key | key in w'.m ensures EntryIsFresh(held, key, w'.m[key], w.clock) {
      assert key in w.m ==> EntryIsFresh(held, key, w.m[key], w.clock);
    }
  }

  lemma TickKeepsFresh<T>(held: Backend<T>, ttl: int, w: World<T>, dt: nat)
    requires AllFresh(held, ttl, w)
    ensures AllFresh(held, ttl, w.(clock := w.clock + dt))
  {
    var clock := w.clock + dt;
    forall key | key in w.m ensures EntryIsFresh(held, key, w.m[key], clock) {
      assert EntryIsFresh(held, key, w.m[key], w.clock);
      HeldStill(held, key, w.m[key].val, w.m[key].at, w.clock, w.m[key].at, clock);
    }
    forall i | 0 <= i < |w.calls| ensures CallIsFresh(held, ttl, w.calls[i], clock) {
      assert CallIsFresh(held, ttl, w.calls[i], w.clock);
      match w.calls[i]
      case Loaded(key, now, val) => HeldStill(held, key, val, now, w.clock, now, clock);
      case Returned(key, now, Some(val)) => HeldStill(held, key, val, Oldest(ttl, now), w.clock, Oldest(ttl, now), clock);
      case _ =>
    }
  }

  lemma {:induction false} TurnsKeepFresh<T>(held: Backend<T>, ttl: int, start: int, turns: seq<Turn>)
    ensures AllFresh(held, ttl, Turns(held, ttl, start, turns))
  {
    if turns != [] {
      var init, last := turns[..|turns| - 1], turns[|turns| - 1];
      TurnsKeepFresh(held, ttl, start, init);
      var w := Turns(held, ttl, start, init);
      match last
      case Tick(dt) => TickKeepsFresh(held, ttl, w, dt);
      case Begin(_, _) =>
      case Go(i, ok) =>
        if i < |w.calls| {
          GoKeepsFresh(held, ttl, w, i, ok);
        }
    }
  }

  /** The staleness bound: in every interleaving, a get called at `now` that succeeds returns a value the backend held
      less than the lifetime before `now`, or later, even when an older load has overwritten a newer entry. */
  lemma GetIsFresh<T>(held: Backend<T>, ttl: int, start: int, turns: seq<Turn>, i: nat)
    requires ttl > 0 && i < |Turns(held, ttl, start, turns).calls|
    requires Turns(held, ttl, start, turns).calls[i].Returned? && Turns(held, ttl, start, turns).calls[i].result.Some?
    ensures var w := Turns(held, ttl, start, turns);
            exists t | w.calls[i].now - ttl < t <= w.clock :: held(w.calls[i].key, t) == w.calls[i].result.value
  {
    TurnsKeepFresh(held, ttl, start, turns);
    var w := Turns(held, ttl, start, turns);
    assert CallIsFresh(held, ttl, w.calls[i], w.clock);
    assert HeldSince(held, w.calls[i].key, w.calls[i].result.value, Oldest(ttl, w.calls[i].now), w.clock);
  }

  /** Over a backend that never changes, the cache cannot be told from the backend, whatever the lifetime. */
  lemma StaticBackendShowsThrough<T>(held: Backend<T>, ttl: int, start: int, turns: seq<Turn>, i: nat, f: string -> T)
    requires forall key, t :: held(key, t) == f(key)
    requires i < |Turns(held, ttl, start, turns).calls|
    requires Turns(held, ttl, start, turns).calls[i].Returned? && Turns(held, ttl, start, turns).calls[i].result.Some?
    ensures Turns(held, ttl, start, turns).calls[i].result.value == f(Turns(held, ttl, start, turns).calls[i].key)
  {
    TurnsKeepFresh(held, ttl, start, turns);
    var w := Turns(held, ttl, start, turns);
    assert CallIsFresh(held, ttl, w.calls[i], w.clock);
  }

  /** Only a successful load that is being stored changes the map; in particular no failed load ever does. */
  lemma OnlyStoresChangeTheMap<T>(held: Backend<T>, ttl: int, w: World<T>, turn: Turn)
    ensures Turned(held, ttl, w, turn).m != w.m ==>
              turn.Go? && turn.call < |w.calls| && w.calls[turn.call].Loaded?
    ensures turn.Go? && turn.call < |w.calls| && w.calls[turn.call].Missed? && !turn.ok ==>
              Turned(held, ttl, w, turn).m == w.m && Turned(held, ttl, w, turn).calls[turn.call].result == None
  {
  }

  /** The class's get is one call whose turns follow each other at once. */
  lemma GetIsThreeTurns<T>(held: Backend<T>, ttl: int, w: World<T>, key: string, ok: bool)
    ensures var i, now := |w.calls|, w.clock;
            var w1 := Turned(held, ttl, w, Begin(key, 0));
            var w2 := Turned(held, ttl, w1, Go(i, ok));
            var w4 := Turned(held, ttl, Turned(held, ttl, w2, Go(i, ok)), Go(i, ok));
            var backend: Option<T> := if ok then Some(held(key, now)) else None;
            var hit := Hit(w.m, ttl, key, now);
            && w4.calls == w.calls + [Returned(key, now, if hit then Some(w.m[key].val) else backend)]
            && w4.m == if !hit && ok then w.m[key := CacheEntry(held(key, now), now)] else w.m
  {
  }

  lemma OneMoreTurn<T>(held: Backend<T>, ttl: int, start: int, turns: seq<Turn>, turn: Turn)
    ensures Turns(held, ttl, start, turns + [turn]) == Turned(held, ttl, Turns(held, ttl, start, turns), turn)
  {
    assert (turns + [turn])[..|turns|] == turns;
  }

  lemma SlowLoad<T>(held: Backend<T>, ttl: int, start: int, key: string, dt: nat) returns (turns: seq<Turn>)
    ensures Turns(held, ttl, start, turns) == World(start + dt, map[], [Loaded(key, start, held(key, start))])
  {
    turns := [];
    assert Turns(held, ttl, start, turns) == World(start, map[], []);
    OneMoreTurn(held, ttl, start, turns, Begin(key, 0));
    turns := turns + [Begin(key, 0)];
    OneMoreTurn(held, ttl, start, turns, Go(0, true));
    turns := turns + [Go(0, true)];
    OneMoreTurn(held, ttl, start, turns, Go(0, true));
    turns := turns + [Go(0, true)];
    OneMoreTurn(held, ttl, start, turns, Tick(dt));
    turns := turns + [Tick(dt)];
  }

  /** The race the bound survives: whatever the backend and the lifetime, a slow load can put an entry over one that
      is newer by any amount. */
  lemma OlderLoadCanOverwrite<T>(held: Backend<T>, ttl: int, start: int, key: string, dt: nat) returns (turns: seq<Turn>)
    ensures Turns(held, ttl, start, turns).m == map[key := CacheEntry(held(key, start + dt), start + dt)]
    ensures Turns(held, ttl, start, turns + [Go(0, true)]).m == map[key := CacheEntry(held(key, start), start)]
  {
    turns := SlowLoad(held, ttl, start, key, dt);
    OneMoreTurn(held, ttl, start, turns, Begin(key, 0));
    turns := turns + [Begin(key, 0)];
    OneMoreTurn(held, ttl, start, turns, Go(1, true));
    turns := turns + [Go(1, true)];
    OneMoreTurn(held, ttl, start, turns, Go(1, true));
    turns := turns + [Go(1, true)];
    OneMoreTurn(held, ttl, start, turns, Go(1, true));
    turns := turns + [Go(1, true)];
    OneMoreTurn(held, ttl, start, turns, Go(0, true));
  }

  // ---- a fresh entry is served ----------------------------------------------------------------------------

  /** The turn stores an entry under this key. */
  predicate Stores<T>(w: World<T>, turn: Turn, key: string) {
    turn.Go? && turn.call < |w.calls| && w.calls[turn.call].Loaded? && w.calls[turn.call].key == key
  }

  predicate NoStores<T>(held: Backend<T>, ttl: int, start: int, before: seq<Turn>, between: seq<Turn>, key: string) {
    forall n | 0 <= n < |between| :: !Stores(Turns(held, ttl, start, before + between[..n]), between[n], key)
  }

  lemma OtherTurnsKeepEntry<T>(held: Backend<T>, ttl: int, w: World<T>, turn: Turn, key: string)
    requires !Stores(w, turn, key) && key in w.m
    ensures key in Turned(held, ttl, w, turn).m && Turned(held, ttl, w, turn).m[key] == w.m[key]
  {
  }

  lemma {:induction false} EntryStays<T>(held: Backend<T>, ttl: int, start: int, before: seq<Turn>, between: seq<Turn>,
                                         key: string, n: nat)
    requires NoStores(held, ttl, start, before, between, key) && key in Turns(held, ttl, start, before).m
    requires n <= |between|
    ensures var w := Turns(held, ttl, start, before + between[..n]);
            key in w.m && w.m[key] == Turns(held, ttl, start, before).m[key]
  {
    if n == 0 {
      assert before + between[..0] == before;
    } else {
      var i := n - 1;
      EntryStays(held, ttl, start, before, between, key, i);
      assert before + between[..n] == before + between[..i] + [between[i]];
      OneMoreTurn(held, ttl, start, before + between[..i], between[i]);
      OtherTurnsKeepEntry(held, ttl, Turns(held, ttl, start, before + between[..i]), between[i], key);
    }
  }

  lemma Storing<T>(held: Backend<T>, ttl: int, w: World<T>, i: nat)
    requires i < |w.calls| && w.calls[i].Loaded?
    ensures Turned(held, ttl, w, Go(i, true)).m == w.m[w.calls[i].key := CacheEntry(w.calls[i].val, w.calls[i].now)]
  {
  }

  lemma Serving<T>(held: Backend<T>, ttl: int, w: World<T>, k: nat, ok: bool)
    requires k < |w.calls| && w.calls[k].Started? && w.calls[k].key in w.m && w.calls[k].now - w.m[w.calls[k].key].at < ttl
    ensures var call := w.calls[k];
            Turned(held, ttl, w, Go(k, ok))
            == w.(calls := w.calls[k := Returned(call.key, call.now, Some(w.m[call.key].val))])
  {
  }

  /** In every interleaving: once a call has stored a value it loaded for time t, and as long as no other value is stored
      for the key, a get called less than the lifetime after t is served that value. It makes no load, whether or not the
      backend would answer, and leaves the map alone. */
  lemma FreshEntryIsServed<T>(held: Backend<T>, ttl: int, start: int, before: seq<Turn>, i: nat, between: seq<Turn>, k: nat,
                              ok: bool)
    requires i < |Turns(held, ttl, start, before).calls| && Turns(held, ttl, start, before).calls[i].Loaded?
    requires NoStores(held, ttl, start, before + [Go(i, true)], between, Turns(held, ttl, start, before).calls[i].key)
    requires var w := Turns(held, ttl, start, before + [Go(i, true)] + between);
             k < |w.calls| && w.calls[k].Started? && w.calls[k].key == Turns(held, ttl, start, before).calls[i].key
             && w.calls[k].now - Turns(held, ttl, start, before).calls[i].now < ttl
    ensures var stored := Turns(held, ttl, start, before).calls[i];
            var w := Turns(held, ttl, start, before + [Go(i, true)] + between);
            var w' := Turns(held, ttl, start, before + [Go(i, true)] + between + [Go(k, ok)]);
            && w'.calls == w.calls[k := Returned(stored.key, w.calls[k].now, Some(stored.val))]
            && w'.m == w.m
  {
    var storing := before + [Go(i, true)];
    OneMoreTurn(held, ttl, start, before, Go(i, true));
    Storing(held, ttl, Turns(held, ttl, start, before), i);
    EntryStays(held, ttl, start, storing, between, Turns(held, ttl, start, before).calls[i].key, |between|);
    assert between[..|between|] == between;
    OneMoreTurn(held, ttl, start, storing + between, Go(k, ok));
    Serving(held, ttl, Turns(held, ttl, start, storing + between), k, ok);
  }
}
