/** The strings the key families are spelled with, and why one flat keyspace serves as five separate maps. */
module Keyspace {
  import opened Cdr
  import opened Redis

  function KeyString(key: Key): string {
    match key
    case VelocityKey(caller) => "velocity:" + caller
    case SpendKey(caller) => "spend:" + caller
    case LastLocKey(caller) => "lastloc:" + caller
    case SeenKey(id) => "seen:" + id
    case AlertedKey(rule, caller) => "alerted:" + RuleName(rule) + ":" + caller
  }

  lemma SuffixInjective(prefix: string, s: string, t: string)
    requires prefix + s == prefix + t
    ensures s == t
  {
    assert s == (prefix + s)[|prefix|..];
    assert t == (prefix + t)[|prefix|..];
  }

  /** The playground's cooldown key, and the tail of the service's. */
  function RuleCaller(rule: Rule, caller: string): string {
    RuleName(rule) + ":" + caller
  }

  /** Rule names differ in their first two letters or end in a colon at different places, so rule and caller can be
      told apart whatever the caller is. */
  lemma RuleCallerInjective(rule: Rule, caller: string, rule': Rule, caller': string)
    requires RuleCaller(rule, caller) == RuleCaller(rule', caller')
    ensures rule == rule' && caller == caller'
  {
    assert RuleCaller(rule, caller)[0] == RuleName(rule)[0];
    assert RuleCaller(rule', caller')[0] == RuleName(rule')[0];
    assert RuleCaller(rule, caller)[1] == RuleName(rule)[1];
    assert RuleCaller(rule', caller')[1] == RuleName(rule')[1];
    assert rule == rule';
    SuffixInjective(RuleName(rule) + ":", caller, caller');
  }

  function Family(key: Key): string {
    match key
    case VelocityKey(_) => "velocity:"
    case SpendKey(_) => "spend:"
    case LastLocKey(_) => "lastloc:"
    case SeenKey(_) => "seen:"
    case AlertedKey(_, _) => "alerted:"
  }

  function Rest(key: Key): string {
    match key
    case VelocityKey(caller) => caller
    case SpendKey(caller) => caller
    case LastLocKey(caller) => caller
    case SeenKey(id) => id
    case AlertedKey(rule, caller) => RuleCaller(rule, caller)
  }

  lemma KeyStringSplits(key: Key)
    ensures KeyString(key) == Family(key) + Rest(key)
    ensures KeyString(key)[0] == Family(key)[0] && KeyString(key)[1] == Family(key)[1]
  {
    if key.AlertedKey? {
      assert "alerted:" + RuleName(key.rule) + ":" + key.caller == "alerted:" + RuleCaller(key.rule, key.caller);
    }
  }

  /** No two keys, of the same family or of different ones, are spelled alike. */
  lemma KeyStringInjective(key: Key, key': Key)
    requires KeyString(key) == KeyString(key')
    ensures key == key'
  {
    KeyStringSplits(key);
    KeyStringSplits(key');
    SuffixInjective(Family(key), Rest(key), Rest(key'));
    if key.AlertedKey? {
      RuleCallerInjective(key.rule, key.caller, key'.rule, key'.caller);
    }
  }

  type FlatStore = map<string, Entry>

  function Spelled(store: Store): set<string> {
    set key | key in store :: KeyString(key)
  }

  ghost function KeyOf(store: Store, s: string): (key: Key)
    requires s in Spelled(store)
    ensures key in store && KeyString(key) == s
  {
    var key :| key in store && KeyString(key) == s;
    key
  }

  /** The store as Redis sees it. */
  ghost function Flatten(store: Store): FlatStore {
    map s | s in Spelled(store) :: store[KeyOf(store, s)]
  }

  /** Looking a key up by its string finds exactly what the typed store holds. */
  lemma FlatGet(store: Store, key: Key)
    ensures KeyString(key) in Flatten(store) <==> key in store
    ensures key in store ==> Flatten(store)[KeyString(key)] == store[key]
  {
    if KeyString(key) in Flatten(store) {
      KeyStringInjective(KeyOf(store, KeyString(key)), key);
    }
  }

  /** Writing through the string changes that one typed key and no other. */
  lemma FlatSet(store: Store, key: Key, e: Entry)
    ensures Flatten(store[key := e]) == Flatten(store)[KeyString(key) := e]
  {
    var s := KeyString(key);
    assert key in store[key := e];
    assert Spelled(store[key := e]) == Spelled(store) + {s} by {
      forall t | t in Spelled(store) ensures t in Spelled(store[key := e]) {
        assert KeyOf(store, t) in store[key := e];
      }
    }
    forall t | t in Spelled(store) + {s}
      ensures Flatten(store[key := e])[t] == Flatten(store)[s := e][t]
    {
      var k := KeyOf(store[key := e], t);
      FlatGet(store[key := e], k);
      FlatGet(store, k);
      if t == s {
        KeyStringInjective(k, key);
      }
    }
  }
}
