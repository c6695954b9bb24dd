/** What handling each record exactly once, in log order, would do: no faults, no expiry, no cooldown. */
module Ideal {
  import opened Cdr
  import opened Rules
  import opened Windows
  import opened Redis
  import opened Pipeline

  /** The lasting state, without deadlines and without the cooldown flags. */
  type Facts = map<Key, Value>

  predicate SameFact(m: Facts, m': Facts, key: Key) {
    (key in m <==> key in m') && (key in m ==> m[key] == m'[key])
  }

  function WindowIn(m: Facts, key: Key): Window {
    if key in m then MembersIn(m[key]) else map[]
  }

  function Counted(c: Config, m: Facts, rec: Record): Facts {
    var key := VelocityKey(rec.caller);
    m[key := Members(Slide(WindowIn(m, key), rec.id, rec.Ms(), c.velocityWindowMs))]
  }

  function Located(c: Config, m: Facts, rec: Record): Facts {
    if rec.cell in c.cells
    then m[LastLocKey(rec.caller) := Place(Location(c.cells[rec.cell], rec.startNs))]
    else m
  }

  function Charged(c: Config, m: Facts, rec: Record): Facts {
    var key, t := SpendKey(rec.caller), c.TariffOf(rec);
    if t.premium
    then m[key := Members(Slide(WindowIn(m, key), MemberFor(rec, t.ratePerMin), rec.Ms(), c.irsfWindowMs))]
    else m
  }

  /** The first `stage` of a record's three state changes. */
  function Partly(c: Config, m: Facts, rec: Record, stage: nat): Facts
    requires stage <= 3
  {
    if stage == 0 then m
    else if stage == 1 then Counted(c, m, rec)
    else if stage == 2 then Located(c, Counted(c, m, rec), rec)
    else Charged(c, Located(c, Counted(c, m, rec), rec), rec)
  }

  function Once(c: Config, m: Facts, rec: Record): Facts {
    if SeenKey(rec.id) in m then m else Partly(c, m, rec, 3)[SeenKey(rec.id) := Flag]
  }

  /** The state after the first n messages. */
  function After(c: Config, n: nat): Facts
    requires n <= |c.log|
  {
    if n == 0 then map[]
    else match c.log[n - 1]
      case Unparseable => After(c, n - 1)
      case Parsed(rec) => Once(c, After(c, n - 1), rec)
  }

  /** Position i holds a record, and no earlier message carried its id. */
  predicate Fresh(c: Config, i: nat) {
    i < |c.log| && c.log[i].Parsed? && SeenKey(c.log[i].rec.id) !in After(c, i)
  }

  /** A rule's verdict on a record that is handled in state m. */
  ghost function Verdict(c: Config, m: Facts, rec: Record, rule: Rule): Option<real> {
    match rule
    case Velocity => VelocityVerdict(c.velocityThreshold, |WindowIn(Counted(c, m, rec), VelocityKey(rec.caller))|)
    case ImpossibleTravel =>
      var key := LastLocKey(rec.caller);
      if rec.cell in c.cells && key in m
      then LocationVerdict(c, m[key], c.cells[rec.cell], rec.startNs)
      else None
    case Irsf =>
      if c.TariffOf(rec).premium
      then IrsfVerdict(c.irsfThreshold, Spend.SpendOf(WindowIn(Charged(c, m, rec), SpendKey(rec.caller)).Keys))
      else None
  }

  ghost function VerdictAt(c: Config, i: nat, rule: Rule): Option<real>
    requires i < |c.log| && c.log[i].Parsed?
  {
    Verdict(c, After(c, i), c.log[i].rec, rule)
  }

  // ---- redoing a state change is harmless -----------------------------------------------------------------

  lemma RecountIsHarmless(c: Config, m: Facts, rec: Record, stage: nat)
    requires 1 <= stage <= 3 && c.velocityWindowMs > 0
    ensures Counted(c, Partly(c, m, rec, stage), rec) == Partly(c, m, rec, stage)
    ensures WindowIn(Partly(c, m, rec, stage), VelocityKey(rec.caller)) == WindowIn(Counted(c, m, rec), VelocityKey(rec.caller))
  {
    SlideTwice(WindowIn(m, VelocityKey(rec.caller)), rec.id, rec.Ms(), c.velocityWindowMs);
  }

  lemma RelocateIsHarmless(c: Config, m: Facts, rec: Record, stage: nat)
    requires 2 <= stage <= 3
    ensures Located(c, Partly(c, m, rec, stage), rec) == Partly(c, m, rec, stage)
  {
  }

  lemma RechargeIsHarmless(c: Config, m: Facts, rec: Record, stage: nat)
    requires 2 <= stage <= 3 && c.irsfWindowMs > 0
    ensures Charged(c, Partly(c, m, rec, stage), rec) == Partly(c, m, rec, 3)
    ensures WindowIn(Partly(c, m, rec, 3), SpendKey(rec.caller)) == WindowIn(Charged(c, m, rec), SpendKey(rec.caller))
  {
    if c.TariffOf(rec).premium {
      SlideTwice(WindowIn(m, SpendKey(rec.caller)), MemberFor(rec, c.TariffOf(rec).ratePerMin), rec.Ms(), c.irsfWindowMs);
    }
  }

  lemma PartlyKeepsSeen(c: Config, m: Facts, rec: Record, stage: nat, id: string)
    requires stage <= 3
    ensures SeenKey(id) in Partly(c, m, rec, stage) <==> SeenKey(id) in m
  {
  }

  /** After n messages the ids of all of them are marked. */
  lemma {:induction false} SeenBelow(c: Config, n: nat, i: nat)
    requires i < n <= |c.log| && c.log[i].Parsed?
    ensures SeenKey(c.log[i].rec.id) in After(c, n)
  {
    if i < n - 1 {
      SeenBelow(c, n - 1, i);
    }
    if c.log[n - 1].Parsed? {
      PartlyKeepsSeen(c, After(c, n - 1), c.log[n - 1].rec, 3, c.log[i].rec.id);
    }
  }
}
