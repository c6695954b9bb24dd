/** The spend window's members: the record id and the cost, printed with four decimals, around a bar
    (services/fraud/spend.go). Costs are exact rationals; the stored amount is a whole number of 1/10000 units. */
module Spend {
  import opened Cdr

  // ---- rounding -------------------------------------------------------------------------------------------

  /** Rounding to the nearest integer, ties to even. */
  function Round(x: real): (n: int)
    ensures x - 0.5 <= n as real <= x + 0.5
  {
    var low := x.Floor;
    var rest := x - low as real;
    if rest < 0.5 || (rest == 0.5 && low % 2 == 0) then low else low + 1
  }

  /** A cost in units of 1/10000, as strconv.FormatFloat(cost, 'f', 4, 64) rounds it. */
  function Units(cost: real): int {
    Round(cost * 10000.0)
  }

  /** The cost of a premium call. */
  function Cost(durationSec: int, ratePerMin: real): real {
    durationSec as real / 60.0 * ratePerMin
  }

  /** Seconds times the rate per minute, over sixty. */
  lemma CostByTheMinute(durationSec: int, ratePerMin: real)
    ensures Cost(durationSec, ratePerMin) * 60.0 == durationSec as real * ratePerMin
  {
  }

  ghost predicate Near(x: real, y: real, slack: real) {
    -slack <= x - y <= slack
  }

  /** The nearest whole number of units, and of two equally near ones the even one. */
  lemma UnitsRoundHalfEven(cost: real)
    ensures cost * 10000.0 - 0.5 <= Units(cost) as real <= cost * 10000.0 + 0.5
    ensures (Units(cost) as real - cost * 10000.0 == 0.5 || cost * 10000.0 - Units(cost) as real == 0.5) ==> Units(cost) % 2 == 0
  {
  }

  /** At a rate of whole cents the stored cost is off by at most a third of a unit. */
  lemma CentRatesRoundClosely(durationSec: int, cents: int)
    ensures var cost := Cost(durationSec, cents as real / 100.0);
            Near(Units(cost) as real / 10000.0, cost, 1.0 / 30000.0)
  {
    var thirds := durationSec * cents * 5;
    var cost := Cost(durationSec, cents as real / 100.0);
    assert cost * 10000.0 == thirds as real / 3.0;
    var q, r := thirds / 3, thirds % 3;
    assert cost * 10000.0 == q as real + r as real / 3.0;
    assert (cost * 10000.0).Floor == q;
  }

  // ---- decimal digits -------------------------------------------------------------------------------------

  function Digit(d: nat): char
    requires d < 10
  {
    '0' + d as char
  }

  predicate IsDigit(c: char) {
    '0' <= c <= '9'
  }

  predicate AllDigits(s: string) {
    forall i | 0 <= i < |s| :: IsDigit(s[i])
  }

  function Decimal(n: nat): (s: string)
    ensures s != [] && AllDigits(s)
  {
    if n < 10 then [Digit(n)] else Decimal(n / 10) + [Digit(n % 10)]
  }

  function FourDigits(n: nat): (s: string)
    requires n < 10000
    ensures |s| == 4 && AllDigits(s)
  {
    [Digit(n / 1000), Digit(n / 100 % 10), Digit(n / 10 % 10), Digit(n % 10)]
  }

  function Number(s: string): nat
    requires AllDigits(s)
  {
    if s == [] then 0 else 10 * Number(s[..|s| - 1]) + (s[|s| - 1] - '0') as nat
  }

  lemma {:induction false} NumberDecimal(n: nat)
    ensures Number(Decimal(n)) == n
  {
    if n >= 10 {
      var s := Decimal(n);
      assert s[..|s| - 1] == Decimal(n / 10);
      NumberDecimal(n / 10);
    } else {
      assert Number([]) == 0;
    }
  }

  /** One more digit. */
  lemma NumberOneMore(s: string, n: nat)
    requires AllDigits(s) && Number(s) == n / 10
    ensures AllDigits(s + [Digit(n % 10)]) && Number(s + [Digit(n % 10)]) == n
  {
    assert (s + [Digit(n % 10)])[..|s|] == s;
  }

  lemma DivideByTens(n: nat)
    ensures n / 10 / 10 == n / 100 && n / 100 / 10 == n / 1000
  {
  }

  lemma NumberFourDigits(n: nat)
    requires n < 10000
    ensures Number(FourDigits(n)) == n
  {
    var a, b, d, e := Digit(n / 1000), Digit(n / 100 % 10), Digit(n / 10 % 10), Digit(n % 10);
    DivideByTens(n);
    assert n / 1000 % 10 == n / 1000 && n / 1000 / 10 == 0;
    NumberOneMore([], n / 1000);
    assert [] + [a] == [a];
    NumberOneMore([a], n / 100);
    assert [a] + [b] == [a, b];
    NumberOneMore([a, b], n / 10);
    assert [a, b] + [d] == [a, b, d];
    NumberOneMore([a, b, d], n);
    assert [a, b, d] + [e] == FourDigits(n);
  }

  // ---- printing and parsing an amount ---------------------------------------------------------------------

  function Print(units: int): (s: string)
    ensures '|' !in s
  {
    var size := if units < 0 then -units else units;
    (if units < 0 then "-" else "") + Decimal(size / 10000) + "." + FourDigits(size % 10000)
  }

  function ParseUnsigned(s: string): Option<int> {
    if |s| < 6 || s[|s| - 5] != '.' || !AllDigits(s[..|s| - 5]) || !AllDigits(s[|s| - 4..]) then None
    else Some(Number(s[..|s| - 5]) * 10000 + Number(s[|s| - 4..]))
  }

  /** The part of strconv.ParseFloat this needs: an optional sign, digits, a point and four digits. */
  function Parse(s: string): Option<int> {
    if s != [] && s[0] == '-' then
      match ParseUnsigned(s[1..])
      case None => None
      case Some(units) => Some(-units)
    else ParseUnsigned(s)
  }

  /** The text of a non-negative amount. */
  function Unsigned(size: nat): string {
    Decimal(size / 10000) + "." + FourDigits(size % 10000)
  }

  lemma ParseUnsignedBack(size: nat)
    ensures ParseUnsigned(Unsigned(size)) == Some(size)
    ensures Unsigned(size) != [] && IsDigit(Unsigned(size)[0])
  {
    var whole, part, s := Decimal(size / 10000), FourDigits(size % 10000), Unsigned(size);
    assert s[..|s| - 5] == whole && s[|s| - 4..] == part && s[0] == whole[0];
    NumberDecimal(size / 10000);
    NumberFourDigits(size % 10000);
  }

  lemma ParsePrint(units: int)
    ensures Parse(Print(units)) == Some(units)
  {
    var size := if units < 0 then -units else units;
    ParseUnsignedBack(size);
    if units < 0 {
      assert Print(units)[1..] == Unsigned(size);
    } else {
      assert Print(units) == Unsigned(size);
    }
  }

  /** What the text of an amount looks like. */
  lemma PrintLooksRight()
    ensures Print(80000) == "8.0000" && Print(-25) == "-0.0025"
  {
    assert Decimal(8) == "8" && Decimal(0) == "0";
    assert FourDigits(0) == "0000" && FourDigits(25) == "0025";
  }

  // ---- members --------------------------------------------------------------------------------------------

  function Member(id: string, units: int): string {
    id + "|" + Print(units)
  }

  /** strings.LastIndex(s, "|"), or -1. */
  function LastBar(s: string): (i: int)
    ensures -1 <= i < |s|
    ensures i >= 0 ==> s[i] == '|'
    ensures forall j | i < j < |s| :: s[j] != '|'
  {
    if s == [] then -1 else if s[|s| - 1] == '|' then |s| - 1 else LastBar(s[..|s| - 1])
  }

  /** The amount the summing loop reads off a member; members it cannot read count for nothing. */
  function AmountOf(member: string): int {
    var i := LastBar(member);
    if i < 0 then 0
    else
      match Parse(member[i + 1..])
      case None => 0
      case Some(units) => units
  }

  /** Splitting at the last bar recovers both halves, whatever bars the record id contains. */
  lemma MemberSplits(id: string, units: int)
    ensures LastBar(Member(id, units)) == |id|
    ensures Member(id, units)[..|id|] == id && Parse(Member(id, units)[|id| + 1..]) == Some(units)
    ensures AmountOf(Member(id, units)) == units
  {
    var m := Member(id, units);
    assert m[|id|] == '|' && m[..|id|] == id && m[|id| + 1..] == Print(units);
    ParsePrint(units);
    assert forall j | |id| < j < |m| :: m[j] == Print(units)[j - |id| - 1];
  }

  lemma MemberInjective(id: string, units: int, id': string, units': int)
    requires Member(id, units) == Member(id', units')
    ensures id == id' && units == units'
  {
    MemberSplits(id, units);
    MemberSplits(id', units');
  }

  // ---- sums over a window ---------------------------------------------------------------------------------

  /** The total of a set of members, in units. */
  ghost function Total(members: set<string>): int {
    if members == {} then 0
    else
      var m :| m in members;
      AmountOf(m) + Total(members - {m})
  }

  lemma {:induction false} TotalRemove(members: set<string>, m: string)
    requires m in members
    ensures Total(members) == AmountOf(m) + Total(members - {m})
  {
    var n :| n in members && Total(members) == AmountOf(n) + Total(members - {n});
    if n != m {
      TotalRemove(members - {n}, m);
      TotalRemove(members - {m}, n);
      assert members - {n} - {m} == members - {m} - {n};
    }
  }

  /** The window total premiumSpendInWindow returns. */
  ghost function SpendOf(members: set<string>): real {
    Total(members) as real / 10000.0
  }

  function Distinct(members: seq<string>): set<string> {
    set m | m in members
  }

  lemma SumStep(members: seq<string>, k: nat)
    requires forall i, j | 0 <= i < j < |members| :: members[i] != members[j]
    requires k < |members|
    ensures Total(Distinct(members[..k + 1])) == Total(Distinct(members[..k])) + AmountOf(members[k])
  {
    var before, now := Distinct(members[..k]), Distinct(members[..k + 1]);
    assert members[..k + 1] == members[..k] + [members[k]];
    assert now - {members[k]} == before;
    TotalRemove(now, members[k]);
  }

  /** Reading the amount off a member, if it has one. */
  method ReadAmount(member: string) returns (units: Option<int>)
    ensures AmountOf(member) == match units case None => 0 case Some(u) => u
  {
    var i := LastBar(member);
    units := if i >= 0 then Parse(member[i + 1..]) else None;
  }

  /** The summing loop over ZRANGE's reply, in whatever order the members come. */
  method SumMembers(members: seq<string>) returns (sum: real)
    requires forall i, j | 0 <= i < j < |members| :: members[i] != members[j]
    ensures sum == SpendOf(Distinct(members))
  {
    sum := 0.0;
    assert Distinct(members[..0]) == {};
    for k := 0 to |members|
      invariant sum == Total(Distinct(members[..k])) as real / 10000.0
    {
      SumStep(members, k);
      var units := ReadAmount(members[k]);
      if units.Some? {
        sum := sum + units.value as real / 10000.0;
      }
    }
    assert members[..|members|] == members;
  }

  /** The exact total of a map from record ids to costs, as the playground keeps it. */
  ghost function ExactTotal(costs: map<string, real>): real {
    if costs == map[] then 0.0
    else
      var id :| id in costs;
      costs[id] + ExactTotal(costs - {id})
  }

  lemma {:induction false} ExactTotalRemove(costs: map<string, real>, id: string)
    requires id in costs
    ensures ExactTotal(costs) == costs[id] + ExactTotal(costs - {id})
  {
    var n :| n in costs && ExactTotal(costs) == costs[n] + ExactTotal(costs - {n});
    if n != id {
      ExactTotalRemove(costs - {n}, id);
      ExactTotalRemove(costs - {id}, n);
      assert costs - {n} - {id} == costs - {id} - {n};
    }
  }

  /** The members that stand for a map of costs. */
  function MembersOf(costs: map<string, real>): set<string> {
    set id | id in costs :: Member(id, Units(costs[id]))
  }

  lemma MembersOfRemove(costs: map<string, real>, id: string)
    requires id in costs
    ensures Member(id, Units(costs[id])) in MembersOf(costs)
    ensures MembersOf(costs - {id}) == MembersOf(costs) - {Member(id, Units(costs[id]))}
  {
    var m := Member(id, Units(costs[id]));
    forall n | n in MembersOf(costs) - {m} ensures n in MembersOf(costs - {id}) {
      var i :| i in costs && n == Member(i, Units(costs[i]));
      assert i in costs - {id};
    }
    forall n | n in MembersOf(costs - {id}) ensures n in MembersOf(costs) - {m} {
      var i :| i in costs - {id} && n == Member(i, Units((costs - {id})[i]));
      if n == m {
        MemberInjective(i, Units(costs[i]), id, Units(costs[id]));
      }
    }
  }

  ghost predicate StoredNear(costs: map<string, real>, slack: real) {
    forall id | id in costs :: Near(Units(costs[id]) as real / 10000.0, costs[id], slack)
  }

  lemma TakeOut(costs: map<string, real>, id: string)
    requires id in costs
    ensures var rest, units := costs - {id}, Units(costs[id]);
            && |costs| == |rest| + 1
            && SpendOf(MembersOf(costs)) == units as real / 10000.0 + SpendOf(MembersOf(rest))
            && ExactTotal(costs) == costs[id] + ExactTotal(rest)
  {
    assert costs.Keys == (costs - {id}).Keys + {id};
    MembersOfRemove(costs, id);
    MemberSplits(id, Units(costs[id]));
    TotalRemove(MembersOf(costs), Member(id, Units(costs[id])));
    ExactTotalRemove(costs, id);
  }

  /** n times the slack. */
  function Times(slack: real, n: nat): real {
    if n == 0 then 0.0 else slack + Times(slack, n - 1)
  }

  lemma Distribute(x: real, y: real)
    ensures x * (y + 1.0) == x * y + x
  {
  }

  lemma {:induction false} TimesIsProduct(slack: real, n: nat)
    ensures Times(slack, n) == slack * n as real
  {
    if n > 0 {
      TimesIsProduct(slack, n - 1);
      Distribute(slack, (n - 1) as real);
    }
  }

  lemma NearSum(x: real, y: real, a: real, b: real, x': real, y': real, s: real, s': real)
    requires Near(x, y, s) && Near(x', y', s') && a == x + x' && b == y + y'
    ensures Near(a, b, s + s')
  {
  }

  /** If every single cost is stored within `slack`, the window total is within the number of calls times that. */
  lemma {:induction false} TotalsAgree(costs: map<string, real>, slack: real)
    requires StoredNear(costs, slack)
    ensures Near(SpendOf(MembersOf(costs)), ExactTotal(costs), Times(slack, |costs|))
    decreases |costs|
  {
    if costs == map[] {
      assert MembersOf(costs) == {};
    } else {
      var id :| id in costs;
      var rest := costs - {id};
      TakeOut(costs, id);
      TotalsAgree(rest, slack);
      NearSum(Units(costs[id]) as real / 10000.0, costs[id], SpendOf(MembersOf(costs)), ExactTotal(costs),
              SpendOf(MembersOf(rest)), ExactTotal(rest), slack, Times(slack, |rest|));
    }
  }

  datatype PremiumCall = PremiumCall(durationSec: int, cents: int)

  function CostsOf(calls: map<string, PremiumCall>): map<string, real> {
    map id | id in calls :: Cost(calls[id].durationSec, calls[id].cents as real / 100.0)
  }

  lemma CostsRoundClosely(calls: map<string, PremiumCall>)
    ensures StoredNear(CostsOf(calls), 1.0 / 30000.0)
  {
    forall id | id in calls
      ensures Near(Units(CostsOf(calls)[id]) as real / 10000.0, CostsOf(calls)[id], 1.0 / 30000.0)
    {
      CentRatesRoundClosely(calls[id].durationSec, calls[id].cents);
    }
  }

  /** What the calls cost: seconds times cents per minute, over 60 and over 100. */
  ghost function Owed(calls: map<string, PremiumCall>): real {
    if calls == map[] then 0.0
    else
      var id :| id in calls;
      (calls[id].durationSec * calls[id].cents) as real / 6000.0 + Owed(calls - {id})
  }

  lemma CostInCents(durationSec: int, cents: int)
    ensures Cost(durationSec, cents as real / 100.0) == (durationSec * cents) as real / 6000.0
  {
    var rate := cents as real / 100.0;
    assert durationSec as real * rate == (durationSec * cents) as real / 100.0;
  }

  lemma CostsOfRemove(calls: map<string, PremiumCall>, id: string)
    requires id in calls
    ensures id in CostsOf(calls) && CostsOf(calls)[id] == (calls[id].durationSec * calls[id].cents) as real / 6000.0
    ensures CostsOf(calls) - {id} == CostsOf(calls - {id})
  {
    CostInCents(calls[id].durationSec, calls[id].cents);
  }

  lemma {:induction false} OwedIsTotal(calls: map<string, PremiumCall>)
    ensures Owed(calls) == ExactTotal(CostsOf(calls))
    decreases |calls|
  {
    if calls == map[] {
      assert CostsOf(calls) == map[];
    } else {
      var id :| id in calls && Owed(calls) == (calls[id].durationSec * calls[id].cents) as real / 6000.0 + Owed(calls - {id});
      CostsOfRemove(calls, id);
      ExactTotalRemove(CostsOf(calls), id);
      OwedIsTotal(calls - {id});
    }
  }

  /** The window total of n calls at cent rates differs from what they cost by at most n/3 of a unit. */
  lemma WindowTotalIsClose(calls: map<string, PremiumCall>)
    ensures Near(SpendOf(MembersOf(CostsOf(calls))), Owed(calls), |calls| as real / 30000.0)
  {
    CostsRoundClosely(calls);
    OwedIsTotal(calls);
    TotalsAgree(CostsOf(calls), 1.0 / 30000.0);
    TimesIsProduct(1.0 / 30000.0, |calls|);
    assert CostsOf(calls).Keys == calls.Keys;
    assert |CostsOf(calls)| == |CostsOf(calls).Keys| == |calls.Keys| == |calls|;
  }
}
