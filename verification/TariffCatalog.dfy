/** Longest-prefix tariff lookup (internal/tariff). */
module TariffCatalog {

  datatype Tariff = Tariff(prefix: string, ratePerMin: real, premium: bool)

  /** Used for destinations that match no known prefix. */
  const FALLBACK := Tariff("", 1.0, false)

  predicate HasPrefix(s: string, prefix: string) {
    prefix <= s
  }

  /** The entry the scan prefers after seeing the whole catalog: the first of the longest matches. */
  function Best(catalog: seq<Tariff>, msisdn: string): Tariff {
    if catalog == [] then FALLBACK
    else
      var best := Best(catalog[..|catalog| - 1], msisdn);
      var t := catalog[|catalog| - 1];
      if HasPrefix(msisdn, t.prefix) && |t.prefix| > |best.prefix| then t else best
  }

  method Lookup(catalog: seq<Tariff>, msisdn: string) returns (best: Tariff)
    ensures best == Best(catalog, msisdn)
    ensures LongestMatch(catalog, msisdn, best)
    ensures Unlisted(catalog, msisdn) ==> best.ratePerMin == 1.0 && !best.premium
  {
    best := FALLBACK;
    for i := 0 to |catalog|
      invariant best == Best(catalog[..i], msisdn)
    {
      assert catalog[..i + 1][..i] == catalog[..i];
      if HasPrefix(msisdn, catalog[i].prefix) && |catalog[i].prefix| > |best.prefix| {
        best := catalog[i];
      }
    }
    assert catalog[..|catalog|] == catalog;
    BestIsLongest(catalog, msisdn);
  }

  /** What longest-prefix match promises, without reference to the order of the scan: of the entries that begin the
      number a longest one, and where only an empty one does, one currency unit a minute and no premium. */
  ghost predicate LongestMatch(catalog: seq<Tariff>, msisdn: string, r: Tariff) {
    && r.prefix <= msisdn
    && (forall t | t in catalog && t.prefix <= msisdn :: |t.prefix| <= |r.prefix|)
    && (if r.prefix == "" then r == Tariff("", 1.0, false) else r in catalog)
  }

  /** No entry begins the number, an empty one aside. */
  predicate Unlisted(catalog: seq<Tariff>, msisdn: string) {
    forall t | t in catalog && t.prefix <= msisdn :: t.prefix == ""
  }

  lemma UnlistedIsOrdinary(catalog: seq<Tariff>, msisdn: string)
    requires Unlisted(catalog, msisdn)
    ensures Best(catalog, msisdn).ratePerMin == 1.0 && !Best(catalog, msisdn).premium
  {
    BestIsLongest(catalog, msisdn);
  }

  predicate DistinctPrefixes(catalog: seq<Tariff>) {
    forall i, j | 0 <= i < j < |catalog| :: catalog[i].prefix != catalog[j].prefix
  }

  lemma {:induction false} BestIsLongest(catalog: seq<Tariff>, msisdn: string)
    ensures LongestMatch(catalog, msisdn, Best(catalog, msisdn))
  {
    if catalog != [] {
      var init := catalog[..|catalog| - 1];
      BestIsLongest(init, msisdn);
      assert catalog == init + [catalog[|catalog| - 1]];
    }
  }

  /** With distinct prefixes there is only one longest match. */
  lemma LongestMatchUnique(catalog: seq<Tariff>, msisdn: string, r: Tariff, r': Tariff)
    requires DistinctPrefixes(catalog)
    requires LongestMatch(catalog, msisdn, r) && LongestMatch(catalog, msisdn, r')
    ensures r == r'
  {
    if r != FALLBACK && r' != FALLBACK {
      assert |r.prefix| == |r'.prefix|;
      assert r.prefix == msisdn[..|r.prefix|] == r'.prefix;
    }
  }

  /** So the result does not depend on how the catalog is ordered. */
  lemma LookupIgnoresOrder(catalog: seq<Tariff>, catalog': seq<Tariff>, msisdn: string)
    requires DistinctPrefixes(catalog) && multiset(catalog) == multiset(catalog')
    ensures Best(catalog, msisdn) == Best(catalog', msisdn)
  {
    BestIsLongest(catalog, msisdn);
    BestIsLongest(catalog', msisdn);
    forall t ensures t in catalog <==> t in catalog' {
      assert t in multiset(catalog) <==> t in multiset(catalog');
    }
    LongestMatchUnique(catalog, msisdn, Best(catalog, msisdn), Best(catalog', msisdn));
  }

  /** Without distinct prefixes it does: the earlier of two equal prefixes wins. */
  lemma OrderMattersForEqualPrefixes()
    ensures var a, b := Tariff("+9", 1.0, true), Tariff("+9", 2.0, false);
            && multiset([a, b]) == multiset([b, a])
            && Best([a, b], "+90") == a && Best([b, a], "+90") == b
  {
    var a, b := Tariff("+9", 1.0, true), Tariff("+9", 2.0, false);
    assert [a, b][..1] == [a] && [b, a][..1] == [b] && [a][..0] == [] && [b][..0] == [];
    assert HasPrefix("+90", "+9");
    assert Best([a], "+90") == a && Best([b], "+90") == b;
  }
}
