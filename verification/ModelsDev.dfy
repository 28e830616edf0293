/** Choosing one provider's price per model from the models.dev catalogue. */
module ModelsDev {
  import opened Wrappers
  import opened Text
  import opened Quota
  import opened PricingDiff

  datatype Cost = Cost(input: Option<Float>, output: Option<Float>, cacheRead: Option<Float>)

  datatype Candidate = Candidate(provider: string, input: real, output: Option<real>, cacheRead: Option<real>)

  /** Provider, then model. */
  type Catalogue = map<string, map<string, Cost>>

  predicate ValidCost(v: Float) { v.Fin? && v.v >= 0.0 }

  /** buildModelsDevCandidate */
  function BuildCandidate(provider: string, cost: Cost): Option<Candidate> {
    if cost.input.None? || !ValidCost(cost.input.value) then None
    else if cost.output.Some? && !ValidCost(cost.output.value) then None
    else
      var input := cost.input.value.v;
      var output := if cost.output.Some? then Some(cost.output.value.v) else None;
      if input == 0.0 && output.Some? && output.value > 0.0 then None
      else
        Some(Candidate(provider, input, output,
          if cost.cacheRead.Some? && ValidCost(cost.cacheRead.value) then Some(cost.cacheRead.value.v) else None))
  }

  /** shouldReplaceModelsDevCandidate */
  predicate ShouldReplace(current: Candidate, next: Candidate) {
    if (current.input > 0.0) != (next.input > 0.0) then next.input > 0.0
    else if next.input > 0.0 && !NearlyEqual(next.input, current.input) then next.input < current.input
    else Less(next.provider, current.provider)
  }

  // ------------------------------------------------------------------ the selection

  function Offer(c: Catalogue, provider: string, m: string): Option<Candidate> {
    if provider in c && m in c[provider] then BuildCandidate(provider, c[provider][m]) else None
  }

  function Better(current: Option<Candidate>, offer: Option<Candidate>): Option<Candidate> {
    if offer.None? then current
    else if current.None? || ShouldReplace(current.value, offer.value) then offer
    else current
  }

  /** The candidate kept for a model after the first k providers. */
  function Select(c: Catalogue, providers: seq<string>, k: nat, m: string): Option<Candidate>
    requires k <= |providers|
  {
    if k == 0 then None else Better(Select(c, providers, k - 1, m), Offer(c, providers[k - 1], m))
  }

  type Selection = map<string, Candidate>

  ghost predicate Selected(s: Selection, c: Catalogue, providers: seq<string>, k: nat)
    requires k <= |providers|
  {
    forall m :: Entry(s, m) == Select(c, providers, k, m)
  }

  function Entry(s: Selection, m: string): Option<Candidate> { if m in s then Some(s[m]) else None }

  /** One provider's turn: its models in any order. */
  method AddProvider(s: Selection, c: Catalogue, provider: string) returns (t: Selection)
    requires provider in c
    ensures forall m :: Entry(t, m) == Better(Entry(s, m), Offer(c, provider, m))
  {
    t := s;
    var rest := c[provider].Keys;
    while rest != {}
      invariant rest <= c[provider].Keys
      invariant forall m :: Entry(t, m) == if m in rest then Entry(s, m) else Better(Entry(s, m), Offer(c, provider, m))
    {
      var m :| m in rest;
      var offer := BuildCandidate(provider, c[provider][m]);
      rest := rest - {m};
      if offer.None? { continue; }
      if m !in t || ShouldReplace(t[m], offer.value) { t := t[m := offer.value]; }
    }
  }

  method SelectCandidates(c: Catalogue, providers: seq<string>) returns (s: Selection)
    requires forall p :: p in providers ==> p in c
    ensures Selected(s, c, providers, |providers|)
  {
    s := map[];
    for k := 0 to |providers|
      invariant Selected(s, c, providers, k)
    {
      s := AddProvider(s, c, providers[k]);
    }
  }

  // ------------------------------------------------------------------ what is selected

  ghost predicate Sorted(providers: seq<string>) {
    forall i, j :: 0 <= i < j < |providers| ==> Less(providers[i], providers[j])
  }

  /** The catalogue lists a usable cost: an input price, finite and not negative, an output price that is
      so too if there is one, and not free input with paid output. */
  predicate Usable(c: Catalogue, provider: string, m: string) {
    provider in c && m in c[provider] &&
    var cost := c[provider][m];
    && cost.input.Some? && cost.input.value.Fin? && cost.input.value.v >= 0.0
    && (cost.output.Some? ==>
          && cost.output.value.Fin? && cost.output.value.v >= 0.0
          && (cost.input.value.v == 0.0 ==> cost.output.value.v == 0.0))
  }

  predicate Offers(c: Catalogue, providers: seq<string>, i: nat, m: string)
    requires i < |providers|
  {
    Usable(c, providers[i], m)
  }

  /** The input price the catalogue lists. */
  function Price(c: Catalogue, providers: seq<string>, i: nat, m: string): real
    requires i < |providers| && Offers(c, providers, i, m)
  {
    c[providers[i]][m].input.value.v
  }

  /** An offer is made exactly for a usable cost, and carries that cost's own prices; a cache price is
      carried exactly when it is finite and not negative. */
  lemma OfferValid(c: Catalogue, provider: string, m: string)
    ensures Offer(c, provider, m).Some? <==> Usable(c, provider, m)
    ensures Usable(c, provider, m) ==>
      var o, cost := Offer(c, provider, m).value, c[provider][m];
      && o.provider == provider && o.input == cost.input.value.v
      && (o.output.Some? <==> cost.output.Some?) && (o.output.Some? ==> o.output.value == cost.output.value.v)
      && (o.cacheRead.Some? <==> cost.cacheRead.Some? && cost.cacheRead.value.Fin? && cost.cacheRead.value.v >= 0.0)
      && (o.cacheRead.Some? ==> o.cacheRead.value == cost.cacheRead.value.v)
  {
  }

  /** The selection s was made by provider j: nobody earlier offers as low a nonzero price, nobody at
      all undercuts it by the tolerance, and a free price wins only over free ones and as the first. */
  ghost predicate BestAt(c: Catalogue, providers: seq<string>, k: nat, m: string, j: nat)
    requires j < k <= |providers|
  {
    && Offers(c, providers, j, m)
    && (forall i :: 0 <= i < k && Offers(c, providers, i, m) && Price(c, providers, i, m) > 0.0 ==>
         Price(c, providers, j, m) > 0.0 && Price(c, providers, j, m) - Price(c, providers, i, m) < EPSILON)
    && (forall i :: 0 <= i < j && Offers(c, providers, i, m) && Price(c, providers, i, m) > 0.0 ==>
         Price(c, providers, j, m) < Price(c, providers, i, m))
    && (Price(c, providers, j, m) == 0.0 ==> forall i :: 0 <= i < j ==> !Offers(c, providers, i, m))
  }

  lemma {:induction false} SelectedIsBest(c: Catalogue, providers: seq<string>, k: nat, m: string)
    requires Sorted(providers) && k <= |providers|
    ensures Select(c, providers, k, m).None? <==> forall i :: 0 <= i < k ==> !Offers(c, providers, i, m)
    ensures Select(c, providers, k, m).Some? ==>
      exists j :: 0 <= j < k && Select(c, providers, k, m) == Offer(c, providers[j], m) && BestAt(c, providers, k, m, j)
  {
    if k == 0 { return; }
    SelectedIsBest(c, providers, k - 1, m);
    var before, offer := Select(c, providers, k - 1, m), Offer(c, providers[k - 1], m);
    OfferValid(c, providers[k - 1], m);
    if before.None? {
      if offer.Some? { assert BestAt(c, providers, k, m, k - 1); }
    } else {
      var j :| 0 <= j < k - 1 && before == Offer(c, providers[j], m) && BestAt(c, providers, k - 1, m, j);
      OfferValid(c, providers[j], m);
      BestStep(c, providers, k, m, j);
    }
  }

  lemma BestStep(c: Catalogue, providers: seq<string>, k: nat, m: string, j: nat)
    requires Sorted(providers) && j < k - 1 < |providers|
    requires BestAt(c, providers, k - 1, m, j)
    ensures
      var offer := Offer(c, providers[k - 1], m);
      if offer.Some? && ShouldReplace(Offer(c, providers[j], m).value, offer.value)
      then BestAt(c, providers, k, m, k - 1) else BestAt(c, providers, k, m, j)
  {
    var offer := Offer(c, providers[k - 1], m);
    OfferValid(c, providers[j], m);
    OfferValid(c, providers[k - 1], m);
    if offer.Some? {
      LessAsymmetric(providers[j], providers[k - 1]);
    }
  }

  // ------------------------------------------------------- why the providers are sorted

  /** In descending provider order the near-equality tie-break drifts: three prices, each within the
      tolerance of the next, end at one that the first undercuts by more than the tolerance. */
  lemma UnsortedDrifts(a: Candidate, b: Candidate, c: Candidate)
    requires a.input == 1.0 && b.input == 1.0 + EPSILON * 0.6 && c.input == 1.0 + EPSILON * 1.2
    requires Less(c.provider, b.provider) && Less(b.provider, a.provider)
    ensures Better(Better(Better(None, Some(a)), Some(b)), Some(c)) == Some(c)
    ensures c.input - a.input > EPSILON
  {
  }
}
