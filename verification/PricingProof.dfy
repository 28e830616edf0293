/** What the difference report means, channel by channel. */
module PricingProof {
  import opened Wrappers
  import opened PricingDiff

  ghost predicate DistinctNames(x: Input) {
    forall i, j :: 0 <= i < j < |x.channels| ==> x.channels[i].name != x.channels[j].name
  }

  /** The channel shows a value of its own somewhere. */
  ghost predicate ChannelShows(x: Input, i: nat)
    requires i < |x.channels|
  {
    exists f, m :: ShowsAt(x, i, f, m)
  }

  predicate ShowsAt(x: Input, i: nat, f: Field, m: string)
    requires i < |x.channels|
  {
    CellOf(x, i, f, m) != Nil && CellOf(x, i, f, m) != SAME
  }

  lemma OwnCell(x: Input, i: nat, f: Field, m: string)
    requires DistinctNames(x) && i < |x.channels|
    ensures
      var n := x.channels[i].name;
      && Latest(x, |x.channels|, n) == i
      && n in DraftItem(x, f, m).upstreams && DraftItem(x, f, m).upstreams[n] == CellOf(x, i, f, m)
      && n in DraftItem(x, f, m).confidence && DraftItem(x, f, m).confidence[n] == Trusted(x.channels[i].data, m)
  {
    var n := x.channels[i].name;
    assert n in Names(x);
  }

  /** Whoever shows a value makes the item drafted. */
  lemma ShownIsDrafted(x: Input, i: nat, f: Field, m: string)
    requires i < |x.channels| && ShowsAt(x, i, f, m)
    ensures Drafted(x, f, m)
  {
    SomeIsExists(x, |x.channels|, f, m);
    assert Gives(x, i, f, m) && Contradicts(x, i, f, m);
  }

  lemma ChannelDiffers(x: Input, i: nat)
    requires DistinctNames(x) && i < |x.channels|
    ensures x.channels[i].name in DifferingNames(x) <==> ChannelShows(x, i)
  {
    var n := x.channels[i].name;
    assert n in Names(x);
    if Differs(x, n) {
      var f, m :| Drafted(x, f, m) && Shows(DraftItem(x, f, m), n);
      OwnCell(x, i, f, m);
      assert ShowsAt(x, i, f, m);
    }
    if ChannelShows(x, i) {
      var f, m :| ShowsAt(x, i, f, m);
      ShownIsDrafted(x, i, f, m);
      OwnCell(x, i, f, m);
      assert Shows(DraftItem(x, f, m), n);
    }
  }

  /** The channel has a place in the report and its cell is more than agreement. */
  ghost predicate Disagrees(x: Input, i: nat, f: Field, m: string)
    requires i < |x.channels|
  {
    ChannelShows(x, i) && CellOf(x, i, f, m) != SAME
  }

  lemma NamedChannel(x: Input, f: Field, m: string, n: string) returns (i: nat)
    requires n in DraftItem(x, f, m).upstreams
    ensures i < |x.channels| && x.channels[i].name == n
  {
    i := Latest(x, |x.channels|, n);
  }

  lemma KeptDisagrees(x: Input, f: Field, m: string, n: string)
    requires DistinctNames(x) && n in DifferingNames(x)
    requires n in DraftItem(x, f, m).upstreams && DraftItem(x, f, m).upstreams[n] != SAME
    ensures exists i :: 0 <= i < |x.channels| && Disagrees(x, i, f, m)
  {
    var i := NamedChannel(x, f, m, n);
    ChannelDiffers(x, i);
    OwnCell(x, i, f, m);
    assert Disagrees(x, i, f, m);
  }

  lemma DisagreeingIsKept(x: Input, f: Field, m: string, i: nat)
    requires DistinctNames(x) && i < |x.channels| && Disagrees(x, i, f, m)
    ensures Kept(DraftItem(x, f, m), DifferingNames(x))
  {
    OwnCell(x, i, f, m);
    ChannelDiffers(x, i);
  }

  /** Membership for all values, nulls and the literal "same" included. */
  lemma ReportedExactly(x: Input, f: Field, m: string)
    requires DistinctNames(x)
    ensures Reported(x, f, m) <==> Drafted(x, f, m) && exists i :: 0 <= i < |x.channels| && Disagrees(x, i, f, m)
  {
    if Kept(DraftItem(x, f, m), DifferingNames(x)) {
      var n :| n in DraftItem(x, f, m).upstreams && n in DifferingNames(x) && DraftItem(x, f, m).upstreams[n] != SAME;
      KeptDisagrees(x, f, m, n);
    }
    if i :| 0 <= i < |x.channels| && Disagrees(x, i, f, m) { DisagreeingIsKept(x, f, m, i); }
  }

  /** Nothing uncontradicted is reported, and a contradicted field stays hidden exactly when every channel
      whose cell is more than agreement shows nothing of its own anywhere, as with nulls. */
  lemma HiddenIff(x: Input, f: Field, m: string)
    requires DistinctNames(x)
    ensures
      var contradicted := exists i :: 0 <= i < |x.channels| && Contradicts(x, i, f, m);
      && (Reported(x, f, m) ==> contradicted)
      && (contradicted ==>
            (!Reported(x, f, m) <==> forall i :: 0 <= i < |x.channels| && CellOf(x, i, f, m) != SAME ==> !ChannelShows(x, i)))
  {
    ReportedExactly(x, f, m);
    SomeIsExists(x, |x.channels|, f, m);
    if i :| 0 <= i < |x.channels| && Disagrees(x, i, f, m) {
      if Current(x, f, m) == Nil { assert Contradicts(x, i, f, m); }
    }
    if i :| 0 <= i < |x.channels| && Contradicts(x, i, f, m) { assert Gives(x, i, f, m); }
    assert forall i :: 0 <= i < |x.channels| ==>
      (Disagrees(x, i, f, m) <==> CellOf(x, i, f, m) != SAME && ChannelShows(x, i));
  }

  // ------------------------------------------------------------ ordinary values

  /** Channels have names of their own, and give neither null nor the marker itself. */
  ghost predicate Ordinary(x: Input) {
    && DistinctNames(x)
    && forall i, f, m :: 0 <= i < |x.channels| && Gives(x, i, f, m) ==>
         Given(x.channels[i].data, f, m).value != Nil && Given(x.channels[i].data, f, m).value != SAME
  }

  lemma ContradictionShows(x: Input, i: nat, f: Field, m: string)
    requires Ordinary(x) && i < |x.channels|
    ensures ShowsAt(x, i, f, m) <==> Contradicts(x, i, f, m)
    ensures Current(x, f, m) == Nil ==> (Contradicts(x, i, f, m) <==> Gives(x, i, f, m))
  {
    if Gives(x, i, f, m) { assert Given(x.channels[i].data, f, m).value != Nil; }
  }

  lemma DraftedIsContradicted(x: Input, f: Field, m: string)
    requires Ordinary(x)
    ensures Drafted(x, f, m) <==> exists i :: 0 <= i < |x.channels| && Contradicts(x, i, f, m)
  {
    SomeIsExists(x, |x.channels|, f, m);
    forall i | 0 <= i < |x.channels|
      ensures Current(x, f, m) == Nil ==> (Contradicts(x, i, f, m) <==> Gives(x, i, f, m))
    {
      ContradictionShows(x, i, f, m);
    }
  }

  /** A model and field are reported exactly when some channel gives a value there that the local
      settings lack or contradict. */
  lemma ReportedIffContradicted(x: Input, f: Field, m: string)
    requires Ordinary(x)
    ensures Reported(x, f, m) <==> exists i :: 0 <= i < |x.channels| && Contradicts(x, i, f, m)
  {
    DraftedIsContradicted(x, f, m);
    ReportedExactly(x, f, m);
    if i :| 0 <= i < |x.channels| && Contradicts(x, i, f, m) {
      ContradictionShows(x, i, f, m);
      assert ShowsAt(x, i, f, m);
      assert Disagrees(x, i, f, m);
    }
  }

  ghost predicate ContradictsSomewhere(x: Input, i: nat)
    requires i < |x.channels|
  {
    exists f, m :: Contradicts(x, i, f, m)
  }

  /** The channels a report may list are exactly those that contradict the local settings somewhere. */
  lemma ListedIffContradicts(x: Input, i: nat)
    requires Ordinary(x) && i < |x.channels|
    ensures x.channels[i].name in DifferingNames(x) <==> ContradictsSomewhere(x, i)
  {
    ChannelDiffers(x, i);
    forall f, m ensures ShowsAt(x, i, f, m) <==> Contradicts(x, i, f, m) { ContradictionShows(x, i, f, m); }
  }

  /** Every reported item lists all of them and nobody else. */
  lemma ListedChannels(x: Input, f: Field, m: string)
    ensures Narrowed(DraftItem(x, f, m), DifferingNames(x)).upstreams.Keys == DifferingNames(x)
    ensures Narrowed(DraftItem(x, f, m), DifferingNames(x)).confidence.Keys == DifferingNames(x)
  {
    LatestNamed(x);
  }

  /** Each with its own value, the agreement marker or nothing, and with its own trust. */
  lemma ListedValues(x: Input, f: Field, m: string, i: nat)
    requires Ordinary(x) && i < |x.channels| && ContradictsSomewhere(x, i)
    ensures
      var item, n := Narrowed(DraftItem(x, f, m), DifferingNames(x)), x.channels[i].name;
      && item.current == Current(x, f, m)
      && n in item.upstreams && item.upstreams[n] == Shown(x, i, f, m)
      && n in item.confidence && item.confidence[n] == Trusted(x.channels[i].data, m)
  {
    OwnCell(x, i, f, m);
    CellIsShown(x, i, f, m);
    ListedIffContradicts(x, i);
    NarrowedAt(DraftItem(x, f, m), DifferingNames(x), x.channels[i].name);
  }

  lemma NarrowedAt(item: Item, names: set<string>, n: string)
    requires n in names && n in item.upstreams && n in item.confidence
    ensures
      var narrowed := Narrowed(item, names);
      && n in narrowed.upstreams && narrowed.upstreams[n] == item.upstreams[n]
      && n in narrowed.confidence && narrowed.confidence[n] == item.confidence[n]
      && narrowed.current == item.current
  {
  }

  lemma CellIsShown(x: Input, i: nat, f: Field, m: string)
    requires i < |x.channels|
    ensures CellOf(x, i, f, m) == Shown(x, i, f, m)
  {
  }

  function Shown(x: Input, i: nat, f: Field, m: string): Value
    requires i < |x.channels|
  {
    if Contradicts(x, i, f, m) then Given(x.channels[i].data, f, m).value
    else if Gives(x, i, f, m) || Current(x, f, m) == Nil then SAME
    else Nil
  }

  /** The name of a channel that contradicts the local settings somewhere. */
  ghost predicate Listed(x: Input, n: string) {
    exists i :: 0 <= i < |x.channels| && x.channels[i].name == n && ContradictsSomewhere(x, i)
  }

  lemma ListedNames(x: Input, n: string)
    requires Ordinary(x)
    ensures n in DifferingNames(x) <==> Listed(x, n)
  {
    if n in DifferingNames(x) {
      var i :| 0 <= i < |x.channels| && x.channels[i].name == n;
      ListedIffContradicts(x, i);
    }
    if i :| 0 <= i < |x.channels| && x.channels[i].name == n && ContradictsSomewhere(x, i) {
      ListedIffContradicts(x, i);
    }
  }

  /** One channel's entry in an item. */
  ghost predicate EntryMeans(item: Item, x: Input, f: Field, m: string, i: nat)
    requires i < |x.channels|
  {
    var n := x.channels[i].name;
    && n in item.upstreams && item.upstreams[n] == Shown(x, i, f, m)
    && n in item.confidence && item.confidence[n] == Trusted(x.channels[i].data, m)
  }

  /** An item shows the local value and exactly the channels that contradict somewhere, each with its
      own value and trust. */
  ghost predicate ItemMeans(item: Item, x: Input, f: Field, m: string) {
    && item.current == Current(x, f, m)
    && (forall n :: n in item.upstreams <==> Listed(x, n))
    && (forall n :: n in item.confidence <==> Listed(x, n))
    && (forall i :: 0 <= i < |x.channels| && ContradictsSomewhere(x, i) ==> EntryMeans(item, x, f, m, i))
  }

  lemma NarrowedMeans(x: Input, f: Field, m: string)
    requires Ordinary(x)
    ensures ItemMeans(Narrowed(DraftItem(x, f, m), DifferingNames(x)), x, f, m)
  {
    var item := Narrowed(DraftItem(x, f, m), DifferingNames(x));
    ListedChannels(x, f, m);
    forall n ensures (n in item.upstreams <==> Listed(x, n)) && (n in item.confidence <==> Listed(x, n)) {
      ListedNames(x, n);
    }
    forall i | 0 <= i < |x.channels| && ContradictsSomewhere(x, i) ensures EntryMeans(item, x, f, m, i) {
      ListedValues(x, f, m, i);
    }
  }

  /** What the returned report holds: which models and fields, which channels, and what of each. */
  lemma ReportMeaning(r: Report, x: Input, f: Field, m: string)
    requires Ordinary(x) && IsReport(r, x)
    ensures (m in r && f in r[m]) <==> exists i :: 0 <= i < |x.channels| && Contradicts(x, i, f, m)
    ensures m in r ==> r[m] != map[]
    ensures m in r && f in r[m] ==> ItemMeans(r[m][f], x, f, m)
  {
    ReportedIffContradicted(x, f, m);
    NarrowedMeans(x, f, m);
  }

  // ------------------------------------------------------------ over the raw values

  /** The number a raw value stands for, if it is one. */
  predicate Stands(v: Value, r: real) { v == Number(r) || (v.Integer? && v.i as real == r) }

  predicate Near(a: real, b: real) { -0.000000001 < a - b < 0.000000001 }

  /** The eight numeric fields compare numbers, integers included, within the tolerance. */
  lemma ContradictsNumbers(x: Input, i: nat, f: Field, m: string, a: real, b: real)
    requires i < |x.channels| && f != BillingMode && f != BillingExpr
    requires f in x.local && m in x.local[f] && Stands(x.local[f][m], a)
    requires f in x.channels[i].data && m in x.channels[i].data[f] && Stands(x.channels[i].data[f][m], b)
    ensures Contradicts(x, i, f, m) <==> !Near(a, b)
  {
    assert Given(x.local, f, m) == Some(Number(a));
    assert Given(x.channels[i].data, f, m) == Some(Number(b));
  }

  /** Where the local settings give nothing, every value but null contradicts. */
  lemma ContradictsMissing(x: Input, i: nat, f: Field, m: string)
    requires i < |x.channels| && !(f in x.local && m in x.local[f])
    ensures Contradicts(x, i, f, m)
      <==> f in x.channels[i].data && m in x.channels[i].data[f] && x.channels[i].data[f][m] != Nil
  {
    assert Current(x, f, m) == Nil;
    if f in x.channels[i].data && m in x.channels[i].data[f] {
      assert Given(x.channels[i].data, f, m) == Some(NormalizeValue(f, x.channels[i].data[f][m]));
    }
  }

  /** Texts and truth values contradict when they differ, in every field. */
  lemma ContradictsTexts(x: Input, i: nat, f: Field, m: string)
    requires i < |x.channels|
    requires f in x.local && m in x.local[f] && f in x.channels[i].data && m in x.channels[i].data[f]
    requires x.channels[i].data[f][m].Str? || x.channels[i].data[f][m].Bool?
    ensures Contradicts(x, i, f, m) <==> x.local[f][m] != x.channels[i].data[f][m]
  {
    var local, raw := x.local[f][m], x.channels[i].data[f][m];
    assert Given(x.channels[i].data, f, m) == Some(raw);
    assert Given(x.local, f, m) == Some(NormalizeValue(f, local));
  }

  /** A number against a text or truth value always contradicts, and a null exactly where there is a value. */
  lemma ContradictsOtherKinds(x: Input, i: nat, f: Field, m: string)
    requires i < |x.channels|
    requires f in x.local && m in x.local[f] && f in x.channels[i].data && m in x.channels[i].data[f]
    ensures
      var local, raw := x.local[f][m], x.channels[i].data[f][m];
      && ((raw.Number? || raw.Integer?) && (local.Str? || local.Bool?) ==> Contradicts(x, i, f, m))
      && (raw == Nil ==> (Contradicts(x, i, f, m) <==> local != Nil))
  {
    var local, raw := x.local[f][m], x.channels[i].data[f][m];
    assert Given(x.channels[i].data, f, m) == Some(NormalizeValue(f, raw));
    assert Given(x.local, f, m) == Some(NormalizeValue(f, local));
  }

  /** The two billing fields take values as they are: an integer is not a number there. */
  lemma ContradictsBilling(x: Input, i: nat, f: Field, m: string)
    requires i < |x.channels| && (f == BillingMode || f == BillingExpr)
    requires f in x.local && m in x.local[f] && f in x.channels[i].data && m in x.channels[i].data[f]
    ensures
      var local, raw := x.local[f][m], x.channels[i].data[f][m];
      Contradicts(x, i, f, m) <==> if local.Number? && raw.Number? then !Near(local.r, raw.r) else local != raw
  {
    var local, raw := x.local[f][m], x.channels[i].data[f][m];
    assert Given(x.channels[i].data, f, m) == Some(raw);
    assert Given(x.local, f, m) == Some(local);
  }

  /** A channel is distrusted for a model exactly when its own model ratio stands for a number near 37.5
      and its own completion ratio for one near 1. */
  lemma DistrustedIff(d: Data, m: string)
    ensures !Trusted(d, m) <==>
      && ModelRatio in d && m in d[ModelRatio] && CompletionRatio in d && m in d[CompletionRatio]
      && (exists r :: Stands(d[ModelRatio][m], r) && Near(r, 37.5))
      && (exists r :: Stands(d[CompletionRatio][m], r) && Near(r, 1.0))
  {
    if ModelRatio in d && m in d[ModelRatio] && CompletionRatio in d && m in d[CompletionRatio] {
      StandsFor(d[ModelRatio][m], 37.5);
      StandsFor(d[CompletionRatio][m], 1.0);
    }
  }

  lemma StandsFor(v: Value, target: real)
    ensures Is(v, target) <==> exists r :: Stands(v, r) && Near(r, target)
  {
    if AsNumber(v).Some? {
      var n := AsNumber(v).value;
      assert Stands(v, n);
      assert Is(v, target) <==> Near(n, target);
    }
  }

  // ---------------------------------------------------------- why the conditions

  /** A null from the only channel contradicts the local value, yet nothing is reported. */
  lemma NullIsSwallowed(x: Input, m: string, price: real)
    requires x == Input(map[ModelPrice := map[m := Number(price)]],
                        [Source("a", map[ModelPrice := map[m := Nil]])])
    ensures Contradicts(x, 0, ModelPrice, m) && !Reported(x, ModelPrice, m)
  {
    forall f, p ensures !ShowsAt(x, 0, f, p) { NullCell(x, m, price, f, p); }
    assert !ChannelShows(x, 0);
    ReportedExactly(x, ModelPrice, m);
    assert Given(x.channels[0].data, ModelPrice, m) == Some(Nil);
  }

  lemma NullCell(x: Input, m: string, price: real, f: Field, p: string)
    requires x == Input(map[ModelPrice := map[m := Number(price)]],
                        [Source("a", map[ModelPrice := map[m := Nil]])])
    ensures !ShowsAt(x, 0, f, p)
  {
    var d := x.channels[0].data;
    assert Given(d, f, p) == if f == ModelPrice && p == m then Some(Nil) else None;
  }

  /** Near-equality is not transitive: two steps below the tolerance can exceed it. */
  lemma NearlyEqualNotTransitive(a: real)
    ensures NearlyEqual(a, a + EPSILON * 0.6) && NearlyEqual(a + EPSILON * 0.6, a + EPSILON * 1.2)
    ensures !NearlyEqual(a, a + EPSILON * 1.2)
  {
  }
}
