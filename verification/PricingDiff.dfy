/** The report of price differences between the local settings and several upstream channels, as
    ratio_sync builds it: collect the models, judge each channel's trustworthiness, draft an item
    per model and field, then prune channels and items that show no difference. */
module PricingDiff {
  import opened Wrappers

  // ----------------------------------------------------------------- values

  datatype Field =
    | ModelRatio | CompletionRatio | CacheRatio | CreateCacheRatio | ImageRatio
    | AudioRatio | AudioCompletionRatio | ModelPrice | BillingMode | BillingExpr

  const FIELDS: seq<Field> :=
    [ ModelRatio, CompletionRatio, CacheRatio, CreateCacheRatio, ImageRatio,
      AudioRatio, AudioCompletionRatio, ModelPrice, BillingMode, BillingExpr ]

  predicate Numeric(f: Field) { f != BillingMode && f != BillingExpr }

  /** A dynamically typed value; Nil is both a missing value and a JSON null. */
  datatype Value = Nil | Number(r: real) | Integer(i: int) | Str(s: string) | Bool(b: bool)

  /** The marker for "agrees with the local value". It is an ordinary string. */
  const SAME: Value := Str("same")

  const EPSILON: real := 0.000000001

  predicate NearlyEqual(a: real, b: real) { if a > b then a - b < EPSILON else b - a < EPSILON }

  predicate Equal(a: Value, b: Value) {
    if a.Number? && b.Number? then NearlyEqual(a.r, b.r) else a == b
  }

  function AsNumber(v: Value): Option<real> {
    match v case Number(r) => Some(r) case Integer(i) => Some(i as real) case _ => None
  }

  function NormalizeValue(f: Field, v: Value): Value {
    if Numeric(f) && AsNumber(v).Some? then Number(AsNumber(v).value) else v
  }

  type Sheet = map<string, Value>
  type Data = map<Field, Sheet>
  datatype Source = Source(name: string, data: Data)
  datatype Input = Input(local: Data, channels: seq<Source>)

  /** The map of one field; a field that is missing or not a map is empty. */
  function SheetOf(d: Data, f: Field): Sheet { if f in d then d[f] else map[] }

  /** The value a data set gives a model in a field. */
  function Given(d: Data, f: Field, m: string): Option<Value> {
    if m in SheetOf(d, f) then Some(NormalizeValue(f, SheetOf(d, f)[m])) else None
  }

  function Current(x: Input, f: Field, m: string): Value {
    var g := Given(x.local, f, m);
    if g.Some? then g.value else Nil
  }

  /** What the report shows for a channel. */
  function Cell(current: Value, given: Option<Value>): Value {
    if given.None? then if current == Nil then SAME else Nil
    else if Equal(current, given.value) then SAME
    else given.value
  }

  function CellOf(x: Input, i: nat, f: Field, m: string): Value
    requires i < |x.channels|
  {
    Cell(Current(x, f, m), Given(x.channels[i].data, f, m))
  }

  predicate Gives(x: Input, i: nat, f: Field, m: string)
    requires i < |x.channels|
  {
    Given(x.channels[i].data, f, m).Some?
  }

  /** The channel gives a value unlike the local one. */
  predicate Contradicts(x: Input, i: nat, f: Field, m: string)
    requires i < |x.channels|
  {
    Gives(x, i, f, m) && !Equal(Current(x, f, m), Given(x.channels[i].data, f, m).value)
  }

  // ------------------------------------------------------------------ pass 1: models

  ghost predicate Mentions(d: Data, m: string) { exists f :: m in SheetOf(d, f) }

  ghost predicate MentionedAnywhere(x: Input, m: string) {
    Mentions(x.local, m) || exists i :: 0 <= i < |x.channels| && Mentions(x.channels[i].data, m)
  }

  lemma FieldsComplete(f: Field)
    ensures f in FIELDS
  {
  }

  method ModelsOf(d: Data) returns (models: set<string>)
    ensures forall m :: m in models <==> Mentions(d, m)
  {
    models := {};
    for k := 0 to |FIELDS|
      invariant forall m :: m in models <==> exists j :: 0 <= j < k && m in SheetOf(d, FIELDS[j])
    {
      models := models + SheetOf(d, FIELDS[k]).Keys;
    }
    forall m | Mentions(d, m) ensures m in models {
      var f :| m in SheetOf(d, f);
      FieldsComplete(f);
    }
  }

  method CollectModels(x: Input) returns (models: set<string>)
    ensures forall m :: m in models <==> MentionedAnywhere(x, m)
  {
    models := ModelsOf(x.local);
    for k := 0 to |x.channels|
      invariant forall m :: m in models <==>
        Mentions(x.local, m) || exists i :: 0 <= i < k && Mentions(x.channels[i].data, m)
    {
      var more := ModelsOf(x.channels[k].data);
      models := models + more;
    }
  }

  // --------------------------------------------------------------- pass 2: confidence

  predicate Is(v: Value, r: real) { AsNumber(v).Some? && NearlyEqual(AsNumber(v).value, r) }

  /** A channel whose model ratio is 37.5 with completion ratio 1 shows a placeholder. */
  predicate Trusted(d: Data, m: string) {
    var ratios, completions := SheetOf(d, ModelRatio), SheetOf(d, CompletionRatio);
    !(m in ratios && m in completions && Is(ratios[m], 37.5) && Is(completions[m], 1.0))
  }

  method ConfidenceOf(d: Data, models: set<string>) returns (trust: map<string, bool>)
    ensures trust == map m | m in models :: Trusted(d, m)
  {
    trust := map[];
    var ratios, completions := SheetOf(d, ModelRatio), SheetOf(d, CompletionRatio);
    var priced := |ratios| > 0 && |completions| > 0;
    var rest := models;
    while rest != {}
      invariant rest <= models
      invariant trust == map m | m in models - rest :: Trusted(d, m)
    {
      var m :| m in rest;
      var trusted := true;
      if priced && m in ratios && m in completions {
        if Is(ratios[m], 37.5) && Is(completions[m], 1.0) { trusted := false; }
      }
      trust := trust[m := trusted];
      rest := rest - {m};
    }
  }

  /** The last of the first k channels with a name, or -1. */
  function Latest(x: Input, k: nat, n: string): (r: int)
    requires k <= |x.channels|
    ensures -1 <= r < k
    ensures r >= 0 ==> x.channels[r].name == n
    ensures forall i :: r < i < k ==> x.channels[i].name != n
  {
    if k == 0 then -1 else if x.channels[k - 1].name == n then k - 1 else Latest(x, k - 1, n)
  }

  function TrustOf(x: Input, k: nat, n: string, models: set<string>): map<string, bool>
    requires k <= |x.channels| && Latest(x, k, n) >= 0
  {
    map m | m in models :: Trusted(x.channels[Latest(x, k, n)].data, m)
  }

  type TrustTable = map<string, map<string, bool>>

  /** The confidence of every channel by name; of two channels with one name the later counts. */
  ghost predicate TableOf(table: TrustTable, x: Input, k: nat, models: set<string>)
    requires k <= |x.channels|
  {
    && (forall n :: n in table <==> Latest(x, k, n) >= 0)
    && (forall n :: n in table && Latest(x, k, n) >= 0 ==> table[n] == TrustOf(x, k, n, models))
  }

  method BuildConfidence(x: Input, models: set<string>) returns (table: TrustTable)
    ensures TableOf(table, x, |x.channels|, models)
  {
    table := map[];
    for k := 0 to |x.channels|
      invariant TableOf(table, x, k, models)
    {
      var trust := ConfidenceOf(x.channels[k].data, models);
      table := table[x.channels[k].name := trust];
    }
  }

  /** A missing entry reads as false. */
  predicate Lookup(table: TrustTable, n: string, m: string) { n in table && m in table[n] && table[n][m] }

  predicate NameTrusted(x: Input, n: string, m: string) {
    var i := Latest(x, |x.channels|, n);
    i >= 0 && Trusted(x.channels[i].data, m)
  }

  /** The table answers for a model as the channels do. */
  ghost predicate Answers(table: TrustTable, x: Input, m: string) {
    forall i :: 0 <= i < |x.channels| ==> Lookup(table, x.channels[i].name, m) == NameTrusted(x, x.channels[i].name, m)
  }

  lemma TableAnswers(table: TrustTable, x: Input, models: set<string>, m: string)
    requires TableOf(table, x, |x.channels|, models) && m in models
    ensures Answers(table, x, m)
  {
  }

  // -------------------------------------------------------------------- pass 3: items

  datatype Item = Item(current: Value, upstreams: map<string, Value>, confidence: map<string, bool>)

  /** The cells of the first k channels by name; the later of two equal names counts. */
  ghost predicate AreCells(cells: map<string, Value>, x: Input, k: nat, f: Field, m: string)
    requires k <= |x.channels|
  {
    && (forall n :: n in cells <==> Latest(x, k, n) >= 0)
    && (forall n :: n in cells && Latest(x, k, n) >= 0 ==> cells[n] == CellOf(x, Latest(x, k, n), f, m))
  }

  ghost predicate AreConfidences(confidence: map<string, bool>, x: Input, k: nat, m: string)
    requires k <= |x.channels|
  {
    && (forall n :: n in confidence <==> Latest(x, k, n) >= 0)
    && (forall n :: n in confidence ==> confidence[n] == NameTrusted(x, n, m))
  }

  /** Some of the first k channels gives a value. */
  predicate SomeGive(x: Input, k: nat, f: Field, m: string)
    requires k <= |x.channels|
  {
    k > 0 && (SomeGive(x, k - 1, f, m) || Gives(x, k - 1, f, m))
  }

  predicate SomeContradict(x: Input, k: nat, f: Field, m: string)
    requires k <= |x.channels|
  {
    k > 0 && (SomeContradict(x, k - 1, f, m) || Contradicts(x, k - 1, f, m))
  }

  lemma {:induction false} SomeIsExists(x: Input, k: nat, f: Field, m: string)
    requires k <= |x.channels|
    ensures SomeGive(x, k, f, m) <==> exists i :: 0 <= i < k && Gives(x, i, f, m)
    ensures SomeContradict(x, k, f, m) <==> exists i :: 0 <= i < k && Contradicts(x, i, f, m)
  {
    if k > 0 { SomeIsExists(x, k - 1, f, m); }
  }

  /** What the draft includes: where there is a local value, fields some channel contradicts;
      elsewhere, fields some channel gives. */
  predicate Drafted(x: Input, f: Field, m: string) {
    if Current(x, f, m) != Nil then SomeContradict(x, |x.channels|, f, m) else SomeGive(x, |x.channels|, f, m)
  }

  function Names(x: Input): set<string> { set i | 0 <= i < |x.channels| :: x.channels[i].name }

  function DraftItem(x: Input, f: Field, m: string): Item {
    Item(Current(x, f, m),
      map n | n in Names(x) && Latest(x, |x.channels|, n) >= 0 :: CellOf(x, Latest(x, |x.channels|, n), f, m),
      map n | n in Names(x) :: NameTrusted(x, n, m))
  }

  lemma CellsDetermined(cells: map<string, Value>, x: Input, f: Field, m: string)
    requires AreCells(cells, x, |x.channels|, f, m)
    ensures cells == DraftItem(x, f, m).upstreams
  {
    LatestNamed(x);
  }

  lemma ConfidencesDetermined(confidence: map<string, bool>, x: Input, f: Field, m: string)
    requires AreConfidences(confidence, x, |x.channels|, m)
    ensures confidence == DraftItem(x, f, m).confidence
  {
    LatestNamed(x);
  }

  lemma LatestNamed(x: Input)
    ensures forall n :: Latest(x, |x.channels|, n) >= 0 <==> n in Names(x)
  {
  }

  /** One channel's contribution to an item: its cell and whether it differs. */
  method ReadChannel(current: Value, given: Option<Value>) returns (value: Value, different: bool)
    ensures value == Cell(current, given)
    ensures current != Nil ==> (different <==> given.Some? && !Equal(current, given.value))
  {
    value, different := Nil, false;
    if given.Some? {
      value := given.value;
      if current != Nil && !Equal(current, value) {
        different := true;
      } else if Equal(current, value) {
        value := SAME;
      }
    }
    if value == Nil && current == Nil { value := SAME; }
    if current == Nil && value != Nil && value != SAME { different := true; }
  }

  lemma CellsStep(cells: map<string, Value>, x: Input, k: nat, f: Field, m: string)
    requires k < |x.channels| && AreCells(cells, x, k, f, m)
    ensures AreCells(cells[x.channels[k].name := CellOf(x, k, f, m)], x, k + 1, f, m)
  {
  }

  lemma ConfidencesStep(confidence: map<string, bool>, x: Input, k: nat, m: string)
    requires k < |x.channels| && AreConfidences(confidence, x, k, m)
    ensures
      var n := x.channels[k].name;
      AreConfidences(confidence[n := NameTrusted(x, n, m)], x, k + 1, m)
  {
  }

  /** One turn of the loop over the channels. */
  method AddChannel(item: Item, x: Input, table: TrustTable, k: nat, f: Field, m: string)
    returns (next: Item, gives: bool, different: bool)
    requires Answers(table, x, m) && k < |x.channels| && item.current == Current(x, f, m)
    requires AreCells(item.upstreams, x, k, f, m) && AreConfidences(item.confidence, x, k, m)
    ensures next.current == item.current
    ensures AreCells(next.upstreams, x, k + 1, f, m) && AreConfidences(next.confidence, x, k + 1, m)
    ensures gives <==> Gives(x, k, f, m)
    ensures item.current != Nil ==> (different <==> Contradicts(x, k, f, m))
  {
    var channel := x.channels[k];
    var given := Given(channel.data, f, m);
    gives := given.Some?;
    var value;
    value, different := ReadChannel(item.current, given);
    CellsStep(item.upstreams, x, k, f, m);
    ConfidencesStep(item.confidence, x, k, m);
    next := item.(upstreams := item.upstreams[channel.name := value],
                  confidence := item.confidence[channel.name := Lookup(table, channel.name, m)]);
  }

  method BuildItem(x: Input, table: TrustTable, f: Field, m: string) returns (item: Option<Item>)
    requires Answers(table, x, m)
    ensures item == if Drafted(x, f, m) then Some(DraftItem(x, f, m)) else None
  {
    var draft := Item(Current(x, f, m), map[], map[]);
    var hasUpstream, hasDifference := false, false;
    for k := 0 to |x.channels|
      invariant draft.current == Current(x, f, m)
      invariant AreCells(draft.upstreams, x, k, f, m) && AreConfidences(draft.confidence, x, k, m)
      invariant hasUpstream <==> SomeGive(x, k, f, m)
      invariant draft.current != Nil ==> (hasDifference <==> SomeContradict(x, k, f, m))
    {
      var gives, different;
      draft, gives, different := AddChannel(draft, x, table, k, f, m);
      if gives { hasUpstream := true; }
      if different { hasDifference := true; }
    }
    CellsDetermined(draft.upstreams, x, f, m);
    ConfidencesDetermined(draft.confidence, x, f, m);
    var shown := if draft.current != Nil then hasDifference else hasUpstream;
    item := if shown then Some(draft) else None;
  }

  type Row = map<Field, Item>
  type Report = map<string, Row>

  ghost predicate IsDraftRow(row: Row, x: Input, m: string) {
    && (forall f :: f in row <==> Drafted(x, f, m))
    && (forall f :: f in row ==> row[f] == DraftItem(x, f, m))
  }

  /** The row restricted to some fields. */
  ghost predicate IsPartialRow(row: Row, x: Input, m: string, fields: set<Field>) {
    && (forall f :: f in row <==> f in fields && Drafted(x, f, m))
    && (forall f :: f in row ==> row[f] == DraftItem(x, f, m))
  }

  method BuildRow(x: Input, table: TrustTable, m: string) returns (row: Row)
    requires Answers(table, x, m)
    ensures IsDraftRow(row, x, m)
  {
    row := map[];
    ghost var done := {};
    var fields := FIELDS;
    for k := 0 to |fields|
      invariant IsPartialRow(row, x, m, done)
      invariant forall j :: 0 <= j < k ==> fields[j] in done
    {
      var item := BuildItem(x, table, fields[k], m);
      if item.Some? { row := row[fields[k] := item.value]; }
      done := done + {fields[k]};
    }
    forall f ensures f in done { FieldsComplete(f); }
  }

  /** Only models with an item have a row. */
  ghost predicate IsDraft(d: Report, x: Input) {
    && (forall m :: m in d ==> IsDraftRow(d[m], x, m) && d[m] != map[])
    && (forall f, m :: Drafted(x, f, m) ==> m in d)
  }

  /** The rows of the models handled so far. */
  ghost predicate Rows(d: Report, x: Input, done: set<string>) {
    && (forall m :: m in d ==> IsDraftRow(d[m], x, m) && d[m] != map[])
    && (forall f, m :: m in done && Drafted(x, f, m) ==> m in d)
  }

  lemma RowsStep(d: Report, x: Input, done: set<string>, m: string, row: Row)
    requires Rows(d, x, done) && IsDraftRow(row, x, m)
    ensures Rows(if row != map[] then d[m := row] else d, x, done + {m})
  {
    var d2 := if row != map[] then d[m := row] else d;
    forall f, n | n in done + {m} && Drafted(x, f, n) ensures n in d2 {
      if n == m { assert f in row; }
    }
  }

  method BuildRows(x: Input, table: TrustTable, models: set<string>) returns (d: Report)
    requires forall m :: m in models ==> Answers(table, x, m)
    ensures Rows(d, x, models)
  {
    d := map[];
    var rest := models;
    while rest != {}
      invariant rest <= models && Rows(d, x, models - rest)
    {
      var m :| m in rest;
      var row := BuildRow(x, table, m);
      RowsStep(d, x, models - rest, m, row);
      if row != map[] { d := d[m := row]; }
      rest := rest - {m};
      assert models - rest == models - (rest + {m}) + {m};
    }
    assert models - rest == models;
  }

  method Draft(x: Input) returns (d: Report)
    ensures IsDraft(d, x)
  {
    var models := CollectModels(x);
    var table := BuildConfidence(x, models);
    forall m | m in models ensures Answers(table, x, m) { TableAnswers(table, x, models, m); }
    d := BuildRows(x, table, models);
    forall f, m | Drafted(x, f, m) ensures m in d { DraftedIsMentioned(x, f, m); }
  }

  lemma DraftedIsMentioned(x: Input, f: Field, m: string)
    requires Drafted(x, f, m)
    ensures MentionedAnywhere(x, m)
  {
    SomeIsExists(x, |x.channels|, f, m);
    var i :| 0 <= i < |x.channels| && Gives(x, i, f, m);
    assert Gives(x, i, f, m);
    assert Given(x.channels[i].data, f, m).Some?;
    assert m in SheetOf(x.channels[i].data, f);
    assert Mentions(x.channels[i].data, m);
  }

  // -------------------------------------------------------------------- pass 4: pruning

  predicate Shows(item: Item, n: string) {
    n in item.upstreams && item.upstreams[n] != Nil && item.upstreams[n] != SAME
  }

  ghost predicate ShowsSomewhere(d: Report, n: string) {
    exists m, f :: m in d && f in d[m] && Shows(d[m][f], n)
  }

  method DifferingInRow(row: Row) returns (names: set<string>)
    ensures forall n :: n in names <==> exists f :: f in row && Shows(row[f], n)
  {
    names := {};
    var rest := row.Keys;
    while rest != {}
      invariant rest <= row.Keys
      invariant forall n :: n in names <==> exists f :: f in row.Keys - rest && Shows(row[f], n)
    {
      var f :| f in rest;
      names := names + set n | n in row[f].upstreams && Shows(row[f], n);
      rest := rest - {f};
    }
  }

  method Differing(d: Report) returns (names: set<string>)
    ensures forall n :: n in names <==> ShowsSomewhere(d, n)
  {
    names := {};
    var rest := d.Keys;
    while rest != {}
      invariant rest <= d.Keys
      invariant forall n :: n in names <==> exists m, f :: m in d.Keys - rest && f in d[m] && Shows(d[m][f], n)
    {
      var m :| m in rest;
      var more := DifferingInRow(d[m]);
      names := names + more;
      rest := rest - {m};
    }
  }

  function Narrowed(item: Item, names: set<string>): Item {
    item.(upstreams := map n | n in item.upstreams && n in names :: item.upstreams[n],
          confidence := map n | n in item.confidence && (n in item.upstreams ==> n in names) :: item.confidence[n])
  }

  /** The narrowed item still shows something other than agreement. */
  predicate Kept(item: Item, names: set<string>) {
    exists n :: n in item.upstreams && n in names && item.upstreams[n] != SAME
  }

  method PruneItem(item: Item, names: set<string>) returns (narrowed: Item, kept: bool)
    ensures narrowed == Narrowed(item, names) && kept == Kept(item, names)
  {
    narrowed := Narrowed(item, names);
    var allSame := forall n :: n in narrowed.upstreams ==> narrowed.upstreams[n] == SAME;
    kept := !(|narrowed.upstreams| == 0 || allSame);
    if Kept(item, names) {
      var n :| n in item.upstreams && n in names && item.upstreams[n] != SAME;
      assert n in narrowed.upstreams;
    }
  }

  ghost predicate IsPrunedRow(pruned: Row, row: Row, names: set<string>) {
    && (forall f :: f in pruned <==> f in row && Kept(row[f], names))
    && (forall f :: f in pruned && f in row ==> pruned[f] == Narrowed(row[f], names))
  }

  method PruneRow(row: Row, names: set<string>) returns (pruned: Row)
    ensures IsPrunedRow(pruned, row, names)
  {
    pruned := row;
    var rest := row.Keys;
    while rest != {}
      invariant rest <= row.Keys
      invariant forall f :: f in pruned <==> f in rest || (f in row && Kept(row[f], names))
      invariant forall f :: f in pruned ==> pruned[f] == if f in rest then row[f] else Narrowed(row[f], names)
    {
      var f :| f in rest;
      var narrowed, kept := PruneItem(row[f], names);
      rest := rest - {f};
      if kept { pruned := pruned[f := narrowed]; } else { pruned := pruned - {f}; }
    }
  }

  ghost predicate IsPruned(r: Report, d: Report, names: set<string>) {
    && (forall m :: m in r ==> m in d && r[m] != map[] && IsPrunedRow(r[m], d[m], names))
    && (forall m, f :: m in d && f in d[m] && Kept(d[m][f], names) ==> m in r)
  }

  method Prune(d: Report, names: set<string>) returns (r: Report)
    ensures IsPruned(r, d, names)
  {
    r := map[];
    var rest := d.Keys;
    while rest != {}
      invariant rest <= d.Keys
      invariant forall m :: m in r ==> m in d && r[m] != map[] && IsPrunedRow(r[m], d[m], names)
      invariant forall m, f :: m in d.Keys - rest && f in d[m] && Kept(d[m][f], names) ==> m in r
    {
      var m :| m in rest;
      var pruned := PruneRow(d[m], names);
      if pruned != map[] { r := r[m := pruned]; }
      rest := rest - {m};
    }
  }

  // ------------------------------------------------------------------- the report

  /** The names that show a difference in some drafted item. */
  ghost predicate Differs(x: Input, n: string) {
    exists f, m :: Drafted(x, f, m) && Shows(DraftItem(x, f, m), n)
  }

  ghost function DifferingNames(x: Input): set<string> { set n | n in Names(x) && Differs(x, n) }

  /** The report without its construction: the drafted items that still show something once narrowed
      to the channels that differ somewhere. */
  ghost predicate Reported(x: Input, f: Field, m: string) {
    Drafted(x, f, m) && Kept(DraftItem(x, f, m), DifferingNames(x))
  }

  ghost predicate IsReport(r: Report, x: Input) {
    && (forall m :: m in r ==> r[m] != map[] && IsReportRow(r[m], x, m))
    && (forall f, m :: Reported(x, f, m) ==> m in r)
  }

  ghost predicate IsReportRow(row: Row, x: Input, m: string) {
    && (forall f :: f in row <==> Reported(x, f, m))
    && (forall f :: f in row ==> row[f] == Narrowed(DraftItem(x, f, m), DifferingNames(x)))
  }

  lemma DraftShows(d: Report, x: Input, n: string)
    requires IsDraft(d, x)
    ensures ShowsSomewhere(d, n) <==> n in DifferingNames(x)
  {
    if ShowsSomewhere(d, n) {
      var m, f :| m in d && f in d[m] && Shows(d[m][f], n);
      assert Drafted(x, f, m) && Shows(DraftItem(x, f, m), n);
    }
    if Differs(x, n) {
      var f, m :| Drafted(x, f, m) && Shows(DraftItem(x, f, m), n);
      assert m in d && f in d[m] && Shows(d[m][f], n);
    }
  }

  lemma PrunedRowReports(pruned: Row, row: Row, x: Input, m: string)
    requires IsDraftRow(row, x, m) && IsPrunedRow(pruned, row, DifferingNames(x))
    ensures IsReportRow(pruned, x, m)
  {
  }

  lemma PrunedReports(r: Report, d: Report, x: Input)
    requires IsDraft(d, x) && IsPruned(r, d, DifferingNames(x))
    ensures IsReport(r, x)
  {
    forall m | m in r ensures IsReportRow(r[m], x, m) { PrunedRowReports(r[m], d[m], x, m); }
    forall f, m | Reported(x, f, m) ensures m in r {
      assert m in d && f in d[m] && d[m][f] == DraftItem(x, f, m);
    }
  }

  /** buildDifferences */
  method BuildDifferences(x: Input) returns (r: Report)
    ensures IsReport(r, x)
  {
    var d := Draft(x);
    var names := Differing(d);
    r := Prune(d, names);
    forall n ensures n in names <==> n in DifferingNames(x) { DraftShows(d, x, n); }
    assert names == DifferingNames(x);
    PrunedReports(r, d, x);
  }
}
