/** delete_disabled_keys against delete_key for every automatically disabled index from the highest down,
    through the stored string, which drops empty keys at either end. */
module MultiKeyDeletion {
  import opened Wrappers
  import opened Text
  import opened MultiKey

  // ------------------------------------------------ what reading by lines drops

  /** A key list without its empty keys at either end. */
  function Stripped(keys: seq<string>): (r: seq<string>)
    ensures |r| <= |keys|
  {
    if keys == [] then []
    else if keys[|keys| - 1] == "" then Stripped(keys[..|keys| - 1])
    else if keys[0] == "" then Stripped(keys[1..])
    else keys
  }

  predicate SomeText(keys: seq<string>) { exists i :: 0 <= i < |keys| && keys[i] != "" }

  predicate OneLine(keys: seq<string>) { forall i :: 0 <= i < |keys| ==> '\n' !in keys[i] }

  lemma TextBack(init: seq<string>)
    requires init != []
    ensures Trim(Join(init + [""], '\n'), Only('\n')) == Trim(Join(init, '\n'), Only('\n'))
  {
    JoinConcat(init, [""], '\n');
    assert Join([""], '\n') == "" && ['\n'] + "" == ['\n'];
    TrimBack('\n', Join(init, '\n'), Only('\n'));
  }

  lemma TextFront(rest: seq<string>)
    requires rest != []
    ensures Trim(Join([""] + rest, '\n'), Only('\n')) == Trim(Join(rest, '\n'), Only('\n'))
  {
    var keys := [""] + rest;
    assert keys[1..] == rest;
    assert Join(keys, '\n') == ['\n'] + Join(rest, '\n');
    TrimFront('\n', Join(rest, '\n'), Only('\n'));
  }

  lemma {:induction false} StrippedText(keys: seq<string>)
    requires SomeText(keys) && OneLine(keys)
    ensures Lines(Stripped(keys), '\n') && Trim(Join(keys, '\n'), Only('\n')) == Join(Stripped(keys), '\n')
    decreases |keys|
  {
    var n := |keys| - 1;
    if keys[n] == "" {
      assert keys == keys[..n] + [""] && n > 0;
      StrippedText(keys[..n]);
      TextBack(keys[..n]);
    } else if keys[0] == "" {
      assert keys == [""] + keys[1..] && n > 0;
      StrippedText(keys[1..]);
      TextFront(keys[1..]);
    } else {
      JoinEnds(keys, '\n');
      TrimKeepsTrimmed(Join(keys, '\n'), Only('\n'));
    }
  }

  lemma {:induction false} BlankText(keys: seq<string>)
    requires keys != [] && !SomeText(keys)
    ensures |Join(keys, '\n')| == |keys| - 1
    ensures forall i :: 0 <= i < |Join(keys, '\n')| ==> Join(keys, '\n')[i] == '\n'
  {
    assert keys[0] == "";
    if |keys| > 1 {
      forall i | 0 <= i < |keys[1..]| ensures keys[1..][i] == "" { assert keys[1..][i] == keys[i + 1]; }
      BlankText(keys[1..]);
    }
  }

  /** The text is not a JSON array. */
  predicate ByLines(text: string, json: JsonArray) { !(LooksLikeJson(text) && json(TrimSpace(text)).Some?) }

  lemma KeysByLines(keys: seq<string>, json: JsonArray)
    requires SomeText(keys) && OneLine(keys) && ByLines(Join(keys, '\n'), json)
    ensures
      var text := Join(keys, '\n');
      text != "" && KeysOf(text, json) == Stripped(keys) && CountKeys(text, json) == |Stripped(keys)|
  {
    var text := Join(keys, '\n');
    SplitStripped(keys);
    TrimKeepsTrimmed("", Only('\n'));
    assert KeysOf(text, json) == Split(Trim(text, Only('\n')), '\n');
  }

  lemma SplitStripped(keys: seq<string>)
    requires SomeText(keys) && OneLine(keys)
    ensures Trim(Join(keys, '\n'), Only('\n')) != "" && Stripped(keys) != []
    ensures Split(Trim(Join(keys, '\n'), Only('\n')), '\n') == Stripped(keys)
  {
    StrippedText(keys);
    SplitLines(Stripped(keys));
  }

  lemma SplitLines(parts: seq<string>)
    requires Lines(parts, '\n')
    ensures parts != [] && Join(parts, '\n') != "" && Split(Join(parts, '\n'), '\n') == parts
  {
    JoinEnds(parts, '\n');
    SplitJoin(parts, '\n');
  }

  lemma BlanksByLines(keys: seq<string>, json: JsonArray)
    requires |keys| >= 2 && !SomeText(keys)
    ensures Join(keys, '\n') != "" && KeysOf(Join(keys, '\n'), json) == [""]
  {
    var text := Join(keys, '\n');
    BlankText(keys);
    TrimStarts(text, Only('\n'));
    TrimStarts(text, Space);
  }

  /** What a text read by lines can hold: lists with text at both ends, or one empty key. */
  lemma ReadByLines(text: string, json: JsonArray)
    requires text != "" && ByLines(text, json)
    ensures OneLine(KeysOf(text, json))
    ensures Lines(KeysOf(text, json), '\n') || KeysOf(text, json) == [""]
  {
    if Trim(text, Only('\n')) != "" { TrimSplitLines(text, '\n'); }
  }

  // --------------------------------------------------------------- lists of views

  /** The list after deleting every automatically disabled key at or above n, from the highest down. */
  function DeletedFrom(v: seq<KeyView>, n: nat): seq<KeyView>
    requires n <= |v|
    decreases |v| - n
  {
    if n == |v| then v
    else
      var w := DeletedFrom(v, n + 1);
      if v[n].status == AUTO_DISABLED then RemoveAt(w, n) else w
  }

  function Sifted(k: KeyView): seq<KeyView> { if k.status == AUTO_DISABLED then [] else [k] }

  lemma SurvivingSnoc(v: seq<KeyView>, k: KeyView)
    ensures Surviving(v + [k]) == Surviving(v) + Sifted(k)
  {
    var w := v + [k];
    assert w[..|w| - 1] == v;
  }

  lemma {:induction false} SurvivingPrepend(k: KeyView, v: seq<KeyView>)
    ensures Surviving([k] + v) == Sifted(k) + Surviving(v)
  {
    if v == [] {
      assert [k] + v == [] + [k];
      SurvivingSnoc([], k);
    } else {
      var init, last := v[..|v| - 1], v[|v| - 1];
      assert v == init + [last] && [k] + v == ([k] + init) + [last];
      SurvivingSnoc([k] + init, last);
      SurvivingSnoc(init, last);
      SurvivingPrepend(k, init);
    }
  }

  /** What is below n is still there, what is above it has been filtered. */
  lemma {:induction false} DeletedFromKeeps(v: seq<KeyView>, n: nat)
    requires n <= |v|
    ensures DeletedFrom(v, n) == v[..n] + Surviving(v[n..])
    decreases |v| - n
  {
    if n < |v| {
      DeletedFromKeeps(v, n + 1);
      assert v[n..] == [v[n]] + v[n + 1..];
      SurvivingPrepend(v[n], v[n + 1..]);
      assert v[..n + 1] == v[..n] + [v[n]];
    }
  }

  lemma DeletedFromAll(v: seq<KeyView>)
    ensures DeletedFrom(v, 0) == Surviving(v)
    ensures DeletedFrom(v, |v|) == v
  {
    DeletedFromKeeps(v, 0);
    assert v[0..] == v;
  }

  lemma {:induction false} SurvivingShorter(v: seq<KeyView>)
    ensures |Surviving(v)| <= |v|
  {
    if v != [] { SurvivingShorter(v[..|v| - 1]); }
  }

  predicate NoneDisabled(v: seq<KeyView>) { forall i :: 0 <= i < |v| ==> v[i].status != AUTO_DISABLED }

  lemma {:induction false} AllSurviveIff(v: seq<KeyView>)
    ensures NoneDisabled(v) ==> Surviving(v) == v
    ensures !NoneDisabled(v) ==> |Surviving(v)| < |v|
  {
    if v != [] {
      var init, last := v[..|v| - 1], v[|v| - 1];
      assert v == init + [last];
      SurvivingSnoc(init, last);
      SurvivingShorter(init);
      AllSurviveIff(init);
    }
  }

  lemma {:induction false} SurvivorsAreKeys(v: seq<KeyView>)
    ensures forall k :: k in Surviving(v) ==> k in v && k.status != AUTO_DISABLED
    ensures forall k :: k in v && k.status != AUTO_DISABLED ==> k in Surviving(v)
  {
    if v != [] {
      var init, last := v[..|v| - 1], v[|v| - 1];
      assert v == init + [last];
      SurvivingSnoc(init, last);
      SurvivorsAreKeys(init);
    }
  }

  /** A list without its empty keys at the end. */
  function Untailed(w: seq<KeyView>): (r: seq<KeyView>)
    ensures |r| <= |w| && r == w[..|r|]
    ensures forall i :: 0 <= i < |r| ==> r[i] == w[i]
    ensures forall i :: |r| <= i < |w| ==> w[i].key == ""
    ensures r != [] ==> r[|r| - 1].key != ""
  {
    if w != [] && w[|w| - 1].key == "" then Untailed(w[..|w| - 1]) else w
  }

  lemma UntailedLength(w: seq<KeyView>, m: nat)
    requires m <= |w| && (m > 0 ==> w[m - 1].key != "")
    requires forall i :: m <= i < |w| ==> w[i].key == ""
    ensures Untailed(w) == w[..m]
  {
    var u := Untailed(w);
    assert |u| == m;
  }

  lemma RemoveAtIndex(x: seq<KeyView>, n: nat)
    requires n < |x|
    ensures |RemoveAt(x, n)| == |x| - 1
    ensures forall i :: 0 <= i < |x| - 1 ==> RemoveAt(x, n)[i] == x[if i < n then i else i + 1]
  {
    var a, b := x[..n], x[n + 1..];
    forall i | 0 <= i < |x| - 1 ensures (a + b)[i] == x[if i < n then i else i + 1] {
      if i >= n { assert (a + b)[i] == b[i - n]; }
    }
  }

  lemma {:induction false} UntailedOfPrefix(y: seq<KeyView>, m: nat)
    requires m <= |y| && forall i :: m <= i < |y| ==> y[i].key == ""
    ensures Untailed(y) == Untailed(y[..m])
  {
    if |y| > m {
      var init := y[..|y| - 1];
      UntailedOfPrefix(init, m);
      assert init[..m] == y[..m];
    } else {
      assert y[..m] == y;
    }
  }

  /** What removing one key does to a blank tail: nothing but a shift. */
  lemma RemoveKeepsTail(x: seq<KeyView>, n: nat, m: nat)
    requires n < |x| && m <= |x| && forall i :: m <= i < |x| ==> x[i].key == ""
    ensures
      var y := RemoveAt(x, n);
      if n < m then y[..m - 1] == RemoveAt(x[..m], n) && forall i :: m - 1 <= i < |y| ==> y[i].key == ""
      else y[..m] == x[..m] && forall i :: m <= i < |y| ==> y[i].key == ""
  {
    RemoveAtIndex(x, n);
    if n < m { RemoveAtIndex(x[..m], n); }
  }

  lemma UntailedRemove(x: seq<KeyView>, n: nat)
    requires n < |Untailed(x)|
    ensures Untailed(RemoveAt(Untailed(x), n)) == Untailed(RemoveAt(x, n))
  {
    var m := |Untailed(x)|;
    RemoveKeepsTail(x, n, m);
    UntailedOfPrefix(RemoveAt(x, n), m - 1);
  }

  lemma UntailedBeyond(x: seq<KeyView>, n: nat)
    requires |Untailed(x)| <= n < |x|
    ensures Untailed(RemoveAt(x, n)) == Untailed(x)
  {
    var m := |Untailed(x)|;
    RemoveKeepsTail(x, n, m);
    UntailedOfPrefix(RemoveAt(x, n), m);
    UntailedOfPrefix(x, m);
  }

  /** The list an administrator sees after a list has been saved and read by lines: keys move up past
      the empty ones at the front, records stay at their index. */
  function Persisted(w: seq<KeyView>): (r: seq<KeyView>)
    ensures |r| == |Stripped(KeysIn(w))|
    ensures forall i :: 0 <= i < |r| ==> r[i] == w[i].(key := Stripped(KeysIn(w))[i])
  {
    var keys := Stripped(KeysIn(w));
    seq(|keys|, i requires 0 <= i < |keys| => w[i].(key := keys[i]))
  }

  lemma {:induction false} UntailedPersisted(w: seq<KeyView>)
    ensures Persisted(Untailed(w)) == Persisted(w)
  {
    if w != [] && w[|w| - 1].key == "" {
      var init := w[..|w| - 1];
      UntailedPersisted(init);
      assert KeysIn(w)[..|w| - 1] == KeysIn(init);
      assert Stripped(KeysIn(w)) == Stripped(KeysIn(init));
    }
  }

  /** With text in front nothing moves. */
  lemma FrontPersisted(w: seq<KeyView>)
    requires w != [] && w[0].key != ""
    ensures Persisted(w) == Untailed(w) && Untailed(w) != [] && Untailed(w)[0] == w[0]
  {
    UntailedPersisted(w);
    var u := Untailed(w);
    assert |u| > 0;
    assert KeysIn(u)[0] == u[0].key && KeysIn(u)[|u| - 1] == u[|u| - 1].key;
    assert Stripped(KeysIn(u)) == KeysIn(u);
  }

  // ------------------------------------------------------------------ the channel

  /** What is seen after saving a table with some text in its keys. */
  lemma SavedShows(c: Channel, json: JsonArray, kept: Table, before: string)
    requires c.format == StoredFormat(json) && c.SavedAs(kept, before)
    requires SomeText(kept.keys) && OneLine(kept.keys) && ByLines(Join(kept.keys, '\n'), json)
    ensures View(c.Contents()) == Persisted(View(kept)) && c.size == |View(c.Contents())|
  {
    KeysByLines(kept.keys, json);
    ViewKeys(kept);
    SeenAtSameIndex(c.Contents(), kept, c.size);
  }

  lemma SeenAtSameIndex(t: Table, kept: Table, size: nat)
    requires |t.keys| == size <= |kept.keys| && t.keys == Stripped(kept.keys) && KeysIn(View(kept)) == kept.keys
    requires CutTo(t.status, kept.status, size) && t.time == kept.time && t.reason == kept.reason
    ensures View(t) == Persisted(View(kept))
  {
    forall i | 0 <= i < size ensures View(t)[i] == Persisted(View(kept))[i] {
      assert Lookup(t.status, i) == Lookup(kept.status, i);
      assert View(kept)[i] == ViewAt(kept, i);
    }
  }

  /** delete_key on a list read by lines. The call is refused for an index that is not there and for the
      last key. */
  method DeleteByLines(c: Channel, json: JsonArray, n: nat) returns (ok: bool)
    requires c.Valid() && c.format == StoredFormat(json) && c.size == |View(c.Contents())|
    requires
      var rest := KeysIn(RemoveAt(View(c.Contents()), n));
      n < c.size && rest != [] ==> SomeText(rest) && OneLine(rest) && ByLines(Join(rest, '\n'), json)
    modifies c
    ensures c.size == |View(c.Contents())|
    ensures ok == (n < |old(View(c.Contents()))| && RemoveAt(old(View(c.Contents())), n) != [])
    ensures View(c.Contents()) == if ok then Persisted(RemoveAt(old(View(c.Contents())), n)) else old(View(c.Contents()))
  {
    ghost var was, before := View(c.Contents()), c.key;
    ViewKeys(c.Contents());
    if n < |was| { KeysRemoved(was, n); }
    ok := c.DeleteKey(Some(n));
    if ok {
      ghost var kept :| Indexed(kept) && View(kept) == RemoveAt(was, n) && c.SavedAs(kept, before);
      ViewKeys(kept);
      SavedShows(c, json, kept, before);
    }
  }

  lemma KeysRemoved(v: seq<KeyView>, i: nat)
    requires i < |v|
    ensures RemoveAt(KeysIn(v), i) == KeysIn(RemoveAt(v, i))
  {
    var w := RemoveAt(v, i);
    forall j | 0 <= j < |w| ensures RemoveAt(KeysIn(v), i)[j] == KeysIn(w)[j] {
      assert w[j] == if j < i then v[j] else v[j + 1];
    }
  }

  // --------------------------------------------------------------- one key at a time

  /** The list that delete_key saves at the n-th key, on the way down. */
  function StepList(v: seq<KeyView>, n: nat): seq<KeyView>
    requires n < |v|
  {
    RemoveAt(Untailed(DeletedFrom(v, n + 1)), n)
  }

  /** Everything that is saved, at once or on the way down, is read by lines. */
  ghost predicate ReadByLinesAllTheWay(json: JsonArray, v: seq<KeyView>) {
    && ByLines(Join(KeysIn(Surviving(v)), '\n'), json)
    && forall n :: 0 <= n < |v| && v[n].status == AUTO_DISABLED ==> ByLines(Join(KeysIn(StepList(v, n)), '\n'), json)
  }

  /** What a list read by lines looks like: text at both ends, or one empty key. */
  ghost predicate LineView(v: seq<KeyView>) {
    && OneLine(KeysIn(v)) && |v| >= 1
    && (|v| >= 2 || KeysIn(v) != [""] ==> v[0].key != "" && v[|v| - 1].key != "")
  }

  lemma SubListOneLine(v: seq<KeyView>, w: seq<KeyView>)
    requires OneLine(KeysIn(v)) && forall k :: k in w ==> k in v
    ensures OneLine(KeysIn(w))
  {
    forall i | 0 <= i < |w| ensures '\n' !in KeysIn(w)[i] {
      assert w[i] in v;
      var j :| 0 <= j < |v| && v[j] == w[i];
      assert KeysIn(v)[j] == v[j].key;
    }
  }

  lemma DeletedFromKeys(v: seq<KeyView>, n: nat)
    requires n <= |v|
    ensures forall k :: k in DeletedFrom(v, n) ==> k in v
    ensures |DeletedFrom(v, n)| >= n
    ensures forall i :: 0 <= i < n ==> DeletedFrom(v, n)[i] == v[i]
  {
    DeletedFromKeeps(v, n);
    SurvivorsAreKeys(v[n..]);
  }

  lemma StepListKeys(v: seq<KeyView>, n: nat)
    requires n < |v|
    ensures forall k :: k in StepList(v, n) ==> k in v
  {
    DeletedFromKeys(v, n + 1);
    var u := Untailed(DeletedFrom(v, n + 1));
    assert forall k :: k in u ==> k in DeletedFrom(v, n + 1);
    assert forall k :: k in RemoveAt(u, n) ==> k in u;
  }

  /** A step above the lowest index: whatever is saved starts with the first key, so that only empty keys
      at the end are lost, and an index among those is refused. */
  lemma StepDown(v: seq<KeyView>, n: nat)
    requires 1 <= n < |v| && v[0].key != ""
    ensures
      var x := DeletedFrom(v, n + 1);
      && Untailed(x) != [] && Untailed(x)[0] == v[0]
      && (v[n].status != AUTO_DISABLED ==> DeletedFrom(v, n) == x)
      && (v[n].status == AUTO_DISABLED && n >= |Untailed(x)| ==> Untailed(DeletedFrom(v, n)) == Untailed(x))
      && (v[n].status == AUTO_DISABLED && n < |Untailed(x)| ==>
            && StepList(v, n) != [] && StepList(v, n)[0] == v[0]
            && Untailed(DeletedFrom(v, n)) == Persisted(StepList(v, n)))
  {
    var x := DeletedFrom(v, n + 1);
    DeletedFromKeys(v, n + 1);
    FrontPersisted(x);
    if v[n].status == AUTO_DISABLED {
      if n < |Untailed(x)| {
        UntailedRemove(x, n);
        FrontPersisted(StepList(v, n));
      } else {
        UntailedBeyond(x, n);
      }
    }
  }

  /** What the calls leave when the lowest index is reached. */
  function OneByOne(v: seq<KeyView>): seq<KeyView>
    requires v != []
  {
    if SomeText(KeysIn(Surviving(v))) then Persisted(Surviving(v)) else if NoneDisabled(v) then v else [v[0]]
  }

  lemma LowestStep(v: seq<KeyView>)
    requires |v| >= 1 && v[0].key != ""
    ensures
      var u := Untailed(DeletedFrom(v, 1));
      && u != [] && u[0] == v[0] && StepList(v, 0) == u[1..]
      && (v[0].status != AUTO_DISABLED ==> u == OneByOne(v))
      && (v[0].status == AUTO_DISABLED && |u| == 1 ==> u == OneByOne(v))
      && (v[0].status == AUTO_DISABLED && |u| >= 2 ==> SomeText(KeysIn(u[1..])) && Persisted(u[1..]) == OneByOne(v))
  {
    var x, u := DeletedFrom(v, 1), Untailed(DeletedFrom(v, 1));
    LowestList(v);
    FrontPersisted(x);
    DropsFirst(u);
    if v[0].status != AUTO_DISABLED {
      TextSurvives(v);
    } else {
      LowestDeletion(v, Surviving(v), u);
    }
  }

  lemma DropsFirst(u: seq<KeyView>)
    requires u != []
    ensures RemoveAt(u, 0) == u[1..]
  {
  }

  lemma LowestList(v: seq<KeyView>)
    requires |v| >= 1
    ensures DeletedFrom(v, 1) == if v[0].status == AUTO_DISABLED then [v[0]] + Surviving(v) else Surviving(v)
    ensures DeletedFrom(v, 1) != [] && DeletedFrom(v, 1)[0] == v[0]
  {
    var head, tail := v[0], v[1..];
    DeletedFromKeeps(v, 1);
    assert v[..1] == [head];
    SurvivingHead(v, head, tail);
  }

  lemma SurvivingHead(v: seq<KeyView>, head: KeyView, tail: seq<KeyView>)
    requires |v| >= 1 && head == v[0] && tail == v[1..]
    ensures Surviving(v) == if head.status == AUTO_DISABLED then Surviving(tail) else [head] + Surviving(tail)
  {
    assert v == [head] + tail;
    SurvivingPrepend(head, tail);
  }

  lemma TextSurvives(v: seq<KeyView>)
    requires Surviving(v) != [] && Surviving(v)[0].key != ""
    ensures SomeText(KeysIn(Surviving(v)))
  {
    assert KeysIn(Surviving(v))[0] == Surviving(v)[0].key;
  }

  lemma LowestDeletion(v: seq<KeyView>, rest: seq<KeyView>, u: seq<KeyView>)
    requires v != [] && v[0].key != "" && rest == Surviving(v) && v[0].status == AUTO_DISABLED
    requires u == Untailed([v[0]] + rest) && u != []
    ensures |u| == 1 ==> u == OneByOne(v)
    ensures |u| >= 2 ==> SomeText(KeysIn(u[1..])) && Persisted(u[1..]) == OneByOne(v)
  {
    var m := |u| - 1;
    TailOfFront(v[0], rest, [v[0]] + rest, u);
    if m == 0 {
      assert !SomeText(KeysIn(rest));
    } else {
      UntailedLength(rest, m);
      UntailedPersisted(rest);
      assert KeysIn(u[1..])[m - 1] == rest[m - 1].key;
      assert KeysIn(rest)[m - 1] == rest[m - 1].key;
    }
  }

  lemma TailOfFront(k: KeyView, rest: seq<KeyView>, x: seq<KeyView>, u: seq<KeyView>)
    requires x == [k] + rest && u == Untailed(x) && u != []
    ensures |u| - 1 <= |rest| && u[1..] == rest[..|u| - 1]
    ensures forall i :: |u| - 1 <= i < |rest| ==> rest[i].key == ""
    ensures |u| >= 2 ==> rest[|u| - 2].key != ""
  {
    Shift(k, rest, x);
    ShiftedTail(x, rest, u);
  }

  lemma Shift(k: KeyView, rest: seq<KeyView>, x: seq<KeyView>)
    requires x == [k] + rest
    ensures |x| == |rest| + 1 && forall i :: 0 <= i < |rest| ==> rest[i] == x[i + 1]
  {
  }

  lemma ShiftedTail(x: seq<KeyView>, rest: seq<KeyView>, u: seq<KeyView>)
    requires |x| == |rest| + 1 && (forall i :: 0 <= i < |rest| ==> rest[i] == x[i + 1])
    requires 0 < |u| <= |x| && (forall i :: 0 <= i < |u| ==> u[i] == x[i])
    requires u[|u| - 1].key != "" || |u| == 1
    requires forall i :: |u| <= i < |x| ==> x[i].key == ""
    ensures u[1..] == rest[..|u| - 1]
    ensures forall i :: |u| - 1 <= i < |rest| ==> rest[i].key == ""
    ensures |u| >= 2 ==> rest[|u| - 2].key != ""
  {
  }

  lemma SingleKey(v: seq<KeyView>)
    requires |v| == 1
    ensures OneByOne(v) == v
  {
    assert v == [] + [v[0]];
    SurvivingSnoc([], v[0]);
    if v[0].status == AUTO_DISABLED {
      assert Surviving(v) == [];
    } else if v[0].key != "" {
      FrontPersisted(v);
    } else {
      assert KeysIn(v)[0] == "";
    }
  }

  /** What a step saves can be read by lines. */
  lemma StepTexts(v: seq<KeyView>, n: nat, json: JsonArray)
    requires LineView(v) && ReadByLinesAllTheWay(json, v) && n < |v| && v[n].status == AUTO_DISABLED
    ensures OneLine(KeysIn(StepList(v, n))) && ByLines(Join(KeysIn(StepList(v, n)), '\n'), json)
    ensures StepList(v, n) != [] && StepList(v, n)[0].key != "" ==> SomeText(KeysIn(StepList(v, n)))
  {
    StepListKeys(v, n);
    SubListOneLine(v, StepList(v, n));
    if StepList(v, n) != [] && StepList(v, n)[0].key != "" {
      assert KeysIn(StepList(v, n))[0] == StepList(v, n)[0].key;
    }
  }

  /** One call above the lowest index. */
  method DeleteHigherAt(c: Channel, json: JsonArray, disabled: bool, ghost v: seq<KeyView>, n: nat)
    requires c.Valid() && c.format == StoredFormat(json) && c.size == |View(c.Contents())|
    requires LineView(v) && ReadByLinesAllTheWay(json, v) && 1 <= n < |v| && disabled == (v[n].status == AUTO_DISABLED)
    requires View(c.Contents()) == Untailed(DeletedFrom(v, n + 1))
    modifies c
    ensures c.size == |View(c.Contents())| && View(c.Contents()) == Untailed(DeletedFrom(v, n))
  {
    StepDown(v, n);
    if disabled {
      StepTexts(v, n, json);
      var ok := DeleteByLines(c, json, n);
    }
  }

  /** The calls from below n down to above the lowest index. */
  method DeleteHigher(c: Channel, json: JsonArray, disabled: seq<bool>, ghost v: seq<KeyView>, n: nat)
    requires c.Valid() && c.format == StoredFormat(json) && c.size == |View(c.Contents())|
    requires LineView(v) && ReadByLinesAllTheWay(json, v) && 1 <= n <= |v| && Marks(disabled, v)
    requires View(c.Contents()) == Untailed(DeletedFrom(v, n))
    modifies c
    ensures c.size == |View(c.Contents())| && View(c.Contents()) == Untailed(DeletedFrom(v, 1))
  {
    if n > 1 {
      DeleteHigherAt(c, json, disabled[n - 1], v, n - 1);
      DeleteHigher(c, json, disabled, v, n - 1);
    }
  }

  /** Which keys are automatically disabled. */
  ghost predicate Marks(disabled: seq<bool>, v: seq<KeyView>) {
    |disabled| == |v| && forall i :: 0 <= i < |v| ==> disabled[i] == (v[i].status == AUTO_DISABLED)
  }

  /** The call at the lowest index. */
  method DeleteLowest(c: Channel, json: JsonArray, disabled: bool, ghost v: seq<KeyView>)
    requires c.Valid() && c.format == StoredFormat(json) && c.size == |View(c.Contents())|
    requires LineView(v) && ReadByLinesAllTheWay(json, v) && v[0].key != "" && disabled == (v[0].status == AUTO_DISABLED)
    requires View(c.Contents()) == Untailed(DeletedFrom(v, 1))
    modifies c
    ensures View(c.Contents()) == OneByOne(v)
  {
    LowestStep(v);
    if disabled {
      StepTexts(v, 0, json);
      var ok := DeleteByLines(c, json, 0);
    }
  }

  /** The only key is never deleted. */
  method DeleteOnly(c: Channel, json: JsonArray, disabled: bool)
    requires c.Valid() && c.format == StoredFormat(json) && c.size == |View(c.Contents())| == 1
    modifies c
    ensures View(c.Contents()) == old(View(c.Contents()))
  {
    if disabled { var ok := DeleteByLines(c, json, 0); }
  }

  /** delete_key for every index that was automatically disabled, from the highest down, through the
      stored string each time. */
  method DeleteOneByOne(c: Channel, json: JsonArray)
    requires c.Valid() && c.format == StoredFormat(json) && c.size == |View(c.Contents())|
    requires LineView(View(c.Contents())) && ReadByLinesAllTheWay(json, View(c.Contents()))
    modifies c
    ensures View(c.Contents()) == OneByOne(old(View(c.Contents())))
  {
    ghost var v := View(c.Contents());
    var status := c.status;
    var disabled := seq(c.size, i requires 0 <= i => StatusOf(status, i) == AUTO_DISABLED);
    assert Marks(disabled, v);
    if c.size == 1 {
      SingleKey(v);
      DeleteOnly(c, json, disabled[0]);
    } else {
      DeletedFromAll(v);
      DeleteHigher(c, json, disabled, v, c.size);
      DeleteLowest(c, json, disabled[0], v);
    }
  }

  // ------------------------------------------------------------------- all at once

  lemma SurvivorsOneLine(v: seq<KeyView>)
    requires OneLine(KeysIn(v))
    ensures OneLine(KeysIn(Surviving(v)))
  {
    SurvivorsAreKeys(v);
    SubListOneLine(v, Surviving(v));
  }

  /** delete_disabled_keys on a list read by lines. When no text survives, the outcome is never the first
      key alone as it was. */
  method DeleteAtOnce(c: Channel, json: JsonArray)
    requires c.Valid() && c.format == StoredFormat(json)
    requires LineView(View(c.Contents())) && ReadByLinesAllTheWay(json, View(c.Contents()))
    modifies c
    ensures NoneDisabled(old(View(c.Contents()))) ==> View(c.Contents()) == old(View(c.Contents()))
    ensures
      var v := old(View(c.Contents()));
      !NoneDisabled(v) ==>
        if SomeText(KeysIn(Surviving(v))) then View(c.Contents()) == Persisted(Surviving(v))
        else View(c.Contents()) != [v[0]]
  {
    ghost var v, before := View(c.Contents()), c.key;
    ghost var was := c.Contents();
    AllSurviveIff(v);
    SurvivorsOneLine(v);
    var ok, deleted := c.DeleteDisabledKeys();
    if ok && Surviving(v) != [] {
      ghost var kept :| Indexed(kept) && View(kept) == Surviving(v) && c.SavedAs(kept, before);
      ViewKeys(kept);
      if SomeText(kept.keys) {
        SavedShows(c, json, kept, before);
      } else {
        OnlyBlanksSaved(c, json, kept, before, v);
      }
    } else if ok {
      SurvivorsAreKeys(v);
      assert v[0] in v;
      ClearedDiffers(c.Contents(), v);
    }
  }

  lemma ClearedDiffers(t: Table, v: seq<KeyView>)
    requires |v| == |t.keys| >= 1 && SameTable(t, Table(t.keys, map[], map[], map[])) && v[0].status == AUTO_DISABLED
    ensures View(t) != [v[0]]
  {
    assert Lookup(t.status, 0) == None;
    assert View(t)[0] == ViewAt(t, 0);
  }

  lemma OnlyBlanksSaved(c: Channel, json: JsonArray, kept: Table, before: string, v: seq<KeyView>)
    requires c.format == StoredFormat(json) && c.SavedAs(kept, before) && LineView(v)
    requires kept.keys != [] && !SomeText(kept.keys) && |kept.keys| < |v| && |KeysOf(before, json)| == |v|
    ensures View(c.Contents()) != [v[0]]
  {
    BlankText(kept.keys);
    if |kept.keys| >= 2 {
      BlanksByLines(kept.keys, json);
      assert View(c.Contents())[0] == ViewAt(c.Contents(), 0);
    }
  }

  // -------------------------------------------------------------- the two ways compared

  /** A consistent channel whose text is read by lines starts out like that. */
  lemma StartsAsLines(c: Channel, json: JsonArray)
    requires c.format == StoredFormat(json) && c.Consistent() && ByLines(c.key, json)
    ensures LineView(View(c.Contents())) && c.size == |View(c.Contents())|
  {
    ReadByLines(c.key, json);
    ViewKeys(c.Contents());
    var v := View(c.Contents());
    assert KeysIn(v)[0] == v[0].key && KeysIn(v)[|v| - 1] == v[|v| - 1].key;
  }

  /** Two channels that look alike, one cleaned at once and one key by key: they look alike afterwards if
      and only if no key was automatically disabled or a key that is not empty survives. */
  method BothWaysAgreeIff(a: Channel, b: Channel, json: JsonArray)
    requires a != b && a.Valid() && b.Valid() && a.Consistent() && b.Consistent()
    requires a.format == b.format == StoredFormat(json) && View(a.Contents()) == View(b.Contents())
    requires LineView(View(a.Contents())) && ReadByLinesAllTheWay(json, View(a.Contents()))
    modifies a, b
    ensures
      var v := old(View(a.Contents()));
      View(a.Contents()) == View(b.Contents()) <==> NoneDisabled(v) || SomeText(KeysIn(Surviving(v)))
  {
    ghost var v := View(a.Contents());
    DeleteAtOnce(a, json);
    DeleteOneByOne(b, json);
    AllSurviveIff(v);
    if NoneDisabled(v) { KeptAsIs(v); }
  }

  /** Where the survivors fit, both ways leave exactly the survivors. */
  lemma FittingSurvivors(v: seq<KeyView>)
    requires v != [] && Lines(KeysIn(Surviving(v)), '\n')
    ensures OneByOne(v) == Surviving(v)
  {
    var w := Surviving(v);
    assert KeysIn(w)[0] == w[0].key;
    FrontPersisted(w);
    TextSurvives(v);
    assert KeysIn(w)[|w| - 1] == w[|w| - 1].key;
  }

  lemma KeptAsIs(v: seq<KeyView>)
    requires LineView(v) && NoneDisabled(v)
    ensures OneByOne(v) == v
  {
    AllSurviveIff(v);
    if |v| == 1 {
      SingleKey(v);
    } else {
      FrontPersisted(v);
      TextSurvives(v);
    }
  }
}
