/** Key lists that the stored format holds and lists that it does not, how a new channel gets one, and
    append mode. */
module MultiKeyProof {
  import opened Wrappers
  import opened Text
  import opened MultiKey
  import opened MultiKeyDeletion
  import opened NameLists

  // --------------------------------------------------------- lists that always fit

  /** A key that can stand anywhere in a stored list. */
  predicate PlainKey(k: string) {
    '\n' !in k && TrimSpace(k) != "" && TrimSpace(k)[0] != '['
  }

  /** Read by lines, whatever the parser of JSON arrays says. */
  predicate Storable(keys: seq<string>) {
    Lines(keys, '\n') && !LooksLikeJson(Join(keys, '\n'))
  }

  lemma PlainKeyNonEmpty(k: string)
    requires PlainKey(k)
    ensures k != ""
  {
    TrimStarts(k, Space);
  }

  /** Any non-empty list of plain keys is storable. */
  lemma PlainIsStorable(keys: seq<string>)
    requires |keys| >= 1 && forall i :: 0 <= i < |keys| ==> PlainKey(keys[i])
    ensures Storable(keys)
  {
    PlainKeyNonEmpty(keys[0]);
    PlainKeyNonEmpty(keys[|keys| - 1]);
    var rest := JoinHead(keys);
    PlainStart(keys[0], rest);
  }

  lemma JoinHead(keys: seq<string>) returns (rest: string)
    requires |keys| >= 1
    ensures Join(keys, '\n') == keys[0] + rest
  {
    rest := if |keys| == 1 then "" else ['\n'] + Join(keys[1..], '\n');
  }

  lemma PlainStart(k: string, rest: string)
    requires PlainKey(k)
    ensures !LooksLikeJson(k + rest)
  {
    TrimStartAppend(k, rest, Space);
  }

  /** Keys that never look like a JSON array, in whatever list. */
  predicate PlainOrEmpty(keys: seq<string>) { forall i :: 0 <= i < |keys| ==> keys[i] == "" || PlainKey(keys[i]) }

  lemma {:induction false} NeverJson(keys: seq<string>)
    requires PlainOrEmpty(keys)
    ensures !LooksLikeJson(Join(keys, '\n'))
  {
    if keys == [] || keys == [""] {
      TrimKeepsTrimmed("", Space);
    } else if keys[0] == "" {
      NeverJson(keys[1..]);
      assert Join(keys, '\n') == ['\n'] + Join(keys[1..], '\n');
      TrimFront('\n', Join(keys[1..], '\n'), Space);
    } else {
      var rest := JoinHead(keys);
      PlainStart(keys[0], rest);
    }
  }

  lemma SubListPlain(v: seq<KeyView>, w: seq<KeyView>)
    requires PlainOrEmpty(KeysIn(v)) && forall k :: k in w ==> k in v
    ensures PlainOrEmpty(KeysIn(w))
  {
    forall i | 0 <= i < |w| ensures KeysIn(w)[i] == "" || PlainKey(KeysIn(w)[i]) {
      assert w[i] in v;
      var j :| 0 <= j < |v| && v[j] == w[i];
      assert KeysIn(v)[j] == v[j].key;
    }
  }

  /** Plain keys and empty ones are read by lines at every step of a deletion. */
  lemma PlainReadByLines(v: seq<KeyView>, json: JsonArray)
    requires PlainOrEmpty(KeysIn(v))
    ensures ReadByLinesAllTheWay(json, v)
  {
    SurvivorsAreKeys(v);
    SubListPlain(v, Surviving(v));
    NeverJson(KeysIn(Surviving(v)));
    forall n | 0 <= n < |v| ensures ByLines(Join(KeysIn(StepList(v, n)), '\n'), json) {
      StepListKeys(v, n);
      SubListPlain(v, StepList(v, n));
      NeverJson(KeysIn(StepList(v, n)));
    }
  }

  /** The two ways of deleting differ when only an empty key survives: at once, all three keys stay and the
      first is enabled; one by one, the first key remains, still disabled. */
  method OnlyBlankSurvives(json: JsonArray, x: string, y: string) returns (a: Channel, b: Channel)
    requires PlainKey(x) && PlainKey(y)
    ensures View(a.Contents()) != View(b.Contents())
    ensures a.Contents().keys == [x, "", y] && StatusOf(a.status, 0) == ENABLED
    ensures View(b.Contents()) == [KeyView(x, AUTO_DISABLED, None, None)]
  {
    var keys := [x, "", y];
    BlankInMiddle(x, y, keys, json);
    a := new Channel(json, Join(keys, '\n'), 3, map[0 := AUTO_DISABLED, 2 := AUTO_DISABLED], map[], map[]);
    b := new Channel(json, Join(keys, '\n'), 3, map[0 := AUTO_DISABLED, 2 := AUTO_DISABLED], map[], map[]);
    ghost var v := View(a.Contents());
    ViewKeys(a.Contents());
    BlankBetween(v, x, y);
    OnlyBlankSurvivors(v);
    PlainReadByLines(v, json);
    var done, deleted := a.DeleteDisabledKeys();
    ghost var kept :| Indexed(kept) && View(kept) == Surviving(v) && a.SavedAs(kept, Join(keys, '\n'));
    BlankSaved(a, json, kept, keys);
    DeleteOneByOne(b, json);
  }

  lemma BlankBetween(v: seq<KeyView>, x: string, y: string)
    requires PlainKey(x) && PlainKey(y) && KeysIn(v) == [x, "", y]
    ensures LineView(v) && PlainOrEmpty(KeysIn(v))
  {
    PlainKeyNonEmpty(x);
    PlainKeyNonEmpty(y);
    assert v[0].key == KeysIn(v)[0] && v[2].key == KeysIn(v)[2];
  }

  lemma OnlyBlankSurvivors(v: seq<KeyView>)
    requires |v| == 3 && v[0].status == AUTO_DISABLED && v[2].status == AUTO_DISABLED
    requires v[1] == KeyView("", ENABLED, None, None)
    ensures Surviving(v) == [v[1]] && OneByOne(v) == [v[0]]
  {
    MiddleSurvives(v);
    assert KeysIn([v[1]])[0] == "";
  }

  lemma MiddleSurvives(v: seq<KeyView>)
    requires |v| == 3 && v[0].status == AUTO_DISABLED && v[1].status != AUTO_DISABLED && v[2].status == AUTO_DISABLED
    ensures Surviving(v) == [v[1]]
  {
    var one, two := [v[0]], [v[0], v[1]];
    assert one == [] + [v[0]] && two == one + [v[1]] && v == two + [v[2]];
    SurvivingSnoc([], v[0]);
    SurvivingSnoc(one, v[1]);
    SurvivingSnoc(two, v[2]);
  }

  lemma BlankSaved(c: Channel, json: JsonArray, kept: Table, keys: seq<string>)
    requires c.format == StoredFormat(json) && c.SavedAs(kept, Join(keys, '\n'))
    requires View(kept) == [KeyView("", ENABLED, None, None)] && KeysOf(Join(keys, '\n'), json) == keys && |keys| == 3
    ensures c.Contents().keys == keys && StatusOf(c.status, 0) == ENABLED && |View(c.Contents())| == 3
  {
    ViewKeys(kept);
    assert kept.keys == [""];
    assert View(kept)[0] == ViewAt(kept, 0);
    assert c.size == 3;
    assert Lookup(c.status, 0) == Lookup(kept.status, 0);
  }

  // ------------------------------------------------------ lists that do not fit

  /** A leading blank key is not read back. */
  lemma LeadingBlankIsLost(k: string, keys: seq<string>, json: JsonArray)
    requires PlainKey(k) && keys == ["", k]
    ensures KeysOf(Join(keys, '\n'), json) == [k] && CountKeys(Join(keys, '\n'), json) == 1 && !Restorable(keys, json)
  {
    var text := Join(keys, '\n');
    assert keys[1..] == [k];
    assert text == keys[0] + ['\n'] + Join([k], '\n');
    assert text == ['\n'] + k;
    BlankStart(k, text);
    BlankTrimmed(k, text);
    SplitNoSep(k, '\n');
    ReadsBackIff(keys, json);
  }

  lemma BlankStart(k: string, text: string)
    requires PlainKey(k) && text == ['\n'] + k
    ensures !LooksLikeJson(text)
  {
    TrimFront('\n', k, Space);
    assert TrimSpace(text) == TrimSpace(k);
  }

  lemma BlankTrimmed(k: string, text: string)
    requires PlainKey(k) && text == ['\n'] + k
    ensures Trim(text, Only('\n')) == k
  {
    TrimFront('\n', k, Only('\n'));
    TrimKeepsTrimmed(k, Only('\n'));
  }

  /** The deletion that goes wrong: with an empty key in the middle and the last key automatically
      disabled, deleting the first key makes the last one the only key, enables it, and leaves its time
      and reason under an index that no longer exists. */
  method BlankKeyShifts(json: JsonArray, a: string, b: string, at: int) returns (c: Channel)
    requires PlainKey(a) && PlainKey(b)
    ensures c.Contents().keys == [b] && c.size == 1 && StatusOf(c.status, 0) == ENABLED
    ensures 1 in c.time && c.time[1] == at && !c.Consistent()
  {
    var keys := [a, "", b];
    BlankInMiddle(a, b, keys, json);
    c := new Channel(json, Join(keys, '\n'), 3, map[2 := AUTO_DISABLED], map[2 := at], map[2 := ""]);
    ghost var was := c.Contents();
    var ok := c.DeleteKey(Some(0));
    ghost var kept :| Indexed(kept) && View(kept) == RemoveAt(View(was), 0) && c.SavedAs(kept, Join(keys, '\n'));
    Shifted(was, kept, a, b, at);
    LeadingBlankIsLost(b, kept.keys, json);
    SavedShifted(c, kept, Join(keys, '\n'));
  }

  lemma Shifted(was: Table, kept: Table, a: string, b: string, at: int)
    requires was.keys == [a, "", b] && was.status == map[2 := AUTO_DISABLED] && was.time == map[2 := at]
    requires Indexed(kept) && View(kept) == RemoveAt(View(was), 0)
    ensures kept.keys == ["", b] && StatusOf(kept.status, 0) == ENABLED && Lookup(kept.time, 1) == Some(at)
  {
    assert |kept.keys| == 2;
    assert View(kept)[0] == ViewAt(was, 1) == ViewAt(kept, 0);
    assert View(kept)[1] == ViewAt(was, 2) == ViewAt(kept, 1);
  }

  lemma SavedShifted(c: Channel, kept: Table, before: string)
    requires c.SavedAs(kept, before) && kept.keys != []
    requires c.format.count(Join(kept.keys, '\n')) == 1 && Join(kept.keys, '\n') != ""
    ensures c.key == Join(kept.keys, '\n') && c.size == 1 && c.time == kept.time
    ensures StatusOf(c.status, 0) == StatusOf(kept.status, 0)
  {
    assert Lookup(c.status, 0) == Lookup(kept.status, 0);
  }

  /** An empty key in the middle is read back. */
  lemma BlankInMiddle(a: string, b: string, keys: seq<string>, json: JsonArray)
    requires PlainKey(a) && PlainKey(b) && keys == [a, "", b]
    ensures KeysOf(Join(keys, '\n'), json) == keys
  {
    PlainKeyNonEmpty(a);
    PlainKeyNonEmpty(b);
    var rest := JoinHead(keys);
    PlainStart(a, rest);
    ReadsBackIff(keys, json);
  }

  // ---------------------------------------------------------- adding a channel

  /** The keys of a new channel: empty lines are skipped before trimming, so a line of blanks becomes
      an empty key. */
  function AddedKeys(lines: seq<string>): seq<string> {
    if lines == [] then []
    else
      var last := lines[|lines| - 1];
      AddedKeys(lines[..|lines| - 1]) + (if last == "" then [] else [TrimSpace(last)])
  }

  method CleanKeys(text: string) returns (key: string, size: nat)
    ensures key == Join(AddedKeys(Split(text, '\n')), '\n') && size == |AddedKeys(Split(text, '\n'))|
  {
    var lines := Split(text, '\n');
    var clean := [];
    for i := 0 to |lines|
      invariant clean == AddedKeys(lines[..i])
    {
      assert lines[..i + 1][..i] == lines[..i];
      if lines[i] == "" { continue; }
      clean := clean + [TrimSpace(lines[i])];
    }
    assert lines[..|lines|] == lines;
    key, size := Join(clean, '\n'), |clean|;
  }

  /** The added keys are the non-empty lines, each trimmed, in order. */
  lemma {:induction false} AddedKeysAre(lines: seq<string>)
    ensures |AddedKeys(lines)| == |Drop(lines, {""})|
    ensures forall i :: 0 <= i < |AddedKeys(lines)| ==> AddedKeys(lines)[i] == TrimSpace(Drop(lines, {""})[i])
  {
    if lines != [] { AddedKeysAre(lines[..|lines| - 1]); }
  }

  lemma {:induction false} AddedOneLine(lines: seq<string>)
    requires forall i :: 0 <= i < |lines| ==> '\n' !in lines[i]
    ensures forall i :: 0 <= i < |AddedKeys(lines)| ==> '\n' !in AddedKeys(lines)[i]
  {
    if lines != [] {
      AddedOneLine(lines[..|lines| - 1]);
      var last := lines[|lines| - 1];
      if '\n' in TrimSpace(last) { TrimIsInfix(last, Space, '\n'); }
    }
  }

  /** A new channel whose text is not a JSON array is stored as submitted, with the right size, exactly
      when neither its first nor its last non-empty line is blank. */
  lemma AddedReadsBack(text: string, keys: seq<string>, json: JsonArray)
    requires keys == AddedKeys(Split(text, '\n')) && keys != [] && !LooksLikeJson(Join(keys, '\n'))
    ensures KeysOf(Join(keys, '\n'), json) == keys <==> keys[0] != "" && keys[|keys| - 1] != ""
  {
    AddedOneLines(text);
    PlainTextReadsBack(keys, json);
  }

  lemma PlainTextReadsBack(keys: seq<string>, json: JsonArray)
    requires keys != [] && !LooksLikeJson(Join(keys, '\n')) && forall i :: 0 <= i < |keys| ==> '\n' !in keys[i]
    ensures KeysOf(Join(keys, '\n'), json) == keys <==> keys[0] != "" && keys[|keys| - 1] != ""
  {
    ReadsBackIff(keys, json);
    assert Restorable(keys, json) <==> Lines(keys, '\n');
  }

  lemma AddedOneLines(text: string)
    ensures
      var keys := AddedKeys(Split(text, '\n'));
      forall i :: 0 <= i < |keys| ==> '\n' !in keys[i]
  {
    var lines := Split(text, '\n');
    assert forall i :: 0 <= i < |lines| ==> lines[i] in lines;
    AddedOneLine(lines);
  }

  // -------------------------------------------------------------- append mode

  /** How append mode reads the stored keys: unlike GetKeys, a string that looks like a JSON array
      and does not parse counts as no keys at all. */
  function ExistingKeys(key: string, json: JsonArray): seq<string> {
    if LooksLikeJson(key) then
      (if json(TrimSpace(key)).Some? then json(TrimSpace(key)).value else [])
    else Split(Trim(key, Only('\n')), '\n')
  }

  /** The trimmed forms of the stored keys, blanks left out. */
  function SeenIn(keys: seq<string>): set<string> {
    set k | k in keys && TrimSpace(k) != "" :: TrimSpace(k)
  }

  function Appended(existing: seq<string>, text: string): seq<string> {
    Fresh(Candidates(Split(text, '\n')), SeenIn(existing))
  }

  method TrimLines(lines: seq<string>) returns (newKeys: seq<string>)
    ensures newKeys == Candidates(lines)
  {
    newKeys := [];
    for i := 0 to |lines|
      invariant newKeys == Candidates(lines[..i])
    {
      assert lines[..i + 1][..i] == lines[..i];
      var key := TrimSpace(lines[i]);
      if key != "" { newKeys := newKeys + [key]; }
    }
    assert lines[..|lines|] == lines;
  }

  method SeenKeys(keys: seq<string>) returns (seen: set<string>)
    ensures seen == SeenIn(keys)
  {
    seen := {};
    for i := 0 to |keys|
      invariant seen == SeenIn(keys[..i])
    {
      assert keys[..i + 1] == keys[..i] + [keys[i]];
      var normalized := TrimSpace(keys[i]);
      if normalized == "" { continue; }
      seen := seen + {normalized};
    }
    assert keys[..|keys|] == keys;
  }

  method Dedupe(newKeys: seq<string>, seenBefore: set<string>) returns (deduped: seq<string>)
    requires forall i :: 0 <= i < |newKeys| ==> Trimmed(newKeys[i], Space) && newKeys[i] != ""
    ensures deduped == Fresh(newKeys, seenBefore)
  {
    deduped := [];
    var seen := seenBefore;
    for i := 0 to |newKeys|
      invariant deduped == Fresh(newKeys[..i], seenBefore)
      invariant seen == seenBefore + set k | k in deduped
    {
      assert newKeys[..i + 1][..i] == newKeys[..i];
      TrimKeepsTrimmed(newKeys[i], Space);
      var normalized := TrimSpace(newKeys[i]);
      if normalized == "" { continue; }
      if normalized in seen { continue; }
      seen := seen + {normalized};
      deduped := deduped + [normalized];
    }
    assert newKeys[..|newKeys|] == newKeys;
  }

  /** The append branch of UpdateChannel for line-separated keys: the string to be stored. A
      channel without a key takes the submitted text as it is. */
  method AppendKeys(stored: string, text: string, json: JsonArray) returns (key: string)
    ensures key == if stored == "" then text
                   else Join(ExistingKeys(stored, json) + Appended(ExistingKeys(stored, json), text), '\n')
  {
    if stored == "" { return text; }
    var existing := ExistingKeys(stored, json);
    var newKeys := TrimLines(Split(text, '\n'));
    var seen := SeenKeys(existing);
    CandidatesTrimmed(Split(text, '\n'));
    var deduped := Dedupe(newKeys, seen);
    key := Join(existing + deduped, '\n');
  }

  lemma {:induction false} CandidatesOneLine(lines: seq<string>)
    requires forall i :: 0 <= i < |lines| ==> '\n' !in lines[i]
    ensures forall i :: 0 <= i < |Candidates(lines)| ==> '\n' !in Candidates(lines)[i]
  {
    if lines != [] {
      CandidatesOneLine(lines[..|lines| - 1]);
      var last := lines[|lines| - 1];
      if '\n' in TrimSpace(last) { TrimIsInfix(last, Space, '\n'); }
    }
  }

  /** What is appended: trimmed, non-blank candidates of the text, none of them stored before, no
      one twice, and together with the stored keys all of them. */
  lemma AppendedKeys(existing: seq<string>, text: string)
    ensures
      var added, candidates := Appended(existing, text), Candidates(Split(text, '\n'));
      && (forall k :: k in added ==> k in candidates && k !in SeenIn(existing))
      && (forall k :: k in candidates ==> k in SeenIn(existing) || k in added)
      && (forall i, j :: 0 <= i < j < |added| ==> added[i] != added[j])
      && (forall k :: k in added ==> k != "" && '\n' !in k && TrimSpace(k) == k)
      && InOrder(added, candidates)
  {
    var lines := Split(text, '\n');
    FreshInOrder(Candidates(lines), SeenIn(existing));
    var added, candidates := Appended(existing, text), Candidates(lines);
    FreshIsNew(candidates, SeenIn(existing));
    CandidatesTrimmed(lines);
    assert forall i :: 0 <= i < |lines| ==> lines[i] in lines;
    CandidatesOneLine(lines);
    forall k | k in added ensures k != "" && '\n' !in k && TrimSpace(k) == k {
      assert k in candidates;
      TrimKeepsTrimmed(k, Space);
    }
  }

  /** A stored list that is not blank stays storable when keys are appended to it. */
  lemma AppendStaysStorable(existing: seq<string>, added: seq<string>)
    requires Storable(existing) && TrimSpace(Join(existing, '\n')) != ""
    requires forall k :: k in added ==> k != "" && '\n' !in k
    ensures Storable(existing + added)
  {
    assert forall i :: 0 <= i < |added| ==> added[i] in added;
    if added == [] {
      assert existing + added == existing;
    } else {
      JoinConcat(existing, added, '\n');
      TrimStartAppend(Join(existing, '\n'), ['\n'] + Join(added, '\n'), Space);
    }
  }

  /** Through the stored string: the old keys stay an unchanged prefix, the added ones follow, and
      appending the same text again changes nothing. */
  lemma AppendRoundTrip(existing: seq<string>, text: string, json: JsonArray)
    requires Storable(existing) && TrimSpace(Join(existing, '\n')) != ""
    ensures
      var all := existing + Appended(existing, text);
      var key := Join(all, '\n');
      && KeysOf(key, json) == all && ExistingKeys(key, json) == all && CountKeys(key, json) == |all|
      && Appended(all, text) == []
  {
    var added := Appended(existing, text);
    AppendedKeys(existing, text);
    AppendStaysStorable(existing, added);
    ReadsBackIff(existing + added, json);
    NothingNew(existing, added, text);
  }

  lemma NothingNew(existing: seq<string>, added: seq<string>, text: string)
    requires added == Appended(existing, text)
    ensures Appended(existing + added, text) == []
  {
    AppendedKeys(existing, text);
    forall k | k in Candidates(Split(text, '\n')) ensures k in SeenIn(existing + added) {
      if k in added {
        assert k in existing + added && TrimSpace(k) == k;
      }
    }
    NothingFresh(Candidates(Split(text, '\n')), SeenIn(existing + added));
  }

  /** An empty JSON array holds no key, but is counted as one: such a channel is never consistent. */
  lemma EmptyArrayMiscounted(key: string, json: JsonArray)
    requires key != "" && LooksLikeJson(key) && json(TrimSpace(key)) == Some([])
    ensures KeysOf(key, json) == [] && CountKeys(key, json) == |Split(Trim(key, Only('\n')), '\n')| >= 1
  {
  }

  /** A stored string that looks like a JSON array but does not parse loses its keys: append mode
      reads none where GetKeys reads lines. On every other string the two agree. */
  lemma AppendReadsLikeGetKeys(key: string, json: JsonArray)
    requires key != ""
    ensures ExistingKeys(key, json) == KeysOf(key, json)
            <==> !(LooksLikeJson(key) && json(TrimSpace(key)).None?)
    ensures LooksLikeJson(key) && json(TrimSpace(key)).None? ==> ExistingKeys(key, json) == [] && KeysOf(key, json) != []
  {
  }
}
