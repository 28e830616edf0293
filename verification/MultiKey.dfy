/** Multi-key channels: a key list stored as one string, and three maps from key index to status,
    disabling time and reason that must be re-indexed together when keys are deleted. */
module MultiKey {
  import opened Wrappers
  import opened Text

  const ENABLED := 1
  const MANUALLY_DISABLED := 2
  const AUTO_DISABLED := 3

  type JsonArray = string -> Option<seq<string>>

  // ------------------------------------------------------------ the stored key list

  predicate LooksLikeJson(key: string) { HasPrefix(TrimSpace(key), "[") }

  /** Channel.GetKeys: a JSON array when it parses as one, otherwise one key per line. */
  function KeysOf(key: string, json: JsonArray): seq<string> {
    if key == "" then []
    else if LooksLikeJson(key) && json(TrimSpace(key)).Some? then json(TrimSpace(key)).value
    else Split(Trim(key, Only('\n')), '\n')
  }

  /** The key count of Channel.Update, which takes an empty JSON array for plain text. */
  function CountKeys(key: string, json: JsonArray): nat {
    var keys := KeysOf(key, json);
    if key != "" && keys == [] then |Split(Trim(key, Only('\n')), '\n')| else |keys|
  }

  /** Lists that survive being joined into one string and read back. A joined string that happens to
      be a JSON array must parse to the very keys; any other is read by lines. */
  predicate Restorable(keys: seq<string>, json: JsonArray) {
    var text := Join(keys, '\n');
    if LooksLikeJson(text) && json(TrimSpace(text)).Some? then keys != [] && json(TrimSpace(text)).value == keys
    else Lines(keys, '\n')
  }

  lemma JoinedBlank(keys: seq<string>)
    requires keys != [] && Join(keys, '\n') == ""
    ensures keys == [""]
  {
  }

  /** The condition is exact. */
  lemma ReadsBackIff(keys: seq<string>, json: JsonArray)
    requires keys != []
    ensures KeysOf(Join(keys, '\n'), json) == keys <==> Restorable(keys, json)
    ensures Restorable(keys, json) ==> Join(keys, '\n') != "" && CountKeys(Join(keys, '\n'), json) == |keys|
  {
    var text := Join(keys, '\n');
    if text == "" {
      JoinedBlank(keys);
      TrimKeepsTrimmed("", Space);
    } else if !(LooksLikeJson(text) && json(TrimSpace(text)).Some?) {
      if Lines(keys, '\n') { SplitTrimJoin(keys, '\n'); }
      if KeysOf(text, json) == keys { LinesRead(text, keys); }
    }
  }

  lemma LinesRead(text: string, keys: seq<string>)
    requires text != "" && keys != [] && text == Join(keys, '\n')
    requires Split(Trim(text, Only('\n')), '\n') == keys
    ensures Lines(keys, '\n')
  {
    if Trim(text, Only('\n')) != "" { TrimSplitLines(text, '\n'); }
  }

  /** How a stored string is read: the key list of GetKeys, the key count of Update, and which lists
      can be stored. */
  datatype Format = Format(read: string -> seq<string>, count: string -> nat, fits: seq<string> -> bool)

  function StoredFormat(json: JsonArray): Format {
    Format((k: string) => KeysOf(k, json), (k: string) => CountKeys(k, json), (keys: seq<string>) => Restorable(keys, json))
  }

  /** Exactly the lists that fit come back, and both readings agree on the number of keys whenever
      there is one. */
  ghost predicate ReadsBack(f: Format) {
    && (forall keys :: keys != [] ==> FitsExactly(f, keys))
    && (forall text :: f.read(text) != [] ==> f.count(text) == |f.read(text)|)
  }

  ghost predicate FitsExactly(f: Format, keys: seq<string>) {
    var text := Join(keys, '\n');
    && (f.fits(keys) <==> f.read(text) == keys)
    && (f.fits(keys) ==> text != "" && f.count(text) == |keys|)
  }

  lemma StoredFormatReadsBack(json: JsonArray)
    ensures ReadsBack(StoredFormat(json))
  {
    forall keys | keys != [] ensures FitsExactly(StoredFormat(json), keys) { ReadsBackIff(keys, json); }
  }

  // ------------------------------------------------------------------- what is seen

  datatype Table = Table(keys: seq<string>, status: map<int, int>, time: map<int, int>, reason: map<int, string>)

  /** One key as the administrator sees it: time and reason only while it is disabled. */
  datatype KeyView = KeyView(key: string, status: int, time: Option<int>, reason: Option<string>)

  function Lookup<V>(m: map<int, V>, i: int): Option<V> { if i in m then Some(m[i]) else None }

  function StatusOf(status: map<int, int>, i: int): int { if i in status then status[i] else ENABLED }

  function ViewAt(t: Table, i: nat): KeyView
    requires i < |t.keys|
  {
    var s := StatusOf(t.status, i);
    if s == ENABLED then KeyView(t.keys[i], s, None, None)
    else KeyView(t.keys[i], s, Lookup(t.time, i), Lookup(t.reason, i))
  }

  function View(t: Table): (v: seq<KeyView>)
    ensures |v| == |t.keys|
    ensures forall i :: 0 <= i < |v| ==> v[i] == ViewAt(t, i)
  {
    seq(|t.keys|, i requires 0 <= i < |t.keys| => ViewAt(t, i))
  }

  /** No map mentions an index beyond the key list. */
  ghost predicate Indexed(t: Table) {
    && (forall i :: i in t.status ==> 0 <= i < |t.keys|)
    && (forall i :: i in t.time ==> 0 <= i < |t.keys|)
    && (forall i :: i in t.reason ==> 0 <= i < |t.keys|)
  }

  function RemoveAt<T>(s: seq<T>, i: int): seq<T> {
    if 0 <= i < |s| then s[..i] + s[i + 1..] else s
  }

  /** The keys that are not automatically disabled. */
  function Surviving(v: seq<KeyView>): seq<KeyView> {
    if v == [] then []
    else
      var last := v[|v| - 1];
      Surviving(v[..|v| - 1]) + (if last.status == AUTO_DISABLED then [] else [last])
  }

  function KeysIn(v: seq<KeyView>): seq<string> { seq(|v|, i requires 0 <= i < |v| => v[i].key) }

  /** The same entries, index by index. */
  ghost predicate Same<V>(a: map<int, V>, b: map<int, V>) {
    forall i: int :: Lookup(a, i) == Lookup(b, i)
  }

  ghost predicate SameTable(a: Table, b: Table) {
    a.keys == b.keys && Same(a.status, b.status) && Same(a.time, b.time) && Same(a.reason, b.reason)
  }

  lemma SameTableSameView(a: Table, b: Table)
    requires SameTable(a, b)
    ensures View(a) == View(b) && (Indexed(a) <==> Indexed(b))
  {
    forall i | 0 <= i < |a.keys| ensures View(a)[i] == View(b)[i] {
      assert Lookup(a.status, i) == Lookup(b.status, i);
    }
    forall i: int ensures i in a.status <==> i in b.status { assert Lookup(a.status, i) == Lookup(b.status, i); }
    forall i: int ensures i in a.time <==> i in b.time { assert Lookup(a.time, i) == Lookup(b.time, i); }
    forall i: int ensures i in a.reason <==> i in b.reason { assert Lookup(a.reason, i) == Lookup(b.reason, i); }
  }

  /** Appending one key to a table whose maps do not mention its index yet. */
  lemma ViewGrows(t: Table, t': Table, last: KeyView)
    requires Indexed(t) && t'.keys == t.keys + [last.key]
    requires Indexed(t') && ViewAt(t', |t.keys|) == last
    requires forall i :: 0 <= i < |t.keys| ==>
               StatusOf(t'.status, i) == StatusOf(t.status, i)
               && Lookup(t'.time, i) == Lookup(t.time, i) && Lookup(t'.reason, i) == Lookup(t.reason, i)
    ensures View(t') == View(t) + [last]
  {
    forall i | 0 <= i < |t'.keys| ensures View(t')[i] == (View(t) + [last])[i] {
      if i < |t.keys| {
        assert ViewAt(t', i) == ViewAt(t, i);
      }
    }
  }

  // ------------------------------------------------------------ the rebuilding loops

  lemma RemoveAtGrows<T>(s: seq<T>, n: nat, i: nat)
    requires n < |s|
    ensures RemoveAt(s[..n + 1], i) == if n == i then RemoveAt(s[..n], i) else RemoveAt(s[..n], i) + [s[n]]
  {
    if i < n {
      assert s[..n + 1][i + 1..] == s[..n][i + 1..] + [s[n]];
      assert s[..n + 1][..i] == s[..n][..i];
    } else if i == n {
      assert s[..n + 1][..i] == s[..n];
    }
  }

  /** One round of either loop: the key moves to the next free index with its records. delete_key
      copies the time and reason of enabled keys too, delete_disabled_keys does not. */
  method KeepKey(was: Table, i: nat, kept: Table, copyAll: bool) returns (grown: Table)
    requires i < |was.keys| && Indexed(kept)
    ensures Indexed(grown) && View(grown) == View(kept) + [View(was)[i]]
    ensures grown.keys == kept.keys + [was.keys[i]]
  {
    var n := |kept.keys|;
    var status, time, reason := kept.status, kept.time, kept.reason;
    var s := ENABLED;
    if i in was.status { s := was.status[i]; }
    if s != ENABLED { status := status[n := s]; }
    if copyAll || s != ENABLED {
      if i in was.time { time := time[n := was.time[i]]; }
      if i in was.reason { reason := reason[n := was.reason[i]]; }
    }
    grown := Table(kept.keys + [was.keys[i]], status, time, reason);
    ViewGrows(kept, grown, View(was)[i]);
  }

  /** The loop of delete_key: everything but one index, in order, under new indices. */
  method Without(was: Table, keyIndex: nat) returns (kept: Table)
    ensures Indexed(kept) && View(kept) == RemoveAt(View(was), keyIndex)
    ensures kept.keys == RemoveAt(was.keys, keyIndex)
  {
    ghost var before := View(was);
    kept := Table([], map[], map[], map[]);
    for i := 0 to |was.keys|
      invariant Indexed(kept)
      invariant View(kept) == RemoveAt(before[..i], keyIndex)
      invariant kept.keys == RemoveAt(was.keys[..i], keyIndex)
    {
      if i != keyIndex {
        kept := KeepKey(was, i, kept, true);
      }
      RemoveAtGrows(before, i, keyIndex);
      RemoveAtGrows(was.keys, i, keyIndex);
    }
    assert before[..|before|] == before && was.keys[..|was.keys|] == was.keys;
  }

  /** The loop of delete_disabled_keys: everything but the automatically disabled keys. */
  method Survivors(was: Table) returns (kept: Table, deleted: nat)
    ensures Indexed(kept) && View(kept) == Surviving(View(was))
    ensures deleted == |was.keys| - |kept.keys|
  {
    ghost var before := View(was);
    kept := Table([], map[], map[], map[]);
    deleted := 0;
    for i := 0 to |was.keys|
      invariant Indexed(kept)
      invariant View(kept) == Surviving(before[..i])
      invariant deleted == i - |kept.keys|
    {
      assert before[..i + 1][..i] == before[..i];
      var s := ENABLED;
      if i in was.status { s := was.status[i]; }
      if s == AUTO_DISABLED {
        deleted := deleted + 1;
      } else {
        kept := KeepKey(was, i, kept, false);
      }
    }
    assert before[..|before|] == before;
  }

  /** The loop of disable_all_keys: only enabled keys change, and they are counted. */
  method DisableEnabled(status: map<int, int>, size: int) returns (disabled: map<int, int>, count: nat)
    requires size >= 0
    ensures forall i :: 0 <= i < size ==>
              StatusOf(disabled, i) == if StatusOf(status, i) == ENABLED then MANUALLY_DISABLED else StatusOf(status, i)
    ensures forall i :: !(0 <= i < size) ==> StatusOf(disabled, i) == StatusOf(status, i)
    ensures forall i :: i in disabled ==> i in status || 0 <= i < size
    ensures count == 0 ==> disabled == status
    ensures count > 0 <==> exists i :: 0 <= i < size && StatusOf(status, i) == ENABLED
  {
    disabled, count := status, 0;
    for i := 0 to size
      invariant forall j :: 0 <= j < size ==>
                  StatusOf(disabled, j) == if j < i && StatusOf(status, j) == ENABLED then MANUALLY_DISABLED else StatusOf(status, j)
      invariant forall j :: !(0 <= j < size) ==> StatusOf(disabled, j) == StatusOf(status, j)
      invariant forall j :: j in disabled ==> j in status || 0 <= j < size
      invariant count == 0 ==> disabled == status
      invariant count > 0 <==> exists j :: 0 <= j < i && StatusOf(status, j) == ENABLED
    {
      if StatusOf(disabled, i) == ENABLED {
        disabled := disabled[i := MANUALLY_DISABLED];
        count := count + 1;
      }
    }
  }

  // ---------------------------------------------------------------------- the channel

  /** A status map cut down to the indices below a size. */
  ghost predicate CutTo(status: map<int, int>, was: map<int, int>, size: int) {
    forall i: int :: Lookup(status, i) == if i < size then Lookup(was, i) else None
  }

  class Channel {
    const format: Format
    var key: string
    var size: nat
    var status: map<int, int>
    var time: map<int, int>
    var reason: map<int, string>

    /** A channel as loaded, with its stored string read by the rules above. Nothing is promised of the
        size and the maps: they may disagree with the key list. */
    constructor (json: JsonArray, key: string, size: nat, status: map<int, int>, time: map<int, int>, reason: map<int, string>)
      ensures Valid() && format == StoredFormat(json)
      ensures this.key == key && this.size == size && Contents() == Table(KeysOf(key, json), status, time, reason)
    {
      format := StoredFormat(json);
      this.key, this.size := key, size;
      this.status, this.time, this.reason := status, time, reason;
      StoredFormatReadsBack(json);
    }

    function Contents(): Table
      reads this
    {
      Table(format.read(key), status, time, reason)
    }

    /** The laws of the stored format. */
    ghost predicate Valid() { ReadsBack(format) }

    /** There is a key, the size is the number of keys and every map index is below it. */
    ghost predicate Consistent()
      reads this
    {
      key != "" && size == |Contents().keys| && size >= 1 && Indexed(Contents())
    }

    /** Channel.Update: the size is recounted and statuses beyond it are dropped. An empty key is
        the zero value of the column, so the stored key stays and is read back. */
    method Update(stored: string)
      modifies this
      ensures key == if old(key) == "" then stored else old(key)
      ensures size == format.count(key) && CutTo(status, old(status), size)
      ensures time == old(time) && reason == old(reason)
    {
      if key == "" { key := stored; }
      size := format.count(key);
      status := map i | i in status && i < size :: status[i];
    }

    /** Persisting a channel whose key did not change repairs the size and keeps what was consistent. */
    method UpdateInPlace()
      requires Valid()
      modifies this
      ensures key == old(key) && size == format.count(key) && CutTo(status, old(status), size)
      ensures time == old(time) && reason == old(reason)
      ensures old(Consistent()) ==> Consistent() && size == old(size) && Same(status, old(status))
    {
      ghost var was, consistent := Contents(), Consistent();
      Update(key);
      if consistent {
        forall i: int ensures Lookup(status, i) == Lookup(was.status, i) {
        }
        SameTableSameView(was, Contents());
      }
    }

    method DisableKey(index: Option<int>) returns (ok: bool)
      requires Valid()
      modifies this
      ensures ok == (index.Some? && 0 <= index.value < old(size))
      ensures key == old(key) && time == old(time) && reason == old(reason)
      ensures !ok ==> size == old(size) && status == old(status)
      ensures ok ==> size == format.count(key) && CutTo(status, old(status)[index.value := MANUALLY_DISABLED], size)
      ensures old(Consistent()) ==> Consistent() && size == old(size)
    {
      if index.None? { return false; }
      if index.value < 0 || index.value >= size { return false; }
      status := status[index.value := MANUALLY_DISABLED];
      UpdateInPlace();
      ok := true;
    }

    method EnableKey(index: Option<int>) returns (ok: bool)
      requires Valid()
      modifies this
      ensures ok == (index.Some? && 0 <= index.value < old(size)) && key == old(key)
      ensures !ok ==> size == old(size) && status == old(status) && time == old(time) && reason == old(reason)
      ensures ok ==> size == format.count(key) && CutTo(status, old(status) - {index.value}, size)
      ensures ok ==> time == old(time) - {index.value} && reason == old(reason) - {index.value}
      ensures old(Consistent()) ==> Consistent() && size == old(size)
    {
      if index.None? { return false; }
      if index.value < 0 || index.value >= size { return false; }
      status := status - {index.value};
      time := time - {index.value};
      reason := reason - {index.value};
      UpdateInPlace();
      ok := true;
    }

    method EnableAllKeys() returns (enabled: nat)
      requires Valid()
      modifies this
      ensures key == old(key) && size == format.count(key) && enabled == |old(status)|
      ensures SameTable(Contents(), Table(old(Contents()).keys, map[], map[], map[]))
      ensures Contents().keys != [] && key != "" ==> Consistent()
    {
      enabled := |status|;
      status, time, reason := map[], map[], map[];
      UpdateInPlace();
      Cleared();
    }

    lemma Cleared()
      requires Valid() && size == format.count(key) && CutTo(status, map[], size) && time == map[] && reason == map[]
      ensures SameTable(Contents(), Table(Contents().keys, map[], map[], map[]))
      ensures Contents().keys != [] && key != "" ==> Consistent()
    {
      SameTableSameView(Contents(), Table(Contents().keys, map[], map[], map[]));
    }

    method DisableAllKeys() returns (ok: bool)
      requires Valid()
      modifies this
      ensures key == old(key) && time == old(time) && reason == old(reason)
      ensures ok <==> exists i :: 0 <= i < old(size) && StatusOf(old(status), i) == ENABLED
      ensures !ok ==> size == old(size) && status == old(status)
      ensures ok ==> size == format.count(key)
      ensures ok ==> forall i :: 0 <= i < size ==>
                StatusOf(status, i) == if i < old(size) && StatusOf(old(status), i) == ENABLED then MANUALLY_DISABLED
                                       else StatusOf(old(status), i)
      ensures old(Consistent()) ==> Consistent() && size == old(size)
    {
      var disabled, count := DisableEnabled(status, size);
      if count == 0 { return false; }
      status := disabled;
      UpdateInPlace();
      forall i | 0 <= i < size ensures StatusOf(status, i) == StatusOf(disabled, i) {
        assert Lookup(status, i) == Lookup(disabled, i);
      }
      ok := true;
    }

    /** The rebuilt lists as they are persisted: the joined keys, unless those are blank. */
    ghost predicate SavedAs(kept: Table, before: string)
      reads this
    {
      && key == (if Join(kept.keys, '\n') == "" then before else Join(kept.keys, '\n'))
      && size == format.count(key) && CutTo(status, kept.status, size)
      && time == kept.time && reason == kept.reason
    }

    /** Assign the rebuilt lists and persist. */
    method Save(kept: Table)
      modifies this
      ensures SavedAs(kept, old(key))
    {
      var stored := key;
      key := Join(kept.keys, '\n');
      size := |kept.keys|;
      status, time, reason := kept.status, kept.time, kept.reason;
      Update(stored);
    }

    /** What was saved is what was kept, exactly when the kept keys fit the stored format. The old list,
        which stays when the kept keys join to nothing, was longer. */
    lemma SavedExactly(kept: Table, before: string)
      requires Valid() && Indexed(kept) && kept.keys != [] && SavedAs(kept, before)
      ensures format.fits(kept.keys) ==> Consistent() && View(Contents()) == View(kept)
      ensures View(Contents()) == View(kept) && |format.read(before)| >= 2 ==> format.fits(kept.keys)
    {
      assert FitsExactly(format, kept.keys);
      if format.fits(kept.keys) {
        forall i: int ensures Lookup(status, i) == Lookup(kept.status, i) {
        }
        SameTableSameView(Contents(), kept);
      }
      ViewKeys(kept);
      ViewKeys(Contents());
      if Join(kept.keys, '\n') == "" { JoinedBlank(kept.keys); }
    }

    /** Nothing kept: the old keys stay, all of them enabled. */
    lemma NothingSaved(kept: Table, before: string)
      requires Valid() && Indexed(kept) && kept.keys == [] && SavedAs(kept, before)
      ensures key == before && SameTable(Contents(), Table(format.read(before), map[], map[], map[]))
    {
    }

    /** The other keys keep their status, and their time and reason while disabled, under their new
        indices, exactly when the remaining keys fit the stored format; the last key cannot be deleted. */
    method DeleteKey(index: Option<int>) returns (ok: bool)
      requires Valid()
      modifies this
      ensures ok == (index.Some? && 0 <= index.value < old(size) && RemoveAt(old(Contents()).keys, index.value) != [])
      ensures !ok ==> Contents() == old(Contents()) && key == old(key) && size == old(size)
      ensures ok ==> exists kept :: Indexed(kept) && View(kept) == RemoveAt(old(View(Contents())), index.value)
                                    && SavedAs(kept, old(key))
      ensures ok && format.fits(RemoveAt(old(Contents()).keys, index.value)) ==>
                Consistent() && View(Contents()) == RemoveAt(old(View(Contents())), index.value)
      ensures ok && index.value < |old(Contents()).keys|
                && View(Contents()) == RemoveAt(old(View(Contents())), index.value) ==>
                format.fits(RemoveAt(old(Contents()).keys, index.value))
    {
      if index.None? { return false; }
      if index.value < 0 || index.value >= size { return false; }
      var kept := Without(Contents(), index.value);
      if |kept.keys| == 0 { return false; }
      ghost var before := key;
      Save(kept);
      SavedExactly(kept, before);
      ok := true;
    }

    /** Deletes exactly the automatically disabled keys when some key survives, exactly when the
        survivors fit the stored format. When every key is automatically disabled the call reports
        success, deletes nothing and leaves every key enabled. */
    method DeleteDisabledKeys() returns (ok: bool, deleted: nat)
      requires Valid()
      modifies this
      ensures deleted == |old(Contents()).keys| - |Surviving(old(View(Contents())))| && ok == (deleted > 0)
      ensures !ok ==> Contents() == old(Contents()) && key == old(key) && size == old(size)
      ensures ok ==> exists kept :: Indexed(kept) && View(kept) == Surviving(old(View(Contents()))) && SavedAs(kept, old(key))
      ensures ok && Surviving(old(View(Contents()))) != [] ==>
                (Consistent() && View(Contents()) == Surviving(old(View(Contents())))
                 <==> format.fits(KeysIn(Surviving(old(View(Contents()))))))
      ensures ok && Surviving(old(View(Contents()))) == [] ==>
                key == old(key) && SameTable(Contents(), Table(old(Contents()).keys, map[], map[], map[]))
    {
      var kept;
      kept, deleted := Survivors(Contents());
      ViewKeys(kept);
      if deleted == 0 { return false, deleted; }
      ghost var before := key;
      Save(kept);
      if kept.keys == [] { NothingSaved(kept, before); } else { SavedExactly(kept, before); }
      ok := true;
    }
  }

  lemma ViewKeys(t: Table)
    ensures KeysIn(View(t)) == t.keys
  {
  }
}
