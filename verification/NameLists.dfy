/** Lists of names as ordered sets: trimming, dropping blanks and duplicates, and filtering by
    membership. The order of first occurrence is kept throughout. */
module NameLists {
  import opened Text

  /** The names, trimmed, without blanks. */
  function Candidates(lines: seq<string>): seq<string> {
    if lines == [] then []
    else
      var last := TrimSpace(lines[|lines| - 1]);
      Candidates(lines[..|lines| - 1]) + (if last == "" then [] else [last])
  }

  /** Each candidate once, in order, unless already seen. */
  function Fresh(candidates: seq<string>, seen: set<string>): seq<string> {
    if candidates == [] then []
    else
      var before := Fresh(candidates[..|candidates| - 1], seen);
      var last := candidates[|candidates| - 1];
      if last in seen || last in before then before else before + [last]
  }

  lemma {:induction false} CandidatesTrimmed(lines: seq<string>)
    ensures AllTrimmed(Candidates(lines))
  {
    if lines != [] { CandidatesTrimmed(lines[..|lines| - 1]); }
  }

  lemma {:induction false} FreshIsNew(candidates: seq<string>, seen: set<string>)
    ensures forall k :: k in Fresh(candidates, seen) ==> k in candidates && k !in seen
    ensures forall k :: k in candidates ==> k in seen || k in Fresh(candidates, seen)
    ensures Distinct(Fresh(candidates, seen))
  {
    if candidates != [] {
      FreshIsNew(candidates[..|candidates| - 1], seen);
      assert candidates == candidates[..|candidates| - 1] + [candidates[|candidates| - 1]];
    }
  }

  lemma {:induction false} NothingFresh(candidates: seq<string>, seen: set<string>)
    requires forall k :: k in candidates ==> k in seen
    ensures Fresh(candidates, seen) == []
  {
    if candidates != [] {
      assert candidates[|candidates| - 1] in candidates;
      NothingFresh(candidates[..|candidates| - 1], seen);
    }
  }

  // ------------------------------------------------------------ ordered sets

  function Elems(names: seq<string>): set<string> { set k | k in names }

  /** Trimmed, non-blank and without repetition. */
  ghost predicate IsNormal(names: seq<string>) { AllTrimmed(names) && Distinct(names) }

  ghost predicate AllTrimmed(names: seq<string>) {
    forall i :: 0 <= i < |names| ==> Trimmed(names[i], Space) && names[i] != ""
  }

  ghost predicate Distinct(names: seq<string>) {
    forall i, j :: 0 <= i < j < |names| ==> names[i] != names[j]
  }

  /** normalizeModelNames */
  function Normalize(names: seq<string>): seq<string> { Fresh(Candidates(names), {}) }

  /** The names outside a set, in order. */
  function Drop(names: seq<string>, out: set<string>): seq<string> {
    if names == [] then []
    else
      var last := names[|names| - 1];
      Drop(names[..|names| - 1], out) + (if last in out then [] else [last])
  }

  /** The names inside a set, in order. */
  function Keep(names: seq<string>, wanted: set<string>): seq<string> {
    if names == [] then []
    else
      var last := names[|names| - 1];
      Keep(names[..|names| - 1], wanted) + (if last in wanted then [last] else [])
  }

  lemma NormalizeIsNormal(names: seq<string>)
    ensures IsNormal(Normalize(names))
  {
    var c := Candidates(names);
    CandidatesTrimmed(names);
    FreshIsNew(c, {});
    forall i | 0 <= i < |Normalize(names)| ensures Trimmed(Normalize(names)[i], Space) && Normalize(names)[i] != "" {
      assert Normalize(names)[i] in Normalize(names);
      assert Normalize(names)[i] in c;
    }
  }

  lemma {:induction false} NormalCandidates(names: seq<string>)
    requires AllTrimmed(names)
    ensures Candidates(names) == names
  {
    if names != [] {
      var n := |names| - 1;
      NormalCandidates(names[..n]);
      TrimKeepsTrimmed(names[n], Space);
      assert names == names[..n] + [names[n]];
    }
  }

  lemma {:induction false} NormalFresh(names: seq<string>)
    requires Distinct(names)
    ensures Fresh(names, {}) == names
  {
    if names != [] {
      var n := |names| - 1;
      NormalFresh(names[..n]);
      assert names[n] !in names[..n];
      assert names == names[..n] + [names[n]];
    }
  }

  /** Normalizing is idempotent: a normal list is left alone. */
  lemma NormalizeNormal(names: seq<string>)
    requires IsNormal(names)
    ensures Normalize(names) == names
  {
    NormalCandidates(names);
    NormalFresh(names);
  }

  lemma {:induction false} DropElems(names: seq<string>, out: set<string>)
    ensures forall k :: k in Drop(names, out) <==> k in names && k !in out
  {
    if names != [] {
      DropElems(names[..|names| - 1], out);
      assert names == names[..|names| - 1] + [names[|names| - 1]];
    }
  }

  lemma {:induction false} KeepElems(names: seq<string>, wanted: set<string>)
    ensures forall k :: k in Keep(names, wanted) <==> k in names && k in wanted
  {
    if names != [] {
      KeepElems(names[..|names| - 1], wanted);
      assert names == names[..|names| - 1] + [names[|names| - 1]];
    }
  }

  lemma NormalSnoc(before: seq<string>, last: string)
    requires IsNormal(before) && Trimmed(last, Space) && last != "" && last !in before
    ensures IsNormal(before + [last])
  {
    var after := before + [last];
    forall i | 0 <= i < |after| ensures Trimmed(after[i], Space) && after[i] != "" {
    }
    forall i, j | 0 <= i < j < |after| ensures after[i] != after[j] {
      assert before[i] in before;
    }
  }

  /** The parts of a normal list around its last name. */
  lemma NormalInit(names: seq<string>, init: seq<string>, last: string)
    requires IsNormal(names) && names != [] && init == names[..|names| - 1] && last == names[|names| - 1]
    ensures IsNormal(init) && Trimmed(last, Space) && last != "" && last !in init
  {
  }

  lemma {:induction false} DropNormal(names: seq<string>, out: set<string>)
    requires IsNormal(names)
    ensures IsNormal(Drop(names, out))
  {
    if names != [] {
      var init, last := names[..|names| - 1], names[|names| - 1];
      NormalInit(names, init, last);
      DropNormal(init, out);
      DropElems(init, out);
      if last !in out { NormalSnoc(Drop(init, out), last); }
    }
  }

  lemma {:induction false} KeepNormal(names: seq<string>, wanted: set<string>)
    requires IsNormal(names)
    ensures IsNormal(Keep(names, wanted))
  {
    if names != [] {
      var init, last := names[..|names| - 1], names[|names| - 1];
      NormalInit(names, init, last);
      KeepNormal(init, wanted);
      KeepElems(init, wanted);
      if last in wanted { NormalSnoc(Keep(init, wanted), last); }
    }
  }

  /** Dropping depends only on which of the names are dropped. */
  lemma {:induction false} DropAgree(names: seq<string>, a: set<string>, b: set<string>)
    requires forall k :: k in names ==> (k in a <==> k in b)
    ensures Drop(names, a) == Drop(names, b)
  {
    if names != [] {
      assert names[|names| - 1] in names;
      DropAgree(names[..|names| - 1], a, b);
    }
  }

  lemma {:induction false} DropDrop(names: seq<string>, a: set<string>, b: set<string>)
    ensures Drop(Drop(names, a), b) == Drop(names, a + b)
  {
    if names != [] {
      var n := |names| - 1;
      DropDrop(names[..n], a, b);
      DropConcat(Drop(names[..n], a), if names[n] in a then [] else [names[n]], b);
      DropOne(names[n], b);
    }
  }

  lemma DropOne(k: string, out: set<string>)
    ensures Drop([k], out) == if k in out then [] else [k]
  {
    assert [k][..0] == [];
  }

  lemma {:induction false} DropConcat(a: seq<string>, b: seq<string>, out: set<string>)
    ensures Drop(a + b, out) == Drop(a, out) + Drop(b, out)
  {
    if b == [] {
      assert a + b == a;
    } else {
      var n := |b| - 1;
      assert (a + b)[..|a| + n] == a + b[..n];
      DropConcat(a, b[..n], out);
    }
  }

  lemma {:induction false} DropNothing(names: seq<string>, out: set<string>)
    requires forall k :: k in names ==> k !in out
    ensures Drop(names, out) == names
  {
    if names != [] {
      assert names[|names| - 1] in names;
      DropNothing(names[..|names| - 1], out);
    }
  }

  lemma {:induction false} DropEverything(names: seq<string>, out: set<string>)
    requires forall k :: k in names ==> k in out
    ensures Drop(names, out) == []
  {
    if names != [] {
      assert names[|names| - 1] in names;
      DropEverything(names[..|names| - 1], out);
    }
  }

  lemma {:induction false} KeepEverything(names: seq<string>, wanted: set<string>)
    requires forall k :: k in names ==> k in wanted
    ensures Keep(names, wanted) == names
  {
    if names != [] {
      assert names[|names| - 1] in names;
      KeepEverything(names[..|names| - 1], wanted);
    }
  }

  // ------------------------------------------------------------------ order

  /** The names of one list stand in another in the same order. */
  ghost predicate InOrder(sub: seq<string>, names: seq<string>) {
    forall i, j :: 0 <= i < j < |sub| ==> Before(sub[i], sub[j], names)
  }

  ghost predicate Before(x: string, y: string, names: seq<string>) {
    exists a, b :: 0 <= a < b < |names| && names[a] == x && names[b] == y
  }

  lemma BeforeLonger(x: string, y: string, init: seq<string>, names: seq<string>)
    requires |init| <= |names| && init == names[..|init|] && Before(x, y, init)
    ensures Before(x, y, names)
  {
    var a, b :| 0 <= a < b < |init| && init[a] == x && init[b] == y;
    assert names[a] == x && names[b] == y;
  }

  lemma BeforeLast(x: string, names: seq<string>)
    requires names != [] && x in names[..|names| - 1]
    ensures Before(x, names[|names| - 1], names)
  {
    var a :| 0 <= a < |names| - 1 && names[a] == x;
  }

  /** Appending the last name of a list, or nothing, to a part of the rest that is in order. */
  lemma InOrderGrows(sub: seq<string>, names: seq<string>, more: seq<string>)
    requires names != [] && InOrder(sub, names[..|names| - 1]) && (forall k :: k in sub ==> k in names[..|names| - 1])
    requires more == [] || more == [names[|names| - 1]]
    ensures InOrder(sub + more, names)
  {
    var init := names[..|names| - 1];
    forall i, j | 0 <= i < j < |sub + more| ensures Before((sub + more)[i], (sub + more)[j], names) {
      if j < |sub| {
        BeforeLonger(sub[i], sub[j], init, names);
      } else {
        assert sub[i] in sub;
        BeforeLast(sub[i], names);
      }
    }
  }

  lemma {:induction false} KeepInOrder(names: seq<string>, wanted: set<string>)
    ensures InOrder(Keep(names, wanted), names)
  {
    if names != [] {
      var init, last := names[..|names| - 1], names[|names| - 1];
      KeepInOrder(init, wanted);
      KeepElems(init, wanted);
      InOrderGrows(Keep(init, wanted), names, if last in wanted then [last] else []);
    }
  }

  lemma {:induction false} DropInOrder(names: seq<string>, out: set<string>)
    ensures InOrder(Drop(names, out), names)
  {
    if names != [] {
      var init, last := names[..|names| - 1], names[|names| - 1];
      DropInOrder(init, out);
      DropElems(init, out);
      InOrderGrows(Drop(init, out), names, if last in out then [] else [last]);
    }
  }

  lemma InOrderTransitive(a: seq<string>, b: seq<string>, c: seq<string>)
    requires InOrder(a, b) && InOrder(b, c)
    ensures InOrder(a, c)
  {
    forall i, j | 0 <= i < j < |a| ensures Before(a[i], a[j], c) {
      assert Before(a[i], a[j], b);
      var x, y :| 0 <= x < y < |b| && b[x] == a[i] && b[y] == a[j];
      assert Before(b[x], b[y], c);
    }
  }

  lemma {:induction false} FreshInOrder(candidates: seq<string>, seen: set<string>)
    ensures InOrder(Fresh(candidates, seen), candidates)
  {
    if candidates != [] {
      var init, last := candidates[..|candidates| - 1], candidates[|candidates| - 1];
      FreshInOrder(init, seen);
      FreshIsNew(init, seen);
      var before := Fresh(init, seen);
      InOrderGrows(before, candidates, if last in seen || last in before then [] else [last]);
    }
  }

  // --------------------------------------------------------------- which names

  /** The trimmed form of some name, unless that is blank. */
  ghost predicate TrimmedFrom(k: string, names: seq<string>) {
    k != "" && exists i :: 0 <= i < |names| && TrimSpace(names[i]) == k
  }

  lemma TrimmedFromSnoc(k: string, names: seq<string>, init: seq<string>, last: string)
    requires names != [] && init == names[..|names| - 1] && last == names[|names| - 1]
    ensures TrimmedFrom(k, names) <==> TrimmedFrom(k, init) || (k != "" && TrimSpace(last) == k)
  {
    if TrimmedFrom(k, init) {
      var i :| 0 <= i < |init| && TrimSpace(init[i]) == k;
      assert TrimSpace(names[i]) == k;
    }
    if TrimmedFrom(k, names) {
      var i :| 0 <= i < |names| && TrimSpace(names[i]) == k;
      if i < |init| { assert TrimSpace(init[i]) == k; }
    }
  }

  lemma {:induction false} CandidatesExactly(names: seq<string>, k: string)
    ensures k in Candidates(names) <==> TrimmedFrom(k, names)
  {
    if names != [] {
      var init, last := names[..|names| - 1], names[|names| - 1];
      CandidatesExactly(init, k);
      TrimmedFromSnoc(k, names, init, last);
    }
  }

  /** A normalized list holds exactly the trimmed forms of its names that are not blank. */
  lemma NormalizeExactly(names: seq<string>, k: string)
    ensures k in Normalize(names) <==> TrimmedFrom(k, names)
  {
    FreshIsNew(Candidates(names), {});
    CandidatesExactly(names, k);
  }
}
