/** Applying a selection and detecting again finds exactly what the application reported as
    remaining, so applying everything leaves nothing to detect. */
module UpstreamProof {
  import opened Wrappers
  import opened Text
  import opened NameLists
  import opened UpstreamModels

  // ------------------------------------------------------- the algebra on normal lists

  lemma ElemsOfNormalized(names: seq<string>)
    requires AllTrimmed(names)
    ensures Elems(Normalize(names)) == Elems(names)
  {
    NormalCandidates(names);
    FreshIsNew(names, {});
  }

  lemma IntersectNormal(base: seq<string>, allowed: seq<string>)
    requires IsNormal(allowed)
    ensures IsNormal(Intersect(base, allowed))
    ensures forall k :: k in Intersect(base, allowed) <==> k in Normalize(base) && k in allowed
  {
    NormalizeIsNormal(base);
    NormalizeNormal(allowed);
    KeepNormal(Normalize(base), Elems(allowed));
    KeepElems(Normalize(base), Elems(allowed));
  }

  lemma SubtractNormal(base: seq<string>, removed: seq<string>)
    requires IsNormal(base) && AllTrimmed(removed)
    ensures Subtract(base, removed) == Drop(base, Elems(removed))
    ensures IsNormal(Subtract(base, removed))
    ensures forall k :: k in Subtract(base, removed) <==> k in base && k !in removed
  {
    NormalizeNormal(base);
    ElemsOfNormalized(removed);
    DropNormal(base, Elems(removed));
    DropElems(base, Elems(removed));
  }

  lemma MergeNormal(base: seq<string>, appended: seq<string>)
    requires IsNormal(appended)
    ensures IsNormal(Merge(base, appended))
    ensures forall k :: k in Merge(base, appended) <==> k in Normalize(base) || k in appended
    ensures IsNormal(base) ==> Merge(base, appended) == base + Drop(appended, Elems(base))
  {
    NormalizeIsNormal(base);
    NormalizeNormal(appended);
    if IsNormal(base) { NormalizeNormal(base); }
    var b, extra := Normalize(base), Drop(appended, Elems(Normalize(base)));
    DropNormal(appended, Elems(b));
    DropElems(appended, Elems(b));
    ConcatNormal(b, extra);
  }

  lemma ConcatNormal(a: seq<string>, b: seq<string>)
    requires IsNormal(a) && IsNormal(b)
    requires forall k :: k in b ==> k !in a
    ensures IsNormal(a + b)
  {
    forall i, j | 0 <= i < j < |a + b| ensures (a + b)[i] != (a + b)[j] {
      if i < |a| <= j { assert a[i] in a && b[j - |a|] in b; }
    }
  }

  /** With nothing added that is already local, the new list is the old one without what is
      removed, followed by what is added. */
  lemma AppliedList(l: seq<string>, add: seq<string>, remove: seq<string>)
    requires IsNormal(l) && IsNormal(add) && IsNormal(remove)
    requires forall k :: k in add ==> k !in l && k !in remove
    ensures ApplySelected(l, add, remove) == Drop(l, Elems(remove)) + add
  {
    NormalizeNormal(add);
    NormalizeNormal(remove);
    SubtractNormal(remove, add);
    DropNothing(remove, Elems(add));
    MergeNormal(l, add);
    DropNothing(add, Elems(l));
    SubtractNormal(l + add, remove);
    DropConcat(l, add, Elems(remove));
    DropNothing(add, Elems(remove));
  }

  function Candidate(name: string): seq<string> {
    if TrimSpace(name) == "" then [] else [TrimSpace(name)]
  }

  lemma CandidatesSnoc(names: seq<string>, name: string)
    ensures Candidates(names + [name]) == Candidates(names) + Candidate(name)
  {
    var s := names + [name];
    assert s[..|s| - 1] == names;
  }

  lemma {:induction false} CandidatesConcat(a: seq<string>, b: seq<string>)
    ensures Candidates(a + b) == Candidates(a) + Candidates(b)
  {
    if b == [] {
      assert a + b == a;
    } else {
      var init, last := b[..|b| - 1], b[|b| - 1];
      assert b == init + [last] && a + b == (a + init) + [last];
      CandidatesSnoc(a + init, last);
      CandidatesSnoc(init, last);
      CandidatesConcat(a, init);
    }
  }

  lemma FreshSnoc(names: seq<string>, name: string)
    ensures Fresh(names + [name], {}) == Fresh(names, {}) + Drop([name], Elems(Fresh(names, {})))
  {
    var s := names + [name];
    assert s[..|s| - 1] == names;
    DropOne(name, Elems(Fresh(names, {})));
  }

  lemma {:induction false} FreshConcat(a: seq<string>, b: seq<string>)
    ensures Fresh(a + b, {}) == Fresh(a, {}) + Drop(Fresh(b, {}), Elems(Fresh(a, {})))
  {
    var head := Fresh(a, {});
    if b == [] {
      assert a + b == a;
    } else {
      var init, last := b[..|b| - 1], b[|b| - 1];
      assert b == init + [last] && a + b == (a + init) + [last];
      FreshSnoc(a + init, last);
      FreshSnoc(init, last);
      FreshConcat(a, init);
      LastFresh(head, Fresh(init, {}), last);
    }
  }

  lemma LastFresh(head: seq<string>, tail: seq<string>, last: string)
    ensures head + Drop(tail, Elems(head)) + Drop([last], Elems(head + Drop(tail, Elems(head))))
         == head + Drop(tail + Drop([last], Elems(tail)), Elems(head))
  {
    DropElems(tail, Elems(head));
    DropOne(last, Elems(head + Drop(tail, Elems(head))));
    DropOne(last, Elems(tail));
    DropOne(last, Elems(head));
    DropConcat(tail, Drop([last], Elems(tail)), Elems(head));
  }

  /** Merging two lists is normalizing them one after the other: first occurrences, in order. */
  lemma MergeIsNormalizedConcat(base: seq<string>, appended: seq<string>)
    ensures Merge(base, appended) == Normalize(base + appended)
  {
    CandidatesConcat(base, appended);
    FreshConcat(Candidates(base), Candidates(appended));
  }

  // ------------------------------------------------------------- the stored list

  ghost predicate CommaFree(names: seq<string>) { forall k :: k in names ==> ',' !in k }

  lemma {:induction false} CandidatesCommaFree(names: seq<string>)
    requires CommaFree(names)
    ensures CommaFree(Candidates(names))
  {
    if names != [] {
      var n := |names| - 1;
      assert names[n] in names;
      CandidatesCommaFree(names[..n]);
      if ',' in TrimSpace(names[n]) { TrimIsInfix(names[n], Space, ','); }
    }
  }

  /** No name read from the stored list contains a comma. */
  lemma StoredCommaFree(models: string)
    ensures CommaFree(Normalize(GetModels(models)))
  {
    CandidatesCommaFree(GetModels(models));
    FreshIsNew(Candidates(GetModels(models)), {});
  }

  /** A normal comma-free list survives being stored. */
  lemma StoredReadsBack(names: seq<string>)
    requires IsNormal(names) && CommaFree(names)
    ensures Normalize(GetModels(Join(names, ','))) == names
  {
    if names != [] {
      forall i | 0 <= i < |names| ensures names[i] != "" && ',' !in names[i] { assert names[i] in names; }
      SplitTrimJoin(names, ',');
    }
    NormalizeNormal(names);
  }

  // ------------------------------------------------------------------ one round

  /** Everything a detection against `upstream` depends on. */
  datatype World = World(upstream: seq<string>, mapping: map<string, string>, matches: Matcher)

  function Detect(c: Config, w: World): Pending {
    Collect(GetModels(c.models), w.upstream, c.ignored, w.mapping, w.matches)
  }

  function Locals(c: Config): seq<string> { Normalize(GetModels(c.models)) }

  /** The staged lists are what a detection would find now. */
  ghost predicate FreshLists(c: Config, w: World) { Pending(c.detected, c.removed) == Detect(c, w) }

  datatype Request = Request(add: seq<string>, ignore: seq<string>, remove: seq<string>)

  function Chosen(c: Config, q: Request): (seq<string>, seq<string>, seq<string>) {
    Selection(c, q.add, q.ignore, q.remove)
  }

  function After(c: Config, q: Request, now: int): Config { Apply(c, q.add, q.ignore, q.remove, now).0 }

  function Reported(c: Config, q: Request, now: int): Applied { Apply(c, q.add, q.ignore, q.remove, now).1 }

  /** Detecting again right after an application finds, in order, what it reported as remaining. */
  ghost predicate AgreesWithReport(c: Config, w: World, q: Request, now: int) {
    Detect(After(c, q, now), w) == Pending(Reported(c, q, now).remainingAdd, Reported(c, q, now).remainingRemove)
  }

  /** What is selected lies within the staged lists. */
  lemma ChosenStaged(c: Config, w: World, q: Request)
    requires FreshLists(c, w)
    ensures
      var (add, ignore, remove) := Chosen(c, q);
      && IsNormal(add) && IsNormal(ignore) && IsNormal(remove)
      && IsNormal(c.detected) && IsNormal(c.removed)
      && (forall k :: k in add ==> k in c.detected && k !in remove)
      && (forall k :: k in ignore ==> k in c.detected)
      && (forall k :: k in remove ==> k in c.removed)
  {
    CollectIsNormal(GetModels(c.models), w.upstream, c.ignored, w.mapping, w.matches);
    NormalizeNormal(c.detected);
    NormalizeNormal(c.removed);
    IntersectNormal(q.add, c.detected);
    IntersectNormal(q.ignore, c.detected);
    IntersectNormal(q.remove, c.removed);
    SubtractNormal(Intersect(q.remove, c.removed), Intersect(q.add, c.detected));
  }

  /** The names already covered: local ones and redirect targets. */
  function Covered(c: Config, w: World): set<string> { Elems(Locals(c)) + w.mapping.Values }

  lemma StagedMeaning(c: Config, w: World)
    requires FreshLists(c, w)
    ensures c.detected
              == Drop(Normalize(w.upstream), Covered(c, w) + IgnoredAmong(Normalize(w.upstream), Normalize(c.ignored), w.matches))
    ensures c.removed == Drop(Locals(c), w.mapping.Keys + Elems(Normalize(w.upstream)))
    ensures forall k :: k in c.detected <==>
      k in Normalize(w.upstream) && k !in Covered(c, w) && !Ignored(k, Normalize(c.ignored), w.matches)
    ensures forall k :: k in c.removed <==> k in Locals(c) && k !in Normalize(w.upstream) && k !in w.mapping
  {
    var u := Normalize(w.upstream);
    CollectIsNormal(GetModels(c.models), w.upstream, c.ignored, w.mapping, w.matches);
    DropElems(u, Covered(c, w) + IgnoredAmong(u, Normalize(c.ignored), w.matches));
    DropElems(Locals(c), w.mapping.Keys + Elems(u));
  }

  /** The local list after an application. */
  lemma NewLocals(c: Config, w: World, q: Request, now: int)
    requires FreshLists(c, w) && CommaFree(Chosen(c, q).0)
    ensures Locals(After(c, q, now)) == Drop(Locals(c), Elems(Chosen(c, q).2)) + Chosen(c, q).0
  {
    var (add, ignore, remove) := Chosen(c, q);
    var l := Locals(c);
    ChosenStaged(c, w, q);
    StagedMeaning(c, w);
    NormalizeIsNormal(GetModels(c.models));
    AppliedList(l, add, remove);
    var next := Drop(l, Elems(remove)) + add;
    DropNormal(l, Elems(remove));
    DropElems(l, Elems(remove));
    ConcatNormal(Drop(l, Elems(remove)), add);
    StoredCommaFree(c.models);
    StoredReadsBack(next);
  }

  /** The ignored names after an application. */
  lemma NewIgnored(c: Config, w: World, q: Request, now: int)
    requires FreshLists(c, w)
    ensures forall e :: e in Normalize(After(c, q, now).ignored) <==>
      (e in Normalize(c.ignored) || e in Chosen(c, q).1) && e !in Chosen(c, q).0
  {
    var (add, ignore, remove) := Chosen(c, q);
    ChosenStaged(c, w, q);
    MergeNormal(c.ignored, ignore);
    var merged := Merge(c.ignored, ignore);
    SubtractNormal(merged, add);
    NormalizeNormal(merged);
    NormalizeNormal(Subtract(merged, add));
  }

  /** What remains to remove is what the next detection finds to remove. */
  lemma RemovalsRedetected(c: Config, w: World, q: Request, now: int)
    requires FreshLists(c, w) && CommaFree(Chosen(c, q).0)
    ensures Detect(After(c, q, now), w).remove == Reported(c, q, now).remainingRemove
  {
    var (add, ignore, remove) := Chosen(c, q);
    var c2, l, u := After(c, q, now), Locals(c), Normalize(w.upstream);
    ChosenStaged(c, w, q);
    StagedMeaning(c, w);
    NewLocals(c, w, q, now);
    CollectIsNormal(GetModels(c2.models), w.upstream, c2.ignored, w.mapping, w.matches);
    var out := w.mapping.Keys + Elems(u);
    DropConcat(Drop(l, Elems(remove)), add, out);
    DropEverything(add, out);
    DropDrop(l, Elems(remove), out);
    DropDrop(l, out, Elems(remove));
    assert Elems(remove) + out == out + Elems(remove);
    NormalizeNormal(c.removed);
    SubtractNormal(c.removed, remove);
  }

  /** What remains to add, as one filter over the upstream list. */
  lemma RemainingAdd(c: Config, w: World, q: Request, now: int)
    requires FreshLists(c, w)
    ensures
      var (add, ignore, remove) := Chosen(c, q);
      var u := Normalize(w.upstream);
      Reported(c, q, now).remainingAdd
        == Drop(u, Covered(c, w) + IgnoredAmong(u, Normalize(c.ignored), w.matches) + (Elems(add) + Elems(ignore)))
  {
    var (add, ignore, remove) := Chosen(c, q);
    var u := Normalize(w.upstream);
    ChosenStaged(c, w, q);
    StagedMeaning(c, w);
    NormalizeNormal(c.detected);
    SubtractNormal(c.detected, add + ignore);
    assert Elems(add + ignore) == Elems(add) + Elems(ignore);
    DropDrop(u, Covered(c, w) + IgnoredAmong(u, Normalize(c.ignored), w.matches), Elems(add) + Elems(ignore));
  }

  /** A name is ignored by an entry that was there before or is selected now, and is not being added. */
  ghost predicate StillIgnored(c: Config, w: World, q: Request, k: string) {
    var (add, ignore, remove) := Chosen(c, q);
    exists e :: (e in Normalize(c.ignored) || e in ignore) && e !in add && IgnoredBy(e, k, w.matches)
  }

  lemma StillIgnoredExactly(c: Config, w: World, q: Request, now: int, k: string)
    requires FreshLists(c, w)
    ensures Ignored(k, Normalize(After(c, q, now).ignored), w.matches) <==> StillIgnored(c, w, q, k)
  {
    NewIgnored(c, w, q, now);
  }

  /** The selection changes what is ignored by exactly the names it ignores, as far as the upstream
      names still open are concerned. */
  ghost predicate PatternsAgree(c: Config, w: World, q: Request) {
    var (add, ignore, remove) := Chosen(c, q);
    forall k :: k in Normalize(w.upstream) && k !in Covered(c, w) && k !in add ==>
      (StillIgnored(c, w, q, k) <==> Ignored(k, Normalize(c.ignored), w.matches) || k in ignore)
  }

  ghost predicate SameWithin(names: seq<string>, a: set<string>, b: set<string>) {
    forall k :: k in names ==> (k in a <==> k in b)
  }

  lemma DropSame(names: seq<string>, a: set<string>, b: set<string>)
    ensures Drop(names, a) == Drop(names, b) <==> SameWithin(names, a, b)
  {
    if SameWithin(names, a, b) { DropAgree(names, a, b); }
    DropElems(names, a);
    DropElems(names, b);
  }

  /** The general law: for added names the stored format can hold, the next detection agrees with
      the report exactly when the patterns do. */
  lemma RedetectsIffPatternsAgree(c: Config, w: World, q: Request, now: int)
    requires FreshLists(c, w) && CommaFree(Chosen(c, q).0)
    ensures AgreesWithReport(c, w, q, now) <==> PatternsAgree(c, w, q)
  {
    var (add, ignore, remove) := Chosen(c, q);
    var c2, u := After(c, q, now), Normalize(w.upstream);
    var ignoredNow := IgnoredAmong(u, Normalize(c2.ignored), w.matches);
    var ignoredThen := IgnoredAmong(u, Normalize(c.ignored), w.matches);
    RemovalsRedetected(c, w, q, now);
    AdditionsRedetected(c, w, q, now);
    CoveredAfter(c, w, q, now);
    OpenNames(u, Covered(c2, w), ignoredNow, Covered(c, w), ignoredThen, Elems(add), Elems(ignore));
    forall k ensures Ignored(k, Normalize(c2.ignored), w.matches) <==> StillIgnored(c, w, q, k) {
      StillIgnoredExactly(c, w, q, now, k);
    }
  }

  lemma AdditionsRedetected(c: Config, w: World, q: Request, now: int)
    requires FreshLists(c, w)
    ensures
      var (add, ignore, remove) := Chosen(c, q);
      var c2, u := After(c, q, now), Normalize(w.upstream);
      var coveredNow := Covered(c2, w) + IgnoredAmong(u, Normalize(c2.ignored), w.matches);
      var coveredThen := Covered(c, w) + IgnoredAmong(u, Normalize(c.ignored), w.matches);
      Detect(c2, w).add == Reported(c, q, now).remainingAdd
      <==> SameWithin(u, coveredNow, coveredThen + (Elems(add) + Elems(ignore)))
  {
    var (add, ignore, remove) := Chosen(c, q);
    var c2, u := After(c, q, now), Normalize(w.upstream);
    RemainingAdd(c, w, q, now);
    CollectIsNormal(GetModels(c2.models), w.upstream, c2.ignored, w.mapping, w.matches);
    DropSame(u, Covered(c2, w) + IgnoredAmong(u, Normalize(c2.ignored), w.matches),
      Covered(c, w) + IgnoredAmong(u, Normalize(c.ignored), w.matches) + (Elems(add) + Elems(ignore)));
  }

  /** Once coverage grew by what was added, only the ignored names can make a difference. */
  lemma OpenNames(u: seq<string>, cover2: set<string>, ignored2: set<string>, cover: set<string>, ignored: set<string>,
                  add: set<string>, ignore: set<string>)
    requires forall k :: k in u ==> (k in cover2 <==> k in cover || k in add)
    ensures SameWithin(u, cover2 + ignored2, cover + ignored + (add + ignore))
      <==> forall k :: k in u && k !in cover && k !in add ==> (k in ignored2 <==> k in ignored || k in ignore)
  {
  }

  lemma CoveredAfter(c: Config, w: World, q: Request, now: int)
    requires FreshLists(c, w) && CommaFree(Chosen(c, q).0)
    ensures forall k :: k in Normalize(w.upstream) ==>
      (k in Covered(After(c, q, now), w) <==> k in Covered(c, w) || k in Chosen(c, q).0)
  {
    ChosenStaged(c, w, q);
    StagedMeaning(c, w);
    NewLocals(c, w, q, now);
    DropElems(Locals(c), Elems(Chosen(c, q).2));
  }

  // ----------------------------------------------------------------- plain names

  /** No name reads as a pattern. */
  ghost predicate Plain(names: seq<string>) { forall k :: k in names ==> !HasPrefix(k, REGEX) }

  lemma PlainAgree(c: Config, w: World, q: Request, k: string)
    requires Plain(Chosen(c, q).0) && Plain(Chosen(c, q).1)
    ensures StillIgnored(c, w, q, k)
      <==> (k !in Chosen(c, q).0 && k in Chosen(c, q).1)
           || exists e :: e in Normalize(c.ignored) && IgnoredBy(e, k, w.matches) && e !in Chosen(c, q).0
  {
    var (add, ignore, remove) := Chosen(c, q);
    if k !in add && k in ignore { assert IgnoredBy(k, k, w.matches); }
  }

  /** The law the interface promises. When no selected name reads as a pattern, detecting again
      returns exactly the reported remainder, in order, if and only if every added name is free of
      the comma that separates stored names. */
  lemma RedetectsExactly(c: Config, w: World, q: Request, now: int)
    requires FreshLists(c, w) && Plain(Chosen(c, q).0) && Plain(Chosen(c, q).1)
    ensures AgreesWithReport(c, w, q, now) <==> CommaFree(Chosen(c, q).0)
  {
    var (add, ignore, remove) := Chosen(c, q);
    ChosenStaged(c, w, q);
    StagedMeaning(c, w);
    if CommaFree(add) {
      forall k | k in Normalize(w.upstream) && k !in Covered(c, w) && k !in add
        ensures StillIgnored(c, w, q, k) <==> Ignored(k, Normalize(c.ignored), w.matches) || k in ignore
      {
        PlainAgree(c, w, q, k);
      }
      RedetectsIffPatternsAgree(c, w, q, now);
    } else {
      var k :| k in add && ',' in k;
      CommaNameReturns(c, w, q, now, k);
      PlainAgree(c, w, q, k);
    }
  }

  /** An added name with a comma is torn apart in storage and found missing again, exactly unless some
      ignored pattern covers it; detecting again can agree with the report only in that case. */
  lemma CommaNameReturns(c: Config, w: World, q: Request, now: int, k: string)
    requires FreshLists(c, w) && k in Chosen(c, q).0 && ',' in k
    ensures k in Detect(After(c, q, now), w).add <==> !StillIgnored(c, w, q, k)
    ensures AgreesWithReport(c, w, q, now) ==> StillIgnored(c, w, q, k)
  {
    var c2, u := After(c, q, now), Normalize(w.upstream);
    ChosenStaged(c, w, q);
    StagedMeaning(c, w);
    StoredCommaFree(c2.models);
    StillIgnoredExactly(c, w, q, now, k);
    AddedIsNotRemaining(c, w, q, now, k);
    CollectIsNormal(GetModels(c2.models), w.upstream, c2.ignored, w.mapping, w.matches);
    DropElems(u, Covered(c2, w) + IgnoredAmong(u, Normalize(c2.ignored), w.matches));
  }

  lemma AddedIsNotRemaining(c: Config, w: World, q: Request, now: int, k: string)
    requires FreshLists(c, w) && k in Chosen(c, q).0
    ensures k !in Reported(c, q, now).remainingAdd
  {
    var (add, ignore, remove) := Chosen(c, q);
    var u := Normalize(w.upstream);
    RemainingAdd(c, w, q, now);
    DropElems(u, Covered(c, w) + IgnoredAmong(u, Normalize(c.ignored), w.matches) + (Elems(add) + Elems(ignore)));
  }

  /** Applying everything that is staged is a fixpoint: the next detection finds nothing, and the
      report says so. */
  lemma ApplyAllSettles(c: Config, w: World, now: int)
    requires FreshLists(c, w) && Plain(c.detected) && CommaFree(c.detected)
    ensures
      var q := Request(c.detected, [], c.removed);
      && Detect(After(c, q, now), w) == Pending([], [])
      && Reported(c, q, now).remainingAdd == [] && Reported(c, q, now).remainingRemove == []
      && FreshLists(After(c, q, now), w)
  {
    var q := Request(c.detected, [], c.removed);
    var (add, ignore, remove) := Chosen(c, q);
    ChosenStaged(c, w, q);
    StagedMeaning(c, w);
    NormalizeNormal(c.detected);
    NormalizeNormal(c.removed);
    NormalizeNormal([]);
    IntersectNormal(c.detected, c.detected);
    IntersectNormal([], c.detected);
    IntersectNormal(c.removed, c.removed);
    SubtractNormal(Intersect(c.removed, c.removed), add);
    assert ignore == [];
    RedetectsExactly(c, w, q, now);
    SubtractNormal(c.detected, add + ignore);
    SubtractNormal(c.removed, remove);
    DropEverything(c.detected, Elems(add + ignore));
    DropEverything(c.removed, Elems(remove));
  }

  /** The pattern condition is needed: ignoring an upstream name that reads as a pattern which does
      not match itself has no effect, although the report says nothing remains. */
  lemma PatternNameReturns(name: string, w: World, now: int)
    requires IsNormal([name]) && HasPrefix(name, REGEX) && !w.matches(TrimSpace(name[|REGEX|..]), name)
    requires w.upstream == [name] && w.mapping == map[]
    ensures
      var c := Config("", [name], [], [], 0);
      var q := Request([], [name], []);
      && FreshLists(c, w)
      && Reported(c, q, now).remainingAdd == []
      && Detect(After(c, q, now), w).add == [name]
  {
    var c := Config("", [name], [], [], 0);
    var q := Request([], [name], []);
    NormalizeNormal([]);
    DetectsOnly(name, c, w);
    ChosenOnly(name, c, w, q);
    var c2 := After(c, q, now);
    NewLocals(c, w, q, now);
    assert Drop([], {}) == [];
    StillIgnoredExactly(c, w, q, now, name);
    DetectsOnly(name, c2, w);
    assert [] + [name] == [name] + [];
    NoneRemaining([name]);
  }

  lemma DetectsOnly(name: string, c: Config, w: World)
    requires IsNormal([name]) && w.upstream == [name] && w.mapping == map[]
    requires Locals(c) == [] && !Ignored(name, Normalize(c.ignored), w.matches)
    ensures Detect(c, w) == Pending([name], [])
  {
    var ignored := IgnoredAmong([name], Normalize(c.ignored), w.matches);
    NormalizeNormal([name]);
    CollectIsNormal(GetModels(c.models), [name], c.ignored, w.mapping, w.matches);
    DropNothing([name], Covered(c, w) + ignored);
  }

  lemma ChosenOnly(name: string, c: Config, w: World, q: Request)
    requires IsNormal([name]) && c == Config("", [name], [], [], 0) && q == Request([], [name], [])
    ensures Chosen(c, q) == ([], [name], [])
  {
    NormalizeNormal([name]);
    NormalizeNormal([]);
    KeepEverything([name], Elems([name]));
    KeepEverything([], {});
  }

  // ------------------------------------------------------------ counting a round

  lemma MergedWithStaged(c: Config, w: World)
    ensures Merge(Locals(c), Detect(c, w).add) == Locals(c) + Detect(c, w).add
  {
    var u, add := Normalize(w.upstream), Detect(c, w).add;
    CollectIsNormal(GetModels(c.models), w.upstream, c.ignored, w.mapping, w.matches);
    NormalizeIsNormal(GetModels(c.models));
    MergeNormal(Locals(c), add);
    DropElems(u, Covered(c, w) + IgnoredAmong(u, Normalize(c.ignored), w.matches));
    DropNothing(add, Elems(Locals(c)));
  }

  lemma StageConserves(c: Config, w: World, auto: bool, now: int)
    ensures
      var (next, autoAdded) := Stage(c, Detect(c, w), auto, now);
      |Normalize(next.detected)| + autoAdded == |Detect(c, w).add| && |Normalize(next.removed)| == |Detect(c, w).remove|
  {
    var p := Detect(c, w);
    MergedWithStaged(c, w);
    CollectIsNormal(GetModels(c.models), w.upstream, c.ignored, w.mapping, w.matches);
    NormalizeNormal(p.add);
    NormalizeNormal(p.remove);
    NormalizeNormal([]);
  }

  /** A forced round accounts for every pending name: adopted now, or staged. */
  lemma CheckConserves(c: Config, w: World, minInterval: int, auto: bool, now: int, write: Write)
    ensures
      var (next, result) := Check(c, Some(w.upstream), w.mapping, w.matches, true, minInterval, auto, now, write);
      && |Normalize(next.detected)| + result.autoAdded == |Detect(c, w).add|
      && |Normalize(next.removed)| == |Detect(c, w).remove|
      && (result.err <==> write.Rejected? || (write.AbilitiesFailed? && result.autoAdded > 0))
  {
    StageConserves(c, w, auto, now);
  }

  /** Adopting automatically does to the stored list and to the staged lists what applying every
      pending addition by hand does. */
  lemma AdoptionIsApplication(c: Config, w: World, now: int)
    requires FreshLists(c, w) && |c.detected| > 0
    ensures
      var adopted, applied := Stage(c, Detect(c, w), true, now).0, After(c, Request(c.detected, [], []), now);
      && adopted.models == applied.models
      && adopted.detected == applied.detected
      && adopted.removed == applied.removed
  {
    AppliedAdditions(c, w, now);
    MergedWithStaged(c, w);
  }

  lemma AppliedAdditions(c: Config, w: World, now: int)
    requires FreshLists(c, w) && |c.detected| > 0
    ensures
      var applied := After(c, Request(c.detected, [], []), now);
      applied.models == Join(Locals(c) + c.detected, ',') && applied.detected == [] && applied.removed == c.removed
  {
    ChosenStaged(c, w, Request(c.detected, [], []));
    ChosenAdds(c);
    AllAdded(c, w);
    NoneRemaining(c.detected);
    NormalizeNormal(c.removed);
    SubtractNormal(c.removed, []);
    DropNothing(c.removed, Elems([]));
  }

  lemma AllAdded(c: Config, w: World)
    requires FreshLists(c, w) && IsNormal(c.detected)
    ensures ApplySelected(Locals(c), c.detected, []) == Locals(c) + c.detected
  {
    StagedMeaning(c, w);
    NormalizeIsNormal(GetModels(c.models));
    AppliedList(Locals(c), c.detected, []);
    DropNothing(Locals(c), Elems([]));
  }

  lemma NoneRemaining(names: seq<string>)
    requires IsNormal(names)
    ensures Subtract(Normalize(names), names + []) == []
  {
    NormalizeNormal(names);
    assert names + [] == names;
    SubtractNormal(names, names);
    DropEverything(names, Elems(names));
  }

  lemma ChosenAdds(c: Config)
    requires IsNormal(c.detected) && IsNormal(c.removed)
    ensures Chosen(c, Request(c.detected, [], [])) == (c.detected, [], [])
  {
    NormalizeNormal([]);
    NormalizeNormal(c.detected);
    NormalizeNormal(c.removed);
    KeepEverything(c.detected, Elems(c.detected));
    SubtractNormal([], c.detected);
  }
}
