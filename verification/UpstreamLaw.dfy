/** When detecting again agrees with the report, for every selection: added names with commas, which the
    stored list tears apart, and names that read as patterns. */
module UpstreamLaw {
  import opened Text
  import opened NameLists
  import opened UpstreamModels
  import opened UpstreamProof

  // ---------------------------------------------------------------- torn names

  /** The names as the stored list separates them. */
  function Pieces(names: seq<string>): seq<string> {
    if names == [] then [] else Split(names[0], ',') + Pieces(names[1..])
  }

  /** The parts with a character in front: a separator opens a new part. */
  function Front(c: char, parts: seq<string>): seq<string>
    requires parts != []
  {
    if c == ',' then [""] + parts else [[c] + parts[0]] + parts[1..]
  }

  lemma FrontConcat(c: char, p: seq<string>, q: seq<string>)
    requires p != []
    ensures Front(c, p + q) == Front(c, p) + q
  {
    if c == ',' {
      assert [""] + (p + q) == [""] + p + q;
    } else {
      assert (p + q)[1..] == p[1..] + q;
    }
  }

  lemma SplitCons(c: char, t: string)
    ensures Split([c] + t, ',') == Front(c, Split(t, ','))
  {
    assert ([c] + t)[1..] == t;
  }

  lemma {:induction false} SplitConcat(a: string, b: string)
    ensures Split(a + [','] + b, ',') == Split(a, ',') + Split(b, ',')
  {
    if a == "" {
      assert a + [','] + b == [','] + b;
      SplitCons(',', b);
    } else {
      var c, t := a[0], a[1..];
      SplitConcat(t, b);
      SplitStep(c, t, t + [','] + b, Split(b, ','));
      assert a == [c] + t && a + [','] + b == [c] + (t + [','] + b);
    }
  }

  /** A character in front keeps a split with further parts a split with further parts. */
  lemma SplitStep(c: char, t: string, longer: string, more: seq<string>)
    requires Split(longer, ',') == Split(t, ',') + more
    ensures Split([c] + longer, ',') == Split([c] + t, ',') + more
  {
    SplitCons(c, longer);
    SplitCons(c, t);
    FrontConcat(c, Split(t, ','), more);
  }

  lemma {:induction false} SplitJoined(names: seq<string>)
    requires names != []
    ensures Split(Join(names, ','), ',') == Pieces(names)
  {
    if |names| == 1 {
      assert Pieces(names[1..]) == [];
    } else {
      SplitConcat(names[0], Join(names[1..], ','));
      SplitJoined(names[1..]);
    }
  }

  lemma {:induction false} PiecesConcat(a: seq<string>, b: seq<string>)
    ensures Pieces(a + b) == Pieces(a) + Pieces(b)
  {
    if a == [] {
      assert a + b == b;
    } else {
      assert (a + b)[1..] == a[1..] + b;
      PiecesConcat(a[1..], b);
    }
  }

  lemma {:induction false} WholePieces(names: seq<string>)
    requires CommaFree(names)
    ensures Pieces(names) == names
  {
    if names != [] {
      assert names[0] in names;
      SplitNoSep(names[0], ',');
      WholePieces(names[1..]);
      assert names == [names[0]] + names[1..];
    }
  }

  // -------------------------------------------- trimming separators loses no name

  lemma BlankCandidate()
    ensures Candidate("") == []
  {
    TrimKeepsTrimmed("", Space);
  }

  lemma BlankFirst(names: seq<string>)
    ensures Candidates([""] + names) == Candidates(names)
  {
    BlankCandidate();
    assert [""] == [] + [""];
    CandidatesSnoc([], "");
    CandidatesConcat([""], names);
  }

  lemma BlankLast(names: seq<string>)
    ensures Candidates(names + [""]) == Candidates(names)
  {
    BlankCandidate();
    CandidatesSnoc(names, "");
  }

  lemma {:induction false} SkipsBlanks(s: string, i: nat)
    requires i <= |s|
    ensures Candidates(Split(s[SkipLeft(s, Only(','), i)..], ',')) == Candidates(Split(s[i..], ','))
    decreases |s| - i
  {
    if i < |s| && s[i] == ',' {
      SkipsBlanks(s, i + 1);
      var t := s[i..];
      assert t[1..] == s[i + 1..];
      BlankFirst(Split(s[i + 1..], ','));
    }
  }

  lemma LastSeparator(t: string)
    ensures Candidates(Split(t + [','], ',')) == Candidates(Split(t, ','))
  {
    assert t + [','] == t + [','] + "";
    SplitConcat(t, "");
    BlankLast(Split(t, ','));
  }

  lemma {:induction false} SkipsBlanksRight(s: string, j: nat, r: nat)
    requires j <= |s| && r == SkipRight(s, Only(','), j)
    ensures Candidates(Split(s[..r], ',')) == Candidates(Split(s[..j], ','))
  {
    if r < j {
      var t := s[..j - 1];
      SkipsBlanksRight(s, j - 1, r);
      assert s[..j] == t + [','];
      LastSeparator(t);
    }
  }

  lemma TrimKeepsNames(s: string)
    ensures Candidates(Split(Trim(s, Only(',')), ',')) == Candidates(Split(s, ','))
  {
    var l := TrimLeft(s, Only(','));
    SkipsBlanks(s, 0);
    SkipsBlanksRight(l, |l|, SkipRight(l, Only(','), |l|));
    assert s[0..] == s && l[..|l|] == l;
  }

  /** What is read back from any stored list: the pieces, normalized. */
  lemma StoredPieces(names: seq<string>)
    ensures Normalize(GetModels(Join(names, ','))) == Normalize(Pieces(names))
  {
    var text := Join(names, ',');
    if names != [] {
      SplitJoined(names);
      TrimKeepsNames(text);
      if text == "" { BlankLast([]); }
    }
  }

  // ------------------------------------------------------------------- the law

  /** The names that the added ones are torn into. */
  function Torn(c: Config, q: Request): seq<string> { Normalize(Pieces(Chosen(c, q).0)) }

  /** The local names that stay. */
  function Staying(c: Config, q: Request): seq<string> { Drop(Locals(c), Elems(Chosen(c, q).2)) }

  lemma StayingNormal(c: Config, q: Request)
    ensures IsNormal(Staying(c, q)) && CommaFree(Staying(c, q))
    ensures forall k :: k in Staying(c, q) <==> k in Locals(c) && k !in Chosen(c, q).2
  {
    var out := Elems(Chosen(c, q).2);
    NormalizeIsNormal(GetModels(c.models));
    DropNormal(Locals(c), out);
    DropElems(Locals(c), out);
    StoredCommaFree(c.models);
  }

  /** The local list after any application. */
  lemma LocalsAfter(c: Config, w: World, q: Request, now: int)
    requires FreshLists(c, w)
    ensures Locals(After(c, q, now)) == Merge(Staying(c, q), Torn(c, q))
  {
    var (add, ignore, remove) := Chosen(c, q);
    var next := Staying(c, q) + add;
    NextStored(c, w, q, now);
    StoredPieces(next);
    StayingNormal(c, q);
    PiecesConcat(Staying(c, q), add);
    WholePieces(Staying(c, q));
    MergeIsNormalizedConcat(Staying(c, q), Pieces(add));
    NormalizeIsNormal(Pieces(add));
    NormalizeNormal(Torn(c, q));
  }

  lemma NextStored(c: Config, w: World, q: Request, now: int)
    requires FreshLists(c, w)
    ensures Locals(After(c, q, now)) == Normalize(GetModels(Join(Staying(c, q) + Chosen(c, q).0, ',')))
  {
    var (add, ignore, remove) := Chosen(c, q);
    ChosenStaged(c, w, q);
    StagedMeaning(c, w);
    NormalizeIsNormal(GetModels(c.models));
    AppliedList(Locals(c), add, remove);
    if Locals(c) == Staying(c, q) + add {
      StoredCommaFree(c.models);
      StoredReadsBack(Locals(c));
    }
  }

  /** Every piece of an added name stays as a local name, is a redirect source or is offered upstream, so
      that none of them is found for removal. */
  ghost predicate PiecesWelcome(c: Config, w: World, q: Request) {
    forall p :: p in Torn(c, q) ==> p in Staying(c, q) || p in w.mapping || p in Normalize(w.upstream)
  }

  /** Among the upstream names not covered before, those that are a piece of an added name or are still
      ignored are exactly those that were ignored, are added or are to be ignored. */
  ghost predicate OpenAgree(c: Config, w: World, q: Request) {
    forall k :: k in Normalize(w.upstream) && k !in Covered(c, w) ==> OpenAgreeAt(c, w, q, k)
  }

  ghost predicate OpenAgreeAt(c: Config, w: World, q: Request, k: string) {
    var (add, ignore, remove) := Chosen(c, q);
    k in Torn(c, q) || StillIgnored(c, w, q, k)
    <==> Ignored(k, Normalize(c.ignored), w.matches) || k in add || k in ignore
  }

  lemma MergedElems(a: seq<string>, b: seq<string>)
    requires IsNormal(a) && IsNormal(b)
    ensures Merge(a, b) == a + Drop(b, Elems(a))
    ensures forall k :: k in Merge(a, b) <==> k in a || k in b
  {
    MergeNormal(a, b);
    NormalizeNormal(a);
  }

  lemma RemovalsAgree(c: Config, w: World, q: Request, now: int)
    requires FreshLists(c, w)
    ensures Detect(After(c, q, now), w).remove == Reported(c, q, now).remainingRemove <==> PiecesWelcome(c, w, q)
  {
    var (add, ignore, remove) := Chosen(c, q);
    var c2, u := After(c, q, now), Normalize(w.upstream);
    var out, extra := w.mapping.Keys + Elems(u), Drop(Torn(c, q), Elems(Staying(c, q)));
    LocalsAfter(c, w, q, now);
    StayingNormal(c, q);
    NormalizeIsNormal(Pieces(add));
    MergedElems(Staying(c, q), Torn(c, q));
    CollectIsNormal(GetModels(c2.models), w.upstream, c2.ignored, w.mapping, w.matches);
    DropConcat(Staying(c, q), extra, out);
    RemainingRemove(c, w, q, now);
    DropElems(Torn(c, q), Elems(Staying(c, q)));
    WelcomeIff(c, w, q, extra, out);
  }

  lemma WelcomeIff(c: Config, w: World, q: Request, extra: seq<string>, out: set<string>)
    requires out == w.mapping.Keys + Elems(Normalize(w.upstream))
    requires forall k :: k in extra <==> k in Torn(c, q) && k !in Staying(c, q)
    ensures Drop(extra, out) == [] <==> PiecesWelcome(c, w, q)
  {
    DropElems(extra, out);
    if PiecesWelcome(c, w, q) { DropEverything(extra, out); }
    if Drop(extra, out) == [] {
      forall p | p in Torn(c, q) && p !in Staying(c, q) ensures p in w.mapping || p in Normalize(w.upstream) {
        assert p in extra && p !in Drop(extra, out);
      }
    }
  }

  lemma RemainingRemove(c: Config, w: World, q: Request, now: int)
    requires FreshLists(c, w)
    ensures Reported(c, q, now).remainingRemove == Drop(Staying(c, q), w.mapping.Keys + Elems(Normalize(w.upstream)))
  {
    var (add, ignore, remove) := Chosen(c, q);
    var l, out := Locals(c), w.mapping.Keys + Elems(Normalize(w.upstream));
    ChosenStaged(c, w, q);
    StagedMeaning(c, w);
    NormalizeNormal(c.removed);
    SubtractNormal(c.removed, remove);
    DropDrop(l, out, Elems(remove));
    DropDrop(l, Elems(remove), out);
    assert Elems(remove) + out == out + Elems(remove);
  }

  lemma AdditionsAgree(c: Config, w: World, q: Request, now: int)
    requires FreshLists(c, w)
    ensures Detect(After(c, q, now), w).add == Reported(c, q, now).remainingAdd <==> OpenAgree(c, w, q)
  {
    var (add, ignore, remove) := Chosen(c, q);
    var c2, u := After(c, q, now), Normalize(w.upstream);
    AdditionsRedetected(c, w, q, now);
    CoverageAfter(c, w, q, now);
    OpenAgreeAsSets(c, w, q, now);
    OpenTorn(u, Covered(c2, w), IgnoredAmong(u, Normalize(c2.ignored), w.matches), Covered(c, w),
      IgnoredAmong(u, Normalize(c.ignored), w.matches), Elems(Torn(c, q)), Elems(add) + Elems(ignore));
  }

  ghost predicate OpenSets(u: seq<string>, ignored2: set<string>, cover: set<string>, ignored: set<string>,
                           torn: set<string>, chosen: set<string>)
  {
    forall k :: k in u && k !in cover ==> (k in torn || k in ignored2 <==> k in ignored || k in chosen)
  }

  lemma OpenAgreeAsSets(c: Config, w: World, q: Request, now: int)
    requires FreshLists(c, w)
    ensures
      var (add, ignore, remove) := Chosen(c, q);
      var u := Normalize(w.upstream);
      OpenAgree(c, w, q) <==> OpenSets(u, IgnoredAmong(u, Normalize(After(c, q, now).ignored), w.matches), Covered(c, w),
        IgnoredAmong(u, Normalize(c.ignored), w.matches), Elems(Torn(c, q)), Elems(add) + Elems(ignore))
  {
    forall k { OpenAt(c, w, q, now, k); }
  }

  /** The same for one name. */
  lemma OpenAt(c: Config, w: World, q: Request, now: int, k: string)
    requires FreshLists(c, w)
    ensures
      var (add, ignore, remove) := Chosen(c, q);
      var u := Normalize(w.upstream);
      k in u ==>
        (OpenAgreeAt(c, w, q, k) <==>
          (k in Elems(Torn(c, q)) || k in IgnoredAmong(u, Normalize(After(c, q, now).ignored), w.matches)
           <==> k in IgnoredAmong(u, Normalize(c.ignored), w.matches) || k in Elems(add) + Elems(ignore)))
  {
    StillIgnoredExactly(c, w, q, now, k);
  }

  lemma OpenTorn(u: seq<string>, cover2: set<string>, ignored2: set<string>, cover: set<string>, ignored: set<string>,
                 torn: set<string>, chosen: set<string>)
    requires forall k :: k in u ==> (k in cover2 <==> k in cover || k in torn)
    ensures SameWithin(u, cover2 + ignored2, cover + ignored + chosen)
      <==> OpenSets(u, ignored2, cover, ignored, torn, chosen)
  {
  }

  lemma CoverageAfter(c: Config, w: World, q: Request, now: int)
    requires FreshLists(c, w)
    ensures forall k :: k in Normalize(w.upstream) ==>
      (k in Covered(After(c, q, now), w) <==> k in Covered(c, w) || k in Torn(c, q))
  {
    ChosenStaged(c, w, q);
    StagedMeaning(c, w);
    LocalsAfter(c, w, q, now);
    StayingNormal(c, q);
    NormalizeIsNormal(Pieces(Chosen(c, q).0));
    MergedElems(Staying(c, q), Torn(c, q));
  }

  /** For every selection whatsoever: detecting again returns exactly the reported remainder, in order, if
      and only if no piece of an added name is unwelcome and the open upstream names agree. */
  lemma RedetectsIff(c: Config, w: World, q: Request, now: int)
    requires FreshLists(c, w)
    ensures AgreesWithReport(c, w, q, now) <==> PiecesWelcome(c, w, q) && OpenAgree(c, w, q)
  {
    RemovalsAgree(c, w, q, now);
    AdditionsAgree(c, w, q, now);
  }
}
