/** What a request selects, what the answer reports, when a round is skipped, and what is ignored: the
    vocabulary of the laws about detection and application, in terms of the request and the lists alone. */
module UpstreamSelection {
  import opened Wrappers
  import opened Text
  import opened NameLists
  import opened UpstreamModels
  import opened UpstreamProof
  import opened UpstreamLaw

  // -------------------------------------------------------------- what is selected

  /** The lists a request is applied to are normal whatever is stored. */
  lemma IntersectExactly(base: seq<string>, allowed: seq<string>)
    ensures IsNormal(Intersect(base, allowed)) && InOrder(Intersect(base, allowed), Normalize(base))
    ensures forall k :: k in Intersect(base, allowed) <==> k in Normalize(base) && k in Normalize(allowed)
  {
    NormalizeIsNormal(base);
    KeepNormal(Normalize(base), Elems(Normalize(allowed)));
    KeepElems(Normalize(base), Elems(Normalize(allowed)));
    KeepInOrder(Normalize(base), Elems(Normalize(allowed)));
  }

  /** For every channel and request: the names to add and to ignore are the requested ones that are staged
      for adding, the names to remove the requested ones that are staged for removal and not being added,
      each list in the order of the request. */
  lemma ChosenExactly(c: Config, q: Request)
    ensures
      var (add, ignore, remove) := Chosen(c, q);
      && (forall k :: k in add <==> k in Normalize(q.add) && k in Normalize(c.detected))
      && (forall k :: k in ignore <==> k in Normalize(q.ignore) && k in Normalize(c.detected))
      && (forall k :: k in remove <==> k in Normalize(q.remove) && k in Normalize(c.removed) && k !in add)
      && InOrder(add, Normalize(q.add)) && InOrder(ignore, Normalize(q.ignore))
      && IsNormal(add) && IsNormal(ignore) && IsNormal(remove)
  {
    var pendingAdd, pendingRemove := Normalize(c.detected), Normalize(c.removed);
    NormalizeIsNormal(c.detected);
    NormalizeIsNormal(c.removed);
    NormalizeNormal(pendingAdd);
    NormalizeNormal(pendingRemove);
    IntersectExactly(q.add, pendingAdd);
    IntersectExactly(q.ignore, pendingAdd);
    IntersectExactly(q.remove, pendingRemove);
    SubtractNormal(Intersect(q.remove, pendingRemove), Intersect(q.add, pendingAdd));
  }

  lemma RemovalsInOrder(c: Config, q: Request)
    ensures InOrder(Chosen(c, q).2, Normalize(q.remove))
  {
    var pendingRemove := Normalize(c.removed);
    var base, add := Normalize(q.remove), Chosen(c, q).0;
    NormalizeIsNormal(c.removed);
    NormalizeNormal(pendingRemove);
    NormalizeIsNormal(q.remove);
    KeepNormal(base, Elems(pendingRemove));
    NormalizeNormal(Intersect(q.remove, pendingRemove));
    DropOfKeepInOrder(base, Elems(pendingRemove), Elems(Normalize(add)));
  }

  lemma DropOfKeepInOrder(names: seq<string>, wanted: set<string>, out: set<string>)
    ensures InOrder(Drop(Keep(names, wanted), out), names)
  {
    KeepInOrder(names, wanted);
    DropInOrder(Keep(names, wanted), out);
    InOrderTransitive(Drop(Keep(names, wanted), out), Keep(names, wanted), names);
  }

  // -------------------------------------------------------------- what is applied

  /** For any lists: the old names and the added ones, first occurrences in order, without the removed ones
      that are not being added. */
  lemma AppliedExactly(origin: seq<string>, add: seq<string>, remove: seq<string>)
    ensures ApplySelected(origin, add, remove)
         == Drop(Normalize(origin + add), Elems(Normalize(remove)) - Elems(Normalize(add)))
  {
    var a, r := Normalize(add), Normalize(remove);
    NormalizeIsNormal(add);
    NormalizeIsNormal(remove);
    NormalizeNormal(a);
    NormalizeNormal(r);
    MergeNormal(origin, a);
    MergeIsNormalizedConcat(origin, add);
    assert Merge(origin, a) == Merge(origin, add);
    SubtractNormal(r, a);
    SubtractNormal(Merge(origin, a), Subtract(r, a));
    assert Elems(Subtract(r, a)) == Elems(r) - Elems(a);
  }

  /** The answer names exactly what was added and removed, and what remains staged. */
  lemma AnswerExactly(c: Config, q: Request, now: int)
    ensures
      var (add, ignore, remove) := Chosen(c, q);
      var r := Reported(c, q, now);
      && r.added == add && r.removed == remove
      && (forall k :: k in r.remainingAdd <==> k in Normalize(c.detected) && k !in add && k !in ignore)
      && (forall k :: k in r.remainingRemove <==> k in Normalize(c.removed) && k !in remove)
      && (r.changed <==> Locals(c) != ApplySelected(Locals(c), add, remove))
      && After(c, q, now).detected == r.remainingAdd && After(c, q, now).removed == r.remainingRemove
      && After(c, q, now).lastCheck == now && (!r.changed ==> After(c, q, now).models == c.models)
  {
    var (add, ignore, remove) := Chosen(c, q);
    ChosenExactly(c, q);
    NormalizeIsNormal(c.detected);
    NormalizeIsNormal(c.removed);
    SubtractNormal(Normalize(c.detected), add + ignore);
    SubtractNormal(Normalize(c.removed), remove);
  }

  /** With fresh lists the stored list changes exactly when something is added or removed, and for names
      the format can hold, exactly when the local names differ afterwards. */
  lemma ChangedExactly(c: Config, w: World, q: Request, now: int)
    requires FreshLists(c, w)
    ensures
      var (add, ignore, remove) := Chosen(c, q);
      && (Reported(c, q, now).changed <==> add != [] || remove != [])
      && (CommaFree(add) ==> (Reported(c, q, now).changed <==> Locals(After(c, q, now)) != Locals(c)))
  {
    var (add, ignore, remove) := Chosen(c, q);
    var l := Locals(c);
    ChosenStaged(c, w, q);
    StagedMeaning(c, w);
    NormalizeIsNormal(GetModels(c.models));
    AppliedList(l, add, remove);
    DropElems(l, Elems(remove));
    SelectionMatters(l, add, remove);
    if CommaFree(add) { NewLocals(c, w, q, now); }
  }

  lemma SelectionMatters(l: seq<string>, add: seq<string>, remove: seq<string>)
    requires forall k :: k in add ==> k !in l
    requires forall k :: k in remove ==> k in l
    ensures Drop(l, Elems(remove)) + add == l <==> add == [] && remove == []
  {
    var next := Drop(l, Elems(remove)) + add;
    DropElems(l, Elems(remove));
    if add != [] {
      assert add[0] in next && add[0] !in l;
    } else if remove != [] {
      assert remove[0] in l && remove[0] !in Drop(l, Elems(remove));
    } else {
      DropNothing(l, Elems(remove));
    }
  }

  // -------------------------------------------------------------- what is ignored

  /** A name is ignored when it is listed itself, or when an entry "regex:..." holds a pattern that,
      trimmed, matches it; such an entry never stands for itself. */
  lemma IgnoredExactly(k: string, ignored: seq<string>, matches: Matcher)
    ensures Ignored(k, ignored, matches) <==>
      || (k in ignored && !IsPattern(k))
      || exists body :: ['r', 'e', 'g', 'e', 'x', ':'] + body in ignored && matches(TrimSpace(body), k)
  {
    var prefix := ['r', 'e', 'g', 'e', 'x', ':'];
    assert REGEX == prefix;
    if e :| e in ignored && IgnoredBy(e, k, matches) {
      if HasPrefix(e, REGEX) { assert e == prefix + e[6..]; }
    }
    if k in ignored && !IsPattern(k) { assert IgnoredBy(k, k, matches); }
    if body :| prefix + body in ignored && matches(TrimSpace(body), k) {
      var e := prefix + body;
      assert e[..6] == prefix && e[6..] == body;
      assert IgnoredBy(e, k, matches);
    }
  }

  predicate IsPattern(k: string) { |k| >= 6 && k[..6] == ['r', 'e', 'g', 'e', 'x', ':'] }

  /** Any stored text reads as its comma-separated names, trimmed, blanks and repetitions left out. */
  lemma ReadNames(models: string)
    ensures Normalize(GetModels(models)) == Normalize(Split(models, ','))
  {
    if models == "" {
      BlankLast([]);
    } else {
      TrimKeepsNames(models);
    }
  }

  // ------------------------------------------------------------ when a round is skipped

  /** A round that is not skipped stamps the clock, whether the fetch succeeds or not; a failed fetch does
      nothing else. */
  lemma CheckStamps(c: Config, upstream: Option<seq<string>>, w: World, force: bool, minInterval: int, auto: bool, now: int, write: Write)
    requires force || c.lastCheck <= 0 || now - c.lastCheck >= minInterval
    ensures
      var (next, result) := Check(c, upstream, w.mapping, w.matches, force, minInterval, auto, now, write);
      && next.lastCheck == now && next.ignored == c.ignored
      && (upstream.None? ==> next == c.(lastCheck := now) && result == Checked(false, 0, true))
      && (upstream.Some? ==> (result.changed <==> result.autoAdded > 0 && !write.Rejected?))
  {
  }

  /** Within the minimum interval of such a round, an unforced one does nothing and reports nothing. */
  lemma Throttled(c: Config, first: Option<seq<string>>, second: Option<seq<string>>, w: World, force: bool,
                  minInterval: int, auto: bool, now: int, later: int, write: Write)
    requires force || c.lastCheck <= 0 || now - c.lastCheck >= minInterval
    requires now > 0 && later - now < minInterval
    ensures
      var next := Check(c, first, w.mapping, w.matches, force, minInterval, auto, now, write).0;
      Check(next, second, w.mapping, w.matches, false, minInterval, auto, later, write) == (next, Checked(false, 0, false))
  {
    CheckStamps(c, first, w, force, minInterval, auto, now, write);
  }

  /** Without automatic adoption the stored list never changes. */
  lemma NeverAdopted(c: Config, upstream: Option<seq<string>>, w: World, force: bool, minInterval: int, now: int, write: Write)
    ensures
      var (next, result) := Check(c, upstream, w.mapping, w.matches, force, minInterval, false, now, write);
      next.models == c.models && result.autoAdded == 0 && !result.changed
  {
  }
}
