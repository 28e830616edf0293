/** Runs of one channel against a fixed upstream: detections, scheduled or forced, adopting or
    staging, interleaved with selections an administrator applies. */
module UpstreamRuns {
  import opened Wrappers
  import opened NameLists
  import opened UpstreamModels
  import opened UpstreamProof
  import opened UpstreamLaw

  datatype Event =
    | Checking(fetched: bool, force: bool, minInterval: int, auto: bool, at: int, write: Write)
    | Applying(q: Request, at: int, stored: bool)

  /** The stored channel after one event; a rejected write leaves it as it was. */
  function Next(c: Config, w: World, e: Event): Config {
    match e
    case Checking(fetched, force, minInterval, auto, at, write) =>
      if write.Rejected? then c
      else Check(c, if fetched then Some(w.upstream) else None, w.mapping, w.matches, force, minInterval, auto, at, write).0
    case Applying(q, at, stored) => if stored then After(c, q, at) else c
  }

  function Exec(c: Config, w: World, events: seq<Event>): Config {
    if events == [] then c else Next(Exec(c, w, events[..|events| - 1]), w, events[|events| - 1])
  }

  /** Upstream names that the stored format holds and that do not read as patterns. */
  ghost predicate Ordinary(w: World) { Plain(Normalize(w.upstream)) && CommaFree(Normalize(w.upstream)) }

  lemma StagedOrdinary(c: Config, w: World)
    requires FreshLists(c, w) && Ordinary(w)
    ensures Plain(c.detected) && CommaFree(c.detected)
  {
    StagedMeaning(c, w);
  }

  /** Applying any selection keeps the staged lists fresh. */
  lemma ApplyingKeepsFresh(c: Config, w: World, q: Request, at: int)
    requires FreshLists(c, w) && Ordinary(w)
    ensures FreshLists(After(c, q, at), w)
  {
    StagedOrdinary(c, w);
    ChosenStaged(c, w, q);
    RedetectsExactly(c, w, q, at);
  }

  /** A detection only looks at the local list and the ignored names. */
  lemma DetectsAlike(a: Config, b: Config, w: World)
    requires a.models == b.models && Normalize(a.ignored) == Normalize(b.ignored)
    ensures Detect(a, w) == Detect(b, w)
  {
  }

  /** The channel with the differences of a detection staged. */
  function Staged(c: Config, w: World): Config {
    var p := Detect(c, w);
    Config(c.models, p.add, p.remove, c.ignored, c.lastCheck)
  }

  lemma StagedIsFresh(c: Config, w: World)
    ensures FreshLists(Staged(c, w), w)
  {
    DetectsAlike(c, Staged(c, w), w);
  }

  /** Adopting names that the stored format holds leaves nothing to add, and nothing new to remove. */
  lemma AdoptedIsFresh(c: Config, w: World, at: int)
    requires |Detect(c, w).add| > 0 && CommaFree(Detect(c, w).add)
    ensures FreshLists(Stage(c, Detect(c, w), true, at).0, w)
  {
    var p, next := Detect(c, w), Stage(c, Detect(c, w), true, at).0;
    var l, u := Locals(c), Normalize(w.upstream);
    AdoptedLocals(c, w, at);
    StagedIsFresh(c, w);
    StagedMeaning(Staged(c, w), w);
    CollectIsNormal(GetModels(next.models), w.upstream, next.ignored, w.mapping, w.matches);
    DropEverything(u, Covered(next, w) + IgnoredAmong(u, Normalize(c.ignored), w.matches));
    DropConcat(l, p.add, w.mapping.Keys + Elems(u));
    DropEverything(p.add, w.mapping.Keys + Elems(u));
  }

  lemma AdoptedLocals(c: Config, w: World, at: int)
    requires |Detect(c, w).add| > 0 && CommaFree(Detect(c, w).add)
    ensures Locals(Stage(c, Detect(c, w), true, at).0) == Locals(c) + Detect(c, w).add
  {
    var p := Detect(c, w);
    MergedWithStaged(c, w);
    NormalizeIsNormal(GetModels(c.models));
    CollectIsNormal(GetModels(c.models), w.upstream, c.ignored, w.mapping, w.matches);
    MergeNormal(Locals(c), p.add);
    StoredCommaFree(c.models);
    StoredReadsBack(Locals(c) + p.add);
  }

  /** A name with a comma is adopted again and again: after the round it is still missing. */
  lemma CommaNameAdoptedAgain(c: Config, w: World, at: int, k: string)
    requires k in Detect(c, w).add && ',' in k
    ensures k in Detect(Stage(c, Detect(c, w), true, at).0, w).add
  {
    var next, u := Stage(c, Detect(c, w), true, at).0, Normalize(w.upstream);
    StagedIsFresh(c, w);
    StagedMeaning(Staged(c, w), w);
    StoredCommaFree(next.models);
    CollectIsNormal(GetModels(next.models), w.upstream, next.ignored, w.mapping, w.matches);
    DropElems(u, Covered(next, w) + IgnoredAmong(u, Normalize(c.ignored), w.matches));
  }

  /** A round that fetched the upstream list leaves fresh lists, whatever was staged before, if and only if
      it adopts no name with a comma. */
  lemma StageFreshIff(c: Config, w: World, auto: bool, at: int)
    ensures FreshLists(Stage(c, Detect(c, w), auto, at).0, w) <==> (auto ==> CommaFree(Detect(c, w).add))
  {
    var p := Detect(c, w);
    if auto && |p.add| > 0 {
      if CommaFree(p.add) {
        AdoptedIsFresh(c, w, at);
      } else {
        var k :| k in p.add && ',' in k;
        CommaNameAdoptedAgain(c, w, at, k);
      }
    } else {
      DetectsAlike(c, Stage(c, p, auto, at).0, w);
    }
  }

  /** In particular with ordinary upstream names. */
  lemma CheckingMakesFresh(c: Config, w: World, auto: bool, at: int)
    requires Ordinary(w)
    ensures FreshLists(Stage(c, Detect(c, w), auto, at).0, w)
  {
    StagedIsFresh(c, w);
    StagedOrdinary(Staged(c, w), w);
    StageFreshIff(c, w, auto, at);
  }

  /** Throttled rounds and failed fetches touch no list. */
  lemma ClockKeepsFresh(c: Config, w: World, at: int)
    requires FreshLists(c, w)
    ensures FreshLists(c.(lastCheck := at), w)
  {
    DetectsAlike(c, c.(lastCheck := at), w);
  }

  lemma CheckingKeepsFresh(c: Config, w: World, e: Event)
    requires e.Checking? && FreshLists(c, w) && Ordinary(w)
    ensures FreshLists(Next(c, w, e), w)
  {
    var n := Next(c, w, e);
    var staged := Stage(c, Detect(c, w), e.auto, e.at).0;
    assert n == c || n == c.(lastCheck := e.at) || n == staged;
    if n == staged { CheckingMakesFresh(c, w, e.auto, e.at); } else { ClockKeepsFresh(c, w, e.at); }
  }

  lemma NextKeepsFresh(c: Config, w: World, e: Event)
    requires FreshLists(c, w) && Ordinary(w)
    ensures FreshLists(Next(c, w, e), w)
  {
    if e.Checking? {
      CheckingKeepsFresh(c, w, e);
    } else if e.stored {
      ApplyingKeepsFresh(c, w, e.q, e.at);
    }
  }

  /** Over every run the staged lists are exactly what a detection would find: what the administrator
      is shown is never stale while the upstream stays the same. */
  lemma {:induction false} StaysFresh(c: Config, w: World, events: seq<Event>)
    requires FreshLists(c, w) && Ordinary(w)
    ensures FreshLists(Exec(c, w, events), w)
  {
    if events != [] {
      StaysFresh(c, w, events[..|events| - 1]);
      NextKeepsFresh(Exec(c, w, events[..|events| - 1]), w, events[|events| - 1]);
    }
  }

  // ------------------------------------------------- any names whatsoever

  /** The event is a round that gets as far as staging. */
  predicate Stages(c: Config, e: Event) {
    && e.Checking? && !e.write.Rejected? && e.fetched
    && (e.force || c.lastCheck <= 0 || e.at - c.lastCheck >= e.minInterval)
  }

  /** What an event must not do: adopt a name with a comma, or apply a selection that detecting again does
      not confirm. */
  ghost predicate Confirmed(c: Config, w: World, e: Event) {
    && (Stages(c, e) && e.auto ==> CommaFree(Detect(c, w).add))
    && (e.Applying? && e.stored ==> PiecesWelcome(c, w, e.q) && OpenAgree(c, w, e.q))
  }

  lemma NextFreshIff(c: Config, w: World, e: Event)
    requires FreshLists(c, w)
    ensures FreshLists(Next(c, w, e), w) <==> Confirmed(c, w, e)
  {
    if Stages(c, e) {
      StagingNext(c, w, e);
      StageFreshIff(c, w, e.auto, e.at);
    } else if e.Applying? {
      if e.stored { AppliedFreshIff(c, w, e.q, e.at); }
    } else {
      Untouched(c, w, e);
    }
  }

  lemma StagingNext(c: Config, w: World, e: Event)
    requires Stages(c, e)
    ensures Next(c, w, e) == Stage(c, Detect(c, w), e.auto, e.at).0
  {
  }

  lemma AppliedFreshIff(c: Config, w: World, q: Request, at: int)
    requires FreshLists(c, w)
    ensures FreshLists(After(c, q, at), w) <==> PiecesWelcome(c, w, q) && OpenAgree(c, w, q)
  {
    RedetectsIff(c, w, q, at);
    AfterIsReported(c, q, at);
  }

  lemma AfterIsReported(c: Config, q: Request, at: int)
    ensures After(c, q, at).detected == Reported(c, q, at).remainingAdd
    ensures After(c, q, at).removed == Reported(c, q, at).remainingRemove
  {
  }

  lemma Untouched(c: Config, w: World, e: Event)
    requires FreshLists(c, w) && !Stages(c, e) && e.Checking?
    ensures FreshLists(Next(c, w, e), w)
  {
    var n := Next(c, w, e);
    assert n == c || n == c.(lastCheck := e.at);
    if n != c { ClockKeepsFresh(c, w, e.at); }
  }

  /** The lists are fresh after every event of a run. */
  ghost predicate AlwaysFresh(c: Config, w: World, events: seq<Event>) {
    FreshLists(Exec(c, w, events), w) && (events == [] || AlwaysFresh(c, w, events[..|events| - 1]))
  }

  /** Every event of a run is confirmed by the channel it meets. */
  ghost predicate AllConfirmed(c: Config, w: World, events: seq<Event>) {
    events != [] ==>
      var before := events[..|events| - 1];
      AllConfirmed(c, w, before) && Confirmed(Exec(c, w, before), w, events[|events| - 1])
  }

  /** The lists are fresh throughout a run if and only if every event of it is confirmed. */
  lemma {:induction false} StaysFreshIff(c: Config, w: World, events: seq<Event>)
    requires FreshLists(c, w)
    ensures AlwaysFresh(c, w, events) <==> AllConfirmed(c, w, events)
  {
    if events != [] {
      var before, last := events[..|events| - 1], events[|events| - 1];
      StaysFreshIff(c, w, before);
      FreshStep(c, w, before, last, events);
    }
  }

  lemma FreshStep(c: Config, w: World, before: seq<Event>, last: Event, events: seq<Event>)
    requires events != [] && before == events[..|events| - 1] && last == events[|events| - 1]
    ensures AlwaysFresh(c, w, before) ==>
      (FreshLists(Exec(c, w, events), w) <==> Confirmed(Exec(c, w, before), w, last))
  {
    if AlwaysFresh(c, w, before) { NextFreshIff(Exec(c, w, before), w, last); }
  }

  /** From any stored channel, one forced round that can be stored is enough to reach that. */
  lemma ForcedRoundRefreshes(c: Config, w: World, minInterval: int, auto: bool, at: int, write: Write)
    requires Ordinary(w) && !write.Rejected?
    ensures FreshLists(Next(c, w, Checking(true, true, minInterval, auto, at, write)), w)
  {
    CheckingMakesFresh(c, w, auto, at);
  }
}
