/** Detecting which models an upstream offers that a channel lacks, and applying what an
    administrator selects from the staged differences. */
module UpstreamModels {
  import opened Wrappers
  import opened Text
  import opened NameLists

  // ---------------------------------------------------------------- list algebra

  function Merge(base: seq<string>, appended: seq<string>): seq<string> {
    Normalize(base) + Drop(Normalize(appended), Elems(Normalize(base)))
  }

  function Subtract(base: seq<string>, removed: seq<string>): seq<string> {
    Drop(Normalize(base), Elems(Normalize(removed)))
  }

  function Intersect(base: seq<string>, allowed: seq<string>): seq<string> {
    Keep(Normalize(base), Elems(Normalize(allowed)))
  }

  lemma MergeStep(extra: seq<string>, i: nat, base: set<string>)
    requires Distinct(extra) && i < |extra|
    ensures Drop(extra[..i + 1], base) == Drop(extra[..i], base) + (if extra[i] in base then [] else [extra[i]])
    ensures Elems(extra[..i + 1]) == Elems(extra[..i]) + {extra[i]}
    ensures extra[i] !in Elems(extra[..i])
  {
    assert extra[..i + 1][..i] == extra[..i] && extra[..i + 1] == extra[..i] + [extra[i]];
  }

  /** The appending loop, on lists that are normal already. */
  method AppendNew(base: seq<string>, extra: seq<string>) returns (merged: seq<string>)
    requires Distinct(extra)
    ensures merged == base + Drop(extra, Elems(base))
  {
    merged := base;
    var seen := Elems(base);
    for i := 0 to |extra|
      invariant merged == base + Drop(extra[..i], Elems(base))
      invariant seen == Elems(base) + Elems(extra[..i])
    {
      MergeStep(extra, i, Elems(base));
      if extra[i] !in seen {
        seen := seen + {extra[i]};
        merged := merged + [extra[i]];
      }
    }
    assert extra[..|extra|] == extra;
  }

  /** mergeModelNames */
  method MergeModelNames(base: seq<string>, appended: seq<string>) returns (merged: seq<string>)
    ensures merged == Merge(base, appended)
  {
    NormalizeIsNormal(appended);
    merged := AppendNew(Normalize(base), Normalize(appended));
  }

  function ApplySelected(origin: seq<string>, add: seq<string>, remove: seq<string>): seq<string> {
    var normalizedAdd := Normalize(add);
    var normalizedRemove := Subtract(Normalize(remove), normalizedAdd);
    Subtract(Merge(origin, normalizedAdd), normalizedRemove)
  }

  // -------------------------------------------------------------------- detection

  /** Whether a pattern compiles and matches a name. */
  type Matcher = (string, string) -> bool

  const REGEX := "regex:"

  predicate IgnoredBy(entry: string, name: string, matches: Matcher) {
    if HasPrefix(entry, REGEX) then matches(TrimSpace(entry[|REGEX|..]), name) else entry == name
  }

  predicate Ignored(name: string, ignored: seq<string>, matches: Matcher) {
    exists e :: e in ignored && IgnoredBy(e, name, matches)
  }

  function IgnoredAmong(names: seq<string>, ignored: seq<string>, matches: Matcher): set<string> {
    set u | u in names && Ignored(u, ignored, matches)
  }

  datatype Pending = Pending(add: seq<string>, remove: seq<string>)

  /** Upstream names that the channel does not cover and nobody ignored, and local names that are
      neither upstream nor the source of a redirect. */
  function Collect(local: seq<string>, upstream: seq<string>, ignored: seq<string>,
                   mapping: map<string, string>, matches: Matcher): Pending
  {
    var l, u := Normalize(local), Normalize(upstream);
    Pending(
      Normalize(Drop(u, Elems(l) + mapping.Values + IgnoredAmong(u, Normalize(ignored), matches))),
      Normalize(Drop(l, mapping.Keys + Elems(u))))
  }

  /** Detection on lists that are normal already. */
  function CollectNormal(l: seq<string>, u: seq<string>, ignored: seq<string>,
                         mapping: map<string, string>, matches: Matcher): Pending
  {
    Pending(Drop(u, Elems(l) + mapping.Values + IgnoredAmong(u, ignored, matches)), Drop(l, mapping.Keys + Elems(u)))
  }

  lemma CollectIsNormal(local: seq<string>, upstream: seq<string>, ignored: seq<string>,
                        mapping: map<string, string>, matches: Matcher)
    ensures Collect(local, upstream, ignored, mapping, matches)
              == CollectNormal(Normalize(local), Normalize(upstream), Normalize(ignored), mapping, matches)
    ensures IsNormal(Collect(local, upstream, ignored, mapping, matches).add)
    ensures IsNormal(Collect(local, upstream, ignored, mapping, matches).remove)
  {
    var l, u := Normalize(local), Normalize(upstream);
    var out := Elems(l) + mapping.Values + IgnoredAmong(u, Normalize(ignored), matches);
    NormalizeIsNormal(local);
    NormalizeIsNormal(upstream);
    DropNormal(u, out);
    NormalizeNormal(Drop(u, out));
    DropNormal(l, mapping.Keys + Elems(u));
    NormalizeNormal(Drop(l, mapping.Keys + Elems(u)));
  }

  // ----------------------------------------------------------------- the channel

  /** Channel.GetModels */
  function GetModels(models: string): seq<string> {
    if models == "" then [] else Split(Trim(models, Only(',')), ',')
  }

  /** The stored model list of a channel and its update settings. */
  datatype Config = Config(
    models: string, detected: seq<string>, removed: seq<string>, ignored: seq<string>, lastCheck: int)

  datatype Applied = Applied(
    added: seq<string>, removed: seq<string>, remainingAdd: seq<string>, remainingRemove: seq<string>, changed: bool)

  /** What a selection means against the staged lists. */
  function Selection(c: Config, addIn: seq<string>, ignoreIn: seq<string>, removeIn: seq<string>)
    : (seq<string>, seq<string>, seq<string>)
  {
    var pendingAdd, pendingRemove := Normalize(c.detected), Normalize(c.removed);
    var add := Intersect(addIn, pendingAdd);
    (add, Intersect(ignoreIn, pendingAdd), Subtract(Intersect(removeIn, pendingRemove), add))
  }

  function Apply(c: Config, addIn: seq<string>, ignoreIn: seq<string>, removeIn: seq<string>, now: int): (Config, Applied) {
    var pendingAdd, pendingRemove := Normalize(c.detected), Normalize(c.removed);
    var (add, ignore, remove) := Selection(c, addIn, ignoreIn, removeIn);
    var origin := Normalize(GetModels(c.models));
    var next := ApplySelected(origin, add, remove);
    var merged := Merge(c.ignored, ignore);
    var ignored := if |add| > 0 then Subtract(merged, add) else merged;
    var remainingAdd := Subtract(pendingAdd, add + ignore);
    var remainingRemove := Subtract(pendingRemove, remove);
    (Config(if origin != next then Join(next, ',') else c.models, remainingAdd, remainingRemove, ignored, now),
     Applied(add, remove, remainingAdd, remainingRemove, origin != next))
  }

  /** What became of the write that ends a detection round. */
  datatype Write = Written | Rejected | AbilitiesFailed

  const NOTHING := Applied([], [], [], [], false)

  function Answered(applied: Applied, write: Write): (Applied, bool) {
    if write.Rejected? then (NOTHING, true) else (applied, applied.changed && write.AbilitiesFailed?)
  }

  datatype Checked = Checked(changed: bool, autoAdded: nat, err: bool)

  /** Automatic adoption: the new stored list and how many names it gained. */
  function Adopted(models: string, add: seq<string>): (string, nat) {
    var origin := Normalize(GetModels(models));
    var merged := Merge(origin, add);
    if |merged| > |origin| then (Join(merged, ','), |merged| - |origin|) else (models, 0)
  }

  function Outcome(autoAdded: nat, write: Write): Checked {
    if write.Rejected? then Checked(false, autoAdded, true)
    else Checked(autoAdded > 0, autoAdded, write.AbilitiesFailed? && autoAdded > 0)
  }

  /** The round after a successful fetch found the differences `p`. */
  function Stage(c: Config, p: Pending, auto: bool, now: int): (Config, nat) {
    if auto && |p.add| > 0 then
      var (models, autoAdded) := Adopted(c.models, p.add);
      (Config(models, [], p.remove, c.ignored, now), autoAdded)
    else (Config(c.models, p.add, p.remove, c.ignored, now), 0)
  }

  /** One detection round. `upstream` is None when the fetch fails. */
  function Check(c: Config, upstream: Option<seq<string>>, mapping: map<string, string>, matches: Matcher,
                 force: bool, minInterval: int, auto: bool, now: int, write: Write): (Config, Checked)
  {
    if !force && c.lastCheck > 0 && now - c.lastCheck < minInterval then (c, Checked(false, 0, false))
    else if upstream.None? then (c.(lastCheck := now), Checked(false, 0, true))
    else
      var p := Collect(GetModels(c.models), upstream.value, c.ignored, mapping, matches);
      var (next, autoAdded) := Stage(c, p, auto, now);
      (next, Outcome(autoAdded, write))
  }

  class Channel {
    var models: string
    var detected: seq<string>
    var removed: seq<string>
    var ignored: seq<string>
    var lastCheck: int
    const autoSync: bool
    const mapping: map<string, string>

    function Current(): Config
      reads this
    {
      Config(models, detected, removed, ignored, lastCheck)
    }

    /** The body of applyChannelUpstreamModelUpdates up to the write. */
    method AssignSelection(addIn: seq<string>, ignoreIn: seq<string>, removeIn: seq<string>, now: int)
      returns (result: Applied)
      modifies this
      ensures (Current(), result) == Apply(old(Current()), addIn, ignoreIn, removeIn, now)
    {
      var pendingAdd := Normalize(detected);
      var pendingRemove := Normalize(removed);
      var add := Intersect(addIn, pendingAdd);
      var ignore := Intersect(ignoreIn, pendingAdd);
      var remove := Intersect(removeIn, pendingRemove);
      remove := Subtract(remove, add);
      var origin := Normalize(GetModels(models));
      var next := ApplySelected(origin, add, remove);
      var changed := origin != next;
      if changed { models := Join(next, ','); }
      ignored := MergeModelNames(ignored, ignore);
      if |add| > 0 { ignored := Subtract(ignored, add); }
      var remainingAdd := Subtract(pendingAdd, add + ignore);
      var remainingRemove := Subtract(pendingRemove, remove);
      detected, removed, lastCheck := remainingAdd, remainingRemove, now;
      result := Applied(add, remove, remainingAdd, remainingRemove, changed);
    }

    /** applyChannelUpstreamModelUpdates. A rejected write reports nothing, although the loaded channel
        has changed; a failed ability update reports everything together with the error. */
    method ApplyUpdates(addIn: seq<string>, ignoreIn: seq<string>, removeIn: seq<string>, now: int, write: Write)
      returns (result: Applied, err: bool)
      modifies this
      ensures Current() == Apply(old(Current()), addIn, ignoreIn, removeIn, now).0
      ensures (result, err) == Answered(Apply(old(Current()), addIn, ignoreIn, removeIn, now).1, write)
    {
      result := AssignSelection(addIn, ignoreIn, removeIn, now);
      if write.Rejected? { return NOTHING, true; }
      err := result.changed && write.AbilitiesFailed?;
    }

    method Adopt(add: seq<string>) returns (autoAdded: nat)
      modifies this`models
      ensures (models, autoAdded) == Adopted(old(models), add)
    {
      autoAdded := 0;
      var origin := Normalize(GetModels(models));
      var merged := MergeModelNames(origin, add);
      if |merged| > |origin| {
        models := Join(merged, ',');
        autoAdded := |merged| - |origin|;
      }
    }

    method StageDifferences(p: Pending, auto: bool, now: int) returns (autoAdded: nat)
      modifies this
      ensures (Current(), autoAdded) == Stage(old(Current()), p, auto, now)
    {
      lastCheck := now;
      autoAdded := 0;
      if auto && |p.add| > 0 {
        autoAdded := Adopt(p.add);
        detected := [];
      } else {
        detected := p.add;
      }
      removed := p.remove;
    }

    /** checkAndPersistChannelUpstreamModelUpdates */
    method CheckUpdates(upstream: Option<seq<string>>, matches: Matcher, force: bool, minInterval: int,
                        allowAutoApply: bool, now: int, write: Write)
      returns (result: Checked)
      modifies this
      ensures (Current(), result)
                == Check(old(Current()), upstream, mapping, matches, force, minInterval, allowAutoApply && autoSync, now, write)
    {
      if !force {
        if lastCheck > 0 && now - lastCheck < minInterval { return Checked(false, 0, false); }
      }
      if upstream.None? {
        lastCheck := now;
        return Checked(false, 0, true);
      }
      var p := Collect(GetModels(models), upstream.value, ignored, mapping, matches);
      var autoAdded := StageDifferences(p, allowAutoApply && autoSync, now);
      result := Outcome(autoAdded, write);
    }
  }
}
