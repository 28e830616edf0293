/** The scheduled detection over all enabled channels: a keyset-paginated scan and its summary. */
module UpstreamScan {
  import opened Wrappers
  import opened NameLists
  import opened UpstreamModels
  import opened UpstreamProof

  const BATCH := 100

  datatype Row = Row(
    id: int, enabled: bool, checkEnabled: bool, autoSync: bool, mapping: map<string, string>, config: Config)

  /** What the scan meets outside the table, per channel id: the fetched list, the fate of the write
      and the clock. */
  datatype Env = Env(
    upstream: int -> Option<seq<string>>, write: int -> Write, now: int -> int, matches: Matcher, minInterval: int)

  datatype Mode = Mode(force: bool, allowAutoApply: bool)

  datatype Summary = Summary(
    checked: nat, changed: nat, detectedAdd: nat, detectedRemove: nat, failed: nat, autoAdded: nat)

  const EMPTY := Summary(0, 0, 0, 0, 0, 0)

  // ------------------------------------------------------------------- the query

  ghost predicate Ascending(rows: seq<Row>) { forall i, j :: 0 <= i < j < |rows| ==> rows[i].id < rows[j].id }

  predicate Wanted(r: Row, lastID: int) { r.enabled && (lastID > 0 ==> r.id > lastID) }

  /** A correct answer to "enabled channels after lastID, by id, at most BATCH". */
  ghost predicate Answers(batch: seq<Row>, table: set<Row>, lastID: int) {
    && Ascending(batch)
    && |batch| <= BATCH
    && (forall i :: 0 <= i < |batch| ==> batch[i] in table && Wanted(batch[i], lastID))
    && (forall r :: r in table && Wanted(r, lastID) && r !in batch ==>
         |batch| == BATCH && forall i :: 0 <= i < |batch| ==> batch[i].id < r.id)
  }

  /** Ids are positive and identify rows. */
  ghost predicate ValidTable(table: set<Row>) {
    && (forall r :: r in table ==> r.id > 0)
    && (forall r, t :: r in table && t in table && r.id == t.id ==> r == t)
  }

  // ----------------------------------------------------------------- one channel

  function CheckRow(r: Row, e: Env, m: Mode): (Config, Checked) {
    Check(r.config, e.upstream(r.id), r.mapping, e.matches, m.force, e.minInterval,
      m.allowAutoApply && r.autoSync, e.now(r.id), e.write(r.id))
  }

  /** The summary after one check, in terms of how many names it left and what it reported. */
  function Record(s: Summary, staged: nat, removed: nat, result: Checked): Summary {
    if result.err then s.(checked := s.checked + 1, failed := s.failed + 1)
    else
      var add := staged + result.autoAdded;
      Summary(s.checked + 1, s.changed + (if add > 0 || removed > 0 then 1 else 0), s.detectedAdd + add,
        s.detectedRemove + removed, s.failed, s.autoAdded + result.autoAdded)
  }

  function Visit(s: Summary, r: Row, e: Env, m: Mode): Summary {
    if !r.checkEnabled then s
    else
      var (c, result) := CheckRow(r, e, m);
      Record(s, |Normalize(c.detected)|, |Normalize(c.removed)|, result)
  }

  function Tally(s: Summary, rows: seq<Row>, e: Env, m: Mode): Summary {
    if rows == [] then s else Visit(Tally(s, rows[..|rows| - 1], e, m), rows[|rows| - 1], e, m)
  }

  lemma {:induction false} TallyConcat(s: Summary, a: seq<Row>, b: seq<Row>, e: Env, m: Mode)
    ensures Tally(s, a + b, e, m) == Tally(Tally(s, a, e, m), b, e, m)
  {
    if b == [] {
      assert a + b == a;
    } else {
      var n := |b| - 1;
      assert (a + b)[..|a| + n] == a + b[..n];
      TallyConcat(s, a, b[..n], e, m);
    }
  }

  method RecordCheck(s: Summary, staged: nat, removed: nat, result: Checked) returns (t: Summary)
    ensures t == Record(s, staged, removed, result)
  {
    t := s.(checked := s.checked + 1);
    if result.err {
      t := t.(failed := t.failed + 1);
      return;
    }
    var add := staged + result.autoAdded;
    t := t.(detectedAdd := t.detectedAdd + add, detectedRemove := t.detectedRemove + removed);
    if add > 0 || removed > 0 { t := t.(changed := t.changed + 1); }
    t := t.(autoAdded := t.autoAdded + result.autoAdded);
  }

  /** One turn of the loop over a batch. */
  method VisitRow(s: Summary, r: Row, e: Env, m: Mode) returns (t: Summary)
    ensures t == Visit(s, r, e, m)
  {
    if !r.checkEnabled { return s; }
    var (c, result) := CheckRow(r, e, m);
    t := RecordCheck(s, |Normalize(c.detected)|, |Normalize(c.removed)|, result);
  }

  method VisitBatch(s: Summary, batch: seq<Row>, e: Env, m: Mode) returns (t: Summary)
    ensures t == Tally(s, batch, e, m)
  {
    t := s;
    for i := 0 to |batch|
      invariant t == Tally(s, batch[..i], e, m)
    {
      assert batch[..i + 1][..i] == batch[..i];
      t := VisitRow(t, batch[i], e, m);
    }
    assert batch[..|batch|] == batch;
  }

  // -------------------------------------------------------------------- the scan

  /** The rows seen so far are the enabled ones up to the last id, in order. */
  ghost predicate Seen(visited: seq<Row>, table: set<Row>, lastID: int) {
    && Ascending(visited)
    && (forall r :: r in visited <==> r in table && r.enabled && r.id <= lastID)
  }

  lemma BatchSeen(visited: seq<Row>, batch: seq<Row>, table: set<Row>, lastID: int)
    requires ValidTable(table) && lastID >= 0 && Seen(visited, table, lastID)
    requires Answers(batch, table, lastID) && batch != []
    ensures Seen(visited + batch, table, batch[|batch| - 1].id)
    ensures batch[|batch| - 1].id > lastID
  {
    var last := batch[|batch| - 1];
    forall i | 0 <= i < |batch| ensures lastID < batch[i].id <= last.id {
      assert batch[i] in table;
    }
    forall i, j | 0 <= i < j < |visited + batch| ensures (visited + batch)[i].id < (visited + batch)[j].id {
      if i < |visited| <= j { assert visited[i] in visited; }
    }
    forall r | r in table && r.enabled && r.id <= last.id ensures r in visited + batch {
      if r.id > lastID { assert Wanted(r, lastID); }
    }
  }

  /** A short batch is the last one. */
  lemma ShortBatchIsLast(visited: seq<Row>, batch: seq<Row>, table: set<Row>, lastID: int)
    requires ValidTable(table) && lastID >= 0 && Seen(visited, table, lastID)
    requires Answers(batch, table, lastID) && |batch| < BATCH
    ensures forall r :: r in table && r.enabled ==> r in visited + batch
  {
    forall r | r in table && r.enabled ensures r in visited + batch {
      if r.id > lastID { assert Wanted(r, lastID); }
    }
  }

  /** runChannelUpstreamModelUpdateTaskOnce, uncancelled. The scan ends for every table; it visits
      each enabled channel exactly once, in id order; and the summary is the tally of those visits. */
  method ScanOnce(ghost table: set<Row>, query: int -> seq<Row>, e: Env, m: Mode)
    returns (visited: seq<Row>, summary: Summary)
    requires ValidTable(table)
    requires forall lastID :: Answers(query(lastID), table, lastID)
    ensures Ascending(visited)
    ensures forall r :: r in visited <==> r in table && r.enabled
    ensures summary == Tally(EMPTY, visited, e, m)
  {
    visited, summary := [], EMPTY;
    var lastID := 0;
    ghost var open := table;
    while true
      invariant lastID >= 0 && Seen(visited, table, lastID)
      invariant open == set r | r in table && r.id > lastID
      invariant summary == Tally(EMPTY, visited, e, m)
      decreases open
    {
      var batch := query(lastID);
      if |batch| == 0 {
        ShortBatchIsLast(visited, batch, table, lastID);
        break;
      }
      BatchSeen(visited, batch, table, lastID);
      if |batch| < BATCH { ShortBatchIsLast(visited, batch, table, lastID); }
      assert batch[0] in open;
      lastID := batch[|batch| - 1].id;
      summary := VisitBatch(summary, batch, e, m);
      TallyConcat(EMPTY, visited, batch, e, m);
      visited := visited + batch;
      open := set r | r in table && r.id > lastID;
      if |batch| < BATCH { break; }
    }
  }

  // ------------------------------------------------------------------ the summary

  function Sum(rows: seq<Row>, f: Row -> nat): nat {
    if rows == [] then 0 else Sum(rows[..|rows| - 1], f) + f(rows[|rows| - 1])
  }

  function Count(rows: seq<Row>, p: Row -> bool): nat { Sum(rows, r => if p(r) then 1 else 0) }

  /** What a successful check finds to add, adopted names included. */
  function Added(r: Row, e: Env, m: Mode): nat {
    if Succeeds(r, e, m) then |Normalize(CheckRow(r, e, m).0.detected)| + CheckRow(r, e, m).1.autoAdded else 0
  }

  function RemovedBy(r: Row, e: Env, m: Mode): nat {
    if Succeeds(r, e, m) then |Normalize(CheckRow(r, e, m).0.removed)| else 0
  }

  /** Every figure of the summary as a count or a sum over the visited channels. */
  lemma {:induction false} SummaryCounts(rows: seq<Row>, e: Env, m: Mode)
    ensures
      var s := Tally(EMPTY, rows, e, m);
      && s.checked == Count(rows, (r: Row) => r.checkEnabled)
      && s.failed == Count(rows, (r: Row) => r.checkEnabled && CheckRow(r, e, m).1.err)
      && s.changed == Count(rows, r => Added(r, e, m) > 0 || RemovedBy(r, e, m) > 0)
      && s.detectedAdd == Sum(rows, r => Added(r, e, m))
      && s.detectedRemove == Sum(rows, r => RemovedBy(r, e, m))
      && s.autoAdded == Sum(rows, r => if Succeeds(r, e, m) then CheckRow(r, e, m).1.autoAdded else 0)
  {
    if rows != [] { SummaryCounts(rows[..|rows| - 1], e, m); }
  }

  /** A channel that does not allow it is never adopted into, nor is any when the run does not. */
  lemma AdoptsOnlyWhereAllowed(r: Row, e: Env, m: Mode)
    requires !r.autoSync || !m.allowAutoApply
    ensures CheckRow(r, e, m).0.models == r.config.models && CheckRow(r, e, m).1.autoAdded == 0
  {
  }

  /** In a forced run the totals are those of the differences each checked channel has. */
  lemma ForcedFigures(r: Row, e: Env, m: Mode)
    requires m.force && Succeeds(r, e, m)
    ensures Added(r, e, m) == |PendingOf(r, e).add| && RemovedBy(r, e, m) == |PendingOf(r, e).remove|
  {
    match e.upstream(r.id)
    case None => assert false;
    case Some(u) =>
      CheckConserves(r.config, World(u, r.mapping, e.matches), e.minInterval, m.allowAutoApply && r.autoSync,
        e.now(r.id), e.write(r.id));
  }

  // -------------------------------------------------------------- conservation

  /** The channels whose check ran and reported no error. */
  predicate Succeeds(r: Row, e: Env, m: Mode) {
    r.checkEnabled && !CheckRow(r, e, m).1.err
  }

  function PendingOf(r: Row, e: Env): Pending {
    match e.upstream(r.id)
    case None => Pending([], [])
    case Some(u) => Detect(r.config, World(u, r.mapping, e.matches))
  }

  function PendingAdds(rows: seq<Row>, e: Env, m: Mode): nat {
    if rows == [] then 0
    else
      var r := rows[|rows| - 1];
      PendingAdds(rows[..|rows| - 1], e, m) + if Succeeds(r, e, m) then |PendingOf(r, e).add| else 0
  }

  /** In a forced run every pending addition of a successfully checked channel is counted once,
      whether it was adopted or staged. */
  lemma {:induction false} ForcedTotal(rows: seq<Row>, e: Env, m: Mode)
    requires m.force
    ensures Tally(EMPTY, rows, e, m).detectedAdd == PendingAdds(rows, e, m)
  {
    if rows != [] {
      var r := rows[|rows| - 1];
      ForcedTotal(rows[..|rows| - 1], e, m);
      match e.upstream(r.id)
      case None =>
      case Some(u) =>
        CheckConserves(r.config, World(u, r.mapping, e.matches), e.minInterval, m.allowAutoApply && r.autoSync,
          e.now(r.id), e.write(r.id));
    }
  }

  /** Reviewing instead of adopting changes nothing in the detected total, as long as no write fails. */
  lemma {:induction false} AdoptionDoesNotChangeTotal(rows: seq<Row>, e: Env)
    requires forall id :: e.write(id) == Written
    ensures Tally(EMPTY, rows, e, Mode(true, true)).detectedAdd == Tally(EMPTY, rows, e, Mode(true, false)).detectedAdd
  {
    ForcedTotal(rows, e, Mode(true, true));
    ForcedTotal(rows, e, Mode(true, false));
    SameSuccesses(rows, e);
  }

  lemma {:induction false} SameSuccesses(rows: seq<Row>, e: Env)
    requires forall id :: e.write(id) == Written
    ensures PendingAdds(rows, e, Mode(true, true)) == PendingAdds(rows, e, Mode(true, false))
  {
    if rows != [] {
      var r := rows[|rows| - 1];
      SameSuccesses(rows[..|rows| - 1], e);
      assert e.write(r.id) == Written;
    }
  }
}
