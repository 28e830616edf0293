/** What the two storages share, that a body can be read again and again, and that the usage counters
    account for every open storage over any run. */
module BodyProof {
  import opened Wrappers
  import opened BodyStorage
  import opened ReusableBody

  // ------------------------------------------------------------- one specification

  /** The two storages answer every read alike, except an empty read at the end of an open one. */
  lemma ReadsAgree(s: State, n: nat)
    ensures DiskReadSpec(s, n) == ReadSpec(s, n) <==> !(n == 0 && !s.closed && s.pos >= |s.contents|)
  {
    if n == 0 && !s.closed && s.pos < |s.contents| { assert s.contents[s.pos..s.pos] == []; }
  }

  datatype Use = UseRead(n: nat) | UseSeek(delta: int, whence: Whence)

  function Used(s: State, u: Use, disk: bool): State {
    match u
    case UseRead(n) => if disk then DiskReadSpec(s, n).0 else ReadSpec(s, n).0
    case UseSeek(delta, whence) => SeekSpec(s, delta, whence).0
  }

  /** Any series of reads and seeks by earlier consumers. */
  function AfterUses(s: State, uses: seq<Use>, disk: bool): State {
    if uses == [] then s else Used(AfterUses(s, uses[..|uses| - 1], disk), uses[|uses| - 1], disk)
  }

  lemma {:induction false} UsesKeepContents(s: State, uses: seq<Use>, disk: bool)
    ensures AfterUses(s, uses, disk).contents == s.contents && AfterUses(s, uses, disk).closed == s.closed
  {
    if uses != [] { UsesKeepContents(s, uses[..|uses| - 1], disk); }
  }

  /** Both storages go through the same states, whatever is done to them. */
  lemma {:induction false} SameStates(s: State, uses: seq<Use>)
    ensures AfterUses(s, uses, true) == AfterUses(s, uses, false)
  {
    if uses != [] {
      SameStates(s, uses[..|uses| - 1]);
      var t := AfterUses(s, uses[..|uses| - 1], false);
      match uses[|uses| - 1]
      case UseRead(n) => if n == 0 { EmptyReadStays(t); }
      case UseSeek(_, _) =>
    }
  }

  lemma EmptyReadStays(s: State)
    ensures ReadSpec(s, 0).0 == s
  {
  }

  /** Reading to the end in pieces; the size of each piece may depend on where it starts. */
  function Drain(s: State, size: nat -> nat, disk: bool): Bytes
    requires !s.closed && forall p :: size(p) > 0
    decreases |s.contents| - s.pos
  {
    if s.pos >= |s.contents| then []
    else
      var (t, out) := if disk then DiskReadSpec(s, size(s.pos)) else ReadSpec(s, size(s.pos));
      out.bytes + Drain(t, size, disk)
  }

  lemma {:induction false} DrainsRest(s: State, size: nat -> nat, disk: bool)
    requires !s.closed && forall p :: size(p) > 0
    ensures Drain(s, size, disk) == if s.pos >= |s.contents| then [] else s.contents[s.pos..]
    decreases |s.contents| - s.pos
  {
    if s.pos < |s.contents| {
      var n := Available(s, size(s.pos));
      var t := s.(pos := s.pos + n);
      assert Drain(s, size, disk) == s.contents[s.pos..t.pos] + Drain(t, size, disk);
      DrainsRest(t, size, disk);
      SplitRest(s.contents, s.pos, t.pos);
    }
  }

  lemma SplitRest(b: Bytes, i: nat, j: nat)
    requires i <= j <= |b|
    ensures b[i..] == b[i..j] + if j >= |b| then [] else b[j..]
  {
  }

  /** Whatever earlier consumers read and wherever they left the position, rewinding as the next
      GetRequestBody does yields the whole body again, in any piece sizes, from either storage. */
  lemma ReadAgain(contents: Bytes, uses: seq<Use>, size: nat -> nat, disk: bool)
    requires forall p :: size(p) > 0
    ensures
      var rewound := SeekSpec(AfterUses(State(contents, 0, false), uses, disk), 0, Start).0;
      rewound == State(contents, 0, false) && Drain(rewound, size, disk) == contents
  {
    UsesKeepContents(State(contents, 0, false), uses, disk);
    DrainsRest(State(contents, 0, false), size, disk);
  }

  // ---------------------------------------------------------------- seeking, closing

  /** Positions count from the start, from where one is, or from the end; a position before the start is
      refused and changes nothing. */
  lemma SeekMeaning(s: State, a: nat, delta: int, size: nat -> nat, disk: bool)
    requires !s.closed && forall p :: size(p) > 0
    ensures SeekSpec(s, a, Start) == (s.(pos := a), At(a))
    ensures SeekSpec(SeekSpec(s, a, Start).0, delta, FromCurrent)
         == if a + delta >= 0 then SeekSpec(s, a + delta, Start) else (s.(pos := a), SeekFailed)
    ensures a <= |s.contents| ==> Drain(SeekSpec(s, 0 - (a as int), End).0, size, disk) == s.contents[|s.contents| - a..]
    ensures SeekSpec(s, |s.contents|, Start) == SeekSpec(s, 0, End)
    ensures delta < 0 ==> SeekSpec(s, delta, Start) == (s, SeekFailed)
    ensures SeekSpec(s, delta, Invalid) == (s, SeekFailed)
  {
    if a <= |s.contents| { DrainsRest(s.(pos := |s.contents| - a), size, disk); }
  }

  /** A closed storage answers nothing, for good. */
  lemma {:induction false} ClosedForGood(s: State, uses: seq<Use>, disk: bool, n: nat, delta: int, whence: Whence)
    requires s.closed
    ensures AfterUses(s, uses, disk) == s
    ensures ReadSpec(s, n) == (s, StorageClosed) && DiskReadSpec(s, n) == (s, StorageClosed)
    ensures SeekSpec(s, delta, whence) == (s, SeekClosed)
  {
    if uses != [] { ClosedForGood(s, uses[..|uses| - 1], disk, n, delta, whence); }
  }

  // ------------------------------------------------------------------ the size limit

  /** The limit in bytes: the setting in units of 2^20, or 128 of them. */
  lemma LimitInBytes(maxMB: int)
    ensures maxMB > 0 ==> MaxBytes(maxMB) == maxMB * 1048576
    ensures maxMB <= 0 ==> MaxBytes(maxMB) == 134217728
  {
  }

  /** Where a body goes, by the configuration: in memory when the disk cache is off, when the body is below
      the threshold or when it does not fit; on disk otherwise. A reader is judged by the declared length
      first, which must be positive, and by the real length if that does not send it to disk. */
  lemma GoesToDiskIff(cfg: Config, c: Counters, size: nat, declared: int)
    ensures WantsDisk(cfg, c, size) <==>
      cfg.enabled && cfg.thresholdMB * 1048576 <= size <= cfg.maxSizeMB * 1048576 - c.diskBytes
    ensures ChoosesDisk(cfg, c, size, declared, true) <==>
      && cfg.enabled
      && (|| (declared > 0 && cfg.thresholdMB * 1048576 <= declared <= cfg.maxSizeMB * 1048576 - c.diskBytes)
          || cfg.thresholdMB * 1048576 <= size <= cfg.maxSizeMB * 1048576 - c.diskBytes)
  {
  }

  /** Without I/O errors a body is accepted exactly when it fits, whatever length was declared and
      wherever it is stored. */
  lemma AcceptedIffFits(cfg: Config, c: Counters, bytes: Bytes, declared: int, maxMB: int)
    ensures Refusal(cfg, c, Wire(bytes, false), declared, MaxBytes(maxMB), true)
      == if |bytes| <= MaxBytes(maxMB) then None else Some(TooLarge)
  {
  }

  /** With I/O errors: accepted exactly when it fits, arrives in full and does not need a disk that fails;
      too large exactly when more arrives than fits, whatever happens behind. */
  lemma RefusedExactly(cfg: Config, c: Counters, wire: Wire, declared: int, maxBytes: nat, works: bool)
    ensures
      var r, needsDisk := Refusal(cfg, c, wire, declared, maxBytes, works), StreamsToDisk(cfg, c, declared);
      && (r.None? <==> |wire.bytes| <= maxBytes && !wire.fails && (needsDisk ==> works))
      && (r == Some(TooLarge) <==> |wire.bytes| > maxBytes && (needsDisk ==> works))
      && (r == Some(ReadFailed) <==> |wire.bytes| <= maxBytes && wire.fails && !needsDisk)
  {
  }

  // ---------------------------------------------------------------------- accounting

  datatype Store = Store(disk: bool, state: State)

  /** All storages ever created, and the counters. */
  datatype Cache = Cache(stores: seq<Store>, counts: Counters)

  datatype Op =
    | Create(data: Bytes, diskWorks: bool)
    | CreateFromReader(wire: Wire, declared: int, maxBytes: nat, works: bool)
    | Touch(i: nat, use: Use)
    | Close(i: nat)

  function Added(c: Cache, disk: bool, data: Bytes): Cache {
    Cache(c.stores + [Store(disk, State(data, 0, false))], AddTo(c.counts, disk, |data|))
  }

  function Step(cfg: Config, c: Cache, op: Op): Cache {
    match op
    case Create(data, works) => Added(c, works && WantsDisk(cfg, c.counts, |data|), data)
    case CreateFromReader(wire, declared, maxBytes, works) =>
      if Refusal(cfg, c.counts, wire, declared, maxBytes, works).Some? then c
      else Added(c, ChoosesDisk(cfg, c.counts, |wire.bytes|, declared, works), wire.bytes)
    case Touch(i, use) =>
      if i >= |c.stores| then c
      else c.(stores := c.stores[i := c.stores[i].(state := Used(c.stores[i].state, use, c.stores[i].disk))])
    case Close(i) =>
      if i >= |c.stores| || c.stores[i].state.closed then c
      else
        var s := c.stores[i];
        Cache(c.stores[i := s.(state := s.state.(closed := true))], DropFrom(c.counts, s.disk, |s.state.contents|))
  }

  function Run(cfg: Config, ops: seq<Op>): Cache {
    if ops == [] then Cache([], Counters(0, 0, 0, 0)) else Step(cfg, Run(cfg, ops[..|ops| - 1]), ops[|ops| - 1])
  }

  function Weight(s: Store, disk: bool): nat { if s.disk == disk && !s.state.closed then 1 else 0 }

  function Load(s: Store, disk: bool): nat { if s.disk == disk && !s.state.closed then |s.state.contents| else 0 }

  /** How many of the first k storages are open, of one kind. */
  function OpenCount(stores: seq<Store>, k: nat, disk: bool): nat
    requires k <= |stores|
  {
    if k == 0 then 0 else OpenCount(stores, k - 1, disk) + Weight(stores[k - 1], disk)
  }

  function OpenBytes(stores: seq<Store>, k: nat, disk: bool): nat
    requires k <= |stores|
  {
    if k == 0 then 0 else OpenBytes(stores, k - 1, disk) + Load(stores[k - 1], disk)
  }

  /** The counters are exactly the number and the total size of the open storages of each kind. */
  ghost predicate Accounted(c: Cache) {
    && c.counts.diskFiles == OpenCount(c.stores, |c.stores|, true)
    && c.counts.diskBytes == OpenBytes(c.stores, |c.stores|, true)
    && c.counts.memoryBuffers == OpenCount(c.stores, |c.stores|, false)
    && c.counts.memoryBytes == OpenBytes(c.stores, |c.stores|, false)
  }

  lemma {:induction false} CountsUnchanged(a: seq<Store>, b: seq<Store>, k: nat, disk: bool)
    requires k <= |a| && k <= |b|
    requires forall j :: 0 <= j < k ==> Weight(a[j], disk) == Weight(b[j], disk) && Load(a[j], disk) == Load(b[j], disk)
    ensures OpenCount(a, k, disk) == OpenCount(b, k, disk) && OpenBytes(a, k, disk) == OpenBytes(b, k, disk)
  {
    if k > 0 { CountsUnchanged(a, b, k - 1, disk); }
  }

  lemma {:induction false} CountsUpdated(a: seq<Store>, i: nat, s: Store, k: nat, disk: bool)
    requires i < k <= |a|
    ensures OpenCount(a[i := s], k, disk) == OpenCount(a, k, disk) - Weight(a[i], disk) + Weight(s, disk)
    ensures OpenBytes(a[i := s], k, disk) == OpenBytes(a, k, disk) - Load(a[i], disk) + Load(s, disk)
  {
    if i == k - 1 {
      CountsUnchanged(a, a[i := s], k - 1, disk);
    } else {
      CountsUpdated(a, i, s, k - 1, disk);
    }
  }

  lemma AddedAccounted(c: Cache, disk: bool, data: Bytes)
    requires Accounted(c)
    ensures Accounted(Added(c, disk, data))
  {
    var a := Added(c, disk, data).stores;
    CountsUnchanged(c.stores, a, |c.stores|, true);
    CountsUnchanged(c.stores, a, |c.stores|, false);
  }

  lemma TouchAccounted(c: Cache, i: nat, s: Store)
    requires Accounted(c) && i < |c.stores|
    requires s.disk == c.stores[i].disk && s.state.closed == c.stores[i].state.closed
    requires s.state.contents == c.stores[i].state.contents
    ensures Accounted(c.(stores := c.stores[i := s]))
  {
    CountsUpdated(c.stores, i, s, |c.stores|, true);
    CountsUpdated(c.stores, i, s, |c.stores|, false);
  }

  lemma CloseAccounted(c: Cache, i: nat)
    requires Accounted(c) && i < |c.stores| && !c.stores[i].state.closed
    ensures
      var s := c.stores[i];
      Accounted(Cache(c.stores[i := s.(state := s.state.(closed := true))], DropFrom(c.counts, s.disk, |s.state.contents|)))
  {
    var s := c.stores[i];
    var t := s.(state := s.state.(closed := true));
    CountsUpdated(c.stores, i, t, |c.stores|, true);
    CountsUpdated(c.stores, i, t, |c.stores|, false);
  }

  lemma StepAccounted(cfg: Config, c: Cache, op: Op)
    requires Accounted(c)
    ensures Accounted(Step(cfg, c, op))
  {
    match op
    case Create(data, works) => AddedAccounted(c, works && WantsDisk(cfg, c.counts, |data|), data);
    case CreateFromReader(wire, declared, maxBytes, works) =>
      AddedAccounted(c, ChoosesDisk(cfg, c.counts, |wire.bytes|, declared, works), wire.bytes);
    case Touch(i, use) =>
      if i < |c.stores| {
        TouchAccounted(c, i, c.stores[i].(state := Used(c.stores[i].state, use, c.stores[i].disk)));
      }
    case Close(i) =>
      if i < |c.stores| && !c.stores[i].state.closed { CloseAccounted(c, i); }
  }

  /** Over every run, with repeated closes and failed creations, the counters are exact. */
  lemma {:induction false} RunAccounted(cfg: Config, ops: seq<Op>)
    ensures Accounted(Run(cfg, ops))
  {
    if ops != [] {
      RunAccounted(cfg, ops[..|ops| - 1]);
      StepAccounted(cfg, Run(cfg, ops[..|ops| - 1]), ops[|ops| - 1]);
    }
  }

  // -------------------------------------------------------------------- the disk limit

  function Limit(cfg: Config): nat { if cfg.maxSizeMB < 0 then 0 else cfg.maxSizeMB * MIB }

  ghost predicate Within(cfg: Config, c: Cache) { c.counts.diskBytes <= Limit(cfg) }

  /** An accepted body is streamed to disk on the strength of its declared length and does not fit. */
  predicate Overflows(cfg: Config, c: Cache, op: Op) {
    && op.CreateFromReader? && StreamsToDisk(cfg, c.counts, op.declared)
    && Refusal(cfg, c.counts, op.wire, op.declared, op.maxBytes, op.works).None?
    && c.counts.diskBytes + |op.wire.bytes| > Limit(cfg)
  }

  /** From any accounted cache within the limit, exactly such an operation exceeds it. */
  lemma StepExceedsIff(cfg: Config, c: Cache, op: Op)
    requires Accounted(c) && Within(cfg, c)
    ensures Within(cfg, Step(cfg, c, op)) <==> !Overflows(cfg, c, op)
  {
  }

  /** A run stays within the limit throughout exactly when none of its operations overflows. */
  lemma {:induction false} StaysWithinIff(cfg: Config, ops: seq<Op>, n: nat)
    requires n <= |ops|
    ensures (forall i :: 0 <= i <= n ==> Within(cfg, Run(cfg, ops[..i])))
      <==> (forall i :: 0 <= i < n ==> !Overflows(cfg, Run(cfg, ops[..i]), ops[i]))
  {
    if n == 0 {
      assert ops[..0] == [];
    } else {
      StaysWithinIff(cfg, ops, n - 1);
      RunAccounted(cfg, ops[..n - 1]);
      RunStep(cfg, ops, n - 1);
      if Within(cfg, Run(cfg, ops[..n - 1])) { StepExceedsIff(cfg, Run(cfg, ops[..n - 1]), ops[n - 1]); }
    }
  }

  lemma RunStep(cfg: Config, ops: seq<Op>, n: nat)
    requires n < |ops|
    ensures Run(cfg, ops[..n + 1]) == Step(cfg, Run(cfg, ops[..n]), ops[n])
  {
    assert ops[..n + 1][..n] == ops[..n];
  }

  /** A body long enough on paper to be streamed to disk is no longer than declared. Bodies declared
      below the threshold may be of any length: they are measured before they are stored. */
  ghost predicate Honest(cfg: Config, op: Op) {
    op.CreateFromReader? && cfg.enabled && op.declared > 0 && op.declared >= cfg.thresholdMB * MIB ==>
      |op.wire.bytes| <= op.declared
  }

  lemma HonestFits(cfg: Config, c: Cache, op: Op)
    requires Honest(cfg, op)
    ensures !Overflows(cfg, c, op)
  {
  }

  /** In sequential runs with honest lengths, disk usage never exceeds the configured maximum. */
  lemma DiskBounded(cfg: Config, ops: seq<Op>)
    requires forall i :: 0 <= i < |ops| ==> Honest(cfg, ops[i])
    ensures forall i :: 0 <= i <= |ops| ==> Within(cfg, Run(cfg, ops[..i]))
  {
    forall i | 0 <= i < |ops| ensures !Overflows(cfg, Run(cfg, ops[..i]), ops[i]) {
      HonestFits(cfg, Run(cfg, ops[..i]), ops[i]);
    }
    StaysWithinIff(cfg, ops, |ops|);
  }

  /** A body longer than declared does exceed it: after any run within the limit, one that is streamed to
      disk and does not fit. Decompressed bodies are of this kind, since their declared length is that
      of the compressed form. */
  lemma ShortDeclarationOverflows(cfg: Config, ops: seq<Op>, bytes: Bytes, declared: int, maxBytes: nat)
    requires Within(cfg, Run(cfg, ops)) && StreamsToDisk(cfg, Run(cfg, ops).counts, declared) && |bytes| <= maxBytes
    ensures Within(cfg, Run(cfg, ops + [CreateFromReader(Wire(bytes, false), declared, maxBytes, true)]))
      <==> Run(cfg, ops).counts.diskBytes + |bytes| <= Limit(cfg)
  {
    var op := CreateFromReader(Wire(bytes, false), declared, maxBytes, true);
    assert (ops + [op])[..|ops|] == ops;
    RunAccounted(cfg, ops);
    StepExceedsIff(cfg, Run(cfg, ops), op);
  }
}
