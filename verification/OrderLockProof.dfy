/** The lock protocol keeps its invariant in every interleaving: at most one worker holds an
    order, all workers registered on an order share one mutex whose reference count is their
    number, no entry of the lock table leaks, nothing deadlocks and everything drains. */
module OrderLockProof {
  import opened Wrappers
  import opened OrderProtocol

  // ------------------------------------------------- what a program counter means

  /** Between createLock.Lock() and createLock.Unlock(). */
  predicate HoldsCreate(pc: Pc) {
    pc.Loading? || pc.Storing? || pc.Counting? || pc.Leaving? ||
    pc.Dropping? || pc.Testing? || pc.Deleting? || pc.Closing?
  }

  /** Between the end of LockOrder and the release inside UnlockOrder. */
  predicate HoldsOrder(pc: Pc) {
    pc.Reading? || pc.Saving? || pc.Crediting? || pc.Finding? || pc.Releasing?
  }

  /** Between refCount++ and refCount--. */
  predicate Registered(pc: Pc) {
    pc.Leaving? || pc.WantOrder? || HoldsOrder(pc) || pc.WantDrop? || pc.Dropping?
  }

  /** The short spans, inside createLock, when an entry exists that nobody counts. */
  predicate InWindow(pc: Pc) { pc.Counting? || pc.Testing? || pc.Deleting? }

  predicate NeedsEntry(pc: Pc) { Registered(pc) || InWindow(pc) }

  predicate On(th: Thread, t: Trade) { th.trade == t && Registered(th.pc) }

  /** How many workers are registered on a trade. */
  function Count(ts: seq<Thread>, t: Trade): nat {
    if ts == [] then 0
    else Count(ts[..|ts| - 1], t) + (if On(ts[|ts| - 1], t) then 1 else 0)
  }

  lemma {:induction false} CountUpdate(ts: seq<Thread>, w: nat, th: Thread, t: Trade)
    requires w < |ts|
    ensures Count(ts[w := th], t)
              == Count(ts, t) - (if On(ts[w], t) then 1 else 0) + (if On(th, t) then 1 else 0)
    decreases |ts|
  {
    var n := |ts| - 1;
    if w == n {
      assert ts[w := th][..n] == ts[..n];
    } else {
      CountUpdate(ts[..n], w, th, t);
      assert ts[w := th][..n] == ts[..n][w := th];
    }
  }

  lemma {:induction false} CountPositive(ts: seq<Thread>, w: nat, t: Trade)
    requires w < |ts| && On(ts[w], t)
    ensures Count(ts, t) >= 1
    decreases |ts|
  {
    var n := |ts| - 1;
    if w < n { CountPositive(ts[..n], w, t); }
  }

  lemma {:induction false} CountWitness(ts: seq<Thread>, t: Trade) returns (w: nat)
    requires Count(ts, t) >= 1
    ensures w < |ts| && On(ts[w], t)
    decreases |ts|
  {
    var n := |ts| - 1;
    if On(ts[n], t) { w := n; } else { w := CountWitness(ts[..n], t); }
  }

  // ------------------------------------------------------------ the invariant

  ghost predicate CreateOk(s: State) {
    s.create.Some? ==> s.create.value < |s.threads| && HoldsCreate(s.threads[s.create.value].pc)
  }

  ghost predicate ThreadOk(s: State, w: Worker)
    requires w < |s.threads|
  {
    var th := s.threads[w];
    && (HoldsCreate(th.pc) ==> s.create == Some(w))
    && (th.pc.Storing? ==> th.trade !in s.locks)
    && (NeedsEntry(th.pc) ==>
          && th.trade in s.locks && s.locks[th.trade] < |s.mutexes|
          && (MutexOf(th.pc).Some? ==> MutexOf(th.pc) == Some(s.locks[th.trade]))
          && (HoldsOrder(th.pc) ==> s.mutexes[s.locks[th.trade]].owner == Some(w))
          && (th.pc.Deleting? ==> s.mutexes[s.locks[th.trade]].refCount == 0))
    && !th.pc.Stranded? && !th.pc.Crashed?
  }

  ghost predicate EntryOk(s: State, t: Trade)
    requires t in s.locks
  {
    && s.locks[t] < |s.mutexes|
    && var mu := s.mutexes[s.locks[t]];
    && mu.refCount == Count(s.threads, t)
    && (mu.owner.Some? ==>
          && mu.owner.value < |s.threads|
          && s.threads[mu.owner.value].trade == t
          && HoldsOrder(s.threads[mu.owner.value].pc))
    && (Count(s.threads, t) == 0 ==>
          && s.create.Some? && s.create.value < |s.threads|
          && s.threads[s.create.value].trade == t && InWindow(s.threads[s.create.value].pc))
  }

  ghost predicate LockInv(s: State) {
    && CreateOk(s)
    && (forall w :: 0 <= w < |s.threads| ==> ThreadOk(s, w))
    && (forall t :: t in s.locks ==> EntryOk(s, t))
    && (forall t, u :: t in s.locks && u in s.locks && t != u ==> s.locks[t] != s.locks[u])
  }

  lemma InitialInv(s: State)
    requires Initial(s)
    ensures LockInv(s)
  {
  }

  // -------------------------------------------------------------- preservation

  /** Steps that touch neither the lock table, nor a mutex, nor createLock, and keep the worker
      on the same side of every boundary. */
  lemma StayInside(s: State, w: Worker, s': State, pc: Pc)
    requires LockInv(s) && w < |s.threads|
    requires s' == Goto(s, w, pc).(db := s'.db)
    requires HoldsOrder(s.threads[w].pc) && HoldsOrder(pc)
    requires pc.Releasing? ==> s.threads[w].trade in s.locks && pc.m == s.locks[s.threads[w].trade]
    ensures LockInv(s')
  {
    assert ThreadOk(s, w);
    forall v | 0 <= v < |s'.threads| ensures ThreadOk(s', v) { assert ThreadOk(s, v); }
    forall t | t in s'.locks ensures EntryOk(s', t) { KeepEntry(s, w, s', t); }
  }

  lemma KeepEntry(s: State, w: Worker, s': State, t: Trade)
    requires t in s.locks && EntryOk(s, t) && w < |s.threads|
    requires s'.locks == s.locks && s'.mutexes == s.mutexes && s'.create == s.create
    requires |s'.threads| == |s.threads| && s'.threads == s.threads[w := s.threads[w].(pc := s'.threads[w].pc)]
    requires HoldsOrder(s.threads[w].pc) && HoldsOrder(s'.threads[w].pc)
    ensures EntryOk(s', t)
  {
    CountUpdate(s.threads, w, s'.threads[w], t);
  }

  /** createLock.Lock() in LockOrder and in UnlockOrder. */
  lemma TakeCreate(s: State, w: Worker, pc: Pc)
    requires LockInv(s) && w < |s.threads| && s.create == None
    requires (s.threads[w].pc.WantCreate? && pc.Loading?)
          || (s.threads[w].pc.WantDrop? && pc == Dropping(s.threads[w].pc.m))
    ensures LockInv(Goto(s.(create := Some(w)), w, pc))
  {
    var s' := Goto(s.(create := Some(w)), w, pc);
    forall t { CountUpdate(s.threads, w, s'.threads[w], t); }
    assert ThreadOk(s, w);
    forall v | 0 <= v < |s'.threads| ensures ThreadOk(s', v) { assert ThreadOk(s, v); }
    forall t | t in s'.locks ensures EntryOk(s', t) { assert EntryOk(s, t); }
  }

  /** createLock.Unlock() at the end of LockOrder and of UnlockOrder. */
  lemma DropCreate(s: State, w: Worker, pc: Pc)
    requires LockInv(s) && w < |s.threads|
    requires (s.threads[w].pc.Leaving? && pc == WantOrder(s.threads[w].pc.m))
          || (s.threads[w].pc.Closing? && pc.Done?)
    ensures s.create == Some(w) && LockInv(Goto(s.(create := None), w, pc))
  {
    assert ThreadOk(s, w);
    var s' := Goto(s.(create := None), w, pc);
    forall t { CountUpdate(s.threads, w, s'.threads[w], t); }
    forall v | 0 <= v < |s'.threads| ensures ThreadOk(s', v) { assert ThreadOk(s, v); }
    forall t | t in s'.locks ensures EntryOk(s', t) { assert EntryOk(s, t); }
  }

  /** orderLocks.Load under createLock, and the refCount test. */
  lemma UnderCreate(s: State, w: Worker, pc: Pc)
    requires LockInv(s) && w < |s.threads|
    requires
      var th := s.threads[w];
      || (th.pc.Loading? && pc == if th.trade in s.locks then Counting(s.locks[th.trade]) else Storing)
      || (th.pc.Testing? && th.pc.m < |s.mutexes|
          && pc == if s.mutexes[th.pc.m].refCount == 0 then Deleting else Closing)
    ensures LockInv(Goto(s, w, pc))
  {
    var s' := Goto(s, w, pc);
    forall t { CountUpdate(s.threads, w, s'.threads[w], t); }
    assert ThreadOk(s, w);
    forall v | 0 <= v < |s'.threads| ensures ThreadOk(s', v) { assert ThreadOk(s, v); }
    forall t | t in s'.locks ensures EntryOk(s', t) { assert EntryOk(s, t); }
  }

  lemma EntryOfRegistered(s: State, w: Worker)
    requires LockInv(s) && w < |s.threads| && Registered(s.threads[w].pc)
    ensures s.threads[w].trade in s.locks
  {
    assert ThreadOk(s, w);
  }

  lemma NoEntryNoCount(s: State, t: Trade)
    requires LockInv(s) && t !in s.locks
    ensures Count(s.threads, t) == 0
  {
    if Count(s.threads, t) >= 1 {
      var v := CountWitness(s.threads, t);
      EntryOfRegistered(s, v);
      assert false;
    }
  }

  lemma StoreEntry(s: State, w: Worker)
    requires LockInv(s) && w < |s.threads| && s.threads[w].pc.Storing?
    ensures LockInv(RunThread(s, w, Ok, 0.0))
  {
    var s' := RunThread(s, w, Ok, 0.0);
    var t0 := s.threads[w].trade;
    forall t { CountUpdate(s.threads, w, s'.threads[w], t); }
    assert ThreadOk(s, w);
    forall v | 0 <= v < |s'.threads| ensures ThreadOk(s', v) { assert ThreadOk(s, v); }
    NoEntryNoCount(s, t0);
    forall t | t in s'.locks ensures EntryOk(s', t) {
      if t != t0 { assert EntryOk(s, t); }
    }
  }

  lemma DeleteEntry(s: State, w: Worker)
    requires LockInv(s) && w < |s.threads| && s.threads[w].pc.Deleting?
    ensures LockInv(RunThread(s, w, Ok, 0.0))
  {
    var s' := RunThread(s, w, Ok, 0.0);
    var t0 := s.threads[w].trade;
    forall t { CountUpdate(s.threads, w, s'.threads[w], t); }
    assert ThreadOk(s, w);
    assert EntryOk(s, t0);
    forall v | 0 <= v < |s'.threads| ensures ThreadOk(s', v) {
      assert ThreadOk(s, v);
      if On(s.threads[v], t0) { CountPositive(s.threads, v, t0); }
    }
    forall t | t in s'.locks ensures EntryOk(s', t) { assert EntryOk(s, t); }
  }

  /** rcm.refCount++ */
  lemma Increment(s: State, w: Worker)
    requires LockInv(s) && CanRun(s, w) && s.threads[w].pc.Counting?
    ensures LockInv(RunThread(s, w, Ok, 0.0))
  {
    assert ThreadOk(s, w);
    var s' := RunThread(s, w, Ok, 0.0);
    var t0 := s.threads[w].trade;
    assert EntryOk(s, t0);
    forall t { CountUpdate(s.threads, w, s'.threads[w], t); }
    forall v | 0 <= v < |s'.threads| ensures ThreadOk(s', v) { assert ThreadOk(s, v); }
    forall t | t in s'.locks ensures EntryOk(s', t) { assert EntryOk(s, t); }
  }

  /** rcm.refCount-- */
  lemma Decrement(s: State, w: Worker)
    requires LockInv(s) && CanRun(s, w) && s.threads[w].pc.Dropping?
    ensures LockInv(RunThread(s, w, Ok, 0.0))
  {
    assert ThreadOk(s, w);
    var s' := RunThread(s, w, Ok, 0.0);
    var t0 := s.threads[w].trade;
    assert EntryOk(s, t0);
    forall t { CountUpdate(s.threads, w, s'.threads[w], t); }
    forall v | 0 <= v < |s'.threads| ensures ThreadOk(s', v) { assert ThreadOk(s, v); }
    forall t | t in s'.locks ensures EntryOk(s', t) { assert EntryOk(s, t); }
  }

  /** rcm.mu.Lock() */
  lemma TakeOrder(s: State, w: Worker)
    requires LockInv(s) && CanRun(s, w) && s.threads[w].pc.WantOrder?
    ensures LockInv(RunThread(s, w, Ok, 0.0))
  {
    assert ThreadOk(s, w);
    var s' := RunThread(s, w, Ok, 0.0);
    var t0 := s.threads[w].trade;
    assert EntryOk(s, t0);
    forall t { CountUpdate(s.threads, w, s'.threads[w], t); }
    forall v | 0 <= v < |s'.threads| ensures ThreadOk(s', v) { assert ThreadOk(s, v); }
    forall t | t in s'.locks ensures EntryOk(s', t) { assert EntryOk(s, t); }
  }

  /** rcm.mu.Unlock() */
  lemma ReleaseOrder(s: State, w: Worker)
    requires LockInv(s) && CanRun(s, w) && s.threads[w].pc.Releasing?
    ensures LockInv(RunThread(s, w, Ok, 0.0))
  {
    assert ThreadOk(s, w);
    var s' := RunThread(s, w, Ok, 0.0);
    var t0 := s.threads[w].trade;
    assert EntryOk(s, t0);
    forall t { CountUpdate(s.threads, w, s'.threads[w], t); }
    forall v | 0 <= v < |s'.threads| ensures ThreadOk(s', v) { assert ThreadOk(s, v); }
    forall t | t in s'.locks ensures EntryOk(s', t) { assert EntryOk(s, t); }
  }

  lemma RunPreserves(s: State, w: Worker, o: Outcome, unit: real)
    requires LockInv(s) && CanRun(s, w)
    ensures LockInv(RunThread(s, w, o, unit))
  {
    assert ThreadOk(s, w);
    var th := s.threads[w];
    var s' := RunThread(s, w, o, unit);
    match th.pc
    case WantCreate => TakeCreate(s, w, Loading);
    case WantDrop(m) => TakeCreate(s, w, Dropping(m));
    case Leaving(m) => DropCreate(s, w, WantOrder(m));
    case Closing => DropCreate(s, w, Done);
    case Loading => UnderCreate(s, w, s'.threads[w].pc);
    case Testing(m) => UnderCreate(s, w, s'.threads[w].pc);
    case Storing => StoreEntry(s, w);
    case Deleting => DeleteEntry(s, w);
    case Counting(m) => Increment(s, w);
    case Dropping(m) => Decrement(s, w);
    case WantOrder(m) => TakeOrder(s, w);
    case Releasing(m) => ReleaseOrder(s, w);
    case Reading => StayInside(s, w, s', s'.threads[w].pc);
    case Saving(_) => StayInside(s, w, s', s'.threads[w].pc);
    case Crediting(_) => StayInside(s, w, s', s'.threads[w].pc);
    case Finding => StayInside(s, w, s', s'.threads[w].pc);
    case _ => assert false;
  }

  lemma {:induction false} CountAppend(ts: seq<Thread>, th: Thread, t: Trade)
    ensures Count(ts + [th], t) == Count(ts, t) + (if On(th, t) then 1 else 0)
  {
    assert (ts + [th])[..|ts|] == ts;
  }

  lemma SpawnPreserves(s: State, trade: Trade, job: Job)
    requires LockInv(s)
    ensures LockInv(Step(s, Spawn(trade, job), 0.0))
  {
    var s' := Step(s, Spawn(trade, job), 0.0);
    forall t { CountAppend(s.threads, s'.threads[|s.threads|], t); }
    forall v | 0 <= v < |s'.threads| ensures ThreadOk(s', v) {
      if v < |s.threads| { assert ThreadOk(s, v); }
    }
    forall t | t in s'.locks ensures EntryOk(s', t) { assert EntryOk(s, t); }
  }

  lemma StepPreserves(s: State, a: Action, unit: real)
    requires LockInv(s) && Enabled(s, a)
    ensures LockInv(Step(s, a, unit))
  {
    match a
    case Run(w, o) => RunPreserves(s, w, o, unit);
    case Spawn(t, job) => SpawnPreserves(s, t, job);
    case _ =>
      var s' := Step(s, a, unit);
      forall v | 0 <= v < |s'.threads| ensures ThreadOk(s', v) { assert ThreadOk(s, v); }
      forall t | t in s'.locks ensures EntryOk(s', t) { assert EntryOk(s, t); }
  }

  /** Every state of every run satisfies the invariant. */
  lemma {:induction false} RunInv(states: seq<State>, actions: seq<Action>, unit: real, i: nat)
    requires IsRun(states, actions, unit) && i < |states|
    ensures LockInv(states[i])
  {
    if i == 0 {
      InitialInv(states[0]);
    } else {
      RunInv(states, actions, unit, i - 1);
      assert Follows(states, actions, unit, i - 1);
      StepPreserves(states[i - 1], actions[i - 1], unit);
    }
  }

  // ------------------------------------------------------------------ theorems

  predicate Live(th: Thread) { !th.pc.Done? && !th.pc.Stranded? && !th.pc.Crashed? }

  /** At any point of any run, two workers that hold the same order are one worker. */
  lemma MutualExclusion(states: seq<State>, actions: seq<Action>, unit: real, i: nat, v: Worker, w: Worker)
    requires IsRun(states, actions, unit) && i < |states|
    requires v < |states[i].threads| && w < |states[i].threads|
    requires HoldsOrder(states[i].threads[v].pc) && HoldsOrder(states[i].threads[w].pc)
    requires states[i].threads[v].trade == states[i].threads[w].trade
    ensures v == w
  {
    RunInv(states, actions, unit, i);
    assert ThreadOk(states[i], v) && ThreadOk(states[i], w);
  }

  /** Workers registered on a trade find it in the lock table; those that carry a mutex all carry
      the one stored there, and its reference count is their number. UnlockOrder never misses its
      entry and never unlocks an unlocked mutex. */
  lemma SharedMutex(states: seq<State>, actions: seq<Action>, unit: real, i: nat, w: Worker)
    requires IsRun(states, actions, unit) && i < |states| && w < |states[i].threads|
    ensures
      var s, th := states[i], states[i].threads[w];
      && !th.pc.Stranded? && !th.pc.Crashed?
      && (Registered(th.pc) ==>
            && th.trade in s.locks && s.locks[th.trade] < |s.mutexes|
            && s.mutexes[s.locks[th.trade]].refCount == Count(s.threads, th.trade)
            && (MutexOf(th.pc).Some? ==> MutexOf(th.pc).value == s.locks[th.trade]))
  {
    RunInv(states, actions, unit, i);
    assert ThreadOk(states[i], w);
    if Registered(states[i].threads[w].pc) { assert EntryOk(states[i], states[i].threads[w].trade); }
  }

  /** A trade is in the lock table exactly while somebody is registered on it, whenever createLock
      is free; while createLock is held the only exception is the entry its holder is working on. */
  lemma NoLeak(states: seq<State>, actions: seq<Action>, unit: real, i: nat, t: Trade)
    requires IsRun(states, actions, unit) && i < |states|
    ensures
      var s := states[i];
      && (Count(s.threads, t) > 0 ==> t in s.locks)
      && (t in s.locks && Count(s.threads, t) == 0 ==>
            s.create.Some? && s.create.value < |s.threads| && s.threads[s.create.value].trade == t
            && InWindow(s.threads[s.create.value].pc))
  {
    RunInv(states, actions, unit, i);
    if t in states[i].locks {
      assert EntryOk(states[i], t);
    } else {
      NoEntryNoCount(states[i], t);
    }
  }

  /** While any worker has not finished, some worker can take a step. */
  lemma NoDeadlock(s: State, v: Worker) returns (w: Worker)
    requires LockInv(s) && v < |s.threads| && Live(s.threads[v])
    ensures CanRun(s, w)
  {
    assert ThreadOk(s, v);
    w := v;
    var pc := s.threads[v].pc;
    if s.create.Some? && (pc.WantCreate? || pc.WantDrop?) {
      w := s.create.value;
    } else if pc.WantOrder? {
      assert EntryOk(s, s.threads[v].trade);
      if s.mutexes[pc.m].owner.Some? {
        w := s.mutexes[pc.m].owner.value;
      }
    }
  }

  /** How many more steps a worker can take. */
  function Rank(pc: Pc): nat {
    match pc
    case WantCreate => 16
    case Loading => 15
    case Storing => 14
    case Counting(_) => 13
    case Leaving(_) => 12
    case WantOrder(_) => 11
    case Reading => 10
    case Saving(_) => 9
    case Crediting(_) => 8
    case Finding => 7
    case Releasing(_) => 6
    case WantDrop(_) => 5
    case Dropping(_) => 4
    case Testing(_) => 3
    case Deleting => 2
    case Closing => 1
    case _ => 0
  }

  function Remaining(ts: seq<Thread>): nat {
    if ts == [] then 0 else Remaining(ts[..|ts| - 1]) + Rank(ts[|ts| - 1].pc)
  }

  lemma {:induction false} RemainingUpdate(ts: seq<Thread>, w: nat, th: Thread)
    requires w < |ts|
    ensures Remaining(ts[w := th]) == Remaining(ts) - Rank(ts[w].pc) + Rank(th.pc)
    decreases |ts|
  {
    var n := |ts| - 1;
    if w == n {
      assert ts[w := th][..n] == ts[..n];
    } else {
      RemainingUpdate(ts[..n], w, th);
      assert ts[w := th][..n] == ts[..n][w := th];
    }
  }

  lemma RankDrops(s: State, w: Worker, o: Outcome, unit: real)
    requires CanRun(s, w)
    ensures
      var ts := RunThread(s, w, o, unit).threads;
      |ts| == |s.threads| && ts == s.threads[w := ts[w]] && Rank(ts[w].pc) < Rank(s.threads[w].pc)
  {
  }

  lemma StepCosts(s: State, w: Worker, o: Outcome, unit: real)
    requires CanRun(s, w)
    ensures Remaining(RunThread(s, w, o, unit).threads) < Remaining(s.threads)
  {
    RankDrops(s, w, o, unit);
    RemainingUpdate(s.threads, w, RunThread(s, w, o, unit).threads[w]);
  }

  /** A schedule: which worker runs next and how its store call ends. */
  ghost predicate Schedule(states: seq<State>, choices: seq<(Worker, Outcome)>, unit: real) {
    && |states| == |choices| + 1
    && forall i :: 0 <= i < |choices| ==> Chooses(states, choices, unit, i)
  }

  ghost predicate Chooses(states: seq<State>, choices: seq<(Worker, Outcome)>, unit: real, i: nat)
    requires i < |choices| && |states| == |choices| + 1
  {
    CanRun(states[i], choices[i].0)
    && states[i + 1] == RunThread(states[i], choices[i].0, choices[i].1, unit)
  }

  /** After i choices of a schedule. */
  lemma {:induction false} ScheduleCosts(states: seq<State>, choices: seq<(Worker, Outcome)>, unit: real, i: nat)
    requires Schedule(states, choices, unit) && LockInv(states[0]) && i <= |choices|
    ensures i + Remaining(states[i].threads) <= Remaining(states[0].threads)
    ensures LockInv(states[i])
  {
    if i > 0 {
      ScheduleCosts(states, choices, unit, i - 1);
      assert Chooses(states, choices, unit, i - 1);
      ChoiceCosts(states[i - 1], choices[i - 1].0, choices[i - 1].1, unit);
    }
  }

  lemma ChoiceCosts(s: State, w: Worker, o: Outcome, unit: real)
    requires CanRun(s, w) && LockInv(s)
    ensures Remaining(RunThread(s, w, o, unit).threads) < Remaining(s.threads)
    ensures LockInv(RunThread(s, w, o, unit))
  {
    StepCosts(s, w, o, unit);
    RunPreserves(s, w, o, unit);
  }

  ghost predicate Stuck(s: State) { forall w: Worker :: !CanRun(s, w) }

  ghost predicate Finished(s: State) {
    && (forall w :: 0 <= w < |s.threads| ==> s.threads[w].pc.Done?)
    && s.locks == map[] && s.create == None
  }

  /** Once no new work arrives, every schedule ends within a fixed number of steps, and one that
      cannot be extended has finished every worker and emptied the lock table. */
  lemma Drains(states: seq<State>, choices: seq<(Worker, Outcome)>, unit: real)
    requires Schedule(states, choices, unit) && LockInv(states[0])
    ensures |choices| + Remaining(states[|choices|].threads) <= Remaining(states[0].threads)
    ensures Stuck(states[|choices|]) ==> Finished(states[|choices|])
  {
    ScheduleCosts(states, choices, unit, |choices|);
    if Stuck(states[|choices|]) { QuiescentIsEmpty(states[|choices|]); }
  }

  lemma QuiescentIsEmpty(s: State)
    requires LockInv(s) && Stuck(s)
    ensures Finished(s)
  {
    forall w | 0 <= w < |s.threads| ensures s.threads[w].pc.Done? {
      assert ThreadOk(s, w);
      if Live(s.threads[w]) {
        var v := NoDeadlock(s, w);
        assert false;
      }
    }
    forall t | t in s.locks ensures false {
      assert EntryOk(s, t);
      if Count(s.threads, t) > 0 { var w := CountWitness(s.threads, t); }
    }
  }
}
