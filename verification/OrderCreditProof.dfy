/** What the handlers do to the money. Over every interleaving of duplicate webhooks and
    administrator completions, with store calls failing before or after taking effect, an Epay
    order is credited at most once, only after its row went from pending to success, and every
    balance is the starting balance plus the credits of its orders and the other changes. */
module OrderCreditProof {
  import opened OrderProtocol
  import opened OrderLockProof

  predicate NoDuplicates(ts: seq<Trade>) {
    forall i, j :: 0 <= i < j < |ts| ==> ts[i] != ts[j]
  }

  /** The credits of the orders of one user. */
  function CreditSum(ts: seq<Trade>, topUps: map<Trade, TopUp>, u: User, unit: real): int {
    if ts == [] then 0
    else
      var t := ts[|ts| - 1];
      CreditSum(ts[..|ts| - 1], topUps, u, unit)
      + (if t in topUps && topUps[t].user == u then CreditOf(topUps[t], unit) else 0)
  }

  lemma {:induction false} CreditSumFrame(ts: seq<Trade>, before: map<Trade, TopUp>, after: map<Trade, TopUp>, u: User, unit: real)
    requires forall t :: t in ts ==> t in before && t in after && before[t] == after[t]
    ensures CreditSum(ts, before, u, unit) == CreditSum(ts, after, u, unit)
  {
    if ts != [] {
      var t := ts[|ts| - 1];
      assert t in ts;
      CreditSumFrame(ts[..|ts| - 1], before, after, u, unit);
    }
  }

  // ------------------------------------------------------------ store invariant

  predicate Paid(db: Store, t: Trade) {
    t in db.topUps && db.topUps[t].provider == EPAY && db.topUps[t].status == Success
  }

  ghost predicate HistoryOk(db: Store) {
    && NoDuplicates(db.credits)
    && (forall t :: t in db.credits ==> t in db.settled && t !in db.lost)
    && (forall t :: t in db.lost ==> t in db.settled)
    && (forall t :: t in db.settled ==> Paid(db, t))
  }

  ghost predicate BalancesOk(db: Store, start: map<User, int>, unit: real) {
    && (forall u :: u in db.balances <==> u in db.other)
    && (forall u :: u in db.balances || u in start ==> u in db.users)
    && forall u :: u in db.balances ==>
         db.balances[u] == StartOf(start, u) + db.other[u] + CreditSum(db.credits, db.topUps, u, unit)
  }

  /** A user who joins during the run starts from nothing; the starting balance is one of the other changes. */
  function StartOf(start: map<User, int>, u: User): int { if u in start then start[u] else 0 }

  ghost predicate StoreOk(db: Store, start: map<User, int>, unit: real) {
    HistoryOk(db) && BalancesOk(db, start, unit)
  }

  /** Changing the row of an order that was never settled keeps the books. */
  lemma RowChangeOk(db: Store, t: Trade, row: TopUp, start: map<User, int>, unit: real)
    requires StoreOk(db, start, unit) && t !in db.settled
    ensures StoreOk(db.(topUps := db.topUps[t := row]), start, unit)
  {
    forall u { CreditSumFrame(db.credits, db.topUps, db.topUps[t := row], u, unit); }
  }

  lemma SaveOk(db: Store, t: Trade, row: TopUp, start: map<User, int>, unit: real)
    requires StoreOk(db, start, unit) && t !in db.settled
    requires row.provider == EPAY && row.status == Success
    ensures StoreOk(Save(db, t, row), start, unit)
  {
    RowChangeOk(db, t, row, start, unit);
  }

  lemma LoseOk(db: Store, t: Trade, start: map<User, int>, unit: real)
    requires StoreOk(db, start, unit) && t in db.settled && t !in db.credits
    ensures StoreOk(db.(lost := db.lost + {t}), start, unit)
  {
  }

  lemma CreditStoreOk(db: Store, t: Trade, row: TopUp, start: map<User, int>, unit: real)
    requires StoreOk(db, start, unit) && t in db.settled && t !in db.credits && t !in db.lost
    requires db.topUps[t] == row
    ensures StoreOk(Credit(db, t, row, unit), start, unit)
  {
    if row.user in db.balances {
      var db' := Credit(db, t, row, unit);
      assert db'.credits[..|db.credits|] == db.credits;
    } else {
      LoseOk(db, t, start, unit);
    }
  }

  lemma AdjustOk(db: Store, u: User, d: int, start: map<User, int>, unit: real)
    requires StoreOk(db, start, unit)
    ensures StoreOk(db.(balances := Plus(db.balances, u, d), other := Plus(db.other, u, d)), start, unit)
  {
  }

  lemma {:induction false} NoCredits(ts: seq<Trade>, topUps: map<Trade, TopUp>, u: User, unit: real)
    requires NoOrders(topUps, u)
    ensures CreditSum(ts, topUps, u, unit) == 0
  {
    if ts != [] { NoCredits(ts[..|ts| - 1], topUps, u, unit); }
  }

  lemma JoinOk(db: Store, u: User, quota: int, start: map<User, int>, unit: real)
    requires StoreOk(db, start, unit) && u !in db.users && NoOrders(db.topUps, u)
    ensures StoreOk(db.(balances := db.balances[u := quota], users := db.users + {u}, other := db.other[u := quota]), start, unit)
  {
    NoCredits(db.credits, db.topUps, u, unit);
  }

  lemma LeaveOk(db: Store, u: User, start: map<User, int>, unit: real)
    requires StoreOk(db, start, unit)
    ensures StoreOk(Removed(db, u), start, unit)
  {
  }

  lemma CompleteOk(db: Store, t: Trade, unit: real, o: Outcome, start: map<User, int>)
    requires StoreOk(db, start, unit)
    ensures StoreOk(DoComplete(db, t, unit, o), start, unit)
  {
    if t in db.topUps && db.topUps[t].status == Pending {
      var paid := db.topUps[t].(status := Success);
      if db.topUps[t].provider == EPAY {
        SaveOk(db, t, paid, start, unit);
        CreditStoreOk(Save(db, t, paid), t, paid, start, unit);
      } else {
        RowChangeOk(db, t, paid, start, unit);
        AdjustOk(db.(topUps := db.topUps[t := paid]), paid.user, CreditOf(paid, unit), start, unit);
      }
    }
  }

  // ------------------------------------------------------------ thread invariant

  /** What a worker inside the handler knows about the store. */
  ghost predicate Guarded(s: State, w: Worker)
    requires w < |s.threads|
  {
    var th := s.threads[w];
    && (th.pc.Saving? ==>
          && th.trade in s.db.topUps && th.trade !in s.db.settled
          && s.db.topUps[th.trade].status == Pending && s.db.topUps[th.trade].provider == EPAY
          && th.pc.row == s.db.topUps[th.trade].(paymentMethod := th.pc.row.paymentMethod, status := Success))
    && (th.pc.Crediting? ==>
          && th.trade in s.db.settled && th.trade !in s.db.credits && th.trade !in s.db.lost
          && Paid(s.db, th.trade) && s.db.topUps[th.trade] == th.pc.row)
  }

  predicate IsCrediting(s: State, w: nat, t: Trade) {
    w < |s.threads| && s.threads[w].trade == t && s.threads[w].pc.Crediting?
  }

  /** Every order a handler turned to success is credited, lost, or about to be one of them. */
  ghost predicate Accounted(s: State) {
    forall t :: t in s.db.settled && t !in s.db.credits && t !in s.db.lost ==>
                  exists w: nat :: IsCrediting(s, w, t)
  }

  ghost predicate CreditInv(s: State, start: map<User, int>, unit: real) {
    && LockInv(s)
    && StoreOk(s.db, start, unit)
    && (forall w :: 0 <= w < |s.threads| ==> Guarded(s, w))
    && Accounted(s)
  }

  /** The row of one trade and its history are the same in two stores. */
  ghost predicate SameTrade(a: Store, b: Store, t: Trade) {
    && (t in a.topUps <==> t in b.topUps)
    && (t in a.topUps ==> a.topUps[t] == b.topUps[t])
    && (t in a.settled <==> t in b.settled)
    && (t in a.credits <==> t in b.credits)
    && (t in a.lost <==> t in b.lost)
  }

  ghost predicate Changes(a: Store, b: Store, t: Trade) {
    forall u :: u != t ==> SameTrade(a, b, u)
  }

  lemma StoreCallsAreLocal(db: Store, t: Trade, row: TopUp, unit: real, o: Outcome)
    ensures Changes(db, DoSave(db, t, row, o).0, t)
    ensures Changes(db, DoCredit(db, t, row, unit, o), t)
  {
  }

  /** The completing transaction touches one trade and leaves it credited or lost if it settles it. */
  lemma CompletionIsLocal(db: Store, t: Trade, unit: real, o: Outcome)
    ensures
      var db' := DoComplete(db, t, unit, o);
      Changes(db, db', t) && (t in db'.settled ==> t in db.settled || t in db'.credits || t in db'.lost)
      && (t in db.credits ==> t in db'.credits) && (t in db.lost ==> t in db'.lost)
  {
  }

  /** No other worker is inside the handler for the trade of a worker that is. */
  lemma OthersAreElsewhere(s: State, w: Worker, v: Worker)
    requires LockInv(s) && w < |s.threads| && v < |s.threads| && v != w
    requires HoldsOrder(s.threads[w].pc)
    ensures HoldsOrder(s.threads[v].pc) ==> s.threads[v].trade != s.threads[w].trade
  {
    assert ThreadOk(s, v) && ThreadOk(s, w);
  }

  lemma OthersStayGuarded(s: State, w: Worker, s': State)
    requires LockInv(s) && (forall v :: 0 <= v < |s.threads| ==> Guarded(s, v))
    requires w < |s.threads| && HoldsOrder(s.threads[w].pc)
    requires |s'.threads| == |s.threads| && (forall v :: 0 <= v < |s.threads| && v != w ==> s'.threads[v] == s.threads[v])
    requires Changes(s.db, s'.db, s.threads[w].trade)
    ensures forall v :: 0 <= v < |s'.threads| && v != w ==> Guarded(s', v)
  {
    forall v | 0 <= v < |s'.threads| && v != w ensures Guarded(s', v) {
      OthersAreElsewhere(s, w, v);
      assert Guarded(s, v);
      assert s'.threads[v].trade != s.threads[w].trade ==> SameTrade(s.db, s'.db, s'.threads[v].trade);
    }
  }

  /** Orders of other trades stay accounted for, by the same worker. */
  lemma OthersAccounted(s: State, w: Worker, s': State)
    requires Accounted(s) && w < |s.threads|
    requires |s'.threads| == |s.threads| && (forall v :: 0 <= v < |s.threads| && v != w ==> s'.threads[v] == s.threads[v])
    requires Changes(s.db, s'.db, s.threads[w].trade)
    requires
      var t := s.threads[w].trade;
      t in s'.db.settled && t !in s'.db.credits && t !in s'.db.lost ==> exists v: nat :: IsCrediting(s', v, t)
    ensures Accounted(s')
  {
    forall t | t in s'.db.settled && t !in s'.db.credits && t !in s'.db.lost
      ensures exists v: nat :: IsCrediting(s', v, t)
    {
      if t != s.threads[w].trade {
        assert SameTrade(s.db, s'.db, t);
        var v: nat :| IsCrediting(s, v, t);
        assert IsCrediting(s', v, t);
      }
    }
  }

  // ------------------------------------------------------------- preservation

  lemma SavingStep(s: State, w: Worker, o: Outcome, start: map<User, int>, unit: real)
    requires CreditInv(s, start, unit) && w < |s.threads| && s.threads[w].pc.Saving?
    ensures CreditInv(RunThread(s, w, o, unit), start, unit)
  {
    var s' := RunThread(s, w, o, unit);
    var t, row := s.threads[w].trade, s.threads[w].pc.row;
    RunPreserves(s, w, o, unit);
    assert Guarded(s, w);
    StoreCallsAreLocal(s.db, t, row, unit, o);
    SaveOk(s.db, t, row, start, unit);
    LoseOk(Save(s.db, t, row), t, start, unit);
    OthersStayGuarded(s, w, s');
    assert o == Ok ==> IsCrediting(s', w, t);
    assert o == FailBefore ==> s'.db == s.db;
    OthersAccounted(s, w, s');
  }

  lemma CreditingStep(s: State, w: Worker, o: Outcome, start: map<User, int>, unit: real)
    requires CreditInv(s, start, unit) && w < |s.threads| && s.threads[w].pc.Crediting?
    ensures CreditInv(RunThread(s, w, o, unit), start, unit)
  {
    var s' := RunThread(s, w, o, unit);
    var t, row := s.threads[w].trade, s.threads[w].pc.row;
    RunPreserves(s, w, o, unit);
    assert Guarded(s, w);
    StoreCallsAreLocal(s.db, t, row, unit, o);
    CreditStoreOk(s.db, t, row, start, unit);
    LoseOk(s.db, t, start, unit);
    OthersStayGuarded(s, w, s');
    OthersAccounted(s, w, s');
  }

  lemma WebhookReads(s: State, w: Worker, o: Outcome, start: map<User, int>, unit: real)
    requires CreditInv(s, start, unit) && w < |s.threads|
    requires s.threads[w].pc.Reading? && s.threads[w].job.Webhook?
    ensures CreditInv(RunThread(s, w, o, unit), start, unit)
  {
    var s' := RunThread(s, w, o, unit);
    RunPreserves(s, w, o, unit);
    OthersStayGuarded(s, w, s');
    AccountedWhileReading(s, w);
    OthersAccounted(s, w, s');
  }

  lemma AdminCompletes(s: State, w: Worker, o: Outcome, start: map<User, int>, unit: real)
    requires CreditInv(s, start, unit) && w < |s.threads|
    requires s.threads[w].pc.Reading? && s.threads[w].job.AdminComplete?
    ensures CreditInv(RunThread(s, w, o, unit), start, unit)
  {
    var s' := RunThread(s, w, o, unit);
    var t := s.threads[w].trade;
    RunPreserves(s, w, o, unit);
    CompletionIsLocal(s.db, t, unit, o);
    CompleteOk(s.db, t, unit, o, start);
    OthersStayGuarded(s, w, s');
    AccountedWhileReading(s, w);
    OthersAccounted(s, w, s');
  }

  /** While a worker is still reading a trade, nobody else is crediting it. */
  lemma AccountedWhileReading(s: State, w: Worker)
    requires LockInv(s) && Accounted(s) && w < |s.threads| && s.threads[w].pc.Reading?
    ensures
      var t := s.threads[w].trade;
      t in s.db.settled ==> t in s.db.credits || t in s.db.lost
  {
    var t := s.threads[w].trade;
    if t in s.db.settled && t !in s.db.credits && t !in s.db.lost {
      var v: nat :| IsCrediting(s, v, t);
      OthersAreElsewhere(s, w, v);
      assert false;
    }
  }

  /** The steps of LockOrder and UnlockOrder leave the store alone. */
  lemma LockStep(s: State, w: Worker, o: Outcome, start: map<User, int>, unit: real)
    requires CreditInv(s, start, unit) && CanRun(s, w)
    requires !s.threads[w].pc.Reading? && !s.threads[w].pc.Saving? && !s.threads[w].pc.Crediting?
    ensures CreditInv(RunThread(s, w, o, unit), start, unit)
  {
    var s' := RunThread(s, w, o, unit);
    RunPreserves(s, w, o, unit);
    LockStepKeeps(s, w, o, unit);
    forall v | 0 <= v < |s'.threads| ensures Guarded(s', v) { assert Guarded(s, v); }
    forall t | t in s'.db.settled && t !in s'.db.credits && t !in s'.db.lost
      ensures exists v: nat :: IsCrediting(s', v, t)
    {
      var v: nat :| IsCrediting(s, v, t);
      assert IsCrediting(s', v, t);
    }
  }

  lemma LockStepKeeps(s: State, w: Worker, o: Outcome, unit: real)
    requires CanRun(s, w)
    requires !s.threads[w].pc.Reading? && !s.threads[w].pc.Saving? && !s.threads[w].pc.Crediting?
    ensures
      var s' := RunThread(s, w, o, unit);
      && s'.db == s.db && |s'.threads| == |s.threads|
      && (forall v :: 0 <= v < |s.threads| && v != w ==> s'.threads[v] == s.threads[v])
      && !s'.threads[w].pc.Saving? && !s'.threads[w].pc.Crediting?
  {
  }

  lemma SystemStep(s: State, a: Action, start: map<User, int>, unit: real)
    requires CreditInv(s, start, unit) && Enabled(s, a) && !a.Run?
    ensures CreditInv(Step(s, a, unit), start, unit)
  {
    var s' := Step(s, a, unit);
    StepPreserves(s, a, unit);
    match a {
      case Insert(t, row) => RowChangeOk(s.db, t, row, start, unit);
      case Foreign(t, row) => RowChangeOk(s.db, t, row, start, unit);
      case Join(u, quota) => JoinOk(s.db, u, quota, start, unit);
      case Leave(u) => LeaveOk(s.db, u, start, unit);
      case Adjust(u, d) => AdjustOk(s.db, u, d, start, unit);
      case _ =>
    }
    forall v | 0 <= v < |s'.threads| ensures Guarded(s', v) {
      if v < |s.threads| { assert Guarded(s, v); }
    }
    forall t | t in s'.db.settled && t !in s'.db.credits && t !in s'.db.lost
      ensures exists v: nat :: IsCrediting(s', v, t)
    {
      var v: nat :| IsCrediting(s, v, t);
      assert IsCrediting(s', v, t);
    }
  }

  lemma CreditStep(s: State, a: Action, start: map<User, int>, unit: real)
    requires CreditInv(s, start, unit) && Enabled(s, a)
    ensures CreditInv(Step(s, a, unit), start, unit)
  {
    match a
    case Run(w, o) =>
      if s.threads[w].pc.Reading? {
        if s.threads[w].job.Webhook? {
          WebhookReads(s, w, o, start, unit);
        } else {
          AdminCompletes(s, w, o, start, unit);
        }
      } else if s.threads[w].pc.Saving? {
        SavingStep(s, w, o, start, unit);
      } else if s.threads[w].pc.Crediting? {
        CreditingStep(s, w, o, start, unit);
      } else {
        LockStep(s, w, o, start, unit);
      }
    case _ => SystemStep(s, a, start, unit);
  }

  lemma {:induction false} CreditRun(states: seq<State>, actions: seq<Action>, unit: real, i: nat)
    requires IsRun(states, actions, unit) && i < |states|
    ensures CreditInv(states[i], states[0].db.balances, unit)
  {
    if i == 0 {
      InitialInv(states[0]);
    } else {
      CreditRun(states, actions, unit, i - 1);
      assert Follows(states, actions, unit, i - 1);
      CreditStep(states[i - 1], actions[i - 1], states[0].db.balances, unit);
    }
  }

  // ------------------------------------------------------------------ theorems

  /** At every point of every run: no order is credited twice, every credited order is an Epay
      order in the success state whose credit was not reported lost, and each balance is its
      starting value plus the credits of its orders plus the other changes. */
  lemma CreditedAtMostOnce(states: seq<State>, actions: seq<Action>, unit: real, i: nat)
    requires IsRun(states, actions, unit) && i < |states|
    ensures
      var db := states[i].db;
      && NoDuplicates(db.credits)
      && (forall t :: t in db.credits ==> Paid(db, t) && t in db.settled && t !in db.lost)
      && BalancesOk(db, states[0].db.balances, unit)
  {
    CreditRun(states, actions, unit, i);
  }

  /** What one step may do to the row of a trade: an Epay order keeps its user and amount, leaves
      the pending state only to success, and never changes once it is not pending; settling
      starts from a pending Epay row and is never forgotten. */
  ghost predicate Lifecycle(db: Store, db': Store, t: Trade) {
    && (t in db.topUps && db.topUps[t].provider == EPAY ==>
          && t in db'.topUps && db'.topUps[t].provider == EPAY
          && db'.topUps[t].user == db.topUps[t].user && db'.topUps[t].amount == db.topUps[t].amount
          && (db.topUps[t].status != Pending ==> db'.topUps[t] == db.topUps[t])
          && db'.topUps[t].status in {db.topUps[t].status, Success})
    && (t in db'.settled && t !in db.settled ==> WasPending(db, t))
    && (t in db.settled ==> t in db'.settled)
  }

  predicate WasPending(db: Store, t: Trade) {
    t in db.topUps && db.topUps[t].provider == EPAY && db.topUps[t].status == Pending
  }

  /** Every step of every run keeps the life cycle of every order. */
  lemma OrderLifecycle(states: seq<State>, actions: seq<Action>, unit: real, i: nat, t: Trade)
    requires IsRun(states, actions, unit) && i < |actions|
    ensures Lifecycle(states[i].db, states[i + 1].db, t)
  {
    CreditRun(states, actions, unit, i);
    assert Follows(states, actions, unit, i);
    if actions[i].Run? {
      RunLifecycle(states[i], actions[i].w, actions[i].outcome, unit, states[0].db.balances, t);
    }
  }

  lemma CompleteLifecycle(db: Store, t0: Trade, unit: real, o: Outcome, t: Trade)
    ensures Lifecycle(db, DoComplete(db, t0, unit, o), t)
  {
  }

  lemma SaveLifecycle(db: Store, t0: Trade, row: TopUp, o: Outcome, t: Trade)
    requires WasPending(db, t0)
    requires row == db.topUps[t0].(paymentMethod := row.paymentMethod, status := Success)
    ensures Lifecycle(db, DoSave(db, t0, row, o).0, t)
  {
  }

  lemma RunLifecycle(s: State, w: Worker, o: Outcome, unit: real, start: map<User, int>, t: Trade)
    requires CreditInv(s, start, unit) && CanRun(s, w)
    ensures Lifecycle(s.db, RunThread(s, w, o, unit).db, t)
  {
    assert Guarded(s, w);
    var th := s.threads[w];
    if th.pc.Reading? {
      CompleteLifecycle(s.db, th.trade, unit, o, t);
    } else if th.pc.Saving? {
      SaveLifecycle(s.db, th.trade, th.pc.row, o, t);
    } else if !th.pc.Crediting? {
      LockStepKeeps(s, w, o, unit);
    }
  }

  /** Every credited order was seen pending at an earlier point of the run. */
  lemma {:induction false} CreditedWasPending(states: seq<State>, actions: seq<Action>, unit: real, i: nat, t: Trade)
    returns (j: nat)
    requires IsRun(states, actions, unit) && i < |states|
    requires t in states[i].db.settled || t in states[i].db.credits
    ensures j < i && WasPending(states[j].db, t)
  {
    CreditRun(states, actions, unit, i);
    j := i - 1;
    OrderLifecycle(states, actions, unit, j, t);
    if t in states[j].db.settled {
      j := CreditedWasPending(states, actions, unit, j, t);
    }
  }

  /** When every worker has finished, an order that a handler turned to success was credited
      exactly once or its credit was lost, and never both. */
  lemma SettledWhenDrained(states: seq<State>, actions: seq<Action>, unit: real, i: nat, t: Trade)
    requires IsRun(states, actions, unit) && i < |states|
    requires forall w :: 0 <= w < |states[i].threads| ==> states[i].threads[w].pc.Done?
    ensures
      var db := states[i].db;
      t in db.settled <==> (t in db.credits && t !in db.lost) || (t in db.lost && t !in db.credits)
  {
    CreditRun(states, actions, unit, i);
    assert Accounted(states[i]);
  }

  // ------------------------------------------------------------- lost credits

  /** The step that loses a credit: saving reports an error although the row was written; adding the
      quota fails, is refused because it is negative, or finds no user to add it to; or an
      administrator completes the order of a user who is gone. */
  predicate Loses(s: State, a: Action, unit: real, t: Trade) {
    && a.Run? && a.w < |s.threads| && s.threads[a.w].trade == t
    && match s.threads[a.w].pc
       case Saving(_) => a.outcome == FailAfter
       case Crediting(row) => a.outcome == FailBefore || CreditOf(row, unit) < 0 || row.user !in s.db.balances
       case Reading => s.threads[a.w].job.AdminComplete? && a.outcome != FailBefore && CompletesInVain(s.db, t, unit)
       case _ => false
  }

  predicate CompletesInVain(db: Store, t: Trade, unit: real) {
    WasPending(db, t) && CreditOf(db.topUps[t], unit) > 0 && db.topUps[t].user !in db.balances
  }

  lemma CompletionLoses(db: Store, t: Trade, unit: real, o: Outcome)
    ensures t in DoComplete(db, t, unit, o).lost <==> t in db.lost || (o != FailBefore && CompletesInVain(db, t, unit))
  {
  }

  lemma StepLoses(s: State, a: Action, unit: real, t: Trade)
    requires LockInv(s) && Enabled(s, a)
    ensures t in Step(s, a, unit).db.lost <==> t in s.db.lost || Loses(s, a, unit, t)
  {
    if a.Run? {
      var th := s.threads[a.w];
      assert ThreadOk(s, a.w);
      if th.pc.Reading? {
        CompletionIsLocal(s.db, th.trade, unit, a.outcome);
        CompletionLoses(s.db, th.trade, unit, a.outcome);
        assert t != th.trade ==> SameTrade(s.db, DoComplete(s.db, th.trade, unit, a.outcome), t);
      } else if !th.pc.Saving? && !th.pc.Crediting? {
        LockStepKeeps(s, a.w, a.outcome, unit);
      }
    }
  }

  ghost predicate LostBefore(states: seq<State>, actions: seq<Action>, unit: real, i: nat, t: Trade)
    requires |states| == |actions| + 1 && i <= |actions|
  {
    exists j :: 0 <= j < i && Loses(states[j], actions[j], unit, t)
  }

  /** A credit is lost exactly when one of those steps occurred. */
  lemma {:induction false} LostIff(states: seq<State>, actions: seq<Action>, unit: real, i: nat, t: Trade)
    requires IsRun(states, actions, unit) && i < |states|
    ensures t in states[i].db.lost <==> LostBefore(states, actions, unit, i, t)
  {
    if i > 0 {
      LostIff(states, actions, unit, i - 1, t);
      RunInv(states, actions, unit, i - 1);
      assert Follows(states, actions, unit, i - 1);
      StepLoses(states[i - 1], actions[i - 1], unit, t);
    }
  }

  /** When every worker has finished, an order that a handler turned to success was credited, exactly
      once, if and only if no step of the run lost its credit. */
  lemma CreditedIff(states: seq<State>, actions: seq<Action>, unit: real, i: nat, t: Trade)
    requires IsRun(states, actions, unit) && i < |states| && t in states[i].db.settled
    requires forall w :: 0 <= w < |states[i].threads| ==> states[i].threads[w].pc.Done?
    ensures t in states[i].db.credits <==> !LostBefore(states, actions, unit, i, t)
  {
    SettledWhenDrained(states, actions, unit, i, t);
    LostIff(states, actions, unit, i, t);
  }

  /** No store call reports an error. */
  predicate FailureFree(actions: seq<Action>) {
    forall i :: 0 <= i < |actions| ==> actions[i].Run? ==> actions[i].outcome == Ok
  }

  /** Without store errors a credit is lost only because its amount is negative or its user was gone. */
  lemma {:induction false} LossNeedsFailure(states: seq<State>, actions: seq<Action>, unit: real, i: nat, t: Trade)
    requires IsRun(states, actions, unit) && FailureFree(actions) && i < |states|
    requires t in states[i].db.lost
    ensures Paid(states[i].db, t)
    ensures CreditOf(states[i].db.topUps[t], unit) < 0 || UserGone(states, i, states[i].db.topUps[t].user)
  {
    CreditRun(states, actions, unit, i);
    if i > 0 {
      assert Follows(states, actions, unit, i - 1);
      if t in states[i - 1].db.lost {
        LossNeedsFailure(states, actions, unit, i - 1, t);
        OrderLifecycle(states, actions, unit, i - 1, t);
      } else {
        LossAt(states, actions, unit, i - 1, t);
      }
    }
  }

  lemma LossAt(states: seq<State>, actions: seq<Action>, unit: real, j: nat, t: Trade)
    requires IsRun(states, actions, unit) && FailureFree(actions) && j < |actions|
    requires t !in states[j].db.lost && t in states[j + 1].db.lost
    ensures
      var topUps := states[j + 1].db.topUps;
      t in topUps && (CreditOf(topUps[t], unit) < 0 || topUps[t].user !in states[j].db.balances)
  {
    CreditRun(states, actions, unit, j);
    assert Follows(states, actions, unit, j);
    assert actions[j].Run? ==> actions[j].outcome == Ok;
    NewLoss(states[j], actions[j].w, unit, states[0].db.balances, t);
  }

  lemma NewLoss(s: State, w: Worker, unit: real, start: map<User, int>, t: Trade)
    requires CreditInv(s, start, unit) && CanRun(s, w)
    requires t !in s.db.lost && t in RunThread(s, w, Ok, unit).db.lost
    ensures
      var topUps := RunThread(s, w, Ok, unit).db.topUps;
      t in topUps && (CreditOf(topUps[t], unit) < 0 || topUps[t].user !in s.db.balances)
  {
    assert Guarded(s, w);
    StepLoses(s, Run(w, Ok), unit, t);
  }

  /** A user had no balance at some point before the i-th. */
  ghost predicate UserGone(states: seq<State>, i: nat, u: User)
    requires i <= |states|
  {
    exists j :: 0 <= j < i && u !in states[j].db.balances
  }
}
