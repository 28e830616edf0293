/** The per-order lock and the payment handlers that run under it, as an interleaving of any
    number of goroutines in one process. Every shared access is one atomic step: mutex
    operations, loads, stores and deletes on the lock table, updates of a reference count, and
    store calls. A Go mutex has no owner and may be unlocked by anybody; the worker recorded in
    a locked mutex is a history variable that no step reads. */
module OrderProtocol {
  import opened Wrappers
  import opened Quota

  type Trade = string
  type User = int
  type Worker = nat
  type MutexId = nat

  datatype Status = Pending | Success | Failed | Expired

  datatype TopUp = TopUp(user: User, amount: int, provider: string, paymentMethod: string, status: Status)

  const EPAY: string := "epay"

  /** An Epay success webhook reporting a payment method, or an administrator completing an order. */
  datatype Job = Webhook(paymentMethod: string) | AdminComplete

  /** The next shared access of a worker. */
  datatype Pc =
    // LockOrder
    | WantCreate                 // createLock.Lock()
    | Loading                    // orderLocks.Load(tradeNo)
    | Storing                    // orderLocks.Store(tradeNo, rcm) with a new rcm
    | Counting(m: MutexId)       // rcm.refCount++
    | Leaving(m: MutexId)        // createLock.Unlock()
    | WantOrder(m: MutexId)      // rcm.mu.Lock()
    // the handler
    | Reading                    // GetTopUpByTradeNo, or the completing transaction
    | Saving(row: TopUp)         // topUp.Update()
    | Crediting(row: TopUp)      // IncreaseUserQuota
    // UnlockOrder
    | Finding                    // orderLocks.Load(tradeNo), without createLock
    | Releasing(m: MutexId)      // rcm.mu.Unlock()
    | WantDrop(m: MutexId)       // createLock.Lock()
    | Dropping(m: MutexId)       // rcm.refCount--
    | Testing(m: MutexId)        // if rcm.refCount == 0
    | Deleting                   // orderLocks.Delete(tradeNo)
    | Closing                    // createLock.Unlock()
    | Done
    // outcomes that must not happen
    | Stranded                   // UnlockOrder found no entry and returned with the mutex locked
    | Crashed                    // unlock of an unlocked mutex

  datatype Thread = Thread(trade: Trade, job: Job, pc: Pc)

  datatype Mutex = Mutex(owner: Option<Worker>, refCount: int)

  /** The stored orders and balances, with the history of what happened to Epay orders: the
      credits in order, the trades whose row a handler turned from pending to success, the trades
      whose credit reached no balance, and the sum of all other balance changes. A deleted user has
      no balance; `users` are the ids ever given out. */
  datatype Store = Store(
    topUps: map<Trade, TopUp>, balances: map<User, int>, users: set<User>,
    credits: seq<Trade>, settled: set<Trade>, lost: set<Trade>, other: map<User, int>)

  datatype State = State(
    threads: seq<Thread>, create: Option<Worker>, locks: map<Trade, MutexId>, mutexes: seq<Mutex>,
    db: Store)

  /** How a store call ends; an error may be reported before or after the write took effect. */
  datatype Outcome = Ok | FailBefore | FailAfter

  datatype Action =
    | Run(w: Worker, outcome: Outcome)
    | Spawn(trade: Trade, job: Job)
    // the rest of the system
    | Insert(t: Trade, row: TopUp)        // a new order: pending, or any row of another payment provider
    | Foreign(t: Trade, row: TopUp)       // any change to an order of another payment provider
    | Join(u: User, quota: int)           // a new user with a starting balance; ids are not reused
    | Leave(u: User)                      // a user is deleted, with or without a trace
    | Adjust(u: User, delta: int)         // consumption, refunds, other providers' credits

  // ------------------------------------------------------------- store calls

  function CreditOf(row: TopUp, unit: real): int { CreditFor(row.amount, unit) }

  function Plus(m: map<User, int>, u: User, d: int): map<User, int> {
    if u in m then m[u := m[u] + d] else m
  }

  /** The balance update of a paid order: `UPDATE ... SET quota = quota + ?`, which touches no row and
      reports no error when the user is gone. */
  function Credit(db: Store, t: Trade, row: TopUp, unit: real): Store {
    if row.user !in db.balances then db.(lost := db.lost + {t})
    else db.(balances := Plus(db.balances, row.user, CreditOf(row, unit)), credits := db.credits + [t])
  }

  /** GetTopUpByTradeNo and the provider and status checks: the row the webhook goes on to save. */
  function ReadForWebhook(db: Store, t: Trade, paymentMethod: string, o: Outcome): Pc {
    if o != Ok || t !in db.topUps then Finding
    else
      var row := db.topUps[t];
      if row.provider != EPAY || row.status != Pending then Finding
      else Saving(row.(paymentMethod := paymentMethod, status := Success))
  }

  function Save(db: Store, t: Trade, row: TopUp): Store {
    db.(topUps := db.topUps[t := row], settled := db.settled + {t})
  }

  function DoSave(db: Store, t: Trade, row: TopUp, o: Outcome): (Store, Pc) {
    match o
    case Ok => (Save(db, t, row), Crediting(row))
    case FailBefore => (db, Finding)
    case FailAfter => (Save(db, t, row).(lost := db.lost + {t}), Finding)
  }

  /** IncreaseUserQuota refuses a negative amount before touching the store. */
  function DoCredit(db: Store, t: Trade, row: TopUp, unit: real, o: Outcome): Store {
    if CreditOf(row, unit) < 0 || o == FailBefore then db.(lost := db.lost + {t})
    else Credit(db, t, row, unit)
  }

  /** ManualCompleteTopUp: one transaction over the row and the balance. An order of another
      provider is settled the same way, as one of the other balance changes. */
  function DoComplete(db: Store, t: Trade, unit: real, o: Outcome): Store {
    if t !in db.topUps || db.topUps[t].status != Pending || o == FailBefore then db
    else
      var row := db.topUps[t];
      var paid := row.(status := Success);
      if CreditOf(row, unit) <= 0 then db
      else if row.provider == EPAY then Credit(Save(db, t, paid), t, paid, unit)
      else
        var d := CreditOf(row, unit);
        db.(topUps := db.topUps[t := paid], balances := Plus(db.balances, row.user, d),
            other := Plus(db.other, row.user, d))
  }

  // ---------------------------------------------------------------- one step

  function Goto(s: State, w: Worker, pc: Pc): State
    requires w < |s.threads|
  {
    s.(threads := s.threads[w := s.threads[w].(pc := pc)])
  }

  function SetMutex(s: State, m: MutexId, mu: Mutex): State
    requires m < |s.mutexes|
  {
    s.(mutexes := s.mutexes[m := mu])
  }

  /** The mutex a program counter refers to. */
  function MutexOf(pc: Pc): Option<MutexId> {
    match pc
    case Counting(m) => Some(m)
    case Leaving(m) => Some(m)
    case WantOrder(m) => Some(m)
    case Releasing(m) => Some(m)
    case WantDrop(m) => Some(m)
    case Dropping(m) => Some(m)
    case Testing(m) => Some(m)
    case _ => None
  }

  predicate Dangling(s: State, pc: Pc) {
    MutexOf(pc).Some? && MutexOf(pc).value >= |s.mutexes|
  }

  /** Whether the worker can take its next step: only the three lock operations ever wait. */
  predicate CanRun(s: State, w: Worker) {
    w < |s.threads| &&
    match s.threads[w].pc
    case WantCreate => s.create == None
    case WantDrop(_) => s.create == None
    case WantOrder(m) => m < |s.mutexes| ==> s.mutexes[m].owner == None
    case Done => false
    case Stranded => false
    case Crashed => false
    case _ => true
  }

  function RunThread(s: State, w: Worker, o: Outcome, unit: real): State
    requires CanRun(s, w)
  {
    var th := s.threads[w];
    var t := th.trade;
    if Dangling(s, th.pc) then Goto(s, w, Crashed) else
    match th.pc
    case WantCreate => Goto(s.(create := Some(w)), w, Loading)
    case Loading => Goto(s, w, if t in s.locks then Counting(s.locks[t]) else Storing)
    case Storing =>
      var m := |s.mutexes|;
      Goto(s.(locks := s.locks[t := m], mutexes := s.mutexes + [Mutex(None, 0)]), w, Counting(m))
    case Counting(m) =>
      Goto(SetMutex(s, m, s.mutexes[m].(refCount := s.mutexes[m].refCount + 1)), w, Leaving(m))
    case Leaving(m) => ReleaseCreate(s, w, WantOrder(m))
    case WantOrder(m) => Goto(SetMutex(s, m, s.mutexes[m].(owner := Some(w))), w, Reading)
    case Reading =>
      (match th.job
       case Webhook(paymentMethod) => Goto(s, w, ReadForWebhook(s.db, t, paymentMethod, o))
       case AdminComplete => Goto(s.(db := DoComplete(s.db, t, unit, o)), w, Finding))
    case Saving(row) =>
      var (db, pc) := DoSave(s.db, t, row, o);
      Goto(s.(db := db), w, pc)
    case Crediting(row) => Goto(s.(db := DoCredit(s.db, t, row, unit, o)), w, Finding)
    case Finding => Goto(s, w, if t in s.locks then Releasing(s.locks[t]) else Stranded)
    case Releasing(m) =>
      if s.mutexes[m].owner == None then Goto(s, w, Crashed)
      else Goto(SetMutex(s, m, s.mutexes[m].(owner := None)), w, WantDrop(m))
    case WantDrop(m) => Goto(s.(create := Some(w)), w, Dropping(m))
    case Dropping(m) =>
      Goto(SetMutex(s, m, s.mutexes[m].(refCount := s.mutexes[m].refCount - 1)), w, Testing(m))
    case Testing(m) => Goto(s, w, if s.mutexes[m].refCount == 0 then Deleting else Closing)
    case Deleting => Goto(s.(locks := s.locks - {t}), w, Closing)
    case Closing => ReleaseCreate(s, w, Done)
  }

  function ReleaseCreate(s: State, w: Worker, next: Pc): State
    requires w < |s.threads|
  {
    if s.create == None then Goto(s, w, Crashed) else Goto(s.(create := None), w, next)
  }

  function Removed(db: Store, u: User): Store { db.(balances := db.balances - {u}, other := db.other - {u}) }

  predicate NoOrders(topUps: map<Trade, TopUp>, u: User) { forall t :: t in topUps ==> topUps[t].user != u }

  predicate Enabled(s: State, a: Action) {
    match a
    case Run(w, _) => CanRun(s, w)
    case Spawn(_, _) => true
    case Insert(t, row) => t !in s.db.topUps && (row.status == Pending || row.provider != EPAY)
    case Foreign(t, row) => t in s.db.topUps && s.db.topUps[t].provider != EPAY && row.provider != EPAY
    case Join(u, _) => u !in s.db.users && NoOrders(s.db.topUps, u)
    case Leave(u) => u in s.db.balances
    case Adjust(u, _) => u in s.db.balances
  }

  function Step(s: State, a: Action, unit: real): State
    requires Enabled(s, a)
  {
    match a
    case Run(w, o) => RunThread(s, w, o, unit)
    case Spawn(t, job) => s.(threads := s.threads + [Thread(t, job, WantCreate)])
    case Insert(t, row) => s.(db := s.db.(topUps := s.db.topUps[t := row]))
    case Foreign(t, row) => s.(db := s.db.(topUps := s.db.topUps[t := row]))
    case Join(u, quota) =>
      s.(db := s.db.(balances := s.db.balances[u := quota], users := s.db.users + {u}, other := s.db.other[u := quota]))
    case Leave(u) => s.(db := Removed(s.db, u))
    case Adjust(u, d) =>
      s.(db := s.db.(balances := Plus(s.db.balances, u, d), other := Plus(s.db.other, u, d)))
  }

  // -------------------------------------------------------------------- runs

  /** Nothing is running and the lock table is empty; the store holds any orders and balances. */
  predicate Initial(s: State) {
    && s.threads == [] && s.create == None && s.locks == map[] && s.mutexes == []
    && s.db.credits == [] && s.db.settled == {} && s.db.lost == {}
    && s.db.other == (map u | u in s.db.balances :: 0)
    && forall u :: u in s.db.balances ==> u in s.db.users
  }

  /** A run: its states and the actions between them. */
  ghost predicate IsRun(states: seq<State>, actions: seq<Action>, unit: real) {
    && |states| == |actions| + 1
    && Initial(states[0])
    && forall i :: 0 <= i < |actions| ==> Follows(states, actions, unit, i)
  }

  ghost predicate Follows(states: seq<State>, actions: seq<Action>, unit: real, i: nat)
    requires i < |actions| && |states| == |actions| + 1
  {
    Enabled(states[i], actions[i]) && states[i + 1] == Step(states[i], actions[i], unit)
  }
}
