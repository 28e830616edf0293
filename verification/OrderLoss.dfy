/** Runs that lose a credit: a webhook turns a pending order to success, adding the quota fails or finds no
    user, the worker finishes, and nobody will ever credit the order. */
module OrderLoss {
  import opened Wrappers
  import opened OrderProtocol
  import opened OrderCreditProof

  /** A run with one more step. */
  lemma Extend(states: seq<State>, actions: seq<Action>, unit: real, a: Action)
    returns (ss: seq<State>, aa: seq<Action>)
    requires IsRun(states, actions, unit) && Enabled(states[|actions|], a)
    ensures IsRun(ss, aa, unit) && |aa| == |actions| + 1 && ss[0] == states[0]
    ensures ss[|aa|] == Step(states[|actions|], a, unit) && aa == actions + [a]
  {
    ss, aa := states + [Step(states[|actions|], a, unit)], actions + [a];
    forall i | 0 <= i < |aa| ensures Follows(ss, aa, unit, i) {
      if i < |actions| { assert Follows(states, actions, unit, i); }
    }
  }

  /** One worker in an otherwise idle process, with at most one mutex in the table. */
  function Alone(th: Thread, create: Option<Worker>, locks: map<Trade, MutexId>, mutexes: seq<Mutex>, db: Store): State {
    State([th], create, locks, mutexes, db)
  }

  /** The single worker takes a step. */
  lemma Advance(states: seq<State>, actions: seq<Action>, unit: real, o: Outcome, next: State)
    returns (ss: seq<State>, aa: seq<Action>)
    requires IsRun(states, actions, unit) && CanRun(states[|actions|], 0)
    requires next == RunThread(states[|actions|], 0, o, unit)
    ensures IsRun(ss, aa, unit) && ss[0] == states[0] && ss[|aa|] == next
    ensures FailureFree(actions) && o == Ok ==> FailureFree(aa)
  {
    ss, aa := Extend(states, actions, unit, Run(0, o));
  }

  lemma Locks(states: seq<State>, actions: seq<Action>, unit: real, t: Trade, job: Job, db: Store)
    returns (ss: seq<State>, aa: seq<Action>)
    requires IsRun(states, actions, unit)
    requires states[|actions|] == Alone(Thread(t, job, WantCreate), None, map[], [], db)
    ensures IsRun(ss, aa, unit) && ss[0] == states[0] && (FailureFree(actions) ==> FailureFree(aa))
    ensures ss[|aa|] == Alone(Thread(t, job, Reading), None, map[t := 0], [Mutex(Some(0), 1)], db)
  {
    ss, aa := Advance(states, actions, unit, Ok, Alone(Thread(t, job, Loading), Some(0), map[], [], db));
    ss, aa := Advance(ss, aa, unit, Ok, Alone(Thread(t, job, Storing), Some(0), map[], [], db));
    ss, aa := Advance(ss, aa, unit, Ok, Alone(Thread(t, job, Counting(0)), Some(0), map[t := 0], [Mutex(None, 0)], db));
    ss, aa := Advance(ss, aa, unit, Ok, Alone(Thread(t, job, Leaving(0)), Some(0), map[t := 0], [Mutex(None, 1)], db));
    ss, aa := Advance(ss, aa, unit, Ok, Alone(Thread(t, job, WantOrder(0)), None, map[t := 0], [Mutex(None, 1)], db));
    ss, aa := Advance(ss, aa, unit, Ok, Alone(Thread(t, job, Reading), None, map[t := 0], [Mutex(Some(0), 1)], db));
  }

  /** The row is saved and the quota is not added: the store call fails, or there is no user. */
  lemma SavesAndFails(states: seq<State>, actions: seq<Action>, unit: real, t: Trade, via: string, db: Store, o: Outcome)
    returns (ss: seq<State>, aa: seq<Action>)
    requires IsRun(states, actions, unit) && WasPending(db, t)
    requires o == FailBefore || (o == Ok && db.topUps[t].user !in db.balances)
    requires states[|actions|]
          == Alone(Thread(t, Webhook(via), Reading), None, map[t := 0], [Mutex(Some(0), 1)], db)
    ensures IsRun(ss, aa, unit) && ss[0] == states[0] && (FailureFree(actions) && o == Ok ==> FailureFree(aa))
    ensures ss[|aa|] == Alone(Thread(t, Webhook(via), Finding), None, map[t := 0], [Mutex(Some(0), 1)], Lost(db, t, via))
  {
    var job, locks, mutexes := Webhook(via), map[t := 0], [Mutex(Some(0), 1)];
    var row := db.topUps[t].(paymentMethod := via, status := Success);
    ss, aa := Advance(states, actions, unit, Ok, Alone(Thread(t, job, Saving(row)), None, locks, mutexes, db));
    ss, aa := Advance(ss, aa, unit, Ok, Alone(Thread(t, job, Crediting(row)), None, locks, mutexes, Save(db, t, row)));
    ss, aa := Advance(ss, aa, unit, o, Alone(Thread(t, job, Finding), None, locks, mutexes, Lost(db, t, via)));
  }

  function Lost(db: Store, t: Trade, paymentMethod: string): Store
    requires t in db.topUps
  {
    var saved := Save(db, t, db.topUps[t].(paymentMethod := paymentMethod, status := Success));
    saved.(lost := saved.lost + {t})
  }

  lemma Releases(states: seq<State>, actions: seq<Action>, unit: real, t: Trade, job: Job, db: Store)
    returns (ss: seq<State>, aa: seq<Action>)
    requires IsRun(states, actions, unit)
    requires states[|actions|] == Alone(Thread(t, job, Finding), None, map[t := 0], [Mutex(Some(0), 1)], db)
    ensures IsRun(ss, aa, unit) && ss[0] == states[0] && (FailureFree(actions) ==> FailureFree(aa))
    ensures ss[|aa|] == Alone(Thread(t, job, WantDrop(0)), None, map[t := 0], [Mutex(None, 1)], db)
  {
    ss, aa := Advance(states, actions, unit, Ok, Alone(Thread(t, job, Releasing(0)), None, map[t := 0], [Mutex(Some(0), 1)], db));
    ss, aa := Advance(ss, aa, unit, Ok, Alone(Thread(t, job, WantDrop(0)), None, map[t := 0], [Mutex(None, 1)], db));
  }

  lemma Decrements(states: seq<State>, actions: seq<Action>, unit: real, t: Trade, job: Job, db: Store)
    returns (ss: seq<State>, aa: seq<Action>)
    requires IsRun(states, actions, unit)
    requires states[|actions|] == Alone(Thread(t, job, WantDrop(0)), None, map[t := 0], [Mutex(None, 1)], db)
    ensures IsRun(ss, aa, unit) && ss[0] == states[0] && (FailureFree(actions) ==> FailureFree(aa))
    ensures ss[|aa|] == Alone(Thread(t, job, Testing(0)), Some(0), map[t := 0], [Mutex(None, 0)], db)
  {
    ss, aa := Advance(states, actions, unit, Ok, Alone(Thread(t, job, Dropping(0)), Some(0), map[t := 0], [Mutex(None, 1)], db));
    ss, aa := Advance(ss, aa, unit, Ok, Alone(Thread(t, job, Testing(0)), Some(0), map[t := 0], [Mutex(None, 0)], db));
  }

  lemma Leaves(states: seq<State>, actions: seq<Action>, unit: real, t: Trade, job: Job, db: Store)
    returns (ss: seq<State>, aa: seq<Action>)
    requires IsRun(states, actions, unit)
    requires states[|actions|] == Alone(Thread(t, job, Testing(0)), Some(0), map[t := 0], [Mutex(None, 0)], db)
    ensures IsRun(ss, aa, unit) && ss[0] == states[0] && (FailureFree(actions) ==> FailureFree(aa))
    ensures ss[|aa|] == Alone(Thread(t, job, Done), None, map[], [Mutex(None, 0)], db)
  {
    ss, aa := Advance(states, actions, unit, Ok, Alone(Thread(t, job, Deleting), Some(0), map[t := 0], [Mutex(None, 0)], db));
    var emptied := map[t := 0] - {t};
    assert emptied == map[];
    ss, aa := Advance(ss, aa, unit, Ok, Alone(Thread(t, job, Closing), Some(0), emptied, [Mutex(None, 0)], db));
    ss, aa := Advance(ss, aa, unit, Ok, Alone(Thread(t, job, Done), None, map[], [Mutex(None, 0)], db));
  }

  /** One webhook from an idle process on, losing the credit. */
  lemma WebhookInVain(states: seq<State>, actions: seq<Action>, t: Trade, via: string, unit: real, o: Outcome)
    returns (ss: seq<State>, aa: seq<Action>)
    requires IsRun(states, actions, unit)
    requires
      var s := states[|actions|];
      && s.threads == [] && s.create == None && s.locks == map[] && s.mutexes == [] && WasPending(s.db, t)
      && (o == FailBefore || (o == Ok && s.db.topUps[t].user !in s.db.balances))
    ensures IsRun(ss, aa, unit) && ss[0] == states[0] && (FailureFree(actions) && o == Ok ==> FailureFree(aa))
    ensures ss[|aa|] == Alone(Thread(t, Webhook(via), Done), None, map[], [Mutex(None, 0)], Lost(states[|actions|].db, t, via))
  {
    var db, job := states[|actions|].db, Webhook(via);
    ss, aa := Extend(states, actions, unit, Spawn(t, job));
    assert ss[|aa|] == Alone(Thread(t, job, WantCreate), None, map[], [], db);
    ss, aa := Locks(ss, aa, unit, t, job, db);
    ss, aa := SavesAndFails(ss, aa, unit, t, via, db, o);
    ss, aa := Releases(ss, aa, unit, t, job, Lost(db, t, via));
    ss, aa := Decrements(ss, aa, unit, t, job, Lost(db, t, via));
    ss, aa := Leaves(ss, aa, unit, t, job, Lost(db, t, via));
  }

  ghost predicate EndsUncredited(end: State, t: Trade) {
    && (forall w :: 0 <= w < |end.threads| ==> end.threads[w].pc.Done?)
    && Paid(end.db, t) && t in end.db.lost && end.db.credits == []
  }

  /** From every idle state with a pending Epay order there is a run that ends with all workers done, the
      order paid, no credit and every balance as it was. */
  lemma CreditCanBeLost(s: State, t: Trade, paymentMethod: string, unit: real)
    returns (states: seq<State>, actions: seq<Action>)
    requires Initial(s) && WasPending(s.db, t)
    ensures IsRun(states, actions, unit) && states[0] == s
    ensures EndsUncredited(states[|actions|], t) && states[|actions|].db.balances == s.db.balances
  {
    states, actions := WebhookInVain([s], [], t, paymentMethod, unit, FailBefore);
  }

  /** When the user is deleted before the payment arrives, the credit is lost although no store call
      reports an error, and the order can never be credited. */
  lemma DeletedUserLoses(s: State, t: Trade, paymentMethod: string, unit: real)
    returns (states: seq<State>, actions: seq<Action>)
    requires Initial(s) && WasPending(s.db, t)
    ensures IsRun(states, actions, unit) && states[0] == s && FailureFree(actions)
    ensures EndsUncredited(states[|actions|], t)
  {
    var u := s.db.topUps[t].user;
    states, actions := [s], [];
    if u in s.db.balances {
      states, actions := Extend(states, actions, unit, Leave(u));
    }
    states, actions := WebhookInVain(states, actions, t, paymentMethod, unit, Ok);
  }
}
