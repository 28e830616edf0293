/** What each handler step does to the store, exactly, and that orders are served: a pending order that a
    worker has handled without failures is paid and its user's balance raised by its credit. */
module OrderEffects {
  import opened Wrappers
  import opened OrderProtocol
  import opened OrderLockProof
  import opened OrderCreditProof

  /** One balance grows by d, if its user has one; the others stay. */
  ghost predicate Raised(before: map<User, int>, after: map<User, int>, u: User, d: int) {
    forall v: User ::
      && (v in after <==> v in before)
      && (v in before && v in after ==> after[v] == before[v] + if v == u then d else 0)
  }

  // -------------------------------------------------------- an administrator's completion

  predicate Completes(db: Store, t: Trade, unit: real, o: Outcome) {
    t in db.topUps && db.topUps[t].status == Pending && o != FailBefore && CreditOf(db.topUps[t], unit) > 0
  }

  /** The effect of completing an order: it is paid, and an Epay order is settled and either credited to
      its user's balance or lost; an order of another provider raises the balance as another change. */
  ghost predicate Completed(db: Store, db': Store, t: Trade, unit: real)
    requires t in db.topUps
  {
    var row := db.topUps[t];
    var here := row.user in db.balances;
    && db'.topUps == db.topUps[t := row.(status := Success)] && db'.users == db.users
    && Raised(db.balances, db'.balances, row.user, CreditOf(row, unit))
    && (row.provider == EPAY ==>
          && db'.settled == db.settled + {t} && db'.other == db.other
          && db'.credits == (if here then db.credits + [t] else db.credits)
          && db'.lost == (if here then db.lost else db.lost + {t}))
    && (row.provider != EPAY ==>
          && db'.settled == db.settled && db'.credits == db.credits && db'.lost == db.lost
          && Raised(db.other, db'.other, row.user, CreditOf(row, unit)))
  }

  lemma AdminEffect(s: State, w: Worker, o: Outcome, unit: real)
    requires CanRun(s, w) && s.threads[w].pc.Reading? && s.threads[w].job.AdminComplete?
    ensures
      var t, s' := s.threads[w].trade, Step(s, Run(w, o), unit);
      && s'.threads[w].pc == Finding
      && (Completes(s.db, t, unit, o) ==> Completed(s.db, s'.db, t, unit))
      && (!Completes(s.db, t, unit, o) ==> s'.db == s.db)
  {
  }

  // ----------------------------------------------------------------------- a webhook

  /** Reading changes nothing and goes on exactly with a pending Epay order. */
  lemma WebhookReadsExactly(s: State, w: Worker, o: Outcome, unit: real)
    requires CanRun(s, w) && s.threads[w].pc.Reading? && s.threads[w].job.Webhook?
    ensures
      var t, s' := s.threads[w].trade, Step(s, Run(w, o), unit);
      && s'.db == s.db
      && (if o == Ok && WasPending(s.db, t)
          then s'.threads[w].pc
            == Saving(s.db.topUps[t].(paymentMethod := s.threads[w].job.paymentMethod, status := Success))
          else s'.threads[w].pc == Finding)
  {
  }

  /** Saving writes the row unless it fails first, and goes on exactly when no error is reported. */
  lemma WebhookSavesExactly(s: State, w: Worker, o: Outcome, unit: real)
    requires CanRun(s, w) && s.threads[w].pc.Saving?
    ensures
      var t, row, s' := s.threads[w].trade, s.threads[w].pc.row, Step(s, Run(w, o), unit);
      && s'.db.topUps == (if o == FailBefore then s.db.topUps else s.db.topUps[t := row])
      && s'.db.settled == (if o == FailBefore then s.db.settled else s.db.settled + {t})
      && s'.db.balances == s.db.balances && s'.db.other == s.db.other && s'.db.credits == s.db.credits
      && s'.threads[w].pc == (if o == Ok then Crediting(row) else Finding)
  {
  }

  /** Crediting raises the balance by exactly the credit, unless it fails first, is negative, or there is
      no balance. */
  lemma WebhookCreditsExactly(s: State, w: Worker, o: Outcome, unit: real)
    requires CanRun(s, w) && s.threads[w].pc.Crediting?
    ensures
      var t, row, s' := s.threads[w].trade, s.threads[w].pc.row, Step(s, Run(w, o), unit);
      var reached := o != FailBefore && CreditOf(row, unit) >= 0 && row.user in s.db.balances;
      && s'.db.topUps == s.db.topUps && s'.db.settled == s.db.settled && s'.db.other == s.db.other
      && s'.db.credits == (if reached then s.db.credits + [t] else s.db.credits)
      && Raised(s.db.balances, s'.db.balances, row.user, if reached then CreditOf(row, unit) else 0)
      && s'.threads[w].pc == Finding
  {
  }

  // ------------------------------------------------------------------ over whole runs

  /** The step that settles an order: saving it, or completing it. */
  predicate Settles(s: State, a: Action, unit: real, t: Trade) {
    && a.Run? && a.w < |s.threads| && s.threads[a.w].trade == t
    && match s.threads[a.w].pc
       case Saving(_) => a.outcome != FailBefore
       case Reading =>
         s.threads[a.w].job.AdminComplete? && WasPending(s.db, t) && Completes(s.db, t, unit, a.outcome)
       case _ => false
  }

  /** The step that credits one. */
  predicate Credits(s: State, a: Action, unit: real, t: Trade) {
    && a.Run? && a.w < |s.threads| && s.threads[a.w].trade == t
    && match s.threads[a.w].pc
       case Crediting(row) => a.outcome != FailBefore && CreditOf(row, unit) >= 0 && row.user in s.db.balances
       case Reading => Settles(s, a, unit, t) && s.db.topUps[t].user in s.db.balances
       case _ => false
  }

  lemma StepSettles(s: State, a: Action, unit: real, t: Trade)
    requires Enabled(s, a)
    ensures t in Step(s, a, unit).db.settled <==> t in s.db.settled || Settles(s, a, unit, t)
    ensures t in Step(s, a, unit).db.credits <==> t in s.db.credits || Credits(s, a, unit, t)
  {
    if a.Run? {
      var w, o := a.w, a.outcome;
      var pc := s.threads[w].pc;
      if pc.Reading? {
        if s.threads[w].job.AdminComplete? { AdminEffect(s, w, o, unit); } else { WebhookReadsExactly(s, w, o, unit); }
      } else if pc.Saving? {
        WebhookSavesExactly(s, w, o, unit);
      } else if pc.Crediting? {
        WebhookCreditsExactly(s, w, o, unit);
      } else {
        LockStepKeeps(s, w, o, unit);
      }
    }
  }

  ghost predicate SettledBefore(states: seq<State>, actions: seq<Action>, unit: real, i: nat, t: Trade)
    requires |states| == |actions| + 1 && i <= |actions|
  {
    exists j :: 0 <= j < i && Settles(states[j], actions[j], unit, t)
  }

  ghost predicate CreditedBefore(states: seq<State>, actions: seq<Action>, unit: real, i: nat, t: Trade)
    requires |states| == |actions| + 1 && i <= |actions|
  {
    exists j :: 0 <= j < i && Credits(states[j], actions[j], unit, t)
  }

  /** An order is settled, and credited, exactly when a step of the run did it. */
  lemma {:induction false} SettledIff(states: seq<State>, actions: seq<Action>, unit: real, i: nat, t: Trade)
    requires IsRun(states, actions, unit) && i < |states|
    ensures t in states[i].db.settled <==> SettledBefore(states, actions, unit, i, t)
    ensures t in states[i].db.credits <==> CreditedBefore(states, actions, unit, i, t)
  {
    if i > 0 {
      SettledIff(states, actions, unit, i - 1, t);
      assert Follows(states, actions, unit, i - 1);
      StepSettles(states[i - 1], actions[i - 1], unit, t);
    }
  }

  // --------------------------------------------------------------------- orders are served

  /** The worker has left the handler. */
  predicate Served(pc: Pc) {
    pc.Finding? || pc.Releasing? || pc.WantDrop? || pc.Dropping? || pc.Testing? || pc.Deleting? || pc.Closing? || pc.Done?
  }

  predicate IsEpay(db: Store, t: Trade) { t in db.topUps && db.topUps[t].provider == EPAY }

  /** The order is no longer pending, or an administrator cannot complete it for want of a credit. */
  predicate Handled(db: Store, t: Trade, job: Job, unit: real) {
    IsEpay(db, t) ==>
      db.topUps[t].status != Pending || (job.AdminComplete? && CreditOf(db.topUps[t], unit) <= 0)
  }

  ghost predicate AllHandled(s: State, t: Trade, unit: real) {
    forall w :: 0 <= w < |s.threads| && s.threads[w].trade == t && Served(s.threads[w].pc) ==>
                  Handled(s.db, t, s.threads[w].job, unit)
  }

  /** What was handled stays handled. */
  lemma HandledStays(db: Store, db': Store, t: Trade, job: Job, unit: real)
    requires IsEpay(db, t) && Lifecycle(db, db', t) && Handled(db, t, job, unit)
    ensures Handled(db', t, job, unit)
  {
  }

  /** A worker that leaves the handler in a step without failure has handled its order. */
  lemma LeavesHandled(s: State, w: Worker, unit: real, start: map<User, int>)
    requires CreditInv(s, start, unit) && CanRun(s, w) && !Served(s.threads[w].pc)
    requires Served(Step(s, Run(w, Ok), unit).threads[w].pc)
    ensures Handled(Step(s, Run(w, Ok), unit).db, s.threads[w].trade, s.threads[w].job, unit)
  {
    var pc := s.threads[w].pc;
    assert Guarded(s, w);
    if pc.Reading? {
      if s.threads[w].job.AdminComplete? { AdminEffect(s, w, Ok, unit); } else { WebhookReadsExactly(s, w, Ok, unit); }
    } else if pc.Saving? {
      WebhookSavesExactly(s, w, Ok, unit);
    } else if pc.Crediting? {
      WebhookCreditsExactly(s, w, Ok, unit);
    }
  }

  /** A step moves one worker at most. */
  lemma OthersStay(s: State, a: Action, unit: real)
    requires Enabled(s, a)
    ensures
      var ts := Step(s, a, unit).threads;
      && |ts| >= |s.threads|
      && (forall v :: 0 <= v < |s.threads| ==> ts[v].trade == s.threads[v].trade && ts[v].job == s.threads[v].job)
      && (forall v :: 0 <= v < |s.threads| && !(a.Run? && a.w == v) ==> ts[v] == s.threads[v])
      && (forall v :: |s.threads| <= v < |ts| ==> !Served(ts[v].pc))
  {
    if a.Run? { RankDrops(s, a.w, a.outcome, unit); }
  }

  lemma StepHandles(s: State, a: Action, unit: real, start: map<User, int>, t: Trade)
    requires CreditInv(s, start, unit) && Enabled(s, a) && (a.Run? ==> a.outcome == Ok)
    requires IsEpay(s.db, t) && Lifecycle(s.db, Step(s, a, unit).db, t) && AllHandled(s, t, unit)
    ensures AllHandled(Step(s, a, unit), t, unit)
  {
    var s' := Step(s, a, unit);
    OthersStay(s, a, unit);
    forall w | 0 <= w < |s'.threads| && s'.threads[w].trade == t && Served(s'.threads[w].pc)
      ensures Handled(s'.db, t, s'.threads[w].job, unit)
    {
      if Served(s.threads[w].pc) {
        HandledStays(s.db, s'.db, t, s.threads[w].job, unit);
      } else {
        LeavesHandled(s, w, unit, start);
      }
    }
  }

  lemma {:induction false} RunHandles(states: seq<State>, actions: seq<Action>, unit: real, i: nat, t: Trade)
    requires IsRun(states, actions, unit) && FailureFree(actions) && i < |states| && IsEpay(states[0].db, t)
    ensures IsEpay(states[i].db, t) && AllHandled(states[i], t, unit)
    ensures states[i].db.topUps[t].user == states[0].db.topUps[t].user
    ensures states[i].db.topUps[t].amount == states[0].db.topUps[t].amount
    ensures WasPending(states[0].db, t) ==> WasPending(states[i].db, t) || t in states[i].db.settled
  {
    if i > 0 {
      RunHandles(states, actions, unit, i - 1, t);
      assert Follows(states, actions, unit, i - 1);
      CreditRun(states, actions, unit, i - 1);
      OrderLifecycle(states, actions, unit, i - 1, t);
      StepHandles(states[i - 1], actions[i - 1], unit, states[0].db.balances, t);
      if WasPending(states[i - 1].db, t) { LeavesPending(states[i - 1], actions[i - 1], unit, t); }
    }
  }

  /** An Epay order leaves the pending state only by being settled. */
  lemma LeavesPending(s: State, a: Action, unit: real, t: Trade)
    requires Enabled(s, a) && WasPending(s.db, t)
    ensures WasPending(Step(s, a, unit).db, t) || t in Step(s, a, unit).db.settled
  {
    if a.Run? {
      var w, o := a.w, a.outcome;
      var pc := s.threads[w].pc;
      if pc.Reading? {
        if s.threads[w].job.AdminComplete? { AdminEffect(s, w, o, unit); } else { WebhookReadsExactly(s, w, o, unit); }
      } else if pc.Saving? {
        WebhookSavesExactly(s, w, o, unit);
      } else if pc.Crediting? {
        WebhookCreditsExactly(s, w, o, unit);
      } else {
        LockStepKeeps(s, w, o, unit);
      }
    }
  }

  /** A pending Epay order with a positive credit that some worker has handled, in a run without failures
      in which its user keeps a balance, is paid and credited once all workers are done. */
  lemma ServedIsCredited(states: seq<State>, actions: seq<Action>, unit: real, i: nat, t: Trade, w: Worker)
    requires IsRun(states, actions, unit) && FailureFree(actions) && i < |states| && WasPending(states[0].db, t)
    requires CreditOf(states[0].db.topUps[t], unit) > 0
    requires forall j :: 0 <= j <= i ==> states[0].db.topUps[t].user in states[j].db.balances
    requires forall v :: 0 <= v < |states[i].threads| ==> states[i].threads[v].pc.Done?
    requires w < |states[i].threads| && states[i].threads[w].trade == t
    ensures Paid(states[i].db, t) && t in states[i].db.credits
  {
    RunHandles(states, actions, unit, i, t);
    CreditRun(states, actions, unit, i);
    assert Handled(states[i].db, t, states[i].threads[w].job, unit);
    if LostBefore(states, actions, unit, i, t) {
      NothingLost(states, actions, unit, i, t);
      assert false;
    }
    CreditedIff(states, actions, unit, i, t);
  }

  lemma NothingLost(states: seq<State>, actions: seq<Action>, unit: real, i: nat, t: Trade)
    requires IsRun(states, actions, unit) && FailureFree(actions) && i < |states| && WasPending(states[0].db, t)
    requires CreditOf(states[0].db.topUps[t], unit) > 0
    requires forall j :: 0 <= j <= i ==> states[0].db.topUps[t].user in states[j].db.balances
    ensures !LostBefore(states, actions, unit, i, t)
  {
    LostIff(states, actions, unit, i, t);
    if t in states[i].db.lost {
      LossNeedsFailure(states, actions, unit, i, t);
      RunHandles(states, actions, unit, i, t);
      assert false;
    }
  }
}
