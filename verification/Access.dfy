/** Who has access: the decision of the feed, the SQL filter of the reconcile worker, and
    the revisions that order the events of one user. */
module Access {
  import opened Prelude
  import opened Subscription
  import Ledger = GrantLedger

  /** accessAllowed, used by the feed: NULL denies. */
  predicate AccessAllowed(row: Row, now: int) {
    match row.status
    case Trial => row.expiresAt.Some? && row.expiresAt.value > now
    case Active => row.expiresAt.Some? && row.expiresAt.value > now
    case Grace => row.graceUntil.Some? && row.graceUntil.value > now
    case _ => false
  }

  /** The WHERE clause of the reconcile worker: NULL admits. */
  predicate Reconciled(row: Row, now: int) {
    || ((row.status.Trial? || row.status.Active?) && (row.expiresAt.None? || row.expiresAt.value > now))
    || (row.status.Grace? && (row.graceUntil.None? || row.graceUntil.value > now))
  }

  /** Every status but the initial one has an end, and a grace has its own. */
  predicate Timed(row: Row) {
    && (!row.status.NoPlan? ==> row.expiresAt.Some?)
    && (row.status.Grace? ==> row.graceUntil.Some?)
  }

  /** The two disagree exactly on a row whose deciding column is NULL. */
  lemma NullIsTheOnlyDifference(row: Row, now: int)
    ensures (AccessAllowed(row, now) <==> Reconciled(row, now))
            <==> !((row.status.Trial? || row.status.Active?) && row.expiresAt.None?)
                 && !(row.status.Grace? && row.graceUntil.None?)
  {
  }

  // ---------------------------------------------------------------- what every step keeps

  /** Kinds whose transaction raises the revision. */
  predicate Raises(kind: EventKind) {
    kind.TrialStarted? || kind.Activated? || kind.Suspended?
  }

  ghost predicate Advances(w: World, after: World, user: int) {
    && (forall u :: u != user ==> RowOf(after, u) == RowOf(w, u))
    && RowOf(after, user).accessRev >= RowOf(w, user).accessRev
    && (Timed(RowOf(w, user)) ==> Timed(RowOf(after, user)))
    && w.events <= after.events && |after.events| <= |w.events| + 1
    && (|after.events| > |w.events| ==>
          var e := after.events[|w.events|];
          && e.user == user && e.rev == RowOf(after, user).accessRev
          && (Raises(e.kind) ==> e.rev > RowOf(w, user).accessRev))
  }

  lemma TrialAdvances(w: World, user: int, days: int, t: Clock)
    ensures Advances(w, HandleTrial(w, user, days, t), user)
  {
  }

  lemma PaymentAdvances(w: World, user: int, plan: string, days: int, paymentId: string, autoRenew: bool, t: Clock)
    ensures Advances(w, HandlePayment(w, user, plan, days, paymentId, autoRenew, t), user)
  {
  }

  lemma OnceAdvances(w: World, user: int, messageId: string, fate: Fate, handled: World)
    requires Advances(w, handled, user)
    ensures Advances(w, ProcessOnce(w, messageId, fate, handled), user)
  {
  }

  lemma RedeemAdvances(w: World, user: int, usersPerMonth: int, daysPerMonth: int, t: Clock)
    ensures Advances(w, HandleRedeem(w, user, usersPerMonth, daysPerMonth, t), user)
  {
  }

  lemma CancelAdvances(w: World, user: int, t: Clock)
    ensures Advances(w, HandleCancel(w, user, t), user)
  {
  }

  lemma RowOnlyAdvances(w: World, op: Op)
    requires op.AutoRenewDisabled? || op.GraceStart? || op.AccessExpired? || op.ReadStatus?
    ensures Advances(w, Step(w, op), op.user)
  {
  }

  lemma DeliveryAdvances(w: World, op: Op)
    requires op.PaymentSucceeded?
    ensures Advances(w, Step(w, op), op.user)
  {
    PaymentAdvances(w, op.user, op.plan, op.days, op.paymentId, op.autoRenew, op.t);
    OnceAdvances(w, op.user, op.messageId, op.fate,
                 HandlePayment(w, op.user, op.plan, op.days, op.paymentId, op.autoRenew, op.t));
  }

  lemma StepAdvances(w: World, op: Op)
    ensures Advances(w, Step(w, op), Ledger.OpUser(op))
  {
    match op
    case StartTrialCmd(user, days, t) => TrialAdvances(w, user, days, t);
    case PaymentSucceeded(_, _, _, _, _, _, _, _) => DeliveryAdvances(w, op);
    case RedeemCmd(user, usersPerMonth, daysPerMonth, t) => RedeemAdvances(w, user, usersPerMonth, daysPerMonth, t);
    case CancelCmd(user, t) => CancelAdvances(w, user, t);
    case AutoRenewDisabled(_, _) => RowOnlyAdvances(w, op);
    case GraceStart(_, _, _) => RowOnlyAdvances(w, op);
    case AccessExpired(_, _, _) => RowOnlyAdvances(w, op);
    case ReadStatus(_, _) => RowOnlyAdvances(w, op);
    case AttributeCmd(_, _) =>
    case Purge(_) =>
  }

  // ---------------------------------------------------------------- every run

  ghost predicate AllTimed(w: World) {
    forall u :: Timed(RowOf(w, u))
  }

  /** Events of a user carry ascending revisions up to the row's; the raising kinds carry
      more than everything before. */
  ghost predicate EventsOrdered(w: World) {
    && (forall i :: 0 <= i < |w.events| ==> w.events[i].rev <= RowOf(w, w.events[i].user).accessRev)
    && (forall i, j :: 0 <= i < j < |w.events| && w.events[i].user == w.events[j].user ==>
          w.events[i].rev <= w.events[j].rev
          && (Raises(w.events[j].kind) ==> w.events[i].rev < w.events[j].rev))
  }

  lemma AdvanceKeeps(w: World, after: World, user: int)
    requires AllTimed(w) && EventsOrdered(w) && Advances(w, after, user)
    ensures AllTimed(after) && EventsOrdered(after)
  {
  }

  lemma {:induction false} RunKeeps(w: World, ops: seq<Op>)
    requires AllTimed(w) && EventsOrdered(w)
    ensures AllTimed(Run(w, ops)) && EventsOrdered(Run(w, ops))
    decreases |ops|
  {
    if ops != [] {
      StepAdvances(w, ops[0]);
      AdvanceKeeps(w, Step(w, ops[0]), Ledger.OpUser(ops[0]));
      RunKeeps(Step(w, ops[0]), ops[1..]);
    }
  }

  /** On every reachable row, at every instant, the worker re-provisions exactly the users
      the feed would serve. */
  lemma ReconcileAgreesWithFeed(ops: seq<Op>, user: int, now: int)
    ensures AccessAllowed(RowOf(Run(EMPTY, ops), user), now) <==> Reconciled(RowOf(Run(EMPTY, ops), user), now)
  {
    RunKeeps(EMPTY, ops);
    NullIsTheOnlyDifference(RowOf(Run(EMPTY, ops), user), now);
  }

  /** Trial, activation and suspension events of a user carry strictly ascending revisions
      over every run. */
  lemma RaisingEventsAscend(ops: seq<Op>, i: nat, j: nat)
    requires i < j < |Run(EMPTY, ops).events|
    requires Run(EMPTY, ops).events[i].user == Run(EMPTY, ops).events[j].user
    ensures var events := Run(EMPTY, ops).events;
            && events[i].rev <= events[j].rev
            && (Raises(events[j].kind) ==> events[i].rev < events[j].rev)
  {
    RunKeeps(EMPTY, ops);
  }

  // ---------------------------------------------------------------- trial, grace, referral

  /** A trial on top of a running payment adds its days and leaves what was paid for; the
      end of access never moves back; in grace the trial is kept for later. */
  lemma TrialKeepsWhatIsPaid(w: World, user: int, days: int, t: Clock)
    requires days > 0 && t.last < t.now + days * DAY
    ensures var (after, outcome) := StartTrial(w, user, days, t);
            var was, row := Seen(w, user, t.first).subs[user], RowOf(after, user);
            && (outcome.TrialOnTopOfPaid? ==>
                  && PaidActive(was, t.now)
                  && (row.planCode, row.lastPaymentId, row.autoRenew, row.cancelAtPeriodEnd, row.canceledAt)
                     == (was.planCode, was.lastPaymentId, was.autoRenew, was.cancelAtPeriodEnd, was.canceledAt)
                  && row.expiresAt == Some(was.expiresAt.value + days * DAY))
            && (outcome.TrialDone? ==>
                  row.planCode == Some(TRIAL_PLAN) && row.lastPaymentId.None? && !row.autoRenew
                  && !PaidActive(was, t.now))
            && (outcome.TrialDone? || outcome.TrialOnTopOfPaid? ==>
                  row.trialUsed && row.expiresAt == Some(Extend(was.expiresAt, t.now, days)))
            && (outcome.TrialDeferredGrace? <==> !was.trialUsed && was.status.Grace?)
            && (outcome.TrialDeferredGrace? ==> row == was && after.log == w.log)
  {
  }

  /** A payment may switch automatic renewal on and lift a pending cancellation, never the
      reverse; it gives access from now to the prolonged end. */
  lemma PaymentGivesAccess(w: World, user: int, plan: string, days: int, paymentId: string, autoRenew: bool, t: Clock,
                           at: int)
    requires ActivatePaid(w, user, plan, days, paymentId, autoRenew, t).1.Applied?
    requires t.now <= t.last < t.now + days * DAY
    ensures var was := Seen(w, user, t.first).subs[user];
            var row := RowOf(ActivatePaid(w, user, plan, days, paymentId, autoRenew, t).0, user);
            && row.status.Active? && row.planCode == Some(plan) && row.lastPaymentId == Some(paymentId)
            && (AccessAllowed(row, at) <==> at < Extend(was.expiresAt, t.now, days))
            && row.autoRenew == (was.autoRenew || autoRenew)
            && (autoRenew ==> !row.cancelAtPeriodEnd) && (!autoRenew ==> row.cancelAtPeriodEnd == was.cancelAtPeriodEnd)
  {
  }

  /** A redemption in grace prolongs the period but not the access: the user keeps access to
      the new end exactly if he is not in grace, or the grace outlasts it. */
  lemma RedeemInGraceGivesNoAccess(w: World, user: int, usersPerMonth: int, daysPerMonth: int, now: int)
    requires Timed(RowOf(w, user)) && Redeem(w, user, usersPerMonth, daysPerMonth, now).1 > 0
    ensures var was := RowOf(w, user);
            var row := RowOf(Redeem(w, user, usersPerMonth, daysPerMonth, now).0, user);
            && row.expiresAt.Some? && row.expiresAt.value > now
            && ((forall at :: now <= at < row.expiresAt.value ==> AccessAllowed(row, at))
                <==> !was.status.Grace? || was.graceUntil.value >= row.expiresAt.value)
  {
    Ledger.RedeemShape(w, user, usersPerMonth, daysPerMonth, now);
    var was := RowOf(w, user);
    var row := RowOf(Redeem(w, user, usersPerMonth, daysPerMonth, now).0, user);
    var last := row.expiresAt.value - 1;
    assert AccessAllowed(row, last) <==> !was.status.Grace? || was.graceUntil.value >= row.expiresAt.value;
  }

  /** The grace event is published whatever happened to the row. It tells the truth exactly
      if the row was active or in grace and the announced grace is not over already. */
  lemma GraceEventTellsTheTruth(w: World, user: int, graceUntil: int, t: Clock)
    ensures var after := Step(w, GraceStart(user, graceUntil, t));
            && |after.events| == |w.events| + 1
            && after.events[|w.events|].until == Some(graceUntil)
            && (RowOf(after, user).status.Grace? && RowOf(after, user).graceUntil == Some(graceUntil)
                <==> (RowOf(w, user).status.Active? || RowOf(w, user).status.Grace?) && graceUntil > t.last)
  {
  }

  /** An expired subscription is not revived by a late grace. */
  lemma GraceDoesNotRevive(w: World, user: int, graceUntil: int, t: Clock, at: int)
    requires RowOf(w, user).status.Expired? || RowOf(w, user).status.NoPlan?
    ensures !AccessAllowed(RowOf(Step(w, GraceStart(user, graceUntil, t)), user), at)
  {
  }
}
