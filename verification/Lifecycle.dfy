/** When each operation of the ledger goes through, and what it leaves: over every run, in terms of
    the prolongations the run has seen, the access the row gives, and the events sent. */
module Lifecycle {
  import opened Prelude
  import opened Subscription
  import opened Access
  import Ledger = GrantLedger

  // ---------------------------------------------------------------- what the journal says

  /** The user's period was prolonged under this payment id. */
  predicate Paid(log: seq<Extension>, user: int, key: string) {
    exists i :: 0 <= i < |log| && log[i].user == user && log[i].source.FromPayment? && log[i].key == key
  }

  /** The user had his trial. */
  predicate Tried(log: seq<Extension>, user: int) {
    exists i :: 0 <= i < |log| && log[i].user == user && log[i].source.FromTrial?
  }

  /** The journal, the trial flag and the last payment of the rows against the prolongations. */
  ghost predicate Journals(w: World) {
    && (forall u, key :: (u, FromPayment, key) in w.grants <==> key != "" && Paid(w.log, u, key))
    && (forall u, key :: (u, FromTrial, key) in w.grants <==> key == "trial" && Tried(w.log, u))
    && (forall u :: RowOf(w, u).trialUsed <==> Tried(w.log, u))
    && (forall u :: LastIsPaid(RowOf(w, u), w.log, u))
  }

  predicate LastIsPaid(row: Row, log: seq<Extension>, user: int) {
    row.lastPaymentId.Some? && row.lastPaymentId.value != "" ==> Paid(log, user, row.lastPaymentId.value)
  }

  /** Nothing granted. */
  ghost predicate Quiet(w: World, after: World, user: int) {
    && after.log == w.log && after.grants == w.grants
    && RowOf(after, user).trialUsed == RowOf(w, user).trialUsed
    && RowOf(after, user).lastPaymentId == RowOf(w, user).lastPaymentId
  }

  /** One grant, with its entry in the journal. */
  ghost predicate Granting(w: World, after: World, user: int, e: Extension) {
    && after.log == w.log + [e] && e.user == user
    && match e.source
       case FromTrial =>
         && after.grants == w.grants + {(user, FromTrial, "trial")} && RowOf(after, user).trialUsed
         && RowOf(after, user).lastPaymentId in {None, RowOf(w, user).lastPaymentId}
       case FromPayment =>
         && after.grants == (if e.key == "" then w.grants else w.grants + {(user, FromPayment, e.key)})
         && RowOf(after, user).trialUsed == RowOf(w, user).trialUsed
         && RowOf(after, user).lastPaymentId == Some(e.key)
       case FromReferral =>
         && after.grants == w.grants && RowOf(after, user).trialUsed == RowOf(w, user).trialUsed
         && RowOf(after, user).lastPaymentId == RowOf(w, user).lastPaymentId
  }

  ghost predicate Accounts(w: World, after: World, user: int) {
    && (forall u :: u != user ==> RowOf(after, u) == RowOf(w, u))
    && (Quiet(w, after, user) || exists e :: Granting(w, after, user, e))
  }

  lemma PaidThen(log: seq<Extension>, e: Extension, user: int, key: string)
    ensures Paid(log + [e], user, key)
            <==> Paid(log, user, key) || (e.user == user && e.source.FromPayment? && e.key == key)
    ensures Tried(log + [e], user) <==> Tried(log, user) || (e.user == user && e.source.FromTrial?)
  {
    var more := log + [e];
    assert more[|log|] == e;
    assert forall i :: 0 <= i < |log| ==> more[i] == log[i];
  }

  lemma GrantingJournals(w: World, after: World, user: int, e: Extension)
    requires Journals(w) && Granting(w, after, user, e) && forall u :: u != user ==> RowOf(after, u) == RowOf(w, u)
    ensures Journals(after)
  {
    forall u, key
      ensures Paid(after.log, u, key) <==> Paid(w.log, u, key) || (e.user == u && e.source.FromPayment? && e.key == key)
      ensures Tried(after.log, u) <==> Tried(w.log, u) || (e.user == u && e.source.FromTrial?)
    {
      PaidThen(w.log, e, u, key);
    }
    forall u ensures RowOf(after, u).trialUsed <==> Tried(after.log, u) {
      PaidThen(w.log, e, u, "");
    }
  }

  lemma AccountsJournals(w: World, after: World, user: int)
    requires Journals(w) && Accounts(w, after, user)
    ensures Journals(after)
  {
    if !Quiet(w, after, user) {
      var e :| Granting(w, after, user, e);
      GrantingJournals(w, after, user, e);
    }
  }

  lemma TrialAccounts(w: World, user: int, days: int, t: Clock)
    ensures Accounts(w, HandleTrial(w, user, days, t), user)
  {
    var (after, outcome) := StartTrial(w, user, days, t);
    if outcome.TrialDone? || outcome.TrialOnTopOfPaid? {
      assert Granting(w, HandleTrial(w, user, days, t), user, after.log[|w.log|]);
    }
  }

  lemma PaymentAccounts(w: World, user: int, plan: string, days: int, paymentId: string, autoRenew: bool, t: Clock)
    ensures Accounts(w, HandlePayment(w, user, plan, days, paymentId, autoRenew, t), user)
  {
    var (after, outcome) := ActivatePaid(w, user, plan, days, paymentId, autoRenew, t);
    if outcome.Applied? {
      assert Granting(w, HandlePayment(w, user, plan, days, paymentId, autoRenew, t), user, after.log[|w.log|]);
    }
  }

  lemma DeliveryAccounts(w: World, op: Op)
    requires op.PaymentSucceeded?
    ensures Accounts(w, Step(w, op), op.user)
  {
    PaymentAccounts(w, op.user, op.plan, op.days, op.paymentId, op.autoRenew, op.t);
    var handled := HandlePayment(w, op.user, op.plan, op.days, op.paymentId, op.autoRenew, op.t);
    OnceAccounts(w, handled, op.user, op.messageId, op.fate);
  }

  lemma OnceAccounts(w: World, handled: World, user: int, messageId: string, fate: Fate)
    requires Accounts(w, handled, user)
    ensures Accounts(w, ProcessOnce(w, messageId, fate, handled), user)
  {
    var after := ProcessOnce(w, messageId, fate, handled);
    if after != w && !Quiet(w, handled, user) {
      var e :| Granting(w, handled, user, e);
      assert Granting(w, after, user, e);
    }
  }

  lemma RedeemAccounts(w: World, user: int, usersPerMonth: int, daysPerMonth: int, t: Clock)
    ensures Accounts(w, HandleRedeem(w, user, usersPerMonth, daysPerMonth, t), user)
  {
    var (granted, months) := Redeem(w, user, usersPerMonth, daysPerMonth, t.now);
    if months > 0 {
      assert Granting(w, HandleRedeem(w, user, usersPerMonth, daysPerMonth, t), user, granted.log[|w.log|]);
    }
  }

  lemma StepAccounts(w: World, op: Op)
    ensures Accounts(w, Step(w, op), Ledger.OpUser(op))
  {
    match op
    case StartTrialCmd(user, days, t) => TrialAccounts(w, user, days, t);
    case PaymentSucceeded(_, _, _, _, _, _, _, _) => DeliveryAccounts(w, op);
    case RedeemCmd(user, usersPerMonth, daysPerMonth, t) => RedeemAccounts(w, user, usersPerMonth, daysPerMonth, t);
    case _ =>
  }

  lemma {:induction false} RunJournals(w: World, ops: seq<Op>)
    requires Journals(w)
    ensures Journals(Run(w, ops))
    decreases |ops|
  {
    if ops != [] {
      StepAccounts(w, ops[0]);
      AccountsJournals(w, Step(w, ops[0]), Ledger.OpUser(ops[0]));
      RunJournals(Step(w, ops[0]), ops[1..]);
    }
  }

  // ---------------------------------------------------------------- payments

  /** The period of the row runs beyond this instant. */
  function EndOr(row: Row, now: int): int {
    if row.expiresAt.Some? && row.expiresAt.value > now then row.expiresAt.value else now
  }

  /** Neither the message table nor any prolongation the run has seen knows this payment. */
  predicate Unknown(w: World, user: int, paymentId: string) {
    paymentId == "" || ("payment:" + paymentId !in w.processed && !Paid(w.log, user, paymentId))
  }

  lemma AppliedIff(w: World, user: int, plan: string, days: int, paymentId: string, autoRenew: bool, t: Clock)
    requires Journals(w)
    ensures var (after, outcome) := ActivatePaid(w, user, plan, days, paymentId, autoRenew, t);
            && (outcome.Applied? <==> days > 0 && Unknown(w, user, paymentId))
            && (outcome.PaidFailed? ==> days <= 0 && after == w)
            && (outcome.Duplicate? ==> after.log == w.log && RowOf(after, user) == Expire(RowOf(w, user), t.first))
  {
    assert LastIsPaid(RowOf(w, user), w.log, user);
  }

  /** Over every run: a payment with days to give is applied exactly if it has no id, or neither the
      message table nor any prolongation of the run knows it, whatever the row looks like; it never
      fails. A duplicate leaves the row as the read expired it. */
  lemma PaymentAppliedIff(ops: seq<Op>, user: int, plan: string, days: int, paymentId: string, autoRenew: bool,
                          t: Clock)
    ensures var w := Run(EMPTY, ops);
            var (after, outcome) := ActivatePaid(w, user, plan, days, paymentId, autoRenew, t);
            && (outcome.Applied? <==> days > 0 && Unknown(w, user, paymentId))
            && (outcome.PaidFailed? ==> days <= 0 && after == w)
            && (outcome.Duplicate? ==> after.log == w.log && RowOf(after, user) == Expire(RowOf(w, user), t.first))
  {
    RunJournals(EMPTY, ops);
    AppliedIff(Run(EMPTY, ops), user, plan, days, paymentId, autoRenew, t);
  }

  /** A prolongation in the log: where it begins and how long it is. */
  predicate Prolongs(w: World, after: World, user: int, source: Source, key: string, days: int, now: int) {
    && |after.log| == |w.log| + 1
    && var e := after.log[|w.log|];
       && (e.user, e.source, e.key, e.days) == (user, source, key, days)
       && e.start == EndOr(RowOf(w, user), now) && e.until == e.start + days * 86400
       && RowOf(after, user).expiresAt == Some(e.until)
  }

  /** One event of this kind is sent, with the revision of the row and this end. */
  predicate Sends(w: World, after: World, user: int, kind: EventKind, until: Option<int>) {
    && |after.events| == |w.events| + 1
    && var e := after.events[|w.events|];
       (e.user, e.kind, e.rev, e.until) == (user, kind, RowOf(after, user).accessRev, until)
  }

  predicate SendsNothing(w: World, after: World) {
    after.events == w.events
  }

  lemma HandledPayment(w: World, user: int, plan: string, days: int, paymentId: string, autoRenew: bool, t: Clock)
    ensures var after := HandlePayment(w, user, plan, days, paymentId, autoRenew, t);
            if ActivatePaid(w, user, plan, days, paymentId, autoRenew, t).1.Applied? then
              && Prolongs(w, after, user, FromPayment, paymentId, days, t.now)
              && Sends(w, after, user, Activated, RowOf(after, user).expiresAt)
              && after.processed == (if paymentId == "" then w.processed else w.processed + {"payment:" + paymentId})
              && (user in w.referrals ==> user in after.referrals && after.referrals[user].converted)
            else
              && after.log == w.log && SendsNothing(w, after) && after.referrals == w.referrals
              && w.processed <= after.processed <= w.processed + {"payment:" + paymentId}
  {
  }

  lemma MarksDiffer(messageId: string, paymentId: string)
    ensures "user-subscription-service:" + messageId != "payment:" + paymentId
  {
    assert ("user-subscription-service:" + messageId)[0] == 'u' && ("payment:" + paymentId)[0] == 'p';
  }

  /** The handler gets to run. */
  predicate Handled(w: World, op: Op)
    requires op.PaymentSucceeded?
  {
    "user-subscription-service:" + op.messageId !in w.processed && !op.fate.CrashBefore?
  }

  /** Over every run, for each delivery of a payment event with days to give: the user's period is
      prolonged by them, from its end if it runs and from now if not, and the activation is sent,
      exactly if the message is unmarked, the process lives to handle it, and the payment is
      unknown; and the message is marked exactly if it was or the process lives to the end. */
  lemma PaymentDeliveredIff(ops: seq<Op>, op: Op)
    requires op.PaymentSucceeded? && op.days > 0
    ensures var w := Run(EMPTY, ops);
            var after := Step(w, op);
            var mark := "user-subscription-service:" + op.messageId;
            && (if Handled(w, op) && Unknown(w, op.user, op.paymentId) then
                  && Prolongs(w, after, op.user, FromPayment, op.paymentId, op.days, op.t.now)
                  && Sends(w, after, op.user, Activated, RowOf(after, op.user).expiresAt)
                else after.log == w.log && SendsNothing(w, after))
            && (mark in after.processed <==> mark in w.processed || op.fate.Done?)
  {
    RunJournals(EMPTY, ops);
    var w := Run(EMPTY, ops);
    AppliedIff(w, op.user, op.plan, op.days, op.paymentId, op.autoRenew, op.t);
    MarksDiffer(op.messageId, op.paymentId);
    DeliveredOnce(w, op);
  }

  lemma DeliveredOnce(w: World, op: Op)
    requires op.PaymentSucceeded? && op.days > 0
    requires "user-subscription-service:" + op.messageId != "payment:" + op.paymentId
    ensures var after := Step(w, op);
            var mark := "user-subscription-service:" + op.messageId;
            var applied := ActivatePaid(w, op.user, op.plan, op.days, op.paymentId, op.autoRenew, op.t).1.Applied?;
            && (if Handled(w, op) && applied then
                  && Prolongs(w, after, op.user, FromPayment, op.paymentId, op.days, op.t.now)
                  && Sends(w, after, op.user, Activated, RowOf(after, op.user).expiresAt)
                else after.log == w.log && SendsNothing(w, after))
            && (mark in after.processed <==> mark in w.processed || op.fate.Done?)
  {
    HandledPayment(w, op.user, op.plan, op.days, op.paymentId, op.autoRenew, op.t);
    var handled := HandlePayment(w, op.user, op.plan, op.days, op.paymentId, op.autoRenew, op.t);
    assert Step(w, op) == ProcessOnce(w, op.messageId, op.fate, handled);
  }

  /** What a payment leaves besides access: the first start stays, a pending cancellation and a grace
      are gone, the trial flag is as it was, and the revision moves on by one. */
  lemma PaymentLeaves(w: World, user: int, plan: string, days: int, paymentId: string, autoRenew: bool, t: Clock)
    requires ActivatePaid(w, user, plan, days, paymentId, autoRenew, t).1.Applied?
    requires t.now <= t.last < t.now + days * 86400
    ensures var was := Seen(w, user, t.first).subs[user];
            var row := RowOf(HandlePayment(w, user, plan, days, paymentId, autoRenew, t), user);
            && row.startedAt == (if was.startedAt.Some? then was.startedAt else Some(t.now))
            && row.canceledAt.None? && row.graceUntil.None? && row.trialUsed == was.trialUsed
            && row.accessRev == was.accessRev + 1
  {
  }

  /** A redemption revives an expired or new user and touches nothing of the others but their end. */
  lemma RedemptionLeaves(w: World, user: int, usersPerMonth: int, daysPerMonth: int, now: int)
    requires Redeem(w, user, usersPerMonth, daysPerMonth, now).1 > 0
    ensures var was, row := RowOf(w, user), RowOf(Redeem(w, user, usersPerMonth, daysPerMonth, now).0, user);
            && row.status == (if was.status.Expired? || was.status.NoPlan? then Active else was.status)
            && row == was.(status := row.status, expiresAt := row.expiresAt, accessRev := was.accessRev + 1)
  {
  }

  // ---------------------------------------------------------------- trials

  predicate InGrace(row: Row, at: int) {
    row.status.Grace? && AccessAllowed(row, at)
  }

  /** A payment runs at both readings of the clock. */
  predicate PaidThrough(row: Row, t: Clock) {
    row.status.Active? && AccessAllowed(row, t.first) && AccessAllowed(row, t.now)
  }

  lemma TrialIff(w: World, user: int, days: int, t: Clock)
    requires Journals(w) && Timed(RowOf(w, user))
    ensures var outcome := StartTrial(w, user, days, t).1;
            var after := HandleTrial(w, user, days, t);
            var was := RowOf(w, user);
            var granted := days > 0 && !Tried(w.log, user) && !InGrace(was, t.first);
            && (outcome.TrialOnTopOfPaid? <==> granted && PaidThrough(was, t))
            && (outcome.TrialDone? <==> granted && !PaidThrough(was, t))
            && (outcome.TrialAlreadyUsed? <==> days > 0 && Tried(w.log, user))
            && (outcome.TrialDeferredGrace? <==> days > 0 && !Tried(w.log, user) && InGrace(was, t.first))
            && (if granted then
                  && Prolongs(w, after, user, FromTrial, "trial", days, t.now)
                  && Sends(w, after, user, TrialStarted, RowOf(after, user).expiresAt)
                else
                  && after.log == w.log && SendsNothing(w, after)
                  && RowOf(after, user) == if days > 0 then Expire(was, t.first) else was)
  {
    assert (user, FromTrial, "trial") in w.grants <==> Tried(w.log, user);
  }

  /** Over every run: a trial with days to give is granted exactly if the run has not granted the
      user one and he is not in grace, on top of a payment exactly if one runs, and then prolongs
      his period and is announced; otherwise it is refused as used or put off, and gives nothing. */
  lemma TrialGrantedIff(ops: seq<Op>, user: int, days: int, t: Clock)
    ensures var w := Run(EMPTY, ops);
            var outcome := StartTrial(w, user, days, t).1;
            var after := HandleTrial(w, user, days, t);
            var was := RowOf(w, user);
            var granted := days > 0 && !Tried(w.log, user) && !InGrace(was, t.first);
            && (outcome.TrialOnTopOfPaid? <==> granted && PaidThrough(was, t))
            && (outcome.TrialDone? <==> granted && !PaidThrough(was, t))
            && (outcome.TrialAlreadyUsed? <==> days > 0 && Tried(w.log, user))
            && (outcome.TrialDeferredGrace? <==> days > 0 && !Tried(w.log, user) && InGrace(was, t.first))
            && (if granted then
                  && Prolongs(w, after, user, FromTrial, "trial", days, t.now)
                  && Sends(w, after, user, TrialStarted, RowOf(after, user).expiresAt)
                else
                  && after.log == w.log && SendsNothing(w, after)
                  && RowOf(after, user) == if days > 0 then Expire(was, t.first) else was)
  {
    RunJournals(EMPTY, ops);
    Access.RunKeeps(EMPTY, ops);
    TrialIff(Run(EMPTY, ops), user, days, t);
  }

  /** What a trial leaves besides: the first start stays, and a grace that was over is gone. */
  lemma TrialLeaves(w: World, user: int, days: int, t: Clock)
    requires StartTrial(w, user, days, t).1.TrialDone? || StartTrial(w, user, days, t).1.TrialOnTopOfPaid?
    requires t.now <= t.last < t.now + days * 86400
    ensures var was := Seen(w, user, t.first).subs[user];
            var row := RowOf(HandleTrial(w, user, days, t), user);
            && row.startedAt == (if was.startedAt.Some? then was.startedAt else Some(t.now))
            && row.graceUntil.None? && row.trialUsed && row.accessRev == was.accessRev + 1
            && row.status == (if StartTrial(w, user, days, t).1.TrialDone? then Trial else Active)
            && (StartTrial(w, user, days, t).1.TrialDone? ==> row.canceledAt.None? && !row.cancelAtPeriodEnd)
  {
  }

  // ---------------------------------------------------------------- referrals

  /** A conversion counts for the referrer, and for nobody else. */
  lemma ConversionCounts(w: World, referee: int, user: int)
    ensures var after := Convert(w, referee);
            |ConvertedBy(after, user)| == |ConvertedBy(w, user)|
              + if referee in w.referrals && !w.referrals[referee].converted && w.referrals[referee].referrer == user
                then 1 else 0
  {
    var before, more := ConvertedBy(w, user), ConvertedBy(Convert(w, referee), user);
    if referee in w.referrals && !w.referrals[referee].converted && w.referrals[referee].referrer == user {
      assert more == before + {referee};
    } else {
      assert more == before;
    }
  }

  /** An invitation is recorded once, and not for oneself; it counts only when it is converted. */
  lemma AttributedIff(w: World, referee: int, referrer: int)
    ensures var after := Attribute(w, referee, referrer);
            && (referee in after.referrals <==> referee in w.referrals || referee != referrer)
            && (referee !in w.referrals && referee != referrer ==>
                  after.referrals[referee] == Referral(referrer, false))
            && (forall r <- w.referrals :: r in after.referrals && after.referrals[r] == w.referrals[r])
            && ConvertedBy(after, referrer) == ConvertedBy(w, referrer)
  {
  }

  lemma {:induction false} QuotientIs(n: int, p: int, q: int)
    requires p > 0 && n >= 0 && q == n / p
    ensures p * q <= n < p * (q + 1)
  {
    assert n == p * q + n % p;
    assert p * (q + 1) == p * q + p;
  }

  /** A redemption grants as many whole prices as are converted and not rewarded yet, each worth its
      days, on top of a running period, and is announced; with none to grant it changes nothing. */
  lemma RedeemedIff(w: World, user: int, usersPerMonth: int, daysPerMonth: int, t: Clock)
    ensures var price := if usersPerMonth <= 0 then 1 else usersPerMonth;
            var worth := if daysPerMonth <= 0 then 30 else daysPerMonth;
            var (granted, months) := Redeem(w, user, usersPerMonth, daysPerMonth, t.now);
            var after := HandleRedeem(w, user, usersPerMonth, daysPerMonth, t);
            var converted, rewarded := |ConvertedBy(w, user)|, Rewarded(w, user);
            if price * (rewarded + 1) <= converted then
              && months > 0 && price * (rewarded + months) <= converted < price * (rewarded + months + 1)
              && Prolongs(w, after, user, FromReferral, "", months * worth, t.now)
              && Rewarded(after, user) == rewarded + months
              && Sends(w, after, user, Activated, RowOf(after, user).expiresAt)
            else months == 0 && after == w
  {
    var price := if usersPerMonth <= 0 then 1 else usersPerMonth;
    var converted, rewarded := |ConvertedBy(w, user)|, Rewarded(w, user);
    var q := converted / price;
    QuotientIs(converted, price, q);
    if rewarded + 1 <= q {
      Multiplied(price, rewarded + 1, q);
    } else {
      Multiplied(price, q + 1, rewarded + 1);
    }
    RedeemedMonths(w, user, usersPerMonth, daysPerMonth, t, q - rewarded);
  }

  lemma {:induction false} Multiplied(p: int, a: int, b: int)
    requires p > 0 && a <= b
    ensures p * a <= p * b
  {
    assert p * (b - a) >= 0;
    assert p * b == p * a + p * (b - a);
  }

  lemma RedeemedMonths(w: World, user: int, usersPerMonth: int, daysPerMonth: int, t: Clock, months: int)
    requires months == |ConvertedBy(w, user)| / (if usersPerMonth <= 0 then 1 else usersPerMonth) - Rewarded(w, user)
    ensures var worth := if daysPerMonth <= 0 then 30 else daysPerMonth;
            var after := HandleRedeem(w, user, usersPerMonth, daysPerMonth, t);
            && Redeem(w, user, usersPerMonth, daysPerMonth, t.now).1 == (if months > 0 then months else 0)
            && (if months > 0 then
                  && Prolongs(w, after, user, FromReferral, "", months * worth, t.now)
                  && Rewarded(after, user) == Rewarded(w, user) + months
                  && Sends(w, after, user, Activated, RowOf(after, user).expiresAt)
                else after == w)
  {
  }

  // ---------------------------------------------------------------- the end of access

  /** Expiring on the read changes nobody's access from then on; it happens exactly to rows that
      still claim access and have none, and leaves their period and payments alone. */
  lemma ExpiryIsLazy(row: Row, now: int, at: int)
    requires Timed(row) && at >= now
    ensures var after := Expire(row, now);
            && (AccessAllowed(after, at) <==> AccessAllowed(row, at))
            && (after == row <==> AccessAllowed(row, now) || row.status.Expired? || row.status.NoPlan?)
            && (after != row ==> after.status.Expired? && !after.autoRenew && after.cancelAtPeriodEnd
                                 && after.accessRev == row.accessRev + 1)
            && (after.expiresAt, after.graceUntil, after.planCode, after.lastPaymentId, after.trialUsed)
               == (row.expiresAt, row.graceUntil, row.planCode, row.lastPaymentId, row.trialUsed)
  {
  }

  /** A look at the status shows the access the user has, and only expires; a purge of the message table
      drops the marks it names and nothing else. */
  lemma LookingKeepsAccess(w: World, user: int, t: Clock, at: int, ids: set<string>)
    requires Timed(RowOf(w, user)) && t.first <= at
    ensures var after := Step(w, ReadStatus(user, t));
            && (AccessAllowed(RowOf(after, user), at) <==> AccessAllowed(RowOf(w, user), at))
            && (AccessAllowed(RowOf(after, user), t.first) || RowOf(after, user).status in {Expired, NoPlan})
            && after == w.(subs := after.subs) && forall u :: u != user ==> RowOf(after, u) == RowOf(w, u)
    ensures Step(w, Purge(ids)) == w.(processed := w.processed - ids)
  {
    var row := RowOf(w, user);
    ExpiryIsLazy(row, t.first, at);
    ExpiryIsLazy(row, t.first, t.first);
    assert RowOf(Step(w, ReadStatus(user, t)), user) == Expire(row, t.first);
  }

  /** A suspended user has no access at any instant, his period ends by the suspension, renewal is
      off, and the event says so; what he had, his trial and his payments stay on record. */
  lemma SuspendedHasNoAccess(w: World, user: int, suspendedAt: int, t: Clock, at: int)
    ensures var after := Step(w, AccessExpired(user, suspendedAt, t));
            var was, row := RowOf(w, user), RowOf(after, user);
            && !AccessAllowed(row, at) && row.status.Expired? && row.expiresAt.Some?
            && row.expiresAt.value <= t.now && (was.expiresAt.Some? ==> row.expiresAt.value <= was.expiresAt.value)
            && (was.expiresAt.None? || was.expiresAt.value > t.now ==> row.expiresAt.value == t.now)
            && (was.expiresAt.Some? && was.expiresAt.value <= t.now ==> row.expiresAt == was.expiresAt)
            && row.graceUntil.None? && !row.autoRenew && row.cancelAtPeriodEnd && row.accessRev == was.accessRev + 1
            && (row.planCode, row.lastPaymentId, row.trialUsed, row.startedAt, row.canceledAt)
               == (was.planCode, was.lastPaymentId, was.trialUsed, was.startedAt, was.canceledAt)
            && Sends(w, after, user, Suspended, Some(suspendedAt)) && after.log == w.log
  {
  }

  /** A cancellation acts exactly on a user with access. It ends a trial at once; a paid period or a
      grace runs on to its end with renewal off, and the event says which. */
  lemma CancelEndsTrialOnly(w: World, user: int, t: Clock, at: int)
    requires Timed(RowOf(w, user)) && t.first <= t.last <= at
    ensures var after := HandleCancel(w, user, t);
            var was, row := RowOf(w, user), RowOf(after, user);
            && (!AccessAllowed(was, t.first) ==> SendsNothing(w, after) && row == Expire(was, t.first))
            && (AccessAllowed(was, t.first) ==>
                  && Sends(w, after, user, Canceled, row.expiresAt)
                  && row.canceledAt == Some(t.now) && !row.autoRenew && row.cancelAtPeriodEnd
                  && (AccessAllowed(row, at) <==> !was.status.Trial? && AccessAllowed(was, at))
                  && (was.status.Trial? ==> row.expiresAt == Some(t.now) && row.accessRev == was.accessRev + 1)
                  && (!was.status.Trial? ==> row.expiresAt == was.expiresAt && row.graceUntil == was.graceUntil)
                  && (after.events[|w.events|].atPeriodEnd <==> AccessAllowed(row, t.last)))
            && (row.planCode, row.lastPaymentId, row.trialUsed, row.startedAt)
               == (was.planCode, was.lastPaymentId, was.trialUsed, was.startedAt)
            && after.log == w.log
  {
  }

  /** Switching automatic renewal off takes nobody's access. */
  lemma RenewalOffKeepsAccess(w: World, user: int, t: Clock, at: int)
    requires Timed(RowOf(w, user)) && t.last <= at
    ensures var after := Step(w, AutoRenewDisabled(user, t));
            var was, row := RowOf(w, user), RowOf(after, user);
            && (AccessAllowed(row, at) <==> AccessAllowed(was, at)) && !row.autoRenew
            && (row.cancelAtPeriodEnd <==> was.cancelAtPeriodEnd || was.status.Active? || was.status.Grace?
                                           || (was.status.Trial? && !AccessAllowed(was, t.last)))
            && (row.expiresAt, row.graceUntil, row.planCode, row.lastPaymentId, row.trialUsed, row.canceledAt)
               == (was.expiresAt, was.graceUntil, was.planCode, was.lastPaymentId, was.trialUsed, was.canceledAt)
            && SendsNothing(w, after) && after.log == w.log
  {
  }

  /** A grace replaces the paid period's end by its own, for an active user or one in grace. */
  lemma GraceGivesAccess(w: World, user: int, graceUntil: int, t: Clock, at: int)
    requires (RowOf(w, user).status.Active? || RowOf(w, user).status.Grace?) && t.last <= at
    ensures var after := Step(w, GraceStart(user, graceUntil, t));
            var was, row := RowOf(w, user), RowOf(after, user);
            && (AccessAllowed(row, at) <==> at < graceUntil)
            && (t.last < graceUntil ==> row.accessRev == was.accessRev)
            && (row.expiresAt, row.planCode, row.lastPaymentId, row.trialUsed, row.canceledAt)
               == (was.expiresAt, was.planCode, was.lastPaymentId, was.trialUsed, was.canceledAt)
            && Sends(w, after, user, GraceStarted, Some(graceUntil)) && after.log == w.log
  {
  }
}
