/** The subscription repository: each method is one transaction, statement by statement,
    and ends in the world its specification in Subscription names. */
module SubscriptionStore {
  import opened Prelude
  import opened Subscription

  class Store {
    var subs: map<int, Row>
    var grants: set<(int, Source, string)>
    var processed: set<string>
    var referrals: map<int, Referral>
    var rewards: map<int, int>
    ghost var log: seq<Extension>
    ghost var events: seq<Event>

    ghost function State(): World
      reads this
    {
      World(subs, grants, processed, referrals, rewards, log, events)
    }

    constructor ()
      ensures State() == EMPTY
    {
      subs, grants, processed, referrals, rewards := map[], {}, {}, map[], map[];
      log, events := [], [];
    }

    /** ensureUserAndStateTx. */
    method EnsureUserAndState(user: int)
      modifies this`subs
      ensures subs == old(subs)[user := RowOf(old(State()), user)]
    {
      if user !in subs {
        subs := subs[user := FRESH_ROW];
      } else {
        assert subs == subs[user := subs[user]];
      }
    }

    /** getStateForUpdateTx: reads the row and expires it when its time is over. */
    method GetStateForUpdate(user: int, now: int) returns (row: Row)
      requires user in subs
      modifies this`subs
      ensures subs == old(subs)[user := row] && row == Expire(old(subs)[user], now)
    {
      row := subs[user];
      var shouldExpire := false;
      if (row.status.Trial? || row.status.Active?) && row.expiresAt.Some? && row.expiresAt.value <= now {
        shouldExpire := true;
      }
      if row.status.Grace? && row.graceUntil.Some? && row.graceUntil.value <= now {
        shouldExpire := true;
      }
      if shouldExpire {
        row := row.(status := Expired, autoRenew := false, cancelAtPeriodEnd := true, accessRev := row.accessRev + 1);
      }
      subs := subs[user := row];
    }

    /** The UPDATE of a trial grant, with what it adds to the history. */
    method UpdateForTrial(user: int, days: int, now: int, paidActive: bool)
      requires user in subs && paidActive == PaidActive(subs[user], now)
      modifies this`subs, this`log
      ensures subs == old(subs)[user := TrialGranted(old(subs)[user], now, days)]
      ensures log == old(log) + [Extension(user, FromTrial, "trial", days, Base(old(subs)[user].expiresAt, now),
                                           subs[user].expiresAt.value)]
    {
      var row := subs[user];
      var start := if row.expiresAt.Some? then Max(row.expiresAt.value, now) else now;
      row := row.(status := if paidActive then Active else Trial, trialUsed := true,
                  startedAt := OrElse(row.startedAt, now), expiresAt := Some(start + days * DAY),
                  graceUntil := None, accessRev := row.accessRev + 1);
      if !paidActive {
        row := row.(planCode := Some(TRIAL_PLAN), canceledAt := None, lastPaymentId := None,
                    autoRenew := false, cancelAtPeriodEnd := false);
      }
      subs := subs[user := row];
      log := log + [Extension(user, FromTrial, "trial", days, start, start + days * DAY)];
    }

    /** The UPDATE of a paid grant. */
    method UpdateForPayment(user: int, plan: string, days: int, paymentId: string, autoRenew: bool, now: int)
      requires user in subs
      modifies this`subs, this`log
      ensures subs == old(subs)[user := PaymentGranted(old(subs)[user], now, plan, days, paymentId, autoRenew)]
      ensures log == old(log) + [Extension(user, FromPayment, paymentId, days, Base(old(subs)[user].expiresAt, now),
                                           subs[user].expiresAt.value)]
    {
      var row := subs[user];
      var start := if row.expiresAt.Some? then Max(row.expiresAt.value, now) else now;
      row := row.(status := Active, planCode := Some(plan), startedAt := OrElse(row.startedAt, now),
                  expiresAt := Some(start + days * DAY), graceUntil := None, canceledAt := None,
                  lastPaymentId := Some(paymentId), autoRenew := row.autoRenew || autoRenew,
                  accessRev := row.accessRev + 1);
      if autoRenew {
        row := row.(cancelAtPeriodEnd := false);
      }
      subs := subs[user := row];
      log := log + [Extension(user, FromPayment, paymentId, days, start, start + days * DAY)];
    }

    /** The UPDATE of a referral reward. */
    method UpdateForReferral(user: int, days: int, now: int)
      requires user in subs
      modifies this`subs, this`log
      ensures subs == old(subs)[user := ReferralGranted(old(subs)[user], now, days)]
      ensures log == old(log) + [Extension(user, FromReferral, "", days, Base(old(subs)[user].expiresAt, now),
                                           subs[user].expiresAt.value)]
    {
      var row := subs[user];
      var start := if row.expiresAt.Some? then Max(row.expiresAt.value, now) else now;
      if row.status.Expired? || row.status.NoPlan? {
        row := row.(status := Active);
      }
      subs := subs[user := row.(expiresAt := Some(start + days * DAY), accessRev := row.accessRev + 1)];
      log := log + [Extension(user, FromReferral, "", days, start, start + days * DAY)];
    }

    method StartTrialTx(user: int, days: int, t: Clock) returns (outcome: TrialOutcome)
      modifies this
      ensures (State(), outcome) == StartTrial(old(State()), user, days, t)
    {
      if days <= 0 {
        return TrialFailed;
      }
      var committed := subs;
      EnsureUserAndState(user);
      var row := GetStateForUpdate(user, t.first);
      ghost var seen, was := State(), row;
      assert seen == Seen(old(State()), user, t.first);
      if row.trialUsed {
        return TrialAlreadyUsed;
      }
      if row.status.Grace? {
        return TrialDeferredGrace;
      }
      var paidActive := row.status.Active? && row.expiresAt.Some? && row.expiresAt.value > t.now;
      ghost var savedLog := log;
      UpdateForTrial(user, days, t.now, paidActive);
      if (user, FromTrial, "trial") in grants {
        subs, log := committed, savedLog;
        return TrialFailed;
      }
      grants := grants + {(user, FromTrial, "trial")};
      row := GetStateForUpdate(user, t.last);
      assert subs == Put(seen, user, TrialGranted(was, t.now, days), t.last).subs;
      outcome := if paidActive then TrialOnTopOfPaid else TrialDone;
    }

    method ActivatePaidTx(user: int, plan: string, days: int, paymentId: string, autoRenew: bool, t: Clock)
      returns (outcome: PaidOutcome)
      modifies this
      ensures (State(), outcome) == ActivatePaid(old(State()), user, plan, days, paymentId, autoRenew, t)
      ensures outcome.Applied?
              <==> days > 0 && (paymentId == ""
                                || ("payment:" + paymentId !in old(processed)
                                    && (user, FromPayment, paymentId) !in old(grants)
                                    && RowOf(old(State()), user).lastPaymentId != Some(paymentId)))
    {
      var committedSubs, committedProcessed := subs, processed;
      EnsureUserAndState(user);
      var row := GetStateForUpdate(user, t.first);
      ghost var seen, was := State(), row;
      assert seen == Seen(old(State()), user, t.first);
      if paymentId != "" {
        if "payment:" + paymentId in processed {
          return Duplicate;
        }
        processed := processed + {"payment:" + paymentId};
      }
      if paymentId != "" && row.lastPaymentId == Some(paymentId) {
        return Duplicate;
      }
      if days <= 0 {
        subs, processed := committedSubs, committedProcessed;
        return PaidFailed;
      }
      if paymentId != "" {
        if (user, FromPayment, paymentId) in grants {
          return Duplicate;
        }
        grants := grants + {(user, FromPayment, paymentId)};
      }
      UpdateForPayment(user, plan, days, paymentId, autoRenew, t.now);
      row := GetStateForUpdate(user, t.last);
      assert subs == Put(seen, user, PaymentGranted(was, t.now, plan, days, paymentId, autoRenew), t.last).subs;
      outcome := Applied;
    }

    method RedeemReferralMonthsTx(user: int, usersPerMonth: int, daysPerMonth: int, now: int) returns (months: int)
      modifies this
      ensures (State(), months) == Redeem(old(State()), user, usersPerMonth, daysPerMonth, now)
    {
      var perMonth := if usersPerMonth <= 0 then 1 else usersPerMonth;
      var days := if daysPerMonth <= 0 then 30 else daysPerMonth;
      var converted := |set r | r in referrals && referrals[r].converted && referrals[r].referrer == user|;
      var granted := if user in rewards then rewards[user] else 0;
      var available := TruncDiv(converted, perMonth) - granted;
      assert available == Available(State(), user, usersPerMonth);
      if available <= 0 {
        return 0;
      }
      EnsureUserAndState(user);
      UpdateForReferral(user, available * days, now);
      assert subs == old(subs)[user := ReferralGranted(RowOf(old(State()), user), now, available * days)];
      rewards := rewards[user := granted + available];
      months := available;
    }

    method MarkReferralConvertedTx(referee: int) returns (converted: bool)
      modifies this`referrals
      ensures State() == Convert(old(State()), referee)
      ensures converted <==> referee in old(referrals) && !old(referrals)[referee].converted
    {
      converted := referee in referrals && !referrals[referee].converted;
      if converted {
        referrals := referrals[referee := referrals[referee].(converted := true)];
      }
    }

    method CancelTx(user: int, t: Clock) returns (changed: bool)
      modifies this
      ensures (State(), changed) == Cancel(old(State()), user, t)
    {
      EnsureUserAndState(user);
      var row := GetStateForUpdate(user, t.first);
      ghost var seen, was := State(), row;
      assert seen == Seen(old(State()), user, t.first);
      if !row.status.Trial? && !row.status.Active? && !row.status.Grace? {
        return false;
      }
      row := row.(autoRenew := false, cancelAtPeriodEnd := true, canceledAt := Some(t.now));
      if row.status.Trial? {
        row := row.(status := Expired, expiresAt := Some(t.now), graceUntil := None, accessRev := row.accessRev + 1);
      }
      subs := subs[user := row];
      ghost var updated := row;
      row := GetStateForUpdate(user, t.last);
      assert subs == seen.subs[user := Expire(updated, t.last)];
      changed := true;
    }

    method MarkAutoRenewDisabledTx(user: int, t: Clock)
      modifies this`subs
      ensures State() == DisableAutoRenew(old(State()), user, t)
    {
      EnsureUserAndState(user);
      var row := subs[user];
      row := row.(autoRenew := false);
      if row.status.Active? || row.status.Grace? {
        row := row.(cancelAtPeriodEnd := true);
      }
      subs := subs[user := row];
      row := GetStateForUpdate(user, t.last);
    }

    method MarkGraceStartedTx(user: int, graceUntil: int, t: Clock)
      modifies this`subs
      ensures State() == StartGrace(old(State()), user, graceUntil, t)
    {
      EnsureUserAndState(user);
      var row := subs[user];
      if row.status.Active? || row.status.Grace? {
        subs := subs[user := row.(status := Grace, graceUntil := Some(graceUntil))];
      }
      row := GetStateForUpdate(user, t.last);
    }

    method MarkSuspendedTx(user: int, t: Clock)
      modifies this`subs
      ensures State() == Suspend(old(State()), user, t)
    {
      EnsureUserAndState(user);
      var row := subs[user];
      if row.expiresAt.None? || row.expiresAt.value > t.now {
        row := row.(expiresAt := Some(t.now));
      }
      subs := subs[user := row.(status := Expired, graceUntil := None, autoRenew := false,
                                cancelAtPeriodEnd := true, accessRev := row.accessRev + 1)];
      row := GetStateForUpdate(user, t.last);
    }

    /** The business transaction of a payment event. */
    method HandleBillingPaymentSucceeded(user: int, plan: string, days: int, paymentId: string, autoRenew: bool,
                                         t: Clock)
      returns (ok: bool)
      modifies this
      ensures State() == HandlePayment(old(State()), user, plan, days, paymentId, autoRenew, t)
      ensures ok <==> !ActivatePaid(old(State()), user, plan, days, paymentId, autoRenew, t).1.PaidFailed?
    {
      var outcome := ActivatePaidTx(user, plan, days, paymentId, autoRenew, t);
      if outcome.PaidFailed? {
        return false;
      }
      if outcome.Applied? {
        var _ := MarkReferralConvertedTx(user);
        var row := RowOf(State(), user);
        events := events + [Event(user, Activated, row.accessRev, row.expiresAt, false)];
      }
      return true;
    }

    /** processSubscriptionMessageOnce around the payment handler: the inbox mark is reserved
        first and committed last; `fate` says where the process dies. */
    method ProcessPaymentOnce(messageId: string, fate: Fate, user: int, plan: string, days: int,
                              paymentId: string, autoRenew: bool, t: Clock)
      modifies this
      ensures State() == DeliverPayment(old(State()), messageId, fate, user, plan, days, paymentId, autoRenew, t)
    {
      var mark := "user-subscription-service:" + messageId;
      if mark in processed {
        return;
      }
      if fate.CrashBefore? {
        return;
      }
      ghost var before := State();
      var ok := HandleBillingPaymentSucceeded(user, plan, days, paymentId, autoRenew, t);
      if !ok {
        assert State() == before;
        return;
      }
      if fate.CrashBetween? {
        return;
      }
      processed := processed + {mark};
    }
  }
}
