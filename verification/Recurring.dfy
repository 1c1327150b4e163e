/** The recurring charge machine of one user: the profile row, the workers that lock it, the
    payment provider's answers and its late webhooks. */
module Recurring {
  import opened Prelude

  datatype Status = Active | Processing | Retry | Grace | Expiring | Expired | Disabled

  datatype Profile = Profile(
    auto: bool, status: Status, nextChargeAt: Option<int>, retryCount: nat, graceUntil: Option<int>,
    lockedAt: Option<int>)

  /** Retry delays, the length of the grace period: fixed for the life of the service. */
  datatype Policy = Policy(schedule: seq<int>, grace: int)

  const LOCK_TIMEOUT := 1800

  predicate DueForCharge(p: Profile, now: int) {
    || (p.auto && (p.status.Active? || p.status.Retry?) && p.nextChargeAt.Some? && p.nextChargeAt.value <= now)
    || (p.status.Processing? && p.lockedAt.Some? && p.lockedAt.value < now - LOCK_TIMEOUT)
  }

  predicate DueForSuspension(p: Profile, now: int) {
    || (p.status.Grace? && p.graceUntil.Some? && p.graceUntil.value <= now)
    || (p.status.Expiring? && p.lockedAt.Some? && p.lockedAt.value < now - LOCK_TIMEOUT)
  }

  function Locked(p: Profile, s: Status, now: int): Profile {
    p.(status := s, lockedAt := Some(now))
  }

  function Rescheduled(p: Profile, at: int, count: nat): Profile {
    p.(status := Retry, lockedAt := None, nextChargeAt := Some(at), retryCount := count)
  }

  function InGrace(p: Profile, until: int): Profile {
    p.(status := Grace, lockedAt := None, graceUntil := Some(until), nextChargeAt := None)
  }

  function Suspended(p: Profile): Profile {
    p.(auto := false, lockedAt := None, status := Expired, nextChargeAt := None)
  }

  function Off(p: Profile): Profile {
    p.(auto := false, lockedAt := None, status := Disabled)
  }

  /** Attempt `attempt` failed: the next retry, or grace when the schedule is used up. */
  function Failed(p: Profile, policy: Policy, attempt: nat, now: int): Profile
    requires attempt >= 1
  {
    if attempt <= |policy.schedule| then Rescheduled(p, now + policy.schedule[attempt - 1], attempt)
    else InGrace(p, now + policy.grace)
  }

  /** A payment went through; `saved` says that the method may be charged again. */
  function Paid(row: Option<Profile>, recurring: bool, saved: bool, nextAt: int): Option<Profile> {
    if saved then
      Some(Profile(true, Active, Some(nextAt), 0, None, if recurring || row.None? then None else row.value.lockedAt))
    else if row.Some? then Some(Off(row.value))
    else None
  }

  // ---------------------------------------------------------------- the row

  /** One user's row of billing_recurring_profiles. */
  class ProfileRow {
    const policy: Policy
    var row: Option<Profile>

    constructor (policy: Policy)
      ensures this.policy == policy && row == None
    {
      this.policy, row := policy, None;
    }

    method UpdateNextChargeAt(activeUntil: int)
      modifies this
      ensures row == ActivatedUntil(old(row), activeUntil)
      ensures row == if old(row).Some? && old(row).value.auto
                     then Some(old(row).value.(nextChargeAt := Some(activeUntil), status := Active)) else old(row)
    {
      if row.Some? && row.value.auto {
        var p := row.value;
        p := p.(nextChargeAt := Some(activeUntil));
        if p.auto {
          p := p.(status := Active);
        }
        row := Some(p);
      }
    }

    method LockDueRenewal(now: int) returns (claimed: Option<Profile>)
      modifies this
      ensures row == (if old(row).Some? && DueForCharge(old(row).value, now)
                      then Some(Locked(old(row).value, Processing, now)) else old(row))
      ensures claimed == if old(row).Some? && DueForCharge(old(row).value, now) then row else None
    {
      claimed := None;
      if row.Some? && DueForCharge(row.value, now) {
        row := Some(row.value.(status := Processing, lockedAt := Some(now)));
        claimed := row;
      }
    }

    method LockExpiredGrace(now: int) returns (claimed: bool)
      modifies this
      ensures claimed == (old(row).Some? && DueForSuspension(old(row).value, now))
      ensures row == if claimed then Some(Locked(old(row).value, Expiring, now)) else old(row)
    {
      claimed := row.Some? && DueForSuspension(row.value, now);
      if claimed {
        row := Some(row.value.(status := Expiring, lockedAt := Some(now)));
      }
    }

    method UpsertRecurringProfileTx(nextChargeAt: int)
      modifies this
      ensures row == Paid(old(row), false, true, nextChargeAt)
    {
      var lockedAt := if row.Some? then row.value.lockedAt else None;
      row := Some(Profile(true, Active, Some(nextChargeAt), 0, None, lockedAt));
    }

    method DisableAutoRenewTx()
      modifies this
      ensures row == Paid(old(row), false, false, 0)
    {
      if row.Some? {
        row := Some(row.value.(auto := false, lockedAt := None, status := Disabled));
      }
    }

    method ScheduleRenewalRetryTx(nextRetryAt: int, retryCount: nat)
      modifies this
      ensures row == if old(row).Some? then Some(Rescheduled(old(row).value, nextRetryAt, retryCount)) else None
    {
      if row.Some? {
        row := Some(row.value.(status := Retry, lockedAt := None, nextChargeAt := Some(nextRetryAt),
                               retryCount := retryCount));
      }
    }

    method StartGracePeriodTx(graceUntil: int)
      modifies this
      ensures row == if old(row).Some? then Some(InGrace(old(row).value, graceUntil)) else None
    {
      if row.Some? {
        row := Some(row.value.(status := Grace, lockedAt := None, graceUntil := Some(graceUntil),
                               nextChargeAt := None));
      }
    }

    method MarkRecurringSuccessTx(nextChargeAt: int)
      modifies this
      ensures row == if old(row).Some?
                     then Some(Profile(old(row).value.auto, Active, Some(nextChargeAt), 0, None, None)) else None
    {
      if row.Some? {
        row := Some(row.value.(status := Active, lockedAt := None, retryCount := 0, graceUntil := None,
                               nextChargeAt := Some(nextChargeAt)));
      }
    }

    method SuspendExpiredGraceTx()
      modifies this
      ensures row == if old(row).Some? then Some(Suspended(old(row).value)) else None
    {
      if row.Some? {
        row := Some(row.value.(auto := false, lockedAt := None, status := Expired, nextChargeAt := None));
      }
    }

    method HandlePaymentSucceeded(recurring: bool, saved: bool, nextAt: int)
      modifies this
      ensures row == Paid(old(row), recurring, saved, nextAt)
    {
      if saved {
        UpsertRecurringProfileTx(nextAt);
        if recurring {
          MarkRecurringSuccessTx(nextAt);
        }
      } else {
        DisableAutoRenewTx();
      }
    }

    method HandleRecurringPaymentFailed(attemptNo: nat, now: int)
      requires attemptNo >= 1
      modifies this
      ensures row == if old(row).Some? then Some(Failed(old(row).value, policy, attemptNo, now)) else None
    {
      if attemptNo <= |policy.schedule| {
        ScheduleRenewalRetryTx(now + policy.schedule[attemptNo - 1], attemptNo);
      } else {
        StartGracePeriodTx(now + policy.grace);
      }
    }

    /** p is the row as it was when locked; returns whether the provider was asked. */
    method ChargeRecurringProfile(p: Profile, answer: Answer, recorded: bool, nextAt: int, now: int)
      returns (asked: bool)
      modifies this
      ensures asked == p.auto
      ensures row == if p.auto && recorded
                     then Answered(old(row), policy, p.retryCount + 1, answer, nextAt, now) else old(row)
    {
      if !p.auto {
        return false;
      }
      asked := true;
      var attemptNo := p.retryCount + 1;
      if !recorded {
        return;
      }
      match answer {
        case Charged(saved) => HandlePaymentSucceeded(true, saved, nextAt);
        case Pending =>
        case _ => HandleRecurringPaymentFailed(attemptNo, now);
      }
    }
  }

  function ActivatedUntil(row: Option<Profile>, until: int): Option<Profile> {
    if row.Some? && row.value.auto then Some(row.value.(nextChargeAt := Some(until), status := Active)) else row
  }

  /** The provider's answer to a charge. */
  datatype Answer = Charged(saved: bool) | Declined | NoAnswer | Pending

  function Answered(row: Option<Profile>, policy: Policy, attempt: nat, answer: Answer, nextAt: int, now: int)
    : Option<Profile>
    requires attempt >= 1
  {
    match answer
    case Charged(saved) => Paid(row, true, saved, nextAt)
    case Pending => row
    case _ => if row.Some? then Some(Failed(row.value, policy, attempt, now)) else None
  }

  // ---------------------------------------------------------------- runs

  /** The row; the attempt numbers of locked snapshots whose charge is still to be made; the
      attempts the provider has ever been asked for; how often it was asked; and the sweeps
      that have locked an expired grace and are yet to suspend it. */
  datatype World = World(row: Option<Profile>, held: multiset<nat>, issued: set<nat>, charges: nat, sweeps: nat)

  const START := World(None, multiset{}, {}, 0, 0)

  datatype Step =
    | Checkout(saved: bool, nextAt: int)
    | Activated(until: int)
    | Disable
    | LockDue(now: int)
    | Charge(attempt: nat, answer: Answer, recorded: bool, nextAt: int, now: int)
    | Abandon(attempt: nat)   // the worker dies, or the payment row cannot be written
    | SuccessWebhook(attempt: nat, saved: bool, nextAt: int)
    | CancelWebhook(attempt: nat, now: int)
    | LockGrace(now: int)
    | Suspend

  function LockStep(w: World, now: int): World {
    if w.row.Some? && DueForCharge(w.row.value, now) then
      w.(row := Some(Locked(w.row.value, Processing, now)), held := w.held + multiset{w.row.value.retryCount + 1})
    else w
  }

  function ChargeStep(w: World, policy: Policy, attempt: nat, answer: Answer, recorded: bool, nextAt: int, now: int)
    : World
  {
    if attempt in w.held && attempt >= 1 then
      World(if recorded then Answered(w.row, policy, attempt, answer, nextAt, now) else w.row,
            w.held - multiset{attempt}, w.issued + {attempt}, w.charges + 1, w.sweeps)
    else w
  }

  function CancelStep(w: World, policy: Policy, attempt: nat, now: int): World {
    if attempt in w.issued && attempt >= 1 && w.row.Some? then
      w.(row := Some(Failed(w.row.value, policy, attempt, now)))
    else w
  }

  function Do(policy: Policy, w: World, s: Step): World {
    match s
    case Checkout(saved, nextAt) => w.(row := Paid(w.row, false, saved, nextAt))
    case Activated(until) => w.(row := ActivatedUntil(w.row, until))
    case Disable => w.(row := Paid(w.row, false, false, 0))
    case LockDue(now) => LockStep(w, now)
    case Charge(attempt, answer, recorded, nextAt, now) => ChargeStep(w, policy, attempt, answer, recorded, nextAt, now)
    case Abandon(attempt) => w.(held := w.held - multiset{attempt})
    case SuccessWebhook(attempt, saved, nextAt) =>
      if attempt in w.issued then w.(row := Paid(w.row, true, saved, nextAt)) else w
    case CancelWebhook(attempt, now) => CancelStep(w, policy, attempt, now)
    case LockGrace(now) =>
      if w.row.Some? && DueForSuspension(w.row.value, now) then
        w.(row := Some(Locked(w.row.value, Expiring, now)), sweeps := w.sweeps + 1)
      else w
    case Suspend =>
      if w.sweeps > 0 && w.row.Some? then w.(row := Some(Suspended(w.row.value)), sweeps := w.sweeps - 1) else w
  }

  function Run(policy: Policy, w: World, steps: seq<Step>): World
    decreases |steps|
  {
    if steps == [] then w else Do(policy, Run(policy, w, steps[..|steps| - 1]), steps[|steps| - 1])
  }

  // ---------------------------------------------------------------- what every run keeps

  /** The retry counter stays within the schedule, every attempt number in flight or ever issued
      has its place in the schedule or is the last, and only willing rows are being charged. */
  ghost predicate Sound(policy: Policy, w: World) {
    AttemptsSound(policy, w.held, w.issued) && RowSound(policy, w.row)
  }

  ghost predicate AttemptsSound(policy: Policy, held: multiset<nat>, issued: set<nat>) {
    && (forall a :: a in held ==> 1 <= a <= |policy.schedule| + 1)
    && (forall a :: a in issued ==> 1 <= a <= |policy.schedule| + 1)
  }

  predicate RowSound(policy: Policy, row: Option<Profile>) {
    row.Some? ==> row.value.retryCount <= |policy.schedule| && (row.value.status.Processing? ==> row.value.auto)
  }

  lemma {:induction false} RetriesAreBounded(policy: Policy, steps: seq<Step>)
    ensures Sound(policy, Run(policy, START, steps))
    decreases |steps|
  {
    if steps != [] {
      RetriesAreBounded(policy, steps[..|steps| - 1]);
      StepKeepsSound(policy, Run(policy, START, steps[..|steps| - 1]), steps[|steps| - 1]);
    }
  }

  lemma FailureKeepsRow(policy: Policy, p: Profile, attempt: nat, now: int)
    requires RowSound(policy, Some(p)) && attempt >= 1
    ensures RowSound(policy, Some(Failed(p, policy, attempt, now)))
  {
  }

  lemma ChargeKeepsSound(policy: Policy, w: World, attempt: nat, answer: Answer, recorded: bool, nextAt: int, now: int)
    requires Sound(policy, w)
    ensures Sound(policy, ChargeStep(w, policy, attempt, answer, recorded, nextAt, now))
  {
    if attempt >= 1 && w.row.Some? {
      FailureKeepsRow(policy, w.row.value, attempt, now);
    }
    assert forall a :: a in w.held - multiset{attempt} ==> a in w.held;
  }

  lemma StepKeepsSound(policy: Policy, w: World, s: Step)
    requires Sound(policy, w)
    ensures Sound(policy, Do(policy, w, s))
  {
    match s
    case LockDue(now) =>
      assert forall a :: a in LockStep(w, now).held ==> a in w.held || a == w.row.value.retryCount + 1;
    case Charge(attempt, answer, recorded, nextAt, now) =>
      ChargeKeepsSound(policy, w, attempt, answer, recorded, nextAt, now);
    case Abandon(attempt) =>
      assert forall a :: a in w.held - multiset{attempt} ==> a in w.held;
    case CancelWebhook(attempt, now) =>
      if attempt >= 1 && w.row.Some? {
        FailureKeepsRow(policy, w.row.value, attempt, now);
      }
    case _ =>
  }

  // ---------------------------------------------------------------- when charging goes on

  /** Auto-renewal is off and no worker is charging. */
  predicate Unwilling(w: World) {
    w.row.Some? ==> !w.row.value.auto && !w.row.value.status.Processing?
  }

  /** A payment with a method that may be charged again reaches the row: the user's own, a late
      notice of an attempt that was issued, or an automatic charge still in a worker's hands. */
  predicate Revives(w: World, s: Step) {
    || (s.Checkout? && s.saved)
    || (s.SuccessWebhook? && s.saved && s.attempt in w.issued)
    || (s.Charge? && s.recorded && s.answer == Charged(true) && s.attempt in w.held && s.attempt >= 1)
  }

  /** An unwilling row stays unwilling exactly if the step is none of these; failures, late
      cancellations, sweeps and activation events are not. */
  lemma StaysUnwillingIff(policy: Policy, w: World, s: Step)
    requires Unwilling(w)
    ensures Unwilling(Do(policy, w, s)) <==> !Revives(w, s)
  {
  }

  lemma NoNewCharges(policy: Policy, w: World, s: Step)
    requires Unwilling(w)
    ensures Do(policy, w, s).charges + |Do(policy, w, s).held| <= w.charges + |w.held|
  {
    if s.Charge? && s.attempt in w.held {
      assert |w.held - multiset{s.attempt}| == |w.held| - 1;
    }
    if s.Abandon? {
      Fewer(w.held, s.attempt);
    }
  }

  lemma Fewer(held: multiset<nat>, a: nat)
    ensures |held - multiset{a}| <= |held|
  {
    if a in held {
      assert |held - multiset{a}| == |held| - 1;
    } else {
      assert held - multiset{a} == held;
    }
  }

  /** No step of the run is such a payment, where it comes. */
  predicate NeverRevived(policy: Policy, w: World, steps: seq<Step>) {
    forall k :: 0 <= k < |steps| ==> !Revives(Run(policy, w, steps[..k]), steps[k])
  }

  predicate UnwillingThroughout(policy: Policy, w: World, steps: seq<Step>) {
    forall k :: 0 <= k <= |steps| ==> Unwilling(Run(policy, w, steps[..k]))
  }

  lemma NeverRevivedBefore(policy: Policy, w: World, steps: seq<Step>, n: nat)
    requires NeverRevived(policy, w, steps) && n <= |steps|
    ensures NeverRevived(policy, w, steps[..n])
  {
    forall k | 0 <= k < n ensures !Revives(Run(policy, w, steps[..n][..k]), steps[..n][k]) {
      assert steps[..n][..k] == steps[..k];
    }
  }

  lemma {:induction false} NeverRevivedIsUnwilling(policy: Policy, w: World, steps: seq<Step>)
    requires Unwilling(w) && NeverRevived(policy, w, steps)
    ensures Unwilling(Run(policy, w, steps))
    ensures Run(policy, w, steps).charges + |Run(policy, w, steps).held| <= w.charges + |w.held|
    decreases |steps|
  {
    if steps != [] {
      var n := |steps| - 1;
      var before := Run(policy, w, steps[..n]);
      NeverRevivedBefore(policy, w, steps, n);
      NeverRevivedIsUnwilling(policy, w, steps[..n]);
      assert !Revives(before, steps[n]);
      StaysUnwillingIff(policy, before, steps[n]);
      NoNewCharges(policy, before, steps[n]);
    }
  }

  lemma RunOneMore(policy: Policy, w: World, steps: seq<Step>, k: nat)
    requires k < |steps|
    ensures Run(policy, w, steps[..k + 1]) == Do(policy, Run(policy, w, steps[..k]), steps[k])
  {
    assert steps[..k + 1][..k] == steps[..k];
  }

  /** After auto-renewal was switched off or the grace expired, whatever follows: the row stays
      unwilling throughout exactly if no such payment comes; and as long as none does, late
      webhooks or not, no charge is started that was not already in a worker's hands. */
  lemma NoChargeUnlessRevived(policy: Policy, w: World, steps: seq<Step>)
    requires Unwilling(w)
    ensures UnwillingThroughout(policy, w, steps) <==> NeverRevived(policy, w, steps)
    ensures NeverRevived(policy, w, steps) ==>
              Run(policy, w, steps).charges + |Run(policy, w, steps).held| <= w.charges + |w.held|
  {
    if NeverRevived(policy, w, steps) {
      forall k | 0 <= k <= |steps| ensures Unwilling(Run(policy, w, steps[..k])) {
        NeverRevivedBefore(policy, w, steps, k);
        NeverRevivedIsUnwilling(policy, w, steps[..k]);
      }
      NeverRevivedIsUnwilling(policy, w, steps);
    }
    if UnwillingThroughout(policy, w, steps) {
      forall k | 0 <= k < |steps| ensures !Revives(Run(policy, w, steps[..k]), steps[k]) {
        assert Unwilling(Run(policy, w, steps[..k])) && Unwilling(Run(policy, w, steps[..k + 1]));
        RunOneMore(policy, w, steps, k);
        StaysUnwillingIff(policy, Run(policy, w, steps[..k]), steps[k]);
      }
    }
  }

  /** Switching off and expiring make the row unwilling, in every run. */
  lemma OffAndExpiredAreUnwilling(policy: Policy, steps: seq<Step>, s: Step)
    requires s.Disable? || (s.Suspend? && Run(policy, START, steps).sweeps > 0)
    ensures Unwilling(Do(policy, Run(policy, START, steps), s))
  {
  }

  // ---------------------------------------------------------------- when a row falls due

  /** A worker that looks at `now` claims the row for a charge. */
  predicate Claims(policy: Policy, w: World, now: int) {
    Do(policy, w, LockDue(now)) != w
  }

  /** A sweep that looks at `now` claims it for suspension. */
  predicate Sweeps(policy: Policy, w: World, now: int) {
    Do(policy, w, LockGrace(now)) != w
  }

  /** An activation moves the next charge to its end, with renewal on, and touches nothing else:
      the row is charged at exactly the instants from then on. With renewal off it does nothing. */
  lemma ActivationSetsNextCharge(policy: Policy, w: World, until: int, now: int)
    ensures var after := Do(policy, w, Activated(until));
            if w.row.Some? && w.row.value.auto then
              && (Claims(policy, after, now) <==> until <= now)
              && after == w.(row := Some(w.row.value.(nextChargeAt := Some(until), status := Active)))
            else after == w
  {
  }

  function Looks(times: seq<int>): seq<Step> {
    seq(|times|, i requires 0 <= i < |times| => LockDue(times[i]))
  }

  /** After every run: from such an activation on, workers that look before its end find nothing,
      however many and however often, and the first that looks from its end on claims the row for
      the attempt its count stands at. */
  lemma {:induction false} ChargedFromActivationOn(policy: Policy, steps: seq<Step>, until: int, times: seq<int>,
                                                   now: int)
    requires var w := Run(policy, START, steps); w.row.Some? && w.row.value.auto
    requires forall t <- times :: t < until
    ensures var w := Run(policy, START, steps);
            var waiting := Run(policy, Do(policy, w, Activated(until)), Looks(times));
            && waiting == Do(policy, w, Activated(until))
            && (Claims(policy, waiting, now) <==> until <= now)
            && (until <= now ==>
                  Do(policy, waiting, LockDue(now)).held == w.held + multiset{w.row.value.retryCount + 1})
  {
    var w := Run(policy, START, steps);
    var active := Do(policy, w, Activated(until));
    NothingDue(policy, active, until, times);
    ActivationSetsNextCharge(policy, w, until, now);
  }

  lemma {:induction false} NothingDue(policy: Policy, w: World, until: int, times: seq<int>)
    requires w.row.Some? && w.row.value.status.Active? && w.row.value.nextChargeAt == Some(until)
    requires forall t <- times :: t < until
    ensures Run(policy, w, Looks(times)) == w
    decreases |times|
  {
    if times == [] {
      assert Looks(times) == [];
    } else {
      var n := |times| - 1;
      assert times[n] in times;
      forall t <- times[..n] ensures t < until {
        assert t in times;
      }
      NothingDue(policy, w, until, times[..n]);
      assert Looks(times) == Looks(times[..n]) + [LockDue(times[n])];
      OneStepMore(policy, w, Looks(times[..n]), LockDue(times[n]));
    }
  }

  /** A payment with a saved method, however it arrives, is next charged from the given instant on,
      at the first attempt; one without is never charged. */
  lemma PaymentSetsNextCharge(policy: Policy, w: World, s: Step, now: int)
    requires s.Checkout? || (s.SuccessWebhook? && s.attempt in w.issued)
             || (s.Charge? && s.recorded && s.answer.Charged? && s.attempt in w.held && s.attempt >= 1)
    ensures var after := Do(policy, w, s);
            var saved := if s.Charge? then s.answer.saved else s.saved;
            && (Claims(policy, after, now) <==> saved && s.nextAt <= now)
            && (saved ==> after.row.Some? && after.row.value.auto && after.row.value.retryCount == 0
                          && after.row.value.status.Active? && after.row.value.graceUntil.None?)
            && (saved ==> after.row.value.lockedAt == if s.Checkout? && w.row.Some? then w.row.value.lockedAt else None)
            && (!saved ==> after.row == if w.row.None? then None
                                        else Some(w.row.value.(auto := false, lockedAt := None, status := Disabled)))
            && !Sweeps(policy, after, now)
  {
  }

  /** The row after a recorded failure of this attempt at `at`: within the schedule charged from the
      end of that attempt's delay on, if renewal is on; beyond it never, and its grace is swept from
      its end on. The lock is released, and nothing else of the row changes. */
  predicate Delayed(policy: Policy, row: Profile, after: World, attempt: nat, at: int, now: int)
    requires attempt >= 1
  {
    if attempt <= |policy.schedule| then
      var due := at + policy.schedule[attempt - 1];
      && after.row == Some(row.(status := Retry, lockedAt := None, nextChargeAt := Some(due), retryCount := attempt))
      && (Claims(policy, after, now) <==> row.auto && due <= now) && !Sweeps(policy, after, now)
    else
      var end := at + policy.grace;
      && after.row == Some(row.(status := Grace, lockedAt := None, graceUntil := Some(end), nextChargeAt := None))
      && !Claims(policy, after, now) && (Sweeps(policy, after, now) <==> end <= now)
  }

  lemma FailedIsDelayed(policy: Policy, w: World, row: Profile, attempt: nat, at: int, now: int)
    requires attempt >= 1 && w.row == Some(Failed(row, policy, attempt, at))
    ensures Delayed(policy, row, w, attempt, at, now)
  {
  }

  /** A failure delays the row so however it is recorded: by a webhook that cancels an issued attempt,
      or by the worker, when the provider declines or gives no answer. */
  lemma FailureSetsNextCharge(policy: Policy, w: World, s: Step, now: int)
    requires w.row.Some?
    requires || (s.CancelWebhook? && s.attempt >= 1 && s.attempt in w.issued)
             || (s.Charge? && s.attempt >= 1 && s.recorded && (s.answer.Declined? || s.answer.NoAnswer?)
                 && s.attempt in w.held)
    ensures Delayed(policy, w.row.value, Do(policy, w, s), s.attempt, s.now, now)
  {
    FailedIsDelayed(policy, Do(policy, w, s), w.row.value, s.attempt, s.now, now);
  }

  /** A charge left pending, or whose answer is not recorded, and a worker's death leave the row as it
      was claimed. */
  lemma UnrecordedLeavesRow(policy: Policy, w: World, s: Step)
    requires (s.Charge? && (!s.recorded || s.answer.Pending?)) || s.Abandon?
             || (s.CancelWebhook? && s.attempt !in w.issued) || (s.SuccessWebhook? && s.attempt !in w.issued)
    ensures Do(policy, w, s).row == w.row
  {
  }

  /** A claim marks the row and the instant and changes nothing else of it. A claimed row is claimed
      again exactly when it has been held for more than half an hour, and the same goes for a sweep;
      switching off and suspending end both for good. */
  lemma StuckIsReclaimed(policy: Policy, w: World, t: int, now: int)
    ensures Claims(policy, w, t) ==>
              var claimed := Do(policy, w, LockDue(t));
              && w.row.Some? && claimed.row == Some(w.row.value.(status := Processing, lockedAt := Some(t)))
              && (Claims(policy, claimed, now) <==> t + 1800 < now)
    ensures Sweeps(policy, w, t) ==>
              var claimed := Do(policy, w, LockGrace(t));
              && w.row.Some? && claimed.row == Some(w.row.value.(status := Expiring, lockedAt := Some(t)))
              && (Sweeps(policy, claimed, now) <==> t + 1800 < now)
    ensures var off := Do(policy, w, Disable); !Claims(policy, off, now) && !Sweeps(policy, off, now)
    ensures w.sweeps > 0 && w.row.Some? ==>
              var gone := Do(policy, w, Suspend);
              && !Claims(policy, gone, now) && !Sweeps(policy, gone, now)
              && gone.row
                 == Some(w.row.value.(auto := false, lockedAt := None, status := Expired, nextChargeAt := None))
  {
  }

  /** The provider is asked exactly by a charge whose attempt a worker holds, once, and that attempt
      is then issued and no longer held; a worker that dies lets go of it, too. */
  lemma AskedIffHeld(policy: Policy, w: World, s: Step)
    ensures var after := Do(policy, w, s);
            var asks := s.Charge? && s.attempt >= 1 && s.attempt in w.held;
            && after.charges == w.charges + (if asks then 1 else 0)
            && after.issued == w.issued + (if asks then {s.attempt} else {})
            && (asks || s.Abandon? ==> after.held == w.held - multiset{s.attempt})
            && (!asks && !s.Abandon? && !s.LockDue? ==> after.held == w.held)
  {
  }

  // ---------------------------------------------------------------- from the first failure to expiry

  /** One failed attempt: the charge made at `now`, and the answer that fails it at once, or the
      webhook that cancels it at `at` after it was left pending or its answer was not recorded. */
  datatype Failure =
    | OnTheSpot(now: int, answer: Answer)
    | ByWebhook(now: int, answer: Answer, recorded: bool, at: int)

  predicate IsFailure(f: Failure) {
    match f
    case OnTheSpot(_, answer) => answer.Declined? || answer.NoAnswer?
    case ByWebhook(_, answer, recorded, _) => answer.Pending? || !recorded
  }

  predicate AllFail(fs: seq<Failure>) {
    forall f <- fs :: IsFailure(f)
  }

  /** The instant from which the next delay counts. */
  function FailedAt(f: Failure): int {
    if f.OnTheSpot? then f.now else f.at
  }

  /** A lock, the charge, and where it was left open the webhook that cancels it. */
  function FailureSteps(attempt: nat, f: Failure): seq<Step> {
    match f
    case OnTheSpot(now, answer) => [LockDue(now), Charge(attempt, answer, true, 0, now)]
    case ByWebhook(now, answer, recorded, at) =>
      [LockDue(now), Charge(attempt, answer, recorded, 0, now), CancelWebhook(attempt, at)]
  }

  /** One step after another, from the front. */
  function Onward(policy: Policy, w: World, steps: seq<Step>): World
    decreases |steps|
  {
    if steps == [] then w else Onward(policy, Do(policy, w, steps[0]), steps[1..])
  }

  /** One group of steps after another. */
  function Groups(policy: Policy, w: World, groups: seq<seq<Step>>): World {
    if groups == [] then w else Onward(policy, Groups(policy, w, groups[..|groups| - 1]), groups[|groups| - 1])
  }

  function Flat(groups: seq<seq<Step>>): seq<Step> {
    if groups == [] then [] else Flat(groups[..|groups| - 1]) + groups[|groups| - 1]
  }

  /** From retry number `count`: one charge after another falls due, is locked and fails. */
  function Failing(count: nat, fs: seq<Failure>): seq<seq<Step>> {
    if fs == [] then []
    else
      var n := |fs| - 1;
      Failing(count, fs[..n]) + [FailureSteps(count + n + 1, fs[n])]
  }

  function FailingRun(policy: Policy, w: World, count: nat, fs: seq<Failure>): World {
    Groups(policy, w, Failing(count, fs))
  }

  lemma OneStepMore(policy: Policy, w: World, steps: seq<Step>, s: Step)
    ensures Run(policy, w, steps + [s]) == Do(policy, Run(policy, w, steps), s)
  {
    assert (steps + [s])[..|steps|] == steps;
  }

  lemma {:induction false} OnwardIsARun(policy: Policy, w: World, steps: seq<Step>, more: seq<Step>)
    ensures Onward(policy, Run(policy, w, steps), more) == Run(policy, w, steps + more)
    decreases |more|
  {
    if more == [] {
      assert steps + more == steps;
    } else {
      OneStepMore(policy, w, steps, more[0]);
      OnwardIsARun(policy, w, steps + [more[0]], more[1..]);
      assert steps + [more[0]] + more[1..] == steps + more;
    }
  }

  lemma {:induction false} GroupsAreARun(policy: Policy, w: World, groups: seq<seq<Step>>)
    ensures Groups(policy, w, groups) == Run(policy, w, Flat(groups))
    decreases |groups|
  {
    if groups != [] {
      var n := |groups| - 1;
      GroupsAreARun(policy, w, groups[..n]);
      OnwardIsARun(policy, w, Flat(groups[..n]), groups[n]);
    }
  }

  /** It is a run. */
  lemma FailingRunIsARun(policy: Policy, w: World, count: nat, fs: seq<Failure>)
    ensures FailingRun(policy, w, count, fs) == Run(policy, w, Flat(Failing(count, fs)))
  {
    GroupsAreARun(policy, w, Failing(count, fs));
  }

  lemma FailingMore(policy: Policy, w: World, count: nat, fs: seq<Failure>)
    requires fs != []
    ensures var n := |fs| - 1;
            FailingRun(policy, w, count, fs)
            == Onward(policy, FailingRun(policy, w, count, fs[..n]), FailureSteps(count + n + 1, fs[n]))
  {
    var groups := Failing(count, fs);
    assert groups[..|groups| - 1] == Failing(count, fs[..|fs| - 1]);
  }

  /** Each charge is attempted no earlier than it is due. */
  predicate InDueTime(policy: Policy, due: int, count: nat, fs: seq<Failure>) {
    (fs != [] ==> due <= fs[0].now) && forall k :: 1 <= k < |fs| ==> DelayPassed(policy, count, fs, k)
  }

  predicate DelayPassed(policy: Policy, count: nat, fs: seq<Failure>, k: nat)
    requires 1 <= k < |fs|
  {
    count + k <= |policy.schedule| ==> FailedAt(fs[k - 1]) + policy.schedule[count + k - 1] <= fs[k].now
  }

  lemma InDueTimeFront(policy: Policy, due: int, count: nat, fs: seq<Failure>, n: nat)
    requires InDueTime(policy, due, count, fs) && AllFail(fs) && n <= |fs|
    ensures InDueTime(policy, due, count, fs[..n]) && AllFail(fs[..n])
  {
    forall k | 1 <= k < n ensures DelayPassed(policy, count, fs[..n], k) {
      assert DelayPassed(policy, count, fs, k);
    }
  }

  predicate Waiting(p: Profile, due: int, count: nat) {
    p.auto && (p.status.Active? || p.status.Retry?) && p.nextChargeAt == Some(due) && p.retryCount == count
  }

  /** Where the failure of attempt `count` at `now` leaves the row: waiting for the next retry,
      or in grace. */
  predicate LeftAt(policy: Policy, row: Option<Profile>, count: nat, now: int)
    requires count >= 1
  {
    && row.Some?
    && if count <= |policy.schedule| then
         row.value.status.Retry? && Waiting(row.value, now + policy.schedule[count - 1], count)
       else row.value.auto && row.value.status.Grace? && row.value.graceUntil == Some(now + policy.grace)
  }

  /** After k failures from w on: k charges, and the row waits for retry count + k, or is in
      grace when the schedule is used up. */
  predicate Climbed(policy: Policy, w: World, after: World, count: nat, fs: seq<Failure>)
    requires fs != []
  {
    after.charges == w.charges + |fs| && LeftAt(policy, after.row, count + |fs|, FailedAt(fs[|fs| - 1]))
  }

  lemma WaitingIsLocked(policy: Policy, w: World, due: int, count: nat, now: int)
    requires w.row.Some? && Waiting(w.row.value, due, count) && due <= now
    ensures var locked := Do(policy, w, LockDue(now));
            locked.row.Some? && locked.row.value.auto && count + 1 in locked.held && locked.charges == w.charges
  {
  }

  /** A failed charge is counted and leaves the row at its delay; one left open is counted and issued. */
  lemma ChargeFails(policy: Policy, w: World, attempt: nat, answer: Answer, recorded: bool, now: int)
    requires attempt >= 1 && attempt in w.held && w.row.Some? && w.row.value.auto && !answer.Charged?
    ensures var after := Do(policy, w, Charge(attempt, answer, recorded, 0, now));
            && after.charges == w.charges + 1 && attempt in after.issued
            && (if recorded && !answer.Pending? then LeftAt(policy, after.row, attempt, now) else after.row == w.row)
  {
  }

  lemma ChargeLeftOpen(policy: Policy, w: World, attempt: nat, answer: Answer, now: int)
    requires attempt >= 1 && attempt in w.held
    ensures var after := Do(policy, w, Charge(attempt, answer, false, 0, now));
            after.charges == w.charges + 1 && attempt in after.issued && after.row == w.row
  {
  }

  lemma WebhookFails(policy: Policy, w: World, attempt: nat, at: int)
    requires attempt >= 1 && attempt in w.issued && w.row.Some? && w.row.value.auto
    ensures var after := Do(policy, w, CancelWebhook(attempt, at));
            after.charges == w.charges && LeftAt(policy, after.row, attempt, at)
  {
  }

  lemma OnwardTwo(policy: Policy, w: World, a: Step, b: Step)
    ensures Onward(policy, w, [a, b]) == Do(policy, Do(policy, w, a), b)
  {
    assert [a, b][1..] == [b] && [b][1..] == [];
    var after := Do(policy, Do(policy, w, a), b);
    assert Onward(policy, after, []) == after;
  }

  lemma OnwardThree(policy: Policy, w: World, a: Step, b: Step, c: Step)
    ensures Onward(policy, w, [a, b, c]) == Do(policy, Do(policy, Do(policy, w, a), b), c)
  {
    assert [a, b, c][1..] == [b, c];
    OnwardTwo(policy, Do(policy, w, a), b, c);
  }

  lemma FailsAtOnce(policy: Policy, w: World, due: int, count: nat, answer: Answer, now: int)
    requires w.row.Some? && Waiting(w.row.value, due, count) && due <= now && (answer.Declined? || answer.NoAnswer?)
    ensures var after := Do(policy, Do(policy, w, LockDue(now)), Charge(count + 1, answer, true, 0, now));
            after.charges == w.charges + 1 && LeftAt(policy, after.row, count + 1, now)
  {
    WaitingIsLocked(policy, w, due, count, now);
    ChargeFails(policy, Do(policy, w, LockDue(now)), count + 1, answer, true, now);
  }

  lemma LeftOpen(policy: Policy, w: World, due: int, count: nat, answer: Answer, recorded: bool, now: int)
    requires w.row.Some? && Waiting(w.row.value, due, count) && due <= now && (answer.Pending? || !recorded)
    ensures var after := Do(policy, Do(policy, w, LockDue(now)), Charge(count + 1, answer, recorded, 0, now));
            after.charges == w.charges + 1 && count + 1 in after.issued && after.row.Some? && after.row.value.auto
  {
    WaitingIsLocked(policy, w, due, count, now);
    if recorded {
      ChargeFails(policy, Do(policy, w, LockDue(now)), count + 1, answer, true, now);
    } else {
      ChargeLeftOpen(policy, Do(policy, w, LockDue(now)), count + 1, answer, now);
    }
  }

  lemma FailedCharge(policy: Policy, w: World, due: int, count: nat, f: Failure)
    requires w.row.Some? && Waiting(w.row.value, due, count) && due <= f.now && IsFailure(f)
    ensures var after := Onward(policy, w, FailureSteps(count + 1, f));
            after.charges == w.charges + 1 && LeftAt(policy, after.row, count + 1, FailedAt(f))
  {
    match f
    case OnTheSpot(now, answer) =>
      OnwardTwo(policy, w, LockDue(now), Charge(count + 1, answer, true, 0, now));
      FailsAtOnce(policy, w, due, count, answer, now);
    case ByWebhook(now, answer, recorded, at) =>
      var a, b := LockDue(now), Charge(count + 1, answer, recorded, 0, now);
      OnwardThree(policy, w, a, b, CancelWebhook(count + 1, at));
      LeftOpen(policy, w, due, count, answer, recorded, now);
      WebhookFails(policy, Do(policy, Do(policy, w, a), b), count + 1, at);
  }

  lemma ClimbsOn(policy: Policy, w: World, before: World, count: nat, fs: seq<Failure>)
    requires |fs| > 1 && count + |fs| <= |policy.schedule| + 1 && DelayPassed(policy, count, fs, |fs| - 1)
    requires IsFailure(fs[|fs| - 1]) && Climbed(policy, w, before, count, fs[..|fs| - 1])
    ensures Climbed(policy, w, Onward(policy, before, FailureSteps(count + |fs|, fs[|fs| - 1])), count, fs)
  {
    var n := |fs| - 1;
    FailedCharge(policy, before, FailedAt(fs[n - 1]) + policy.schedule[count + n - 1], count + n, fs[n]);
  }

  /** Failures in due time climb, from any retry on. */
  lemma {:induction false} FailuresClimb(policy: Policy, w: World, due: int, count: nat, fs: seq<Failure>)
    requires w.row.Some? && Waiting(w.row.value, due, count)
    requires fs != [] && count + |fs| <= |policy.schedule| + 1 && InDueTime(policy, due, count, fs) && AllFail(fs)
    ensures Climbed(policy, w, FailingRun(policy, w, count, fs), count, fs)
    decreases |fs|
  {
    var n := |fs| - 1;
    FailingMore(policy, w, count, fs);
    if n == 0 {
      assert FailingRun(policy, w, count, fs[..0]) == w;
      FailedCharge(policy, w, due, count, fs[0]);
    } else {
      InDueTimeFront(policy, due, count, fs, n);
      FailuresClimb(policy, w, due, count, fs[..n]);
      assert DelayPassed(policy, count, fs, n);
      ClimbsOn(policy, w, FailingRun(policy, w, count, fs[..n]), count, fs);
    }
  }

  /** For every schedule of length n: n + 1 failures in due time on a fresh profile make n + 1
      charges and lead through retries 1 to n into grace; the sweep after it expires the row. */
  lemma FailuresEndInExpiry(policy: Policy, w: World, due: int, fs: seq<Failure>, now: int)
    requires w.row.Some? && Waiting(w.row.value, due, 0)
    requires |fs| == |policy.schedule| + 1 && InDueTime(policy, due, 0, fs) && AllFail(fs)
    requires now >= FailedAt(fs[|fs| - 1]) + policy.grace
    ensures forall k :: 1 <= k <= |policy.schedule| ==>
              var p := FailingRun(policy, w, 0, fs[..k]).row;
              p.Some? && p.value.status == Retry && p.value.retryCount == k
    ensures var after := Do(policy, Do(policy, FailingRun(policy, w, 0, fs), LockGrace(now)), Suspend);
            && after.charges == w.charges + |policy.schedule| + 1
            && after.row.Some? && after.row.value.status == Expired && !after.row.value.auto && Unwilling(after)
  {
    forall k | 1 <= k <= |policy.schedule|
      ensures var p := FailingRun(policy, w, 0, fs[..k]).row;
              p.Some? && p.value.status == Retry && p.value.retryCount == k
    {
      InDueTimeFront(policy, due, 0, fs, k);
      FailuresClimb(policy, w, due, 0, fs[..k]);
    }
    FailuresClimb(policy, w, due, 0, fs);
    SweepExpires(policy, FailingRun(policy, w, 0, fs), now);
  }

  lemma SweepExpires(policy: Policy, w: World, now: int)
    requires w.row.Some? && DueForSuspension(w.row.value, now)
    ensures var after := Do(policy, Do(policy, w, LockGrace(now)), Suspend);
            && after.charges == w.charges && Unwilling(after)
            && after.row.Some? && after.row.value.status == Expired && !after.row.value.auto
  {
  }

  /** From any state: once the user has paid with a method to be saved, the same number of
      failures, no more and no less, ends in expiry again. */
  lemma EveryPaymentStartsAfresh(policy: Policy, w: World, nextAt: int, fs: seq<Failure>, now: int)
    requires |fs| == |policy.schedule| + 1 && InDueTime(policy, nextAt, 0, fs) && AllFail(fs)
    requires now >= FailedAt(fs[|fs| - 1]) + policy.grace
    ensures var paid := Do(policy, w, Checkout(true, nextAt));
            var failed := FailingRun(policy, paid, 0, fs);
            var after := Do(policy, Do(policy, failed, LockGrace(now)), Suspend);
            && failed.charges == w.charges + |policy.schedule| + 1
            && failed.row.Some? && failed.row.value.status == Grace
            && Unwilling(after) && after.row.Some? && after.row.value.status == Expired
  {
    var paid := Do(policy, w, Checkout(true, nextAt));
    FailuresClimb(policy, paid, nextAt, 0, fs);
    SweepExpires(policy, FailingRun(policy, paid, 0, fs), now);
  }

  // ---------------------------------------------------------------- what late messages do

  /** A late cancellation of an attempt that has a retry makes the row chargeable again exactly
      when auto-renewal is still on: in grace it reopens the charging that had ended, after
      expiry or switching off it does not. */
  lemma LateCancelReopensIffOn(policy: Policy, w: World, attempt: nat, now: int)
    requires w.row.Some? && attempt in w.issued && 1 <= attempt <= |policy.schedule|
    ensures var p := Do(policy, w, CancelWebhook(attempt, now)).row.value;
            (exists later :: DueForCharge(p, later)) <==> w.row.value.auto
  {
    var p := Do(policy, w, CancelWebhook(attempt, now)).row.value;
    if w.row.value.auto {
      assert DueForCharge(p, now + policy.schedule[attempt - 1]);
    }
  }

  /** The cancellation sets the counter back to its own attempt, so after the grace has begun
      the remaining retries are all charged once more. */
  lemma LateCancelRepeatsRetries(policy: Policy, w: World, attempt: nat, now: int, fs: seq<Failure>)
    requires w.row.Some? && w.row.value.auto && w.row.value.status.Grace?
    requires attempt in w.issued && 1 <= attempt <= |policy.schedule|
    requires |fs| == |policy.schedule| + 1 - attempt
    requires InDueTime(policy, now + policy.schedule[attempt - 1], attempt, fs) && AllFail(fs)
    ensures var after := FailingRun(policy, Do(policy, w, CancelWebhook(attempt, now)), attempt, fs);
            && after.charges == w.charges + |policy.schedule| + 1 - attempt
            && after.row.Some? && after.row.value.status == Grace
  {
    FailuresClimb(policy, Do(policy, w, CancelWebhook(attempt, now)), now + policy.schedule[attempt - 1], attempt, fs);
  }

  /** A charge that was in a worker's hands when the user switched auto-renewal off is made all
      the same, and switches it on again exactly if the provider takes it with a saved method
      and the answer is recorded. */
  lemma ChargeInFlightSwitchesBackOn(policy: Policy, w: World, attempt: nat, answer: Answer, recorded: bool,
                                     nextAt: int, now: int)
    requires w.row.Some? && attempt in w.held && attempt >= 1
    ensures var off := Do(policy, w, Disable);
            var after := Do(policy, off, Charge(attempt, answer, recorded, nextAt, now));
            && !off.row.value.auto && after.charges == w.charges + 1 && after.row.Some?
            && (after.row.value.auto <==> recorded && answer == Charged(true))
            && (after.row.value.auto ==> after.row.value.nextChargeAt == Some(nextAt))
  {
  }

  /** A payment is undone by the next suspension exactly if a sweep is still between its lock and
      that suspension, which does not look at the row again. */
  lemma PaymentSurvivesIffNoSweep(policy: Policy, w: World, nextAt: int)
    ensures var paid := Do(policy, w, Checkout(true, nextAt));
            var after := Do(policy, paid, Suspend);
            && (after.row == paid.row <==> w.sweeps == 0)
            && (w.sweeps > 0 ==> after.row.value.status == Expired && !after.row.value.auto
                                 && after.row.value.nextChargeAt == None)
  {
  }

  /** The interleaving that opens one: the sweep locks, the payment lands, the sweep suspends. */
  lemma SweepUndoesPayment(policy: Policy, w: World, nextAt: int, now: int)
    requires w.row.Some? && DueForSuspension(w.row.value, now)
    ensures var paid := Do(policy, Do(policy, w, LockGrace(now)), Checkout(true, nextAt));
            var after := Do(policy, paid, Suspend);
            && paid.row.value.status == Active && paid.row.value.auto
            && after.row.value.status == Expired && !after.row.value.auto && after.row.value.nextChargeAt == None
  {
    PaymentSurvivesIffNoSweep(policy, Do(policy, w, LockGrace(now)), nextAt);
  }

  /** Sweeps locked and not yet followed by their suspension. */
  function OpenSweeps(policy: Policy, w: World, steps: seq<Step>): int {
    if steps == [] then w.sweeps
    else
      var n := |steps| - 1;
      var before := Run(policy, w, steps[..n]);
      OpenSweeps(policy, w, steps[..n])
      + (if steps[n].LockGrace? && before.row.Some? && DueForSuspension(before.row.value, steps[n].now) then 1
         else if steps[n].Suspend? && before.row.Some? && OpenSweeps(policy, w, steps[..n]) > 0 then -1
         else 0)
  }

  /** Over every run: a payment right after it survives a suspension iff every sweep that locked
      an expired grace has suspended. */
  lemma {:induction false} PaymentSurvivesIffSweepsClosed(policy: Policy, steps: seq<Step>, nextAt: int)
    ensures var w := Run(policy, START, steps);
            var paid := Do(policy, w, Checkout(true, nextAt));
            && w.sweeps == OpenSweeps(policy, START, steps)
            && (Do(policy, paid, Suspend).row == paid.row <==> OpenSweeps(policy, START, steps) == 0)
    decreases |steps|
  {
    if steps != [] {
      PaymentSurvivesIffSweepsClosed(policy, steps[..|steps| - 1], nextAt);
    }
    PaymentSurvivesIffNoSweep(policy, Run(policy, START, steps), nextAt);
  }
}
