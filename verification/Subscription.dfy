/** The subscription ledger: one row per user, the append-only grant journal, the message
    table that is purged, and referral rewards. Each function is one database transaction;
    `log` and `events` are the history the properties speak about. */
module Subscription {
  import opened Prelude

  /** make_interval(days => n) on timestamps, in seconds. */
  const DAY := 86400
  const TRIAL_PLAN := "trial_3d"

  datatype Status = NoPlan | Trial | Active | Grace | Expired

  datatype Row = Row(status: Status, planCode: Option<string>, trialUsed: bool,
                     startedAt: Option<int>, expiresAt: Option<int>, graceUntil: Option<int>,
                     canceledAt: Option<int>, lastPaymentId: Option<string>,
                     autoRenew: bool, cancelAtPeriodEnd: bool, accessRev: int)

  const FRESH_ROW := Row(NoPlan, None, false, None, None, None, None, None, false, false, 0)

  datatype Source = FromTrial | FromPayment | FromReferral

  /** One prolongation of `expires_at`: it covers the instants from `start` to `until`. */
  datatype Extension = Extension(user: int, source: Source, key: string, days: int, start: int, until: int)

  datatype EventKind = TrialStarted | Activated | Canceled | GraceStarted | Suspended

  /** The last field says of a cancellation that access runs on to the end of the period. */
  datatype Event = Event(user: int, kind: EventKind, rev: int, until: Option<int>, atPeriodEnd: bool)

  datatype Referral = Referral(referrer: int, converted: bool)

  datatype World = World(subs: map<int, Row>, grants: set<(int, Source, string)>, processed: set<string>,
                         referrals: map<int, Referral>, rewards: map<int, int>,
                         log: seq<Extension>, events: seq<Event>)

  const EMPTY := World(map[], {}, {}, map[], map[], [], [])

  /** The clock readings of one transaction: at its first read, at the grant, at its last read. */
  datatype Clock = Clock(first: int, now: int, last: int)

  // ---------------------------------------------------------------- one row

  function Base(expiresAt: Option<int>, now: int): int {
    if expiresAt.Some? then Max(expiresAt.value, now) else now
  }

  /** GREATEST(COALESCE(expires_at, now), now) + days. */
  function Extend(expiresAt: Option<int>, now: int, days: int): int {
    Base(expiresAt, now) + days * DAY
  }

  function Expire(row: Row, now: int): Row {
    if || ((row.status.Trial? || row.status.Active?) && row.expiresAt.Some? && row.expiresAt.value <= now)
       || (row.status.Grace? && row.graceUntil.Some? && row.graceUntil.value <= now)
    then row.(status := Expired, autoRenew := false, cancelAtPeriodEnd := true, accessRev := row.accessRev + 1)
    else row
  }

  function OrElse<T>(o: Option<T>, x: T): Option<T> {
    if o.Some? then o else Some(x)
  }

  predicate PaidActive(row: Row, now: int) {
    row.status.Active? && row.expiresAt.Some? && row.expiresAt.value > now
  }

  function TrialGranted(row: Row, now: int, days: int): Row {
    var paid := PaidActive(row, now);
    Row(if paid then Active else Trial,
        if paid then row.planCode else Some(TRIAL_PLAN),
        true,
        OrElse(row.startedAt, now),
        Some(Extend(row.expiresAt, now, days)),
        None,
        if paid then row.canceledAt else None,
        if paid then row.lastPaymentId else None,
        paid && row.autoRenew,
        paid && row.cancelAtPeriodEnd,
        row.accessRev + 1)
  }

  function PaymentGranted(row: Row, now: int, plan: string, days: int, paymentId: string, autoRenew: bool): Row {
    row.(status := Active,
         planCode := Some(plan),
         startedAt := OrElse(row.startedAt, now),
         expiresAt := Some(Extend(row.expiresAt, now, days)),
         graceUntil := None,
         canceledAt := None,
         lastPaymentId := Some(paymentId),
         autoRenew := row.autoRenew || autoRenew,
         cancelAtPeriodEnd := !autoRenew && row.cancelAtPeriodEnd,
         accessRev := row.accessRev + 1)
  }

  function ReferralGranted(row: Row, now: int, days: int): Row {
    row.(expiresAt := Some(Extend(row.expiresAt, now, days)),
         status := if row.status.Expired? || row.status.NoPlan? then Active else row.status,
         accessRev := row.accessRev + 1)
  }

  // ---------------------------------------------------------------- transactions

  /** ensureUserAndStateTx and then a read that expires lazily. */
  function Seen(w: World, user: int, now: int): World {
    w.(subs := w.subs[user := Expire(RowOf(w, user), now)])
  }

  function RowOf(w: World, user: int): Row {
    if user in w.subs then w.subs[user] else FRESH_ROW
  }

  /** The row is rewritten and read once more before the commit. */
  function Put(w: World, user: int, row: Row, last: int): World {
    w.(subs := w.subs[user := Expire(row, last)])
  }

  datatype TrialOutcome = TrialDone | TrialOnTopOfPaid | TrialAlreadyUsed | TrialDeferredGrace | TrialFailed

  /** An error rolls the transaction back: the world is as before. */
  function StartTrial(w: World, user: int, days: int, t: Clock): (World, TrialOutcome) {
    var seen := Seen(w, user, t.first);
    var row := seen.subs[user];
    if days <= 0 then (w, TrialFailed)
    else if row.trialUsed then (seen, TrialAlreadyUsed)
    else if row.status.Grace? then (seen, TrialDeferredGrace)
    else if (user, FromTrial, "trial") in w.grants then (w, TrialFailed)
    else
      var after := TrialGranted(row, t.now, days);
      (Put(seen, user, after, t.last)
         .(grants := w.grants + {(user, FromTrial, "trial")},
           log := w.log + [Extension(user, FromTrial, "trial", days, Base(row.expiresAt, t.now),
                                     after.expiresAt.value)]),
       if PaidActive(row, t.now) then TrialOnTopOfPaid else TrialDone)
  }

  datatype PaidOutcome = Applied | Duplicate | PaidFailed

  function ActivatePaid(w: World, user: int, plan: string, days: int, paymentId: string, autoRenew: bool, t: Clock)
    : (World, PaidOutcome)
  {
    var seen := Seen(w, user, t.first);
    var row := seen.subs[user];
    var mark := "payment:" + paymentId;
    var marked := if paymentId == "" then seen else seen.(processed := w.processed + {mark});
    if paymentId != "" && mark in w.processed then (seen, Duplicate)
    else if paymentId != "" && row.lastPaymentId == Some(paymentId) then (marked, Duplicate)
    else if days <= 0 then (w, PaidFailed)
    else if paymentId != "" && (user, FromPayment, paymentId) in w.grants then (marked, Duplicate)
    else
      var after := PaymentGranted(row, t.now, plan, days, paymentId, autoRenew);
      (Put(marked, user, after, t.last)
         .(grants := if paymentId == "" then w.grants else w.grants + {(user, FromPayment, paymentId)},
           log := w.log + [Extension(user, FromPayment, paymentId, days, Base(row.expiresAt, t.now),
                                     after.expiresAt.value)]),
       Applied)
  }

  function ConvertedBy(w: World, user: int): set<int> {
    set r | r in w.referrals && w.referrals[r].converted && w.referrals[r].referrer == user
  }

  function Rewarded(w: World, user: int): int {
    if user in w.rewards then w.rewards[user] else 0
  }

  function Available(w: World, user: int, usersPerMonth: int): int {
    var per := if usersPerMonth <= 0 then 1 else usersPerMonth;
    TruncDiv(|ConvertedBy(w, user)|, per) - Rewarded(w, user)
  }

  /** Returns the months granted. */
  function Redeem(w: World, user: int, usersPerMonth: int, daysPerMonth: int, now: int): (World, int) {
    var months := Available(w, user, usersPerMonth);
    if months <= 0 then (w, 0)
    else
      var days := months * (if daysPerMonth <= 0 then 30 else daysPerMonth);
      var row := RowOf(w, user);
      var after := ReferralGranted(row, now, days);
      (w.(subs := w.subs[user := after],
          rewards := w.rewards[user := Rewarded(w, user) + months],
          log := w.log + [Extension(user, FromReferral, "", days, Base(row.expiresAt, now), after.expiresAt.value)]),
       months)
  }

  function Convert(w: World, referee: int): World {
    if referee in w.referrals && !w.referrals[referee].converted
    then w.(referrals := w.referrals[referee := w.referrals[referee].(converted := true)])
    else w
  }

  function Attribute(w: World, referee: int, referrer: int): World {
    if referee == referrer || referee in w.referrals then w
    else w.(referrals := w.referrals[referee := Referral(referrer, false)])
  }

  function Cancel(w: World, user: int, t: Clock): (World, bool) {
    var seen := Seen(w, user, t.first);
    var row := seen.subs[user];
    if row.status.Trial? then
      (Put(seen, user,
           row.(status := Expired, expiresAt := Some(t.now), graceUntil := None, canceledAt := Some(t.now),
                autoRenew := false, cancelAtPeriodEnd := true, accessRev := row.accessRev + 1), t.last), true)
    else if row.status.Active? || row.status.Grace? then
      (Put(seen, user, row.(autoRenew := false, cancelAtPeriodEnd := true, canceledAt := Some(t.now)), t.last), true)
    else (seen, false)
  }

  function DisableAutoRenew(w: World, user: int, t: Clock): World {
    var row := RowOf(w, user);
    Put(w, user,
        row.(autoRenew := false,
             cancelAtPeriodEnd := row.status.Active? || row.status.Grace? || row.cancelAtPeriodEnd), t.last)
  }

  function StartGrace(w: World, user: int, graceUntil: int, t: Clock): World {
    var row := RowOf(w, user);
    Put(w, user,
        if row.status.Active? || row.status.Grace?
        then row.(status := Grace, graceUntil := Some(graceUntil)) else row, t.last)
  }

  function Suspend(w: World, user: int, t: Clock): World {
    var row := RowOf(w, user);
    Put(w, user,
        row.(status := Expired,
             expiresAt := if row.expiresAt.None? || row.expiresAt.value > t.now then Some(t.now) else row.expiresAt,
             graceUntil := None, autoRenew := false, cancelAtPeriodEnd := true,
             accessRev := row.accessRev + 1), t.last)
  }

  // ---------------------------------------------------------------- message handlers

  function Emit(w: World, user: int, kind: EventKind, until: Option<int>): World {
    var row := RowOf(w, user);
    var atPeriodEnd := kind.Canceled? && row.cancelAtPeriodEnd && !row.status.Expired?;
    w.(events := w.events + [Event(user, kind, row.accessRev, until, atPeriodEnd)])
  }

  /** What happens to a message around its business transaction. */
  datatype Fate = CrashBefore | CrashBetween | Done

  datatype Op =
    | StartTrialCmd(user: int, days: int, t: Clock)
    | PaymentSucceeded(messageId: string, fate: Fate, user: int, plan: string, days: int,
                       paymentId: string, autoRenew: bool, t: Clock)
    | RedeemCmd(user: int, usersPerMonth: int, daysPerMonth: int, t: Clock)
    | CancelCmd(user: int, t: Clock)
    | AutoRenewDisabled(user: int, t: Clock)
    | GraceStart(user: int, graceUntil: int, t: Clock)
    | AccessExpired(user: int, suspendedAt: int, t: Clock)
    | ReadStatus(user: int, t: Clock)
    | AttributeCmd(user: int, referrer: int)
    | Purge(ids: set<string>)

  function HandleTrial(w: World, user: int, days: int, t: Clock): World {
    var (after, outcome) := StartTrial(w, user, days, t);
    if outcome.TrialDone? || outcome.TrialOnTopOfPaid?
    then Emit(after, user, TrialStarted, RowOf(after, user).expiresAt) else after
  }

  function HandlePayment(w: World, user: int, plan: string, days: int, paymentId: string, autoRenew: bool, t: Clock)
    : World
  {
    var (after, outcome) := ActivatePaid(w, user, plan, days, paymentId, autoRenew, t);
    if outcome.Applied? then Emit(Convert(after, user), user, Activated, RowOf(after, user).expiresAt) else after
  }

  /** The inbox mark is committed after the business transaction, in a transaction of its own. */
  function ProcessOnce(w: World, messageId: string, fate: Fate, handled: World): World {
    var mark := "user-subscription-service:" + messageId;
    if mark in w.processed || fate.CrashBefore? then w
    else if fate.CrashBetween? then handled
    else handled.(processed := handled.processed + {mark})
  }

  /** A handler that fails leaves its message unmarked. */
  function DeliverPayment(w: World, messageId: string, fate: Fate, user: int, plan: string, days: int,
                          paymentId: string, autoRenew: bool, t: Clock): World
  {
    var handled := HandlePayment(w, user, plan, days, paymentId, autoRenew, t);
    if ActivatePaid(w, user, plan, days, paymentId, autoRenew, t).1.PaidFailed? then w
    else ProcessOnce(w, messageId, fate, handled)
  }

  function HandleRedeem(w: World, user: int, usersPerMonth: int, daysPerMonth: int, t: Clock): World {
    var (granted, months) := Redeem(w, user, usersPerMonth, daysPerMonth, t.now);
    if months <= 0 then w
    else
      var after := Seen(granted, user, t.last);
      Emit(after, user, Activated, RowOf(after, user).expiresAt)
  }

  function HandleCancel(w: World, user: int, t: Clock): World {
    var (after, changed) := Cancel(w, user, t);
    if changed then Emit(after, user, Canceled, RowOf(after, user).expiresAt) else after
  }

  function Step(w: World, op: Op): World {
    match op
    case StartTrialCmd(user, days, t) => HandleTrial(w, user, days, t)
    case PaymentSucceeded(messageId, fate, user, plan, days, paymentId, autoRenew, t) =>
      DeliverPayment(w, messageId, fate, user, plan, days, paymentId, autoRenew, t)
    case RedeemCmd(user, usersPerMonth, daysPerMonth, t) => HandleRedeem(w, user, usersPerMonth, daysPerMonth, t)
    case CancelCmd(user, t) => HandleCancel(w, user, t)
    case AutoRenewDisabled(user, t) => DisableAutoRenew(w, user, t)
    case GraceStart(user, graceUntil, t) =>
      Emit(StartGrace(w, user, graceUntil, t), user, GraceStarted, Some(graceUntil))
    case AccessExpired(user, suspendedAt, t) => Emit(Suspend(w, user, t), user, Suspended, Some(suspendedAt))
    case ReadStatus(user, t) => Seen(w, user, t.first)
    case AttributeCmd(user, referrer) => Attribute(w, user, referrer)
    case Purge(ids) => w.(processed := w.processed - ids)
  }

  function Run(w: World, ops: seq<Op>): World
    decreases |ops|
  {
    if ops == [] then w else Run(Step(w, ops[0]), ops[1..])
  }
}
