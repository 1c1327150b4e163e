/** One consumer of one partition: fetch, handle with in-place retry, dead-letter topic,
    commit; crashes and restarts anywhere in between. The handler is the orchestrator's, which
    marks the inbox in the transaction of its effect. */
module Consumer {
  import opened Prelude

  /** id is the inbox key, key the attempt key (topic, message key and timestamp). */
  datatype Message = Message(id: int, key: int)

  const MAX_FAILURES := 20

  /** Everything that outlives the process, and the reader's position. `purged` and
      `passed` are history: inbox rows deleted by the cleaner, and offsets of which some delivery
      gave up or skipped without getting a dead letter out. */
  datatype State = State(
    committed: nat, position: nat, alive: bool,
    inbox: set<int>, applied: multiset<int>, purged: multiset<int>,
    counters: Counters, dead: set<nat>, passed: set<nat>)

  /** The attempt store, with the history of deliveries that ended with a full counter and of
      increments stored without the consumer learning the count. */
  datatype Counters = Counters(attempts: map<int, nat>, stalled: map<int, nat>, unanswered: map<int, nat>)

  const START := State(0, 0, true, {}, multiset{}, multiset{}, Counters(map[], map[], map[]), {}, {})

  /** What befalls one run of the handler. */
  datatype Try = Succeeds | Fails | Skips | Unreadable | CommitFails | CommitUnanswered

  datatype Verdict = Fine | Skip | Error

  /** What befalls the counter after a failure. When the store gives an error the failure is
      taken for the first, whether or not the increment was stored. */
  datatype Count = Counted | StoredUnanswered | Uncounted | DiesUncounted

  datatype Attempt = Attempt(what: Try, count: Count)

  datatype Publish = Taken | Refused | Unanswered | DiesUnpublished

  datatype Commit = CommitOk | CommitRefused | CommitWithoutAnswer

  /** The outside world during one delivery; when the attempts run out the process dies. */
  datatype Env = Env(attempts: seq<Attempt>, dlt: Publish, reset: bool, commit: Commit)

  /** processOrchestratorMessageOnce. */
  function TryOnce(s: State, m: Message, t: Try): (Verdict, State) {
    if t.Unreadable? then (Skip, s)
    else if m.id in s.inbox then (if t.CommitFails? || t.CommitUnanswered? then Error else Fine, s)
    else
      var done := s.(inbox := s.inbox + {m.id}, applied := s.applied + multiset{m.id});
      match t
      case Succeeds => (Fine, done)
      case CommitUnanswered => (Error, done)
      case Skips => (Skip, s)
      case _ => (Error, s)
  }

  function Get(m: map<int, nat>, key: int): nat {
    if key in m then m[key] else 0
  }

  function Plus(m: map<int, nat>, key: int, k: nat): map<int, nat> {
    if k == 0 then m else m[key := Get(m, key) + k]
  }

  /** The number of failures as reported, and the store after it. */
  function Inc(c: Counters, key: int, outcome: Count): (nat, Counters) {
    match outcome
    case Counted => (Get(c.attempts, key) + 1, c.(attempts := Plus(c.attempts, key, 1)))
    case StoredUnanswered => (1, c.(attempts := Plus(c.attempts, key, 1), unanswered := Plus(c.unanswered, key, 1)))
    case _ => (1, c)
  }

  /** A delivery ends without a reset. */
  function Kept(c: Counters, key: int): Counters {
    if Get(c.attempts, key) >= MAX_FAILURES then c.(stalled := c.stalled[key := Get(c.stalled, key) + 1]) else c
  }

  function Reset(c: Counters, key: int): Counters {
    c.(attempts := c.attempts - {key})
  }

  function Stop(s: State): State {
    s.(alive := false)
  }

  function Keep(s: State, key: int): State {
    s.(counters := Kept(s.counters, key))
  }

  /** Reset the counter, then commit the offset. */
  function Finish(s: State, key: int, env: Env): State {
    var s := s.(counters := if env.reset then Reset(s.counters, key) else Kept(s.counters, key),
                position := s.position + 1);
    match env.commit
    case CommitOk => s.(committed := s.position)
    case CommitRefused => Stop(s)
    case CommitWithoutAnswer => Stop(s.(committed := s.position))
  }

  function ToDead(s: State): State {
    s.(dead := s.dead + {s.position})
  }

  function PassOver(s: State): State {
    s.(passed := s.passed + {s.position})
  }

  /** Retries used up, or a retry asked to skip: commit only after the dead letter is out; when
      that fails, on to the next fetch without committing. */
  function GiveUp(s: State, key: int, configured: bool, env: Env): State {
    if !configured then Finish(PassOver(s), key, env)
    else
      match env.dlt
      case Taken => Finish(ToDead(s), key, env)
      case Refused => Keep(PassOver(s), key).(position := s.position + 1)
      case Unanswered => Keep(ToDead(s), key).(position := s.position + 1)
      case DiesUnpublished => Stop(Keep(s, key))
  }

  /** A skip on the first attempt: the dead letter is best effort, the commit is not. */
  function SkipFirst(s: State, key: int, configured: bool, env: Env): State {
    if !configured then Finish(PassOver(s), key, env)
    else
      match env.dlt
      case DiesUnpublished => Stop(Keep(s, key))
      case Refused => Finish(PassOver(s), key, env)
      case _ => Finish(ToDead(s), key, env)
  }

  /** The in-place retry loop, entered after a failure that was reported as number n. */
  function Retry(s: State, m: Message, n: nat, todo: seq<Attempt>, configured: bool, env: Env): State
    decreases |todo|
  {
    if n >= MAX_FAILURES then GiveUp(s, m.key, configured, env)
    else if todo == [] then Stop(Keep(s, m.key))
    else
      var (v, s) := TryOnce(s, m, todo[0].what);
      match v
      case Fine => Finish(s, m.key, env)
      case Skip => GiveUp(s, m.key, configured, env)
      case Error =>
        if todo[0].count.DiesUncounted? then Stop(Keep(s, m.key))
        else
          var (n, c) := Inc(s.counters, m.key, todo[0].count);
          Retry(s.(counters := c), m, n, todo[1..], configured, env)
  }

  /** From a fetch to the next one. */
  function Deliver(s: State, m: Message, configured: bool, env: Env): State {
    if env.attempts == [] then Stop(Keep(s, m.key))
    else
      var first := env.attempts[0];
      var (v, s) := TryOnce(s, m, first.what);
      match v
      case Fine => Finish(s, m.key, env)
      case Skip => SkipFirst(s, m.key, configured, env)
      case Error =>
        if first.count.DiesUncounted? then Stop(Keep(s, m.key))
        else
          var (n, c) := Inc(s.counters, m.key, first.count);
          Retry(s.(counters := c), m, n, env.attempts[1..], configured, env)
  }

  // ---------------------------------------------------------------- one run of the handler

  /** The effect comes with its inbox row, exactly once per row, and exactly if the transaction of an
      unmarked message went through; the caller learns of a skip, of success, or of an error. */
  lemma TryAppliesIff(s: State, m: Message, t: Try)
    ensures var (v, after) := TryOnce(s, m, t);
            var unmarked := m.id !in s.inbox;
            && after == (if unmarked && (t.Succeeds? || t.CommitUnanswered?)
                         then s.(inbox := s.inbox + {m.id}, applied := s.applied + multiset{m.id}) else s)
            && (v.Skip? <==> t.Unreadable? || (unmarked && t.Skips?))
            && (v.Fine? <==> t.Succeeds? || (!unmarked && (t.Fails? || t.Skips?)))
  {
  }

  /** A failure is stored unless the store fails outright, and reported with its number only if the
      store answers; every other key keeps its count. */
  lemma FailureIsCounted(c: Counters, key: int, outcome: Count, other: int)
    ensures var (n, after) := Inc(c, key, outcome);
            && Get(after.attempts, key)
               == Get(c.attempts, key) + (if outcome.Counted? || outcome.StoredUnanswered? then 1 else 0)
            && (other != key ==> Get(after.attempts, other) == Get(c.attempts, other))
            && n == (if outcome.Counted? then Get(after.attempts, key) else 1) && after.stalled == c.stalled
  {
  }

  // ---------------------------------------------------------------- what one delivery does

  predicate Applied(s: State, m: Message) {
    s.applied[m.id] > 0
  }

  /** The effect happened, the dead letter is out, or a delivery of the offset passed it over. */
  predicate Settled(s: State, m: Message, offset: nat) {
    Applied(s, m) || offset in s.dead || offset in s.passed
  }

  /** Effects and inbox rows match: one more effect than purged inbox rows, at most. */
  ghost predicate Ledger(s: State) {
    forall id :: s.applied[id] == s.purged[id] + if id in s.inbox then 1 else 0
  }

  predicate Bounded(c: Counters, key: int) {
    Get(c.attempts, key) <= 20 + Get(c.stalled, key) + Get(c.unanswered, key)
  }

  /** How s may have become t while message m sat at the position. */
  ghost predicate Moved(s: State, t: State, m: Message, configured: bool, env: Env) {
    && s.dead <= t.dead <= s.dead + {s.position} && s.passed <= t.passed <= s.passed + {s.position}
    && s.applied <= t.applied && t.purged == s.purged
    && (t.committed == s.committed || t.committed == t.position == s.position + 1)
    && (t.position == s.position || (t.position == s.position + 1 && Settled(t, m, s.position)))
    && (t.passed == s.passed || !configured || env.dlt.Refused?)
    && (Ledger(s) ==> Ledger(t))
  }

  lemma FinishMoves(s: State, t: State, m: Message, configured: bool, env: Env)
    requires s.position == t.position && s.committed == t.committed && Moved(s, t, m, configured, env)
    requires Settled(t, m, s.position)
    ensures Moved(s, Finish(t, m.key, env), m, configured, env)
  {
  }

  lemma GiveUpMoves(s: State, t: State, m: Message, configured: bool, env: Env)
    requires s.position == t.position && s.committed == t.committed && Moved(s, t, m, configured, env)
    ensures Moved(s, GiveUp(t, m.key, configured, env), m, configured, env)
  {
    if !configured {
      FinishMoves(s, PassOver(t), m, configured, env);
    } else if env.dlt.Taken? {
      FinishMoves(s, ToDead(t), m, configured, env);
    }
  }

  lemma TryMoves(s: State, t: State, m: Message, what: Try, configured: bool, env: Env)
    requires s.position == t.position && s.committed == t.committed && Moved(s, t, m, configured, env)
    requires Ledger(t)
    ensures var (v, u) := TryOnce(t, m, what);
            Moved(s, u, m, configured, env) && Ledger(u) && (v.Fine? ==> Applied(u, m))
            && u.position == t.position && u.committed == t.committed
  {
  }

  lemma {:induction false} RetryMoves(s: State, t: State, m: Message, n: nat, todo: seq<Attempt>, configured: bool,
                                      env: Env)
    requires s.position == t.position && s.committed == t.committed && Moved(s, t, m, configured, env)
    requires Ledger(t)
    ensures Moved(s, Retry(t, m, n, todo, configured, env), m, configured, env)
    decreases |todo|
  {
    if n >= MAX_FAILURES {
      GiveUpMoves(s, t, m, configured, env);
    } else if todo != [] {
      TryMoves(s, t, m, todo[0].what, configured, env);
      var (v, u) := TryOnce(t, m, todo[0].what);
      match v
      case Fine => FinishMoves(s, u, m, configured, env);
      case Skip => GiveUpMoves(s, u, m, configured, env);
      case Error =>
        if !todo[0].count.DiesUncounted? {
          var (n', c) := Inc(u.counters, m.key, todo[0].count);
          RetryMoves(s, u.(counters := c), m, n', todo[1..], configured, env);
        }
    }
  }

  lemma DeliverMoves(s: State, m: Message, configured: bool, env: Env)
    requires Ledger(s)
    ensures Moved(s, Deliver(s, m, configured, env), m, configured, env)
  {
    if env.attempts != [] {
      var first := env.attempts[0];
      TryMoves(s, s, m, first.what, configured, env);
      var (v, t) := TryOnce(s, m, first.what);
      match v
      case Fine => FinishMoves(s, t, m, configured, env);
      case Skip => SkipMoves(s, t, m, configured, env);
      case Error =>
        if !first.count.DiesUncounted? {
          var (n, c) := Inc(t.counters, m.key, first.count);
          RetryMoves(s, t.(counters := c), m, n, env.attempts[1..], configured, env);
        }
    }
  }

  lemma SkipMoves(s: State, t: State, m: Message, configured: bool, env: Env)
    requires s.position == t.position && s.committed == t.committed && Moved(s, t, m, configured, env)
    ensures Moved(s, SkipFirst(t, m.key, configured, env), m, configured, env)
  {
    if !configured || env.dlt.Refused? {
      FinishMoves(s, PassOver(t), m, configured, env);
    } else if !env.dlt.DiesUnpublished? {
      FinishMoves(s, ToDead(t), m, configured, env);
    }
  }

  // ---------------------------------------------------------------- the counter

  /** Inside a delivery of a message of key `own` that began in c: only that key counts, and but
      for unanswered increments it stays below the limit, or where it was, until one failure more
      ends the loop. */
  predicate Counting(c: Counters, d: Counters, own: int, key: int, more: nat) {
    && Get(d.stalled, key) == Get(c.stalled, key) && Get(d.unanswered, key) >= Get(c.unanswered, key)
    && Get(d.attempts, key)
       <= if key != own then Get(c.attempts, key)
          else Max(Get(c.attempts, key), MAX_FAILURES - 1) + more + Get(d.unanswered, key) - Get(c.unanswered, key)
  }

  lemma EndingIsBounded(c: Counters, d: Counters, own: int, key: int)
    requires Bounded(c, key) && Counting(c, d, own, key, 1)
    ensures Bounded(Kept(d, own), key) && Bounded(Reset(d, own), key)
  {
  }

  lemma FinishIsBounded(c: Counters, t: State, own: int, env: Env, key: int)
    requires Bounded(c, key) && Counting(c, t.counters, own, key, 1)
    ensures Bounded(Finish(t, own, env).counters, key)
  {
    EndingIsBounded(c, t.counters, own, key);
  }

  lemma GivingUpIsBounded(c: Counters, t: State, own: int, configured: bool, env: Env, key: int)
    requires Bounded(c, key) && Counting(c, t.counters, own, key, 1)
    ensures Bounded(GiveUp(t, own, configured, env).counters, key)
    ensures Bounded(SkipFirst(t, own, configured, env).counters, key)
  {
    EndingIsBounded(c, t.counters, own, key);
    FinishIsBounded(c, PassOver(t), own, env, key);
    FinishIsBounded(c, ToDead(t), own, env, key);
  }

  lemma {:induction false} RetryIsBounded(c: Counters, t: State, m: Message, n: nat, todo: seq<Attempt>,
                                          configured: bool, env: Env, key: int)
    requires Bounded(c, key) && Counting(c, t.counters, m.key, key, if n >= MAX_FAILURES then 1 else 0)
    ensures Bounded(Retry(t, m, n, todo, configured, env).counters, key)
    decreases |todo|
  {
    if n >= MAX_FAILURES {
      GivingUpIsBounded(c, t, m.key, configured, env, key);
    } else if todo == [] {
      EndingIsBounded(c, t.counters, m.key, key);
    } else {
      var (v, u) := TryOnce(t, m, todo[0].what);
      match v
      case Fine => FinishIsBounded(c, u, m.key, env, key);
      case Skip => GivingUpIsBounded(c, u, m.key, configured, env, key);
      case Error =>
        if todo[0].count.DiesUncounted? {
          EndingIsBounded(c, u.counters, m.key, key);
        } else {
          var (n', d) := Inc(u.counters, m.key, todo[0].count);
          RetryIsBounded(c, u.(counters := d), m, n', todo[1..], configured, env, key);
        }
    }
  }

  lemma DeliverIsBounded(s: State, m: Message, configured: bool, env: Env, key: int)
    requires Bounded(s.counters, key)
    ensures Bounded(Deliver(s, m, configured, env).counters, key)
  {
    EndingIsBounded(s.counters, s.counters, m.key, key);
    if env.attempts != [] {
      var first := env.attempts[0];
      var (v, t) := TryOnce(s, m, first.what);
      match v
      case Fine => FinishIsBounded(s.counters, t, m.key, env, key);
      case Skip => GivingUpIsBounded(s.counters, t, m.key, configured, env, key);
      case Error =>
        if !first.count.DiesUncounted? {
          var (n, d) := Inc(t.counters, m.key, first.count);
          RetryIsBounded(s.counters, t.(counters := d), m, n, env.attempts[1..], configured, env, key);
        }
    }
  }

  // ---------------------------------------------------------------- runs

  datatype Step =
    | Next(env: Env)            // fetch the next message and see it through
    | Restart                   // also a rebalance: back to the committed offset
    | Elsewhere(id: int)        // the same message id handled by another consumer
    | PurgeInbox(id: int)       // the cleaner drops an old inbox row
    | PurgeCounter(key: int)    // and an old counter

  function Do(log: seq<Message>, configured: bool, s: State, step: Step): State {
    match step
    case Next(env) => if s.alive && s.position < |log| then Deliver(s, log[s.position], configured, env) else s
    case Restart => s.(alive := true, position := s.committed)
    case Elsewhere(id) => TryOnce(s, Message(id, 0), Succeeds).1
    case PurgeInbox(id) => if id in s.inbox then s.(inbox := s.inbox - {id}, purged := s.purged + multiset{id}) else s
    case PurgeCounter(key) => s.(counters := Reset(s.counters, key))
  }

  function Run(log: seq<Message>, configured: bool, steps: seq<Step>): State
    decreases |steps|
  {
    if steps == [] then START
    else Do(log, configured, Run(log, configured, steps[..|steps| - 1]), steps[|steps| - 1])
  }

  /** The steps that are not deliveries: a restart goes back to the commit and runs again, another
      consumer handles the message at most once per inbox row, and the cleaners drop what they name;
      each leaves the rest. A dead consumer, or one at the end of the log, does nothing. */
  lemma OtherStepsLeave(log: seq<Message>, configured: bool, s: State, step: Step)
    ensures step.Next? && (!s.alive || s.position >= |log|) ==> Do(log, configured, s, step) == s
    ensures step.Restart? ==> Do(log, configured, s, step) == s.(alive := true, position := s.committed)
    ensures step.Elsewhere? ==>
              Do(log, configured, s, step)
              == if step.id in s.inbox then s
                 else s.(inbox := s.inbox + {step.id}, applied := s.applied + multiset{step.id})
    ensures step.PurgeInbox? ==>
              var t := Do(log, configured, s, step);
              t.inbox == s.inbox - {step.id} && t == s.(inbox := t.inbox, purged := t.purged)
    ensures step.PurgeCounter? ==>
              var t := Do(log, configured, s, step);
              && Get(t.counters.attempts, step.key) == 0 && t == s.(counters := t.counters)
              && forall key :: key != step.key ==> Get(t.counters.attempts, key) == Get(s.counters.attempts, key)
  {
    if step.PurgeInbox? && step.id !in s.inbox {
      assert s.inbox - {step.id} == s.inbox;
    }
  }

  /** Offsets are settled in order: whatever lies before the reader, hence before the commit. */
  ghost predicate InOrder(log: seq<Message>, s: State) {
    && s.committed <= s.position <= |log|
    && forall o: nat :: o < s.position ==> Settled(s, log[o], o)
  }

  lemma {:induction false} RunKeeps(log: seq<Message>, configured: bool, steps: seq<Step>)
    ensures Ledger(Run(log, configured, steps)) && InOrder(log, Run(log, configured, steps))
    decreases |steps|
  {
    if steps != [] {
      RunKeeps(log, configured, steps[..|steps| - 1]);
      StepKeeps(log, configured, Run(log, configured, steps[..|steps| - 1]), steps[|steps| - 1]);
    }
  }

  lemma MovingKeepsOrder(log: seq<Message>, s: State, t: State, configured: bool, env: Env)
    requires InOrder(log, s) && s.position < |log| && Moved(s, t, log[s.position], configured, env)
    ensures InOrder(log, t)
  {
  }

  lemma StepKeeps(log: seq<Message>, configured: bool, s: State, step: Step)
    requires Ledger(s) && InOrder(log, s)
    ensures Ledger(Do(log, configured, s, step)) && InOrder(log, Do(log, configured, s, step))
  {
    match step
    case Next(env) =>
      if s.alive && s.position < |log| {
        DeliverMoves(s, log[s.position], configured, step.env);
        MovingKeepsOrder(log, s, Do(log, configured, s, step), configured, env);
      }
    case _ =>
  }

  /** In every run a counter exceeds 20 by no more than the deliveries of its key that ended
      with a full counter, the dead letter or the reset having failed, and the increments that
      were stored while the consumer was told an error. */
  lemma {:induction false} CountersAreBounded(log: seq<Message>, configured: bool, steps: seq<Step>, key: int)
    ensures Bounded(Run(log, configured, steps).counters, key)
    decreases |steps|
  {
    if steps != [] {
      var s, step := Run(log, configured, steps[..|steps| - 1]), steps[|steps| - 1];
      CountersAreBounded(log, configured, steps[..|steps| - 1], key);
      if step.Next? && s.alive && s.position < |log| {
        DeliverIsBounded(s, log[s.position], configured, step.env, key);
      }
    }
  }

  // ---------------------------------------------------------------- delivery safety

  lemma {:induction false} OnlyPurgesPurge(log: seq<Message>, configured: bool, steps: seq<Step>, id: int)
    requires PurgeInbox(id) !in steps
    ensures Run(log, configured, steps).purged[id] == 0
    decreases |steps|
  {
    if steps != [] {
      var s, step := Run(log, configured, steps[..|steps| - 1]), steps[|steps| - 1];
      OnlyPurgesPurge(log, configured, steps[..|steps| - 1], id);
      RunKeeps(log, configured, steps[..|steps| - 1]);
      if step.Next? && s.alive && s.position < |log| {
        DeliverMoves(s, log[s.position], configured, step.env);
      }
    }
  }

  /** In every run, with crashes, redeliveries and other consumers anywhere: an effect happens
      at most once per message id, plus once per time its inbox row was purged. */
  lemma AppliedOncePerPurge(log: seq<Message>, configured: bool, steps: seq<Step>, id: int)
    ensures var s := Run(log, configured, steps);
            s.applied[id] <= 1 + s.purged[id] && (PurgeInbox(id) !in steps ==> s.applied[id] <= 1)
  {
    RunKeeps(log, configured, steps);
    if PurgeInbox(id) !in steps {
      OnlyPurgesPurge(log, configured, steps, id);
    }
  }

  /** Dead-letter publishes that fail outright. */
  predicate RefusesNone(steps: seq<Step>) {
    forall step <- steps :: step.Next? ==> !step.env.dlt.Refused?
  }

  lemma {:induction false} NothingPassedOver(log: seq<Message>, steps: seq<Step>)
    requires RefusesNone(steps)
    ensures Run(log, true, steps).passed == {}
    decreases |steps|
  {
    if steps != [] {
      var s, step := Run(log, true, steps[..|steps| - 1]), steps[|steps| - 1];
      NothingPassedOver(log, steps[..|steps| - 1]);
      RunKeeps(log, true, steps[..|steps| - 1]);
      assert step in steps;
      if step.Next? && s.alive && s.position < |log| {
        DeliverMoves(s, log[s.position], true, step.env);
      }
    }
  }

  /** With a dead-letter topic that refuses nothing, in every run: a committed offset means the
      effect happened or the dead letter is out, and so does every offset the reader has left. */
  lemma CommittedIsSafe(log: seq<Message>, steps: seq<Step>, offset: nat)
    requires RefusesNone(steps)
    ensures var s := Run(log, true, steps);
            && s.committed <= s.position <= |log|
            && (offset < s.position ==> Applied(s, log[offset]) || offset in s.dead)
  {
    NothingPassedOver(log, steps);
    RunKeeps(log, true, steps);
  }

  // ---------------------------------------------------------------- how many failures

  /** Handler runs that fail, each counted or not: the attempt store may be up or down at each. */
  predicate AllFail(attempts: seq<Attempt>) {
    forall i :: 0 <= i < |attempts| ==> attempts[i].what.Fails? && !attempts[i].count.DiesUncounted?
  }

  /** Failures whose increment reached the store, and those of them that were not answered. */
  function StoredIn(attempts: seq<Attempt>): nat {
    if attempts == [] then 0
    else
      (if attempts[0].count.Counted? || attempts[0].count.StoredUnanswered? then 1 else 0) + StoredIn(attempts[1..])
  }

  function UnansweredIn(attempts: seq<Attempt>): nat {
    if attempts == [] then 0
    else (if attempts[0].count.StoredUnanswered? then 1 else 0) + UnansweredIn(attempts[1..])
  }

  lemma {:induction false} StoredAdds(a: seq<Attempt>, b: seq<Attempt>)
    ensures StoredIn(a + b) == StoredIn(a) + StoredIn(b) && UnansweredIn(a + b) == UnansweredIn(a) + UnansweredIn(b)
    decreases |a|
  {
    if a == [] {
      assert a + b == b;
    } else {
      StoredAdds(a[1..], b);
      assert (a + b)[1..] == a[1..] + b;
    }
  }

  /** The state after the increments of these failures. */
  function Raised(s: State, key: int, fails: seq<Attempt>): State {
    s.(counters := s.counters.(attempts := Plus(s.counters.attempts, key, StoredIn(fails)),
                               unanswered := Plus(s.counters.unanswered, key, UnansweredIn(fails))))
  }

  lemma PlusTwice(m: map<int, nat>, key: int, j: nat, k: nat)
    ensures Plus(Plus(m, key, j), key, k) == Plus(m, key, j + k)
  {
    if j > 0 && k > 0 {
      var c := Get(m, key);
      assert m[key := c + j][key := c + j + k] == m[key := c + j + k];
    }
  }

  lemma RaisedTwice(s: State, key: int, a: seq<Attempt>, b: seq<Attempt>)
    ensures Raised(Raised(s, key, a), key, b) == Raised(s, key, a + b)
  {
    StoredAdds(a, b);
    PlusTwice(s.counters.attempts, key, StoredIn(a), StoredIn(b));
    PlusTwice(s.counters.unanswered, key, UnansweredIn(a), UnansweredIn(b));
  }

  /** With c increments stored before, failure number j is answered with a full counter. */
  predicate Full(c: nat, fails: seq<Attempt>, j: nat)
    requires j < |fails|
  {
    fails[j].count.Counted? && c + StoredIn(fails[..j + 1]) >= 20
  }

  /** The first such failure, or their number if there is none. */
  function FirstFull(c: nat, fails: seq<Attempt>): (i: nat)
    ensures i <= |fails|
    decreases |fails|
  {
    if fails == [] || Full(c, fails, 0) then 0 else 1 + FirstFull(c + StoredIn(fails[..1]), fails[1..])
  }

  lemma FullLater(c: nat, fails: seq<Attempt>, j: nat)
    requires 0 < j < |fails|
    ensures Full(c, fails, j) <==> Full(c + StoredIn(fails[..1]), fails[1..], j - 1)
  {
    assert fails[..1] + fails[1..][..j] == fails[..j + 1];
    StoredAdds(fails[..1], fails[1..][..j]);
  }

  lemma {:induction false} FirstFullIsFirst(c: nat, fails: seq<Attempt>)
    ensures var i := FirstFull(c, fails);
            && (i < |fails| ==> Full(c, fails, i))
            && (forall j :: 0 <= j < i ==> !Full(c, fails, j))
    decreases |fails|
  {
    if fails != [] && !Full(c, fails, 0) {
      FirstFullIsFirst(c + StoredIn(fails[..1]), fails[1..]);
      forall j | 0 < j < |fails|
        ensures Full(c, fails, j) <==> Full(c + StoredIn(fails[..1]), fails[1..], j - 1)
      {
        FullLater(c, fails, j);
      }
    }
  }

  lemma OneFailure(s: State, m: Message, n: nat, todo: seq<Attempt>, configured: bool, env: Env)
    requires m.id !in s.inbox && n < MAX_FAILURES && todo != [] && AllFail(todo[..1])
    ensures Retry(s, m, n, todo, configured, env)
            == Retry(Raised(s, m.key, todo[..1]), m, Inc(s.counters, m.key, todo[0].count).0, todo[1..],
                     configured, env)
  {
    assert todo[..1][0] == todo[0];
    OneStored(s, m.key, todo[0]);
    assert todo[..1] == [todo[0]];
  }

  lemma OneStored(s: State, key: int, failure: Attempt)
    requires !failure.count.DiesUncounted?
    ensures s.(counters := Inc(s.counters, key, failure.count).1) == Raised(s, key, [failure])
    ensures var c := Get(s.counters.attempts, key);
            && Get(Raised(s, key, [failure]).counters.attempts, key) == c + StoredIn([failure])
            && (Full(c, [failure], 0) <==> Inc(s.counters, key, failure.count).0 >= MAX_FAILURES)
  {
    assert [failure][1..] == [] && [failure][..1] == [failure];
    assert StoredIn([failure]) == if failure.count.Uncounted? then 0 else 1;
    assert UnansweredIn([failure]) == if failure.count.StoredUnanswered? then 1 else 0;
  }

  lemma NothingLeft(s: State, m: Message, n: nat, configured: bool, env: Env)
    ensures n < MAX_FAILURES ==> Retry(s, m, n, [], configured, env) == Stop(Keep(s, m.key))
  {
  }

  lemma NoMoreRetries(s: State, m: Message, n: nat, todo: seq<Attempt>, configured: bool, env: Env)
    requires n >= MAX_FAILURES
    ensures Retry(s, m, n, todo, configured, env) == GiveUp(s, m.key, configured, env)
  {
  }

  /** In the loop, whatever mixture of failures comes: given up at the first that is answered with
      a full counter, or still trying `rest` with everything stored. */
  lemma {:induction false} FailuresUnwind(s: State, m: Message, n: nat, fails: seq<Attempt>, rest: seq<Attempt>,
                                          configured: bool, env: Env)
    returns (last: nat)
    requires m.id !in s.inbox && n < MAX_FAILURES && AllFail(fails)
    ensures var i := FirstFull(Get(s.counters.attempts, m.key), fails);
            if i < |fails| then
              Retry(s, m, n, fails + rest, configured, env)
              == GiveUp(Raised(s, m.key, fails[..i + 1]), m.key, configured, env)
            else
              && last < MAX_FAILURES
              && Retry(s, m, n, fails + rest, configured, env)
                 == Retry(Raised(s, m.key, fails), m, last, rest, configured, env)
    decreases |fails|, 1
  {
    last := n;
    if fails == [] {
      assert fails + rest == rest;
    } else {
      var todo := fails + rest;
      assert todo[1..] == fails[1..] + rest && todo[..1] == fails[..1];
      OneFailure(s, m, n, todo, configured, env);
      last := AfterOne(s, m, fails, rest, configured, env);
    }
  }

  /** Raising by the first failure, then by those up to number i of the rest. */
  lemma RaisedOn(s: State, key: int, fails: seq<Attempt>, i: nat)
    requires fails != [] && i <= |fails[1..]|
    ensures Raised(Raised(s, key, fails[..1]), key, fails[1..][..i]) == Raised(s, key, fails[..i + 1])
  {
    assert fails[..1] + fails[1..][..i] == fails[..i + 1];
    RaisedTwice(s, key, fails[..1], fails[1..][..i]);
  }

  lemma RaisedAll(s: State, key: int, fails: seq<Attempt>)
    requires fails != []
    ensures Raised(Raised(s, key, fails[..1]), key, fails[1..]) == Raised(s, key, fails)
  {
    assert fails[..1] + fails[1..] == fails;
    RaisedTwice(s, key, fails[..1], fails[1..]);
  }

  /** After the first failure: reported in full, or counted on from what is stored now. */
  lemma FirstFailure(s: State, key: int, fails: seq<Attempt>)
    requires fails != [] && !fails[0].count.DiesUncounted?
    ensures var c, n := Get(s.counters.attempts, key), Inc(s.counters, key, fails[0].count).0;
            && Get(Raised(s, key, fails[..1]).counters.attempts, key) == c + StoredIn(fails[..1])
            && FirstFull(c, fails)
               == if n >= MAX_FAILURES then 0 else 1 + FirstFull(c + StoredIn(fails[..1]), fails[1..])
  {
    assert fails[..1] == [fails[0]];
    OneStored(s, key, fails[0]);
    assert Full(Get(s.counters.attempts, key), fails, 0) <==> Full(Get(s.counters.attempts, key), [fails[0]], 0);
  }

  lemma {:induction false} AfterOne(s: State, m: Message, fails: seq<Attempt>, rest: seq<Attempt>,
                                    configured: bool, env: Env)
    returns (last: nat)
    requires m.id !in s.inbox && AllFail(fails) && fails != []
    ensures var i, n := FirstFull(Get(s.counters.attempts, m.key), fails), Inc(s.counters, m.key, fails[0].count).0;
            var going := Retry(Raised(s, m.key, fails[..1]), m, n, fails[1..] + rest, configured, env);
            if i < |fails| then going == GiveUp(Raised(s, m.key, fails[..i + 1]), m.key, configured, env)
            else last < MAX_FAILURES && going == Retry(Raised(s, m.key, fails), m, last, rest, configured, env)
    decreases |fails|, 0
  {
    var n := Inc(s.counters, m.key, fails[0].count).0;
    var t := Raised(s, m.key, fails[..1]);
    FirstFailure(s, m.key, fails);
    last := 0;
    if n >= MAX_FAILURES {
      NoMoreRetries(t, m, n, fails[1..] + rest, configured, env);
    } else {
      last := FailuresUnwind(t, m, n, fails[1..], rest, configured, env);
      var i := FirstFull(Get(t.counters.attempts, m.key), fails[1..]);
      if i < |fails[1..]| {
        RaisedOn(s, m.key, fails, i + 1);
      } else {
        RaisedAll(s, m.key, fails);
      }
    }
  }

  /** The same for a whole delivery: it starts with the first attempt, before any counting. */
  lemma FailuresBegin(s: State, m: Message, fails: seq<Attempt>, rest: seq<Attempt>, configured: bool, env: Env)
    returns (last: nat)
    requires m.id !in s.inbox && AllFail(fails) && fails != [] && env.attempts == fails + rest
    ensures var i := FirstFull(Get(s.counters.attempts, m.key), fails);
            if i < |fails| then
              Deliver(s, m, configured, env) == GiveUp(Raised(s, m.key, fails[..i + 1]), m.key, configured, env)
            else
              && last < MAX_FAILURES
              && Deliver(s, m, configured, env) == Retry(Raised(s, m.key, fails), m, last, rest, configured, env)
  {
    assert env.attempts[0] == fails[0] && env.attempts[1..] == fails[1..] + rest;
    OneStored(s, m.key, fails[0]);
    assert fails[..1] == [fails[0]];
    last := AfterOne(s, m, fails, rest, configured, env);
  }

  /** A handler that keeps failing, the attempt store going up and down at will and its answers
      getting lost: the message is given up at the first failure whose answered count, what was
      stored before included, reaches 20; if there is none, the process ends still retrying. Either
      way all increments so far are stored. */
  lemma PoisonIsGivenUp(s: State, m: Message, configured: bool, env: Env)
    requires m.id !in s.inbox && AllFail(env.attempts)
    ensures var i := FirstFull(Get(s.counters.attempts, m.key), env.attempts);
            Deliver(s, m, configured, env)
            == if i < |env.attempts| then GiveUp(Raised(s, m.key, env.attempts[..i + 1]), m.key, configured, env)
               else Stop(Keep(Raised(s, m.key, env.attempts), m.key))
  {
    if env.attempts != [] {
      assert env.attempts == env.attempts + [];
      var last := FailuresBegin(s, m, env.attempts, [], configured, env);
      NothingLeft(Raised(s, m.key, env.attempts), m, last, configured, env);
    }
  }

  /** Some failure is answered with a full counter. */
  predicate CountedOut(c: nat, fails: seq<Attempt>) {
    exists j :: 0 <= j < |fails| && Full(c, fails, j)
  }

  lemma FirstFullIff(c: nat, fails: seq<Attempt>)
    ensures CountedOut(c, fails) <==> FirstFull(c, fails) < |fails|
  {
    FirstFullIsFirst(c, fails);
  }

  /** So whether such a message is ever given up depends on the answered counts alone: with a
      working dead-letter topic it is out and committed iff one of them was full. */
  lemma DeadIffCountedOut(s: State, m: Message, env: Env)
    requires m.id !in s.inbox && AllFail(env.attempts) && s.position !in s.dead
    requires env.dlt.Taken? && env.reset && env.commit.CommitOk?
    ensures var t := Deliver(s, m, true, env);
            && t.applied == s.applied && t.inbox == s.inbox
            && (CountedOut(Get(s.counters.attempts, m.key), env.attempts) <==> s.position in t.dead)
            && (s.position in t.dead ==> t.committed == t.position == s.position + 1 && t.alive == s.alive
                                         && Get(t.counters.attempts, m.key) == 0)
            && (s.position !in t.dead ==> t.committed == s.committed && !t.alive)
  {
    PoisonIsGivenUp(s, m, true, env);
    FirstFullIff(Get(s.counters.attempts, m.key), env.attempts);
  }

  /** While the attempt store answers nothing no number of failures ends the retries, stored or
      not, and however many were stored before. */
  lemma UncountedNeverEnds(s: State, m: Message, configured: bool, env: Env)
    requires m.id !in s.inbox && AllFail(env.attempts) && forall a <- env.attempts :: !a.count.Counted?
    ensures Deliver(s, m, configured, env) == Stop(Keep(Raised(s, m.key, env.attempts), m.key))
  {
    PoisonIsGivenUp(s, m, configured, env);
    FirstFullIsFirst(Get(s.counters.attempts, m.key), env.attempts);
  }

  lemma SuccessNow(s: State, m: Message, n: nat, todo: seq<Attempt>, configured: bool, env: Env)
    requires m.id !in s.inbox && n < MAX_FAILURES && todo != [] && todo[0].what.Succeeds?
    ensures Retry(s, m, n, todo, configured, env) == Finish(TryOnce(s, m, Succeeds).1, m.key, env)
  {
  }

  /** A handler that succeeds after failures, none of them answered with a full counter: the effect is
      applied once, the offset committed and the counter cleared, without a dead letter. */
  lemma SuccessAfterRetries(s: State, m: Message, fails: seq<Attempt>, rest: seq<Attempt>, configured: bool, env: Env)
    requires m.id !in s.inbox && env.attempts == fails + rest && AllFail(fails) && rest != [] && rest[0].what.Succeeds?
    requires !CountedOut(Get(s.counters.attempts, m.key), fails)
    requires env.reset && env.commit.CommitOk?
    ensures var t := Deliver(s, m, configured, env);
            && t.applied == s.applied + multiset{m.id} && t.inbox == s.inbox + {m.id}
            && t.committed == t.position == s.position + 1 && t.alive == s.alive
            && Get(t.counters.attempts, m.key) == 0 && t.dead == s.dead && t.passed == s.passed
  {
    if fails == [] {
      assert env.attempts == rest;
    } else {
      FirstFullIff(Get(s.counters.attempts, m.key), fails);
      var last := FailuresBegin(s, m, fails, rest, configured, env);
      SuccessNow(Raised(s, m.key, fails), m, last, rest, configured, env);
    }
  }

  // ---------------------------------------------------------------- where safety ends

  /** How a delivery ends, apart from the dead letter and the commit. */
  datatype Ending = Resolved | GivenUp | Interrupted

  function RetryEnding(s: State, m: Message, n: nat, todo: seq<Attempt>): Ending
    decreases |todo|
  {
    if n >= MAX_FAILURES then GivenUp
    else if todo == [] then Interrupted
    else
      var (v, s) := TryOnce(s, m, todo[0].what);
      match v
      case Fine => Resolved
      case Skip => GivenUp
      case Error =>
        if todo[0].count.DiesUncounted? then Interrupted
        else
          var (n, c) := Inc(s.counters, m.key, todo[0].count);
          RetryEnding(s.(counters := c), m, n, todo[1..])
  }

  function EndingOf(s: State, m: Message, attempts: seq<Attempt>): Ending {
    if attempts == [] then Interrupted else RetryEnding(s, m, 0, attempts)
  }

  /** Given up or skipped, and no dead letter got out. */
  predicate PassesOver(s: State, m: Message, configured: bool, env: Env) {
    EndingOf(s, m, env.attempts).GivenUp? && (!configured || env.dlt.Refused?)
  }

  /** Given up or skipped, and the dead letter is out. */
  predicate GetsOut(s: State, m: Message, configured: bool, env: Env) {
    EndingOf(s, m, env.attempts).GivenUp? && configured && (env.dlt.Taken? || env.dlt.Unanswered?)
  }

  /** Some run of the handler took effect or found the message handled, or took effect without
      learning so. */
  predicate RetryHandles(s: State, m: Message, n: nat, todo: seq<Attempt>)
    decreases |todo|
  {
    && n < MAX_FAILURES && todo != []
    && var (v, s) := TryOnce(s, m, todo[0].what);
       || v.Fine? || todo[0].what.CommitUnanswered?
       || (v.Error? && !todo[0].count.DiesUncounted?
           && var (n, c) := Inc(s.counters, m.key, todo[0].count);
              RetryHandles(s.(counters := c), m, n, todo[1..]))
  }

  predicate Handles(s: State, m: Message, attempts: seq<Attempt>) {
    RetryHandles(s, m, 0, attempts)
  }

  /** Inbox rows stand for effects. */
  predicate Marked(s: State, m: Message) {
    m.id in s.inbox ==> Applied(s, m)
  }

  lemma {:induction false} RetryApplies(s: State, m: Message, n: nat, todo: seq<Attempt>, configured: bool, env: Env,
                                        x: Message)
    requires Marked(s, m)
    ensures Applied(Retry(s, m, n, todo, configured, env), x)
            <==> Applied(s, x) || (x.id == m.id && RetryHandles(s, m, n, todo))
    decreases |todo|
  {
    if n < MAX_FAILURES && todo != [] {
      var (v, t) := TryOnce(s, m, todo[0].what);
      if v.Error? && !todo[0].count.DiesUncounted? {
        var (n', c) := Inc(t.counters, m.key, todo[0].count);
        RetryApplies(t.(counters := c), m, n', todo[1..], configured, env, x);
      }
    }
  }

  /** What Deliver, its ending and its effect are when the first attempt fails and is counted. */
  lemma GoesOn(s: State, m: Message, configured: bool, env: Env)
    requires env.attempts != [] && TryOnce(s, m, env.attempts[0].what).0.Error? && !env.attempts[0].count.DiesUncounted?
    ensures var first, t := env.attempts[0], TryOnce(s, m, env.attempts[0].what).1;
            var (n, c) := Inc(t.counters, m.key, first.count);
            var u, more := t.(counters := c), env.attempts[1..];
            && Deliver(s, m, configured, env) == Retry(u, m, n, more, configured, env)
            && EndingOf(s, m, env.attempts) == RetryEnding(u, m, n, more)
            && (Handles(s, m, env.attempts) <==> first.what.CommitUnanswered? || RetryHandles(u, m, n, more))
  {
  }

  /** And when the first attempt is the last. */
  lemma StopsAtOnce(s: State, m: Message, configured: bool, env: Env)
    requires env.attempts != []
    requires !TryOnce(s, m, env.attempts[0].what).0.Error? || env.attempts[0].count.DiesUncounted?
    ensures var (v, t) := TryOnce(s, m, env.attempts[0].what);
            && Deliver(s, m, configured, env)
               == (match v
                   case Fine => Finish(t, m.key, env)
                   case Skip => SkipFirst(t, m.key, configured, env)
                   case Error => Stop(Keep(t, m.key)))
            && EndingOf(s, m, env.attempts) == (if v.Fine? then Resolved else if v.Skip? then GivenUp else Interrupted)
  {
  }

  lemma DeliverApplies(s: State, m: Message, configured: bool, env: Env, x: Message)
    requires Marked(s, m)
    ensures Applied(Deliver(s, m, configured, env), x)
            <==> Applied(s, x) || (x.id == m.id && Handles(s, m, env.attempts))
  {
    if env.attempts != [] {
      var first := env.attempts[0];
      var (v, t) := TryOnce(s, m, first.what);
      if v.Error? && !first.count.DiesUncounted? {
        GoesOn(s, m, configured, env);
        var (n, c) := Inc(t.counters, m.key, first.count);
        RetryApplies(t.(counters := c), m, n, env.attempts[1..], configured, env, x);
      } else {
        StopsAtOnce(s, m, configured, env);
        match v
        case Fine => FinishEnds(t, m.key, configured, env);
        case Skip => SkipEnds(t, m.key, configured, env);
        case Error =>
      }
    }
  }

  lemma {:induction false} ResolvedHandles(s: State, m: Message, n: nat, todo: seq<Attempt>)
    ensures RetryEnding(s, m, n, todo).Resolved? ==> RetryHandles(s, m, n, todo)
    decreases |todo|
  {
    if n < MAX_FAILURES && todo != [] {
      var (v, t) := TryOnce(s, m, todo[0].what);
      if v.Error? && !todo[0].count.DiesUncounted? {
        var (n', c) := Inc(t.counters, m.key, todo[0].count);
        ResolvedHandles(t.(counters := c), m, n', todo[1..]);
      }
    }
  }

  /** What a delivery that began in s with this ending leaves: its dead letter or the record that
      none got out, and the reader's position. */
  predicate EndsAs(s: State, t: State, ending: Ending, configured: bool, env: Env) {
    && t.dead == (if ending.GivenUp? && configured && (env.dlt.Taken? || env.dlt.Unanswered?) then s.dead + {s.position}
                  else s.dead)
    && t.passed == (if ending.GivenUp? && (!configured || env.dlt.Refused?) then s.passed + {s.position} else s.passed)
    && (t.position == s.position + 1
        <==> ending.Resolved? || (ending.GivenUp? && !(configured && env.dlt.DiesUnpublished?)))
  }

  lemma FinishEnds(s: State, key: int, configured: bool, env: Env)
    ensures EndsAs(s, Finish(s, key, env), Resolved, configured, env) && Finish(s, key, env).applied == s.applied
  {
  }

  lemma GiveUpEnds(s: State, key: int, configured: bool, env: Env)
    ensures var t := GiveUp(s, key, configured, env);
            EndsAs(s, t, GivenUp, configured, env) && t.applied == s.applied
  {
  }

  lemma SkipEnds(s: State, key: int, configured: bool, env: Env)
    ensures var t := SkipFirst(s, key, configured, env);
            EndsAs(s, t, GivenUp, configured, env) && t.applied == s.applied
  {
  }

  lemma {:induction false} RetryEndsAs(s: State, m: Message, n: nat, todo: seq<Attempt>, configured: bool, env: Env)
    ensures EndsAs(s, Retry(s, m, n, todo, configured, env), RetryEnding(s, m, n, todo), configured, env)
    decreases |todo|
  {
    if n >= MAX_FAILURES {
      GiveUpEnds(s, m.key, configured, env);
    } else if todo != [] {
      var (v, t) := TryOnce(s, m, todo[0].what);
      match v
      case Fine => FinishEnds(t, m.key, configured, env);
      case Skip => GiveUpEnds(t, m.key, configured, env);
      case Error =>
        if !todo[0].count.DiesUncounted? {
          var (n', c) := Inc(t.counters, m.key, todo[0].count);
          RetryEndsAs(t.(counters := c), m, n', todo[1..], configured, env);
        }
    }
  }

  /** When a delivery sends its dead letter, when it is known that none got out, and when the
      reader moves on. */
  lemma DeliverEndsAs(s: State, m: Message, configured: bool, env: Env)
    ensures EndsAs(s, Deliver(s, m, configured, env), EndingOf(s, m, env.attempts), configured, env)
  {
    if env.attempts != [] {
      var first := env.attempts[0];
      var (v, t) := TryOnce(s, m, first.what);
      if v.Error? && !first.count.DiesUncounted? {
        GoesOn(s, m, configured, env);
        var (n, c) := Inc(t.counters, m.key, first.count);
        RetryEndsAs(t.(counters := c), m, n, env.attempts[1..], configured, env);
      } else {
        StopsAtOnce(s, m, configured, env);
        match v
        case Fine => FinishEnds(t, m.key, configured, env);
        case Skip => SkipEnds(t, m.key, configured, env);
        case Error =>
      }
    }
  }

  /** The first run of the handler asks to skip. */
  predicate SkipsAtOnce(s: State, m: Message, attempts: seq<Attempt>) {
    attempts != [] && TryOnce(s, m, attempts[0].what).0.Skip?
  }

  /** A delivery with this ending gets as far as resetting the counter and committing. */
  predicate Concludes(ending: Ending, atOnce: bool, configured: bool, env: Env) {
    || ending.Resolved?
    || (ending.GivenUp? && (!configured || env.dlt.Taken? || (atOnce && !env.dlt.DiesUnpublished?)))
  }

  /** The process ends before that. */
  predicate Dies(ending: Ending, configured: bool, env: Env) {
    ending.Interrupted? || (ending.GivenUp? && configured && env.dlt.DiesUnpublished?)
  }

  /** Committed, running, and counted afterwards: by whether the delivery concludes or dies. */
  predicate ClosesAs(s: State, t: State, key: int, concludes: bool, dies: bool, env: Env) {
    && t.committed == (if concludes && !env.commit.CommitRefused? then s.position + 1 else s.committed)
    && (t.alive <==> s.alive && !dies && (concludes ==> env.commit.CommitOk?))
    && (if concludes && env.reset then Get(t.counters.attempts, key) == 0
        else Get(t.counters.attempts, key) >= Get(s.counters.attempts, key))
  }

  lemma FinishCloses(s: State, key: int, env: Env)
    ensures ClosesAs(s, Finish(s, key, env), key, true, false, env)
  {
  }

  lemma GiveUpCloses(s: State, key: int, configured: bool, env: Env)
    ensures ClosesAs(s, GiveUp(s, key, configured, env), key, Concludes(GivenUp, false, configured, env),
                     Dies(GivenUp, configured, env), env)
  {
  }

  lemma SkipCloses(s: State, key: int, configured: bool, env: Env)
    ensures ClosesAs(s, SkipFirst(s, key, configured, env), key, Concludes(GivenUp, true, configured, env),
                     Dies(GivenUp, configured, env), env)
  {
  }

  lemma CountsUp(s: State, m: Message, t: Try, count: Count)
    ensures var u := TryOnce(s, m, t).1;
            var v := u.(counters := Inc(u.counters, m.key, count).1);
            && u.committed == v.committed == s.committed && u.position == v.position == s.position
            && u.alive == v.alive == s.alive && u.counters == s.counters
            && Get(v.counters.attempts, m.key) >= Get(s.counters.attempts, m.key)
  {
  }

  lemma {:induction false} RetryCloses(s: State, m: Message, n: nat, todo: seq<Attempt>, configured: bool, env: Env)
    ensures var ending := RetryEnding(s, m, n, todo);
            ClosesAs(s, Retry(s, m, n, todo, configured, env), m.key, Concludes(ending, false, configured, env),
                     Dies(ending, configured, env), env)
    decreases |todo|
  {
    if n >= MAX_FAILURES {
      GiveUpCloses(s, m.key, configured, env);
    } else if todo != [] {
      CountsUp(s, m, todo[0].what, todo[0].count);
      var (v, t) := TryOnce(s, m, todo[0].what);
      match v
      case Fine => FinishCloses(t, m.key, env);
      case Skip => GiveUpCloses(t, m.key, configured, env);
      case Error =>
        if !todo[0].count.DiesUncounted? {
          var (n', c) := Inc(t.counters, m.key, todo[0].count);
          RetryCloses(t.(counters := c), m, n', todo[1..], configured, env);
        }
    }
  }

  lemma DeliverCloses(s: State, m: Message, configured: bool, env: Env)
    ensures var ending := EndingOf(s, m, env.attempts);
            ClosesAs(s, Deliver(s, m, configured, env), m.key,
                     Concludes(ending, SkipsAtOnce(s, m, env.attempts), configured, env),
                     Dies(ending, configured, env), env)
  {
    if env.attempts != [] {
      var first := env.attempts[0];
      var (v, t) := TryOnce(s, m, first.what);
      CountsUp(s, m, first.what, first.count);
      if v.Error? && !first.count.DiesUncounted? {
        GoesOn(s, m, configured, env);
        var (n, c) := Inc(t.counters, m.key, first.count);
        RetryCloses(t.(counters := c), m, n, env.attempts[1..], configured, env);
      } else {
        StopsAtOnce(s, m, configured, env);
        match v
        case Fine => FinishCloses(t, m.key, env);
        case Skip => SkipCloses(t, m.key, configured, env);
        case Error =>
      }
    }
  }

  /** One delivery commits its offset exactly if the broker does not refuse the commit and it was
      resolved; or given up with no dead-letter topic configured or the dead letter taken; or its
      first run asked to skip and the process lived to publish. A message given up in the retries
      whose dead letter is refused, or not answered for, stays uncommitted. The consumer goes on
      unless it died or the commit failed, and the counter is cleared only on the way to a commit. */
  lemma DeliveryCommitsIff(s: State, m: Message, configured: bool, env: Env)
    requires s.committed <= s.position
    ensures var t, ending := Deliver(s, m, configured, env), EndingOf(s, m, env.attempts);
            var concludes :=
              || ending.Resolved?
              || (ending.GivenUp? && (!configured || env.dlt.Taken?
                                      || (SkipsAtOnce(s, m, env.attempts) && !env.dlt.DiesUnpublished?)));
            && (t.committed == s.position + 1 <==> concludes && !env.commit.CommitRefused?)
            && (t.committed != s.position + 1 ==> t.committed == s.committed)
            && (t.alive <==> s.alive && !ending.Interrupted? && (concludes ==> env.commit.CommitOk?)
                             && !(ending.GivenUp? && configured && env.dlt.DiesUnpublished?))
            && (if concludes && env.reset then Get(t.counters.attempts, m.key) == 0
                else Get(t.counters.attempts, m.key) >= Get(s.counters.attempts, m.key))
  {
    DeliverCloses(s, m, configured, env);
  }

  /** Neither an effect nor a dead letter. */
  predicate Lacking(s: State, m: Message, offset: nat) {
    !Applied(s, m) && offset !in s.dead
  }

  /** One delivery moves on from a message that has neither effect nor dead letter, and leaves it
      so, exactly if it gives up or skips, no dead letter gets out, and no run of the handler took
      effect unnoticed. */
  lemma DeliveryLosesIff(s: State, m: Message, configured: bool, env: Env)
    requires Marked(s, m) && Lacking(s, m, s.position)
    ensures var t := Deliver(s, m, configured, env);
            var moved := t.position == s.position + 1;
            && (moved && Lacking(t, m, s.position)
                <==> PassesOver(s, m, configured, env) && !Handles(s, m, env.attempts))
            && ((forall a <- env.attempts :: !a.what.CommitUnanswered?)
                ==> (moved && Lacking(t, m, s.position) <==> PassesOver(s, m, configured, env)))
  {
    DeliverEndsAs(s, m, configured, env);
    ResolvedHandles(s, m, 0, env.attempts);
    DeliverApplies(s, m, configured, env, m);
    if forall a <- env.attempts :: !a.what.CommitUnanswered? {
      HandlingResolves(s, m, 0, env.attempts);
    }
  }

  lemma {:induction false} HandlingResolves(s: State, m: Message, n: nat, todo: seq<Attempt>)
    requires forall a <- todo :: !a.what.CommitUnanswered?
    ensures RetryHandles(s, m, n, todo) ==> RetryEnding(s, m, n, todo).Resolved?
    decreases |todo|
  {
    if n < MAX_FAILURES && todo != [] {
      assert todo[0] in todo;
      var (v, t) := TryOnce(s, m, todo[0].what);
      if v.Error? && !todo[0].count.DiesUncounted? {
        var (n', c) := Inc(t.counters, m.key, todo[0].count);
        HandlingResolves(t.(counters := c), m, n', todo[1..]);
      }
    }
  }

  /** Step i of the run passes this offset over. */
  predicate LeavesBehind(log: seq<Message>, configured: bool, steps: seq<Step>, i: nat, offset: nat)
    requires i < |steps|
  {
    var s := Run(log, configured, steps[..i]);
    && steps[i].Next? && s.alive && s.position == offset < |log|
    && PassesOver(s, log[offset], configured, steps[i].env)
  }

  lemma StepPassesOver(log: seq<Message>, configured: bool, s: State, step: Step, offset: nat)
    ensures offset in Do(log, configured, s, step).passed
            <==> offset in s.passed
                 || (step.Next? && s.alive && s.position == offset < |log|
                     && PassesOver(s, log[offset], configured, step.env))
  {
    if step.Next? && s.alive && s.position < |log| {
      DeliverEndsAs(s, log[s.position], configured, step.env);
    }
  }

  lemma FrontLeavesBehind(log: seq<Message>, configured: bool, steps: seq<Step>, n: nat, i: nat, offset: nat)
    requires i < n <= |steps|
    ensures LeavesBehind(log, configured, steps, i, offset) <==> LeavesBehind(log, configured, steps[..n], i, offset)
  {
    assert steps[..n][..i] == steps[..i];
  }

  lemma PassedOneMore(log: seq<Message>, configured: bool, steps: seq<Step>, n: nat, offset: nat)
    requires n + 1 == |steps|
    ensures offset in Run(log, configured, steps).passed
            <==> offset in Run(log, configured, steps[..n]).passed || LeavesBehind(log, configured, steps, n, offset)
  {
    StepPassesOver(log, configured, Run(log, configured, steps[..n]), steps[n], offset);
  }

  lemma {:induction false} PassedIff(log: seq<Message>, configured: bool, steps: seq<Step>, offset: nat)
    ensures offset !in Run(log, configured, steps).passed
            <==> forall i :: 0 <= i < |steps| ==> !LeavesBehind(log, configured, steps, i, offset)
    decreases |steps|
  {
    if steps != [] {
      var n := |steps| - 1;
      PassedOneMore(log, configured, steps, n, offset);
      PassedIff(log, configured, steps[..n], offset);
      forall i | 0 <= i < n
        ensures LeavesBehind(log, configured, steps, i, offset)
                <==> LeavesBehind(log, configured, steps[..n], i, offset)
      {
        FrontLeavesBehind(log, configured, steps, n, i, offset);
      }
    }
  }

  /** Over every run, with or without a dead-letter topic: the history set holds an offset exactly
      when some delivery of it gave up or skipped and no dead letter got out; and an offset before
      the commit has its effect or its dead letter unless one did. */
  lemma LeftBehindIff(log: seq<Message>, configured: bool, steps: seq<Step>, offset: nat)
    ensures var s := Run(log, configured, steps);
            && (offset in s.passed <==> exists i :: 0 <= i < |steps| && LeavesBehind(log, configured, steps, i, offset))
            && (offset < s.committed ==>
                  offset < |log| && (Applied(s, log[offset]) || offset in s.dead || offset in s.passed))
  {
    RunKeeps(log, configured, steps);
    PassedIff(log, configured, steps, offset);
  }

  /** Step i handles the message of this offset, under whatever offset or consumer it comes, or
      gets the dead letter of the offset out. */
  predicate SeesThrough(log: seq<Message>, configured: bool, s: State, step: Step, offset: nat)
    requires offset < |log|
  {
    match step
    case Next(env) =>
      && s.alive && s.position < |log|
      && var m := log[s.position];
         || (m.id == log[offset].id && Handles(s, m, env.attempts))
         || (s.position == offset && GetsOut(s, m, configured, env))
    case Elsewhere(id) => id == log[offset].id
    case _ => false
  }

  predicate SeenThroughAt(log: seq<Message>, configured: bool, steps: seq<Step>, i: nat, offset: nat)
    requires i < |steps| && offset < |log|
  {
    SeesThrough(log, configured, Run(log, configured, steps[..i]), steps[i], offset)
  }

  lemma LedgerMarks(s: State, m: Message)
    requires Ledger(s)
    ensures Marked(s, m)
  {
  }

  lemma StepSeesThrough(log: seq<Message>, configured: bool, s: State, step: Step, offset: nat)
    requires Ledger(s) && offset < |log|
    ensures Lacking(Do(log, configured, s, step), log[offset], offset)
            <==> Lacking(s, log[offset], offset) && !SeesThrough(log, configured, s, step, offset)
  {
    match step
    case Next(env) =>
      if s.alive && s.position < |log| {
        LedgerMarks(s, log[s.position]);
        DeliverApplies(s, log[s.position], configured, env, log[offset]);
        DeliverEndsAs(s, log[s.position], configured, env);
      }
    case _ =>
  }

  lemma FrontSeesThrough(log: seq<Message>, configured: bool, steps: seq<Step>, n: nat, i: nat, offset: nat)
    requires i < n <= |steps| && offset < |log|
    ensures SeenThroughAt(log, configured, steps, i, offset) <==> SeenThroughAt(log, configured, steps[..n], i, offset)
  {
    assert steps[..n][..i] == steps[..i];
  }

  lemma LackingOneMore(log: seq<Message>, configured: bool, steps: seq<Step>, n: nat, offset: nat)
    requires n + 1 == |steps| && offset < |log|
    ensures Lacking(Run(log, configured, steps), log[offset], offset)
            <==> Lacking(Run(log, configured, steps[..n]), log[offset], offset)
                 && !SeenThroughAt(log, configured, steps, n, offset)
  {
    RunKeeps(log, configured, steps[..n]);
    StepSeesThrough(log, configured, Run(log, configured, steps[..n]), steps[n], offset);
  }

  lemma {:induction false} LackingIff(log: seq<Message>, configured: bool, steps: seq<Step>, offset: nat)
    requires offset < |log|
    ensures Lacking(Run(log, configured, steps), log[offset], offset)
            <==> forall i :: 0 <= i < |steps| ==> !SeenThroughAt(log, configured, steps, i, offset)
    decreases |steps|
  {
    if steps != [] {
      var n := |steps| - 1;
      LackingOneMore(log, configured, steps, n, offset);
      LackingIff(log, configured, steps[..n], offset);
      forall i | 0 <= i < n
        ensures SeenThroughAt(log, configured, steps, i, offset)
                <==> SeenThroughAt(log, configured, steps[..n], i, offset)
      {
        FrontSeesThrough(log, configured, steps, n, i, offset);
      }
    }
  }

  lemma CommitOneMore(log: seq<Message>, configured: bool, steps: seq<Step>, n: nat)
    requires n + 1 == |steps|
    ensures Run(log, configured, steps[..n]).committed <= Run(log, configured, steps).committed
  {
    RunKeeps(log, configured, steps[..n]);
    CommitStep(log, configured, Run(log, configured, steps[..n]), steps[n]);
  }

  /** What lies before the commit is behind the reader for good. */
  lemma {:induction false} CommitOnlyGrows(log: seq<Message>, configured: bool, steps: seq<Step>, n: nat)
    requires n <= |steps|
    ensures Run(log, configured, steps[..n]).committed <= Run(log, configured, steps).committed
    decreases |steps|
  {
    if n < |steps| {
      var last := |steps| - 1;
      assert steps[..last][..n] == steps[..n];
      CommitOneMore(log, configured, steps, last);
      CommitOnlyGrows(log, configured, steps[..last], n);
    } else {
      assert steps[..n] == steps;
    }
  }

  lemma CommitStep(log: seq<Message>, configured: bool, s: State, step: Step)
    requires Ledger(s) && InOrder(log, s)
    ensures s.committed <= Do(log, configured, s, step).committed
  {
    if step.Next? && s.alive && s.position < |log| {
      DeliverMoves(s, log[s.position], configured, step.env);
    }
  }

  /** Over every run, the commit moves exactly by such a delivery, and by one offset. */
  lemma CommitMovesIff(log: seq<Message>, configured: bool, steps: seq<Step>, step: Step)
    ensures var s := Run(log, configured, steps);
            var t := Do(log, configured, s, step);
            && (t.committed != s.committed
                <==> step.Next? && s.alive && s.position < |log| && !step.env.commit.CommitRefused?
                     && var m := log[s.position];
                        Concludes(EndingOf(s, m, step.env.attempts), SkipsAtOnce(s, m, step.env.attempts),
                                  configured, step.env))
            && (t.committed != s.committed ==> t.committed == s.position + 1)
  {
    RunKeeps(log, configured, steps);
    var s := Run(log, configured, steps);
    if step.Next? && s.alive && s.position < |log| {
      DeliverCloses(s, log[s.position], configured, step.env);
    }
  }

  /** So a counted-out message whose dead letter the broker refuses is delivered again after a
      restart, however often that happens, until something else commits beyond it. */
  lemma RefusedIsRedelivered(s: State, m: Message, env: Env)
    requires s.committed == s.position && EndingOf(s, m, env.attempts).GivenUp? && env.dlt.Refused?
    requires !SkipsAtOnce(s, m, env.attempts)
    ensures var t := Deliver(s, m, true, env);
            && t.committed == s.position && t.position == s.position + 1 && t.alive == s.alive
            && Do([], true, t, Restart).position == s.position
  {
    DeliverCloses(s, m, true, env);
    DeliverEndsAs(s, m, true, env);
  }

  /** The loss itself, over every run: a committed offset has neither effect nor dead letter exactly
      if no step ever handled its message or got its dead letter out. And it is final: once the
      commit is past it no later step delivers it, so that only the same message elsewhere, or under
      another offset, can still make up for it. */
  lemma LostIffNeverSeenThrough(log: seq<Message>, configured: bool, steps: seq<Step>, offset: nat)
    requires offset < Run(log, configured, steps).committed
    ensures offset < |log|
    ensures Lacking(Run(log, configured, steps), log[offset], offset)
            <==> forall i :: 0 <= i < |steps| ==> !SeenThroughAt(log, configured, steps, i, offset)
  {
    RunKeeps(log, configured, steps);
    LackingIff(log, configured, steps, offset);
  }

  /** No later step of the run delivers a committed offset again. */
  lemma CommittedIsFinal(log: seq<Message>, configured: bool, steps: seq<Step>, n: nat, i: nat, offset: nat)
    requires n <= i < |steps| && offset < Run(log, configured, steps[..n]).committed
    ensures offset < |log|
    ensures var s := Run(log, configured, steps[..i]);
            && offset < s.committed <= s.position
            && (offset in Do(log, configured, s, steps[i]).dead <==> offset in s.dead)
            && (SeenThroughAt(log, configured, steps, i, offset) ==>
                  || (steps[i].Next? && s.position != offset && log[s.position].id == log[offset].id)
                  || steps[i] == Elsewhere(log[offset].id))
  {
    assert steps[..i][..n] == steps[..n];
    CommitOnlyGrows(log, configured, steps[..i], n);
    RunKeeps(log, configured, steps[..n]);
    RunKeeps(log, configured, steps[..i]);
    var s, step := Run(log, configured, steps[..i]), steps[i];
    if step.Next? && s.alive && s.position < |log| {
      DeliverEndsAs(s, log[s.position], configured, step.env);
    }
  }

  /** Until that commit a restart makes up for it: the offset is delivered again. */
  lemma PassedOverIsNotYetLost()
    ensures var log := [Message(1, 1)];
            var giveUp := Env([Attempt(Fails, Counted), Attempt(Skips, Counted)], Refused, true, CommitOk);
            var succeed := Env([Attempt(Succeeds, Counted)], Taken, true, CommitOk);
            var s, t := Run(log, true, [Next(giveUp)]), Run(log, true, [Next(giveUp), Restart, Next(succeed)]);
            && 0 in s.passed && s.position == 1 && Lacking(s, log[0], 0)
            && 0 in t.passed && t.committed == 1 && Applied(t, log[0])
  {
    var log := [Message(1, 1)];
    var giveUp := Env([Attempt(Fails, Counted), Attempt(Skips, Counted)], Refused, true, CommitOk);
    var succeed := Env([Attempt(Succeeds, Counted)], Taken, true, CommitOk);
    var steps := [Next(giveUp), Restart, Next(succeed)];
    assert steps[..1] == [Next(giveUp)] && steps[..2] == [Next(giveUp), Restart];
    assert steps[..2][..1] == steps[..1] && steps[..1][..0] == [];
    assert giveUp.attempts[1..] == [Attempt(Skips, Counted)];
  }

  /** The condition of CommittedIsSafe is needed: when the dead-letter topic refuses a poison
      message, the reader moves on and the next commit leaves the message behind for good. */
  lemma RefusedDeadLetterIsLost(s: State, m: Message, next: Message, failing: Env, fine: Env)
    requires m.id !in s.inbox && !Applied(s, m) && s.position !in s.dead
    requires next.id != m.id && next.id !in s.inbox
    requires AllFail(failing.attempts) && CountedOut(Get(s.counters.attempts, m.key), failing.attempts)
    requires failing.dlt.Refused?
    requires fine.attempts == [Attempt(Succeeds, Counted)] && fine.commit.CommitOk?
    ensures var t := Deliver(Deliver(s, m, true, failing), next, true, fine);
            t.committed == s.position + 2 && !Applied(t, m) && s.position !in t.dead
  {
    PoisonIsGivenUp(s, m, true, failing);
    FirstFullIff(Get(s.counters.attempts, m.key), failing.attempts);
  }

  /** So is a message skipped at once, whose dead letter is only best effort. */
  lemma RefusedSkipIsLost(s: State, m: Message, env: Env)
    requires m.id !in s.inbox && !Applied(s, m) && s.position !in s.dead
    requires env.attempts != [] && env.attempts[0].what.Skips? && env.dlt.Refused? && env.commit.CommitOk?
    ensures var t := Deliver(s, m, true, env);
            t.committed == s.position + 1 && !Applied(t, m) && s.position !in t.dead
  {
  }

  // ---------------------------------------------------------------- the loop

  class PartitionConsumer {
    const log: seq<Message>
    const configured: bool
    var s: State

    constructor (log: seq<Message>, configured: bool)
      ensures this.log == log && this.configured == configured && s == START
    {
      this.log, this.configured, s := log, configured, START;
    }

    /** Begin; mark the inbox; unless it was marked, run the handler; commit. */
    method ProcessMessageOnce(m: Message, t: Try) returns (err: Verdict)
      modifies this`s
      ensures (err, s) == TryOnce(old(s), m, t)
    {
      if t.Unreadable? {
        return Skip;
      }
      var inserted := m.id !in s.inbox;
      var inbox := s.inbox + {m.id};
      if !inserted {
        err := if t.CommitFails? || t.CommitUnanswered? then Error else Fine;
        return;
      }
      if t.Skips? || t.Fails? || t.CommitFails? {
        err := if t.Skips? then Skip else Error;
        return;
      }
      s := s.(inbox := inbox, applied := s.applied + multiset{m.id});
      err := if t.Succeeds? then Fine else Error;
    }

    method IncAttempts(key: int, c: Count) returns (n: nat)
      modifies this`s
      ensures (n, s.counters) == Inc(old(s.counters), key, c) && s == old(s).(counters := s.counters)
    {
      if c.Uncounted? || c.DiesUncounted? {
        return 1;
      }
      n := if key in s.counters.attempts then s.counters.attempts[key] + 1 else 1;
      s := s.(counters := s.counters.(attempts := s.counters.attempts[key := n]));
      if c.StoredUnanswered? {
        s := s.(counters := s.counters.(unanswered := Plus(s.counters.unanswered, key, 1)));
        return 1;
      }
    }

    /** Reset and commit, the tail of every branch that ends a message. */
    method Commit(key: int, env: Env)
      modifies this`s
      ensures s == Finish(old(s), key, env)
    {
      s := s.(counters := if env.reset then Reset(s.counters, key) else Kept(s.counters, key),
              position := s.position + 1);
      if !env.commit.CommitRefused? {
        s := s.(committed := s.position);
      }
      if !env.commit.CommitOk? {
        s := Stop(s);
      }
    }

    /** The first skip: whatever becomes of the dead letter, commit. */
    method SkipAtOnce(key: int, env: Env)
      modifies this`s
      ensures s == SkipFirst(old(s), key, configured, env)
    {
      if configured && env.dlt.DiesUnpublished? {
        s := Stop(Keep(s, key));
        return;
      }
      if configured && !env.dlt.Refused? {
        s := s.(dead := s.dead + {s.position});
      } else {
        s := s.(passed := s.passed + {s.position});
      }
      Commit(key, env);
    }

    /** Commit only when the dead letter is out, or none is configured; else fetch on. */
    method DeadLetterThenCommit(key: int, env: Env)
      modifies this`s
      ensures s == GiveUp(old(s), key, configured, env)
      ensures s.committed == if (!configured || env.dlt.Taken?) && !env.commit.CommitRefused? then old(s).position + 1
                             else old(s).committed
    {
      if !configured {
        s := s.(passed := s.passed + {s.position});
        Commit(key, env);
        return;
      }
      if env.dlt.DiesUnpublished? {
        s := Stop(Keep(s, key));
        return;
      }
      if env.dlt.Refused? {
        s := s.(passed := s.passed + {s.position});
      } else {
        s := s.(dead := s.dead + {s.position});
      }
      if env.dlt.Taken? {
        Commit(key, env);
      } else {
        s := Keep(s, key).(position := s.position + 1);
      }
    }

    /** Fetch, handle, and retry in place until success, skip or the limit. */
    method ConsumeOne(env: Env)
      requires s.alive && s.position < |log|
      modifies this`s
      ensures s == Deliver(old(s), log[old(s).position], configured, env)
    {
      var m := log[s.position];
      if env.attempts == [] {
        s := Stop(Keep(s, m.key));
        return;
      }
      var err := ProcessMessageOnce(m, env.attempts[0].what);
      if err.Fine? {
        Commit(m.key, env);
        return;
      }
      if err.Skip? {
        SkipAtOnce(m.key, env);
        return;
      }
      if env.attempts[0].count.DiesUncounted? {
        s := Stop(Keep(s, m.key));
        return;
      }
      var attemptCount := IncAttempts(m.key, env.attempts[0].count);
      ghost var start, first := s, attemptCount;
      var i := 1;
      while err.Error? && attemptCount < 20
        invariant 1 <= i <= |env.attempts| && !err.Fine?
        invariant Retry(start, m, first, env.attempts[1..], configured, env)
                  == if err.Skip? then GiveUp(s, m.key, configured, env)
                     else Retry(s, m, attemptCount, env.attempts[i..], configured, env)
        decreases |env.attempts| - i, err.Error?
      {
        if i == |env.attempts| {
          s := Stop(Keep(s, m.key));
          return;
        }
        err := ProcessMessageOnce(m, env.attempts[i].what);
        if err.Fine? {
          Commit(m.key, env);
          return;
        }
        if err.Error? {
          if env.attempts[i].count.DiesUncounted? {
            s := Stop(Keep(s, m.key));
            return;
          }
          attemptCount := IncAttempts(m.key, env.attempts[i].count);
          i := i + 1;
        }
      }
      DeadLetterThenCommit(m.key, env);
    }
  }
}
