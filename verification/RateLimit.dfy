/** The in-memory fallback limiter: one counter per key and window, and a background cleaner. */
module RateLimit {
  import opened Prelude

  datatype Counter = Counter(count: nat, windowStart: int)

  predicate Stale(c: Counter, window: int, now: int) {
    now - c.windowStart >= window
  }

  /** One key's counter after a request, and whether it was let through. */
  function Counted(c: Option<Counter>, window: int, limit: int, now: int): (bool, Option<Counter>) {
    if limit <= 0 then (true, c)
    else if c.None? || Stale(c.value, window, now) then (true, Some(Counter(1, now)))
    else (c.value.count + 1 <= limit, Some(Counter(c.value.count + 1, c.value.windowStart)))
  }

  function Swept(c: Option<Counter>, window: int, now: int): Option<Counter> {
    if c.Some? && Stale(c.value, window, now) then None else c
  }

  class Limiter {
    const window: int
    var counts: map<string, Counter>

    constructor (window: int)
      ensures this.window == (if window <= 0 then 60 else window) && counts == map[]
    {
      this.window := if window <= 0 then 60 else window;
      counts := map[];
    }

    function Of(key: string): Option<Counter>
      reads this
    {
      if key in counts then Some(counts[key]) else None
    }

    method Allow(key: string, limit: int, now: int) returns (ok: bool)
      modifies this
      ensures (ok, Of(key)) == Counted(old(Of(key)), window, limit, now)
      ensures forall k :: k != key ==> Of(k) == old(Of(k))
    {
      if limit <= 0 {
        return true;
      }
      if key !in counts || now - counts[key].windowStart >= window {
        counts := counts[key := Counter(1, now)];
        return true;
      }
      var c := counts[key];
      c := c.(count := c.count + 1);
      counts := counts[key := c];
      ok := c.count <= limit;
    }

    /** One tick of the cleanup loop. */
    method Cleanup(now: int)
      modifies this
      ensures forall k :: Of(k) == Swept(old(Of(k)), window, now)
    {
      ghost var before := counts;
      var todo := counts.Keys;
      while todo != {}
        invariant todo <= before.Keys && counts.Keys <= before.Keys
        invariant forall k <- todo :: k in counts && counts[k] == before[k]
        invariant forall k <- before.Keys - todo ::
                    if Stale(before[k], window, now) then k !in counts else k in counts && counts[k] == before[k]
        decreases |todo|
      {
        var k :| k in todo;
        todo := todo - {k};
        if now - counts[k].windowStart >= window {
          counts := counts - {k};
        }
      }
    }
  }

  // ---------------------------------------------------------------- one key over time

  datatype Event = Request(now: int) | Sweep(now: int)

  /** Events in the order in which they take the lock, their clock readings ascending. The source
      reads the clock before it locks, so two calls racing for the lock may come in the other
      order even under a monotonic clock. */
  predicate Ordered(es: seq<Event>) {
    forall i, j :: 0 <= i < j < |es| ==> es[i].now <= es[j].now
  }

  function Step(c: Option<Counter>, window: int, limit: int, e: Event): Option<Counter> {
    match e
    case Request(now) => Counted(c, window, limit, now).1
    case Sweep(now) => Swept(c, window, now)
  }

  /** The counter of a key after the events. */
  function CounterAfter(window: int, limit: int, es: seq<Event>): Option<Counter>
    decreases |es|
  {
    if es == [] then None else Step(CounterAfter(window, limit, es[..|es| - 1]), window, limit, es[|es| - 1])
  }

  lemma CounterThen(window: int, limit: int, es: seq<Event>, e: Event)
    ensures CounterAfter(window, limit, es + [e]) == Step(CounterAfter(window, limit, es), window, limit, e)
  {
    assert (es + [e])[..|es|] == es;
  }

  /** Whether event number i is a request that was let through. */
  predicate AllowedAt(window: int, limit: int, es: seq<Event>, i: nat)
    requires i < |es|
  {
    es[i].Request? && Counted(CounterAfter(window, limit, es[..i]), window, limit, es[i].now).0
  }

  /** Requests let through among events i to j, the last not included. */
  function AllowedIn(window: int, limit: int, es: seq<Event>, i: nat, j: nat): nat
    requires i <= j <= |es|
    decreases j - i
  {
    if i == j then 0
    else AllowedIn(window, limit, es, i, j - 1) + if AllowedAt(window, limit, es, j - 1) then 1 else 0
  }

  // ---------------------------------------------------------------- the bound

  /** The counter starts in the past, and has counted at least one request. */
  lemma {:induction false} CounterIsSound(window: int, limit: int, es: seq<Event>)
    requires Ordered(es) && limit > 0
    ensures var c := CounterAfter(window, limit, es);
            c.Some? ==> c.value.count >= 1 && es != [] && c.value.windowStart <= es[|es| - 1].now
    decreases |es|
  {
    if es != [] {
      assert Ordered(es[..|es| - 1]);
      CounterIsSound(window, limit, es[..|es| - 1]);
    }
  }

  /** Room left in the window of a counter. */
  function Left(limit: int, c: Option<Counter>): int {
    if c.None? then 0 else Max(0, limit - c.value.count)
  }

  /** Events i to j lie within less than a window: what is let through is at most what the
      counter's window had left, and what a window begun on the way has counted. */
  lemma {:induction false} AllowedWithinWindow(window: int, limit: int, es: seq<Event>, i: nat, j: nat)
    requires Ordered(es) && limit > 0 && i < |es| && i <= j <= |es|
    requires j > 0 ==> es[j - 1].now - es[i].now < window
    ensures var before, after := CounterAfter(window, limit, es[..i]), CounterAfter(window, limit, es[..j]);
            var allowed := AllowedIn(window, limit, es, i, j);
            if after.Some? && after.value.windowStart >= es[i].now then
              allowed <= Left(limit, before) + Min(limit, after.value.count)
            else if after.Some? then
              && before.Some? && after.value.windowStart == before.value.windowStart
              && allowed <= Left(limit, before) - Left(limit, after)
            else allowed <= Left(limit, before)
    decreases j
  {
    if i < j {
      assert es[..j][..j - 1] == es[..j - 1];
      assert j > 1 ==> es[j - 2].now <= es[j - 1].now;
      AllowedWithinWindow(window, limit, es, i, j - 1);
    }
  }

  /** In any stretch of time shorter than the window fewer than twice the limit get through. */
  lemma FewerThanTwiceTheLimit(window: int, limit: int, es: seq<Event>, i: nat, j: nat)
    requires Ordered(es) && limit > 0 && i < j <= |es| && es[j - 1].now - es[i].now < window
    ensures AllowedIn(window, limit, es, i, j) <= 2 * limit - 1
  {
    AllowedWithinWindow(window, limit, es, i, j);
    assert Ordered(es[..i]);
    CounterIsSound(window, limit, es[..i]);
  }

  // ---------------------------------------------------------------- which requests get through

  /** The request that opened the window the key is in after the events, if it is in one: a request
      opens one when there is none, or a whole window after the last was opened, by its own reading;
      a sweep closes it by the same measure. */
  function OpenedAt(window: int, es: seq<Event>): Option<nat> {
    if es == [] then None
    else
      var n, e := |es| - 1, es[|es| - 1];
      var open := OpenedAt(window, es[..n]);
      var over := open.None? || (open.value < n && e.now >= es[open.value].now + window);
      if e.Request? then (if over then Some(n) else open) else (if over then None else open)
  }

  /** Requests among the events. */
  function Asked(es: seq<Event>): nat {
    if es == [] then 0 else Asked(es[..|es| - 1]) + if es[|es| - 1].Request? then 1 else 0
  }

  /** The counter is the opening instant, and the number of requests since. */
  lemma {:induction false} CounterIsSinceOpening(window: int, limit: int, es: seq<Event>)
    requires limit > 0
    ensures var open, c := OpenedAt(window, es), CounterAfter(window, limit, es);
            && (open.Some? ==> open.value < |es| && es[open.value].Request?)
            && c == if open.None? then None else Some(Counter(Asked(es[open.value..]), es[open.value].now))
    decreases |es|
  {
    if es != [] {
      var n := |es| - 1;
      CounterIsSinceOpening(window, limit, es[..n]);
      var before, open := OpenedAt(window, es[..n]), OpenedAt(window, es);
      if open.Some? && open == before {
        assert es[open.value..][..|es| - open.value - 1] == es[..n][open.value..];
      } else if open.Some? {
        assert es[n..] == [es[n]] && [es[n]][..0] == [];
      }
    }
  }

  /** Over every run, clock readings in any order: a request gets through exactly if the limiter has no
      limit, or the request is among the first `limit` since its window was opened; and without a
      limit nothing is counted. */
  lemma AllowedIffAmongTheFirst(window: int, limit: int, es: seq<Event>, i: nat)
    requires window > 0 && i < |es| && es[i].Request?
    ensures limit > 0 ==> OpenedAt(window, es[..i + 1]).Some? && OpenedAt(window, es[..i + 1]).value <= i
    ensures AllowedAt(window, limit, es, i)
            <==> limit <= 0 || Asked(es[OpenedAt(window, es[..i + 1]).value..i + 1]) <= limit
    ensures limit <= 0 ==> CounterAfter(window, limit, es[..i + 1]) == CounterAfter(window, limit, es[..i])
  {
    var front := es[..i + 1];
    assert front[..i] == es[..i] && front == es[..i] + [es[i]];
    CounterThen(window, limit, es[..i], es[i]);
    if limit > 0 {
      CounterIsSinceOpening(window, limit, front);
      CounterIsSinceOpening(window, limit, es[..i]);
      var open := OpenedAt(window, front).value;
      assert es[open..i + 1] == front[open..];
    }
  }

  // ---------------------------------------------------------------- the bound is reached

  function Burst(n: nat, now: int): (es: seq<Event>)
    ensures |es| == n && forall k :: 0 <= k < n ==> es[k] == Request(now)
  {
    if n == 0 then [] else Burst(n - 1, now) + [Request(now)]
  }

  /** What is let through among the first j events does not depend on the later ones. */
  lemma {:induction false} SameFront(window: int, limit: int, es: seq<Event>, more: seq<Event>, i: nat, j: nat)
    requires i <= j <= |es| && es <= more
    ensures AllowedIn(window, limit, es, i, j) == AllowedIn(window, limit, more, i, j)
    decreases j - i
  {
    if i < j {
      SameFront(window, limit, es, more, i, j - 1);
      assert es[..j - 1] == more[..j - 1];
    }
  }

  lemma AllowedThen(window: int, limit: int, es: seq<Event>, i: nat, e: Event)
    requires i <= |es|
    ensures AllowedIn(window, limit, es + [e], i, |es| + 1)
            == AllowedIn(window, limit, es, i, |es|)
               + if e.Request? && Counted(CounterAfter(window, limit, es), window, limit, e.now).0 then 1 else 0
  {
    SameFront(window, limit, es, es + [e], i, |es|);
    assert (es + [e])[..|es|] == es;
  }

  /** One request more into an open window. */
  lemma OneMore(window: int, limit: int, es: seq<Event>, i: nat, now: int)
    requires limit > 0 && i <= |es|
    requires var c := CounterAfter(window, limit, es); c.Some? && !Stale(c.value, window, now)
    ensures var c, more := CounterAfter(window, limit, es).value, es + [Request(now)];
            && CounterAfter(window, limit, more) == Some(Counter(c.count + 1, c.windowStart))
            && AllowedIn(window, limit, more, i, |more|)
               == AllowedIn(window, limit, es, i, |es|) + if c.count < limit then 1 else 0
  {
    CounterThen(window, limit, es, Request(now));
    AllowedThen(window, limit, es, i, Request(now));
  }

  /** A burst into an open window. */
  lemma {:induction false} BurstCounts(window: int, limit: int, es: seq<Event>, burst: seq<Event>, now: int)
    requires limit > 0 && forall k :: 0 <= k < |burst| ==> burst[k] == Request(now)
    requires var c := CounterAfter(window, limit, es); c.Some? && !Stale(c.value, window, now)
    ensures var c, all := CounterAfter(window, limit, es).value, es + burst;
            && CounterAfter(window, limit, all) == Some(Counter(c.count + |burst|, c.windowStart))
            && AllowedIn(window, limit, all, |es|, |all|) == Min(|burst|, Max(0, limit - c.count))
    decreases |burst|
  {
    if burst == [] {
      assert es + burst == es;
    } else {
      var n := |burst| - 1;
      var most := es + burst[..n];
      BurstCounts(window, limit, es, burst[..n], now);
      OneMore(window, limit, most, |es|, now);
      assert es + burst == most + [Request(now)];
    }
  }

  lemma {:induction false} AllowedSplits(window: int, limit: int, es: seq<Event>, i: nat, k: nat, j: nat)
    requires i <= k <= j <= |es|
    ensures AllowedIn(window, limit, es, i, j)
            == AllowedIn(window, limit, es, i, k) + AllowedIn(window, limit, es, k, j)
    decreases j - k
  {
    if k < j {
      AllowedSplits(window, limit, es, i, k, j - 1);
    }
  }

  /** One request opens a window, limit - 1 come at its last instant, limit more at the first
      instant of the next one. */
  function Storm(window: int, limit: int): seq<Event>
    requires limit > 0
  {
    [Request(0)] + Burst(limit - 1, window - 1) + [Request(window)] + Burst(limit - 1, window)
  }

  /** For every limit the bound is reached, within one instant. */
  lemma BoundIsReached(window: int, limit: int)
    requires window > 1 && limit > 0
    ensures var es := Storm(window, limit);
            && Ordered(es) && |es| == 2 * limit && es[|es| - 1].now - es[1].now < window
            && AllowedIn(window, limit, es, 1, |es|) == 2 * limit - 1
  {
    var es := Storm(window, limit);
    var filled := [Request(0)] + Burst(limit - 1, window - 1);
    var renewed := filled + [Request(window)];
    FirstWindow(window, limit);
    SecondWindow(window, limit, filled);
    assert es == renewed + Burst(limit - 1, window);
    StormIsOrdered(window, limit);
    SameFront(window, limit, filled, es, 1, |filled|);
    AllowedSplits(window, limit, es, 1, |filled|, |es|);
  }

  lemma StormIsOrdered(window: int, limit: int)
    requires window > 1 && limit > 0
    ensures Ordered(Storm(window, limit))
    ensures forall k :: 0 <= k < 2 * limit ==>
              Storm(window, limit)[k] == Request(if k == 0 then 0 else if k < limit then window - 1 else window)
  {
  }

  lemma FirstWindow(window: int, limit: int)
    requires window > 1 && limit > 0
    ensures var filled := [Request(0)] + Burst(limit - 1, window - 1);
            && CounterAfter(window, limit, filled) == Some(Counter(limit, 0))
            && AllowedIn(window, limit, filled, 1, limit) == limit - 1
  {
    CounterThen(window, limit, [], Request(0));
    assert [] + [Request(0)] == [Request(0)];
    BurstCounts(window, limit, [Request(0)], Burst(limit - 1, window - 1), window - 1);
  }

  lemma SecondWindow(window: int, limit: int, filled: seq<Event>)
    requires window > 1 && limit > 0 && CounterAfter(window, limit, filled) == Some(Counter(limit, 0))
    ensures var es := filled + [Request(window)] + Burst(limit - 1, window);
            AllowedIn(window, limit, es, |filled|, |es|) == limit
  {
    var renewed := filled + [Request(window)];
    var es := renewed + Burst(limit - 1, window);
    CounterThen(window, limit, filled, Request(window));
    BurstCounts(window, limit, renewed, Burst(limit - 1, window), window);
    AllowedSplits(window, limit, es, |filled|, |renewed|, |es|);
    assert es[..|filled|] == filled;
    assert AllowedAt(window, limit, es, |filled|);
    assert AllowedIn(window, limit, es, |filled|, |filled|) == 0;
  }

  /** No stretch shorter than the window ever lets more than the limit through. */
  ghost predicate Slides(window: int, limit: int) {
    forall es: seq<Event>, i: nat, j: nat | Ordered(es) && i < j <= |es| && es[j - 1].now - es[i].now < window ::
      AllowedIn(window, limit, es, i, j) <= limit
  }

  /** The window is a sliding one only when the limit is one. */
  lemma SlidesIffLimitIsOne(window: int, limit: int)
    requires window > 1 && limit > 0
    ensures Slides(window, limit) <==> limit == 1
  {
    if limit == 1 {
      forall es: seq<Event>, i: nat, j: nat | Ordered(es) && i < j <= |es| && es[j - 1].now - es[i].now < window
        ensures AllowedIn(window, limit, es, i, j) <= limit
      {
        FewerThanTwiceTheLimit(window, limit, es, i, j);
      }
    } else {
      BoundIsReached(window, limit);
      var es := Storm(window, limit);
      assert AllowedIn(window, limit, es, 1, |es|) > limit;
    }
  }

  // ---------------------------------------------------------------- cleanup is invisible

  function Requests(es: seq<Event>): (rs: seq<Event>)
    ensures forall e <- rs :: e in es && e.Request?
  {
    if es == [] then []
    else
      var e := es[|es| - 1];
      Requests(es[..|es| - 1]) + if e.Request? then [e] else []
  }

  /** The answers the key's requests got, in order. */
  function Answers(window: int, limit: int, es: seq<Event>): seq<bool>
    decreases |es|
  {
    if es == [] then []
    else
      var e := es[|es| - 1];
      Answers(window, limit, es[..|es| - 1])
      + if e.Request? then [Counted(CounterAfter(window, limit, es[..|es| - 1]), window, limit, e.now).0] else []
  }

  /** Equal, or swept here and stale there. */
  predicate Alike(window: int, c: Option<Counter>, d: Option<Counter>, now: int) {
    c == d || (c.None? && d.Some? && Stale(d.value, window, now))
  }

  lemma AlikeAnswers(window: int, limit: int, c: Option<Counter>, d: Option<Counter>, e: Event, now: int)
    requires Alike(window, c, d, e.now) && e.now <= now
    ensures e.Request? ==> Counted(c, window, limit, e.now).0 == Counted(d, window, limit, e.now).0
    ensures Alike(window, Step(c, window, limit, e), if e.Request? then Step(d, window, limit, e) else d, now)
  {
  }

  lemma AnswersThen(window: int, limit: int, es: seq<Event>, e: Event)
    ensures Answers(window, limit, es + [e])
            == Answers(window, limit, es)
               + if e.Request? then [Counted(CounterAfter(window, limit, es), window, limit, e.now).0] else []
    ensures Requests(es + [e]) == if e.Request? then Requests(es) + [e] else Requests(es)
  {
    assert (es + [e])[..|es|] == es;
  }

  lemma OrderedFront(es: seq<Event>, e: Event, x: Event)
    requires Ordered(es + [e]) && x in es
    ensures x.now <= e.now
  {
    var k :| 0 <= k < |es| && es[k] == x;
    assert (es + [e])[k] == x && (es + [e])[|es|] == e;
  }

  /** With a clock that does not go back, sweeping at any moments changes no answer. */
  lemma {:induction false} SweepsAreInvisible(window: int, limit: int, es: seq<Event>, now: int)
    requires Ordered(es) && forall e <- es :: e.now <= now
    ensures Answers(window, limit, es) == Answers(window, limit, Requests(es))
    ensures Alike(window, CounterAfter(window, limit, es), CounterAfter(window, limit, Requests(es)), now)
    decreases |es|
  {
    if es != [] {
      var front, e := es[..|es| - 1], es[|es| - 1];
      assert es == front + [e] && e in es && Ordered(front);
      forall x <- front ensures x.now <= e.now {
        OrderedFront(front, e, x);
      }
      SweepsAreInvisible(window, limit, front, e.now);
      AlikeAnswers(window, limit, CounterAfter(window, limit, front), CounterAfter(window, limit, Requests(front)),
                   e, now);
      AnswersThen(window, limit, front, e);
      CounterThen(window, limit, front, e);
      AnswersThen(window, limit, Requests(front), e);
      CounterThen(window, limit, Requests(front), e);
      AllRequests(front);
    }
  }

  lemma {:induction false} AllRequests(es: seq<Event>)
    ensures Requests(Requests(es)) == Requests(es)
    decreases |es|
  {
    if es != [] {
      var front, e := es[..|es| - 1], es[|es| - 1];
      assert es == front + [e];
      AllRequests(front);
      AnswersThen(1, 1, front, e);
      AnswersThen(1, 1, Requests(front), e);
    }
  }

  // ---------------------------------------------------------------- when a sweep shows

  /** The answers to what follows, from a given counter of the key on. */
  function AnswersFrom(c: Option<Counter>, window: int, limit: int, es: seq<Event>): seq<bool>
    decreases |es|
  {
    if es == [] then []
    else
      (if es[0].Request? then [Counted(c, window, limit, es[0].now).0] else [])
      + AnswersFrom(Step(c, window, limit, es[0]), window, limit, es[1..])
  }

  lemma {:induction false} AnswersSplit(window: int, limit: int, before: seq<Event>, more: seq<Event>)
    ensures Answers(window, limit, before + more)
            == Answers(window, limit, before) + AnswersFrom(CounterAfter(window, limit, before), window, limit, more)
    decreases |more|
  {
    if more == [] {
      assert before + more == before;
    } else {
      assert before + more == before + [more[0]] + more[1..];
      AnswersSplit(window, limit, before + [more[0]], more[1..]);
      AnswersThen(window, limit, before, more[0]);
      CounterThen(window, limit, before, more[0]);
    }
  }

  /** A counter has counted at least one request, whatever order the clock readings come in. */
  lemma {:induction false} CountsOne(window: int, limit: int, es: seq<Event>)
    requires limit > 0
    ensures var c := CounterAfter(window, limit, es); c.Some? ==> c.value.count >= 1
    decreases |es|
  {
    if es != [] {
      CountsOne(window, limit, es[..|es| - 1]);
    }
  }

  /** Swept at reading s although it would still be counted at reading r. */
  predicate SweptTooSoon(c: Option<Counter>, window: int, s: int, r: int) {
    c.Some? && Stale(c.value, window, s) && !Stale(c.value, window, r)
  }

  /** A sweep read at s changes no answer, whatever follows a request read at r. */
  ghost predicate Invisible(c: Option<Counter>, window: int, limit: int, s: int, r: int) {
    forall es: seq<Event> | es != [] && es[0] == Request(r) ::
      AnswersFrom(Swept(c, window, s), window, limit, es) == AnswersFrom(c, window, limit, es)
  }

  lemma HiddenUnlessTooSoon(c: Option<Counter>, window: int, limit: int, s: int, r: int, es: seq<Event>)
    requires limit > 0 && !SweptTooSoon(c, window, s, r) && es != [] && es[0] == Request(r)
    ensures AnswersFrom(Swept(c, window, s), window, limit, es) == AnswersFrom(c, window, limit, es)
  {
    assert Swept(c, window, s) == c || Counted(None, window, limit, r) == Counted(c, window, limit, r);
  }

  /** Into an open window of n requests, n + k of them within the limit or not, go k more. */
  lemma {:induction false} BurstAnswers(c: Counter, window: int, limit: int, burst: seq<Event>, now: int)
    requires limit > 0 && !Stale(c, window, now) && forall k :: 0 <= k < |burst| ==> burst[k] == Request(now)
    ensures var answers := AnswersFrom(Some(c), window, limit, burst);
            |answers| == |burst| && forall k :: 0 <= k < |burst| ==> answers[k] == (c.count + k + 1 <= limit)
    decreases |burst|
  {
    if burst != [] {
      BurstAnswers(Counter(c.count + 1, c.windowStart), window, limit, burst[1..], now);
    }
  }

  /** As many requests at once as the limit: after the sweep all get through, without it the last
      does not. */
  lemma BurstTells(c: Counter, window: int, limit: int, r: int)
    requires window > 0 && limit > 0 && c.count >= 1 && !Stale(c, window, r)
    ensures AnswersFrom(None, window, limit, Burst(limit, r)) != AnswersFrom(Some(c), window, limit, Burst(limit, r))
  {
    var burst := Burst(limit, r);
    BurstAnswers(c, window, limit, burst, r);
    BurstAnswers(Counter(1, r), window, limit, burst[1..], r);
    assert AnswersFrom(None, window, limit, burst)
           == [true] + AnswersFrom(Some(Counter(1, r)), window, limit, burst[1..]);
    assert AnswersFrom(None, window, limit, burst)[limit - 1];
  }

  lemma SweepInvisibleIff(c: Option<Counter>, window: int, limit: int, s: int, r: int)
    requires window > 0 && limit > 0 && (c.Some? ==> c.value.count >= 1)
    ensures Invisible(c, window, limit, s, r) <==> !SweptTooSoon(c, window, s, r)
  {
    if SweptTooSoon(c, window, s, r) {
      BurstTells(c.value, window, limit, r);
      assert Burst(limit, r)[0] == Request(r);
    } else {
      forall es: seq<Event> | es != [] && es[0] == Request(r)
        ensures AnswersFrom(Swept(c, window, s), window, limit, es) == AnswersFrom(c, window, limit, es)
      {
        HiddenUnlessTooSoon(c, window, limit, s, r, es);
      }
    }
  }

  /** Whether the sweep at s leaves every history alike that goes on with a request read at r. */
  ghost predicate SweepHides(window: int, limit: int, before: seq<Event>, s: int, r: int) {
    forall more: seq<Event> | more != [] && more[0] == Request(r) ::
      Answers(window, limit, before + [Sweep(s)] + more) == Answers(window, limit, before + more)
  }

  lemma SameTail(front: seq<bool>, a: seq<bool>, b: seq<bool>)
    ensures front + a == front + b <==> a == b
  {
    assert a == (front + a)[|front|..] && b == (front + b)[|front|..];
  }

  lemma AnswersAfterSweep(window: int, limit: int, before: seq<Event>, s: int, more: seq<Event>)
    ensures Answers(window, limit, before + [Sweep(s)] + more)
            == Answers(window, limit, before)
               + AnswersFrom(Swept(CounterAfter(window, limit, before), window, s), window, limit, more)
  {
    AnswersSplit(window, limit, before + [Sweep(s)], more);
    AnswersThen(window, limit, before, Sweep(s));
    CounterThen(window, limit, before, Sweep(s));
  }

  lemma SweepBetween(window: int, limit: int, before: seq<Event>, s: int, more: seq<Event>)
    ensures var c := CounterAfter(window, limit, before);
            Answers(window, limit, before + [Sweep(s)] + more) == Answers(window, limit, before + more)
            <==> AnswersFrom(Swept(c, window, s), window, limit, more) == AnswersFrom(c, window, limit, more)
  {
    var c := CounterAfter(window, limit, before);
    AnswersAfterSweep(window, limit, before, s, more);
    AnswersSplit(window, limit, before, more);
    SameTail(Answers(window, limit, before), AnswersFrom(Swept(c, window, s), window, limit, more),
             AnswersFrom(c, window, limit, more));
  }

  /** After any history, with the clock readings in any order: a sweep read at s can be told by what
      follows a request read at r exactly if it drops the counter as stale at s while it is not
      stale at r. So it never can while readings ascend, and takes no more than a request that read
      the clock, waited for the lock, and came after the sweep. */
  lemma SweepShowsIff(window: int, limit: int, before: seq<Event>, s: int, r: int)
    requires window > 0 && limit > 0
    ensures SweepHides(window, limit, before, s, r)
            <==> !SweptTooSoon(CounterAfter(window, limit, before), window, s, r)
    ensures s <= r ==> SweepHides(window, limit, before, s, r)
  {
    var c := CounterAfter(window, limit, before);
    CountsOne(window, limit, before);
    SweepInvisibleIff(c, window, limit, s, r);
    forall more: seq<Event> | more != [] && more[0] == Request(r)
      ensures Answers(window, limit, before + [Sweep(s)] + more) == Answers(window, limit, before + more)
              <==> AnswersFrom(Swept(c, window, s), window, limit, more) == AnswersFrom(c, window, limit, more)
    {
      SweepBetween(window, limit, before, s, more);
    }
  }

  /** A run in which it shows: a key swept as stale starts afresh at an instant when it would still
      have been counted. */
  lemma SweepShowsWhenClockGoesBack()
    ensures var es := [Request(0), Sweep(60), Request(30)];
            Answers(60, 1, es) == [true, true] && Answers(60, 1, Requests(es)) == [true, false]
  {
    var a, b, c := Request(0), Sweep(60), Request(30);
    OnlyTheRequests(a, b, c);
    FirstAnswer(a, [b, c]);
    FirstAnswer(a, [c]);
    assert [a] + [b, c] == [a, b, c] && [a] + [c] == [a, c] && [b, c] == [b] + [c];
    AnswersAfterSweep(60, 1, [a], 60, [c]);
    LastAnswer(Some(Counter(1, 0)), c);
    LastAnswer(None, c);
  }

  lemma FirstAnswer(e: Event, more: seq<Event>)
    requires e == Request(0)
    ensures Answers(60, 1, [e]) == [true] && CounterAfter(60, 1, [e]) == Some(Counter(1, 0))
    ensures Answers(60, 1, [e] + more) == [true] + AnswersFrom(Some(Counter(1, 0)), 60, 1, more)
  {
    assert [] + [e] == [e];
    AnswersThen(60, 1, [], e);
    CounterThen(60, 1, [], e);
    AnswersSplit(60, 1, [e], more);
  }

  lemma LastAnswer(c: Option<Counter>, e: Event)
    requires e.Request?
    ensures AnswersFrom(c, 60, 1, [e]) == [Counted(c, 60, 1, e.now).0]
  {
    assert [e][1..] == [];
  }

  lemma OneEvent(e: Event)
    ensures Requests([e]) == if e.Request? then [e] else []
  {
    assert [e][..0] == [];
  }

  lemma OnlyTheRequests(a: Event, b: Event, c: Event)
    requires a.Request? && b.Sweep? && c.Request?
    ensures Requests([a, b, c]) == [a, c]
  {
    assert [a] + [b] == [a, b] && [a, b] + [c] == [a, b, c];
    OneEvent(a);
    AnswersThen(60, 1, [a], b);
    AnswersThen(60, 1, [a, b], c);
  }
}
