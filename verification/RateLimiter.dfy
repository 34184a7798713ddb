/**
 The sliding-window rate limiter (src/handlers/limits.py). Times are real
 numbers: rounding of floating-point clocks is not modelled.
 */
module RateLimiter {
  /** The accepted events at times in (end - window, end]. */
  function InWindow(history: seq<real>, end: real, window: real): (n: nat)
    ensures n <= |history|
  {
    if history == [] then 0
    else
      var last := history[|history| - 1];
      InWindow(history[..|history| - 1], end, window) + if end - window < last <= end then 1 else 0
  }

  /** The positions of those events. */
  ghost function EventsIn(history: seq<real>, end: real, window: real): set<nat> {
    set i: nat | i < |history| && end - window < history[i] <= end
  }

  lemma {:induction false} InWindowIsCount(history: seq<real>, end: real, window: real)
    ensures InWindow(history, end, window) == |EventsIn(history, end, window)|
  {
    if history == [] {
      assert EventsIn(history, end, window) == {};
    } else {
      var n := |history| - 1;
      InWindowIsCount(history[..n], end, window);
      var front := EventsIn(history[..n], end, window);
      if end - window < history[n] <= end {
        assert EventsIn(history, end, window) == front + {n};
      } else {
        assert EventsIn(history, end, window) == front;
      }
    }
  }

  predicate Ascending(history: seq<real>) {
    forall i, j :: 0 <= i < j < |history| ==> history[i] <= history[j]
  }

  /** Any limit + 1 consecutive accepted events span at least a window. */
  ghost predicate Spaced(history: seq<real>, limit: nat, window: real) {
    forall i, j :: 0 <= i && i + limit <= j < |history| ==> history[i] + window <= history[j]
  }

  /** In an ascending history, the window ending at end holds the events from position k on. */
  lemma {:induction false} WindowIsSuffix(history: seq<real>, end: real, window: real, k: nat)
    requires Ascending(history) && k <= |history|
    requires forall i :: 0 <= i < k ==> history[i] <= end - window
    requires forall i :: k <= i < |history| ==> end - window < history[i] <= end
    ensures InWindow(history, end, window) == |history| - k
  {
    if k < |history| {
      WindowIsSuffix(history[..|history| - 1], end, window, k);
    } else if history != [] {
      WindowIsSuffix(history[..|history| - 1], end, window, |history| - 1);
    }
  }

  lemma {:induction false} WindowOfFuture(history: seq<real>, end: real, window: real)
    requires Ascending(history) && window > 0.0
    ensures InWindow(history, end, window) == InWindow(UpTo(history, end), end, window)
    ensures UpTo(history, end) <= history && Ascending(UpTo(history, end))
    ensures forall i :: 0 <= i < |UpTo(history, end)| ==> UpTo(history, end)[i] <= end
  {
    if history == [] || history[|history| - 1] <= end {
    } else {
      WindowOfFuture(history[..|history| - 1], end, window);
    }
  }

  /** The events not after end. */
  function UpTo(history: seq<real>, end: real): seq<real> {
    if history != [] && history[|history| - 1] > end then UpTo(history[..|history| - 1], end) else history
  }

  /** Number of events of an ascending history that are at or before cutoff. */
  function Expired(history: seq<real>, cutoff: real): (k: nat)
    ensures k <= |history|
    ensures k < |history| ==> history[k] > cutoff
    ensures forall i :: 0 <= i < k ==> history[i] <= cutoff
  {
    if history == [] || history[0] > cutoff then 0
    else
      var k := Expired(history[1..], cutoff);
      assert forall i :: 0 < i < k + 1 ==> history[i] == history[1..][i - 1];
      k + 1
  }

  /** The last window of a spaced history has at most limit events. */
  lemma LastWindowIsSmall(past: seq<real>, limit: nat, window: real, end: real)
    requires Ascending(past) && window > 0.0 && limit > 0 && Spaced(past, limit, window)
    requires forall i :: 0 <= i < |past| ==> past[i] <= end
    ensures InWindow(past, end, window) <= limit
  {
    CountOfNow(past, window, end);
    hide InWindow, Spaced;
    var k := Expired(past, end - window);
    if k + limit < |past| {
      SpacedAt(past, limit, window, k);
    }
  }

  lemma SpacedAt(history: seq<real>, limit: nat, window: real, k: nat)
    requires Spaced(history, limit, window) && k + limit < |history|
    ensures history[k] + window <= history[k + limit]
  {
  }

  lemma SpacedFront(history: seq<real>, past: seq<real>, limit: nat, window: real)
    requires Spaced(history, limit, window) && past <= history
    ensures Spaced(past, limit, window)
  {
  }

  /** A spaced history never has more than limit events in any window, past or future. */
  lemma SpacedBoundsEveryWindow(history: seq<real>, limit: nat, window: real, end: real)
    requires Ascending(history) && window > 0.0 && limit > 0 && Spaced(history, limit, window)
    ensures InWindow(history, end, window) <= limit
  {
    hide *;
    WindowOfFuture(history, end, window);
    SpacedFront(history, UpTo(history, end), limit, window);
    LastWindowIsSmall(UpTo(history, end), limit, window, end);
  }

  datatype Verdict = Accepted | Limited(retryIn: real)

  /** An event at now, accepted with fewer than limit events in its window, keeps the spacing. */
  lemma AcceptKeepsSpacing(history: seq<real>, limit: nat, window: real, now: real)
    requires Ascending(history) && Spaced(history, limit, window) && limit > 0 && window > 0.0
    requires forall i :: 0 <= i < |history| ==> history[i] <= now
    requires InWindow(history, now, window) < limit
    ensures Ascending(history + [now]) && Spaced(history + [now], limit, window)
  {
    CountOfNow(history, window, now);
  }

  /** With all events in the past, the window at now holds those that have not expired. */
  lemma CountOfNow(history: seq<real>, window: real, now: real)
    requires Ascending(history) && window > 0.0
    requires forall i :: 0 <= i < |history| ==> history[i] <= now
    ensures InWindow(history, now, window) == |history| - Expired(history, now - window)
  {
    var k := Expired(history, now - window);
    assert forall i :: k <= i < |history| ==> history[k] <= history[i];
    WindowIsSuffix(history, now, window, k);
  }

  /** When the window at now is full, it stays full until its oldest event
      expires, and no longer. */
  lemma RetryIsExact(history: seq<real>, limit: nat, window: real, now: real, t: real)
    requires Ascending(history) && Spaced(history, limit, window) && limit > 0 && window > 0.0
    requires forall i :: 0 <= i < |history| ==> history[i] <= now
    requires InWindow(history, now, window) >= limit && t >= now
    ensures limit <= |history|
    ensures InWindow(history, t, window) < limit <==> t >= history[|history| - limit] + window
  {
    SpacedBoundsEveryWindow(history, limit, window, now);
    CountOfNow(history, window, now);
    CountOfNow(history, window, t);
    hide InWindow, Spaced;
    var k := Expired(history, t - window);
    var oldest := |history| - limit;
    if k <= oldest {
      assert history[k] <= history[oldest];
    }
  }

  lemma RetryAtAnyTime(history: seq<real>, limit: nat, window: real, now: real)
    requires Ascending(history) && Spaced(history, limit, window) && limit > 0 && window > 0.0
    requires forall i :: 0 <= i < |history| ==> history[i] <= now
    requires InWindow(history, now, window) >= limit
    ensures limit <= |history|
    ensures forall t :: t >= now ==>
      (InWindow(history, t, window) < limit <==> t >= history[|history| - limit] + window)
  {
    RetryIsExact(history, limit, window, now, now);
    forall t | t >= now
      ensures InWindow(history, t, window) < limit <==> t >= history[|history| - limit] + window
    {
      RetryIsExact(history, limit, window, now, t);
    }
  }

  /** The deque is the full history up to clock without events that have expired. */
  ghost predicate Pruned(history: seq<real>, events: seq<real>, window: real, clock: real) {
    && Ascending(history)
    && (forall i :: 0 <= i < |history| ==> history[i] <= clock)
    && |events| <= |history| && events == history[|history| - |events|..]
    && (forall i :: 0 <= i < |history| - |events| ==> history[i] <= clock - window)
  }

  lemma PrunedLater(history: seq<real>, events: seq<real>, window: real, clock: real, now: real)
    requires Pruned(history, events, window, clock) && clock <= now
    ensures Pruned(history, events, window, now)
  {
  }

  lemma PrunedDrop(history: seq<real>, events: seq<real>, window: real, now: real)
    requires Pruned(history, events, window, now) && events != [] && events[0] <= now - window
    ensures Pruned(history, events[1..], window, now)
  {
    assert events[0] == history[|history| - |events|];
  }

  /** After the loop the deque holds exactly the events in the current window. */
  lemma PrunedFully(history: seq<real>, events: seq<real>, window: real, now: real)
    requires Pruned(history, events, window, now) && window > 0.0
    requires events == [] || events[0] > now - window
    ensures |events| == InWindow(history, now, window)
    ensures forall i :: 0 <= i < |events| ==> events[i] == history[|history| - |events| + i]
    ensures forall i :: 0 <= i < |history| ==> history[i] <= now
    ensures Ascending(history)
  {
    CountOfNow(history, window, now);
    var k := Expired(history, now - window);
    if events != [] {
      assert history[|history| - |events|] == events[0];
    }
  }

  lemma PrunedAppend(history: seq<real>, events: seq<real>, window: real, now: real)
    requires Pruned(history, events, window, now)
    ensures Pruned(history + [now], events + [now], window, now)
  {
  }

  class SlidingWindowRateLimiter {
    const limit: nat
    const windowSeconds: real
    const enabled: bool
    var events: seq<real>
    /** Every event accepted by an enabled limiter, and the latest time it was asked. */
    ghost var history: seq<real>
    ghost var clock: real

    ghost predicate Valid()
      reads this
    {
      && windowSeconds >= 0.0 && (enabled <==> limit > 0 && windowSeconds > 0.0)
      && Pruned(history, events, windowSeconds, clock) && Spaced(history, limit, windowSeconds)
    }

    constructor (limit: int, windowSeconds: real, ghost start: real)
      ensures Valid() && history == [] && clock == start
      ensures this.limit == if limit < 0 then 0 else limit
      ensures this.windowSeconds == if windowSeconds < 0.0 then 0.0 else windowSeconds
    {
      this.limit := if limit < 0 then 0 else limit;
      this.windowSeconds := if windowSeconds < 0.0 then 0.0 else windowSeconds;
      this.enabled := limit > 0 && windowSeconds > 0.0;
      events, history, clock := [], [], start;
    }

    /** The clock never goes back. */
    method Consume(now: real) returns (r: Verdict)
      requires Valid() && now >= clock
      modifies this`events, this`history, this`clock
      ensures Valid()
      ensures !enabled ==> r == Accepted && events == old(events) && history == old(history)
      ensures enabled ==> clock == now && (r == Accepted <==> InWindow(old(history), now, windowSeconds) < limit)
      ensures enabled && r == Accepted ==> history == old(history) + [now]
      ensures r.Limited? ==> history == old(history) && r.retryIn > 0.0
      ensures r.Limited? ==> forall t :: t >= now ==>
        (InWindow(history, t, windowSeconds) < limit <==> t >= now + r.retryIn)
    {
      hide Pruned, InWindow, Spaced, Ascending;
      if !enabled {
        return Accepted;
      }
      var cutoff := now - windowSeconds;
      PrunedLater(history, events, windowSeconds, clock, now);
      clock := now;
      while events != [] && events[0] <= cutoff
        invariant Pruned(history, events, windowSeconds, now)
        invariant history == old(history) && clock == now
        decreases |events|
      {
        PrunedDrop(history, events, windowSeconds, now);
        events := events[1..];
      }
      PrunedFully(history, events, windowSeconds, now);
      if |events| >= limit {
        SpacedBoundsEveryWindow(history, limit, windowSeconds, now);
        RetryAtAnyTime(history, limit, windowSeconds, now);
        var retryIn := events[0] + windowSeconds - now;
        return Limited(if retryIn < 0.0 then 0.0 else retryIn);
      }
      AcceptKeepsSpacing(history, limit, windowSeconds, now);
      PrunedAppend(history, events, windowSeconds, now);
      events := events + [now];
      history := history + [now];
      return Accepted;
    }
  }
}
