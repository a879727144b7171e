// The notifier object (plugin.js, createNotifier): every method makes exactly the step of
// the state machine in Notification.
module Notifier {
  import opened Options
  import N = Notification

  class Notifier {
    var history: seq<N.Entry>
    var pendingContext: seq<N.Item>
    var sending: seq<N.Item>             // the calls that wait for the operating system
    var dndMode: bool
    var dndSuppressedCount: nat
    var rateLimitTimestamps: seq<N.Time>
    var rateLimitPerMinute: real
    var recentKeys: map<N.Key, N.Time>

    ghost function State(): N.State
      reads this
    {
      N.State(history, pendingContext, sending, dndMode, dndSuppressedCount, rateLimitTimestamps,
              rateLimitPerMinute, recentKeys)
    }

    constructor ()
      ensures State() == N.INITIAL
    {
      history, pendingContext, sending := [], [], [];
      dndMode, dndSuppressedCount := false, 0;
      rateLimitTimestamps, rateLimitPerMinute := [], 5.0;
      recentKeys := map[];
    }

    // isDuplicate: a new key is remembered, and every key older than the window is dropped.
    method IsDuplicate(notice: N.Notice, now: N.Time) returns (duplicate: bool)
      modifies `recentKeys
      ensures duplicate == N.IsDuplicate(old(recentKeys), N.KeyOf(notice), now)
      ensures recentKeys == if duplicate then old(recentKeys) else N.Remember(old(recentKeys), N.KeyOf(notice), now)
    {
      var key := N.KeyOf(notice);
      if key in recentKeys && recentKeys[key] != 0 && now - recentKeys[key] < N.DEDUP_WINDOW {
        return true;
      }
      recentKeys := recentKeys[key := now];
      ghost var all := recentKeys;
      var rest := recentKeys.Keys;
      while rest != {}
        invariant rest <= recentKeys.Keys <= all.Keys
        invariant forall k :: k in recentKeys ==> recentKeys[k] == all[k]
        invariant forall k :: k in all && k !in rest ==> (k in recentKeys <==> now - all[k] <= N.DEDUP_WINDOW)
        invariant forall k :: k in rest ==> k in recentKeys
      {
        var k :| k in rest;
        rest := rest - {k};
        if now - recentKeys[k] > N.DEDUP_WINDOW {
          recentKeys := recentKeys - {k};
        }
      }
      return false;
    }

    // checkRateLimit
    method CheckRateLimit(now: N.Time) returns (allowed: bool)
      modifies `rateLimitTimestamps
      ensures allowed == !(|N.After(old(rateLimitTimestamps), now - N.RATE_WINDOW)| as real >= rateLimitPerMinute)
      ensures rateLimitTimestamps
              == N.After(old(rateLimitTimestamps), now - N.RATE_WINDOW) + (if allowed then [now] else [])
    {
      var windowStart := now - N.RATE_WINDOW;
      var kept := [];
      for i := 0 to |rateLimitTimestamps|
        invariant rateLimitTimestamps == old(rateLimitTimestamps)
        invariant kept == N.After(rateLimitTimestamps[..i], windowStart)
      {
        assert N.Front(rateLimitTimestamps[..i + 1]) == rateLimitTimestamps[..i];
        if rateLimitTimestamps[i] > windowStart {
          kept := kept + [rateLimitTimestamps[i]];
        }
      }
      assert rateLimitTimestamps[..|rateLimitTimestamps|] == rateLimitTimestamps;
      rateLimitTimestamps := kept;
      if |rateLimitTimestamps| as real >= rateLimitPerMinute {
        return false;
      }
      rateLimitTimestamps := rateLimitTimestamps + [now];
      return true;
    }

    // notify, up to the point where an urgent message waits for the operating system. The
    // three clock readings are the call's own, the duplicate check's and the limiter's.
    method Notify(notice: N.Notice, at: N.Time, dedupAt: N.Time, limitAt: N.Time) returns (outcome: N.Outcome)
      modifies this
      ensures outcome == N.OutcomeOf(old(State()), N.Notify(notice, at, dedupAt, limitAt))
      ensures State() == N.Step(old(State()), N.Notify(notice, at, dedupAt, limitAt))
    {
      hide N.After, N.Remember, N.IsDuplicate;
      history := history + [N.Entry(notice, at)];
      if |history| > N.MAX_HISTORY {
        history := history[1..];
      }
      var duplicate := IsDuplicate(notice, dedupAt);
      if duplicate {
        return N.Duplicate;
      }
      var allowed := CheckRateLimit(limitAt);
      if !allowed {
        return N.RateDropped;
      }
      if dndMode && notice.severity != N.Critical {
        dndSuppressedCount := dndSuppressedCount + 1;
        return N.Suppressed;
      }
      if notice.severity == N.Critical || notice.severity == N.Warning {
        sending := sending + [N.ItemOf(notice, at)];
      } else {
        pendingContext := pendingContext + [N.ItemOf(notice, at)];
      }
      return N.Delivered;
    }

    // The operating system has answered one of the waiting calls, well or badly.
    method Sent(index: nat)
      requires index < |sending|
      modifies this
      ensures State() == N.Step(old(State()), N.Sent(index))
    {
      var item := sending[index];
      sending := sending[..index] + sending[index + 1..];
      pendingContext := pendingContext + [item];
    }

    // drainPendingContext
    method DrainPendingContext() returns (items: seq<N.Item>)
      modifies this
      ensures items == old(pendingContext)
      ensures State() == N.Step(old(State()), N.Drain)
    {
      items := pendingContext;
      pendingContext := [];
    }

    // setDnd: turning it off returns the number of calls suppressed, and queues a summary
    // unless it is zero.
    method SetDnd(enabled: bool, now: N.Time) returns (count: Option<nat>)
      modifies this
      ensures count == if enabled then None else Some(old(dndSuppressedCount))
      ensures State() == N.Step(old(State()), N.SetDnd(enabled, now))
    {
      dndMode := enabled;
      if enabled {
        return None;
      }
      var suppressed := dndSuppressedCount;
      dndSuppressedCount := 0;
      if suppressed > 0 {
        pendingContext := pendingContext + [N.Summary(suppressed, now)];
      }
      return Some(suppressed);
    }

    // resetCounters
    method ResetCounters()
      modifies this
      ensures State() == N.Step(old(State()), N.ResetCounters)
    {
      rateLimitTimestamps := [];
    }

    // setRateLimit: only a positive limit is accepted.
    method SetRateLimit(limit: real)
      modifies this
      ensures State() == N.Step(old(State()), N.SetRateLimit(limit))
    {
      if limit > 0.0 {
        rateLimitPerMinute := limit;
      }
    }
  }
}
