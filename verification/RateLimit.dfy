/** The sliding-window limiter that prunes what it remembers: apps/api/captureos/core/ratelimit.py. */
module RateLimit {

  datatype Call = Call(key: string, time: real)

  // The times that still count at `now`, in order.
  function Recent(times: seq<real>, now: real, window: real): seq<real> {
    if times == [] then []
    else
      var t, kept := times[|times| - 1], Recent(times[..|times| - 1], now, window);
      if now - t < window then kept + [t] else kept
  }

  function Times(calls: seq<Call>, key: string): seq<real> {
    if calls == [] then []
    else
      var c, before := calls[|calls| - 1], Times(calls[..|calls| - 1], key);
      if c.key == key then before + [c.time] else before
  }

  // The rule over the whole history: what is accepted, when nothing accepted is ever forgotten.
  function Accepted(calls: seq<Call>, limit: int, window: real): seq<Call> {
    if calls == [] then []
    else
      var c, before := calls[|calls| - 1], Accepted(calls[..|calls| - 1], limit, window);
      if |Recent(Times(before, c.key), c.time, window)| < limit then before + [c] else before
  }

  // Forgetting what has left the window changes nothing at any later time.
  lemma {:induction false} PruneTwice(times: seq<real>, earlier: real, now: real, window: real)
    requires earlier <= now
    ensures Recent(Recent(times, earlier, window), now, window) == Recent(times, now, window)
  {
    if times != [] {
      var rest, t := times[..|times| - 1], times[|times| - 1];
      PruneTwice(rest, earlier, now, window);
      if earlier - t < window {
        RecentAppend(Recent(rest, earlier, window), t, now, window);
      }
    }
  }

  lemma RecentAppend(times: seq<real>, t: real, now: real, window: real)
    ensures Recent(times + [t], now, window) == if now - t < window then Recent(times, now, window) + [t]
      else Recent(times, now, window)
  {
    assert (times + [t])[..|times|] == times;
  }

  lemma TimesAppend(calls: seq<Call>, c: Call, key: string)
    ensures Times(calls + [c], key) == if c.key == key then Times(calls, key) + [c.time] else Times(calls, key)
  {
    assert (calls + [c])[..|calls|] == calls;
  }

  class Limiter {
    const limit: int
    const window: real
    var attempts: map<string, seq<real>>
    ghost var calls: seq<Call>
    ghost var clock: real

    function Stored(key: string): seq<real>
      reads this
    {
      if key in attempts then attempts[key] else []
    }

    // What is remembered agrees with the whole accepted history at every time from now on.
    ghost predicate Valid()
      reads this
    {
      forall key, now | now >= clock ::
        Recent(Stored(key), now, window) == Recent(Times(Accepted(calls, limit, window), key), now, window)
    }

    constructor (limit: int, window: real, ghost start: real)
      ensures Valid() && this.limit == limit && this.window == window && calls == [] && clock == start
    {
      this.limit, this.window, attempts, calls, clock := limit, window, map[], [], start;
    }

    // One attempt at a reading of a clock that never runs backwards.
    method Check(key: string, now: real) returns (ok: bool)
      requires Valid() && clock <= now
      modifies this
      ensures Valid() && clock == now && calls == old(calls) + [Call(key, now)]
      ensures ok <==> |Recent(Times(Accepted(old(calls), limit, window), key), now, window)| < limit
      ensures Accepted(calls, limit, window) == if ok then Accepted(old(calls), limit, window) + [Call(key, now)]
        else Accepted(old(calls), limit, window)
      ensures attempts == if ok then old(attempts)[key := Recent(old(Stored(key)), now, window) + [now]]
        else old(attempts)
    {
      var known := Stored(key);
      var recent := [];
      for i := 0 to |known|
        invariant recent == Recent(known[..i], now, window)
      {
        assert known[..i + 1][..i] == known[..i];
        if now - known[i] < window {
          recent := recent + [known[i]];
        }
      }
      assert known[..|known|] == known;
      ghost var before := Accepted(calls, limit, window);
      assert recent == Recent(Times(before, key), now, window);
      assert (calls + [Call(key, now)])[..|calls|] == calls;
      calls, clock := calls + [Call(key, now)], now;
      ok := |recent| < limit;
      if ok {
        recent := recent + [now];
        attempts := attempts[key := recent];
        forall k, t | t >= clock
          ensures Recent(Stored(k), t, window) == Recent(Times(before + [Call(key, now)], k), t, window)
        {
          TimesAppend(before, Call(key, now), k);
          if k == key {
            StillAgree(known, Times(before, key), now, t, window);
          }
        }
      }
    }
  }

  lemma StillAgree(stored: seq<real>, full: seq<real>, now: real, later: real, window: real)
    requires now <= later && Recent(stored, later, window) == Recent(full, later, window)
    ensures Recent(Recent(stored, now, window) + [now], later, window) == Recent(full + [now], later, window)
  {
    RecentAppend(Recent(stored, now, window), now, later, window);
    RecentAppend(full, now, later, window);
    PruneTwice(stored, now, later, window);
  }

  // ---------------------------------------------------------------------------
  // What the rule guarantees
  // ---------------------------------------------------------------------------

  predicate Sorted(times: seq<real>) {
    forall i, j | 0 <= i <= j < |times| :: times[i] <= times[j]
  }

  predicate Ordered(calls: seq<Call>) {
    forall i, j | 0 <= i <= j < |calls| :: calls[i].time <= calls[j].time
  }

  predicate SpacedAt(times: seq<real>, i: nat, limit: nat, window: real)
    requires limit <= i < |times|
  {
    times[i] - times[i - limit] >= window
  }

  // Any limit + 1 of the times in a row span at least one window.
  predicate Spaced(times: seq<real>, limit: nat, window: real) {
    forall i | limit <= i < |times| :: SpacedAt(times, i, limit, window)
  }

  lemma SpacedAppend(times: seq<real>, t: real, limit: nat, window: real)
    requires limit >= 1
    ensures Spaced(times + [t], limit, window)
      <==> Spaced(times, limit, window) && (|times| >= limit ==> t - times[|times| - limit] >= window)
  {
    assert forall i | limit <= i < |times| ::
      SpacedAt(times + [t], i, limit, window) <==> SpacedAt(times, i, limit, window);
    if |times| >= limit {
      assert SpacedAt(times + [t], |times|, limit, window) <==> t - times[|times| - limit] >= window;
    }
  }

  // What is recent in a sorted list is its end.
  lemma {:induction false} RecentIsSuffix(times: seq<real>, now: real, window: real)
    requires Sorted(times)
    ensures |Recent(times, now, window)| <= |times|
    ensures forall i | 0 <= i < |times| :: now - times[i] < window <==> i >= |times| - |Recent(times, now, window)|
  {
    if times != [] {
      var rest := times[..|times| - 1];
      RecentIsSuffix(rest, now, window);
      assert forall i | 0 <= i < |rest| :: rest[i] == times[i] <= times[|rest|];
    }
  }

  // An attempt is accepted exactly when the accepted times stay spaced with it.
  lemma AcceptsIfSpaced(times: seq<real>, now: real, limit: nat, window: real)
    requires Sorted(times) && Spaced(times, limit, window) && limit >= 1
    ensures |Recent(times, now, window)| < limit <==> Spaced(times + [now], limit, window)
  {
    RecentIsSuffix(times, now, window);
    SpacedAppend(times, now, limit, window);
  }

  // The accepted times of one key, from its own attempts alone.
  function Greedy(times: seq<real>, limit: int, window: real): seq<real> {
    if times == [] then []
    else
      var t, before := times[|times| - 1], Greedy(times[..|times| - 1], limit, window);
      if |Recent(before, t, window)| < limit then before + [t] else before
  }

  // Keys do not disturb each other.
  lemma {:induction false} KeysIndependent(calls: seq<Call>, limit: int, window: real, key: string)
    ensures Times(Accepted(calls, limit, window), key) == Greedy(Times(calls, key), limit, window)
  {
    if calls != [] {
      var rest, c := calls[..|calls| - 1], calls[|calls| - 1];
      KeysIndependent(rest, limit, window, key);
      TimesAppend(Accepted(rest, limit, window), c, key);
      if c.key == key {
        assert Times(calls, key)[..|Times(calls, key)| - 1] == Times(rest, key);
        assert Times(Accepted(rest, limit, window), key) == Greedy(Times(rest, key), limit, window);
      }
    }
  }

  lemma {:induction false} GreedySpaced(times: seq<real>, limit: nat, window: real)
    requires Sorted(times)
    ensures var g := Greedy(times, limit, window);
      Sorted(g) && Spaced(g, limit, window) && (g != [] ==> g[|g| - 1] <= times[|times| - 1])
      && (g != [] ==> times != [])
  {
    if times != [] {
      var rest, t := times[..|times| - 1], times[|times| - 1];
      GreedySpaced(rest, limit, window);
      if limit >= 1 {
        AcceptsIfSpaced(Greedy(rest, limit, window), t, limit, window);
      }
    }
  }

  lemma {:induction false} TimesSorted(calls: seq<Call>, key: string)
    requires Ordered(calls)
    ensures Sorted(Times(calls, key))
    ensures Times(calls, key) != [] ==>
      calls != [] && Times(calls, key)[|Times(calls, key)| - 1] <= calls[|calls| - 1].time
  {
    if calls != [] {
      TimesSorted(calls[..|calls| - 1], key);
    }
  }

  // Whatever the attempts, any limit + 1 accepted for one key span at least one window.
  lemma AcceptedSpaced(calls: seq<Call>, limit: nat, window: real, key: string)
    requires Ordered(calls)
    ensures Spaced(Times(Accepted(calls, limit, window), key), limit, window)
  {
    TimesSorted(calls, key);
    KeysIndependent(calls, limit, window, key);
    GreedySpaced(Times(calls, key), limit, window);
  }

  predicate IsSubsequence(s: seq<real>, times: seq<real>) {
    s == [] || (times != [] && (IsSubsequence(s, times[..|times| - 1])
                                || (s[|s| - 1] == times[|times| - 1] &&
                                  IsSubsequence(s[..|s| - 1], times[..|times| - 1]))))
  }

  // The k-th accepted time is no later than the k-th of any other spaced choice.
  lemma {:induction false} GreedyIsEarliest(times: seq<real>, chosen: seq<real>, limit: nat, window: real)
    requires Sorted(times) && limit >= 1
    requires IsSubsequence(chosen, times) && Spaced(chosen, limit, window)
    ensures |chosen| <= |Greedy(times, limit, window)|
    ensures forall k | 0 <= k < |chosen| :: Greedy(times, limit, window)[k] <= chosen[k]
  {
    if chosen != [] {
      var rest, t := times[..|times| - 1], times[|times| - 1];
      var before := Greedy(rest, limit, window);
      GreedySpaced(rest, limit, window);
      if IsSubsequence(chosen, rest) {
        GreedyIsEarliest(rest, chosen, limit, window);
      } else {
        var m := |chosen| - 1;
        assert chosen == chosen[..m] + [t];
        SpacedAppend(chosen[..m], t, limit, window);
        GreedyIsEarliest(rest, chosen[..m], limit, window);
        if |before| == m {
          assert m >= limit ==> before[m - limit] <= chosen[m - limit];
          SpacedAppend(before, t, limit, window);
          AcceptsIfSpaced(before, t, limit, window);
        } else {
          assert before[m] <= before[|before| - 1] <= t;
        }
      }
    }
  }

  // No choice of attempts that keeps the same spacing lets more of them through.
  lemma AcceptsTheMost(calls: seq<Call>, chosen: seq<real>, limit: nat, window: real, key: string)
    requires Ordered(calls)
    requires IsSubsequence(chosen, Times(calls, key)) && Spaced(chosen, limit, window) && limit >= 1
    ensures |chosen| <= |Times(Accepted(calls, limit, window), key)|
  {
    TimesSorted(calls, key);
    KeysIndependent(calls, limit, window, key);
    GreedyIsEarliest(Times(calls, key), chosen, limit, window);
  }
}
