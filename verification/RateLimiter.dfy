/** The per-key fixed-window limiter, with and without garbage collection (utils/rate_limit.go). */
module RateLimiter {

  /** The window a key has open and how many calls it admitted. */
  datatype Window = Window(start: int, count: nat)

  /** One call: who asked and when. */
  datatype Call = Call(key: string, now: int)

  /** The limiter that never forgets a key, as the meaning of Allow. */
  function Next(limit: int, window: int, entries: map<string, Window>, c: Call): (map<string, Window>, bool) {
    if c.key !in entries || c.now - entries[c.key].start >= window then
      (entries[c.key := Window(c.now, 1)], true)
    else if entries[c.key].count >= limit then (entries, false)
    else (entries[c.key := Window(entries[c.key].start, entries[c.key].count + 1)], true)
  }

  /** The state and the answers after a history of calls. */
  function Run(limit: int, window: int, calls: seq<Call>): (r: (map<string, Window>, seq<bool>))
    ensures |r.1| == |calls|
  {
    if calls == [] then (map[], [])
    else
      var (entries, answers) := Run(limit, window, calls[..|calls| - 1]);
      var (entries2, a) := Next(limit, window, entries, calls[|calls| - 1]);
      (entries2, answers + [a])
  }

  predicate Monotone(calls: seq<Call>) {
    forall i, j :: 0 <= i < j < |calls| ==> calls[i].now <= calls[j].now
  }

  /** Forgetting only what no longer matters: what is remembered agrees with `full`, and what is missing from
      it has a window that is over by `now`. */
  predicate Refines(window: int, entries: map<string, Window>, full: map<string, Window>, now: int) {
    && (forall k :: k in entries ==> k in full && full[k] == entries[k])
    && (forall k :: k in full && k !in entries ==> now - full[k].start >= window)
  }

  /** A limiter that forgets only finished windows answers like one that never forgets. */
  lemma SameAnswer(limit: int, window: int, entries: map<string, Window>, full: map<string, Window>, last: int, c: Call)
    requires Refines(window, entries, full, last) && last <= c.now
    ensures Next(limit, window, entries, c).1 == Next(limit, window, full, c).1
    ensures Refines(window, Next(limit, window, entries, c).0, Next(limit, window, full, c).0, c.now)
  {
  }

  class FixedWindowLimiter {
    const limit: int
    const window: int
    const gcInterval: int
    var entries: map<string, Window>
    var lastGC: int

    ghost var calls: seq<Call>    // the history so far
    ghost var last: int           // the latest reading of the clock

    /** The clock never ran backwards, and nothing that still matters was forgotten. */
    ghost predicate Valid()
      reads this
    {
      && limit >= 1 && window >= 1 && gcInterval == 5 * window
      && Monotone(calls) && (forall c :: c in calls ==> c.now <= last && c.key != "")
      && Refines(window, entries, Run(limit, window, calls).0, last)
    }

    constructor (limit: int, window: int, now: int)
      ensures Valid() && calls == [] && last == now
      ensures this.limit == (if limit <= 0 then 60 else limit)
      ensures this.window == (if window <= 0 then 60_000_000_000 else window)
    {
      var w := if window <= 0 then 60_000_000_000 else window;
      this.limit := if limit <= 0 then 60 else limit;
      this.window := w;
      this.gcInterval := 5 * w;
      this.entries := map[];
      this.lastGC, this.last := now, now;
      this.calls := [];
    }

    /** With a clock that does not run backwards the answer is the one a limiter without garbage collection
        gives after the same history. */
    method Allow(key: string, now: int) returns (ok: bool)
      requires Valid() && last <= now
      modifies this
      ensures Valid() && last == now
      ensures calls == old(calls) + [Call(if key == "" then "unknown" else key, now)]
      ensures ok == Run(limit, window, calls).1[|old(calls)|]
    {
      hide Run, Next, Refines;
      var k := if key == "" then "unknown" else key;
      ghost var c := Call(k, now);
      SameAnswer(limit, window, entries, Run(limit, window, calls).0, last, c);
      RunSnoc(limit, window, calls, c);
      ok := Admit(k, now);
      calls, last := calls + [c], now;
      CollectGarbage(now);
    }

    method Admit(k: string, now: int) returns (ok: bool)
      modifies this`entries
      ensures (entries, ok) == Next(limit, window, old(entries), Call(k, now))
    {
      if k !in entries || now - entries[k].start >= window {
        entries := entries[k := Window(now, 1)];
        return true;
      }
      if entries[k].count >= limit {
        return false;
      }
      entries := entries[k := Window(entries[k].start, entries[k].count + 1)];
      return true;
    }

    method CollectGarbage(now: int)
      requires Valid() && last == now
      modifies this`entries, this`lastGC
      ensures Valid()
      ensures forall k :: k in entries ==> k in old(entries) && entries[k] == old(entries)[k]
      ensures forall k :: k in old(entries) ==>
                (k !in entries <==> now - old(lastGC) >= gcInterval && now - old(entries)[k].start >= 2 * window)
      ensures lastGC == if now - old(lastGC) >= gcInterval then now else old(lastGC)
    {
      if now - lastGC < gcInterval {
        return;
      }
      var ttl := window * 2;
      ghost var full := Run(limit, window, calls).0;
      var keys := entries.Keys;
      while keys != {}
        invariant keys <= entries.Keys
        invariant forall k :: k in entries ==> k in old(entries) && entries[k] == old(entries)[k]
        invariant forall k :: k in old(entries) && k !in entries ==> now - old(entries)[k].start >= ttl
        invariant forall k :: k in old(entries) && k !in keys && now - old(entries)[k].start >= ttl ==> k !in entries
        decreases |keys|
      {
        var k :| k in keys;
        keys := keys - {k};
        if now - entries[k].start >= ttl {
          entries := entries - {k};
        }
      }
      lastGC := now;
    }
  }

  lemma RunSnoc(limit: int, window: int, calls: seq<Call>, c: Call)
    ensures var r, r2 := Run(limit, window, calls), Run(limit, window, calls + [c]);
            var n := Next(limit, window, r.0, c);
            r2.0 == n.0 && r2.1 == r.1 + [n.1]
  {
    assert (calls + [c])[..|calls|] == calls;
  }

  // ---------------------------------------------------------------- bursts

  /** When the calls of `key` that were allowed came, in order. */
  function AllowedTimes(limit: int, window: int, calls: seq<Call>, key: string): seq<int> {
    if calls == [] then []
    else
      var n := |calls| - 1;
      var times := AllowedTimes(limit, window, calls[..n], key);
      if calls[n].key == key && Run(limit, window, calls).1[n] then times + [calls[n].now] else times
  }

  predicate Sorted(ts: seq<int>) {
    forall i, j :: 0 <= i <= j < |ts| ==> ts[i] <= ts[j]
  }

  /** Of 2 * limit admissions in a row the first and the last are a window apart. */
  ghost predicate Spaced(limit: int, window: int, ts: seq<int>) {
    forall i, j :: 0 <= i <= j < |ts| && j == i + 2 * limit - 1 ==> ts[j] >= ts[i] + window
  }

  /** The open window of a key began with the admission `count` before the end, admitted no more than `limit`
      calls, and began a window after the admission `limit` before it. */
  predicate OpenWindow(limit: int, window: int, ts: seq<int>, w: Window) {
    && 1 <= w.count <= limit && w.count <= |ts|
    && var p := |ts| - w.count;
    && ts[p] == w.start
    && (p >= limit ==> ts[p - limit] + window <= ts[p])
  }

  lemma {:induction false} WindowsAdmitFew(limit: int, window: int, calls: seq<Call>, key: string)
    requires limit >= 1 && window >= 1 && Monotone(calls)
    ensures var ts, entries := AllowedTimes(limit, window, calls, key), Run(limit, window, calls).0;
            && Sorted(ts) && Spaced(limit, window, ts)
            && (forall i :: 0 <= i < |ts| ==> calls != [] && ts[i] <= calls[|calls| - 1].now)
            && (if key in entries then OpenWindow(limit, window, ts, entries[key]) else ts == [])
  {
    hide Next, OpenWindow, Spaced, Sorted, Run, AllowedTimes;
    if calls == [] {
      NoCalls(limit, window, key);
    } else {
      var n := |calls| - 1;
      var init, c := calls[..n], calls[n];
      WindowsAdmitFew(limit, window, init, key);
      assert calls == init + [c];
      OneMoreAllowed(limit, window, init, c, key);
      var entries := Run(limit, window, init).0;
      KeptWindow(limit, window, entries, c, key);
      if c.key == key && Next(limit, window, entries, c).1 {
        OneMoreAdmission(limit, window, AllowedTimes(limit, window, init, key), entries, c);
      }
    }
  }

  lemma OneMoreAllowed(limit: int, window: int, calls: seq<Call>, c: Call, key: string)
    ensures var next := Next(limit, window, Run(limit, window, calls).0, c);
            var ts := AllowedTimes(limit, window, calls, key);
            && Run(limit, window, calls + [c]).0 == next.0
            && AllowedTimes(limit, window, calls + [c], key) == if c.key == key && next.1 then ts + [c.now] else ts
  {
    hide Run, Next;
    RunSnoc(limit, window, calls, c);
    assert (calls + [c])[..|calls|] == calls;
  }

  lemma NoCalls(limit: int, window: int, key: string)
    ensures Sorted([]) && Spaced(limit, window, []) && Run(limit, window, []).0 == map[]
    ensures AllowedTimes(limit, window, [], key) == []
  {
  }

  lemma KeptWindow(limit: int, window: int, entries: map<string, Window>, c: Call, key: string)
    ensures var (entries2, ok) := Next(limit, window, entries, c);
            && (c.key == key && ok ==> key in entries2)
            && (c.key != key || !ok ==>
                  (key in entries <==> key in entries2) && (key in entries ==> entries2[key] == entries[key]))
  {
  }

  lemma OneMoreAdmission(limit: int, window: int, ts: seq<int>, entries: map<string, Window>, c: Call)
    requires limit >= 1 && window >= 1 && Sorted(ts) && Spaced(limit, window, ts)
    requires forall i :: 0 <= i < |ts| ==> ts[i] <= c.now
    requires if c.key in entries then OpenWindow(limit, window, ts, entries[c.key]) else ts == []
    requires Next(limit, window, entries, c).1
    ensures var ts2 := ts + [c.now];
            Sorted(ts2) && Spaced(limit, window, ts2)
            && OpenWindow(limit, window, ts2, Next(limit, window, entries, c).0[c.key])
  {
    if c.key in entries {
      var p := |ts| - entries[c.key].count;
      var i := |ts| - 2 * limit + 1;
      if c.now - ts[p] < window {
        assert (i >= 0 ==> ts[i] <= ts[p - limit] && ts[i] + window <= c.now);
      } else {
        assert i >= 0 ==> ts[i] <= ts[p];
        assert |ts| >= limit ==> ts[|ts| - limit] <= ts[p];
      }
    }
  }

  /** When windows of `key` opened: at the admitted calls after which the window has admitted just one. */
  function WindowStarts(limit: int, window: int, calls: seq<Call>, key: string): seq<int> {
    if calls == [] then []
    else
      var n := |calls| - 1;
      var starts, r := WindowStarts(limit, window, calls[..n], key), Run(limit, window, calls);
      if calls[n].key == key && r.1[n] && key in r.0 && r.0[key].count == 1 then starts + [calls[n].now] else starts
  }

  /** The windows opened so far are a window length apart, the last is the one still remembered, and all but
      it admitted at most `limit` calls each. */
  predicate Separate(limit: int, window: int, starts: seq<int>, admitted: nat, entries: map<string, Window>,
                     key: string)
  {
    if key in entries then
      var w := entries[key];
      && starts != [] && starts[|starts| - 1] == w.start && 1 <= w.count <= limit
      && admitted <= limit * (|starts| - 1) + w.count
      && forall i :: 0 <= i < |starts| - 1 ==> starts[i + 1] >= starts[i] + window
    else starts == [] && admitted == 0
  }

  lemma {:induction false} WindowsSeparate(limit: int, window: int, calls: seq<Call>, key: string)
    requires limit >= 1
    ensures Separate(limit, window, WindowStarts(limit, window, calls, key),
                     |AllowedTimes(limit, window, calls, key)|, Run(limit, window, calls).0, key)
  {
    hide Next, Separate;
    if calls == [] {
      NoWindow(limit, window, key);
    } else {
      var n := |calls| - 1;
      WindowsSeparate(limit, window, calls[..n], key);
      assert calls == calls[..n] + [calls[n]];
      RunSnoc(limit, window, calls[..n], calls[n]);
      OneMoreWindow(limit, window, WindowStarts(limit, window, calls[..n], key),
                    |AllowedTimes(limit, window, calls[..n], key)|, Run(limit, window, calls[..n]).0, calls[n], key);
    }
  }

  lemma NoWindow(limit: int, window: int, key: string)
    ensures Separate(limit, window, [], 0, map[], key)
  {
  }

  lemma OneMoreWindow(limit: int, window: int, starts: seq<int>, admitted: nat, entries: map<string, Window>, c: Call,
                      key: string)
    requires limit >= 1 && Separate(limit, window, starts, admitted, entries, key)
    ensures var (entries2, ok) := Next(limit, window, entries, c);
            var opens := c.key == key && ok && key in entries2 && entries2[key].count == 1;
            Separate(limit, window, if opens then starts + [c.now] else starts,
                     if c.key == key && ok then admitted + 1 else admitted, entries2, key)
  {
  }

  /** Successive windows of a key start at least a window length apart, and k of them admit at most k * limit
      calls. */
  lemma WindowsApart(limit: int, window: int, calls: seq<Call>, key: string)
    requires limit >= 1
    ensures var starts := WindowStarts(limit, window, calls, key);
            && (forall i :: 0 <= i < |starts| - 1 ==> starts[i + 1] >= starts[i] + window)
            && |AllowedTimes(limit, window, calls, key)| <= limit * |starts|
  {
    WindowsSeparate(limit, window, calls, key);
    var starts := WindowStarts(limit, window, calls, key);
    assert starts != [] ==> limit * |starts| == limit * (|starts| - 1) + limit;
  }

  /** How many of the times fall into [lo, hi). */
  function CountIn(ts: seq<int>, lo: int, hi: int): nat {
    if ts == [] then 0
    else CountIn(ts[..|ts| - 1], lo, hi) + (if lo <= ts[|ts| - 1] < hi then 1 else 0)
  }

  lemma {:induction false} CountInTail(ts: seq<int>, lo: int, hi: int, m: nat)
    requires m <= |ts| && forall i :: 0 <= i < m ==> ts[i] < lo
    ensures CountIn(ts, lo, hi) <= |ts| - m
  {
    if m < |ts| {
      CountInTail(ts[..|ts| - 1], lo, hi, m);
    } else if ts != [] {
      CountInTail(ts[..|ts| - 1], lo, hi, m - 1);
    }
  }

  lemma {:induction false} SpacedCount(limit: int, window: int, ts: seq<int>, lo: int)
    requires limit >= 1 && window >= 1 && Sorted(ts) && Spaced(limit, window, ts)
    ensures CountIn(ts, lo, lo + window) <= 2 * limit - 1
  {
    if ts != [] {
      var n := |ts| - 1;
      if lo <= ts[n] < lo + window {
        var m := if n >= 2 * limit - 1 then n - 2 * limit + 2 else 0;
        if m > 0 {
          assert ts[n] >= ts[m - 1] + window;
        }
        CountInTail(ts, lo, lo + window, m);
      } else {
        SpacedCount(limit, window, ts[..n], lo);
      }
    }
  }

  /** Burst bound: however the calls come, no half-open interval one window long sees more than
      2 * limit - 1 of a key's calls allowed. */
  lemma BurstBound(limit: int, window: int, calls: seq<Call>, key: string, lo: int)
    requires limit >= 1 && window >= 1 && Monotone(calls)
    ensures CountIn(AllowedTimes(limit, window, calls, key), lo, lo + window) <= 2 * limit - 1
  {
    WindowsAdmitFew(limit, window, calls, key);
    SpacedCount(limit, window, AllowedTimes(limit, window, calls, key), lo);
  }

  // ---------------------------------------------------------------- no call is refused without need

  lemma {:induction false} CountAtLeast(ts: seq<int>, lo: int, hi: int, m: nat)
    requires m <= |ts| && forall i :: m <= i < |ts| ==> lo <= ts[i] < hi
    ensures CountIn(ts, lo, hi) >= |ts| - m
  {
    if m < |ts| {
      CountAtLeast(ts[..|ts| - 1], lo, hi, m);
    }
  }

  /** A refused call comes when limit calls of the same key were admitted within the last window length. */
  lemma RefusedOnlyWhenFull(limit: int, window: int, calls: seq<Call>, c: Call)
    requires limit >= 1 && window >= 1 && Monotone(calls + [c])
    requires !Run(limit, window, calls + [c]).1[|calls|]
    ensures CountIn(AllowedTimes(limit, window, calls, c.key), c.now - window + 1, c.now + 1) >= limit
  {
    hide Run, AllowedTimes;
    assert calls == (calls + [c])[..|calls|] && Monotone(calls);
    WindowsAdmitFew(limit, window, calls, c.key);
    RunSnoc(limit, window, calls, c);
    var ts, w := AllowedTimes(limit, window, calls, c.key), Run(limit, window, calls).0[c.key];
    assert (calls + [c])[|calls|] == c && (calls != [] ==> (calls + [c])[|calls| - 1].now <= c.now);
    CountAtLeast(ts, c.now - window + 1, c.now + 1, |ts| - w.count);
  }

  /** The calls of one key. */
  function OfKey(calls: seq<Call>, key: string): seq<Call> {
    if calls == [] then []
    else
      var n := |calls| - 1;
      OfKey(calls[..n], key) + if calls[n].key == key then [calls[n]] else []
  }

  /** Keys do not interfere: a key's window and its admissions are those of its own calls alone. */
  lemma {:induction false} KeysIndependent(limit: int, window: int, calls: seq<Call>, key: string)
    ensures var all, own := Run(limit, window, calls).0, Run(limit, window, OfKey(calls, key)).0;
            && (key in all <==> key in own) && (key in all ==> all[key] == own[key])
            && AllowedTimes(limit, window, calls, key) == AllowedTimes(limit, window, OfKey(calls, key), key)
  {
    hide Run, AllowedTimes;
    if calls == [] {
      assert OfKey(calls, key) == [];
    } else {
      var n := |calls| - 1;
      var init, c := calls[..n], calls[n];
      KeysIndependent(limit, window, init, key);
      assert calls == init + [c];
      OneMoreAllowed(limit, window, init, c, key);
      KeptWindow(limit, window, Run(limit, window, init).0, c, key);
      if c.key == key {
        OneMoreAllowed(limit, window, OfKey(init, key), c, key);
      } else {
        assert OfKey(init, key) + [] == OfKey(init, key);
      }
    }
  }

  // ---------------------------------------------------------------- the bound is reached

  function Repeat(c: Call, n: nat): seq<Call> {
    if n == 0 then [] else Repeat(c, n - 1) + [c]
  }

  lemma {:induction false} RepeatedAdmission(limit: int, window: int, calls: seq<Call>, c: Call, n: nat, lo: int,
        hi: int)
    requires var entries := Run(limit, window, calls).0;
             c.key in entries && c.now - entries[c.key].start < window && entries[c.key].count + n <= limit
    requires lo <= c.now < hi
    ensures var w, calls2 := Run(limit, window, calls).0[c.key], calls + Repeat(c, n);
            && c.key in Run(limit, window, calls2).0
            && Run(limit, window, calls2).0[c.key] == Window(w.start, w.count + n)
            && CountIn(AllowedTimes(limit, window, calls2, c.key), lo, hi)
               == CountIn(AllowedTimes(limit, window, calls, c.key), lo, hi) + n
  {
    hide Run, AllowedTimes, CountIn;
    if n == 0 {
      assert calls + Repeat(c, 0) == calls;
    } else {
      RepeatedAdmission(limit, window, calls, c, n - 1, lo, hi);
      Admitted(limit, window, calls + Repeat(c, n - 1), c, lo, hi);
      assert calls + Repeat(c, n) == calls + Repeat(c, n - 1) + [c];
    }
  }

  lemma Admitted(limit: int, window: int, calls: seq<Call>, c: Call, lo: int, hi: int)
    requires Next(limit, window, Run(limit, window, calls).0, c).1
    ensures Run(limit, window, calls + [c]).0 == Next(limit, window, Run(limit, window, calls).0, c).0
    ensures CountIn(AllowedTimes(limit, window, calls + [c], c.key), lo, hi)
            == CountIn(AllowedTimes(limit, window, calls, c.key), lo, hi) + (if lo <= c.now < hi then 1 else 0)
  {
    hide Run, AllowedTimes;
    OneMoreAllowed(limit, window, calls, c, c.key);
    var ts := AllowedTimes(limit, window, calls, c.key);
    assert (ts + [c.now])[..|ts|] == ts;
  }

  /** One early call, limit - 1 at the very end of its window, limit at the start of the next. */
  function Burst(limit: nat, window: int): seq<Call>
    requires limit >= 1
  {
    [Call("k", 0)] + Repeat(Call("k", window - 1), limit - 1) + [Call("k", window)]
            + Repeat(Call("k", window), limit - 1)
  }

  lemma {:induction false} Repeated(c: Call, n: nat)
    ensures |Repeat(c, n)| == n && forall i :: 0 <= i < n ==> Repeat(c, n)[i] == c
  {
    if n > 0 {
      Repeated(c, n - 1);
    }
  }

  lemma BurstMonotone(limit: nat, window: int)
    requires limit >= 1 && window >= 1
    ensures Monotone(Burst(limit, window))
  {
    hide Repeat;
    Repeated(Call("k", window - 1), limit - 1);
    Repeated(Call("k", window), limit - 1);
    var calls := Burst(limit, window);
    assert forall i :: 0 <= i < |calls| ==>
      calls[i].now == if i == 0 then 0 else if i < limit then window - 1 else window;
  }

  /** The bound is exact for every limit and every window of at least two ticks. */
  lemma {:induction false} BurstBoundReached(limit: nat, window: int)
    requires limit >= 1 && window >= 2
    ensures Monotone(Burst(limit, window))
    ensures CountIn(AllowedTimes(limit, window, Burst(limit, window), "k"), window - 1, 2 * window - 1) == 2 * limit - 1
  {
    BurstMonotone(limit, window);
    var lo, hi := window - 1, 2 * window - 1;
    var c0, c1, c2 := Call("k", 0), Call("k", window - 1), Call("k", window);
    Admitted(limit, window, [], c0, lo, hi);
    assert [] + [c0] == [c0];
    RepeatedAdmission(limit, window, [c0], c1, limit - 1, lo, hi);
    var first := [c0] + Repeat(c1, limit - 1);
    Admitted(limit, window, first, c2, lo, hi);
    RepeatedAdmission(limit, window, first + [c2], c2, limit - 1, lo, hi);
  }
}
