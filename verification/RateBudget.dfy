/** The fixed-window rate counter, and how much it lets through. */
module RateBudget {
  import opened Common

  datatype WindowType = Rate | Budget
  datatype Entry = Entry(count: nat, resetAt: nat)

  /** One call of assertRateLimit or assertRelayerBudget. */
  datatype Request = Request(key: string, window: WindowType, limit: nat, windowMs: nat, now: nat)

  function FullKey(key: string, window: WindowType): string {
    key + ":" + if window == Rate then "rate" else "budget"
  }

  /** Keys and window types do not share counters. */
  lemma FullKeyIsInjective(a: string, x: WindowType, b: string, y: WindowType)
    ensures FullKey(a, x) == FullKey(b, y) <==> a == b && x == y
  {
    var p, q := FullKey(a, x), FullKey(b, y);
    if p == q {
      assert p[|p| - 1] == if x == Rate then 'e' else 't';
      assert q[|q| - 1] == if y == Rate then 'e' else 't';
      assert a == p[..|a|] && b == q[..|b|];
    }
  }

  /** The entry a hit leaves under its own key, and returns. */
  function Next(entries: map<string, Entry>, key: string, windowMs: nat, now: nat): Entry {
    if key !in entries || now >= entries[key].resetAt then Entry(1, now + windowMs)
    else Entry(entries[key].count + 1, entries[key].resetAt)
  }

  function Step(entries: map<string, Entry>, r: Request): map<string, Entry> {
    var key := FullKey(r.key, r.window);
    entries[key := Next(entries, key, r.windowMs, r.now)]
  }

  function After(rs: seq<Request>): map<string, Entry> {
    if rs == [] then map[] else Step(After(rs[..|rs| - 1]), rs[|rs| - 1])
  }

  class Store {
    var entries: map<string, Entry>

    constructor ()
      ensures entries == map[]
    {
      entries := map[];
    }

    method HitLimit(key: string, window: WindowType, windowMs: nat, now: nat) returns (hit: Entry)
      modifies this
      ensures hit == Next(old(entries), FullKey(key, window), windowMs, now)
      ensures entries == old(entries)[FullKey(key, window) := hit]
    {
      var fullKey := FullKey(key, window);
      if fullKey !in entries || now >= entries[fullKey].resetAt {
        entries := entries[fullKey := Entry(1, now + windowMs)];
        return entries[fullKey];
      }
      var entry := entries[fullKey];
      entry := entry.(count := entry.count + 1);
      entries := entries[fullKey := entry];
      return entry;
    }

    /** The perimeter's check: over the limit is refused, and still counts as a hit. */
    method AssertLimit(r: Request, ghost before: seq<Request>) returns (accepted: bool)
      requires entries == After(before)
      modifies this
      ensures entries == After(before + [r])
      ensures accepted <==> Accepts(before, r)
    {
      assert (before + [r])[..|before|] == before;
      var hit := HitLimit(r.key, r.window, r.windowMs, r.now);
      return hit.count <= r.limit;
    }
  }

  // ----- a run of requests -----

  predicate Same(r: Request, key: string, window: WindowType) {
    r.key == key && r.window == window
  }

  /** The request is let through after the ones in `before`. */
  predicate Accepts(before: seq<Request>, r: Request) {
    Next(After(before), FullKey(r.key, r.window), r.windowMs, r.now).count <= r.limit
  }

  function ResetOf(before: seq<Request>, r: Request): nat {
    Next(After(before), FullKey(r.key, r.window), r.windowMs, r.now).resetAt
  }

  /** The clock does not run backwards, and the key's limit and window stay the same. */
  predicate Steady(rs: seq<Request>, key: string, window: WindowType, limit: nat, windowMs: nat) {
    && (forall i, j :: 0 <= i < j < |rs| ==> rs[i].now <= rs[j].now)
    && (forall i :: 0 <= i < |rs| && Same(rs[i], key, window) ==> rs[i].limit == limit && rs[i].windowMs == windowMs)
  }

  /** How many requests of the key are let through with a clock in `[from, until)`. */
  function AcceptedDuring(rs: seq<Request>, key: string, window: WindowType, from: nat, until: nat): nat {
    if rs == [] then 0 else
      var before, r := rs[..|rs| - 1], rs[|rs| - 1];
      AcceptedDuring(before, key, window, from, until)
      + if Same(r, key, window) && from <= r.now < until && Accepts(before, r) then 1 else 0
  }

  /** How many requests of the key fall, or are let through, in the window that ends at `resetAt`. */
  function HitsOfWindow(rs: seq<Request>, key: string, window: WindowType, resetAt: nat): nat {
    if rs == [] then 0 else
      var before, r := rs[..|rs| - 1], rs[|rs| - 1];
      HitsOfWindow(before, key, window, resetAt)
      + if Same(r, key, window) && ResetOf(before, r) == resetAt then 1 else 0
  }

  function AcceptedOfWindow(rs: seq<Request>, key: string, window: WindowType, resetAt: nat): nat {
    if rs == [] then 0 else
      var before, r := rs[..|rs| - 1], rs[|rs| - 1];
      AcceptedOfWindow(before, key, window, resetAt)
      + if Same(r, key, window) && ResetOf(before, r) == resetAt && Accepts(before, r) then 1 else 0
  }

  function Min(a: nat, b: nat): nat { if a < b then a else b }

  /** A request under one key or type leaves every other counter alone. */
  lemma OthersAreUntouched(rs: seq<Request>, r: Request, key: string, window: WindowType)
    requires !Same(r, key, window)
    ensures var k := FullKey(key, window);
            (k in After(rs + [r]) <==> k in After(rs)) && (k in After(rs) ==> After(rs + [r])[k] == After(rs)[k])
  {
    FullKeyIsInjective(r.key, r.window, key, window);
    assert (rs + [r])[..|rs|] == rs;
  }

  /** Where the counter of a key stands, and that its window was opened by one of the requests. */
  lemma {:induction false} CounterStands(rs: seq<Request>, key: string, window: WindowType, limit: nat, windowMs: nat)
    requires Steady(rs, key, window, limit, windowMs)
    ensures var k := FullKey(key, window);
            k in After(rs) ==> After(rs)[k].count >= 1 && windowMs <= After(rs)[k].resetAt
                               && rs != [] && After(rs)[k].resetAt - windowMs <= rs[|rs| - 1].now
    decreases |rs|
  {
    hide FullKey, Steady;
    if rs != [] {
      var before, r := rs[..|rs| - 1], rs[|rs| - 1];
      assert rs == before + [r];
      SteadyBefore(rs, key, window, limit, windowMs);
      CounterStands(before, key, window, limit, windowMs);
      if !Same(r, key, window) { OthersAreUntouched(before, r, key, window); }
    }
  }

  /** In one window, as many hits are let through as the limit allows: every one until it is used up, then none. */
  lemma {:induction false} WindowAcceptsTheFirst(rs: seq<Request>, key: string, window: WindowType, limit: nat,
                                                 windowMs: nat, resetAt: nat)
    requires Steady(rs, key, window, limit, windowMs) && windowMs > 0
    ensures AcceptedOfWindow(rs, key, window, resetAt) == Min(HitsOfWindow(rs, key, window, resetAt), limit)
    ensures var k := FullKey(key, window);
            if k in After(rs) && After(rs)[k].resetAt == resetAt
              then HitsOfWindow(rs, key, window, resetAt) == After(rs)[k].count
            else if k !in After(rs) || After(rs)[k].resetAt < resetAt then HitsOfWindow(rs, key, window, resetAt) == 0
            else true
    decreases |rs|
  {
    hide FullKey, Steady;
    if rs != [] {
      var before, r := rs[..|rs| - 1], rs[|rs| - 1];
      assert rs == before + [r];
      SteadyBefore(rs, key, window, limit, windowMs);
      WindowAcceptsTheFirst(before, key, window, limit, windowMs, resetAt);
      if !Same(r, key, window) { OthersAreUntouched(before, r, key, window); }
    }
  }

  /** How far the count for `[from, from + windowMs)` can have got, by where the current window lies. */
  function Reach(e: Option<Entry>, limit: nat, windowMs: nat, from: nat): nat {
    if e.None? || e.value.resetAt <= from then 0
    else if e.value.resetAt < from + windowMs then if Min(e.value.count, limit) >= 1 then Min(e.value.count, limit) - 1
      else 0
    else if e.value.resetAt == from + windowMs then Min(e.value.count, limit)
    else if e.value.resetAt < from + 2 * windowMs then (if limit >= 1 then limit - 1 else 0) + Min(e.value.count, limit)
    else if limit >= 1 then 2 * limit - 1 else 0
  }

  function EntryOf(rs: seq<Request>, key: string, window: WindowType): Option<Entry> {
    if FullKey(key, window) in After(rs) then Some(After(rs)[FullKey(key, window)]) else None
  }

  /** One more hit of the key moves the reach by at least what it adds. */
  lemma ReachGrows(e: Option<Entry>, limit: nat, windowMs: nat, from: nat, now: nat)
    requires e.Some? ==> e.value.count >= 1 && windowMs <= e.value.resetAt && e.value.resetAt - windowMs <= now
    ensures var next := if e.None? || now >= e.value.resetAt
              then Entry(1, now + windowMs) else Entry(e.value.count + 1, e.value.resetAt);
            Reach(e, limit, windowMs, from) + (if from <= now < from + windowMs && next.count <= limit then 1 else 0)
            <= Reach(Some(next), limit, windowMs, from)
  {}

  lemma HitMovesItsEntry(before: seq<Request>, r: Request, key: string, window: WindowType)
    ensures EntryOf(before + [r], key, window)
            == if Same(r, key, window) then Some(Next(After(before), FullKey(key, window), r.windowMs, r.now))
              else EntryOf(before, key, window)
  {
    hide FullKey;
    assert (before + [r])[..|before|] == before;
    if !Same(r, key, window) { OthersAreUntouched(before, r, key, window); }
  }

  lemma SteadyBefore(rs: seq<Request>, key: string, window: WindowType, limit: nat, windowMs: nat)
    requires rs != [] && Steady(rs, key, window, limit, windowMs)
    ensures Steady(rs[..|rs| - 1], key, window, limit, windowMs)
    ensures forall i :: 0 <= i < |rs| ==> rs[i].now <= rs[|rs| - 1].now
    ensures Same(rs[|rs| - 1], key, window) ==> rs[|rs| - 1].limit == limit && rs[|rs| - 1].windowMs == windowMs
  {}

  lemma {:induction false} DuringIsWithinReach(rs: seq<Request>, key: string, window: WindowType, limit: nat,
                                               windowMs: nat, from: nat)
    requires Steady(rs, key, window, limit, windowMs)
    ensures AcceptedDuring(rs, key, window, from, from + windowMs) <= Reach(EntryOf(rs, key, window), limit,
        windowMs, from)
    decreases |rs|
  {
    hide FullKey, Reach, Steady, After;
    if rs == [] {
      NothingReached(key, window, limit, windowMs, from);
    } else {
      var before, r := rs[..|rs| - 1], rs[|rs| - 1];
      assert rs == before + [r];
      SteadyBefore(rs, key, window, limit, windowMs);
      DuringIsWithinReach(before, key, window, limit, windowMs, from);
      HitMovesItsEntry(before, r, key, window);
      if Same(r, key, window) {
        CounterStands(before, key, window, limit, windowMs);
        ReachGrows(EntryOf(before, key, window), limit, windowMs, from, r.now);
      }
    }
  }

  lemma NothingReached(key: string, window: WindowType, limit: nat, windowMs: nat, from: nat)
    ensures Reach(EntryOf([], key, window), limit, windowMs, from) == 0
  {}

  /**
   * In any stretch of time as long as the window, fewer than twice the limit get through, whatever other
   * keys and window types are doing; and none when the limit is 0.
   */
  lemma FewerThanTwiceTheLimit(rs: seq<Request>, key: string, window: WindowType, limit: nat, windowMs: nat, from: nat)
    requires Steady(rs, key, window, limit, windowMs)
    ensures AcceptedDuring(rs, key, window, from, from + windowMs) <= if limit == 0 then 0 else 2 * limit - 1
  {
    DuringIsWithinReach(rs, key, window, limit, windowMs, from);
  }

  // ----- when the limit holds in every stretch -----

  function Repeat(r: Request, n: nat): (rs: seq<Request>)
    ensures |rs| == n && forall i :: 0 <= i < n ==> rs[i] == r
  {
    if n == 0 then [] else Repeat(r, n - 1) + [r]
  }

  /** The run goes on with requests of the key at `now`, `limit` and `windowMs` as before. */
  lemma SteadyGoesOn(rs: seq<Request>, r: Request, n: nat, key: string, window: WindowType, limit: nat, windowMs: nat)
    requires Steady(rs, key, window, limit, windowMs) && r == Request(key, window, limit, windowMs, r.now)
    requires rs != [] ==> rs[|rs| - 1].now <= r.now
    ensures Steady(rs + Repeat(r, n), key, window, limit, windowMs)
    ensures n > 0 ==> (rs + Repeat(r, n))[|rs| + n - 1].now == r.now
  {}

  /** One hit, from the counter's side. */
  lemma OneHit(rs: seq<Request>, r: Request, from: nat, until: nat)
    ensures var next := Next(After(rs), FullKey(r.key, r.window), r.windowMs, r.now);
            && EntryOf(rs + [r], r.key, r.window) == Some(next)
            && AcceptedDuring(rs + [r], r.key, r.window, from, until)
               == AcceptedDuring(rs, r.key, r.window, from, until)
                  + if from <= r.now < until && next.count <= r.limit then 1 else 0
  {
    hide FullKey;
    HitMovesItsEntry(rs, r, r.key, r.window);
    assert (rs + [r])[..|rs|] == rs;
  }

  /** A burst inside the current window, within the limit: every hit gets through. */
  lemma {:induction false} Burst(rs: seq<Request>, r: Request, n: nat, e: Entry, from: nat, until: nat)
    requires EntryOf(rs, r.key, r.window) == Some(e) && r.now < e.resetAt && e.count + n <= r.limit
    ensures EntryOf(rs + Repeat(r, n), r.key, r.window) == Some(Entry(e.count + n, e.resetAt))
    ensures AcceptedDuring(rs + Repeat(r, n), r.key, r.window, from, until)
            == AcceptedDuring(rs, r.key, r.window, from, until) + if from <= r.now < until then n else 0
    decreases n
  {
    hide FullKey, After, AcceptedDuring;
    if n == 0 {
      assert rs + Repeat(r, n) == rs;
    } else {
      Burst(rs, r, n - 1, e, from, until);
      OneHit(rs + Repeat(r, n - 1), r, from, until);
      assert rs + Repeat(r, n) == rs + Repeat(r, n - 1) + [r];
    }
  }

  /** One hit at 0, the rest of the limit at 1, and the whole limit again as soon as the window resets. */
  function TwoBursts(key: string, window: WindowType, limit: nat, windowMs: nat): seq<Request>
    requires limit >= 1
  {
    var first, rest, again := Request(key, window, limit, windowMs, 0), Request(key, window, limit, windowMs, 1),
                              Request(key, window, limit, windowMs, windowMs);
    [first] + Repeat(rest, limit - 1) + [again] + Repeat(again, limit - 1)
  }

  lemma TwoBurstsAreSteady(key: string, window: WindowType, limit: nat, windowMs: nat)
    requires limit >= 1 && windowMs >= 2
    ensures Steady(TwoBursts(key, window, limit, windowMs), key, window, limit, windowMs)
  {
    hide Steady;
    var first, rest, again := Request(key, window, limit, windowMs, 0), Request(key, window, limit, windowMs, 1),
                              Request(key, window, limit, windowMs, windowMs);
    BeforeAll(key, window, limit, windowMs);
    SteadyGoesOn([], first, 1, key, window, limit, windowMs);
    var a := [] + Repeat(first, 1);
    SteadyGoesOn(a, rest, limit - 1, key, window, limit, windowMs);
    var b := a + Repeat(rest, limit - 1);
    SteadyGoesOn(b, again, 1, key, window, limit, windowMs);
    var c := b + Repeat(again, 1);
    SteadyGoesOn(c, again, limit - 1, key, window, limit, windowMs);
    assert a == [first] && Repeat(again, 1) == [again];
    assert TwoBursts(key, window, limit, windowMs) == c + Repeat(again, limit - 1);
  }

  /** The bound is met under every limit and every window of two ticks or more. */
  lemma TheBoundIsMet(key: string, window: WindowType, limit: nat, windowMs: nat)
    requires limit >= 1 && windowMs >= 2
    ensures Steady(TwoBursts(key, window, limit, windowMs), key, window, limit, windowMs)
    ensures AcceptedDuring(TwoBursts(key, window, limit, windowMs), key, window, 1, 1 + windowMs) == 2 * limit - 1
  {
    hide FullKey, After, AcceptedDuring, Steady, Repeat, EntryOf;
    var first, rest, again := Request(key, window, limit, windowMs, 0), Request(key, window, limit, windowMs, 1),
                              Request(key, window, limit, windowMs, windowMs);
    TwoBurstsAreSteady(key, window, limit, windowMs);
    var start := [] + [first];
    var full := start + Repeat(rest, limit - 1);
    var reset := full + [again];
    BeforeAll(key, window, limit, windowMs);
    OneHit([], first, 1, 1 + windowMs);
    Burst(start, rest, limit - 1, Entry(1, windowMs), 1, 1 + windowMs);
    OneHit(full, again, 1, 1 + windowMs);
    Reopens(full, again, Entry(limit, windowMs));
    Burst(reset, again, limit - 1, Entry(1, 2 * windowMs), 1, 1 + windowMs);
    assert start == [first];
  }

  lemma BeforeAll(key: string, window: WindowType, limit: nat, windowMs: nat)
    ensures Steady([], key, window, limit, windowMs) && EntryOf([], key, window).None?
    ensures forall from, until :: AcceptedDuring([], key, window, from, until) == 0
    ensures Next(After([]), FullKey(key, window), windowMs, 0) == Entry(1, windowMs)
  {}

  lemma Reopens(rs: seq<Request>, r: Request, e: Entry)
    requires EntryOf(rs, r.key, r.window) == Some(e) && r.now >= e.resetAt
    ensures Next(After(rs), FullKey(r.key, r.window), r.windowMs, r.now) == Entry(1, r.now + r.windowMs)
  {}

  lemma {:induction false} NoTimeNoHits(rs: seq<Request>, key: string, window: WindowType, from: nat)
    ensures AcceptedDuring(rs, key, window, from, from) == 0
    decreases |rs|
  {
    if rs != [] { NoTimeNoHits(rs[..|rs| - 1], key, window, from); }
  }

  /** With a window of one tick, what passes in a tick passes in the window that ends with it. */
  lemma {:induction false} OneTickIsOneWindow(rs: seq<Request>, key: string, window: WindowType, limit: nat, from: nat)
    requires Steady(rs, key, window, limit, 1)
    ensures AcceptedDuring(rs, key, window, from, from + 1) <= AcceptedOfWindow(rs, key, window, from + 1)
    decreases |rs|
  {
    hide FullKey, Steady;
    if rs != [] {
      var before := rs[..|rs| - 1];
      SteadyBefore(rs, key, window, limit, 1);
      CounterStands(before, key, window, limit, 1);
      OneTickIsOneWindow(before, key, window, limit, from);
    }
  }

  /** More than the limit gets through in the stretch as long as the window that starts at `from`. */
  predicate Overruns(rs: seq<Request>, key: string, window: WindowType, limit: nat, windowMs: nat, from: nat) {
    AcceptedDuring(rs, key, window, from, from + windowMs) > limit
  }

  /**
   * In every steady run every stretch as long as the window keeps to the limit, exactly when the limit
   * is at most one or the window at most one tick.
   */
  lemma LimitHoldsInEveryStretchExactlyWhen(key: string, window: WindowType, limit: nat, windowMs: nat)
    ensures (forall rs, from: nat :: Steady(rs, key, window, limit, windowMs) ==>
             !Overruns(rs, key, window, limit, windowMs, from))
            <==> limit <= 1 || windowMs <= 1
  {
    hide Steady, AcceptedDuring;
    if limit <= 1 || windowMs <= 1 {
      forall rs, from: nat | Steady(rs, key, window, limit, windowMs)
        ensures !Overruns(rs, key, window, limit, windowMs, from)
      {
        if limit <= 1 {
          FewerThanTwiceTheLimit(rs, key, window, limit, windowMs, from);
        } else if windowMs == 0 {
          NoTimeNoHits(rs, key, window, from);
        } else {
          OneTickIsOneWindow(rs, key, window, limit, from);
          WindowAcceptsTheFirst(rs, key, window, limit, windowMs, from + 1);
        }
      }
    } else {
      TheBoundIsMet(key, window, limit, windowMs);
      assert Overruns(TwoBursts(key, window, limit, windowMs), key, window, limit, windowMs, 1);
    }
  }
}
