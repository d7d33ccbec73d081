/**
 * Whole runs of the rate limiter. The expiring string store is shown to behave as exact
 * per-window counters, and the admissions of every run are bounded per aligned window and
 * per sliding interval.
 */
module RateLimitRuns {
  import opened Common
  import opened Decimal
  import opened RateLimit

  // ----- Keys

  predicate NoColon(s: string) {
    forall i :: 0 <= i < |s| ==> s[i] != ':'
  }

  lemma SplitAtFirstColon(a: string, x: string, b: string, y: string)
    requires NoColon(a) && NoColon(b)
    requires a + ":" + x == b + ":" + y
    ensures a == b && x == y
  {
    var s := a + ":" + x;
    assert s[|a|] == ':' && s[|b|] == ':';
    assert forall i :: 0 <= i < |a| ==> s[i] == a[i];
    assert forall i :: 0 <= i < |b| ==> s[i] == b[i];
    assert |a| == |b|;
    assert a == s[..|a|] && b == s[..|b|];
    assert x == s[|a| + 1..] && y == s[|b| + 1..];
  }

  lemma SplitAtLastColon(x: string, a: string, y: string, b: string)
    requires NoColon(a) && NoColon(b)
    requires x + ":" + a == y + ":" + b
    ensures x == y && a == b
  {
    var s := x + ":" + a;
    assert s[|x|] == ':' && s[|y|] == ':';
    assert forall i :: |x| < i < |s| ==> s[i] == a[i - |x| - 1];
    assert forall i :: |y| < i < |s| ==> s[i] == b[i - |y| - 1];
    assert |x| == |y|;
    assert x == s[..|x|] && y == s[..|y|];
    assert a == s[|x| + 1..] && b == s[|y| + 1..];
  }

  /** Distinct (kind, identifier, window) triples never share a key, even when identifiers contain colons. */
  lemma KeyInjective(k1: string, id1: string, w1: nat, k2: string, id2: string, w2: nat)
    requires NoColon(k1) && NoColon(k2)
    requires Key(k1, id1, w1) == Key(k2, id2, w2)
    ensures k1 == k2 && id1 == id2 && w1 == w2
  {
    var t1 := id1 + ":" + Print(w1);
    var t2 := id2 + ":" + Print(w2);
    assert Key(k1, id1, w1) == "rl:" + (k1 + ":" + t1);
    assert Key(k2, id2, w2) == "rl:" + (k2 + ":" + t2);
    assert Key(k1, id1, w1)[3..] == k1 + ":" + t1;
    assert Key(k2, id2, w2)[3..] == k2 + ":" + t2;
    SplitAtFirstColon(k1, t1, k2, t2);
    SplitAtLastColon(id1, Print(w1), id2, Print(w2));
    PrintInjective(w1, w2);
  }

  // ----- Arithmetic of windows

  lemma MulMono(a: nat, b: nat, c: nat)
    ensures a <= b ==> a * c <= b * c
  {
    if a <= b { assert (b - a) * c >= 0; }
  }

  lemma DivMono(a: nat, b: nat, size: nat)
    requires size > 0 && a <= b
    ensures a / size <= b / size
  {
    assert a == a / size * size + a % size && b == b / size * size + b % size;
    MulMono(b / size + 1, a / size, size);
    assert (b / size + 1) * size == b / size * size + size;
  }

  // ----- Runs

  datatype Call = Call(l: Limit, identifier: string, now: nat, putOk: bool)

  predicate WellFormed(l: Limit) {
    l.windowSecs > 0 && l.limit <= U32_MAX && NoColon(l.kind)
  }

  /** One limit per kind, and a clock that does not go back. */
  predicate ValidCalls(calls: seq<Call>) {
    && (forall i :: 0 <= i < |calls| ==> WellFormed(calls[i].l))
    && (forall i, j :: 0 <= i < |calls| && 0 <= j < |calls| && calls[i].l.kind == calls[j].l.kind
                       ==> calls[i].l == calls[j].l)
    && (forall i, j :: 0 <= i < j < |calls| ==> calls[i].now <= calls[j].now)
  }

  predicate Allows(calls: seq<Call>, l: Limit, now: nat) {
    && ValidCalls(calls)
    && WellFormed(l)
    && (forall i :: 0 <= i < |calls| && calls[i].l.kind == l.kind ==> calls[i].l == l)
    && (forall i :: 0 <= i < |calls| ==> calls[i].now <= now)
  }

  /** The store after the calls, starting empty; many limits and identifiers share it. */
  function StoreAfter(calls: seq<Call>): Store
    requires ValidCalls(calls)
  {
    if calls == [] then map[]
    else
      var c := calls[|calls| - 1];
      After(StoreAfter(calls[..|calls| - 1]), c.l, c.identifier, c.now, c.putOk)
  }

  /** The history of one limit and identifier after one more call. */
  function RecordedAfter(store: Store, ts: seq<nat>, l: Limit, identifier: string, c: Call): seq<nat>
    requires l.windowSecs > 0
  {
    if c.l == l && c.identifier == identifier && c.putOk && Admitted(store, l, identifier, c.now)
    then ts + [c.now]
    else ts
  }

  /** Times of the admissions that reached the store, for one limit and identifier. */
  function Recorded(calls: seq<Call>, l: Limit, identifier: string): seq<nat>
    requires ValidCalls(calls) && l.windowSecs > 0
  {
    if calls == [] then []
    else
      var before := calls[..|calls| - 1];
      RecordedAfter(StoreAfter(before), Recorded(before, l, identifier), l, identifier, calls[|calls| - 1])
  }

  // ----- Exact counters

  function InWindow(ts: seq<nat>, size: nat, w: nat): nat
    requires size > 0
  {
    if ts == [] then 0
    else InWindow(ts[..|ts| - 1], size, w) + (if ts[|ts| - 1] / size == w then 1 else 0)
  }

  function InInterval(ts: seq<nat>, lo: nat, hi: nat): nat {
    if ts == [] then 0
    else InInterval(ts[..|ts| - 1], lo, hi) + (if lo <= ts[|ts| - 1] < hi then 1 else 0)
  }

  /** The store holds, for every window, exactly the recorded count, and keeps it past the next window. */
  ghost predicate Mirrors(store: Store, ts: seq<nat>, l: Limit, identifier: string)
    requires l.windowSecs > 0
  {
    forall w: nat :: MirrorsWindow(store, InWindow(ts, l.windowSecs, w), l, Key(l.kind, identifier, w), w)
  }

  /** A time in window w or w + 1 lies before the end of window w + 1. */
  lemma WindowEnd(now: nat, size: nat, w: nat)
    requires size > 0 && now / size <= w + 1
    ensures now < (w + 2) * size
  {
    assert now == now / size * size + now % size;
    MulMono(now / size, w + 1, size);
    assert (w + 2) * size == (w + 1) * size + size;
  }

  lemma WindowStart(now: nat, size: nat)
    requires size > 0
    ensures (now / size + 2) * size <= now + size * 2
  {
    assert now == now / size * size + now % size;
    assert (now / size + 2) * size == now / size * size + 2 * size;
  }

  /** A live read returns the exact recorded count of its window. */
  lemma ReadIsExact(store: Store, ts: seq<nat>, l: Limit, identifier: string, w: nat, now: nat)
    requires WellFormed(l) && Mirrors(store, ts, l, identifier)
    requires now / l.windowSecs <= w + 1
    ensures CountAt(store, Key(l.kind, identifier, w), now) == InWindow(ts, l.windowSecs, w)
  {
    WindowEnd(now, l.windowSecs, w);
    assert MirrorsWindow(store, InWindow(ts, l.windowSecs, w), l, Key(l.kind, identifier, w), w);
    ParseOfPrint(InWindow(ts, l.windowSecs, w));
  }

  /** An admission by the integer condition leaves room for one more in the current window. */
  lemma RoomLeft(l: Limit, now: nat, current: nat, prev: nat)
    requires l.windowSecs > 0 && Admits(l, now, current, prev)
    ensures current + 1 <= l.limit
  {
    assert prev * (l.windowSecs - now % l.windowSecs) >= 0;
    assert current * l.windowSecs < l.limit * l.windowSecs;
  }

  lemma InWindowGrows(ts: seq<nat>, size: nat, t: nat)
    requires size > 0
    ensures forall w: nat :: InWindow(ts + [t], size, w) == InWindow(ts, size, w) + (if t / size == w then 1 else 0)
  {
    assert (ts + [t])[..|ts|] == ts;
  }

  /** What the mirror asks of one window. */
  predicate MirrorsWindow(store: Store, n: nat, l: Limit, key: string, w: nat) {
    && (key in store <==> n > 0)
    && (key in store ==> store[key].value == Print(n) && n <= l.limit && store[key].expiresAt >= (w + 2) * l.windowSecs)
  }

  /** A recorded admission of this limit and identifier moves the mirror to the extended history. */
  lemma MirrorOwnCall(store: Store, ts: seq<nat>, l: Limit, identifier: string, now: nat)
    requires WellFormed(l) && Mirrors(store, ts, l, identifier)
    requires Admitted(store, l, identifier, now)
    ensures Mirrors(After(store, l, identifier, now, true), ts + [now], l, identifier)
  {
    var size, at := l.windowSecs, now / l.windowSecs;
    var store' := After(store, l, identifier, now, true);
    InWindowGrows(ts, size, now);
    ReadIsExact(store, ts, l, identifier, at, now);
    RoomLeft(l, now, InWindow(ts, size, at), CountAt(store, Key(l.kind, identifier, PrevWindow(at)), now));
    WindowStart(now, size);
    forall w: nat
      ensures MirrorsWindow(store', InWindow(ts + [now], size, w), l, Key(l.kind, identifier, w), w)
    {
      assert MirrorsWindow(store, InWindow(ts, size, w), l, Key(l.kind, identifier, w), w);
      if Key(l.kind, identifier, w) == Key(l.kind, identifier, at) {
        KeyInjective(l.kind, identifier, w, l.kind, identifier, at);
      }
    }
  }

  /** A call for another kind or identifier leaves the mirror alone. */
  lemma MirrorOtherCall(store: Store, ts: seq<nat>, l: Limit, identifier: string, c: Call)
    requires WellFormed(l) && WellFormed(c.l) && Mirrors(store, ts, l, identifier)
    requires c.l.kind != l.kind || c.identifier != identifier
    ensures Mirrors(After(store, c.l, c.identifier, c.now, c.putOk), ts, l, identifier)
  {
    var store' := After(store, c.l, c.identifier, c.now, c.putOk);
    forall w: nat
      ensures MirrorsWindow(store', InWindow(ts, l.windowSecs, w), l, Key(l.kind, identifier, w), w)
    {
      assert MirrorsWindow(store, InWindow(ts, l.windowSecs, w), l, Key(l.kind, identifier, w), w);
      var written := Key(c.l.kind, c.identifier, c.now / c.l.windowSecs);
      if Key(l.kind, identifier, w) == written {
        KeyInjective(l.kind, identifier, w, c.l.kind, c.identifier, c.now / c.l.windowSecs);
      }
    }
  }

  /** The admission condition, read off the exact counters of the history so far. */
  predicate Justified(ts: seq<nat>, l: Limit) {
    ts != [] && l.windowSecs > 0 ==>
      var before, t := ts[..|ts| - 1], ts[|ts| - 1];
      && (forall i :: 0 <= i < |before| ==> before[i] <= t)
      && Admits(l, t, InWindow(before, l.windowSecs, t / l.windowSecs),
                InWindow(before, l.windowSecs, PrevWindow(t / l.windowSecs)))
  }

  predicate AllJustified(ts: seq<nat>, l: Limit) {
    ts == [] || (AllJustified(ts[..|ts| - 1], l) && Justified(ts, l))
  }

  lemma JustifiedGrows(store: Store, ts: seq<nat>, l: Limit, identifier: string, now: nat)
    requires WellFormed(l) && Mirrors(store, ts, l, identifier) && AllJustified(ts, l)
    requires Admitted(store, l, identifier, now) && UpTo(ts, now)
    ensures AllJustified(ts + [now], l)
  {
    var w := now / l.windowSecs;
    ReadIsExact(store, ts, l, identifier, w, now);
    ReadIsExact(store, ts, l, identifier, PrevWindow(w), now);
    assert (ts + [now])[..|ts|] == ts;
  }

  predicate UpTo(ts: seq<nat>, now: nat) {
    forall i :: 0 <= i < |ts| ==> ts[i] <= now
  }

  lemma OneCall(store: Store, ts: seq<nat>, l: Limit, identifier: string, c: Call)
    requires WellFormed(l) && WellFormed(c.l) && (c.l.kind == l.kind ==> c.l == l)
    requires Mirrors(store, ts, l, identifier) && AllJustified(ts, l) && UpTo(ts, c.now)
    ensures var ts' := RecordedAfter(store, ts, l, identifier, c);
            && Mirrors(After(store, c.l, c.identifier, c.now, c.putOk), ts', l, identifier)
            && AllJustified(ts', l) && UpTo(ts', c.now)
  {
    if c.l == l && c.identifier == identifier {
      if c.putOk && Admitted(store, l, identifier, c.now) {
        MirrorOwnCall(store, ts, l, identifier, c.now);
        JustifiedGrows(store, ts, l, identifier, c.now);
      }
    } else {
      MirrorOtherCall(store, ts, l, identifier, c);
    }
  }

  lemma AllowsPrefix(calls: seq<Call>, l: Limit, now: nat)
    requires Allows(calls, l, now) && calls != []
    ensures var c := calls[|calls| - 1];
            && Allows(calls[..|calls| - 1], l, c.now) && c.now <= now
            && WellFormed(c.l) && (c.l.kind == l.kind ==> c.l == l)
  {
  }

  lemma {:induction false} RunMirrors(calls: seq<Call>, l: Limit, identifier: string, now: nat)
    requires Allows(calls, l, now)
    ensures Mirrors(StoreAfter(calls), Recorded(calls, l, identifier), l, identifier)
    ensures AllJustified(Recorded(calls, l, identifier), l)
    ensures UpTo(Recorded(calls, l, identifier), now)
  {
    if calls != [] {
      var c, prefix := calls[|calls| - 1], calls[..|calls| - 1];
      AllowsPrefix(calls, l, now);
      RunMirrors(prefix, l, identifier, c.now);
      var store, ts := StoreAfter(prefix), Recorded(prefix, l, identifier);
      OneCall(store, ts, l, identifier, c);
    }
  }

  /**
   * The expiring string store refines exact counters: after any run, a read made as current or as
   * previous window returns the number of recorded admissions of that window, and so the next
   * decision is the one the exact counters give.
   */
  lemma {:induction false} StoreRefinesCounters(calls: seq<Call>, l: Limit, identifier: string, now: nat)
    requires Allows(calls, l, now)
    ensures var ts := Recorded(calls, l, identifier);
            var w := now / l.windowSecs;
            && CountAt(StoreAfter(calls), Key(l.kind, identifier, w), now) == InWindow(ts, l.windowSecs, w)
            && CountAt(StoreAfter(calls), Key(l.kind, identifier, PrevWindow(w)), now)
               == InWindow(ts, l.windowSecs, PrevWindow(w))
            && (Admitted(StoreAfter(calls), l, identifier, now)
                <==> Admits(l, now, InWindow(ts, l.windowSecs, w), InWindow(ts, l.windowSecs, PrevWindow(w))))
  {
    RunMirrors(calls, l, identifier, now);
    var w := now / l.windowSecs;
    ReadIsExact(StoreAfter(calls), Recorded(calls, l, identifier), l, identifier, w, now);
    ReadIsExact(StoreAfter(calls), Recorded(calls, l, identifier), l, identifier, PrevWindow(w), now);
  }

  // ----- Bounds

  lemma {:induction false} WindowBound(ts: seq<nat>, l: Limit, w: nat)
    requires l.windowSecs > 0 && AllJustified(ts, l)
    ensures InWindow(ts, l.windowSecs, w) <= l.limit
  {
    if ts != [] {
      var before, t := ts[..|ts| - 1], ts[|ts| - 1];
      WindowBound(before, l, w);
      if t / l.windowSecs == w {
        RoomLeft(l, t, InWindow(before, l.windowSecs, w), InWindow(before, l.windowSecs, PrevWindow(w)));
      }
    }
  }

  lemma QuotientRange(s: nat, t: nat, size: nat, a: nat, q: nat)
    requires a * size <= s && s < t + 1 && t < a * size + 2 * size && q * size <= t < q * size + size
    ensures a <= q <= a + 1
  {
    MulMono(a + 2, q, size);
    MulMono(q + 1, a, size);
    assert (a + 2) * size == a * size + 2 * size && (q + 1) * size == q * size + size;
  }

  /** A time within one window length of s is in the window of s, or in the next one at a smaller offset. */
  lemma IntervalWindows(t: nat, s: nat, size: nat)
    requires size > 0 && s <= t < s + size
    ensures t / size == s / size || (t / size == s / size + 1 && t % size < s % size)
  {
    var a, q := s / size, t / size;
    assert s == a * size + s % size && t == q * size + t % size;
    QuotientRange(s, t, size, a, q);
    assert (a + 1) * size == a * size + size;
  }

  lemma {:induction false} IntervalSplits(ts: seq<nat>, s: nat, size: nat)
    requires size > 0
    ensures InInterval(ts, s, s + size) <= InWindow(ts, size, s / size) + InWindow(ts, size, s / size + 1)
  {
    if ts != [] {
      IntervalSplits(ts[..|ts| - 1], s, size);
      var t := ts[|ts| - 1];
      if s <= t < s + size { IntervalWindows(t, s, size); }
    }
  }

  lemma {:induction false} NothingAfter(ts: seq<nat>, size: nat, w: nat, t: nat)
    requires size > 0 && t / size <= w
    requires forall i :: 0 <= i < |ts| ==> ts[i] <= t
    ensures InWindow(ts, size, w + 1) == 0
  {
    if ts != [] {
      NothingAfter(ts[..|ts| - 1], size, w, t);
      DivMono(ts[|ts| - 1], t, size);
    }
  }

  function CeilDiv(x: nat, y: nat): nat
    requires y > 0
  {
    (x + y - 1) / y
  }

  lemma CeilDivIs(x: nat, y: nat)
    requires y > 0
    ensures var c := CeilDiv(x, y); x <= c * y < x + y
  {
    assert x + y - 1 == (x + y - 1) / y * y + (x + y - 1) % y;
  }

  lemma LessThanMultiple(n: nat, m: nat, c: nat)
    requires n * c < m * c
    ensures n < m
  {
    MulMono(m, n, c);
  }

  /** How far the last second of the interval lies in the second of the two windows it meets. */
  function Reach(l: Limit, s: nat): nat
    requires l.windowSecs > 0
  {
    if s % l.windowSecs == 0 then 0 else s % l.windowSecs - 1
  }

  /** The most admissions that one window length from time s can hold. */
  function Most(l: Limit, s: nat): nat
    requires l.windowSecs > 0
  {
    l.limit + CeilDiv(l.limit * Reach(l, s), l.windowSecs)
  }

  /** The arithmetic of the sliding bound: current count, previous window and offset of the last admission. */
  lemma SlidingArithmetic(size: nat, limit: nat, current: nat, prev: nat, offset: nat, reach: nat, n: nat)
    requires size > 0 && offset <= reach && offset < size && prev <= limit
    requires current * size + prev * (size - offset) < limit * size
    requires n <= prev + current + 1
    ensures n * size < (limit + 1) * size + limit * reach
  {
    MulMono(n, prev + current + 1, size);
    assert (prev + current + 1) * size == prev * size + current * size + size;
    assert prev * (size - offset) == prev * size - prev * offset;
    MulMono(prev, limit, offset);
    MulMono(offset, reach, limit);
  }

  lemma AtMostMost(l: Limit, s: nat, n: nat)
    requires l.windowSecs > 0
    requires n * l.windowSecs < (l.limit + 1) * l.windowSecs + l.limit * Reach(l, s)
    ensures n <= Most(l, s)
  {
    var c := CeilDiv(l.limit * Reach(l, s), l.windowSecs);
    CeilDivIs(l.limit * Reach(l, s), l.windowSecs);
    assert (l.limit + 1 + c) * l.windowSecs == (l.limit + 1) * l.windowSecs + c * l.windowSecs;
    LessThanMultiple(n, l.limit + 1 + c, l.windowSecs);
  }

  /** Any interval of one window length that starts at time s holds at most `Most` admissions. */
  lemma {:induction false} SlidingBound(ts: seq<nat>, l: Limit, s: nat)
    requires l.windowSecs > 0 && AllJustified(ts, l)
    ensures InInterval(ts, s, s + l.windowSecs) <= Most(l, s)
  {
    var size, a := l.windowSecs, s / l.windowSecs;
    if ts != [] {
      var before, t := ts[..|ts| - 1], ts[|ts| - 1];
      SlidingBound(before, l, s);
      if s <= t < s + size {
        IntervalWindows(t, s, size);
        IntervalSplits(ts, s, size);
        WindowBound(ts, l, a);
        if t / size == a {
          NothingAfter(ts, size, a, t);
        } else {
          var n := InInterval(ts, s, s + size);
          SlidingArithmetic(size, l.limit, InWindow(before, size, a + 1), InWindow(before, size, a), t % size,
                            Reach(l, s), n);
          AtMostMost(l, s, n);
        }
      }
    }
  }

  lemma NeverMoreThanTwice(l: Limit, s: nat)
    requires l.windowSecs > 0
    ensures Most(l, s) <= 2 * l.limit
  {
    MulMono(Reach(l, s), l.windowSecs, l.limit);
    CeilDivIs(l.limit * Reach(l, s), l.windowSecs);
    assert (l.limit + 1) * l.windowSecs == l.limit * l.windowSecs + l.windowSecs;
    LessThanMultiple(CeilDiv(l.limit * Reach(l, s), l.windowSecs), l.limit + 1, l.windowSecs);
  }

  /**
   * For every run over a shared store, every limit and every identifier: each aligned window records at
   * most `limit` admissions, and each sliding interval at most `Most`, which is never more than 2 * limit.
   */
  lemma {:induction false} RunIsBounded(calls: seq<Call>, l: Limit, identifier: string, now: nat, s: nat)
    requires Allows(calls, l, now)
    ensures var ts := Recorded(calls, l, identifier);
            && InWindow(ts, l.windowSecs, s / l.windowSecs) <= l.limit
            && InInterval(ts, s, s + l.windowSecs) <= Most(l, s) <= 2 * l.limit
  {
    RunMirrors(calls, l, identifier, now);
    var ts := Recorded(calls, l, identifier);
    WindowBound(ts, l, s / l.windowSecs);
    SlidingBound(ts, l, s);
    NeverMoreThanTwice(l, s);
  }

  // ----- The bounds are about real runs, and each of them is attained

  function CallsAt(ts: seq<nat>, l: Limit, identifier: string): seq<Call> {
    seq(|ts|, i requires 0 <= i < |ts| => Call(l, identifier, ts[i], true))
  }

  lemma AllowsGrows(calls: seq<Call>, l: Limit, identifier: string, t: nat)
    requires Allows(calls, l, t)
    ensures Allows(calls + [Call(l, identifier, t, true)], l, t)
  {
  }

  lemma AllowsLater(calls: seq<Call>, l: Limit, t: nat, now: nat)
    requires Allows(calls, l, t) && t <= now
    ensures Allows(calls, l, now)
  {
  }

  lemma CallsAtGrow(ts: seq<nat>, t: nat, l: Limit, identifier: string)
    ensures CallsAt(ts + [t], l, identifier) == CallsAt(ts, l, identifier) + [Call(l, identifier, t, true)]
  {
  }

  /** A call that the exact counters justify extends the run and its history by one. */
  lemma RecordedGrows(calls: seq<Call>, l: Limit, identifier: string, ts: seq<nat>, t: nat)
    requires Allows(calls, l, t) && Allows(calls + [Call(l, identifier, t, true)], l, t)
    requires Recorded(calls, l, identifier) == ts && Justified(ts + [t], l)
    ensures Recorded(calls + [Call(l, identifier, t, true)], l, identifier) == ts + [t]
  {
    var more := calls + [Call(l, identifier, t, true)];
    assert more[..|more| - 1] == calls;
    assert (ts + [t])[..|ts|] == ts;
    StoreRefinesCounters(calls, l, identifier, t);
  }

  lemma JustifiedParts(ts: seq<nat>, l: Limit)
    requires l.windowSecs > 0 && ts != [] && AllJustified(ts, l)
    ensures var before, t := ts[..|ts| - 1], ts[|ts| - 1];
            ts == before + [t] && AllJustified(before, l) && Justified(before + [t], l) && UpTo(before, t)
  {
    assert ts == ts[..|ts| - 1] + [ts[|ts| - 1]];
  }

  /** Every justified history is the recorded history of a run: `AllJustified` describes exactly the runs. */
  lemma {:induction false} JustifiedIsRealized(ts: seq<nat>, l: Limit, identifier: string, now: nat)
    requires WellFormed(l) && AllJustified(ts, l) && UpTo(ts, now)
    ensures Allows(CallsAt(ts, l, identifier), l, now)
    ensures Recorded(CallsAt(ts, l, identifier), l, identifier) == ts
  {
    if ts != [] {
      var before, t := ts[..|ts| - 1], ts[|ts| - 1];
      JustifiedParts(ts, l);
      JustifiedIsRealized(before, l, identifier, t);
      var calls := CallsAt(before, l, identifier);
      AllowsGrows(calls, l, identifier, t);
      RecordedGrows(calls, l, identifier, before, t);
      CallsAtGrow(before, t, l, identifier);
      AllowsLater(calls + [Call(l, identifier, t, true)], l, t, now);
    }
  }

  lemma JustifiedNext(before: seq<nat>, l: Limit, t: nat, current: nat, prev: nat)
    requires l.windowSecs > 0 && Admits(l, t, current, prev)
    requires InWindow(before, l.windowSecs, t / l.windowSecs) == current
    requires InWindow(before, l.windowSecs, PrevWindow(t / l.windowSecs)) == prev
    requires forall i :: 0 <= i < |before| ==> before[i] <= t
    requires AllJustified(before, l)
    ensures AllJustified(before + [t], l)
  {
    assert (before + [t])[..|before|] == before;
  }

  lemma DivModOf(q: nat, r: nat, size: nat)
    requires r < size
    ensures (q * size + r) / size == q && (q * size + r) % size == r
  {
    var t := q * size + r;
    assert t == t / size * size + t % size;
    LessThanMultiple(q, t / size + 1, size) by { assert (t / size + 1) * size == t / size * size + size; }
    LessThanMultiple(t / size, q + 1, size) by { assert (q + 1) * size == q * size + size; }
  }

  /** The history followed by n admissions at time t. */
  function Burst(before: seq<nat>, t: nat, n: nat): seq<nat> {
    if n == 0 then before else Burst(before, t, n - 1) + [t]
  }

  lemma {:induction false} BurstInWindow(before: seq<nat>, t: nat, n: nat, size: nat, w: nat)
    requires size > 0
    ensures InWindow(Burst(before, t, n), size, w) == InWindow(before, size, w) + if t / size == w then n else 0
  {
    if n > 0 {
      var fewer := Burst(before, t, n - 1);
      BurstInWindow(before, t, n - 1, size, w);
      assert (fewer + [t])[..|fewer|] == fewer;
    }
  }

  lemma {:induction false} BurstInInterval(before: seq<nat>, t: nat, n: nat, lo: nat, hi: nat)
    ensures InInterval(Burst(before, t, n), lo, hi) == InInterval(before, lo, hi) + if lo <= t < hi then n else 0
  {
    if n > 0 {
      var fewer := Burst(before, t, n - 1);
      BurstInInterval(before, t, n - 1, lo, hi);
      assert (fewer + [t])[..|fewer|] == fewer;
    }
  }

  lemma {:induction false} BurstUpTo(before: seq<nat>, t: nat, n: nat)
    requires UpTo(before, t)
    ensures UpTo(Burst(before, t, n), t)
  {
    if n > 0 { BurstUpTo(before, t, n - 1); }
  }

  lemma AdmitsFewer(l: Limit, t: nat, current: nat, fewer: nat, prev: nat)
    requires l.windowSecs > 0 && fewer <= current && Admits(l, t, current, prev)
    ensures Admits(l, t, fewer, prev)
  {
    MulMono(fewer, current, l.windowSecs);
  }

  /** Into an empty window, any number of admissions pass that the last of them passes. */
  lemma {:induction false} BurstIsJustified(before: seq<nat>, l: Limit, t: nat, n: nat, last: nat, w: nat, prev: nat)
    requires l.windowSecs > 0 && AllJustified(before, l) && UpTo(before, t) && w > 0 && t / l.windowSecs == w
    requires InWindow(before, l.windowSecs, w) == 0 && InWindow(before, l.windowSecs, w - 1) == prev
    requires n <= last + 1 && Admits(l, t, last, prev)
    ensures AllJustified(Burst(before, t, n), l)
  {
    if n > 0 {
      BurstIsJustified(before, l, t, n - 1, last, w, prev);
      AdmitsFewer(l, t, last, n - 1, prev);
      BurstStep(before, l, t, n - 1, w, prev);
    }
  }

  lemma BurstStep(before: seq<nat>, l: Limit, t: nat, n: nat, w: nat, prev: nat)
    requires l.windowSecs > 0 && AllJustified(Burst(before, t, n), l) && UpTo(before, t)
    requires w > 0 && t / l.windowSecs == w
    requires InWindow(before, l.windowSecs, w) == 0 && InWindow(before, l.windowSecs, w - 1) == prev
    requires Admits(l, t, n, prev)
    ensures AllJustified(Burst(before, t, n) + [t], l)
  {
    BurstInWindow(before, t, n, l.windowSecs, w);
    BurstInWindow(before, t, n, l.windowSecs, w - 1);
    BurstUpTo(before, t, n);
    JustifiedNext(Burst(before, t, n), l, t, n, prev);
  }

  function EndOfWindow(l: Limit, s: nat): nat
    requires l.windowSecs > 0
  {
    s / l.windowSecs * l.windowSecs + (l.windowSecs - 1)
  }

  function EndOfInterval(l: Limit, s: nat): nat
    requires l.windowSecs > 0
  {
    (s / l.windowSecs + 1) * l.windowSecs + Reach(l, s)
  }

  /** The full limit in the last second of the window of s, then as many as fit in the last second of the interval. */
  function Peak(l: Limit, s: nat): seq<nat>
    requires l.windowSecs > 0
  {
    Burst(Burst([], EndOfWindow(l, s), l.limit), EndOfInterval(l, s), Most(l, s) - l.limit)
  }

  lemma PeakTimes(l: Limit, s: nat)
    requires l.windowSecs > 0
    ensures EndOfWindow(l, s) / l.windowSecs == s / l.windowSecs
    ensures EndOfInterval(l, s) / l.windowSecs == s / l.windowSecs + 1
            && EndOfInterval(l, s) % l.windowSecs == Reach(l, s)
    ensures s <= EndOfWindow(l, s) < s + l.windowSecs && EndOfWindow(l, s) <= EndOfInterval(l, s)
    ensures s % l.windowSecs > 0 ==> s <= EndOfInterval(l, s) < s + l.windowSecs
  {
    var a, size := s / l.windowSecs, l.windowSecs;
    DivModOf(a, size - 1, size);
    DivModOf(a + 1, Reach(l, s), size);
    assert s == a * size + s % size && (a + 1) * size == a * size + size;
  }

  lemma PassArithmetic(size: nat, limit: nat, reach: nat, c: nat)
    requires 0 < c && reach <= size && c * size < limit * reach + size
    ensures (c - 1) * size + limit * (size - reach) < limit * size
  {
    assert (c - 1) * size == c * size - size;
    assert limit * (size - reach) == limit * size - limit * reach;
  }

  /** The last admission of the second burst passes: the full previous window weighs in at `Reach`. */
  lemma LastPasses(l: Limit, s: nat)
    requires l.windowSecs > 0 && Most(l, s) > l.limit
    ensures Admits(l, EndOfInterval(l, s), Most(l, s) - l.limit - 1, l.limit)
  {
    PeakTimes(l, s);
    CeilDivIs(l.limit * Reach(l, s), l.windowSecs);
    PassArithmetic(l.windowSecs, l.limit, Reach(l, s), Most(l, s) - l.limit);
  }

  lemma FirstPasses(l: Limit, t: nat)
    requires l.windowSecs > 0 && l.limit > 0
    ensures Admits(l, t, l.limit - 1, 0)
  {
    assert (l.limit - 1) * l.windowSecs == l.limit * l.windowSecs - l.windowSecs;
  }

  lemma FirstBurst(l: Limit, s: nat)
    requires l.windowSecs > 0 && s >= l.windowSecs
    ensures s / l.windowSecs > 0
    ensures var first := Burst([], EndOfWindow(l, s), l.limit);
            && AllJustified(first, l) && UpTo(first, EndOfInterval(l, s))
            && InWindow(first, l.windowSecs, s / l.windowSecs) == l.limit
            && InWindow(first, l.windowSecs, s / l.windowSecs + 1) == 0
  {
    var t := EndOfWindow(l, s);
    PeakTimes(l, s);
    DivMono(l.windowSecs, s, l.windowSecs);
    if l.limit > 0 {
      FirstPasses(l, t);
      BurstIsJustified([], l, t, l.limit, l.limit - 1, s / l.windowSecs, 0);
    }
    BurstUpTo([], t, l.limit);
    BurstInWindow([], t, l.limit, l.windowSecs, s / l.windowSecs);
    BurstInWindow([], t, l.limit, l.windowSecs, s / l.windowSecs + 1);
  }

  lemma PeakIsJustified(l: Limit, s: nat)
    requires l.windowSecs > 0 && s >= l.windowSecs
    ensures AllJustified(Peak(l, s), l) && UpTo(Peak(l, s), EndOfInterval(l, s))
  {
    var first, t, n := Burst([], EndOfWindow(l, s), l.limit), EndOfInterval(l, s), Most(l, s) - l.limit;
    PeakTimes(l, s);
    FirstBurst(l, s);
    if n > 0 {
      LastPasses(l, s);
      BurstIsJustified(first, l, t, n, n - 1, s / l.windowSecs + 1, l.limit);
    }
    BurstUpTo(first, t, n);
  }

  lemma MostWhenAligned(l: Limit, s: nat)
    requires l.windowSecs > 0 && s % l.windowSecs == 0
    ensures Most(l, s) == l.limit
  {
    assert l.limit * Reach(l, s) == 0;
  }

  lemma PeakCounts(l: Limit, s: nat)
    requires l.windowSecs > 0
    ensures InInterval(Peak(l, s), s, s + l.windowSecs) == Most(l, s)
  {
    var first, hi := Burst([], EndOfWindow(l, s), l.limit), s + l.windowSecs;
    PeakTimes(l, s);
    BurstInInterval([], EndOfWindow(l, s), l.limit, s, hi);
    BurstInInterval(first, EndOfInterval(l, s), Most(l, s) - l.limit, s, hi);
    if s % l.windowSecs == 0 { MostWhenAligned(l, s); }
  }

  /**
   * For every limit, and every start from the second window on, a run in which the interval holds `Most` admissions.
   */
  lemma {:induction false} MaximumIsReached(l: Limit, identifier: string, s: nat)
    requires WellFormed(l) && s >= l.windowSecs
    ensures var calls := CallsAt(Peak(l, s), l, identifier);
            && Allows(calls, l, EndOfInterval(l, s))
            && InInterval(Recorded(calls, l, identifier), s, s + l.windowSecs) == Most(l, s)
  {
    PeakIsJustified(l, s);
    PeakCounts(l, s);
    JustifiedIsRealized(Peak(l, s), l, identifier, EndOfInterval(l, s));
  }

  /** A run of calls in which one window length from time s records n admissions. */
  ghost predicate Records(calls: seq<Call>, l: Limit, identifier: string, now: nat, s: nat, n: nat) {
    Allows(calls, l, now) && InInterval(Recorded(calls, l, identifier), s, s + l.windowSecs) == n
  }

  lemma PeakIsRecorded(l: Limit, identifier: string, s: nat) returns (calls: seq<Call>, now: nat)
    requires WellFormed(l) && s >= l.windowSecs
    ensures Records(calls, l, identifier, now, s, Most(l, s))
  {
    calls, now := CallsAt(Peak(l, s), l, identifier), EndOfInterval(l, s);
    MaximumIsReached(l, identifier, s);
  }

  lemma CeilDivIsAll(size: nat, limit: nat, reach: nat, c: nat)
    requires limit * reach <= c * size < limit * reach + size && c <= limit && reach <= size
    ensures c == limit <==> limit == 0 || limit * (size - reach) < size
  {
    assert limit * (size - reach) == limit * size - limit * reach;
    if c < limit {
      MulMono(c, limit - 1, size);
      assert (limit - 1) * size == limit * size - size;
    }
  }

  lemma MostIsTwiceIff(l: Limit, s: nat)
    requires l.windowSecs > 0
    ensures Most(l, s) == 2 * l.limit <==> l.limit == 0 || l.limit * (l.windowSecs - Reach(l, s)) < l.windowSecs
  {
    CeilDivIs(l.limit * Reach(l, s), l.windowSecs);
    NeverMoreThanTwice(l, s);
    CeilDivIsAll(l.windowSecs, l.limit, Reach(l, s), CeilDiv(l.limit * Reach(l, s), l.windowSecs));
  }

  lemma ReachIsShort(l: Limit, s: nat)
    requires l.windowSecs > 0 && l.limit > 0 && 2 * l.limit >= l.windowSecs
    ensures l.limit * (l.windowSecs - Reach(l, s)) >= l.windowSecs
  {
    if l.windowSecs >= 2 {
      MulMono(2, l.windowSecs - Reach(l, s), l.limit);
    }
  }

  lemma TwiceIsNotReached(calls: seq<Call>, l: Limit, identifier: string, now: nat, s: nat)
    requires WellFormed(l) && l.limit > 0 && 2 * l.limit >= l.windowSecs
    ensures !Records(calls, l, identifier, now, s, 2 * l.limit)
  {
    if Allows(calls, l, now) {
      RunIsBounded(calls, l, identifier, now, s);
      ReachIsShort(l, s);
      MostIsTwiceIff(l, s);
    }
  }

  lemma MostAtTheEnd(l: Limit)
    requires l.windowSecs > 0 && (l.limit == 0 || 2 * l.limit < l.windowSecs)
    ensures Most(l, l.windowSecs + (l.windowSecs - 1)) == 2 * l.limit
  {
    var size := l.windowSecs;
    DivModOf(1, size - 1, size);
    MostIsTwiceIff(l, size + (size - 1));
  }

  lemma TwiceIsReached(l: Limit, identifier: string) returns (calls: seq<Call>, now: nat, s: nat)
    requires WellFormed(l) && (l.limit == 0 || 2 * l.limit < l.windowSecs)
    ensures Records(calls, l, identifier, now, s, 2 * l.limit)
  {
    s := l.windowSecs + (l.windowSecs - 1);
    MostAtTheEnd(l);
    calls, now := PeakIsRecorded(l, identifier, s);
  }

  /**
   * One window length can hold twice the limit exactly when the limit is zero or less than half the window's seconds.
   */
  lemma {:induction false} TwiceTheLimitIff(l: Limit, identifier: string)
    requires WellFormed(l)
    ensures (exists calls, now, s :: Records(calls, l, identifier, now, s, 2 * l.limit))
            <==> l.limit == 0 || 2 * l.limit < l.windowSecs
  {
    if l.limit == 0 || 2 * l.limit < l.windowSecs {
      var calls, now, s := TwiceIsReached(l, identifier);
    } else {
      forall calls, now, s
        ensures !Records(calls, l, identifier, now, s, 2 * l.limit)
      {
        TwiceIsNotReached(calls, l, identifier, now, s);
      }
    }
  }

  /** The most that any window length can hold, over all runs. */
  ghost predicate IsMaximum(l: Limit, identifier: string, most: nat) {
    && (exists calls, now, s :: Records(calls, l, identifier, now, s, most))
    && (forall calls, now, s, n: nat :: Records(calls, l, identifier, now, s, n) ==> n <= most)
  }

  lemma MaximumIs(l: Limit, identifier: string, at: nat)
    requires WellFormed(l) && at >= l.windowSecs && forall s: nat :: Most(l, s) <= Most(l, at)
    ensures IsMaximum(l, identifier, Most(l, at))
  {
    forall calls, now, s, n: nat | Records(calls, l, identifier, now, s, n)
      ensures n <= Most(l, at)
    {
      RunIsBounded(calls, l, identifier, now, s);
    }
    var calls, now := PeakIsRecorded(l, identifier, at);
  }

  lemma ConfiguredMost(s: nat)
    ensures Most(LOGIN_LIMIT, s) <= Most(LOGIN_LIMIT, 119) == 394
    ensures Most(REGISTER_LIMIT, s) <= Most(REGISTER_LIMIT, 7199) == 1000
    ensures Most(EMAIL_SEND_LIMIT, s) <= Most(EMAIL_SEND_LIMIT, 7199) == 60
  {
  }

  /** What the configured limits mean: 394 logins in a minute, 1000 registrations and 60 mails in an hour. */
  lemma {:induction false} ConfiguredLimits(identifier: string)
    ensures IsMaximum(LOGIN_LIMIT, identifier, 394)
    ensures IsMaximum(REGISTER_LIMIT, identifier, 1000)
    ensures IsMaximum(EMAIL_SEND_LIMIT, identifier, 60)
  {
    forall s: nat
      ensures Most(LOGIN_LIMIT, s) <= Most(LOGIN_LIMIT, 119)
      ensures Most(REGISTER_LIMIT, s) <= Most(REGISTER_LIMIT, 7199)
      ensures Most(EMAIL_SEND_LIMIT, s) <= Most(EMAIL_SEND_LIMIT, 7199)
    {
      ConfiguredMost(s);
    }
    ConfiguredMost(0);
    MaximumIs(LOGIN_LIMIT, identifier, 119);
    MaximumIs(REGISTER_LIMIT, identifier, 7199);
    MaximumIs(EMAIL_SEND_LIMIT, identifier, 7199);
  }
}
