/**
 * The sliding-window rate limiter of the Workers port: two counters of an expiring key-value
 * store, the older one weighted by the part of it that the sliding window still covers.
 */
module RateLimit {
  import opened Common
  import opened Decimal

  datatype Limit = Limit(kind: string, windowSecs: nat, limit: nat)

  const LOGIN_LIMIT := Limit("login", 60, 200)
  const REGISTER_LIMIT := Limit("register", 3600, 500)
  const EMAIL_SEND_LIMIT := Limit("mail", 3600, 30)

  datatype Entry = Entry(value: string, expiresAt: nat)
  type Store = map<string, Entry>

  /** Workers KV: an entry is readable until its time to live has passed. */
  class KvStore {
    var entries: Store

    constructor ()
      ensures entries == map[]
    {
      entries := map[];
    }

    method GetText(key: string, now: nat) returns (r: Option<string>)
      ensures r == Lookup(entries, key, now)
    {
      if key in entries && now < entries[key].expiresAt {
        return Some(entries[key].value);
      }
      return None;
    }

    method Put(key: string, value: string, ttl: nat, now: nat)
      modifies this
      ensures entries == old(entries)[key := Entry(value, now + ttl)]
      ensures forall t: nat :: Lookup(entries, key, t) == if t < now + ttl then Some(value) else None
      ensures forall k, t: nat :: k != key ==> Lookup(entries, k, t) == Lookup(old(entries), k, t)
    {
      entries := entries[key := Entry(value, now + ttl)];
    }
  }

  function Lookup(store: Store, key: string, now: nat): Option<string> {
    if key in store && now < store[key].expiresAt then Some(store[key].value) else None
  }

  function CountAt(store: Store, key: string, now: nat): nat {
    match Lookup(store, key, now)
    case None => 0
    case Some(text) =>
      match ParseU64(text)
      case None => 0
      case Some(n) => n
  }

  function Key(kind: string, identifier: string, window: nat): string {
    "rl:" + kind + ":" + identifier + ":" + Print(window)
  }

  /** In window 0 the previous window is window 0 itself. */
  function PrevWindow(window: nat): nat {
    if window == 0 then 0 else window - 1
  }

  /** The exact form of `current + prev * (1 - elapsed) < limit`, both sides times the window length. */
  predicate Admits(l: Limit, now: nat, current: nat, prev: nat)
    requires l.windowSecs > 0
  {
    current * l.windowSecs + prev * (l.windowSecs - now % l.windowSecs) < l.limit * l.windowSecs
  }

  predicate Admitted(store: Store, l: Limit, identifier: string, now: nat)
    requires l.windowSecs > 0
  {
    var w := now / l.windowSecs;
    Admits(l, now,
           CountAt(store, Key(l.kind, identifier, w), now),
           CountAt(store, Key(l.kind, identifier, PrevWindow(w)), now))
  }

  function After(store: Store, l: Limit, identifier: string, now: nat, putOk: bool): Store
    requires l.windowSecs > 0
  {
    if Admitted(store, l, identifier, now) && putOk then
      var key := Key(l.kind, identifier, now / l.windowSecs);
      store[key := Entry(Print(CountAt(store, key, now) + 1), now + l.windowSecs * 2 + 5)]
    else store
  }

  method ReadCount(kv: KvStore, key: string, now: nat) returns (n: nat)
    ensures n == CountAt(kv.entries, key, now)
    ensures key !in kv.entries || kv.entries[key].expiresAt <= now || ParseU64(kv.entries[key].value).None? ==> n == 0
    ensures key in kv.entries && now < kv.entries[key].expiresAt && ParseU64(kv.entries[key].value).Some? ==>
              n == ParseU64(kv.entries[key].value).value
  {
    var text := kv.GetText(key, now);
    match text {
      case None => return 0;
      case Some(s) =>
        match ParseU64(s) {
          case None => return 0;
          case Some(v) => return v;
        }
    }
  }

  /** The estimate over the reals is below the limit just when the integer form `Admits` holds. */
  lemma EstimateIsExact(l: Limit, now: nat, current: nat, prev: nat)
    requires l.windowSecs > 0
    ensures var elapsed := (now % l.windowSecs) as real / l.windowSecs as real;
            current as real + prev as real * (1.0 - elapsed) < l.limit as real
            <==> Admits(l, now, current, prev)
  {
    var w, r := l.windowSecs as real, (now % l.windowSecs) as real;
    var c, p, m := current as real, prev as real, l.limit as real;
    var est := c + p * (1.0 - r / w);
    assert est * w == c * w + p * (w - r) by {
      assert (1.0 - r / w) * w == w - r;
      assert p * (1.0 - r / w) * w == p * (w - r);
    }
    assert (current * l.windowSecs) as real == c * w;
    assert (prev * (l.windowSecs - now % l.windowSecs)) as real == p * (w - r);
    assert (l.limit * l.windowSecs) as real == m * w;
    if est < m { assert est * w < m * w; }
    if est >= m { assert est * w >= m * w; }
  }

  method EstimateReachesLimit(l: Limit, now: nat, current: nat, prev: nat) returns (over: bool)
    requires l.windowSecs > 0
    ensures over <==> !Admits(l, now, current, prev)
  {
    var elapsed := (now % l.windowSecs) as real / l.windowSecs as real;
    var estimated := current as real + prev as real * (1.0 - elapsed);
    EstimateIsExact(l, now, current, prev);
    return estimated >= l.limit as real;
  }

  /** `putOk` is the outcome of the store write, whose failure the source ignores. */
  method Check(kv: KvStore, l: Limit, identifier: string, now: nat, putOk: bool) returns (admitted: bool)
    requires l.windowSecs > 0
    modifies kv
    ensures admitted == Admitted(old(kv.entries), l, identifier, now)
    ensures kv.entries == After(old(kv.entries), l, identifier, now, putOk)
    ensures var window := now / l.windowSecs;
            var prefix := "rl:" + l.kind + ":" + identifier + ":";
            var current := CountAt(old(kv.entries), prefix + Print(window), now);
            var prev := CountAt(old(kv.entries), prefix + Print(if window == 0 then 0 else window - 1), now);
            && (admitted <==>
                  current * l.windowSecs + prev * (l.windowSecs - now % l.windowSecs) < l.limit * l.windowSecs)
            && kv.entries == if admitted && putOk
                             then old(kv.entries)[prefix + Print(window) :=
                                                    Entry(Print(current + 1), now + l.windowSecs * 2 + 5)]
                             else old(kv.entries)
  {
    var currentWindow := now / l.windowSecs;
    var prevWindow := PrevWindow(currentWindow);
    var currentKey := Key(l.kind, identifier, currentWindow);
    var prevKey := Key(l.kind, identifier, prevWindow);
    var current := ReadCount(kv, currentKey, now);
    var prev := ReadCount(kv, prevKey, now);

    var over := EstimateReachesLimit(l, now, current, prev);
    if over {
      return false;
    }
    if putOk {
      kv.Put(currentKey, Print(current + 1), l.windowSecs * 2 + 5, now);
    }
    return true;
  }
}
