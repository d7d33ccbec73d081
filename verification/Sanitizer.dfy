/**
 * The mail template sanitiser: every string of a JSON tree loses each leftmost match of the
 * pattern `<[^>]+>`. The tree is owned by the caller, so overwriting in place is replacing a value.
 */
module Sanitizer {
  import opened Common

  datatype Json =
    | Null
    | Bool(b: bool)
    | Number(n: int)
    | String(s: string)
    | Array(items: seq<Json>)
    | Object(fields: seq<(string, Json)>)

  // ----- The pattern

  /** The strings that `<[^>]+>` matches. */
  predicate IsTag(s: string) {
    && |s| >= 3
    && s[0] == '<'
    && s[|s| - 1] == '>'
    && forall k :: 1 <= k < |s| - 1 ==> s[k] != '>'
  }

  /** An opening bracket, at least one other character and the first closing bracket after it. */
  lemma TagIs(s: string)
    ensures IsTag(s) <==> exists inner :: inner != "" && '>' !in inner && s == "<" + inner + ">"
  {
    if IsTag(s) {
      var inner := s[1..|s| - 1];
      assert forall k :: 0 <= k < |inner| ==> inner[k] == s[k + 1];
      assert s == "<" + inner + ">";
    }
    if inner :| inner != "" && '>' !in inner && s == "<" + inner + ">" {
      assert forall k :: 1 <= k < |s| - 1 ==> s[k] == inner[k - 1];
    }
  }

  predicate HasTag(s: string) {
    exists i, j :: 0 <= i <= j <= |s| && IsTag(s[i..j])
  }

  function FirstGt(s: string, from: nat): (r: Option<nat>)
    requires from <= |s|
    ensures r.None? ==> forall k :: from <= k < |s| ==> s[k] != '>'
    ensures r.Some? ==> from <= r.value < |s| && s[r.value] == '>'
    ensures r.Some? ==> forall k :: from <= k < r.value ==> s[k] != '>'
    decreases |s| - from
  {
    if from == |s| then None else if s[from] == '>' then Some(from) else FirstGt(s, from + 1)
  }

  /** The length of the match that starts at the front of s, if there is one. */
  function MatchAtFront(s: string): (r: Option<nat>)
    ensures r.Some? ==> 3 <= r.value <= |s| && IsTag(s[..r.value])
    ensures forall n :: 0 <= n <= |s| && IsTag(s[..n]) ==> r == Some(n)
  {
    if |s| >= 2 && s[0] == '<' && s[1] != '>' then
      match FirstGt(s, 2)
      case None => None
      case Some(k) => Some(k + 1)
    else None
  }

  /** `replace_all` with the empty string. */
  function Strip(s: string): string
    decreases |s|
  {
    if s == [] then []
    else
      match MatchAtFront(s)
      case Some(n) => Strip(s[n..])
      case None => [s[0]] + Strip(s[1..])
  }

  // ----- What stripping means

  /** No match starts before position i. */
  predicate NoTagBefore(s: string, i: nat) {
    forall a, b :: 0 <= a < i && a <= b <= |s| ==> !IsTag(s[a..b])
  }

  lemma SliceOfTail(s: string, a: nat, b: nat)
    requires s != [] && a <= b < |s|
    ensures s[1..][a..b] == s[a + 1..b + 1]
  {
  }

  lemma NoTagBeforeTail(s: string, i: nat)
    requires s != [] && NoTagBefore(s, i + 1)
    ensures NoTagBefore(s[1..], i)
  {
    forall a, b | 0 <= a < i && a <= b <= |s[1..]|
      ensures !IsTag(s[1..][a..b])
    {
      SliceOfTail(s, a, b);
    }
  }

  lemma NoTagMeansNoneBefore(s: string)
    ensures !HasTag(s) <==> NoTagBefore(s, |s| + 1)
  {
    if NoTagBefore(s, |s| + 1) {
      forall i, j | 0 <= i <= j <= |s| ensures !IsTag(s[i..j]) { }
    }
  }

  lemma FrontMatchIsTag(s: string)
    ensures MatchAtFront(s).Some? ==> IsTag(s[0..MatchAtFront(s).value])
  {
    if MatchAtFront(s).Some? {
      assert s[0..MatchAtFront(s).value] == s[..MatchAtFront(s).value];
    }
  }

  lemma FrontIsNoMatch(s: string, i: nat)
    requires i >= 1 && NoTagBefore(s, i)
    ensures MatchAtFront(s).None?
  {
    FrontMatchIsTag(s);
  }

  lemma {:induction false} StripKeeps(s: string)
    requires NoTagBefore(s, |s| + 1)
    ensures Strip(s) == s
    decreases |s|
  {
    if s != [] {
      FrontIsNoMatch(s, |s| + 1);
      NoTagBeforeTail(s, |s|);
      StripKeeps(s[1..]);
    }
  }

  /** A string without a match is left as it is. */
  lemma StripKeepsTagFree(s: string)
    requires !HasTag(s)
    ensures Strip(s) == s
  {
    NoTagMeansNoneBefore(s);
    StripKeeps(s);
  }

  lemma StripAtFront(s: string, j: nat)
    requires j <= |s| && IsTag(s[0..j])
    ensures Strip(s) == Strip(s[j..])
  {
    assert s[..j] == s[0..j];
  }

  lemma ConsAppend(c: char, x: string, y: string)
    ensures [c] + (x + y) == [c] + x + y
  {
  }

  lemma StripPastFirst(s: string, i: nat, kept: string, rest: string)
    requires 1 <= i <= |s| && MatchAtFront(s).None?
    requires Strip(s[1..]) == kept + rest && kept == s[1..i]
    ensures Strip(s) == s[..i] + rest
  {
    ConsAppend(s[0], kept, rest);
    assert s[..i] == [s[0]] + s[1..i];
  }

  /** The leftmost match is deleted, what precedes it is kept, and the scan resumes after it. */
  lemma {:induction false} StripDeletesLeftmost(s: string, i: nat, j: nat)
    requires i <= j <= |s| && IsTag(s[i..j]) && NoTagBefore(s, i)
    ensures Strip(s) == s[..i] + Strip(s[j..])
    decreases |s|
  {
    if i == 0 {
      StripAtFront(s, j);
      assert s[..0] + Strip(s[j..]) == Strip(s[j..]);
    } else {
      FrontIsNoMatch(s, i);
      SliceOfTail(s, i - 1, j - 1);
      NoTagBeforeTail(s, i - 1);
      StripDeletesLeftmost(s[1..], i - 1, j - 1);
      assert s[1..][j - 1..] == s[j..];
      assert s[1..][..i - 1] == s[1..i];
      StripPastFirst(s, i, s[1..i], Strip(s[j..]));
    }
  }

  lemma {:induction false} StripOnlyRemoves(s: string)
    ensures forall c :: c in Strip(s) ==> c in s
    decreases |s|
  {
    if s != [] {
      match MatchAtFront(s)
      case Some(n) => StripOnlyRemoves(s[n..]);
      case None => StripOnlyRemoves(s[1..]);
    }
  }

  lemma ClosedAtOnce(r: string, n: nat)
    requires n <= |r| && |r| >= 2 && r[1] == '>'
    ensures !IsTag(r[..n])
  {
    if n >= 3 { assert r[..n][1] == '>'; }
  }

  lemma NeverClosed(c: char, rest: string, n: nat)
    requires n <= |rest| + 1 && '>' !in rest
    ensures !IsTag(([c] + rest)[..n])
  {
    if n >= 3 { assert ([c] + rest)[..n][n - 1] == rest[n - 2]; }
  }

  lemma StripStartsWith(t: string)
    requires t != [] && t[0] == '>'
    ensures Strip(t) != [] && Strip(t)[0] == '>'
  {
  }

  /** An opening bracket that starts no match is followed by its counterpart, or there is none after it. */
  lemma WhyNoMatch(s: string)
    requires s != [] && s[0] == '<' && MatchAtFront(s).None?
    ensures (|s| >= 2 && s[1] == '>') || '>' !in s[1..]
  {
    assert forall k :: 0 <= k < |s[1..]| ==> s[1..][k] == s[k + 1];
  }

  /** An opening bracket that starts no match in s starts none in front of the stripped rest. */
  lemma NoMatchIsCreated(s: string, n: nat)
    requires s != [] && MatchAtFront(s).None?
    requires n <= |Strip(s[1..])| + 1
    ensures !IsTag(([s[0]] + Strip(s[1..]))[..n])
  {
    var t := s[1..];
    if s[0] == '<' {
      WhyNoMatch(s);
      if |s| >= 2 && s[1] == '>' {
        StripStartsWith(t);
        ClosedAtOnce([s[0]] + Strip(t), n);
      } else {
        StripOnlyRemoves(t);
        NeverClosed(s[0], Strip(t), n);
      }
    }
  }

  lemma TagFreeCons(c: char, rest: string)
    requires !HasTag(rest)
    requires forall n :: 0 <= n <= |rest| + 1 ==> !IsTag(([c] + rest)[..n])
    ensures !HasTag([c] + rest)
  {
    var r := [c] + rest;
    forall i, j | 0 <= i <= j <= |r|
      ensures !IsTag(r[i..j])
    {
      if i == 0 {
        assert r[0..j] == r[..j];
      } else {
        assert r[i..j] == rest[i - 1..j - 1];
      }
    }
  }

  /** Deleting matches never puts a new one together: no substring of the result matches. */
  lemma {:induction false} StripLeavesNoTag(s: string)
    ensures !HasTag(Strip(s))
    decreases |s|
  {
    if s != [] {
      match MatchAtFront(s)
      case Some(n) => StripLeavesNoTag(s[n..]);
      case None =>
        StripLeavesNoTag(s[1..]);
        forall n | 0 <= n <= |Strip(s[1..])| + 1
          ensures !IsTag(([s[0]] + Strip(s[1..]))[..n])
        {
          NoMatchIsCreated(s, n);
        }
        TagFreeCons(s[0], Strip(s[1..]));
    }
  }

  // ----- The tree

  function Sanitized(v: Json): Json {
    match v
    case String(s) => String(Strip(s))
    case Array(items) => Array(seq(|items|, i requires 0 <= i < |items| => Sanitized(items[i])))
    case Object(fields) =>
      Object(seq(|fields|, i requires 0 <= i < |fields| => (fields[i].0, Sanitized(fields[i].1))))
    case _ => v
  }

  /** What is found on a path of positions: of an array its items, of an object the values of its fields. */
  function At(v: Json, path: seq<nat>): Option<Json>
    decreases |path|
  {
    if path == [] then Some(v)
    else
      match v
      case Array(items) => if path[0] < |items| then At(items[path[0]], path[1..]) else None
      case Object(fields) => if path[0] < |fields| then At(fields[path[0]].1, path[1..]) else None
      case _ => None
  }

  function Names(v: Json): seq<string>
    requires v.Object?
  {
    seq(|v.fields|, i requires 0 <= i < |v.fields| => v.fields[i].0)
  }

  /** A string has become its stripped form, a container has kept its size and names, anything else is as it was. */
  predicate Corresponds(before: Option<Json>, after: Option<Json>) {
    match before
    case Some(String(s)) => after == Some(String(Strip(s)))
    case Some(Array(items)) => after.Some? && after.value.Array? && |after.value.items| == |items|
    case Some(Object(fields)) => after.Some? && after.value.Object? && Names(after.value) == Names(before.value)
    case _ => after == before
  }

  /** On every path the pass leaves what corresponds to what was there. */
  lemma {:induction false} EveryStringIsStripped(v: Json, path: seq<nat>)
    ensures Corresponds(At(v, path), At(Sanitized(v), path))
    decreases |path|
  {
    if path != [] {
      match v
      case Array(items) => if path[0] < |items| { EveryStringIsStripped(items[path[0]], path[1..]); }
      case Object(fields) => if path[0] < |fields| { EveryStringIsStripped(fields[path[0]].1, path[1..]); }
      case _ =>
    }
  }

  lemma AllPathsCorrespond(v: Json)
    ensures forall path :: Corresponds(At(v, path), At(Sanitized(v), path))
  {
    forall path
      ensures Corresponds(At(v, path), At(Sanitized(v), path))
    {
      EveryStringIsStripped(v, path);
    }
  }

  method SanitizeData(data: Json) returns (r: Json)
    ensures r == Sanitized(data)
    ensures forall path :: Corresponds(At(data, path), At(r, path))
    decreases data
  {
    AllPathsCorrespond(data);
    match data {
      case String(s) => return String(Strip(s));
      case Object(fields) =>
        var out := fields;
        for i := 0 to |fields|
          invariant |out| == |fields|
          invariant forall k :: 0 <= k < i ==> out[k] == (fields[k].0, Sanitized(fields[k].1))
          invariant forall k :: i <= k < |fields| ==> out[k] == fields[k]
        {
          var d := SanitizeData(fields[i].1);
          out := out[i := (fields[i].0, d)];
        }
        return Object(out);
      case Array(items) =>
        var out := items;
        for i := 0 to |items|
          invariant |out| == |items|
          invariant forall k :: 0 <= k < i ==> out[k] == Sanitized(items[k])
          invariant forall k :: i <= k < |items| ==> out[k] == items[k]
        {
          var d := SanitizeData(items[i]);
          out := out[i := d];
        }
        return Array(out);
      case _ => return data;
    }
  }

  /** No string value anywhere in the tree contains a match. */
  predicate Clean(v: Json) {
    match v
    case String(s) => !HasTag(s)
    case Array(items) => forall i :: 0 <= i < |items| ==> Clean(items[i])
    case Object(fields) => forall i :: 0 <= i < |fields| ==> Clean(fields[i].1)
    case _ => true
  }

  /** Same constructors, lengths, field names and non-string leaves. */
  predicate SameShape(v: Json, r: Json) {
    match (v, r)
    case (String(_), String(_)) => true
    case (Array(xs), Array(ys)) => |xs| == |ys| && forall i :: 0 <= i < |xs| ==> SameShape(xs[i], ys[i])
    case (Object(xs), Object(ys)) =>
      && |xs| == |ys|
      && (forall i :: 0 <= i < |xs| ==> xs[i].0 == ys[i].0)
      && (forall i :: 0 <= i < |xs| ==> SameShape(xs[i].1, ys[i].1))
    case _ => v == r
  }

  lemma {:induction false} SanitizedIsClean(v: Json)
    ensures Clean(Sanitized(v)) && SameShape(v, Sanitized(v))
  {
    match v
    case String(s) => StripLeavesNoTag(s);
    case Array(items) =>
      forall i | 0 <= i < |items| { SanitizedIsClean(items[i]); }
    case Object(fields) =>
      forall i | 0 <= i < |fields| { SanitizedIsClean(fields[i].1); }
    case _ =>
  }

  /** Clean trees, and only they, are left unchanged by a pass. */
  lemma {:induction false} CleanIsFixed(v: Json)
    ensures Clean(v) <==> Sanitized(v) == v
  {
    match v
    case String(s) =>
      StripLeavesNoTag(s);
      if Clean(v) { StripKeepsTagFree(s); }
    case Array(items) =>
      forall i | 0 <= i < |items|
        ensures Clean(items[i]) <==> Sanitized(items[i]) == items[i] { CleanIsFixed(items[i]); }
      if Clean(v) { assert Sanitized(v).items == items; }
      if Sanitized(v) == v { assert forall i :: 0 <= i < |items| ==> Sanitized(v).items[i] == items[i]; }
    case Object(fields) =>
      forall i | 0 <= i < |fields|
        ensures Clean(fields[i].1) <==> Sanitized(fields[i].1) == fields[i].1 { CleanIsFixed(fields[i].1); }
      if Clean(v) { assert Sanitized(v).fields == fields; }
      if Sanitized(v) == v { assert forall i :: 0 <= i < |fields| ==> Sanitized(v).fields[i] == fields[i]; }
    case _ =>
  }

  /** A second pass changes nothing. */
  lemma SanitizedTwice(v: Json)
    ensures Sanitized(Sanitized(v)) == Sanitized(v)
  {
    SanitizedIsClean(v);
    CleanIsFixed(Sanitized(v));
  }
}
