/**
 * The SSO login record: created when a browser is sent to the provider, filled by the provider's
 * callback, exchanged for an identity once, and deleted when tokens are issued. Requests are atomic;
 * the provider and the checks of the login step enter through their outcomes.
 */
module SsoLogin {
  import opened Common

  type AuthState = string
  type Code = string

  /** `SSO_AUTH_EXPIRATION`: ten minutes, in seconds. */
  const EXPIRATION := 600

  /** `serial` tells apart the records of successive authorize calls; it is not stored by the server. */
  datatype SsoAuth = SsoAuth(serial: nat, code: Option<Code>, error: bool, identity: Option<string>,
                             createdAt: int, bindingHash: Option<string>)

  type Table = map<AuthState, SsoAuth>

  datatype Entry =
      /** A browser was sent to the provider, with a cookie of this hash. */
    | Authorized(serial: nat, hash: string, at: int)
      /** A callback that came with a cookie of this hash took effect. */
    | CalledBack(serial: nat, hash: string, at: int)
      /** The provider was asked and refused the code. */
    | Declined(serial: nat)
      /** The provider accepted the code, but the reply could not be used and nothing was saved. */
    | Stalled(serial: nat)
      /** The provider accepted the code and the identity was saved. */
    | Completed(serial: nat)
      /** Tokens were issued. */
    | Issued(serial: nat, at: int)

  datatype World = World(table: Table, next: nat, log: seq<Entry>)

  const START := World(map[], 0, [])

  /** What the provider and the code after it answer: code refused, code used up without a result, or an identity. */
  datatype Answer = Refused | Unusable | Identity(id: string)

  predicate Current(r: SsoAuth, now: int) {
    r.createdAt >= now - EXPIRATION
  }

  function Log(w: World, e: Entry): World {
    w.(log := w.log + [e])
  }

  /** A record for the state is created, or replaced. */
  function Authorize(w: World, st: AuthState, hash: string, now: int): World {
    Log(w.(table := w.table[st := SsoAuth(w.next, None, false, None, now, Some(hash))], next := w.next + 1),
        Authorized(w.next, hash, now))
  }

  predicate CallbackAccepted(w: World, st: AuthState, hash: Option<string>, now: int) {
    && st in w.table && Current(w.table[st], now)
    && w.table[st].bindingHash.Some? && hash.Some? && w.table[st].bindingHash == hash
  }

  /** The callback stores code and error, and leaves an identity that is there already. */
  function Callback(w: World, st: AuthState, code: Code, error: bool, hash: Option<string>, now: int): World {
    if !CallbackAccepted(w, st, hash, now) then w
    else
      Log(w.(table := w.table[st := w.table[st].(code := Some(code), error := error)]),
          CalledBack(w.table[st].serial, hash.value, now))
  }

  /** A current record with that code; if several match, any of them. */
  predicate Matches(w: World, st: AuthState, code: Code, now: int) {
    st in w.table && Current(w.table[st], now) && w.table[st].code == Some(code)
  }

  /** `exchange_code` on the matching record; the result tells whether there is an identity to go on with. */
  function ExchangeCode(w: World, st: AuthState, answer: Answer): (World, bool)
    requires st in w.table
  {
    var r := w.table[st];
    if r.identity.Some? then (w, true)
    else if r.error || r.code.None? then (w.(table := w.table - {st}), false)
    else
      match answer
      case Refused => (Log(w, Declined(r.serial)), false)
      case Unusable => (Log(w, Stalled(r.serial)), false)
      case Identity(id) => (Log(w.(table := w.table[st := r.(identity := Some(id))]), Completed(r.serial)), true)
  }

  /** `redeem`: the record is deleted before tokens are made; `datable` tells whether their expiry is known. */
  function Redeem(w: World, st: AuthState, datable: bool, now: int): World
    requires st in w.table
  {
    var gone := w.(table := w.table - {st});
    if datable then Log(gone, Issued(w.table[st].serial, now)) else gone
  }

  /** A token request; `passed` is the outcome of the user checks and the second factor. */
  function TokenRequest(w: World, st: AuthState, answer: Answer, passed: bool, datable: bool, now: int): World
    requires st in w.table
  {
    var (w1, known) := ExchangeCode(w, st, answer);
    if known && passed then Redeem(w1, st, datable, now) else w1
  }

  function DeleteExpired(w: World, now: int): World {
    w.(table := map st | st in w.table && Current(w.table[st], now) :: w.table[st])
  }

  datatype Event =
    | EvAuthorize(st: AuthState, hash: string, now: int)
    | EvCallback(st: AuthState, code: Code, error: bool, cookie: Option<string>, now: int)
    | EvToken(st: AuthState, code: Code, answer: Answer, passed: bool, datable: bool, now: int)
    | EvExpire(now: int)

  function Next(w: World, e: Event): World {
    match e
    case EvAuthorize(st, hash, now) => Authorize(w, st, hash, now)
    case EvCallback(st, code, error, hash, now) => Callback(w, st, code, error, hash, now)
    case EvToken(st, code, answer, passed, datable, now) =>
      if Matches(w, st, code, now) then TokenRequest(w, st, answer, passed, datable, now) else w
    case EvExpire(now) => DeleteExpired(w, now)
  }

  function After(run: seq<Event>): World {
    if run == [] then START else Next(After(run[..|run| - 1]), run[|run| - 1])
  }

  predicate ReachesProvider(r: SsoAuth) {
    r.identity.None? && !r.error && r.code.Some?
  }

  // ----- The invariant

  ghost predicate HasCallback(log: seq<Entry>, n: nat) {
    exists hash, at :: CalledBack(n, hash, at) in log
  }

  /** The record of this authorize call was current at the given time. */
  ghost predicate WasAuthorized(log: seq<Entry>, n: nat, hash: string, now: int) {
    exists at :: Authorized(n, hash, at) in log && at >= now - EXPIRATION
  }

  predicate WasIssued(log: seq<Entry>, n: nat) {
    exists k :: 0 <= k < |log| && log[k].Issued? && log[k].serial == n
  }

  predicate AsksProvider(e: Entry) {
    e.Declined? || e.Stalled? || e.Completed?
  }

  /** When an entry may follow a log. */
  ghost predicate Legal(before: seq<Entry>, e: Entry) {
    && !WasIssued(before, e.serial)
    && (e.Authorized? ==> forall b :: b in before ==> b.serial != e.serial)
    && (e.CalledBack? ==> WasAuthorized(before, e.serial, e.hash, e.at))
    && (AsksProvider(e) ==> HasCallback(before, e.serial) && Completed(e.serial) !in before)
    && (e.Issued? ==> Completed(e.serial) in before && exists hash :: WasAuthorized(before, e.serial, hash, e.at))
  }

  ghost predicate LegalLog(log: seq<Entry>) {
    log == [] || (LegalLog(log[..|log| - 1]) && Legal(log[..|log| - 1], log[|log| - 1]))
  }

  /** A stored record and the log agree. */
  ghost predicate Agrees(log: seq<Entry>, r: SsoAuth) {
    && (r.identity.Some? <==> Completed(r.serial) in log)
    && (r.code.Some? ==> HasCallback(log, r.serial))
    && r.bindingHash.Some? && Authorized(r.serial, r.bindingHash.value, r.createdAt) in log
    && (r.code.None? ==> r.identity.None?)
    && !WasIssued(log, r.serial)
  }

  ghost predicate AllAgree(log: seq<Entry>, table: Table) {
    forall st :: st in table ==> Agrees(log, table[st])
  }

  /** Serial numbers are those of past authorize calls, and no two records share one. */
  predicate Numbered(w: World) {
    && (forall st :: st in w.table ==> w.table[st].serial < w.next)
    && (forall s, t :: s in w.table && t in w.table && s != t ==> w.table[s].serial != w.table[t].serial)
    && (forall e :: e in w.log ==> e.serial < w.next)
  }

  ghost predicate Inv(w: World) {
    AllAgree(w.log, w.table) && Numbered(w) && LegalLog(w.log)
  }

  lemma LegalGrows(log: seq<Entry>, e: Entry)
    requires LegalLog(log) && Legal(log, e)
    ensures LegalLog(log + [e])
  {
    assert (log + [e])[..|log|] == log;
  }

  /** An entry changes nothing that other records agree on. */
  lemma AgreesAfter(log: seq<Entry>, r: SsoAuth, e: Entry)
    requires Agrees(log, r) && e.serial != r.serial
    ensures Agrees(log + [e], r)
  {
    if r.code.Some? {
      var hash, at :| CalledBack(r.serial, hash, at) in log;
      assert CalledBack(r.serial, hash, at) in log + [e];
    }
  }

  lemma OthersAgree(log: seq<Entry>, table: Table, e: Entry)
    requires AllAgree(log, table) && forall st :: st in table ==> table[st].serial != e.serial
    ensures AllAgree(log + [e], table)
  {
    forall st | st in table
      ensures Agrees(log + [e], table[st])
    {
      AgreesAfter(log, table[st], e);
    }
  }

  lemma LoggedKeepsInv(w: World, st: AuthState, r: SsoAuth, e: Entry)
    requires Inv(w) && st in w.table && r.serial == w.table[st].serial && e.serial == r.serial
    requires Legal(w.log, e) && Agrees(w.log + [e], r)
    ensures Inv(Log(w.(table := w.table[st := r]), e))
  {
    LegalGrows(w.log, e);
    OthersAgree(w.log, w.table - {st}, e);
    assert w.table[st := r] == (w.table - {st})[st := r];
  }

  lemma FreshRecordAgrees(w: World, hash: string, now: int)
    requires Inv(w)
    ensures var e := Authorized(w.next, hash, now);
            Legal(w.log, e) && Agrees(w.log + [e], SsoAuth(w.next, None, false, None, now, Some(hash)))
  {
    var e := Authorized(w.next, hash, now);
    assert e in w.log + [e];
    assert forall b :: b in w.log ==> b.serial != w.next;
    assert forall k :: 0 <= k < |w.log| ==> w.log[k] in w.log;
  }

  lemma AuthorizeKeepsInv(w: World, st: AuthState, hash: string, now: int)
    requires Inv(w)
    ensures Inv(Authorize(w, st, hash, now))
  {
    var e := Authorized(w.next, hash, now);
    FreshRecordAgrees(w, hash, now);
    LegalGrows(w.log, e);
    OthersAgree(w.log, w.table, e);
  }

  lemma CallbackKeepsInv(w: World, st: AuthState, code: Code, error: bool, hash: Option<string>, now: int)
    requires Inv(w) && CallbackAccepted(w, st, hash, now)
    ensures Inv(Callback(w, st, code, error, hash, now))
  {
    var r := w.table[st].(code := Some(code), error := error);
    var e := CalledBack(r.serial, hash.value, now);
    assert Authorized(r.serial, hash.value, r.createdAt) in w.log;
    assert e in w.log + [e];
    LoggedKeepsInv(w, st, r, e);
  }

  lemma AskedAgrees(log: seq<Entry>, r: SsoAuth, e: Entry)
    requires Agrees(log, r) && e.serial == r.serial && AsksProvider(e) && r.identity.None? && r.code.Some?
    ensures Legal(log, e)
    ensures e.Completed? ==> forall id :: Agrees(log + [e], r.(identity := Some(id)))
    ensures !e.Completed? ==> Agrees(log + [e], r)
  {
    var hash, at :| CalledBack(r.serial, hash, at) in log;
    assert CalledBack(r.serial, hash, at) in log + [e];
  }

  lemma CompletedKeepsInv(w: World, st: AuthState, id: string)
    requires Inv(w) && st in w.table && ReachesProvider(w.table[st])
    ensures var r := w.table[st];
            Inv(Log(w.(table := w.table[st := r.(identity := Some(id))]), Completed(r.serial)))
  {
    var r := w.table[st];
    AskedAgrees(w.log, r, Completed(r.serial));
    LoggedKeepsInv(w, st, r.(identity := Some(id)), Completed(r.serial));
  }

  lemma FruitlessKeepsInv(w: World, st: AuthState, e: Entry)
    requires Inv(w) && st in w.table && ReachesProvider(w.table[st])
    requires e.serial == w.table[st].serial && (e.Declined? || e.Stalled?)
    ensures Inv(Log(w, e))
  {
    AskedAgrees(w.log, w.table[st], e);
    LoggedKeepsInv(w, st, w.table[st], e);
    assert w.table[st := w.table[st]] == w.table;
  }

  lemma ExchangeKeepsRecord(w: World, st: AuthState, answer: Answer)
    requires st in w.table
    ensures ExchangeCode(w, st, answer).1 ==>
              var w1 := ExchangeCode(w, st, answer).0;
              st in w1.table && w1.table[st].identity.Some? && w1.table[st].createdAt == w.table[st].createdAt
  {
  }

  lemma ExchangeKeepsInv(w: World, st: AuthState, answer: Answer)
    requires Inv(w) && st in w.table
    ensures Inv(ExchangeCode(w, st, answer).0)
  {
    var r := w.table[st];
    if ReachesProvider(r) {
      match answer
      case Refused => FruitlessKeepsInv(w, st, Declined(r.serial));
      case Unusable => FruitlessKeepsInv(w, st, Stalled(r.serial));
      case Identity(id) => CompletedKeepsInv(w, st, id);
    }
  }

  lemma RedeemKeepsInv(w: World, st: AuthState, datable: bool, now: int)
    requires Inv(w) && st in w.table && w.table[st].identity.Some? && Current(w.table[st], now)
    ensures Inv(Redeem(w, st, datable, now))
  {
    if datable {
      var e := Issued(w.table[st].serial, now);
      assert WasAuthorized(w.log, e.serial, w.table[st].bindingHash.value, now);
      LegalGrows(w.log, e);
      OthersAgree(w.log, w.table - {st}, e);
    }
  }

  lemma StepKeepsInv(w: World, e: Event)
    requires Inv(w)
    ensures Inv(Next(w, e))
  {
    match e
    case EvAuthorize(st, hash, now) => AuthorizeKeepsInv(w, st, hash, now);
    case EvCallback(st, code, error, hash, now) =>
      if CallbackAccepted(w, st, hash, now) { CallbackKeepsInv(w, st, code, error, hash, now); }
    case EvToken(st, code, answer, passed, datable, now) =>
      if Matches(w, st, code, now) {
        ExchangeKeepsInv(w, st, answer);
        ExchangeKeepsRecord(w, st, answer);
        var (w1, known) := ExchangeCode(w, st, answer);
        if known && passed { RedeemKeepsInv(w1, st, datable, now); }
      }
    case EvExpire(now) =>
  }

  lemma {:induction false} RunKeepsInv(run: seq<Event>)
    ensures Inv(After(run))
  {
    if run != [] {
      RunKeepsInv(run[..|run| - 1]);
      StepKeepsInv(After(run[..|run| - 1]), run[|run| - 1]);
    }
  }

  // ----- What every run guarantees

  lemma {:induction false} LegalAt(log: seq<Entry>, k: nat)
    requires LegalLog(log) && k < |log|
    ensures Legal(log[..k], log[k])
  {
    var before := log[..|log| - 1];
    if k < |before| {
      LegalAt(before, k);
      assert before[..k] == log[..k];
    }
  }

  /**
   * In every run nothing follows the issue of tokens, and the provider is not asked again after a completed exchange.
   */
  lemma {:induction false} OneShot(run: seq<Event>, i: nat, j: nat)
    requires i < j < |After(run).log|
    requires After(run).log[i].serial == After(run).log[j].serial
    ensures var log := After(run).log;
            !log[i].Issued? && (log[i].Completed? ==> !AsksProvider(log[j]))
  {
    RunKeepsInv(run);
    var log := After(run).log;
    LegalAt(log, j);
    assert log[..j][i] == log[i];
  }

  /** Everything about a record comes after its authorize call. */
  lemma AuthorizeIsFirst(log: seq<Entry>, i: nat, j: nat)
    requires LegalLog(log) && i < j < |log| && log[i].serial == log[j].serial
    ensures !log[j].Authorized?
  {
    LegalAt(log, j);
    assert log[i] in log[..j];
  }

  lemma CallbackForExchange(log: seq<Entry>, x: nat) returns (a: nat, c: nat)
    requires LegalLog(log) && x < |log| && log[x].Completed?
    ensures a < c < x && log[a].Authorized? && log[c].CalledBack? && log[a].serial == log[c].serial == log[x].serial
    ensures log[c].hash == log[a].hash && log[c].at <= log[a].at + EXPIRATION
  {
    var n := log[x].serial;
    LegalAt(log, x);
    var hash, at :| CalledBack(n, hash, at) in log[..x];
    c :| 0 <= c < x && log[c] == CalledBack(n, hash, at);
    LegalAt(log, c);
    var since :| Authorized(n, hash, since) in log[..c] && since >= at - EXPIRATION;
    a :| 0 <= a < c && log[a] == Authorized(n, hash, since);
  }

  lemma AuthorizedForIssue(log: seq<Entry>, j: nat) returns (b: nat)
    requires LegalLog(log) && j < |log| && log[j].Issued?
    ensures b < j && log[b].Authorized? && log[b].serial == log[j].serial && log[j].at <= log[b].at + EXPIRATION
  {
    LegalAt(log, j);
    var hash :| WasAuthorized(log[..j], log[j].serial, hash, log[j].at);
    var since :| Authorized(log[j].serial, hash, since) in log[..j] && since >= log[j].at - EXPIRATION;
    b :| 0 <= b < j && log[b] == Authorized(log[j].serial, hash, since);
  }

  /** Authorize call, callback with its cookie and completed exchange of the record whose tokens are issued at j. */
  predicate BoundBy(log: seq<Entry>, a: nat, c: nat, x: nat, j: nat) {
    && a < c < x < j < |log|
    && log[a].Authorized? && log[c].CalledBack? && log[x].Completed? && log[j].Issued?
    && log[a].serial == log[c].serial == log[x].serial == log[j].serial
    && log[c].hash == log[a].hash
    && log[c].at <= log[a].at + EXPIRATION && log[j].at <= log[a].at + EXPIRATION
  }

  lemma IssueInLogIsBound(log: seq<Entry>, j: nat) returns (a: nat, c: nat, x: nat)
    requires LegalLog(log) && j < |log| && log[j].Issued?
    ensures BoundBy(log, a, c, x, j)
  {
    LegalAt(log, j);
    x :| 0 <= x < j && log[x] == Completed(log[j].serial);
    a, c := CallbackForExchange(log, x);
    var b := AuthorizedForIssue(log, j);
    if a < b { AuthorizeIsFirst(log, a, b); } else if b < a { AuthorizeIsFirst(log, b, a); }
  }

  /**
   * Each issue was preceded by a completed exchange, and that by a callback from a browser with the cookie that the
   * authorize call of the same record had set; callback and issue come no more than ten minutes after that call.
   */
  lemma {:induction false} IssueIsBound(run: seq<Event>, j: nat) returns (a: nat, c: nat, x: nat)
    requires j < |After(run).log| && After(run).log[j].Issued?
    ensures BoundBy(After(run).log, a, c, x, j)
  {
    RunKeepsInv(run);
    a, c, x := IssueInLogIsBound(After(run).log, j);
  }

  // ----- What it takes to issue tokens

  /** The identity a token request can go on with: the saved one, or the one the provider gives now. */
  predicate Identified(r: SsoAuth, answer: Answer) {
    r.identity.Some? || (!r.error && r.code.Some? && answer.Identity?)
  }

  /** Whether the step from one log to another issues tokens for the record. */
  predicate IssuesIn(log: seq<Entry>, log': seq<Entry>, n: nat) {
    exists k :: |log| <= k < |log'| && log'[k].Issued? && log'[k].serial == n
  }

  lemma TokenRequestIssuesIff(w: World, st: AuthState, answer: Answer, passed: bool, datable: bool, now: int, n: nat)
    requires st in w.table
    ensures IssuesIn(w.log, TokenRequest(w, st, answer, passed, datable, now).log, n)
            <==> passed && datable && Identified(w.table[st], answer) && w.table[st].serial == n
  {
    var r := w.table[st];
    var log' := TokenRequest(w, st, answer, passed, datable, now).log;
    if passed && datable && Identified(r, answer) {
      assert log'[|log'| - 1] == Issued(r.serial, now);
    }
  }

  /**
   * One step issues tokens for a record exactly if it is a token request with the code that the record holds, within
   * ten minutes, for a saved or newly given identity, that passed the user checks and the second factor.
   */
  lemma {:induction false} IssuesIff(w: World, e: Event, n: nat)
    ensures IssuesIn(w.log, Next(w, e).log, n)
            <==> && e.EvToken? && e.st in w.table && w.table[e.st].serial == n
                 && w.table[e.st].code == Some(e.code) && w.table[e.st].createdAt >= e.now - 600
                 && Identified(w.table[e.st], e.answer) && e.passed && e.datable
  {
    if e.EvToken? && Matches(w, e.st, e.code, e.now) {
      TokenRequestIssuesIff(w, e.st, e.answer, e.passed, e.datable, e.now, n);
    }
  }

  /** In every run, each issue is the work of such a request. */
  lemma {:induction false} IssueHasRequest(run: seq<Event>, j: nat) returns (k: nat)
    requires j < |After(run).log| && After(run).log[j].Issued?
    ensures k < |run| && run[k].EvToken? && run[k].passed && run[k].datable
    ensures var w := After(run[..k]);
            && run[k].st in w.table && w.table[run[k].st].serial == After(run).log[j].serial
            && w.table[run[k].st].code == Some(run[k].code) && Identified(w.table[run[k].st], run[k].answer)
  {
    var before, e := run[..|run| - 1], run[|run| - 1];
    var w := After(before);
    StepGrowsLog(w, e);
    if j < |w.log| {
      k := IssueHasRequest(before, j);
      assert before[..k] == run[..k];
    } else {
      IssuesIff(w, e, After(run).log[j].serial);
      k := |run| - 1;
    }
  }

  /**
   * A request that does not pass keeps the record and the identity, so that the retry within the ten minutes issues
   * tokens without asking the provider again.
   */
  lemma {:induction false} RetryNeedsNoProvider(w: World, st: AuthState, code: Code, answer: Answer, datable: bool,
                                                now: int, later: int, again: Answer)
    requires Matches(w, st, code, now) && Current(w.table[st], later) && Identified(w.table[st], answer)
    ensures var w1 := Next(w, EvToken(st, code, answer, false, datable, now));
            && st in w1.table && w1.table[st].identity.Some?
            && w1.table[st].(identity := w.table[st].identity) == w.table[st]
            && Next(w1, EvToken(st, code, again, true, true, later)).log
               == w1.log + [Issued(w.table[st].serial, later)]
            && st !in Next(w1, EvToken(st, code, again, true, true, later)).table
  {
  }

  /** Deleting expired records changes no later answer. */
  lemma ExpiryIsInvisible(w: World, now: int, later: int, st: AuthState, code: Code, hash: Option<string>)
    requires now <= later
    ensures Matches(DeleteExpired(w, now), st, code, later) == Matches(w, st, code, later)
    ensures CallbackAccepted(DeleteExpired(w, now), st, hash, later) == CallbackAccepted(w, st, hash, later)
    ensures st in DeleteExpired(w, now).table ==> st in w.table && DeleteExpired(w, now).table[st] == w.table[st]
    ensures DeleteExpired(w, now).log == w.log
  {
  }

  // ----- When an accepted code is the last one of its record

  /** The clock does not go back. */
  predicate Ordered(run: seq<Event>) {
    forall i, j :: 0 <= i < j < |run| ==> run[i].now <= run[j].now
  }

  /** The provider has accepted a code of the record after the log had length `from`. */
  predicate AcceptedSince(log: seq<Entry>, from: nat, n: nat) {
    exists k :: from <= k < |log| && log[k].serial == n && (log[k].Stalled? || log[k].Completed?)
  }

  lemma NextOf(run: seq<Event>, e: Event)
    ensures After(run + [e]) == Next(After(run), e)
  {
    assert (run + [e])[..|run|] == run;
  }

  lemma StepGrowsLog(w: World, e: Event)
    ensures w.log <= Next(w, e).log
  {
  }

  lemma {:induction false} LogGrows(run: seq<Event>, more: seq<Event>)
    ensures After(run).log <= After(run + more).log
  {
    if more == [] {
      assert run + more == run;
    } else {
      var fewer := more[..|more| - 1];
      LogGrows(run, fewer);
      assert run + more == run + fewer + [more[|more| - 1]];
      NextOf(run + fewer, more[|more| - 1]);
      StepGrowsLog(After(run + fewer), more[|more| - 1]);
    }
  }

  lemma NoneAfterIdentity(run: seq<Event>, e: Event, more: seq<Event>)
    requires e.EvToken? && Matches(After(run), e.st, e.code, e.now) && ReachesProvider(After(run).table[e.st])
    requires e.answer.Identity?
    ensures !AcceptedSince(After(run + [e] + more).log, |After(run + [e]).log|, After(run).table[e.st].serial)
  {
    var n, i := After(run).table[e.st].serial, |After(run).log|;
    NextOf(run, e);
    assert After(run + [e]).log[i] == Completed(n);
    LogGrows(run + [e], more);
    var log := After(run + [e] + more).log;
    forall k | |After(run + [e]).log| <= k < |log| && log[k].serial == n
      ensures !AsksProvider(log[k])
    {
      OneShot(run + [e] + more, i, k);
    }
  }

  lemma OrderedGrows(run: seq<Event>, e: Event)
    requires Ordered(run) && run != [] && run[|run| - 1].now <= e.now
    ensures Ordered(run + [e])
  {
  }

  lemma SecondCode(w: World, st: AuthState, code: Code, now: int)
    requires st in w.table && Current(w.table[st], now) && w.table[st].bindingHash.Some? && w.table[st].identity.None?
    ensures var r := w.table[st];
            var w1 := Next(w, EvCallback(st, code, false, r.bindingHash, now));
            Next(w1, EvToken(st, code, Identity("u"), false, false, now)).log
            == w.log + [CalledBack(r.serial, r.bindingHash.value, now)] + [Completed(r.serial)]
  {
  }

  /** After an unusable reply, a callback with another code and a token request for it have that code accepted too. */
  lemma AnotherAfterUnusable(run: seq<Event>, e: Event) returns (more: seq<Event>)
    requires e.EvToken? && Matches(After(run), e.st, e.code, e.now) && ReachesProvider(After(run).table[e.st])
    requires e.answer.Unusable? && Ordered(run + [e])
    ensures Ordered(run + [e] + more)
    ensures AcceptedSince(After(run + [e] + more).log, |After(run + [e]).log|, After(run).table[e.st].serial)
  {
    NextOf(run, e);
    var w, r := After(run + [e]), After(run).table[e.st];
    assert r.bindingHash.Some? by { RunKeepsInv(run); }
    var e1 := EvCallback(e.st, e.code + "2", false, r.bindingHash, e.now);
    var e2 := EvToken(e.st, e.code + "2", Identity("u"), false, false, e.now);
    more := [e1, e2];
    NextOf(run + [e], e1);
    NextOf(run + [e] + [e1], e2);
    OrderedGrows(run + [e], e1);
    OrderedGrows(run + [e] + [e1], e2);
    assert run + [e] + more == run + [e] + [e1] + [e2];
    SecondCode(w, e.st, e.code + "2", e.now);
    assert After(run + [e] + more).log[|w.log| + 1] == Completed(r.serial);
  }

  /**
   * A code that the provider accepts is the last one it accepts for the record, whatever happens afterwards, exactly
   * when its reply gave an identity: an unusable reply leaves no trace in the record.
   */
  lemma {:induction false} LastExchangeIff(run: seq<Event>, e: Event)
    requires e.EvToken? && Matches(After(run), e.st, e.code, e.now) && ReachesProvider(After(run).table[e.st])
    requires !e.answer.Refused? && Ordered(run + [e])
    ensures (forall more :: Ordered(run + [e] + more) ==>
               !AcceptedSince(After(run + [e] + more).log, |After(run + [e]).log|, After(run).table[e.st].serial))
            <==> e.answer.Identity?
  {
    if e.answer.Identity? {
      forall more | Ordered(run + [e] + more)
        ensures !AcceptedSince(After(run + [e] + more).log, |After(run + [e]).log|, After(run).table[e.st].serial)
      {
        NoneAfterIdentity(run, e, more);
      }
    } else {
      var more := AnotherAfterUnusable(run, e);
      assert Ordered(run + [e] + more);
    }
  }

  /** A run in which the provider accepts two codes for one record. */
  lemma TwoCodesForOneRecord() returns (run: seq<Event>)
    ensures Ordered(run)
    ensures After(run).log == [Authorized(0, "h", 0), CalledBack(0, "h", 1), Stalled(0), CalledBack(0, "h", 3),
                               Completed(0), Issued(0, 4)]
  {
    var e1 := EvAuthorize("s", "h", 0);
    var e2 := EvCallback("s", "c1", false, Some("h"), 1);
    var e3 := EvToken("s", "c1", Unusable, true, true, 2);
    var e4 := EvCallback("s", "c2", false, Some("h"), 3);
    var e5 := EvToken("s", "c2", Identity("u"), true, true, 4);
    run := [e1, e2, e3, e4, e5];
    var r := SsoAuth(0, None, false, None, 0, Some("h"));
    assert run[..4] == [e1, e2, e3, e4] && [e1, e2, e3, e4][..3] == [e1, e2, e3];
    assert [e1, e2, e3][..2] == [e1, e2] && [e1, e2][..1] == [e1] && [e1][..0] == [];
    var log := [Authorized(0, "h", 0)];
    assert After([e1]) == World(map["s" := r], 1, log);
    assert After([e1, e2]) == World(map["s" := r.(code := Some("c1"))], 1, log + [CalledBack(0, "h", 1)]);
    assert After([e1, e2, e3])
           == World(map["s" := r.(code := Some("c1"))], 1, log + [CalledBack(0, "h", 1), Stalled(0)]);
    assert After([e1, e2, e3, e4]).table == map["s" := r.(code := Some("c2"))];
  }

  // ----- The handlers

  /** A record that is at most ten minutes old and holds the code. */
  predicate Usable(table: Table, st: AuthState, code: Code, now: int) {
    st in table && table[st].code == Some(code) && table[st].createdAt >= now - 600
  }

  class Server {
    var table: Table
    /** Number of the next authorize call, for the history only. */
    var next: nat
    ghost var log: seq<Entry>

    ghost function Contents(): World
      reads this
    {
      World(table, next, log)
    }

    constructor ()
      ensures Contents() == START
    {
      table, next, log := map[], 0, [];
    }

    method PostAuthorize(st: AuthState, challengeMethod: string, hash: string, now: int) returns (r: Outcome)
      modifies this
      ensures if challengeMethod == "S256" then r == Ok && Contents() == Authorize(old(Contents()), st, hash, now)
              else r == Err && Contents() == old(Contents())
      ensures r == Ok ==> table == old(table)[st := SsoAuth(old(next), None, false, None, now, Some(hash))]
    {
      if challengeMethod != "S256" { return Err; }
      table := table[st := SsoAuth(next, None, false, None, now, Some(hash))];
      log := log + [Authorized(next, hash, now)];
      next := next + 1;
      return Ok;
    }

    method OidcSigninRedirect(st: AuthState, code: Code, error: bool, hash: Option<string>, now: int)
      returns (r: Outcome)
      modifies this
      ensures Contents() == Callback(old(Contents()), st, code, error, hash, now)
      ensures r == Ok <==> && st in old(table) && old(table)[st].createdAt >= now - 600
                           && hash.Some? && old(table)[st].bindingHash == hash
      ensures table == if r == Ok then old(table)[st := old(table)[st].(code := Some(code), error := error)]
                       else old(table)
    {
      if st !in table || table[st].createdAt < now - EXPIRATION { return Err; }
      var auth := table[st];
      match (auth.bindingHash, hash) {
        case (Some(expected), Some(actual)) =>
          if expected != actual { return Err; }
        case _ => return Err;
      }
      auth := auth.(code := Some(code));
      auth := auth.(error := error);
      table := table[st := auth];
      log := log + [CalledBack(auth.serial, hash.value, now)];
      return Ok;
    }

    method PostToken(st: AuthState, code: Code, answer: Answer, passed: bool, datable: bool, now: int)
      returns (r: Outcome)
      modifies this
      ensures Contents() == Next(old(Contents()), EvToken(st, code, answer, passed, datable, now))
      ensures r == Ok <==> && Usable(old(table), st, code, now) && Identified(old(table)[st], answer)
                           && passed && datable
      ensures !Usable(old(table), st, code, now) ==> table == old(table)
      ensures Usable(old(table), st, code, now) && old(table)[st].identity.None? && old(table)[st].error ==>
                table == old(table) - {st}
      ensures Usable(old(table), st, code, now) && !old(table)[st].error && !Identified(old(table)[st], answer) ==>
                table == old(table)
      ensures Usable(old(table), st, code, now) && Identified(old(table)[st], answer) ==>
                var r := old(table)[st];
                table == if passed then old(table) - {st}
                         else old(table)[st := if r.identity.Some? then r else r.(identity := Some(answer.id))]
    {
      if st !in table || table[st].code != Some(code) || table[st].createdAt < now - EXPIRATION { return Err; }
      var auth := table[st];
      if auth.identity.None? {
        if auth.error {
          table := table - {st};
          return Err;
        }
        match answer {
          case Refused =>
            log := log + [Declined(auth.serial)];
            return Err;
          case Unusable =>
            log := log + [Stalled(auth.serial)];
            return Err;
          case Identity(id) =>
            auth := auth.(identity := Some(id));
            table := table[st := auth];
            log := log + [Completed(auth.serial)];
        }
      }
      if !passed { return Err; }
      table := table - {st};
      if !datable { return Err; }
      log := log + [Issued(auth.serial, now)];
      return Ok;
    }
  }
}
