/** What the emergency access protocol guarantees of every run, read off the log. */
module EmergencyAccessSafety {
  import opened Common
  import opened EmergencyAccess
  import opened EmergencyAccessRuns

  predicate NoMoves(log: Log, lo: int, hi: int, id: RecordId) {
    forall k :: 0 <= lo <= k < hi <= |log| ==> !Moves(log[k], id)
  }

  predicate NoReject(log: Log, lo: int, hi: int, id: RecordId) {
    forall k :: 0 <= lo <= k < hi <= |log| && log[k].id == id ==> !log[k].RejectedBy?
  }

  predicate NoInitiate(log: Log, lo: int, hi: int, id: RecordId) {
    forall k :: 0 <= lo <= k < hi <= |log| && log[k].id == id ==> !log[k].InitiatedBy?
  }

  /** The grantor's own approval of the recovery initiated at m. */
  predicate GrantedByGrantor(log: Log, m: int, a: int, id: RecordId, grantor: UserId) {
    0 <= m < a < |log| && log[a] == ApprovedBy(id, grantor) && NoMoves(log, m + 1, a, id)
  }

  /**
   * A timeout write whose list, loaded in between, held the recovery initiated at m. The waiting time that the grantor
   * had set last before the load has elapsed at the time of the write.
   */
  predicate GrantedByTimeout(log: Log, m: int, a: int, id: RecordId, grantor: UserId) {
    && 0 <= m < a < |log| && log[a].TimedOut? && log[a].id == id
    && log[m].InitiatedBy? && log[a].initiatedAt == log[m].at
    && m < log[a].loaded <= a && NoMoves(log, m + 1, log[a].loaded, id)
    && WaitIs(log[..log[a].loaded], id, grantor, log[a].waitDays)
    && log[m].at + log[a].waitDays * DAY <= log[a].now <= log[a].writtenAt
  }

  /**
   * Confirmed at c, initiated at m, granted at a, and nothing since then up to the access at n, which is of the type
   * that the grantor had set last.
   */
  predicate Justifies(log: Log, c: int, m: int, a: int, n: int) {
    && 0 <= c < m < a < n < |log| && log[n].AccessedBy?
    && var id, grantor, user := log[n].id, log[n].grantor, log[n].user;
       && log[c] == ConfirmedBy(id, grantor, user)
       && log[m].InitiatedBy? && log[m].id == id && log[m].grantee == user
       && NoMoves(log, a + 1, n, id) && TypeIs(log[..n], id, grantor, log[n].kind)
       && (GrantedByGrantor(log, m, a, id, grantor)
           || (GrantedByTimeout(log, m, a, id, grantor) && log[a].writtenAt <= log[n].at))
  }

  // ----- Facts about legal logs

  /** A record is confirmed once. */
  lemma OneConfirmation(log: Log, i: nat, j: nat)
    requires LegalLog(log) && i < |log| && j < |log|
    requires log[i].ConfirmedBy? && log[j].ConfirmedBy? && log[i].id == log[j].id
    ensures i == j
  {
    var lo, hi := if i < j then i else j, if i < j then j else i;
    assert Legal(log[..hi], log[hi]);
    if lo < hi { assert Moves(log[..hi][lo], log[lo].id); }
  }

  lemma LastMoveInPrefix(log: Log, n: nat, id: RecordId)
    requires n <= |log| && LastMove(log[..n], id).Some?
    ensures var k := LastMove(log[..n], id).value;
            k < n && log[k] == log[..n][k] && Moves(log[k], id) && NoMoves(log, k + 1, n, id)
  {
    assert forall j :: 0 <= j < n ==> log[..n][j] == log[j];
  }

  lemma ConfirmationInPrefix(log: Log, n: nat, id: RecordId)
    requires n <= |log| && Confirmation(log[..n], id).Some?
    ensures var k := Confirmation(log[..n], id).value; k < n && log[k] == log[..n][k]
  {
  }

  /** The initiation behind a grant, and the confirmation behind that initiation. */
  lemma InitiationIsConfirmed(log: Log, m: nat, c: nat, grantor: UserId, user: UserId)
    requires LegalLog(log) && m < |log| && log[m].InitiatedBy?
    requires c < |log| && log[c] == ConfirmedBy(log[m].id, grantor, user)
    ensures c < m && log[m].grantee == user
  {
    assert Legal(log[..m], log[m]);
    var id := log[m].id;
    ConfirmationInPrefix(log, m, id);
    OneConfirmation(log, Confirmation(log[..m], id).value, c);
  }

  lemma GrantHasInitiation(log: Log, a: nat, n: nat) returns (m: nat)
    requires LegalLog(log) && a < n < |log| && log[n].AccessedBy?
    requires LastMove(log[..n], log[n].id) == Some(a) && Reached(log[a]) == RecoveryApproved
    ensures m < a && log[m].InitiatedBy? && log[m].id == log[n].id
    ensures || GrantedByGrantor(log, m, a, log[n].id, log[n].grantor)
            || (GrantedByTimeout(log, m, a, log[n].id, log[n].grantor) && log[a].writtenAt <= log[n].at)
  {
    var id := log[n].id;
    LastMoveInPrefix(log, n, id);
    assert Legal(log[..n], log[n]) && Legal(log[..a], log[a]);
    if log[a].ApprovedBy? {
      LastMoveInPrefix(log, a, id);
      m := LastMove(log[..a], id).value;
      ConfirmationInPrefix(log, n, id);
      ConfirmationInPrefix(log, a, id);
      OneConfirmation(log, Confirmation(log[..n], id).value, Confirmation(log[..a], id).value);
    } else {
      var l := log[a].loaded;
      assert log[..a][..l] == log[..l];
      LastMoveInPrefix(log, l, id);
      m := LastMove(log[..l], id).value;
      ConfirmationInPrefix(log, n, id);
      ConfirmationInPrefix(log, l, id);
      OneConfirmation(log, Confirmation(log[..n], id).value, Confirmation(log[..l], id).value);
      assert log[..n][a] == log[a];
    }
  }

  lemma ConfirmationIsAdmitted(log: Log, c: nat) returns (i: nat, p: nat)
    requires ConfirmationsAdmitted(log) && c < |log| && log[c].ConfirmedBy?
    ensures p < c && Admits(log, i, p, log[c].id, log[c].grantor, log[c].grantee)
  {
    var before := log[..c];
    var i', p' :| Admits(before, i', p', log[c].id, log[c].grantor, log[c].grantee);
    i, p := i', p';
  }

  /**
   * In every run, every view, takeover or password step is of the type the grantor set last, by the account that
   * accepted the grantor's invitation with the invited address and was then confirmed, and that has initiated the
   * recovery since; it was granted by the grantor, or by a timeout write after the waiting time that the grantor had
   * set last before the job's load; and nothing has been rejected since that grant.
   */
  lemma {:induction false} AccessIsJustified(run: seq<Timed>, n: nat) returns (i: nat, p: nat, c: nat, m: nat, a: nat)
    requires IsRun(run) && n < |Last(run).log| && Last(run).log[n].AccessedBy?
    ensures Justifies(Last(run).log, c, m, a, n)
    ensures var log := Last(run).log; p < c && Admits(log, i, p, log[n].id, log[n].grantor, log[n].user)
  {
    RunIsGood(run);
    var log := Last(run).log;
    var id := log[n].id;
    assert Legal(log[..n], log[n]);
    LastMoveInPrefix(log, n, id);
    a := LastMove(log[..n], id).value;
    ConfirmationInPrefix(log, n, id);
    c := Confirmation(log[..n], id).value;
    m := GrantHasInitiation(log, a, n);
    InitiationIsConfirmed(log, m, c, log[n].grantor, log[n].user);
    i, p := ConfirmationIsAdmitted(log, c);
  }

  // ----- The timeout job against a concurrent rejection

  predicate OpenOrApproved(log: Log, id: RecordId) {
    LastMoveIs(log, id, RecoveryInitiated) || LastMoveIs(log, id, RecoveryApproved)
  }

  lemma StaysOpenOrApproved(before: Log, e: Entry, id: RecordId)
    requires OpenOrApproved(before, id) && Legal(before, e) && !(e.RejectedBy? && e.id == id)
    ensures OpenOrApproved(before + [e], id) && !(e.InitiatedBy? && e.id == id)
  {
    Appended(before, e, id);
  }

  /** Without a rejection an open or approved recovery cannot be initiated anew. */
  lemma {:induction false} NoRejectNoInitiate(log: Log, m: nat, a: nat, id: RecordId)
    requires LegalLog(log) && m < a <= |log| && log[m].InitiatedBy? && log[m].id == id
    requires NoReject(log, m + 1, a, id)
    ensures NoInitiate(log, m + 1, a, id) && OpenOrApproved(log[..a], id)
  {
    var b := a - 1;
    assert log[..a] == log[..b] + [log[b]];
    if m == b {
      Appended(log[..b], log[b], id);
    } else {
      NoRejectNoInitiate(log, m, b, id);
      assert Legal(log[..b], log[b]);
      StaysOpenOrApproved(log[..b], log[b], id);
    }
  }

  lemma UninterruptedIff(log: Log, m: nat, a: nat, n: nat)
    requires LegalLog(log) && m < a < n < |log|
    requires log[n].AccessedBy? && log[m].id == log[n].id && NoMoves(log, a + 1, n, log[n].id)
    requires GrantedByTimeout(log, m, a, log[n].id, log[n].grantor)
    ensures var id := log[n].id;
            (NoReject(log, m + 1, n, id) && NoInitiate(log, m + 1, n, id)) <==> NoReject(log, log[a].loaded, a, id)
  {
    var id, l := log[n].id, log[a].loaded;
    if NoReject(log, l, a, id) {
      forall k | m + 1 <= k < n && log[k].id == id && (k < l || k >= a)
        ensures !log[k].RejectedBy? && !log[k].InitiatedBy?
      {
        if k < l || k > a { assert !Moves(log[k], id); }
      }
      assert NoReject(log, m + 1, a, id);
      NoRejectNoInitiate(log, m, a, id);
    }
  }

  // ----- The timeout job against a concurrent update of the waiting time

  /** An update after which the recovery initiated at time `at` is not due at time `now`. */
  predicate Postpones(e: Entry, id: RecordId, at: int, now: int) {
    SetsTerms(e, id) && at + e.waitDays * DAY > now
  }

  predicate NoPostponement(log: Log, lo: int, hi: int, id: RecordId, at: int, now: int) {
    forall k :: 0 <= lo <= k < hi <= |log| ==> !Postpones(log[k], id, at, now)
  }

  /** An update postponed the recovery and no later one has replaced it. */
  ghost predicate PostponementStands(log: Log, lo: int, hi: int, id: RecordId, at: int, now: int) {
    exists k :: 0 <= lo <= k < hi <= |log| && Postpones(log[k], id, at, now)
                && forall j :: k < j < hi ==> !SetsTerms(log[j], id)
  }

  /** The waiting time that was set last has elapsed. */
  predicate Elapsed(log: Log, id: RecordId, at: int, now: int) {
    LastTerms(log, id).Some? && at + log[LastTerms(log, id).value].waitDays * DAY <= now
  }

  /** It has elapsed at every moment between two lengths of the log. */
  ghost predicate ElapsedThroughout(log: Log, lo: int, hi: int, id: RecordId, at: int, now: int) {
    forall k {:trigger log[..k]} :: 0 <= lo <= k <= hi <= |log| ==> Elapsed(log[..k], id, at, now)
  }

  lemma ElapsedNext(log: Log, k: nat, id: RecordId, at: int, now: int)
    requires k < |log| && Elapsed(log[..k], id, at, now)
    ensures Elapsed(log[..k + 1], id, at, now) <==> !Postpones(log[k], id, at, now)
  {
    assert log[..k + 1] == log[..k] + [log[k]];
    Appended(log[..k], log[k], id);
  }

  lemma {:induction false} ElapsedThroughoutIff(log: Log, lo: nat, hi: nat, id: RecordId, at: int, now: int)
    requires lo <= hi <= |log| && Elapsed(log[..lo], id, at, now)
    ensures ElapsedThroughout(log, lo, hi, id, at, now) <==> NoPostponement(log, lo, hi, id, at, now)
    decreases hi
  {
    if lo < hi {
      ElapsedThroughoutIff(log, lo, hi - 1, id, at, now);
      if NoPostponement(log, lo, hi - 1, id, at, now) {
        assert Elapsed(log[..hi - 1], id, at, now);
        ElapsedNext(log, hi - 1, id, at, now);
        assert ElapsedThroughout(log, lo, hi, id, at, now) ==> Elapsed(log[..hi], id, at, now);
      } else {
        assert ElapsedThroughout(log, lo, hi, id, at, now) ==> ElapsedThroughout(log, lo, hi - 1, id, at, now);
      }
    }
  }

  lemma LastTermsSince(log: Log, lo: nat, hi: nat, id: RecordId)
    requires lo <= hi <= |log| && LastTerms(log[..lo], id).Some?
    ensures LastTerms(log[..hi], id).Some?
    ensures LastTerms(log[..hi], id).value < lo ==> LastTerms(log[..hi], id) == LastTerms(log[..lo], id)
  {
    var k := LastTerms(log[..lo], id).value;
    assert log[..hi][k] == log[..lo][k];
    if LastTerms(log[..hi], id).Some? && LastTerms(log[..hi], id).value < lo {
      assert log[..lo][LastTerms(log[..hi], id).value] == log[..hi][LastTerms(log[..hi], id).value];
    }
  }

  lemma {:induction false} ElapsedAtIff(log: Log, lo: nat, hi: nat, id: RecordId, at: int, now: int)
    requires lo <= hi <= |log| && Elapsed(log[..lo], id, at, now)
    ensures Elapsed(log[..hi], id, at, now) <==> !PostponementStands(log, lo, hi, id, at, now)
  {
    LastTermsSince(log, lo, hi, id);
    var w := LastTerms(log[..hi], id).value;
    assert forall j :: 0 <= j < hi ==> log[..hi][j] == log[j];
    if !Elapsed(log[..hi], id, at, now) {
      assert Postpones(log[w], id, at, now);
    }
  }

  /**
   * The job goes by the waiting time it loaded. For every timeout write of every run: the waiting time in force has
   * elapsed at every moment from the load to the write exactly when no update in between postponed the recovery past
   * the job's clock value, and it has elapsed at the write exactly when no such update stands.
   */
  lemma {:induction false} WaitHasElapsedIff(run: seq<Timed>, a: nat)
    requires IsRun(run) && a < |Last(run).log| && Last(run).log[a].TimedOut?
    ensures var log := Last(run).log;
            var id, lo, at, now := log[a].id, log[a].loaded, log[a].initiatedAt, log[a].now;
            && lo <= a && now <= log[a].writtenAt
            && (ElapsedThroughout(log, lo, a, id, at, now) <==> NoPostponement(log, lo, a, id, at, now))
            && (Elapsed(log[..a], id, at, now) <==> !PostponementStands(log, lo, a, id, at, now))
  {
    RunIsGood(run);
    var log := Last(run).log;
    assert Legal(log[..a], log[a]);
    assert log[..a][..log[a].loaded] == log[..log[a].loaded];
    ElapsedThroughoutIff(log, log[a].loaded, a, log[a].id, log[a].initiatedAt, log[a].now);
    ElapsedAtIff(log, log[a].loaded, a, log[a].id, log[a].initiatedAt, log[a].now);
  }

  // ----- Both together

  /**
   * Since its initiation at m the recovery was neither rejected nor initiated anew, and it was due all through the gap.
   */
  ghost predicate Uninterrupted(log: Log, m: int, a: int, n: int, id: RecordId) {
    && 0 <= m < a < n < |log| && log[m].InitiatedBy? && log[a].TimedOut?
    && NoReject(log, m + 1, n, id) && NoInitiate(log, m + 1, n, id)
    && ElapsedThroughout(log, log[a].loaded, a, id, log[m].at, log[a].now)
  }

  /**
   * The job writes from the list it loaded, without looking at the row again. So an access granted by timeout
   * follows an uninterrupted waiting time exactly when neither a rejection nor a postponement came between the load
   * of the list and the write.
   */
  lemma {:induction false} TimeoutIsUninterruptedIff(run: seq<Timed>, c: nat, m: nat, a: nat, n: nat)
    requires IsRun(run) && Justifies(Last(run).log, c, m, a, n)
    requires GrantedByTimeout(Last(run).log, m, a, Last(run).log[n].id, Last(run).log[n].grantor)
    ensures var log := Last(run).log;
            var id := log[n].id;
            Uninterrupted(log, m, a, n, id) <==>
              && NoReject(log, log[a].loaded, a, id)
              && NoPostponement(log, log[a].loaded, a, id, log[m].at, log[a].now)
  {
    RunIsGood(run);
    UninterruptedIff(Last(run).log, m, a, n);
    WaitHasElapsedIff(run, a);
  }

  /** Re-reading the row at the moment of the write: what a conditional update would have done. */
  function FreshTimeout(t: Table, id: RecordId, now: int): Table {
    if id in t && Recovering(t[id]) && TimeoutDue(t[id], now) then SetStatus(t, id, RecoveryApproved) else t
  }

  /**
   * The unconditional write agrees with a fresh check exactly when the row is gone, is still due, or is approved
   * already.
   */
  lemma StaleWriteIsFreshIff(t: Table, row: Row, now: int)
    requires TimeoutDue(row.1, now)
    ensures TimeoutRow(t, row, now) == FreshTimeout(t, row.0, now)
            <==> (row.0 in t
                  ==> (Recovering(t[row.0]) && TimeoutDue(t[row.0], now)) || t[row.0].status.RecoveryApproved?)
  {
    if row.0 in t {
      assert TimeoutRow(t, row, now)[row.0].status.RecoveryApproved?;
      if t[row.0].status.RecoveryApproved? { assert t[row.0].(status := RecoveryApproved) == t[row.0]; }
      assert t[row.0 := t[row.0]] == t;
    }
  }

  lemma Extends(run: seq<Timed>, t: Timed)
    requires IsRun(run) && Next(Last(run), t.time, t.e, t.after)
    ensures IsRun(run + [t]) && Last(run + [t]) == t.after
  {
    assert (run + [t])[..|run|] == run;
  }

  const INVITED_BOB := Record("alice", None, Some("b@x"), None, View, Invited, 1, None, None)
  const CONFIRMED_BOB := Record("alice", Some("bob"), None, Some("k"), View, Confirmed, 1, None, None)
  const RECOVERING_BOB := CONFIRMED_BOB.(status := RecoveryInitiated, initiatedAt := Some(0),
                                         lastNotification := Some(0))
  const BOB_CONFIRMED := State(0, {"alice", "bob"}, map["r" := CONFIRMED_BOB], {"r"}, Idle, Idle,
                               [InvitedTo("r", "alice", "b@x", View, 1), AcceptedBy("r", "bob", "b@x"),
                                ConfirmedBy("r", "alice", "bob")])

  lemma BobIsConfirmed() returns (run: seq<Timed>)
    ensures IsRun(run) && Last(run) == BOB_CONFIRMED
  {
    var s0 := START.(users := {"alice", "bob"});
    run := [];
    Extends(run, At(0, EvUsers(s0.users), s0));
    run := run + [At(0, EvUsers(s0.users), s0)];

    var s1 := s0.(table := map["r" := INVITED_BOB], used := {"r"}, log := [InvitedTo("r", "alice", "b@x", View, 1)]);
    var e1 := EvInvite("r", "alice", "a@x", "bob", "b@x", View, 1);
    Extends(run, At(0, e1, s1));
    run := run + [At(0, e1, s1)];

    var s2 := s1.(table := map["r" := INVITED_BOB.(status := Accepted, grantee := Some("bob"), email := None)],
                  log := s1.log + [AcceptedBy("r", "bob", "b@x")]);
    Extends(run, At(0, EvAccept("r", "bob", "b@x"), s2));
    run := run + [At(0, EvAccept("r", "bob", "b@x"), s2)];

    Extends(run, At(0, EvConfirm("r", "alice", "k"), BOB_CONFIRMED));
    run := run + [At(0, EvConfirm("r", "alice", "k"), BOB_CONFIRMED)];
  }

  const JOB_LOADED := BOB_CONFIRMED.(clock := DAY, table := map["r" := RECOVERING_BOB],
                                     timeout := Running(DAY, 4, [("r", RECOVERING_BOB)]),
                                     log := BOB_CONFIRMED.log + [InitiatedBy("r", "bob", 0)])

  lemma JobIsLoaded() returns (run: seq<Timed>)
    ensures IsRun(run) && Last(run) == JOB_LOADED
  {
    run := BobIsConfirmed();
    var s := JOB_LOADED.(clock := 0, timeout := Idle);
    Extends(run, At(0, EvInitiate("r", "bob"), s));
    run := run + [At(0, EvInitiate("r", "bob"), s)];

    assert IsLoadOf([("r", RECOVERING_BOB)], s.table) by { assert [("r", RECOVERING_BOB)][0].0 == "r"; }
    Extends(run, At(DAY, EvTimeoutLoad(DAY, [("r", RECOVERING_BOB)]), JOB_LOADED));
    run := run + [At(DAY, EvTimeoutLoad(DAY, [("r", RECOVERING_BOB)]), JOB_LOADED)];
  }

  /** After a load, whatever the grantor does in between, the write approves the row and lets the grantee in. */
  lemma WriteFollows(run: seq<Timed>, s: State, r: Record, e: Event, entry: Entry) returns (more: seq<Timed>)
    requires IsRun(run) && Last(run) == JOB_LOADED
    requires r.grantor == "alice" && r.grantee == Some("bob") && r.atype == View
    requires s == JOB_LOADED.(table := map["r" := r], log := JOB_LOADED.log + [entry]) && Next(JOB_LOADED, DAY, e, s)
    ensures IsRun(more) && Last(more).clock == DAY && Last(more).table == map["r" := r.(status := RecoveryApproved)]
    ensures Last(more).log == JOB_LOADED.log + [entry] + [TimedOut("r", 4, 0, 1, DAY, DAY)]
                              + [AccessedBy("r", "alice", "bob", View, DAY)]
  {
    Extends(run, At(DAY, e, s));
    more := run + [At(DAY, e, s)];

    var s' := s.(table := map["r" := r.(status := RecoveryApproved)],
                 timeout := Running(DAY, 4, []),
                 log := s.log + [TimedOut("r", 4, 0, 1, DAY, DAY)]);
    assert TimeoutRow(s.table, ("r", RECOVERING_BOB), DAY) == s'.table;
    assert s.timeout.rows[1..] == [];
    Extends(more, At(DAY, EvTimeoutRow, s'));
    more := more + [At(DAY, EvTimeoutRow, s')];

    var s'' := s'.(log := s'.log + [AccessedBy("r", "alice", "bob", View, DAY)]);
    Extends(more, At(DAY, EvAccess("r", "bob", View), s''));
    more := more + [At(DAY, EvAccess("r", "bob", View), s'')];
  }

  /** A run in which the grantor rejects after the load and before the write, and the grantee still gets access. */
  lemma RejectionCanBeOverwritten() returns (run: seq<Timed>)
    ensures IsRun(run)
    ensures Last(run).log == [InvitedTo("r", "alice", "b@x", View, 1), AcceptedBy("r", "bob", "b@x"),
                              ConfirmedBy("r", "alice", "bob"), InitiatedBy("r", "bob", 0),
                              RejectedBy("r", "alice"), TimedOut("r", 4, 0, 1, DAY, DAY),
                              AccessedBy("r", "alice", "bob", View, DAY)]
  {
    run := JobIsLoaded();
    var r := RECOVERING_BOB.(status := Confirmed);
    var s := JOB_LOADED.(table := map["r" := r], log := JOB_LOADED.log + [RejectedBy("r", "alice")]);
    run := WriteFollows(run, s, r, EvReject("r", "alice"), RejectedBy("r", "alice"));
  }

  /** A run in which the grantor raises the wait to 90 days in that gap, and the grantee gets access after one day. */
  lemma RaisedWaitCanBeIgnored() returns (run: seq<Timed>)
    ensures IsRun(run) && Last(run).clock == DAY && "r" in Last(run).table && Last(run).table["r"].waitDays == 90
    ensures Last(run).log == [InvitedTo("r", "alice", "b@x", View, 1), AcceptedBy("r", "bob", "b@x"),
                              ConfirmedBy("r", "alice", "bob"), InitiatedBy("r", "bob", 0),
                              TermsSet("r", "alice", View, 90), TimedOut("r", 4, 0, 1, DAY, DAY),
                              AccessedBy("r", "alice", "bob", View, DAY)]
  {
    run := JobIsLoaded();
    var r := RECOVERING_BOB.(waitDays := 90);
    var s := JOB_LOADED.(table := map["r" := r], log := JOB_LOADED.log + [TermsSet("r", "alice", View, 90)]);
    run := WriteFollows(run, s, r, EvUpdate("r", "alice", View, 90, None), TermsSet("r", "alice", View, 90));
  }

  // ----- Reminders

  /**
   * In every run, each reminder is for a recovery that was open when the job loaded its list, sent no earlier than a
   * day before the end of the waiting time that the grantor had set last before that load.
   */
  lemma {:induction false} ReminderIsDue(run: seq<Timed>, j: nat)
    requires IsRun(run) && j < |Last(run).log| && Last(run).log[j].Reminded?
    ensures var log := Last(run).log;
            && log[j].loaded <= j && OpenSince(log[..log[j].loaded], log[j].id, log[j].initiatedAt)
            && WaitInForce(log[..log[j].loaded], log[j].id, log[j].waitDays)
            && log[j].initiatedAt + (log[j].waitDays - 1) * DAY <= log[j].now <= log[j].writtenAt
  {
    RunIsGood(run);
    var log := Last(run).log;
    assert Legal(log[..j], log[j]);
    assert log[..j][..log[j].loaded] == log[..log[j].loaded];
  }

  /** In every run, the dates of two reminders for a record are at least a day apart. */
  lemma {:induction false} RemindersAreSpaced(run: seq<Timed>, i: nat, j: nat)
    requires IsRun(run)
    requires i < j < |Last(run).log| && Last(run).log[i].Reminded? && Last(run).log[j].Reminded?
    requires Last(run).log[i].id == Last(run).log[j].id
    ensures Last(run).log[i].now + DAY <= Last(run).log[j].now
  {
    RunIsGood(run);
    var log := Last(run).log;
    assert Legal(log[..j], log[j]);
    assert log[..j][i] == log[i];
  }
}
