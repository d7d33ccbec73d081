/**
 * Whole runs of the emergency access protocol: handlers, account removals and the steps of the
 * two background jobs in any interleaving. Every state carries the log of what has happened, and
 * the theorems are about every reachable log.
 */
module EmergencyAccessRuns {
  import opened Common
  import opened EmergencyAccess

  /** What happened, in order. Only successful steps are logged. */
  datatype Entry =
      /** The grantor invites an address, and sets access type and waiting time. */
    | InvitedTo(id: RecordId, grantor: UserId, email: Email, atype: AccessType, waitDays: int)
      /** The grantor sets access type and waiting time anew. */
    | TermsSet(id: RecordId, grantor: UserId, atype: AccessType, waitDays: int)
    | AcceptedBy(id: RecordId, grantee: UserId, email: Email)
    | ConfirmedBy(id: RecordId, grantor: UserId, grantee: UserId)
    | InitiatedBy(id: RecordId, grantee: UserId, at: int)
    | ApprovedBy(id: RecordId, grantor: UserId)
    | RejectedBy(id: RecordId, grantor: UserId)
      /**
       * The timeout job approves at time `writtenAt`, going by the clock value `now` and by a list that was loaded
       * when the log had length `loaded`.
       */
    | TimedOut(id: RecordId, loaded: nat, initiatedAt: int, waitDays: int, now: int, writtenAt: int)
    | Reminded(id: RecordId, loaded: nat, initiatedAt: int, waitDays: int, now: int, writtenAt: int)
    | AccessedBy(id: RecordId, grantor: UserId, user: UserId, kind: AccessType, at: int)

  type Log = seq<Entry>

  /** A job between its load and its last row. */
  datatype Job = Idle | Running(now: int, loaded: nat, rows: seq<Row>)

  datatype State = State(clock: int, users: Users, table: Table, used: set<RecordId>,
                         timeout: Job, reminder: Job, log: Log)

  const START := State(0, {}, map[], {}, Idle, Idle, [])

  datatype Event =
    | EvUsers(users: Users)
    | EvInvite(id: RecordId, caller: UserId, callerEmail: Email, grantee: UserId, email: Email, atype: AccessType,
               waitDays: int)
    | EvAccept(id: RecordId, grantee: UserId, email: Email)
    | EvUpdate(id: RecordId, caller: UserId, atype: AccessType, waitDays: int, newKey: Option<string>)
    | EvReplaceKey(id: RecordId, caller: UserId, key: string)
    | EvDelete(id: RecordId, caller: UserId)
      /** An account is removed with its records. */
    | EvPurge(id: RecordId)
    | EvConfirm(id: RecordId, caller: UserId, key: string)
    | EvInitiate(id: RecordId, caller: UserId)
    | EvApprove(id: RecordId, caller: UserId)
    | EvReject(id: RecordId, caller: UserId)
    | EvAccess(id: RecordId, caller: UserId, kind: AccessType)
      /** A job loads its list and will go by the clock value `now`, read after the load. */
    | EvTimeoutLoad(now: int, rows: seq<Row>)
    | EvTimeoutRow
    | EvTimeoutEnds
    | EvReminderLoad(now: int, rows: seq<Row>)
    | EvReminderRow
    | EvReminderEnds

  function TimeoutEntry(job: Job, row: Row, clock: int): Entry
    requires job.Running? && row.1.initiatedAt.Some?
  {
    TimedOut(row.0, job.loaded, row.1.initiatedAt.value, row.1.waitDays, job.now, clock)
  }

  function ReminderEntry(job: Job, row: Row, clock: int): Entry
    requires job.Running? && row.1.initiatedAt.Some?
  {
    Reminded(row.0, job.loaded, row.1.initiatedAt.value, row.1.waitDays, job.now, clock)
  }

  function TimeoutEntries(job: Job, row: Row, clock: int): Log
    requires job.Running?
  {
    if TimeoutDue(row.1, job.now) then [TimeoutEntry(job, row, clock)] else []
  }

  function ReminderEntries(job: Job, row: Row, clock: int): Log
    requires job.Running?
  {
    if ReminderDue(row.1, job.now) then [ReminderEntry(job, row, clock)] else []
  }

  /** A step of the whole system at time s.clock; entries are added only by the steps that succeed. */
  ghost predicate Step(s: State, e: Event, s': State) {
    match e
    case EvUsers(users) => s' == s.(users := users)
    case EvInvite(id, caller, callerEmail, grantee, email, atype, waitDays) =>
      && id !in s.used && id !in s.table
      && var next := Invite(s.table, id, caller, callerEmail, grantee, email, atype, waitDays);
         && next.Some?
         && s' == s.(table := next.value, used := s.used + {id},
                     log := s.log + [InvitedTo(id, caller, email, atype, waitDays)])
    case EvAccept(id, grantee, email) =>
      var next := AcceptInvite(s.table, id, grantee, email);
      next.Some? && s' == s.(table := next.value, log := s.log + [AcceptedBy(id, grantee, email)])
    case EvUpdate(id, caller, atype, waitDays, key) =>
      var next := Update(s.table, id, caller, atype, waitDays, key);
      next.Some? && s' == s.(table := next.value, log := s.log + [TermsSet(id, caller, atype, waitDays)])
    case EvReplaceKey(id, caller, key) =>
      var next := ReplaceKey(s.table, id, caller, key);
      next.Some? && s' == s.(table := next.value)
    case EvDelete(id, caller) =>
      var next := Delete(s.table, id, caller);
      next.Some? && s' == s.(table := next.value)
    case EvPurge(id) => s' == s.(table := s.table - {id})
    case EvConfirm(id, caller, key) =>
      var next := Confirm(s.table, s.users, id, caller, key);
      next.Some? && s' == s.(table := next.value, log := s.log + [ConfirmedBy(id, caller, s.table[id].grantee.value)])
    case EvInitiate(id, caller) =>
      var next := Initiate(s.table, s.users, id, caller, s.clock);
      next.Some? && s' == s.(table := next.value, log := s.log + [InitiatedBy(id, caller, s.clock)])
    case EvApprove(id, caller) =>
      var next := Approve(s.table, s.users, id, caller);
      next.Some? && s' == s.(table := next.value, log := s.log + [ApprovedBy(id, caller)])
    case EvReject(id, caller) =>
      var next := Reject(s.table, s.users, id, caller);
      next.Some? && s' == s.(table := next.value, log := s.log + [RejectedBy(id, caller)])
    case EvAccess(id, caller, kind) =>
      && MayAccess(s.table, id, caller, kind)
      && s' == s.(log := s.log + [AccessedBy(id, s.table[id].grantor, caller, kind, s.clock)])
    case EvTimeoutLoad(now, rows) =>
      && s.timeout.Idle? && s.clock <= now && IsLoadOf(rows, s.table)
      && s' == s.(timeout := Running(now, |s.log|, rows))
    case EvTimeoutRow =>
      && s.timeout.Running? && s.timeout.now <= s.clock && s.timeout.rows != []
      && var row := s.timeout.rows[0];
         s' == s.(table := TimeoutRow(s.table, row, s.timeout.now),
                  timeout := s.timeout.(rows := s.timeout.rows[1..]),
                  log := s.log + TimeoutEntries(s.timeout, row, s.clock))
    case EvTimeoutEnds => s' == s.(timeout := Idle)
    case EvReminderLoad(now, rows) =>
      && s.reminder.Idle? && s.clock <= now && IsLoadOf(rows, s.table)
      && s' == s.(reminder := Running(now, |s.log|, rows))
    case EvReminderRow =>
      && s.reminder.Running? && s.reminder.now <= s.clock && s.reminder.rows != []
      && var row := s.reminder.rows[0];
         s' == s.(table := ReminderRow(s.table, row, s.reminder.now),
                  reminder := s.reminder.(rows := s.reminder.rows[1..]),
                  log := s.log + ReminderEntries(s.reminder, row, s.clock))
    case EvReminderEnds => s' == s.(reminder := Idle)
  }

  /** Time passes, then one event happens. */
  ghost predicate Next(s: State, time: int, e: Event, s': State) {
    s.clock <= time && Step(s.(clock := time), e, s')
  }

  datatype Timed = At(time: int, e: Event, after: State)

  ghost predicate IsRun(run: seq<Timed>) {
    run == [] ||
    var prefix, step := run[..|run| - 1], run[|run| - 1];
    IsRun(prefix) && Next(Last(prefix), step.time, step.e, step.after)
  }

  function Last(run: seq<Timed>): State {
    if run == [] then START else run[|run| - 1].after
  }

  // ----- Reading the log

  predicate SetsTerms(e: Entry, id: RecordId) {
    e.id == id && (e.InvitedTo? || e.TermsSet?)
  }

  /** Entries that change the state of a recovery. */
  predicate Moves(e: Entry, id: RecordId) {
    e.id == id && !SetsTerms(e, id) && !e.AcceptedBy? && !e.Reminded? && !e.AccessedBy?
  }

  function LastMove(log: Log, id: RecordId): (r: Option<nat>)
    ensures r.Some? ==> r.value < |log| && Moves(log[r.value], id)
    ensures forall k :: (if r.Some? then r.value < k else 0 <= k) && k < |log| ==> !Moves(log[k], id)
  {
    if log == [] then None
    else if Moves(log[|log| - 1], id) then Some(|log| - 1)
    else LastMove(log[..|log| - 1], id)
  }

  function LastTerms(log: Log, id: RecordId): (r: Option<nat>)
    ensures r.Some? ==> r.value < |log| && SetsTerms(log[r.value], id)
    ensures forall k :: (if r.Some? then r.value < k else 0 <= k) && k < |log| ==> !SetsTerms(log[k], id)
  {
    if log == [] then None
    else if SetsTerms(log[|log| - 1], id) then Some(|log| - 1)
    else LastTerms(log[..|log| - 1], id)
  }

  function Confirmation(log: Log, id: RecordId): (r: Option<nat>)
    ensures r.Some? ==> r.value < |log| && log[r.value].ConfirmedBy? && log[r.value].id == id
  {
    if log == [] then None
    else if log[|log| - 1].ConfirmedBy? && log[|log| - 1].id == id then Some(|log| - 1)
    else Confirmation(log[..|log| - 1], id)
  }

  predicate ConfirmedPair(log: Log, id: RecordId, grantor: UserId, grantee: UserId) {
    Confirmation(log, id).Some? && log[Confirmation(log, id).value] == ConfirmedBy(id, grantor, grantee)
  }

  /** The last terms that were set for the record, and who set them. */
  predicate TermsAre(log: Log, id: RecordId, grantor: UserId, atype: AccessType, waitDays: int) {
    WaitIs(log, id, grantor, waitDays) && TypeIs(log, id, grantor, atype)
  }

  predicate WaitIs(log: Log, id: RecordId, grantor: UserId, waitDays: int) {
    LastTerms(log, id).Some? && var e := log[LastTerms(log, id).value]; e.grantor == grantor && e.waitDays == waitDays
  }

  predicate TypeIs(log: Log, id: RecordId, grantor: UserId, atype: AccessType) {
    LastTerms(log, id).Some? && var e := log[LastTerms(log, id).value]; e.grantor == grantor && e.atype == atype
  }

  /** The last waiting time that was set for the record, by the grantor of its confirmation. */
  predicate WaitInForce(log: Log, id: RecordId, waitDays: int) {
    Confirmation(log, id).Some? && WaitIs(log, id, log[Confirmation(log, id).value].grantor, waitDays)
  }

  predicate LastMoveIs(log: Log, id: RecordId, status: Status) {
    LastMove(log, id).Some? && Reached(log[LastMove(log, id).value]) == status
  }

  function Reached(e: Entry): Status {
    match e
    case ConfirmedBy(_, _, _) => Confirmed
    case InitiatedBy(_, _, _) => RecoveryInitiated
    case RejectedBy(_, _) => Confirmed
    case _ => RecoveryApproved
  }

  /** The recovery that was open when the log was `log`: its initiation at time `at` is the last move. */
  predicate OpenSince(log: Log, id: RecordId, at: int) {
    LastMoveIs(log, id, RecoveryInitiated) && log[LastMove(log, id).value].at == at
  }

  predicate TimeoutsBefore(log: Log, time: int) {
    forall k :: 0 <= k < |log| && log[k].TimedOut? ==> log[k].writtenAt <= time
  }

  /** When an entry may follow a log. */
  ghost predicate Legal(before: Log, e: Entry) {
    match e
    case InvitedTo(id, _, _, _, _) => forall k :: 0 <= k < |before| ==> before[k].id != id
    case TermsSet(id, grantor, _, _) =>
      LastMove(before, id).None? || exists u :: ConfirmedPair(before, id, grantor, u)
    case AcceptedBy(id, _, _) => LastMove(before, id).None?
    case ConfirmedBy(id, _, _) => LastMove(before, id).None?
    case InitiatedBy(id, grantee, _) =>
      LastMoveIs(before, id, Confirmed) && exists g :: ConfirmedPair(before, id, g, grantee)
    case ApprovedBy(id, grantor) =>
      LastMoveIs(before, id, RecoveryInitiated) && exists u :: ConfirmedPair(before, id, grantor, u)
    case RejectedBy(id, grantor) =>
      && (LastMoveIs(before, id, RecoveryInitiated) || LastMoveIs(before, id, RecoveryApproved))
      && exists u :: ConfirmedPair(before, id, grantor, u)
    case TimedOut(id, loaded, at, waitDays, now, writtenAt) =>
      && loaded <= |before| && OpenSince(before[..loaded], id, at) && WaitInForce(before[..loaded], id, waitDays)
      && at + waitDays * DAY <= now <= writtenAt
    case Reminded(id, loaded, at, waitDays, now, writtenAt) =>
      && loaded <= |before| && OpenSince(before[..loaded], id, at) && WaitInForce(before[..loaded], id, waitDays)
      && at + (waitDays - 1) * DAY <= now <= writtenAt
      && forall j :: 0 <= j < |before| && before[j].Reminded? && before[j].id == id ==> before[j].now + DAY <= now
    case AccessedBy(id, grantor, user, kind, at) =>
      && LastMoveIs(before, id, RecoveryApproved) && ConfirmedPair(before, id, grantor, user)
      && TypeIs(before, id, grantor, kind) && TimeoutsBefore(before, at)
  }

  ghost predicate LegalLog(log: Log) {
    forall k {:trigger Legal(log[..k], log[k])} :: 0 <= k < |log| ==> Legal(log[..k], log[k])
  }

  // ----- The invariant

  /** Which columns are filled in which state. */
  predicate Shaped(r: Record) {
    && (r.email.Some? <==> r.status.Invited?)
    && (r.grantee.Some? <==> !r.status.Invited?)
    && (r.status.Confirmed? || r.status.RecoveryInitiated? || r.status.RecoveryApproved? ==> r.key.Some?)
    && (r.status.RecoveryInitiated? || r.status.RecoveryApproved? ==> r.initiatedAt.Some?)
  }

  /** A row agrees with the log. */
  predicate Linked(log: Log, id: RecordId, r: Record) {
    && TermsAre(log, id, r.grantor, r.atype, r.waitDays)
    && match LastMove(log, id)
       case None => r.status.Invited? || r.status.Accepted?
       case Some(k) =>
         && r.status == Reached(log[k])
         && r.grantee.Some? && ConfirmedPair(log, id, r.grantor, r.grantee.value)
         && (r.status.RecoveryInitiated? ==> r.initiatedAt == Some(log[k].at))
  }

  predicate RowLoaded(log: Log, loaded: nat, row: Row) {
    && loaded <= |log| && Shaped(row.1) && Recovering(row.1)
    && OpenSince(log[..loaded], row.0, row.1.initiatedAt.value)
    && WaitInForce(log[..loaded], row.0, row.1.waitDays)
  }

  predicate Pending(s: State, job: Job) {
    job.Running? ==>
      forall i :: 0 <= i < |job.rows| ==>
        && RowLoaded(s.log, job.loaded, job.rows[i])
        && (job.rows[i].0 in s.table ==> s.table[job.rows[i].0].initiatedAt.Some?)
  }

  predicate Inv(s: State) {
    && (forall id :: id in s.table ==> id in s.used && Shaped(s.table[id]) && Linked(s.log, id, s.table[id]))
    && (forall k :: 0 <= k < |s.log| ==> s.log[k].id in s.used)
    && TimeoutsBefore(s.log, s.clock)
    && Pending(s, s.timeout)
    && Pending(s, s.reminder)
  }

  // ----- How the log functions react to one more entry

  lemma Appended(log: Log, e: Entry, id: RecordId)
    ensures LastMove(log + [e], id) == if Moves(e, id) then Some(|log|) else LastMove(log, id)
    ensures LastTerms(log + [e], id) == if SetsTerms(e, id) then Some(|log|) else LastTerms(log, id)
    ensures Confirmation(log + [e], id) == if e.ConfirmedBy? && e.id == id then Some(|log|) else Confirmation(log, id)
  {
    assert (log + [e])[..|log|] == log;
  }

  lemma {:induction false} LastMovePersists(log: Log, n: nat, id: RecordId)
    requires n <= |log| && LastMove(log[..n], id).Some?
    ensures LastMove(log, id).Some?
  {
    var k := LastMove(log[..n], id).value;
    assert log[k] == log[..n][k];
  }

  lemma LinkedAfter(log: Log, e: Entry, id: RecordId, r: Record)
    requires Linked(log, id, r) && e.id != id
    ensures Linked(log + [e], id, r)
  {
    Appended(log, e, id);
  }

  /** A decision about the record changes nothing but its status. */
  lemma DecidedRowIsLinked(log: Log, e: Entry, id: RecordId, r: Record)
    requires Linked(log, id, r) && LastMove(log, id).Some?
    requires e.id == id && (e.ApprovedBy? || e.RejectedBy? || e.TimedOut?)
    ensures Linked(log + [e], id, r.(status := Reached(e)))
  {
    Appended(log, e, id);
  }

  lemma RowLoadedAfter(log: Log, e: Entry, loaded: nat, row: Row)
    requires RowLoaded(log, loaded, row)
    ensures RowLoaded(log + [e], loaded, row)
  {
    assert (log + [e])[..loaded] == log[..loaded];
  }

  lemma PendingAfter(s: State, e: Entry, s': State, job: Job)
    requires Pending(s, job) && s'.log == s.log + [e]
    requires forall id :: id in s'.table ==>
               id in s.table && (s.table[id].initiatedAt.Some? ==> s'.table[id].initiatedAt.Some?)
    ensures Pending(s', job)
  {
    if job.Running? {
      forall i | 0 <= i < |job.rows|
        ensures RowLoaded(s'.log, job.loaded, job.rows[i])
      {
        RowLoadedAfter(s.log, e, job.loaded, job.rows[i]);
      }
    }
  }

  lemma LegalGrows(log: Log, e: Entry)
    requires LegalLog(log) && Legal(log, e)
    ensures LegalLog(log + [e])
  {
    var more := log + [e];
    forall k | 0 <= k < |more|
      ensures Legal(more[..k], more[k])
    {
      assert more[..k] == log[..k];
      if k == |log| { assert log[..k] == log; } else { assert Legal(log[..k], log[k]); }
    }
  }

  // ----- Every step keeps the invariant and adds only legal entries

  predicate Logs(e: Event) {
    || e.EvInvite? || e.EvAccept? || e.EvUpdate? || e.EvConfirm? || e.EvInitiate? || e.EvApprove? || e.EvReject?
    || e.EvAccess? || e.EvTimeoutRow? || e.EvReminderRow?
  }

  lemma LoadedRows(s: State, rows: seq<Row>, now: int)
    requires Inv(s) && IsLoadOf(rows, s.table)
    ensures Pending(s, Running(now, |s.log|, rows))
  {
    assert s.log[..|s.log|] == s.log;
  }

  /** A row changes without a log entry: it has to stay shaped, linked and initiated. */
  lemma QuietRow(s: State, id: RecordId, r: Record)
    requires Inv(s) && id in s.table && Shaped(r) && Linked(s.log, id, r)
    requires s.table[id].initiatedAt.Some? ==> r.initiatedAt.Some?
    ensures Inv(s.(table := s.table[id := r]))
  {
  }

  lemma RowsRemoved(s: State, ids: set<RecordId>)
    requires Inv(s)
    ensures Inv(s.(table := s.table - ids))
  {
  }

  lemma FreshId(s: State, id: RecordId)
    requires Inv(s) && id !in s.used
    ensures LastMove(s.log, id).None?
  {
  }

  lemma RowIsUsed(s: State, job: Job, i: nat)
    requires Inv(s) && job.Running? && Pending(s, job) && i < |job.rows|
    ensures job.rows[i].0 in s.used
  {
    assert RowLoaded(s.log, job.loaded, job.rows[i]);
    var k := LastMove(s.log[..job.loaded], job.rows[i].0).value;
    assert s.log[k] == s.log[..job.loaded][k];
  }

  lemma QuietStep(s: State, e: Event, s': State)
    requires Inv(s) && Step(s, e, s') && !Logs(e)
    ensures Inv(s') && s'.log == s.log
  {
    match e
    case EvReplaceKey(id, _, _) => QuietRow(s, id, s'.table[id]);
    case EvDelete(id, _) => RowsRemoved(s, {id});
    case EvPurge(id) => RowsRemoved(s, {id});
    case EvTimeoutLoad(now, rows) => LoadedRows(s, rows, now);
    case EvReminderLoad(now, rows) => LoadedRows(s, rows, now);
    case _ =>
  }

  /** One entry about one row: the others keep their link, and the row has to be linked anew. */
  lemma RowStep(s: State, e: Entry, s': State)
    requires Inv(s) && s'.log == s.log + [e] && s'.used == s.used && s'.clock == s.clock
    requires e.id in s.used && (e.TimedOut? ==> e.writtenAt <= s.clock)
    requires forall id :: id in s'.table ==> id in s.table && (id == e.id || s'.table[id] == s.table[id])
    requires e.id in s'.table ==> Shaped(s'.table[e.id]) && Linked(s'.log, e.id, s'.table[e.id])
    requires e.id in s'.table && s.table[e.id].initiatedAt.Some? ==> s'.table[e.id].initiatedAt.Some?
    requires s'.timeout == s.timeout && s'.reminder == s.reminder
    ensures Inv(s')
  {
    forall id | id in s'.table
      ensures id in s'.used && Shaped(s'.table[id]) && Linked(s'.log, id, s'.table[id])
    {
      if id != e.id { LinkedAfter(s.log, e, id, s.table[id]); }
    }
    PendingAfter(s, e, s', s.timeout);
    PendingAfter(s, e, s', s.reminder);
  }

  lemma RowsDiffer(s: State, job: Job, id: RecordId)
    requires Inv(s) && Pending(s, job) && id !in s.used
    ensures job.Running? ==> forall i :: 0 <= i < |job.rows| ==> job.rows[i].0 != id
  {
    if job.Running? {
      forall i | 0 <= i < |job.rows| ensures job.rows[i].0 != id { RowIsUsed(s, job, i); }
    }
  }

  /** A row under an identifier that no job has loaded. */
  lemma NewRow(s: State, id: RecordId, r: Record)
    requires Inv(s) && id in s.used && Shaped(r) && Linked(s.log, id, r)
    requires s.timeout.Running? ==> forall i :: 0 <= i < |s.timeout.rows| ==> s.timeout.rows[i].0 != id
    requires s.reminder.Running? ==> forall i :: 0 <= i < |s.reminder.rows| ==> s.reminder.rows[i].0 != id
    ensures Inv(s.(table := s.table[id := r]))
  {
  }

  lemma InviteStep(s: State, e: Event, s': State)
    requires Inv(s) && LegalLog(s.log) && e.EvInvite? && Step(s, e, s')
    ensures Inv(s') && LegalLog(s'.log)
  {
    var entry := InvitedTo(e.id, e.caller, e.email, e.atype, e.waitDays);
    FreshId(s, e.id);
    Appended(s.log, entry, e.id);
    LegalGrows(s.log, entry);
    RowsDiffer(s, s.timeout, e.id);
    RowsDiffer(s, s.reminder, e.id);
    var known := s.(used := s.used + {e.id});
    var logged := known.(log := s.log + [entry]);
    assert Inv(known);
    RowStep(known, entry, logged);
    NewRow(logged, e.id, s'.table[e.id]);
  }

  /** One entry about a stored row, which keeps its initiation date if it has one. */
  lemma RowUpdated(s: State, e: Entry, r: Record, s': State)
    requires Inv(s) && LegalLog(s.log) && e.id in s.table && !e.TimedOut?
    requires s' == s.(table := s.table[e.id := r], log := s.log + [e])
    requires Legal(s.log, e) && Shaped(r) && Linked(s.log + [e], e.id, r)
    requires s.table[e.id].initiatedAt.Some? ==> r.initiatedAt.Some?
    ensures Inv(s') && LegalLog(s'.log)
  {
    LegalGrows(s.log, e);
    RowStep(s, e, s');
  }

  lemma AcceptedRow(log: Log, id: RecordId, r: Record, grantee: UserId, email: Email)
    requires Shaped(r) && Linked(log, id, r) && r.email.Some?
    ensures var e := AcceptedBy(id, grantee, email);
            var r' := r.(status := Accepted, grantee := Some(grantee), email := None);
            Legal(log, e) && Shaped(r') && Linked(log + [e], id, r')
  {
    Appended(log, AcceptedBy(id, grantee, email), id);
  }

  lemma UpdatedRow(log: Log, id: RecordId, r: Record, atype: AccessType, waitDays: int, key: Option<string>)
    requires Shaped(r) && Linked(log, id, r) && (r.key.Some? ==> key.Some?)
    ensures var e := TermsSet(id, r.grantor, atype, waitDays);
            var r' := r.(atype := atype, waitDays := waitDays, key := key);
            Legal(log, e) && Shaped(r') && Linked(log + [e], id, r')
  {
    Appended(log, TermsSet(id, r.grantor, atype, waitDays), id);
    if LastMove(log, id).Some? { assert ConfirmedPair(log, id, r.grantor, r.grantee.value); }
  }

  lemma ConfirmedRow(log: Log, id: RecordId, r: Record, key: string)
    requires Shaped(r) && Linked(log, id, r) && r.status.Accepted?
    ensures var e := ConfirmedBy(id, r.grantor, r.grantee.value);
            var r' := r.(status := Confirmed, key := Some(key), email := None);
            Legal(log, e) && Shaped(r') && Linked(log + [e], id, r')
  {
    Appended(log, ConfirmedBy(id, r.grantor, r.grantee.value), id);
  }

  lemma InitiatedRow(log: Log, id: RecordId, r: Record, now: int)
    requires Shaped(r) && Linked(log, id, r) && r.status.Confirmed?
    ensures var e := InitiatedBy(id, r.grantee.value, now);
            var r' := r.(status := RecoveryInitiated, initiatedAt := Some(now), lastNotification := Some(now));
            Legal(log, e) && Shaped(r') && Linked(log + [e], id, r')
  {
    Appended(log, InitiatedBy(id, r.grantee.value, now), id);
    assert ConfirmedPair(log, id, r.grantor, r.grantee.value);
  }

  lemma DecidedRow(log: Log, e: Entry, r: Record)
    requires Shaped(r) && Linked(log, e.id, r)
    requires (e.ApprovedBy? && r.status.RecoveryInitiated?)
             || (e.RejectedBy? && (r.status.RecoveryInitiated? || r.status.RecoveryApproved?))
    requires e.grantor == r.grantor
    ensures Legal(log, e) && Shaped(r.(status := Reached(e))) && Linked(log + [e], e.id, r.(status := Reached(e)))
  {
    DecidedRowIsLinked(log, e, e.id, r);
    assert ConfirmedPair(log, e.id, r.grantor, r.grantee.value);
  }

  lemma AccessedRow(log: Log, id: RecordId, r: Record, at: int)
    requires Shaped(r) && Linked(log, id, r) && r.status.RecoveryApproved? && TimeoutsBefore(log, at)
    ensures var e := AccessedBy(id, r.grantor, r.grantee.value, r.atype, at);
            Legal(log, e) && Linked(log + [e], id, r)
  {
    Appended(log, AccessedBy(id, r.grantor, r.grantee.value, r.atype, at), id);
  }

  lemma AcceptStep(s: State, e: Event, s': State)
    requires Inv(s) && LegalLog(s.log) && e.EvAccept? && Step(s, e, s')
    ensures Inv(s') && LegalLog(s'.log)
  {
    AcceptedRow(s.log, e.id, s.table[e.id], e.grantee, e.email);
    RowUpdated(s, AcceptedBy(e.id, e.grantee, e.email), s'.table[e.id], s');
  }

  lemma UpdateStep(s: State, e: Event, s': State)
    requires Inv(s) && LegalLog(s.log) && e.EvUpdate? && Step(s, e, s')
    ensures Inv(s') && LegalLog(s'.log)
  {
    UpdatedRow(s.log, e.id, s.table[e.id], e.atype, e.waitDays, s'.table[e.id].key);
    RowUpdated(s, TermsSet(e.id, e.caller, e.atype, e.waitDays), s'.table[e.id], s');
  }

  lemma ConfirmStep(s: State, id: RecordId, caller: UserId, key: string, s': State)
    requires Inv(s) && LegalLog(s.log) && Step(s, EvConfirm(id, caller, key), s')
    ensures Inv(s') && LegalLog(s'.log)
  {
    ConfirmedRow(s.log, id, s.table[id], key);
    RowUpdated(s, ConfirmedBy(id, caller, s.table[id].grantee.value), s'.table[id], s');
  }

  lemma InitiateStep(s: State, id: RecordId, caller: UserId, s': State)
    requires Inv(s) && LegalLog(s.log) && Step(s, EvInitiate(id, caller), s')
    ensures Inv(s') && LegalLog(s'.log)
  {
    InitiatedRow(s.log, id, s.table[id], s.clock);
    RowUpdated(s, InitiatedBy(id, caller, s.clock), s'.table[id], s');
  }

  lemma ApproveStep(s: State, id: RecordId, caller: UserId, s': State)
    requires Inv(s) && LegalLog(s.log) && Step(s, EvApprove(id, caller), s')
    ensures Inv(s') && LegalLog(s'.log)
  {
    DecidedRow(s.log, ApprovedBy(id, caller), s.table[id]);
    RowUpdated(s, ApprovedBy(id, caller), s'.table[id], s');
  }

  lemma RejectStep(s: State, id: RecordId, caller: UserId, s': State)
    requires Inv(s) && LegalLog(s.log) && Step(s, EvReject(id, caller), s')
    ensures Inv(s') && LegalLog(s'.log)
  {
    DecidedRow(s.log, RejectedBy(id, caller), s.table[id]);
    RowUpdated(s, RejectedBy(id, caller), s'.table[id], s');
  }

  lemma AccessStep(s: State, id: RecordId, caller: UserId, kind: AccessType, s': State)
    requires Inv(s) && LegalLog(s.log) && Step(s, EvAccess(id, caller, kind), s')
    ensures Inv(s') && LegalLog(s'.log)
  {
    AccessedRow(s.log, id, s.table[id], s.clock);
    assert s.table[id := s.table[id]] == s.table;
    RowUpdated(s, AccessedBy(id, s.table[id].grantor, caller, kind, s.clock), s.table[id], s');
  }

  lemma RowTaken(s: State)
    requires Inv(s)
    ensures s.timeout.Running? && s.timeout.rows != [] ==> Inv(s.(timeout := s.timeout.(rows := s.timeout.rows[1..])))
    ensures s.reminder.Running? && s.reminder.rows != []
            ==> Inv(s.(reminder := s.reminder.(rows := s.reminder.rows[1..])))
  {
  }

  /** The job's unconditional write leaves a row that is approved and linked to the new entry. */
  lemma ApprovedRowIsLinked(log: Log, loaded: nat, row: Row, r: Record, entry: Entry)
    requires Shaped(r) && Linked(log, row.0, r) && RowLoaded(log, loaded, row) && r.initiatedAt.Some?
    requires entry.TimedOut? && entry.id == row.0
    ensures Shaped(r.(status := RecoveryApproved)) && Linked(log + [entry], row.0, r.(status := RecoveryApproved))
  {
    LastMovePersists(log, loaded, row.0);
    DecidedRowIsLinked(log, entry, row.0, r);
  }

  lemma TimedOutStep(s: State, row: Row, entry: Entry, s': State)
    requires Inv(s) && s.timeout.Running? && RowLoaded(s.log, s.timeout.loaded, row)
    requires entry.TimedOut? && entry.id == row.0 && entry.writtenAt <= s.clock
    requires row.0 in s.table ==> s.table[row.0].initiatedAt.Some?
    requires s' == s.(table := SetStatus(s.table, row.0, RecoveryApproved), log := s.log + [entry])
    ensures Inv(s')
  {
    var k := LastMove(s.log[..s.timeout.loaded], row.0).value;
    assert s.log[k] == s.log[..s.timeout.loaded][k];
    if row.0 in s.table { ApprovedRowIsLinked(s.log, s.timeout.loaded, row, s.table[row.0], entry); }
    RowStep(s, entry, s');
  }

  lemma TimeoutRowStep(s: State, s': State)
    requires Inv(s) && LegalLog(s.log) && Step(s, EvTimeoutRow, s')
    ensures Inv(s') && LegalLog(s'.log)
  {
    var row, job := s.timeout.rows[0], s.timeout;
    assert RowLoaded(s.log, job.loaded, row);
    RowTaken(s);
    if TimeoutDue(row.1, job.now) {
      var entry := TimeoutEntry(job, row, s.clock);
      LegalGrows(s.log, entry);
      TimedOutStep(s.(timeout := job.(rows := job.rows[1..])), row, entry, s');
    } else {
      assert s.log + [] == s.log;
    }
  }

  // ----- Reminder dates

  predicate RemindedBefore(s: State, k: int) {
    0 <= k < |s.log| && s.log[k].Reminded?
  }

  /** A row's notification date is at least that of every reminder logged for it. */
  ghost predicate DatesCover(s: State) {
    forall k :: RemindedBefore(s, k) ==>
      && s.log[k].now <= s.clock
      && (s.log[k].id in s.table ==>
            var d := s.table[s.log[k].id].lastNotification; d.Some? && s.log[k].now <= d.value)
  }

  /** The running reminder job has not yet touched the rows it still has, and its snapshots cover older reminders. */
  ghost predicate JobCovers(s: State, job: Job) {
    job.Running? ==>
      && (forall k :: RemindedBefore(s, k) ==> s.log[k].now <= job.now)
      && (forall i, j :: 0 <= i < j < |job.rows| ==> job.rows[i].0 != job.rows[j].0)
      && (forall i, k :: 0 <= i < |job.rows| && RemindedBefore(s, k) && s.log[k].id == job.rows[i].0 ==>
            var d := job.rows[i].1.lastNotification; d.Some? && s.log[k].now <= d.value)
  }

  ghost predicate Dated(s: State) {
    DatesCover(s) && JobCovers(s, s.reminder)
  }

  /** Rows keep their date, or get the current time, or are new. */
  predicate DatesKept(s: State, s': State) {
    forall id :: id in s'.table ==>
      || id !in s.used
      || (id in s.table && s'.table[id].lastNotification == s.table[id].lastNotification)
      || s'.table[id].lastNotification == Some(s.clock)
  }

  lemma DatedAfter(s: State, s': State)
    requires Inv(s) && Dated(s) && DatesKept(s, s') && s'.clock == s.clock
    requires s.log <= s'.log && (s'.reminder == s.reminder || s'.reminder == Idle)
    requires forall k :: |s.log| <= k < |s'.log| ==> !s'.log[k].Reminded?
    ensures Dated(s')
  {
    assert forall k :: RemindedBefore(s', k) ==> RemindedBefore(s, k) && s'.log[k] == s.log[k];
  }

  lemma HandlerDatesKept(s: State, e: Event, s': State)
    requires Step(s, e, s') && !e.EvReminderLoad? && !e.EvReminderRow? && !e.EvTimeoutRow?
    ensures DatesKept(s, s')
    ensures forall k :: |s.log| <= k < |s'.log| ==> !s'.log[k].Reminded?
  {
    match e
    case EvInvite(_, _, _, _, _, _, _) =>
    case EvInitiate(_, _) =>
    case _ =>
  }

  lemma TimeoutDatesKept(s: State, s': State)
    requires Step(s, EvTimeoutRow, s')
    ensures DatesKept(s, s')
    ensures forall k :: |s.log| <= k < |s'.log| ==> !s'.log[k].Reminded?
  {
  }

  lemma OtherStepDates(s: State, e: Event, s': State)
    requires Inv(s) && Dated(s) && Step(s, e, s') && !e.EvReminderLoad? && !e.EvReminderRow?
    ensures Dated(s')
  {
    if e.EvTimeoutRow? { TimeoutDatesKept(s, s'); } else { HandlerDatesKept(s, e, s'); }
    DatedAfter(s, s');
  }

  /** What the reminder step adds to the log is dated by the job, and the row it is about gets that date. */
  lemma ReminderRowCovers(s: State, s': State)
    requires Dated(s) && Step(s, EvReminderRow, s')
    ensures DatesCover(s')
  {
    forall k | RemindedBefore(s', k) && k < |s.log|
      ensures RemindedBefore(s, k) && s'.log[k] == s.log[k]
    {
    }
  }

  lemma RemainingRowsCovered(s: State, s': State)
    requires Dated(s) && Step(s, EvReminderRow, s')
    ensures JobCovers(s', s'.reminder)
  {
    var job := s.reminder;
    assert forall i :: 0 <= i < |s'.reminder.rows| ==> s'.reminder.rows[i] == job.rows[i + 1];
    forall k | RemindedBefore(s', k)
      ensures s'.log[k].now <= job.now
      ensures k < |s.log| ==> RemindedBefore(s, k) && s'.log[k] == s.log[k]
      ensures k >= |s.log| ==> s'.log[k].id == job.rows[0].0
    {
    }
  }

  lemma ReminderRowDates(s: State, s': State)
    requires Inv(s) && Dated(s) && Step(s, EvReminderRow, s')
    ensures Dated(s')
  {
    ReminderRowCovers(s, s');
    RemainingRowsCovered(s, s');
  }

  /** The reminder writes one column, which the link to the log does not read. */
  lemma RemindedRowIsLinked(s: State, row: Row, entry: Entry, date: int)
    requires Inv(s) && row.0 in s.table && entry.Reminded?
    ensures var r := s.table[row.0].(lastNotification := Some(date));
            Shaped(r) && Linked(s.log + [entry], row.0, r)
  {
    Appended(s.log, entry, row.0);
    assert Linked(s.log, row.0, s.table[row.0]);
  }

  lemma ReminderIsLegal(s: State, row: Row)
    requires Inv(s) && Dated(s) && s.reminder.Running? && s.reminder.rows != [] && row == s.reminder.rows[0]
    requires ReminderDue(row.1, s.reminder.now) && s.reminder.now <= s.clock
    ensures Legal(s.log, ReminderEntry(s.reminder, row, s.clock))
    ensures row.0 in s.used
  {
    var job := s.reminder;
    assert RowLoaded(s.log, job.loaded, row);
    var k := LastMove(s.log[..job.loaded], row.0).value;
    assert s.log[k] == s.log[..job.loaded][k];
    forall j | 0 <= j < |s.log| && s.log[j].Reminded? && s.log[j].id == row.0
      ensures s.log[j].now + DAY <= job.now
    {
      assert RemindedBefore(s, j);
    }
  }

  lemma RemindedStep(s: State, row: Row, entry: Entry, s': State)
    requires Inv(s) && entry.Reminded? && entry.id == row.0 && row.0 in s.used
    requires s' == s.(table := SetNotified(s.table, row.0, entry.now), log := s.log + [entry])
    ensures Inv(s')
  {
    if row.0 in s.table { RemindedRowIsLinked(s, row, entry, entry.now); }
    RowStep(s, entry, s');
  }

  lemma ReminderRowStep(s: State, s': State)
    requires Inv(s) && LegalLog(s.log) && Dated(s) && Step(s, EvReminderRow, s')
    ensures Inv(s') && LegalLog(s'.log)
  {
    var row, job := s.reminder.rows[0], s.reminder;
    RowTaken(s);
    if ReminderDue(row.1, job.now) {
      var entry := ReminderEntry(job, row, s.clock);
      ReminderIsLegal(s, row);
      LegalGrows(s.log, entry);
      RemindedStep(s.(reminder := job.(rows := job.rows[1..])), row, entry, s');
    } else {
      assert s.log + [] == s.log;
    }
  }

  lemma ReminderLoadDates(s: State, now: int, rows: seq<Row>, s': State)
    requires Inv(s) && Dated(s) && Step(s, EvReminderLoad(now, rows), s')
    ensures Dated(s')
  {
    assert forall k :: RemindedBefore(s', k) ==> RemindedBefore(s, k);
  }

  // ----- Who has accepted which invitation

  /** The grantor invited the address, and the account accepted the invitation with that address. */
  predicate Admits(log: Log, i: int, p: int, id: RecordId, grantor: UserId, grantee: UserId) {
    && 0 <= i < p < |log|
    && log[i].InvitedTo? && log[i].id == id && log[i].grantor == grantor
    && log[p] == AcceptedBy(id, grantee, log[i].email)
  }

  ghost predicate Admission(log: Log, id: RecordId, grantor: UserId, grantee: UserId) {
    exists i, p :: Admits(log, i, p, id, grantor, grantee)
  }

  ghost predicate WasInvited(log: Log, id: RecordId, grantor: UserId, email: Email) {
    exists i :: 0 <= i < |log| && log[i].InvitedTo? && log[i].id == id && log[i].grantor == grantor
                && log[i].email == email
  }

  /** A record's address is the one its grantor invited, and its grantee the account that accepted with it. */
  ghost predicate Introduced(log: Log, id: RecordId, r: Record) {
    && (r.email.Some? ==> WasInvited(log, id, r.grantor, r.email.value))
    && (r.grantee.Some? ==> Admission(log, id, r.grantor, r.grantee.value))
  }

  ghost predicate ConfirmationsAdmitted(log: Log) {
    forall k {:trigger log[..k]} :: 0 <= k < |log| && log[k].ConfirmedBy? ==>
      Admission(log[..k], log[k].id, log[k].grantor, log[k].grantee)
  }

  ghost predicate Parties(s: State) {
    (forall id :: id in s.table ==> Introduced(s.log, id, s.table[id])) && ConfirmationsAdmitted(s.log)
  }

  lemma IntroducedAfter(log: Log, more: Log, id: RecordId, r: Record)
    requires Introduced(log, id, r) && log <= more
    ensures Introduced(more, id, r)
  {
    if r.email.Some? {
      var i :| 0 <= i < |log| && log[i].InvitedTo? && log[i].id == id && log[i].grantor == r.grantor
               && log[i].email == r.email.value;
      assert more[i] == log[i];
    }
    if r.grantee.Some? {
      var i, p :| Admits(log, i, p, id, r.grantor, r.grantee.value);
      assert Admits(more, i, p, id, r.grantor, r.grantee.value);
    }
  }

  /** Rows keep grantor, grantee and address, or lose the address. */
  predicate PartiesKept(s: State, s': State) {
    forall id :: id in s'.table ==>
      && id in s.table && s'.table[id].grantor == s.table[id].grantor && s'.table[id].grantee == s.table[id].grantee
      && (s'.table[id].email == s.table[id].email || s'.table[id].email.None?)
  }

  lemma ConfirmationsAfter(log: Log, more: Log)
    requires ConfirmationsAdmitted(log) && log <= more && |more| <= |log| + 1
    requires |more| == |log| + 1 && more[|log|].ConfirmedBy? ==>
               Admission(log, more[|log|].id, more[|log|].grantor, more[|log|].grantee)
    ensures ConfirmationsAdmitted(more)
  {
    forall k | 0 <= k < |more| && more[k].ConfirmedBy?
      ensures Admission(more[..k], more[k].id, more[k].grantor, more[k].grantee)
    {
      assert more[..k] == log[..k];
      if k == |log| { assert log[..k] == log; }
    }
  }

  lemma PartiesAfter(s: State, s': State)
    requires Parties(s) && PartiesKept(s, s') && s.log <= s'.log && |s'.log| <= |s.log| + 1
    requires |s'.log| == |s.log| + 1 && s'.log[|s.log|].ConfirmedBy? ==>
               var e := s'.log[|s.log|]; e.id in s.table && s.table[e.id].grantor == e.grantor
                                         && s.table[e.id].grantee == Some(e.grantee)
    ensures Parties(s')
  {
    forall id | id in s'.table
      ensures Introduced(s'.log, id, s'.table[id])
    {
      IntroducedAfter(s.log, s'.log, id, s.table[id]);
    }
    ConfirmationsAfter(s.log, s'.log);
  }

  lemma JobRowKeepsParties(s: State, e: Event, s': State)
    requires Step(s, e, s') && (e.EvTimeoutRow? || e.EvReminderRow?)
    ensures PartiesKept(s, s') && s.log <= s'.log && |s'.log| <= |s.log| + 1
    ensures |s'.log| == |s.log| + 1 ==> !s'.log[|s.log|].ConfirmedBy?
  {
  }

  lemma HandlerKeepsParties(s: State, e: Event, s': State)
    requires Step(s, e, s') && !e.EvInvite? && !e.EvAccept? && !e.EvTimeoutRow? && !e.EvReminderRow?
    ensures PartiesKept(s, s') && s.log <= s'.log && |s'.log| <= |s.log| + 1
    ensures |s'.log| == |s.log| + 1 && s'.log[|s.log|].ConfirmedBy? ==>
              var f := s'.log[|s.log|]; f.id in s.table && s.table[f.id].grantor == f.grantor
                                        && s.table[f.id].grantee == Some(f.grantee)
  {
    match e
    case EvConfirm(_, _, _) =>
    case EvDelete(_, _) =>
    case _ =>
  }

  lemma InviteKeepsParties(s: State, e: Event, s': State)
    requires Parties(s) && e.EvInvite? && Step(s, e, s')
    ensures Parties(s')
  {
    forall id | id in s'.table
      ensures Introduced(s'.log, id, s'.table[id])
    {
      if id == e.id {
        assert s'.log[|s.log|] == InvitedTo(e.id, e.caller, e.email, e.atype, e.waitDays);
      } else {
        IntroducedAfter(s.log, s'.log, id, s.table[id]);
      }
    }
    ConfirmationsAfter(s.log, s'.log);
  }

  lemma AcceptKeepsParties(s: State, e: Event, s': State)
    requires Parties(s) && e.EvAccept? && Step(s, e, s')
    ensures Parties(s')
  {
    forall id | id in s'.table
      ensures Introduced(s'.log, id, s'.table[id])
    {
      if id == e.id {
        var r := s.table[id];
        var i :| 0 <= i < |s.log| && s.log[i].InvitedTo? && s.log[i].id == id && s.log[i].grantor == r.grantor
                 && s.log[i].email == e.email;
        assert Admits(s'.log, i, |s.log|, id, r.grantor, e.grantee);
      } else {
        IntroducedAfter(s.log, s'.log, id, s.table[id]);
      }
    }
    ConfirmationsAfter(s.log, s'.log);
  }

  lemma StepKeepsParties(s: State, e: Event, s': State)
    requires Parties(s) && Step(s, e, s')
    ensures Parties(s')
  {
    if e.EvInvite? {
      InviteKeepsParties(s, e, s');
    } else if e.EvAccept? {
      AcceptKeepsParties(s, e, s');
    } else {
      if e.EvTimeoutRow? || e.EvReminderRow? { JobRowKeepsParties(s, e, s'); } else { HandlerKeepsParties(s, e, s'); }
      PartiesAfter(s, s');
    }
  }

  // ----- Every reachable state

  ghost predicate Good(s: State) {
    Inv(s) && Dated(s) && LegalLog(s.log) && Parties(s)
  }

  lemma HandlerStep(s: State, e: Event, s': State)
    requires Inv(s) && LegalLog(s.log) && Step(s, e, s') && Logs(e) && !e.EvTimeoutRow? && !e.EvReminderRow?
    ensures Inv(s') && LegalLog(s'.log)
  {
    match e
    case EvInvite(_, _, _, _, _, _, _) => InviteStep(s, e, s');
    case EvAccept(_, _, _) => AcceptStep(s, e, s');
    case EvUpdate(_, _, _, _, _) => UpdateStep(s, e, s');
    case EvConfirm(id, caller, key) => ConfirmStep(s, id, caller, key, s');
    case EvInitiate(id, caller) => InitiateStep(s, id, caller, s');
    case EvApprove(id, caller) => ApproveStep(s, id, caller, s');
    case EvReject(id, caller) => RejectStep(s, id, caller, s');
    case EvAccess(id, caller, kind) => AccessStep(s, id, caller, kind, s');
  }

  lemma StepKeepsInv(s: State, e: Event, s': State)
    requires Good(s) && Step(s, e, s')
    ensures Inv(s') && LegalLog(s'.log)
  {
    if e.EvTimeoutRow? {
      TimeoutRowStep(s, s');
    } else if e.EvReminderRow? {
      ReminderRowStep(s, s');
    } else if Logs(e) {
      HandlerStep(s, e, s');
    } else {
      QuietStep(s, e, s');
    }
  }

  lemma StepKeepsDated(s: State, e: Event, s': State)
    requires Good(s) && Step(s, e, s')
    ensures Dated(s')
  {
    match e
    case EvReminderRow => ReminderRowDates(s, s');
    case EvReminderLoad(now, rows) => ReminderLoadDates(s, now, rows, s');
    case _ => OtherStepDates(s, e, s');
  }

  /** The invariant holds after every run, whatever the interleaving. */
  lemma {:induction false} RunIsGood(run: seq<Timed>)
    requires IsRun(run)
    ensures Good(Last(run))
  {
    if run != [] {
      var prefix, step := run[..|run| - 1], run[|run| - 1];
      RunIsGood(prefix);
      var s := Last(prefix);
      assert Good(s.(clock := step.time));
      StepKeepsInv(s.(clock := step.time), step.e, step.after);
      StepKeepsDated(s.(clock := step.time), step.e, step.after);
      StepKeepsParties(s.(clock := step.time), step.e, step.after);
    }
  }

  /** The last terms in the log for a stored record are those in its columns. */
  lemma {:induction false} TermsAreLogged(run: seq<Timed>, id: RecordId)
    requires IsRun(run) && id in Last(run).table
    ensures var r := Last(run).table[id]; TermsAre(Last(run).log, id, r.grantor, r.atype, r.waitDays)
  {
    RunIsGood(run);
  }

  /** Why the jobs' unwraps are safe: every loaded row has its initiation date and its grantee. */
  lemma {:induction false} LoadedRowsAreComplete(run: seq<Timed>, rows: seq<Row>, i: nat)
    requires IsRun(run) && IsLoadOf(rows, Last(run).table) && i < |rows|
    ensures rows[i].1.initiatedAt.Some? && rows[i].1.grantee.Some? && rows[i].1.key.Some?
  {
    RunIsGood(run);
  }

  /** Whoever is let in finds a key to hand out. */
  lemma {:induction false} AccessHasKey(run: seq<Timed>, id: RecordId, caller: UserId, kind: AccessType)
    requires IsRun(run) && MayAccess(Last(run).table, id, caller, kind)
    ensures Last(run).table[id].key.Some? && Last(run).table[id].initiatedAt.Some? && Last(run).table[id].email.None?
  {
    RunIsGood(run);
  }

  /** Only a record that is still an open invitation can be accepted, so the grantee is set once. */
  lemma {:induction false} AcceptOnlyOnce(run: seq<Timed>, id: RecordId, grantee: UserId, email: Email)
    requires IsRun(run) && AcceptInvite(Last(run).table, id, grantee, email).Some?
    ensures Last(run).table[id].status.Invited? && Last(run).table[id].grantee.None?
  {
    RunIsGood(run);
  }
}
