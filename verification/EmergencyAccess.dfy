/**
 * Emergency access: the record that lets a grantee view or take over a grantor's vault, the
 * handlers that move it through its states, and the two background jobs.
 * Times are whole seconds; sending mail is not part of the model.
 */
module EmergencyAccess {
  import opened Common

  type RecordId = string
  type UserId = string
  type Email = string

  const DAY := 86400

  datatype Status = Invited | Accepted | Confirmed | RecoveryInitiated | RecoveryApproved

  datatype AccessType = View | Takeover

  datatype Record = Record(
    grantor: UserId,
    grantee: Option<UserId>,
    email: Option<Email>,
    key: Option<string>,
    atype: AccessType,
    status: Status,
    waitDays: int,
    initiatedAt: Option<int>,
    lastNotification: Option<int>)

  type Table = map<RecordId, Record>

  /** The accounts that exist. */
  type Users = set<UserId>

  // ----- What each handler does to the table; None is an error reply that changes nothing

  predicate OfGrantor(t: Table, id: RecordId, caller: UserId) {
    id in t && t[id].grantor == caller
  }

  predicate OfGrantee(t: Table, id: RecordId, caller: UserId) {
    id in t && t[id].grantee == Some(caller)
  }

  predicate GranteeKnown(r: Record, users: Users) {
    r.grantee.Some? && r.grantee.value in users
  }

  predicate AlreadyInvited(t: Table, grantor: UserId, grantee: UserId, email: Email) {
    exists id :: id in t && t[id].grantor == grantor && (t[id].grantee == Some(grantee) || t[id].email == Some(email))
  }

  /** The identifier is a freshly generated one; `grantee` is the account that owns `email`. */
  function Invite(t: Table, id: RecordId, caller: UserId, callerEmail: Email, grantee: UserId, email: Email,
                  atype: AccessType, waitDays: int): Option<Table>
    requires id !in t
  {
    if email == callerEmail || AlreadyInvited(t, caller, grantee, email) then None
    else Some(t[id := Record(caller, None, Some(email), None, atype, Invited, waitDays, None, None)])
  }

  function AcceptInvite(t: Table, id: RecordId, grantee: UserId, email: Email): Option<Table> {
    if id in t && t[id].email == Some(email) && t[id].status != Accepted
    then Some(t[id := t[id].(status := Accepted, grantee := Some(grantee), email := None)])
    else None
  }

  /** With mail off, the invitation of a registered account is accepted at once. */
  function InviteAndAccept(t: Table, id: RecordId, caller: UserId, callerEmail: Email, grantee: UserId, email: Email,
                           atype: AccessType, waitDays: int): Option<Table>
    requires id !in t
  {
    match Invite(t, id, caller, callerEmail, grantee, email, atype, waitDays)
    case None => None
    case Some(invited) => AcceptInvite(invited, id, grantee, email)
  }

  function Update(t: Table, id: RecordId, caller: UserId, atype: AccessType, waitDays: int,
                  key: Option<string>): Option<Table>
  {
    if OfGrantor(t, id, caller)
    then Some(t[id := t[id].(atype := atype, waitDays := waitDays, key := if key.Some? then key else t[id].key)])
    else None
  }

  function Delete(t: Table, id: RecordId, caller: UserId): Option<Table> {
    if OfGrantor(t, id, caller) != OfGrantee(t, id, caller) then Some(t - {id}) else None
  }

  function Confirm(t: Table, users: Users, id: RecordId, caller: UserId, key: string): Option<Table> {
    if OfGrantor(t, id, caller) && t[id].status.Accepted? && caller in users && GranteeKnown(t[id], users)
    then Some(t[id := t[id].(status := Confirmed, key := Some(key), email := None)])
    else None
  }

  function Initiate(t: Table, users: Users, id: RecordId, caller: UserId, now: int): Option<Table> {
    if OfGrantee(t, id, caller) && t[id].status.Confirmed? && t[id].grantor in users
    then Some(t[id := t[id].(status := RecoveryInitiated, initiatedAt := Some(now), lastNotification := Some(now))])
    else None
  }

  function Approve(t: Table, users: Users, id: RecordId, caller: UserId): Option<Table> {
    if OfGrantor(t, id, caller) && t[id].status.RecoveryInitiated? && caller in users && GranteeKnown(t[id], users)
    then Some(t[id := t[id].(status := RecoveryApproved)])
    else None
  }

  function Reject(t: Table, users: Users, id: RecordId, caller: UserId): Option<Table> {
    if OfGrantor(t, id, caller) && (t[id].status.RecoveryInitiated? || t[id].status.RecoveryApproved?)
       && GranteeKnown(t[id], users)
    then Some(t[id := t[id].(status := Confirmed)])
    else None
  }

  /** Key rotation replaces the key of a confirmed or later grant of the caller. */
  function ReplaceKey(t: Table, id: RecordId, caller: UserId, key: string): Option<Table> {
    if OfGrantor(t, id, caller) && !t[id].status.Invited? && !t[id].status.Accepted?
    then Some(t[id := t[id].(key := Some(key))])
    else None
  }

  predicate IsValidRequest(r: Record, caller: UserId, requested: AccessType) {
    && r.grantee == Some(caller)
    && r.status.RecoveryApproved?
    && r.atype == requested
  }

  /** View, takeover, password and policies all answer only under this condition. */
  predicate MayAccess(t: Table, id: RecordId, caller: UserId, requested: AccessType) {
    OfGrantee(t, id, caller) && IsValidRequest(t[id], caller, requested)
  }

  // ----- The two jobs work through a list loaded beforehand and write single columns

  predicate Recovering(r: Record) {
    r.status.RecoveryInitiated? && r.initiatedAt.Some?
  }

  predicate TimeoutDue(r: Record, now: int) {
    r.initiatedAt.Some? && r.initiatedAt.value + r.waitDays * DAY <= now
  }

  predicate ReminderDue(r: Record, now: int) {
    && r.initiatedAt.Some?
    && r.initiatedAt.value + (r.waitDays - 1) * DAY <= now
    && (r.lastNotification.Some? ==> r.lastNotification.value + DAY <= now)
  }

  /** An update statement filtered by the identifier: a row that is gone stays gone. */
  function SetStatus(t: Table, id: RecordId, status: Status): Table {
    if id in t then t[id := t[id].(status := status)] else t
  }

  function SetNotified(t: Table, id: RecordId, date: int): Table {
    if id in t then t[id := t[id].(lastNotification := Some(date))] else t
  }

  type Row = (RecordId, Record)

  function TimeoutRow(t: Table, row: Row, now: int): Table {
    if TimeoutDue(row.1, now) then SetStatus(t, row.0, RecoveryApproved) else t
  }

  function ReminderRow(t: Table, row: Row, now: int): Table {
    if ReminderDue(row.1, now) then SetNotified(t, row.0, now) else t
  }

  function TimeoutRows(t: Table, rows: seq<Row>, now: int): Table {
    if rows == [] then t else TimeoutRow(TimeoutRows(t, rows[..|rows| - 1], now), rows[|rows| - 1], now)
  }

  function ReminderRows(t: Table, rows: seq<Row>, now: int): Table {
    if rows == [] then t else ReminderRow(ReminderRows(t, rows[..|rows| - 1], now), rows[|rows| - 1], now)
  }

  /** The rows of the recoveries under way, each once, in any order. */
  ghost predicate IsLoadOf(rows: seq<Row>, t: Table) {
    && (forall i :: 0 <= i < |rows| ==> rows[i].0 in t && t[rows[i].0] == rows[i].1 && Recovering(rows[i].1))
    && (forall i, j :: 0 <= i < j < |rows| ==> rows[i].0 != rows[j].0)
    && (forall id :: id in t && Recovering(t[id]) ==> exists i :: 0 <= i < |rows| && rows[i].0 == id)
  }

  /** Every recovery under way whose waiting time is over is approved, and nothing else changes. */
  function AllTimedOut(t: Table, now: int): Table {
    map id | id in t ::
      if && t[id].status == RecoveryInitiated && t[id].initiatedAt.Some?
         && t[id].initiatedAt.value + t[id].waitDays * 86400 <= now
      then t[id].(status := RecoveryApproved)
      else t[id]
  }

  /** Every recovery under way, from a day before its end on and a day after its last date, is dated. */
  function AllReminded(t: Table, now: int): Table {
    map id | id in t ::
      if && t[id].status == RecoveryInitiated && t[id].initiatedAt.Some?
         && t[id].initiatedAt.value + t[id].waitDays * 86400 - 86400 <= now
         && (t[id].lastNotification.None? || t[id].lastNotification.value + 86400 <= now)
      then t[id].(lastNotification := Some(now))
      else t[id]
  }

  predicate Lists(rows: seq<Row>, id: RecordId) {
    exists i :: 0 <= i < |rows| && rows[i].0 == id
  }

  lemma ListsGrows(rows: seq<Row>, id: RecordId)
    requires rows != []
    ensures Lists(rows, id) <==> Lists(rows[..|rows| - 1], id) || rows[|rows| - 1].0 == id
  {
    var before := rows[..|rows| - 1];
    if Lists(before, id) {
      var i :| 0 <= i < |before| && before[i].0 == id;
      assert rows[i].0 == id;
    }
    if Lists(rows, id) && rows[|rows| - 1].0 != id {
      var i :| 0 <= i < |rows| && rows[i].0 == id;
      assert before[i].0 == id;
    }
  }

  /** Rows as they are in the table. */
  predicate TakenFrom(rows: seq<Row>, t: Table) {
    forall i :: 0 <= i < |rows| ==> rows[i].0 in t && t[rows[i].0] == rows[i].1
  }

  lemma {:induction false} TimeoutRowsAre(t: Table, rows: seq<Row>, now: int, id: RecordId)
    requires TakenFrom(rows, t)
    ensures var r := TimeoutRows(t, rows, now);
            && (id in r <==> id in t)
            && (id in t ==>
                  r[id] == if Lists(rows, id) && TimeoutDue(t[id], now) then t[id].(status := RecoveryApproved)
                           else t[id])
  {
    if rows != [] {
      TimeoutRowsAre(t, rows[..|rows| - 1], now, id);
      ListsGrows(rows, id);
    }
  }

  lemma {:induction false} ReminderRowsAre(t: Table, rows: seq<Row>, now: int, id: RecordId)
    requires TakenFrom(rows, t)
    ensures var r := ReminderRows(t, rows, now);
            && (id in r <==> id in t)
            && (id in t ==>
                  r[id] == if Lists(rows, id) && ReminderDue(t[id], now) then t[id].(lastNotification := Some(now))
                           else t[id])
  {
    if rows != [] {
      ReminderRowsAre(t, rows[..|rows| - 1], now, id);
      ListsGrows(rows, id);
    }
  }

  lemma LoadLists(rows: seq<Row>, t: Table, id: RecordId)
    requires IsLoadOf(rows, t) && id in t
    ensures TakenFrom(rows, t) && (Lists(rows, id) <==> Recovering(t[id]))
  {
  }

  /** Walking a loaded list, in whatever order, does exactly that. */
  lemma {:induction false} TimeoutRowsOfLoad(t: Table, rows: seq<Row>, now: int)
    requires IsLoadOf(rows, t)
    ensures TimeoutRows(t, rows, now) == AllTimedOut(t, now)
  {
    forall id
      ensures id in TimeoutRows(t, rows, now) <==> id in t
      ensures id in t ==> TimeoutRows(t, rows, now)[id] == AllTimedOut(t, now)[id]
    {
      TimeoutRowsAre(t, rows, now, id);
      if id in t { LoadLists(rows, t, id); }
    }
  }

  lemma {:induction false} ReminderRowsOfLoad(t: Table, rows: seq<Row>, now: int)
    requires IsLoadOf(rows, t)
    ensures ReminderRows(t, rows, now) == AllReminded(t, now)
  {
    forall id
      ensures id in ReminderRows(t, rows, now) <==> id in t
      ensures id in t ==> ReminderRows(t, rows, now)[id] == AllReminded(t, now)[id]
    {
      ReminderRowsAre(t, rows, now, id);
      if id in t { LoadLists(rows, t, id); }
    }
  }

  // ----- The handlers as they run

  class Server {
    const enabled: bool
    var table: Table
    var users: Users

    constructor (enabled: bool)
      ensures this.enabled == enabled && table == map[] && users == {}
    {
      this.enabled := enabled;
      table, users := map[], {};
    }

    /** An error reply leaves the table alone; an answer installs the given table. */
    twostate predicate Replies(r: Outcome, next: Option<Table>)
      reads this
    {
      if enabled && next.Some? then r == Ok && table == next.value else r == Err && table == old(table)
    }

    /** An error reply leaves the table alone; an answer, given exactly if it is allowed, changes one record. */
    twostate predicate Saves(r: Outcome, id: RecordId, allowed: bool, change: Record -> Record)
      requires allowed ==> id in old(table)
      reads this
    {
      if enabled && allowed then r == Ok && table == old(table)[id := change(old(table)[id])]
      else r == Err && table == old(table)
    }

    method SendInvite(id: RecordId, caller: UserId, callerEmail: Email, grantee: UserId, email: Email,
                      atype: AccessType, waitDays: int, acceptNow: bool) returns (r: Outcome)
      requires id !in table
      modifies this`table
      ensures Replies(r, if acceptNow
                         then InviteAndAccept(old(table), id, caller, callerEmail, grantee, email, atype, waitDays)
                         else Invite(old(table), id, caller, callerEmail, grantee, email, atype, waitDays))
      ensures r == Ok <==> && enabled && email != callerEmail
                           && forall k :: k in old(table) && old(table)[k].grantor == caller ==>
                                old(table)[k].grantee != Some(grantee) && old(table)[k].email != Some(email)
      ensures r == Ok && !acceptNow ==>
                table == old(table)[id := Record(caller, None, Some(email), None, atype, Invited, waitDays, None, None)]
      ensures r == Ok && acceptNow ==>
                table == old(table)[id := Record(caller, Some(grantee), None, None, atype, Accepted, waitDays,
                                                 None, None)]
    {
      if !enabled { return Err; }
      if email == callerEmail { return Err; }
      if AlreadyInvited(table, caller, grantee, email) { return Err; }
      table := table[id := Record(caller, None, Some(email), None, atype, Invited, waitDays, None, None)];
      if acceptNow {
        r := PostAccept(id, grantee, email);
        return r;
      }
      return Ok;
    }

    method PostAccept(id: RecordId, grantee: UserId, email: Email) returns (r: Outcome)
      modifies this`table
      ensures Replies(r, AcceptInvite(old(table), id, grantee, email))
      ensures Saves(r, id,
                    id in old(table) && old(table)[id].email == Some(email) && old(table)[id].status != Accepted,
                    (e: Record) => e.(status := Accepted, grantee := Some(grantee), email := None))
    {
      if !enabled || id !in table { return Err; }
      var emer := table[id];
      if emer.email.None? || emer.email.value != email { return Err; }
      if emer.status == Accepted { return Err; }
      emer := emer.(status := Accepted, grantee := Some(grantee), email := None);
      table := table[id := emer];
      return Ok;
    }

    method PostEmergencyAccess(id: RecordId, caller: UserId, atype: AccessType, waitDays: int, key: Option<string>)
      returns (r: Outcome)
      modifies this`table
      ensures Replies(r, Update(old(table), id, caller, atype, waitDays, key))
      ensures Saves(r, id, id in old(table) && old(table)[id].grantor == caller,
                    (e: Record) => e.(atype := atype, waitDays := waitDays, key := if key.Some? then key else e.key))
    {
      if !enabled || id !in table || table[id].grantor != caller { return Err; }
      var emer := table[id].(atype := atype, waitDays := waitDays);
      if key.Some? {
        emer := emer.(key := key);
      }
      table := table[id := emer];
      return Ok;
    }

    method DeleteEmergencyAccess(id: RecordId, caller: UserId) returns (r: Outcome)
      modifies this`table
      ensures Replies(r, Delete(old(table), id, caller))
      ensures r == Ok <==> && enabled && id in old(table)
                           && (old(table)[id].grantor == caller) != (old(table)[id].grantee == Some(caller))
      ensures table == if r == Ok then old(table) - {id} else old(table)
    {
      if !enabled || id !in table { return Err; }
      var asGrantor, asGrantee := table[id].grantor == caller, table[id].grantee == Some(caller);
      if asGrantor == asGrantee { return Err; }
      table := table - {id};
      return Ok;
    }

    method PostConfirm(id: RecordId, caller: UserId, key: string) returns (r: Outcome)
      modifies this`table
      ensures Replies(r, Confirm(old(table), users, id, caller, key))
      ensures Saves(r, id,
                    && id in old(table) && old(table)[id].grantor == caller && old(table)[id].status == Accepted
                    && caller in users && old(table)[id].grantee.Some? && old(table)[id].grantee.value in users,
                    (e: Record) => e.(status := Confirmed, key := Some(key), email := None))
    {
      if !enabled || id !in table || table[id].grantor != caller { return Err; }
      var emer := table[id];
      if emer.status != Accepted || emer.grantor != caller { return Err; }
      if caller !in users { return Err; }
      match emer.grantee {
        case None => return Err;
        case Some(grantee) =>
          if grantee !in users { return Err; }
          emer := emer.(status := Confirmed, key := Some(key), email := None);
          table := table[id := emer];
          return Ok;
      }
    }

    method PostInitiate(id: RecordId, caller: UserId, now: int) returns (r: Outcome)
      modifies this`table
      ensures Replies(r, Initiate(old(table), users, id, caller, now))
      ensures Saves(r, id,
                    && id in old(table) && old(table)[id].grantee == Some(caller) && old(table)[id].status == Confirmed
                    && old(table)[id].grantor in users,
                    (e: Record) =>
                      e.(status := RecoveryInitiated, initiatedAt := Some(now), lastNotification := Some(now)))
    {
      if !enabled || id !in table || table[id].grantee != Some(caller) { return Err; }
      var emer := table[id];
      if emer.status != Confirmed { return Err; }
      if emer.grantor !in users { return Err; }
      emer := emer.(status := RecoveryInitiated);
      emer := emer.(initiatedAt := Some(now));
      emer := emer.(lastNotification := Some(now));
      table := table[id := emer];
      return Ok;
    }

    method PostApprove(id: RecordId, caller: UserId) returns (r: Outcome)
      modifies this`table
      ensures Replies(r, Approve(old(table), users, id, caller))
      ensures Saves(r, id,
                    && id in old(table) && old(table)[id].grantor == caller
                    && old(table)[id].status == RecoveryInitiated
                    && caller in users && old(table)[id].grantee.Some? && old(table)[id].grantee.value in users,
                    (e: Record) => e.(status := RecoveryApproved))
    {
      if !enabled || id !in table || table[id].grantor != caller { return Err; }
      var emer := table[id];
      if emer.status != RecoveryInitiated { return Err; }
      if caller !in users { return Err; }
      if emer.grantee.None? || emer.grantee.value !in users { return Err; }
      table := table[id := emer.(status := RecoveryApproved)];
      return Ok;
    }

    method PostReject(id: RecordId, caller: UserId) returns (r: Outcome)
      modifies this`table
      ensures Replies(r, Reject(old(table), users, id, caller))
      ensures Saves(r, id,
                    && id in old(table) && old(table)[id].grantor == caller
                    && (old(table)[id].status == RecoveryInitiated || old(table)[id].status == RecoveryApproved)
                    && old(table)[id].grantee.Some? && old(table)[id].grantee.value in users,
                    (e: Record) => e.(status := Confirmed))
    {
      if !enabled || id !in table || table[id].grantor != caller { return Err; }
      var emer := table[id];
      if emer.status != RecoveryInitiated && emer.status != RecoveryApproved { return Err; }
      if emer.grantee.None? || emer.grantee.value !in users { return Err; }
      table := table[id := emer.(status := Confirmed)];
      return Ok;
    }

    /** View and takeover hand out the key; takeover also needs the grantor's account. */
    method ViewEmergencyAccess(id: RecordId, caller: UserId) returns (r: Option<Option<string>>)
      ensures r.Some? <==> && enabled && id in table && table[id].grantee == Some(caller)
                           && table[id].status == RecoveryApproved && table[id].atype == View
      ensures r.Some? <==> enabled && MayAccess(table, id, caller, View)
      ensures r.Some? ==> r.value == table[id].key
    {
      if !enabled || id !in table || table[id].grantee != Some(caller) { return None; }
      var emer := table[id];
      if emer.grantee.None? || emer.grantee.value != caller { return None; }
      if emer.status != RecoveryApproved || emer.atype != View { return None; }
      return Some(emer.key);
    }

    method TakeoverEmergencyAccess(id: RecordId, caller: UserId) returns (r: Option<Option<string>>)
      ensures r.Some? <==> && enabled && id in table && table[id].grantee == Some(caller)
                           && table[id].status == RecoveryApproved && table[id].atype == Takeover
                           && table[id].grantor in users
      ensures r.Some? <==> enabled && MayAccess(table, id, caller, Takeover) && table[id].grantor in users
      ensures r.Some? ==> r.value == table[id].key
    {
      if !enabled || id !in table || table[id].grantee != Some(caller) { return None; }
      var emer := table[id];
      if emer.grantee.None? || emer.grantee.value != caller { return None; }
      if emer.status != RecoveryApproved || emer.atype != Takeover { return None; }
      if emer.grantor !in users { return None; }
      return Some(emer.key);
    }

    /** The timeout job alone: load, read the clock, walk the list. The order of the load is arbitrary. */
    method TimeoutJob(rows: seq<Row>, now: int)
      requires IsLoadOf(rows, table)
      modifies this`table
      ensures table == if enabled then AllTimedOut(old(table), now) else old(table)
    {
      if !enabled { return; }
      for i := 0 to |rows|
        invariant table == TimeoutRows(old(table), rows[..i], now)
      {
        var emer := rows[i].1;
        var recoveryAllowedAt := emer.initiatedAt.value + emer.waitDays * DAY;
        assert rows[..i + 1][..i] == rows[..i];
        if recoveryAllowedAt <= now && rows[i].0 in table {
          table := table[rows[i].0 := table[rows[i].0].(status := RecoveryApproved)];
        }
      }
      assert rows[..|rows|] == rows;
      TimeoutRowsOfLoad(old(table), rows, now);
    }

    method ReminderJob(rows: seq<Row>, now: int)
      requires IsLoadOf(rows, table)
      modifies this`table
      ensures table == if enabled then AllReminded(old(table), now) else old(table)
    {
      if !enabled { return; }
      for i := 0 to |rows|
        invariant table == ReminderRows(old(table), rows[..i], now)
      {
        var emer := rows[i].1;
        var finalReminderAt := emer.initiatedAt.value + (emer.waitDays - 1) * DAY;
        var nextReminderAt := if emer.lastNotification.Some? then emer.lastNotification.value + DAY else now;
        assert rows[..i + 1][..i] == rows[..i];
        if finalReminderAt <= now && nextReminderAt <= now && rows[i].0 in table {
          table := table[rows[i].0 := table[rows[i].0].(lastNotification := Some(now))];
        }
      }
      assert rows[..|rows|] == rows;
      ReminderRowsOfLoad(old(table), rows, now);
    }
  }
}
