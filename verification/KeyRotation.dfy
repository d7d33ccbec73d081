/** One pass of replacements over loaded rows, as every update loop of the key rotation makes it. */
module Replacement {
  import opened Common

  /** An entry of the request: to be passed over, to be stored under a key, or refused. */
  datatype Change<K, M> = Skip | Put(key: K, material: M) | Refuse

  datatype Progress<K, M> = Progress(rows: map<K, M>, ok: bool)

  /** The loop stops at the first refused entry or unknown key; what was stored before stays stored. */
  function Apply<K(==), M>(rows: map<K, M>, changes: seq<Change<K, M>>): Progress<K, M> {
    if changes == [] then Progress(rows, true)
    else
      var p := Apply(rows, changes[..|changes| - 1]);
      if !p.ok then p
      else
        match changes[|changes| - 1]
        case Skip => p
        case Refuse => p.(ok := false)
        case Put(k, m) => if k in p.rows then p.(rows := p.rows[k := m]) else p.(ok := false)
  }

  /** The last material given for a key. */
  function Latest<K(==), M>(changes: seq<Change<K, M>>, k: K): (r: Option<M>)
    ensures r.Some? ==> Put(k, r.value) in changes
    ensures r.None? ==> forall i :: 0 <= i < |changes| ==> !(changes[i].Put? && changes[i].key == k)
  {
    if changes == [] then None
    else if changes[|changes| - 1].Put? && changes[|changes| - 1].key == k then Some(changes[|changes| - 1].material)
    else Latest(changes[..|changes| - 1], k)
  }

  predicate Admissible<K(==), M>(rows: map<K, M>, c: Change<K, M>) {
    !c.Refuse? && (c.Put? ==> c.key in rows)
  }

  /**
   * The loop succeeds exactly when every entry is admissible. Then each row holds the last material given for it,
   * whatever the order and the duplicates. In any case a row holds its old material or some given for it.
   */
  lemma {:induction false} ApplyMeans<K, M>(rows: map<K, M>, changes: seq<Change<K, M>>)
    ensures var p := Apply(rows, changes);
            && p.rows.Keys == rows.Keys
            && (p.ok <==> forall i :: 0 <= i < |changes| ==> Admissible(rows, changes[i]))
            && (p.ok ==> forall k :: k in rows ==>
                  p.rows[k] == if Latest(changes, k).Some? then Latest(changes, k).value else rows[k])
            && (forall k :: k in rows ==> p.rows[k] == rows[k] || Put(k, p.rows[k]) in changes)
  {
    if changes != [] {
      var before, last := changes[..|changes| - 1], changes[|changes| - 1];
      ApplyMeans(rows, before);
      assert changes == before + [last];
      var p, q := Apply(rows, changes), Apply(rows, before);
      if q.ok {
        assert p.ok <==> Admissible(rows, last);
      }
    }
  }

  /** Where the latest material for a key stands in the request. */
  lemma {:induction false} LatestAt<K, M>(changes: seq<Change<K, M>>, k: K) returns (i: nat)
    requires Latest(changes, k).Some?
    ensures i < |changes| && changes[i] == Put(k, Latest(changes, k).value)
    ensures forall j :: i < j < |changes| ==> !(changes[j].Put? && changes[j].key == k)
  {
    var before, last := changes[..|changes| - 1], changes[|changes| - 1];
    if last.Put? && last.key == k {
      i := |changes| - 1;
    } else {
      i := LatestAt(before, k);
      assert forall j :: 0 <= j < |before| ==> before[j] == changes[j];
    }
  }

  /** The pass stores everything before the first entry that is not admissible, and nothing from there on. */
  lemma {:induction false} PassStopsAtFirst<K, M>(rows: map<K, M>, changes: seq<Change<K, M>>) returns (n: nat)
    ensures n <= |changes| && forall i :: 0 <= i < n ==> Admissible(rows, changes[i])
    ensures n < |changes| ==> !Admissible(rows, changes[n])
    ensures var p := Apply(rows, changes);
            && p.rows.Keys == rows.Keys && (p.ok <==> n == |changes|)
            && forall k :: k in rows ==>
                 p.rows[k] == if Latest(changes[..n], k).Some? then Latest(changes[..n], k).value else rows[k]
  {
    n := 0;
    while n < |changes| && Admissible(rows, changes[n])
      invariant n <= |changes| && forall i :: 0 <= i < n ==> Admissible(rows, changes[i])
    {
      n := n + 1;
    }
    ApplyMeans(rows, changes[..n]);
    assert forall i :: 0 <= i < n ==> changes[..n][i] == changes[i];
    if n < |changes| {
      PassEnds(rows, changes, n);
    } else {
      assert changes[..n] == changes;
    }
  }

  lemma {:induction false} FailureStays<K, M>(rows: map<K, M>, changes: seq<Change<K, M>>, n: nat)
    requires n <= |changes| && !Apply(rows, changes[..n]).ok
    ensures Apply(rows, changes) == Apply(rows, changes[..n])
    decreases |changes| - n
  {
    if n < |changes| {
      assert changes[..n + 1][..n] == changes[..n];
      FailureStays(rows, changes, n + 1);
    } else {
      assert changes[..n] == changes;
    }
  }

  /** The pass ends at the first entry that is not admissible. */
  lemma PassEnds<K, M>(rows: map<K, M>, changes: seq<Change<K, M>>, i: nat)
    requires i < |changes| && Apply(rows, changes[..i]).ok && !Admissible(rows, changes[i])
    ensures Apply(rows, changes) == Progress(Apply(rows, changes[..i]).rows, false)
  {
    assert changes[..i + 1][..i] == changes[..i];
    ApplyMeans(rows, changes[..i]);
    FailureStays(rows, changes, i + 1);
  }

  lemma PassGoesOn<K, M>(rows: map<K, M>, changes: seq<Change<K, M>>, i: nat)
    requires i < |changes| && Apply(rows, changes[..i]).ok && Admissible(rows, changes[i])
    ensures var p := Apply(rows, changes[..i]).rows;
            Apply(rows, changes[..i + 1])
            == Progress(if changes[i].Put? then p[changes[i].key := changes[i].material] else p, true)
  {
    assert changes[..i + 1][..i] == changes[..i];
    ApplyMeans(rows, changes[..i]);
  }
}

/**
 * Rotation of a user's account keys: validation against everything the user has encrypted,
 * followed by five update loops and the user record. There is no transaction around them.
 */
module KeyRotation {
  import opened Common
  import opened Replacement

  type UserId = string
  type Id = string
  type OrgId = string

  datatype Folder = Folder(user: UserId, name: string)
  /** An emergency access grant; it is rotated once it is confirmed or later. */
  datatype Grant = Grant(grantor: UserId, confirmed: bool, key: Option<string>)
  datatype Send = Send(user: Option<UserId>, body: string)
  datatype Cipher = Cipher(user: Option<UserId>, org: Option<OrgId>, body: string)
  datatype Kdf = Kdf(atype: int, iterations: int, memory: Option<int>, parallelism: Option<int>)
  datatype User = User(email: string, kdf: Kdf, publicKey: Option<string>,
                       privateKey: Option<string>, passwordHash: string, userKey: string)

  /** A user has at most one membership of an organization; its value is the reset password key. */
  type Memberships = map<(UserId, OrgId), Option<string>>

  datatype Db = Db(folders: map<Id, Folder>, grants: map<Id, Grant>, members: Memberships,
                   sends: map<Id, Send>, ciphers: map<Id, Cipher>, users: map<UserId, User>)

  datatype FolderData = FolderData(id: Option<Id>, name: string)
  datatype GrantData = GrantData(id: Id, key: string)
  datatype ResetData = ResetData(org: OrgId, key: string)
  /** `accepted` is the outcome of the per-send checks: owner, type, deletion date, text present. */
  datatype SendData = SendData(id: Option<Id>, body: string, accepted: bool)
  /** `accepted` is the outcome of the per-cipher checks: ownership policy, note size, folder, type data. */
  datatype CipherData = CipherData(id: Option<Id>, org: Option<OrgId>, body: string, accepted: bool)

  datatype KeyData = KeyData(folders: seq<FolderData>, grants: seq<GrantData>, resets: seq<ResetData>,
                             sends: seq<SendData>, ciphers: seq<CipherData>,
                             email: string, kdf: Kdf, publicKey: string,
                             privateKey: string, passwordHash: string, userKey: string)

  // ----- What the user holds, and what the request gives, per kind

  function FolderRows(t: map<Id, Folder>, u: UserId): map<Id, string> {
    map id | id in t && t[id].user == u :: t[id].name
  }

  function GrantRows(t: map<Id, Grant>, u: UserId): map<Id, Option<string>> {
    map id | id in t && t[id].grantor == u && t[id].confirmed :: t[id].key
  }

  function MemberRows(t: Memberships, u: UserId): map<(UserId, OrgId), Option<string>> {
    map m | m in t && m.0 == u && t[m].Some? :: t[m]
  }

  function SendRows(t: map<Id, Send>, u: UserId): map<Id, string> {
    map id | id in t && t[id].user == Some(u) :: t[id].body
  }

  function CipherRows(t: map<Id, Cipher>, u: UserId): map<Id, string> {
    map id | id in t && t[id].user == Some(u) && t[id].org.None? :: t[id].body
  }

  function FolderChange(d: FolderData): Change<Id, string> {
    if d.id.None? then Skip else Put(d.id.value, d.name)
  }

  function GrantChange(d: GrantData): Change<Id, Option<string>> {
    Put(d.id, Some(d.key))
  }

  function ResetChange(u: UserId, d: ResetData): Change<(UserId, OrgId), Option<string>> {
    Put((u, d.org), Some(d.key))
  }

  /** A send without an identifier makes the handler panic. */
  function SendChange(d: SendData): Change<Id, string> {
    if d.id.None? || !d.accepted then Refuse else Put(d.id.value, d.body)
  }

  /** Organization ciphers are passed over; a personal one without an identifier makes the handler panic. */
  function CipherChange(d: CipherData): Change<Id, string> {
    if d.org.Some? then Skip else if d.id.None? || !d.accepted then Refuse else Put(d.id.value, d.body)
  }

  function FolderChanges(ds: seq<FolderData>): (cs: seq<Change<Id, string>>)
    ensures |cs| == |ds| && forall i :: 0 <= i < |ds| ==> cs[i] == FolderChange(ds[i])
  {
    seq(|ds|, i requires 0 <= i < |ds| => FolderChange(ds[i]))
  }

  function GrantChanges(ds: seq<GrantData>): (cs: seq<Change<Id, Option<string>>>)
    ensures |cs| == |ds| && forall i :: 0 <= i < |ds| ==> cs[i] == GrantChange(ds[i])
  {
    seq(|ds|, i requires 0 <= i < |ds| => GrantChange(ds[i]))
  }

  function ResetChanges(u: UserId, ds: seq<ResetData>): (cs: seq<Change<(UserId, OrgId), Option<string>>>)
    ensures |cs| == |ds| && forall i :: 0 <= i < |ds| ==> cs[i] == ResetChange(u, ds[i])
  {
    seq(|ds|, i requires 0 <= i < |ds| => ResetChange(u, ds[i]))
  }

  function SendChanges(ds: seq<SendData>): (cs: seq<Change<Id, string>>)
    ensures |cs| == |ds| && forall i :: 0 <= i < |ds| ==> cs[i] == SendChange(ds[i])
  {
    seq(|ds|, i requires 0 <= i < |ds| => SendChange(ds[i]))
  }

  function CipherChanges(ds: seq<CipherData>): (cs: seq<Change<Id, string>>)
    ensures |cs| == |ds| && forall i :: 0 <= i < |ds| ==> cs[i] == CipherChange(ds[i])
  {
    seq(|ds|, i requires 0 <= i < |ds| => CipherChange(ds[i]))
  }

  // ----- Identifiers the request provides, as the validation collects them

  function ProvidedFolders(data: KeyData): set<Id> {
    set d | d in data.folders && d.id.Some? :: d.id.value
  }

  function ProvidedGrants(data: KeyData): set<Id> {
    set d | d in data.grants :: d.id
  }

  function ProvidedMembers(u: UserId, data: KeyData): set<(UserId, OrgId)> {
    set d | d in data.resets :: (u, d.org)
  }

  function ProvidedSends(data: KeyData): set<Id> {
    set d | d in data.sends && d.id.Some? :: d.id.value
  }

  function ProvidedCiphers(data: KeyData): set<Id> {
    set d | d in data.ciphers && d.org.None? && d.id.Some? :: d.id.value
  }

  predicate Validated(db: Db, u: UserId, data: KeyData)
    requires u in db.users
  {
    && db.users[u].kdf == data.kdf && db.users[u].email == data.email
    && db.users[u].publicKey == Some(data.publicKey)
    && CipherRows(db.ciphers, u).Keys <= ProvidedCiphers(data)
    && FolderRows(db.folders, u).Keys <= ProvidedFolders(data)
    && GrantRows(db.grants, u).Keys <= ProvidedGrants(data)
    && MemberRows(db.members, u).Keys <= ProvidedMembers(u, data)
    && SendRows(db.sends, u).Keys <= ProvidedSends(data)
  }

  // ----- The tables after a pass

  function WithFolders(t: map<Id, Folder>, rows: map<Id, string>): map<Id, Folder> {
    map id | id in t :: if id in rows then t[id].(name := rows[id]) else t[id]
  }

  function WithGrants(t: map<Id, Grant>, rows: map<Id, Option<string>>): map<Id, Grant> {
    map id | id in t :: if id in rows then t[id].(key := rows[id]) else t[id]
  }

  function WithMembers(t: Memberships, rows: Memberships): Memberships {
    map m | m in t :: if m in rows then rows[m] else t[m]
  }

  function WithSends(t: map<Id, Send>, rows: map<Id, string>): map<Id, Send> {
    map id | id in t :: if id in rows then t[id].(body := rows[id]) else t[id]
  }

  function WithCiphers(t: map<Id, Cipher>, rows: map<Id, string>): map<Id, Cipher> {
    map id | id in t :: if id in rows then t[id].(body := rows[id]) else t[id]
  }

  function WithUser(t: map<UserId, User>, u: UserId, data: KeyData): map<UserId, User>
    requires u in t
  {
    t[u := t[u].(privateKey := Some(data.privateKey), passwordHash := data.passwordHash, userKey := data.userKey)]
  }

  datatype Result = Result(db: Db, outcome: Outcome)

  /** Every pass carried out as far as it goes, and the user record replaced. */
  function Final(db: Db, u: UserId, data: KeyData): Db
    requires u in db.users
  {
    Db(WithFolders(db.folders, Apply(FolderRows(db.folders, u), FolderChanges(data.folders)).rows),
       WithGrants(db.grants, Apply(GrantRows(db.grants, u), GrantChanges(data.grants)).rows),
       WithMembers(db.members, Apply(MemberRows(db.members, u), ResetChanges(u, data.resets)).rows),
       WithSends(db.sends, Apply(SendRows(db.sends, u), SendChanges(data.sends)).rows),
       WithCiphers(db.ciphers, Apply(CipherRows(db.ciphers, u), CipherChanges(data.ciphers)).rows),
       WithUser(db.users, u, data))
  }

  /** What has been written when the loops completed as far as told: a failing one ends the handler. */
  function Stopped(db: Db, full: Db, f: bool, g: bool, m: bool, s: bool, c: bool): Db {
    Db(full.folders,
       if f then full.grants else db.grants,
       if g then full.members else db.members,
       if m then full.sends else db.sends,
       if s then full.ciphers else db.ciphers,
       if c then full.users else db.users)
  }

  /** The handler: two checks, the validation, five loops in this order, the user. A failing loop ends it. */
  function Rotate(db: Db, u: UserId, passwordOk: bool, notesOk: bool, data: KeyData): Result
    requires u in db.users
  {
    if !passwordOk || !notesOk || !Validated(db, u, data) then Result(db, Err)
    else
      var full := Final(db, u, data);
      var f := Apply(FolderRows(db.folders, u), FolderChanges(data.folders)).ok;
      var g := f && Apply(GrantRows(db.grants, u), GrantChanges(data.grants)).ok;
      var m := g && Apply(MemberRows(db.members, u), ResetChanges(u, data.resets)).ok;
      var s := m && Apply(SendRows(db.sends, u), SendChanges(data.sends)).ok;
      var c := s && Apply(CipherRows(db.ciphers, u), CipherChanges(data.ciphers)).ok;
      Result(Stopped(db, full, f, g, m, s, c), if c then Ok else Err)
  }
}
