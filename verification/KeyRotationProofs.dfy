/** What a key rotation leaves behind, and the handler itself against its description. */
module KeyRotationProofs {
  import opened Common
  import opened Replacement
  import opened KeyRotation

  // ----- Which records are rotated, by their columns

  predicate OwnFolder(f: Folder, u: UserId) {
    f.user == u
  }

  predicate OwnGrant(g: Grant, u: UserId) {
    g.grantor == u && g.confirmed
  }

  predicate OwnMember(m: (UserId, OrgId), key: Option<string>, u: UserId) {
    m.0 == u && key.Some?
  }

  predicate OwnSend(s: Send, u: UserId) {
    s.user == Some(u)
  }

  predicate OwnCipher(c: Cipher, u: UserId) {
    c.user == Some(u) && c.org.None?
  }

  /** An entry with an identifier that passes its checks, for a record that is to be rotated. */
  predicate SendPasses(t: map<Id, Send>, u: UserId, d: SendData) {
    d.id.Some? && d.accepted && d.id.value in t && OwnSend(t[d.id.value], u)
  }

  predicate CipherPasses(t: map<Id, Cipher>, u: UserId, d: CipherData) {
    d.id.Some? && d.accepted && d.id.value in t && OwnCipher(t[d.id.value], u)
  }

  // ----- Folders

  predicate NamesFolder(ds: seq<FolderData>, i: int, id: Id) {
    0 <= i < |ds| && ds[i].id == Some(id)
  }

  predicate LastFolder(ds: seq<FolderData>, i: int, id: Id) {
    NamesFolder(ds, i, id) && forall j :: i < j < |ds| ==> !NamesFolder(ds, j, id)
  }

  ghost predicate FoldersNamed(t: map<Id, Folder>, u: UserId, ds: seq<FolderData>) {
    forall id :: id in t && OwnFolder(t[id], u) ==> exists i :: NamesFolder(ds, i, id)
  }

  /** Every entry names a record that is to be rotated, or is passed over. */
  predicate FoldersKnown(t: map<Id, Folder>, u: UserId, ds: seq<FolderData>) {
    forall i :: 0 <= i < |ds| && ds[i].id.Some? ==>
      ds[i].id.value in t && OwnFolder(t[ds[i].id.value], u)
  }

  /** Each own record has the last material given for it, and the others are as before. */
  ghost predicate FoldersRotated(t: map<Id, Folder>, u: UserId, ds: seq<FolderData>, t': map<Id, Folder>) {
    && t'.Keys == t.Keys
    && (forall id :: id in t && !OwnFolder(t[id], u) ==> t'[id] == t[id])
    && (forall id :: id in t && OwnFolder(t[id], u) ==>
          exists i :: LastFolder(ds, i, id) && t'[id] == Folder(t[id].user, ds[i].name))
  }

  /** Each record is as before, or is an own one with some material given for it. */
  ghost predicate FoldersPartly(t: map<Id, Folder>, u: UserId, ds: seq<FolderData>, t': map<Id, Folder>) {
    && t'.Keys == t.Keys
    && (forall id :: id in t && t'[id] != t[id] ==>
          && OwnFolder(t[id], u)
          && exists i :: NamesFolder(ds, i, id) && t'[id] == Folder(t[id].user, ds[i].name))
  }

  lemma FolderPassIff(t: map<Id, Folder>, u: UserId, ds: seq<FolderData>)
    ensures Apply(FolderRows(t, u), FolderChanges(ds)).ok <==> FoldersKnown(t, u, ds)
  {
    var rows, cs := FolderRows(t, u), FolderChanges(ds);
    ApplyMeans(rows, cs);
    if Apply(rows, cs).ok {
      forall i | 0 <= i < |ds| && ds[i].id.Some?
        ensures ds[i].id.value in t && OwnFolder(t[ds[i].id.value], u)
      {
        assert Admissible(rows, cs[i]);
      }
    }
  }

  /** The last entry that names a record gives it its latest material. */
  lemma FolderLatestAt(t: map<Id, Folder>, u: UserId, ds: seq<FolderData>, id: Id) returns (i: int)
    requires FoldersKnown(t, u, ds) && exists n :: NamesFolder(ds, n, id)
    ensures LastFolder(ds, i, id) && Latest(FolderChanges(ds), id) == Some(ds[i].name)
  {
    var cs := FolderChanges(ds);
    var n :| NamesFolder(ds, n, id);
    assert cs[n].Put? && cs[n].key == id;
    i := LatestAt(cs, id);
    assert cs[i] == FolderChange(ds[i]);
    forall j | i < j < |ds| ensures !NamesFolder(ds, j, id) {
      assert !(cs[j].Put? && cs[j].key == id);
    }
  }

  lemma FolderIsRotated(t: map<Id, Folder>, u: UserId, ds: seq<FolderData>, id: Id)
    requires FoldersKnown(t, u, ds) && id in t && OwnFolder(t[id], u) && exists n :: NamesFolder(ds, n, id)
    ensures var t' := WithFolders(t, Apply(FolderRows(t, u), FolderChanges(ds)).rows);
            exists i :: LastFolder(ds, i, id) && t'[id] == Folder(t[id].user, ds[i].name)
  {
    ApplyMeans(FolderRows(t, u), FolderChanges(ds));
    FolderPassIff(t, u, ds);
    var i := FolderLatestAt(t, u, ds, id);
  }

  lemma FoldersAreRotated(t: map<Id, Folder>, u: UserId, ds: seq<FolderData>)
    requires FoldersNamed(t, u, ds) && FoldersKnown(t, u, ds)
    ensures FoldersRotated(t, u, ds, WithFolders(t, Apply(FolderRows(t, u), FolderChanges(ds)).rows))
  {
    var t' := WithFolders(t, Apply(FolderRows(t, u), FolderChanges(ds)).rows);
    ApplyMeans(FolderRows(t, u), FolderChanges(ds));
    forall id | id in t && OwnFolder(t[id], u)
      ensures exists i :: LastFolder(ds, i, id) && t'[id] == Folder(t[id].user, ds[i].name)
    {
      FolderIsRotated(t, u, ds, id);
    }
  }

  lemma FoldersArePartly(t: map<Id, Folder>, u: UserId, ds: seq<FolderData>)
    ensures FoldersPartly(t, u, ds, WithFolders(t, Apply(FolderRows(t, u), FolderChanges(ds)).rows))
  {
    var rows, cs := FolderRows(t, u), FolderChanges(ds);
    var t' := WithFolders(t, Apply(rows, cs).rows);
    ApplyMeans(rows, cs);
    forall id | id in t && t'[id] != t[id]
      ensures OwnFolder(t[id], u)
      ensures exists i :: NamesFolder(ds, i, id) && t'[id] == Folder(t[id].user, ds[i].name)
    {
      var i :| 0 <= i < |cs| && cs[i] == Put(id, Apply(rows, cs).rows[id]);
      assert NamesFolder(ds, i, id);
    }
  }

  // ----- Grants

  predicate NamesGrant(ds: seq<GrantData>, i: int, id: Id) {
    0 <= i < |ds| && ds[i].id == id
  }

  predicate LastGrant(ds: seq<GrantData>, i: int, id: Id) {
    NamesGrant(ds, i, id) && forall j :: i < j < |ds| ==> !NamesGrant(ds, j, id)
  }

  ghost predicate GrantsNamed(t: map<Id, Grant>, u: UserId, ds: seq<GrantData>) {
    forall id :: id in t && OwnGrant(t[id], u) ==> exists i :: NamesGrant(ds, i, id)
  }

  /** Every entry names a record that is to be rotated. */
  predicate GrantsKnown(t: map<Id, Grant>, u: UserId, ds: seq<GrantData>) {
    forall i :: 0 <= i < |ds| ==>
      ds[i].id in t && OwnGrant(t[ds[i].id], u)
  }

  /** Each own record has the last material given for it, and the others are as before. */
  ghost predicate GrantsRotated(t: map<Id, Grant>, u: UserId, ds: seq<GrantData>, t': map<Id, Grant>) {
    && t'.Keys == t.Keys
    && (forall id :: id in t && !OwnGrant(t[id], u) ==> t'[id] == t[id])
    && (forall id :: id in t && OwnGrant(t[id], u) ==>
          exists i :: LastGrant(ds, i, id) && t'[id] == Grant(t[id].grantor, t[id].confirmed, Some(ds[i].key)))
  }

  /** Each record is as before, or is an own one with some material given for it. */
  ghost predicate GrantsPartly(t: map<Id, Grant>, u: UserId, ds: seq<GrantData>, t': map<Id, Grant>) {
    && t'.Keys == t.Keys
    && (forall id :: id in t && t'[id] != t[id] ==>
          && OwnGrant(t[id], u)
          && exists i :: NamesGrant(ds, i, id) && t'[id] == Grant(t[id].grantor, t[id].confirmed, Some(ds[i].key)))
  }

  lemma GrantPassIff(t: map<Id, Grant>, u: UserId, ds: seq<GrantData>)
    ensures Apply(GrantRows(t, u), GrantChanges(ds)).ok <==> GrantsKnown(t, u, ds)
  {
    var rows, cs := GrantRows(t, u), GrantChanges(ds);
    ApplyMeans(rows, cs);
    if Apply(rows, cs).ok {
      forall i | 0 <= i < |ds|
        ensures ds[i].id in t && OwnGrant(t[ds[i].id], u)
      {
        assert Admissible(rows, cs[i]);
      }
    }
  }

  /** The last entry that names a record gives it its latest material. */
  lemma GrantLatestAt(t: map<Id, Grant>, u: UserId, ds: seq<GrantData>, id: Id) returns (i: int)
    requires GrantsKnown(t, u, ds) && exists n :: NamesGrant(ds, n, id)
    ensures LastGrant(ds, i, id) && Latest(GrantChanges(ds), id) == Some(Some(ds[i].key))
  {
    var cs := GrantChanges(ds);
    var n :| NamesGrant(ds, n, id);
    assert cs[n].Put? && cs[n].key == id;
    i := LatestAt(cs, id);
    assert cs[i] == GrantChange(ds[i]);
    forall j | i < j < |ds| ensures !NamesGrant(ds, j, id) {
      assert !(cs[j].Put? && cs[j].key == id);
    }
  }

  lemma GrantIsRotated(t: map<Id, Grant>, u: UserId, ds: seq<GrantData>, id: Id)
    requires GrantsKnown(t, u, ds) && id in t && OwnGrant(t[id], u) && exists n :: NamesGrant(ds, n, id)
    ensures var t' := WithGrants(t, Apply(GrantRows(t, u), GrantChanges(ds)).rows);
            exists i :: LastGrant(ds, i, id) && t'[id] == Grant(t[id].grantor, t[id].confirmed, Some(ds[i].key))
  {
    ApplyMeans(GrantRows(t, u), GrantChanges(ds));
    GrantPassIff(t, u, ds);
    var i := GrantLatestAt(t, u, ds, id);
  }

  lemma GrantsAreRotated(t: map<Id, Grant>, u: UserId, ds: seq<GrantData>)
    requires GrantsNamed(t, u, ds) && GrantsKnown(t, u, ds)
    ensures GrantsRotated(t, u, ds, WithGrants(t, Apply(GrantRows(t, u), GrantChanges(ds)).rows))
  {
    var t' := WithGrants(t, Apply(GrantRows(t, u), GrantChanges(ds)).rows);
    ApplyMeans(GrantRows(t, u), GrantChanges(ds));
    forall id | id in t && OwnGrant(t[id], u)
      ensures exists i :: LastGrant(ds, i, id) && t'[id] == Grant(t[id].grantor, t[id].confirmed, Some(ds[i].key))
    {
      GrantIsRotated(t, u, ds, id);
    }
  }

  lemma GrantsArePartly(t: map<Id, Grant>, u: UserId, ds: seq<GrantData>)
    ensures GrantsPartly(t, u, ds, WithGrants(t, Apply(GrantRows(t, u), GrantChanges(ds)).rows))
  {
    var rows, cs := GrantRows(t, u), GrantChanges(ds);
    var t' := WithGrants(t, Apply(rows, cs).rows);
    ApplyMeans(rows, cs);
    forall id | id in t && t'[id] != t[id]
      ensures OwnGrant(t[id], u)
      ensures exists i :: NamesGrant(ds, i, id) && t'[id] == Grant(t[id].grantor, t[id].confirmed, Some(ds[i].key))
    {
      var i :| 0 <= i < |cs| && cs[i] == Put(id, Apply(rows, cs).rows[id]);
      assert NamesGrant(ds, i, id);
    }
  }

  // ----- Members

  predicate NamesMember(ds: seq<ResetData>, i: int, m: (UserId, OrgId)) {
    0 <= i < |ds| && ds[i].org == m.1
  }

  predicate LastMember(ds: seq<ResetData>, i: int, m: (UserId, OrgId)) {
    NamesMember(ds, i, m) && forall j :: i < j < |ds| ==> !NamesMember(ds, j, m)
  }

  ghost predicate MembersNamed(t: Memberships, u: UserId, ds: seq<ResetData>) {
    forall m :: m in t && OwnMember(m, t[m], u) ==> exists i :: NamesMember(ds, i, m)
  }

  /** Every entry names a record that is to be rotated. */
  predicate MembersKnown(t: Memberships, u: UserId, ds: seq<ResetData>) {
    forall i :: 0 <= i < |ds| ==>
      (u, ds[i].org) in t && t[(u, ds[i].org)].Some?
  }

  /** Each own record has the last material given for it, and the others are as before. */
  ghost predicate MembersRotated(t: Memberships, u: UserId, ds: seq<ResetData>, t': Memberships) {
    && t'.Keys == t.Keys
    && (forall m :: m in t && !OwnMember(m, t[m], u) ==> t'[m] == t[m])
    && (forall m :: m in t && OwnMember(m, t[m], u) ==>
          exists i :: LastMember(ds, i, m) && t'[m] == Some(ds[i].key))
  }

  /** Each record is as before, or is an own one with some material given for it. */
  ghost predicate MembersPartly(t: Memberships, u: UserId, ds: seq<ResetData>, t': Memberships) {
    && t'.Keys == t.Keys
    && (forall m :: m in t && t'[m] != t[m] ==>
          && OwnMember(m, t[m], u)
          && exists i :: NamesMember(ds, i, m) && t'[m] == Some(ds[i].key))
  }

  lemma MemberPassIff(t: Memberships, u: UserId, ds: seq<ResetData>)
    ensures Apply(MemberRows(t, u), ResetChanges(u, ds)).ok <==> MembersKnown(t, u, ds)
  {
    var rows, cs := MemberRows(t, u), ResetChanges(u, ds);
    ApplyMeans(rows, cs);
    if Apply(rows, cs).ok {
      forall i | 0 <= i < |ds|
        ensures (u, ds[i].org) in t && t[(u, ds[i].org)].Some?
      {
        assert Admissible(rows, cs[i]);
      }
    }
  }

  /** The last entry that names a record gives it its latest material. */
  lemma MemberLatestAt(t: Memberships, u: UserId, ds: seq<ResetData>, m: (UserId, OrgId)) returns (i: int)
    requires MembersKnown(t, u, ds) && exists n :: NamesMember(ds, n, m) && m.0 == u
    ensures LastMember(ds, i, m) && Latest(ResetChanges(u, ds), m) == Some(Some(ds[i].key))
  {
    var cs := ResetChanges(u, ds);
    var n :| NamesMember(ds, n, m);
    assert cs[n].Put? && cs[n].key == m;
    i := LatestAt(cs, m);
    assert cs[i] == ResetChange(u, ds[i]);
    forall j | i < j < |ds| ensures !NamesMember(ds, j, m) {
      assert !(cs[j].Put? && cs[j].key == m);
    }
  }

  lemma MemberIsRotated(t: Memberships, u: UserId, ds: seq<ResetData>, m: (UserId, OrgId))
    requires MembersKnown(t, u, ds) && m in t && OwnMember(m, t[m], u) && exists n :: NamesMember(ds, n, m)
    ensures var t' := WithMembers(t, Apply(MemberRows(t, u), ResetChanges(u, ds)).rows);
            exists i :: LastMember(ds, i, m) && t'[m] == Some(ds[i].key)
  {
    ApplyMeans(MemberRows(t, u), ResetChanges(u, ds));
    MemberPassIff(t, u, ds);
    var i := MemberLatestAt(t, u, ds, m);
  }

  lemma MembersAreRotated(t: Memberships, u: UserId, ds: seq<ResetData>)
    requires MembersNamed(t, u, ds) && MembersKnown(t, u, ds)
    ensures MembersRotated(t, u, ds, WithMembers(t, Apply(MemberRows(t, u), ResetChanges(u, ds)).rows))
  {
    var t' := WithMembers(t, Apply(MemberRows(t, u), ResetChanges(u, ds)).rows);
    ApplyMeans(MemberRows(t, u), ResetChanges(u, ds));
    forall m | m in t && OwnMember(m, t[m], u)
      ensures exists i :: LastMember(ds, i, m) && t'[m] == Some(ds[i].key)
    {
      MemberIsRotated(t, u, ds, m);
    }
  }

  lemma MembersArePartly(t: Memberships, u: UserId, ds: seq<ResetData>)
    ensures MembersPartly(t, u, ds, WithMembers(t, Apply(MemberRows(t, u), ResetChanges(u, ds)).rows))
  {
    var rows, cs := MemberRows(t, u), ResetChanges(u, ds);
    var t' := WithMembers(t, Apply(rows, cs).rows);
    ApplyMeans(rows, cs);
    forall m | m in t && t'[m] != t[m]
      ensures OwnMember(m, t[m], u)
      ensures exists i :: NamesMember(ds, i, m) && t'[m] == Some(ds[i].key)
    {
      var i :| 0 <= i < |cs| && cs[i] == Put(m, Apply(rows, cs).rows[m]);
      assert NamesMember(ds, i, m);
    }
  }

  // ----- Sends

  predicate NamesSend(ds: seq<SendData>, i: int, id: Id) {
    0 <= i < |ds| && ds[i].id == Some(id)
  }

  predicate LastSend(ds: seq<SendData>, i: int, id: Id) {
    NamesSend(ds, i, id) && forall j :: i < j < |ds| ==> !NamesSend(ds, j, id)
  }

  ghost predicate SendsNamed(t: map<Id, Send>, u: UserId, ds: seq<SendData>) {
    forall id :: id in t && OwnSend(t[id], u) ==> exists i :: NamesSend(ds, i, id)
  }

  /** Every entry names a record that is to be rotated and passes its checks. */
  predicate SendsKnown(t: map<Id, Send>, u: UserId, ds: seq<SendData>) {
    forall i :: 0 <= i < |ds| ==>
      SendPasses(t, u, ds[i])
  }

  /** Each own record has the last material given for it, and the others are as before. */
  ghost predicate SendsRotated(t: map<Id, Send>, u: UserId, ds: seq<SendData>, t': map<Id, Send>) {
    && t'.Keys == t.Keys
    && (forall id :: id in t && !OwnSend(t[id], u) ==> t'[id] == t[id])
    && (forall id :: id in t && OwnSend(t[id], u) ==>
          exists i :: LastSend(ds, i, id) && t'[id] == Send(t[id].user, ds[i].body))
  }

  /** Each record is as before, or is an own one with some material given for it. */
  ghost predicate SendsPartly(t: map<Id, Send>, u: UserId, ds: seq<SendData>, t': map<Id, Send>) {
    && t'.Keys == t.Keys
    && (forall id :: id in t && t'[id] != t[id] ==>
          && OwnSend(t[id], u)
          && exists i :: NamesSend(ds, i, id) && t'[id] == Send(t[id].user, ds[i].body))
  }

  lemma SendPassIff(t: map<Id, Send>, u: UserId, ds: seq<SendData>)
    ensures Apply(SendRows(t, u), SendChanges(ds)).ok <==> SendsKnown(t, u, ds)
  {
    var rows, cs := SendRows(t, u), SendChanges(ds);
    ApplyMeans(rows, cs);
    if Apply(rows, cs).ok {
      forall i | 0 <= i < |ds|
        ensures SendPasses(t, u, ds[i])
      {
        assert Admissible(rows, cs[i]);
      }
    }
  }

  /** The last entry that names a record gives it its latest material. */
  lemma SendLatestAt(t: map<Id, Send>, u: UserId, ds: seq<SendData>, id: Id) returns (i: int)
    requires SendsKnown(t, u, ds) && exists n :: NamesSend(ds, n, id)
    ensures LastSend(ds, i, id) && Latest(SendChanges(ds), id) == Some(ds[i].body)
  {
    var cs := SendChanges(ds);
    var n :| NamesSend(ds, n, id);
    assert cs[n].Put? && cs[n].key == id;
    i := LatestAt(cs, id);
    assert cs[i] == SendChange(ds[i]);
    forall j | i < j < |ds| ensures !NamesSend(ds, j, id) {
      assert !(cs[j].Put? && cs[j].key == id);
    }
  }

  lemma SendIsRotated(t: map<Id, Send>, u: UserId, ds: seq<SendData>, id: Id)
    requires SendsKnown(t, u, ds) && id in t && OwnSend(t[id], u) && exists n :: NamesSend(ds, n, id)
    ensures var t' := WithSends(t, Apply(SendRows(t, u), SendChanges(ds)).rows);
            exists i :: LastSend(ds, i, id) && t'[id] == Send(t[id].user, ds[i].body)
  {
    ApplyMeans(SendRows(t, u), SendChanges(ds));
    SendPassIff(t, u, ds);
    var i := SendLatestAt(t, u, ds, id);
  }

  lemma SendsAreRotated(t: map<Id, Send>, u: UserId, ds: seq<SendData>)
    requires SendsNamed(t, u, ds) && SendsKnown(t, u, ds)
    ensures SendsRotated(t, u, ds, WithSends(t, Apply(SendRows(t, u), SendChanges(ds)).rows))
  {
    var t' := WithSends(t, Apply(SendRows(t, u), SendChanges(ds)).rows);
    ApplyMeans(SendRows(t, u), SendChanges(ds));
    forall id | id in t && OwnSend(t[id], u)
      ensures exists i :: LastSend(ds, i, id) && t'[id] == Send(t[id].user, ds[i].body)
    {
      SendIsRotated(t, u, ds, id);
    }
  }

  lemma SendsArePartly(t: map<Id, Send>, u: UserId, ds: seq<SendData>)
    ensures SendsPartly(t, u, ds, WithSends(t, Apply(SendRows(t, u), SendChanges(ds)).rows))
  {
    var rows, cs := SendRows(t, u), SendChanges(ds);
    var t' := WithSends(t, Apply(rows, cs).rows);
    ApplyMeans(rows, cs);
    forall id | id in t && t'[id] != t[id]
      ensures OwnSend(t[id], u)
      ensures exists i :: NamesSend(ds, i, id) && t'[id] == Send(t[id].user, ds[i].body)
    {
      var i :| 0 <= i < |cs| && cs[i] == Put(id, Apply(rows, cs).rows[id]);
      assert NamesSend(ds, i, id);
    }
  }

  // ----- Ciphers

  predicate NamesCipher(ds: seq<CipherData>, i: int, id: Id) {
    0 <= i < |ds| && ds[i].org.None? && ds[i].id == Some(id)
  }

  predicate LastCipher(ds: seq<CipherData>, i: int, id: Id) {
    NamesCipher(ds, i, id) && forall j :: i < j < |ds| ==> !NamesCipher(ds, j, id)
  }

  ghost predicate CiphersNamed(t: map<Id, Cipher>, u: UserId, ds: seq<CipherData>) {
    forall id :: id in t && OwnCipher(t[id], u) ==> exists i :: NamesCipher(ds, i, id)
  }

  /** Every entry names a record that is to be rotated and passes its checks, or is passed over. */
  predicate CiphersKnown(t: map<Id, Cipher>, u: UserId, ds: seq<CipherData>) {
    forall i :: 0 <= i < |ds| && ds[i].org.None? ==>
      CipherPasses(t, u, ds[i])
  }

  /** Each own record has the last material given for it, and the others are as before. */
  ghost predicate CiphersRotated(t: map<Id, Cipher>, u: UserId, ds: seq<CipherData>, t': map<Id, Cipher>) {
    && t'.Keys == t.Keys
    && (forall id :: id in t && !OwnCipher(t[id], u) ==> t'[id] == t[id])
    && (forall id :: id in t && OwnCipher(t[id], u) ==>
          exists i :: LastCipher(ds, i, id) && t'[id] == Cipher(t[id].user, t[id].org, ds[i].body))
  }

  /** Each record is as before, or is an own one with some material given for it. */
  ghost predicate CiphersPartly(t: map<Id, Cipher>, u: UserId, ds: seq<CipherData>, t': map<Id, Cipher>) {
    && t'.Keys == t.Keys
    && (forall id :: id in t && t'[id] != t[id] ==>
          && OwnCipher(t[id], u)
          && exists i :: NamesCipher(ds, i, id) && t'[id] == Cipher(t[id].user, t[id].org, ds[i].body))
  }

  lemma CipherPassIff(t: map<Id, Cipher>, u: UserId, ds: seq<CipherData>)
    ensures Apply(CipherRows(t, u), CipherChanges(ds)).ok <==> CiphersKnown(t, u, ds)
  {
    var rows, cs := CipherRows(t, u), CipherChanges(ds);
    ApplyMeans(rows, cs);
    if Apply(rows, cs).ok {
      forall i | 0 <= i < |ds| && ds[i].org.None?
        ensures CipherPasses(t, u, ds[i])
      {
        assert Admissible(rows, cs[i]);
      }
    }
  }

  /** The last entry that names a record gives it its latest material. */
  lemma CipherLatestAt(t: map<Id, Cipher>, u: UserId, ds: seq<CipherData>, id: Id) returns (i: int)
    requires CiphersKnown(t, u, ds) && exists n :: NamesCipher(ds, n, id)
    ensures LastCipher(ds, i, id) && Latest(CipherChanges(ds), id) == Some(ds[i].body)
  {
    var cs := CipherChanges(ds);
    var n :| NamesCipher(ds, n, id);
    assert cs[n].Put? && cs[n].key == id;
    i := LatestAt(cs, id);
    assert cs[i] == CipherChange(ds[i]);
    forall j | i < j < |ds| ensures !NamesCipher(ds, j, id) {
      assert !(cs[j].Put? && cs[j].key == id);
    }
  }

  lemma CipherIsRotated(t: map<Id, Cipher>, u: UserId, ds: seq<CipherData>, id: Id)
    requires CiphersKnown(t, u, ds) && id in t && OwnCipher(t[id], u) && exists n :: NamesCipher(ds, n, id)
    ensures var t' := WithCiphers(t, Apply(CipherRows(t, u), CipherChanges(ds)).rows);
            exists i :: LastCipher(ds, i, id) && t'[id] == Cipher(t[id].user, t[id].org, ds[i].body)
  {
    ApplyMeans(CipherRows(t, u), CipherChanges(ds));
    CipherPassIff(t, u, ds);
    var i := CipherLatestAt(t, u, ds, id);
  }

  lemma CiphersAreRotated(t: map<Id, Cipher>, u: UserId, ds: seq<CipherData>)
    requires CiphersNamed(t, u, ds) && CiphersKnown(t, u, ds)
    ensures CiphersRotated(t, u, ds, WithCiphers(t, Apply(CipherRows(t, u), CipherChanges(ds)).rows))
  {
    var t' := WithCiphers(t, Apply(CipherRows(t, u), CipherChanges(ds)).rows);
    ApplyMeans(CipherRows(t, u), CipherChanges(ds));
    forall id | id in t && OwnCipher(t[id], u)
      ensures exists i :: LastCipher(ds, i, id) && t'[id] == Cipher(t[id].user, t[id].org, ds[i].body)
    {
      CipherIsRotated(t, u, ds, id);
    }
  }

  lemma CiphersArePartly(t: map<Id, Cipher>, u: UserId, ds: seq<CipherData>)
    ensures CiphersPartly(t, u, ds, WithCiphers(t, Apply(CipherRows(t, u), CipherChanges(ds)).rows))
  {
    var rows, cs := CipherRows(t, u), CipherChanges(ds);
    var t' := WithCiphers(t, Apply(rows, cs).rows);
    ApplyMeans(rows, cs);
    forall id | id in t && t'[id] != t[id]
      ensures OwnCipher(t[id], u)
      ensures exists i :: NamesCipher(ds, i, id) && t'[id] == Cipher(t[id].user, t[id].org, ds[i].body)
    {
      var i :| 0 <= i < |cs| && cs[i] == Put(id, Apply(rows, cs).rows[id]);
      assert NamesCipher(ds, i, id);
    }
  }

  // ----- The request as a whole

  predicate KeepsIdentity(user: User, data: KeyData) {
    user.kdf == data.kdf && user.email == data.email && user.publicKey == Some(data.publicKey)
  }

  /** The request names every record that is to be rotated. */
  ghost predicate NamesAll(db: Db, u: UserId, data: KeyData) {
    && FoldersNamed(db.folders, u, data.folders) && GrantsNamed(db.grants, u, data.grants)
    && MembersNamed(db.members, u, data.resets) && SendsNamed(db.sends, u, data.sends)
    && CiphersNamed(db.ciphers, u, data.ciphers)
  }

  /** The request names nothing else, and all its entries pass their checks. */
  predicate NamesNoOther(db: Db, u: UserId, data: KeyData) {
    && FoldersKnown(db.folders, u, data.folders) && GrantsKnown(db.grants, u, data.grants)
    && MembersKnown(db.members, u, data.resets) && SendsKnown(db.sends, u, data.sends)
    && CiphersKnown(db.ciphers, u, data.ciphers)
  }

  lemma FoldersAreProvided(db: Db, u: UserId, data: KeyData)
    ensures FolderRows(db.folders, u).Keys <= ProvidedFolders(data) <==> FoldersNamed(db.folders, u, data.folders)
  {
    forall id | id in db.folders && OwnFolder(db.folders[id], u)
      ensures id in ProvidedFolders(data) <==> exists i :: NamesFolder(data.folders, i, id)
    {
      if id in ProvidedFolders(data) {
        var d :| d in data.folders && d.id == Some(id);
        var i :| 0 <= i < |data.folders| && data.folders[i] == d;
        assert NamesFolder(data.folders, i, id);
      }
      if i :| NamesFolder(data.folders, i, id) {
        assert data.folders[i] in data.folders;
      }
    }
  }

  lemma GrantsAreProvided(db: Db, u: UserId, data: KeyData)
    ensures GrantRows(db.grants, u).Keys <= ProvidedGrants(data) <==> GrantsNamed(db.grants, u, data.grants)
  {
    forall id | id in db.grants && OwnGrant(db.grants[id], u)
      ensures id in ProvidedGrants(data) <==> exists i :: NamesGrant(data.grants, i, id)
    {
      if id in ProvidedGrants(data) {
        var d :| d in data.grants && d.id == id;
        var i :| 0 <= i < |data.grants| && data.grants[i] == d;
        assert NamesGrant(data.grants, i, id);
      }
      if i :| NamesGrant(data.grants, i, id) {
        assert data.grants[i] in data.grants;
      }
    }
  }

  lemma MembersAreProvided(db: Db, u: UserId, data: KeyData)
    ensures MemberRows(db.members, u).Keys <= ProvidedMembers(u, data) <==> MembersNamed(db.members, u, data.resets)
  {
    forall m | m in db.members && OwnMember(m, db.members[m], u)
      ensures m in ProvidedMembers(u, data) <==> exists i :: NamesMember(data.resets, i, m)
    {
      if m in ProvidedMembers(u, data) {
        var d :| d in data.resets && (u, d.org) == m;
        var i :| 0 <= i < |data.resets| && data.resets[i] == d;
        assert NamesMember(data.resets, i, m);
      }
      if i :| NamesMember(data.resets, i, m) {
        assert data.resets[i] in data.resets;
      }
    }
  }

  lemma SendsAreProvided(db: Db, u: UserId, data: KeyData)
    ensures SendRows(db.sends, u).Keys <= ProvidedSends(data) <==> SendsNamed(db.sends, u, data.sends)
  {
    forall id | id in db.sends && OwnSend(db.sends[id], u)
      ensures id in ProvidedSends(data) <==> exists i :: NamesSend(data.sends, i, id)
    {
      if id in ProvidedSends(data) {
        var d :| d in data.sends && d.id == Some(id);
        var i :| 0 <= i < |data.sends| && data.sends[i] == d;
        assert NamesSend(data.sends, i, id);
      }
      if i :| NamesSend(data.sends, i, id) {
        assert data.sends[i] in data.sends;
      }
    }
  }

  lemma CiphersAreProvided(db: Db, u: UserId, data: KeyData)
    ensures CipherRows(db.ciphers, u).Keys <= ProvidedCiphers(data) <==> CiphersNamed(db.ciphers, u, data.ciphers)
  {
    forall id | id in db.ciphers && OwnCipher(db.ciphers[id], u)
      ensures id in ProvidedCiphers(data) <==> exists i :: NamesCipher(data.ciphers, i, id)
    {
      if id in ProvidedCiphers(data) {
        var d :| d in data.ciphers && d.org.None? && d.id == Some(id);
        var i :| 0 <= i < |data.ciphers| && data.ciphers[i] == d;
        assert NamesCipher(data.ciphers, i, id);
      }
      if i :| NamesCipher(data.ciphers, i, id) {
        assert data.ciphers[i] in data.ciphers;
      }
    }
  }

  /** What the validation accepts, by columns. */
  lemma {:induction false} ValidatedIff(db: Db, u: UserId, data: KeyData)
    requires u in db.users
    ensures Validated(db, u, data) <==> KeepsIdentity(db.users[u], data) && NamesAll(db, u, data)
  {
    FoldersAreProvided(db, u, data);
    GrantsAreProvided(db, u, data);
    MembersAreProvided(db, u, data);
    SendsAreProvided(db, u, data);
    CiphersAreProvided(db, u, data);
  }

  lemma PassesIff(db: Db, u: UserId, data: KeyData)
    ensures Apply(FolderRows(db.folders, u), FolderChanges(data.folders)).ok
            <==> FoldersKnown(db.folders, u, data.folders)
    ensures Apply(GrantRows(db.grants, u), GrantChanges(data.grants)).ok
            <==> GrantsKnown(db.grants, u, data.grants)
    ensures Apply(MemberRows(db.members, u), ResetChanges(u, data.resets)).ok
            <==> MembersKnown(db.members, u, data.resets)
    ensures Apply(SendRows(db.sends, u), SendChanges(data.sends)).ok
            <==> SendsKnown(db.sends, u, data.sends)
    ensures Apply(CipherRows(db.ciphers, u), CipherChanges(data.ciphers)).ok
            <==> CiphersKnown(db.ciphers, u, data.ciphers)
  {
    FolderPassIff(db.folders, u, data.folders);
    GrantPassIff(db.grants, u, data.grants);
    MemberPassIff(db.members, u, data.resets);
    SendPassIff(db.sends, u, data.sends);
    CipherPassIff(db.ciphers, u, data.ciphers);
  }

  // ----- Success

  /**
   * A rotation succeeds exactly for a correct password, valid notes, unchanged identity and a request that names each
   * record and no other, all of them with entries that pass their checks.
   */
  lemma {:induction false} RotationSucceedsIff(db: Db, u: UserId, passwordOk: bool, notesOk: bool, data: KeyData)
    requires u in db.users
    ensures Rotate(db, u, passwordOk, notesOk, data).outcome == Ok
            <==> && passwordOk && notesOk && KeepsIdentity(db.users[u], data)
                 && NamesAll(db, u, data) && NamesNoOther(db, u, data)
  {
    ValidatedIff(db, u, data);
    PassesIff(db, u, data);
  }

  /** All five kinds of the user's records, each with the last material the request gives for it, and the new user. */
  ghost predicate Rotated(db: Db, u: UserId, data: KeyData, after: Db)
    requires u in db.users
  {
    && FoldersRotated(db.folders, u, data.folders, after.folders)
    && GrantsRotated(db.grants, u, data.grants, after.grants)
    && MembersRotated(db.members, u, data.resets, after.members)
    && SendsRotated(db.sends, u, data.sends, after.sends)
    && CiphersRotated(db.ciphers, u, data.ciphers, after.ciphers)
    && after.users == db.users[u := User(db.users[u].email, db.users[u].kdf, db.users[u].publicKey,
                                         Some(data.privateKey), data.passwordHash, data.userKey)]
  }

  /**
   * After a success every personal cipher, folder, confirmed grant, reset password membership and send of the user
   * carries the last new material the request gives for it and keeps its other columns; the user has the new private
   * key, password hash and user key and keeps address, key derivation and public key; nothing else has changed.
   */
  lemma {:induction false} RotationReplacesAll(db: Db, u: UserId, passwordOk: bool, notesOk: bool, data: KeyData)
    requires u in db.users && Rotate(db, u, passwordOk, notesOk, data).outcome == Ok
    ensures Rotated(db, u, data, Rotate(db, u, passwordOk, notesOk, data).db)
  {
    RotationSucceedsIff(db, u, passwordOk, notesOk, data);
    PassesIff(db, u, data);
    FoldersAreRotated(db.folders, u, data.folders);
    GrantsAreRotated(db.grants, u, data.grants);
    MembersAreRotated(db.members, u, data.resets);
    SendsAreRotated(db.sends, u, data.sends);
    CiphersAreRotated(db.ciphers, u, data.ciphers);
  }

  /** The materials in a request. */
  ghost predicate AllGiven(data: KeyData, isNew: string -> bool) {
    && (forall i :: 0 <= i < |data.folders| ==> isNew(data.folders[i].name))
    && (forall i :: 0 <= i < |data.grants| ==> isNew(data.grants[i].key))
    && (forall i :: 0 <= i < |data.resets| ==> isNew(data.resets[i].key))
    && (forall i :: 0 <= i < |data.sends| ==> isNew(data.sends[i].body))
    && (forall i :: 0 <= i < |data.ciphers| ==> isNew(data.ciphers[i].body))
    && isNew(data.privateKey)
  }

  /** What the user has stored. */
  ghost predicate AllStored(db: Db, u: UserId, isNew: string -> bool)
    requires u in db.users
  {
    && (forall id :: id in db.folders && OwnFolder(db.folders[id], u) ==> isNew(db.folders[id].name))
    && (forall id :: id in db.grants && OwnGrant(db.grants[id], u) ==>
          db.grants[id].key.Some? && isNew(db.grants[id].key.value))
    && (forall m :: m in db.members && OwnMember(m, db.members[m], u) ==> isNew(db.members[m].value))
    && (forall id :: id in db.sends && OwnSend(db.sends[id], u) ==> isNew(db.sends[id].body))
    && (forall id :: id in db.ciphers && OwnCipher(db.ciphers[id], u) ==> isNew(db.ciphers[id].body))
    && db.users[u].privateKey.Some? && isNew(db.users[u].privateKey.value)
  }

  /** If all the given material is under the new key, then nothing the user has stored is left under the old one. */
  lemma {:induction false} NothingUnderOldKey(db: Db, u: UserId, passwordOk: bool, notesOk: bool, data: KeyData,
                                              isNew: string -> bool)
    requires u in db.users && Rotate(db, u, passwordOk, notesOk, data).outcome == Ok && AllGiven(data, isNew)
    ensures var after := Rotate(db, u, passwordOk, notesOk, data).db;
            u in after.users && AllStored(after, u, isNew)
  {
    RotationReplacesAll(db, u, passwordOk, notesOk, data);
    RotatedIsNew(db, u, data, Rotate(db, u, passwordOk, notesOk, data).db, isNew);
  }

  lemma RotatedIsNew(db: Db, u: UserId, data: KeyData, after: Db, isNew: string -> bool)
    requires u in db.users && Rotated(db, u, data, after) && AllGiven(data, isNew)
    ensures u in after.users && AllStored(after, u, isNew)
  {
  }

  // ----- Failure

  /** Whatever has been written, each record is as before or an own one with material given for it. */
  ghost predicate PartlyRotated(db: Db, u: UserId, data: KeyData, after: Db) {
    && FoldersPartly(db.folders, u, data.folders, after.folders)
    && GrantsPartly(db.grants, u, data.grants, after.grants)
    && MembersPartly(db.members, u, data.resets, after.members)
    && SendsPartly(db.sends, u, data.sends, after.sends)
    && CiphersPartly(db.ciphers, u, data.ciphers, after.ciphers)
  }

  lemma StoppedIsPartly(db: Db, u: UserId, data: KeyData, full: Db, f: bool, g: bool, m: bool, s: bool, c: bool)
    requires PartlyRotated(db, u, data, full)
    ensures PartlyRotated(db, u, data, Stopped(db, full, f, g, m, s, c))
  {
  }

  lemma RotateIsStopped(db: Db, u: UserId, passwordOk: bool, notesOk: bool, data: KeyData)
    requires u in db.users
    ensures var after := Rotate(db, u, passwordOk, notesOk, data).db;
            || after == db
            || exists f, g, m, s, c :: after == Stopped(db, Final(db, u, data), f, g, m, s, c)
  {
    if passwordOk && notesOk && Validated(db, u, data) {
      var f := Apply(FolderRows(db.folders, u), FolderChanges(data.folders)).ok;
      var g := f && Apply(GrantRows(db.grants, u), GrantChanges(data.grants)).ok;
      var m := g && Apply(MemberRows(db.members, u), ResetChanges(u, data.resets)).ok;
      var s := m && Apply(SendRows(db.sends, u), SendChanges(data.sends)).ok;
      var c := s && Apply(CipherRows(db.ciphers, u), CipherChanges(data.ciphers)).ok;
      assert Rotate(db, u, passwordOk, notesOk, data).db == Stopped(db, Final(db, u, data), f, g, m, s, c);
    }
  }

  lemma FinalIsPartly(db: Db, u: UserId, data: KeyData)
    requires u in db.users
    ensures PartlyRotated(db, u, data, Final(db, u, data))
  {
    FoldersArePartly(db.folders, u, data.folders);
    GrantsArePartly(db.grants, u, data.grants);
    MembersArePartly(db.members, u, data.resets);
    SendsArePartly(db.sends, u, data.sends);
    CiphersArePartly(db.ciphers, u, data.ciphers);
  }

  /**
   * Whatever the outcome, a record that has changed is one of the caller's rotated ones, in nothing but its material,
   * which is some the request gives for it; and no other user changes.
   */
  lemma {:induction false} OthersAreKept(db: Db, u: UserId, passwordOk: bool, notesOk: bool, data: KeyData)
    requires u in db.users
    ensures var after := Rotate(db, u, passwordOk, notesOk, data).db;
            && PartlyRotated(db, u, data, after)
            && after.users.Keys == db.users.Keys
            && (forall v :: v in db.users && v != u ==> after.users[v] == db.users[v])
  {
    RotateIsStopped(db, u, passwordOk, notesOk, data);
    FinalIsPartly(db, u, data);
    var after := Rotate(db, u, passwordOk, notesOk, data).db;
    if after != db {
      var f, g, m, s, c :| after == Stopped(db, Final(db, u, data), f, g, m, s, c);
      StoppedIsPartly(db, u, data, Final(db, u, data), f, g, m, s, c);
    }
  }

  /**
   * A wrong password or note, a changed identity or a record that is not named: nothing is written. Otherwise a failing
   * loop leaves the earlier tables rotated and the later ones, and the user, untouched; in any table each record has
   * its old material or some the request gives for it.
   */
  lemma {:induction false} FailureIsContained(db: Db, u: UserId, passwordOk: bool, notesOk: bool, data: KeyData)
    requires u in db.users && Rotate(db, u, passwordOk, notesOk, data).outcome == Err
    ensures var after := Rotate(db, u, passwordOk, notesOk, data).db;
            var f := FoldersKnown(db.folders, u, data.folders);
            var g := f && GrantsKnown(db.grants, u, data.grants);
            var m := g && MembersKnown(db.members, u, data.resets);
            var s := m && SendsKnown(db.sends, u, data.sends);
            && (!passwordOk || !notesOk || !KeepsIdentity(db.users[u], data) || !NamesAll(db, u, data) ==> after == db)
            && after.users == db.users && PartlyRotated(db, u, data, after)
            && (!f ==> after.grants == db.grants) && (!g ==> after.members == db.members)
            && (!m ==> after.sends == db.sends) && (!s ==> after.ciphers == db.ciphers)
            && (passwordOk && notesOk && KeepsIdentity(db.users[u], data) && NamesAll(db, u, data) ==>
                  && (f ==> FoldersRotated(db.folders, u, data.folders, after.folders))
                  && (g ==> GrantsRotated(db.grants, u, data.grants, after.grants))
                  && (m ==> MembersRotated(db.members, u, data.resets, after.members))
                  && (s ==> SendsRotated(db.sends, u, data.sends, after.sends)))
  {
    OthersAreKept(db, u, passwordOk, notesOk, data);
    ValidatedIff(db, u, data);
    PassesIff(db, u, data);
    if NamesAll(db, u, data) { CompletedAreRotated(db, u, data); }
  }

  lemma CompletedAreRotated(db: Db, u: UserId, data: KeyData)
    requires u in db.users && NamesAll(db, u, data)
    ensures var full := Final(db, u, data);
            && (FoldersKnown(db.folders, u, data.folders) ==> FoldersRotated(db.folders, u, data.folders, full.folders))
            && (GrantsKnown(db.grants, u, data.grants) ==> GrantsRotated(db.grants, u, data.grants, full.grants))
            && (MembersKnown(db.members, u, data.resets) ==> MembersRotated(db.members, u, data.resets, full.members))
            && (SendsKnown(db.sends, u, data.sends) ==> SendsRotated(db.sends, u, data.sends, full.sends))
  {
    if FoldersKnown(db.folders, u, data.folders) { FoldersAreRotated(db.folders, u, data.folders); }
    if GrantsKnown(db.grants, u, data.grants) { GrantsAreRotated(db.grants, u, data.grants); }
    if MembersKnown(db.members, u, data.resets) { MembersAreRotated(db.members, u, data.resets); }
    if SendsKnown(db.sends, u, data.sends) { SendsAreRotated(db.sends, u, data.sends); }
  }

  // ----- The handler

  lemma PutMember(t: Memberships, rows: Memberships, m: (UserId, OrgId), key: Option<string>)
    requires m in t && m in rows
    ensures WithMembers(t, rows[m := key]) == WithMembers(t, rows)[m := key]
  {
  }

  class Accounts {
    var folders: map<Id, Folder>
    var grants: map<Id, Grant>
    var members: Memberships
    var sends: map<Id, Send>
    var ciphers: map<Id, Cipher>
    var users: map<UserId, User>

    ghost function Contents(): Db
      reads this
    {
      Db(folders, grants, members, sends, ciphers, users)
    }

    constructor (db: Db)
      ensures Contents() == db
    {
      folders, grants, members := db.folders, db.grants, db.members;
      sends, ciphers, users := db.sends, db.ciphers, db.users;
    }

    method UpdateFolders(u: UserId, ds: seq<FolderData>) returns (ok: bool)
      modifies this`folders
      ensures var p := Apply(FolderRows(old(folders), u), FolderChanges(ds));
              ok == p.ok && folders == WithFolders(old(folders), p.rows)
    {
      ghost var table, cs := folders, FolderChanges(ds);
      ghost var rows := FolderRows(folders, u);
      var existing := map id | id in folders && folders[id].user == u :: folders[id];
      assert folders == WithFolders(table, rows);
      for i := 0 to |ds|
        invariant var p := Apply(rows, cs[..i]);
                  p.ok && p.rows.Keys == rows.Keys == existing.Keys && folders == WithFolders(table, p.rows)
        invariant forall k :: k in existing ==> k in folders && folders[k] == existing[k]
      {
        match ds[i].id {
          case None => PassGoesOn(rows, cs, i);
          case Some(id) =>
            if id !in existing { PassEnds(rows, cs, i); return false; }
            PassGoesOn(rows, cs, i);
            existing := existing[id := existing[id].(name := ds[i].name)];
            folders := folders[id := existing[id]];
        }
      }
      assert cs[..|ds|] == cs;
      return true;
    }

    method UpdateGrants(u: UserId, ds: seq<GrantData>) returns (ok: bool)
      modifies this`grants
      ensures var p := Apply(GrantRows(old(grants), u), GrantChanges(ds));
              ok == p.ok && grants == WithGrants(old(grants), p.rows)
    {
      ghost var table, cs := grants, GrantChanges(ds);
      ghost var rows := GrantRows(grants, u);
      var existing := map id | id in grants && grants[id].grantor == u && grants[id].confirmed :: grants[id];
      assert grants == WithGrants(table, rows);
      for i := 0 to |ds|
        invariant var p := Apply(rows, cs[..i]);
                  p.ok && p.rows.Keys == rows.Keys == existing.Keys && grants == WithGrants(table, p.rows)
        invariant forall k :: k in existing ==> k in grants && grants[k] == existing[k]
      {
        var id := ds[i].id;
        if id !in existing { PassEnds(rows, cs, i); return false; }
        PassGoesOn(rows, cs, i);
        existing := existing[id := existing[id].(key := Some(ds[i].key))];
        grants := grants[id := existing[id]];
      }
      assert cs[..|ds|] == cs;
      return true;
    }

    method UpdateMembers(u: UserId, ds: seq<ResetData>) returns (ok: bool)
      modifies this`members
      ensures var p := Apply(MemberRows(old(members), u), ResetChanges(u, ds));
              ok == p.ok && members == WithMembers(old(members), p.rows)
    {
      ghost var table, cs := members, ResetChanges(u, ds);
      ghost var rows := MemberRows(members, u);
      var existing := map m | m in members && m.0 == u && members[m].Some? :: members[m];
      assert members == WithMembers(table, rows);
      for i := 0 to |ds|
        invariant var p := Apply(rows, cs[..i]);
                  p.ok && p.rows.Keys == rows.Keys == existing.Keys && members == WithMembers(table, p.rows)
        invariant forall k :: k in existing ==> k in members && members[k] == existing[k]
      {
        var m := (u, ds[i].org);
        if m !in existing { PassEnds(rows, cs, i); return false; }
        PassGoesOn(rows, cs, i);
        PutMember(table, Apply(rows, cs[..i]).rows, m, Some(ds[i].key));
        existing := existing[m := Some(ds[i].key)];
        members := members[m := existing[m]];
      }
      assert cs[..|ds|] == cs;
      return true;
    }

    method UpdateSends(u: UserId, ds: seq<SendData>) returns (ok: bool)
      modifies this`sends
      ensures var p := Apply(SendRows(old(sends), u), SendChanges(ds));
              ok == p.ok && sends == WithSends(old(sends), p.rows)
    {
      ghost var table, cs := sends, SendChanges(ds);
      ghost var rows := SendRows(sends, u);
      var existing := map id | id in sends && sends[id].user == Some(u) :: sends[id];
      assert sends == WithSends(table, rows);
      for i := 0 to |ds|
        invariant var p := Apply(rows, cs[..i]);
                  p.ok && p.rows.Keys == rows.Keys == existing.Keys && sends == WithSends(table, p.rows)
        invariant forall k :: k in existing ==> k in sends && sends[k] == existing[k]
      {
        if ds[i].id.None? || ds[i].id.value !in existing || !ds[i].accepted {
          PassEnds(rows, cs, i);
          return false;
        }
        PassGoesOn(rows, cs, i);
        var id := ds[i].id.value;
        existing := existing[id := existing[id].(body := ds[i].body)];
        sends := sends[id := existing[id]];
      }
      assert cs[..|ds|] == cs;
      return true;
    }

    method UpdateCiphers(u: UserId, ds: seq<CipherData>) returns (ok: bool)
      modifies this`ciphers
      ensures var p := Apply(CipherRows(old(ciphers), u), CipherChanges(ds));
              ok == p.ok && ciphers == WithCiphers(old(ciphers), p.rows)
    {
      ghost var table, cs := ciphers, CipherChanges(ds);
      ghost var rows := CipherRows(ciphers, u);
      var existing := map id | id in ciphers && ciphers[id].user == Some(u) && ciphers[id].org.None? :: ciphers[id];
      assert ciphers == WithCiphers(table, rows);
      for i := 0 to |ds|
        invariant var p := Apply(rows, cs[..i]);
                  p.ok && p.rows.Keys == rows.Keys == existing.Keys && ciphers == WithCiphers(table, p.rows)
        invariant forall k :: k in existing ==> k in ciphers && ciphers[k] == existing[k]
      {
        if ds[i].org.Some? {
          PassGoesOn(rows, cs, i);
        } else {
          if ds[i].id.None? || ds[i].id.value !in existing || !ds[i].accepted {
            PassEnds(rows, cs, i);
            return false;
          }
          PassGoesOn(rows, cs, i);
          var id := ds[i].id.value;
          existing := existing[id := existing[id].(body := ds[i].body)];
          ciphers := ciphers[id := existing[id]];
        }
      }
      assert cs[..|ds|] == cs;
      return true;
    }

    method ValidateKeyData(u: UserId, data: KeyData) returns (ok: bool)
      requires u in users
      ensures ok == Validated(Contents(), u, data)
    {
      var user := users[u];
      if user.kdf != data.kdf || user.email != data.email { return false; }
      if user.publicKey != Some(data.publicKey) { return false; }
      var existingCiphers := set id | id in ciphers && ciphers[id].user == Some(u) && ciphers[id].org.None?;
      assert existingCiphers == CipherRows(ciphers, u).Keys;
      if !(ProvidedCiphers(data) >= existingCiphers) { return false; }
      var existingFolders := set id | id in folders && folders[id].user == u;
      assert existingFolders == FolderRows(folders, u).Keys;
      if !(ProvidedFolders(data) >= existingFolders) { return false; }
      var existingGrants := set id | id in grants && grants[id].grantor == u && grants[id].confirmed;
      assert existingGrants == GrantRows(grants, u).Keys;
      if !(ProvidedGrants(data) >= existingGrants) { return false; }
      var existingMembers := set m | m in members && m.0 == u && members[m].Some?;
      assert existingMembers == MemberRows(members, u).Keys;
      if !(ProvidedMembers(u, data) >= existingMembers) { return false; }
      var existingSends := set id | id in sends && sends[id].user == Some(u);
      assert existingSends == SendRows(sends, u).Keys;
      return ProvidedSends(data) >= existingSends;
    }

    method PostRotateKey(u: UserId, passwordOk: bool, notesOk: bool, data: KeyData) returns (r: Outcome)
      requires u in users
      modifies this
      ensures Result(Contents(), r) == Rotate(old(Contents()), u, passwordOk, notesOk, data)
    {
      if !passwordOk || !notesOk { return Err; }
      var valid := ValidateKeyData(u, data);
      if !valid { return Err; }
      var ok := UpdateFolders(u, data.folders);
      if !ok { return Err; }
      ok := UpdateGrants(u, data.grants);
      if !ok { return Err; }
      ok := UpdateMembers(u, data.resets);
      if !ok { return Err; }
      ok := UpdateSends(u, data.sends);
      if !ok { return Err; }
      ok := UpdateCiphers(u, data.ciphers);
      if !ok { return Err; }
      var user := users[u].(privateKey := Some(data.privateKey));
      user := user.(passwordHash := data.passwordHash, userKey := data.userKey);
      users := users[u := user];
      return Ok;
    }
  }
}
