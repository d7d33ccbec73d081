/**
 * The maps a full sync builds once instead of querying per cipher, and the access restrictions computed from them
 * against those computed by direct queries.
 */
module SyncIndex {
  import opened Common

  type CollectionId = string

  // ----- Grouping rows by key

  /** What a query for one key returns: its rows, in order. */
  function ValuesOf<K(==), V>(rows: seq<(K, V)>, k: K): seq<V> {
    if rows == [] then []
    else ValuesOf(rows[..|rows| - 1], k) + if rows[|rows| - 1].0 == k then [rows[|rows| - 1].1] else []
  }

  /** The positions of the rows of one key, in order. */
  function PositionsOf<K(==), V>(rows: seq<(K, V)>, k: K): seq<int> {
    if rows == [] then []
    else PositionsOf(rows[..|rows| - 1], k) + if rows[|rows| - 1].0 == k then [|rows| - 1] else []
  }

  /** The values are those of all rows with the key: one for each of their positions, in increasing order. */
  predicate AreAllOf<K(==), V(==)>(rows: seq<(K, V)>, k: K, values: seq<V>, at: seq<int>) {
    && |values| == |at|
    && (forall j :: 0 <= j < |at| ==> 0 <= at[j] < |rows| && rows[at[j]] == (k, values[j]))
    && (forall j, l :: 0 <= j < l < |at| ==> at[j] < at[l])
    && (forall i :: 0 <= i < |rows| && rows[i].0 == k ==> i in at)
  }

  /** A query for one key returns exactly its rows. */
  lemma {:induction false} ValuesAreAll<K, V>(rows: seq<(K, V)>, k: K)
    ensures AreAllOf(rows, k, ValuesOf(rows, k), PositionsOf(rows, k))
  {
    if rows != [] {
      var before := rows[..|rows| - 1];
      ValuesAreAll(before, k);
      assert forall i :: 0 <= i < |before| ==> before[i] == rows[i];
      assert rows[|rows| - 1].0 == k ==> PositionsOf(rows, k)[|PositionsOf(rows, k)| - 1] == |rows| - 1;
      forall i | 0 <= i < |rows| && rows[i].0 == k ensures i in PositionsOf(rows, k) {
        if i < |before| { assert i in PositionsOf(before, k); }
      }
    }
  }

  /** One pass with `entry(key).or_default().push(value)`. */
  method GroupRows<K(==), V(==)>(rows: seq<(K, V)>) returns (index: map<K, seq<V>>)
    ensures forall k :: k in index <==> exists i :: 0 <= i < |rows| && rows[i].0 == k
    ensures forall k :: k in index ==> AreAllOf(rows, k, index[k], PositionsOf(rows, k))
    ensures forall k :: k in index ==> index[k] == ValuesOf(rows, k)
  {
    index := map[];
    for i := 0 to |rows|
      invariant forall k :: k in index <==> ValuesOf(rows[..i], k) != []
      invariant forall k :: k in index ==> index[k] == ValuesOf(rows[..i], k)
    {
      var (key, value) := rows[i];
      assert rows[..i + 1][..i] == rows[..i];
      var entry := if key in index then index[key] else [];
      index := index[key := entry + [value]];
    }
    assert rows[..|rows|] == rows;
    forall k
      ensures AreAllOf(rows, k, ValuesOf(rows, k), PositionsOf(rows, k))
    {
      ValuesAreAll(rows, k);
    }
    forall k | k in index
      ensures exists i :: 0 <= i < |rows| && rows[i].0 == k
    {
      assert rows[PositionsOf(rows, k)[0]].0 == k;
    }
  }

  // ----- Combining group permissions

  datatype Flags = Flags(readOnly: bool, hidePasswords: bool, manage: bool)

  datatype GroupRow = GroupRow(collection: CollectionId, group: string, flags: Flags)

  predicate HasGroup(rows: seq<GroupRow>, c: CollectionId) {
    exists i :: 0 <= i < |rows| && rows[i].collection == c
  }

  /** The most permissive settings over the rows of one collection. */
  function Combined(rows: seq<GroupRow>, c: CollectionId): Flags {
    Flags(forall i :: 0 <= i < |rows| && rows[i].collection == c ==> rows[i].flags.readOnly,
          forall i :: 0 <= i < |rows| && rows[i].collection == c ==> rows[i].flags.hidePasswords,
          exists i :: 0 <= i < |rows| && rows[i].collection == c && rows[i].flags.manage)
  }

  method CombinePermissions(rows: seq<GroupRow>) returns (index: map<CollectionId, GroupRow>)
    ensures forall c :: c in index <==> HasGroup(rows, c)
    ensures forall c :: c in index ==> index[c].collection == c && index[c].flags == Combined(rows, c)
  {
    index := map[];
    for i := 0 to |rows|
      invariant forall c :: c in index <==> HasGroup(rows[..i], c)
      invariant forall c :: c in index ==> index[c].collection == c && index[c].flags == Combined(rows[..i], c)
    {
      var row := rows[i];
      ghost var before, after := rows[..i], rows[..i + 1];
      assert after == before + [row];
      CombinedGrows(before, row);
      if row.collection in index {
        var existing := index[row.collection];
        existing := existing.(flags := Flags(existing.flags.readOnly && row.flags.readOnly,
                                             existing.flags.hidePasswords && row.flags.hidePasswords,
                                             existing.flags.manage || row.flags.manage));
        index := index[row.collection := existing];
      } else {
        index := index[row.collection := row];
      }
    }
    assert rows[..|rows|] == rows;
  }

  lemma CombinedGrows(rows: seq<GroupRow>, row: GroupRow)
    ensures forall c :: HasGroup(rows + [row], c) <==> HasGroup(rows, c) || c == row.collection
    ensures forall c :: c != row.collection ==> Combined(rows + [row], c) == Combined(rows, c)
    ensures var before := Combined(rows, row.collection);
            Combined(rows + [row], row.collection)
            == Flags(before.readOnly && row.flags.readOnly, before.hidePasswords && row.flags.hidePasswords,
                     before.manage || row.flags.manage)
    ensures !HasGroup(rows, row.collection) ==> Combined(rows + [row], row.collection) == row.flags
  {
    var more := rows + [row];
    assert more[|rows|] == row;
    forall c
      ensures HasGroup(more, c) <==> HasGroup(rows, c) || c == row.collection
      ensures c != row.collection ==> Combined(more, c) == Combined(rows, c)
    {
      if HasGroup(rows, c) {
        var i :| 0 <= i < |rows| && rows[i].collection == c;
        assert more[i].collection == c;
      }
      if Combined(rows, c).manage {
        var i :| 0 <= i < |rows| && rows[i].collection == c && rows[i].flags.manage;
        assert more[i].flags.manage;
      }
      assert forall i :: 0 <= i < |rows| ==> more[i] == rows[i];
    }
    assert forall i :: 0 <= i < |rows| ==> more[i] == rows[i];
    if Combined(rows, row.collection).manage {
      var i :| 0 <= i < |rows| && rows[i].collection == row.collection && rows[i].flags.manage;
      assert more[i].flags.manage;
    }
  }

  lemma SameRows(a: seq<GroupRow>, b: seq<GroupRow>)
    requires multiset(a) == multiset(b)
    ensures forall r :: r in a <==> r in b
  {
    assert forall r :: r in a <==> r in multiset(a);
    assert forall r :: r in b <==> r in multiset(b);
  }

  /** The combined permissions do not depend on the order of the rows. */
  lemma CombinedIgnoresOrder(a: seq<GroupRow>, b: seq<GroupRow>, c: CollectionId)
    requires multiset(a) == multiset(b)
    ensures HasGroup(a, c) == HasGroup(b, c) && Combined(a, c) == Combined(b, c)
  {
    SameRows(a, b);
    assert forall i :: 0 <= i < |a| ==> a[i] in b;
    assert forall i :: 0 <= i < |b| ==> b[i] in a;
  }

  // ----- Access restrictions of one cipher

  /** One row per collection; no row means no access. */
  function Merge(rows: seq<Flags>): Option<Flags> {
    if rows == [] then None
    else Some(Flags(forall i :: 0 <= i < |rows| ==> rows[i].readOnly,
                    forall i :: 0 <= i < |rows| ==> rows[i].hidePasswords,
                    exists i :: 0 <= i < |rows| && rows[i].manage))
  }

  method MergeRows(rows: seq<Flags>) returns (r: Option<Flags>)
    ensures r == Merge(rows)
  {
    if rows == [] { return None; }
    var readOnly, hidePasswords, manage := true, true, false;
    for i := 0 to |rows|
      invariant readOnly == forall k :: 0 <= k < i ==> rows[k].readOnly
      invariant hidePasswords == forall k :: 0 <= k < i ==> rows[k].hidePasswords
      invariant manage == exists k :: 0 <= k < i && rows[k].manage
    {
      readOnly := readOnly && rows[i].readOnly;
      hidePasswords := hidePasswords && rows[i].hidePasswords;
      manage := manage || rows[i].manage;
    }
    return Some(Flags(readOnly, hidePasswords, manage));
  }

  /** Direct query: the caller's own permissions on the cipher's collections. */
  function UserRows(cs: seq<CollectionId>, users: map<CollectionId, Flags>): seq<Flags> {
    if cs == [] then []
    else UserRows(cs[..|cs| - 1], users) + if cs[|cs| - 1] in users then [users[cs[|cs| - 1]]] else []
  }

  /** Direct query: all group permissions on the cipher's collections. */
  function GroupFlags(cs: seq<CollectionId>, groups: seq<GroupRow>): seq<Flags> {
    if groups == [] then []
    else
      var last := groups[|groups| - 1];
      GroupFlags(cs, groups[..|groups| - 1]) + if last.collection in cs then [last.flags] else []
  }

  /** Without the index: own permissions if there are any, otherwise those of groups. */
  function DirectRestrictions(cs: seq<CollectionId>, users: map<CollectionId, Flags>,
                              groups: seq<GroupRow>): Option<Flags>
  {
    if UserRows(cs, users) != [] then Merge(UserRows(cs, users)) else Merge(GroupFlags(cs, groups))
  }

  /** With the index: per collection, the own permission or else the combined group permission. */
  function SyncRows(cs: seq<CollectionId>, users: map<CollectionId, Flags>, groups: seq<GroupRow>): seq<Flags> {
    if cs == [] then []
    else
      var c := cs[|cs| - 1];
      SyncRows(cs[..|cs| - 1], users, groups)
      + if c in users then [users[c]] else if HasGroup(groups, c) then [Combined(groups, c)] else []
  }

  function SyncRestrictions(cs: seq<CollectionId>, users: map<CollectionId, Flags>,
                            groups: seq<GroupRow>): Option<Flags>
  {
    Merge(SyncRows(cs, users, groups))
  }

  /** The sync path as it runs, over the index that `CombinePermissions` builds. */
  method AccessRestrictions(cs: seq<CollectionId>, users: map<CollectionId, Flags>, groups: seq<GroupRow>)
    returns (r: Option<Flags>)
    ensures r == SyncRestrictions(cs, users, groups)
  {
    var index := CombinePermissions(groups);
    var rows: seq<Flags> := [];
    for i := 0 to |cs|
      invariant rows == SyncRows(cs[..i], users, groups)
    {
      assert cs[..i + 1][..i] == cs[..i];
      if cs[i] in users {
        rows := rows + [users[cs[i]]];
      } else if cs[i] in index {
        rows := rows + [index[cs[i]].flags];
      }
    }
    assert cs[..|cs|] == cs;
    r := MergeRows(rows);
  }

  // ----- Which rows there are

  lemma {:induction false} UserRowsAre(cs: seq<CollectionId>, users: map<CollectionId, Flags>, f: Flags)
    ensures f in UserRows(cs, users) <==> exists c :: c in cs && c in users && users[c] == f
  {
    if cs != [] {
      UserRowsAre(cs[..|cs| - 1], users, f);
      assert cs == cs[..|cs| - 1] + [cs[|cs| - 1]];
    }
  }

  lemma {:induction false} GroupFlagsAre(cs: seq<CollectionId>, groups: seq<GroupRow>, f: Flags)
    ensures f in GroupFlags(cs, groups) <==> exists g :: g in groups && g.collection in cs && g.flags == f
  {
    if groups != [] {
      var last := groups[|groups| - 1];
      GroupFlagsAre(cs, groups[..|groups| - 1], f);
      assert groups == groups[..|groups| - 1] + [last];
    }
  }

  lemma {:induction false} SyncRowsAre(cs: seq<CollectionId>, users: map<CollectionId, Flags>, groups: seq<GroupRow>,
                                       f: Flags)
    ensures f in SyncRows(cs, users, groups) <==>
              || (exists c :: c in cs && c in users && users[c] == f)
              || (exists c :: c in cs && c !in users && HasGroup(groups, c) && Combined(groups, c) == f)
  {
    if cs != [] {
      SyncRowsAre(cs[..|cs| - 1], users, groups, f);
      assert cs == cs[..|cs| - 1] + [cs[|cs| - 1]];
    }
  }

  /** The own permissions on the cipher's collections, as one set of flags. */
  function Own(cs: seq<CollectionId>, users: map<CollectionId, Flags>): Flags {
    Flags(forall c :: c in cs && c in users ==> users[c].readOnly,
          forall c :: c in cs && c in users ==> users[c].hidePasswords,
          exists c :: c in cs && c in users && users[c].manage)
  }

  predicate HasOwn(cs: seq<CollectionId>, users: map<CollectionId, Flags>) {
    exists c :: c in cs && c in users
  }

  /** The group permissions on those of the cipher's collections for which there is no own permission. */
  predicate IsExtra(cs: seq<CollectionId>, users: map<CollectionId, Flags>, g: GroupRow) {
    g.collection in cs && g.collection !in users
  }

  function Extra(cs: seq<CollectionId>, users: map<CollectionId, Flags>, groups: seq<GroupRow>): Flags {
    Flags(forall g :: g in groups && IsExtra(cs, users, g) ==> g.flags.readOnly,
          forall g :: g in groups && IsExtra(cs, users, g) ==> g.flags.hidePasswords,
          exists g :: g in groups && IsExtra(cs, users, g) && g.flags.manage)
  }

  predicate HasExtra(cs: seq<CollectionId>, users: map<CollectionId, Flags>, groups: seq<GroupRow>) {
    exists g :: g in groups && IsExtra(cs, users, g)
  }

  function Both(a: Flags, b: Flags): Flags {
    Flags(a.readOnly && b.readOnly, a.hidePasswords && b.hidePasswords, a.manage || b.manage)
  }

  lemma MergeMeans(rows: seq<Flags>)
    ensures Merge(rows).Some? <==> rows != []
    ensures rows != [] ==>
              && (Merge(rows).value.readOnly <==> forall f :: f in rows ==> f.readOnly)
              && (Merge(rows).value.hidePasswords <==> forall f :: f in rows ==> f.hidePasswords)
              && (Merge(rows).value.manage <==> exists f :: f in rows && f.manage)
  {
    assert forall i :: 0 <= i < |rows| ==> rows[i] in rows;
  }

  lemma OwnMeans(cs: seq<CollectionId>, users: map<CollectionId, Flags>)
    ensures Merge(UserRows(cs, users)) == if HasOwn(cs, users) then Some(Own(cs, users)) else None
  {
    var rows := UserRows(cs, users);
    forall f ensures f in rows <==> exists c :: c in cs && c in users && users[c] == f { UserRowsAre(cs, users, f); }
    MergeMeans(rows);
    if rows != [] { assert rows[0] in rows; }
    forall c | c in cs && c in users ensures users[c] in rows { }
  }

  lemma GroupsAloneMean(cs: seq<CollectionId>, users: map<CollectionId, Flags>, groups: seq<GroupRow>)
    requires !HasOwn(cs, users)
    ensures Merge(GroupFlags(cs, groups))
            == if HasExtra(cs, users, groups) then Some(Extra(cs, users, groups)) else None
  {
    var rows := GroupFlags(cs, groups);
    forall f
      ensures f in rows <==> exists g :: g in groups && g.collection in cs && g.flags == f
    {
      GroupFlagsAre(cs, groups, f);
    }
    MergeMeans(rows);
    if rows != [] { assert rows[0] in rows; }
    assert forall g :: g in groups && g.collection in cs ==> IsExtra(cs, users, g);
    forall g | g in groups && IsExtra(cs, users, g) ensures g.flags in rows { }
  }

  /** A combined permission stands for all rows of its collection. */
  lemma CombinedMeans(groups: seq<GroupRow>, c: CollectionId)
    ensures Combined(groups, c).readOnly <==> forall g :: g in groups && g.collection == c ==> g.flags.readOnly
    ensures Combined(groups, c).hidePasswords
            <==> forall g :: g in groups && g.collection == c ==> g.flags.hidePasswords
    ensures Combined(groups, c).manage <==> exists g :: g in groups && g.collection == c && g.flags.manage
    ensures HasGroup(groups, c) <==> exists g :: g in groups && g.collection == c
  {
    assert forall i :: 0 <= i < |groups| ==> groups[i] in groups;
  }

  ghost predicate SyncRowIs(cs: seq<CollectionId>, users: map<CollectionId, Flags>, groups: seq<GroupRow>, f: Flags) {
    || (exists c :: c in cs && c in users && users[c] == f)
    || (exists c :: c in cs && c !in users && HasGroup(groups, c) && Combined(groups, c) == f)
  }

  lemma SyncAllReadOnly(cs: seq<CollectionId>, users: map<CollectionId, Flags>, groups: seq<GroupRow>)
    ensures (forall f :: SyncRowIs(cs, users, groups, f) ==> f.readOnly)
            <==> Both(Own(cs, users), Extra(cs, users, groups)).readOnly
  {
    forall c ensures Combined(groups, c).readOnly <==> forall g :: g in groups && g.collection == c ==> g.flags.readOnly
             ensures HasGroup(groups, c) <==> exists g :: g in groups && g.collection == c
    { CombinedMeans(groups, c); }
    if forall f :: SyncRowIs(cs, users, groups, f) ==> f.readOnly {
      forall g | g in groups && IsExtra(cs, users, g) ensures g.flags.readOnly {
        assert SyncRowIs(cs, users, groups, Combined(groups, g.collection));
      }
      forall c | c in cs && c in users ensures users[c].readOnly { assert SyncRowIs(cs, users, groups, users[c]); }
    }
    if Both(Own(cs, users), Extra(cs, users, groups)).readOnly {
      forall c | c in cs && c !in users && HasGroup(groups, c) ensures Combined(groups, c).readOnly {
        assert forall g :: g in groups && g.collection == c ==> IsExtra(cs, users, g);
      }
    }
  }

  lemma SyncAllHide(cs: seq<CollectionId>, users: map<CollectionId, Flags>, groups: seq<GroupRow>)
    ensures (forall f :: SyncRowIs(cs, users, groups, f) ==> f.hidePasswords)
            <==> Both(Own(cs, users), Extra(cs, users, groups)).hidePasswords
  {
    forall c
      ensures Combined(groups, c).hidePasswords
              <==> forall g :: g in groups && g.collection == c ==> g.flags.hidePasswords
      ensures HasGroup(groups, c) <==> exists g :: g in groups && g.collection == c
    {
      CombinedMeans(groups, c);
    }
    if forall f :: SyncRowIs(cs, users, groups, f) ==> f.hidePasswords {
      forall g | g in groups && IsExtra(cs, users, g) ensures g.flags.hidePasswords {
        assert SyncRowIs(cs, users, groups, Combined(groups, g.collection));
      }
      forall c | c in cs && c in users ensures users[c].hidePasswords { assert SyncRowIs(cs, users, groups, users[c]); }
    }
    if Both(Own(cs, users), Extra(cs, users, groups)).hidePasswords {
      forall c | c in cs && c !in users && HasGroup(groups, c) ensures Combined(groups, c).hidePasswords {
        assert forall g :: g in groups && g.collection == c ==> IsExtra(cs, users, g);
      }
    }
  }

  lemma SyncSomeManage(cs: seq<CollectionId>, users: map<CollectionId, Flags>, groups: seq<GroupRow>)
    ensures (exists f :: SyncRowIs(cs, users, groups, f) && f.manage)
            <==> Both(Own(cs, users), Extra(cs, users, groups)).manage
    ensures (exists f :: SyncRowIs(cs, users, groups, f)) <==> HasOwn(cs, users) || HasExtra(cs, users, groups)
  {
    forall c ensures Combined(groups, c).manage <==> exists g :: g in groups && g.collection == c && g.flags.manage
             ensures HasGroup(groups, c) <==> exists g :: g in groups && g.collection == c
    { CombinedMeans(groups, c); }
    forall c | c in cs && c in users ensures SyncRowIs(cs, users, groups, users[c]) { }
    forall g | g in groups && IsExtra(cs, users, g)
      ensures SyncRowIs(cs, users, groups, Combined(groups, g.collection))
      ensures g.flags.manage ==> Combined(groups, g.collection).manage
    {
    }
    forall c | c in cs && c !in users && HasGroup(groups, c)
      ensures HasExtra(cs, users, groups)
      ensures Combined(groups, c).manage ==> Extra(cs, users, groups).manage
    {
      assert forall g :: g in groups && g.collection == c ==> IsExtra(cs, users, g);
    }
  }

  lemma SyncMeans(cs: seq<CollectionId>, users: map<CollectionId, Flags>, groups: seq<GroupRow>)
    ensures SyncRestrictions(cs, users, groups)
            == if HasOwn(cs, users) || HasExtra(cs, users, groups)
               then Some(Both(Own(cs, users), Extra(cs, users, groups))) else None
  {
    var rows := SyncRows(cs, users, groups);
    forall f ensures f in rows <==> SyncRowIs(cs, users, groups, f) { SyncRowsAre(cs, users, groups, f); }
    MergeMeans(rows);
    if rows != [] { assert rows[0] in rows; }
    SyncAllReadOnly(cs, users, groups);
    SyncAllHide(cs, users, groups);
    SyncSomeManage(cs, users, groups);
  }

  /**
   * The index and the direct queries give the same restrictions exactly when the caller has no own permission on any
   * of the cipher's collections, or the group permissions on the remaining ones add nothing to the own ones. Direct
   * queries let any own permission overrule all groups; the index decides collection by collection.
   */
  lemma SyncAgreesIff(cs: seq<CollectionId>, users: map<CollectionId, Flags>, groups: seq<GroupRow>)
    ensures SyncRestrictions(cs, users, groups) == DirectRestrictions(cs, users, groups)
            <==> (HasOwn(cs, users) ==> Both(Own(cs, users), Extra(cs, users, groups)) == Own(cs, users))
  {
    SyncMeans(cs, users, groups);
    OwnMeans(cs, users);
    if !HasOwn(cs, users) {
      GroupsAloneMean(cs, users, groups);
      assert Own(cs, users) == Flags(true, true, false);
    }
  }

  /** A cipher that is read-only by direct query and writable in the sync. */
  lemma SyncCanDiffer()
    ensures var users := map["a" := Flags(true, false, false)];
            var groups := [GroupRow("b", "g", Flags(false, false, false))];
            && DirectRestrictions(["a", "b"], users, groups) == Some(Flags(true, false, false))
            && SyncRestrictions(["a", "b"], users, groups) == Some(Flags(false, false, false))
  {
    var cs := ["a", "b"];
    var users := map["a" := Flags(true, false, false)];
    var groups := [GroupRow("b", "g", Flags(false, false, false))];
    assert "a" in cs && "b" in cs && groups[0] in groups;
    assert IsExtra(cs, users, groups[0]);
    assert HasOwn(cs, users);
    OwnMeans(cs, users);
    SyncMeans(cs, users, groups);
  }
}
