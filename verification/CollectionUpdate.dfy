/** Changing the collections of a cipher: the symmetric difference of posted and current ones, in any order. */
module CollectionUpdate {
  import opened Common

  type CipherId = string
  type CollectionId = string

  type Pairs = set<(CipherId, CollectionId)>

  function CollectionsOf(pairs: Pairs, cid: CipherId): set<CollectionId> {
    set p | p in pairs && p.0 == cid :: p.1
  }

  function Difference(posted: set<CollectionId>, current: set<CollectionId>): set<CollectionId> {
    (posted - current) + (current - posted)
  }

  datatype Walked = Walked(pairs: Pairs, ok: bool)

  function Put(pairs: Pairs, cid: CipherId, c: CollectionId, posted: set<CollectionId>): Pairs {
    if c in posted then pairs + {(cid, c)} else pairs - {(cid, c)}
  }

  /** The loop: it stops at the first collection that is unknown to the organization or not writable. */
  function Walk(pairs: Pairs, cid: CipherId, posted: set<CollectionId>, allowed: set<CollectionId>,
                order: seq<CollectionId>): Walked
  {
    if order == [] then Walked(pairs, true)
    else
      var before := Walk(pairs, cid, posted, allowed, order[..|order| - 1]);
      var c := order[|order| - 1];
      if !before.ok || c !in allowed then before.(ok := false)
      else Walked(Put(before.pairs, cid, c, posted), true)
  }

  ghost predicate Enumerates(order: seq<CollectionId>, s: set<CollectionId>) {
    forall c :: c in order <==> c in s
  }

  /** How far a walk gets: membership of every pair afterwards. */
  lemma {:induction false} WalkMeans(pairs: Pairs, cid: CipherId, posted: set<CollectionId>, allowed: set<CollectionId>,
                                     order: seq<CollectionId>)
    ensures var w := Walk(pairs, cid, posted, allowed, order);
            && (w.ok <==> forall c :: c in order ==> c in allowed)
            && (forall p :: (p in w.pairs) != (p in pairs) ==>
                  p.0 == cid && p.1 in order && p.1 in allowed && (p in w.pairs <==> p.1 in posted))
            && (w.ok ==> forall c :: c in order ==> ((cid, c) in w.pairs <==> c in posted))
  {
    if order != [] {
      var init, last := order[..|order| - 1], order[|order| - 1];
      WalkMeans(pairs, cid, posted, allowed, init);
      assert order == init + [last];
    }
  }

  /**
   * Whatever the order of the difference, a completed update leaves the posted collections and those the caller cannot
   * see; it completes exactly when every changed collection is a writable one of the cipher's organization; and a
   * failing one has changed only members of the difference, each towards the posted set.
   */
  lemma UpdateInAnyOrder(pairs: Pairs, cid: CipherId, posted: set<CollectionId>, current: set<CollectionId>,
                         allowed: set<CollectionId>, order: seq<CollectionId>)
    requires current <= CollectionsOf(pairs, cid)
    requires Enumerates(order, Difference(posted, current))
    ensures var w := Walk(pairs, cid, posted, allowed, order);
            && (w.ok <==> Difference(posted, current) <= allowed)
            && (w.ok ==> CollectionsOf(w.pairs, cid) == posted + (CollectionsOf(pairs, cid) - current))
            && (forall p :: (p in w.pairs) != (p in pairs) ==>
                  p.0 == cid && p.1 in Difference(posted, current) * allowed && (p in w.pairs <==> p.1 in posted))
  {
    WalkMeans(pairs, cid, posted, allowed, order);
    var w := Walk(pairs, cid, posted, allowed, order);
    if w.ok {
      forall c
        ensures c in CollectionsOf(w.pairs, cid) <==> c in posted + (CollectionsOf(pairs, cid) - current)
      {
        assert c in CollectionsOf(w.pairs, cid) <==> (cid, c) in w.pairs;
        assert c in CollectionsOf(pairs, cid) <==> (cid, c) in pairs;
      }
    }
  }

  class Server {
    var pairs: Pairs

    constructor ()
      ensures pairs == {}
    {
      pairs := {};
    }

    /**
     * `current` are the collections of the cipher that the caller may see and write, `ofOrg` those of the cipher's
     * organization, `writable` those the caller may write; `order` is the order in which the difference is visited.
     */
    method PostCollectionsUpdate(cid: CipherId, found: bool, editable: bool, inOrganization: bool,
                                 posted: set<CollectionId>, current: set<CollectionId>, ofOrg: set<CollectionId>,
                                 writable: set<CollectionId>, order: seq<CollectionId>)
      returns (r: Outcome)
      requires current <= CollectionsOf(pairs, cid)
      requires Enumerates(order, Difference(posted, current))
      modifies this
      ensures !(found && editable && inOrganization) ==> r == Err && pairs == old(pairs)
      ensures found && editable && inOrganization ==>
                Walked(pairs, r == Ok) == Walk(old(pairs), cid, posted, ofOrg * writable, order)
      ensures r == Ok <==> && found && editable && inOrganization
                           && (posted - current) + (current - posted) <= ofOrg * writable
      ensures r == Ok ==> CollectionsOf(pairs, cid) == posted + (CollectionsOf(old(pairs), cid) - current)
      ensures forall p :: (p in pairs) != (p in old(pairs)) ==>
                p.0 == cid && p.1 in ofOrg * writable && (p in pairs <==> p.1 in posted)
    {
      if !found { return Err; }
      if !editable { return Err; }
      if !inOrganization { return Err; }
      ghost var allowed := ofOrg * writable;
      UpdateInAnyOrder(pairs, cid, posted, current, allowed, order);
      for i := 0 to |order|
        invariant Walked(pairs, true) == Walk(old(pairs), cid, posted, allowed, order[..i])
      {
        var c := order[i];
        assert order[..i + 1][..i] == order[..i];
        if c !in ofOrg || c !in writable {
          WalkStops(old(pairs), cid, posted, allowed, order, i + 1);
          return Err;
        }
        if c in posted {
          pairs := pairs + {(cid, c)};
        } else {
          pairs := pairs - {(cid, c)};
        }
      }
      assert order[..|order|] == order;
      return Ok;
    }
  }

  lemma {:induction false} WalkStops(pairs: Pairs, cid: CipherId, posted: set<CollectionId>, allowed: set<CollectionId>,
                                     order: seq<CollectionId>, n: nat)
    requires n <= |order| && !Walk(pairs, cid, posted, allowed, order[..n]).ok
    ensures Walk(pairs, cid, posted, allowed, order) == Walk(pairs, cid, posted, allowed, order[..n])
    decreases |order| - n
  {
    if n < |order| {
      assert order[..n + 1][..n] == order[..n];
      WalkStops(pairs, cid, posted, allowed, order, n + 1);
    } else {
      assert order[..n] == order;
    }
  }
}
