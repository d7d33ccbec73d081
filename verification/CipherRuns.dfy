/** Ownership, sharing and storage limits over whole runs of the cipher and attachment handlers. */
module CipherRuns {
  import opened Common
  import opened Totals
  import opened Ciphers

  datatype Event =
    | EvCreate(cid: CipherId, caller: UserId, org: Option<OrgId>, accepted: bool)
    | EvUpdate(cid: CipherId, caller: UserId, org: Option<OrgId>, writable: bool, accepted: bool)
    | EvDropCipher(cid: CipherId)
    | EvDeclare(cid: CipherId, aid: AttachmentId, size: int, writable: bool)
    | EvUpload(cid: CipherId, aid: AttachmentId, bytes: nat, writable: bool)
    | EvUploadNew(cid: CipherId, aid: AttachmentId, bytes: nat, writable: bool, complete: bool)
    | EvDropAttachment(cid: CipherId, aid: AttachmentId, writable: bool)

  /** New identifiers are generated ones, and an announced size has been parsed as a 64-bit number. */
  predicate Enabled(v: Vault, e: Event) {
    && (e.EvCreate? ==> e.cid !in v.ciphers)
    && (e.EvDeclare? || e.EvUploadNew? ==> e.aid !in v.attachments)
    && (e.EvDeclare? ==> e.size <= I64_MAX)
  }

  ghost function Next(v: Vault, limits: Limits, e: Event): Vault {
    if !Enabled(v, e) then v
    else
      match e
      case EvCreate(cid, caller, org, accepted) => Create(v, cid, caller, org, accepted).vault
      case EvUpdate(cid, caller, org, writable, accepted) => Update(v, cid, caller, org, writable, accepted).vault
      case EvDropCipher(cid) => DropCipher(v, cid)
      case EvDeclare(cid, aid, size, writable) => Declare(v, cid, aid, size, writable).vault
      case EvUpload(cid, aid, bytes, writable) => UploadDeclared(v, limits, cid, aid, bytes, writable).vault
      case EvUploadNew(cid, aid, bytes, writable, complete) =>
        UploadNew(v, limits, cid, aid, bytes, writable, complete).vault
      case EvDropAttachment(cid, aid, writable) => DropAttachment(v, cid, aid, writable).vault
  }

  ghost function After(limits: Limits, run: seq<Event>): Vault {
    if run == [] then Vault(map[], map[])
    else Next(After(limits, run[..|run| - 1]), limits, run[|run| - 1])
  }

  // ----- Ownership

  /** Exactly one owner kind per cipher, attachments of stored ciphers, sizes that fit 64 bits. */
  predicate Sound(v: Vault) {
    && (forall c :: c in v.ciphers ==> OneOwner(v.ciphers[c]))
    && (forall a :: a in v.attachments ==>
          v.attachments[a].cipher in v.ciphers && 0 <= v.attachments[a].size <= I64_MAX)
  }

  lemma StepIsSound(v: Vault, limits: Limits, e: Event)
    requires Sound(v)
    ensures Sound(Next(v, limits, e))
  {
    match e
    case EvCreate(_, _, _, _) =>
    case EvUpdate(_, _, _, _, _) =>
    case EvDropCipher(_) =>
    case EvDeclare(_, _, _, _) =>
    case EvUpload(_, _, _, _) =>
    case EvUploadNew(_, _, _, _, _) =>
    case EvDropAttachment(_, _, _) =>
  }

  lemma {:induction false} RunIsSound(limits: Limits, run: seq<Event>)
    ensures Sound(After(limits, run))
  {
    if run != [] {
      RunIsSound(limits, run[..|run| - 1]);
      StepIsSound(After(limits, run[..|run| - 1]), limits, run[|run| - 1]);
    }
  }

  /** A cipher of an organization stays with that organization for as long as it is stored. */
  lemma {:induction false} OrganizationIsForever(limits: Limits, run: seq<Event>, cid: CipherId, org: OrgId, from: nat)
    requires from <= |run|
    requires forall k :: from <= k <= |run| ==> cid in After(limits, run[..k]).ciphers
    requires After(limits, run[..from]).ciphers[cid].org == Some(org)
    ensures cid in After(limits, run).ciphers && After(limits, run).ciphers[cid] == Cipher(None, Some(org))
    decreases |run| - from
  {
    assert run[..|run|] == run;
    RunIsSound(limits, run[..from]);
    if from < |run| {
      assert run[..from + 1][..from] == run[..from];
      assert cid in After(limits, run[..from + 1]).ciphers;
      OrganizationIsForever(limits, run, cid, org, from + 1);
    }
  }

  /** The arm for a cipher that nobody owns is never taken. */
  lemma OwnerIsKnown(limits: Limits, run: seq<Event>, cid: CipherId, adjust: int)
    requires cid in After(limits, run).ciphers
    ensures CipherAllowance(After(limits, run), limits, After(limits, run).ciphers[cid], adjust) != Denied(NoOwner)
  {
    RunIsSound(limits, run);
  }

  // ----- Sharing moves bytes, it does not make or lose any

  /** The attachments of one cipher. */
  function Of(v: Vault, cid: CipherId): map<AttachmentId, int> {
    map a | a in v.attachments && v.attachments[a].cipher == cid :: v.attachments[a].size
  }

  lemma RowMoves(v: Vault, cid: CipherId, c: Cipher, o: Owner)
    requires Sound(v) && cid in v.ciphers
    ensures var v' := v.(ciphers := v.ciphers[cid := c]);
            forall a :: a in v.attachments ==>
              (a in Rows(v', o) <==> if v.attachments[a].cipher == cid then Belongs(c, o) else a in Rows(v, o))
  {
  }

  lemma RowsStay(v: Vault, cid: CipherId, c: Cipher, o: Owner)
    requires Sound(v) && cid in v.ciphers && Belongs(v.ciphers[cid], o) == Belongs(c, o)
    ensures Rows(v.(ciphers := v.ciphers[cid := c]), o) == Rows(v, o)
  {
    RowMoves(v, cid, c, o);
  }

  lemma RowsLeave(v: Vault, cid: CipherId, c: Cipher, o: Owner)
    requires Sound(v) && cid in v.ciphers && Belongs(v.ciphers[cid], o) && !Belongs(c, o)
    ensures var v' := v.(ciphers := v.ciphers[cid := c]);
            Rows(v, o) == Rows(v', o) + Of(v, cid) && Rows(v', o).Keys !! Of(v, cid).Keys
  {
    RowMoves(v, cid, c, o);
  }

  lemma RowsJoin(v: Vault, cid: CipherId, c: Cipher, o: Owner)
    requires Sound(v) && cid in v.ciphers && !Belongs(v.ciphers[cid], o) && Belongs(c, o)
    ensures var v' := v.(ciphers := v.ciphers[cid := c]);
            Rows(v', o) == Rows(v, o) + Of(v, cid) && Rows(v, o).Keys !! Of(v, cid).Keys
  {
    RowMoves(v, cid, c, o);
  }

  lemma {:induction false} MovedRows(v: Vault, cid: CipherId, c: Cipher, o: Owner)
    requires Sound(v) && cid in v.ciphers
    ensures var v' := v.(ciphers := v.ciphers[cid := c]);
            var before, after := Belongs(v.ciphers[cid], o), Belongs(c, o);
            && (before == after ==> Rows(v', o) == Rows(v, o))
            && (before && !after ==> Rows(v, o) == Rows(v', o) + Of(v, cid) && Rows(v', o).Keys !! Of(v, cid).Keys)
            && (!before && after ==> Rows(v', o) == Rows(v, o) + Of(v, cid) && Rows(v, o).Keys !! Of(v, cid).Keys)
  {
    if Belongs(v.ciphers[cid], o) == Belongs(c, o) {
      RowsStay(v, cid, c, o);
    } else if Belongs(c, o) {
      RowsJoin(v, cid, c, o);
    } else {
      RowsLeave(v, cid, c, o);
    }
  }

  /**
   * A successful update or share takes the bytes of the cipher's attachments from its old owner and adds them to the
   * new one; the sum over the two, and the usage of everyone else, stay as they are.
   */
  lemma SharingConserves(v: Vault, cid: CipherId, caller: UserId, org: Option<OrgId>, writable: bool, accepted: bool,
                         from: Owner, to: Owner, other: Owner)
    requires Sound(v) && Update(v, cid, caller, org, writable, accepted).outcome == Ok
    requires Belongs(v.ciphers[cid], from)
    requires Belongs(Update(v, cid, caller, org, writable, accepted).vault.ciphers[cid], to)
    requires from != to && other != from && other != to
    ensures var v' := Update(v, cid, caller, org, writable, accepted).vault;
            && Used(v', from) == Used(v, from) - Sum(Of(v, cid))
            && Used(v', to) == Used(v, to) + Sum(Of(v, cid))
            && Used(v', from) + Used(v', to) == Used(v, from) + Used(v, to)
            && Used(v', other) == Used(v, other)
  {
    var c := Update(v, cid, caller, org, writable, accepted).vault.ciphers[cid];
    MovedRows(v, cid, c, from);
    MovedRows(v, cid, c, to);
    MovedRows(v, cid, c, other);
    var v' := v.(ciphers := v.ciphers[cid := c]);
    SumUnion(Rows(v', from), Of(v, cid));
    SumUnion(Rows(v, to), Of(v, cid));
  }

  // ----- The overflow arm

  lemma RowWithinSize(v: Vault, o: Owner, aid: AttachmentId)
    requires Sound(v) && aid in Rows(v, o)
    ensures v.attachments[aid].size <= SizeBy(v, o) <= I64_MAX
  {
    var row := map[aid := v.attachments[aid].size];
    SumRemove(row, aid);
    assert row - {aid} == map[];
    SumOfPart(row, Rows(v, o));
  }

  lemma SizeIsNatural(v: Vault, o: Owner)
    requires Sound(v)
    ensures 0 <= SizeBy(v, o) <= I64_MAX
  {
    SumOfPart(map[], Rows(v, o));
  }

  lemma LeftIsDefined(limitKb: int, used: int, adjust: int)
    requires 0 <= limitKb <= MAX_FILESIZE_KB && 0 <= adjust <= used <= I64_MAX
    ensures Left(limitKb, used, adjust) == Some(limitKb * 1024 - used + adjust)
  {
  }

  /**
   * With limits the configuration check accepts, no reachable upload overflows, even when the stored sum has saturated.
   */
  lemma OverflowIsUnreachable(limits: Limits, run: seq<Event>, cid: CipherId, aid: AttachmentId)
    requires ValidLimits(limits) && cid in After(limits, run).ciphers
    ensures var v := After(limits, run);
            && CipherAllowance(v, limits, v.ciphers[cid], 0) != Denied(Overflow)
            && (aid in v.attachments && v.attachments[aid].cipher == cid ==>
                  CipherAllowance(v, limits, v.ciphers[cid], v.attachments[aid].size) != Denied(Overflow))
  {
    RunIsSound(limits, run);
    var v := After(limits, run);
    var c := v.ciphers[cid];
    var o := if c.user.Some? then OfUser(c.user.value) else OfOrg(c.org.value);
    var limit := if c.user.Some? then limits.userKb else limits.orgKb;
    SizeIsNatural(v, o);
    if limit.Some? {
      LeftIsDefined(limit.value, SizeBy(v, o), 0);
      if aid in v.attachments && v.attachments[aid].cipher == cid {
        RowWithinSize(v, o, aid);
        LeftIsDefined(limit.value, SizeBy(v, o), v.attachments[aid].size);
      }
    }
  }

  // ----- The storage limit

  function LimitOf(limits: Limits, o: Owner): Option<int> {
    if o.OfUser? then limits.userKb else limits.orgKb
  }

  /**
   * What the allowance admits: anything without a limit; otherwise whatever leaves the stored sum, less the announced
   * size, within the limit, provided the limit is not used up already.
   */
  lemma {:induction false} FitsIff(v: Vault, limits: Limits, cid: CipherId, aid: AttachmentId, size: nat, o: Owner)
    requires Sound(v) && ValidLimits(limits) && cid in v.ciphers && Belongs(v.ciphers[cid], o)
    requires aid in v.attachments ==> v.attachments[aid].cipher == cid
    ensures var adjust := if aid in v.attachments then v.attachments[aid].size else 0;
            var others := SizeBy(v, o) - adjust;
            Fits(size, CipherAllowance(v, limits, v.ciphers[cid], adjust))
            <==> || LimitOf(limits, o).None?
                 || (others < LimitOf(limits, o).value * 1024 && others + size <= LimitOf(limits, o).value * 1024)
  {
    var adjust := if aid in v.attachments then v.attachments[aid].size else 0;
    SizeIsNatural(v, o);
    if aid in v.attachments { RowWithinSize(v, o, aid); }
    if LimitOf(limits, o).Some? { LeftIsDefined(LimitOf(limits, o).value, SizeBy(v, o), adjust); }
  }

  /** Without a limit every complete upload to a writable cipher is accepted, and every one within the leeway. */
  lemma {:induction false} UnlimitedUploads(v: Vault, limits: Limits, cid: CipherId, aid: AttachmentId, size: nat,
                                            o: Owner)
    requires Sound(v) && ValidLimits(limits) && cid in v.ciphers && Belongs(v.ciphers[cid], o)
    requires LimitOf(limits, o).None? && size <= I64_MAX
    ensures aid !in v.attachments ==>
              UploadNew(v, limits, cid, aid, size, true, true)
              == Result(v.(attachments := v.attachments[aid := Attachment(cid, size, true)]), Ok)
    ensures aid in v.attachments && v.attachments[aid].cipher == cid && v.attachments[aid].size + LEEWAY <= I64_MAX
            && v.attachments[aid].size - LEEWAY <= size <= v.attachments[aid].size + LEEWAY ==>
              UploadDeclared(v, limits, cid, aid, size, true)
              == Result(v.(attachments := v.attachments[aid := Attachment(cid, size, true)]), Ok)
  {
    if aid in v.attachments ==> v.attachments[aid].cipher == cid { FitsIff(v, limits, cid, aid, size, o); }
  }

  /** A cipher comes to the owner from another one. */
  predicate Inbound(v: Vault, e: Event, o: Owner) {
    && e.EvUpdate? && e.cid in v.ciphers && !Belongs(v.ciphers[e.cid], o)
    && Belongs(Update(v, e.cid, e.caller, e.org, e.writable, e.accepted).vault.ciphers[e.cid], o)
  }

  /** The uploaded attachments of one cipher. */
  function UploadedOf(v: Vault, cid: CipherId): map<AttachmentId, int> {
    map a | a in v.attachments && v.attachments[a].cipher == cid && v.attachments[a].uploaded :: v.attachments[a].size
  }

  /** The uploaded bytes that one step brings to the owner from another one. */
  ghost function BroughtBy(v: Vault, e: Event, o: Owner): int {
    if Inbound(v, e, o) then Sum(UploadedOf(v, e.cid)) else 0
  }

  /** The uploaded bytes that a run has brought to the owner from others. */
  ghost function BroughtIn(limits: Limits, run: seq<Event>, o: Owner): int {
    if run == [] then 0
    else
      var prefix := run[..|run| - 1];
      BroughtIn(limits, prefix, o) + BroughtBy(After(limits, prefix), run[|run| - 1], o)
  }

  lemma UploadedWithinUsed(v: Vault, o: Owner)
    requires Sound(v)
    ensures 0 <= Uploaded(v, o) <= Used(v, o)
  {
    SumOfPart(UploadedRows(v, o), Rows(v, o));
  }

  lemma FewerUploaded(v: Vault, v': Vault, o: Owner)
    requires Sound(v)
    requires forall a :: a in UploadedRows(v', o) ==>
               a in UploadedRows(v, o) && UploadedRows(v', o)[a] == UploadedRows(v, o)[a]
    ensures Uploaded(v', o) <= Uploaded(v, o)
  {
    SumOfPart(UploadedRows(v', o), UploadedRows(v, o));
  }

  /** An upload accepted for an owner leaves all its rows, announced ones included, within the limit. */
  lemma UploadStaysWithin(v: Vault, limits: Limits, cid: CipherId, aid: AttachmentId, size: nat, adjust: int, o: Owner)
    requires Sound(v) && cid in v.ciphers && Belongs(v.ciphers[cid], o) && Used(v, o) <= I64_MAX
    requires ValidLimits(limits) && LimitOf(limits, o).Some?
    requires adjust == if aid in v.attachments then v.attachments[aid].size else 0
    requires aid in v.attachments ==> v.attachments[aid].cipher == cid
    requires Fits(size, CipherAllowance(v, limits, v.ciphers[cid], adjust))
    ensures var v' := v.(attachments := v.attachments[aid := Attachment(cid, size, true)]);
            Sum(Rows(v', o)) <= LimitOf(limits, o).value * 1024
  {
    var v' := v.(attachments := v.attachments[aid := Attachment(cid, size, true)]);
    assert Rows(v', o) == Rows(v, o)[aid := size];
    if aid in v.attachments {
      RowWithinSize(v, o, aid);
      SumUpdate(Rows(v, o), aid, size);
    } else {
      SizeIsNatural(v, o);
      SumInsert(Rows(v, o), aid, size);
    }
    LeftIsDefined(LimitOf(limits, o).value, SizeBy(v, o), adjust);
  }

  lemma UploadElsewhere(v: Vault, cid: CipherId, aid: AttachmentId, size: nat, o: Owner)
    requires Sound(v) && cid in v.ciphers && !Belongs(v.ciphers[cid], o)
    requires aid in v.attachments ==> v.attachments[aid].cipher == cid
    ensures var v' := v.(attachments := v.attachments[aid := Attachment(cid, size, true)]);
            UploadedRows(v', o) == UploadedRows(v, o)
  {
    var v' := v.(attachments := v.attachments[aid := Attachment(cid, size, true)]);
    assert Rows(v', o) == Rows(v, o);
  }

  /** A limit more than a mebibyte below 2^63. */
  predicate SafeLimit(limits: Limits, o: Owner) {
    ValidLimits(limits) && LimitOf(limits, o).Some? && LimitOf(limits, o).value * 1024 + LEEWAY < I64_MAX
  }

  /** Once the stored sum has saturated, the leeway test leaves no size that the allowance admits. */
  lemma SaturatedRefuses(v: Vault, limits: Limits, cid: CipherId, aid: AttachmentId, size: nat, writable: bool,
                         o: Owner)
    requires Sound(v) && cid in v.ciphers && Belongs(v.ciphers[cid], o) && Used(v, o) > I64_MAX
    requires SafeLimit(limits, o)
    ensures UploadDeclared(v, limits, cid, aid, size, writable).outcome == Err
    ensures !Fits(size, CipherAllowance(v, limits, v.ciphers[cid], 0))
  {
    LeftIsDefined(LimitOf(limits, o).value, I64_MAX, 0);
    if aid in v.attachments && v.attachments[aid].cipher == cid {
      LeftIsDefined(LimitOf(limits, o).value, I64_MAX, v.attachments[aid].size);
    }
  }

  lemma UploadKeepsLimit(v: Vault, limits: Limits, cid: CipherId, aid: AttachmentId, size: nat, o: Owner, v': Vault)
    requires Sound(v) && cid in v.ciphers && SafeLimit(limits, o)
    requires Belongs(v.ciphers[cid], o) ==> Used(v, o) <= I64_MAX
    requires aid in v.attachments ==> v.attachments[aid].cipher == cid
    requires var adjust := if aid in v.attachments then v.attachments[aid].size else 0;
             Fits(size, CipherAllowance(v, limits, v.ciphers[cid], adjust))
    requires v' == v.(attachments := v.attachments[aid := Attachment(cid, size, true)]) && Sound(v')
    ensures Uploaded(v', o) <= LimitOf(limits, o).value * 1024 || Uploaded(v', o) == Uploaded(v, o)
  {
    if Belongs(v.ciphers[cid], o) {
      UploadStaysWithin(v, limits, cid, aid, size, if aid in v.attachments then v.attachments[aid].size else 0, o);
      UploadedWithinUsed(v', o);
    } else {
      UploadElsewhere(v, cid, aid, size, o);
    }
  }

  /** A successful share brings exactly the uploaded bytes of the cipher. */
  lemma InboundAdds(v: Vault, cid: CipherId, caller: UserId, org: Option<OrgId>, writable: bool, accepted: bool,
                    o: Owner)
    requires Sound(v) && Update(v, cid, caller, org, writable, accepted).outcome == Ok
    requires !Belongs(v.ciphers[cid], o)
             && Belongs(Update(v, cid, caller, org, writable, accepted).vault.ciphers[cid], o)
    ensures Uploaded(Update(v, cid, caller, org, writable, accepted).vault, o)
            == Uploaded(v, o) + Sum(UploadedOf(v, cid))
  {
    var v' := Update(v, cid, caller, org, writable, accepted).vault;
    MovedRows(v, cid, v'.ciphers[cid], o);
    assert v' == v.(ciphers := v.ciphers[cid := v'.ciphers[cid]]);
    assert UploadedRows(v', o) == UploadedRows(v, o) + UploadedOf(v, cid);
    SumUnion(UploadedRows(v, o), UploadedOf(v, cid));
  }

  lemma UpdateMovesUploaded(v: Vault, limits: Limits, e: Event, o: Owner)
    requires Sound(v) && e.EvUpdate?
    ensures Uploaded(Next(v, limits, e), o) <= Uploaded(v, o) + BroughtBy(v, e, o)
  {
    var v' := Next(v, limits, e);
    if Inbound(v, e, o) {
      InboundAdds(v, e.cid, e.caller, e.org, e.writable, e.accepted, o);
    } else {
      if v' != v {
        MovedRows(v, e.cid, v'.ciphers[e.cid], o);
        assert v' == v.(ciphers := v.ciphers[e.cid := v'.ciphers[e.cid]]);
      }
      FewerUploaded(v, v', o);
    }
  }

  lemma OtherStepsKeepUploaded(v: Vault, limits: Limits, e: Event, o: Owner)
    requires Sound(v) && Sound(Next(v, limits, e))
    requires e.EvCreate? || e.EvDropCipher? || e.EvDeclare? || e.EvDropAttachment?
    ensures Uploaded(Next(v, limits, e), o) <= Uploaded(v, o)
  {
    FewerUploaded(v, Next(v, limits, e), o);
  }

  lemma UploadStepKeepsLimit(v: Vault, limits: Limits, e: Event, o: Owner)
    requires Sound(v) && Sound(Next(v, limits, e)) && SafeLimit(limits, o)
    requires e.EvUpload? || e.EvUploadNew?
    ensures Uploaded(Next(v, limits, e), o) <= LimitOf(limits, o).value * 1024
            || Uploaded(Next(v, limits, e), o) <= Uploaded(v, o)
  {
    var v' := Next(v, limits, e);
    if e.cid in v.ciphers && Belongs(v.ciphers[e.cid], o) && Used(v, o) > I64_MAX {
      SaturatedRefuses(v, limits, e.cid, e.aid, e.bytes, e.writable, o);
      FewerUploaded(v, v', o);
    } else if e.EvUpload? && UploadDeclared(v, limits, e.cid, e.aid, e.bytes, e.writable).outcome == Err {
      FewerUploaded(v, v', o);
    } else if v' != v {
      UploadKeepsLimit(v, limits, e.cid, e.aid, e.bytes, o, v');
    }
  }

  lemma StepKeepsLimit(v: Vault, limits: Limits, e: Event, o: Owner)
    requires Sound(v) && Sound(Next(v, limits, e)) && SafeLimit(limits, o)
    ensures BroughtBy(v, e, o) >= 0
    ensures Uploaded(Next(v, limits, e), o) <= LimitOf(limits, o).value * 1024
            || Uploaded(Next(v, limits, e), o) <= Uploaded(v, o) + BroughtBy(v, e, o)
  {
    if Inbound(v, e, o) { SumOfPart(map[], UploadedOf(v, e.cid)); }
    if e.EvUpdate? {
      UpdateMovesUploaded(v, limits, e, o);
    } else if e.EvUpload? || e.EvUploadNew? {
      UploadStepKeepsLimit(v, limits, e, o);
    } else {
      OtherStepsKeepUploaded(v, limits, e, o);
    }
  }

  lemma {:induction false} BroughtInIsNatural(limits: Limits, run: seq<Event>, o: Owner)
    ensures BroughtIn(limits, run, o) >= 0
  {
    if run != [] {
      var prefix, e := run[..|run| - 1], run[|run| - 1];
      BroughtInIsNatural(limits, prefix, o);
      RunIsSound(limits, prefix);
      if Inbound(After(limits, prefix), e, o) { SumOfPart(map[], UploadedOf(After(limits, prefix), e.cid)); }
    }
  }

  /**
   * In every run the uploaded bytes of an owner exceed its limit by no more than transfers have brought in. Announced
   * sizes are not bounded at all: this holds even when they make the stored sum saturate.
   */
  lemma {:induction false} UploadsStayWithinLimit(limits: Limits, run: seq<Event>, o: Owner)
    requires ValidLimits(limits) && LimitOf(limits, o).Some? && LimitOf(limits, o).value * 1024 + LEEWAY < I64_MAX
    ensures Uploaded(After(limits, run), o) <= LimitOf(limits, o).value * 1024 + BroughtIn(limits, run, o)
  {
    if run == [] {
      assert UploadedRows(After(limits, run), o) == map[];
    } else {
      var prefix := run[..|run| - 1];
      RunIsSound(limits, run);
      RunIsSound(limits, prefix);
      BroughtInIsNatural(limits, prefix, o);
      UploadsStayWithinLimit(limits, prefix, o);
      StepKeepsLimit(After(limits, prefix), limits, run[|run| - 1], o);
    }
  }

  // ----- Limits in the last mebibyte below 2^63

  lemma UsedAfterUpload(v: Vault, cid: CipherId, aid: AttachmentId, size: nat, o: Owner)
    requires Sound(v) && cid in v.ciphers && Belongs(v.ciphers[cid], o)
    requires aid in v.attachments && v.attachments[aid].cipher == cid
    ensures Used(v.(attachments := v.attachments[aid := Attachment(cid, size, true)]), o)
            == Used(v, o) - v.attachments[aid].size + size
  {
    var v' := v.(attachments := v.attachments[aid := Attachment(cid, size, true)]);
    assert Rows(v', o) == Rows(v, o)[aid := size];
    SumUpdate(Rows(v, o), aid, size);
  }

  /** Every upload that succeeds for the announced attachment leaves all rows of the owner within the limit. */
  ghost predicate UploadIsSafe(v: Vault, limits: Limits, cid: CipherId, aid: AttachmentId, o: Owner, limitKb: int) {
    forall size: nat :: UploadDeclared(v, limits, cid, aid, size, true).outcome == Ok ==>
      Used(UploadDeclared(v, limits, cid, aid, size, true).vault, o) <= limitKb * 1024
  }

  /** Whether allowance and leeway leave any size once the sum has saturated, for an announced size `adjust`. */
  predicate SaturationAdmits(limitKb: int, adjust: int) {
    limitKb * 1024 + adjust > I64_MAX && limitKb * 1024 + LEEWAY >= I64_MAX && adjust + LEEWAY <= I64_MAX
  }

  lemma UnsaturatedIsSafe(v: Vault, limits: Limits, cid: CipherId, aid: AttachmentId, o: Owner)
    requires Sound(v) && cid in v.ciphers && Belongs(v.ciphers[cid], o)
    requires aid in v.attachments && v.attachments[aid].cipher == cid
    requires ValidLimits(limits) && LimitOf(limits, o).Some? && Used(v, o) <= I64_MAX
    ensures UploadIsSafe(v, limits, cid, aid, o, LimitOf(limits, o).value)
  {
    forall size: nat | UploadDeclared(v, limits, cid, aid, size, true).outcome == Ok
      ensures Used(UploadDeclared(v, limits, cid, aid, size, true).vault, o) <= LimitOf(limits, o).value * 1024
    {
      UploadStaysWithin(v, limits, cid, aid, size, v.attachments[aid].size, o);
    }
  }

  lemma SaturatedUpload(v: Vault, limits: Limits, cid: CipherId, aid: AttachmentId, size: nat, o: Owner)
    requires Sound(v) && cid in v.ciphers && Belongs(v.ciphers[cid], o)
    requires aid in v.attachments && v.attachments[aid].cipher == cid
    requires ValidLimits(limits) && LimitOf(limits, o).Some? && Used(v, o) > I64_MAX
    ensures var kb, adjust := LimitOf(limits, o).value, v.attachments[aid].size;
            UploadDeclared(v, limits, cid, aid, size, true).outcome == Ok <==>
              && kb * 1024 + adjust > I64_MAX && adjust + LEEWAY <= I64_MAX
              && adjust - LEEWAY <= size <= kb * 1024 - I64_MAX + adjust
  {
    LeftIsDefined(LimitOf(limits, o).value, I64_MAX, v.attachments[aid].size);
  }

  /**
   * One upload keeps everything the owner has, announced rows included, within the limit exactly when the stored sum
   * fits 64 bits or the saturated sum admits no size at all.
   */
  lemma {:induction false} UploadIsSafeIff(v: Vault, limits: Limits, cid: CipherId, aid: AttachmentId, o: Owner)
    requires Sound(v) && cid in v.ciphers && Belongs(v.ciphers[cid], o)
    requires aid in v.attachments && v.attachments[aid].cipher == cid
    requires ValidLimits(limits) && LimitOf(limits, o).Some?
    ensures UploadIsSafe(v, limits, cid, aid, o, LimitOf(limits, o).value)
            <==> Used(v, o) <= I64_MAX || !SaturationAdmits(LimitOf(limits, o).value, v.attachments[aid].size)
  {
    if Used(v, o) <= I64_MAX {
      UnsaturatedIsSafe(v, limits, cid, aid, o);
    } else {
      var kb, adjust := LimitOf(limits, o).value, v.attachments[aid].size;
      forall size: nat
        ensures UploadDeclared(v, limits, cid, aid, size, true).outcome == Ok ==> SaturationAdmits(kb, adjust)
      {
        SaturatedUpload(v, limits, cid, aid, size, o);
      }
      if SaturationAdmits(kb, adjust) {
        var most: nat := kb * 1024 - I64_MAX + adjust;
        SaturatedUpload(v, limits, cid, aid, most, o);
        UsedAfterUpload(v, cid, aid, most, o);
      }
    }
  }

  lemma NextOf(limits: Limits, run: seq<Event>, e: Event)
    ensures After(limits, run + [e]) == Next(After(limits, run), limits, e)
  {
    assert (run + [e])[..|run|] == run;
  }

  function OwnedBy(o: Owner): Cipher {
    match o
    case OfUser(u) => Cipher(Some(u), None)
    case OfOrg(g) => Cipher(None, Some(g))
  }

  /** The owner's only cipher, with a full upload of `limit` bytes, and announcements that saturate the sum. */
  function Saturated(o: Owner, limit: int, last: Attachment): Vault {
    Vault(map["c" := OwnedBy(o)],
          map["full" := Attachment("c", limit, true), "huge" := Attachment("c", I64_MAX, false), "last" := last])
  }

  lemma SumOfThree(x: int, y: int, z: int)
    ensures Sum(map["full" := x, "huge" := y, "last" := z]) == x + y + z
    ensures Sum(map["full" := x, "last" := z]) == x + z
  {
    SumInsert<string>(map[], "full", x);
    SumInsert(map["full" := x], "huge", y);
    SumInsert(map["full" := x, "huge" := y], "last", z);
    SumInsert(map["full" := x], "last", z);
  }

  lemma SaturatedRows(o: Owner, limit: int, last: Attachment)
    requires last.cipher == "c"
    ensures Rows(Saturated(o, limit, last), o) == map["full" := limit, "huge" := I64_MAX, "last" := last.size]
  {
    assert Belongs(OwnedBy(o), o);
  }

  lemma SaturatedUploads(o: Owner, limit: int, last: Attachment)
    requires last.cipher == "c" && last.uploaded
    ensures UploadedRows(Saturated(o, limit, last), o) == map["full" := limit, "last" := last.size]
  {
    SaturatedRows(o, limit, last);
  }

  lemma SaturatedSums(o: Owner, limit: int, last: Attachment)
    requires last.cipher == "c"
    ensures Used(Saturated(o, limit, last), o) == limit + I64_MAX + last.size
    ensures last.uploaded ==> Uploaded(Saturated(o, limit, last), o) == limit + last.size
  {
    SaturatedRows(o, limit, last);
    if last.uploaded { SaturatedUploads(o, limit, last); }
    SumOfThree(limit, I64_MAX, last.size);
  }

  lemma SaturatedIsSound(o: Owner, limit: int, last: Attachment)
    requires 0 <= limit <= I64_MAX && last.cipher == "c" && 0 <= last.size <= I64_MAX
    ensures Sound(Saturated(o, limit, last)) && Belongs(Saturated(o, limit, last).ciphers["c"], o)
  {
  }

  lemma OneMoreByteFits(limits: Limits, o: Owner)
    requires ValidLimits(limits) && LimitOf(limits, o).Some? && LimitOf(limits, o).value * 1024 + LEEWAY >= I64_MAX
    ensures var limit := LimitOf(limits, o).value * 1024;
            UploadDeclared(Saturated(o, limit, Attachment("c", LEEWAY, false)), limits, "c", "last", 1, true).vault
            == Saturated(o, limit, Attachment("c", 1, true))
  {
    var limit := LimitOf(limits, o).value * 1024;
    var v := Saturated(o, limit, Attachment("c", LEEWAY, false));
    SaturatedIsSound(o, limit, Attachment("c", LEEWAY, false));
    SaturatedSums(o, limit, Attachment("c", LEEWAY, false));
    SaturatedUpload(v, limits, "c", "last", 1, o);
    assert v.attachments["last" := Attachment("c", 1, true)]
           == Saturated(o, limit, Attachment("c", 1, true)).attachments;
  }

  lemma FullUploadFits(limits: Limits, o: Owner)
    requires ValidLimits(limits) && LimitOf(limits, o).Some? && LimitOf(limits, o).value > 0
    ensures var limit := LimitOf(limits, o).value * 1024;
            Next(Vault(map["c" := OwnedBy(o)], map[]), limits, EvUploadNew("c", "full", limit, true, true))
            == Vault(map["c" := OwnedBy(o)], map["full" := Attachment("c", limit, true)])
  {
    assert Rows(Vault(map["c" := OwnedBy(o)], map[]), o) == map[];
    LeftIsDefined(LimitOf(limits, o).value, 0, 0);
  }

  lemma LimitIsFilled(limits: Limits, o: Owner) returns (run: seq<Event>)
    requires ValidLimits(limits) && LimitOf(limits, o).Some? && LimitOf(limits, o).value > 0
    ensures After(limits, run) == Vault(map["c" := OwnedBy(o)],
                                        map["full" := Attachment("c", LimitOf(limits, o).value * 1024, true)])
    ensures forall k :: 0 <= k < |run| ==> !run[k].EvUpdate?
  {
    var e1 := if o.OfUser? then EvCreate("c", o.user, None, true) else EvCreate("c", "bob", Some(o.org), true);
    NextOf(limits, [], e1);
    assert After(limits, [] + [e1]) == Vault(map["c" := OwnedBy(o)], map[]);
    var e2 := EvUploadNew("c", "full", LimitOf(limits, o).value * 1024, true, true);
    NextOf(limits, [] + [e1], e2);
    FullUploadFits(limits, o);
    run := [] + [e1] + [e2];
  }

  /** After two announcements and one more upload. */
  lemma AnnouncedAndUploaded(limits: Limits, o: Owner)
    requires ValidLimits(limits) && LimitOf(limits, o).Some? && LimitOf(limits, o).value * 1024 + LEEWAY >= I64_MAX
    ensures var limit := LimitOf(limits, o).value * 1024;
            var v := Vault(map["c" := OwnedBy(o)], map["full" := Attachment("c", limit, true)]);
            var v1 := Next(v, limits, EvDeclare("c", "huge", I64_MAX, true));
            var v2 := Next(v1, limits, EvDeclare("c", "last", LEEWAY, true));
            Next(v2, limits, EvUpload("c", "last", 1, true)) == Saturated(o, limit, Attachment("c", 1, true))
  {
    OneMoreByteFits(limits, o);
  }

  /** Fill the limit, announce two files so that the sum saturates, and upload one more byte. */
  lemma LastMebibyteIsExceeded(limits: Limits, o: Owner) returns (run: seq<Event>)
    requires ValidLimits(limits) && LimitOf(limits, o).Some? && LimitOf(limits, o).value * 1024 + LEEWAY >= I64_MAX
    ensures Uploaded(After(limits, run), o) == LimitOf(limits, o).value * 1024 + 1 && BroughtIn(limits, run, o) == 0
  {
    var filled := LimitIsFilled(limits, o);
    var e3, e4 := EvDeclare("c", "huge", I64_MAX, true), EvDeclare("c", "last", LEEWAY, true);
    var e5 := EvUpload("c", "last", 1, true);
    NextOf(limits, filled, e3);
    NextOf(limits, filled + [e3], e4);
    NextOf(limits, filled + [e3] + [e4], e5);
    AnnouncedAndUploaded(limits, o);
    run := filled + [e3] + [e4] + [e5];
    SaturatedSums(o, LimitOf(limits, o).value * 1024, Attachment("c", 1, true));
    NothingIsBrought(limits, run, o);
  }

  lemma {:induction false} NothingIsBrought(limits: Limits, run: seq<Event>, o: Owner)
    requires forall k :: 0 <= k < |run| ==> !run[k].EvUpdate?
    ensures BroughtIn(limits, run, o) == 0
  {
    if run != [] { NothingIsBrought(limits, run[..|run| - 1], o); }
  }

  /** Exactly the limits below the last mebibyte of 64 bits hold in every run. */
  lemma {:induction false} LimitHoldsIff(limits: Limits, o: Owner)
    requires ValidLimits(limits) && LimitOf(limits, o).Some?
    ensures (forall run ::
               Uploaded(After(limits, run), o) <= LimitOf(limits, o).value * 1024 + BroughtIn(limits, run, o))
            <==> LimitOf(limits, o).value * 1024 + LEEWAY < I64_MAX
  {
    if LimitOf(limits, o).value * 1024 + LEEWAY < I64_MAX {
      forall run
        ensures Uploaded(After(limits, run), o) <= LimitOf(limits, o).value * 1024 + BroughtIn(limits, run, o)
      {
        UploadsStayWithinLimit(limits, run, o);
      }
    } else {
      var run := LastMebibyteIsExceeded(limits, o);
    }
  }

  // ----- Sharing consults no limit

  /**
   * A successful share brings exactly the uploaded bytes of the cipher, so it keeps the limit exactly when they fit in.
   */
  lemma {:induction false} InboundStaysWithinIff(v: Vault, limits: Limits, cid: CipherId, caller: UserId,
                                                 org: Option<OrgId>, writable: bool, accepted: bool, o: Owner)
    requires Sound(v) && Update(v, cid, caller, org, writable, accepted).outcome == Ok && LimitOf(limits, o).Some?
    requires !Belongs(v.ciphers[cid], o)
             && Belongs(Update(v, cid, caller, org, writable, accepted).vault.ciphers[cid], o)
    ensures Uploaded(Update(v, cid, caller, org, writable, accepted).vault, o) <= LimitOf(limits, o).value * 1024
            <==> Uploaded(v, o) + Sum(UploadedOf(v, cid)) <= LimitOf(limits, o).value * 1024
  {
    InboundAdds(v, cid, caller, org, writable, accepted, o);
  }

  const SMALL_ORG_LIMIT := Limits(Some(2), Some(1))
  const PERSONAL := Vault(map["c" := Cipher(Some("alice"), None)], map[])
  const WITH_FILE := Vault(map["c" := Cipher(Some("alice"), None)], map["a" := Attachment("c", 1500, true)])
  const SHARED := Vault(map["c" := Cipher(None, Some("acme"))], map["a" := Attachment("c", 1500, true)])

  lemma FileFits()
    ensures Next(PERSONAL, SMALL_ORG_LIMIT, EvUploadNew("c", "a", 1500, true, true)) == WITH_FILE
  {
    assert Rows(PERSONAL, OfUser("alice")) == map[];
    assert CipherAllowance(PERSONAL, SMALL_ORG_LIMIT, Cipher(Some("alice"), None), 0) == Bytes(2048);
  }

  /** A run that shares a file within the user's limit into an organization with a smaller one. */
  lemma SharingCanExceedLimit() returns (run: seq<Event>)
    ensures ValidLimits(SMALL_ORG_LIMIT) && SMALL_ORG_LIMIT.orgKb == Some(1)
    ensures Uploaded(After(SMALL_ORG_LIMIT, run), OfOrg("acme")) == 1500
  {
    var e1 := EvCreate("c", "alice", None, true);
    var e2 := EvUploadNew("c", "a", 1500, true, true);
    var e3 := EvUpdate("c", "alice", Some("acme"), true, true);
    NextOf(SMALL_ORG_LIMIT, [], e1);
    assert After(SMALL_ORG_LIMIT, [] + [e1]) == PERSONAL;
    NextOf(SMALL_ORG_LIMIT, [] + [e1], e2);
    FileFits();
    NextOf(SMALL_ORG_LIMIT, [] + [e1] + [e2], e3);
    run := [] + [e1] + [e2] + [e3];
    assert After(SMALL_ORG_LIMIT, run) == SHARED;
    assert UploadedRows(SHARED, OfOrg("acme")) == map["a" := 1500];
    SumInsert<AttachmentId>(map[], "a", 1500);
  }
}
