/**
 * Ciphers, who owns them, and the attachments counted against their owner's storage limit.
 * Access checks, policies and field validation enter as the outcome of the source's queries.
 */
module Ciphers {
  import opened Common
  import opened Totals

  type CipherId = string
  type AttachmentId = string
  type UserId = string
  type OrgId = string

  datatype Cipher = Cipher(user: Option<UserId>, org: Option<OrgId>)

  /** `uploaded` tells a row whose file has been accepted from one that is only announced. */
  datatype Attachment = Attachment(cipher: CipherId, size: int, uploaded: bool)

  datatype Vault = Vault(ciphers: map<CipherId, Cipher>, attachments: map<AttachmentId, Attachment>)

  datatype Owner = OfUser(user: UserId) | OfOrg(org: OrgId)

  /** Configured limits in kilobytes. */
  datatype Limits = Limits(userKb: Option<int>, orgKb: Option<int>)

  const MAX_FILESIZE_KB: int := I64_MAX / 1024
  const LEEWAY: int := 1024 * 1024

  /** What the configuration check lets through. */
  predicate ValidLimit(limit: Option<int>) {
    limit.Some? ==> 0 <= limit.value <= MAX_FILESIZE_KB
  }

  predicate ValidLimits(limits: Limits) {
    ValidLimit(limits.userKb) && ValidLimit(limits.orgKb)
  }

  // ----- Ownership

  predicate Belongs(c: Cipher, o: Owner) {
    match o
    case OfUser(u) => c.user == Some(u)
    case OfOrg(g) => c.org == Some(g)
  }

  predicate OneOwner(c: Cipher) {
    c.user.Some? != c.org.Some?
  }

  /** The owner columns after an update with `org` in the request; None is an error reply. */
  function Reowned(c: Cipher, caller: UserId, org: Option<OrgId>, accepted: bool): Option<Cipher> {
    if !accepted || (c.org.Some? && c.org != org) then None
    else if org.Some? then Some(c.(org := org, user := None))
    else Some(c.(user := Some(caller)))
  }

  // ----- Storage

  function Rows(v: Vault, o: Owner): map<AttachmentId, int> {
    map a | a in v.attachments && v.attachments[a].cipher in v.ciphers && Belongs(v.ciphers[v.attachments[a].cipher], o)
      :: v.attachments[a].size
  }

  function UploadedRows(v: Vault, o: Owner): map<AttachmentId, int> {
    map a | a in Rows(v, o) && v.attachments[a].uploaded :: v.attachments[a].size
  }

  ghost function Used(v: Vault, o: Owner): int {
    Sum(Rows(v, o))
  }

  ghost function Uploaded(v: Vault, o: Owner): int {
    Sum(UploadedRows(v, o))
  }

  /** The database sum, which saturates when it does not fit 64 bits. */
  ghost function SizeBy(v: Vault, o: Owner): int {
    if Used(v, o) > I64_MAX then I64_MAX else Used(v, o)
  }

  function Checked(x: int): Option<int> {
    if I64_MIN <= x <= I64_MAX then Some(x) else None
  }

  /** `limit_kb * 1024 - already_used + size_adjust`, each operation checked. */
  function Left(limitKb: int, used: int, adjust: int): Option<int> {
    match Checked(limitKb * 1024)
    case None => None
    case Some(l) =>
      match Checked(l - used)
      case None => None
      case Some(r) => Checked(r + adjust)
  }

  datatype Denial = Disabled | Overflow | Reached | NoOwner

  datatype Allowance = Unlimited | Bytes(n: int) | Denied(why: Denial)

  function AllowanceFor(limit: Option<int>, used: int, adjust: int): Allowance {
    match limit
    case None => Unlimited
    case Some(kb) =>
      if kb == 0 then Denied(Disabled)
      else
        match Left(kb, used, adjust)
        case None => Denied(Overflow)
        case Some(left) => if left <= 0 then Denied(Reached) else Bytes(left)
  }

  ghost function CipherAllowance(v: Vault, limits: Limits, c: Cipher, adjust: int): Allowance {
    match c.user
    case Some(u) => AllowanceFor(limits.userKb, SizeBy(v, OfUser(u)), adjust)
    case None =>
      match c.org
      case Some(g) => AllowanceFor(limits.orgKb, SizeBy(v, OfOrg(g)), adjust)
      case None => Denied(NoOwner)
  }

  predicate Fits(size: int, allowance: Allowance) {
    allowance.Unlimited? || (allowance.Bytes? && size <= allowance.n)
  }

  datatype Result = Result(vault: Vault, outcome: Outcome)

  /** Announcing an attachment: no limit is consulted. */
  function Declare(v: Vault, cid: CipherId, aid: AttachmentId, size: int, writable: bool): Result {
    if cid !in v.ciphers || !writable || size < 0 then Result(v, Err)
    else Result(v.(attachments := v.attachments[aid := Attachment(cid, size, false)]), Ok)
  }

  /** Uploading, or uploading again, the file of an announced attachment. */
  ghost function UploadDeclared(v: Vault, limits: Limits, cid: CipherId, aid: AttachmentId, size: nat,
                                writable: bool): Result
  {
    if aid !in v.attachments || v.attachments[aid].cipher != cid then Result(v, Err)
    else if size > I64_MAX || cid !in v.ciphers || !writable then Result(v, Err)
    else
      var row := v.attachments[aid];
      if !Fits(size, CipherAllowance(v, limits, v.ciphers[cid], row.size)) then Result(v, Err)
      else if Checked(row.size + LEEWAY).None? || Checked(row.size - LEEWAY).None? then Result(v, Err)
      else if row.size - LEEWAY <= size <= row.size + LEEWAY
      then Result(v.(attachments := v.attachments[aid := row.(size := size, uploaded := true)]), Ok)
      else Result(v.(attachments := v.attachments - {aid}), Err)
  }

  /** The older interface creates the row together with the file; `complete` tells whether name and key were sent. */
  ghost function UploadNew(v: Vault, limits: Limits, cid: CipherId, aid: AttachmentId, size: nat, writable: bool,
                           complete: bool): Result
    requires aid !in v.attachments
  {
    if size > I64_MAX || cid !in v.ciphers || !writable then Result(v, Err)
    else if !Fits(size, CipherAllowance(v, limits, v.ciphers[cid], 0)) || !complete then Result(v, Err)
    else Result(v.(attachments := v.attachments[aid := Attachment(cid, size, true)]), Ok)
  }

  function DropAttachment(v: Vault, cid: CipherId, aid: AttachmentId, writable: bool): Result {
    if aid !in v.attachments || v.attachments[aid].cipher != cid || cid !in v.ciphers || !writable then Result(v, Err)
    else Result(v.(attachments := v.attachments - {aid}), Ok)
  }

  /** Deleting a cipher deletes its attachments. */
  function DropCipher(v: Vault, cid: CipherId): Vault {
    Vault(v.ciphers - {cid}, map a | a in v.attachments && v.attachments[a].cipher != cid :: v.attachments[a])
  }

  /** A new cipher is filled by the update before it is stored. */
  function Create(v: Vault, cid: CipherId, caller: UserId, org: Option<OrgId>, accepted: bool): Result
    requires cid !in v.ciphers
  {
    match Reowned(Cipher(None, None), caller, org, accepted)
    case None => Result(v, Err)
    case Some(c) => Result(v.(ciphers := v.ciphers[cid := c]), Ok)
  }

  /** Updating or sharing a stored cipher. */
  function Update(v: Vault, cid: CipherId, caller: UserId, org: Option<OrgId>, writable: bool, accepted: bool): Result {
    if cid !in v.ciphers || !writable then Result(v, Err)
    else
      match Reowned(v.ciphers[cid], caller, org, accepted)
      case None => Result(v, Err)
      case Some(c) => Result(v.(ciphers := v.ciphers[cid := c]), Ok)
  }

  /** The owner an update leaves: the organization if there is one, otherwise the caller, and never both. */
  function OwnedAfter(caller: UserId, org: Option<OrgId>): Cipher {
    if org.Some? then Cipher(None, org) else Cipher(Some(caller), None)
  }

  // ----- The handlers

  class Server {
    var ciphers: map<CipherId, Cipher>
    var attachments: map<AttachmentId, Attachment>
    const limits: Limits

    ghost function Contents(): Vault
      reads this
    {
      Vault(ciphers, attachments)
    }

    constructor (limits: Limits)
      ensures Contents() == Vault(map[], map[]) && this.limits == limits
    {
      ciphers, attachments, this.limits := map[], map[], limits;
    }

    /** The sum over the rows of one owner, taken in any order. */
    method SizeOf(o: Owner) returns (n: int)
      ensures n == SizeBy(Contents(), o)
    {
      var rows := Rows(Vault(ciphers, attachments), o);
      var total, rest := 0, rows;
      while rest != map[]
        invariant total + Sum(rest) == Sum(rows)
        decreases rest
      {
        var a :| a in rest;
        SumRemove(rest, a);
        total := total + rest[a];
        rest := rest - {a};
      }
      return if total > I64_MAX then I64_MAX else total;
    }

    method AllowanceOf(c: Cipher, adjust: int) returns (r: Allowance)
      ensures r == CipherAllowance(Contents(), limits, c, adjust)
    {
      var o, limit;
      if c.user.Some? {
        o, limit := OfUser(c.user.value), limits.userKb;
      } else if c.org.Some? {
        o, limit := OfOrg(c.org.value), limits.orgKb;
      } else {
        return Denied(NoOwner);
      }
      match limit {
        case None => return Unlimited;
        case Some(kb) =>
          if kb == 0 { return Denied(Disabled); }
          var used := SizeOf(o);
          var left := Left(kb, used, adjust);
          if left.None? { return Denied(Overflow); }
          if left.value <= 0 { return Denied(Reached); }
          return Bytes(left.value);
      }
    }

    method UpdateCipherFromData(cid: CipherId, c: Cipher, caller: UserId, org: Option<OrgId>, accepted: bool)
      returns (r: Outcome)
      modifies this`ciphers
      ensures match Reowned(c, caller, org, accepted)
              case None => r == Err && ciphers == old(ciphers)
              case Some(c') => r == Ok && ciphers == old(ciphers)[cid := c']
      ensures r == Ok <==> accepted && (c.org.None? || c.org == org)
      ensures ciphers == if r == Ok then old(ciphers)[cid := OwnedAfter(caller, org)] else old(ciphers)
    {
      var cipher := c;
      if !accepted { return Err; }
      if cipher.org.Some? && cipher.org != org { return Err; }
      if org.Some? {
        cipher := cipher.(org := org);
        cipher := cipher.(user := None);
      } else {
        cipher := cipher.(user := Some(caller));
      }
      ciphers := ciphers[cid := cipher];
      return Ok;
    }

    method PostCiphers(cid: CipherId, caller: UserId, org: Option<OrgId>, accepted: bool) returns (r: Outcome)
      requires cid !in ciphers
      modifies this`ciphers
      ensures Result(Contents(), r) == Create(old(Contents()), cid, caller, org, accepted)
      ensures r == Ok <==> accepted
      ensures ciphers == if r == Ok then old(ciphers)[cid := OwnedAfter(caller, org)] else old(ciphers)
    {
      r := UpdateCipherFromData(cid, Cipher(None, None), caller, org, accepted);
    }

    /** Stores a personal cipher, shares it at once, and takes it back when that fails. */
    method PostCiphersCreate(cid: CipherId, caller: UserId, org: Option<OrgId>, policyOk: bool, accepted: bool)
      returns (r: Outcome)
      requires cid !in ciphers && forall a :: a in attachments ==> attachments[a].cipher != cid
      modifies this
      ensures Result(Contents(), r) == Create(old(Contents()), cid, caller, org, policyOk && accepted)
      ensures r == Ok <==> policyOk && accepted
      ensures ciphers == if r == Ok then old(ciphers)[cid := OwnedAfter(caller, org)] else old(ciphers)
      ensures attachments == old(attachments)
    {
      if !policyOk { return Err; }
      ciphers := ciphers[cid := Cipher(Some(caller), None)];
      r := ShareCipherByUuid(cid, caller, org, true, accepted);
      if r == Err {
        DeleteCipher(cid);
      }
      assert Contents().ciphers == Create(old(Contents()), cid, caller, org, policyOk && accepted).vault.ciphers;
    }

    method ShareCipherByUuid(cid: CipherId, caller: UserId, org: Option<OrgId>, writable: bool, accepted: bool)
      returns (r: Outcome)
      modifies this`ciphers
      ensures Result(Contents(), r) == Update(old(Contents()), cid, caller, org, writable, accepted)
      ensures r == Ok <==> && cid in old(ciphers) && writable && accepted
                           && (old(ciphers)[cid].org.None? || old(ciphers)[cid].org == org)
      ensures ciphers == if r == Ok then old(ciphers)[cid := OwnedAfter(caller, org)] else old(ciphers)
    {
      if cid !in ciphers { return Err; }
      if !writable { return Err; }
      r := UpdateCipherFromData(cid, ciphers[cid], caller, org, accepted);
    }

    method DeleteCipher(cid: CipherId)
      modifies this
      ensures Contents() == DropCipher(old(Contents()), cid)
      ensures ciphers == old(ciphers) - {cid}
      ensures forall a :: a in attachments <==> a in old(attachments) && old(attachments)[a].cipher != cid
      ensures forall a :: a in attachments ==> attachments[a] == old(attachments)[a]
    {
      attachments := map a | a in attachments && attachments[a].cipher != cid :: attachments[a];
      ciphers := ciphers - {cid};
    }

    method PostAttachmentV2(cid: CipherId, aid: AttachmentId, size: int, writable: bool) returns (r: Outcome)
      modifies this`attachments
      ensures Result(Contents(), r) == Declare(old(Contents()), cid, aid, size, writable)
      ensures r == Ok <==> cid in ciphers && writable && size >= 0
      ensures attachments == if r == Ok then old(attachments)[aid := Attachment(cid, size, false)] else old(attachments)
    {
      if cid !in ciphers { return Err; }
      if !writable { return Err; }
      if size < 0 { return Err; }
      attachments := attachments[aid := Attachment(cid, size, false)];
      return Ok;
    }

    method PostAttachmentV2Data(cid: CipherId, aid: AttachmentId, size: nat, writable: bool) returns (r: Outcome)
      modifies this`attachments
      ensures Result(Contents(), r) == UploadDeclared(old(Contents()), limits, cid, aid, size, writable)
      ensures var admitted := && aid in old(attachments) && old(attachments)[aid].cipher == cid
                              && size <= I64_MAX && cid in ciphers && writable
                              && Fits(size, CipherAllowance(old(Contents()), limits, ciphers[cid],
                                                            old(attachments)[aid].size))
                              && I64_MIN <= old(attachments)[aid].size - 1048576
                              && old(attachments)[aid].size + 1048576 <= I64_MAX;
              && (r == Ok <==> && admitted && size >= old(attachments)[aid].size - 1048576
                               && size <= old(attachments)[aid].size + 1048576)
              && attachments == if r == Ok then old(attachments)[aid := Attachment(cid, size, true)]
                                else if admitted then old(attachments) - {aid}
                                else old(attachments)
    {
      if aid !in attachments || attachments[aid].cipher != cid { return Err; }
      var attachment := attachments[aid];
      if size > I64_MAX { return Err; }
      if cid !in ciphers || !writable { return Err; }
      var allowance := AllowanceOf(ciphers[cid], attachment.size);
      if allowance.Denied? { return Err; }
      if allowance.Bytes? && size > allowance.n { return Err; }
      var maxSize, minSize := Checked(attachment.size + LEEWAY), Checked(attachment.size - LEEWAY);
      if maxSize.None? || minSize.None? { return Err; }
      if minSize.value <= size <= maxSize.value {
        attachments := attachments[aid := attachment.(size := size, uploaded := true)];
        return Ok;
      } else {
        attachments := attachments - {aid};
        return Err;
      }
    }

    method PostAttachment(cid: CipherId, aid: AttachmentId, size: nat, writable: bool, complete: bool)
      returns (r: Outcome)
      requires aid !in attachments
      modifies this`attachments
      ensures Result(Contents(), r) == UploadNew(old(Contents()), limits, cid, aid, size, writable, complete)
      ensures r == Ok <==> && size <= I64_MAX && cid in ciphers && writable && complete
                           && Fits(size, CipherAllowance(old(Contents()), limits, ciphers[cid], 0))
      ensures attachments == if r == Ok then old(attachments)[aid := Attachment(cid, size, true)] else old(attachments)
    {
      if size > I64_MAX { return Err; }
      if cid !in ciphers || !writable { return Err; }
      var allowance := AllowanceOf(ciphers[cid], 0);
      if allowance.Denied? { return Err; }
      if allowance.Bytes? && size > allowance.n { return Err; }
      if !complete { return Err; }
      attachments := attachments[aid := Attachment(cid, size, true)];
      return Ok;
    }

    method DeleteAttachment(cid: CipherId, aid: AttachmentId, writable: bool) returns (r: Outcome)
      modifies this`attachments
      ensures Result(Contents(), r) == DropAttachment(old(Contents()), cid, aid, writable)
      ensures r == Ok <==> && aid in old(attachments) && old(attachments)[aid].cipher == cid
                           && cid in ciphers && writable
      ensures attachments == if r == Ok then old(attachments) - {aid} else old(attachments)
    {
      if aid !in attachments || attachments[aid].cipher != cid { return Err; }
      if cid !in ciphers || !writable { return Err; }
      attachments := attachments - {aid};
      return Ok;
    }
  }
}
