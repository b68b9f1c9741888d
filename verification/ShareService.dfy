/** ShareService and FileAccessValidationService as one object over the file_access collection. */
module ShareService {
  import opened Common
  import opened Shares

  datatype FileInfo = FileInfo(uploadedBy: string, isDeleted: bool)

  datatype Account = Account(isActive: bool, isDeleted: bool)

  datatype ShareError =
    | FileNotFound | FileDeleted | NotOwner | BadUserId | TargetNotFound | TargetInactive | SharedWithSelf
    | BadExpiry | ExpiryPast | DuplicateShare | ShareNotFound | AlreadyRevoked

  /** The request body; the ids in it are text as typed. */
  datatype ShareRequest = ShareRequest(
    fileId: string, sharedWithUserId: string, permission: Permission, expiresAt: Option<int>,
    maxDownloads: Option<nat>, oneTimeAccess: bool, device: string)

  predicate IsActiveFor(share: Share, fileId: string, userId: string) {
    share.status == ACTIVE && share.fileId == fileId && share.sharedWith == userId
  }

  /** The checks on the recipient: a text that is no ObjectId makes the lookup throw; the self check reads the text. */
  function Recipient(users: map<string, Account>, typed: string, userId: string): Result<string, ShareError> {
    var target := CastId(typed);
    if target.None? then Err(BadUserId)
    else if target.value !in users || users[target.value].isDeleted then Err(TargetNotFound)
    else if !users[target.value].isActive then Err(TargetInactive)
    else if typed == userId then Err(SharedWithSelf)
    else Ok(target.value)
  }

  predicate Takes(users: map<string, Account>, userId: string) {
    userId in users && !users[userId].isDeleted && users[userId].isActive
  }

  /**
   * Whom a share is accepted for. An owner with an active account is accepted as the recipient
   * exactly when the text typed is the owner's id in another spelling.
   */
  lemma RecipientExactly(users: map<string, Account>, typed: string, userId: string)
    ensures forall target :: Recipient(users, typed, userId) == Ok(target) <==>
      CastId(typed) == Some(target) && Takes(users, target) && typed != userId
    ensures CastId(userId) == Some(userId) ==>
      (Recipient(users, typed, userId) == Ok(userId) <==>
        Takes(users, userId) && !SpelledAsPrinted(typed, userId))
    ensures var r, target := Recipient(users, typed, userId), CastId(typed);
      && (r == Err(BadUserId) <==> target.None?)
      && (r == Err(TargetNotFound) <==> target.Some? && (target.value !in users || users[target.value].isDeleted))
      && (target.Some? && target.value in users && !users[target.value].isDeleted ==>
            && (r == Err(TargetInactive) <==> !users[target.value].isActive)
            && (r == Err(SharedWithSelf) <==> users[target.value].isActive && typed == userId))
  {
    if CastId(userId) == Some(userId) && Lower(typed) == userId { LowerHex(typed); }
  }

  /** Text that is hexadecimal in lower case is hexadecimal. */
  lemma LowerHex(text: string)
    requires CastId(Lower(text)).Some?
    ensures CastId(text) == Some(Lower(text))
  {
    forall c | c in text ensures HexDigit(c) {
      var i :| 0 <= i < |text| && text[i] == c;
      assert Lower(text)[i] in Lower(text);
    }
  }

  const PRINTED := "665a1234abcd5678ef901234"

  const TYPED := "665A1234ABCD5678EF901234"

  lemma TypedIsPrinted()
    ensures Lower(TYPED) == PRINTED
  {
    assert forall i :: 0 <= i < 24 ==> LowerChar(TYPED[i]) == PRINTED[i];
  }

  lemma PrintedIsId()
    ensures CastId(PRINTED) == Some(PRINTED)
  {
    assert forall c :: c in PRINTED ==> HexDigit(c) && LowerChar(c) == c;
    assert Lower(PRINTED) == PRINTED;
  }

  /** An id typed in upper case: the caller is found, is not recognised, and becomes the recipient. */
  lemma UpperCaseSelfShare()
    ensures CastId(PRINTED) == Some(PRINTED)
    ensures Recipient(map[PRINTED := Account(true, false)], TYPED, PRINTED) == Ok(PRINTED)
  {
    TypedIsPrinted();
    PrintedIsId();
    LowerHex(TYPED);
    assert TYPED[3] != PRINTED[3];
  }

  class Service {
    var shares: Store
    /** Files by _id, and _ids by uuid. */
    var files: map<string, FileInfo>
    var uuids: map<string, string>
    var users: map<string, Account>

    ghost predicate Valid()
      reads this
    {
      StoreOk(shares) && forall f :: f in files ==> CastId(files[f].uploadedBy) == Some(files[f].uploadedBy)
    }

    constructor (files: map<string, FileInfo>, uuids: map<string, string>, users: map<string, Account>)
      requires forall f :: f in files ==> CastId(files[f].uploadedBy) == Some(files[f].uploadedBy)
      ensures Valid() && shares == map[] && this.files == files && this.uuids == uuids && this.users == users
    {
      this.shares, this.files, this.uuids, this.users := map[], files, uuids, users;
    }

    /** resolveFile: by uuid first, then by _id in either case. */
    function ResolveFile(fileId: string): (r: Option<string>)
      reads this
      ensures fileId in uuids && uuids[fileId] in files ==> r == Some(uuids[fileId])
      ensures !(fileId in uuids && uuids[fileId] in files) ==>
        r == if CastId(fileId).Some? && CastId(fileId).value in files then CastId(fileId) else None
    {
      if fileId in uuids && uuids[fileId] in files then Some(uuids[fileId])
      else if CastId(fileId).Some? && CastId(fileId).value in files then CastId(fileId) else None
    }

    /** findOne on an ACTIVE share; the partial unique index makes the answer the only one. */
    method FindActiveShare(fileId: string, userId: string) returns (found: Option<string>)
      requires Valid()
      ensures found == FindActive(shares, fileId, userId)
    {
      if id :| id in shares && IsActiveFor(shares[id], fileId, userId) {
        assert ActiveFor(shares, id, fileId, userId);
        return Some(id);
      }
      return None;
    }

    /** Owner and recipient of the new share differ exactly when the text typed does not respell the owner's id. */
    method ShareFile(request: ShareRequest, userId: string, id: string, now: int)
      returns (r: Result<string, ShareError>)
      requires Valid() && id !in shares
      requires request.maxDownloads.Some? ==> request.maxDownloads.value >= 1
      modifies this`shares
      ensures Valid()
      ensures r.Ok? <==>
        && ResolveFile(request.fileId).Some?
        && var file, target := ResolveFile(request.fileId).value, CastId(request.sharedWithUserId);
           && !files[file].isDeleted && files[file].uploadedBy == userId
           && target.Some? && Takes(users, target.value) && request.sharedWithUserId != userId
           && request.expiresAt.Some? && now < request.expiresAt.value
           && FindActive(old(shares), file, target.value).None?
      ensures r.Ok? ==> r.value == id && id in shares
      ensures r.Ok? ==> shares == Step(old(shares), Create(id, shares[id], request.sharedWithUserId, now))
      ensures r.Ok? ==>
        shares[id] == Share(ResolveFile(request.fileId).value, userId, CastId(request.sharedWithUserId).value,
                            request.permission, ACTIVE, request.expiresAt.value, request.maxDownloads, 0,
                            request.oneTimeAccess, request.device)
      ensures r.Ok? ==>
        (shares[id].ownerId != shares[id].sharedWith <==> SpelledAsPrinted(request.sharedWithUserId, userId))
      ensures r.Err? ==> shares == old(shares)
      ensures r.Err? ==>
        r.error == if ResolveFile(request.fileId).None? then FileNotFound
                   else if files[ResolveFile(request.fileId).value].isDeleted then FileDeleted
                   else if files[ResolveFile(request.fileId).value].uploadedBy != userId then NotOwner
                   else if Recipient(users, request.sharedWithUserId, userId).Err?
                   then Recipient(users, request.sharedWithUserId, userId).error
                   else if request.expiresAt.None? then BadExpiry
                   else if request.expiresAt.value <= now then ExpiryPast
                   else DuplicateShare
    {
      var file := ResolveFile(request.fileId);
      if file.None? { return Err(FileNotFound); }
      if files[file.value].isDeleted { return Err(FileDeleted); }
      if files[file.value].uploadedBy != userId { return Err(NotOwner); }
      RecipientExactly(users, request.sharedWithUserId, userId);
      var target := Recipient(users, request.sharedWithUserId, userId);
      if target.Err? { return Err(target.error); }
      if request.expiresAt.None? { return Err(BadExpiry); }
      if request.expiresAt.value <= now { return Err(ExpiryPast); }
      var existing := FindActiveShare(file.value, target.value);
      if existing.Some? { return Err(DuplicateShare); }
      var share := Share(file.value, userId, target.value, request.permission, ACTIVE,
                         request.expiresAt.value, request.maxDownloads, 0, request.oneTimeAccess, request.device);
      StepKeeps(shares, Create(id, share, request.sharedWithUserId, now));
      shares := shares[id := share];
      return Ok(id);
    }

    /** Only the owner revokes; an EXPIRED share may still be revoked. */
    method RevokeShare(id: string, userId: string, now: int) returns (r: Result<(), ShareError>)
      requires Valid()
      modifies this`shares
      ensures Valid() && shares == Step(old(shares), Revoke(id, userId, now))
      ensures r.Ok? <==>
        id in old(shares) && old(shares)[id].ownerId == userId && old(shares)[id].status in {ACTIVE, EXPIRED}
      ensures shares == if r.Ok? then old(shares)[id := old(shares)[id].(status := REVOKED)] else old(shares)
      ensures r == Err(NotOwner) <==> id in old(shares) && old(shares)[id].ownerId != userId
      ensures r == Err(AlreadyRevoked) <==>
        id in old(shares) && old(shares)[id].ownerId == userId && old(shares)[id].status == REVOKED
      ensures r == Err(ShareNotFound) <==> id !in old(shares)
    {
      if id !in shares { return Err(ShareNotFound); }
      if shares[id].ownerId != userId { return Err(NotOwner); }
      if shares[id].status == REVOKED { return Err(AlreadyRevoked); }
      StepKeeps(shares, Revoke(id, userId, now));
      shares := shares[id := shares[id].(status := REVOKED)];
      return Ok(());
    }

    method ValidateAccess(fileId: string, userId: string, action: ShareAction, device: string, now: int)
      returns (r: Result<Share, Denial>)
      requires Valid()
      modifies this`shares
      ensures Valid() && shares == Step(old(shares), Validate(fileId, userId, action, device, now))
      ensures var found := FindActive(old(shares), fileId, userId);
        && (found.None? ==> r == Err(NoActiveShare) && shares == old(shares))
        && (found.Some? ==>
              var share := old(shares)[found.value];
              && r == (match Gate(share, action, device, now) case None => Ok(share) case Some(why) => Err(why))
              && (r.Ok? <==>
                    && now <= share.expiresAt && action in Allowed(share.permission)
                    && (action == ToDownload && share.maxDownloads.Some? ==>
                          share.downloadCount < share.maxDownloads.value)
                    && (share.device == "" || device == share.device))
              && shares == if now > share.expiresAt
                           then old(shares)[found.value := share.(status := EXPIRED)] else old(shares))
    {
      var found := FindActiveShare(fileId, userId);
      if found.None? { return Err(NoActiveShare); }
      var share := shares[found.value];
      assert ActiveFor(shares, found.value, fileId, userId);
      if now > share.expiresAt {
        StepKeeps(shares, Validate(fileId, userId, action, device, now));
        shares := shares[found.value := share.(status := EXPIRED)];
        return Err(ShareExpired);
      }
      if !HasPermissionFor(share.permission, action) { return Err(InsufficientPermission); }
      if action == ToDownload && share.maxDownloads.Some? && share.downloadCount >= share.maxDownloads.value {
        return Err(LimitReached);
      }
      if share.device != "" {
        if device == "" || device != share.device { return Err(WrongDevice); }
      }
      return Ok(share);
    }

    method RecordDownload(id: string, now: int)
      requires Valid()
      modifies this`shares
      ensures Valid() && shares == Step(old(shares), Operation.RecordDownload(id, now))
      ensures id !in old(shares) ==> shares == old(shares)
      ensures id in old(shares) ==>
        var was := old(shares)[id];
        var spent := was.maxDownloads.Some? && was.maxDownloads.value <= was.downloadCount + 1;
        var status := if spent then EXPIRED else if was.oneTimeAccess then REVOKED else was.status;
        shares == old(shares)[id := was.(downloadCount := was.downloadCount + 1, status := status)]
      ensures id in old(shares) && old(shares)[id].status == ACTIVE ==>
        (shares[id].status == ACTIVE <==>
          && !old(shares)[id].oneTimeAccess
          && (old(shares)[id].maxDownloads.Some? ==>
                old(shares)[id].maxDownloads.value > old(shares)[id].downloadCount + 1))
    {
      if id !in shares { return; }
      StepKeeps(shares, Operation.RecordDownload(id, now));
      var share := shares[id];
      share := share.(downloadCount := share.downloadCount + 1);
      if share.oneTimeAccess { share := share.(status := REVOKED); }
      if share.maxDownloads.Some? && share.downloadCount >= share.maxDownloads.value {
        share := share.(status := EXPIRED);
      }
      shares := shares[id := share];
    }

    method IsShareValid(id: string, now: int) returns (valid: bool)
      requires Valid()
      modifies this`shares
      ensures Valid() && shares == Step(old(shares), CheckValid(id, now))
      ensures valid <==> id in old(shares) && old(shares)[id].status == ACTIVE && now <= old(shares)[id].expiresAt
      ensures shares == if id in old(shares) && old(shares)[id].status == ACTIVE && !valid
                        then old(shares)[id := old(shares)[id].(status := EXPIRED)] else old(shares)
    {
      if id !in shares || shares[id].status != ACTIVE { return false; }
      if now > shares[id].expiresAt {
        StepKeeps(shares, CheckValid(id, now));
        shares := shares[id := shares[id].(status := EXPIRED)];
        return false;
      }
      return true;
    }

    /** updateMany returns the number of documents it modified. */
    method ExpireOverdueShares(now: int) returns (count: nat)
      requires Valid()
      modifies this`shares
      ensures Valid() && shares == Step(old(shares), Sweep(now))
      ensures count == |OverdueIds(old(shares), now)|
      ensures count == |set id | id in old(shares) && shares[id] != old(shares)[id]|
      ensures shares.Keys == old(shares).Keys
      ensures forall id :: id in shares ==>
        var was := old(shares)[id];
        shares[id] == if was.status == ACTIVE && was.expiresAt < now then was.(status := EXPIRED) else was
    {
      StepKeeps(shares, Sweep(now));
      SweepCounts(shares, now);
      count := |OverdueIds(shares, now)|;
      shares := Swept(shares, now);
    }
  }
}
