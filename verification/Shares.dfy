/**
 * The file_access collection: the access gate, download recording, expiry and the share life cycle
 * (file-access-validation.service.ts, share.service.ts).
 */
module Shares {
  import opened Common

  datatype Permission = VIEW | DOWNLOAD | EDIT | FULL_ACCESS

  datatype ShareAction = ToView | ToDownload | ToEdit | ToDelete | ToShare

  function Weight(p: Permission): nat {
    match p case VIEW => 10 case DOWNLOAD => 20 case EDIT => 30 case FULL_ACCESS => 100
  }

  function RequiredPermission(a: ShareAction): Permission {
    match a case ToView => VIEW case ToDownload => DOWNLOAD case ToEdit => EDIT case ToDelete => FULL_ACCESS
      case ToShare => FULL_ACCESS
  }

  predicate HasPermissionFor(p: Permission, a: ShareAction) {
    Weight(p) >= Weight(RequiredPermission(a))
  }

  datatype Status = ACTIVE | EXPIRED | REVOKED

  datatype Share = Share(
    fileId: string, ownerId: string, sharedWith: string, permission: Permission, status: Status,
    expiresAt: int, maxDownloads: Option<nat>, downloadCount: nat, oneTimeAccess: bool, device: string)

  type Store = map<string, Share>

  datatype Denial = NoActiveShare | ShareExpired | InsufficientPermission | LimitReached | WrongDevice

  // ---- The gate and the writes -------------------------------------------------------------

  predicate Overdue(share: Share, now: int) {
    share.status == ACTIVE && now > share.expiresAt
  }

  predicate AtLimit(share: Share, count: nat) {
    share.maxDownloads.Some? && count >= share.maxDownloads.value
  }

  /** The checks of validateAccess on an ACTIVE share, in source order; "" is no device restriction. */
  function Gate(share: Share, action: ShareAction, device: string, now: int): Option<Denial> {
    if now > share.expiresAt then Some(ShareExpired)
    else if !HasPermissionFor(share.permission, action) then Some(InsufficientPermission)
    else if action == ToDownload && AtLimit(share, share.downloadCount) then Some(LimitReached)
    else if share.device != "" && device != share.device then Some(WrongDevice)
    else None
  }

  /** The levels as they are described: each allows what those below it allow, and one thing more or all. */
  function Allowed(p: Permission): set<ShareAction> {
    match p
    case VIEW => {ToView}
    case DOWNLOAD => {ToView, ToDownload}
    case EDIT => {ToView, ToDownload, ToEdit}
    case FULL_ACCESS => {ToView, ToDownload, ToEdit, ToDelete, ToShare}
  }

  /** The gate grants exactly what the described levels allow, in time, below the limit and on the right device. */
  lemma GrantedExactly(share: Share, action: ShareAction, device: string, now: int)
    ensures Gate(share, action, device, now).None? <==>
      && now <= share.expiresAt && action in Allowed(share.permission)
      && (action == ToDownload && share.maxDownloads.Some? ==> share.downloadCount < share.maxDownloads.value)
      && (share.device == "" || device == share.device)
  {
  }

  /** And when it refuses, the first thing in the way is the reason it gives. */
  lemma DeniedFor(share: Share, action: ShareAction, device: string, now: int)
    ensures var denied := Gate(share, action, device, now);
      var spent := action == ToDownload && share.maxDownloads.Some? && share.downloadCount >= share.maxDownloads.value;
      && (denied == Some(ShareExpired) <==> now > share.expiresAt)
      && (denied == Some(InsufficientPermission) <==> now <= share.expiresAt && action !in Allowed(share.permission))
      && (denied == Some(LimitReached) <==>
            now <= share.expiresAt && action in Allowed(share.permission) && spent)
      && (denied == Some(WrongDevice) <==>
            && now <= share.expiresAt && action in Allowed(share.permission) && !spent
            && share.device != "" && device != share.device)
      && denied != Some(NoActiveShare)
  {
  }

  /**
   * The save of recordDownload: it writes the count it loaded plus one, and writes the status only if
   * it assigned another than it loaded; with the limit reached, EXPIRED replaces the REVOKED of
   * one-time access.
   */
  function SaveDownload(stored: Share, loaded: Share): Share {
    var count := loaded.downloadCount + 1;
    var status :=
      if AtLimit(loaded, count) then EXPIRED else if loaded.oneTimeAccess then REVOKED else loaded.status;
    stored.(downloadCount := count, status := if status == loaded.status then stored.status else status)
  }

  ghost predicate ActiveFor(store: Store, id: string, fileId: string, userId: string) {
    id in store && store[id].status == ACTIVE && store[id].fileId == fileId && store[id].sharedWith == userId
  }

  ghost function FindActive(store: Store, fileId: string, userId: string): (r: Option<string>)
    ensures r.Some? ==> ActiveFor(store, r.value, fileId, userId)
    ensures r.None? ==> forall id :: !ActiveFor(store, id, fileId, userId)
  {
    if exists id :: ActiveFor(store, id, fileId, userId) then
      var id :| ActiveFor(store, id, fileId, userId);
      Some(id)
    else None
  }

  function Expire(store: Store, id: string): Store {
    if id in store then store[id := store[id].(status := EXPIRED)] else store
  }

  /** expireOverdueShares: updateMany with `expiresAt < now`. */
  function Swept(store: Store, now: int): Store {
    map id | id in store :: if Overdue(store[id], now) then store[id].(status := EXPIRED) else store[id]
  }

  function OverdueIds(store: Store, now: int): set<string> {
    set id | id in store && Overdue(store[id], now)
  }

  // ---- Operations --------------------------------------------------------------------------

  datatype Operation =
    | Create(id: string, share: Share, typed: string, now: int)
    | Validate(fileId: string, userId: string, action: ShareAction, device: string, now: int)
    | RecordDownload(id: string, now: int)
    | CheckValid(id: string, now: int)
    | Revoke(id: string, userId: string, now: int)
    | Sweep(now: int)

  /** A new document as shareFile builds it; `Min(1)` on maxDownloads comes from the request DTO. */
  predicate NewShare(share: Share, now: int) {
    && share.status == ACTIVE && share.downloadCount == 0 && now < share.expiresAt
    && (share.maxDownloads.Some? ==> share.maxDownloads.value >= 1)
  }

  /** The recipient is who the typed text is cast to; shareFile refuses the owner by comparing the text itself. */
  predicate Addressed(share: Share, typed: string) {
    CastId(typed) == Some(share.sharedWith) && typed != share.ownerId
  }

  /** If the text names the owner, it is spelled as the owner's id is printed. */
  predicate SpelledAsPrinted(typed: string, ownerId: string) {
    Lower(typed) == ownerId ==> typed == ownerId
  }

  /** Whether the caller sees success: access granted, share valid, share created or revoked. */
  ghost predicate Succeeds(store: Store, op: Operation) {
    match op
    case Create(id, share, typed, now) =>
      && id !in store && NewShare(share, now) && Addressed(share, typed)
      && FindActive(store, share.fileId, share.sharedWith).None?
    case Validate(f, u, action, device, now) =>
      var found := FindActive(store, f, u);
      found.Some? && Gate(store[found.value], action, device, now).None?
    case RecordDownload(id, _) => true
    case CheckValid(id, now) => id in store && store[id].status == ACTIVE && now <= store[id].expiresAt
    case Revoke(id, userId, _) => id in store && store[id].ownerId == userId && store[id].status != REVOKED
    case Sweep(_) => true
  }

  ghost function Step(store: Store, op: Operation): Store {
    match op
    case Create(id, share, _, _) => if Succeeds(store, op) then store[id := share] else store
    case Validate(f, u, _, _, now) =>
      var found := FindActive(store, f, u);
      if found.Some? && now > store[found.value].expiresAt then Expire(store, found.value) else store
    case RecordDownload(id, _) => if id in store then store[id := SaveDownload(store[id], store[id])] else store
    case CheckValid(id, now) => if id in store && Overdue(store[id], now) then Expire(store, id) else store
    case Revoke(id, _, _) => if Succeeds(store, op) then store[id := store[id].(status := REVOKED)] else store
    case Sweep(now) => Swept(store, now)
  }

  ghost function Run(store: Store, ops: seq<Operation>): Store
    decreases |ops|
  {
    if ops == [] then store else Run(Step(store, ops[0]), ops[1..])
  }

  // ---- Invariants over every run -----------------------------------------------------------

  ghost predicate ShareOk(share: Share) {
    && (share.status == ACTIVE && share.maxDownloads.Some? ==> share.downloadCount < share.maxDownloads.value)
    && (share.status == ACTIVE && share.oneTimeAccess ==> share.downloadCount == 0)
  }

  ghost predicate OneActive(store: Store) {
    forall a, b, f, u :: ActiveFor(store, a, f, u) && ActiveFor(store, b, f, u) ==> a == b
  }

  ghost predicate StoreOk(store: Store) {
    OneActive(store) && forall id :: id in store ==> ShareOk(store[id])
  }

  /** Terms are fixed, counts only grow, and a share that is not ACTIVE never becomes so. */
  ghost predicate Evolves(a: Share, b: Share) {
    && b == a.(status := b.status, downloadCount := b.downloadCount)
    && a.downloadCount <= b.downloadCount
    && (b.status == ACTIVE ==> a.status == ACTIVE)
  }

  ghost predicate StoreEvolves(a: Store, b: Store) {
    forall id :: id in a ==> id in b && Evolves(a[id], b[id])
  }

  lemma EvolvedKeeps(store: Store, after: Store)
    requires StoreOk(store) && StoreEvolves(store, after) && after.Keys == store.Keys
    requires forall id :: id in after ==> ShareOk(after[id])
    ensures StoreOk(after)
  {
    forall id, f, u | ActiveFor(after, id, f, u) ensures ActiveFor(store, id, f, u) {
      assert Evolves(store[id], after[id]);
    }
  }

  lemma ChangeOne(store: Store, id: string, share: Share)
    requires StoreOk(store) && id in store && Evolves(store[id], share) && ShareOk(share)
    ensures StoreOk(store[id := share]) && StoreEvolves(store, store[id := share])
  {
    EvolvedKeeps(store, store[id := share]);
  }

  lemma CreateKeeps(store: Store, id: string, share: Share, typed: string, now: int)
    requires StoreOk(store)
    ensures var after := Step(store, Create(id, share, typed, now)); StoreOk(after) && StoreEvolves(store, after)
  {
    var after := Step(store, Create(id, share, typed, now));
    if after != store {
      forall other, f, u | ActiveFor(after, other, f, u) && other != id ensures ActiveFor(store, other, f, u) { }
    }
  }

  lemma StepKeeps(store: Store, op: Operation)
    requires StoreOk(store)
    ensures StoreOk(Step(store, op)) && StoreEvolves(store, Step(store, op))
  {
    match op
    case Create(id, share, typed, now) => CreateKeeps(store, id, share, typed, now);
    case Validate(f, u, _, _, now) =>
      var found := FindActive(store, f, u);
      if found.Some? { ChangeOne(store, found.value, store[found.value].(status := EXPIRED)); }
    case RecordDownload(id, _) => if id in store { ChangeOne(store, id, SaveDownload(store[id], store[id])); }
    case CheckValid(id, now) => if id in store { ChangeOne(store, id, store[id].(status := EXPIRED)); }
    case Revoke(id, _, _) => if id in store { ChangeOne(store, id, store[id].(status := REVOKED)); }
    case Sweep(now) => EvolvedKeeps(store, Swept(store, now));
  }

  ghost predicate PartiesDiffer(store: Store) {
    forall id :: id in store ==> store[id].ownerId != store[id].sharedWith
  }

  ghost predicate CreatesSelfShare(store: Store, op: Operation) {
    op.Create? && Succeeds(store, op) && !SpelledAsPrinted(op.typed, op.share.ownerId)
  }

  lemma StepParties(store: Store, op: Operation)
    requires StoreOk(store)
    ensures PartiesDiffer(Step(store, op)) <==> PartiesDiffer(store) && !CreatesSelfShare(store, op)
  {
    var after := Step(store, op);
    StepKeeps(store, op);
    assert forall id :: id in store ==> Evolves(store[id], after[id]);
    if op.Create? && Succeeds(store, op) {
      assert after[op.id].sharedWith == Lower(op.typed);
    } else {
      assert after.Keys == store.Keys;
    }
  }

  /** No share is created whose typed recipient is the owner in another spelling. */
  ghost predicate NoSelfShares(store: Store, ops: seq<Operation>)
    decreases |ops|
  {
    ops == [] || (!CreatesSelfShare(store, ops[0]) && NoSelfShares(Step(store, ops[0]), ops[1..]))
  }

  /**
   * Over every run from an empty store: at most one ACTIVE share per file and recipient, ACTIVE
   * limited shares are below their limit and ACTIVE one-time shares unused; between any two moments
   * of the run every share has kept its terms and not come back to life; and owner and recipient
   * differ exactly when no create named its owner in a spelling other than the printed one.
   */
  lemma {:induction false} RunKeeps(store: Store, ops: seq<Operation>)
    requires StoreOk(store)
    ensures StoreOk(Run(store, ops)) && StoreEvolves(store, Run(store, ops))
    ensures PartiesDiffer(Run(store, ops)) <==> PartiesDiffer(store) && NoSelfShares(store, ops)
    decreases |ops|
  {
    if ops != [] {
      StepKeeps(store, ops[0]);
      StepParties(store, ops[0]);
      var next := Step(store, ops[0]);
      RunKeeps(next, ops[1..]);
      var last := Run(next, ops[1..]);
      forall id | id in store ensures id in last && Evolves(store[id], last[id]) {
        assert Evolves(store[id], next[id]) && Evolves(next[id], last[id]);
      }
    }
  }

  // ---- How long a share lasts --------------------------------------------------------------

  /** The downloads recorded through this share. */
  function Recorded(ops: seq<Operation>, id: string): nat {
    if ops == [] then 0 else (if ops[0].RecordDownload? && ops[0].id == id then 1 else 0) + Recorded(ops[1..], id)
  }

  /** The share's owner does not revoke it, and its time is not up. */
  predicate LeavesAlone(op: Operation, id: string, share: Share) {
    op.now <= share.expiresAt && !(op.Revoke? && op.id == id && op.userId == share.ownerId)
  }

  predicate AllLeaveAlone(ops: seq<Operation>, id: string, share: Share) {
    forall op :: op in ops ==> LeavesAlone(op, id, share)
  }

  lemma DownloadStatus(share: Share)
    ensures var after := SaveDownload(share, share);
      && after == share.(status := after.status, downloadCount := share.downloadCount + 1)
      && after.status == if share.maxDownloads.Some? && share.downloadCount + 1 >= share.maxDownloads.value then EXPIRED
                         else if share.oneTimeAccess then REVOKED else share.status
  {
  }

  lemma LeftAlone(store: Store, op: Operation, id: string)
    requires StoreOk(store) && id in store && LeavesAlone(op, id, store[id])
    requires !(op.RecordDownload? && op.id == id)
    ensures id in Step(store, op) && Step(store, op)[id] == store[id]
  {
  }

  /**
   * Over every run before a share's expiry in which its owner does not revoke it: its count grows by
   * the downloads recorded through it, and it is ACTIVE at the end exactly when it was at the start
   * and is neither one-time and used nor at its limit.
   */
  lemma {:induction false} LastsExactly(store: Store, ops: seq<Operation>, id: string)
    requires StoreOk(store) && id in store && AllLeaveAlone(ops, id, store[id])
    ensures id in Run(store, ops)
    ensures var n, share, after := Recorded(ops, id), store[id], Run(store, ops)[id];
      && after.downloadCount == share.downloadCount + n
      && (after.status == ACTIVE <==>
            && share.status == ACTIVE
            && (n == 0 || (!share.oneTimeAccess
                           && (share.maxDownloads.Some? ==> share.downloadCount + n < share.maxDownloads.value))))
    decreases |ops|
  {
    if ops != [] {
      var op, next, rest := ops[0], Step(store, ops[0]), ops[1..];
      assert op in ops && forall other :: other in rest ==> other in ops;
      StepKeeps(store, op);
      assert Evolves(store[id], next[id]);
      if op.RecordDownload? && op.id == id { DownloadStatus(store[id]); } else { LeftAlone(store, op, id); }
      assert forall other :: LeavesAlone(other, id, store[id]) <==> LeavesAlone(other, id, next[id]);
      LastsExactly(next, rest, id);
      assert Run(store, ops) == Run(next, rest);
    }
  }

  /** So a share with no limit and no one-time access grants what it granted, however often it is downloaded. */
  lemma UnlimitedStaysGranted(store: Store, ops: seq<Operation>, id: string, action: ShareAction, device: string,
          now: int)
    requires StoreOk(store) && id in store && AllLeaveAlone(ops, id, store[id])
    requires store[id].status == ACTIVE && store[id].maxDownloads.None? && !store[id].oneTimeAccess
    requires now <= store[id].expiresAt
    ensures var asked := Validate(store[id].fileId, store[id].sharedWith, action, device, now);
      Succeeds(Run(store, ops), asked) <==> Succeeds(store, asked)
  {
    LastsExactly(store, ops, id);
    RunKeeps(store, ops);
    var after := Run(store, ops);
    assert Evolves(store[id], after[id]);
    assert ActiveFor(store, id, store[id].fileId, store[id].sharedWith);
    assert ActiveFor(after, id, store[id].fileId, store[id].sharedWith);
  }

  // ---- Sweeping refines lazy expiry --------------------------------------------------------

  /** `swept` is `lazy` with some shares that were overdue at `now` already marked EXPIRED. */
  ghost predicate Lags(lazy: Store, swept: Store, now: int) {
    lazy.Keys == swept.Keys &&
    forall id :: id in lazy ==>
      swept[id] == lazy[id] || (Overdue(lazy[id], now) && swept[id] == lazy[id].(status := EXPIRED))
  }

  /** Operations other than creating, at times that do not go back. */
  ghost predicate Timed(ops: seq<Operation>, from: int)
    decreases |ops|
  {
    ops == [] || (!ops[0].Create? && from <= ops[0].now && Timed(ops[1..], ops[0].now))
  }

  /** What a run may leave out: the sweeps, or the sweeps and the isShareValid checks. */
  predicate Optional(op: Operation, checks: bool) {
    op.Sweep? || (checks && op.CheckValid?)
  }

  /** The answers that the other callers get. */
  ghost function Seen(store: Store, ops: seq<Operation>, checks: bool): seq<bool>
    decreases |ops|
  {
    if ops == [] then []
    else
      (if Optional(ops[0], checks) then [] else [Succeeds(store, ops[0])])
      + Seen(Step(store, ops[0]), ops[1..], checks)
  }

  function Without(ops: seq<Operation>, checks: bool): seq<Operation>
    decreases |ops|
  {
    if ops == [] then [] else (if Optional(ops[0], checks) then [] else [ops[0]]) + Without(ops[1..], checks)
  }

  lemma FindLags(lazy: Store, swept: Store, now: int, f: string, u: string)
    requires OneActive(lazy) && Lags(lazy, swept, now)
    ensures var a, b := FindActive(lazy, f, u), FindActive(swept, f, u);
      b == a || (b.None? && a.Some? && Overdue(lazy[a.value], now))
  {
    var a, b := FindActive(lazy, f, u), FindActive(swept, f, u);
    if b.Some? {
      assert ActiveFor(lazy, b.value, f, u);
    } else if a.Some? {
      assert !ActiveFor(swept, a.value, f, u);
    }
  }

  ghost predicate LagsAt(lazy: Share, swept: Share, now: int) {
    swept == lazy || (Overdue(lazy, now) && swept == lazy.(status := EXPIRED))
  }

  lemma LagsUpdate(lazy: Store, swept: Store, id: string, a: Share, b: Share, now: int)
    requires Lags(lazy, swept, now) && id in lazy && LagsAt(a, b, now)
    ensures Lags(lazy[id := a], swept[id := b], now)
    ensures LagsAt(a, swept[id], now) ==> Lags(lazy[id := a], swept, now)
  {
    assert swept[id := swept[id]] == swept;
  }

  lemma ValidateLags(lazy: Store, swept: Store, op: Operation)
    requires StoreOk(lazy) && Lags(lazy, swept, op.now) && op.Validate?
    ensures Succeeds(lazy, op) <==> Succeeds(swept, op)
    ensures Lags(Step(lazy, op), Step(swept, op), op.now)
  {
    FindLags(lazy, swept, op.now, op.fileId, op.userId);
    var found := FindActive(lazy, op.fileId, op.userId);
    if found.Some? && op.now > lazy[found.value].expiresAt {
      var expired := lazy[found.value].(status := EXPIRED);
      LagsUpdate(lazy, swept, found.value, expired, expired, op.now);
      if FindActive(swept, op.fileId, op.userId).None? {
        assert !ActiveFor(swept, found.value, op.fileId, op.userId);
        assert swept[found.value] == expired;
      }
    }
  }

  lemma StepLags(lazy: Store, swept: Store, op: Operation)
    requires StoreOk(lazy) && Lags(lazy, swept, op.now) && !op.Create? && !op.Sweep?
    ensures Succeeds(lazy, op) <==> Succeeds(swept, op)
    ensures Lags(Step(lazy, op), Step(swept, op), op.now)
  {
    match op
    case Validate(f, u, _, _, now) => ValidateLags(lazy, swept, op);
    case RecordDownload(id, now) =>
      if id in lazy {
        LagsUpdate(lazy, swept, id, SaveDownload(lazy[id], lazy[id]), SaveDownload(swept[id], swept[id]), now);
      }
    case CheckValid(id, now) =>
      if id in lazy && Overdue(lazy[id], now) {
        var expired := lazy[id].(status := EXPIRED);
        LagsUpdate(lazy, swept, id, expired, expired, now);
      }
    case Revoke(id, _, now) =>
      if id in lazy {
        var revoked := lazy[id].(status := REVOKED);
        LagsUpdate(lazy, swept, id, revoked, revoked, now);
      }
  }

  lemma OptionalLags(lazy: Store, swept: Store, op: Operation)
    requires Lags(lazy, swept, op.now) && (op.Sweep? || op.CheckValid?)
    ensures Lags(lazy, Step(swept, op), op.now)
  {
    if op.Sweep? {
      forall id | id in lazy ensures LagsAt(lazy[id], Swept(swept, op.now)[id], op.now) { }
    } else if op.id in swept && Overdue(swept[op.id], op.now) {
      LagsUpdate(lazy, swept, op.id, lazy[op.id], swept[op.id].(status := EXPIRED), op.now);
      assert lazy[op.id := lazy[op.id]] == lazy;
    }
  }

  lemma {:induction false} OptionalUnseen(lazy: Store, swept: Store, ops: seq<Operation>, from: int, checks: bool)
    requires StoreOk(lazy) && Lags(lazy, swept, from) && Timed(ops, from)
    ensures Seen(lazy, Without(ops, checks), checks) == Seen(swept, ops, checks)
    decreases |ops|
  {
    if ops != [] {
      var op := ops[0];
      if Optional(op, checks) {
        OptionalLags(lazy, swept, op);
        OptionalUnseen(lazy, Step(swept, op), ops[1..], op.now, checks);
        assert Without(ops, checks) == Without(ops[1..], checks);
      } else {
        StepLags(lazy, swept, op);
        StepKeeps(lazy, op);
        OptionalUnseen(Step(lazy, op), Step(swept, op), ops[1..], op.now, checks);
        assert Without(ops, checks) == [op] + Without(ops[1..], checks);
        assert Without(ops, checks)[1..] == Without(ops[1..], checks);
      }
    }
  }

  /**
   * However many sweeps (and, with `checks`, isShareValid calls) come between them and whenever, the
   * calls to the gate, to recordDownload, to revokeShare (and to isShareValid) see exactly what they
   * see with lazy expiry alone.
   */
  lemma SweepRefinesLazyExpiry(store: Store, ops: seq<Operation>, from: int, checks: bool)
    requires StoreOk(store) && Timed(ops, from)
    ensures Seen(store, ops, checks) == Seen(store, Without(ops, checks), checks)
  {
    OptionalUnseen(store, store, ops, from, checks);
  }

  /** A sweep counts what it changes, and sweeping again at the same instant changes nothing. */
  lemma SweepCounts(store: Store, now: int)
    ensures OverdueIds(store, now) == set id | id in store && Swept(store, now)[id] != store[id]
    ensures OverdueIds(Swept(store, now), now) == {} && Swept(Swept(store, now), now) == Swept(store, now)
  {
  }

  /**
   * Creating is the exception. An overdue share still marked ACTIVE blocks a new share for its
   * file and recipient; a sweep unblocks it, and changes the answer in no other case.
   */
  lemma SweepUnblocksSharing(store: Store, id: string, share: Share, typed: string, now: int)
    requires StoreOk(store) && id !in store && NewShare(share, now) && Addressed(share, typed)
    ensures var found, op := FindActive(store, share.fileId, share.sharedWith), Create(id, share, typed, now);
      && Succeeds(Swept(store, now), op) == (found.None? || Overdue(store[found.value], now))
      && (Succeeds(Swept(store, now), op) != Succeeds(store, op) <==> found.Some? && Overdue(store[found.value], now))
  {
    FindLags(store, Swept(store, now), now, share.fileId, share.sharedWith);
    var found := FindActive(store, share.fileId, share.sharedWith);
    var still := FindActive(Swept(store, now), share.fileId, share.sharedWith);
    if found.Some? && !Overdue(store[found.value], now) {
      assert ActiveFor(Swept(store, now), found.value, share.fileId, share.sharedWith);
    }
  }
}
