/** Who may read, delete and list a file (files.service.ts), and listing shares (share.service.ts). */
module FileAccess {
  import opened Common
  import opened Paging
  import opened Search
  import FileStore
  import Shares

  datatype Role = SUPER_ADMIN | ADMIN | MANAGER | EMPLOYEE | VIEWER

  datatype AccessLevel = PRIVATE | INTERNAL | DEPARTMENT | PUBLIC

  datatype User = User(userId: string, role: Role)

  /** A document of the files collection: the part FileStore models, and what access and listing read. */
  datatype FileRecord = FileRecord(
    doc: FileStore.FileDoc, uploadedBy: string, accessLevel: AccessLevel,
    originalName: string, mimeType: string, department: string)

  /** Files by uuid; the map from _id to uuid comes beside them. */
  type Files = map<string, FileRecord>

  type Ids = map<string, string>

  datatype FileError = NotFound | Forbidden | NotAllowedType | UploadFailed | Unreadable

  predicate IsAdmin(user: User) {
    user.role == SUPER_ADMIN || user.role == ADMIN
  }

  predicate Live(files: Files, uuid: string) {
    uuid in files && !files[uuid].doc.isDeleted
  }

  /** By uuid first, then by _id in either case, deleted files never. */
  function FindLive(files: Files, ids: Ids, fileId: string): Option<string> {
    if Live(files, fileId) then Some(fileId)
    else
      var id := CastId(fileId);
      if id.Some? && id.value in ids && Live(files, ids[id.value]) then Some(ids[id.value]) else None
  }

  /** A file is found exactly by its uuid, or by its _id typed in either case, and only while it is not deleted. */
  lemma FoundExactly(files: Files, ids: Ids, fileId: string, u: string)
    ensures FindLive(files, ids, fileId) == Some(u) <==>
      && u in files && !files[u].doc.isDeleted
      && (u == fileId
          || ((fileId !in files || files[fileId].doc.isDeleted)
              && CastId(fileId).Some? && CastId(fileId).value in ids && ids[CastId(fileId).value] == u))
  {
  }

  function FindWithAccess(files: Files, ids: Ids, fileId: string, user: User, ownerOrAdminOnly: bool)
    : Result<string, FileError>
  {
    var found := FindLive(files, ids, fileId);
    if found.None? then Err(NotFound)
    else
      var file := files[found.value];
      var isOwner, isAdmin, isManager := file.uploadedBy == user.userId, IsAdmin(user), user.role == MANAGER;
      if ownerOrAdminOnly then (if !isOwner && !isAdmin then Err(Forbidden) else Ok(found.value))
      else if file.accessLevel == PRIVATE && !isOwner && !isAdmin then Err(Forbidden)
      else if file.accessLevel == DEPARTMENT && !isOwner && !isAdmin && !isManager then Err(Forbidden)
      else Ok(found.value)
  }

  /** The policy in one line each: who may read, and who may delete. */
  predicate MayRead(file: FileRecord, user: User) {
    || file.uploadedBy == user.userId || IsAdmin(user)
    || file.accessLevel in {INTERNAL, PUBLIC}
    || (file.accessLevel == DEPARTMENT && user.role == MANAGER)
  }

  predicate MayDelete(file: FileRecord, user: User) {
    file.uploadedBy == user.userId || IsAdmin(user)
  }

  /** The check grants exactly the policy, and whoever may delete may read. */
  lemma AccessIsPolicy(files: Files, ids: Ids, fileId: string, user: User)
    ensures FindWithAccess(files, ids, fileId, user, false) ==
      match FindLive(files, ids, fileId) case None => Err(NotFound)
        case Some(u) => if MayRead(files[u], user) then Ok(u) else Err(Forbidden)
    ensures FindWithAccess(files, ids, fileId, user, true) ==
      match FindLive(files, ids, fileId) case None => Err(NotFound)
        case Some(u) => if MayDelete(files[u], user) then Ok(u) else Err(Forbidden)
    ensures FindWithAccess(files, ids, fileId, user, true).Ok? ==> FindWithAccess(files, ids, fileId, user, false).Ok?
    ensures FindLive(files, ids, fileId).Some? ==>
      var file := files[FindLive(files, ids, fileId).value];
      var entitled := file.uploadedBy == user.userId || user.role in {SUPER_ADMIN, ADMIN};
      && (FindWithAccess(files, ids, fileId, user, true).Ok? <==> entitled)
      && (FindWithAccess(files, ids, fileId, user, false).Ok? <==>
            || entitled || file.accessLevel in {INTERNAL, PUBLIC}
            || (file.accessLevel == DEPARTMENT && user.role == MANAGER))
  {
  }

  // ---- Listing files -----------------------------------------------------------------------

  /** Empty text and None are the filters that were not given. */
  datatype FileQuery = FileQuery(search: string, mimeType: string, accessLevel: Option<AccessLevel>, department: string)

  /** The filter of listFiles on one document. */
  predicate ListFilter(file: FileRecord, user: User, q: FileQuery) {
    && !file.doc.isDeleted
    && (!IsAdmin(user) ==> file.uploadedBy == user.userId || file.accessLevel in {INTERNAL, PUBLIC})
    && (q.search != "" ==> Finds(q.search, file.originalName))
    && (q.mimeType != "" ==> file.mimeType == q.mimeType)
    && (q.accessLevel.Some? ==> file.accessLevel == q.accessLevel.value)
    && (q.department != "" ==> file.department == q.department)
  }

  function Listed(files: Files, user: User, q: FileQuery): set<string> {
    set u | u in files && ListFilter(files[u], user, q)
  }

  lemma SearchNarrows(file: FileRecord, user: User, q: FileQuery)
    ensures ListFilter(file, user, q) <==> Wanted(file, user, q)
  {
    SearchIsLiteral(q.search, file.originalName);
  }

  const NO_FILTER := FileQuery("", "", None, "")

  /**
   * What a listing is to show: files that are not deleted, administrators all of them, others their
   * own and those of level INTERNAL or PUBLIC; of the type, level and department asked for; and with
   * the text typed somewhere in the name.
   */
  ghost predicate Wanted(file: FileRecord, user: User, q: FileQuery) {
    && !file.doc.isDeleted
    && (user.role in {SUPER_ADMIN, ADMIN} || file.uploadedBy == user.userId || file.accessLevel in {INTERNAL, PUBLIC})
    && q.mimeType in {"", file.mimeType} && q.department in {"", file.department}
    && q.accessLevel in {None, Some(file.accessLevel)}
    && (q.search == "" || exists at: nat :: OccursAt(q.search, file.originalName, at))
  }

  lemma ListedExactly(files: Files, ids: Ids, user: User, q: FileQuery, u: string)
    ensures u in Listed(files, user, q) <==> u in files && Wanted(files[u], user, q)
    ensures u in Listed(files, user, q) ==> FindWithAccess(files, ids, u, user, false) == Ok(u)
  {
    if u in files { SearchNarrows(files[u], user, q); }
  }

  /**
   * Listing is sound for reading, search is literal, and paging loses nothing: for every order the
   * database sorts the matches in, a file is on some page exactly when it passes the other filters
   * and its name contains the text typed, it is then on one page only, and the user may read it.
   */
  lemma ListingIsSound(files: Files, ids: Ids, user: User, q: FileQuery, order: seq<string>, limit: nat, u: string)
    requires limit >= 1 && Enumerates(order, Listed(files, user, q))
    ensures (exists page :: OnPage(order, page, limit, u)) <==> u in files && Wanted(files[u], user, q)
    ensures forall p, r :: OnPage(order, p, limit, u) && OnPage(order, r, limit, u) ==> p == r
    ensures forall page :: OnPage(order, page, limit, u) ==> FindWithAccess(files, ids, u, user, false) == Ok(u)
  {
    OnOnePage(order, Listed(files, user, q), limit, u);
    ListedExactly(files, ids, user, q, u);
  }

  /** What may be read but is never listed: exactly the department files of others, to a manager. */
  lemma ReadableButNotListed(files: Files, user: User, u: string)
    requires Live(files, u)
    ensures MayRead(files[u], user) && u !in Listed(files, user, NO_FILTER) <==>
      user.role == MANAGER && files[u].accessLevel == DEPARTMENT && files[u].uploadedBy != user.userId
  {
  }

  // ---- Listing shares ----------------------------------------------------------------------

  datatype ShareSide = SharedWith(userId: string) | SharedBy(userId: string)

  /** The names and deletion marks of files, by the _id that shares hold. */
  type FileNames = map<string, (string, bool)>

  predicate ShareMatches(share: Shares.Share, side: ShareSide, status: Option<Shares.Status>) {
    && (match side case SharedWith(u) => share.sharedWith == u case SharedBy(u) => share.ownerId == u)
    && share.status == (if status.Some? then status.value else Shares.ACTIVE)
  }

  /** The filter of listShares; with a search it also joins the file, which must exist and not be deleted. */
  predicate ShareFilter(share: Shares.Share, names: FileNames, side: ShareSide, status: Option<Shares.Status>,
          search: string)
  {
    && ShareMatches(share, side, status)
    && (search != "" ==> share.fileId in names && !names[share.fileId].1 && Finds(search, names[share.fileId].0))
  }

  function ListedShares(shares: Shares.Store, names: FileNames, side: ShareSide, status: Option<Shares.Status>,
          search: string): set<string>
  {
    set id | id in shares && ShareFilter(shares[id], names, side, status, search)
  }

  /** What the share listing shows: the side's shares of one status, ACTIVE unless asked, by the file's name. */
  lemma SharesListedExactly(shares: Shares.Store, names: FileNames, side: ShareSide, status: Option<Shares.Status>,
          search: string, id: string)
    ensures id in ListedShares(shares, names, side, status, search) <==>
      && id in shares
      && (side.SharedWith? ==> shares[id].sharedWith == side.userId)
      && (side.SharedBy? ==> shares[id].ownerId == side.userId)
      && (status.None? ==> shares[id].status == Shares.ACTIVE)
      && (status.Some? ==> shares[id].status == status.value)
      && (search == "" ||
          (shares[id].fileId in names && !names[shares[id].fileId].1
           && exists at: nat :: OccursAt(search, names[shares[id].fileId].0, at)))
  {
    if id in shares && shares[id].fileId in names { SearchIsLiteral(search, names[shares[id].fileId].0); }
  }

  // The stages of the search path's two aggregations, over share ids in the order the database has them.

  /** `$match` on the share's own fields. */
  function MatchShares(ids: seq<string>, shares: Shares.Store, side: ShareSide,
          status: Option<Shares.Status>): seq<string>
    requires forall id :: id in ids ==> id in shares
  {
    if ids == [] then []
    else
      (if ShareMatches(shares[ids[0]], side, status) then [ids[0]] else [])
      + MatchShares(ids[1..], shares, side, status)
  }

  /** `$lookup`: beside each share, the array of the files with its fileId. */
  function Lookup(ids: seq<string>, shares: Shares.Store, names: FileNames): seq<(string, seq<(string, bool)>)>
    requires forall id :: id in ids ==> id in shares
  {
    if ids == [] then []
    else
      var file := shares[ids[0]].fileId;
      [(ids[0], if file in names then [names[file]] else [])] + Lookup(ids[1..], shares, names)
  }

  /** `$unwind`: a row for each element of the array. */
  function Unwind(rows: seq<(string, seq<(string, bool)>)>): seq<(string, (string, bool))> {
    if rows == [] then []
    else seq(|rows[0].1|, i requires 0 <= i < |rows[0].1| => (rows[0].0, rows[0].1[i])) + Unwind(rows[1..])
  }

  /** `$match` on the joined file: its name, and that it is not deleted. */
  function MatchFiles(rows: seq<(string, (string, bool))>, search: string): seq<string> {
    if rows == [] then []
    else (if Finds(search, rows[0].1.0) && !rows[0].1.1 then [rows[0].0] else []) + MatchFiles(rows[1..], search)
  }

  function Pipeline(ids: seq<string>, shares: Shares.Store, names: FileNames, side: ShareSide,
          status: Option<Shares.Status>, search: string): seq<string>
    requires forall id :: id in ids ==> id in shares
  {
    MatchesAreIds(ids, shares, side, status);
    MatchFiles(Unwind(Lookup(MatchShares(ids, shares, side, status), shares, names)), search)
  }

  lemma {:induction false} MatchesAreIds(ids: seq<string>, shares: Shares.Store, side: ShareSide,
          status: Option<Shares.Status>)
    requires forall id :: id in ids ==> id in shares
    ensures forall id :: id in MatchShares(ids, shares, side, status) ==> id in ids
  {
    if ids != [] { MatchesAreIds(ids[1..], shares, side, status); }
  }

  /** `$count`, and `countResult[0]?.total ?? 0`. */
  function Counted(rows: seq<string>): nat {
    var countResult := if rows == [] then [] else [|rows|];
    if countResult == [] then 0 else countResult[0]
  }

  /** The plain selection by one filter, as `find` and `countDocuments` make it. */
  function Selected(ids: seq<string>, shares: Shares.Store, names: FileNames, side: ShareSide,
          status: Option<Shares.Status>, search: string): seq<string>
    requires forall id :: id in ids ==> id in shares
  {
    if ids == [] then []
    else
      (if ShareFilter(shares[ids[0]], names, side, status, search) then [ids[0]] else [])
      + Selected(ids[1..], shares, names, side, status, search)
  }

  /** Stage by stage, the pipeline selects what the one filter describes. */
  lemma {:induction false} PipelineSelects(ids: seq<string>, shares: Shares.Store, names: FileNames, side: ShareSide,
          status: Option<Shares.Status>, search: string)
    requires search != "" && forall id :: id in ids ==> id in shares
    ensures Pipeline(ids, shares, names, side, status, search) == Selected(ids, shares, names, side, status, search)
  {
    if ids != [] {
      PipelineSelects(ids[1..], shares, names, side, status, search);
      var rest := MatchShares(ids[1..], shares, side, status);
      MatchesAreIds(ids[1..], shares, side, status);
      if ShareMatches(shares[ids[0]], side, status) {
        OneRow(ids[0], rest, shares, names, search);
      } else {
        assert MatchShares(ids, shares, side, status) == rest;
      }
    }
  }

  lemma OneRow(id: string, rest: seq<string>, shares: Shares.Store, names: FileNames, search: string)
    requires id in shares && forall other :: other in rest ==> other in shares
    ensures var file := shares[id].fileId;
      MatchFiles(Unwind(Lookup([id] + rest, shares, names)), search) ==
        (if file in names && Finds(search, names[file].0) && !names[file].1 then [id] else [])
        + MatchFiles(Unwind(Lookup(rest, shares, names)), search)
  {
    var file, ids := shares[id].fileId, [id] + rest;
    assert ids[1..] == rest;
    var row := (id, if file in names then [names[file]] else []);
    var rows := Lookup(ids, shares, names);
    assert rows == [row] + Lookup(rest, shares, names) && rows[1..] == Lookup(rest, shares, names);
    var flat := Unwind(rows);
    if file in names {
      assert flat == [(id, names[file])] + Unwind(rows[1..]) && flat[1..] == Unwind(rows[1..]);
    } else {
      assert flat == Unwind(rows[1..]);
    }
  }

  lemma {:induction false} SelectedEnumerates(ids: seq<string>, shares: Shares.Store, names: FileNames, side: ShareSide,
          status: Option<Shares.Status>, search: string)
    requires (forall id :: id in ids ==> id in shares) && forall i, j :: 0 <= i < j < |ids| ==> ids[i] != ids[j]
    ensures Enumerates(Selected(ids, shares, names, side, status, search),
                       set id | id in ids && ShareFilter(shares[id], names, side, status, search))
  {
    if ids != [] {
      var rest := Selected(ids[1..], shares, names, side, status, search);
      SelectedEnumerates(ids[1..], shares, names, side, status, search);
      assert ids == [ids[0]] + ids[1..] && ids[0] !in ids[1..] && ids[0] !in rest;
    }
  }

  /** The rows a query matches, with and without search. */
  function Rows(ids: seq<string>, shares: Shares.Store, names: FileNames, side: ShareSide,
          status: Option<Shares.Status>, search: string): seq<string>
    requires forall id :: id in ids ==> id in shares
  {
    if search != "" then Pipeline(ids, shares, names, side, status, search)
        else Selected(ids, shares, names, side, status, search)
  }

  /**
   * The count and the data come from two queries, each over the shares in an order of its own and the
   * data sorted in any way. They agree: the page is the page of one enumeration of the shares listed,
   * `total` is their number, the pages hold each once, and hasNextPage is right.
   */
  lemma SharePagesAreExact(shares: Shares.Store, names: FileNames, side: ShareSide, status: Option<Shares.Status>,
          search: string, counting: seq<string>, fetching: seq<string>, sorted: seq<string>, page: nat, limit: nat)
    requires limit >= 1 && page >= 1 && Enumerates(counting, shares.Keys) && Enumerates(fetching, shares.Keys)
    requires multiset(sorted) == multiset(Rows(fetching, shares, names, side, status, search))
    ensures var listed := ListedShares(shares, names, side, status, search);
      var shown := Assemble(Counted(Rows(counting, shares, names, side, status, search)), sorted, page, limit);
      && Enumerates(sorted, listed) && shown == PageOf(sorted, page, limit) && shown.total == |listed|
      && Pages(sorted, limit, shown.totalPages) == sorted
      && (shown.hasNextPage <==> exists later :: later > page && PageOf(sorted, later, limit).data != [])
  {
    var listed := ListedShares(shares, names, side, status, search);
    RowsEnumerate(counting, shares, names, side, status, search);
    RowsEnumerate(fetching, shares, names, side, status, search);
    EnumerationSize(Rows(counting, shares, names, side, status, search), listed);
    SortedEnumerates(Rows(fetching, shares, names, side, status, search), sorted, listed);
    EnumerationSize(sorted, listed);
    PagesPartition(sorted, limit);
    HasNextExactly(sorted, page, limit);
  }

  lemma RowsEnumerate(ids: seq<string>, shares: Shares.Store, names: FileNames, side: ShareSide,
          status: Option<Shares.Status>, search: string)
    requires Enumerates(ids, shares.Keys)
    ensures Enumerates(Rows(ids, shares, names, side, status, search),
        ListedShares(shares, names, side, status, search))
  {
    if search != "" { PipelineSelects(ids, shares, names, side, status, search); }
    SelectedEnumerates(ids, shares, names, side, status, search);
    assert ListedShares(shares, names, side, status, search) ==
      set id | id in ids && ShareFilter(shares[id], names, side, status, search);
  }

  /**
   * The listing itself applies no lazy expiry: the default listing contains a share past its expiry
   * exactly while one is still stored ACTIVE, which a sweep at that time ends.
   */
  lemma DefaultListingMayLag(shares: Shares.Store, names: FileNames, side: ShareSide, now: int)
    ensures (exists id :: id in ListedShares(shares, names, side, None, "") && now > shares[id].expiresAt) <==>
      (exists id :: id in shares && Shares.Overdue(shares[id], now) &&
        (match side case SharedWith(u) => shares[id].sharedWith == u case SharedBy(u) => shares[id].ownerId == u))
    ensures forall id :: id in ListedShares(Shares.Swept(shares, now), names, side, None, "") ==>
      now <= shares[id].expiresAt
  {
  }
}
