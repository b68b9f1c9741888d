/** FilesService and the FileProcessor jobs over one files collection and one blob store. */
module FilesService {
  import opened Common
  import opened Encryption
  import opened FileAccess
  import opened FileStore
  import StoragePaths

  /** The document part of every record: the state FileStore's processes share. */
  function Docs(files: Files): map<string, FileDoc> {
    map u | u in files :: files[u].doc
  }

  class Database {
    var files: Files
    var ids: Ids
    var blobs: map<string, Bytes>

    constructor ()
      ensures files == map[] && ids == map[] && blobs == map[]
    {
      files, ids, blobs := map[], map[], map[];
    }
  }

  datatype UploadRequest = UploadRequest(
    data: Bytes, allowedType: bool, mimeType: string, name: string, accessLevel: Option<AccessLevel>,
      department: string)

  /** Where an upload's two writes may throw. */
  datatype UploadFault = NoFault | AtStorage | AtCreate

  function RecordOf(doc: FileDoc, request: UploadRequest, user: User): FileRecord {
    FileRecord(doc, user.userId, if request.accessLevel.Some? then request.accessLevel.value else PRIVATE,
               request.name, request.mimeType, request.department)
  }

  class Service {
    const db: Database
    const encryption: EncryptionService
    const checksum: Bytes -> string

    constructor (db: Database, encryption: EncryptionService, checksum: Bytes -> string)
      ensures this.db == db && this.encryption == encryption && this.checksum == checksum
    {
      this.db, this.encryption, this.checksum := db, encryption, checksum;
    }

    function Crypto(): Crypto {
      FileStore.Crypto(encryption.cipher, encryption.ivLength, encryption.tagLength, checksum)
    }

    function Sealed(request: UploadRequest, draw: Draw): Option<(Bytes, FileDoc)>
      reads encryption
    {
      Seal(Crypto(), encryption.masterKey, request.data, draw)
    }

    /**
     * uploadFile. On success the document and the blob are the sealed data, which opens to what was
     * sent, and the file is read by its uploader, by administrators, and by whom its level names
     * (PRIVATE when none was asked for); on failure no document appears, and a blob is left only when
     * the insert itself failed.
     */
    method UploadFile(request: UploadRequest, user: User, id: string, draw: Draw, fault: UploadFault)
      returns (r: Result<string, FileError>)
      requires CryptoOk(Crypto()) && |draw.dekIv| == encryption.ivLength
      modifies db
      ensures r == if !request.allowedType then Err(NotAllowedType)
                   else if Sealed(request, draw).None? || fault != NoFault || draw.uuid in old(db.files)
                       then Err(UploadFailed)
                   else Ok(draw.uuid)
      ensures r.Ok? ==> db.files == old(db.files)[draw.uuid := RecordOf(Sealed(request, draw).value.1, request, user)]
      ensures r.Ok? ==>
        var file := db.files[draw.uuid];
        var level := if request.accessLevel.Some? then request.accessLevel.value else PRIVATE;
        && file.uploadedBy == user.userId && file.accessLevel == level && file.originalName == request.name
        && file.mimeType == request.mimeType && file.department == request.department
        && !file.doc.isDeleted && file.doc.deletedAt.None? && file.doc.checksum == checksum(request.data)
      ensures r.Ok? ==>
        var level := if request.accessLevel.Some? then request.accessLevel.value else PRIVATE;
        forall other: User ::
          FindWithAccess(db.files, db.ids, r.value, other, false).Ok? <==>
            || other.userId == user.userId || other.role in {SUPER_ADMIN, ADMIN}
            || level in {INTERNAL, PUBLIC} || (level == DEPARTMENT && other.role == MANAGER)
      ensures r.Ok? ==> db.ids == old(db.ids)[id := draw.uuid]
      ensures r.Ok? ==> Open(Crypto(), encryption.masterKey, db.blobs, db.files[draw.uuid].doc) == Some(request.data)
      ensures r.Err? ==> db.files == old(db.files) && db.ids == old(db.ids)
      ensures db.blobs == if request.allowedType && Sealed(request, draw).Some? && fault != AtStorage
                          then old(db.blobs)[Sealed(request, draw).value.1.storagePath := Sealed(request, draw).value.0]
                          else old(db.blobs)
    {
      if !request.allowedType { return Err(NotAllowedType); }
      var sum := checksum(request.data);
      var wrapped := encryption.EncryptKey(draw.dek, draw.dekIv);
      if wrapped.None? { return Err(UploadFailed); }
      var sealed := encryption.Encrypt(request.data, Some(draw.dek), draw.iv);
      if sealed.None? { return Err(UploadFailed); }
      var path := StoragePaths.StoragePath(draw.today, draw.uuid, draw.ext);
      if fault == AtStorage { return Err(UploadFailed); }
      db.blobs := db.blobs[path := sealed.value.0];
      if fault == AtCreate || draw.uuid in db.files { return Err(UploadFailed); }
      var doc := FileDoc(path, sum, wrapped.value, draw.iv, sealed.value.1, false, None);
      db.files, db.ids := db.files[draw.uuid := RecordOf(doc, request, user)], db.ids[id := draw.uuid];
      r := Ok(draw.uuid);
    }

    /** downloadFile: refused as the access rule says, else what opening gives; nothing changes. */
    method DownloadFile(fileId: string, user: User) returns (r: Result<Bytes, FileError>)
      ensures r == match FindWithAccess(db.files, db.ids, fileId, user, false)
                   case Err(e) => Err(e)
                   case Ok(uuid) =>
                     var data := Open(Crypto(), encryption.masterKey, db.blobs, db.files[uuid].doc);
                     if data.Some? then Ok(data.value) else Err(Unreadable)
      ensures r.Ok? ==>
        exists u :: u in db.files && !db.files[u].doc.isDeleted && checksum(r.value) == db.files[u].doc.checksum
    {
      var found := FindWithAccess(db.files, db.ids, fileId, user, false);
      if found.Err? { return Err(found.error); }
      var doc := db.files[found.value].doc;
      if doc.storagePath !in db.blobs { return Err(Unreadable); }
      var dek := encryption.DecryptKey(doc.encryptedDek);
      if dek.None? { return Err(Unreadable); }
      var data := encryption.cipher.open(dek.value, doc.iv, db.blobs[doc.storagePath], doc.tag);
      if data.None? || checksum(data.value) != doc.checksum { return Err(Unreadable); }
      r := Ok(data.value);
    }

    /** deleteFile marks one document and touches no blob; afterwards no one finds that file by its uuid. */
    method DeleteFile(fileId: string, user: User, now: int) returns (r: Result<string, FileError>)
      modifies db`files
      ensures r == FindWithAccess(old(db.files), db.ids, fileId, user, true)
      ensures FindLive(old(db.files), db.ids, fileId).None? <==> r == Err(NotFound)
      ensures r.Err? ==> r.error in {NotFound, Forbidden}
      ensures FindLive(old(db.files), db.ids, fileId).Some? ==>
        var u := FindLive(old(db.files), db.ids, fileId).value;
        (r == Ok(u) <==> old(db.files)[u].uploadedBy == user.userId || user.role in {SUPER_ADMIN, ADMIN}) &&
          (r.Ok? ==> r.value == u)
      ensures r.Err? ==> db.files == old(db.files)
      ensures r.Ok? ==>
        Live(old(db.files), r.value) && MayDelete(old(db.files)[r.value], user) && !Live(db.files, r.value)
      ensures r.Ok? ==>
        var was := old(db.files)[r.value];
        db.files == old(db.files)[r.value := was.(doc := was.doc.(isDeleted := true, deletedAt := Some(now)))]
    {
      r := FindWithAccess(db.files, db.ids, fileId, user, true);
      if r.Ok? {
        var file := db.files[r.value];
        db.files := db.files[r.value := file.(doc := file.doc.(isDeleted := true, deletedAt := Some(now)))];
      }
    }
  }

  // ---- The processor's jobs ----------------------------------------------------------------

  /**
   * How the work on one expired file goes: cleanly, with a storage that answers that the blob is not
   * there (which it also does when it cannot look), or throwing at the blob or at the document.
   */
  datatype ItemFault = Clean | Unseen | AtBlob | AtDocument

  predicate DocumentGoes(fault: ItemFault) {
    fault == Clean || fault == Unseen
  }

  predicate BlobGoes(fault: ItemFault) {
    fault == Clean || fault == AtDocument
  }

  /** Of the items handled, the files whose documents go, and the paths whose blobs go. */
  function GoneFiles(items: seq<string>, fault: string -> ItemFault): set<string> {
    set u | u in items && DocumentGoes(fault(u))
  }

  function GonePaths(docs: map<string, FileDoc>, items: seq<string>, fault: string -> ItemFault): set<string>
    requires forall u :: u in items ==> u in docs
  {
    if items == [] then {}
    else
      var init, last := items[..|items| - 1], items[|items| - 1];
      GonePaths(docs, init, fault) + if BlobGoes(fault(last)) then {docs[last].storagePath} else {}
  }

  lemma {:induction false} GonePathsExactly(docs: map<string, FileDoc>, items: seq<string>, fault: string -> ItemFault,
          path: string)
    requires forall u :: u in items ==> u in docs
    ensures path in GonePaths(docs, items, fault) <==>
      exists u :: u in items && BlobGoes(fault(u)) && docs[u].storagePath == path
  {
    if items != [] {
      var init, last := items[..|items| - 1], items[|items| - 1];
      GonePathsExactly(docs, init, fault, path);
      assert forall u :: u in items <==> u in init || u == last;
    }
  }

  /** Of the items checked, those whose blob is missing. */
  function Orphans(files: Files, blobs: map<string, Bytes>, items: seq<string>): set<string>
    requires forall u :: u in items ==> u in files
  {
    set u | u in items && files[u].doc.storagePath !in blobs
  }

  predicate Distinct(s: seq<string>) {
    forall i, j :: 0 <= i < j < |s| ==> s[i] != s[j]
  }

  lemma OneMoreGone(docs: map<string, FileDoc>, items: seq<string>, u: string, fault: string -> ItemFault)
    requires u in docs && forall v :: v in items ==> v in docs
    ensures GoneFiles(items + [u], fault) == GoneFiles(items, fault) + (if DocumentGoes(fault(u)) then {u} else {})
    ensures GonePaths(docs, items + [u], fault) ==
      GonePaths(docs, items, fault) + (if BlobGoes(fault(u)) then {docs[u].storagePath} else {})
  {
  }

  lemma OneMoreOrphan(files: Files, blobs: map<string, Bytes>, items: seq<string>, u: string)
    requires u in files && u !in items && forall v :: v in items ==> v in files
    ensures |Orphans(files, blobs, items + [u])| ==
      |Orphans(files, blobs, items)| + if files[u].doc.storagePath !in blobs then 1 else 0
  {
    var here := Orphans(files, blobs, items);
    SetSizes(here, u);
    assert Orphans(files, blobs, items + [u]) == if files[u].doc.storagePath !in blobs then here + {u} else here;
  }

  lemma UpTo(s: seq<string>, n: nat)
    requires n < |s| && Distinct(s)
    ensures s[..n + 1] == s[..n] + [s[n]] && s[n] !in s[..n]
  {
  }

  predicate NoneExpired(files: Files, cutoff: int) {
    forall u :: u in files ==> !ExpiredAt(files[u].doc, cutoff)
  }

  predicate AllGo(items: seq<string>, fault: string -> ItemFault) {
    forall u :: u in items ==> DocumentGoes(fault(u))
  }

  lemma {:induction false} GoneCount(items: seq<string>, fault: string -> ItemFault)
    requires Distinct(items)
    ensures |GoneFiles(items, fault)| <= |items|
    ensures |GoneFiles(items, fault)| == |items| <==> AllGo(items, fault)
  {
    if items != [] {
      var init, last := items[..|items| - 1], items[|items| - 1];
      GoneCount(init, fault);
      assert forall u :: u in items <==> u in init || u == last;
      SetSizes(GoneFiles(init, fault), last);
      assert GoneFiles(items, fault) == if DocumentGoes(fault(last)) then GoneFiles(init, fault) + {last}
          else GoneFiles(init, fault);
    }
  }

  lemma MapSizes<K, V>(m: map<K, V>, gone: set<K>)
    requires gone <= m.Keys
    ensures |m - gone| == |m| - |gone|
  {
  }

  /**
   * What the find's answer makes of the documents removed: a file that is not expired is kept, and
   * no expired file remains exactly when every item went clean.
   */
  lemma AfterCleanup(files: Files, cutoff: int, found: seq<string>, fault: string -> ItemFault)
    requires Finds(Docs(files), cutoff, found)
    ensures forall u :: u in files && !ExpiredAt(files[u].doc, cutoff) ==> u in files - GoneFiles(found, fault)
    ensures NoneExpired(files - GoneFiles(found, fault), cutoff) <==> AllGo(found, fault)
    ensures GoneFiles(found, fault) <= files.Keys
  {
    var left := files - GoneFiles(found, fault);
    assert forall u :: u in left <==> u in files && u !in GoneFiles(found, fault);
    assert forall u :: u in found <==> u in files && ExpiredAt(files[u].doc, cutoff) by {
      assert forall u :: u in Docs(files) <==> u in files;
    }
  }

  /** A collection and the store after the work on some of the items found there. */
  ghost predicate Cleaned<D>(docs: map<string, FileDoc>, items: seq<string>, fault: string -> ItemFault,
          was: map<string, D>, now: map<string, D>, blobsWere: map<string, Bytes>, blobsNow: map<string, Bytes>)
    requires forall u :: u in items ==> u in docs
  {
    now == was - GoneFiles(items, fault) && blobsNow == blobsWere - GonePaths(docs, items, fault)
  }

  lemma WithoutBoth<K, V>(m: map<K, V>, a: set<K>, b: set<K>)
    ensures m - (a + b) == m - a - b
  {
  }

  lemma CleanOneMore<D>(docs: map<string, FileDoc>, items: seq<string>, u: string, fault: string -> ItemFault,
          was: map<string, D>, now: map<string, D>, blobsWere: map<string, Bytes>, blobsNow: map<string, Bytes>)
    requires u in docs && u !in items && forall v :: v in items ==> v in docs
    requires Cleaned(docs, items, fault, was, now, blobsWere, blobsNow)
    ensures Cleaned(docs, items + [u], fault, was, now - if DocumentGoes(fault(u)) then {u} else {},
                    blobsWere, blobsNow - if BlobGoes(fault(u)) then {docs[u].storagePath} else {})
    ensures |GoneFiles(items + [u], fault)| ==
      if DocumentGoes(fault(u)) then |GoneFiles(items, fault)| + 1 else |GoneFiles(items, fault)|
  {
    OneMoreGone(docs, items, u, fault);
    WithoutBoth(was, GoneFiles(items, fault), if DocumentGoes(fault(u)) then {u} else {});
    WithoutBoth(blobsWere, GonePaths(docs, items, fault), if BlobGoes(fault(u)) then {docs[u].storagePath} else {});
    SetSizes(GoneFiles(items, fault), u);
  }

  class FileProcessor {
    const db: Database

    constructor (db: Database)
      ensures this.db == db
    {
      this.db := db;
    }

    /** The work on one expired file: the blob if it is there, then the document; either may throw. */
    method CleanItem(uuid: string, path: string, fault: ItemFault) returns (ok: bool)
      modifies db`files, db`blobs
      ensures ok == DocumentGoes(fault)
      ensures db.files == old(db.files) - if DocumentGoes(fault) then {uuid} else {}
      ensures db.blobs == old(db.blobs) - if BlobGoes(fault) then {path} else {}
    {
      if fault == AtBlob { return false; }
      var seen := path in db.blobs && fault != Unseen;
      if seen { db.blobs := db.blobs - {path}; }
      if fault == AtDocument { return false; }
      db.files := db.files - {uuid};
      ok := true;
    }

    /**
     * cleanupExpiredFiles, where `found` is the database's answer to the find. Every expired file is
     * counted once, as deleted or as an error; the deleted ones are exactly the documents that are
     * gone; a file that is not expired keeps its document; and without errors no expired file remains.
     */
    method CleanupExpiredFiles(now: int, findThrows: bool, found: seq<string>, fault: string -> ItemFault)
      returns (deleted: nat, errors: nat)
      requires Finds(Docs(db.files), now - RETENTION_PERIOD_MS, found) && Distinct(found)
      modifies db`files, db`blobs
      ensures findThrows ==> deleted == 0 && errors == 0 && db.files == old(db.files) && db.blobs == old(db.blobs)
      ensures !findThrows ==> deleted + errors == |found|
      ensures !findThrows ==> db.files == old(db.files) - GoneFiles(found, fault)
      ensures !findThrows ==> db.blobs == old(db.blobs) - GonePaths(Docs(old(db.files)), found, fault)
      ensures deleted == |old(db.files)| - |db.files|
      ensures forall u :: u in found <==>
        u in old(db.files) && old(db.files)[u].doc.isDeleted && old(db.files)[u].doc.deletedAt.Some? &&
          old(db.files)[u].doc.deletedAt.value + 2592000000 <= now
      ensures forall u :: u in old(db.files) && u !in found ==> u in db.files && db.files[u] == old(db.files)[u]
      ensures !findThrows ==>
        (errors == 0 <==> forall u :: u in db.files ==>
          var doc := db.files[u].doc;
          !(doc.isDeleted && doc.deletedAt.Some? && doc.deletedAt.value + 2592000000 <= now))
    {
      assert forall u :: u in Docs(db.files) <==> u in db.files;
      if findThrows { return 0, 0; }
      ghost var files, cutoff := db.files, now - RETENTION_PERIOD_MS;
      assert Docs(files).Keys == files.Keys;
      AfterCleanup(files, cutoff, found, fault);
      GoneCount(found, fault);
      MapSizes(files, GoneFiles(found, fault));
      deleted, errors := CleanAll(WithPaths(Docs(db.files), found), Docs(files), found, fault);
    }

    /** The loop over what the find returned. */
    method CleanAll(expired: seq<(string, string)>, ghost docs: map<string, FileDoc>, ghost found: seq<string>,
            fault: string -> ItemFault)
      returns (deleted: nat, errors: nat)
      requires Distinct(found) && |expired| == |found| && forall u :: u in found ==> u in docs
      requires forall i :: 0 <= i < |found| ==> expired[i] == (found[i], docs[found[i]].storagePath)
      modifies db`files, db`blobs
      ensures Cleaned(docs, found, fault, old(db.files), db.files, old(db.blobs), db.blobs)
      ensures deleted == |GoneFiles(found, fault)| && deleted + errors == |found|
    {
      deleted, errors := 0, 0;
      ghost var files, blobs := db.files, db.blobs;
      var i := 0;
      while i < |expired|
        invariant 0 <= i <= |found| && deleted == |GoneFiles(found[..i], fault)| && deleted + errors == i
        invariant Cleaned(docs, found[..i], fault, files, db.files, blobs, db.blobs)
      {
        UpTo(found, i);
        CleanOneMore(docs, found[..i], found[i], fault, files, db.files, blobs, db.blobs);
        var ok := CleanItem(expired[i].0, expired[i].1, fault(expired[i].0));
        if ok { deleted := deleted + 1; } else { errors := errors + 1; }
        i := i + 1;
      }
      assert found[..|found|] == found;
    }

    /**
     * verifyFileIntegrity over the batch the find returned: `orphaned` counts exactly the files of the
     * batch whose blob is missing, or `unseen` because storage could not look and answers no; a
     * storage call that throws ends the job with the counts so far.
     */
    method VerifyFileIntegrity(batch: seq<string>, unseen: set<string>, throwsAt: Option<nat>)
      returns (isChecked: nat, orphaned: nat)
      requires |batch| <= 100 && Distinct(batch)
      requires forall u :: u in batch ==> u in db.files && !db.files[u].doc.isDeleted
      ensures throwsAt.None? || throwsAt.value >= |batch| ==>
        isChecked == |batch| && orphaned == |Orphans(db.files, db.blobs - unseen, batch)|
      ensures throwsAt.Some? && throwsAt.value < |batch| ==>
        isChecked == throwsAt.value + 1 && orphaned == |Orphans(db.files, db.blobs - unseen, batch[..throwsAt.value])|
    {
      isChecked, orphaned := 0, 0;
      var i := 0;
      while i < |batch|
        invariant 0 <= i <= |batch| && isChecked == i
        invariant orphaned == |Orphans(db.files, db.blobs - unseen, batch[..i])|
        invariant throwsAt.Some? ==> i <= throwsAt.value
      {
        isChecked := isChecked + 1;
        if throwsAt == Some(i) { return; }
        UpTo(batch, i);
        OneMoreOrphan(db.files, db.blobs - unseen, batch[..i], batch[i]);
        var path := db.files[batch[i]].doc.storagePath;
        if path !in db.blobs || path in unseen { orphaned := orphaned + 1; }
        i := i + 1;
      }
      assert batch[..|batch|] == batch;
    }
  }

  // ---- The methods as runs of FileStore ----------------------------------------------------

  lemma {:induction false} RunAppend(c: FileStore.Crypto, s: State, a: seq<Action>, b: seq<Action>)
    ensures Run(c, s, a + b) == Run(c, Run(c, s, a), b)
    decreases |a|
  {
    if a == [] {
      assert [] + b == b;
    } else {
      assert (a + b)[0] == a[0] && (a + b)[1..] == a[1..] + b;
      RunAppend(c, Apply(c, s, a[0]), a[1..], b);
    }
  }

  lemma RunOne(c: FileStore.Crypto, s: State, a: Action)
    ensures Run(c, s, [a]) == Apply(c, s, a)
  {
  }

  lemma RunTwo(c: FileStore.Crypto, s: State, a: Action, b: Action)
    ensures Run(c, s, [a, b]) == Apply(c, Apply(c, s, a), b)
  {
    RunOne(c, Apply(c, s, a), b);
    assert [a, b][1..] == [b];
  }

  /** uploadFile, through its last write or stopped before the document's insert. */
  lemma UploadIsARun(c: FileStore.Crypto, s: State, id: nat, data: Bytes, draw: Draw)
    requires id !in s.processes && draw.uuid !in s.files && Seal(c, s.masterKey, data, draw).Some?
    ensures var (blob, doc) := Seal(c, s.masterKey, data, draw).value;
      var done := Run(c, s, [Upload(id, data, draw), Advance(id), Advance(id)]);
      done.files == s.files[draw.uuid := doc] && done.blobs == s.blobs[doc.storagePath := blob] &&
        id in done.processes && done.processes[id] == Done
    ensures var (blob, doc) := Seal(c, s.masterKey, data, draw).value;
      var stopped := Run(c, s, [Upload(id, data, draw), Advance(id), Throw(id)]);
      stopped.files == s.files && stopped.blobs == s.blobs[doc.storagePath := blob] && id in stopped.processes &&
        stopped.processes[id] == Done
  {
    var begun := Apply(c, s, Upload(id, data, draw));
    assert [Upload(id, data, draw), Advance(id), Advance(id)][1..] == [Advance(id), Advance(id)];
    assert [Upload(id, data, draw), Advance(id), Throw(id)][1..] == [Advance(id), Throw(id)];
    RunTwo(c, begun, Advance(id), Advance(id));
    RunTwo(c, begun, Advance(id), Throw(id));
  }

  /** deleteFile, after its access check. */
  lemma DeleteIsARun(c: FileStore.Crypto, s: State, id: nat, uuid: string, now: int)
    requires id !in s.processes && uuid in s.files && !s.files[uuid].isDeleted
    ensures var t := Run(c, s, [Delete(id, uuid, now), Advance(id)]);
      t.files == s.files[uuid := s.files[uuid].(isDeleted := true, deletedAt := Some(now))] && t.blobs == s.blobs
  {
    RunTwo(c, s, Delete(id, uuid, now), Advance(id));
  }

  function ItemActions(id: nat, fault: ItemFault): seq<Action> {
    match fault
    case Clean => [Advance(id), Advance(id)]
    case Unseen => [Overlook(id), Advance(id)]
    case AtBlob => [SkipItem(id)]
    case AtDocument => [Advance(id), SkipItem(id)]
  }

  function JobActions(id: nat, items: seq<string>, fault: string -> ItemFault): seq<Action> {
    if items == [] then [] else JobActions(id, items[..|items| - 1], fault) + ItemActions(id, fault(items[|items| - 1]))
  }

  /** One item's actions remove what CleanItem removes and leave the job at the next item. */
  lemma ItemIsARun(c: FileStore.Crypto, s: State, id: nat, fault: ItemFault)
    requires id in s.processes && s.processes[id].CleanBlob? && s.processes[id].todo != []
    ensures var (p, t) := (s.processes[id], Run(c, s, ItemActions(id, fault)));
      && t.files == s.files - (if DocumentGoes(fault) then {p.todo[0].0} else {})
      && t.blobs == s.blobs - (if BlobGoes(fault) then {p.todo[0].1} else {})
      && id in t.processes && t.processes[id] == NextItem(p.cutoff, p.todo)
  {
    match fault
    case Clean => RunTwo(c, s, Advance(id), Advance(id));
    case Unseen => RunTwo(c, s, Overlook(id), Advance(id));
    case AtBlob => RunOne(c, s, SkipItem(id));
    case AtDocument => RunTwo(c, s, Advance(id), SkipItem(id));
  }

  /** The cleanup loop, with any item failing anywhere, is a run of FileStore's cleanup process. */
  lemma {:induction false} CleanupIsARun(c: FileStore.Crypto, s: State, id: nat, found: seq<string>,
          fault: string -> ItemFault, cutoff: int, n: nat)
    requires n <= |found| && Distinct(found) && forall u :: u in found ==> u in s.files
    requires id in s.processes && s.processes[id] == CleanBlob(cutoff, WithPaths(s.files, found))
    ensures var t := Run(c, s, JobActions(id, found[..n], fault));
      && Cleaned(s.files, found[..n], fault, s.files, t.files, s.blobs, t.blobs)
      && id in t.processes
      && t.processes[id] == if n < |found| || n == 0 then CleanBlob(cutoff, WithPaths(s.files, found)[n..]) else Done
  {
    var todo := WithPaths(s.files, found);
    if n == 0 {
      assert todo[0..] == todo;
    } else {
      CleanupIsARun(c, s, id, found, fault, cutoff, n - 1);
      UpTo(found, n - 1);
      var before, u := Run(c, s, JobActions(id, found[..n - 1], fault)), found[n - 1];
      assert found[..n][..n - 1] == found[..n - 1];
      RunAppend(c, s, JobActions(id, found[..n - 1], fault), ItemActions(id, fault(u)));
      ItemIsARun(c, before, id, fault(u));
      CleanOneMore(s.files, found[..n - 1], u, fault, s.files, before.files, s.blobs, before.blobs);
      assert todo[n - 1..][0] == (u, s.files[u].storagePath) && todo[n - 1..][1..] == todo[n..];
    }
  }

  /** In every state a run can reach, the integrity job counts no file but those whose blob storage cannot see. */
  lemma NoOrphans(c: FileStore.Crypto, masterKey: Option<Bytes>, actions: seq<Action>, files: Files, batch: seq<string>,
          unseen: set<string>)
    requires CryptoOk(c) && DrawsOk(c, Fresh(masterKey), actions)
    requires Docs(files) == Run(c, Fresh(masterKey), actions).files
    requires forall u :: u in batch ==> u in files && !files[u].doc.isDeleted
    ensures Orphans(files, Run(c, Fresh(masterKey), actions).blobs - unseen, batch) ==
      set u | u in batch && files[u].doc.storagePath in unseen
  {
    RunKeepsInv(c, Fresh(masterKey), actions);
    var s := Run(c, Fresh(masterKey), actions);
    forall u | u in batch ensures files[u].doc.storagePath in s.blobs {
      assert u in Docs(files) && Docs(files)[u] == files[u].doc;
      assert FileOk(c, s, u);
    }
  }
}
