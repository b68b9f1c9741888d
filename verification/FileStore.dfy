/**
 * The encrypted file store under concurrency: uploads, soft deletes, the cleanup job and master-key
 * rotation as interleaved processes over the files collection and blob storage. Any request may
 * throw between any two of its writes, and any cleanup item may fail at any point.
 */
module FileStore {
  import opened Common
  import opened Encryption
  import opened StoragePaths

  const RETENTION_PERIOD_MS := 30 * 24 * 60 * 60 * 1000

  /** What never changes during a run: the cipher and its lengths, and the SHA-256 checksum. */
  datatype Crypto = Crypto(cipher: Cipher, ivLength: nat, tagLength: nat, checksum: Bytes -> string)

  ghost predicate CryptoOk(c: Crypto) {
    Lawful(c.cipher, c.tagLength)
  }

  datatype FileDoc = FileDoc(
    storagePath: string, checksum: string, encryptedDek: Bytes, iv: Bytes, tag: Bytes,
    isDeleted: bool, deletedAt: Option<int>)

  /** What the random sources and the clock supply to an upload. */
  datatype Draw = Draw(uuid: string, ext: string, today: Date, dek: Bytes, dekIv: Bytes, iv: Bytes)

  /** History of an upload: the bytes sent, the master key that wrapped its key, and whether a rotation was open. */
  datatype Origin = Origin(data: Bytes, master: Bytes, rotating: bool)

  datatype Process =
    | StoreBlob(uuid: string, blob: Bytes, doc: FileDoc)
    | StoreDoc(uuid: string, doc: FileDoc)
    | CleanBlob(cutoff: int, todo: seq<(string, string)>)
    | CleanDoc(cutoff: int, todo: seq<(string, string)>)
    | SaveDelete(uuid: string, now: int)
    | Rotating(oldKey: Option<Bytes>)
    | Done

  /**
   * Files by uuid, blobs by path; `origins` records every uuid ever drawn for an upload, and
   * `deletions` when each file was first soft-deleted, also after its document is gone.
   */
  datatype State = State(
    files: map<string, FileDoc>, blobs: map<string, Bytes>, processes: map<nat, Process>,
    masterKey: Option<Bytes>, origins: map<string, Origin>, deletions: map<string, int>)

  datatype Action =
    | Upload(id: nat, data: Bytes, draw: Draw)
    | Delete(id: nat, uuid: string, now: int)
    | StartCleanup(id: nat, now: int, found: seq<string>)
    | Advance(id: nat)
    | SkipItem(id: nat)
    | Throw(id: nat)
    | Overlook(id: nat)
    | BeginRotation(id: nat, newKey: Bytes)
    | EndRotation(id: nat, vaultAccepts: bool)

  // ---- Sealing and opening -----------------------------------------------------------------

  /** uploadFile up to its first write: wrap a fresh key, seal the data with it, build the document. */
  function Seal(c: Crypto, master: Option<Bytes>, data: Bytes, d: Draw): Option<(Bytes, FileDoc)> {
    if master.None? then None
    else
      var wrapped := WrapKey(c.cipher, master.value, d.dekIv, d.dek);
      var sealed := c.cipher.seal(d.dek, d.iv, data);
      if wrapped.None? || sealed.None? then None
      else Some((sealed.value.0,
                 FileDoc(StoragePath(d.today, d.uuid, d.ext), c.checksum(data), wrapped.value, d.iv, sealed.value.1,
                   false, None)))
  }

  /** downloadFile after the access check: unwrap, open, compare checksums. */
  function Open(c: Crypto, master: Option<Bytes>, blobs: map<string, Bytes>, doc: FileDoc): Option<Bytes> {
    if doc.storagePath !in blobs || master.None? then None
    else
      var dek := UnwrapKey(c.cipher, c.ivLength, c.tagLength, master.value, doc.encryptedDek);
      if dek.None? then None
      else
        var data := c.cipher.open(dek.value, doc.iv, blobs[doc.storagePath], doc.tag);
        if data.Some? && c.checksum(data.value) == doc.checksum then data else None
  }

  function Download(c: Crypto, s: State, uuid: string): Option<Bytes> {
    if uuid !in s.files || s.files[uuid].isDeleted then None else Open(c, s.masterKey, s.blobs, s.files[uuid])
  }

  // ---- Steps -------------------------------------------------------------------------------

  predicate ExpiredAt(doc: FileDoc, cutoff: int) {
    doc.isDeleted && doc.deletedAt.Some? && doc.deletedAt.value <= cutoff
  }

  /** The answer to cleanup's find: some order of the expired files. */
  ghost predicate Finds(files: map<string, FileDoc>, cutoff: int, found: seq<string>) {
    forall u :: u in found <==> u in files && ExpiredAt(files[u], cutoff)
  }

  function WithPaths(files: map<string, FileDoc>, found: seq<string>): (todo: seq<(string, string)>)
    requires forall u :: u in found ==> u in files
    ensures |todo| == |found| && forall i :: 0 <= i < |found| ==> todo[i] == (found[i], files[found[i]].storagePath)
  {
    seq(|found|, i requires 0 <= i < |found| => (found[i], files[found[i]].storagePath))
  }

  function NextItem(cutoff: int, todo: seq<(string, string)>): Process {
    if |todo| <= 1 then Done else CleanBlob(cutoff, todo[1..])
  }

  /** The save of a delete, whatever has been saved since the delete's find. */
  function MarkDeleted(s: State, uuid: string, now: int): State
    requires uuid in s.files
  {
    s.(files := s.files[uuid := s.files[uuid].(isDeleted := true, deletedAt := Some(now))],
       deletions := s.deletions[uuid := if uuid in s.deletions && s.deletions[uuid] <= now then s.deletions[uuid]
         else now])
  }

  ghost function Step(s: State, id: nat): State
    requires id in s.processes
  {
    match s.processes[id]
    case StoreBlob(uuid, blob, doc) =>
      s.(blobs := s.blobs[doc.storagePath := blob], processes := s.processes[id := StoreDoc(uuid, doc)])
    case StoreDoc(uuid, doc) =>
      s.(files := if uuid in s.files then s.files else s.files[uuid := doc], processes := s.processes[id := Done])
    case CleanBlob(cutoff, todo) =>
      if todo == [] then s.(processes := s.processes[id := Done])
      else s.(blobs := s.blobs - {todo[0].1}, processes := s.processes[id := CleanDoc(cutoff, todo)])
    case CleanDoc(cutoff, todo) =>
      if todo == [] then s.(processes := s.processes[id := Done])
      else s.(files := s.files - {todo[0].0}, processes := s.processes[id := NextItem(cutoff, todo)])
    case SaveDelete(uuid, now) =>
      (if uuid in s.files then MarkDeleted(s, uuid, now) else s).(processes := s.processes[id := Done])
    case Rotating(_) => s
    case Done => s
  }

  predicate RotationOpen(s: State) {
    exists id :: id in s.processes && s.processes[id].Rotating?
  }

  ghost function Apply(c: Crypto, s: State, a: Action): State {
    match a
    case Upload(id, data, d) =>
      var sealed := Seal(c, s.masterKey, data, d);
      if id in s.processes || sealed.None? then s
      else s.(processes := s.processes[id := StoreBlob(d.uuid, sealed.value.0, sealed.value.1)],
              origins := s.origins[d.uuid := Origin(data, s.masterKey.value, RotationOpen(s))])
    case Delete(id, uuid, now) =>
      if id in s.processes || uuid !in s.files || s.files[uuid].isDeleted then s
      else s.(processes := s.processes[id := SaveDelete(uuid, now)])
    case StartCleanup(id, now, found) =>
      if id in s.processes || !Finds(s.files, now - RETENTION_PERIOD_MS, found) then s
      else s.(processes := s.processes[id := CleanBlob(now - RETENTION_PERIOD_MS, WithPaths(s.files, found))])
    case Advance(id) => if id in s.processes then Step(s, id) else s
    case SkipItem(id) =>
      if id in s.processes && (s.processes[id].CleanBlob? || s.processes[id].CleanDoc?)
      then s.(processes := s.processes[id := NextItem(s.processes[id].cutoff, s.processes[id].todo)]) else s
    case Overlook(id) =>
      if id in s.processes && s.processes[id].CleanBlob? && s.processes[id].todo != []
      then s.(processes := s.processes[id := CleanDoc(s.processes[id].cutoff, s.processes[id].todo)]) else s
    case Throw(id) =>
      if id in s.processes && !s.processes[id].Rotating? then s.(processes := s.processes[id := Done]) else s
    case BeginRotation(id, newKey) =>
      if id in s.processes then s
      else s.(processes := s.processes[id := Rotating(s.masterKey)], masterKey := Some(newKey))
    case EndRotation(id, vaultAccepts) =>
      if id !in s.processes || !s.processes[id].Rotating? then s
      else s.(processes := s.processes[id := Done],
              masterKey := if vaultAccepts then s.masterKey else s.processes[id].oldKey)
  }

  ghost function Run(c: Crypto, s: State, actions: seq<Action>): State
    decreases |actions|
  {
    if actions == [] then s else Run(c, Apply(c, s, actions[0]), actions[1..])
  }

  /** What v4 UUIDs and random IVs give: uuids of one length that do not repeat, IVs of the set length. */
  ghost predicate DrawOk(c: Crypto, s: State, a: Action) {
    a.Upload? ==> |a.draw.uuid| == UUID_LENGTH && a.draw.uuid !in s.origins && |a.draw.dekIv| == c.ivLength
  }

  ghost predicate DrawsOk(c: Crypto, s: State, actions: seq<Action>)
    decreases |actions|
  {
    actions == [] || (DrawOk(c, s, actions[0]) && DrawsOk(c, Apply(c, s, actions[0]), actions[1..]))
  }

  function Fresh(masterKey: Option<Bytes>): State {
    State(map[], map[], map[], masterKey, map[], map[])
  }

  // ---- The invariant -----------------------------------------------------------------------

  /** A path of the shape generateStoragePath gives this uuid. */
  ghost predicate PathOf(uuid: string, path: string) {
    |uuid| == UUID_LENGTH && exists d, e :: path == StoragePath(d, uuid, e)
  }

  lemma PathsApart(u: string, v: string, path: string)
    requires PathOf(u, path) && PathOf(v, path)
    ensures u == v
  {
    var d1, e1 :| path == StoragePath(d1, u, e1);
    var d2, e2 :| path == StoragePath(d2, v, e2);
    PathsInjective(d1, u, e1, d2, v, e2);
  }

  /** The blob and the document came from sealing the origin's data. */
  ghost predicate SealedFrom(c: Crypto, o: Origin, blob: Bytes, doc: FileDoc) {
    && doc.checksum == c.checksum(o.data)
    && exists dek ::
         && UnwrapKey(c.cipher, c.ivLength, c.tagLength, o.master, doc.encryptedDek) == Some(dek)
         && c.cipher.open(dek, doc.iv, blob, doc.tag) == Some(o.data)
         && (Authentic(c.cipher) ==>
               forall other :: other != o.master ==>
                 UnwrapKey(c.cipher, c.ivLength, c.tagLength, other, doc.encryptedDek).None?)
  }

  ghost predicate FileOk(c: Crypto, s: State, uuid: string)
    requires uuid in s.files
  {
    var doc := s.files[uuid];
    && uuid in s.origins && PathOf(uuid, doc.storagePath)
    && (doc.isDeleted ==> uuid in s.deletions && doc.deletedAt.Some? && s.deletions[uuid] <= doc.deletedAt.value)
    && (!doc.isDeleted ==> doc.storagePath in s.blobs && SealedFrom(c, s.origins[uuid], s.blobs[doc.storagePath], doc))
  }

  /** An item waiting for cleanup was soft-deleted long enough ago, and its document still is while it is there. */
  ghost predicate ItemOk(s: State, item: (string, string), cutoff: int) {
    && item.0 in s.origins && PathOf(item.0, item.1) && item.0 in s.deletions && s.deletions[item.0] <= cutoff
    && (item.0 in s.files ==> s.files[item.0].isDeleted && s.files[item.0].storagePath == item.1)
  }

  ghost predicate UploadOk(c: Crypto, s: State, uuid: string, blob: Bytes, doc: FileDoc) {
    uuid in s.origins && uuid !in s.files && PathOf(uuid, doc.storagePath) && !doc.isDeleted &&
      SealedFrom(c, s.origins[uuid], blob, doc)
  }

  ghost predicate LocalOk(c: Crypto, s: State, p: Process) {
    match p
    case StoreBlob(uuid, blob, doc) => UploadOk(c, s, uuid, blob, doc)
    case StoreDoc(uuid, doc) => doc.storagePath in s.blobs && UploadOk(c, s, uuid, s.blobs[doc.storagePath], doc)
    case CleanBlob(cutoff, todo) => forall item :: item in todo ==> ItemOk(s, item, cutoff)
    case CleanDoc(cutoff, todo) => forall item :: item in todo ==> ItemOk(s, item, cutoff)
    case _ => true
  }

  predicate StoresFor(p: Process, uuid: string) {
    (p.StoreBlob? || p.StoreDoc?) && p.uuid == uuid
  }

  ghost predicate Cleans(p: Process, uuid: string) {
    (p.CleanBlob? || p.CleanDoc?) && exists path :: (uuid, path) in p.todo
  }

  /** No two uploads share a uuid, and no cleanup job has the file of an unfinished upload. */
  ghost predicate Apart(p: Process, q: Process) {
    forall u :: StoresFor(p, u) ==> !StoresFor(q, u) && !Cleans(q, u)
  }

  ghost predicate Inv(c: Crypto, s: State) {
    && (forall u {:trigger FileOk(c, s, u)} :: u in s.files ==> FileOk(c, s, u))
    && (forall id {:trigger LocalOk(c, s, s.processes[id])} :: id in s.processes ==> LocalOk(c, s, s.processes[id]))
    && (forall i, j :: i in s.processes && j in s.processes && i != j ==> Apart(s.processes[i], s.processes[j]))
  }

  // ---- Every step keeps it -----------------------------------------------------------------

  /** Between `s` and `t`, nothing changes but the document and the blob of file `v`. */
  ghost predicate OnlyTouches(s: State, t: State, v: string) {
    && (forall u :: u != v ==> (u in t.files <==> u in s.files) && (u in s.files ==> t.files[u] == s.files[u]))
    && (forall path :: !PathOf(v, path) ==>
        (path in t.blobs <==> path in s.blobs) && (path in s.blobs ==> t.blobs[path] == s.blobs[path]))
    && (forall u :: u in s.origins ==> u in t.origins && t.origins[u] == s.origins[u])
    && (forall u :: u != v && u in s.deletions ==> u in t.deletions && t.deletions[u] == s.deletions[u])
  }

  lemma OtherFiles(c: Crypto, s: State, t: State, v: string)
    requires OnlyTouches(s, t, v) && forall u :: u in s.files ==> FileOk(c, s, u)
    ensures forall u :: u in t.files && u != v ==> FileOk(c, t, u)
  {
    forall u | u in t.files && u != v ensures FileOk(c, t, u) {
      assert u in s.files && FileOk(c, s, u);
      if PathOf(v, s.files[u].storagePath) { PathsApart(u, v, s.files[u].storagePath); }
    }
  }

  lemma OtherProcess(c: Crypto, s: State, t: State, v: string, p: Process)
    requires OnlyTouches(s, t, v) && LocalOk(c, s, p) && !StoresFor(p, v)
    requires Cleans(p, v) ==> forall path, cutoff :: ItemOk(s, (v, path), cutoff) ==> ItemOk(t, (v, path), cutoff)
    ensures LocalOk(c, t, p)
  {
    if p.StoreDoc? && PathOf(v, p.doc.storagePath) { PathsApart(p.uuid, v, p.doc.storagePath); }
    if p.CleanBlob? || p.CleanDoc? {
      forall item | item in p.todo ensures ItemOk(t, item, p.cutoff) {
        assert ItemOk(s, item, p.cutoff);
        if item.0 == v { assert item == (v, item.1) && Cleans(p, v); }
      }
    }
  }

  /** A process that only finishes or drops items stays apart from the others. */
  ghost predicate Narrows(p: Process, q: Process) {
    forall u :: (StoresFor(q, u) ==> StoresFor(p, u)) && (Cleans(q, u) ==> Cleans(p, u))
  }

  /** The shape of every step that touches one file on behalf of one process. */
  lemma TouchKeepsInv(c: Crypto, s: State, t: State, id: nat, v: string)
    requires Inv(c, s) && OnlyTouches(s, t, v) && id in s.processes && id in t.processes
    requires t.processes == s.processes[id := t.processes[id]] && Narrows(s.processes[id], t.processes[id])
    requires v in t.files ==> FileOk(c, t, v)
    requires LocalOk(c, t, t.processes[id])
    requires forall j :: j in s.processes && j != id ==> !StoresFor(s.processes[j], v)
    requires forall j, path, cutoff ::
        j in s.processes && j != id && Cleans(s.processes[j], v) && ItemOk(s, (v, path), cutoff) ==>
        ItemOk(t, (v, path), cutoff)
    ensures Inv(c, t)
  {
    OtherFiles(c, s, t, v);
    forall j | j in t.processes ensures LocalOk(c, t, t.processes[j]) {
      if j != id { OtherProcess(c, s, t, v, s.processes[j]); }
    }
    forall i, j | i in t.processes && j in t.processes && i != j ensures Apart(t.processes[i], t.processes[j]) {
      assert Apart(s.processes[i], s.processes[j]);
    }
  }

  /** A job's next item is a file no unfinished upload has. */
  lemma NextItemFacts(c: Crypto, s: State, id: nat)
    requires Inv(c, s) && id in s.processes && (s.processes[id].CleanBlob? || s.processes[id].CleanDoc?)
    requires s.processes[id].todo != []
    ensures var p := s.processes[id]; ItemOk(s, p.todo[0], p.cutoff)
    ensures forall j :: j in s.processes && j != id ==> !StoresFor(s.processes[j], s.processes[id].todo[0].0)
  {
    assert LocalOk(c, s, s.processes[id]);
  }

  lemma ClaimedIsDeleted(c: Crypto, s: State, t: State, item: (string, string), cutoff: int)
    requires ItemOk(s, item, cutoff) && t.files == s.files - (s.files.Keys - t.files.Keys)
    requires t.origins == s.origins && t.deletions == s.deletions
    requires item.0 in s.files ==> FileOk(c, s, item.0)
    ensures item.0 in t.files ==> FileOk(c, t, item.0)
  {
  }

  lemma RemovalTouches(s: State, t: State, v: string, path: string)
    requires PathOf(v, path) && t.origins == s.origins && t.deletions == s.deletions
    requires (t.files == s.files && t.blobs == s.blobs - {path}) || (t.files == s.files - {v} && t.blobs == s.blobs)
    ensures OnlyTouches(s, t, v)
  {
  }

  lemma CleanBlobStep(c: Crypto, s: State, id: nat)
    requires Inv(c, s) && id in s.processes && s.processes[id].CleanBlob? && s.processes[id].todo != []
    ensures Inv(c, Step(s, id))
  {
    var p, t := s.processes[id], Step(s, id);
    var item := p.todo[0];
    NextItemFacts(c, s, id);
    ClaimedIsDeleted(c, s, t, item, p.cutoff);
    assert t.processes[id] == CleanDoc(p.cutoff, p.todo);
    NarrowsIfSublist(p, t.processes[id]);
    SameItems(c, s, t, p);
    RemovalTouches(s, t, item.0, item.1);
    TouchKeepsInv(c, s, t, id, item.0);
  }

  lemma CleanDocStep(c: Crypto, s: State, id: nat)
    requires Inv(c, s) && id in s.processes && s.processes[id].CleanDoc? && s.processes[id].todo != []
    ensures Inv(c, Step(s, id))
  {
    var p, t := s.processes[id], Step(s, id);
    var item := p.todo[0];
    NextItemFacts(c, s, id);
    assert t.processes[id] == NextItem(p.cutoff, p.todo);
    NarrowsIfSublist(p, t.processes[id]);
    SameItems(c, s, t, p);
    RemovalTouches(s, t, item.0, item.1);
    TouchKeepsInv(c, s, t, id, item.0);
  }

  lemma NarrowsIfSublist(p: Process, q: Process)
    requires q == Done || ((p.CleanBlob? || p.CleanDoc?) && (q.CleanBlob? || q.CleanDoc?) && forall item ::
        item in q.todo ==> item in p.todo)
    ensures Narrows(p, q)
  {
  }

  /** Removing documents or blobs leaves every waiting item as it was. */
  lemma SameItems(c: Crypto, s: State, t: State, p: Process)
    requires t.files == s.files - (s.files.Keys - t.files.Keys) && t.origins == s.origins && t.deletions == s.deletions
    requires (p.CleanBlob? || p.CleanDoc?) && LocalOk(c, s, p)
    ensures forall item, cutoff :: ItemOk(s, item, cutoff) ==> ItemOk(t, item, cutoff)
    ensures forall q: Process ::
      (q.CleanBlob? || q.CleanDoc?) && q.cutoff == p.cutoff && (forall item :: item in q.todo ==> item in p.todo)
      ==> LocalOk(c, t, q)
  {
  }

  lemma CleanStep(c: Crypto, s: State, id: nat)
    requires Inv(c, s) && id in s.processes && (s.processes[id].CleanBlob? || s.processes[id].CleanDoc?)
    ensures Inv(c, Step(s, id))
  {
    if s.processes[id].todo == [] { NarrowKeepsInv(c, s, id, Done); }
    else if s.processes[id].CleanBlob? { CleanBlobStep(c, s, id); }
    else { CleanDocStep(c, s, id); }
  }

  lemma StoreStep(c: Crypto, s: State, id: nat)
    requires Inv(c, s) && id in s.processes && (s.processes[id].StoreBlob? || s.processes[id].StoreDoc?)
    ensures Inv(c, Step(s, id))
  {
    var p := s.processes[id];
    assert LocalOk(c, s, p) && StoresFor(p, p.uuid);
    forall j | j in s.processes && j != id
      ensures !StoresFor(s.processes[j], p.uuid) && !Cleans(s.processes[j], p.uuid)
    {
      assert Apart(p, s.processes[j]);
    }
    TouchKeepsInv(c, s, Step(s, id), id, p.uuid);
  }

  /** Changing only the processes, towards less. */
  lemma NarrowKeepsInv(c: Crypto, s: State, id: nat, q: Process)
    requires Inv(c, s) && id in s.processes && Narrows(s.processes[id], q) && LocalOk(c, s, q)
    ensures Inv(c, s.(processes := s.processes[id := q]))
  {
    var t := s.(processes := s.processes[id := q]);
    forall i, j | i in t.processes && j in t.processes && i != j ensures Apart(t.processes[i], t.processes[j]) {
      assert Apart(s.processes[i], s.processes[j]);
    }
    KeepsFacts(c, s, t);
  }

  /** Facts about files and processes depend on documents, blobs and origins alone. */
  lemma KeepsFacts(c: Crypto, s: State, t: State)
    requires t.files == s.files && t.blobs == s.blobs && t.deletions == s.deletions && forall u :: u in s.origins ==>
      u in t.origins && t.origins[u] == s.origins[u]
    ensures forall u :: u in s.files && FileOk(c, s, u) ==> FileOk(c, t, u)
    ensures forall p :: LocalOk(c, s, p) ==> LocalOk(c, t, p)
  {
  }

  lemma SkipKeepsInv(c: Crypto, s: State, id: nat)
    requires Inv(c, s) && id in s.processes && (s.processes[id].CleanBlob? || s.processes[id].CleanDoc?)
    ensures Inv(c, s.(processes := s.processes[id := NextItem(s.processes[id].cutoff, s.processes[id].todo)]))
  {
    var p := s.processes[id];
    assert LocalOk(c, s, p);
    NarrowKeepsInv(c, s, id, NextItem(p.cutoff, p.todo));
  }

  lemma SoftDeleteTouches(c: Crypto, s: State, uuid: string, now: int)
    requires uuid in s.files && FileOk(c, s, uuid)
    ensures OnlyTouches(s, MarkDeleted(s, uuid, now), uuid) && FileOk(c, MarkDeleted(s, uuid, now), uuid)
    ensures forall path, cutoff :: ItemOk(s, (uuid, path), cutoff) ==>
      ItemOk(MarkDeleted(s, uuid, now), (uuid, path), cutoff)
  {
  }

  lemma MarkKeepsInv(c: Crypto, s: State, uuid: string, now: int)
    requires Inv(c, s) && uuid in s.files
    ensures Inv(c, MarkDeleted(s, uuid, now))
  {
    var t := MarkDeleted(s, uuid, now);
    SoftDeleteTouches(c, s, uuid, now);
    OtherFiles(c, s, t, uuid);
    forall j | j in t.processes ensures LocalOk(c, t, t.processes[j]) {
      assert LocalOk(c, s, s.processes[j]) && !StoresFor(s.processes[j], uuid);
      OtherProcess(c, s, t, uuid, s.processes[j]);
    }
  }

  lemma DeleteStep(c: Crypto, s: State, id: nat)
    requires Inv(c, s) && id in s.processes && s.processes[id].SaveDelete? && s.processes[id].uuid in s.files
    ensures Inv(c, Step(s, id))
  {
    var p := s.processes[id];
    MarkKeepsInv(c, s, p.uuid, p.now);
    NarrowKeepsInv(c, MarkDeleted(s, p.uuid, p.now), id, Done);
  }

  /** Sealing produces what opening needs. */
  lemma SealIsSealed(c: Crypto, master: Option<Bytes>, data: Bytes, d: Draw, rotating: bool)
    requires CryptoOk(c) && |d.uuid| == UUID_LENGTH && |d.dekIv| == c.ivLength && Seal(c, master, data, d).Some?
    ensures var (blob, doc) := Seal(c, master, data, d).value;
      master.Some? && SealedFrom(c, Origin(data, master.value, rotating), blob, doc) &&
        PathOf(d.uuid, doc.storagePath) && !doc.isDeleted
  {
    UnwrapUndoesWrap(c.cipher, c.ivLength, c.tagLength, master.value, d.dekIv, d.dek);
  }

  lemma AddKeepsInv(c: Crypto, s: State, t: State, id: nat, p: Process)
    requires Inv(c, s) && id !in s.processes && t.processes == s.processes[id := p]
    requires t.files == s.files && t.blobs == s.blobs && t.deletions == s.deletions && forall u :: u in s.origins ==>
      u in t.origins && t.origins[u] == s.origins[u]
    requires LocalOk(c, t, p) && forall i :: i in s.processes ==> Apart(p, s.processes[i]) && Apart(s.processes[i], p)
    ensures Inv(c, t)
  {
    KeepsFacts(c, s, t);
    assert forall u :: u in s.files ==> FileOk(c, s, u);
    forall i, j | i in t.processes && j in t.processes && i != j ensures Apart(t.processes[i], t.processes[j]) {
      assert i != id && j != id ==> Apart(s.processes[i], s.processes[j]);
    }
  }

  /** A uuid never drawn before is in no document and no process. */
  lemma UndrawnIsUnused(c: Crypto, s: State, uuid: string, q: Process)
    requires uuid !in s.origins && LocalOk(c, s, q)
    ensures !StoresFor(q, uuid) && !Cleans(q, uuid)
  {
  }

  lemma UploadKeepsInv(c: Crypto, s: State, id: nat, data: Bytes, d: Draw)
    requires Inv(c, s) && CryptoOk(c) && |d.uuid| == UUID_LENGTH && d.uuid !in s.origins && |d.dekIv| == c.ivLength
    ensures Inv(c, Apply(c, s, Upload(id, data, d)))
  {
    var t := Apply(c, s, Upload(id, data, d));
    if t != s {
      SealIsSealed(c, s.masterKey, data, d, RotationOpen(s));
      assert d.uuid in s.files ==> FileOk(c, s, d.uuid);
      var p := t.processes[id];
      forall i | i in s.processes ensures Apart(p, s.processes[i]) && Apart(s.processes[i], p) {
        UndrawnIsUnused(c, s, d.uuid, s.processes[i]);
      }
      AddKeepsInv(c, s, t, id, p);
    }
  }

  lemma StartCleanupKeepsInv(c: Crypto, s: State, id: nat, now: int, found: seq<string>)
    requires Inv(c, s)
    ensures Inv(c, Apply(c, s, StartCleanup(id, now, found)))
  {
    var t := Apply(c, s, StartCleanup(id, now, found));
    if t != s {
      var p := t.processes[id];
      forall item | item in p.todo ensures ItemOk(t, item, p.cutoff) && item.0 in s.files {
        assert FileOk(c, s, item.0);
      }
      forall i | i in s.processes ensures Apart(p, s.processes[i]) && Apart(s.processes[i], p) {
        assert LocalOk(c, s, s.processes[i]);
      }
      AddKeepsInv(c, s, t, id, p);
    }
  }

  lemma AdvanceKeepsInv(c: Crypto, s: State, id: nat)
    requires Inv(c, s) && id in s.processes
    ensures Inv(c, Step(s, id))
  {
    match s.processes[id]
    case StoreBlob(_, _, _) => StoreStep(c, s, id);
    case StoreDoc(_, _) => StoreStep(c, s, id);
    case CleanBlob(_, _) => CleanStep(c, s, id);
    case CleanDoc(_, _) => CleanStep(c, s, id);
    case SaveDelete(uuid, _) => if uuid in s.files { DeleteStep(c, s, id); } else { NarrowKeepsInv(c, s, id, Done); }
    case _ =>
  }

  lemma DeleteKeepsInv(c: Crypto, s: State, id: nat, uuid: string, now: int)
    requires Inv(c, s)
    ensures Inv(c, Apply(c, s, Delete(id, uuid, now)))
  {
    var t := Apply(c, s, Delete(id, uuid, now));
    if t != s { AddKeepsInv(c, s, t, id, SaveDelete(uuid, now)); }
  }

  lemma ApplyKeepsInv(c: Crypto, s: State, a: Action)
    requires Inv(c, s) && CryptoOk(c) && DrawOk(c, s, a)
    ensures Inv(c, Apply(c, s, a))
  {
    match a
    case Upload(id, data, d) => UploadKeepsInv(c, s, id, data, d);
    case Delete(id, uuid, now) => DeleteKeepsInv(c, s, id, uuid, now);
    case StartCleanup(id, now, found) => StartCleanupKeepsInv(c, s, id, now, found);
    case Advance(id) => if id in s.processes { AdvanceKeepsInv(c, s, id); }
    case SkipItem(id) =>
      if id in s.processes && (s.processes[id].CleanBlob? || s.processes[id].CleanDoc?) { SkipKeepsInv(c, s, id); }
    case Overlook(id) => OverlookKeepsInv(c, s, id);
    case Throw(id) => if id in s.processes { NarrowKeepsInv(c, s, id, Done); }
    case BeginRotation(id, newKey) => BeginKeepsInv(c, s, id, newKey);
    case EndRotation(id, vaultAccepts) => EndKeepsInv(c, s, id, vaultAccepts);
  }

  /** A blob that exists answers false for stays where it is. */
  lemma OverlookKeepsInv(c: Crypto, s: State, id: nat)
    requires Inv(c, s)
    ensures Inv(c, Apply(c, s, Overlook(id)))
  {
    if Apply(c, s, Overlook(id)) != s {
      var p := s.processes[id];
      assert LocalOk(c, s, p);
      NarrowsIfSublist(p, CleanDoc(p.cutoff, p.todo));
      NarrowKeepsInv(c, s, id, CleanDoc(p.cutoff, p.todo));
    }
  }

  lemma BeginKeepsInv(c: Crypto, s: State, id: nat, newKey: Bytes)
    requires Inv(c, s)
    ensures Inv(c, Apply(c, s, BeginRotation(id, newKey)))
  {
    var t := Apply(c, s, BeginRotation(id, newKey));
    if t != s { AddKeepsInv(c, s, t, id, Rotating(s.masterKey)); }
  }

  lemma EndKeepsInv(c: Crypto, s: State, id: nat, vaultAccepts: bool)
    requires Inv(c, s)
    ensures Inv(c, Apply(c, s, EndRotation(id, vaultAccepts)))
  {
    var t := Apply(c, s, EndRotation(id, vaultAccepts));
    if t != s {
      NarrowKeepsInv(c, s, id, Done);
      KeysKeepInv(c, s.(processes := s.processes[id := Done]), t);
    }
  }

  lemma KeysKeepInv(c: Crypto, s: State, t: State)
    requires Inv(c, s) && t == s.(masterKey := t.masterKey)
    ensures Inv(c, t)
  {
    KeepsFacts(c, s, t);
  }

  lemma {:induction false} RunKeepsInv(c: Crypto, s: State, actions: seq<Action>)
    requires Inv(c, s) && CryptoOk(c) && DrawsOk(c, s, actions)
    ensures Inv(c, Run(c, s, actions))
    decreases |actions|
  {
    if actions != [] {
      var next, rest := Apply(c, s, actions[0]), actions[1..];
      ApplyKeepsInv(c, s, actions[0]);
      RunKeepsInv(c, next, rest);
      assert Run(c, s, actions) == Run(c, next, rest);
    }
  }

  // ---- What every run satisfies ------------------------------------------------------------

  /**
   * Stored file fidelity. Through every interleaving of uploads, deletes, cleanups and rotations,
   * with failures anywhere, a file that is not deleted downloads to the bytes uploaded if the master
   * key is the one that wrapped its key; and for a cipher that tells keys apart, only if.
   */
  lemma StoredFilesDownload(c: Crypto, masterKey: Option<Bytes>, actions: seq<Action>, uuid: string)
    requires CryptoOk(c) && DrawsOk(c, Fresh(masterKey), actions)
    requires var s := Run(c, Fresh(masterKey), actions); uuid in s.files && !s.files[uuid].isDeleted
    ensures var s := Run(c, Fresh(masterKey), actions);
      && uuid in s.origins
      && (s.masterKey == Some(s.origins[uuid].master) ==> Download(c, s, uuid) == Some(s.origins[uuid].data))
      && (Authentic(c.cipher) ==>
          (Download(c, s, uuid) == Some(s.origins[uuid].data) <==> s.masterKey == Some(s.origins[uuid].master)))
  {
    RunKeepsInv(c, Fresh(masterKey), actions);
    var s := Run(c, Fresh(masterKey), actions);
    assert FileOk(c, s, uuid);
  }

  // ---- Rotations that fail -----------------------------------------------------------------

  /** No rotation is accepted by Vault, each draws a key other than the first, and none overlaps another. */
  ghost predicate RotationsFailApart(c: Crypto, s: State, actions: seq<Action>, first: Option<Bytes>)
    decreases |actions|
  {
    actions == [] ||
    ((actions[0].BeginRotation? ==> !RotationOpen(s) && Some(actions[0].newKey) != first)
     && (actions[0].EndRotation? ==> !actions[0].vaultAccepts)
     && RotationsFailApart(c, Apply(c, s, actions[0]), actions[1..], first))
  }

  /** Between rotations the first key is in place; an upload saw another one exactly when a rotation was open. */
  ghost predicate KeyOk(s: State, first: Option<Bytes>) {
    && (RotationOpen(s) <==> s.masterKey != first)
    && (forall id :: id in s.processes && s.processes[id].Rotating? ==> s.processes[id].oldKey == first)
    && (forall i, j :: i in s.processes && j in s.processes && s.processes[i].Rotating? && s.processes[j].Rotating? ==>
        i == j)
    && (forall u :: u in s.origins ==> (s.origins[u].rotating <==> Some(s.origins[u].master) != first))
  }

  /** A step by a request that is no rotation, before and after, and that leaves the key alone. */
  ghost predicate NoRotationStep(s: State, t: State, id: nat) {
    && id in t.processes && t.processes == s.processes[id := t.processes[id]] && !t.processes[id].Rotating?
    && (id in s.processes ==> !s.processes[id].Rotating?) && t.masterKey == s.masterKey
  }

  lemma NoRotationKeeps(s: State, t: State, id: nat, first: Option<Bytes>)
    requires KeyOk(s, first) && NoRotationStep(s, t, id)
    requires forall u :: u in t.origins ==>
      (u in s.origins && t.origins[u] == s.origins[u])
      || (t.origins[u].rotating == RotationOpen(s) && Some(t.origins[u].master) == s.masterKey)
    ensures KeyOk(t, first)
  {
    forall j ensures j in t.processes && t.processes[j].Rotating? <==> j in s.processes && s.processes[j].Rotating? { }
  }

  lemma AdvanceKeepsKey(s: State, id: nat, first: Option<Bytes>)
    requires KeyOk(s, first) && id in s.processes
    ensures KeyOk(Step(s, id), first)
  {
    if !s.processes[id].Rotating? && !s.processes[id].Done? { NoRotationKeeps(s, Step(s, id), id, first); }
  }

  lemma UploadKeepsKey(c: Crypto, s: State, id: nat, data: Bytes, d: Draw, first: Option<Bytes>)
    requires KeyOk(s, first)
    ensures KeyOk(Apply(c, s, Upload(id, data, d)), first)
  {
    var t := Apply(c, s, Upload(id, data, d));
    if t != s {
      NoRotationKeeps(s, t, id, first);
    }
  }

  lemma RotationKeepsKey(c: Crypto, s: State, a: Action, first: Option<Bytes>)
    requires KeyOk(s, first) && (a.BeginRotation? || a.EndRotation?)
    requires a.BeginRotation? ==> !RotationOpen(s) && Some(a.newKey) != first
    requires a.EndRotation? ==> !a.vaultAccepts
    ensures KeyOk(Apply(c, s, a), first)
  {
    var t := Apply(c, s, a);
    if a.BeginRotation? && t != s { assert t.processes[a.id].Rotating?; }
  }

  lemma KeyStep(c: Crypto, s: State, a: Action, first: Option<Bytes>)
    requires KeyOk(s, first)
    requires a.BeginRotation? ==> !RotationOpen(s) && Some(a.newKey) != first
    requires a.EndRotation? ==> !a.vaultAccepts
    ensures KeyOk(Apply(c, s, a), first)
  {
    var t := Apply(c, s, a);
    match a
    case Upload(id, data, d) => UploadKeepsKey(c, s, id, data, d, first);
    case Delete(id, _, _) => if t != s { NoRotationKeeps(s, t, id, first); }
    case StartCleanup(id, _, _) => if t != s { NoRotationKeeps(s, t, id, first); }
    case Advance(id) => if id in s.processes { AdvanceKeepsKey(s, id, first); }
    case SkipItem(id) => if t != s { NoRotationKeeps(s, t, id, first); }
    case Overlook(id) => if t != s { NoRotationKeeps(s, t, id, first); }
    case Throw(id) => if t != s { NoRotationKeeps(s, t, id, first); }
    case BeginRotation(_, _) => RotationKeepsKey(c, s, a, first);
    case EndRotation(_, _) => RotationKeepsKey(c, s, a, first);
  }

  lemma {:induction false} KeyRun(c: Crypto, s: State, actions: seq<Action>, first: Option<Bytes>)
    requires KeyOk(s, first) && RotationsFailApart(c, s, actions, first)
    ensures KeyOk(Run(c, s, actions), first)
    decreases |actions|
  {
    if actions != [] {
      var next, rest := Apply(c, s, actions[0]), actions[1..];
      KeyStep(c, s, actions[0], first);
      KeyRun(c, next, rest, first);
      assert Run(c, s, actions) == Run(c, next, rest);
    }
  }

  /**
   * No successful master-key change. Through every run whose rotations all fail, one at a time, once
   * none is open every file that is not deleted downloads to exactly the bytes uploaded, unless its
   * upload wrapped its key while a rotation was open; and for an authentic cipher only then.
   */
  lemma EveryFileDownloads(c: Crypto, masterKey: Option<Bytes>, actions: seq<Action>, uuid: string)
    requires CryptoOk(c) && DrawsOk(c, Fresh(masterKey), actions)
    requires RotationsFailApart(c, Fresh(masterKey), actions, masterKey)
    requires var s := Run(c, Fresh(masterKey), actions);
      uuid in s.files && !s.files[uuid].isDeleted && !RotationOpen(s)
    ensures var s := Run(c, Fresh(masterKey), actions);
      && uuid in s.origins && s.masterKey == masterKey
      && (!s.origins[uuid].rotating ==> Download(c, s, uuid) == Some(s.origins[uuid].data))
      && (Authentic(c.cipher) ==> (Download(c, s, uuid) == Some(s.origins[uuid].data) <==> !s.origins[uuid].rotating))
  {
    KeyRun(c, Fresh(masterKey), actions, masterKey);
    StoredFilesDownload(c, masterKey, actions, uuid);
  }

  lemma RunThree(c: Crypto, s: State, x: Action, y: Action, z: Action, rest: seq<Action>)
    ensures Run(c, s, [x, y, z] + rest) == Run(c, Apply(c, Apply(c, Apply(c, s, x), y), z), rest)
  {
    var all := [x, y, z] + rest;
    assert all[1..] == [y, z] + rest && all[1..][1..] == [z] + rest && all[1..][1..][1..] == rest;
    assert Run(c, s, all) == Run(c, Apply(c, s, x), all[1..]);
    assert Run(c, Apply(c, s, x), all[1..]) == Run(c, Apply(c, Apply(c, s, x), y), all[1..][1..]);
  }

  /** An upload that nothing interrupts. */
  function AfterUpload(c: Crypto, s: State, id: nat, data: Bytes, d: Draw): State
    requires s.masterKey.Some? && Seal(c, s.masterKey, data, d).Some?
  {
    var (blob, doc) := Seal(c, s.masterKey, data, d).value;
    State(s.files[d.uuid := doc], s.blobs[doc.storagePath := blob], s.processes[id := Done], s.masterKey,
          s.origins[d.uuid := Origin(data, s.masterKey.value, RotationOpen(s))], s.deletions)
  }

  lemma UploadSteps(c: Crypto, s: State, id: nat, data: Bytes, d: Draw)
    requires id !in s.processes && d.uuid !in s.files && s.masterKey.Some? && Seal(c, s.masterKey, data, d).Some?
    ensures Apply(c, Apply(c, Apply(c, s, Upload(id, data, d)), Advance(id)), Advance(id)) ==
      AfterUpload(c, s, id, data, d)
  {
    var (blob, doc) := Seal(c, s.masterKey, data, d).value;
    var s1 := Apply(c, s, Upload(id, data, d));
    assert s1.processes == s.processes[id := StoreBlob(d.uuid, blob, doc)];
    var s2 := Apply(c, s1, Advance(id));
    assert s2.processes == s.processes[id := StoreDoc(d.uuid, doc)];
    assert Apply(c, s2, Advance(id)).processes == s.processes[id := Done];
  }

  lemma UploadedInv(c: Crypto, s: State, id: nat, data: Bytes, d: Draw)
    requires Inv(c, s) && CryptoOk(c) && DrawOk(c, s, Upload(id, data, d)) && d.uuid !in s.files
    requires id !in s.processes && s.masterKey.Some? && Seal(c, s.masterKey, data, d).Some?
    ensures Inv(c, AfterUpload(c, s, id, data, d))
  {
    UploadSteps(c, s, id, data, d);
    var s1 := Apply(c, s, Upload(id, data, d));
    ApplyKeepsInv(c, s, Upload(id, data, d));
    ApplyKeepsInv(c, s1, Advance(id));
    ApplyKeepsInv(c, Apply(c, s1, Advance(id)), Advance(id));
  }

  /** A live file under another master key than the one that wrapped its key is lost to its readers. */
  lemma OtherKeyLoses(c: Crypto, s: State, uuid: string)
    requires Inv(c, s) && Authentic(c.cipher) && uuid in s.files && !s.files[uuid].isDeleted
    requires uuid in s.origins && s.masterKey != Some(s.origins[uuid].master)
    ensures Download(c, s, uuid) == None
  {
    assert FileOk(c, s, uuid);
  }

  /** A later state with the same documents, blobs and origins reads like this one under its own key. */
  lemma KeyChangeLoses(c: Crypto, s: State, t: State, uuid: string)
    requires Inv(c, s) && Authentic(c.cipher) && uuid in s.files && !s.files[uuid].isDeleted && uuid in s.origins
    requires t.files == s.files && t.blobs == s.blobs && t.masterKey != Some(s.origins[uuid].master)
    ensures Download(c, t, uuid) == None
  {
    var u := s.(masterKey := t.masterKey);
    KeysKeepInv(c, s, u);
    OtherKeyLoses(c, u, uuid);
  }

  lemma FreshInv(c: Crypto, masterKey: Option<Bytes>)
    ensures Inv(c, Fresh(masterKey))
  {
  }

  lemma RotationEndsAfterUpload(c: Crypto, s: State, k1: Bytes, data: Bytes, d: Draw)
    requires Inv(c, s) && CryptoOk(c) && Authentic(c.cipher) && DrawOk(c, s, Upload(1, data, d)) && d.uuid !in s.files
    requires s.processes == map[9 := Rotating(Some(k1))] && s.masterKey.Some? && s.masterKey != Some(k1)
    requires Seal(c, s.masterKey, data, d).Some?
    ensures var t := Run(c, s, [Upload(1, data, d), Advance(1), Advance(1)] + ([EndRotation(9, false)] + []));
      t.masterKey == Some(k1) && d.uuid in t.files && !t.files[d.uuid].isDeleted && Download(c, t, d.uuid) == None
  {
    UploadSteps(c, s, 1, data, d);
    UploadedInv(c, s, 1, data, d);
    var t := AfterUpload(c, s, 1, data, d);
    RunThree(c, s, Upload(1, data, d), Advance(1), Advance(1), [EndRotation(9, false)] + []);
    RunOne(c, t, EndRotation(9, false), []);
    RejectedRotation(c, t, 9, Some(k1));
    KeyChangeLoses(c, t, Apply(c, t, EndRotation(9, false)), d.uuid);
  }

  lemma RejectedRotation(c: Crypto, s: State, id: nat, oldKey: Option<Bytes>)
    requires id in s.processes && s.processes[id] == Rotating(oldKey)
    ensures Apply(c, s, EndRotation(id, false)) == s.(processes := s.processes[id := Done], masterKey := oldKey)
  {
  }

  /** An upload during a rotation that then fails: the first key is back, and the new file does not open. */
  lemma FailedRotationLosesUpload(c: Crypto, k1: Bytes, k2: Bytes, data: Bytes, d: Draw)
    requires CryptoOk(c) && Authentic(c.cipher) && k1 != k2
    requires |d.uuid| == UUID_LENGTH && |d.dekIv| == c.ivLength && Seal(c, Some(k2), data, d).Some?
    ensures var s := Run(c, Fresh(Some(k1)), [BeginRotation(9, k2)]
                         + ([Upload(1, data, d), Advance(1), Advance(1)] + ([EndRotation(9, false)] + [])));
      s.masterKey == Some(k1) && d.uuid in s.files && !s.files[d.uuid].isDeleted && Download(c, s, d.uuid) == None
  {
    FreshInv(c, Some(k1));
    BeginKeepsInv(c, Fresh(Some(k1)), 9, k2);
    RotationEndsAfterUpload(c, Apply(c, Fresh(Some(k1)), BeginRotation(9, k2)), k1, data, d);
    RunOne(c, Fresh(Some(k1)), BeginRotation(9, k2),
           [Upload(1, data, d), Advance(1), Advance(1)] + ([EndRotation(9, false)] + []));
  }

  lemma RunOne(c: Crypto, s: State, x: Action, rest: seq<Action>)
    ensures Run(c, s, [x] + rest) == Run(c, Apply(c, s, x), rest)
  {
    assert ([x] + rest)[1..] == rest;
  }

  /** Two rotations, one inside the other, that both fail. */
  lemma OverlapLeavesSecondKey(c: Crypto, s: State, k1: Bytes, k2: Bytes, k3: Bytes)
    requires s.masterKey == Some(k1) && s.processes == map[1 := Done]
    ensures var t := Run(c, s,
        [BeginRotation(8, k2), BeginRotation(9, k3), EndRotation(8, false)] + ([EndRotation(9, false)] + []));
      && t.masterKey == Some(k2) && t.processes == map[1 := Done, 8 := Done, 9 := Done]
      && t.files == s.files && t.blobs == s.blobs
  {
    BegunRotation(c, s, 8, k2);
    var s1 := Apply(c, s, BeginRotation(8, k2));
    BegunRotation(c, s1, 9, k3);
    var s2 := Apply(c, s1, BeginRotation(9, k3));
    RejectedRotation(c, s2, 8, Some(k1));
    var s3 := Apply(c, s2, EndRotation(8, false));
    RejectedRotation(c, s3, 9, Some(k2));
    RunThree(c, s, BeginRotation(8, k2), BeginRotation(9, k3), EndRotation(8, false), [EndRotation(9, false)] + []);
    RunOne(c, s3, EndRotation(9, false), []);
  }

  lemma BegunRotation(c: Crypto, s: State, id: nat, newKey: Bytes)
    requires id !in s.processes
    ensures Apply(c, s, BeginRotation(id, newKey)) ==
      s.(processes := s.processes[id := Rotating(s.masterKey)], masterKey := Some(newKey))
  {
  }

  /** Two rotations that overlap and both fail put back a key nobody keeps: an earlier file is lost. */
  lemma OverlappingRotationsLoseFiles(c: Crypto, k1: Bytes, k2: Bytes, k3: Bytes, data: Bytes, d: Draw)
    requires CryptoOk(c) && Authentic(c.cipher) && k1 != k2
    requires |d.uuid| == UUID_LENGTH && |d.dekIv| == c.ivLength && Seal(c, Some(k1), data, d).Some?
    ensures var s := Run(c, Fresh(Some(k1)), [Upload(1, data, d), Advance(1), Advance(1)]
                         + ([BeginRotation(8, k2), BeginRotation(9, k3), EndRotation(8, false)] +
                           ([EndRotation(9, false)] + [])));
      && s.masterKey == Some(k2) && !RotationOpen(s)
      && d.uuid in s.files && !s.files[d.uuid].isDeleted && Download(c, s, d.uuid) == None
  {
    var s0 := Fresh(Some(k1));
    var rest := [BeginRotation(8, k2), BeginRotation(9, k3), EndRotation(8, false)] + ([EndRotation(9, false)] + []);
    FreshInv(c, Some(k1));
    UploadSteps(c, s0, 1, data, d);
    UploadedInv(c, s0, 1, data, d);
    RunThree(c, s0, Upload(1, data, d), Advance(1), Advance(1), rest);
    var s1 := AfterUpload(c, s0, 1, data, d);
    OverlapLeavesSecondKey(c, s1, k1, k2, k3);
    KeyChangeLoses(c, s1, Run(c, s1, rest), d.uuid);
  }

  /**
   * A rotation that nothing interrupts. Accepted, it puts the new key in place, and rejected, the old
   * one back; afterwards a live file is read exactly when the key in place is the one it was uploaded
   * under, so an accepted rotation to another key loses every file there is.
   */
  lemma RotationDecidesExactly(c: Crypto, s: State, id: nat, newKey: Bytes, accepts: bool, uuid: string)
    requires Inv(c, s) && Authentic(c.cipher) && id !in s.processes
    requires uuid in s.files && !s.files[uuid].isDeleted
    ensures var t := Run(c, s, [BeginRotation(id, newKey)] + ([EndRotation(id, accepts)] + []));
      && uuid in s.origins && t.masterKey == (if accepts then Some(newKey) else s.masterKey)
      && (Download(c, t, uuid) == Some(s.origins[uuid].data) <==> t.masterKey == Some(s.origins[uuid].master))
      && (accepts && newKey != s.origins[uuid].master ==> Download(c, t, uuid).None?)
  {
    var begun := Apply(c, s, BeginRotation(id, newKey));
    BegunRotation(c, s, id, newKey);
    RunOne(c, s, BeginRotation(id, newKey), [EndRotation(id, accepts)] + []);
    RunOne(c, begun, EndRotation(id, accepts), []);
    var t := Apply(c, begun, EndRotation(id, accepts));
    assert FileOk(c, s, uuid);
    if t.masterKey != Some(s.origins[uuid].master) { KeyChangeLoses(c, s, t, uuid); }
  }

  // ---- Cleanup -----------------------------------------------------------------------------

  /** The state before the k-th action. */
  ghost function At(c: Crypto, masterKey: Option<Bytes>, actions: seq<Action>, k: nat): State
    requires k <= |actions|
  {
    Run(c, Fresh(masterKey), actions[..k])
  }

  lemma {:induction false} RunSnoc(c: Crypto, s: State, actions: seq<Action>, a: Action)
    ensures Run(c, s, actions + [a]) == Apply(c, Run(c, s, actions), a)
    decreases |actions|
  {
    var all := actions + [a];
    if actions == [] {
      assert all[1..] == [] && Run(c, Apply(c, s, a), []) == Apply(c, s, a);
    } else {
      assert all[0] == actions[0] && all[1..] == actions[1..] + [a];
      RunSnoc(c, Apply(c, s, actions[0]), actions[1..], a);
    }
  }

  /** The k-th action starts this cleanup job: it reads the clock and makes the find. */
  ghost predicate Begins(c: Crypto, masterKey: Option<Bytes>, actions: seq<Action>, k: nat, id: nat) {
    k < |actions| && actions[k].StartCleanup? && actions[k].id == id && id !in At(c, masterKey, actions, k).processes
  }

  predicate Cleaning(processes: map<nat, Process>, id: nat) {
    id in processes && (processes[id].CleanBlob? || processes[id].CleanDoc?)
  }

  /** A cleanup job keeps the cutoff that it took from the clock when it began. */
  lemma CleaningStep(c: Crypto, s: State, a: Action, id: nat)
    requires var t := Apply(c, s, a); Cleaning(t.processes, id)
    ensures var t := Apply(c, s, a);
      || (Cleaning(s.processes, id) && t.processes[id].cutoff == s.processes[id].cutoff)
      || (id !in s.processes && a.StartCleanup? && a.id == id && t.processes[id].cutoff == a.now - RETENTION_PERIOD_MS)
  {
    match a
    case Advance(j) => if j in s.processes { CleaningAdvance(s, j, id); }
    case _ =>
  }

  lemma CleaningAdvance(s: State, j: nat, id: nat)
    requires j in s.processes && Cleaning(Step(s, j).processes, id)
    ensures Cleaning(s.processes, id) && Step(s, j).processes[id].cutoff == s.processes[id].cutoff
  {
    assert j != id ==> id in s.processes && Step(s, j).processes[id] == s.processes[id];
  }

  lemma {:induction false} JobBegan(c: Crypto, masterKey: Option<Bytes>, actions: seq<Action>, n: nat, id: nat)
    returns (k: nat)
    requires n <= |actions| && Cleaning(At(c, masterKey, actions, n).processes, id)
    ensures k < n && Begins(c, masterKey, actions, k, id)
    ensures At(c, masterKey, actions, n).processes[id].cutoff == actions[k].now - RETENTION_PERIOD_MS
  {
    if n == 0 {
      assert false;
    } else {
      assert actions[..n] == actions[..n - 1] + [actions[n - 1]];
      RunSnoc(c, Fresh(masterKey), actions[..n - 1], actions[n - 1]);
      CleaningStep(c, At(c, masterKey, actions, n - 1), actions[n - 1], id);
      if Cleaning(At(c, masterKey, actions, n - 1).processes, id) {
        k := JobBegan(c, masterKey, actions, n - 1, id);
      } else {
        k := n - 1;
      }
    }
  }

  /**
   * Cleanup removes a blob only on behalf of its own file, and only if that file was first soft-deleted
   * at least thirty days before the clock that the job read when it began, whether or not its document
   * remains.
   */
  lemma CleanupRemovesOnlyOldFiles(c: Crypto, masterKey: Option<Bytes>, actions: seq<Action>, id: nat, uuid: string,
          path: string)
    requires CryptoOk(c) && DrawsOk(c, Fresh(masterKey), actions)
    requires var s := Run(c, Fresh(masterKey), actions);
      id in s.processes && PathOf(uuid, path) && path in s.blobs && path !in Step(s, id).blobs
    ensures var s := Run(c, Fresh(masterKey), actions);
      && s.processes[id].CleanBlob? && uuid in s.deletions
      && (uuid in s.files ==> s.files[uuid].isDeleted)
      && exists k: nat :: Begins(c, masterKey, actions, k, id) && s.deletions[uuid] + 2592000000 <= actions[k].now
  {
    assert actions[..|actions|] == actions;
    var k := JobBegan(c, masterKey, actions, |actions|, id);
    RunKeepsInv(c, Fresh(masterKey), actions);
    var s := Run(c, Fresh(masterKey), actions);
    var p := s.processes[id];
    assert LocalOk(c, s, p);
    assert ItemOk(s, p.todo[0], p.cutoff);
    PathsApart(uuid, p.todo[0].0, path);
  }
}
