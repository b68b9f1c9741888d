/**
 * registerDevice, enrollDevice, renewCertificate and revokeCertificate as concurrent processes. Every step is one
 * database operation (or the reads between two of them); a run is any sequence of actions, so it
 * is any interleaving of any number of requests, any of which may throw at any step.
 */
module RenewalProtocol {
  import opened Common
  import opened TrustStore
  import Serials

  /** Why revokeCertificate runs: an administrator's request, or the middle of a renewal. */
  datatype Caller = Admin(revokedBy: string, reason: string) | Renewal(deviceFingerprint: string)

  /** A request, by the step it is about to take and the local variables it still needs. */
  datatype Process =
    | RegisterCheck(fingerprint: string, userId: string, employeeId: string)
    | RegisterInsert(fingerprint: string, userId: string, employeeId: string)
    | EnrollCheck(fingerprint: string, userId: string, employeeId: string)
    | EnrollInsert(fingerprint: string, userId: string, employeeId: string)
    | ApproveRead(deviceId: string, fingerprint: string, userId: string, employeeId: string)
    | ApproveSave(deviceId: string, fingerprint: string, userId: string, employeeId: string)
    | EnrollSign(deviceId: string, fingerprint: string, userId: string, employeeId: string)
    | RenewLookup(pem: Pem, fingerprint: string)
    | RenewScan(pem: Pem, fingerprint: string)
    | RenewRecords(pem: Pem, fingerprint: string, serial: string, cert: Certificate)
    | RenewTrust(pem: Pem, fingerprint: string, serial: string, cert: Certificate)
    | RevokeRead(serial: string, caller: Caller)
    | RevokeSave(serial: string, cert: Certificate, caller: Caller)
    | RevokeRecord(serial: string, cert: Certificate, caller: Caller)
    | RenewSign(previous: string, cert: Certificate, fingerprint: string)
    | BindStep(deviceId: string, serial: string)
    | Finished

  /** `successions` is a history variable: (old serial, new serial) of every renewal that signed. */
  datatype State = State(db: Db, processes: map<nat, Process>, successions: set<(string, string)>)

  /** What the outside supplies to a step: the clock, a UUID, and the CA's answer. */
  datatype Outside = Outside(now: int, deviceId: string, serial: string, digest: string, validTo: int)

  datatype Action =
    | Start(id: nat, request: Process)
    | Advance(id: nat, outside: Outside)
    | Throw(id: nat)
    | UpdateStatus(deviceId: string, status: DeviceStatus)

  /** The requests that callers make; the request bodies must not have an empty fingerprint. */
  predicate IsRequest(p: Process) {
    || ((p.RegisterCheck? || p.EnrollCheck? || p.RenewLookup?) && p.fingerprint != "")
    || (p.RevokeRead? && p.caller.Admin?)
  }

  /** signAndStoreCertificate up to the insert; the new certificate is bound in a later step. */
  function Issue(db: Db, userId: string, employeeId: string, deviceId: string, fingerprint: string,
          o: Outside): Option<Db>
  {
    InsertCertificate(db, o.serial,
      Certificate(userId, employeeId, deviceId, fingerprint, o.digest, o.validTo, ACTIVE))
  }

  /** registerDevice alone, and enrollDevice after the token check: duplicate check, insert, approve, sign. */
  function NextEnroll(db: Db, p: Process, o: Outside): (Db, Process) {
    match p
    case RegisterCheck(fp, user, emp) =>
      if FingerprintTaken(db, fp) then (db, Finished) else (db, RegisterInsert(fp, user, emp))
    case RegisterInsert(fp, user, emp) =>
      var inserted := InsertDevice(db, o.deviceId, user, emp, fp);
      (if inserted.None? then db else inserted.value, Finished)
    case EnrollCheck(fp, user, emp) =>
      if exists d :: d in db.devices && db.devices[d].fingerprint == fp &&
          (db.devices[d].status == BLOCKED || db.devices[d].status == APPROVED)
      then (db, Finished) else (db, EnrollInsert(fp, user, emp))
    case EnrollInsert(fp, user, emp) =>
      var inserted := InsertDevice(db, o.deviceId, user, emp, fp);
      if inserted.None? then (db, Finished) else (inserted.value, ApproveRead(o.deviceId, fp, user, emp))
    case ApproveRead(d, fp, user, emp) =>
      if d in db.devices && db.devices[d].status == DeviceStatus.PENDING then (db, ApproveSave(d, fp, user, emp))
      else (db, Finished)
    case ApproveSave(d, fp, user, emp) =>
      (SaveDeviceStatus(db, d, APPROVED), EnrollSign(d, fp, user, emp))
    case EnrollSign(d, fp, user, emp) =>
      var issued := Issue(db, user, emp, d, fp, o);
      if issued.None? then (db, Finished) else (issued.value, BindStep(d, o.serial))
    case _ => (db, Finished)
  }

  /** What follows a lookup. */
  function Found(db: Db, found: Option<string>, pem: Pem, fp: string): Process
    requires found.Some? ==> found.value in db.certs
  {
    if found.None? || db.certs[found.value].status == REVOKED then Finished
    else RenewRecords(pem, fp, found.value, db.certs[found.value])
  }

  /** verifyCertificate, read by read, on behalf of a renewal. */
  ghost function NextVerify(db: Db, p: Process, o: Outside): (Db, Process) {
    match p
    case RenewLookup(pem, fp) =>
      if Screen(pem, o.now).Some? then (db, Finished)
      else if pem.info.value.serialNumber in db.certs then (db, Found(db, Some(pem.info.value.serialNumber), pem, fp))
      else (db, RenewScan(pem, fp))
    case RenewScan(pem, fp) =>
      if pem.info.None? then (db, Finished)
      else (db, Found(db, Scan(db, Unrevoked(db), pem.info.value.serialNumber), pem, fp))
    case RenewRecords(pem, fp, serial, cert) =>
      if serial in db.revocations || cert.deviceFingerprint != fp then (db, Finished)
      else (db, RenewTrust(pem, fp, serial, cert))
    case RenewTrust(pem, fp, serial, cert) =>
      if !DeviceTrusted(db, cert.deviceFingerprint) || cert.fingerprint != pem.digest then (db, Finished)
      else (db, RevokeRead(serial, Renewal(fp)))
    case _ => (db, Finished)
  }

  function RecordFor(cert: Certificate, caller: Caller): Revocation {
    if caller.Admin? then
      Revocation(cert.userId, cert.deviceId, if caller.reason == "" then "unspecified" else caller.reason,
                 caller.revokedBy)
    else Revocation(cert.userId, cert.deviceId, "superseded", "system:renewal")
  }

  /** revokeCertificate, and what a renewal does after it; both kinds of signing end in a bind. */
  function NextRevoke(db: Db, p: Process, o: Outside): (Db, Process) {
    match p
    case RevokeRead(serial, caller) =>
      if serial !in db.certs || db.certs[serial].status == REVOKED then (db, Finished)
      else (db, RevokeSave(serial, db.certs[serial], caller))
    case RevokeSave(serial, cert, caller) =>
      (SaveRevoked(db, serial), RevokeRecord(serial, cert, caller))
    case RevokeRecord(serial, cert, caller) =>
      var recorded := InsertRevocation(db, serial, RecordFor(cert, caller));
      if recorded.None? then (db, Finished)
      else (recorded.value, if caller.Admin? then Finished else RenewSign(serial, cert, caller.deviceFingerprint))
    case RenewSign(prev, cert, fp) =>
      var issued := Issue(db, cert.userId, cert.employeeId, cert.deviceId, fp, o);
      if issued.None? then (db, Finished) else (issued.value, BindStep(cert.deviceId, o.serial))
    case BindStep(d, serial) => (Bind(db, d, serial), Finished)
    case _ => (db, Finished)
  }

  /** One step of a process: the new collections and the new local state. */
  ghost function Next(db: Db, p: Process, o: Outside): (Db, Process) {
    if p.RegisterCheck? || p.RegisterInsert? || p.EnrollCheck? || p.EnrollInsert? || p.ApproveRead? || p.ApproveSave?
       || p.EnrollSign?
    then NextEnroll(db, p, o)
    else if p.RenewLookup? || p.RenewScan? || p.RenewRecords? || p.RenewTrust? then NextVerify(db, p, o)
    else NextRevoke(db, p, o)
  }

  ghost function Apply(s: State, a: Action): State {
    match a
    case Start(id, request) =>
      if id in s.processes || !IsRequest(request) then s else s.(processes := s.processes[id := request])
    case Advance(id, o) =>
      if id !in s.processes then s
      else
        var p := s.processes[id];
        var (db, q) := Next(s.db, p, o);
        State(db, s.processes[id := q], if p.RenewSign? && q.BindStep? then s.successions + {(p.previous, q.serial)}
          else s.successions)
    case Throw(id) =>
      if id !in s.processes then s else s.(processes := s.processes[id := Finished])
    case UpdateStatus(d, status) => s.(db := SaveDeviceStatus(s.db, d, status))
  }

  ghost function Run(s: State, actions: seq<Action>): State
    decreases |actions|
  {
    if actions == [] then s else Run(Apply(s, actions[0]), actions[1..])
  }

  const EMPTY := State(Db(map[], map[], map[]), map[], {})

  // ---- The inductive invariant -------------------------------------------------------------

  /** Who may still hold the one certificate slot of a device. */
  datatype Claim = Unrecorded(serial: string) | Pending(id: nat)

  /** The device for which a process is past the point of no return and has yet to sign. */
  function Reserves(p: Process): Option<string> {
    match p
    case ApproveRead(d, _, _, _) => Some(d)
    case ApproveSave(d, _, _, _) => Some(d)
    case EnrollSign(d, _, _, _) => Some(d)
    case RenewSign(_, cert, _) => Some(cert.deviceId)
    case _ => None
  }

  ghost predicate Claims(s: State, c: Claim, deviceId: string) {
    match c
    case Unrecorded(serial) =>
      serial in s.db.certs && serial !in s.db.revocations && s.db.certs[serial].deviceId == deviceId
    case Pending(id) => id in s.processes && Reserves(s.processes[id]) == Some(deviceId)
  }

  ghost predicate DeviceMatches(db: Db, d: string, fp: string, user: string, emp: string) {
    d in db.devices && db.devices[d].fingerprint == fp && db.devices[d].userId == user &&
      db.devices[d].employeeId == emp
  }

  /** The record that a renewal leaves of the certificate it replaces. */
  predicate SupersededBy(db: Db, serial: string) {
    && serial in db.revocations && db.revocations[serial].reason == "superseded"
    && db.revocations[serial].revokedBy == "system:renewal"
  }

  ghost predicate LocalsOk(db: Db, p: Process) {
    match p
    case ApproveRead(d, fp, user, emp) => DeviceMatches(db, d, fp, user, emp)
    case ApproveSave(d, fp, user, emp) => DeviceMatches(db, d, fp, user, emp)
    case EnrollSign(d, fp, user, emp) => DeviceMatches(db, d, fp, user, emp)
    case RenewRecords(_, fp, serial, cert) => SnapshotOf(db, cert, serial)
    case RenewTrust(_, fp, serial, cert) => SnapshotOf(db, cert, serial) && cert.deviceFingerprint == fp
    case RevokeRead(serial, caller) =>
      caller.Renewal? ==> serial in db.certs && db.certs[serial].deviceFingerprint == caller.deviceFingerprint
    case RevokeSave(serial, cert, caller) =>
      SnapshotOf(db, cert, serial) && (caller.Renewal? ==> cert.deviceFingerprint == caller.deviceFingerprint)
    case RevokeRecord(serial, cert, caller) =>
      SnapshotOf(db, cert, serial) && db.certs[serial].status == REVOKED &&
        (caller.Renewal? ==> cert.deviceFingerprint == caller.deviceFingerprint)
    case RenewSign(prev, cert, fp) =>
      SnapshotOf(db, cert, prev) && SupersededBy(db, prev) && cert.deviceFingerprint == fp
    case BindStep(d, serial) => serial in db.certs && db.certs[serial].deviceId == d
    case _ => true
  }

  ghost predicate LineageOk(s: State) {
    && (forall o, n :: (o, n) in s.successions ==>
          SupersededBy(s.db, o) && o in s.db.certs && n in s.db.certs &&
            s.db.certs[n].deviceId == s.db.certs[o].deviceId)
    && (forall o, n1, n2 :: (o, n1) in s.successions && (o, n2) in s.successions ==> n1 == n2)
    && (forall o1, o2, n :: (o1, n) in s.successions && (o2, n) in s.successions ==> o1 == o2)
    && (forall id, n :: id in s.processes && s.processes[id].RenewSign? ==>
        (s.processes[id].previous, n) !in s.successions)
  }

  ghost predicate Exclusive(s: State) {
    forall c1, c2, d :: Claims(s, c1, d) && Claims(s, c2, d) ==> c1 == c2
  }

  ghost predicate Inv(s: State) {
    && Sound(s.db)
    && (forall id :: id in s.processes ==> LocalsOk(s.db, s.processes[id]))
    && Exclusive(s)
    && LineageOk(s)
  }

  // ---- Every action keeps it ---------------------------------------------------------------

  lemma LocalsStable(a: Db, b: Db, p: Process)
    requires Grows(a, b) && LocalsOk(a, p)
    ensures LocalsOk(b, p)
  {
  }

  ghost predicate StepOk(db: Db, after: (Db, Process)) {
    Sound(after.0) && Grows(db, after.0) && LocalsOk(after.0, after.1)
  }

  lemma EnrollSignOk(db: Db, p: Process, o: Outside)
    requires Sound(db) && LocalsOk(db, p) && p.EnrollSign?
    ensures StepOk(db, NextEnroll(db, p, o))
  {
    InsertCertificateSound(db, o.serial,
                           Certificate(p.userId, p.employeeId, p.deviceId, p.fingerprint, o.digest, o.validTo, ACTIVE));
  }

  lemma EnrollDeviceOk(db: Db, p: Process, o: Outside)
    requires Sound(db) && LocalsOk(db, p) && (p.RegisterInsert? || p.EnrollInsert? || p.ApproveSave?)
    ensures StepOk(db, NextEnroll(db, p, o))
  {
    if p.RegisterInsert? || p.EnrollInsert? {
      InsertDeviceSound(db, o.deviceId, p.userId, p.employeeId, p.fingerprint);
    }
    else { SaveDeviceStatusSound(db, p.deviceId, APPROVED); }
  }

  lemma NextEnrollOk(db: Db, p: Process, o: Outside)
    requires Sound(db) && LocalsOk(db, p)
    ensures StepOk(db, NextEnroll(db, p, o))
  {
    if p.RegisterInsert? || p.EnrollInsert? || p.ApproveSave? { EnrollDeviceOk(db, p, o); }
    else if p.EnrollSign? { EnrollSignOk(db, p, o); }
  }

  lemma RenewSignOk(db: Db, p: Process, o: Outside)
    requires Sound(db) && LocalsOk(db, p) && p.RenewSign?
    ensures StepOk(db, NextRevoke(db, p, o))
  {
    var cert := p.cert;
    assert OwnedByDevice(db, db.certs[p.previous]);
    InsertCertificateSound(db, o.serial, Certificate(cert.userId, cert.employeeId, cert.deviceId, p.fingerprint,
                                                     o.digest, o.validTo, ACTIVE));
  }

  lemma BindOk(db: Db, p: Process, o: Outside)
    requires Sound(db) && LocalsOk(db, p) && p.BindStep?
    ensures StepOk(db, NextRevoke(db, p, o))
  {
    assert OwnedByDevice(db, db.certs[p.serial]);
    DeviceFieldsSound(db, p.deviceId, db.devices[p.deviceId].(certificateSerial := Some(p.serial)));
  }

  lemma RevokeOk(db: Db, p: Process, o: Outside)
    requires Sound(db) && LocalsOk(db, p) && (p.RevokeSave? || p.RevokeRecord?)
    ensures StepOk(db, NextRevoke(db, p, o))
  {
    if p.RevokeSave? { SaveRevokedSound(db, p.serial); }
    else { InsertRevocationSound(db, p.serial, RecordFor(p.cert, p.caller)); }
  }

  lemma NextRevokeOk(db: Db, p: Process, o: Outside)
    requires Sound(db) && LocalsOk(db, p)
    ensures StepOk(db, NextRevoke(db, p, o))
  {
    match p
    case RevokeSave(_, _, _) => RevokeOk(db, p, o);
    case RevokeRecord(_, _, _) => RevokeOk(db, p, o);
    case RenewSign(_, _, _) => RenewSignOk(db, p, o);
    case BindStep(_, _) => BindOk(db, p, o);
    case _ =>
  }

  /** One step keeps the collections sound and leaves the process with correct locals. */
  lemma NextOk(db: Db, p: Process, o: Outside)
    requires Sound(db) && LocalsOk(db, p)
    ensures StepOk(db, Next(db, p, o))
  {
    NextEnrollOk(db, p, o);
    NextRevokeOk(db, p, o);
  }

  /**
   * The slot argument. A claim that is new after a step belongs to the stepping process or to the
   * certificate it just signed, and it replaces a claim on the same device or is on a new device.
   */
  lemma StepExclusive(s: State, id: nat, o: Outside)
    requires Inv(s) && id in s.processes
    ensures Exclusive(Apply(s, Advance(id, o)))
  {
    var p := s.processes[id];
    var s' := Apply(s, Advance(id, o));
    NextOk(s.db, p, o);
    forall c1, c2, d | Claims(s', c1, d) && Claims(s', c2, d) ensures c1 == c2 {
      if RegistersDevice(s, id, o, d) {
        NoClaimOnNewDevice(s, d);
        assert forall c :: Claims(s', c, d) && c != Pending(id) ==> Claims(s, c, d);
      } else {
        BeforeClaims(s, id, o, c1, d);
        BeforeClaims(s, id, o, c2, d);
        BeforeInjective(s, id, o, c1, c2, d);
      }
    }
  }

  lemma NoClaimOnNewDevice(s: State, d: string)
    requires Inv(s) && d !in s.db.devices
    ensures forall c :: !Claims(s, c, d)
  {
    forall c ensures !Claims(s, c, d) {
      match c
      case Unrecorded(serial) =>
        if serial in s.db.certs { assert OwnedByDevice(s.db, s.db.certs[serial]); }
      case Pending(i) =>
        if i in s.processes && s.processes[i].RenewSign? {
          assert LocalsOk(s.db, s.processes[i]);
          assert OwnedByDevice(s.db, s.db.certs[s.processes[i].previous]);
        }
    }
  }

  /** The claim that a claim held after a step came from. */
  function Before(s: State, id: nat, o: Outside, c: Claim): Claim
    requires id in s.processes
  {
    var p := s.processes[id];
    if p.RevokeRecord? && c == Pending(id) then Unrecorded(p.serial)
    else if (p.EnrollSign? || p.RenewSign?) && c == Unrecorded(o.serial) && o.serial !in s.db.certs then Pending(id)
    else c
  }

  ghost predicate RegistersDevice(s: State, id: nat, o: Outside, d: string)
    requires id in s.processes
  {
    s.processes[id].EnrollInsert? && Apply(s, Advance(id, o)).processes[id].ApproveRead? && d == o.deviceId
  }

  lemma BeforeClaims(s: State, id: nat, o: Outside, c: Claim, d: string)
    requires id in s.processes && LocalsOk(s.db, s.processes[id])
    requires Claims(Apply(s, Advance(id, o)), c, d) && !RegistersDevice(s, id, o, d)
    ensures Claims(s, Before(s, id, o, c), d)
  {
  }

  lemma BeforeInjective(s: State, id: nat, o: Outside, c1: Claim, c2: Claim, d: string)
    requires id in s.processes && LocalsOk(s.db, s.processes[id])
    requires Claims(Apply(s, Advance(id, o)), c1, d) && Claims(Apply(s, Advance(id, o)), c2, d)
    requires Before(s, id, o, c1) == Before(s, id, o, c2)
    ensures c1 == c2
  {
  }

  /** Nobody else is about to sign for the serial that a renewal is about to replace. */
  lemma OnlySigner(s: State, id: nat, j: nat)
    requires Inv(s) && id in s.processes && j in s.processes
    requires s.processes[id].RenewSign? && s.processes[j].RenewSign?
    requires s.processes[id].previous == s.processes[j].previous
    ensures id == j
  {
    assert LocalsOk(s.db, s.processes[id]) && LocalsOk(s.db, s.processes[j]);
    var d := s.processes[id].cert.deviceId;
    assert Claims(s, Pending(j), d) && Claims(s, Pending(id), d);
  }

  /** A renewal signs: the one new pair is fresh on both sides. */
  lemma SignLineage(s: State, id: nat, o: Outside)
    requires Inv(s) && id in s.processes && s.processes[id].RenewSign?
    requires Apply(s, Advance(id, o)).processes[id].BindStep?
    ensures LineageOk(Apply(s, Advance(id, o)))
  {
    var p := s.processes[id];
    assert LocalsOk(s.db, p);
    var s' := Apply(s, Advance(id, o));
    forall j | j in s'.processes && s'.processes[j].RenewSign? ensures s'.processes[j].previous != p.previous {
      if s'.processes[j].previous == p.previous { OnlySigner(s, id, j); }
    }
  }

  /** A process becomes a signer by recording a revocation that was not there. */
  lemma NewSigner(db: Db, p: Process, o: Outside)
    ensures Next(db, p, o).1.RenewSign? ==> p.RevokeRecord? && Next(db, p, o).1.previous !in db.revocations
  {
  }

  lemma StepLineage(s: State, id: nat, o: Outside)
    requires Inv(s) && id in s.processes
    requires Grows(s.db, Apply(s, Advance(id, o)).db)
    ensures LineageOk(Apply(s, Advance(id, o)))
  {
    var p := s.processes[id];
    var s' := Apply(s, Advance(id, o));
    if p.RenewSign? && s'.processes[id].BindStep? {
      SignLineage(s, id, o);
    } else {
      NewSigner(s.db, p, o);
      assert s'.processes == s.processes[id := Next(s.db, p, o).1] && s'.successions == s.successions;
      LineageFrame(s, s', id);
    }
  }

  /** Any other step leaves the pairs alone, and a process that becomes a signer has just recorded. */
  lemma LineageFrame(s: State, s': State, id: nat)
    requires LineageOk(s) && Grows(s.db, s'.db) && s'.successions == s.successions
    requires id in s.processes && forall j :: j in s'.processes && j != id ==>
      j in s.processes && s'.processes[j] == s.processes[j]
    requires id in s'.processes && s'.processes[id].RenewSign? && s'.processes[id] != s.processes[id] ==>
      s'.processes[id].previous !in s.db.revocations
    ensures LineageOk(s')
  {
  }

  lemma ClaimsFrame(s: State, s': State)
    requires Exclusive(s) && s'.db.certs == s.db.certs && s'.db.revocations == s.db.revocations
    requires forall j :: j in s'.processes && Reserves(s'.processes[j]).Some? ==>
      j in s.processes && s'.processes[j] == s.processes[j]
    ensures Exclusive(s')
  {
    forall c, d | Claims(s', c, d) ensures Claims(s, c, d) { }
  }

  lemma LocalsFrame(s: State, s': State, id: nat)
    requires Inv(s) && Grows(s.db, s'.db)
    requires forall j :: j in s'.processes && j != id ==> j in s.processes && s'.processes[j] == s.processes[j]
    ensures forall j :: j in s'.processes && j != id ==> LocalsOk(s'.db, s'.processes[j])
  {
  }

  lemma AdvanceKeepsInv(s: State, id: nat, o: Outside)
    requires Inv(s) && id in s.processes
    ensures Inv(Apply(s, Advance(id, o))) && Grows(s.db, Apply(s, Advance(id, o)).db)
  {
    NextOk(s.db, s.processes[id], o);
    LocalsFrame(s, Apply(s, Advance(id, o)), id);
    StepExclusive(s, id, o);
    StepLineage(s, id, o);
  }

  /** Starting or ending a request puts in a process that holds and knows nothing. */
  lemma ReplaceKeepsInv(s: State, id: nat, p: Process)
    requires Inv(s) && (p == Finished || IsRequest(p))
    ensures Inv(s.(processes := s.processes[id := p]))
  {
    ClaimsFrame(s, s.(processes := s.processes[id := p]));
  }

  lemma ApplyKeepsInv(s: State, a: Action)
    requires Inv(s)
    ensures Inv(Apply(s, a)) && Grows(s.db, Apply(s, a).db)
  {
    match a
    case Start(id, request) => if id !in s.processes && IsRequest(request) { ReplaceKeepsInv(s, id, request); }
    case Advance(id, o) => if id in s.processes { AdvanceKeepsInv(s, id, o); }
    case Throw(id) => if id in s.processes { ReplaceKeepsInv(s, id, Finished); }
    case UpdateStatus(d, status) => UpdateStatusKeepsInv(s, d, status);
  }

  lemma UpdateStatusKeepsInv(s: State, d: string, status: DeviceStatus)
    requires Inv(s)
    ensures Inv(s.(db := SaveDeviceStatus(s.db, d, status))) && Grows(s.db, SaveDeviceStatus(s.db, d, status))
  {
    var s' := s.(db := SaveDeviceStatus(s.db, d, status));
    SaveDeviceStatusSound(s.db, d, status);
    forall j | j in s'.processes ensures LocalsOk(s'.db, s'.processes[j]) {
      LocalsStable(s.db, s'.db, s.processes[j]);
    }
    ClaimsFrame(s, s');
  }

  lemma GrowsTransitive(a: Db, b: Db, c: Db)
    requires Grows(a, b) && Grows(b, c)
    ensures Grows(a, c)
  {
  }

  lemma {:induction false} RunKeepsInv(s: State, actions: seq<Action>)
    requires Inv(s)
    ensures Inv(Run(s, actions)) && Grows(s.db, Run(s, actions).db)
    decreases |actions|
  {
    if actions != [] {
      ApplyKeepsInv(s, actions[0]);
      var next := Apply(s, actions[0]);
      RunKeepsInv(next, actions[1..]);
      GrowsTransitive(s.db, next.db, Run(next, actions[1..]).db);
    }
  }

  // ---- What every reachable state satisfies ------------------------------------------------

  lemma EmptyInv()
    ensures Inv(EMPTY)
  {
  }

  /**
   * Under every interleaving: the certificates of a device without a revocation record, plus the
   * renewals past the record step, plus the enrollments not yet signed, are at most one; so at most
   * one certificate of the device is not REVOKED.
   */
  lemma AtMostOneCertificate(actions: seq<Action>, deviceId: string)
    ensures var s := Run(EMPTY, actions);
      var unrecorded := set c | c in s.db.certs && c !in s.db.revocations && s.db.certs[c].deviceId == deviceId;
      var pending := set id | id in s.processes && Reserves(s.processes[id]) == Some(deviceId);
      && |unrecorded| + |pending| <= 1
      && (set c | c in s.db.certs && s.db.certs[c].status != REVOKED &&
          s.db.certs[c].deviceId == deviceId) <= unrecorded
  {
    EmptyInv();
    RunKeepsInv(EMPTY, actions);
    var s := Run(EMPTY, actions);
    var unrecorded := set c | c in s.db.certs && c !in s.db.revocations && s.db.certs[c].deviceId == deviceId;
    var pending := set id | id in s.processes && Reserves(s.processes[id]) == Some(deviceId);
    forall x, y | x in unrecorded && y in unrecorded ensures x == y {
      assert Claims(s, Unrecorded(x), deviceId) && Claims(s, Unrecorded(y), deviceId);
    }
    forall x, y | x in pending && y in pending ensures x == y {
      assert Claims(s, Pending(x), deviceId) && Claims(s, Pending(y), deviceId);
    }
    AtMostOneElement(unrecorded);
    AtMostOneElement(pending);
    if unrecorded != {} {
      var c :| c in unrecorded;
      forall id ensures id !in pending {
        assert Claims(s, Unrecorded(c), deviceId) && (id in pending ==> Claims(s, Pending(id), deviceId));
      }
    }
  }

  /** However many renewals race for one serial, one succeeds, and successions form chains. */
  lemma AtMostOneSuccessor(actions: seq<Action>)
    ensures var s := Run(EMPTY, actions);
      && (forall o, n1, n2 :: (o, n1) in s.successions && (o, n2) in s.successions ==> n1 == n2)
      && (forall o1, o2, n :: (o1, n) in s.successions && (o2, n) in s.successions ==> o1 == o2)
      && (forall o, n :: (o, n) in s.successions ==> (
            && o in s.db.revocations && o in s.db.certs && n in s.db.certs
            && s.db.revocations[o].reason == "superseded" && s.db.revocations[o].revokedBy == "system:renewal"
            && s.db.certs[o].status == REVOKED && s.db.certs[o].deviceId == s.db.certs[n].deviceId))
  {
    EmptyInv();
    RunKeepsInv(EMPTY, actions);
  }

  /** A certificate once revoked, on either count, stays so and no answer accepts it again. */
  lemma RevocationIsFinal(before: seq<Action>, after: seq<Action>, serial: string, pem: Pem, fp: string, now: int,
          v: Verdict)
    requires var s := Run(EMPTY, before);
      serial in s.db.certs && (s.db.certs[serial].status == REVOKED || serial in s.db.revocations)
    ensures var db := Run(Run(EMPTY, before), after).db;
      && serial in db.certs && db.certs[serial].status == REVOKED
      && (MayAnswer(db, pem, fp, now, v) && v.Valid? ==> v.serialNumber != serial)
  {
    EmptyInv();
    RunKeepsInv(EMPTY, before);
    RunKeepsInv(Run(EMPTY, before), after);
    var s := Run(EMPTY, before);
    var db := Run(s, after).db;
    assert SnapshotOf(db, s.db.certs[serial], serial);
    if MayAnswer(db, pem, fp, now, v) && v.Valid? { ValidOnlyWhenTrustworthy(db, pem, fp, now, v); }
  }

  /** At any moment of any run, the certificates accepted for one device are one certificate. */
  lemma OneAcceptedCertificate(actions: seq<Action>, p1: Pem, p2: Pem, f1: string, f2: string, t1: int, t2: int,
          v1: Verdict, v2: Verdict)
    requires var db := Run(EMPTY, actions).db; MayAnswer(db, p1, f1, t1, v1) && MayAnswer(db, p2, f2, t2, v2)
    requires v1.Valid? && v2.Valid? && v1.deviceId == v2.deviceId
    ensures v1 == v2 && p1.digest == p2.digest
  {
    EmptyInv();
    RunKeepsInv(EMPTY, actions);
    var s := Run(EMPTY, actions);
    ValidOnlyWhenTrustworthy(s.db, p1, f1, t1, v1);
    ValidOnlyWhenTrustworthy(s.db, p2, f2, t2, v2);
    assert Claims(s, Unrecorded(v1.serialNumber), v1.deviceId) && Claims(s, Unrecorded(v2.serialNumber), v1.deviceId);
  }

  /**
   * Verification over whole runs: whatever interleaving led here, and whatever serials the CA gave
   * out, `valid` is answered only for a certificate with neither mark of revocation, whose bytes hash
   * to the stored fingerprint, on a device that is APPROVED at this moment and that the answer names
   * together with its owner.
   */
  lemma ReachableValidIsTrustworthy(actions: seq<Action>, pem: Pem, fp: string, now: int, v: Verdict)
    requires MayAnswer(Run(EMPTY, actions).db, pem, fp, now, v) && v.Valid?
    ensures var db := Run(EMPTY, actions).db;
      && Trustworthy(db, v.serialNumber, pem, fp, now)
      && v.deviceId in db.devices && db.devices[v.deviceId].status == APPROVED
      && db.devices[v.deviceId].userId == v.userId && db.devices[v.deviceId].employeeId == v.employeeId
  {
    EmptyInv();
    RunKeepsInv(EMPTY, actions);
    ValidOnlyWhenTrustworthy(Run(EMPTY, actions).db, pem, fp, now, v);
  }

  // ---- Serial numbers, given what a CA promises --------------------------------------------

  /** The CA never issues a number again, in any spelling (section 4.1.2.2 of RFC 5280). */
  ghost predicate CaContract(s: State, actions: seq<Action>)
    decreases |actions|
  {
    actions == [] ||
    ((actions[0].Advance? && actions[0].id in s.processes &&
      (s.processes[actions[0].id].EnrollSign? || s.processes[actions[0].id].RenewSign?) ==>
        forall c :: c in s.db.certs ==> Serials.Normalize(c) != Serials.Normalize(actions[0].outside.serial)) &&
     CaContract(Apply(s, actions[0]), actions[1..]))
  }

  lemma {:induction false} RunKeepsDistinctSerials(s: State, actions: seq<Action>)
    requires DistinctSerials(s.db) && CaContract(s, actions)
    ensures DistinctSerials(Run(s, actions).db)
    decreases |actions|
  {
    if actions != [] {
      RunKeepsDistinctSerials(Apply(s, actions[0]), actions[1..]);
    }
  }

  /** And given the CA's promise, it is answered for every one of them. */
  lemma ReachableVerification(actions: seq<Action>, serial: string, pem: Pem, fp: string, now: int, v: Verdict)
    requires CaContract(EMPTY, actions) && MayAnswer(Run(EMPTY, actions).db, pem, fp, now, v)
    ensures Trustworthy(Run(EMPTY, actions).db, serial, pem, fp, now) <==> v.Valid? && v.serialNumber == serial
  {
    EmptyInv();
    RunKeepsInv(EMPTY, actions);
    RunKeepsDistinctSerials(EMPTY, actions);
    var db := Run(EMPTY, actions).db;
    VerifyMayAnswer(db, pem, fp, now, v);
    ValidExactlyWhenTrustworthy(db, serial, pem, fp, now);
  }
}
