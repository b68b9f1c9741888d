/**
 * The setup service as one object: enrollment tokens, enrollment, renewal and revocation, one call
 * at a time, with a call allowed to throw at each of its writes.
 */
module SetupService {
  import opened Common
  import opened TrustStore
  import opened RenewalProtocol
  import Serials

  datatype EnrollmentToken = EnrollmentToken(
    userId: string, employeeId: string, expiresAt: int,
    isUsed: bool, maxDevices: nat, usedCount: nat)

  /** Where a call throws: the awaited write that fails. */
  datatype Fault = NoFault | InsertFault | ApproveFault | StatusFault | RecordFault | SignFault | BindFault
    | ConsumeFault

  datatype Refusal =
    | UserNotFound | TokenRejected(why: TokenReason) | BadCsr | DeviceBlocked | AlreadyEnrolled | FingerprintConflict
    | CertificateRejected(reason: Reason) | CertificateNotFound | AlreadyRevoked
    | Thrown(at: Fault)

  /** Why verifyToken refuses. */
  datatype TokenReason = Unknown | Expired | Consumed | OtherEmployee | InactiveUser

  /** The checks of verifyToken together. Expiry is strict, and a token is spent only when both marks say so. */
  predicate TokenAccepts(tokens: map<string, EnrollmentToken>, users: map<string, bool>, token: string,
          employeeId: string, now: int)
  {
    && token in tokens
    && var record := tokens[token];
       && now <= record.expiresAt
       && !(record.isUsed && record.usedCount >= record.maxDevices)
       && record.employeeId == employeeId
       && record.userId in users && users[record.userId]
  }

  /** What a completed enrollment adds: an APPROVED device bound to one ACTIVE certificate. */
  function Enrolled(db: Db, user: string, emp: string, fp: string, o: Outside): Db {
    db.(devices := db.devices[o.deviceId := Device(user, emp, fp, APPROVED, Some(o.serial))],
        certs := db.certs[o.serial := Certificate(user, emp, o.deviceId, fp, o.digest, o.validTo, ACTIVE)])
  }

  /** What an enrollment leaves, complete or thrown. */
  function EnrollmentLeaves(db: Db, user: string, emp: string, fp: string, o: Outside, at: Fault): Db {
    match at
    case ApproveFault => Added(db, o.deviceId, Device(user, emp, fp, DeviceStatus.PENDING, None))
    case SignFault => Added(db, o.deviceId, Device(user, emp, fp, APPROVED, None))
    case BindFault =>
      Enrolled(db, user, emp, fp, o).(devices := db.devices[o.deviceId := Device(user, emp, fp, APPROVED, None)])
    case ConsumeFault => Enrolled(db, user, emp, fp, o)
    case NoFault => Enrolled(db, user, emp, fp, o)
    case _ => db
  }

  /** The old certificate revoked on both counts. */
  function Superseded(db: Db, serial: string, record: Revocation): Db
    requires serial in db.certs
  {
    db.(certs := db.certs[serial := db.certs[serial].(status := REVOKED)],
        revocations := db.revocations[serial := record])
  }

  /** What a completed renewal leaves: the old certificate superseded, its successor bound. */
  function Renewed(db: Db, serial: string, fp: string, o: Outside): Db
    requires serial in db.certs && db.certs[serial].deviceId in db.devices
  {
    var cert := db.certs[serial];
    var after := Superseded(db, serial, RecordFor(cert, Renewal(fp)));
    var issued := Certificate(cert.userId, cert.employeeId, cert.deviceId, fp, o.digest, o.validTo, ACTIVE);
    after.(certs := after.certs[o.serial := issued],
           devices := db.devices[cert.deviceId := db.devices[cert.deviceId].(certificateSerial := Some(o.serial))])
  }

  function RenewLeftover(db: Db, serial: string, fp: string, o: Outside, at: Fault): Db
    requires serial in db.certs && db.certs[serial].deviceId in db.devices
  {
    match at
    case RecordFault => SaveRevoked(db, serial)
    case SignFault => Superseded(db, serial, RecordFor(db.certs[serial], Renewal(fp)))
    case BindFault => Renewed(db, serial, fp, o).(devices := db.devices)
    case _ => db
  }

  /** A renewal's writes one by one: the status, the record, the successor, the binding. */
  lemma RenewalWrites(db: Db, serial: string, fp: string, o: Outside, at: Fault)
    requires serial in db.certs && db.certs[serial].deviceId in db.devices
    requires at in {NoFault, StatusFault, RecordFault, SignFault, BindFault}
    ensures var now := if at == NoFault then Renewed(db, serial, fp, o) else RenewLeftover(db, serial, fp, o, at);
      var cert := db.certs[serial];
      var revoked := db.certs[serial := cert.(status := REVOKED)];
      && now.certs == (
           if at == StatusFault then db.certs
           else if at in {RecordFault, SignFault} then revoked
           else revoked[o.serial :=
             Certificate(cert.userId, cert.employeeId, cert.deviceId, fp, o.digest, o.validTo, ACTIVE)])
      && now.revocations == (
           if at in {StatusFault, RecordFault} then db.revocations
           else db.revocations[serial := Revocation(cert.userId, cert.deviceId, "superseded", "system:renewal")])
      && now.devices == (
           if at != NoFault then db.devices
           else db.devices[cert.deviceId := db.devices[cert.deviceId].(certificateSerial := Some(o.serial))])
  {
  }

  /** An enrollment's writes one by one: the device, its approval, the certificate, the binding. */
  lemma EnrollmentWrites(db: Db, user: string, emp: string, fp: string, o: Outside, at: Fault)
    requires at in {NoFault, InsertFault, ApproveFault, SignFault, BindFault, ConsumeFault}
    ensures var now := EnrollmentLeaves(db, user, emp, fp, o, at);
      && now.revocations == db.revocations
      && now.devices == (
           if at == InsertFault then db.devices
           else db.devices[o.deviceId :=
             Device(user, emp, fp, if at == ApproveFault then DeviceStatus.PENDING else APPROVED,
                    if at in {NoFault, ConsumeFault} then Some(o.serial) else None)])
      && now.certs == (
           if at in {InsertFault, ApproveFault, SignFault} then db.certs
           else db.certs[o.serial := Certificate(user, emp, o.deviceId, fp, o.digest, o.validTo, ACTIVE)])
  {
  }

  /** A device of this status has the fingerprint. */
  ghost predicate Held(db: Db, fingerprint: string, status: DeviceStatus) {
    exists d :: d in db.devices && db.devices[d].fingerprint == fingerprint && db.devices[d].status == status
  }

  /** When an enrollment is refused for this reason, before it writes anything. */
  ghost predicate Refuses(db: Db, tokens: map<string, EnrollmentToken>, completed: map<string, nat>,
          users: map<string, bool>, token: string, employeeId: string, csrValid: bool, fingerprint: string,
          now: int, why: Refusal)
    requires tokens.Keys == completed.Keys
  {
    var accepted := token in tokens && now <= tokens[token].expiresAt && completed[token] < tokens[token].maxDevices &&
      tokens[token].employeeId == employeeId && tokens[token].userId in users && users[tokens[token].userId];
    match why
    case TokenRejected(_) => !accepted
    case BadCsr => accepted && !csrValid
    case DeviceBlocked => accepted && csrValid && Held(db, fingerprint, BLOCKED)
    case AlreadyEnrolled => accepted && csrValid && Held(db, fingerprint, APPROVED)
    case FingerprintConflict =>
      && accepted && csrValid && FingerprintTaken(db, fingerprint)
      && !Held(db, fingerprint, BLOCKED) && !Held(db, fingerprint, APPROVED)
    case _ => false
  }

  /** The save that consumes a token: the loaded count plus one; `isUsed` is only ever set. */
  function SaveUse(stored: EnrollmentToken, loaded: nat): EnrollmentToken {
    stored.(usedCount := loaded + 1, isUsed := stored.isUsed || loaded + 1 >= stored.maxDevices)
  }

  /** Between calls no device has two certificates without a revocation record. */
  ghost predicate OnePerDevice(db: Db) {
    forall c1, c2 ::
      (c1 in db.certs && c2 in db.certs && c1 !in db.revocations && c2 !in db.revocations
       && db.certs[c1].deviceId == db.certs[c2].deviceId) ==> c1 == c2
  }

  /** The CA's promise for one signing: a number not stored in any spelling. */
  ghost predicate FreshSerial(db: Db, serial: string) {
    forall c :: c in db.certs ==> Serials.Normalize(c) != Serials.Normalize(serial)
  }

  ghost predicate DbOk(db: Db) {
    Sound(db) && OnePerDevice(db)
  }

  /** If the CA's serial is new in every spelling, distinct serials stay distinct. */
  ghost predicate StaysDistinct(db: Db, after: Db, serial: string) {
    DistinctSerials(db) && FreshSerial(db, serial) ==> DistinctSerials(after)
  }

  lemma DistinctStays(db: Db, after: Db, serial: string)
    requires after.certs.Keys <= db.certs.Keys + {serial}
    ensures StaysDistinct(db, after, serial)
  {
  }

  ghost predicate TokensOk(tokens: map<string, EnrollmentToken>, completed: map<string, nat>) {
    && tokens.Keys == completed.Keys
    && forall t :: t in tokens ==> (
         && 1 <= tokens[t].maxDevices
         && tokens[t].usedCount == completed[t] <= tokens[t].maxDevices
         && (tokens[t].isUsed <==> tokens[t].usedCount >= tokens[t].maxDevices))
  }

  lemma UseKeepsTokensOk(tokens: map<string, EnrollmentToken>, completed: map<string, nat>, token: string)
    requires TokensOk(tokens, completed) && token in tokens
    requires !(tokens[token].isUsed && tokens[token].usedCount >= tokens[token].maxDevices)
    ensures TokensOk(tokens[token := SaveUse(tokens[token], tokens[token].usedCount)],
        completed[token := completed[token] + 1])
  {
  }

  /**
   * A stored token is accepted exactly in time, with enrollments left, from its own employee, while
   * its user is an active account.
   */
  lemma AcceptedExactly(tokens: map<string, EnrollmentToken>, completed: map<string, nat>, users: map<string, bool>,
          token: string, employeeId: string, now: int)
    requires TokensOk(tokens, completed) && token in tokens
    ensures !TokenAccepts(tokens, users, token, employeeId, now) <==>
      || now > tokens[token].expiresAt || completed[token] == tokens[token].maxDevices
      || tokens[token].employeeId != employeeId
      || tokens[token].userId !in users || !users[tokens[token].userId]
  {
  }

  /** The device exists, matches the request, and has no certificate without a revocation record. */
  ghost predicate AwaitsCertificate(db: Db, deviceId: string, user: string, emp: string, fp: string) {
    && deviceId in db.devices && SameDevice(db.devices[deviceId], Device(user, emp, fp, DeviceStatus.PENDING, None))
    && forall c :: c in db.certs && db.certs[c].deviceId == deviceId ==> c in db.revocations
  }

  function Added(db: Db, deviceId: string, device: Device): Db {
    db.(devices := db.devices[deviceId := device])
  }

  function Signed(db: Db, user: string, emp: string, d: string, fp: string, o: Outside): Db {
    db.(certs := db.certs[o.serial := Certificate(user, emp, d, fp, o.digest, o.validTo, ACTIVE)])
  }

  // ---- What each write keeps ---------------------------------------------------------------

  lemma AddedOk(db: Db, d: string, user: string, emp: string, fp: string)
    requires DbOk(db) && d !in db.devices && !FingerprintTaken(db, fp)
    ensures var added := Added(db, d, Device(user, emp, fp, DeviceStatus.PENDING, None));
      DbOk(added) && AwaitsCertificate(added, d, user, emp, fp)
  {
    InsertDeviceSound(db, d, user, emp, fp);
    forall c | c in db.certs ensures db.certs[c].deviceId != d { assert OwnedByDevice(db, db.certs[c]); }
  }

  lemma StatusOk(db: Db, d: string, status: DeviceStatus)
    requires DbOk(db)
    ensures DbOk(SaveDeviceStatus(db, d, status))
  {
    SaveDeviceStatusSound(db, d, status);
  }

  lemma SignedOk(db: Db, user: string, emp: string, d: string, fp: string, o: Outside)
    requires DbOk(db) && o.serial !in db.certs && AwaitsCertificate(db, d, user, emp, fp)
    ensures DbOk(Signed(db, user, emp, d, fp, o)) && DbOk(Bind(Signed(db, user, emp, d, fp, o), d, o.serial))
  {
    InsertCertificateSound(db, o.serial, Certificate(user, emp, d, fp, o.digest, o.validTo, ACTIVE));
    var signed := Signed(db, user, emp, d, fp, o);
    DeviceFieldsSound(signed, d, signed.devices[d].(certificateSerial := Some(o.serial)));
  }

  lemma RevokedOk(db: Db, serial: string, record: Revocation)
    requires DbOk(db) && serial in db.certs && db.certs[serial].status != REVOKED
    ensures serial !in db.revocations && DbOk(SaveRevoked(db, serial)) && DbOk(Superseded(db, serial, record))
  {
    SaveRevokedSound(db, serial);
    InsertRevocationSound(SaveRevoked(db, serial), serial, record);
  }

  lemma ApprovedOk(db: Db, d: string, user: string, emp: string, fp: string)
    requires DbOk(db) && d !in db.devices && !FingerprintTaken(db, fp)
    ensures var approved := Added(db, d, Device(user, emp, fp, APPROVED, None));
      DbOk(approved) && AwaitsCertificate(approved, d, user, emp, fp)
  {
    AddedOk(db, d, user, emp, fp);
    var pending, approved := Added(db, d, Device(user, emp, fp, DeviceStatus.PENDING, None)),
      Added(db, d, Device(user, emp, fp, APPROVED, None));
    StatusOk(pending, d, APPROVED);
    assert approved == SaveDeviceStatus(pending, d, APPROVED);
    forall c | c in approved.certs && approved.certs[c].deviceId == d
      ensures c in approved.revocations
    {
      assert c in pending.certs;
    }
  }

  /** Wherever an enrollment stops, before or after its last write to these collections, they stay in order. */
  lemma EnrollmentKeepsDbOk(db: Db, user: string, emp: string, fp: string, o: Outside, at: Fault)
    requires DbOk(db) && o.deviceId !in db.devices && !FingerprintTaken(db, fp)
    requires at in {BindFault, ConsumeFault, NoFault} ==> o.serial !in db.certs
    ensures DbOk(EnrollmentLeaves(db, user, emp, fp, o, at))
  {
    match at
    case ApproveFault => AddedOk(db, o.deviceId, user, emp, fp);
    case SignFault => ApprovedOk(db, o.deviceId, user, emp, fp);
    case BindFault => EnrolledOk(db, user, emp, fp, o);
    case ConsumeFault => EnrolledOk(db, user, emp, fp, o);
    case NoFault => EnrolledOk(db, user, emp, fp, o);
    case _ =>
  }

  lemma EnrolledOk(db: Db, user: string, emp: string, fp: string, o: Outside)
    requires DbOk(db) && o.serial !in db.certs && o.deviceId !in db.devices && !FingerprintTaken(db, fp)
    ensures DbOk(Enrolled(db, user, emp, fp, o)) && DbOk(EnrollmentLeaves(db, user, emp, fp, o, BindFault))
  {
    ApprovedOk(db, o.deviceId, user, emp, fp);
    var approved := Added(db, o.deviceId, Device(user, emp, fp, APPROVED, None));
    SignedOk(approved, user, emp, o.deviceId, fp, o);
    assert Bind(Signed(approved, user, emp, o.deviceId, fp, o), o.deviceId, o.serial).devices ==
        Enrolled(db, user, emp, fp, o).devices;
  }

  /** What a renewal may rely on once its certificate is verified. */
  ghost predicate Renewable(db: Db, v: Verdict, fp: string) {
    && v.Valid? && v.serialNumber in db.certs && v.deviceId in db.devices
    && var cert := db.certs[v.serialNumber];
       && cert.status != REVOKED && v.serialNumber !in db.revocations
       && v == TrustStore.Valid(v.serialNumber, cert.employeeId, cert.deviceId, cert.userId)
       && AwaitsCertificate(Superseded(db, v.serialNumber, RecordFor(cert, Renewal(fp))),
                            v.deviceId, v.userId, v.employeeId, fp)
  }

  /** Once a valid certificate is superseded, its device awaits the next. */
  lemma ValidIsRenewable(db: Db, pem: Pem, fp: string, now: int, v: Verdict)
    requires DbOk(db) && fp != "" && MayAnswer(db, pem, fp, now, v) && v.Valid?
    ensures Renewable(db, v, fp)
  {
    ValidOnlyWhenTrustworthy(db, pem, fp, now, v);
    var serial := v.serialNumber;
    var cert := db.certs[serial];
    assert OwnedByDevice(db, cert);
    var after := Superseded(db, serial, RecordFor(cert, Renewal(fp)));
    forall c | c in after.certs && after.certs[c].deviceId == cert.deviceId ensures c in after.revocations {
      assert c in db.certs && db.certs[c].deviceId == cert.deviceId;
    }
  }

  /** Wherever a renewal stops, the collections stay in order. */
  lemma RenewalKeepsDbOk(db: Db, fp: string, o: Outside, v: Verdict, at: Fault)
    requires DbOk(db) && Renewable(db, v, fp)
    ensures at != BindFault || o.serial !in db.certs ==> DbOk(RenewLeftover(db, v.serialNumber, fp, o, at))
    ensures o.serial !in db.certs ==> DbOk(Renewed(db, v.serialNumber, fp, o))
  {
    RevokedOk(db, v.serialNumber, RecordFor(db.certs[v.serialNumber], Renewal(fp)));
    if o.serial !in db.certs { RenewedOk(db, v.serialNumber, fp, o); }
  }

  lemma RenewedOk(db: Db, serial: string, fp: string, o: Outside)
    requires serial in db.certs && o.serial !in db.certs
    requires var (cert, after) := (db.certs[serial], Superseded(db, serial, RecordFor(db.certs[serial], Renewal(fp))));
      DbOk(after) && AwaitsCertificate(after, cert.deviceId, cert.userId, cert.employeeId, fp)
    ensures DbOk(Renewed(db, serial, fp, o)) && DbOk(RenewLeftover(db, serial, fp, o, BindFault))
  {
    var cert := db.certs[serial];
    var after := Superseded(db, serial, RecordFor(cert, Renewal(fp)));
    SignedOk(after, cert.userId, cert.employeeId, cert.deviceId, fp, o);
    assert Renewed(db, serial, fp, o).devices ==
        Bind(Signed(after, cert.userId, cert.employeeId, cert.deviceId, fp, o), cert.deviceId, o.serial).devices;
  }

  lemma {:induction false} RunConcat(s: State, a: seq<Action>, b: seq<Action>)
    ensures Run(s, a + b) == Run(Run(s, a), b)
    decreases |a|
  {
    if a == [] {
      assert a + b == b;
    } else {
      assert (a + b)[1..] == a[1..] + b;
      RunConcat(Apply(s, a[0]), a[1..], b);
    }
  }

  lemma RunTwo(s: State, a: Action, b: Action)
    ensures Run(s, [a, b]) == Apply(Apply(s, a), b)
  {
    assert [a, b][1..] == [b];
    assert Run(Apply(s, a), [b]) == Run(Apply(Apply(s, a), b), []);
  }

  predicate ScanMatches(cert: Certificate, spelling: string, serial: string) {
    cert.status != REVOKED && Serials.Normalize(spelling) == Serials.Normalize(serial)
  }

  function Alone(db: Db, p: Process): State {
    State(db, map[0 := p], {})
  }

  /** The one or two lookups of a verification: the scan only follows a miss. */
  function Lookups(db: Db, pem: Pem, o: Outside): seq<Action> {
    if pem.info.Some? && pem.info.value.serialNumber in db.certs then [Advance(0, o)]
        else [Advance(0, o), Advance(0, o)]
  }

  lemma LookupAlone(db: Db, pem: Pem, fp: string, o: Outside)
    requires fp != "" && Verify(db, pem, fp, o.now).Valid?
    ensures var serial := Verify(db, pem, fp, o.now).serialNumber;
      Run(Alone(db, RenewLookup(pem, fp)), Lookups(db, pem, o)) ==
        Alone(db, RenewRecords(pem, fp, serial, db.certs[serial]))
  {
    var step, serial := Advance(0, o), Verify(db, pem, fp, o.now).serialNumber;
    var found := Alone(db, RenewRecords(pem, fp, serial, db.certs[serial]));
    if pem.info.value.serialNumber in db.certs {
      assert Apply(Alone(db, RenewLookup(pem, fp)), step) == found;
      assert Run(Alone(db, RenewLookup(pem, fp)), [step]) == Run(found, []);
    } else {
      RunTwo(Alone(db, RenewLookup(pem, fp)), step, step);
      assert Apply(Alone(db, RenewLookup(pem, fp)), step) == Alone(db, RenewScan(pem, fp));
      assert Apply(Alone(db, RenewScan(pem, fp)), step) == found;
    }
  }

  lemma VerifyAlone(db: Db, pem: Pem, fp: string, o: Outside)
    requires fp != "" && Verify(db, pem, fp, o.now).Valid?
    ensures var step, serial := Advance(0, o), Verify(db, pem, fp, o.now).serialNumber;
      Run(Alone(db, RenewRecords(pem, fp, serial, db.certs[serial])), [step, step]) ==
        Alone(db, RevokeRead(serial, Renewal(fp)))
  {
    var step, serial := Advance(0, o), Verify(db, pem, fp, o.now).serialNumber;
    var found := Alone(db, RenewRecords(pem, fp, serial, db.certs[serial]));
    RunTwo(found, step, step);
    assert Apply(found, step) == Alone(db, RenewTrust(pem, fp, serial, db.certs[serial]));
  }

  lemma StepAlone(db: Db, p: Process, o: Outside)
    requires !p.RenewSign?
    ensures Apply(Alone(db, p), Advance(0, o)) == Alone(Next(db, p, o).0, Next(db, p, o).1)
  {
    assert map[0 := p][0 := Next(db, p, o).1] == map[0 := Next(db, p, o).1];
  }

  lemma RevokeAlone(db: Db, serial: string, fp: string, o: Outside)
    requires serial in db.certs && db.certs[serial].status != REVOKED
    ensures var step, cert := Advance(0, o), db.certs[serial];
      Run(Alone(db, RevokeRead(serial, Renewal(fp))), [step, step]) ==
        Alone(SaveRevoked(db, serial), RevokeRecord(serial, cert, Renewal(fp)))
  {
    var step := Advance(0, o);
    RunTwo(Alone(db, RevokeRead(serial, Renewal(fp))), step, step);
    StepAlone(db, RevokeRead(serial, Renewal(fp)), o);
    StepAlone(db, RevokeSave(serial, db.certs[serial], Renewal(fp)), o);
  }

  lemma RecordAlone(db: Db, serial: string, fp: string, o: Outside)
    requires serial in db.certs && serial !in db.revocations && o.serial !in db.certs
    ensures var step, cert := Advance(0, o), db.certs[serial];
      var after := Superseded(db, serial, RecordFor(cert, Renewal(fp)));
      var issued := Issue(after, cert.userId, cert.employeeId, cert.deviceId, fp, o);
      issued.Some? &&
      Run(Alone(SaveRevoked(db, serial), RevokeRecord(serial, cert, Renewal(fp))), [step, step])
      == State(issued.value, map[0 := BindStep(cert.deviceId, o.serial)], {(serial, o.serial)})
  {
    var step, cert := Advance(0, o), db.certs[serial];
    var before := Alone(SaveRevoked(db, serial), RevokeRecord(serial, cert, Renewal(fp)));
    RunTwo(before, step, step);
    var after := Superseded(db, serial, RecordFor(cert, Renewal(fp)));
    assert InsertRevocation(SaveRevoked(db, serial), serial, RecordFor(cert, Renewal(fp))) == Some(after);
    StepAlone(SaveRevoked(db, serial), RevokeRecord(serial, cert, Renewal(fp)), o);
    assert Apply(before, step) == Alone(after, RenewSign(serial, cert, fp));
    SignAlone(after, serial, cert, fp, o);
  }

  lemma SignAlone(db: Db, serial: string, cert: Certificate, fp: string, o: Outside)
    requires o.serial !in db.certs
    ensures var issued := Issue(db, cert.userId, cert.employeeId, cert.deviceId, fp, o);
      && issued.Some?
      && Apply(Alone(db, RenewSign(serial, cert, fp)), Advance(0, o))
         == State(issued.value, map[0 := BindStep(cert.deviceId, o.serial)], {(serial, o.serial)})
  {
    assert map[0 := RenewSign(serial, cert, fp)][0 := BindStep(cert.deviceId, o.serial)]
        == map[0 := BindStep(cert.deviceId, o.serial)];
  }

  lemma BindAlone(db: Db, serial: string, fp: string, o: Outside)
    requires serial in db.certs && db.certs[serial].deviceId in db.devices && o.serial !in db.certs
    ensures var step, cert := Advance(0, o), db.certs[serial];
      var issued := Issue(Superseded(db, serial, RecordFor(cert, Renewal(fp))), cert.userId, cert.employeeId,
        cert.deviceId, fp, o);
      issued.Some? &&
      Run(State(issued.value, map[0 := BindStep(cert.deviceId, o.serial)], {(serial, o.serial)}), [step])
      == State(Renewed(db, serial, fp, o), map[0 := Finished], {(serial, o.serial)})
  {
  }

  /** The atomic renewal is the run of one undisturbed process of the interleaved protocol. */
  lemma RenewalIsARun(db: Db, pem: Pem, fp: string, o: Outside)
    requires Sound(db) && fp != "" && o.serial !in db.certs && Verify(db, pem, fp, o.now).Valid?
    ensures var serial := Verify(db, pem, fp, o.now).serialNumber;
      var step := Advance(0, o);
      db.certs[serial].deviceId in db.devices &&
      Run(Alone(db, RenewLookup(pem, fp)), Lookups(db, pem, o) + [step, step] + [step, step] + [step, step] + [step])
      == State(Renewed(db, serial, fp, o), map[0 := Finished], {(serial, o.serial)})
  {
    var serial, step := Verify(db, pem, fp, o.now).serialNumber, Advance(0, o);
    assert OwnedByDevice(db, db.certs[serial]);
    VerifyAlone(db, pem, fp, o);
    RevokeAlone(db, serial, fp, o);
    RecordAlone(db, serial, fp, o);
    BindAlone(db, serial, fp, o);
    LookupAlone(db, pem, fp, o);
    var start, first, two := Alone(db, RenewLookup(pem, fp)), Lookups(db, pem, o), [step, step];
    RunConcat(start, first + two + two + two, [step]);
    RunConcat(start, first + two + two, two);
    RunConcat(start, first + two, two);
    RunConcat(start, first, two);
  }

  function Steps(o: Outside, n: nat): seq<Action> {
    seq(n, _ => Advance(0, o))
  }

  /** Where the writes of an enrollment stop when the request fails there. */
  function StepsBefore(at: Fault): nat {
    match at
    case InsertFault => 1
    case ApproveFault => 2
    case SignFault => 4
    case BindFault => 5
    case _ => 6
  }

  lemma RunSteps(s: State, o: Outside, n: nat)
    ensures Run(s, Steps(o, n + 1)) == Apply(Run(s, Steps(o, n)), Advance(0, o))
  {
    assert Steps(o, n + 1) == Steps(o, n) + [Advance(0, o)];
    RunConcat(s, Steps(o, n), [Advance(0, o)]);
    var t := Run(s, Steps(o, n));
    assert Run(t, [Advance(0, o)]) == Run(Apply(t, Advance(0, o)), []);
  }

  lemma StepsAlone(db: Db, p: Process, o: Outside, n: nat, after: Db, q: Process)
    requires Run(Alone(db, p), Steps(o, n)) == Alone(after, q) && !q.RenewSign?
    ensures Run(Alone(db, p), Steps(o, n + 1)) == Alone(Next(after, q, o).0, Next(after, q, o).1)
  {
    RunSteps(Alone(db, p), o, n);
    StepAlone(after, q, o);
  }

  lemma StartAndThrow(db: Db, p: Process, o: Outside, n: nat, after: Db, q: Process)
    requires IsRequest(p) && Run(Alone(db, p), Steps(o, n)) == Alone(after, q)
    ensures Run(State(db, map[], {}), [Start(0, p)] + (Steps(o, n) + [Throw(0)])) == Alone(after, Finished)
  {
    var rest := Steps(o, n) + [Throw(0)];
    assert Apply(State(db, map[], {}), Start(0, p)) == Alone(db, p) && ([Start(0, p)] + rest)[1..] == rest;
    RunConcat(Alone(db, p), Steps(o, n), [Throw(0)]);
    assert map[0 := q][0 := Finished] == map[0 := Finished];
    assert Run(Alone(after, q), [Throw(0)]) == Run(Apply(Alone(after, q), Throw(0)), []);
  }

  lemma EnrollInserts(db: Db, user: string, emp: string, fp: string, o: Outside)
    requires !FingerprintTaken(db, fp) && o.deviceId !in db.devices
    ensures var start := Alone(db, EnrollCheck(fp, user, emp));
      && Run(start, Steps(o, 1)) == Alone(db, EnrollInsert(fp, user, emp))
      && Run(start, Steps(o, 2)) ==
         Alone(EnrollmentLeaves(db, user, emp, fp, o, ApproveFault), ApproveRead(o.deviceId, fp, user, emp))
  {
    var p := EnrollCheck(fp, user, emp);
    assert Steps(o, 0) == [];
    StepsAlone(db, p, o, 0, db, p);
    StepsAlone(db, p, o, 1, db, EnrollInsert(fp, user, emp));
  }

  lemma EnrollApproves(db: Db, user: string, emp: string, fp: string, o: Outside)
    requires !FingerprintTaken(db, fp) && o.deviceId !in db.devices
    ensures Run(Alone(db, EnrollCheck(fp, user, emp)), Steps(o, 4)) ==
      Alone(EnrollmentLeaves(db, user, emp, fp, o, SignFault), EnrollSign(o.deviceId, fp, user, emp))
  {
    var p, pending := EnrollCheck(fp, user, emp), EnrollmentLeaves(db, user, emp, fp, o, ApproveFault);
    EnrollInserts(db, user, emp, fp, o);
    StepsAlone(db, p, o, 2, pending, ApproveRead(o.deviceId, fp, user, emp));
    StepsAlone(db, p, o, 3, pending, ApproveSave(o.deviceId, fp, user, emp));
  }

  lemma EnrollSigns(db: Db, user: string, emp: string, fp: string, o: Outside)
    requires !FingerprintTaken(db, fp) && o.deviceId !in db.devices && o.serial !in db.certs
    ensures Run(Alone(db, EnrollCheck(fp, user, emp)), Steps(o, 5)) ==
      Alone(EnrollmentLeaves(db, user, emp, fp, o, BindFault), BindStep(o.deviceId, o.serial))
  {
    EnrollApproves(db, user, emp, fp, o);
    StepsAlone(db, EnrollCheck(fp, user, emp), o, 4, EnrollmentLeaves(db, user, emp, fp, o, SignFault),
               EnrollSign(o.deviceId, fp, user, emp));
  }

  lemma EnrollBinds(db: Db, user: string, emp: string, fp: string, o: Outside)
    requires !FingerprintTaken(db, fp) && o.deviceId !in db.devices && o.serial !in db.certs
    ensures Run(Alone(db, EnrollCheck(fp, user, emp)), Steps(o, 6)) ==
      Alone(EnrollmentLeaves(db, user, emp, fp, o, NoFault), Finished)
  {
    var signed := EnrollmentLeaves(db, user, emp, fp, o, BindFault);
    EnrollSigns(db, user, emp, fp, o);
    StepsAlone(db, EnrollCheck(fp, user, emp), o, 5, signed, BindStep(o.deviceId, o.serial));
    assert Bind(signed, o.deviceId, o.serial) == Enrolled(db, user, emp, fp, o);
  }

  /**
   * The writes of an enrollment, complete or failing anywhere, are those of a run of one undisturbed
   * process of the interleaved protocol, which throws at that point.
   */
  lemma EnrollmentIsARun(db: Db, user: string, emp: string, fp: string, o: Outside, at: Fault)
    requires fp != "" && !FingerprintTaken(db, fp) && o.deviceId !in db.devices && o.serial !in db.certs
    requires at in {InsertFault, ApproveFault, SignFault, BindFault, ConsumeFault, NoFault}
    ensures Run(State(db, map[], {}), [Start(0, EnrollCheck(fp, user, emp))] + (Steps(o, StepsBefore(at)) + [Throw(0)]))
      == Alone(EnrollmentLeaves(db, user, emp, fp, o, at), Finished)
  {
    var p, after, d := EnrollCheck(fp, user, emp), EnrollmentLeaves(db, user, emp, fp, o, at), o.deviceId;
    if at == InsertFault {
      EnrollInserts(db, user, emp, fp, o);
      StartAndThrow(db, p, o, 1, after, EnrollInsert(fp, user, emp));
    } else if at == ApproveFault {
      EnrollInserts(db, user, emp, fp, o);
      StartAndThrow(db, p, o, 2, after, ApproveRead(d, fp, user, emp));
    } else if at == SignFault {
      EnrollApproves(db, user, emp, fp, o);
      StartAndThrow(db, p, o, 4, after, EnrollSign(d, fp, user, emp));
    } else if at == BindFault {
      EnrollSigns(db, user, emp, fp, o);
      StartAndThrow(db, p, o, 5, after, BindStep(d, o.serial));
    } else {
      EnrollBinds(db, user, emp, fp, o);
      StartAndThrow(db, p, o, 6, after, Finished);
    }
  }

  /** So are those of registering a device, which may find its fingerprint or its deviceId taken. */
  lemma RegistrationIsARun(db: Db, user: string, emp: string, fp: string, o: Outside)
    requires fp != ""
    ensures Run(State(db, map[], {}), [Start(0, RegisterCheck(fp, user, emp))] + Steps(o, 2))
      == Alone(if FingerprintTaken(db, fp) || o.deviceId in db.devices then db
               else Added(db, o.deviceId, Device(user, emp, fp, DeviceStatus.PENDING, None)), Finished)
  {
    var empty, start, p := State(db, map[], {}), Start(0, RegisterCheck(fp, user, emp)), RegisterCheck(fp, user, emp);
    assert Apply(empty, start) == Alone(db, p);
    assert ([start] + Steps(o, 2))[1..] == Steps(o, 2);
    assert Steps(o, 0) == [] && Run(Alone(db, p), Steps(o, 0)) == Alone(db, p);
    StepsAlone(db, p, o, 0, db, p);
    StepsAlone(db, p, o, 1, db, if FingerprintTaken(db, fp) then Finished else RegisterInsert(fp, user, emp));
  }

  class Service {
    var db: Db
    var tokens: map<string, EnrollmentToken>
    /** Accounts that are not soft-deleted, and whether they are active. */
    var users: map<string, bool>
    /** How many enrollments have completed with each token. */
    ghost var completed: map<string, nat>

    ghost predicate Valid()
      reads this
    {
      DbOk(db) && TokensOk(tokens, completed)
    }

    constructor (users: map<string, bool>)
      ensures Valid() && db == EMPTY.db && tokens == map[] && this.users == users
    {
      db := Db(map[], map[], map[]);
      tokens := map[];
      completed := map[];
      this.users := users;
    }

    /** `maxDevices || 1` and `expiresInHours || 24`: zero counts as absent. */
    method CreateEnrollmentToken(token: string, userId: string, employeeId: string, expiresInHours: nat,
            maxDevices: nat, now: int)
      returns (r: Result<int, Refusal>)
      requires Valid() && token !in tokens
      modifies this
      ensures Valid() && db == old(db) && users == old(users)
      ensures r.Ok? <==> userId in users
      ensures r.Ok? ==> r.value > now && token in tokens
      ensures r.Ok? ==>
        tokens == old(tokens)[token := EnrollmentToken(userId, employeeId, r.value, false, tokens[token].maxDevices, 0)]
      ensures r.Ok? ==> tokens[token].maxDevices >= 1 && (maxDevices >= 1 ==> tokens[token].maxDevices == maxDevices)
      ensures r.Ok? ==> r.value == now + (if expiresInHours == 0 then 24 else expiresInHours) * 3600000
      ensures r.Ok? && maxDevices == 0 ==> tokens[token].maxDevices == 1
      ensures r.Err? ==> r.error == UserNotFound && tokens == old(tokens)
    {
      if userId !in users { return Err(UserNotFound); }
      var hours := if expiresInHours == 0 then 24 else expiresInHours;
      var expiresAt := now + hours * 60 * 60 * 1000;
      tokens := tokens[token := EnrollmentToken(userId, employeeId, expiresAt, false, if maxDevices == 0 then 1
        else maxDevices, 0)];
      completed := completed[token := 0];
      return Ok(expiresAt);
    }

    /** verifyToken: the first reason against the token in source order, or how many devices it has left. */
    method VerifyToken(token: string, employeeId: string, now: int) returns (r: Result<nat, TokenReason>)
      requires Valid()
      ensures r.Ok? <==> TokenAccepts(tokens, users, token, employeeId, now)
      ensures r.Ok? ==>
        && token in tokens && now <= tokens[token].expiresAt && completed[token] < tokens[token].maxDevices
        && tokens[token].employeeId == employeeId && tokens[token].userId in users && users[tokens[token].userId]
        && r.value == tokens[token].maxDevices - completed[token] >= 1
      ensures r == Err(Unknown) <==> token !in tokens
      ensures r == Err(TokenReason.Expired) <==> token in tokens && now > tokens[token].expiresAt
      ensures token in tokens && now <= tokens[token].expiresAt ==>
        && (r == Err(Consumed) <==> completed[token] == tokens[token].maxDevices)
        && (r == Err(OtherEmployee) <==>
              completed[token] < tokens[token].maxDevices && tokens[token].employeeId != employeeId)
        && (r == Err(InactiveUser) <==>
              && completed[token] < tokens[token].maxDevices && tokens[token].employeeId == employeeId
              && !(tokens[token].userId in users && users[tokens[token].userId]))
    {
      if token !in tokens { return Err(Unknown); }
      var record := tokens[token];
      if now > record.expiresAt { return Err(TokenReason.Expired); }
      if record.isUsed && record.usedCount >= record.maxDevices { return Err(Consumed); }
      if record.employeeId != employeeId { return Err(OtherEmployee); }
      if record.userId !in users || !users[record.userId] { return Err(InactiveUser); }
      return Ok(record.maxDevices - record.usedCount);
    }

    /** registerDevice: whatever its status, a device with the fingerprint refuses a second one. */
    method RegisterDevice(deviceId: string, userId: string, employeeId: string, fingerprint: string, fault: Fault)
      returns (r: Result<(), Refusal>)
      modifies this`db
      ensures r.Ok? <==> !FingerprintTaken(old(db), fingerprint) && deviceId !in old(db).devices && fault != InsertFault
      ensures r.Ok? ==>
        db == Added(old(db), deviceId, Device(userId, employeeId, fingerprint, DeviceStatus.PENDING, None))
      ensures r.Err? ==> db == old(db) && r.error in {FingerprintConflict, Thrown(InsertFault)}
      ensures r == Err(FingerprintConflict) <==> FingerprintTaken(old(db), fingerprint)
    {
      if FingerprintTaken(db, fingerprint) { return Err(FingerprintConflict); }
      var inserted := InsertDevice(db, deviceId, userId, employeeId, fingerprint);
      if fault == InsertFault || inserted.None? { return Err(Thrown(InsertFault)); }
      db := inserted.value;
      return Ok(());
    }

    method ApproveDevice(deviceId: string, fault: Fault) returns (r: Result<(), Refusal>)
      modifies this`db
      ensures r.Ok? <==>
        deviceId in old(db).devices && old(db).devices[deviceId].status == DeviceStatus.PENDING && fault != ApproveFault
      ensures db == if r.Ok? then SaveDeviceStatus(old(db), deviceId, APPROVED) else old(db)
      ensures r.Ok? ==>
        db == Added(old(db), deviceId, old(db).devices[deviceId].(status := APPROVED)) && deviceId in db.devices
      ensures r.Err? ==> r.error == Thrown(ApproveFault)
    {
      if deviceId !in db.devices || db.devices[deviceId].status != DeviceStatus.PENDING || fault == ApproveFault {
        return Err(Thrown(ApproveFault));
      }
      db := SaveDeviceStatus(db, deviceId, APPROVED);
      return Ok(());
    }

    /** updateStatus sets any status from any status. */
    method UpdateStatus(deviceId: string, status: DeviceStatus) returns (found: bool)
      requires Valid()
      modifies this`db
      ensures Valid()
      ensures found == (deviceId in old(db).devices)
      ensures db == if found then Added(old(db), deviceId, old(db).devices[deviceId].(status := status)) else old(db)
    {
      StatusOk(db, deviceId, status);
      found := deviceId in db.devices;
      db := SaveDeviceStatus(db, deviceId, status);
    }

    /** signAndStoreCertificate for a device: sign, insert, bind; a serial stored before fails the insert. */
    method SignAndStore(userId: string, employeeId: string, deviceId: string, fingerprint: string, o: Outside,
            fault: Fault)
      returns (r: Result<(), Refusal>)
      modifies this`db
      ensures r.Ok? <==> o.serial !in old(db).certs && fault !in {SignFault, BindFault}
      ensures r.Err? ==> r.error == Thrown(if o.serial in old(db).certs then SignFault else fault)
      ensures db == if fault == SignFault || o.serial in old(db).certs then old(db)
                    else if fault == BindFault then Signed(old(db), userId, employeeId, deviceId, fingerprint, o)
                    else Bind(Signed(old(db), userId, employeeId, deviceId, fingerprint, o), deviceId, o.serial)
    {
      var issued := Issue(db, userId, employeeId, deviceId, fingerprint, o);
      if fault == SignFault || issued.None? { return Err(Thrown(SignFault)); }
      db := issued.value;
      if fault == BindFault { return Err(Thrown(BindFault)); }
      db := Bind(db, deviceId, o.serial);
      return Ok(());
    }

    /** Steps 4 to 6 of enrollDevice: register, approve, sign. */
    method AddDevice(userId: string, employeeId: string, fingerprint: string, o: Outside, fault: Fault)
      returns (r: Result<(), Refusal>)
      requires DbOk(db)
      modifies this`db
      ensures DbOk(db) && StaysDistinct(old(db), db, o.serial)
      ensures r.Ok? <==>
        && !FingerprintTaken(old(db), fingerprint) && o.deviceId !in old(db).devices && o.serial !in old(db).certs
        && fault !in {InsertFault, ApproveFault, SignFault, BindFault}
      ensures r.Err? && !r.error.Thrown? ==> db == old(db)
      ensures r.Ok? || r.error.Thrown? ==>
        db == EnrollmentLeaves(old(db), userId, employeeId, fingerprint, o, if r.Ok? then NoFault else r.error.at)
      ensures r.Err? && r.error.Thrown? ==>
        r.error.at == if o.deviceId in old(db).devices then InsertFault
                      else if fault in {InsertFault, ApproveFault} then fault
                      else if o.serial in old(db).certs then SignFault else fault
      ensures r.Err? && r.error.Thrown? ==> r.error.at in {InsertFault, ApproveFault, SignFault, BindFault}
      ensures r.Err? && !r.error.Thrown? ==> r.error == FingerprintConflict
      ensures r == Err(FingerprintConflict) <==> FingerprintTaken(old(db), fingerprint)
    {
      var registered := RegisterDevice(o.deviceId, userId, employeeId, fingerprint, fault);
      if registered.Err? { return Err(registered.error); }
      assert o.deviceId !in old(db).devices && !FingerprintTaken(old(db), fingerprint);
      var approved := ApproveDevice(o.deviceId, fault);
      if approved.Err? {
        EnrollmentKeepsDbOk(old(db), userId, employeeId, fingerprint, o, ApproveFault);
        return Err(approved.error);
      }
      assert db.devices == old(db).devices[o.deviceId := Device(userId, employeeId, fingerprint, APPROVED, None)];
      r := SignAndStore(userId, employeeId, o.deviceId, fingerprint, o, fault);
      assert r.Ok? ==> db.devices == Enrolled(old(db), userId, employeeId, fingerprint, o).devices;
      EnrollmentKeepsDbOk(old(db), userId, employeeId, fingerprint, o, if r.Ok? then NoFault else r.error.at);
      DistinctStays(old(db), db, o.serial);
    }

    /** What enrollDevice makes of a device that already has the fingerprint. */
    method CheckDuplicate(fingerprint: string) returns (refused: Option<Refusal>)
      requires Valid()
      ensures refused == Some(DeviceBlocked) <==> Held(db, fingerprint, BLOCKED)
      ensures refused == Some(AlreadyEnrolled) <==> Held(db, fingerprint, APPROVED)
      ensures refused.Some? ==> refused.value in {DeviceBlocked, AlreadyEnrolled}
    {
      if existing :| existing in db.devices && db.devices[existing].fingerprint == fingerprint {
        if db.devices[existing].status == BLOCKED { return Some(DeviceBlocked); }
        if db.devices[existing].status == APPROVED { return Some(AlreadyEnrolled); }
      }
      return None;
    }

    /** The consume step: one more use, the terms kept. */
    method ConsumeToken(token: string)
      requires TokensOk(tokens, completed) && token in tokens && completed[token] < tokens[token].maxDevices
      modifies this`tokens, this`completed
      ensures TokensOk(tokens, completed) && completed == old(completed)[token := old(completed)[token] + 1]
      ensures var was := old(tokens)[token];
        tokens == old(tokens)[token :=
          was.(usedCount := was.usedCount + 1, isUsed := was.usedCount + 1 == was.maxDevices)]
      ensures tokens == old(tokens)[token := SaveUse(old(tokens)[token], old(tokens)[token].usedCount)]
    {
      UseKeepsTokensOk(tokens, completed, token);
      tokens := tokens[token := SaveUse(tokens[token], tokens[token].usedCount)];
      completed := completed[token := completed[token] + 1];
    }

    /**
     * Steps 4 to 7 of enrollDevice. The token's user and employee get one APPROVED device bound to one
     * ACTIVE certificate; the token loses one enrollment and keeps its terms.
     */
    method CompleteEnrollment(token: string, employeeId: string, fingerprint: string, o: Outside, fault: Fault)
      returns (r: Result<string, Refusal>)
      requires Valid() && token in tokens && completed[token] < tokens[token].maxDevices
      modifies this`db, this`tokens, this`completed
      ensures Valid()
      ensures StaysDistinct(old(db), db, o.serial)
      ensures r.Ok? <==>
        && !FingerprintTaken(old(db), fingerprint) && o.deviceId !in old(db).devices && o.serial !in old(db).certs
        && fault !in {InsertFault, ApproveFault, SignFault, BindFault, ConsumeFault}
      ensures r.Ok? ==> r.value == o.serial
      ensures r.Err? && !r.error.Thrown? ==> db == old(db)
      ensures r.Ok? || r.error.Thrown? ==>
        var user, at := old(tokens)[token].userId, if r.Ok? then NoFault else r.error.at;
        db == EnrollmentLeaves(old(db), user, employeeId, fingerprint, o, at)
      ensures r.Err? && r.error.Thrown? ==>
        r.error.at == if o.deviceId in old(db).devices then InsertFault
                      else if fault in {InsertFault, ApproveFault} then fault
                      else if o.serial in old(db).certs then SignFault else fault
      ensures r.Ok? ==> completed == old(completed)[token := old(completed)[token] + 1]
      ensures r.Ok? ==> tokens == old(tokens)[token := SaveUse(old(tokens)[token], old(tokens)[token].usedCount)]
      ensures r.Err? ==> tokens == old(tokens) && completed == old(completed)
      ensures r.Err? && !r.error.Thrown? ==> r.error == FingerprintConflict && FingerprintTaken(old(db), fingerprint)
    {
      var added := AddDevice(tokens[token].userId, employeeId, fingerprint, o, fault);
      if added.Err? { return Err(added.error); }
      if fault == ConsumeFault { return Err(Thrown(ConsumeFault)); }
      ConsumeToken(token);
      return Ok(o.serial);
    }

    /** Steps 1 to 3 of enrollDevice, which write nothing. */
    method CheckEnrollment(token: string, employeeId: string, csrValid: bool, fingerprint: string, now: int)
      returns (refused: Option<Refusal>)
      requires Valid()
      ensures refused.None? ==>
        && token in tokens && now <= tokens[token].expiresAt && completed[token] < tokens[token].maxDevices
        && tokens[token].employeeId == employeeId && tokens[token].userId in users && users[tokens[token].userId]
        && csrValid && !Held(db, fingerprint, BLOCKED) && !Held(db, fingerprint, APPROVED)
      ensures refused.Some? ==>
        && (refused.value.TokenRejected? || refused.value in {BadCsr, DeviceBlocked, AlreadyEnrolled})
        && Refuses(db, tokens, completed, users, token, employeeId, csrValid, fingerprint, now, refused.value)
    {
      var accepted := VerifyToken(token, employeeId, now);
      if accepted.Err? { return Some(TokenRejected(accepted.error)); }
      if !csrValid { return Some(BadCsr); }
      refused := CheckDuplicate(fingerprint);
    }

    method EnrollDevice(token: string, employeeId: string, csrValid: bool, fingerprint: string, o: Outside,
            fault: Fault)
      returns (r: Result<string, Refusal>)
      requires Valid()
      modifies this`db, this`tokens, this`completed
      ensures Valid()
      ensures StaysDistinct(old(db), db, o.serial)
      ensures r.Ok? <==>
        && token in old(tokens) && o.now <= old(tokens)[token].expiresAt
        && old(completed)[token] < old(tokens)[token].maxDevices && old(tokens)[token].employeeId == employeeId
        && old(tokens)[token].userId in users && users[old(tokens)[token].userId] && csrValid
        && !FingerprintTaken(old(db), fingerprint) && o.deviceId !in old(db).devices && o.serial !in old(db).certs
        && fault !in {InsertFault, ApproveFault, SignFault, BindFault, ConsumeFault}
      ensures r.Ok? || r.error.Thrown? ==> token in old(tokens)
      ensures r.Err? && !r.error.Thrown? ==>
        Refuses(old(db), old(tokens), old(completed), users, token, employeeId, csrValid, fingerprint, o.now, r.error)
      ensures r.Ok? ==> r.value == o.serial
      ensures r.Err? && !r.error.Thrown? ==> db == old(db)
      ensures r.Ok? || r.error.Thrown? ==>
        var user, at := old(tokens)[token].userId, if r.Ok? then NoFault else r.error.at;
        db == EnrollmentLeaves(old(db), user, employeeId, fingerprint, o, at)
      ensures r.Err? && r.error.Thrown? ==>
        r.error.at == if o.deviceId in old(db).devices then InsertFault
                      else if fault in {InsertFault, ApproveFault} then fault
                      else if o.serial in old(db).certs then SignFault else fault
      ensures r.Ok? ==> completed == old(completed)[token := old(completed)[token] + 1]
      ensures r.Ok? ==> tokens == old(tokens)[token := SaveUse(old(tokens)[token], old(tokens)[token].usedCount)]
      ensures r.Err? ==> tokens == old(tokens) && completed == old(completed)
    {
      var refused := CheckEnrollment(token, employeeId, csrValid, fingerprint, o.now);
      if refused.Some? { return Err(refused.value); }
      r := CompleteEnrollment(token, employeeId, fingerprint, o, fault);
    }

    /** verifyCertificate; the scan takes whichever match the database returns first. */
    method VerifyCertificate(pem: Pem, fingerprint: string, now: int) returns (v: Verdict)
      ensures MayAnswer(db, pem, fingerprint, now, v)
    {
      var screened := Screen(pem, now);
      if screened.Some? { return Invalid(screened.value); }
      var serial := pem.info.value.serialNumber;
      var stored: Option<string> := if serial in db.certs then Some(serial) else None;
      if stored.None? {
        if spelling :| spelling in db.certs && ScanMatches(db.certs[spelling], spelling, serial) {
          assert spelling in Unrevoked(db);
          stored := Some(spelling);
        }
      }
      assert MayFind(db, serial, stored);
      v := Judge(db, stored, pem, fingerprint);
    }

    /** revokeCertificate, for either caller; a failure in Vault is logged and ignored. */
    method RevokeCertificate(serial: string, caller: Caller, fault: Fault) returns (r: Result<(), Refusal>)
      requires DbOk(db)
      modifies this`db
      ensures DbOk(db)
      ensures r.Ok? <==>
        serial in old(db).certs && old(db).certs[serial].status != REVOKED && fault !in {StatusFault, RecordFault}
      ensures db.devices == old(db).devices
      ensures r.Ok? || r == Err(Thrown(RecordFault)) ==>
        serial in old(db).certs && db.certs == old(db).certs[serial := old(db).certs[serial].(status := REVOKED)]
      ensures r.Ok? ==>
        var cert := old(db).certs[serial];
        db.revocations == old(db).revocations[serial :=
          if caller.Renewal? then Revocation(cert.userId, cert.deviceId, "superseded", "system:renewal")
          else Revocation(cert.userId, cert.deviceId, if caller.reason != "" then caller.reason else "unspecified",
                          caller.revokedBy)]
      ensures r.Err? ==> db.revocations == old(db).revocations
      ensures r.Err? && r.error != Thrown(RecordFault) ==> db == old(db)
      ensures r == Err(CertificateNotFound) <==> serial !in old(db).certs
      ensures r == Err(AlreadyRevoked) <==> serial in old(db).certs && old(db).certs[serial].status == REVOKED
      ensures r.Err? && serial in old(db).certs && old(db).certs[serial].status != REVOKED ==> r.error == Thrown(fault)
    {
      if serial !in db.certs { return Err(CertificateNotFound); }
      if db.certs[serial].status == REVOKED { return Err(AlreadyRevoked); }
      var cert := db.certs[serial];
      RevokedOk(db, serial, RecordFor(cert, caller));
      if fault == StatusFault { return Err(Thrown(StatusFault)); }
      db := SaveRevoked(db, serial);
      if fault == RecordFault { return Err(Thrown(RecordFault)); }
      db := InsertRevocation(db, serial, RecordFor(cert, caller)).value;
      return Ok(());
    }

    /** Steps 3 and 4 of renewCertificate: revoke the old certificate, issue the new one. */
    method ReplaceCertificate(v: Verdict, fingerprint: string, o: Outside, fault: Fault)
      returns (r: Result<(), Refusal>)
      requires DbOk(db) && Renewable(db, v, fingerprint)
      modifies this`db
      ensures DbOk(db) && StaysDistinct(old(db), db, o.serial)
      ensures r.Ok? <==> o.serial !in old(db).certs && fault !in {StatusFault, RecordFault, SignFault, BindFault}
      ensures r.Err? ==>
        r.error == Thrown(if fault in {StatusFault, RecordFault} then fault
                          else if o.serial in old(db).certs then SignFault else fault)
      ensures db == if r.Ok? then Renewed(old(db), v.serialNumber, fingerprint, o)
                    else RenewLeftover(old(db), v.serialNumber, fingerprint, o, r.error.at)
    {
      var revoked := RevokeCertificate(v.serialNumber, Renewal(fingerprint), fault);
      DistinctStays(old(db), db, o.serial);
      if revoked.Err? { return Err(revoked.error); }
      r := SignAndStore(v.userId, v.employeeId, v.deviceId, fingerprint, o, fault);
      RenewalKeepsDbOk(old(db), fingerprint, o, v, if r.Ok? then NoFault else r.error.at);
      DistinctStays(old(db), db, o.serial);
    }

    /** renewCertificate; `v` is the answer its verification got. */
    method RenewCertificate(pem: Pem, fingerprint: string, csrValid: bool, o: Outside, fault: Fault)
      returns (r: Result<string, Refusal>, ghost v: Verdict)
      requires Valid() && fingerprint != ""
      modifies this`db
      ensures Valid()
      ensures StaysDistinct(old(db), db, o.serial)
      ensures MayAnswer(old(db), pem, fingerprint, o.now, v)
      ensures r.Ok? <==>
        v.Valid? && csrValid && o.serial !in old(db).certs && fault !in {StatusFault, RecordFault, SignFault, BindFault}
      ensures r.Ok? ==> r.value == o.serial
      ensures r.Err? && !r.error.Thrown? ==> db == old(db)
      ensures r.Ok? || r.error.Thrown? ==> Renewable(old(db), v, fingerprint)
      ensures r.Ok? || r.error.Thrown? ==>
        var at, cert := if r.Ok? then NoFault else r.error.at, old(db).certs[v.serialNumber];
        var revoked := old(db).certs[v.serialNumber := cert.(status := REVOKED)];
        && db.certs == (
             if at == StatusFault then old(db).certs
             else if at in {RecordFault, SignFault} then revoked
             else revoked[o.serial :=
               Certificate(cert.userId, cert.employeeId, cert.deviceId, fingerprint, o.digest, o.validTo, ACTIVE)])
        && db.revocations == (
             if at in {StatusFault, RecordFault} then old(db).revocations
             else old(db).revocations[v.serialNumber :=
               Revocation(cert.userId, cert.deviceId, "superseded", "system:renewal")])
      ensures r.Err? ==> db.devices == old(db).devices
      ensures r.Ok? ==>
        var device := old(db).devices[v.deviceId];
        db.devices == old(db).devices[v.deviceId := device.(certificateSerial := Some(o.serial))]
      ensures r.Err? && r.error.Thrown? ==>
        r.error.at == if fault in {StatusFault, RecordFault} then fault
                      else if o.serial in old(db).certs then SignFault else fault
      ensures r == Err(BadCsr) <==> v.Valid? && !csrValid
      ensures r.Err? && !r.error.Thrown? && r.error != BadCsr ==> v.Invalid? && r.error == CertificateRejected(v.reason)
    {
      var verification := VerifyCertificate(pem, fingerprint, o.now);
      v := verification;
      if verification.Invalid? { return Err(CertificateRejected(verification.reason)), v; }
      if !csrValid { return Err(BadCsr), v; }
      ValidIsRenewable(db, pem, fingerprint, o.now, v);
      var replaced := ReplaceCertificate(verification, fingerprint, o, fault);
      RenewalWrites(old(db), v.serialNumber, fingerprint, o, if replaced.Ok? then NoFault else replaced.error.at);
      if replaced.Err? { return Err(replaced.error), v; }
      return Ok(o.serial), v;
    }
  }
}
