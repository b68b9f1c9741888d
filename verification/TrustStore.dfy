/**
 * The devices, certificates and certificate_revocations collections, the single-document
 * operations the services perform on them, and certificate verification.
 */
module TrustStore {
  import opened Common
  import Serials

  /** REVOKED_DEVICE is a device's own REVOKED, told apart from a certificate's. */
  datatype DeviceStatus = PENDING | APPROVED | REVOKED_DEVICE | BLOCKED

  datatype Device = Device(
    userId: string, employeeId: string, fingerprint: string,
    status: DeviceStatus, certificateSerial: Option<string>)

  datatype CertificateStatus = ACTIVE | EXPIRED | REVOKED | PENDING

  datatype Certificate = Certificate(
    userId: string, employeeId: string, deviceId: string, deviceFingerprint: string,
    fingerprint: string, validTo: int, status: CertificateStatus)

  datatype Revocation = Revocation(userId: string, deviceId: string, reason: string, revokedBy: string)

  /** Devices by deviceId, certificates by serialNumber, revocations by certificateSerial. */
  datatype Db = Db(
    devices: map<string, Device>,
    certs: map<string, Certificate>,
    revocations: map<string, Revocation>)

  // ---- Single-document operations ----------------------------------------------------------

  predicate FingerprintTaken(db: Db, fingerprint: string) {
    exists d :: d in db.devices && db.devices[d].fingerprint == fingerprint
  }

  /** deviceModel.create: unique on deviceId and on fingerprint. */
  function InsertDevice(db: Db, deviceId: string, userId: string, employeeId: string, fingerprint: string): Option<Db> {
    if deviceId in db.devices || FingerprintTaken(db, fingerprint) then None
    else
      var device := Device(userId, employeeId, fingerprint, DeviceStatus.PENDING, None);
      Some(db.(devices := db.devices[deviceId := device]))
  }

  /** `device.status = …; device.save()` on a device that exists. */
  function SaveDeviceStatus(db: Db, deviceId: string, status: DeviceStatus): Db {
    if deviceId !in db.devices then db
    else db.(devices := db.devices[deviceId := db.devices[deviceId].(status := status)])
  }

  /** certificateModel.create: unique on serialNumber. */
  function InsertCertificate(db: Db, serial: string, cert: Certificate): Option<Db> {
    if serial in db.certs then None else Some(db.(certs := db.certs[serial := cert]))
  }

  /** `cert.status = REVOKED; cert.save()`. */
  function SaveRevoked(db: Db, serial: string): Db {
    if serial !in db.certs then db
    else db.(certs := db.certs[serial := db.certs[serial].(status := REVOKED)])
  }

  /** revocationModel.create: unique on certificateSerial. */
  function InsertRevocation(db: Db, serial: string, record: Revocation): Option<Db> {
    if serial in db.revocations then None
    else Some(db.(revocations := db.revocations[serial := record]))
  }

  /** bindCertificate: updateOne, which does nothing when no device matches. */
  function Bind(db: Db, deviceId: string, serial: string): Db {
    if deviceId !in db.devices then db
    else db.(devices := db.devices[deviceId := db.devices[deviceId].(certificateSerial := Some(serial))])
  }

  // ---- What the collections keep -----------------------------------------------------------

  ghost predicate OwnedByDevice(db: Db, cert: Certificate) {
    && cert.deviceId in db.devices
    && var device := db.devices[cert.deviceId];
       cert.deviceFingerprint == device.fingerprint && cert.userId == device.userId &&
         cert.employeeId == device.employeeId
  }

  ghost predicate BoundToItself(db: Db, deviceId: string)
    requires deviceId in db.devices
  {
    var bound := db.devices[deviceId].certificateSerial;
    bound.Some? ==> bound.value in db.certs && db.certs[bound.value].deviceId == deviceId
  }

  ghost predicate Sound(db: Db) {
    && (forall s :: s in db.revocations ==> s in db.certs && db.certs[s].status == REVOKED)
    && (forall s {:trigger OwnedByDevice(db, db.certs[s])} :: s in db.certs ==> OwnedByDevice(db, db.certs[s]))
    && (forall d1, d2 ::
          d1 in db.devices && d2 in db.devices && db.devices[d1].fingerprint == db.devices[d2].fingerprint ==> d1 == d2)
    && (forall d {:trigger BoundToItself(db, d)} :: d in db.devices ==> BoundToItself(db, d))
  }

  /** No two stored serials are spellings of one number. */
  ghost predicate DistinctSerials(db: Db) {
    forall s1, s2 :: s1 in db.certs && s2 in db.certs && Serials.Normalize(s1) == Serials.Normalize(s2) ==> s1 == s2
  }

  /** A copy of a stored certificate that agrees with the store on everything but the status. */
  ghost predicate SnapshotOf(db: Db, cert: Certificate, serial: string) {
    serial in db.certs && cert == db.certs[serial].(status := cert.status)
  }

  ghost predicate SameDevice(a: Device, b: Device) {
    a.fingerprint == b.fingerprint && a.userId == b.userId && a.employeeId == b.employeeId
  }

  /** Documents are only added; of those there, only `status` and `certificateSerial` change. */
  ghost predicate Grows(a: Db, b: Db) {
    && (forall d :: d in a.devices ==> d in b.devices && SameDevice(a.devices[d], b.devices[d]))
    && (forall c :: c in a.certs ==> c in b.certs && SnapshotOf(b, a.certs[c], c))
    && (forall c :: c in a.certs && a.certs[c].status == REVOKED ==> b.certs[c].status == REVOKED)
    && (forall r :: r in a.revocations ==> r in b.revocations && b.revocations[r] == a.revocations[r])
  }

  lemma OwnedByGrowth(a: Db, b: Db, cert: Certificate)
    requires Grows(a, b) && OwnedByDevice(a, cert)
    ensures OwnedByDevice(b, cert)
  {
  }

  lemma BoundByGrowth(a: Db, b: Db, d: string)
    requires Sound(a) && Grows(a, b) && d in a.devices && d in b.devices && b.devices[d] == a.devices[d]
    ensures BoundToItself(b, d)
  {
    assert BoundToItself(a, d);
    var bound := a.devices[d].certificateSerial;
    if bound.Some? { assert SnapshotOf(b, a.certs[bound.value], bound.value); }
  }

  lemma FingerprintsByGrowth(a: Db, b: Db, d1: string, d2: string)
    requires Sound(a) && Grows(a, b) && b.devices.Keys <= a.devices.Keys + {d1}
    requires d1 in b.devices && (d1 !in a.devices ==> !FingerprintTaken(a, b.devices[d1].fingerprint))
    requires d2 in b.devices && d2 != d1
    ensures b.devices[d2].fingerprint != b.devices[d1].fingerprint
  {
  }

  lemma CertsByGrowth(a: Db, b: Db, serial: string)
    requires Sound(a) && Grows(a, b) && b.certs.Keys <= a.certs.Keys + {serial}
    requires serial in b.certs && serial !in a.certs ==> OwnedByDevice(b, b.certs[serial])
    ensures forall s {:trigger OwnedByDevice(b, b.certs[s])} :: s in b.certs ==> OwnedByDevice(b, b.certs[s])
  {
    forall s | s in b.certs ensures OwnedByDevice(b, b.certs[s]) {
      if s in a.certs {
        assert OwnedByDevice(a, a.certs[s]) && SnapshotOf(b, a.certs[s], s);
        OwnedByGrowth(a, b, a.certs[s]);
      }
    }
  }

  /** Soundness carries over to a grown store once its new and changed documents are checked. */
  lemma SoundByGrowth(a: Db, b: Db, serial: string, deviceId: string)
    requires Sound(a) && Grows(a, b)
    requires forall s :: s in b.revocations ==> s in b.certs && b.certs[s].status == REVOKED
    requires b.certs.Keys <= a.certs.Keys + {serial} && b.devices.Keys <= a.devices.Keys + {deviceId}
    requires serial in b.certs && serial !in a.certs ==> OwnedByDevice(b, b.certs[serial])
    requires deviceId in b.devices ==> BoundToItself(b, deviceId)
    requires deviceId in b.devices && deviceId !in a.devices ==> !FingerprintTaken(a, b.devices[deviceId].fingerprint)
    requires forall d :: d in a.devices && d != deviceId ==> b.devices[d] == a.devices[d]
    ensures Sound(b)
  {
    CertsByGrowth(a, b, serial);
    forall d | d in b.devices ensures BoundToItself(b, d) {
      if d != deviceId { BoundByGrowth(a, b, d); }
    }
    if deviceId in b.devices {
      forall d | d in b.devices && d != deviceId ensures b.devices[d].fingerprint != b.devices[deviceId].fingerprint {
        FingerprintsByGrowth(a, b, deviceId, d);
      }
    }
  }

  lemma InsertDeviceSound(db: Db, d: string, user: string, emp: string, fp: string)
    requires Sound(db)
    ensures var r := InsertDevice(db, d, user, emp, fp); r.Some? ==> Sound(r.value) && Grows(db, r.value)
  {
    var r := InsertDevice(db, d, user, emp, fp);
    if r.Some? { SoundByGrowth(db, r.value, "", d); }
  }

  lemma DeviceFieldsSound(db: Db, d: string, device: Device)
    requires Sound(db) && d in db.devices && SameDevice(device, db.devices[d])
    requires device.certificateSerial.Some? ==>
      device.certificateSerial.value in db.certs && db.certs[device.certificateSerial.value].deviceId == d
    ensures var after := db.(devices := db.devices[d := device]); Sound(after) && Grows(db, after)
  {
    SoundByGrowth(db, db.(devices := db.devices[d := device]), "", d);
  }

  lemma SaveDeviceStatusSound(db: Db, d: string, status: DeviceStatus)
    requires Sound(db)
    ensures Sound(SaveDeviceStatus(db, d, status)) && Grows(db, SaveDeviceStatus(db, d, status))
  {
    if d in db.devices {
      assert BoundToItself(db, d);
      DeviceFieldsSound(db, d, db.devices[d].(status := status));
    }
  }

  lemma InsertCertificateSound(db: Db, serial: string, cert: Certificate)
    requires Sound(db) && OwnedByDevice(db, cert)
    ensures var r := InsertCertificate(db, serial, cert); r.Some? ==> Sound(r.value) && Grows(db, r.value)
  {
    var r := InsertCertificate(db, serial, cert);
    if r.Some? {
      assert BoundToItself(db, cert.deviceId);
      SoundByGrowth(db, r.value, serial, cert.deviceId);
    }
  }

  lemma SaveRevokedSound(db: Db, serial: string)
    requires Sound(db)
    ensures Sound(SaveRevoked(db, serial)) && Grows(db, SaveRevoked(db, serial))
  {
    if serial in db.certs {
      var device := db.certs[serial].deviceId;
      assert OwnedByDevice(db, db.certs[serial]) && BoundToItself(db, device);
      SoundByGrowth(db, SaveRevoked(db, serial), serial, device);
    }
  }

  lemma InsertRevocationSound(db: Db, serial: string, record: Revocation)
    requires Sound(db) && serial in db.certs && db.certs[serial].status == REVOKED
    ensures var r := InsertRevocation(db, serial, record); r.Some? ==> Sound(r.value) && Grows(db, r.value)
  {
    var r := InsertRevocation(db, serial, record);
    if r.Some? {
      var device := db.certs[serial].deviceId;
      assert OwnedByDevice(db, db.certs[serial]) && BoundToItself(db, device);
      SoundByGrowth(db, r.value, serial, device);
    }
  }

  // ---- Verification ------------------------------------------------------------------------

  datatype CertInfo = CertInfo(serialNumber: string, validFrom: int, validTo: int)

  /** A presented PEM, by the three things the code derives from its bytes. */
  datatype Pem = Pem(wellFormed: bool, info: Option<CertInfo>, digest: string)

  datatype Reason =
    | BadFormat | Unparsable | OutOfDate | NotYetValid | NotFound | StatusRevoked
    | RecordRevoked(reason: string) | FingerprintMismatch | DeviceNotTrusted | DigestMismatch

  datatype Verdict =
    | Valid(serialNumber: string, employeeId: string, deviceId: string, userId: string)
    | Invalid(reason: Reason)

  /** Some stored serial accepted by `candidates` that normalises like `serial`. */
  ghost function Scan(db: Db, candidates: set<string>, serial: string): (r: Option<string>)
    requires candidates <= db.certs.Keys
    ensures r.Some? ==> r.value in candidates && Serials.Normalize(r.value) == Serials.Normalize(serial)
    ensures r.None? ==> forall s :: s in candidates ==> Serials.Normalize(s) != Serials.Normalize(serial)
  {
    if exists s :: s in candidates && Serials.Normalize(s) == Serials.Normalize(serial) then
      var s :| s in candidates && Serials.Normalize(s) == Serials.Normalize(serial);
      Some(s)
    else None
  }

  ghost function Unrevoked(db: Db): set<string> {
    set s | s in db.certs && db.certs[s].status != REVOKED
  }

  /** The lookup of verifyCertificate: exact spelling first, then a scan of what is not REVOKED. */
  ghost function TwoStageFind(db: Db, serial: string): (r: Option<string>)
    ensures r.Some? ==> r.value in db.certs && Serials.Normalize(r.value) == Serials.Normalize(serial)
  {
    if serial in db.certs then Some(serial) else Scan(db, Unrevoked(db), serial)
  }

  /** The reference lookup: one search of the whole store by normalised serial. */
  ghost function NormalFind(db: Db, serial: string): Option<string> {
    Scan(db, db.certs.Keys, serial)
  }

  predicate DeviceTrusted(db: Db, fingerprint: string) {
    exists d :: d in db.devices && db.devices[d].fingerprint == fingerprint && db.devices[d].status == APPROVED
  }

  /** The checks made on the stored certificate, in source order. */
  function Judge(db: Db, stored: Option<string>, pem: Pem, deviceFingerprint: string): Verdict
    requires stored.Some? ==> stored.value in db.certs
  {
    if stored.None? then Invalid(NotFound)
    else
      var serial := stored.value;
      var cert := db.certs[serial];
      if cert.status == REVOKED then Invalid(StatusRevoked)
      else if serial in db.revocations then Invalid(RecordRevoked(db.revocations[serial].reason))
      else if deviceFingerprint != "" && cert.deviceFingerprint != deviceFingerprint then Invalid(FingerprintMismatch)
      else if !DeviceTrusted(db, cert.deviceFingerprint) then Invalid(DeviceNotTrusted)
      else if cert.fingerprint != pem.digest then Invalid(DigestMismatch)
      else Valid(serial, cert.employeeId, cert.deviceId, cert.userId)
  }

  /** Format, parsing and validity period, which need no database. */
  function Screen(pem: Pem, now: int): (r: Option<Reason>)
    ensures r.None? ==> pem.info.Some? && pem.info.value.validFrom <= now <= pem.info.value.validTo
  {
    if !pem.wellFormed then Some(BadFormat)
    else if pem.info.None? then Some(Unparsable)
    else if now > pem.info.value.validTo then Some(OutOfDate)
    else if now < pem.info.value.validFrom then Some(NotYetValid)
    else None
  }

  /** Which thing about the presented bytes is wrong, the first in this order. */
  lemma ScreenedFor(pem: Pem, now: int)
    ensures var why := Screen(pem, now);
      && (why == Some(BadFormat) <==> !pem.wellFormed)
      && (why == Some(Unparsable) <==> pem.wellFormed && pem.info.None?)
      && (pem.wellFormed && pem.info.Some? ==>
            && (why == Some(OutOfDate) <==> now > pem.info.value.validTo)
            && (why == Some(NotYetValid) <==> now <= pem.info.value.validTo && now < pem.info.value.validFrom)
            && (why.None? <==> pem.info.value.validFrom <= now <= pem.info.value.validTo))
  {
  }

  /**
   * The reason given for refusing a stored certificate: REVOKED before a revocation record, that with
   * its reason, then another device's fingerprint, then no approved device, then other bytes.
   */
  lemma RefusedFor(db: Db, serial: string, pem: Pem, fp: string)
    requires serial in db.certs
    ensures var (v, cert) := (Judge(db, Some(serial), pem, fp), db.certs[serial]);
      var approved := exists d ::
        d in db.devices && db.devices[d].fingerprint == cert.deviceFingerprint && db.devices[d].status == APPROVED;
      && (v == Invalid(StatusRevoked) <==> cert.status == REVOKED)
      && (cert.status != REVOKED && serial in db.revocations ==>
            v == Invalid(RecordRevoked(db.revocations[serial].reason)))
      && (cert.status != REVOKED && serial !in db.revocations ==>
            && (v == Invalid(FingerprintMismatch) <==> fp != "" && fp != cert.deviceFingerprint)
            && (v == Invalid(DeviceNotTrusted) <==> fp in {"", cert.deviceFingerprint} && !approved)
            && (v == Invalid(DigestMismatch) <==>
                  fp in {"", cert.deviceFingerprint} && approved && cert.fingerprint != pem.digest)
            && (v.Valid? <==> fp in {"", cert.deviceFingerprint} && approved && cert.fingerprint == pem.digest))
  {
  }

  ghost function Verify(db: Db, pem: Pem, deviceFingerprint: string, now: int): Verdict {
    var screened := Screen(pem, now);
    if screened.Some? then Invalid(screened.value)
    else Judge(db, TwoStageFind(db, pem.info.value.serialNumber), pem, deviceFingerprint)
  }

  /** A find that the two lookups may make: the exact spelling, else any match the scan comes upon first. */
  ghost predicate MayFind(db: Db, serial: string, found: Option<string>) {
    if serial in db.certs then found == Some(serial)
    else if found.Some? then found.value in Unrevoked(db) && Serials.Normalize(found.value) == Serials.Normalize(serial)
    else forall s :: s in Unrevoked(db) ==> Serials.Normalize(s) != Serials.Normalize(serial)
  }

  /** An answer verifyCertificate may give, whatever order the database returns certificates in. */
  ghost predicate MayAnswer(db: Db, pem: Pem, deviceFingerprint: string, now: int, v: Verdict) {
    var screened := Screen(pem, now);
    if screened.Some? then v == Invalid(screened.value)
    else exists found {:trigger MayFind(db, pem.info.value.serialNumber, found)} ::
           MayFind(db, pem.info.value.serialNumber, found) && v == Judge(db, found, pem, deviceFingerprint)
  }

  /** `Verify` is one of them, and with distinct serials the only one. */
  lemma VerifyMayAnswer(db: Db, pem: Pem, fp: string, now: int, v: Verdict)
    ensures MayAnswer(db, pem, fp, now, Verify(db, pem, fp, now))
    ensures DistinctSerials(db) && MayAnswer(db, pem, fp, now, v) ==> v == Verify(db, pem, fp, now)
  {
    if Screen(pem, now).None? {
      var serial := pem.info.value.serialNumber;
      assert MayFind(db, serial, TwoStageFind(db, serial));
      forall found | DistinctSerials(db) && MayFind(db, serial, found) ensures found == TwoStageFind(db, serial) { }
    }
  }

  /** Everything that has to hold of a stored certificate for a presented one to be accepted. */
  ghost predicate Trustworthy(db: Db, serial: string, pem: Pem, deviceFingerprint: string, now: int) {
    && pem.wellFormed && pem.info.Some? && pem.info.value.validFrom <= now <= pem.info.value.validTo
    && serial in db.certs && Serials.Normalize(serial) == Serials.Normalize(pem.info.value.serialNumber)
    && var cert := db.certs[serial];
       && cert.status != REVOKED && serial !in db.revocations
       && cert.fingerprint == pem.digest
       && cert.deviceId in db.devices
       && var device := db.devices[cert.deviceId];
          device.status == APPROVED && (deviceFingerprint == "" || device.fingerprint == deviceFingerprint)
  }

  /**
   * Safety, on any sound store and whatever the CA has done: an answer of `valid` is for a stored
   * certificate that is trustworthy, and it names that certificate's device and the device's owner.
   */
  lemma ValidOnlyWhenTrustworthy(db: Db, pem: Pem, fp: string, now: int, v: Verdict)
    requires Sound(db) && MayAnswer(db, pem, fp, now, v) && v.Valid?
    ensures Trustworthy(db, v.serialNumber, pem, fp, now)
    ensures var device := db.devices[db.certs[v.serialNumber].deviceId];
      v == Valid(v.serialNumber, device.employeeId, db.certs[v.serialNumber].deviceId, device.userId)
  {
    var found :| MayFind(db, pem.info.value.serialNumber, found) && v == Judge(db, found, pem, fp);
    var cert := db.certs[v.serialNumber];
    assert OwnedByDevice(db, cert);
    assert DeviceTrusted(db, cert.deviceFingerprint);
  }

  /**
   * Verification answers `valid` exactly for a certificate that is unrevoked on both counts, hashes
   * to the stored fingerprint and belongs to a device that is APPROVED now; and the answer names
   * that device and its owner.
   */
  lemma ValidExactlyWhenTrustworthy(db: Db, serial: string, pem: Pem, fp: string, now: int)
    requires Sound(db) && DistinctSerials(db)
    ensures Trustworthy(db, serial, pem, fp, now) <==>
            Verify(db, pem, fp, now).Valid? && Verify(db, pem, fp, now).serialNumber == serial
    ensures Trustworthy(db, serial, pem, fp, now) ==>
            var v, device := Verify(db, pem, fp, now), db.devices[db.certs[serial].deviceId];
            v == Valid(serial, device.employeeId, db.certs[serial].deviceId, device.userId)
  {
    if serial in db.certs {
      var cert := db.certs[serial];
      assert OwnedByDevice(db, cert);
      assert DeviceTrusted(db, cert.deviceFingerprint) <==> db.devices[cert.deviceId].status == APPROVED;
    }
    if Trustworthy(db, serial, pem, fp, now) {
      assert serial in Unrevoked(db);
      assert TwoStageFind(db, pem.info.value.serialNumber) == Some(serial);
    }
  }

  /**
   * The two-stage lookup decides like a single lookup by normalised serial. The verdicts differ
   * only in the reason, and only for a REVOKED certificate presented in another spelling.
   */
  lemma TwoStageAgreesWithNormalFind(db: Db, pem: Pem, fp: string)
    requires DistinctSerials(db) && pem.info.Some?
    ensures var serial := pem.info.value.serialNumber;
      var staged, simple := Judge(db, TwoStageFind(db, serial), pem, fp), Judge(db, NormalFind(db, serial), pem, fp);
      && (staged.Valid? <==> simple.Valid?)
      && (staged.Valid? ==> staged == simple)
      && (staged == simple <==>
          !exists s :: s in db.certs && s != serial && Serials.Normalize(s) == Serials.Normalize(serial) &&
            db.certs[s].status == REVOKED)
  {
    var serial := pem.info.value.serialNumber;
    var found := NormalFind(db, serial);
    if found.Some? {
      assert serial in db.certs ==> found.value == serial;
      if serial !in db.certs {
        if db.certs[found.value].status != REVOKED {
          assert found.value in Unrevoked(db);
        } else {
          assert TwoStageFind(db, serial).None?;
        }
      }
    } else {
      assert serial !in db.certs;
    }
  }
}
