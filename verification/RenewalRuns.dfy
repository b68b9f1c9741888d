/**
 * What runs of the renewal protocol come to: what a verification that other requests interrupt still
 * guarantees, and which devices can get another certificate.
 */
module RenewalRuns {
  import opened Common
  import opened TrustStore
  import opened RenewalProtocol
  import Serials

  /** The state before the k-th action. */
  ghost function At(actions: seq<Action>, k: nat): State
    requires k <= |actions|
  {
    Run(EMPTY, actions[..k])
  }

  lemma {:induction false} RunSnoc(s: State, actions: seq<Action>, a: Action)
    ensures Run(s, actions + [a]) == Apply(Run(s, actions), a)
    decreases |actions|
  {
    var all := actions + [a];
    if actions == [] {
      assert all[1..] == [] && Run(Apply(s, a), []) == Apply(s, a);
    } else {
      assert all[0] == actions[0] && all[1..] == actions[1..] + [a];
      RunSnoc(Apply(s, actions[0]), actions[1..], a);
    }
  }

  lemma AtNext(actions: seq<Action>, k: nat)
    requires k < |actions|
    ensures At(actions, k + 1) == Apply(At(actions, k), actions[k]) && Inv(At(actions, k))
  {
    assert actions[..k + 1] == actions[..k] + [actions[k]];
    RunSnoc(EMPTY, actions[..k], actions[k]);
    EmptyInv();
    RunKeepsInv(EMPTY, actions[..k]);
  }

  lemma AtEnd(actions: seq<Action>)
    ensures At(actions, |actions|) == Run(EMPTY, actions) && Inv(Run(EMPTY, actions))
  {
    assert actions[..|actions|] == actions;
    EmptyInv();
    RunKeepsInv(EMPTY, actions);
  }

  /** Documents and requests stay. */
  ghost predicate Follows(s: State, t: State) {
    Grows(s.db, t.db) && s.processes.Keys <= t.processes.Keys
  }

  lemma FollowsItself(s: State)
    ensures Follows(s, s)
  {
  }

  lemma StepFollows(s: State, a: Action)
    requires Inv(s)
    ensures Follows(s, Apply(s, a))
  {
    ApplyKeepsInv(s, a);
  }

  lemma FollowsTransitive(s: State, t: State, u: State)
    requires Follows(s, t) && Follows(t, u)
    ensures Follows(s, u)
  {
    GrowsTransitive(s.db, t.db, u.db);
  }

  lemma {:induction false} Later(actions: seq<Action>, j: nat, k: nat)
    requires j <= k <= |actions|
    ensures Follows(At(actions, j), At(actions, k))
    decreases k - j
  {
    if j < k {
      Later(actions, j, k - 1);
      AtNext(actions, k - 1);
      StepFollows(At(actions, k - 1), actions[k - 1]);
      FollowsTransitive(At(actions, j), At(actions, k - 1), At(actions, k));
    } else {
      FollowsItself(At(actions, j));
    }
  }

  // ---- Verification, read by read ----------------------------------------------------------

  /** Neither mark of revocation. */
  predicate Unmarked(db: Db, serial: string) {
    serial in db.certs && db.certs[serial].status != REVOKED && serial !in db.revocations
  }

  /** With the k-th action the request reads the clock, inside the validity period. */
  ghost predicate Screened(actions: seq<Action>, k: nat, id: nat, pem: Pem, fp: string) {
    && k < |actions| && actions[k].Advance? && actions[k].id == id && Screen(pem, actions[k].outside.now).None?
    && id in At(actions, k).processes && At(actions, k).processes[id] == RenewLookup(pem, fp)
  }

  /** With the k-th action the request looks the certificate up, and it carries neither mark. */
  ghost predicate LookedUp(actions: seq<Action>, k: nat, id: nat, pem: Pem, fp: string, serial: string) {
    && k < |actions| && pem.info.Some? && Serials.Normalize(serial) == Serials.Normalize(pem.info.value.serialNumber)
    && Unmarked(At(actions, k).db, serial) && id in At(actions, k).processes
    && At(actions, k).processes[id] in {RenewLookup(pem, fp), RenewScan(pem, fp)}
  }

  /** With the k-th action the request looks for a revocation record, and there is none. */
  ghost predicate RecordSought(actions: seq<Action>, k: nat, id: nat, pem: Pem, fp: string, serial: string) {
    && k < |actions| && serial !in At(actions, k).db.revocations && id in At(actions, k).processes
    && At(actions, k).processes[id].RenewRecords? && At(actions, k).processes[id].pem == pem
    && At(actions, k).processes[id].fingerprint == fp && At(actions, k).processes[id].serial == serial
  }

  ghost predicate UpToScan(actions: seq<Action>, n: nat, id: nat, pem: Pem, fp: string) {
    exists i: nat :: i < n && Screened(actions, i, id, pem, fp)
  }

  ghost predicate UpToLookup(actions: seq<Action>, n: nat, id: nat, pem: Pem, fp: string, serial: string) {
    exists j: nat :: j < n && LookedUp(actions, j, id, pem, fp, serial) && UpToScan(actions, j + 1, id, pem, fp)
  }

  /** The clock, the certificate and the records were read in this order, each before the n-th action. */
  ghost predicate UpToRecords(actions: seq<Action>, n: nat, id: nat, pem: Pem, fp: string, serial: string) {
    exists k: nat ::
      k < n && RecordSought(actions, k, id, pem, fp, serial) && UpToLookup(actions, k, id, pem, fp, serial)
  }

  ghost predicate Traced(actions: seq<Action>, n: nat, id: nat)
    requires n <= |actions|
  {
    id in At(actions, n).processes ==>
      match At(actions, n).processes[id]
      case RenewScan(pem, fp) => UpToScan(actions, n, id, pem, fp)
      case RenewRecords(pem, fp, serial, _) => UpToLookup(actions, n, id, pem, fp, serial)
      case RenewTrust(pem, fp, serial, _) => UpToRecords(actions, n, id, pem, fp, serial)
      case _ => true
  }

  /** What a lookup goes on with: a certificate that carries neither mark. */
  ghost predicate ReadsCertificate(db: Db, pem: Pem, fp: string, q: Process) {
    && q.RenewRecords? && q.pem == pem && q.fingerprint == fp && Unmarked(db, q.serial)
    && pem.info.Some? && Serials.Normalize(q.serial) == Serials.Normalize(pem.info.value.serialNumber)
  }

  lemma LookupReads(db: Db, pem: Pem, fp: string, o: Outside)
    requires Sound(db)
    ensures var q := Next(db, RenewLookup(pem, fp), o).1;
      q.Finished? || (Screen(pem, o.now).None? && (q == RenewScan(pem, fp) || ReadsCertificate(db, pem, fp, q)))
  {
  }

  lemma ScanReads(db: Db, pem: Pem, fp: string, o: Outside)
    requires Sound(db)
    ensures var q := Next(db, RenewScan(pem, fp), o).1; q.Finished? || ReadsCertificate(db, pem, fp, q)
  {
  }

  lemma OthersStay(s: State, a: Action, id: nat)
    requires id in Apply(s, a).processes && !(a.Advance? && a.id == id)
    ensures var q := Apply(s, a).processes[id];
      (id in s.processes && q == s.processes[id]) || q == Finished || IsRequest(q)
  {
  }

  lemma Stepped(actions: seq<Action>, n: nat, id: nat)
    requires n < |actions| && actions[n].Advance? && actions[n].id == id && id in At(actions, n).processes
    ensures Inv(At(actions, n)) && id in At(actions, n + 1).processes
    ensures var s := At(actions, n);
      At(actions, n + 1).processes[id] == Next(s.db, s.processes[id], actions[n].outside).1
  {
    AtNext(actions, n);
  }

  /** A step of a verification adds what it has just read to its trace. */
  lemma TraceNext(actions: seq<Action>, n: nat, id: nat)
    requires n < |actions| && actions[n].Advance? && actions[n].id == id && id in At(actions, n).processes
    requires Traced(actions, n, id)
    ensures Traced(actions, n + 1, id)
  {
    Stepped(actions, n, id);
    var s, o := At(actions, n), actions[n].outside;
    var q := Next(s.db, s.processes[id], o).1;
    match s.processes[id]
    case RenewLookup(pem, fp) =>
      LookupReads(s.db, pem, fp, o);
      assert !q.Finished? ==> Screened(actions, n, id, pem, fp);
      assert q.RenewRecords? ==> LookedUp(actions, n, id, pem, fp, q.serial);
    case RenewScan(pem, fp) =>
      ScanReads(s.db, pem, fp, o);
      var i: nat :| i < n && Screened(actions, i, id, pem, fp);
      assert UpToScan(actions, n + 1, id, pem, fp);
      assert q.RenewRecords? ==> LookedUp(actions, n, id, pem, fp, q.serial);
    case RenewRecords(pem, fp, serial, _) =>
      assert q.RenewTrust? ==> RecordSought(actions, n, id, pem, fp, serial);
    case _ =>
  }

  lemma {:induction false} Trace(actions: seq<Action>, n: nat, id: nat)
    requires n <= |actions|
    ensures Traced(actions, n, id)
  {
    if n > 0 && id in At(actions, n).processes {
      Trace(actions, n - 1, id);
      AtNext(actions, n - 1);
      var s, a := At(actions, n - 1), actions[n - 1];
      if a.Advance? && a.id == id { TraceNext(actions, n - 1, id); }
      else { OthersStay(s, a, id); }
    }
  }

  /** The last check of a verification passes; a login's ends here, a renewal's goes on to revoke. */
  ghost predicate Accepts(s: State, id: nat, o: Outside) {
    id in s.processes && s.processes[id].RenewTrust? && Next(s.db, s.processes[id], o).1.RevokeRead?
  }

  /**
   * What `valid` means when other requests came between the reads. The certificate was found while it
   * carried neither mark, inside its validity period by a clock read before that, and no record of it
   * was there at the read after; at this moment its bytes hash to the stored fingerprint, and the
   * device it names has the fingerprint presented, is APPROVED and belongs to the user it names.
   */
  lemma InterleavedValid(actions: seq<Action>, id: nat, o: Outside)
    requires Accepts(Run(EMPTY, actions), id, o)
    ensures var s := Run(EMPTY, actions);
      var p := s.processes[id];
      && UpToRecords(actions, |actions|, id, p.pem, p.fingerprint, p.serial)
      && p.serial in s.db.certs && s.db.certs[p.serial].fingerprint == p.pem.digest
      && s.db.certs[p.serial].deviceId == p.cert.deviceId && p.cert.deviceId in s.db.devices
      && var device := s.db.devices[p.cert.deviceId];
         && device.status == APPROVED && device.fingerprint == p.fingerprint
         && device.userId == p.cert.userId && device.employeeId == p.cert.employeeId
  {
    AtEnd(actions);
    Trace(actions, |actions|, id);
    var s := Run(EMPTY, actions);
    assert LocalsOk(s.db, s.processes[id]);
    assert OwnedByDevice(s.db, s.db.certs[s.processes[id].serial]);
  }

  lemma LookupOf(actions: seq<Action>, id: nat, pem: Pem, fp: string, serial: string) returns (j: nat)
    requires UpToRecords(actions, |actions|, id, pem, fp, serial)
    ensures LookedUp(actions, j, id, pem, fp, serial)
  {
    var k: nat :|
      k < |actions| && RecordSought(actions, k, id, pem, fp, serial) && UpToLookup(actions, k, id, pem, fp, serial);
    assert UpToLookup(actions, k, id, pem, fp, serial);
    j :| j < k && LookedUp(actions, j, id, pem, fp, serial) && UpToScan(actions, j + 1, id, pem, fp);
  }

  lemma BeganLater(actions: seq<Action>, j: nat, k: nat, id: nat)
    requires j <= |actions| && k <= |actions| && id !in At(actions, j).processes && id in At(actions, k).processes
    ensures j < k
  {
    if k <= j { Later(actions, k, j); }
  }

  /** Marks of revocation stay. */
  lemma UnmarkedEarlier(actions: seq<Action>, j: nat, k: nat, serial: string)
    requires j <= k <= |actions| && Unmarked(At(actions, k).db, serial) && serial in At(actions, j).db.certs
    ensures Unmarked(At(actions, j).db, serial)
  {
    Later(actions, j, k);
  }

  /** A verification that begins after the certificate is revoked, on either count, never accepts it. */
  lemma RevokedBeforehand(actions: seq<Action>, id: nat, o: Outside, j: nat)
    requires j <= |actions| && id !in At(actions, j).processes && Accepts(Run(EMPTY, actions), id, o)
    ensures var serial := Run(EMPTY, actions).processes[id].serial;
      serial in At(actions, j).db.certs ==> Unmarked(At(actions, j).db, serial)
  {
    InterleavedValid(actions, id, o);
    var p := Run(EMPTY, actions).processes[id];
    var k := LookupOf(actions, id, p.pem, p.fingerprint, p.serial);
    BeganLater(actions, j, k, id);
    if p.serial in At(actions, j).db.certs { UnmarkedEarlier(actions, j, k, p.serial); }
  }

  // ---- A run in which `valid` comes after the revocation -----------------------------------

  lemma RunThree(s: State, a: Action, b: Action, c: Action, rest: seq<Action>)
    ensures Run(s, [a, b, c] + rest) == Run(Apply(Apply(Apply(s, a), b), c), rest)
  {
    var all := [a, b, c] + rest;
    assert all[1..] == [b, c] + rest && all[1..][1..] == [c] + rest && all[1..][1..][1..] == rest;
    assert Run(s, all) == Run(Apply(s, a), all[1..]);
    assert Run(Apply(s, a), all[1..]) == Run(Apply(Apply(s, a), b), all[1..][1..]);
  }

  lemma RunFour(s: State, a: Action, b: Action, c: Action, d: Action)
    ensures Run(s, [a, b, c] + ([d] + [])) == Apply(Apply(Apply(Apply(s, a), b), c), d)
  {
    var t := Apply(Apply(Apply(s, a), b), c);
    RunThree(s, a, b, c, [d] + []);
    assert ([d] + [])[1..] == [] && Run(t, [d] + []) == Run(Apply(t, d), []);
  }

  const STEP := Outside(0, "device", "01", "digest", 0)

  const DEVICE := Device("user", "employee", "fingerprint", APPROVED, None)

  const CERT := Certificate("user", "employee", "device", "fingerprint", "digest", 0, ACTIVE)

  const PEM := Pem(true, Some(CertInfo("01", 0, 0)), "digest")

  const ENROLLS := [Start(0, EnrollCheck("fingerprint", "user", "employee")), Advance(0, STEP), Advance(0, STEP)]
                   + ([Advance(0, STEP), Advance(0, STEP), Advance(0, STEP)] + [])

  const VERIFIES := [Start(1, RenewLookup(PEM, "fingerprint")), Advance(1, STEP), Advance(1, STEP)] + []

  const ADMIN := Admin("administrator", "")

  const REVOKES := [Start(2, RevokeRead("01", ADMIN)), Advance(2, STEP), Advance(2, STEP)] + ([Advance(2, STEP)] + [])

  lemma Enrolled()
    ensures Run(EMPTY, ENROLLS) ==
      State(Db(map["device" := DEVICE], map["01" := CERT], map[]), map[0 := BindStep("device", "01")], {})
  {
    var first := Advance(0, STEP);
    var approving := State(
      Db(map["device" := DEVICE.(status := DeviceStatus.PENDING)], map[], map[]),
      map[0 := ApproveRead("device", "fingerprint", "user", "employee")], {});
    RunThree(EMPTY, Start(0, EnrollCheck("fingerprint", "user", "employee")), first, first, [first, first, first] + []);
    EnrollBegins(approving);
    RunThree(approving, first, first, first, []);
    EnrollSigns(approving);
  }

  lemma EnrollBegins(after: State)
    requires after == State(
      Db(map["device" := DEVICE.(status := DeviceStatus.PENDING)], map[], map[]),
      map[0 := ApproveRead("device", "fingerprint", "user", "employee")], {})
    ensures Apply(Apply(Apply(EMPTY, Start(0, EnrollCheck("fingerprint", "user", "employee"))), Advance(0, STEP)),
                  Advance(0, STEP)) == after
  {
    var s1 := Apply(EMPTY, Start(0, EnrollCheck("fingerprint", "user", "employee")));
    assert s1 == EMPTY.(processes := map[0 := EnrollCheck("fingerprint", "user", "employee")]);
    var s2 := EMPTY.(processes := map[0 := EnrollInsert("fingerprint", "user", "employee")]);
    assert Apply(s1, Advance(0, STEP)).processes == s2.processes;
    assert Apply(s1, Advance(0, STEP)) == s2;
    assert Apply(s2, Advance(0, STEP)).db.devices == after.db.devices;
  }

  lemma EnrollSigns(before: State)
    requires before == State(
      Db(map["device" := DEVICE.(status := DeviceStatus.PENDING)], map[], map[]),
      map[0 := ApproveRead("device", "fingerprint", "user", "employee")], {})
    ensures Apply(Apply(Apply(before, Advance(0, STEP)), Advance(0, STEP)), Advance(0, STEP)) ==
      State(Db(map["device" := DEVICE], map["01" := CERT], map[]), map[0 := BindStep("device", "01")], {})
  {
    var a := Advance(0, STEP);
    var s1 := before.(processes := map[0 := ApproveSave("device", "fingerprint", "user", "employee")]);
    assert Apply(before, a) == s1;
    var s2 := State(before.db.(devices := map["device" := DEVICE]),
                    map[0 := EnrollSign("device", "fingerprint", "user", "employee")], {});
    assert Apply(s1, a) == s2;
  }

  /** A step by what `Next` gives. */
  lemma StepTo(s: State, id: nat, db: Db, q: Process)
    requires id in s.processes && !s.processes[id].RenewSign? && Next(s.db, s.processes[id], STEP) == (db, q)
    ensures Apply(s, Advance(id, STEP)) == State(db, s.processes[id := q], s.successions)
  {
  }

  lemma StartsWith(s: State, id: nat, p: Process)
    requires id !in s.processes && IsRequest(p)
    ensures Apply(s, Start(id, p)) == s.(processes := s.processes[id := p])
  {
  }

  lemma Verifies(s: State)
    requires s.db == Db(map["device" := DEVICE], map["01" := CERT], map[]) && 1 !in s.processes
    ensures Run(s, VERIFIES) == s.(processes := s.processes[1 := RenewTrust(PEM, "fingerprint", "01", CERT)])
  {
    var lookup, records := RenewLookup(PEM, "fingerprint"), RenewRecords(PEM, "fingerprint", "01", CERT);
    StartsWith(s, 1, lookup);
    var s1 := s.(processes := s.processes[1 := lookup]);
    FindsIt(s.db);
    StepTo(s1, 1, s.db, records);
    assert s1.processes[1 := records] == s.processes[1 := records];
    var s2 := s.(processes := s.processes[1 := records]);
    FindsNoRecord(s.db);
    StepTo(s2, 1, s.db, RenewTrust(PEM, "fingerprint", "01", CERT));
    RunThree(s, Start(1, lookup), Advance(1, STEP), Advance(1, STEP), []);
  }

  lemma FindsIt(db: Db)
    requires db.certs == map["01" := CERT]
    ensures Next(db, RenewLookup(PEM, "fingerprint"), STEP) == (db, RenewRecords(PEM, "fingerprint", "01", CERT))
  {
  }

  lemma FindsNoRecord(db: Db)
    requires db.revocations == map[]
    ensures Next(db, RenewRecords(PEM, "fingerprint", "01", CERT), STEP) ==
      (db, RenewTrust(PEM, "fingerprint", "01", CERT))
  {
  }

  /** An administrator's revocation, up to its record. */
  lemma ReadThenSave(s: State, id: nat, serial: string)
    requires id in s.processes && s.processes[id] == RevokeRead(serial, ADMIN)
    requires serial in s.db.certs && s.db.certs[serial].status != REVOKED
    ensures var record := RevokeRecord(serial, s.db.certs[serial], ADMIN);
      Apply(Apply(s, Advance(id, STEP)), Advance(id, STEP)) ==
        State(SaveRevoked(s.db, serial), s.processes[id := record], s.successions)
  {
    var save, record := RevokeSave(serial, s.db.certs[serial], ADMIN), RevokeRecord(serial, s.db.certs[serial], ADMIN);
    StepTo(s, id, s.db, save);
    StepTo(s.(processes := s.processes[id := save]), id, SaveRevoked(s.db, serial), record);
    assert s.processes[id := save][id := record] == s.processes[id := record];
  }

  lemma ThenRecord(s: State, id: nat, serial: string, cert: Certificate)
    requires id in s.processes && s.processes[id] == RevokeRecord(serial, cert, ADMIN) && serial !in s.db.revocations
    ensures var t := Apply(s, Advance(id, STEP));
      t.db == s.db.(revocations := t.db.revocations) && serial in t.db.revocations &&
        t.processes == s.processes[id := Finished]
  {
  }

  lemma RevokeSteps(s: State, id: nat, serial: string)
    requires id !in s.processes && serial in s.db.certs && s.db.certs[serial].status != REVOKED
    requires serial !in s.db.revocations
    ensures var a := Advance(id, STEP);
      var t := Apply(Apply(Apply(Apply(s, Start(id, RevokeRead(serial, ADMIN))), a), a), a);
      && t.db.devices == s.db.devices && t.db.certs == SaveRevoked(s.db, serial).certs
      && serial in t.db.revocations && t.processes == s.processes[id := Finished]
  {
    var read, record := RevokeRead(serial, ADMIN), RevokeRecord(serial, s.db.certs[serial], ADMIN);
    StartsWith(s, id, read);
    var s1 := s.(processes := s.processes[id := read]);
    ReadThenSave(s1, id, serial);
    assert s1.processes[id := record] == s.processes[id := record];
    var s3 := State(SaveRevoked(s.db, serial), s.processes[id := record], s.successions);
    ThenRecord(s3, id, serial, s.db.certs[serial]);
    assert s3.processes[id := Finished] == s.processes[id := Finished];
  }

  lemma Revokes(s: State)
    requires s.db == Db(map["device" := DEVICE], map["01" := CERT], map[]) && 2 !in s.processes
    ensures var t := Run(s, REVOKES);
      && t.db.devices == s.db.devices && t.db.certs == map["01" := CERT.(status := REVOKED)]
      && "01" in t.db.revocations && t.processes == s.processes[2 := Finished]
  {
    RevokeSteps(s, 2, "01");
    RunFour(s, Start(2, RevokeRead("01", ADMIN)), Advance(2, STEP), Advance(2, STEP), Advance(2, STEP));
  }

  lemma AcceptsStill(s: State, id: nat)
    requires id in s.processes && s.processes[id] == RenewTrust(PEM, "fingerprint", "01", CERT)
    requires s.db.devices == map["device" := DEVICE]
    ensures Accepts(s, id, STEP)
  {
    assert s.db.devices["device"].fingerprint == "fingerprint" && DeviceTrusted(s.db, "fingerprint");
  }

  /**
   * The two reads that look for revocation come first, so that a revocation after them goes unseen:
   * a run from the empty store in which a verification accepts a certificate that is REVOKED and recorded.
   */
  lemma ValidAfterRevocation()
    ensures var s := Run(Run(Run(EMPTY, ENROLLS), VERIFIES), REVOKES);
      && "01" in s.db.certs && s.db.certs["01"].status == REVOKED && "01" in s.db.revocations
      && Accepts(s, 1, STEP) && s.processes[1].serial == "01"
  {
    Enrolled();
    var enrolled := Run(EMPTY, ENROLLS);
    Verifies(enrolled);
    var verified := Run(enrolled, VERIFIES);
    Revokes(verified);
    AcceptsStill(Run(verified, REVOKES), 1);
  }

  // ---- Revocation records ------------------------------------------------------------------

  /** Every record names the user and the device of its certificate. */
  ghost predicate RecordsMatch(db: Db) {
    forall c :: c in db.revocations ==>
      && c in db.certs && db.revocations[c].userId == db.certs[c].userId
      && db.revocations[c].deviceId == db.certs[c].deviceId
  }

  lemma NextRecords(db: Db, p: Process, o: Outside)
    requires LocalsOk(db, p) && RecordsMatch(db)
    ensures RecordsMatch(Next(db, p, o).0)
  {
    if p.RevokeRecord? {
      assert SnapshotOf(db, p.cert, p.serial);
    } else {
      UnrecordedStep(db, p, o);
    }
  }

  /** Any other step leaves the records alone, and the users and devices that certificates name. */
  lemma UnrecordedStep(db: Db, p: Process, o: Outside)
    requires !p.RevokeRecord?
    ensures var after := Next(db, p, o).0;
      && after.revocations == db.revocations
      && forall c :: c in db.certs ==> c in after.certs && SnapshotOf(after, db.certs[c], c)
  {
  }

  lemma {:induction false} RunRecords(s: State, actions: seq<Action>)
    requires Inv(s) && RecordsMatch(s.db)
    ensures RecordsMatch(Run(s, actions).db)
    decreases |actions|
  {
    if actions != [] {
      var a, next, rest := actions[0], Apply(s, actions[0]), actions[1..];
      ApplyKeepsInv(s, a);
      if a.Advance? && a.id in s.processes {
        assert LocalsOk(s.db, s.processes[a.id]);
        NextRecords(s.db, s.processes[a.id], a.outside);
      }
      RunRecords(next, rest);
      assert Run(s, actions) == Run(next, rest);
    }
  }

  /** In every reachable state a revocation record names the user and the device of a certificate that is REVOKED. */
  lemma RecordsNameOwners(actions: seq<Action>, serial: string)
    requires serial in Run(EMPTY, actions).db.revocations
    ensures var db := Run(EMPTY, actions).db;
      && serial in db.certs && db.certs[serial].status == REVOKED
      && db.revocations[serial].userId == db.certs[serial].userId
      && db.revocations[serial].deviceId == db.certs[serial].deviceId
  {
    EmptyInv();
    RunKeepsInv(EMPTY, actions);
    RunRecords(EMPTY, actions);
  }
}
