/**
 * Which devices can get another certificate by enrollment or renewal, as time goes on: a certificate
 * that has expired is not renewed, and the fingerprint of its device is taken for enrollment.
 */
module DeviceFutures {
  import opened Common
  import opened TrustStore
  import opened RenewalProtocol
  import opened StrandedDevices
  import RenewalRuns
  import Serials

  // ---- Time, and what a certificate says of itself -----------------------------------------

  /** What the certificate whose bytes have a given hash says: its serial number and validity period. */
  type Contents = string -> CertInfo

  /** Whatever a certificate is to say, there are bytes that say it. */
  ghost predicate Writes(write: CertInfo -> string, read: Contents) {
    forall info: CertInfo :: read(write(info)) == info
  }

  /** The CA answers with the number and the expiry of the certificate it returns, whose period is not empty. */
  predicate Attests(read: Contents, serial: string, digest: string, validTo: int) {
    && read(digest).validTo == validTo && read(digest).validFrom <= validTo
    && Serials.Normalize(read(digest).serialNumber) == Serials.Normalize(serial)
  }

  /** The clock does not go back, what is presented is what its bytes say, and the CA answers truly. */
  ghost predicate Truthful(read: Contents, s: State, clock: int, a: Action) {
    match a
    case Start(_, p) => p.RenewLookup? && p.pem.info.Some? ==> p.pem.info.value == read(p.pem.digest)
    case Advance(id, o) =>
      && clock <= o.now
      && (id in s.processes && (s.processes[id].EnrollSign? || s.processes[id].RenewSign?) ==>
            Attests(read, o.serial, o.digest, o.validTo))
    case _ => true
  }

  function Tick(clock: int, a: Action): int {
    if a.Advance? then a.outside.now else clock
  }

  function ClockAfter(clock: int, actions: seq<Action>): int
    decreases |actions|
  {
    if actions == [] then clock else ClockAfter(Tick(clock, actions[0]), actions[1..])
  }

  ghost predicate Timely(read: Contents, s: State, clock: int, actions: seq<Action>)
    decreases |actions|
  {
    actions == [] ||
    (Truthful(read, s, clock, actions[0])
     && Timely(read, Apply(s, actions[0]), Tick(clock, actions[0]), actions[1..]))
  }

  /** A run that can be: timely, and the CA never issues a number again. */
  ghost predicate Plausible(read: Contents, s: State, clock: int, actions: seq<Action>) {
    Timely(read, s, clock, actions) && CaContract(s, actions)
  }

  ghost predicate Attested(read: Contents, db: Db) {
    forall c :: c in db.certs ==> Attests(read, c, db.certs[c].fingerprint, db.certs[c].validTo)
  }

  predicate Presented(read: Contents, p: Process) {
    && (p.RenewLookup? && p.pem.info.Some? ==> p.pem.info.value == read(p.pem.digest))
    && (p.RenewScan? || p.RenewRecords? || p.RenewTrust? ==> p.pem.info == Some(read(p.pem.digest)))
  }

  /** What timely runs keep. */
  ghost predicate Kept(read: Contents, s: State) {
    Attested(read, s.db) && forall id :: id in s.processes ==> Presented(read, s.processes[id])
  }

  lemma NextPresented(read: Contents, db: Db, p: Process, o: Outside)
    requires Presented(read, p)
    ensures Presented(read, Next(db, p, o).1)
  {
  }

  lemma NextAttested(read: Contents, db: Db, p: Process, o: Outside)
    requires Attested(read, db)
    requires p.EnrollSign? || p.RenewSign? ==> Attests(read, o.serial, o.digest, o.validTo)
    ensures Attested(read, Next(db, p, o).0)
  {
    var after := Next(db, p, o).0;
    forall c | c in after.certs ensures Attests(read, c, after.certs[c].fingerprint, after.certs[c].validTo) {
      assert c in db.certs ==> after.certs[c] == db.certs[c].(status := after.certs[c].status);
    }
  }

  lemma StepKept(read: Contents, s: State, clock: int, a: Action)
    requires Kept(read, s) && Truthful(read, s, clock, a)
    ensures Kept(read, Apply(s, a))
  {
    if a.Advance? && a.id in s.processes {
      NextPresented(read, s.db, s.processes[a.id], a.outside);
      NextAttested(read, s.db, s.processes[a.id], a.outside);
    }
  }

  lemma {:induction false} RunKept(read: Contents, s: State, clock: int, actions: seq<Action>)
    requires Kept(read, s) && Timely(read, s, clock, actions)
    ensures Kept(read, Run(s, actions))
    decreases |actions|
  {
    if actions != [] {
      var next, rest := Apply(s, actions[0]), actions[1..];
      StepKept(read, s, clock, actions[0]);
      RunKept(read, next, Tick(clock, actions[0]), rest);
      assert Run(s, actions) == Run(next, rest);
    }
  }

  ghost predicate AllFingerprinted(db: Db) {
    forall d :: d in db.devices ==> db.devices[d].fingerprint != ""
  }

  /** No device and no request to come to one has an empty fingerprint. */
  ghost predicate Fingerprinted(s: State) {
    AllFingerprinted(s.db) && forall id :: id in s.processes ==> Brings(s.processes[id])
  }

  predicate Brings(p: Process) {
    p.RegisterCheck? || p.RegisterInsert? || p.EnrollCheck? || p.EnrollInsert? ==> p.fingerprint != ""
  }

  lemma EnrollBrings(db: Db, p: Process, o: Outside)
    requires Brings(p) && AllFingerprinted(db)
    ensures Brings(NextEnroll(db, p, o).1) && AllFingerprinted(NextEnroll(db, p, o).0)
  {
  }

  lemma RevokeBrings(db: Db, p: Process, o: Outside)
    requires AllFingerprinted(db)
    ensures Brings(NextRevoke(db, p, o).1) && AllFingerprinted(NextRevoke(db, p, o).0)
  {
  }

  lemma NextBrings(db: Db, p: Process, o: Outside)
    requires Brings(p) && AllFingerprinted(db)
    ensures Brings(Next(db, p, o).1) && AllFingerprinted(Next(db, p, o).0)
  {
    EnrollBrings(db, p, o);
    RevokeBrings(db, p, o);
  }

  lemma {:induction false} RunFingerprinted(s: State, actions: seq<Action>)
    requires Fingerprinted(s)
    ensures Fingerprinted(Run(s, actions))
    decreases |actions|
  {
    if actions != [] {
      var a, next := actions[0], Apply(s, actions[0]);
      if a.Advance? && a.id in s.processes { NextBrings(s.db, s.processes[a.id], a.outside); }
      RunFingerprinted(next, actions[1..]);
      assert Run(s, actions) == Run(next, actions[1..]);
    }
  }

  // ---- Spent for good ----------------------------------------------------------------------

  /** A certificate of the device that a request may renew: not REVOKED, with these bytes and fingerprint. */
  ghost predicate Matches(db: Db, c: string, pem: Pem, fp: string, d: string) {
    && c in CertsOf(db, d) && db.certs[c].status != REVOKED
    && db.certs[c].fingerprint == pem.digest && db.certs[c].deviceFingerprint == fp
  }

  /** The request has read the clock for a certificate of the device and may still come to replace it. */
  ghost predicate Underway(db: Db, p: Process, d: string) {
    match p
    case RenewScan(pem, fp) => exists c :: Matches(db, c, pem, fp, d)
    case RenewRecords(pem, fp, serial, _) => Matches(db, serial, pem, fp, d)
    case RenewTrust(pem, fp, serial, _) => Matches(db, serial, pem, fp, d)
    case RevokeRead(serial, caller) => caller.Renewal? && serial in CertsOf(db, d) && db.certs[serial].status != REVOKED
    case _ => false
  }

  ghost predicate MayServe(db: Db, p: Process, d: string) {
    Serves(db, p, d) || Underway(db, p, d)
  }

  predicate Over(cert: Certificate, clock: int) {
    cert.status == REVOKED || clock > cert.validTo
  }

  /** Every certificate the device has is REVOKED or past its validity, and no request is past the clock for one. */
  ghost predicate Spent(s: State, clock: int, d: string) {
    && d in s.db.devices
    && (forall c :: c in CertsOf(s.db, d) ==> Over(s.db.certs[c], clock))
    && (forall id :: id in s.processes ==> !MayServe(s.db, s.processes[id], d))
  }

  /** A stranded device is spent at any time. */
  lemma StrandedIsSpent(s: State, clock: int, d: string)
    requires Stranded(s, d)
    ensures Spent(s, clock, d)
  {
  }

  /** What a step leaves does not serve the device. */
  ghost predicate Unhelpful(db: Db, p: Process, o: Outside, d: string) {
    var (after, q) := Next(db, p, o);
    !MayServe(after, q, d)
  }

  /** The clock read passes only while the certificate is inside its period. */
  lemma LookupUnhelpful(read: Contents, db: Db, pem: Pem, fp: string, o: Outside, d: string)
    requires Sound(db) && Attested(read, db) && Presented(read, RenewLookup(pem, fp))
    requires forall c :: c in CertsOf(db, d) ==> Over(db.certs[c], o.now)
    ensures Unhelpful(db, RenewLookup(pem, fp), o, d)
  {
    RenewalRuns.LookupReads(db, pem, fp, o);
    assert Screen(pem, o.now).None? ==> o.now <= read(pem.digest).validTo;
    forall c ensures Screen(pem, o.now).None? ==> !Matches(db, c, pem, fp, d) {
      if c in CertsOf(db, d) { assert Attests(read, c, db.certs[c].fingerprint, db.certs[c].validTo); }
    }
  }

  lemma ScanUnhelpful(db: Db, pem: Pem, fp: string, o: Outside, d: string)
    requires Sound(db) && !Underway(db, RenewScan(pem, fp), d)
    ensures Unhelpful(db, RenewScan(pem, fp), o, d)
  {
    RenewalRuns.ScanReads(db, pem, fp, o);
    assert forall c :: !Matches(db, c, pem, fp, d);
  }

  lemma ChecksUnhelpful(db: Db, p: Process, o: Outside, d: string)
    requires LocalsOk(db, p) && !Underway(db, p, d) && (p.RenewRecords? || p.RenewTrust?)
    ensures Unhelpful(db, p, o, d)
  {
  }

  lemma RevokeReadUnhelpful(db: Db, p: Process, o: Outside, d: string)
    requires !Underway(db, p, d) && p.RevokeRead?
    ensures Unhelpful(db, p, o, d)
  {
  }

  lemma OtherUnhelpful(db: Db, p: Process, o: Outside, d: string)
    requires LocalsOk(db, p) && d in db.devices && !Serves(db, p, d)
    requires !p.RenewLookup? && !p.RenewScan? && !p.RenewRecords? && !p.RenewTrust? && !p.RevokeRead?
    ensures Unhelpful(db, p, o, d)
  {
    NextReserves(db, p, o, d);
  }

  lemma NextUnhelpful(read: Contents, db: Db, p: Process, o: Outside, d: string)
    requires Sound(db) && Attested(read, db) && Presented(read, p) && LocalsOk(db, p)
    requires d in db.devices && !Serves(db, p, d) && !Underway(db, p, d)
    requires forall c :: c in CertsOf(db, d) ==> Over(db.certs[c], o.now)
    ensures Unhelpful(db, p, o, d)
  {
    match p
    case RenewLookup(pem, fp) => LookupUnhelpful(read, db, pem, fp, o, d);
    case RenewScan(pem, fp) => ScanUnhelpful(db, pem, fp, o, d);
    case RenewRecords(_, _, _, _) => ChecksUnhelpful(db, p, o, d);
    case RenewTrust(_, _, _, _) => ChecksUnhelpful(db, p, o, d);
    case RevokeRead(_, _) => RevokeReadUnhelpful(db, p, o, d);
    case _ => OtherUnhelpful(db, p, o, d);
  }

  lemma OthersMayServe(a: Db, b: Db, p: Process, d: string)
    requires Grows(a, b) && CertsOf(b, d) == CertsOf(a, d) && !MayServe(a, p, d)
    ensures !MayServe(b, p, d)
  {
    OthersServe(a, b, p, d);
    assert forall c :: c in CertsOf(a, d) ==> SnapshotOf(b, a.certs[c], c);
    forall c, pem, fp | Matches(b, c, pem, fp, d) ensures Matches(a, c, pem, fp, d) {
      assert c in CertsOf(a, d) && SnapshotOf(b, a.certs[c], c);
    }
  }

  lemma OthersSpent(s: State, t: State, clock: int, later: int, d: string)
    requires Spent(s, clock, d) && clock <= later && Grows(s.db, t.db) && CertsOf(t.db, d) == CertsOf(s.db, d)
    requires forall id :: id in t.processes ==>
      (id in s.processes && t.processes[id] == s.processes[id]) || !MayServe(t.db, t.processes[id], d)
    ensures Spent(t, later, d)
  {
    forall id | id in t.processes ensures !MayServe(t.db, t.processes[id], d) {
      if id in s.processes && t.processes[id] == s.processes[id] { OthersMayServe(s.db, t.db, s.processes[id], d); }
    }
    forall c | c in CertsOf(t.db, d) ensures Over(t.db.certs[c], later) {
      assert c in CertsOf(s.db, d) && SnapshotOf(t.db, s.db.certs[c], c);
    }
  }

  lemma AdvanceSpent(read: Contents, s: State, clock: int, id: nat, o: Outside, d: string)
    requires Inv(s) && Kept(read, s) && Spent(s, clock, d) && id in s.processes && clock <= o.now
    requires Grows(s.db, Apply(s, Advance(id, o)).db)
    ensures Spent(Apply(s, Advance(id, o)), o.now, d)
    ensures CertsOf(Apply(s, Advance(id, o)).db, d) == CertsOf(s.db, d)
  {
    var p := s.processes[id];
    assert LocalsOk(s.db, p) && Presented(read, p) && !MayServe(s.db, p, d);
    NextCerts(s.db, p, o, d);
    NextUnhelpful(read, s.db, p, o, d);
    OthersSpent(s, Apply(s, Advance(id, o)), clock, o.now, d);
  }

  lemma MoveSpent(s: State, id: nat, p: Process, clock: int, d: string)
    requires Spent(s, clock, d) && !MayServe(s.db, p, d)
    ensures Spent(s.(processes := s.processes[id := p]), clock, d)
  {
  }

  lemma StatusSpent(s: State, e: string, status: DeviceStatus, clock: int, d: string)
    requires Spent(s, clock, d)
    ensures Spent(s.(db := SaveDeviceStatus(s.db, e, status)), clock, d)
  {
    var t := s.(db := SaveDeviceStatus(s.db, e, status));
    assert t.db.certs == s.db.certs && t.db.revocations == s.db.revocations;
    assert CertsOf(t.db, d) == CertsOf(s.db, d);
    forall c, pem, fp | Matches(t.db, c, pem, fp, d) ensures Matches(s.db, c, pem, fp, d) { }
  }

  lemma StepSpent(read: Contents, s: State, clock: int, a: Action, d: string)
    requires Inv(s) && Kept(read, s) && Spent(s, clock, d) && Truthful(read, s, clock, a)
    ensures Spent(Apply(s, a), Tick(clock, a), d) && CertsOf(Apply(s, a).db, d) == CertsOf(s.db, d)
  {
    match a
    case Advance(id, o) =>
      ApplyKeepsInv(s, a);
      if id in s.processes { AdvanceSpent(read, s, clock, id, o, d); }
    case UpdateStatus(e, status) => StatusSpent(s, e, status, clock, d);
    case Start(id, p) => if IsRequest(p) { MoveSpent(s, id, p, clock, d); }
    case Throw(id) => MoveSpent(s, id, Finished, clock, d);
  }

  /** Whatever happens next, a spent device stays so and never gets another certificate. */
  lemma {:induction false} SpentForGood(read: Contents, s: State, clock: int, actions: seq<Action>, d: string)
    requires Inv(s) && Kept(read, s) && Spent(s, clock, d) && Timely(read, s, clock, actions)
    ensures Spent(Run(s, actions), ClockAfter(clock, actions), d)
    ensures CertsOf(Run(s, actions).db, d) == CertsOf(s.db, d)
    decreases |actions|
  {
    if actions != [] {
      var a, next, rest := actions[0], Apply(s, actions[0]), actions[1..];
      StepSpent(read, s, clock, a, d);
      ApplyKeepsInv(s, a);
      StepKept(read, s, clock, a);
      SpentForGood(read, next, Tick(clock, a), rest, d);
      assert Run(s, actions) == Run(next, rest);
    }
  }

  // ---- Otherwise some continuation issues one ----------------------------------------------

  ghost predicate Renewable(db: Db, c: string, d: string) {
    c in CertsOf(db, d) && db.certs[c].status != REVOKED && c !in db.revocations
  }

  /** The certificate as presented passes every check but the clock's. */
  ghost predicate Passes(db: Db, c: string, pem: Pem, fp: string, d: string) {
    && Matches(db, c, pem, fp, d) && c !in db.revocations && DeviceTrusted(db, fp)
    && pem.info.Some? && Serials.Normalize(pem.info.value.serialNumber) == Serials.Normalize(c)
  }

  /** Left to itself from here, the request issues a certificate for the device, in a renewal in place of `c`. */
  ghost predicate CanGoOn(s: State, id: nat, c: string, d: string, now: int) {
    id in s.processes && d in s.db.devices &&
    match s.processes[id]
    case ApproveRead(e, _, _, _) => e == d && s.db.devices[d].status == DeviceStatus.PENDING
    case ApproveSave(e, _, _, _) => e == d
    case EnrollSign(e, _, _, _) => e == d
    case RenewLookup(pem, fp) => Passes(s.db, c, pem, fp, d) && Screen(pem, now).None?
    case RenewScan(pem, fp) => Passes(s.db, c, pem, fp, d)
    case RenewRecords(pem, fp, serial, cert) => serial == c && Passes(s.db, c, pem, fp, d) && SnapshotOf(s.db, cert, c)
    case RenewTrust(pem, fp, serial, cert) => serial == c && Passes(s.db, c, pem, fp, d) && SnapshotOf(s.db, cert, c)
    case RevokeRead(serial, caller) => serial == c && caller.Renewal? && Renewable(s.db, c, d)
    case RevokeSave(serial, cert, caller) => caller.Renewal? && cert.deviceId == d && serial !in s.db.revocations
    case RevokeRecord(serial, cert, caller) => caller.Renewal? && cert.deviceId == d && serial !in s.db.revocations
    case RenewSign(_, cert, _) => cert.deviceId == d
    case _ => false
  }

  function StepsToSign(p: Process): nat {
    match p
    case ApproveRead(_, _, _, _) => 2
    case ApproveSave(_, _, _, _) => 1
    case RenewLookup(_, _) => 7
    case RenewScan(_, _) => 6
    case RenewRecords(_, _, _, _) => 5
    case RenewTrust(_, _, _, _) => 4
    case RevokeRead(_, _) => 3
    case RevokeSave(_, _, _) => 2
    case RevokeRecord(_, _, _) => 1
    case _ => 0
  }

  ghost predicate Nearer(s: State, t: State, id: nat, c: string, d: string, now: int) {
    && CanGoOn(s, id, c, d, now) && CanGoOn(t, id, c, d, now) && t.db.certs.Keys == s.db.certs.Keys
    && StepsToSign(t.processes[id]) < StepsToSign(s.processes[id])
  }

  lemma EnrollGoesOn(s: State, id: nat, c: string, d: string, o: Outside)
    requires CanGoOn(s, id, c, d, o.now) && (s.processes[id].ApproveRead? || s.processes[id].ApproveSave?)
    ensures Nearer(s, Apply(s, Advance(id, o)), id, c, d, o.now)
  {
  }

  /** With distinct serials both lookups come upon this certificate. */
  lemma LookupGoesOn(s: State, id: nat, c: string, d: string, o: Outside)
    requires DistinctSerials(s.db) && CanGoOn(s, id, c, d, o.now)
    requires s.processes[id].RenewLookup? || s.processes[id].RenewScan?
    ensures Nearer(s, Apply(s, Advance(id, o)), id, c, d, o.now)
  {
    var serial := s.processes[id].pem.info.value.serialNumber;
    assert c in Unrevoked(s.db);
    if s.processes[id].RenewScan? { assert Scan(s.db, Unrevoked(s.db), serial) == Some(c); }
  }

  lemma ChecksGoOn(s: State, id: nat, c: string, d: string, o: Outside)
    requires CanGoOn(s, id, c, d, o.now) && (s.processes[id].RenewRecords? || s.processes[id].RenewTrust?)
    ensures Nearer(s, Apply(s, Advance(id, o)), id, c, d, o.now)
  {
  }

  lemma RevokeGoesOn(s: State, id: nat, c: string, d: string, o: Outside)
    requires CanGoOn(s, id, c, d, o.now)
    requires s.processes[id].RevokeRead? || s.processes[id].RevokeSave? || s.processes[id].RevokeRecord?
    ensures Nearer(s, Apply(s, Advance(id, o)), id, c, d, o.now)
  {
  }

  lemma GoesOn(s: State, id: nat, c: string, d: string, o: Outside)
    requires DistinctSerials(s.db) && CanGoOn(s, id, c, d, o.now) && StepsToSign(s.processes[id]) > 0
    ensures Nearer(s, Apply(s, Advance(id, o)), id, c, d, o.now)
  {
    var p := s.processes[id];
    if p.ApproveRead? || p.ApproveSave? { EnrollGoesOn(s, id, c, d, o); }
    else if p.RenewLookup? || p.RenewScan? { LookupGoesOn(s, id, c, d, o); }
    else if p.RenewRecords? || p.RenewTrust? { ChecksGoOn(s, id, c, d, o); }
    else { RevokeGoesOn(s, id, c, d, o); }
  }

  lemma Signs(s: State, id: nat, c: string, d: string, o: Outside)
    requires CanGoOn(s, id, c, d, o.now) && StepsToSign(s.processes[id]) == 0 && o.serial !in s.db.certs
    ensures o.serial in CertsOf(Apply(s, Advance(id, o)).db, d)
  {
  }

  /** A number that the CA has not given out in any spelling, on a certificate that says so. */
  ghost predicate Issuable(read: Contents, db: Db, o: Outside) {
    && Attests(read, o.serial, o.digest, o.validTo)
    && forall c :: c in db.certs ==> Serials.Normalize(c) != Serials.Normalize(o.serial)
  }

  lemma PlausibleFirst(read: Contents, s: State, clock: int, id: nat, o: Outside, rest: seq<Action>)
    requires clock <= o.now && Issuable(read, s.db, o)
    requires Plausible(read, Apply(s, Advance(id, o)), o.now, rest)
    ensures Plausible(read, s, clock, [Advance(id, o)] + rest)
    ensures Run(s, [Advance(id, o)] + rest) == Run(Apply(s, Advance(id, o)), rest)
  {
    assert ([Advance(id, o)] + rest)[1..] == rest;
  }

  lemma {:induction false} GoesOnToSign(read: Contents, s: State, clock: int, id: nat, c: string, d: string, o: Outside)
    returns (actions: seq<Action>)
    requires DistinctSerials(s.db) && CanGoOn(s, id, c, d, o.now) && clock <= o.now && Issuable(read, s.db, o)
    ensures Plausible(read, s, clock, actions) && o.serial in CertsOf(Run(s, actions).db, d)
    decreases StepsToSign(s.processes[id])
  {
    var next := Apply(s, Advance(id, o));
    var rest: seq<Action> := [];
    if StepsToSign(s.processes[id]) == 0 {
      Signs(s, id, c, d, o);
    } else {
      GoesOn(s, id, c, d, o);
      rest := GoesOnToSign(read, next, o.now, id, c, d, o);
    }
    PlausibleFirst(read, s, clock, id, o, rest);
    actions := [Advance(id, o)] + rest;
  }

  /** An action that is no step, put before a plausible run. */
  lemma PlausibleAfter(read: Contents, s: State, clock: int, a: Action, rest: seq<Action>)
    requires !a.Advance? && Truthful(read, s, clock, a) && Plausible(read, Apply(s, a), clock, rest)
    ensures Plausible(read, s, clock, [a] + rest) && Run(s, [a] + rest) == Run(Apply(s, a), rest)
  {
    assert ([a] + rest)[1..] == rest;
  }

  lemma FreshOffer(write: CertInfo -> string, read: Contents, db: Db, now: int) returns (o: Outside)
    requires Writes(write, read)
    ensures Issuable(read, db, o) && o.now == now
  {
    var serial := FreshString(set c | c in db.certs :: Serials.Normalize(c));
    assert forall i :: 0 <= i < |serial| ==> serial[i] in serial;
    assert ':' !in serial && Lower(serial) == serial;
    Serials.StripNothing(serial);
    forall c | c in db.certs ensures Serials.Normalize(c) != serial {
      assert Serials.Normalize(c) in set c | c in db.certs :: Serials.Normalize(c);
    }
    o := Outside(now, "", serial, write(CertInfo(serial, 0, 0)), 0);
  }

  lemma ServerCanGoOn(s: State, id: nat, d: string, now: int)
    requires Inv(s) && d in s.db.devices && id in s.processes && Serves(s.db, s.processes[id], d)
    ensures CanGoOn(Apply(s, UpdateStatus(d, DeviceStatus.PENDING)), id, "", d, now)
  {
    assert LocalsOk(s.db, s.processes[id]);
  }

  lemma TrustedWhenApproved(s: State, c: string, d: string)
    requires Inv(s) && c in CertsOf(s.db, d)
    ensures var t := Apply(s, UpdateStatus(d, APPROVED));
      && DeviceTrusted(t.db, s.db.certs[c].deviceFingerprint)
      && t.db.certs == s.db.certs && t.db.revocations == s.db.revocations && t.processes == s.processes
  {
    var t := Apply(s, UpdateStatus(d, APPROVED));
    assert OwnedByDevice(s.db, s.db.certs[c]);
    assert t.db.devices[d].fingerprint == s.db.certs[c].deviceFingerprint && t.db.devices[d].status == APPROVED;
  }

  lemma PassesWhenApproved(read: Contents, s: State, c: string, pem: Pem, fp: string, d: string)
    requires Inv(s) && Attested(read, s.db) && Matches(s.db, c, pem, fp, d) && pem.info == Some(read(pem.digest))
    ensures Passes(Apply(s, UpdateStatus(d, APPROVED)).db, c, pem, fp, d)
  {
    TrustedWhenApproved(s, c, d);
    assert Attests(read, c, s.db.certs[c].fingerprint, s.db.certs[c].validTo);
  }

  lemma UnderwayCanGoOn(read: Contents, s: State, id: nat, d: string, now: int) returns (c: string)
    requires Inv(s) && Kept(read, s) && d in s.db.devices && id in s.processes && Underway(s.db, s.processes[id], d)
    ensures CanGoOn(Apply(s, UpdateStatus(d, APPROVED)), id, c, d, now)
  {
    var p := s.processes[id];
    assert LocalsOk(s.db, p) && Presented(read, p);
    if p.RenewScan? { c :| Matches(s.db, c, p.pem, p.fingerprint, d); } else { c := p.serial; }
    if p.RevokeRead? { TrustedWhenApproved(s, c, d); }
    else { PassesWhenApproved(read, s, c, p.pem, p.fingerprint, d); }
  }

  /** A request past its clock read goes on, once the device has the status it looks for. */
  lemma ServerGoesOn(read: Contents, s: State, clock: int, id: nat, d: string, o: Outside)
    returns (actions: seq<Action>)
    requires Inv(s) && Kept(read, s) && DistinctSerials(s.db) && d in s.db.devices && id in s.processes
    requires MayServe(s.db, s.processes[id], d) && clock <= o.now && Issuable(read, s.db, o)
    ensures Plausible(read, s, clock, actions) && o.serial in CertsOf(Run(s, actions).db, d)
  {
    var a := UpdateStatus(d, if Serves(s.db, s.processes[id], d) then DeviceStatus.PENDING else APPROVED);
    var c := "";
    if Serves(s.db, s.processes[id], d) { ServerCanGoOn(s, id, d, o.now); }
    else { c := UnderwayCanGoOn(read, s, id, d, o.now); }
    var rest := GoesOnToSign(read, Apply(s, a), clock, id, c, d, o);
    actions := [a] + rest;
    PlausibleAfter(read, s, clock, a, rest);
  }

  /** Who holds the certificate presents it. */
  function Holder(read: Contents, cert: Certificate): Process {
    RenewLookup(Pem(true, Some(read(cert.fingerprint)), cert.fingerprint), cert.deviceFingerprint)
  }

  lemma HolderCanGoOn(read: Contents, s: State, c: string, id: nat, d: string, now: int)
    requires Inv(s) && Kept(read, s) && Fingerprinted(s) && d in s.db.devices && id !in s.processes
    requires c in CertsOf(s.db, d) && s.db.certs[c].status != REVOKED
    requires read(s.db.certs[c].fingerprint).validFrom <= now <= s.db.certs[c].validTo
    ensures s.db.certs[c].deviceFingerprint != ""
    ensures CanGoOn(Apply(Apply(s, UpdateStatus(d, APPROVED)), Start(id, Holder(read, s.db.certs[c]))), id, c, d, now)
  {
    var cert := s.db.certs[c];
    assert OwnedByDevice(s.db, cert) && Attests(read, c, cert.fingerprint, cert.validTo);
    PassesWhenApproved(read, s, c, Holder(read, cert).pem, cert.deviceFingerprint, d);
  }

  /** A certificate that is not REVOKED and not past its validity can be renewed, once the device is APPROVED. */
  lemma HolderRenews(read: Contents, s: State, clock: int, c: string, d: string, o: Outside)
    returns (actions: seq<Action>)
    requires Inv(s) && Kept(read, s) && DistinctSerials(s.db) && Fingerprinted(s) && d in s.db.devices
    requires c in CertsOf(s.db, d) && s.db.certs[c].status != REVOKED && clock <= o.now && Issuable(read, s.db, o)
    requires read(s.db.certs[c].fingerprint).validFrom <= o.now <= s.db.certs[c].validTo
    ensures Plausible(read, s, clock, actions) && o.serial in CertsOf(Run(s, actions).db, d)
  {
    var id := FreshNat(s.processes.Keys);
    var approve, renew := UpdateStatus(d, APPROVED), Start(id, Holder(read, s.db.certs[c]));
    var approved := Apply(s, approve);
    HolderCanGoOn(read, s, c, id, d, o.now);
    var rest := GoesOnToSign(read, Apply(approved, renew), clock, id, c, d, o);
    PlausibleAfter(read, approved, clock, renew, rest);
    PlausibleAfter(read, s, clock, approve, [renew] + rest);
    actions := [approve] + ([renew] + rest);
  }

  lemma Reached(read: Contents, start: int, before: seq<Action>)
    requires Plausible(read, EMPTY, start, before)
    ensures var s := Run(EMPTY, before);
      Inv(s) && Kept(read, s) && DistinctSerials(s.db) && Fingerprinted(s)
  {
    EmptyInv();
    RunKeepsInv(EMPTY, before);
    RunKept(read, EMPTY, start, before);
    RunKeepsDistinctSerials(EMPTY, before);
    RunFingerprinted(EMPTY, before);
  }

  lemma OneMayCome(write: CertInfo -> string, read: Contents, s: State, clock: int, d: string)
    returns (after: seq<Action>)
    requires Writes(write, read) && Inv(s) && Kept(read, s) && DistinctSerials(s.db) && Fingerprinted(s)
    requires d in s.db.devices && !Spent(s, clock, d)
    ensures Plausible(read, s, clock, after) && CertsOf(Run(s, after).db, d) != CertsOf(s.db, d)
  {
    if id :| id in s.processes && MayServe(s.db, s.processes[id], d) {
      var o := FreshOffer(write, read, s.db, clock);
      after := ServerGoesOn(read, s, clock, id, d, o);
    } else {
      var c :| c in CertsOf(s.db, d) && !Over(s.db.certs[c], clock);
      var cert := s.db.certs[c];
      assert Attests(read, c, cert.fingerprint, cert.validTo);
      var o := FreshOffer(write, read, s.db, Max(clock, read(cert.fingerprint).validFrom));
      after := HolderRenews(read, s, clock, c, d, o);
    }
  }

  /**
   * At every moment of a plausible run: a device never gets another certificate by enrollment or
   * renewal, whatever requests and status changes follow, exactly when every certificate it has is
   * REVOKED or past its validity, and no request is left that has read the clock for one of them,
   * is about to record its revocation, or holds the device's slot.
   */
  lemma NoneToComeExactly(write: CertInfo -> string, read: Contents, start: int, before: seq<Action>, d: string)
    requires Writes(write, read) && Plausible(read, EMPTY, start, before) && d in Run(EMPTY, before).db.devices
    ensures var (s, clock) := (Run(EMPTY, before), ClockAfter(start, before));
      Spent(s, clock, d) <==>
        forall after :: Plausible(read, s, clock, after) ==> CertsOf(Run(s, after).db, d) == CertsOf(s.db, d)
  {
    Reached(read, start, before);
    var s, clock := Run(EMPTY, before), ClockAfter(start, before);
    if Spent(s, clock, d) {
      forall after | Plausible(read, s, clock, after) ensures CertsOf(Run(s, after).db, d) == CertsOf(s.db, d) {
        SpentForGood(read, s, clock, after, d);
      }
    } else {
      var after := OneMayCome(write, read, s, clock, d);
      assert Plausible(read, s, clock, after);
    }
  }

  /** An enrolled device whose certificate has expired: not stranded by any failure, and spent. */
  lemma ExpiryStrands(clock: int)
    requires clock > 0
    ensures var s := Run(EMPTY, RenewalRuns.ENROLLS);
      !Stranded(s, "device") && Spent(s, clock, "device") && "01" in s.db.certs && s.db.certs["01"].status == ACTIVE
  {
    RenewalRuns.Enrolled();
    var s := Run(EMPTY, RenewalRuns.ENROLLS);
    assert s.db.certs == map["01" := RenewalRuns.CERT];
    assert CertsOf(s.db, "device") == {"01"};
  }
}
