/**
 * A renewal revokes before it signs and an enrollment inserts its device before it signs, so a
 * request that fails in between leaves a device that neither of them will ever serve again.
 */
module StrandedDevices {
  import opened Common
  import opened TrustStore
  import opened RenewalProtocol

  ghost function CertsOf(db: Db, d: string): set<string> {
    set c | c in db.certs && db.certs[c].deviceId == d
  }

  /** A renewal that is about to mark this device's certificate, which nobody has recorded yet. */
  ghost predicate AboutToRecord(db: Db, p: Process, d: string) {
    && (p.RevokeSave? || p.RevokeRecord?) && p.caller.Renewal?
    && p.serial !in db.revocations && p.serial in db.certs && db.certs[p.serial].deviceId == d
  }

  /** The request may still issue a certificate for the device. */
  ghost predicate Serves(db: Db, p: Process, d: string) {
    Reserves(p) == Some(d) || AboutToRecord(db, p, d)
  }

  /** Every certificate the device has is REVOKED, and no request is past the point of replacing one. */
  ghost predicate Stranded(s: State, d: string) {
    && d in s.db.devices
    && (forall c :: c in CertsOf(s.db, d) ==> s.db.certs[c].status == REVOKED)
    && (forall id :: id in s.processes ==> !Serves(s.db, s.processes[id], d))
  }

  // ---- Stranded for good -------------------------------------------------------------------

  /** Only a request that holds the device's slot signs for it. */
  lemma NextCerts(db: Db, p: Process, o: Outside, d: string)
    requires Reserves(p) != Some(d)
    ensures CertsOf(Next(db, p, o).0, d) == CertsOf(db, d)
  {
    var after := Next(db, p, o).0;
    forall c ensures c in CertsOf(after, d) <==> c in CertsOf(db, d) {
      assert c in db.certs ==> c in after.certs && after.certs[c].deviceId == db.certs[c].deviceId;
      assert c in after.certs && c !in db.certs ==> (p.EnrollSign? || p.RenewSign?);
    }
  }

  /** A request comes to hold the slot by registering the device or by recording what it was about to record. */
  lemma NextReserves(db: Db, p: Process, o: Outside, d: string)
    requires LocalsOk(db, p) && d in db.devices && !Serves(db, p, d)
    ensures Reserves(Next(db, p, o).1) != Some(d)
  {
  }

  /** A request comes to be about to record through a certificate that is not REVOKED. */
  lemma NextRecords(db: Db, p: Process, o: Outside, d: string)
    requires LocalsOk(db, p) && !Serves(db, p, d)
    requires forall c :: c in CertsOf(db, d) ==> db.certs[c].status == REVOKED
    ensures !AboutToRecord(Next(db, p, o).0, Next(db, p, o).1, d)
  {
    assert p.RevokeRead? && p.serial in db.certs && db.certs[p.serial].deviceId == d ==> p.serial in CertsOf(db, d);
  }

  lemma OthersServe(a: Db, b: Db, p: Process, d: string)
    requires Grows(a, b) && CertsOf(b, d) == CertsOf(a, d) && !Serves(a, p, d)
    ensures !Serves(b, p, d)
  {
    assert forall c :: c in b.certs && b.certs[c].deviceId == d ==> c in CertsOf(b, d) && c in CertsOf(a, d);
  }

  lemma OthersStranded(s: State, t: State, d: string)
    requires Stranded(s, d) && Grows(s.db, t.db) && CertsOf(t.db, d) == CertsOf(s.db, d)
    requires forall id :: id in t.processes ==>
      (id in s.processes && t.processes[id] == s.processes[id]) || !Serves(t.db, t.processes[id], d)
    ensures Stranded(t, d)
  {
    forall id | id in t.processes ensures !Serves(t.db, t.processes[id], d) {
      if id in s.processes && t.processes[id] == s.processes[id] { OthersServe(s.db, t.db, s.processes[id], d); }
    }
    assert forall c :: c in CertsOf(s.db, d) ==> t.db.certs[c].status == REVOKED;
  }

  lemma MoveStranded(s: State, id: nat, p: Process, d: string)
    requires Stranded(s, d) && !Serves(s.db, p, d)
    ensures Stranded(s.(processes := s.processes[id := p]), d)
  {
  }

  lemma StatusStranded(s: State, e: string, status: DeviceStatus, d: string)
    requires Stranded(s, d)
    ensures Stranded(s.(db := SaveDeviceStatus(s.db, e, status)), d)
  {
    var t := s.(db := SaveDeviceStatus(s.db, e, status));
    assert t.db.certs == s.db.certs && t.db.revocations == s.db.revocations;
    assert CertsOf(t.db, d) == CertsOf(s.db, d);
  }

  lemma AdvanceStranded(s: State, id: nat, o: Outside, d: string)
    requires Inv(s) && Stranded(s, d) && id in s.processes && Grows(s.db, Apply(s, Advance(id, o)).db)
    ensures Stranded(Apply(s, Advance(id, o)), d) && CertsOf(Apply(s, Advance(id, o)).db, d) == CertsOf(s.db, d)
  {
    var p := s.processes[id];
    assert LocalsOk(s.db, p) && !Serves(s.db, p, d);
    NextCerts(s.db, p, o, d);
    NextReserves(s.db, p, o, d);
    NextRecords(s.db, p, o, d);
    OthersStranded(s, Apply(s, Advance(id, o)), d);
  }

  lemma StepStranded(s: State, a: Action, d: string)
    requires Inv(s) && Stranded(s, d)
    ensures Stranded(Apply(s, a), d) && CertsOf(Apply(s, a).db, d) == CertsOf(s.db, d)
  {
    match a
    case Advance(id, o) =>
      ApplyKeepsInv(s, a);
      if id in s.processes { AdvanceStranded(s, id, o, d); }
    case UpdateStatus(e, status) => StatusStranded(s, e, status, d);
    case Start(id, p) => if IsRequest(p) { MoveStranded(s, id, p, d); }
    case Throw(id) => MoveStranded(s, id, Finished, d);
  }

  /** Whatever happens next, a stranded device stays so and never gets another certificate. */
  lemma {:induction false} StrandedForGood(s: State, actions: seq<Action>, d: string)
    requires Inv(s) && Stranded(s, d)
    ensures Stranded(Run(s, actions), d) && CertsOf(Run(s, actions).db, d) == CertsOf(s.db, d)
    decreases |actions|
  {
    if actions != [] {
      var next, rest := Apply(s, actions[0]), actions[1..];
      StepStranded(s, actions[0], d);
      ApplyKeepsInv(s, actions[0]);
      StrandedForGood(next, rest, d);
      assert Run(s, actions) == Run(next, rest);
    }
  }

  predicate ActsOn(a: Action, id: nat) {
    (a.Advance? || a.Throw?) && a.id == id
  }

  /** A request that holds a device's slot and ends without signing strands the device. */
  lemma FailureStrands(s: State, id: nat, a: Action, d: string)
    requires Inv(s) && id in s.processes && Reserves(s.processes[id]) == Some(d) && ActsOn(a, id)
    requires Apply(s, a).processes[id] == Finished
    ensures Stranded(Apply(s, a), d)
  {
    var t := Apply(s, a);
    assert LocalsOk(s.db, s.processes[id]) && Claims(s, Pending(id), d);
    if s.processes[id].RenewSign? { assert OwnedByDevice(s.db, s.db.certs[s.processes[id].previous]); }
    assert t.db == s.db;
    forall c | c in CertsOf(s.db, d) ensures c in s.db.revocations {
      assert !Claims(s, Unrecorded(c), d);
    }
    forall other | other in t.processes ensures !Serves(t.db, t.processes[other], d) {
      assert other != id ==> !Claims(s, Pending(other), d);
    }
  }
}
