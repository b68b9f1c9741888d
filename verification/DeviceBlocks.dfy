/** What blocking a device stops of an enrollment of that device that is under way. */
module DeviceBlocks {
  import opened TrustStore
  import opened RenewalProtocol

  /** The enrollment has read the device PENDING and is about to save it APPROVED. */
  predicate AboutToApprove(p: Process, d: string) {
    p.ApproveSave? && p.deviceId == d
  }

  predicate NoUpdate(actions: seq<Action>, d: string) {
    forall a :: a in actions && a.UpdateStatus? ==> a.deviceId != d
  }

  predicate IsBlocked(db: Db, d: string) {
    d in db.devices && db.devices[d].status == BLOCKED
  }

  ghost predicate StaysBlocked(s: State, d: string) {
    IsBlocked(s.db, d) && forall id :: id in s.processes ==> !AboutToApprove(s.processes[id], d)
  }

  lemma NextBlocked(db: Db, p: Process, o: Outside, d: string)
    requires IsBlocked(db, d) && !AboutToApprove(p, d)
    ensures IsBlocked(Next(db, p, o).0, d) && !AboutToApprove(Next(db, p, o).1, d)
  {
  }

  lemma StepBlocked(s: State, a: Action, d: string)
    requires StaysBlocked(s, d) && !(a.UpdateStatus? && a.deviceId == d)
    ensures StaysBlocked(Apply(s, a), d)
  {
    if a.Advance? && a.id in s.processes { NextBlocked(s.db, s.processes[a.id], a.outside, d); }
  }

  lemma {:induction false} RunBlocked(s: State, actions: seq<Action>, d: string)
    requires StaysBlocked(s, d) && NoUpdate(actions, d)
    ensures StaysBlocked(Run(s, actions), d)
    decreases |actions|
  {
    if actions != [] {
      var next, rest := Apply(s, actions[0]), actions[1..];
      StepBlocked(s, actions[0], d);
      RunBlocked(next, rest, d);
      assert Run(s, actions) == Run(next, rest);
    }
  }

  /**
   * A device that an administrator blocks stays BLOCKED until the next status change, whatever other
   * requests do, exactly when no enrollment of it had read it PENDING and not yet saved it APPROVED.
   */
  lemma BlockHoldsExactly(s: State, d: string)
    requires d in s.db.devices
    ensures var t := Apply(s, UpdateStatus(d, BLOCKED));
      (forall actions :: NoUpdate(actions, d) ==> IsBlocked(Run(t, actions).db, d))
      <==> (forall id :: id in s.processes ==> !AboutToApprove(s.processes[id], d))
  {
    var t := Apply(s, UpdateStatus(d, BLOCKED));
    if forall id :: id in s.processes ==> !AboutToApprove(s.processes[id], d) {
      forall actions | NoUpdate(actions, d) ensures IsBlocked(Run(t, actions).db, d) { RunBlocked(t, actions, d); }
    } else {
      var id :| id in s.processes && AboutToApprove(s.processes[id], d);
      var actions := [Advance(id, Outside(0, "", "", "", 0))];
      assert actions[1..] == [] && Run(t, actions) == Apply(t, actions[0]);
      assert NoUpdate(actions, d) && !IsBlocked(Apply(t, actions[0]).db, d);
    }
  }
}
