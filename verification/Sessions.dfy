/** The sessions collection (sessions.service.ts). */
module Sessions {
  import opened Common

  datatype Session = Session(userId: string, deviceId: string, isActive: bool, startedAt: int, endedAt: Option<int>)

  type Table = map<string, Session>

  predicate ActiveOn(s: Session, userId: string, deviceId: string) {
    s.isActive && s.userId == userId && s.deviceId == deviceId
  }

  predicate SameActive(a: Session, b: Session) {
    a.isActive && ActiveOn(b, a.userId, a.deviceId)
  }

  /** `endedAt` is null exactly while a session is active; one active session per user and device. */
  ghost predicate TableOk(table: Table) {
    && (forall id :: id in table ==> (table[id].isActive <==> table[id].endedAt.None?))
    && (forall a, b :: a in table && b in table && SameActive(table[a], table[b]) ==> a == b)
  }

  /** updateMany with isActive true, narrowed to a user, a device, or both. */
  function EndActive(table: Table, userId: Option<string>, deviceId: Option<string>, now: int): Table {
    map id | id in table ::
      if table[id].isActive && (userId.Some? ==> table[id].userId == userId.value) &&
          (deviceId.Some? ==> table[id].deviceId == deviceId.value)
      then table[id].(isActive := false, endedAt := Some(now)) else table[id]
  }

  function Insert(table: Table, id: string, userId: string, deviceId: string, now: int): Table {
    table[id := Session(userId, deviceId, true, now, None)]
  }

  function Active(table: Table, userId: string): set<string> {
    set id | id in table && table[id].isActive && table[id].userId == userId
  }

  function ActiveDevices(table: Table, userId: string): set<string> {
    set id | id in Active(table, userId) :: table[id].deviceId
  }

  lemma EndActiveKeeps(table: Table, userId: Option<string>, deviceId: Option<string>, now: int)
    requires TableOk(table)
    ensures TableOk(EndActive(table, userId, deviceId, now))
  {
  }

  /**
   * The insert of createSession keeps the table in order exactly when no session of the user and
   * device is active at that moment, which is what the updateMany before it arranges.
   */
  lemma InsertKeepsExactly(table: Table, id: string, userId: string, deviceId: string, now: int)
    requires TableOk(table) && id !in table
    ensures TableOk(Insert(table, id, userId, deviceId, now)) <==>
      forall other :: other in table ==> !ActiveOn(table[other], userId, deviceId)
  {
    var after := Insert(table, id, userId, deviceId, now);
    if other :| other in table && ActiveOn(table[other], userId, deviceId) {
      assert after[other] == table[other] && after[id].isActive && other != id;
      assert ActiveOn(after[other], after[id].userId, after[id].deviceId);
    }
  }

  /** Each active session of a user is on a device of its own, so counting sessions counts devices. */
  lemma {:induction false} SessionsCountDevices(table: Table, ids: set<string>, userId: string)
    requires TableOk(table) && ids <= Active(table, userId)
    ensures |ids| == |set id | id in ids :: table[id].deviceId|
    decreases |ids|
  {
    if ids != {} {
      var id :| id in ids;
      var rest := ids - {id};
      SessionsCountDevices(table, rest, userId);
      var devices := set other | other in rest :: table[other].deviceId;
      assert (set other | other in ids :: table[other].deviceId) == devices + {table[id].deviceId};
      assert forall other :: other in rest ==> table[other].deviceId != table[id].deviceId;
    }
  }

  class SessionsService {
    var sessions: Table

    ghost predicate Valid()
      reads this
    {
      TableOk(sessions)
    }

    constructor ()
      ensures Valid() && sessions == map[]
    {
      sessions := map[];
    }

    method CreateSession(id: string, userId: string, deviceId: string, now: int)
      requires Valid() && id !in sessions
      modifies this
      ensures Valid() && sessions.Keys == old(sessions).Keys + {id}
      ensures sessions[id] == Session(userId, deviceId, true, now, None)
      ensures forall other :: other in old(sessions) ==>
        sessions[other] == if ActiveOn(old(sessions)[other], userId, deviceId)
                           then old(sessions)[other].(isActive := false, endedAt := Some(now)) else old(sessions)[other]
    {
      EndActiveKeeps(sessions, Some(userId), Some(deviceId), now);
      sessions := EndActive(sessions, Some(userId), Some(deviceId), now);
      InsertKeepsExactly(sessions, id, userId, deviceId, now);
      sessions := Insert(sessions, id, userId, deviceId, now);
    }

    /** updateOne by sessionId: an ended session gets a new end time. */
    method EndSession(id: string, now: int)
      requires Valid()
      modifies this
      ensures Valid()
      ensures sessions == if id in old(sessions)
          then old(sessions)[id := old(sessions)[id].(isActive := false, endedAt := Some(now))] else old(sessions)
    {
      if id in sessions { sessions := sessions[id := sessions[id].(isActive := false, endedAt := Some(now))]; }
    }

    method EndAllUserSessions(userId: string, now: int)
      requires Valid()
      modifies this
      ensures Valid() && sessions == EndActive(old(sessions), Some(userId), None, now)
      ensures sessions.Keys == old(sessions).Keys && forall id :: id in sessions ==>
        var was := old(sessions)[id];
        sessions[id] == if was.isActive && was.userId == userId
                        then was.(isActive := false, endedAt := Some(now)) else was
      ensures Active(sessions, userId) == {}
      ensures forall other :: other != userId ==> Active(sessions, other) == Active(old(sessions), other)
    {
      EndActiveKeeps(sessions, Some(userId), None, now);
      sessions := EndActive(sessions, Some(userId), None, now);
    }

    method EndDeviceSessions(deviceId: string, now: int)
      requires Valid()
      modifies this
      ensures Valid() && sessions == EndActive(old(sessions), None, Some(deviceId), now)
      ensures sessions.Keys == old(sessions).Keys && forall id :: id in sessions ==>
        var was := old(sessions)[id];
        sessions[id] == if was.isActive && was.deviceId == deviceId
                        then was.(isActive := false, endedAt := Some(now)) else was
      ensures forall userId :: deviceId !in ActiveDevices(sessions, userId)
      ensures forall userId :: ActiveDevices(sessions, userId) == ActiveDevices(old(sessions), userId) - {deviceId}
    {
      EndActiveKeeps(sessions, None, Some(deviceId), now);
      ghost var before := sessions;
      sessions := EndActive(sessions, None, Some(deviceId), now);
      forall userId ensures ActiveDevices(sessions, userId) == ActiveDevices(before, userId) - {deviceId} {
        DevicesAfterEnd(before, deviceId, now, userId);
      }
    }

    method CountActiveSessions(userId: string) returns (count: nat)
      requires Valid()
      ensures count == |ActiveDevices(sessions, userId)|
      ensures count == 0 <==> forall id :: id in sessions && sessions[id].userId == userId ==> !sessions[id].isActive
    {
      SessionsCountDevices(sessions, Active(sessions, userId), userId);
      count := |Active(sessions, userId)|;
      if count == 0 {
        assert forall id :: id in sessions && sessions[id].isActive && sessions[id].userId == userId ==>
            id in Active(sessions, userId);
      } else {
        var id :| id in Active(sessions, userId);
      }
    }
  }

  lemma DevicesAfterEnd(table: Table, deviceId: string, now: int, userId: string)
    ensures ActiveDevices(EndActive(table, None, Some(deviceId), now), userId) ==
      ActiveDevices(table, userId) - {deviceId}
  {
    var after := EndActive(table, None, Some(deviceId), now);
    forall id ensures id in Active(after, userId) <==> id in Active(table, userId) && table[id].deviceId != deviceId { }
    forall d | d in ActiveDevices(table, userId) - {deviceId} ensures d in ActiveDevices(after, userId) {
      var id :| id in Active(table, userId) && table[id].deviceId == d;
      assert id in Active(after, userId) && after[id].deviceId == d;
    }
    forall d | d in ActiveDevices(after, userId) ensures d in ActiveDevices(table, userId) - {deviceId} {
      var id :| id in Active(after, userId) && after[id].deviceId == d;
      assert id in Active(table, userId) && table[id].deviceId == d;
    }
  }
}
