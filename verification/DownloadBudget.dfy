/**
 * Concurrent downloads through one share: validateAccess, later recordDownload's load, later its
 * save, interleaved in any way with each other, with revocation and with expiry.
 */
module DownloadBudget {
  import opened Common
  import opened Shares
  import opened Counters

  datatype Phase = Validated | Loaded(reading: Reading, status: Status)

  /** History of a download that was let through: from which device, and when. */
  datatype Start = Start(device: string, at: int)

  /**
   * `peak` is the most downloads ever in flight, `highest` the largest count ever stored, `starts`
   * every download that was ever let through.
   */
  datatype State = State(
    share: Share, saves: nat, overlapped: bool, flights: map<nat, Phase>, peak: nat, highest: nat, starts: seq<Start>)

  datatype Action =
    | Begin(id: nat, device: string, now: int)
    | LoadShare(id: nat)
    | SaveShare(id: nat)
    | Abort(id: nat)
    | RevokeShare
    | ExpireShare(now: int)

  function CounterOf(s: State): Counter {
    Counter(s.share.downloadCount, s.saves, s.overlapped)
  }

  function Apply(s: State, a: Action): State {
    match a
    case Begin(id, device, now) =>
      if id in s.flights || s.share.status != ACTIVE then s
      else if now > s.share.expiresAt then s.(share := s.share.(status := EXPIRED))
      else if Gate(s.share, ToDownload, device, now).Some? then s
      else s.(flights := s.flights[id := Validated], peak := Max(s.peak, |s.flights| + 1),
              starts := s.starts + [Start(device, now)])
    case LoadShare(id) =>
      if id !in s.flights || s.flights[id].Loaded? then s
      else s.(flights := s.flights[id := Loaded(Load(CounterOf(s)), s.share.status)])
    case SaveShare(id) =>
      if id !in s.flights || s.flights[id].Validated? then s
      else
        var reading := s.flights[id].reading;
        var loaded := s.share.(downloadCount := reading.value, status := s.flights[id].status);
        var share := SaveDownload(s.share, loaded);
        var counter := Save(CounterOf(s), reading);
        State(share, counter.saves, counter.overlapped, s.flights - {id}, s.peak, Max(s.highest, share.downloadCount),
          s.starts)
    case Abort(id) => s.(flights := s.flights - {id})
    case RevokeShare => s.(share := s.share.(status := REVOKED))
    case ExpireShare(now) => if Overdue(s.share, now) then s.(share := s.share.(status := EXPIRED)) else s
  }

  function Run(s: State, actions: seq<Action>): State
    decreases |actions|
  {
    if actions == [] then s else Run(Apply(s, actions[0]), actions[1..])
  }

  function Fresh(share: Share): State {
    State(share, 0, false, map[], 0, 0, [])
  }

  ghost predicate Inv(s: State) {
    && ShareOk(s.share) && Exact(CounterOf(s))
    && s.share.downloadCount <= s.highest && |s.flights| <= s.peak
    && (forall id :: id in s.flights && s.flights[id].Loaded? ==>
          && Current(CounterOf(s), s.flights[id].reading) && s.flights[id].reading.value <= s.highest
          && (s.flights[id].status != ACTIVE ==> s.share.status != ACTIVE))
    && (s.share.oneTimeAccess ==> s.saves + |s.flights| <= s.peak)
    && (s.share.oneTimeAccess && s.share.status == ACTIVE ==> s.highest == 0 && s.saves == 0)
    && (s.share.maxDownloads.Some? ==>
          var limit := s.share.maxDownloads.value;
          (s.share.status == ACTIVE ==> s.highest < limit) && s.highest + |s.flights| < limit + Max(1, s.peak))
  }

  lemma SaveKeepsInv(s: State, id: nat)
    requires Inv(s) && id in s.flights && s.flights[id].Loaded?
    ensures Inv(Apply(s, SaveShare(id)))
  {
    var s' := Apply(s, SaveShare(id));
    RemoveKey(s.flights, id);
    var reading := s.flights[id].reading;
    SaveExact(CounterOf(s), reading, reading);
    assert CounterOf(s') == Save(CounterOf(s), reading);
    forall j | j in s'.flights && s'.flights[j].Loaded? ensures Current(CounterOf(s'), s'.flights[j].reading) {
      SaveExact(CounterOf(s), reading, s.flights[j].reading);
    }
  }

  lemma BeginKeepsInv(s: State, id: nat, device: string, now: int)
    requires Inv(s)
    ensures Inv(Apply(s, Begin(id, device, now)))
  {
    var s' := Apply(s, Begin(id, device, now));
    if s' != s && s'.share == s.share {
      assert s'.flights.Keys == s.flights.Keys + {id};
      assert |s'.flights.Keys| == |s.flights.Keys| + 1;
      assert forall j :: j in s'.flights && s'.flights[j].Loaded? ==> j in s.flights && s'.flights[j] == s.flights[j];
    }
  }

  lemma LoadKeepsInv(s: State, id: nat)
    requires Inv(s)
    ensures Inv(Apply(s, LoadShare(id)))
  {
  }

  lemma AbortKeepsInv(s: State, id: nat)
    requires Inv(s)
    ensures Inv(s.(flights := s.flights - {id}))
  {
  }

  lemma StatusKeepsInv(s: State, status: Status)
    requires Inv(s) && status != ACTIVE
    ensures Inv(s.(share := s.share.(status := status)))
  {
  }

  ghost predicate SameTerms(a: Share, b: Share) {
    b == a.(status := b.status, downloadCount := b.downloadCount)
  }

  lemma ApplyKeepsTerms(s: State, a: Action)
    ensures SameTerms(s.share, Apply(s, a).share)
  {
  }

  lemma ApplyKeepsInv(s: State, a: Action)
    requires Inv(s)
    ensures Inv(Apply(s, a)) && SameTerms(s.share, Apply(s, a).share)
  {
    ApplyKeepsTerms(s, a);
    match a
    case Begin(id, device, now) => BeginKeepsInv(s, id, device, now);
    case LoadShare(id) => LoadKeepsInv(s, id);
    case SaveShare(id) => if id in s.flights && s.flights[id].Loaded? { SaveKeepsInv(s, id); }
    case Abort(id) => AbortKeepsInv(s, id);
    case RevokeShare => StatusKeepsInv(s, REVOKED);
    case ExpireShare(_) => StatusKeepsInv(s, EXPIRED);
  }

  lemma {:induction false} RunKeepsInv(s: State, actions: seq<Action>)
    requires Inv(s)
    ensures Inv(Run(s, actions)) && SameTerms(s.share, Run(s, actions).share)
    decreases |actions|
  {
    if actions != [] {
      var next, rest := Apply(s, actions[0]), actions[1..];
      ApplyKeepsInv(s, actions[0]);
      RunKeepsInv(next, rest);
      assert Run(s, actions) == Run(next, rest);
    }
  }

  /**
   * For every interleaving of downloads through a limited share, with at most `peak` ever in flight:
   * the stored count and the downloads still in flight stay below the limit plus `peak`, and the
   * share is ACTIVE only below its limit. The count equals the downloads recorded exactly when no
   * save overwrote another, and then the same bound holds of the downloads themselves. One-time
   * access bounds the downloads whatever overlaps: recorded and in flight they are at most `peak`.
   */
  lemma BudgetWithInFlight(share: Share, now: int, actions: seq<Action>)
    requires NewShare(share, now)
    ensures var s := Run(Fresh(share), actions);
      && (s.share.downloadCount == s.saves <==> !s.overlapped) && s.share.downloadCount <= s.saves
      && (share.maxDownloads.Some? ==>
            var limit := share.maxDownloads.value;
            && s.share.downloadCount + |s.flights| <= limit + Max(1, s.peak) - 1
            && (s.share.status == ACTIVE ==> s.share.downloadCount < limit)
            && (!s.overlapped ==> s.saves + |s.flights| <= limit + Max(1, s.peak) - 1))
      && (share.oneTimeAccess ==> s.saves + |s.flights| <= s.peak && (s.share.status == ACTIVE ==> s.saves == 0))
  {
    RunKeepsInv(Fresh(share), actions);
  }

  ghost predicate Rightly(s: State, share: Share) {
    && SameTerms(share, s.share)
    && (forall start :: start in s.starts ==>
          start.at <= share.expiresAt && ToDownload in Allowed(share.permission) && share.device in {"", start.device})
    && s.saves + |s.flights| <= |s.starts|
  }

  lemma BeginRightly(s: State, a: Action, share: Share)
    requires a.Begin? && Rightly(s, share)
    ensures Rightly(Apply(s, a), share)
  {
    var t := Apply(s, a);
    if t.flights != s.flights {
      GrantedExactly(s.share, ToDownload, a.device, a.now);
      var start := Start(a.device, a.now);
      assert t.starts == s.starts + [start];
      assert forall x :: x in t.starts <==> x in s.starts || x == start;
      assert t.flights.Keys == s.flights.Keys + {a.id} && |t.flights.Keys| == |s.flights.Keys| + 1;
    }
  }

  lemma OthersRightly(s: State, a: Action, share: Share)
    requires Rightly(s, share) && SameTerms(share, Apply(s, a).share) && (a.LoadShare? || a.SaveShare?)
    ensures Rightly(Apply(s, a), share)
  {
    if a.LoadShare? {
      var t := Apply(s, a);
      assert t.flights.Keys == s.flights.Keys && |t.flights.Keys| == |s.flights.Keys|;
    } else {
      RemoveKey(s.flights, a.id);
    }
  }

  lemma StepRightly(s: State, a: Action, share: Share)
    requires Rightly(s, share)
    ensures Rightly(Apply(s, a), share)
  {
    ApplyKeepsTerms(s, a);
    match a
    case Begin(_, _, _) => BeginRightly(s, a, share);
    case LoadShare(_) => OthersRightly(s, a, share);
    case SaveShare(_) => OthersRightly(s, a, share);
    case Abort(id) => RemoveKey(s.flights, id);
    case _ =>
  }

  lemma {:induction false} RunRightly(s: State, actions: seq<Action>, share: Share)
    requires Rightly(s, share)
    ensures Rightly(Run(s, actions), share)
    decreases |actions|
  {
    if actions != [] {
      var next, rest := Apply(s, actions[0]), actions[1..];
      StepRightly(s, actions[0], share);
      RunRightly(next, rest, share);
      assert Run(s, actions) == Run(next, rest);
    }
  }

  /**
   * Under every interleaving each download in flight or recorded was let through in time, with a
   * permission that allows downloading, and from the device the share names if it names one; and the
   * share keeps its terms.
   */
  lemma LetThroughRightly(share: Share, actions: seq<Action>)
    ensures var s := Run(Fresh(share), actions);
      && s.saves + |s.flights| <= |s.starts|
      && (forall start :: start in s.starts ==>
            && start.at <= share.expiresAt && share.permission in {DOWNLOAD, EDIT, FULL_ACCESS}
            && share.device in {"", start.device})
      && s.share == share.(status := s.share.status, downloadCount := s.share.downloadCount)
  {
    RunRightly(Fresh(share), actions, share);
  }

  lemma FoundAlone(share: Share)
    ensures FindActive(map["" := share], share.fileId, share.sharedWith) ==
      if share.status == ACTIVE then Some("") else None
  {
    if share.status == ACTIVE { assert ActiveFor(map["" := share], "", share.fileId, share.sharedWith); }
  }

  /** Beginning a download is Validate on a store that holds the one share. */
  lemma BeginValidates(s: State, id: nat, device: string, now: int)
    requires id !in s.flights
    ensures var begun := Apply(s, Begin(id, device, now));
      var validate := Validate(s.share.fileId, s.share.sharedWith, ToDownload, device, now);
      && begun.share == Step(map["" := s.share], validate)[""]
      && (id in begun.flights <==> Succeeds(map["" := s.share], validate))
  {
    FoundAlone(s.share);
  }

  /** What is written to the share from elsewhere is what Revoke, Sweep and CheckValid write. */
  lemma WritesAreOperations(s: State, now: int)
    ensures var store := map["" := s.share];
      && Apply(s, RevokeShare).share == Step(store, Revoke("", s.share.ownerId, now))[""]
      && Apply(s, ExpireShare(now)).share == Step(store, Sweep(now))[""] == Step(store, CheckValid("", now))[""]
  {
  }

  /** Loading and saving, with nothing between, is RecordDownload; giving up after the load changes nothing. */
  lemma LoadAndSaveRecords(s: State, id: nat, now: int)
    requires id in s.flights && s.flights[id] == Validated
    ensures var loaded := Apply(s, LoadShare(id));
      var saved := Apply(loaded, SaveShare(id));
      && saved.share == Step(map["" := s.share], RecordDownload("", now))[""]
      && saved.flights == s.flights - {id} && saved.saves == s.saves + 1
      && Apply(loaded, Abort(id)) == Apply(s, Abort(id)) == s.(flights := s.flights - {id})
  {
    assert Apply(s, LoadShare(id)).flights - {id} == s.flights - {id};
  }

  /** A share that has left ACTIVE never returns, whatever saves were loaded before it did. */
  lemma {:induction false} EndedForGood(s: State, actions: seq<Action>)
    requires s.share.status != ACTIVE
    ensures Run(s, actions).share.status != ACTIVE
    decreases |actions|
  {
    if actions != [] {
      var next, rest := Apply(s, actions[0]), actions[1..];
      assert next.share.status != ACTIVE;
      EndedForGood(next, rest);
      assert Run(s, actions) == Run(next, rest);
    }
  }

  /** One at a time: the recorded downloads never exceed the limit, and one-time means once. */
  lemma SequentialBudget(share: Share, now: int, actions: seq<Action>)
    requires NewShare(share, now) && Run(Fresh(share), actions).peak <= 1
    ensures var s := Run(Fresh(share), actions);
      && s.share.downloadCount == s.saves
      && (share.maxDownloads.Some? ==> s.saves + |s.flights| <= share.maxDownloads.value)
      && (share.oneTimeAccess ==> s.saves + |s.flights| <= 1)
  {
    RunKeepsInv(Fresh(share), actions);
    AloneRun(Fresh(share), actions);
  }

  /** With one download at a time no save overlaps. */
  ghost predicate Alone(s: State) {
    && Inv(s) && s.peak <= 1 && !s.overlapped
    && (forall id :: id in s.flights && s.flights[id].Loaded? ==> s.flights[id].reading.saves == s.saves)
  }

  lemma AloneBegin(s: State, id: nat, device: string, now: int)
    requires Alone(s) && Apply(s, Begin(id, device, now)).peak <= 1
    ensures Alone(Apply(s, Begin(id, device, now)))
  {
  }

  lemma AloneSave(s: State, id: nat)
    requires Alone(s) && id in s.flights && s.flights[id].Loaded?
    ensures Alone(Apply(s, SaveShare(id)))
  {
  }

  lemma AloneLoad(s: State, id: nat)
    requires Alone(s)
    ensures Alone(Apply(s, LoadShare(id)))
  {
  }

  lemma AloneStep(s: State, a: Action)
    requires Alone(s) && Apply(s, a).peak <= 1
    ensures Alone(Apply(s, a))
  {
    ApplyKeepsInv(s, a);
    match a
    case Begin(id, device, now) => AloneBegin(s, id, device, now);
    case LoadShare(id) => AloneLoad(s, id);
    case SaveShare(id) => if id in s.flights && s.flights[id].Loaded? { AloneSave(s, id); }
    case Abort(id) => RemoveKey(s.flights, id);
    case _ =>
  }

  lemma PeakGrows(s: State, actions: seq<Action>)
    ensures s.peak <= Run(s, actions).peak
    decreases |actions|
  {
    if actions != [] { PeakGrows(Apply(s, actions[0]), actions[1..]); }
  }

  lemma {:induction false} AloneRun(s: State, actions: seq<Action>)
    requires Alone(s) && Run(s, actions).peak <= 1
    ensures Alone(Run(s, actions))
    decreases |actions|
  {
    if actions != [] {
      var next, rest := Apply(s, actions[0]), actions[1..];
      PeakGrows(next, rest);
      AloneStep(s, actions[0]);
      AloneRun(next, rest);
      assert Run(s, actions) == Run(next, rest);
    }
  }

  /** Overlapping saves do lose downloads: two pairs share a limit of 2 and four are recorded. */
  lemma OverlapLosesCount(share: Share)
    requires NewShare(share, 0) && share.maxDownloads == Some(2) && HasPermissionFor(share.permission, ToDownload)
    requires !share.oneTimeAccess && share.device == ""
    ensures var pair := [Begin(1, "", 0), Begin(2, "", 0), LoadShare(1), LoadShare(2), SaveShare(1), SaveShare(2)];
      var s := Run(Run(Fresh(share), pair), pair);
      s.peak == 2 && s.saves == 4 && s.saves > 2 + s.peak - 1 && s.share.downloadCount == 2 && s.overlapped
  {
    PairLosesOne(Fresh(share));
    var pair := [Begin(1, "", 0), Begin(2, "", 0), LoadShare(1), LoadShare(2), SaveShare(1), SaveShare(2)];
    PairLosesOne(Run(Fresh(share), pair));
  }

  lemma RunThree(s: State, a: Action, b: Action, c: Action, rest: seq<Action>)
    ensures Run(s, [a, b, c] + rest) == Run(Apply(Apply(Apply(s, a), b), c), rest)
  {
    var all := [a, b, c] + rest;
    assert all[1..] == [b, c] + rest && all[1..][1..] == [c] + rest && all[1..][1..][1..] == rest;
    assert Run(s, all) == Run(Apply(s, a), all[1..]);
    assert Run(Apply(s, a), all[1..]) == Run(Apply(Apply(s, a), b), all[1..][1..]);
  }

  lemma RunSix(s: State, a: Action, b: Action, c: Action, d: Action, e: Action, f: Action)
    ensures Run(s, [a, b, c, d, e, f]) == Apply(Apply(Apply(Apply(Apply(Apply(s, a), b), c), d), e), f)
  {
    assert [a, b, c, d, e, f] == [a, b, c] + [d, e, f] && [d, e, f] == [d, e, f] + [];
    RunThree(s, a, b, c, [d, e, f]);
    RunThree(Apply(Apply(Apply(s, a), b), c), d, e, f, []);
  }

  lemma PairBegins(s: State, reading: Reading)
    requires s.flights == map[] && s.share.status == ACTIVE && Gate(s.share, ToDownload, "", 0).None?
    requires reading == Load(CounterOf(s))
    ensures Apply(Apply(Apply(s, Begin(1, "", 0)), Begin(2, "", 0)), LoadShare(1))
      == s.(flights := map[1 := Loaded(reading, s.share.status), 2 := Validated], peak := Max(s.peak, 2),
            starts := s.starts + [Start("", 0), Start("", 0)])
  {
  }

  lemma SaveBeforeOther(s: State, reading: Reading)
    requires reading == Load(CounterOf(s))
    requires s.flights == map[1 := Loaded(reading, s.share.status), 2 := Loaded(reading, s.share.status)]
    ensures var share := SaveDownload(s.share, s.share);
      Apply(s, SaveShare(1)) == State(share, s.saves + 1, s.overlapped, map[2 := Loaded(reading, s.share.status)],
        s.peak, Max(s.highest, share.downloadCount), s.starts)
  {
    assert s.share.(downloadCount := reading.value) == s.share;
  }

  lemma PairSaves(s: State, reading: Reading)
    requires reading == Load(CounterOf(s)) && s.flights == map[1 := Loaded(reading, s.share.status), 2 := Validated]
    ensures var s' := Apply(Apply(Apply(s, LoadShare(2)), SaveShare(1)), SaveShare(2));
      var share := SaveDownload(s.share, s.share);
      s'.flights == map[] && s'.saves == s.saves + 2 && s'.peak == s.peak && s'.overlapped && s'.share == share
  {
    var share := SaveDownload(s.share, s.share);
    var loaded := Loaded(reading, s.share.status);
    assert Apply(s, LoadShare(2)) == s.(flights := map[1 := loaded, 2 := loaded]);
    SaveBeforeOther(s.(flights := map[1 := loaded, 2 := loaded]), reading);
    var s2 := State(share, s.saves + 1, s.overlapped, map[2 := loaded], s.peak,
      Max(s.highest, share.downloadCount), s.starts);
    assert Apply(Apply(s, LoadShare(2)), SaveShare(1)) == s2;
    assert s2.flights - {2} == map[];
    assert SaveDownload(share, share.(downloadCount := reading.value)) == share;
  }

  /** Two downloads that load before either saves are recorded as one. */
  lemma PairLosesOne(s: State)
    requires s.flights == map[] && s.share.status == ACTIVE && Gate(s.share, ToDownload, "", 0).None?
    ensures var pair := [Begin(1, "", 0), Begin(2, "", 0), LoadShare(1), LoadShare(2), SaveShare(1), SaveShare(2)];
      var s' := Run(s, pair);
      && s'.flights == map[] && s'.saves == s.saves + 2 && s'.peak == Max(s.peak, 2) && s'.overlapped
      && s'.share == SaveDownload(s.share, s.share)
  {
    var pair := [Begin(1, "", 0), Begin(2, "", 0), LoadShare(1), LoadShare(2), SaveShare(1), SaveShare(2)];
    var reading := Load(CounterOf(s));
    var mid := s.(flights := map[1 := Loaded(reading, s.share.status), 2 := Validated], peak := Max(s.peak, 2),
                  starts := s.starts + [Start("", 0), Start("", 0)]);
    PairBegins(s, reading);
    PairSaves(mid, reading);
    RunSix(s, Begin(1, "", 0), Begin(2, "", 0), LoadShare(1), LoadShare(2), SaveShare(1), SaveShare(2));
  }
}
