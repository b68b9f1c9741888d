/**
 * Refresh-token rotation as concurrent requests over the refresh_tokens collection. A rotation is
 * what refreshTokens awaits: find the unrevoked token, save it revoked, find the user, insert the
 * new token. A login reads the user, compares the password with the hash it read, and inserts its
 * token. Logouts and revoke-alls interleave with all of this freely.
 */
module RefreshTokens {
  import opened Common

  /** `family` is history: the login request whose rotation chain the token belongs to. */
  datatype Token = Token(userId: string, family: nat, isRevoked: bool, expiresAt: int)

  datatype Process =
    | LoginCompare(userId: string)
    | LoginStore(userId: string)
    | Find(hash: string)
    | SaveRevoked(hash: string, stored: Token)
    | FindUser(userId: string, family: nat)
    | Store(userId: string, family: nat)
    | Done

  /** Tokens are counted by user and by family. */
  datatype Group = OfUser(userId: string) | OfFamily(family: nat)

  /**
   * The tokens by hash, the requests, and history: `logins` per group whose password has matched (for
   * a user since the last revoke-all), the requests `carried` past a user's last revoke-all with a token still to
   * store, saves that found their token revoked already (`late`), and redemptions and late
   * redemptions per hash.
   */
  datatype State = State(
    tokens: map<string, Token>, processes: map<nat, Process>,
    logins: multiset<Group>, carried: multiset<Group>, late: multiset<Group>,
    redeemed: multiset<string>, redeemedLate: multiset<string>)

  /** `passes` is the answer that a step waits for: the password matches, or the user is active. */
  datatype Action =
    | StartLogin(id: nat, userId: string)
    | StartRefresh(id: nat, hash: string)
    | Advance(id: nat, now: int, newHash: string, expiresAt: int, passes: bool)
    | Throw(id: nat)
    | Logout(hash: string)
    | RevokeAll(userId: string)

  predicate InGroup(userId: string, family: nat, g: Group) {
    g == OfUser(userId) || g == OfFamily(family)
  }

  ghost function Live(tokens: map<string, Token>, g: Group): set<string> {
    set h | h in tokens && !tokens[h].isRevoked && InGroup(tokens[h].userId, tokens[h].family, g)
  }

  /** Whether the request is past its check with a token still to store: a login, or a rotation past its save. */
  predicate Owes(id: nat, p: Process, g: Group) {
    match p
    case LoginStore(user) => InGroup(user, id, g)
    case FindUser(user, family) => InGroup(user, family, g)
    case Store(user, family) => InGroup(user, family, g)
    case _ => false
  }

  ghost function Pending(processes: map<nat, Process>, g: Group): set<nat> {
    set id | id in processes && Owes(id, processes[id], g)
  }

  /** refreshTokenModel.create: unique on the hash; a duplicate is refused and the request fails. */
  function Insert(tokens: map<string, Token>, hash: string, token: Token): map<string, Token> {
    if hash in tokens then tokens else tokens[hash := token]
  }

  function RevokeHash(tokens: map<string, Token>, hash: string): map<string, Token> {
    if hash in tokens then tokens[hash := tokens[hash].(isRevoked := true)] else tokens
  }

  function RevokeUser(tokens: map<string, Token>, userId: string): map<string, Token> {
    map h | h in tokens :: if tokens[h].userId == userId then tokens[h].(isRevoked := true) else tokens[h]
  }

  /** What a request does next; findOne in Find is for an unrevoked token, and expiry is strict. */
  function NextProcess(tokens: map<string, Token>, p: Process, a: Action): Process
    requires a.Advance?
  {
    match p
    case LoginCompare(user) => if a.passes then LoginStore(user) else Done
    case Find(hash) =>
      if hash in tokens && !tokens[hash].isRevoked && a.now <= tokens[hash].expiresAt
          then SaveRevoked(hash, tokens[hash]) else Done
    case SaveRevoked(hash, stored) => FindUser(stored.userId, stored.family)
    case FindUser(user, family) => if a.passes then Store(user, family) else Done
    case _ => Done
  }

  function NextTokens(tokens: map<string, Token>, id: nat, p: Process, a: Action): map<string, Token>
    requires a.Advance?
  {
    match p
    case LoginStore(user) => Insert(tokens, a.newHash, Token(user, id, false, a.expiresAt))
    case SaveRevoked(hash, _) => RevokeHash(tokens, hash)
    case Store(user, family) => Insert(tokens, a.newHash, Token(user, family, false, a.expiresAt))
    case _ => tokens
  }

  predicate LateSave(tokens: map<string, Token>, p: Process) {
    p.SaveRevoked? && p.hash in tokens && tokens[p.hash].isRevoked
  }

  ghost function Next(s: State, id: nat, a: Action): State
    requires id in s.processes && a.Advance?
  {
    var p := s.processes[id];
    State(
      NextTokens(s.tokens, id, p, a), s.processes[id := NextProcess(s.tokens, p, a)],
      if p.LoginCompare? && a.passes then s.logins + multiset{OfUser(p.userId), OfFamily(id)} else s.logins,
      s.carried,
      if LateSave(s.tokens, p) then s.late + multiset{OfUser(p.stored.userId), OfFamily(p.stored.family)} else s.late,
      if p.SaveRevoked? then s.redeemed + multiset{p.hash} else s.redeemed,
      if LateSave(s.tokens, p) then s.redeemedLate + multiset{p.hash} else s.redeemedLate)
  }

  ghost function Move(s: State, id: nat, p: Process): State {
    s.(processes := s.processes[id := p])
  }

  ghost function Apply(s: State, a: Action): State {
    match a
    case StartLogin(id, user) => if id in s.processes then s else Move(s, id, LoginCompare(user))
    case StartRefresh(id, hash) => if id in s.processes then s else Move(s, id, Find(hash))
    case Advance(id, _, _, _, _) => if id in s.processes then Next(s, id, a) else s
    case Throw(id) => if id in s.processes then Move(s, id, Done) else s
    case Logout(hash) => s.(tokens := RevokeHash(s.tokens, hash))
    case RevokeAll(user) =>
      s.(tokens := RevokeUser(s.tokens, user),
         logins := s.logins[OfUser(user) := 0],
         carried := s.carried[OfUser(user) := |Pending(s.processes, OfUser(user))|],
         late := s.late[OfUser(user) := 0])
  }

  ghost function Run(s: State, actions: seq<Action>): State
    decreases |actions|
  {
    if actions == [] then s else Run(Apply(s, actions[0]), actions[1..])
  }

  const EMPTY := State(map[], map[], multiset{}, multiset{}, multiset{}, multiset{}, multiset{})

  // ---- Counting ----------------------------------------------------------------------------

  lemma LiveInsert(tokens: map<string, Token>, hash: string, token: Token, g: Group)
    requires hash !in tokens && !token.isRevoked
    ensures |Live(tokens[hash := token], g)| ==
      |Live(tokens, g)| + if InGroup(token.userId, token.family, g) then 1 else 0
  {
    SetSizes(Live(tokens, g), hash);
    assert Live(tokens[hash := token], g) == if InGroup(token.userId, token.family, g) then Live(tokens, g) + {hash}
        else Live(tokens, g);
  }

  lemma LiveRevoke(tokens: map<string, Token>, hash: string, g: Group)
    ensures |Live(RevokeHash(tokens, hash), g)| == |Live(tokens, g)| - if hash in Live(tokens, g) then 1 else 0
  {
    SetSizes(Live(tokens, g), hash);
    assert Live(RevokeHash(tokens, hash), g) == Live(tokens, g) - {hash};
  }

  lemma PendingWithout(processes: map<nat, Process>, id: nat, p: Process, g: Group)
    ensures Pending(processes[id := p], g) - {id} == Pending(processes, g) - {id}
    ensures id in Pending(processes[id := p], g) <==> Owes(id, p, g)
  {
  }

  lemma PendingMove(processes: map<nat, Process>, id: nat, p: Process, g: Group)
    ensures |Pending(processes[id := p], g)|
      == |Pending(processes, g)| - (if id in processes && Owes(id, processes[id], g) then 1 else 0) +
        (if Owes(id, p, g) then 1 else 0)
  {
    PendingWithout(processes, id, p, g);
    SetSizes(Pending(processes, g), id);
    SetSizes(Pending(processes[id := p], g), id);
  }

  // ---- What a step adds to a group ---------------------------------------------------------

  /** The live tokens of a group and those its requests are still to store. */
  ghost function Size(s: State, g: Group): nat {
    |Live(s.tokens, g)| + |Pending(s.processes, g)|
  }

  /** A group grows by logins and late saves only. */
  ghost predicate Accounted(s: State, t: State, g: Group) {
    && Size(t, g) - t.logins[g] - t.late[g] <= Size(s, g) - s.logins[g] - s.late[g]
    && t.carried[g] == s.carried[g]
  }

  /** The step is a save, in this group, of a token that somebody else has revoked since it was found. */
  ghost predicate SavesLate(s: State, a: Action, g: Group) {
    && a.Advance? && a.id in s.processes && LateSave(s.tokens, s.processes[a.id])
    && var stored := s.processes[a.id].stored; InGroup(stored.userId, stored.family, g)
  }

  predicate Revoking(a: Action, g: Group) {
    a.RevokeAll? && g == OfUser(a.userId)
  }

  ghost predicate SnapshotOk(tokens: map<string, Token>, p: Process) {
    p.SaveRevoked? ==> p.hash in tokens && tokens[p.hash] == p.stored.(isRevoked := tokens[p.hash].isRevoked)
  }

  ghost predicate SnapshotsOk(s: State) {
    forall id :: id in s.processes ==> SnapshotOk(s.tokens, s.processes[id])
  }

  /** A request stores the token it owed. */
  lemma InsertSize(s: State, id: nat, hash: string, token: Token, g: Group)
    requires id in s.processes && !token.isRevoked
    requires Owes(id, s.processes[id], g) <==> InGroup(token.userId, token.family, g)
    ensures Size(Move(s, id, Done).(tokens := Insert(s.tokens, hash, token)), g) <= Size(s, g)
  {
    PendingMove(s.processes, id, Done, g);
    if hash !in s.tokens { LiveInsert(s.tokens, hash, token, g); }
  }

  lemma SaveSize(s: State, id: nat, a: Action, g: Group)
    requires id in s.processes && s.processes[id].SaveRevoked? && SnapshotOk(s.tokens, s.processes[id])
    requires a.Advance? && a.id == id
    ensures Size(Next(s, id, a), g) == Size(s, g) + if SavesLate(s, a, g) then 1 else 0
  {
    var p := s.processes[id];
    PendingMove(s.processes, id, FindUser(p.stored.userId, p.stored.family), g);
    LiveRevoke(s.tokens, p.hash, g);
  }

  /** A login whose password matches is counted, and owes its token from then on. */
  lemma CompareSize(s: State, a: Action, g: Group)
    requires a.Advance? && a.id in s.processes && s.processes[a.id].LoginCompare?
    ensures Size(Next(s, a.id, a), g) - Next(s, a.id, a).logins[g] == Size(s, g) - s.logins[g]
  {
    var t := Next(s, a.id, a);
    PendingMove(s.processes, a.id, t.processes[a.id], g);
    assert t.tokens == s.tokens;
  }

  lemma NextSize(s: State, a: Action, g: Group)
    requires a.Advance? && a.id in s.processes && SnapshotOk(s.tokens, s.processes[a.id])
    ensures var t := Next(s, a.id, a);
      if SavesLate(s, a, g) then Size(t, g) == Size(s, g) + 1
      else Size(t, g) - t.logins[g] <= Size(s, g) - s.logins[g]
  {
    match s.processes[a.id]
    case LoginCompare(_) => CompareSize(s, a, g);
    case LoginStore(user) => InsertSize(s, a.id, a.newHash, Token(user, a.id, false, a.expiresAt), g);
    case SaveRevoked(_, _) => SaveSize(s, a.id, a, g);
    case Store(user, family) => InsertSize(s, a.id, a.newHash, Token(user, family, false, a.expiresAt), g);
    case _ => PendingMove(s.processes, a.id, Next(s, a.id, a).processes[a.id], g);
  }

  lemma RevokeAllSize(s: State, userId: string, g: Group)
    ensures Live(RevokeUser(s.tokens, userId), OfUser(userId)) == {}
    ensures Size(Apply(s, RevokeAll(userId)), g) <= Size(s, g)
  {
    var after := RevokeUser(s.tokens, userId);
    assert Live(after, g) <= Live(s.tokens, g);
    SubsetSize(Live(after, g), Live(s.tokens, g));
  }

  lemma StartSize(s: State, a: Action, g: Group)
    requires (a.StartLogin? || a.StartRefresh?) && a.id !in s.processes
    ensures Size(Apply(s, a), g) == Size(s, g)
  {
    PendingMove(s.processes, a.id, Apply(s, a).processes[a.id], g);
  }

  lemma LateCount(s: State, a: Action, g: Group)
    requires !Revoking(a, g)
    ensures Apply(s, a).late[g] == s.late[g] + if SavesLate(s, a, g) then 1 else 0
    ensures SavesLate(s, a, g) || !a.Advance? ==> Apply(s, a).logins[g] == s.logins[g]
    ensures Apply(s, a).carried[g] == s.carried[g]
  {
  }

  lemma StepSize(s: State, a: Action, g: Group)
    requires SnapshotsOk(s) && !Revoking(a, g)
    ensures Accounted(s, Apply(s, a), g)
    ensures SavesLate(s, a, g) ==> Size(Apply(s, a), g) == Size(s, g) + 1 && Apply(s, a).logins[g] == s.logins[g]
  {
    LateCount(s, a, g);
    match a
    case StartLogin(id, _) => if id !in s.processes { StartSize(s, a, g); }
    case StartRefresh(id, _) => if id !in s.processes { StartSize(s, a, g); }
    case Advance(id, _, _, _, _) => if id in s.processes { NextSize(s, a, g); }
    case Throw(id) => PendingMove(s.processes, id, Done, g);
    case Logout(hash) => LiveRevoke(s.tokens, hash, g);
    case RevokeAll(user) => RevokeAllSize(s, user, g);
  }

  // ---- The invariant -----------------------------------------------------------------------

  ghost predicate Bounded(s: State, g: Group) {
    Size(s, g) <= s.logins[g] + s.carried[g] + s.late[g]
  }

  ghost predicate LoginsOk(s: State) {
    forall f :: LoginOk(s, f)
  }

  ghost predicate LoginOk(s: State, f: nat) {
    && s.carried[OfFamily(f)] == 0
    && s.logins[OfFamily(f)] <= if f in s.processes && !s.processes[f].LoginCompare? then 1 else 0
  }

  ghost predicate RedemptionsOk(s: State) {
    forall h :: RedemptionOk(s, h)
  }

  ghost predicate Inv(s: State) {
    (forall g :: Bounded(s, g)) && SnapshotsOk(s) && LoginsOk(s) && RedemptionsOk(s)
  }

  /** Tokens are never removed or changed, except that they may become revoked. */
  ghost predicate TokensGrow(a: map<string, Token>, b: map<string, Token>) {
    forall h :: h in a ==> h in b && b[h] == a[h].(isRevoked := b[h].isRevoked) && (a[h].isRevoked ==> b[h].isRevoked)
  }

  lemma ApplyBounded(s: State, a: Action, g: Group)
    requires Bounded(s, g) && SnapshotsOk(s)
    ensures Bounded(Apply(s, a), g)
  {
    if Revoking(a, g) { RevokeAllSize(s, a.userId, g); }
    else { StepSize(s, a, g); }
  }

  lemma NextGrows(tokens: map<string, Token>, id: nat, p: Process, a: Action)
    requires SnapshotOk(tokens, p) && a.Advance?
    ensures TokensGrow(tokens, NextTokens(tokens, id, p, a))
    ensures SnapshotOk(NextTokens(tokens, id, p, a), NextProcess(tokens, p, a))
  {
  }

  lemma ApplySnapshots(s: State, a: Action)
    requires SnapshotsOk(s)
    ensures SnapshotsOk(Apply(s, a)) && TokensGrow(s.tokens, Apply(s, a).tokens)
  {
    var s' := Apply(s, a);
    if a.Advance? && a.id in s.processes {
      NextGrows(s.tokens, a.id, s.processes[a.id], a);
      SnapshotsStable(s, s', a.id);
    } else if a.Logout? || a.RevokeAll? {
      assert TokensGrow(s.tokens, s'.tokens);
      forall id | id in s'.processes ensures SnapshotOk(s'.tokens, s'.processes[id]) {
        assert SnapshotOk(s.tokens, s.processes[id]);
      }
    }
  }

  lemma SnapshotsStable(s: State, s': State, id: nat)
    requires SnapshotsOk(s) && TokensGrow(s.tokens, s'.tokens)
    requires id in s'.processes ==> SnapshotOk(s'.tokens, s'.processes[id])
    requires forall j :: j in s'.processes && j != id ==> j in s.processes && s'.processes[j] == s.processes[j]
    ensures SnapshotsOk(s')
  {
  }

  ghost predicate RedemptionOk(s: State, h: string) {
    s.redeemed[h] <= s.redeemedLate[h] + if h in s.tokens && s.tokens[h].isRevoked then 1 else 0
  }

  lemma NextRedemption(s: State, id: nat, a: Action, h: string)
    requires id in s.processes && SnapshotOk(s.tokens, s.processes[id]) && a.Advance? && RedemptionOk(s, h)
    ensures RedemptionOk(Next(s, id, a), h)
  {
  }

  lemma ApplyCounts(s: State, a: Action)
    requires SnapshotsOk(s) && LoginsOk(s) && RedemptionsOk(s)
    ensures LoginsOk(Apply(s, a)) && RedemptionsOk(Apply(s, a))
  {
    var s' := Apply(s, a);
    ApplySnapshots(s, a);
    forall f ensures LoginOk(s', f) {
      assert LoginOk(s, f);
    }
    forall h ensures RedemptionOk(s', h) {
      assert RedemptionOk(s, h);
      if a.Advance? && a.id in s.processes {
        assert SnapshotOk(s.tokens, s.processes[a.id]);
        NextRedemption(s, a.id, a, h);
      }
    }
  }

  lemma ApplyKeepsInv(s: State, a: Action)
    requires Inv(s)
    ensures Inv(Apply(s, a)) && TokensGrow(s.tokens, Apply(s, a).tokens)
  {
    forall g ensures Bounded(Apply(s, a), g) { ApplyBounded(s, a, g); }
    ApplySnapshots(s, a);
    ApplyCounts(s, a);
  }

  lemma {:induction false} RunKeepsInv(s: State, actions: seq<Action>)
    requires Inv(s)
    ensures Inv(Run(s, actions)) && TokensGrow(s.tokens, Run(s, actions).tokens)
    decreases |actions|
  {
    if actions != [] {
      var next, rest := Apply(s, actions[0]), actions[1..];
      ApplyKeepsInv(s, actions[0]);
      RunKeepsInv(next, rest);
      assert Run(s, actions) == Run(next, rest);
    }
  }

  // ---- What every run satisfies ------------------------------------------------------------

  /**
   * Every interleaving, from an empty store. A family has at most one token live or still to be
   * stored, plus one for each save in it that found its token revoked already; a token is redeemed
   * at most once, plus its late redemptions; a user's tokens, live or still to be stored, are at most
   * the logins whose password has matched since the last revoke-all, plus the requests that had one
   * to store at that moment and outlive it, plus the late saves since.
   */
  lemma FamiliesBounded(actions: seq<Action>, family: nat, hash: string, userId: string)
    ensures var s := Run(EMPTY, actions);
      && Size(s, OfFamily(family)) <= 1 + s.late[OfFamily(family)]
      && s.redeemed[hash] <= 1 + s.redeemedLate[hash]
      && Size(s, OfUser(userId)) <= s.logins[OfUser(userId)] + s.carried[OfUser(userId)] + s.late[OfUser(userId)]
  {
    EmptyInv();
    RunKeepsInv(EMPTY, actions);
    var s := Run(EMPTY, actions);
    assert Bounded(s, OfFamily(family)) && Bounded(s, OfUser(userId));
    assert LoginOk(s, family) && RedemptionOk(s, hash);
  }

  lemma EmptyInv()
    ensures Inv(EMPTY)
  {
  }

  /** A revoked hash is never live again, whatever happens next. */
  lemma RevokedForGood(before: seq<Action>, after: seq<Action>, hash: string)
    requires var t := Run(EMPTY, before).tokens; hash in t && t[hash].isRevoked
    ensures var t := Run(Run(EMPTY, before), after).tokens; hash in t && t[hash].isRevoked
  {
    EmptyInv();
    RunKeepsInv(EMPTY, before);
    RunKeepsInv(Run(EMPTY, before), after);
  }

  // ---- Between find and save ---------------------------------------------------------------

  /** A rotation of this hash is between its find and its save. */
  ghost predicate AboutToSave(s: State, id: nat, hash: string) {
    id in s.processes && s.processes[id].SaveRevoked? && s.processes[id].hash == hash
  }

  predicate ActsOn(a: Action, id: nat) {
    (a.Advance? || a.Throw?) && a.id == id
  }

  lemma OnlyActorMoves(s: State, a: Action, id: nat)
    requires !ActsOn(a, id)
    ensures id in s.processes ==> id in Apply(s, a).processes && Apply(s, a).processes[id] == s.processes[id]
    ensures id !in s.processes && id in Apply(s, a).processes ==> !Apply(s, a).processes[id].SaveRevoked?
  {
  }

  lemma ActorFinds(s: State, a: Action, id: nat, hash: string)
    requires ActsOn(a, id) && AboutToSave(Apply(s, a), id, hash)
    ensures hash in s.tokens && !s.tokens[hash].isRevoked
  {
    assert id in s.processes && a.Advance?;
    assert Apply(s, a).processes[id] == NextProcess(s.tokens, s.processes[id], a);
  }

  /** Where the sections of a hash come from and go to, and what a step does to the hash. */
  lemma SectionFrame(s: State, a: Action, id: nat, hash: string)
    ensures AboutToSave(s, id, hash) && !ActsOn(a, id) ==> AboutToSave(Apply(s, a), id, hash)
    ensures AboutToSave(Apply(s, a), id, hash) && ActsOn(a, id) ==> hash in s.tokens && !s.tokens[hash].isRevoked
    ensures AboutToSave(Apply(s, a), id, hash) && !ActsOn(a, id) ==> AboutToSave(s, id, hash)
  {
    if !ActsOn(a, id) { OnlyActorMoves(s, a, id); }
    else if AboutToSave(Apply(s, a), id, hash) { ActorFinds(s, a, id, hash); }
  }

  lemma RedemptionStep(s: State, a: Action, hash: string)
    ensures Apply(s, a).redeemed[hash] == s.redeemed[hash] + if a.Advance? && AboutToSave(s, a.id, hash) then 1 else 0
  {
  }

  // ---- Exactly when a bound holds throughout -----------------------------------------------

  /** The state before the k-th action. */
  ghost function At(actions: seq<Action>, k: nat): State
    requires k <= |actions|
  {
    Run(EMPTY, actions[..k])
  }

  lemma {:induction false} RunSnoc(s: State, actions: seq<Action>, a: Action)
    ensures Run(s, actions + [a]) == Apply(Run(s, actions), a)
    decreases |actions|
  {
    var all := actions + [a];
    if actions == [] {
      assert all[1..] == [] && Run(Apply(s, a), []) == Apply(s, a);
    } else {
      assert all[0] == actions[0] && all[1..] == actions[1..] + [a];
      RunSnoc(Apply(s, actions[0]), actions[1..], a);
    }
  }

  lemma AtNext(actions: seq<Action>, k: nat)
    requires k < |actions|
    ensures At(actions, k + 1) == Apply(At(actions, k), actions[k]) && Inv(At(actions, k))
  {
    assert actions[..k + 1] == actions[..k] + [actions[k]];
    RunSnoc(EMPTY, actions[..k], actions[k]);
    EmptyInv();
    RunKeepsInv(EMPTY, actions[..k]);
  }

  ghost predicate Within(s: State, g: Group) {
    Size(s, g) <= s.logins[g]
  }

  /**
   * The two ways past the logins: a late save when the group is as large as its logins already, and
   * a revoke-all of a user for whom a login or a rotation has a token still to store.
   */
  ghost predicate Overruns(s: State, a: Action, g: Group) {
    if Revoking(a, g) then Pending(s.processes, g) != {} else SavesLate(s, a, g) && Size(s, g) >= s.logins[g]
  }

  lemma StepOverruns(s: State, a: Action, g: Group)
    requires SnapshotsOk(s) && Within(s, g)
    ensures Within(Apply(s, a), g) <==> !Overruns(s, a, g)
  {
    if Revoking(a, g) {
      RevokeAllSize(s, a.userId, g);
    } else {
      LateCount(s, a, g);
      StepSize(s, a, g);
    }
  }

  lemma EmptyWithin(g: Group)
    ensures Within(EMPTY, g)
  {
    assert Live(EMPTY.tokens, g) == {} && Pending(EMPTY.processes, g) == {};
  }

  lemma NextOverruns(actions: seq<Action>, k: nat, g: Group)
    requires k < |actions| && Within(At(actions, k), g)
    ensures Within(At(actions, k + 1), g) <==> !Overruns(At(actions, k), actions[k], g)
  {
    AtNext(actions, k);
    StepOverruns(At(actions, k), actions[k], g);
  }

  /**
   * Of a family or of a user: at every moment of a run the tokens live or still to be stored are at
   * most the logins (for a user since the last revoke-all), exactly when no action overruns.
   */
  lemma BoundExactly(actions: seq<Action>, g: Group)
    ensures (forall k :: 0 <= k <= |actions| ==> Within(At(actions, k), g))
      <==> (forall k :: 0 <= k < |actions| ==> !Overruns(At(actions, k), actions[k], g))
  {
    if forall k :: 0 <= k < |actions| ==> !Overruns(At(actions, k), actions[k], g) {
      forall k | 0 <= k <= |actions| ensures Within(At(actions, k), g) { StaysWithin(actions, k, g); }
    }
    if forall k :: 0 <= k <= |actions| ==> Within(At(actions, k), g) {
      forall k | 0 <= k < |actions| ensures !Overruns(At(actions, k), actions[k], g) {
        assert Within(At(actions, k), g) && Within(At(actions, k + 1), g);
        NextOverruns(actions, k, g);
      }
    }
  }

  lemma {:induction false} StaysWithin(actions: seq<Action>, k: nat, g: Group)
    requires k <= |actions| && forall j :: 0 <= j < k ==> !Overruns(At(actions, j), actions[j], g)
    ensures Within(At(actions, k), g)
  {
    if k == 0 {
      EmptyWithin(g);
      assert At(actions, 0) == EMPTY;
    } else {
      StaysWithin(actions, k - 1, g);
      NextOverruns(actions, k - 1, g);
    }
  }

  /** The family of the token that a request has found or is to store. */
  function FamilyOf(id: nat, p: Process): Option<nat> {
    match p
    case LoginStore(_) => Some(id)
    case SaveRevoked(_, stored) => Some(stored.family)
    case FindUser(_, family) => Some(family)
    case Store(_, family) => Some(family)
    case _ => None
  }

  ghost predicate HasLogin(logins: multiset<Group>, family: Option<nat>) {
    family.Some? ==> logins[OfFamily(family.value)] > 0
  }

  /** Whatever belongs to a family came from its login. */
  ghost predicate Issued(s: State) {
    && (forall h :: h in s.tokens ==> s.logins[OfFamily(s.tokens[h].family)] > 0)
    && (forall id :: id in s.processes ==> HasLogin(s.logins, FamilyOf(id, s.processes[id])))
  }

  lemma RequestIssued(s: State, a: Action)
    requires Issued(s) && a.Advance? && a.id in s.processes && !s.processes[a.id].LoginCompare?
    ensures Issued(Next(s, a.id, a))
  {
    var p, t := s.processes[a.id], Next(s, a.id, a);
    assert HasLogin(s.logins, FamilyOf(a.id, p));
    forall h | h in t.tokens ensures s.logins[OfFamily(t.tokens[h].family)] > 0 {
      assert h in s.tokens ==> t.tokens[h].family == s.tokens[h].family;
    }
  }

  lemma MoveIssued(s: State, t: State, id: nat)
    requires Issued(s) && t.tokens == s.tokens && s.logins <= t.logins
    requires id in t.processes && t.processes == s.processes[id := t.processes[id]]
    requires HasLogin(t.logins, FamilyOf(id, t.processes[id]))
    ensures Issued(t)
  {
  }

  lemma NextIssued(s: State, a: Action)
    requires Issued(s) && a.Advance? && a.id in s.processes
    ensures Issued(Next(s, a.id, a))
  {
    if s.processes[a.id].LoginCompare? { MoveIssued(s, Next(s, a.id, a), a.id); } else { RequestIssued(s, a); }
  }

  lemma RevokeIssued(s: State, t: State)
    requires Issued(s) && t.processes == s.processes && forall f :: t.logins[OfFamily(f)] == s.logins[OfFamily(f)]
    requires forall h :: h in t.tokens ==> h in s.tokens && t.tokens[h].family == s.tokens[h].family
    ensures Issued(t)
  {
  }

  lemma StepIssued(s: State, a: Action)
    requires Issued(s)
    ensures Issued(Apply(s, a))
  {
    match a
    case StartLogin(id, _) => if id !in s.processes { MoveIssued(s, Apply(s, a), id); }
    case StartRefresh(id, _) => if id !in s.processes { MoveIssued(s, Apply(s, a), id); }
    case Advance(id, _, _, _, _) => if id in s.processes { NextIssued(s, a); }
    case Throw(id) => if id in s.processes { MoveIssued(s, Apply(s, a), id); }
    case Logout(_) => RevokeIssued(s, Apply(s, a));
    case RevokeAll(_) => RevokeIssued(s, Apply(s, a));
  }

  lemma {:induction false} RunIssued(s: State, actions: seq<Action>)
    requires Issued(s)
    ensures Issued(Run(s, actions))
    decreases |actions|
  {
    if actions != [] {
      var next, rest := Apply(s, actions[0]), actions[1..];
      StepIssued(s, actions[0]);
      RunIssued(next, rest);
      assert Run(s, actions) == Run(next, rest);
    }
  }

  /** A family has one login, or nothing belongs to it. */
  lemma FamilyLogin(actions: seq<Action>, family: nat)
    ensures var s, g := Run(EMPTY, actions), OfFamily(family);
      && s.logins[g] <= 1 && (Size(s, g) > 0 ==> s.logins[g] == 1)
      && forall a :: SavesLate(s, a, g) ==> s.logins[g] == 1
  {
    EmptyInv();
    RunKeepsInv(EMPTY, actions);
    RunIssued(EMPTY, actions);
    var s, g := Run(EMPTY, actions), OfFamily(family);
    assert LoginOk(s, family);
    forall a | SavesLate(s, a, g) ensures s.logins[g] == 1 {
      assert HasLogin(s.logins, FamilyOf(a.id, s.processes[a.id]));
    }
    if Live(s.tokens, g) != {} {
      var h :| h in Live(s.tokens, g);
      assert s.logins[g] == 1;
    } else if Pending(s.processes, g) != {} {
      var id :| id in Pending(s.processes, g);
      assert HasLogin(s.logins, FamilyOf(id, s.processes[id]));
    }
  }

  /**
   * At every moment of a run a family has at most one token, live or still to be stored, exactly
   * when no save finds its token revoked already while the family has another.
   */
  lemma FamilyBoundExactly(actions: seq<Action>, family: nat)
    ensures (forall k :: 0 <= k <= |actions| ==> Size(At(actions, k), OfFamily(family)) <= 1)
      <==> (forall k :: 0 <= k < |actions| && SavesLate(At(actions, k), actions[k], OfFamily(family)) ==>
            Size(At(actions, k), OfFamily(family)) == 0)
  {
    var g := OfFamily(family);
    forall k | 0 <= k <= |actions|
      ensures Size(At(actions, k), g) <= 1 <==> Within(At(actions, k), g)
      ensures k < |actions| ==>
        (Overruns(At(actions, k), actions[k], g) <==>
          SavesLate(At(actions, k), actions[k], g) && Size(At(actions, k), g) != 0)
    {
      FamilyLogin(actions[..k], family);
    }
    BoundExactly(actions, g);
  }

  // ---- What outlives a revoke-all or a logout ----------------------------------------------

  /** The request has read this user to log in, has found a token of the group, or is about to store one. */
  predicate AtWork(id: nat, p: Process, g: Group) {
    match p
    case LoginCompare(user) => InGroup(user, id, g)
    case LoginStore(user) => InGroup(user, id, g)
    case SaveRevoked(_, stored) => InGroup(stored.userId, stored.family, g)
    case FindUser(user, family) => InGroup(user, family, g)
    case Store(user, family) => InGroup(user, family, g)
    case _ => false
  }

  predicate NoLogin(actions: seq<Action>, userId: string) {
    forall a :: a in actions && a.StartLogin? ==> a.userId != userId
  }

  ghost predicate Quiet(s: State, g: Group) {
    Live(s.tokens, g) == {} && forall id :: id in s.processes ==> !AtWork(id, s.processes[id], g)
  }

  /** No login of the group begins: its user logs in no more, or its family's one login has been. */
  predicate NoneBegins(processes: map<nat, Process>, actions: seq<Action>, g: Group) {
    match g
    case OfUser(user) => NoLogin(actions, user)
    case OfFamily(family) => family in processes
  }

  lemma NextQuiet(s: State, a: Action, g: Group)
    requires Quiet(s, g) && a.Advance? && a.id in s.processes
    ensures Quiet(Next(s, a.id, a), g)
  {
    var p, t := s.processes[a.id], Next(s, a.id, a);
    assert !AtWork(a.id, p, g);
    forall h ensures h !in Live(t.tokens, g) {
      assert h !in Live(s.tokens, g);
    }
    if p.Find? { assert p.hash !in Live(s.tokens, g); }
  }

  lemma StepQuiet(s: State, a: Action, g: Group)
    requires Quiet(s, g) && NoneBegins(s.processes, [a], g)
    ensures Quiet(Apply(s, a), g) && s.processes.Keys <= Apply(s, a).processes.Keys
  {
    assert a in [a];
    if a.Advance? && a.id in s.processes {
      NextQuiet(s, a, g);
    } else {
      forall h ensures h !in Live(Apply(s, a).tokens, g) {
        assert h !in Live(s.tokens, g);
      }
    }
  }

  lemma {:induction false} RunQuiet(s: State, actions: seq<Action>, g: Group)
    requires Quiet(s, g) && NoneBegins(s.processes, actions, g)
    ensures Quiet(Run(s, actions), g)
    decreases |actions|
  {
    if actions != [] {
      var next, rest := Apply(s, actions[0]), actions[1..];
      StepQuiet(s, actions[0], g);
      RunQuiet(next, rest, g);
      assert Run(s, actions) == Run(next, rest);
    }
  }

  function Go(id: nat, newHash: string, expiresAt: int): Action {
    Advance(id, 0, newHash, expiresAt, true)
  }

  /** A request at work goes on undisturbed and leaves its group a live token. */
  lemma {:induction false} GoesOnToStore(s: State, id: nat, g: Group, a: Action) returns (actions: seq<Action>)
    requires id in s.processes && AtWork(id, s.processes[id], g)
    requires a.Advance? && a.id == id && a.passes && a.newHash !in s.tokens
    ensures (forall b :: b in actions ==> b.Advance?) && Live(Run(s, actions).tokens, g) != {}
    decreases var p := s.processes[id]; if p.SaveRevoked? then 2 else if p.FindUser? || p.LoginCompare? then 1 else 0
  {
    var next := Apply(s, a);
    if s.processes[id].LoginStore? || s.processes[id].Store? {
      actions := [a];
      assert Run(s, actions) == Run(next, []) == next;
      assert a.newHash in Live(next.tokens, g);
    } else {
      var rest := GoesOnToStore(next, id, g, a);
      actions := [a] + rest;
      assert actions[1..] == rest;
    }
  }

  /**
   * What revoking all tokens of a user stops, and what it does not. Afterwards, with no login that
   * reads the user from then on, some continuation leaves the user a live token exactly when at that
   * moment a login had read the user, with the password hash of that time, and not yet stored its
   * token, or a rotation had found its token and not yet stored the next.
   */
  lemma RevokeAllHoldsExactly(s: State, userId: string)
    ensures (forall actions :: NoLogin(actions, userId) ==>
        Live(Run(Apply(s, RevokeAll(userId)), actions).tokens, OfUser(userId)) == {})
      <==> (forall id :: id in s.processes ==> !AtWork(id, s.processes[id], OfUser(userId)))
  {
    var t, g := Apply(s, RevokeAll(userId)), OfUser(userId);
    RevokeAllSize(s, userId, g);
    if forall id :: id in s.processes ==> !AtWork(id, s.processes[id], g) {
      forall actions | NoLogin(actions, userId) ensures Live(Run(t, actions).tokens, g) == {} {
        RunQuiet(t, actions, g);
      }
    } else {
      var id :| id in s.processes && AtWork(id, s.processes[id], g);
      var hash := FreshString(t.tokens.Keys);
      var actions := GoesOnToStore(t, id, g, Go(id, hash, 0));
      assert NoLogin(actions, userId);
    }
  }

  /**
   * What logging out with a refresh token stops, and what it does not. Afterwards the family of the
   * token is without a live token for good exactly when at that moment it had no other live token and
   * no rotation had found one of its tokens without having stored the next.
   */
  lemma LogoutHoldsExactly(before: seq<Action>, hash: string)
    requires hash in Run(EMPTY, before).tokens
    ensures var s := Run(EMPTY, before);
      var g := OfFamily(s.tokens[hash].family);
      (forall actions :: Live(Run(Apply(s, Logout(hash)), actions).tokens, g) == {})
      <==> Live(s.tokens, g) <= {hash} && forall id :: id in s.processes ==> !AtWork(id, s.processes[id], g)
  {
    var s := Run(EMPTY, before);
    var t, g := Apply(s, Logout(hash)), OfFamily(s.tokens[hash].family);
    EmptyInv();
    RunKeepsInv(EMPTY, before);
    RunIssued(EMPTY, before);
    assert LoginOk(s, s.tokens[hash].family);
    assert Live(t.tokens, g) == Live(s.tokens, g) - {hash};
    if exists id :: id in s.processes && AtWork(id, s.processes[id], g) {
      var id :| id in s.processes && AtWork(id, s.processes[id], g);
      var unused := FreshString(t.tokens.Keys);
      var actions := GoesOnToStore(t, id, g, Go(id, unused, 0));
    } else if Live(s.tokens, g) <= {hash} {
      forall actions ensures Live(Run(t, actions).tokens, g) == {} { RunQuiet(t, actions, g); }
    } else {
      var none: seq<Action> := [];
      assert Live(t.tokens, g) != {} && Run(t, none) == t;
    }
  }

  // ---- When a token is redeemed once -------------------------------------------------------

  /** The next thing that happens to this request is its next step, not a failure. */
  predicate GoesOn(actions: seq<Action>, id: nat)
    decreases |actions|
  {
    actions != [] &&
    if ActsOn(actions[0], id) then actions[0].Advance? else GoesOn(actions[1..], id)
  }

  /** Some rotation of this hash saves while another, which goes on to save, is between find and save. */
  ghost predicate SectionsOverlap(s: State, actions: seq<Action>, hash: string)
    decreases |actions|
  {
    actions != [] && (Overtakes(s, actions, hash) || SectionsOverlap(Apply(s, actions[0]), actions[1..], hash))
  }

  ghost predicate Overtakes(s: State, actions: seq<Action>, hash: string)
    requires actions != []
  {
    && actions[0].Advance? && AboutToSave(s, actions[0].id, hash)
    && exists other :: other != actions[0].id && AboutToSave(s, other, hash) && GoesOn(actions[1..], other)
  }

  lemma {:induction false} RedemptionsGrow(s: State, actions: seq<Action>, hash: string)
    ensures Run(s, actions).redeemed[hash] >= s.redeemed[hash]
    decreases |actions|
  {
    if actions != [] {
      RedemptionStep(s, actions[0], hash);
      RedemptionsGrow(Apply(s, actions[0]), actions[1..], hash);
      assert Run(s, actions) == Run(Apply(s, actions[0]), actions[1..]);
    }
  }

  lemma {:induction false} GoingOnRedeems(s: State, actions: seq<Action>, hash: string, id: nat)
    requires AboutToSave(s, id, hash) && GoesOn(actions, id)
    ensures Run(s, actions).redeemed[hash] > s.redeemed[hash]
    decreases |actions|
  {
    var a, next, rest := actions[0], Apply(s, actions[0]), actions[1..];
    assert Run(s, actions) == Run(next, rest);
    RedemptionStep(s, a, hash);
    if ActsOn(a, id) {
      RedemptionsGrow(next, rest, hash);
    } else {
      SectionFrame(s, a, id, hash);
      GoingOnRedeems(next, rest, hash, id);
    }
  }

  lemma {:induction false} OverlapRedeemsTwice(s: State, actions: seq<Action>, hash: string)
    requires SectionsOverlap(s, actions, hash)
    ensures Run(s, actions).redeemed[hash] >= s.redeemed[hash] + 2
    decreases |actions|
  {
    var a, next, rest := actions[0], Apply(s, actions[0]), actions[1..];
    assert Run(s, actions) == Run(next, rest);
    RedemptionStep(s, a, hash);
    if Overtakes(s, actions, hash) {
      var other :| other != a.id && AboutToSave(s, other, hash) && GoesOn(rest, other);
      SectionFrame(s, a, other, hash);
      GoingOnRedeems(next, rest, hash, other);
    } else {
      OverlapRedeemsTwice(next, rest, hash);
    }
  }

  /** Once the hash is revoked and nobody who goes on is about to save it, it is not redeemed again. */
  lemma {:induction false} NoMoreRedemptions(s: State, actions: seq<Action>, hash: string)
    requires SnapshotsOk(s) && hash in s.tokens && s.tokens[hash].isRevoked
    requires forall id :: AboutToSave(s, id, hash) ==> !GoesOn(actions, id)
    ensures Run(s, actions).redeemed[hash] == s.redeemed[hash]
    decreases |actions|
  {
    if actions != [] {
      var a, next, rest := actions[0], Apply(s, actions[0]), actions[1..];
      ApplySnapshots(s, a);
      RedemptionStep(s, a, hash);
      forall id | AboutToSave(next, id, hash) ensures !GoesOn(rest, id) {
        SectionFrame(s, a, id, hash);
        assert !GoesOn(actions, id);
      }
      NoMoreRedemptions(next, rest, hash);
      assert Run(s, actions) == Run(next, rest);
    }
  }

  lemma {:induction false} ApartRedeemsOnce(s: State, actions: seq<Action>, hash: string)
    requires SnapshotsOk(s) && !SectionsOverlap(s, actions, hash)
    ensures Run(s, actions).redeemed[hash] <= s.redeemed[hash] + 1
    decreases |actions|
  {
    if actions != [] {
      var a, next, rest := actions[0], Apply(s, actions[0]), actions[1..];
      ApplySnapshots(s, a);
      assert Run(s, actions) == Run(next, rest);
      RedemptionStep(s, a, hash);
      if a.Advance? && AboutToSave(s, a.id, hash) {
        assert SnapshotOk(s.tokens, s.processes[a.id]);
        forall id | AboutToSave(next, id, hash) ensures !GoesOn(rest, id) {
          SectionFrame(s, a, id, hash);
          assert id != a.id;
        }
        NoMoreRedemptions(next, rest, hash);
      } else {
        ApartRedeemsOnce(next, rest, hash);
      }
    }
  }

  /**
   * In every run, logouts and revoke-alls included, a token is redeemed at most once exactly when no
   * rotation of it saves while another one, which goes on to save too, is between its find and save.
   */
  lemma RedeemedOnceExactly(actions: seq<Action>, hash: string)
    ensures Run(EMPTY, actions).redeemed[hash] <= 1 <==> !SectionsOverlap(EMPTY, actions, hash)
  {
    if SectionsOverlap(EMPTY, actions, hash) {
      OverlapRedeemsTwice(EMPTY, actions, hash);
    } else {
      ApartRedeemsOnce(EMPTY, actions, hash);
    }
  }

  // ---- What a token needs ------------------------------------------------------------------

  predicate AllAfter(actions: seq<Action>, time: int) {
    forall a :: a in actions && a.Advance? ==> a.now > time
  }

  /** A token is not redeemed after its expiry, except by rotations that had found it before. */
  lemma {:induction false} ExpiredNeverRedeemed(s: State, actions: seq<Action>, hash: string)
    requires SnapshotsOk(s) && hash in s.tokens && AllAfter(actions, s.tokens[hash].expiresAt)
    requires forall id :: !AboutToSave(s, id, hash)
    ensures Run(s, actions).redeemed[hash] == s.redeemed[hash]
    decreases |actions|
  {
    if actions != [] {
      var a, next, rest := actions[0], Apply(s, actions[0]), actions[1..];
      assert a in actions && forall other :: other in rest ==> other in actions;
      ApplySnapshots(s, a);
      RedemptionStep(s, a, hash);
      forall id ensures !AboutToSave(next, id, hash) {
        SectionFrame(s, a, id, hash);
        if ActsOn(a, id) && a.Advance? && id in s.processes { LateFind(s, a, hash); }
      }
      ExpiredNeverRedeemed(next, rest, hash);
      assert Run(s, actions) == Run(next, rest);
    }
  }

  lemma LateFind(s: State, a: Action, hash: string)
    requires a.Advance? && a.id in s.processes && hash in s.tokens && a.now > s.tokens[hash].expiresAt
    requires !AboutToSave(s, a.id, hash)
    ensures !AboutToSave(Next(s, a.id, a), a.id, hash)
  {
  }

  /** The request checks this user and the check passes: the password matches, or the user is active. */
  predicate ChecksOut(s: State, a: Action, userId: string) {
    && a.Advance? && a.passes && a.id in s.processes
    && (s.processes[a.id] == LoginCompare(userId) ||
        (s.processes[a.id].FindUser? && s.processes[a.id].userId == userId))
  }

  ghost predicate NeverChecksOut(s: State, actions: seq<Action>, userId: string)
    decreases |actions|
  {
    actions == [] ||
    (!ChecksOut(s, actions[0], userId) && NeverChecksOut(Apply(s, actions[0]), actions[1..], userId))
  }

  predicate StoresFor(p: Process, userId: string) {
    (p.LoginStore? || p.Store?) && p.userId == userId
  }

  ghost predicate NoneStores(s: State, userId: string) {
    forall id :: id in s.processes ==> !StoresFor(s.processes[id], userId)
  }

  ghost predicate NoNewTokens(s: State, t: State, userId: string) {
    forall h :: h in t.tokens && t.tokens[h].userId == userId ==> h in s.tokens && s.tokens[h].userId == userId
  }

  lemma CheckNext(s: State, a: Action, userId: string)
    requires NoneStores(s, userId) && !ChecksOut(s, a, userId) && a.Advance? && a.id in s.processes
    ensures !StoresFor(NextProcess(s.tokens, s.processes[a.id], a), userId)
    ensures NoNewTokens(s, Next(s, a.id, a), userId)
  {
    assert !StoresFor(s.processes[a.id], userId);
  }

  lemma CheckStep(s: State, a: Action, userId: string)
    requires NoneStores(s, userId) && !ChecksOut(s, a, userId)
    ensures NoneStores(Apply(s, a), userId) && NoNewTokens(s, Apply(s, a), userId)
  {
    var t := Apply(s, a);
    if a.Advance? && a.id in s.processes {
      CheckNext(s, a, userId);
    } else {
      assert forall h :: h in t.tokens ==> h in s.tokens && t.tokens[h].userId == s.tokens[h].userId;
    }
    forall id | id in t.processes ensures !StoresFor(t.processes[id], userId) {
      if id in s.processes { assert !StoresFor(s.processes[id], userId); }
    }
  }

  /** No token of a user is stored unless a password of the user matched or the user was found active. */
  lemma {:induction false} StoredOnlyAfterCheck(s: State, actions: seq<Action>, userId: string)
    requires NoneStores(s, userId) && NeverChecksOut(s, actions, userId)
    ensures NoNewTokens(s, Run(s, actions), userId)
    decreases |actions|
  {
    if actions != [] {
      var next, rest := Apply(s, actions[0]), actions[1..];
      CheckStep(s, actions[0], userId);
      StoredOnlyAfterCheck(next, rest, userId);
      assert Run(s, actions) == Run(next, rest);
    }
  }

  // ---- Two runs that exceed the plain bounds -----------------------------------------------

  lemma RunTwo(s: State, a: Action, b: Action, rest: seq<Action>)
    ensures Run(s, [a, b] + rest) == Run(Apply(Apply(s, a), b), rest)
  {
    var all := [a, b] + rest;
    assert all[1..] == [b] + rest && all[1..][1..] == rest;
    assert Run(s, all) == Run(Apply(s, a), all[1..]);
  }

  lemma RunThree(s: State, a: Action, b: Action, c: Action, rest: seq<Action>)
    ensures Run(s, [a, b, c] + rest) == Run(Apply(Apply(Apply(s, a), b), c), rest)
  {
    var all := [a, b, c] + rest;
    assert all[1..] == [b, c] + rest;
    RunTwo(Apply(s, a), b, c, rest);
  }

  /** A login, seen from the empty store. */
  lemma AfterLogin(userId: string, hash: string, expiresAt: int)
    ensures var login := Go(0, hash, expiresAt);
      Apply(Apply(Apply(EMPTY, StartLogin(0, userId)), login), login) ==
        EMPTY.(tokens := map[hash := Token(userId, 0, false, expiresAt)], processes := map[0 := Done],
               logins := multiset{OfUser(userId), OfFamily(0)})
  {
    var compared := EMPTY.(processes := map[0 := LoginStore(userId)], logins := multiset{OfUser(userId), OfFamily(0)});
    assert Apply(Apply(EMPTY, StartLogin(0, userId)), Go(0, hash, expiresAt)) == compared;
  }

  /** The find of a rotation, and the start of the request. */
  lemma AfterFind(s: State, id: nat, hash: string, a: Action)
    requires id !in s.processes && hash in s.tokens && !s.tokens[hash].isRevoked
    requires a.Advance? && a.id == id && a.now <= s.tokens[hash].expiresAt
    ensures Apply(Apply(s, StartRefresh(id, hash)), a) == Move(s, id, SaveRevoked(hash, s.tokens[hash]))
  {
    assert Apply(s, StartRefresh(id, hash)) == Move(s, id, Find(hash));
  }

  /** What a rotation past its save goes on to do. */
  lemma AfterStore(s: State, id: nat, a: Action)
    requires id in s.processes && s.processes[id].FindUser?
    requires a.Advance? && a.id == id && a.passes && a.newHash !in s.tokens
    ensures var p := s.processes[id];
      Apply(Apply(s, a), a) ==
        Move(s, id, Done).(tokens := s.tokens[a.newHash := Token(p.userId, p.family, false, a.expiresAt)])
  {
    var p := s.processes[id];
    assert Apply(s, a) == Move(s, id, Store(p.userId, p.family));
  }

  /** A rotation's save, of a token that is still live. */
  lemma AfterSave(s: State, id: nat, hash: string, token: Token, a: Action)
    requires id in s.processes && s.processes[id] == SaveRevoked(hash, token)
    requires hash in s.tokens && !s.tokens[hash].isRevoked && a.Advance? && a.id == id
    ensures Apply(s, a) ==
      Move(s, id, FindUser(token.userId, token.family)).(tokens := RevokeHash(s.tokens, hash),
        redeemed := s.redeemed + multiset{hash})
  {
  }

  lemma AfterRevokeAll(s: State, hash: string, token: Token, id: nat)
    requires s.tokens == map[hash := token] && token.isRevoked
    requires s.processes == map[0 := Done, id := FindUser(token.userId, token.family)] && id != 0
    ensures var t := Apply(s, RevokeAll(token.userId));
      && t.tokens == s.tokens && t.processes == s.processes
      && t.logins[OfUser(token.userId)] == 0 && t.late[OfUser(token.userId)] == 0 &&
          t.carried[OfUser(token.userId)] == 1
  {
    assert Pending(s.processes, OfUser(token.userId)) == {id};
  }

  /** A login, and the find of a rotation of its token. */
  lemma LoginAndFind(userId: string, h0: string, step: Action, expiresAt: int, rest: seq<Action>) returns (s: State)
    requires step.Advance? && step.id == 1 && step.now <= expiresAt
    ensures var token := Token(userId, 0, false, expiresAt);
      s == EMPTY.(tokens := map[h0 := token], processes := map[0 := Done, 1 := SaveRevoked(h0, token)],
                  logins := multiset{OfUser(userId), OfFamily(0)})
    ensures var login := Go(0, h0, expiresAt);
      Run(EMPTY, [StartLogin(0, userId), login, login] + ([StartRefresh(1, h0), step] + rest)) == Run(s, rest)
  {
    var login := Go(0, h0, expiresAt);
    AfterLogin(userId, h0, expiresAt);
    var s1 := Apply(Apply(Apply(EMPTY, StartLogin(0, userId)), login), login);
    AfterFind(s1, 1, h0, step);
    s := Move(s1, 1, SaveRevoked(h0, s1.tokens[h0]));
    RunThree(EMPTY, StartLogin(0, userId), login, login, [StartRefresh(1, h0), step] + rest);
    RunTwo(s1, StartRefresh(1, h0), step, rest);
  }

  /** The save, a revoke-all, and the rest of the rotation. */
  lemma SaveRevokeStore(s: State, hash: string, token: Token, step: Action)
    requires s.tokens == map[hash := token] && !token.isRevoked
    requires s.processes == map[0 := Done, 1 := SaveRevoked(hash, token)]
    requires step.Advance? && step.id == 1 && step.passes && step.newHash != hash
    ensures var t := Run(s, [step, RevokeAll(token.userId)] + ([step, step] + []));
      && Live(t.tokens, OfUser(token.userId)) == {step.newHash}
      && t.logins[OfUser(token.userId)] == 0 && t.late[OfUser(token.userId)] == 0
      && t.carried[OfUser(token.userId)] == 1
  {
    AfterSave(s, 1, hash, token, step);
    var s3 := Apply(s, step);
    AfterRevokeAll(s3, hash, token.(isRevoked := true), 1);
    var s4 := Apply(s3, RevokeAll(token.userId));
    AfterStore(s4, 1, step);
    RunTwo(s, step, RevokeAll(token.userId), [step, step] + []);
    RunTwo(s4, step, step, []);
  }

  /** A rotation past its save outlives a revoke-all: a live token, and no login since. */
  lemma RotationOutlivesRevokeAll(userId: string, h0: string, h1: string, expiresAt: int)
    requires h0 != h1 && 0 <= expiresAt
    ensures var (login, step) := (Go(0, h0, expiresAt), Go(1, h1, expiresAt));
      var s := Run(EMPTY, [StartLogin(0, userId), login, login]
                          + ([StartRefresh(1, h0), step] + ([step, RevokeAll(userId)] + ([step, step] + []))));
      && Live(s.tokens, OfUser(userId)) == {h1}
      && s.logins[OfUser(userId)] == 0 && s.late[OfUser(userId)] == 0 && s.carried[OfUser(userId)] == 1
  {
    var step := Go(1, h1, expiresAt);
    var rest := [step, RevokeAll(userId)] + ([step, step] + []);
    var s := LoginAndFind(userId, h0, step, expiresAt, rest);
    SaveRevokeStore(s, h0, Token(userId, 0, false, expiresAt), step);
  }

  /** A login that compared its password before a revoke-all stores its token after it: live, and none since. */
  lemma LoginOutlivesRevokeAll(userId: string, hash: string, expiresAt: int)
    ensures var login := Go(0, hash, expiresAt);
      var s := Run(EMPTY, [StartLogin(0, userId), login, RevokeAll(userId)] + ([login] + []));
      && Live(s.tokens, OfUser(userId)) == {hash}
      && s.logins[OfUser(userId)] == 0 && s.late[OfUser(userId)] == 0 && s.carried[OfUser(userId)] == 1
  {
    var login := Go(0, hash, expiresAt);
    RunThree(EMPTY, StartLogin(0, userId), login, RevokeAll(userId), [login] + []);
    var t := Apply(Apply(Apply(EMPTY, StartLogin(0, userId)), login), RevokeAll(userId));
    CarriedLogin(userId, hash, expiresAt);
    assert ([login] + [])[1..] == [] && Run(t, [login] + []) == Run(Apply(t, login), []);
    assert hash in Apply(t, login).tokens;
  }

  lemma CarriedLogin(userId: string, hash: string, expiresAt: int)
    ensures var t := Apply(Apply(Apply(EMPTY, StartLogin(0, userId)), Go(0, hash, expiresAt)), RevokeAll(userId));
      && t.tokens == map[] && t.processes == map[0 := LoginStore(userId)]
      && t.logins[OfUser(userId)] == 0 && t.late == multiset{} && t.carried[OfUser(userId)] == 1
  {
    var compared := EMPTY.(processes := map[0 := LoginStore(userId)], logins := multiset{OfUser(userId), OfFamily(0)});
    assert Apply(Apply(EMPTY, StartLogin(0, userId)), Go(0, hash, expiresAt)) == compared;
    assert Pending(compared.processes, OfUser(userId)) == {0};
  }

  lemma CompareAndStore(s: State, userId: string, login: Action)
    requires s.tokens == map[] && s.processes == map[0 := LoginCompare(userId)]
    requires login.Advance? && login.id == 0 && login.passes
    ensures Live(Apply(Apply(s, login), login).tokens, OfUser(userId)) == {login.newHash}
  {
    var t := Apply(s, login);
    assert t.processes == map[0 := LoginStore(userId)] && t.tokens == map[];
    assert Apply(t, login).tokens == map[login.newHash := Token(userId, 0, false, login.expiresAt)];
  }

  /** A login that read the user before a revoke-all compares with the hash it read and stores a live token. */
  lemma OldPasswordOutlivesRevokeAll(userId: string, hash: string, expiresAt: int)
    ensures var login := Go(0, hash, expiresAt);
      Live(Run(EMPTY, [StartLogin(0, userId), RevokeAll(userId)] + ([login, login] + [])).tokens, OfUser(userId)) ==
        {hash}
  {
    var login := Go(0, hash, expiresAt);
    var s1 := EMPTY.(processes := map[0 := LoginCompare(userId)]);
    assert Apply(EMPTY, StartLogin(0, userId)) == s1;
    var s2 := Apply(s1, RevokeAll(userId));
    assert s2.tokens == map[] && s2.processes == s1.processes;
    RunTwo(EMPTY, StartLogin(0, userId), RevokeAll(userId), [login, login] + []);
    RunTwo(s2, login, login, []);
    CompareAndStore(s2, userId, login);
  }

  /** Two rotations of one token, both past their find, save one after the other; the second is late. */
  lemma BothSave(s: State, i: nat, j: nat, hash: string, token: Token, a1: Action, a2: Action)
    requires i != j && i in s.processes && j in s.processes && s.tokens == map[hash := token] && !token.isRevoked
    requires s.processes[i] == SaveRevoked(hash, token) && s.processes[j] == SaveRevoked(hash, token)
    requires a1.Advance? && a1.id == i && a2.Advance? && a2.id == j
    ensures var t := Apply(Apply(s, a1), a2);
      && t.tokens == map[hash := token.(isRevoked := true)]
      && t.processes == (var past := FindUser(token.userId, token.family); s.processes[i := past][j := past])
      && t.redeemed[hash] == s.redeemed[hash] + 2
  {
    AfterSave(s, i, hash, token, a1);
  }

  /** A login's one token, and two rotations of it past their find. */
  lemma ForkBegins(userId: string, h0: string, one: Action, two: Action, expiresAt: int, rest: seq<Action>)
    returns (s: State)
    requires one.Advance? && one.id == 1 && one.now <= expiresAt && two.Advance? && two.id == 2 && two.now <= expiresAt
    ensures var token := Token(userId, 0, false, expiresAt);
      && s.tokens == map[h0 := token] && s.redeemed == multiset{}
      && s.processes == map[0 := Done, 1 := SaveRevoked(h0, token), 2 := SaveRevoked(h0, token)]
    ensures var login := Go(0, h0, expiresAt);
      Run(EMPTY, [StartLogin(0, userId), login, login]
                 + ([StartRefresh(1, h0), one] + ([StartRefresh(2, h0), two] + rest))) == Run(s, rest)
  {
    var s1 := LoginAndFind(userId, h0, one, expiresAt, [StartRefresh(2, h0), two] + rest);
    AfterFind(s1, 2, h0, two);
    s := Apply(Apply(s1, StartRefresh(2, h0)), two);
    RunTwo(s1, StartRefresh(2, h0), two, rest);
  }

  lemma BothStore(s: State, hash: string, token: Token, one: Action, two: Action)
    requires s.tokens == map[hash := token] && token.isRevoked && 1 in s.processes && 2 in s.processes
    requires s.processes[1] == FindUser(token.userId, token.family) && s.processes[2] == s.processes[1]
    requires one.Advance? && one.id == 1 && one.passes && two.Advance? && two.id == 2 && two.passes
    requires hash != one.newHash && hash != two.newHash && one.newHash != two.newHash
    ensures var t := Run(s, [one, one] + ([two, two] + []));
      t.redeemed == s.redeemed && Live(t.tokens, OfFamily(token.family)) == {one.newHash, two.newHash}
  {
    AfterStore(s, 1, one);
    var s2 := Apply(Apply(s, one), one);
    AfterStore(s2, 2, two);
    RunTwo(s, one, one, [two, two] + []);
    RunTwo(s2, two, two, []);
  }

  lemma ForkEnds(s: State, hash: string, token: Token, one: Action, two: Action)
    requires s.tokens == map[hash := token] && !token.isRevoked
    requires s.processes == map[0 := Done, 1 := SaveRevoked(hash, token), 2 := SaveRevoked(hash, token)]
    requires one.Advance? && one.id == 1 && one.passes && two.Advance? && two.id == 2 && two.passes
    requires hash != one.newHash && hash != two.newHash && one.newHash != two.newHash
    ensures var t := Run(s, [one, two] + ([one, one] + ([two, two] + [])));
      && t.redeemed[hash] == s.redeemed[hash] + 2
      && Live(t.tokens, OfFamily(token.family)) == {one.newHash, two.newHash}
  {
    BothSave(s, 1, 2, hash, token, one, two);
    RunTwo(s, one, two, [one, one] + ([two, two] + []));
    BothStore(Apply(Apply(s, one), two), hash, token.(isRevoked := true), one, two);
  }

  /** Two rotations of the one token of a login, each between its find and its save: two live tokens. */
  lemma InterruptedRotationForks(userId: string, h0: string, h1: string, h2: string, expiresAt: int)
    requires h0 != h1 && h0 != h2 && h1 != h2 && 0 <= expiresAt
    ensures var (login, one, two) := (Go(0, h0, expiresAt), Go(1, h1, expiresAt), Go(2, h2, expiresAt));
      var s := Run(EMPTY, [StartLogin(0, userId), login, login] + ([StartRefresh(1, h0), one]
                          + ([StartRefresh(2, h0), two] + ([one, two] + ([one, one] + ([two, two] + []))))));
      && s.redeemed[h0] == 2
      && Live(s.tokens, OfFamily(0)) == {h1, h2} && |Live(s.tokens, OfFamily(0))| == 2
  {
    var one, two := Go(1, h1, expiresAt), Go(2, h2, expiresAt);
    var s := ForkBegins(userId, h0, one, two, expiresAt, [one, two] + ([one, one] + ([two, two] + [])));
    ForkEnds(s, h0, Token(userId, 0, false, expiresAt), one, two);
  }
}
