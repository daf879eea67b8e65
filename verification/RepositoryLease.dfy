/**
 The repository lease: a lock directory made by mkdir, an owner file written into
 it afterwards, a takeover claim, a quarantine rename, a relinquish marker and a
 generation fence. Every file operation goes through the path of the lock, so
 what it touches is whatever directory is there at that moment.

 A directory is identified by the token its maker draws for it. A live acquirer
 writes its owner file within the grace period after its mkdir, so a claimant that
 waits the grace period out without meeting one has claimed a directory whose maker
 is no longer acquiring; the process probe reports a process dead only when it is.
 */
module RepositoryLease {
  import opened Options

  type Process = nat
  type Token = nat
  type Contender = nat
  type ClaimToken = nat

  datatype Owner = Owner(token: Token, process: Process, generation: nat)

  datatype Directory = Directory(owner: Option<Owner>, claim: Option<ClaimToken>, relinquished: set<Token>)

  /** From mkdir to the rename of the release: the contender counts on its directory. */
  datatype OwnPhase =
    | Made(stolen: nat)
    | Numbered(generation: nat, stolen: nat)
    | Signed(generation: nat, stolen: nat)
    | Recorded(generation: nat, stolen: nat)
    | Holding(generation: nat)
    | Releasing
    | Moving

  /** The rest of release after its rename. */
  datatype LeavePhase =
    | Captured(moved: Token)
    | PuttingBack(moved: Token)
    | Relinquishing
    | Marking

  /** The way from a collision to a takeover. */
  datatype StealPhase =
    | Colliding
    | Observed(observed: Option<Owner>)
    | Cleared(observed: Option<Owner>)
    | Claimed(observed: Option<Owner>, claim: ClaimToken)
    | Recalled(observed: Option<Owner>, claim: ClaimToken, again: Option<Owner>)
    | Entitled(claim: ClaimToken)
    | Withdrawing(claim: ClaimToken, verified: bool, refused: bool)

  /** `stolen` is stolenGeneration of the acquire loop. */
  datatype Stage =
    | Trying(stolen: nat)
    | Own(token: Token, own: OwnPhase)
    | Leave(token: Token, leave: LeavePhase)
    | Steal(stolen: nat, steal: StealPhase)
    | Done

  datatype Member = Member(process: Process, stage: Stage)

  datatype State = State(
    path: Option<Token>, directories: map<Token, Directory>, generation: nat,
    members: map<Contender, Member>, crashed: set<Process>, claims: set<ClaimToken>,
    returned: seq<nat>)

  /** A contender's next step follows from its stage. `failed` is a rename the file system refuses,
      `live` the answer of ownerIsLive, `claim` the claim token drawn for a takeover. */
  datatype Action =
    | Join(id: Contender, process: Process)
    | Crash(process: Process)
    | Fail(id: Contender)
    | Make(id: Contender, token: Token)
    | Collide(id: Contender)
    | OwnStep(id: Contender, failed: bool)
    | LeaveStep(id: Contender)
    | StealStep(id: Contender, live: bool, claim: ClaimToken, failed: bool)

  predicate Live(s: State, id: Contender) {
    id in s.members && s.members[id].process !in s.crashed
  }

  /** A live contender counts on directory `d`. */
  ghost predicate InUse(s: State, d: Token) {
    exists k :: Counts(s, k, d)
  }

  predicate Counts(s: State, k: Contender, d: Token) {
    Live(s, k) && s.members[k].stage.Own? && s.members[k].stage.token == d
  }

  predicate HasDirectory(s: State) {
    s.path.Some? && s.path.value in s.directories
  }

  function Here(s: State): Directory
    requires HasDirectory(s)
  {
    s.directories[s.path.value]
  }

  /** readOwner at the path of the lock. */
  function OwnerAtPath(s: State): Option<Owner> {
    if HasDirectory(s) then Here(s).owner else None
  }

  predicate TokenAtPath(s: State, token: Token) {
    OwnerAtPath(s).Some? && OwnerAtPath(s).value.token == token
  }

  predicate ClaimAtPath(s: State, claim: ClaimToken) {
    HasDirectory(s) && Here(s).claim == Some(claim)
  }

  /** readOwnerWithGrace, called after the claim was placed, has waited the grace period out since then:
      a directory that carries the claim and has no owner file is no live acquirer's. The call before
      the claim promises nothing of the kind, as the directory may have been made just now. */
  ghost predicate GraceRanOut(s: State, claim: ClaimToken) {
    ClaimAtPath(s, claim) ==> OwnerAtPath(s).Some? || !InUse(s, s.path.value)
  }

  /** ownerIsLive answers false: relinquished at the path, or the process is gone. */
  predicate NotLive(s: State, o: Owner) {
    o.process in s.crashed || (HasDirectory(s) && o.token in Here(s).relinquished)
  }

  ghost predicate Enabled(s: State, a: Action) {
    match a
    case Join(id, process) => id !in s.members && process !in s.crashed
    case Crash(_) => true
    case Fail(id) => Live(s, id) && !(s.members[id].stage.Own? && s.members[id].stage.own.Holding?)
    case Make(id, token) => Live(s, id) && s.members[id].stage.Trying? && s.path.None? && token !in s.directories
    case Collide(id) => Live(s, id) && s.members[id].stage.Trying? && s.path.Some?
    case OwnStep(id, _) => Live(s, id) && s.members[id].stage.Own?
    case LeaveStep(id) => Live(s, id) && s.members[id].stage.Leave?
    case StealStep(id, live, claim, _) =>
      && Live(s, id) && s.members[id].stage.Steal?
      && (var p := s.members[id].stage.steal;
          && (p.Claimed? ==> GraceRanOut(s, p.claim))
          && (p.Cleared? ==> claim !in s.claims)
          && (p.Observed? && !live ==> p.observed.None? || NotLive(s, p.observed.value))
          && (p.Recalled? && !live ==> p.again.None? || NotLive(s, p.again.value)))
  }

  function Become(s: State, id: Contender, p: Stage): State
    requires id in s.members
  {
    s.(members := s.members[id := s.members[id].(stage := p)])
  }

  function Rewrite(s: State, d: Directory): State
    requires HasDirectory(s)
  {
    s.(directories := s.directories[s.path.value := d])
  }

  function Max(a: nat, b: nat): nat {
    if a >= b then a else b
  }

  /** acquire after mkdir, the holding of the lease, and release up to its rename. */
  function AfterOwnStep(s: State, id: Contender, token: Token, p: OwnPhase, failed: bool): State
    requires id in s.members
  {
    match p
    case Made(stolen) => Become(s, id, Own(token, Numbered(Max(s.generation, stolen) + 1, stolen)))
    case Numbered(generation, stolen) =>
      // The owner record carries the token drawn for this mkdir; the file lands at the path.
      if HasDirectory(s)
      then Rewrite(Become(s, id, Own(token, Signed(generation, stolen))),
                   Here(s).(owner := Some(Owner(token, s.members[id].process, generation))))
      else Become(s, id, Done)
    case Signed(generation, stolen) =>
      Become(s, id, Own(token, Recorded(generation, stolen))).(generation := generation)
    case Recorded(generation, stolen) =>
      if TokenAtPath(s, token)
      then Become(s, id, Own(token, Holding(generation))).(returned := s.returned + [generation])
      else Become(s, id, Trying(stolen))
    case Holding(_) => Become(s, id, Own(token, Releasing))
    case Releasing => Become(s, id, if TokenAtPath(s, token) then Own(token, Moving) else Done)
    case Moving =>
      if failed || s.path.None? then Become(s, id, Leave(token, Relinquishing))
      else Become(s, id, Leave(token, Captured(s.path.value))).(path := None)
  }

  function AfterLeaveStep(s: State, id: Contender, token: Token, p: LeavePhase): State
    requires id in s.members
  {
    match p
    case Captured(moved) =>
      var foreign := moved in s.directories && s.directories[moved].owner.Some? && s.directories[moved].owner.value.token != token;
      Become(s, id, if foreign then Leave(token, PuttingBack(moved)) else Done)
    case PuttingBack(moved) => Become(s, id, Done).(path := if s.path.None? then Some(moved) else s.path)
    case Relinquishing => Become(s, id, if TokenAtPath(s, token) then Leave(token, Marking) else Done)
    case Marking =>
      if HasDirectory(s) then Rewrite(Become(s, id, Done), Here(s).(relinquished := Here(s).relinquished + {token}))
      else Become(s, id, Done)
  }

  predicate Differs(observed: Option<Owner>, again: Option<Owner>) {
    && observed.Some? && again.Some?
    && (again.value.token != observed.value.token || again.value.generation != observed.value.generation)
  }

  function AfterStealStep(s: State, id: Contender, stolen: nat, p: StealPhase, live: bool, claim: ClaimToken, failed: bool): State
    requires id in s.members
  {
    match p
    case Colliding => Become(s, id, Steal(stolen, Observed(OwnerAtPath(s))))
    case Observed(observed) => Become(s, id, if observed.Some? && live then Done else Steal(stolen, Cleared(observed)))
    case Cleared(observed) =>
      if HasDirectory(s) && Here(s).claim.None?
      then Rewrite(Become(s, id, Steal(stolen, Claimed(observed, claim))), Here(s).(claim := Some(claim))).(claims := s.claims + {claim})
      else Become(s, id, Trying(stolen))
    case Claimed(observed, own) => Become(s, id, Steal(stolen, Recalled(observed, own, OwnerAtPath(s))))
    case Recalled(observed, own, again) =>
      if Differs(observed, again) then Become(s, id, Steal(stolen, Withdrawing(own, false, false)))
      else if again.Some? && live then Become(s, id, Steal(stolen, Withdrawing(own, false, true)))
      else Become(s, id, Steal(Max(stolen, if again.Some? then again.value.generation else 0), Entitled(own)))
    case Entitled(own) =>
      if failed || s.path.None? then Become(s, id, Steal(stolen, Withdrawing(own, false, false)))
      else Become(s, id, Trying(stolen)).(path := None)
    case Withdrawing(own, verified, refused) =>
      var after := if refused then Done else Trying(stolen);
      if !verified
      then Become(s, id, if ClaimAtPath(s, own) then Steal(stolen, Withdrawing(own, true, refused)) else after)
      else if HasDirectory(s) then Rewrite(Become(s, id, after), Here(s).(claim := None))
      else Become(s, id, after)
  }

  function Apply(s: State, a: Action): State
    requires Enabled(s, a)
  {
    match a
    case Join(id, process) => s.(members := s.members[id := Member(process, Trying(0))])
    case Crash(process) => s.(crashed := s.crashed + {process})
    case Fail(id) => Become(s, id, Done)
    case Make(id, token) =>
      Become(s, id, Own(token, Made(s.members[id].stage.stolen))).(
        path := Some(token), directories := s.directories[token := Directory(None, None, {})])
    case Collide(id) => Become(s, id, Steal(s.members[id].stage.stolen, Colliding))
    case OwnStep(id, failed) => AfterOwnStep(s, id, s.members[id].stage.token, s.members[id].stage.own, failed)
    case LeaveStep(id) => AfterLeaveStep(s, id, s.members[id].stage.token, s.members[id].stage.leave)
    case StealStep(id, live, claim, failed) =>
      AfterStealStep(s, id, s.members[id].stage.stolen, s.members[id].stage.steal, live, claim, failed)
  }

  ghost predicate Start(s: State) {
    s.path.None? && s.directories == map[] && s.members == map[] && s.claims == {} && s.returned == []
  }

  ghost predicate Run(states: seq<State>, actions: seq<Action>) {
    && |states| == |actions| + 1 && Start(states[0])
    && forall k :: 0 <= k < |actions| ==> Enabled(states[k], actions[k]) && states[k + 1] == Apply(states[k], actions[k])
  }

  /** The takeover's rename of the lock directory. */
  predicate TakesOver(s: State, a: Action) {
    && a.StealStep? && a.id in s.members && s.members[a.id].stage.Steal? && s.members[a.id].stage.steal.Entitled?
    && !a.failed && s.path.Some?
  }

  /** The takeover renames while the directory at the path still carries its own claim. */
  predicate TakesWhatItClaimed(s: State, a: Action) {
    TakesOver(s, a) ==> ClaimAtPath(s, s.members[a.id].stage.steal.claim)
  }

  // ---------------------------------------------------------------------------
  // The inductive invariant
  // ---------------------------------------------------------------------------

  predicate HasToken(p: Stage) {
    p.Own? || p.Leave?
  }

  /** The directory of every contender exists, and no two contenders share one. */
  ghost predicate Tokens(s: State) {
    && (s.path.Some? ==> s.path.value in s.directories)
    && (forall k :: k in s.members && HasToken(s.members[k].stage) ==> s.members[k].stage.token in s.directories)
    && (forall k, m :: k in s.members && m in s.members && k != m && HasToken(s.members[k].stage) && HasToken(s.members[m].stage)
          ==> s.members[k].stage.token != s.members[m].stage.token)
  }

  /** Who counts on a directory has it at the path, with the owner file it wrote. */
  ghost predicate Stands(s: State, m: Member) {
    m.stage.Own? ==>
      var d, p := m.stage.token, m.stage.own;
      && s.path == Some(d) && d in s.directories
      && (p.Made? || p.Numbered? ==> s.directories[d].owner.None?)
      && (p.Signed? || p.Recorded? || p.Holding? ==> s.directories[d].owner == Some(Owner(d, m.process, p.generation)))
      && (p.Releasing? || p.Moving? ==>
            && s.directories[d].owner.Some?
            && s.directories[d].owner.value.token == d && s.directories[d].owner.value.process == m.process)
  }

  ghost predicate Standing(s: State) {
    forall k :: Live(s, k) ==> Stands(s, s.members[k])
  }

  /** A release moves its own directory away, so nothing is ever put back. */
  ghost predicate Aside(s: State, p: Stage)
    requires p.Leave?
  {
    && !p.leave.PuttingBack?
    && (p.leave.Captured? ==>
          && p.leave.moved == p.token && p.token in s.directories
          && s.directories[p.token].owner.Some? && s.path != Some(p.token))
  }

  ghost predicate Quarantined(s: State) {
    forall k :: Live(s, k) && s.members[k].stage.Leave? ==> Aside(s, s.members[k].stage)
  }

  /** An owner file names the directory it is in; a marker names a directory nobody counts on. */
  ghost predicate Files(s: State) {
    && (forall d :: d in s.directories && s.directories[d].owner.Some? ==> s.directories[d].owner.value.token == d)
    && (forall d, t :: d in s.directories && t in s.directories[d].relinquished ==> t in s.directories && !InUse(s, t))
  }

  ghost predicate Claims(s: State) {
    && (forall d :: d in s.directories && s.directories[d].claim.Some? ==> s.directories[d].claim.value in s.claims)
    && (forall k :: k in s.members && Claiming(s.members[k].stage) ==> s.members[k].stage.steal.claim in s.claims)
  }

  predicate Claiming(p: Stage) {
    p.Steal? && (p.steal.Claimed? || p.steal.Recalled? || p.steal.Entitled?)
  }

  /** What a claimant concluded is true of the directory that carries its claim at the path. */
  ghost predicate Concludes(s: State, p: Stage) {
    p.Steal? ==>
      && (p.steal.Recalled? && ClaimAtPath(s, p.steal.claim) ==>
            p.steal.again == OwnerAtPath(s) && (p.steal.again.None? ==> !InUse(s, s.path.value)))
      && (p.steal.Entitled? && ClaimAtPath(s, p.steal.claim) ==> !InUse(s, s.path.value))
  }

  ghost predicate Conclusions(s: State) {
    forall k :: Live(s, k) ==> Concludes(s, s.members[k].stage)
  }

  ghost predicate Ascending(g: seq<nat>) {
    forall i, j :: 0 <= i < j < |g| ==> g[i] < g[j]
  }

  ghost predicate AllBelow(g: seq<nat>, bound: int) {
    forall i :: 0 <= i < |g| ==> g[i] < bound
  }

  ghost predicate NumbersAhead(s: State, p: Stage) {
    p.Own? ==>
      && (p.own.Numbered? || p.own.Signed? ==> p.own.generation > s.generation)
      && (p.own.Recorded? ==> p.own.generation == s.generation && AllBelow(s.returned, p.own.generation))
  }

  ghost predicate Generations(s: State) {
    && AllBelow(s.returned, s.generation + 1) && Ascending(s.returned)
    && forall k :: Live(s, k) ==> NumbersAhead(s, s.members[k].stage)
  }

  ghost predicate Invariant(s: State) {
    Tokens(s) && Standing(s) && Quarantined(s) && Files(s) && Claims(s) && Conclusions(s) && Generations(s)
  }

  /** What a step leaves alone: everybody else, other directories, the token a contender has. */
  ghost predicate Frame(s: State, s': State, id: Contender)
    requires id in s.members
  {
    && s'.crashed == s.crashed && id in s'.members && s'.members == s.members[id := s'.members[id]]
    && s'.members[id].process == s.members[id].process
    && (forall d :: d in s.directories ==> d in s'.directories)
    && (forall d :: d in s.directories && s.path != Some(d) ==> s'.directories[d] == s.directories[d])
    && (HasToken(s'.members[id].stage) ==>
          HasToken(s.members[id].stage) && s'.members[id].stage.token == s.members[id].stage.token)
    && (s'.members[id].stage.Own? ==> s.members[id].stage.Own?)
    && s'.directories.Keys == s.directories.Keys
    && (s'.path == s.path || s'.path.None? || (s.members[id].stage.Leave? && s.members[id].stage.leave.PuttingBack?))
  }

  lemma StepFrame(s: State, a: Action)
    requires Enabled(s, a) && (a.Fail? || a.Collide? || a.OwnStep? || a.LeaveStep? || a.StealStep?)
    requires s.path.Some? ==> s.path.value in s.directories
    ensures Frame(s, Apply(s, a), a.id)
  {
    if a.OwnStep? { OwnFrame(s, a); } else if a.StealStep? { StealFrame(s, a); }
  }

  lemma OwnFrame(s: State, a: Action)
    requires Enabled(s, a) && a.OwnStep?
    requires s.path.Some? ==> s.path.value in s.directories
    ensures Frame(s, Apply(s, a), a.id)
  {
  }

  lemma StealFrame(s: State, a: Action)
    requires Enabled(s, a) && a.StealStep?
    requires s.path.Some? ==> s.path.value in s.directories
    ensures Frame(s, Apply(s, a), a.id)
  {
  }

  /** No step makes anyone count on a directory that was there before. */
  lemma NoNewUse(s: State, a: Action, d: Token)
    requires Tokens(s) && Enabled(s, a) && d in s.directories
    ensures InUse(Apply(s, a), d) ==> InUse(s, d)
  {
    var s' := Apply(s, a);
    if InUse(s', d) {
      var k :| Counts(s', k, d);
      if !(a.Join? || a.Crash? || a.Make?) { StepFrame(s, a); }
      assert Counts(s, k, d);
    }
  }

  /** A directory that carries an old claim at the path carried it there before. */
  lemma NoNewClaim(s: State, a: Action, claim: ClaimToken)
    requires Invariant(s) && Enabled(s, a) && claim in s.claims && ClaimAtPath(Apply(s, a), claim)
    ensures ClaimAtPath(s, claim) && Apply(s, a).path == s.path
  {
  }

  lemma TokensKept(s: State, a: Action)
    requires Invariant(s) && Enabled(s, a)
    ensures Tokens(Apply(s, a))
  {
    if !(a.Join? || a.Crash? || a.Make?) { StepFrame(s, a); }
  }

  lemma StandingKept(s: State, a: Action)
    requires Invariant(s) && Enabled(s, a) && TakesWhatItClaimed(s, a)
    ensures Standing(Apply(s, a))
  {
    var s' := Apply(s, a);
    forall k | Live(s', k) ensures Stands(s', s'.members[k]) {
      if !(a.Join? || a.Crash? || a.Make?) {
        StepFrame(s, a);
        assert Stands(s, s.members[k]);
        if k == a.id { OwnStands(s, a); } else { OtherStands(s, a, k); }
      }
    }
  }

  lemma OwnStands(s: State, a: Action)
    requires Invariant(s) && Enabled(s, a) && !(a.Join? || a.Crash? || a.Make?)
    ensures Stands(Apply(s, a), Apply(s, a).members[a.id])
  {
    assert Stands(s, s.members[a.id]);
  }

  lemma OtherStands(s: State, a: Action, k: Contender)
    requires Invariant(s) && Enabled(s, a) && TakesWhatItClaimed(s, a) && !(a.Join? || a.Crash? || a.Make?)
    requires Live(s, k) && k != a.id
    ensures Stands(Apply(s, a), s.members[k])
  {
    assert Stands(s, s.members[k]) && Stands(s, s.members[a.id]);
    assert Concludes(s, s.members[a.id].stage);
    if s.members[k].stage.Own? { assert Counts(s, k, s.members[k].stage.token); }
  }

  lemma QuarantinedKept(s: State, a: Action)
    requires Invariant(s) && Enabled(s, a)
    ensures Quarantined(Apply(s, a))
  {
    var s' := Apply(s, a);
    forall k | Live(s', k) && s'.members[k].stage.Leave? ensures Aside(s', s'.members[k].stage) {
      if a.Join? || a.Crash? || a.Make? {
        assert Aside(s, s.members[k].stage);
      } else {
        StepFrame(s, a);
        if k == a.id { OwnAside(s, a); } else { OtherAside(s, a, k); }
      }
    }
  }

  lemma OwnAside(s: State, a: Action)
    requires Invariant(s) && Enabled(s, a) && (a.Fail? || a.Collide? || a.OwnStep? || a.LeaveStep? || a.StealStep?)
    ensures Apply(s, a).members[a.id].stage.Leave? ==> Aside(Apply(s, a), Apply(s, a).members[a.id].stage)
  {
    assert Stands(s, s.members[a.id]);
    assert s.members[a.id].stage.Leave? ==> Aside(s, s.members[a.id].stage);
  }

  lemma OtherAside(s: State, a: Action, k: Contender)
    requires Invariant(s) && Enabled(s, a) && (a.Fail? || a.Collide? || a.OwnStep? || a.LeaveStep? || a.StealStep?)
    requires Live(s, k) && k != a.id && s.members[k].stage.Leave?
    ensures Aside(Apply(s, a), s.members[k].stage)
  {
    StepFrame(s, a);
    assert Aside(s, s.members[k].stage);
    assert s.members[a.id].stage.Leave? ==> Aside(s, s.members[a.id].stage);
  }

  lemma FilesKept(s: State, a: Action)
    requires Invariant(s) && Enabled(s, a)
    ensures Files(Apply(s, a))
  {
    var s' := Apply(s, a);
    forall d, t | d in s'.directories && t in s'.directories[d].relinquished
      ensures t in s'.directories && !InUse(s', t)
    {
      MarkersTrue(s, a, d, t);
    }
  }

  lemma MarkersTrue(s: State, a: Action, d: Token, t: Token)
    requires Invariant(s) && Enabled(s, a)
    requires d in Apply(s, a).directories && t in Apply(s, a).directories[d].relinquished
    ensures t in Apply(s, a).directories && !InUse(Apply(s, a), t)
  {
    if d in s.directories && t in s.directories[d].relinquished {
      NoNewUse(s, a, t);
    } else {
      assert s.members[a.id].stage == Leave(t, Marking);
    }
  }

  lemma ClaimsKept(s: State, a: Action)
    requires Invariant(s) && Enabled(s, a)
    ensures Claims(Apply(s, a))
  {
    if a.StealStep? {
      StealFrame(s, a);
      ClaimsKeptBySteal(s, a);
    } else if !(a.Join? || a.Crash? || a.Make?) {
      StepFrame(s, a);
      SameClaims(s, a);
    }
  }

  lemma SameClaims(s: State, a: Action)
    requires Tokens(s) && Enabled(s, a) && (a.Fail? || a.Collide? || a.OwnStep? || a.LeaveStep?)
    ensures Apply(s, a).claims == s.claims && !Claiming(Apply(s, a).members[a.id].stage)
    ensures forall d :: d in s.directories ==> d in Apply(s, a).directories && Apply(s, a).directories[d].claim == s.directories[d].claim
  {
  }

  lemma ClaimsKeptBySteal(s: State, a: Action)
    requires Tokens(s) && Claims(s) && Enabled(s, a) && a.StealStep?
    ensures s.claims <= Apply(s, a).claims
    ensures Claiming(Apply(s, a).members[a.id].stage) ==> Apply(s, a).members[a.id].stage.steal.claim in Apply(s, a).claims
    ensures forall d :: d in Apply(s, a).directories && Apply(s, a).directories[d].claim.Some? ==>
              Apply(s, a).directories[d].claim.value in Apply(s, a).claims
  {
  }

  lemma ConclusionsKept(s: State, a: Action)
    requires Invariant(s) && Enabled(s, a)
    ensures Conclusions(Apply(s, a))
  {
    hide Invariant, Enabled, Apply, Concludes;
    forall k | Live(Apply(s, a), k) ensures Concludes(Apply(s, a), Apply(s, a).members[k].stage) {
      ConclusionKept(s, a, k);
    }
  }

  lemma ConclusionKept(s: State, a: Action, k: Contender)
    requires Invariant(s) && Enabled(s, a) && Live(Apply(s, a), k)
    ensures Concludes(Apply(s, a), Apply(s, a).members[k].stage)
  {
    if a.StealStep? && a.id == k { OwnConclusion(s, a); } else { StandingConclusion(s, a, k); }
  }

  lemma StandingConclusion(s: State, a: Action, k: Contender)
    requires Invariant(s) && Enabled(s, a) && Live(Apply(s, a), k)
    requires a.StealStep? ==> a.id != k
    ensures Concludes(Apply(s, a), Apply(s, a).members[k].stage)
  {
    var p := Apply(s, a).members[k].stage;
    if Claiming(p) && ClaimAtPath(Apply(s, a), p.steal.claim) {
      assert Live(s, k) && s.members[k].stage == p;
      assert Concludes(s, p);
      NoNewClaim(s, a, p.steal.claim);
      NoNewUse(s, a, s.path.value);
      OwnerKept(s, a, k);
    }
  }

  /** A claimant reads the owner again, or decides on what it read. */
  lemma OwnConclusion(s: State, a: Action)
    requires Invariant(s) && Enabled(s, a) && a.StealStep?
    ensures Concludes(Apply(s, a), Apply(s, a).members[a.id].stage)
  {
    var p := s.members[a.id].stage.steal;
    assert Concludes(s, s.members[a.id].stage);
    if p.Claimed? || p.Recalled? {
      if ClaimAtPath(s, p.claim) { NoNewUse(s, a, s.path.value); }
    }
  }

  /** The owner file a claimant has read again does not change under its claim. */
  lemma OwnerKept(s: State, a: Action, k: Contender)
    requires Invariant(s) && Enabled(s, a) && Live(s, k) && Claiming(s.members[k].stage)
    requires a.Join? || a.Crash? || a.id != k
    requires ClaimAtPath(s, s.members[k].stage.steal.claim) && Apply(s, a).path == s.path
    ensures s.members[k].stage.steal.Recalled? ==> OwnerAtPath(Apply(s, a)) == OwnerAtPath(s)
  {
    assert Concludes(s, s.members[k].stage);
    if a.OwnStep? {
      assert Stands(s, s.members[a.id]);
      assert Counts(s, a.id, s.members[a.id].stage.token);
    }
  }

  /** Two live contenders never count on the lock at once. */
  lemma OneCounts(s: State, k: Contender, m: Contender)
    requires Tokens(s) && Standing(s)
    requires Live(s, k) && s.members[k].stage.Own? && Live(s, m) && s.members[m].stage.Own?
    ensures k == m
  {
    assert Stands(s, s.members[k]) && Stands(s, s.members[m]);
  }

  lemma GenerationsKept(s: State, a: Action)
    requires Invariant(s) && Enabled(s, a)
    ensures Generations(Apply(s, a))
  {
    if a.OwnStep? { GenerationsKeptByOwner(s, a); } else { GenerationsKeptByOthers(s, a); }
  }

  lemma GenerationsKeptByOwner(s: State, a: Action)
    requires Invariant(s) && Enabled(s, a) && a.OwnStep?
    ensures Generations(Apply(s, a))
  {
    var s' := Apply(s, a);
    OwnGenerations(s, a);
    OwnFrame(s, a);
    forall k | Live(s', k) ensures NumbersAhead(s', s'.members[k].stage) {
      if k != a.id && s.members[k].stage.Own? { OneCounts(s, k, a.id); }
    }
  }

  lemma GenerationsKeptByOthers(s: State, a: Action)
    requires Invariant(s) && Enabled(s, a) && !a.OwnStep?
    ensures Generations(Apply(s, a))
  {
    var s' := Apply(s, a);
    SameGenerations(s, a);
    forall k | Live(s', k) ensures NumbersAhead(s', s'.members[k].stage) {
      if k in s.members && s.members[k].stage == s'.members[k].stage { assert NumbersAhead(s, s.members[k].stage); }
    }
  }

  lemma OwnGenerations(s: State, a: Action)
    requires Invariant(s) && Enabled(s, a) && a.OwnStep?
    ensures NumbersAhead(Apply(s, a), Apply(s, a).members[a.id].stage)
    ensures AllBelow(Apply(s, a).returned, Apply(s, a).generation + 1) && Ascending(Apply(s, a).returned)
  {
    assert NumbersAhead(s, s.members[a.id].stage);
  }

  lemma SameGenerations(s: State, a: Action)
    requires Enabled(s, a) && !a.OwnStep?
    ensures Apply(s, a).generation == s.generation && Apply(s, a).returned == s.returned
  {
  }

  lemma InvariantKept(s: State, a: Action)
    requires Invariant(s) && Enabled(s, a) && TakesWhatItClaimed(s, a)
    ensures Invariant(Apply(s, a))
  {
    TokensKept(s, a);
    StandingKept(s, a);
    QuarantinedKept(s, a);
    FilesKept(s, a);
    ClaimsKept(s, a);
    ConclusionsKept(s, a);
    GenerationsKept(s, a);
  }

  // ---------------------------------------------------------------------------
  // Safety over whole runs
  // ---------------------------------------------------------------------------

  /** Runs in which every takeover still has its claim at the path when it renames. */
  ghost predicate CheckedRun(states: seq<State>, actions: seq<Action>) {
    Run(states, actions) && forall k :: 0 <= k < |actions| ==> TakesWhatItClaimed(states[k], actions[k])
  }

  lemma {:induction false} InvariantThroughout(states: seq<State>, actions: seq<Action>, k: nat)
    requires CheckedRun(states, actions) && k < |states|
    ensures Invariant(states[k])
  {
    if k > 0 {
      InvariantThroughout(states, actions, k - 1);
      InvariantKept(states[k - 1], actions[k - 1]);
    }
  }

  /** acquire has returned to a live process and release has not been called. */
  predicate HoldsLease(s: State, k: Contender) {
    Live(s, k) && s.members[k].stage.Own? && s.members[k].stage.own.Holding?
  }

  /** assertCurrent passes: the owner file at the path has the lease's token and generation. */
  predicate Current(s: State, k: Contender)
    requires HoldsLease(s, k)
  {
    TokenAtPath(s, s.members[k].stage.token) && OwnerAtPath(s).value.generation == s.members[k].stage.own.generation
  }

  lemma HeldLeaseIsCurrent(states: seq<State>, actions: seq<Action>, k: nat, id: Contender)
    requires CheckedRun(states, actions) && k < |states| && HoldsLease(states[k], id)
    ensures Current(states[k], id)
  {
    InvariantThroughout(states, actions, k);
    assert Stands(states[k], states[k].members[id]);
  }

  lemma AtMostOneHolder(states: seq<State>, actions: seq<Action>, k: nat, id: Contender, other: Contender)
    requires CheckedRun(states, actions) && k < |states|
    requires HoldsLease(states[k], id) && HoldsLease(states[k], other)
    ensures id == other
  {
    InvariantThroughout(states, actions, k);
    OneCounts(states[k], id, other);
  }

  /** The rename of a takeover never moves a directory a live contender counts on. */
  lemma TakeoverMovesAbandonedDirectories(states: seq<State>, actions: seq<Action>, k: nat)
    requires CheckedRun(states, actions) && k < |actions| && TakesOver(states[k], actions[k])
    ensures !InUse(states[k], states[k].path.value)
  {
    InvariantThroughout(states, actions, k);
    assert Concludes(states[k], states[k].members[actions[k].id].stage);
  }

  lemma GenerationsIncrease(states: seq<State>, actions: seq<Action>, k: nat)
    requires CheckedRun(states, actions) && k < |states|
    ensures Ascending(states[k].returned)
  {
    InvariantThroughout(states, actions, k);
  }

  // ---------------------------------------------------------------------------
  // What happens without that check
  // ---------------------------------------------------------------------------

  ghost predicate Reachable(checked: bool, s: State) {
    exists states, actions :: Run(states, actions) && (checked ==> CheckedRun(states, actions)) && states[|actions|] == s
  }

  lemma Reach(s: State, a: Action, s': State)
    requires Reachable(false, s) && Enabled(s, a) && Apply(s, a) == s'
    ensures Reachable(false, s')
  {
    var states, actions :| Run(states, actions) && states[|actions|] == s;
    assert Run(states + [s'], actions + [a]);
    assert (states + [s'])[|actions + [a]|] == s';
  }

  /** acquire after mkdir, when nobody interferes. */
  function Acquired(s: State, id: Contender): State
    requires id in s.members && s.members[id].stage.Own? && s.members[id].stage.own.Made? && HasDirectory(s)
  {
    var m := s.members[id];
    var g := Max(s.generation, m.stage.own.stolen) + 1;
    Rewrite(Become(s, id, Own(m.stage.token, Holding(g))), Here(s).(owner := Some(Owner(m.stage.token, m.process, g)))).(
      generation := g, returned := s.returned + [g])
  }

  lemma UndisturbedAcquire(s: State, id: Contender)
    requires Reachable(false, s) && Live(s, id) && s.members[id].stage.Own? && s.members[id].stage.own.Made?
    requires s.path == Some(s.members[id].stage.token) && HasDirectory(s)
    ensures Reachable(false, Acquired(s, id))
  {
    var a := OwnStep(id, false);
    var s1 := Apply(s, a);
    Reach(s, a, s1);
    var s2 := Apply(s1, a);
    Reach(s1, a, s2);
    var s3 := Apply(s2, a);
    Reach(s2, a, s3);
    Reach(s3, a, Apply(s3, a));
    assert Apply(s3, a).members == Acquired(s, id).members;
    assert Apply(s3, a) == Acquired(s, id);
  }

  function Released(s: State, id: Contender): State
    requires id in s.members
  {
    Become(s, id, Done).(path := None)
  }

  lemma UndisturbedRelease(s: State, id: Contender)
    requires Reachable(false, s) && HoldsLease(s, id) && Current(s, id) && s.path == Some(s.members[id].stage.token)
    ensures Reachable(false, Released(s, id))
  {
    var a := OwnStep(id, false);
    var s1 := Apply(s, a);
    Reach(s, a, s1);
    var s2 := Apply(s1, a);
    Reach(s1, a, s2);
    var s3 := Apply(s2, a);
    Reach(s2, a, s3);
    Reach(s3, LeaveStep(id), Apply(s3, LeaveStep(id)));
    assert Apply(s3, LeaveStep(id)) == Released(s, id);
  }

  /** A newcomer makes the lock directory. */
  function Entered(s: State, id: Contender, process: Process, token: Token): State {
    s.(members := s.members[id := Member(process, Own(token, Made(0)))],
       path := Some(token), directories := s.directories[token := Directory(None, None, {})])
  }

  lemma UndisturbedEntry(s: State, id: Contender, process: Process, token: Token)
    requires Reachable(false, s) && id !in s.members && process !in s.crashed
    requires s.path.None? && token !in s.directories
    ensures Reachable(false, Entered(s, id, process, token))
  {
    var s1 := Apply(s, Join(id, process));
    Reach(s, Join(id, process), s1);
    Reach(s1, Make(id, token), Entered(s, id, process, token));
  }

  /** A contender that collided finds no lock any more and takes that for an ownerless lock. */
  lemma SeesNoLock(s: State, id: Contender)
    requires Reachable(false, s) && Live(s, id) && s.members[id].stage == Steal(0, Colliding) && s.path.None?
    ensures Reachable(false, Become(s, id, Steal(0, Cleared(None))))
  {
    var look := StealStep(id, false, 0, false);
    Reach(s, look, Become(s, id, Steal(0, Observed(None))));
    Reach(Become(s, id, Steal(0, Observed(None))), look, Become(s, id, Steal(0, Cleared(None))));
  }

  /** The same after its claim is placed. */
  lemma SeesNoLockAgain(s: State, id: Contender, claim: ClaimToken)
    requires Reachable(false, s) && Live(s, id) && s.members[id].stage == Steal(0, Claimed(None, claim)) && s.path.None?
    ensures Reachable(false, Become(s, id, Steal(0, Entitled(claim))))
  {
    var look := StealStep(id, false, 0, false);
    Reach(s, look, Become(s, id, Steal(0, Recalled(None, claim, None))));
    Reach(Become(s, id, Steal(0, Recalled(None, claim, None))), look, Become(s, id, Steal(0, Entitled(claim))));
  }

  lemma FirstHolder() returns (s: State)
    ensures Reachable(false, s) && s.crashed == {} && s.members.Keys == {0} && s.claims == {}
    ensures s.path == Some(0) && s.directories.Keys == {0} && HoldsLease(s, 0) && Current(s, 0)
    ensures s.members[0].stage.token == 0 && s.members[0].process == 0
    ensures HasDirectory(s) && Here(s) == Directory(Some(Owner(0, 0, s.members[0].stage.own.generation)), None, {})
  {
    s := State(None, map[], 0, map[], {}, {}, []);
    assert Run([s], []);
    UndisturbedEntry(s, 0, 0, 0); s := Entered(s, 0, 0, 0);
    UndisturbedAcquire(s, 0); s := Acquired(s, 0);
  }

  /** Contender 0 holds the lease when contender 1 collides with its lock, and then releases it. */
  lemma CollisionThenRelease() returns (s: State)
    ensures Reachable(false, s) && s.crashed == {} && s.members.Keys == {0, 1} && s.claims == {}
    ensures s.path.None? && s.directories.Keys == {0}
    ensures s.members[1] == Member(1, Steal(0, Colliding))
  {
    s := FirstHolder();
    var t := s.(members := s.members[1 := Member(1, Trying(0))]);
    Reach(s, Join(1, 1), t);
    s := Become(t, 1, Steal(0, Colliding));
    Reach(t, Collide(1), s);
    UndisturbedRelease(s, 0); s := Released(s, 0);
  }

  /** 2 makes the next lock, and 1, which has found no lock, puts its claim there. */
  lemma ClaimOnAnotherDirectory() returns (s: State)
    ensures Reachable(false, s) && s.crashed == {} && s.members.Keys == {0, 1, 2}
    ensures s.path == Some(2) && s.directories.Keys == {0, 2} && s.directories[2].owner.None?
    ensures s.members[2] == Member(2, Own(2, Made(0)))
    ensures s.members[1] == Member(1, Steal(0, Claimed(None, 7)))
  {
    s := CollisionThenRelease();
    SeesNoLock(s, 1); s := Become(s, 1, Steal(0, Cleared(None)));
    UndisturbedEntry(s, 2, 2, 2); s := Entered(s, 2, 2, 2);
    var t := Rewrite(Become(s, 1, Steal(0, Claimed(None, 7))), Here(s).(claim := Some(7))).(claims := s.claims + {7});
    Reach(s, StealStep(1, false, 7, false), t);
    s := t;
  }

  /** 2 finishes and releases before 1 reads the owner again, so 1 again finds no lock. */
  lemma EntitledToNothing() returns (s: State)
    ensures Reachable(false, s) && s.crashed == {} && s.members.Keys == {0, 1, 2}
    ensures s.path.None? && s.directories.Keys == {0, 2}
    ensures s.members[1] == Member(1, Steal(0, Entitled(7)))
  {
    s := ClaimOnAnotherDirectory();
    UndisturbedAcquire(s, 2); s := Acquired(s, 2);
    UndisturbedRelease(s, 2); s := Released(s, 2);
    SeesNoLockAgain(s, 1, 7); s := Become(s, 1, Steal(0, Entitled(7)));
  }

  /** Then 3 acquires the lease. */
  lemma EntitledBesideAHolder() returns (s: State)
    ensures Reachable(false, s) && s.crashed == {} && 1 in s.members && 3 in s.members
    ensures s.members[1] == Member(1, Steal(0, Entitled(7))) && HoldsLease(s, 3)
    ensures s.members[3].stage.token == 3 && s.path == Some(3)
  {
    s := EntitledToNothing();
    UndisturbedEntry(s, 3, 3, 3); s := Entered(s, 3, 3, 3);
    UndisturbedAcquire(s, 3); s := Acquired(s, 3);
  }

  /** The rename of 1 moves the directory of 3 although 3 lives and holds it. */
  lemma TakeoverMovesALiveLease()
    ensures exists s, k :: Reachable(false, s) && HoldsLease(s, k) && !Current(s, k)
  {
    var s := EntitledBesideAHolder();
    var t := Become(s, 1, Trying(0)).(path := None);
    Reach(s, StealStep(1, false, 0, false), t);
    assert HoldsLease(t, 3) && !Current(t, 3);
  }

  /** Contender 3 has made the next lock and numbered it when 1 renames it away, and 4 makes another one. */
  lemma TwoLocksWithOneNumber() returns (s: State, g: nat)
    ensures Reachable(false, s) && s.crashed == {} && 3 in s.members && 4 in s.members
    ensures s.path == Some(4) && 4 in s.directories && s.directories[4].owner.None?
    ensures s.members[3] == Member(3, Own(3, Numbered(g, 0))) && s.members[4] == Member(4, Own(4, Numbered(g, 0)))
  {
    s := EntitledToNothing();
    UndisturbedEntry(s, 3, 3, 3); s := Entered(s, 3, 3, 3);
    g := s.generation + 1;
    Reach(s, OwnStep(3, false), Become(s, 3, Own(3, Numbered(g, 0)))); s := Become(s, 3, Own(3, Numbered(g, 0)));
    var t := Become(s, 1, Trying(0)).(path := None);
    Reach(s, StealStep(1, false, 0, false), t);
    UndisturbedEntry(t, 4, 4, 4); s := Entered(t, 4, 4, 4);
    Reach(s, OwnStep(4, false), Become(s, 4, Own(4, Numbered(g, 0)))); s := Become(s, 4, Own(4, Numbered(g, 0)));
  }

  /** The rest of acquire for a contender that has its number, wherever its owner file lands. */
  lemma FinishesAcquire(s: State, id: Contender, g: nat) returns (s': State)
    requires Reachable(false, s) && Live(s, id) && s.members[id].stage == Own(id, Numbered(g, 0)) && HasDirectory(s)
    ensures Reachable(false, s') && s'.crashed == s.crashed && s'.returned == s.returned + [g]
    ensures s'.path == s.path && s'.directories.Keys == s.directories.Keys
    ensures s'.members == s.members[id := Member(s.members[id].process, Own(id, Holding(g)))]
  {
    var a := OwnStep(id, false);
    var s1 := Apply(s, a);
    Reach(s, a, s1);
    var s2 := Apply(s1, a);
    Reach(s1, a, s2);
    s' := Apply(s2, a);
    Reach(s2, a, s');
  }

  /** 3 writes its owner file into the lock of 4, verifies and returns; then 4 overwrites it and returns
      the same generation. */
  lemma OneGenerationTwice()
    ensures exists s :: Reachable(false, s) && !Ascending(s.returned)
  {
    var s, g := TwoLocksWithOneNumber();
    var t := FinishesAcquire(s, 3, g);
    var u := FinishesAcquire(t, 4, g);
    var n := |s.returned|;
    assert u.returned[n] == g && u.returned[n + 1] == g;
  }

  /** The lease of 3 has been moved away, and 4 acquires another one. */
  lemma TwoHolders()
    ensures exists s, k, m :: Reachable(false, s) && HoldsLease(s, k) && HoldsLease(s, m) && k != m
  {
    var s, g := TwoLocksWithOneNumber();
    var t := FinishesAcquire(s, 3, g);
    var u := FinishesAcquire(t, 4, g);
    assert HoldsLease(u, 3) && HoldsLease(u, 4);
  }

  /** Every held lease is current in every reachable state exactly when takeovers check, before they
      rename, that the directory at the path is the one they claimed. The code does not check. */
  lemma LeasesNeedTheClaimCheck(checked: bool)
    ensures checked <==> forall s, k :: Reachable(checked, s) && HoldsLease(s, k) ==> Current(s, k)
  {
    if checked {
      forall s, k | Reachable(checked, s) && HoldsLease(s, k) ensures Current(s, k) {
        var states, actions :| CheckedRun(states, actions) && states[|actions|] == s;
        HeldLeaseIsCurrent(states, actions, |actions|, k);
      }
    } else {
      TakeoverMovesALiveLease();
    }
  }

  /** At most one live process holds an unreleased lease, in all reachable states, exactly with that check. */
  lemma ExclusionNeedsTheClaimCheck(checked: bool)
    ensures checked <==> forall s, k, m :: Reachable(checked, s) && HoldsLease(s, k) && HoldsLease(s, m) ==> k == m
  {
    if checked {
      forall s, k, m | Reachable(checked, s) && HoldsLease(s, k) && HoldsLease(s, m) ensures k == m {
        var states, actions :| CheckedRun(states, actions) && states[|actions|] == s;
        AtMostOneHolder(states, actions, |actions|, k, m);
      }
    } else {
      TwoHolders();
    }
  }

  /** The generations that acquire returns increase in every run exactly with that check. */
  lemma GenerationsNeedTheClaimCheck(checked: bool)
    ensures checked <==> forall s :: Reachable(checked, s) ==> Ascending(s.returned)
  {
    if checked {
      forall s | Reachable(checked, s) ensures Ascending(s.returned) {
        var states, actions :| CheckedRun(states, actions) && states[|actions|] == s;
        GenerationsIncrease(states, actions, |actions|);
      }
    } else {
      OneGenerationTwice();
    }
  }

  ghost predicate MayTakeOver(checked: bool, s: State, a: Action) {
    Reachable(checked, s) && Enabled(s, a) && TakesOver(s, a) && (checked ==> TakesWhatItClaimed(s, a))
  }

  /** Takeovers spare every directory that a live contender counts on exactly with that check. */
  lemma TakeoversNeedTheClaimCheck(checked: bool)
    ensures checked <==> forall s, a :: MayTakeOver(checked, s, a) ==> !InUse(s, s.path.value)
  {
    if checked {
      forall s, a | MayTakeOver(checked, s, a) ensures !InUse(s, s.path.value) {
        var states, actions :| CheckedRun(states, actions) && states[|actions|] == s;
        InvariantThroughout(states, actions, |actions|);
        assert Concludes(s, s.members[a.id].stage);
      }
    } else {
      var s := EntitledBesideAHolder();
      var a := StealStep(1, false, 0, false);
      assert MayTakeOver(false, s, a) && Counts(s, 3, 3);
    }
  }

  // ---------------------------------------------------------------------------
  // What holds without it
  // ---------------------------------------------------------------------------

  /** A directory that a release has moved exists. */
  ghost predicate MovedExist(s: State) {
    forall k :: k in s.members && s.members[k].stage.Leave? ==>
      var p := s.members[k].stage.leave;
      p.Captured? || p.PuttingBack? ==> p.moved in s.directories
  }

  lemma MovedKept(s: State, a: Action)
    requires Tokens(s) && MovedExist(s) && Enabled(s, a)
    ensures Tokens(Apply(s, a)) && MovedExist(Apply(s, a))
  {
    if !(a.Join? || a.Crash? || a.Make?) { StepFrame(s, a); }
  }

  lemma {:induction false} MovedThroughout(states: seq<State>, actions: seq<Action>, k: nat)
    requires Run(states, actions) && k < |states|
    ensures Tokens(states[k]) && MovedExist(states[k])
  {
    if k > 0 {
      MovedThroughout(states, actions, k - 1);
      MovedKept(states[k - 1], actions[k - 1]);
    }
  }

  /** In every run, checked or not, assertCurrent passes for at most one lease. */
  lemma OneCurrentLease(s: State, k: Contender, m: Contender)
    requires Reachable(false, s) && HoldsLease(s, k) && HoldsLease(s, m) && Current(s, k) && Current(s, m)
    ensures k == m
  {
    var states, actions :| Run(states, actions) && states[|actions|] == s;
    MovedThroughout(states, actions, |actions|);
  }

  // ---------------------------------------------------------------------------
  // Abandoned locks are taken over
  // ---------------------------------------------------------------------------

  /** Between its two reads a contender has seen one owner. */
  predicate SameOwner(observed: Option<Owner>, again: Option<Owner>) {
    observed.Some? && again.Some? ==> again.value.token == observed.value.token && again.value.generation == observed.value.generation
  }

  /** The answer that `acquire` throws for: the owner it read, and ownerIsLive said yes. */
  predicate AnsweredLive(p: StealPhase, live: bool) {
    live && ((p.Observed? && p.observed.Some?) || (p.Recalled? && p.again.Some? && SameOwner(p.observed, p.again)))
  }

  /** On its way to a takeover a contender decides to give up exactly before an owner that answered live,
      and goes on to its rename only when the owner has not changed since. */
  lemma GivesUpBeforeLiveOwners(s: State, a: Action)
    requires Enabled(s, a) && a.StealStep? && !s.members[a.id].stage.steal.Withdrawing?
    ensures
      var p, after := s.members[a.id].stage.steal, Apply(s, a).members[a.id].stage;
      && (AnsweredLive(p, a.live) <==> after.Done? || (after.Steal? && after.steal.Withdrawing? && after.steal.refused))
      && (p.Recalled? ==>
            && ((after.Steal? && after.steal.Entitled?) <==> (SameOwner(p.observed, p.again) && (p.again.None? || !a.live)))
            && (!(after.Steal? && after.steal.Entitled?) ==>
                  after == Steal(s.members[a.id].stage.stolen, Withdrawing(p.claim, false, AnsweredLive(p, a.live)))))
  {
  }

  /** A contender that withdraws takes its claim away again. */
  lemma WithdrawsItsClaim(s: State, id: Contender, claim: ClaimToken, refused: bool)
    requires Reachable(false, s) && Live(s, id) && s.members[id].stage.Steal? && ClaimAtPath(s, claim)
    requires s.members[id].stage.steal == Withdrawing(claim, false, refused)
    ensures
      var after := if refused then Done else Trying(s.members[id].stage.stolen);
      Reachable(false, Rewrite(Become(s, id, after), Here(s).(claim := None)))
  {
    hide Reachable;
    var look := StealStep(id, false, 0, false);
    var stolen := s.members[id].stage.stolen;
    var t := Become(s, id, Steal(stolen, Withdrawing(claim, true, refused)));
    Reach(s, look, t);
    var after := if refused then Done else Trying(stolen);
    assert Become(t, id, after) == Become(s, id, after);
    Reach(t, look, Rewrite(Become(s, id, after), Here(s).(claim := None)));
  }

  /** A takeover whose rename is refused takes its claim away again. */
  lemma RefusedRenameWithdraws(s: State, id: Contender, claim: ClaimToken)
    requires Reachable(false, s) && Live(s, id) && s.members[id].stage.Steal? && ClaimAtPath(s, claim)
    requires s.members[id].stage.steal == Entitled(claim)
    ensures Reachable(false, Rewrite(Become(s, id, Trying(s.members[id].stage.stolen)), Here(s).(claim := None)))
  {
    hide Reachable;
    var stolen := s.members[id].stage.stolen;
    var t := Become(s, id, Steal(stolen, Withdrawing(claim, false, false)));
    Reach(s, StealStep(id, false, 0, true), t);
    WithdrawsItsClaim(t, id, claim, false);
    assert Become(t, id, Trying(stolen)) == Become(s, id, Trying(stolen));
  }

  /** Where the lock at the path is not the own one, or carries another's claim, nothing but the stage changes. */
  lemma LeavesForeignLocksAlone(s: State, id: Contender, claim: ClaimToken, failed: bool)
    requires Live(s, id) && claim !in s.claims
    requires
      var p := s.members[id].stage;
      || (p.Own? && p.own.Releasing? && !TokenAtPath(s, p.token))
      || (p.Leave? && p.leave.Relinquishing? && !TokenAtPath(s, p.token))
      || (p.Steal? && p.steal.Withdrawing? && !p.steal.verified && !ClaimAtPath(s, p.steal.claim))
      || (p.Steal? && p.steal.Cleared? && (!HasDirectory(s) || Here(s).claim.Some?))
    ensures
      var p := s.members[id].stage;
      var a := if p.Own? then OwnStep(id, failed) else if p.Leave? then LeaveStep(id) else StealStep(id, false, claim, failed);
      && Enabled(s, a)
      && Apply(s, a) == Become(s, id, if p.Steal? && (p.steal.Cleared? || !p.steal.refused) then Trying(p.stolen) else Done)
  {
  }

  /** A contender that has collided with the unclaimed lock of an owner that is not live gets entitled. */
  function EntitledTo(s: State, id: Contender, o: Owner, claim: ClaimToken): State
    requires id in s.members && s.members[id].stage.Trying? && HasDirectory(s)
  {
    Rewrite(Become(s, id, Steal(Max(s.members[id].stage.stolen, o.generation), Entitled(claim))), Here(s).(claim := Some(claim))).(
      claims := s.claims + {claim})
  }

  lemma ClaimsDeadOwner(s: State, id: Contender, o: Owner, claim: ClaimToken)
    requires Reachable(false, s) && Live(s, id) && s.members[id].stage.Trying? && HasDirectory(s)
    requires Here(s).owner == Some(o) && Here(s).claim.None? && NotLive(s, o) && claim !in s.claims
    ensures
      var stolen := s.members[id].stage.stolen;
      Reachable(false, Rewrite(Become(s, id, Steal(stolen, Claimed(Some(o), claim))), Here(s).(claim := Some(claim))).(claims := s.claims + {claim}))
  {
    hide Reachable;
    var look, stolen := StealStep(id, false, claim, false), s.members[id].stage.stolen;
    Reach(s, Collide(id), Become(s, id, Steal(stolen, Colliding)));
    Reach(Become(s, id, Steal(stolen, Colliding)), look, Become(s, id, Steal(stolen, Observed(Some(o)))));
    Reach(Become(s, id, Steal(stolen, Observed(Some(o)))), look, Become(s, id, Steal(stolen, Cleared(Some(o)))));
    Reach(Become(s, id, Steal(stolen, Cleared(Some(o)))), look,
          Rewrite(Become(s, id, Steal(stolen, Claimed(Some(o), claim))), Here(s).(claim := Some(claim))).(claims := s.claims + {claim}));
  }

  lemma IsEntitled(s: State, id: Contender, o: Owner, claim: ClaimToken)
    requires Reachable(false, s) && Live(s, id) && s.members[id].stage.Trying? && HasDirectory(s)
    requires Here(s).owner == Some(o) && Here(s).claim.None? && NotLive(s, o) && claim !in s.claims
    ensures Reachable(false, EntitledTo(s, id, o, claim))
  {
    hide Reachable;
    ClaimsDeadOwner(s, id, o, claim);
    var look, stolen := StealStep(id, false, claim, false), s.members[id].stage.stolen;
    var t := Rewrite(Become(s, id, Steal(stolen, Claimed(Some(o), claim))), Here(s).(claim := Some(claim))).(claims := s.claims + {claim});
    var u := Become(t, id, Steal(stolen, Recalled(Some(o), claim, Some(o))));
    Reach(t, look, u);
    assert NotLive(u, o);
    assert Become(u, id, Steal(Max(stolen, o.generation), Entitled(claim))) == EntitledTo(s, id, o, claim);
    Reach(u, look, EntitledTo(s, id, o, claim));
  }

  /** Undisturbed, it renames the lock away, makes its own and holds a lease of a greater generation. */
  lemma TakesOverDeadOwner(s: State, id: Contender, o: Owner, claim: ClaimToken, token: Token) returns (s': State)
    requires Reachable(false, s) && Live(s, id) && s.members[id].stage.Trying? && HasDirectory(s)
    requires Here(s).owner == Some(o) && Here(s).claim.None? && NotLive(s, o) && claim !in s.claims && token !in s.directories
    ensures Reachable(false, s') && s'.crashed == s.crashed && HoldsLease(s', id) && Current(s', id)
    ensures s'.members[id].stage.own.generation > o.generation && s'.members[id].stage.own.generation > s.generation
    ensures forall k :: k in s.members && k != id ==> k in s'.members && s'.members[k] == s.members[k]
  {
    hide Reachable;
    IsEntitled(s, id, o, claim);
    var t, stolen := EntitledTo(s, id, o, claim), Max(s.members[id].stage.stolen, o.generation);
    var free := Become(t, id, Trying(stolen)).(path := None);
    Reach(t, StealStep(id, false, claim, false), free);
    var made := Become(free, id, Own(token, Made(stolen))).(
      path := Some(token), directories := free.directories[token := Directory(None, None, {})]);
    Reach(free, Make(id, token), made);
    UndisturbedAcquire(made, id);
    s' := Acquired(made, id);
  }

  /** A release whose rename is refused leaves a marker. */
  function Relinquished(s: State, id: Contender): State
    requires id in s.members && s.members[id].stage.Own? && HasDirectory(s)
  {
    Rewrite(Become(s, id, Done), Here(s).(relinquished := Here(s).relinquished + {s.members[id].stage.token}))
  }

  lemma RefusedRelease(s: State, id: Contender)
    requires Reachable(false, s) && HoldsLease(s, id) && Current(s, id)
    ensures Reachable(false, Relinquished(s, id))
  {
    hide Reachable;
    var token := s.members[id].stage.token;
    Reach(s, OwnStep(id, false), Become(s, id, Own(token, Releasing)));
    Reach(Become(s, id, Own(token, Releasing)), OwnStep(id, false), Become(s, id, Own(token, Moving)));
    Reach(Become(s, id, Own(token, Moving)), OwnStep(id, true), Become(s, id, Leave(token, Relinquishing)));
    Reach(Become(s, id, Leave(token, Relinquishing)), LeaveStep(id), Become(s, id, Leave(token, Marking)));
    assert Become(Become(s, id, Leave(token, Marking)), id, Done) == Become(s, id, Done);
    Reach(Become(s, id, Leave(token, Marking)), LeaveStep(id), Relinquished(s, id));
  }

  lemma NewcomerTries(s: State, id: Contender, process: Process) returns (t: State)
    requires Reachable(false, s) && id !in s.members && process !in s.crashed
    ensures Reachable(false, t) && t == s.(members := s.members[id := Member(process, Trying(0))])
  {
    t := s.(members := s.members[id := Member(process, Trying(0))]);
    Reach(s, Join(id, process), t);
  }

  /** A holder's process dies; a newcomer takes the lock over and holds a greater generation. */
  lemma CrashedHolderIsReplaced()
    ensures exists s, g :: Reachable(false, s) && 0 in s.members && s.members[0] == Member(0, Own(0, Holding(g))) && 0 in s.crashed
                        && HoldsLease(s, 1) && Current(s, 1) && s.members[1].stage.own.generation > g
  {
    hide Reachable;
    var s := FirstHolder();
    var g := s.members[0].stage.own.generation;
    Reach(s, Crash(0), s.(crashed := {0}));
    var t := NewcomerTries(s.(crashed := {0}), 1, 1);
    var u := TakesOverDeadOwner(t, 1, Owner(0, 0, g), 7, 1);
    assert u.members[0] == s.members[0];
  }

  /** The rename of a release is refused; a newcomer takes the lock over although the releaser's process lives. */
  lemma RelinquishedLockIsTaken()
    ensures exists s :: Reachable(false, s) && 0 in s.members && s.members[0].stage.Done? && Live(s, 0)
                     && HoldsLease(s, 1) && Current(s, 1)
  {
    hide Reachable;
    var s := FirstHolder();
    var o := Owner(0, 0, s.members[0].stage.own.generation);
    RefusedRelease(s, 0);
    var t := NewcomerTries(Relinquished(s, 0), 1, 1);
    assert Here(t).relinquished == {0};
    var u := TakesOverDeadOwner(t, 1, o, 7, 1);
    assert u.members[0] == t.members[0];
  }

  // ---------------------------------------------------------------------------
  // What acquire and release promise in every run
  // ---------------------------------------------------------------------------

  /** An owner file with a contender's token says what that contender wrote. */
  predicate Agrees(m: Member, o: Owner) {
    m.stage.Own? && m.stage.token == o.token ==> Wrote(m.stage.own, o)
  }

  predicate Wrote(p: OwnPhase, o: Owner) {
    !p.Made? && !p.Numbered? && (p.Signed? || p.Recorded? || p.Holding? ==> p.generation == o.generation)
  }

  ghost predicate AllAgree(s: State, o: Owner) {
    o.token in s.directories && forall k :: k in s.members ==> Agrees(s.members[k], o)
  }

  ghost predicate FilesAgree(s: State) {
    forall d :: d in s.directories && s.directories[d].owner.Some? ==> AllAgree(s, s.directories[d].owner.value)
  }

  /** The next phase of the contender agrees with the file too. */
  lemma StepAgrees(s: State, a: Action, o: Owner)
    requires Enabled(s, a) && !a.Crash? && o.token in s.directories
    requires a.id in s.members ==> Agrees(s.members[a.id], o)
    ensures Agrees(Apply(s, a).members[a.id], o)
  {
  }

  lemma OldFileAgrees(s: State, a: Action, o: Owner)
    requires Tokens(s) && Enabled(s, a) && AllAgree(s, o)
    ensures AllAgree(Apply(s, a), o)
  {
    if !a.Crash? { StepAgrees(s, a, o); }
    if a.Join? || a.Crash? || a.Make? {
      assert forall k :: k in s.members && (a.Crash? || k != a.id) ==> Apply(s, a).members[k] == s.members[k];
    } else {
      StepFrame(s, a);
    }
    hide Apply, Agrees, Enabled;
  }

  /** The file that a contender writes agrees with it, and with nobody else as tokens differ. */
  lemma NewFileAgrees(s: State, a: Action)
    requires Tokens(s) && Enabled(s, a) && a.OwnStep? && s.members[a.id].stage.own.Numbered? && HasDirectory(s)
    ensures AllAgree(Apply(s, a), Owner(s.members[a.id].stage.token, s.members[a.id].process, s.members[a.id].stage.own.generation))
  {
  }

  lemma FilesAgreeKept(s: State, a: Action)
    requires Tokens(s) && FilesAgree(s) && Enabled(s, a)
    ensures FilesAgree(Apply(s, a))
  {
    var s' := Apply(s, a);
    forall d | d in s'.directories && s'.directories[d].owner.Some? ensures AllAgree(s', s'.directories[d].owner.value) {
      if d in s.directories && s'.directories[d].owner == s.directories[d].owner {
        OldFileAgrees(s, a, s.directories[d].owner.value);
      } else {
        hide AllAgree;
        OnlyOneFileIsWritten(s, a, d);
        NewFileAgrees(s, a);
      }
    }
  }

  lemma OnlyOneFileIsWritten(s: State, a: Action, d: Token)
    requires Enabled(s, a) && d in Apply(s, a).directories && Apply(s, a).directories[d].owner.Some?
    requires d in s.directories ==> Apply(s, a).directories[d].owner != s.directories[d].owner
    ensures a.OwnStep? && s.members[a.id].stage.own.Numbered? && HasDirectory(s)
    ensures
      var m := s.members[a.id];
      Apply(s, a).directories[d].owner.value == Owner(m.stage.token, m.process, m.stage.own.generation)
  {
  }

  lemma {:induction false} FilesAgreeThroughout(states: seq<State>, actions: seq<Action>, k: nat)
    requires Run(states, actions) && k < |states|
    ensures FilesAgree(states[k])
  {
    if k > 0 {
      FilesAgreeThroughout(states, actions, k - 1);
      MovedThroughout(states, actions, k - 1);
      FilesAgreeKept(states[k - 1], actions[k - 1]);
    }
  }

  /** In every run, checked or not, a lease is current when acquire returns it. */
  lemma ReturnsCurrent(states: seq<State>, actions: seq<Action>, k: nat)
    requires Run(states, actions) && k < |actions| && actions[k].OwnStep?
    requires states[k].members[actions[k].id].stage.own.Recorded?
    requires HoldsLease(states[k + 1], actions[k].id)
    ensures Current(states[k + 1], actions[k].id)
  {
    FilesAgreeThroughout(states, actions, k);
    MovedThroughout(states, actions, k);
  }

  /** A release that has moved somebody else's directory puts it back where nobody has made another one. */
  lemma PutsForeignBack(s: State, id: Contender, moved: Token)
    requires Live(s, id) && s.members[id].stage.Leave? && s.members[id].stage.leave == Captured(moved) && s.path.None?
    requires moved in s.directories && s.directories[moved].owner.Some?
    requires s.directories[moved].owner.value.token != s.members[id].stage.token
    ensures
      var t := Apply(s, LeaveStep(id));
      Enabled(t, LeaveStep(id)) && Apply(t, LeaveStep(id)) == Become(s, id, Done).(path := Some(moved))
  {
    var t := Apply(s, LeaveStep(id));
    assert Become(t, id, Done) == Become(s, id, Done);
  }
}
