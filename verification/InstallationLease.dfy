/**
 The installation lease inside the guard: an owner directory that is published,
 taken over or released by renames, each of them a separate step of the entry
 that is inside the guard. Steps of the guard election interleave freely with
 them, and a crash may come between any two.
 */
module InstallationLease {
  import opened Options
  import opened GuardElection

  /** The owner record: the process identity and a nonce drawn once per acquisition.
      The claim id of that acquisition's guard entry stands for the nonce. */
  datatype Owner = Owner(process: Process, nonce: ClaimId)

  /** What readStrictOwner makes of a directory. It reads no owner in an empty one either. */
  datatype Content = Owned(owner: Owner) | Unreadable | Empty

  datatype AcquireStage =
    | Publish                                     // rename staging -> lease
    | Observe                                     // after a collision: read the current owner
    | Probe(expected: Owner)
    | Recheck(expected: Owner)                    // replaceAbandonedOwner reads again
    | Quarantine(expected: Owner)                 // rename lease -> quarantine
    | Inspect(expected: Owner, moved: Content)    // read the quarantined owner
    | Replace(expected: Owner, moved: Content)    // rename staging -> lease
    | Restore(moved: Content)                     // rename quarantine -> lease, then give up
    | CheckTakeover                               // publishInstallationOwner reads back
    | Confirm                                     // acquireInstallationLease reads back

  datatype ReleaseStage =
    | Check                                       // read the current owner
    | Move                                        // rename lease -> quarantine
    | Capture(moved: Content)                     // read the quarantined owner
    | PutBack(moved: Content)

  datatype Operation =
    | Acquire(stage: AcquireStage)
    | Assert(owner: Owner)
    | Release(owner: Owner, progress: ReleaseStage)
    | Succeeded
    | Refused

  /** `established` is the set of owners whose acquisition has passed its last check and whose
      release has not begun; `returned` of those whose acquireInstallationLease has returned. */
  datatype Lease = Lease(guard: State, directory: Option<Content>, operations: map<ClaimId, Operation>,
                         established: set<Owner>, returned: set<Owner>)

  datatype Event =
    | StartAcquire(id: ClaimId, process: Process)
    | StartAssert(id: ClaimId, owner: Owner)
    | StartRelease(id: ClaimId, owner: Owner)
    | GuardStep(action: Action)
    /** One file operation of the entry inside the guard. `failed` is a rename refused by the
        file system for another reason than a collision or a missing source. */
    | Operate(id: ClaimId, failed: bool)
    | Answer(id: ClaimId, status: ProbeStatus)
    | ReturnLease(id: ClaimId)

  datatype ProbeStatus = SameOwner | DifferentOwner | DeadOwner | UnknownOwner

  predicate LiveOwner(s: Lease, o: Owner) {
    o.process !in s.guard.crashed
  }

  /** The owner record an acquisition entry publishes. */
  function Self(s: Lease, id: ClaimId): Owner
    requires id in s.guard.entries
  {
    Owner(s.guard.entries[id].process, id)
  }

  predicate Operating(s: Lease, id: ClaimId) {
    InOperation(s.guard, id) && id in s.operations
  }

  ghost predicate CanHappen(c: Config, s: Lease, e: Event) {
    match e
    case StartAcquire(id, process) => Enabled(c, s.guard, Begin(id, process))
    case StartAssert(id, owner) => owner in s.returned && Enabled(c, s.guard, Begin(id, owner.process))
    case StartRelease(id, owner) => owner in s.returned && Enabled(c, s.guard, Begin(id, owner.process))
    // operation() ends, and so leaves the guard, when the lease operation has an outcome;
    // an exception in the middle of it is the guard action Fail.
    case GuardStep(action) =>
      && Enabled(c, s.guard, action) && !action.Begin?
      && (action.Finish? ==> action.id in s.operations && (s.operations[action.id].Succeeded? || s.operations[action.id].Refused?))
    case Operate(id, failed) =>
      && Operating(s, id)
      && (var op := s.operations[id];
          && !op.Succeeded? && !op.Refused?
          && (op.Acquire? ==> !op.stage.Probe?)
          && (failed ==> Renames(op)))
    // The probe answers "different" or "dead" only for a process that is not live.
    case Answer(id, status) =>
      && Operating(s, id) && s.operations[id].Acquire? && s.operations[id].stage.Probe?
      && (status.DeadOwner? || status.DifferentOwner? ==> !LiveOwner(s, s.operations[id].stage.expected))
    case ReturnLease(id) =>
      && Live(s.guard, id) && s.guard.entries[id].phase.Gone?
      && id in s.operations && s.operations[id].Succeeded?
      && Self(s, id) in s.established
  }

  /** A rename of a directory to this path goes through: POSIX lets it replace an empty directory; where
      the file system does not, the step counts as failed. */
  predicate Free(directory: Option<Content>) {
    directory.None? || directory.value.Empty?
  }

  predicate Renames(op: Operation) {
    || (op.Acquire? && (op.stage.Publish? || op.stage.Quarantine? || op.stage.Replace? || op.stage.Restore?))
    || (op.Release? && (op.progress.Move? || op.progress.PutBack?))
  }

  function Turn(s: Lease, id: ClaimId, op: Operation): Lease {
    s.(operations := s.operations[id := op])
  }

  /** One file operation of publishInstallationOwner, replaceAbandonedOwner and acquireInstallationLease. */
  function AcquireStep(s: Lease, id: ClaimId, stage: AcquireStage, failed: bool): Lease
    requires Operating(s, id) && !stage.Probe?
  {
    var self := Self(s, id);
    match stage
    case Publish =>
      if failed then Turn(s, id, Refused)
      else if Free(s.directory) then Turn(s, id, Acquire(Confirm)).(directory := Some(Owned(self)))
      else Turn(s, id, Acquire(Observe))
    case Observe =>
      if s.directory.Some? && s.directory.value.Owned?
      then Turn(s, id, Acquire(Probe(s.directory.value.owner)))
      else Turn(s, id, Refused)
    case Recheck(expected) =>
      Turn(s, id, if s.directory == Some(Owned(expected)) then Acquire(Quarantine(expected)) else Refused)
    case Quarantine(expected) =>
      if failed || s.directory.None? then Turn(s, id, Refused)
      else Turn(s, id, Acquire(Inspect(expected, s.directory.value))).(directory := None)
    case Inspect(expected, moved) =>
      Turn(s, id, Acquire(if moved == Owned(expected) then Replace(expected, moved) else Restore(moved)))
    case Replace(expected, moved) =>
      if failed || !Free(s.directory) then Turn(s, id, Acquire(Restore(moved)))
      else Turn(s, id, Acquire(CheckTakeover)).(directory := Some(Owned(self)))
    case Restore(moved) =>
      if failed || !Free(s.directory) then Turn(s, id, Refused)
      else Turn(s, id, Refused).(directory := Some(moved))
    case CheckTakeover =>
      Turn(s, id, if s.directory == Some(Owned(self)) then Acquire(Confirm) else Refused)
    case Confirm =>
      if s.directory == Some(Owned(self))
      then Turn(s, id, Succeeded).(established := s.established + {self})
      else Turn(s, id, Refused)
  }

  /** One file operation of release. */
  function ReleaseStep(s: Lease, id: ClaimId, owner: Owner, stage: ReleaseStage, failed: bool): Lease {
    match stage
    case Check =>
      Turn(s, id, if s.directory == Some(Owned(owner)) then Release(owner, Move) else Succeeded)
    case Move =>
      if failed then Turn(s, id, Refused)
      else if s.directory.None? then Turn(s, id, Succeeded)
      else Turn(s, id, Release(owner, Capture(s.directory.value))).(directory := None)
    case Capture(moved) =>
      Turn(s, id, if moved == Owned(owner) then Succeeded else Release(owner, PutBack(moved)))
    case PutBack(moved) =>
      if failed || !Free(s.directory) then Turn(s, id, Refused)
      else Turn(s, id, Refused).(directory := Some(moved))
  }

  ghost function Happen(c: Config, s: Lease, e: Event): Lease
    requires CanHappen(c, s, e)
  {
    match e
    case StartAcquire(id, process) =>
      s.(guard := Apply(c, s.guard, Begin(id, process)), operations := s.operations[id := Acquire(Publish)])
    case StartAssert(id, owner) =>
      s.(guard := Apply(c, s.guard, Begin(id, owner.process)), operations := s.operations[id := Assert(owner)])
    case StartRelease(id, owner) =>
      s.(guard := Apply(c, s.guard, Begin(id, owner.process)), operations := s.operations[id := Release(owner, Check)],
         established := s.established - {owner})
    case GuardStep(action) => s.(guard := Apply(c, s.guard, action))
    case Operate(id, failed) =>
      (match s.operations[id]
       case Acquire(stage) => AcquireStep(s, id, stage, failed)
       case Assert(owner) => Turn(s, id, if s.directory == Some(Owned(owner)) then Succeeded else Refused)
       case Release(owner, stage) => ReleaseStep(s, id, owner, stage, failed)
       case _ => s)
    case Answer(id, status) =>
      Turn(s, id, if status.DeadOwner? || status.DifferentOwner?
                  then Acquire(Recheck(s.operations[id].stage.expected))
                  else Refused)
    case ReturnLease(id) => s.(returned := s.returned + {Self(s, id)})
  }

  /** The directory may hold anything left by earlier installations. */
  ghost predicate Start(s: Lease) {
    s.guard == Initial && s.operations == map[] && s.established == {} && s.returned == {}
  }

  ghost predicate History(c: Config, states: seq<Lease>, events: seq<Event>) {
    && |states| == |events| + 1
    && Start(states[0])
    && forall k :: 0 <= k < |events| ==>
         CanHappen(c, states[k], events[k]) && states[k + 1] == Happen(c, states[k], events[k])
  }

  // ---------------------------------------------------------------------------
  // The inductive invariant
  // ---------------------------------------------------------------------------

  /** A live owner that was established and has not begun its release owns the directory. */
  ghost predicate EstablishedOwns(s: Lease) {
    forall o :: o in s.established && LiveOwner(s, o) ==> s.directory == Some(Owned(o))
  }

  /** What the one entry inside the guard may rely on between its file operations. */
  ghost predicate StageHolds(s: Lease, id: ClaimId)
    requires Operating(s, id)
  {
    var op := s.operations[id];
    && (op.Acquire? ==>
          match op.stage
          case Publish => true
          case Observe => true
          case Probe(expected) => s.directory == Some(Owned(expected))
          case Recheck(expected) => s.directory == Some(Owned(expected)) && !LiveOwner(s, expected)
          case Quarantine(expected) => s.directory == Some(Owned(expected)) && !LiveOwner(s, expected)
          case Inspect(expected, moved) => s.directory.None? && moved == Owned(expected) && !LiveOwner(s, expected)
          case Replace(expected, moved) => s.directory.None? && moved == Owned(expected) && !LiveOwner(s, expected)
          case Restore(moved) => s.directory.None? && moved.Owned? && !LiveOwner(s, moved.owner)
          case CheckTakeover => s.directory == Some(Owned(Self(s, id)))
          case Confirm => s.directory == Some(Owned(Self(s, id))))
    && (op.Release? ==>
          match op.progress
          case Check => true
          case Move => s.directory == Some(Owned(op.owner))
          case Capture(moved) => s.directory.None? && moved == Owned(op.owner)
          case PutBack(moved) => false)
  }

  ghost predicate StagesHold(s: Lease) {
    forall id :: Operating(s, id) ==> StageHolds(s, id)
  }

  /** An owner under release, or not yet confirmed, is not established. */
  ghost predicate Separate(s: Lease) {
    && s.operations.Keys == s.guard.entries.Keys
    && (forall id :: id in s.operations && s.operations[id].Release? ==>
          s.operations[id].owner in s.returned && s.operations[id].owner !in s.established)
    && (forall id :: id in s.operations && s.operations[id].Acquire? ==>
          Self(s, id) !in s.established && Self(s, id) !in s.returned)
    && (forall o :: o in s.returned || o in s.established ==> o.nonce in s.operations && Self(s, o.nonce) == o)
  }

  predicate Untouched(op: Operation) {
    op == Acquire(Publish) || op.Assert? || (op.Release? && op.progress.Check?)
  }

  /** No operation begins before its entry is inside the guard. */
  ghost predicate UntouchedOutside(s: Lease) {
    forall id :: id in s.operations && id in s.guard.entries ==>
      var p := s.guard.entries[id].phase;
      p.Inside? || p.Leaving? || p.Gone? || Untouched(s.operations[id])
  }

  ghost predicate LeaseInvariant(c: Config, s: Lease) {
    Invariant(c, s.guard) && EstablishedOwns(s) && StagesHold(s) && Separate(s) && UntouchedOutside(s)
  }

  /** No guard step changes whose entry an entry is, and only Begin adds one. */
  lemma GuardKeepsProcesses(c: Config, g: State, a: Action)
    requires Enabled(c, g, a)
    ensures Apply(c, g, a).entries.Keys == g.entries.Keys + (if a.Begin? then {a.id} else {})
    ensures forall id :: id in g.entries ==> Apply(c, g, a).entries[id].process == g.entries[id].process
    ensures a.Begin? ==> Apply(c, g, a).entries[a.id].process == a.process
    ensures g.crashed <= Apply(c, g, a).crashed
    ensures a.Begin? ==> Apply(c, g, a).crashed == g.crashed
    ensures forall id :: InOperation(Apply(c, g, a), id) && !a.EndRound? ==> InOperation(g, id)
    ensures forall id :: InOperation(Apply(c, g, a), id) && a.EndRound? && id != a.id ==> InOperation(g, id)
  {
  }

  lemma SeparateAfterStart(c: Config, s: Lease, e: Event)
    requires LeaseInvariant(c, s) && CanHappen(c, s, e)
    requires e.StartAcquire? || e.StartAssert? || e.StartRelease?
    ensures Separate(Happen(c, s, e))
  {
    GuardKeepsProcesses(c, s.guard, Begin(e.id, if e.StartAcquire? then e.process else e.owner.process));
  }

  lemma SeparateAfterGuardStep(c: Config, s: Lease, e: Event)
    requires LeaseInvariant(c, s) && CanHappen(c, s, e) && e.GuardStep?
    ensures Separate(Happen(c, s, e))
  {
    GuardKeepsProcesses(c, s.guard, e.action);
  }

  /** What any step of the entry inside the guard may change besides the directory. */
  ghost predicate OnlyItsOperation(s: Lease, s': Lease, id: ClaimId)
    requires Operating(s, id)
  {
    && s'.guard == s.guard && s'.returned == s.returned && id in s'.operations
    && s'.operations == s.operations[id := s'.operations[id]]
    && (s'.operations[id].Acquire? ==> s.operations[id].Acquire?)
    && (s'.operations[id].Release? ==> s.operations[id].Release? && s'.operations[id].owner == s.operations[id].owner)
    && (s'.established == s.established
        || (s'.operations[id].Succeeded? && s.operations[id].Acquire? && s'.established == s.established + {Self(s, id)}))
  }

  lemma OperationsAreLocal(c: Config, s: Lease, e: Event)
    requires CanHappen(c, s, e) && (e.Operate? || e.Answer?)
    ensures OnlyItsOperation(s, Happen(c, s, e), e.id)
  {
  }

  lemma SeparateAfterOperation(c: Config, s: Lease, e: Event)
    requires Separate(s) && CanHappen(c, s, e)
    requires e.Operate? || e.Answer?
    ensures Separate(Happen(c, s, e))
  {
    OperationsAreLocal(c, s, e);
    SeparateLocally(s, Happen(c, s, e), e.id);
  }

  lemma SeparateLocally(s: Lease, s': Lease, id: ClaimId)
    requires Separate(s) && Operating(s, id) && OnlyItsOperation(s, s', id)
    ensures Separate(s')
  {
    assert s'.operations.Keys == s'.guard.entries.Keys;
    forall k | k in s'.operations && s'.operations[k].Release?
      ensures s'.operations[k].owner in s'.returned && s'.operations[k].owner !in s'.established
    {
      assert s.operations[k].Release? && s.operations[k].owner == s'.operations[k].owner;
    }
  }

  lemma SeparateAfterReturn(c: Config, s: Lease, e: Event)
    requires Separate(s) && CanHappen(c, s, e) && e.ReturnLease?
    ensures Separate(Happen(c, s, e))
  {
  }

  // ---------------------------------------------------------------------------

  lemma EstablishedOwnsKept(c: Config, s: Lease, e: Event)
    requires StrictOrder(c.compare) && c.staleRuleIsSafe
    requires LeaseInvariant(c, s) && CanHappen(c, s, e)
    ensures EstablishedOwns(Happen(c, s, e))
  {
    hide Invariant, UntouchedOutside, Renames;
  }

  /** Only the entry inside the guard touches the directory, so everybody else's stage is kept. */
  lemma StagesHoldAfterOperation(c: Config, s: Lease, e: Event)
    requires StrictOrder(c.compare)
    requires LeaseInvariant(c, s) && CanHappen(c, s, e) && (e.Operate? || e.Answer?)
    ensures StagesHold(Happen(c, s, e))
  {
    var s' := Happen(c, s, e);
    OperationsAreLocal(c, s, e);
    forall id | Operating(s', id) ensures StageHolds(s', id) {
      OneInside(c, s.guard, id, e.id);
      OwnStageHolds(c, s, e);
    }
  }

  lemma OwnStageHolds(c: Config, s: Lease, e: Event)
    requires LeaseInvariant(c, s) && CanHappen(c, s, e) && (e.Operate? || e.Answer?)
    ensures Operating(Happen(c, s, e), e.id) && StageHolds(Happen(c, s, e), e.id)
  {
    assert StageHolds(s, e.id);
  }

  /** A step of the guard election, a crash included, keeps every stage; whoever it lets in is untouched. */
  lemma StagesHoldAfterGuardStep(c: Config, s: Lease, e: Event)
    requires LeaseInvariant(c, s) && CanHappen(c, s, e) && e.GuardStep?
    ensures StagesHold(Happen(c, s, e))
  {
    var s' := Happen(c, s, e);
    forall id | Operating(s', id) ensures StageHolds(s', id) {
      StageKept(s, s', id);
    }
  }

  lemma StagesHoldAfterStart(c: Config, s: Lease, e: Event)
    requires LeaseInvariant(c, s) && CanHappen(c, s, e) && !e.Operate? && !e.Answer? && !e.GuardStep?
    ensures StagesHold(Happen(c, s, e))
  {
    var s' := Happen(c, s, e);
    forall id | Operating(s', id) ensures StageHolds(s', id) {
      StageKept(s, s', id);
    }
  }

  lemma StageKept(s: Lease, s': Lease, id: ClaimId)
    requires Operating(s', id) && s'.directory == s.directory && s.guard.crashed <= s'.guard.crashed
    requires Untouched(s'.operations[id])
          || (Operating(s, id) && StageHolds(s, id) && s'.operations[id] == s.operations[id] && Self(s', id) == Self(s, id))
    ensures StageHolds(s', id)
  {
  }

  lemma UntouchedOutsideKept(c: Config, s: Lease, e: Event)
    requires LeaseInvariant(c, s) && CanHappen(c, s, e)
    ensures UntouchedOutside(Happen(c, s, e))
  {
    var s' := Happen(c, s, e);
    if e.Operate? || e.Answer? { OperationsAreLocal(c, s, e); }
    forall id | id in s'.operations && id in s'.guard.entries
      ensures
        var p := s'.guard.entries[id].phase;
        p.Inside? || p.Leaving? || p.Gone? || Untouched(s'.operations[id])
    {
    }
  }

  lemma LeaseInvariantKept(c: Config, s: Lease, e: Event)
    requires StrictOrder(c.compare) && c.staleRuleIsSafe
    requires LeaseInvariant(c, s) && CanHappen(c, s, e)
    ensures LeaseInvariant(c, Happen(c, s, e))
  {
    EstablishedOwnsKept(c, s, e);
    UntouchedOutsideKept(c, s, e);
    if e.Operate? || e.Answer? {
      OperationsAreLocal(c, s, e);
      SeparateAfterOperation(c, s, e);
      StagesHoldAfterOperation(c, s, e);
    } else {
      if e.GuardStep? {
        StagesHoldAfterGuardStep(c, s, e);
      } else {
        StagesHoldAfterStart(c, s, e);
      }
      if e.ReturnLease? {
        SeparateAfterReturn(c, s, e);
      } else if e.GuardStep? {
        SeparateAfterGuardStep(c, s, e);
        InvariantKept(c, s.guard, e.action);
      } else {
        SeparateAfterStart(c, s, e);
        InvariantKept(c, s.guard, Begin(e.id, if e.StartAcquire? then e.process else e.owner.process));
      }
    }
  }

  lemma {:induction false} LeaseInvariantThroughout(c: Config, states: seq<Lease>, events: seq<Event>, k: nat)
    requires StrictOrder(c.compare) && c.staleRuleIsSafe
    requires History(c, states, events) && k < |states|
    ensures LeaseInvariant(c, states[k])
  {
    if k > 0 {
      LeaseInvariantThroughout(c, states, events, k - 1);
      LeaseInvariantKept(c, states[k - 1], events[k - 1]);
    }
  }

  // ---------------------------------------------------------------------------
  // Lease safety over whole histories
  // ---------------------------------------------------------------------------

  /** acquireInstallationLease returned the lease, its process lives, release has not been called. */
  ghost predicate Holds(s: Lease, o: Owner) {
    o in s.returned && o in s.established && LiveOwner(s, o)
  }

  lemma {:induction false} HeldUntilReleased(c: Config, states: seq<Lease>, events: seq<Event>, k: nat, m: nat, o: Owner)
    requires StrictOrder(c.compare) && c.staleRuleIsSafe
    requires History(c, states, events) && k <= m < |states|
    requires o in states[k].returned && o in states[k].established
    requires forall j :: k <= j < m && events[j].StartRelease? ==> events[j].owner != o
    ensures o in states[m].returned && o in states[m].established
  {
    if k < m {
      HeldUntilReleased(c, states, events, k, m - 1, o);
      var s, e := states[m - 1], events[m - 1];
      if e.Operate? || e.Answer? { OperationsAreLocal(c, s, e); }
    }
  }

  /** From the return of the acquisition on, whatever others do and wherever they crash, the owner
      directory names the holder for as long as it lives and has not called release. */
  lemma LeaseStaysCurrent(c: Config, states: seq<Lease>, events: seq<Event>, k: nat, m: nat)
    requires StrictOrder(c.compare) && c.staleRuleIsSafe
    requires History(c, states, events) && k < m < |states| && events[k].ReturnLease?
    requires
      var o := Self(states[k], events[k].id);
      && LiveOwner(states[m], o)
      && forall j :: k < j < m && events[j].StartRelease? ==> events[j].owner != o
    ensures states[m].directory == Some(Owned(Self(states[k], events[k].id)))
  {
    HeldUntilReleased(c, states, events, k + 1, m, Self(states[k], events[k].id));
    LeaseInvariantThroughout(c, states, events, m);
  }

  lemma AtMostOneHolder(c: Config, states: seq<Lease>, events: seq<Event>, k: nat, o: Owner, o': Owner)
    requires StrictOrder(c.compare) && c.staleRuleIsSafe
    requires History(c, states, events) && k < |states|
    requires Holds(states[k], o) && Holds(states[k], o')
    ensures o == o'
  {
    LeaseInvariantThroughout(c, states, events, k);
  }

  /** assertCurrent does not throw for a holder. */
  lemma AssertCurrentSucceeds(c: Config, states: seq<Lease>, events: seq<Event>, k: nat)
    requires StrictOrder(c.compare) && c.staleRuleIsSafe
    requires History(c, states, events) && k < |events| && events[k].Operate?
    requires
      var op := states[k].operations[events[k].id];
      op.Assert? && Holds(states[k], op.owner)
    ensures states[k + 1].operations[events[k].id] == Succeeded
  {
    LeaseInvariantThroughout(c, states, events, k);
  }

  /** While somebody holds the lease no acquisition passes its last check. */
  lemma NoAcquisitionBesideAHolder(c: Config, states: seq<Lease>, events: seq<Event>, k: nat, o: Owner)
    requires StrictOrder(c.compare) && c.staleRuleIsSafe
    requires History(c, states, events) && k < |events| && events[k].Operate?
    requires states[k].operations[events[k].id].Acquire? && Holds(states[k], o)
    ensures !states[k + 1].operations[events[k].id].Succeeded?
  {
    LeaseInvariantThroughout(c, states, events, k);
    var s, id := states[k], events[k].id;
    assert Self(s, id) !in s.established;
  }

  /** An owner leaves the directory only by its own release or after its process is gone. */
  lemma OnlyDeadOrReleasedOwnersAreReplaced(c: Config, states: seq<Lease>, events: seq<Event>, k: nat, o: Owner)
    requires StrictOrder(c.compare) && c.staleRuleIsSafe
    requires History(c, states, events) && k < |events|
    requires states[k].directory == Some(Owned(o)) && states[k + 1].directory != Some(Owned(o))
    ensures !LiveOwner(states[k], o)
         || (events[k].Operate? && states[k].operations[events[k].id] == Release(o, Move) && o !in states[k].established)
  {
    LeaseInvariantThroughout(c, states, events, k);
    var s, e := states[k], events[k];
    assert e.Operate?;
    assert StageHolds(s, e.id);
  }

  /** What an operation has quarantined. */
  function MovedBy(op: Operation): Option<Content> {
    match op
    case Acquire(Inspect(_, moved)) => Some(moved)
    case Acquire(Replace(_, moved)) => Some(moved)
    case Acquire(Restore(moved)) => Some(moved)
    case Release(_, Capture(moved)) => Some(moved)
    case Release(_, PutBack(moved)) => Some(moved)
    case _ => None
  }

  /** The owner is not in the directory, and nobody can put it there. */
  ghost predicate NeverBack(s: Lease, o: Owner) {
    && o in s.returned && s.directory != Some(Owned(o))
    && forall id :: Operating(s, id) ==> MovedBy(s.operations[id]) != Some(Owned(o))
  }

  lemma NeverBackKept(c: Config, s: Lease, e: Event, o: Owner)
    requires LeaseInvariant(c, s) && CanHappen(c, s, e) && NeverBack(s, o)
    ensures NeverBack(Happen(c, s, e), o)
  {
    var s' := Happen(c, s, e);
    if e.Operate? || e.Answer? {
      OperationsAreLocal(c, s, e);
      assert s.operations[e.id].Acquire? ==> Self(s, e.id) != o;
    } else {
      GuardOperates(c, s, e);
    }
  }

  /** Whoever a step of the guard lets in has not begun its operation. */
  lemma GuardOperates(c: Config, s: Lease, e: Event)
    requires LeaseInvariant(c, s) && CanHappen(c, s, e) && !e.Operate? && !e.Answer?
    ensures
      var s' := Happen(c, s, e);
      && s'.directory == s.directory && s.returned <= s'.returned
      && forall id :: Operating(s', id) ==> (Operating(s, id) && s'.operations[id] == s.operations[id]) || Untouched(s'.operations[id])
  {
    hide Invariant, EstablishedOwns, StagesHold;
    if e.GuardStep? { GuardKeepsProcesses(c, s.guard, e.action); }
  }

  /** A release that returns has freed the directory, and one throws only when its rename is refused. */
  lemma ReleaseFrees(c: Config, states: seq<Lease>, events: seq<Event>, k: nat)
    requires StrictOrder(c.compare) && c.staleRuleIsSafe
    requires History(c, states, events) && k < |events| && events[k].Operate?
    requires states[k].operations[events[k].id].Release?
    ensures
      var o, after := states[k].operations[events[k].id].owner, states[k + 1].operations[events[k].id];
      && (after.Succeeded? ==> NeverBack(states[k + 1], o))
      && (after.Refused? ==> events[k].failed && states[k + 1].directory == Some(Owned(o)))
  {
    LeaseInvariantThroughout(c, states, events, k);
    var s, e, s' := states[k], events[k], states[k + 1];
    assert StageHolds(s, e.id);
    OperationsAreLocal(c, s, e);
    forall id | Operating(s', id) ensures id == e.id { OneInside(c, s.guard, id, e.id); }
  }

  lemma {:induction false} NeverBackThroughout(c: Config, states: seq<Lease>, events: seq<Event>, k: nat, m: nat, o: Owner)
    requires StrictOrder(c.compare) && c.staleRuleIsSafe
    requires History(c, states, events) && k <= m < |states| && NeverBack(states[k], o)
    ensures NeverBack(states[m], o)
  {
    if k < m {
      NeverBackThroughout(c, states, events, k, m - 1, o);
      LeaseInvariantThroughout(c, states, events, m - 1);
      NeverBackKept(c, states[m - 1], events[m - 1], o);
    }
  }

  /** From the return of its release on, the directory never names the owner again. */
  lemma ReleasedForGood(c: Config, states: seq<Lease>, events: seq<Event>, k: nat, m: nat)
    requires StrictOrder(c.compare) && c.staleRuleIsSafe
    requires History(c, states, events) && k < m < |states| && events[k].Operate?
    requires states[k].operations[events[k].id].Release? && states[k + 1].operations[events[k].id].Succeeded?
    ensures states[m].directory != Some(Owned(states[k].operations[events[k].id].owner))
  {
    ReleaseFrees(c, states, events, k);
    NeverBackThroughout(c, states, events, k + 1, m, states[k].operations[events[k].id].owner);
  }

  /** assertCurrent throws for everybody else while somebody holds the lease. */
  lemma AssertCurrentFailsForOthers(c: Config, states: seq<Lease>, events: seq<Event>, k: nat, o: Owner)
    requires StrictOrder(c.compare) && c.staleRuleIsSafe
    requires History(c, states, events) && k < |events| && events[k].Operate? && Holds(states[k], o)
    requires
      var op := states[k].operations[events[k].id];
      op.Assert? && op.owner != o
    ensures states[k + 1].operations[events[k].id] == Refused
  {
    LeaseInvariantThroughout(c, states, events, k);
  }

  /** assertCurrent throws for an owner whose release has returned. */
  lemma AssertCurrentFailsAfterRelease(c: Config, states: seq<Lease>, events: seq<Event>, k: nat, m: nat)
    requires StrictOrder(c.compare) && c.staleRuleIsSafe
    requires History(c, states, events) && k < m < |events| && events[k].Operate? && events[m].Operate?
    requires states[k].operations[events[k].id].Release? && states[k + 1].operations[events[k].id].Succeeded?
    requires states[m].operations[events[m].id] == Assert(states[k].operations[events[k].id].owner)
    ensures states[m + 1].operations[events[m].id] == Refused
  {
    ReleasedForGood(c, states, events, k, m);
  }

  /** In every state, whatever the guard has let in: an acquisition passes its last check only when the
      directory names its owner, and renames nothing before it has read the expected owner again. */
  lemma ReadsBeforeItActs(c: Config, s: Lease, e: Event)
    requires CanHappen(c, s, e) && e.Operate? && s.operations[e.id].Acquire?
    ensures
      var stage, after, own := s.operations[e.id].stage, Happen(c, s, e).operations[e.id], s.directory == Some(Owned(Self(s, e.id)));
      && (after.Succeeded? ==> own)
      && (stage.Observe? ==>
            after == if s.directory.Some? && s.directory.value.Owned? then Acquire(Probe(s.directory.value.owner)) else Refused)
      && (stage.CheckTakeover? ==> after == if own then Acquire(Confirm) else Refused)
      && (stage.Recheck? ==> after == if s.directory == Some(Owned(stage.expected)) then Acquire(Quarantine(stage.expected)) else Refused)
      && (Happen(c, s, e).directory != s.directory ==> Renames(s.operations[e.id]))
  {
  }

  /** Why an acquisition may give up. */
  predicate Excused(s: Lease, e: Event) {
    && (e.Operate? || e.Answer?) && e.id in s.operations && s.operations[e.id].Acquire?
    && var stage := s.operations[e.id].stage;
       || (e.Answer? && (e.status.SameOwner? || e.status.UnknownOwner?))
       || (e.Operate? && (e.failed || stage.Restore? || (stage.Observe? && (s.directory.None? || !s.directory.value.Owned?))))
  }

  /** An acquisition gives up only before an owner that the probe does not find dead or different, a
      directory without a readable owner, or a refused rename. */
  lemma GivesUpWithReason(c: Config, states: seq<Lease>, events: seq<Event>, k: nat)
    requires StrictOrder(c.compare) && c.staleRuleIsSafe
    requires History(c, states, events) && k < |events| && (events[k].Operate? || events[k].Answer?)
    requires states[k].operations[events[k].id].Acquire? && states[k + 1].operations[events[k].id].Refused?
    ensures Excused(states[k], events[k])
  {
    LeaseInvariantThroughout(c, states, events, k);
    assert StageHolds(states[k], events[k].id);
  }

  /** It comes to restoring what it moved only after a refused rename. */
  lemma RestoresAfterRefusal(c: Config, states: seq<Lease>, events: seq<Event>, k: nat)
    requires StrictOrder(c.compare) && c.staleRuleIsSafe
    requires History(c, states, events) && k < |events| && events[k].Operate?
    requires
      var after := states[k + 1].operations[events[k].id];
      after.Acquire? && after.stage.Restore?
    ensures events[k].failed
  {
    LeaseInvariantThroughout(c, states, events, k);
    assert StageHolds(states[k], events[k].id);
  }

  // ---------------------------------------------------------------------------
  // Leases are held
  // ---------------------------------------------------------------------------

  ghost predicate Happens(c: Config, s: Lease) {
    exists states: seq<Lease>, events: seq<Event> :: History(c, states, events) && states[|events|] == s
  }

  lemma Continue(c: Config, s: Lease, e: Event, s': Lease)
    requires Happens(c, s) && CanHappen(c, s, e) && Happen(c, s, e) == s'
    ensures Happens(c, s')
  {
    hide CanHappen, Happen;
    var states: seq<Lease>, events: seq<Event> :| History(c, states, events) && states[|events|] == s;
    assert History(c, states + [s'], events + [e]);
    assert (states + [s'])[|events + [e]|] == s';
  }

  /** The entries that have come since then are acquisitions that have not begun to operate. */
  function Extended(s: Lease, guard: State): Lease {
    s.(guard := guard, operations := s.operations + map id | id in guard.entries && id !in s.operations :: Acquire(Publish))
  }

  lemma {:induction false} LiftedAlong(c: Config, s: Lease, states: seq<State>, actions: seq<Action>, k: nat)
    requires Happens(c, s) && Trace(c, states, actions) && k < |states| && states[0] == s.guard
    requires s.operations.Keys == s.guard.entries.Keys
    ensures Happens(c, Extended(s, states[k])) && s.operations.Keys <= states[k].entries.Keys
  {
    if k == 0 {
      assert Extended(s, s.guard) == s;
    } else {
      LiftedAlong(c, s, states, actions, k - 1);
      LiftedStep(c, s, states[k - 1], actions[k - 1]);
    }
  }

  lemma LiftedStep(c: Config, s: Lease, guard: State, a: Action)
    requires Happens(c, Extended(s, guard)) && s.operations.Keys <= guard.entries.Keys
    requires Enabled(c, guard, a) && !a.Finish?
    ensures Happens(c, Extended(s, Apply(c, guard, a))) && guard.entries.Keys <= Apply(c, guard, a).entries.Keys
  {
    if a.Begin? { LiftedBegin(c, s, guard, a); } else { LiftedOther(c, s, guard, a); }
  }

  lemma LiftedBegin(c: Config, s: Lease, guard: State, a: Action)
    requires Happens(c, Extended(s, guard)) && s.operations.Keys <= guard.entries.Keys
    requires Enabled(c, guard, a) && a.Begin?
    ensures Happens(c, Extended(s, Apply(c, guard, a))) && guard.entries.Keys <= Apply(c, guard, a).entries.Keys
  {
    hide Happens;
    var t, next := Extended(s, guard), Extended(s, Apply(c, guard, a));
    assert next.operations == t.operations[a.id := Acquire(Publish)];
    Continue(c, t, StartAcquire(a.id, a.process), next);
  }

  lemma LiftedOther(c: Config, s: Lease, guard: State, a: Action)
    requires Happens(c, Extended(s, guard)) && s.operations.Keys <= guard.entries.Keys
    requires Enabled(c, guard, a) && !a.Finish? && !a.Begin?
    ensures Happens(c, Extended(s, Apply(c, guard, a))) && guard.entries.Keys == Apply(c, guard, a).entries.Keys
  {
    hide Happens;
    SameEntries(c, guard, a);
    var t, next := Extended(s, guard), Apply(c, guard, a);
    assert Extended(s, next).operations == t.operations;
    hide Enabled, Apply;
    Continue(c, t, GuardStep(a), Extended(s, next));
  }

  lemma SameEntries(c: Config, guard: State, a: Action)
    requires Enabled(c, guard, a) && !a.Begin?
    ensures Apply(c, guard, a).entries.Keys == guard.entries.Keys
  {
  }

  /** Steps of the guard election are steps of the lease. */
  lemma Lifted(c: Config, s: Lease, guard: State)
    requires Happens(c, s) && Leads(c, s.guard, guard) && s.operations.Keys == s.guard.entries.Keys
    ensures Happens(c, Extended(s, guard))
  {
    var states: seq<State>, actions: seq<Action> :| Trace(c, states, actions) && states[0] == s.guard && states[|actions|] == guard;
    LiftedAlong(c, s, states, actions, |actions|);
  }

  lemma LiftedFromStart(c: Config, guard: State, directory: Option<Content>)
    requires Leads(c, Initial, guard)
    ensures Happens(c, Lease(guard, directory, map id | id in guard.entries :: Acquire(Publish), {}, {}))
  {
    var s := Lease(Initial, directory, map[], {}, {});
    assert History(c, [s], []);
    Lifted(c, s, guard);
    assert Extended(s, guard) == Lease(guard, directory, map id | id in guard.entries :: Acquire(Publish), {}, {});
  }

  /** The acquisition publishes its owner directory where there is none, and reads it back. */
  lemma Publishes(c: Config, s: Lease, id: ClaimId)
    requires Happens(c, s) && Operating(s, id) && s.operations[id] == Acquire(Publish) && s.directory.None?
    ensures
      var self := Self(s, id);
      Happens(c, Turn(s, id, Succeeded).(directory := Some(Owned(self)), established := s.established + {self}))
  {
    hide Happens;
    var self := Self(s, id);
    var t := Turn(s, id, Acquire(Confirm)).(directory := Some(Owned(self)));
    Continue(c, s, Operate(id, false), t);
    Continue(c, t, Operate(id, false), Turn(s, id, Succeeded).(directory := Some(Owned(self)), established := s.established + {self}));
  }

  lemma LeavesGuard(c: Config, s: Lease, id: ClaimId)
    requires Happens(c, s) && Operating(s, id) && s.operations[id] == Succeeded
    ensures Happens(c, s.(guard := Become(s.guard, id, Gone).(claims := s.guard.claims - {id})))
  {
    hide Happens;
    var leaving := s.(guard := Become(s.guard, id, Leaving));
    Continue(c, s, GuardStep(Finish(id)), leaving);
    Continue(c, leaving, GuardStep(RemoveOwnClaim(id, true)), s.(guard := Become(s.guard, id, Gone).(claims := s.guard.claims - {id})));
  }

  /** The acquisition leaves the guard and returns its lease. */
  lemma Returns(c: Config, s: Lease, id: ClaimId)
    requires Happens(c, s) && Operating(s, id) && s.operations[id] == Succeeded && Self(s, id) in s.established
    ensures
      Happens(c, s.(guard := Become(s.guard, id, Gone).(claims := s.guard.claims - {id}), returned := s.returned + {Self(s, id)}))
  {
    hide Happens;
    LeavesGuard(c, s, id);
    var gone := s.(guard := Become(s.guard, id, Gone).(claims := s.guard.claims - {id}));
    Continue(c, gone, ReturnLease(id), gone.(returned := s.returned + {Self(s, id)}));
  }

  /** An entry that has begun gets inside when it has the guard to itself. */
  lemma Enters(c: Config, s: Lease, id: ClaimId)
    requires Happens(c, s) && s.operations.Keys == s.guard.entries.Keys
    requires Live(s.guard, id) && s.guard.entries[id].phase.Publishing? && s.guard.claims == map[]
    ensures
      Happens(c, s.(guard := Become(s.guard, id, Inside(1)).(claims := map[id := Claim(s.guard.entries[id].process, Some(1))])))
  {
    hide Happens, Leads;
    var guard := Become(s.guard, id, Inside(1)).(claims := map[id := Claim(s.guard.entries[id].process, Some(1))]);
    LeadsNowhere(c, s.guard);
    EntersAlone(c, s.guard, s.guard, id);
    Lifted(c, s, guard);
    assert Extended(s, guard) == s.(guard := guard);
  }

  /** What is left when the guard is empty and `id` has come and gone. */
  function Passed(s: Lease, id: ClaimId, process: Process, op: Operation): Lease {
    s.(guard := s.guard.(claims := map[], entries := s.guard.entries[id := Entry(process, Gone)]), operations := s.operations[id := op])
  }

  /** A free directory, a guard nobody is in: the acquisition succeeds. */
  lemma Acquires(c: Config, s: Lease, id: ClaimId, process: Process)
    requires Happens(c, s) && s.operations.Keys == s.guard.entries.Keys && s.directory.None?
    requires id !in s.guard.entries && process !in s.guard.crashed && s.guard.claims == map[]
    ensures
      var self := Owner(process, id);
      Happens(c, Passed(s, id, process, Succeeded).(
        directory := Some(Owned(self)), established := s.established + {self}, returned := s.returned + {self}))
  {
    hide Happens;
    var begun := s.(guard := s.guard.(entries := s.guard.entries[id := Entry(process, Phase.Publishing)]), operations := s.operations[id := Acquire(Publish)]);
    Continue(c, s, StartAcquire(id, process), begun);
    Enters(c, begun, id);
    var inside := begun.(guard := Become(begun.guard, id, Inside(1)).(claims := map[id := Claim(process, Some(1))]));
    Publishes(c, inside, id);
    var self := Owner(process, id);
    var t := Turn(inside, id, Succeeded).(directory := Some(Owned(self)), established := s.established + {self});
    Returns(c, t, id);
    assert t.guard.claims - {id} == map[];
    assert t.(guard := Become(t.guard, id, Gone).(claims := t.guard.claims - {id}), returned := t.returned + {self})
        == Passed(s, id, process, Succeeded).(
             directory := Some(Owned(self)), established := s.established + {self}, returned := s.returned + {self});
  }

  /** The owner in the directory releases, when nobody else is in the guard. */
  lemma Releases(c: Config, s: Lease, id: ClaimId, o: Owner)
    requires Happens(c, s) && s.operations.Keys == s.guard.entries.Keys && s.directory == Some(Owned(o)) && o in s.returned
    requires id !in s.guard.entries && o.process !in s.guard.crashed && s.guard.claims == map[]
    ensures Happens(c, Passed(s, id, o.process, Succeeded).(directory := None, established := s.established - {o}))
  {
    hide Happens;
    var begun := s.(
      guard := s.guard.(entries := s.guard.entries[id := Entry(o.process, Phase.Publishing)]),
      operations := s.operations[id := Release(o, Check)], established := s.established - {o});
    Continue(c, s, StartRelease(id, o), begun);
    Enters(c, begun, id);
    var inside := begun.(guard := Become(begun.guard, id, Inside(1)).(claims := map[id := Claim(o.process, Some(1))]));
    MovesAway(c, inside, id, o);
    var t := Turn(inside, id, Succeeded).(directory := None);
    LeavesGuard(c, t, id);
    assert t.guard.claims - {id} == map[];
    assert t.(guard := Become(t.guard, id, Gone).(claims := t.guard.claims - {id}))
        == Passed(s, id, o.process, Succeeded).(directory := None, established := s.established - {o});
  }

  lemma MovesAway(c: Config, s: Lease, id: ClaimId, o: Owner)
    requires Happens(c, s) && Operating(s, id) && s.operations[id] == Release(o, Check) && s.directory == Some(Owned(o))
    ensures Happens(c, Turn(s, id, Succeeded).(directory := None))
  {
    hide Happens;
    var free := s.(directory := None);
    Continue(c, s, Operate(id, false), Turn(s, id, Release(o, Move)));
    Continue(c, Turn(s, id, Release(o, Move)), Operate(id, false), Turn(free, id, Release(o, Capture(Owned(o)))));
    Continue(c, Turn(free, id, Release(o, Capture(Owned(o)))), Operate(id, false), Turn(free, id, Succeeded));
  }

  function Unused(): Lease {
    Lease(Initial, None, map[], {}, {})
  }

  lemma UnusedHappens(c: Config)
    ensures Happens(c, Unused())
  {
    assert History(c, [Unused()], []);
  }

  /** An acquisition without competitors succeeds, under every configuration. */
  lemma SoleAcquisitionHolds(c: Config, id: ClaimId)
    ensures exists s :: Happens(c, s) && Holds(s, Owner(0, id))
  {
    UnusedHappens(c);
    Acquires(c, Unused(), id, 0);
    var self := Owner(0, id);
    assert Holds(Passed(Unused(), id, 0, Succeeded).(directory := Some(Owned(self)), established := {} + {self}, returned := {} + {self}), self);
  }

  /** After a release the next acquisition succeeds, though the first process lives on. */
  lemma ReleaseLetsTheNextIn(c: Config, first: ClaimId, release: ClaimId, next: ClaimId)
    requires first != release && first != next && release != next
    ensures exists s :: Happens(c, s) && Holds(s, Owner(1, next)) && Owner(0, first) in s.returned && LiveOwner(s, Owner(0, first))
  {
    hide Happens;
    UnusedHappens(c);
    Acquires(c, Unused(), first, 0);
    var a, b := Owner(0, first), Owner(1, next);
    var s := Passed(Unused(), first, 0, Succeeded).(directory := Some(Owned(a)), established := {} + {a}, returned := {} + {a});
    Releases(c, s, release, a);
    var t := Passed(s, release, 0, Succeeded).(directory := None, established := s.established - {a});
    Acquires(c, t, next, 1);
    var u := Passed(t, next, 1, Succeeded).(directory := Some(Owned(b)), established := t.established + {b}, returned := t.returned + {b});
    assert Holds(u, b) && a in u.returned && LiveOwner(u, a);
  }

  /** Left in the directory by a process that has died. */
  const ABANDONED: Owner := Owner(2, "abandoned")

  /** A takeover up to its first rename. */
  lemma FindsAbandoned(c: Config, s: Lease, id: ClaimId)
    requires Happens(c, s) && Operating(s, id) && s.operations[id] == Acquire(Publish)
    requires s.directory == Some(Owned(ABANDONED)) && 2 in s.guard.crashed
    ensures Happens(c, Turn(s, id, Acquire(Quarantine(ABANDONED))))
  {
    hide Happens;
    Continue(c, s, Operate(id, false), Turn(s, id, Acquire(Observe)));
    Continue(c, Turn(s, id, Acquire(Observe)), Operate(id, false), Turn(s, id, Acquire(Probe(ABANDONED))));
    Continue(c, Turn(s, id, Acquire(Probe(ABANDONED))), Answer(id, DeadOwner), Turn(s, id, Acquire(Recheck(ABANDONED))));
    Continue(c, Turn(s, id, Acquire(Recheck(ABANDONED))), Operate(id, false), Turn(s, id, Acquire(Quarantine(ABANDONED))));
  }

  /** The rest of it. */
  lemma ReplacesAbandoned(c: Config, s: Lease, id: ClaimId)
    requires Happens(c, s) && Operating(s, id) && s.operations[id] == Acquire(Quarantine(ABANDONED))
    requires s.directory == Some(Owned(ABANDONED))
    ensures
      var self := Self(s, id);
      Happens(c, Turn(s, id, Succeeded).(directory := Some(Owned(self)), established := s.established + {self}))
  {
    hide Happens;
    var moved := Owned(ABANDONED);
    var self := Self(s, id);
    var free, own := s.(directory := None), s.(directory := Some(Owned(self)));
    Continue(c, s, Operate(id, false), Turn(free, id, Acquire(Inspect(ABANDONED, moved))));
    Continue(c, Turn(free, id, Acquire(Inspect(ABANDONED, moved))), Operate(id, false), Turn(free, id, Acquire(Replace(ABANDONED, moved))));
    Continue(c, Turn(free, id, Acquire(Replace(ABANDONED, moved))), Operate(id, false), Turn(own, id, Acquire(CheckTakeover)));
    Continue(c, Turn(own, id, Acquire(CheckTakeover)), Operate(id, false), Turn(own, id, Acquire(Confirm)));
    Continue(c, Turn(own, id, Acquire(Confirm)), Operate(id, false), Turn(own, id, Succeeded).(established := s.established + {self}));
  }

  /** A takeover whose second rename is refused puts the owner back. */
  lemma RefusedTakeoverRestores(c: Config, s: Lease, id: ClaimId, o: Owner)
    requires Happens(c, s) && Operating(s, id) && s.operations[id] == Acquire(Quarantine(o)) && s.directory == Some(Owned(o))
    ensures Happens(c, Turn(s, id, Refused))
  {
    hide Happens;
    var moved, free := Owned(o), s.(directory := None);
    Continue(c, s, Operate(id, false), Turn(free, id, Acquire(Inspect(o, moved))));
    Continue(c, Turn(free, id, Acquire(Inspect(o, moved))), Operate(id, false), Turn(free, id, Acquire(Replace(o, moved))));
    Continue(c, Turn(free, id, Acquire(Replace(o, moved))), Operate(id, true), Turn(free, id, Acquire(Restore(moved))));
    Continue(c, Turn(free, id, Acquire(Restore(moved))), Operate(id, false), Turn(s, id, Refused));
  }

  /** A takeover or a release that has moved anybody else's directory puts it back. */
  lemma ForeignDirectoryIsRestored(c: Config, s: Lease, id: ClaimId, o: Owner, moved: Content)
    requires Happens(c, s) && Operating(s, id) && s.directory == Some(moved) && moved != Owned(o)
    requires s.operations[id] == Acquire(Quarantine(o)) || s.operations[id] == Release(o, Move)
    ensures Happens(c, Turn(s, id, Refused))
  {
    hide Happens;
    var free := s.(directory := None);
    var looks, restores := if s.operations[id].Acquire? then Acquire(Inspect(o, moved)) else Release(o, Capture(moved)),
                           if s.operations[id].Acquire? then Acquire(Restore(moved)) else Release(o, PutBack(moved));
    Continue(c, s, Operate(id, false), Turn(free, id, looks));
    Continue(c, Turn(free, id, looks), Operate(id, false), Turn(free, id, restores));
    Continue(c, Turn(free, id, restores), Operate(id, false), Turn(s, id, Refused));
  }

  /** Without competitors an acquisition replaces the owner directory of a dead process. */
  lemma DeadOwnerIsReplaced(c: Config, id: ClaimId)
    ensures exists s :: Happens(c, s) && Holds(s, Owner(0, id)) && s.directory == Some(Owned(Owner(0, id)))
  {
    hide Happens;
    var guard := State(map[], map[], {2});
    var s := Lease(guard, Some(Owned(ABANDONED)), map[], {}, {});
    AbandonedHappens(c);
    var begun := s.(guard := guard.(entries := map[id := Entry(0, Phase.Publishing)]), operations := map[id := Acquire(Publish)]);
    Continue(c, s, StartAcquire(id, 0), begun);
    Enters(c, begun, id);
    var inside := begun.(guard := Become(begun.guard, id, Inside(1)).(claims := map[id := Claim(0, Some(1))]));
    FindsAbandoned(c, inside, id);
    ReplacesAbandoned(c, Turn(inside, id, Acquire(Quarantine(ABANDONED))), id);
    var self := Owner(0, id);
    var t := Turn(inside, id, Succeeded).(directory := Some(Owned(self)), established := {} + {self});
    assert Turn(Turn(inside, id, Acquire(Quarantine(ABANDONED))), id, Succeeded) == Turn(inside, id, Succeeded);
    Returns(c, t, id);
    var u := t.(guard := Become(t.guard, id, Gone).(claims := t.guard.claims - {id}), returned := t.returned + {self});
    assert Holds(u, self);
  }

  lemma AbandonedHappens(c: Config)
    ensures Happens(c, Lease(State(map[], map[], {2}), Some(Owned(ABANDONED)), map[], {}, {}))
  {
    var s := Unused().(directory := Some(Owned(ABANDONED)));
    assert History(c, [s], []);
    Continue(c, s, GuardStep(Action.Crash(2)), s.(guard := State(map[], map[], {2})));
  }

  // ---------------------------------------------------------------------------
  // What the stale rule does to leases
  // ---------------------------------------------------------------------------

  /** The stale rule has let `x` and `y` inside together. */
  function TwoInside(x: ClaimId, y: ClaimId): Lease {
    Lease(State(map[y := Claim(1, Some(1))], map[x := Entry(0, Inside(1)), y := Entry(1, Inside(1))], {2}),
          Some(Owned(ABANDONED)), map[x := Acquire(Publish), y := Acquire(Publish)], {}, {})
  }

  lemma SetTrapIs(x: ClaimId, y: ClaimId)
    requires x != y
    ensures
      var s := TrapSet(x, y);
      && s.claims == map[x := Claim(0, None), y := Claim(1, Some(1))] && s.crashed == {}
      && s.entries.Keys == {x, y} && s.entries[x].process == 0 && s.entries[y].process == 1
  {
    var one := Joined(Initial, x, 0);
    assert one.claims == map[x := Claim(0, None)] && one.entries.Keys == {x};
    var two := Joined(one, y, 1);
    assert two.claims == map[x := Claim(0, None), y := Claim(1, None)] && two.entries.Keys == {x, y};
    hide Joined;
  }

  lemma SprungTrapIs(x: ClaimId, y: ClaimId)
    requires x != y
    ensures y in TrapSprung(x, y).entries
    ensures Become(TrapSprung(x, y), y, Inside(1)).(claims := TrapSprung(x, y).claims - {x}) == TwoInside(x, y).guard.(crashed := {})
  {
    SetTrapIs(x, y);
    hide TrapSet;
    var s := TrapSprung(x, y);
    assert s.claims - {x} == map[y := Claim(1, Some(1))];
    assert s.entries[y := Entry(1, Inside(1))] == map[x := Entry(0, Inside(1)), y := Entry(1, Inside(1))];
  }

  lemma ReachTwoInside(c: Config, x: ClaimId, y: ClaimId)
    requires x != y && c.compare(y, x) > 0 && !c.staleRuleIsSafe
    ensures Happens(c, TwoInside(x, y))
  {
    hide Happens, Leads, TrapSprung;
    var guard := TwoInside(x, y).guard.(crashed := {});
    BothInside(c, x, y);
    SprungTrapIs(x, y);
    LiftedFromStart(c, guard, Some(Owned(ABANDONED)));
    var s := TwoInside(x, y).(guard := guard);
    assert s.operations == map i | i in guard.entries :: Acquire(Publish);
    Continue(c, s, GuardStep(Action.Crash(2)), TwoInside(x, y));
  }

  /** Both find the abandoned owner; `x` replaces it and returns its lease. */
  function LeasedBeside(x: ClaimId, y: ClaimId): Lease {
    var self, s := Owner(0, x), TwoInside(x, y);
    s.(guard := Become(s.guard, x, Gone), operations := map[x := Succeeded, y := Acquire(Quarantine(ABANDONED))],
       directory := Some(Owned(self)), established := {self}, returned := {self})
  }

  lemma ReachLeasedBeside(c: Config, x: ClaimId, y: ClaimId)
    requires x != y && Happens(c, TwoInside(x, y))
    ensures Happens(c, LeasedBeside(x, y))
  {
    hide Happens;
    var s := TwoInside(x, y);
    FindsAbandoned(c, s, y);
    s := Turn(s, y, Acquire(Quarantine(ABANDONED)));
    FindsAbandoned(c, s, x);
    s := Turn(s, x, Acquire(Quarantine(ABANDONED)));
    ReplacesAbandoned(c, s, x);
    var self := Owner(0, x);
    s := Turn(s, x, Succeeded).(directory := Some(Owned(self)), established := s.established + {self});
    Returns(c, s, x);
    assert s.guard.claims - {x} == s.guard.claims;
    assert s.(guard := Become(s.guard, x, Gone).(claims := s.guard.claims - {x}), returned := s.returned + {self}) == LeasedBeside(x, y);
  }

  /** Then `y` moves the directory of `x` away. */
  function Evicted(x: ClaimId, y: ClaimId): Lease {
    Turn(LeasedBeside(x, y), y, Acquire(Inspect(ABANDONED, Owned(Owner(0, x))))).(directory := None)
  }

  lemma ReachEvicted(c: Config, x: ClaimId, y: ClaimId)
    requires x != y && c.compare(y, x) > 0 && !c.staleRuleIsSafe
    ensures Happens(c, Evicted(x, y)) && Holds(Evicted(x, y), Owner(0, x))
  {
    hide Happens;
    ReachTwoInside(c, x, y);
    ReachLeasedBeside(c, x, y);
    Continue(c, LeasedBeside(x, y), Operate(y, false), Evicted(x, y));
  }

  /** A newcomer finds the claim of `y`, whose process has died. */
  lemma NewcomerElected(c: Config, guard: State, y: ClaimId, z: ClaimId) returns (elected: State)
    requires guard.claims == map[y := Claim(1, Some(1))] && guard.crashed == {1, 2} && z !in guard.entries && y != z
    ensures Leads(c, guard, elected) && elected.crashed == {1, 2}
    ensures elected.entries == guard.entries[z := Entry(3, Inside(2))]
  {
    hide Leads;
    LeadsNowhere(c, guard);
    UndisturbedJoin(c, guard, guard, z, 3);
    var joined := Joined(guard, z, 3);
    assert y in joined.claims && joined.claims[y].ticket == Some(1);
    UndisturbedTicket(c, guard, joined, z, 1);
    var surveyed := Surveyed(joined, z, 1);
    RemovesTheDead(c, guard, surveyed, z, y);
    elected := Become(surveyed, z, Inside(2)).(claims := surveyed.claims - {y});
  }

  /** `y` crashes before it puts the directory back, and a newcomer goes through the guard. */
  lemma NewcomerInside(c: Config, x: ClaimId, y: ClaimId, z: ClaimId) returns (s: Lease)
    requires x != y && x != z && y != z && Happens(c, Evicted(x, y))
    ensures Happens(c, s) && z in s.guard.entries && s.guard.entries[z] == Entry(3, Inside(2)) && s.guard.crashed == {1, 2}
    ensures z in s.operations && s.operations[z] == Acquire(Publish) && s.directory.None?
    ensures s.established == {Owner(0, x)} && s.returned == {Owner(0, x)}
  {
    hide Happens, Leads;
    var t := Evicted(x, y);
    var guard := t.guard.(crashed := {1, 2});
    Continue(c, t, GuardStep(Action.Crash(1)), t.(guard := guard));
    t := t.(guard := guard);
    var elected := NewcomerElected(c, guard, y, z);
    Lifted(c, t, elected);
    s := Extended(t, elected);
  }

  lemma TwoHolders(c: Config, x: ClaimId, y: ClaimId, z: ClaimId)
    requires x != y && x != z && y != z && c.compare(y, x) > 0 && !c.staleRuleIsSafe
    ensures exists s :: Happens(c, s) && Holds(s, Owner(0, x)) && Holds(s, Owner(3, z))
  {
    hide Happens;
    ReachEvicted(c, x, y);
    var s := NewcomerInside(c, x, y, z);
    Publishes(c, s, z);
    var self := Owner(3, z);
    var t := Turn(s, z, Succeeded).(directory := Some(Owned(self)), established := s.established + {self});
    Returns(c, t, z);
    var u := t.(guard := Become(t.guard, z, Gone).(claims := t.guard.claims - {z}), returned := t.returned + {self});
    assert Holds(u, Owner(0, x)) && Holds(u, self);
  }

  /** Leases are current as long as they are held exactly when the stale rule spares live contenders. */
  lemma CurrencyNeedsSafeStaleRule(c: Config)
    requires StrictOrder(c.compare)
    ensures c.staleRuleIsSafe <==> forall s, o :: Happens(c, s) && Holds(s, o) ==> s.directory == Some(Owned(o))
  {
    if c.staleRuleIsSafe {
      forall s, o | Happens(c, s) && Holds(s, o) ensures s.directory == Some(Owned(o)) {
        var states: seq<Lease>, events: seq<Event> :| History(c, states, events) && states[|events|] == s;
        LeaseInvariantThroughout(c, states, events, |events|);
      }
    } else {
      var (x, y) := Two(c);
      ReachEvicted(c, x, y);
    }
  }

  /** There is at most one holder at any time exactly when the stale rule spares live contenders. */
  lemma ExclusionNeedsSafeStaleRule(c: Config)
    requires StrictOrder(c.compare)
    ensures c.staleRuleIsSafe <==> forall s, o, o' :: Happens(c, s) && Holds(s, o) && Holds(s, o') ==> o == o'
  {
    if c.staleRuleIsSafe {
      forall s, o, o' | Happens(c, s) && Holds(s, o) && Holds(s, o') ensures o == o' {
        var states: seq<Lease>, events: seq<Event> :| History(c, states, events) && states[|events|] == s;
        AtMostOneHolder(c, states, events, |events|, o, o');
      }
    } else {
      var (x, y) := Two(c);
      TwoHolders(c, x, y, "c");
    }
  }
}
