/**
 Delivery of an approved commit to a checked-out branch: a compare-and-set ref
 update, then a reset of the working tree, with a recovery path for a crash between
 the two, under the durable-result layer that stores the receipt and records one
 terminal observation. An attempt is a state machine whose steps are single git
 operations; other processes move refs and edit the working tree between them.

 The attempt runs under the repository lease from its recovery reads to its receipt.
 The working tree is nobody else's during that time; whether refs are is a
 parameter, because git does not know the lease. The cleanliness rule passes over
 some directories that the diff and the reset of the reconciliation do not.
 */
module Delivery {
  import opened Options

  type Branch = nat
  type Commit = nat

  /** The tracked files outside and inside the directories that the cleanliness rule exempts. */
  datatype Tree = Tree(visible: nat, exempt: nat)

  datatype Request = Request(branch: Branch, targetHead: Commit, finalSha: Commit)

  datatype Receipt = Receipt(request: Request, headAfter: Commit, tree: Tree)

  datatype Reason = Rejected | TargetChanged | TargetDirty | Divergence | Unrecoverable | NotPublished | Interrupted

  datatype Observation = Succeeded(receipt: Receipt) | Failed(reason: Reason)

  /** `head` is the branch HEAD names, `tree` the tracked content of the checkout, `untracked`
      whether an untracked file lies outside the exempt directories. */
  datatype Repo = Repo(refs: map<Branch, Commit>, head: Branch, tree: Tree, untracked: bool)

  datatype Settle = ReadingStatus | ReadingDiff | Resetting | Confirming | Attesting(after: Commit)

  /** What an attempt does next, with the reads it has made so far. */
  datatype Stage =
    | Entering
    | Preparing
    | Recovering(branch: Option<Branch>, seen: Option<Option<Commit>>)
    | Revalidating
    | Inspecting(branch: Option<Branch>, seen: Option<Option<Commit>>)
    | Publishing(branch: Option<Branch>, seen: Option<Option<Commit>>, clean: Option<bool>)
    | Swapping
    | Settling(settle: Settle)
    | Writing(receipt: Receipt)
    | Recording(outcome: Observation)

  /** `published` is whether the current attempt has moved the ref itself. */
  datatype State = State(
    repo: Repo, stage: Option<Stage>, published: bool, stored: Option<Receipt>, recorded: Option<Observation>)

  /** When other processes move refs: never under the lease, until the target is at the final
      commit, or always. */
  datatype Moves = NotUnderLease | UntilSettled | Always

  /** `drift` is whether others may leave tracked files under the exempt directories changed. */
  datatype Config = Config(treeOf: Commit -> Tree, request: Request, moves: Moves, faults: bool, drift: bool)

  /** Which of its possible operations an attempt performs. */
  datatype Pick = Proceed | ReadBranch | ReadHead | ReadStatus | Invalidated | Refused

  datatype Action =
    | Begin
    | Step(pick: Pick)
    | Fault
    | Crash
    | Move(branch: Branch, commit: Commit)
    | Touch(head: Branch, tree: Tree, untracked: bool)

  /** git rev-parse HEAD. */
  function HeadOf(r: Repo): Option<Commit> {
    if r.head in r.refs then Some(r.refs[r.head]) else None
  }

  /** The checkout differs from the commit under exempt directories only. */
  predicate LooksLike(c: Config, r: Repo, commit: Commit) {
    r.tree.visible == c.treeOf(commit).visible
  }

  /** Every entry of git status is exempt: the rule reads the paths of tracked and untracked files
      alike, and never the status letters. */
  predicate Clean(c: Config, r: Repo) {
    HeadOf(r).Some? && LooksLike(c, r, HeadOf(r).value) && !r.untracked
  }

  /** git diff against the approved head is empty: no directory is exempt here, and untracked files
      do not show. */
  predicate AtApprovedTree(c: Config, r: Repo) {
    r.tree == c.treeOf(c.request.targetHead)
  }

  function WithRef(r: Repo, b: Branch, commit: Commit): Repo {
    r.(refs := r.refs[b := commit])
  }

  /** git reset --hard: the branch HEAD names and the tracked files. */
  function Reset(c: Config, r: Repo, commit: Commit): Repo {
    WithRef(r, r.head, commit).(tree := c.treeOf(commit))
  }

  function At(s: State, stage: Stage): State {
    s.(stage := Some(stage))
  }

  function Fail(s: State, reason: Reason): State {
    At(s, Recording(Failed(reason)))
  }

  function Leave(s: State): State {
    s.(stage := None)
  }

  /** converge up to the repository: a terminal observation, a stored receipt, a revoked intent. */
  function AfterEntry(s: State, stage: Stage, pick: Pick): State {
    if stage.Entering? then
      if s.recorded.Some? then Leave(s)
      else if s.stored.Some? then At(s, Recording(Succeeded(s.stored.value)))
      else At(s, Preparing)
    else if pick.Invalidated? then Leave(s)
    else if pick.Refused? then Fail(s, Rejected)
    else At(s, Recovering(None, None))
  }

  /** recover: the branch and the head are read concurrently. */
  function AfterRecovery(c: Config, s: State, branch: Option<Branch>, seen: Option<Option<Commit>>, pick: Pick): State {
    match pick
    case ReadBranch => At(s, Recovering(Some(s.repo.head), seen))
    case ReadHead => At(s, Recovering(branch, Some(HeadOf(s.repo))))
    case _ =>
      if branch != Some(c.request.branch) then At(s, Revalidating)
      else if seen == Some(Some(c.request.finalSha)) then At(s, Settling(ReadingStatus))
      else if seen == Some(Some(c.request.targetHead)) then At(s, Revalidating)
      else Fail(s, Divergence)
  }

  /** The pre-flight inspection: branch, head, status, one after the other. */
  function AfterInspection(c: Config, s: State, branch: Option<Branch>, seen: Option<Option<Commit>>, pick: Pick): State {
    match pick
    case ReadBranch => At(s, Inspecting(Some(s.repo.head), seen))
    case ReadHead => At(s, Inspecting(branch, Some(HeadOf(s.repo))))
    case _ =>
      if branch != Some(c.request.branch) || seen != Some(Some(c.request.targetHead)) then Fail(s, TargetChanged)
      else if !Clean(c, s.repo) then Fail(s, TargetDirty)
      else At(s, Publishing(None, None, None))
  }

  /** The reads of publish, made concurrently, and the decision on them. */
  function AfterPublication(c: Config, s: State, p: Stage, pick: Pick): State
    requires p.Publishing?
  {
    match pick
    case ReadBranch => At(s, p.(branch := Some(s.repo.head)))
    case ReadHead => At(s, p.(seen := Some(HeadOf(s.repo))))
    case ReadStatus => At(s, p.(clean := Some(Clean(c, s.repo))))
    case _ =>
      if p.branch != Some(c.request.branch) then Fail(s, TargetChanged)
      else if p.clean != Some(true) then Fail(s, TargetDirty)
      else if p.seen != Some(Some(c.request.targetHead)) then Fail(s, Divergence)
      else At(s, Swapping)
  }

  /** git update-ref with the expected old value. */
  function AfterSwap(c: Config, s: State): State {
    var b := c.request.branch;
    if b in s.repo.refs && s.repo.refs[b] == c.request.targetHead
    then At(s, Settling(ReadingStatus)).(repo := WithRef(s.repo, b, c.request.finalSha), published := true)
    else Fail(s, NotPublished)
  }

  /** reconcileDeliveredWorkingTree, the check of the head after a publication, and the receipt. */
  function AfterSettling(c: Config, s: State, p: Settle): State {
    var reconciled := if s.published then Settling(Confirming) else Settling(Attesting(c.request.finalSha));
    match p
    case ReadingStatus => At(s, if Clean(c, s.repo) then reconciled else Settling(ReadingDiff))
    case ReadingDiff => if AtApprovedTree(c, s.repo) then At(s, Settling(Resetting)) else Fail(s, Unrecoverable)
    case Resetting => At(s, reconciled).(repo := Reset(c, s.repo, c.request.finalSha))
    case Confirming =>
      if HeadOf(s.repo) == Some(c.request.finalSha) then At(s, Settling(Attesting(HeadOf(s.repo).value)))
      else Fail(s, NotPublished)
    case Attesting(after) => At(s, Writing(Receipt(c.request, after, c.treeOf(after))))
  }

  function AfterStep(c: Config, s: State, stage: Stage, pick: Pick): State {
    match stage
    case Entering => AfterEntry(s, stage, pick)
    case Preparing => AfterEntry(s, stage, pick)
    case Recovering(branch, seen) => AfterRecovery(c, s, branch, seen, pick)
    case Revalidating => if pick.Refused? then Fail(s, Rejected) else At(s, Inspecting(None, None))
    case Inspecting(branch, seen) => AfterInspection(c, s, branch, seen, pick)
    case Publishing(_, _, _) => AfterPublication(c, s, stage, pick)
    case Swapping => AfterSwap(c, s)
    case Settling(settle) => AfterSettling(c, s, settle)
    case Writing(receipt) => At(s, Recording(Succeeded(receipt))).(stored := Some(receipt))
    case Recording(outcome) => Leave(s).(recorded := Some(outcome))
  }

  predicate Offers(stage: Stage, pick: Pick) {
    match stage
    case Preparing => pick.Proceed? || pick.Invalidated? || pick.Refused?
    case Revalidating => pick.Proceed? || pick.Refused?
    case Recovering(branch, seen) =>
      if branch.None? && seen.None? then pick.ReadBranch? || pick.ReadHead?
      else if branch.None? then pick.ReadBranch?
      else if seen.None? then pick.ReadHead?
      else pick.Proceed?
    case Inspecting(branch, seen) =>
      if branch.None? then pick.ReadBranch? else if seen.None? then pick.ReadHead? else pick.ReadStatus?
    case Publishing(branch, seen, clean) =>
      || (pick.ReadBranch? && branch.None?) || (pick.ReadHead? && seen.None?) || (pick.ReadStatus? && clean.None?)
      || (pick.Proceed? && branch.Some? && seen.Some? && clean.Some?)
    case _ => pick.Proceed?
  }

  predicate UnderLease(stage: Option<Stage>) {
    stage.Some? && !stage.value.Entering? && !stage.value.Preparing? && !stage.value.Writing? && !stage.value.Recording?
  }

  /** The attempt acts on having seen or made the target the final commit. */
  predicate Settled(c: Config, stage: Option<Stage>) {
    stage.Some? && (stage.value.Settling? || (stage.value.Recovering? && stage.value.seen == Some(Some(c.request.finalSha))))
  }

  predicate MovesAllowed(c: Config, stage: Option<Stage>) {
    match c.moves
    case NotUnderLease => !UnderLease(stage)
    case UntilSettled => !Settled(c, stage)
    case Always => true
  }

  predicate HoldsFinalTree(c: Config, r: Repo) {
    r.tree == c.treeOf(c.request.finalSha)
  }

  /** The checkout looks like the approved or the final commit and is neither: tracked files under
      exempt directories have changed. */
  predicate Drifting(c: Config, r: Repo) {
    && (LooksLike(c, r, c.request.targetHead) || LooksLike(c, r, c.request.finalSha))
    && !AtApprovedTree(c, r) && !HoldsFinalTree(c, r)
  }

  predicate DriftAllowed(c: Config, r: Repo) {
    Drifting(c, r) ==> c.drift
  }

  function Touched(r: Repo, head: Branch, tree: Tree, untracked: bool): Repo {
    r.(head := head, tree := tree, untracked := untracked)
  }

  predicate Enabled(c: Config, s: State, a: Action) {
    match a
    case Begin => s.stage.None?
    case Step(pick) => s.stage.Some? && Offers(s.stage.value, pick)
    case Fault => c.faults && s.stage.Some?
    case Crash => true
    case Move(_, _) => MovesAllowed(c, s.stage)
    case Touch(head, tree, untracked) => !UnderLease(s.stage) && DriftAllowed(c, Touched(s.repo, head, tree, untracked))
  }

  /** An operation throws: the result read and the record propagate, everything else becomes a
      failed observation. */
  function AfterFault(s: State): State
    requires s.stage.Some?
  {
    if s.stage.value.Entering? || s.stage.value.Recording? then Leave(s) else Fail(s, Interrupted)
  }

  function Apply(c: Config, s: State, a: Action): State
    requires Enabled(c, s, a)
  {
    match a
    case Begin => At(s, Entering).(published := false)
    case Step(pick) => AfterStep(c, s, s.stage.value, pick)
    case Fault => AfterFault(s)
    case Crash => Leave(s)
    case Move(branch, commit) => s.(repo := WithRef(s.repo, branch, commit))
    case Touch(head, tree, untracked) => s.(repo := Touched(s.repo, head, tree, untracked))
  }

  predicate Start(s: State) {
    s.stage.None? && s.stored.None? && s.recorded.None?
  }

  ghost predicate Run(c: Config, states: seq<State>, actions: seq<Action>) {
    && |states| == |actions| + 1 && Start(states[0])
    && forall k :: 0 <= k < |actions| ==> Enabled(c, states[k], actions[k]) && states[k + 1] == Apply(c, states[k], actions[k])
  }

  ghost predicate Reachable(c: Config, s: State) {
    exists states: seq<State>, actions: seq<Action> :: Run(c, states, actions) && DriftAllowed(c, states[0].repo) && states[|actions|] == s
  }

  // ---------------------------------------------------------------------------
  // Safety when refs are left alone once the target is at the final commit
  // ---------------------------------------------------------------------------

  /** The branch HEAD names is the target and it is at the final commit. */
  predicate Delivered(c: Config, r: Repo) {
    r.head == c.request.branch && HeadOf(r) == Some(c.request.finalSha)
  }

  function TheReceipt(c: Config): Receipt {
    Receipt(c.request, c.request.finalSha, c.treeOf(c.request.finalSha))
  }

  predicate ReceiptIs(c: Config, receipt: Receipt) {
    receipt == TheReceipt(c)
  }

  predicate Sound(c: Config, o: Observation) {
    o.Succeeded? ==> ReceiptIs(c, o.receipt)
  }

  /** What the reads of an attempt are worth under interference that spares the settling. */
  predicate Grounded(c: Config, r: Repo, stage: Stage) {
    match stage
    case Recovering(branch, seen) =>
      && (branch.Some? ==> branch.value == r.head)
      && (seen == Some(Some(c.request.finalSha)) ==> HeadOf(r) == Some(c.request.finalSha))
    case Publishing(branch, _, _) => branch.Some? ==> branch.value == r.head
    case Swapping => r.head == c.request.branch
    case Settling(p) =>
      && Delivered(c, r)
      && (p.Resetting? ==> AtApprovedTree(c, r))
      && (p.Confirming? ==> LooksLike(c, r, c.request.finalSha))
      && (p.Attesting? ==> LooksLike(c, r, c.request.finalSha) && p.after == c.request.finalSha)
    case Writing(receipt) => ReceiptIs(c, receipt)
    case Recording(outcome) => Sound(c, outcome)
    case _ => true
  }

  predicate Invariant(c: Config, s: State) {
    && (s.stage.Some? ==> Grounded(c, s.repo, s.stage.value))
    && (s.stored.Some? ==> ReceiptIs(c, s.stored.value))
    && (s.recorded.Some? ==> Sound(c, s.recorded.value))
  }

  lemma SettlingGrounded(c: Config, s: State, pick: Pick)
    requires Invariant(c, s) && Enabled(c, s, Step(pick)) && s.stage.value.Settling?
    ensures Invariant(c, Apply(c, s, Step(pick)))
  {
    assert Grounded(c, s.repo, s.stage.value);
  }

  lemma ReadsGrounded(c: Config, s: State, pick: Pick)
    requires Invariant(c, s) && Enabled(c, s, Step(pick))
    requires s.stage.value.Recovering? || s.stage.value.Publishing?
    ensures Invariant(c, Apply(c, s, Step(pick)))
  {
    assert Grounded(c, s.repo, s.stage.value);
  }

  lemma StepGrounded(c: Config, s: State, pick: Pick)
    requires Invariant(c, s) && Enabled(c, s, Step(pick))
    requires !s.stage.value.Settling? && !s.stage.value.Recovering? && !s.stage.value.Publishing?
    ensures Invariant(c, Apply(c, s, Step(pick)))
  {
    assert Grounded(c, s.repo, s.stage.value);
  }

  lemma OthersGrounded(c: Config, s: State, a: Action)
    requires !c.moves.Always? && Invariant(c, s) && Enabled(c, s, a) && !a.Step?
    ensures Invariant(c, Apply(c, s, a))
  {
  }

  lemma InvariantKept(c: Config, s: State, a: Action)
    requires !c.moves.Always? && Invariant(c, s) && Enabled(c, s, a)
    ensures Invariant(c, Apply(c, s, a))
  {
    if !a.Step? { OthersGrounded(c, s, a); }
    else if s.stage.value.Settling? { SettlingGrounded(c, s, a.pick); }
    else if s.stage.value.Recovering? || s.stage.value.Publishing? { ReadsGrounded(c, s, a.pick); }
    else { StepGrounded(c, s, a.pick); }
  }

  lemma {:induction false} InvariantThroughout(c: Config, states: seq<State>, actions: seq<Action>, k: nat)
    requires !c.moves.Always? && Run(c, states, actions) && k < |states|
    ensures Invariant(c, states[k])
  {
    if k > 0 {
      InvariantThroughout(c, states, actions, k - 1);
      InvariantKept(c, states[k - 1], actions[k - 1]);
    }
  }

  predicate OfTheCode(a: Action) {
    !a.Move? && !a.Touch?
  }

  /** Refs stay, or the target branch goes from the approved head to the final commit. */
  predicate OnlyTheApprovedMove(c: Config, before: Repo, after: Repo) {
    || after.refs == before.refs
    || (&& c.request.branch in before.refs && before.refs[c.request.branch] == c.request.targetHead
        && after.refs == before.refs[c.request.branch := c.request.finalSha])
  }

  /** The checkout stays, or goes from the approved tree to the final one with the target delivered. */
  predicate OnlyTheApprovedReset(c: Config, before: Repo, after: Repo) {
    || (after.tree == before.tree)
    || (Delivered(c, before) && AtApprovedTree(c, before) && HoldsFinalTree(c, after))
  }

  predicate GivesReceipt(s: State, a: Action) {
    a.Step? && s.stage.Some? && s.stage.value.Settling? && s.stage.value.settle.Attesting?
  }

  /** One step of the code: the only ref move and reset are the approved ones, and a receipt is
      given only for a delivered target whose checkout looks like the final commit. */
  predicate Safe(c: Config, s: State, a: Action)
    requires Enabled(c, s, a)
  {
    var s' := Apply(c, s, a);
    OfTheCode(a) ==>
      && s'.repo.head == s.repo.head && s'.repo.untracked == s.repo.untracked
      && OnlyTheApprovedMove(c, s.repo, s'.repo)
      && OnlyTheApprovedReset(c, s.repo, s'.repo)
      && (GivesReceipt(s, a) ==>
            && Delivered(c, s.repo) && LooksLike(c, s.repo, c.request.finalSha)
            && s'.stage == Some(Writing(TheReceipt(c))))
  }

  lemma SafeStep(c: Config, s: State, a: Action)
    requires Invariant(c, s) && Enabled(c, s, a)
    ensures Safe(c, s, a)
  {
    if GivesReceipt(s, a) { assert Grounded(c, s.repo, s.stage.value); }
    if a.Step? && s.stage.value == Settling(Resetting) {
      assert Delivered(c, s.repo);
      assert Reset(c, s.repo, c.request.finalSha).refs == s.repo.refs;
    }
  }

  lemma SafeThroughout(c: Config, states: seq<State>, actions: seq<Action>, k: nat)
    requires !c.moves.Always? && Run(c, states, actions) && k < |actions|
    ensures Safe(c, states[k], actions[k])
  {
    InvariantThroughout(c, states, actions, k);
    SafeStep(c, states[k], actions[k]);
  }

  /** A receipt on its way, stored or recorded is the receipt of the final commit. */
  predicate ReceiptsAgree(c: Config, s: State) {
    && (s.stage.Some? ==>
          match s.stage.value
          case Settling(Attesting(after)) => after == c.request.finalSha
          case Writing(receipt) => ReceiptIs(c, receipt)
          case Recording(outcome) => Sound(c, outcome)
          case _ => true)
    && (s.stored.Some? ==> ReceiptIs(c, s.stored.value))
    && (s.recorded.Some? ==> Sound(c, s.recorded.value))
  }

  lemma ReceiptsAgreeKept(c: Config, s: State, a: Action)
    requires ReceiptsAgree(c, s) && Enabled(c, s, a)
    ensures ReceiptsAgree(c, Apply(c, s, a))
  {
  }

  /** Whatever is returned, stored or recorded over any number of attempts, crashes and foreign moves is
      one receipt. */
  lemma {:induction false} OneReceipt(c: Config, states: seq<State>, actions: seq<Action>, k: nat)
    requires Run(c, states, actions) && k < |states|
    ensures ReceiptsAgree(c, states[k])
    ensures states[k].stored.Some? ==> states[k].stored.value == TheReceipt(c)
    ensures states[k].recorded.Some? && states[k].recorded.value.Succeeded? ==> states[k].recorded.value.receipt == TheReceipt(c)
  {
    if k > 0 {
      OneReceipt(c, states, actions, k - 1);
      ReceiptsAgreeKept(c, states[k - 1], actions[k - 1]);
    }
  }

  // ---------------------------------------------------------------------------
  // An attempt nobody disturbs computes one function of the repository
  // ---------------------------------------------------------------------------

  datatype Result = Result(repo: Repo, outcome: Observation)

  /** What reconciliation makes of a delivered target. */
  function Settlement(c: Config, r: Repo): Result {
    if Clean(c, r) then Result(r, Succeeded(TheReceipt(c)))
    else if AtApprovedTree(c, r) then Result(r.(tree := c.treeOf(c.request.finalSha)), Succeeded(TheReceipt(c)))
    else Result(r, Failed(Unrecoverable))
  }

  /** What the delivery of the request does to a repository, as one step. */
  function Outcome(c: Config, r: Repo): Result {
    if r.head != c.request.branch then Result(r, Failed(TargetChanged))
    else if HeadOf(r) == Some(c.request.finalSha) then Settlement(c, r)
    else if HeadOf(r) == Some(c.request.targetHead) then
      if Clean(c, r) then Settlement(c, WithRef(r, r.head, c.request.finalSha)) else Result(r, Failed(TargetDirty))
    else Result(r, Failed(Divergence))
  }

  /** The target is checked out at the approved head, and status shows nothing. */
  predicate Deliverable(c: Config, r: Repo) {
    r.head == c.request.branch && HeadOf(r) == Some(c.request.targetHead) && Clean(c, r) && c.request.targetHead != c.request.finalSha
  }

  /** Recovery gave up: the inspection that follows decides. */
  predicate NotRecovered(c: Config, r: Repo) {
    r.head != c.request.branch || (HeadOf(r) == Some(c.request.targetHead) && c.request.targetHead != c.request.finalSha)
  }

  /** The reads of an attempt agree with the repository as it is. */
  predicate Accurate(c: Config, r: Repo, published: bool, stage: Stage) {
    match stage
    case Recovering(branch, seen) =>
      !published && (branch.Some? ==> branch.value == r.head) && (seen.Some? ==> seen.value == HeadOf(r))
    case Revalidating => !published && NotRecovered(c, r)
    case Inspecting(branch, seen) =>
      && !published && NotRecovered(c, r)
      && (branch.Some? ==> branch.value == r.head) && (seen.Some? ==> seen.value == HeadOf(r))
    case Publishing(branch, seen, clean) =>
      && !published && Deliverable(c, r)
      && (branch.Some? ==> branch.value == r.head) && (seen.Some? ==> seen.value == HeadOf(r))
      && (clean.Some? ==> clean.value == Clean(c, r))
    case Swapping => !published && Deliverable(c, r)
    case Settling(p) =>
      && Delivered(c, r)
      && (published ==> !r.untracked)
      && (p.ReadingDiff? || p.Resetting? ==> !Clean(c, r))
      && (p.Resetting? ==> AtApprovedTree(c, r))
      && (p.Confirming? ==> published && LooksLike(c, r, c.request.finalSha))
      && (p.Attesting? ==> LooksLike(c, r, c.request.finalSha) && p.after == c.request.finalSha)
    case Writing(receipt) => ReceiptIs(c, receipt)
    case Recording(outcome) => Sound(c, outcome)
    case _ => !published
  }

  predicate AccurateState(c: Config, s: State) {
    && (s.stage.Some? ==> Accurate(c, s.repo, s.published, s.stage.value))
    && (s.stored.Some? ==> ReceiptIs(c, s.stored.value))
  }

  lemma SettlingAccurate(c: Config, s: State, pick: Pick)
    requires AccurateState(c, s) && Enabled(c, s, Step(pick)) && s.stage.value.Settling?
    ensures AccurateState(c, Apply(c, s, Step(pick)))
  {
    assert Accurate(c, s.repo, s.published, s.stage.value);
  }

  lemma StepAccurate(c: Config, s: State, pick: Pick)
    requires AccurateState(c, s) && Enabled(c, s, Step(pick)) && !s.stage.value.Settling?
    ensures AccurateState(c, Apply(c, s, Step(pick)))
  {
    assert Accurate(c, s.repo, s.published, s.stage.value);
  }

  lemma OthersAccurate(c: Config, s: State, a: Action)
    requires c.moves.NotUnderLease? && !a.Fault? && AccurateState(c, s) && Enabled(c, s, a) && !a.Step?
    ensures AccurateState(c, Apply(c, s, a))
  {
  }

  lemma AccurateKept(c: Config, s: State, a: Action)
    requires c.moves.NotUnderLease? && !a.Fault? && AccurateState(c, s) && Enabled(c, s, a)
    ensures AccurateState(c, Apply(c, s, a))
  {
    if !a.Step? { OthersAccurate(c, s, a); }
    else if s.stage.value.Settling? { SettlingAccurate(c, s, a.pick); }
    else { StepAccurate(c, s, a.pick); }
  }

  /** Nobody else moves anything, no operation throws, no validation refuses; crashes happen. */
  predicate Undisturbed(a: Action) {
    a.Begin? || a.Crash? || (a.Step? && !a.pick.Invalidated? && !a.pick.Refused?)
  }

  /** A recovery at this repository would reset a checkout that also holds an untracked file. */
  predicate Fragile(c: Config, r: Repo) {
    && Delivered(c, r) && r.untracked && AtApprovedTree(c, r)
    && c.treeOf(c.request.targetHead) != c.treeOf(c.request.finalSha)
  }

  /** A stage the receipt cannot be lost from. */
  predicate Reconciled(c: Config, r: Repo, stage: Stage) {
    stage.Settling? && (stage.settle.Confirming? || stage.settle.Attesting?) ==> Clean(c, r) || (AtApprovedTree(c, r) && HoldsFinalTree(c, r))
  }

  predicate ResultOf(goal: Result, r: Repo, stage: Stage) {
    && (stage.Writing? ==> goal == Result(r, Succeeded(stage.receipt)))
    && (stage.Recording? ==> goal == Result(r, stage.outcome))
  }

  /** The repository still delivers to `goal`, and the durable results say so. */
  predicate Toward(c: Config, s: State, goal: Result) {
    && AccurateState(c, s) && !Fragile(c, s.repo) && Outcome(c, s.repo) == goal
    && (s.stage.Some? ==> Reconciled(c, s.repo, s.stage.value) && ResultOf(goal, s.repo, s.stage.value))
    && (s.stored.Some? ==>
          && goal == Result(s.repo, Succeeded(s.stored.value))
          && (s.stage.Some? ==> s.stage.value.Entering? || s.stage.value.Recording?))
    && (s.recorded.Some? ==>
          && goal == Result(s.repo, s.recorded.value)
          && (s.stage.Some? ==> s.stage.value.Entering?))
  }

  lemma SettlingToward(c: Config, s: State, pick: Pick, goal: Result)
    requires Toward(c, s, goal) && Enabled(c, s, Step(pick)) && s.stage.value.Settling?
    ensures Toward(c, Apply(c, s, Step(pick)), goal)
  {
    SettlingAccurate(c, s, pick);
    assert Accurate(c, s.repo, s.published, s.stage.value);
    if s.stage.value.settle.Resetting? {
      assert Reset(c, s.repo, c.request.finalSha).refs == s.repo.refs;
    }
  }

  lemma StepToward(c: Config, s: State, pick: Pick, goal: Result)
    requires Toward(c, s, goal) && Enabled(c, s, Step(pick)) && Undisturbed(Step(pick)) && !s.stage.value.Settling?
    ensures Toward(c, Apply(c, s, Step(pick)), goal)
  {
    StepAccurate(c, s, pick);
    assert Accurate(c, s.repo, s.published, s.stage.value);
  }

  lemma TowardKept(c: Config, s: State, a: Action, goal: Result)
    requires Toward(c, s, goal) && Enabled(c, s, a) && Undisturbed(a)
    ensures Toward(c, Apply(c, s, a), goal)
  {
    if a.Step? {
      if s.stage.value.Settling? { SettlingToward(c, s, a.pick, goal); } else { StepToward(c, s, a.pick, goal); }
    }
  }

  ghost predicate UndisturbedRun(c: Config, states: seq<State>, actions: seq<Action>) {
    Run(c, states, actions) && forall k :: 0 <= k < |actions| ==> Undisturbed(actions[k])
  }

  lemma {:induction false} TowardThroughout(c: Config, states: seq<State>, actions: seq<Action>, k: nat)
    requires UndisturbedRun(c, states, actions) && k < |states| && !Fragile(c, states[0].repo)
    ensures Toward(c, states[k], Outcome(c, states[0].repo))
  {
    if k > 0 {
      TowardThroughout(c, states, actions, k - 1);
      TowardKept(c, states[k - 1], actions[k - 1], Outcome(c, states[0].repo));
    }
  }

  /** Any number of attempts, crashed anywhere and with their reads in any order, end with what one
      uninterrupted delivery does: the same repository and the same observation. */
  predicate EndsAsOneDelivery(c: Config, r: Repo, s: State) {
    s.recorded.Some? ==> Result(s.repo, s.recorded.value) == Outcome(c, r)
  }

  lemma CrashesChangeNothing(c: Config, states: seq<State>, actions: seq<Action>, k: nat)
    requires UndisturbedRun(c, states, actions) && k < |states| && !Fragile(c, states[0].repo)
    ensures EndsAsOneDelivery(c, states[0].repo, states[k])
  {
    TowardThroughout(c, states, actions, k);
  }

  // ---------------------------------------------------------------------------
  // A retry always finishes
  // ---------------------------------------------------------------------------

  function Left<T>(read: Option<T>): nat {
    if read.None? then 1 else 0
  }

  /** The steps an attempt can still take. */
  function Rank(stage: Option<Stage>): nat {
    if stage.None? then 0 else
    match stage.value
    case Recording(_) => 1
    case Writing(_) => 2
    case Settling(Attesting(_)) => 3
    case Settling(Confirming) => 4
    case Settling(Resetting) => 5
    case Settling(ReadingDiff) => 6
    case Settling(ReadingStatus) => 7
    case Swapping => 8
    case Publishing(branch, seen, clean) => 9 + Left(branch) + Left(seen) + Left(clean)
    case Inspecting(branch, seen) => 13 + Left(branch) + Left(seen)
    case Revalidating => 16
    case Recovering(branch, seen) => 17 + Left(branch) + Left(seen)
    case Preparing => 20
    case Entering => 21
  }

  lemma StepsRunOut(c: Config, s: State, pick: Pick)
    requires Enabled(c, s, Step(pick))
    ensures Rank(Apply(c, s, Step(pick)).stage) < Rank(s.stage)
    ensures Undisturbed(Step(pick)) && Apply(c, s, Step(pick)).stage.None? ==> Apply(c, s, Step(pick)).recorded.Some?
  {
  }

  function SomePick(stage: Stage): (pick: Pick)
    ensures Offers(stage, pick) && Undisturbed(Step(pick))
  {
    match stage
    case Recovering(branch, seen) => if branch.None? then ReadBranch else if seen.None? then ReadHead else Proceed
    case Inspecting(branch, seen) => if branch.None? then ReadBranch else if seen.None? then ReadHead else ReadStatus
    case Publishing(branch, seen, clean) =>
      if branch.None? then ReadBranch else if seen.None? then ReadHead else if clean.None? then ReadStatus else Proceed
    case _ => Proceed
  }

  /** The attempt under way runs to its end by itself. */
  function Finished(c: Config, s: State): (s': State)
    ensures s'.stage.None?
    decreases Rank(s.stage)
  {
    if s.stage.None? then s
    else
      var a := Step(SomePick(s.stage.value));
      StepsRunOut(c, s, a.pick);
      Finished(c, Apply(c, s, a))
  }

  lemma {:induction false} FinishedToward(c: Config, s: State, goal: Result)
    requires Toward(c, s, goal)
    ensures Toward(c, Finished(c, s), goal) && (s.stage.Some? ==> Finished(c, s).recorded.Some?)
    decreases Rank(s.stage)
  {
    if s.stage.Some? {
      var a := Step(SomePick(s.stage.value));
      StepsRunOut(c, s, a.pick);
      TowardKept(c, s, a, goal);
      FinishedToward(c, Apply(c, s, a), goal);
    }
  }

  /** From wherever the last crash left it, the next attempt records what the first would have. */
  lemma RetryEndsAsOneDelivery(c: Config, states: seq<State>, actions: seq<Action>)
    requires UndisturbedRun(c, states, actions) && !Fragile(c, states[0].repo)
    requires states[|actions|].stage.None?
    ensures
      var after := Finished(c, Apply(c, states[|actions|], Begin));
      after.recorded.Some? && Result(after.repo, after.recorded.value) == Outcome(c, states[0].repo)
  {
    var goal := Outcome(c, states[0].repo);
    TowardThroughout(c, states, actions, |actions|);
    TowardKept(c, states[|actions|], Begin, goal);
    FinishedToward(c, Apply(c, states[|actions|], Begin), goal);
  }

  // ---------------------------------------------------------------------------
  // A ref is updated only after the reads that justify it
  // ---------------------------------------------------------------------------

  datatype Fact = BranchIs(branch: Branch) | HeadIs(head: Option<Commit>) | StatusIsClean

  /** The pre-flight inspection, publish up to its ref update, and the check of the head after it. */
  datatype Place = Inspection | Publication | Confirmation

  predicate IsAt(place: Place, stage: Stage) {
    match place
    case Inspection => stage.Inspecting?
    case Publication => stage.Publishing?
    case Confirmation => stage == Settling(Confirming)
  }

  predicate Holds(c: Config, r: Repo, f: Fact) {
    match f
    case BranchIs(b) => r.head == b
    case HeadIs(h) => HeadOf(r) == h
    case StatusIsClean => Clean(c, r)
  }

  /** Step `j` reads at this place, and the fact holds. */
  predicate Reads(c: Config, states: seq<State>, actions: seq<Action>, j: nat, place: Place, f: Fact) {
    && j < |actions| && j < |states| && actions[j].Step? && states[j].stage.Some? && IsAt(place, states[j].stage.value)
    && (place.Confirmation? || (match f
                                case BranchIs(_) => actions[j].pick.ReadBranch?
                                case HeadIs(_) => actions[j].pick.ReadHead?
                                case StatusIsClean => actions[j].pick.ReadStatus?))
    && Holds(c, states[j].repo, f)
  }

  /** The attempt under way before step `k` has read the fact. */
  ghost predicate HasRead(c: Config, states: seq<State>, actions: seq<Action>, k: nat, place: Place, f: Fact) {
    exists j: nat :: j < k <= |actions| && Reads(c, states, actions, j, place, f) && forall i :: j <= i < k ==> !actions[i].Begin?
  }

  /** Branch, head and status were those of an approved target. */
  ghost predicate SawTarget(c: Config, states: seq<State>, actions: seq<Action>, k: nat, place: Place) {
    && HasRead(c, states, actions, k, place, BranchIs(c.request.branch))
    && HasRead(c, states, actions, k, place, HeadIs(Some(c.request.targetHead)))
    && HasRead(c, states, actions, k, place, StatusIsClean)
  }

  /** What an attempt remembers it has read. */
  ghost predicate ReadsRemembered(c: Config, states: seq<State>, actions: seq<Action>, k: nat)
    requires k < |states|
  {
    states[k].stage.Some? ==>
      match states[k].stage.value
      case Inspecting(branch, seen) =>
        && (branch.Some? ==> HasRead(c, states, actions, k, Inspection, BranchIs(branch.value)))
        && (seen.Some? ==> HasRead(c, states, actions, k, Inspection, HeadIs(seen.value)))
      case Publishing(branch, seen, clean) =>
        && SawTarget(c, states, actions, k, Inspection)
        && (branch.Some? ==> HasRead(c, states, actions, k, Publication, BranchIs(branch.value)))
        && (seen.Some? ==> HasRead(c, states, actions, k, Publication, HeadIs(seen.value)))
        && (clean == Some(true) ==> HasRead(c, states, actions, k, Publication, StatusIsClean))
      case Swapping => SawTarget(c, states, actions, k, Inspection) && SawTarget(c, states, actions, k, Publication)
      case Settling(Attesting(_)) =>
        states[k].published ==> HasRead(c, states, actions, k, Confirmation, HeadIs(Some(c.request.finalSha)))
      case _ => true
  }

  lemma StillRead(c: Config, states: seq<State>, actions: seq<Action>, k: nat, place: Place, f: Fact)
    requires k < |actions| && !actions[k].Begin?
    requires HasRead(c, states, actions, k, place, f) || Reads(c, states, actions, k, place, f)
    ensures HasRead(c, states, actions, k + 1, place, f)
  {
    hide Reads;
    if HasRead(c, states, actions, k, place, f) {
      var j: nat :| j < k <= |actions| && Reads(c, states, actions, j, place, f) && forall i :: j <= i < k ==> !actions[i].Begin?;
    }
  }

  /** What a step has just read. */
  lemma ReadsNow(c: Config, states: seq<State>, actions: seq<Action>, k: nat)
    requires Run(c, states, actions) && k < |actions| && states[k].stage.Some? && actions[k].Step?
    ensures
      var r, pick, inspects := states[k].repo, actions[k].pick, states[k].stage.value.Inspecting?;
      inspects || states[k].stage.value.Publishing? ==>
        var place := if inspects then Inspection else Publication;
        && (pick.ReadBranch? ==> Reads(c, states, actions, k, place, BranchIs(r.head)))
        && (pick.ReadHead? ==> Reads(c, states, actions, k, place, HeadIs(HeadOf(r))))
        && (pick.ReadStatus? && Clean(c, r) ==> Reads(c, states, actions, k, place, StatusIsClean))
    ensures states[k].stage == Some(Settling(Confirming)) ==> Reads(c, states, actions, k, Confirmation, HeadIs(HeadOf(states[k].repo)))
  {
  }

  /** What has been read stays read. */
  ghost predicate ReadsStay(c: Config, states: seq<State>, actions: seq<Action>, k: nat) {
    forall place, f :: HasRead(c, states, actions, k, place, f) || Reads(c, states, actions, k, place, f)
      ==> HasRead(c, states, actions, k + 1, place, f)
  }

  lemma AllStillRead(c: Config, states: seq<State>, actions: seq<Action>, k: nat)
    requires k < |actions| && !actions[k].Begin?
    ensures ReadsStay(c, states, actions, k)
  {
    hide HasRead, Reads;
    forall place, f | HasRead(c, states, actions, k, place, f) || Reads(c, states, actions, k, place, f)
      ensures HasRead(c, states, actions, k + 1, place, f)
    {
      StillRead(c, states, actions, k, place, f);
    }
  }

  lemma RememberedAfterInspection(c: Config, states: seq<State>, actions: seq<Action>, k: nat)
    requires Run(c, states, actions) && k < |actions| && ReadsRemembered(c, states, actions, k) && ReadsStay(c, states, actions, k)
    requires actions[k].Step? && states[k].stage.Some? && states[k].stage.value.Inspecting?
    ensures ReadsRemembered(c, states, actions, k + 1)
  {
    hide HasRead, Reads, Clean;
    ReadsNow(c, states, actions, k);
    assert Enabled(c, states[k], actions[k]) && states[k + 1] == Apply(c, states[k], actions[k]);
  }

  lemma RememberedAfterPublication(c: Config, states: seq<State>, actions: seq<Action>, k: nat)
    requires Run(c, states, actions) && k < |actions| && ReadsRemembered(c, states, actions, k) && ReadsStay(c, states, actions, k)
    requires actions[k].Step? && states[k].stage.Some? && states[k].stage.value.Publishing?
    ensures ReadsRemembered(c, states, actions, k + 1)
  {
    hide HasRead, Reads, Clean, AfterEntry, AfterRecovery, AfterInspection, AfterSwap, AfterSettling, AfterFault;
    ReadsNow(c, states, actions, k);
    assert Enabled(c, states[k], actions[k]) && states[k + 1] == Apply(c, states[k], actions[k]);
  }

  lemma RememberedOtherwise(c: Config, states: seq<State>, actions: seq<Action>, k: nat)
    requires Run(c, states, actions) && k < |actions| && ReadsRemembered(c, states, actions, k)
    requires actions[k].Begin? || ReadsStay(c, states, actions, k)
    requires actions[k].Step? && states[k].stage.Some? ==> !states[k].stage.value.Inspecting? && !states[k].stage.value.Publishing?
    ensures ReadsRemembered(c, states, actions, k + 1)
  {
    hide HasRead, Reads, Clean;
    if actions[k].Step? && states[k].stage.Some? { ReadsNow(c, states, actions, k); }
    assert Enabled(c, states[k], actions[k]) && states[k + 1] == Apply(c, states[k], actions[k]);
  }

  lemma ReadsRememberedNext(c: Config, states: seq<State>, actions: seq<Action>, k: nat)
    requires Run(c, states, actions) && k < |actions| && ReadsRemembered(c, states, actions, k)
    ensures ReadsRemembered(c, states, actions, k + 1)
  {
    assert |states| == |actions| + 1;
    hide Run, ReadsRemembered, ReadsStay;
    if !actions[k].Begin? { AllStillRead(c, states, actions, k); }
    if actions[k].Step? && states[k].stage.Some? && states[k].stage.value.Inspecting? {
      RememberedAfterInspection(c, states, actions, k);
    } else if actions[k].Step? && states[k].stage.Some? && states[k].stage.value.Publishing? {
      RememberedAfterPublication(c, states, actions, k);
    } else {
      RememberedOtherwise(c, states, actions, k);
    }
  }

  lemma {:induction false} ReadsRememberedThroughout(c: Config, states: seq<State>, actions: seq<Action>, k: nat)
    requires Run(c, states, actions) && k < |states|
    ensures ReadsRemembered(c, states, actions, k)
  {
    hide ReadsRemembered;
    if k > 0 {
      ReadsRememberedThroughout(c, states, actions, k - 1);
      ReadsRememberedNext(c, states, actions, k - 1);
    } else {
      NothingRemembered(c, states, actions);
    }
  }

  lemma NothingRemembered(c: Config, states: seq<State>, actions: seq<Action>)
    requires Run(c, states, actions)
    ensures ReadsRemembered(c, states, actions, 0)
  {
  }

  /** Whatever others do: before an attempt updates the ref, its inspection and again its publication have
      read the target branch, the approved head and a clean status. */
  lemma SwapIsJustified(c: Config, states: seq<State>, actions: seq<Action>, k: nat)
    requires Run(c, states, actions) && k < |actions| && states[k].stage == Some(Swapping)
    ensures SawTarget(c, states, actions, k, Inspection) && SawTarget(c, states, actions, k, Publication)
  {
    ReadsRememberedThroughout(c, states, actions, k);
  }

  /** And before it gives a receipt for its own update it has read the final commit at HEAD. */
  lemma ReceiptIsConfirmed(c: Config, states: seq<State>, actions: seq<Action>, k: nat)
    requires Run(c, states, actions) && k < |actions| && GivesReceipt(states[k], actions[k]) && states[k].published
    ensures HasRead(c, states, actions, k, Confirmation, HeadIs(Some(c.request.finalSha)))
  {
    ReadsRememberedThroughout(c, states, actions, k);
  }

  /** Refs change only there: any other step of the code that changes one resets a checkout to the final commit. */
  lemma OnlySwapsAndResetsMoveRefs(c: Config, s: State, a: Action)
    requires Enabled(c, s, a) && OfTheCode(a) && Apply(c, s, a).repo != s.repo
    ensures a.Step? && (s.stage == Some(Swapping) || s.stage == Some(Settling(Resetting)))
  {
  }

  // ---------------------------------------------------------------------------
  // Declined attempts deliver nothing
  // ---------------------------------------------------------------------------

  /** The intent has been invalidated, or the validation of the approval throws. */
  predicate Declines(a: Action) {
    a.Step? && (a.pick.Invalidated? || a.pick.Refused?)
  }

  /** What only the code changes, and what the step of the code leaves as it is. */
  predicate Untouched(s: State, a: Action, s': State) {
    && s'.stored == s.stored && !GivesReceipt(s, a)
    && (OfTheCode(a) ==> s'.repo == s.repo)
  }

  /** Nothing happens before the inspection, and a decision to decline comes before it. */
  lemma EarlyStep(c: Config, s: State, a: Action)
    requires Enabled(c, s, a) && (Rank(s.stage) >= Rank(Some(Revalidating)) || s.stage.None?)
    ensures Untouched(s, a, Apply(c, s, a)) && Apply(c, s, a).recorded == s.recorded
  {
  }

  lemma {:induction false} RankFalls(c: Config, states: seq<State>, actions: seq<Action>, j: nat, k: nat)
    requires Run(c, states, actions) && j <= k < |states| && forall i :: j <= i < k ==> !actions[i].Begin?
    ensures Rank(states[k].stage) <= Rank(states[j].stage)
  {
    hide Rank, Apply, Enabled;
    if j < k {
      RankFalls(c, states, actions, j, k - 1);
      RankStep(c, states[k - 1], actions[k - 1]);
    }
  }

  lemma RankStep(c: Config, s: State, a: Action)
    requires Enabled(c, s, a) && !a.Begin?
    ensures Rank(Apply(c, s, a).stage) <= Rank(s.stage)
  {
    if a.Step? { StepsRunOut(c, s, a.pick); }
  }

  lemma EarlyRanks(c: Config, s: State, a: Action, t: State, b: Action)
    requires Enabled(c, s, a) && Declines(a) && Enabled(c, t, b) && b.Begin?
    ensures Rank(s.stage) >= Rank(Some(Revalidating)) && t.stage.None?
  {
  }

  /** What is left of an attempt that has declined. */
  predicate Declined(pick: Pick, s: State) {
    s.stage.None? || (pick.Refused? && s.stage == Some(Recording(Failed(Rejected))))
  }

  lemma DeclinedStep(c: Config, pick: Pick, s: State, a: Action)
    requires Enabled(c, s, a) && Declined(pick, s) && !a.Begin?
    ensures Untouched(s, a, Apply(c, s, a)) && Declined(pick, Apply(c, s, a))
    ensures
      var recorded := Apply(c, s, a).recorded;
      recorded == s.recorded || (a.Step? && pick.Refused? && recorded == Some(Failed(Rejected)))
    ensures s.stage.Some? && Apply(c, s, a).stage.None? && !a.Crash? && !a.Fault? ==> Apply(c, s, a).recorded == Some(Failed(Rejected))
  {
  }

  lemma DecisionStep(c: Config, s: State, a: Action)
    requires Enabled(c, s, a) && Declines(a)
    ensures Untouched(s, a, Apply(c, s, a)) && Apply(c, s, a).recorded == s.recorded
    ensures Declined(a.pick, Apply(c, s, a)) && (a.pick.Refused? ==> Apply(c, s, a).stage.Some?)
  {
  }

  lemma {:induction false} DeclinedThroughout(c: Config, states: seq<State>, actions: seq<Action>, k: nat, m: nat)
    requires Run(c, states, actions) && k < m < |states| && Declines(actions[k])
    requires forall j :: k < j < m ==> !actions[j].Begin?
    ensures Declined(actions[k].pick, states[m])
    ensures forall j :: k <= j < m ==> Untouched(states[j], actions[j], states[j + 1])
    ensures states[m].stored == states[k].stored
    ensures states[m].recorded == states[k].recorded || (actions[k].pick.Refused? && states[m].recorded == Some(Failed(Rejected)))
    ensures actions[k].pick.Refused? && states[m].stage.None? && (forall j :: k < j < m ==> !actions[j].Crash? && !actions[j].Fault?)
            ==> states[m].recorded == Some(Failed(Rejected))
  {
    hide Apply, Enabled, Untouched;
    if k + 1 == m {
      DecisionStep(c, states[k], actions[k]);
    } else {
      DeclinedThroughout(c, states, actions, k, m - 1);
      DeclinedStep(c, actions[k].pick, states[m - 1], actions[m - 1]);
    }
  }

  lemma {:induction false} EarlyThroughout(c: Config, states: seq<State>, actions: seq<Action>, b: nat, k: nat, m: nat)
    requires Run(c, states, actions) && b < m <= k < |actions| && actions[b].Begin? && Declines(actions[k])
    requires forall j :: b < j < k ==> !actions[j].Begin?
    ensures forall j :: b <= j < m ==> Untouched(states[j], actions[j], states[j + 1])
    ensures states[m].stored == states[b].stored && states[m].recorded == states[b].recorded
  {
    hide Apply, Enabled, Untouched, Rank;
    if m > b + 1 {
      EarlyThroughout(c, states, actions, b, k, m - 1);
      RankFalls(c, states, actions, m - 1, k);
    }
    EarlyRanks(c, states[k], actions[k], states[b], actions[b]);
    EarlyStep(c, states[m - 1], actions[m - 1]);
  }

  /** From its beginning on, an attempt whose intent is invalidated or whose validation refuses changes no
      ref and no file and gives no receipt; invalidated, it also records nothing; refused, it records the
      rejection unless it crashes or its record throws. */
  lemma DeclinedAttempt(c: Config, states: seq<State>, actions: seq<Action>, b: nat, k: nat, m: nat)
    requires Run(c, states, actions) && b < k < m <= |actions| && actions[b].Begin? && Declines(actions[k])
    requires forall j :: b < j < m ==> !actions[j].Begin?
    ensures forall j :: b <= j < m ==> Untouched(states[j], actions[j], states[j + 1])
    ensures states[m].stored == states[b].stored
    ensures actions[k].pick.Invalidated? ==> states[m].stage.None? && states[m].recorded == states[b].recorded
    ensures actions[k].pick.Refused? ==> states[m].recorded == states[b].recorded || states[m].recorded == Some(Failed(Rejected))
    ensures actions[k].pick.Refused? && states[m].stage.None? && (forall j :: k < j < m ==> !actions[j].Crash? && !actions[j].Fault?)
            ==> states[m].recorded == Some(Failed(Rejected))
  {
    EarlyThroughout(c, states, actions, b, k, k);
    DeclinedThroughout(c, states, actions, k, m);
  }

  /** An attempt that finds a terminal observation, or one that finds a stored receipt, does not touch the
      repository either; the latter records that receipt. */
  lemma RepeatedAttempt(c: Config, s: State)
    requires s.stage == Some(Entering) && (s.recorded.Some? || s.stored.Some?)
    ensures
      var after := Finished(c, s);
      && after.repo == s.repo && after.stored == s.stored
      && after.recorded == if s.recorded.Some? then s.recorded else Some(Succeeded(s.stored.value))
  {
    var t := Apply(c, s, Step(Proceed));
    StepsRunOut(c, s, Proceed);
    assert Finished(c, s) == Finished(c, t);
    if t.stage.Some? {
      StepsRunOut(c, t, Proceed);
      assert Finished(c, t) == Finished(c, Apply(c, t, Step(Proceed)));
    }
  }

  // ---------------------------------------------------------------------------
  // Exactly when crashes change nothing
  // ---------------------------------------------------------------------------

  ghost predicate UndisturbedFrom(c: Config, r: Repo, s: State) {
    exists states: seq<State>, actions: seq<Action> :: UndisturbedRun(c, states, actions) && states[0].repo == r && states[|actions|] == s
  }

  lemma Continue(c: Config, r: Repo, s: State, a: Action, s': State)
    requires UndisturbedFrom(c, r, s) && Enabled(c, s, a) && Undisturbed(a) && Apply(c, s, a) == s'
    ensures UndisturbedFrom(c, r, s')
  {
    var states: seq<State>, actions: seq<Action> :| UndisturbedRun(c, states, actions) && states[0].repo == r && states[|actions|] == s;
    assert UndisturbedRun(c, states + [s'], actions + [a]);
    assert (states + [s'])[|actions + [a]|] == s';
  }

  /** The next attempt starts, and its recovery finds the branch at the final commit. */
  lemma RecoveryFindsFinal(c: Config, r: Repo, s: State) returns (s': State)
    requires UndisturbedFrom(c, r, s) && Start(s) && Delivered(c, s.repo)
    ensures UndisturbedFrom(c, r, s')
    ensures s' == State(s.repo, Some(Settling(ReadingStatus)), false, None, None)
  {
    s' := At(s, Entering).(published := false);
    Continue(c, r, s, Begin, s');
    Continue(c, r, s', Step(Proceed), At(s', Preparing));
    Continue(c, r, At(s', Preparing), Step(Proceed), At(s', Recovering(None, None)));
    Continue(c, r, At(s', Recovering(None, None)), Step(ReadBranch), At(s', Recovering(Some(s.repo.head), None)));
    var seen := Some(HeadOf(s.repo));
    Continue(c, r, At(s', Recovering(Some(s.repo.head), None)), Step(ReadHead), At(s', Recovering(Some(s.repo.head), seen)));
    Continue(c, r, At(s', Recovering(Some(s.repo.head), seen)), Step(Proceed), At(s', Settling(ReadingStatus)));
    s' := At(s', Settling(ReadingStatus));
  }

  /** The first recovery resets and crashes before its receipt is stored. */
  lemma ResetThenCrash(c: Config, r: Repo) returns (s: State)
    requires Fragile(c, r)
    ensures UndisturbedFrom(c, r, s)
    ensures s == State(Reset(c, r, c.request.finalSha), None, false, None, None)
  {
    s := State(r, None, false, None, None);
    assert UndisturbedRun(c, [s], []);
    s := RecoveryFindsFinal(c, r, s);
    Continue(c, r, s, Step(Proceed), At(s, Settling(ReadingDiff)));
    Continue(c, r, At(s, Settling(ReadingDiff)), Step(Proceed), At(s, Settling(Resetting)));
    var t := At(s, Settling(Attesting(c.request.finalSha))).(repo := Reset(c, r, c.request.finalSha));
    Continue(c, r, At(s, Settling(Resetting)), Step(Proceed), t);
    Continue(c, r, t, Crash, Leave(t));
    s := Leave(t);
  }

  /** The next recovery finds neither a clean status nor the approved tree. */
  lemma SecondRecoveryFails(c: Config, r: Repo) returns (s: State)
    requires Fragile(c, r)
    ensures UndisturbedFrom(c, r, s) && !EndsAsOneDelivery(c, r, s)
  {
    s := ResetThenCrash(c, r);
    s := RecoveryFindsFinal(c, r, s);
    Continue(c, r, s, Step(Proceed), At(s, Settling(ReadingDiff)));
    Continue(c, r, At(s, Settling(ReadingDiff)), Step(Proceed), Fail(s, Unrecoverable));
    var t := Leave(s).(recorded := Some(Failed(Unrecoverable)));
    Continue(c, r, Fail(s, Unrecoverable), Step(Proceed), t);
    s := t;
  }

  /** Crashes change nothing exactly for repositories where recovery does not have to reset a
      checkout that also holds an untracked file. */
  lemma CrashProofExactly(c: Config, r: Repo)
    ensures !Fragile(c, r) <==> forall s :: UndisturbedFrom(c, r, s) ==> EndsAsOneDelivery(c, r, s)
  {
    if Fragile(c, r) {
      var s := SecondRecoveryFails(c, r);
    } else {
      forall s | UndisturbedFrom(c, r, s) ensures EndsAsOneDelivery(c, r, s) {
        var states: seq<State>, actions: seq<Action> :| UndisturbedRun(c, states, actions) && states[0].repo == r && states[|actions|] == s;
        CrashesChangeNothing(c, states, actions, |actions|);
      }
    }
  }

  // ---------------------------------------------------------------------------
  // From which repositories an undisturbed delivery misses
  // ---------------------------------------------------------------------------

  /** Status shows nothing that the final commit would change, yet the checkout is not the final tree. */
  predicate MissesTree(c: Config, r: Repo) {
    (Delivered(c, r) || Deliverable(c, r)) && !r.untracked && LooksLike(c, r, c.request.finalSha) && !HoldsFinalTree(c, r)
  }

  /** Status is clean at the approved head, the delivery changes what it shows, and the checkout is not
      the approved tree. */
  predicate FailsPublished(c: Config, r: Repo) {
    Deliverable(c, r) && !LooksLike(c, r, c.request.finalSha) && !AtApprovedTree(c, r)
  }

  predicate ReceiptWithoutTree(c: Config, s: State) {
    s.recorded.Some? && s.recorded.value.Succeeded? && !HoldsFinalTree(c, s.repo)
  }

  predicate FailureWithMovedRef(r: Repo, s: State) {
    s.recorded.Some? && s.recorded.value.Failed? && s.repo.refs != r.refs
  }

  predicate WithReceipt(stage: Stage) {
    stage.Writing? || (stage.Recording? && stage.outcome.Succeeded?) || (stage.Settling? && stage.settle.Attesting?)
  }

  /** With an untracked file only a reset leads to a receipt, and no ref moves. */
  predicate ReceiptByReset(c: Config, r: Repo, s: State) {
    && AccurateState(c, s) && s.repo.untracked && s.repo.refs == r.refs && Delivered(c, s.repo)
    && ((s.stage.Some? && WithReceipt(s.stage.value)) || s.stored.Some? ==> HoldsFinalTree(c, s.repo))
    && !ReceiptWithoutTree(c, s)
  }

  lemma ReceiptByResetKept(c: Config, r: Repo, s: State, a: Action)
    requires ReceiptByReset(c, r, s) && Enabled(c, s, a) && Undisturbed(a)
    ensures ReceiptByReset(c, r, Apply(c, s, a))
  {
    if a.Step? {
      assert Accurate(c, s.repo, s.published, s.stage.value);
      if s.stage.value.Settling? { SettlingAccurate(c, s, a.pick); } else { StepAccurate(c, s, a.pick); }
      assert Reset(c, s.repo, c.request.finalSha).refs == s.repo.refs;
    }
  }

  lemma {:induction false} ReceiptByResetThroughout(c: Config, states: seq<State>, actions: seq<Action>, k: nat)
    requires UndisturbedRun(c, states, actions) && k < |states| && Fragile(c, states[0].repo)
    ensures ReceiptByReset(c, states[0].repo, states[k])
  {
    if k > 0 {
      ReceiptByResetThroughout(c, states, actions, k - 1);
      ReceiptByResetKept(c, states[0].repo, states[k - 1], actions[k - 1]);
    }
  }

  lemma {:induction false} FinishedReached(c: Config, r: Repo, s: State)
    requires UndisturbedFrom(c, r, s)
    ensures UndisturbedFrom(c, r, Finished(c, s))
    decreases Rank(s.stage)
  {
    if s.stage.Some? {
      var a := Step(SomePick(s.stage.value));
      StepsRunOut(c, s, a.pick);
      Continue(c, r, s, a, Apply(c, s, a));
      FinishedReached(c, r, Apply(c, s, a));
    }
  }

  /** One delivery of a repository without further ado. */
  lemma OneDelivery(c: Config, r: Repo) returns (s: State)
    requires !Fragile(c, r)
    ensures UndisturbedFrom(c, r, s) && s.recorded.Some? && Result(s.repo, s.recorded.value) == Outcome(c, r)
  {
    var start := State(r, None, false, None, None);
    assert UndisturbedRun(c, [start], []);
    Continue(c, r, start, Begin, Apply(c, start, Begin));
    FinishedReached(c, r, Apply(c, start, Begin));
    RetryEndsAsOneDelivery(c, [start], []);
    s := Finished(c, Apply(c, start, Begin));
  }

  /** Attempts and crashes alone, from any repository: a receipt misses the final tree, or a failure
      follows a moved ref, exactly when the checkout was in one of the two states at the start. */
  lemma UndisturbedMissesExactly(c: Config, r: Repo)
    ensures MissesTree(c, r) <==> exists s :: UndisturbedFrom(c, r, s) && ReceiptWithoutTree(c, s)
    ensures FailsPublished(c, r) <==> exists s :: UndisturbedFrom(c, r, s) && FailureWithMovedRef(r, s)
  {
    if !Fragile(c, r) {
      var s := OneDelivery(c, r);
    }
    forall s | UndisturbedFrom(c, r, s)
      ensures ReceiptWithoutTree(c, s) ==> MissesTree(c, r)
      ensures FailureWithMovedRef(r, s) ==> FailsPublished(c, r)
    {
      var states: seq<State>, actions: seq<Action> :| UndisturbedRun(c, states, actions) && states[0].repo == r && states[|actions|] == s;
      if Fragile(c, r) {
        ReceiptByResetThroughout(c, states, actions, |actions|);
      } else {
        CrashesChangeNothing(c, states, actions, |actions|);
      }
    }
  }

  // ---------------------------------------------------------------------------
  // Exactly when the code only makes the approved moves
  // ---------------------------------------------------------------------------

  lemma Reach(c: Config, s: State, a: Action, s': State)
    requires Reachable(c, s) && Enabled(c, s, a) && Apply(c, s, a) == s'
    ensures Reachable(c, s')
  {
    var states: seq<State>, actions: seq<Action> :| Run(c, states, actions) && DriftAllowed(c, states[0].repo) && states[|actions|] == s;
    assert Run(c, states + [s'], actions + [a]);
    assert (states + [s'])[|actions + [a]|] == s';
  }

  /** An attempt begins and reads the branch and the head for its recovery. */
  lemma ReadsForRecovery(c: Config, s: State) returns (s': State)
    requires Reachable(c, s) && Start(s)
    ensures Reachable(c, s')
    ensures s' == State(s.repo, Some(Recovering(Some(s.repo.head), Some(HeadOf(s.repo)))), false, None, None)
  {
    s' := At(s, Entering).(published := false);
    Reach(c, s, Begin, s');
    Reach(c, s', Step(Proceed), At(s', Preparing));
    Reach(c, At(s', Preparing), Step(Proceed), At(s', Recovering(None, None)));
    Reach(c, At(s', Recovering(None, None)), Step(ReadBranch), At(s', Recovering(Some(s.repo.head), None)));
    var seen := Some(HeadOf(s.repo));
    Reach(c, At(s', Recovering(Some(s.repo.head), None)), Step(ReadHead), At(s', Recovering(Some(s.repo.head), seen)));
    s' := At(s', Recovering(Some(s.repo.head), seen));
  }

  lemma InitialState(c: Config, r: Repo) returns (s: State)
    requires DriftAllowed(c, r)
    ensures Reachable(c, s) && s == State(r, None, false, None, None)
  {
    s := State(r, None, false, None, None);
    assert Run(c, [s], []);
  }

  /** Recovery sees the final commit in a checkout with an untracked file. */
  lemma RecoverySeesFinal(c: Config) returns (s: State)
    ensures Reachable(c, s) && s.stage == Some(Settling(ReadingStatus)) && !s.published
    ensures s.repo == Repo(map[c.request.branch := c.request.finalSha], c.request.branch, c.treeOf(c.request.targetHead), true)
  {
    var b := c.request.branch;
    s := InitialState(c, Repo(map[b := c.request.finalSha], b, c.treeOf(c.request.targetHead), true));
    s := ReadsForRecovery(c, s);
    Reach(c, s, Step(Proceed), At(s, Settling(ReadingStatus)));
    s := At(s, Settling(ReadingStatus));
  }

  /** Another process moves the branch after recovery has seen the final commit: the reset moves it back. */
  lemma ResetMovesAForeignHead(c: Config) returns (s: State)
    requires c.moves.Always?
    ensures Reachable(c, s) && Enabled(c, s, Step(Proceed)) && !Safe(c, s, Step(Proceed))
  {
    var b, final, target := c.request.branch, c.request.finalSha, c.request.targetHead;
    var other := final + target + 1;
    s := RecoverySeesFinal(c);
    var t := s.(repo := WithRef(s.repo, b, other));
    Reach(c, s, Move(b, other), t);
    Reach(c, t, Step(Proceed), At(t, Settling(ReadingDiff)));
    Reach(c, At(t, Settling(ReadingDiff)), Step(Proceed), At(t, Settling(Resetting)));
    s := At(t, Settling(Resetting));
    assert s.repo.refs[b] == other && Apply(c, s, Step(Proceed)).repo.refs[b] == final;
  }

  /** Every step of the code is safe exactly when other processes leave refs alone while it settles. */
  lemma SafeExactly(c: Config)
    ensures !c.moves.Always? <==> forall s, a :: Reachable(c, s) && Enabled(c, s, a) ==> Safe(c, s, a)
  {
    if c.moves.Always? {
      var s := ResetMovesAForeignHead(c);
    } else {
      forall s, a | Reachable(c, s) && Enabled(c, s, a) ensures Safe(c, s, a) {
        var states: seq<State>, actions: seq<Action> :| Run(c, states, actions) && DriftAllowed(c, states[0].repo) && states[|actions|] == s;
        InvariantThroughout(c, states, actions, |actions|);
        SafeStep(c, s, a);
      }
    }
  }

  // ---------------------------------------------------------------------------
  // Exactly when a receipt means that the checkout holds the final tree
  // ---------------------------------------------------------------------------

  /** The changes of the delivery are not confined to exempt directories. */
  predicate DeltaVisible(c: Config) {
    var target, final := c.treeOf(c.request.targetHead), c.treeOf(c.request.finalSha);
    target.visible == final.visible ==> target == final
  }

  predicate Truthful(c: Config, s: State, a: Action) {
    GivesReceipt(s, a) ==> HoldsFinalTree(c, s.repo)
  }

  lemma {:induction false} DriftThroughout(c: Config, states: seq<State>, actions: seq<Action>, k: nat)
    requires Run(c, states, actions) && k < |states| && DriftAllowed(c, states[0].repo)
    ensures DriftAllowed(c, states[k].repo)
  {
    if k > 0 {
      DriftThroughout(c, states, actions, k - 1);
      DriftKept(c, states[k - 1], actions[k - 1]);
    }
  }

  lemma DriftKept(c: Config, s: State, a: Action)
    requires DriftAllowed(c, s.repo) && Enabled(c, s, a)
    ensures DriftAllowed(c, Apply(c, s, a).repo)
  {
  }

  /** Recovery at the final commit: status does not show what differs. */
  lemma ReceiptDespiteDrift(c: Config) returns (s: State)
    requires c.drift
    ensures Reachable(c, s) && Enabled(c, s, Step(Proceed)) && !Truthful(c, s, Step(Proceed))
  {
    var b, final := c.request.branch, c.request.finalSha;
    var tree := Tree(c.treeOf(final).visible, c.treeOf(final).exempt + c.treeOf(c.request.targetHead).exempt + 1);
    s := InitialState(c, Repo(map[b := final], b, tree, false));
    s := ReadsForRecovery(c, s);
    Reach(c, s, Step(Proceed), At(s, Settling(ReadingStatus)));
    var t := At(s, Settling(Attesting(final)));
    Reach(c, At(s, Settling(ReadingStatus)), Step(Proceed), t);
    s := t;
  }

  /** A delivery of changes under exempt directories, from a checkout without any: status is clean
      after the swap, and nothing resets the checkout. */
  lemma ReceiptWithoutReset(c: Config) returns (s: State)
    requires !DeltaVisible(c)
    ensures Reachable(c, s) && Enabled(c, s, Step(Proceed)) && !Truthful(c, s, Step(Proceed))
  {
    var t := ReachesSwap(c, c.treeOf(c.request.targetHead));
    Reach(c, t, Step(Proceed), At(t, Settling(Confirming)));
    s := At(t, Settling(Attesting(c.request.finalSha)));
    Reach(c, At(t, Settling(Confirming)), Step(Proceed), s);
  }

  /** Receipts are true of the checkout, and every step is safe, exactly when refs are left alone while
      an attempt settles, nobody leaves tracked changes under exempt directories, and the delivery is
      not confined to these. */
  lemma ReceiptsHoldFinalTreeExactly(c: Config)
    ensures !c.moves.Always? && !c.drift && DeltaVisible(c) <==>
            forall s, a :: Reachable(c, s) && Enabled(c, s, a) ==> Safe(c, s, a) && Truthful(c, s, a)
  {
    if c.moves.Always? {
      var s := ResetMovesAForeignHead(c);
    } else if c.drift {
      var s := ReceiptDespiteDrift(c);
    } else if !DeltaVisible(c) {
      var s := ReceiptWithoutReset(c);
    } else {
      forall s, a | Reachable(c, s) && Enabled(c, s, a) ensures Safe(c, s, a) && Truthful(c, s, a) {
        var states: seq<State>, actions: seq<Action> :| Run(c, states, actions) && DriftAllowed(c, states[0].repo) && states[|actions|] == s;
        SafeExactly(c);
        InvariantThroughout(c, states, actions, |actions|);
        DriftThroughout(c, states, actions, |actions|);
        if GivesReceipt(s, a) { assert Grounded(c, s.repo, s.stage.value); }
      }
    }
  }

  // ---------------------------------------------------------------------------
  // Exactly when a failed observation means the attempt published nothing
  // ---------------------------------------------------------------------------

  predicate FailedAfterPublishing(s: State) {
    s.published && s.stage.Some? && s.stage.value.Recording? && s.stage.value.outcome.Failed?
  }

  /** After its own swap the attempt can only find a clean status or the approved tree. */
  predicate Reconcilable(c: Config, s: State) {
    && (s.published && s.stage.Some? && s.stage.value.Settling? ==> AtApprovedTree(c, s.repo) || LooksLike(c, s.repo, c.request.finalSha))
    && !FailedAfterPublishing(s)
  }

  /** Drift cannot hide a checkout that status calls clean before the swap and dirty after it. */
  predicate DriftHarmless(c: Config) {
    c.drift ==> c.treeOf(c.request.targetHead).visible == c.treeOf(c.request.finalSha).visible
  }

  lemma ReconcilableKept(c: Config, s: State, a: Action)
    requires c.moves.NotUnderLease? && !c.faults && DriftHarmless(c)
    requires AccurateState(c, s) && DriftAllowed(c, s.repo) && Reconcilable(c, s) && Enabled(c, s, a)
    ensures Reconcilable(c, Apply(c, s, a))
  {
    if a.Step? { assert Accurate(c, s.repo, s.published, s.stage.value); }
  }

  lemma {:induction false} ReconcilableThroughout(c: Config, states: seq<State>, actions: seq<Action>, k: nat)
    requires c.moves.NotUnderLease? && !c.faults && DriftHarmless(c)
    requires Run(c, states, actions) && DriftAllowed(c, states[0].repo) && k < |states|
    ensures AccurateState(c, states[k]) && Reconcilable(c, states[k])
  {
    if k > 0 {
      ReconcilableThroughout(c, states, actions, k - 1);
      DriftThroughout(c, states, actions, k - 1);
      AccurateKept(c, states[k - 1], actions[k - 1]);
      ReconcilableKept(c, states[k - 1], actions[k - 1]);
    }
  }

  /** The branch stands at the approved head and status is clean: the attempt reaches its swap. */
  lemma ReachesSwap(c: Config, tree: Tree) returns (s: State)
    requires c.request.targetHead != c.request.finalSha && tree.visible == c.treeOf(c.request.targetHead).visible
    requires tree != c.treeOf(c.request.targetHead) ==> c.drift
    ensures Reachable(c, s) && s.published && s.stage == Some(Settling(ReadingStatus))
    ensures s.repo == Repo(map[c.request.branch := c.request.finalSha], c.request.branch, tree, false)
  {
    var b, target := c.request.branch, c.request.targetHead;
    s := InitialState(c, Repo(map[b := target], b, tree, false));
    s := ReadsForRecovery(c, s);
    s := Inspects(c, s);
    Reach(c, s, Step(ReadStatus), At(s, Publishing(None, None, None)));
    s := At(s, Publishing(None, None, None));
    Reach(c, s, Step(ReadStatus), At(s, Publishing(None, None, Some(true))));
    s := Swaps(c, At(s, Publishing(None, None, Some(true))));
  }

  /** No recovery: validation and the first two reads of the inspection. */
  lemma Inspects(c: Config, s: State) returns (s': State)
    requires Reachable(c, s) && s.stage == Some(Recovering(Some(s.repo.head), Some(Some(c.request.targetHead))))
    requires c.request.targetHead != c.request.finalSha
    requires HeadOf(s.repo) == Some(c.request.targetHead)
    ensures Reachable(c, s') && s' == At(s, Inspecting(Some(s.repo.head), Some(Some(c.request.targetHead))))
  {
    Reach(c, s, Step(Proceed), At(s, Revalidating));
    Reach(c, At(s, Revalidating), Step(Proceed), At(s, Inspecting(None, None)));
    Reach(c, At(s, Inspecting(None, None)), Step(ReadBranch), At(s, Inspecting(Some(s.repo.head), None)));
    s' := At(s, Inspecting(Some(s.repo.head), Some(Some(c.request.targetHead))));
    Reach(c, At(s, Inspecting(Some(s.repo.head), None)), Step(ReadHead), s');
  }

  /** The remaining reads of publish, its decision and the ref update. */
  lemma Swaps(c: Config, s: State) returns (s': State)
    requires Reachable(c, s) && s.stage == Some(Publishing(None, None, Some(true)))
    requires s.repo.head == c.request.branch && s.repo.refs == map[c.request.branch := c.request.targetHead]
    ensures Reachable(c, s') && s'.published && s'.stage == Some(Settling(ReadingStatus))
    ensures s'.repo == s.repo.(refs := map[c.request.branch := c.request.finalSha])
  {
    var b, target := c.request.branch, c.request.targetHead;
    Reach(c, s, Step(ReadBranch), At(s, Publishing(Some(b), None, Some(true))));
    Reach(c, At(s, Publishing(Some(b), None, Some(true))), Step(ReadHead), At(s, Publishing(Some(b), Some(Some(target)), Some(true))));
    Reach(c, At(s, Publishing(Some(b), Some(Some(target)), Some(true))), Step(Proceed), At(s, Swapping));
    s' := Apply(c, At(s, Swapping), Step(Proceed));
    Reach(c, At(s, Swapping), Step(Proceed), s');
  }

  /** A git operation after the swap throws. */
  lemma FaultAfterSwap(c: Config) returns (s: State)
    requires c.faults && c.request.targetHead != c.request.finalSha
    ensures Reachable(c, s) && FailedAfterPublishing(s)
  {
    var t := ReachesSwap(c, c.treeOf(c.request.targetHead));
    s := Fail(t, Interrupted);
    Reach(c, t, Fault, s);
  }

  /** The commit differs from the approved and the final one outside the exempt directories. */
  predicate LooksLikeNeither(c: Config, x: Commit) {
    && c.treeOf(x).visible != c.treeOf(c.request.targetHead).visible
    && c.treeOf(x).visible != c.treeOf(c.request.finalSha).visible
  }

  /** Another process moves the branch away and back between the reads of publish, so that status
      judges the checkout against another commit. */
  lemma StatusOfAnotherCommit(c: Config, x: Commit) returns (s: State)
    requires !c.moves.NotUnderLease? && c.request.targetHead != c.request.finalSha && LooksLikeNeither(c, x)
    ensures Reachable(c, s) && s.stage == Some(Publishing(None, None, Some(true)))
    ensures s.repo == Repo(map[c.request.branch := c.request.targetHead], c.request.branch, c.treeOf(x), false)
  {
    var b, target := c.request.branch, c.request.targetHead;
    s := InitialState(c, Repo(map[b := target], b, c.treeOf(x), false));
    s := ReadsForRecovery(c, s);
    s := Inspects(c, s);
    var t := s.(repo := s.repo.(refs := map[b := x]));
    Reach(c, s, Move(b, x), t);
    Reach(c, t, Step(ReadStatus), At(t, Publishing(None, None, None)));
    t := At(t, Publishing(None, None, None));
    Reach(c, t, Step(ReadStatus), At(t, Publishing(None, None, Some(true))));
    t := At(t, Publishing(None, None, Some(true)));
    s := t.(repo := t.repo.(refs := map[b := target]));
    Reach(c, t, Move(b, target), s);
  }

  /** After the swap the checkout is neither clean nor at the approved tree. */
  lemma UnrecoverableAfterSwap(c: Config, x: Commit) returns (s: State)
    requires !c.moves.NotUnderLease? && c.request.targetHead != c.request.finalSha && LooksLikeNeither(c, x)
    ensures Reachable(c, s) && FailedAfterPublishing(s)
  {
    s := StatusOfAnotherCommit(c, x);
    s := Swaps(c, s);
    Reach(c, s, Step(Proceed), At(s, Settling(ReadingDiff)));
    Reach(c, At(s, Settling(ReadingDiff)), Step(Proceed), Fail(s, Unrecoverable));
    s := Fail(s, Unrecoverable);
  }

  /** With tracked changes under an exempt directory the attempt passes every check before its swap,
      and afterwards the diff shows them. */
  lemma DriftShowsAfterSwap(c: Config) returns (s: State)
    requires !DriftHarmless(c)
    ensures Reachable(c, s) && FailedAfterPublishing(s)
  {
    var tree := c.treeOf(c.request.targetHead);
    s := ReachesSwap(c, tree.(exempt := tree.exempt + 1));
    Reach(c, s, Step(Proceed), At(s, Settling(ReadingDiff)));
    Reach(c, At(s, Settling(ReadingDiff)), Step(Proceed), Fail(s, Unrecoverable));
    s := Fail(s, Unrecoverable);
  }

  /** A failed observation means that the attempt published nothing exactly when no operation throws,
      refs are left alone under the lease, and tracked changes under exempt directories do not meet a
      delivery that changes anything else. */
  lemma FailureMeansUnpublishedExactly(c: Config, x: Commit)
    requires c.request.targetHead != c.request.finalSha && LooksLikeNeither(c, x)
    ensures !c.faults && c.moves.NotUnderLease? && DriftHarmless(c) <==> forall s :: Reachable(c, s) ==> !FailedAfterPublishing(s)
  {
    if c.faults {
      var s := FaultAfterSwap(c);
    } else if !c.moves.NotUnderLease? {
      var s := UnrecoverableAfterSwap(c, x);
    } else if !DriftHarmless(c) {
      var s := DriftShowsAfterSwap(c);
    } else {
      forall s | Reachable(c, s) ensures !FailedAfterPublishing(s) {
        var states: seq<State>, actions: seq<Action> :| Run(c, states, actions) && DriftAllowed(c, states[0].repo) && states[|actions|] == s;
        ReconcilableThroughout(c, states, actions, |actions|);
      }
    }
  }
}
