/**
 One wave of executions: a fixed number of workers shift attempts from a queue and
 execute them concurrently; every outcome is recorded through one promise chain.
 A step is what runs between two awaits; the steps of workers and of the chain
 interleave freely.
 */
module WavePool {
  import opened Options

  type Attempt = nat

  datatype Worker =
    | Shifting
    | Executing(attempt: Attempt)
    | Awaiting(link: nat)
    | Returned
    | Rejected

  datatype Status = Pending | Running | Settled(ok: bool)

  /** One call of recordSerially, in the order of the calls. */
  datatype Link = Link(attempt: Attempt, status: Status)

  /** The promise of executeWave: `Resolved` with the run projection, which is the journal it was folded from. */
  datatype Outcome = Unsettled | Resolved(projection: seq<Attempt>) | Rethrown(error: Attempt) | RecordingFailed

  /** `started` is the history of executions, `thrown` the attempts whose execution threw, `journal` the
      recorded outcomes, `current` the variable `state`, and `firstError` the attempt that threw first. */
  datatype State = State(
    next: nat, workers: seq<Worker>, links: seq<Link>, started: seq<Attempt>, thrown: set<Attempt>,
    journal: seq<Attempt>, current: seq<Attempt>, firstError: Option<Attempt>, outcome: Outcome)

  /** `attempts` attempts, `limit` the configured parallelism; whether recording an outcome can throw. */
  datatype Config = Config(attempts: nat, limit: int, recordingFails: bool)

  datatype Action =
    | Shift(worker: nat)
    | ExecutionReturns(worker: nat)
    | ExecutionThrows(worker: nat)
    | StartRecording(link: nat)
    | FinishRecording(link: nat, ok: bool)
    | Resume(worker: nat)
    | Settle

  function Min(a: nat, b: nat): nat {
    if a <= b then a else b
  }

  function Max(a: int, b: int): int {
    if a >= b then a else b
  }

  function WorkerCount(c: Config): nat {
    Min(Max(1, c.limit), c.attempts)
  }

  predicate Is(s: State, w: nat, worker: Worker) {
    w < |s.workers| && s.workers[w] == worker
  }

  predicate AllReturned(s: State) {
    forall w :: 0 <= w < |s.workers| ==> s.workers[w].Returned?
  }

  predicate ChainSettled(s: State) {
    forall k :: 0 <= k < |s.links| ==> s.links[k].status.Settled?
  }

  predicate Enabled(c: Config, s: State, a: Action) {
    match a
    case Shift(w) => w < |s.workers| && s.workers[w].Shifting?
    case ExecutionReturns(w) => w < |s.workers| && s.workers[w].Executing?
    case ExecutionThrows(w) => w < |s.workers| && s.workers[w].Executing?
    case StartRecording(k) =>
      // appendChain.then: the previous link has settled, either way.
      k < |s.links| && s.links[k].status.Pending? && (k == 0 || s.links[k - 1].status.Settled?)
    case FinishRecording(k, ok) => k < |s.links| && s.links[k].status.Running? && (ok || c.recordingFails)
    case Resume(w) =>
      && w < |s.workers| && s.workers[w].Awaiting?
      && s.workers[w].link < |s.links| && s.links[s.workers[w].link].status.Settled?
    case Settle => s.outcome.Unsettled? && AllReturned(s) && ChainSettled(s)
  }

  function Become(s: State, w: nat, worker: Worker): State
    requires w < |s.workers|
  {
    s.(workers := s.workers[w := worker])
  }

  function Apply(c: Config, s: State, a: Action): State
    requires Enabled(c, s, a)
  {
    match a
    case Shift(w) =>
      if s.next < c.attempts
      then Become(s, w, Executing(s.next)).(next := s.next + 1, started := s.started + [s.next])
      else Become(s, w, Returned)
    case ExecutionReturns(w) =>
      Become(s, w, Awaiting(|s.links|)).(links := s.links + [Link(s.workers[w].attempt, Pending)])
    case ExecutionThrows(w) =>
      var attempt := s.workers[w].attempt;
      Become(s, w, Returned).(
        thrown := s.thrown + {attempt}, firstError := if s.firstError.None? then Some(attempt) else s.firstError)
    case StartRecording(k) => s.(links := s.links[k := s.links[k].(status := Running)])
    case FinishRecording(k, ok) =>
      var settled := s.(links := s.links[k := s.links[k].(status := Settled(ok))]);
      if ok then settled.(journal := s.journal + [s.links[k].attempt], current := s.journal + [s.links[k].attempt]) else settled
    case Resume(w) =>
      if s.links[s.workers[w].link].status.ok then Become(s, w, Shifting)
      else Become(s, w, Rejected).(outcome := if s.outcome.Unsettled? then RecordingFailed else s.outcome)
    case Settle => s.(outcome := if s.firstError.Some? then Rethrown(s.firstError.value) else Resolved(s.current))
  }

  predicate Start(c: Config, s: State) {
    && s.next == 0 && |s.workers| == WorkerCount(c) && (forall w :: 0 <= w < |s.workers| ==> s.workers[w].Shifting?)
    && s.links == [] && s.started == [] && s.thrown == {} && s.journal == [] && s.current == []
    && s.firstError.None? && s.outcome.Unsettled?
  }

  ghost predicate Run(c: Config, states: seq<State>, actions: seq<Action>) {
    && |states| == |actions| + 1 && Start(c, states[0])
    && forall k :: 0 <= k < |actions| ==> Enabled(c, states[k], actions[k]) && states[k + 1] == Apply(c, states[k], actions[k])
  }

  ghost predicate Reachable(c: Config, s: State) {
    exists states, actions :: Run(c, states, actions) && states[|actions|] == s
  }

  // ---------------------------------------------------------------------------
  // The invariant
  // ---------------------------------------------------------------------------

  /** Attempts start once each, in the order of the queue. */
  predicate StartedInOrder(c: Config, s: State) {
    s.next <= c.attempts && |s.started| == s.next && forall i :: 0 <= i < s.next ==> s.started[i] == i
  }

  /** Links settle in order, so at most one is running. */
  predicate ChainInOrder(s: State) {
    forall i, j :: 0 <= i < j < |s.links| && !s.links[j].status.Pending? ==> s.links[i].status.Settled?
  }

  /** The attempts of the links recorded so far, in order. */
  function Recorded(links: seq<Link>): seq<Attempt> {
    if links == [] then []
    else
      var last := links[|links| - 1];
      Recorded(links[..|links| - 1]) + if last.status == Settled(true) then [last.attempt] else []
  }

  predicate JournalFollowsChain(s: State) {
    s.journal == Recorded(s.links) && s.current == s.journal
  }

  /** A worker executes a started attempt that no other worker executes and no link has. */
  predicate OwnsAttempt(s: State, w: nat)
    requires w < |s.workers|
  {
    s.workers[w].Executing? ==>
      && s.workers[w].attempt < s.next && s.workers[w].attempt !in s.thrown
      && (forall v :: 0 <= v < |s.workers| && v != w ==> s.workers[v] != s.workers[w])
      && (forall k :: 0 <= k < |s.links| ==> s.links[k].attempt != s.workers[w].attempt)
  }

  /** A worker awaits a link that no other worker awaits. */
  predicate OwnsLink(s: State, w: nat)
    requires w < |s.workers|
  {
    s.workers[w].Awaiting? ==>
      && s.workers[w].link < |s.links|
      && (forall v :: 0 <= v < |s.workers| && v != w ==> s.workers[v] != s.workers[w])
  }

  predicate Owners(s: State) {
    && (forall w :: 0 <= w < |s.workers| ==> OwnsAttempt(s, w))
    && (forall w :: 0 <= w < |s.workers| ==> OwnsLink(s, w))
  }

  predicate DistinctLinks(s: State) {
    && (forall x :: x in s.thrown ==> x < s.next)
    && (forall k :: 0 <= k < |s.links| ==> s.links[k].attempt < s.next && s.links[k].attempt !in s.thrown)
    && (forall j, k :: 0 <= j < k < |s.links| ==> s.links[j].attempt != s.links[k].attempt)
  }

  predicate ExecutedBy(s: State, a: Attempt, w: nat) {
    Is(s, w, Executing(a))
  }

  predicate LinkOf(s: State, a: Attempt, k: nat) {
    k < |s.links| && s.links[k].attempt == a
  }

  ghost predicate IsExecuting(s: State, a: Attempt) {
    exists w: nat :: ExecutedBy(s, a, w)
  }

  ghost predicate HasLink(s: State, a: Attempt) {
    exists k: nat :: LinkOf(s, a, k)
  }

  ghost predicate IsAwaited(s: State, k: nat) {
    exists w: nat :: Is(s, w, Awaiting(k))
  }

  /** No started attempt is lost, and no unsettled link is left alone. */
  ghost predicate NothingLost(s: State) {
    && (forall a: nat :: a < s.next ==> a in s.thrown || IsExecuting(s, a) || HasLink(s, a))
    && (forall k: nat :: k < |s.links| && !s.links[k].status.Settled? ==> IsAwaited(s, k))
  }

  /** A worker returns only from an empty queue, unless an execution threw. */
  predicate ReturnsExplained(c: Config, s: State) {
    && (s.firstError.None? <==> s.thrown == {})
    && (s.firstError.Some? ==> s.firstError.value in s.thrown)
    && (s.firstError.None? ==> forall w :: 0 <= w < |s.workers| && s.workers[w].Returned? ==> s.next == c.attempts)
    && (c.attempts > 0 ==> |s.workers| > 0)
  }

  predicate WorkersKept(c: Config, s: State) {
    |s.workers| == WorkerCount(c)
  }

  predicate OutcomeExplained(c: Config, s: State) {
    && (s.outcome.Resolved? || s.outcome.Rethrown? ==> AllReturned(s) && ChainSettled(s))
    && (s.outcome.Resolved? ==> s.firstError.None? && s.outcome.projection == s.journal)
    && (s.outcome.Rethrown? ==> s.firstError == Some(s.outcome.error))
    && (s.outcome.RecordingFailed? ==> c.recordingFails)
    && (!c.recordingFails ==> forall k :: 0 <= k < |s.links| ==> s.links[k].status != Settled(false))
    && (forall w :: 0 <= w < |s.workers| && s.workers[w].Rejected? ==> c.recordingFails && s.outcome.RecordingFailed?)
    && (s.outcome.RecordingFailed? ==> exists w :: 0 <= w < |s.workers| && s.workers[w].Rejected?)
  }

  /** A worker has rejected. */
  predicate SomeRejected(s: State) {
    exists w :: 0 <= w < |s.workers| && s.workers[w].Rejected?
  }

  /** A failed recording is still to reach its worker, or has rejected one. */
  ghost predicate FailuresShow(s: State) {
    forall k: nat :: k < |s.links| && s.links[k].status == Settled(false) ==> IsAwaited(s, k) || SomeRejected(s)
  }

  ghost predicate Invariant(c: Config, s: State) {
    && StartedInOrder(c, s) && ChainInOrder(s) && JournalFollowsChain(s) && Owners(s) && DistinctLinks(s)
    && NothingLost(s) && FailuresShow(s) && ReturnsExplained(c, s) && WorkersKept(c, s) && OutcomeExplained(c, s)
  }

  // ---------------------------------------------------------------------------
  // Preservation, conjunct by conjunct
  // ---------------------------------------------------------------------------

  lemma StartedKept(c: Config, s: State, a: Action)
    requires StartedInOrder(c, s) && Enabled(c, s, a)
    ensures StartedInOrder(c, Apply(c, s, a)) && s.next <= Apply(c, s, a).next
    ensures |Apply(c, s, a).workers| == |s.workers|
  {
  }

  lemma ChainKept(c: Config, s: State, a: Action)
    requires ChainInOrder(s) && Enabled(c, s, a)
    ensures ChainInOrder(Apply(c, s, a))
  {
    var t := Apply(c, s, a);
    forall i, j | 0 <= i < j < |t.links| && !t.links[j].status.Pending? ensures t.links[i].status.Settled? {
      if a.StartRecording? && j == a.link && i < j - 1 { assert s.links[j - 1].status.Settled? && !s.links[j - 1].status.Pending?; }
    }
  }

  lemma {:induction false} RecordedPending(links: seq<Link>, k: nat)
    requires k <= |links| && forall i :: k <= i < |links| ==> !links[i].status.Settled?
    ensures Recorded(links) == Recorded(links[..k])
    decreases |links|
  {
    if k == |links| {
      assert links[..k] == links;
    } else {
      assert links[..|links| - 1][..k] == links[..k];
      RecordedPending(links[..|links| - 1], k);
    }
  }

  /** Settling the running link appends it to the recorded ones. */
  lemma RecordedSettled(s: State, k: nat, ok: bool)
    requires ChainInOrder(s) && k < |s.links| && s.links[k].status.Running?
    ensures
      Recorded(s.links[k := s.links[k].(status := Settled(ok))])
      == Recorded(s.links) + if ok then [s.links[k].attempt] else []
  {
    var after := s.links[k := s.links[k].(status := Settled(ok))];
    forall i | k < i < |s.links| ensures !s.links[i].status.Settled? {
      assert s.links[k].status.Settled? || s.links[i].status.Pending?;
    }
    RecordedPending(s.links, k);
    RecordedPending(after, k + 1);
    assert after[..k + 1][..k] == s.links[..k];
  }

  lemma {:induction false} RecordedUnchanged(a: seq<Link>, b: seq<Link>)
    requires |a| == |b|
    requires forall i :: 0 <= i < |a| ==> a[i] == b[i] || (!a[i].status.Settled? && !b[i].status.Settled?)
    ensures Recorded(a) == Recorded(b)
    decreases |a|
  {
    if a != [] { RecordedUnchanged(a[..|a| - 1], b[..|b| - 1]); }
  }

  lemma JournalKept(c: Config, s: State, a: Action)
    requires ChainInOrder(s) && JournalFollowsChain(s) && Enabled(c, s, a)
    ensures JournalFollowsChain(Apply(c, s, a))
  {
    var t := Apply(c, s, a);
    match a
    case FinishRecording(k, ok) => RecordedSettled(s, k, ok);
    case StartRecording(_) => RecordedUnchanged(s.links, t.links);
    case ExecutionReturns(_) => assert t.links[..|t.links| - 1] == s.links;
    case _ =>
  }

  /** What a step does to the links: attempts stay, one may come, settled links stay settled. */
  lemma LinksFrame(c: Config, s: State, a: Action)
    requires Enabled(c, s, a)
    ensures
      var t := Apply(c, s, a);
      && |s.links| <= |t.links|
      && (forall k :: 0 <= k < |s.links| ==> t.links[k].attempt == s.links[k].attempt)
      && (forall k :: 0 <= k < |s.links| && s.links[k].status.Settled? ==> t.links[k] == s.links[k])
      && (!a.ExecutionReturns? ==> |t.links| == |s.links|)
      && (a.ExecutionReturns? ==> |t.links| == |s.links| + 1 && t.links[|s.links|] == Link(s.workers[a.worker].attempt, Pending))
  {
  }

  predicate OfWorker(a: Action) {
    a.Shift? || a.ExecutionReturns? || a.ExecutionThrows? || a.Resume?
  }

  lemma OwnersKept(c: Config, s: State, a: Action)
    requires StartedInOrder(c, s) && Owners(s) && DistinctLinks(s) && Enabled(c, s, a)
    ensures Owners(Apply(c, s, a))
  {
    var t := Apply(c, s, a);
    LinksFrame(c, s, a);
    forall w | 0 <= w < |t.workers| ensures OwnsAttempt(t, w) && OwnsLink(t, w) {
      OwnerKept(c, s, a, w);
    }
  }

  lemma OwnerKept(c: Config, s: State, a: Action, w: nat)
    requires StartedInOrder(c, s) && Owners(s) && DistinctLinks(s) && Enabled(c, s, a) && w < |s.workers|
    ensures OwnsAttempt(Apply(c, s, a), w) && OwnsLink(Apply(c, s, a), w)
  {
    LinksFrame(c, s, a);
    assert OwnsAttempt(s, w) && OwnsLink(s, w);
    forall v | 0 <= v < |s.workers|
      ensures s.workers[v].Executing? ==> s.workers[v].attempt < s.next
      ensures s.workers[v].Awaiting? ==> s.workers[v].link < |s.links|
    {
      assert OwnsAttempt(s, v) && OwnsLink(s, v);
    }
    if OfWorker(a) {
      assert OwnsAttempt(s, a.worker) && OwnsLink(s, a.worker);
    }
  }

  lemma DistinctKeptByStep(c: Config, s: State, a: Action)
    requires Owners(s) && DistinctLinks(s) && Enabled(c, s, a)
    ensures DistinctLinks(Apply(c, s, a))
  {
    LinksFrame(c, s, a);
    if OfWorker(a) { assert OwnsAttempt(s, a.worker); }
  }

  lemma AttemptNotLost(c: Config, s: State, a: Action, x: Attempt)
    requires NothingLost(s) && Enabled(c, s, a) && x < Apply(c, s, a).next
    ensures var t := Apply(c, s, a); x in t.thrown || IsExecuting(t, x) || HasLink(t, x)
  {
    var t := Apply(c, s, a);
    LinksFrame(c, s, a);
    if x >= s.next {
      assert ExecutedBy(t, x, a.worker);
    } else if HasLink(s, x) {
      var k: nat :| LinkOf(s, x, k);
      assert LinkOf(t, x, k);
    } else if IsExecuting(s, x) {
      var w: nat :| ExecutedBy(s, x, w);
      if OfWorker(a) && a.worker == w {
        if a.ExecutionReturns? { assert LinkOf(t, x, |s.links|); }
      } else {
        assert ExecutedBy(t, x, w);
      }
    }
  }

  lemma LinkNotAlone(c: Config, s: State, a: Action, k: nat)
    requires NothingLost(s) && Enabled(c, s, a) && k < |Apply(c, s, a).links| && !Apply(c, s, a).links[k].status.Settled?
    ensures IsAwaited(Apply(c, s, a), k)
  {
    var t := Apply(c, s, a);
    LinksFrame(c, s, a);
    if k == |s.links| {
      assert Is(t, a.worker, Awaiting(k));
    } else {
      assert !s.links[k].status.Settled?;
      var w: nat :| Is(s, w, Awaiting(k));
      assert Is(t, w, Awaiting(k));
    }
  }

  lemma NothingLostKept(c: Config, s: State, a: Action)
    requires NothingLost(s) && Enabled(c, s, a)
    ensures NothingLost(Apply(c, s, a))
  {
    var t := Apply(c, s, a);
    forall x: nat | x < t.next ensures x in t.thrown || IsExecuting(t, x) || HasLink(t, x) { AttemptNotLost(c, s, a, x); }
    forall k: nat | k < |t.links| && !t.links[k].status.Settled? ensures IsAwaited(t, k) { LinkNotAlone(c, s, a, k); }
  }

  lemma FailureShows(c: Config, s: State, a: Action, k: nat)
    requires NothingLost(s) && FailuresShow(s) && Enabled(c, s, a)
    requires k < |Apply(c, s, a).links| && Apply(c, s, a).links[k].status == Settled(false)
    ensures IsAwaited(Apply(c, s, a), k) || SomeRejected(Apply(c, s, a))
  {
    var t := Apply(c, s, a);
    LinksFrame(c, s, a);
    if SomeRejected(s) {
      var w :| 0 <= w < |s.workers| && s.workers[w].Rejected?;
      assert t.workers[w].Rejected?;
    } else {
      assert IsAwaited(s, k);
      var w: nat :| Is(s, w, Awaiting(k));
      if a == Resume(w) { assert t.workers[w].Rejected?; } else { assert Is(t, w, Awaiting(k)); }
    }
  }

  lemma FailuresShowKept(c: Config, s: State, a: Action)
    requires NothingLost(s) && FailuresShow(s) && Enabled(c, s, a)
    ensures FailuresShow(Apply(c, s, a))
  {
    hide Apply, Enabled, NothingLost;
    forall k: nat | k < |Apply(c, s, a).links| && Apply(c, s, a).links[k].status == Settled(false)
      ensures IsAwaited(Apply(c, s, a), k) || SomeRejected(Apply(c, s, a))
    {
      FailureShows(c, s, a, k);
    }
  }

  lemma ReturnsKept(c: Config, s: State, a: Action)
    requires StartedInOrder(c, s) && ReturnsExplained(c, s) && Enabled(c, s, a)
    ensures ReturnsExplained(c, Apply(c, s, a))
  {
  }

  lemma OutcomeKept(c: Config, s: State, a: Action)
    requires JournalFollowsChain(s) && OutcomeExplained(c, s) && Enabled(c, s, a)
    ensures OutcomeExplained(c, Apply(c, s, a))
  {
    var t := Apply(c, s, a);
    if OfWorker(a) { assert !s.workers[a.worker].Returned?; }
    if t.outcome.RecordingFailed? {
      if s.outcome.RecordingFailed? {
        var w :| 0 <= w < |s.workers| && s.workers[w].Rejected?;
        assert t.workers[w].Rejected?;
      } else {
        assert t.workers[a.worker].Rejected?;
      }
    }
  }

  lemma InvariantKept(c: Config, s: State, a: Action)
    requires Invariant(c, s) && Enabled(c, s, a)
    ensures Invariant(c, Apply(c, s, a))
  {
    StartedKept(c, s, a);
    ChainKept(c, s, a);
    JournalKept(c, s, a);
    OwnersKept(c, s, a);
    DistinctKeptByStep(c, s, a);
    NothingLostKept(c, s, a);
    FailuresShowKept(c, s, a);
    ReturnsKept(c, s, a);
    OutcomeKept(c, s, a);
  }

  lemma {:induction false} InvariantThroughout(c: Config, states: seq<State>, actions: seq<Action>, k: nat)
    requires Run(c, states, actions) && k < |states|
    ensures Invariant(c, states[k])
  {
    if k > 0 {
      InvariantThroughout(c, states, actions, k - 1);
      InvariantKept(c, states[k - 1], actions[k - 1]);
    }
  }

  lemma ReachableInvariant(c: Config, s: State)
    requires Reachable(c, s)
    ensures Invariant(c, s)
  {
    var states, actions :| Run(c, states, actions) && states[|actions|] == s;
    InvariantThroughout(c, states, actions, |actions|);
  }

  // ---------------------------------------------------------------------------
  // What holds in every interleaving
  // ---------------------------------------------------------------------------

  function InFlight(s: State): set<nat> {
    set w | 0 <= w < |s.workers| && s.workers[w].Executing?
  }

  lemma {:induction false} BelowBound(ws: set<nat>, n: nat)
    requires forall w :: w in ws ==> w < n
    ensures |ws| <= n
  {
    if n > 0 {
      BelowBound(ws - {n - 1}, n - 1);
    } else {
      assert ws == {};
    }
  }

  /** At most min(limit, attempts) executions are in flight, where a limit below one counts as one. */
  lemma InFlightBounded(c: Config, s: State)
    requires Reachable(c, s)
    ensures |InFlight(s)| <= Min(Max(1, c.limit), c.attempts)
  {
    ReachableInvariant(c, s);
    BelowBound(InFlight(s), |s.workers|);
  }

  /** The first `k` workers execute the first `k` attempts. */
  function Busy(c: Config, k: nat): State {
    State(k, seq(WorkerCount(c), w requires 0 <= w < WorkerCount(c) => if w < k then Executing(w) else Shifting),
          [], seq(k, i requires 0 <= i < k => i), {}, [], [], None, Unsettled)
  }

  lemma {:induction false} BusyIsReached(c: Config, k: nat)
    requires k <= WorkerCount(c)
    ensures Reachable(c, Busy(c, k))
  {
    if k == 0 {
      assert Start(c, Busy(c, 0));
      assert Run(c, [Busy(c, 0)], []);
    } else {
      BusyIsReached(c, k - 1);
      var s, t := Busy(c, k - 1), Busy(c, k);
      assert t.workers == s.workers[k - 1 := Executing(k - 1)];
      assert t.started == s.started + [k - 1];
      Reach(c, s, Shift(k - 1), t);
    }
  }

  lemma {:induction false} CountBelow(ws: set<nat>, n: nat)
    requires forall w: nat :: w in ws <==> w < n
    ensures |ws| == n
  {
    if n > 0 {
      CountBelow(ws - {n - 1}, n - 1);
    } else {
      assert ws == {};
    }
  }

  /** That many executions do run at once in some interleaving. */
  lemma ParallelismIsReached(c: Config)
    ensures
      var n := if c.limit < 1 then Min(1, c.attempts) else Min(c.limit, c.attempts);
      exists s :: Reachable(c, s) && |InFlight(s)| == n
  {
    var n := WorkerCount(c);
    BusyIsReached(c, n);
    CountBelow(InFlight(Busy(c, n)), n);
  }

  lemma OneRecordingAtATime(c: Config, s: State, j: nat, k: nat)
    requires Reachable(c, s) && j < |s.links| && k < |s.links|
    requires s.links[j].status.Running? && s.links[k].status.Running?
    ensures j == k
  {
    ReachableInvariant(c, s);
    assert s.links[j].status.Settled? || j >= k;
    assert s.links[k].status.Settled? || k >= j;
  }

  lemma NoAttemptTwice(c: Config, s: State, i: nat, j: nat)
    requires Reachable(c, s) && i < j < |s.started|
    ensures s.started[i] != s.started[j]
  {
    ReachableInvariant(c, s);
  }

  lemma {:induction false} RecordedAre(links: seq<Link>, x: Attempt)
    ensures x in Recorded(links) <==> exists k :: 0 <= k < |links| && links[k] == Link(x, Settled(true))
    decreases |links|
  {
    if links != [] {
      var front := links[..|links| - 1];
      RecordedAre(front, x);
      assert forall k :: 0 <= k < |front| ==> front[k] == links[k];
      assert Recorded(links) == Recorded(front) + if links[|front|].status == Settled(true) then [links[|front|].attempt] else [];
    }
  }

  lemma {:induction false} RecordedDistinct(links: seq<Link>)
    requires forall j, k :: 0 <= j < k < |links| ==> links[j].attempt != links[k].attempt
    ensures forall j, k :: 0 <= j < k < |Recorded(links)| ==> Recorded(links)[j] != Recorded(links)[k]
    decreases |links|
  {
    if links != [] {
      var front, last := links[..|links| - 1], links[|links| - 1];
      RecordedDistinct(front);
      RecordedAre(front, last.attempt);
    }
  }

  /** The journal never holds an attempt twice, and `state` is always the projection of the journal. */
  lemma JournalDistinct(c: Config, s: State)
    requires Reachable(c, s)
    ensures (forall j, k :: 0 <= j < k < |s.journal| ==> s.journal[j] != s.journal[k]) && s.current == s.journal
  {
    ReachableInvariant(c, s);
    RecordedDistinct(s.links);
  }

  predicate Delivered(s: State) {
    s.outcome.Resolved? || s.outcome.Rethrown?
  }

  lemma NothingExecuting(s: State, x: Attempt)
    requires AllReturned(s)
    ensures !IsExecuting(s, x)
  {
  }

  /** When the wave returns or rethrows the error of an execution, a started attempt is in the journal
      exactly when its execution did not throw. */
  lemma ReturnedIsRecorded(c: Config, s: State, x: Attempt)
    requires Reachable(c, s) && Delivered(s) && x < s.next
    ensures x in s.journal <==> x !in s.thrown
  {
    ReachableInvariant(c, s);
    NothingExecuting(s, x);
    RecordedAre(s.links, x);
    if x !in s.thrown {
      var k: nat :| LinkOf(s, x, k);
      assert !IsAwaited(s, k) && !SomeRejected(s);
      assert s.links[k] == Link(x, Settled(true));
    }
  }

  /** When the wave returns, it returns the projection of a journal that holds every attempt. */
  lemma AllRecorded(c: Config, s: State)
    requires Reachable(c, s) && s.outcome.Resolved?
    ensures s.thrown == {} && s.outcome.projection == s.journal
    ensures forall x: nat :: x < c.attempts <==> x in s.journal
  {
    ReachableInvariant(c, s);
    if c.attempts > 0 { assert s.workers[0].Returned?; }
    forall x: nat ensures x < c.attempts <==> x in s.journal {
      if x < s.next { ReturnedIsRecorded(c, s, x); }
      RecordedAre(s.links, x);
    }
  }

  lemma {:induction false} NoErrorWithoutThrow(c: Config, states: seq<State>, actions: seq<Action>, k: nat)
    requires Run(c, states, actions) && k < |states| && forall j :: 0 <= j < k ==> !actions[j].ExecutionThrows?
    ensures states[k].firstError.None?
  {
    if k > 0 { NoErrorWithoutThrow(c, states, actions, k - 1); }
  }

  /** The first execution that throws determines the error that the wave holds back. */
  lemma {:induction false} FirstThrowIsHeld(c: Config, states: seq<State>, actions: seq<Action>, k: nat, m: nat)
    requires Run(c, states, actions) && k < m < |states| && actions[k].ExecutionThrows?
    requires forall j :: 0 <= j < k ==> !actions[j].ExecutionThrows?
    ensures states[m].firstError == Some(states[k].workers[actions[k].worker].attempt)
  {
    NoErrorWithoutThrow(c, states, actions, k);
    if m > k + 1 { FirstThrowIsHeld(c, states, actions, k, m - 1); }
  }

  /** A wave rethrows the error of the execution that threw first, and returns only when none did. */
  lemma RethrowsTheFirst(c: Config, states: seq<State>, actions: seq<Action>, k: nat, m: nat)
    requires Run(c, states, actions) && k < m < |states| && actions[k].ExecutionThrows?
    requires forall j :: 0 <= j < k ==> !actions[j].ExecutionThrows?
    ensures Delivered(states[m]) ==> states[m].outcome == Rethrown(states[k].workers[actions[k].worker].attempt)
  {
    FirstThrowIsHeld(c, states, actions, k, m);
    InvariantThroughout(c, states, actions, m);
  }

  /** The promise of the wave only settles when no execution is in flight. */
  predicate SettlesAfterAll(s: State) {
    !s.outcome.Unsettled? ==> InFlight(s) == {}
  }

  lemma SettlesAfterAllWithoutFailures(c: Config, s: State)
    requires Reachable(c, s) && (!c.recordingFails || WorkerCount(c) < 2)
    ensures SettlesAfterAll(s)
  {
    ReachableInvariant(c, s);
    if s.outcome.RecordingFailed? {
      var w :| 0 <= w < |s.workers| && s.workers[w].Rejected?;
    }
  }

  /** The wave cannot get stuck before its promise settles. */
  lemma NoDeadlock(c: Config, s: State)
    requires Reachable(c, s) && s.outcome.Unsettled?
    ensures exists a :: Enabled(c, s, a)
  {
    ReachableInvariant(c, s);
    if !ChainSettled(s) {
      ChainMoves(c, s);
    } else if !AllReturned(s) {
      var w: nat :| w < |s.workers| && !s.workers[w].Returned?;
      assert OwnsLink(s, w);
      assert s.workers[w].Shifting? ==> Enabled(c, s, Shift(w));
      assert s.workers[w].Executing? ==> Enabled(c, s, ExecutionReturns(w));
      assert s.workers[w].Awaiting? ==> Enabled(c, s, Resume(w));
    } else {
      assert Enabled(c, s, Action.Settle);
    }
  }

  lemma ChainMoves(c: Config, s: State)
    requires ChainInOrder(s) && !ChainSettled(s)
    ensures exists a :: Enabled(c, s, a)
  {
    var k := FirstUnsettled(s.links);
    assert s.links[k].status.Pending? ==> Enabled(c, s, StartRecording(k));
    assert s.links[k].status.Running? ==> Enabled(c, s, FinishRecording(k, true));
  }

  lemma {:induction false} FirstUnsettled(links: seq<Link>) returns (k: nat)
    requires exists i :: 0 <= i < |links| && !links[i].status.Settled?
    ensures k < |links| && !links[k].status.Settled? && forall i :: 0 <= i < k ==> links[i].status.Settled?
    decreases |links|
  {
    if !links[0].status.Settled? { k := 0; }
    else {
      assert forall i :: 1 <= i < |links| ==> links[1..][i - 1] == links[i];
      k := FirstUnsettled(links[1..]);
      k := k + 1;
      forall i | 0 <= i < k ensures links[i].status.Settled? {
        if i > 0 { assert links[1..][i - 1] == links[i]; }
      }
    }
  }

  // ---------------------------------------------------------------------------
  // Every run ends with a settled promise
  // ---------------------------------------------------------------------------

  function WorkerSteps(w: Worker): nat {
    match w
    case Executing(_) => 5
    case Awaiting(_) => 2
    case Shifting => 1
    case _ => 0
  }

  function LinkSteps(l: Link): nat {
    if l.status.Pending? then 2 else if l.status.Running? then 1 else 0
  }

  function AllWorkerSteps(ws: seq<Worker>): nat {
    if ws == [] then 0 else WorkerSteps(ws[0]) + AllWorkerSteps(ws[1..])
  }

  function AllLinkSteps(links: seq<Link>): nat {
    if links == [] then 0 else LinkSteps(links[0]) + AllLinkSteps(links[1..])
  }

  /** A bound on the steps that are left. */
  function Rank(c: Config, s: State): nat
    requires s.next <= c.attempts
  {
    5 * (c.attempts - s.next) + AllWorkerSteps(s.workers) + AllLinkSteps(s.links) + if s.outcome.Unsettled? then 1 else 0
  }

  lemma {:induction false} WorkerChanged(ws: seq<Worker>, w: nat, worker: Worker)
    requires w < |ws|
    ensures AllWorkerSteps(ws[w := worker]) == AllWorkerSteps(ws) - WorkerSteps(ws[w]) + WorkerSteps(worker)
  {
    var after := ws[w := worker];
    if w == 0 {
      assert after[1..] == ws[1..];
    } else {
      assert after[1..] == ws[1..][w - 1 := worker];
      WorkerChanged(ws[1..], w - 1, worker);
    }
  }

  lemma {:induction false} LinkChanged(links: seq<Link>, k: nat, l: Link)
    requires k < |links|
    ensures AllLinkSteps(links[k := l]) == AllLinkSteps(links) - LinkSteps(links[k]) + LinkSteps(l)
  {
    var after := links[k := l];
    if k == 0 {
      assert after[1..] == links[1..];
    } else {
      assert after[1..] == links[1..][k - 1 := l];
      LinkChanged(links[1..], k - 1, l);
    }
  }

  lemma {:induction false} LinkAdded(links: seq<Link>, l: Link)
    ensures AllLinkSteps(links + [l]) == AllLinkSteps(links) + LinkSteps(l)
  {
    if links != [] {
      assert (links + [l])[1..] == links[1..] + [l];
      LinkAdded(links[1..], l);
    }
  }

  lemma StepsRunOut(c: Config, s: State, a: Action)
    requires s.next <= c.attempts && Enabled(c, s, a)
    ensures Apply(c, s, a).next <= c.attempts && Rank(c, Apply(c, s, a)) < Rank(c, s)
  {
    hide AllWorkerSteps, AllLinkSteps;
    var t := Apply(c, s, a);
    if OfWorker(a) { WorkerChanged(s.workers, a.worker, t.workers[a.worker]); }
    if a.ExecutionReturns? { LinkAdded(s.links, t.links[|s.links|]); }
    if a.StartRecording? || a.FinishRecording? { LinkChanged(s.links, a.link, t.links[a.link]); }
  }

  lemma {:induction false} RankBounds(c: Config, states: seq<State>, actions: seq<Action>, k: nat)
    requires Run(c, states, actions) && k < |states|
    ensures states[k].next <= c.attempts && k + Rank(c, states[k]) <= Rank(c, states[0])
  {
    if k > 0 {
      RankBounds(c, states, actions, k - 1);
      StepsRunOut(c, states[k - 1], actions[k - 1]);
    }
  }

  lemma {:induction false} ShiftingSteps(ws: seq<Worker>)
    requires forall w :: 0 <= w < |ws| ==> ws[w].Shifting?
    ensures AllWorkerSteps(ws) == |ws|
  {
    if ws != [] { ShiftingSteps(ws[1..]); }
  }

  /** Runs are bounded, and one that nothing can continue has settled the promise of the wave. */
  lemma WaveSettles(c: Config, states: seq<State>, actions: seq<Action>)
    requires Run(c, states, actions)
    ensures |actions| <= 5 * c.attempts + WorkerCount(c) + 1
    ensures (forall a :: !Enabled(c, states[|actions|], a)) ==> !states[|actions|].outcome.Unsettled?
  {
    RankBounds(c, states, actions, |actions|);
    ShiftingSteps(states[0].workers);
    if states[|actions|].outcome.Unsettled? { NoDeadlock(c, states[|actions|]); }
  }

  // ---------------------------------------------------------------------------
  // When recording fails
  // ---------------------------------------------------------------------------

  lemma Reach(c: Config, s: State, a: Action, t: State)
    requires Reachable(c, s) && Enabled(c, s, a) && Apply(c, s, a) == t
    ensures Reachable(c, t)
  {
    var states, actions :| Run(c, states, actions) && states[|actions|] == s;
    assert Run(c, states + [t], actions + [a]);
    assert (states + [t])[|actions + [a]|] == t;
  }

  /** Two workers execute; the first returns, its record throws, and the wave rejects beside the second. */
  lemma RejectsBesideAnExecution(c: Config) returns (s: State)
    requires c.recordingFails && WorkerCount(c) >= 2
    ensures Reachable(c, s) && !SettlesAfterAll(s)
  {
    s := State(0, seq(WorkerCount(c), _ => Shifting), [], [], {}, [], [], None, Unsettled);
    assert Run(c, [s], []);
    s := TwoExecuting(c, s);
    var t := FirstRecordFails(c, s);
    s := Apply(c, t, Resume(0));
    Reach(c, t, Resume(0), s);
    assert 1 in InFlight(s);
  }

  lemma FirstRecordFails(c: Config, s: State) returns (t: State)
    requires c.recordingFails && Reachable(c, s) && |s.workers| >= 2 && s.workers[0].Executing? && s.links == []
    ensures Reachable(c, t) && t.workers == s.workers[0 := Awaiting(0)] && t.outcome == s.outcome
    ensures |t.links| == 1 && t.links[0].status == Settled(false)
  {
    var u := Apply(c, s, ExecutionReturns(0));
    Reach(c, s, ExecutionReturns(0), u);
    t := Apply(c, u, StartRecording(0));
    Reach(c, u, StartRecording(0), t);
    u := Apply(c, t, FinishRecording(0, false));
    Reach(c, t, FinishRecording(0, false), u);
    t := u;
  }

  lemma TwoExecuting(c: Config, s: State) returns (t: State)
    requires Reachable(c, s) && Start(c, s) && WorkerCount(c) >= 2
    ensures Reachable(c, t) && |t.workers| >= 2 && t.workers[0] == Executing(0) && t.workers[1] == Executing(1)
    ensures t.links == [] && t.outcome.Unsettled?
  {
    var u := Apply(c, s, Shift(0));
    Reach(c, s, Shift(0), u);
    t := Apply(c, u, Shift(1));
    Reach(c, u, Shift(1), t);
  }

  /** Every started attempt settles before the wave does exactly when recording does not fail, or there
      is at most one worker. */
  lemma SettlesAfterAllExactly(c: Config)
    ensures !c.recordingFails || WorkerCount(c) < 2 <==> forall s :: Reachable(c, s) ==> SettlesAfterAll(s)
  {
    if !c.recordingFails || WorkerCount(c) < 2 {
      forall s | Reachable(c, s) ensures SettlesAfterAll(s) { SettlesAfterAllWithoutFailures(c, s); }
    } else {
      var s := RejectsBesideAnExecution(c);
    }
  }
}
