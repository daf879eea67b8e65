/**
 The installation guard: a Lamport bakery election whose registers are claim
 directories. Membership is dynamic (every entry draws a fresh claim id),
 processes may crash between any two file operations, tickets are unbounded and
 may tie, and a scan lists the claims first and reads each owner and each ticket
 separately afterwards.

 One action is one file operation, one verdict on one listed claim, one crash or
 one failure. `Enabled` says when an action can happen and `Apply` what it does.
 */
module GuardElection {
  import opened Options

  type ClaimId = string

  /** A process incarnation: pid together with its start identity. */
  type Process = nat

  /** What a claim directory holds; the ticket file appears after the owner file. */
  datatype Claim = Claim(owner: Process, ticket: Option<nat>)

  /** What one scan remembers: names still to read, a claim whose owner file is
      read but whose ticket file is not, and the claims read in full. */
  datatype Scan = Scan(pending: set<ClaimId>, half: Option<Half>, seen: map<ClaimId, Claim>)

  datatype Half = Half(id: ClaimId, owner: Process)

  datatype Phase =
    | Publishing                                             // the staging directory is written
    | Choosing                                               // the claim is visible without a ticket
    | Numbering(scan: Scan)                                  // publishGuardTicket reads the claims
    | Waiting(ticket: nat)                                   // about to start an election round
    | Surveying(ticket: nat, scan: Scan)                     // the round reads the claims
    | Judging(ticket: nat, seen: map<ClaimId, Claim>, blocked: bool)
    | Inside(ticket: nat)                                    // operation() runs
    | Leaving                                                // the finally block
    | Gone

  datatype Entry = Entry(process: Process, phase: Phase)

  datatype State = State(claims: map<ClaimId, Claim>, entries: map<ClaimId, Entry>, crashed: set<Process>)

  datatype Verdict = SameProcess | DeadOrDifferent | Stale

  datatype Action =
    | Begin(id: ClaimId, process: Process)
    | PublishClaim(id: ClaimId)
    | ListForTicket(id: ClaimId)
    | ListForElection(id: ClaimId)
    | ReadOwner(id: ClaimId, other: ClaimId)
    | ReadTicket(id: ClaimId)
    | PublishTicket(id: ClaimId, maximum: nat)
    | StartJudging(id: ClaimId)
    | PassOver(id: ClaimId, other: ClaimId)
    | Judge(id: ClaimId, other: ClaimId, verdict: Verdict)
    | EndRound(id: ClaimId)
    | Finish(id: ClaimId)
    | Fail(id: ClaimId)
    | RemoveOwnClaim(id: ClaimId, renamed: bool)
    | Crash(process: Process)

  /** `compare` stands for localeCompare on claim ids. `staleRuleIsSafe` is the
      environment assumption on the two-second rule: it never removes the claim
      of a live contender. */
  datatype Config = Config(compare: (ClaimId, ClaimId) -> int, staleRuleIsSafe: bool)

  ghost predicate StrictOrder(compare: (ClaimId, ClaimId) -> int) {
    forall a, b :: a != b ==> compare(a, b) != 0 && (compare(a, b) < 0 <==> compare(b, a) > 0)
  }

  /** compareGuardPriority(left, right) < 0 */
  predicate Priority(c: Config, leftTicket: nat, left: ClaimId, rightTicket: nat, right: ClaimId) {
    leftTicket < rightTicket || (leftTicket == rightTicket && c.compare(left, right) < 0)
  }

  predicate Live(s: State, id: ClaimId) {
    id in s.entries && s.entries[id].process !in s.crashed
  }

  /** A live entry from the publication of its claim until it leaves. */
  predicate Contending(s: State, id: ClaimId) {
    Live(s, id) && !s.entries[id].phase.Publishing? && !s.entries[id].phase.Leaving? && !s.entries[id].phase.Gone?
  }

  predicate InOperation(s: State, id: ClaimId) {
    Live(s, id) && s.entries[id].phase.Inside?
  }

  function TicketOf(p: Phase): Option<nat> {
    if p.Waiting? || p.Surveying? || p.Judging? || p.Inside? then Some(p.ticket) else None
  }

  predicate Scanning(p: Phase) {
    p.Numbering? || p.Surveying?
  }

  function WithScan(p: Phase, scan: Scan): Phase
    requires Scanning(p)
  {
    if p.Numbering? then Numbering(scan) else Surveying(p.ticket, scan)
  }

  /** The value `maximumTicket` ends with: 0 or a ticket that was read, and no smaller than any of them. */
  ghost predicate IsMaximumTicket(seen: map<ClaimId, Claim>, maximum: nat) {
    && (forall c :: c in seen && seen[c].ticket.Some? ==> seen[c].ticket.value <= maximum)
    && (maximum == 0 || exists c :: c in seen && seen[c].ticket == Some(maximum))
  }

  /** The loop of publishGuardTicket over the claims its scan returned. */
  method MaximumTicket(order: seq<ClaimId>, seen: map<ClaimId, Claim>) returns (maximum: nat)
    requires forall c :: c in seen <==> c in order
    ensures IsMaximumTicket(seen, maximum)
  {
    maximum := 0;
    for i := 0 to |order|
      invariant forall k :: 0 <= k < i && seen[order[k]].ticket.Some? ==> seen[order[k]].ticket.value <= maximum
      invariant maximum == 0 || exists c :: c in seen && seen[c].ticket == Some(maximum)
    {
      var ticket := seen[order[i]].ticket;
      if ticket.Some? && ticket.value > maximum {
        maximum := ticket.value;
      }
    }
  }

  function EmptyScan(claims: map<ClaimId, Claim>): Scan {
    Scan(claims.Keys, None, map[])
  }

  ghost predicate Enabled(c: Config, s: State, a: Action) {
    match a
    case Begin(id, process) => id !in s.entries && process !in s.crashed
    case Crash(process) => true
    case _ => Live(s, a.id) && EnabledFor(c, s, a, s.entries[a.id].phase)
  }

  /** When a live entry in `phase` can take the step `a`. */
  ghost predicate EnabledFor(c: Config, s: State, a: Action, phase: Phase) {
    match a
    case Begin(_, _) => false
    case Crash(_) => false
    case PublishClaim(_) => phase.Publishing?
    case ListForTicket(_) => phase.Choosing?
    case ListForElection(_) => phase.Waiting?
    case ReadOwner(_, other) => Scanning(phase) && phase.scan.half.None? && other in phase.scan.pending
    case ReadTicket(_) => Scanning(phase) && phase.scan.half.Some?
    // The rename of the ticket file fails when the own claim directory is gone (that is `Fail`).
    case PublishTicket(id, maximum) =>
      && phase.Numbering? && phase.scan.pending == {} && phase.scan.half.None?
      && id in s.claims && IsMaximumTicket(phase.scan.seen, maximum)
    case StartJudging(_) => phase.Surveying? && phase.scan.pending == {} && phase.scan.half.None?
    case PassOver(id, other) =>
      phase.Judging? && other in phase.seen && (other == id || !Blocks(c, phase, id, other))
    case Judge(id, other, verdict) =>
      && phase.Judging? && other in phase.seen && other != id && Blocks(c, phase, id, other)
      && (verdict.Stale? ==> phase.seen[other].ticket.None? && (c.staleRuleIsSafe ==> !Contending(s, other)))
      && (verdict.DeadOrDifferent? ==> phase.seen[other].owner in s.crashed)
    case EndRound(_) => phase.Judging? && phase.seen == map[]
    case Finish(_) => phase.Inside?
    case Fail(_) => !phase.Leaving? && !phase.Gone?
    case RemoveOwnClaim(_, _) => phase.Leaving?
  }

  /** isChoosing || hasPriority for a claim the round has read. */
  predicate Blocks(c: Config, phase: Phase, id: ClaimId, other: ClaimId)
    requires phase.Judging? && other in phase.seen
  {
    var ticket := phase.seen[other].ticket;
    ticket.None? || Priority(c, ticket.value, other, phase.ticket, id)
  }

  function Become(s: State, id: ClaimId, phase: Phase): State
    requires id in s.entries
  {
    s.(entries := s.entries[id := s.entries[id].(phase := phase)])
  }

  ghost function Apply(c: Config, s: State, a: Action): State
    requires Enabled(c, s, a)
  {
    match a
    case Begin(id, process) => s.(entries := s.entries[id := Entry(process, Publishing)])
    case Crash(process) => s.(crashed := s.crashed + {process})
    case PublishClaim(id) =>
      Become(s, id, Choosing).(claims := s.claims[id := Claim(s.entries[id].process, None)])
    case ListForTicket(id) => Become(s, id, Numbering(EmptyScan(s.claims)))
    case ListForElection(id) => Become(s, id, Surveying(s.entries[id].phase.ticket, EmptyScan(s.claims)))
    case ReadOwner(id, other) =>
      var phase := s.entries[id].phase;
      var scan := phase.scan.(pending := phase.scan.pending - {other});
      // An owner file that is gone with its directory is skipped.
      Become(s, id, WithScan(phase, if other in s.claims
                                    then scan.(half := Some(Half(other, s.claims[other].owner)))
                                    else scan))
    case ReadTicket(id) =>
      var phase := s.entries[id].phase;
      var Half(other, owner) := phase.scan.half.value;
      // A ticket file that is missing, for whatever reason, reads as "choosing".
      var ticket := if other in s.claims then s.claims[other].ticket else None;
      Become(s, id, WithScan(phase, phase.scan.(
        half := None, seen := phase.scan.seen[other := Claim(owner, ticket)])))
    case PublishTicket(id, maximum) =>
      Become(s, id, Waiting(maximum + 1)).(
        claims := s.claims[id := s.claims[id].(ticket := Some(maximum + 1))])
    case StartJudging(id) =>
      var phase := s.entries[id].phase;
      Become(s, id, Judging(phase.ticket, phase.scan.seen, false))
    case PassOver(id, other) =>
      var phase := s.entries[id].phase;
      Become(s, id, phase.(seen := phase.seen - {other}))
    case Judge(id, other, verdict) =>
      var phase := s.entries[id].phase;
      if verdict.SameProcess?
      then Become(s, id, phase.(seen := phase.seen - {other}, blocked := true))
      else Become(s, id, phase.(seen := phase.seen - {other})).(claims := s.claims - {other})
    case EndRound(id) =>
      var phase := s.entries[id].phase;
      Become(s, id, if phase.blocked then Waiting(phase.ticket) else Inside(phase.ticket))
    case Finish(id) => Become(s, id, Leaving)
    case Fail(id) => Become(s, id, Leaving)
    case RemoveOwnClaim(id, renamed) =>
      Become(s, id, Gone).(claims := if renamed then s.claims - {id} else s.claims)
  }

  const Initial := State(map[], map[], {})

  /** A run with its actions: any interleaving of any number of entries. */
  ghost predicate Run(c: Config, states: seq<State>, actions: seq<Action>) {
    && |states| == |actions| + 1
    && states[0] == Initial
    && forall k :: 0 <= k < |actions| ==>
         Enabled(c, states[k], actions[k]) && states[k + 1] == Apply(c, states[k], actions[k])
  }

  // ---------------------------------------------------------------------------
  // The inductive invariant
  // ---------------------------------------------------------------------------

  predicate Published(s: State, id: ClaimId) {
    id in s.entries && !s.entries[id].phase.Publishing?
  }

  /** The claims a phase has read something of. */
  function Remembered(p: Phase): set<ClaimId> {
    if Scanning(p) then p.scan.seen.Keys + (if p.scan.half.Some? then {p.scan.half.value.id} else {})
    else if p.Judging? then p.seen.Keys
    else {}
  }

  ghost predicate OnlyPublished(s: State) {
    && (forall j :: j in s.claims ==> Published(s, j))
    && (forall i, j :: i in s.entries && j in Remembered(s.entries[i].phase) ==> Published(s, j))
  }

  /** A contender's directory is there and says what the contender knows of itself. */
  ghost predicate ClaimsVisible(s: State) {
    forall i :: Contending(s, i) ==>
      i in s.claims && s.claims[i] == Claim(s.entries[i].process, TicketOf(s.entries[i].phase))
  }

  /** `j` can no longer get ahead of the ticket `t` of `i`. */
  ghost predicate Behind(c: Config, s: State, i: ClaimId, t: nat, j: ClaimId)
    requires j in s.entries
  {
    var p := s.entries[j].phase;
    match TicketOf(p)
    case Some(u) => !Priority(c, u, j, t, i)
    case None =>
      p.Numbering? ==>
        || i in p.scan.pending
        || (p.scan.half.Some? && p.scan.half.value.id == i)
        || (i in p.scan.seen && p.scan.seen[i].ticket == Some(t))
  }

  /** A claim read in full still agrees with its live contender, up to a ticket published since. */
  ghost predicate SeenAgrees(s: State, seen: map<ClaimId, Claim>) {
    forall j :: j in seen && Contending(s, j) ==>
      && seen[j].owner == s.entries[j].process
      && (seen[j].ticket.Some? ==> TicketOf(s.entries[j].phase) == seen[j].ticket)
  }

  ghost predicate PhaseAgrees(s: State, p: Phase) {
    && (Scanning(p) ==>
          && SeenAgrees(s, p.scan.seen)
          && (p.scan.half.Some? && Contending(s, p.scan.half.value.id) ==>
                p.scan.half.value.owner == s.entries[p.scan.half.value.id].process))
    && (p.Judging? ==> SeenAgrees(s, p.seen))
  }

  ghost predicate ScansAgree(s: State) {
    forall i :: i in s.entries ==> PhaseAgrees(s, s.entries[i].phase)
  }

  /** What round of `i` owes to every other contender `j` before `i` may go inside. */
  ghost predicate Accounted(c: Config, s: State, i: ClaimId, j: ClaimId)
    requires i in s.entries && j in s.entries
  {
    var p := s.entries[i].phase;
    && (p.Surveying? ==>
          || j in p.scan.pending || (p.scan.half.Some? && p.scan.half.value.id == j) || j in p.scan.seen
          || Behind(c, s, i, p.ticket, j))
    && (p.Judging? ==> p.blocked || j in p.seen || Behind(c, s, i, p.ticket, j))
    && (p.Inside? ==> Behind(c, s, i, p.ticket, j))
  }

  ghost predicate RoundsAccounted(c: Config, s: State) {
    forall i, j :: Contending(s, i) && Contending(s, j) && i != j ==> Accounted(c, s, i, j)
  }

  ghost predicate Invariant(c: Config, s: State) {
    OnlyPublished(s) && ClaimsVisible(s) && ScansAgree(s) && RoundsAccounted(c, s)
  }


  /** A published entry stays published; if it still contends, it did so before, under the same
      process and with any ticket it had. */
  lemma EntryKept(c: Config, s: State, a: Action, j: ClaimId)
    requires Enabled(c, s, a) && Published(s, j)
    ensures Published(Apply(c, s, a), j)
    ensures Contending(Apply(c, s, a), j) ==>
              var q := Apply(c, s, a).entries[j];
              && Contending(s, j) && q.process == s.entries[j].process
              && (TicketOf(s.entries[j].phase).Some? ==> TicketOf(q.phase) == TicketOf(s.entries[j].phase))
  {
  }

  lemma OnlyPublishedKept(c: Config, s: State, a: Action)
    requires OnlyPublished(s) && Enabled(c, s, a)
    ensures OnlyPublished(Apply(c, s, a))
  {
    var s' := Apply(c, s, a);
    forall i, j | i in s'.entries && j in Remembered(s'.entries[i].phase)
      ensures Published(s', j)
    {
      if !(i in s.entries && j in Remembered(s.entries[i].phase)) {
        assert a.ReadOwner? && j in s.claims;
      }
      EntryKept(c, s, a, j);
    }
  }

  lemma ClaimsVisibleKept(c: Config, s: State, a: Action)
    requires c.staleRuleIsSafe
    requires Invariant(c, s) && Enabled(c, s, a)
    ensures ClaimsVisible(Apply(c, s, a))
  {
  }

  lemma ScansAgreeKept(c: Config, s: State, a: Action)
    requires c.staleRuleIsSafe
    requires Invariant(c, s) && Enabled(c, s, a)
    ensures ScansAgree(Apply(c, s, a))
  {
    var s' := Apply(c, s, a);
    forall i | i in s'.entries ensures PhaseAgrees(s', s'.entries[i].phase) {
      var p' := s'.entries[i].phase;
      if i in s.entries {
        OldMemoryAgrees(c, s, a, s.entries[i].phase);
      }
    }
  }

  /** A step of anyone leaves what a phase remembers in agreement with the contenders. */
  lemma OldMemoryAgrees(c: Config, s: State, a: Action, p: Phase)
    requires c.staleRuleIsSafe
    requires Invariant(c, s) && Enabled(c, s, a)
    requires PhaseAgrees(s, p) && forall j :: j in Remembered(p) ==> Published(s, j)
    ensures PhaseAgrees(Apply(c, s, a), p)
  {
    forall j | j in Remembered(p) {
      EntryKept(c, s, a, j);
    }
  }

  lemma RoundsAccountedKept(c: Config, s: State, a: Action)
    requires c.staleRuleIsSafe
    requires Invariant(c, s) && Enabled(c, s, a)
    ensures RoundsAccounted(c, Apply(c, s, a))
  {
    var s' := Apply(c, s, a);
    forall i, j | Contending(s', i) && Contending(s', j) && i != j
      ensures Accounted(c, s', i, j)
    {
      AccountedKept(c, s, a, i, j);
    }
  }

  lemma AccountedKept(c: Config, s: State, a: Action, i: ClaimId, j: ClaimId)
    requires c.staleRuleIsSafe
    requires Invariant(c, s) && Enabled(c, s, a)
    requires Contending(Apply(c, s, a), i) && Contending(Apply(c, s, a), j) && i != j
    ensures Accounted(c, Apply(c, s, a), i, j)
  {
    if a.Crash? || a.id != i {
      AccountedByOthers(c, s, a, i, j);
    } else {
      AccountedByOwnStep(c, s, a, i, j);
    }
  }

  lemma AccountedByOthers(c: Config, s: State, a: Action, i: ClaimId, j: ClaimId)
    requires c.staleRuleIsSafe
    requires Invariant(c, s) && Enabled(c, s, a) && (a.Crash? || a.id != i)
    requires Contending(Apply(c, s, a), i) && Contending(Apply(c, s, a), j) && i != j
    ensures Accounted(c, Apply(c, s, a), i, j)
  {
    var p := s.entries[i].phase;
    assert Apply(c, s, a).entries[i] == s.entries[i];
    if TicketOf(p).Some? && Contending(s, j) {
      assert Accounted(c, s, i, j);
      if Behind(c, s, i, p.ticket, j) { BehindKept(c, s, a, i, p.ticket, j); }
    }
  }

  lemma AccountedByOwnStep(c: Config, s: State, a: Action, i: ClaimId, j: ClaimId)
    requires c.staleRuleIsSafe
    requires Invariant(c, s) && Enabled(c, s, a) && !a.Crash? && a.id == i
    requires Contending(Apply(c, s, a), i) && Contending(Apply(c, s, a), j) && i != j
    ensures Accounted(c, Apply(c, s, a), i, j)
  {
    assert Apply(c, s, a).entries[j] == s.entries[j];
    assert Accounted(c, s, i, j);
  }

  /** Once `j` is behind the ticket of `i` it stays behind. */
  lemma BehindKept(c: Config, s: State, a: Action, i: ClaimId, t: nat, j: ClaimId)
    requires c.staleRuleIsSafe
    requires Invariant(c, s) && Enabled(c, s, a)
    requires Contending(s, i) && TicketOf(s.entries[i].phase) == Some(t) && i != j
    requires Contending(s, j) && Behind(c, s, i, t, j)
    ensures Behind(c, Apply(c, s, a), i, t, j)
  {
  }

  lemma InvariantKept(c: Config, s: State, a: Action)
    requires c.staleRuleIsSafe
    requires Invariant(c, s) && Enabled(c, s, a)
    ensures Invariant(c, Apply(c, s, a))
  {
    OnlyPublishedKept(c, s, a);
    ClaimsVisibleKept(c, s, a);
    ScansAgreeKept(c, s, a);
    RoundsAccountedKept(c, s, a);
  }

  lemma {:induction false} InvariantThroughout(c: Config, states: seq<State>, actions: seq<Action>, k: nat)
    requires c.staleRuleIsSafe
    requires Run(c, states, actions) && k < |states|
    ensures Invariant(c, states[k])
  {
    if k > 0 {
      InvariantThroughout(c, states, actions, k - 1);
      InvariantKept(c, states[k - 1], actions[k - 1]);
    }
  }

  // ---------------------------------------------------------------------------
  // Mutual exclusion, and why it needs the assumption on the stale rule
  // ---------------------------------------------------------------------------

  lemma OneInside(c: Config, s: State, i: ClaimId, j: ClaimId)
    requires StrictOrder(c.compare) && Invariant(c, s)
    requires InOperation(s, i) && InOperation(s, j)
    ensures i == j
  {
    assert i != j ==> Accounted(c, s, i, j) && Accounted(c, s, j, i);
  }

  /** At most one live entry is inside `operation()`, in every interleaving, whatever crashes. */
  lemma MutualExclusion(c: Config, states: seq<State>, actions: seq<Action>, k: nat, i: ClaimId, j: ClaimId)
    requires StrictOrder(c.compare) && c.staleRuleIsSafe
    requires Run(c, states, actions) && k < |states|
    requires InOperation(states[k], i) && InOperation(states[k], j)
    ensures i == j
  {
    InvariantThroughout(c, states, actions, k);
    OneInside(c, states[k], i, j);
  }

  ghost predicate Reachable(c: Config, s: State) {
    exists states, actions :: Run(c, states, actions) && states[|actions|] == s
  }

  /** Steps from one state to another, in which no operation ends. */
  ghost predicate Trace(c: Config, states: seq<State>, actions: seq<Action>) {
    && |states| == |actions| + 1
    && forall k :: 0 <= k < |actions| ==>
         !actions[k].Finish? && Enabled(c, states[k], actions[k]) && states[k + 1] == Apply(c, states[k], actions[k])
  }

  ghost predicate Leads(c: Config, o: State, s: State) {
    exists states: seq<State>, actions: seq<Action> :: Trace(c, states, actions) && states[0] == o && states[|actions|] == s
  }

  lemma LeadsNowhere(c: Config, s: State)
    ensures Leads(c, s, s)
  {
    assert Trace(c, [s], []);
  }

  lemma LeadsOn(c: Config, o: State, s: State, a: Action)
    requires Leads(c, o, s) && Enabled(c, s, a) && !a.Finish?
    ensures Leads(c, o, Apply(c, s, a))
  {
    hide Enabled, EnabledFor, Apply;
    var states: seq<State>, actions: seq<Action> :| Trace(c, states, actions) && states[0] == o && states[|actions|] == s;
    assert Trace(c, states + [Apply(c, s, a)], actions + [a]);
  }

  lemma LeadsFromStart(c: Config, s: State)
    requires Leads(c, Initial, s)
    ensures Reachable(c, s)
  {
    var states: seq<State>, actions: seq<Action> :| Trace(c, states, actions) && states[0] == Initial && states[|actions|] == s;
    assert Run(c, states, actions);
  }

  function Two(c: Config): (r: (ClaimId, ClaimId)) {
    if c.compare("a", "b") < 0 then ("a", "b") else ("b", "a")
  }

  lemma Reach(c: Config, o: State, s: State, a: Action, s': State)
    requires Leads(c, o, s) && Enabled(c, s, a) && !a.Finish? && Apply(c, s, a) == s'
    ensures Leads(c, o, s')
  {
    LeadsOn(c, o, s, a);
  }

  /** A scan that nobody disturbs ends with exactly the claims there are. */
  lemma UndisturbedScan(c: Config, o: State, s: State, id: ClaimId)
    requires Leads(c, o, s) && Live(s, id) && Scanning(s.entries[id].phase)
    requires
      var scan := s.entries[id].phase.scan;
      && scan.half.None? && scan.pending + scan.seen.Keys == s.claims.Keys
      && forall j :: j in scan.seen ==> s.claims[j] == scan.seen[j]
    ensures Leads(c, o, Become(s, id, WithScan(s.entries[id].phase, Scan({}, None, s.claims))))
    decreases s.entries[id].phase.scan.pending
  {
    hide Leads;
    var p := s.entries[id].phase;
    if p.scan.pending == {} {
      assert p.scan.seen == s.claims;
      assert Become(s, id, WithScan(p, Scan({}, None, s.claims))) == s;
    } else {
      var other :| other in p.scan.pending;
      LeadsOn(c, o, s, ReadOwner(id, other));
      var s1 := Apply(c, s, ReadOwner(id, other));
      LeadsOn(c, o, s1, ReadTicket(id));
      var s2 := Apply(c, s1, ReadTicket(id));
      UndisturbedScan(c, o, s2, id);
      assert Become(s2, id, WithScan(s2.entries[id].phase, Scan({}, None, s2.claims)))
          == Become(s, id, WithScan(p, Scan({}, None, s.claims)));
    }
  }

  lemma UndisturbedNumbering(c: Config, o: State, s: State, id: ClaimId)
    requires Leads(c, o, s) && Live(s, id) && s.entries[id].phase.Choosing?
    ensures Leads(c, o, Become(s, id, Numbering(Scan({}, None, s.claims))))
  {
    hide Leads;
    LeadsOn(c, o, s, ListForTicket(id));
    var s1 := Apply(c, s, ListForTicket(id));
    UndisturbedScan(c, o, s1, id);
    assert Become(s1, id, WithScan(s1.entries[id].phase, Scan({}, None, s1.claims)))
        == Become(s, id, Numbering(Scan({}, None, s.claims)));
  }

  lemma UndisturbedSurvey(c: Config, o: State, s: State, id: ClaimId)
    requires Leads(c, o, s) && Live(s, id) && s.entries[id].phase.Waiting?
    ensures Leads(c, o, Become(s, id, Judging(s.entries[id].phase.ticket, s.claims, false)))
  {
    hide Leads;
    LeadsOn(c, o, s, ListForElection(id));
    var s1 := Apply(c, s, ListForElection(id));
    UndisturbedScan(c, o, s1, id);
    var s2 := Become(s1, id, WithScan(s1.entries[id].phase, Scan({}, None, s1.claims)));
    LeadsOn(c, o, s2, StartJudging(id));
    assert Apply(c, s2, StartJudging(id)) == Become(s, id, Judging(s.entries[id].phase.ticket, s.claims, false));
  }

  /** A newcomer that nobody disturbs: claim published, claims scanned. */
  function Joined(s: State, id: ClaimId, process: Process): State {
    var claims := s.claims[id := Claim(process, None)];
    State(claims, s.entries[id := Entry(process, Numbering(Scan({}, None, claims)))], s.crashed)
  }

  lemma UndisturbedJoin(c: Config, o: State, s: State, id: ClaimId, process: Process)
    requires Leads(c, o, s) && id !in s.entries && process !in s.crashed
    ensures Leads(c, o, Joined(s, id, process))
  {
    hide Leads;
    LeadsOn(c, o, s, Begin(id, process));
    var s1 := Apply(c, s, Begin(id, process));
    LeadsOn(c, o, s1, PublishClaim(id));
    var s2 := Apply(c, s1, PublishClaim(id));
    UndisturbedNumbering(c, o, s2, id);
    assert Become(s2, id, Numbering(Scan({}, None, s2.claims))) == Joined(s, id, process);
  }

  /** The ticket after `maximum` is published and an election round read in full. */
  function Surveyed(s: State, id: ClaimId, maximum: nat): State
    requires id in s.entries
  {
    var claims := s.claims[id := Claim(s.entries[id].process, Some(maximum + 1))];
    Become(s, id, Judging(maximum + 1, claims, false)).(claims := claims)
  }

  function Ticketed(s: State, id: ClaimId, maximum: nat): State
    requires id in s.entries
  {
    Become(s, id, Waiting(maximum + 1)).(claims := s.claims[id := Claim(s.entries[id].process, Some(maximum + 1))])
  }

  lemma PublishesTicket(c: Config, o: State, s: State, id: ClaimId, maximum: nat)
    requires Leads(c, o, s) && Live(s, id) && s.entries[id].phase.Numbering?
    requires s.entries[id].phase.scan.pending == {} && s.entries[id].phase.scan.half.None?
    requires id in s.claims && s.claims[id].owner == s.entries[id].process
    requires IsMaximumTicket(s.entries[id].phase.scan.seen, maximum)
    ensures Leads(c, o, Ticketed(s, id, maximum))
  {
    hide IsMaximumTicket, Leads;
    Reach(c, o, s, PublishTicket(id, maximum), Ticketed(s, id, maximum));
  }

  lemma UndisturbedTicket(c: Config, o: State, s: State, id: ClaimId, maximum: nat)
    requires Leads(c, o, s) && Live(s, id) && s.entries[id].phase.Numbering?
    requires s.entries[id].phase.scan.pending == {} && s.entries[id].phase.scan.half.None?
    requires id in s.claims && s.claims[id].owner == s.entries[id].process
    requires IsMaximumTicket(s.entries[id].phase.scan.seen, maximum)
    ensures Leads(c, o, Surveyed(s, id, maximum))
  {
    PublishesTicket(c, o, s, id, maximum);
    hide Leads, IsMaximumTicket;
    var t := Ticketed(s, id, maximum);
    UndisturbedSurvey(c, o, t, id);
    assert Become(t, id, Judging(maximum + 1, t.claims, false)) == Surveyed(s, id, maximum);
  }

  /** A round that has read nothing but the own claim. */
  lemma WinsAlone(c: Config, o: State, s: State, id: ClaimId)
    requires Leads(c, o, s) && Live(s, id) && s.entries[id].phase.Judging?
    requires !s.entries[id].phase.blocked && s.entries[id].phase.seen.Keys == {id}
    ensures Leads(c, o, Become(s, id, Inside(s.entries[id].phase.ticket)))
  {
    hide Leads;
    var p := s.entries[id].phase;
    assert p.seen - {id} == map[];
    var t := Become(s, id, p.(seen := map[]));
    Reach(c, o, s, PassOver(id, id), t);
    Reach(c, o, t, EndRound(id), Become(s, id, Inside(p.ticket)));
  }

  /** An entry that has the guard to itself. */
  lemma EntersAlone(c: Config, o: State, s: State, id: ClaimId)
    requires Leads(c, o, s) && Live(s, id) && s.entries[id].phase.Publishing? && s.claims == map[]
    ensures Leads(c, o, Become(s, id, Inside(1)).(claims := map[id := Claim(s.entries[id].process, Some(1))]))
  {
    hide Leads;
    var own, ticket := map[id := Claim(s.entries[id].process, None)], map[id := Claim(s.entries[id].process, Some(1))];
    Reach(c, o, s, PublishClaim(id), Become(s, id, Choosing).(claims := own));
    UndisturbedNumbering(c, o, Become(s, id, Choosing).(claims := own), id);
    var t := Become(s, id, Numbering(Scan({}, None, own))).(claims := own);
    assert Become(Become(s, id, Choosing).(claims := own), id, Numbering(Scan({}, None, own))) == t;
    TicketAlone(c, o, t, id);
    assert own[id := Claim(s.entries[id].process, Some(1))] == ticket;
    assert Become(t, id, Inside(1)).(claims := ticket) == Become(s, id, Inside(1)).(claims := ticket);
  }

  lemma TicketAlone(c: Config, o: State, t: State, id: ClaimId)
    requires Leads(c, o, t) && Live(t, id) && t.claims == map[id := Claim(t.entries[id].process, None)]
    requires t.entries[id].phase == Numbering(Scan({}, None, t.claims))
    ensures Leads(c, o, Become(t, id, Inside(1)).(claims := t.claims[id := Claim(t.entries[id].process, Some(1))]))
  {
    hide Leads;
    UndisturbedTicket(c, o, t, id, 0);
    var u := Surveyed(t, id, 0);
    WinsAlone(c, o, u, id);
    assert Become(u, id, Inside(1)) == Become(t, id, Inside(1)).(claims := t.claims[id := Claim(t.entries[id].process, Some(1))]);
  }

  /** A round that has also read the claim of a dead process with an earlier ticket. */
  lemma RemovesTheDead(c: Config, o: State, s: State, id: ClaimId, dead: ClaimId)
    requires Leads(c, o, s) && Live(s, id) && s.entries[id].phase.Judging?
    requires !s.entries[id].phase.blocked && s.entries[id].phase.seen.Keys == {id, dead} && dead != id
    requires
      var claim := s.entries[id].phase.seen[dead];
      claim.owner in s.crashed && claim.ticket.Some? && claim.ticket.value < s.entries[id].phase.ticket
    ensures Leads(c, o, Become(s, id, Inside(s.entries[id].phase.ticket)).(claims := s.claims - {dead}))
  {
    var p := s.entries[id].phase;
    var t := Become(s, id, p.(seen := p.seen - {dead})).(claims := s.claims - {dead});
    Reach(c, o, s, Judge(id, dead, DeadOrDifferent), t);
    WinsAlone(c, o, t, id);
    assert Become(t, id, Inside(p.ticket)) == Become(s, id, Inside(p.ticket)).(claims := s.claims - {dead});
  }

  /** `x` scans an empty directory; before it publishes its ticket, `y` takes ticket 1 and, in its
      election round, reads `x` without a ticket. */
  function TrapSet(x: ClaimId, y: ClaimId): State {
    Surveyed(Joined(Joined(Initial, x, 0), y, 1), y, 0)
  }

  lemma ReachTrapSet(c: Config, x: ClaimId, y: ClaimId)
    requires x != y
    ensures Leads(c, Initial, TrapSet(x, y))
  {
    LeadsNowhere(c, Initial);
    UndisturbedJoin(c, Initial, Initial, x, 0);
    UndisturbedJoin(c, Initial, Joined(Initial, x, 0), y, 1);
    UndisturbedTicket(c, Initial, Joined(Joined(Initial, x, 0), y, 1), y, 0);
  }

  /** Then `x` publishes ticket 1 as well, wins the tie and goes inside. */
  function TrapSprung(x: ClaimId, y: ClaimId): State {
    Become(Surveyed(TrapSet(x, y), x, 0), x, Inside(1))
  }

  lemma WinTie(c: Config, o: State, s: State, x: ClaimId, y: ClaimId)
    requires x != y && c.compare(y, x) > 0
    requires Leads(c, o, s) && Live(s, x)
    requires s.entries[x].phase == Judging(1, map[x := Claim(0, Some(1)), y := Claim(1, Some(1))], false)
    ensures Leads(c, o, Become(s, x, Inside(1)))
  {
    hide Leads;
    var other := map[y := Claim(1, Some(1))];
    assert s.entries[x].phase.seen - {x} == other;
    var s1 := Become(s, x, Judging(1, other, false));
    Reach(c, o, s, PassOver(x, x), s1);
    assert other - {y} == map[];
    var s2 := Become(s1, x, Judging(1, map[], false));
    Reach(c, o, s1, PassOver(x, y), s2);
    Reach(c, o, s2, EndRound(x), Become(s2, x, Inside(1)));
    assert Become(s2, x, Inside(1)) == Become(s, x, Inside(1));
  }

  lemma ReachTrapSprung(c: Config, x: ClaimId, y: ClaimId)
    requires x != y && c.compare(y, x) > 0
    ensures Leads(c, Initial, TrapSprung(x, y))
  {
    ReachTrapSet(c, x, y);
    UndisturbedTicket(c, Initial, TrapSet(x, y), x, 0);
    WinTie(c, Initial, Surveyed(TrapSet(x, y), x, 0), x, y);
  }

  /** The rest of the round of `y` when it takes the choosing claim of `x` for an abandoned one. */
  lemma RemoveAsStale(c: Config, o: State, s: State, x: ClaimId, y: ClaimId)
    requires x != y && !c.staleRuleIsSafe
    requires Leads(c, o, s) && Live(s, y)
    requires s.entries[y].phase == Judging(1, map[x := Claim(0, None), y := Claim(1, Some(1))], false)
    ensures Leads(c, o, Become(s, y, Inside(1)).(claims := s.claims - {x}))
  {
    hide Leads;
    var rest := map[x := Claim(0, None)];
    assert s.entries[y].phase.seen - {y} == rest;
    var s1 := Become(s, y, Judging(1, rest, false));
    Reach(c, o, s, PassOver(y, y), s1);
    assert rest - {x} == map[];
    var s2 := Become(s1, y, Judging(1, map[], false)).(claims := s.claims - {x});
    Reach(c, o, s1, Judge(y, x, Stale), s2);
    Reach(c, o, s2, EndRound(y), Become(s2, y, Inside(1)));
    assert Become(s2, y, Inside(1)) == Become(s, y, Inside(1)).(claims := s.claims - {x});
  }

  /** So both are inside. */
  lemma BothInside(c: Config, x: ClaimId, y: ClaimId)
    requires x != y && c.compare(y, x) > 0 && !c.staleRuleIsSafe
    ensures Leads(c, Initial, Become(TrapSprung(x, y), y, Inside(1)).(claims := TrapSprung(x, y).claims - {x}))
  {
    ReachTrapSprung(c, x, y);
    RemoveAsStale(c, Initial, TrapSprung(x, y), x, y);
  }

  /** The two-second rule judges by a ticket read earlier: unrestricted, it removes the claim of
      a contender that has since gone inside, and a second one follows it in. */
  lemma StaleRuleAdmitsTwo(c: Config)
    requires StrictOrder(c.compare) && !c.staleRuleIsSafe
    ensures exists s, i, j :: Reachable(c, s) && i != j && InOperation(s, i) && InOperation(s, j)
  {
    var (x, y) := Two(c);
    BothInside(c, x, y);
    var s := TrapSprung(x, y);
    var s' := Become(s, y, Inside(1)).(claims := s.claims - {x});
    LeadsFromStart(c, s');
    assert InOperation(s', x) && InOperation(s', y);
  }

  /** The guard excludes in all its runs exactly when the stale rule spares live contenders. */
  lemma ExclusionNeedsSafeStaleRule(c: Config)
    requires StrictOrder(c.compare)
    ensures c.staleRuleIsSafe <==>
              forall s, i, j :: Reachable(c, s) && InOperation(s, i) && InOperation(s, j) ==> i == j
  {
    if c.staleRuleIsSafe {
      forall s, i, j | Reachable(c, s) && InOperation(s, i) && InOperation(s, j) ensures i == j {
        var states, actions :| Run(c, states, actions) && states[|actions|] == s;
        MutualExclusion(c, states, actions, |actions|, i, j);
      }
    } else {
      StaleRuleAdmitsTwo(c);
    }
  }

  // ---------------------------------------------------------------------------
  // Somebody is elected
  // ---------------------------------------------------------------------------

  /** First by ticket, then by claim id. */
  predicate Before(c: Config, t: nat, i: ClaimId, u: nat, j: ClaimId) {
    t < u || (t == u && c.compare(i, j) < 0)
  }

  /** The own claim, that of a dead process, or a later one. */
  predicate Passable(c: Config, s: State, i: ClaimId, t: nat, j: ClaimId, claim: Claim) {
    j == i || claim.owner in s.crashed || (claim.ticket.Some? && Before(c, t, i, claim.ticket.value, j))
  }

  /** The rest of a round ends inside when every claim it has read is passable; only dead claims go. */
  lemma PassesAll(c: Config, o: State, s: State, i: ClaimId) returns (s': State)
    requires StrictOrder(c.compare) && Leads(c, o, s) && Live(s, i)
    requires s.entries[i].phase.Judging? && !s.entries[i].phase.blocked
    requires
      var p := s.entries[i].phase;
      forall j :: j in p.seen ==> Passable(c, s, i, p.ticket, j, p.seen[j])
    ensures Leads(c, o, s') && s' == Become(s, i, Inside(s.entries[i].phase.ticket)).(claims := s'.claims)
    ensures s'.claims.Keys <= s.claims.Keys && forall j :: j in s'.claims ==> s'.claims[j] == s.claims[j]
    ensures
      var seen := s.entries[i].phase.seen;
      forall j :: j in s.claims && j !in s'.claims ==> j in seen && j != i && seen[j].owner in s.crashed
    decreases s.entries[i].phase.seen.Keys
  {
    hide Leads;
    var p := s.entries[i].phase;
    if p.seen == map[] {
      s' := Become(s, i, Inside(p.ticket));
      Reach(c, o, s, EndRound(i), s');
    } else {
      var j :| j in p.seen;
      var t := PassesOne(c, o, s, i, j);
      s' := PassesAll(c, o, t, i);
    }
  }

  lemma PassesOne(c: Config, o: State, s: State, i: ClaimId, j: ClaimId) returns (t: State)
    requires StrictOrder(c.compare) && Leads(c, o, s) && Live(s, i)
    requires s.entries[i].phase.Judging? && j in s.entries[i].phase.seen
    requires Passable(c, s, i, s.entries[i].phase.ticket, j, s.entries[i].phase.seen[j])
    ensures Leads(c, o, t)
    ensures
      var p := s.entries[i].phase;
      && t == Become(s, i, p.(seen := p.seen - {j})).(claims := t.claims)
      && (t.claims == s.claims || (t.claims == s.claims - {j} && j != i && p.seen[j].owner in s.crashed))
  {
    hide Leads, StrictOrder;
    var p := s.entries[i].phase;
    t := Become(s, i, p.(seen := p.seen - {j}));
    var u := p.seen[j].ticket;
    if j != i && u.Some? { NotBothBefore(c, p.ticket, i, j, u); }
    if j == i || (u.Some? && !Before(c, u.value, j, p.ticket, i)) {
      Reach(c, o, s, PassOver(i, j), t);
    } else {
      t := t.(claims := s.claims - {j});
      Reach(c, o, s, Judge(i, j, DeadOrDifferent), t);
    }
  }

  lemma NotBothBefore(c: Config, t: nat, i: ClaimId, j: ClaimId, u: Option<nat>)
    requires StrictOrder(c.compare) && i != j && u.Some?
    ensures !(Before(c, t, i, u.value, j) && Before(c, u.value, j, t, i))
  {
  }

  /** A waiting contender that comes before every other claim gets inside by its own steps alone. */
  lemma FirstIsElected(c: Config, o: State, s: State, i: ClaimId)
    requires StrictOrder(c.compare) && Leads(c, o, s) && Live(s, i) && s.entries[i].phase.Waiting?
    requires
      forall j :: j in s.claims && j != i ==>
        && s.claims[j].ticket.Some? && Before(c, s.entries[i].phase.ticket, i, s.claims[j].ticket.value, j)
        && s.claims[j].owner !in s.crashed
    ensures Leads(c, o, Become(s, i, Inside(s.entries[i].phase.ticket)))
  {
    hide Leads, StrictOrder, Before;
    UndisturbedSurvey(c, o, s, i);
    var ticket := s.entries[i].phase.ticket;
    var t := Become(s, i, Judging(ticket, s.claims, false));
    var u := PassesAll(c, o, t, i);
    assert u.claims == s.claims;
    assert u == Become(s, i, Inside(ticket));
  }

  /** Conversely whoever is inside comes before every other live contender with a ticket. */
  lemma InsideIsFirst(c: Config, s: State, i: ClaimId, j: ClaimId)
    requires StrictOrder(c.compare) && c.staleRuleIsSafe && Reachable(c, s)
    requires InOperation(s, i) && Contending(s, j) && j != i && TicketOf(s.entries[j].phase).Some?
    ensures Before(c, s.entries[i].phase.ticket, i, TicketOf(s.entries[j].phase).value, j)
  {
    var states, actions :| Run(c, states, actions) && states[|actions|] == s;
    InvariantThroughout(c, states, actions, |actions|);
    assert Accounted(c, s, i, j);
  }

  /** A scan reads what is left of it. */
  lemma FinishesScan(c: Config, o: State, s: State, i: ClaimId) returns (s': State)
    requires Leads(c, o, s) && Live(s, i) && Scanning(s.entries[i].phase)
    ensures Leads(c, o, s') && i in s'.entries && Scanning(s'.entries[i].phase)
    ensures
      var scan := s'.entries[i].phase.scan;
      && scan.pending == {} && scan.half.None? && s' == Become(s, i, WithScan(s.entries[i].phase, scan))
    decreases s.entries[i].phase.scan.pending, s.entries[i].phase.scan.half.Some?
  {
    hide Leads;
    var scan := s.entries[i].phase.scan;
    if scan.half.Some? {
      LeadsOn(c, o, s, ReadTicket(i));
      s' := FinishesScan(c, o, Apply(c, s, ReadTicket(i)), i);
    } else if scan.pending != {} {
      var j :| j in scan.pending;
      LeadsOn(c, o, s, ReadOwner(i, j));
      s' := FinishesScan(c, o, Apply(c, s, ReadOwner(i, j)), i);
    } else {
      s' := s;
      assert Become(s, i, WithScan(s.entries[i].phase, scan)) == s;
    }
  }

  /** A round judges every claim that blocks it as live, and ends. */
  lemma FinishesRound(c: Config, o: State, s: State, i: ClaimId) returns (s': State)
    requires Leads(c, o, s) && Live(s, i) && s.entries[i].phase.Judging?
    ensures Leads(c, o, s')
    ensures
      var t := s.entries[i].phase.ticket;
      s' == Become(s, i, Waiting(t)) || s' == Become(s, i, Inside(t))
    decreases s.entries[i].phase.seen.Keys
  {
    hide Leads;
    var p := s.entries[i].phase;
    if p.seen == map[] {
      s' := Apply(c, s, EndRound(i));
      LeadsOn(c, o, s, EndRound(i));
    } else {
      var j :| j in p.seen;
      var a := if j == i || !Blocks(c, p, i, j) then PassOver(i, j) else Judge(i, j, SameProcess);
      LeadsOn(c, o, s, a);
      s' := FinishesRound(c, o, Apply(c, s, a), i);
    }
  }

  function Greatest(seen: map<ClaimId, Claim>, ids: set<ClaimId>): (n: nat)
    requires ids <= seen.Keys
    ensures forall j :: j in ids && seen[j].ticket.Some? ==> seen[j].ticket.value <= n
    ensures n == 0 || exists j :: j in ids && seen[j].ticket == Some(n)
  {
    if ids == {} then 0
    else
      var j :| j in ids;
      var rest := Greatest(seen, ids - {j});
      if seen[j].ticket.Some? && seen[j].ticket.value > rest then seen[j].ticket.value else rest
  }

  /** Waiting for the next round, or inside. */
  predicate AtRest(s: State, i: ClaimId) {
    i in s.entries && (s.entries[i].phase.Waiting? || s.entries[i].phase.Inside?)
  }

  /** Only `i` has moved, and only its own claim has changed. */
  predicate OnlyMoved(s: State, s': State, i: ClaimId) {
    && i in s.entries && i in s'.entries && s'.entries == s.entries[i := s'.entries[i]] && s'.crashed == s.crashed
    && s'.entries[i].process == s.entries[i].process
    && s'.claims.Keys == s.claims.Keys
    && forall j :: j in s.claims ==> s'.claims[j].owner == s.claims[j].owner
  }

  lemma DrawsTicket(c: Config, o: State, s: State, i: ClaimId) returns (s': State)
    requires Leads(c, o, s) && Live(s, i) && s.entries[i].phase.Numbering? && i in s.claims
    ensures Leads(c, o, s') && OnlyMoved(s, s', i) && AtRest(s', i)
  {
    hide Leads;
    var t := FinishesScan(c, o, s, i);
    var seen := t.entries[i].phase.scan.seen;
    var maximum := Greatest(seen, seen.Keys);
    assert IsMaximumTicket(seen, maximum);
    LeadsOn(c, o, t, PublishTicket(i, maximum));
    s' := Apply(c, t, PublishTicket(i, maximum));
  }

  /** Every contender comes to rest by its own steps. */
  lemma ComesToRest(c: Config, o: State, s: State, i: ClaimId) returns (s': State)
    requires Leads(c, o, s) && Contending(s, i) && i in s.claims
    ensures Leads(c, o, s') && OnlyMoved(s, s', i) && AtRest(s', i)
  {
    hide Leads;
    var p := s.entries[i].phase;
    if AtRest(s, i) {
      s' := s;
      assert s.entries[i := s.entries[i]] == s.entries;
    } else if p.Choosing? {
      LeadsOn(c, o, s, ListForTicket(i));
      s' := DrawsTicket(c, o, Apply(c, s, ListForTicket(i)), i);
    } else if p.Numbering? {
      s' := DrawsTicket(c, o, s, i);
    } else if p.Surveying? {
      var t := FinishesScan(c, o, s, i);
      LeadsOn(c, o, t, StartJudging(i));
      s' := FinishesRound(c, o, Apply(c, t, StartJudging(i)), i);
    } else {
      s' := FinishesRound(c, o, s, i);
    }
  }

  /** Every claim is that of a live contender, or its process has died. */
  ghost predicate NoClaimLeftBehind(s: State) {
    forall j :: j in s.claims ==> Contending(s, j) || s.claims[j].owner in s.crashed
  }

  function Moving(s: State): set<ClaimId> {
    set i | i in s.entries && Contending(s, i) && !AtRest(s, i)
  }

  /** The contenders are who they were, and no claim is left behind. */
  ghost predicate SameContenders(s: State, s': State) {
    (forall j :: Contending(s', j) <==> Contending(s, j)) && NoClaimLeftBehind(s')
  }

  lemma {:induction false} AllComeToRest(c: Config, o: State, s: State) returns (s': State)
    requires StrictOrder(c.compare) && c.staleRuleIsSafe && Reachable(c, o)
    requires Leads(c, o, s) && NoClaimLeftBehind(s)
    ensures Leads(c, o, s') && SameContenders(s, s') && Moving(s') == {}
    decreases Moving(s)
  {
    if Moving(s) == {} {
      s' := s;
    } else {
      var i :| i in Moving(s);
      LeadsKeepsInvariant(c, o, s);
      var t := ComesToRest(c, o, s, i);
      hide Leads;
      RestingChangesNobody(s, t, i);
      s' := AllComeToRest(c, o, t);
    }
  }

  lemma RestingChangesNobody(s: State, t: State, i: ClaimId)
    requires Contending(s, i) && OnlyMoved(s, t, i) && AtRest(t, i) && NoClaimLeftBehind(s)
    ensures SameContenders(s, t) && Moving(t) == Moving(s) - {i}
  {
    forall j ensures Contending(t, j) <==> Contending(s, j) {}
  }

  lemma LeadsKeepsInvariant(c: Config, o: State, s: State)
    requires StrictOrder(c.compare) && c.staleRuleIsSafe && Reachable(c, o) && Leads(c, o, s)
    ensures Invariant(c, s)
  {
    var before, done :| Run(c, before, done) && before[|done|] == o;
    var states: seq<State>, actions: seq<Action> :| Trace(c, states, actions) && states[0] == o && states[|actions|] == s;
    InvariantThroughout(c, before, done, |done|);
    TraceKeepsInvariant(c, states, actions, |actions|);
  }

  lemma {:induction false} TraceKeepsInvariant(c: Config, states: seq<State>, actions: seq<Action>, k: nat)
    requires StrictOrder(c.compare) && c.staleRuleIsSafe && Trace(c, states, actions) && Invariant(c, states[0]) && k < |states|
    ensures Invariant(c, states[k])
  {
    if k > 0 {
      TraceKeepsInvariant(c, states, actions, k - 1);
      InvariantKept(c, states[k - 1], actions[k - 1]);
    }
  }

  ghost predicate TotalOrder(compare: (ClaimId, ClaimId) -> int) {
    StrictOrder(compare) && forall a, b, d :: compare(a, b) < 0 && compare(b, d) < 0 ==> compare(a, d) < 0
  }

  /** One of some waiting contenders comes before the others. */
  lemma {:induction false} OneIsFirst(c: Config, s: State, ids: set<ClaimId>) returns (i: ClaimId)
    requires TotalOrder(c.compare) && ids != {}
    requires forall j :: j in ids ==> j in s.entries && s.entries[j].phase.Waiting?
    ensures i in ids && forall j :: j in ids && j != i ==> Before(c, s.entries[i].phase.ticket, i, s.entries[j].phase.ticket, j)
    decreases ids
  {
    var k :| k in ids;
    if ids == {k} {
      i := k;
    } else {
      i := OneIsFirst(c, s, ids - {k});
      if Before(c, s.entries[k].phase.ticket, k, s.entries[i].phase.ticket, i) { i := k; }
    }
  }

  /** From every reachable state with a live contender whose claims are those of live contenders or of
      dead processes, some live contender gets inside, though nobody crashes or gives up. */
  lemma SomebodyGetsInside(c: Config, s: State, i: ClaimId) returns (s': State, winner: ClaimId)
    requires TotalOrder(c.compare) && c.staleRuleIsSafe && Reachable(c, s)
    requires Contending(s, i) && NoClaimLeftBehind(s)
    ensures Leads(c, s, s') && InOperation(s', winner)
    ensures forall j :: Contending(s, j) ==> Contending(s', j)
  {
    LeadsNowhere(c, s);
    var t := AllComeToRest(c, s, s);
    LeadsKeepsInvariant(c, s, t);
    hide Leads, Reachable, Invariant;
    s', winner := OneOfTheRestingGetsInside(c, s, t, i);
  }

  lemma OneOfTheRestingGetsInside(c: Config, o: State, t: State, i: ClaimId) returns (s': State, winner: ClaimId)
    requires TotalOrder(c.compare) && Leads(c, o, t) && Invariant(c, t) && NoClaimLeftBehind(t)
    requires Contending(t, i) && Moving(t) == {}
    ensures Leads(c, o, s') && InOperation(s', winner)
    ensures forall j :: Contending(t, j) ==> Contending(s', j)
  {
    hide Leads, Invariant;
    if w :| InOperation(t, w) {
      s', winner := t, w;
    } else {
      var ids := set j | j in t.entries && Contending(t, j);
      assert i in ids;
      forall j | j in ids ensures t.entries[j].phase.Waiting? { assert j !in Moving(t) && !InOperation(t, j); }
      winner := OneIsFirst(c, t, ids);
      s' := LeastGetsInside(c, o, t, winner);
    }
  }

  lemma LeastGetsInside(c: Config, o: State, t: State, i: ClaimId) returns (s': State)
    requires StrictOrder(c.compare) && Leads(c, o, t) && Invariant(c, t) && NoClaimLeftBehind(t)
    requires Contending(t, i) && t.entries[i].phase.Waiting?
    requires forall j :: Contending(t, j) ==> t.entries[j].phase.Waiting?
    requires forall j :: Contending(t, j) && j != i ==> Before(c, t.entries[i].phase.ticket, i, t.entries[j].phase.ticket, j)
    ensures Leads(c, o, s') && InOperation(s', i) && forall j :: Contending(t, j) ==> Contending(s', j)
  {
    UndisturbedSurvey(c, o, t, i);
    hide Leads, StrictOrder, Before;
    var ticket := t.entries[i].phase.ticket;
    var u := Become(t, i, Judging(ticket, t.claims, false));
    forall j | j in t.claims ensures Passable(c, u, i, ticket, j, t.claims[j]) {
      if Contending(t, j) { assert t.claims[j] == Claim(t.entries[j].process, TicketOf(t.entries[j].phase)); }
    }
    s' := PassesAll(c, o, u, i);
  }
}
