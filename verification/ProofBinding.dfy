/**
 bindProductProofStrategies: every declared validation obligation gets the proof
 strategy of the goal criterion its own criterion was refined from.
 */
module ProofBinding {
  import opened Options
  import opened Sorting

  type Criterion = nat
  type Obligation = string
  type Reference = string

  /** A planned criterion and the criterion it refines. */
  datatype Refinement = Refinement(criterion: Criterion, source: Criterion)

  datatype Validation = Validation(
    obligation: Obligation, criterion: Criterion, evidence: Option<seq<Reference>>, strategy: string)

  datatype Integration = Integration(obligation: Obligation, criteria: seq<Criterion>, strategy: string)

  datatype Unit = Unit(refinements: seq<Refinement>, validation: seq<Validation>, integration: Option<Integration>)

  /** `selector` is what the selector digest is taken of. */
  datatype Binding = Binding(criterion: Criterion, obligation: Obligation, selector: Option<seq<Reference>>)

  datatype Strategy = Strategy(id: string, binding: Binding)

  // ---------------------------------------------------------------------------
  // The walk to the goal criterion
  // ---------------------------------------------------------------------------

  /** The criterion `n` refinements above `c`, while the chain stays in the map. */
  function Source(sources: map<Criterion, Criterion>, c: Criterion, n: nat): Option<Criterion> {
    if n == 0 then Some(c)
    else
      var below := Source(sources, c, n - 1);
      if below.Some? && below.value in sources then Some(sources[below.value]) else None
  }

  /** `g` is the first goal criterion on the chain of `c`, `n` refinements up. */
  predicate FirstGoalAt(goal: set<Criterion>, sources: map<Criterion, Criterion>, c: Criterion, n: nat, g: Criterion) {
    && g in goal && Source(sources, c, n) == Some(g)
    && forall m: nat :: m < n ==> Source(sources, c, m).Some? && Source(sources, c, m).value !in goal
  }

  /** The first `n` criteria of the chain are no goals, and then it leaves the map or closes a cycle. */
  predicate GoesAstrayAt(goal: set<Criterion>, sources: map<Criterion, Criterion>, c: Criterion, n: nat) {
    && (forall m: nat :: m < n ==> Source(sources, c, m).Some? && Source(sources, c, m).value !in goal)
    && (Source(sources, c, n).None? || exists m: nat :: m < n && Source(sources, c, n) == Source(sources, c, m))
  }

  ghost predicate GoesAstray(goal: set<Criterion>, sources: map<Criterion, Criterion>, c: Criterion) {
    exists n: nat :: GoesAstrayAt(goal, sources, c, n)
  }

  ghost predicate FirstGoal(goal: set<Criterion>, sources: map<Criterion, Criterion>, c: Criterion, g: Criterion) {
    exists n: nat :: FirstGoalAt(goal, sources, c, n, g)
  }

  lemma {:induction false} RepetitionIsPeriodic(sources: map<Criterion, Criterion>, c: Criterion, m: nat, n: nat, k: nat)
    requires Source(sources, c, m) == Source(sources, c, n)
    ensures Source(sources, c, m + k) == Source(sources, c, n + k)
  {
    if k > 0 { RepetitionIsPeriodic(sources, c, m, n, k - 1); }
  }

  lemma {:induction false} GoneStaysGone(sources: map<Criterion, Criterion>, c: Criterion, n: nat, k: nat)
    requires Source(sources, c, n).None?
    ensures k >= n ==> Source(sources, c, k).None?
  {
    if k > n { GoneStaysGone(sources, c, n, k - 1); }
  }

  /** A chain that closes a cycle among criteria that are no goals meets no goal at all. */
  lemma {:induction false} CycleMeetsNoGoal(goal: set<Criterion>, sources: map<Criterion, Criterion>, c: Criterion, m: nat, n: nat, k: nat)
    requires m < n && Source(sources, c, n) == Source(sources, c, m)
    requires forall i: nat :: i < n ==> Source(sources, c, i).Some? && Source(sources, c, i).value !in goal
    ensures Source(sources, c, k).Some? && Source(sources, c, k).value !in goal
    decreases k
  {
    if k >= n {
      CycleMeetsNoGoal(goal, sources, c, m, n, k - (n - m));
      RepetitionIsPeriodic(sources, c, m, n, k - n);
    }
  }

  /** A chain meets a first goal or goes astray, never both. */
  lemma AstrayMeetsNoGoal(goal: set<Criterion>, sources: map<Criterion, Criterion>, c: Criterion, g: Criterion)
    requires GoesAstray(goal, sources, c)
    ensures !FirstGoal(goal, sources, c, g)
  {
    if FirstGoal(goal, sources, c, g) {
      var n: nat :| GoesAstrayAt(goal, sources, c, n);
      var k: nat :| FirstGoalAt(goal, sources, c, k, g);
      if Source(sources, c, n).None? {
        GoneStaysGone(sources, c, n, k);
      } else {
        var m: nat :| m < n && Source(sources, c, n) == Source(sources, c, m);
        CycleMeetsNoGoal(goal, sources, c, m, n, k);
      }
    }
  }

  lemma FirstGoalIsUnique(goal: set<Criterion>, sources: map<Criterion, Criterion>, c: Criterion, g: Criterion, h: Criterion)
    requires FirstGoal(goal, sources, c, g) && FirstGoal(goal, sources, c, h)
    ensures g == h
  {
    var m: nat :| FirstGoalAt(goal, sources, c, m, g);
    var n: nat :| FirstGoalAt(goal, sources, c, n, h);
    assert m < n ==> Source(sources, c, m).Some?;
    assert n < m ==> Source(sources, c, n).Some?;
  }

  /** The goal criterion of `c`, if its chain meets one. */
  ghost function RootOf(goal: set<Criterion>, sources: map<Criterion, Criterion>, c: Criterion): Option<Criterion> {
    if exists g :: FirstGoal(goal, sources, c, g) then
      var g :| FirstGoal(goal, sources, c, g);
      Some(g)
    else None
  }

  lemma WalkFindsRoot(goal: set<Criterion>, sources: map<Criterion, Criterion>, c: Criterion, r: Option<Criterion>)
    requires r.Some? ==> FirstGoal(goal, sources, c, r.value)
    requires r.None? ==> GoesAstray(goal, sources, c)
    ensures r == RootOf(goal, sources, c) && (r.Some? ==> !GoesAstray(goal, sources, c))
  {
    if r.Some? && GoesAstray(goal, sources, c) { AstrayMeetsNoGoal(goal, sources, c, r.value); }
    forall g: Criterion | FirstGoal(goal, sources, c, g) ensures r == Some(g) {
      if r.None? { AstrayMeetsNoGoal(goal, sources, c, g); } else { FirstGoalIsUnique(goal, sources, c, g, r.value); }
    }
  }

  /** `path` is the chain of `c` so far, without a goal criterion. */
  ghost predicate Walked(goal: set<Criterion>, sources: map<Criterion, Criterion>, c: Criterion, path: seq<Criterion>) {
    forall m: nat :: m < |path| ==> Source(sources, c, m) == Some(path[m]) && path[m] !in goal
  }

  method RootCriterion(goal: set<Criterion>, sources: map<Criterion, Criterion>, criterion: Criterion)
    returns (r: Option<Criterion>)
    ensures r.Some? ==> FirstGoal(goal, sources, criterion, r.value)
    ensures r.None? <==> GoesAstray(goal, sources, criterion)
    ensures r == RootOf(goal, sources, criterion)
  {
    var visited: set<Criterion> := {};
    var current := criterion;
    ghost var path: seq<Criterion> := [];
    while current !in goal
      invariant Walked(goal, sources, criterion, path) && Source(sources, criterion, |path|) == Some(current)
      invariant forall v :: v in visited <==> v in path
      invariant visited <= sources.Keys
      decreases sources.Keys - visited
    {
      if current in visited {
        ghost var m :| 0 <= m < |path| && path[m] == current;
        assert Source(sources, criterion, |path|) == Source(sources, criterion, m);
        assert GoesAstrayAt(goal, sources, criterion, |path|);
        WalkFindsRoot(goal, sources, criterion, None);
        return None;
      }
      visited := visited + {current};
      path := path + [current];
      if current !in sources {
        assert GoesAstrayAt(goal, sources, criterion, |path|);
        WalkFindsRoot(goal, sources, criterion, None);
        return None;
      }
      current := sources[current];
    }
    assert FirstGoalAt(goal, sources, criterion, |path|, current);
    WalkFindsRoot(goal, sources, criterion, Some(current));
    return Some(current);
  }

  // ---------------------------------------------------------------------------
  // The bindings
  // ---------------------------------------------------------------------------

  /** One attempt to bind an obligation, in the order the plan is walked. */
  datatype Claim = Claim(obligation: Obligation, root: Option<Criterion>, selector: Option<seq<Reference>>, integration: bool)

  predicate Rooted(x: Claim, o: Obligation) {
    x.obligation == o && x.root.Some?
  }

  function BindingFor(x: Claim): Binding
    requires x.root.Some?
  {
    Binding(x.root.value, x.obligation, x.selector)
  }

  /** A validation overwrites, an integration only fills a gap. */
  function Bind(bindings: map<Obligation, Binding>, x: Claim): map<Obligation, Binding> {
    if x.root.None? || (x.integration && x.obligation in bindings) then bindings
    else bindings[x.obligation := BindingFor(x)]
  }

  function BindAll(xs: seq<Claim>): map<Obligation, Binding> {
    if xs == [] then map[] else Bind(BindAll(xs[..|xs| - 1]), xs[|xs| - 1])
  }

  /** Claim `i` decides obligation `o`: the last rooted validation, or without one the first rooted integration. */
  predicate Decides(xs: seq<Claim>, o: Obligation, i: nat) {
    && i < |xs| && Rooted(xs[i], o)
    && if xs[i].integration then forall j :: 0 <= j < |xs| && Rooted(xs[j], o) ==> xs[j].integration && i <= j
       else forall j :: i < j < |xs| && Rooted(xs[j], o) ==> xs[j].integration
  }

  lemma OneClaimDecides(xs: seq<Claim>, o: Obligation, i: nat, j: nat)
    requires Decides(xs, o, i) && Decides(xs, o, j)
    ensures i == j
  {
  }

  /** The claim that decides, when there is a rooted one. */
  lemma {:induction false} DecidingClaim(xs: seq<Claim>, o: Obligation) returns (i: nat)
    requires exists k :: 0 <= k < |xs| && Rooted(xs[k], o)
    ensures Decides(xs, o, i)
    ensures o in BindAll(xs) && BindAll(xs)[o] == BindingFor(xs[i])
    decreases |xs|
  {
    var last := |xs| - 1;
    var front := xs[..last];
    if exists k :: 0 <= k < last && Rooted(front[k], o) {
      i := DecidingClaim(front, o);
      assert forall k :: 0 <= k < last ==> front[k] == xs[k];
      if Rooted(xs[last], o) && !xs[last].integration { i := last; }
    } else {
      NothingBound(front, o);
      assert forall k :: 0 <= k < last ==> front[k] == xs[k];
      i := last;
    }
  }

  lemma {:induction false} NothingBound(xs: seq<Claim>, o: Obligation)
    requires forall k :: 0 <= k < |xs| ==> !Rooted(xs[k], o)
    ensures o !in BindAll(xs)
    decreases |xs|
  {
    if xs != [] { NothingBound(xs[..|xs| - 1], o); }
  }

  lemma BoundAsDecided(xs: seq<Claim>, o: Obligation, i: nat)
    requires Decides(xs, o, i)
    ensures o in BindAll(xs) && BindAll(xs)[o] == BindingFor(xs[i])
  {
    var d := DecidingClaim(xs, o);
    OneClaimDecides(xs, o, i, d);
  }

  lemma BoundWhenDecided(xs: seq<Claim>, o: Obligation)
    ensures o in BindAll(xs) <==> exists i: nat :: Decides(xs, o, i)
  {
    if exists k :: 0 <= k < |xs| && Rooted(xs[k], o) {
      var d := DecidingClaim(xs, o);
    } else {
      NothingBound(xs, o);
    }
  }

  function Sources(refinements: seq<Refinement>): map<Criterion, Criterion> {
    if refinements == [] then map[]
    else
      var last := refinements[|refinements| - 1];
      Sources(refinements[..|refinements| - 1])[last.criterion := last.source]
  }

  function Refinements(units: seq<Unit>): seq<Refinement> {
    if units == [] then [] else Refinements(units[..|units| - 1]) + units[|units| - 1].refinements
  }

  ghost function ValidationClaim(less: (Reference, Reference) -> bool, goal: set<Criterion>, sources: map<Criterion, Criterion>, v: Validation): Claim {
    Claim(v.obligation, RootOf(goal, sources, v.criterion), SelectorOf(less, v), false)
  }

  function SelectorOf(less: (Reference, Reference) -> bool, v: Validation): Option<seq<Reference>> {
    if v.evidence.None? then None else Some(Sort(less, v.evidence.value))
  }

  /** The selector is the evidence in order, whatever order it is listed in. */
  lemma SelectorSortsEvidence(less: (Reference, Reference) -> bool, v: Validation)
    requires WeakOrder(less) && v.evidence.Some?
    ensures
      var selector := SelectorOf(less, v);
      selector.Some? && multiset(selector.value) == multiset(v.evidence.value) && InOrder(less, selector.value)
  {
    SortInOrder(less, v.evidence.value);
  }

  /** The first of the criteria that has a goal criterion gives it. */
  ghost function FirstRoot(goal: set<Criterion>, sources: map<Criterion, Criterion>, cs: seq<Criterion>): Option<Criterion> {
    if cs == [] then None
    else if RootOf(goal, sources, cs[0]).Some? then RootOf(goal, sources, cs[0])
    else FirstRoot(goal, sources, cs[1..])
  }

  ghost function ValidationClaims(less: (Reference, Reference) -> bool, goal: set<Criterion>, sources: map<Criterion, Criterion>, vs: seq<Validation>): seq<Claim> {
    if vs == [] then []
    else ValidationClaims(less, goal, sources, vs[..|vs| - 1]) + [ValidationClaim(less, goal, sources, vs[|vs| - 1])]
  }

  ghost function UnitClaims(less: (Reference, Reference) -> bool, goal: set<Criterion>, sources: map<Criterion, Criterion>, u: Unit): seq<Claim> {
    ValidationClaims(less, goal, sources, u.validation)
    + if u.integration.None? then []
      else [Claim(u.integration.value.obligation, FirstRoot(goal, sources, u.integration.value.criteria), None, true)]
  }

  ghost function Claims(less: (Reference, Reference) -> bool, goal: set<Criterion>, sources: map<Criterion, Criterion>, units: seq<Unit>): seq<Claim> {
    if units == [] then []
    else Claims(less, goal, sources, units[..|units| - 1]) + UnitClaims(less, goal, sources, units[|units| - 1])
  }

  // ---------------------------------------------------------------------------
  // The loops
  // ---------------------------------------------------------------------------

  lemma NoSources()
    ensures Sources([]) == map[]
  {
  }

  lemma SourcesNext(rs: seq<Refinement>, r: Refinement)
    ensures Sources(rs + [r]) == Sources(rs)[r.criterion := r.source]
  {
    assert (rs + [r])[..|rs + [r]| - 1] == rs;
  }

  method CollectSources(units: seq<Unit>) returns (criteria: map<Criterion, Criterion>)
    ensures criteria == Sources(Refinements(units))
  {
    hide Sources;
    criteria := map[];
    ghost var done: seq<Refinement> := [];
    assert criteria == Sources(done) by { NoSources(); }
    for i := 0 to |units|
      invariant done == Refinements(units[..i]) && criteria == Sources(done)
    {
      assert units[..i + 1][..i] == units[..i];
      var refinements := units[i].refinements;
      for j := 0 to |refinements|
        invariant done == Refinements(units[..i]) + refinements[..j] && criteria == Sources(done)
      {
        criteria := criteria[refinements[j].criterion := refinements[j].source];
        SourcesNext(done, refinements[j]);
        done := done + [refinements[j]];
        assert refinements[..j + 1] == refinements[..j] + [refinements[j]];
      }
      assert refinements[..|refinements|] == refinements;
    }
    assert units[..|units|] == units;
  }

  method FirstRootCriterion(goal: set<Criterion>, sources: map<Criterion, Criterion>, cs: seq<Criterion>)
    returns (r: Option<Criterion>)
    ensures r == FirstRoot(goal, sources, cs)
  {
    r := None;
    for i := 0 to |cs|
      invariant FirstRoot(goal, sources, cs) == (if r.Some? then r else FirstRoot(goal, sources, cs[i..]))
    {
      var root := RootCriterion(goal, sources, cs[i]);
      assert cs[i..][1..] == cs[i + 1..];
      if r.None? { r := root; }
    }
  }

  function StrategyId(o: Obligation): string {
    "proof:" + o
  }

  function NamedValidation(v: Validation): Validation {
    v.(strategy := StrategyId(v.obligation))
  }

  function NamedUnit(u: Unit): Unit {
    u.(validation := seq(|u.validation|, i requires 0 <= i < |u.validation| => NamedValidation(u.validation[i])),
       integration := if u.integration.None? then None
                      else Some(u.integration.value.(strategy := StrategyId(u.integration.value.obligation))))
  }

  /** The keys of the binding table, in the order they were first set. */
  ghost predicate Keys(order: seq<Obligation>, bindings: map<Obligation, Binding>) {
    && (forall i, j :: 0 <= i < j < |order| ==> order[i] != order[j])
    && (forall o :: o in order <==> o in bindings)
  }

  function Set(order: seq<Obligation>, o: Obligation): seq<Obligation> {
    if o in order then order else order + [o]
  }

  lemma BindLast(xs: seq<Claim>, x: Claim)
    ensures BindAll(xs + [x]) == Bind(BindAll(xs), x)
  {
    assert (xs + [x])[..|xs + [x]| - 1] == xs;
  }

  method BindValidations(less: (Reference, Reference) -> bool, goal: set<Criterion>, sources: map<Criterion, Criterion>,
                         validations: seq<Validation>, ghost before: seq<Claim>,
                         boundBefore: map<Obligation, Binding>, orderBefore: seq<Obligation>)
    returns (named: seq<Validation>, bindings: map<Obligation, Binding>, order: seq<Obligation>)
    requires boundBefore == BindAll(before) && Keys(orderBefore, boundBefore)
    ensures |named| == |validations| && forall i :: 0 <= i < |named| ==> named[i] == NamedValidation(validations[i])
    ensures bindings == BindAll(before + ValidationClaims(less, goal, sources, validations)) && Keys(order, bindings)
  {
    hide RootOf, SelectorOf, BindAll, NamedValidation;
    named, bindings, order := [], boundBefore, orderBefore;
    ghost var claims: seq<Claim> := [];
    assert before + claims == before;
    for i := 0 to |validations|
      invariant |named| == i && forall j :: 0 <= j < i ==> named[j] == NamedValidation(validations[j])
      invariant claims == ValidationClaims(less, goal, sources, validations[..i])
      invariant bindings == BindAll(before + claims) && Keys(order, bindings)
    {
      var validation := validations[i];
      named := named + [NamedValidation(validation)];
      var criterion := RootCriterion(goal, sources, validation.criterion);
      ghost var claim := ValidationClaim(less, goal, sources, validation);
      BindLast(before + claims, claim);
      assert before + claims + [claim] == before + (claims + [claim]);
      assert validations[..i + 1][..i] == validations[..i];
      claims := claims + [claim];
      if criterion.Some? {
        bindings := bindings[validation.obligation := Binding(criterion.value, validation.obligation, SelectorOf(less, validation))];
        order := Set(order, validation.obligation);
      }
    }
    assert validations[..|validations|] == validations;
  }

  method BindUnit(less: (Reference, Reference) -> bool, goal: set<Criterion>, sources: map<Criterion, Criterion>,
                  unit: Unit, ghost before: seq<Claim>,
                  boundBefore: map<Obligation, Binding>, orderBefore: seq<Obligation>)
    returns (named: Unit, bindings: map<Obligation, Binding>, order: seq<Obligation>)
    requires boundBefore == BindAll(before) && Keys(orderBefore, boundBefore)
    ensures named == NamedUnit(unit)
    ensures bindings == BindAll(before + UnitClaims(less, goal, sources, unit)) && Keys(order, bindings)
  {
    hide ValidationClaims, BindAll, FirstRoot;
    var validation: seq<Validation>;
    validation, bindings, order := BindValidations(less, goal, sources, unit.validation, before, boundBefore, orderBefore);
    ghost var validated := ValidationClaims(less, goal, sources, unit.validation);
    named := unit.(validation := validation);
    assert before + (validated + []) == before + validated;
    if unit.integration.Some? {
      var integration := unit.integration.value;
      named := named.(integration := Some(integration.(strategy := StrategyId(integration.obligation))));
      var criterion := FirstRootCriterion(goal, sources, integration.criteria);
      ghost var claim := Claim(integration.obligation, criterion, None, true);
      BindLast(before + validated, claim);
      assert before + validated + [claim] == before + (validated + [claim]);
      if criterion.Some? && integration.obligation !in bindings {
        bindings := bindings[integration.obligation := Binding(criterion.value, integration.obligation, None)];
        order := Set(order, integration.obligation);
      }
    }
  }

  method BindUnits(less: (Reference, Reference) -> bool, goal: set<Criterion>, sources: map<Criterion, Criterion>, units: seq<Unit>)
    returns (named: seq<Unit>, bindings: map<Obligation, Binding>, order: seq<Obligation>)
    ensures |named| == |units| && forall i :: 0 <= i < |units| ==> named[i] == NamedUnit(units[i])
    ensures bindings == BindAll(Claims(less, goal, sources, units)) && Keys(order, bindings)
  {
    hide UnitClaims, Bind, NamedUnit;
    named, bindings, order := [], map[], [];
    ghost var claims: seq<Claim> := [];
    for i := 0 to |units|
      invariant |named| == i && forall j :: 0 <= j < i ==> named[j] == NamedUnit(units[j])
      invariant claims == Claims(less, goal, sources, units[..i])
      invariant bindings == BindAll(claims) && Keys(order, bindings)
    {
      var unit: Unit;
      assert units[..i + 1][..i] == units[..i];
      unit, bindings, order := BindUnit(less, goal, sources, units[i], claims, bindings, order);
      claims := claims + UnitClaims(less, goal, sources, units[i]);
      named := named + [unit];
    }
    assert units[..|units|] == units;
  }

  /** Where the plan's claims lead: goal criteria only. */
  predicate NamesGoals(goal: set<Criterion>, xs: seq<Claim>) {
    forall i :: 0 <= i < |xs| && xs[i].root.Some? ==> xs[i].root.value in goal
  }

  lemma RootsAreGoals(goal: set<Criterion>, sources: map<Criterion, Criterion>, c: Criterion)
    ensures RootOf(goal, sources, c).Some? ==> RootOf(goal, sources, c).value in goal
  {
  }

  lemma {:induction false} FirstRootsAreGoals(goal: set<Criterion>, sources: map<Criterion, Criterion>, cs: seq<Criterion>)
    ensures FirstRoot(goal, sources, cs).Some? ==> FirstRoot(goal, sources, cs).value in goal
  {
    if cs != [] {
      RootsAreGoals(goal, sources, cs[0]);
      FirstRootsAreGoals(goal, sources, cs[1..]);
    }
  }

  lemma {:induction false} ValidationsNameGoals(less: (Reference, Reference) -> bool, goal: set<Criterion>, sources: map<Criterion, Criterion>, vs: seq<Validation>)
    ensures NamesGoals(goal, ValidationClaims(less, goal, sources, vs))
    decreases |vs|
  {
    if vs != [] {
      ValidationsNameGoals(less, goal, sources, vs[..|vs| - 1]);
      RootsAreGoals(goal, sources, vs[|vs| - 1].criterion);
    }
  }

  lemma {:induction false} ClaimsNameGoals(less: (Reference, Reference) -> bool, goal: set<Criterion>, sources: map<Criterion, Criterion>, units: seq<Unit>)
    ensures NamesGoals(goal, Claims(less, goal, sources, units))
    decreases |units|
  {
    if units != [] {
      var u := units[|units| - 1];
      ClaimsNameGoals(less, goal, sources, units[..|units| - 1]);
      ValidationsNameGoals(less, goal, sources, u.validation);
      if u.integration.Some? { FirstRootsAreGoals(goal, sources, u.integration.value.criteria); }
    }
  }

  /** A strategy is the one some claim decides, and it names a goal criterion. */
  ghost predicate Justified(goal: set<Criterion>, claims: seq<Claim>, s: Strategy) {
    && s.id == StrategyId(s.binding.obligation) && s.binding.criterion in goal
    && exists i: nat :: Decides(claims, s.binding.obligation, i) && s.binding == BindingFor(claims[i])
  }

  lemma BoundIsJustified(goal: set<Criterion>, claims: seq<Claim>, o: Obligation)
    requires NamesGoals(goal, claims) && o in BindAll(claims)
    ensures BindAll(claims)[o].obligation == o
    ensures Justified(goal, claims, Strategy(StrategyId(o), BindAll(claims)[o]))
  {
    BoundWhenDecided(claims, o);
    var i: nat :| Decides(claims, o, i);
    BoundAsDecided(claims, o, i);
  }

  /** Every validation and integration refers to the strategy of its obligation, and nothing else changes. */
  predicate NamesItsProofs(u: Unit, named: Unit) {
    && named.refinements == u.refinements && |named.validation| == |u.validation|
    && (forall i :: 0 <= i < |u.validation| ==>
          var v, w := u.validation[i], named.validation[i];
          w == Validation(v.obligation, v.criterion, v.evidence, "proof:" + v.obligation))
    && (named.integration.Some? <==> u.integration.Some?)
    && (u.integration.Some? ==>
          var v, w := u.integration.value, named.integration.value;
          w == Integration(v.obligation, v.criteria, "proof:" + v.obligation))
  }

  lemma NamedUnitNames(u: Unit)
    ensures NamesItsProofs(u, NamedUnit(u))
  {
  }

  method BindProductProofStrategies(
    lessReference: (Reference, Reference) -> bool, lessObligation: (Obligation, Obligation) -> bool,
    goal: set<Criterion>, units: seq<Unit>)
    returns (named: seq<Unit>, strategies: seq<Strategy>)
    requires WeakOrder(lessObligation)
    ensures |named| == |units| && forall u :: 0 <= u < |units| ==> NamesItsProofs(units[u], named[u])
    // At most one strategy per obligation, in the order of the obligations.
    ensures forall i, j :: 0 <= i < j < |strategies| ==>
              && strategies[i].binding.obligation != strategies[j].binding.obligation
              && !lessObligation(strategies[j].binding.obligation, strategies[i].binding.obligation)
    // Every strategy comes from the plan, and every obligation that leads to a goal gets one.
    ensures forall s :: s in strategies ==> FromPlan(lessReference, goal, units, s)
    ensures forall o :: Asked(goal, units, o) ==> exists s :: s in strategies && s.binding.obligation == o
  {
    hide Claims, BindAll, Sources, Refinements, NamedUnit, Decides, NamesItsProofs, FromPlan, Asked, WeakOrder, Justified;
    var sources := CollectSources(units);
    var bindings: map<Obligation, Binding>, order: seq<Obligation>;
    named, bindings, order := BindUnits(lessReference, goal, sources, units);
    ghost var claims := Claims(lessReference, goal, sources, units);
    var sorted := Sort(lessObligation, order);
    SortedKeys(lessObligation, order);
    strategies := [];
    for k := 0 to |sorted|
      invariant |strategies| == k
      invariant forall i :: 0 <= i < k ==> strategies[i] == Strategy(StrategyId(sorted[i]), bindings[sorted[i]])
    {
      strategies := strategies + [Strategy(StrategyId(sorted[k]), bindings[sorted[k]])];
    }
    forall u | 0 <= u < |units| ensures NamesItsProofs(units[u], named[u]) { NamedUnitNames(units[u]); }
    ClaimsNameGoals(lessReference, goal, sources, units);
    EmittedAsDecided(goal, claims, sorted, strategies);
    StrategiesMeetPlan(lessReference, goal, units, strategies);
    forall i, j | 0 <= i < j < |strategies|
      ensures strategies[i].binding.obligation != strategies[j].binding.obligation
      ensures !lessObligation(strategies[j].binding.obligation, strategies[i].binding.obligation)
    {
      assert strategies[i].binding.obligation == sorted[i] && strategies[j].binding.obligation == sorted[j];
    }
  }

  /** One strategy per bound obligation is one strategy per obligation that some claim decides. */
  lemma EmittedAsDecided(goal: set<Criterion>, claims: seq<Claim>, sorted: seq<Obligation>, strategies: seq<Strategy>)
    requires NamesGoals(goal, claims) && |strategies| == |sorted|
    requires forall o :: o in sorted <==> o in BindAll(claims)
    requires forall k :: 0 <= k < |sorted| ==> strategies[k] == Strategy(StrategyId(sorted[k]), BindAll(claims)[sorted[k]])
    ensures forall k :: 0 <= k < |sorted| ==> strategies[k].binding.obligation == sorted[k]
    ensures forall s :: s in strategies ==> Justified(goal, claims, s)
    ensures forall o, i: nat :: Decides(claims, o, i) ==> Strategy(StrategyId(o), BindingFor(claims[i])) in strategies
  {
    hide BindAll, Justified;
    forall k | 0 <= k < |sorted|
      ensures strategies[k].binding.obligation == sorted[k] && Justified(goal, claims, strategies[k])
    {
      assert sorted[k] in sorted;
      BoundIsJustified(goal, claims, sorted[k]);
    }
    forall o, i: nat | Decides(claims, o, i) ensures Strategy(StrategyId(o), BindingFor(claims[i])) in strategies {
      BoundAsDecided(claims, o, i);
      assert o in sorted;
      var k :| 0 <= k < |sorted| && sorted[k] == o;
      assert strategies[k] in strategies;
    }
  }

  predicate Distinct(os: seq<Obligation>) {
    forall i, j :: 0 <= i < j < |os| ==> os[i] != os[j]
  }

  lemma SortedKeys(less: (Obligation, Obligation) -> bool, order: seq<Obligation>)
    requires WeakOrder(less) && forall i, j :: 0 <= i < j < |order| ==> order[i] != order[j]
    ensures InOrder(less, Sort(less, order)) && forall o :: o in Sort(less, order) <==> o in order
    ensures Distinct(Sort(less, order))
  {
    var r := Sort(less, order);
    SortInOrder(less, order);
    forall i, j | 0 <= i < j < |r| ensures r[i] != r[j] { DistinctKept(order, r, i, j); }
    SameElements(r, order);
    forall o ensures o in r <==> o in order {
      assert o in Elements(r) <==> o in r;
      assert o in Elements(order) <==> o in order;
    }
  }

  // ---------------------------------------------------------------------------
  // The strategies in terms of the plan
  // ---------------------------------------------------------------------------

  /** The last refinement of criterion `c`. */
  predicate LastOf(rs: seq<Refinement>, i: nat, c: Criterion) {
    i < |rs| && rs[i].criterion == c && forall j :: i < j < |rs| ==> rs[j].criterion != c
  }

  /** The refinement `i` of unit `u` is the plan's last one of criterion `c`, and refines `d`. */
  ghost predicate RefinesAt(units: seq<Unit>, u: nat, i: nat, c: Criterion, d: Criterion) {
    && u < |units| && LastOf(units[u].refinements, i, c) && units[u].refinements[i].source == d
    && (forall v, j :: u < v < |units| && 0 <= j < |units[v].refinements| ==> units[v].refinements[j].criterion != c)
  }

  ghost predicate Refines(units: seq<Unit>, c: Criterion, d: Criterion) {
    exists u: nat, i: nat :: RefinesAt(units, u, i, c, d)
  }

  lemma {:induction false} SourcesOfBoth(a: seq<Refinement>, b: seq<Refinement>, c: Criterion)
    ensures c in Sources(a + b) <==> c in Sources(a) || c in Sources(b)
    ensures c in Sources(b) ==> Sources(a + b)[c] == Sources(b)[c]
    ensures c in Sources(a) && c !in Sources(b) ==> Sources(a + b)[c] == Sources(a)[c]
    decreases |b|
  {
    if b == [] {
      assert a + b == a;
    } else {
      assert (a + b)[..|a + b| - 1] == a + b[..|b| - 1];
      SourcesOfBoth(a, b[..|b| - 1], c);
    }
  }

  lemma {:induction false} SourcesAreLast(rs: seq<Refinement>, c: Criterion)
    ensures c in Sources(rs) <==> exists i: nat :: LastOf(rs, i, c)
    ensures forall i: nat :: LastOf(rs, i, c) ==> Sources(rs)[c] == rs[i].source
    ensures c !in Sources(rs) ==> forall i :: 0 <= i < |rs| ==> rs[i].criterion != c
    decreases |rs|
  {
    if rs != [] {
      var n := |rs| - 1;
      var front := rs[..n];
      SourcesAreLast(front, c);
      forall i: nat | i < n ensures LastOf(rs, i, c) <==> LastOf(front, i, c) && rs[n].criterion != c {
        assert forall j :: i < j < n ==> rs[j] == front[j];
      }
      if rs[n].criterion == c { assert LastOf(rs, n, c); }
      else if i: nat :| LastOf(front, i, c) { assert LastOf(rs, i, c); }
    }
  }

  /** The map of the walk takes a criterion to what the plan's last refinement of it refines. */
  lemma {:induction false} SourcesAreRefined(units: seq<Unit>, c: Criterion, d: Criterion)
    ensures Refines(units, c, d) <==> c in Sources(Refinements(units)) && Sources(Refinements(units))[c] == d
    decreases |units|
  {
    if units != [] {
      var n := |units| - 1;
      var front, last := units[..n], units[n].refinements;
      SourcesAreRefined(front, c, d);
      SourcesOfBoth(Refinements(front), last, c);
      SourcesAreLast(last, c);
      hide Sources, Refinements;
      if c in Sources(last) {
        var i: nat :| LastOf(last, i, c);
        assert RefinesAt(units, n, i, c, last[i].source);
        if Refines(units, c, d) {
          var u: nat, k: nat :| RefinesAt(units, u, k, c, d);
          assert u == n ==> k == i;
          assert u == n;
        }
      } else {
        if Refines(units, c, d) {
          var u: nat, k: nat :| RefinesAt(units, u, k, c, d);
          assert u < n;
          assert RefinesAt(front, u, k, c, d);
        }
        if Refines(front, c, d) {
          var u: nat, k: nat :| RefinesAt(front, u, k, c, d);
          assert RefinesAt(units, u, k, c, d);
        }
      }
    }
  }

  /** Refinements lead from `c` over criteria that are no goals to the goal criterion `g`. */
  ghost predicate ChainTo(goal: set<Criterion>, units: seq<Unit>, path: seq<Criterion>, c: Criterion, g: Criterion) {
    && path != [] && path[0] == c && path[|path| - 1] == g && g in goal
    && forall k :: 0 <= k < |path| - 1 ==> path[k] !in goal && Refines(units, path[k], path[k + 1])
  }

  ghost predicate LeadsTo(goal: set<Criterion>, units: seq<Unit>, c: Criterion, g: Criterion) {
    exists path :: ChainTo(goal, units, path, c, g)
  }

  lemma {:induction false} ChainIsWalked(goal: set<Criterion>, units: seq<Unit>, path: seq<Criterion>, c: Criterion, g: Criterion, k: nat)
    requires ChainTo(goal, units, path, c, g) && k < |path|
    ensures Source(Sources(Refinements(units)), c, k) == Some(path[k])
  {
    if k > 0 {
      ChainIsWalked(goal, units, path, c, g, k - 1);
      SourcesAreRefined(units, path[k - 1], path[k]);
    }
  }

  lemma {:induction false} WalkedBelow(sources: map<Criterion, Criterion>, c: Criterion, n: nat, k: nat)
    requires Source(sources, c, n).Some? && k <= n
    ensures Source(sources, c, k).Some?
  {
    if k < n { WalkedBelow(sources, c, n - 1, k); }
  }

  /** The walk finds the goal criterion that the plan's refinements lead to. */
  lemma RootIsLedTo(goal: set<Criterion>, units: seq<Unit>, c: Criterion, g: Criterion)
    ensures RootOf(goal, Sources(Refinements(units)), c) == Some(g) <==> LeadsTo(goal, units, c, g)
  {
    var sources := Sources(Refinements(units));
    if RootOf(goal, sources, c) == Some(g) {
      var n: nat :| FirstGoalAt(goal, sources, c, n, g);
      WalkIsChain(goal, units, c, n, g);
    }
    if LeadsTo(goal, units, c, g) {
      var path :| ChainTo(goal, units, path, c, g);
      var n: nat := |path| - 1;
      forall k: nat | k <= n ensures Source(sources, c, k) == Some(path[k]) { ChainIsWalked(goal, units, path, c, g, k); }
      assert FirstGoalAt(goal, sources, c, n, g);
      OnlyRoot(goal, sources, c, g);
    }
  }

  lemma OnlyRoot(goal: set<Criterion>, sources: map<Criterion, Criterion>, c: Criterion, g: Criterion)
    requires FirstGoal(goal, sources, c, g)
    ensures RootOf(goal, sources, c) == Some(g)
  {
    var r := RootOf(goal, sources, c);
    FirstGoalIsUnique(goal, sources, c, g, r.value);
  }

  lemma WalkIsChain(goal: set<Criterion>, units: seq<Unit>, c: Criterion, n: nat, g: Criterion)
    requires FirstGoalAt(goal, Sources(Refinements(units)), c, n, g)
    ensures LeadsTo(goal, units, c, g)
  {
    var sources := Sources(Refinements(units));
    forall k: nat | k <= n ensures Source(sources, c, k).Some? { WalkedBelow(sources, c, n, k); }
    var path := seq(n + 1, k requires 0 <= k <= n => Source(sources, c, k).value);
    forall k | 0 <= k < |path| - 1 ensures path[k] !in goal && Refines(units, path[k], path[k + 1]) {
      assert Source(sources, c, k + 1) == Some(path[k + 1]);
      SourcesAreRefined(units, path[k], path[k + 1]);
    }
    assert ChainTo(goal, units, path, c, g);
  }

  ghost predicate HasGoal(goal: set<Criterion>, units: seq<Unit>, c: Criterion) {
    exists g :: LeadsTo(goal, units, c, g)
  }

  lemma RootWhenLed(goal: set<Criterion>, units: seq<Unit>, c: Criterion)
    ensures RootOf(goal, Sources(Refinements(units)), c).Some? <==> HasGoal(goal, units, c)
  {
    var r := RootOf(goal, Sources(Refinements(units)), c);
    if r.Some? { RootIsLedTo(goal, units, c, r.value); }
    if g :| LeadsTo(goal, units, c, g) { RootIsLedTo(goal, units, c, g); }
  }

  /** `g` is the goal of the first of the criteria that has one. */
  ghost predicate FirstLedTo(goal: set<Criterion>, units: seq<Unit>, cs: seq<Criterion>, g: Criterion) {
    exists i :: 0 <= i < |cs| && LeadsTo(goal, units, cs[i], g) && forall j :: 0 <= j < i ==> !HasGoal(goal, units, cs[j])
  }

  lemma {:induction false} FirstRootIsLedTo(goal: set<Criterion>, units: seq<Unit>, cs: seq<Criterion>, g: Criterion)
    ensures FirstRoot(goal, Sources(Refinements(units)), cs) == Some(g) <==> FirstLedTo(goal, units, cs, g)
  {
    if cs != [] {
      RootWhenLed(goal, units, cs[0]);
      RootIsLedTo(goal, units, cs[0], g);
      FirstRootIsLedTo(goal, units, cs[1..], g);
      hide RootOf, Sources, Refinements, LeadsTo;
      if FirstLedTo(goal, units, cs[1..], g) && !HasGoal(goal, units, cs[0]) {
        var i :| 0 <= i < |cs[1..]| && LeadsTo(goal, units, cs[1..][i], g) && forall j :: 0 <= j < i ==> !HasGoal(goal, units, cs[1..][j]);
        assert cs[i + 1] == cs[1..][i] && forall j :: 1 <= j < i + 1 ==> cs[j] == cs[1..][j - 1];
        assert FirstLedTo(goal, units, cs, g);
      }
      if FirstLedTo(goal, units, cs, g) {
        var i :| 0 <= i < |cs| && LeadsTo(goal, units, cs[i], g) && forall j :: 0 <= j < i ==> !HasGoal(goal, units, cs[j]);
        if i > 0 {
          assert forall j :: 0 <= j < i - 1 ==> cs[1..][j] == cs[j + 1];
          assert cs[1..][i - 1] == cs[i];
        }
      }
    }
  }

  // ---------------------------------------------------------------------------
  // Which validation or integration of the plan decides
  // ---------------------------------------------------------------------------

  predicate IsValidation(units: seq<Unit>, u: nat, i: nat) {
    u < |units| && i < |units[u].validation|
  }

  predicate IsIntegration(units: seq<Unit>, u: nat) {
    u < |units| && units[u].integration.Some?
  }

  /** The validation is one of the obligation, and its criterion leads to a goal criterion. */
  ghost predicate Validates(goal: set<Criterion>, units: seq<Unit>, o: Obligation, u: nat, i: nat) {
    IsValidation(units, u, i) && units[u].validation[i].obligation == o && HasGoal(goal, units, units[u].validation[i].criterion)
  }

  /** The integration is one of the obligation, and one of its criteria leads to a goal criterion. */
  ghost predicate Integrates(goal: set<Criterion>, units: seq<Unit>, o: Obligation, u: nat) {
    && IsIntegration(units, u) && units[u].integration.value.obligation == o
    && exists g :: FirstLedTo(goal, units, units[u].integration.value.criteria, g)
  }

  /** The last validation of the plan that validates the obligation. */
  ghost predicate LastValidates(goal: set<Criterion>, units: seq<Unit>, o: Obligation, u: nat, i: nat) {
    && Validates(goal, units, o, u, i)
    && forall v: nat, j: nat :: Validates(goal, units, o, v, j) ==> v < u || (v == u && j <= i)
  }

  /** The first integration of the plan that integrates the obligation, which no validation validates. */
  ghost predicate FirstIntegrates(goal: set<Criterion>, units: seq<Unit>, o: Obligation, u: nat) {
    && Integrates(goal, units, o, u) && (forall v: nat, j: nat :: !Validates(goal, units, o, v, j))
    && forall v: nat :: Integrates(goal, units, o, v) ==> u <= v
  }

  /** The last validation of an obligation gives its strategy the goal of its criterion and its evidence as
      selector; without a validation the first integration gives it the goal of its first criterion that has one. */
  ghost predicate FromPlan(less: (Reference, Reference) -> bool, goal: set<Criterion>, units: seq<Unit>, s: Strategy) {
    && s.id == "proof:" + s.binding.obligation
    && ((exists u: nat, i: nat :: FromValidation(less, goal, units, s.binding, u, i))
        || (exists u: nat :: FromIntegration(goal, units, s.binding, u)))
  }

  ghost predicate FromValidation(less: (Reference, Reference) -> bool, goal: set<Criterion>, units: seq<Unit>, b: Binding, u: nat, i: nat) {
    && LastValidates(goal, units, b.obligation, u, i)
    && LeadsTo(goal, units, units[u].validation[i].criterion, b.criterion)
    && b.selector == SelectorOf(less, units[u].validation[i])
  }

  ghost predicate FromIntegration(goal: set<Criterion>, units: seq<Unit>, b: Binding, u: nat) {
    && FirstIntegrates(goal, units, b.obligation, u) && b.selector.None?
    && FirstLedTo(goal, units, units[u].integration.value.criteria, b.criterion)
  }

  /** The plan asks for a strategy of the obligation. */
  ghost predicate Asked(goal: set<Criterion>, units: seq<Unit>, o: Obligation) {
    (exists u: nat, i: nat :: Validates(goal, units, o, u, i)) || (exists u: nat :: Integrates(goal, units, o, u))
  }

  /** Where the claims of unit `u` begin. */
  ghost function Offset(less: (Reference, Reference) -> bool, goal: set<Criterion>, sources: map<Criterion, Criterion>, units: seq<Unit>, u: nat): nat
    requires u <= |units|
  {
    |Claims(less, goal, sources, units[..u])|
  }

  lemma {:induction false} ValidationClaimAt(less: (Reference, Reference) -> bool, goal: set<Criterion>, sources: map<Criterion, Criterion>, vs: seq<Validation>, i: nat)
    ensures |ValidationClaims(less, goal, sources, vs)| == |vs|
    ensures i < |vs| ==> ValidationClaims(less, goal, sources, vs)[i] == ValidationClaim(less, goal, sources, vs[i])
    decreases |vs|
  {
    if vs != [] { ValidationClaimAt(less, goal, sources, vs[..|vs| - 1], i); }
  }

  /** Claim `k` is that of validation `i` of unit `u`, or of its integration when `i` is past the validations. */
  ghost predicate ClaimOf(less: (Reference, Reference) -> bool, goal: set<Criterion>, sources: map<Criterion, Criterion>, units: seq<Unit>, u: nat, i: nat, x: Claim) {
    && u < |units|
    && (i < |units[u].validation| ==> x == ValidationClaim(less, goal, sources, units[u].validation[i]))
    && (i >= |units[u].validation| ==>
          && i == |units[u].validation| && units[u].integration.Some?
          && x == Claim(units[u].integration.value.obligation, FirstRoot(goal, sources, units[u].integration.value.criteria), None, true))
  }

  lemma UnitClaimAt(less: (Reference, Reference) -> bool, goal: set<Criterion>, sources: map<Criterion, Criterion>, units: seq<Unit>, u: nat, i: nat)
    requires u < |units|
    ensures
      var xs := UnitClaims(less, goal, sources, units[u]);
      && |xs| == |units[u].validation| + (if units[u].integration.Some? then 1 else 0)
      && (i < |xs| ==> ClaimOf(less, goal, sources, units, u, i, xs[i]))
  {
    hide ValidationClaim, FirstRoot;
    ValidationClaimAt(less, goal, sources, units[u].validation, i);
  }

  lemma {:induction false} ClaimAt(less: (Reference, Reference) -> bool, goal: set<Criterion>, sources: map<Criterion, Criterion>, units: seq<Unit>, n: nat, u: nat, i: nat)
    requires u < n <= |units| && i < |UnitClaims(less, goal, sources, units[u])|
    ensures
      var xs := Claims(less, goal, sources, units[..n]);
      var k := Offset(less, goal, sources, units, u) + i;
      k < |xs| && ClaimOf(less, goal, sources, units, u, i, xs[k]) && Offset(less, goal, sources, units, u + 1) <= |xs|
    decreases n
  {
    hide UnitClaims, ClaimOf;
    assert units[..n][..n - 1] == units[..n - 1];
    if u == n - 1 {
      UnitClaimAt(less, goal, sources, units, u, i);
    } else {
      ClaimAt(less, goal, sources, units, n - 1, u, i);
    }
  }

  lemma {:induction false} PlaceOf(less: (Reference, Reference) -> bool, goal: set<Criterion>, sources: map<Criterion, Criterion>, units: seq<Unit>, n: nat, k: nat)
    returns (u: nat, i: nat)
    requires n <= |units| && k < |Claims(less, goal, sources, units[..n])|
    ensures u < n && i < |UnitClaims(less, goal, sources, units[u])| && k == Offset(less, goal, sources, units, u) + i
    decreases n
  {
    hide UnitClaims;
    assert n > 0;
    assert units[..n][..n - 1] == units[..n - 1];
    if k < |Claims(less, goal, sources, units[..n - 1])| {
      u, i := PlaceOf(less, goal, sources, units, n - 1, k);
    } else {
      u, i := n - 1, k - |Claims(less, goal, sources, units[..n - 1])|;
    }
  }

  lemma {:induction false} OffsetsGrow(less: (Reference, Reference) -> bool, goal: set<Criterion>, sources: map<Criterion, Criterion>, units: seq<Unit>, u: nat, v: nat)
    requires u < v <= |units|
    ensures Offset(less, goal, sources, units, u) + |UnitClaims(less, goal, sources, units[u])| <= Offset(less, goal, sources, units, v)
    decreases v
  {
    hide UnitClaims;
    assert units[..v][..v - 1] == units[..v - 1];
    if u < v - 1 { OffsetsGrow(less, goal, sources, units, u, v - 1); }
  }

  /** The claim at a place of the plan. */
  ghost function PlanClaims(less: (Reference, Reference) -> bool, goal: set<Criterion>, units: seq<Unit>): seq<Claim> {
    Claims(less, goal, Sources(Refinements(units)), units)
  }

  ghost function IndexOf(less: (Reference, Reference) -> bool, goal: set<Criterion>, units: seq<Unit>, u: nat, i: nat): nat
    requires u < |units|
  {
    Offset(less, goal, Sources(Refinements(units)), units, u) + i
  }

  lemma PlanClaimAt(less: (Reference, Reference) -> bool, goal: set<Criterion>, units: seq<Unit>, u: nat, i: nat)
    requires IsValidation(units, u, i) || (IsIntegration(units, u) && i == |units[u].validation|)
    ensures i < |UnitClaims(less, goal, Sources(Refinements(units)), units[u])|
    ensures
      var k := IndexOf(less, goal, units, u, i);
      && k < |PlanClaims(less, goal, units)|
      && ClaimOf(less, goal, Sources(Refinements(units)), units, u, i, PlanClaims(less, goal, units)[k])
  {
    var sources := Sources(Refinements(units));
    hide Claims, Sources, Refinements, UnitClaims, ClaimOf;
    UnitClaimAt(less, goal, sources, units, u, i);
    ClaimAt(less, goal, sources, units, |units|, u, i);
    assert units[..|units|] == units;
  }

  lemma ValidationsClaim(less: (Reference, Reference) -> bool, goal: set<Criterion>, units: seq<Unit>, u: nat, i: nat)
    requires IsValidation(units, u, i)
    ensures
      var k, v := IndexOf(less, goal, units, u, i), units[u].validation[i];
      && k < |PlanClaims(less, goal, units)|
      && PlanClaims(less, goal, units)[k] == ValidationClaim(less, goal, Sources(Refinements(units)), v)
      && (PlanClaims(less, goal, units)[k].root.Some? <==> HasGoal(goal, units, v.criterion))
  {
    hide PlanClaims, IndexOf, Sources, Refinements, RootOf, UnitClaims, SelectorOf, HasGoal;
    PlanClaimAt(less, goal, units, u, i);
    RootWhenLed(goal, units, units[u].validation[i].criterion);
  }

  lemma IntegrationsClaim(less: (Reference, Reference) -> bool, goal: set<Criterion>, units: seq<Unit>, u: nat)
    requires IsIntegration(units, u)
    ensures
      var k, v := IndexOf(less, goal, units, u, |units[u].validation|), units[u].integration.value;
      && k < |PlanClaims(less, goal, units)|
      && PlanClaims(less, goal, units)[k] == Claim(v.obligation, FirstRoot(goal, Sources(Refinements(units)), v.criteria), None, true)
      && (PlanClaims(less, goal, units)[k].root.Some? <==> exists g :: FirstLedTo(goal, units, v.criteria, g))
  {
    var sources := Sources(Refinements(units));
    hide PlanClaims, IndexOf, Sources, Refinements, FirstRoot, UnitClaims, FirstLedTo;
    PlanClaimAt(less, goal, units, u, |units[u].validation|);
    var cs := units[u].integration.value.criteria;
    forall g: Criterion ensures FirstRoot(goal, sources, cs) == Some(g) <==> FirstLedTo(goal, units, cs, g) { FirstRootIsLedTo(goal, units, cs, g); }
    if FirstRoot(goal, sources, cs).Some? { assert FirstLedTo(goal, units, cs, FirstRoot(goal, sources, cs).value); }
  }

  lemma PlaceInPlan(less: (Reference, Reference) -> bool, goal: set<Criterion>, units: seq<Unit>, k: nat) returns (u: nat, i: nat)
    requires k < |PlanClaims(less, goal, units)|
    ensures u < |units| && k == IndexOf(less, goal, units, u, i)
    ensures IsValidation(units, u, i) || (IsIntegration(units, u) && i == |units[u].validation|)
  {
    var sources := Sources(Refinements(units));
    assert units[..|units|] == units;
    u, i := PlaceOf(less, goal, sources, units, |units|, k);
    UnitClaimAt(less, goal, sources, units, u, i);
  }

  lemma IndicesFollowPlaces(less: (Reference, Reference) -> bool, goal: set<Criterion>, units: seq<Unit>, u: nat, i: nat, v: nat, j: nat)
    requires u < |units| && v < |units|
    requires i < |UnitClaims(less, goal, Sources(Refinements(units)), units[u])|
    ensures u < v || (u == v && i < j) ==> IndexOf(less, goal, units, u, i) < IndexOf(less, goal, units, v, j)
  {
    hide UnitClaims, Sources, Refinements, Claims;
    if u < v { OffsetsGrow(less, goal, Sources(Refinements(units)), units, u, v); }
  }

  lemma DecidingValidation(less: (Reference, Reference) -> bool, goal: set<Criterion>, units: seq<Unit>, o: Obligation, u: nat, i: nat)
    requires IsValidation(units, u, i) && Decides(PlanClaims(less, goal, units), o, IndexOf(less, goal, units, u, i))
    ensures FromValidation(less, goal, units, BindingFor(PlanClaims(less, goal, units)[IndexOf(less, goal, units, u, i)]), u, i)
  {
    var sources, xs := Sources(Refinements(units)), PlanClaims(less, goal, units);
    ValidationsClaim(less, goal, units, u, i);
    RootIsLedTo(goal, units, units[u].validation[i].criterion, xs[IndexOf(less, goal, units, u, i)].root.value);
    hide PlanClaims, IndexOf, Sources, Refinements, RootOf, HasGoal, LeadsTo;
    forall v: nat, j: nat | Validates(goal, units, o, v, j) ensures v < u || (v == u && j <= i) {
      ValidationsClaim(less, goal, units, v, j);
      PlanClaimAt(less, goal, units, u, i);
      IndicesFollowPlaces(less, goal, units, u, i, v, j);
    }
  }

  lemma DecidingIntegration(less: (Reference, Reference) -> bool, goal: set<Criterion>, units: seq<Unit>, o: Obligation, u: nat)
    requires IsIntegration(units, u) && Decides(PlanClaims(less, goal, units), o, IndexOf(less, goal, units, u, |units[u].validation|))
    ensures FromIntegration(goal, units, BindingFor(PlanClaims(less, goal, units)[IndexOf(less, goal, units, u, |units[u].validation|)]), u)
  {
    var sources, xs := Sources(Refinements(units)), PlanClaims(less, goal, units);
    IntegrationsClaim(less, goal, units, u);
    var g := xs[IndexOf(less, goal, units, u, |units[u].validation|)].root.value;
    FirstRootIsLedTo(goal, units, units[u].integration.value.criteria, g);
    hide PlanClaims, IndexOf, Sources, Refinements, FirstRoot, HasGoal, FirstLedTo;
    forall v: nat, j: nat ensures !Validates(goal, units, o, v, j) {
      if Validates(goal, units, o, v, j) { ValidationsClaim(less, goal, units, v, j); }
    }
    forall v: nat | Integrates(goal, units, o, v) ensures u <= v {
      IntegrationsClaim(less, goal, units, v);
      PlanClaimAt(less, goal, units, v, |units[v].validation|);
      IndicesFollowPlaces(less, goal, units, v, |units[v].validation|, u, |units[u].validation|);
    }
  }

  /** What a claim decides comes from the plan. */
  lemma DecidedFromPlan(less: (Reference, Reference) -> bool, goal: set<Criterion>, units: seq<Unit>, s: Strategy)
    requires Justified(goal, PlanClaims(less, goal, units), s)
    ensures FromPlan(less, goal, units, s)
  {
    var xs, o := PlanClaims(less, goal, units), s.binding.obligation;
    var k: nat :| Decides(xs, o, k) && s.binding == BindingFor(xs[k]);
    hide PlanClaims;
    var u, i := PlaceInPlan(less, goal, units, k);
    hide IndexOf;
    if IsValidation(units, u, i) {
      DecidingValidation(less, goal, units, o, u, i);
    } else {
      DecidingIntegration(less, goal, units, o, u);
    }
  }

  /** What the plan asks for some claim decides. */
  lemma AskedIsDecided(less: (Reference, Reference) -> bool, goal: set<Criterion>, units: seq<Unit>, o: Obligation) returns (k: nat)
    requires Asked(goal, units, o)
    ensures Decides(PlanClaims(less, goal, units), o, k)
  {
    var xs := PlanClaims(less, goal, units);
    hide PlanClaims, IndexOf;
    if u: nat, i: nat :| Validates(goal, units, o, u, i) {
      ValidationsClaim(less, goal, units, u, i);
      assert Rooted(xs[IndexOf(less, goal, units, u, i)], o);
    } else {
      var u: nat :| Integrates(goal, units, o, u);
      IntegrationsClaim(less, goal, units, u);
      assert Rooted(xs[IndexOf(less, goal, units, u, |units[u].validation|)], o);
    }
    k := DecidingClaim(xs, o);
  }

  /** The strategies of all decided obligations are those that the plan asks for. */
  lemma StrategiesMeetPlan(less: (Reference, Reference) -> bool, goal: set<Criterion>, units: seq<Unit>, strategies: seq<Strategy>)
    requires
      var claims := PlanClaims(less, goal, units);
      && (forall s :: s in strategies ==> Justified(goal, claims, s))
      && (forall o, i: nat :: Decides(claims, o, i) ==> Strategy(StrategyId(o), BindingFor(claims[i])) in strategies)
    ensures forall s :: s in strategies ==> FromPlan(less, goal, units, s)
    ensures forall o :: Asked(goal, units, o) ==> exists s :: s in strategies && s.binding.obligation == o
  {
    hide PlanClaims, FromPlan, Asked, Justified;
    forall s | s in strategies ensures FromPlan(less, goal, units, s) { DecidedFromPlan(less, goal, units, s); }
    forall o | Asked(goal, units, o) ensures exists s :: s in strategies && s.binding.obligation == o {
      var k := AskedIsDecided(less, goal, units, o);
      assert BindingFor(PlanClaims(less, goal, units)[k]).obligation == o;
    }
  }
}
