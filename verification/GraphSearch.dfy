/**
 The graph searches of the repository index: a depth-first search upwards through
 containers, and breadth-first neighbourhoods of bounded depth.
 */
module GraphSearch {
  import opened Options

  /** `p` is a walk along `edges`. */
  predicate Walk<T(==)>(edges: set<(T, T)>, p: seq<T>) {
    forall i :: 0 <= i < |p| - 1 ==> (p[i], p[i + 1]) in edges
  }

  predicate WalkFromTo<T(==)>(edges: set<(T, T)>, p: seq<T>, a: T, b: T) {
    p != [] && p[0] == a && p[|p| - 1] == b && Walk(edges, p)
  }

  /** `b` is one or more steps from `a`. */
  ghost predicate Reaches<T(!new)>(edges: set<(T, T)>, a: T, b: T) {
    exists p :: |p| >= 2 && WalkFromTo(edges, p, a, b)
  }

  ghost predicate ReachesOrIs<T(!new)>(edges: set<(T, T)>, a: T, b: T) {
    exists p :: WalkFromTo(edges, p, a, b)
  }

  lemma ExtendWalk<T>(edges: set<(T, T)>, p: seq<T>, a: T, b: T, c: T)
    requires WalkFromTo(edges, p, a, b) && (b, c) in edges
    ensures WalkFromTo(edges, p + [c], a, c)
  {
    var q := p + [c];
    forall i | 0 <= i < |q| - 1 ensures (q[i], q[i + 1]) in edges {
      assert i < |p| - 1 ==> (p[i], p[i + 1]) in edges;
    }
  }

  // ---------------------------------------------------------------------------
  // containsResource
  // ---------------------------------------------------------------------------

  /** member to container, for every relation. */
  function ParentEdges<T(!new)>(parents: map<T, set<T>>): set<(T, T)> {
    set m, c | m in parents && c in parents[m] :: (m, c)
  }

  function ParentsOf<T>(parents: map<T, set<T>>, m: T): set<T> {
    if m in parents then parents[m] else {}
  }

  ghost function Universe<T(!new)>(parents: map<T, set<T>>, member: T): set<T> {
    {member} + (set m, c | m in parents && c in parents[m] :: c)
  }

  /** Every known parent of a visited id is visited or pending, and none of them is the container. */
  ghost predicate Explored<T(!new)>(parents: map<T, set<T>>, container: T, visited: set<T>, pending: seq<T>) {
    forall v, c :: v in visited && c in ParentsOf(parents, v) ==> c != container && (c in visited || c in pending)
  }

  lemma EdgeIsParent<T(!new)>(parents: map<T, set<T>>, m: T, c: T)
    ensures (m, c) in ParentEdges(parents) <==> c in ParentsOf(parents, m)
  {
  }

  /** A walk that starts in an explored set without pending ids stays in it and misses the container. */
  lemma {:induction false} WalkStaysExplored<T(!new)>(parents: map<T, set<T>>, container: T, visited: set<T>, p: seq<T>)
    requires Explored(parents, container, visited, []) && p != [] && p[0] in visited && Walk(ParentEdges(parents), p)
    ensures p[|p| - 1] in visited && (|p| >= 2 ==> p[|p| - 1] != container)
    decreases |p|
  {
    if |p| >= 2 {
      var q := p[..|p| - 1];
      assert forall i :: 0 <= i < |q| - 1 ==> (q[i], q[i + 1]) == (p[i], p[i + 1]);
      WalkStaysExplored(parents, container, visited, q);
      assert (p[|p| - 2], p[|p| - 1]) in ParentEdges(parents);
      EdgeIsParent(parents, p[|p| - 2], p[|p| - 1]);
    }
  }

  lemma ReachesParent<T(!new)>(parents: map<T, set<T>>, member: T, current: T, c: T)
    requires ReachesOrIs(ParentEdges(parents), member, current) && c in ParentsOf(parents, current)
    ensures Reaches(ParentEdges(parents), member, c) && ReachesOrIs(ParentEdges(parents), member, c)
  {
    var p :| WalkFromTo(ParentEdges(parents), p, member, current);
    EdgeIsParent(parents, current, c);
    ExtendWalk(ParentEdges(parents), p, member, current, c);
  }

  /** Pushes a set on the stack; the order does not matter. */
  method PushAll<T(==, !new)>(pending: seq<T>, more: set<T>) returns (r: seq<T>)
    ensures pending <= r && forall x :: x in r <==> x in pending || x in more
  {
    r := pending;
    var left := more;
    while left != {}
      invariant pending <= r && left <= more
      invariant forall x :: x in r <==> x in pending || (x in more && x !in left)
      decreases left
    {
      var x :| x in left;
      r := r + [x];
      left := left - {x};
    }
  }

  lemma StillExplored<T(!new)>(parents: map<T, set<T>>, container: T, visited: set<T>, before: seq<T>, after: seq<T>, current: T)
    requires Explored(parents, container, visited, before) && current in visited
    requires forall x :: x in before ==> x in after || x == current
    ensures Explored(parents, container, visited, after)
  {
    forall v, c | v in visited && c in ParentsOf(parents, v) ensures c != container && (c in visited || c in after) {
      if c !in visited { assert c in before; }
    }
  }

  lemma OneMoreExplored<T(!new)>(parents: map<T, set<T>>, container: T, visited: set<T>, before: seq<T>, after: seq<T>, current: T)
    requires Explored(parents, container, visited, before) && container !in ParentsOf(parents, current)
    requires forall x :: x in before ==> x in after || x == current
    requires forall x :: x in ParentsOf(parents, current) ==> x in after
    ensures Explored(parents, container, visited + {current}, after)
  {
    forall v, c | v in visited + {current} && c in ParentsOf(parents, v)
      ensures c != container && (c in visited + {current} || c in after)
    {
      if v != current { assert v in visited && (c in visited || c in before); }
    }
  }

  /** True exactly when the container is one or more containment steps above the member. */
  method ContainsResource<T(==, !new)>(parents: map<T, set<T>>, container: T, member: T) returns (found: bool)
    ensures found <==> Reaches(ParentEdges(parents), member, container)
  {
    var pending := [member];
    var visited: set<T> := {};
    assert WalkFromTo(ParentEdges(parents), [member], member, member);
    while pending != []
      invariant member in visited || member in pending
      invariant Explored(parents, container, visited, pending)
      invariant visited <= Universe(parents, member) && forall x :: x in pending ==> x in Universe(parents, member)
      invariant forall x :: x in visited || x in pending ==> ReachesOrIs(ParentEdges(parents), member, x)
      decreases Universe(parents, member) - visited, |pending|
    {
      ghost var before := pending;
      var current := pending[|pending| - 1];
      pending := pending[..|pending| - 1];
      assert forall x :: x in before <==> x in pending || x == current by { assert before == pending + [current]; }
      if current in visited {
        StillExplored(parents, container, visited, before, pending, current);
        continue;
      }
      visited := visited + {current};
      var up := ParentsOf(parents, current);
      forall c | c in up ensures Reaches(ParentEdges(parents), member, c) && ReachesOrIs(ParentEdges(parents), member, c) {
        ReachesParent(parents, member, current, c);
      }
      if container in up {
        return true;
      }
      pending := PushAll(pending, up);
      OneMoreExplored(parents, container, visited - {current}, before, pending, current);
      assert visited - {current} + {current} == visited;
    }
    if Reaches(ParentEdges(parents), member, container) {
      var p :| |p| >= 2 && WalkFromTo(ParentEdges(parents), p, member, container);
      WalkStaysExplored(parents, container, visited, p);
    }
    return false;
  }

  // ---------------------------------------------------------------------------
  // Neighbourhoods
  // ---------------------------------------------------------------------------

  /** The edges of `relations`, in both directions. */
  function Undirected<T(==, !new)>(relations: seq<(T, T)>): set<(T, T)> {
    (set r | r in relations :: r) + (set r | r in relations :: (r.1, r.0))
  }

  /** `b` is at most `n` steps from `a`. */
  ghost predicate Within<T(!new)>(edges: set<(T, T)>, a: T, b: T, n: nat) {
    exists p :: |p| <= n + 1 && WalkFromTo(edges, p, a, b)
  }

  ghost predicate IsBall<T(!new)>(edges: set<(T, T)>, a: T, n: nat, ball: set<T>) {
    forall x :: x in ball <==> Within(edges, a, x, n)
  }

  /** All edges leaving the ball leave it from its frontier. */
  ghost predicate Frontier<T(!new)>(edges: set<(T, T)>, ball: set<T>, frontier: set<T>) {
    frontier <= ball && forall x, y :: (x, y) in edges && x in ball && x !in frontier ==> y in ball
  }

  ghost predicate IsNext<T(!new)>(edges: set<(T, T)>, ball: set<T>, frontier: set<T>, next: set<T>) {
    forall y :: y in next <==> y !in ball && exists x :: x in frontier && (x, y) in edges
  }

  lemma WithinStep<T(!new)>(edges: set<(T, T)>, a: T, x: T, y: T, n: nat)
    requires Within(edges, a, x, n) && (x, y) in edges
    ensures Within(edges, a, y, n + 1)
  {
    var p :| |p| <= n + 1 && WalkFromTo(edges, p, a, x);
    ExtendWalk(edges, p, a, x, y);
  }

  /** The last step of a walk of at most n + 1 steps. */
  lemma WithinUnstep<T(!new)>(edges: set<(T, T)>, a: T, y: T, n: nat) returns (x: T)
    requires Within(edges, a, y, n + 1) && !Within(edges, a, y, n)
    ensures Within(edges, a, x, n) && (x, y) in edges
  {
    var p :| |p| <= n + 2 && WalkFromTo(edges, p, a, y);
    assert |p| == n + 2;
    x := p[|p| - 2];
    var q := p[..|p| - 1];
    assert forall i :: 0 <= i < |q| - 1 ==> (q[i], q[i + 1]) == (p[i], p[i + 1]);
    assert WalkFromTo(edges, q, a, x);
  }

  lemma WithinMore<T(!new)>(edges: set<(T, T)>, a: T, x: T, n: nat)
    requires Within(edges, a, x, n)
    ensures Within(edges, a, x, n + 1)
  {
    var p :| |p| <= n + 1 && WalkFromTo(edges, p, a, x);
  }

  /** One level of a breadth-first search. */
  lemma NextLevel<T(!new)>(edges: set<(T, T)>, a: T, n: nat, ball: set<T>, frontier: set<T>, next: set<T>)
    requires IsBall(edges, a, n, ball) && Frontier(edges, ball, frontier) && IsNext(edges, ball, frontier, next)
    ensures IsBall(edges, a, n + 1, ball + next) && Frontier(edges, ball + next, next)
  {
    forall y | y in ball + next ensures Within(edges, a, y, n + 1) {
      if y in ball {
        WithinMore(edges, a, y, n);
      } else {
        var x :| x in frontier && (x, y) in edges;
        WithinStep(edges, a, x, y, n);
      }
    }
    forall y | Within(edges, a, y, n + 1) && y !in ball ensures y in next {
      var x := WithinUnstep(edges, a, y, n);
      assert x in frontier;
    }
    forall x, y | (x, y) in edges && x in ball + next && x !in next ensures y in ball + next {
      if x in frontier && y !in ball { assert y in next; }
    }
  }

  lemma StartBall<T(!new)>(edges: set<(T, T)>, a: T)
    ensures IsBall(edges, a, 0, {a}) && Frontier(edges, {a}, {a})
  {
    assert WalkFromTo(edges, [a], a, a);
    forall x | Within(edges, a, x, 0) ensures x == a {
      var p :| |p| <= 1 && WalkFromTo(edges, p, a, x);
    }
  }

  /** What one more relation adds to the edges. */
  lemma OneMore<T(!new)>(relations: seq<(T, T)>, r: (T, T), x: T, y: T)
    ensures (x, y) in Undirected(relations + [r]) <==> (x, y) in Undirected(relations) || (x, y) == r || (y, x) == r
  {
    var more := relations + [r];
    assert more[|relations|] == r;
    assert forall q :: q in more <==> q in relations || q == r;
    assert (x, y) in Undirected(relations) <==> (x, y) in relations || (y, x) in relations by { UndirectedIs(relations, x, y); }
    UndirectedIs(more, x, y);
  }

  lemma UndirectedIs<T(!new)>(relations: seq<(T, T)>, x: T, y: T)
    ensures (x, y) in Undirected(relations) <==> (x, y) in relations || (y, x) in relations
  {
    if (y, x) in relations { assert ((y, x).1, (y, x).0) == (x, y); }
  }

  /** The ids one step from `id` that have not been visited, added to `before`. */
  method AddNeighbours<T(==, !new)>(relations: seq<(T, T)>, visited: set<T>, id: T, before: set<T>) returns (next: set<T>)
    ensures forall y :: y in next <==> y in before || (y !in visited && (id, y) in Undirected(relations))
  {
    next := before;
    for i := 0 to |relations|
      invariant forall y :: y in next <==> y in before || (y !in visited && (id, y) in Undirected(relations[..i]))
    {
      var r := relations[i];
      assert relations[..i + 1] == relations[..i] + [r];
      forall y { OneMore(relations[..i], r, id, y); }
      if r.0 == id && r.1 !in visited { next := next + {r.1}; }
      if r.1 == id && r.0 !in visited { next := next + {r.0}; }
    }
    assert relations[..|relations|] == relations;
  }

  /** neighborhood: exactly the ids at undirected distance at most `depth`. */
  method Neighborhood<T(==, !new)>(relations: seq<(T, T)>, start: T, depth: nat) returns (visited: set<T>)
    ensures IsBall(Undirected(relations), start, depth, visited)
  {
    ghost var edges := Undirected(relations);
    visited := {start};
    var frontier := {start};
    StartBall(edges, start);
    for level := 0 to depth
      invariant IsBall(edges, start, level, visited) && Frontier(edges, visited, frontier)
    {
      var next: set<T> := {};
      var left := frontier;
      while left != {}
        invariant left <= frontier && IsNext(edges, visited, frontier - left, next)
        decreases left
      {
        var id :| id in left;
        ghost var done := frontier - left;
        next := AddNeighbours(relations, visited, id, next);
        left := left - {id};
        assert frontier - left == done + {id};
        assert IsNext(edges, visited, frontier - left, next);
      }
      assert frontier - left == frontier;
      NextLevel(edges, start, level, visited, frontier, next);
      frontier := next;
      visited := visited + frontier;
    }
  }

  /** An import and the module it resolves to, if any. */
  datatype Import<T> = Import(importer: T, resolved: Option<T>)

  function Resolved<T>(imports: seq<Import<T>>): seq<(T, T)> {
    if imports == [] then []
    else
      var last := imports[|imports| - 1];
      Resolved(imports[..|imports| - 1]) + if last.resolved.Some? then [(last.importer, last.resolved.value)] else []
  }

  /** One level of dependencyNeighborhood. */
  method NextModules<T(==, !new)>(imports: seq<Import<T>>, visited: set<T>, frontier: set<T>) returns (next: set<T>)
    ensures IsNext(Undirected(Resolved(imports)), visited, frontier, next)
  {
    next := {};
    for i := 0 to |imports|
      invariant IsNext(Undirected(Resolved(imports[..i])), visited, frontier, next)
    {
      var r := imports[i];
      assert imports[..i + 1][..i] == imports[..i];
      ghost var before := Resolved(imports[..i]);
      if r.resolved.None? {
        assert Resolved(imports[..i + 1]) == before;
        continue;
      }
      var to := r.resolved.value;
      assert Resolved(imports[..i + 1]) == before + [(r.importer, to)];
      forall x, y { OneMore(before, (r.importer, to), x, y); }
      if r.importer in frontier && to !in visited { next := next + {to}; }
      if to in frontier && r.importer !in visited { next := next + {r.importer}; }
      assert IsNext(Undirected(before + [(r.importer, to)]), visited, frontier, next);
    }
    assert imports[..|imports|] == imports;
  }

  /** dependencyNeighborhood: the visited modules are exactly those at distance at most `depth`. */
  method DependencyNeighborhood<T(==, !new)>(imports: seq<Import<T>>, start: T, depth: nat) returns (visited: set<T>)
    ensures IsBall(Undirected(Resolved(imports)), start, depth, visited)
  {
    ghost var edges := Undirected(Resolved(imports));
    visited := {start};
    var frontier := {start};
    StartBall(edges, start);
    for level := 0 to depth
      invariant IsBall(edges, start, level, visited) && Frontier(edges, visited, frontier)
    {
      var next := NextModules(imports, visited, frontier);
      NextLevel(edges, start, level, visited, frontier, next);
      frontier := next;
      visited := visited + frontier;
    }
  }
}
