/**
 executionBaseArtifacts: the artifacts a node has to lay down before it starts, in
 the order they must be applied.
 */
module ExecutionBase {
  import opened GraphSearch
  import opened Sorting

  type Node = nat

  datatype Contract = Contract(id: nat, revision: nat)

  datatype Requirement = Requirement(producer: Node, consumer: Node, contract: Contract)

  datatype Artifact = Artifact(producer: Node, contract: Contract)

  /** From every consumer to the producers of what it requires. */
  function Needs(requirements: seq<Requirement>): set<(Node, Node)> {
    set r | r in requirements :: (r.consumer, r.producer)
  }

  lemma NeedsIs(requirements: seq<Requirement>, consumer: Node, producer: Node)
    ensures (consumer, producer) in Needs(requirements) <==> exists r :: r in requirements && r.consumer == consumer && r.producer == producer
  {
  }

  function Nodes(requirements: seq<Requirement>, root: Node): set<Node> {
    {root} + set r | r in requirements :: r.producer
  }

  ghost predicate Acyclic(requirements: seq<Requirement>) {
    forall x :: !Reaches(Needs(requirements), x, x)
  }

  /** An ancestor of the node, or the node itself. */
  ghost predicate InBase(requirements: seq<Requirement>, root: Node, x: Node) {
    ReachesOrIs(Needs(requirements), root, x)
  }

  lemma NeedsMore(requirements: seq<Requirement>, root: Node, x: Node, y: Node)
    requires InBase(requirements, root, x) && (x, y) in Needs(requirements)
    ensures InBase(requirements, root, y) && Reaches(Needs(requirements), root, y)
  {
    var p :| WalkFromTo(Needs(requirements), p, root, x);
    ExtendWalk(Needs(requirements), p, root, x, y);
  }

  lemma OneStep(requirements: seq<Requirement>, x: Node, y: Node)
    requires (x, y) in Needs(requirements)
    ensures Reaches(Needs(requirements), x, y)
  {
    assert WalkFromTo(Needs(requirements), [x, y], x, y);
  }

  lemma ReachesMore(requirements: seq<Requirement>, x: Node, y: Node, z: Node)
    requires Reaches(Needs(requirements), x, y) && (y, z) in Needs(requirements)
    ensures Reaches(Needs(requirements), x, z)
  {
    var p :| |p| >= 2 && WalkFromTo(Needs(requirements), p, x, y);
    ExtendWalk(Needs(requirements), p, x, y, z);
  }

  /** Each node of the order needs only nodes before it. */
  ghost predicate ProducersFirst(requirements: seq<Requirement>, order: seq<Node>) {
    forall i, y :: 0 <= i < |order| && (order[i], y) in Needs(requirements) ==> y in order[..i]
  }

  lemma OneMoreInOrder(requirements: seq<Requirement>, order: seq<Node>, current: Node)
    requires ProducersFirst(requirements, order)
    requires forall y :: (current, y) in Needs(requirements) ==> y in order
    ensures ProducersFirst(requirements, order + [current])
  {
    var more := order + [current];
    forall i, y | 0 <= i < |more| && (more[i], y) in Needs(requirements) ensures y in more[..i] {
      if i < |order| {
        assert more[i] == order[i] && more[..i] == order[..i];
      } else {
        assert more[..i] == order;
      }
    }
  }

  // ---------------------------------------------------------------------------
  // The depth-first walk
  // ---------------------------------------------------------------------------

  class Walker {
    const requirements: seq<Requirement>
    const root: Node
    var order: seq<Node>
    var done: set<Node>
    var visiting: set<Node>

    /** The order lists what is done, without the root; what is done needs only what is done or under way. */
    ghost predicate Valid()
      reads this
    {
      && done !! visiting && done + visiting <= Nodes(requirements, root)
      && (forall x :: x in order <==> x in done && x != root)
      && (forall i, j :: 0 <= i < j < |order| ==> order[i] != order[j])
      && (forall x :: x in done ==> InBase(requirements, root, x))
      && (forall x, y :: x in done && (x, y) in Needs(requirements) ==> y in done || y in visiting)
      && (Acyclic(requirements) ==> ProducersFirst(requirements, order))
    }

    constructor (requirements: seq<Requirement>, root: Node)
      ensures Valid() && this.requirements == requirements && this.root == root
      ensures order == [] && done == {} && visiting == {}
    {
      this.requirements, this.root := requirements, root;
      order, done, visiting := [], {}, {};
    }

    /** What is under way leads to `current`. */
    ghost predicate LeadsTo(current: Node)
      reads this
    {
      && current in Nodes(requirements, root) && InBase(requirements, root, current)
      && (forall x :: x in visiting ==> Reaches(Needs(requirements), x, current))
      && (current == root || root in visiting)
    }

    method Visit(current: Node)
      requires Valid() && LeadsTo(current)
      modifies this
      ensures Valid() && visiting == old(visiting) && old(done) <= done
      ensures current in done || current in visiting
      decreases Nodes(requirements, root) - (done + visiting)
    {
      hide ProducersFirst, Acyclic, InBase, Needs, Nodes, Reaches;
      if current in done || current in visiting { return; }
      visiting := visiting + {current};
      for i := 0 to |requirements|
        invariant Valid() && visiting == old(visiting) + {current} && old(done) <= done && current !in done
        invariant forall j :: 0 <= j < i && requirements[j].consumer == current ==> requirements[j].producer in done || requirements[j].producer in visiting
      {
        var r := requirements[i];
        if r.consumer == current {
          Descend(current, r);
          Visit(r.producer);
        }
      }
      Close(current, old(visiting));
      if Acyclic(requirements) { OneMoreInOrder(requirements, order, current); }
      visiting := visiting - {current};
      done := done + {current};
      if current != root { order := order + [current]; }
      assert visiting == old(visiting);
    }

    lemma Descend(current: Node, r: Requirement)
      requires r in requirements && r.consumer == current && current in visiting && InBase(requirements, root, current)
      requires forall x :: x in visiting && x != current ==> Reaches(Needs(requirements), x, current)
      requires current == root || root in visiting
      ensures LeadsTo(r.producer)
    {
      NeedsIs(requirements, current, r.producer);
      NeedsMore(requirements, root, current, r.producer);
      forall x | x in visiting ensures Reaches(Needs(requirements), x, r.producer) {
        if x == current { OneStep(requirements, current, r.producer); } else { ReachesMore(requirements, x, current, r.producer); }
      }
    }

    /** Everything `current` needs is done when nothing leads back to it. */
    lemma Close(current: Node, before: set<Node>)
      requires Valid() && visiting == before + {current} && current !in before && InBase(requirements, root, current)
      requires forall x :: x in before ==> Reaches(Needs(requirements), x, current)
      requires current == root || root in before
      requires forall j :: 0 <= j < |requirements| && requirements[j].consumer == current ==> requirements[j].producer in done || requirements[j].producer in visiting
      ensures forall y :: (current, y) in Needs(requirements) ==> y in done || y in visiting
      ensures Acyclic(requirements) ==> forall y :: (current, y) in Needs(requirements) ==> y in order
    {
      forall y | (current, y) in Needs(requirements)
        ensures y in done || y in visiting
        ensures Acyclic(requirements) ==> y in order
      {
        NeedsIs(requirements, current, y);
        var r :| r in requirements && r.consumer == current && r.producer == y;
        var j :| 0 <= j < |requirements| && requirements[j] == r;
        if y in before {
          ReachesMore(requirements, y, current, y);
        } else if y == current {
          OneStep(requirements, current, current);
        }
      }
    }
  }

  /** What is done after the walk is the base: a closed set that holds the root. */
  lemma {:induction false} BaseIsDone(requirements: seq<Requirement>, done: set<Node>, p: seq<Node>)
    requires p != [] && p[0] in done && Walk(Needs(requirements), p)
    requires forall x, y :: x in done && (x, y) in Needs(requirements) ==> y in done
    ensures p[|p| - 1] in done
    decreases |p|
  {
    if |p| >= 2 {
      var q := p[..|p| - 1];
      assert forall i :: 0 <= i < |q| - 1 ==> (q[i], q[i + 1]) == (p[i], p[i + 1]);
      BaseIsDone(requirements, done, q);
      assert (p[|p| - 2], p[|p| - 1]) in Needs(requirements);
    }
  }

  /** The order of the walk: every ancestor but the node itself, once, producers first on acyclic graphs. */
  method BaseOrder(requirements: seq<Requirement>, root: Node) returns (order: seq<Node>)
    ensures forall x :: x in order <==> InBase(requirements, root, x) && x != root
    ensures forall i, j :: 0 <= i < j < |order| ==> order[i] != order[j]
    ensures Acyclic(requirements) ==> ProducersFirst(requirements, order)
  {
    var walker := new Walker(requirements, root);
    assert WalkFromTo(Needs(requirements), [root], root, root);
    walker.Visit(root);
    order := walker.order;
    forall x | InBase(requirements, root, x) ensures x in walker.done {
      var p :| WalkFromTo(Needs(requirements), p, root, x);
      BaseIsDone(requirements, walker.done, p);
    }
  }

  // ---------------------------------------------------------------------------
  // The artifacts
  // ---------------------------------------------------------------------------

  predicate Listed(artifacts: seq<Artifact>, contract: Contract) {
    exists k :: 0 <= k < |artifacts| && artifacts[k].contract == contract
  }

  /** A requirement of the base: from a producer in `producers` to a consumer in the base. */
  predicate Belongs(r: Requirement, producers: seq<Node>, base: set<Node>) {
    r.producer in producers && r.consumer in base
  }

  /** Exactly the contracts of `required`, no contract twice, each from a requirement. */
  ghost predicate Lists(artifacts: seq<Artifact>, required: set<Requirement>) {
    && (forall contract :: Listed(artifacts, contract) <==> exists r :: r in required && r.contract == contract)
    && (forall i, j :: 0 <= i < j < |artifacts| ==> artifacts[i].contract != artifacts[j].contract)
    && (forall k :: 0 <= k < |artifacts| ==>
          exists r :: r in required && r.producer == artifacts[k].producer && r.contract == artifacts[k].contract)
  }

  /** Before each artifact come all artifacts that its producer consumes. */
  ghost predicate Supplied(requirements: seq<Requirement>, artifacts: seq<Artifact>) {
    forall k, r :: 0 <= k < |artifacts| && r in requirements && r.consumer == artifacts[k].producer ==> Listed(artifacts[..k], r.contract)
  }

  lemma ListsMore(artifacts: seq<Artifact>, required: set<Requirement>, r: Requirement)
    requires Lists(artifacts, required)
    ensures Lists(if Listed(artifacts, r.contract) then artifacts else artifacts + [Artifact(r.producer, r.contract)], required + {r})
  {
    var after := if Listed(artifacts, r.contract) then artifacts else artifacts + [Artifact(r.producer, r.contract)];
    forall contract ensures Listed(after, contract) <==> Listed(artifacts, contract) || contract == r.contract {
      if Listed(artifacts, contract) {
        var k :| 0 <= k < |artifacts| && artifacts[k].contract == contract;
        assert after[k].contract == contract;
      }
      if contract == r.contract && !Listed(artifacts, contract) { assert after[|artifacts|].contract == contract; }
    }
    assert r in required + {r};
  }

  lemma SuppliedMore(requirements: seq<Requirement>, artifacts: seq<Artifact>, a: Artifact)
    requires Supplied(requirements, artifacts)
    requires forall r :: r in requirements && r.consumer == a.producer ==> Listed(artifacts, r.contract)
    ensures Supplied(requirements, artifacts + [a])
  {
    var more := artifacts + [a];
    forall k, r | 0 <= k < |more| && r in requirements && r.consumer == more[k].producer ensures Listed(more[..k], r.contract) {
      if k < |artifacts| { assert more[..k] == artifacts[..k] && more[k] == artifacts[k]; } else { assert more[..k] == artifacts; }
    }
  }

  /** The requirements of the base with these producers. */
  function Taken(requirements: seq<Requirement>, producers: seq<Node>, base: set<Node>): set<Requirement> {
    set r | r in requirements && Belongs(r, producers, base)
  }

  lemma ListedStays(artifacts: seq<Artifact>, more: seq<Artifact>, contract: Contract)
    requires artifacts <= more && Listed(artifacts, contract)
    ensures Listed(more, contract)
  {
    var k :| 0 <= k < |artifacts| && artifacts[k].contract == contract;
    assert more[k].contract == contract;
  }

  /** What the producer is built on is listed. */
  ghost predicate Ready(requirements: seq<Requirement>, artifacts: seq<Artifact>, producer: Node) {
    forall r :: r in requirements && r.consumer == producer ==> Listed(artifacts, r.contract)
  }

  method AddProducer(requirements: seq<Requirement>, producer: Node, base: set<Node>, before: seq<Artifact>, ghost required: set<Requirement>)
    returns (artifacts: seq<Artifact>)
    requires Lists(before, required)
    ensures Lists(artifacts, required + Taken(requirements, [producer], base))
    ensures Supplied(requirements, before) && Ready(requirements, before, producer) ==> Supplied(requirements, artifacts)
  {
    hide Lists, Listed, Supplied;
    artifacts := before;
    ghost var taken: set<Requirement> := {};
    assert required + taken == required;
    for i := 0 to |requirements|
      invariant taken == Taken(requirements[..i], [producer], base)
      invariant before <= artifacts && Lists(artifacts, required + taken)
      invariant Supplied(requirements, before) && Ready(requirements, before, producer) ==> Supplied(requirements, artifacts)
    {
      var r := requirements[i];
      TakenNext(requirements, i, producer, base);
      if r.producer != producer || r.consumer !in base {
        continue;
      }
      ListsMore(artifacts, required + taken, r);
      assert required + taken + {r} == required + (taken + {r});
      taken := taken + {r};
      if Listed(artifacts, r.contract) {
        continue;
      }
      if Supplied(requirements, artifacts) && Ready(requirements, before, producer) {
        forall q | q in requirements && q.consumer == producer ensures Listed(artifacts, q.contract) {
          ListedStays(before, artifacts, q.contract);
        }
        SuppliedMore(requirements, artifacts, Artifact(producer, r.contract));
      }
      artifacts := artifacts + [Artifact(producer, r.contract)];
    }
    assert requirements[..|requirements|] == requirements;
  }

  lemma TakenNext(requirements: seq<Requirement>, i: nat, producer: Node, base: set<Node>)
    requires i < |requirements|
    ensures
      var r := requirements[i];
      Taken(requirements[..i + 1], [producer], base)
      == Taken(requirements[..i], [producer], base) + if r.producer == producer && r.consumer in base then {r} else {}
  {
    assert requirements[..i + 1] == requirements[..i] + [requirements[i]];
  }

  /** The requirements among the node's base: the producer a strict ancestor, the consumer an ancestor or the node. */
  ghost function BaseRequirements(requirements: seq<Requirement>, node: Node): set<Requirement> {
    set r | r in requirements && InBase(requirements, node, r.producer) && r.producer != node && InBase(requirements, node, r.consumer)
  }

  lemma ReadyInOrder(requirements: seq<Requirement>, order: seq<Node>, base: set<Node>, i: nat, artifacts: seq<Artifact>)
    requires i < |order| && order[i] in base && ProducersFirst(requirements, order)
    requires Lists(artifacts, Taken(requirements, order[..i], base))
    ensures Ready(requirements, artifacts, order[i])
  {
    forall r | r in requirements && r.consumer == order[i] ensures Listed(artifacts, r.contract) {
      NeedsIs(requirements, r.consumer, r.producer);
      assert r in Taken(requirements, order[..i], base);
    }
  }

  lemma TakenMore(requirements: seq<Requirement>, order: seq<Node>, i: nat, base: set<Node>)
    requires i < |order|
    ensures Taken(requirements, order[..i + 1], base) == Taken(requirements, order[..i], base) + Taken(requirements, [order[i]], base)
  {
    assert order[..i + 1] == order[..i] + [order[i]];
  }

  /** Terminates on every graph. The artifacts are exactly the contracts of the base's requirements, each
      once; on acyclic graphs every artifact comes after all artifacts its producer consumes. */
  method ExecutionBaseArtifacts(requirements: seq<Requirement>, node: Node) returns (artifacts: seq<Artifact>)
    ensures Lists(artifacts, BaseRequirements(requirements, node))
    ensures Acyclic(requirements) ==> Supplied(requirements, artifacts)
  {
    hide InBase, Acyclic, ProducersFirst, Lists, Supplied, Ready, Taken;
    var order := BaseOrder(requirements, node);
    var reachable := Elements(order) + {node};
    artifacts := [];
    NothingTaken(requirements, reachable);
    for i := 0 to |order|
      invariant Lists(artifacts, Taken(requirements, order[..i], reachable))
      invariant Acyclic(requirements) ==> Supplied(requirements, artifacts)
    {
      if Acyclic(requirements) { ReadyInOrder(requirements, order, reachable, i, artifacts); }
      TakenMore(requirements, order, i, reachable);
      artifacts := AddProducer(requirements, order[i], reachable, artifacts, Taken(requirements, order[..i], reachable));
    }
    assert order[..|order|] == order;
    AllTaken(requirements, node, order, reachable);
  }

  lemma NothingTaken(requirements: seq<Requirement>, base: set<Node>)
    ensures Lists([], Taken(requirements, [], base)) && Supplied(requirements, [])
  {
  }

  lemma AllTaken(requirements: seq<Requirement>, node: Node, order: seq<Node>, reachable: set<Node>)
    requires forall x :: x in order <==> InBase(requirements, node, x) && x != node
    requires reachable == Elements(order) + {node}
    ensures Taken(requirements, order, reachable) == BaseRequirements(requirements, node)
  {
    assert WalkFromTo(Needs(requirements), [node], node, node);
    forall x ensures x in reachable <==> InBase(requirements, node, x) {
      assert x in Elements(order) <==> x in order;
    }
  }
}
