/**
 The resource catalog: which resource a reference names, and whether two references
 overlap. A catalog id is a digest of the locator, so a resource and its id are named
 here by the locator itself; the resources of a repository model all have a path.
 */
module ResourceCatalog {
  import opened Options
  import opened GraphSearch
  import opened PosixPaths

  type Path = string

  /** `ResourcePath` is a reference spelled resource:path: or resource:file:; `Other` has none of the prefixes. */
  datatype Locator =
    | PathLoc(path: Path)
    | ModuleLoc(path: Path)
    | SymbolLoc(path: Path, name: string)
    | PackageLoc(path: Path)
    | ResourcePath(path: Path)
    | Other(text: string)

  /** A reference is the id of a resource of this catalog, or a locator. */
  datatype Reference = ById(locator: Locator) | ByLocator(locator: Locator)

  datatype Id = Indexed(locator: Locator) | Declared(path: Path)

  /** `known` is whether the epistemic state is known, `surface` whether the kind is a schema or an
      integration surface. */
  datatype Resource = Resource(locator: Locator, path: Path, known: bool, gitlink: bool, surface: bool)

  datatype Symbol = Symbol(path: Path, name: string)

  /** `locator` is the package-export locator, `target` the path in the repository. */
  datatype Export = Export(locator: string, target: Path)

  datatype Model = Model(
    resources: seq<Resource>, packages: seq<Path>, symbols: seq<Symbol>, exports: seq<Export>, coverageUnknown: bool)

  datatype Alias = Alias(locator: Locator, target: Locator)

  datatype Containment = Containment(container: Locator, member: Locator)

  datatype Material = Material(
    resources: map<Locator, Resource>, contains: set<Containment>, aliases: set<Alias>, coverageUnknown: bool)

  // ---------------------------------------------------------------------------
  // Paths
  // ---------------------------------------------------------------------------

  /** `p` starts with the directory `dir` and a slash. */
  predicate Inside(p: Path, dir: Path) {
    dir + "/" <= p
  }

  /** `p` is in the subtree of `dir`; the empty path is the repository root. */
  predicate Under(p: Path, dir: Path) {
    dir == "" || p == dir || Inside(p, dir)
  }

  /** Some path, existing or not, is in both subtrees. */
  ghost predicate Share(p: Path, q: Path) {
    exists x :: Under(x, p) && Under(x, q)
  }

  function Forward(p: Path): (r: Path)
    ensures |r| == |p| && forall i :: 0 <= i < |p| ==> r[i] == if p[i] == '\\' then '/' else p[i]
  {
    seq(|p|, i requires 0 <= i < |p| => if p[i] == '\\' then '/' else p[i])
  }

  /** normalizePosixPath. */
  function Normal(p: Path): Path {
    var forward := Forward(p);
    if forward != "" && forward[0] == '/' then forward[1..] else forward
  }

  predicate DisjointPaths(left: Path, right: Path) {
    var l, r := Normal(left), Normal(right);
    l != r && l != "" && r != "" && !Inside(l, r) && !Inside(r, l)
  }

  lemma InsidePrefix(p: Path, dir: Path)
    ensures Inside(p, dir) <==> |p| > |dir| && p[..|dir|] == dir && p[|dir|] == '/'
  {
    if |p| > |dir| {
      assert p[..|dir| + 1] == p[..|dir|] + [p[|dir|]];
      assert dir + "/" == dir + ['/'];
      if Inside(p, dir) {
        assert p[..|dir| + 1] == dir + "/";
        assert (dir + "/")[..|dir|] == dir && (dir + "/")[|dir|] == '/';
      }
    }
  }

  /** Two subtrees share a path exactly when one is in the other. */
  lemma ShareIsUnder(p: Path, q: Path)
    ensures Share(p, q) <==> Under(p, q) || Under(q, p)
  {
    if Under(p, q) { assert Under(p, p); }
    if Under(q, p) { assert Under(q, q); }
    if Share(p, q) {
      var x :| Under(x, p) && Under(x, q);
      CommonPathNests(x, p, q);
    }
  }

  lemma CommonPathNests(x: Path, p: Path, q: Path)
    requires Under(x, p) && Under(x, q)
    ensures Under(p, q) || Under(q, p)
  {
    InsidePrefix(x, p);
    InsidePrefix(x, q);
    InsidePrefix(p, q);
    InsidePrefix(q, p);
    if p != "" && q != "" && x != p && x != q {
      if |p| < |q| { assert q[..|p|] == x[..|p|] && q[|p|] == x[|p|]; }
      else if |q| < |p| { assert p[..|q|] == x[..|q|] && p[|q|] == x[|q|]; }
    }
  }

  lemma UnderIsTransitive(p: Path, q: Path, r: Path)
    requires Under(p, q) && Under(q, r)
    ensures Under(p, r)
  {
    InsidePrefix(p, q);
    InsidePrefix(q, r);
    InsidePrefix(p, r);
    if q != "" && r != "" && p != q && q != r {
      assert p[..|q|][..|r|] == p[..|r|];
    }
    if q == "" && r != "" { assert false; }
  }

  /** Normalising keeps nesting, so paths judged disjoint share nothing. */
  lemma NormalKeepsUnder(p: Path, dir: Path)
    requires Under(p, dir)
    ensures Normal(dir) == "" || Under(Normal(p), Normal(dir))
  {
    InsidePrefix(p, dir);
    InsidePrefix(Normal(p), Normal(dir));
    if Inside(p, dir) && Normal(dir) != "" {
      var fp, fd := Forward(p), Forward(dir);
      assert forall i :: 0 <= i < |dir| ==> p[i] == p[..|dir|][i] == dir[i];
      assert forall i :: 0 <= i < |fd| ==> fp[i] == fd[i];
      assert fp[|fd|] == '/';
      var skip := if fd[0] == '/' then 1 else 0;
      assert Normal(p) == fp[skip..] && Normal(dir) == fd[skip..];
      assert Normal(p)[..|Normal(dir)|] == Normal(dir);
    }
  }

  lemma DisjointShareNothing(p: Path, q: Path)
    requires DisjointPaths(p, q)
    ensures !Share(p, q)
  {
    ShareIsUnder(p, q);
    if Under(p, q) { NormalKeepsUnder(p, q); }
    if Under(q, p) { NormalKeepsUnder(q, p); }
  }

  // ---------------------------------------------------------------------------
  // Resolution
  // ---------------------------------------------------------------------------

  datatype Resolution = Known(id: Id, path: Path, known: bool) | Conflicting | Unknown

  datatype Overlap = Yes | No | Undecided

  predicate Aliased(m: Material, l: Locator) {
    exists a :: a in m.aliases && a.locator == l
  }

  /** The existing resources that aliases of `l` name. */
  function Targets(m: Material, l: Locator): set<Locator> {
    TargetsIn(m.aliases, m.resources, l)
  }

  function TargetsIn(aliases: set<Alias>, rs: map<Locator, Resource>, l: Locator): set<Locator> {
    set a | a in aliases && a.locator == l && a.target in rs :: a.target
  }

  /** The resources a reference names before directories are considered. */
  function Candidates(m: Material, r: Reference): set<Locator> {
    var l := r.locator;
    match r
    case ById(_) => if l !in m.resources then {} else if Targets(m, l) != {} then Targets(m, l) else {l}
    case ByLocator(_) => Targets(m, l) + if l in m.resources && !Aliased(m, l) then {l} else {}
  }

  /** extractPathLocator. */
  function PathOf(r: Reference): Option<Path> {
    match r
    case ByLocator(PathLoc(p)) => Some(Normal(p))
    case ByLocator(ResourcePath(p)) => Some(Normal(p))
    case _ => None
  }

  function WithoutPrefix(text: string): (r: string)
    ensures text == r || text == "path:" + r
    ensures text == r ==> !("path:" <= text)
  {
    if "path:" <= text then text[5..] else text
  }

  predicate InsideGitlink(m: Material, text: string) {
    exists l :: l in m.resources && m.resources[l].gitlink && Inside(WithoutPrefix(text), m.resources[l].path)
  }

  /** The directory a path locator names when no resource has that locator. */
  function DeclaredDirectory(m: Material, r: Reference): Option<Path> {
    if m.coverageUnknown || PathOf(r).None? || PathOf(r).value == "" then None
    else
      var p := PathOf(r).value;
      if "" in Segments(p) || "." in Segments(p) || ".." in Segments(p) || InsideGitlink(m, p) then None else Some(p)
  }

  ghost function Resolve(m: Material, r: Reference): Resolution {
    var c := Candidates(m, r);
    if |c| == 1 then
      var l :| l in c;
      assert l in m.resources;
      Known(Indexed(l), m.resources[l].path, m.resources[l].known)
    else if |c| > 1 then Conflicting
    else if DeclaredDirectory(m, r).Some? then Known(Declared(DeclaredDirectory(m, r).value), DeclaredDirectory(m, r).value, true)
    else Unknown
  }

  /** From every member to its containers. */
  function ContainerEdges(m: Material): set<(Id, Id)> {
    set c | c in m.contains :: (Indexed(c.member), Indexed(c.container))
  }

  /** containsResource: one or more containment steps. */
  ghost predicate Contains(m: Material, container: Id, member: Id) {
    Reaches(ContainerEdges(m), member, container)
  }

  ghost function OverlapOfKnown(m: Material, left: Resolution, right: Resolution): Overlap
    requires left.Known? && right.Known?
  {
    if !left.known || !right.known then Undecided
    else if left.id == right.id || Contains(m, left.id, right.id) || Contains(m, right.id, left.id) then Yes
    else if left.id.Declared? || right.id.Declared? then if DisjointPaths(left.path, right.path) then No else Yes
    else No
  }

  function PathOfEither(r: Reference, resolved: Resolution): Option<Path> {
    if resolved.Known? then Some(resolved.path) else PathOf(r)
  }

  function OverlapOfPaths(m: Material, left: Option<Path>, right: Option<Path>): Overlap {
    if left.None? || right.None? then Undecided
    else if InsideGitlink(m, left.value) || InsideGitlink(m, right.value) then Undecided
    else if left.value == right.value then Yes
    else if DisjointPaths(left.value, right.value) then No
    else Yes
  }

  ghost function OverlapOf(m: Material, left: Reference, right: Reference): Overlap {
    var l, r := Resolve(m, left), Resolve(m, right);
    if l.Known? && r.Known? then OverlapOfKnown(m, l, r)
    else OverlapOfPaths(m, PathOfEither(left, l), PathOfEither(right, r))
  }

  lemma DisjointIsSymmetric(p: Path, q: Path)
    ensures DisjointPaths(p, q) <==> DisjointPaths(q, p)
  {
  }

  lemma OverlapIsSymmetric(m: Material, left: Reference, right: Reference)
    ensures OverlapOf(m, left, right) == OverlapOf(m, right, left)
  {
    hide Resolve, PathOf, Contains, InsideGitlink, DisjointPaths;
    forall p, q { DisjointIsSymmetric(p, q); }
  }

  // ---------------------------------------------------------------------------
  // References that are not both known
  // ---------------------------------------------------------------------------

  /** The text continues below the directory. */
  predicate Below(text: string, dir: Path) {
    |text| > |dir| && text[..|dir|] == dir && text[|dir|] == '/'
  }

  /** Below a gitlink of the catalog, read after a path: prefix if there is one. */
  ghost predicate BelowGitlink(m: Material, text: string) {
    exists l :: l in m.resources && m.resources[l].gitlink && Below(WithoutPrefix(text), m.resources[l].path)
  }

  lemma InsideGitlinkIsBelow(m: Material, text: string)
    ensures InsideGitlink(m, text) <==> BelowGitlink(m, text)
  {
    forall l | l in m.resources ensures Inside(WithoutPrefix(text), m.resources[l].path) <==> Below(WithoutPrefix(text), m.resources[l].path) {
      InsidePrefix(WithoutPrefix(text), m.resources[l].path);
    }
  }

  lemma DisjointIsUnshared(p: Path, q: Path)
    ensures DisjointPaths(p, q) <==> !Share(Normal(p), Normal(q))
  {
    ShareIsUnder(Normal(p), Normal(q));
  }

  /** Unless both references are known, the answer is that of their paths: undecided without two paths or
      below a gitlink, else "yes" exactly when the normalised subtrees meet, and "no" only for paths whose
      subtrees have nothing in common. */
  lemma UnresolvedOverlap(m: Material, left: Reference, right: Reference)
    requires !Resolve(m, left).Known? || !Resolve(m, right).Known?
    ensures
      var o := OverlapOf(m, left, right);
      var p, q := PathOfEither(left, Resolve(m, left)), PathOfEither(right, Resolve(m, right));
      && (p.None? || q.None? ==> o == Undecided)
      && (p.Some? && q.Some? ==>
            var below := BelowGitlink(m, p.value) || BelowGitlink(m, q.value);
            && (o == Undecided <==> below)
            && (o == Yes <==> !below && Share(Normal(p.value), Normal(q.value)))
            && (o == No ==> !Share(p.value, q.value)))
  {
    hide Resolve, Share, Normal, BelowGitlink, InsideGitlink;
    var p, q := PathOfEither(left, Resolve(m, left)), PathOfEither(right, Resolve(m, right));
    if p.Some? && q.Some? {
      InsideGitlinkIsBelow(m, p.value);
      InsideGitlinkIsBelow(m, q.value);
      DisjointIsUnshared(p.value, q.value);
      if DisjointPaths(p.value, q.value) { DisjointShareNothing(p.value, q.value); }
      if p == q { assert Share(Normal(p.value), Normal(q.value)) by { SharesWithItself(Normal(p.value)); } }
    }
  }

  lemma SharesWithItself(p: Path)
    ensures Share(p, p)
  {
    ShareIsUnder(p, p);
  }

  /** Between known references only missing knowledge leaves the answer open. */
  lemma KnownOverlapIsDecided(m: Material, left: Reference, right: Reference)
    requires Resolve(m, left).Known? && Resolve(m, right).Known?
    ensures OverlapOf(m, left, right) == Undecided <==> !Resolve(m, left).known || !Resolve(m, right).known
  {
  }

  /** A path below a gitlink that no resource has is unknown, and overlaps with nothing for certain. */
  lemma BelowGitlinkIsUnknown(m: Material, p: Path, other: Reference)
    requires Candidates(m, ByLocator(PathLoc(p))) == {} && BelowGitlink(m, Normal(p))
    ensures Resolve(m, ByLocator(PathLoc(p))) == Unknown
    ensures OverlapOf(m, ByLocator(PathLoc(p)), other) == Undecided
  {
    InsideGitlinkIsBelow(m, Normal(p));
    hide Candidates, Normal, BelowGitlink, DisjointPaths;
  }

  // ---------------------------------------------------------------------------
  // What a reference resolves to
  // ---------------------------------------------------------------------------

  ghost predicate IsAlias(m: Material, l: Locator, target: Locator) {
    Alias(l, target) in m.aliases && target in m.resources
  }

  ghost predicate HasTarget(m: Material, l: Locator) {
    exists t :: IsAlias(m, l, t)
  }

  ghost predicate IsListed(m: Material, l: Locator) {
    exists t :: Alias(l, t) in m.aliases
  }

  /** A reference names the existing targets of the aliases of its locator. Besides, an id names its
      resource if there are none, and a locator its resource if no alias has it. */
  ghost predicate Names(m: Material, r: Reference, x: Locator) {
    match r
    case ById(l) => l in m.resources && (IsAlias(m, l, x) || (x == l && !HasTarget(m, l)))
    case ByLocator(l) => IsAlias(m, l, x) || (x == l && l in m.resources && !IsListed(m, l))
  }

  lemma TargetsAre(m: Material, l: Locator)
    ensures forall t :: t in Targets(m, l) <==> IsAlias(m, l, t)
    ensures Targets(m, l) != {} <==> HasTarget(m, l)
    ensures Aliased(m, l) <==> IsListed(m, l)
  {
    forall t ensures t in Targets(m, l) <==> IsAlias(m, l, t) {
      if IsAlias(m, l, t) { assert Alias(l, t).target in Targets(m, l); }
    }
    if Targets(m, l) != {} { var t :| t in Targets(m, l); }
    if Aliased(m, l) {
      var a :| a in m.aliases && a.locator == l;
      assert Alias(l, a.target) in m.aliases;
    }
  }

  lemma CandidatesAreNamed(m: Material, r: Reference)
    ensures forall x :: x in Candidates(m, r) <==> Names(m, r, x)
  {
    TargetsAre(m, r.locator);
    hide Targets, Aliased, IsAlias, HasTarget, IsListed;
  }

  /** A path that a plan may name as a directory: not the root, no empty or dotted part, not below a gitlink. */
  ghost predicate DirectoryPath(m: Material, p: Path) {
    && p != "" && !BelowGitlink(m, p)
    && forall i :: 0 <= i < |Segments(p)| ==> Segments(p)[i] != "" && Segments(p)[i] != "." && Segments(p)[i] != ".."
  }

  ghost predicate NamesOne(m: Material, r: Reference) {
    exists x :: Names(m, r, x) && forall y :: Names(m, r, y) ==> y == x
  }

  ghost predicate NamesNone(m: Material, r: Reference) {
    forall x :: !Names(m, r, x)
  }

  ghost predicate NamesTwo(m: Material, r: Reference) {
    exists x, y :: Names(m, r, x) && Names(m, r, y) && x != y
  }

  lemma NamesAreCounted(m: Material, r: Reference)
    ensures NamesOne(m, r) <==> |Candidates(m, r)| == 1
    ensures NamesTwo(m, r) <==> |Candidates(m, r)| > 1
    ensures NamesNone(m, r) <==> |Candidates(m, r)| == 0
  {
    hide Names, Candidates, NamesOne, NamesTwo, NamesNone;
    var c := Candidates(m, r);
    CandidatesAreNamed(m, r);
    if |c| == 0 {
      NoneNamed(m, r, c);
    } else if |c| == 1 {
      var x :| x in c;
      OnlyMember(c, x);
      OneNamed(m, r, x);
    } else {
      var x :| x in c;
      assert |c - {x}| > 0;
      var y :| y in c - {x};
      TwoNamed(m, r, x, y);
    }
  }

  lemma NoneNamed(m: Material, r: Reference, c: set<Locator>)
    requires c == {} && forall x :: x in c <==> Names(m, r, x)
    ensures NamesNone(m, r) && !NamesOne(m, r) && !NamesTwo(m, r)
  {
    hide Names;
  }

  lemma OneNamed(m: Material, r: Reference, x: Locator)
    requires forall y :: y in {x} <==> Names(m, r, y)
    ensures !NamesNone(m, r) && NamesOne(m, r) && !NamesTwo(m, r)
  {
    hide Names;
    assert x in {x};
    forall y | Names(m, r, y) ensures y == x { assert y in {x}; }
    assert Names(m, r, x) && forall y :: Names(m, r, y) ==> y == x;
  }

  lemma TwoNamed(m: Material, r: Reference, x: Locator, y: Locator)
    requires Names(m, r, x) && Names(m, r, y) && x != y
    ensures !NamesNone(m, r) && !NamesOne(m, r) && NamesTwo(m, r)
  {
    hide Names;
  }

  /** Known is the one resource that a reference names, or the directory that a path names when it names
      no resource and the coverage of the model is known; two resources conflict. */
  lemma ResolutionExactly(m: Material, r: Reference)
    ensures
      var k := Resolve(m, r);
      && (k.Known? && k.id.Indexed? <==> NamesOne(m, r))
      && (k.Known? && k.id.Indexed? ==>
            && Names(m, r, k.id.locator) && k.id.locator in m.resources
            && k.path == m.resources[k.id.locator].path && k.known == m.resources[k.id.locator].known)
      && (k.Conflicting? <==> NamesTwo(m, r))
      && (k.Known? && k.id.Declared? <==>
            NamesNone(m, r) && !m.coverageUnknown && PathOf(r).Some? && DirectoryPath(m, PathOf(r).value))
      && (k.Known? && k.id.Declared? ==> PathOf(r) == Some(k.path) && k.id.path == k.path && k.known)
  {
    hide Names, Candidates, DirectoryPath, NamesOne, NamesTwo, NamesNone, DeclaredDirectory;
    NamesAreCounted(m, r);
    CandidatesAreNamed(m, r);
    NamedExist(m, r);
    DirectoryNeedsPath(m, r);
    if PathOf(r).Some? { DirectoryIsPlain(m, r); }
  }

  lemma NamedExist(m: Material, r: Reference)
    ensures forall x :: Names(m, r, x) ==> x in m.resources
  {
  }

  lemma DirectoryNeedsPath(m: Material, r: Reference)
    ensures DeclaredDirectory(m, r).Some? ==> PathOf(r).Some?
  {
  }

  lemma DirectoryIsPlain(m: Material, r: Reference)
    requires PathOf(r).Some?
    ensures DeclaredDirectory(m, r) == if !m.coverageUnknown && DirectoryPath(m, PathOf(r).value) then PathOf(r) else None
  {
    var p := PathOf(r).value;
    InsideGitlinkIsBelow(m, p);
    hide BelowGitlink, InsideGitlink;
    assert forall i :: 0 <= i < |Segments(p)| ==> Segments(p)[i] in Segments(p);
  }

  /** One slash or backslash in front is dropped, and backslashes become slashes. */
  lemma NormalDropsOneSlash(p: Path)
    ensures Normal("/" + p) == Forward(p) && Normal("\\" + p) == Forward(p)
    ensures p == "" || (p[0] != '/' && p[0] != '\\') ==> Normal(p) == Forward(p)
  {
    assert Forward("/" + p)[1..] == Forward(p) && Forward("\\" + p)[1..] == Forward(p);
  }

  /** The texts of references that have paths. */
  lemma PathOfReferences(r: Reference)
    ensures PathOf(r).Some? <==> r.ByLocator? && (r.locator.PathLoc? || r.locator.ResourcePath?)
    ensures PathOf(r).Some? ==> PathOf(r).value == Normal(r.locator.path)
  {
  }

  // ---------------------------------------------------------------------------
  // The catalog of a model
  // ---------------------------------------------------------------------------

  /** deduplicateModelResources: the first of a locator, unless a later one is a surface. */
  function Deduplicated(resources: seq<Resource>): map<Locator, Resource> {
    if resources == [] then map[]
    else
      var front, last := Deduplicated(resources[..|resources| - 1]), resources[|resources| - 1];
      if last.locator !in front || last.surface then front[last.locator := last] else front
  }

  function SamePathAliases(rs: map<Locator, Resource>): set<Alias> {
    set l | l in rs && PathLoc(rs[l].path) in rs && PathLoc(rs[l].path) != l :: Alias(l, PathLoc(rs[l].path))
  }

  predicate PackageHolds(rs: map<Locator, Resource>, root: Path, l: Locator) {
    && PackageLoc(root) in rs && l in rs && l != PackageLoc(root)
    && (root == "" || Inside(rs[l].path, root))
  }

  function PackageContains(rs: map<Locator, Resource>, packages: seq<Path>): set<Containment> {
    set root, l | root in packages && l in rs && PackageHolds(rs, root, l) :: Containment(PackageLoc(root), l)
  }

  function Preferred(rs: map<Locator, Resource>, first: Locator, second: Locator): Option<Locator> {
    if first in rs then Some(first) else if second in rs then Some(second) else None
  }

  function SymbolContains(rs: map<Locator, Resource>, symbols: seq<Symbol>): set<Containment> {
    set s | s in symbols && SymbolLoc(s.path, s.name) in rs && Preferred(rs, ModuleLoc(s.path), PathLoc(s.path)).Some?
      :: Containment(Preferred(rs, ModuleLoc(s.path), PathLoc(s.path)).value, SymbolLoc(s.path, s.name))
  }

  function ExportAliases(rs: map<Locator, Resource>, exports: seq<Export>): set<Alias> {
    set e | e in exports && Preferred(rs, PathLoc(e.target), ModuleLoc(e.target)).Some?
      :: Alias(Other(e.locator), Preferred(rs, PathLoc(e.target), ModuleLoc(e.target)).value)
  }

  function InputAliases(rs: map<Locator, Resource>, inputs: seq<Alias>): set<Alias> {
    set a | a in inputs && a.target in rs
  }

  function Catalog(model: Model, inputs: seq<Alias>): Material {
    var rs := Deduplicated(model.resources);
    Material(
      rs, PackageContains(rs, model.packages) + SymbolContains(rs, model.symbols),
      SamePathAliases(rs) + ExportAliases(rs, model.exports) + InputAliases(rs, inputs), model.coverageUnknown)
  }

  /** The resources of a repository model have the paths of their locators. */
  predicate PlainResource(r: Resource) {
    match r.locator
    case PathLoc(p) => r.path == p && p != ""
    case ModuleLoc(p) => r.path == p
    case SymbolLoc(p, _) => r.path == p
    case PackageLoc(p) => r.path == p
    case _ => false
  }

  function Manifest(root: Path): Path {
    root + "/package.json"
  }

  predicate Listed(model: Model, l: Locator) {
    exists r :: r in model.resources && r.locator == l
  }

  /** The model of a tree: no blob path is a directory prefix of another, every module and symbol has its
      blob, the packages are the package resources, and a package below the root has its manifest blob. */
  ghost predicate WellFormed(model: Model) {
    && (forall r :: r in model.resources ==> PlainResource(r))
    && (forall p, q :: Listed(model, PathLoc(p)) && Listed(model, PathLoc(q)) ==> !Inside(p, q))
    && (forall p :: Listed(model, ModuleLoc(p)) ==> Listed(model, PathLoc(p)))
    && (forall p, n :: Listed(model, SymbolLoc(p, n)) ==> Listed(model, PathLoc(p)))
    && (forall p :: Listed(model, PackageLoc(p)) ==> p in model.packages && (p == "" || Listed(model, PathLoc(Manifest(p)))))
  }

  predicate InFile(l: Locator) {
    l.ModuleLoc? || l.SymbolLoc?
  }

  /** The locator of the alias can come to mean a module or symbol, and that alone: it is not the target's
      own, which means the file too, and no other alias makes it mean the file. */
  predicate Bare(inputs: seq<Alias>, a: Alias) {
    a in inputs && InFile(a.target) && a.target.path != "" && a.locator != a.target && Alias(a.locator, PathLoc(a.target.path)) !in inputs
  }

  predicate NoBareAlias(inputs: seq<Alias>) {
    forall a :: a in inputs ==> !Bare(inputs, a)
  }

  // ---------------------------------------------------------------------------
  // Overlap means a shared path
  // ---------------------------------------------------------------------------

  lemma {:induction false} DeduplicatedAre(resources: seq<Resource>, l: Locator)
    ensures l in Deduplicated(resources) <==> exists r :: r in resources && r.locator == l
    ensures l in Deduplicated(resources) ==> Deduplicated(resources)[l] in resources && Deduplicated(resources)[l].locator == l
    decreases |resources|
  {
    if resources != [] {
      var front, last := resources[..|resources| - 1], resources[|resources| - 1];
      DeduplicatedAre(front, l);
      assert resources == front + [last];
    }
  }

  /** Of the resources with one locator, the last surface, or the first one if none that follows is a surface. */
  predicate Picked(resources: seq<Resource>, i: nat, l: Locator) {
    && i < |resources| && resources[i].locator == l
    && (resources[i].surface || forall j :: 0 <= j < i ==> resources[j].locator != l)
    && forall j :: i < j < |resources| && resources[j].locator == l ==> !resources[j].surface
  }

  lemma {:induction false} PickedCounts(resources: seq<Resource>, i: nat, l: Locator)
    requires Picked(resources, i, l)
    ensures i < |resources| && l in Deduplicated(resources) && Deduplicated(resources)[l] == resources[i]
    decreases |resources|
  {
    var n := |resources| - 1;
    var front := resources[..n];
    assert forall j :: 0 <= j < n ==> resources[j] == front[j];
    if i < n { PickedCounts(front, i, l); } else { DeduplicatedAre(front, l); }
  }

  lemma {:induction false} SomethingIsPicked(resources: seq<Resource>, l: Locator) returns (i: nat)
    requires l in Deduplicated(resources)
    ensures Picked(resources, i, l)
    decreases |resources|
  {
    var n := |resources| - 1;
    var front := resources[..n];
    assert forall j :: 0 <= j < n ==> resources[j] == front[j];
    DeduplicatedAre(front, l);
    if resources[n].locator == l && (resources[n].surface || l !in Deduplicated(front)) {
      i := n;
    } else {
      i := SomethingIsPicked(front, l);
    }
  }

  /** The catalog has a resource of a locator exactly when the model lists one, and it is the picked one. */
  lemma DeduplicatedExactly(resources: seq<Resource>, l: Locator)
    ensures l in Deduplicated(resources) <==> exists i: nat :: Picked(resources, i, l)
    ensures l in Deduplicated(resources) <==> exists r :: r in resources && r.locator == l
    ensures forall i: nat :: Picked(resources, i, l) ==> l in Deduplicated(resources) && Deduplicated(resources)[l] == resources[i]
  {
    hide Deduplicated, Picked;
    DeduplicatedAre(resources, l);
    forall i: nat | Picked(resources, i, l) ensures i < |resources| && l in Deduplicated(resources) && Deduplicated(resources)[l] == resources[i] {
      PickedCounts(resources, i, l);
    }
    if l in Deduplicated(resources) { var i := SomethingIsPicked(resources, l); }
  }

  /** The module of a path if the catalog has it, else the file; and the other way round for exports. */
  lemma ContainersAndTargets(model: Model, inputs: seq<Alias>, container: Locator, member: Locator, locator: Locator, target: Locator)
    ensures
      var m := Catalog(model, inputs);
      Containment(container, member) in m.contains <==>
        || (&& container.PackageLoc? && container.path in model.packages && container in m.resources
            && member in m.resources && member != container
            && (container.path == "" || Inside(m.resources[member].path, container.path)))
        || (&& member.SymbolLoc? && Symbol(member.path, member.name) in model.symbols && member in m.resources && container in m.resources
            && (container == ModuleLoc(member.path) || (container == PathLoc(member.path) && ModuleLoc(member.path) !in m.resources)))
    ensures
      var m := Catalog(model, inputs);
      Alias(locator, target) in m.aliases <==>
        && target in m.resources
        && (|| Alias(locator, target) in inputs
            || (locator in m.resources && target == PathLoc(m.resources[locator].path) && target != locator)
            || (&& locator.Other? && (target.PathLoc? || target.ModuleLoc?) && Export(locator.text, target.path) in model.exports
                && (target.PathLoc? || PathLoc(target.path) !in m.resources)))
  {
    var m := Catalog(model, inputs);
    ContainersAre(m.resources, model, container, member);
    hide Deduplicated;
    assert Alias(locator, target) in InputAliases(m.resources, inputs) <==> Alias(locator, target) in inputs && target in m.resources;
    assert Alias(locator, target) in SamePathAliases(m.resources) <==>
      locator in m.resources && target in m.resources && target == PathLoc(m.resources[locator].path) && target != locator;
    ExportsAre(m.resources, model.exports, locator, target);
  }

  lemma ContainersAre(rs: map<Locator, Resource>, model: Model, container: Locator, member: Locator)
    ensures Containment(container, member) in PackageContains(rs, model.packages) <==>
      container.PackageLoc? && container.path in model.packages && PackageHolds(rs, container.path, member)
    ensures Containment(container, member) in SymbolContains(rs, model.symbols) <==>
      && member.SymbolLoc? && Symbol(member.path, member.name) in model.symbols && member in rs && container in rs
      && (container == ModuleLoc(member.path) || (container == PathLoc(member.path) && ModuleLoc(member.path) !in rs))
  {
    if member.SymbolLoc? && Symbol(member.path, member.name) in model.symbols { assert Symbol(member.path, member.name).name == member.name; }
  }

  lemma ExportsAre(rs: map<Locator, Resource>, exports: seq<Export>, locator: Locator, target: Locator)
    ensures Alias(locator, target) in ExportAliases(rs, exports) <==>
      && locator.Other? && target in rs && (target.PathLoc? || target.ModuleLoc?) && Export(locator.text, target.path) in exports
      && (target.PathLoc? || PathLoc(target.path) !in rs)
  {
    if locator.Other? && (target.PathLoc? || target.ModuleLoc?) && Export(locator.text, target.path) in exports {
      assert Export(locator.text, target.path).locator == locator.text;
    }
  }

  /** What well-formedness of the model says about the resources of the catalog. */
  ghost predicate Plain(rs: map<Locator, Resource>, packages: seq<Path>) {
    && (forall l :: l in rs ==> rs[l].locator == l && PlainResource(rs[l]))
    && (forall p, q :: PathLoc(p) in rs && PathLoc(q) in rs ==> !Inside(p, q))
    && (forall p :: ModuleLoc(p) in rs ==> PathLoc(p) in rs)
    && (forall p, n :: SymbolLoc(p, n) in rs ==> PathLoc(p) in rs)
    && (forall p :: PackageLoc(p) in rs ==> p in packages && (p == "" || PathLoc(Manifest(p)) in rs))
  }

  lemma WellFormedIsPlain(model: Model)
    requires WellFormed(model)
    ensures Plain(Deduplicated(model.resources), model.packages)
  {
    var rs := Deduplicated(model.resources);
    forall l ensures l in rs <==> Listed(model, l) { DeduplicatedAre(model.resources, l); }
    forall l | l in rs ensures rs[l].locator == l && PlainResource(rs[l]) { DeduplicatedAre(model.resources, l); }
  }

  predicate FileOrPackage(l: Locator) {
    l.PathLoc? || l.PackageLoc?
  }

  lemma ModulesAreAliased(model: Model, inputs: seq<Alias>, l: Locator)
    requires WellFormed(model)
    ensures
      var m := Catalog(model, inputs);
      l in m.resources && !FileOrPackage(l) ==> Aliased(m, l) && Targets(m, l) != {}
  {
    var m := Catalog(model, inputs);
    WellFormedIsPlain(model);
    if l in m.resources && !FileOrPackage(l) {
      assert Alias(l, PathLoc(m.resources[l].path)) in m.aliases;
      assert PathLoc(m.resources[l].path) in Targets(m, l);
    }
  }

  /** Modules and symbols resolve to their blob. */
  lemma CandidateIsFile(model: Model, inputs: seq<Alias>, r: Reference, l: Locator)
    requires WellFormed(model) && NoBareAlias(inputs) && Candidates(Catalog(model, inputs), r) == {l}
    ensures l in Catalog(model, inputs).resources && FileOrPackage(l)
  {
    hide Catalog, Aliased, Targets;
    var m := Catalog(model, inputs);
    ModulesAreAliased(model, inputs, l);
    assert l in Candidates(m, r);
    if l in Targets(m, r.locator) { FileIsCandidate(model, inputs, r, l); }
  }

  lemma FileIsCandidate(model: Model, inputs: seq<Alias>, r: Reference, l: Locator)
    requires WellFormed(model) && NoBareAlias(inputs) && l in Targets(Catalog(model, inputs), r.locator)
    ensures l in Catalog(model, inputs).resources
    ensures FileOrPackage(l) || Candidates(Catalog(model, inputs), r) != {l}
  {
    hide Catalog;
    TargetsNameFiles(model, inputs, r.locator, l);
    if !FileOrPackage(l) {
      assert PathLoc(l.path) in Targets(Catalog(model, inputs), r.locator);
      assert PathLoc(l.path) != l;
    }
  }

  /** Whatever else a locator is an alias of, it is an alias of the file too. */
  lemma TargetsNameFiles(model: Model, inputs: seq<Alias>, of: Locator, l: Locator)
    requires WellFormed(model) && NoBareAlias(inputs) && l in Targets(Catalog(model, inputs), of)
    ensures l in Catalog(model, inputs).resources
    ensures FileOrPackage(l) || (InFile(l) && PathLoc(l.path) in Targets(Catalog(model, inputs), of))
  {
    var m := Catalog(model, inputs);
    WellFormedIsPlain(model);
    var a :| a in m.aliases && a.locator == of && a.target == l;
    if a in ExportAliases(m.resources, model.exports) {
      var e :| e in model.exports && Preferred(m.resources, PathLoc(e.target), ModuleLoc(e.target)) == Some(l);
    } else if !FileOrPackage(l) {
      var file := PathLoc(l.path);
      assert PlainResource(m.resources[l]) && PlainResource(m.resources[file]);
      assert a in inputs && !Bare(inputs, a);
      assert Alias(of, file) in m.aliases;
    }
  }

  /** A package below a blob would put its manifest below it too. */
  lemma NoPackageUnderBlob(rs: map<Locator, Resource>, packages: seq<Path>, root: Path, blob: Path)
    requires Plain(rs, packages) && PackageLoc(root) in rs && PathLoc(blob) in rs
    ensures !Under(root, blob)
  {
    assert rs[PathLoc(blob)].path != "";
    ManifestFollows(root, blob);
  }

  lemma ManifestFollows(root: Path, blob: Path)
    ensures Under(root, blob) && blob != "" ==> root != "" && Inside(Manifest(root), blob)
  {
    InsidePrefix(Manifest(root), blob);
    InsidePrefix(Manifest(root), root);
    InsidePrefix(root, blob);
    assert Manifest(root)[..|root|] == root;
    assert Inside(root, blob) ==> Manifest(root)[..|blob|] == root[..|blob|];
  }

  /** A file or package under another one is contained in it. */
  lemma UnderIsContained(model: Model, inputs: seq<Alias>, l: Locator, c: Locator)
    requires WellFormed(model) && FileOrPackage(l) && FileOrPackage(c) && l != c
    requires l in Catalog(model, inputs).resources && c in Catalog(model, inputs).resources
    requires Under(l.path, c.path)
    ensures Contains(Catalog(model, inputs), Indexed(c), Indexed(l))
  {
    var m := Catalog(model, inputs);
    PackageIsAbove(m.resources, model.packages, l, c) by { WellFormedIsPlain(model); }
    assert Containment(PackageLoc(c.path), l) in PackageContains(m.resources, model.packages);
    hide Catalog;
    OneContainment(m, l, c);
  }

  lemma PackageIsAbove(rs: map<Locator, Resource>, packages: seq<Path>, l: Locator, c: Locator)
    requires Plain(rs, packages) && l in rs && c in rs && FileOrPackage(l) && FileOrPackage(c) && l != c && Under(l.path, c.path)
    ensures c == PackageLoc(c.path) && c.path in packages && PackageHolds(rs, c.path, l)
  {
    if c.PathLoc? && l.PackageLoc? { NoPackageUnderBlob(rs, packages, l.path, c.path); }
    assert PlainResource(rs[c]) && rs[c].locator == c;
    assert rs[l].path == l.path;
  }

  lemma OneContainment(m: Material, l: Locator, c: Locator)
    requires Containment(c, l) in m.contains
    ensures Contains(m, Indexed(c), Indexed(l))
  {
    var edges := ContainerEdges(m);
    assert (Indexed(l), Indexed(c)) in edges;
    assert WalkFromTo(edges, [Indexed(l), Indexed(c)], Indexed(l), Indexed(c));
  }

  /** Both are resources, and the path of the member is under that of the container. */
  predicate Nests(rs: map<Locator, Resource>, member: Id, container: Id) {
    && member.Indexed? && container.Indexed? && member.locator in rs && container.locator in rs
    && Under(rs[member.locator].path, rs[container.locator].path)
  }

  lemma PackagesNest(rs: map<Locator, Resource>, packages: seq<Path>, c: Containment)
    requires Plain(rs, packages) && c in PackageContains(rs, packages)
    ensures Nests(rs, Indexed(c.member), Indexed(c.container))
  {
    var root, l :| root in packages && l in rs && PackageHolds(rs, root, l) && c == Containment(PackageLoc(root), l);
    assert PlainResource(rs[PackageLoc(root)]);
  }

  lemma SymbolsNest(rs: map<Locator, Resource>, packages: seq<Path>, symbols: seq<Symbol>, c: Containment)
    requires Plain(rs, packages) && c in SymbolContains(rs, symbols)
    ensures Nests(rs, Indexed(c.member), Indexed(c.container))
  {
    var s :| s in symbols && c.member == SymbolLoc(s.path, s.name) && Some(c.container) == Preferred(rs, ModuleLoc(s.path), PathLoc(s.path));
    assert PlainResource(rs[c.member]) && PlainResource(rs[c.container]);
  }

  lemma EdgesNest(model: Model, inputs: seq<Alias>, member: Id, container: Id)
    requires WellFormed(model) && (member, container) in ContainerEdges(Catalog(model, inputs))
    ensures Nests(Catalog(model, inputs).resources, member, container)
  {
    var m := Catalog(model, inputs);
    WellFormedIsPlain(model);
    hide Nests, Plain, PackageContains, SymbolContains, WellFormed;
    var c :| c in m.contains && (Indexed(c.member), Indexed(c.container)) == (member, container);
    if c in SymbolContains(m.resources, model.symbols) {
      SymbolsNest(m.resources, model.packages, model.symbols, c);
    } else {
      PackagesNest(m.resources, model.packages, c);
    }
  }

  lemma NestsIsTransitive(rs: map<Locator, Resource>, x: Id, y: Id, z: Id)
    requires Nests(rs, x, y) && Nests(rs, y, z)
    ensures Nests(rs, x, z)
  {
    UnderIsTransitive(rs[x.locator].path, rs[y.locator].path, rs[z.locator].path);
  }

  lemma {:induction false} WalksNest(model: Model, inputs: seq<Alias>, p: seq<Id>)
    requires WellFormed(model) && |p| >= 2 && Walk(ContainerEdges(Catalog(model, inputs)), p)
    ensures Nests(Catalog(model, inputs).resources, p[0], p[|p| - 1])
    decreases |p|
  {
    hide Catalog, Nests, WellFormed, ContainerEdges;
    var m := Catalog(model, inputs);
    assert (p[|p| - 2], p[|p| - 1]) in ContainerEdges(m);
    EdgesNest(model, inputs, p[|p| - 2], p[|p| - 1]);
    if |p| > 2 {
      var q := p[..|p| - 1];
      assert forall i :: 0 <= i < |q| - 1 ==> (q[i], q[i + 1]) == (p[i], p[i + 1]);
      WalksNest(model, inputs, q);
      NestsIsTransitive(m.resources, p[0], p[|p| - 2], p[|p| - 1]);
    }
  }

  /** Containment is nesting of paths. */
  lemma ContainedIsUnder(model: Model, inputs: seq<Alias>, container: Id, member: Id)
    requires WellFormed(model) && Contains(Catalog(model, inputs), container, member)
    ensures Nests(Catalog(model, inputs).resources, member, container)
  {
    hide Catalog, Nests, WellFormed, ContainerEdges;
    var p :| |p| >= 2 && WalkFromTo(ContainerEdges(Catalog(model, inputs)), p, member, container);
    WalksNest(model, inputs, p);
  }

  lemma OnlyMember<T>(s: set<T>, x: T)
    requires |s| == 1 && x in s
    ensures s == {x}
  {
    assert |s - {x}| == 0;
  }

  /** What a reference that resolves as known resolves to. */
  lemma KnownIs(model: Model, inputs: seq<Alias>, r: Reference)
    requires WellFormed(model) && NoBareAlias(inputs) && Resolve(Catalog(model, inputs), r).Known?
    ensures
      var k := Resolve(Catalog(model, inputs), r);
      if k.id.Indexed? then
        && k.id.locator in Catalog(model, inputs).resources && FileOrPackage(k.id.locator)
        && k.path == k.id.locator.path && Catalog(model, inputs).resources[k.id.locator].path == k.path
      else k.path == k.id.path
  {
    var m := Catalog(model, inputs);
    var k := Resolve(m, r);
    if k.id.Indexed? {
      assert Candidates(m, r) == {k.id.locator} by { OnlyMember(Candidates(m, r), k.id.locator); }
      CandidateIsFile(model, inputs, r, k.id.locator);
      ResourcePathIs(model, inputs, k.id.locator);
    }
  }

  lemma ResourcePathIs(model: Model, inputs: seq<Alias>, l: Locator)
    requires WellFormed(model) && l in Catalog(model, inputs).resources && FileOrPackage(l)
    ensures Catalog(model, inputs).resources[l].path == l.path
  {
    WellFormedIsPlain(model);
  }

  /** "no" is sound: no repository path lies in both subtrees. "yes" means that the normalised subtrees meet. */
  lemma OverlapMeansSharing(model: Model, inputs: seq<Alias>, left: Reference, right: Reference)
    requires WellFormed(model) && NoBareAlias(inputs)
    requires Resolve(Catalog(model, inputs), left).Known? && Resolve(Catalog(model, inputs), right).Known?
    ensures
      var m := Catalog(model, inputs);
      var l, r := Resolve(m, left), Resolve(m, right);
      && (OverlapOf(m, left, right) == No ==> !Share(l.path, r.path))
      && (OverlapOf(m, left, right) == Yes ==> Share(Normal(l.path), Normal(r.path)))
  {
    KnownIs(model, inputs, left);
    KnownIs(model, inputs, right);
    var m := Catalog(model, inputs);
    var l, r := Resolve(m, left), Resolve(m, right);
    hide Catalog, Resolve, WellFormed, NoBareAlias, Normal, Under, Inside, Contains, Share;
    if OverlapOf(m, left, right) == No { NoIsSound(model, inputs, l, r); }
    if OverlapOf(m, left, right) == Yes { YesIsShared(model, inputs, l, r); }
  }

  /** A resolution of the kinds that KnownIs describes. */
  ghost predicate Resolved(m: Material, k: Resolution) {
    && k.Known?
    && if k.id.Indexed? then
         k.id.locator in m.resources && FileOrPackage(k.id.locator) && k.path == k.id.locator.path && m.resources[k.id.locator].path == k.path
       else k.path == k.id.path
  }

  lemma NoIsSound(model: Model, inputs: seq<Alias>, l: Resolution, r: Resolution)
    requires WellFormed(model) && Resolved(Catalog(model, inputs), l) && Resolved(Catalog(model, inputs), r)
    requires OverlapOfKnown(Catalog(model, inputs), l, r) == No
    ensures !Share(l.path, r.path)
  {
    var m := Catalog(model, inputs);
    if l.id.Declared? || r.id.Declared? {
      DisjointShareNothing(l.path, r.path);
    } else {
      hide Catalog, Contains, Under, Share;
      ShareIsUnder(l.path, r.path);
      if Under(l.path, r.path) { UnderIsContained(model, inputs, l.id.locator, r.id.locator); }
      if Under(r.path, l.path) { UnderIsContained(model, inputs, r.id.locator, l.id.locator); }
    }
  }

  lemma SharedNormally(p: Path, q: Path)
    requires Under(p, q)
    ensures Share(Normal(p), Normal(q))
  {
    NormalKeepsUnder(p, q);
    ShareIsUnder(Normal(p), Normal(q));
  }

  lemma ShareIsSymmetric(p: Path, q: Path)
    ensures Share(p, q) <==> Share(q, p)
  {
    if Share(p, q) { var x :| Under(x, p) && Under(x, q); }
    if Share(q, p) { var x :| Under(x, q) && Under(x, p); }
  }

  lemma YesIsShared(model: Model, inputs: seq<Alias>, l: Resolution, r: Resolution)
    requires WellFormed(model) && Resolved(Catalog(model, inputs), l) && Resolved(Catalog(model, inputs), r)
    requires OverlapOfKnown(Catalog(model, inputs), l, r) == Yes
    ensures Share(Normal(l.path), Normal(r.path))
  {
    var m := Catalog(model, inputs);
    hide Catalog, Contains, Normal;
    if l.id == r.id {
      SharedNormally(l.path, r.path);
    } else if Contains(m, l.id, r.id) {
      ContainedIsUnder(model, inputs, l.id, r.id);
      SharedNormally(r.path, l.path);
      ShareIsSymmetric(Normal(l.path), Normal(r.path));
    } else if Contains(m, r.id, l.id) {
      ContainedIsUnder(model, inputs, r.id, l.id);
      SharedNormally(l.path, r.path);
    } else {
      ShareIsUnder(Normal(l.path), Normal(r.path));
    }
  }

  /** Between known references with clean paths the answer is exact. */
  lemma OverlapIsExact(model: Model, inputs: seq<Alias>, left: Reference, right: Reference)
    requires WellFormed(model) && NoBareAlias(inputs)
    requires Resolve(Catalog(model, inputs), left).Known? && Resolve(Catalog(model, inputs), right).Known?
    requires OverlapOf(Catalog(model, inputs), left, right) != Undecided
    requires Normal(Resolve(Catalog(model, inputs), left).path) == Resolve(Catalog(model, inputs), left).path
    requires Normal(Resolve(Catalog(model, inputs), right).path) == Resolve(Catalog(model, inputs), right).path
    ensures
      OverlapOf(Catalog(model, inputs), left, right) == Yes
      <==> Share(Resolve(Catalog(model, inputs), left).path, Resolve(Catalog(model, inputs), right).path)
  {
    hide Catalog, Resolve, Normal;
    OverlapMeansSharing(model, inputs, left, right);
  }

  // ---------------------------------------------------------------------------
  // Exactly when "no" is right
  // ---------------------------------------------------------------------------

  function Longest(inputs: seq<Alias>): (n: nat)
    ensures forall a :: a in inputs && a.locator.Other? ==> |a.locator.text| <= n
  {
    if inputs == [] then 0
    else
      var rest, l := Longest(inputs[1..]), inputs[0].locator;
      assert forall a :: a in inputs ==> a == inputs[0] || a in inputs[1..];
      if l.Other? && |l.text| > rest then |l.text| else rest
  }

  /** A text that no input is an alias of. */
  function Fresh(inputs: seq<Alias>): (text: string)
    ensures forall a :: a in inputs ==> a.locator != Other(text)
  {
    seq(Longest(inputs) + 1, i => 'x')
  }

  function Plainly(l: Locator): Resource
    requires l.PathLoc? || InFile(l)
  {
    Resource(l, l.path, true, false, false)
  }

  /** A file with one thing in it, and an export of the file. */
  function OneFile(l: Locator, name: string): Model
    requires InFile(l)
  {
    Model([Plainly(PathLoc(l.path)), Plainly(l)], [], [], [Export(name, l.path)], false)
  }

  lemma OneFileLists(l: Locator, name: string, x: Locator)
    requires InFile(l)
    ensures Listed(OneFile(l, name), x) <==> x == PathLoc(l.path) || x == l
  {
    var rs := OneFile(l, name).resources;
    assert rs[0] == Plainly(PathLoc(l.path)) && rs[1] == Plainly(l);
    assert forall r :: r in rs <==> r == rs[0] || r == rs[1];
  }

  lemma OneFileIsWellFormed(l: Locator, name: string)
    requires InFile(l) && l.path != ""
    ensures WellFormed(OneFile(l, name))
  {
    hide Inside, Listed;
    forall x { OneFileLists(l, name, x); }
    InsidePrefix(l.path, l.path);
  }

  lemma OneFileResources(l: Locator, name: string)
    requires InFile(l)
    ensures Deduplicated(OneFile(l, name).resources) == map[PathLoc(l.path) := Plainly(PathLoc(l.path)), l := Plainly(l)]
  {
    var rs, file := OneFile(l, name).resources, PathLoc(l.path);
    assert rs[..1] == [Plainly(file)] && [Plainly(file)][..0] == [];
    assert Deduplicated([Plainly(file)]) == map[file := Plainly(file)];
  }

  lemma OneFileCatalog(l: Locator, name: string, inputs: seq<Alias>)
    requires InFile(l)
    ensures
      var m, file := Catalog(OneFile(l, name), inputs), PathLoc(l.path);
      && m.resources == map[file := Plainly(file), l := Plainly(l)] && m.contains == {}
      && m.aliases == {Alias(l, file), Alias(Other(name), file)} + InputAliases(m.resources, inputs)
  {
    OneFileResources(l, name);
    var file, e := PathLoc(l.path), Export(name, l.path);
    var rs := map[file := Plainly(file), l := Plainly(l)];
    assert OneFile(l, name).exports == [e] && e in [e];
    assert ExportAliases(rs, [e]) == {Alias(Other(name), file)};
    assert l in rs && rs[l].path == l.path && l != file;
    assert SamePathAliases(rs) == {Alias(l, file)};
  }

  lemma ResolvesTo(m: Material, r: Reference, l: Locator)
    requires Candidates(m, r) == {l}
    ensures l in m.resources && Resolve(m, r) == Known(Indexed(l), m.resources[l].path, m.resources[l].known)
  {
    assert l in Candidates(m, r);
  }

  lemma NothingContained(m: Material, container: Id, member: Id)
    requires m.contains == {}
    ensures !Contains(m, container, member)
  {
    if Contains(m, container, member) { ReachesByAnEdge(ContainerEdges(m), member, container); }
  }

  lemma ReachesByAnEdge<T(!new)>(edges: set<(T, T)>, x: T, y: T)
    requires Reaches(edges, x, y)
    ensures edges != {}
  {
    var p :| |p| >= 2 && WalkFromTo(edges, p, x, y);
    assert (p[0], p[1]) in edges;
  }

  /** A bare alias of something in a file: in a model of that file alone, the alias and the export both
      name the file, and the answer is "no". */
  lemma BareAliasIsUnsound(inputs: seq<Alias>, a: Alias)
    requires Bare(inputs, a)
    ensures
      var model, left, right := OneFile(a.target, Fresh(inputs)), ByLocator(Other(Fresh(inputs))), ByLocator(a.locator);
      WellFormed(model) && !NoIsRight(model, inputs, left, right)
  {
    OneFileIsWellFormed(a.target, Fresh(inputs));
    BareAliasAnswer(inputs, a);
    BareAliasResolves(inputs, a);
    hide Resolve, Catalog, OverlapOf, Under, OneFile, WellFormed;
    var p := a.target.path;
    ShareIsUnder(p, p);
    assert Under(p, p) by { SamePathIsUnder(p); }
  }

  lemma BareAliasAnswer(inputs: seq<Alias>, a: Alias)
    requires Bare(inputs, a)
    ensures OverlapOf(Catalog(OneFile(a.target, Fresh(inputs)), inputs), ByLocator(Other(Fresh(inputs))), ByLocator(a.locator)) == No
  {
    BareAliasResolves(inputs, a);
    hide Resolve, Catalog, Contains, OneFile, Fresh;
    var m, l, file := Catalog(OneFile(a.target, Fresh(inputs)), inputs), a.target, PathLoc(a.target.path);
    NothingContained(m, Indexed(file), Indexed(l));
    NothingContained(m, Indexed(l), Indexed(file));
  }

  lemma SamePathIsUnder(p: Path)
    ensures Under(p, p)
  {
  }

  lemma BareAliasResolves(inputs: seq<Alias>, a: Alias)
    requires Bare(inputs, a)
    ensures
      var m, file := Catalog(OneFile(a.target, Fresh(inputs)), inputs), PathLoc(a.target.path);
      && m.contains == {}
      && Resolve(m, ByLocator(Other(Fresh(inputs)))) == Known(Indexed(file), file.path, true)
      && Resolve(m, ByLocator(a.locator)) == Known(Indexed(a.target), file.path, true)
  {
    OneFileCatalog(a.target, Fresh(inputs), inputs);
    ExportNamesFile(inputs, a);
    AliasNamesTarget(inputs, a);
    hide Catalog, OneFile, Fresh, Candidates;
    var m := Catalog(OneFile(a.target, Fresh(inputs)), inputs);
    ResolvesTo(m, ByLocator(Other(Fresh(inputs))), PathLoc(a.target.path));
    ResolvesTo(m, ByLocator(a.locator), a.target);
  }

  lemma ExportNamesFile(inputs: seq<Alias>, a: Alias)
    requires Bare(inputs, a)
    ensures Candidates(Catalog(OneFile(a.target, Fresh(inputs)), inputs), ByLocator(Other(Fresh(inputs)))) == {PathLoc(a.target.path)}
  {
    var name, file := Fresh(inputs), PathLoc(a.target.path);
    OneFileCatalog(a.target, name, inputs);
    hide Catalog, OneFile, Fresh;
    assert Alias(Other(name), file) in Catalog(OneFile(a.target, name), inputs).aliases;
  }

  lemma AliasNamesTarget(inputs: seq<Alias>, a: Alias)
    requires Bare(inputs, a)
    ensures Candidates(Catalog(OneFile(a.target, Fresh(inputs)), inputs), ByLocator(a.locator)) == {a.target}
  {
    OneFileCatalog(a.target, Fresh(inputs), inputs);
    hide Catalog, OneFile, Fresh;
    assert a in Catalog(OneFile(a.target, Fresh(inputs)), inputs).aliases;
  }

  /** "no" says that two known references share no path. */
  ghost predicate NoIsRight(model: Model, inputs: seq<Alias>, left: Reference, right: Reference) {
    var m := Catalog(model, inputs);
    Resolve(m, left).Known? && Resolve(m, right).Known? && OverlapOf(m, left, right) == No
    ==> !Share(Resolve(m, left).path, Resolve(m, right).path)
  }

  /** With given inputs, "no" is right in the catalog of every well-formed model and for all references
      exactly when none of the inputs is a bare alias of a module or symbol. */
  lemma NoIsRightExactly(inputs: seq<Alias>)
    ensures NoBareAlias(inputs) <==> forall model, left, right :: WellFormed(model) ==> NoIsRight(model, inputs, left, right)
  {
    hide Catalog, WellFormed, Bare;
    if NoBareAlias(inputs) {
      forall model, left, right | WellFormed(model) ensures NoIsRight(model, inputs, left, right) {
        var m := Catalog(model, inputs);
        if Resolve(m, left).Known? && Resolve(m, right).Known? { OverlapMeansSharing(model, inputs, left, right); }
      }
    } else {
      var a :| a in inputs && Bare(inputs, a);
      BareAliasIsUnsound(inputs, a);
    }
  }

  // ---------------------------------------------------------------------------
  // The loops of buildResourceCatalog
  // ---------------------------------------------------------------------------

  method Deduplicate(resources: seq<Resource>) returns (rs: map<Locator, Resource>)
    ensures rs == Deduplicated(resources)
  {
    rs := map[];
    for i := 0 to |resources|
      invariant rs == Deduplicated(resources[..i])
    {
      assert resources[..i + 1][..i] == resources[..i];
      var r := resources[i];
      if r.locator !in rs || r.surface { rs := rs[r.locator := r]; }
    }
    assert resources[..|resources|] == resources;
  }

  method AliasSamePaths(rs: map<Locator, Resource>) returns (aliases: set<Alias>)
    ensures aliases == SamePathAliases(rs)
  {
    aliases := {};
    var left := rs.Keys;
    while left != {}
      invariant left <= rs.Keys
      invariant aliases == set l | l in rs.Keys - left && PathLoc(rs[l].path) in rs && PathLoc(rs[l].path) != l :: Alias(l, PathLoc(rs[l].path))
      decreases left
    {
      var l :| l in left;
      if PathLoc(rs[l].path) in rs && PathLoc(rs[l].path) != l { aliases := aliases + {Alias(l, PathLoc(rs[l].path))}; }
      left := left - {l};
    }
  }

  /** The members of one package. */
  function HeldBy(rs: map<Locator, Resource>, root: Path, members: set<Locator>): set<Containment> {
    set l | l in members && PackageHolds(rs, root, l) :: Containment(PackageLoc(root), l)
  }

  method ContainMembers(rs: map<Locator, Resource>, root: Path) returns (contains: set<Containment>)
    ensures contains == HeldBy(rs, root, rs.Keys)
  {
    contains := {};
    var left := rs.Keys;
    while left != {}
      invariant left <= rs.Keys && contains == HeldBy(rs, root, rs.Keys - left)
      decreases left
    {
      var l :| l in left;
      ghost var visited := rs.Keys - left;
      left := left - {l};
      assert rs.Keys - left == visited + {l};
      if PackageHolds(rs, root, l) { contains := contains + {Containment(PackageLoc(root), l)}; }
    }
    assert rs.Keys - left == rs.Keys;
  }

  lemma OneMorePackage(rs: map<Locator, Resource>, packages: seq<Path>, root: Path)
    ensures PackageContains(rs, packages + [root]) == PackageContains(rs, packages) + HeldBy(rs, root, rs.Keys)
  {
    assert forall p :: p in packages + [root] <==> p in packages || p == root;
  }

  method ContainPackages(rs: map<Locator, Resource>, packages: seq<Path>) returns (contains: set<Containment>)
    ensures contains == PackageContains(rs, packages)
  {
    hide PackageContains, HeldBy;
    contains := {};
    NoPackages(rs);
    assert packages[..0] == [];
    for i := 0 to |packages|
      invariant contains == PackageContains(rs, packages[..i])
    {
      assert packages[..i + 1] == packages[..i] + [packages[i]];
      OneMorePackage(rs, packages[..i], packages[i]);
      var members := ContainMembers(rs, packages[i]);
      contains := contains + members;
    }
    assert packages[..|packages|] == packages;
  }

  lemma NoPackages(rs: map<Locator, Resource>)
    ensures PackageContains(rs, []) == {}
  {
  }

  method ContainSymbols(rs: map<Locator, Resource>, symbols: seq<Symbol>) returns (contains: set<Containment>)
    ensures contains == SymbolContains(rs, symbols)
  {
    contains := {};
    for i := 0 to |symbols|
      invariant contains == SymbolContains(rs, symbols[..i])
    {
      var s := symbols[i];
      assert symbols[..i + 1] == symbols[..i] + [s];
      var holder := Preferred(rs, ModuleLoc(s.path), PathLoc(s.path));
      if holder.Some? && SymbolLoc(s.path, s.name) in rs {
        contains := contains + {Containment(holder.value, SymbolLoc(s.path, s.name))};
      }
    }
    assert symbols[..|symbols|] == symbols;
  }

  method AliasExports(rs: map<Locator, Resource>, exports: seq<Export>) returns (aliases: set<Alias>)
    ensures aliases == ExportAliases(rs, exports)
  {
    aliases := {};
    for i := 0 to |exports|
      invariant aliases == ExportAliases(rs, exports[..i])
    {
      var e := exports[i];
      assert exports[..i + 1] == exports[..i] + [e];
      var target := Preferred(rs, PathLoc(e.target), ModuleLoc(e.target));
      if target.Some? { aliases := aliases + {Alias(Other(e.locator), target.value)}; }
    }
    assert exports[..|exports|] == exports;
  }

  method AliasInputs(rs: map<Locator, Resource>, inputs: seq<Alias>) returns (aliases: set<Alias>)
    ensures aliases == InputAliases(rs, inputs)
  {
    aliases := {};
    for i := 0 to |inputs|
      invariant aliases == InputAliases(rs, inputs[..i])
    {
      assert inputs[..i + 1] == inputs[..i] + [inputs[i]];
      if inputs[i].target in rs { aliases := aliases + {inputs[i]}; }
    }
    assert inputs[..|inputs|] == inputs;
  }

  method BuildResourceCatalog(model: Model, inputs: seq<Alias>) returns (catalog: ResourceCatalog)
    ensures catalog.Valid() && catalog.material == Catalog(model, inputs)
  {
    var rs := Deduplicate(model.resources);
    var samePath := AliasSamePaths(rs);
    var packages := ContainPackages(rs, model.packages);
    var symbols := ContainSymbols(rs, model.symbols);
    var exports := AliasExports(rs, model.exports);
    var given := AliasInputs(rs, inputs);
    catalog := new ResourceCatalog(Material(rs, packages + symbols, samePath + exports + given, model.coverageUnknown));
  }

  // ---------------------------------------------------------------------------
  // The catalog object
  // ---------------------------------------------------------------------------

  type Table = map<Reference, set<Locator>>

  function At(t: Table, r: Reference): set<Locator> {
    if r in t then t[r] else {}
  }

  function Append(t: Table, r: Reference, l: Locator): Table {
    t[r := At(t, r) + {l}]
  }

  /** Appends the existing target of every alias under its locator. */
  method AppendTargets(aliases: set<Alias>, rs: map<Locator, Resource>, start: Table) returns (t: Table)
    ensures forall r :: At(t, r) == At(start, r) + if r.ByLocator? then TargetsIn(aliases, rs, r.locator) else {}
  {
    hide TargetsIn;
    t := start;
    NoTargets(rs);
    assert aliases - aliases == {};
    var left := aliases;
    while left != {}
      invariant left <= aliases
      invariant forall r :: At(t, r) == At(start, r) + if r.ByLocator? then TargetsIn(aliases - left, rs, r.locator) else {}
      decreases left
    {
      var a :| a in left;
      ghost var done := aliases - left;
      left := left - {a};
      assert aliases - left == done + {a};
      forall l { OneMoreTarget(done, a, rs, l); }
      if a.target in rs {
        t := Append(t, ByLocator(a.locator), a.target);
      }
    }
    assert aliases - left == aliases;
  }

  lemma NoTargets(rs: map<Locator, Resource>)
    ensures forall l :: TargetsIn({}, rs, l) == {}
  {
  }

  lemma OneMoreTarget(aliases: set<Alias>, a: Alias, rs: map<Locator, Resource>, l: Locator)
    ensures TargetsIn(aliases + {a}, rs, l) == TargetsIn(aliases, rs, l) + if a.locator == l && a.target in rs then {a.target} else {}
  {
  }

  /** What the resources visited so far put under a reference. */
  ghost function OwnEntries(m: Material, visited: set<Locator>, r: Reference): set<Locator> {
    if r.locator !in visited then {}
    else if r.ById? then Candidates(m, r)
    else if Aliased(m, r.locator) then {} else {r.locator}
  }

  /** Every resource under its id, or the targets of its aliases, and under its locator when that is no alias. */
  method AppendResources(m: Material, aliasTargets: Table, aliased: set<Locator>) returns (t: Table)
    requires forall l :: At(aliasTargets, ByLocator(l)) == Targets(m, l)
    requires forall l :: l in aliased <==> Aliased(m, l)
    ensures forall r :: At(t, r) == OwnEntries(m, m.resources.Keys, r)
  {
    t := map[];
    var left := m.resources.Keys;
    while left != {}
      invariant left <= m.resources.Keys
      invariant forall r :: At(t, r) == OwnEntries(m, m.resources.Keys - left, r)
      decreases left
    {
      var l :| l in left;
      ghost var before, visited := t, m.resources.Keys - left;
      assert At(t, ById(l)) == {} && At(t, ByLocator(l)) == {};
      assert At(aliasTargets, ByLocator(l)) == Targets(m, l);
      if At(aliasTargets, ByLocator(l)) != {} {
        t := t[ById(l) := At(aliasTargets, ByLocator(l))];
      } else {
        t := Append(t, ById(l), l);
      }
      if l !in aliased {
        t := Append(t, ByLocator(l), l);
      }
      left := left - {l};
      assert m.resources.Keys - left == visited + {l};
      forall r ensures At(t, r) == OwnEntries(m, visited + {l}, r) {
        if r.locator != l { assert At(t, r) == At(before, r) == OwnEntries(m, visited, r); }
        else { assert r == ById(l) || r == ByLocator(l); }
      }
    }
  }

  method FillTable(m: Material) returns (t: Table)
    ensures forall r :: At(t, r) == Candidates(m, r)
  {
    var aliasTargets := AppendTargets(m.aliases, m.resources, map[]);
    var aliased := set a | a in m.aliases :: a.locator;
    forall l ensures l in aliased <==> Aliased(m, l) {}
    forall l ensures At(aliasTargets, ByLocator(l)) == Targets(m, l) {
      assert At(aliasTargets, ByLocator(l)) == At(map[], ByLocator(l)) + TargetsIn(m.aliases, m.resources, l);
    }
    var own := AppendResources(m, aliasTargets, aliased);
    t := AppendTargets(m.aliases, m.resources, own);
  }

  method FillContainers(contains: set<Containment>) returns (containers: map<Id, set<Id>>)
    ensures ParentEdges(containers) == set c | c in contains :: (Indexed(c.member), Indexed(c.container))
  {
    containers := map[];
    var left := contains;
    while left != {}
      invariant left <= contains
      invariant ParentEdges(containers) == set c | c in contains - left :: (Indexed(c.member), Indexed(c.container))
      decreases left
    {
      var c :| c in left;
      var current := ParentsOf(containers, Indexed(c.member));
      OneMoreContainer(containers, Indexed(c.member), Indexed(c.container));
      containers := containers[Indexed(c.member) := current + {Indexed(c.container)}];
      assert contains - (left - {c}) == contains - left + {c};
      left := left - {c};
    }
    assert contains - left == contains;
  }

  lemma OneMoreContainer(containers: map<Id, set<Id>>, member: Id, container: Id)
    ensures ParentEdges(containers[member := ParentsOf(containers, member) + {container}]) == ParentEdges(containers) + {(member, container)}
  {
  }

  class ResourceCatalog {
    const material: Material
    var resourcesByLocator: Table
    var containersByMember: map<Id, set<Id>>

    ghost predicate Valid()
      reads this
    {
      && (forall r :: At(resourcesByLocator, r) == Candidates(material, r))
      && ParentEdges(containersByMember) == ContainerEdges(material)
    }

    constructor (material: Material)
      ensures Valid() && this.material == material
    {
      this.material := material;
      var table := FillTable(material);
      var containers := FillContainers(material.contains);
      resourcesByLocator, containersByMember := table, containers;
    }

    method ResolveReference(r: Reference) returns (k: Resolution)
      requires Valid()
      ensures k == Resolve(material, r)
    {
      var candidates := At(resourcesByLocator, r);
      if |candidates| == 1 {
        var l :| l in candidates;
        OnlyOne(candidates, l);
        return Known(Indexed(l), material.resources[l].path, material.resources[l].known);
      }
      if |candidates| > 1 {
        return Conflicting;
      }
      var directory := DeclaredDirectory(material, r);
      if directory.Some? {
        return Known(Declared(directory.value), directory.value, true);
      }
      return Unknown;
    }

    method Overlaps(left: Reference, right: Reference) returns (o: Overlap)
      requires Valid()
      ensures o == OverlapOf(material, left, right)
    {
      hide Candidates, Resolve, DisjointPaths, InsideGitlink, PathOfEither;
      var l := ResolveReference(left);
      var r := ResolveReference(right);
      if l.Known? && r.Known? {
        if !l.known || !r.known { return Undecided; }
        if l.id == r.id { return Yes; }
        var above := ContainsResource(containersByMember, l.id, r.id);
        if above { return Yes; }
        var below := ContainsResource(containersByMember, r.id, l.id);
        if below { return Yes; }
        if l.id.Declared? || r.id.Declared? {
          return if DisjointPaths(l.path, r.path) then No else Yes;
        }
        return No;
      }
      var leftPath, rightPath := PathOfEither(left, l), PathOfEither(right, r);
      if leftPath.Some? && rightPath.Some? {
        if InsideGitlink(material, leftPath.value) || InsideGitlink(material, rightPath.value) { return Undecided; }
        if leftPath.value == rightPath.value { return Yes; }
        return if DisjointPaths(leftPath.value, rightPath.value) then No else Yes;
      }
      return Undecided;
    }
  }

  lemma OnlyOne(s: set<Locator>, l: Locator)
    requires |s| == 1 && l in s
    ensures forall x :: x in s ==> x == l
  {
    assert |s - {l}| == 0;
    assert s == s - {l} + {l};
  }
}
