/**
 Overlays on a repository tree: each overlay names paths it adds and deletes, is
 checked against its preimage, and its result is compared with the tree git lists.
 */
module RepositoryOverlay {
  import opened Options
  import opened PosixPaths
  import opened Sorting

  type Path = string
  type Oid = nat
  type Mode = nat
  type Kind = nat
  type Sha = nat

  datatype GitEntry = GitEntry(path: Path, oid: Oid, mode: Mode, kind: Kind)

  datatype Operation = Add | Modify | Delete | TypeChange

  datatype Entry = Entry(
    operation: Operation, oldPath: Option<Path>, newPath: Option<Path>,
    oldOid: Option<Oid>, newOid: Option<Oid>, oldMode: Option<Mode>, newMode: Option<Mode>)

  type Tree = map<Path, GitEntry>

  /** entryKind: the kind git gives an entry of this mode. */
  type KindOf = Mode -> Kind

  // ---------------------------------------------------------------------------
  // Validation of one entry
  // ---------------------------------------------------------------------------

  predicate SafePath(p: Path) {
    '\\' !in p && (p == "" || p[0] != '/') && ".." !in Segments(p)
  }

  predicate SafeIfPresent(p: Option<Path>) {
    p.Some? ==> SafePath(p.value)
  }

  predicate Shaped(e: Entry) {
    match e.operation
    case Add => e.newPath.Some? && e.newOid.Some? && e.newMode.Some? && e.oldPath.None?
    case Delete => e.oldPath.Some? && e.oldOid.Some? && e.oldMode.Some? && e.newPath.None?
    case _ =>
      && e.oldPath.Some? && e.oldOid.Some? && e.oldMode.Some?
      && e.newPath.Some? && e.newOid.Some? && e.newMode.Some? && e.oldPath == e.newPath
  }

  predicate ValidEntry(e: Entry) {
    Shaped(e) && SafeIfPresent(e.oldPath) && SafeIfPresent(e.newPath)
  }

  // ---------------------------------------------------------------------------
  // applyOverlayEntries
  // ---------------------------------------------------------------------------

  datatype Progress = Progress(result: Tree, touched: set<Path>)

  /** The old side of an entry: its preimage must be there, and goes. */
  function Remove(p: Progress, e: Entry): Option<Progress>
    requires Shaped(e)
  {
    if e.oldPath.None? then Some(p)
    else
      var path := e.oldPath.value;
      if path in p.touched || path !in p.result || Some(p.result[path].oid) != e.oldOid || Some(p.result[path].mode) != e.oldMode then None
      else Some(Progress(p.result - {path}, p.touched + {path}))
  }

  /** The new side of an entry. */
  function Put(kindOf: KindOf, p: Progress, e: Entry): Option<Progress>
    requires Shaped(e)
  {
    if e.newPath.None? then Some(p)
    else
      var path := e.newPath.value;
      if path in p.touched || (e.operation.Add? && path in p.result) then None
      else Some(Progress(p.result[path := GitEntry(path, e.newOid.value, e.newMode.value, kindOf(e.newMode.value))], p.touched + {path}))
  }

  function ApplyEntry(kindOf: KindOf, p: Progress, e: Entry): Option<Progress> {
    if !ValidEntry(e) then None
    else
      var removed := Remove(p, e);
      if removed.None? then None else Put(kindOf, removed.value, e)
  }

  function ApplyEntries(kindOf: KindOf, current: Tree, entries: seq<Entry>): Option<Progress> {
    if entries == [] then Some(Progress(current, {}))
    else
      var before := ApplyEntries(kindOf, current, entries[..|entries| - 1]);
      if before.None? then None else ApplyEntry(kindOf, before.value, entries[|entries| - 1])
  }

  /** The tree an overlay describes, or none when it is rejected. */
  function Apply(kindOf: KindOf, current: Tree, entries: seq<Entry>): Option<Tree> {
    var p := ApplyEntries(kindOf, current, entries);
    if p.None? then None else Some(p.value.result)
  }

  lemma {:induction false} RejectedStays(kindOf: KindOf, current: Tree, entries: seq<Entry>, n: nat)
    requires n <= |entries| && ApplyEntries(kindOf, current, entries[..n]).None?
    ensures ApplyEntries(kindOf, current, entries).None?
    decreases |entries|
  {
    if n < |entries| {
      assert entries[..|entries| - 1][..n] == entries[..n];
      RejectedStays(kindOf, current, entries[..|entries| - 1], n);
    } else {
      assert entries[..n] == entries;
    }
  }

  method ApplyOverlayEntries(kindOf: KindOf, current: Tree, entries: seq<Entry>) returns (r: Option<Tree>)
    ensures r == Apply(kindOf, current, entries)
  {
    var result := current;
    var touched: set<Path> := {};
    for index := 0 to |entries|
      invariant ApplyEntries(kindOf, current, entries[..index]) == Some(Progress(result, touched))
    {
      var entry := entries[index];
      assert entries[..index + 1][..index] == entries[..index];
      ghost var before := Progress(result, touched);
      assert ApplyEntries(kindOf, current, entries[..index + 1]) == ApplyEntry(kindOf, before, entry);
      if !ValidEntry(entry) {
        RejectedStays(kindOf, current, entries, index + 1);
        return None;
      }
      if entry.oldPath.Some? {
        var path := entry.oldPath.value;
        if path in touched || path !in result || Some(result[path].oid) != entry.oldOid || Some(result[path].mode) != entry.oldMode {
          RejectedStays(kindOf, current, entries, index + 1);
          return None;
        }
        result := result - {path};
        touched := touched + {path};
      }
      if entry.newPath.Some? {
        var path := entry.newPath.value;
        if path in touched || (entry.operation.Add? && path in result) {
          RejectedStays(kindOf, current, entries, index + 1);
          return None;
        }
        result := result[path := GitEntry(path, entry.newOid.value, entry.newMode.value, kindOf(entry.newMode.value))];
        touched := touched + {path};
      }
    }
    assert entries[..|entries|] == entries;
    return Some(result);
  }

  // ---------------------------------------------------------------------------
  // What an accepted overlay is
  // ---------------------------------------------------------------------------

  /** A valid add or delete. */
  predicate Plain(e: Entry) {
    ValidEntry(e) && (e.operation.Add? || e.operation.Delete?)
  }

  function PathOf(e: Entry): Path
    requires Plain(e)
  {
    if e.operation.Add? then e.newPath.value else e.oldPath.value
  }

  /** An add names a free path, a delete a path with this oid and mode. */
  predicate Fits(current: Tree, e: Entry)
    requires Plain(e)
  {
    if e.operation.Add? then PathOf(e) !in current
    else PathOf(e) in current && current[PathOf(e)].oid == e.oldOid.value && current[PathOf(e)].mode == e.oldMode.value
  }

  predicate Acceptable(current: Tree, entries: seq<Entry>) {
    && (forall i :: 0 <= i < |entries| ==> Plain(entries[i]) && Fits(current, entries[i]))
    && (forall i, j :: 0 <= i < j < |entries| ==> PathOf(entries[i]) != PathOf(entries[j]))
  }

  function EntryOf(kindOf: KindOf, e: Entry): GitEntry
    requires Plain(e) && e.operation.Add?
  {
    GitEntry(PathOf(e), e.newOid.value, e.newMode.value, kindOf(e.newMode.value))
  }

  predicate Names(entries: seq<Entry>, path: Path) {
    exists i :: 0 <= i < |entries| && Plain(entries[i]) && PathOf(entries[i]) == path
  }

  /** What the result holds for one entry of the overlay. */
  predicate Shows(kindOf: KindOf, result: Tree, e: Entry)
    requires Plain(e)
  {
    if e.operation.Add? then PathOf(e) in result && result[PathOf(e)] == EntryOf(kindOf, e) else PathOf(e) !in result
  }

  predicate SameAt(result: Tree, current: Tree, path: Path) {
    (path in result <==> path in current) && (path in result ==> result[path] == current[path])
  }

  /** The base minus the deletes plus the adds. */
  ghost predicate IsResult(kindOf: KindOf, current: Tree, entries: seq<Entry>, result: Tree) {
    && (forall i :: 0 <= i < |entries| ==> Plain(entries[i]) && Shows(kindOf, result, entries[i]))
    && (forall path :: !Names(entries, path) ==> SameAt(result, current, path))
  }

  lemma ResultIsUnique(kindOf: KindOf, current: Tree, a: seq<Entry>, b: seq<Entry>, s: Tree, t: Tree)
    requires IsResult(kindOf, current, a, s) && IsResult(kindOf, current, b, t)
    requires forall e :: e in a <==> e in b
    ensures s == t
  {
    forall path ensures SameAt(s, t, path) {
      if Names(a, path) {
        var i :| 0 <= i < |a| && Plain(a[i]) && PathOf(a[i]) == path;
        assert a[i] in b;
        var j :| 0 <= j < |b| && b[j] == a[i];
        assert Shows(kindOf, s, a[i]) && Shows(kindOf, t, b[j]);
      } else {
        if Names(b, path) {
          var j :| 0 <= j < |b| && Plain(b[j]) && PathOf(b[j]) == path;
          assert b[j] in a;
        }
        assert SameAt(s, current, path) && SameAt(t, current, path);
      }
    }
    SameEverywhere(s, t);
  }

  /** Every modify and every type_change is rejected: its old path is touched when its new path is looked at. */
  lemma OnlyPlainEntriesPass(kindOf: KindOf, p: Progress, e: Entry)
    ensures ApplyEntry(kindOf, p, e).Some? ==> Plain(e)
  {
  }

  /** The entries applied so far touch exactly the paths they name. */
  ghost predicate Tracks(kindOf: KindOf, current: Tree, entries: seq<Entry>, p: Progress) {
    && Acceptable(current, entries) && IsResult(kindOf, current, entries, p.result)
    && (forall path :: path in p.touched <==> Names(entries, path))
  }

  lemma NamesMore(entries: seq<Entry>, e: Entry, path: Path)
    requires Plain(e)
    ensures Names(entries + [e], path) <==> Names(entries, path) || PathOf(e) == path
  {
    var more := entries + [e];
    assert more[|entries|] == e;
    assert forall i :: 0 <= i < |entries| ==> more[i] == entries[i];
    if Names(more, path) {
      var i :| 0 <= i < |more| && Plain(more[i]) && PathOf(more[i]) == path;
      assert i < |entries| ==> entries[i] == more[i];
    }
  }

  lemma AcceptableMore(current: Tree, entries: seq<Entry>, e: Entry)
    requires Acceptable(current, entries) && Plain(e)
    ensures Acceptable(current, entries + [e]) <==> Fits(current, e) && !Names(entries, PathOf(e))
  {
    var more := entries + [e];
    assert more[|entries|] == e;
    assert forall i :: 0 <= i < |entries| ==> more[i] == entries[i];
  }

  lemma EntryPasses(kindOf: KindOf, current: Tree, entries: seq<Entry>, p: Progress, e: Entry)
    requires Tracks(kindOf, current, entries, p) && Plain(e)
    ensures ApplyEntry(kindOf, p, e).Some? <==> Acceptable(current, entries + [e])
  {
    AcceptableMore(current, entries, e);
    assert !Names(entries, PathOf(e)) ==> SameAt(p.result, current, PathOf(e));
  }

  lemma EntryTracks(kindOf: KindOf, current: Tree, entries: seq<Entry>, p: Progress, e: Entry)
    requires Tracks(kindOf, current, entries, p) && Plain(e) && ApplyEntry(kindOf, p, e).Some?
    ensures Tracks(kindOf, current, entries + [e], ApplyEntry(kindOf, p, e).value)
  {
    var more, q := entries + [e], ApplyEntry(kindOf, p, e).value;
    EntryPasses(kindOf, current, entries, p, e);
    AcceptableMore(current, entries, e);
    forall path { NamesMore(entries, e, path); }
    forall i | 0 <= i < |more| ensures Plain(more[i]) && Shows(kindOf, q.result, more[i]) {
      if i < |entries| {
        assert more[i] == entries[i] && Shows(kindOf, p.result, entries[i]);
        assert Names(entries, PathOf(entries[i]));
      }
    }
    forall path | !Names(more, path) ensures SameAt(q.result, current, path) {
      assert SameAt(p.result, current, path);
    }
  }

  lemma {:induction false} AppliedTracks(kindOf: KindOf, current: Tree, entries: seq<Entry>)
    ensures ApplyEntries(kindOf, current, entries).Some? <==> Acceptable(current, entries)
    ensures ApplyEntries(kindOf, current, entries).Some? ==> Tracks(kindOf, current, entries, ApplyEntries(kindOf, current, entries).value)
    decreases |entries|
  {
    if entries == [] {
      assert forall path :: SameAt(current, current, path);
    } else {
      var front, e := entries[..|entries| - 1], entries[|entries| - 1];
      assert entries == front + [e];
      AppliedTracks(kindOf, current, front);
      AcceptableFront(current, front, e);
      var before := ApplyEntries(kindOf, current, front);
      if before.Some? {
        OnlyPlainEntriesPass(kindOf, before.value, e);
        if Plain(e) {
          EntryPasses(kindOf, current, front, before.value, e);
          if ApplyEntry(kindOf, before.value, e).Some? { EntryTracks(kindOf, current, front, before.value, e); }
        }
      }
    }
  }

  lemma AcceptableFront(current: Tree, front: seq<Entry>, e: Entry)
    ensures Acceptable(current, front + [e]) ==> Acceptable(current, front) && Plain(e)
  {
    var entries := front + [e];
    assert entries[|front|] == e;
    assert forall i :: 0 <= i < |front| ==> front[i] == entries[i];
    if Acceptable(current, entries) {
      assert forall i :: 0 <= i < |front| ==> Plain(entries[i]) && Fits(current, entries[i]);
      assert forall i, j :: 0 <= i < j < |front| ==> PathOf(entries[i]) != PathOf(entries[j]);
    }
  }

  /** An overlay is accepted exactly when its entries are adds and deletes of different paths that fit
      the base, and its result is then the base minus the deletes plus the adds. */
  lemma AcceptedExactly(kindOf: KindOf, current: Tree, entries: seq<Entry>)
    ensures Apply(kindOf, current, entries).Some? <==> Acceptable(current, entries)
    ensures Acceptable(current, entries) ==> IsResult(kindOf, current, entries, Apply(kindOf, current, entries).value)
  {
    AppliedTracks(kindOf, current, entries);
  }

  // ---------------------------------------------------------------------------
  // Order does not matter
  // ---------------------------------------------------------------------------

  lemma AcceptableInAnyOrder(current: Tree, a: seq<Entry>, b: seq<Entry>)
    requires multiset(a) == multiset(b) && Acceptable(current, a)
    ensures Acceptable(current, b)
  {
    SameElements(a, b);
    forall i | 0 <= i < |b| ensures Plain(b[i]) && Fits(current, b[i]) {
      assert b[i] in Elements(a);
    }
    forall i, j | 0 <= i < j < |a| ensures a[i] != a[j] {
      assert PathOf(a[i]) != PathOf(a[j]);
    }
    forall i, j | 0 <= i < j < |b| ensures PathOf(b[i]) != PathOf(b[j]) {
      DistinctKept(a, b, i, j);
      assert b[i] in Elements(a) && b[j] in Elements(a);
      var m :| 0 <= m < |a| && a[m] == b[i];
      var n :| 0 <= n < |a| && a[n] == b[j];
      assert m < n ==> PathOf(a[m]) != PathOf(a[n]);
      assert n < m ==> PathOf(a[n]) != PathOf(a[m]);
    }
  }

  /** Both acceptance and result are the same for every order of the entries. */
  lemma OrderDoesNotMatter(kindOf: KindOf, current: Tree, a: seq<Entry>, b: seq<Entry>)
    requires multiset(a) == multiset(b)
    ensures Apply(kindOf, current, a) == Apply(kindOf, current, b)
  {
    AcceptedExactly(kindOf, current, a);
    AcceptedExactly(kindOf, current, b);
    if Acceptable(current, a) { AcceptableInAnyOrder(current, a, b); }
    if Acceptable(current, b) { AcceptableInAnyOrder(current, b, a); }
    if Acceptable(current, a) {
      SameElements(a, b);
      forall e ensures e in a <==> e in b { assert e in Elements(a) <==> e in Elements(b); }
      ResultIsUnique(kindOf, current, a, b, Apply(kindOf, current, a).value, Apply(kindOf, current, b).value);
    }
  }

  // ---------------------------------------------------------------------------
  // The inverse overlay
  // ---------------------------------------------------------------------------

  function Undo(e: Entry): Entry {
    Entry(
      if e.operation.Add? then Delete else if e.operation.Delete? then Add else e.operation,
      e.newPath, e.oldPath, e.newOid, e.oldOid, e.newMode, e.oldMode)
  }

  function UndoAll(entries: seq<Entry>): (r: seq<Entry>)
    ensures |r| == |entries|
  {
    seq(|entries|, i requires 0 <= i < |entries| => Undo(entries[i]))
  }

  /** The entry git holds at the path of a delete has the kind of its mode. */
  predicate KindFollowsMode(kindOf: KindOf, current: Tree, e: Entry) {
    Plain(e) && e.operation.Delete? && PathOf(e) in current ==>
      current[PathOf(e)] == GitEntry(PathOf(e), current[PathOf(e)].oid, current[PathOf(e)].mode, kindOf(current[PathOf(e)].mode))
  }

  lemma UndoFits(kindOf: KindOf, current: Tree, entries: seq<Entry>, result: Tree, i: nat)
    requires Acceptable(current, entries) && IsResult(kindOf, current, entries, result) && i < |entries|
    ensures Plain(Undo(entries[i])) && PathOf(Undo(entries[i])) == PathOf(entries[i]) && Fits(result, Undo(entries[i]))
  {
    assert Shows(kindOf, result, entries[i]);
  }

  /** Swapping adds and deletes gives an accepted overlay on the result. */
  lemma UndoIsAccepted(kindOf: KindOf, current: Tree, entries: seq<Entry>)
    requires Apply(kindOf, current, entries).Some?
    ensures Apply(kindOf, Apply(kindOf, current, entries).value, UndoAll(entries)).Some?
  {
    var result, undo := Apply(kindOf, current, entries).value, UndoAll(entries);
    AcceptedExactly(kindOf, current, entries);
    forall i | 0 <= i < |undo| { UndoFits(kindOf, current, entries, result, i); }
    forall i, j | 0 <= i < j < |undo| ensures PathOf(undo[i]) != PathOf(undo[j]) {
      assert PathOf(entries[i]) != PathOf(entries[j]);
    }
    assert Acceptable(result, undo);
    AcceptedExactly(kindOf, result, undo);
  }

  /** It restores the base exactly when the deleted entries had the kinds of their modes. */
  lemma UndoRestoresExactly(kindOf: KindOf, current: Tree, entries: seq<Entry>)
    requires Apply(kindOf, current, entries).Some?
    ensures
      Apply(kindOf, Apply(kindOf, current, entries).value, UndoAll(entries)) == Some(current)
      <==> forall i :: 0 <= i < |entries| ==> KindFollowsMode(kindOf, current, entries[i])
  {
    var result, undo := Apply(kindOf, current, entries).value, UndoAll(entries);
    AcceptedExactly(kindOf, current, entries);
    UndoIsAccepted(kindOf, current, entries);
    AcceptedExactly(kindOf, result, undo);
    var restored := Apply(kindOf, result, undo).value;
    forall i | 0 <= i < |entries|
      ensures SameAt(restored, current, PathOf(entries[i])) <==> KindFollowsMode(kindOf, current, entries[i])
    {
      UndoShows(kindOf, current, entries, restored, i);
    }
    if forall i :: 0 <= i < |entries| ==> KindFollowsMode(kindOf, current, entries[i]) {
      forall path ensures SameAt(restored, current, path) {
        if Names(entries, path) {
          var i :| 0 <= i < |entries| && Plain(entries[i]) && PathOf(entries[i]) == path;
        } else {
          UndoNames(entries, path);
          assert SameAt(result, current, path) && SameAt(restored, result, path);
        }
      }
      SameEverywhere(restored, current);
    }
  }

  lemma UndoShows(kindOf: KindOf, current: Tree, entries: seq<Entry>, restored: Tree, i: nat)
    requires Acceptable(current, entries) && i < |entries|
    requires Plain(UndoAll(entries)[i]) && Shows(kindOf, restored, UndoAll(entries)[i])
    ensures SameAt(restored, current, PathOf(entries[i])) <==> KindFollowsMode(kindOf, current, entries[i])
  {
    assert Fits(current, entries[i]);
  }

  lemma UndoNames(entries: seq<Entry>, path: Path)
    ensures Names(UndoAll(entries), path) ==> Names(entries, path)
  {
    var undo := UndoAll(entries);
    if Names(undo, path) {
      var i :| 0 <= i < |undo| && Plain(undo[i]) && PathOf(undo[i]) == path;
      assert Plain(entries[i]) && PathOf(entries[i]) == path;
    }
  }

  lemma SameEverywhere(s: Tree, t: Tree)
    requires forall path :: SameAt(s, t, path)
    ensures s == t
  {
    forall path ensures path in s <==> path in t { assert SameAt(s, t, path); }
    forall path | path in s ensures s[path] == t[path] { assert SameAt(s, t, path); }
  }

  // ---------------------------------------------------------------------------
  // assertSameTree
  // ---------------------------------------------------------------------------

  /** new Map(entries by path): the last entry of a path. */
  function ByPath(entries: seq<GitEntry>): Tree {
    if entries == [] then map[]
    else ByPath(entries[..|entries| - 1])[entries[|entries| - 1].path := entries[|entries| - 1]]
  }

  /** The last entry of a path counts. */
  lemma {:induction false} ByPathIsLast(entries: seq<GitEntry>, i: nat)
    requires i < |entries| && forall j :: i < j < |entries| ==> entries[j].path != entries[i].path
    ensures entries[i].path in ByPath(entries) && ByPath(entries)[entries[i].path] == entries[i]
    decreases |entries|
  {
    if i < |entries| - 1 { ByPathIsLast(entries[..|entries| - 1], i); }
  }

  predicate AgreeAt(s: Tree, t: Tree, path: Path) {
    (path in s <==> path in t) && (path in s && path in t ==> s[path].oid == t[path].oid && s[path].mode == t[path].mode)
  }

  /** The same paths, with equal object ids and modes. */
  ghost predicate Agree(s: Tree, t: Tree) {
    forall path :: AgreeAt(s, t, path)
  }

  lemma SameSize(s: Tree, t: Tree)
    requires |s| == |t| && s.Keys <= t.Keys
    ensures s.Keys == t.Keys
  {
    assert |t.Keys - s.Keys| == |t.Keys| - |s.Keys|;
    assert t.Keys == s.Keys + (t.Keys - s.Keys);
  }

  /** The check passes exactly when the trees agree. */
  method AssertSameTree(expected: Tree, actual: seq<GitEntry>) returns (ok: bool)
    ensures ok <==> Agree(expected, ByPath(actual))
    ensures ok <==>
      && expected.Keys == ByPath(actual).Keys
      && forall path :: path in expected ==> expected[path].oid == ByPath(actual)[path].oid && expected[path].mode == ByPath(actual)[path].mode
  {
    AgreeingTrees(expected, ByPath(actual));
    var actualMap: Tree := map[];
    for i := 0 to |actual|
      invariant actualMap == ByPath(actual[..i])
    {
      assert actual[..i + 1][..i] == actual[..i];
      actualMap := actualMap[actual[i].path := actual[i]];
    }
    assert actual[..|actual|] == actual;
    if |expected| != |actualMap| {
      AgreeingTrees(expected, actualMap);
      return false;
    }
    var left := expected.Keys;
    while left != {}
      invariant left <= expected.Keys
      invariant forall path :: path in expected && path !in left ==> path in actualMap && AgreeAt(expected, actualMap, path)
      decreases left
    {
      var path :| path in left;
      if path !in actualMap || actualMap[path].oid != expected[path].oid || actualMap[path].mode != expected[path].mode {
        assert !AgreeAt(expected, actualMap, path);
        return false;
      }
      left := left - {path};
    }
    SameSize(expected, actualMap);
    return true;
  }

  lemma AgreeingTrees(s: Tree, t: Tree)
    ensures Agree(s, t) ==> s.Keys == t.Keys && |s| == |t|
    ensures Agree(s, t) <==> s.Keys == t.Keys && forall path :: path in s ==> s[path].oid == t[path].oid && s[path].mode == t[path].mode
  {
    if s.Keys == t.Keys && forall path :: path in s ==> s[path].oid == t[path].oid && s[path].mode == t[path].mode {
      forall path ensures AgreeAt(s, t, path) { assert path in s.Keys <==> path in t.Keys; }
    }
    if Agree(s, t) {
      forall path ensures path in s.Keys <==> path in t.Keys { assert AgreeAt(s, t, path); }
      forall path | path in s ensures path in t && s[path].oid == t[path].oid && s[path].mode == t[path].mode {
        assert AgreeAt(s, t, path);
      }
    }
  }

  // ---------------------------------------------------------------------------
  // The composed view
  // ---------------------------------------------------------------------------

  datatype Overlay = Overlay(manifest: nat, baseTree: Sha, resultTree: Sha, entries: seq<Entry>)

  datatype View = View(entries: Tree, tree: Sha, manifests: seq<nat>)

  /** git ls-tree. */
  type ListTree = Sha -> seq<GitEntry>

  /** One overlay of the chain: a new manifest, on the current tree, and git's tree is the described one. */
  ghost predicate Follows(kindOf: KindOf, list: ListTree, before: View, o: Overlay) {
    && o.manifest !in before.manifests && o.baseTree == before.tree
    && Apply(kindOf, before.entries, o.entries).Some?
    && Agree(Apply(kindOf, before.entries, o.entries).value, ByPath(list(o.resultTree)))
  }

  ghost function Composed(kindOf: KindOf, list: ListTree, base: View, overlays: seq<Overlay>): Option<View> {
    if overlays == [] then Some(base)
    else
      var before := Composed(kindOf, list, base, overlays[..|overlays| - 1]);
      var o := overlays[|overlays| - 1];
      if before.None? || !Follows(kindOf, list, before.value, o) then None
      else Some(View(ByPath(list(o.resultTree)), o.resultTree, before.value.manifests + [o.manifest]))
  }

  lemma {:induction false} BrokenChain(kindOf: KindOf, list: ListTree, base: View, overlays: seq<Overlay>, n: nat)
    requires n <= |overlays| && Composed(kindOf, list, base, overlays[..n]).None?
    ensures Composed(kindOf, list, base, overlays).None?
    decreases |overlays|
  {
    if n < |overlays| {
      assert overlays[..|overlays| - 1][..n] == overlays[..n];
      BrokenChain(kindOf, list, base, overlays[..|overlays| - 1], n);
    } else {
      assert overlays[..n] == overlays;
    }
  }

  method ComposeRepositoryView(kindOf: KindOf, list: ListTree, base: View, overlays: seq<Overlay>) returns (r: Option<View>)
    requires base.manifests == []
    ensures r == Composed(kindOf, list, base, overlays)
  {
    var currentTree, currentEntries := base.tree, base.entries;
    var applied: seq<nat> := [];
    var seen: set<nat> := {};
    for i := 0 to |overlays|
      invariant Composed(kindOf, list, base, overlays[..i]) == Some(View(currentEntries, currentTree, applied))
      invariant forall m :: m in seen <==> m in applied
    {
      var o := overlays[i];
      assert overlays[..i + 1][..i] == overlays[..i];
      if o.manifest in seen || o.baseTree != currentTree {
        BrokenChain(kindOf, list, base, overlays, i + 1);
        return None;
      }
      var expected := ApplyOverlayEntries(kindOf, currentEntries, o.entries);
      if expected.None? {
        BrokenChain(kindOf, list, base, overlays, i + 1);
        return None;
      }
      var same := AssertSameTree(expected.value, list(o.resultTree));
      if !same {
        BrokenChain(kindOf, list, base, overlays, i + 1);
        return None;
      }
      currentEntries, currentTree := ByPath(list(o.resultTree)), o.resultTree;
      applied := applied + [o.manifest];
      seen := seen + {o.manifest};
    }
    assert overlays[..|overlays|] == overlays;
    return Some(View(currentEntries, currentTree, applied));
  }

  /** The tree and the entries that overlay `i` is checked against. */
  function TreeBefore(base: View, overlays: seq<Overlay>, i: nat): Sha
    requires i <= |overlays|
  {
    if i == 0 then base.tree else overlays[i - 1].resultTree
  }

  function EntriesBefore(list: ListTree, base: View, overlays: seq<Overlay>, i: nat): Tree
    requires i <= |overlays|
  {
    if i == 0 then base.entries else ByPath(list(overlays[i - 1].resultTree))
  }

  /** The overlay is on the tree before it, and git lists the tree that it describes there. */
  ghost predicate Linked(kindOf: KindOf, list: ListTree, base: View, overlays: seq<Overlay>, i: nat)
    requires i < |overlays|
  {
    var described := Apply(kindOf, EntriesBefore(list, base, overlays, i), overlays[i].entries);
    && overlays[i].baseTree == TreeBefore(base, overlays, i)
    && described.Some? && Agree(described.value, ByPath(list(overlays[i].resultTree)))
  }

  function Manifests(overlays: seq<Overlay>): seq<nat> {
    seq(|overlays|, i requires 0 <= i < |overlays| => overlays[i].manifest)
  }

  /** A chain is accepted exactly when its manifests differ and each overlay is linked to the one before;
      the view is then what git lists for the last result. */
  lemma {:induction false} ChainExactly(kindOf: KindOf, list: ListTree, base: View, overlays: seq<Overlay>)
    requires base.manifests == []
    ensures
      Composed(kindOf, list, base, overlays).Some? <==>
        && (forall i, j :: 0 <= i < j < |overlays| ==> overlays[i].manifest != overlays[j].manifest)
        && (forall i :: 0 <= i < |overlays| ==> Linked(kindOf, list, base, overlays, i))
    ensures
      var n, r := |overlays|, Composed(kindOf, list, base, overlays);
      r.Some? ==> r.value == View(EntriesBefore(list, base, overlays, n), TreeBefore(base, overlays, n), Manifests(overlays))
    decreases |overlays|
  {
    if overlays != [] {
      hide Agree, Apply, ByPath, Linked, Composed;
      var n := |overlays| - 1;
      var front := overlays[..n];
      ChainExactly(kindOf, list, base, front);
      LinkedInFront(kindOf, list, base, overlays);
      ManifestsInFront(overlays);
      ComposedNext(kindOf, list, base, overlays);
    }
  }

  lemma LinkedInFront(kindOf: KindOf, list: ListTree, base: View, overlays: seq<Overlay>)
    requires overlays != []
    ensures
      var n := |overlays| - 1;
      forall i :: 0 <= i < n ==> (Linked(kindOf, list, base, overlays, i) <==> Linked(kindOf, list, base, overlays[..n], i))
  {
    hide Agree, Apply, ByPath;
  }

  lemma ManifestsInFront(overlays: seq<Overlay>)
    requires overlays != []
    ensures
      var n := |overlays| - 1;
      && Manifests(overlays) == Manifests(overlays[..n]) + [overlays[n].manifest]
      && (overlays[n].manifest in Manifests(overlays[..n]) <==> exists i :: 0 <= i < n && overlays[i].manifest == overlays[n].manifest)
      && forall i :: 0 <= i < n ==> overlays[..n][i] == overlays[i]
  {
    var n := |overlays| - 1;
    if i :| 0 <= i < n && overlays[i].manifest == overlays[n].manifest { assert Manifests(overlays[..n])[i] == overlays[i].manifest; }
  }

  /** One more overlay of a chain. */
  lemma ComposedNext(kindOf: KindOf, list: ListTree, base: View, overlays: seq<Overlay>)
    requires overlays != []
    ensures
      var n := |overlays| - 1;
      var before, after := Composed(kindOf, list, base, overlays[..n]), Composed(kindOf, list, base, overlays);
      && (before.None? ==> after.None?)
      && (before.Some? && before.value.entries == EntriesBefore(list, base, overlays, n) && before.value.tree == TreeBefore(base, overlays, n) ==>
            && (after.Some? <==> overlays[n].manifest !in before.value.manifests && Linked(kindOf, list, base, overlays, n))
            && (after.Some? ==> after.value == View(ByPath(list(overlays[n].resultTree)), overlays[n].resultTree,
                                                    before.value.manifests + [overlays[n].manifest])))
  {
    hide Agree, Apply, ByPath;
  }

  /** Relative, without backslashes, and without a part that leaves the tree. */
  predicate StaysInside(p: Path) {
    (forall k :: 0 <= k < |p| ==> p[k] != '\\') && (|p| > 0 ==> p[0] != '/')
    && forall k :: 0 <= k < |Segments(p)| ==> Segments(p)[k] != ".."
  }

  /** Whatever an accepted overlay names stays inside the tree, and it names what it removes and adds in full. */
  lemma AcceptedPathsStayInside(kindOf: KindOf, current: Tree, entries: seq<Entry>, i: nat)
    requires Apply(kindOf, current, entries).Some? && i < |entries|
    ensures
      var e := entries[i];
      && (e.operation.Add? ==> e.oldPath.None? && e.newPath.Some? && e.newOid.Some? && e.newMode.Some? && StaysInside(e.newPath.value))
      && (e.operation.Delete? ==> e.newPath.None? && e.oldPath.Some? && e.oldOid.Some? && e.oldMode.Some? && StaysInside(e.oldPath.value))
      && (e.operation.Add? || e.operation.Delete?)
  {
    AcceptedExactly(kindOf, current, entries);
    assert Plain(entries[i]);
  }

  /** What the overlays alone describe, without looking at git's trees. */
  function Folded(kindOf: KindOf, current: Tree, overlays: seq<Overlay>): Option<Tree> {
    if overlays == [] then Some(current)
    else
      var before := Folded(kindOf, current, overlays[..|overlays| - 1]);
      if before.None? then None else Apply(kindOf, before.value, overlays[|overlays| - 1].entries)
  }

  lemma AgreeingBases(kindOf: KindOf, s: Tree, t: Tree, entries: seq<Entry>)
    requires Agree(s, t) && Apply(kindOf, s, entries).Some?
    ensures Apply(kindOf, t, entries).Some? && Agree(Apply(kindOf, s, entries).value, Apply(kindOf, t, entries).value)
  {
    AcceptedExactly(kindOf, s, entries);
    AcceptedExactly(kindOf, t, entries);
    forall i | 0 <= i < |entries| ensures Fits(t, entries[i]) { assert AgreeAt(s, t, PathOf(entries[i])); }
    var a, b := Apply(kindOf, s, entries).value, Apply(kindOf, t, entries).value;
    forall path ensures AgreeAt(a, b, path) {
      if Names(entries, path) {
        var i :| 0 <= i < |entries| && Plain(entries[i]) && PathOf(entries[i]) == path;
        assert Shows(kindOf, a, entries[i]) && Shows(kindOf, b, entries[i]);
      } else {
        assert SameAt(a, s, path) && SameAt(b, t, path) && AgreeAt(s, t, path);
      }
    }
  }

  /** A composed view has exactly the paths, object ids and modes that its overlays describe one after the other. */
  lemma {:induction false} ViewIsTheFold(kindOf: KindOf, list: ListTree, base: View, overlays: seq<Overlay>)
    requires Composed(kindOf, list, base, overlays).Some?
    ensures Folded(kindOf, base.entries, overlays).Some?
    ensures Agree(Folded(kindOf, base.entries, overlays).value, Composed(kindOf, list, base, overlays).value.entries)
    ensures overlays != [] ==> Composed(kindOf, list, base, overlays).value.tree == overlays[|overlays| - 1].resultTree
    decreases |overlays|
  {
    if overlays == [] {
      assert forall path :: AgreeAt(base.entries, base.entries, path);
    } else {
      var front, o := overlays[..|overlays| - 1], overlays[|overlays| - 1];
      ViewIsTheFold(kindOf, list, base, front);
      var folded, composed := Folded(kindOf, base.entries, front).value, Composed(kindOf, list, base, front).value.entries;
      forall path ensures AgreeAt(composed, folded, path) { assert AgreeAt(folded, composed, path); }
      AgreeingBases(kindOf, composed, folded, o.entries);
      var a, b := Apply(kindOf, folded, o.entries).value, Apply(kindOf, composed, o.entries).value;
      var actual := ByPath(list(o.resultTree));
      forall path ensures AgreeAt(a, actual, path) {
        assert AgreeAt(b, a, path) && AgreeAt(b, actual, path);
      }
    }
  }
}
