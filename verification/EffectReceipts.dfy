/**
 Replay of a stream of physical effect receipts. A receipt identifies its own
 material by digest; repeating it is idempotent, and everything else is an issue.
 `digest` is computeCanonicalDigest, and canonicalJson compares receipts as values.
 */
module EffectReceipts {
  import opened Options
  import opened Sorting

  type Id = string

  datatype Material = Material(
    effectId: string, observation: string, inputDigest: string, daemonEpoch: string,
    process: Option<string>, resultDigest: Option<string>, reason: Option<string>, observedAt: string)

  datatype Receipt = Receipt(id: Id, material: Material)

  /** An element of the stream: `problems` more schema issues than one, or a receipt. */
  datatype Item = Malformed(problems: nat) | Parsed(receipt: Receipt)

  datatype Code = SchemaInvalid | IdMismatch | IdConflict

  datatype Issue = Issue(code: Code, index: nat, id: Option<Id>)

  datatype Result = Result(receipts: seq<Receipt>, replayed: seq<Id>, issues: seq<Issue>)

  type Digest = Material -> Id

  ghost predicate Injective(digest: Digest) {
    forall m, n :: digest(m) == digest(n) ==> m == n
  }

  /** validatePhysicalEffectReceiptIdentity. */
  predicate Identified(digest: Digest, r: Receipt) {
    digest(r.material) == r.id
  }

  predicate Valid(digest: Digest, item: Item) {
    item.Parsed? && Identified(digest, item.receipt)
  }

  predicate Ok(r: Result) {
    r.issues == []
  }

  predicate Has(receipts: seq<Receipt>, id: Id) {
    exists k :: 0 <= k < |receipts| && receipts[k].id == id
  }

  function Repeat(issue: Issue, n: nat): (r: seq<Issue>)
    ensures |r| == n
  {
    seq(n, _ => issue)
  }

  function Add(ids: seq<Id>, id: Id): seq<Id> {
    if id in ids then ids else ids + [id]
  }

  /** One more element of the stream. */
  function Next(digest: Digest, r: Result, index: nat, item: Item): Result {
    match item
    case Malformed(problems) => r.(issues := r.issues + Repeat(Issue(SchemaInvalid, index, None), problems + 1))
    case Parsed(receipt) =>
      if Has(r.receipts, receipt.id) then
        if receipt in r.receipts then r.(replayed := Add(r.replayed, receipt.id))
        else r.(issues := r.issues + [Issue(IdConflict, index, Some(receipt.id))])
      else if Identified(digest, receipt) then r.(receipts := r.receipts + [receipt])
      else r.(issues := r.issues + [Issue(IdMismatch, index, Some(receipt.id))])
  }

  function Replay(digest: Digest, items: seq<Item>): Result {
    if items == [] then Result([], [], [])
    else Next(digest, Replay(digest, items[..|items| - 1]), |items| - 1, items[|items| - 1])
  }

  /** The map of the source: its entries in the order of their first insertion. */
  ghost predicate Entries(byId: map<Id, Receipt>, receipts: seq<Receipt>) {
    && (forall k :: 0 <= k < |receipts| ==> receipts[k].id in byId && byId[receipts[k].id] == receipts[k])
    && (forall id :: id in byId ==> Has(receipts, id))
  }

  method ReplayPhysicalEffectReceipts(digest: Digest, items: seq<Item>) returns (r: Result)
    ensures r == Replay(digest, items)
  {
    var byId: map<Id, Receipt> := map[];
    var receipts: seq<Receipt>, replayed: seq<Id>, issues: seq<Issue> := [], [], [];
    for index := 0 to |items|
      invariant Entries(byId, receipts)
      invariant Result(receipts, replayed, issues) == Replay(digest, items[..index])
    {
      assert items[..index + 1][..index] == items[..index];
      var item := items[index];
      if item.Malformed? {
        issues := issues + Repeat(Issue(SchemaInvalid, index, None), item.problems + 1);
        continue;
      }
      var receipt := item.receipt;
      if receipt.id in byId {
        assert Has(receipts, receipt.id);
        if byId[receipt.id] == receipt {
          replayed := Add(replayed, receipt.id);
        } else {
          issues := issues + [Issue(IdConflict, index, Some(receipt.id))];
        }
        continue;
      }
      if !Identified(digest, receipt) {
        issues := issues + [Issue(IdMismatch, index, Some(receipt.id))];
        continue;
      }
      EntriesAfter(byId, receipts, receipt);
      byId := byId[receipt.id := receipt];
      receipts := receipts + [receipt];
    }
    assert items[..|items|] == items;
    return Result(receipts, replayed, issues);
  }

  lemma EntriesAfter(byId: map<Id, Receipt>, receipts: seq<Receipt>, receipt: Receipt)
    requires Entries(byId, receipts) && receipt.id !in byId
    ensures Entries(byId[receipt.id := receipt], receipts + [receipt])
  {
    var after := receipts + [receipt];
    forall id | id in byId[receipt.id := receipt] ensures Has(after, id) {
      if id == receipt.id {
        assert after[|receipts|].id == id;
      } else {
        var k :| 0 <= k < |receipts| && receipts[k].id == id;
        assert after[k].id == id;
      }
    }
  }

  // ---------------------------------------------------------------------------
  // What replay accepts
  // ---------------------------------------------------------------------------

  /** The identity-valid receipts of a stream, in order and with repetitions. */
  function ValidReceipts(digest: Digest, items: seq<Item>): seq<Receipt> {
    if items == [] then []
    else
      var last := items[|items| - 1];
      var front := ValidReceipts(digest, items[..|items| - 1]);
      if Valid(digest, last) then front + [last.receipt] else front
  }

  predicate AllValid(digest: Digest, items: seq<Item>) {
    forall k :: 0 <= k < |items| ==> Valid(digest, items[k])
  }

  lemma {:induction false} AcceptedAreIdentified(digest: Digest, items: seq<Item>)
    ensures forall k :: 0 <= k < |Replay(digest, items).receipts| ==> Identified(digest, Replay(digest, items).receipts[k])
    decreases |items|
  {
    if items != [] { AcceptedAreIdentified(digest, items[..|items| - 1]); }
  }

  lemma UniqueNext<T(!new)>(s: seq<T>, x: T)
    ensures Unique(s + [x]) == if x in Unique(s) then Unique(s) else Unique(s) + [x]
  {
    assert (s + [x])[..|s|] == s;
  }

  /** A known id belongs to the same receipt exactly when the element is identity-valid. */
  lemma KnownId(digest: Digest, receipts: seq<Receipt>, receipt: Receipt)
    requires Injective(digest)
    requires forall k :: 0 <= k < |receipts| ==> Identified(digest, receipts[k])
    ensures receipt in receipts <==> Has(receipts, receipt.id) && Identified(digest, receipt)
  {
    if Has(receipts, receipt.id) && Identified(digest, receipt) {
      var k :| 0 <= k < |receipts| && receipts[k].id == receipt.id;
      assert digest(receipts[k].material) == digest(receipt.material);
      assert receipts[k] == receipt;
    }
  }

  /** Accepted are exactly the identity-valid receipts, one per id, in the order of first occurrence;
      and there are no issues exactly when every element is identity-valid. */
  lemma {:induction false} ReplayAcceptsFirstOccurrences(digest: Digest, items: seq<Item>)
    requires Injective(digest)
    ensures Replay(digest, items).receipts == Unique(ValidReceipts(digest, items))
    ensures Ok(Replay(digest, items)) <==> AllValid(digest, items)
    decreases |items|
  {
    if items != [] {
      var front, last := items[..|items| - 1], items[|items| - 1];
      ReplayAcceptsFirstOccurrences(digest, front);
      AcceptedAreIdentified(digest, front);
      assert AllValid(digest, items) <==> AllValid(digest, front) && Valid(digest, last) by {
        assert forall k :: 0 <= k < |front| ==> front[k] == items[k];
      }
      if last.Parsed? {
        hide Unique, Identified, Has;
        KnownId(digest, Replay(digest, front).receipts, last.receipt);
        UniqueNext(ValidReceipts(digest, front), last.receipt);
      }
    }
  }

  // ---------------------------------------------------------------------------
  // Order and repetition
  // ---------------------------------------------------------------------------

  lemma {:induction false} ValidReceiptsAre(digest: Digest, items: seq<Item>, r: Receipt)
    ensures r in ValidReceipts(digest, items) <==> Identified(digest, r) && Parsed(r) in items
    decreases |items|
  {
    if items != [] {
      var front, last := items[..|items| - 1], items[|items| - 1];
      ValidReceiptsAre(digest, front, r);
      assert items == front + [last];
    }
  }

  lemma AcceptedAre(digest: Digest, items: seq<Item>, r: Receipt)
    requires Injective(digest)
    ensures r in Replay(digest, items).receipts <==> Identified(digest, r) && Parsed(r) in items
  {
    ReplayAcceptsFirstOccurrences(digest, items);
    ValidReceiptsAre(digest, items, r);
    assert r in Elements(Unique(ValidReceipts(digest, items))) <==> r in Elements(ValidReceipts(digest, items));
  }

  ghost predicate SameReplay(digest: Digest, a: seq<Item>, b: seq<Item>) {
    && Elements(Replay(digest, a).receipts) == Elements(Replay(digest, b).receipts)
    && (Ok(Replay(digest, a)) <==> Ok(Replay(digest, b)))
  }

  /** Neither the accepted set nor ok depends on order or repetition of the stream. */
  lemma ReplayForgetsOrder(digest: Digest, a: seq<Item>, b: seq<Item>)
    requires Injective(digest) && Elements(a) == Elements(b)
    ensures SameReplay(digest, a, b)
  {
    forall r ensures r in Replay(digest, a).receipts <==> r in Replay(digest, b).receipts {
      AcceptedAre(digest, a, r);
      AcceptedAre(digest, b, r);
      assert Parsed(r) in Elements(a) <==> Parsed(r) in Elements(b);
    }
    ReplayAcceptsFirstOccurrences(digest, a);
    ReplayAcceptsFirstOccurrences(digest, b);
    AllValidOfElements(digest, a, b);
    AllValidOfElements(digest, b, a);
  }

  lemma AllValidOfElements(digest: Digest, a: seq<Item>, b: seq<Item>)
    requires Elements(a) == Elements(b)
    ensures AllValid(digest, a) ==> AllValid(digest, b)
  {
    forall k | AllValid(digest, a) && 0 <= k < |b| ensures Valid(digest, b[k]) {
      assert b[k] in Elements(b);
      var j :| 0 <= j < |a| && a[j] == b[k];
      assert Valid(digest, a[j]);
    }
  }

  /** Two receipts with one id: the first of the stream wins. */
  lemma FirstWins(digest: Digest, r: Receipt, s: Receipt)
    requires Identified(digest, r) && r.id == s.id && r != s
    ensures Replay(digest, [Parsed(r), Parsed(s)]).receipts == [r]
  {
    var items := [Parsed(r), Parsed(s)];
    assert items[..1] == [Parsed(r)] && [Parsed(r)][..0] == [];
    assert Replay(digest, []) == Result([], [], []);
    assert Replay(digest, [Parsed(r)]).receipts == [r];
    assert [r][0].id == s.id;
  }

  lemma PairElements<T>(x: T, y: T)
    ensures Elements([x, y]) == Elements([y, x])
  {
    assert forall z :: z in [x, y] <==> z in [y, x];
  }

  lemma OneReceiptEach(digest: Digest, a: seq<Item>, b: seq<Item>, r: Receipt, s: Receipt)
    requires Replay(digest, a).receipts == [r] && Replay(digest, b).receipts == [s] && r != s
    ensures !SameReplay(digest, a, b)
  {
    hide Replay;
    assert r in Elements([r]) && r !in Elements([s]);
  }

  lemma CollisionMatters(digest: Digest, m: Material, n: Material)
    requires digest(m) == digest(n) && m != n
    ensures exists a, b :: Elements(a) == Elements(b) && !SameReplay(digest, a, b)
  {
    hide Replay, SameReplay, Elements;
    var r, s := Receipt(digest(m), m), Receipt(digest(n), n);
    var a, b := [Parsed(r), Parsed(s)], [Parsed(s), Parsed(r)];
    FirstWins(digest, r, s);
    FirstWins(digest, s, r);
    PairElements(Parsed(r), Parsed(s));
    OneReceiptEach(digest, a, b, r, s);
  }

  /** Replay is insensitive to order exactly when the digest is injective. */
  lemma OrderMattersOnlyOnCollisions(digest: Digest)
    ensures Injective(digest) <==> forall a, b :: Elements(a) == Elements(b) ==> SameReplay(digest, a, b)
  {
    if Injective(digest) {
      forall a, b | Elements(a) == Elements(b) ensures SameReplay(digest, a, b) { ReplayForgetsOrder(digest, a, b); }
    } else {
      var m, n :| digest(m) == digest(n) && m != n;
      CollisionMatters(digest, m, n);
    }
  }

  function AsItems(receipts: seq<Receipt>): seq<Item> {
    seq(|receipts|, i requires 0 <= i < |receipts| => Parsed(receipts[i]))
  }

  predicate OfDifferentIds(receipts: seq<Receipt>) {
    forall j, k :: 0 <= j < k < |receipts| ==> receipts[j].id != receipts[k].id
  }

  lemma {:induction false} AcceptedDiffer(digest: Digest, items: seq<Item>)
    ensures OfDifferentIds(Replay(digest, items).receipts)
    decreases |items|
  {
    if items != [] { AcceptedDiffer(digest, items[..|items| - 1]); }
  }

  lemma {:induction false} ReplayOfAccepted(digest: Digest, receipts: seq<Receipt>)
    requires OfDifferentIds(receipts)
    requires forall k :: 0 <= k < |receipts| ==> Identified(digest, receipts[k])
    ensures Replay(digest, AsItems(receipts)) == Result(receipts, [], [])
    decreases |receipts|
  {
    if receipts != [] {
      var n := |receipts| - 1;
      var front := receipts[..n];
      assert AsItems(receipts)[..n] == AsItems(front);
      ReplayOfAccepted(digest, front);
      assert receipts == front + [receipts[n]];
    }
  }

  /** Replaying the accepted receipts returns them unchanged, without an issue and without a repetition. */
  lemma ReplayIsIdempotent(digest: Digest, items: seq<Item>)
    ensures Replay(digest, AsItems(Replay(digest, items).receipts)) == Result(Replay(digest, items).receipts, [], [])
  {
    AcceptedDiffer(digest, items);
    AcceptedAreIdentified(digest, items);
    ReplayOfAccepted(digest, Replay(digest, items).receipts);
  }

  /** The replayed ids are those of the valid receipts that occur more than once. */
  lemma {:induction false} ReplayedOccurTwice(digest: Digest, items: seq<Item>, r: Receipt)
    requires Injective(digest) && Identified(digest, r)
    ensures r.id in Replay(digest, items).replayed <==> multiset(ValidReceipts(digest, items))[r] >= 2
    decreases |items|
  {
    if items != [] {
      var front, last := items[..|items| - 1], items[|items| - 1];
      ReplayedOccurTwice(digest, front, r);
      AcceptedAreIdentified(digest, front);
      if last.Parsed? {
        var x := last.receipt;
        KnownId(digest, Replay(digest, front).receipts, x);
        AcceptedAre(digest, front, x);
        ValidReceiptsAre(digest, front, x);
        assert x in ValidReceipts(digest, front) <==> multiset(ValidReceipts(digest, front))[x] > 0;
        assert Identified(digest, x) && x != r ==> x.id != r.id;
        hide Identified, Has;
      }
    }
  }

  /** How often an issue is due for an element: once for every schema problem of a malformed one; once for a
      receipt that differs from the accepted one with its id; once for a new id that is not the digest of its
      material. */
  function DueFor(digest: Digest, accepted: seq<Receipt>, item: Item, issue: Issue): nat {
    match item
    case Malformed(problems) => if issue.code.SchemaInvalid? && issue.id.None? then problems + 1 else 0
    case Parsed(r) =>
      var known := exists k :: 0 <= k < |accepted| && accepted[k].id == r.id;
      if issue.id == Some(r.id)
         && ((issue.code.IdConflict? && known && r !in accepted) || (issue.code.IdMismatch? && !known && digest(r.material) != r.id))
      then 1 else 0
  }

  function Due(digest: Digest, items: seq<Item>, issue: Issue): nat {
    if issue.index >= |items| then 0
    else DueFor(digest, Replay(digest, items[..issue.index]).receipts, items[issue.index], issue)
  }

  lemma CountRepeat(issue: Issue, n: nat, other: Issue)
    ensures multiset(Repeat(issue, n))[other] == if other == issue then n else 0
  {
    if n > 0 {
      assert Repeat(issue, n) == Repeat(issue, n - 1) + [issue];
      CountRepeat(issue, n - 1, other);
    } else {
      assert Repeat(issue, 0) == [];
    }
  }

  /** The issues that one more element adds. */
  lemma NextIssues(digest: Digest, r: Result, index: nat, item: Item) returns (more: seq<Issue>)
    ensures Next(digest, r, index, item).issues == r.issues + more
    ensures item.Malformed? ==> more == Repeat(Issue(SchemaInvalid, index, None), item.problems + 1)
    ensures item.Parsed? ==>
      var x, known := item.receipt, Has(r.receipts, item.receipt.id);
      more == if known && x !in r.receipts then [Issue(IdConflict, index, Some(x.id))]
              else if !known && digest(x.material) != x.id then [Issue(IdMismatch, index, Some(x.id))]
              else []
  {
    more := Next(digest, r, index, item).issues[|r.issues|..];
  }

  /** One element reports what is due for it. */
  lemma ReportsDue(digest: Digest, r: Result, index: nat, item: Item, issue: Issue)
    ensures
      multiset(Next(digest, r, index, item).issues)[issue]
      == multiset(r.issues)[issue] + if issue.index == index then DueFor(digest, r.receipts, item, issue) else 0
  {
    var more := NextIssues(digest, r, index, item);
    if item.Malformed? { CountRepeat(Issue(SchemaInvalid, index, None), item.problems + 1, issue); }
    hide Next, Repeat;
    assert multiset(r.issues + more)[issue] == multiset(r.issues)[issue] + multiset(more)[issue];
  }

  /** Exactly the issues that are due are reported, as often as they are due. */
  lemma {:induction false} IssuesExactly(digest: Digest, items: seq<Item>, issue: Issue)
    ensures multiset(Replay(digest, items).issues)[issue] == Due(digest, items, issue)
    decreases |items|
  {
    hide Next, DueFor;
    if items != [] {
      var n := |items| - 1;
      var front := items[..n];
      IssuesExactly(digest, front, issue);
      ReportsDue(digest, Replay(digest, front), n, items[n], issue);
      assert issue.index < n ==> front[..issue.index] == items[..issue.index];
    }
  }
}
