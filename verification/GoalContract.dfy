/**
 The goal contract: its texts are trimmed and checked, its constraints, protected
 references and proof pairs are sets, and the digest is taken of the canonical JSON
 of the contract with those sets in normal form.
 */
module GoalContract {
  import opened Options
  import opened Sorting
  import opened CanonicalJson

  datatype Mode = Executable | Static | ExternalOracle | HumanReview | Observational

  datatype Authority = Deterministic | ProtectedOracle | Operator

  datatype Proof = Proof(mode: Mode, authority: Authority)

  datatype Criterion = Criterion(
    id: string, statement: string, required: bool, level: string,
    protectedReferences: seq<string>, allowedProofs: seq<Proof>, independence: string)

  datatype Attribute = Attribute(kind: string, statement: string)

  datatype Target = Target(repositoryId: string, baseCommit: string, treeSha: string)

  datatype Material = Material(
    id: string, revision: nat, goal: string, criteria: seq<Criterion>, constraints: seq<string>,
    attributes: seq<Attribute>, target: Target)

  // ---------------------------------------------------------------------------
  // What the schema accepts, and what it rewrites
  // ---------------------------------------------------------------------------

  /** The white space and line terminators that String.prototype.trim removes. */
  const BLANKS: set<char> := {
    '\t', '\n', '\U{0B}', '\U{0C}', '\r', ' ', '\U{A0}', '\U{1680}', '\U{2000}', '\U{2001}', '\U{2002}', '\U{2003}',
    '\U{2004}', '\U{2005}', '\U{2006}', '\U{2007}', '\U{2008}', '\U{2009}', '\U{200A}', '\U{2028}', '\U{2029}',
    '\U{202F}', '\U{205F}', '\U{3000}', '\U{FEFF}'
  }

  function TrimLeft(s: string): (r: string)
    ensures r == "" || r[0] !in BLANKS
  {
    if s != "" && s[0] in BLANKS then TrimLeft(s[1..]) else s
  }

  function TrimRight(s: string): (r: string)
    ensures r <= s && (r == "" || r[|r| - 1] !in BLANKS)
  {
    if s != "" && s[|s| - 1] in BLANKS then TrimRight(s[..|s| - 1]) else s
  }

  function Trim(s: string): string {
    TrimRight(TrimLeft(s))
  }

  /** Not empty, and trimmed. */
  predicate Text(s: string) {
    s != "" && s[0] !in BLANKS && s[|s| - 1] !in BLANKS
  }

  /** Trimming gives a text or nothing, and leaves texts alone. */
  lemma TrimGivesText(s: string)
    ensures Trim(s) == "" || Text(Trim(s))
    ensures Text(s) ==> Trim(s) == s
  {
    var left := TrimLeft(s);
    assert Trim(s) <= left;
  }

  const ID_MARKS: set<char> := {'.', '_', ':', '-'}
  const LEVELS: set<string> := {"product", "quality", "constraint"}
  const INDEPENDENCES: set<string> :=
    {"independent_required", "protected_baseline_or_negative_control", "human_authority", "not_applicable"}
  const KINDS: set<string> := {"security", "accessibility", "performance", "compatibility", "maintainability", "operability"}

  predicate IdCharacter(c: char) {
    'A' <= c <= 'Z' || 'a' <= c <= 'z' || '0' <= c <= '9' || c in ID_MARKS
  }

  predicate EntityId(s: string) {
    s != "" && forall i :: 0 <= i < |s| ==> IdCharacter(s[i])
  }

  predicate Texts(ss: seq<string>) {
    forall i :: 0 <= i < |ss| ==> Text(ss[i])
  }

  predicate ValidCriterion(c: Criterion) {
    && EntityId(c.id) && Text(c.statement) && c.level in LEVELS && Texts(c.protectedReferences)
    && c.allowedProofs != [] && c.independence in INDEPENDENCES
  }

  predicate ValidTarget(t: Target) {
    EntityId(t.repositoryId) && Text(t.baseCommit) && Text(t.treeSha)
  }

  /** Trimmed material that the schema accepts. */
  predicate Valid(m: Material) {
    && EntityId(m.id) && m.revision >= 1 && Text(m.goal)
    && m.criteria != [] && (forall i :: 0 <= i < |m.criteria| ==> ValidCriterion(m.criteria[i]))
    && Texts(m.constraints)
    && (forall i :: 0 <= i < |m.attributes| ==> m.attributes[i].kind in KINDS && Text(m.attributes[i].statement))
    && ValidTarget(m.target)
  }

  function TrimAll(ss: seq<string>): seq<string> {
    seq(|ss|, i requires 0 <= i < |ss| => Trim(ss[i]))
  }

  function TrimCriterion(c: Criterion): Criterion {
    c.(id := Trim(c.id), statement := Trim(c.statement), protectedReferences := TrimAll(c.protectedReferences))
  }

  function TrimAttribute(a: Attribute): Attribute {
    a.(statement := Trim(a.statement))
  }

  function TrimMaterial(m: Material): Material {
    Material(
      Trim(m.id), m.revision, Trim(m.goal), seq(|m.criteria|, i requires 0 <= i < |m.criteria| => TrimCriterion(m.criteria[i])),
      TrimAll(m.constraints), seq(|m.attributes|, i requires 0 <= i < |m.attributes| => TrimAttribute(m.attributes[i])),
      Target(Trim(m.target.repositoryId), Trim(m.target.baseCommit), Trim(m.target.treeSha)))
  }

  /** GoalContractMaterialSchema.parse. */
  function Parse(m: Material): (r: Option<Material>) {
    if Valid(TrimMaterial(m)) then Some(TrimMaterial(m)) else None
  }

  lemma TrimKeepsId(s: string)
    requires EntityId(s)
    ensures Trim(s) == s
  {
    assert IdCharacter(s[0]) && IdCharacter(s[|s| - 1]);
    TrimGivesText(s);
  }

  lemma TrimKeepsTexts(ss: seq<string>)
    requires Texts(ss)
    ensures TrimAll(ss) == ss
  {
    forall i | 0 <= i < |ss| ensures TrimAll(ss)[i] == ss[i] { TrimGivesText(ss[i]); }
  }

  lemma TrimKeepsCriterion(c: Criterion)
    requires ValidCriterion(c)
    ensures TrimCriterion(c) == c
  {
    TrimKeepsId(c.id);
    TrimGivesText(c.statement);
    TrimKeepsTexts(c.protectedReferences);
  }

  /** Valid material is what it is parsed to. */
  lemma ParseKeepsValid(m: Material)
    requires Valid(m)
    ensures Parse(m) == Some(m)
  {
    hide Trim, Text, EntityId, ValidCriterion, TrimCriterion, Texts, TrimAll;
    TrimKeepsId(m.id);
    TrimGivesText(m.goal);
    TrimKeepsId(m.target.repositoryId);
    TrimGivesText(m.target.baseCommit);
    TrimGivesText(m.target.treeSha);
    TrimKeepsTexts(m.constraints);
    var t := TrimMaterial(m);
    forall i | 0 <= i < |m.criteria| ensures t.criteria[i] == m.criteria[i] { TrimKeepsCriterion(m.criteria[i]); }
    forall i | 0 <= i < |m.attributes| ensures t.attributes[i] == m.attributes[i] { TrimGivesText(m.attributes[i].statement); }
    assert t.criteria == m.criteria && t.attributes == m.attributes;
  }

  /** A text is one that is not all blanks. */
  lemma {:induction false} TrimIsEmpty(s: string)
    ensures Trim(s) == "" <==> forall i :: 0 <= i < |s| ==> s[i] in BLANKS
  {
    LeftIsEmpty(s);
    var left := TrimLeft(s);
    if left != "" { RightKeepsFirst(left); }
  }

  lemma {:induction false} LeftIsEmpty(s: string)
    ensures TrimLeft(s) == "" <==> forall i :: 0 <= i < |s| ==> s[i] in BLANKS
  {
    if s != "" && s[0] in BLANKS {
      LeftIsEmpty(s[1..]);
      assert forall i :: 1 <= i < |s| ==> s[i] == s[1..][i - 1];
    }
  }

  lemma {:induction false} RightKeepsFirst(s: string)
    requires s != "" && s[0] !in BLANKS
    ensures TrimRight(s) != ""
  {
    if s[|s| - 1] in BLANKS { RightKeepsFirst(s[..|s| - 1]); }
  }

  /** Some character is not a blank. */
  predicate Legible(s: string) {
    exists i :: 0 <= i < |s| && s[i] !in BLANKS
  }

  /** The input names something: without blanks around it, it has only letters, digits and . _ : - */
  predicate Identifies(s: string) {
    Legible(s) && forall i :: 0 <= i < |Trim(s)| ==>
      var c := Trim(s)[i];
      ('a' <= c <= 'z') || ('A' <= c <= 'Z') || ('0' <= c <= '9') || c == '.' || c == '_' || c == ':' || c == '-'
  }

  predicate AcceptableCriterion(c: Criterion) {
    && Identifies(c.id) && Legible(c.statement) && (c.level == "product" || c.level == "quality" || c.level == "constraint")
    && (forall i :: 0 <= i < |c.protectedReferences| ==> Legible(c.protectedReferences[i])) && |c.allowedProofs| >= 1
    && (c.independence == "independent_required" || c.independence == "protected_baseline_or_negative_control"
        || c.independence == "human_authority" || c.independence == "not_applicable")
  }

  lemma LegibleIsText(s: string)
    ensures Legible(s) <==> Text(Trim(s))
    ensures Identifies(s) <==> EntityId(Trim(s))
  {
    TrimIsEmpty(s);
    TrimGivesText(s);
    var t := Trim(s);
    forall i | 0 <= i < |t|
      ensures IdCharacter(t[i]) <==>
        var c := t[i];
        ('a' <= c <= 'z') || ('A' <= c <= 'Z') || ('0' <= c <= '9') || c == '.' || c == '_' || c == ':' || c == '-'
    {
    }
    hide Trim;
    if EntityId(t) { TrimKeepsId(t); }
  }

  lemma CriterionAccepted(c: Criterion)
    ensures ValidCriterion(TrimCriterion(c)) <==> AcceptableCriterion(c)
  {
    LegibleIsText(c.id);
    LegibleIsText(c.statement);
    forall i | 0 <= i < |c.protectedReferences| ensures Legible(c.protectedReferences[i]) <==> Text(Trim(c.protectedReferences[i])) {
      LegibleIsText(c.protectedReferences[i]);
    }
    hide Trim, Text, Legible, Identifies, EntityId;
    assert |TrimAll(c.protectedReferences)| == |c.protectedReferences|;
    assert forall i :: 0 <= i < |c.protectedReferences| ==> TrimAll(c.protectedReferences)[i] == Trim(c.protectedReferences[i]);
  }

  /** The inputs that are accepted, in terms of the input itself. */
  lemma ParseAcceptsExactly(m: Material)
    ensures
      Parse(m).Some? <==>
        && Identifies(m.id) && m.revision > 0 && Legible(m.goal)
        && |m.criteria| >= 1 && (forall i :: 0 <= i < |m.criteria| ==> AcceptableCriterion(m.criteria[i]))
        && (forall i :: 0 <= i < |m.constraints| ==> Legible(m.constraints[i]))
        && (forall i :: 0 <= i < |m.attributes| ==>
              && (m.attributes[i].kind == "security" || m.attributes[i].kind == "accessibility" || m.attributes[i].kind == "performance"
                  || m.attributes[i].kind == "compatibility" || m.attributes[i].kind == "maintainability" || m.attributes[i].kind == "operability")
              && Legible(m.attributes[i].statement))
        && Identifies(m.target.repositoryId) && Legible(m.target.baseCommit) && Legible(m.target.treeSha)
  {
    var t := TrimMaterial(m);
    LegibleIsText(m.id);
    LegibleIsText(m.goal);
    LegibleIsText(m.target.repositoryId);
    LegibleIsText(m.target.baseCommit);
    LegibleIsText(m.target.treeSha);
    hide Trim, Text, Legible, Identifies, EntityId, ValidCriterion, AcceptableCriterion;
    forall i | 0 <= i < |m.criteria| ensures ValidCriterion(t.criteria[i]) <==> AcceptableCriterion(m.criteria[i]) {
      CriterionAccepted(m.criteria[i]);
    }
    forall i | 0 <= i < |m.constraints| ensures Text(t.constraints[i]) <==> Legible(m.constraints[i]) { LegibleIsText(m.constraints[i]); }
    forall i | 0 <= i < |m.attributes| ensures Text(t.attributes[i].statement) <==> Legible(m.attributes[i].statement) {
      LegibleIsText(m.attributes[i].statement);
    }
    assert |t.criteria| == |m.criteria| && |t.constraints| == |m.constraints| && |t.attributes| == |m.attributes|;
    assert forall i :: 0 <= i < |m.attributes| ==> t.attributes[i].kind == m.attributes[i].kind;
  }

  // ---------------------------------------------------------------------------
  // Proof pairs
  // ---------------------------------------------------------------------------

  function ModeName(m: Mode): string {
    match m
    case Executable => "executable"
    case Static => "static"
    case ExternalOracle => "external_oracle"
    case HumanReview => "human_review"
    case Observational => "observational"
  }

  function AuthorityName(a: Authority): string {
    match a
    case Deterministic => "orchestrator_deterministic"
    case ProtectedOracle => "protected_external_oracle"
    case Operator => "operator"
  }

  const SEPARATOR := '\0'

  function ProofPairKey(p: Proof): string {
    ModeName(p.mode) + [SEPARATOR] + AuthorityName(p.authority)
  }

  lemma SplitAtSeparator(a: string, b: string, c: string, d: string)
    requires SEPARATOR !in a && SEPARATOR !in c && a + [SEPARATOR] + b == c + [SEPARATOR] + d
    ensures a == c && b == d
  {
    var s, t := a + [SEPARATOR] + b, c + [SEPARATOR] + d;
    assert s[|a|] == SEPARATOR && t[|c|] == SEPARATOR;
    assert forall i :: 0 <= i < |c| ==> t[i] == c[i] && c[i] in c;
    assert forall i :: 0 <= i < |a| ==> s[i] == a[i] && a[i] in a;
    assert s[..|a|] == a && t[..|c|] == c;
    assert s[|a| + 1..] == b && t[|c| + 1..] == d;
  }

  lemma NamesHaveNoSeparator(p: Proof)
    ensures SEPARATOR !in ModeName(p.mode) && SEPARATOR !in AuthorityName(p.authority)
  {
  }

  lemma ProofPairKeyIsInjective(p: Proof, q: Proof)
    requires ProofPairKey(p) == ProofPairKey(q)
    ensures p == q
  {
    NamesHaveNoSeparator(p);
    NamesHaveNoSeparator(q);
    hide ModeName, AuthorityName;
    SplitAtSeparator(ModeName(p.mode), AuthorityName(p.authority), ModeName(q.mode), AuthorityName(q.authority));
    NamesAreInjective(p, q);
  }

  lemma NamesAreInjective(p: Proof, q: Proof)
    ensures ModeName(p.mode) == ModeName(q.mode) ==> p.mode == q.mode
    ensures AuthorityName(p.authority) == AuthorityName(q.authority) ==> p.authority == q.authority
  {
    assert |ModeName(p.mode)| == |ModeName(q.mode)| ==> p.mode == q.mode;
    assert |AuthorityName(p.authority)| == |AuthorityName(q.authority)| ==> p.authority == q.authority;
  }

  function ByKey(less: Order): (Proof, Proof) -> bool {
    (p: Proof, q: Proof) => less(ProofPairKey(p), ProofPairKey(q))
  }

  lemma ByKeyIsStrict(less: Order)
    requires StrictOrder(less)
    ensures StrictOrder(ByKey(less))
  {
    var order := ByKey(less);
    forall p: Proof ensures !order(p, p) { assert !less(ProofPairKey(p), ProofPairKey(p)); }
    forall p: Proof, q: Proof, r: Proof | order(p, q) && order(q, r) ensures order(p, r) {
      assert less(ProofPairKey(p), ProofPairKey(q)) && less(ProofPairKey(q), ProofPairKey(r));
    }
    forall p: Proof, q: Proof ensures order(p, q) || order(q, p) || p == q {
      if ProofPairKey(p) == ProofPairKey(q) { ProofPairKeyIsInjective(p, q); }
    }
  }

  /** new Map(proofs by key).values(), sorted by key: the pairs as a set. */
  function UniqueProofPairs(less: Order, proofs: seq<Proof>): seq<Proof> {
    SortedUnique(ByKey(less), proofs)
  }

  // ---------------------------------------------------------------------------
  // The contract and its digest
  // ---------------------------------------------------------------------------

  function NormalCriterion(less: Order, c: Criterion): Criterion {
    c.(protectedReferences := SortedUnique(less, c.protectedReferences), allowedProofs := UniqueProofPairs(less, c.allowedProofs))
  }

  function Normal(less: Order, m: Material): Material {
    m.(constraints := SortedUnique(less, m.constraints),
       criteria := seq(|m.criteria|, i requires 0 <= i < |m.criteria| => NormalCriterion(less, m.criteria[i])))
  }

  /** The decimal digits of `n`. */
  function Digits(n: nat): string {
    var digit := ["0123456789"[n % 10]];
    if n < 10 then digit else Digits(n / 10) + digit
  }

  /** An object with these members. */
  function Record(keys: seq<string>, values: seq<Value>): Value
    requires |keys| == |values|
  {
    Object(seq(|keys|, i requires 0 <= i < |keys| => Field(keys[i], values[i])))
  }

  const PROOF_KEYS := ["mode", "authority"]
  const POLICY_KEYS := ["allowedProofs", "independence"]
  const CRITERION_KEYS := ["id", "statement", "required", "level", "protectedReferences", "verification"]
  const ATTRIBUTE_KEYS := ["kind", "statement"]
  const TARGET_KEYS := ["repositoryId", "baseCommit", "treeSha"]
  const CONTRACT_KEYS := ["id", "revision", "goal", "acceptanceCriteria", "constraints", "qualityAttributes", "target"]

  function Strings(ss: seq<string>): Value {
    Array(seq(|ss|, i requires 0 <= i < |ss| => String(ss[i])))
  }

  function ProofValue(p: Proof): Value {
    Record(PROOF_KEYS, [String(ModeName(p.mode)), String(AuthorityName(p.authority))])
  }

  function ProofValues(ps: seq<Proof>): Value {
    Array(seq(|ps|, i requires 0 <= i < |ps| => ProofValue(ps[i])))
  }

  function PolicyValue(c: Criterion): Value {
    Record(POLICY_KEYS, [ProofValues(c.allowedProofs), String(c.independence)])
  }

  function CriterionValue(c: Criterion): Value {
    Record(CRITERION_KEYS, [
      String(c.id), String(c.statement), Bool(c.required), String(c.level), Strings(c.protectedReferences), PolicyValue(c)])
  }

  function CriterionValues(cs: seq<Criterion>): Value {
    Array(seq(|cs|, i requires 0 <= i < |cs| => CriterionValue(cs[i])))
  }

  function AttributeValue(a: Attribute): Value {
    Record(ATTRIBUTE_KEYS, [String(a.kind), String(a.statement)])
  }

  function AttributeValues(xs: seq<Attribute>): Value {
    Array(seq(|xs|, i requires 0 <= i < |xs| => AttributeValue(xs[i])))
  }

  function TargetValue(t: Target): Value {
    Record(TARGET_KEYS, [String(t.repositoryId), String(t.baseCommit), String(t.treeSha)])
  }

  function ContractParts(m: Material): (vs: seq<Value>)
    ensures |vs| == 7
  {
    [String(m.id), Number(Digits(m.revision)), String(m.goal), CriterionValues(m.criteria), Strings(m.constraints),
     AttributeValues(m.attributes), TargetValue(m.target)]
  }

  function ContractValue(m: Material): Value {
    Record(CONTRACT_KEYS, ContractParts(m))
  }

  // ---------------------------------------------------------------------------
  // Values of one layout are equal when they are equivalent
  // ---------------------------------------------------------------------------

  /** Objects with the same keys in the same order, at every depth; arrays may differ in length. */
  ghost predicate SameLayout(v: Value, w: Value)
    decreases v
  {
    match v
    case Array(items) =>
      w.Array? && (|items| == |w.items| ==> forall i :: 0 <= i < |items| ==> SameLayout(items[i], w.items[i]))
    case Object(fields) =>
      && w.Object? && |fields| == |w.fields| && DistinctKeys(fields)
      && forall i :: 0 <= i < |fields| ==>
           && fields[i].key == w.fields[i].key && fields[i].key !in DROPPED
           && SameLayout(fields[i].value, w.fields[i].value)
    case _ => Atom(v) && Atom(w)
  }

  predicate Atom(v: Value) {
    v.Bool? || v.String? || (v.Number? && NumberText(v.text))
  }

  lemma {:induction false} LayoutIsAccepted(v: Value)
    requires SameLayout(v, v)
    ensures WellFormed(v) && Accepted(v)
    decreases v
  {
    if v.Array? {
      forall i | 0 <= i < |v.items| { LayoutIsAccepted(v.items[i]); }
    } else if v.Object? {
      forall i | 0 <= i < |v.fields| { LayoutIsAccepted(v.fields[i].value); }
    }
  }

  lemma {:induction false} EquivalentInLayout(v: Value, w: Value)
    requires SameLayout(v, w) && Equivalent(DROPPED, v, w)
    ensures v == w
    decreases v
  {
    if v.Array? {
      forall i | 0 <= i < |v.items| ensures v.items[i] == w.items[i] { EquivalentInLayout(v.items[i], w.items[i]); }
    } else if v.Object? {
      forall i | 0 <= i < |v.fields| ensures v.fields[i] == w.fields[i] {
        LookupIs(v.fields, i);
        LookupIs(w.fields, i);
        assert Visible(DROPPED, v.fields, v.fields[i].key) && Visible(DROPPED, w.fields, v.fields[i].key);
        EquivalentInLayout(v.fields[i].value, w.fields[i].value);
      }
    }
  }

  lemma {:induction false} DigitsAreANumber(n: nat)
    ensures NumberText(Digits(n)) && forall c :: c in Digits(n) ==> c in NUMBER_STARTS
  {
    if n >= 10 { DigitsAreANumber(n / 10); }
  }

  lemma {:induction false} DigitsAreInjective(m: nat, n: nat)
    requires Digits(m) == Digits(n)
    ensures m == n
  {
    var d, e := Digits(m), Digits(n);
    assert d[|d| - 1] == "0123456789"[m % 10] && e[|e| - 1] == "0123456789"[n % 10];
    assert m % 10 == n % 10;
    DigitsLength(m);
    DigitsLength(n);
    if m >= 10 {
      assert d[..|d| - 1] == Digits(m / 10) && e[..|e| - 1] == Digits(n / 10);
      DigitsAreInjective(m / 10, n / 10);
    }
  }

  lemma {:induction false} DigitsLength(n: nat)
    ensures |Digits(n)| >= 1 && (|Digits(n)| == 1 <==> n < 10)
  {
    if n >= 10 { DigitsLength(n / 10); }
  }

  // ---------------------------------------------------------------------------
  // Every contract has one layout
  // ---------------------------------------------------------------------------

  lemma StringsLayout(a: seq<string>, b: seq<string>)
    ensures SameLayout(Strings(a), Strings(b))
    ensures Strings(a) == Strings(b) ==> a == b
  {
    if Strings(a) == Strings(b) {
      assert |a| == |Strings(a).items| == |b|;
      forall i | 0 <= i < |a| ensures a[i] == b[i] { assert Strings(a).items[i] == Strings(b).items[i]; }
    }
  }

  predicate PlainKeys(keys: seq<string>) {
    && (forall i, j :: 0 <= i < j < |keys| ==> keys[i] != keys[j])
    && forall i :: 0 <= i < |keys| ==> keys[i] !in DROPPED
  }

  /** No key is dropped, and the keys of one object differ. */
  lemma KeysArePlain()
    ensures PlainKeys(PROOF_KEYS) && PlainKeys(POLICY_KEYS) && PlainKeys(ATTRIBUTE_KEYS) && PlainKeys(TARGET_KEYS)
  {
  }

  lemma CriterionKeysArePlain()
    ensures PlainKeys(CRITERION_KEYS)
  {
  }

  lemma ContractKeysArePlain()
    ensures PlainKeys(CONTRACT_KEYS)
  {
  }

  lemma RecordLayout(keys: seq<string>, vs: seq<Value>, ws: seq<Value>)
    requires PlainKeys(keys) && |vs| == |keys| && |ws| == |keys|
    requires forall i :: 0 <= i < |keys| ==> SameLayout(vs[i], ws[i])
    ensures SameLayout(Record(keys, vs), Record(keys, ws))
    ensures Record(keys, vs) == Record(keys, ws) ==> vs == ws
  {
    if Record(keys, vs) == Record(keys, ws) {
      forall i | 0 <= i < |keys| ensures vs[i] == ws[i] {
        assert Record(keys, vs).fields[i] == Record(keys, ws).fields[i];
      }
    }
  }

  lemma ProofLayout(p: Proof, q: Proof)
    ensures SameLayout(ProofValue(p), ProofValue(q))
    ensures ProofValue(p) == ProofValue(q) ==> p == q
  {
    hide ModeName, AuthorityName, PlainKeys, Record;
    NamesAreInjective(p, q);
    KeysArePlain();
    var vs, ws := [String(ModeName(p.mode)), String(AuthorityName(p.authority))], [String(ModeName(q.mode)), String(AuthorityName(q.authority))];
    RecordLayout(PROOF_KEYS, vs, ws);
    assert vs == ws ==> vs[0] == ws[0] && vs[1] == ws[1];
  }

  lemma ProofsLayout(a: seq<Proof>, b: seq<Proof>)
    ensures SameLayout(ProofValues(a), ProofValues(b))
    ensures ProofValues(a) == ProofValues(b) ==> a == b
  {
    hide ProofValue;
    forall i, j | 0 <= i < |a| && 0 <= j < |b| { ProofLayout(a[i], b[j]); }
    if ProofValues(a) == ProofValues(b) {
      assert |a| == |ProofValues(a).items| == |b|;
      forall i | 0 <= i < |a| ensures a[i] == b[i] { assert ProofValues(a).items[i] == ProofValues(b).items[i]; }
    }
  }

  lemma PolicyLayout(c: Criterion, d: Criterion)
    ensures SameLayout(PolicyValue(c), PolicyValue(d))
    ensures PolicyValue(c) == PolicyValue(d) ==> c.allowedProofs == d.allowedProofs && c.independence == d.independence
  {
    hide ProofValues, PlainKeys, Record;
    ProofsLayout(c.allowedProofs, d.allowedProofs);
    KeysArePlain();
    var vs, ws := [ProofValues(c.allowedProofs), String(c.independence)], [ProofValues(d.allowedProofs), String(d.independence)];
    RecordLayout(POLICY_KEYS, vs, ws);
    assert vs == ws ==> vs[0] == ws[0] && vs[1] == ws[1];
  }

  lemma CriterionLayout(c: Criterion, d: Criterion)
    ensures SameLayout(CriterionValue(c), CriterionValue(d))
    ensures CriterionValue(c) == CriterionValue(d) ==> c == d
  {
    hide Strings, PolicyValue, PlainKeys, Record;
    StringsLayout(c.protectedReferences, d.protectedReferences);
    PolicyLayout(c, d);
    CriterionKeysArePlain();
    var vs := [String(c.id), String(c.statement), Bool(c.required), String(c.level), Strings(c.protectedReferences), PolicyValue(c)];
    var ws := [String(d.id), String(d.statement), Bool(d.required), String(d.level), Strings(d.protectedReferences), PolicyValue(d)];
    RecordLayout(CRITERION_KEYS, vs, ws);
    assert vs == ws ==> vs[0] == ws[0] && vs[1] == ws[1] && vs[2] == ws[2] && vs[3] == ws[3] && vs[4] == ws[4] && vs[5] == ws[5];
  }

  lemma CriteriaLayout(a: seq<Criterion>, b: seq<Criterion>)
    ensures SameLayout(CriterionValues(a), CriterionValues(b))
    ensures CriterionValues(a) == CriterionValues(b) ==> a == b
  {
    hide CriterionValue;
    forall i, j | 0 <= i < |a| && 0 <= j < |b| { CriterionLayout(a[i], b[j]); }
    if CriterionValues(a) == CriterionValues(b) {
      assert |a| == |CriterionValues(a).items| == |b|;
      forall i | 0 <= i < |a| ensures a[i] == b[i] { assert CriterionValues(a).items[i] == CriterionValues(b).items[i]; }
    }
  }

  lemma AttributeLayout(x: Attribute, y: Attribute)
    ensures SameLayout(AttributeValue(x), AttributeValue(y))
    ensures AttributeValue(x) == AttributeValue(y) ==> x == y
  {
    hide PlainKeys, Record;
    KeysArePlain();
    var vs, ws := [String(x.kind), String(x.statement)], [String(y.kind), String(y.statement)];
    RecordLayout(ATTRIBUTE_KEYS, vs, ws);
    assert vs == ws ==> vs[0] == ws[0] && vs[1] == ws[1];
  }

  lemma AttributesLayout(a: seq<Attribute>, b: seq<Attribute>)
    ensures SameLayout(AttributeValues(a), AttributeValues(b))
    ensures AttributeValues(a) == AttributeValues(b) ==> a == b
  {
    hide AttributeValue;
    forall i, j | 0 <= i < |a| && 0 <= j < |b| { AttributeLayout(a[i], b[j]); }
    if AttributeValues(a) == AttributeValues(b) {
      assert |a| == |AttributeValues(a).items| == |b|;
      forall i | 0 <= i < |a| ensures a[i] == b[i] { assert AttributeValues(a).items[i] == AttributeValues(b).items[i]; }
    }
  }

  lemma TargetLayout(t: Target, u: Target)
    ensures SameLayout(TargetValue(t), TargetValue(u))
    ensures TargetValue(t) == TargetValue(u) ==> t == u
  {
    hide PlainKeys, Record;
    KeysArePlain();
    var vs := [String(t.repositoryId), String(t.baseCommit), String(t.treeSha)];
    var ws := [String(u.repositoryId), String(u.baseCommit), String(u.treeSha)];
    RecordLayout(TARGET_KEYS, vs, ws);
    assert vs == ws ==> vs[0] == ws[0] && vs[1] == ws[1] && vs[2] == ws[2];
  }

  lemma RevisionLayout(m: nat, n: nat)
    ensures SameLayout(Number(Digits(m)), Number(Digits(n)))
    ensures Number(Digits(m)) == Number(Digits(n)) ==> m == n
  {
    DigitsAreANumber(m);
    DigitsAreANumber(n);
    if Digits(m) == Digits(n) { DigitsAreInjective(m, n); }
  }

  lemma PartsLayout(m: Material, n: Material)
    ensures forall i :: 0 <= i < 7 ==> SameLayout(ContractParts(m)[i], ContractParts(n)[i])
    ensures ContractParts(m) == ContractParts(n) ==> m == n
  {
    hide CriterionValues, Strings, AttributeValues, TargetValue, Digits;
    RevisionLayout(m.revision, n.revision);
    CriteriaLayout(m.criteria, n.criteria);
    StringsLayout(m.constraints, n.constraints);
    AttributesLayout(m.attributes, n.attributes);
    TargetLayout(m.target, n.target);
    var vs, ws := ContractParts(m), ContractParts(n);
    assert vs == ws ==> vs[0] == ws[0] && vs[1] == ws[1] && vs[2] == ws[2] && vs[3] == ws[3];
    assert vs == ws ==> vs[4] == ws[4] && vs[5] == ws[5] && vs[6] == ws[6];
  }

  lemma ContractLayout(m: Material, n: Material)
    ensures SameLayout(ContractValue(m), ContractValue(n))
    ensures ContractValue(m) == ContractValue(n) ==> m == n
  {
    hide PlainKeys, Record, ContractParts;
    ContractKeysArePlain();
    PartsLayout(m, n);
    RecordLayout(CONTRACT_KEYS, ContractParts(m), ContractParts(n));
  }

  // ---------------------------------------------------------------------------
  // The digest identifies the goal
  // ---------------------------------------------------------------------------

  /** The text the digest of parsed material is taken of. Sets are sorted by `locale`, the order of
      localeCompare, and `keys` is the order in which canonical objects enumerate their keys. */
  function ContractText(locale: Order, keys: Order, m: Material): string {
    ContractIsAccepted(Normal(locale, m));
    CanonicalText(keys, ContractValue(Normal(locale, m))).value
  }

  lemma ContractIsAccepted(m: Material)
    ensures WellFormed(ContractValue(m)) && Accepted(ContractValue(m))
  {
    ContractLayout(m, m);
    LayoutIsAccepted(ContractValue(m));
  }

  /** The digest that buildGoalContract computes, or nothing when the schema rejects the material. */
  function Digest(locale: Order, keys: Order, hasher: string -> string, m: Material): Option<string> {
    match Parse(m)
    case Some(parsed) => Some(hasher(ContractText(locale, keys, parsed)))
    case None => None
  }

  ghost predicate Injective(hasher: string -> string) {
    forall s, t :: hasher(s) == hasher(t) ==> s == t
  }

  predicate SameCriterion(c: Criterion, d: Criterion) {
    && c.(protectedReferences := [], allowedProofs := []) == d.(protectedReferences := [], allowedProofs := [])
    && Elements(c.protectedReferences) == Elements(d.protectedReferences)
    && Elements(c.allowedProofs) == Elements(d.allowedProofs)
  }

  /** The same goal up to order and repetition of constraints, protected references and proof pairs. */
  predicate SameGoal(m: Material, n: Material) {
    && m.(constraints := [], criteria := []) == n.(constraints := [], criteria := [])
    && Elements(m.constraints) == Elements(n.constraints)
    && |m.criteria| == |n.criteria|
    && forall i :: 0 <= i < |m.criteria| ==> SameCriterion(m.criteria[i], n.criteria[i])
  }

  lemma NormalCriterionIsTheGoal(less: Order, c: Criterion, d: Criterion)
    requires StrictOrder(less)
    ensures NormalCriterion(less, c) == NormalCriterion(less, d) <==> SameCriterion(c, d)
  {
    ByKeyIsStrict(less);
    SortedUniqueIsTheSet(less, c.protectedReferences, d.protectedReferences);
    SortedUniqueIsTheSet(ByKey(less), c.allowedProofs, d.allowedProofs);
  }

  lemma NormalIsTheGoal(less: Order, m: Material, n: Material)
    requires StrictOrder(less)
    ensures Normal(less, m) == Normal(less, n) <==> SameGoal(m, n)
  {
    hide NormalCriterion, SameCriterion;
    SortedUniqueIsTheSet(less, m.constraints, n.constraints);
    var a, b := Normal(less, m), Normal(less, n);
    if |m.criteria| == |n.criteria| {
      forall i | 0 <= i < |m.criteria| ensures a.criteria[i] == b.criteria[i] <==> SameCriterion(m.criteria[i], n.criteria[i]) {
        NormalCriterionIsTheGoal(less, m.criteria[i], n.criteria[i]);
      }
      assert a.criteria == b.criteria <==> forall i :: 0 <= i < |m.criteria| ==> a.criteria[i] == b.criteria[i];
      assert a == b ==> m.(constraints := [], criteria := []) == n.(constraints := [], criteria := []);
    } else {
      assert |a.criteria| != |b.criteria|;
    }
  }

  /** The text shows the normal form, whatever order its sets are sorted by. */
  lemma TextShowsNormal(locale: Order, keys: Order, m: Material, n: Material)
    requires StrictOrder(keys)
    ensures ContractText(locale, keys, m) == ContractText(locale, keys, n) <==> Normal(locale, m) == Normal(locale, n)
  {
    hide ContractValue, Normal, Equivalent;
    var a, b := Normal(locale, m), Normal(locale, n);
    ContractIsAccepted(a);
    ContractIsAccepted(b);
    TextIsCompleteInvariant(keys, ContractValue(a), ContractValue(b));
    if ContractText(locale, keys, m) == ContractText(locale, keys, n) {
      ContractLayout(a, b);
      EquivalentInLayout(ContractValue(a), ContractValue(b));
    }
  }

  /** Two accepted contracts have the same digest exactly when they state the same goal once trimmed. */
  lemma DigestIdentifiesGoal(locale: Order, keys: Order, hasher: string -> string, m: Material, n: Material)
    requires StrictOrder(locale) && StrictOrder(keys) && Injective(hasher) && Parse(m).Some? && Parse(n).Some?
    ensures Digest(locale, keys, hasher, m) == Digest(locale, keys, hasher, n) <==> SameGoal(TrimMaterial(m), TrimMaterial(n))
  {
    hide ContractText, Normal, SameGoal, Valid, TrimMaterial;
    NormalIsTheGoal(locale, TrimMaterial(m), TrimMaterial(n));
    TextShowsNormal(locale, keys, TrimMaterial(m), TrimMaterial(n));
  }

  lemma ElementsAreTexts(less: Order, ss: seq<string>)
    requires Texts(ss)
    ensures Texts(SortedUnique(less, ss)) && Elements(SortedUnique(less, ss)) == Elements(ss)
  {
    hide Text;
    SortedUniqueElements(less, ss);
    var sorted := SortedUnique(less, ss);
    forall i | 0 <= i < |sorted| ensures Text(sorted[i]) {
      assert sorted[i] in Elements(sorted);
    }
  }

  lemma NormalCriterionIsValid(less: Order, c: Criterion)
    requires ValidCriterion(c)
    ensures ValidCriterion(NormalCriterion(less, c)) && SameCriterion(NormalCriterion(less, c), c)
  {
    hide Text, Texts, EntityId;
    ElementsAreTexts(less, c.protectedReferences);
    SortedUniqueElements(ByKey(less), c.allowedProofs);
    assert c.allowedProofs[0] in Elements(c.allowedProofs);
  }

  /** The contract that is built is accepted as an input, and states the goal of what it was built from. */
  lemma NormalIsValid(less: Order, m: Material)
    requires Valid(m)
    ensures Valid(Normal(less, m)) && SameGoal(Normal(less, m), m)
  {
    hide Text, Texts, EntityId, SortedUnique, ValidCriterion, NormalCriterion, SameCriterion;
    ElementsAreTexts(less, m.constraints);
    var n := Normal(less, m);
    forall i | 0 <= i < |m.criteria| ensures ValidCriterion(n.criteria[i]) && SameCriterion(n.criteria[i], m.criteria[i]) {
      NormalCriterionIsValid(less, m.criteria[i]);
    }
  }

  /** Building a contract again from the material of a contract that was built gives the same digest. */
  lemma RebuildKeepsDigest(locale: Order, keys: Order, hasher: string -> string, m: Material)
    requires StrictOrder(locale) && StrictOrder(keys) && Parse(m).Some?
    ensures Digest(locale, keys, hasher, Normal(locale, Parse(m).value)) == Digest(locale, keys, hasher, m)
  {
    var built := Normal(locale, TrimMaterial(m));
    NormalIsValid(locale, TrimMaterial(m));
    ParseKeepsValid(built);
    hide ContractText, SameGoal, Valid, TrimMaterial, Normal;
    NormalIsTheGoal(locale, built, TrimMaterial(m));
    TextShowsNormal(locale, keys, built, TrimMaterial(m));
  }

  // ---------------------------------------------------------------------------
  // Texts that the order does not tell apart
  // ---------------------------------------------------------------------------

  /** The order has no ties among texts. */
  ghost predicate TellsTextsApart(locale: Order) {
    forall x, y :: Text(x) && Text(y) ==> !Tied(locale, x, y)
  }

  /** The order of texts, after all other strings in any order of theirs. */
  function TextsLast(locale: Order, others: Order): Order {
    (x, y) => if Text(x) && Text(y) then locale(x, y) else if Text(x) || Text(y) then Text(y) else others(x, y)
  }

  lemma TextsLastIsStrict(locale: Order, others: Order)
    requires PartialOrder(locale) && TellsTextsApart(locale) && StrictOrder(others)
    ensures StrictOrder(TextsLast(locale, others))
  {
    hide Text;
    var total := TextsLast(locale, others);
    forall x, y ensures total(x, y) || total(y, x) || x == y {
      if Text(x) && Text(y) { assert !Tied(locale, x, y); }
    }
    forall x, y, z | total(x, y) && total(y, z) ensures total(x, z) {}
  }

  lemma SameSorting(locale: Order, others: Order, ss: seq<string>)
    requires Texts(ss)
    ensures SortedUnique(locale, ss) == SortedUnique(TextsLast(locale, others), ss)
  {
    forall x | x in Unique(ss) ensures Text(x) {
      assert x in Elements(Unique(ss));
    }
    hide Text;
    SortAgrees(locale, TextsLast(locale, others), Unique(ss));
  }

  lemma KeysAreTexts(p: Proof)
    ensures Text(ProofPairKey(p))
  {
    var mode, authority := ModeName(p.mode), AuthorityName(p.authority);
    assert mode[0] !in BLANKS && authority[|authority| - 1] !in BLANKS;
  }

  lemma SameSortingOfProofs(locale: Order, others: Order, ps: seq<Proof>)
    ensures UniqueProofPairs(locale, ps) == UniqueProofPairs(TextsLast(locale, others), ps)
  {
    forall p { KeysAreTexts(p); }
    hide ProofPairKey, Text;
    SortAgrees(ByKey(locale), ByKey(TextsLast(locale, others)), Unique(ps));
  }

  lemma SameNormal(locale: Order, others: Order, m: Material)
    requires Valid(m)
    ensures Normal(locale, m) == Normal(TextsLast(locale, others), m)
  {
    hide TextsLast, Texts, SortedUnique, UniqueProofPairs;
    SameSorting(locale, others, m.constraints);
    forall i | 0 <= i < |m.criteria|
      ensures NormalCriterion(locale, m.criteria[i]) == NormalCriterion(TextsLast(locale, others), m.criteria[i])
    {
      assert ValidCriterion(m.criteria[i]);
      SameSorting(locale, others, m.criteria[i].protectedReferences);
      SameSortingOfProofs(locale, others, m.criteria[i].allowedProofs);
    }
  }

  /** An order without ties among texts serves as well as one without ties. */
  lemma SameDigest(locale: Order, keys: Order, hasher: string -> string, m: Material)
    ensures Digest(locale, keys, hasher, m) == Digest(TextsLast(locale, keys), keys, hasher, m)
  {
    hide TextsLast, Normal, Valid, TrimMaterial, CanonicalText, ContractValue;
    if Parse(m).Some? { SameNormal(locale, keys, TrimMaterial(m)); }
  }

  /** A contract with these constraints. */
  function WithConstraints(constraints: seq<string>): Material {
    Material(
      "g", 1, "g", [Criterion("c", "c", true, "product", [], [Proof(Static, Deterministic)], "not_applicable")],
      constraints, [], Target("r", "c", "t"))
  }

  lemma LettersAreIds(c: char)
    requires 'a' <= c <= 'z'
    ensures EntityId([c]) && Text([c])
  {
  }

  lemma ConstraintsAreValid(constraints: seq<string>)
    requires Texts(constraints)
    ensures Parse(WithConstraints(constraints)) == Some(WithConstraints(constraints))
  {
    hide EntityId, Text, Texts, Parse;
    LettersAreIds('g');
    LettersAreIds('c');
    LettersAreIds('r');
    LettersAreIds('t');
    assert "g" == ['g'] && "c" == ['c'] && "r" == ['r'] && "t" == ['t'];
    assert Texts([]) by { PairIsTexts("g", "g"); }
    ParseKeepsValid(WithConstraints(constraints));
  }

  lemma PairIsTexts(x: string, y: string)
    requires Text(x) && Text(y)
    ensures Texts([x, y]) && Texts([])
  {
  }

  lemma SameConstraints(x: string, y: string)
    ensures SameGoal(WithConstraints([x, y]), WithConstraints([y, x]))
  {
    assert Elements([x, y]) == {x, y} && Elements([y, x]) == {x, y};
  }

  lemma NormalKeepsTies(locale: Order, x: string, y: string)
    requires Tied(locale, x, y)
    ensures Normal(locale, WithConstraints([x, y])).constraints == [x, y]
  {
    hide SortedUnique;
    TiesStay(locale, x, y);
  }

  /** Two constraints that the comparison ties keep their order, and the digest shows it. */
  lemma TiedConstraintsShow(locale: Order, keys: Order, hasher: string -> string, x: string, y: string)
    requires Text(x) && Text(y) && Tied(locale, x, y) && StrictOrder(keys) && Injective(hasher)
    ensures
      var m, n := WithConstraints([x, y]), WithConstraints([y, x]);
      && Parse(m) == Some(m) && Parse(n) == Some(n) && SameGoal(m, n)
      && Digest(locale, keys, hasher, m) != Digest(locale, keys, hasher, n)
  {
    hide Text, ContractText, Normal, SameGoal, WithConstraints, Parse, Digest;
    PairIsTexts(x, y);
    PairIsTexts(y, x);
    ConstraintsAreValid([x, y]);
    ConstraintsAreValid([y, x]);
    SameConstraints(x, y);
    NormalKeepsTies(locale, x, y);
    NormalKeepsTies(locale, y, x);
    assert [x, y][0] != [y, x][0];
    DigestShowsNormal(locale, keys, hasher, WithConstraints([x, y]), WithConstraints([y, x]));
  }

  lemma DigestShowsNormal(locale: Order, keys: Order, hasher: string -> string, m: Material, n: Material)
    requires StrictOrder(keys) && Injective(hasher) && Parse(m) == Some(m) && Parse(n) == Some(n)
    ensures Digest(locale, keys, hasher, m) == Digest(locale, keys, hasher, n) <==> Normal(locale, m) == Normal(locale, n)
  {
    hide ContractText, Normal, Parse;
    TextShowsNormal(locale, keys, m, n);
  }

  /** Digests identify the goals of accepted contracts exactly when localeCompare calls no two different
      texts equal. */
  lemma DigestIdentifiesGoalExactly(locale: Order, keys: Order, hasher: string -> string)
    requires PartialOrder(locale) && StrictOrder(keys) && Injective(hasher)
    ensures TellsTextsApart(locale) <==> forall m, n :: Parse(m).Some? && Parse(n).Some? ==>
      (Digest(locale, keys, hasher, m) == Digest(locale, keys, hasher, n) <==> SameGoal(TrimMaterial(m), TrimMaterial(n)))
  {
    hide Digest, SameGoal, Valid, TrimMaterial, TextsLast, Text;
    if TellsTextsApart(locale) {
      TextsLastIsStrict(locale, keys);
      forall m, n | Parse(m).Some? && Parse(n).Some?
        ensures Digest(locale, keys, hasher, m) == Digest(locale, keys, hasher, n) <==> SameGoal(TrimMaterial(m), TrimMaterial(n))
      {
        SameDigest(locale, keys, hasher, m);
        SameDigest(locale, keys, hasher, n);
        DigestIdentifiesGoal(TextsLast(locale, keys), keys, hasher, m, n);
      }
    } else {
      var x, y :| Text(x) && Text(y) && Tied(locale, x, y);
      TiedConstraintsShow(locale, keys, hasher, x, y);
    }
  }
}
