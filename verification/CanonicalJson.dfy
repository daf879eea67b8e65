/**
 Canonical JSON: object keys sorted at every depth, undefined members dropped, and
 the result printed by JSON.stringify. Two values get the same text exactly when
 they are equal up to the order of keys and to undefined members, except for one
 key: assigning `__proto__` to a plain object creates no member.

 `less` is the order in which the canonical object enumerates its keys; it is a strict
 total order exactly when the comparison of keys has no ties. A number is its JSON text, and a string has no lone surrogates.
 */
module CanonicalJson {
  import opened Options
  import opened Sorting

  datatype Value =
    | Null
    | Bool(b: bool)
    | Number(text: string)
    | String(s: string)
    | Array(items: seq<Value>)
    | Object(fields: seq<Field>)
    | Undefined
    | NonFinite
    | Unsupported

  datatype Field = Field(key: string, value: Value)

  type Order = (string, string) -> bool

  const NUMBER_CHARS: set<char> := {'0', '1', '2', '3', '4', '5', '6', '7', '8', '9', '-', '+', '.', 'e', 'E'}
  const NUMBER_STARTS: set<char> := {'0', '1', '2', '3', '4', '5', '6', '7', '8', '9', '-'}

  predicate NumberText(t: string) {
    t != "" && t[0] in NUMBER_STARTS && forall c :: c in t ==> c in NUMBER_CHARS
  }

  predicate DistinctKeys(fields: seq<Field>) {
    forall i, j :: 0 <= i < j < |fields| ==> fields[i].key != fields[j].key
  }

  /** A JavaScript value: keys of an object are distinct, numbers have their text. */
  predicate WellFormed(v: Value) {
    match v
    case Number(t) => NumberText(t)
    case Array(items) => forall i :: 0 <= i < |items| ==> WellFormed(items[i])
    case Object(fields) => DistinctKeys(fields) && forall i :: 0 <= i < |fields| ==> WellFormed(fields[i].value)
    case _ => true
  }

  predicate HasKey(fields: seq<Field>, k: string) {
    exists i :: 0 <= i < |fields| && fields[i].key == k
  }

  /** record[key]. */
  function Lookup(fields: seq<Field>, k: string): (v: Value)
    requires HasKey(fields, k)
    ensures exists i :: 0 <= i < |fields| && fields[i] == Field(k, v)
  {
    if fields[0].key == k then fields[0].value else Lookup(fields[1..], k)
  }

  /** A defined member under a key that is not dropped. */
  predicate Visible(dropped: set<string>, fields: seq<Field>, k: string) {
    k !in dropped && HasKey(fields, k) && Lookup(fields, k) != Undefined
  }

  /** The key under which an assignment creates no member. */
  const DROPPED: set<string> := {"__proto__"}

  function Keys(fields: seq<Field>): (keys: seq<string>)
    ensures |keys| == |fields| && forall i :: 0 <= i < |keys| ==> keys[i] == fields[i].key
  {
    seq(|fields|, i requires 0 <= i < |fields| => fields[i].key)
  }

  function Filter(fields: seq<Field>, keys: seq<string>): (r: seq<string>)
    ensures forall k :: k in r <==> k in keys && Visible(DROPPED, fields, k)
    ensures forall i :: 0 <= i < |r| ==> Visible(DROPPED, fields, r[i])
    ensures (forall i, j :: 0 <= i < j < |keys| ==> keys[i] != keys[j]) ==> forall i, j :: 0 <= i < j < |r| ==> r[i] != r[j]
  {
    if keys == [] then []
    else
      var last := keys[|keys| - 1];
      var front := Filter(fields, keys[..|keys| - 1]);
      assert keys == keys[..|keys| - 1] + [last];
      if Visible(DROPPED, fields, last) then front + [last] else front
  }

  function VisibleKeys(less: Order, fields: seq<Field>): (keys: seq<string>)
    ensures forall i :: 0 <= i < |keys| ==> Visible(DROPPED, fields, keys[i])
  {
    var keys := Sort(less, Filter(fields, Keys(fields)));
    assert forall i :: 0 <= i < |keys| ==> keys[i] in multiset(keys);
    keys
  }

  lemma VisibleKeysAre(less: Order, fields: seq<Field>)
    requires StrictOrder(less) && DistinctKeys(fields)
    ensures Ascending(less, VisibleKeys(less, fields))
    ensures forall k :: k in VisibleKeys(less, fields) <==> Visible(DROPPED, fields, k)
  {
    var keys := Filter(fields, Keys(fields));
    var sorted := Sort(less, keys);
    SortSorted(less, keys);
    SameElements(keys, sorted);
    forall i, j | 0 <= i < j < |sorted| ensures sorted[i] != sorted[j] { DistinctKept(keys, sorted, i, j); }
    forall k ensures k in sorted <==> Visible(DROPPED, fields, k) {
      assert k in Elements(keys) <==> k in Elements(sorted);
      if HasKey(fields, k) {
        var i :| 0 <= i < |fields| && fields[i].key == k;
        assert Keys(fields)[i] == k;
      }
    }
  }

  // ---------------------------------------------------------------------------
  // Canonicalisation
  // ---------------------------------------------------------------------------

  /** toCanonicalJsonValue accepts the value. */
  predicate Accepted(v: Value) {
    match v
    case Array(items) => forall i :: 0 <= i < |items| ==> Accepted(items[i])
    case Object(fields) => forall i :: 0 <= i < |fields| && fields[i].value != Undefined ==> Accepted(fields[i].value)
    case _ => !v.Undefined? && !v.NonFinite? && !v.Unsupported?
  }

  function Canonical(less: Order, v: Value): Value
    decreases v
  {
    match v
    case Array(items) => Array(seq(|items|, i requires 0 <= i < |items| => Canonical(less, items[i])))
    case Object(fields) =>
      var keys := VisibleKeys(less, fields);
      Object(seq(|keys|, i requires 0 <= i < |keys| => Field(keys[i], Canonical(less, Lookup(fields, keys[i])))))
    case _ => v
  }

  /** Equal up to the order of keys and to undefined members, at every depth, and to members under `dropped` keys. */
  ghost predicate Equivalent(dropped: set<string>, a: Value, b: Value)
    decreases a
  {
    match a
    case Array(items) =>
      b.Array? && |b.items| == |items| && forall i :: 0 <= i < |items| ==> Equivalent(dropped, items[i], b.items[i])
    case Object(fields) =>
      && b.Object?
      && (forall k :: Visible(dropped, fields, k) <==> Visible(dropped, b.fields, k))
      && (forall k :: Visible(dropped, fields, k) && Visible(dropped, b.fields, k) ==>
            Equivalent(dropped, Lookup(fields, k), Lookup(b.fields, k)))
    case _ => a == b
  }

  lemma LookupWellFormed(fields: seq<Field>, k: string)
    requires WellFormed(Object(fields)) && HasKey(fields, k)
    ensures WellFormed(Lookup(fields, k))
  {
  }

  lemma SameKeys(less: Order, a: seq<Field>, b: seq<Field>)
    requires StrictOrder(less) && DistinctKeys(a) && DistinctKeys(b)
    ensures VisibleKeys(less, a) == VisibleKeys(less, b) <==> forall k :: Visible(DROPPED, a, k) <==> Visible(DROPPED, b, k)
  {
    VisibleKeysAre(less, a);
    VisibleKeysAre(less, b);
    if forall k :: Visible(DROPPED, a, k) <==> Visible(DROPPED, b, k) {
      assert Elements(VisibleKeys(less, a)) == Elements(VisibleKeys(less, b));
      AscendingIsUnique(less, VisibleKeys(less, a), VisibleKeys(less, b));
    }
  }

  lemma {:induction false} EqualCanonicalIsEquivalent(less: Order, a: Value, b: Value)
    requires StrictOrder(less) && WellFormed(a) && WellFormed(b) && Canonical(less, a) == Canonical(less, b)
    ensures Equivalent(DROPPED, a, b)
    decreases a
  {
    if a.Array? {
      forall i | 0 <= i < |a.items| ensures |b.items| == |a.items| && Equivalent(DROPPED, a.items[i], b.items[i]) {
        assert Canonical(less, a).items[i] == Canonical(less, b).items[i];
        EqualCanonicalIsEquivalent(less, a.items[i], b.items[i]);
      }
    } else if a.Object? {
      EqualObjects(less, a.fields, b.fields);
      forall k | Visible(DROPPED, a.fields, k) && Visible(DROPPED, b.fields, k)
        ensures Equivalent(DROPPED, Lookup(a.fields, k), Lookup(b.fields, k))
      {
        LookupWellFormed(a.fields, k);
        LookupWellFormed(b.fields, k);
        EqualCanonicalIsEquivalent(less, Lookup(a.fields, k), Lookup(b.fields, k));
      }
    }
  }

  lemma EqualObjects(less: Order, a: seq<Field>, b: seq<Field>)
    requires StrictOrder(less) && DistinctKeys(a) && DistinctKeys(b)
    requires Canonical(less, Object(a)) == Canonical(less, Object(b))
    ensures forall k :: Visible(DROPPED, a, k) <==> Visible(DROPPED, b, k)
    ensures forall k :: Visible(DROPPED, a, k) && Visible(DROPPED, b, k) ==> Canonical(less, Lookup(a, k)) == Canonical(less, Lookup(b, k))
  {
    hide VisibleKeys, Lookup, DistinctKeys, HasKey;
    var ka, kb := VisibleKeys(less, a), VisibleKeys(less, b);
    var fa, fb := Canonical(less, Object(a)).fields, Canonical(less, Object(b)).fields;
    assert fa == fb;
    forall i | 0 <= i < |ka| ensures ka[i] == kb[i] && Canonical(less, Lookup(a, ka[i])) == Canonical(less, Lookup(b, ka[i])) {
      assert fa[i] == fb[i];
    }
    assert ka == kb;
    SameKeys(less, a, b);
    VisibleKeysAre(less, a);
    forall k | Visible(DROPPED, a, k) && Visible(DROPPED, b, k) ensures Canonical(less, Lookup(a, k)) == Canonical(less, Lookup(b, k)) {
      var i :| 0 <= i < |ka| && ka[i] == k;
    }
  }

  lemma EqualMembers(less: Order, a: seq<Field>, b: seq<Field>)
    requires StrictOrder(less) && DistinctKeys(a) && DistinctKeys(b)
    requires forall k :: Visible(DROPPED, a, k) <==> Visible(DROPPED, b, k)
    requires forall k :: Visible(DROPPED, a, k) && Visible(DROPPED, b, k) ==> Canonical(less, Lookup(a, k)) == Canonical(less, Lookup(b, k))
    ensures Canonical(less, Object(a)) == Canonical(less, Object(b))
  {
    hide VisibleKeys, Lookup, DistinctKeys, HasKey;
    SameKeys(less, a, b);
    var keys := VisibleKeys(less, a);
    forall i | 0 <= i < |keys| ensures Canonical(less, Object(a)).fields[i] == Canonical(less, Object(b)).fields[i] {
      assert Visible(DROPPED, a, keys[i]) && Visible(DROPPED, b, keys[i]);
    }
  }

  lemma {:induction false} EquivalentIsEqualCanonical(less: Order, a: Value, b: Value)
    requires StrictOrder(less) && WellFormed(a) && WellFormed(b) && Equivalent(DROPPED, a, b)
    ensures Canonical(less, a) == Canonical(less, b)
    decreases a
  {
    if a.Array? {
      forall i | 0 <= i < |a.items| ensures Canonical(less, a).items[i] == Canonical(less, b).items[i] {
        EquivalentIsEqualCanonical(less, a.items[i], b.items[i]);
      }
    } else if a.Object? {
      forall k | Visible(DROPPED, a.fields, k) && Visible(DROPPED, b.fields, k)
        ensures Canonical(less, Lookup(a.fields, k)) == Canonical(less, Lookup(b.fields, k))
      {
        LookupWellFormed(a.fields, k);
        LookupWellFormed(b.fields, k);
        EquivalentIsEqualCanonical(less, Lookup(a.fields, k), Lookup(b.fields, k));
      }
      EqualMembers(less, a.fields, b.fields);
    }
  }

  // ---------------------------------------------------------------------------
  // Canonicalising again changes nothing
  // ---------------------------------------------------------------------------

  lemma VisibleInCanonical(less: Order, fields: seq<Field>, k: string)
    requires StrictOrder(less) && DistinctKeys(fields)
    requires forall i :: 0 <= i < |fields| ==> (Canonical(less, fields[i].value) == Undefined <==> fields[i].value == Undefined)
    ensures
      var after := Canonical(less, Object(fields)).fields;
      && DistinctKeys(after)
      && (Visible(DROPPED, after, k) <==> Visible(DROPPED, fields, k))
      && (Visible(DROPPED, fields, k) ==> Lookup(after, k) == Canonical(less, Lookup(fields, k)))
  {
    hide VisibleKeys;
    var keys, after := VisibleKeys(less, fields), Canonical(less, Object(fields)).fields;
    VisibleKeysAre(less, fields);
    forall i, j | 0 <= i < j < |after| ensures after[i].key != after[j].key {
      assert less(keys[i], keys[j]);
    }
    if Visible(DROPPED, fields, k) {
      var i :| 0 <= i < |keys| && keys[i] == k;
      assert after[i] == Field(k, Canonical(less, Lookup(fields, k)));
      LookupIs(after, i);
    }
  }

  lemma {:induction false} LookupIs(fields: seq<Field>, i: nat)
    requires DistinctKeys(fields) && i < |fields|
    ensures HasKey(fields, fields[i].key) && Lookup(fields, fields[i].key) == fields[i].value
  {
    if i > 0 { LookupIs(fields[1..], i - 1); }
  }

  lemma CanonicalKeepsUndefined(less: Order, v: Value)
    ensures Canonical(less, v) == Undefined <==> v == Undefined
  {
  }

  lemma {:induction false} CanonicalIsEquivalent(less: Order, v: Value)
    requires StrictOrder(less) && WellFormed(v)
    ensures WellFormed(Canonical(less, v)) && Equivalent(DROPPED, v, Canonical(less, v))
    decreases v
  {
    if v.Array? {
      forall i | 0 <= i < |v.items|
        ensures WellFormed(Canonical(less, v).items[i]) && Equivalent(DROPPED, v.items[i], Canonical(less, v).items[i])
      {
        CanonicalIsEquivalent(less, v.items[i]);
      }
    } else if v.Object? {
      forall k | Visible(DROPPED, v.fields, k)
        ensures WellFormed(Canonical(less, Lookup(v.fields, k)))
        ensures Equivalent(DROPPED, Lookup(v.fields, k), Canonical(less, Lookup(v.fields, k)))
      {
        LookupWellFormed(v.fields, k);
        CanonicalIsEquivalent(less, Lookup(v.fields, k));
      }
      CanonicalObjectIsEquivalent(less, v.fields);
    }
  }

  lemma CanonicalObjectIsEquivalent(less: Order, fields: seq<Field>)
    requires StrictOrder(less) && DistinctKeys(fields)
    requires forall k :: Visible(DROPPED, fields, k) ==>
               && WellFormed(Canonical(less, Lookup(fields, k)))
               && Equivalent(DROPPED, Lookup(fields, k), Canonical(less, Lookup(fields, k)))
    ensures WellFormed(Canonical(less, Object(fields))) && Equivalent(DROPPED, Object(fields), Canonical(less, Object(fields)))
  {
    hide VisibleKeys, Lookup;
    var keys, after := VisibleKeys(less, fields), Canonical(less, Object(fields)).fields;
    forall i | 0 <= i < |fields| { CanonicalKeepsUndefined(less, fields[i].value); }
    VisibleInCanonical(less, fields, "");
    forall k { VisibleInCanonical(less, fields, k); }
    forall i | 0 <= i < |after| ensures WellFormed(after[i].value) {
      assert after[i] == Field(keys[i], Canonical(less, Lookup(fields, keys[i])));
    }
  }

  lemma CanonicalIsIdempotent(less: Order, v: Value)
    requires StrictOrder(less) && WellFormed(v)
    ensures Canonical(less, Canonical(less, v)) == Canonical(less, v)
  {
    CanonicalIsEquivalent(less, v);
    EquivalentIsEqualCanonical(less, v, Canonical(less, v));
  }

  // ---------------------------------------------------------------------------
  // JSON.stringify
  // ---------------------------------------------------------------------------

  /** A value that can be printed. */
  predicate Json(v: Value) {
    match v
    case Number(t) => NumberText(t)
    case Array(items) => forall i :: 0 <= i < |items| ==> Json(items[i])
    case Object(fields) => forall i :: 0 <= i < |fields| ==> Json(fields[i].value)
    case _ => v.Null? || v.Bool? || v.String?
  }

  function Hex(n: nat): char
    requires n < 16
  {
    "0123456789abcdef"[n]
  }

  function Escape(c: char): string {
    if c == '"' then "\\\"" else if c == '\\' then "\\\\"
    else if c as int == 8 then "\\b" else if c as int == 9 then "\\t" else if c as int == 10 then "\\n"
    else if c as int == 12 then "\\f" else if c as int == 13 then "\\r"
    else if c as int < 32 then "\\u00" + [Hex(c as int / 16), Hex(c as int % 16)]
    else [c]
  }

  /** A control character without a name is printed as its code in four lower-case hexadecimal digits. */
  lemma ControlCharacters(c: char)
    requires c as int < 32 && c as int !in {8, 9, 10, 12, 13}
    ensures
      var e, high, low := Escape(c), c as int / 16, c as int % 16;
      && |e| == 6 && e[..4] == "\\u00" && e[4] as int == '0' as int + high
      && e[5] as int == if low < 10 then '0' as int + low else 'a' as int + low - 10
  {
  }

  /** The characters with a name of their own. */
  lemma NamedCharacters(c: char)
    requires c as int in {8, 9, 10, 12, 13} || c == '"' || c == '\\'
    ensures
      |Escape(c)| == 2 && Escape(c)[0] == '\\'
      && (c as int, Escape(c)[1]) in {(8, 'b'), (9, 't'), (10, 'n'), (12, 'f'), (13, 'r'), ('"' as int, '"'), ('\\' as int, '\\')}
  {
  }

  /** The characters of `s`, the closing quote, and `tail`. */
  function PutChars(s: string, tail: string): string {
    if s == "" then "\"" + tail else Escape(s[0]) + PutChars(s[1..], tail)
  }

  function PutString(s: string, tail: string): string {
    "\"" + PutChars(s, tail)
  }

  /** The text of `v`, followed by `tail`. */
  function Put(v: Value, tail: string): string
    requires Json(v)
    decreases v
  {
    match v
    case Null => "null" + tail
    case Bool(b) => (if b then "true" else "false") + tail
    case Number(t) => t + tail
    case String(s) => PutString(s, tail)
    case Array(items) => "[" + PutItems(items, tail)
    case Object(fields) => "{" + PutFields(fields, tail)
  }

  function PutItems(items: seq<Value>, tail: string): string
    requires forall i :: 0 <= i < |items| ==> Json(items[i])
    decreases items, 1
  {
    if items == [] then "]" + tail else Put(items[0], MoreItems(items[1..], tail))
  }

  function MoreItems(items: seq<Value>, tail: string): string
    requires forall i :: 0 <= i < |items| ==> Json(items[i])
    decreases items, 0
  {
    if items == [] then "]" + tail else "," + Put(items[0], MoreItems(items[1..], tail))
  }

  function PutFields(fields: seq<Field>, tail: string): string
    requires forall i :: 0 <= i < |fields| ==> Json(fields[i].value)
    decreases fields, 1
  {
    if fields == [] then "}" + tail
    else PutString(fields[0].key, ":" + Put(fields[0].value, MoreFields(fields[1..], tail)))
  }

  function MoreFields(fields: seq<Field>, tail: string): string
    requires forall i :: 0 <= i < |fields| ==> Json(fields[i].value)
    decreases fields, 0
  {
    if fields == [] then "}" + tail
    else "," + PutString(fields[0].key, ":" + Put(fields[0].value, MoreFields(fields[1..], tail)))
  }

  // ---------------------------------------------------------------------------
  // The text determines the value
  // ---------------------------------------------------------------------------

  /** What can follow a value. */
  predicate Delimited(tail: string) {
    tail == "" || tail[0] == ',' || tail[0] == ']' || tail[0] == '}'
  }

  lemma EscapeStarts(c: char)
    ensures |Escape(c)| > 0 && Escape(c)[0] != '"'
    ensures Escape(c)[0] == '\\' <==> |Escape(c)| > 1
    ensures |Escape(c)| > 1 ==> (|Escape(c)| == 6 <==> Escape(c)[1] == 'u') && (|Escape(c)| == 2 <==> Escape(c)[1] != 'u')
  {
  }

  lemma HexIsInjective(m: nat, n: nat)
    requires m < 16 && n < 16 && Hex(m) == Hex(n)
    ensures m == n
  {
  }

  lemma LongEscapesAreInjective(c: char, d: char)
    requires Escape(c) == Escape(d) && |Escape(c)| == 6
    ensures c == d
  {
    hide Hex;
    assert Escape(c)[4] == Hex(c as int / 16) && Escape(d)[4] == Hex(d as int / 16);
    assert Escape(c)[5] == Hex(c as int % 16) && Escape(d)[5] == Hex(d as int % 16);
    HexIsInjective(c as int / 16, d as int / 16);
    HexIsInjective(c as int % 16, d as int % 16);
  }

  lemma EscapeIsInjective(c: char, d: char)
    requires Escape(c) == Escape(d)
    ensures c == d
  {
    hide Hex;
    if |Escape(c)| == 6 {
      LongEscapesAreInjective(c, d);
    } else {
      assert Escape(c)[0] == Escape(d)[0];
      assert |Escape(c)| > 1 ==> Escape(c)[1] == Escape(d)[1];
    }
  }

  lemma EscapeIsPrefixFree(c: char, d: char, x: string, y: string)
    requires Escape(c) + x == Escape(d) + y
    ensures c == d && x == y
  {
    hide Escape;
    var p, q := Escape(c) + x, Escape(d) + y;
    EscapeStarts(c);
    EscapeStarts(d);
    assert p[0] == Escape(c)[0] && q[0] == Escape(d)[0];
    assert |Escape(c)| > 1 ==> p[1] == Escape(c)[1] && q[1] == Escape(d)[1];
    assert p[..|Escape(c)|] == Escape(c) && q[..|Escape(d)|] == Escape(d);
    EscapeIsInjective(c, d);
    assert p[|Escape(c)|..] == x && q[|Escape(c)|..] == y;
  }

  lemma {:induction false} CharsAreInjective(s: string, t: string, x: string, y: string)
    requires PutChars(s, x) == PutChars(t, y)
    ensures s == t && x == y
    decreases |s|
  {
    if s != "" { EscapeStarts(s[0]); }
    if t != "" { EscapeStarts(t[0]); }
    if s == "" || t == "" {
      assert PutChars(s, x)[0] == '"' && PutChars(t, y)[0] == '"';
      assert s == t == "";
      assert PutChars(s, x)[1..] == x && PutChars(t, y)[1..] == y;
    } else {
      EscapeIsPrefixFree(s[0], t[0], PutChars(s[1..], x), PutChars(t[1..], y));
      CharsAreInjective(s[1..], t[1..], x, y);
      assert s == [s[0]] + s[1..] && t == [t[0]] + t[1..];
    }
  }

  lemma StringsAreInjective(s: string, t: string, x: string, y: string)
    requires PutString(s, x) == PutString(t, y)
    ensures s == t && x == y
  {
    assert PutString(s, x)[1..] == PutChars(s, x) && PutString(t, y)[1..] == PutChars(t, y);
    CharsAreInjective(s, t, x, y);
  }

  lemma NumbersAreInjective(s: string, t: string, x: string, y: string)
    requires NumberText(s) && NumberText(t) && Delimited(x) && Delimited(y) && s + x == t + y
    ensures s == t && x == y
  {
    NumberEnds(s, t, x, y);
    NumberEnds(t, s, y, x);
    assert (s + x)[..|s|] == s && (t + y)[..|t|] == t;
    assert (s + x)[|s|..] == x && (t + y)[|t|..] == y;
  }

  lemma NumberEnds(s: string, t: string, x: string, y: string)
    requires NumberText(t) && Delimited(x) && s + x == t + y
    ensures |s| >= |t|
  {
    assert |x| > 0 ==> (s + x)[|s|] == x[0];
    assert forall i :: 0 <= i < |t| ==> (t + y)[i] == t[i] && t[i] in t;
  }

  /** The first character tells the kind of the value. */
  lemma FirstCharacter(v: Value, tail: string)
    requires Json(v)
    ensures Put(v, tail) != ""
    ensures
      var c := Put(v, tail)[0];
      && (v.Null? <==> c == 'n') && (v == Bool(true) <==> c == 't') && (v == Bool(false) <==> c == 'f')
      && (v.Number? <==> c in NUMBER_STARTS)
      && (v.String? <==> c == '"') && (v.Array? <==> c == '[') && (v.Object? <==> c == '{')
  {
  }

  lemma SameKind(v: Value, w: Value, x: string, y: string)
    requires Json(v) && Json(w) && Put(v, x) == Put(w, y)
    ensures v.Null? == w.Null? && v.Bool? == w.Bool? && v.Number? == w.Number? && v.String? == w.String?
    ensures v.Array? == w.Array? && v.Object? == w.Object? && (v.Bool? ==> v == w)
  {
    FirstCharacter(v, x);
    FirstCharacter(w, y);
  }

  lemma {:induction false} TextDeterminesValue(v: Value, w: Value, x: string, y: string)
    requires Json(v) && Json(w) && Delimited(x) && Delimited(y) && Put(v, x) == Put(w, y)
    ensures v == w && x == y
    decreases v
  {
    SameKind(v, w, x, y);
    match v
    case Null => assert Put(v, x)[4..] == x && Put(w, y)[4..] == y;
    case Bool(b) => assert b ==> Put(v, x)[4..] == x && Put(w, y)[4..] == y; assert !b ==> Put(v, x)[5..] == x && Put(w, y)[5..] == y;
    case Number(t) => NumbersAreInjective(t, w.text, x, y);
    case String(s) => StringsAreInjective(s, w.s, x, y);
    case Array(items) =>
      assert Put(v, x)[1..] == PutItems(items, x) && Put(w, y)[1..] == PutItems(w.items, y);
      TextDeterminesItems(items, w.items, x, y);
    case Object(fields) =>
      assert Put(v, x)[1..] == PutFields(fields, x) && Put(w, y)[1..] == PutFields(w.fields, y);
      TextDeterminesFields(fields, w.fields, x, y);
  }

  lemma {:induction false} TextDeterminesItems(vs: seq<Value>, ws: seq<Value>, x: string, y: string)
    requires (forall i :: 0 <= i < |vs| ==> Json(vs[i])) && (forall i :: 0 <= i < |ws| ==> Json(ws[i]))
    requires Delimited(x) && Delimited(y) && PutItems(vs, x) == PutItems(ws, y)
    ensures vs == ws && x == y
    decreases vs, 1
  {
    if vs != [] { FirstCharacter(vs[0], MoreItems(vs[1..], x)); }
    if ws != [] { FirstCharacter(ws[0], MoreItems(ws[1..], y)); }
    if vs == [] || ws == [] {
      assert PutItems(vs, x)[0] == ']' && PutItems(ws, y)[0] == ']';
      assert vs == ws == [];
      assert PutItems(vs, x)[1..] == x && PutItems(ws, y)[1..] == y;
    } else {
      TextDeterminesValue(vs[0], ws[0], MoreItems(vs[1..], x), MoreItems(ws[1..], y));
      TextDeterminesMoreItems(vs[1..], ws[1..], x, y);
      assert vs == [vs[0]] + vs[1..] && ws == [ws[0]] + ws[1..];
    }
  }

  lemma {:induction false} TextDeterminesMoreItems(vs: seq<Value>, ws: seq<Value>, x: string, y: string)
    requires (forall i :: 0 <= i < |vs| ==> Json(vs[i])) && (forall i :: 0 <= i < |ws| ==> Json(ws[i]))
    requires Delimited(x) && Delimited(y) && MoreItems(vs, x) == MoreItems(ws, y)
    ensures vs == ws && x == y
    decreases vs, 0
  {
    assert MoreItems(vs, x)[0] == (if vs == [] then ']' else ',');
    assert MoreItems(ws, y)[0] == (if ws == [] then ']' else ',');
    if vs == [] {
      assert MoreItems(vs, x)[1..] == x && MoreItems(ws, y)[1..] == y;
    } else {
      assert MoreItems(vs, x)[1..] == Put(vs[0], MoreItems(vs[1..], x));
      assert MoreItems(ws, y)[1..] == Put(ws[0], MoreItems(ws[1..], y));
      TextDeterminesValue(vs[0], ws[0], MoreItems(vs[1..], x), MoreItems(ws[1..], y));
      TextDeterminesMoreItems(vs[1..], ws[1..], x, y);
      assert vs == [vs[0]] + vs[1..] && ws == [ws[0]] + ws[1..];
    }
  }

  /** A member and what follows it. */
  lemma {:induction false} TextDeterminesMember(f: Field, g: Field, x: string, y: string)
    requires Json(f.value) && Json(g.value) && Delimited(x) && Delimited(y)
    requires PutString(f.key, ":" + Put(f.value, x)) == PutString(g.key, ":" + Put(g.value, y))
    ensures f == g && x == y
    decreases f
  {
    StringsAreInjective(f.key, g.key, ":" + Put(f.value, x), ":" + Put(g.value, y));
    assert (":" + Put(f.value, x))[1..] == Put(f.value, x) && (":" + Put(g.value, y))[1..] == Put(g.value, y);
    TextDeterminesValue(f.value, g.value, x, y);
  }

  lemma {:induction false} TextDeterminesFields(fs: seq<Field>, gs: seq<Field>, x: string, y: string)
    requires (forall i :: 0 <= i < |fs| ==> Json(fs[i].value)) && (forall i :: 0 <= i < |gs| ==> Json(gs[i].value))
    requires Delimited(x) && Delimited(y) && PutFields(fs, x) == PutFields(gs, y)
    ensures fs == gs && x == y
    decreases fs, 1
  {
    assert PutFields(fs, x)[0] == (if fs == [] then '}' else '"');
    assert PutFields(gs, y)[0] == (if gs == [] then '}' else '"');
    if fs == [] {
      assert PutFields(fs, x)[1..] == x && PutFields(gs, y)[1..] == y;
    } else {
      TextDeterminesMember(fs[0], gs[0], MoreFields(fs[1..], x), MoreFields(gs[1..], y));
      TextDeterminesMoreFields(fs[1..], gs[1..], x, y);
      assert fs == [fs[0]] + fs[1..] && gs == [gs[0]] + gs[1..];
    }
  }

  lemma {:induction false} TextDeterminesMoreFields(fs: seq<Field>, gs: seq<Field>, x: string, y: string)
    requires (forall i :: 0 <= i < |fs| ==> Json(fs[i].value)) && (forall i :: 0 <= i < |gs| ==> Json(gs[i].value))
    requires Delimited(x) && Delimited(y) && MoreFields(fs, x) == MoreFields(gs, y)
    ensures fs == gs && x == y
    decreases fs, 0
  {
    assert MoreFields(fs, x)[0] == (if fs == [] then '}' else ',');
    assert MoreFields(gs, y)[0] == (if gs == [] then '}' else ',');
    if fs == [] {
      assert MoreFields(fs, x)[1..] == x && MoreFields(gs, y)[1..] == y;
    } else {
      assert MoreFields(fs, x)[1..] == PutString(fs[0].key, ":" + Put(fs[0].value, MoreFields(fs[1..], x)));
      assert MoreFields(gs, y)[1..] == PutString(gs[0].key, ":" + Put(gs[0].value, MoreFields(gs[1..], y)));
      TextDeterminesMember(fs[0], gs[0], MoreFields(fs[1..], x), MoreFields(gs[1..], y));
      TextDeterminesMoreFields(fs[1..], gs[1..], x, y);
      assert fs == [fs[0]] + fs[1..] && gs == [gs[0]] + gs[1..];
    }
  }

  // ---------------------------------------------------------------------------
  // A complete invariant
  // ---------------------------------------------------------------------------

  lemma {:induction false} CanonicalIsJson(less: Order, v: Value)
    requires WellFormed(v) && Accepted(v)
    ensures Json(Canonical(less, v))
    decreases v
  {
    if v.Array? {
      forall i | 0 <= i < |v.items| { CanonicalIsJson(less, v.items[i]); }
    } else if v.Object? {
      var keys := VisibleKeys(less, v.fields);
      forall i | 0 <= i < |keys| ensures Json(Canonical(less, Lookup(v.fields, keys[i]))) {
        LookupWellFormed(v.fields, keys[i]);
        CanonicalIsJson(less, Lookup(v.fields, keys[i]));
      }
    }
  }

  /** canonicalJson, without a text when it throws. */
  function CanonicalText(less: Order, v: Value): Option<string>
    requires WellFormed(v)
  {
    if Accepted(v) then
      CanonicalIsJson(less, v);
      Some(Put(Canonical(less, v), ""))
    else None
  }

  lemma TextIsCompleteInvariant(less: Order, a: Value, b: Value)
    requires StrictOrder(less) && WellFormed(a) && WellFormed(b) && Accepted(a) && Accepted(b)
    ensures CanonicalText(less, a) == CanonicalText(less, b) <==> Equivalent(DROPPED, a, b)
  {
    CanonicalIsJson(less, a);
    CanonicalIsJson(less, b);
    if CanonicalText(less, a) == CanonicalText(less, b) {
      TextDeterminesValue(Canonical(less, a), Canonical(less, b), "", "");
      EqualCanonicalIsEquivalent(less, a, b);
    } else if Equivalent(DROPPED, a, b) {
      EquivalentIsEqualCanonical(less, a, b);
    }
  }

  /** At every depth the keys of objects ascend. */
  ghost predicate KeysAscend(less: Order, v: Value)
    decreases v
  {
    match v
    case Array(items) => forall i :: 0 <= i < |items| ==> KeysAscend(less, items[i])
    case Object(fields) => Ascending(less, Keys(fields)) && forall i :: 0 <= i < |fields| ==> KeysAscend(less, fields[i].value)
    case _ => true
  }

  lemma {:induction false} CanonicalKeysAscend(less: Order, v: Value)
    requires StrictOrder(less) && WellFormed(v)
    ensures KeysAscend(less, Canonical(less, v))
    decreases v
  {
    if v.Array? {
      forall i | 0 <= i < |v.items| ensures KeysAscend(less, Canonical(less, v).items[i]) { CanonicalKeysAscend(less, v.items[i]); }
    } else if v.Object? {
      var keys := VisibleKeys(less, v.fields);
      VisibleKeysAre(less, v.fields);
      assert Keys(Canonical(less, v).fields) == keys;
      forall i | 0 <= i < |keys| ensures KeysAscend(less, Canonical(less, Lookup(v.fields, keys[i]))) {
        LookupWellFormed(v.fields, keys[i]);
        CanonicalKeysAscend(less, Lookup(v.fields, keys[i]));
      }
    }
  }

  /** The text of a value with every construct of the printed grammar. */
  function Specimen(): Value {
    Object([Field("a", Array([Null, Bool(true), Bool(false), Number("-1e3")])), Field("b", Object([])), Field("c", String("\n\"\\"))])
  }

  lemma PutKey(key: char, tail: string)
    requires Escape(key) == [key]
    ensures PutString([key], tail) == "\"" + ([key] + ("\"" + tail))
  {
    assert [key][1..] == "" && PutChars("", tail) == "\"" + tail;
  }

  lemma PutSpecimenArray(tail: string)
    ensures Put(Array([Null, Bool(true), Bool(false), Number("-1e3")]), tail)
         == "[" + ("null" + ("," + ("true" + ("," + ("false" + ("," + ("-1e3" + ("]" + tail))))))))
  {
    var items := [Null, Bool(true), Bool(false), Number("-1e3")];
    assert items[1..][1..] == items[2..] && items[2..][1..] == items[3..] && items[3..][1..] == [];
    assert MoreItems(items[3..], tail) == "," + ("-1e3" + ("]" + tail));
    assert MoreItems(items[2..], tail) == "," + ("false" + MoreItems(items[3..], tail));
    assert MoreItems(items[1..], tail) == "," + ("true" + MoreItems(items[2..], tail));
  }

  lemma PutSpecimenString(tail: string)
    ensures Put(String("\n\"\\"), tail) == "\"" + ("\\n" + ("\\\"" + ("\\\\" + ("\"" + tail))))
  {
    var s := "\n\"\\";
    assert s[1..][1..] == s[2..] && s[2..][1..] == "";
    assert PutChars(s[2..], tail) == "\\\\" + ("\"" + tail);
    assert PutChars(s[1..], tail) == "\\\"" + PutChars(s[2..], tail);
  }

  lemma SpecimenIsJson()
    ensures Json(Specimen())
  {
  }

  /** The rest of the members, after the first one. */
  lemma SpecimenMembers()
    ensures
      var fields := Specimen().fields;
      && Json(fields[0].value) && Json(fields[1].value) && Json(fields[2].value)
      && MoreFields(fields[1..], "")
      == "," + ("\"" + ("b" + ("\"" + (":" + ("{" + ("}"
       + ("," + ("\"" + ("c" + ("\"" + (":"
       + ("\"" + ("\\n" + ("\\\"" + ("\\\\" + ("\"" + ("}" + "")))))))))))))))))
  {
    var fields := Specimen().fields;
    PutSpecimenString("}" + "");
    PutKey('b', ":" + Put(fields[1].value, MoreFields(fields[2..], "")));
    PutKey('c', ":" + Put(fields[2].value, "}" + ""));
    assert fields[1..][1..] == fields[2..] && fields[2..][1..] == [];
    hide PutString, Escape, PutItems, PutChars;
    assert MoreFields(fields[2..], "") == "," + PutString("c", ":" + Put(fields[2].value, "}" + ""));
    assert MoreFields(fields[1..], "") == "," + PutString("b", ":" + Put(fields[1].value, MoreFields(fields[2..], "")));
  }

  lemma SpecimenIsPrinted()
    ensures Json(Specimen())
    ensures Put(Specimen(), "")
         == "{" + ("\"" + ("a" + ("\"" + (":"
          + ("[" + ("null" + ("," + ("true" + ("," + ("false" + ("," + ("-1e3" + ("]"
          + ("," + ("\"" + ("b" + ("\"" + (":" + ("{" + ("}"
          + ("," + ("\"" + ("c" + ("\"" + (":"
          + ("\"" + ("\\n" + ("\\\"" + ("\\\\" + ("\"" + ("}" + "")))))))))))))))))))))))))))))))
  {
    SpecimenIsJson();
    SpecimenMembers();
    var fields := Specimen().fields;
    PutSpecimenArray(MoreFields(fields[1..], ""));
    PutKey('a', ":" + Put(fields[0].value, MoreFields(fields[1..], "")));
    hide PutString, Escape, PutItems, PutChars, MoreFields, Json;
    assert PutFields(fields, "") == PutString("a", ":" + Put(fields[0].value, MoreFields(fields[1..], "")));
  }

  // ---------------------------------------------------------------------------
  // Keys that the order does not tell apart
  // ---------------------------------------------------------------------------

  /** The order has no ties among the keys of members. */
  ghost predicate TellsKeysApart(less: Order) {
    forall x, y :: x !in DROPPED && y !in DROPPED ==> !Tied(less, x, y)
  }

  /** The same order, with the dropped key first. */
  function DroppedFirst(less: Order): Order {
    (x, y) => y !in DROPPED && (x in DROPPED || less(x, y))
  }

  lemma DroppedFirstIsStrict(less: Order)
    requires PartialOrder(less) && TellsKeysApart(less)
    ensures StrictOrder(DroppedFirst(less))
  {
    var total := DroppedFirst(less);
    forall x, y ensures total(x, y) || total(y, x) || x == y {
      assert x !in DROPPED && y !in DROPPED ==> !Tied(less, x, y);
    }
    forall x, y, z | total(x, y) && total(y, z) ensures total(x, z) {}
  }

  lemma VisibleKeysAgree(less: Order, fields: seq<Field>)
    ensures VisibleKeys(less, fields) == VisibleKeys(DroppedFirst(less), fields)
  {
    SortAgrees(less, DroppedFirst(less), Filter(fields, Keys(fields)));
  }

  /** Dropped members do not matter to the canonical value. */
  lemma {:induction false} CanonicalAgrees(less: Order, v: Value)
    ensures Canonical(less, v) == Canonical(DroppedFirst(less), v)
    decreases v
  {
    hide VisibleKeys, Lookup;
    if v.Array? {
      forall i | 0 <= i < |v.items| ensures Canonical(less, v.items[i]) == Canonical(DroppedFirst(less), v.items[i]) {
        CanonicalAgrees(less, v.items[i]);
      }
    } else if v.Object? {
      VisibleKeysAgree(less, v.fields);
      var keys := VisibleKeys(less, v.fields);
      forall i | 0 <= i < |keys| ensures Canonical(less, Lookup(v.fields, keys[i])) == Canonical(DroppedFirst(less), Lookup(v.fields, keys[i])) {
        CanonicalAgrees(less, Lookup(v.fields, keys[i]));
      }
    }
  }

  function Pair(x: string, y: string): Value {
    Object([Field(x, Null), Field(y, Null)])
  }

  lemma PairShows(x: string, y: string, k: string)
    requires x !in DROPPED && y !in DROPPED
    ensures Visible(DROPPED, Pair(x, y).fields, k) <==> k == x || k == y
    ensures Visible(DROPPED, Pair(x, y).fields, k) ==> Lookup(Pair(x, y).fields, k) == Null
  {
    var fields := Pair(x, y).fields;
    assert fields[0] == Field(x, Null) && fields[1] == Field(y, Null);
    assert fields[1..] == [Field(y, Null)];
  }

  lemma TiedPairStays(less: Order, x: string, y: string)
    requires Tied(less, x, y) && x !in DROPPED && y !in DROPPED
    ensures VisibleKeys(less, Pair(x, y).fields) == [x, y]
  {
    var fields := Pair(x, y).fields;
    PairShows(x, y, x);
    PairShows(x, y, y);
    assert Keys(fields) == [x, y];
    assert [x, y][..1] == [x] && [x][..0] == [];
    assert Filter(fields, [x]) == [x] && Filter(fields, [x, y]) == [x, y];
    TiesStay(less, x, y);
  }

  lemma PairsAreEquivalent(x: string, y: string)
    requires x != y && x !in DROPPED && y !in DROPPED
    ensures WellFormed(Pair(x, y)) && Accepted(Pair(x, y)) && Equivalent(DROPPED, Pair(x, y), Pair(y, x))
  {
    hide Lookup, HasKey;
    forall k
      ensures Visible(DROPPED, Pair(x, y).fields, k) <==> Visible(DROPPED, Pair(y, x).fields, k)
      ensures Visible(DROPPED, Pair(x, y).fields, k) ==> Lookup(Pair(x, y).fields, k) == Lookup(Pair(y, x).fields, k) == Null
    {
      PairShows(x, y, k);
      PairShows(y, x, k);
    }
  }

  /** Two members with tied keys keep the order of their object, and the text shows it. */
  lemma TiesShow(less: Order, x: string, y: string)
    requires Tied(less, x, y) && x !in DROPPED && y !in DROPPED
    ensures WellFormed(Pair(x, y)) && Accepted(Pair(x, y)) && WellFormed(Pair(y, x)) && Accepted(Pair(y, x))
    ensures Equivalent(DROPPED, Pair(x, y), Pair(y, x)) && CanonicalText(less, Pair(x, y)) != CanonicalText(less, Pair(y, x))
  {
    hide Put, VisibleKeys, Lookup, HasKey, Equivalent, WellFormed, Accepted;
    PairsAreEquivalent(x, y);
    PairsAreEquivalent(y, x);
    TiedPairStays(less, x, y);
    TiedPairStays(less, y, x);
    var a, b := Canonical(less, Pair(x, y)), Canonical(less, Pair(y, x));
    assert a.fields[0].key == x && b.fields[0].key == y;
    CanonicalIsJson(less, Pair(x, y));
    CanonicalIsJson(less, Pair(y, x));
    if Put(a, "") == Put(b, "") { TextDeterminesValue(a, b, "", ""); }
  }

  /** The text is a complete invariant of all accepted values exactly when the comparison of keys has no ties. */
  lemma InvariantExactly(less: Order)
    requires PartialOrder(less)
    ensures TellsKeysApart(less) <==> forall a, b ::
      WellFormed(a) && WellFormed(b) && Accepted(a) && Accepted(b) ==>
        (CanonicalText(less, a) == CanonicalText(less, b) <==> Equivalent(DROPPED, a, b))
  {
    hide Canonical, Put, Equivalent, WellFormed, Accepted;
    if TellsKeysApart(less) {
      DroppedFirstIsStrict(less);
      forall a, b | WellFormed(a) && WellFormed(b) && Accepted(a) && Accepted(b)
        ensures CanonicalText(less, a) == CanonicalText(less, b) <==> Equivalent(DROPPED, a, b)
      {
        CanonicalAgrees(less, a);
        CanonicalAgrees(less, b);
        TextIsCompleteInvariant(DroppedFirst(less), a, b);
      }
    } else {
      var x, y :| x !in DROPPED && y !in DROPPED && Tied(less, x, y);
      TiesShow(less, x, y);
    }
  }

  // ---------------------------------------------------------------------------
  // Values that are not confused with others
  // ---------------------------------------------------------------------------

  /** No member under a dropped key, at any depth. */
  ghost predicate NothingDropped(v: Value)
    decreases v
  {
    match v
    case Array(items) => forall i :: 0 <= i < |items| ==> NothingDropped(items[i])
    case Object(fields) =>
      forall k :: Visible({}, fields, k) ==> k !in DROPPED && NothingDropped(Lookup(fields, k))
    case _ => true
  }

  lemma {:induction false} UndroppedIsEquivalent(a: Value, b: Value)
    requires NothingDropped(a) && NothingDropped(b)
    ensures Equivalent(DROPPED, a, b) <==> Equivalent({}, a, b)
    decreases a
  {
    if a.Array? && b.Array? && |a.items| == |b.items| {
      forall i | 0 <= i < |a.items| { UndroppedIsEquivalent(a.items[i], b.items[i]); }
    } else if a.Object? && b.Object? {
      forall k | Visible({}, a.fields, k) && Visible({}, b.fields, k)
        ensures Equivalent(DROPPED, Lookup(a.fields, k), Lookup(b.fields, k)) <==> Equivalent({}, Lookup(a.fields, k), Lookup(b.fields, k))
      {
        UndroppedIsEquivalent(Lookup(a.fields, k), Lookup(b.fields, k));
      }
      assert forall k :: Visible(DROPPED, a.fields, k) <==> Visible({}, a.fields, k);
      assert forall k :: Visible(DROPPED, b.fields, k) <==> Visible({}, b.fields, k);
    }
  }

  lemma {:induction false} EquivalentToUndropped(a: Value, b: Value)
    requires Equivalent({}, a, b) && NothingDropped(b)
    ensures NothingDropped(a)
    decreases a
  {
    if a.Array? {
      forall i | 0 <= i < |a.items| ensures NothingDropped(a.items[i]) { EquivalentToUndropped(a.items[i], b.items[i]); }
    } else if a.Object? {
      forall k | Visible({}, a.fields, k) ensures k !in DROPPED && NothingDropped(Lookup(a.fields, k)) {
        assert Visible({}, b.fields, k);
        EquivalentToUndropped(Lookup(a.fields, k), Lookup(b.fields, k));
      }
    }
  }

  lemma {:induction false} CanonicalDropsNothing(less: Order, v: Value)
    requires StrictOrder(less) && WellFormed(v)
    ensures NothingDropped(Canonical(less, v))
    decreases v
  {
    if v.Array? {
      forall i | 0 <= i < |v.items| ensures NothingDropped(Canonical(less, v).items[i]) { CanonicalDropsNothing(less, v.items[i]); }
    } else if v.Object? {
      var keys, after := VisibleKeys(less, v.fields), Canonical(less, v).fields;
      forall k | Visible({}, after, k) ensures k !in DROPPED && NothingDropped(Lookup(after, k)) {
        var i :| 0 <= i < |after| && after[i] == Field(k, Lookup(after, k));
        assert keys[i] == k;
        LookupWellFormed(v.fields, k);
        CanonicalDropsNothing(less, Lookup(v.fields, k));
      }
    }
  }

  lemma {:induction false} CanonicalIsAccepted(v: Value)
    requires Json(v)
    ensures Accepted(v)
    decreases v
  {
    if v.Array? {
      forall i | 0 <= i < |v.items| ensures Accepted(v.items[i]) { CanonicalIsAccepted(v.items[i]); }
    } else if v.Object? {
      forall i | 0 <= i < |v.fields| ensures Accepted(v.fields[i].value) { CanonicalIsAccepted(v.fields[i].value); }
    }
  }

  /** Among values without a `__proto__` member, a value is confused with no different one exactly
      when it has no such member itself. */
  lemma FaithfulExactly(less: Order, v: Value)
    requires StrictOrder(less) && WellFormed(v) && Accepted(v)
    ensures NothingDropped(v) <==>
            forall w :: WellFormed(w) && NothingDropped(w) && CanonicalText(less, w) == CanonicalText(less, v) ==> Equivalent({}, v, w)
  {
    hide Canonical, Put, Equivalent, NothingDropped, WellFormed, Accepted;
    if NothingDropped(v) {
      forall w | WellFormed(w) && NothingDropped(w) && CanonicalText(less, w) == CanonicalText(less, v) ensures Equivalent({}, v, w) {
        TextIsCompleteInvariant(less, v, w);
        UndroppedIsEquivalent(v, w);
      }
    } else {
      var w := Canonical(less, v);
      CanonicalIsEquivalent(less, v);
      CanonicalIsJson(less, v);
      CanonicalIsAccepted(w);
      CanonicalDropsNothing(less, v);
      CanonicalIsIdempotent(less, v);
      if Equivalent({}, v, w) { EquivalentToUndropped(v, w); }
    }
  }

  // ---------------------------------------------------------------------------
  // The loops of toCanonicalJsonValue
  // ---------------------------------------------------------------------------

  lemma {:induction false} FilterFirst(fields: seq<Field>, k: string, keys: seq<string>)
    ensures Filter(fields, [k] + keys) == (if Visible(DROPPED, fields, k) then [k] else []) + Filter(fields, keys)
    decreases |keys|
  {
    var all := [k] + keys;
    if keys == [] {
      assert all[..|all| - 1] == [];
    } else {
      var front := keys[..|keys| - 1];
      assert all[..|all| - 1] == [k] + front;
      FilterFirst(fields, k, front);
    }
  }

  lemma {:induction false} FilterInsert(less: Order, fields: seq<Field>, x: string, keys: seq<string>)
    requires WeakOrder(less) && InOrder(less, keys)
    ensures
      Filter(fields, Insert(less, x, keys))
      == if Visible(DROPPED, fields, x) then Insert(less, x, Filter(fields, keys)) else Filter(fields, keys)
  {
    if keys == [] {
      FilterFirst(fields, x, []);
    } else if less(keys[0], x) {
      FilterInsert(less, fields, x, keys[1..]) by { assert InOrder(less, keys[1..]); }
      hide Filter, Insert, Visible, WeakOrder, InOrder;
      InsertLater(less, fields, x, keys[0], keys[1..]);
      assert keys == [keys[0]] + keys[1..];
    } else {
      FilterFirst(fields, x, keys);
      NoneBefore(less, fields, x, keys);
      hide Filter, Visible, WeakOrder, InOrder;
      assert Insert(less, x, keys) == [x] + keys;
    }
  }

  lemma InsertLater(less: Order, fields: seq<Field>, x: string, first: string, keys: seq<string>)
    requires less(first, x)
    requires
      Filter(fields, Insert(less, x, keys))
      == if Visible(DROPPED, fields, x) then Insert(less, x, Filter(fields, keys)) else Filter(fields, keys)
    ensures
      Filter(fields, Insert(less, x, [first] + keys))
      == if Visible(DROPPED, fields, x) then Insert(less, x, Filter(fields, [first] + keys)) else Filter(fields, [first] + keys)
  {
    InsertStep(less, x, first, keys);
    InsertStep(less, x, first, Filter(fields, keys));
    FilterFirst(fields, first, keys);
    FilterFirst(fields, first, Insert(less, x, keys));
    hide Visible, Insert;
    var rest := Filter(fields, keys);
    assert Visible(DROPPED, fields, first) || Filter(fields, [first] + keys) == rest;
  }

  lemma NoneBefore(less: Order, fields: seq<Field>, x: string, keys: seq<string>)
    requires WeakOrder(less) && InOrder(less, keys) && keys != [] && !less(keys[0], x)
    ensures Insert(less, x, Filter(fields, keys)) == [x] + Filter(fields, keys)
  {
    var visible := Filter(fields, keys);
    if visible != [] {
      assert visible[0] in visible;
      var j :| 0 <= j < |keys| && keys[j] == visible[0];
      if j > 0 { NotBelow(less, keys[j], keys[0], x); }
    }
  }

  lemma {:induction false} FilterSort(less: Order, fields: seq<Field>, keys: seq<string>)
    requires WeakOrder(less)
    ensures Filter(fields, Sort(less, keys)) == Sort(less, Filter(fields, keys))
  {
    if keys == [] {
      FilterNone(fields);
    } else {
      FilterSort(less, fields, keys[1..]);
      FilterSortStep(less, fields, keys[0], keys[1..]);
      assert keys == [keys[0]] + keys[1..];
    }
  }

  lemma FilterSortStep(less: Order, fields: seq<Field>, first: string, keys: seq<string>)
    requires WeakOrder(less) && Filter(fields, Sort(less, keys)) == Sort(less, Filter(fields, keys))
    ensures Filter(fields, Sort(less, [first] + keys)) == Sort(less, Filter(fields, [first] + keys))
  {
    hide Filter, Visible, Insert, InOrder, WeakOrder, Sort;
    SortStep(less, first, keys);
    SortInOrder(less, keys);
    FilterInsert(less, fields, first, Sort(less, keys));
    FilterFirst(fields, first, keys);
    if Visible(DROPPED, fields, first) {
      SortStep(less, first, Filter(fields, keys));
    } else {
      assert Filter(fields, [first] + keys) == Filter(fields, keys);
    }
  }

  /** Filtering the sorted keys gives the sorted visible keys. */
  lemma FilterSorted(less: Order, fields: seq<Field>)
    requires WeakOrder(less)
    ensures forall k :: k in Sort(less, Keys(fields)) <==> HasKey(fields, k)
    ensures Filter(fields, Sort(less, Keys(fields))) == VisibleKeys(less, fields)
  {
    var keys, sorted := Keys(fields), Sort(less, Keys(fields));
    SameElements(keys, sorted);
    forall k ensures k in sorted <==> HasKey(fields, k) {
      assert k in Elements(keys) <==> k in Elements(sorted);
      if HasKey(fields, k) {
        var i :| 0 <= i < |fields| && fields[i].key == k;
        assert keys[i] == k;
      }
    }
    FilterSort(less, fields, keys);
  }

  /** canonical[key] = value, on a plain object. */
  function Assign(record: seq<Field>, key: string, value: Value): seq<Field> {
    if key in DROPPED then record else record + [Field(key, value)]
  }

  function Members(less: Order, fields: seq<Field>, keys: seq<string>): (r: seq<Field>)
    requires forall i :: 0 <= i < |keys| ==> HasKey(fields, keys[i])
  {
    seq(|keys|, i requires 0 <= i < |keys| => Field(keys[i], Canonical(less, Lookup(fields, keys[i]))))
  }

  lemma FilterNext(fields: seq<Field>, keys: seq<string>, i: nat)
    requires i < |keys|
    ensures Filter(fields, keys[..i + 1]) == Filter(fields, keys[..i]) + if Visible(DROPPED, fields, keys[i]) then [keys[i]] else []
  {
    assert keys[..i + 1][..i] == keys[..i];
  }

  /** One more key: an assignment if the member is visible. */
  lemma MembersNext(less: Order, fields: seq<Field>, keys: seq<string>, i: nat)
    requires i < |keys|
    ensures
      Members(less, fields, Filter(fields, keys[..i + 1]))
      == if Visible(DROPPED, fields, keys[i])
         then Members(less, fields, Filter(fields, keys[..i])) + [Field(keys[i], Canonical(less, Lookup(fields, keys[i])))]
         else Members(less, fields, Filter(fields, keys[..i]))
  {
    FilterNext(fields, keys, i);
    hide Filter, Canonical, Lookup;
  }

  predicate Defined(fields: seq<Field>, k: string) {
    HasKey(fields, k) && Lookup(fields, k) != Undefined
  }

  lemma FilterNone(fields: seq<Field>)
    ensures Filter(fields, []) == []
  {
  }

  /** An object is accepted exactly when its defined members are. */
  lemma AcceptedByKeys(fields: seq<Field>, keys: seq<string>)
    requires DistinctKeys(fields) && forall k :: k in keys <==> HasKey(fields, k)
    ensures Accepted(Object(fields)) <==> forall j :: 0 <= j < |keys| && Defined(fields, keys[j]) ==> Accepted(Lookup(fields, keys[j]))
  {
    hide Lookup;
    forall i | 0 <= i < |fields| ensures fields[i].key in keys && Lookup(fields, fields[i].key) == fields[i].value {
      LookupIs(fields, i);
      assert HasKey(fields, fields[i].key);
    }
    forall j | 0 <= j < |keys| ensures HasKey(fields, keys[j]) {
      assert keys[j] in keys;
    }
  }

  /** The record after the first `n` keys, none of whose values throws. */
  ghost predicate Built(less: Order, fields: seq<Field>, keys: seq<string>, n: nat, record: seq<Field>) {
    && n <= |keys| && record == Members(less, fields, Filter(fields, keys[..n]))
    && forall j :: 0 <= j < n && Defined(fields, keys[j]) ==> Accepted(Lookup(fields, keys[j]))
  }

  lemma NothingBuilt(less: Order, fields: seq<Field>, keys: seq<string>)
    ensures Built(less, fields, keys, 0, [])
  {
    assert keys[..0] == [];
  }

  lemma BuiltNext(less: Order, fields: seq<Field>, keys: seq<string>, n: nat, record: seq<Field>)
    requires Built(less, fields, keys, n, record) && n < |keys| && HasKey(fields, keys[n])
    ensures
      var item := Lookup(fields, keys[n]);
      && (item == Undefined ==> Built(less, fields, keys, n + 1, record))
      && (item != Undefined && Accepted(item) ==> Built(less, fields, keys, n + 1, Assign(record, keys[n], Canonical(less, item))))
  {
    MembersNext(less, fields, keys, n);
    hide Filter, Members, Canonical, Accepted, Lookup, HasKey;
  }

  lemma BuiltAll(less: Order, fields: seq<Field>, keys: seq<string>, record: seq<Field>)
    requires DistinctKeys(fields) && forall k :: k in keys <==> HasKey(fields, k)
    requires Built(less, fields, keys, |keys|, record) && Filter(fields, keys) == VisibleKeys(less, fields)
    ensures Accepted(Object(fields)) && Object(record) == Canonical(less, Object(fields))
  {
    hide VisibleKeys, Filter;
    assert keys[..|keys|] == keys;
    AcceptedByKeys(fields, keys);
  }

  method ToCanonicalJsonValue(less: Order, v: Value) returns (r: Option<Value>)
    requires WeakOrder(less) && WellFormed(v)
    ensures r == if Accepted(v) then Some(Canonical(less, v)) else None
    decreases v, 1
  {
    if v.NonFinite? || v.Undefined? || v.Unsupported? {
      return None;
    }
    if v.Array? {
      r := ToCanonicalArray(less, v.items);
    } else if v.Object? {
      r := ToCanonicalObject(less, v.fields);
    } else {
      r := Some(v);
    }
  }

  method ToCanonicalArray(less: Order, items: seq<Value>) returns (r: Option<Value>)
    requires WeakOrder(less) && WellFormed(Array(items))
    ensures r == if Accepted(Array(items)) then Some(Canonical(less, Array(items))) else None
    decreases items
  {
    var mapped: seq<Value> := [];
    for i := 0 to |items|
      invariant |mapped| == i && forall j :: 0 <= j < i ==> Accepted(items[j]) && mapped[j] == Canonical(less, items[j])
    {
      var item := ToCanonicalJsonValue(less, items[i]);
      if item.None? { return None; }
      mapped := mapped + [item.value];
    }
    assert mapped == Canonical(less, Array(items)).items;
    return Some(Array(mapped));
  }

  method ToCanonicalObject(less: Order, fields: seq<Field>) returns (r: Option<Value>)
    requires WeakOrder(less) && WellFormed(Object(fields))
    ensures r == if Accepted(Object(fields)) then Some(Canonical(less, Object(fields))) else None
    decreases fields
  {
    hide Sort, Filter, VisibleKeys, WeakOrder, Built, Accepted, Canonical, Lookup, HasKey;
    var keys := Sort(less, Keys(fields));
    FilterSorted(less, fields);
    var canonical: seq<Field> := [];
    NothingBuilt(less, fields, keys);
    for i := 0 to |keys|
      invariant Built(less, fields, keys, i, canonical)
    {
      assert keys[i] in keys;
      BuiltNext(less, fields, keys, i, canonical);
      var item := Lookup(fields, keys[i]);
      if item != Undefined {
        LookupWellFormed(fields, keys[i]);
        var value := ToCanonicalJsonValue(less, item);
        if value.None? {
          AcceptedByKeys(fields, keys);
          return None;
        }
        canonical := Assign(canonical, keys[i], value.value);
      }
    }
    BuiltAll(less, fields, keys, canonical);
    return Some(Object(canonical));
  }
}
