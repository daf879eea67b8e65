/**
 The MHJR1 request file the custodian reads: a magic, length-prefixed little-endian
 strings, two counted lists, and nothing after them. Strings are the byte sequences
 of their UTF-8 text; `utf8` says which byte sequences are valid UTF-8.
 */
module RequestCodec {

  type Byte = b: int | 0 <= b < 256
  type Text = seq<Byte>

  const MAXIMUM_TEXT := 1024 * 1024
  const MAXIMUM_COUNT := 4096
  const MAGIC: seq<Byte> := [0x4d, 0x48, 0x4a, 0x52, 0x31, 0]
  const NUL: Byte := 0
  const EQUALS: Byte := 0x3d

  datatype Variable = Variable(key: Text, value: Text)

  datatype Request = Request(
    receiptDirectory: Text, effectId: Text, inputDigest: Text, daemonEpoch: Text, attemptId: Text,
    supervisorNonce: Text, jobName: Text, cwd: Text, executable: Text, stdoutPath: Text, stderrPath: Text,
    argv: seq<Text>, env: seq<Variable>)

  // ---------------------------------------------------------------------------
  // The format
  // ---------------------------------------------------------------------------

  predicate TextOk(utf8: Text -> bool, t: Text) {
    |t| <= MAXIMUM_TEXT && utf8(t) && NUL !in t
  }

  predicate KeyOk(key: Text) {
    key != [] && EQUALS !in key
  }

  predicate VariableOk(utf8: Text -> bool, v: Variable) {
    TextOk(utf8, v.key) && TextOk(utf8, v.value) && KeyOk(v.key)
  }

  predicate NamesPresent(r: Request) {
    && r.receiptDirectory != [] && r.effectId != [] && r.inputDigest != [] && r.daemonEpoch != []
    && r.supervisorNonce != [] && r.jobName != [] && r.cwd != [] && r.executable != []
  }

  predicate WellFormed(utf8: Text -> bool, r: Request) {
    && NamesPresent(r)
    && TextOk(utf8, r.receiptDirectory) && TextOk(utf8, r.effectId) && TextOk(utf8, r.inputDigest)
    && TextOk(utf8, r.daemonEpoch) && TextOk(utf8, r.attemptId) && TextOk(utf8, r.supervisorNonce)
    && TextOk(utf8, r.jobName) && TextOk(utf8, r.cwd) && TextOk(utf8, r.executable)
    && TextOk(utf8, r.stdoutPath) && TextOk(utf8, r.stderrPath)
    && |r.argv| <= MAXIMUM_COUNT && (forall t :: t in r.argv ==> TextOk(utf8, t))
    && |r.env| <= MAXIMUM_COUNT && (forall v :: v in r.env ==> VariableOk(utf8, v))
  }

  /** Four little-endian bytes. */
  function U32(n: nat): seq<Byte> {
    [n % 0x100, n / 0x100 % 0x100, n / 0x1_0000 % 0x100, n / 0x100_0000 % 0x100]
  }

  function LittleEndian(b0: nat, b1: nat, b2: nat, b3: nat): nat {
    b0 + 0x100 * b1 + 0x1_0000 * b2 + 0x100_0000 * b3
  }

  function Put(t: Text, tail: seq<Byte>): seq<Byte>
  {
    U32(|t|) + (t + tail)
  }

  function PutVariable(v: Variable, tail: seq<Byte>): seq<Byte> {
    Put(v.key, Put(v.value, tail))
  }

  function PutMany<T>(put: (T, seq<Byte>) -> seq<Byte>, xs: seq<T>, tail: seq<Byte>): seq<Byte> {
    if xs == [] then tail else put(xs[0], PutMany(put, xs[1..], tail))
  }

  function EncodeLists(argv: seq<Text>, env: seq<Variable>): seq<Byte>
  {
    U32(|argv|) + PutMany(Put, argv, U32(|env|) + PutMany(PutVariable, env, []))
  }

  function Encode(r: Request): seq<Byte> {
    MAGIC + Put(r.receiptDirectory, Put(r.effectId, Put(r.inputDigest, Put(r.daemonEpoch, Put(r.attemptId,
      Put(r.supervisorNonce, Put(r.jobName, Put(r.cwd, Put(r.executable, Put(r.stdoutPath, Put(r.stderrPath,
        EncodeLists(r.argv, r.env))))))))))))
  }

  // ---------------------------------------------------------------------------
  // Reading
  // ---------------------------------------------------------------------------

  /** A value read and the bytes after it. */
  datatype Read<+T> = Invalid | Got(value: T, rest: seq<Byte>) {

    predicate IsFailure() { Invalid? }

    function PropagateFailure<U>(): Read<U>
      requires Invalid?
    {
      Invalid
    }

    function Extract(): (T, seq<Byte>)
      requires Got?
    {
      (value, rest)
    }
  }

  function ReadU32(b: seq<Byte>): Read<nat> {
    if |b| < 4 then Invalid
    else Got(LittleEndian(b[0], b[1], b[2], b[3]), b[4..])
  }

  function ReadText(utf8: Text -> bool, b: seq<Byte>): Read<Text> {
    var (length, b1) :- ReadU32(b);
    if length > MAXIMUM_TEXT || length > |b1| || !utf8(b1[..length]) || NUL in b1[..length] then Invalid
    else Got(b1[..length], b1[length..])
  }

  function ReadVariable(utf8: Text -> bool, b: seq<Byte>): Read<Variable> {
    var (key, b1) :- ReadText(utf8, b);
    var (value, b2) :- ReadText(utf8, b1);
    if KeyOk(key) then Got(Variable(key, value), b2) else Invalid
  }

  type Reader<T> = seq<Byte> -> Read<T>

  function TextReader(utf8: Text -> bool): Reader<Text> {
    b => ReadText(utf8, b)
  }

  function VariableReader(utf8: Text -> bool): Reader<Variable> {
    b => ReadVariable(utf8, b)
  }

  /** `n` more values after those in `done`. */
  function ReadMany<T>(read: Reader<T>, done: seq<T>, n: nat, b: seq<Byte>): Read<seq<T>>
    decreases n
  {
    if n == 0 then Got(done, b)
    else
      var (x, b1) :- read(b);
      ReadMany(read, done + [x], n - 1, b1)
  }

  datatype Lists = Lists(argv: seq<Text>, env: seq<Variable>)

  function ReadLists(utf8: Text -> bool, b: seq<Byte>): Read<Lists> {
    var (argc, b1) :- ReadU32(b);
    if argc > MAXIMUM_COUNT then Invalid else
    var (argv, b2) :- ReadMany(TextReader(utf8), [], argc, b1);
    var (envc, b3) :- ReadU32(b2);
    if envc > MAXIMUM_COUNT then Invalid else
    var (env, b4) :- ReadMany(VariableReader(utf8), [], envc, b3);
    if b4 != [] then Invalid else Got(Lists(argv, env), [])
  }

  /** The eleven strings at the front, as a request without arguments and environment. */
  function ReadNames(utf8: Text -> bool, b: seq<Byte>): Read<Request> {
    var (receiptDirectory, b1) :- ReadText(utf8, b);
    var (effectId, b2) :- ReadText(utf8, b1);
    var (inputDigest, b3) :- ReadText(utf8, b2);
    var (daemonEpoch, b4) :- ReadText(utf8, b3);
    var (attemptId, b5) :- ReadText(utf8, b4);
    var (supervisorNonce, b6) :- ReadText(utf8, b5);
    var (jobName, b7) :- ReadText(utf8, b6);
    var (cwd, b8) :- ReadText(utf8, b7);
    var (executable, b9) :- ReadText(utf8, b8);
    var (stdoutPath, b10) :- ReadText(utf8, b9);
    var (stderrPath, b11) :- ReadText(utf8, b10);
    Got(Request(receiptDirectory, effectId, inputDigest, daemonEpoch, attemptId, supervisorNonce,
                jobName, cwd, executable, stdoutPath, stderrPath, [], []), b11)
  }

  function ReadRequest(utf8: Text -> bool, b: seq<Byte>): Read<Request> {
    if !(MAGIC <= b) then Invalid else
    var (names, b1) :- ReadNames(utf8, b[6..]);
    var (lists, b2) :- ReadLists(utf8, b1);
    if NamesPresent(names) then Got(names.(argv := lists.argv, env := lists.env), b2) else Invalid
  }

  // ---------------------------------------------------------------------------
  // The cursor
  // ---------------------------------------------------------------------------

  class Cursor {
    const bytes: seq<Byte>
    var offset: nat

    ghost predicate Valid()
      reads this
    {
      offset <= |bytes|
    }

    function Remaining(): seq<Byte>
      reads this
      requires Valid()
    {
      bytes[offset..]
    }

    constructor (bytes: seq<Byte>, offset: nat)
      requires offset <= |bytes|
      ensures Valid() && this.bytes == bytes && this.offset == offset
    {
      this.bytes := bytes;
      this.offset := offset;
    }

    method U32() returns (r: Read<nat>)
      requires Valid()
      modifies this`offset
      ensures Valid()
      ensures r.Invalid? <==> ReadU32(old(Remaining())).Invalid?
      ensures r.Invalid? ==> offset == old(offset)
      ensures r.Got? ==> r == ReadU32(old(Remaining())) && Remaining() == r.rest
    {
      var end := offset + 4;
      if end > |bytes| {
        return Invalid;
      }
      var raw := bytes[offset..end];
      assert raw == Remaining()[..4];
      offset := end;
      assert Remaining() == old(Remaining())[4..];
      return Got(LittleEndian(raw[0], raw[1], raw[2], raw[3]), bytes[offset..]);
    }

    method String(utf8: Text -> bool) returns (r: Read<Text>)
      requires Valid()
      modifies this`offset
      ensures Valid()
      ensures r.Invalid? <==> ReadText(utf8, old(Remaining())).Invalid?
      ensures r.Got? ==> r == ReadText(utf8, old(Remaining())) && Remaining() == r.rest
    {
      var length := U32();
      if length.Invalid? || length.value > MAXIMUM_TEXT {
        return Invalid;
      }
      ghost var b1 := Remaining();
      var end := offset + length.value;
      if end > |bytes| || !utf8(bytes[offset..end]) {
        assert end <= |bytes| ==> bytes[offset..end] == b1[..length.value];
        return Invalid;
      }
      var value := bytes[offset..end];
      assert value == b1[..length.value];
      offset := end;
      assert Remaining() == b1[length.value..];
      if NUL in value {
        return Invalid;
      }
      return Got(value, bytes[offset..]);
    }
  }

  method ReadArguments(utf8: Text -> bool, cursor: Cursor, argc: nat) returns (r: Read<seq<Text>>)
    requires cursor.Valid()
    modifies cursor`offset
    ensures cursor.Valid()
    ensures r == ReadMany(TextReader(utf8), [], argc, old(cursor.Remaining()))
    ensures r.Got? ==> cursor.Remaining() == r.rest
  {
    var argv: seq<Text> := [];
    for i := 0 to argc
      invariant cursor.Valid()
      invariant ReadMany(TextReader(utf8), [], argc, old(cursor.Remaining())) == ReadMany(TextReader(utf8), argv, argc - i, cursor.Remaining())
    {
      var t := cursor.String(utf8);
      if t.Invalid? {
        return Invalid;
      }
      argv := argv + [t.value];
    }
    return Got(argv, cursor.Remaining());
  }

  method ReadEnvironment(utf8: Text -> bool, cursor: Cursor, envc: nat) returns (r: Read<seq<Variable>>)
    requires cursor.Valid()
    modifies cursor`offset
    ensures cursor.Valid()
    ensures r == ReadMany(VariableReader(utf8), [], envc, old(cursor.Remaining()))
    ensures r.Got? ==> cursor.Remaining() == r.rest
  {
    var env: seq<Variable> := [];
    for i := 0 to envc
      invariant cursor.Valid()
      invariant ReadMany(VariableReader(utf8), [], envc, old(cursor.Remaining())) == ReadMany(VariableReader(utf8), env, envc - i, cursor.Remaining())
    {
      var key := cursor.String(utf8);
      if key.Invalid? {
        return Invalid;
      }
      var value := cursor.String(utf8);
      if value.Invalid? || !KeyOk(key.value) {
        return Invalid;
      }
      env := env + [Variable(key.value, value.value)];
    }
    return Got(env, cursor.Remaining());
  }

  method ParseNames(utf8: Text -> bool, cursor: Cursor) returns (r: Read<Request>)
    requires cursor.Valid()
    modifies cursor`offset
    ensures cursor.Valid()
    ensures r == ReadNames(utf8, old(cursor.Remaining()))
    ensures r.Got? ==> cursor.Remaining() == r.rest
  {
    var receiptDirectory := cursor.String(utf8);
    if receiptDirectory.Invalid? { return Invalid; }
    var effectId := cursor.String(utf8);
    if effectId.Invalid? { return Invalid; }
    var inputDigest := cursor.String(utf8);
    if inputDigest.Invalid? { return Invalid; }
    var daemonEpoch := cursor.String(utf8);
    if daemonEpoch.Invalid? { return Invalid; }
    var attemptId := cursor.String(utf8);
    if attemptId.Invalid? { return Invalid; }
    var supervisorNonce := cursor.String(utf8);
    if supervisorNonce.Invalid? { return Invalid; }
    var jobName := cursor.String(utf8);
    if jobName.Invalid? { return Invalid; }
    var cwd := cursor.String(utf8);
    if cwd.Invalid? { return Invalid; }
    var executable := cursor.String(utf8);
    if executable.Invalid? { return Invalid; }
    var stdoutPath := cursor.String(utf8);
    if stdoutPath.Invalid? { return Invalid; }
    var stderrPath := cursor.String(utf8);
    if stderrPath.Invalid? { return Invalid; }
    return Got(Request(
      receiptDirectory.value, effectId.value, inputDigest.value, daemonEpoch.value, attemptId.value,
      supervisorNonce.value, jobName.value, cwd.value, executable.value, stdoutPath.value, stderrPath.value,
      [], []), cursor.Remaining());
  }

  method ParseRequest(utf8: Text -> bool, bytes: seq<Byte>) returns (r: Read<Request>)
    ensures r == ReadRequest(utf8, bytes)
  {
    if !(MAGIC <= bytes) { return Invalid; }
    var cursor := new Cursor(bytes, 6);
    var names := ParseNames(utf8, cursor);
    if names.Invalid? { return Invalid; }
    var argc := cursor.U32();
    if argc.Invalid? || argc.value > MAXIMUM_COUNT { return Invalid; }
    var argv := ReadArguments(utf8, cursor, argc.value);
    if argv.Invalid? { return Invalid; }
    var envc := cursor.U32();
    if envc.Invalid? || envc.value > MAXIMUM_COUNT { return Invalid; }
    var env := ReadEnvironment(utf8, cursor, envc.value);
    if env.Invalid? || cursor.offset != |bytes| { return Invalid; }
    if !NamesPresent(names.value) { return Invalid; }
    return Got(names.value.(argv := argv.value, env := env.value), []);
  }

  // ---------------------------------------------------------------------------
  // Decoding inverts encoding, both ways
  // ---------------------------------------------------------------------------

  lemma DigitsOf(b0: nat, b1: nat, b2: nat, b3: nat)
    requires b0 < 0x100 && b1 < 0x100 && b2 < 0x100 && b3 < 0x100
    ensures
      var n := LittleEndian(b0, b1, b2, b3);
      && n % 0x100 == b0 && n / 0x100 % 0x100 == b1 && n / 0x1_0000 % 0x100 == b2 && n / 0x100_0000 % 0x100 == b3
      && n < 0x1_0000_0000
  {
    var n := LittleEndian(b0, b1, b2, b3);
    assert n / 0x100 == b1 + 0x100 * b2 + 0x1_0000 * b3;
    assert n / 0x1_0000 == b2 + 0x100 * b3;
    assert n / 0x100_0000 == b3;
  }

  lemma U32RoundTrip(n: nat, tail: seq<Byte>)
    requires n < 0x1_0000_0000
    ensures ReadU32(U32(n) + tail) == Got(n, tail)
  {
    assert (U32(n) + tail)[4..] == tail;
    assert n / 0x1_0000 == n / 0x100 / 0x100 && n / 0x100_0000 == n / 0x1_0000 / 0x100;
  }

  lemma U32Exact(b: seq<Byte>)
    requires ReadU32(b).Got?
    ensures ReadU32(b).value < 0x1_0000_0000 && b == U32(ReadU32(b).value) + ReadU32(b).rest
  {
    DigitsOf(b[0], b[1], b[2], b[3]);
    assert b == b[..4] + b[4..];
    assert b[..4] == U32(ReadU32(b).value);
  }

  /** One string: what is read back from `Put`, and `Put` of what is read. */
  lemma TextRoundTrip(utf8: Text -> bool, t: Text, tail: seq<Byte>)
    requires TextOk(utf8, t)
    ensures ReadText(utf8, Put(t, tail)) == Got(t, tail)
  {
    U32RoundTrip(|t|, t + tail);
    assert (t + tail)[..|t|] == t && (t + tail)[|t|..] == tail;
  }

  lemma TextExact(utf8: Text -> bool, b: seq<Byte>)
    requires ReadText(utf8, b).Got?
    ensures TextOk(utf8, ReadText(utf8, b).value) && b == Put(ReadText(utf8, b).value, ReadText(utf8, b).rest)
  {
    U32Exact(b);
    var length, b1 := ReadU32(b).value, ReadU32(b).rest;
    assert b1 == b1[..length] + b1[length..];
  }

  lemma VariableRoundTrip(utf8: Text -> bool, v: Variable, tail: seq<Byte>)
    requires VariableOk(utf8, v)
    ensures ReadVariable(utf8, PutVariable(v, tail)) == Got(v, tail)
  {
    TextRoundTrip(utf8, v.key, Put(v.value, tail));
    TextRoundTrip(utf8, v.value, tail);
  }

  lemma VariableExact(utf8: Text -> bool, b: seq<Byte>)
    requires ReadVariable(utf8, b).Got?
    ensures VariableOk(utf8, ReadVariable(utf8, b).value)
    ensures b == PutVariable(ReadVariable(utf8, b).value, ReadVariable(utf8, b).rest)
  {
    TextExact(utf8, b);
    TextExact(utf8, ReadText(utf8, b).rest);
  }

  /** `read` takes back what `put` writes of any `ok` value, and accepts nothing else. */
  ghost predicate Inverse<T(!new)>(read: Reader<T>, put: (T, seq<Byte>) -> seq<Byte>, ok: T -> bool) {
    && (forall x, tail :: ok(x) ==> read(put(x, tail)) == Got(x, tail))
    && (forall b :: read(b).Got? ==> ok(read(b).value) && b == put(read(b).value, read(b).rest))
  }

  lemma TextsInverse(utf8: Text -> bool)
    ensures Inverse(TextReader(utf8), Put, t => TextOk(utf8, t))
  {
    forall t, tail | TextOk(utf8, t) { TextRoundTrip(utf8, t, tail); }
    forall b | ReadText(utf8, b).Got? { TextExact(utf8, b); }
  }

  lemma VariablesInverse(utf8: Text -> bool)
    ensures Inverse(VariableReader(utf8), PutVariable, v => VariableOk(utf8, v))
  {
    forall v, tail | VariableOk(utf8, v) { VariableRoundTrip(utf8, v, tail); }
    forall b | ReadVariable(utf8, b).Got? { VariableExact(utf8, b); }
  }

  lemma {:induction false} ManyRoundTrip<T(!new)>(read: Reader<T>, put: (T, seq<Byte>) -> seq<Byte>, ok: T -> bool,
                                                  done: seq<T>, xs: seq<T>, tail: seq<Byte>)
    requires Inverse(read, put, ok) && forall x :: x in xs ==> ok(x)
    ensures ReadMany(read, done, |xs|, PutMany(put, xs, tail)) == Got(done + xs, tail)
    decreases |xs|
  {
    if xs == [] {
      assert done + xs == done;
    } else {
      ManyRoundTrip(read, put, ok, done + [xs[0]], xs[1..], tail);
      assert done + [xs[0]] + xs[1..] == done + xs;
    }
  }

  /** The values read are in order and are what the consumed bytes encode. */
  lemma {:induction false} ManyExact<T(!new)>(read: Reader<T>, put: (T, seq<Byte>) -> seq<Byte>, ok: T -> bool,
                                              done: seq<T>, n: nat, b: seq<Byte>) returns (xs: seq<T>)
    requires Inverse(read, put, ok) && ReadMany(read, done, n, b).Got?
    ensures ReadMany(read, done, n, b).value == done + xs && |xs| == n
    ensures (forall x :: x in xs ==> ok(x)) && b == PutMany(put, xs, ReadMany(read, done, n, b).rest)
    decreases n
  {
    if n == 0 {
      xs := [];
      assert done + xs == done;
    } else {
      var x, b1 := read(b).value, read(b).rest;
      var more := ManyExact(read, put, ok, done + [x], n - 1, b1);
      xs := [x] + more;
      assert done + [x] + more == done + xs;
      assert xs[1..] == more;
    }
  }

  lemma ArgumentsRoundTrip(utf8: Text -> bool, argv: seq<Text>, tail: seq<Byte>)
    requires forall t :: t in argv ==> TextOk(utf8, t)
    ensures ReadMany(TextReader(utf8), [], |argv|, PutMany(Put, argv, tail)) == Got(argv, tail)
  {
    TextsInverse(utf8);
    ManyRoundTrip(TextReader(utf8), Put, t => TextOk(utf8, t), [], argv, tail);
    assert [] + argv == argv;
  }

  lemma EnvironmentRoundTrip(utf8: Text -> bool, env: seq<Variable>, tail: seq<Byte>)
    requires forall v :: v in env ==> VariableOk(utf8, v)
    ensures ReadMany(VariableReader(utf8), [], |env|, PutMany(PutVariable, env, tail)) == Got(env, tail)
  {
    VariablesInverse(utf8);
    ManyRoundTrip(VariableReader(utf8), PutVariable, v => VariableOk(utf8, v), [], env, tail);
    assert [] + env == env;
  }

  lemma ListsRoundTrip(utf8: Text -> bool, r: Request)
    requires WellFormed(utf8, r)
    ensures ReadLists(utf8, EncodeLists(r.argv, r.env)) == Got(Lists(r.argv, r.env), [])
  {
    var last := U32(|r.env|) + PutMany(PutVariable, r.env, []);
    U32RoundTrip(|r.argv|, PutMany(Put, r.argv, last));
    ArgumentsRoundTrip(utf8, r.argv, last);
    U32RoundTrip(|r.env|, PutMany(PutVariable, r.env, []));
    EnvironmentRoundTrip(utf8, r.env, []);
  }

  lemma ListsExact(utf8: Text -> bool, b: seq<Byte>)
    requires ReadLists(utf8, b).Got?
    ensures
      var Lists(argv, env) := ReadLists(utf8, b).value;
      && |argv| <= MAXIMUM_COUNT && (forall t :: t in argv ==> TextOk(utf8, t))
      && |env| <= MAXIMUM_COUNT && (forall v :: v in env ==> VariableOk(utf8, v))
      && b == EncodeLists(argv, env) && ReadLists(utf8, b).rest == []
  {
    U32Exact(b);
    var argc, b1 := ReadU32(b).value, ReadU32(b).rest;
    TextsInverse(utf8);
    var argv := ManyExact(TextReader(utf8), Put, t => TextOk(utf8, t), [], argc, b1);
    var b2 := ReadMany(TextReader(utf8), [], argc, b1).rest;
    U32Exact(b2);
    var envc, b3 := ReadU32(b2).value, ReadU32(b2).rest;
    VariablesInverse(utf8);
    var env := ManyExact(VariableReader(utf8), PutVariable, v => VariableOk(utf8, v), [], envc, b3);
    assert [] + argv == argv && [] + env == env;
  }

  lemma DecodeAfterEncode(utf8: Text -> bool, r: Request)
    requires WellFormed(utf8, r)
    ensures ReadRequest(utf8, Encode(r)) == Got(r, [])
  {
    ListsRoundTrip(utf8, r);
    var b11 := EncodeLists(r.argv, r.env);
    var b10 := Put(r.stderrPath, b11);
    TextRoundTrip(utf8, r.stderrPath, b11);
    var b9 := Put(r.stdoutPath, b10);
    TextRoundTrip(utf8, r.stdoutPath, b10);
    var b8 := Put(r.executable, b9);
    TextRoundTrip(utf8, r.executable, b9);
    var b7 := Put(r.cwd, b8);
    TextRoundTrip(utf8, r.cwd, b8);
    var b6 := Put(r.jobName, b7);
    TextRoundTrip(utf8, r.jobName, b7);
    var b5 := Put(r.supervisorNonce, b6);
    TextRoundTrip(utf8, r.supervisorNonce, b6);
    var b4 := Put(r.attemptId, b5);
    TextRoundTrip(utf8, r.attemptId, b5);
    var b3 := Put(r.daemonEpoch, b4);
    TextRoundTrip(utf8, r.daemonEpoch, b4);
    var b2 := Put(r.inputDigest, b3);
    TextRoundTrip(utf8, r.inputDigest, b3);
    var b1 := Put(r.effectId, b2);
    TextRoundTrip(utf8, r.effectId, b2);
    TextRoundTrip(utf8, r.receiptDirectory, b1);
    assert (MAGIC + Put(r.receiptDirectory, b1))[6..] == Put(r.receiptDirectory, b1);
  }

  lemma EncodeAfterDecode(utf8: Text -> bool, b: seq<Byte>)
    requires ReadRequest(utf8, b).Got?
    ensures WellFormed(utf8, ReadRequest(utf8, b).value) && Encode(ReadRequest(utf8, b).value) == b
  {
    assert b == MAGIC + b[6..];
    TextExact(utf8, b[6..]);
    var b1 := ReadText(utf8, b[6..]).rest;
    TextExact(utf8, b1);
    var b2 := ReadText(utf8, b1).rest;
    TextExact(utf8, b2);
    var b3 := ReadText(utf8, b2).rest;
    TextExact(utf8, b3);
    var b4 := ReadText(utf8, b3).rest;
    TextExact(utf8, b4);
    var b5 := ReadText(utf8, b4).rest;
    TextExact(utf8, b5);
    var b6 := ReadText(utf8, b5).rest;
    TextExact(utf8, b6);
    var b7 := ReadText(utf8, b6).rest;
    TextExact(utf8, b7);
    var b8 := ReadText(utf8, b7).rest;
    TextExact(utf8, b8);
    var b9 := ReadText(utf8, b8).rest;
    TextExact(utf8, b9);
    var b10 := ReadText(utf8, b9).rest;
    TextExact(utf8, b10);
    ListsExact(utf8, ReadText(utf8, b10).rest);
  }

  /** The parser accepts exactly the encodings of well-formed requests, each as the request it encodes. */
  lemma ParserIsExact(utf8: Text -> bool, b: seq<Byte>, r: Request)
    ensures ReadRequest(utf8, b) == Got(r, []) <==> WellFormed(utf8, r) && Encode(r) == b
    ensures ReadRequest(utf8, b).Got? ==> ReadRequest(utf8, b).rest == []
  {
    if ReadRequest(utf8, b).Got? {
      EncodeAfterDecode(utf8, b);
      DecodeAfterEncode(utf8, ReadRequest(utf8, b).value);
    }
    if WellFormed(utf8, r) { DecodeAfterEncode(utf8, r); }
  }

  /** Two different accepted files never decode to the same request. */
  lemma DecodingIsInjective(utf8: Text -> bool, b: seq<Byte>, b': seq<Byte>)
    requires ReadRequest(utf8, b).Got? && ReadRequest(utf8, b').Got?
    requires ReadRequest(utf8, b).value == ReadRequest(utf8, b').value
    ensures b == b'
  {
    EncodeAfterDecode(utf8, b);
    EncodeAfterDecode(utf8, b');
  }

  // ---------------------------------------------------------------------------
  // The bytes of one request
  // ---------------------------------------------------------------------------

  /** A request whose strings are the letters from a to n, in the order of the format. */
  const LETTERS: Request := Request(
    [97], [98], [99], [100], [101], [102], [103], [104], [105], [106], [107], [[108]], [Variable([109], [110])])

  lemma PutLetter(letter: Byte, tail: seq<Byte>)
    ensures Put([letter], tail) == [1, 0, 0, 0, letter] + tail
  {
  }

  lemma LettersInLists()
    ensures EncodeLists([[108]], [Variable([109], [110])]) == [1, 0, 0, 0] + ([1, 0, 0, 0, 108] + ([1, 0, 0, 0] + ([1, 0, 0, 0, 109] + [1, 0, 0, 0, 110])))
  {
    PutLetter(110, []);
    PutLetter(109, Put([110], []));
    var env := PutMany(PutVariable, [Variable([109], [110])], []);
    assert env == [1, 0, 0, 0, 109] + [1, 0, 0, 0, 110];
    PutLetter(108, U32(1) + env);
    hide Put;
    assert PutMany(Put, [[108]], U32(1) + env) == Put([108], U32(1) + env);
  }

  /** The magic, the eleven strings, the arguments and the environment, each string after its length. */
  lemma LettersEncoded()
    ensures
      Encode(LETTERS) == [0x4d, 0x48, 0x4a, 0x52, 0x31, 0] + ([1, 0, 0, 0, 97] + ([1, 0, 0, 0, 98] + ([1, 0, 0, 0, 99] + ([1, 0, 0, 0, 100] + ([1, 0, 0, 0, 101] + ([1, 0, 0, 0, 102] + ([1, 0, 0, 0, 103] + ([1, 0, 0, 0, 104] + ([1, 0, 0, 0, 105] + ([1, 0, 0, 0, 106] + ([1, 0, 0, 0, 107] + (
        [1, 0, 0, 0] + ([1, 0, 0, 0, 108] + ([1, 0, 0, 0] + ([1, 0, 0, 0, 109] + [1, 0, 0, 0, 110])))))))))))))))
  {
    LettersInLists();
    forall letter: Byte, tail { PutLetter(letter, tail); }
    hide Put, EncodeLists;
  }

  /** Valid UTF-8 of at most a megabyte, without a NUL byte. */
  predicate PlainText(utf8: Text -> bool, t: Text) {
    |t| <= 1048576 && utf8(t) && forall i :: 0 <= i < |t| ==> t[i] != 0
  }

  /** A name has no equals sign and is not empty. */
  predicate PlainVariable(utf8: Text -> bool, v: Variable) {
    PlainText(utf8, v.key) && PlainText(utf8, v.value) && v.key != [] && forall i :: 0 <= i < |v.key| ==> v.key[i] != 61
  }

  function Names(r: Request): seq<Text> {
    [r.receiptDirectory, r.effectId, r.inputDigest, r.daemonEpoch, r.supervisorNonce, r.jobName, r.cwd, r.executable]
  }

  predicate AllNamed(utf8: Text -> bool, names: seq<Text>) {
    forall i :: 0 <= i < |names| ==> names[i] != [] && PlainText(utf8, names[i])
  }

  lemma PlainIsOk(utf8: Text -> bool, t: Text)
    ensures PlainText(utf8, t) <==> TextOk(utf8, t)
  {
  }

  lemma PlainVariableIsOk(utf8: Text -> bool, v: Variable)
    ensures PlainVariable(utf8, v) <==> VariableOk(utf8, v)
  {
  }

  lemma AllNamedIs(utf8: Text -> bool, names: seq<Text>)
    ensures AllNamed(utf8, names) <==> forall t :: t in names ==> t != [] && TextOk(utf8, t)
  {
    hide PlainText, TextOk;
    forall i | 0 <= i < |names| ensures names[i] in names && (PlainText(utf8, names[i]) <==> TextOk(utf8, names[i])) {
      PlainIsOk(utf8, names[i]);
    }
    if AllNamed(utf8, names) {
      forall t | t in names ensures t != [] && TextOk(utf8, t) {
        var i :| 0 <= i < |names| && names[i] == t;
      }
    }
  }

  lemma NamesArePlain(utf8: Text -> bool, r: Request)
    ensures
      AllNamed(utf8, Names(r)) <==>
        && NamesPresent(r)
        && TextOk(utf8, r.receiptDirectory) && TextOk(utf8, r.effectId) && TextOk(utf8, r.inputDigest) && TextOk(utf8, r.daemonEpoch)
        && TextOk(utf8, r.supervisorNonce) && TextOk(utf8, r.jobName) && TextOk(utf8, r.cwd) && TextOk(utf8, r.executable)
  {
    hide AllNamed, TextOk;
    AllNamedIs(utf8, Names(r));
    assert r.receiptDirectory in Names(r) && r.effectId in Names(r) && r.inputDigest in Names(r) && r.daemonEpoch in Names(r);
    assert r.supervisorNonce in Names(r) && r.jobName in Names(r) && r.cwd in Names(r) && r.executable in Names(r);
  }

  lemma ListsArePlain(utf8: Text -> bool, r: Request)
    ensures (forall i :: 0 <= i < |r.argv| ==> PlainText(utf8, r.argv[i])) <==> forall t :: t in r.argv ==> TextOk(utf8, t)
    ensures (forall i :: 0 <= i < |r.env| ==> PlainVariable(utf8, r.env[i])) <==> forall v :: v in r.env ==> VariableOk(utf8, v)
  {
    forall t { PlainIsOk(utf8, t); }
    forall v { PlainVariableIsOk(utf8, v); }
    hide PlainText, TextOk, PlainVariable, VariableOk;
  }

  /** The requests that survive the round trip, in plain numbers: only the attempt id and the two output paths
      may be empty, and a list has at most 4096 entries. */
  lemma RoundTripExactly(utf8: Text -> bool, r: Request)
    ensures
      ReadRequest(utf8, Encode(r)) == Got(r, []) <==>
        && AllNamed(utf8, Names(r))
        && PlainText(utf8, r.attemptId) && PlainText(utf8, r.stdoutPath) && PlainText(utf8, r.stderrPath)
        && |r.argv| <= 4096 && (forall i :: 0 <= i < |r.argv| ==> PlainText(utf8, r.argv[i]))
        && |r.env| <= 4096 && (forall i :: 0 <= i < |r.env| ==> PlainVariable(utf8, r.env[i]))
  {
    ParserIsExact(utf8, Encode(r), r);
    NamesArePlain(utf8, r);
    ListsArePlain(utf8, r);
    PlainIsOk(utf8, r.attemptId);
    PlainIsOk(utf8, r.stdoutPath);
    PlainIsOk(utf8, r.stderrPath);
    hide PlainText, TextOk, PlainVariable, VariableOk, Encode, AllNamed, ReadRequest, NamesPresent;
  }
}
