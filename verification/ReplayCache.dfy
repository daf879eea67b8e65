/**
 The replay protection of the local IPC server: a frame is accepted inside a clock
 skew window, and its request id and nonce are remembered until they expire.
 Times are integers of the server's clock and never decrease between frames.
 */
module ReplayCache {

  /** Request ids and nonces; only equality matters. */
  type Id = nat

  /** The two kinds of keys, which the source tells apart by a prefix. */
  datatype Identity = RequestId(id: Id) | Nonce(nonce: Id)

  /** One accepted frame that the cache remembers. */
  datatype Pair = Pair(request: Id, nonce: Id, expires: int)

  /** `authentic` is whether body digest and message authentication code match. */
  datatype Frame = Frame(request: Id, nonce: Id, issuedAt: int, authentic: bool)

  datatype Arrival = Arrival(frame: Frame, observedAt: int)

  datatype Limits = Limits(skew: nat, ttl: nat, maxEntries: nat)

  // ---------------------------------------------------------------------------
  // The cache as a list of pairs
  // ---------------------------------------------------------------------------

  predicate Clashes(p: Pair, request: Id, nonce: Id) {
    p.request == request || p.nonce == nonce
  }

  predicate Knows(pairs: seq<Pair>, request: Id, nonce: Id) {
    exists i :: 0 <= i < |pairs| && Clashes(pairs[i], request, nonce)
  }

  function Unexpired(pairs: seq<Pair>, now: int): (r: seq<Pair>)
    ensures forall p :: p in r <==> p in pairs && p.expires > now
    ensures |r| <= |pairs|
  {
    if pairs == [] then []
    else
      var front, last := Unexpired(pairs[..|pairs| - 1], now), pairs[|pairs| - 1];
      assert pairs == pairs[..|pairs| - 1] + [last];
      if last.expires > now then front + [last] else front
  }

  predicate Consumes(limits: Limits, pairs: seq<Pair>, request: Id, nonce: Id, now: int) {
    var live := Unexpired(pairs, now);
    !Knows(live, request, nonce) && |live| < limits.maxEntries
  }

  function Consumed(limits: Limits, pairs: seq<Pair>, request: Id, nonce: Id, now: int): seq<Pair> {
    var live := Unexpired(pairs, now);
    if Consumes(limits, pairs, request, nonce, now) then live + [Pair(request, nonce, now + limits.ttl)] else live
  }

  // ---------------------------------------------------------------------------
  // The map of the source
  // ---------------------------------------------------------------------------

  predicate Disjoint(pairs: seq<Pair>) {
    forall i, j :: 0 <= i < j < |pairs| ==> !Clashes(pairs[i], pairs[j].request, pairs[j].nonce)
  }

  predicate Covers(pairs: seq<Pair>, k: Identity) {
    exists i :: 0 <= i < |pairs| && (k == RequestId(pairs[i].request) || k == Nonce(pairs[i].nonce))
  }

  predicate Holds(m: map<Identity, int>, p: Pair) {
    && RequestId(p.request) in m && m[RequestId(p.request)] == p.expires
    && Nonce(p.nonce) in m && m[Nonce(p.nonce)] == p.expires
  }

  /** The map holds a request entry and a nonce entry with equal expiry for every pair, and nothing else. */
  ghost predicate Represents(m: map<Identity, int>, pairs: seq<Pair>) {
    && Disjoint(pairs)
    && (forall i :: 0 <= i < |pairs| ==> Holds(m, pairs[i]))
    && (forall k :: k in m ==> Covers(pairs, k))
  }

  lemma HoldsWithout(m: map<Identity, int>, p: Pair, q: Pair)
    requires Holds(m, p) && !Clashes(p, q.request, q.nonce)
    ensures Holds(m - {RequestId(q.request), Nonce(q.nonce)}, p)
  {
  }

  lemma CoveredByFront(front: seq<Pair>, last: Pair, k: Identity)
    requires Covers(front + [last], k) && k != RequestId(last.request) && k != Nonce(last.nonce)
    ensures Covers(front, k)
  {
    var pairs := front + [last];
    var i :| 0 <= i < |pairs| && (k == RequestId(pairs[i].request) || k == Nonce(pairs[i].nonce));
    assert front[i] == pairs[i];
  }

  lemma WithoutLast(m: map<Identity, int>, front: seq<Pair>, last: Pair)
    requires Represents(m, front + [last])
    ensures Holds(m, last)
    ensures Represents(m - {RequestId(last.request), Nonce(last.nonce)}, front)
  {
    hide Holds, Clashes, Covers;
    var pairs := front + [last];
    var rest := m - {RequestId(last.request), Nonce(last.nonce)};
    assert pairs[|front|] == last;
    forall i | 0 <= i < |front| ensures Holds(rest, front[i]) {
      assert front[i] == pairs[i] && !Clashes(pairs[i], pairs[|front|].request, pairs[|front|].nonce);
      HoldsWithout(m, front[i], last);
    }
    forall i, j | 0 <= i < j < |front| ensures !Clashes(front[i], front[j].request, front[j].nonce) {
      assert !Clashes(pairs[i], pairs[j].request, pairs[j].nonce);
    }
    forall k | k in rest ensures Covers(front, k) { CoveredByFront(front, last, k); }
  }

  lemma {:induction false} EntriesComeInPairs(m: map<Identity, int>, pairs: seq<Pair>)
    requires Represents(m, pairs)
    ensures |m| == 2 * |pairs|
    decreases |pairs|
  {
    if pairs == [] {
      assert m.Keys == {};
    } else {
      var front, last := pairs[..|pairs| - 1], pairs[|pairs| - 1];
      var both := {RequestId(last.request), Nonce(last.nonce)};
      assert pairs == front + [last];
      WithoutLast(m, front, last);
      hide Represents;
      EntriesComeInPairs(m - both, front);
      assert m.Keys == (m - both).Keys + both;
    }
  }

  function Swept(m: map<Identity, int>, now: int): map<Identity, int> {
    map k | k in m && m[k] > now :: m[k]
  }

  lemma {:induction false} UnexpiredDisjoint(pairs: seq<Pair>, now: int)
    requires Disjoint(pairs)
    ensures Disjoint(Unexpired(pairs, now))
    decreases |pairs|
  {
    if pairs != [] {
      var front, last := pairs[..|pairs| - 1], pairs[|pairs| - 1];
      UnexpiredDisjoint(front, now);
      var r := Unexpired(front, now);
      forall i | 0 <= i < |r| ensures !Clashes(r[i], last.request, last.nonce) {
        assert r[i] in front;
      }
    }
  }

  lemma SweptCovers(pairs: seq<Pair>, m: map<Identity, int>, now: int, k: Identity)
    requires Represents(m, pairs) && k in Swept(m, now)
    ensures Covers(Unexpired(pairs, now), k)
  {
    var live := Unexpired(pairs, now);
    assert Covers(pairs, k);
    var i :| 0 <= i < |pairs| && (k == RequestId(pairs[i].request) || k == Nonce(pairs[i].nonce));
    assert Holds(m, pairs[i]);
    assert pairs[i] in live;
    var j :| 0 <= j < |live| && live[j] == pairs[i];
  }

  lemma SweptRepresents(m: map<Identity, int>, pairs: seq<Pair>, now: int)
    requires Represents(m, pairs)
    ensures Represents(Swept(m, now), Unexpired(pairs, now))
  {
    hide Covers, Unexpired, Disjoint;
    var live := Unexpired(pairs, now);
    UnexpiredDisjoint(pairs, now);
    forall i | 0 <= i < |live| ensures Holds(Swept(m, now), live[i]) {
      assert live[i] in live;
      var j :| 0 <= j < |pairs| && pairs[j] == live[i];
      assert Holds(m, pairs[j]);
    }
    forall k | k in Swept(m, now) ensures Covers(live, k) { SweptCovers(pairs, m, now, k); }
  }

  lemma CoversMore(pairs: seq<Pair>, p: Pair, k: Identity)
    ensures Covers(pairs, k) ==> Covers(pairs + [p], k)
    ensures Covers(pairs + [p], RequestId(p.request)) && Covers(pairs + [p], Nonce(p.nonce))
  {
    var after := pairs + [p];
    assert after[|pairs|] == p;
    if Covers(pairs, k) {
      var i :| 0 <= i < |pairs| && (k == RequestId(pairs[i].request) || k == Nonce(pairs[i].nonce));
      assert after[i] == pairs[i];
    }
  }

  function Entered(m: map<Identity, int>, p: Pair): map<Identity, int> {
    m[RequestId(p.request) := p.expires][Nonce(p.nonce) := p.expires]
  }

  lemma AddedRepresents(m: map<Identity, int>, pairs: seq<Pair>, p: Pair)
    requires Represents(m, pairs) && !Knows(pairs, p.request, p.nonce)
    ensures Represents(Entered(m, p), pairs + [p])
  {
    hide Covers;
    var after := pairs + [p];
    forall i | 0 <= i < |pairs| ensures after[i] == pairs[i] && Holds(Entered(m, p), pairs[i]) && !Clashes(pairs[i], p.request, p.nonce) {
      assert Holds(m, pairs[i]);
    }
    forall k | k in Entered(m, p) ensures Covers(after, k) { CoversMore(pairs, p, k); }
  }

  /** The map while the entries under `pending` have not been visited. */
  function PartlySwept(m: map<Identity, int>, pending: set<Identity>, now: int): map<Identity, int> {
    map k | k in m && (k in pending || m[k] > now) :: m[k]
  }

  lemma AllPending(m: map<Identity, int>, now: int)
    ensures PartlySwept(m, m.Keys, now) == m && PartlySwept(m, {}, now) == Swept(m, now)
  {
  }

  lemma Visited(m: map<Identity, int>, pending: set<Identity>, now: int, k: Identity)
    requires k in pending && pending <= m.Keys
    ensures
      var before := PartlySwept(m, pending, now);
      && k in before && before[k] == m[k]
      && PartlySwept(m, pending - {k}, now) == if m[k] <= now then before - {k} else before
  {
    var before, after := PartlySwept(m, pending, now), PartlySwept(m, pending - {k}, now);
    if m[k] <= now { assert after.Keys == (before - {k}).Keys; } else { assert after.Keys == before.Keys; }
  }

  class ExpiringNonceReplayCache {
    var expirations: map<Identity, int>
    const limits: Limits
    ghost var pairs: seq<Pair>

    ghost predicate Valid()
      reads this
    {
      Represents(expirations, pairs) && |pairs| <= limits.maxEntries
    }

    constructor (limits: Limits)
      ensures Valid() && pairs == [] && this.limits == limits
    {
      this.limits := limits;
      expirations := map[];
      pairs := [];
    }

    /** The entries come in pairs with equal expiry, and there are at most twice maxEntries of them. */
    lemma Bounded()
      requires Valid()
      ensures |expirations| == 2 * |pairs| <= 2 * limits.maxEntries
    {
      EntriesComeInPairs(expirations, pairs);
    }

    method Sweep(now: int)
      requires Valid()
      modifies this`expirations
      ensures expirations == Swept(old(expirations), now)
    {
      hide Valid;
      ghost var before := expirations;
      var pending := expirations.Keys;
      AllPending(before, now);
      while pending != {}
        invariant pending <= before.Keys && expirations == PartlySwept(before, pending, now)
        decreases pending
      {
        var k :| k in pending;
        if expirations[k] <= now {
          expirations := expirations - {k};
        }
        Visited(before, pending, now, k);
        pending := pending - {k};
      }
    }

    method Consume(request: Id, nonce: Id, observedAt: int) returns (accepted: bool)
      requires Valid()
      modifies this
      ensures Valid()
      ensures accepted == Consumes(limits, old(pairs), request, nonce, observedAt)
      ensures pairs == Consumed(limits, old(pairs), request, nonce, observedAt)
    {
      hide Represents, Knows, Swept, Unexpired, Clashes;
      Sweep(observedAt);
      SweptRepresents(old(expirations), pairs, observedAt);
      pairs := Unexpired(pairs, observedAt);
      KnownEntries(expirations, pairs, request, nonce);
      if RequestId(request) in expirations || Nonce(nonce) in expirations {
        return false;
      }
      EntriesComeInPairs(expirations, pairs);
      // size / 2 >= maxEntries, without rounding
      if |expirations| >= 2 * limits.maxEntries {
        return false;
      }
      AddedRepresents(expirations, pairs, Pair(request, nonce, observedAt + limits.ttl));
      expirations := expirations[RequestId(request) := observedAt + limits.ttl][Nonce(nonce) := observedAt + limits.ttl];
      pairs := pairs + [Pair(request, nonce, observedAt + limits.ttl)];
      return true;
    }

    /** The checks of processFrame before the request is dispatched. */
    method ProcessFrame(frame: Frame, observedAt: int) returns (accepted: bool)
      requires Valid()
      modifies this
      ensures Valid()
      ensures accepted == Accepts(limits, old(pairs), Arrival(frame, observedAt))
      ensures pairs == After(limits, old(pairs), Arrival(frame, observedAt))
    {
      var distance := if observedAt >= frame.issuedAt then observedAt - frame.issuedAt else frame.issuedAt - observedAt;
      if distance > limits.skew || !frame.authentic {
        return false;
      }
      accepted := Consume(frame.request, frame.nonce, observedAt);
    }
  }

  lemma KnownEntries(m: map<Identity, int>, pairs: seq<Pair>, request: Id, nonce: Id)
    requires Represents(m, pairs)
    ensures RequestId(request) in m || Nonce(nonce) in m <==> Knows(pairs, request, nonce)
  {
    if RequestId(request) in m { assert Covers(pairs, RequestId(request)); }
    if Nonce(nonce) in m { assert Covers(pairs, Nonce(nonce)); }
  }

  // ---------------------------------------------------------------------------
  // Runs of the server
  // ---------------------------------------------------------------------------

  predicate InWindow(limits: Limits, a: Arrival) {
    a.observedAt - a.frame.issuedAt <= limits.skew && a.frame.issuedAt - a.observedAt <= limits.skew
  }

  predicate Accepts(limits: Limits, pairs: seq<Pair>, a: Arrival) {
    InWindow(limits, a) && a.frame.authentic && Consumes(limits, pairs, a.frame.request, a.frame.nonce, a.observedAt)
  }

  function After(limits: Limits, pairs: seq<Pair>, a: Arrival): seq<Pair> {
    if InWindow(limits, a) && a.frame.authentic
    then Consumed(limits, pairs, a.frame.request, a.frame.nonce, a.observedAt)
    else pairs
  }

  /** The cache before arrival `n`. */
  function Before(limits: Limits, arrivals: seq<Arrival>, n: nat): seq<Pair>
    requires n <= |arrivals|
  {
    if n == 0 then [] else After(limits, Before(limits, arrivals, n - 1), arrivals[n - 1])
  }

  predicate Accepted(limits: Limits, arrivals: seq<Arrival>, n: nat)
    requires n < |arrivals|
  {
    Accepts(limits, Before(limits, arrivals, n), arrivals[n])
  }

  predicate Ordered(arrivals: seq<Arrival>) {
    forall i, j :: 0 <= i < j < |arrivals| ==> arrivals[i].observedAt <= arrivals[j].observedAt
  }

  predicate SameFrame(f: Frame, g: Frame) {
    f.issuedAt == g.issuedAt && (f.request == g.request || f.nonce == g.nonce)
  }

  /** An accepted frame stays known until its entries expire. */
  lemma {:induction false} KnownUntilExpiry(limits: Limits, arrivals: seq<Arrival>, i: nat, n: nat)
    requires Ordered(arrivals) && i < n <= |arrivals| && Accepted(limits, arrivals, i)
    requires n < |arrivals| ==> arrivals[n - 1].observedAt <= arrivals[n].observedAt
    requires i < n - 1 ==> arrivals[n - 1].observedAt < arrivals[i].observedAt + limits.ttl
    ensures Pair(arrivals[i].frame.request, arrivals[i].frame.nonce, arrivals[i].observedAt + limits.ttl) in Before(limits, arrivals, n)
  {
    if i < n - 1 { KnownUntilExpiry(limits, arrivals, i, n - 1); }
  }

  lemma StillKnown(limits: Limits, arrivals: seq<Arrival>, i: nat, j: nat)
    requires Ordered(arrivals) && i < j < |arrivals| && Accepted(limits, arrivals, i)
    requires arrivals[i].frame.request == arrivals[j].frame.request || arrivals[i].frame.nonce == arrivals[j].frame.nonce
    requires arrivals[j].observedAt < arrivals[i].observedAt + limits.ttl
    ensures Knows(Unexpired(Before(limits, arrivals, j), arrivals[j].observedAt), arrivals[j].frame.request, arrivals[j].frame.nonce)
  {
    KnownUntilExpiry(limits, arrivals, i, j);
    var p := Pair(arrivals[i].frame.request, arrivals[i].frame.nonce, arrivals[i].observedAt + limits.ttl);
    var live := Unexpired(Before(limits, arrivals, j), arrivals[j].observedAt);
    assert p in live;
    var k :| 0 <= k < |live| && live[k] == p;
    assert Clashes(live[k], arrivals[j].frame.request, arrivals[j].frame.nonce);
  }

  /** The frames accepted before arrival `n` whose time to live is not over at `now`. */
  function Remembered(limits: Limits, arrivals: seq<Arrival>, n: nat, now: int): seq<Pair>
    requires n <= |arrivals|
  {
    if n == 0 then []
    else
      var a := arrivals[n - 1];
      Remembered(limits, arrivals, n - 1, now)
      + if Accepted(limits, arrivals, n - 1) && now - a.observedAt < limits.ttl
        then [Pair(a.frame.request, a.frame.nonce, a.observedAt + limits.ttl)] else []
  }

  lemma {:induction false} UnexpiredLater(pairs: seq<Pair>, now: int, later: int)
    requires now <= later
    ensures Unexpired(Unexpired(pairs, now), later) == Unexpired(pairs, later)
    decreases |pairs|
  {
    if pairs != [] {
      var front, last := pairs[..|pairs| - 1], pairs[|pairs| - 1];
      UnexpiredLater(front, now, later);
      if last.expires > now { UnexpiredMore(Unexpired(front, now), last, later); }
    }
  }

  lemma UnexpiredMore(pairs: seq<Pair>, p: Pair, now: int)
    ensures Unexpired(pairs + [p], now) == Unexpired(pairs, now) + if p.expires > now then [p] else []
  {
    assert (pairs + [p])[..|pairs|] == pairs;
  }

  lemma UnexpiredAfter(limits: Limits, pairs: seq<Pair>, a: Arrival, now: int)
    requires a.observedAt <= now
    ensures
      Unexpired(After(limits, pairs, a), now)
      == Unexpired(pairs, now)
       + if Accepts(limits, pairs, a) && now - a.observedAt < limits.ttl then [Pair(a.frame.request, a.frame.nonce, a.observedAt + limits.ttl)] else []
  {
    UnexpiredLater(pairs, a.observedAt, now);
    UnexpiredMore(Unexpired(pairs, a.observedAt), Pair(a.frame.request, a.frame.nonce, a.observedAt + limits.ttl), now);
    hide Unexpired, Knows;
  }

  /** The cache remembers exactly the accepted frames of one time to live. */
  lemma {:induction false} CacheRemembersAccepted(limits: Limits, arrivals: seq<Arrival>, n: nat, now: int)
    requires Ordered(arrivals) && n <= |arrivals| && forall i :: 0 <= i < n ==> arrivals[i].observedAt <= now
    ensures Unexpired(Before(limits, arrivals, n), now) == Remembered(limits, arrivals, n, now)
  {
    hide Unexpired, After, Accepts;
    if n > 0 {
      CacheRemembersAccepted(limits, arrivals, n - 1, now);
      UnexpiredAfter(limits, Before(limits, arrivals, n - 1), arrivals[n - 1], now);
    } else {
      assert Unexpired([], now) == [] by { NothingUnexpired(now); }
    }
  }

  lemma NothingUnexpired(now: int)
    ensures Unexpired([], now) == []
  {
  }

  /** An earlier frame with the request id or the nonce was accepted less than one time to live ago. */
  ghost predicate RecentlyAccepted(limits: Limits, arrivals: seq<Arrival>, n: nat, request: Id, nonce: Id, now: int)
    requires n <= |arrivals|
  {
    exists i :: 0 <= i < n && Accepted(limits, arrivals, i) && now - arrivals[i].observedAt < limits.ttl
             && (arrivals[i].frame.request == request || arrivals[i].frame.nonce == nonce)
  }

  lemma {:induction false} RememberedClash(limits: Limits, arrivals: seq<Arrival>, n: nat, request: Id, nonce: Id, now: int)
    requires n <= |arrivals|
    ensures Knows(Remembered(limits, arrivals, n, now), request, nonce) <==> RecentlyAccepted(limits, arrivals, n, request, nonce, now)
  {
    hide Accepted, Knows;
    if n > 0 {
      RememberedClash(limits, arrivals, n - 1, request, nonce, now);
      var front := Remembered(limits, arrivals, n - 1, now);
      var a := arrivals[n - 1];
      KnowsMore(front, Pair(a.frame.request, a.frame.nonce, a.observedAt + limits.ttl), request, nonce);
      assert front + [] == front;
    } else {
      assert !Knows([], request, nonce) by { KnowsNothing(request, nonce); }
    }
  }

  lemma KnowsNothing(request: Id, nonce: Id)
    ensures !Knows([], request, nonce)
  {
  }

  lemma KnowsMore(pairs: seq<Pair>, p: Pair, request: Id, nonce: Id)
    ensures Knows(pairs + [p], request, nonce) <==> Knows(pairs, request, nonce) || Clashes(p, request, nonce)
  {
    var more := pairs + [p];
    if Knows(pairs, request, nonce) {
      var i :| 0 <= i < |pairs| && Clashes(pairs[i], request, nonce);
      assert Clashes(more[i], request, nonce);
    }
    if Clashes(p, request, nonce) { assert Clashes(more[|pairs|], request, nonce); }
  }

  /** A frame is accepted exactly when it is authentic, within the skew of the clock, shares its request id and
      its nonce with no frame accepted less than one time to live ago, and fewer than maxEntries were. */
  lemma AcceptedExactly(limits: Limits, arrivals: seq<Arrival>, n: nat)
    requires Ordered(arrivals) && n < |arrivals|
    ensures
      var a := arrivals[n];
      Accepted(limits, arrivals, n) <==>
        && a.frame.authentic && a.frame.issuedAt - limits.skew <= a.observedAt <= a.frame.issuedAt + limits.skew
        && !RecentlyAccepted(limits, arrivals, n, a.frame.request, a.frame.nonce, a.observedAt)
        && |Remembered(limits, arrivals, n, a.observedAt)| < limits.maxEntries
  {
    var a := arrivals[n];
    CacheRemembersAccepted(limits, arrivals, n, a.observedAt);
    RememberedClash(limits, arrivals, n, a.frame.request, a.frame.nonce, a.observedAt);
    hide Knows, Remembered, RecentlyAccepted, Before;
  }

  /** A frame accepted twice is accepted the second time no earlier than one ttl after the first. */
  lemma SecondAcceptanceIsLate(limits: Limits, arrivals: seq<Arrival>, i: nat, j: nat)
    requires Ordered(arrivals) && i < j < |arrivals| && Accepted(limits, arrivals, i) && Accepted(limits, arrivals, j)
    requires arrivals[i].frame.request == arrivals[j].frame.request || arrivals[i].frame.nonce == arrivals[j].frame.nonce
    ensures arrivals[j].observedAt >= arrivals[i].observedAt + limits.ttl
  {
    if arrivals[j].observedAt < arrivals[i].observedAt + limits.ttl { StillKnown(limits, arrivals, i, j); }
  }

  /** With a ttl of twice the skew, a second acceptance takes both end instants of the window. */
  lemma OnlyAtTheEndInstants(limits: Limits, arrivals: seq<Arrival>, i: nat, j: nat)
    requires limits.ttl >= 2 * limits.skew
    requires Ordered(arrivals) && i < j < |arrivals| && Accepted(limits, arrivals, i) && Accepted(limits, arrivals, j)
    requires SameFrame(arrivals[i].frame, arrivals[j].frame)
    ensures limits.ttl == 2 * limits.skew
    ensures arrivals[i].observedAt == arrivals[i].frame.issuedAt - limits.skew
    ensures arrivals[j].observedAt == arrivals[i].frame.issuedAt + limits.skew
  {
    SecondAcceptanceIsLate(limits, arrivals, i, j);
  }

  ghost predicate NeverTwice(limits: Limits) {
    forall arrivals: seq<Arrival>, i: nat, j: nat ::
      Ordered(arrivals) && i < j < |arrivals| && Accepted(limits, arrivals, i) && Accepted(limits, arrivals, j)
      ==> !SameFrame(arrivals[i].frame, arrivals[j].frame)
  }

  /** One frame, at the two end instants. */
  lemma TwiceAtTheEnds(limits: Limits)
    requires limits.maxEntries > 0 && limits.ttl <= 2 * limits.skew
    ensures !NeverTwice(limits)
  {
    var f := Frame(0, 0, limits.skew, true);
    var arrivals := [Arrival(f, 0), Arrival(f, limits.ttl)];
    FirstIsAccepted(limits, f);
    ExpiredIsAccepted(limits, f);
    assert Before(limits, arrivals, 0) == [];
    assert Before(limits, arrivals, 1) == After(limits, [], arrivals[0]);
    hide Before, Accepts, After;
    assert Accepted(limits, arrivals, 0) && Accepted(limits, arrivals, 1);
    assert Ordered(arrivals) && SameFrame(arrivals[0].frame, arrivals[1].frame);
  }

  lemma FirstIsAccepted(limits: Limits, f: Frame)
    requires limits.maxEntries > 0 && f == Frame(0, 0, limits.skew, true)
    ensures Accepts(limits, [], Arrival(f, 0))
    ensures After(limits, [], Arrival(f, 0)) == [Pair(0, 0, limits.ttl)]
  {
    assert Unexpired([], 0) == [];
  }

  lemma ExpiredIsAccepted(limits: Limits, f: Frame)
    requires limits.maxEntries > 0 && limits.ttl <= 2 * limits.skew && f == Frame(0, 0, limits.skew, true)
    ensures Accepts(limits, [Pair(0, 0, limits.ttl)], Arrival(f, limits.ttl))
  {
    assert Unexpired([Pair(0, 0, limits.ttl)], limits.ttl) == [];
  }

  /** No frame is accepted twice, in any run, exactly when the ttl exceeds twice the skew. */
  lemma NeverTwiceExactly(limits: Limits)
    requires limits.maxEntries > 0
    ensures NeverTwice(limits) <==> limits.ttl > 2 * limits.skew
  {
    if limits.ttl > 2 * limits.skew {
      forall arrivals: seq<Arrival>, i: nat, j: nat | Ordered(arrivals) && i < j < |arrivals| && Accepted(limits, arrivals, i) && Accepted(limits, arrivals, j)
        ensures !SameFrame(arrivals[i].frame, arrivals[j].frame)
      {
        if SameFrame(arrivals[i].frame, arrivals[j].frame) { OnlyAtTheEndInstants(limits, arrivals, i, j); }
      }
    } else {
      TwiceAtTheEnds(limits);
    }
  }
}
