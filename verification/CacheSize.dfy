/** What the size of the cache can and cannot change: the recency list as keys
    and times of expiry, over whole runs of requests and invalidations. */
module CacheSize {
  import opened Common
  import opened Invalidation
  import opened CacheStore

  /** The two bounds: entries beside the newest, and bytes (no bound when 0). */
  datatype Bounds = Bounds(room: nat, limit: int)

  /** A stored answer: its key, and the last moment it may be served. */
  datatype Copy = Copy(key: Key, until: int)

  /** A request for a key at a time, with the expiry its answer gets if it is
      fetched then; or keys dropped by a write or a flush. */
  datatype Op = Ask(key: Key, now: int, until: int) | Forget(gone: set<Key>)

  function Minus(l: seq<Copy>, gone: set<Key>): seq<Copy> {
    if l == [] then [] else if l[0].key in gone then Minus(l[1..], gone) else [l[0]] + Minus(l[1..], gone)
  }

  function Sum(l: seq<Copy>, size: Key -> nat): nat {
    if l == [] then 0 else size(l[0].key) + Sum(l[1..], size)
  }

  predicate Fitting(l: seq<Copy>, q: nat, b: Bounds, first: nat, size: Key -> nat)
    requires q <= |l|
  {
    q == 0 || (q <= b.room && (b.limit > 0 ==> first + Sum(l[..q], size) <= b.limit))
  }

  function Stay(l: seq<Copy>, n: nat, b: Bounds, first: nat, size: Key -> nat): (q: nat)
    requires n <= |l|
    ensures q <= n && Fitting(l, q, b, first, size)
    ensures forall p: nat {:trigger Fitting(l, p, b, first, size)} | q < p <= n :: !Fitting(l, p, b, first, size)
  {
    if Fitting(l, n, b, first, size) then n else Stay(l, n - 1, b, first, size)
  }

  /** A copy stored in front of the others, as many of which stay as fit. */
  function Stored(l: seq<Copy>, c: Copy, b: Bounds, size: Key -> nat): seq<Copy> {
    [c] + l[..Stay(l, |l|, b, size(c.key), size)]
  }

  /** Where the list holds a key; |l| when it does not. */
  function Find(l: seq<Copy>, k: Key): (i: nat)
    ensures i <= |l| && (i < |l| ==> l[i].key == k) && forall j :: 0 <= j < i ==> l[j].key != k
  {
    if l == [] || l[0].key == k then 0 else 1 + Find(l[1..], k)
  }

  predicate Hit(l: seq<Copy>, k: Key, now: int) { Find(l, k) < |l| && now <= l[Find(l, k)].until }

  predicate Expired(l: seq<Copy>, k: Key, now: int) { Find(l, k) < |l| && now > l[Find(l, k)].until }

  /** What one step leaves of the cache. A key asked for and not there, or there
      and expired, is fetched and stored; what answers it has one size. */
  function Step(l: seq<Copy>, op: Op, b: Bounds, size: Key -> nat): seq<Copy> {
    match op
    case Forget(gone) => Minus(l, gone)
    case Ask(k, now, until) =>
      if Hit(l, k, now) then [l[Find(l, k)]] + Minus(l, {k}) else Stored(Minus(l, {k}), Copy(k, until), b, size)
  }

  function Run(ops: seq<Op>, b: Bounds, size: Key -> nat): seq<Copy>
    decreases |ops|
  {
    if ops == [] then [] else Step(Run(ops[..|ops| - 1], b, size), ops[|ops| - 1], b, size)
  }

  predicate Wider(b: Bounds, b': Bounds) {
    b.room <= b'.room && (b'.limit > 0 ==> 0 < b.limit <= b'.limit)
  }

  /** The same keys in the same order, as far as l goes. */
  predicate HeldBy(l: seq<Copy>, m: seq<Copy>) {
    |l| <= |m| && forall i :: 0 <= i < |l| ==> l[i].key == m[i].key
  }

  // --- lists of copies ---

  lemma {:induction false} MinusNone(l: seq<Copy>, gone: set<Key>)
    requires forall c | c in l :: c.key !in gone
    ensures Minus(l, gone) == l
  {
    if l != [] { MinusNone(l[1..], gone); }
  }

  predicate OneEach(l: seq<Copy>) { forall i, j :: 0 <= i < j < |l| ==> l[i].key != l[j].key }

  lemma MinusAbsent(l: seq<Copy>, k: Key)
    requires Find(l, k) == |l|
    ensures Minus(l, {k}) == l
  {
    MinusNone(l, {k});
  }

  lemma TailOnce(l: seq<Copy>)
    requires OneEach(l) && l != []
    ensures OneEach(l[1..]) && forall c | c in l[1..] :: c.key != l[0].key
  {
    assert forall i :: 0 <= i < |l[1..]| ==> l[1..][i] == l[i + 1];
  }

  lemma {:induction false} MinusMembers(l: seq<Copy>, gone: set<Key>)
    ensures forall c | c in Minus(l, gone) :: c in l && c.key !in gone
    ensures OneEach(l) ==> OneEach(Minus(l, gone))
    ensures |Minus(l, gone)| <= |l|
  {
    if l != [] {
      MinusMembers(l[1..], gone);
      assert OneEach(l) ==> OneEach(l[1..]) by { assert forall i :: 0 <= i < |l[1..]| ==> l[1..][i] == l[i + 1]; }
      assert OneEach(l) ==> forall c | c in l[1..] :: c.key != l[0].key;
    }
  }

  lemma {:induction false} MinusLess(l: seq<Copy>, gone: set<Key>, size: Key -> nat)
    ensures Sum(Minus(l, gone), size) <= Sum(l, size)
  {
    if l != [] { MinusLess(l[1..], gone, size); }
  }

  // Lists with the same keys are of the same size, key by key.
  lemma {:induction false} SumHeld(l: seq<Copy>, m: seq<Copy>, size: Key -> nat)
    requires HeldBy(l, m)
    ensures Sum(l, size) == Sum(m[..|l|], size)
  {
    if l != [] {
      assert m[..|l|][1..] == m[1..][..|l| - 1];
      SumHeld(l[1..], m[1..], size);
    }
  }

  lemma {:induction false} MinusHeld(l: seq<Copy>, m: seq<Copy>, gone: set<Key>)
    requires HeldBy(l, m)
    ensures HeldBy(Minus(l, gone), Minus(m, gone))
  {
    if l != [] {
      assert forall i :: 0 <= i < |l[1..]| ==> l[1..][i] == l[i + 1] && m[1..][i] == m[i + 1];
      MinusHeld(l[1..], m[1..], gone);
    }
  }

  // --- both bounds hold, and a key is held once ---

  /** A list as the store keeps it: each key once, both bounds held by what
      stands beside the newest entry. */
  predicate Kept(l: seq<Copy>, b: Bounds, size: Key -> nat) {
    && OneEach(l) && |l| <= b.room + 1
    && (|l| > 1 && b.limit > 0 ==> Sum(l, size) <= b.limit)
  }

  lemma SumFront(c: Copy, l: seq<Copy>, size: Key -> nat)
    ensures Sum([c] + l, size) == size(c.key) + Sum(l, size)
  {
    assert ([c] + l)[1..] == l;
  }

  // Taking a key out of a list that holds it once.
  lemma {:induction false} MinusSum(l: seq<Copy>, k: Key, size: Key -> nat)
    requires OneEach(l) && Find(l, k) < |l|
    ensures |Minus(l, {k})| == |l| - 1 && Sum(Minus(l, {k}), size) == Sum(l, size) - size(k)
  {
    TailOnce(l);
    hide OneEach;
    if l[0].key == k {
      MinusNone(l[1..], {k});
    } else {
      MinusSum(l[1..], k, size);
      SumFront(l[0], Minus(l[1..], {k}), size);
    }
  }

  // An expired copy makes room for its successor: all the others stay.
  lemma StaleStays(l: seq<Copy>, k: Key, b: Bounds, size: Key -> nat)
    requires Kept(l, b, size) && Find(l, k) < |l|
    ensures var rest := Minus(l, {k}); Stay(rest, |rest|, b, size(k), size) == |rest|
  {
    var rest := Minus(l, {k});
    MinusSum(l, k, size);
    assert rest[..|rest|] == rest;
    assert Fitting(rest, |rest|, b, size(k), size);
  }

  // The keys a step leaves do not depend on what has expired.
  lemma {:induction false} StepIs(l: seq<Copy>, k: Key, now: int, until: int, b: Bounds, size: Key -> nat)
    requires Kept(l, b, size)
    ensures var c := if Hit(l, k, now) then l[Find(l, k)] else Copy(k, until);
            && c.key == k
            && Step(l, Ask(k, now, until), b, size) ==
               if Find(l, k) < |l| then [c] + Minus(l, {k}) else Stored(l, c, b, size)
  {
    if Find(l, k) < |l| {
      StaleStays(l, k, b, size);
      var rest := Minus(l, {k});
      assert rest[..|rest|] == rest;
    } else {
      MinusAbsent(l, k);
    }
  }

  lemma StepKeeps(l: seq<Copy>, op: Op, b: Bounds, size: Key -> nat)
    requires Kept(l, b, size)
    ensures Kept(Step(l, op, b, size), b, size)
  {
    match op
    case Forget(gone) =>
      MinusMembers(l, gone);
      MinusLess(l, gone, size);
    case Ask(k, now, until) =>
      StepIs(l, k, now, until, b, size);
      MinusMembers(l, {k});
      var c := if Hit(l, k, now) then l[Find(l, k)] else Copy(k, until);
      if Find(l, k) < |l| {
        MinusSum(l, k, size);
        SumFront(c, Minus(l, {k}), size);
      } else {
        var q := Stay(l, |l|, b, size(k), size);
        SumFront(c, l[..q], size);
      }
  }

  lemma {:induction false} RunKept(ops: seq<Op>, b: Bounds, size: Key -> nat)
    ensures Kept(Run(ops, b, size), b, size)
    decreases |ops|
  {
    if ops != [] {
      RunKept(ops[..|ops| - 1], b, size);
      StepKeeps(Run(ops[..|ops| - 1], b, size), ops[|ops| - 1], b, size);
    }
  }

  // --- more memory ---

  // A smaller cache holds the most recent part of a larger one, after a step too.
  lemma StepHeld(small: seq<Copy>, large: seq<Copy>, op: Op, b: Bounds, b': Bounds, size: Key -> nat)
    requires HeldBy(small, large) && Wider(b, b') && Kept(small, b, size) && Kept(large, b', size)
    ensures HeldBy(Step(small, op, b, size), Step(large, op, b', size))
  {
    match op
    case Forget(gone) => MinusHeld(small, large, gone);
    case Ask(k, now, until) =>
      StepIs(small, k, now, until, b, size);
      StepIs(large, k, now, until, b', size);
      MinusHeld(small, large, {k});
      var c := if Hit(small, k, now) then small[Find(small, k)] else Copy(k, until);
      var d := if Hit(large, k, now) then large[Find(large, k)] else Copy(k, until);
      hide *;
      if Find(small, k) < |small| {
        FindHeld(small, large, k);
        FrontHeld(Minus(small, {k}), Minus(large, {k}), c, d);
      } else {
        AbsentHeld(small, large, c, d, b, b', size);
      }
  }

  lemma FrontHeld(l: seq<Copy>, m: seq<Copy>, c: Copy, d: Copy)
    requires HeldBy(l, m) && c.key == d.key
    ensures HeldBy([c] + l, [d] + m)
  {
  }

  // A key the smaller cache has to fetch.
  lemma {:induction false} AbsentHeld(small: seq<Copy>, large: seq<Copy>, c: Copy, d: Copy, b: Bounds, b': Bounds, size: Key -> nat)
    requires HeldBy(small, large) && Wider(b, b') && Kept(small, b, size) && c.key == d.key && Find(small, c.key) == |small|
    requires HeldBy(Minus(small, {c.key}), Minus(large, {c.key}))
    ensures HeldBy(Stored(small, c, b, size),
                   if Find(large, c.key) < |large| then [d] + Minus(large, {c.key}) else Stored(large, d, b', size))
  {
    var k := c.key;
    var q := Stay(small, |small|, b, size(k), size);
    MinusAbsent(small, k);
    if Find(large, k) < |large| {
      FrontHeld(small[..q], Minus(large, {k}), c, d);
    } else {
      SumHeld(small[..q], large, size);
      assert Fitting(large, q, b', size(k), size);
      FrontHeld(small[..q], large[..Stay(large, |large|, b', size(k), size)], c, d);
    }
  }

  lemma {:induction false} FindHeld(small: seq<Copy>, large: seq<Copy>, k: Key)
    requires HeldBy(small, large) && Find(small, k) < |small|
    ensures Find(large, k) == Find(small, k)
  {
    if small[0].key != k {
      assert forall i :: 0 <= i < |small[1..]| ==> small[1..][i] == small[i + 1] && large[1..][i] == large[i + 1];
      FindHeld(small[1..], large[1..], k);
    }
  }

  /** A cache with wider bounds holds the keys a narrower one holds, in the same
      order, and more: over every run, whenever entries expire. */
  lemma {:induction false} MoreMemoryHoldsMore(ops: seq<Op>, b: Bounds, b': Bounds, size: Key -> nat)
    requires Wider(b, b')
    ensures HeldBy(Run(ops, b, size), Run(ops, b', size))
    decreases |ops|
  {
    if ops != [] {
      var init := ops[..|ops| - 1];
      MoreMemoryHoldsMore(init, b, b', size);
      RunKept(init, b, size);
      RunKept(init, b', size);
      StepHeld(Run(init, b, size), Run(init, b', size), ops[|ops| - 1], b, b', size);
    }
  }

  /** It loses a hit exactly when its own copy, which it kept for longer, has
      expired while the other cache's has not. */
  lemma HitIsLostWhenExpired(ops: seq<Op>, b: Bounds, b': Bounds, size: Key -> nat, k: Key, now: int)
    requires Wider(b, b') && Hit(Run(ops, b, size), k, now)
    ensures Hit(Run(ops, b', size), k, now) <==> !Expired(Run(ops, b', size), k, now)
  {
    MoreMemoryHoldsMore(ops, b, b', size);
    FindHeld(Run(ops, b, size), Run(ops, b', size), k);
  }

  /** No key is asked for after an expiry it was given before. */
  predicate Outlasted(ops: seq<Op>, k: Key, now: int) {
    forall i :: 0 <= i < |ops| && ops[i].Ask? && ops[i].key == k ==> now <= ops[i].until
  }

  // A copy has the expiry of a request for its key.
  lemma {:induction false} CopyFrom(ops: seq<Op>, b: Bounds, size: Key -> nat, c: Copy) returns (i: nat)
    requires c in Run(ops, b, size)
    ensures i < |ops| && ops[i].Ask? && ops[i].key == c.key && ops[i].until == c.until
    decreases |ops|
  {
    var init, last := ops[..|ops| - 1], ops[|ops| - 1];
    var l := Run(init, b, size);
    MinusMembers(l, if last.Ask? then {last.key} else last.gone);
    if last.Ask? && c == Copy(last.key, last.until) {
      i := |ops| - 1;
    } else {
      assert c in l;
      i := CopyFrom(init, b, size, c);
    }
  }

  /** So it loses none of a key while that key's lifetimes last. */
  lemma MoreMemoryKeepsHits(ops: seq<Op>, b: Bounds, b': Bounds, size: Key -> nat, k: Key, now: int)
    requires Wider(b, b') && Outlasted(ops, k, now) && Hit(Run(ops, b, size), k, now)
    ensures Hit(Run(ops, b', size), k, now)
  {
    HitIsLostWhenExpired(ops, b, b', size, k, now);
    var large := Run(ops, b', size);
    if Expired(large, k, now) {
      var i := CopyFrom(ops, b', size, large[Find(large, k)]);
    }
  }

  /** And it can lose one when they do not: the narrow cache evicted the key and
      fetched it again, the wide one still holds what it fetched first. */
  lemma ExpiryLosesAHit(x: Key, y: Key)
    requires x != y
    ensures var ops := [Ask(x, 0, 10), Ask(y, 5, 15), Ask(x, 6, 16)];
            var one, two := Run(ops, Bounds(0, 0), k => 1), Run(ops, Bounds(1, 0), k => 1);
            Wider(Bounds(0, 0), Bounds(1, 0)) && Hit(one, x, 12) && !Hit(two, x, 12)
  {
    var ops := [Ask(x, 0, 10), Ask(y, 5, 15), Ask(x, 6, 16)];
    var size: Key -> nat := k => 1;
    assert ops[..2][..1] == ops[..1] && ops[..1][..0] == [];
    var a, c, d := Copy(x, 10), Copy(y, 15), Copy(x, 16);
    First(a, Bounds(0, 0), size);
    First(a, Bounds(1, 0), size);
    assert ops[..1][0] == Ask(x, 0, 10);
    assert Run([], Bounds(0, 0), size) == [] == Run([], Bounds(1, 0), size);
    assert Run(ops[..1], Bounds(0, 0), size) == [a] == Run(ops[..1], Bounds(1, 0), size);
    Beside(a, c, Bounds(0, 0), size);
    Beside(a, c, Bounds(1, 0), size);
    assert Run(ops[..2], Bounds(0, 0), size) == [c] && Run(ops[..2], Bounds(1, 0), size) == [c, a];
    Beside(c, d, Bounds(0, 0), size);
    assert Run(ops, Bounds(0, 0), size) == [d];
    Again(c, a, Bounds(1, 0), size);
    assert Run(ops, Bounds(1, 0), size) == [a, c];
  }

  lemma First(c: Copy, b: Bounds, size: Key -> nat)
    ensures Step([], Ask(c.key, 0, c.until), b, size) == [c]
  {
  }

  lemma Beside(a: Copy, c: Copy, b: Bounds, size: Key -> nat)
    requires a.key != c.key && b.limit == 0
    ensures forall now :: Step([a], Ask(c.key, now, c.until), b, size) == if b.room == 0 then [c] else [c, a]
  {
    MinusNone([a], {c.key});
    assert Fitting([a], 1, b, size(c.key), size) <==> b.room >= 1;
    assert [a][..1] == [a] && [a][..0] == [];
  }

  lemma Again(c: Copy, a: Copy, b: Bounds, size: Key -> nat)
    requires a.key != c.key
    ensures forall now, until :: now <= a.until ==> Step([c, a], Ask(a.key, now, until), b, size) == [a, c]
  {
    assert [c, a][1..] == [a] && [a][1..] == [];
    assert Find([a], a.key) == 0 && Find([c, a], a.key) == 1 && [c, a][1] == a;
    assert Minus([a], {a.key}) == [];
    assert Minus([c, a], {a.key}) == [c] + Minus([c, a][1..], {a.key});
  }

  // --- the store's own operations are these steps ---

  ghost function Copies<R>(l: seq<Entry<R>>): (copies: seq<Copy>)
    ensures |copies| == |l|
  {
    if l == [] then [] else [Copy(l[0].key, l[0].expires)] + Copies(l[1..])
  }

  ghost predicate Sized<R>(l: seq<Entry<R>>, size: Key -> nat) { forall e | e in l :: e.bytes == size(e.key) }

  lemma {:induction false} CopiesTake<R>(l: seq<Entry<R>>, q: nat)
    requires q <= |l|
    ensures Copies(l[..q]) == Copies(l)[..q]
  {
    if q > 0 {
      assert l[..q][1..] == l[1..][..q - 1];
      CopiesTake(l[1..], q - 1);
    }
  }

  lemma {:induction false} CopiesTotal<R>(l: seq<Entry<R>>, size: Key -> nat)
    requires Sized(l, size)
    ensures Total(l, Bytes()) == Sum(Copies(l), size)
  {
    if l != [] {
      assert forall e | e in l[1..] :: e in l;
      CopiesTotal(l[1..], size);
    }
  }

  lemma {:induction false} CopiesWithout<R>(l: seq<Entry<R>>, gone: set<Entry<R>>, names: set<Key>)
    requires forall e | e in l :: e in gone <==> e.key in names
    ensures Copies(Without(l, gone)) == Minus(Copies(l), names)
  {
    if l != [] { CopiesWithout(l[1..], gone, names); }
  }

  lemma {:induction false} CopyAt<R>(l: seq<Entry<R>>, i: nat)
    requires i < |l|
    ensures Copies(l)[i] == Copy(l[i].key, l[i].expires)
  {
    if i > 0 { CopyAt(l[1..], i - 1); }
  }

  lemma {:induction false} FindEntry<R>(l: seq<Entry<R>>, e: Entry<R>, entries: map<Key, Entry<R>>)
    requires Keyed(l, entries) && e in l
    ensures var i := Find(Copies(l), e.key); i < |l| && l[i] == e && Copies(l)[i] == Copy(e.key, e.expires)
  {
    var j :| 0 <= j < |l| && l[j] == e;
    CopyAt(l, j);
    var i := Find(Copies(l), e.key);
    CopyAt(l, i);
    assert l[i] in l && entries[l[i].key] == l[i];
  }

  lemma CopiesKeep<R>(l: seq<Entry<R>>, b: Bounds, first: nat, size: Key -> nat)
    requires Sized(l, size)
    ensures Keep(l, b.room, b.limit, first) == Stay(Copies(l), |l|, b, first, size)
  {
    forall q: nat | q <= |l| ensures Fits(l, q, b.room, b.limit, first) == Fitting(Copies(l), q, b, first, size) {
      CopiesTake(l, q);
      CopiesTotal(l[..q], size);
    }
    var q, q' := Keep(l, b.room, b.limit, first), Stay(Copies(l), |l|, b, first, size);
    assert Fits(l, q, b.room, b.limit, first) && Fits(l, q', b.room, b.limit, first);
    assert Fitting(Copies(l), q, b, first, size) && Fitting(Copies(l), q', b, first, size);
  }

  /** The list Lookup leaves on a hit is the step Ask. */
  lemma HitStep<R>(l: seq<Entry<R>>, e: Entry<R>, entries: map<Key, Entry<R>>, now: int, until: int, b: Bounds, size: Key -> nat)
    requires Keyed(l, entries) && e in l && now <= e.expires
    ensures Copies([e] + Without(l, {e})) == Step(Copies(l), Ask(e.key, now, until), b, size)
  {
    FindEntry(l, e, entries);
    CopiesWithout(l, {e}, {e.key});
    assert ([e] + Without(l, {e}))[1..] == Without(l, {e});
  }

  /** So is the list Store leaves after a miss, of a key that was not there or
      had expired and that Lookup took out. */
  lemma MissStep<R>(l: seq<Entry<R>>, gone: set<Entry<R>>, e: Entry<R>, now: int, b: Bounds, size: Key -> nat)
    requires Sized(l, size) && e.bytes == size(e.key)
    requires forall x | x in l :: x in gone <==> x.key == e.key
    requires forall x | x in l && x in gone :: now > x.expires
    ensures var others := Without(l, gone);
            Copies([e] + others[..Keep(others, b.room, b.limit, e.bytes)]) == Step(Copies(l), Ask(e.key, now, e.expires), b, size)
  {
    var others := Without(l, gone);
    var q := Keep(others, b.room, b.limit, e.bytes);
    WithoutMembers(l, gone);
    CopiesWithout(l, gone, {e.key});
    CopiesKeep(others, b, e.bytes, size);
    CopiesTake(others, q);
    assert ([e] + others[..q])[1..] == others[..q];
    var i := Find(Copies(l), e.key);
    if i < |l| {
      CopyAt(l, i);
      assert l[i] in l && l[i] in gone;
    }
  }
}
