/** What the cache can serve, over every interleaving of sessions: fills split
    into executing a query and storing its result, writes into reaching the
    database and invalidating, transactions with their bookkeeping
    (internal/cache/cache.go, internal/proxy/session.go). */
module Coherence {
  import opened Common

  /** Queries and writes against a database. A session's text means a write of
      its current database; affects says which cached queries its invalidation drops. */
  datatype World<!DB, !Q, !T, !W, !V> = World(
    answer: (DB, Q) -> V, apply: (DB, W) -> DB, meaning: (string, T) -> W, affects: (W, Q) -> bool)

  /** A write changes no answer its invalidation does not drop. */
  ghost predicate Sound<DB(!new), Q(!new), T, W(!new), V>(m: World<DB, Q, T, W, V>) {
    forall db, w, q :: !m.affects(w, q) ==> m.answer(m.apply(db, w), q) == m.answer(db, q)
  }

  datatype Cached<V> = Cached(value: V, execAt: nat, storedAt: nat)

  datatype Fill<Q, V> = Fill(query: Q, value: V, execAt: nat)

  /** A write in the database: when it got there, when it was invalidated, and
      whether nobody will invalidate it: its session had stopped doing so, gora
      does not take it for a write, or the reply to it was lost. */
  datatype Applied<W> = Applied(write: W, at: nat, dropped: Option<nat>, unfollowed: bool)

  /** The invalidations a session still has to run: writes one by one (the
      first is log[base]), or a flush that covers log[base..base + count]. */
  datatype Due<T> = Nothing | Each(texts: seq<T>, base: nat) | Whole(base: nat, count: nat)

  /** A write of a transaction, and whether it was observed as one: a CTE that
      ends in a write is not, nor is a statement whose reply was lost. */
  datatype TxWrite<T> = TxWrite(text: T, observed: bool)

  /** writes is what the open transaction wrote; txWrites and overflow are what
      the session remembers of it. */
  datatype Session<T> = Session(db: string, inTx: bool, writes: seq<TxWrite<T>>, txWrites: seq<T>, overflow: bool,
                                unsafe: bool, due: Due<T>)

  datatype State<DB, Q, T, W, V> = State(store: DB, now: nat, cache: map<Q, Cached<V>>, fills: seq<Fill<Q, V>>,
                                         log: seq<Applied<W>>, sessions: seq<Session<T>>)

  datatype Action<Q, T> =
    | Execute(query: Q)              // a session, or the warmer, runs a read
    | Store(fill: nat)               // and stores what it got
    | Abandon(fill: nat)             // or does not
    | Evict(query: Q)                // for room, or for its age
    | Autocommit(s: nat, text: T, observed: bool)   // a write outside a transaction
    | Begin(s: nat)
    | WriteInTx(s: nat, w: TxWrite<T>)              // one inside
    | Commit(s: nat)
    | CommitLost(s: nat)             // committed, but the reply was lost
    | Rollback(s: nat)
    | Invalidate(s: nat)             // the next invalidation due
    | Flush(s: nat)
    | UseDB(s: nat, db: string)
    | GoUnsafe(s: nat)               // a statement the cache cannot follow
    | Reset(s: nat)                  // COM_RESET_CONNECTION

  predicate Idle<T>(x: Session<T>) { x.due.Nothing? }

  /** Which actions can happen. The database is fixed inside a transaction and
      transactions do not nest. */
  predicate Enabled<DB, Q, T, W, V>(t: State<DB, Q, T, W, V>, a: Action<Q, T>) {
    match a
    case Execute(_) => true
    case Store(i) => i < |t.fills|
    case Abandon(i) => i < |t.fills|
    case Evict(_) => true
    case Autocommit(s, _, _) => s < |t.sessions| && Idle(t.sessions[s]) && !t.sessions[s].inTx
    case Begin(s) => s < |t.sessions| && Idle(t.sessions[s]) && !t.sessions[s].inTx
    case WriteInTx(s, _) => s < |t.sessions| && Idle(t.sessions[s]) && t.sessions[s].inTx
    case Commit(s) => s < |t.sessions| && Idle(t.sessions[s]) && t.sessions[s].inTx
    case CommitLost(s) => s < |t.sessions| && Idle(t.sessions[s]) && t.sessions[s].inTx
    case Rollback(s) => s < |t.sessions| && Idle(t.sessions[s]) && t.sessions[s].inTx
    case Invalidate(s) => s < |t.sessions| && t.sessions[s].due.Each? && t.sessions[s].due.texts != []
    case Flush(s) => s < |t.sessions| && t.sessions[s].due.Whole?
    case UseDB(s, _) => s < |t.sessions| && Idle(t.sessions[s]) && !t.sessions[s].inTx
    case GoUnsafe(s) => s < |t.sessions| && Idle(t.sessions[s])
    case Reset(s) => s < |t.sessions| && Idle(t.sessions[s])
  }

  function Drop<Q, V, W>(cache: map<Q, Cached<V>>, w: W, affects: (W, Q) -> bool): map<Q, Cached<V>> {
    map q | q in cache && !affects(w, q) :: cache[q]
  }

  function ApplyAll<DB, Q, T, W, V>(m: World<DB, Q, T, W, V>, db: DB, x: string, texts: seq<T>): DB
    decreases |texts|
  {
    if texts == [] then db else m.apply(ApplyAll(m, db, x, texts[..|texts| - 1]), m.meaning(x, texts[|texts| - 1]))
  }

  function Entries<DB, Q, T, W, V>(m: World<DB, Q, T, W, V>, db: string, texts: seq<T>, at: nat, unfollowed: bool): (r: seq<Applied<W>>)
    ensures |r| == |texts|
    ensures forall i :: 0 <= i < |r| ==> r[i] == Applied(m.meaning(db, texts[i]), at, None, unfollowed)
  {
    seq(|texts|, i requires 0 <= i < |texts| => Applied(m.meaning(db, texts[i]), at, None, unfollowed))
  }

  function Texts<T>(writes: seq<TxWrite<T>>): (r: seq<T>)
    ensures |r| == |writes| && forall i :: 0 <= i < |r| ==> r[i] == writes[i].text
  {
    seq(|writes|, i requires 0 <= i < |writes| => writes[i].text)
  }

  // Those observed, or those not.
  function Those<T>(writes: seq<TxWrite<T>>, observed: bool): seq<T>
    decreases |writes|
  {
    if writes == [] then []
    else
      var init, last := Those(writes[..|writes| - 1], observed), writes[|writes| - 1];
      if last.observed == observed then init + [last.text] else init
  }

  // What the writes of a transaction leave in the log at COMMIT.
  function Committed<DB, Q, T, W, V>(m: World<DB, Q, T, W, V>, x: Session<T>, at: nat): seq<Applied<W>> {
    Entries(m, x.db, Those(x.writes, true), at, x.unsafe) + Entries(m, x.db, Those(x.writes, false), at, true)
  }

  function Owed<T>(x: Session<T>, texts: seq<T>, base: nat): Due<T> {
    if x.unsafe || texts == [] then Nothing else Each(texts, base)
  }

  function DueAtCommit<T>(x: Session<T>, base: nat): Due<T> {
    if x.overflow then Whole(base, |Those(x.writes, true)|) else Owed(x, x.txWrites, base)
  }

  function Rest<T>(due: Due<T>): Due<T>
    requires due.Each? && due.texts != []
  {
    if |due.texts| == 1 then Nothing else Each(due.texts[1..], due.base + 1)
  }

  // Entries base.. of the log, as invalidated now.
  function Mark<W>(log: seq<Applied<W>>, base: nat, count: nat, now: nat): (r: seq<Applied<W>>)
    ensures |r| == |log|
    ensures forall i :: 0 <= i < |log| ==> r[i] == if base <= i < base + count then log[i].(dropped := Some(now)) else log[i]
  {
    seq(|log|, i requires 0 <= i < |log| => if base <= i < base + count then log[i].(dropped := Some(now)) else log[i])
  }

  /** What a session does at COMMIT or ROLLBACK: endTx, unless it stopped following. */
  function Ended<T>(x: Session<T>, due: Due<T>): Session<T> {
    if x.unsafe then x.(inTx := false, writes := [])
    else x.(inTx := false, writes := [], txWrites := [], overflow := false, due := due)
  }

  function Tracked<T>(x: Session<T>, w: TxWrite<T>): Session<T> {
    if x.unsafe || !w.observed then x.(writes := x.writes + [w])
    else if |x.txWrites| >= MAX_TRACKED then x.(writes := x.writes + [w], overflow := true)
    else x.(writes := x.writes + [w], txWrites := x.txWrites + [w.text])
  }

  function Next<DB, Q, T, W, V>(m: World<DB, Q, T, W, V>, t: State<DB, Q, T, W, V>, a: Action<Q, T>): State<DB, Q, T, W, V>
    requires Enabled(t, a)
  {
    var t := t.(now := t.now + 1);
    var now := t.now - 1;
    match a
    case Execute(q) => t.(fills := t.fills + [Fill(q, m.answer(t.store, q), now)])
    case Store(i) =>
      var f := t.fills[i];
      t.(cache := t.cache[f.query := Cached(f.value, f.execAt, now)], fills := t.fills[..i] + t.fills[i + 1..])
    case Abandon(i) => t.(fills := t.fills[..i] + t.fills[i + 1..])
    case Evict(q) => t.(cache := t.cache - {q})
    case Autocommit(s, text, observed) =>
      var x := t.sessions[s];
      t.(store := m.apply(t.store, m.meaning(x.db, text)), log := t.log + Entries(m, x.db, [text], now, x.unsafe || !observed),
         sessions := t.sessions[s := x.(due := if observed then Owed(x, [text], |t.log|) else Nothing)])
    case Begin(s) => t.(sessions := t.sessions[s := t.sessions[s].(inTx := true)])
    case WriteInTx(s, w) =>
      var x := t.sessions[s];
      t.(sessions := t.sessions[s := Tracked(x, w)],
         cache := if x.unsafe || !w.observed then t.cache else Drop(t.cache, m.meaning(x.db, w.text), m.affects))
    case Commit(s) =>
      var x := t.sessions[s];
      var due := DueAtCommit(x, |t.log|);
      t.(store := ApplyAll(m, t.store, x.db, Texts(x.writes)), log := t.log + Committed(m, x, now),
         sessions := t.sessions[s := Ended(x, due)])
    case CommitLost(s) =>
      var x := t.sessions[s];
      t.(store := ApplyAll(m, t.store, x.db, Texts(x.writes)), log := t.log + Entries(m, x.db, Texts(x.writes), now, true),
         sessions := t.sessions[s := Ended(x, Nothing)])
    case Rollback(s) => t.(sessions := t.sessions[s := Ended(t.sessions[s], Nothing)])
    case Invalidate(s) =>
      var x := t.sessions[s];
      t.(cache := Drop(t.cache, m.meaning(x.db, x.due.texts[0]), m.affects), log := Mark(t.log, x.due.base, 1, now),
         sessions := t.sessions[s := x.(due := Rest(x.due))])
    case Flush(s) =>
      var x := t.sessions[s];
      t.(cache := map[], log := Mark(t.log, x.due.base, x.due.count, now),
         sessions := t.sessions[s := x.(due := Nothing)])
    case UseDB(s, db) => t.(sessions := t.sessions[s := t.sessions[s].(db := db)])
    case GoUnsafe(s) => t.(sessions := t.sessions[s := t.sessions[s].(unsafe := true)])
    case Reset(s) => t.(sessions := t.sessions[s := Session(t.sessions[s].db, false, [], [], false, false, Nothing)])
  }

  // --- what holds in every run ---

  /** A write in the database that an entry may not know of: applied after the
      entry's query ran, and its invalidation is still to come or came before
      the entry was stored. */
  predicate Misses<DB, Q, T, W, V>(m: World<DB, Q, T, W, V>, r: Applied<W>, q: Q, execAt: nat, storedAt: nat) {
    m.affects(r.write, q) && r.at > execAt && (r.dropped.None? || r.dropped.value < storedAt)
  }

  /** A value is what the database would answer, or there is such a write. */
  ghost predicate Explained<DB, Q, T, W, V>(m: World<DB, Q, T, W, V>, t: State<DB, Q, T, W, V>, q: Q, value: V,
                                            execAt: nat, storedAt: nat) {
    value == m.answer(t.store, q) || exists i :: 0 <= i < |t.log| && Misses(m, t.log[i], q, execAt, storedAt)
  }

  // What a session remembers is what it has to invalidate.
  ghost predicate SessionOk<DB, Q, T, W, V>(m: World<DB, Q, T, W, V>, log: seq<Applied<W>>, x: Session<T>) {
    && (!x.unsafe && !x.overflow ==> x.txWrites == Those(x.writes, true))
    && (x.due.Each? ==> x.due.texts != [] && x.due.base + |x.due.texts| <= |log|)
    && (x.due.Each? ==> forall j :: 0 <= j < |x.due.texts| ==> log[x.due.base + j].write == m.meaning(x.db, x.due.texts[j]))
    && (x.due.Whole? ==> x.due.base + x.due.count <= |log|)
  }

  predicate Covers<T>(due: Due<T>, i: nat) {
    match due
    case Nothing => false
    case Each(texts, base) => base <= i < base + |texts|
    case Whole(base, count) => base <= i < base + count
  }

  // An invalidation that has not run is due, or was given up.
  ghost predicate Followed<DB, Q, T, W, V>(t: State<DB, Q, T, W, V>, i: nat)
    requires i < |t.log|
  {
    t.log[i].dropped.None? && !t.log[i].unfollowed ==> exists s :: 0 <= s < |t.sessions| && Covers(t.sessions[s].due, i)
  }

  ghost predicate LogOk<DB, Q, T, W, V>(t: State<DB, Q, T, W, V>, i: nat)
    requires i < |t.log|
  {
    t.log[i].at < t.now && (t.log[i].dropped.Some? ==> t.log[i].at < t.log[i].dropped.value < t.now) && Followed(t, i)
  }

  // An entry a finished invalidation concerns was stored after it.
  predicate Survived<DB, Q, T, W, V>(m: World<DB, Q, T, W, V>, r: Applied<W>, q: Q, c: Cached<V>) {
    m.affects(r.write, q) && r.dropped.Some? ==> r.dropped.value < c.storedAt
  }

  ghost predicate CacheOk<DB, Q, T, W, V>(m: World<DB, Q, T, W, V>, t: State<DB, Q, T, W, V>, q: Q)
    requires q in t.cache
  {
    var c := t.cache[q];
    && c.execAt < c.storedAt < t.now && Explained(m, t, q, c.value, c.execAt, c.storedAt)
    && forall i :: 0 <= i < |t.log| ==> Survived(m, t.log[i], q, c)
  }

  ghost predicate FillOk<DB, Q, T, W, V>(m: World<DB, Q, T, W, V>, t: State<DB, Q, T, W, V>, f: Fill<Q, V>) {
    f.execAt < t.now && Explained(m, t, f.query, f.value, f.execAt, t.now)
  }

  ghost predicate Inv<DB, Q, T, W, V>(m: World<DB, Q, T, W, V>, t: State<DB, Q, T, W, V>) {
    && (forall q :: q in t.cache ==> CacheOk(m, t, q))
    && (forall i :: 0 <= i < |t.fills| ==> FillOk(m, t, t.fills[i]))
    && (forall i: nat :: i < |t.log| ==> LogOk(t, i))
    && (forall s :: 0 <= s < |t.sessions| ==> SessionOk(m, t.log, t.sessions[s]))
  }

  // --- each step keeps it ---

  lemma ExplainedSame<DB, Q, T, W, V>(m: World<DB, Q, T, W, V>, t: State<DB, Q, T, W, V>, t': State<DB, Q, T, W, V>,
                                      q: Q, value: V, execAt: nat, storedAt: nat, storedAt': nat)
    requires t'.store == t.store && t'.log == t.log && storedAt <= storedAt' && Explained(m, t, q, value, execAt, storedAt)
    ensures Explained(m, t', q, value, execAt, storedAt')
  {
    if value != m.answer(t.store, q) {
      var i :| 0 <= i < |t.log| && Misses(m, t.log[i], q, execAt, storedAt);
      assert Misses(m, t'.log[i], q, execAt, storedAt');
    }
  }

  // Writes that change an answer are writes that affect the query.
  lemma {:induction false} AnswerKept<DB(!new), Q(!new), T, W(!new), V>(m: World<DB, Q, T, W, V>, db: DB, x: string,
                                                                       texts: seq<T>, q: Q) returns (k: nat)
    requires Sound(m)
    ensures k <= |texts|
    ensures k < |texts| ==> m.affects(m.meaning(x, texts[k]), q)
    ensures k == |texts| ==> m.answer(ApplyAll(m, db, x, texts), q) == m.answer(db, q)
    decreases |texts|
  {
    if texts == [] {
      k := 0;
    } else {
      var init := texts[..|texts| - 1];
      k := AnswerKept(m, db, x, init, q);
      if k == |init| && !m.affects(m.meaning(x, texts[k]), q) {
        assert m.answer(m.apply(ApplyAll(m, db, x, init), m.meaning(x, texts[k])), q) == m.answer(ApplyAll(m, db, x, init), q);
        k := |texts|;
      }
    }
  }

  // The log entries of some texts, now: one for each, at least.
  ghost predicate Logs<DB, Q, T, W, V>(m: World<DB, Q, T, W, V>, db: string, texts: seq<T>, entries: seq<Applied<W>>, now: nat) {
    && (forall k :: 0 <= k < |texts| ==> exists j :: 0 <= j < |entries| && entries[j].write == m.meaning(db, texts[k]))
    && (forall j :: 0 <= j < |entries| ==> entries[j].at == now && entries[j].dropped == None)
  }

  lemma ExplainedGrown<DB(!new), Q(!new), T, W(!new), V>(
      m: World<DB, Q, T, W, V>, t: State<DB, Q, T, W, V>, t': State<DB, Q, T, W, V>, db: string, texts: seq<T>,
      entries: seq<Applied<W>>, q: Q, value: V, execAt: nat, storedAt: nat, storedAt': nat)
    requires Sound(m) && execAt < t.now && storedAt <= storedAt' && Explained(m, t, q, value, execAt, storedAt)
    requires t'.store == ApplyAll(m, t.store, db, texts) && t'.log == t.log + entries && Logs(m, db, texts, entries, t.now)
    ensures Explained(m, t', q, value, execAt, storedAt')
  {
    if value == m.answer(t.store, q) {
      var k := AnswerKept(m, t.store, db, texts, q);
      if k < |texts| {
        var j :| 0 <= j < |entries| && entries[j].write == m.meaning(db, texts[k]);
        assert t'.log[|t.log| + j] == entries[j];
        assert Misses(m, t'.log[|t.log| + j], q, execAt, storedAt');
      }
    } else {
      var i :| 0 <= i < |t.log| && Misses(m, t.log[i], q, execAt, storedAt);
      assert t'.log[i] == t.log[i];
      assert Misses(m, t'.log[i], q, execAt, storedAt');
    }
  }

  lemma ExplainedMarked<DB, Q, T, W, V>(m: World<DB, Q, T, W, V>, t: State<DB, Q, T, W, V>, t': State<DB, Q, T, W, V>,
                                        base: nat, count: nat, q: Q, value: V, execAt: nat, storedAt: nat, storedAt': nat)
    requires t'.store == t.store && t'.log == Mark(t.log, base, count, t.now) && storedAt <= storedAt'
    requires storedAt' > t.now || forall i :: base <= i < base + count && i < |t.log| ==> !m.affects(t.log[i].write, q)
    requires Explained(m, t, q, value, execAt, storedAt)
    ensures Explained(m, t', q, value, execAt, storedAt')
  {
    if value != m.answer(t.store, q) {
      var i :| 0 <= i < |t.log| && Misses(m, t.log[i], q, execAt, storedAt);
      assert Misses(m, t'.log[i], q, execAt, storedAt');
    }
  }

  // Steps that neither write to the database nor finish an invalidation, and
  // at most take entries and fills away.
  lemma QuietStep<DB, Q, T, W, V>(m: World<DB, Q, T, W, V>, t: State<DB, Q, T, W, V>, t': State<DB, Q, T, W, V>)
    requires Inv(m, t) && t'.store == t.store && t'.log == t.log && t'.now == t.now + 1
    requires forall q :: q in t'.cache ==> q in t.cache && t'.cache[q] == t.cache[q]
    requires forall f :: f in t'.fills ==> f in t.fills
    requires |t'.sessions| == |t.sessions|
    requires forall s :: 0 <= s < |t.sessions| ==>
               t'.sessions[s].due == t.sessions[s].due && SessionOk(m, t.log, t'.sessions[s])
    ensures Inv(m, t')
  {
    forall q | q in t'.cache ensures CacheOk(m, t', q) {
      assert CacheOk(m, t, q);
      var c := t.cache[q];
      ExplainedSame(m, t, t', q, c.value, c.execAt, c.storedAt, c.storedAt);
    }
    forall i | 0 <= i < |t'.fills| ensures FillOk(m, t', t'.fills[i]) {
      var f := t'.fills[i];
      assert f in t'.fills;
      var j :| 0 <= j < |t.fills| && t.fills[j] == f;
      assert FillOk(m, t, t.fills[j]);
      ExplainedSame(m, t, t', f.query, f.value, f.execAt, t.now, t'.now);
    }
    forall i: nat | i < |t'.log| ensures LogOk(t', i) {
      assert LogOk(t, i);
      KeepFollowed(t, t', i);
    }
  }

  lemma KeepFollowed<DB, Q, T, W, V>(t: State<DB, Q, T, W, V>, t': State<DB, Q, T, W, V>, i: nat)
    requires i < |t.log| && i < |t'.log| && t'.log[i] == t.log[i] && LogOk(t, i) && t'.now == t.now + 1
    requires |t'.sessions| == |t.sessions|
    requires forall s :: 0 <= s < |t.sessions| ==> Covers(t.sessions[s].due, i) ==> Covers(t'.sessions[s].due, i)
    ensures LogOk(t', i)
  {
  }

  // Session s has brought the texts to the database, and owes the invalidation
  // of those that are followed.
  ghost predicate Wrote<DB, Q, T, W, V>(
      m: World<DB, Q, T, W, V>, t: State<DB, Q, T, W, V>, t': State<DB, Q, T, W, V>, s: nat, texts: seq<T>, entries: seq<Applied<W>>)
    requires s < |t.sessions|
  {
    && Idle(t.sessions[s]) && t'.now == t.now + 1
    && t'.store == ApplyAll(m, t.store, t.sessions[s].db, texts)
    && t'.log == t.log + entries && Logs(m, t.sessions[s].db, texts, entries, t.now)
    && t'.cache == t.cache && t'.fills == t.fills && |t'.sessions| == |t.sessions|
    && t'.sessions == t.sessions[s := t'.sessions[s]] && SessionOk(m, t'.log, t'.sessions[s])
    && forall j: nat {:trigger entries[j]} :: j < |entries| ==> entries[j].unfollowed || Covers(t'.sessions[s].due, |t.log| + j)
  }

  // Steps by which a session's writes reach the database.
  lemma WriteStep<DB(!new), Q(!new), T, W(!new), V>(
      m: World<DB, Q, T, W, V>, t: State<DB, Q, T, W, V>, t': State<DB, Q, T, W, V>, s: nat, texts: seq<T>, entries: seq<Applied<W>>)
    requires Sound(m) && Inv(m, t) && s < |t.sessions| && Wrote(m, t, t', s, texts, entries)
    ensures Inv(m, t')
  {
    var db := t.sessions[s].db;
    forall q | q in t'.cache ensures CacheOk(m, t', q) {
      assert CacheOk(m, t, q);
      var c := t.cache[q];
      ExplainedGrown(m, t, t', db, texts, entries, q, c.value, c.execAt, c.storedAt, c.storedAt);
      forall i | 0 <= i < |t'.log| ensures Survived(m, t'.log[i], q, c) {
        if i < |t.log| { assert Survived(m, t.log[i], q, c); }
      }
    }
    forall i | 0 <= i < |t'.fills| ensures FillOk(m, t', t'.fills[i]) {
      var f := t.fills[i];
      assert FillOk(m, t, f);
      ExplainedGrown(m, t, t', db, texts, entries, f.query, f.value, f.execAt, t.now, t'.now);
    }
    forall i: nat | i < |t'.log| ensures LogOk(t', i) {
      if i < |t.log| {
        assert LogOk(t, i);
        KeepFollowed(t, t', i);
      } else {
        assert t'.log[i] == entries[i - |t.log|];
      }
    }
    forall r | 0 <= r < |t'.sessions| ensures SessionOk(m, t'.log, t'.sessions[r]) {
      assert r != s ==> SessionOk(m, t.log, t.sessions[r]);
    }
  }

  // Steps that finish invalidations a session owes.
  lemma DropStep<DB(!new), Q(!new), T, W(!new), V>(
      m: World<DB, Q, T, W, V>, t: State<DB, Q, T, W, V>, t': State<DB, Q, T, W, V>, s: nat, base: nat, count: nat)
    requires Inv(m, t) && s < |t.sessions| && t'.now == t.now + 1 && t'.store == t.store
    requires t'.log == Mark(t.log, base, count, t.now) && t'.fills == t.fills
    requires forall q :: q in t'.cache ==> q in t.cache && t'.cache[q] == t.cache[q]
    requires forall q, i :: q in t'.cache && base <= i < base + count && i < |t.log| ==> !m.affects(t.log[i].write, q)
    requires |t'.sessions| == |t.sessions|
    requires t'.sessions == t.sessions[s := t'.sessions[s]] && SessionOk(m, t'.log, t'.sessions[s])
    requires forall i: nat :: Covers(t.sessions[s].due, i) ==> base <= i < base + count || Covers(t'.sessions[s].due, i)
    ensures Inv(m, t')
  {
    forall q | q in t'.cache ensures CacheOk(m, t', q) {
      assert CacheOk(m, t, q);
      var c := t.cache[q];
      ExplainedMarked(m, t, t', base, count, q, c.value, c.execAt, c.storedAt, c.storedAt);
      forall i | 0 <= i < |t'.log| ensures Survived(m, t'.log[i], q, c) { assert Survived(m, t.log[i], q, c); }
    }
    forall i | 0 <= i < |t'.fills| ensures FillOk(m, t', t'.fills[i]) {
      var f := t.fills[i];
      assert FillOk(m, t, f);
      ExplainedMarked(m, t, t', base, count, f.query, f.value, f.execAt, t.now, t'.now);
    }
    forall i: nat | i < |t'.log| ensures LogOk(t', i) {
      assert LogOk(t, i);
      if !(base <= i < base + count) { KeepFollowed(t, t', i); }
    }
    forall r | 0 <= r < |t'.sessions| ensures SessionOk(m, t'.log, t'.sessions[r]) {
      assert r != s ==> SessionOk(m, t.log, t.sessions[r]);
    }
  }

  lemma ExecuteStep<DB, Q, T, W, V>(m: World<DB, Q, T, W, V>, t: State<DB, Q, T, W, V>, q: Q)
    requires Inv(m, t)
    ensures Inv(m, Next(m, t, Execute(q)))
  {
    var t' := Next(m, t, Execute(q));
    var before := t'.(fills := t.fills);
    QuietStep(m, t, before);
    forall i | 0 <= i < |t'.fills| ensures FillOk(m, t', t'.fills[i]) {
      if i < |t.fills| {
        var f := t.fills[i];
        assert FillOk(m, before, before.fills[i]);
        ExplainedSame(m, before, t', f.query, f.value, f.execAt, t'.now, t'.now);
      }
    }
    SameRest(m, before, t');
    forall k | k in t'.cache ensures CacheOk(m, t', k) { SameEntry(m, before, t', k); }
  }

  lemma StoreStep<DB, Q, T, W, V>(m: World<DB, Q, T, W, V>, t: State<DB, Q, T, W, V>, i: nat)
    requires Inv(m, t) && i < |t.fills|
    ensures Inv(m, Next(m, t, Store(i)))
  {
    var t', f := Next(m, t, Store(i)), t.fills[i];
    var before := t'.(cache := t.cache);
    QuietStep(m, t, before);
    assert FillOk(m, t, f);
    forall k | k in t'.cache ensures CacheOk(m, t', k) {
      if k == f.query {
        ExplainedSame(m, t, t', k, f.value, f.execAt, t.now, t.now);
        forall j | 0 <= j < |t'.log| ensures Survived(m, t'.log[j], k, t'.cache[k]) { assert LogOk(t, j); }
      } else {
        SameEntry(m, before, t', k);
      }
    }
    forall j | 0 <= j < |t'.fills| ensures FillOk(m, t', t'.fills[j]) {
      var g := t'.fills[j];
      assert FillOk(m, before, before.fills[j]);
      ExplainedSame(m, before, t', g.query, g.value, g.execAt, t'.now, t'.now);
    }
    SameRest(m, before, t');
  }

  lemma SameEntry<DB, Q, T, W, V>(m: World<DB, Q, T, W, V>, t: State<DB, Q, T, W, V>, t': State<DB, Q, T, W, V>, q: Q)
    requires q in t.cache && q in t'.cache && t'.cache[q] == t.cache[q] && CacheOk(m, t, q)
    requires t'.store == t.store && t'.log == t.log && t'.now == t.now
    ensures CacheOk(m, t', q)
  {
    var c := t.cache[q];
    ExplainedSame(m, t, t', q, c.value, c.execAt, c.storedAt, c.storedAt);
  }

  lemma SameRest<DB, Q, T, W, V>(m: World<DB, Q, T, W, V>, t: State<DB, Q, T, W, V>, t': State<DB, Q, T, W, V>)
    requires Inv(m, t) && t'.log == t.log && t'.now == t.now && t'.sessions == t.sessions
    ensures forall i: nat :: i < |t'.log| ==> LogOk(t', i)
    ensures forall s :: 0 <= s < |t'.sessions| ==> SessionOk(m, t'.log, t'.sessions[s])
  {
    forall i: nat | i < |t'.log| ensures LogOk(t', i) { assert LogOk(t, i) && Followed(t, i); }
  }

  // A write is among those observed or among those not.
  lemma {:induction false} AmongThose<T>(writes: seq<TxWrite<T>>, k: nat) returns (j: nat)
    requires k < |writes|
    ensures j < |Those(writes, writes[k].observed)| && Those(writes, writes[k].observed)[j] == writes[k].text
    decreases |writes|
  {
    var init := writes[..|writes| - 1];
    if k < |init| { j := AmongThose(init, k); } else { j := |Those(init, writes[k].observed)|; }
  }

  lemma CommittedLogs<DB, Q, T, W, V>(m: World<DB, Q, T, W, V>, x: Session<T>, now: nat)
    ensures Logs(m, x.db, Texts(x.writes), Committed(m, x, now), now)
  {
    var entries, n := Committed(m, x, now), |Those(x.writes, true)|;
    forall k | 0 <= k < |x.writes|
      ensures exists j :: 0 <= j < |entries| && entries[j].write == m.meaning(x.db, Texts(x.writes)[k])
    {
      var j := AmongThose(x.writes, k);
      assert entries[if x.writes[k].observed then j else n + j].write == m.meaning(x.db, x.writes[k].text);
    }
  }

  lemma CommitStep<DB(!new), Q(!new), T, W(!new), V>(m: World<DB, Q, T, W, V>, t: State<DB, Q, T, W, V>, s: nat)
    requires Sound(m) && Inv(m, t) && Enabled(t, Commit(s))
    ensures Inv(m, Next(m, t, Commit(s)))
  {
    assert SessionOk(m, t.log, t.sessions[s]);
    hide *;
    CommitWrites(m, t, s);
    WriteStep(m, t, Next(m, t, Commit(s)), s, Texts(t.sessions[s].writes), Committed(m, t.sessions[s], t.now));
  }

  lemma CommitWrites<DB, Q, T, W, V>(m: World<DB, Q, T, W, V>, t: State<DB, Q, T, W, V>, s: nat)
    requires Enabled(t, Commit(s)) && SessionOk(m, t.log, t.sessions[s])
    ensures s < |t.sessions|
    ensures Wrote(m, t, Next(m, t, Commit(s)), s, Texts(t.sessions[s].writes), Committed(m, t.sessions[s], t.now))
  {
    CommittedLogs(m, t.sessions[s], t.now);
    CommitOwes(m, t.log, t.sessions[s], t.now);
    hide ApplyAll, Logs, Committed, SessionOk, DueAtCommit, Covers;
  }

  lemma CommitOwes<DB, Q, T, W, V>(m: World<DB, Q, T, W, V>, log: seq<Applied<W>>, x: Session<T>, now: nat)
    requires Idle(x) && SessionOk(m, log, x)
    ensures var x', entries := Ended(x, DueAtCommit(x, |log|)), Committed(m, x, now);
            && SessionOk(m, log + entries, x')
            && forall j: nat {:trigger entries[j]} :: j < |entries| ==> entries[j].unfollowed || Covers(x'.due, |log| + j)
  {
    var x', entries, n := Ended(x, DueAtCommit(x, |log|)), Committed(m, x, now), |Those(x.writes, true)|;
    assert n + |Those(x.writes, false)| == |entries|;
    if !x.unsafe {
      forall j: nat | j < n
        ensures Covers(x'.due, |log| + j) && (log + entries)[|log| + j] == entries[j]
        ensures entries[j].write == m.meaning(x.db, Those(x.writes, true)[j])
      {
      }
    }
  }

  lemma CommitLostStep<DB(!new), Q(!new), T, W(!new), V>(m: World<DB, Q, T, W, V>, t: State<DB, Q, T, W, V>, s: nat)
    requires Sound(m) && Inv(m, t) && Enabled(t, CommitLost(s))
    ensures Inv(m, Next(m, t, CommitLost(s)))
  {
    var x := t.sessions[s];
    var texts := Texts(x.writes);
    var entries := Entries(m, x.db, texts, t.now, true);
    assert SessionOk(m, t.log, x);
    assert Logs(m, x.db, texts, entries, t.now) by {
      forall k | 0 <= k < |texts| ensures exists j :: 0 <= j < |entries| && entries[j].write == m.meaning(x.db, texts[k]) {
        assert entries[k].write == m.meaning(x.db, texts[k]);
      }
    }
    hide Inv, Sound, ApplyAll, Logs;
    WriteStep(m, t, Next(m, t, CommitLost(s)), s, texts, entries);
  }

  lemma AutocommitStep<DB(!new), Q(!new), T, W(!new), V>(m: World<DB, Q, T, W, V>, t: State<DB, Q, T, W, V>, s: nat, text: T, observed: bool)
    requires Sound(m) && Inv(m, t) && Enabled(t, Autocommit(s, text, observed))
    ensures Inv(m, Next(m, t, Autocommit(s, text, observed)))
  {
    var x := t.sessions[s];
    assert SessionOk(m, t.log, x);
    hide *;
    AutocommitWrites(m, t, s, text, observed);
    WriteStep(m, t, Next(m, t, Autocommit(s, text, observed)), s, [text], Entries(m, x.db, [text], t.now, x.unsafe || !observed));
  }

  lemma AutocommitWrites<DB, Q, T, W, V>(m: World<DB, Q, T, W, V>, t: State<DB, Q, T, W, V>, s: nat, text: T, observed: bool)
    requires Enabled(t, Autocommit(s, text, observed)) && SessionOk(m, t.log, t.sessions[s])
    ensures s < |t.sessions|
    ensures var x := t.sessions[s];
            Wrote(m, t, Next(m, t, Autocommit(s, text, observed)), s, [text], Entries(m, x.db, [text], t.now, x.unsafe || !observed))
  {
    var x := t.sessions[s];
    assert [text][..0] == [];
    assert ApplyAll(m, t.store, x.db, [text]) == m.apply(t.store, m.meaning(x.db, text));
    assert Entries(m, x.db, [text], t.now, x.unsafe || !observed)[0].write == m.meaning(x.db, text);
    hide ApplyAll;
  }

  lemma InvalidateStep<DB(!new), Q(!new), T, W(!new), V>(m: World<DB, Q, T, W, V>, t: State<DB, Q, T, W, V>, s: nat)
    requires Inv(m, t) && Enabled(t, Invalidate(s))
    ensures Inv(m, Next(m, t, Invalidate(s)))
  {
    var x, t' := t.sessions[s], Next(m, t, Invalidate(s));
    assert SessionOk(m, t.log, x);
    assert t.log[x.due.base + 0].write == m.meaning(x.db, x.due.texts[0]);
    if |x.due.texts| > 1 {
      var rest := t'.sessions[s].due;
      forall j | 0 <= j < |rest.texts| ensures t'.log[rest.base + j].write == m.meaning(x.db, rest.texts[j]) {
        assert t.log[x.due.base + (j + 1)].write == m.meaning(x.db, x.due.texts[j + 1]);
      }
    }
    hide Inv;
    DropStep(m, t, t', s, x.due.base, 1);
  }

  lemma FlushStep<DB(!new), Q(!new), T, W(!new), V>(m: World<DB, Q, T, W, V>, t: State<DB, Q, T, W, V>, s: nat)
    requires Inv(m, t) && Enabled(t, Flush(s))
    ensures Inv(m, Next(m, t, Flush(s)))
  {
    var x := t.sessions[s];
    assert SessionOk(m, t.log, x);
    DropStep(m, t, Next(m, t, Flush(s)), s, x.due.base, x.due.count);
  }

  lemma QuietSession<DB, Q, T, W, V>(m: World<DB, Q, T, W, V>, t: State<DB, Q, T, W, V>, a: Action<Q, T>)
    requires Inv(m, t) && Enabled(t, a)
    requires a.Abandon? || a.Evict? || a.Begin? || a.WriteInTx? || a.Rollback? || a.UseDB? || a.GoUnsafe? || a.Reset?
    ensures Inv(m, Next(m, t, a))
  {
    var t' := Next(m, t, a);
    forall s | 0 <= s < |t.sessions|
      ensures t'.sessions[s].due == t.sessions[s].due && SessionOk(m, t.log, t'.sessions[s])
    {
      assert SessionOk(m, t.log, t.sessions[s]);
    }
    QuietStep(m, t, t');
  }

  lemma StepKeeps<DB(!new), Q(!new), T, W(!new), V>(m: World<DB, Q, T, W, V>, t: State<DB, Q, T, W, V>, a: Action<Q, T>)
    requires Sound(m) && Inv(m, t) && Enabled(t, a)
    ensures Inv(m, Next(m, t, a))
  {
    hide Inv, Next;
    match a
    case Execute(q) => ExecuteStep(m, t, q);
    case Store(i) => StoreStep(m, t, i);
    case Autocommit(s, text, observed) => AutocommitStep(m, t, s, text, observed);
    case Commit(s) => CommitStep(m, t, s);
    case CommitLost(s) => CommitLostStep(m, t, s);
    case Invalidate(s) => InvalidateStep(m, t, s);
    case Flush(s) => FlushStep(m, t, s);
    case _ => QuietSession(m, t, a);
  }
}
