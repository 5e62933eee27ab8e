/** Paginated listings and their FOUND_ROWS() (internal/cache/paired.go;
    internal/proxy/session.go, handleListing and serveFoundRows), over every
    interleaving, with FOUND_ROWS() right after its listing on the connection
    that ran it. */
module Pairing {
  import opened Common

  /** Rows and total of a listing in a database; affects says which listings a
      write may change. */
  datatype Listings<!DB, !Q, !W, !R> = Listings(rows: (DB, Q) -> R, total: (DB, Q) -> nat, apply: (DB, W) -> DB, affects: (W, Q) -> bool)

  ghost predicate Sound<DB(!new), Q(!new), W(!new), R>(m: Listings<DB, Q, W, R>) {
    forall db, w, q :: !m.affects(w, q) ==> m.rows(m.apply(db, w), q) == m.rows(db, q) && m.total(m.apply(db, w), q) == m.total(db, q)
  }

  /** A count: the database it was taken in (at), the session it belongs to, when
      that session's listing ran, and when its rows were stored, if they were. */
  datatype Count = Count(value: nat, at: nat, owner: nat, ran: nat, kept: Option<nat>)

  /** A stored listing: its rows, the database they are from, the session whose
      listing this was, when it ran and was stored, and the count if it has been
      captured. */
  datatype Stored<R> = Stored(rows: R, at: nat, owner: nat, ran: nat, stored: nat, count: Option<Count>)

  /** What a session is between: nothing, a listing executed but not stored,
      one whose FOUND_ROWS() is to come, or one served with its count. */
  datatype Phase<Q, R> = Idle | Executed(q: Q, rows: R, count: Count) | Pending(q: Q, count: Count) | Served(q: Q, entry: Stored<R>)

  /** past[i] is the database after i writes; writes[i], the write that came then;
      now counts the steps of everybody. */
  datatype State<DB, Q, W, R> = State(past: seq<DB>, writes: seq<Option<W>>, now: nat, stored: map<Q, Stored<R>>, sessions: seq<Phase<Q, R>>)

  datatype Action<Q, W> =
    | List(s: nat, q: Q)        // run on the backend: no paired entry to serve
    | Store(s: nat)
    | Skip(s: nat)              // not cacheable, or too large to store
    | Found(s: nat)             // FOUND_ROWS(), completing the entry if there is one
    | Serve(s: nat, q: Q)       // LookupPaired
    | Leave(s: nat)             // any other statement
    | Apply(w: W)               // a write reaches the database
    | Drop(q: Q)                // an entry goes: invalidated, expired or evicted

  predicate Shape<DB, Q, W, R>(t: State<DB, Q, W, R>) { |t.past| == |t.writes| + 1 }

  predicate Enabled<DB, Q, W, R>(t: State<DB, Q, W, R>, a: Action<Q, W>) {
    match a
    case List(s, q) => s < |t.sessions| && t.sessions[s].Idle? && (q in t.stored ==> t.stored[q].count.None?)
    case Store(s) => s < |t.sessions| && t.sessions[s].Executed?
    case Skip(s) => s < |t.sessions| && t.sessions[s].Executed?
    case Found(s) => s < |t.sessions| && t.sessions[s].Pending?
    case Serve(s, q) => s < |t.sessions| && t.sessions[s].Idle? && q in t.stored && t.stored[q].count.Some?
    case Leave(s) => s < |t.sessions| && !t.sessions[s].Executed?
    case Apply(_) => true
    case Drop(_) => true
  }

  function Next<DB, Q, W, R>(m: Listings<DB, Q, W, R>, t: State<DB, Q, W, R>, a: Action<Q, W>): State<DB, Q, W, R>
    requires Shape(t) && Enabled(t, a)
  {
    var db, now := |t.writes|, t.now;
    var t := t.(now := now + 1);
    match a
    case List(s, q) =>
      var count := Count(m.total(t.past[db], q), db, s, now, None);
      t.(sessions := t.sessions[s := Executed(q, m.rows(t.past[db], q), count)])
    case Store(s) =>
      var p := t.sessions[s];
      t.(stored := t.stored[p.q := Stored(p.rows, p.count.at, s, p.count.ran, now, None)],
         sessions := t.sessions[s := Pending(p.q, p.count.(kept := Some(now)))])
    case Skip(s) => t.(sessions := t.sessions[s := Pending(t.sessions[s].q, t.sessions[s].count)])
    case Found(s) =>
      var p := t.sessions[s];
      var t := t.(sessions := t.sessions[s := Idle]);
      if p.q in t.stored then t.(stored := t.stored[p.q := t.stored[p.q].(count := Some(p.count))]) else t
    case Serve(s, q) => t.(sessions := t.sessions[s := Served(q, t.stored[q])])
    case Leave(s) => t.(sessions := t.sessions[s := Idle])
    case Apply(w) => t.(past := t.past + [m.apply(t.past[db], w)], writes := t.writes + [Some(w)])
    case Drop(q) => t.(stored := t.stored - {q})
  }

  // --- what every run keeps ---

  predicate RowsOf<DB, Q, W, R(==)>(m: Listings<DB, Q, W, R>, t: State<DB, Q, W, R>, q: Q, rows: R, at: nat) {
    at < |t.past| && rows == m.rows(t.past[at], q)
  }

  predicate CountOf<DB, Q, W, R>(m: Listings<DB, Q, W, R>, t: State<DB, Q, W, R>, q: Q, count: Count) {
    count.at < |t.past| && count.value == m.total(t.past[count.at], q)
  }

  ghost predicate History<DB, Q, W, R>(m: Listings<DB, Q, W, R>, t: State<DB, Q, W, R>) {
    Shape(t) && forall i :: 0 <= i < |t.writes| ==> t.writes[i].Some? && t.past[i + 1] == m.apply(t.past[i], t.writes[i].value)
  }

  // A count and the entry it completes: of one listing, or the count's session
  // did not store its rows, or another stored the listing after it did.
  predicate Matched<R>(e: Stored<R>, c: Count) {
    || (c.kept == Some(e.stored) && c.owner == e.owner && c.ran == e.ran && c.at == e.at)
    || c.kept.None?
    || (c.owner != e.owner && c.kept.value < e.stored)
  }

  ghost predicate EntryOk<DB, Q, W, R>(m: Listings<DB, Q, W, R>, t: State<DB, Q, W, R>, q: Q, e: Stored<R>) {
    && RowsOf(m, t, q, e.rows, e.at) && e.ran < e.stored < t.now
    && (e.count.Some? ==> CountOf(m, t, q, e.count.value) && Timely(t, e.count.value) && Matched(e, e.count.value))
  }

  predicate Timely<DB, Q, W, R>(t: State<DB, Q, W, R>, c: Count) {
    c.ran < t.now && (c.kept.Some? ==> c.ran < c.kept.value < t.now)
  }

  ghost predicate PhaseOk<DB, Q, W, R>(m: Listings<DB, Q, W, R>, t: State<DB, Q, W, R>, s: nat)
    requires s < |t.sessions|
  {
    match t.sessions[s]
    case Idle => true
    case Executed(q, rows, count) =>
      RowsOf(m, t, q, rows, count.at) && CountOf(m, t, q, count) && Timely(t, count) && count.owner == s && count.kept == None
    case Pending(q, count) =>
      && CountOf(m, t, q, count) && Timely(t, count) && count.owner == s
      && (q in t.stored ==> Matched(t.stored[q], count))
    case Served(q, e) => EntryOk(m, t, q, e) && e.count.Some?
  }

  ghost predicate Inv<DB, Q, W, R>(m: Listings<DB, Q, W, R>, t: State<DB, Q, W, R>) {
    && History(m, t)
    && (forall q :: q in t.stored ==> EntryOk(m, t, q, t.stored[q]))
    && (forall s: nat :: s < |t.sessions| ==> PhaseOk(m, t, s))
  }

  // The past stays what it was.
  ghost predicate Longer<DB, Q, W, R>(t: State<DB, Q, W, R>, t': State<DB, Q, W, R>) {
    |t.past| <= |t'.past| && t'.now == t.now + 1 && forall i :: 0 <= i < |t.past| ==> t'.past[i] == t.past[i]
  }

  lemma StepKeeps<DB, Q, W, R>(m: Listings<DB, Q, W, R>, t: State<DB, Q, W, R>, a: Action<Q, W>)
    requires Inv(m, t) && Enabled(t, a)
    ensures Inv(m, Next(m, t, a))
  {
    var t' := Next(m, t, a);
    Lengthens(m, t, a);
    forall q | q in t'.stored ensures EntryOk(m, t', q, t'.stored[q]) { EntryKept(m, t, a, q); }
    forall s: nat | s < |t'.sessions| ensures PhaseOk(m, t', s) { PhaseKept(m, t, a, s); }
  }

  lemma Lengthens<DB, Q, W, R>(m: Listings<DB, Q, W, R>, t: State<DB, Q, W, R>, a: Action<Q, W>)
    requires Inv(m, t) && Enabled(t, a)
    ensures Longer(t, Next(m, t, a)) && History(m, Next(m, t, a)) && |Next(m, t, a).sessions| == |t.sessions|
  {
  }

  lemma EntryLater<DB, Q, W, R>(m: Listings<DB, Q, W, R>, t: State<DB, Q, W, R>, t': State<DB, Q, W, R>, q: Q, e: Stored<R>)
    requires EntryOk(m, t, q, e) && Longer(t, t')
    ensures EntryOk(m, t', q, e)
  {
  }

  lemma EntryKept<DB, Q, W, R>(m: Listings<DB, Q, W, R>, t: State<DB, Q, W, R>, a: Action<Q, W>, q: Q)
    requires Inv(m, t) && Enabled(t, a) && Longer(t, Next(m, t, a)) && q in Next(m, t, a).stored
    ensures EntryOk(m, Next(m, t, a), q, Next(m, t, a).stored[q])
  {
    var t' := Next(m, t, a);
    if q in t.stored { EntryLater(m, t, t', q, t.stored[q]); }
    if a.Store? || a.Found? { assert PhaseOk(m, t, a.s); }
  }

  lemma PhaseKept<DB, Q, W, R>(m: Listings<DB, Q, W, R>, t: State<DB, Q, W, R>, a: Action<Q, W>, s: nat)
    requires Inv(m, t) && Enabled(t, a) && Longer(t, Next(m, t, a)) && s < |t.sessions|
    ensures s < |Next(m, t, a).sessions| && PhaseOk(m, Next(m, t, a), s)
  {
    assert PhaseOk(m, t, s);
    if a.Serve? { EntryLater(m, t, Next(m, t, a), a.q, t.stored[a.q]); }
    match t.sessions[s]
    case Idle => IdleKept(m, t, a, s);
    case Executed(_, _, _) => ExecutedKept(m, t, a, s);
    case Pending(_, _) => PendingKept(m, t, a, s);
    case Served(q, e) =>
      EntryLater(m, t, Next(m, t, a), q, e);
      ServedKept(m, t, a, s);
  }

  lemma IdleKept<DB, Q, W, R>(m: Listings<DB, Q, W, R>, t: State<DB, Q, W, R>, a: Action<Q, W>, s: nat)
    requires History(m, t) && Enabled(t, a) && Longer(t, Next(m, t, a)) && s < |t.sessions| && t.sessions[s].Idle?
    requires a.Serve? ==> EntryOk(m, Next(m, t, a), a.q, t.stored[a.q])
    ensures s < |Next(m, t, a).sessions| && PhaseOk(m, Next(m, t, a), s)
  {
    hide EntryOk;
  }

  lemma ExecutedKept<DB, Q, W, R>(m: Listings<DB, Q, W, R>, t: State<DB, Q, W, R>, a: Action<Q, W>, s: nat)
    requires Shape(t) && Enabled(t, a) && Longer(t, Next(m, t, a)) && s < |t.sessions| && t.sessions[s].Executed?
    requires PhaseOk(m, t, s) && forall q :: q in t.stored ==> EntryOk(m, t, q, t.stored[q])
    ensures s < |Next(m, t, a).sessions| && PhaseOk(m, Next(m, t, a), s)
  {
  }

  lemma PendingKept<DB, Q, W, R>(m: Listings<DB, Q, W, R>, t: State<DB, Q, W, R>, a: Action<Q, W>, s: nat)
    requires Shape(t) && Enabled(t, a) && Longer(t, Next(m, t, a)) && s < |t.sessions| && t.sessions[s].Pending?
    requires PhaseOk(m, t, s)
    ensures s < |Next(m, t, a).sessions| && PhaseOk(m, Next(m, t, a), s)
  {
  }

  lemma ServedKept<DB, Q, W, R>(m: Listings<DB, Q, W, R>, t: State<DB, Q, W, R>, a: Action<Q, W>, s: nat)
    requires Shape(t) && Enabled(t, a) && s < |t.sessions| && t.sessions[s].Served?
    requires PhaseOk(m, t, s) && EntryOk(m, Next(m, t, a), t.sessions[s].q, t.sessions[s].entry)
    ensures s < |Next(m, t, a).sessions| && PhaseOk(m, Next(m, t, a), s)
  {
    assert t.sessions[s].entry.count.Some?;
    hide EntryOk;
  }

  function Run<DB, Q, W, R>(m: Listings<DB, Q, W, R>, t: State<DB, Q, W, R>, run: seq<Action<Q, W>>): (r: Option<State<DB, Q, W, R>>)
    requires Shape(t)
    ensures r.Some? ==> Shape(r.value)
    decreases |run|
  {
    if run == [] then Some(t)
    else
      match Run(m, t, run[..|run| - 1])
      case None => None
      case Some(u) => if Enabled(u, run[|run| - 1]) then Some(Next(m, u, run[|run| - 1])) else None
  }

  function Start<DB, Q, W, R>(db: DB, sessions: nat): State<DB, Q, W, R> {
    State([db], [], 0, map[], seq(sessions, i => Idle))
  }

  /** A run of sessions that begin with an empty cache ends in t. */
  ghost predicate IsRun<DB, Q, W, R>(m: Listings<DB, Q, W, R>, db: DB, sessions: nat, run: seq<Action<Q, W>>, t: State<DB, Q, W, R>) {
    Run(m, Start(db, sessions), run) == Some(t)
  }

  lemma {:induction false} RunKeeps<DB, Q, W, R>(m: Listings<DB, Q, W, R>, db: DB, sessions: nat, run: seq<Action<Q, W>>,
                                                 t: State<DB, Q, W, R>)
    requires IsRun(m, db, sessions, run, t)
    ensures Inv(m, t)
    decreases |run|
  {
    if run != [] {
      var u := Run(m, Start(db, sessions), run[..|run| - 1]).value;
      RunKeeps(m, db, sessions, run[..|run| - 1], u);
      StepKeeps(m, u, run[|run| - 1]);
    }
  }

  /** A write that may change the listing came between two times. */
  ghost predicate Between<DB, Q, W, R>(m: Listings<DB, Q, W, R>, t: State<DB, Q, W, R>, q: Q, x: nat, y: nat) {
    exists i :: 0 <= i < |t.writes| && t.writes[i].Some? && m.affects(t.writes[i].value, q) && (x <= i < y || y <= i < x)
  }

  lemma {:induction false} SameAnswer<DB(!new), Q(!new), W(!new), R>(m: Listings<DB, Q, W, R>, t: State<DB, Q, W, R>, q: Q, x: nat, y: nat)
    requires Sound(m) && History(m, t) && x <= y < |t.past| && !Between(m, t, q, x, y)
    ensures m.rows(t.past[x], q) == m.rows(t.past[y], q) && m.total(t.past[x], q) == m.total(t.past[y], q)
    decreases y - x
  {
    if x < y {
      var w := t.writes[y - 1].value;
      assert t.past[y - 1 + 1] == m.apply(t.past[y - 1], w);
      assert !m.affects(w, q);
      assert !Between(m, t, q, x, y - 1);
      SameAnswer(m, t, q, x, y - 1);
    }
  }

  /** What LookupPaired serves: rows and count of one listing, hence of one
      database state. Otherwise the session whose count it is did not store its
      own rows, or another session stored the listing after it did; and even
      then they are of one state, unless a write that concerns the listing was
      applied between the two. */
  lemma ServedBelongTogether<DB(!new), Q(!new), W(!new), R>(
      m: Listings<DB, Q, W, R>, db: DB, sessions: nat, run: seq<Action<Q, W>>, t: State<DB, Q, W, R>, s: nat)
    requires Sound(m) && IsRun(m, db, sessions, run, t) && s < |t.sessions| && t.sessions[s].Served?
    ensures t.sessions[s].entry.count.Some?
    ensures var q, e := t.sessions[s].q, t.sessions[s].entry;
            var c := e.count.value;
            || (c.owner == e.owner && c.ran == e.ran && e.at == c.at && AtOnce(m, t, q, e))
            || ((c.kept.None? || (c.owner != e.owner && c.ran < c.kept.value < e.stored))
                && (AtOnce(m, t, q, e) || Between(m, t, q, e.at, c.at)))
  {
    RunKeeps(m, db, sessions, run, t);
    assert PhaseOk(m, t, s);
    var q, e := t.sessions[s].q, t.sessions[s].entry;
    var c := e.count.value;
    assert e.rows == m.rows(t.past[e.at], q) && c.value == m.total(t.past[c.at], q);
    if !Between(m, t, q, e.at, c.at) {
      assert !Between(m, t, q, c.at, e.at);
      if e.at <= c.at { SameAnswer(m, t, q, e.at, c.at); } else { SameAnswer(m, t, q, c.at, e.at); }
      assert e.rows == m.rows(t.past[e.at], q) && c.value == m.total(t.past[e.at], q);
    }
  }

  /** There was a database with these rows and this count. */
  predicate AtOnce<DB, Q, W, R(==)>(m: Listings<DB, Q, W, R>, t: State<DB, Q, W, R>, q: Q, e: Stored<R>)
    requires e.count.Some?
  {
    exists k :: 0 <= k < |t.past| && e.rows == m.rows(t.past[k], q) && e.count.value.value == m.total(t.past[k], q)
  }

  // --- an undisturbed listing is served ---

  predicate Of<Q, W>(a: Action<Q, W>, s: nat) { !a.Apply? && !a.Drop? && a.s == s }

  // An action that takes, replaces or completes the entry of a listing.
  predicate Concerns<DB, Q(==), W, R>(t: State<DB, Q, W, R>, a: Action<Q, W>, q: Q) {
    match a
    case Drop(p) => p == q
    case Store(s) => s < |t.sessions| && t.sessions[s].Executed? && t.sessions[s].q == q
    case Found(s) => s < |t.sessions| && t.sessions[s].Pending? && t.sessions[s].q == q
    case _ => false
  }

  /** A run of other sessions, in which nothing concerns a listing. */
  ghost predicate Others<DB, Q, W, R>(m: Listings<DB, Q, W, R>, t: State<DB, Q, W, R>, run: seq<Action<Q, W>>, s: nat, q: Q)
    requires Shape(t)
    decreases |run|
  {
    Run(m, t, run).Some?
    && (run != [] ==> var init, last := run[..|run| - 1], run[|run| - 1];
                      Others(m, t, init, s, q) && !Of(last, s) && !Concerns(Run(m, t, init).value, last, q))
  }

  lemma {:induction false} OthersKeep<DB, Q, W, R>(m: Listings<DB, Q, W, R>, t: State<DB, Q, W, R>, run: seq<Action<Q, W>>, s: nat, q: Q)
    requires Shape(t) && s < |t.sessions| && Others(m, t, run, s, q)
    ensures var u := Run(m, t, run).value;
            && |u.sessions| == |t.sessions| && u.sessions[s] == t.sessions[s]
            && (q in u.stored <==> q in t.stored) && (q in t.stored ==> u.stored[q] == t.stored[q])
    decreases |run|
  {
    if run != [] { OthersKeep(m, t, run[..|run| - 1], s, q); }
  }

  /** A session that lists, stores and asks for the count, with other sessions at
      work in between but not on that listing, leaves its own rows and its own
      count, of the database it listed, to be served to any session. */
  lemma OwnListingIsServed<DB, Q, W, R>(m: Listings<DB, Q, W, R>, t: State<DB, Q, W, R>, s: nat, q: Q,
                                        before: seq<Action<Q, W>>, after: seq<Action<Q, W>>)
    requires Shape(t) && Enabled(t, List(s, q)) && Others(m, Next(m, t, List(s, q)), before, s, q)
    ensures var u := Run(m, Next(m, t, List(s, q)), before).value;
            && Enabled(u, Store(s))
            && (Others(m, Next(m, u, Store(s)), after, s, q) ==>
                  var v := Run(m, Next(m, u, Store(s)), after).value;
                  && Enabled(v, Found(s)) && Shape(v)
                  && OwnPair(m, t, Next(m, v, Found(s)), s, q))
  {
    var t1 := Next(m, t, List(s, q));
    OthersKeep(m, t1, before, s, q);
    var u := Run(m, t1, before).value;
    if Others(m, Next(m, u, Store(s)), after, s, q) { OthersKeep(m, Next(m, u, Store(s)), after, s, q); }
  }

  // The rows and the count of a session's own listing, there to be served.
  ghost predicate OwnPair<DB, Q, W, R>(m: Listings<DB, Q, W, R>, t: State<DB, Q, W, R>, t': State<DB, Q, W, R>, s: nat, q: Q)
    requires Shape(t)
  {
    && q in t'.stored && t'.stored[q].owner == s && t'.stored[q].rows == m.rows(t.past[|t.writes|], q)
    && t'.stored[q].count.Some? && t'.stored[q].count.value.value == m.total(t.past[|t.writes|], q)
    && forall r: nat :: r < |t'.sessions| && t'.sessions[r].Idle? ==> Enabled(t', Serve(r, q))
  }

  // --- both exceptions are real ---

  // Listings of one table that holds a number of rows; writes replace it.
  function Counting(): Listings<nat, int, nat, nat> {
    Listings((db: nat, q: int) => db, (db: nat, q: int) => db, (db: nat, w: nat) => w, (w: nat, q: int) => true)
  }

  lemma RunOne<DB, Q, W, R>(m: Listings<DB, Q, W, R>, t: State<DB, Q, W, R>, run: seq<Action<Q, W>>, k: nat, u: State<DB, Q, W, R>)
    requires Shape(t) && k < |run| && Run(m, t, run[..k]) == Some(u) && Enabled(u, run[k])
    ensures Run(m, t, run[..k + 1]) == Some(Next(m, u, run[k])) && Shape(Next(m, u, run[k]))
  {
    assert run[..k + 1][..k] == run[..k];
  }

  // The rows and the count served are of different databases.
  predicate Mixed(t: State<nat, int, nat, nat>, s: nat, rows: nat, total: nat) {
    && s < |t.sessions| && t.sessions[s].Served? && t.sessions[s].entry.rows == rows
    && t.sessions[s].entry.count.Some? && t.sessions[s].entry.count.value.value == total
  }

  // Session 0 has listed and stored.
  function Listed(): State<nat, int, nat, nat> {
    State([3], [], 2, map[0 := Stored(3, 0, 0, 0, 1, None)], [Pending(0, Count(3, 0, 0, 0, Some(1))), Idle])
  }

  lemma FirstListed(run: seq<Action<int, nat>>)
    requires |run| >= 2 && run[0] == List(0, 0) && run[1] == Store(0)
    ensures Run(Counting(), Start(3, 2), run[..2]) == Some(Listed())
  {
    var m, t0 := Counting(), Start<nat, int, nat, nat>(3, 2);
    var t1 := Next(m, t0, run[0]);
    RunOne(m, t0, run, 0, t0);
    RunOne(m, t0, run, 1, t1);
    hide Run;
    assert Next(m, t1, run[1]).sessions == Listed().sessions;
  }

  /** One session lists, a write is applied, another session lists and stores
      again, and the first one's count completes the second one's rows: even
      before the write has dropped anything. */
  lemma MixedPairIsReal() returns (t: State<nat, int, nat, nat>)
    ensures Sound(Counting())
    ensures IsRun(Counting(), 3, 2, [List(0, 0), Store(0), Apply(4), List(1, 0), Store(1), Found(0), Serve(0, 0)], t)
    ensures Mixed(t, 0, 4, 3)
  {
    var m := Counting();
    var run: seq<Action<int, nat>> := [List(0, 0), Store(0), Apply(4), List(1, 0), Store(1), Found(0), Serve(0, 0)];
    var t0: State<nat, int, nat, nat> := Start(3, 2);
    FirstListed(run);
    hide Run, Start;
    var t2 := Listed();
    RunOne(m, t0, run, 2, t2);
    var t3 := Next(m, t2, run[2]);
    RunOne(m, t0, run, 3, t3);
    var t4 := Next(m, t3, run[3]);
    RunOne(m, t0, run, 4, t4);
    var t5 := Next(m, t4, run[4]);
    RunOne(m, t0, run, 5, t5);
    var t6 := Next(m, t5, run[5]);
    RunOne(m, t0, run, 6, t6);
    t := Next(m, t6, run[6]);
    assert run[..7] == run;
  }

  // Its rows still wait for their count after a write.
  function Waiting(): State<nat, int, nat, nat> {
    State([3, 4], [Some(4)], 4, map[0 := Stored(3, 0, 0, 0, 1, None)], [Idle, Idle])
  }

  lemma ThenWaiting(run: seq<Action<int, nat>>)
    requires |run| >= 4 && run[..4] == [List(0, 0), Store(0), Leave(0), Apply(4)]
    ensures Run(Counting(), Start(3, 2), run[..4]) == Some(Waiting())
  {
    var m, t0 := Counting(), Start<nat, int, nat, nat>(3, 2);
    assert forall i :: 0 <= i < 4 ==> run[i] == run[..4][i];
    FirstListed(run);
    hide Run, Start;
    RunOne(m, t0, run, 2, Listed());
    var t3 := Next(m, Listed(), run[2]);
    RunOne(m, t0, run, 3, t3);
    var t4 := Next(m, t3, run[3]);
    assert t4.past == [3, 4] && t4.writes == [Some(4)] && t4.sessions == [Idle, Idle];
  }

  /** A session whose own result was not stored completes older rows that were
      still waiting for their count. */
  lemma SkippedCountMixes() returns (t: State<nat, int, nat, nat>)
    ensures IsRun(Counting(), 3, 2, [List(0, 0), Store(0), Leave(0), Apply(4), List(1, 0), Skip(1), Found(1), Serve(1, 0)], t)
    ensures Mixed(t, 1, 3, 4)
  {
    var m := Counting();
    var run: seq<Action<int, nat>> := [List(0, 0), Store(0), Leave(0), Apply(4), List(1, 0), Skip(1), Found(1), Serve(1, 0)];
    var t0: State<nat, int, nat, nat> := Start(3, 2);
    assert run[..4] == [List(0, 0), Store(0), Leave(0), Apply(4)];
    ThenWaiting(run);
    Skipped();
    Completes();
    hide Run, Start, Next, Enabled, Counting, Waiting, Counted, Completed, Mixed;
    RunOne(m, t0, run, 4, Waiting());
    RunOne(m, t0, run, 5, Next(m, Waiting(), run[4]));
    RunOne(m, t0, run, 6, Counted());
    RunOne(m, t0, run, 7, Completed());
    t := Next(m, Completed(), run[7]);
    assert run[..8] == run;
  }

  // Its count has completed the older rows.
  function Completed(): State<nat, int, nat, nat> {
    State([3, 4], [Some(4)], 7, map[0 := Stored(3, 0, 0, 0, 1, Some(Count(4, 1, 1, 4, None)))], [Idle, Idle])
  }

  lemma Completes()
    ensures Shape(Counted()) && Enabled(Counted(), Found(1)) && Next(Counting(), Counted(), Found(1)) == Completed()
    ensures Shape(Completed()) && Enabled(Completed(), Serve(1, 0)) && Mixed(Next(Counting(), Completed(), Serve(1, 0)), 1, 3, 4)
  {
    var t := Next(Counting(), Counted(), Found(1));
    assert t.sessions == [Idle, Idle] && t.stored == Completed().stored;
  }

  // Session 1 has listed, and its rows were not stored.
  function Counted(): State<nat, int, nat, nat> {
    Waiting().(now := 6, sessions := [Idle, Pending(0, Count(4, 1, 1, 4, None))])
  }

  lemma Skipped()
    ensures Enabled(Waiting(), List(1, 0)) && Enabled(Next(Counting(), Waiting(), List(1, 0)), Skip(1))
    ensures Next(Counting(), Next(Counting(), Waiting(), List(1, 0)), Skip(1)) == Counted()
  {
    var t5 := Next(Counting(), Waiting(), List(1, 0));
    assert t5.sessions == [Idle, Executed(0, 4, Count(4, 1, 1, 4, None))];
  }
}
