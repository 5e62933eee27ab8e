/** Which node the statements of a session run on, over whole runs
    (internal/proxy/session.go, route, backend and maybeRelease). */
module Routing {
  import opened Common
  import opened Statement

  /** A session, to the router: the node of the connection it holds, if it holds
      one, and what it may have left there. busy is what the connection says of
      itself: in a transaction, or autocommit off. */
  datatype Session<N> = Session(at: Option<N>, pinned: bool, inTx: bool, openStmts: nat, holdNext: bool, busy: bool)

  /** What a statement finds when it is routed: the primary, whether it takes
      writes, whether the session has just written, and the reader in turn. */
  datatype Now<N> = Now(primary: N, accepts: bool, sticky: bool, reader: N)

  predicate Releasable<N>(x: Session<N>) { !x.pinned && !x.inTx && x.openStmts == 0 && (x.at.Some? ==> !x.busy) }

  /** A session that holds anything does not move. */
  predicate Held<N>(x: Session<N>) { x.at.Some? && (!Releasable(x) || x.holdNext) }

  predicate WriteBound(kind: Kind) { !kind.Select? && !kind.Other? }

  /** route; None when the primary takes no writes. */
  function Route<N>(x: Session<N>, kind: Kind, now: Now<N>): Option<N> {
    if Held(x) then x.at
    else if WriteBound(kind) || x.inTx then if now.accepts then Some(now.primary) else None
    else if now.sticky then Some(now.primary) else Some(now.reader)
  }

  /** What a statement leaves: something that pins, an open transaction by its
      own status or by the connection's, and a companion expected after it. */
  datatype Trace = Trace(pins: bool, inTx: bool, busy: bool, companion: bool)

  datatype Action<N> =
    | Query(kind: Kind, now: Now<N>, left: Trace)
    | Listing(now: Now<N>)                  // a paginated listing, kept for its count
    | FoundRows(now: Now<N>)                // and that count
    | Prepare(now: Now<N>)
    | Execute(kind: Kind, left: Trace)      // a prepared statement, where it was prepared
    | CloseStmt
    | Reset
    | Lose                                  // a connection error

  /** Where an action runs; None when it does not. */
  function RunsAt<N>(x: Session<N>, a: Action<N>): Option<N> {
    match a
    case Query(kind, now, _) => Route(x, kind, now)
    case Listing(now) => if x.inTx then None else Route(x, Select, now)
    case FoundRows(now) => if x.inTx then None else Route(x, Select, now)
    case Prepare(now) => Route(x, Write, now)
    case Execute(_, _) => if x.openStmts > 0 then x.at else None
    case _ => None
  }

  // trackSafety.
  function Tracked<N>(x: Session<N>, kind: Kind, left: Trace): Session<N> {
    x.(inTx := left.inTx || kind.Begin? || (x.inTx && !kind.Commit? && !kind.Rollback?),
       pinned := x.pinned || left.pins || kind.Unsafe?, busy := left.busy, holdNext := x.holdNext || left.companion)
  }

  // maybeRelease, with multiplexing on or off.
  function Released<N>(x: Session<N>, mux: bool): Session<N> {
    if !mux || x.at.None? || !Releasable(x) then x
    else if x.holdNext then x.(holdNext := false)
    else Gone(x)
  }

  function Gone<N>(x: Session<N>): Session<N> { x.(at := None, busy := false) }

  // With a connection of the node: the one held, or another as it comes from its pool.
  function On<N(==)>(x: Session<N>, n: N): Session<N> { if x.at == Some(n) then x else x.(at := Some(n), busy := false) }

  function Next<N(==)>(x: Session<N>, a: Action<N>, mux: bool): Session<N> {
    var ran := RunsAt(x, a);
    match a
    case Query(kind, _, left) => if ran.Some? then Released(Tracked(On(x, ran.value), kind, left), mux) else x
    case Listing(_) => if ran.Some? then On(x, ran.value) else x
    case FoundRows(_) => if ran.Some? then Released(On(x, ran.value), mux) else x
    case Prepare(_) => if ran.Some? then On(x, ran.value).(openStmts := x.openStmts + 1) else x
    case Execute(kind, left) => if ran.Some? then Tracked(x, kind, left) else x
    case CloseStmt => Released(x.(openStmts := if x.openStmts > 0 then x.openStmts - 1 else 0), mux)
    case Reset => Fresh()
    case Lose => Gone(x)
  }

  function Fresh<N>(): Session<N> { Session(None, false, false, 0, false, false) }

  function After<N(==)>(run: seq<Action<N>>, mux: bool): Session<N>
    decreases |run|
  {
    if run == [] then Fresh() else Next(After(run[..|run| - 1], mux), run[|run| - 1], mux)
  }

  /** Where the i-th action of a run ran. */
  function RanAt<N(==)>(run: seq<Action<N>>, i: nat, mux: bool): Option<N>
    requires i < |run|
  {
    RunsAt(After(run[..i], mux), run[i])
  }

  /** A statement is refused exactly when it has to go to a primary that takes no
      writes; a read of a session that holds nothing, and has not just written,
      goes to the reader in turn; and what holds a session keeps it where it is. */
  lemma RoutesWhere<N>(x: Session<N>, kind: Kind, now: Now<N>)
    requires x.at.Some? && !x.holdNext
    ensures x.pinned || x.inTx || x.openStmts > 0 || x.busy ==> Route(x, kind, now) == x.at
    ensures !x.pinned && !x.inTx && x.openStmts == 0 && !x.busy ==>
              Route(x, kind, now) == if kind.Select? || kind.Other? then Some(if now.sticky then now.primary else now.reader)
                                     else if now.accepts then Some(now.primary) else None
  {
  }

  // --- writes and the primary ---

  predicate Routed<N>(a: Action<N>) { a.Query? || a.Listing? || a.FoundRows? || a.Prepare? }

  predicate Writes<N>(a: Action<N>) { a.Prepare? || ((a.Query? || a.Execute?) && WriteBound(a.kind)) }

  /** What leads writes astray: a statement that leaves something on another node
      than the primary; or a connection lost while the session still believes
      that something of its own is on whatever connection it gets next. */
  predicate Strands<N(==)>(x: Session<N>, a: Action<N>, p: N, mux: bool) {
    || (a.Query? && RunsAt(x, a).Some? && RunsAt(x, a) != Some(p)
        && (a.left.pins || a.left.inTx || a.left.busy || (!mux && a.left.companion)))
    || (a.Lose? && (x.pinned || x.openStmts > 0 || (x.holdNext && !x.inTx)))
  }

  // Away from the primary it holds nothing, nor without a connection.
  predicate Anchored<N(==)>(x: Session<N>, p: N) {
    x.at != Some(p) ==>
      && !x.pinned && x.openStmts == 0 && !x.busy && (x.inTx ==> x.at.None?) && (x.holdNext ==> x.inTx)
  }

  lemma NextAnchored<N>(x: Session<N>, a: Action<N>, p: N, mux: bool)
    requires Anchored(x, p) && (Routed(a) ==> a.now.primary == p) && !Strands(x, a, p, mux)
    ensures Anchored(Next(x, a, mux), p)
    ensures Writes(a) && RunsAt(x, a).Some? ==> RunsAt(x, a) == Some(p)
  {
  }

  /** The i-th action of a run strands nothing, with this primary. */
  predicate Sound<N(==)>(run: seq<Action<N>>, i: nat, p: N, mux: bool)
    requires i < |run|
  {
    (Routed(run[i]) ==> run[i].now.primary == p) && !Strands(After(run[..i], mux), run[i], p, mux)
  }

  lemma {:induction false} RunAnchored<N>(run: seq<Action<N>>, p: N, mux: bool)
    requires forall i: nat :: i < |run| ==> Sound(run, i, p, mux)
    ensures Anchored(After(run, mux), p)
    decreases |run|
  {
    if run != [] {
      var k, init := |run| - 1, run[..|run| - 1];
      forall i: nat | i < k ensures Sound(init, i, p, mux) { assert init[..i] == run[..i] && Sound(run, i, p, mux); }
      RunAnchored(init, p, mux);
      assert Sound(run, k, p, mux);
      NextAnchored(After(init, mux), run[k], p, mux);
    }
  }

  /** In every run, a write that runs at all runs on the primary, as long as no
      action before it left anything elsewhere. */
  lemma WritesRunOnThePrimary<N>(run: seq<Action<N>>, k: nat, p: N, mux: bool)
    requires k < |run| && Writes(run[k]) && RanAt(run, k, mux).Some? && (Routed(run[k]) ==> run[k].now.primary == p)
    requires forall i: nat :: i < k ==> Sound(run, i, p, mux)
    ensures RanAt(run, k, mux) == Some(p)
  {
    var before := run[..k];
    forall i: nat | i < k ensures Sound(before, i, p, mux) { assert before[..i] == run[..i] && Sound(run, i, p, mux); }
    RunAnchored(before, p, mux);
  }

  lemma AfterTwo<N>(a: Action<N>, b: Action<N>, mux: bool)
    ensures After([a], mux) == Next(Fresh(), a, mux) && After([a, b], mux) == Next(After([a], mux), b, mux)
  {
    assert [a][..0] == [] && [a, b][..1] == [a];
  }

  /** Such actions do lead writes astray: a SELECT that takes a lock, or sets a
      variable, runs on a reader and pins the session there, and its next write
      runs there too. */
  lemma LockStrandsWrites<N>(p: N, r: N, mux: bool)
    requires p != r
    ensures var now, pins := Now(p, true, false, r), Trace(true, false, false, false);
            RanAt([Query(Select, now, pins), Query(Write, now, Trace(false, false, false, false))], 1, mux) == Some(r)
  {
    var now, pins := Now(p, true, false, r), Trace(true, false, false, false);
    var write := Query(Write, now, Trace(false, false, false, false));
    AfterTwo(Query(Select, now, pins), write, mux);
    assert [Query(Select, now, pins), write][..1] == [Query(Select, now, pins)];
  }

  /** A pinned session that loses its connection stays pinned: its next read may
      take it to a reader, where its next write then runs. */
  lemma LossStrandsWrites<N>(p: N, r: N, mux: bool)
    requires p != r
    ensures var now, nothing := Now(p, true, false, r), Trace(false, false, false, false);
            RanAt([Query(Unsafe, now, nothing), Lose, Query(Select, now, nothing), Query(Write, now, nothing)], 3, mux) == Some(r)
  {
    var now, nothing := Now(p, true, false, r), Trace(false, false, false, false);
    var run := [Query(Unsafe, now, nothing), Lose, Query(Select, now, nothing), Query(Write, now, nothing)];
    AfterTwo(run[0], run[1], mux);
    assert run[..3][..2] == [run[0], run[1]] && run[..3][2] == run[2];
    var x := After(run[..3][..2], mux);
    assert x.pinned && x.at == None;
    assert After(run[..3], mux) == Next(x, run[2], mux);
  }

  // --- transactions ---

  predicate EndsTx<N>(a: Action<N>) {
    a.Reset? || a.Lose? || ((a.Query? || a.Execute?) && (a.kind.Commit? || a.kind.Rollback?))
  }

  lemma {:induction false} InTransaction<N>(run: seq<Action<N>>, i: nat, k: nat, mux: bool)
    requires i < k <= |run| && run[i].Query? && run[i].kind.Begin? && RanAt(run, i, mux).Some?
    requires forall j :: i < j < k ==> !EndsTx(run[j])
    ensures After(run[..k], mux).inTx && After(run[..k], mux).at == RanAt(run, i, mux)
    decreases k
  {
    assert run[..k][..k - 1] == run[..k - 1];
    if k > i + 1 { InTransaction(run, i, k - 1, mux); }
  }

  /** Everything inside a transaction runs where its BEGIN ran, the COMMIT too. */
  lemma TransactionStays<N>(run: seq<Action<N>>, i: nat, k: nat, mux: bool)
    requires i < k < |run| && run[i].Query? && run[i].kind.Begin? && RanAt(run, i, mux).Some?
    requires forall j :: i < j < k ==> !EndsTx(run[j])
    ensures RanAt(run, k, mux).Some? ==> RanAt(run, k, mux) == RanAt(run, i, mux)
  {
    InTransaction(run, i, k, mux);
  }

  // --- companions ---

  /** A statement whose companion (FOUND_ROWS(), LAST_INSERT_ID()) has to run on the
      same connection keeps that connection for one more statement. But with
      multiplexing on nothing ties the companion to it: it runs there exactly
      when that is where it would be sent anyway. */
  lemma CompanionRuns<N>(x: Session<N>, kind: Kind, now: Now<N>, left: Trace, later: Now<N>, next: Trace, mux: bool)
    requires Route(x, kind, now).Some? && left.companion && !x.inTx
    requires Releasable(Tracked(On(x, Route(x, kind, now).value), kind, left))
    ensures var n, x' := Route(x, kind, now), Next(x, Query(kind, now, left), mux);
            x'.at == n && (RunsAt(x', Query(Select, later, next)) == n <==>
                           !mux || n == Some(if later.sticky then later.primary else later.reader))
  {
  }
}
